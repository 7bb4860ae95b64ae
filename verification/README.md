# A model of the Namada proof-of-stake ledger and shielded wallet

This project models the accounting core of Namada in Dafny and proves what it promises. Amounts are unbounded naturals, changes
are integers, decimals are integers scaled by 10^12 with the truncation of the original, and storage collections are maps. Each
part has a functional specification, imperative code in the shape of the original (classes, loops, updates in place) that is
proved to refine it, and lemmas about whole runs of the specification.

| module | models |
|---|---|
| `FiniteSums`, `Types`, `Parameters` | sums over finite maps, ordered iteration, rounding, timing parameters |
| `Slashing`, `UnbondSlashing`, `SlashLists`, `SlashTiming` | slash arithmetic, slashing of (redelegated) unbonds, which slashes apply and what each takes, when evidence is accepted and slashes are recorded |
| `BondRemoval`, `Redelegations`, `Accounts` | which bonds an unbond takes, and how it splits redelegated tokens |
| `Ledger`, `LedgerInvariants`, `LedgerRoundTrip`, `LedgerLoops`, `PosLedger` | bond, unbond, redelegate and withdraw as a state machine with the tokens of the PoS account |
| `SlashedLedger` | the ledger together with the recording of slashes |
| `LedgerStake` | the ledger and the stakes on the same operations |
| `Epoched`, `EpochedDelta`, `Stake`, `StakeWindows`, `Commission` | epoched data with trimmed histories, and what is built on it |
| `ValidatorSets`, `ValidatorEpochs` | consensus and below-capacity sets, positions and states, from the current to the pipeline epoch |
| `ValidatorStates`, `TrimmedStates`, `ValidatorEffects`, `ValidatorStorage` | the states as they are stored, in one trimmed handle per validator, what each operation does to them, and the operations in place |
| `CometBft` | the validator updates before a new epoch, and unique consensus keys |
| `Rewards`, `Liveness` | block reward fractions and minting, the window of missed votes |
| `Shielded`, `ShieldedBalances`, `ShieldedFetch`, `ShieldedStorage` | scanning, balances, merging and fetching in the shielded wallet |

The main results:

- Solvency: over every run the PoS account covers all bonds and unbonds, and every withdrawal is paid (`LedgerInvariants.RunInv`,
  `WithdrawalsArePaid`); the supply is conserved (`RunSupply`). A withdrawal of unbonds that no slash applies
  to pays exactly what they hold (`LedgerRoundTrip.WithdrawnInFull`).
- The validators' totals equal the sums over all sources; every bond covers its redelegated part; an unbond is worth at most the
  amount requested (`RunInv`, `SlashedAtMostRequestedInRuns`).
- Unbonding splits every redelegated entry exactly (`Redelegations.RedelegationSplit`). With an amount of zero it would not:
  the condition is given by `ReturnedIsMinExactly`, and the callers return early on zero.
- Slashing takes exactly what it should. Over every run of transactions, evidence and new epochs, a withdrawal pays and an
  unbond or redelegation carries on exactly what the recorded slashes leave (`SlashedLedger.WithdrawalLoses`, `UnbondLoses`,
  `RedelegationMoves`): `SlashLists.Worth` says which slashes apply by infraction epoch, `TakesItsShare` what each takes, and
  `SlashesAreEvidence` that they are the accepted evidence.
- Chained redelegations: tokens move on only when all slashes for which they are liable are recorded (`LiabilitiesSettled`), and
  the rule rejects if and only if an earlier redelegation into the source validator is still waiting for some
  (`ChainedExactly`), whether or not its tokens are still there. Frozen validators and validators that come back are treated
  the same way (`FrozenExactly`, `ValidatorEffects.ComesBack`).
- The two slashing algorithms agree (`Slashing.SlashBothWays`); nobody exits before the slashes of their time are recorded
  (`SlashTiming.NoEarlyExit`); redelegated tokens meet every source slash exactly once (`ExactlyOnce`).
- Trimming is invisible, for discrete data and for deltas (`Epoched.ForwardReads`, `EpochedDelta.ForwardReads`). Slash processing
  writes at future epochs and then goes back, so the general forms (`TrimmingIsInvisible`) only ask that nothing is written
  before the oldest kept epoch.
- Total stake is the sum of stakes at every retained epoch (`Stake.TotalIsSum`). A past window of one epoch is not enough for
  this, because slash processing writes ahead of the current epoch and comes back for the next validator: it holds if and only
  if the past window has at least one epoch and at least the pipeline length (`StakeWindows.TotalsAgreeExactly`, with the
  failing runs in `NoPastBreaks` and `ShortPastBreaks`). Validated parameters are large enough (`Stake.WindowsSuffice`).
- From the pipeline epoch on, a validator's stake is its total bonded less what slashing took (`LedgerStake.StakeIsBonded`).
- The sets at the pipeline epoch are the top ones after every run, with the states as they are stored
  (`ValidatorStates.RunTopN`). States of earlier epochs can be lost: a promotion writes with the pipeline epoch as the current
  one, which trims everything more than two epochs before it. So states agree at every epoch of the window if and only if the
  pipeline has at most two epochs (`TrimmedStates.StatesAgreeExactly`); the CometBFT updates, in any order, give exactly the next
  epoch's map with no key twice if and only if it has at most three (`CometBft.UpdatesRightExactly`); and jailing finds every
  state it needs if and only if it has at most three (`TrimmedStates.JailingSafeExactly`). `TrimmedStates.FailingRun` is the
  run that shows it. The default pipeline has two epochs; validation admits every length from two on.
- Rewards: fractions of a block add up to at most one and miss it only by roundings, minting pays out exactly the inflation, and
  the shares by the rewards product with the commission are the reward but for roundings (`Rewards.FractionsAtMostOne`,
  `FractionsNearOne`, `MintIsExact`, `SharesWithinReward`, `SharesNearReward`).
- Liveness counters count exactly the missed votes in the window (`Liveness.WindowIsExact`); commission rates change gently
  (`Commission.RatesChangeGently`), and every accepted change takes effect (`RateInForce`, `ChangeTakesEffect`).
- Scanning records exactly what the tracked keys open (`Shielded.ScanIsExact`), marks exactly the notes whose nullifiers are
  revealed, and its deltas add up to the value of the unspent notes (`ShieldedBalances.SpentWhenRevealed`,
  `BalanceIsUnspent`); incremental scanning is full scanning
  (`Shielded.MergeIsFullScan`, `ShieldedFetch.FetchesAreOneScan`).

Where code and comments differ, the code is followed: `get_slashed_amount` compounds after the slash processing offset rather
than the unbonding length that its comment mentions. Panics of the code are modelled as errors or stated as conditions; for
example, a commission change finds no rate exactly under the condition of `Commission.PanicsExactly`, and so always in the epoch
of becoming a validator (`PanicsAtOnce`).

## Model

| member | source | states |
|---|---|---|
| `Types.MulCeilIsLeast` | core/src/types/token.rs:258-271 | a slashed part is the least integer not below the exact product |
| `Types.MulCeilAtMost` | core/src/types/token.rs:258-271 | a slash at a rate of at most one takes at most the amount |
| `Slashing.ComputeSlashableAmount` | proof_of_stake/src/slashing.rs:712-731 | the fold gives the rate of what is left after exactly the computed slashes that were processed by the infraction epoch |
| `Slashing.ApplyListSlashes` | proof_of_stake/src/slashing.rs:692-707 | the loop gives `AfterSlashes`, which never exceeds the amount |
| `Slashing.MarkProcessed` | proof_of_stake/src/slashing.rs:829-841 | the marked indices are exactly a prefix, the amounts processed by now, and they are taken off saturating at zero |
| `Slashing.RemoveMarked` | proof_of_stake/src/slashing.rs:842-847 | removal by descending index drops exactly the marked prefix |
| `Slashing.GetSlashedAmount` | proof_of_stake/src/slashing.rs:820-864 | on every epoch-to-rate map the in-place algorithm gives what the list algorithm gives on its slashes in epoch order |
| `Slashing.ListRecovered` | proof_of_stake/src/slashing.rs:820-828 | a list with one slash per epoch is recovered from its epoch-to-rate map |
| `Slashing.SlashBothWays` | proof_of_stake/src/slashing.rs:692-864 | the two slashing algorithms agree on every list with strictly increasing epochs |
| `SlashLists.TakesItsShare` | proof_of_stake/src/slashing.rs:692-731 | for every list in infraction order: each slash takes its rate, rounded up, of what the slashes processed by its infraction leave of the amount; of several slashes of one epoch only the last counts for later ones |
| `SlashLists.OneSlash` | proof_of_stake/src/slashing.rs:692-731 | one slash takes its rate of the amount, rounded up |
| `SlashLists.LatestOfIncreasing` | proof_of_stake/src/slashing.rs:692-707 | with one slash per epoch, all of them count for later ones |
| `SlashLists.SortOfEpoch` | proof_of_stake/src/lib.rs:778-801 | the merged list keeps the slashes of each infraction epoch in the order in which they came |
| `SlashLists.ListKnown` | proof_of_stake/src/lib.rs:778-801 | a list in infraction order is determined by its slashes of each epoch |
| `SlashLists.JoinedIsMerged` | proof_of_stake/src/lib.rs:778-801 | a redelegated entry meets exactly the source validator's slashes in its redelegation window and this validator's own ones, in infraction order |
| `SlashLists.UnbondWorth` | proof_of_stake/src/slashing.rs:869-985 | the part of an unbond that was not redelegated loses what the selected slashes take, and each redelegated entry what the joined ones take |
| `SlashLists.WorthKnown` | proof_of_stake/src/slashing.rs:869-985 | the recorded slashes alone determine what an unbond is worth |
| `SlashLists.WorthAfterOne` | proof_of_stake/src/slashing.rs:869-985 | with one slash during the bond and nothing redelegated an unbond loses that rate of it, rounded up |
| `BondRemoval.FindBondsLatestFirst` | proof_of_stake/src/lib.rs:825-854 | full removals and at most one partial entry, latest epochs first, the partial one left with a positive smaller amount |
| `BondRemoval.BondsSplit` | proof_of_stake/src/lib.rs:475-509 | at every epoch, what is unbonded plus what is left is what was there |
| `BondRemoval.UnbondedTotal` | proof_of_stake/src/lib.rs:825-854 | exactly the requested amount is unbonded, or everything if there is less |
| `BondRemoval.FindBondsToRemove` | proof_of_stake/src/lib.rs:825-854 | the descending loop gives the recursive specification |
| `Redelegations.ModifyConsistent` | proof_of_stake/src/lib.rs:868-962 | the plan for a partially unbonded redelegation meets the assumptions that its consumers write down |
| `Redelegations.EntrySplit` | proof_of_stake/src/lib.rs:964-1168 | for every consistent plan, each entry is the entry left in storage plus the entry returned |
| `Redelegations.RedelegationSplit` | proof_of_stake/src/lib.rs:538-550 | for every redelegation and positive amount: entries split, returned total is min(total redelegated, amount), the rest stays |
| `Redelegations.ReturnedIsMinExactly` | proof_of_stake/src/lib.rs:541-549 | the returned total is that minimum if and only if the amount is positive or nothing is redelegated (an empty removal list means "all") |
| `Redelegations.ComputeModifiedRedelegation` | proof_of_stake/src/lib.rs:868-962 | the loop over source validators gives the specified plan |
| `Redelegations.UpdateRedelegatedBonds` | proof_of_stake/src/lib.rs:964-1012 | the loops leave exactly the specified tokens |
| `Redelegations.ComputeNewRedelegatedUnbonds` | proof_of_stake/src/lib.rs:1039-1168 | the nested loops return exactly the specified redelegated unbonds |
| `Accounts.UnbondSplit` | proof_of_stake/src/lib.rs:463-550 | for every account and positive amount, bonds and redelegated bonds before are those after plus those taken, entry by entry |
| `Accounts.TakesRedelegatedFirst` | proof_of_stake/src/lib.rs:441-461 | from a bond that covers its redelegated part, redelegated tokens are taken first: min(total redelegated, amount taken) at each epoch |
| `Accounts.TakenTally` | proof_of_stake/src/lib.rs:432-509 | an amount within the bonds is taken in full and leaves the rest |
| `Accounts.AfterCovered` | proof_of_stake/src/lib.rs:534-550 | after taking tokens, every bond still holds at least its redelegated part |
| `Accounts.AfterUnbondCovered` | proof_of_stake/src/lib.rs:511-580 | turning bonds into unbonds keeps every bond and unbond covered and the total outstanding unchanged |
| `UnbondSlashing.SortedPermutation` | proof_of_stake/src/lib.rs:796-801 | merging slash lists orders them by epoch and neither drops nor repeats a slash |
| `UnbondSlashing.TokensAfterAtMost` | proof_of_stake/src/lib.rs:765-809 | slashing adds to no redelegated entry and not to the total |
| `UnbondSlashing.FoldAndSlashRedelegatedBonds` | proof_of_stake/src/lib.rs:765-809 | the nested loops give the total redelegated and the total after this validator's and the source validators' slashes |
| `UnbondSlashing.SlashedUnbondsAtMost` | proof_of_stake/src/slashing.rs:869-919 | unbonds that cover their redelegated part are worth at most their amount after slashing, at each bond epoch and in total |
| `UnbondSlashing.ComputeAmountAfterSlashingUnbond` | proof_of_stake/src/slashing.rs:869-919 | the loop gives the slashed amount of every bond epoch and their sum |
| `LedgerInvariants.BondInv` | proof_of_stake/src/lib.rs:206-304 | a bond keeps solvency, coverage and the agreement of totals |
| `LedgerInvariants.UnbondInv` | proof_of_stake/src/lib.rs:362-754 | so does an unbond |
| `LedgerInvariants.RedelegateInv` | proof_of_stake/src/lib.rs:1931-2136 | so does a redelegation |
| `LedgerInvariants.WithdrawInv` | proof_of_stake/src/lib.rs:1356-1492 | so does a withdrawal |
| `LedgerInvariants.StepInv` | proof_of_stake/src/lib.rs:206-2136 | so does every operation, including slash recording, new validators and new epochs |
| `LedgerInvariants.RunInv` | proof_of_stake/src/lib.rs:585-625 | over every run: the PoS account covers all bonds and unbonds, each covers its redelegated part, and the validators' totals equal the sums over all sources, entry by entry |
| `LedgerInvariants.WithdrawHasFunds` | proof_of_stake/src/lib.rs:1471-1479 | in an invariant state a withdrawal fails exactly when there is no unbond; the transfer never lacks funds |
| `LedgerInvariants.WithdrawalsArePaid` | proof_of_stake/src/lib.rs:1356-1492 | over every run, a withdrawal succeeds if and only if the source has an unbond |
| `LedgerInvariants.PaidAtMost` | proof_of_stake/src/slashing.rs:924-985 | no unbond pays out more than it holds |
| `LedgerInvariants.SlashedAtMostRequested` | proof_of_stake/src/lib.rs:638-644 | the amount after slashing never exceeds the amount requested, in total and at each bond epoch |
| `LedgerInvariants.SlashedAtMostRequestedInRuns` | proof_of_stake/src/lib.rs:638-644 | the same for every accepted unbond or redelegation in every reachable state |
| `LedgerInvariants.RunSupply` | proof_of_stake/src/lib.rs:236-237 | over every run, the operations only move tokens: the supply is conserved |
| `LedgerRoundTrip.BondCountsFromPipeline` | proof_of_stake/src/lib.rs:239-260 | a bond adds its amount from the pipeline epoch on and to no earlier epoch |
| `LedgerRoundTrip.RoundTrip` | proof_of_stake/src/lib.rs:206-1492 | bond, unbond and withdraw undo each other: without slashes, what a new account bonds and unbonds in one epoch comes back in full, exactly from the withdrawable offset on |
| `LedgerRoundTrip.WithdrawnInFull` | proof_of_stake/src/lib.rs:1356-1492 | in every reachable state: if no recorded slash applies to the withdrawable unbonds, neither of the validator nor later of a redelegation source, a withdrawal pays exactly what they hold and leaves the other unbonds |
| `LedgerStake.TakeOutTotal` | proof_of_stake/src/lib.rs:585-594 | taking an amount out of the bonds takes exactly it off the validator's total bonded |
| `LedgerStake.NextTotal` | proof_of_stake/src/lib.rs:669-684 | every operation changes a validator's total bonded by what it changes in the stake plus what slashing had taken |
| `LedgerStake.StakeIsBonded` | proof_of_stake/src/lib.rs:285-301 | over every run, from the pipeline epoch on, the stake read for a validator is the tally of its total bonded less what slashing took |
| `LedgerStake.StakeOfSpared` | proof_of_stake/src/lib.rs:2118-2133 | the stake of a validator that no slash touched is the tally of its total bonded |
| `LedgerLoops.NewUnbonds` | proof_of_stake/src/lib.rs:475-499 | the amounts unbonded from each touched epoch |
| `LedgerLoops.AddToUnbonds` | proof_of_stake/src/lib.rs:511-521 | the unbonds added at their start epoch and the withdrawable epoch |
| `LedgerLoops.AddToRedelegatedUnbonds` | proof_of_stake/src/lib.rs:552-580 | the same for redelegated unbonds, entry by entry |
| `LedgerLoops.SubFromBonded` | proof_of_stake/src/lib.rs:585-594 | the loop over the total bonded; with totals at least the amounts no subtraction underflows |
| `LedgerLoops.SubFromRedelegated` | proof_of_stake/src/lib.rs:596-625 | the triple loop over the total redelegated bonded, without underflow |
| `LedgerLoops.AddToRedelegated` | proof_of_stake/src/lib.rs:2078-2087 | the loop over the destination's total redelegated bonded |
| `LedgerLoops.SlashWithdrawn` | proof_of_stake/src/slashing.rs:924-985 | exactly the withdrawable unbonds go, for the sum of their slashed amounts |
| `PosLedger.TakeFromAccount` | proof_of_stake/src/lib.rs:432-550 | the delegator's side of an unbond in its own order of steps gives the specified account and amounts |
| `PosLedger.UnbondFromAccount` | proof_of_stake/src/lib.rs:432-580 | with the unbonds added unless the tokens are redelegated |
| `PosLedger.TotalsCover` | proof_of_stake/src/lib.rs:585-625 | the validator's totals hold at least what is taken from one delegator |
| `PosLedger.Storage.constructor` | proof_of_stake/src/lib.rs:105-122 | an empty ledger satisfies the invariant |
| `PosLedger.Storage.BondTokens` | proof_of_stake/src/lib.rs:206-304 | the specified new state, or the specified error and no change; the invariant is kept |
| `PosLedger.Storage.CheckUnbond` | proof_of_stake/src/lib.rs:387-417 | the checks in their order give the specified error |
| `PosLedger.Storage.UnbondTokens` | proof_of_stake/src/lib.rs:362-754 | the specified new state and the slashed amounts with their sum, at most the amount; or the specified error and no change; the invariant is kept |
| `PosLedger.Storage.TakeOutTokens` | proof_of_stake/src/lib.rs:432-644 | delegator and validator maps updated together, without underflow; the slashed sum is at most the amount |
| `PosLedger.Storage.CheckRedelegate` | proof_of_stake/src/lib.rs:1949-2000 | the checks in their order, with the chained-redelegation rule, give the specified error |
| `PosLedger.Storage.BringInTokens` | proof_of_stake/src/lib.rs:2021-2096 | the destination's side of a redelegation gives the specified state |
| `PosLedger.Storage.RedelegateTokens` | proof_of_stake/src/lib.rs:1931-2136 | the specified new state, or the specified error and no change; the invariant is kept |
| `PosLedger.Storage.WithdrawTokens` | proof_of_stake/src/lib.rs:1356-1492 | the specified new state and the amount paid, the tally of the slashed unbonds; the only error is a missing unbond |
| `SlashedLedger.RunSound` | proof_of_stake/src/lib.rs:206-2136 | over every run of transactions, evidence and new epochs, the ledger keeps its invariant and sees the recorded slashes in infraction order |
| `SlashedLedger.WithdrawalLoses` | proof_of_stake/src/lib.rs:1356-1492 | over every run, a withdrawal moves to the source exactly the sum of what its withdrawable unbonds are worth after the slashes of their validator while the bond contributed and of their redelegated tokens' sources |
| `SlashedLedger.UnbondLoses` | proof_of_stake/src/slashing.rs:869-919 | over every run, each bond that an accepted unbond takes from is worth what the recorded slashes since its start leave of it |
| `SlashedLedger.RedelegationMoves` | proof_of_stake/src/lib.rs:2001-2096 | over every run, exactly what is left after slashing of the bonds taken from the source arrives at the destination, as one bond from the pipeline epoch on and as entries that name the source |
| `SlashedLedger.SlashesAreEvidence` | proof_of_stake/src/slashing.rs:101-196 | over every run, for each infraction epoch whose processing epoch has started, as many slashes are recorded as evidence is ever accepted |
| `SlashedLedger.RunIncoming` | proof_of_stake/src/lib.rs:2089-2096 | over every run, the incoming redelegation epoch is the latest end epoch of the accepted redelegations into the account |
| `SlashedLedger.ChainedExactly` | proof_of_stake/src/lib.rs:1982-1999 | over every run, the chained-redelegation rule rejects if and only if an infraction before the end of some earlier redelegation of the delegator into the source validator is still pending |
| `SlashedLedger.ChainsWait` | proof_of_stake/src/lib.rs:1982-1999 | over every run, when redelegated tokens are redelegated again, no infraction before they left their own source is pending |
| `SlashedLedger.LiabilitiesSettled` | proof_of_stake/src/lib.rs:1982-1999 | so the slashes in the redelegation window of those tokens are all recorded and no later event changes them |
| `SlashedLedger.RedelegatedFromOthers` | proof_of_stake/src/lib.rs:1949-1972 | over every run, redelegated tokens came from another validator in an accepted redelegation that ended in the epoch under which they are kept |
| `SlashedLedger.ValidatorsDoNotDelegate` | proof_of_stake/src/lib.rs:1226-1239 | over every run, tokens are bonded to validators only, and a validator bonds to no other, whether it was one when it bonded or became one later |
| `SlashedLedger.FrozenExactly` | proof_of_stake/src/lib.rs:1892-1913 | over every run, a validator is frozen if and only if evidence of one of its infractions is accepted and not yet recorded as a slash |
| `SlashedLedger.UnbondWaits` | proof_of_stake/src/lib.rs:400-402 | over every run, when an unbond is accepted all accepted evidence against the validator is recorded as slashes, at every infraction epoch |
| `SlashTiming.RunRecorded` | proof_of_stake/src/slashing.rs:101-196 | over every run, what is recorded of each validator is exactly its accepted evidence whose processing epoch has started |
| `SlashTiming.RunRates` | proof_of_stake/src/slashing.rs:148-154 | over every run, no recorded rate exceeds one |
| `SlashTiming.RunJustified` | proof_of_stake/src/slashing.rs:148-154 | over every run, each recorded slash has at least the least rate of its kind and the cubic rate of its processing epoch, as far as one goes, and no greater rate |
| `SlashTiming.EvidenceIsPunished` | proof_of_stake/src/slashing.rs:41-71 | over every run, evidence reported within the unbonding length of its infraction, and only such, is one more slash by its processing epoch |
| `SlashTiming.EvidenceIsComplete` | proof_of_stake/src/parameters.rs:194-203 | once an unbond can be withdrawn, no evidence of an infraction while it contributed to stake is accepted any more |
| `SlashTiming.NoEarlyExit` | proof_of_stake/src/slashing.rs:943-956 | when an unbond can be withdrawn, the withdrawal selects exactly the infractions, from bond start until the stake was gone, that are or ever will be accepted |
| `SlashTiming.ExactlyOnce` | proof_of_stake/src/parameters.rs:222-245 | source slashes applied when a redelegation is made and those its window selects later do not overlap and together are all recorded ones from bond start to redelegation end |
| `SlashTiming.Storage.ReportEvidence` | proof_of_stake/src/slashing.rs:41-71 | evidence is enqueued for its processing epoch unless it is outdated |
| `SlashTiming.Storage.StartEpoch` | proof_of_stake/src/slashing.rs:101-196 | the slashes due are given their rate and appended to their validators' lists |
| `SlashTiming.CollectSlashes` | proof_of_stake/src/slashing.rs:132-169 | the enqueued slashes by validator, in order |
| `SlashTiming.AppendSlashes` | proof_of_stake/src/slashing.rs:190-196 | every list is extended by its new slashes |
| `Epoched.TrimAgrees` | proof_of_stake/src/epoched.rs:171-240 | trimming keeps the agreement of the stored data with the untrimmed history from the oldest kept epoch on |
| `Epoched.TrimOldest` | proof_of_stake/src/epoched.rs:171-240 | trimming moves the oldest kept epoch at most to the past window of the current one |
| `Epoched.ReadAgrees` | proof_of_stake/src/epoched.rs:94-132 | whatever was written, a structure that agrees with its history reads the value at the greatest written epoch not above, or nothing before the oldest kept epoch |
| `Epoched.TrimmingIsInvisible` | proof_of_stake/src/epoched.rs:94-240 | a read at or after the oldest kept epoch is the value at the greatest written epoch not above it; before it, nothing |
| `Epoched.ForwardReads` | proof_of_stake/src/epoched.rs:94-240 | with non-decreasing epochs, for every kept epoch, and every epoch within the past window of the last write is kept |
| `Epoched.Store.Read` | proof_of_stake/src/epoched.rs:94-132 | the descending loop ends and gives the specified value |
| `Epoched.Store.Write` | proof_of_stake/src/epoched.rs:135-164 | trim, then write |
| `Epoched.Store.UpdateData` | proof_of_stake/src/epoched.rs:171-240 | the in-place trimming gives the specified data, last update and oldest epoch |
| `Epoched.Store.RemoveBefore` | proof_of_stake/src/epoched.rs:197-206 | exactly the trimmed epochs are removed and the latest removed value is kept |
| `EpochedDelta.TrimKeepsSums` | proof_of_stake/src/epoched.rs:608-683 | trimming keeps the running sum at every epoch from the new oldest one on |
| `EpochedDelta.AddSum` | proof_of_stake/src/epoched.rs:554-571 | an addition changes every running sum from its epoch on by its value |
| `EpochedDelta.ReadIsSum` | proof_of_stake/src/epoched.rs:513-550 | a read is the running sum up to the epoch or the end of the write window, and nothing exactly if no delta lies there |
| `EpochedDelta.TrimmingIsInvisible` | proof_of_stake/src/epoched.rs:513-683 | a read at or after the oldest kept epoch is the sum of everything ever added up to it |
| `EpochedDelta.ForwardReads` | proof_of_stake/src/epoched.rs:513-683 | with non-decreasing epochs, for every kept epoch |
| `EpochedDelta.Store.GetSum` | proof_of_stake/src/epoched.rs:513-550 | the summing loop gives the specified option |
| `EpochedDelta.Store.AddDelta` | proof_of_stake/src/epoched.rs:554-571 | trim, then add to the delta found after trimming |
| `EpochedDelta.Store.SetDelta` | proof_of_stake/src/epoched.rs:574-587 | trim, then overwrite |
| `EpochedDelta.Store.UpdateData` | proof_of_stake/src/epoched.rs:608-683 | the in-place trimming gives the specified data, last update and oldest epoch |
| `EpochedDelta.Store.RemoveBefore` | proof_of_stake/src/epoched.rs:634-647 | exactly the trimmed epochs are removed, and their sum is returned |
| `Stake.UpdateIsAddExactly` | proof_of_stake/src/storage.rs:440-451 | reading a delta before trimming and setting it equals adding, if and only if a past epoch is kept, the offset is positive, or nothing non-zero lies before |
| `Stake.SlashedSum` | proof_of_stake/src/slashing.rs:199-239 | the per-epoch differences telescope: each epoch loses the amount at the latest slashed epoch not after it |
| `Stake.StepInv` | proof_of_stake/src/lib.rs:285-301 | every operation keeps handles readable and equal to their history |
| `Stake.StakeIsHistory` | proof_of_stake/src/storage.rs:408-426 | over every run the stake change read is everything ever changed up to that epoch |
| `Stake.TotalIsSum` | proof_of_stake/src/storage.rs:408-472 | over every run, at every retained epoch, the total stake read is the sum of the validators' stakes read |
| `Stake.CurrentRetained` | proof_of_stake/src/storage.rs:408-472 | the current epoch and all later ones are retained |
| `Stake.SlashTakesAmount` | proof_of_stake/src/slashing.rs:220-239 | a processed slash lowers the stake read at each epoch by exactly the amount for it |
| `Stake.WindowsSuffice` | proof_of_stake/src/epoched.rs:1030-1037 | validated parameters give windows large enough for these results |
| `StakeWindows.NoPastBreaks` | proof_of_stake/src/storage.rs:429-452 | with no past window an update forgets earlier deltas: a slash over the window, or a bond if there is no pipeline, leaves a total that is not the sum |
| `StakeWindows.ShortPastBreaks` | proof_of_stake/src/slashing.rs:199-239 | with any past window shorter than the pipeline: two validators are slashed over the whole window in one epoch, and the total loses the second slash |
| `StakeWindows.TotalsAgreeExactly` | proof_of_stake/src/storage.rs:408-472 | over every run of operations as the ledger makes them, and at every retained epoch, the total stake is the sum of the stakes, if and only if the past window has at least one epoch and the pipeline length |
| `Stake.UpdateDeltas` | proof_of_stake/src/storage.rs:429-452 | the in-place update of a handle |
| `Stake.SlashDeltas` | proof_of_stake/src/slashing.rs:219-239 | the loop over a validator's slashed amounts updates its handle and the total's |
| `Commission.RunGentle` | proof_of_stake/src/lib.rs:1495-1553 | over every run the untrimmed rates of consecutive epochs differ by at most the maximum change |
| `Commission.RatesChangeGently` | proof_of_stake/src/lib.rs:1495-1553 | so do the rates read at consecutive kept epochs, with any number of changes in one epoch |
| `Commission.RatesAtMostOne` | proof_of_stake/src/lib.rs:1504-1518 | every rate written by a change is at most one |
| `Commission.PanicsExactly` | proof_of_stake/src/lib.rs:1533-1541 | a change finds no rate exactly if the epoch before the pipeline epoch precedes the first rate and the rate is not a repeat |
| `Commission.PanicsAtOnce` | proof_of_stake/src/lib.rs:1533-1541 | in the epoch of becoming a validator every change to another rate panics, however often it is tried, and nothing is written |
| `Commission.RateInForce` | proof_of_stake/src/lib.rs:1495-1553 | over every run the rate read at a kept epoch is that of the last accepted change due by then, and a change is accepted if and only if it is at most one, the two rates exist, and it is a repeat or within the maximum change of the epoch before |
| `Commission.ChangeTakesEffect` | proof_of_stake/src/lib.rs:1533-1553 | after an accepted change the new rate is read at every epoch from the pipeline epoch on, and every kept epoch before reads as before |
| `Commission.ChangeCommissionRate` | proof_of_stake/src/lib.rs:1495-1553 | the checks in their order, and the write at the pipeline offset or no change |
| `Liveness.WindowIsExact` | proof_of_stake/src/lib.rs:2323-2398 | over every run at consecutive heights the stored heights are exactly the missed ones among the last window, and the counter is their number |
| `Liveness.NoUnderflow` | proof_of_stake/src/lib.rs:2350-2364 | a stored height implies a counter of at least one, so the decrement never fails |
| `Liveness.WindowExactly` | proof_of_stake/src/lib.rs:2345-2366 | over all runs at consecutive heights the stored heights lie in the window if and only if the window is at least one |
| `Liveness.GapExactly` | proof_of_stake/src/lib.rs:2345-2366 | across skipped heights they do if and only if no stored height falls out before the last one pruned |
| `Liveness.GapLeavesOldVote` | proof_of_stake/src/lib.rs:2345-2346 | with a skipped height an old missed vote stays counted |
| `Liveness.Storage.Record` | proof_of_stake/src/lib.rs:2323-2398 | the loop records exactly the consensus validators' votes and touches no one else |
| `Liveness.Storage.RecordVote` | proof_of_stake/src/lib.rs:2348-2395 | one validator's entry becomes the specified one |
| `Liveness.Storage.Prune` | proof_of_stake/src/lib.rs:2289-2320 | exactly the validators with a counter outside the consensus set lose their data |
| `Rewards.MinRequiredVotesIsLeast` | proof_of_stake/src/rewards.rs:115-124 | the required votes are the least integer of at least two thirds of the stake |
| `Rewards.CoeffsNonNegative` | proof_of_stake/src/rewards.rs:80-112 | the coefficients add up to one, and are not negative under a condition on the parameters |
| `Rewards.ProposerExtra` | proof_of_stake/src/rewards.rs:80-112 | beyond the minimum the proposer earns its reward for the part of the stake that signed beyond the required votes, within two roundings |
| `Rewards.ProposerGrows` | proof_of_stake/src/rewards.rs:80-112 | there are coefficients if and only if two thirds of a positive stake signed; the proposer's is the minimum at exactly the required votes and grows with the signing stake |
| `Rewards.FractionNear` | proof_of_stake/src/rewards.rs:211-247 | a fraction is the proposer's coefficient, the signer's by the share of the signing stake and the remaining one by the share of the total, within two roundings each |
| `Rewards.FractionsAtMostOne` | proof_of_stake/src/rewards.rs:211-247 | with non-negative coefficients and matching totals, the fractions of a block are non-negative and add up to at most one |
| `Rewards.FractionsNearOne` | proof_of_stake/src/rewards.rs:211-247 | if nobody votes twice and the proposer is in the set, the fractions miss one by at most four roundings for each validator |
| `Rewards.AccumulatorBound` | proof_of_stake/src/rewards.rs:249-257 | after n blocks the accumulators are non-negative and add up to at most n |
| `Rewards.AccumulatorNear` | proof_of_stake/src/rewards.rs:249-257 | if nobody votes twice and proposers are in the set, the accumulators hold one for each block that logs rewards, but for four roundings for each validator |
| `Rewards.RewardsWithinInflation` | proof_of_stake/src/rewards.rs:356-400 | accumulators of at most one per block earn at most the inflation |
| `Rewards.MintIsExact` | proof_of_stake/src/rewards.rs:356-439 | after at most the charged number of blocks the running remainder never goes below zero and is the inflation less all rewards |
| `Rewards.RewardNear` | proof_of_stake/src/rewards.rs:366-367 | a reward is the accumulator per block of the inflation, rounded down twice |
| `Rewards.RewardsNearInflation` | proof_of_stake/src/rewards.rs:356-400 | full accumulators earn all the inflation but one token and one rounding for each validator |
| `Rewards.CommissionIsFloor` | proof_of_stake/src/rewards.rs:386-389 | the commission is the rate of the reward, rounded down |
| `Rewards.ProductNear` | proof_of_stake/src/rewards.rs:378-384 | the product of the stake is the reward less the commission, within one rounding per unit of stake and one of the reward |
| `Rewards.SharesNearReward` | proof_of_stake/src/rewards.rs:378-389 | if the bonds make up the stake, shares and commission miss the reward by less than one token each and the roundings of the product |
| `Rewards.SharesWithinReward` | proof_of_stake/src/rewards.rs:378-389 | however the stake is split, the shares by the rewards product and the commission never exceed the reward |
| `Rewards.CountVotes` | proof_of_stake/src/rewards.rs:151-188 | the signers and their stake, or which vote is the first one by a validator that is not in the consensus state |
| `Rewards.ComputeFractions` | proof_of_stake/src/rewards.rs:211-250 | the loop over the consensus set gives every member with stake its fraction |
| `Rewards.AddToAccumulators` | proof_of_stake/src/rewards.rs:252-257 | every accumulator grows by its value |
| `Rewards.ComputeRewards` | proof_of_stake/src/rewards.rs:356-400 | the loop gives remainder, products and commissions, or stops at an underflow |
| `Rewards.Storage.LogBlockRewards` | proof_of_stake/src/rewards.rs:129-260 | the accumulators grow by the block's fractions, or the specified error and no change |
| `Rewards.Storage.MintInflation` | proof_of_stake/src/rewards.rs:345-448 | the PoS and governance credits add up to the inflation; products, commissions and cleared accumulators as specified |
| `ValidatorSets.NextPosition` | proof_of_stake/src/validator_set_update.rs:971-985 | the next position in a bucket is after all others |
| `ValidatorSets.MinAmount` | proof_of_stake/src/validator_set_update.rs:987-1005 | no member has less stake, and one has exactly this; zero for an empty set |
| `ValidatorSets.MaxAmount` | proof_of_stake/src/validator_set_update.rs:1008-1025 | no member has more stake, and one has exactly this; zero for an empty set |
| `ValidatorSets.LastOfMin` | proof_of_stake/src/validator_set_update.rs:955-968 | a member of the least stake, the latest comer among those |
| `ValidatorSets.FirstOfMax` | proof_of_stake/src/validator_set_update.rs:939-952 | a member of the greatest stake, the first comer among those |
| `ValidatorSets.PromoteTopN` | proof_of_stake/src/validator_set_update.rs:523-560 | promotion after a consensus validator left gives the top-N property back |
| `ValidatorSets.Displace` | proof_of_stake/src/validator_set_update.rs:883-936 | a validator with more stake than the worst consensus one takes its place |
| `ValidatorSets.PlaceTopN` | proof_of_stake/src/validator_set_update.rs:358-457 | inserting a validator keeps the top-N property |
| `ValidatorSets.UpdateTopN` | proof_of_stake/src/validator_set_update.rs:30-354 | so does every change of stake, in every branch |
| `ValidatorSets.ChangeTopN` | proof_of_stake/src/lib.rs:267-292 | so does a bond, unbond or redelegation of any validator, jailed or not |
| `ValidatorSets.BecomeTopN` | proof_of_stake/src/lib.rs:1289-1312 | so does a new validator |
| `ValidatorSets.RetireTopN` | proof_of_stake/src/lib.rs:2140-2217 | so does a deactivation, or a jailing at the pipeline epoch |
| `ValidatorSets.RemoveKeeps` | proof_of_stake/src/validator_set_update.rs:462-517 | removal without promotion keeps agreement and ranking |
| `ValidatorSets.SlashTopNExactly` | proof_of_stake/src/slashing.rs:203-218 | a slash of a validator that is not jailed keeps the top-N property, if and only if it does not take an inactive validator from the threshold or above to below it |
| `ValidatorSets.SlashReturnsExactly` | proof_of_stake/src/validator_set_update.rs:279-351 | an inactive validator is back in a set after a slash exactly if its stake changes and is at least the threshold before or after |
| `ValidatorEpochs.FirstNot` | proof_of_stake/src/lib.rs:1842-1858 | the first epoch of the window at which a validator is not in a state |
| `ValidatorEpochs.GenesisTopN` | apps/src/lib/node/ledger/shell/init_chain.rs:568-678 | the sets built at genesis have the top-N property |
| `ValidatorStates.TrackWrite` | proof_of_stake/src/epoched.rs:135-240 | a write to a state handle, also one with a later epoch as the current one, keeps it in agreement with everything written, with its oldest epoch at most two epochs before the pipeline epoch |
| `ValidatorStates.FollowsReads` | proof_of_stake/src/types/mod.rs:63-68 | a state read in the window is the state of that epoch or missing, and never missing in the last three epochs |
| `ValidatorStates.FollowsWrite` | proof_of_stake/src/validator_set_update.rs:551-556 | a promotion or any other write for the pipeline epoch changes the state of that epoch only |
| `ValidatorStates.FollowsJailings` | proof_of_stake/src/lib.rs:2727-2735 | the jailed states are written from an epoch on, if that epoch still has its state |
| `ValidatorStates.ChangeTracked` | proof_of_stake/src/validator_set_update.rs:30-354 | the states written by a change of stake are those of the specified sets |
| `ValidatorStates.RemovalTracked` | proof_of_stake/src/validator_set_update.rs:523-560 | so are those written by a promotion after a removal; the removed validator's own states are left alone |
| `ValidatorStates.StepMatches` | proof_of_stake/src/lib.rs:1831-2737 | an operation on the stored state does what it does with the states of every epoch at hand, or fails |
| `ValidatorStates.StepInv` | proof_of_stake/src/lib.rs:1831-2737 | every operation keeps the invariant of the stored state |
| `ValidatorStates.RunTopN` | proof_of_stake/src/validator_set_update.rs:30-880 | after every run from every genesis, with at least one slot: the sets at the pipeline epoch are the top ones and positions and states name exactly the members; states agree in the last three epochs of the window, and earlier those that are left agree |
| `ValidatorEffects.ChangeEffect` | proof_of_stake/src/validator_set_update.rs:30-354 | a change of stake sets exactly that stake, leaves a jailed or inactive validator as it is and never makes another one so, and moves others between the two sets only |
| `ValidatorEffects.PlaceEffect` | proof_of_stake/src/validator_set_update.rs:358-457 | an inserted validator is below the threshold if its stake is and in a set otherwise; no stake changes |
| `ValidatorEffects.RetireEffect` | proof_of_stake/src/lib.rs:2140-2217 | a removed validator gets the new state, whoever takes its place |
| `ValidatorEffects.RunEffect` | proof_of_stake/src/lib.rs:1831-2737 | after every run, each accepted operation does to stakes, to the validator it names and to all others at the pipeline epoch what it should, and leaves the top-N property |
| `ValidatorEffects.RunJails` | proof_of_stake/src/lib.rs:2653-2737 | after every run, an accepted jailing takes the validator out of the sets of exactly the epochs from its offset to the pipeline epoch, where its state is jailed or no longer kept |
| `ValidatorEffects.EligibleExactly` | proof_of_stake/src/lib.rs:1860-1873 | after every run, a validator may come back if and only if the slashes for all infractions it was jailed for are processed |
| `ValidatorEffects.ComesBack` | proof_of_stake/src/lib.rs:1831-1890 | after every run, a jailed or inactive validator gets back into the sets only by unjailing or reactivation, with all its infractions processed, and is then below the threshold exactly if its stake is |
| `TrimmedStates.FailingRun` | proof_of_stake/src/validator_set_update.rs:546-557 | a bond that displaces a validator and a deactivation that promotes it again: at every epoch more than two before the pipeline epoch it is in the consensus set but its state is gone |
| `TrimmedStates.StatesAgreeExactly` | proof_of_stake/src/types/mod.rs:63-68 | sets, positions and states agree at every epoch of the window in every reachable state, if and only if the pipeline has at most two epochs |
| `TrimmedStates.JailingSafeExactly` | proof_of_stake/src/lib.rs:2675-2677 | in every reachable state every validator of the next epoch's sets can be jailed from then on, if and only if the pipeline has at most three epochs; otherwise a missing state is a panic |
| `ValidatorStorage.InsertIntoSet` | proof_of_stake/src/validator_set_update.rs:1030-1053 | the validator becomes the last of its stake at a position that was free, every other entry and position is kept, and the set grows by one |
| `ValidatorStorage.PromoteNext` | proof_of_stake/src/validator_set_update.rs:523-560 | the code's overwriting steps give the specified promotion and the state write at the given epoch and offset |
| `ValidatorStorage.InsertAndDemote` | proof_of_stake/src/validator_set_update.rs:883-936 | the code's overwriting steps give the specified displacement and both state writes |
| `ValidatorStorage.InsertValidator` | proof_of_stake/src/validator_set_update.rs:358-457 | every branch gives the specified placement and state writes |
| `ValidatorStorage.UpdateConsensusValidator` | proof_of_stake/src/validator_set_update.rs:88-209 | the branches for a consensus validator, with their state writes; none if it stays |
| `ValidatorStorage.UpdateBelowValidator` | proof_of_stake/src/validator_set_update.rs:210-278 | the branches for a below-capacity validator, with their state writes |
| `ValidatorStorage.UpdateOutsideValidator` | proof_of_stake/src/validator_set_update.rs:279-351 | the branches for a below-threshold validator, with their state writes |
| `ValidatorStorage.UpdateValidatorSet` | proof_of_stake/src/validator_set_update.rs:30-354 | the lookup by position finds the right branch; sets and state writes are the specified ones and the top-N property is kept |
| `ValidatorStorage.RemoveValidator` | proof_of_stake/src/validator_set_update.rs:462-517 | the state read, the stake and the position lead to the validator's own entry, also where other states are missing |
| `ValidatorStorage.RemoveAndPromote` | proof_of_stake/src/lib.rs:2164-2191 | removal at the pipeline epoch by the state read, and the promotion with its write at offset zero |
| `ValidatorStorage.AddValidator` | proof_of_stake/src/lib.rs:1289-1312 | the new validator is first below the threshold and then placed: the specified sets and both state writes |
| `ValidatorStorage.ChangeValidator` | proof_of_stake/src/lib.rs:267-283 | the specified change; jailed and inactive validators stay out of the sets |
| `ValidatorStorage.BuildGenesis` | apps/src/lib/node/ledger/shell/init_chain.rs:568-678 | the loop over genesis validators and bonds gives the specified sets and states |
| `ValidatorStorage.Storage.constructor` | proof_of_stake/src/lib.rs:126-146 | the genesis sets at every epoch of the window and the genesis states in their handles |
| `ValidatorStorage.Storage.ChangeStake` | proof_of_stake/src/lib.rs:267-292 | the specified step at the pipeline epoch |
| `ValidatorStorage.Storage.Jail` | proof_of_stake/src/lib.rs:2653-2737 | both loops together give the specified step: sets, promotion with its trimming write, and jailed states |
| `ValidatorStorage.Storage.TakeFromSets` | proof_of_stake/src/lib.rs:2672-2723 | the first loop removes the validator at every epoch by the state read there and promotes at the pipeline epoch |
| `ValidatorStorage.Storage.JailStates` | proof_of_stake/src/lib.rs:2728-2735 | the second loop writes the jailed states |
| `ValidatorStorage.Storage.FindOther` | proof_of_stake/src/lib.rs:1842-1858 | the loop reads the states of the window up to the first other one |
| `ValidatorStorage.Storage.PutBack` | proof_of_stake/src/lib.rs:1876-1888 | the validator is placed at the pipeline epoch |
| `ValidatorStorage.Storage.Unjail` | proof_of_stake/src/lib.rs:1831-1890 | the specified step, or the specified error and no change |
| `ValidatorStorage.Storage.Deactivate` | proof_of_stake/src/lib.rs:2140-2217 | the specified step with the trimming write of a promotion, or the specified error and no change |
| `ValidatorStorage.Storage.Reactivate` | proof_of_stake/src/lib.rs:2220-2285 | the specified step, back to jailed by a write at the pipeline epoch and offset zero if not eligible, or the specified error and no change |
| `ValidatorStorage.Storage.BecomeValidator` | proof_of_stake/src/lib.rs:1289-1312 | the specified step, or an error for a known validator |
| `ValidatorStorage.Storage.NewEpoch` | proof_of_stake/src/validator_set_update.rs:768-880 | the last sets are copied entry by entry to the new pipeline epoch |
| `CometBft.PowerIsFloor` | proof_of_stake/src/types/mod.rs:684-689 | the voting power is the greatest integer not above the exact product |
| `CometBft.ApplyAt` | proof_of_stake/src/validator_set_update.rs:565-763 | if no key occurs twice, each key ends with the power of its update or keeps its own |
| `CometBft.UpdatesNoKeyTwice` | proof_of_stake/src/validator_set_update.rs:565-763 | no key occurs twice among the updates |
| `CometBft.UpdatesGiveNext` | proof_of_stake/src/validator_set_update.rs:565-763 | the updates, in any order, turn the current key-to-power map into exactly the next one |
| `CometBft.KeysNeverShared` | proof_of_stake/src/storage.rs:814-823 | however keys are handed out, two validators never have the same key at any epochs |
| `CometBft.ReachableUpdates` | proof_of_stake/src/validator_set_update.rs:565-763 | in every reachable state with registry keys and a pipeline of at most three epochs, no key occurs twice and the updates, in any order, give the next map |
| `CometBft.KeySentTwice` | proof_of_stake/src/validator_set_update.rs:565-763 | with a longer pipeline there is a run after which a key is sent with its power and as removed |
| `CometBft.UpdatesRightExactly` | proof_of_stake/src/validator_set_update.rs:565-763 | in every reachable state the updates name no key twice and give the next map, if and only if the pipeline has at most three epochs |
| `Shielded.ScanOutputHolds` | sdk/src/masp.rs:829-906 | every note of a context is the decryption of a seen output under one of its keys, with its nullifier |
| `Shielded.ScanIsExact` | sdk/src/masp.rs:829-906 | after scanning any transactions with any keys, a position is recorded exactly if a tracked key opens the output there, with everything the opening reveals |
| `ShieldedBalances.ScanWitnessed` | sdk/src/masp.rs:836-842 | after any scan the tree holds all commitments in order, and each position has the witness that started there and was given every later node |
| `ShieldedBalances.SpentExactly` | sdk/src/masp.rs:907-916 | after any scan a position is spent exactly if some transaction reveals a nullifier whose note, among the outputs by then, is the one there |
| `ShieldedBalances.SpentWhenRevealed` | sdk/src/masp.rs:907-916 | if no two notes share a nullifier: exactly if a tracked key opens the output there and its nullifier is revealed by that transaction or a later one |
| `ShieldedBalances.DeltaExactly` | sdk/src/masp.rs:917-955 | the delta of a transaction, for each key and token, is the value of the notes it receives less that of the notes it spends |
| `ShieldedBalances.BalanceIsUnspent` | sdk/src/masp.rs:818-955 | with different transaction identifiers and no nullifier revealed twice, the deltas of all transactions add up to the value of the unspent notes |
| `Shielded.ScanTxShares` | sdk/src/masp.rs:818-955 | scanning a transaction in two contexts and in one with all keys keeps the data shared between the two |
| `Shielded.MergeIsFullScan` | sdk/src/masp.rs:668-692 | scanning for new keys in a fresh context and merging is one scan with all keys |
| `ShieldedFetch.FetchIsFullScan` | sdk/src/masp.rs:702-757 | a fetch brings one scan of a prefix to one scan of everything with the new keys included |
| `ShieldedFetch.FetchesAreOneScan` | sdk/src/masp.rs:696-757 | after any run of fetches with any keys while the ledger grows, the context is that of one scan |
| `ShieldedStorage.AppendToWitnesses` | sdk/src/masp.rs:836-842 | every witness gets the new node |
| `ShieldedStorage.FindOpener` | sdk/src/masp.rs:851-866 | the loop stops at the first key that decrypts |
| `ShieldedStorage.MergeDeltaMaps` | sdk/src/masp.rs:681-691 | deltas of the same transaction are merged |
| `ShieldedStorage.ShieldedContext.DecodeAsset` | sdk/src/masp.rs:1010-1030 | a cached decoding, or the client's, which is cached |
| `ShieldedStorage.ShieldedContext.ScanShieldedOutput` | sdk/src/masp.rs:829-906 | one output updates tree, witnesses and maps as specified |
| `ShieldedStorage.ShieldedContext.ScanShieldedSpend` | sdk/src/masp.rs:907-937 | one spend updates spent notes and balances as specified |
| `ShieldedStorage.ShieldedContext.ScanTransaction` | sdk/src/masp.rs:818-955 | the loops give the specified context |
| `ShieldedStorage.ShieldedContext.MergeWith` | sdk/src/masp.rs:668-692 | the specified merge |
| `ShieldedStorage.ShieldedContext.CatchUp` | sdk/src/masp.rs:733-743 | the new context is brought level |
| `ShieldedStorage.ShieldedContext.FetchKeys` | sdk/src/masp.rs:696-757 | the specified fetch |

## Left out

- Integer widths: amounts, epochs and voting powers are unbounded; overflow panics of `U256`, `u64` and `i64` are not modelled.
- Failed transactions: an operation that returns an error leaves the state as it was, as the ledger's write log does.
- Slashed stake: how much `slash_validator` and `slash_redelegation` take, with the maps only they read (total unbonded, total
  redelegated unbonded, outgoing redelegations); `Stake` takes the amounts per epoch as given.
- The validator-set side of `process_slashes`: one such update is exact (`ValidatorSets.SlashTopNExactly`), but the runs of
  `ValidatorStates` do not make them, nor their state writes at each slashed epoch; they break the top-N property where an
  inactive validator is slashed, because the guard skips only jailed ones.
- The full consensus set at epochs before the pipeline epoch: a jailing promotes only at the pipeline epoch.
- The cubic slash rate, the inflation controller and the minimum rates of slash types, which are parameters here.
- Block heights and types of slashes, the extra epoch filter of `fold_and_slash_redelegated_bonds` that only queries and the
  slashed stake use, and the same-epoch slashes in the equality of the two slashing algorithms, where they differ.
- Trimming of bonds, total bonded, enqueued slashes, consensus keys and of the sets of past epochs; bonds have an unbounded past
  window, and keys are only written for the pipeline epoch.
- Rewards tallied while unbonding and the claiming of rewards; the total consensus stake is taken as stored.
- Rejection by CometBFT of a removal of an unknown key: power zero means absent.
- Decryption, nullifiers, witnesses' Merkle paths, the full commitment tree and client queries of the wallet; its hash map
  iteration order is ascending here, which matters only if two tracked keys open one output.
- Validator metadata, key types, storage keys, encoding, gas and logging.
- LedgerStake.StakeIsBonded: starts from an empty ledger at the first epoch; the bonds of genesis, which count at once, are not
  part of its runs.
- SlashedLedger.ChainedExactly: asks for a pipeline of at least one epoch, without which the epoch before the end of a
  redelegation may not exist; validation asks for two. Its runs start from an empty ledger at the first epoch.
- ValidatorStorage.Storage.Jail: requires a state at every epoch concerned, where the code panics.
- Rewards.Storage.MintInflation: requires a commission rate and positive stake for every accumulator, where the code panics.
- Stake.TotalIsSum: the amounts read are absolute values and are claimed equal only where no validator's change is negative,
  which the code asserts in debug builds; the changes are equal without that.
- UnbondSlashing.FoldAndSlashRedelegatedBonds: without the extra filter on slash epochs, which unbonding and withdrawing pass as
  always true.
- SlashTiming.Storage.ReportEvidence: does not update the last slash epoch and does not jail; `Ledger` and `ValidatorStorage` do.
- Rewards.CoeffsNonNegative: one direction only; rounding makes the exact condition on the parameters depend on the stakes.
