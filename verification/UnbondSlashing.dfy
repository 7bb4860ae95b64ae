/** What is left of unbonded tokens after the slashes of the validators they were bonded to. */
module UnbondSlashing {
  import opened Types
  import opened Parameters
  import opened FiniteSums
  import opened Slashing
  import opened Redelegations

  /** Which slashes apply to some tokens. */
  datatype Filter =
    | FromStart(start: Epoch)                                    // every infraction since the bond started
    | Within(start: Epoch, end: Epoch)                           // while the bond contributed to stake
    | Lazy(bondStart: Epoch, redelStart: Epoch, redelEnd: Epoch) // of a redelegation's source, processed after it

  /** The slashes that are applied when a bond is unbonded or redelegated: those recorded by then. */
  function UnbondFilter(start: Epoch): Filter {
    FromStart(start)
  }

  /** The slashes that are applied when an unbond is withdrawn. */
  function WithdrawFilter(p: Params, start: Epoch, withdraw: Epoch): Filter {
    Within(start, Monus(withdraw, p.unbondingLen + p.cubicSlashingWindowLength))
  }

  /** The slashes of a redelegation's source validator that are applied later. The epoch subtraction never underflows. */
  function RedelegationFilter(p: Params, bondStart: Epoch, redelegationEnd: Epoch): Filter {
    Lazy(bondStart, Monus(redelegationEnd, p.pipelineLen), redelegationEnd)
  }

  predicate Keeps(p: Params, f: Filter, infraction: Epoch) {
    match f
    case FromStart(start) => start <= infraction
    case Within(start, end) => start <= infraction < end
    case Lazy(bondStart, redelStart, redelEnd) =>
      p.InRedelegationSlashingWindow(infraction, redelStart, redelEnd) && bondStart <= infraction
  }

  function Select(p: Params, f: Filter, slashes: seq<Slash>): seq<Slash> {
    if slashes == [] then []
    else
      var n := |slashes| - 1;
      Select(p, f, slashes[..n]) + if Keeps(p, f, slashes[n].epoch) then [slashes[n]] else []
  }

  /** The stable sort by epoch. */
  function SortByEpoch(slashes: seq<Slash>): seq<Slash> {
    if slashes == [] then []
    else
      var n := |slashes| - 1;
      InsertByEpoch(SortByEpoch(slashes[..n]), slashes[n])
  }

  function InsertByEpoch(sorted: seq<Slash>, s: Slash): seq<Slash> {
    if sorted == [] then [s]
    else
      var n := |sorted| - 1;
      if sorted[n].epoch <= s.epoch then sorted + [s] else InsertByEpoch(sorted[..n], s) + [sorted[n]]
  }

  ghost predicate InOrder(slashes: seq<Slash>) {
    forall i | 0 < i < |slashes| :: slashes[i - 1].epoch <= slashes[i].epoch
  }

  lemma {:induction false} InsertInOrder(sorted: seq<Slash>, s: Slash)
    requires InOrder(sorted)
    ensures InOrder(InsertByEpoch(sorted, s))
    ensures var r := InsertByEpoch(sorted, s);
            r != [] && (r[|r| - 1] == s || (sorted != [] && r[|r| - 1] == sorted[|sorted| - 1]))
  {
    if sorted != [] {
      var n := |sorted| - 1;
      if sorted[n].epoch > s.epoch {
        InsertInOrder(sorted[..n], s);
      }
    }
  }

  lemma {:induction false} InsertOnce(sorted: seq<Slash>, s: Slash)
    ensures multiset(InsertByEpoch(sorted, s)) == multiset(sorted) + multiset{s}
  {
    if sorted != [] {
      var n := |sorted| - 1;
      if sorted[n].epoch > s.epoch {
        InsertOnce(sorted[..n], s);
        assert sorted == sorted[..n] + [sorted[n]];
      }
    }
  }

  /** Merging slash lists orders them by epoch and neither drops nor repeats one. */
  lemma {:induction false} SortedPermutation(slashes: seq<Slash>)
    ensures InOrder(SortByEpoch(slashes))
    ensures multiset(SortByEpoch(slashes)) == multiset(slashes)
  {
    if slashes != [] {
      var n := |slashes| - 1;
      SortedPermutation(slashes[..n]);
      InsertInOrder(SortByEpoch(slashes[..n]), slashes[n]);
      InsertOnce(SortByEpoch(slashes[..n]), slashes[n]);
      assert slashes == slashes[..n] + [slashes[n]];
    }
  }

  function SlashesOf(slashes: map<Address, seq<Slash>>, v: Address): seq<Slash> {
    if v in slashes then slashes[v] else []
  }

  // ---- `fold_and_slash_redelegated_bonds` ----

  /** The slashes of the source validator that come after the redelegation, and those of this validator. */
  function Merged(p: Params, ofSource: seq<Slash>, bondStart: Epoch, start: Epoch, list: seq<Slash>): seq<Slash> {
    SortByEpoch(Select(p, RedelegationFilter(p, bondStart, start), ofSource) + list)
  }

  ghost function InnerAfter(p: Params, ofSource: seq<Slash>, inner: map<Epoch, Amount>, start: Epoch, list: seq<Slash>)
    : map<Epoch, Amount>
  {
    map b | b in inner :: AfterSlashes(p, Merged(p, ofSource, b, start, list), inner[b])
  }

  ghost function TokensAfter(p: Params, slashes: map<Address, seq<Slash>>, t: Tokens, start: Epoch,
                             list: seq<Slash>): Tokens {
    map v | v in t :: InnerAfter(p, SlashesOf(slashes, v), t[v], start, list)
  }

  /** Slashing never adds to any redelegated entry, nor to the total. */
  lemma TokensAfterAtMost(p: Params, slashes: map<Address, seq<Slash>>, t: Tokens, start: Epoch, list: seq<Slash>)
    ensures forall v: Address, b: Epoch :: AmountAt(TokensAfter(p, slashes, t, start, list), v, b) <= AmountAt(t, v, b)
    ensures Total(TokensAfter(p, slashes, t, start, list)) <= Total(t)
  {
    var after := TokensAfter(p, slashes, t, start, list);
    forall v: Address, b: Epoch ensures AmountAt(after, v, b) <= AmountAt(t, v, b) {
    }
    forall v: Address ensures GetInt(Totals(after), v) <= GetInt(Totals(t), v) {
      forall b: Epoch ensures GetInt(At(after, v), b) <= GetInt(At(t, v), b) {
        assert AmountAt(after, v, b) <= AmountAt(t, v, b);
      }
      SumMonotone<Epoch>(At(after, v), At(t, v));
    }
    SumMonotone<Address>(Totals(after), Totals(t));
  }

  method SlashInner(p: Params, ofSource: seq<Slash>, inner: map<Epoch, Amount>, start: Epoch, list: seq<Slash>)
    returns (total: Amount, after: Amount)
    ensures total == Tally(inner)
    ensures after == Tally(InnerAfter(p, ofSource, inner, start, list))
  {
    hide Merged, AfterSlashes;
    total, after := 0, 0;
    var rest := inner;
    while rest != map[]
      invariant total + Tally(rest) == Tally(inner)
      invariant after + Tally(InnerAfter(p, ofSource, rest, start, list)) == Tally(InnerAfter(p, ofSource, inner, start, list))
      decreases rest.Keys
    {
      var b := MinKey(rest.Keys);
      var change := rest[b];
      SumWithout<Epoch>(rest, b);
      SumWithout<Epoch>(InnerAfter(p, ofSource, rest, start, list), b);
      assert InnerAfter(p, ofSource, rest, start, list) - {b} == InnerAfter(p, ofSource, rest - {b}, start, list);
      var slashed := ApplyListSlashes(p, Merged(p, ofSource, b, start, list), change);
      total, after := total + change, after + slashed;
      rest := rest - {b};
    }
    assert InnerAfter(p, ofSource, map[], start, list) == map[];
  }

  /** `fold_and_slash_redelegated_bonds` */
  method FoldAndSlashRedelegatedBonds(p: Params, slashes: map<Address, seq<Slash>>, t: Tokens, start: Epoch,
                                      list: seq<Slash>)
    returns (totalRedelegated: Amount, totalAfter: Amount)
    ensures totalRedelegated == Total(t)
    ensures totalAfter == Total(TokensAfter(p, slashes, t, start, list))
  {
    hide Total, InnerAfter;
    totalRedelegated, totalAfter := 0, 0;
    var rest := t;
    while rest != map[]
      invariant totalRedelegated + Total(rest) == Total(t)
      invariant totalAfter + Total(TokensAfter(p, slashes, rest, start, list)) == Total(TokensAfter(p, slashes, t, start, list))
      decreases rest.Keys
    {
      var v := MinKey(rest.Keys);
      TotalWithout(rest, v);
      TotalWithout(TokensAfter(p, slashes, rest, start, list), v);
      assert TokensAfter(p, slashes, rest, start, list) - {v} == TokensAfter(p, slashes, rest - {v}, start, list);
      var total, after := SlashInner(p, SlashesOf(slashes, v), rest[v], start, list);
      totalRedelegated, totalAfter := totalRedelegated + total, totalAfter + after;
      rest := rest - {v};
    }
    TotalOfNone();
    assert TokensAfter(p, slashes, map[], start, list) == map[];
  }

  // ---- One unbond ----

  /** The part that was not redelegated is slashed by this validator's list alone; the redelegated
      part also by the source validators' later slashes. */
  ghost function UnbondAfter(p: Params, slashes: map<Address, seq<Slash>>, start: Epoch, amount: Amount, t: Tokens,
                             list: seq<Slash>): Amount {
    AfterSlashes(p, list, Monus(amount, Total(t))) + Total(TokensAfter(p, slashes, t, start, list))
  }

  lemma UnbondAfterAtMost(p: Params, slashes: map<Address, seq<Slash>>, start: Epoch, amount: Amount, t: Tokens,
                          list: seq<Slash>)
    requires Total(t) <= amount
    ensures UnbondAfter(p, slashes, start, amount, t, list) <= amount
  {
    TokensAfterAtMost(p, slashes, t, start, list);
  }

  method SlashUnbond(p: Params, slashes: map<Address, seq<Slash>>, start: Epoch, amount: Amount, t: Tokens,
                     list: seq<Slash>)
    returns (after: Amount)
    ensures after == UnbondAfter(p, slashes, start, amount, t, list)
  {
    var totalRedelegated, totalAfter := FoldAndSlashRedelegatedBonds(p, slashes, t, start, list);
    var afterNotRedelegated := ApplyListSlashes(p, list, Monus(amount, totalRedelegated));
    after := afterNotRedelegated + totalAfter;
  }

  // ---- `compute_amount_after_slashing_unbond` ----

  /** The amounts after slashing by bond start epoch (`epoch_map`); their total is the `sum`. */
  ghost function SlashedUnbonds(p: Params, slashes: map<Address, seq<Slash>>, v: Address,
                                unbonds: map<Epoch, Amount>, redelegated: map<Epoch, Tokens>): map<Epoch, Amount>
  {
    map e | e in unbonds ::
      UnbondAfter(p, slashes, e, unbonds[e], TokensAt(redelegated, e), Select(p, UnbondFilter(e), SlashesOf(slashes, v)))
  }

  lemma SlashedUnbondsAtMost(p: Params, slashes: map<Address, seq<Slash>>, v: Address,
                             unbonds: map<Epoch, Amount>, redelegated: map<Epoch, Tokens>)
    requires forall e | e in unbonds :: Total(TokensAt(redelegated, e)) <= unbonds[e]
    ensures forall e: Epoch :: Get(SlashedUnbonds(p, slashes, v, unbonds, redelegated), e) <= Get(unbonds, e)
    ensures Tally(SlashedUnbonds(p, slashes, v, unbonds, redelegated)) <= Tally(unbonds)
  {
    hide UnbondAfter, Total;
    var after := SlashedUnbonds(p, slashes, v, unbonds, redelegated);
    forall e: Epoch ensures GetInt(after, e) <= GetInt(unbonds, e) {
      if e in unbonds {
        UnbondAfterAtMost(p, slashes, e, unbonds[e], TokensAt(redelegated, e), Select(p, UnbondFilter(e), SlashesOf(slashes, v)));
      }
    }
    SumMonotone<Epoch>(after, unbonds);
    forall e: Epoch ensures Get(after, e) <= Get(unbonds, e) {
      assert GetInt(after, e) <= GetInt(unbonds, e);
    }
  }

  method ComputeAmountAfterSlashingUnbond(p: Params, slashes: map<Address, seq<Slash>>, v: Address,
                                          unbonds: map<Epoch, Amount>, redelegated: map<Epoch, Tokens>)
    returns (sum: Amount, epochMap: map<Epoch, Amount>)
    ensures epochMap == SlashedUnbonds(p, slashes, v, unbonds, redelegated)
    ensures sum == Tally(epochMap)
  {
    hide UnbondAfter;
    sum, epochMap := 0, map[];
    var rest := unbonds;
    while rest != map[]
      invariant rest.Keys <= unbonds.Keys && epochMap.Keys == unbonds.Keys - rest.Keys
      invariant forall e | e in rest :: rest[e] == unbonds[e]
      invariant forall e | e in epochMap ::
                  epochMap[e] == UnbondAfter(p, slashes, e, unbonds[e], TokensAt(redelegated, e), Select(p, UnbondFilter(e), SlashesOf(slashes, v)))
      invariant sum == Tally(epochMap)
      decreases rest.Keys
    {
      var start := MinKey(rest.Keys);
      var list := Select(p, UnbondFilter(start), SlashesOf(slashes, v));
      var after := SlashUnbond(p, slashes, start, rest[start], TokensAt(redelegated, start), list);
      SumUpdate<Epoch>(epochMap, start, after);
      sum := sum + after;
      epochMap := epochMap[start := after];
      rest := rest - {start};
    }
  }
}
