/** Addresses, epochs, token amounts and fixed-point rates. Amounts are unbounded naturals. */
module Types {
  type Address = nat
  type Epoch = nat
  type Amount = nat

  datatype Option<+T> = None | Some(value: T)

  datatype Result<+T, +E> = Ok(value: T) | Err(error: E)

  /** Fixed-point decimals carry twelve decimal places; `DEC_ONE` is the representation of 1. */
  const DEC_ONE: nat := 1_000_000_000_000

  /** `checked_sub(..).unwrap_or_default()` */
  function Monus(a: nat, b: nat): nat {
    if b <= a then a - b else 0
  }

  function Min(a: nat, b: nat): nat {
    if a <= b then a else b
  }

  function Max(a: nat, b: nat): nat {
    if a <= b then b else a
  }

  /** `Amount::mul_ceil`: the product with a decimal, rounded up. */
  function MulCeil(amount: Amount, rate: nat): Amount {
    CeilDiv(amount * rate)
  }

  function CeilDiv(tot: nat): nat {
    if tot % DEC_ONE != 0 then tot / DEC_ONE + 1 else tot / DEC_ONE
  }

  /** The product is rounded up to the least integer that is not below it. */
  lemma MulCeilIsLeast(amount: Amount, rate: nat, r: nat)
    ensures MulCeil(amount, rate) <= r <==> amount * rate <= r * DEC_ONE
  {
    var tot := amount * rate;
    assert tot == tot / DEC_ONE * DEC_ONE + tot % DEC_ONE;
  }

  lemma {:induction false} MulCeilAtMost(amount: Amount, rate: nat)
    requires rate <= DEC_ONE
    ensures MulCeil(amount, rate) <= amount
  {
    MulMono(amount, rate, DEC_ONE);
    MulCeilIsLeast(amount, rate, amount);
  }

  lemma PrefixNext<T>(s: seq<T>, i: nat)
    requires i < |s|
    ensures s[..i + 1] == s[..i] + [s[i]]
    ensures s[..i + 1][..i] == s[..i]
  {
  }

  lemma SplitPush<T>(s: seq<T>, t: nat, x: T)
    requires t <= |s|
    ensures (s + [x])[..t] == s[..t]
    ensures (s + [x])[t..] == s[t..] + [x]
  {
  }

  lemma MulMono(a: nat, b: int, c: int)
    requires b <= c
    ensures a * b <= a * c
  {
    assert a * (c - b) >= 0;
  }
}

/** The proof-of-stake parameters that fix the timing of slashes, unbonds and redelegations. */
module Parameters {
  import opened Types

  datatype Params = Params(
    maxValidatorSlots: nat,
    pipelineLen: nat,
    unbondingLen: nat,
    cubicSlashingWindowLength: nat,
    validatorStakeThreshold: Amount)
  {
    /** Epochs from an unbond until it can be withdrawn. */
    function WithdrawableEpochOffset(): nat {
      pipelineLen + unbondingLen + cubicSlashingWindowLength
    }

    /** Epochs from an infraction until its slash is processed. */
    function SlashProcessingEpochOffset(): nat {
      unbondingLen + cubicSlashingWindowLength + 1
    }

    function RedelegationEndEpochFromStart(start: Epoch): Epoch {
      start + pipelineLen
    }

    /** Is the infraction slashed lazily on a redelegation from the infracting validator? */
    predicate InRedelegationSlashingWindow(infraction: Epoch, redelStart: Epoch, redelEnd: Epoch) {
      redelStart < infraction + SlashProcessingEpochOffset() && infraction < redelEnd
    }
  }
}
