/** Correlation ids: an order's memo is the hash of the text
    `${shoeId}_${caller}_${time}`. */
module Correlation {
  import opened Types

  function DigitChar(d: nat): char
    requires d < 10
  {
    (48 + d) as char
  }

  /** The decimal rendering JavaScript gives a BigInt in a template string:
      digits only, and no leading zero except in "0" itself. */
  function Decimal(n: nat): (r: string)
    ensures 1 <= |r|
    ensures forall i :: 0 <= i < |r| ==> '0' <= r[i] <= '9'
    ensures r[0] == '0' ==> n == 0
    decreases n
  {
    if n < 10 then [DigitChar(n)] else Decimal(n / 10) + [DigitChar(n % 10)]
  }

  lemma {:induction false} DecimalLength(n: nat)
    ensures 1 <= |Decimal(n)|
    ensures 10 <= n ==> 2 <= |Decimal(n)|
    decreases n
  {
    if 10 <= n {
      DecimalLength(n / 10);
    }
  }

  /** Distinct numbers have distinct renderings. */
  lemma {:induction false} DecimalInjective(a: nat, b: nat)
    requires Decimal(a) == Decimal(b)
    ensures a == b
    decreases a
  {
    DecimalLength(a);
    DecimalLength(b);
    if a < 10 && b < 10 {
      assert Decimal(a)[0] == Decimal(b)[0];
    } else if 10 <= a && 10 <= b {
      var da, db := Decimal(a), Decimal(b);
      assert da[|da| - 1] == db[|db| - 1];
      assert a % 10 == b % 10;
      assert Decimal(a / 10) == da[..|da| - 1] == db[..|db| - 1] == Decimal(b / 10);
      DecimalInjective(a / 10, b / 10);
    }
  }

  /** The text `generateCorrelationId` hashes. */
  function CorrelationText(shoeId: string, caller: Principal, time: Nat64): string {
    shoeId + "_" + caller + "_" + Decimal(time)
  }

  /** `generateCorrelationId(shoeId)` called by `caller` at `time`. */
  function CorrelationId(shoeId: string, caller: Principal, time: Nat64, hash: Hashable -> Nat64): Nat64 {
    hash(Text(CorrelationText(shoeId, caller, time)))
  }

  /** For one shoe and one caller, the hashed texts at two different times
      differ; only a collision of `hash` can then give the two orders one memo. */
  lemma CorrelationTextSeparatesTimes(shoeId: string, caller: Principal, t1: Nat64, t2: Nat64)
    requires t1 != t2
    ensures CorrelationText(shoeId, caller, t1) != CorrelationText(shoeId, caller, t2)
  {
    var prefix := shoeId + "_" + caller + "_";
    if CorrelationText(shoeId, caller, t1) == CorrelationText(shoeId, caller, t2) {
      assert (prefix + Decimal(t1))[|prefix|..] == Decimal(t1);
      assert (prefix + Decimal(t2))[|prefix|..] == Decimal(t2);
      DecimalInjective(t1, t2);
    }
  }
}
