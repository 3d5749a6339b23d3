/**
 Worker-set masks: unsigned 64-bit words read as sets of worker ids below 64.

 A word is a natural number below `Pow2(64)`, and the bitwise operators are
 defined digit by digit.
 */
module Masks {

  function Pow2(w: nat): (r: nat)
    ensures r > 0
  {
    if w == 0 then 1 else 2 * Pow2(w - 1)
  }

  predicate Bit(m: nat, i: nat)
    decreases i
  {
    if i == 0 then m % 2 == 1 else Bit(m / 2, i - 1)
  }

  function Or(a: nat, b: nat): nat {
    if a == 0 && b == 0 then 0
    else 2 * Or(a / 2, b / 2) + (if a % 2 == 1 || b % 2 == 1 then 1 else 0)
  }

  function AndNot(a: nat, b: nat): nat {
    if a == 0 then 0
    else 2 * AndNot(a / 2, b / 2) + (if a % 2 == 1 && b % 2 == 0 then 1 else 0)
  }

  predicate IsWord(m: nat) {
    m < Pow2(64)
  }

  /** The worker ids a word stands for. */
  function Ids(m: nat): (s: set<nat>)
    ensures forall i :: i in s <==> 0 <= i < 64 && Bit(m, i)
  {
    set i: nat | i < 64 && Bit(m, i)
  }

  // ----- digits

  lemma {:induction false} ZeroBits(i: nat)
    ensures !Bit(0, i)
  {
    if i > 0 { ZeroBits(i - 1); }
  }

  lemma {:induction false} OrBit(a: nat, b: nat, i: nat)
    ensures Bit(Or(a, b), i) <==> Bit(a, i) || Bit(b, i)
    decreases i
  {
    if a == 0 && b == 0 {
      ZeroBits(i);
    } else if i > 0 {
      OrBit(a / 2, b / 2, i - 1);
    }
  }

  lemma {:induction false} AndNotBit(a: nat, b: nat, i: nat)
    ensures Bit(AndNot(a, b), i) <==> Bit(a, i) && !Bit(b, i)
    decreases i
  {
    if a == 0 {
      ZeroBits(i);
    } else if i > 0 {
      AndNotBit(a / 2, b / 2, i - 1);
    }
  }

  lemma {:induction false} Pow2Bit(w: nat, i: nat)
    ensures Bit(Pow2(w), i) <==> i == w
  {
    if i > 0 && w > 0 {
      Pow2Bit(w - 1, i - 1);
    } else if i > 0 {
      ZeroBits(i - 1);
    }
  }

  lemma {:induction false} OrWithin(a: nat, b: nat, k: nat)
    requires a < Pow2(k) && b < Pow2(k)
    ensures Or(a, b) < Pow2(k)
  {
    if k > 0 { OrWithin(a / 2, b / 2, k - 1); }
  }

  lemma {:induction false} AndNotWithin(a: nat, b: nat)
    ensures AndNot(a, b) <= a
  {
    if a > 0 { AndNotWithin(a / 2, b / 2); }
  }

  lemma {:induction false} Pow2Grows(w: nat, k: nat)
    requires w < k
    ensures Pow2(w) < Pow2(k)
  {
    if w < k - 1 { Pow2Grows(w, k - 1); }
  }

  lemma {:induction false} OrZero(a: nat)
    ensures Or(a, 0) == a && Or(0, a) == a
  {
    if a > 0 { OrZero(a / 2); }
  }

  /** Adding a digit that is clear sets it. */
  lemma {:induction false} PlusIsOr(m: nat, w: nat)
    requires !Bit(m, w)
    ensures m + Pow2(w) == Or(m, Pow2(w))
    decreases w
  {
    if w == 0 {
      OrZero(m / 2);
    } else {
      PlusIsOr(m / 2, w - 1);
    }
  }

  lemma {:induction false} SameDigits(a: nat, b: nat, k: nat)
    requires a < Pow2(k) && b < Pow2(k) && forall i :: 0 <= i < k ==> Bit(a, i) == Bit(b, i)
    ensures a == b
  {
    if k > 0 {
      assert Bit(a, 0) == Bit(b, 0);
      forall i | 0 <= i < k - 1 ensures Bit(a / 2, i) == Bit(b / 2, i) {
        assert Bit(a, i + 1) == Bit(b, i + 1);
      }
      SameDigits(a / 2, b / 2, k - 1);
    }
  }

  // ----- words and sets

  /** `mask |= 1 << w` adds worker `w`. */
  lemma OrAdds(m: nat, w: nat)
    requires IsWord(m) && w < 64
    ensures IsWord(Or(m, Pow2(w))) && Ids(Or(m, Pow2(w))) == Ids(m) + {w}
  {
    Pow2Grows(w, 64);
    OrWithin(m, Pow2(w), 64);
    forall i | 0 <= i < 64 ensures Bit(Or(m, Pow2(w)), i) <==> Bit(m, i) || i == w {
      OrBit(m, Pow2(w), i);
      Pow2Bit(w, i);
    }
  }

  /** `mask &= !(1 << w)` removes worker `w`. */
  lemma AndNotRemoves(m: nat, w: nat)
    requires IsWord(m) && w < 64
    ensures IsWord(AndNot(m, Pow2(w))) && Ids(AndNot(m, Pow2(w))) == Ids(m) - {w}
  {
    AndNotWithin(m, Pow2(w));
    forall i | 0 <= i < 64 ensures Bit(AndNot(m, Pow2(w)), i) <==> Bit(m, i) && i != w {
      AndNotBit(m, Pow2(w), i);
      Pow2Bit(w, i);
    }
  }

  /** `mask += 1 << w` adds worker `w` when its bit was clear, without overflow. */
  lemma PlusAdds(m: nat, w: nat)
    requires IsWord(m) && w < 64 && w !in Ids(m)
    ensures IsWord(m + Pow2(w)) && Ids(m + Pow2(w)) == Ids(m) + {w}
  {
    PlusIsOr(m, w);
    OrAdds(m, w);
  }

  lemma ZeroIsEmpty()
    ensures IsWord(0) && Ids(0) == {}
  {
    forall i | 0 <= i < 64 ensures !Bit(0, i) { ZeroBits(i); }
  }

  /** Two words are equal exactly when they stand for the same set. */
  lemma MaskEquality(a: nat, b: nat)
    requires IsWord(a) && IsWord(b)
    ensures a == b <==> Ids(a) == Ids(b)
  {
    if Ids(a) == Ids(b) {
      forall i | 0 <= i < 64 ensures Bit(a, i) == Bit(b, i) { assert i in Ids(a) <==> i in Ids(b); }
      SameDigits(a, b, 64);
    }
  }
}
