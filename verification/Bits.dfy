/** Numbers as rows of bits, bit 0 the lowest. */
module Bits {

  /** Bit `j` of a word or of a colour number. */
  function Bit(w: nat, j: nat): bool {
    if j == 0 then w % 2 == 1 else Bit(w / 2, j - 1)
  }

  function Power(j: nat): (p: nat)
    ensures p > 0
  {
    if j == 0 then 1 else 2 * Power(j - 1)
  }

  /** A bit is the parity of what is left when the bits below it are shifted out. */
  lemma {:induction false} BitIsParity(w: nat, j: nat)
    ensures Bit(w, j) <==> w / Power(j) % 2 == 1
  {
    if j > 0 {
      BitIsParity(w / 2, j - 1);
      ShiftedTwice(w, Power(j - 1), Power(j));
    }
  }

  lemma ShiftedTwice(w: nat, p: nat, n: nat)
    requires p > 0 && n == 2 * p
    ensures w / n == w / 2 / p
  {
    var q, r := DivisionParts(w, n);
    HalfQuotient(w, p, n, q, r);
  }

  lemma DivisionParts(v: nat, n: nat) returns (q: nat, r: nat)
    requires n > 0
    ensures v == q * n + r && r < n && q == v / n
  {
    q, r := v / n, v % n;
  }

  lemma HalfQuotient(w: nat, p: nat, n: nat, q: nat, r: nat)
    requires w == q * n + r && r < n == 2 * p
    ensures w / 2 / p == q
  {
    assert q * n == 2 * (q * p);
    HalfOf(w, q * p, r);
    QuotientIs(w / 2, p, q, r / 2);
  }

  lemma HalfOf(w: int, m: int, r: int)
    requires w == 2 * m + r
    ensures w / 2 == m + r / 2
  {}

  lemma QuotientIs(v: nat, p: nat, q: nat, r: nat)
    requires v == q * p + r && r < p
    ensures v / p == q
  {
    assert v == v / p * p + v % p;
    MultipleGrows(v / p - q, p);
    assert (v / p - q) * p == v / p * p - q * p;
  }

  lemma MultipleGrows(d: int, p: nat)
    ensures (d >= 1 ==> d * p >= p) && (d <= -1 ==> d * p + p <= 0)
  {}

  /** `w | 1 << j` when on, `w & ~(1 << j)` when off. */
  function Put(w: nat, j: nat, on: bool): nat {
    if j == 0 then w - w % 2 + (if on then 1 else 0) else w % 2 + 2 * Put(w / 2, j - 1, on)
  }

  /** Putting a bit changes that bit and no other. */
  lemma {:induction false} PutBit(w: nat, j: nat, on: bool, k: nat)
    ensures Bit(Put(w, j, on), k) == if k == j then on else Bit(w, k)
  {
    if j > 0 && k > 0 {
      PutBit(w / 2, j - 1, on, k - 1);
    }
  }

  /** A word stays a word: writing `n` low bits keeps a number below two to the `n`. */
  lemma {:induction false} PutInRange(w: nat, j: nat, on: bool, n: nat)
    requires j < n && w < Power(n)
    ensures Put(w, j, on) < Power(n)
  {
    Halves(w, Power(n - 1));
    if j > 0 {
      PutInRange(w / 2, j - 1, on, n - 1);
    }
  }

  lemma Halves(w: nat, half: nat)
    ensures w == 2 * (w / 2) + w % 2
    ensures w < 2 * half ==> w / 2 < half
  {}

  /** The number whose `n` low bits are set. */
  function Ones(n: nat): nat {
    if n == 0 then 0 else 1 + 2 * Ones(n - 1)
  }

  lemma {:induction false} OnesBit(n: nat, j: nat)
    requires j < n
    ensures Bit(Ones(n), j)
  {
    OddHalf(Ones(n - 1));
    if j > 0 {
      OnesBit(n - 1, j - 1);
    }
  }

  lemma OddHalf(v: nat)
    ensures (1 + 2 * v) / 2 == v && (1 + 2 * v) % 2 == 1
  {}

  lemma {:induction false} OnesBelow(w: nat)
    ensures Ones(w) + 1 == Power(w)
  {
    if w > 0 {
      OnesBelow(w - 1);
    }
  }

  lemma FourOnes(w: nat, v: nat)
    requires Ones(w) == v
    ensures Ones(w + 4) == 16 * v + 15
  {
    assert Ones(w + 2) == 2 * Ones(w + 1) + 1;
    assert Ones(w + 4) == 2 * Ones(w + 3) + 1;
  }

  lemma {:induction false} SameBits(a: nat, b: nat, w: nat)
    requires a < Power(w) && b < Power(w)
    requires forall n | 0 <= n < w :: Bit(a, n) == Bit(b, n)
    ensures a == b
  {
    if w > 0 {
      assert Bit(a, 0) == Bit(b, 0);
      forall n | 0 <= n < w - 1 ensures Bit(a / 2, n) == Bit(b / 2, n) {
        assert Bit(a, n + 1) == Bit(b, n + 1);
      }
      SameBits(a / 2, b / 2, w - 1);
    }
  }

  lemma {:induction false} PowerGrows(m: nat, n: nat)
    requires m < n
    ensures Power(m) < Power(n)
  {
    OnesBelow(m);
    if m + 1 < n {
      PowerGrows(m, n - 1);
    }
  }

  lemma {:induction false} ZeroBits(n: nat)
    ensures !Bit(0, n)
  {
    if n > 0 {
      ZeroBits(n - 1);
    }
  }

  lemma {:induction false} BitAbove(v: nat, n: nat)
    requires v < Power(n)
    ensures !Bit(v, n)
  {
    if n > 0 {
      BitAbove(v / 2, n - 1);
    }
  }

  /** Bitwise `&`. */
  function And(a: nat, b: nat): (r: nat)
    ensures r <= a
  {
    if a == 0 then 0 else 2 * And(a / 2, b / 2) + (if a % 2 == 1 && b % 2 == 1 then 1 else 0)
  }

  lemma {:induction false} AndBelow(a: nat, b: nat)
    ensures And(a, b) <= b
  {
    if a > 0 {
      AndBelow(a / 2, b / 2);
    }
  }

  lemma {:induction false} AndBits(a: nat, b: nat, n: nat)
    ensures Bit(And(a, b), n) <==> Bit(a, n) && Bit(b, n)
  {
    if a == 0 {
      ZeroBits(n);
    } else if n > 0 {
      AndBits(a / 2, b / 2, n - 1);
    }
  }

  /** `&` with a set of bits gives the set exactly when all of it is there. */
  lemma AndHolds(a: nat, b: nat)
    ensures And(a, b) == b <==> Contains(a, b)
  {
    if And(a, b) == b {
      forall n: nat ensures Bit(b, n) ==> Bit(a, n) {
        AndBits(a, b, n);
      }
    }
    if Contains(a, b) {
      HeldBits(a, b);
    }
  }

  /** Every bit of `b` is one of `a`. */
  ghost predicate Contains(a: nat, b: nat) {
    forall n: nat :: Bit(b, n) ==> Bit(a, n)
  }

  lemma {:induction false} HeldBits(a: nat, b: nat)
    requires Contains(a, b)
    ensures And(a, b) == b
    decreases b
  {
    if b > 0 {
      if a == 0 {
        var n := SomeBit(b);
        ZeroBits(n);
      } else {
        assert Bit(b, 0) ==> Bit(a, 0);
        forall n: nat ensures Bit(b / 2, n) ==> Bit(a / 2, n) {
          assert Bit(b, n + 1) ==> Bit(a, n + 1);
        }
        HeldBits(a / 2, b / 2);
      }
    } else {
      AndBelow(a, b);
    }
  }

  lemma {:induction false} SomeBit(b: nat) returns (n: nat)
    requires b > 0
    ensures Bit(b, n)
  {
    if b % 2 == 1 {
      n := 0;
    } else {
      var m := SomeBit(b / 2);
      n := m + 1;
    }
  }

  lemma {:induction false} AndOnes(v: nat, w: nat)
    requires v <= Ones(w)
    ensures And(v, Ones(w)) == v && And(Ones(w), v) == v
  {
    if w > 0 {
      AndOnes(v / 2, w - 1);
    }
  }

  /** `v << n` */
  function Left(v: nat, n: nat): nat {
    if n == 0 then v else 2 * Left(v, n - 1)
  }

  /** `v >> n` */
  function Right(v: nat, n: nat): nat {
    if n == 0 then v else Right(v / 2, n - 1)
  }

  lemma {:induction false} LeftIsProduct(v: nat, n: nat)
    ensures Left(v, n) == v * Power(n)
  {
    if n > 0 {
      LeftIsProduct(v, n - 1);
      assert v * Power(n) == 2 * (v * Power(n - 1));
    }
  }

  lemma {:induction false} AndLeft(a: nat, b: nat, n: nat)
    ensures And(Left(a, n), Left(b, n)) == Left(And(a, b), n)
  {
    if n > 0 {
      AndLeft(a, b, n - 1);
    }
  }

  lemma {:induction false} RightOfLeft(v: nat, n: nat)
    ensures Right(Left(v, n), n) == v
  {
    if n > 0 {
      RightOfLeft(v, n - 1);
    }
  }

  /** Numbers put next to each other keep their bits. */
  lemma {:induction false} BitsApart(low: nat, high: nat, w: nat, n: nat)
    requires low < Power(w)
    ensures Bit(low + Left(high, w), n) == if n < w then Bit(low, n) else Bit(high, n - w)
  {
    if w > 0 {
      assert (low + Left(high, w)) / 2 == low / 2 + Left(high, w - 1);
      if n > 0 {
        BitsApart(low / 2, high, w - 1, n - 1);
      }
    }
  }

  /** Bitwise `|`. */
  function Or(a: nat, b: nat): nat
    decreases a + b
  {
    if a == 0 then b else if b == 0 then a
    else 2 * Or(a / 2, b / 2) + (if a % 2 == 1 || b % 2 == 1 then 1 else 0)
  }

  /** Of numbers that do not overlap it is the sum. */
  lemma {:induction false} OrApart(high: nat, low: nat, n: nat)
    requires low < Power(n)
    ensures Or(Left(high, n), low) == Left(high, n) + low
  {
    if n > 0 {
      assert Left(high, n) / 2 == Left(high, n - 1) && Left(high, n) % 2 == 0;
      OrApart(high, low / 2, n - 1);
    }
  }
}
