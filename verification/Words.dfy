/** Unsigned 64-bit words as natural numbers with their binary structure.
    `Bit(w, i)` is `w & (1 << i)`, `Shr(w, n)` is `w >> n` and `SetBit(w, n)`
    is `w | (1 << n)`; the definitions recurse on the halved word, so every
    proof about them is linear. */
module Words {
  import opened Base

  function Pow2(n: nat): (p: nat)
    ensures p > 0
  {
    if n == 0 then 1 else 2 * Pow2(n - 1)
  }

  predicate Bit(w: nat, i: nat)
    decreases w, i
  {
    if i == 0 then w % 2 == 1 else Bit(w / 2, i - 1)
  }

  function Shr(w: nat, n: nat): nat
    decreases w, n
  {
    if n == 0 then w else Shr(w / 2, n - 1)
  }

  function SetBit(w: nat, n: nat): nat
    decreases w, n
  {
    if n == 0 then (if w % 2 == 1 then w else w + 1) else 2 * SetBit(w / 2, n - 1) + w % 2
  }

  /** The number of bits set among the lowest `n`. */
  function PopCount(w: nat, n: nat): (c: nat)
    ensures c <= n
  {
    if n == 0 then 0 else PopCount(w, n - 1) + (if Bit(w, n - 1) then 1 else 0)
  }

  lemma {:induction false} ZeroBits(i: nat)
    ensures !Bit(0, i)
    decreases i
  {
    if i > 0 { ZeroBits(i - 1); }
  }

  lemma {:induction false} ShrBit(w: nat, n: nat, i: nat)
    ensures Bit(Shr(w, n), i) == Bit(w, n + i)
    decreases n
  {
    if n > 0 {
      ShrBit(w / 2, n - 1, i);
    }
  }

  lemma ShrOne(w: nat)
    ensures Shr(w, 1) == w / 2
  {
    assert Shr(w / 2, 0) == w / 2;
  }

  lemma {:induction false} SetBitBit(w: nat, n: nat, i: nat)
    ensures Bit(SetBit(w, n), i) == (i == n || Bit(w, i))
    decreases n
  {
    if n == 0 {
      if i > 0 { assert (w + 1) / 2 == w / 2 || w % 2 == 1; }
    } else if i > 0 {
      assert SetBit(w, n) / 2 == SetBit(w / 2, n - 1);
      SetBitBit(w / 2, n - 1, i - 1);
    }
  }

  /** A word fits in `n` bits exactly when no bit at or above `n` is set. */
  lemma {:induction false} HighBits(w: nat, n: nat, i: nat)
    requires w < Pow2(n) && n <= i
    ensures !Bit(w, i)
    decreases n
  {
    if n == 0 {
      ZeroBits(i);
    } else {
      HighBits(w / 2, n - 1, i - 1);
    }
  }

  lemma {:induction false} SetBitFits(w: nat, n: nat, k: nat)
    requires w < Pow2(k) && n < k
    ensures SetBit(w, n) < Pow2(k)
    decreases n
  {
    var half := Pow2(k - 1);
    assert Pow2(k) == 2 * half;
    if n > 0 {
      SetBitFits(w / 2, n - 1, k - 1);
      var v := SetBit(w / 2, n - 1);
      assert SetBit(w, n) == 2 * v + w % 2;
      assert v < half;
    }
  }

  lemma {:induction false} ShrLe(w: nat, n: nat)
    ensures Shr(w, n) <= w
    decreases n
  {
    if n > 0 { ShrLe(w / 2, n - 1); }
  }

  lemma {:induction false} ShrOut(w: nat, k: nat, n: nat)
    requires w < Pow2(k) && k <= n
    ensures Shr(w, n) == 0
    decreases n
  {
    if n > 0 { ShrOut(w / 2, if k == 0 then 0 else k - 1, n - 1); }
  }

  lemma EightBits(n: nat)
    ensures Pow2(n + 8) == 256 * Pow2(n)
  {
    assert Pow2(n + 4) == 16 * Pow2(n) by {
      assert Pow2(n + 2) == 4 * Pow2(n);
    }
    assert Pow2(n + 6) == 64 * Pow2(n);
  }

  lemma Pow64()
    ensures Pow2(64) == U64
  {
    EightBits(0);
    EightBits(8);
    EightBits(16);
    EightBits(24);
    EightBits(32);
    EightBits(40);
    EightBits(48);
    EightBits(56);
  }

  /** Two words with the same bits are the same word. */
  lemma {:induction false} SameBits(v: nat, w: nat)
    requires forall i: nat :: Bit(v, i) == Bit(w, i)
    ensures v == w
    decreases v + w
  {
    assert Bit(v, 0) == Bit(w, 0);
    if v + w > 0 {
      forall i: nat
        ensures Bit(v / 2, i) == Bit(w / 2, i)
      {
        assert Bit(v, i + 1) == Bit(w, i + 1);
      }
      if v / 2 + w / 2 < v + w { SameBits(v / 2, w / 2); }
    }
  }
}
