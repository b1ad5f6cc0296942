/** Bit operations on 64-bit words, defined on binary digits. */
module Words {
  import opened Prelude

  function And(a: nat, b: nat): nat {
    if a == 0 || b == 0 then 0 else 2 * And(a / 2, b / 2) + (if a % 2 == 1 && b % 2 == 1 then 1 else 0)
  }

  function Or(a: nat, b: nat): nat
    decreases a + b
  {
    if a == 0 then b else if b == 0 then a
    else 2 * Or(a / 2, b / 2) + (if a % 2 == 1 || b % 2 == 1 then 1 else 0)
  }

  /** `w << n`: digits pushed out at the top are lost. */
  function ShiftLeft(w: uint64, n: nat): uint64 {
    if n == 0 then w else (2 * ShiftLeft(w, n - 1)) % UINT64_LIMIT
  }

  /** Digit `i` of `w`. */
  predicate Bit(w: nat, i: nat) {
    if i == 0 then w % 2 == 1 else Bit(w / 2, i - 1)
  }

  function Pow2(n: nat): nat {
    if n == 0 then 1 else 2 * Pow2(n - 1)
  }

  lemma {:induction false} ZeroHasNoBits(i: nat)
    ensures !Bit(0, i)
  {
    if i > 0 {
      ZeroHasNoBits(i - 1);
    }
  }

  lemma {:induction false} BitOfOr(a: nat, b: nat, i: nat)
    ensures Bit(Or(a, b), i) <==> Bit(a, i) || Bit(b, i)
  {
    ZeroHasNoBits(i);
    if a != 0 && b != 0 && i > 0 {
      BitOfOr(a / 2, b / 2, i - 1);
      assert Or(a, b) / 2 == Or(a / 2, b / 2);
    }
  }

  lemma {:induction false} OrIsAWord(a: nat, b: nat, n: nat)
    requires a < Pow2(n) && b < Pow2(n)
    ensures Or(a, b) < Pow2(n)
  {
    if a != 0 && b != 0 {
      OrIsAWord(a / 2, b / 2, n - 1);
    }
  }

  /** Clearing the top digit of a number leaves the digits below it. */
  lemma {:induction false} BitBelowTop(w: nat, k: nat, i: nat)
    requires Pow2(k) <= w < 2 * Pow2(k) && i < k
    ensures Bit(w - Pow2(k), i) <==> Bit(w, i)
  {
    var rest := w - 2 * Pow2(k - 1);
    assert rest % 2 == w % 2 && rest / 2 == w / 2 - Pow2(k - 1);
    if i > 0 {
      BitBelowTop(w / 2, k - 1, i - 1);
    }
  }

  lemma {:induction false} Pow2Adds(m: nat, n: nat)
    ensures Pow2(m + n) == Pow2(m) * Pow2(n)
  {
    if m > 0 {
      Pow2Adds(m - 1, n);
      assert Pow2(m + n) == 2 * Pow2(m - 1 + n);
    }
  }

  lemma Pow2Of64()
    ensures Pow2(63) == 0x8000_0000_0000_0000 && Pow2(64) == UINT64_LIMIT
  {
    assert Pow2(8) == 256;
    Pow2Adds(8, 8);
    Pow2Adds(16, 16);
    Pow2Adds(32, 32);
  }

  lemma BitAfterDoubling(w: uint64, i: nat)
    requires i < 64
    ensures Bit((2 * w) % UINT64_LIMIT, i) <==> i >= 1 && Bit(w, i - 1)
  {
    Pow2Of64();
    if w < Pow2(63) {
      assert (2 * w) % UINT64_LIMIT == 2 * w;
    } else {
      assert (2 * w) % UINT64_LIMIT == 2 * (w - Pow2(63));
      if i >= 1 {
        BitBelowTop(w, 63, i - 1);
      }
    }
  }

  /** Shifting by `n` moves digit `i - n` to place `i` and clears the low `n` digits. */
  lemma {:induction false} BitAfterShift(w: uint64, n: nat, i: nat)
    requires i < 64
    ensures Bit(ShiftLeft(w, n), i) <==> i >= n && Bit(w, i - n)
  {
    if n > 0 {
      BitAfterDoubling(ShiftLeft(w, n - 1), i);
      if i >= 1 {
        BitAfterShift(w, n - 1, i - 1);
      }
    }
  }

  lemma {:induction false} MaskIsPow2(i: nat)
    requires i < 64
    ensures ShiftLeft(1, i) == Pow2(i)
  {
    if i > 0 {
      MaskIsPow2(i - 1);
      assert Pow2(i) < UINT64_LIMIT by {
        Pow2Of64();
        Pow2Grows(i, 63);
      }
    }
  }

  lemma {:induction false} Pow2Grows(m: nat, n: nat)
    requires m <= n
    ensures 1 <= Pow2(m) <= Pow2(n)
    decreases n
  {
    if m < n {
      Pow2Grows(m, n - 1);
    } else if n > 0 {
      Pow2Grows(m - 1, n - 1);
    }
  }

  /** Testing against the mask `1 << i` reads digit `i`. */
  lemma {:induction false} AndWithMask(w: nat, i: nat)
    ensures And(w, Pow2(i)) != 0 <==> Bit(w, i)
  {
    Pow2Grows(0, i);
    ZeroHasNoBits(i);
    if w != 0 && i > 0 {
      AndWithMask(w / 2, i - 1);
      assert Pow2(i) / 2 == Pow2(i - 1) && Pow2(i) % 2 == 0;
    }
  }

  lemma {:induction false} BitOfMask(i: nat, j: nat)
    ensures Bit(Pow2(i), j) <==> i == j
  {
    if i == 0 {
      if j > 0 {
        ZeroHasNoBits(j - 1);
      }
    } else if j > 0 {
      BitOfMask(i - 1, j - 1);
      assert Pow2(i) / 2 == Pow2(i - 1);
    }
  }
}
