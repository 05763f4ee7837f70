/** The bits of a number. */
module Bits {
  function TwoTo(n: nat): (r: nat)
    ensures r > 0
  {
    if n == 0 then 1 else 2 * TwoTo(n - 1)
  }

  predicate HasBit(b: nat, i: nat) {
    if i == 0 then b % 2 == 1 else HasBit(b / 2, i - 1)
  }

  function SetBit(b: nat, i: nat): nat
    decreases i, b
  {
    if i == 0 then b / 2 * 2 + 1 else SetBit(b / 2, i - 1) * 2 + b % 2
  }

  lemma {:induction false} SetBitFits(b: nat, i: nat, n: nat)
    requires i < n && b < TwoTo(n)
    ensures SetBit(b, i) < TwoTo(n)
    decreases i
  {
    if i > 0 {
      SetBitFits(b / 2, i - 1, n - 1);
    }
  }

  lemma {:induction false} SetBitIs(b: nat, i: nat, j: nat)
    ensures HasBit(SetBit(b, i), j) <==> HasBit(b, j) || i == j
    decreases i
  {
    if i > 0 && j > 0 {
      SetBitIs(b / 2, i - 1, j - 1);
      assert (SetBit(b / 2, i - 1) * 2 + b % 2) / 2 == SetBit(b / 2, i - 1);
    } else if j > 0 {
      assert (b / 2 * 2 + 1) / 2 == b / 2;
    }
  }

  /** Which bits a number put together from two has. */
  lemma {:induction false} HasBitJoin(low: nat, high: nat, k: nat, i: nat)
    requires low < TwoTo(k)
    ensures HasBit(low + high * TwoTo(k), i) <==> if i < k then HasBit(low, i) else HasBit(high, i - k)
    decreases k
  {
    if k > 0 {
      var rest := high * TwoTo(k - 1);
      assert low + high * TwoTo(k) == low + 2 * rest;
      assert (low + 2 * rest) / 2 == low / 2 + rest && (low + 2 * rest) % 2 == low % 2;
      if i > 0 {
        HasBitJoin(low / 2, high, k - 1, i - 1);
      }
    }
  }

  lemma RotationPowers()
    ensures TwoTo(15) == 0x8000 && TwoTo(17) == 0x2_0000
  {
    assert TwoTo(5) == 32;
    assert TwoTo(10) == 32 * TwoTo(5);
    assert TwoTo(15) == 32 * TwoTo(10);
  }
}
