/** Fixed-width and variable-width integers, and length-prefixed strings (util/coding.cc). */
module Coding {
  import opened Keys
  import opened Bits

  const TWO_32: nat := 0x1_0000_0000
  const TWO_64: nat := 0x1_0000_0000_0000_0000

  type uint32 = n: int | 0 <= n < 0x1_0000_0000

  function Zeros(n: nat): Bytes {
    seq(n, i => 0)
  }

  // --------------------------------------------------------------- fixed width

  /** The `n` low-order bytes of `v`, least significant first. */
  function Fixed(v: nat, n: nat): (b: Bytes)
    ensures |b| == n
    decreases v, n
  {
    if n == 0 then [] else [v % 256] + Fixed(v / 256, n - 1)
  }

  /** Eight bits a byte, in order. */
  lemma {:induction false} FixedBits(v: nat, n: nat, i: nat, j: nat)
    requires i < n && j < 8
    ensures HasBit(Fixed(v, n)[i], j) <==> HasBit(v, 8 * i + j)
    decreases i
  {
    assert TwoTo(4) == 16 && TwoTo(8) == 16 * TwoTo(4);
    HasBitJoin(v % 256, v / 256, 8, 8 * i + j);
    if i > 0 {
      FixedBits(v / 256, n - 1, i - 1, j);
    }
  }

  function FromFixed(b: Bytes): nat {
    if b == [] then 0 else b[0] + 256 * FromFixed(b[1..])
  }

  ghost function Power256(n: nat): nat {
    if n == 0 then 1 else 256 * Power256(n - 1)
  }

  lemma {:induction false} FixedRoundTrip(v: nat, n: nat)
    requires v < Power256(n)
    ensures FromFixed(Fixed(v, n)) == v
  {
    if n > 0 {
      FixedRoundTrip(v / 256, n - 1);
    }
  }

  lemma Fixed32(v: nat)
    requires v < TWO_32
    ensures FromFixed(Fixed(v, 4)) == v
  {
    assert Power256(2) == 0x1_0000 && Power256(4) == 0x1_0000 * Power256(2);
    FixedRoundTrip(v, 4);
  }

  lemma Fixed64(v: nat)
    requires v < TWO_64
    ensures FromFixed(Fixed(v, 8)) == v
  {
    assert Power256(2) == 0x1_0000 && Power256(4) == 0x1_0000 * Power256(2);
    assert Power256(6) == 0x1_0000 * Power256(4) && Power256(8) == 0x1_0000 * Power256(6);
    FixedRoundTrip(v, 8);
  }

  // ------------------------------------------------------------ variable width

  /** Seven bits a byte, least significant first; the top bit says that more follow. */
  function Varint(v: nat): Bytes {
    if v < 128 then [v] else [v % 128 + 128] + Varint(v / 128)
  }

  lemma {:induction false} VarintBits(v: nat, i: nat, j: nat)
    requires i < |Varint(v)| && j < 8
    ensures HasBit(Varint(v)[i], j) <==> if j < 7 then HasBit(v, 7 * i + j) else i < |Varint(v)| - 1
    decreases i
  {
    assert TwoTo(3) == 8 && TwoTo(7) == 16 * TwoTo(3);
    HasBitJoin(v % 128, v / 128, 7, 7 * i + j);
    if v >= 128 {
      HasBitJoin(v % 128, 1, 7, j);
    }
    if i > 0 {
      VarintBits(v / 128, i - 1, j);
    }
  }

  /** The value spelled by the first bytes of `input`, at most `allowed` of them, and what
      follows. */
  function ParseVarint(input: Bytes, allowed: nat): (r: Option<(nat, Bytes)>)
    ensures r.Some? ==> |r.value.1| < |input|
    decreases input
  {
    if allowed == 0 || input == [] then None
    else if input[0] < 128 then Some((input[0], input[1..]))
    else
      match ParseVarint(input[1..], allowed - 1)
      case None => None
      case Some((v, rest)) => Some((input[0] - 128 + 128 * v, rest))
  }

  /** Parsing fails exactly when no byte that may be read is the last of a number. */
  lemma {:induction false} ParseVarintFails(input: Bytes, allowed: nat)
    ensures ParseVarint(input, allowed) == None <==> forall i | 0 <= i < |input| && i < allowed :: input[i] >= 128
    decreases allowed
  {
    if allowed > 0 && input != [] && input[0] >= 128 {
      ParseVarintFails(input[1..], allowed - 1);
      assert forall i | 0 < i < |input| :: input[i] == input[1..][i - 1];
      assert forall i | 0 <= i < |input| - 1 :: input[1..][i] == input[i + 1];
    }
  }

  /** Otherwise it ends at the first such byte, and the number has seven bits of each byte, in order. */
  lemma {:induction false} ParseVarintIs(input: Bytes, allowed: nat, v: nat, rest: Bytes, i: nat, j: nat)
    requires ParseVarint(input, allowed) == Some((v, rest)) && i < |input| - |rest| && j < 7
    ensures |input| - |rest| <= allowed && rest == input[|input| - |rest|..]
    ensures input[i] < 128 <==> i == |input| - |rest| - 1
    ensures HasBit(v, 7 * i + j) <==> HasBit(input[i], j)
    decreases allowed
  {
    assert TwoTo(3) == 8 && TwoTo(7) == 16 * TwoTo(3);
    if input[0] >= 128 {
      var (high, after) := ParseVarint(input[1..], allowed - 1).value;
      HasBitJoin(input[0] - 128, high, 7, 7 * i + j);
      HasBitJoin(input[0] - 128, 1, 7, j);
      ParseVarintIs(input[1..], allowed - 1, high, after, if i > 0 then i - 1 else 0, j);
    }
  }

  ghost function Power128(n: nat): nat {
    if n == 0 then 1 else 128 * Power128(n - 1)
  }

  lemma {:induction false} VarintRoundTrip(v: nat, rest: Bytes, allowed: nat)
    requires allowed > 0 && v < Power128(allowed)
    ensures ParseVarint(Varint(v) + rest, allowed) == Some((v, rest))
    ensures 0 < |Varint(v)| <= allowed
  {
    var input := Varint(v) + rest;
    if v < 128 {
      assert input[1..] == rest;
    } else {
      VarintRoundTrip(v / 128, rest, allowed - 1);
      assert input[1..] == Varint(v / 128) + rest;
    }
  }

  lemma Powers()
    ensures Power128(5) >= TWO_32 && Power128(10) >= TWO_64
    ensures Power128(1) == 0x80 && Power128(2) == 0x4000 && Power128(3) == 0x20_0000 && Power128(4) == 0x1000_0000
  {
    assert Power128(2) == 0x4000 && Power128(4) == 0x4000 * Power128(2);
    assert Power128(6) == 0x4000 * Power128(4) && Power128(8) == 0x4000 * Power128(6);
    assert Power128(10) == 0x4000 * Power128(8);
  }

  lemma Sevens(v: nat)
    ensures v / 0x80 / 0x80 == v / 0x4000 && v / 0x4000 / 0x80 == v / 0x20_0000 && v / 0x20_0000 / 0x80 == v / 0x1000_0000
  {
  }

  lemma VarintMore(v: nat)
    ensures v >= 128 ==> Varint(v) == [v % 128 + 128] + Varint(v / 128)
    ensures v < 128 ==> Varint(v) == [v]
  {
  }

  method EncodeVarint32(v: nat) returns (dst: Bytes)
    requires v < TWO_32
    ensures dst == Varint(v)
  {
    ghost var v1, v2, v3, v4 := v / 0x80, v / 0x4000, v / 0x20_0000, v / 0x1000_0000;
    Sevens(v);
    VarintMore(v);
    VarintMore(v1);
    VarintMore(v2);
    VarintMore(v3);
    VarintMore(v4);
    if v < 0x80 {
      dst := [v];
    } else if v < 0x4000 {
      dst := [v % 128 + 128, v / 0x80];
    } else if v < 0x20_0000 {
      dst := [v % 128 + 128, v / 0x80 % 128 + 128, v / 0x4000];
    } else if v < 0x1000_0000 {
      dst := [v % 128 + 128, v / 0x80 % 128 + 128, v / 0x4000 % 128 + 128, v / 0x20_0000];
    } else {
      dst := [v % 128 + 128, v / 0x80 % 128 + 128, v / 0x4000 % 128 + 128, v / 0x20_0000 % 128 + 128, v / 0x1000_0000];
    }
  }

  method EncodeVarint64(v0: nat) returns (dst: Bytes)
    requires v0 < TWO_64
    ensures dst == Varint(v0)
  {
    var v := v0;
    dst := [];
    while v >= 128
      invariant dst + Varint(v) == Varint(v0)
    {
      assert dst + ([v % 128 + 128] + Varint(v / 128)) == dst + [v % 128 + 128] + Varint(v / 128);
      dst := dst + [v % 128 + 128];
      v := v / 128;
    }
    dst := dst + [v];
  }

  /** Reads at most five bytes; bits beyond 32 are lost. */
  method GetVarint32(input: Bytes) returns (value: Option<nat>, rest: Bytes)
    ensures match ParseVarint(input, 5)
            case None => value == None && rest == input
            case Some((v, r)) => value == Some(v % TWO_32) && rest == r
  {
    if input != [] && input[0] < 128 {
      return Some(input[0]), input[1..];
    }
    value, rest := GetVarint32Fallback(input, 5);
  }

  method GetVarint32Fallback(input: Bytes, allowed: nat) returns (value: Option<nat>, rest: Bytes)
    ensures match ParseVarint(input, allowed)
            case None => value == None && rest == input
            case Some((v, r)) => value == Some(v % TWO_32) && rest == r
  {
    var p, scale: nat, result: nat, left: nat := input, 1, 0, allowed;
    ghost var total: nat := 0;
    ParseLoopIs(input, 1, 0, allowed);
    while left > 0 && p != []
      invariant left <= allowed && result == total % TWO_32
      invariant ParseLoop(input, 1, 0, allowed) == ParseLoop(p, scale, total, left)
      decreases left
    {
      var b := p[0];
      var part := Shift(b % 128, scale);
      Truncate(total, part);
      result := (result + part) % TWO_32;
      total := total + part;
      if b < 128 {
        return Some(result), p[1..];
      }
      p, left, scale := p[1..], left - 1, Shift(scale, 128);
    }
    return None, input;
  }

  /** Reads at most ten bytes; bits beyond 64 are lost. */
  method GetVarint64(input: Bytes) returns (value: Option<nat>, rest: Bytes)
    ensures match ParseVarint(input, 10)
            case None => value == None && rest == input
            case Some((v, r)) => value == Some(v % TWO_64) && rest == r
  {
    var p, scale: nat, result: nat, left: nat := input, 1, 0, 10;
    ghost var total: nat := 0;
    ghost var parsed := ParseLoop(input, scale, total, left);
    ParseLoopIs(input, scale, total, left);
    while left > 0 && p != []
      invariant left <= 10 && result == total % TWO_64
      invariant parsed == ParseLoop(p, scale, total, left)
      decreases left
    {
      var b := p[0];
      var part := Shift(b % 128, scale);
      Truncate64(total, part);
      result := (result + part) % TWO_64;
      total := total + part;
      if b < 128 {
        return Some(result), p[1..];
      }
      p, left, scale := p[1..], left - 1, Shift(scale, 128);
    }
    return None, input;
  }

  lemma Truncate64(total: nat, part: nat)
    ensures (total % TWO_64 + part) % TWO_64 == (total + part) % TWO_64
  {
  }

  function Shift(bits: nat, scale: nat): (r: nat) {
    bits * scale
  }

  lemma Truncate(total: nat, part: nat)
    ensures (total % TWO_32 + part) % TWO_32 == (total + part) % TWO_32
  {
  }

  /** The loop as a function: `total` is what the bytes read so far add up to. */
  ghost function ParseLoop(p: Bytes, scale: nat, total: nat, left: nat): Option<(nat, Bytes)>
    decreases left
  {
    if left == 0 || p == [] then None
    else if p[0] < 128 then Some((total + Shift(p[0] % 128, scale), p[1..]))
    else ParseLoop(p[1..], Shift(scale, 128), total + Shift(p[0] % 128, scale), left - 1)
  }

  lemma {:induction false} ParseLoopIs(p: Bytes, scale: nat, total: nat, left: nat)
    ensures match ParseVarint(p, left)
            case None => ParseLoop(p, scale, total, left) == None
            case Some((v, rest)) => ParseLoop(p, scale, total, left) == Some((total + Shift(scale, v), rest))
    decreases left
  {
    if left > 0 && p != [] && p[0] >= 128 {
      ParseLoopIs(p[1..], Shift(scale, 128), total + Shift(p[0] % 128, scale), left - 1);
      var r := ParseVarint(p[1..], left - 1);
      if r.Some? {
        Shifted(scale, p[0] - 128, r.value.0);
      }
    }
  }

  lemma Shifted(scale: nat, low: nat, high: nat)
    ensures scale * (low + 128 * high) == low * scale + scale * 128 * high
  {
  }

  // ---------------------------------------------------- length-prefixed strings

  function LengthPrefixed(s: Bytes): Bytes {
    Varint(|s|) + s
  }

  method GetLengthPrefixedSlice(input: Bytes) returns (result: Option<Bytes>, rest: Bytes)
    ensures match ParseSlice(input)
            case None => result == None
            case Some((s, r)) => result == Some(s) && rest == r
  {
    var length, after := GetVarint32(input);
    if length.Some? && |after| >= length.value {
      return Some(after[..length.value]), after[length.value..];
    }
    return None, after;
  }

  function ParseSlice(input: Bytes): (r: Option<(Bytes, Bytes)>)
    ensures r.Some? ==> |r.value.1| < |input|
  {
    match ParseVarint(input, 5)
    case None => None
    case Some((v, after)) =>
      var n := v % TWO_32;
      if n <= |after| then Some((after[..n], after[n..])) else None
  }

  lemma SliceRoundTrip(s: Bytes, rest: Bytes)
    requires |s| < TWO_32
    ensures ParseSlice(LengthPrefixed(s) + rest) == Some((s, rest))
  {
    Powers();
    VarintRoundTrip(|s|, s + rest, 5);
    assert LengthPrefixed(s) + rest == Varint(|s|) + (s + rest);
    assert (s + rest)[..|s|] == s && (s + rest)[|s|..] == rest;
  }
}
