/** The checksum (util/crc32c.cc): the loop over four interleaved strides computes the bytewise
    CRC32C of section 12.1 of RFC 3720. */
module Crc32c {
  /** The operations on words that the loops use: exclusive or, its zero, one byte of the division,
      shifts by a byte, the low byte of a word, and a byte as a word. */
  datatype Words<!W> = Words(xor: (W, W) -> W, zero: W, divide: W -> W, up: W -> W, down: W -> W, low: W -> bv8,
                             byte: bv8 -> W)

  /** One byte of division, and a byte of each place divided past 16 bytes. */
  datatype Tables<!W> = Tables(byteExtension: bv8 -> W, stride0: bv8 -> W, stride1: bv8 -> W, stride2: bv8 -> W,
                              stride3: bv8 -> W)

  // ----------------------------------------------------------------- specification

  /** Dividing on by `n` bytes of zeros. */
  function Past<W>(o: Words<W>, x: W, n: nat): W
    decreases o, n
  {
    if n == 0 then x else o.divide(Past(o, x, n - 1))
  }

  /** The bytewise division. */
  function Fold<W>(o: Words<W>, l: W, data: seq<bv8>): W {
    if data == [] then l else o.divide(o.xor(Fold(o, l, data[..|data| - 1]), o.byte(data[|data| - 1])))
  }

  lemma {:induction false} FoldAppend<W>(o: Words<W>, l: W, a: seq<bv8>, b: seq<bv8>)
    ensures Fold(o, l, a + b) == Fold(o, Fold(o, l, a), b)
  {
    if b == [] {
      assert a + b == a;
    } else {
      FoldAppend(o, l, a, b[..|b| - 1]);
      assert (a + b)[..|a + b| - 1] == a + b[..|b| - 1];
    }
  }

  // ------------------------------------------------------------------------- laws

  ghost predicate XorAt<W>(o: Words<W>, a: W, b: W, c: W) {
    o.xor(a, b) == o.xor(b, a) && o.xor(o.xor(a, b), c) == o.xor(a, o.xor(b, c)) && o.xor(a, o.zero) == a
  }

  ghost predicate LinearAt<W>(o: Words<W>, a: W, b: W) {
    o.divide(o.xor(a, b)) == o.xor(o.divide(a), o.divide(b))
  }

  /** A byte of division shifts, and divides the low byte. */
  ghost predicate ByteAt<W>(o: Words<W>, x: W) {
    o.divide(x) == o.xor(o.divide(o.byte(o.low(x))), o.down(x))
  }

  /** Adding a byte changes the low byte only. */
  ghost predicate MixAt<W>(o: Words<W>, x: W, b: bv8) {
    o.low(o.xor(x, o.byte(b))) == o.low(x) ^ b && o.down(o.xor(x, o.byte(b))) == o.down(x)
  }

  /** A byte in one of the upper places comes down by one place. */
  ghost predicate PlaceAt<W>(o: Words<W>, b: bv8) {
    var x := o.byte(b);
    && o.divide(o.up(x)) == x && o.divide(o.up(o.up(x))) == o.up(x) && o.divide(o.up(o.up(o.up(x)))) == o.up(o.up(x))
  }

  /** A word is the sum of its bytes. */
  ghost predicate SplitAt<W>(o: Words<W>, x: W) {
    var x1 := o.down(x);
    var x2 := o.down(x1);
    var x3 := o.down(x2);
    x == Word(o, o.low(x), o.low(x1), o.low(x2), o.low(x3))
  }

  ghost predicate Laws<W(!new)>(o: Words<W>) {
    && (forall a, b, c :: XorAt(o, a, b, c))
    && (forall a, b :: LinearAt(o, a, b))
    && (forall x :: ByteAt(o, x))
    && (forall x, b :: MixAt(o, x, b))
    && (forall b :: PlaceAt(o, b))
    && (forall x :: SplitAt(o, x))
  }

  // --------------------------------------------------------------------- algebra

  lemma {:induction false} PastLinear<W(!new)>(o: Words<W>, a: W, b: W, n: nat)
    requires Laws(o)
    ensures Past(o, o.xor(a, b), n) == o.xor(Past(o, a, n), Past(o, b, n))
    decreases n
  {
    if n > 0 {
      PastLinear(o, a, b, n - 1);
      assert LinearAt(o, Past(o, a, n - 1), Past(o, b, n - 1));
    }
  }

  lemma {:induction false} PastAdd<W>(o: Words<W>, x: W, m: nat, n: nat)
    ensures Past(o, Past(o, x, m), n) == Past(o, x, m + n)
    decreases n
  {
    if n > 0 {
      PastAdd(o, x, m, n - 1);
    }
  }

  /** A word with four bytes in their places, first one lowest. */
  function Word<W>(o: Words<W>, b0: bv8, b1: bv8, b2: bv8, b3: bv8): W {
    o.xor(o.xor(o.xor(o.byte(b0), o.up(o.byte(b1))), o.up(o.up(o.byte(b2)))), o.up(o.up(o.up(o.byte(b3)))))
  }

  /** One byte is divided and the others move down. */
  lemma DivideSum<W(!new)>(o: Words<W>, x: W, y1: W, y2: W, y3: W)
    requires Laws(o)
    ensures o.divide(o.xor(o.xor(o.xor(x, y1), y2), y3))
         == o.xor(o.xor(o.xor(o.divide(x), o.divide(y1)), o.divide(y2)), o.divide(y3))
  {
    assert LinearAt(o, o.xor(o.xor(x, y1), y2), y3) && LinearAt(o, o.xor(x, y1), y2) && LinearAt(o, x, y1);
  }

  /** Four bytes at once: the word is added, and divided past. */
  lemma WordFold<W(!new)>(o: Words<W>, l: W, b0: bv8, b1: bv8, b2: bv8, b3: bv8)
    requires Laws(o)
    ensures Past(o, o.xor(l, Word(o, b0, b1, b2, b3)), 4) == Fold(o, l, [b0, b1, b2, b3])
  {
    var x0, x1, x2, x3 := o.byte(b0), o.byte(b1), o.byte(b2), o.byte(b3);
    assert PlaceAt(o, b1) && PlaceAt(o, b2) && PlaceAt(o, b3);
    var s := o.xor(l, Word(o, b0, b1, b2, b3));
    var l1 := o.divide(o.xor(l, x0));
    var l2 := o.divide(o.xor(l1, x1));
    var l3 := o.divide(o.xor(l2, x2));
    assert s == o.xor(o.xor(o.xor(o.xor(l, x0), o.up(x1)), o.up(o.up(x2))), o.up(o.up(o.up(x3)))) by {
      Gather(o, l, x0, o.up(x1), o.up(o.up(x2)), o.up(o.up(o.up(x3))));
    }
    assert o.divide(s) == o.xor(o.xor(o.xor(l1, x1), o.up(x2)), o.up(o.up(x3))) by {
      DivideSum(o, o.xor(l, x0), o.up(x1), o.up(o.up(x2)), o.up(o.up(o.up(x3))));
    }
    assert o.divide(o.divide(s)) == o.xor(o.xor(l2, x2), o.up(x3)) by {
      assert LinearAt(o, o.xor(o.xor(l1, x1), o.up(x2)), o.up(o.up(x3))) && LinearAt(o, o.xor(l1, x1), o.up(x2));
    }
    assert o.divide(o.divide(o.divide(s))) == o.xor(l3, x3) by {
      assert LinearAt(o, o.xor(l2, x2), o.up(x3));
    }
    PastFour(o, s, 4);
    FoldFour(o, l, b0, b1, b2, b3);
  }

  lemma PastFour<W>(o: Words<W>, x: W, n: nat)
    requires n == 4
    ensures Past(o, x, n) == o.divide(o.divide(o.divide(o.divide(x))))
  {
    assert Past(o, x, n - 4) == x && Past(o, x, n - 3) == o.divide(x) && Past(o, x, n - 2) == o.divide(o.divide(x));
  }

  lemma Gather<W(!new)>(o: Words<W>, l: W, a: W, b: W, c: W, d: W)
    requires Laws(o)
    ensures o.xor(l, o.xor(o.xor(o.xor(a, b), c), d)) == o.xor(o.xor(o.xor(o.xor(l, a), b), c), d)
  {
    assert XorAt(o, l, o.xor(o.xor(a, b), c), d) && XorAt(o, l, o.xor(a, b), c) && XorAt(o, l, a, b);
  }

  lemma FoldOne<W>(o: Words<W>, l: W, a: seq<bv8>, b: bv8)
    ensures Fold(o, l, a + [b]) == o.divide(o.xor(Fold(o, l, a), o.byte(b)))
  {
    assert (a + [b])[..|a|] == a;
  }

  lemma FoldFour<W>(o: Words<W>, l: W, b0: bv8, b1: bv8, b2: bv8, b3: bv8)
    ensures Fold(o, l, [b0, b1, b2, b3])
         == o.divide(o.xor(o.divide(o.xor(o.divide(o.xor(o.divide(o.xor(l, o.byte(b0))), o.byte(b1))), o.byte(b2))), o.byte(b3)))
  {
    var s0: seq<bv8> := [];
    var s1 := s0 + [b0];
    var s2 := s1 + [b1];
    var s3 := s2 + [b2];
    FoldOne(o, l, s0, b0);
    FoldOne(o, l, s1, b1);
    FoldOne(o, l, s2, b2);
    FoldOne(o, l, s3, b3);
    assert [b0, b1, b2, b3] == s3 + [b3];
  }

  // --------------------------------------------------------------------- strides

  /** The division that four interleaved partial results stand for. */
  function Combine<W>(o: Words<W>, c0: W, c1: W, c2: W, c3: W): W {
    Past(o, o.xor(Past(o, o.xor(Past(o, o.xor(Past(o, c0, 4), c1), 4), c2), 4), c3), 4)
  }

  /** Each partial result counts past the words after it. */
  lemma CombineIs<W(!new)>(o: Words<W>, c0: W, c1: W, c2: W, c3: W)
    requires Laws(o)
    ensures Combine(o, c0, c1, c2, c3)
         == o.xor(o.xor(o.xor(Past(o, c0, 16), Past(o, c1, 12)), Past(o, c2, 8)), Past(o, c3, 4))
  {
    var a := Past(o, c0, 4);
    var b := Past(o, o.xor(a, c1), 4);
    assert b == o.xor(Past(o, c0, 8), Past(o, c1, 4)) by {
      PastLinear(o, a, c1, 4);
      PastAdd(o, c0, 4, 4);
    }
    var c := Past(o, o.xor(b, c2), 4);
    assert c == o.xor(o.xor(Past(o, c0, 12), Past(o, c1, 8)), Past(o, c2, 4)) by {
      PastLinear(o, b, c2, 4);
      PastLinear(o, Past(o, c0, 8), Past(o, c1, 4), 4);
      PastAdd(o, c0, 8, 4);
      PastAdd(o, c1, 4, 4);
    }
    PastLinear(o, c, c3, 4);
    PastLinear(o, o.xor(Past(o, c0, 12), Past(o, c1, 8)), Past(o, c2, 4), 4);
    PastLinear(o, Past(o, c0, 12), Past(o, c1, 8), 4);
    PastAdd(o, c0, 12, 4);
    PastAdd(o, c1, 8, 4);
    PastAdd(o, c2, 4, 4);
  }

  /** The stride step on the oldest partial result: the next word joins, everything divides past it. */
  lemma Rotate<W(!new)>(o: Words<W>, c0: W, c1: W, c2: W, c3: W, w: W)
    requires Laws(o)
    ensures Combine(o, c1, c2, c3, o.xor(w, Past(o, c0, 16))) == Past(o, o.xor(Combine(o, c0, c1, c2, c3), w), 4)
  {
    var p0, p1, p2, p3 := Past(o, c0, 16), Past(o, c1, 12), Past(o, c2, 8), Past(o, c3, 4);
    var c := Combine(o, c0, c1, c2, c3);
    CombineIs(o, c0, c1, c2, c3);
    // both sides divide the same sum past one word
    assert c == o.xor(o.xor(o.xor(p0, p1), p2), p3);
    var rest := o.xor(o.xor(p1, p2), p3);
    assert c == o.xor(p0, rest) by {
      Gather3(o, p0, p1, p2, p3);
    }
    assert o.xor(c, w) == o.xor(rest, o.xor(w, p0)) by {
      assert XorAt(o, p0, rest, w) && XorAt(o, rest, w, p0) && XorAt(o, o.xor(rest, w), p0, p0);
      assert XorAt(o, p0, o.xor(rest, w), w);
    }
    var inner := o.xor(Past(o, o.xor(Past(o, c1, 4), c2), 4), c3);
    assert Past(o, inner, 4) == rest by {
      Three(o, c1, c2, c3);
    }
  }

  lemma Gather3<W(!new)>(o: Words<W>, a: W, b: W, c: W, d: W)
    requires Laws(o)
    ensures o.xor(o.xor(o.xor(a, b), c), d) == o.xor(a, o.xor(o.xor(b, c), d))
  {
    assert XorAt(o, a, b, c) && XorAt(o, a, o.xor(b, c), d);
  }

  lemma Three<W(!new)>(o: Words<W>, c1: W, c2: W, c3: W)
    requires Laws(o)
    ensures Past(o, o.xor(Past(o, o.xor(Past(o, c1, 4), c2), 4), c3), 4)
         == o.xor(o.xor(Past(o, c1, 12), Past(o, c2, 8)), Past(o, c3, 4))
  {
    var b := Past(o, o.xor(Past(o, c1, 4), c2), 4);
    assert b == o.xor(Past(o, c1, 8), Past(o, c2, 4)) by {
      PastLinear(o, Past(o, c1, 4), c2, 4);
      PastAdd(o, c1, 4, 4);
    }
    PastLinear(o, b, c3, 4);
    PastLinear(o, Past(o, c1, 8), Past(o, c2, 4), 4);
    PastAdd(o, c1, 8, 4);
    PastAdd(o, c2, 4, 4);
  }

  // ---------------------------------------------------------------------- tables

  ghost predicate TablesAt<W>(o: Words<W>, t: Tables<W>, b: bv8) {
    var x := o.byte(b);
    && t.byteExtension(b) == o.divide(x) && t.stride3(b) == Past(o, x, 16) && t.stride2(b) == Past(o, o.up(x), 16)
    && t.stride1(b) == Past(o, o.up(o.up(x)), 16) && t.stride0(b) == Past(o, o.up(o.up(o.up(x))), 16)
  }

  /** What the table entries are. */
  ghost predicate IsTables<W>(o: Words<W>, t: Tables<W>) {
    forall b :: TablesAt(o, t, b)
  }

  /** One byte of input through the table. */
  function Step1<W>(o: Words<W>, t: Tables<W>, l: W, b: bv8): W {
    o.xor(t.byteExtension(o.low(l) ^ b), o.down(l))
  }

  lemma Step1Is<W(!new)>(o: Words<W>, t: Tables<W>, l: W, b: bv8)
    requires Laws(o) && IsTables(o, t)
    ensures Step1(o, t, l, b) == o.divide(o.xor(l, o.byte(b)))
  {
    assert TablesAt(o, t, o.low(l) ^ b) && MixAt(o, l, b) && ByteAt(o, o.xor(l, o.byte(b)));
  }

  /** One word of input for one stride. */
  function Step4<W>(o: Words<W>, t: Tables<W>, c: W, w: W): W {
    var c1 := o.down(c);
    var c2 := o.down(c1);
    var c3 := o.down(c2);
    o.xor(o.xor(o.xor(o.xor(w, t.stride3(o.low(c))), t.stride2(o.low(c1))), t.stride1(o.low(c2))), t.stride0(o.low(c3)))
  }

  lemma Step4Is<W(!new)>(o: Words<W>, t: Tables<W>, c: W, w: W)
    requires Laws(o) && IsTables(o, t)
    ensures Step4(o, t, c, w) == o.xor(w, Past(o, c, 16))
  {
    var c1 := o.down(c);
    var c2 := o.down(c1);
    var c3 := o.down(c2);
    var b0, b1, b2, b3 := o.low(c), o.low(c1), o.low(c2), o.low(c3);
    var x0, x1, x2, x3 := o.byte(b0), o.up(o.byte(b1)), o.up(o.up(o.byte(b2))), o.up(o.up(o.up(o.byte(b3))));
    assert SplitAt(o, c) && TablesAt(o, t, b0) && TablesAt(o, t, b1) && TablesAt(o, t, b2) && TablesAt(o, t, b3);
    PastLinear(o, o.xor(o.xor(x0, x1), x2), x3, 16);
    PastLinear(o, o.xor(x0, x1), x2, 16);
    PastLinear(o, x0, x1, 16);
    Gather(o, w, Past(o, x0, 16), Past(o, x1, 16), Past(o, x2, 16), Past(o, x3, 16));
  }

  /** A loaded word joins, and is divided past. */
  method Step4W<W(!new)>(o: Words<W>, t: Tables<W>, l: W, w0: W) returns (r: W)
    requires Laws(o) && IsTables(o, t)
    ensures r == Past(o, Added(o, l, w0), 4)
  {
    var w := Added(o, w0, l);
    assert XorAt(o, w0, l, l);
    for i := 0 to 4
      invariant w == Past(o, Added(o, l, w0), i)
    {
      TableStepIs(o, t, w);
      w := TableStep(o, t, w);
    }
    r := w;
  }

  function Added<W>(o: Words<W>, a: W, b: W): W {
    o.xor(a, b)
  }

  /** One byte of division through the table. */
  function TableStep<W>(o: Words<W>, t: Tables<W>, w: W): W {
    o.xor(o.down(w), t.byteExtension(o.low(w)))
  }

  lemma TableStepIs<W(!new)>(o: Words<W>, t: Tables<W>, w: W)
    requires Laws(o) && IsTables(o, t)
    ensures TableStep(o, t, w) == Past(o, w, 1)
    ensures forall x: W, n: nat :: w == Past(o, x, n) ==> TableStep(o, t, w) == Past(o, x, n + 1)
  {
    assert ByteAt(o, w) && TablesAt(o, t, o.low(w)) && XorAt(o, o.down(w), t.byteExtension(o.low(w)), w);
  }

  function ReadUint32<W>(o: Words<W>, data: seq<bv8>, p: nat): W
    requires p + 4 <= |data|
  {
    Word(o, data[p], data[p + 1], data[p + 2], data[p + 3])
  }

  lemma FoldWord<W(!new)>(o: Words<W>, l: W, data: seq<bv8>, p: nat)
    requires Laws(o) && p + 4 <= |data|
    ensures Fold(o, l, data[..p + 4]) == Past(o, o.xor(Fold(o, l, data[..p]), ReadUint32(o, data, p)), 4)
  {
    WordFold(o, Fold(o, l, data[..p]), data[p], data[p + 1], data[p + 2], data[p + 3]);
    FoldAppend(o, l, data[..p], [data[p], data[p + 1], data[p + 2], data[p + 3]]);
    assert data[..p + 4] == data[..p] + [data[p], data[p + 1], data[p + 2], data[p + 3]];
  }

  lemma TakeByte<W(!new)>(o: Words<W>, t: Tables<W>, l: W, data: seq<bv8>, p: nat)
    requires Laws(o) && IsTables(o, t) && p < |data|
    ensures Fold(o, l, data[..p + 1]) == Step1(o, t, Fold(o, l, data[..p]), data[p])
  {
    FoldOne(o, l, data[..p], data[p]);
    Step1Is(o, t, Fold(o, l, data[..p]), data[p]);
    assert data[..p + 1] == data[..p] + [data[p]];
  }

  // ------------------------------------------------------------------------ loop

  /** Four stride steps take in sixteen bytes. */
  lemma Stride16<W(!new)>(o: Words<W>, t: Tables<W>, l: W, data: seq<bv8>, p: nat, c0: W, c1: W, c2: W, c3: W)
    requires Laws(o) && IsTables(o, t) && p + 16 <= |data| && Combine(o, c0, c1, c2, c3) == Fold(o, l, data[..p])
    ensures Combine(o, Step4(o, t, c0, ReadUint32(o, data, p)), Step4(o, t, c1, ReadUint32(o, data, p + 4)),
                    Step4(o, t, c2, ReadUint32(o, data, p + 8)), Step4(o, t, c3, ReadUint32(o, data, p + 12)))
         == Fold(o, l, data[..p + 16])
  {
    var d0, d1 := Step4(o, t, c0, ReadUint32(o, data, p)), Step4(o, t, c1, ReadUint32(o, data, p + 4));
    var d2 := Step4(o, t, c2, ReadUint32(o, data, p + 8));
    Stride4(o, t, l, data, p, c0, c1, c2, c3);
    Stride4(o, t, l, data, p + 4, c1, c2, c3, d0);
    Stride4(o, t, l, data, p + 8, c2, c3, d0, d1);
    Stride4(o, t, l, data, p + 12, c3, d0, d1, d2);
  }

  lemma Stride4<W(!new)>(o: Words<W>, t: Tables<W>, l: W, data: seq<bv8>, p: nat, c0: W, c1: W, c2: W, c3: W)
    requires Laws(o) && IsTables(o, t) && p + 4 <= |data| && Combine(o, c0, c1, c2, c3) == Fold(o, l, data[..p])
    ensures Combine(o, c1, c2, c3, Step4(o, t, c0, ReadUint32(o, data, p))) == Fold(o, l, data[..p + 4])
  {
    Step4Is(o, t, c0, ReadUint32(o, data, p));
    Rotate(o, c0, c1, c2, c3, ReadUint32(o, data, p));
    FoldWord(o, l, data, p);
  }

  /** The first sixteen bytes, loaded into the four partial results. */
  lemma FirstSwath<W(!new)>(o: Words<W>, l: W, data: seq<bv8>, p: nat)
    requires Laws(o) && p + 16 <= |data|
    ensures Combine(o, o.xor(ReadUint32(o, data, p), Fold(o, l, data[..p])), ReadUint32(o, data, p + 4),
                    ReadUint32(o, data, p + 8), ReadUint32(o, data, p + 12))
         == Fold(o, l, data[..p + 16])
  {
    FoldWord(o, l, data, p);
    FoldWord(o, l, data, p + 4);
    FoldWord(o, l, data, p + 8);
    FoldWord(o, l, data, p + 12);
    assert XorAt(o, ReadUint32(o, data, p), Fold(o, l, data[..p]), o.zero);
  }

  /** Extends a checksum by the bytes at an address `misaligned` past a multiple of four: sixteen
      bytes at a time while there are as many, then a word at a time, then bytes. */
  method Extend<W(!new)>(o: Words<W>, t: Tables<W>, ones: W, crc: W, data: seq<bv8>, misaligned: nat) returns (r: W)
    requires Laws(o) && IsTables(o, t) && misaligned < 4
    ensures r == Added(o, Fold(o, Added(o, crc, ones), data), ones)
  {
    var p, e := 0, |data|;
    var l := Added(o, crc, ones);
    ghost var start := l;
    var x := if misaligned == 0 then 0 else 4 - misaligned;
    assert data[..0] == [];
    if x <= e {
      l := ExtendBytes(o, t, start, l, data, p, x);
      p := x;
    }
    if e - p >= 16 {
      p, l := ExtendStrides(o, t, start, l, data, p);
    }
    l := ExtendBytes(o, t, start, l, data, p, e);
    assert data[..e] == data;
    r := Added(o, l, ones);
  }

  /** Byte by byte. */
  method ExtendBytes<W(!new)>(o: Words<W>, t: Tables<W>, ghost start: W, l0: W, data: seq<bv8>, p0: nat, end: nat)
    returns (l: W)
    requires Laws(o) && IsTables(o, t) && p0 <= end <= |data| && l0 == Fold(o, start, data[..p0])
    ensures l == Fold(o, start, data[..end])
  {
    var p := p0;
    l := l0;
    while p != end
      invariant p <= end && l == Fold(o, start, data[..p])
      decreases end - p
    {
      TakeByte(o, t, start, data, p);
      l := Step1(o, t, l, data[p]);
      p := p + 1;
    }
  }

  method ExtendStrides<W(!new)>(o: Words<W>, t: Tables<W>, ghost start: W, l0: W, data: seq<bv8>, p0: nat)
    returns (p: nat, l: W)
    requires Laws(o) && IsTables(o, t) && p0 + 16 <= |data| && l0 == Fold(o, start, data[..p0])
    ensures p0 <= p <= |data| && l == Fold(o, start, data[..p])
  {
    var crc0, crc1, crc2, crc3;
    p, crc0, crc1, crc2, crc3 := ExtendSwaths(o, t, start, l0, data, p0);
    p, l := ExtendWords(o, t, start, data, p, crc0, crc1, crc2, crc3);
  }

  /** Loads the first sixteen bytes, and goes on while there are sixteen more. */
  method ExtendSwaths<W(!new)>(o: Words<W>, t: Tables<W>, ghost start: W, l0: W, data: seq<bv8>, p0: nat)
    returns (p: nat, crc0: W, crc1: W, crc2: W, crc3: W)
    requires Laws(o) && IsTables(o, t) && p0 + 16 <= |data| && l0 == Fold(o, start, data[..p0])
    ensures p0 <= p <= |data| && Combine(o, crc0, crc1, crc2, crc3) == Fold(o, start, data[..p])
  {
    p := p0 + 16;
    crc0, crc1, crc2, crc3 := LoadSwath(o, start, l0, data, p0);
    while |data| - p >= 16
      invariant p0 <= p <= |data| && Combine(o, crc0, crc1, crc2, crc3) == Fold(o, start, data[..p])
    {
      crc0, crc1, crc2, crc3 := Step16(o, t, start, data, p, crc0, crc1, crc2, crc3);
      p := p + 16;
    }
  }

  method LoadSwath<W(!new)>(o: Words<W>, ghost start: W, l: W, data: seq<bv8>, p: nat)
    returns (crc0: W, crc1: W, crc2: W, crc3: W)
    requires Laws(o) && p + 16 <= |data| && l == Fold(o, start, data[..p])
    ensures Combine(o, crc0, crc1, crc2, crc3) == Fold(o, start, data[..p + 16])
  {
    FirstSwath(o, start, data, p);
    crc0, crc1 := Added(o, ReadUint32(o, data, p), l), ReadUint32(o, data, p + 4);
    crc2, crc3 := ReadUint32(o, data, p + 8), ReadUint32(o, data, p + 12);
  }

  /** The words left over, one at a time, and the sum of the partial results. */
  method ExtendWords<W(!new)>(o: Words<W>, t: Tables<W>, ghost start: W, data: seq<bv8>, p0: nat, c0: W, c1: W, c2: W, c3: W)
    returns (p: nat, l: W)
    requires Laws(o) && IsTables(o, t) && p0 <= |data| && Combine(o, c0, c1, c2, c3) == Fold(o, start, data[..p0])
    ensures p0 <= p <= |data| && l == Fold(o, start, data[..p])
  {
    p := p0;
    var crc0, crc1, crc2, crc3 := c0, c1, c2, c3;
    while |data| - p >= 4
      invariant p0 <= p <= |data| && Combine(o, crc0, crc1, crc2, crc3) == Fold(o, start, data[..p])
    {
      Stride4(o, t, start, data, p, crc0, crc1, crc2, crc3);
      crc0 := Step4(o, t, crc0, ReadUint32(o, data, p));
      crc0, crc1, crc2, crc3 := crc1, crc2, crc3, crc0;
      p := p + 4;
    }
    l := CombineStrides(o, t, crc0, crc1, crc2, crc3);
  }

  /** A swath of sixteen bytes, four to each stride. */
  method Step16<W(!new)>(o: Words<W>, t: Tables<W>, ghost start: W, data: seq<bv8>, p: nat, c0: W, c1: W, c2: W, c3: W)
    returns (d0: W, d1: W, d2: W, d3: W)
    requires Laws(o) && IsTables(o, t) && p + 16 <= |data| && Combine(o, c0, c1, c2, c3) == Fold(o, start, data[..p])
    ensures Combine(o, d0, d1, d2, d3) == Fold(o, start, data[..p + 16])
  {
    Stride16(o, t, start, data, p, c0, c1, c2, c3);
    d0 := Step4(o, t, c0, ReadUint32(o, data, p));
    d1 := Step4(o, t, c1, ReadUint32(o, data, p + 4));
    d2 := Step4(o, t, c2, ReadUint32(o, data, p + 8));
    d3 := Step4(o, t, c3, ReadUint32(o, data, p + 12));
  }

  /** Adds the partial results up, one word at a time. */
  method CombineStrides<W(!new)>(o: Words<W>, t: Tables<W>, crc0: W, crc1: W, crc2: W, crc3: W) returns (l: W)
    requires Laws(o) && IsTables(o, t)
    ensures l == Combine(o, crc0, crc1, crc2, crc3)
  {
    assert XorAt(o, crc0, o.zero, crc0) && XorAt(o, o.zero, crc0, crc0);
    l := Step4W(o, t, o.zero, crc0);
    l := Step4W(o, t, l, crc1);
    l := Step4W(o, t, l, crc2);
    l := Step4W(o, t, l, crc3);
  }

  /** Extending twice is extending by both. */
  lemma ExtendComposes<W(!new)>(o: Words<W>, ones: W, crc: W, a: seq<bv8>, b: seq<bv8>)
    requires Laws(o) && o.xor(ones, ones) == o.zero
    ensures o.xor(Fold(o, o.xor(o.xor(Fold(o, o.xor(crc, ones), a), ones), ones), b), ones)
         == o.xor(Fold(o, o.xor(crc, ones), a + b), ones)
  {
    FoldAppend(o, o.xor(crc, ones), a, b);
    assert XorAt(o, Fold(o, o.xor(crc, ones), a), ones, ones) && XorAt(o, Fold(o, o.xor(crc, ones), a), o.zero, ones);
  }

  // ---------------------------------------------------------------- 32-bit words

  const ONES: bv32 := 0xffff_ffff
  /** The polynomial, lowest power in the highest bit. */
  const POLY: bv32 := 0x82f6_3b78

  /** One bit of the division. */
  function Round(x: bv32): bv32 {
    if x & 1 == 1 then (x >> 1) ^ POLY else x >> 1
  }

  function Eight<W>(f: W -> W, x: W): W {
    f(f(f(f(f(f(f(f(x))))))))
  }

  function Xor(a: bv32, b: bv32): bv32 {
    a ^ b
  }

  function Up(x: bv32): bv32 {
    x << 8
  }

  function Down(x: bv32): bv32 {
    x >> 8
  }

  function Low(x: bv32): bv8 {
    (x & 0xff) as bv8
  }

  function Byte(b: bv8): bv32 {
    b as bv32
  }

  /** Words of 32 bits, divided by `f` bit by bit. */
  function Words32(f: bv32 -> bv32): Words<bv32> {
    Words(Xor, 0, (x: bv32) => Eight(f, x), Up, Down, Low, Byte)
  }

  ghost predicate EvenAt(f: bv32 -> bv32, x: bv32) {
    x & 1 == 0 ==> f(x) == x >> 1
  }

  /** What the laws need of one bit of division. */
  ghost predicate IsRound(f: bv32 -> bv32) {
    (forall x, y :: RoundLinearAt(Xor, f, x, y)) && forall x :: EvenAt(f, x)
  }

  /** The entries of the byte table for single bits, which determine all others by linearity. */
  lemma ByteTableIs(t: Tables<bv32>)
    requires IsTables(Words32(Round), t)
    ensures t.byteExtension(0x01) == 0xf26b8303 && t.byteExtension(0x02) == 0xe13b70f7
    ensures t.byteExtension(0x04) == 0xc79a971f && t.byteExtension(0x08) == 0x8ad958cf
    ensures t.byteExtension(0x10) == 0x105ec76f && t.byteExtension(0x20) == 0x20bd8ede
    ensures t.byteExtension(0x40) == 0x417b1dbc && t.byteExtension(0x80) == 0x82f63b78
  {
    forall b: bv8
      ensures t.byteExtension(b) == Eight(Round, b as bv32)
    {
      assert TablesAt(Words32(Round), t, b);
    }
  }

  lemma RoundIsRound()
    ensures IsRound(Round)
  {
    forall x, y
      ensures RoundLinearAt(Xor, Round, x, y)
    {
      RoundIsLinear(x, y);
    }
    forall x
      ensures EvenAt(Round, x)
    {
      RoundOfEven(x);
    }
  }

  lemma RoundIsLinear(x: bv32, y: bv32)
    ensures RoundLinearAt(Xor, Round, x, y)
  {
    RoundLinear(x, y);
    LinearFor(Round, x, y, Xor(x, y));
  }

  lemma LinearFor(f: bv32 -> bv32, x: bv32, y: bv32, z: bv32)
    requires z == Xor(x, y) && f(z) == Xor(f(x), f(y))
    ensures RoundLinearAt(Xor, f, x, y)
  {
  }

  lemma RoundLinear(x: bv32, y: bv32)
    ensures Round(Xor(x, y)) == Xor(Round(x), Round(y))
  {
    LowBitLinear(x, y);
    if x & 1 == 0 && y & 1 == 0 {
      EvenEven(x, y);
    } else if x & 1 == 0 {
      OddEven(y, x);
      XorCommutes(x, y);
      XorCommutes(Round(x), Round(y));
    } else if y & 1 == 0 {
      OddEven(x, y);
    } else {
      OddOdd(x, y);
    }
  }

  lemma EvenEven(x: bv32, y: bv32)
    requires x & 1 == 0 && y & 1 == 0
    ensures Round(Xor(x, y)) == Xor(Round(x), Round(y))
  {
    ShiftLinear(x, y);
    LowBitLinear(x, y);
  }

  lemma OddEven(x: bv32, y: bv32)
    requires x & 1 == 1 && y & 1 == 0
    ensures Round(Xor(x, y)) == Xor(Round(x), Round(y))
  {
    ShiftLinear(x, y);
    LowBitLinear(x, y);
    XorSwaps(x >> 1, y >> 1, POLY);
  }

  lemma OddOdd(x: bv32, y: bv32)
    requires x & 1 == 1 && y & 1 == 1
    ensures Round(Xor(x, y)) == Xor(Round(x), Round(y))
  {
    ShiftLinear(x, y);
    LowBitLinear(x, y);
    XorSwaps(x >> 1, y >> 1, POLY);
  }

  lemma RoundOfEven(x: bv32)
    ensures EvenAt(Round, x)
  {
  }

  lemma ShiftLinear(x: bv32, y: bv32)
    ensures (x ^ y) >> 1 == (x >> 1) ^ (y >> 1)
  {
  }

  lemma LowBitLinear(x: bv32, y: bv32)
    ensures (x ^ y) & 1 == (x & 1) ^ (y & 1)
    ensures (x & 1 == 0 || x & 1 == 1) && (y & 1 == 0 || y & 1 == 1)
  {
  }

  lemma XorSwaps(a: bv32, b: bv32, p: bv32)
    ensures (a ^ p) ^ (b ^ p) == a ^ b && (a ^ p) ^ b == (a ^ b) ^ p && a ^ (b ^ p) == (a ^ b) ^ p
  {
  }

  ghost predicate RoundLinearAt<W>(xor: (W, W) -> W, f: W -> W, a: W, b: W) {
    f(xor(a, b)) == xor(f(a), f(b))
  }

  lemma EightLinear<W(!new)>(xor: (W, W) -> W, f: W -> W, a: W, b: W)
    requires forall x, y :: RoundLinearAt(xor, f, x, y)
    ensures Eight(f, xor(a, b)) == xor(Eight(f, a), Eight(f, b))
  {
    var a1, b1 := f(a), f(b);
    var a2, b2 := f(a1), f(b1);
    var a3, b3 := f(a2), f(b2);
    var a4, b4 := f(a3), f(b3);
    var a5, b5 := f(a4), f(b4);
    var a6, b6 := f(a5), f(b5);
    var a7, b7 := f(a6), f(b6);
    assert RoundLinearAt(xor, f, a, b) && RoundLinearAt(xor, f, a1, b1) && RoundLinearAt(xor, f, a2, b2);
    assert RoundLinearAt(xor, f, a3, b3) && RoundLinearAt(xor, f, a4, b4) && RoundLinearAt(xor, f, a5, b5);
    assert RoundLinearAt(xor, f, a6, b6) && RoundLinearAt(xor, f, a7, b7);
  }

  lemma EightChain<W>(f: W -> W, y: W, y1: W, y2: W, y3: W, y4: W, y5: W, y6: W, y7: W, y8: W)
    requires f(y) == y1 && f(y1) == y2 && f(y2) == y3 && f(y3) == y4 && f(y4) == y5 && f(y5) == y6 && f(y6) == y7 && f(y7) == y8
    ensures Eight(f, y) == y8
  {
  }

  lemma LowByteIsZero(x: bv32)
    requires x & 0xff == 0
    ensures x & 1 == 0 && (x >> 1) & 1 == 0 && (x >> 2) & 1 == 0 && (x >> 3) & 1 == 0
    ensures (x >> 4) & 1 == 0 && (x >> 5) & 1 == 0 && (x >> 6) & 1 == 0 && (x >> 7) & 1 == 0
  {
  }

  lemma ShiftsAdd(x: bv32)
    ensures x >> 2 == (x >> 1) >> 1 && x >> 3 == (x >> 2) >> 1 && x >> 4 == (x >> 3) >> 1 && x >> 5 == (x >> 4) >> 1
    ensures x >> 6 == (x >> 5) >> 1 && x >> 7 == (x >> 6) >> 1 && x >> 8 == (x >> 7) >> 1
  {
  }

  /** Eight bits whose low ones are zero are just shifted out. */
  lemma DivideShifts(f: bv32 -> bv32, x: bv32)
    requires IsRound(f) && x & 0xff == 0
    ensures Eight(f, x) == x >> 8
  {
    LowByteIsZero(x);
    ShiftsAdd(x);
    assert EvenAt(f, x) && EvenAt(f, x >> 1) && EvenAt(f, x >> 2) && EvenAt(f, x >> 3);
    assert EvenAt(f, x >> 4) && EvenAt(f, x >> 5) && EvenAt(f, x >> 6) && EvenAt(f, x >> 7);
    EightChain(f, x, x >> 1, x >> 2, x >> 3, x >> 4, x >> 5, x >> 6, x >> 7, x >> 8);
  }

  lemma DivideByte(f: bv32 -> bv32, x: bv32)
    requires IsRound(f)
    ensures Eight(f, x) == Xor(Eight(f, Byte(Low(x))), Down(x))
  {
    var y := x & 0xffff_ff00;
    HighBits(x, y);
    DivideShifts(f, y);
    EightLinear(Xor, f, Byte(Low(x)), y);
  }

  lemma HighBits(x: bv32, y: bv32)
    requires y == x & 0xffff_ff00
    ensures x == Xor(Byte(Low(x)), y) && y & 0xff == 0 && y >> 8 == Down(x)
  {
  }

  lemma XorCommutes(a: bv32, b: bv32)
    ensures Xor(a, b) == Xor(b, a) && Xor(a, 0) == a
  {
  }

  lemma XorAssociates(a: bv32, b: bv32, c: bv32)
    ensures Xor(Xor(a, b), c) == Xor(a, Xor(b, c))
  {
  }

  lemma MixLaws(x: bv32, b: bv8)
    ensures Low(Xor(x, Byte(b))) == Low(x) ^ b && Down(Xor(x, Byte(b))) == Down(x)
  {
  }

  lemma PlaceBits(b: bv8)
    ensures var x := Byte(b);
            && Up(x) & 0xff == 0 && Up(x) >> 8 == x && Up(Up(x)) & 0xff == 0 && Up(Up(x)) >> 8 == Up(x)
            && Up(Up(Up(x))) & 0xff == 0 && Up(Up(Up(x))) >> 8 == Up(Up(x))
  {
  }

  lemma PlaceLaws(f: bv32 -> bv32, b: bv8)
    requires IsRound(f)
    ensures var x := Byte(b);
            Eight(f, Up(x)) == x && Eight(f, Up(Up(x))) == Up(x) && Eight(f, Up(Up(Up(x)))) == Up(Up(x))
  {
    var x := Byte(b);
    PlaceBits(b);
    DivideShifts(f, Up(x));
    DivideShifts(f, Up(Up(x)));
    DivideShifts(f, Up(Up(Up(x))));
  }

  lemma SplitLaws(x: bv32)
    ensures var x1 := Down(x); var x2 := Down(x1); var x3 := Down(x2);
            x == Xor(Xor(Xor(Byte(Low(x)), Up(Byte(Low(x1)))), Up(Up(Byte(Low(x2))))), Up(Up(Up(Byte(Low(x3))))))
  {
  }

  /** The operations on 32-bit words obey the laws. */
  lemma Words32Laws(f: bv32 -> bv32)
    requires IsRound(f)
    ensures Laws(Words32(f))
  {
    var o := Words32(f);
    forall a, b, c
      ensures XorAt(o, a, b, c)
    {
      XorCommutes(a, b);
      XorAssociates(a, b, c);
    }
    forall a, b
      ensures LinearAt(o, a, b)
    {
      EightLinear(Xor, f, a, b);
    }
    forall x
      ensures ByteAt(o, x)
    {
      DivideByte(f, x);
    }
    forall x, b
      ensures MixAt(o, x, b)
    {
      MixLaws(x, b);
    }
    forall b
      ensures PlaceAt(o, b)
    {
      PlaceLaws(f, b);
    }
    forall x
      ensures SplitAt(o, x)
    {
      SplitLaws(x);
    }
  }

  /** The checksum of `data`, continuing from `crc`, bit by bit; CRC32C when `f` is `Round`. */
  function Crc(f: bv32 -> bv32, crc: bv32, data: seq<bv8>): bv32 {
    Xor(Fold(Words32(f), Xor(crc, ONES), data), ONES)
  }

  /** The strided loop on 32-bit words, with tables that hold what they should. */
  method Extend32(ghost f: bv32 -> bv32, o: Words<bv32>, t: Tables<bv32>, crc: bv32, data: seq<bv8>, misaligned: nat)
    returns (r: bv32)
    requires IsRound(f) && o == Words32(f) && IsTables(o, t) && misaligned < 4
    ensures r == Crc(f, crc, data)
  {
    Words32Laws(f);
    r := Extend(o, t, ONES, crc, data, misaligned);
  }

  /** Extending a checksum by more data gives the checksum of all of it. */
  lemma ExtendTwice(f: bv32 -> bv32, crc: bv32, a: seq<bv8>, b: seq<bv8>)
    requires IsRound(f)
    ensures Crc(f, Crc(f, crc, a), b) == Crc(f, crc, a + b)
  {
    Words32Laws(f);
    ExtendComposes(Words32(f), ONES, crc, a, b);
  }

  /** CRC32C itself. */
  method Value(t: Tables<bv32>, data: seq<bv8>, misaligned: nat) returns (r: bv32)
    requires IsTables(Words32(Round), t) && misaligned < 4
    ensures r == Crc(Round, 0, data)
  {
    RoundIsRound();
    r := Extend32(Round, Words32(Round), t, 0, data, misaligned);
  }
}
