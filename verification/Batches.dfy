/** The encoded form of a write batch (db/write_batch.cc). */
module Batches {
  import opened Keys
  import opened Coding
  import opened Sequences

  const HEADER: nat := 12

  datatype Op = Put(key: Bytes, value: Bytes) | Delete(key: Bytes)

  /** Lengths are stored in 32 bits. */
  predicate Fits(op: Op) {
    |op.key| < TWO_32 && (op.Put? ==> |op.value| < TWO_32)
  }

  predicate AllFit(ops: seq<Op>) {
    forall op | op in ops :: Fits(op)
  }

  function OpBytes(op: Op): Bytes {
    match op
    case Put(key, value) => [1] + LengthPrefixed(key) + LengthPrefixed(value)
    case Delete(key) => [0] + LengthPrefixed(key)
  }

  function OpsBytes(ops: seq<Op>): Bytes {
    if ops == [] then [] else OpBytes(ops[0]) + OpsBytes(ops[1..])
  }

  /** Sequence number of the first operation, number of operations, operations. */
  function Encoded(seqno: nat, ops: seq<Op>): Bytes {
    Fixed(seqno, 8) + Fixed(|ops|, 4) + OpsBytes(ops)
  }

  lemma {:induction false} OpsBytesAppend(a: seq<Op>, b: seq<Op>)
    ensures OpsBytes(a + b) == OpsBytes(a) + OpsBytes(b)
  {
    if a == [] {
      assert a + b == b;
    } else {
      assert (a + b)[0] == a[0] && (a + b)[1..] == a[1..] + b;
      OpsBytesAppend(a[1..], b);
    }
  }

  // ------------------------------------------------------------------- reading

  /** The operation at the front of `input`, and what follows. */
  function ParseOp(input: Bytes): (r: Option<(Op, Bytes)>)
    requires input != []
    ensures r.Some? ==> |r.value.1| < |input|
  {
    if input[0] == 1 then
      match ParseSlice(input[1..])
      case None => None
      case Some((key, after)) =>
        (match ParseSlice(after)
         case None => None
         case Some((value, rest)) => Some((Put(key, value), rest)))
    else if input[0] == 0 then
      match ParseSlice(input[1..])
      case None => None
      case Some((key, rest)) => Some((Delete(key), rest))
    else None
  }

  lemma OpRoundTrip(op: Op, rest: Bytes)
    requires Fits(op)
    ensures ParseOp(OpBytes(op) + rest) == Some((op, rest)) && OpBytes(op) != []
  {
    var input := OpBytes(op) + rest;
    match op
    case Put(key, value) =>
      AfterTag(1, LengthPrefixed(key), LengthPrefixed(value), rest);
      SliceRoundTrip(key, LengthPrefixed(value) + rest);
      SliceRoundTrip(value, rest);
    case Delete(key) =>
      AfterTag(0, LengthPrefixed(key), [], rest);
      assert [0] + LengthPrefixed(key) + [] == OpBytes(op) && [] + rest == rest;
      SliceRoundTrip(key, rest);
  }

  lemma AfterTag(tag: byte, a: Bytes, b: Bytes, rest: Bytes)
    ensures var input := [tag] + a + b + rest; input[0] == tag && input[1..] == a + (b + rest)
  {
  }

  /** The operations at the front of `input`, and whether they are all there is. */
  function ParseOps(input: Bytes): (seq<Op>, bool)
    decreases |input|
  {
    if input == [] then ([], true)
    else
      match ParseOp(input)
      case None => ([], false)
      case Some((op, rest)) => var (ops, whole) := ParseOps(rest); ([op] + ops, whole)
  }

  /** The operations come one after the other from the front; what is left after them is empty, or no
      operation begins it. */
  lemma {:induction false} ParseOpsIs(input: Bytes) returns (rests: seq<Bytes>)
    ensures |rests| == |ParseOps(input).0| + 1 && rests[0] == input
    ensures forall i | 0 <= i < |ParseOps(input).0| ::
              rests[i] != [] && ParseOp(rests[i]) == Some((ParseOps(input).0[i], rests[i + 1]))
    ensures var left := rests[|rests| - 1];
            (ParseOps(input).1 <==> left == []) && (left != [] ==> ParseOp(left) == None)
    decreases |input|
  {
    rests := [input];
    if input != [] && ParseOp(input).Some? {
      var (op, rest) := ParseOp(input).value;
      var more := ParseOpsIs(rest);
      rests := [input] + more;
      assert ParseOps(input).0 == [op] + ParseOps(rest).0;
    }
  }

  /** Encoded operations are read back. */
  lemma {:induction false} OpsRoundTrip(ops: seq<Op>)
    requires AllFit(ops)
    ensures ParseOps(OpsBytes(ops)).0 == ops && ParseOps(OpsBytes(ops)).1
  {
    if ops != [] {
      OpsRoundTrip(ops[1..]);
      FirstOp(ops[0], OpsBytes(ops[1..]));
      assert ops == [ops[0]] + ops[1..];
    }
  }

  lemma FirstOp(op: Op, rest: Bytes)
    requires Fits(op)
    ensures ParseOps(OpBytes(op) + rest) == ([op] + ParseOps(rest).0, ParseOps(rest).1)
  {
    OpRoundTrip(op, rest);
  }

  /** The loop that reads operations, as far as they can be read. */
  method ReadOps(input0: Bytes) returns (handled: seq<Op>, readable: bool)
    ensures handled == ParseOps(input0).0 && readable == ParseOps(input0).1
  {
    handled, readable := [], true;
    var input := input0;
    while input != []
      invariant ParseOps(input0).0 == handled + ParseOps(input).0 && ParseOps(input0).1 == ParseOps(input).1
      decreases |input|
    {
      var op, rest := GetOp(input);
      if op.None? {
        readable := false;
        return;
      }
      Regroup(handled, [op.value], ParseOps(rest).0);
      handled, input := handled + [op.value], rest;
    }
  }

  method GetOp(input: Bytes) returns (op: Option<Op>, rest: Bytes)
    requires input != []
    ensures match ParseOp(input)
            case None => op == None
            case Some((o, r)) => op == Some(o) && rest == r
  {
    var tag := input[0];
    rest := input[1..];
    var key: Option<Bytes>;
    if tag == 1 {
      key, rest := GetLengthPrefixedSlice(rest);
      if key.Some? {
        var value;
        value, rest := GetLengthPrefixedSlice(rest);
        if value.Some? {
          return Some(Put(key.value, value.value)), rest;
        }
      }
    } else if tag == 0 {
      key, rest := GetLengthPrefixedSlice(rest);
      if key.Some? {
        return Some(Delete(key.value)), rest;
      }
    }
    op := None;
  }

  datatype Status = Ok | Corruption

  class WriteBatch {
    var rep: Bytes

    /** The batch holds these operations. */
    ghost predicate Holds(seqno: nat, ops: seq<Op>)
      reads this
    {
      rep == Encoded(seqno, ops) && |ops| < 0x8000_0000 && AllFit(ops) && seqno < TWO_64
    }

    constructor ()
      ensures Holds(0, [])
    {
      rep := Zeros(HEADER);
      new;
      ZeroHeader();
    }

    function Count(): nat
      requires |rep| >= HEADER
      reads this
    {
      FromFixed(rep[8..12])
    }

    function Sequence(): nat
      requires |rep| >= HEADER
      reads this
    {
      FromFixed(rep[..8])
    }

    lemma Parts(seqno: nat, ops: seq<Op>)
      requires Holds(seqno, ops)
      ensures |rep| >= HEADER && Count() == |ops| && Sequence() == seqno && rep[HEADER..] == OpsBytes(ops)
    {
      EncodedParts(seqno, ops);
      Fixed32(|ops|);
      Fixed64(seqno);
    }

    method SetCount(n: nat, ghost seqno: Bytes, ghost count: Bytes, ghost body: Bytes)
      requires |seqno| == 8 && |count| == 4 && rep == seqno + count + body
      modifies this
      ensures rep == seqno + Fixed(n, 4) + body
    {
      assert rep[..8] == seqno && rep[12..] == body;
      rep := rep[..8] + Fixed(n, 4) + rep[12..];
    }

    method SetSequence(ghost seqno0: nat, ghost ops: seq<Op>, seqno: nat)
      requires Holds(seqno0, ops) && seqno < TWO_64
      modifies this
      ensures Holds(seqno, ops)
    {
      EncodedParts(seqno0, ops);
      rep := Fixed(seqno, 8) + rep[8..];
      assert rep == Encoded(seqno, ops);
    }

    method Put(ghost seqno: nat, ghost ops: seq<Op>, key: Bytes, value: Bytes)
      requires Holds(seqno, ops) && |ops| + 1 < 0x8000_0000 && Fits(Op.Put(key, value))
      modifies this
      ensures Holds(seqno, ops + [Op.Put(key, value)])
    {
      Parts(seqno, ops);
      SetCount(Count() + 1, Fixed(seqno, 8), Fixed(|ops|, 4), OpsBytes(ops));
      AppendBytes([1], LengthPrefixed(key), LengthPrefixed(value));
      OneOp(Op.Put(key, value));
      Extended(seqno, ops, [Op.Put(key, value)]);
    }

    method Delete(ghost seqno: nat, ghost ops: seq<Op>, key: Bytes)
      requires Holds(seqno, ops) && |ops| + 1 < 0x8000_0000 && Fits(Op.Delete(key))
      modifies this
      ensures Holds(seqno, ops + [Op.Delete(key)])
    {
      Parts(seqno, ops);
      SetCount(Count() + 1, Fixed(seqno, 8), Fixed(|ops|, 4), OpsBytes(ops));
      AppendBytes([0], LengthPrefixed(key), []);
      OneOp(Op.Delete(key));
      Extended(seqno, ops, [Op.Delete(key)]);
    }

    method AppendBytes(a: Bytes, b: Bytes, c: Bytes)
      modifies this
      ensures rep == old(rep) + (a + b + c)
    {
      rep := rep + a;
      rep := rep + b;
      rep := rep + c;
    }

    /** All operations of another batch, after those already here. */
    method Append(source: WriteBatch, ghost seqno: nat, ghost ops: seq<Op>, ghost seqno1: nat, ghost more: seq<Op>)
      requires Holds(seqno, ops) && source.Holds(seqno1, more) && |ops| + |more| < 0x8000_0000 && source != this
      modifies this
      ensures Holds(seqno, ops + more)
    {
      var count, body := source.CountAndBody(seqno1, more);
      AppendOps(count, body, seqno, ops, more);
    }

    method AppendOps(count: nat, body: Bytes, ghost seqno: nat, ghost ops: seq<Op>, ghost more: seq<Op>)
      requires Holds(seqno, ops) && count == |more| && body == OpsBytes(more) && AllFit(more) && |ops| + count < 0x8000_0000
      modifies this
      ensures Holds(seqno, ops + more)
    {
      AllFitAppend(ops, more);
      var mine, own := CountAndBody(seqno, ops);
      ghost var joined := Joined(seqno, ops, more, rep[..8], Fixed(mine + count, 4), own, body);
      AppendBody(mine + count, body, joined);
    }

    /** The operation count, and the operations after the header. */
    method CountAndBody(ghost seqno: nat, ghost ops: seq<Op>) returns (count: nat, body: Bytes)
      requires Holds(seqno, ops)
      ensures |rep| >= HEADER && rep[..8] == Fixed(seqno, 8) && body == rep[HEADER..]
      ensures count == |ops| && body == OpsBytes(ops)
    {
      Parts(seqno, ops);
      EncodedParts(seqno, ops);
      count, body := Count(), rep[HEADER..];
    }

    method AppendBody(n: nat, more: Bytes, ghost joined: Bytes)
      requires |rep| >= HEADER && joined == rep[..8] + Fixed(n, 4) + rep[HEADER..] + more
      modifies this
      ensures rep == joined
    {
      SetCount(n, rep[..8], rep[8..HEADER], rep[HEADER..]);
      rep := rep + more;
    }

    /** Hands every operation to the handler, in order; `handled` is what it was given. A batch too
        short, with an operation that cannot be read, or with a wrong count is corrupt. */
    method Iterate() returns (status: Status, handled: seq<Op>)
      ensures if |rep| < HEADER then status == Corruption && handled == []
              else handled == ParseOps(rep[HEADER..]).0
                   && (status == Ok <==> ParseOps(rep[HEADER..]).1 && |handled| == Count())
    {
      if |rep| < HEADER {
        return Corruption, [];
      }
      var readable;
      handled, readable := ReadOps(rep[HEADER..]);
      status := if !readable || |handled| != Count() then Corruption else Ok;
    }

    /** A batch that holds operations hands over exactly these. */
    method Replay(ghost seqno: nat, ghost ops: seq<Op>) returns (status: Status, handled: seq<Op>)
      ensures Holds(seqno, ops) ==> status == Ok && handled == ops
    {
      status, handled := Iterate();
      if Holds(seqno, ops) {
        Parts(seqno, ops);
        OpsRoundTrip(ops);
      }
    }
  }

  lemma EncodedParts(seqno: nat, ops: seq<Op>)
    ensures var r := Encoded(seqno, ops);
            |r| >= HEADER && r[..8] == Fixed(seqno, 8) && r[8..12] == Fixed(|ops|, 4) && r[HEADER..] == OpsBytes(ops)
            && r[8..] == Fixed(|ops|, 4) + OpsBytes(ops)
  {
    ThreeParts(Fixed(seqno, 8), Fixed(|ops|, 4), OpsBytes(ops));
  }

  lemma ThreeParts(a: Bytes, b: Bytes, c: Bytes)
    requires |a| == 8 && |b| == 4
    ensures var r := a + b + c;
            |r| == HEADER + |c| && r[..8] == a && r[8..12] == b && r[HEADER..] == c && r[8..] == b + c
  {
  }

  lemma EncodedAppend(seqno: nat, ops: seq<Op>, more: seq<Op>)
    ensures Encoded(seqno, ops + more)
         == Fixed(seqno, 8) + Fixed(|ops| + |more|, 4) + (OpsBytes(ops) + OpsBytes(more))
  {
    assert |ops + more| == |ops| + |more|;
    OpsBytesAppend(ops, more);
  }

  /** A new count in place, and more operations at the end. */
  lemma Extended(seqno: nat, ops: seq<Op>, more: seq<Op>)
    ensures Encoded(seqno, ops + more) == Fixed(seqno, 8) + Fixed(|ops| + |more|, 4) + OpsBytes(ops) + OpsBytes(more)
  {
    EncodedAppend(seqno, ops, more);
    Regroup(Fixed(seqno, 8) + Fixed(|ops| + |more|, 4), OpsBytes(ops), OpsBytes(more));
  }

  lemma Joined(seqno: nat, ops: seq<Op>, more: seq<Op>, seqnoBytes: Bytes, count: Bytes, own: Bytes, body: Bytes)
    returns (joined: Bytes)
    requires seqnoBytes == Fixed(seqno, 8) && count == Fixed(|ops| + |more|, 4) && own == OpsBytes(ops) && body == OpsBytes(more)
    ensures joined == Encoded(seqno, ops + more) && joined == seqnoBytes + count + own + body
  {
    Extended(seqno, ops, more);
    joined := Encoded(seqno, ops + more);
  }

  lemma AllFitAppend(ops: seq<Op>, more: seq<Op>)
    requires AllFit(ops) && AllFit(more)
    ensures AllFit(ops + more) && |ops + more| == |ops| + |more|
  {
  }


  lemma OneOp(op: Op)
    ensures OpsBytes([op]) == OpBytes(op)
  {
    assert [op][1..] == [] && OpBytes(op) + [] == OpBytes(op);
  }

  lemma ZeroHeader()
    ensures Zeros(HEADER) == Encoded(0, [])
  {
    assert Fixed(0, 4) == Zeros(4);
    assert Fixed(0, 8) == Fixed(0, 4) + Fixed(0, 4);
  }
}
