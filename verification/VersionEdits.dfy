/** The records of the MANIFEST (db/version_edit.cc): edits as bytes, and reading them back. */
module VersionEdits {
  import opened Keys
  import opened Coding
  import opened LogFormat
  import opened Sequences
  import Files
  import LogWriter
  import LogReader

  datatype FileMeta = FileMeta(number: nat, fileSize: nat, smallest: Bytes, largest: Bytes)

  /** What an edit says; the deleted files are an ordered set. */
  datatype LoggedEdit = LoggedEdit(comparator: Option<Bytes>, logNumber: Option<nat>, prevLogNumber: Option<nat>,
                       nextFileNumber: Option<nat>, lastSequence: Option<nat>, compactPointers: seq<(nat, Bytes)>,
                       deletedFiles: seq<(nat, nat)>, newFiles: seq<(nat, FileMeta)>)

  const NOTHING: LoggedEdit := LoggedEdit(None, None, None, None, None, [], [], [])

  /** One tagged field of an edit. */
  datatype Field =
    | Comparator(name: Bytes)
    | LogNumber(n: nat)
    | PrevLogNumber(n: nat)
    | NextFileNumber(n: nat)
    | LastSequence(n: nat)
    | CompactPointer(level: nat, key: Bytes)
    | DeletedFile(level: nat, number: nat)
    | NewFile(level: nat, f: FileMeta)

  const COMPARATOR: nat := 1
  const LOG_NUMBER: nat := 2
  const NEXT_FILE_NUMBER: nat := 3
  const LAST_SEQUENCE: nat := 4
  const COMPACT_POINTER: nat := 5
  const DELETED_FILE: nat := 6
  const NEW_FILE: nat := 7
  const PREV_LOG_NUMBER: nat := 9

  // ------------------------------------------------------------------- encoding

  function FieldBytes(f: Field): Bytes {
    match f
    case Comparator(name) => Varint(COMPARATOR) + LengthPrefixed(name)
    case LogNumber(n) => Varint(LOG_NUMBER) + Varint(n)
    case PrevLogNumber(n) => Varint(PREV_LOG_NUMBER) + Varint(n)
    case NextFileNumber(n) => Varint(NEXT_FILE_NUMBER) + Varint(n)
    case LastSequence(n) => Varint(LAST_SEQUENCE) + Varint(n)
    case CompactPointer(level, key) => Varint(COMPACT_POINTER) + (Varint(level) + LengthPrefixed(key))
    case DeletedFile(level, number) => Varint(DELETED_FILE) + (Varint(level) + Varint(number))
    case NewFile(level, m) =>
      Varint(NEW_FILE) + (Varint(level) + MetaBytes(m))
  }

  function MetaBytes(m: FileMeta): Bytes {
    Varint(m.number) + (Varint(m.fileSize) + (LengthPrefixed(m.smallest) + LengthPrefixed(m.largest)))
  }

  function FieldsBytes(fs: seq<Field>): Bytes {
    if fs == [] then [] else FieldBytes(fs[0]) + FieldsBytes(fs[1..])
  }

  function NameField(o: Option<Bytes>): seq<Field> {
    match o case None => [] case Some(name) => [Comparator(name)]
  }

  function LogField(o: Option<nat>): seq<Field> {
    match o case None => [] case Some(n) => [LogNumber(n)]
  }

  function PrevLogField(o: Option<nat>): seq<Field> {
    match o case None => [] case Some(n) => [PrevLogNumber(n)]
  }

  function NextFileField(o: Option<nat>): seq<Field> {
    match o case None => [] case Some(n) => [NextFileNumber(n)]
  }

  function LastSequenceField(o: Option<nat>): seq<Field> {
    match o case None => [] case Some(n) => [LastSequence(n)]
  }

  function Pointers(ps: seq<(nat, Bytes)>): seq<Field> {
    seq(|ps|, i requires 0 <= i < |ps| => CompactPointer(ps[i].0, ps[i].1))
  }

  function Deletions(ds: seq<(nat, nat)>): seq<Field> {
    seq(|ds|, i requires 0 <= i < |ds| => DeletedFile(ds[i].0, ds[i].1))
  }

  function Additions(ns: seq<(nat, FileMeta)>): seq<Field> {
    seq(|ns|, i requires 0 <= i < |ns| => NewFile(ns[i].0, ns[i].1))
  }

  /** The single-valued fields of an edit, in the order they are written. */
  function HeaderFields(e: LoggedEdit): seq<Field> {
    NameField(e.comparator) + LogField(e.logNumber) + PrevLogField(e.prevLogNumber) + NextFileField(e.nextFileNumber)
    + LastSequenceField(e.lastSequence)
  }

  function Fields(e: LoggedEdit): seq<Field> {
    HeaderFields(e) + Pointers(e.compactPointers) + Deletions(e.deletedFiles) + Additions(e.newFiles)
  }

  function EditBytes(e: LoggedEdit): Bytes {
    FieldsBytes(Fields(e))
  }

  // ------------------------------------------------------------------- decoding

  function ParseNumber(input: Bytes): Option<(nat, Bytes)> {
    match ParseVarint(input, 10)
    case None => None
    case Some((v, rest)) => Some((v % TWO_64, rest))
  }

  function ParseLevel(input: Bytes): Option<(nat, Bytes)> {
    match ParseVarint(input, 5)
    case None => None
    case Some((v, rest)) => if v % TWO_32 < Files.NUM_LEVELS then Some((v % TWO_32, rest)) else None
  }

  function ParseFileMeta(input: Bytes): Option<(FileMeta, Bytes)> {
    match ParseNumber(input)
    case None => None
    case Some((number, r1)) =>
      (match ParseNumber(r1)
       case None => None
       case Some((fileSize, r2)) =>
         (match ParseSlice(r2)
          case None => None
          case Some((smallest, r3)) =>
            (match ParseSlice(r3)
             case None => None
             case Some((largest, r4)) => Some((FileMeta(number, fileSize, smallest, largest), r4)))))
  }

  /** What follows a tag. */
  function ParseBody(tag: nat, input: Bytes): Option<(Field, Bytes)> {
    if tag == COMPARATOR then
      (match ParseSlice(input) case None => None case Some((s, rest)) => Some((Comparator(s), rest)))
    else if tag == LOG_NUMBER then
      (match ParseNumber(input) case None => None case Some((n, rest)) => Some((LogNumber(n), rest)))
    else if tag == PREV_LOG_NUMBER then
      (match ParseNumber(input) case None => None case Some((n, rest)) => Some((PrevLogNumber(n), rest)))
    else if tag == NEXT_FILE_NUMBER then
      (match ParseNumber(input) case None => None case Some((n, rest)) => Some((NextFileNumber(n), rest)))
    else if tag == LAST_SEQUENCE then
      (match ParseNumber(input) case None => None case Some((n, rest)) => Some((LastSequence(n), rest)))
    else if tag == COMPACT_POINTER then
      (match ParseLevel(input)
       case None => None
       case Some((level, r1)) =>
         (match ParseSlice(r1) case None => None case Some((key, rest)) => Some((CompactPointer(level, key), rest))))
    else if tag == DELETED_FILE then
      (match ParseLevel(input)
       case None => None
       case Some((level, r1)) =>
         (match ParseNumber(r1) case None => None case Some((n, rest)) => Some((DeletedFile(level, n), rest))))
    else if tag == NEW_FILE then
      (match ParseLevel(input)
       case None => None
       case Some((level, r1)) =>
         (match ParseFileMeta(r1) case None => None case Some((f, rest)) => Some((NewFile(level, f), rest))))
    else None
  }

  function ParseField(input: Bytes): Option<(Field, Bytes)> {
    match ParseVarint(input, 5)
    case None => None
    case Some((tag, rest)) => ParseBody(tag % TWO_32, rest)
  }

  // ---------------------------------------------------------------- round trips

  /** Numbers fit their encodings. */
  ghost predicate FieldFits(f: Field) {
    match f
    case Comparator(name) => |name| < TWO_32
    case LogNumber(n) => n < TWO_64
    case PrevLogNumber(n) => n < TWO_64
    case NextFileNumber(n) => n < TWO_64
    case LastSequence(n) => n < TWO_64
    case CompactPointer(level, key) => level < Files.NUM_LEVELS && |key| < TWO_32
    case DeletedFile(level, number) => level < Files.NUM_LEVELS && number < TWO_64
    case NewFile(level, m) => level < Files.NUM_LEVELS && MetaFits(m)
  }

  ghost predicate MetaFits(m: FileMeta) {
    m.number < TWO_64 && m.fileSize < TWO_64 && |m.smallest| < TWO_32 && |m.largest| < TWO_32
  }

  lemma NumberRoundTrip(n: nat, rest: Bytes)
    requires n < TWO_64
    ensures ParseNumber(Varint(n) + rest) == Some((n, rest))
  {
    Powers();
    VarintRoundTrip(n, rest, 10);
  }

  lemma LevelRoundTrip(level: nat, rest: Bytes)
    requires level < Files.NUM_LEVELS
    ensures ParseLevel(Varint(level) + rest) == Some((level, rest))
  {
    Powers();
    VarintRoundTrip(level, rest, 5);
  }

  lemma SmallRoundTrip(tag: nat, rest: Bytes)
    requires tag < 128
    ensures ParseVarint(Varint(tag) + rest, 5) == Some((tag, rest))
  {
    Powers();
    VarintRoundTrip(tag, rest, 5);
  }

  lemma TagRoundTrip(tag: nat, body: Bytes, rest: Bytes)
    requires tag < 128
    ensures ParseField(Varint(tag) + body + rest) == ParseBody(tag, body + rest)
  {
    Regroup(Varint(tag), body, rest);
    SmallRoundTrip(tag, body + rest);
    FieldIsBody(Varint(tag) + body + rest, tag, body + rest);
  }

  lemma FieldIsBody(input: Bytes, tag: nat, rest: Bytes)
    requires tag < 128 && ParseVarint(input, 5) == Some((tag, rest))
    ensures ParseField(input) == ParseBody(tag, rest)
  {
    assert tag % TWO_32 == tag;
  }

  lemma MetaRoundTrip(m: FileMeta, rest: Bytes)
    requires MetaFits(m)
    ensures ParseFileMeta(MetaBytes(m) + rest) == Some((m, rest))
  {
    var a, b, c, d := Varint(m.number), Varint(m.fileSize), LengthPrefixed(m.smallest), LengthPrefixed(m.largest);
    Regroup(a, b + (c + d), rest);
    Regroup(b, c + d, rest);
    Regroup(c, d, rest);
    NumberRoundTrip(m.number, b + (c + d) + rest);
    NumberRoundTrip(m.fileSize, c + d + rest);
    SliceRoundTrip(m.smallest, d + rest);
    SliceRoundTrip(m.largest, rest);
  }

  /** A field followed by anything is read back, and what follows is left. */
  lemma FieldRoundTrip(f: Field, rest: Bytes)
    requires FieldFits(f)
    ensures ParseField(FieldBytes(f) + rest) == Some((f, rest))
  {
    match f
    case Comparator(name) =>
      TagRoundTrip(COMPARATOR, LengthPrefixed(name), rest);
      SliceRoundTrip(name, rest);
    case LogNumber(n) => NumberFieldRoundTrip(LOG_NUMBER, n, rest);
    case PrevLogNumber(n) => NumberFieldRoundTrip(PREV_LOG_NUMBER, n, rest);
    case NextFileNumber(n) => NumberFieldRoundTrip(NEXT_FILE_NUMBER, n, rest);
    case LastSequence(n) => NumberFieldRoundTrip(LAST_SEQUENCE, n, rest);
    case CompactPointer(level, key) => PointerRoundTrip(level, key, rest);
    case DeletedFile(level, number) => DeletionRoundTrip(level, number, rest);
    case NewFile(level, m) => AdditionRoundTrip(level, m, rest);
  }

  lemma NumberFieldRoundTrip(tag: nat, n: nat, rest: Bytes)
    requires tag < 128 && n < TWO_64
    ensures ParseField(Varint(tag) + Varint(n) + rest) == ParseBody(tag, Varint(n) + rest)
    ensures ParseNumber(Varint(n) + rest) == Some((n, rest))
  {
    TagRoundTrip(tag, Varint(n), rest);
    NumberRoundTrip(n, rest);
  }

  lemma PointerRoundTrip(level: nat, key: Bytes, rest: Bytes)
    requires FieldFits(CompactPointer(level, key))
    ensures ParseField(FieldBytes(CompactPointer(level, key)) + rest) == Some((CompactPointer(level, key), rest))
  {
    TagRoundTrip(COMPACT_POINTER, Varint(level) + LengthPrefixed(key), rest);
    Regroup(Varint(level), LengthPrefixed(key), rest);
    LevelRoundTrip(level, LengthPrefixed(key) + rest);
    SliceRoundTrip(key, rest);
  }

  lemma DeletionRoundTrip(level: nat, number: nat, rest: Bytes)
    requires FieldFits(DeletedFile(level, number))
    ensures ParseField(FieldBytes(DeletedFile(level, number)) + rest) == Some((DeletedFile(level, number), rest))
  {
    TagRoundTrip(DELETED_FILE, Varint(level) + Varint(number), rest);
    Regroup(Varint(level), Varint(number), rest);
    LevelRoundTrip(level, Varint(number) + rest);
    NumberRoundTrip(number, rest);
  }

  lemma AdditionRoundTrip(level: nat, m: FileMeta, rest: Bytes)
    requires FieldFits(NewFile(level, m))
    ensures ParseField(FieldBytes(NewFile(level, m)) + rest) == Some((NewFile(level, m), rest))
  {
    TagRoundTrip(NEW_FILE, Varint(level) + MetaBytes(m), rest);
    LevelRoundTrip(level, MetaBytes(m) + rest);
    MetaRoundTrip(m, rest);
    AdditionBody(level, m, Varint(level), MetaBytes(m), rest);
  }

  lemma AdditionBody(level: nat, m: FileMeta, levelBytes: Bytes, meta: Bytes, rest: Bytes)
    requires ParseLevel(levelBytes + (meta + rest)) == Some((level, meta + rest))
    requires ParseFileMeta(meta + rest) == Some((m, rest))
    ensures ParseBody(NEW_FILE, levelBytes + meta + rest) == Some((NewFile(level, m), rest))
  {
    Regroup(levelBytes, meta, rest);
  }

  // ------------------------------------------------------------- applying fields

  /** The order of the set of deleted files. */
  predicate Lower(a: (nat, nat), b: (nat, nat)) {
    a.0 < b.0 || (a.0 == b.0 && a.1 < b.1)
  }

  ghost predicate Ordered(ds: seq<(nat, nat)>) {
    forall i, j | 0 <= i < j < |ds| :: Lower(ds[i], ds[j])
  }

  /** Insertion into the ordered set. */
  function Inserted(ds: seq<(nat, nat)>, d: (nat, nat)): seq<(nat, nat)> {
    if ds == [] || Lower(d, ds[0]) then [d] + ds
    else if d == ds[0] then ds
    else [ds[0]] + Inserted(ds[1..], d)
  }

  lemma {:induction false} InsertedLast(ds: seq<(nat, nat)>, d: (nat, nat))
    requires forall i | 0 <= i < |ds| :: Lower(ds[i], d)
    ensures Inserted(ds, d) == ds + [d]
  {
    if ds != [] {
      assert forall i | 0 <= i < |ds[1..]| :: ds[1..][i] == ds[i + 1];
      InsertedLast(ds[1..], d);
      assert ds == [ds[0]] + ds[1..];
    }
  }

  function With(e: LoggedEdit, f: Field): LoggedEdit {
    match f
    case Comparator(name) => e.(comparator := Some(name))
    case LogNumber(n) => e.(logNumber := Some(n))
    case PrevLogNumber(n) => e.(prevLogNumber := Some(n))
    case NextFileNumber(n) => e.(nextFileNumber := Some(n))
    case LastSequence(n) => e.(lastSequence := Some(n))
    case CompactPointer(level, key) => e.(compactPointers := e.compactPointers + [(level, key)])
    case DeletedFile(level, number) => e.(deletedFiles := Inserted(e.deletedFiles, (level, number)))
    case NewFile(level, m) => e.(newFiles := e.newFiles + [(level, m)])
  }

  function WithAll(e: LoggedEdit, fs: seq<Field>): LoggedEdit
    decreases fs
  {
    if fs == [] then e else WithAll(With(e, fs[0]), fs[1..])
  }

  /** Reads fields until none is left. */
  function Decode(e: LoggedEdit, src: Bytes): Option<LoggedEdit>
    decreases |src|
  {
    match ParseField(src)
    case None => if src == [] then Some(e) else None
    case Some((f, rest)) => if |rest| < |src| then Decode(With(e, f), rest) else None
  }

  /** Decoding reads fields one after the other from the front, and succeeds exactly when they are all
      there is. */
  lemma {:induction false} DecodeIs(e: LoggedEdit, src: Bytes) returns (fs: seq<Field>, rests: seq<Bytes>)
    ensures |rests| == |fs| + 1 && rests[0] == src
    ensures forall i | 0 <= i < |fs| :: ParseField(rests[i]) == Some((fs[i], rests[i + 1]))
    ensures var left := rests[|fs|];
            && Decode(e, src) == (if left == [] then Some(WithAll(e, fs)) else None)
            && (ParseField(left) == None || |ParseField(left).value.1| >= |left|)
    decreases |src|
  {
    fs, rests := [], [src];
    var r := ParseField(src);
    if r.Some? && |r.value.1| < |src| {
      var (f, rest) := r.value;
      var fs1, rests1 := DecodeIs(With(e, f), rest);
      fs, rests := [f] + fs1, [src] + rests1;
      assert fs[1..] == fs1;
    }
  }

  lemma {:induction false} DecodeFields(e: LoggedEdit, fs: seq<Field>)
    requires forall i | 0 <= i < |fs| :: FieldFits(fs[i])
    ensures Decode(e, FieldsBytes(fs)) == Some(WithAll(e, fs))
    decreases fs
  {
    if fs != [] {
      DecodeFields(With(e, fs[0]), fs[1..]);
      DecodeOne(e, fs[0], FieldsBytes(fs[1..]));
    }
  }

  lemma DecodeOne(e: LoggedEdit, f: Field, rest: Bytes)
    requires FieldFits(f)
    ensures Decode(e, FieldBytes(f) + rest) == Decode(With(e, f), rest)
  {
    FieldRoundTrip(f, rest);
    FieldNotEmpty(f);
  }

  lemma FieldNotEmpty(f: Field)
    ensures FieldBytes(f) != []
  {
  }

  lemma {:induction false} WithAppend(e: LoggedEdit, a: seq<Field>, b: seq<Field>)
    ensures WithAll(e, a + b) == WithAll(WithAll(e, a), b)
    decreases a
  {
    if a == [] {
      assert a + b == b;
    } else {
      assert (a + b)[1..] == a[1..] + b;
      WithAppend(With(e, a[0]), a[1..], b);
    }
  }

  lemma {:induction false} WithPointers(e: LoggedEdit, ps: seq<(nat, Bytes)>)
    ensures WithAll(e, Pointers(ps)) == e.(compactPointers := e.compactPointers + ps)
    decreases ps
  {
    if ps != [] {
      assert Pointers(ps)[1..] == Pointers(ps[1..]);
      WithPointers(With(e, Pointers(ps)[0]), ps[1..]);
      assert e.compactPointers + ps == e.compactPointers + [ps[0]] + ps[1..];
    }
  }

  lemma {:induction false} WithDeletions(e: LoggedEdit, ds: seq<(nat, nat)>)
    requires Ordered(e.deletedFiles + ds)
    ensures WithAll(e, Deletions(ds)) == e.(deletedFiles := e.deletedFiles + ds)
    decreases ds
  {
    if ds != [] {
      var all := e.deletedFiles + ds;
      assert forall i | 0 <= i < |e.deletedFiles| :: all[i] == e.deletedFiles[i] && all[|e.deletedFiles|] == ds[0];
      InsertedLast(e.deletedFiles, ds[0]);
      assert Deletions(ds)[1..] == Deletions(ds[1..]);
      assert all == e.deletedFiles + [ds[0]] + ds[1..];
      WithDeletions(With(e, Deletions(ds)[0]), ds[1..]);
    }
  }

  lemma {:induction false} WithAdditions(e: LoggedEdit, ns: seq<(nat, FileMeta)>)
    ensures WithAll(e, Additions(ns)) == e.(newFiles := e.newFiles + ns)
    decreases ns
  {
    if ns != [] {
      assert Additions(ns)[1..] == Additions(ns[1..]);
      WithAdditions(With(e, Additions(ns)[0]), ns[1..]);
      assert e.newFiles + ns == e.newFiles + [ns[0]] + ns[1..];
    }
  }

  /** Applying all fields of an edit builds the edit again, after the pointers that were there. */
  lemma FieldsBuild(e: LoggedEdit, pointers: seq<(nat, Bytes)>)
    requires Ordered(e.deletedFiles)
    ensures WithAll(NOTHING.(compactPointers := pointers), Fields(e)) == e.(compactPointers := pointers + e.compactPointers)
  {
    var e0 := NOTHING.(compactPointers := pointers);
    var h, p, d, n := HeaderFields(e), Pointers(e.compactPointers), Deletions(e.deletedFiles), Additions(e.newFiles);
    WithAppend(e0, h + p + d, n);
    WithAppend(e0, h + p, d);
    WithAppend(e0, h, p);
    HeaderBuilds(e, pointers);
    var e1 := e0.(comparator := e.comparator, logNumber := e.logNumber, prevLogNumber := e.prevLogNumber,
                  nextFileNumber := e.nextFileNumber, lastSequence := e.lastSequence);
    WithPointers(e1, e.compactPointers);
    var e2 := e1.(compactPointers := pointers + e.compactPointers);
    assert e2.deletedFiles + e.deletedFiles == e.deletedFiles;
    WithDeletions(e2, e.deletedFiles);
    WithAdditions(e2.(deletedFiles := e.deletedFiles), e.newFiles);
  }

  lemma HeaderBuilds(e: LoggedEdit, pointers: seq<(nat, Bytes)>)
    ensures WithAll(NOTHING.(compactPointers := pointers), HeaderFields(e))
         == LoggedEdit(e.comparator, e.logNumber, e.prevLogNumber, e.nextFileNumber, e.lastSequence, pointers, [], [])
  {
    var e0 := LoggedEdit(None, None, None, None, None, pointers, [], []);
    var e2 := LoggedEdit(e.comparator, e.logNumber, None, None, None, pointers, [], []);
    var e3 := LoggedEdit(e.comparator, e.logNumber, e.prevLogNumber, None, None, pointers, [], []);
    var a, b, c, d, f := NameField(e.comparator), LogField(e.logNumber), PrevLogField(e.prevLogNumber),
                         NextFileField(e.nextFileNumber), LastSequenceField(e.lastSequence);
    assert WithAll(e0, a + b) == e2 by {
      WithAppend(e0, a, b);
      WithName(e0, e.comparator);
      WithLog(e0.(comparator := e.comparator), e.logNumber);
    }
    assert WithAll(e0, a + b + c) == e3 by {
      WithAppend(e0, a + b, c);
      WithPrevLog(e2, e.prevLogNumber);
    }
    WithAppend(e0, a + b + c, d);
    WithNextFile(e3, e.nextFileNumber);
    WithAppend(e0, a + b + c + d, f);
    WithLastSequence(e3.(nextFileNumber := e.nextFileNumber), e.lastSequence);
  }

  lemma WithName(e: LoggedEdit, o: Option<Bytes>)
    requires e.comparator == None
    ensures WithAll(e, NameField(o)) == e.(comparator := o)
  {
  }

  lemma WithLog(e: LoggedEdit, o: Option<nat>)
    requires e.logNumber == None
    ensures WithAll(e, LogField(o)) == e.(logNumber := o)
  {
  }

  lemma WithPrevLog(e: LoggedEdit, o: Option<nat>)
    requires e.prevLogNumber == None
    ensures WithAll(e, PrevLogField(o)) == e.(prevLogNumber := o)
  {
  }

  lemma WithNextFile(e: LoggedEdit, o: Option<nat>)
    requires e.nextFileNumber == None
    ensures WithAll(e, NextFileField(o)) == e.(nextFileNumber := o)
  {
  }

  lemma WithLastSequence(e: LoggedEdit, o: Option<nat>)
    requires e.lastSequence == None
    ensures WithAll(e, LastSequenceField(o)) == e.(lastSequence := o)
  {
  }

  ghost predicate EditFits(e: LoggedEdit) {
    Ordered(e.deletedFiles) && forall i | 0 <= i < |Fields(e)| :: FieldFits(Fields(e)[i])
  }

  /** The bytes of an edit decode to the edit; pointers of the object decoded into are kept. */
  lemma EditRoundTrip(e: LoggedEdit, pointers: seq<(nat, Bytes)>)
    requires EditFits(e)
    ensures Decode(NOTHING.(compactPointers := pointers), EditBytes(e))
         == Some(e.(compactPointers := pointers + e.compactPointers))
  {
    DecodeFields(NOTHING.(compactPointers := pointers), Fields(e));
    FieldsBuild(e, pointers);
  }

  // ------------------------------------------------------------------------ edit

  class VersionEdit {
    var comparator: Option<Bytes>
    var logNumber: Option<nat>
    var prevLogNumber: Option<nat>
    var nextFileNumber: Option<nat>
    var lastSequence: Option<nat>
    var compactPointers: seq<(nat, Bytes)>
    var deletedFiles: seq<(nat, nat)>
    var newFiles: seq<(nat, FileMeta)>

    /** What the edit says. */
    function Value(): LoggedEdit
      reads this
    {
      LoggedEdit(comparator, logNumber, prevLogNumber, nextFileNumber, lastSequence, compactPointers, deletedFiles, newFiles)
    }

    constructor ()
      ensures Value() == NOTHING
    {
      comparator, logNumber, prevLogNumber, nextFileNumber, lastSequence := None, None, None, None, None;
      compactPointers, deletedFiles, newFiles := [], [], [];
    }

    /** Does not clear the compaction pointers. */
    method Clear()
      modifies this
      ensures Value() == NOTHING.(compactPointers := old(compactPointers))
    {
      comparator, logNumber, prevLogNumber, nextFileNumber, lastSequence := None, None, None, None, None;
      deletedFiles, newFiles := [], [];
    }

    method EncodeTo() returns (dst: Bytes)
      ensures dst == EditBytes(Value())
    {
      dst := EncodeHeader();
      var pointers := EncodeAll(Pointers(compactPointers));
      var deletions := EncodeAll(Deletions(deletedFiles));
      var additions := EncodeAll(Additions(newFiles));
      dst := dst + pointers + deletions + additions;
      JoinBytes(Value());
    }

    method EncodeHeader() returns (dst: Bytes)
      ensures dst == FieldsBytes(HeaderFields(Value()))
    {
      dst := [];
      if comparator.Some? {
        dst := dst + FieldBytes(Comparator(comparator.value));
      }
      ghost var h := One(NameField(comparator));
      assert dst == h;
      if logNumber.Some? {
        dst := dst + FieldBytes(LogNumber(logNumber.value));
      }
      h := h + One(LogField(logNumber));
      assert dst == h;
      if prevLogNumber.Some? {
        dst := dst + FieldBytes(PrevLogNumber(prevLogNumber.value));
      }
      h := h + One(PrevLogField(prevLogNumber));
      assert dst == h;
      if nextFileNumber.Some? {
        dst := dst + FieldBytes(NextFileNumber(nextFileNumber.value));
      }
      h := h + One(NextFileField(nextFileNumber));
      assert dst == h;
      if lastSequence.Some? {
        dst := dst + FieldBytes(LastSequence(lastSequence.value));
      }
      HeaderBytes(Value());
    }

    /** Reads an edit; pointers that were there before stay. */
    method DecodeFrom(src: Bytes) returns (ok: bool)
      modifies this
      ensures match Decode(NOTHING.(compactPointers := old(compactPointers)), src)
              case None => !ok
              case Some(e) => ok && Value() == e
    {
      Clear();
      var input := src;
      ghost var start := Value();
      while true
        invariant Decode(start, src) == Decode(Value(), input)
        decreases |input|
      {
        var tag, rest := GetVarint32(input);
        if tag.None? {
          ok := input == [];
          return;
        }
        var field, after := GetBody(tag.value, rest);
        if field.None? {
          return false;
        }
        Store(field.value);
        input := after;
      }
    }

    method Store(f: Field)
      modifies this
      ensures Value() == With(old(Value()), f)
    {
      match f {
        case Comparator(name) => comparator := Some(name);
        case LogNumber(n) => logNumber := Some(n);
        case PrevLogNumber(n) => prevLogNumber := Some(n);
        case NextFileNumber(n) => nextFileNumber := Some(n);
        case LastSequence(n) => lastSequence := Some(n);
        case CompactPointer(level, key) => compactPointers := compactPointers + [(level, key)];
        case DeletedFile(level, number) => deletedFiles := Inserted(deletedFiles, (level, number));
        case NewFile(level, m) => newFiles := newFiles + [(level, m)];
      }
    }
  }

  method EncodeAll(fs: seq<Field>) returns (dst: Bytes)
    ensures dst == FieldsBytes(fs)
  {
    dst := [];
    assert fs[..0] == [];
    for i := 0 to |fs|
      invariant dst == FieldsBytes(fs[..i])
    {
      OneMoreField(fs, i);
      dst := dst + FieldBytes(fs[i]);
    }
    assert fs[..|fs|] == fs;
  }

  lemma OneMoreField(fs: seq<Field>, i: nat)
    requires i < |fs|
    ensures FieldsBytes(fs[..i + 1]) == FieldsBytes(fs[..i]) + FieldBytes(fs[i])
  {
    assert fs[..i + 1] == fs[..i] + [fs[i]];
    JoinOne(fs[..i], [fs[i]]);
  }

  lemma JoinOne(before: seq<Field>, last: seq<Field>)
    requires |last| == 1
    ensures FieldsBytes(before + last) == FieldsBytes(before) + FieldBytes(last[0])
  {
    FieldsJoin(before, last);
    OneField(last);
  }

  lemma OneField(fs: seq<Field>)
    requires |fs| == 1
    ensures FieldsBytes(fs) == FieldBytes(fs[0])
  {
    assert fs[1..] == [];
  }

  lemma {:induction false} FieldsJoin(a: seq<Field>, b: seq<Field>)
    ensures FieldsBytes(a + b) == FieldsBytes(a) + FieldsBytes(b)
  {
    if a == [] {
      assert a + b == b;
    } else {
      assert (a + b)[1..] == a[1..] + b;
      FieldsJoin(a[1..], b);
    }
  }

  lemma JoinBytes(e: LoggedEdit)
    ensures EditBytes(e) == FieldsBytes(HeaderFields(e)) + FieldsBytes(Pointers(e.compactPointers))
                            + FieldsBytes(Deletions(e.deletedFiles)) + FieldsBytes(Additions(e.newFiles))
  {
    FieldsJoin(HeaderFields(e) + Pointers(e.compactPointers) + Deletions(e.deletedFiles), Additions(e.newFiles));
    FieldsJoin(HeaderFields(e) + Pointers(e.compactPointers), Deletions(e.deletedFiles));
    FieldsJoin(HeaderFields(e), Pointers(e.compactPointers));
  }

  function One(fs: seq<Field>): Bytes
    requires |fs| <= 1
  {
    if fs == [] then [] else FieldBytes(fs[0])
  }

  lemma HeaderBytes(e: LoggedEdit)
    ensures FieldsBytes(HeaderFields(e)) == One(NameField(e.comparator)) + One(LogField(e.logNumber))
              + One(PrevLogField(e.prevLogNumber)) + One(NextFileField(e.nextFileNumber)) + One(LastSequenceField(e.lastSequence))
  {
    var a, b, c, d, f := NameField(e.comparator), LogField(e.logNumber), PrevLogField(e.prevLogNumber),
                         NextFileField(e.nextFileNumber), LastSequenceField(e.lastSequence);
    FieldsJoin(a + b + c + d, f);
    FieldsJoin(a + b + c, d);
    FieldsJoin(a + b, c);
    FieldsJoin(a, b);
    OneBytes(a);
    OneBytes(b);
    OneBytes(c);
    OneBytes(d);
    OneBytes(f);
  }

  lemma OneBytes(fs: seq<Field>)
    requires |fs| <= 1
    ensures FieldsBytes(fs) == One(fs)
  {
    if |fs| == 1 {
      assert fs[1..] == [];
    }
  }

  method GetLevel(input: Bytes) returns (level: Option<nat>, rest: Bytes)
    ensures match ParseLevel(input) case None => level == None case Some((l, r)) => level == Some(l) && rest == r
  {
    level, rest := GetVarint32(input);
    if level.Some? && level.value >= Files.NUM_LEVELS {
      level := None;
    }
  }

  method GetFileMeta(input: Bytes) returns (f: Option<FileMeta>, rest: Bytes)
    ensures match ParseFileMeta(input) case None => f == None case Some((m, r)) => f == Some(m) && rest == r
  {
    f := None;
    var number, r1 := GetVarint64(input);
    rest := r1;
    if number.Some? {
      var fileSize, r2 := GetVarint64(r1);
      if fileSize.Some? {
        var smallest, r3 := GetLengthPrefixedSlice(r2);
        if smallest.Some? {
          var largest, r4 := GetLengthPrefixedSlice(r3);
          if largest.Some? {
            f, rest := Some(FileMeta(number.value, fileSize.value, smallest.value, largest.value)), r4;
          }
        }
      }
    }
  }

  /** The branch for a tag. */
  method GetBody(tag: nat, input: Bytes) returns (f: Option<Field>, rest: Bytes)
    ensures match ParseBody(tag, input)
            case None => f == None
            case Some((field, r)) => f == Some(field) && rest == r
  {
    f, rest := None, input;
    if tag == COMPARATOR {
      var s;
      s, rest := GetLengthPrefixedSlice(input);
      f := if s.Some? then Some(Comparator(s.value)) else None;
    } else if tag == LOG_NUMBER || tag == PREV_LOG_NUMBER || tag == NEXT_FILE_NUMBER || tag == LAST_SEQUENCE {
      var n;
      n, rest := GetVarint64(input);
      if n.Some? {
        f := Some(if tag == LOG_NUMBER then LogNumber(n.value) else if tag == PREV_LOG_NUMBER then PrevLogNumber(n.value)
                  else if tag == NEXT_FILE_NUMBER then NextFileNumber(n.value) else LastSequence(n.value));
      }
    } else if tag == COMPACT_POINTER || tag == DELETED_FILE || tag == NEW_FILE {
      var level, r1 := GetLevel(input);
      if level.Some? {
        f, rest := GetLevelBody(tag, level.value, r1);
      }
    }
  }

  method GetLevelBody(tag: nat, level: nat, r1: Bytes) returns (f: Option<Field>, rest: Bytes)
    requires tag == COMPACT_POINTER || tag == DELETED_FILE || tag == NEW_FILE
    ensures tag == COMPACT_POINTER ==>
              match ParseSlice(r1) case None => f == None case Some((key, r)) => f == Some(CompactPointer(level, key)) && rest == r
    ensures tag == DELETED_FILE ==>
              match ParseNumber(r1) case None => f == None case Some((n, r)) => f == Some(DeletedFile(level, n)) && rest == r
    ensures tag == NEW_FILE ==>
              match ParseFileMeta(r1) case None => f == None case Some((m, r)) => f == Some(NewFile(level, m)) && rest == r
  {
    if tag == COMPACT_POINTER {
      var key;
      key, rest := GetLengthPrefixedSlice(r1);
      f := if key.Some? then Some(CompactPointer(level, key.value)) else None;
    } else if tag == DELETED_FILE {
      var n;
      n, rest := GetVarint64(r1);
      f := if n.Some? then Some(DeletedFile(level, n.value)) else None;
    } else {
      var m;
      m, rest := GetFileMeta(r1);
      f := if m.Some? then Some(NewFile(level, m.value)) else None;
    }
  }

  // -------------------------------------------------------------------- MANIFEST

  /** The numbers a MANIFEST must give; the previous log number may be missing. */
  datatype Numbers = Numbers(nextFile: Option<nat>, logNumber: Option<nat>, prevLogNumber: Option<nat>, lastSequence: Option<nat>)

  function Later(before: Option<nat>, n: Option<nat>): Option<nat> {
    if n.Some? then n else before
  }

  /** The numbers after all edits: the last one given counts. */
  function NumbersOf(edits: seq<LoggedEdit>): Numbers {
    if edits == [] then Numbers(None, None, None, None)
    else Updated(NumbersOf(edits[..|edits| - 1]), edits[|edits| - 1])
  }

  function Updated(before: Numbers, e: LoggedEdit): Numbers {
    Numbers(Later(before.nextFile, e.nextFileNumber), Later(before.logNumber, e.logNumber),
            Later(before.prevLogNumber, e.prevLogNumber), Later(before.lastSequence, e.lastSequence))
  }

  lemma OneMoreEdit(edits: seq<LoggedEdit>, i: nat)
    requires i < |edits|
    ensures edits[..i + 1] == edits[..i] + [edits[i]]
    ensures NumbersOf(edits[..i + 1]) == Updated(NumbersOf(edits[..i]), edits[i])
  {
    assert edits[..i + 1][..i] == edits[..i];
  }

  function Records(edits: seq<LoggedEdit>): seq<Bytes> {
    seq(|edits|, i requires 0 <= i < |edits| => EditBytes(edits[i]))
  }

  ghost predicate Named(edits: seq<LoggedEdit>, name: Bytes) {
    forall i | 0 <= i < |edits| :: edits[i].comparator.Some? ==> edits[i].comparator.value == name
  }

  method ReadEdit(record: Bytes, name: Bytes, ghost e: LoggedEdit) returns (value: LoggedEdit, ok: bool)
    requires record == EditBytes(e) && EditFits(e) && (e.comparator.Some? ==> e.comparator.value == name)
    ensures ok && value == e
  {
    var edit := new VersionEdit();
    EditRoundTrip(e, []);
    ok := edit.DecodeFrom(record);
    assert [] + e.compactPointers == e.compactPointers;
    value := edit.Value();
    if edit.comparator.Some? && edit.comparator.value != name {
      ok := false;
    }
  }

  /** Reads a MANIFEST, cut at any byte: exactly the edits whose records lie wholly before the cut,
      and the numbers they give. */
  method ReadManifest(crc: Checksum, file: Bytes, name: Bytes, ghost edits: seq<LoggedEdit>)
    returns (got: seq<LoggedEdit>, numbers: Numbers, ok: bool)
    requires file <= LogBytes(crc, 0, Records(edits)) && Named(edits, name)
    requires forall i | 0 <= i < |edits| :: EditFits(edits[i])
    ensures LogReader.WholeRecords(crc, Records(edits), |file|, |got|) && got == edits[..|got|]
    ensures numbers == NumbersOf(got)
    ensures ok <==> numbers.nextFile.Some? && numbers.logNumber.Some? && numbers.lastSequence.Some?
  {
    var records, corruptions := LogReader.ReadLog(crc, true, file, Records(edits));
    got, numbers, ok := [], Numbers(None, None, None, None), true;
    for i := 0 to |records|
      invariant ok && got == edits[..i] && numbers == NumbersOf(got)
    {
      assert records[i] == EditBytes(edits[i]);
      OneMoreEdit(edits, i);
      var e;
      e, ok := ReadEdit(records[i], name, edits[i]);
      got, numbers := got + [e], Updated(numbers, e);
    }
    if numbers.nextFile.None? {
      ok := false;
    } else if numbers.logNumber.None? {
      ok := false;
    } else if numbers.lastSequence.None? {
      ok := false;
    }
  }
}
