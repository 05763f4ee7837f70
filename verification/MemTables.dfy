/** The bytes of a memtable entry (MemTable in db/memtable.cc): what `Add` lays out, `Get` reads. */
module MemTables {
  import opened Keys
  import opened Coding
  import opened Sequences
  import opened Comparators
  import Tables

  /** Length-prefixed internal key, length-prefixed value. */
  function EntryBytes(user: Bytes, key: InternalKey, value: Bytes): Bytes {
    LengthPrefixed(Encode(user, key.Tag())) + LengthPrefixed(value)
  }

  /** Sizes fit their prefixes, and the sequence number its 56 bits. */
  ghost predicate Fits(user: Bytes, key: InternalKey, value: Bytes) {
    && key.user == ByteRank(user) && key.seqno <= MAX_SEQUENCE
    && |user| + TAG_SIZE < TWO_32 && |value| < TWO_32
  }

  /** The entry as `Add` writes it, piece by piece. */
  method Add(user: Bytes, key: InternalKey, value: Bytes) returns (buf: Bytes)
    requires Fits(user, key, value)
    ensures buf == EntryBytes(user, key, value)
  {
    var keySize := EncodeVarint32(|user| + TAG_SIZE);
    var valueSize := EncodeVarint32(|value|);
    buf := keySize + user;
    buf := buf + Fixed(key.seqno * 256 + key.kind.Code(), TAG_SIZE);
    Regroup(keySize, user, Fixed(key.Tag(), TAG_SIZE));
    Regroup(buf, valueSize, value);
    buf := buf + valueSize;
    buf := buf + value;
  }

  /** An entry, whatever follows it in the arena, gives back its internal key and its value. */
  lemma EntryRoundTrip(user: Bytes, key: InternalKey, value: Bytes, rest: Bytes)
    requires Fits(user, key, value)
    ensures var bytes := Encode(user, key.Tag());
            && ParseSlice(EntryBytes(user, key, value) + rest) == Some((bytes, LengthPrefixed(value) + rest))
            && ParseSlice(LengthPrefixed(value) + rest) == Some((value, rest))
            && IsInternal(bytes) && UserOf(bytes) == user && Tables.ParseKey(bytes) == key
  {
    TagFits(key);
    EncodeParts(user, key.Tag());
    Regroup(LengthPrefixed(Encode(user, key.Tag())), LengthPrefixed(value), rest);
    SliceRoundTrip(Encode(user, key.Tag()), LengthPrefixed(value) + rest);
    SliceRoundTrip(value, rest);
  }

  lemma TagFits(key: InternalKey)
    requires key.seqno <= MAX_SEQUENCE
    ensures key.Tag() < TWO_64 && key.Tag() / 256 == key.seqno && key.Tag() % 256 == key.kind.Code()
  {
  }

  /** Reads the entry the seek stopped at: `found` when it is for this user key, and then its
      value, unless it is a deletion marker. */
  method Get(entry: Bytes, userKey: Bytes, ghost user: Bytes, ghost key: InternalKey, ghost value: Bytes, ghost rest: Bytes)
    returns (found: bool, r: Option<Bytes>)
    requires Fits(user, key, value) && entry == EntryBytes(user, key, value) + rest
    ensures found <==> userKey == user
    ensures found ==> r == if key.kind == Value then Some(value) else None
  {
    EntryRoundTrip(user, key, value, rest);
    TagFits(key);
    found, r := false, None;
    var keyBytes, after := GetLengthPrefixedSlice(entry);
    if UserOf(keyBytes.value) == userKey {
      found := true;
      if TagOf(keyBytes.value) % 256 == 1 {
        r, after := GetLengthPrefixedSlice(after);
      }
    }
  }
}
