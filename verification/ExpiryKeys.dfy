/** Keys of the index that orders record versions by when they expire. */
module ExpiryKeys {
  import opened Bytes
  import opened Wrappers
  import opened KeyOrder

  const EXPIRY_INDEX: Byte := 0x1a

  const INT: Byte := 0x01
  const TEXT: Byte := 0x02
  const UUID: Byte := 0x03
  const BYTES: Byte := 0x04

  datatype RecordId = Int(number: int) | Text(text: seq<Byte>) | Uuid(raw: seq<Byte>) | Opaque(bytes: seq<Byte>)

  datatype ExpiryKey = ExpiryKey(at: nat, namespace: nat, database: nat, table: nat, id: RecordId)

  /** Which byte strings are UTF-8. */
  type Utf8 = seq<Byte> -> bool

  predicate ValidId(id: RecordId, utf8: Utf8) {
    match id
    case Int(number) => IsI64(number)
    case Text(text) => utf8(text)
    case Uuid(raw) => |raw| == 16
    case Opaque(_) => true
  }

  /** What the fields' types hold. */
  predicate Valid(key: ExpiryKey, utf8: Utf8) {
    && key.at < U64_SPAN && key.namespace < U32_SPAN && key.database < U32_SPAN && key.table < U32_SPAN
    && ValidId(key.id, utf8)
  }

  // --------------------------------------------------------------------- encoding

  function IdTag(id: RecordId): Byte {
    match id
    case Int(_) => INT
    case Text(_) => TEXT
    case Uuid(_) => UUID
    case Opaque(_) => BYTES
  }

  function IdBody(id: RecordId): seq<Byte> {
    match id
    case Int(number) => if IsI64(number) then SignedBytes(number) else []
    case Text(text) => Variable(text)
    case Uuid(raw) => raw
    case Opaque(bytes) => Variable(bytes)
  }

  function IdBytes(id: RecordId): seq<Byte> {
    [IdTag(id)] + IdBody(id)
  }

  function Places(key: ExpiryKey): (r: seq<Byte>)
    ensures |r| == 12
  {
    BigEndian(key.namespace, 4) + (BigEndian(key.database, 4) + BigEndian(key.table, 4))
  }

  function Encode(key: ExpiryKey): seq<Byte> {
    [EXPIRY_INDEX] + (BigEndian(key.at, 8) + (Places(key) + IdBytes(key.id)))
  }

  // --------------------------------------------------------------------- decoding

  function TakeId(s: seq<Byte>, utf8: Utf8): Result<Took<RecordId>, KeyError> {
    if s == [] then Err(Truncated)
    else
      var rest := s[1..];
      if s[0] == INT then if |rest| < 8 then Err(Truncated) else Ok(Took(Int(SignedIn(rest[..8])), rest[8..]))
      else if s[0] == TEXT then
        match TakeVariable(rest)
        case Err(why) => Err(why)
        case Ok(Took(text, after)) => if utf8(text) then Ok(Took(Text(text), after)) else Err(InvalidUtf8)
      else if s[0] == UUID then if |rest| < 16 then Err(Truncated) else Ok(Took(Uuid(rest[..16]), rest[16..]))
      else if s[0] == BYTES then
        match TakeVariable(rest)
        case Err(why) => Err(why)
        case Ok(Took(bytes, after)) => Ok(Took(Opaque(bytes), after))
      else Err(UnknownIdKind)
  }

  function Decode(s: seq<Byte>, utf8: Utf8): Result<ExpiryKey, KeyError> {
    if s == [] then Err(Truncated)
    else if s[0] != EXPIRY_INDEX then Err(UnexpectedKind)
    else if |s| < 21 then Err(Truncated)
    else
      match TakeId(s[21..], utf8)
      case Err(why) => Err(why)
      case Ok(Took(id, rest)) =>
        if rest != [] then Err(TrailingBytes)
        else Ok(ExpiryKey(NatIn(s[1..9]), NatIn(s[9..13]), NatIn(s[13..17]), NatIn(s[17..21]), id))
  }

  lemma IdReadsBack(id: RecordId, utf8: Utf8, rest: seq<Byte>)
    requires ValidId(id, utf8)
    ensures TakeId(IdBytes(id) + rest, utf8) == Ok(Took(id, rest))
  {
    var s, body := IdBytes(id) + rest, IdBody(id);
    assert s[1..] == body + rest;
    match id
    case Int(number) =>
      SignedReadsBack(number);
      assert (body + rest)[..8] == body && (body + rest)[8..] == rest;
    case Text(text) => VariableReadsBack(text, rest);
    case Uuid(raw) => assert (body + rest)[..16] == body && (body + rest)[16..] == rest;
    case Opaque(bytes) => VariableReadsBack(bytes, rest);
  }

  lemma IdIsCanonical(s: seq<Byte>, utf8: Utf8)
    requires TakeId(s, utf8).Ok?
    ensures var took := TakeId(s, utf8).value; ValidId(took.value, utf8) && s == IdBytes(took.value) + took.rest
  {
    var rest := s[1..];
    assert s == [s[0]] + rest;
    if s[0] == INT {
      SignedIsCanonical(rest[..8]);
      assert rest == rest[..8] + rest[8..];
    } else if s[0] == UUID {
      assert rest == rest[..16] + rest[16..];
    } else {
      VariableIsCanonical(rest);
    }
  }

  /** Where each field stands. */
  lemma EncodedFields(key: ExpiryKey)
    ensures |Encode(key)| >= 21 && Encode(key)[0] == EXPIRY_INDEX
    ensures Encode(key)[1..9] == BigEndian(key.at, 8)
    ensures Encode(key)[9..13] == BigEndian(key.namespace, 4)
    ensures Encode(key)[13..17] == BigEndian(key.database, 4)
    ensures Encode(key)[17..21] == BigEndian(key.table, 4)
    ensures Encode(key)[21..] == IdBytes(key.id)
  {
  }

  /** What is written reads back. */
  lemma ReadsBack(key: ExpiryKey, utf8: Utf8)
    requires Valid(key, utf8)
    ensures Decode(Encode(key), utf8) == Ok(key)
  {
    EncodedFields(key);
    U64RoundTrip(key.at);
    U32RoundTrip(key.namespace);
    U32RoundTrip(key.database);
    U32RoundTrip(key.table);
    IdReadsBack(key.id, utf8, []);
    assert IdBytes(key.id) + [] == IdBytes(key.id);
  }

  lemma FieldsFit(s: seq<Byte>)
    requires |s| >= 21
    ensures NatIn(s[1..9]) < U64_SPAN && BigEndian(NatIn(s[1..9]), 8) == s[1..9]
    ensures NatIn(s[9..13]) < U32_SPAN && BigEndian(NatIn(s[9..13]), 4) == s[9..13]
    ensures NatIn(s[13..17]) < U32_SPAN && BigEndian(NatIn(s[13..17]), 4) == s[13..17]
    ensures NatIn(s[17..21]) < U32_SPAN && BigEndian(NatIn(s[17..21]), 4) == s[17..21]
  {
    SpanValues();
    FieldFits(s[1..9]);
    FieldFits(s[9..13]);
    FieldFits(s[13..17]);
    FieldFits(s[17..21]);
  }

  lemma FieldFits(s: seq<Byte>)
    ensures NatIn(s) < Span(|s|) && BigEndian(NatIn(s), |s|) == s
  {
    NatInBound(s);
    NatInRoundTrip(s);
  }

  /** What reads is a key some entry is written under, and that entry's only one. */
  lemma IsCanonical(s: seq<Byte>, utf8: Utf8)
    requires Decode(s, utf8).Ok?
    ensures Valid(Decode(s, utf8).value, utf8) && Encode(Decode(s, utf8).value) == s
  {
    var key := Decode(s, utf8).value;
    FieldsFit(s);
    IdIsCanonical(s[21..], utf8);
    assert IdBytes(key.id) + [] == IdBytes(key.id);
    EncodedFields(key);
    var e := Encode(key);
    SplitsAt(s);
    SplitsAt(e);
  }

  lemma SplitsAt(s: seq<Byte>)
    requires |s| >= 21
    ensures s == [s[0]] + (s[1..9] + (s[9..13] + (s[13..17] + (s[17..21] + s[21..]))))
  {
  }

  /** A byte string reads as a key exactly when it is that key's encoding. */
  lemma DecodeIffEncoded(s: seq<Byte>, key: ExpiryKey, utf8: Utf8)
    ensures Decode(s, utf8) == Ok(key) <==> Valid(key, utf8) && s == Encode(key)
  {
    if Decode(s, utf8).Ok? {
      IsCanonical(s, utf8);
    }
    if Valid(key, utf8) && s == Encode(key) {
      ReadsBack(key, utf8);
    }
  }

  // ------------------------------------------------------------------------ order

  /** Numbers before text, text before uuids, uuids before bytes. */
  function IdRank(id: RecordId): nat {
    match id
    case Int(_) => 0
    case Text(_) => 1
    case Uuid(_) => 2
    case Opaque(_) => 3
  }

  /** Ids order by kind, then by value. */
  predicate IdLess(a: RecordId, b: RecordId) {
    || IdRank(a) < IdRank(b)
    || match (a, b)
       case (Int(n), Int(m)) => n < m
       case (Text(s), Text(t)) => Less(s, t)
       case (Uuid(s), Uuid(t)) => Less(s, t)
       case (Opaque(s), Opaque(t)) => Less(s, t)
       case _ => false
  }

  /** Keys order by instant first, then by place, then by id. */
  predicate KeyLess(a: ExpiryKey, b: ExpiryKey) {
    || a.at < b.at
    || (a.at == b.at && a.namespace < b.namespace)
    || (a.at == b.at && a.namespace == b.namespace && a.database < b.database)
    || (a.at == b.at && a.namespace == b.namespace && a.database == b.database && a.table < b.table)
    || (a.at == b.at && a.namespace == b.namespace && a.database == b.database && a.table == b.table && IdLess(a.id, b.id))
  }

  lemma BodiesOrder(a: RecordId, b: RecordId, utf8: Utf8)
    requires ValidId(a, utf8) && ValidId(b, utf8) && IdTag(a) == IdTag(b)
    ensures Less(IdBody(a), IdBody(b)) <==> IdLess(a, b)
  {
    match a
    case Int(n) => SignedOrders(n, b.number);
    case Text(s) => VariableOrders(s, b.text);
    case Uuid(s) =>
    case Opaque(s) => VariableOrders(s, b.bytes);
  }

  lemma IdsOrder(a: RecordId, b: RecordId, utf8: Utf8)
    requires ValidId(a, utf8) && ValidId(b, utf8)
    ensures Less(IdBytes(a), IdBytes(b)) <==> IdLess(a, b)
  {
    LessStep(IdTag(a), IdBody(a), IdTag(b), IdBody(b));
    if IdTag(a) == IdTag(b) {
      BodiesOrder(a, b, utf8);
    }
  }

  lemma NumbersOrder(n: nat, m: nat, width: nat, s: seq<Byte>, t: seq<Byte>)
    requires n < Span(width) && m < Span(width)
    ensures Less(BigEndian(n, width) + s, BigEndian(m, width) + t) <==> n < m || (n == m && Less(s, t))
  {
    BigEndianOrders(n, m, width);
    ComponentsOrder(BigEndian(n, width), BigEndian(m, width), s, t);
    BigEndianIsOneToOne(n, m, width);
  }

  lemma Placed(key: ExpiryKey)
    ensures Places(key) + IdBytes(key.id)
            == BigEndian(key.namespace, 4) + (BigEndian(key.database, 4) + (BigEndian(key.table, 4) + IdBytes(key.id)))
  {
  }

  /** Byte order is the order of the entries: by instant, then place, then id. */
  lemma KeysSortAsEntries(a: ExpiryKey, b: ExpiryKey, utf8: Utf8)
    requires Valid(a, utf8) && Valid(b, utf8)
    ensures Less(Encode(a), Encode(b)) <==> KeyLess(a, b)
  {
    SpanValues();
    Placed(a);
    Placed(b);
    var x, y := BigEndian(a.table, 4) + IdBytes(a.id), BigEndian(b.table, 4) + IdBytes(b.id);
    var u, v := BigEndian(a.database, 4) + x, BigEndian(b.database, 4) + y;
    IdsOrder(a.id, b.id, utf8);
    NumbersOrder(a.table, b.table, 4, IdBytes(a.id), IdBytes(b.id));
    NumbersOrder(a.database, b.database, 4, x, y);
    NumbersOrder(a.namespace, b.namespace, 4, u, v);
    NumbersOrder(a.at, b.at, 8, Places(a) + IdBytes(a.id), Places(b) + IdBytes(b.id));
    LessStep(EXPIRY_INDEX, BigEndian(a.at, 8) + (Places(a) + IdBytes(a.id)),
             EXPIRY_INDEX, BigEndian(b.at, 8) + (Places(b) + IdBytes(b.id)));
  }

  // -------------------------------------------------------------- what has passed

  /** The keys a removal pass reads: instants not after `now`. */
  function PassedBy(now: nat): KeyRange {
    if now + 1 < U64_SPAN
    then KeyRange(Included([EXPIRY_INDEX]), Excluded([EXPIRY_INDEX] + BigEndian(now + 1, 8)))
    else PrefixRange([EXPIRY_INDEX])
  }

  /** A byte string as long as any key of this kind is in the range exactly when it is of the kind and its instant has passed. */
  lemma RangeIsExact(now: nat, s: seq<Byte>)
    requires now < U64_SPAN && |s| >= 9
    ensures Contains(PassedBy(now), s) <==> s[0] == EXPIRY_INDEX && NatIn(s[1..9]) <= now
  {
    var tail := s[1..];
    assert s == [s[0]] + tail;
    SpanValues();
    FieldFits(s[1..9]);
    if now + 1 < U64_SPAN {
      LessStep(s[0], tail, EXPIRY_INDEX, []);
      assert [EXPIRY_INDEX] + [] == [EXPIRY_INDEX];
      LessStep(s[0], tail, EXPIRY_INDEX, BigEndian(now + 1, 8));
      InstantDecides(tail, now + 1);
      assert tail[..8] == s[1..9];
    } else {
      PrefixRangeIsExact([EXPIRY_INDEX], s);
    }
  }

  lemma InstantDecides(tail: seq<Byte>, past: nat)
    requires |tail| >= 8 && past < U64_SPAN
    ensures Less(tail, BigEndian(past, 8)) <==> NatIn(tail[..8]) < past
  {
    SpanValues();
    FieldFits(tail[..8]);
    assert tail == tail[..8] + tail[8..];
    assert BigEndian(past, 8) == BigEndian(past, 8) + [];
    NumbersOrder(NatIn(tail[..8]), past, 8, tail[8..], []);
  }

  /** A key is in the range exactly when its instant is not after `now`, and that for the largest `now` too. */
  lemma PassedByIsExact(key: ExpiryKey, now: nat, utf8: Utf8)
    requires Valid(key, utf8) && now < U64_SPAN
    ensures Contains(PassedBy(now), Encode(key)) <==> key.at <= now
  {
    EncodedFields(key);
    U64RoundTrip(key.at);
    RangeIsExact(now, Encode(key));
  }
}
