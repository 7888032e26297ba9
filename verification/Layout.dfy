/** The names of logs, and the fixed-width bytes a backup section names one with. */
module Layout {
  import opened Bytes
  import opened Wrappers

  type U32 = n: nat | n < U32_SPAN witness 0
  type U64 = n: nat | n < U64_SPAN witness 0

  /** The range a log's records belong to. */
  datatype Reach =
    | Whole
    | Namespace(namespace: U32)
    | Database(namespace: U32, database: U32)
    | Shard(namespace: U32, database: U32, table: U32, shard: U32)

  /** The node allocating positions into a log: its sixteen-byte identifier. */
  type Writer = s: seq<Byte> | |s| == 16 witness seq(16, _ => 0 as Byte)

  datatype LogId = LogId(home: Reach, writer: Writer)

  function HomeBytes(home: Reach): (s: seq<Byte>)
    ensures |s| == 9
  {
    match home
    case Whole => [0] + BigEndian(0, 4) + BigEndian(0, 4)
    case Namespace(n) => [1] + BigEndian(n, 4) + BigEndian(0, 4)
    case Database(n, d) => [2] + BigEndian(n, 4) + BigEndian(d, 4)
    case Shard(n, d, _, _) => [3] + BigEndian(n, 4) + BigEndian(d, 4)
  }

  function U32In(s: seq<Byte>): U32
    requires |s| == 4
  {
    NatInBound(s);
    SpanValues();
    NatIn(s)
  }

  function U64In(s: seq<Byte>): U64
    requires |s| == 8
  {
    NatInBound(s);
    SpanValues();
    NatIn(s)
  }

  function HomeIn(s: seq<Byte>): Option<Reach>
    requires |s| == 9
  {
    var namespace := U32In(s[1..5]);
    var database := U32In(s[5..9]);
    if s[0] == 0 then Some(Whole)
    else if s[0] == 1 then Some(Namespace(namespace))
    else if s[0] == 2 then Some(Database(namespace, database))
    else None
  }

  /** A log as the twenty-five bytes a plain section names it with. */
  function LogBytes(log: LogId): (s: seq<Byte>)
    ensures |s| == 25
  {
    HomeBytes(log.home) + log.writer
  }

  function LogIn(s: seq<Byte>): Option<LogId>
    requires |s| == 25
  {
    match HomeIn(s[..9])
    case None => None
    case Some(home) => Some(LogId(home, s[9..]))
  }

  /** A shard log spelled out in thirty-three bytes. */
  function ShardLogBytes(log: LogId): (s: seq<Byte>)
    requires log.home.Shard?
    ensures |s| == 33
  {
    HomeBytes(log.home) + BigEndian(log.home.table, 4) + BigEndian(log.home.shard, 4) + log.writer
  }

  function ShardLogIn(s: seq<Byte>): Option<LogId>
    requires |s| == 33
  {
    if s[0] != 3 then None
    else
      var shard := U32In(s[13..17]);
      if shard == 0 then None
      else Some(LogId(Shard(U32In(s[1..5]), U32In(s[5..9]), U32In(s[9..13]), shard), s[17..]))
  }

  /** Filling the nine-byte buffer field by field gives the home's name. */
  method FillHome(home: Reach, bytes: array<Byte>)
    requires bytes.Length >= 9
    modifies bytes
    ensures bytes[..9] == HomeBytes(home)
    ensures bytes[9..] == old(bytes[9..])
  {
    var variant: Byte, namespace, database := 0, 0, 0;
    match home {
      case Whole =>
      case Namespace(n) => variant, namespace := 1, n;
      case Database(n, d) => variant, namespace, database := 2, n, d;
      case Shard(n, d, _, _) => variant, namespace, database := 3, n, d;
    }
    FillFields(bytes, variant, BigEndian(namespace, 4), BigEndian(database, 4));
  }

  method FillFields(bytes: array<Byte>, variant: Byte, namespace: seq<Byte>, database: seq<Byte>)
    requires bytes.Length >= 9 && |namespace| == |database| == 4
    modifies bytes
    ensures bytes[..9] == [variant] + namespace + database
    ensures bytes[9..] == old(bytes[9..])
  {
    bytes[0] := variant;
    CopyInto(bytes, 1, namespace);
    CopyInto(bytes, 5, database);
    assert bytes[..9] == [bytes[0]] + bytes[1..5] + bytes[5..9];
  }

  method CopyInto(bytes: array<Byte>, at: nat, s: seq<Byte>)
    requires at + |s| <= bytes.Length
    modifies bytes
    ensures bytes[at..at + |s|] == s
    ensures bytes[..at] == old(bytes[..at])
    ensures bytes[at + |s|..] == old(bytes[at + |s|..])
  {
    forall i | 0 <= i < |s| {
      bytes[at + i] := s[i];
    }
  }

  method FillLog(log: LogId) returns (bytes: array<Byte>)
    ensures fresh(bytes) && bytes[..] == LogBytes(log)
  {
    bytes := new Byte[25](_ => 0);
    FillHome(log.home, bytes);
    CopyInto(bytes, 9, log.writer);
    assert bytes[..] == bytes[..9] + bytes[9..25];
  }

  method FillShardLog(log: LogId) returns (bytes: Option<array<Byte>>)
    ensures bytes.Some? <==> log.home.Shard?
    ensures bytes.Some? ==> fresh(bytes.value) && bytes.value[..] == ShardLogBytes(log)
  {
    if !log.home.Shard? {
      return None;
    }
    var filled := new Byte[33](_ => 0);
    FillHome(log.home, filled);
    CopyInto(filled, 9, BigEndian(log.home.table, 4));
    CopyInto(filled, 13, BigEndian(log.home.shard, 4));
    CopyInto(filled, 17, log.writer);
    assert filled[..9] == filled[..17][..9] && filled[9..13] == filled[..17][9..13];
    assert filled[..] == filled[..9] + filled[9..13] + filled[13..17] + filled[17..33];
    bytes := Some(filled);
  }

  /** A plain section names every log but a shard's, and a shard's name never reads as one. */
  lemma LogNameRoundTrip(log: LogId)
    ensures LogIn(LogBytes(log)) == if log.home.Shard? then None else Some(log)
  {
    var s := LogBytes(log);
    assert s[..9] == HomeBytes(log.home) && s[9..] == log.writer;
    if !log.home.Shard? {
      HomeNameRoundTrip(log.home);
    }
  }

  lemma HomeNameRoundTrip(home: Reach)
    requires !home.Shard?
    ensures HomeIn(HomeBytes(home)) == Some(home)
  {
    var s := HomeBytes(home);
    match home {
      case Whole =>
      case Namespace(n) =>
        assert s[1..5] == BigEndian(n, 4);
        U32RoundTrip(n);
      case Database(n, d) =>
        assert s[1..5] == BigEndian(n, 4) && s[5..9] == BigEndian(d, 4);
        U32RoundTrip(n);
        U32RoundTrip(d);
    }
  }

  /** A shard section names a shard's log exactly when the shard id is not zero. */
  lemma ShardLogNameRoundTrip(log: LogId)
    requires log.home.Shard?
    ensures ShardLogIn(ShardLogBytes(log)) == if log.home.shard == 0 then None else Some(log)
  {
    var Shard(n, d, t, h) := log.home;
    var s := ShardLogBytes(log);
    assert s[0] == 3;
    assert s[1..5] == BigEndian(n, 4) && s[5..9] == BigEndian(d, 4);
    assert s[9..13] == BigEndian(t, 4) && s[13..17] == BigEndian(h, 4) && s[17..] == log.writer;
    U32RoundTrip(n);
    U32RoundTrip(d);
    U32RoundTrip(t);
    U32RoundTrip(h);
  }
}
