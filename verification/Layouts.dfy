/** The formats spelled out: which bytes stand where, for every value, and the fixed ones by their numbers. */
module Layouts {
  import opened Wrappers
  import opened Bytes
  import opened Lists
  import opened Layout
  import opened Report
  import opened Checksum
  import opened Format
  import opened KeyOrder
  import opened ExpiryKeys
  import opened Quoting
  import opened Text
  import opened Baselines

  /** A head: "TESSARILOG", framing 4, records 1, the writer's three numbers, the count of sections. */
  lemma HeadLayout(head: Head)
    ensures var s := HeadBytes(head);
            && |s| == 28 && s[..10] == [0x54, 0x45, 0x53, 0x53, 0x41, 0x52, 0x49, 0x4c, 0x4f, 0x47]
            && s[10] == 4 && s[11] == 1
            && NatIn(s[12..16]) == head.writer.major && NatIn(s[16..20]) == head.writer.minor
            && NatIn(s[20..24]) == head.writer.patch && NatIn(s[24..28]) == head.sections
  {
    var s, w := HeadBytes(head), head.writer;
    HeadParts(head, []);
    assert s + [] == s;
    var v := VersionBytes(w);
    assert s[12..16] == v[..4] == BigEndian(w.major, 4) by { assert s[12..16] == s[12..24][..4]; }
    assert s[16..20] == v[4..8] == BigEndian(w.minor, 4) by { assert s[16..20] == s[12..24][4..8]; }
    assert s[20..24] == v[8..12] == BigEndian(w.patch, 4) by { assert s[20..24] == s[12..24][8..12]; }
    U32RoundTrip(w.major);
    U32RoundTrip(w.minor);
    U32RoundTrip(w.patch);
    U32RoundTrip(head.sections);
  }

  /** A log's home by variant: the whole node, a namespace, a database, a shard of a table. */
  lemma HomeLayout(home: Reach)
    ensures var s := HomeBytes(home);
            && |s| == 9
            && s[0] == (match home { case Whole => 0 case Namespace(_) => 1 case Database(_, _) => 2 case Shard(_, _, _, _) => 3 })
            && NatIn(s[1..5]) == (if home.Whole? then 0 else home.namespace)
            && NatIn(s[5..9]) == (if home.Whole? || home.Namespace? then 0 else home.database)
  {
    var s := HomeBytes(home);
    var n, d := if home.Whole? then 0 else home.namespace, if home.Whole? || home.Namespace? then 0 else home.database;
    assert s[1..5] == BigEndian(n, 4) && s[5..9] == BigEndian(d, 4);
    U32RoundTrip(n);
    U32RoundTrip(d);
  }

  /** Three byte strings after a tag, taken apart. */
  lemma TagAndThree(tag: Byte, a: seq<Byte>, b: seq<Byte>, c: seq<Byte>)
    ensures var s := [tag] + a + b + c;
            && s[0] == tag && s[1..1 + |a|] == a && s[1 + |a|..1 + |a| + |b|] == b && s[1 + |a| + |b|..] == c
  {
  }

  /** A section: tag 1, the home, the writer, the first and the last position it covers. */
  lemma SectionLayout(span: LogSpan)
    requires !span.log.home.Shard?
    ensures var s := SpanBytes(span);
            && |s| == 42 && s[0] == 1 && s[1..10] == HomeBytes(span.log.home) && s[10..26] == span.log.writer
            && NatIn(s[26..34]) == span.from && NatIn(s[34..42]) == span.tail
  {
    var s, name := SpanBytes(span), LogBytes(span.log);
    TagAndThree(s[0], name, BigEndian(span.from, 8), BigEndian(span.tail, 8));
    assert s[1..10] == s[1..26][..9] && s[10..26] == s[1..26][9..];
    assert s[34..42] == s[34..];
    U64RoundTrip(span.from);
    U64RoundTrip(span.tail);
  }

  /** A shard's section: tag 3, the home, the table, the shard, the writer, the two positions. */
  lemma ShardSectionLayout(span: LogSpan)
    requires span.log.home.Shard?
    ensures var s := SpanBytes(span);
            && |s| == 50 && s[0] == 3 && s[1..10] == HomeBytes(span.log.home)
            && NatIn(s[10..14]) == span.log.home.table && NatIn(s[14..18]) == span.log.home.shard
            && s[18..34] == span.log.writer && NatIn(s[34..42]) == span.from && NatIn(s[42..50]) == span.tail
  {
    var s, name := SpanBytes(span), ShardLogBytes(span.log);
    TagAndThree(s[0], name, BigEndian(span.from, 8), BigEndian(span.tail, 8));
    ShardNameLayout(span.log);
    Within(s, 1, 34, 0, 9);
    Within(s, 1, 34, 9, 13);
    Within(s, 1, 34, 13, 17);
    Within(s, 1, 34, 17, 33);
    assert s[42..50] == s[42..];
    U64RoundTrip(span.from);
    U64RoundTrip(span.tail);
  }

  lemma Within(s: seq<Byte>, from: nat, to: nat, a: nat, b: nat)
    requires from <= to <= |s| && a <= b <= to - from
    ensures s[from..to][a..b] == s[from + a..from + b]
  {
    var x, y := s[from..to][a..b], s[from + a..from + b];
    assert |x| == |y| && forall i :: 0 <= i < |x| ==> x[i] == s[from..to][a + i] == s[from + a + i] == y[i];
  }

  lemma ShardNameLayout(log: LogId)
    requires log.home.Shard?
    ensures var s := ShardLogBytes(log);
            && s[..9] == HomeBytes(log.home) && s[17..] == log.writer
            && NatIn(s[9..13]) == log.home.table && NatIn(s[13..17]) == log.home.shard
  {
    var s := ShardLogBytes(log);
    assert s[9..13] == BigEndian(log.home.table, 4) && s[13..17] == BigEndian(log.home.shard, 4);
    U32RoundTrip(log.home.table);
    U32RoundTrip(log.home.shard);
  }

  /** A record: tag 2, the length of its body, its number, the body's checksum, the body. */
  lemma RecordLayout(sequence: U64, body: seq<Byte>)
    requires |body| < U32_SPAN
    ensures var s := RecordBytes(sequence, body);
            && |s| == 17 + |body| && s[0] == 2 && NatIn(s[1..5]) == |body| && NatIn(s[5..13]) == sequence
            && s[13..17] == CrcBytes(Crc32(body)) && s[17..] == body
  {
    var s := RecordBytes(sequence, body);
    RecordParts(sequence, body, body);
    var t := s[1..];
    assert s[1..5] == t[..4] && s[5..13] == t[4..12] && s[13..17] == t[12..16] && s[17..] == t[16..];
    U32RoundTrip(|body|);
    U64RoundTrip(sequence);
  }

  /** An expiry key: kind 0x1a, the instant, the namespace, the database and the table, then the id by a tag of its kind. */
  lemma ExpiryLayout(key: ExpiryKey)
    requires key.at < U64_SPAN && key.namespace < U32_SPAN && key.database < U32_SPAN && key.table < U32_SPAN
    ensures var s := Encode(key);
            && |s| > 21 && s[0] == 0x1a && NatIn(s[1..9]) == key.at && NatIn(s[9..13]) == key.namespace
            && NatIn(s[13..17]) == key.database && NatIn(s[17..21]) == key.table
            && s[21] == (match key.id { case Int(_) => 1 case Text(_) => 2 case Uuid(_) => 3 case Opaque(_) => 4 })
            && s[22..] == IdBody(key.id)
  {
    var s, id := Encode(key), IdBytes(key.id);
    EncodedFields(key);
    assert s[21..] == id && s[21] == s[21..][0] && s[22..] == s[21..][1..];
    U64RoundTrip(key.at);
    U32RoundTrip(key.namespace);
    U32RoundTrip(key.database);
    U32RoundTrip(key.table);
  }

  lemma {:induction false} PlainComponent(a: seq<Byte>)
    requires 0 !in a
    ensures Escaped(a) == a
  {
    if a == [] {
    } else {
      PlainComponent(a[1..]);
    }
  }

  lemma {:induction false} EscapedConcat(a: seq<Byte>, b: seq<Byte>)
    ensures Escaped(a + b) == Escaped(a) + Escaped(b)
  {
    if a == [] {
      assert a + b == b;
    } else {
      assert (a + b)[0] == a[0] && (a + b)[1..] == a[1..] + b;
      EscapedConcat(a[1..], b);
      Associate(EscapedByte(a[0]), Escaped(a[1..]), Escaped(b));
    }
  }

  /** A component of a key: each zero byte as 0x00 0xff, every other as itself, and 0x00 0x01 at its end. */
  lemma ComponentLayout(a: seq<Byte>, b: seq<Byte>)
    requires 0 !in a
    ensures Variable(a) == a + [0x00, 0x01]
    ensures Escaped(a + ([0] + b)) == a + ([0x00, 0xff] + Escaped(b))
  {
    PlainComponent(a);
    EscapedConcat(a, [0] + b);
    assert ([0] + b)[1..] == b;
  }

  /** The statements the client writes for a name and a secret. */
  lemma StatementLayout(name: string, secret: string)
    ensures FirstUser(name, secret) == "DEFINE USER " + name + " ROLE owner PASSWORD '" + Escape(secret) + "';"
    ensures Unseal(secret) == "UNSEAL VAULT WITH '" + Escape(secret) + "';"
  {
    TwoPassesAreOne(secret);
    UserText(name, QuotedText(secret));
  }

  lemma UserText(name: string, quoted: string)
    ensures "DEFINE" + " " + ("USER " + name + " ROLE owner PASSWORD ") + "'" + quoted + "'" + ";"
         == "DEFINE USER " + name + " ROLE owner PASSWORD '" + quoted + "';"
    ensures "UNSEAL" + " " + "VAULT WITH " + "'" + quoted + "'" + ";" == "UNSEAL VAULT WITH '" + quoted + "';"
  {
  }

  lemma KeysAre()
    ensures KEYS == ["machine", "build", "backend", "runs", "threshold-p50", "threshold-p99", "floor-ns", "label"]
  {
  }

  lemma BaselineHeader(b: Baseline, keys: seq<string>, values: seq<string>, i: nat)
    requires |keys| == |values| == 8 && keys == KEYS && values == Values(b) && i < 8
    ensures |Rendered(b)| == 10 + |b.phases| && Rendered(b)[1 + i] == HeaderLine(keys[i], values[i])
  {
  }

  /** A baseline's lines: the first by its text, then a header a field, in this order. */
  lemma BaselineLayout(b: Baseline, i: nat)
    requires i < 8
    ensures |Rendered(b)| == 10 + |b.phases| && Rendered(b)[0] == "# tessari-bench baseline v1"
    ensures var keys := ["machine", "build", "backend", "runs", "threshold-p50", "threshold-p99", "floor-ns", "label"];
            var values := [b.conditions.machine, b.conditions.build, b.conditions.backend, Decimal(b.conditions.runs),
                           Decimal(b.thresholds.p50), Decimal(b.thresholds.p99), Decimal(b.thresholds.floor), b.note];
            Rendered(b)[1 + i] == "# " + keys[i] + "\t" + values[i]
  {
    KeysAre();
    BaselineHeader(b, KEYS, Values(b), i);
  }

  /** then the columns its rows stand in, */
  lemma ColumnsLayout(b: Baseline)
    ensures |Rendered(b)| == 10 + |b.phases|
    ensures Rendered(b)[9] == Join(["workload", "phase", "p50", "p50-low", "p50-high", "p99", "p99-low", "p99-high"], '\t')
  {
    var head := Baselines.Head(b, Join(COLUMNS, '\t'));
    assert Rendered(b)[9] == head[9];
  }

  /** and a row a phase: its workload, its phase, and the two spreads, each by its median, its lowest and its highest. */
  lemma RowLayout(b: Baseline, i: nat)
    requires i < |b.phases|
    ensures var p := b.phases[i];
            Rendered(b)[10 + i] == Join([p.workload, p.phase, Decimal(p.p50.median), Decimal(p.p50.low), Decimal(p.p50.high),
                                         Decimal(p.p99.median), Decimal(p.p99.low), Decimal(p.p99.high)], '\t')
  {
    var p := b.phases[i];
    assert Cells(p) == [p.workload, p.phase, Decimal(p.p50.median), Decimal(p.p50.low), Decimal(p.p50.high),
                        Decimal(p.p99.median), Decimal(p.p99.low), Decimal(p.p99.high)];
  }

  // ---------------------------------------------------------- what is not refused

  /** A build by one number, its parts in order of weight. */
  function Rank(v: Version): nat {
    (v.major * 0x1_0000_0000 + v.minor) * 0x1_0000_0000 + v.patch
  }

  /** Newer means greater: by the first number that differs, and never than itself. */
  lemma NewerIffGreater(a: Version, b: Version)
    ensures a.NewerThan(b) <==> Rank(a) > Rank(b)
    ensures a == b <==> Rank(a) == Rank(b)
  {
  }

  /** Nine bytes name a home exactly when the first is 0, 1 or 2, and thirty-three a shard's log exactly when it is 3 and the shard is not zero. */
  lemma NamesReadIff(home: seq<Byte>, shard: seq<Byte>)
    requires |home| == 9 && |shard| == 33
    ensures HomeIn(home).Some? <==> home[0] in {0, 1, 2}
    ensures ShardLogIn(shard).Some? <==> shard[0] == 3 && NatIn(shard[13..17]) != 0
  {
  }

  lemma {:induction false} NumbersReadIff(cells: seq<string>)
    ensures NumbersIn(cells).Some? <==> forall i :: 0 <= i < |cells| ==> NumberIn(cells[i], U64_SPAN).Some?
    ensures NumbersIn(cells).Some? ==>
              && |NumbersIn(cells).value| == |cells|
              && forall i :: 0 <= i < |cells| ==> NumberIn(cells[i], U64_SPAN) == Some(NumbersIn(cells).value[i])
  {
    if cells == [] {
    } else {
      NumbersReadIff(cells[1..]);
      assert cells == [cells[0]] + cells[1..];
    }
  }

  /** A row reads exactly when it has eight cells and the last six are numbers a word holds, and then as those. */
  lemma RowReadsIff(line: string)
    ensures var cells := SplitOn(line, '\t');
            && (ParsedRow(line).Ok? <==>
                  |cells| == 8 && forall i :: 2 <= i < 8 ==> NumberIn(cells[i], 0x1_0000_0000_0000_0000).Some?)
            && (ParsedRow(line).Ok? ==>
                  var p := ParsedRow(line).value;
                  && p.workload == cells[0] && p.phase == cells[1]
                  && Some(p.p50.median) == NumberIn(cells[2], 0x1_0000_0000_0000_0000)
                  && Some(p.p99.high) == NumberIn(cells[7], 0x1_0000_0000_0000_0000))
  {
    var cells := SplitOn(line, '\t');
    if |cells| >= 2 {
      var rest := cells[2..];
      NumbersReadIff(rest);
      assert forall i :: 0 <= i < |rest| ==> rest[i] == cells[i + 2];
      assert forall i :: 2 <= i < |cells| ==> cells[i] == rest[i - 2];
    }
  }

  /** What reads as a baseline begins with its text, has all ten lines of a head, and holds numbers of their widths. */
  lemma ParsedIsInRange(lines: seq<string>)
    requires Parsed(lines).Ok?
    ensures |lines| >= 10 && lines[0] == "# tessari-bench baseline v1"
    ensures var b := Parsed(lines).value;
            && b.conditions.runs < 0x1_0000_0000 && b.thresholds.p50 < 0x1_0000_0000_0000_0000
            && b.thresholds.p99 < 0x1_0000_0000_0000_0000 && b.thresholds.floor < 0x1_0000_0000_0000_0000
  {
  }
}
