/** The writer of backups, over logs that do not stop for it. */
module Writing {
  import opened Bytes
  import opened Wrappers
  import opened Layout
  import opened Lists
  import opened Report
  import opened Checksum
  import opened Format
  import opened Stores
  import opened Sections

  /** The longest page read at once. */
  const PAGE: nat := 500

  /** Later logs extend earlier ones, and positions stay below the largest `u64`. */
  ghost predicate Grows(history: nat -> Logs) {
    && (forall i, j, log :: i <= j ==> LogOf(history(i), log) <= LogOf(history(j), log))
    && (forall i, log :: |LogOf(history(i), log)| + 1 < U64_SPAN)
  }

  /** The logs being backed up: what they hold at each moment, and the moment it is. */
  class Origin {
    const node: Node
    const history: nat -> Logs
    var now: nat

    constructor (node: Node, history: nat -> Logs)
      ensures this.node == node && this.history == history && now == 0
    {
      this.node, this.history, now := node, history, 0;
    }

    method List() returns (ids: seq<LogId>)
      modifies this
      ensures now > old(now) && ids == node.list(history(now))
    {
      now := now + 1;
      ids := node.list(history(now));
    }

    method CommittedTail(log: LogId) returns (tail: nat)
      modifies this
      ensures now > old(now) && tail == Tail(history(now), log)
    {
      now := now + 1;
      tail := Tail(history(now), log);
    }

    /** At most `limit` records at and after `from`, oldest first. */
    method LogRecords(log: LogId, from: nat, limit: nat) returns (page: seq<Record>)
      requires from >= 1
      modifies this
      ensures now > old(now) && page == Page(LogOf(history(now), log), from, limit)
    {
      now := now + 1;
      page := Page(LogOf(history(now), log), from, limit);
    }
  }

  function Page(kept: seq<Record>, from: nat, limit: nat): (r: seq<Record>)
    requires from >= 1
    ensures |r| <= limit
  {
    if from - 1 >= |kept| then []
    else if |kept| - (from - 1) <= limit then kept[from - 1..]
    else kept[from - 1..from - 1 + limit]
  }

  /** The file being written: its head, and the frames after it, each written whole. */
  class Sink {
    var head: seq<Byte>
    var frames: seq<Event>

    constructor ()
      ensures head == [] && frames == []
    {
      head, frames := [], [];
    }

    /** Every byte written so far. */
    function Bytes(): seq<Byte>
      requires AllWhole(frames)
      reads this
    {
      head + BytesOf(frames)
    }

    method WriteHead(bytes: seq<Byte>)
      modifies `head
      ensures head == bytes
    {
      head := bytes;
    }

    /** Write the bytes of one frame. */
    method WriteFrame(event: Event, bytes: seq<Byte>)
      requires event.Whole() && bytes == EventBytes(event)
      modifies `frames
      ensures frames == old(frames) + [event]
    {
      frames := frames + [event];
    }
  }

  /** A log's section from `start`, taken when the log held `kept`. */
  function SectionOf(log: LogId, start: nat, kept: seq<Record>): (r: Section)
    requires 1 <= start < U64_SPAN && |kept| + 1 < U64_SPAN
    ensures r.Numbered() && r.Exact() && r.span.log == log && r.span.from == start
  {
    Section(LogSpan(log, start, |kept|), Onward(kept, start))
  }

  /** The records at and after `start`. */
  function Onward(kept: seq<Record>, start: nat): seq<Record>
    requires 1 <= start
  {
    if start - 1 <= |kept| then kept[start - 1..] else []
  }

  /** The section is the log as it stood at some moment of the writing. */
  ghost predicate TakenWithin(history: nat -> Logs, begin: nat, end: nat, log: LogId, start: nat, section: Section)
    requires Grows(history) && 1 <= start < U64_SPAN
  {
    exists t :: begin <= t <= end && section == SectionOf(log, start, LogOf(history(t), log))
  }

  /** Each section is its whole log as it stood at some moment of the writing. */
  ghost predicate AllTaken(history: nat -> Logs, begin: nat, end: nat, ids: seq<LogId>, sections: seq<Section>)
    requires Grows(history)
  {
    && |ids| == |sections|
    && forall i :: 0 <= i < |ids| ==> TakenWithin(history, begin, end, ids[i], 1, sections[i])
  }

  method WriteHead(out: Sink, running: Version, sections: U32)
    modifies out`head
    ensures out.head == HeadBytes(Head(running, sections))
  {
    var bytes := MAGIC;
    bytes := bytes + [FORMAT, CODEC_VERSION];
    bytes := bytes + BigEndian(running.major, 4);
    bytes := bytes + BigEndian(running.minor, 4);
    bytes := bytes + BigEndian(running.patch, 4);
    bytes := bytes + BigEndian(sections, 4);
    out.WriteHead(bytes);
  }

  method WriteSpan(out: Sink, span: LogSpan)
    modifies out`frames
    ensures out.frames == old(out.frames) + [Opens(span)]
  {
    var bytes;
    var named := FillShardLog(span.log);
    if named.Some? {
      bytes := [FRAME_SHARD_SECTION] + named.value[..];
    } else {
      var plain := FillLog(span.log);
      bytes := [FRAME_SECTION] + plain[..];
    }
    bytes := bytes + BigEndian(span.from, 8);
    bytes := bytes + BigEndian(span.tail, 8);
    out.WriteFrame(Opens(span), bytes);
  }

  method WriteRecord(out: Sink, sequence: U64, body: seq<Byte>)
    modifies out`frames
    ensures out.frames == old(out.frames) + [Holds(sequence, body)]
  {
    var crc := TableCrc32(body);
    var bytes := [FRAME_RECORD];
    bytes := bytes + BigEndian(LengthField(|body|), 4);
    bytes := bytes + BigEndian(sequence, 8);
    bytes := bytes + CrcBytes(crc);
    bytes := bytes + body;
    out.WriteFrame(Holds(sequence, body), bytes);
  }

  lemma TakeOneMore<T>(s: seq<T>, n: nat)
    requires n < |s|
    ensures s[..n + 1] == s[..n] + [s[n]]
  {
  }

  lemma TakeAll<T>(s: seq<T>)
    ensures s[..|s|] == s
  {
  }

  lemma RecordEventsConcat(from: nat, a: seq<Record>, b: seq<Record>)
    requires from + |a| + |b| < U64_SPAN
    ensures RecordEvents(from, a + b) == RecordEvents(from, a) + RecordEvents(from + |a|, b)
  {
  }

  lemma RecordEventsOneMore(from: nat, page: seq<Record>, n: nat)
    requires n < |page| && from + |page| < U64_SPAN
    ensures RecordEvents(from, page[..n + 1]) == RecordEvents(from, page[..n]) + [Holds(from + n, page[n])]
  {
  }

  /** How many of `count` records starting at `from` do not stand past `tail`. */
  function Within(from: nat, count: nat, tail: nat): nat
    requires 1 <= from
  {
    if from + count - 1 <= tail then count else if from > tail then 0 else tail - from + 1
  }

  /**
   * Write one page's records up to `tail`; answers how many, which is fewer
   * than the page holds when it runs past the tail.
   */
  method WritePage(out: Sink, page: seq<Record>, from: nat, tail: nat) returns (written: nat)
    requires 1 <= from && from + |page| < U64_SPAN
    modifies out`frames
    ensures written == Within(from, |page|, tail)
    ensures out.frames == old(out.frames) + RecordEvents(from, page[..written])
  {
    written := 0;
    while written < |page|
      invariant 0 <= written <= Within(from, |page|, tail)
      invariant out.frames == old(out.frames) + RecordEvents(from, page[..written])
    {
      if from + written > tail {
        return;
      }
      WriteRecord(out, from + written, page[written]);
      RecordEventsOneMore(from, page, written);
      Associate(old(out.frames), RecordEvents(from, page[..written]), [Holds(from + written, page[written])]);
      written := written + 1;
    }
  }

  /**
   * One log's section: exactly the records from `from` to the tail it had when
   * the section began, however the log grows and however it is paged.
   */
  method WriteSection(origin: Origin, out: Sink, log: LogId, from: U64)
    returns (written: nat, span: LogSpan, ghost section: Section)
    requires Grows(origin.history)
    modifies origin, out`frames
    ensures origin.now > old(origin.now)
    ensures TakenWithin(origin.history, old(origin.now), origin.now, log, Max(from, 1), section)
    ensures span == section.span && written == |section.records|
    ensures section.Numbered() && out.frames == old(out.frames) + SectionEvents(section)
  {
    var start := if from < 1 then 1 else from;
    var tail := origin.CommittedTail(log);
    ghost var taken := origin.now;
    section := SectionOf(log, start, LogOf(origin.history(taken), log));
    span := LogSpan(log, start, tail);
    WriteSpan(out, span);
    written := WriteRecords(origin, out, log, start, tail, taken);
    Associate(old(out.frames), [Opens(span)], RecordEvents(start, section.records));
  }

  /** The paging loop, for a log that held `tail` records at the moment `taken`. */
  method WriteRecords(origin: Origin, out: Sink, log: LogId, start: nat, tail: nat, ghost taken: nat)
    returns (written: nat)
    requires Grows(origin.history) && taken <= origin.now
    requires 1 <= start < U64_SPAN && tail == Tail(origin.history(taken), log)
    modifies origin, out`frames
    ensures origin.now > old(origin.now)
    ensures var records := Onward(LogOf(origin.history(taken), log), start);
            && written == |records| && start + |records| < U64_SPAN
            && out.frames == old(out.frames) + RecordEvents(start, records)
  {
    ghost var kept := LogOf(origin.history(taken), log);
    ghost var records := Onward(kept, start);
    ghost var before := out.frames;
    written := 0;
    var past := false;
    while !past
      invariant taken <= origin.now && old(origin.now) + (if past then 1 else 0) <= origin.now
      invariant 0 <= written <= |records| && (past ==> written == |records|)
      invariant out.frames == before + RecordEvents(start, records[..written])
      decreases !past, |records| - written
    {
      var page := origin.LogRecords(log, start + written, PAGE);
      ghost var longer := LogOf(origin.history(origin.now), log);
      ghost var sofar := out.frames;
      var count := WritePage(out, page, start + written, tail);
      PageContinues(kept, longer, start, written, page, count);
      PageAdds(before, start, records, written, count, page);
      assert out.frames == sofar + RecordEvents(start + written, page[..count]);
      assert out.frames == before + RecordEvents(start, records[..written + count]);
      written := written + count;
      past := page == [] || count < |page|;
    }
    TakeAll(records);
  }

  /** The frames of a page after those of the pages before it. */
  lemma PageAdds(before: seq<Event>, start: nat, records: seq<Record>, n: nat, count: nat, page: seq<Record>)
    requires n + count <= |records| && start + |records| < U64_SPAN
    requires count <= |page| && page[..count] == records[n..n + count]
    ensures before + RecordEvents(start, records[..n]) + RecordEvents(start + n, page[..count])
         == before + RecordEvents(start, records[..n + count])
  {
    TakeMore(records, n, count);
    PagesAdd(before, start, records[..n], page[..count], records[..n + count]);
  }

  lemma PagesAdd(before: seq<Event>, start: nat, a: seq<Record>, b: seq<Record>, whole: seq<Record>)
    requires whole == a + b && start + |whole| < U64_SPAN
    ensures before + RecordEvents(start, a) + RecordEvents(start + |a|, b) == before + RecordEvents(start, whole)
  {
    RecordEventsConcat(start, a, b);
    Associate(before, RecordEvents(start, a), RecordEvents(start + |a|, b));
  }

  lemma TakeMore<T>(s: seq<T>, n: nat, count: nat)
    requires n + count <= |s|
    ensures s[..n + count] == s[..n] + s[n..n + count]
  {
  }

  /** A page of a log that has since grown continues the section where it stopped. */
  lemma PageContinues(kept: seq<Record>, longer: seq<Record>, start: nat, written: nat, page: seq<Record>, count: nat)
    requires kept <= longer && 1 <= start && written <= |Onward(kept, start)|
    requires page == Page(longer, start + written, PAGE)
    requires count == Within(start + written, |page|, |kept|)
    ensures written + count <= |Onward(kept, start)|
    ensures page[..count] == Onward(kept, start)[written..written + count]
    ensures count < |page| || page == [] ==> written + count == |Onward(kept, start)|
  {
    if start - 1 <= |kept| {
      forall i | 0 <= i < count
        ensures page[i] == kept[start - 1 + written + i]
      {
        assert page[i] == longer[start - 1 + written + i];
      }
      var onward := Onward(kept, start);
      assert |page[..count]| == |onward[written..written + count]|;
      forall i | 0 <= i < count ensures page[..count][i] == onward[written..written + count][i] {
        assert onward[written + i] == kept[start - 1 + written + i];
      }
    }
  }

  /**
   * Write every log the store holds: one whole section a log, each as that log
   * stood at some moment while the file was being written.
   */
  method Write(origin: Origin, out: Sink) returns (answer: Written, ghost ids: seq<LogId>, ghost sections: seq<Section>)
    requires Grows(origin.history) && out.head == [] && out.frames == []
    modifies origin, out
    ensures origin.now > old(origin.now) && |sections| == |ids|
    ensures exists t :: old(origin.now) < t <= origin.now && ids == origin.node.list(origin.history(t))
    ensures AllTaken(origin.history, old(origin.now), origin.now, ids, sections)
    ensures AllNumbered(sections)
    ensures AllWhole(out.frames) && out.Bytes() == FileBytes(Head(origin.node.running, LengthField(|sections|)), sections)
    ensures answer == Written(CountRecords(sections), Spans(sections), origin.node.running)
  {
    var homes := origin.List();
    ids := homes;
    ghost var listed := origin.now;
    WriteHead(out, origin.node.running, LengthField(|homes|));
    var records, logs;
    records, logs, sections := WriteSections(origin, out, homes, listed);
    LaterTaken(origin.history, old(origin.now), listed, origin.now, ids, sections);
    FileEventsAreWhole(sections);
    answer := Written(records, logs, origin.node.running);
  }

  method WriteSections(origin: Origin, out: Sink, homes: seq<LogId>, ghost begin: nat)
    returns (records: nat, logs: seq<LogSpan>, ghost sections: seq<Section>)
    requires Grows(origin.history) && begin == origin.now && out.frames == []
    modifies origin, out`frames
    ensures origin.now >= begin
    ensures AllTaken(origin.history, begin, origin.now, homes, sections)
    ensures AllNumbered(sections) && out.frames == FileEvents(sections)
    ensures records == CountRecords(sections) && logs == Spans(sections)
  {
    records, logs, sections := 0, [], [];
    for i := 0 to |homes|
      invariant origin.now >= begin && |sections| == i && AllNumbered(sections)
      invariant AllTaken(origin.history, begin, origin.now, homes[..i], sections)
      invariant out.frames == FileEvents(sections)
      invariant records == CountRecords(sections) && logs == Spans(sections)
    {
      var count, span;
      ghost var section;
      ghost var before := origin.now;
      count, span, section := WriteSection(origin, out, homes[i], 1);
      OneMoreTaken(origin.history, begin, before, origin.now, homes[..i], sections, homes[i], section);
      TakeOneMore(homes, i);
      OneMoreSection(sections, section);
      sections := sections + [section];
      records, logs := records + count, logs + [span];
    }
    TakeAll(homes);
  }

  /** A file of one section: a single log from some position on. */
  method WriteFrom(origin: Origin, out: Sink, log: LogId, from: U64) returns (answer: Written, ghost section: Section)
    requires Grows(origin.history) && out.head == [] && out.frames == []
    modifies origin, out
    ensures TakenWithin(origin.history, old(origin.now), origin.now, log, Max(from, 1), section)
    ensures section.Numbered()
    ensures AllWhole(out.frames) && out.Bytes() == FileBytes(Head(origin.node.running, 1), [section])
    ensures answer == Written(|section.records|, [section.span], origin.node.running)
  {
    WriteHead(out, origin.node.running, 1);
    var records, span;
    records, span, section := WriteSection(origin, out, log, from);
    OneSectionEvents(section);
    assert out.frames == SectionEvents(section);
    answer := Written(records, [span], origin.node.running);
  }

  /** Which log a backup from a position means, if that is clear. */
  method OnlyLog(origin: Origin) returns (answer: Result<LogId, Error>)
    modifies origin
    ensures var ids := origin.node.list(origin.history(origin.now));
            match |ids| {
              case 0 => answer == Ok(LogId(Reach.Whole, seq(16, _ => 0 as Byte)))
              case 1 => answer == Ok(ids[0])
              case _ => answer == Err(ManyLogs(IncrementalBackup, |ids|))
            }
  {
    var ids := origin.List();
    if |ids| == 0 {
      answer := Ok(LogId(Reach.Whole, seq(16, _ => 0 as Byte)));
    } else if |ids| == 1 {
      answer := Ok(ids[0]);
    } else {
      answer := Err(ManyLogs(IncrementalBackup, |ids|));
    }
  }

  lemma OneSectionEvents(section: Section)
    requires section.Numbered()
    ensures AllNumbered([section]) && FileEvents([section]) == SectionEvents(section) && AllWhole(SectionEvents(section))
  {
    assert FileEvents([section]) == SectionEvents(section) + FileEvents([]);
  }

  function CountRecords(sections: seq<Section>): nat {
    if sections == [] then 0 else |sections[0].records| + CountRecords(sections[1..])
  }

  function Spans(sections: seq<Section>): (r: seq<LogSpan>)
    ensures |r| == |sections| && forall i :: 0 <= i < |r| ==> r[i] == sections[i].span
  {
    seq(|sections|, i requires 0 <= i < |sections| => sections[i].span)
  }

  lemma {:induction false} OneMoreSection(sections: seq<Section>, section: Section)
    requires AllNumbered(sections) && section.Numbered()
    ensures FileEvents(sections + [section]) == FileEvents(sections) + SectionEvents(section)
    ensures CountRecords(sections + [section]) == CountRecords(sections) + |section.records|
    ensures AllNumbered(sections + [section])
    ensures Spans(sections + [section]) == Spans(sections) + [section.span]
  {
    if sections == [] {
      assert sections + [section] == [section];
    } else {
      assert (sections + [section])[1..] == sections[1..] + [section];
      OneMoreSection(sections[1..], section);
    }
  }

  lemma OneMoreTaken(history: nat -> Logs, begin: nat, middle: nat, end: nat,
                     ids: seq<LogId>, sections: seq<Section>, log: LogId, section: Section)
    requires Grows(history) && begin <= middle <= end
    requires AllTaken(history, begin, middle, ids, sections)
    requires TakenWithin(history, middle, end, log, 1, section)
    ensures AllTaken(history, begin, end, ids + [log], sections + [section])
  {
    forall i | 0 <= i < |sections|
      ensures TakenWithin(history, begin, end, ids[i], 1, sections[i])
    {
      var t :| begin <= t <= middle && sections[i] == SectionOf(ids[i], 1, LogOf(history(t), ids[i]));
    }
  }

  lemma LaterTaken(history: nat -> Logs, earlier: nat, begin: nat, end: nat, ids: seq<LogId>, sections: seq<Section>)
    requires Grows(history) && earlier <= begin
    requires AllTaken(history, begin, end, ids, sections)
    ensures AllTaken(history, earlier, end, ids, sections)
  {
    forall i | 0 <= i < |sections|
      ensures TakenWithin(history, earlier, end, ids[i], 1, sections[i])
    {
      var t :| begin <= t <= end && sections[i] == SectionOf(ids[i], 1, LogOf(history(t), ids[i]));
    }
  }
}
