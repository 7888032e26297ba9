/** The sections of a written backup, as the frames they are written in. */
module Sections {
  import opened Bytes
  import opened Report
  import opened Format
  import opened Stores

  /** One log's part of a file: what it says it covers, and the records it carries. */
  datatype Section = Section(span: LogSpan, records: seq<Record>) {
    /** The records are numbered from `from` and their numbers are `u64`s. */
    predicate Numbered() {
      1 <= span.from && span.from + |records| < U64_SPAN
    }

    /** Every frame of the section can be framed: a nameable log, bodies a `u32` measures. */
    predicate Framed() {
      && Writable(Opens(span))
      && (forall i :: 0 <= i < |records| ==> |records[i]| < U32_SPAN)
    }

    /** Where the section stands in its log once all its records are in. */
    function Reached(): nat
      requires Numbered()
    {
      span.from - 1 + |records|
    }

    /** The records are all there is from `from` to `tail`. */
    predicate Exact()
      requires Numbered()
    {
      if records == [] then span.tail < span.from else Reached() == span.tail
    }

    function Shortened(n: nat): Section
      requires n <= |records|
    {
      this.(records := records[..n])
    }
  }

  predicate AllNumbered(sections: seq<Section>) {
    forall i :: 0 <= i < |sections| ==> sections[i].Numbered()
  }

  predicate AllExact(sections: seq<Section>)
    requires AllNumbered(sections)
  {
    forall i :: 0 <= i < |sections| ==> sections[i].Exact()
  }

  predicate AllFramed(sections: seq<Section>) {
    forall i :: 0 <= i < |sections| ==> sections[i].Framed()
  }

  function RecordEvents(from: nat, records: seq<Record>): (r: seq<Event>)
    requires from + |records| < U64_SPAN
    ensures |r| == |records|
    ensures forall i :: 0 <= i < |r| ==> r[i] == Holds(from + i, records[i])
  {
    seq(|records|, i requires 0 <= i < |records| => Holds(from + i, records[i]))
  }

  function SectionEvents(section: Section): (r: seq<Event>)
    requires section.Numbered()
    ensures |r| == 1 + |section.records|
  {
    [Opens(section.span)] + RecordEvents(section.span.from, section.records)
  }

  function FileEvents(sections: seq<Section>): (r: seq<Event>)
    requires AllNumbered(sections)
  {
    if sections == [] then [] else SectionEvents(sections[0]) + FileEvents(sections[1..])
  }

  lemma {:induction false} FileEventsAreWhole(sections: seq<Section>)
    requires AllNumbered(sections)
    ensures AllWhole(FileEvents(sections))
  {
    if sections == [] {
    } else {
      FileEventsAreWhole(sections[1..]);
    }
  }

  lemma {:induction false} FileEventsAreWritable(sections: seq<Section>)
    requires AllNumbered(sections) && AllFramed(sections)
    ensures AllWritable(FileEvents(sections))
  {
    if sections == [] {
    } else {
      FileEventsAreWritable(sections[1..]);
    }
  }

  /** The file a set of sections is written as. */
  function FileBytes(head: Head, sections: seq<Section>): seq<Byte>
    requires AllNumbered(sections)
  {
    FileEventsAreWhole(sections);
    HeadBytes(head) + BytesOf(FileEvents(sections))
  }

  lemma {:induction false} FileEventsConcat(a: seq<Section>, b: seq<Section>)
    requires AllNumbered(a) && AllNumbered(b)
    ensures FileEvents(a + b) == FileEvents(a) + FileEvents(b)
  {
    if a == [] {
      assert a + b == b;
    } else {
      assert (a + b)[1..] == a[1..] + b;
      FileEventsConcat(a[1..], b);
    }
  }

  /** The first `kept` frames of a file, as sections: whole ones, and one more with what is left of it. */
  function Part(sections: seq<Section>, kept: nat): (r: seq<Section>)
    ensures |r| <= |sections|
  {
    if kept == 0 || sections == [] then []
    else if kept <= 1 + |sections[0].records| then [sections[0].Shortened(kept - 1)]
    else [sections[0]] + Part(sections[1..], kept - 1 - |sections[0].records|)
  }

  /** Every section of a part but its last is whole, and that one is a beginning. */
  lemma {:induction false} PartIsWholeButLast(sections: seq<Section>, kept: nat)
    ensures var part := Part(sections, kept);
            && (forall i :: 0 <= i < |part| ==> part[i].span == sections[i].span && part[i].records <= sections[i].records)
            && (forall i :: 0 <= i < |part| - 1 ==> part[i] == sections[i])
  {
    if kept == 0 || sections == [] || kept <= 1 + |sections[0].records| {
    } else {
      PartIsWholeButLast(sections[1..], kept - 1 - |sections[0].records|);
    }
  }

  lemma {:induction false} PartIsNumbered(sections: seq<Section>, kept: nat)
    requires AllNumbered(sections)
    ensures AllNumbered(Part(sections, kept))
  {
    if kept == 0 || sections == [] || kept <= 1 + |sections[0].records| {
    } else {
      PartIsNumbered(sections[1..], kept - 1 - |sections[0].records|);
    }
  }

  /** A part is exactly that many of the file's frames. */
  lemma {:induction false} PartIsThoseFrames(sections: seq<Section>, kept: nat)
    requires AllNumbered(sections) && kept <= |FileEvents(sections)|
    ensures AllNumbered(Part(sections, kept))
    ensures FileEvents(Part(sections, kept)) == FileEvents(sections)[..kept]
    decreases |sections|
  {
    PartIsNumbered(sections, kept);
    if kept == 0 {
    } else {
      var first, rest := SectionEvents(sections[0]), FileEvents(sections[1..]);
      if kept <= |first| {
        OnlySection(sections[0], kept - 1);
        assert FileEvents(sections)[..kept] == first[..kept];
      } else {
        PartIsThoseFrames(sections[1..], kept - |first|);
        assert Part(sections, kept)[1..] == Part(sections[1..], kept - |first|);
        assert FileEvents(sections)[..kept] == first + rest[..kept - |first|];
      }
    }
  }

  lemma OnlySection(section: Section, records: nat)
    requires section.Numbered() && records <= |section.records|
    ensures section.Shortened(records).Numbered()
    ensures FileEvents([section.Shortened(records)]) == SectionEvents(section)[..records + 1]
  {
    var short := section.Shortened(records);
    assert FileEvents([short]) == SectionEvents(short) + FileEvents([]);
  }

  /** A part short of the whole lacks a section, or lacks records of its last. */
  lemma {:induction false} PartLacksSomething(sections: seq<Section>, kept: nat)
    requires AllNumbered(sections) && kept < |FileEvents(sections)|
    ensures var part := Part(sections, kept);
            |part| < |sections| || (part != [] && |part[|part| - 1].records| < |sections[|part| - 1].records|)
    decreases |sections|
  {
    if kept <= 1 + |sections[0].records| {
    } else {
      PartLacksSomething(sections[1..], kept - 1 - |sections[0].records|);
    }
  }
}
