/** Benchmark baselines: what one holds, how it is printed, and how it is read again. */
module Baselines {
  import opened Wrappers
  import opened Bytes
  import opened Text

  datatype Thresholds = Thresholds(p50: nat, p99: nat, floor: nat)

  /** A percentile over several runs: its median, and the lowest and highest run. */
  datatype Spread = Spread(median: nat, low: nat, high: nat)

  datatype Phase = Phase(workload: string, phase: string, p50: Spread, p99: Spread)

  datatype Conditions = Conditions(machine: string, build: string, backend: string, runs: nat)

  datatype Baseline = Baseline(conditions: Conditions, thresholds: Thresholds, note: string, phases: seq<Phase>)

  // ------------------------------------------------------------------- rendering

  const MAGIC: string := "# tessari-bench baseline v1"
  const COLUMNS: seq<string> := ["workload", "phase", "p50", "p50-low", "p50-high", "p99", "p99-low", "p99-high"]

  const KEYS: seq<string> :=
    ["machine", "build", "backend", "runs", "threshold-p50", "threshold-p99", "floor-ns", "label"]

  function HeaderLine(key: string, value: string): string {
    "# " + key + "\t" + value
  }

  function Values(b: Baseline): (r: seq<string>)
    ensures |r| == |KEYS|
  {
    [b.conditions.machine, b.conditions.build, b.conditions.backend, Decimal(b.conditions.runs),
     Decimal(b.thresholds.p50), Decimal(b.thresholds.p99), Decimal(b.thresholds.floor), b.note]
  }

  function HeaderLines(keys: seq<string>, values: seq<string>): (r: seq<string>)
    requires |keys| == |values|
    ensures |r| == |keys| && forall i :: 0 <= i < |r| ==> r[i] == HeaderLine(keys[i], values[i])
  {
    seq(|keys|, i requires 0 <= i < |keys| => HeaderLine(keys[i], values[i]))
  }

  function Numbers(phase: Phase): (r: seq<nat>)
    ensures |r| == 6
  {
    [phase.p50.median, phase.p50.low, phase.p50.high, phase.p99.median, phase.p99.low, phase.p99.high]
  }

  function Decimals(numbers: seq<nat>): (r: seq<string>)
    ensures |r| == |numbers| && forall i :: 0 <= i < |r| ==> r[i] == Decimal(numbers[i])
  {
    seq(|numbers|, i requires 0 <= i < |numbers| => Decimal(numbers[i]))
  }

  function Cells(phase: Phase): (r: seq<string>)
    ensures |r| == 8
  {
    [phase.workload, phase.phase] + Decimals(Numbers(phase))
  }

  function Row(phase: Phase): string {
    Join(Cells(phase), '\t')
  }

  function Rows(phases: seq<Phase>): (r: seq<string>)
    ensures |r| == |phases| && forall i :: 0 <= i < |r| ==> r[i] == Row(phases[i])
  {
    seq(|phases|, i requires 0 <= i < |phases| => Row(phases[i]))
  }

  function Head(b: Baseline, columns: string): (r: seq<string>)
    ensures |r| == 10
  {
    [MAGIC] + HeaderLines(KEYS, Values(b)) + [columns]
  }

  function Rendered(b: Baseline): seq<string> {
    Head(b, Join(COLUMNS, '\t')) + Rows(b.phases)
  }

  /** The rows, one line each, after what is written already. */
  method RenderRows(before: string, ghost head: seq<string>, phases: seq<Phase>) returns (out: string)
    requires before == Unlines(head)
    ensures out == Unlines(head + Rows(phases))
  {
    out := before;
    var i := 0;
    ghost var done := head;
    while i < |phases|
      invariant i <= |phases| && done == head + Rows(phases)[..i]
      invariant out == Unlines(done)
    {
      out := out + Row(phases[i]) + "\n";
      UnlinesGrows(done, Row(phases[i]));
      done := done + [Row(phases[i])];
      i := i + 1;
    }
    assert Rows(phases)[..i] == Rows(phases);
  }

  /** Prints a baseline. */
  method Render(b: Baseline) returns (out: string)
    ensures out == Unlines(Rendered(b))
  {
    var head := Head(b, Join(COLUMNS, '\t'));
    out := RenderRows(Unlines(head), head, b.phases);
  }

  // --------------------------------------------------------------------- parsing

  datatype ParseError =
    | NotABaseline
    | HeaderEnds(key: string)
    | WrongHeader(key: string)
    | NotANumber(key: string)
    | RunsTooLarge
    | NoColumns
    | TooFewCells
    | CellNotANumber
    | NotSixNumbers

  function HeaderIn(line: string, key: string): Option<string> {
    var start := HeaderLine(key, "");
    if start <= line then Some(line[|start|..]) else None
  }

  function Headers(lines: seq<string>, keys: seq<string>): (r: Result<seq<string>, ParseError>)
    ensures r.Ok? ==> |r.value| == |keys|
  {
    if keys == [] then Ok([])
    else if lines == [] then Err(HeaderEnds(keys[0]))
    else
      match HeaderIn(lines[0], keys[0])
      case None => Err(WrongHeader(keys[0]))
      case Some(value) =>
        match Headers(lines[1..], keys[1..])
        case Err(why) => Err(why)
        case Ok(values) => Ok([value] + values)
  }

  function Number(values: seq<string>, i: nat): Result<nat, ParseError>
    requires i < |values| == |KEYS|
  {
    match NumberIn(values[i], U64_SPAN)
    case None => Err(NotANumber(KEYS[i]))
    case Some(n) => Ok(n)
  }

  function ParsedHead(lines: seq<string>): Result<Baseline, ParseError> {
    if lines == [] || lines[0] != MAGIC then Err(NotABaseline)
    else
      match Headers(lines[1..], KEYS)
      case Err(why) => Err(why)
      case Ok(values) =>
        match Number(values, 3)
        case Err(why) => Err(why)
        case Ok(runs) =>
          if runs >= U32_SPAN then Err(RunsTooLarge)
          else
            match (Number(values, 4), Number(values, 5), Number(values, 6))
            case (Err(why), _, _) => Err(why)
            case (Ok(_), Err(why), _) => Err(why)
            case (Ok(_), Ok(_), Err(why)) => Err(why)
            case (Ok(p50), Ok(p99), Ok(floor)) =>
              if |lines| < 10 then Err(NoColumns)
              else Ok(Baseline(Conditions(values[0], values[1], values[2], runs), Thresholds(p50, p99, floor), values[7], []))
  }

  function NumbersIn(cells: seq<string>): Option<seq<nat>> {
    if cells == [] then Some([])
    else
      match (NumberIn(cells[0], U64_SPAN), NumbersIn(cells[1..]))
      case (Some(n), Some(rest)) => Some([n] + rest)
      case _ => None
  }

  function ParsedRow(line: string): Result<Phase, ParseError> {
    var cells := SplitOn(line, '\t');
    if |cells| < 2 then Err(TooFewCells)
    else
      match NumbersIn(cells[2..])
      case None => Err(CellNotANumber)
      case Some(n) =>
        if |n| != 6 then Err(NotSixNumbers)
        else Ok(Phase(cells[0], cells[1], Spread(n[0], n[1], n[2]), Spread(n[3], n[4], n[5])))
  }

  /** One line more: an empty one is passed over, and after a refusal nothing is read. */
  function NextRow(before: Result<seq<Phase>, ParseError>, line: string): Result<seq<Phase>, ParseError> {
    if before.Err? || line == "" then before
    else
      match ParsedRow(line)
      case Err(why) => Err(why)
      case Ok(phase) => Ok(before.value + [phase])
  }

  function ParsedFirst(lines: seq<string>, n: nat): Result<seq<Phase>, ParseError>
    requires n <= |lines|
  {
    if n == 0 then Ok([]) else NextRow(ParsedFirst(lines, n - 1), lines[n - 1])
  }

  function ParsedRows(lines: seq<string>): Result<seq<Phase>, ParseError> {
    ParsedFirst(lines, |lines|)
  }

  function Parsed(lines: seq<string>): Result<Baseline, ParseError> {
    match ParsedHead(lines)
    case Err(why) => Err(why)
    case Ok(head) =>
      if |lines| < 10 then Err(NoColumns)
      else
        match ParsedRows(lines[10..])
        case Err(why) => Err(why)
        case Ok(phases) => Ok(head.(phases := phases))
  }

  lemma {:induction false} RefusedRowsStay(lines: seq<string>, n: nat, m: nat)
    requires n <= m <= |lines| && ParsedFirst(lines, n).Err?
    ensures ParsedFirst(lines, m) == ParsedFirst(lines, n)
  {
    if n == m {
    } else {
      RefusedRowsStay(lines, n, m - 1);
    }
  }

  method ParseRows(rows: seq<string>) returns (r: Result<seq<Phase>, ParseError>)
    ensures r == ParsedRows(rows)
  {
    var phases := [];
    var i := 0;
    while i < |rows|
      invariant i <= |rows| && ParsedFirst(rows, i) == Ok(phases)
    {
      var next := NextRow(Ok(phases), rows[i]);
      if next.Err? {
        RefusedRowsStay(rows, i + 1, |rows|);
        return next;
      }
      phases := next.value;
      i := i + 1;
    }
    r := Ok(phases);
  }

  /** Reads a printed baseline; any other text is refused. */
  method Parse(text: string) returns (r: Result<Baseline, ParseError>)
    ensures r == Parsed(Lines(text))
  {
    var lines := Lines(text);
    var head := ParsedHead(lines);
    if head.Err? {
      return Err(head.error);
    }
    var rows := ParseRows(lines[10..]);
    match rows
    case Err(why) => r := Err(why);
    case Ok(phases) => r := Ok(head.value.(phases := phases));
  }

  // ------------------------------------------------------------------- round trip

  predicate FitsSpread(s: Spread) {
    s.median < U64_SPAN && s.low < U64_SPAN && s.high < U64_SPAN
  }

  /** What a name in a row may hold. */
  predicate Cellular(name: string) {
    '\t' !in name && '\n' !in name
  }

  predicate FitsPhase(p: Phase) {
    FitsSpread(p.p50) && FitsSpread(p.p99) && Cellular(p.workload) && Cellular(p.phase)
  }

  /** The numbers fit their types. */
  predicate InRange(b: Baseline) {
    && b.conditions.runs < U32_SPAN
    && b.thresholds.p50 < U64_SPAN && b.thresholds.p99 < U64_SPAN && b.thresholds.floor < U64_SPAN
    && forall i :: 0 <= i < |b.phases| ==> FitsSpread(b.phases[i].p50) && FitsSpread(b.phases[i].p99)
  }

  /** Header values are plain lines, and names in rows hold neither tab nor line feed. */
  predicate Legible(b: Baseline) {
    && Plain(b.conditions.machine) && Plain(b.conditions.build) && Plain(b.conditions.backend) && Plain(b.note)
    && forall i :: 0 <= i < |b.phases| ==> Cellular(b.phases[i].workload) && Cellular(b.phases[i].phase)
  }

  predicate Renderable(b: Baseline) {
    InRange(b) && Legible(b)
  }

  lemma HeaderReadsBack(key: string, value: string)
    ensures HeaderIn(HeaderLine(key, value), key) == Some(value)
  {
    assert HeaderLine(key, value) == HeaderLine(key, "") + value;
  }

  lemma {:induction false} HeadersAre(lines: seq<string>, keys: seq<string>, values: seq<string>)
    requires |keys| == |values| <= |lines|
    requires forall i :: 0 <= i < |keys| ==> HeaderIn(lines[i], keys[i]) == Some(values[i])
    ensures Headers(lines, keys) == Ok(values)
  {
    if keys == [] {
    } else {
      assert HeaderIn(lines[0], keys[0]) == Some(values[0]);
      HeadersAre(lines[1..], keys[1..], values[1..]);
      assert values == [values[0]] + values[1..];
    }
  }

  lemma HeadersReadBack(keys: seq<string>, values: seq<string>, rest: seq<string>)
    requires |keys| == |values|
    ensures Headers(HeaderLines(keys, values) + rest, keys) == Ok(values)
  {
    var lines := HeaderLines(keys, values) + rest;
    forall i | 0 <= i < |keys|
      ensures HeaderIn(lines[i], keys[i]) == Some(values[i])
    {
      HeaderReadsBack(keys[i], values[i]);
    }
    HeadersAre(lines, keys, values);
  }

  lemma HeadReadsBack(b: Baseline, columns: string, rows: seq<string>)
    requires Renderable(b)
    ensures ParsedHead(Head(b, columns) + rows) == Ok(b.(phases := []))
  {
    var lines := Head(b, columns) + rows;
    assert lines[1..] == HeaderLines(KEYS, Values(b)) + ([columns] + rows);
    HeadersReadBack(KEYS, Values(b), [columns] + rows);
    NumberReadsBack(b.conditions.runs, U64_SPAN);
    NumberReadsBack(b.thresholds.p50, U64_SPAN);
    NumberReadsBack(b.thresholds.p99, U64_SPAN);
    NumberReadsBack(b.thresholds.floor, U64_SPAN);
  }

  lemma {:induction false} NumbersAre(cells: seq<string>, numbers: seq<nat>)
    requires |cells| == |numbers| && forall i :: 0 <= i < |cells| ==> NumberIn(cells[i], U64_SPAN) == Some(numbers[i])
    ensures NumbersIn(cells) == Some(numbers)
  {
    if cells == [] {
    } else {
      NumbersAre(cells[1..], numbers[1..]);
      assert NumberIn(cells[0], U64_SPAN) == Some(numbers[0]);
      assert numbers == [numbers[0]] + numbers[1..];
    }
  }

  lemma NumbersReadBack(numbers: seq<nat>)
    requires forall i :: 0 <= i < |numbers| ==> numbers[i] < U64_SPAN
    ensures NumbersIn(Decimals(numbers)) == Some(numbers)
  {
    forall i | 0 <= i < |numbers|
      ensures NumberIn(Decimals(numbers)[i], U64_SPAN) == Some(numbers[i])
    {
      NumberReadsBack(numbers[i], U64_SPAN);
    }
    NumbersAre(Decimals(numbers), numbers);
  }

  lemma CellsAreCells(p: Phase, i: nat)
    requires FitsPhase(p) && i < 8
    ensures '\t' !in Cells(p)[i] && '\n' !in Cells(p)[i]
  {
    if i >= 2 {
      DecimalIsPlain(Numbers(p)[i - 2]);
    }
  }

  lemma RowReadsBack(p: Phase)
    requires FitsPhase(p)
    ensures ParsedRow(Row(p)) == Ok(p)
  {
    var cells := Cells(p);
    forall i | 0 <= i < |cells| ensures '\t' !in cells[i] {
      CellsAreCells(p, i);
    }
    JoinSplits(cells, '\t');
    assert cells[2..] == Decimals(Numbers(p));
    NumbersReadBack(Numbers(p));
  }

  lemma {:induction false} JoinEnds(pieces: seq<string>, separator: char, c: char)
    requires pieces != [] && pieces[|pieces| - 1] != "" && !EndsWith(pieces[|pieces| - 1], c)
    ensures Join(pieces, separator) != "" && !EndsWith(Join(pieces, separator), c)
  {
    if |pieces| == 1 {
    } else {
      JoinEnds(pieces[1..], separator, c);
      EndsAs(pieces[0] + [separator], Join(pieces[1..], separator), c);
    }
  }

  lemma RowIsPlain(p: Phase)
    requires FitsPhase(p)
    ensures Plain(Row(p)) && Row(p) != ""
  {
    var cells := Cells(p);
    forall i | 0 <= i < |cells| ensures '\n' !in cells[i] {
      CellsAreCells(p, i);
    }
    JoinHolds(cells, '\t', '\n');
    DecimalIsPlain(p.p99.high);
    assert cells[7] == Decimal(p.p99.high);
    JoinEnds(cells, '\t', '\r');
  }

  lemma NextRowReadsBack(before: seq<Phase>, p: Phase)
    requires FitsPhase(p)
    ensures NextRow(Ok(before), Row(p)) == Ok(before + [p])
  {
    RowReadsBack(p);
    RowIsPlain(p);
  }

  lemma {:induction false} RowsAre(phases: seq<Phase>, n: nat)
    requires n <= |phases| && forall i :: 0 <= i < |phases| ==> FitsPhase(phases[i])
    ensures ParsedFirst(Rows(phases), n) == Ok(phases[..n])
  {
    if n == 0 {
    } else {
      RowsAre(phases, n - 1);
      RowComesNext(phases, n);
      FirstAndNext(phases, n);
    }
  }

  lemma FirstAndNext<T>(s: seq<T>, n: nat)
    requires 0 < n <= |s|
    ensures s[..n] == s[..n - 1] + [s[n - 1]]
  {
  }

  lemma RowComesNext(phases: seq<Phase>, n: nat)
    requires 0 < n <= |phases| && FitsPhase(phases[n - 1])
    ensures NextRow(Ok(phases[..n - 1]), Rows(phases)[n - 1]) == Ok(phases[..n - 1] + [phases[n - 1]])
  {
    NextRowReadsBack(phases[..n - 1], phases[n - 1]);
  }

  lemma RowsReadBack(phases: seq<Phase>)
    requires forall i :: 0 <= i < |phases| ==> FitsPhase(phases[i])
    ensures ParsedRows(Rows(phases)) == Ok(phases)
  {
    RowsAre(phases, |phases|);
    assert phases[..|phases|] == phases;
  }

  lemma HeaderIsPlain(key: string, value: string)
    requires '\n' !in key && Plain(value)
    ensures Plain(HeaderLine(key, value))
  {
    if value != "" {
      EndsAs(HeaderLine(key, ""), value, '\r');
      assert HeaderLine(key, value) == HeaderLine(key, "") + value;
    }
  }

  lemma ColumnsArePlain()
    ensures Plain(Join(COLUMNS, '\t'))
  {
    JoinHolds(COLUMNS, '\t', '\n');
    JoinEnds(COLUMNS, '\t', '\r');
  }

  lemma HeaderLineIsPlain(b: Baseline, i: nat)
    requires Renderable(b) && i < 8
    ensures Plain(HeaderLine(KEYS[i], Values(b)[i]))
  {
    DecimalIsPlain(b.conditions.runs);
    DecimalIsPlain(b.thresholds.p50);
    DecimalIsPlain(b.thresholds.p99);
    DecimalIsPlain(b.thresholds.floor);
    assert '\n' !in KEYS[i];
    HeaderIsPlain(KEYS[i], Values(b)[i]);
  }

  lemma HeadIsPlain(b: Baseline, columns: string, i: nat)
    requires Renderable(b) && Plain(columns) && i < 10
    ensures Plain(Head(b, columns)[i])
  {
    if i == 0 {
      assert '\n' !in MAGIC;
    } else if i < 9 {
      HeaderLineIsPlain(b, i - 1);
    }
  }

  lemma HeadAndRowsParseBack(b: Baseline, columns: string)
    requires Renderable(b) && Plain(columns)
    ensures Parsed(Lines(Unlines(Head(b, columns) + Rows(b.phases)))) == Ok(b)
  {
    var lines := Head(b, columns) + Rows(b.phases);
    forall i | 0 <= i < |lines| ensures Plain(lines[i]) {
      if i < 10 {
        HeadIsPlain(b, columns, i);
      } else {
        RowIsPlain(b.phases[i - 10]);
      }
    }
    LinesReadBack(lines);
    HeadReadsBack(b, columns, Rows(b.phases));
    assert lines[10..] == Rows(b.phases);
    RowsReadBack(b.phases);
  }

  /** What is rendered parses back to the same baseline. */
  lemma RenderedParsesBack(b: Baseline)
    requires Renderable(b)
    ensures Parsed(Lines(Unlines(Rendered(b)))) == Ok(b)
  {
    ColumnsArePlain();
    HeadAndRowsParseBack(b, Join(COLUMNS, '\t'));
  }

  // ------------------------------------------------------------ and nothing else does

  predicate NoFeeds(lines: seq<string>) {
    forall i :: 0 <= i < |lines| ==> '\n' !in lines[i]
  }

  lemma RowNamesAreCells(line: string)
    requires '\n' !in line && ParsedRow(line).Ok?
    ensures Cellular(ParsedRow(line).value.workload) && Cellular(ParsedRow(line).value.phase)
  {
    PiecesHoldNone(line, '\t', '\t');
    PiecesHoldNone(line, '\t', '\n');
  }

  /** Whatever text was parsed, the names in its rows are cells. */
  lemma {:induction false} ParsedNamesAreCells(lines: seq<string>, n: nat)
    requires NoFeeds(lines) && n <= |lines| && ParsedFirst(lines, n).Ok?
    ensures var phases := ParsedFirst(lines, n).value;
            forall i :: 0 <= i < |phases| ==> Cellular(phases[i].workload) && Cellular(phases[i].phase)
  {
    if n == 0 {
    } else {
      ParsedNamesAreCells(lines, n - 1);
      if lines[n - 1] != "" {
        RowNamesAreCells(lines[n - 1]);
      }
    }
  }

  /** A header's value is what follows its key on one line. */
  lemma {:induction false} HeaderValuesHoldNoFeed(lines: seq<string>, keys: seq<string>)
    requires NoFeeds(lines) && Headers(lines, keys).Ok?
    ensures NoFeeds(Headers(lines, keys).value)
  {
    if keys == [] {
    } else {
      HeaderValuesHoldNoFeed(lines[1..], keys[1..]);
      var start := HeaderLine(keys[0], "");
      assert HeaderIn(lines[0], keys[0]).value == lines[0][|start|..];
    }
  }

  lemma HeadFields(lines: seq<string>)
    requires ParsedHead(lines).Ok?
    ensures lines != [] && Headers(lines[1..], KEYS).Ok?
    ensures var b, values := ParsedHead(lines).value, Headers(lines[1..], KEYS).value;
            && b.conditions.machine == values[0] && b.conditions.build == values[1]
            && b.conditions.backend == values[2] && b.note == values[7]
  {
  }

  lemma DroppedHeader(key: string, value: string)
    ensures HeaderIn(DropReturn(HeaderLine(key, value)), key) == Some(DropReturn(value))
  {
    var start := HeaderLine(key, "");
    assert HeaderLine(key, value) == start + value;
    if EndsWith(value, '\r') {
      assert DropReturn(start + value) == start + DropReturn(value);
    } else {
      assert DropReturn(start + value) == start + value;
    }
  }

  /** Header lines read back with a return at their end dropped give the values so. */
  lemma HeadersReadBackDropped(keys: seq<string>, values: seq<string>, rest: seq<string>)
    requires |keys| == |values|
    ensures Headers(DropReturns(HeaderLines(keys, values)) + rest, keys) == Ok(DropReturns(values))
  {
    var lines := DropReturns(HeaderLines(keys, values)) + rest;
    forall i | 0 <= i < |keys|
      ensures HeaderIn(lines[i], keys[i]) == Some(DropReturns(values)[i])
    {
      DroppedHeader(keys[i], values[i]);
    }
    HeadersAre(lines, keys, DropReturns(values));
  }

  lemma RowHoldsNoFeed(p: Phase)
    requires Cellular(p.workload) && Cellular(p.phase)
    ensures '\n' !in Row(p)
  {
    var cells := Cells(p);
    forall i | 0 <= i < |cells|
      ensures '\n' !in cells[i]
    {
      if i >= 2 {
        DecimalIsPlain(Numbers(p)[i - 2]);
      }
    }
    JoinHolds(cells, '\t', '\n');
  }

  lemma KeysHoldNoFeed()
    ensures NoFeeds(KEYS)
  {
  }

  lemma ValuesHoldNoFeed(b: Baseline)
    requires NoFeeds([b.conditions.machine, b.conditions.build, b.conditions.backend, b.note])
    ensures NoFeeds(Values(b))
  {
    var strings := [b.conditions.machine, b.conditions.build, b.conditions.backend, b.note];
    assert '\n' !in strings[0] && '\n' !in strings[1] && '\n' !in strings[2] && '\n' !in strings[3];
    DecimalIsPlain(b.conditions.runs);
    DecimalIsPlain(b.thresholds.p50);
    DecimalIsPlain(b.thresholds.p99);
    DecimalIsPlain(b.thresholds.floor);
  }

  lemma HeaderHoldsNoFeed(key: string, value: string)
    requires '\n' !in key && '\n' !in value
    ensures '\n' !in HeaderLine(key, value)
  {
  }

  lemma RenderedHoldsNoFeed(b: Baseline, columns: string)
    requires NoFeeds([b.conditions.machine, b.conditions.build, b.conditions.backend, b.note]) && Plain(columns)
    requires forall i :: 0 <= i < |b.phases| ==> Cellular(b.phases[i].workload) && Cellular(b.phases[i].phase)
    ensures NoFeeds(Head(b, columns) + Rows(b.phases))
  {
    var lines := Head(b, columns) + Rows(b.phases);
    KeysHoldNoFeed();
    ValuesHoldNoFeed(b);
    forall i | 0 <= i < |lines|
      ensures '\n' !in lines[i]
    {
      if i == 0 {
        assert '\n' !in MAGIC;
      } else if i < 9 {
        HeaderHoldsNoFeed(KEYS[i - 1], Values(b)[i - 1]);
      } else if i >= 10 {
        RowHoldsNoFeed(b.phases[i - 10]);
      }
    }
  }

  lemma DropReturnsConcat(a: seq<string>, b: seq<string>)
    ensures DropReturns(a + b) == DropReturns(a) + DropReturns(b)
  {
  }

  lemma HeadAhead(b: Baseline, columns: string, rows: seq<string>)
    ensures Head(b, columns) + rows == [MAGIC] + (HeaderLines(KEYS, Values(b)) + ([columns] + rows))
  {
  }

  /** A header value that comes back did not end in a return. */
  lemma UnreturnedHeaders(b: Baseline, columns: string, rows: seq<string>)
    ensures Headers(DropReturns(Head(b, columns) + rows)[1..], KEYS) == Ok(DropReturns(Values(b)))
  {
    var headers, rest := HeaderLines(KEYS, Values(b)), [columns] + rows;
    HeadAhead(b, columns, rows);
    DropReturnsConcat([MAGIC], headers + rest);
    DropReturnsConcat(headers, rest);
    assert DropReturns(Head(b, columns) + rows)[1..] == DropReturns(headers + rest);
    HeadersReadBackDropped(KEYS, Values(b), DropReturns(rest));
  }

  lemma KeptIsUnreturned(value: string)
    requires DropReturn(value) == value
    ensures !EndsWith(value, '\r')
  {
  }

  /** What any text parses to holds no feed in its headers and only cells in its rows. */
  lemma ParsedHoldsNoFeed(text: string)
    requires Parsed(Lines(text)).Ok?
    ensures var b := Parsed(Lines(text)).value;
            && NoFeeds([b.conditions.machine, b.conditions.build, b.conditions.backend, b.note])
            && forall i :: 0 <= i < |b.phases| ==> Cellular(b.phases[i].workload) && Cellular(b.phases[i].phase)
  {
    var lines := Lines(text);
    LinesHoldNoFeed(text);
    ParsedNamesAreCells(lines[10..], |lines[10..]|);
    HeadFields(lines);
    HeaderValuesHoldNoFeed(lines[1..], KEYS);
    var values := Headers(lines[1..], KEYS).value;
    assert '\n' !in values[0] && '\n' !in values[1] && '\n' !in values[2] && '\n' !in values[7];
  }

  lemma OnlyLegibleParsesBack(b: Baseline, columns: string)
    requires Plain(columns) && Parsed(Lines(Unlines(Head(b, columns) + Rows(b.phases)))) == Ok(b)
    ensures Legible(b)
  {
    var rendered := Head(b, columns) + Rows(b.phases);
    var strings := [b.conditions.machine, b.conditions.build, b.conditions.backend, b.note];
    ParsedHoldsNoFeed(Unlines(rendered));
    assert '\n' !in strings[0] && '\n' !in strings[1] && '\n' !in strings[2] && '\n' !in strings[3];
    RenderedHoldsNoFeed(b, columns);
    LinesReadBackDropped(rendered);
    HeadFields(DropReturns(rendered));
    UnreturnedHeaders(b, columns, Rows(b.phases));
    KeptIsUnreturned(b.conditions.machine);
    KeptIsUnreturned(b.conditions.build);
    KeptIsUnreturned(b.conditions.backend);
    KeptIsUnreturned(b.note);
  }

  /**
   * For numbers of their types, what is rendered parses back to the same
   * baseline exactly when no header value holds a line feed or ends in a return
   * and no name in a row holds a tab or a line feed.
   */
  lemma ParsesBackIffLegible(b: Baseline)
    requires InRange(b)
    ensures Parsed(Lines(Unlines(Rendered(b)))) == Ok(b) <==> Legible(b)
  {
    ColumnsArePlain();
    if Legible(b) {
      RenderedParsesBack(b);
    }
    if Parsed(Lines(Unlines(Rendered(b)))) == Ok(b) {
      OnlyLegibleParsesBack(b, Join(COLUMNS, '\t'));
    }
  }
}
