/** Lines, cells and decimal numbers, as the standard library reads and writes them. */
module Text {
  import opened Wrappers

  // ---------------------------------------------------------------------- pieces

  /** A text cut at every separator: always at least one piece. */
  function SplitOn(text: string, separator: char): (r: seq<string>)
    ensures |r| >= 1
  {
    if text == "" then [""]
    else
      var rest := SplitOn(text[1..], separator);
      if text[0] == separator then [""] + rest else [[text[0]] + rest[0]] + rest[1..]
  }

  /** A piece without the separator, and what follows it. */
  lemma {:induction false} SplitsAt(piece: string, separator: char, rest: string)
    requires separator !in piece
    ensures SplitOn(piece + [separator] + rest, separator) == [piece] + SplitOn(rest, separator)
  {
    var text := piece + [separator] + rest;
    if piece == "" {
      assert text[1..] == rest;
    } else {
      SplitsAt(piece[1..], separator, rest);
      assert text[1..] == piece[1..] + [separator] + rest;
      assert piece == [piece[0]] + piece[1..];
    }
  }

  lemma {:induction false} OnePiece(piece: string, separator: char)
    requires separator !in piece
    ensures SplitOn(piece, separator) == [piece]
  {
    if piece == "" {
    } else {
      OnePiece(piece[1..], separator);
      assert piece == [piece[0]] + piece[1..];
    }
  }

  /** Pieces with a separator between them. */
  function Join(pieces: seq<string>, separator: char): string
    requires pieces != []
  {
    if |pieces| == 1 then pieces[0] else pieces[0] + [separator] + Join(pieces[1..], separator)
  }

  lemma {:induction false} JoinSplits(pieces: seq<string>, separator: char)
    requires pieces != [] && forall i :: 0 <= i < |pieces| ==> separator !in pieces[i]
    ensures SplitOn(Join(pieces, separator), separator) == pieces
  {
    if |pieces| == 1 {
      OnePiece(pieces[0], separator);
    } else {
      JoinSplits(pieces[1..], separator);
      SplitsAt(pieces[0], separator, Join(pieces[1..], separator));
    }
  }

  lemma {:induction false} JoinHolds(pieces: seq<string>, separator: char, c: char)
    requires pieces != [] && c != separator && forall i :: 0 <= i < |pieces| ==> c !in pieces[i]
    ensures c !in Join(pieces, separator)
  {
    if |pieces| == 1 {
    } else {
      JoinHolds(pieces[1..], separator, c);
    }
  }

  /** No piece holds the separator, or a character the text does not. */
  lemma {:induction false} PiecesHoldNone(text: string, separator: char, c: char)
    requires c == separator || c !in text
    ensures forall i :: 0 <= i < |SplitOn(text, separator)| ==> c !in SplitOn(text, separator)[i]
  {
    if text == "" {
    } else {
      PiecesHoldNone(text[1..], separator, c);
      var rest := SplitOn(text[1..], separator);
      var first := [text[0]] + rest[0];
      assert text[0] != separator ==> c !in first;
    }
  }

  // ----------------------------------------------------------------------- lines

  predicate EndsWith(text: string, c: char) {
    text != "" && text[|text| - 1] == c
  }

  function DropReturn(line: string): string {
    if EndsWith(line, '\r') then line[..|line| - 1] else line
  }

  /** A line ends at a line feed, a carriage return before it dropped; what follows the last one is a line unless it is empty. */
  function LinesOf(pieces: seq<string>): seq<string>
    requires pieces != []
  {
    if |pieces| == 1 then if pieces[0] == "" then [] else pieces
    else [DropReturn(pieces[0])] + LinesOf(pieces[1..])
  }

  function Lines(text: string): seq<string> {
    LinesOf(SplitOn(text, '\n'))
  }

  /** Each line with a line feed after it. */
  function Unlines(lines: seq<string>): string {
    if lines == [] then "" else lines[0] + "\n" + Unlines(lines[1..])
  }

  /** A line that reads as it was written. */
  predicate Plain(line: string) {
    '\n' !in line && !EndsWith(line, '\r')
  }

  function DropReturns(lines: seq<string>): (r: seq<string>)
    ensures |r| == |lines| && forall i :: 0 <= i < |r| ==> r[i] == DropReturn(lines[i])
  {
    seq(|lines|, i requires 0 <= i < |lines| => DropReturn(lines[i]))
  }

  /** Lines that hold no line feed read back, each without a return at its end. */
  lemma {:induction false} LinesReadBackDropped(lines: seq<string>)
    requires forall i :: 0 <= i < |lines| ==> '\n' !in lines[i]
    ensures Lines(Unlines(lines)) == DropReturns(lines)
  {
    if lines == [] {
    } else {
      var rest := Unlines(lines[1..]);
      LinesReadBackDropped(lines[1..]);
      SplitsAt(lines[0], '\n', rest);
      var pieces := [lines[0]] + SplitOn(rest, '\n');
      assert pieces[1..] == SplitOn(rest, '\n');
      assert DropReturns(lines) == [DropReturn(lines[0])] + DropReturns(lines[1..]);
    }
  }

  lemma LinesReadBack(lines: seq<string>)
    requires forall i :: 0 <= i < |lines| ==> Plain(lines[i])
    ensures Lines(Unlines(lines)) == lines
  {
    LinesReadBackDropped(lines);
    assert DropReturns(lines) == lines;
  }

  lemma {:induction false} LinesOfHoldNone(pieces: seq<string>, c: char)
    requires pieces != [] && forall i :: 0 <= i < |pieces| ==> c !in pieces[i]
    ensures forall i :: 0 <= i < |LinesOf(pieces)| ==> c !in LinesOf(pieces)[i]
  {
    if |pieces| == 1 {
    } else {
      LinesOfHoldNone(pieces[1..], c);
    }
  }

  lemma LinesHoldNoFeed(text: string)
    ensures forall i :: 0 <= i < |Lines(text)| ==> '\n' !in Lines(text)[i]
  {
    PiecesHoldNone(text, '\n', '\n');
    LinesOfHoldNone(SplitOn(text, '\n'), '\n');
  }

  lemma {:induction false} UnlinesGrows(lines: seq<string>, line: string)
    ensures Unlines(lines + [line]) == Unlines(lines) + line + "\n"
  {
    if lines != [] {
      UnlinesGrows(lines[1..], line);
      assert (lines + [line])[1..] == lines[1..] + [line];
    } else {
      assert [line][1..] == [];
    }
  }

  lemma EndsAs(a: string, b: string, c: char)
    requires b != ""
    ensures EndsWith(a + b, c) <==> EndsWith(b, c)
  {
  }

  // --------------------------------------------------------------------- numbers

  function Digit(n: nat): (c: char)
    requires n < 10
    ensures IsDigit(c)
  {
    '0' + n as char
  }

  predicate IsDigit(c: char) {
    '0' <= c <= '9'
  }

  function Decimal(n: nat): (s: string)
    ensures s != "" && forall i :: 0 <= i < |s| ==> IsDigit(s[i])
  {
    if n < 10 then [Digit(n)] else Decimal(n / 10) + [Digit(n % 10)]
  }

  predicate AllDigits(s: string) {
    forall i :: 0 <= i < |s| ==> IsDigit(s[i])
  }

  function Value(s: string): nat
    requires AllDigits(s)
  {
    if s == "" then 0 else Value(s[..|s| - 1]) * 10 + (s[|s| - 1] - '0') as nat
  }

  /** A decimal number below `span`: digits, with at most one plus sign before them. */
  function NumberIn(s: string, span: nat): Option<nat> {
    var digits := if s != "" && s[0] == '+' then s[1..] else s;
    if digits == "" || !AllDigits(digits) || Value(digits) >= span then None else Some(Value(digits))
  }

  lemma {:induction false} DecimalIsItsValue(n: nat)
    ensures Value(Decimal(n)) == n
  {
    if n < 10 {
    } else {
      DecimalIsItsValue(n / 10);
      assert Decimal(n)[..|Decimal(n)| - 1] == Decimal(n / 10);
    }
  }

  lemma NumberReadsBack(n: nat, span: nat)
    requires n < span
    ensures NumberIn(Decimal(n), span) == Some(n)
  {
    DecimalIsItsValue(n);
    assert IsDigit(Decimal(n)[0]);
  }

  /** Digits hold no tab, line feed or carriage return. */
  lemma DecimalIsPlain(n: nat)
    ensures '\t' !in Decimal(n) && Plain(Decimal(n))
  {
  }
}
