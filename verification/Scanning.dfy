/**
 * Finding the end of a statement in text that arrives in pieces.
 *
 * `Step` is the scanner as an automaton that reads one character and never
 * looks ahead: a dash is always held until the next character says what it was.
 * `Scanner.Feed` is the code, which peeks inside a piece and holds a dash only
 * at a piece's end. That the two agree is why the text may be cut anywhere.
 */
module Scanning {
  import opened Wrappers

  /** The two character classes the scanner asks Unicode about. */
  datatype Classes = Classes(alphanumeric: char -> bool, whitespace: char -> bool) {
    predicate InWord(c: char) {
      alphanumeric(c) || c == '_'
    }
  }

  datatype State = State(
    quote: Option<char>,
    escaped: bool,
    commented: bool,
    substantial: bool,
    openTransaction: bool,
    closed: bool,
    tail: bool,
    heldDash: bool,
    atStatementStart: bool,
    word: string,
    started: bool,
    depth: nat)

  const UNFED: State := State(None, false, false, false, false, false, false, false, false, "", false, 0)

  /** What a scan has found so far. */
  datatype Scan = Scan(closed: bool, substantial: bool, openTransaction: bool)

  function Upper(c: char): char {
    if 'a' <= c <= 'z' then (c as int - 'a' as int + 'A' as int) as char else c
  }

  /** ASCII case-insensitive equality. */
  predicate Reads(word: string, keyword: string) {
    |word| == |keyword| && forall i :: 0 <= i < |word| ==> Upper(word[i]) == Upper(keyword[i])
  }

  const BEGIN: string := "BEGIN"
  const COMMIT: string := "COMMIT"
  const CANCEL: string := "CANCEL"

  /** What a statement's first word makes of the transaction. */
  function Boundary(word: string, open: bool): bool {
    if Reads(word, BEGIN) then true
    else if Reads(word, COMMIT) || Reads(word, CANCEL) then false
    else open
  }

  function Found(s: State): Scan {
    Scan(s.closed && !s.tail && !s.heldDash,
         s.substantial || s.heldDash,
         if s.atStatementStart && s.word != "" then Boundary(s.word, s.openTransaction) else s.openTransaction)
  }

  // --------------------------------------------------------------- the automaton

  /** Any character but a letter, a digit or an underscore finishes the word before it. */
  function EndWord(classes: Classes, s: State, c: char): (r: State)
    ensures r.started == s.started && r.heldDash == s.heldDash && (s.closed ==> r.closed)
    ensures r.commented == s.commented && r.quote == s.quote && r.escaped == s.escaped && r.depth == s.depth
    ensures r.word == if classes.InWord(c) then s.word else ""
  {
    if !classes.InWord(c) && s.word != "" then
      if s.atStatementStart then
        s.(openTransaction := Boundary(s.word, s.openTransaction), atStatementStart := false, word := "")
      else s.(word := "")
    else s
  }

  function Marked(s: State): State {
    s.(substantial := true, tail := true)
  }

  /** A quote or a brace. */
  predicate Barrier(c: char) {
    c == '\'' || c == '"' || c == '{' || c == '}'
  }

  /** A quote or a brace outside quotes: no keyword follows it, and it opens or closes something. */
  function Fenced(s: State, c: char): (r: State)
    requires Barrier(c)
    ensures r.started == s.started && r.heldDash == s.heldDash && r.closed == s.closed && r.word == s.word
    ensures r.commented == s.commented && r.openTransaction == s.openTransaction && r.escaped == s.escaped
    ensures r.tail && r.substantial && !r.atStatementStart
    ensures r.quote == if c == '\'' || c == '"' then Some(c) else s.quote
    ensures r.depth == if c == '{' then s.depth + 1 else if c == '}' && s.depth > 0 then s.depth - 1 else s.depth
  {
    if c == '\'' || c == '"' then Marked(s).(atStatementStart := false, quote := Some(c))
    else if c == '{' then Marked(s).(depth := s.depth + 1, atStatementStart := false)
    else Marked(s).(depth := if s.depth == 0 then 0 else s.depth - 1, atStatementStart := false)
  }

  /** A `;` outside quotes: inside braces it ends nothing, inside a transaction no group to submit. */
  function Semicolon(s: State): (r: State)
    ensures r.quote == s.quote && r.depth == s.depth && r.escaped == s.escaped && r.word == s.word
    ensures r.started == s.started && r.heldDash == s.heldDash && (s.closed ==> r.closed)
    ensures r.commented == s.commented && r.openTransaction == s.openTransaction
    ensures r.atStatementStart == (s.depth == 0 || s.atStatementStart)
    ensures s.depth > 0 ==> r.tail && r.substantial && r.closed == s.closed
  {
    if s.depth > 0 then Marked(s)
    else if s.openTransaction then s.(substantial := true, atStatementStart := true)
    else s.(substantial := true, atStatementStart := true, closed := true, tail := false)
  }

  /** A character met outside quotes, comments and escapes, other than a dash. */
  function Plain(classes: Classes, s: State, c: char): (r: State)
    ensures r.started == s.started && r.heldDash == s.heldDash && (s.closed ==> r.closed)
    ensures r.commented == s.commented && r.openTransaction == s.openTransaction && r.escaped == s.escaped
    ensures r.atStatementStart == ((c == ';' && s.depth == 0) || (s.atStatementStart && !Barrier(c)))
    ensures r.word == if !Barrier(c) && c != ';' && classes.InWord(c) then s.word + [c] else s.word
    ensures r.quote == if c == '\'' || c == '"' then Some(c) else s.quote
    ensures r.depth == if c == '{' then s.depth + 1 else if c == '}' && s.depth > 0 then s.depth - 1 else s.depth
    ensures !classes.whitespace(c) && !(c == ';' && s.depth == 0) ==> r.tail && r.substantial && r.closed == s.closed
  {
    if Barrier(c) then Fenced(s, c)
    else if c == ';' then Semicolon(s)
    else if classes.InWord(c) then Marked(s).(word := s.word + [c])
    else if classes.whitespace(c) then s
    else Marked(s)
  }

  /** A character inside quotes. */
  function Quoted(s: State, c: char): (r: State)
    requires s.quote.Some?
    ensures r.started == s.started && r.heldDash == s.heldDash && (s.closed ==> r.closed)
    ensures r.commented == s.commented && r.openTransaction == s.openTransaction
    ensures r.word == s.word && r.atStatementStart == s.atStatementStart
  {
    if c == '\\' then s.(escaped := true)
    else if c == s.quote.value then s.(quote := None)
    else s
  }

  /** One character, with no dash held before it. */
  function Read(classes: Classes, s: State, c: char): (r: State)
    ensures r.started == s.started && (s.closed ==> r.closed)
    ensures r.openTransaction == EndWord(classes, s, c).openTransaction && (r.commented ==> s.commented)
  {
    var e := EndWord(classes, s, c);
    if e.commented then e.(commented := c != '\n')
    else if e.escaped then e.(escaped := false)
    else if e.quote.Some? then Quoted(e, c)
    else if c == '-' then e.(heldDash := true)
    else Plain(classes, e, c)
  }

  function Step(classes: Classes, s: State, c: char): (r: State)
    ensures r.started == s.started && (s.closed ==> r.closed)
  {
    if !s.heldDash then Read(classes, s, c)
    else if c == '-' then s.(heldDash := false, commented := true)
    else Read(classes, Marked(s).(heldDash := false), c)
  }

  function Scanned(classes: Classes, s: State, text: string): State
    decreases |text|
  {
    if text == "" then s else Scanned(classes, Step(classes, s, text[0]), text[1..])
  }

  function Begun(s: State): State {
    if s.started then s else s.(started := true, atStatementStart := true)
  }

  /** What feeding one piece does: an empty one settles a held dash, any other is scanned. */
  function Fed(classes: Classes, s: State, text: string): State {
    if text != "" then Scanned(classes, Begun(s), text)
    else if s.heldDash then Marked(Begun(s)).(heldDash := false)
    else Begun(s)
  }

  // --------------------------------------------------------------------- the code

  class Scanner {
    const classes: Classes
    var state: State

    constructor (classes: Classes)
      ensures this.classes == classes && state == UNFED
    {
      this.classes := classes;
      state := UNFED;
    }

    /** Scans one more piece of the text. */
    method Feed(text: string)
      modifies this
      ensures state == Fed(classes, old(state), text)
    {
      var s, at := Settle(text);
      state := ReadOn(s, text[at..]);
    }

    /** Starts the scan on its first piece, and decides a dash the last piece ended in. */
    method Settle(text: string) returns (s: State, at: nat)
      ensures at <= |text| && !s.heldDash
      ensures Scanned(classes, s, text[at..]) == Fed(classes, state, text)
    {
      s := if state.started then state else state.(started := true, atStatementStart := true);
      at := 0;
      ghost var before := s;
      if s.heldDash {
        if |text| > 0 && text[0] == '-' {
          s, at := s.(heldDash := false, commented := true), 1;
        } else {
          s := s.(heldDash := false, substantial := true, tail := true);
        }
      }
      HeldDashSettled(classes, before, text, s, at);
      BegunIsFed(classes, state, before, text);
    }

    /** The loop over a piece's characters. */
    method ReadOn(from: State, text: string) returns (s: State)
      requires !from.heldDash
      ensures s == Scanned(classes, from, text)
    {
      s := from;
      var at := 0;
      var left := text;
      ghost var whole := Scanned(classes, from, text);
      while at < |text|
        invariant at <= |text| && left == text[at..] && (s.heldDash ==> at == |text|)
        invariant Scanned(classes, s, left) == whole
      {
        var took;
        s, took := ReadCharacter(s, left);
        DropDrop(text, at, took);
        left := left[took..];
        at := at + took;
      }
    }

    /** One turn of the loop over the characters left, peeking at the second. */
    method ReadCharacter(s: State, left: string) returns (r: State, took: nat)
      requires !s.heldDash && left != ""
      ensures 1 <= took <= |left| && (r.heldDash ==> took == |left|)
      ensures Scanned(classes, s, left) == Scanned(classes, r, left[took..])
    {
      var c, next := left[0], if |left| > 1 then Some(left[1]) else None;
      took := 1;
      r := EndWord(classes, s, c);
      if r.commented {
        r := r.(commented := c != '\n');
      } else if r.escaped {
        r := r.(escaped := false);
      } else if r.quote.Some? {
        r := Quoted(r, c);
      } else if c != '-' {
        r := Plain(classes, r, c);
      } else if next == Some('-') {
        r, took := r.(commented := true), 2;
        assert left[1..][1..] == left[2..];
      } else if next == None {
        r := r.(heldDash := true);
      } else {
        SingleDash(classes, s, r, next.value);
        r := r.(substantial := true, tail := true);
      }
    }
  }

  lemma DropDrop(text: string, m: nat, n: nat)
    requires m + n <= |text|
    ensures text[m..][n..] == text[m + n..]
  {
  }

  /** Whatever the new piece starts with says what a held dash was. */
  lemma HeldDashSettled(classes: Classes, b: State, text: string, s: State, at: nat)
    requires b.started
    requires if !b.heldDash then s == b && at == 0
             else if text != "" && text[0] == '-' then s == b.(heldDash := false, commented := true) && at == 1
             else s == b.(heldDash := false, substantial := true, tail := true) && at == 0
    ensures at <= |text| && !s.heldDash
    ensures Scanned(classes, s, text[at..]) == Fed(classes, b, text)
  {
    if b.heldDash && (text == "" || text[0] != '-') {
      assert s == Marked(b).(heldDash := false);
      if text != "" {
        assert Step(classes, b, text[0]) == Step(classes, s, text[0]);
      }
    }
  }

  lemma BegunIsFed(classes: Classes, state: State, begun: State, text: string)
    requires begun == if state.started then state else state.(started := true, atStatementStart := true)
    ensures begun.started && Fed(classes, begun, text) == Fed(classes, state, text)
  {
  }

  /** A dash that turned out to be a single one is the same whether it was held or not. */
  lemma SingleDash(classes: Classes, before: State, after: State, next: char)
    requires !before.heldDash && next != '-'
    requires after == EndWord(classes, before, '-')
    requires !after.commented && !after.escaped && after.quote.None?
    ensures Step(classes, Step(classes, before, '-'), next) == Step(classes, Marked(after), next)
  {
  }

  // ------------------------------------------------------------------ cut anywhere

  lemma {:induction false} ScannedConcat(classes: Classes, s: State, a: string, b: string)
    ensures Scanned(classes, s, a + b) == Scanned(classes, Scanned(classes, s, a), b)
    decreases |a|
  {
    if a == "" {
      assert a + b == b;
    } else {
      assert (a + b)[1..] == a[1..] + b;
      ScannedConcat(classes, Step(classes, s, a[0]), a[1..], b);
    }
  }

  lemma {:induction false} StaysStarted(classes: Classes, s: State, text: string)
    requires s.started
    ensures Scanned(classes, s, text).started
    decreases |text|
  {
    if text == "" {
    } else {
      StaysStarted(classes, Step(classes, s, text[0]), text[1..]);
    }
  }

  function Joined(pieces: seq<string>): string {
    if pieces == [] then "" else pieces[0] + Joined(pieces[1..])
  }

  function FedAll(classes: Classes, s: State, pieces: seq<string>): State
    decreases |pieces|
  {
    if pieces == [] then s else FedAll(classes, Fed(classes, s, pieces[0]), pieces[1..])
  }

  /** No piece is empty while a dash waits for the character after it. */
  predicate NoneSettlesADash(classes: Classes, s: State, pieces: seq<string>)
    decreases |pieces|
  {
    pieces == [] ||
    (&& (pieces[0] == "" ==> !s.heldDash)
     && NoneSettlesADash(classes, Fed(classes, s, pieces[0]), pieces[1..]))
  }

  lemma {:induction false} PiecesAreScanned(classes: Classes, s: State, pieces: seq<string>)
    requires s.started && NoneSettlesADash(classes, s, pieces)
    ensures FedAll(classes, s, pieces) == Scanned(classes, s, Joined(pieces))
    decreases |pieces|
  {
    if pieces == [] {
    } else {
      var next := Fed(classes, s, pieces[0]);
      StaysStarted(classes, s, pieces[0]);
      PiecesAreScanned(classes, next, pieces[1..]);
      ScannedConcat(classes, s, pieces[0], Joined(pieces[1..]));
    }
  }

  /**
   * However a text is cut, feeding the pieces leaves the scanner as feeding the
   * whole does, as long as no empty piece arrives while a dash is held.
   */
  lemma CutAnywhere(classes: Classes, s: State, pieces: seq<string>)
    requires Joined(pieces) != "" && NoneSettlesADash(classes, Begun(s), pieces)
    ensures FedAll(classes, s, pieces) == Fed(classes, s, Joined(pieces))
  {
    FirstPieceBegins(classes, s, pieces);
    PiecesAreScanned(classes, Begun(s), pieces);
  }

  lemma FirstPieceBegins(classes: Classes, s: State, pieces: seq<string>)
    requires pieces != []
    ensures FedAll(classes, s, pieces) == FedAll(classes, Begun(s), pieces)
  {
    assert Begun(Begun(s)) == Begun(s);
  }

  lemma {:induction false} NonEmptyPiecesSettleNothing(classes: Classes, s: State, pieces: seq<string>)
    requires forall i :: 0 <= i < |pieces| ==> pieces[i] != ""
    ensures NoneSettlesADash(classes, s, pieces)
    decreases |pieces|
  {
    if pieces == [] {
    } else {
      NonEmptyPiecesSettleNothing(classes, Fed(classes, s, pieces[0]), pieces[1..]);
    }
  }

  /** An empty piece leaves a started scanner alone exactly when no dash is held. */
  lemma EmptyPieceIsNothingIffNoDash(classes: Classes, s: State)
    requires s.started
    ensures Fed(classes, s, "") == s <==> !s.heldDash
  {
  }

  /** Why the pieces may not be empty: here one turns a comment into a statement that never closed. */
  lemma EmptyPieceCanSplitAComment(classes: Classes)
    ensures var whole, pieces := Fed(classes, UNFED, "--"), FedAll(classes, UNFED, ["-", "", "-"]);
            && Joined(["-", "", "-"]) == "--" && whole.commented && !Found(whole).substantial
            && !pieces.commented && Found(pieces).substantial && !Found(pieces).closed
  {
    var pieces := ["-", "", "-"];
    assert pieces[1..] == ["", "-"] && pieces[1..][1..] == ["-"] && pieces[1..][1..][1..] == [];
    assert Joined(["-"]) == "-" + Joined([]);
    assert Joined(["", "-"]) == "" + Joined(["-"]);
    assert Joined(pieces) == "-" + Joined(["", "-"]);
    assert Joined(pieces) == "--";
    var b := Begun(UNFED);
    assert Scanned(classes, b, "--") == Scanned(classes, Step(classes, b, '-'), "-") by {
      assert "--"[1..] == "-";
    }
    assert Scanned(classes, b, "--").commented;
    var one := Fed(classes, UNFED, "-");
    var two := Fed(classes, one, "");
    assert !Fed(classes, two, "-").commented;
    assert FedAll(classes, UNFED, pieces) == FedAll(classes, two, ["-"]);
  }
}
