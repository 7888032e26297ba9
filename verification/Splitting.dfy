/** The conformance corpus's statement splitter: what it cuts a text into. */
module Splitting {
  import opened Wrappers
  import opened Lists
  import opened Scanning

  datatype Splitter = Splitter(
    statements: seq<string>,
    current: string,
    quote: Option<char>,
    escaped: bool,
    depth: nat)

  const UNCUT: Splitter := Splitter([], "", None, false, 0)

  function SplitStep(p: Splitter, c: char): Splitter {
    var s := p.(current := p.current + [c]);
    match p.quote
    case Some(open) =>
      if p.escaped then s.(escaped := false)
      else if c == '\\' then s.(escaped := true)
      else if c == open then s.(quote := None)
      else s
    case None =>
      if c == '\'' || c == '"' then s.(quote := Some(c))
      else if c == '{' then s.(depth := p.depth + 1)
      else if c == '}' then s.(depth := if p.depth == 0 then 0 else p.depth - 1)
      else if c == ';' && p.depth == 0 then s.(statements := p.statements + [s.current], current := "")
      else s
  }

  /** The splitter once it has read `text`. */
  function Cut(text: string): Splitter {
    if text == "" then UNCUT else SplitStep(Cut(text[..|text| - 1]), text[|text| - 1])
  }

  predicate Blank(classes: Classes, text: string) {
    forall i :: 0 <= i < |text| ==> classes.whitespace(text[i])
  }

  function NotBlank(classes: Classes, pieces: seq<string>): seq<string> {
    if pieces == [] then []
    else (if Blank(classes, pieces[0]) then [] else [pieces[0]]) + NotBlank(classes, pieces[1..])
  }

  /** The pieces of a block that are not blank. */
  function Statements(classes: Classes, block: string): seq<string> {
    var cut := Cut(block);
    NotBlank(classes, if Blank(classes, cut.current) then cut.statements else cut.statements + [cut.current])
  }

  method SplitStatements(classes: Classes, block: string) returns (statements: seq<string>)
    ensures statements == Statements(classes, block)
  {
    var current, quote, escaped := "", None, false;
    var depth: nat := 0;
    var found: seq<string> := [];
    for i := 0 to |block|
      invariant Splitter(found, current, quote, escaped, depth) == Cut(block[..i])
    {
      var character := block[i];
      assert block[..i + 1][..i] == block[..i];
      current := current + [character];
      match quote {
        case Some(open) =>
          if escaped {
            escaped := false;
          } else if character == '\\' {
            escaped := true;
          } else if character == open {
            quote := None;
          }
        case None =>
          if character == '\'' || character == '"' {
            quote := Some(character);
          } else if character == '{' {
            depth := depth + 1;
          } else if character == '}' {
            depth := if depth == 0 then 0 else depth - 1;
          } else if character == ';' && depth == 0 {
            found := found + [current];
            current := "";
          }
      }
    }
    assert block[..|block|] == block;
    var blank := IsBlank(classes, current);
    if !blank {
      found := found + [current];
    }
    statements := KeepStatements(classes, found);
  }

  method IsBlank(classes: Classes, text: string) returns (blank: bool)
    ensures blank == Blank(classes, text)
  {
    for i := 0 to |text|
      invariant forall j :: 0 <= j < i ==> classes.whitespace(text[j])
    {
      if !classes.whitespace(text[i]) {
        return false;
      }
    }
    blank := true;
  }

  lemma NotBlankAhead(classes: Classes, kept: seq<string>, pieces: seq<string>, i: nat)
    requires i < |pieces|
    ensures kept + NotBlank(classes, pieces[i..])
         == (if Blank(classes, pieces[i]) then kept else kept + [pieces[i]]) + NotBlank(classes, pieces[i + 1..])
  {
    assert pieces[i..][0] == pieces[i] && pieces[i..][1..] == pieces[i + 1..];
  }

  method KeepStatements(classes: Classes, pieces: seq<string>) returns (kept: seq<string>)
    ensures kept == NotBlank(classes, pieces)
  {
    kept := [];
    for i := 0 to |pieces|
      invariant kept + NotBlank(classes, pieces[i..]) == NotBlank(classes, pieces)
    {
      NotBlankAhead(classes, kept, pieces, i);
      var blank := IsBlank(classes, pieces[i]);
      if !blank {
        kept := kept + [pieces[i]];
      }
    }
  }

  // ---------------------------------------------------------------- nothing is lost

  const PUNCTUATION: set<char> := {'\'', '"', '{', '}', ';', '-', '\\'}

  /** The punctuation the scanners look for is neither blank nor part of a word, and no word character is blank. */
  ghost predicate Sound(classes: Classes) {
    && (forall c :: classes.InWord(c) ==> !classes.whitespace(c))
    && (forall c :: c in PUNCTUATION ==> !classes.whitespace(c) && !classes.InWord(c))
  }

  lemma {:induction false} JoinedAppend(pieces: seq<string>, last: string)
    ensures Joined(pieces + [last]) == Joined(pieces) + last
  {
    if pieces == [] {
      assert pieces + [last] == [last];
      assert Joined([last]) == last + Joined([]);
    } else {
      assert (pieces + [last])[1..] == pieces[1..] + [last];
      JoinedAppend(pieces[1..], last);
    }
  }

  /** A piece the splitter would itself cut off as exactly one statement. */
  predicate OneStatement(piece: string) {
    piece != "" && piece[|piece| - 1] == ';' && Cut(piece) == UNCUT.(statements := [piece])
  }

  predicate AllOne(pieces: seq<string>) {
    forall i :: 0 <= i < |pieces| ==> OneStatement(pieces[i])
  }

  /** The splitter's pieces are whole statements, and what is left over reads on its own as it reads here. */
  predicate Faithful(p: Splitter) {
    AllOne(p.statements) && Cut(p.current) == p.(statements := []) && (p.escaped ==> p.quote.Some?)
  }

  lemma CutOneMore(text: string, c: char)
    ensures Cut(text + [c]) == SplitStep(Cut(text), c)
  {
    assert (text + [c])[..|text|] == text;
  }

  /** The character ends a statement. */
  predicate Ends(p: Splitter, c: char) {
    p.quote.None? && c == ';' && p.depth == 0
  }

  /** What a step does does not depend on the pieces already cut off. */
  lemma StepIgnoresStatements(p: Splitter, c: char)
    ensures SplitStep(p, c).statements == if Ends(p, c) then p.statements + [p.current + [c]] else p.statements
    ensures SplitStep(p.(statements := []), c)
         == SplitStep(p, c).(statements := if Ends(p, c) then [p.current + [c]] else [])
  {
  }

  lemma StepEnds(p: Splitter, c: char)
    requires Ends(p, c) && !p.escaped
    ensures SplitStep(p, c) == UNCUT.(statements := p.statements + [p.current + [c]])
  {
  }

  lemma GrownIsOneStatement(p: Splitter, c: char)
    requires Ends(p, c) && !p.escaped && Cut(p.current) == p.(statements := [])
    ensures OneStatement(p.current + [c])
  {
    CutOneMore(p.current, c);
    StepEnds(p.(statements := []), c);
  }

  lemma AllOneMore(pieces: seq<string>, piece: string)
    requires AllOne(pieces) && OneStatement(piece)
    ensures AllOne(pieces + [piece])
  {
  }

  lemma StepIsFaithful(p: Splitter, c: char)
    requires Faithful(p)
    ensures Faithful(SplitStep(p, c))
  {
    if Ends(p, c) {
      StepEnds(p, c);
      GrownIsOneStatement(p, c);
      AllOneMore(p.statements, p.current + [c]);
    } else {
      StepIgnoresStatements(p, c);
      CutOneMore(p.current, c);
    }
  }

  lemma StepKeepsText(p: Splitter, c: char)
    ensures Joined(SplitStep(p, c).statements) + SplitStep(p, c).current == Joined(p.statements) + p.current + [c]
  {
    var grown := p.current + [c];
    Associate(Joined(p.statements), p.current, [c]);
    StepIgnoresStatements(p, c);
    if Ends(p, c) {
      JoinedAppend(p.statements, grown);
      assert SplitStep(p, c).current == "";
    }
  }

  /** The pieces and what is left over are the text. */
  predicate CutHolds(text: string) {
    Joined(Cut(text).statements) + Cut(text).current == text
  }

  predicate CutIsFaithful(text: string) {
    Faithful(Cut(text))
  }

  lemma CutHoldsNext(text: string)
    requires text != "" && CutHolds(text[..|text| - 1])
    ensures CutHolds(text)
  {
    StepKeepsText(Cut(text[..|text| - 1]), text[|text| - 1]);
  }

  lemma CutIsFaithfulNext(text: string)
    requires text != "" && CutIsFaithful(text[..|text| - 1])
    ensures CutIsFaithful(text)
  {
    StepIsFaithful(Cut(text[..|text| - 1]), text[|text| - 1]);
  }

  lemma NothingIsCut()
    ensures CutHolds("") && CutIsFaithful("")
  {
  }

  lemma {:induction false} CutHoldsAll(text: string)
    ensures CutHolds(text) && CutIsFaithful(text)
  {
    if text == "" {
      NothingIsCut();
    } else {
      CutHoldsAll(text[..|text| - 1]);
      CutHoldsNext(text);
      CutIsFaithfulNext(text);
    }
  }

  /** Cut pieces are whole statements; together with what is left over they are the text. */
  lemma CutKeepsAll(text: string)
    ensures Joined(Cut(text).statements) + Cut(text).current == text
    ensures Faithful(Cut(text))
  {
    CutHoldsAll(text);
  }

  lemma {:induction false} NothingBlankNothingDropped(classes: Classes, pieces: seq<string>)
    requires forall i :: 0 <= i < |pieces| ==> !Blank(classes, pieces[i])
    ensures NotBlank(classes, pieces) == pieces
  {
    if pieces == [] {
    } else {
      NothingBlankNothingDropped(classes, pieces[1..]);
    }
  }

  /**
   * The statements joined back together are the block, but for blanks after the
   * last; and each of them but possibly the last is exactly one statement.
   */
  lemma StatementsRejoin(classes: Classes, block: string) returns (rest: string)
    requires Sound(classes)
    ensures Blank(classes, rest) && Joined(Statements(classes, block)) + rest == block
    ensures var found := Statements(classes, block);
            forall i :: 0 <= i < |found| - (if rest == "" then 1 else 0) ==> OneStatement(found[i])
  {
    var cut := Cut(block);
    CutKeepsAll(block);
    forall i | 0 <= i < |cut.statements|
      ensures !Blank(classes, cut.statements[i])
    {
      var piece := cut.statements[i];
      assert OneStatement(piece);
      assert piece[|piece| - 1] in PUNCTUATION;
    }
    if Blank(classes, cut.current) {
      rest := cut.current;
      NothingBlankNothingDropped(classes, cut.statements);
    } else {
      rest := "";
      NothingBlankNothingDropped(classes, cut.statements + [cut.current]);
      JoinedAppend(cut.statements, cut.current);
    }
  }
}
