/** Comments: to the scanner each is a single blank, so every text reads as the text without them. */
module Comments {
  import opened Wrappers
  import opened Scanning
  import opened Splitting
  import opened Transactions

  /** What stands after the first line end, or nothing. */
  function AfterLine(text: string): (r: string)
    ensures |r| <= |text|
  {
    if text == "" then "" else if text[0] == '\n' then text[1..] else AfterLine(text[1..])
  }

  /** Two dashes that nothing quotes. */
  predicate OpensComment(text: string, quote: Option<char>) {
    quote.None? && |text| > 1 && text[0] == '-' && text[1] == '-'
  }

  /** The quote open after a character, one being open or not before it. */
  function QuoteNext(quote: Option<char>, escaped: bool, c: char): Option<char> {
    match quote
    case None => QuoteAfter(c)
    case Some(open) => if !escaped && c == open && c != '\\' then None else quote
  }

  function EscapeNext(quote: Option<char>, escaped: bool, c: char): bool {
    quote.Some? && !escaped && c == '\\'
  }

  /** The text with each comment, to the end of its line, made one blank. */
  function Stripped(text: string, quote: Option<char>, escaped: bool): string
    decreases |text|
  {
    if text == "" then ""
    else if OpensComment(text, quote) then " " + Stripped(AfterLine(text[2..]), None, false)
    else [text[0]] + Stripped(text[1..], QuoteNext(quote, escaped, text[0]), EscapeNext(quote, escaped, text[0]))
  }

  function WithoutComments(text: string): string {
    Stripped(text, None, false)
  }

  // ------------------------------------------------------------- to the scanner

  /** Inside a comment everything is passed over to the end of the line. */
  lemma {:induction false} CommentIsSkipped(classes: Classes, s: State, text: string)
    requires s.commented && s.word == "" && !s.heldDash
    ensures Scanned(classes, s, text).(commented := false)
         == Scanned(classes, s.(commented := false), AfterLine(text)).(commented := false)
    decreases |text|
  {
    if text == "" {
    } else {
      assert Step(classes, s, text[0]) == s.(commented := text[0] != '\n');
      if text[0] != '\n' {
        CommentIsSkipped(classes, s, text[1..]);
      }
    }
  }

  /** Between characters of a text: outside a comment, and no dash held that the next would make one. */
  predicate Between(s: State, text: string) {
    && !s.commented && (s.escaped ==> s.quote.Some?)
    && (s.heldDash ==> s.quote.None? && (text == "" || text[0] != '-'))
  }

  lemma DashesOpenAComment(classes: Classes, s: State)
    requires Sound(classes) && classes.whitespace(' ')
    requires !s.commented && !s.escaped && s.quote.None? && !s.heldDash
    ensures var t := EndWord(classes, s, '-');
            && t.word == "" && Step(classes, s, ' ') == t
            && Step(classes, Step(classes, s, '-'), '-') == t.(commented := true)
  {
    BarriersAreNoWords(classes);
    assert EndWord(classes, s, ' ') == EndWord(classes, s, '-');
  }

  /** What a character that opens no comment makes of the quote and of what is held. */
  lemma StepBetween(classes: Classes, s: State, text: string)
    requires Between(s, text) && text != "" && !OpensComment(text, s.quote)
    ensures var next := Step(classes, s, text[0]);
            && next.quote == QuoteNext(s.quote, s.escaped, text[0])
            && next.escaped == EscapeNext(s.quote, s.escaped, text[0])
            && Between(next, text[1..])
  {
    var c, t := text[0], Settled(s);
    SettledStep(classes, s, c);
    if t.quote.Some? {
      ReadQuoted(classes, t, c);
    }
  }

  lemma {:induction false} StrippedScans(classes: Classes, s: State, text: string)
    requires Sound(classes) && classes.whitespace(' ') && Between(s, text)
    ensures Scanned(classes, s, text).(commented := false)
         == Scanned(classes, s, Stripped(text, s.quote, s.escaped))
    decreases |text|
  {
    if text == "" {
    } else if OpensComment(text, s.quote) {
      var t, rest := EndWord(classes, s, '-'), AfterLine(text[2..]);
      DashesOpenAComment(classes, s);
      ScannedTwo(classes, s, text);
      CommentIsSkipped(classes, t.(commented := true), text[2..]);
      StrippedScans(classes, t, rest);
      ScannedOne(classes, s, ' ', Stripped(rest, None, false));
    } else {
      StepBetween(classes, s, text);
      var next := Step(classes, s, text[0]);
      StrippedScans(classes, next, text[1..]);
      ScannedOne(classes, s, text[0], Stripped(text[1..], next.quote, next.escaped));
    }
  }

  lemma ScannedOne(classes: Classes, s: State, c: char, rest: string)
    ensures Scanned(classes, s, [c] + rest) == Scanned(classes, Step(classes, s, c), rest)
  {
    assert ([c] + rest)[1..] == rest;
  }

  lemma ScannedTwo(classes: Classes, s: State, text: string)
    requires |text| > 1
    ensures Scanned(classes, s, text) == Scanned(classes, Step(classes, Step(classes, s, text[0]), text[1]), text[2..])
  {
    assert text[1..][1..] == text[2..];
  }

  // ------------------------------------------------------------ nothing is left of them

  predicate EndsInDash(text: string) {
    text != "" && text[|text| - 1] == '-' && Cut(text[..|text| - 1]).quote.None?
  }

  lemma SplitQuotes(p: Splitter, c: char)
    requires p.escaped ==> p.quote.Some?
    ensures SplitStep(p, c).quote == QuoteNext(p.quote, p.escaped, c)
    ensures SplitStep(p, c).escaped == EscapeNext(p.quote, p.escaped, c)
  {
    if p.quote.Some? {
      SplitQuoted(p, c);
    } else if !Ends(p, c) {
      SplitPlain(p, c);
    }
  }

  lemma CutQuotes(done: string, c: char)
    requires Cut(done).escaped ==> Cut(done).quote.Some?
    ensures Cut(done + [c]).quote == QuoteNext(Cut(done).quote, Cut(done).escaped, c)
    ensures Cut(done + [c]).escaped == EscapeNext(Cut(done).quote, Cut(done).escaped, c)
    ensures EndsInDash(done + [c]) <==> c == '-' && Cut(done).quote.None?
  {
    CutOneMore(done, c);
    SplitQuotes(Cut(done), c);
    assert (done + [c])[..|done|] == done;
  }

  lemma {:induction false} StrippedHasNoComment(done: string, text: string)
    requires Uncommented(done) && (Cut(done).escaped ==> Cut(done).quote.Some?)
    requires EndsInDash(done) ==> text == "" || text[0] != '-'
    ensures Uncommented(done + Stripped(text, Cut(done).quote, Cut(done).escaped))
    decreases |text|
  {
    var p := Cut(done);
    if text == "" {
      assert done + "" == done;
    } else {
      var c := if OpensComment(text, p.quote) then ' ' else text[0];
      var rest := if OpensComment(text, p.quote) then AfterLine(text[2..]) else text[1..];
      UncommentedGrows(done, c);
      CutQuotes(done, c);
      StrippedHasNoComment(done + [c], rest);
      var left := Stripped(rest, Cut(done + [c]).quote, Cut(done + [c]).escaped);
      assert (done + [c]) + left == done + ([c] + left);
    }
  }

  /**
   * Every text says to the scanner exactly what it says without its comments,
   * and without them it holds no comment: no `;`, quote, brace or keyword inside
   * a comment is seen, and nothing outside one is missed.
   */
  lemma CommentsSayNothing(classes: Classes, text: string)
    requires Sound(classes) && classes.whitespace(' ')
    ensures Found(Fed(classes, UNFED, text)) == Found(Fed(classes, UNFED, WithoutComments(text)))
    ensures Uncommented(WithoutComments(text))
  {
    StrippedScans(classes, Begun(UNFED), text);
    StrippedHasNoComment("", text);
    assert "" + WithoutComments(text) == WithoutComments(text);
  }

  /**
   * What the scanner answers of any text at all, told from the pieces the
   * splitter cuts it into once its comments are gone.
   */
  lemma EveryTextIsUnderstood(classes: Classes, text: string)
    requires Sound(classes) && classes.whitespace(' ')
    ensures var found, bare := Found(Fed(classes, UNFED, text)), WithoutComments(text);
            && (found.substantial <==> !Blank(classes, bare))
            && (found.openTransaction <==> LeftOpen(classes, Pieces(bare)))
            && (found.closed <==>
                  && Cut(bare).statements != [] && Blank(classes, Cut(bare).current)
                  && !LeftOpen(classes, Cut(bare).statements))
  {
    CommentsSayNothing(classes, text);
    OpenIffLastMoveBegins(classes, WithoutComments(text));
    ScannerAgreesWithSplitter(classes, WithoutComments(text));
  }
}
