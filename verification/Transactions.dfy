/**
 * What the session's scanner says of a text that holds no comment, told from
 * the pieces the statement splitter cuts it into: when a statement is closed,
 * and when a transaction is open.
 */
module Transactions {
  import opened Wrappers
  import opened Lists
  import opened Scanning
  import opened Splitting

  // ------------------------------------------------------------------- first words

  /** Nothing of a word and no quote or brace before `i`. */
  predicate Lead(classes: Classes, piece: string, i: nat) {
    i <= |piece| && forall k :: 0 <= k < i ==> !classes.InWord(piece[k]) && !Barrier(piece[k])
  }

  predicate AllInWord(classes: Classes, piece: string, i: nat, j: nat) {
    i <= j <= |piece| && forall k :: i <= k < j ==> classes.InWord(piece[k])
  }

  /** The piece's first word, met before any quote or brace, stands from `i` to `j`. */
  predicate FirstWordAt(classes: Classes, piece: string, i: nat, j: nat) {
    && i < j <= |piece| && Lead(classes, piece, i) && AllInWord(classes, piece, i, j)
    && (j < |piece| ==> !classes.InWord(piece[j]))
  }

  /** The piece's first word is this keyword, in any case of letters. */
  ghost predicate Heads(classes: Classes, piece: string, keyword: string) {
    exists i: nat, j: nat :: FirstWordAt(classes, piece, i, j) && Reads(piece[i..j], keyword)
  }

  /** The piece's first word is one that moves a transaction boundary. */
  ghost predicate Moves(classes: Classes, piece: string) {
    Heads(classes, piece, "BEGIN") || Heads(classes, piece, "COMMIT") || Heads(classes, piece, "CANCEL")
  }

  /** The last of the pieces whose first word moves a transaction boundary has BEGIN. */
  ghost predicate LeftOpen(classes: Classes, pieces: seq<string>) {
    exists k: nat ::
      && k < |pieces| && Heads(classes, pieces[k], "BEGIN")
      && forall m :: k < m < |pieces| ==> !Moves(classes, pieces[m])
  }

  /** How far the look for a piece's first word has come. */
  datatype Look = Before | Within(word: string) | Past(word: string) {
    function Word(): string {
      if Before? then "" else word
    }

    function Next(classes: Classes, c: char): Look {
      match this
      case Before => if classes.InWord(c) then Within([c]) else if Barrier(c) then Past("") else Before
      case Within(word) => if classes.InWord(c) then Within(word + [c]) else Past(word)
      case Past(_) => this
    }
  }

  function LookIn(classes: Classes, piece: string): Look {
    if piece == "" then Before else LookIn(classes, piece[..|piece| - 1]).Next(classes, piece[|piece| - 1])
  }

  lemma LookOneMore(classes: Classes, piece: string, c: char)
    ensures LookIn(classes, piece + [c]) == LookIn(classes, piece).Next(classes, c)
  {
    assert (piece + [c])[..|piece|] == piece;
  }

  /** What the look has found, seen in the piece. */
  ghost predicate Tells(classes: Classes, look: Look, piece: string) {
    match look
    case Before => Lead(classes, piece, |piece|)
    case Within(word) =>
      && 0 < |word| <= |piece| && FirstWordAt(classes, piece, |piece| - |word|, |piece|)
      && word == piece[|piece| - |word|..]
    case Past(word) =>
      if word == "" then exists b: nat :: b < |piece| && Lead(classes, piece, b) && Barrier(piece[b])
      else exists i: nat, j: nat :: FirstWordAt(classes, piece, i, j) && j < |piece| && word == piece[i..j]
  }

  lemma LeadStays(classes: Classes, piece: string, c: char, i: nat)
    requires i <= |piece|
    ensures Lead(classes, piece + [c], i) <==> Lead(classes, piece, i)
  {
    assert forall k :: 0 <= k < |piece| ==> (piece + [c])[k] == piece[k];
  }

  lemma FirstWordStays(classes: Classes, piece: string, c: char, i: nat, j: nat)
    requires FirstWordAt(classes, piece, i, j) && (j < |piece| || !classes.InWord(c))
    ensures FirstWordAt(classes, piece + [c], i, j) && (piece + [c])[i..j] == piece[i..j]
  {
    assert forall k :: 0 <= k < |piece| ==> (piece + [c])[k] == piece[k];
  }

  lemma TellsOneMore(classes: Classes, look: Look, piece: string, c: char)
    requires Tells(classes, look, piece)
    ensures Tells(classes, look.Next(classes, c), piece + [c])
  {
    var more := piece + [c];
    assert more[|piece|] == c && forall k :: 0 <= k < |piece| ==> more[k] == piece[k];
    match look {
      case Before =>
        LeadStays(classes, piece, c, |piece|);
        assert classes.InWord(c) ==> more[|piece|..] == [c];
      case Within(word) =>
        var i := |piece| - |word|;
        if classes.InWord(c) {
          LeadStays(classes, piece, c, i);
          assert more[i..] == word + [c];
        } else {
          FirstWordStays(classes, piece, c, i, |piece|);
          assert piece[i..|piece|] == word;
        }
      case Past(word) =>
        PastTellsOn(classes, word, piece, c);
    }
  }

  lemma PastTellsOn(classes: Classes, word: string, piece: string, c: char)
    requires Tells(classes, Past(word), piece)
    ensures Tells(classes, Past(word), piece + [c])
  {
    if word == "" {
      var b: nat :| b < |piece| && Lead(classes, piece, b) && Barrier(piece[b]);
      LeadStays(classes, piece, c, b);
      assert (piece + [c])[b] == piece[b];
    } else {
      var i: nat, j: nat :| FirstWordAt(classes, piece, i, j) && j < |piece| && word == piece[i..j];
      FirstWordStays(classes, piece, c, i, j);
    }
  }

  lemma {:induction false} LookTells(classes: Classes, piece: string)
    ensures Tells(classes, LookIn(classes, piece), piece)
  {
    if piece == "" {
    } else {
      var init, c := piece[..|piece| - 1], piece[|piece| - 1];
      LookTells(classes, init);
      TellsOneMore(classes, LookIn(classes, init), init, c);
      assert init + [c] == piece;
    }
  }

  /** A piece has only one first word. */
  lemma OneFirstWord(classes: Classes, piece: string, i: nat, j: nat, k: nat, l: nat)
    requires FirstWordAt(classes, piece, i, j) && FirstWordAt(classes, piece, k, l)
    ensures i == k && j == l
  {
    assert classes.InWord(piece[i]) && classes.InWord(piece[k]);
  }

  /** The look's word is the piece's first word, if it has one. */
  lemma WordIsFirst(classes: Classes, piece: string, i: nat, j: nat)
    requires Sound(classes) && FirstWordAt(classes, piece, i, j)
    ensures LookIn(classes, piece).Word() == piece[i..j]
  {
    assert classes.InWord(piece[i]);
    BarriersAreNoWords(classes);
    LookTells(classes, piece);
    match LookIn(classes, piece) {
      case Before =>
      case Within(word) => OneFirstWord(classes, piece, i, j, |piece| - |word|, |piece|);
      case Past(word) =>
        if word == "" {
          assert false;
        } else {
          var k: nat, l: nat :| FirstWordAt(classes, piece, k, l) && l < |piece| && word == piece[k..l];
          OneFirstWord(classes, piece, i, j, k, l);
        }
    }
  }

  lemma HeadsIff(classes: Classes, piece: string, keyword: string)
    requires Sound(classes) && keyword != ""
    ensures Heads(classes, piece, keyword) <==> Reads(LookIn(classes, piece).Word(), keyword)
  {
    var look := LookIn(classes, piece);
    if i: nat, j: nat :| FirstWordAt(classes, piece, i, j) && Reads(piece[i..j], keyword) {
      WordIsFirst(classes, piece, i, j);
    }
    if Reads(look.Word(), keyword) {
      LookTells(classes, piece);
      if look.Within? {
        assert piece[|piece| - |look.word|..|piece|] == look.word;
      }
    }
  }

  lemma BarriersAreNoWords(classes: Classes)
    requires Sound(classes)
    ensures forall c :: Barrier(c) || c == ';' || c == '-' ==> c in PUNCTUATION && !classes.InWord(c) && !classes.whitespace(c)
  {
  }

  // ------------------------------------------------------------ what is left open

  /** Whether a transaction is open after the pieces, a piece at a time. */
  function Open(classes: Classes, pieces: seq<string>): bool {
    pieces != [] && Boundary(LookIn(classes, pieces[|pieces| - 1]).Word(), Open(classes, pieces[..|pieces| - 1]))
  }

  lemma OpenOneMore(classes: Classes, pieces: seq<string>, piece: string)
    ensures Open(classes, pieces + [piece]) == Boundary(LookIn(classes, piece).Word(), Open(classes, pieces))
  {
    assert (pieces + [piece])[..|pieces|] == pieces;
  }

  /** One more piece: BEGIN leaves a transaction open, COMMIT and CANCEL none, any other changes nothing. */
  lemma LeftOpenOneMore(classes: Classes, pieces: seq<string>, piece: string)
    ensures LeftOpen(classes, pieces + [piece])
       <==> Heads(classes, piece, "BEGIN") || (LeftOpen(classes, pieces) && !Moves(classes, piece))
  {
    var more := pieces + [piece];
    assert more[|pieces|] == piece && forall m :: 0 <= m < |pieces| ==> more[m] == pieces[m];
    if LeftOpen(classes, more) && !Heads(classes, piece, "BEGIN") {
      var k: nat :| k < |more| && Heads(classes, more[k], "BEGIN") && forall m :: k < m < |more| ==> !Moves(classes, more[m]);
      assert k < |pieces| && !Moves(classes, more[|pieces|]);
      assert forall m :: k < m < |pieces| ==> !Moves(classes, more[m]);
    }
    if LeftOpen(classes, pieces) && !Moves(classes, piece) {
      var k: nat :| k < |pieces| && Heads(classes, pieces[k], "BEGIN") && forall m :: k < m < |pieces| ==> !Moves(classes, pieces[m]);
      assert Heads(classes, more[k], "BEGIN");
    }
    if Heads(classes, piece, "BEGIN") {
      assert Heads(classes, more[|pieces|], "BEGIN");
    }
  }

  lemma {:induction false} OpenIffLeftOpen(classes: Classes, pieces: seq<string>)
    requires Sound(classes)
    ensures Open(classes, pieces) <==> LeftOpen(classes, pieces)
  {
    if pieces == [] {
    } else {
      var init, last := pieces[..|pieces| - 1], pieces[|pieces| - 1];
      OpenIffLeftOpen(classes, init);
      LeftOpenOneMore(classes, init, last);
      assert init + [last] == pieces;
      HeadsIff(classes, last, "BEGIN");
      HeadsIff(classes, last, "COMMIT");
      HeadsIff(classes, last, "CANCEL");
    }
  }

  // ------------------------------------------------------- the two answers are one

  /** What the part of a statement read so far makes of the transaction, once its first word has ended. */
  function OpenBy(look: Look, open: bool): bool {
    if look.Past? then Boundary(look.word, open) else open
  }

  /** Where the scanner is in its look for the first word, and what it makes of it. */
  predicate Follows(s: State, look: Look, open: bool) {
    && s.atStatementStart == !look.Past?
    && (s.atStatementStart ==> s.word == look.Word()) && (look.Within? ==> look.word != "")
    && s.openTransaction == OpenBy(look, open)
    && (s.quote.Some? ==> look.Past?)
    && (s.quote.Some? || s.heldDash ==> s.word == "")
  }

  /** The scanner's state says of a text what the splitter's says, a transaction being open or not after its statements. */
  predicate Agree(classes: Classes, s: State, p: Splitter, open: bool) {
    && s.quote == p.quote && s.escaped == p.escaped && s.depth == p.depth
    && !s.commented
    && (s.closed ==> p.statements != []) && (p.statements != [] && !open ==> s.closed)
    && (s.tail || s.heldDash <==> !Blank(classes, p.current) || open)
    && (s.heldDash ==> s.quote.None?)
    && (s.escaped ==> s.quote.Some?)
    && (s.quote.Some? ==> s.tail)
  }

  /** Whether a transaction is open after the statements once the splitter has read `c`. */
  function OpenNext(p: Splitter, look: Look, open: bool, c: char): bool {
    if Ends(p, c) then Boundary(look.Word(), open) else open
  }

  function LookNext(classes: Classes, p: Splitter, look: Look, c: char): Look {
    if Ends(p, c) then Before else look.Next(classes, c)
  }

  lemma BlankGrows(classes: Classes, text: string, c: char)
    ensures Blank(classes, text + [c]) <==> Blank(classes, text) && classes.whitespace(c)
  {
    if Blank(classes, text + [c]) {
      assert (text + [c])[|text|] == c;
      assert forall i :: 0 <= i < |text| ==> (text + [c])[i] == text[i];
    }
  }

  /** A comment starts at `i`: two dashes that no quote holds. */
  predicate CommentAt(text: string, i: nat) {
    i + 1 < |text| && text[i] == '-' && text[i + 1] == '-' && Cut(text[..i]).quote.None?
  }

  predicate Uncommented(text: string) {
    forall i: nat :: i < |text| ==> !CommentAt(text, i)
  }

  lemma UncommentedGrows(text: string, c: char)
    ensures Uncommented(text + [c])
       <==> Uncommented(text) && !(c == '-' && text != "" && text[|text| - 1] == '-' && Cut(text[..|text| - 1]).quote.None?)
  {
    var more := text + [c];
    forall i: nat | i < |text|
      ensures more[..i] == text[..i] && more[i] == text[i]
    {
    }
    if text != "" {
      assert CommentAt(more, |text| - 1)
        <==> c == '-' && text[|text| - 1] == '-' && Cut(text[..|text| - 1]).quote.None?;
    }
    if Uncommented(text) {
      forall i: nat | i < |more| && i != |text| - 1
        ensures !CommentAt(more, i)
      {
        assert i < |text| ==> !CommentAt(text, i);
      }
    }
    if Uncommented(more) {
      forall i: nat | i < |text|
        ensures !CommentAt(text, i)
      {
        assert !CommentAt(more, i);
      }
    }
  }

  lemma NoWordSaysNothing(open: bool)
    ensures Boundary("", open) == open
  {
  }

  /** What a character outside quotes and comments makes of the first word. */
  lemma EndWordFollows(classes: Classes, s: State, look: Look, open: bool, c: char)
    requires Follows(s, look, open) && s.quote.None?
    ensures var e := EndWord(classes, s, c);
            && e.openTransaction == OpenBy(look.Next(classes, c), open)
            && e.atStatementStart == (!look.Past? && (classes.InWord(c) || look.Before?))
  {
    NoWordSaysNothing(open);
  }

  /** Outside quotes, a character that is neither a dash nor the end of a statement. */
  lemma PlainFollows(classes: Classes, s: State, p: Splitter, look: Look, open: bool, c: char)
    requires Sound(classes) && Follows(s, look, open) && s.quote == p.quote == None && s.depth == p.depth
    requires !s.heldDash && c != '-' && !Ends(p, c)
    ensures Follows(Plain(classes, EndWord(classes, s, c), c), look.Next(classes, c), open)
  {
    BarriersAreNoWords(classes);
    EndWordFollows(classes, s, look, open, c);
  }

  lemma EndFollows(classes: Classes, s: State, p: Splitter, look: Look, open: bool, c: char)
    requires Sound(classes) && Follows(s, look, open) && s.quote == p.quote == None && s.depth == p.depth
    requires !s.heldDash && Ends(p, c)
    ensures EndWord(classes, s, c).openTransaction == Boundary(look.Word(), open)
    ensures Follows(Plain(classes, EndWord(classes, s, c), c), Before, Boundary(look.Word(), open))
  {
    BarriersAreNoWords(classes);
    EndWordFollows(classes, s, look, open, c);
    NoWordSaysNothing(open);
  }

  lemma DashFollows(classes: Classes, s: State, look: Look, open: bool)
    requires Sound(classes) && Follows(s, look, open) && s.quote.None? && !s.heldDash
    ensures Follows(EndWord(classes, s, '-').(heldDash := true), look.Next(classes, '-'), open)
  {
    BarriersAreNoWords(classes);
    EndWordFollows(classes, s, look, open, '-');
  }

  lemma QuotedFollows(classes: Classes, s: State, look: Look, open: bool, c: char)
    requires Follows(s, look, open) && s.quote.Some? && !s.heldDash && !s.commented
    ensures Follows(Read(classes, s, c), look.Next(classes, c), open)
  {
  }

  /** What a character makes of the first word, whatever it is. */
  lemma ReadFollows(classes: Classes, s: State, p: Splitter, look: Look, open: bool, c: char)
    requires Sound(classes) && Follows(s, look, open) && Agree(classes, s, p, open) && !s.heldDash
    ensures Follows(Read(classes, s, c), LookNext(classes, p, look, c), OpenNext(p, look, open, c))
  {
    if s.quote.Some? {
      QuotedFollows(classes, s, look, open, c);
    } else if c == '-' {
      DashFollows(classes, s, look, open);
    } else if Ends(p, c) {
      EndFollows(classes, s, p, look, open, c);
    } else {
      PlainFollows(classes, s, p, look, open, c);
    }
  }

  /** What a character inside quotes makes of the quote, the escape and the depth, in the scanner and in the splitter. */
  predicate QuotedTo(quote: Option<char>, escaped: bool, c: char, nextQuote: Option<char>, nextEscaped: bool) {
    && nextQuote == (if !escaped && quote == Some(c) && c != '\\' then None else quote)
    && nextEscaped == (!escaped && c == '\\')
  }

  lemma SplitQuoted(p: Splitter, c: char)
    requires p.quote.Some?
    ensures var q := SplitStep(p, c);
            && QuotedTo(p.quote, p.escaped, c, q.quote, q.escaped) && q.depth == p.depth
            && q.statements == p.statements && q.current == p.current + [c]
  {
  }

  lemma ReadQuoted(classes: Classes, s: State, c: char)
    requires s.quote.Some? && !s.heldDash && !s.commented
    ensures var r := Read(classes, s, c);
            && QuotedTo(s.quote, s.escaped, c, r.quote, r.escaped) && r.depth == s.depth
            && r.closed == s.closed && r.tail == s.tail && r.substantial == s.substantial && !r.heldDash && !r.commented
  {
    var e := EndWord(classes, s, c);
    assert e.closed == s.closed && e.tail == s.tail && e.substantial == s.substantial;
    if !s.escaped {
      assert Read(classes, s, c) == Quoted(e, c);
    }
  }

  lemma QuotedAgrees(classes: Classes, s: State, p: Splitter, open: bool, c: char)
    requires Agree(classes, s, p, open) && !s.heldDash && s.quote.Some?
    ensures Agree(classes, Read(classes, s, c), SplitStep(p, c), open)
  {
    SplitQuoted(p, c);
    ReadQuoted(classes, s, c);
    BlankGrows(classes, p.current, c);
  }

  function QuoteAfter(c: char): Option<char> {
    if c == '\'' || c == '"' then Some(c) else None
  }

  function DepthAfter(depth: nat, c: char): nat {
    if c == '{' then depth + 1 else if c == '}' && depth > 0 then depth - 1 else depth
  }

  lemma SplitPlain(p: Splitter, c: char)
    requires p.quote.None? && !Ends(p, c)
    ensures var q := SplitStep(p, c);
            && q.quote == QuoteAfter(c) && q.depth == DepthAfter(p.depth, c) && q.escaped == p.escaped
            && q.statements == p.statements && q.current == p.current + [c]
  {
  }

  lemma PlainMarks(classes: Classes, s: State, c: char)
    requires c != '-' && !(c == ';' && s.depth == 0)
    requires classes.whitespace(c) ==> !classes.InWord(c) && !Barrier(c) && c != ';'
    ensures var r := Plain(classes, s, c);
            && r.closed == s.closed && r.tail == (s.tail || !classes.whitespace(c))
            && r.substantial == (s.substantial || !classes.whitespace(c))
  {
    if classes.whitespace(c) {
      assert Plain(classes, s, c) == s;
    }
  }

  lemma PlainAgrees(classes: Classes, s: State, p: Splitter, open: bool, c: char)
    requires Sound(classes) && Agree(classes, s, p, open) && !s.heldDash && s.quote.None? && c != '-' && !Ends(p, c)
    ensures Agree(classes, Plain(classes, s, c), SplitStep(p, c), open)
  {
    SplitPlain(p, c);
    BarriersAreNoWords(classes);
    PlainMarks(classes, s, c);
    BlankGrows(classes, p.current, c);
  }

  /** A top-level `;` closes exactly when no transaction is then open. */
  lemma EndAgrees(classes: Classes, s: State, p: Splitter, open: bool, c: char)
    requires Agree(classes, s, p, open) && !s.heldDash && Ends(p, c) && (s.openTransaction ==> s.tail)
    ensures Agree(classes, Plain(classes, s, c), SplitStep(p, c), s.openTransaction)
  {
    assert SplitStep(p, c).current == "";
  }

  lemma DashAgrees(classes: Classes, s: State, p: Splitter, open: bool)
    requires Sound(classes) && Agree(classes, s, p, open) && !s.heldDash && s.quote.None?
    ensures Agree(classes, s.(heldDash := true), SplitStep(p, '-'), open)
  {
    BlankGrows(classes, p.current, '-');
    BarriersAreNoWords(classes);
  }

  lemma ReadAgrees(classes: Classes, s: State, p: Splitter, look: Look, open: bool, c: char)
    requires Sound(classes) && Follows(s, look, open) && Agree(classes, s, p, open) && !s.heldDash
    requires look.Before? || !Blank(classes, p.current)
    ensures Agree(classes, Read(classes, s, c), SplitStep(p, c), OpenNext(p, look, open, c))
  {
    var e := EndWord(classes, s, c);
    if s.quote.Some? {
      QuotedAgrees(classes, s, p, open, c);
    } else {
      assert Agree(classes, e, p, open);
      if c == '-' {
        DashAgrees(classes, e, p, open);
      } else if Ends(p, c) {
        EndFollows(classes, s, p, look, open, c);
        NoWordSaysNothing(open);
        EndAgrees(classes, e, p, open, c);
      } else {
        PlainAgrees(classes, e, p, open, c);
      }
    }
  }

  // ----------------------------------------------------------- over a whole text

  /** A dash is held exactly when the text ends in one that no quote holds. */
  predicate HoldsDash(s: State, text: string) {
    s.heldDash <==> text != "" && text[|text| - 1] == '-' && Cut(text[..|text| - 1]).quote.None?
  }

  /** Anything but blanks was met. */
  predicate Weighs(classes: Classes, s: State, text: string) {
    && (s.substantial || s.heldDash <==> !Blank(classes, text))
    && (s.quote.Some? ==> s.substantial)
  }

  /** The scanner and the splitter after a text that holds no comment. */
  predicate InStep(classes: Classes, s: State, text: string) {
    var p := Cut(text);
    var look, open := LookIn(classes, p.current), Open(classes, p.statements);
    Agree(classes, s, p, open) && Follows(s, look, open) && HoldsDash(s, text) && Weighs(classes, s, text)
  }

  lemma {:induction false} BlankLooksNowhere(classes: Classes, piece: string)
    requires Sound(classes) && Blank(classes, piece)
    ensures LookIn(classes, piece).Before?
  {
    if piece == "" {
    } else {
      BarriersAreNoWords(classes);
      var init, c := piece[..|piece| - 1], piece[|piece| - 1];
      BlankLooksNowhere(classes, init);
      assert classes.whitespace(c);
    }
  }

  lemma EndingLook(classes: Classes, look: Look, c: char)
    requires !classes.InWord(c)
    ensures look.Next(classes, c).Word() == look.Word()
  {
  }

  lemma SplitNext(classes: Classes, p: Splitter, c: char)
    requires Sound(classes)
    ensures var q := SplitStep(p, c);
            var look, open := LookIn(classes, p.current), Open(classes, p.statements);
            && LookIn(classes, q.current) == LookNext(classes, p, look, c)
            && Open(classes, q.statements) == OpenNext(p, look, open, c)
  {
    SplitParts(p, c);
    if Ends(p, c) {
      BarriersAreNoWords(classes);
      LookOneMore(classes, p.current, c);
      EndingLook(classes, LookIn(classes, p.current), c);
      OpenOneMore(classes, p.statements, p.current + [c]);
    } else {
      LookOneMore(classes, p.current, c);
    }
  }

  lemma SplitParts(p: Splitter, c: char)
    ensures SplitStep(p, c).current == if Ends(p, c) then "" else p.current + [c]
    ensures SplitStep(p, c).statements == if Ends(p, c) then p.statements + [p.current + [c]] else p.statements
  {
  }

  lemma ReadWeighs(classes: Classes, s: State, text: string, c: char)
    requires Sound(classes) && Weighs(classes, s, text) && !s.heldDash && !s.commented && (s.escaped ==> s.quote.Some?)
    ensures Weighs(classes, Read(classes, s, c), text + [c])
  {
    BlankGrows(classes, text, c);
    BarriersAreNoWords(classes);
    if s.quote.Some? {
      ReadQuoted(classes, s, c);
    } else if c != '-' && !(c == ';' && s.depth == 0) {
      PlainMarks(classes, EndWord(classes, s, c), c);
    }
  }

  /** The state in which a character is read: a held dash has turned out to be one. */
  function Settled(s: State): State {
    if s.heldDash then Marked(s).(heldDash := false) else s
  }

  lemma SettledStep(classes: Classes, s: State, c: char)
    requires !(s.heldDash && c == '-')
    ensures Step(classes, s, c) == Read(classes, Settled(s), c)
  {
  }

  lemma SettledInStep(classes: Classes, s: State, text: string)
    requires InStep(classes, s, text)
    ensures var p := Cut(text);
            var look, open := LookIn(classes, p.current), Open(classes, p.statements);
            Agree(classes, Settled(s), p, open) && Follows(Settled(s), look, open) && Weighs(classes, Settled(s), text)
  {
  }

  lemma DashIsHeld(classes: Classes, s: State, p: Splitter, c: char)
    requires Sound(classes) && s.quote == p.quote && !s.heldDash && !s.commented && (s.escaped ==> s.quote.Some?)
    ensures Read(classes, s, c).heldDash <==> c == '-' && p.quote.None?
  {
  }

  /** One character further, no comment starting there. */
  lemma StepInStep(classes: Classes, s: State, text: string, c: char)
    requires Sound(classes) && InStep(classes, s, text) && !(s.heldDash && c == '-')
    ensures InStep(classes, Step(classes, s, c), text + [c])
  {
    var p, t := Cut(text), Settled(s);
    var look, open := LookIn(classes, p.current), Open(classes, p.statements);
    CutOneMore(text, c);
    SettledInStep(classes, s, text);
    SettledStep(classes, s, c);
    if Blank(classes, p.current) {
      BlankLooksNowhere(classes, p.current);
    }
    ReadAgrees(classes, t, p, look, open, c);
    ReadFollows(classes, t, p, look, open, c);
    ReadWeighs(classes, t, text, c);
    DashIsHeld(classes, t, p, c);
    SplitNext(classes, p, c);
    assert (text + [c])[..|text|] == text;
  }

  /** No comment is open after any character of the text. */
  predicate NeverCommented(classes: Classes, s: State, text: string)
    decreases |text|
  {
    text == "" || (var next := Step(classes, s, text[0]); !next.commented && NeverCommented(classes, next, text[1..]))
  }

  lemma {:induction false} CommentedStays(text: string, rest: string)
    requires !Uncommented(text)
    ensures !Uncommented(text + rest)
    decreases |rest|
  {
    if rest == "" {
      assert text + rest == text;
    } else {
      UncommentedGrows(text, rest[0]);
      CommentedStays(text + [rest[0]], rest[1..]);
      assert (text + [rest[0]]) + rest[1..] == text + rest;
    }
  }

  lemma {:induction false} ScansInStep(classes: Classes, s: State, done: string, text: string)
    requires Sound(classes) && InStep(classes, s, done) && Uncommented(done)
    ensures NeverCommented(classes, s, text) <==> Uncommented(done + text)
    ensures Uncommented(done + text) ==> InStep(classes, Scanned(classes, s, text), done + text)
    decreases |text|
  {
    if text == "" {
      assert done + text == done;
    } else {
      var c, more := text[0], done + [text[0]];
      UncommentedGrows(done, c);
      assert more + text[1..] == done + text;
      if s.heldDash && c == '-' {
        CommentedStays(more, text[1..]);
      } else {
        StepInStep(classes, s, done, c);
        ScansInStep(classes, Step(classes, s, c), more, text[1..]);
      }
    }
  }

  lemma NothingReadIsInStep(classes: Classes)
    ensures InStep(classes, Begun(UNFED), "") && Uncommented("")
  {
    assert Cut("") == UNCUT && LookIn(classes, "") == Before && !Open(classes, []);
  }

  /** The scanner opens no comment over a text exactly when the text holds no `--` outside quotes. */
  lemma NeverCommentedIffUncommented(classes: Classes, text: string)
    requires Sound(classes)
    ensures NeverCommented(classes, Begun(UNFED), text) <==> Uncommented(text)
    ensures Uncommented(text) ==> InStep(classes, Fed(classes, UNFED, text), text)
  {
    NothingReadIsInStep(classes);
    ScansInStep(classes, Begun(UNFED), "", text);
    assert "" + text == text;
  }

  /** The splitter's pieces, the unfinished one with them. */
  function Pieces(text: string): seq<string> {
    Cut(text).statements + [Cut(text).current]
  }

  lemma FoundOpen(classes: Classes, s: State, text: string)
    requires InStep(classes, s, text)
    ensures Found(s).openTransaction == Open(classes, Pieces(text))
  {
    var p := Cut(text);
    OpenOneMore(classes, p.statements, p.current);
    NoWordSaysNothing(Open(classes, p.statements));
  }

  /**
   * On text that holds no comment, a transaction is open exactly when the last
   * of the splitter's pieces whose first word is BEGIN, COMMIT or CANCEL has
   * BEGIN: a field or a string of that name is no first word, and a word still
   * being typed counts as it stands.
   */
  lemma OpenIffLastMoveBegins(classes: Classes, text: string)
    requires Sound(classes) && Uncommented(text)
    ensures Found(Fed(classes, UNFED, text)).openTransaction <==> LeftOpen(classes, Pieces(text))
  {
    NeverCommentedIffUncommented(classes, text);
    FoundOpen(classes, Fed(classes, UNFED, text), text);
    OpenIffLeftOpen(classes, Pieces(text));
  }

  /**
   * On such a text a statement is closed exactly when the splitter stands after
   * a top-level `;` with nothing but blanks since and no transaction is open
   * after the statements before it; and there is something in the text exactly
   * when it is not blank.
   */
  lemma ScannerAgreesWithSplitter(classes: Classes, text: string)
    requires Sound(classes) && Uncommented(text)
    ensures Found(Fed(classes, UNFED, text)).closed
       <==> && Cut(text).statements != [] && Blank(classes, Cut(text).current)
            && !LeftOpen(classes, Cut(text).statements)
    ensures Found(Fed(classes, UNFED, text)).substantial <==> !Blank(classes, text)
  {
    NeverCommentedIffUncommented(classes, text);
    OpenIffLeftOpen(classes, Cut(text).statements);
  }
}
