/** Text somebody else chose, written into a statement as one literal. */
module Quoting {
  import opened Wrappers
  import opened Scanning
  import opened Splitting

  function Replace(text: string, c: char, with: string): string {
    if text == "" then "" else (if text[0] == c then with else [text[0]]) + Replace(text[1..], c, with)
  }

  /** Text made safe between single quotes: backslashes are doubled first, then quotes escaped. */
  function QuotedText(text: string): string {
    Replace(Replace(text, '\\', "\\\\"), '\'', "\\'")
  }

  function EscapeOne(c: char): string {
    if c == '\\' then "\\\\" else if c == '\'' then "\\'" else [c]
  }

  /** Each character escaped on its own, in one pass. */
  function Escape(text: string): string {
    if text == "" then "" else EscapeOne(text[0]) + Escape(text[1..])
  }

  datatype Lexed = Unterminated | InvalidEscape | Literal(value: string, used: nat)

  function Unescaped(c: char): Option<char> {
    if c == 'n' then Some('\n')
    else if c == 't' then Some('\t')
    else if c == 'r' then Some('\r')
    else if c == '0' then Some('\0')
    else if c == '\\' || c == '\'' || c == '"' then Some(c)
    else None
  }

  function Prepend(c: char, taken: nat, lexed: Lexed): Lexed {
    if lexed.Literal? then Literal([c] + lexed.value, lexed.used + taken) else lexed
  }

  /** The language's lexer, past the quote that opened a string. */
  function Lex(text: string, quote: char): Lexed
    decreases |text|
  {
    if text == "" then Unterminated
    else if text[0] == quote then Literal("", 1)
    else if text[0] != '\\' then Prepend(text[0], 1, Lex(text[1..], quote))
    else if |text| == 1 then Unterminated
    else match Unescaped(text[1])
      case None => InvalidEscape
      case Some(c) => Prepend(c, 2, Lex(text[2..], quote))
  }

  // ------------------------------------------------------------- one pass or two

  lemma {:induction false} ReplaceConcat(a: string, b: string, c: char, with: string)
    ensures Replace(a + b, c, with) == Replace(a, c, with) + Replace(b, c, with)
  {
    if a == "" {
      assert a + b == b;
    } else {
      assert (a + b)[1..] == a[1..] + b;
      ReplaceConcat(a[1..], b, c, with);
    }
  }

  /** The two replacements, in the order they are made, are one escape of each character. */
  lemma {:induction false} TwoPassesAreOne(text: string)
    ensures QuotedText(text) == Escape(text)
  {
    if text == "" {
    } else {
      var c := text[0];
      var first := if c == '\\' then "\\\\" else [c];
      TwoPassesAreOne(text[1..]);
      ReplaceConcat(first, Replace(text[1..], '\\', "\\\\"), '\'', "\\'");
      ReplaceFirst(c);
    }
  }

  lemma ReplaceFirst(c: char)
    ensures Replace(if c == '\\' then "\\\\" else [c], '\'', "\\'") == EscapeOne(c)
  {
    if c == '\\' {
      var s := "\\\\";
      assert s[1..] == "\\" && s[1..][1..] == "";
      assert Replace(s[1..], '\'', "\\'") == "\\" + Replace("", '\'', "\\'");
    } else {
      assert [c][1..] == "";
    }
  }

  // ------------------------------------------------------------ the literal it makes

  /** One escaped character is read as one. */
  lemma LexesOne(c: char, after: string)
    ensures Lex(EscapeOne(c) + after, '\'') == Prepend(c, |EscapeOne(c)|, Lex(after, '\''))
  {
    var s := EscapeOne(c) + after;
    assert s[|EscapeOne(c)|..] == after;
  }

  lemma {:induction false} EscapeLexes(text: string, rest: string)
    ensures Lex(Escape(text) + "'" + rest, '\'') == Literal(text, |Escape(text)| + 1)
  {
    if text == "" {
      assert Escape(text) + "'" + rest == "'" + rest;
    } else {
      var c := text[0];
      EscapeLexes(text[1..], rest);
      LexesOne(c, Escape(text[1..]) + "'" + rest);
      assert Escape(text) + "'" + rest == EscapeOne(c) + (Escape(text[1..]) + "'" + rest);
      assert text == [c] + text[1..];
    }
  }

  /** The literal lexes as one string, which is the text, and ends at the quote written after it. */
  lemma QuotedTextLexes(text: string, rest: string)
    ensures Lex(QuotedText(text) + "'" + rest, '\'') == Literal(text, |QuotedText(text)| + 1)
  {
    TwoPassesAreOne(text);
    EscapeLexes(text, rest);
  }

  // ---------------------------------------------------- the statement it stands in

  /** ASCII letters and digits are alphanumeric, and a space is neither that nor an underscore. */
  ghost predicate Ascii(classes: Classes) {
    && (forall c :: 'a' <= c <= 'z' || 'A' <= c <= 'Z' || '0' <= c <= '9' ==> classes.alphanumeric(c))
    && !classes.alphanumeric(' ')
  }

  predicate PlainCharacter(c: char) {
    'a' <= c <= 'z' || 'A' <= c <= 'Z' || '0' <= c <= '9' || c == '_'
  }

  /** Letters, digits and underscores, the first no digit. */
  predicate IsPlainName(name: string) {
    && name != "" && PlainCharacter(name[0]) && !('0' <= name[0] <= '9')
    && (forall i :: 1 <= i < |name| ==> PlainCharacter(name[i]))
  }

  /** Text with none of the characters a scanner stops at. */
  predicate Inert(text: string) {
    forall i :: 0 <= i < |text| ==> text[i] !in PUNCTUATION
  }

  predicate AllPlain(text: string) {
    forall i :: 0 <= i < |text| ==> PlainCharacter(text[i])
  }

  /** Inside a statement whose first word is past: nothing open, nothing closed. */
  predicate Inside(s: State) {
    && s.quote.None? && !s.escaped && !s.commented && !s.heldDash && !s.atStatementStart
    && !s.openTransaction && !s.closed && s.depth == 0
  }

  lemma InertStep(classes: Classes, s: State, c: char)
    requires Inside(s) && c !in PUNCTUATION
    ensures Inside(Step(classes, s, c))
  {
  }

  lemma {:induction false} InertKeepsInside(classes: Classes, s: State, text: string)
    requires Inside(s) && Inert(text)
    ensures Inside(Scanned(classes, s, text))
    decreases |text|
  {
    if text == "" {
    } else {
      InertStep(classes, s, text[0]);
      InertKeepsInside(classes, Step(classes, s, text[0]), text[1..]);
    }
  }

  /** At the start of the text, the first word being read and nothing else met. */
  predicate Opening(s: State, word: string) {
    s == Begun(UNFED).(substantial := word != "", tail := word != "", word := word)
  }

  lemma {:induction false} FirstWord(classes: Classes, s: State, read: string, word: string)
    requires Ascii(classes) && Opening(s, read) && AllPlain(word)
    ensures Opening(Scanned(classes, s, word), read + word)
    decreases |word|
  {
    if word == "" {
      assert read + word == read;
    } else {
      FirstWord(classes, Step(classes, s, word[0]), read + [word[0]], word[1..]);
      assert read + [word[0]] + word[1..] == read + word;
    }
  }

  lemma WordThenSpace(classes: Classes, word: string)
    requires Ascii(classes) && AllPlain(word) && word != "" && !Reads(word, BEGIN)
    ensures Inside(Scanned(classes, Begun(UNFED), word + " "))
  {
    FirstWord(classes, Begun(UNFED), "", word);
    assert "" + word == word;
    ScannedConcat(classes, Begun(UNFED), word, " ");
    var s := Scanned(classes, Begun(UNFED), word);
    assert Scanned(classes, s, " ") == Step(classes, s, ' ');
  }

  /** Inside a single-quoted literal, between two of its characters. */
  predicate InLiteral(s: State) {
    s.quote == Some('\'') && !s.escaped && !s.commented && !s.heldDash && s.word == ""
  }

  lemma EscapeOneStays(classes: Classes, s: State, c: char)
    requires InLiteral(s)
    ensures Scanned(classes, s, EscapeOne(c)) == s
  {
    var e := EscapeOne(c);
    if |e| == 2 {
      var mid := s.(escaped := true);
      assert e[1..] == [e[1]] && e[1..][1..] == "";
      assert Step(classes, s, e[0]) == mid && Step(classes, mid, e[1]) == s;
      assert Scanned(classes, mid, e[1..]) == Scanned(classes, s, "");
    } else {
      assert e[1..] == "";
    }
  }

  lemma {:induction false} EscapeStays(classes: Classes, s: State, text: string)
    requires InLiteral(s)
    ensures Scanned(classes, s, Escape(text)) == s
  {
    if text == "" {
    } else {
      EscapeOneStays(classes, s, text[0]);
      ScannedConcat(classes, s, EscapeOne(text[0]), Escape(text[1..]));
      EscapeStays(classes, s, text[1..]);
    }
  }

  /** A statement built around one quoted text: a first word, inert text, the literal and a semicolon. */
  function Built(word: string, inert: string, text: string): string {
    word + " " + inert + "'" + QuotedText(text) + "'" + ";"
  }

  lemma QuoteOpens(classes: Classes, s: State)
    requires Sound(classes) && Inside(s)
    ensures var open := Step(classes, s, '\''); InLiteral(open) && Inside(open.(quote := None))
  {
    assert '\'' in PUNCTUATION;
  }

  lemma QuoteCloses(classes: Classes, s: State)
    requires InLiteral(s) && Inside(s.(quote := None))
    ensures Inside(Scanned(classes, s, "'"))
  {
    assert Scanned(classes, s, "'") == Step(classes, s, '\'');
  }

  lemma LiteralKeepsInside(classes: Classes, s: State, text: string)
    requires Sound(classes) && Inside(s)
    ensures Inside(Scanned(classes, s, "'" + QuotedText(text) + "'"))
  {
    TwoPassesAreOne(text);
    var e, open := Escape(text), Step(classes, s, '\'');
    QuoteOpens(classes, s);
    EscapeStays(classes, open, text);
    QuoteCloses(classes, open);
    ScannedConcat(classes, open, e, "'");
    assert ("'" + e + "'")[1..] == e + "'";
  }

  lemma BodyStaysInside(classes: Classes, word: string, inert: string, text: string)
    requires Sound(classes) && Ascii(classes)
    requires AllPlain(word) && word != "" && !Reads(word, BEGIN) && Inert(inert)
    ensures Inside(Scanned(classes, Begun(UNFED), word + " " + inert + "'" + QuotedText(text) + "'"))
  {
    WordThenSpace(classes, word);
    InertThenLiteral(classes, Begun(UNFED), word + " ", inert, text);
    BodyParts(word + " " + inert, text);
  }

  lemma BodyParts(before: string, text: string)
    ensures before + "'" + QuotedText(text) + "'" == before + ("'" + QuotedText(text) + "'")
  {
  }

  lemma InertThenLiteral(classes: Classes, start: State, begun: string, inert: string, text: string)
    requires Sound(classes) && Inside(Scanned(classes, start, begun)) && Inert(inert)
    ensures Inside(Scanned(classes, start, begun + inert + ("'" + QuotedText(text) + "'")))
  {
    ScannedConcat(classes, start, begun, inert);
    InertKeepsInside(classes, Scanned(classes, start, begun), inert);
    ScannedConcat(classes, start, begun + inert, "'" + QuotedText(text) + "'");
    LiteralKeepsInside(classes, Scanned(classes, start, begun + inert), text);
  }

  lemma {:induction false} ClosedStays(classes: Classes, s: State, text: string)
    requires s.closed
    ensures Scanned(classes, s, text).closed
    decreases |text|
  {
    if text == "" {
    } else {
      ClosedStays(classes, Step(classes, s, text[0]), text[1..]);
    }
  }

  /** The text is one statement: it closes, with no transaction open, at its last character and not before. */
  ghost predicate IsOneClosedStatement(classes: Classes, text: string) {
    && Found(Fed(classes, UNFED, text)) == Scan(true, true, false)
    && (forall k :: 0 <= k < |text| ==> !Found(Fed(classes, UNFED, text[..k])).closed)
  }

  /** Whatever the text holds, the statement built around it is one closed statement. */
  lemma BuiltIsOneStatement(classes: Classes, word: string, inert: string, text: string)
    requires Sound(classes) && Ascii(classes)
    requires AllPlain(word) && word != "" && !Reads(word, BEGIN) && Inert(inert)
    ensures IsOneClosedStatement(classes, Built(word, inert, text))
  {
    var body := word + " " + inert + "'" + QuotedText(text) + "'";
    BodyStaysInside(classes, word, inert, text);
    InsideThenSemicolon(classes, body);
  }

  lemma InsideThenSemicolon(classes: Classes, body: string)
    requires Sound(classes) && Inside(Scanned(classes, Begun(UNFED), body))
    ensures IsOneClosedStatement(classes, body + ";")
  {
    var start := Begun(UNFED);
    var s := Scanned(classes, start, body);
    ScannedConcat(classes, start, body, ";");
    assert ';' in PUNCTUATION;
    assert Scanned(classes, s, ";") == Step(classes, s, ';');
    forall k | 0 <= k < |body + ";"|
      ensures !Found(Fed(classes, UNFED, (body + ";")[..k])).closed
    {
      assert (body + ";")[..k] == body[..k];
      assert body == body[..k] + body[k..];
      ScannedConcat(classes, start, body[..k], body[k..]);
      if Scanned(classes, start, body[..k]).closed {
        ClosedStays(classes, Scanned(classes, start, body[..k]), body[k..]);
      }
    }
  }

  /** The statement that declares a store's first user. */
  function FirstUser(name: string, password: string): string {
    Built("DEFINE", "USER " + name + " ROLE owner PASSWORD ", password)
  }

  /** The statement `.unseal` builds out of a passphrase. */
  function Unseal(passphrase: string): string {
    Built("UNSEAL", "VAULT WITH ", passphrase)
  }

  /** For every plain name and every password, declaring the first user is one closed statement. */
  lemma FirstUserIsOneStatement(classes: Classes, name: string, password: string)
    requires Sound(classes) && Ascii(classes) && IsPlainName(name)
    ensures IsOneClosedStatement(classes, FirstUser(name, password))
  {
    BuiltIsOneStatement(classes, "DEFINE", "USER " + name + " ROLE owner PASSWORD ", password);
  }

  lemma UnsealIsOneStatement(classes: Classes, passphrase: string)
    requires Sound(classes) && Ascii(classes)
    ensures IsOneClosedStatement(classes, Unseal(passphrase))
  {
    BuiltIsOneStatement(classes, "UNSEAL", "VAULT WITH ", passphrase);
  }
}
