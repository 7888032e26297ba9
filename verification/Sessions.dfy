/** Reading statements a line at a time and handing them over whole. */
module Sessions {
  import opened Lists
  import opened Scanning
  import opened Splitting
  import opened Quoting

  datatype Mode = Interactive | Script

  /** What a reader produced. */
  datatype Given = Line(text: string) | Abandon | Ended

  /** What a dot-command stands for. */
  datatype Command = Statement(text: string) | Leave | Other

  /** What a session did, in order. */
  datatype Act =
    | Took(line: string)
    | Submitted(script: string)
    | Dropped(text: string)
    | Asked(statement: string)
    | HandedOver(text: string)

  /** Everything a session is run against: the character classes, the dot-commands, and each script's fate. */
  datatype Setting = Setting(
    classes: Classes,
    command: string -> Command,
    accepts: nat -> bool,
    mode: Mode)

  datatype Session = Session(
    pending: string,
    scan: State,
    secret: bool,
    log: seq<Act>,
    runs: nat,
    refused: bool,
    over: bool)

  const OPENED: Session := Session("", UNFED, false, [], 0, false, false)

  function TrimStart(classes: Classes, text: string): string {
    if text != "" && classes.whitespace(text[0]) then TrimStart(classes, text[1..]) else text
  }

  function TrimEnd(classes: Classes, text: string): string {
    if text != "" && classes.whitespace(text[|text| - 1]) then TrimEnd(classes, text[..|text| - 1]) else text
  }

  function Trim(classes: Classes, text: string): string {
    TrimEnd(classes, TrimStart(classes, text))
  }

  function WithoutLineEnd(text: string): string {
    if text != "" && text[|text| - 1] in {'\r', '\n'} then WithoutLineEnd(text[..|text| - 1]) else text
  }

  /** Hand a script to the store, unless there is nothing in it. */
  function Hand(setting: Setting, s: Session, act: Act, script: string): Session {
    if Blank(setting.classes, script) then s
    else
      var accepted := setting.accepts(s.runs);
      s.(log := s.log + [act], runs := s.runs + 1,
         refused := s.refused || !accepted,
         over := s.over || (!accepted && setting.mode.Script?))
  }

  predicate IsCommand(setting: Setting, s: Session, line: string) {
    var trimmed := Trim(setting.classes, line);
    s.pending == "" && trimmed != "" && trimmed[0] == '.'
  }

  function RunCommand(setting: Setting, s: Session, trimmed: string): Session {
    if trimmed == ".unseal" then s.(secret := true)
    else match setting.command(trimmed)
      case Statement(text) => Hand(setting, s, Asked(text), text)
      case Leave => s.(over := true)
      case Other => s
  }

  function TakeLine(setting: Setting, s: Session, line: string): Session {
    var grown := s.(pending := s.pending + line, scan := Fed(setting.classes, s.scan, line), log := s.log + [Took(line)]);
    var found := Found(grown.scan);
    if !found.closed || found.openTransaction then grown
    else Hand(setting, grown.(pending := "", scan := UNFED), Submitted(grown.pending), grown.pending)
  }

  function TakeSecret(setting: Setting, s: Session, text: string): Session {
    var held := WithoutLineEnd(text);
    var done := s.(secret := false);
    if held == "" then done else Hand(setting, done, Asked(Unseal(held)), Unseal(held))
  }

  /** One turn of the session's loop. */
  function Turn(setting: Setting, s: Session, given: Given): Session {
    match given
    case Ended => s.(over := true)
    case Abandon => if s.secret then s.(secret := false) else s.(pending := "", scan := UNFED, log := s.log + [Dropped(s.pending)])
    case Line(text) =>
      if s.secret then TakeSecret(setting, s, text)
      else if IsCommand(setting, s, text) then RunCommand(setting, s, Trim(setting.classes, text))
      else TakeLine(setting, s, text)
  }

  function Turns(setting: Setting, s: Session, inputs: seq<Given>): Session
    decreases |inputs|
  {
    if inputs == [] || s.over then s else Turns(setting, Turn(setting, s, inputs[0]), inputs[1..])
  }

  /**
   * What becomes of text left when the lines end: with a transaction open it is
   * handed over for the store to discard, otherwise anything in it is an error.
   * A script's first refusal has ended the session before this.
   */
  function Finish(setting: Setting, s: Session): Session {
    var found := Found(s.scan);
    if s.refused && setting.mode.Script? then s
    else if found.openTransaction then
      s.(pending := "", scan := UNFED, log := s.log + [HandedOver(s.pending)], runs := s.runs + 1,
         refused := s.refused || !setting.accepts(s.runs))
    else if found.substantial then s.(refused := true)
    else s
  }

  /** The session's loop, over the lines its reader will give. */
  method Run(setting: Setting, inputs: seq<Given>) returns (s: Session)
    ensures s == Finish(setting, Turns(setting, OPENED, inputs))
  {
    s := OPENED;
    var scanner := new Scanner(setting.classes);
    var i := 0;
    while i < |inputs| && !s.over
      invariant 0 <= i <= |inputs| && fresh(scanner) && scanner.classes == setting.classes
      invariant s.scan == scanner.state
      invariant Turns(setting, s, inputs[i..]) == Turns(setting, OPENED, inputs)
    {
      s := TakeTurn(setting, s, scanner, inputs[i]);
      if s.scan == UNFED {
        scanner := new Scanner(setting.classes);
      }
      assert inputs[i..][1..] == inputs[i + 1..];
      i := i + 1;
    }
    if s.refused && setting.mode.Script? {
      return;
    }
    var remainder := Found(scanner.state);
    if remainder.openTransaction {
      var accepted := setting.accepts(s.runs);
      s := s.(pending := "", scan := UNFED, log := s.log + [HandedOver(s.pending)], runs := s.runs + 1,
              refused := s.refused || !accepted);
    } else if remainder.substantial {
      s := s.(refused := true);
    }
  }

  /** One turn: the line goes to the scanner unless it is a secret or a command. */
  method TakeTurn(setting: Setting, s: Session, scanner: Scanner, given: Given) returns (next: Session)
    requires s.scan == scanner.state && scanner.classes == setting.classes
    modifies scanner
    ensures next == Turn(setting, s, given)
    ensures next.scan == scanner.state || next.scan == UNFED
  {
    match given {
      case Ended =>
        next := s.(over := true);
      case Abandon =>
        if s.secret {
          next := s.(secret := false);
        } else {
          next := s.(pending := "", scan := UNFED, log := s.log + [Dropped(s.pending)]);
        }
      case Line(text) =>
        if s.secret {
          next := TakeSecret(setting, s, text);
        } else if IsCommand(setting, s, text) {
          next := RunCommand(setting, s, Trim(setting.classes, text));
        } else {
          scanner.Feed(text);
          next := s.(pending := s.pending + text, scan := scanner.state, log := s.log + [Took(text)]);
          var found := Found(scanner.state);
          if found.closed && !found.openTransaction {
            var script := next.pending;
            next := Hand(setting, next.(pending := "", scan := UNFED), Submitted(script), script);
          }
        }
    }
  }

  // ------------------------------------------------------------------ conservation

  function In(act: Act): string {
    if act.Took? then act.line else ""
  }

  function Out(act: Act): string {
    match act
    case Submitted(script) => script
    case Dropped(text) => text
    case HandedOver(text) => text
    case _ => ""
  }

  /** The text taken line by line. */
  function TextIn(log: seq<Act>): string {
    if log == [] then "" else TextIn(log[..|log| - 1]) + In(log[|log| - 1])
  }

  /** The text that left again, submitted or dropped. */
  function TextOut(log: seq<Act>): string {
    if log == [] then "" else TextOut(log[..|log| - 1]) + Out(log[|log| - 1])
  }

  lemma TextAppend(log: seq<Act>, act: Act)
    ensures TextIn(log + [act]) == TextIn(log) + In(act)
    ensures TextOut(log + [act]) == TextOut(log) + Out(act)
  {
    assert (log + [act])[..|log|] == log;
  }

  /** The lines a run reads that are neither commands nor secrets, joined. */
  function Typed(setting: Setting, s: Session, inputs: seq<Given>): string
    decreases |inputs|
  {
    if inputs == [] || s.over then ""
    else
      var next := Turn(setting, s, inputs[0]);
      (if inputs[0].Line? && !s.secret && !IsCommand(setting, s, inputs[0].text) then inputs[0].text else "")
      + Typed(setting, next, inputs[1..])
  }

  /** A script that is one or more whole statements with nothing open at its end. */
  predicate Complete(classes: Classes, script: string) {
    var found := Found(Fed(classes, UNFED, script));
    found.closed && !found.openTransaction
  }

  predicate AllComplete(classes: Classes, log: seq<Act>) {
    forall i :: 0 <= i < |log| && log[i].Submitted? ==> Complete(classes, log[i].script)
  }

  predicate InStep(classes: Classes, pending: string, scan: State) {
    scan == if pending == "" then UNFED else Fed(classes, UNFED, pending)
  }

  /** What holds between any two lines of any session. */
  predicate Kept(setting: Setting, s: Session) {
    && TextIn(s.log) == TextOut(s.log) + s.pending
    && InStep(setting.classes, s.pending, s.scan)
    && AllComplete(setting.classes, s.log)
    && (s.pending != "" ==> !Complete(setting.classes, s.pending))
  }

  lemma FedOneMore(classes: Classes, pending: string, line: string)
    requires line != ""
    ensures var before := if pending == "" then UNFED else Fed(classes, UNFED, pending);
            Fed(classes, before, line) == Fed(classes, UNFED, pending + line)
  {
    if pending == "" {
      assert pending + line == line;
    } else {
      ScannedConcat(classes, Begun(UNFED), pending, line);
      StaysStarted(classes, Begun(UNFED), pending);
    }
  }

  lemma {:induction false} BlankNeverCloses(classes: Classes, s: State, text: string)
    requires Sound(classes) && Blank(classes, text) && !s.closed && !s.heldDash
    ensures !Scanned(classes, s, text).closed && !Scanned(classes, s, text).heldDash
    decreases |text|
  {
    if text == "" {
    } else {
      var c := text[0];
      assert classes.whitespace(c) && c !in PUNCTUATION;
      BlankStep(classes, s, c);
      BlankNeverCloses(classes, Step(classes, s, c), text[1..]);
    }
  }

  lemma BlankStep(classes: Classes, s: State, c: char)
    requires c !in PUNCTUATION && !s.closed && !s.heldDash
    ensures !Step(classes, s, c).closed && !Step(classes, s, c).heldDash
  {
    assert ';' in PUNCTUATION && '-' in PUNCTUATION;
  }

  /** A script that closed a statement is never dropped as blank. */
  lemma CompleteIsNotBlank(classes: Classes, script: string)
    requires Sound(classes) && Complete(classes, script)
    ensures !Blank(classes, script)
  {
    if Blank(classes, script) {
      BlankNeverCloses(classes, Begun(UNFED), script);
    }
  }

  lemma HandAskedKeeps(setting: Setting, s: Session, statement: string)
    requires Kept(setting, s)
    ensures var next := Hand(setting, s, Asked(statement), statement);
            Kept(setting, next) && TextIn(next.log) == TextIn(s.log)
  {
    TextAppend(s.log, Asked(statement));
    assert TextIn(s.log) + "" == TextIn(s.log) && TextOut(s.log) + "" == TextOut(s.log);
  }

  lemma TookKeeps(log: seq<Act>, pending: string, line: string)
    requires TextIn(log) == TextOut(log) + pending
    ensures var more := log + [Took(line)];
            TextIn(more) == TextIn(log) + line && TextIn(more) == TextOut(more) + (pending + line)
  {
    TextAppend(log, Took(line));
    assert TextOut(log) + "" == TextOut(log);
    assert TextOut(log) + pending + line == TextOut(log) + (pending + line);
  }

  lemma SubmittedKeeps(log: seq<Act>, script: string)
    requires TextIn(log) == TextOut(log) + script
    ensures var more := log + [Submitted(script)];
            TextIn(more) == TextIn(log) && TextIn(more) == TextOut(more) + ""
  {
    TextAppend(log, Submitted(script));
    assert TextIn(log) + "" == TextIn(log);
    assert TextOut(log) + script + "" == TextOut(log) + script;
  }

  lemma DroppedKeeps(log: seq<Act>, text: string)
    requires TextIn(log) == TextOut(log) + text
    ensures var more := log + [Dropped(text)];
            TextIn(more) == TextIn(log) && TextIn(more) == TextOut(more) + ""
  {
    TextAppend(log, Dropped(text));
    assert TextIn(log) + "" == TextIn(log);
    assert TextOut(log) + text + "" == TextOut(log) + text;
  }

  lemma AllCompleteAppend(classes: Classes, log: seq<Act>, act: Act)
    requires AllComplete(classes, log) && (act.Submitted? ==> Complete(classes, act.script))
    ensures AllComplete(classes, log + [act])
  {
  }

  lemma HandSubmittedKeeps(setting: Setting, s: Session, script: string)
    requires Sound(setting.classes) && Complete(setting.classes, script)
    requires s.pending == "" && s.scan == UNFED && AllComplete(setting.classes, s.log)
    requires TextIn(s.log) == TextOut(s.log) + script
    ensures var next := Hand(setting, s, Submitted(script), script);
            Kept(setting, next) && TextIn(next.log) == TextIn(s.log)
  {
    CompleteIsNotBlank(setting.classes, script);
    SubmittedKeeps(s.log, script);
    AllCompleteAppend(setting.classes, s.log, Submitted(script));
  }

  lemma TakeLineKeeps(setting: Setting, s: Session, line: string)
    requires Sound(setting.classes) && Kept(setting, s) && line != ""
    ensures var next := TakeLine(setting, s, line);
            Kept(setting, next) && TextIn(next.log) == TextIn(s.log) + line
  {
    var pending, log := s.pending + line, s.log + [Took(line)];
    var scan := Fed(setting.classes, s.scan, line);
    FedOneMore(setting.classes, s.pending, line);
    TookKeeps(s.log, s.pending, line);
    AllCompleteAppend(setting.classes, s.log, Took(line));
    var found := Found(scan);
    if found.closed && !found.openTransaction {
      assert Complete(setting.classes, pending);
      HandSubmittedKeeps(setting, s.(pending := "", scan := UNFED, log := log), pending);
    }
  }

  /** A turn that reads no text of its own. */
  ghost predicate Adds(setting: Setting, s: Session, next: Session, typed: string) {
    Kept(setting, next) && TextIn(next.log) == TextIn(s.log) + typed
  }

  lemma SecretKeeps(setting: Setting, s: Session, text: string)
    requires Kept(setting, s)
    ensures Adds(setting, s, TakeSecret(setting, s, text), "")
  {
    assert TextIn(s.log) + "" == TextIn(s.log);
    HandAskedKeeps(setting, s.(secret := false), Unseal(WithoutLineEnd(text)));
  }

  lemma CommandKeeps(setting: Setting, s: Session, trimmed: string)
    requires Kept(setting, s)
    ensures Adds(setting, s, RunCommand(setting, s, trimmed), "")
  {
    assert TextIn(s.log) + "" == TextIn(s.log);
    if setting.command(trimmed).Statement? {
      HandAskedKeeps(setting, s, setting.command(trimmed).text);
    }
  }

  lemma AbandonKeeps(setting: Setting, s: Session)
    requires Kept(setting, s)
    ensures Adds(setting, s, Turn(setting, s, Abandon), "")
  {
    assert TextIn(s.log) + "" == TextIn(s.log);
    DroppedKeeps(s.log, s.pending);
    AllCompleteAppend(setting.classes, s.log, Dropped(s.pending));
  }

  lemma TurnKeeps(setting: Setting, s: Session, given: Given)
    requires Sound(setting.classes) && Kept(setting, s) && (given.Line? ==> given.text != "")
    ensures var typed := if given.Line? && !s.secret && !IsCommand(setting, s, given.text) then given.text else "";
            Adds(setting, s, Turn(setting, s, given), typed)
  {
    match given {
      case Ended => assert TextIn(s.log) + "" == TextIn(s.log);
      case Abandon => AbandonKeeps(setting, s);
      case Line(text) =>
        if s.secret {
          SecretKeeps(setting, s, text);
        } else if IsCommand(setting, s, text) {
          CommandKeeps(setting, s, Trim(setting.classes, text));
        } else {
          TakeLineKeeps(setting, s, text);
        }
    }
  }

  lemma {:induction false} EveryTurnKeeps(setting: Setting, s: Session, inputs: seq<Given>)
    requires Sound(setting.classes) && Kept(setting, s)
    requires forall i :: 0 <= i < |inputs| && inputs[i].Line? ==> inputs[i].text != ""
    ensures var end := Turns(setting, s, inputs);
            Kept(setting, end) && TextIn(end.log) == TextIn(s.log) + Typed(setting, s, inputs)
    decreases |inputs|
  {
    if inputs == [] || s.over {
      assert TextIn(s.log) + "" == TextIn(s.log);
    } else {
      var next := Turn(setting, s, inputs[0]);
      TurnKeeps(setting, s, inputs[0]);
      EveryTurnKeeps(setting, next, inputs[1..]);
      var typed := if inputs[0].Line? && !s.secret && !IsCommand(setting, s, inputs[0].text) then inputs[0].text else "";
      Associate(TextIn(s.log), typed, Typed(setting, next, inputs[1..]));
    }
  }

  /**
   * Over every run of a session: the lines read that are not commands are, in
   * order, exactly the scripts submitted, the statements abandoned and what is
   * still pending; every script submitted closed a statement, by one pass over
   * the whole of it, with no transaction left open; and nothing that did is kept
   * waiting.
   */
  lemma NothingIsLost(setting: Setting, inputs: seq<Given>)
    requires Sound(setting.classes)
    requires forall i :: 0 <= i < |inputs| && inputs[i].Line? ==> inputs[i].text != ""
    ensures var s := Turns(setting, OPENED, inputs);
            && Typed(setting, OPENED, inputs) == TextOut(s.log) + s.pending
            && AllComplete(setting.classes, s.log)
            && (s.pending != "" ==> !Complete(setting.classes, s.pending))
  {
    EveryTurnKeeps(setting, OPENED, inputs);
    assert "" + Typed(setting, OPENED, inputs) == Typed(setting, OPENED, inputs);
  }

  lemma FinishKeeps(setting: Setting, s: Session)
    requires Kept(setting, s)
    ensures var end := Finish(setting, s);
            Kept(setting, end) && TextIn(end.log) == TextIn(s.log)
  {
    TextAppend(s.log, HandedOver(s.pending));
    assert TextIn(s.log) + "" == TextIn(s.log);
    assert TextOut(s.log) + s.pending + "" == TextOut(s.log) + s.pending;
    AllCompleteAppend(setting.classes, s.log, HandedOver(s.pending));
  }

  /**
   * When the lines end, the text read is exactly what was submitted, abandoned,
   * handed over and left behind, in order; and whatever is left behind with
   * anything in it was answered as an error, not dropped in silence.
   */
  lemma NothingEndsInSilence(setting: Setting, inputs: seq<Given>)
    requires Sound(setting.classes)
    requires forall i :: 0 <= i < |inputs| && inputs[i].Line? ==> inputs[i].text != ""
    ensures var end := Finish(setting, Turns(setting, OPENED, inputs));
            && Typed(setting, OPENED, inputs) == TextOut(end.log) + end.pending
            && AllComplete(setting.classes, end.log)
            && (Found(Fed(setting.classes, UNFED, end.pending)).substantial && end.pending != "" ==> end.refused)
  {
    var s := Turns(setting, OPENED, inputs);
    EveryTurnKeeps(setting, OPENED, inputs);
    assert "" + Typed(setting, OPENED, inputs) == Typed(setting, OPENED, inputs);
    FinishKeeps(setting, s);
  }

  // ---------------------------------------------------------------------- refusals

  /** How many scripts were handed to the store. */
  function Handed(log: seq<Act>): nat {
    if log == [] then 0
    else Handed(log[..|log| - 1]) + match log[|log| - 1] { case Took(_) => 0 case Dropped(_) => 0 case _ => 1 }
  }

  lemma HandedAppend(log: seq<Act>, act: Act)
    ensures Handed(log + [act]) == Handed(log) + if act.Took? || act.Dropped? then 0 else 1
  {
    assert (log + [act])[..|log|] == log;
  }

  ghost predicate SomeRefused(setting: Setting, runs: nat) {
    exists k: nat :: k < runs && !setting.accepts(k)
  }

  /** Only the last script handed over may have been refused. */
  predicate StopsAtRefusal(setting: Setting, runs: nat) {
    forall k: nat :: k + 1 < runs ==> setting.accepts(k)
  }

  /** A session's word on its scripts: every one counted, a refusal remembered, and the end of a script's session. */
  ghost predicate Told(setting: Setting, s: Session) {
    && s.runs == Handed(s.log)
    && (s.refused <==> SomeRefused(setting, s.runs))
    && (setting.mode.Script? ==> (s.refused ==> s.over) && StopsAtRefusal(setting, s.runs))
  }

  lemma HandTells(setting: Setting, s: Session, act: Act, script: string)
    requires Told(setting, s) && !s.over && !act.Took? && !act.Dropped?
    ensures Told(setting, Hand(setting, s, act, script))
  {
    if !Blank(setting.classes, script) {
      HandedAppend(s.log, act);
      SomeRefusedOneMore(setting, s.runs);
    }
  }

  lemma SomeRefusedOneMore(setting: Setting, runs: nat)
    ensures SomeRefused(setting, runs + 1) <==> SomeRefused(setting, runs) || !setting.accepts(runs)
  {
    if SomeRefused(setting, runs) {
      var k: nat :| k < runs && !setting.accepts(k);
      assert k < runs + 1;
    }
    if !setting.accepts(runs) {
      assert runs < runs + 1;
    }
  }

  lemma TurnTells(setting: Setting, s: Session, given: Given)
    requires Told(setting, s) && !s.over
    ensures Told(setting, Turn(setting, s, given))
  {
    match given {
      case Ended =>
      case Abandon => HandedAppend(s.log, Dropped(s.pending));
      case Line(text) =>
        if s.secret {
          var held := WithoutLineEnd(text);
          HandTells(setting, s.(secret := false), Asked(Unseal(held)), Unseal(held));
        } else if IsCommand(setting, s, text) {
          CommandTells(setting, s, Trim(setting.classes, text));
        } else {
          LineTells(setting, s, text);
        }
    }
  }

  lemma CommandTells(setting: Setting, s: Session, trimmed: string)
    requires Told(setting, s) && !s.over
    ensures Told(setting, RunCommand(setting, s, trimmed))
  {
    if setting.command(trimmed).Statement? {
      HandTells(setting, s, Asked(setting.command(trimmed).text), setting.command(trimmed).text);
    }
  }

  lemma LineTells(setting: Setting, s: Session, line: string)
    requires Told(setting, s) && !s.over
    ensures Told(setting, TakeLine(setting, s, line))
  {
    HandedAppend(s.log, Took(line));
    var pending, log := s.pending + line, s.log + [Took(line)];
    HandTells(setting, s.(pending := "", scan := UNFED, log := log), Submitted(pending), pending);
  }

  lemma {:induction false} EveryTurnTells(setting: Setting, s: Session, inputs: seq<Given>)
    requires Told(setting, s)
    ensures Told(setting, Turns(setting, s, inputs))
    decreases |inputs|
  {
    if inputs == [] || s.over {
    } else {
      TurnTells(setting, s, inputs[0]);
      EveryTurnTells(setting, Turn(setting, s, inputs[0]), inputs[1..]);
    }
  }

  /**
   * However a session went, it ends refused exactly when the store refused a
   * script of it or text with something in it was left behind; and a script's
   * session hands over nothing after its first refusal.
   */
  lemma RefusedIffSaid(setting: Setting, inputs: seq<Given>)
    requires Sound(setting.classes)
    requires forall i :: 0 <= i < |inputs| && inputs[i].Line? ==> inputs[i].text != ""
    ensures var end := Finish(setting, Turns(setting, OPENED, inputs));
            && end.runs == Handed(end.log)
            && (end.refused <==>
                  || SomeRefused(setting, end.runs)
                  || (end.pending != "" && Found(Fed(setting.classes, UNFED, end.pending)).substantial
                      && !Found(Fed(setting.classes, UNFED, end.pending)).openTransaction))
            && (setting.mode.Script? ==> StopsAtRefusal(setting, end.runs))
  {
    var s := Turns(setting, OPENED, inputs);
    EveryTurnKeeps(setting, OPENED, inputs);
    assert Handed(OPENED.log) == 0;
    EveryTurnTells(setting, OPENED, inputs);
    HandedAppend(s.log, HandedOver(s.pending));
    SomeRefusedOneMore(setting, s.runs);
  }

  // ---------------------------------------------------------------------- commands

  /** The first character of the line that is not blank is a dot. */
  ghost predicate StartsWithDot(classes: Classes, line: string) {
    exists i: nat :: i < |line| && line[i] == '.' && Blank(classes, line[..i])
  }

  lemma BlankAhead(classes: Classes, line: string)
    requires line != ""
    ensures forall i: nat :: i < |line| ==>
              (Blank(classes, line[..i + 1]) <==> classes.whitespace(line[0]) && Blank(classes, line[1..][..i]))
  {
    forall i: nat | i < |line|
      ensures Blank(classes, line[..i + 1]) <==> classes.whitespace(line[0]) && Blank(classes, line[1..][..i])
    {
      var a, b := line[..i + 1], line[1..][..i];
      assert a == [line[0]] + b;
    }
  }

  lemma {:induction false} TrimStartFindsDot(classes: Classes, line: string)
    requires !classes.whitespace('.')
    ensures var rest := TrimStart(classes, line);
            rest != "" && rest[0] == '.' <==> StartsWithDot(classes, line)
  {
    if line == "" {
    } else if !classes.whitespace(line[0]) {
      if line[0] == '.' {
        assert Blank(classes, line[..0]);
      }
    } else {
      TrimStartFindsDot(classes, line[1..]);
      BlankAhead(classes, line);
      if StartsWithDot(classes, line[1..]) {
        var i: nat :| i < |line[1..]| && line[1..][i] == '.' && Blank(classes, line[1..][..i]);
        assert line[i + 1] == '.' && Blank(classes, line[..i + 1]);
      }
      if i: nat :| i < |line| && line[i] == '.' && Blank(classes, line[..i]) {
        assert i > 0;
        assert line[1..][i - 1] == '.' && Blank(classes, line[1..][..i - 1]);
      }
    }
  }

  lemma {:induction false} TrimEndKeepsStart(classes: Classes, text: string)
    requires text != "" && !classes.whitespace(text[0])
    ensures TrimEnd(classes, text) != "" && TrimEnd(classes, text)[0] == text[0]
    decreases |text|
  {
    if classes.whitespace(text[|text| - 1]) {
      TrimEndKeepsStart(classes, text[..|text| - 1]);
    }
  }

  lemma {:induction false} TrimEndIsAPrefix(classes: Classes, text: string)
    ensures TrimEnd(classes, text) <= text
  {
    if text != "" && classes.whitespace(text[|text| - 1]) {
      TrimEndIsAPrefix(classes, text[..|text| - 1]);
    }
  }

  /** A line is a command exactly when nothing is pending and a dot is the first of it that is not blank. */
  lemma CommandIffDotAtStart(setting: Setting, s: Session, line: string)
    requires !setting.classes.whitespace('.')
    ensures IsCommand(setting, s, line) <==> s.pending == "" && StartsWithDot(setting.classes, line)
  {
    var rest := TrimStart(setting.classes, line);
    TrimStartFindsDot(setting.classes, line);
    TrimEndIsAPrefix(setting.classes, rest);
    if rest != "" && rest[0] == '.' {
      TrimEndKeepsStart(setting.classes, rest);
    }
  }

  lemma {:induction false} LineEndIsDropped(text: string) returns (n: nat)
    ensures n <= |text| && WithoutLineEnd(text) == text[..n]
    ensures forall i :: n <= i < |text| ==> text[i] in {'\r', '\n'}
    ensures n > 0 ==> text[n - 1] !in {'\r', '\n'}
  {
    if text != "" && text[|text| - 1] in {'\r', '\n'} {
      n := LineEndIsDropped(text[..|text| - 1]);
    } else {
      n := |text|;
    }
  }

  /**
   * A passphrase asked for is used once and kept nowhere: one statement built
   * from it is handed over, or nothing if it was empty, and no text is pending.
   */
  lemma SecretIsAskedOnce(setting: Setting, s: Session, line: string, secret: string)
    requires Ascii(setting.classes) && Sound(setting.classes)
    requires !s.secret && !s.over && IsCommand(setting, s, line) && Trim(setting.classes, line) == ".unseal"
    ensures var asked := Turn(setting, s, Line(line));
            var done := Turn(setting, asked, Line(secret));
            && asked.log == s.log && asked.secret && !done.secret && done.pending == "" && done.scan == s.scan
            && done.log == s.log + (if WithoutLineEnd(secret) == "" then [] else [Asked(Unseal(WithoutLineEnd(secret)))])
  {
    var statement := Unseal(WithoutLineEnd(secret));
    assert statement[0] == 'U' && setting.classes.InWord('U');
  }

  /** A command that stands for a statement hands it over, one that leaves ends the session, and any other changes nothing. */
  lemma CommandIsRun(setting: Setting, s: Session, line: string)
    requires !s.secret && !s.over && IsCommand(setting, s, line) && Trim(setting.classes, line) != ".unseal"
    ensures var next := Turn(setting, s, Line(line));
            && next.pending == "" && next.scan == s.scan
            && match setting.command(Trim(setting.classes, line)) {
                 case Statement(text) =>
                   next.log == s.log + if Blank(setting.classes, text) then [] else [Asked(text)]
                 case Leave => next == s.(over := true)
                 case Other => next == s
               }
  {
    assert s.log + [] == s.log;
  }

  lemma {:induction false} TurnsConcat(setting: Setting, s: Session, a: seq<Given>, b: seq<Given>)
    ensures Turns(setting, s, a + b) == Turns(setting, Turns(setting, s, a), b)
    decreases |a|
  {
    if a == [] {
      assert a + b == b;
    } else if s.over {
    } else {
      assert (a + b)[0] == a[0] && (a + b)[1..] == a[1..] + b;
      TurnsConcat(setting, Turn(setting, s, a[0]), a[1..], b);
    }
  }

  /** What was pending when a statement is abandoned is dropped, and what follows is read as at a fresh start. */
  lemma AbandonStartsAfresh(setting: Setting, before: seq<Given>, after: seq<Given>)
    requires var s := Turns(setting, OPENED, before); !s.over && !s.secret
    ensures var s := Turns(setting, OPENED, before);
            Turns(setting, OPENED, before + ([Abandon] + after))
            == Turns(setting, s.(pending := "", scan := UNFED, log := s.log + [Dropped(s.pending)]), after)
  {
    TurnsConcat(setting, OPENED, before, [Abandon] + after);
    assert ([Abandon] + after)[1..] == after;
  }
}
