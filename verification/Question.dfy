/** What is asked: the text taken from a line, what Enter and other keys do, and that every later
    mention of a question carries the text it was captured with. */
module Questions {
  import opened Common
  import opened Triggers
  import opened TriggerRuns

  // ---- The text of a question ------------------------------------------------------------------------------

  predicate AllSpace(s: string) { forall i :: 0 <= i < |s| ==> IsWhitespace(s[i]) }

  predicate NoSpaceAround(s: string) { s != [] ==> !IsWhitespace(s[0]) && !IsWhitespace(s[|s| - 1]) }

  lemma {:induction false} TrimStartParts(s: string) returns (a: string)
    ensures s == a + TrimStart(s) && AllSpace(a)
    ensures TrimStart(s) != [] ==> !IsWhitespace(TrimStart(s)[0])
  {
    a := [];
    if s != [] && IsWhitespace(s[0]) {
      var rest := TrimStartParts(s[1..]);
      a := [s[0]] + rest;
      assert s == [s[0]] + s[1..];
    }
  }

  lemma {:induction false} TrimEndParts(s: string) returns (b: string)
    ensures s == TrimEnd(s) + b && AllSpace(b)
    ensures TrimEnd(s) != [] ==> !IsWhitespace(TrimEnd(s)[|TrimEnd(s)| - 1]) && TrimEnd(s)[0] == s[0]
  {
    b := [];
    if s != [] && IsWhitespace(s[|s| - 1]) {
      var n := |s| - 1;
      var rest := TrimEndParts(s[..n]);
      b := rest + [s[n]];
      assert s == s[..n] + [s[n]];
    }
  }

  /** Main theorem: a line asks exactly if the token stands in it outside quotes and not escaped.  The
      first such token splits it: in front of it is the left part, and behind it the question with
      white space around. */
  lemma QuestionIs(line: string) returns (a: string, b: string)
    ensures Extracted(line).None? <==> forall j :: !TriggerAt(line, j)
    ensures Extracted(line).Some? ==>
              var split := Extracted(line).value;
              && TriggerAt(line, |split.left|) && (forall j :: 0 <= j < |split.left| ==> !TriggerAt(line, j))
              && line == split.left + "#?" + a + split.question + b
              && AllSpace(a) && AllSpace(b) && NoSpaceAround(split.question)
  {
    a, b := [], [];
    hide TriggerAt, TrimStart, TrimEnd;
    match FirstTrigger(line, 0)
    case None =>
    case Some(k) =>
      assert k < |line| && "#?" <= line[k..] by { TokenIs(line, k); }
      a := TrimStartParts(line[k + 2..]);
      b := TrimEndParts(TrimStart(line[k + 2..]));
      SplitAt(line, k, a, Trim(line[k + 2..]), b);
  }

  lemma SplitAt(line: string, k: nat, a: string, question: string, b: string)
    requires k + 2 <= |line| && "#?" <= line[k..] && line[k + 2..] == a + (question + b)
    ensures line == line[..k] + "#?" + a + question + b
  {
    assert line[k..][2..] == line[k + 2..];
    assert line[k..] == "#?" + line[k + 2..];
    assert line[..k] + line[k..] == line;
  }

  lemma TokenIs(line: string, k: nat)
    requires TriggerAt(line, k)
    ensures k + 2 <= |line| && "#?" <= line[k..]
  {
  }

  // ---- Quoting ---------------------------------------------------------------------------------------------------

  predicate Unquoted(s: string) { '\'' !in s && '"' !in s && '\\' !in s }

  /** Plain text in front leaves the quoting state as it was. */
  lemma {:induction false} PlainText(line: string, from: nat, to: nat)
    requires from <= to <= |line| && Unquoted(line[from..to]) && !LexBefore(line, from).escaped
    ensures LexBefore(line, to) == LexBefore(line, from)
  {
    if from < to {
      assert line[from..to][..to - 1 - from] == line[from..to - 1];
      assert line[from..to][to - 1 - from] == line[to - 1];
      PlainText(line, from, to - 1);
    }
  }

  /** Without quotes or backslashes in front, the first token asks. */
  lemma PlainTokenAsks(line: string, k: nat)
    requires k < |line| && Unquoted(line[..k]) && "#?" <= line[k..]
    ensures TriggerAt(line, k)
  {
    assert line[0..k] == line[..k];
    PlainText(line, 0, k);
  }

  /** Inside single quotes nothing asks, backslashes or not; behind them quoting is over. */
  lemma {:induction false} SingleQuoted(line: string, open: nat, k: nat)
    requires open < k <= |line| && LexBefore(line, open) == PLAIN && line[open] == '\'' && '\'' !in line[open + 1..k]
    ensures LexBefore(line, k) == Lex(true, false, false) && !TriggerAt(line, k)
    ensures k < |line| && line[k] == '\'' ==> LexBefore(line, k + 1) == PLAIN
  {
    if k > open + 1 {
      assert line[open + 1..k][..k - open - 2] == line[open + 1..k - 1];
      assert line[open + 1..k][k - open - 2] == line[k - 1];
      SingleQuoted(line, open, k - 1);
    }
  }

  /** Inside double quotes nothing asks either. */
  lemma {:induction false} DoubleQuoted(line: string, open: nat, k: nat)
    requires open < k <= |line| && LexBefore(line, open) == PLAIN && line[open] == '"'
    requires '"' !in line[open + 1..k] && '\\' !in line[open + 1..k]
    ensures LexBefore(line, k) == Lex(false, true, false) && !TriggerAt(line, k)
    ensures k < |line| && line[k] == '"' ==> LexBefore(line, k + 1) == PLAIN
  {
    if k > open + 1 {
      assert line[open + 1..k][..k - open - 2] == line[open + 1..k - 1];
      assert line[open + 1..k][k - open - 2] == line[k - 1];
      DoubleQuoted(line, open, k - 1);
    }
  }

  /** A backslash outside single quotes takes the next character's meaning, a token's or a quote's. */
  lemma Escaped(line: string, k: nat)
    requires k + 1 < |line| && line[k] == '\\' && !LexBefore(line, k).escaped && !LexBefore(line, k).inSingle
    ensures !TriggerAt(line, k + 1) && LexBefore(line, k + 2) == LexBefore(line, k)
  {
  }

  // ---- Keys ------------------------------------------------------------------------------------------------------

  /** Enter is looked at: a command runs or the shell has no hooks, off the alternate screen, and nothing
      was captured since the last output. */
  predicate Armed(s: Session, v: View) {
    (s.commandActive || !s.shellIntegrated) && !v.alt && !s.capturedSinceOutput
  }

  ghost predicate Asks(line: string) { exists k :: TriggerAt(line, k) }

  /** The question was captured from the line. */
  ghost predicate AskedIn(question: string, line: string) {
    exists left, a, b :: line == left + "#?" + a + question + b && AllSpace(a) && AllSpace(b) && NoSpaceAround(question)
      && TriggerAt(line, |left|) && forall j :: 0 <= j < |left| ==> !TriggerAt(line, j)
  }

  lemma ExtractedIsAsked(line: string)
    ensures Extracted(line).Some? <==> Asks(line)
    ensures Extracted(line).Some? ==> AskedIn(Extracted(line).value.question, line)
  {
    hide TriggerAt, Extracted;
    var a, b := QuestionIs(line);
    if Extracted(line).Some? {
      var split := Extracted(line).value;
      assert line == split.left + "#?" + a + split.question + b;
    }
  }

  /** Main theorem: what each key does.  Enter captures one question, exactly when it is looked at and
      the line asks; Ctrl+C off the alternate screen withdraws all; no other key does anything. */
  lemma KeyDoes(s: Session, b: Byte, v: View, now: nat)
    ensures var o := Input(s, [b], v, now);
            var q := o.state;
            && ((b == 13 || b == 10) && Armed(s, v) && Asks(v.logicalLine) ==>
                  && o.actions == [] && q.nextId == s.nextId + 1 && q.capturedSinceOutput
                  && |q.pending| == |s.pending| + 1 && q.pending[..|s.pending|] == s.pending
                  && var p := q.pending[|s.pending|];
                     && p.id == s.nextId && p.submittedAt == now && !p.receiptNotified
                     && p.origin == (if s.commandActive then InProgram else PromptLine)
                     && AskedIn(p.question, v.logicalLine))
            && (b == 3 && !v.alt ==>
                  && q.pending == [] && |o.actions| == |s.pending|
                  && forall i :: 0 <= i < |s.pending| ==> o.actions[i] == Cancelled(s.pending[i].id, s.pending[i].question))
            && (!((b == 13 || b == 10) && Armed(s, v) && Asks(v.logicalLine)) && !(b == 3 && !v.alt) ==>
                  q == s && o.actions == [])
  {
    hide Extracted, AskedIn, Asks;
    ExtractedIsAsked(v.logicalLine);
    assert [b][..0] == [];
    assert Input(s, [], v, now) == Outcome(s, []);
    assert [] + InputByte(s, b, v, now).actions == InputByte(s, b, v, now).actions;
  }

  // ---- What a run knows --------------------------------------------------------------------------------------------

  /** When the last visible output came. */
  function LastPrinted(events: seq<Event>): Option<nat> {
    if events == [] then None
    else
      var e := events[|events| - 1];
      if e.Printed? && e.visible != [] then Some(e.now) else LastPrinted(events[..|events| - 1])
  }

  /** Whether a command is running: its start has come and no end since. */
  function SpanOpen(events: seq<Event>): bool {
    if events == [] then false
    else
      var e := events[|events| - 1];
      if e.Start? && e.command.Some? then true else if e.End? then false else SpanOpen(events[..|events| - 1])
  }

  /** The session's clock and span are those of the run. */
  ghost predicate InStep(s: Session, integrated: bool, printed: Option<nat>, open: bool) {
    s.lastOutput == printed && s.commandActive == open && s.shellIntegrated == integrated
  }

  lemma {:induction false} InputInStep(s: Session, data: seq<Byte>, v: View, now: nat)
    ensures InStep(Input(s, data, v, now).state, s.shellIntegrated, s.lastOutput, s.commandActive)
  {
    hide Extracted;
    if data != [] { InputInStep(s, data[..|data| - 1], v, now); }
  }

  /** Main theorem: over every run the quiet clock counts from the last visible output, and a command is
      running from its start marker to its end marker. */
  lemma {:induction false} RunInStep(integrated: bool, events: seq<Event>)
    ensures InStep(Run(integrated, events).state, integrated, LastPrinted(events), SpanOpen(events))
  {
    hide Extracted, Fires, Remaining, Receipts, RestingShape;
    if events != [] {
      var before := Run(integrated, events[..|events| - 1]).state;
      RunInStep(integrated, events[..|events| - 1]);
      match events[|events| - 1]
      case Typed(data, v, now) => InputInStep(before, data, v, now);
      case _ =>
    }
  }

  /** Whether the running span's question is settled: a Ctrl+C while it ran, or a fire that left it running. */
  function SpanDone(integrated: bool, events: seq<Event>): bool {
    if events == [] then false
    else
      var front, e := events[..|events| - 1], events[|events| - 1];
      match e
      case Typed(data, v, _) => SpanDone(integrated, front) || (SpanOpen(front) && 3 in data && !v.alt)
      case Tick(_, _) =>
        || SpanDone(integrated, front)
        || exists a :: a in Step(Run(integrated, front).state, e).actions && a.Fire? && a.stillRunning
      case Start(_, _) => SpanOpen(front) && SpanDone(integrated, front)
      case End(_, _) => false
      case Printed(_, _) => SpanDone(integrated, front)
  }

  lemma {:induction false} InputSettles(s: Session, data: seq<Byte>, v: View, now: nat)
    ensures Input(s, data, v, now).state.spanSettled == (s.spanSettled || (s.commandActive && 3 in data && !v.alt))
  {
    hide Extracted;
    if data != [] {
      var n := |data| - 1;
      InputSettles(s, data[..n], v, now);
      InputInStep(s, data[..n], v, now);
      assert data == data[..n] + [data[n]];
    }
  }

  lemma {:induction false} ReceiptsNeverFire(pending: seq<Pending>, now: nat)
    ensures forall a :: a in Receipts(pending, now) ==> !a.Fire?
  {
    if pending != [] { ReceiptsNeverFire(pending[..|pending| - 1], now); }
  }

  /** Over every run the settled flag says just that. */
  lemma {:induction false} RunSettles(integrated: bool, events: seq<Event>)
    ensures Run(integrated, events).state.spanSettled == SpanDone(integrated, events)
  {
    hide Extracted, Fires, Remaining, Receipts, RestingShape, Input;
    if events != [] {
      var front := events[..|events| - 1];
      var s := Run(integrated, front).state;
      RunSettles(integrated, front);
      RunInStep(integrated, front);
      match events[|events| - 1]
      case Typed(data, v, now) => InputSettles(s, data, v, now);
      case Tick(v, now) => ReceiptsNeverFire(Remaining(s.pending, s, RestingShape(v), now), now);
      case _ =>
    }
  }

  /** Any visible output arms Enter again. */
  lemma OutputRearms(integrated: bool, events: seq<Event>, visible: seq<Byte>, now: nat)
    requires visible != []
    ensures var before, s := Run(integrated, events).state, Run(integrated, events + [Printed(visible, now)]).state;
            !s.capturedSinceOutput && s.pending == before.pending
  {
    assert (events + [Printed(visible, now)])[..|events|] == events;
  }

  // ---- A question keeps its text ---------------------------------------------------------------------------------

  type Texts = map<nat, string>

  ghost predicate KnowsPending(pending: seq<Pending>, asked: Texts) {
    forall i :: 0 <= i < |pending| ==> pending[i].id in asked && asked[pending[i].id] == pending[i].question
  }

  /** Each action about a question carries its text. */
  ghost predicate Carries(a: Action, asked: Texts) {
    match a
    case Fire(Some(id), question, _, _, _) => id in asked && asked[id] == question
    case Fire(None, _, _, _, _) => true
    case Cancelled(id, question) => id in asked && asked[id] == question
    case Waiting(id, question) => id in asked && asked[id] == question
  }

  ghost predicate AllCarry(actions: seq<Action>, asked: Texts) { forall i :: 0 <= i < |actions| ==> Carries(actions[i], asked) }

  ghost predicate Knows(o: Outcome, asked: Texts) {
    && KnowsPending(o.state.pending, asked) && AllCarry(o.actions, asked)
    && forall id :: id in asked ==> id < o.state.nextId
  }

  ghost predicate Grows(asked: Texts, more: Texts) { forall id :: id in asked ==> id in more && more[id] == asked[id] }

  lemma ByteKnows(s: Session, b: Byte, v: View, now: nat, asked: Texts) returns (more: Texts)
    requires Knows(Outcome(s, []), asked)
    ensures Knows(InputByte(s, b, v, now), more) && Grows(asked, more)
  {
    hide Extracted;
    more := asked;
    var q := InputByte(s, b, v, now).state;
    if q.nextId > s.nextId { more := asked[s.nextId := q.pending[|s.pending|].question]; }
  }

  lemma {:induction false} InputKnows(s: Session, data: seq<Byte>, v: View, now: nat, asked: Texts) returns (more: Texts)
    requires Knows(Outcome(s, []), asked)
    ensures Knows(Input(s, data, v, now), more) && Grows(asked, more)
  {
    hide InputByte, Carries;
    more := asked;
    if data != [] {
      var before := Input(s, data[..|data| - 1], v, now);
      var first := InputKnows(s, data[..|data| - 1], v, now, asked);
      more := ByteKnows(before.state, data[|data| - 1], v, now, first);
      CarryOn(before.actions, first, more);
    }
  }

  lemma CarryOn(actions: seq<Action>, asked: Texts, more: Texts)
    requires AllCarry(actions, asked) && Grows(asked, more)
    ensures AllCarry(actions, more)
  {
  }

  lemma {:induction false} PollKnows(pending: seq<Pending>, s: Session, shape: Shape, now: nat, asked: Texts)
    requires KnowsPending(pending, asked)
    ensures AllCarry(Fires(pending, s, shape, now), asked) && KnowsPending(Remaining(pending, s, shape, now), asked)
  {
    hide Due;
    if pending != [] { PollKnows(pending[..|pending| - 1], s, shape, now, asked); }
  }

  lemma {:induction false} ReceiptsKnow(pending: seq<Pending>, now: nat, asked: Texts)
    requires KnowsPending(pending, asked)
    ensures AllCarry(Receipts(pending, now), asked) && KnowsPending(Notified(pending, now), asked)
  {
    if pending != [] { ReceiptsKnow(pending[..|pending| - 1], now, asked); }
  }

  lemma StepKnows(s: Session, e: Event, asked: Texts) returns (more: Texts)
    requires Knows(Outcome(s, []), asked)
    ensures Knows(Step(s, e), more) && Grows(asked, more)
  {
    hide Extracted, Input, Polled;
    more := asked;
    match e
    case Typed(data, v, now) => more := InputKnows(s, data, v, now, asked);
    case Printed(visible, now) =>
    case Start(command, now) =>
      var q := Started(s, command, now);
      if q.nextId > s.nextId { more := asked[s.nextId := q.pending[|s.pending|].question]; }
    case End(command, now) =>
    case Tick(v, now) => TickKnows(s, v, now, asked);
  }

  lemma TickKnows(s: Session, v: View, now: nat, asked: Texts)
    requires Knows(Outcome(s, []), asked)
    ensures Knows(Polled(s, v, now), asked)
  {
    hide Fires, Remaining, Receipts, Notified, RestingShape, Carries;
    var shape := RestingShape(v);
    PollKnows(s.pending, s, shape, now, asked);
    ReceiptsKnow(Remaining(s.pending, s, shape, now), now, asked);
  }

  /** Main theorem: over every run all mentions of a question, pending or in an action, carry one text. */
  lemma {:induction false} RunKnows(integrated: bool, events: seq<Event>) returns (asked: Texts)
    ensures Knows(Run(integrated, events), asked)
  {
    hide Step, Carries;
    asked := map[];
    if events != [] {
      var before, e := Run(integrated, events[..|events| - 1]), events[|events| - 1];
      var first := RunKnows(integrated, events[..|events| - 1]);
      assert Knows(Outcome(before.state, []), first);
      asked := StepKnows(before.state, e, first);
      CarryOn(before.actions, first, asked);
    }
  }

  // ---- Markers ------------------------------------------------------------------------------------------------------

  /** A fresh span's start captures its question, exactly if its command line asks. */
  lemma StartDoes(s: Session, command: string, now: nat)
    ensures var q := Started(s, Some(command), now);
            && q.commandActive
            && (!s.commandActive && Asks(command) ==>
                  && q.nextId == s.nextId + 1 && |q.pending| == |s.pending| + 1 && q.pending[..|s.pending|] == s.pending
                  && var p := q.pending[|s.pending|];
                     p.id == s.nextId && p.submittedAt == now && p.origin == PromptLine && AskedIn(p.question, command))
            && (s.commandActive || !Asks(command) ==> q.pending == s.pending && q.nextId == s.nextId)
  {
    hide Extracted, AskedIn, Asks;
    ExtractedIsAsked(command);
  }

  /** A span's end fires every pending question, in order; with none pending it fires the one its own
      command line asks, unless the span's question was settled before. */
  lemma EndDoes(s: Session, command: Option<string>, now: nat)
    ensures var o := Ended(s, command, now);
            && !o.state.commandActive && o.state.pending == []
            && (s.pending != [] ==>
                  && |o.actions| == |s.pending|
                  && forall i :: 0 <= i < |s.pending| ==>
                       var a, p := o.actions[i], s.pending[i];
                       a.Fire? && a.asked == Some(p.id) && a.question == p.question && a.completion == CommandEnd
                       && !a.stillRunning && a.submittedAt == p.submittedAt)
            && (s.pending == [] && (s.spanSettled || !Asks(command.GetOr([]))) ==> o.actions == [])
            && (s.pending == [] && !s.spanSettled && Asks(command.GetOr([])) ==>
                  && |o.actions| == 1 && o.actions[0].Fire? && o.actions[0].asked == None && o.actions[0].completion == CommandEnd
                  && AskedIn(o.actions[0].question, command.GetOr([])))
  {
    hide Extracted, AskedIn, Asks;
    ExtractedIsAsked(command.GetOr([]));
  }

  // ---- Waiting ------------------------------------------------------------------------------------------------------

  /** The clearer the cursor rests, the sooner a question fires, and in a program never later than at the
      prompt; at a prompt in a program after 150 ms of quiet, and in no case after two minutes. */
  lemma ClearerRestFiresSooner(p: Pending, last: Option<nat>, now: nat)
    ensures Due(p, last, Other, now).Some? ==> Due(p, last, Short, now).Some?
    ensures Due(p, last, Short, now).Some? ==> Due(p, last, Prompt, now).Some?
    ensures forall shape :: Due(p.(origin := PromptLine), last, shape, now).Some? ==> Due(p.(origin := InProgram), last, shape, now).Some?
    ensures p.origin == InProgram ==>
              (Due(p, last, Prompt, now) == Some(Stabilized) <==> now >= QuietFrom(last, p) + 150)
    ensures now >= p.submittedAt + 120_000 ==> forall shape :: Due(p, last, shape, now).Some?
    ensures now < p.submittedAt + 150 ==> forall shape :: Due(p, last, shape, now).None?
  {
  }
}
