/** The `#?` trigger engine: pending questions, command spans and deadlines.  Times are in
    milliseconds; the mirror is a view handed to each step. */
module Triggers {
  import opened Common

  const IN_PROGRAM_MAX_WAIT: nat := 30_000
  const PROMPT_LINE_MAX_WAIT: nat := 120_000
  const RECEIPT_NOTICE_DELAY: nat := 1_000
  const PROMPT_LIKE_MAX_CHARS: nat := 40
  const PROMPT_TAIL_CHARS: set<char> := {'$', '#', '%', '>', ':', '?', '\U{276F}', '\U{BB}', '\U{203A}'}

  /** What a step reads from the mirror. */
  datatype View = View(alt: bool, rowText: string, cursorX: nat, logicalLine: string)

  datatype Origin = PromptLine | InProgram
  datatype Shape = Prompt | Short | Other
  datatype Completion = CommandEnd | Stabilized | MaxWait

  // ---- Extracting the question ---------------------------------------------------------------

  datatype Lex = Lex(inSingle: bool, inDouble: bool, escaped: bool)

  const PLAIN: Lex := Lex(false, false, false)

  function LexStep(l: Lex, c: char): Lex {
    if l.escaped then l.(escaped := false)
    else if c == '\\' && !l.inSingle then l.(escaped := true)
    else if c == '\'' && !l.inDouble then l.(inSingle := !l.inSingle)
    else if c == '"' && !l.inSingle then l.(inDouble := !l.inDouble)
    else l
  }

  /** The quoting state in front of position `k`. */
  function LexBefore(line: string, k: nat): Lex
    requires k <= |line|
  {
    if k == 0 then PLAIN else LexStep(LexBefore(line, k - 1), line[k - 1])
  }

  /** The token stands at `k`, outside quotes and not escaped. */
  predicate TriggerAt(line: string, k: nat) {
    k < |line| && LexBefore(line, k) == PLAIN && "#?" <= line[k..]
  }

  function TrimStart(s: string): string {
    if s != [] && IsWhitespace(s[0]) then TrimStart(s[1..]) else s
  }

  function TrimEnd(s: string): string {
    if s != [] && IsWhitespace(s[|s| - 1]) then TrimEnd(s[..|s| - 1]) else s
  }

  function Trim(s: string): string { TrimEnd(TrimStart(s)) }

  function FirstTrigger(line: string, from: nat): (k: Option<nat>)
    ensures k.Some? ==> from <= k.value && TriggerAt(line, k.value) && forall j :: from <= j < k.value ==> !TriggerAt(line, j)
    ensures k.None? ==> forall j :: from <= j ==> !TriggerAt(line, j)
    decreases |line| - from
  {
    if from >= |line| then None
    else if TriggerAt(line, from) then Some(from)
    else FirstTrigger(line, from + 1)
  }

  datatype Split = Split(left: string, question: string)

  /** The line split at its first token outside quotes. */
  function Extracted(line: string): Option<Split> {
    match FirstTrigger(line, 0)
    case None => None
    case Some(k) => Some(Split(line[..k], Trim(line[k + 2..])))
  }

  method ExtractQuestion(line: string) returns (r: Option<Split>)
    ensures r == Extracted(line)
  {
    var inSingle, inDouble, escaped := false, false, false;
    var index := 0;
    while index < |line|
      invariant index <= |line|
      invariant LexBefore(line, index) == Lex(inSingle, inDouble, escaped)
      invariant FirstTrigger(line, 0) == FirstTrigger(line, index)
    {
      var c := line[index];
      if escaped {
        escaped := false;
      } else if c == '\\' && !inSingle {
        escaped := true;
      } else if c == '\'' && !inDouble {
        inSingle := !inSingle;
      } else if c == '"' && !inSingle {
        inDouble := !inDouble;
      } else if c == '#' && !inSingle && !inDouble && "#?" <= line[index..] {
        return Some(Split(line[..index], Trim(line[index + 2..])));
      }
      index := index + 1;
    }
    return None;
  }

  // ---- Tiers and deadlines -----------------------------------------------------------------------

  datatype Pending = Pending(id: nat, question: string, origin: Origin, submittedAt: nat, receiptNotified: bool)

  function Tier(origin: Origin, shape: Shape): nat {
    match (origin, shape)
    case (InProgram, Prompt) => 150
    case (InProgram, Short) => 500
    case (InProgram, Other) => 3_000
    case (PromptLine, Prompt) => 750
    case (PromptLine, Short) => 3_000
    case (PromptLine, Other) => 10_000
  }

  function MaxWaitOf(origin: Origin): nat {
    if origin == InProgram then IN_PROGRAM_MAX_WAIT else PROMPT_LINE_MAX_WAIT
  }

  function Max(a: nat, b: nat): nat { if a >= b then a else b }

  function Min(a: nat, b: nat): nat { if a <= b then a else b }

  /** When silence begins for a question: no earlier than it was asked. */
  function QuietFrom(lastOutput: Option<nat>, p: Pending): nat {
    if lastOutput.Some? then Max(lastOutput.value, p.submittedAt) else p.submittedAt
  }

  function RestingShape(v: View): Shape {
    if v.rowText == [] || v.cursorX < |v.rowText| || |v.rowText| > PROMPT_LIKE_MAX_CHARS then Other
    else if v.rowText[|v.rowText| - 1] in PROMPT_TAIL_CHARS then Prompt
    else Short
  }

  // ---- The state as a value ------------------------------------------------------------------------

  /** `nextId` numbers the captured questions. */
  datatype Session = Session(
    commandActive: bool,
    shellIntegrated: bool,
    pending: seq<Pending>,
    lastOutput: Option<nat>,
    capturedSinceOutput: bool,
    spanSettled: bool,
    nextId: nat)

  /** What a step asks of the session loop; `asked` and `source` name the
      captured question it is about. */
  datatype Action =
    | Fire(asked: Option<nat>, question: string, completion: Completion, stillRunning: bool, submittedAt: nat)
    | Cancelled(source: nat, question: string)
    | Waiting(source: nat, question: string)

  function NewSession(shellIntegrated: bool): Session {
    Session(false, shellIntegrated, [], None, false, false, 0)
  }

  datatype Outcome = Outcome(state: Session, actions: seq<Action>)

  function Pushed(s: Session, question: string, origin: Origin, now: nat): Session {
    s.(pending := s.pending + [Pending(s.nextId, question, origin, now, false)], nextId := s.nextId + 1)
  }

  /** Enter on a line that asks something makes its question pending. */
  function Captured(s: Session, v: View, now: nat): Session {
    match Extracted(v.logicalLine)
    case None => s
    case Some(split) =>
      Pushed(s.(capturedSinceOutput := true), split.question, if s.commandActive then InProgram else PromptLine, now)
  }

  function CancelNotices(pending: seq<Pending>): seq<Action> {
    seq(|pending|, i requires 0 <= i < |pending| => Cancelled(pending[i].id, pending[i].question))
  }

  function InputByte(s: Session, b: Byte, v: View, now: nat): Outcome {
    if b == 3 && !v.alt then
      Outcome(s.(spanSettled := s.spanSettled || s.commandActive, pending := []), CancelNotices(s.pending))
    else if (b == 13 || b == 10) && (s.commandActive || !s.shellIntegrated) && !v.alt && !s.capturedSinceOutput then
      Outcome(Captured(s, v, now), [])
    else Outcome(s, [])
  }

  function Input(s: Session, data: seq<Byte>, v: View, now: nat): Outcome {
    if data == [] then Outcome(s, [])
    else
      var before := Input(s, data[..|data| - 1], v, now);
      var last := InputByte(before.state, data[|data| - 1], v, now);
      Outcome(last.state, before.actions + last.actions)
  }

  function Output(s: Session, visible: seq<Byte>, now: nat): Session {
    if visible == [] then s else s.(lastOutput := Some(now), capturedSinceOutput := false)
  }

  function Started(s: Session, command: Option<string>, now: nat): Session {
    var fresh_ :=
      if s.commandActive then s
      else
        var s' := s.(spanSettled := false);
        if command.Some? && Extracted(command.value).Some?
        then Pushed(s', Extracted(command.value).value.question, PromptLine, now)
        else s';
    if command.Some? then fresh_.(commandActive := true) else fresh_
  }

  function EndFires(pending: seq<Pending>): seq<Action> {
    seq(|pending|, i requires 0 <= i < |pending| =>
      Fire(Some(pending[i].id), pending[i].question, CommandEnd, false, pending[i].submittedAt))
  }

  function Ended(s: Session, command: Option<string>, now: nat): Outcome {
    var after := s.(commandActive := false, spanSettled := false, pending := []);
    if s.pending != [] then Outcome(after, EndFires(s.pending))
    else
      match Extracted(command.GetOr([]))
      case Some(split) =>
        Outcome(after, if s.spanSettled then [] else [Fire(None, split.question, CommandEnd, false, now)])
      case None => Outcome(after, [])
  }

  // ---- Polling ----------------------------------------------------------------------------------------

  /** Which time-based completion a pending question has reached. */
  function Due(p: Pending, lastOutput: Option<nat>, shape: Shape, now: nat): Option<Completion> {
    if now >= QuietFrom(lastOutput, p) + Tier(p.origin, shape) then Some(Stabilized)
    else if now >= p.submittedAt + MaxWaitOf(p.origin) then Some(MaxWait)
    else None
  }

  function Fires(pending: seq<Pending>, s: Session, shape: Shape, now: nat): seq<Action> {
    if pending == [] then []
    else
      var n := |pending| - 1;
      var p := pending[n];
      var due := Due(p, s.lastOutput, shape, now);
      Fires(pending[..n], s, shape, now)
      + if due.None? then []
        else [Fire(Some(p.id), p.question, due.value, s.commandActive && p.origin == PromptLine, p.submittedAt)]
  }

  function Remaining(pending: seq<Pending>, s: Session, shape: Shape, now: nat): seq<Pending> {
    if pending == [] then []
    else
      var n := |pending| - 1;
      Remaining(pending[..n], s, shape, now) + if Due(pending[n], s.lastOutput, shape, now).None? then [pending[n]] else []
  }

  predicate ReceiptDue(p: Pending, now: nat) {
    !p.receiptNotified && now >= p.submittedAt + RECEIPT_NOTICE_DELAY
  }

  function Receipts(pending: seq<Pending>, now: nat): seq<Action> {
    if pending == [] then []
    else
      var n := |pending| - 1;
      Receipts(pending[..n], now) + if ReceiptDue(pending[n], now) then [Waiting(pending[n].id, pending[n].question)] else []
  }

  function Notified(pending: seq<Pending>, now: nat): seq<Pending> {
    seq(|pending|, i requires 0 <= i < |pending| => Noticed(pending[i], now))
  }

  function Noticed(p: Pending, now: nat): Pending {
    if ReceiptDue(p, now) then p.(receiptNotified := true) else p
  }

  lemma NoReceipts(now: nat)
    ensures Receipts([], now) == []
  {
  }

  lemma ReceiptsStep(pending: seq<Pending>, k: nat, now: nat)
    requires k < |pending|
    ensures Receipts(pending[..k + 1], now)
         == Receipts(pending[..k], now) + if ReceiptDue(pending[k], now) then [Waiting(pending[k].id, pending[k].question)] else []
  {
    assert pending[..k + 1][..k] == pending[..k];
  }

  lemma PollStep(pending: seq<Pending>, k: nat, s: Session, shape: Shape, now: nat)
    requires k < |pending|
    ensures var p := pending[k];
            var due := Due(p, s.lastOutput, shape, now);
            && Remaining(pending[..k + 1], s, shape, now)
               == Remaining(pending[..k], s, shape, now) + (if due.None? then [p] else [])
            && Fires(pending[..k + 1], s, shape, now)
               == Fires(pending[..k], s, shape, now)
                + if due.None? then []
                  else [Fire(Some(p.id), p.question, due.value, s.commandActive && p.origin == PromptLine, p.submittedAt)]
  {
    assert pending[..k + 1][..k] == pending[..k];
  }

  lemma NoFires(s: Session, shape: Shape, now: nat)
    ensures Fires([], s, shape, now) == [] && Remaining([], s, shape, now) == []
  {
  }

  function Polled(s: Session, v: View, now: nat): Outcome {
    if s.pending == [] || v.alt then Outcome(s, [])
    else
      var shape := RestingShape(v);
      var fires, left := Fires(s.pending, s, shape, now), Remaining(s.pending, s, shape, now);
      var settles := exists a :: a in fires && a.Fire? && a.stillRunning;
      Outcome(s.(pending := Notified(left, now), spanSettled := s.spanSettled || settles),
              fires + Receipts(left, now))
  }

  /** The earliest instant at which a pending question needs attention. */
  function Earliest(p: Pending, lastOutput: Option<nat>, shape: Shape): nat {
    var settle := Min(p.submittedAt + MaxWaitOf(p.origin), QuietFrom(lastOutput, p) + Tier(p.origin, shape));
    if p.receiptNotified then settle else Min(p.submittedAt + RECEIPT_NOTICE_DELAY, settle)
  }

  function Nearest(pending: seq<Pending>, lastOutput: Option<nat>, shape: Shape): nat
    requires pending != []
  {
    var n := |pending| - 1;
    var last := Earliest(pending[n], lastOutput, shape);
    if n == 0 then last else Min(Nearest(pending[..n], lastOutput, shape), last)
  }

  function Nearer(nearest: Option<nat>, at: nat): nat { Min(nearest.GetOr(at), at) }

  lemma NearerIsEarliest(nearest: Option<nat>, p: Pending, lastOutput: Option<nat>, shape: Shape)
    ensures var first := if p.receiptNotified then nearest else Some(Nearer(nearest, p.submittedAt + RECEIPT_NOTICE_DELAY));
            var second := Some(Nearer(first, p.submittedAt + MaxWaitOf(p.origin)));
            Nearer(second, QuietFrom(lastOutput, p) + Tier(p.origin, shape))
            == Nearer(nearest, Earliest(p, lastOutput, shape))
  {
    hide QuietFrom, Tier, MaxWaitOf;
  }

  lemma NearestStep(pending: seq<Pending>, k: nat, lastOutput: Option<nat>, shape: Shape)
    requires k < |pending|
    ensures var next := Earliest(pending[k], lastOutput, shape);
            Nearest(pending[..k + 1], lastOutput, shape)
            == Nearer(if k == 0 then None else Some(Nearest(pending[..k], lastOutput, shape)), next)
  {
    assert pending[..k + 1][..k] == pending[..k];
  }

  /** The delay until the nearest deadline, at least one millisecond. */
  function NextDeadline(s: Session, v: View, now: nat): Option<nat> {
    if s.pending == [] || v.alt then None
    else
      var at := Nearest(s.pending, s.lastOutput, RestingShape(v));
      Some(Max(if at > now then at - now else 0, 1))
  }

  // ---- The object -----------------------------------------------------------------------------------------

  class SessionState {
    var commandActive: bool
    const shellIntegrated: bool
    var pending: seq<Pending>
    var lastOutput: Option<nat>
    var capturedSinceOutput: bool
    var spanSettled: bool
    var nextId: nat

    function Value(): Session
      reads this
    {
      Session(commandActive, shellIntegrated, pending, lastOutput, capturedSinceOutput, spanSettled, nextId)
    }

    constructor (shellIntegrated: bool)
      ensures Value() == NewSession(shellIntegrated)
    {
      this.shellIntegrated := shellIntegrated;
      commandActive, pending, lastOutput, capturedSinceOutput, spanSettled, nextId := false, [], None, false, false, 0;
    }

    method RecordInput(data: seq<Byte>, v: View, now: nat) returns (actions: seq<Action>)
      modifies this
      ensures Input(old(Value()), data, v, now) == Outcome(Value(), actions)
    {
      actions := [];
      for k := 0 to |data|
        invariant Input(old(Value()), data[..k], v, now) == Outcome(Value(), actions)
      {
        assert data[..k + 1][..k] == data[..k];
        var b := data[k];
        if b == 3 && !v.alt {
          if commandActive {
            spanSettled := true;
          }
          var notices := CancelAllPending();
          actions := actions + notices;
        } else if (b == 13 || b == 10) && (commandActive || !shellIntegrated) && !v.alt && !capturedSinceOutput {
          CaptureSubmittedLine(v, now);
        }
      }
      assert data[..|data|] == data;
    }

    method CancelAllPending() returns (notices: seq<Action>)
      modifies this`pending
      ensures pending == [] && notices == CancelNotices(old(pending))
    {
      notices := CancelNotices(pending);
      pending := [];
    }

    method CaptureSubmittedLine(v: View, now: nat)
      modifies this
      ensures Value() == Captured(old(Value()), v, now)
    {
      var split := ExtractQuestion(v.logicalLine);
      if split.None? {
        return;
      }
      capturedSinceOutput := true;
      Push(split.value.question, if commandActive then InProgram else PromptLine, now);
    }

    method Push(question: string, origin: Origin, now: nat)
      modifies this`pending, this`nextId
      ensures Value() == Pushed(old(Value()), question, origin, now)
    {
      pending := pending + [Pending(nextId, question, origin, now, false)];
      nextId := nextId + 1;
    }

    method RecordOutput(visible: seq<Byte>, now: nat)
      modifies this
      ensures Value() == Output(old(Value()), visible, now)
    {
      if visible == [] {
        return;
      }
      lastOutput := Some(now);
      capturedSinceOutput := false;
    }

    method HandleStart(command: Option<string>, now: nat)
      modifies this
      ensures Value() == Started(old(Value()), command, now)
    {
      if !commandActive {
        spanSettled := false;
        if command.Some? {
          var split := ExtractQuestion(command.value);
          if split.Some? {
            Push(split.value.question, PromptLine, now);
          }
        }
      }
      if command.Some? {
        commandActive := true;
      }
    }

    method HandleEnd(command: Option<string>, now: nat) returns (actions: seq<Action>)
      modifies this
      ensures Ended(old(Value()), command, now) == Outcome(Value(), actions)
    {
      commandActive := false;
      actions := [];
      if pending == [] {
        if !spanSettled {
          var split := ExtractQuestion(command.GetOr([]));
          if split.Some? {
            actions := [Fire(None, split.value.question, CommandEnd, false, now)];
          }
        }
      } else {
        actions := EndFires(pending);
        pending := [];
      }
      spanSettled := false;
    }

    /** Applies the time-based transitions: fires, then receipt notices. */
    method Poll(v: View, now: nat) returns (actions: seq<Action>)
      modifies this
      ensures Polled(old(Value()), v, now) == Outcome(Value(), actions)
    {
      if pending == [] || v.alt {
        return [];
      }
      var fires := FireDue(RestingShape(v), now);
      var receipts := NotifyReceipts(now);
      actions := fires + receipts;
    }

    method FireDue(shape: Shape, now: nat) returns (actions: seq<Action>)
      modifies this`pending, this`spanSettled
      ensures actions == Fires(old(pending), old(Value()), shape, now)
      ensures pending == Remaining(old(pending), old(Value()), shape, now)
      ensures spanSettled <==> old(spanSettled) || exists a :: a in actions && a.Fire? && a.stillRunning
    {
      hide Fires, Remaining;
      ghost var s := Value();
      NoFires(s, shape, now);
      actions := [];
      var remaining: seq<Pending> := [];
      for k := 0 to |pending|
        invariant pending == s.pending
        invariant actions == Fires(s.pending[..k], s, shape, now)
        invariant remaining == Remaining(s.pending[..k], s, shape, now)
        invariant spanSettled <==> s.spanSettled || exists a :: a in actions && a.Fire? && a.stillRunning
      {
        PollStep(s.pending, k, s, shape, now);
        var p := pending[k];
        var quiet := now >= QuietFrom(lastOutput, p) + Tier(p.origin, shape);
        var maxed := now >= p.submittedAt + MaxWaitOf(p.origin);
        if quiet || maxed {
          var stillRunning := commandActive && p.origin == PromptLine;
          if stillRunning {
            spanSettled := true;
          }
          var fire := Fire(Some(p.id), p.question, if quiet then Stabilized else MaxWait, stillRunning, p.submittedAt);
          assert fire in actions + [fire];
          actions := actions + [fire];
        } else {
          remaining := remaining + [p];
        }
      }
      assert s.pending[..|s.pending|] == s.pending;
      pending := remaining;
    }

    method NotifyReceipts(now: nat) returns (actions: seq<Action>)
      modifies this`pending
      ensures pending == Notified(old(pending), now) && actions == Receipts(old(pending), now)
    {
      hide Receipts, ReceiptDue;
      ghost var all := pending;
      actions := [];
      assert Receipts([], now) == [] by { NoReceipts(now); }
      for k := 0 to |pending|
        invariant |pending| == |all| && actions == Receipts(all[..k], now)
        invariant forall j :: 0 <= j < k ==> pending[j] == Noticed(all[j], now)
        invariant forall j :: k <= j < |all| ==> pending[j] == all[j]
      {
        ReceiptsStep(all, k, now);
        if ReceiptDue(pending[k], now) {
          actions := actions + [Waiting(pending[k].id, pending[k].question)];
          pending := pending[k := pending[k].(receiptNotified := true)];
        }
      }
      assert all[..|all|] == all;
    }

    method NextDeadlineDelay(v: View, now: nat) returns (delay: Option<nat>)
      ensures delay == NextDeadline(Value(), v, now)
    {
      if pending == [] || v.alt {
        return None;
      }
      hide RestingShape, QuietFrom, Tier, MaxWaitOf, Nearest, Nearer, Earliest;
      var shape := RestingShape(v);
      var nearest: Option<nat> := None;
      for k := 0 to |pending|
        invariant nearest == if k == 0 then None else Some(Nearest(pending[..k], lastOutput, shape))
      {
        NearestStep(pending, k, lastOutput, shape);
        var p := pending[k];
        ghost var before := nearest;
        if !p.receiptNotified {
          nearest := Some(Nearer(nearest, p.submittedAt + RECEIPT_NOTICE_DELAY));
        }
        nearest := Some(Nearer(nearest, p.submittedAt + MaxWaitOf(p.origin)));
        nearest := Some(Nearer(nearest, QuietFrom(lastOutput, p) + Tier(p.origin, shape)));
        NearerIsEarliest(before, p, lastOutput, shape);
      }
      assert pending[..|pending|] == pending;
      return Some(Max(if nearest.value > now then nearest.value - now else 0, 1));
    }
  }
}
