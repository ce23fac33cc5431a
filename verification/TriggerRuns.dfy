/** Runs of the trigger engine: every captured question is settled exactly once, and the computed
    wake-up agrees with what polling does. */
module TriggerRuns {
  import opened Common
  import opened Triggers

  /** One step of the session loop, with what the mirror shows during it. */
  datatype Event =
    | Typed(data: seq<Byte>, v: View, now: nat)
    | Printed(visible: seq<Byte>, now: nat)
    | Start(command: Option<string>, now: nat)
    | End(command: Option<string>, now: nat)
    | Tick(v: View, now: nat)

  function Step(s: Session, e: Event): Outcome {
    match e
    case Typed(data, v, now) => Input(s, data, v, now)
    case Printed(visible, now) => Outcome(Output(s, visible, now), [])
    case Start(command, now) => Outcome(Started(s, command, now), [])
    case End(command, now) => Ended(s, command, now)
    case Tick(v, now) => Polled(s, v, now)
  }

  /** The state and all actions after a run. */
  function Run(integrated: bool, events: seq<Event>): Outcome {
    if events == [] then Outcome(NewSession(integrated), [])
    else
      var before := Run(integrated, events[..|events| - 1]);
      var last := Step(before.state, events[|events| - 1]);
      Outcome(last.state, before.actions + last.actions)
  }

  // ---- Counting -------------------------------------------------------------------------------------

  function Waits(pending: seq<Pending>, id: nat): nat {
    if pending == [] then 0
    else Waits(pending[..|pending| - 1], id) + if pending[|pending| - 1].id == id then 1 else 0
  }

  predicate SettlesId(a: Action, id: nat) {
    (a.Fire? && a.asked == Some(id)) || (a.Cancelled? && a.source == id)
  }

  function Settles(actions: seq<Action>, id: nat): nat {
    if actions == [] then 0
    else Settles(actions[..|actions| - 1], id) + if SettlesId(actions[|actions| - 1], id) then 1 else 0
  }

  lemma {:induction false} SettlesConcat(a: seq<Action>, b: seq<Action>, id: nat)
    ensures Settles(a + b, id) == Settles(a, id) + Settles(b, id)
  {
    if b == [] {
      assert a + b == a;
    } else {
      assert (a + b)[..|a| + |b| - 1] == a + b[..|b| - 1];
      SettlesConcat(a, b[..|b| - 1], id);
    }
  }

  lemma WaitsPush(pending: seq<Pending>, p: Pending, id: nat)
    ensures Waits(pending + [p], id) == Waits(pending, id) + if p.id == id then 1 else 0
  {
    assert (pending + [p])[..|pending|] == pending;
  }

  /** How often a question is waiting or settled. */
  function Tally(o: Outcome, id: nat): nat { Waits(o.state.pending, id) + Settles(o.actions, id) }

  /** A step moves questions from waiting to settled, one for one, and captures at most the ids it
      numbers. */
  ghost predicate Accounted(s: Session, o: Outcome, id: nat) {
    && s.nextId <= o.state.nextId
    && Tally(o, id) == Waits(s.pending, id) + if s.nextId <= id < o.state.nextId then 1 else 0
  }

  lemma {:induction false} CancelSettles(pending: seq<Pending>, id: nat)
    ensures Settles(CancelNotices(pending), id) == Waits(pending, id)
  {
    if pending != [] {
      var n := |pending| - 1;
      assert CancelNotices(pending)[..n] == CancelNotices(pending[..n]);
      CancelSettles(pending[..n], id);
    }
  }

  lemma {:induction false} EndSettles(pending: seq<Pending>, id: nat)
    ensures Settles(EndFires(pending), id) == Waits(pending, id)
  {
    if pending != [] {
      var n := |pending| - 1;
      assert EndFires(pending)[..n] == EndFires(pending[..n]);
      EndSettles(pending[..n], id);
    }
  }

  lemma {:induction false} PollSettles(pending: seq<Pending>, s: Session, shape: Shape, now: nat, id: nat)
    ensures Settles(Fires(pending, s, shape, now), id) + Waits(Remaining(pending, s, shape, now), id) == Waits(pending, id)
  {
    if pending != [] {
      var n := |pending| - 1;
      PollSettles(pending[..n], s, shape, now, id);
      var due := Due(pending[n], s.lastOutput, shape, now);
      var left, fires := Remaining(pending[..n], s, shape, now), Fires(pending[..n], s, shape, now);
      if due.None? {
        WaitsPush(left, pending[n], id);
        assert fires + [] == fires;
      } else {
        var fire := Fire(Some(pending[n].id), pending[n].question, due.value,
                         s.commandActive && pending[n].origin == PromptLine, pending[n].submittedAt);
        assert (fires + [fire])[..|fires|] == fires;
        assert left + [] == left;
      }
    }
  }

  lemma {:induction false} ReceiptsSettleNothing(pending: seq<Pending>, now: nat, id: nat)
    ensures Settles(Receipts(pending, now), id) == 0
    ensures Waits(Notified(pending, now), id) == Waits(pending, id)
  {
    if pending != [] {
      var n := |pending| - 1;
      ReceiptsSettleNothing(pending[..n], now, id);
      assert Notified(pending, now)[..n] == Notified(pending[..n], now);
      var r := Receipts(pending[..n], now);
      if ReceiptDue(pending[n], now) {
        assert (r + [Waiting(pending[n].id, pending[n].question)])[..|r|] == r;
      } else {
        assert r + [] == r;
      }
    }
  }

  lemma CaptureAccounted(s: Session, question: string, origin: Origin, now: nat, id: nat)
    ensures Accounted(s, Outcome(Pushed(s, question, origin, now), []), id)
  {
    WaitsPush(s.pending, Pending(s.nextId, question, origin, now, false), id);
  }

  lemma ByteAccounted(s: Session, b: Byte, v: View, now: nat, id: nat)
    ensures Accounted(s, InputByte(s, b, v, now), id)
  {
    hide Extracted;
    CancelSettles(s.pending, id);
    var split := Extracted(v.logicalLine);
    if split.Some? {
      CaptureAccounted(s.(capturedSinceOutput := true), split.value.question,
                       if s.commandActive then InProgram else PromptLine, now, id);
    }
  }

  lemma AccountedThen(s: Session, first: Outcome, second: Outcome, id: nat)
    requires Accounted(s, first, id) && Accounted(first.state, second, id)
    ensures Accounted(s, Outcome(second.state, first.actions + second.actions), id)
  {
    SettlesConcat(first.actions, second.actions, id);
  }

  lemma {:induction false} InputAccounted(s: Session, data: seq<Byte>, v: View, now: nat, id: nat)
    ensures Accounted(s, Input(s, data, v, now), id)
  {
    hide Accounted, InputByte;
    if data == [] {
      NothingAccounted(s, id);
    } else {
      var before := Input(s, data[..|data| - 1], v, now);
      InputAccounted(s, data[..|data| - 1], v, now, id);
      ByteAccounted(before.state, data[|data| - 1], v, now, id);
      AccountedThen(s, before, InputByte(before.state, data[|data| - 1], v, now), id);
    }
  }

  lemma NothingAccounted(s: Session, id: nat)
    ensures Accounted(s, Outcome(s, []), id)
  {
  }

  lemma StepAccounted(s: Session, e: Event, id: nat)
    ensures Accounted(s, Step(s, e), id)
  {
    hide Extracted, Fires, Remaining, Receipts, Due;
    match e
    case Typed(data, v, now) => InputAccounted(s, data, v, now, id);
    case Printed(visible, now) =>
    case Start(command, now) =>
      if !s.commandActive && command.Some? && Extracted(command.value).Some? {
        CaptureAccounted(s.(spanSettled := false), Extracted(command.value).value.question, PromptLine, now, id);
      }
    case End(command, now) => EndAccounted(s, command, now, id);
    case Tick(v, now) => TickAccounted(s, v, now, id);
  }

  lemma EndAccounted(s: Session, command: Option<string>, now: nat, id: nat)
    ensures Accounted(s, Ended(s, command, now), id)
  {
    hide Extracted;
    EndSettles(s.pending, id);
  }

  lemma TickAccounted(s: Session, v: View, now: nat, id: nat)
    ensures Accounted(s, Polled(s, v, now), id)
  {
    hide Fires, Remaining, Receipts, Due, RestingShape;
    var shape := RestingShape(v);
    var fires, left := Fires(s.pending, s, shape, now), Remaining(s.pending, s, shape, now);
    PollSettles(s.pending, s, shape, now, id);
    ReceiptsSettleNothing(left, now, id);
    SettlesConcat(fires, Receipts(left, now), id);
  }

  /** Main theorem: after any run, every captured question is in exactly one of pending, fired and
      cancelled, once; nothing else is. */
  lemma {:induction false} EachQuestionSettlesOnce(integrated: bool, events: seq<Event>, id: nat)
    ensures Tally(Run(integrated, events), id) == if id < Run(integrated, events).state.nextId then 1 else 0
  {
    hide Step;
    if events != [] {
      var before, e := Run(integrated, events[..|events| - 1]), events[|events| - 1];
      EachQuestionSettlesOnce(integrated, events[..|events| - 1], id);
      StepAccounted(before.state, e, id);
      SettlesConcat(before.actions, Step(before.state, e).actions, id);
    }
  }

  // ---- The question of a command span ------------------------------------------------------------------

  /** The question carried by the start marker that opened the current span. */
  function SpanQuestion(integrated: bool, events: seq<Event>): Option<nat> {
    if events == [] then None
    else
      var front := events[..|events| - 1];
      var s := Run(integrated, front).state;
      match events[|events| - 1]
      case Start(command, now) =>
        if s.commandActive then SpanQuestion(integrated, front)
        else if command.Some? && Extracted(command.value).Some? then Some(s.nextId)
        else None
      case End(_, _) => None
      case _ => SpanQuestion(integrated, front)
  }

  ghost predicate PromptWaiting(pending: seq<Pending>, id: nat) {
    exists i :: 0 <= i < |pending| && pending[i].id == id && pending[i].origin == PromptLine
  }

  /** The span is open, and its question still waits or the span is marked settled. */
  ghost predicate Held(s: Session, id: nat) {
    s.commandActive && (PromptWaiting(s.pending, id) || s.spanSettled)
  }

  lemma ByteHolds(s: Session, b: Byte, v: View, now: nat, id: nat)
    requires Held(s, id)
    ensures Held(InputByte(s, b, v, now).state, id)
  {
    hide Extracted;
    var after := InputByte(s, b, v, now).state;
    if !s.spanSettled && !after.spanSettled {
      var i :| 0 <= i < |s.pending| && s.pending[i].id == id && s.pending[i].origin == PromptLine;
      assert after.pending[i] == s.pending[i];
    }
  }

  lemma {:induction false} InputHolds(s: Session, data: seq<Byte>, v: View, now: nat, id: nat)
    requires Held(s, id)
    ensures Held(Input(s, data, v, now).state, id)
  {
    hide Held, InputByte;
    if data != [] {
      InputHolds(s, data[..|data| - 1], v, now, id);
      ByteHolds(Input(s, data[..|data| - 1], v, now).state, data[|data| - 1], v, now, id);
    }
  }

  /** A poll leaves the question waiting, or fires it as still running. */
  lemma {:induction false} PollHolds(pending: seq<Pending>, s: Session, shape: Shape, now: nat, id: nat)
    requires s.commandActive && PromptWaiting(pending, id)
    ensures PromptWaiting(Remaining(pending, s, shape, now), id)
         || exists a :: a in Fires(pending, s, shape, now) && a.Fire? && a.stillRunning
  {
    hide Due;
    var n := |pending| - 1;
    var p := pending[n];
    var left, fires := Remaining(pending[..n], s, shape, now), Fires(pending[..n], s, shape, now);
    var due := Due(p, s.lastOutput, shape, now);
    if p.id == id && p.origin == PromptLine {
      if due.None? {
        assert (left + [p])[|left|] == p;
      } else {
        var fire := Fire(Some(p.id), p.question, due.value, true, p.submittedAt);
        assert fire in fires + [fire];
      }
    } else {
      var i :| 0 <= i < |pending| && pending[i].id == id && pending[i].origin == PromptLine;
      assert pending[..n][i] == pending[i];
      PollHolds(pending[..n], s, shape, now, id);
      if PromptWaiting(left, id) {
        var j :| 0 <= j < |left| && left[j].id == id && left[j].origin == PromptLine;
        assert due.None? ==> (left + [p])[j] == left[j];
        assert left + [] == left;
      } else {
        var a :| a in fires && a.Fire? && a.stillRunning;
        assert a in Fires(pending, s, shape, now);
      }
    }
  }

  lemma TickHolds(s: Session, v: View, now: nat, id: nat)
    requires Held(s, id)
    ensures Held(Polled(s, v, now).state, id)
  {
    hide Fires, Remaining, Receipts, RestingShape, ReceiptDue;
    if s.pending != [] && !v.alt && !s.spanSettled {
      var shape := RestingShape(v);
      PollHolds(s.pending, s, shape, now, id);
      var left := Remaining(s.pending, s, shape, now);
      if PromptWaiting(left, id) {
        var j :| 0 <= j < |left| && left[j].id == id && left[j].origin == PromptLine;
        assert Notified(left, now)[j].id == id && Notified(left, now)[j].origin == PromptLine;
      }
    }
  }

  lemma {:induction false} RunHolds(integrated: bool, events: seq<Event>)
    ensures var q := SpanQuestion(integrated, events);
            var s := Run(integrated, events).state;
            q.Some? ==> Held(s, q.value) && q.value < s.nextId
  {
    hide Input, Polled, Extracted, Ended;
    if events != [] {
      var front, e := events[..|events| - 1], events[|events| - 1];
      var s, q := Run(integrated, front).state, SpanQuestion(integrated, front);
      RunHolds(integrated, front);
      StepAccounted(s, e, 0);
      match e
      case Typed(data, v, now) => if q.Some? { InputHolds(s, data, v, now, q.value); }
      case Tick(v, now) => if q.Some? { TickHolds(s, v, now, q.value); }
      case Start(command, now) =>
        if !s.commandActive && command.Some? && Extracted(command.value).Some? {
          assert Started(s, command, now).pending[|s.pending|].id == s.nextId;
        }
      case _ =>
    }
  }

  /** Main theorem: when a span's end marker has been handled, the question its start carried has
      been settled exactly once, and the fallback has not fired it again. */
  lemma SpanQuestionSettledAtEnd(integrated: bool, events: seq<Event>, command: Option<string>, now: nat)
    requires SpanQuestion(integrated, events).Some?
    ensures var id := SpanQuestion(integrated, events).value;
            var before := Run(integrated, events);
            var last := Ended(before.state, command, now);
            && Settles(before.actions + last.actions, id) == 1
            && last.state.pending == []
            && forall a :: a in last.actions ==> a.Fire? && a.asked.Some?
  {
    hide SpanQuestion, Extracted, Run;
    var id := SpanQuestion(integrated, events).value;
    var before := Run(integrated, events);
    RunHolds(integrated, events);
    EachQuestionSettlesOnce(integrated, events, id);
    EndSettles(before.state.pending, id);
    SettlesConcat(before.actions, Ended(before.state, command, now).actions, id);
  }

  // ---- Deadlines and polling -------------------------------------------------------------------------------

  /** A question needs attention exactly from its earliest deadline on. */
  lemma EarliestIsDue(p: Pending, lastOutput: Option<nat>, shape: Shape, t: nat)
    ensures t >= Earliest(p, lastOutput, shape) <==> Due(p, lastOutput, shape, t).Some? || ReceiptDue(p, t)
  {
  }

  ghost predicate Acts(pending: seq<Pending>, s: Session, shape: Shape, t: nat) {
    Fires(pending, s, shape, t) != [] || Receipts(Remaining(pending, s, shape, t), t) != []
  }

  lemma ActsStep(pending: seq<Pending>, s: Session, shape: Shape, t: nat)
    requires pending != []
    ensures var n := |pending| - 1;
            var due := Due(pending[n], s.lastOutput, shape, t);
            Acts(pending, s, shape, t) <==> Acts(pending[..n], s, shape, t) || due.Some? || ReceiptDue(pending[n], t)
  {
    hide Due, ReceiptDue, Fires, Remaining;
    var n := |pending| - 1;
    var p, left := pending[n], Remaining(pending[..n], s, shape, t);
    assert pending[..n + 1] == pending;
    PollStep(pending, n, s, shape, t);
    assert (left + [p])[..|left|] == left && left + [] == left;
  }

  lemma {:induction false} PollActs(pending: seq<Pending>, s: Session, shape: Shape, t: nat)
    requires pending != []
    ensures Acts(pending, s, shape, t) <==> t >= Nearest(pending, s.lastOutput, shape)
  {
    hide Due, ReceiptDue, Earliest, Acts;
    var n := |pending| - 1;
    EarliestIsDue(pending[n], s.lastOutput, shape, t);
    ActsStep(pending, s, shape, t);
    if n > 0 {
      PollActs(pending[..n], s, shape, t);
    } else {
      assert pending[..n] == [];
      NothingActs(s, shape, t);
    }
  }

  lemma NothingActs(s: Session, shape: Shape, t: nat)
    ensures !Acts([], s, shape, t)
  {
  }

  /** Main theorem: off the alternate screen, a poll at `t` acts exactly when `t` has reached the
      deadline the delay was computed for: never before the delay is over, always once it is. */
  lemma DeadlineAgreesWithPoll(s: Session, v: View, now: nat, t: nat)
    requires now <= t
    ensures match NextDeadline(s, v, now)
            case None => Polled(s, v, t) == Outcome(s, [])
            case Some(delay) =>
              && delay >= 1
              && (t >= now + delay ==> Polled(s, v, t).actions != [])
              && (t < now + delay && Polled(s, v, t).actions != [] ==>
                    delay == 1 && t == now && now >= Nearest(s.pending, s.lastOutput, RestingShape(v)))
  {
    hide Fires, Receipts, Remaining, Nearest, RestingShape;
    if s.pending != [] && !v.alt { PollActs(s.pending, s, RestingShape(v), t); }
  }

  /** Every fire of a poll is due: a stabilized one after a full quiet tier since both the last
      output and the submission, a max-wait one after its bound. */
  ghost predicate FiredWhenDue(a: Action, pending: seq<Pending>, s: Session, shape: Shape, now: nat) {
    a.Fire? ==>
      exists i :: 0 <= i < |pending| &&
        var p := pending[i];
        && a.asked == Some(p.id) && a.question == p.question && a.submittedAt == p.submittedAt
        && (a.stillRunning <==> s.commandActive && p.origin == PromptLine)
        && match a.completion
           case Stabilized =>
             && now >= p.submittedAt + Tier(p.origin, shape)
             && (s.lastOutput.Some? ==> now >= s.lastOutput.value + Tier(p.origin, shape))
           case MaxWait =>
             && now >= p.submittedAt + MaxWaitOf(p.origin)
             && now < QuietFrom(s.lastOutput, p) + Tier(p.origin, shape)
           case CommandEnd => false
  }

  lemma {:induction false} FiresAreDue(pending: seq<Pending>, s: Session, shape: Shape, now: nat)
    ensures forall a :: a in Fires(pending, s, shape, now) ==> FiredWhenDue(a, pending, s, shape, now)
  {
    if pending != [] {
      var n := |pending| - 1;
      FiresAreDue(pending[..n], s, shape, now);
      forall a | a in Fires(pending, s, shape, now) ensures FiredWhenDue(a, pending, s, shape, now) {
        if a in Fires(pending[..n], s, shape, now) {
          assert FiredWhenDue(a, pending[..n], s, shape, now);
          assert forall i :: 0 <= i < n ==> pending[..n][i] == pending[i];
        } else {
          assert a.asked == Some(pending[n].id);
        }
      }
    }
  }

  lemma {:induction false} RemainingAreEarly(pending: seq<Pending>, s: Session, shape: Shape, now: nat)
    ensures forall p :: p in Remaining(pending, s, shape, now) ==> p in pending && Due(p, s.lastOutput, shape, now).None?
  {
    if pending != [] { RemainingAreEarly(pending[..|pending| - 1], s, shape, now); }
  }

  /** After a poll no question has outlived its max-wait, all that is left is still early, and a
      second poll at the same instant does nothing. */
  lemma PollSettlesEverythingDue(s: Session, v: View, now: nat)
    requires !v.alt
    ensures var o := Polled(s, v, now);
            && (forall a :: a in o.actions ==> FiredWhenDue(a, s.pending, s, RestingShape(v), now))
            && (forall p :: p in o.state.pending ==>
                  now < p.submittedAt + MaxWaitOf(p.origin) && now < Earliest(p, s.lastOutput, RestingShape(v)))
            && Polled(o.state, v, now).actions == []
  {
    hide RestingShape, Fires, Remaining, Receipts, Tier, MaxWaitOf, FiredWhenDue;
    var shape := RestingShape(v);
    var o := Polled(s, v, now);
    if s.pending != [] {
      FiresAreDue(s.pending, s, shape, now);
      RemainingAreEarly(s.pending, s, shape, now);
      var left := Remaining(s.pending, s, shape, now);
      ReceiptsAreNotices(left, s, s.pending, shape, now);
      forall i | 0 <= i < |left|
        ensures var p := Notified(left, now)[i];
                now < p.submittedAt + MaxWaitOf(p.origin) && now < Earliest(p, s.lastOutput, shape)
      {
        assert left[i] in left;
      }
      if left != [] {
        PollActs(o.state.pending, o.state, shape, now);
        NearestIsLater(o.state.pending, s.lastOutput, shape, now);
      }
    }
  }

  lemma {:induction false} ReceiptsAreNotices(left: seq<Pending>, s: Session, pending: seq<Pending>, shape: Shape, now: nat)
    ensures forall a :: a in Receipts(left, now) ==> FiredWhenDue(a, pending, s, shape, now)
  {
    if left != [] { ReceiptsAreNotices(left[..|left| - 1], s, pending, shape, now); }
  }

  lemma {:induction false} NearestIsLater(pending: seq<Pending>, lastOutput: Option<nat>, shape: Shape, now: nat)
    requires pending != [] && forall i :: 0 <= i < |pending| ==> now < Earliest(pending[i], lastOutput, shape)
    ensures now < Nearest(pending, lastOutput, shape)
  {
    hide Earliest;
    if |pending| > 1 { NearestIsLater(pending[..|pending| - 1], lastOutput, shape, now); }
  }
}
