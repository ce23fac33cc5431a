/** Presentation runs against a daemon that answers one request at a time, first come first
    served: when that is enough for the machine's guarantees, and when it is not. */
module SerialDaemons {
  import opened Common
  import opened TerminalStreams
  import opened Presentations
  import opened PresentationRuns

  // ---- What a step does to the books ------------------------------------------------------------------

  function ActiveId(p: Model): Option<RequestId> { if p.active.Some? then Some(p.active.value.id) else None }

  /** Which responses a step opens and closes, and which requests stay dispatched and aborted. */
  ghost predicate Books(p: Model, e: Event, q: Model) {
    match e
    case DeltaMsg(id, _) =>
      && q.dispatched == p.dispatched && q.aborted == p.aborted && q.ended == p.ended
      && if id in p.aborted || ActiveId(p) == Some(id) then ActiveId(q) == ActiveId(p) && q.begun == p.begun
         else ActiveId(q) == Some(id) && q.begun == p.begun + [id]
    case EndMsg(id, _) =>
      && q.dispatched == p.dispatched - {id} && q.aborted == p.aborted - {id} && q.begun == p.begun
      && if id !in p.aborted && ActiveId(p) == Some(id) then ActiveId(q) == None && q.ended == p.ended + [id]
         else ActiveId(q) == ActiveId(p) && q.ended == p.ended
    case Dispatch(id, stillRunning) =>
      && q.dispatched == p.dispatched[id := stillRunning] && q.aborted == p.aborted && q.ended == p.ended
      && if p.active.None? then ActiveId(q) == Some(id) && q.begun == p.begun + [id]
         else ActiveId(q) == ActiveId(p) && q.begun == p.begun
    case UserInterrupt =>
      && ActiveId(q) == None && q.begun == p.begun
      && if p.active.None? then q.dispatched == p.dispatched && q.aborted == p.aborted && q.ended == p.ended
         else
           var id := p.active.value.id;
           q.dispatched == p.dispatched - {id} && q.aborted == p.aborted + {id} && q.ended == p.ended + [id]
    case _ =>
      && q.dispatched == p.dispatched && ActiveId(q) == ActiveId(p)
      && q.aborted == p.aborted && q.begun == p.begun && q.ended == p.ended
  }

  lemma StepBooks(p: Model, t: Timed)
    ensures Books(p, t.event, Step(p, t))
  {
    hide Flat, PtyOutput, OnDelta, OnTool, Closed, Interrupt, Polled, WithNotice;
    match t.event
    case PtyIn(visible) => PtyBooks(p, t.m, visible, t.now);
    case DeltaMsg(id, delta) => DeltaBooks(p, t.m, id, delta, t.now);
    case ToolMsg(id, message) => ToolBooks(p, t.m, id, message, t.now);
    case EndMsg(id, error) => FinishBooks(p, t.m, id, error);
    case Dispatch(id, stillRunning) =>
    case UserInterrupt => InterruptBooks(p, t.m);
    case Tick => PollBooks(p, t.m, t.now);
  }

  lemma PtyBooks(p: Model, m: Mirror, visible: seq<Byte>, now: nat)
    ensures Books(p, PtyIn(visible), PtyOutput(p, m, visible, now))
  {
    hide DimLine, Flat;
  }

  lemma DeltaBooks(p: Model, m: Mirror, id: RequestId, delta: string, now: nat)
    ensures Books(p, DeltaMsg(id, delta), OnDelta(p, m, id, delta, now))
  {
    hide StreamDelta, AnchoredDelta;
    if id !in p.aborted {
      var p1 :=
        if p.active.None? || p.active.value.id != id
        then Begun(p, m, id, if id in p.dispatched && !p.dispatched[id] then Stream else Block, now)
        else p;
      var a := p1.active.value.(lastProgressAt := now);
      SameBooks(p1.(active := Some(a)), m, a, delta);
    }
  }

  lemma SameBooks(p: Model, m: Mirror, a: Response, delta: string)
    ensures var q := StreamDelta(p, m, a, delta);
            && ActiveId(q) == Some(a.id) && q.dispatched == p.dispatched
            && q.aborted == p.aborted && q.begun == p.begun && q.ended == p.ended
    ensures var q := AnchoredDelta(p, m, a, delta);
            && ActiveId(q) == Some(a.id) && q.dispatched == p.dispatched
            && q.aborted == p.aborted && q.begun == p.begun && q.ended == p.ended
  {
    hide Normalized, EraseRegion, RestoreRegion, Flat, Resume, TailIntact;
  }

  lemma ToolBooks(p: Model, m: Mirror, id: RequestId, message: string, now: nat)
    ensures Books(p, ToolMsg(id, message), OnTool(p, m, id, message, now))
  {
    hide DimLine, Flat, EraseRegion, RestoreRegion;
  }

  lemma FinishBooks(p: Model, m: Mirror, id: RequestId, error: Option<string>)
    ensures Books(p, EndMsg(id, error), Finish(p, m, id, error))
  {
    hide DimLine, Flat, Closed;
    if p.active.Some? {
      ClosedBooks(p.(dispatched := p.dispatched - {id}, active := None, ended := p.ended + [id]), m, p.active.value, error);
    }
  }

  lemma ClosedBooks(p: Model, m: Mirror, a: Response, error: Option<string>)
    ensures Closed(p, m, a, error) == p.(log := Closed(p, m, a, error).log)
  {
    hide DimLine, Flat, EraseRegion, RestoreRegion, BlockText;
  }

  lemma InterruptBooks(p: Model, m: Mirror)
    ensures Books(p, UserInterrupt, Interrupt(p, m))
  {
    hide WithNotice, WithNoticeAbove, WithNoticeBeforePrompt;
    if p.active.Some? {
      var a := p.active.value;
      var p1 := p.(active := None, dispatched := p.dispatched - {a.id}, aborted := p.aborted + {a.id}, ended := p.ended + [a.id]);
      NoticeIsChrome(p1, m, "answer cancelled (^C)", Plain);
      NoticeIsChrome(p1, m, "answer interrupted (^C)", Plain);
      NoticeIsChrome(WithTail(p1, a), m, "answer interrupted (^C)", Plain);
      NoticeIsChrome(WithTail(p1, a), m, "answer interrupted (^C); releasing held command output", InterruptBoundary);
    }
  }

  lemma PollBooks(p: Model, m: Mirror, now: nat)
    ensures Books(p, Tick, Polled(p, m, now))
  {
    hide DimLine, Flat, EraseRegion, RestoreRegion;
  }

  // ---- Responses close once ----------------------------------------------------------------------------------

  /** Every response begun has ended, once and in order, except the one still active. */
  ghost predicate ClosedInOrder(p: Model) {
    p.begun == p.ended + if p.active.Some? then [p.active.value.id] else []
  }

  /** A step keeps this precisely unless its delta replaces an active response. */
  lemma StepClosesIff(p: Model, t: Timed)
    requires ClosedInOrder(p)
    ensures ClosedInOrder(Step(p, t)) <==> !Replaces(p, t.event)
  {
    hide Step;
    StepBooks(p, t);
  }

  ghost predicate NoneReplaced(events: seq<Timed>) {
    forall k :: 0 <= k < |events| ==> !Replaces(Run(events[..k]), events[k].event)
  }

  lemma NoneReplacedStep(events: seq<Timed>)
    requires events != []
    ensures var n := |events| - 1;
            NoneReplaced(events) <==> NoneReplaced(events[..n]) && !Replaces(Run(events[..n]), events[n].event)
  {
    hide Run, Replaces;
    var n := |events| - 1;
    assert forall k :: 0 <= k < n ==> events[..n][..k] == events[..k] && events[..n][k] == events[k];
  }

  /** How many responses have neither ended nor are active. */
  function Astray(p: Model): int { |p.begun| - |p.ended| - if p.active.Some? then 1 else 0 }

  lemma StepStrays(p: Model, t: Timed)
    ensures Astray(Step(p, t)) == Astray(p) + if Replaces(p, t.event) then 1 else 0
  {
    hide Step;
    StepBooks(p, t);
  }

  /** Main theorem: every response begun ends exactly once, in order, precisely in the runs in which
      none is replaced; each replacement leaves one more response without an end for good. */
  lemma {:induction false} ResponsesCloseOnce(events: seq<Timed>)
    ensures ClosedInOrder(Run(events)) <==> NoneReplaced(events)
    ensures Astray(Run(events)) >= 0 && (Astray(Run(events)) == 0 <==> NoneReplaced(events))
  {
    hide Step, Replaces, NoneReplaced;
    if events == [] {
      assert NoneReplaced([]) by { NothingReplaced(); }
    } else {
      var front, t := events[..|events| - 1], events[|events| - 1];
      ResponsesCloseOnce(front);
      NoneReplacedStep(events);
      StepStrays(Run(front), t);
      if ClosedInOrder(Run(front)) { StepClosesIff(Run(front), t); }
    }
  }

  lemma NothingReplaced()
    ensures NoneReplaced([])
  {
  }

  // ---- The serial daemon ----------------------------------------------------------------------------------------

  /** The requests the daemon has not finished, oldest first. */
  function Queue(events: seq<Timed>): seq<RequestId> {
    if events == [] then []
    else
      var q := Queue(events[..|events| - 1]);
      match events[|events| - 1].event
      case Dispatch(id, _) => q + [id]
      case EndMsg(id, _) => if q != [] && q[0] == id then q[1..] else q
      case _ => q
  }

  function Sent(events: seq<Timed>): set<RequestId> {
    if events == [] then {}
    else
      Sent(events[..|events| - 1])
      + match events[|events| - 1].event case Dispatch(id, _) => {id} case _ => {}
  }

  /** A message is about the oldest unfinished request; a dispatched id is fresh. */
  predicate FollowsOn(front: seq<Timed>, e: Event) {
    match e
    case DeltaMsg(id, _) => Queue(front) != [] && Queue(front)[0] == id
    case ToolMsg(id, _) => Queue(front) != [] && Queue(front)[0] == id
    case EndMsg(id, _) => Queue(front) != [] && Queue(front)[0] == id
    case Dispatch(id, _) => id !in Sent(front)
    case _ => true
  }

  predicate Serial(events: seq<Timed>) {
    events != [] ==> Serial(events[..|events| - 1]) && FollowsOn(events[..|events| - 1], events[|events| - 1].event)
  }

  /** A question is dispatched into an idle presentation only when no earlier request is still
      to be answered (interrupted ones aside). */
  ghost predicate Unqueued(events: seq<Timed>) {
    events != [] ==>
      var front := events[..|events| - 1];
      && Unqueued(front)
      && (events[|events| - 1].event.Dispatch? && Run(front).active.None? ==>
            forall id :: id in Queue(front) ==> id in Run(front).aborted)
  }

  ghost predicate Distinct(ids: seq<RequestId>) {
    forall i, j :: 0 <= i < j < |ids| ==> ids[i] != ids[j]
  }

  /** The active response is the oldest unfinished request that was not interrupted. */
  ghost predicate Serves(p: Model, q: seq<RequestId>, sent: set<RequestId>) {
    && Distinct(q) && (forall id :: id in q ==> id in sent)
    && (forall id :: id in p.aborted ==> id in q)
    && (p.active.Some? ==>
          && p.active.value.id !in p.aborted
          && exists i :: 0 <= i < |q| && q[i] == p.active.value.id && forall j :: 0 <= j < i ==> q[j] in p.aborted)
    && ClosedInOrder(p) && Distinct(p.begun)
    && (forall id :: id in p.begun ==> id in sent)
    && (forall id :: id in p.ended ==> id !in q || id in p.aborted)
  }

  lemma ServesNext(front: seq<Timed>, t: Timed)
    requires Serves(Run(front), Queue(front), Sent(front))
    requires Serial(front + [t]) && Unqueued(front + [t])
    ensures !Replaces(Run(front), t.event)
    ensures Serves(Run(front + [t]), Queue(front + [t]), Sent(front + [t]))
  {
    hide Step, Serves, Books;
    assert (front + [t])[..|front|] == front;
    var p, q := Run(front), Queue(front);
    StepBooks(p, t);
    assert Sent(front) + {} == Sent(front);
    match t.event
    case Dispatch(id, _) => ServesDispatch(p, Step(p, t), q, Sent(front), t.event);
    case EndMsg(id, _) => ServesEnd(p, Step(p, t), q, Sent(front), t.event);
    case DeltaMsg(id, _) => ServesDelta(p, Step(p, t), q, Sent(front), t.event);
    case _ => ServesOther(p, Step(p, t), q, Sent(front), t.event);
  }

  lemma ServesOther(p: Model, p': Model, q: seq<RequestId>, sent: set<RequestId>, e: Event)
    requires Serves(p, q, sent) && Books(p, e, p') && (e.PtyIn? || e.ToolMsg? || e.UserInterrupt? || e.Tick?)
    ensures Serves(p', q, sent)
  {
  }

  lemma ServesDispatch(p: Model, p': Model, q: seq<RequestId>, sent: set<RequestId>, e: Event)
    requires Serves(p, q, sent) && e.Dispatch? && e.id !in sent && Books(p, e, p')
    requires p.active.None? ==> forall id :: id in q ==> id in p.aborted
    ensures Serves(p', q + [e.id], sent + {e.id})
  {
    var q' := q + [e.id];
    assert q'[|q|] == e.id && forall j :: 0 <= j < |q| ==> q'[j] == q[j] && q[j] in q;
  }

  lemma ServesEnd(p: Model, p': Model, q: seq<RequestId>, sent: set<RequestId>, e: Event)
    requires Serves(p, q, sent) && e.EndMsg? && q != [] && q[0] == e.id && Books(p, e, p')
    ensures Serves(p', q[1..], sent)
  {
    if p'.active.Some? {
      var i :| 0 <= i < |q| && q[i] == p.active.value.id && forall j :: 0 <= j < i ==> q[j] in p.aborted;
      assert i > 0;
      assert q[1..][i - 1] == q[i];
    }
    assert forall id :: id in q && id != e.id ==> id in q[1..];
  }

  lemma ServesDelta(p: Model, p': Model, q: seq<RequestId>, sent: set<RequestId>, e: Event)
    requires Serves(p, q, sent) && e.DeltaMsg? && q != [] && q[0] == e.id && Books(p, e, p')
    ensures !Replaces(p, e) && Serves(p', q, sent)
  {
  }

  /** Main theorem: with a serial daemon and unqueued dispatches, no response is ever replaced, no
      PTY byte is lost, and every response begun ends exactly once. */
  lemma {:induction false} SerialRunsAreSafe(events: seq<Timed>)
    requires Serial(events) && Unqueued(events)
    ensures Serves(Run(events), Queue(events), Sent(events))
    ensures NoneReplaced(events)
    ensures Kept(Run(events)) == Received(events)
    ensures ClosedInOrder(Run(events)) && Distinct(Run(events).begun)
  {
    hide Replaces, Serves, Step, Kept;
    if events == [] {
      NothingServed();
    } else {
      var front, t := events[..|events| - 1], events[|events| - 1];
      assert front + [t] == events;
      SerialRunsAreSafe(front);
      ServesNext(front, t);
      forall k | 0 <= k < |events| ensures !Replaces(Run(events[..k]), events[k].event) {
        if k < |front| { assert front[..k] == events[..k] && front[k] == events[k]; } else { assert events[..k] == front; }
      }
    }
    assert Distinct(Run(events).begun) by { ServedDistinct(Run(events), Queue(events), Sent(events)); }
    PtyConserved(events);
    ResponsesCloseOnce(events);
  }

  lemma NothingServed()
    ensures Serves(NEW, [], {})
  {
  }

  lemma ServedDistinct(p: Model, q: seq<RequestId>, sent: set<RequestId>)
    requires Serves(p, q, sent)
    ensures Distinct(p.begun)
  {
  }

  // ---- Unqueued dispatches are exactly what it takes -----------------------------------------------------------

  /** What may follow without a new question: messages, output, interrupts, ticks. */
  predicate AsksNothing(more: seq<Timed>) { forall k :: 0 <= k < |more| ==> !more[k].event.Dispatch? }

  /** From no point of the run on can a serial daemon replace a response before the next question. */
  ghost predicate SafeThroughout(events: seq<Timed>) {
    forall k, more :: 0 <= k <= |events| && AsksNothing(more) && Serial(events[..k] + more) ==> NoneReplaced(events[..k] + more)
  }

  /** Main theorem: with a serial daemon, no response can ever be replaced precisely in the runs
      whose dispatches are unqueued. */
  lemma UnqueuedIsExact(events: seq<Timed>)
    requires Serial(events)
    ensures Unqueued(events) <==> SafeThroughout(events)
  {
    hide Serial, NoneReplaced, Unqueued, AsksNothing;
    if Unqueued(events) {
      forall k, more | 0 <= k <= |events| && AsksNothing(more) && Serial(events[..k] + more)
        ensures NoneReplaced(events[..k] + more)
      {
        UnqueuedPrefix(events, k);
        UnqueuedMore(events[..k], more);
        SerialRunsAreSafe(events[..k] + more);
      }
    } else {
      var k, more := QueuedIsUnsafe(events);
      assert !NoneReplaced(events[..k] + more);
    }
  }

  lemma {:induction false} UnqueuedPrefix(events: seq<Timed>, k: nat)
    requires Unqueued(events) && k <= |events|
    ensures Unqueued(events[..k])
  {
    hide Run, Queue;
    if k == |events| {
      assert events[..k] == events;
    } else {
      assert events[..|events| - 1][..k] == events[..k];
      UnqueuedPrefix(events[..|events| - 1], k);
    }
  }

  lemma {:induction false} UnqueuedMore(front: seq<Timed>, more: seq<Timed>)
    requires Unqueued(front) && AsksNothing(more)
    ensures Unqueued(front + more)
  {
    hide Run, Queue;
    if more == [] {
      assert front + more == front;
    } else {
      var n := |more| - 1;
      assert (front + more)[..|front| + n] == front + more[..n];
      UnqueuedMore(front, more[..n]);
    }
  }

  /** The first queued dispatch is the point from which a response can be replaced. */
  lemma {:induction false} QueuedIsUnsafe(events: seq<Timed>) returns (k: nat, more: seq<Timed>)
    requires Serial(events) && !Unqueued(events)
    ensures k <= |events| && AsksNothing(more) && Serial(events[..k] + more) && !NoneReplaced(events[..k] + more)
  {
    hide Run, Queue, NoneReplaced, AsksNothing, FollowsOn;
    var front, t := events[..|events| - 1], events[|events| - 1];
    assert front + [t] == events;
    if !Unqueued(front) {
      k, more := QueuedIsUnsafe(front);
      assert front[..k] == events[..k];
    } else {
      hide Serial;
      k := |events|;
      more := QueuedDispatchReplaces(front, t);
      assert events[..k] == events;
    }
  }

  /** A question dispatched while an earlier one waits: the daemon finishes the interrupted requests
      before that one, and its first words replace the response just opened. */
  lemma QueuedDispatchReplaces(front: seq<Timed>, t: Timed) returns (more: seq<Timed>)
    requires Serial(front + [t]) && Unqueued(front)
    requires t.event.Dispatch? && Run(front).active.None?
    requires exists id :: id in Queue(front) && id !in Run(front).aborted
    ensures AsksNothing(more) && Serial(front + [t] + more) && !NoneReplaced(front + [t] + more)
  {
    var q, p, e := Queue(front), Run(front), front + [t];
    assert e[..|front|] == front;
    hide AsksNothing, NoneReplaced, Unqueued, Step, Run, Queue, Sent;
    assert Serial(front) && t.event.id !in Sent(front);
    hide Serial;
    SerialRunsAreSafe(front);
    StepBooks(p, t);
    OneMore(front, t);
    var waiting :| waiting in q && waiting !in p.aborted;
    var first := FirstWaiting(q, p.aborted, waiting);
    NewIsLast(p, q, Sent(front), t.event.id);
    more := ReplacesFirst(e, first, t.m);
  }

  lemma NewIsLast(p: Model, q: seq<RequestId>, sent: set<RequestId>, id: RequestId)
    requires Serves(p, q, sent) && id !in sent
    ensures Distinct(q + [id]) && id !in q
  {
  }

  lemma {:induction false} FirstWaiting(q: seq<RequestId>, aborted: set<RequestId>, waiting: RequestId) returns (i: nat)
    requires waiting in q && waiting !in aborted
    ensures i < |q| && q[i] !in aborted && forall l :: 0 <= l < i ==> q[l] in aborted
  {
    if q[0] !in aborted {
      return 0;
    }
    assert waiting in q[1..];
    var k := FirstWaiting(q[1..], aborted, waiting);
    i := k + 1;
    forall l | 0 <= l < i ensures q[l] in aborted {
      if l > 0 { assert q[1..][l - 1] == q[l]; }
    }
  }

  /** The `i`-th request of the queue is the first still wanted, and is not the active one. */
  ghost predicate Waiting(p: Model, q: seq<RequestId>, i: nat) {
    && Distinct(q) && i < |q| && q[i] !in p.aborted && (forall l :: 0 <= l < i ==> q[l] in p.aborted)
    && p.active.Some? && p.active.value.id != q[i]
  }

  lemma {:induction false} ReplacesFirst(e: seq<Timed>, i: nat, m: Mirror) returns (more: seq<Timed>)
    requires Serial(e) && Waiting(Run(e), Queue(e), i)
    ensures AsksNothing(more) && Serial(e + more) && !NoneReplaced(e + more)
    decreases i
  {
    hide Run, Queue, Sent, Serial, Step, NoneReplaced, AsksNothing;
    var id := Queue(e)[0];
    if i == 0 {
      var t := Timed(DeltaMsg(id, []), 0, m);
      OneMore(e, t);
      more := [t];
      assert AsksNothing([]) by { NothingAsked(); }
      AsksNothingOf(t, []);
      assert [t] + [] == [t];
      OneReplaced(e, t);
    } else {
      var t := Timed(EndMsg(id, None), 0, m);
      OneMore(e, t);
      StepBooks(Run(e), t);
      var rest := ReplacesFirst(e + [t], i - 1, m);
      AsksNothingOf(t, rest);
      more := [t] + rest;
      assert e + more == e + [t] + rest;
    }
  }

  lemma NothingAsked()
    ensures AsksNothing([])
  {
  }

  lemma AsksNothingOf(t: Timed, rest: seq<Timed>)
    requires !t.event.Dispatch? && AsksNothing(rest)
    ensures AsksNothing([t] + rest)
  {
  }

  lemma OneReplaced(e: seq<Timed>, t: Timed)
    requires Replaces(Run(e), t.event)
    ensures !NoneReplaced(e + [t])
  {
    hide Run;
    assert (e + [t])[..|e|] == e && (e + [t])[|e|] == t;
  }

  // ---- A serial daemon is not enough -----------------------------------------------------------------------------

  /** First come first served alone loses bytes: a question asked between the end of one answer and
      the first words of the next queued one becomes active and holds output, and those first words
      replace it. */
  lemma QueuedDispatchLosesBytes(v: View, x: seq<Byte>) returns (events: seq<Timed>)
    requires !v.restingPrompt && x != [] && |x| < PTY_BUFFER_FUSE_BYTES
    ensures Serial(events)
    ensures Received(events) == x && Kept(Run(events)) == []
  {
    var m: Mirror := (_: Toks) => v;
    var before := BeforeQueuedAnswer(m, x);
    var t := Timed(DeltaMsg("2", "answer"), 0, m);
    events := before + [t];
    assert events[..|before|] == before;
    IdsDiffer();
    ThirdIsHolding(m, x);
    DeltaKept(Run(before), m, "2", "answer", 0);
  }

  /** Two questions, the end of the first answer, a third question, and some command output. */
  function BeforeQueuedAnswer(m: Mirror, x: seq<Byte>): seq<Timed> {
    FirstThree(m) + [Timed(Dispatch("3", false), 0, m)] + [Timed(PtyIn(x), 0, m)]
  }

  function FirstThree(m: Mirror): seq<Timed> {
    [Timed(Dispatch("1", false), 0, m)] + [Timed(Dispatch("2", false), 0, m)] + [Timed(EndMsg("1", None), 0, m)]
  }

  lemma IdsDiffer()
    ensures "1" != "2" && "1" != "3" && "2" != "3"
  {
    assert "1"[0] != "2"[0] && "1"[0] != "3"[0] && "2"[0] != "3"[0];
  }

  /** Appending one step. */
  lemma OneMore(front: seq<Timed>, t: Timed)
    ensures Run(front + [t]) == Step(Run(front), t)
    ensures Received(front + [t]) == Received(front) + BytesIn(t)
    ensures Sent(front + [t]) == Sent(front) + match t.event case Dispatch(id, _) => {id} case _ => {}
    ensures t.event.Dispatch? ==> Queue(front + [t]) == Queue(front) + [t.event.id]
    ensures t.event.EndMsg? && Queue(front) != [] && Queue(front)[0] == t.event.id ==> Queue(front + [t]) == Queue(front)[1..]
    ensures t.event.PtyIn? ==> Queue(front + [t]) == Queue(front)
    ensures Serial(front) && FollowsOn(front, t.event) ==> Serial(front + [t])
  {
    assert (front + [t])[..|front|] == front;
  }

  function Idle(id: RequestId): Response {
    Response(id, Stream, 0, 0, false, false, false, [], [], false, false, false, None)
  }

  lemma AfterThree(m: Mirror)
    requires forall toks :: !m(toks).restingPrompt
    ensures var e := FirstThree(m);
            && Run(e) == Model(map["2" := false], None, {}, [], ["1"], ["1"])
            && Queue(e) == ["2"] && Sent(e) == {"1", "2"} && Serial(e) && Received(e) == []
  {
    IdsDiffer();
    var t1, t2, t3 := Timed(Dispatch("1", false), 0, m), Timed(Dispatch("2", false), 0, m), Timed(EndMsg("1", None), 0, m);
    assert [] + [t1] == [t1];
    OneMore([], t1);
    assert Run([t1]) == Model(map["1" := false], Some(Idle("1")), {}, [], ["1"], []);
    OneMore([t1], t2);
    assert Run([t1] + [t2]) == Model(map["1" := false, "2" := false], Some(Idle("1")), {}, [], ["1"], []);
    OneMore([t1] + [t2], t3);
  }

  lemma ThirdIsHolding(m: Mirror, x: seq<Byte>)
    requires forall toks :: !m(toks).restingPrompt
    requires x != [] && |x| < PTY_BUFFER_FUSE_BYTES
    ensures var e := BeforeQueuedAnswer(m, x);
            && Serial(e) && Queue(e) == ["2", "3"] && Received(e) == x
            && Run(e).active == Some(Idle("3").(bufferedPty := x)) && Run(e).log == [] && Run(e).aborted == {}
  {
    hide FirstThree, Run, Queue, Sent, Serial, Received, Step;
    IdsDiffer();
    AfterThree(m);
    var e := FirstThree(m);
    var t4, t5 := Timed(Dispatch("3", false), 0, m), Timed(PtyIn(x), 0, m);
    OneMore(e, t4);
    DispatchIdle(Run(e), m, "3");
    OneMore(e + [t4], t5);
    PtyHeld(Run(e + [t4]), m, "3", x);
    assert [] + x == x;
  }

  lemma DispatchIdle(p: Model, m: Mirror, id: RequestId)
    requires p.active.None? && !Seen(p, m).restingPrompt
    ensures var q := Step(p, Timed(Dispatch(id, false), 0, m));
            q.active == Some(Idle(id)) && q.log == p.log && q.aborted == p.aborted
  {
  }

  lemma PtyHeld(p: Model, m: Mirror, id: RequestId, x: seq<Byte>)
    requires p.active == Some(Idle(id)) && |x| < PTY_BUFFER_FUSE_BYTES
    ensures Step(p, Timed(PtyIn(x), 0, m)) == p.(active := Some(Idle(id).(bufferedPty := x)))
  {
    assert [] + x == x;
  }
}
