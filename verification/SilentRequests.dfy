/** After an interrupt the request is silent: whatever the daemon still sends for it changes
    nothing but the books of the abort itself. */
module SilentRequests {
  import opened Common
  import opened TerminalStreams
  import opened Presentations
  import opened PresentationRuns
  import opened SerialDaemons

  function RunFrom(p: Model, events: seq<Timed>): Model {
    if events == [] then p else Step(RunFrom(p, events[..|events| - 1]), events[|events| - 1])
  }

  predicate About(e: Event, id: RequestId) { (e.DeltaMsg? || e.ToolMsg? || e.EndMsg?) && e.id == id }

  function Without(events: seq<Timed>, id: RequestId): seq<Timed> {
    if events == [] then []
    else
      var t := events[|events| - 1];
      Without(events[..|events| - 1], id) + if About(t.event, id) then [] else [t]
  }

  /** The request's messages end with its terminal marker, and its id is not dispatched again. */
  ghost predicate EndsItself(events: seq<Timed>, id: RequestId) {
    && (forall k :: 0 <= k < |events| ==> !(events[k].event.Dispatch? && events[k].event.id == id))
    && (forall j, k :: 0 <= j < k < |events| && events[j].event.EndMsg? && events[j].event.id == id ==> !About(events[k].event, id))
  }

  /** `p` has seen messages of the interrupted request that `q` has not, and it does not show. */
  ghost predicate Silent(p: Model, q: Model, id: RequestId) {
    && p == q.(aborted := p.aborted)
    && id in q.aborted && q.aborted == p.aborted + {id}
    && id !in q.dispatched
    && (p.active.Some? ==> p.active.value.id != id)
  }

  lemma StepAbout(p: Model, q: Model, t: Timed, id: RequestId)
    requires Silent(p, q, id) && About(t.event, id) && id in p.aborted
    ensures Silent(Step(p, t), q, id)
    ensures if t.event.EndMsg? then Step(p, t).aborted == p.aborted - {id} else Step(p, t).aborted == p.aborted
  {
    hide Flat;
  }

  /** `p` and `q` differ at most in what is aborted. */
  ghost predicate Twins(p: Model, q: Model) { p == q.(aborted := p.aborted) }

  lemma NoticeTwins(p: Model, q: Model, m: Mirror, text: string, kind: NoticeKind)
    requires Twins(p, q)
    ensures Twins(WithNotice(p, m, text, kind), WithNotice(q, m, text, kind))
    ensures Twins(WithNoticeAbove(p, m, text, kind), WithNoticeAbove(q, m, text, kind))
    ensures Twins(WithNoticeBeforePrompt(p, m, text), WithNoticeBeforePrompt(q, m, text))
  {
    hide Flat, DimLine, EraseRegion, RestoreRegion;
  }

  lemma PtyTwins(p: Model, q: Model, m: Mirror, visible: seq<Byte>, now: nat)
    requires Twins(p, q)
    ensures Twins(PtyOutput(p, m, visible, now), PtyOutput(q, m, visible, now))
  {
    hide Flat, DimLine;
  }

  lemma DeltaTwins(p: Model, q: Model, m: Mirror, id: RequestId, delta: string, now: nat)
    requires Twins(p, q) && (id in p.aborted <==> id in q.aborted)
    ensures Twins(OnDelta(p, m, id, delta, now), OnDelta(q, m, id, delta, now))
  {
    hide StreamDelta, AnchoredDelta, Flat;
    forall a: Response, p1: Model, q1: Model | Twins(p1, q1)
      ensures Twins(StreamDelta(p1, m, a, delta), StreamDelta(q1, m, a, delta))
      ensures Twins(AnchoredDelta(p1, m, a, delta), AnchoredDelta(q1, m, a, delta))
    {
      TextTwins(p1, q1, m, a, delta);
    }
  }

  lemma TextTwins(p: Model, q: Model, m: Mirror, a: Response, delta: string)
    requires Twins(p, q)
    ensures Twins(StreamDelta(p, m, a, delta), StreamDelta(q, m, a, delta))
    ensures Twins(AnchoredDelta(p, m, a, delta), AnchoredDelta(q, m, a, delta))
  {
    hide Flat, Normalized, EraseRegion, RestoreRegion, Resume, TailIntact;
  }

  lemma ToolTwins(p: Model, q: Model, m: Mirror, id: RequestId, message: string, now: nat)
    requires Twins(p, q) && (id in p.aborted <==> id in q.aborted)
    ensures Twins(OnTool(p, m, id, message, now), OnTool(q, m, id, message, now))
  {
    hide Flat, DimLine, EraseRegion, RestoreRegion;
  }

  lemma ClosedTwins(p: Model, q: Model, m: Mirror, a: Response, error: Option<string>)
    requires Twins(p, q)
    ensures Twins(Closed(p, m, a, error), Closed(q, m, a, error))
  {
    hide WithNotice, WithNoticeAbove, WithNoticeBeforePrompt, Flat, EraseRegion, RestoreRegion, BlockText;
    if error.Some? {
      var text := ErrorText(error.value);
      NoticeTwins(p, q, m, text, Plain);
      NoticeTwins(WithTail(p, a), WithTail(q, a), m, text, Plain);
      NoticeTwins(WithBlock(p, m, a), WithBlock(q, m, a), m, text, Plain);
    }
  }

  lemma FinishTwins(p: Model, q: Model, m: Mirror, id: RequestId, error: Option<string>)
    requires Twins(p, q) && (id in p.aborted <==> id in q.aborted)
    ensures Twins(Finish(p, m, id, error), Finish(q, m, id, error))
  {
    hide Closed, WithNotice;
    var p1, q1 := p.(dispatched := p.dispatched - {id}), q.(dispatched := q.dispatched - {id});
    if p.active.Some? {
      ClosedTwins(p1.(active := None, ended := p.ended + [id]), q1.(active := None, ended := q.ended + [id]),
                  m, p.active.value, error);
    }
    if error.Some? { NoticeTwins(p1, q1, m, ErrorText(error.value), Plain); }
  }

  lemma InterruptTwins(p: Model, q: Model, m: Mirror)
    requires Twins(p, q)
    ensures Twins(Interrupt(p, m), Interrupt(q, m))
  {
    hide WithNotice, WithNoticeAbove, WithNoticeBeforePrompt;
    if p.active.Some? {
      var a := p.active.value;
      var p1 := p.(active := None, dispatched := p.dispatched - {a.id}, aborted := p.aborted + {a.id}, ended := p.ended + [a.id]);
      var q1 := q.(active := None, dispatched := q.dispatched - {a.id}, aborted := q.aborted + {a.id}, ended := q.ended + [a.id]);
      NoticeTwins(p1, q1, m, "answer cancelled (^C)", Plain);
      NoticeTwins(p1, q1, m, "answer interrupted (^C)", Plain);
      NoticeTwins(WithTail(p1, a), WithTail(q1, a), m, "answer interrupted (^C)", Plain);
      NoticeTwins(WithTail(p1, a), WithTail(q1, a), m, "answer interrupted (^C); releasing held command output", InterruptBoundary);
    }
  }

  lemma PollTwins(p: Model, q: Model, m: Mirror, now: nat)
    requires Twins(p, q)
    ensures Twins(Polled(p, m, now), Polled(q, m, now))
  {
    hide DimLine, Flat, EraseRegion, RestoreRegion;
  }

  lemma StepTwins(p: Model, q: Model, t: Timed)
    requires Twins(p, q)
    requires t.event.DeltaMsg? || t.event.ToolMsg? || t.event.EndMsg? ==> (t.event.id in p.aborted <==> t.event.id in q.aborted)
    ensures Twins(Step(p, t), Step(q, t))
  {
    hide PtyOutput, OnDelta, OnTool, Finish, Interrupt, Polled, Flat;
    match t.event
    case PtyIn(visible) => PtyTwins(p, q, t.m, visible, t.now);
    case DeltaMsg(id, delta) => DeltaTwins(p, q, t.m, id, delta, t.now);
    case ToolMsg(id, message) => ToolTwins(p, q, t.m, id, message, t.now);
    case EndMsg(id, error) => FinishTwins(p, q, t.m, id, error);
    case Dispatch(id, stillRunning) =>
    case UserInterrupt => InterruptTwins(p, q, t.m);
    case Tick => PollTwins(p, q, t.m, t.now);
  }

  lemma StepOther(p: Model, q: Model, t: Timed, id: RequestId)
    requires Silent(p, q, id) && !About(t.event, id) && !(t.event.Dispatch? && t.event.id == id)
    ensures Silent(Step(p, t), Step(q, t), id)
    ensures id in Step(p, t).aborted <==> id in p.aborted
  {
    hide Step;
    StepTwins(p, q, t);
    StepBooks(p, t);
    StepBooks(q, t);
  }

  /** Dropping the messages of an interrupted request from any later run changes nothing. */
  lemma {:induction false} MessagesAreSilent(p: Model, events: seq<Timed>, id: RequestId)
    requires id in p.aborted && id !in p.dispatched && (p.active.Some? ==> p.active.value.id != id)
    requires EndsItself(events, id)
    ensures Silent(RunFrom(p, events), RunFrom(p, Without(events, id)), id)
    ensures (forall k :: 0 <= k < |events| ==> !(events[k].event.EndMsg? && events[k].event.id == id)) ==>
              id in RunFrom(p, events).aborted
  {
    hide Step;
    if events != [] {
      var front, t := events[..|events| - 1], events[|events| - 1];
      assert forall k :: 0 <= k < |front| ==> front[k] == events[k];
      MessagesAreSilent(p, front, id);
      var a, b := RunFrom(p, front), RunFrom(p, Without(front, id));
      if About(t.event, id) {
        assert forall k :: 0 <= k < |front| ==> !(events[k].event.EndMsg? && events[k].event.id == id);
        StepAbout(a, b, t, id);
        assert Without(front, id) + [] == Without(front, id);
      } else {
        StepOther(a, b, t, id);
        assert (Without(front, id) + [t])[..|Without(front, id)|] == Without(front, id);
      }
    }
  }

  /** Main theorem: after an interrupt, everything still sent for the request, up to and including
      its terminal marker, leaves output, active response and books as if it had not been sent. */
  lemma InterruptSilences(p: Model, m: Mirror, events: seq<Timed>)
    requires p.active.Some? && EndsItself(events, p.active.value.id)
    ensures var id := p.active.value.id;
            var after, quiet := RunFrom(Interrupt(p, m), events), RunFrom(Interrupt(p, m), Without(events, id));
            after == quiet.(aborted := after.aborted)
  {
    hide RunFrom;
    var id := p.active.value.id;
    InterruptAborts(p, m);
    MessagesAreSilent(Interrupt(p, m), events, id);
  }

  lemma InterruptAborts(p: Model, m: Mirror)
    requires p.active.Some?
    ensures var q := Interrupt(p, m); p.active.value.id in q.aborted && p.active.value.id !in q.dispatched && q.active.None?
  {
    hide Interrupt;
    InterruptBooks(p, m);
  }
}
