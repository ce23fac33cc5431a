/** Runs of the presentation state machine: no PTY byte is lost, answers and command output stay
    in labelled blocks, responses close once and stay silent, and deadlines agree with polling. */
module PresentationRuns {
  import opened Common
  import opened TerminalStreams
  import opened Presentations

  datatype Event =
    | PtyIn(visible: seq<Byte>)
    | DeltaMsg(id: RequestId, delta: string)
    | ToolMsg(id: RequestId, message: string)
    | EndMsg(id: RequestId, error: Option<string>)
    | Dispatch(id: RequestId, stillRunning: bool)
    | UserInterrupt
    | Tick

  /** An event, when it happened, and the mirror it saw. */
  datatype Timed = Timed(event: Event, now: nat, m: Mirror)

  function Step(p: Model, t: Timed): Model {
    match t.event
    case PtyIn(visible) => PtyOutput(p, t.m, visible, t.now)
    case DeltaMsg(id, delta) => OnDelta(p, t.m, id, delta, t.now)
    case ToolMsg(id, message) => OnTool(p, t.m, id, message, t.now)
    case EndMsg(id, error) => Finish(p, t.m, id, error)
    case Dispatch(id, stillRunning) => Dispatched(p, t.m, id, stillRunning, t.now)
    case UserInterrupt => Interrupt(p, t.m)
    case Tick => Polled(p, t.m, t.now)
  }

  function Run(events: seq<Timed>): Model {
    if events == [] then NEW else Step(Run(events[..|events| - 1]), events[|events| - 1])
  }

  // ---- PTY conservation ------------------------------------------------------------------------------

  function PtyOf(log: seq<Chunk>): seq<Byte> {
    if log == [] then []
    else PtyOf(log[..|log| - 1]) + if log[|log| - 1].Pty? then log[|log| - 1].bytes else []
  }

  function HeldBytes(p: Model): seq<Byte> { if p.active.Some? then p.active.value.bufferedPty else [] }

  function BytesIn(t: Timed): seq<Byte> { if t.event.PtyIn? then t.event.visible else [] }

  function Received(events: seq<Timed>): seq<Byte> {
    if events == [] then [] else Received(events[..|events| - 1]) + BytesIn(events[|events| - 1])
  }

  /** PTY bytes accounted for: written, or held. */
  function Kept(p: Model): seq<Byte> { PtyOf(p.log) + HeldBytes(p) }

  /** Only a response that is holding has held bytes, and always under the fuse. */
  ghost predicate Holds(p: Model) {
    p.active.Some? ==>
      && (p.active.value.bufferedPty != [] ==> p.active.value.HoldingPty())
      && |p.active.value.bufferedPty| < PTY_BUFFER_FUSE_BYTES
  }

  /** The delta opens a response while another is still active. */
  predicate Replaces(p: Model, e: Event) {
    e.DeltaMsg? && e.id !in p.aborted && p.active.Some? && p.active.value.id != e.id
  }

  /** Writing presentation output adds no PTY bytes. */
  lemma PtyOfPush(log: seq<Chunk>, c: Chunk)
    ensures PtyOf(log + [c]) == PtyOf(log) + if c.Pty? then c.bytes else []
  {
    assert (log + [c])[..|log|] == log;
  }

  /** `q` is `p` after writing only presentation output. */
  ghost predicate OnlyChrome(p: Model, q: Model) {
    && PtyOf(q.log) == PtyOf(p.log)
    && q == p.(log := q.log)
  }

  lemma NoticeIsChrome(p: Model, m: Mirror, text: string, kind: NoticeKind)
    ensures OnlyChrome(p, WithNotice(p, m, text, kind))
    ensures OnlyChrome(p, WithNoticeAbove(p, m, text, kind))
    ensures OnlyChrome(p, WithNoticeBeforePrompt(p, m, text))
  {
    hide DimLine, PtyOf;
    forall c: Chunk ensures PtyOf(p.log + [c]) == PtyOf(p.log) + if c.Pty? then c.bytes else [] { PtyOfPush(p.log, c); }
  }

  lemma BlockIsChrome(p: Model, m: Mirror, a: Response)
    ensures OnlyChrome(p, WithBlock(p, m, a))
  {
    hide BlockText, PtyOf;
    forall c: Chunk ensures PtyOf(p.log + [c]) == PtyOf(p.log) + if c.Pty? then c.bytes else [] { PtyOfPush(p.log, c); }
  }

  lemma PtyKept(p: Model, m: Mirror, visible: seq<Byte>, now: nat)
    requires Holds(p)
    ensures Holds(PtyOutput(p, m, visible, now)) && Kept(PtyOutput(p, m, visible, now)) == Kept(p) + visible
  {
    hide WithNotice, PtyOf;
    if p.active.Some? && p.active.value.HoldingPty() {
      var a := p.active.value.(bufferedPty := p.active.value.bufferedPty + visible);
      assert PtyOf(p.log) + (p.active.value.bufferedPty + visible) == Kept(p) + visible;
      if |a.bufferedPty| >= PTY_BUFFER_FUSE_BYTES {
        var released := a.(bufferedPty := [], resumeHeaderPending := a.resumeHeaderPending || a.started);
        ReleasedKept(p.(active := Some(released)), m, a.bufferedPty);
      } else {
        NoticeIsChrome(p.(active := Some(a.(stallNoticeShown := true, receiptShown := true))), m, STALL_TEXT, Plain);
      }
    } else {
      PtyOfPush(p.log, Pty(visible, Through));
      assert HeldBytes(p) == [];
    }
  }

  lemma ReleasedKept(p: Model, m: Mirror, bytes: seq<Byte>)
    requires HeldBytes(p) == []
    ensures var q := Put(WithNotice(p, m, FUSE_TEXT, FuseBoundary), Pty(bytes, Fuse));
            Kept(q) == PtyOf(p.log) + bytes && q.active == p.active
  {
    hide WithNotice, PtyOf;
    NoticeIsChrome(p, m, FUSE_TEXT, FuseBoundary);
    PtyOfPush(WithNotice(p, m, FUSE_TEXT, FuseBoundary).log, Pty(bytes, Fuse));
  }

  /** The response is still the same one, holding the same bytes. */
  ghost predicate SameHold(a: Response, q: Model) {
    q.active.Some? && q.active.value.bufferedPty == a.bufferedPty
    && (a.anchored || q.active.value.HoldingPty() == a.HoldingPty())
  }

  lemma StreamDeltaKept(p: Model, m: Mirror, a: Response, delta: string)
    ensures PtyOf(StreamDelta(p, m, a, delta).log) == PtyOf(p.log) && SameHold(a, StreamDelta(p, m, a, delta))
  {
    hide PtyOf, Normalized, AI_HEADER;
    var header := Header(LinePrefix(Seen(p, m)) + AI_HEADER);
    PtyOfPush(p.log, header);
    PtyOfPush(p.log + [header], Delta(Chars(Normalized(delta, a.lastWasCr))));
    PtyOfPush(p.log, Delta(Chars(Normalized(delta, a.lastWasCr))));
  }

  lemma AnchoredDeltaKept(p: Model, m: Mirror, a: Response, delta: string)
    requires a.anchored
    ensures PtyOf(AnchoredDelta(p, m, a, delta).log) == PtyOf(p.log) && SameHold(a, AnchoredDelta(p, m, a, delta))
  {
    hide PtyOf, Normalized, EraseRegion, RestoreRegion, TailIntact, Resume;
    var live := Seen(p, m).live;
    if live.Some? {
      var text := Redraw(EraseRegion(live.value) + Resume(a.aiEnd) + Chars(Normalized(delta, a.lastWasCr)));
      PtyOfPush(p.log, text);
      PtyOfPush(p.log + [text], Redraw(NEWLINE + RestoreRegion(live.value)));
    }
  }

  lemma DeltaKept(p: Model, m: Mirror, id: RequestId, delta: string, now: nat)
    requires Holds(p)
    ensures var q := OnDelta(p, m, id, delta, now);
            && Holds(q)
            && Kept(q) == PtyOf(p.log) + if Replaces(p, DeltaMsg(id, delta)) then [] else HeldBytes(p)
  {
    hide PtyOf, StreamDelta, AnchoredDelta;
    if id !in p.aborted {
      var p1 :=
        if p.active.None? || p.active.value.id != id
        then Begun(p, m, id, if id in p.dispatched && !p.dispatched[id] then Stream else Block, now)
        else p;
      var a := p1.active.value.(lastProgressAt := now);
      var p2 := p1.(active := Some(a));
      StreamDeltaKept(p2, m, a, delta);
      if a.anchored { AnchoredDeltaKept(p2, m, a, delta); }
    }
  }

  lemma ToolKept(p: Model, m: Mirror, id: RequestId, message: string, now: nat)
    requires Holds(p)
    ensures Holds(OnTool(p, m, id, message, now)) && Kept(OnTool(p, m, id, message, now)) == Kept(p)
  {
    hide PtyOf, WithNotice, WithNoticeAbove;
    if p.active.Some? {
      NoticeIsChrome(p.(active := Some(p.active.value.(receiptShown := true, lastProgressAt := now))), m, message, Tool);
    }
  }

  lemma HeldWritten(p: Model, a: Response, how: PtyHow)
    ensures PtyOf(WithHeld(p, a, how).log) == PtyOf(p.log) + a.bufferedPty && WithHeld(p, a, how).active == p.active
    ensures PtyOf(WithTail(p, a).log) == PtyOf(p.log) && WithTail(p, a).active == p.active
  {
    hide PtyOf;
    PtyOfPush(p.log, Pty(a.bufferedPty, how));
    PtyOfPush(p.log, Tail);
    assert PtyOf(p.log) + [] == PtyOf(p.log);
  }

  lemma ClosedKept(p: Model, m: Mirror, a: Response, error: Option<string>)
    requires p.active.None? && (a.bufferedPty != [] ==> a.HoldingPty())
    ensures Closed(p, m, a, error).active.None? && PtyOf(Closed(p, m, a, error).log) == PtyOf(p.log) + a.bufferedPty
  {
    hide PtyOf, WithNotice, WithNoticeAbove, WithNoticeBeforePrompt, WithBlock, WithTail, WithHeld;
    var text := if error.Some? then ErrorText(error.value) else [];
    assert a.bufferedPty == [] ==> PtyOf(p.log) + a.bufferedPty == PtyOf(p.log);
    if a.mode == Block {
      BlockIsChrome(p, m, a);
      NoticeIsChrome(WithBlock(p, m, a), m, text, Plain);
    } else if a.anchored {
      NoticeIsChrome(p, m, text, Plain);
    } else {
      var p1 := WithTail(p, a);
      HeldWritten(p, a, AtFinish);
      NoticeIsChrome(p1, m, text, Plain);
      HeldWritten(p1, a, AtFinish);
      HeldWritten(WithNotice(p1, m, text, Plain), a, AtFinish);
    }
  }

  lemma FinishKept(p: Model, m: Mirror, id: RequestId, error: Option<string>)
    requires Holds(p)
    ensures Holds(Finish(p, m, id, error)) && Kept(Finish(p, m, id, error)) == Kept(p)
  {
    hide PtyOf, WithNotice, Closed;
    var p1 := p.(dispatched := p.dispatched - {id});
    if p.active.Some? { ClosedKept(p1.(active := None, ended := p.ended + [id]), m, p.active.value, error); }
    if error.Some? { NoticeIsChrome(p1, m, ErrorText(error.value), Plain); }
  }

  lemma InterruptKept(p: Model, m: Mirror)
    requires Holds(p)
    ensures Holds(Interrupt(p, m)) && Kept(Interrupt(p, m)) == Kept(p)
  {
    hide PtyOf, WithNotice, WithNoticeAbove, WithNoticeBeforePrompt, WithTail, WithHeld;
    if p.active.Some? {
      var a := p.active.value;
      var p1 := p.(active := None, dispatched := p.dispatched - {a.id}, aborted := p.aborted + {a.id}, ended := p.ended + [a.id]);
      var p2 := WithTail(p1, a);
      HeldWritten(p1, a, AtInterrupt);
      NoticeIsChrome(p1, m, "answer cancelled (^C)", Plain);
      NoticeIsChrome(p1, m, "answer interrupted (^C)", Plain);
      NoticeIsChrome(p2, m, "answer interrupted (^C)", Plain);
      var text := "answer interrupted (^C); releasing held command output";
      NoticeIsChrome(p2, m, text, InterruptBoundary);
      HeldWritten(WithNotice(p2, m, text, InterruptBoundary), a, AtInterrupt);
      assert a.bufferedPty == [] ==> PtyOf(p.log) + a.bufferedPty == PtyOf(p.log);
    }
  }

  lemma PollKept(p: Model, m: Mirror, now: nat)
    requires Holds(p)
    ensures Holds(Polled(p, m, now)) && Kept(Polled(p, m, now)) == Kept(p)
  {
    hide PtyOf, WithNotice, WithNoticeAbove;
    if p.active.Some? {
      var a := p.active.value;
      var shown := p.(active := Some(a.(receiptShown := true)));
      NoticeIsChrome(shown, m, WAITING_TEXT, Plain);
      var p1 := if !ReceiptDue(a, now) then p
                else if a.anchored then WithNoticeAbove(shown, m, WAITING_TEXT, Plain)
                else WithNotice(shown, m, WAITING_TEXT, Plain);
      NoticeIsChrome(p1.(active := Some(p1.active.value.(stallNoticeShown := true, receiptShown := true))), m, STALL_TEXT, Plain);
    }
  }

  /** The delta takes the place of a response that holds bytes. */
  predicate Loses(p: Model, e: Event) { Replaces(p, e) && HeldBytes(p) != [] }

  /** One step keeps every PTY byte, in order, exactly once: precisely unless it is a delta that
      replaces a response holding some. */
  lemma StepKeepsIff(p: Model, t: Timed)
    requires Holds(p)
    ensures Holds(Step(p, t))
    ensures Kept(Step(p, t)) == Kept(p) + BytesIn(t) <==> !Loses(p, t.event)
    ensures Loses(p, t.event) ==> |Kept(Step(p, t))| < |Kept(p) + BytesIn(t)|
  {
    hide PtyOf, PtyOutput, OnDelta, OnTool, Finish, Interrupt, Polled;
    assert Kept(p) + [] == Kept(p);
    match t.event
    case PtyIn(visible) => PtyKept(p, t.m, visible, t.now);
    case DeltaMsg(id, delta) =>
      DeltaKept(p, t.m, id, delta, t.now);
      assert |PtyOf(p.log) + HeldBytes(p)| == |PtyOf(p.log)| + |HeldBytes(p)|;
    case ToolMsg(id, message) => ToolKept(p, t.m, id, message, t.now);
    case EndMsg(id, error) => FinishKept(p, t.m, id, error);
    case Dispatch(id, stillRunning) =>
    case UserInterrupt => InterruptKept(p, t.m);
    case Tick => PollKept(p, t.m, t.now);
  }

  /** No delta of the run replaces a response that holds bytes. */
  ghost predicate NoneLost(events: seq<Timed>) {
    forall k :: 0 <= k < |events| ==> !Loses(Run(events[..k]), events[k].event)
  }

  lemma NoneLostStep(events: seq<Timed>)
    requires events != []
    ensures var n := |events| - 1;
            NoneLost(events) <==> NoneLost(events[..n]) && !Loses(Run(events[..n]), events[n].event)
  {
    hide Run, Loses;
    var n := |events| - 1;
    assert forall k :: 0 <= k < n ==> events[..n][..k] == events[..k] && events[..n][k] == events[k];
  }

  /** Main theorem: the PTY bytes written, followed by those held, are all the bytes received, in
      order, each exactly once, precisely in the runs in which no held bytes are replaced; and
      fewer than 256 KiB are held in any run. */
  lemma {:induction false} PtyConserved(events: seq<Timed>)
    ensures Kept(Run(events)) == Received(events) <==> NoneLost(events)
    ensures !NoneLost(events) ==> |Kept(Run(events))| < |Received(events)|
    ensures Holds(Run(events)) && |HeldBytes(Run(events))| < PTY_BUFFER_FUSE_BYTES
  {
    hide Step, Loses, PtyOf, NoneLost, Kept;
    if events == [] {
      NothingKept();
      assert NoneLost([]) by { NothingLost(); }
    } else {
      var front, t := events[..|events| - 1], events[|events| - 1];
      PtyConserved(front);
      NoneLostStep(events);
      StepKeepsIff(Run(front), t);
      StepKeepsAtMost(Run(front), t);
    }
  }

  lemma NothingLost()
    ensures NoneLost([])
  {
  }

  lemma StepKeepsAtMost(p: Model, t: Timed)
    requires Holds(p)
    ensures |Kept(Step(p, t))| <= |Kept(p)| + |BytesIn(t)|
  {
    hide Step, Kept, Loses;
    StepKeepsIff(p, t);
  }

  lemma NothingKept()
    ensures Kept(NEW) == []
  {
  }
}
