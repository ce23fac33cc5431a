/** What holds of the output in any presentation run: answer and command output in labelled blocks,
    and deadlines that agree with polling. */
module AnswerBlocks {
  import opened Common
  import opened TerminalStreams
  import opened Presentations
  import opened PresentationRuns

  // ---- Answer and command output stay apart -----------------------------------------------------------

  /** The last AI header has neither PTY output nor a tool line nor the end of its answer after it. */
  predicate UnderHeader(log: seq<Chunk>) {
    if log == [] then false
    else
      match log[|log| - 1]
      case Header(_) => true
      case Pty(_, _) => false
      case Notice(_, kind) => kind != Tool && UnderHeader(log[..|log| - 1])
      case Tail => false
      case _ => UnderHeader(log[..|log| - 1])
  }

  /** The tokens are the line, on a line of its own. */
  predicate IsLine(toks: Toks, line: Toks) { toks == line + NEWLINE || toks == NEWLINE + (line + NEWLINE) }

  function Dimmed(text: string): Toks { [Sgr([2])] + Chars(text) + [Sgr([0])] }

  function Notes(text: string): Toks { Dimmed("[koshell] " + Normalized(text, false)) }

  const INTERRUPT_TEXT: string := "answer interrupted (^C); releasing held command output"

  /** The chunk may follow the log: a delta only under a header, a block released before its
      response closes only right after its boundary notice; header and notices say what they are. */
  predicate Follows(log: seq<Chunk>, c: Chunk) {
    match c
    case Delta(_) => UnderHeader(log)
    case Header(toks) => IsLine(toks, Dimmed("[koshell ai]"))
    case Notice(toks, FuseBoundary) => IsLine(toks, Notes(FUSE_TEXT))
    case Notice(toks, InterruptBoundary) => IsLine(toks, Notes(INTERRUPT_TEXT))
    case Pty(_, Fuse) => log != [] && log[|log| - 1].Notice? && log[|log| - 1].kind == FuseBoundary
    case Pty(_, AtInterrupt) => log != [] && log[|log| - 1].Notice? && log[|log| - 1].kind == InterruptBoundary
    case _ => true
  }

  ghost predicate Labelled(log: seq<Chunk>) {
    forall k :: 0 <= k < |log| ==> Follows(log[..k], log[k])
  }

  lemma PushLabelled(log: seq<Chunk>, c: Chunk)
    requires Labelled(log) && Follows(log, c)
    ensures Labelled(log + [c])
    ensures UnderHeader(log + [c]) == match c
      case Header(_) => true
      case Pty(_, _) => false
      case Notice(_, kind) => kind != Tool && UnderHeader(log)
      case Tail => false
      case _ => UnderHeader(log)
  {
    assert (log + [c])[..|log|] == log;
    forall k | 0 <= k < |log + [c]| ensures Follows((log + [c])[..k], (log + [c])[k]) {
      if k < |log| { assert (log + [c])[..k] == log[..k]; }
    }
  }

  predicate MidAnswer(p: Model) {
    p.active.Some? && p.active.value.HoldingPty() && p.active.value.started && !p.active.value.resumeHeaderPending
  }

  /** A holding response that has begun its answer, and is not about to relabel it, is under its
      header. */
  ghost predicate Apart(p: Model) {
    && Labelled(p.log)
    && (MidAnswer(p) ==> UnderHeader(p.log))
  }

  /** `q` is `p` after output that leaves the labels alone. */
  ghost predicate SameLabel(p: Model, q: Model) {
    q == p.(log := q.log) && (Labelled(p.log) ==> Labelled(q.log) && UnderHeader(q.log) == UnderHeader(p.log))
  }

  lemma NoticeLabel(p: Model, m: Mirror, text: string, kind: NoticeKind)
    requires kind != Tool
    requires kind == FuseBoundary ==> text == FUSE_TEXT
    requires kind == InterruptBoundary ==> text == INTERRUPT_TEXT
    ensures SameLabel(p, WithNotice(p, m, text, kind))
    ensures var last := WithNotice(p, m, text, kind).log; last != [] && last[|last| - 1].Notice? && last[|last| - 1].kind == kind
    ensures SameLabel(p, WithNoticeAbove(p, m, text, kind))
    ensures SameLabel(p, WithNoticeBeforePrompt(p, m, text))
  {
    hide DimLine, Labelled, UnderHeader, EraseRegion, RestoreRegion, Flat, Follows;
    if Labelled(p.log) {
      forall c: Chunk | c.Redraw? || c == Notice(LinePrefix(Seen(p, m)) + DimLine(text), kind)
                        || c == Notice(LinePrefix(Seen(p, m)) + DimLine(text), Plain)
        ensures Labelled(p.log + [c]) && UnderHeader(p.log + [c]) == UnderHeader(p.log)
      {
        BoundaryFollows(p.log, c, LinePrefix(Seen(p, m)), text);
        PushLabelled(p.log, c);
      }
    }
  }

  lemma BoundaryFollows(log: seq<Chunk>, c: Chunk, prefix: Toks, text: string)
    requires prefix == [] || prefix == NEWLINE
    requires c.Redraw? || (c.Notice? && c.toks == prefix + DimLine(text))
    requires c.Notice? && c.kind == FuseBoundary ==> text == FUSE_TEXT
    requires c.Notice? && c.kind == InterruptBoundary ==> text == INTERRUPT_TEXT
    ensures Follows(log, c)
  {
    hide Normalized;
    assert DimLine(text) == Notes(text) + NEWLINE;
    assert [] + DimLine(text) == DimLine(text);
  }

  lemma BlockLabel(p: Model, m: Mirror, a: Response)
    ensures SameLabel(p, WithBlock(p, m, a))
  {
    hide BlockText, Labelled, UnderHeader, EraseRegion, RestoreRegion, Flat;
    if Labelled(p.log) {
      forall c: Chunk | c.Redraw? && Follows(p.log, c)
        ensures Labelled(p.log + [c]) && UnderHeader(p.log + [c]) == UnderHeader(p.log)
      {
        PushLabelled(p.log, c);
      }
    }
  }

  /** The tail ends the answer: nothing after it stands under its header. */
  lemma TailLabel(p: Model, a: Response)
    requires Labelled(p.log)
    ensures var q := WithTail(p, a); q == p.(log := q.log) && Labelled(q.log) && (a.started ==> !UnderHeader(q.log))
  {
    hide Labelled, UnderHeader;
    PushLabelled(p.log, Tail);
  }

  lemma PtyApart(p: Model, m: Mirror, visible: seq<Byte>, now: nat)
    requires Apart(p)
    ensures Apart(PtyOutput(p, m, visible, now))
  {
    hide WithNotice, Labelled, UnderHeader;
    if p.active.Some? && p.active.value.HoldingPty() {
      var a := p.active.value.(bufferedPty := p.active.value.bufferedPty + visible);
      var released := p.(active := Some(a.(bufferedPty := [], resumeHeaderPending := a.resumeHeaderPending || a.started)));
      NoticeLabel(released, m, FUSE_TEXT, FuseBoundary);
      PushLabelled(WithNotice(released, m, FUSE_TEXT, FuseBoundary).log, Pty(a.bufferedPty, Fuse));
      NoticeLabel(p.(active := Some(a.(stallNoticeShown := true, receiptShown := true))), m, STALL_TEXT, Plain);
    } else {
      PushLabelled(p.log, Pty(visible, Through));
    }
  }

  lemma StreamDeltaApart(p: Model, m: Mirror, a: Response, delta: string)
    requires Apart(p) && p.active == Some(a) && a.HoldingPty()
    ensures Apart(StreamDelta(p, m, a, delta))
  {
    hide Labelled, UnderHeader, Normalized, AI_HEADER, Flat;
    var text := Delta(Chars(Normalized(delta, a.lastWasCr)));
    if !a.started || a.resumeHeaderPending {
      var header := Header(LinePrefix(Seen(p, m)) + AI_HEADER);
      HeaderFollows(p.log, LinePrefix(Seen(p, m)));
      PushLabelled(p.log, header);
      PushLabelled(p.log + [header], text);
    } else {
      PushLabelled(p.log, text);
    }
  }

  lemma HeaderFollows(log: seq<Chunk>, prefix: Toks)
    requires prefix == [] || prefix == NEWLINE
    ensures Follows(log, Header(prefix + AI_HEADER))
  {
    assert AI_HEADER == Dimmed("[koshell ai]") + NEWLINE;
    assert [] + AI_HEADER == AI_HEADER;
  }

  lemma AnchoredDeltaApart(p: Model, m: Mirror, a: Response, delta: string)
    requires Apart(p) && a.anchored
    ensures Apart(AnchoredDelta(p, m, a, delta))
  {
    hide Labelled, UnderHeader, Normalized, EraseRegion, RestoreRegion, Resume, TailIntact, Flat;
    var live := Seen(p, m).live;
    if live.Some? {
      var text := Redraw(EraseRegion(live.value) + Resume(a.aiEnd) + Chars(Normalized(delta, a.lastWasCr)));
      PushLabelled(p.log, text);
      PushLabelled(p.log + [text], Redraw(NEWLINE + RestoreRegion(live.value)));
    }
  }

  lemma DeltaApart(p: Model, m: Mirror, id: RequestId, delta: string, now: nat)
    requires Apart(p)
    ensures Apart(OnDelta(p, m, id, delta, now))
  {
    hide Labelled, UnderHeader, StreamDelta, AnchoredDelta;
    if id !in p.aborted {
      var p1 :=
        if p.active.None? || p.active.value.id != id
        then Begun(p, m, id, if id in p.dispatched && !p.dispatched[id] then Stream else Block, now)
        else p;
      var a := p1.active.value.(lastProgressAt := now);
      var p2 := p1.(active := Some(a));
      if a.anchored { AnchoredDeltaApart(p2, m, a, delta); } else if a.mode == Stream { StreamDeltaApart(p2, m, a, delta); }
    }
  }

  lemma ToolApart(p: Model, m: Mirror, id: RequestId, message: string, now: nat)
    requires Apart(p)
    ensures Apart(OnTool(p, m, id, message, now))
  {
    hide Labelled, UnderHeader, DimLine, EraseRegion, RestoreRegion, Flat;
    forall c: Chunk | c.Redraw? || (c.Notice? && c.kind == Tool) ensures Labelled(p.log + [c]) {
      PushLabelled(p.log, c);
    }
  }

  lemma ClosedApart(p: Model, m: Mirror, a: Response, error: Option<string>)
    requires Labelled(p.log) && p.active.None?
    ensures Labelled(Closed(p, m, a, error).log) && Closed(p, m, a, error).active.None?
  {
    hide Labelled, UnderHeader, WithNotice, WithNoticeAbove, WithNoticeBeforePrompt, WithBlock, WithTail;
    var text := if error.Some? then ErrorText(error.value) else [];
    TailLabel(p, a);
    BlockLabel(p, m, a);
    if a.mode == Block {
      NoticeLabel(WithBlock(p, m, a), m, text, Plain);
    } else if a.anchored {
      NoticeLabel(p, m, text, Plain);
    } else {
      var p1 := WithTail(p, a);
      NoticeLabel(p1, m, text, Plain);
      PushLabelled(p1.log, Pty(a.bufferedPty, AtFinish));
      PushLabelled(WithNotice(p1, m, text, Plain).log, Pty(a.bufferedPty, AtFinish));
    }
  }

  lemma FinishApart(p: Model, m: Mirror, id: RequestId, error: Option<string>)
    requires Apart(p)
    ensures Apart(Finish(p, m, id, error))
  {
    hide Labelled, UnderHeader, WithNotice, Closed;
    var p1 := p.(dispatched := p.dispatched - {id});
    if p.active.Some? { ClosedApart(p1.(active := None, ended := p.ended + [id]), m, p.active.value, error); }
    if error.Some? { NoticeLabel(p1, m, ErrorText(error.value), Plain); }
  }

  lemma InterruptApart(p: Model, m: Mirror)
    requires Apart(p)
    ensures Apart(Interrupt(p, m))
  {
    hide Labelled, UnderHeader, WithNotice, WithNoticeAbove, WithNoticeBeforePrompt, WithTail;
    if p.active.Some? {
      var a := p.active.value;
      var p1 := p.(active := None, dispatched := p.dispatched - {a.id}, aborted := p.aborted + {a.id}, ended := p.ended + [a.id]);
      var p2 := WithTail(p1, a);
      TailLabel(p1, a);
      NoticeLabel(p1, m, "answer cancelled (^C)", Plain);
      NoticeLabel(p1, m, "answer interrupted (^C)", Plain);
      NoticeLabel(p2, m, "answer interrupted (^C)", Plain);
      var text := "answer interrupted (^C); releasing held command output";
      NoticeLabel(p2, m, text, InterruptBoundary);
      PushLabelled(WithNotice(p2, m, text, InterruptBoundary).log, Pty(a.bufferedPty, AtInterrupt));
    }
  }

  lemma PollApart(p: Model, m: Mirror, now: nat)
    requires Apart(p)
    ensures Apart(Polled(p, m, now))
  {
    hide Labelled, UnderHeader, WithNotice, WithNoticeAbove;
    if p.active.Some? {
      var a := p.active.value;
      var shown := p.(active := Some(a.(receiptShown := true)));
      NoticeLabel(shown, m, WAITING_TEXT, Plain);
      var p1 := if !ReceiptDue(a, now) then p
                else if a.anchored then WithNoticeAbove(shown, m, WAITING_TEXT, Plain)
                else WithNotice(shown, m, WAITING_TEXT, Plain);
      NoticeLabel(p1.(active := Some(p1.active.value.(stallNoticeShown := true, receiptShown := true))), m, STALL_TEXT, Plain);
    }
  }

  /** Main theorem: in every run no streamed delta follows released output or a tool line without
      an AI header in between, and every block released before its response closes comes right
      after its boundary notice. */
  lemma {:induction false} NeverRunTogether(events: seq<Timed>)
    ensures Apart(Run(events))
  {
    hide PtyOutput, OnDelta, OnTool, Finish, Interrupt, Polled;
    if events != [] {
      var front, t := events[..|events| - 1], events[|events| - 1];
      NeverRunTogether(front);
      var p := Run(front);
      match t.event
      case PtyIn(visible) => PtyApart(p, t.m, visible, t.now);
      case DeltaMsg(id, delta) => DeltaApart(p, t.m, id, delta, t.now);
      case ToolMsg(id, message) => ToolApart(p, t.m, id, message, t.now);
      case EndMsg(id, error) => FinishApart(p, t.m, id, error);
      case Dispatch(id, stillRunning) =>
      case UserInterrupt => InterruptApart(p, t.m);
      case Tick => PollApart(p, t.m, t.now);
    }
  }

  // ---- Deadlines ------------------------------------------------------------------------------------------------

  /** A poll writes only when the receipt or the stall notice is due. */
  lemma PollWrites(p: Model, m: Mirror, t: nat)
    requires p.active.Some? && !ReceiptDue(p.active.value, t) && !StallDue(p.active.value, t)
    ensures Polled(p, m, t) == p
  {
  }

  /** Main theorem: after a poll at `now` the next deadline is absent or strictly ahead, and no
      later poll does anything before it. */
  lemma DeadlinesAgreeWithPoll(p: Model, m: Mirror, now: nat, m': Mirror, t: nat)
    requires now <= t
    ensures var q := Polled(p, m, now);
            match NextDeadline(q, now)
            case None => Polled(q, m', t) == q
            case Some(d) => d > 0 && (t < now + d ==> Polled(q, m', t) == q)
  {
    hide WithNotice, WithNoticeAbove;
    if p.active.Some? {
      PolledResponse(p, m, now);
      var q := Polled(p, m, now);
      if !ReceiptDue(q.active.value, t) && !StallDue(q.active.value, t) { PollWrites(q, m', t); }
    }
  }

  lemma PolledResponse(p: Model, m: Mirror, now: nat)
    requires p.active.Some?
    ensures var a := p.active.value;
            Polled(p, m, now).active
            == Some(a.(receiptShown := a.receiptShown || ReceiptDue(a, now) || StallDue(a, now),
                       stallNoticeShown := a.stallNoticeShown || StallDue(a, now)))
  {
    hide DimLine, Flat, EraseRegion, RestoreRegion;
  }
}
