/** What a presentation run announces and when: blocks, errors, tool lines and notices in the output,
    command output held or written, and no silence past the deadlines. */
module Announcements {
  import opened Common
  import opened TerminalStreams
  import opened Presentations
  import opened PresentationRuns
  import opened AnswerTexts

  /** The output is the contents of its pieces, in order. */
  lemma PiecesAreWritten(log: seq<Chunk>, c: Chunk)
    ensures c.Pty? ==> Flat(log + [c]) == Flat(log) + Raws(c.bytes)
    ensures c.Tail? ==> Flat(log + [c]) == Flat(log) + [Ch('\r'), Ch('\n')]
    ensures c.Notice? || c.Header? || c.Delta? || c.Redraw? ==> Flat(log + [c]) == Flat(log) + c.toks
  {
    FlatPush(log, c);
  }

  // ---- Text in the output -----------------------------------------------------------------------------------

  /** Between `p` and `q` the tokens are written, in one piece. */
  ghost predicate Shows(p: Model, q: Model, toks: Toks) {
    exists before, after: Toks :: Flat(q.log) == Flat(p.log) + before + toks + after
  }

  lemma ShownBy(p: Model, q: Model, toks: Toks, before: Toks, after: Toks)
    requires Flat(q.log) == Flat(p.log) + before + toks + after
    ensures Shows(p, q, toks)
  {
  }

  ghost predicate Extends(p: Model, q: Model) { exists more: Toks :: Flat(q.log) == Flat(p.log) + more }

  lemma ExtendedBy(p: Model, q: Model, more: Toks)
    requires Flat(q.log) == Flat(p.log) + more
    ensures Extends(p, q)
  {
  }

  lemma ShownLater(p: Model, q: Model, r: Model, toks: Toks)
    requires Extends(p, q) && Shows(q, r, toks)
    ensures Shows(p, r, toks)
  {
    hide Flat;
    var more: Toks :| Flat(q.log) == Flat(p.log) + more;
    var before: Toks, after: Toks :| Flat(r.log) == Flat(q.log) + before + toks + after;
    assert Flat(p.log) + more + before == Flat(p.log) + (more + before);
    ShownBy(p, r, toks, more + before, after);
  }

  lemma ShownStill(p: Model, q: Model, r: Model, toks: Toks)
    requires Shows(p, q, toks) && Extends(q, r)
    ensures Shows(p, r, toks)
  {
    hide Flat;
    var before: Toks, after: Toks :| Flat(q.log) == Flat(p.log) + before + toks + after;
    var more: Toks :| Flat(r.log) == Flat(q.log) + more;
    assert Flat(p.log) + before + toks + after + more == Flat(p.log) + before + toks + (after + more);
    ShownBy(p, r, toks, before, after + more);
  }

  lemma ShowsExtends(p: Model, q: Model, toks: Toks)
    requires Shows(p, q, toks)
    ensures Extends(p, q)
  {
    hide Flat;
    var before: Toks, after: Toks :| Flat(q.log) == Flat(p.log) + before + toks + after;
    assert Flat(p.log) + before + toks + after == Flat(p.log) + (before + toks + after);
    ExtendedBy(p, q, before + toks + after);
  }

  lemma PutExtends(p: Model, q: Model, c: Chunk)
    requires q.log == p.log + [c]
    ensures Extends(p, q)
  {
    hide Flat;
    FlatPush(p.log, c);
    ExtendedBy(p, q, ChunkToks(c));
  }

  lemma SameExtends(p: Model, q: Model)
    requires q.log == p.log
    ensures Extends(p, q)
  {
    hide Flat;
    assert Flat(p.log) + [] == Flat(p.log);
    ExtendedBy(p, q, []);
  }

  /** The visible text of a notice. */
  function NoticeText(text: string): Toks { Chars("[koshell] " + Normalized(text, false)) }

  lemma NoticeParts(text: string)
    ensures DimLine(text) == [Sgr([2])] + NoticeText(text) + ([Sgr([0])] + NEWLINE)
  {
    hide Normalized;
  }

  lemma Around(all: Toks, before: Toks, first: Toks, toks: Toks, last: Toks, after: Toks)
    ensures all + (before + (first + toks + last) + after) == all + (before + first) + toks + (last + after)
  {
    assert before + (first + toks + last) + after == (before + first) + toks + (last + after);
    assert all + ((before + first) + toks + (last + after)) == all + (before + first) + toks + (last + after);
  }

  lemma ChunkShows(p: Model, q: Model, c: Chunk, before: Toks, first: Toks, toks: Toks, last: Toks, after: Toks)
    requires q.log == p.log + [c] && ChunkToks(c) == before + (first + toks + last) + after
    ensures Shows(p, q, toks)
  {
    hide Flat;
    FlatPush(p.log, c);
    Around(Flat(p.log), before, first, toks, last, after);
    ShownBy(p, q, toks, before + first, last + after);
  }

  /** However it is placed, a notice shows its text. */
  lemma NoticeShows(p: Model, m: Mirror, text: string, kind: NoticeKind)
    ensures Shows(p, WithNotice(p, m, text, kind), NoticeText(text))
    ensures Shows(p, WithNoticeAbove(p, m, text, kind), NoticeText(text))
    ensures Shows(p, WithNoticeBeforePrompt(p, m, text), NoticeText(text))
  {
    NoticeParts(text);
    var first, last := [Sgr([2])], [Sgr([0])] + NEWLINE;
    hide DimLine, Flat, Shows, EraseRegion, RestoreRegion, NoticeText;
    forall k: NoticeKind ensures Shows(p, WithNotice(p, m, text, k), NoticeText(text)) {
      var prefix := LinePrefix(Seen(p, m));
      assert prefix + DimLine(text) + [] == prefix + DimLine(text);
      ChunkShows(p, WithNotice(p, m, text, k), Notice(prefix + DimLine(text), k), prefix, first, NoticeText(text), last, []);
    }
    if Seen(p, m).live.Some? {
      var region := Seen(p, m).live.value;
      var toks := EraseRegion(region) + DimLine(text) + RestoreRegion(region);
      ChunkShows(p, WithNoticeAbove(p, m, text, kind), Redraw(toks), EraseRegion(region), first, NoticeText(text), last,
                 RestoreRegion(region));
      ChunkShows(p, WithNoticeAbove(p, m, text, Plain), Redraw(toks), EraseRegion(region), first, NoticeText(text), last,
                 RestoreRegion(region));
    }
  }

  /** The block of a response in block mode: header, text, newline. */
  function Block(text: string): Toks { AI_HEADER + Chars(Normalized(text, false)) + NEWLINE }

  lemma BlockShows(p: Model, m: Mirror, a: Response)
    requires a.accumulated != []
    ensures Shows(p, WithBlock(p, m, a), Block(a.accumulated))
  {
    hide Flat, Shows, EraseRegion, RestoreRegion, Normalized, AI_HEADER;
    var v, block := Seen(p, m), Block(a.accumulated);
    assert BlockText(a) == block;
    hide Block, BlockText;
    assert [] + block + [] == block;
    var prefix := LinePrefix(v);
    assert prefix + block + [] == prefix + block;
    ChunkShows(p, Put(p, Redraw(prefix + block)), Redraw(prefix + block), prefix, [], block, [], []);
    if v.live.Some? {
      var region := v.live.value;
      var toks := EraseRegion(region) + block + RestoreRegion(region);
      ChunkShows(p, Put(p, Redraw(toks)), Redraw(toks), EraseRegion(region), [], block, [], RestoreRegion(region));
    }
  }

  lemma TailExtends(p: Model, a: Response, how: PtyHow)
    ensures Extends(p, WithTail(p, a)) && Extends(p, WithHeld(p, a, how))
  {
    hide Flat, Extends;
    if a.started { PutExtends(p, WithTail(p, a), Tail); } else { SameExtends(p, p); }
    if a.bufferedPty != [] { PutExtends(p, WithHeld(p, a, how), Pty(a.bufferedPty, how)); } else { SameExtends(p, p); }
  }

  /** Closing a response shows its block, if it has one, and the error, if there is one. */
  lemma ClosedShows(p: Model, m: Mirror, a: Response, error: Option<string>)
    ensures a.mode == Mode.Block && a.accumulated != [] ==> Shows(p, Closed(p, m, a, error), Block(a.accumulated))
    ensures error.Some? ==> Shows(p, Closed(p, m, a, error), NoticeText("AI error: " + error.value))
  {
    hide Flat, Shows, Extends, WithNotice, WithNoticeAbove, WithNoticeBeforePrompt, WithTail, WithHeld, WithBlock, NoticeText, Block;
    var text := "AI error: " + error.GetOr([]);
    if a.mode == Mode.Block {
      var p1 := WithBlock(p, m, a);
      NoticeShows(p1, m, text, Plain);
      ShowsExtends(p1, WithNoticeBeforePrompt(p1, m, text), NoticeText(text));
      if a.accumulated != [] {
        BlockShows(p, m, a);
        ShowsExtends(p, p1, Block(a.accumulated));
        ShownStill(p, p1, WithNoticeBeforePrompt(p1, m, text), Block(a.accumulated));
      } else {
        assert p1 == p by { NoBlock(p, m, a); }
        SameExtends(p, p1);
      }
      if error.Some? { ShownLater(p, p1, WithNoticeBeforePrompt(p1, m, text), NoticeText(text)); }
    } else if a.anchored {
      NoticeShows(p, m, text, Plain);
    } else if error.Some? {
      var p1 := WithTail(p, a);
      var p2 := WithNotice(p1, m, text, Plain);
      TailExtends(p, a, AtFinish);
      NoticeShows(p1, m, text, Plain);
      ShownLater(p, p1, p2, NoticeText(text));
      TailExtends(p2, a, AtFinish);
      ShownStill(p, p2, WithHeld(p2, a, AtFinish), NoticeText(text));
    }
  }

  lemma NoBlock(p: Model, m: Mirror, a: Response)
    requires a.accumulated == []
    ensures WithBlock(p, m, a) == p
  {
  }

  /** Main theorem: when a response in block mode ends, its block is what was said to it in block
      mode, under a header, written once and in one piece; whatever ends with an error says so. */
  lemma EndIsShown(events: seq<Timed>, m: Mirror, id: RequestId, error: Option<string>, now: nat)
    requires id !in Run(events).aborted
    ensures var p := Run(events);
            var q := Step(p, Timed(EndMsg(id, error), now, m));
            && (p.active.Some? && p.active.value.id == id && p.active.value.mode == Mode.Block && SaidInBlock(events) != [] ==>
                  Shows(p, q, Block(SaidInBlock(events))))
            && (error.Some? ==> Shows(p, q, NoticeText("AI error: " + error.value)))
  {
    hide Run, SaidInBlock, Said, Streamed, Earlier, Shows, NoticeText, Block, Closed, WithNotice, Flat, DeltaToks;
    AnswerIsTold(events);
    var p := Run(events);
    var p1 := p.(dispatched := p.dispatched - {id});
    if p.active.Some? && p.active.value.id == id {
      var p2 := p1.(active := None, ended := p.ended + [id]);
      ClosedShows(p2, m, p.active.value, error);
      SameShows(p2, p, Finish(p, m, id, error));
    } else if error.Some? {
      NoticeShows(p1, m, "AI error: " + error.value, Plain);
      SameShows(p1, p, Finish(p, m, id, error));
    }
  }

  lemma SameShows(p: Model, p': Model, q: Model)
    requires p.log == p'.log
    ensures forall toks: Toks :: Shows(p, q, toks) ==> Shows(p', q, toks)
  {
  }

  /** A tool line of the active response is shown. */
  lemma ToolIsShown(p: Model, m: Mirror, id: RequestId, message: string, now: nat)
    requires id !in p.aborted && p.active.Some? && p.active.value.id == id
    ensures Shows(p, OnTool(p, m, id, message, now), NoticeText(message))
  {
    hide Flat, Shows, WithNotice, WithNoticeAbove, NoticeText;
    var p1 := p.(active := Some(p.active.value.(receiptShown := true, lastProgressAt := now)));
    NoticeShows(p1, m, message, Tool);
    var q := OnTool(p, m, id, message, now);
    var noted := if p.active.value.anchored then WithNoticeAbove(p1, m, message, Tool) else WithNotice(p1, m, message, Tool);
    assert q.log == noted.log;
    LogShows(p1, noted, p, q);
  }

  /** An interrupt says so, and what it does with held output. */
  lemma InterruptIsShown(p: Model, m: Mirror)
    requires p.active.Some?
    ensures Shows(p, Interrupt(p, m),
                  NoticeText(if p.active.value.mode == Mode.Block then "answer cancelled (^C)"
                             else if Streams(p) && HeldBytes(p) != [] then
                               "answer interrupted (^C); releasing held command output"
                             else "answer interrupted (^C)"))
  {
    hide Flat, Shows, Extends, WithNotice, WithNoticeAbove, WithNoticeBeforePrompt, WithTail, WithHeld, NoticeText;
    var a := p.active.value;
    var p1 := p.(active := None, dispatched := p.dispatched - {a.id}, aborted := p.aborted + {a.id}, ended := p.ended + [a.id]);
    var p2 := WithTail(p1, a);
    var short, long := "answer interrupted (^C)", "answer interrupted (^C); releasing held command output";
    SameExtends(p, p1);
    NoticeShows(p1, m, "answer cancelled (^C)", Plain);
    NoticeShows(p1, m, short, Plain);
    TailExtends(p1, a, AtInterrupt);
    NoticeShows(p2, m, short, Plain);
    NoticeShows(p2, m, long, InterruptBoundary);
    if a.mode == Mode.Block {
      ShownLater(p, p1, WithNoticeBeforePrompt(p1, m, "answer cancelled (^C)"), NoticeText("answer cancelled (^C)"));
    } else if a.anchored {
      ShownLater(p, p1, WithNoticeAbove(p1, m, short, Plain), NoticeText(short));
    } else if a.bufferedPty == [] {
      ShownLater(p1, p2, WithNotice(p2, m, short, Plain), NoticeText(short));
      ShownLater(p, p1, WithNotice(p2, m, short, Plain), NoticeText(short));
    } else {
      var p3 := WithNotice(p2, m, long, InterruptBoundary);
      ShownLater(p1, p2, p3, NoticeText(long));
      TailExtends(p3, a, AtInterrupt);
      ShownStill(p1, p3, WithHeld(p3, a, AtInterrupt), NoticeText(long));
      ShownLater(p, p1, WithHeld(p3, a, AtInterrupt), NoticeText(long));
    }
  }

  lemma LogShows(p: Model, q: Model, p': Model, q': Model)
    requires p.log == p'.log && q.log == q'.log
    ensures forall toks: Toks :: Shows(p, q, toks) ==> Shows(p', q', toks)
  {
  }

  // ---- Held or written ----------------------------------------------------------------------------------------

  /** Command output is held exactly while a stream response above no prompt is active, up to 256 KiB;
      then all of it is written at once.  Otherwise it is written as it comes. */
  lemma OutputIsHeldExactly(p: Model, m: Mirror, visible: seq<Byte>, now: nat)
    requires Holds(p)
    ensures var q := PtyOutput(p, m, visible, now);
            var all := HeldBytes(p) + visible;
            if Streams(p) && |all| < 262_144 then PtyOf(q.log) == PtyOf(p.log) && HeldBytes(q) == all
            else PtyOf(q.log) == PtyOf(p.log) + all && HeldBytes(q) == []
  {
    hide WithNotice, PtyOf;
    if Streams(p) {
      var a := p.active.value.(bufferedPty := p.active.value.bufferedPty + visible);
      if |a.bufferedPty| >= PTY_BUFFER_FUSE_BYTES {
        ReleasedKept(p.(active := Some(a.(bufferedPty := [], resumeHeaderPending := a.resumeHeaderPending || a.started))), m, a.bufferedPty);
      } else {
        NoticeIsChrome(p.(active := Some(a.(stallNoticeShown := true, receiptShown := true))), m, STALL_TEXT, Plain);
      }
    } else {
      PtyOfPush(p.log, Pty(visible, Through));
      assert HeldBytes(p) == [] && [] + visible == visible;
    }
  }

  // ---- No silence ----------------------------------------------------------------------------------------------

  /** When the active response was opened. */
  function OpenedAt(events: seq<Timed>): nat {
    if events == [] then 0
    else
      var front, t := events[..|events| - 1], events[|events| - 1];
      if Opens(Run(front), t.event) then t.now else OpenedAt(front)
  }

  /** When the active response last got a delta or a tool line, or was opened. */
  function ProgressAt(events: seq<Timed>): nat {
    if events == [] then 0
    else
      var front, t := events[..|events| - 1], events[|events| - 1];
      if Opens(Run(front), t.event) || Progresses(Run(front), t.event) then t.now else ProgressAt(front)
  }

  predicate Progresses(p: Model, e: Event) {
    && (e.DeltaMsg? || e.ToolMsg?) && e.id !in p.aborted && p.active.Some? && p.active.value.id == e.id
  }

  /** The active response knows when it was opened and when it last progressed. */
  ghost predicate Timely(p: Model, openedAt: nat, progressAt: nat) {
    p.active.Some? ==> p.active.value.dispatchedAt == openedAt && p.active.value.lastProgressAt == progressAt
  }

  lemma {:induction false} RunIsTimely(events: seq<Timed>)
    ensures Timely(Run(events), OpenedAt(events), ProgressAt(events))
  {
    hide Step;
    if events != [] {
      var front, t := events[..|events| - 1], events[|events| - 1];
      RunIsTimely(front);
      StepIsTimely(Run(front), t, OpenedAt(front), ProgressAt(front));
    }
  }

  lemma StepIsTimely(p: Model, t: Timed, openedAt: nat, progressAt: nat)
    requires Timely(p, openedAt, progressAt)
    ensures var opens := Opens(p, t.event);
            Timely(Step(p, t), if opens then t.now else openedAt,
                   if opens || Progresses(p, t.event) then t.now else progressAt)
  {
    hide Flat, PtyOutput, OnDelta, OnTool, Finish, Interrupt, Polled;
    match t.event
    case PtyIn(visible) => PtyTimes(p, t.m, visible, t.now);
    case DeltaMsg(id, delta) => DeltaTimes(p, t.m, id, delta, t.now);
    case ToolMsg(id, message) => ToolTimes(p, t.m, id, message, t.now);
    case EndMsg(id, error) => FinishTimes(p, t.m, id, error);
    case Dispatch(id, stillRunning) =>
    case UserInterrupt => InterruptTimes(p, t.m);
    case Tick => PollTimes(p, t.m, t.now);
  }

  ghost predicate SameTimes(p: Model, q: Model) {
    q.active.Some? ==>
      && p.active.Some? && q.active.value.dispatchedAt == p.active.value.dispatchedAt
      && q.active.value.lastProgressAt == p.active.value.lastProgressAt
  }

  lemma PtyTimes(p: Model, m: Mirror, visible: seq<Byte>, now: nat)
    ensures SameTimes(p, PtyOutput(p, m, visible, now))
  {
    hide DimLine, Flat;
  }

  lemma DeltaTimes(p: Model, m: Mirror, id: RequestId, delta: string, now: nat)
    ensures var q := OnDelta(p, m, id, delta, now);
            && (id in p.aborted ==> q == p)
            && (id !in p.aborted ==>
                  && q.active.Some? && q.active.value.lastProgressAt == now
                  && q.active.value.dispatchedAt
                     == if p.active.Some? && p.active.value.id == id then p.active.value.dispatchedAt else now)
  {
    hide Normalized, EraseRegion, RestoreRegion, Resume, TailIntact, Flat;
  }

  lemma ToolTimes(p: Model, m: Mirror, id: RequestId, message: string, now: nat)
    ensures var q := OnTool(p, m, id, message, now);
            && (!Progresses(p, ToolMsg(id, message)) ==> q == p)
            && (Progresses(p, ToolMsg(id, message)) ==>
                  && q.active.Some? && q.active.value.lastProgressAt == now
                  && q.active.value.dispatchedAt == p.active.value.dispatchedAt)
  {
    hide DimLine, EraseRegion, RestoreRegion, Flat;
  }

  lemma FinishTimes(p: Model, m: Mirror, id: RequestId, error: Option<string>)
    ensures SameTimes(p, Finish(p, m, id, error))
  {
    hide DimLine, Flat, Closed, DeltaToks;
    if p.active.Some? {
      ClosedText(p.(dispatched := p.dispatched - {id}, active := None, ended := p.ended + [id]), m, p.active.value, error);
    }
  }

  lemma InterruptTimes(p: Model, m: Mirror)
    ensures SameTimes(p, Interrupt(p, m))
  {
    hide DeltaToks;
    InterruptIsEmpty(p, m);
  }

  lemma InterruptIsEmpty(p: Model, m: Mirror)
    ensures Interrupt(p, m).active.None?
  {
    hide WithNotice, WithNoticeAbove, WithNoticeBeforePrompt, WithTail, WithHeld, DeltaToks;
    if p.active.Some? {
      var a := p.active.value;
      var p1 := p.(active := None, dispatched := p.dispatched - {a.id}, aborted := p.aborted + {a.id}, ended := p.ended + [a.id]);
      var p2 := WithTail(p1, a);
      var text := "answer interrupted (^C); releasing held command output";
      PiecesText(p1, m, a, AtInterrupt);
      AnswerTexts.NoticeText(p1, m, "answer cancelled (^C)", Plain);
      AnswerTexts.NoticeText(p1, m, "answer interrupted (^C)", Plain);
      AnswerTexts.NoticeText(p2, m, "answer interrupted (^C)", Plain);
      AnswerTexts.NoticeText(p2, m, text, InterruptBoundary);
      PiecesText(WithNotice(p2, m, text, InterruptBoundary), m, a, AtInterrupt);
    }
  }

  lemma PollTimes(p: Model, m: Mirror, now: nat)
    ensures SameTimes(p, Polled(p, m, now))
  {
    hide DimLine, EraseRegion, RestoreRegion, Flat;
  }

  /** Main theorem: over every run, a poll one second after a response was opened, when nothing of it
      has been rendered and nothing announced, shows the waiting notice; a poll thirty seconds after
      its last progress, when command output is held and this was not said before, shows the stall
      notice; and no other poll shows anything. */
  lemma PollAnnounces(events: seq<Timed>, m: Mirror, now: nat)
    ensures var p := Run(events);
            var q := Step(p, Timed(Tick, now, m));
            var waits := p.active.Some? && !p.active.value.receiptShown && p.active.value.NothingRendered()
                         && now >= OpenedAt(events) + 1_000;
            var stalls := Streams(p) && !p.active.value.stallNoticeShown && HeldBytes(p) != []
                          && now >= ProgressAt(events) + 30_000;
            && (waits ==> Shows(p, q, NoticeText(WAITING_TEXT)) && q.active.Some? && q.active.value.receiptShown)
            && (stalls ==> Shows(p, q, NoticeText(STALL_TEXT)) && q.active.Some? && q.active.value.stallNoticeShown)
            && (!waits && !stalls ==> q == p)
  {
    hide Run, OpenedAt, ProgressAt, Shows, NoticeText, WithNotice, WithNoticeAbove, Flat;
    RunIsTimely(events);
    var p := Run(events);
    if p.active.Some? {
      var a := p.active.value;
      var shown := p.(active := Some(a.(receiptShown := true)));
      var p1 := if !ReceiptDue(a, now) then p
                else if a.anchored then WithNoticeAbove(shown, m, WAITING_TEXT, Plain)
                else WithNotice(shown, m, WAITING_TEXT, Plain);
      PollShows(p, m, now, p1);
    }
  }

  lemma PollShows(p: Model, m: Mirror, now: nat, p1: Model)
    requires p.active.Some?
    requires var a := p.active.value;
             var shown := p.(active := Some(a.(receiptShown := true)));
             p1 == if !ReceiptDue(a, now) then p
                   else if a.anchored then WithNoticeAbove(shown, m, WAITING_TEXT, Plain)
                   else WithNotice(shown, m, WAITING_TEXT, Plain)
    ensures var a, q := p.active.value, Polled(p, m, now);
            && (ReceiptDue(a, now) ==> Shows(p, q, NoticeText(WAITING_TEXT)) && q.active.Some? && q.active.value.receiptShown)
            && (StallDue(a, now) ==> Shows(p, q, NoticeText(STALL_TEXT)) && q.active.Some? && q.active.value.stallNoticeShown)
            && (!ReceiptDue(a, now) && !StallDue(a, now) ==> q == p)
  {
    hide Shows, Extends, NoticeText, WithNotice, WithNoticeAbove, Flat, DeltaToks, ReceiptDue, StallDue;
    var a := p.active.value;
    var shown := p.(active := Some(a.(receiptShown := true)));
    AnswerTexts.NoticeText(shown, m, WAITING_TEXT, Plain);
    assert p1.active.Some?;
    if ReceiptDue(a, now) {
      NoticeShows(shown, m, WAITING_TEXT, Plain);
      SameShows(shown, p, p1);
      ShowsExtends(p, p1, NoticeText(WAITING_TEXT));
    } else {
      SameExtends(p, p1);
    }
    if StallDue(a, now) {
      var stalled := p1.(active := Some(p1.active.value.(stallNoticeShown := true, receiptShown := true)));
      var q := WithNotice(stalled, m, STALL_TEXT, Plain);
      AnswerTexts.NoticeText(stalled, m, STALL_TEXT, Plain);
      NoticeShows(stalled, m, STALL_TEXT, Plain);
      SameShows(stalled, p1, q);
      ShowsExtends(p1, q, NoticeText(STALL_TEXT));
      ShownLater(p, p1, q, NoticeText(STALL_TEXT));
      if ReceiptDue(a, now) { ShownStill(p, p1, q, NoticeText(WAITING_TEXT)); }
    }
  }

  /** How a response is opened: in stream mode exactly when its command had ended by then, above the
      prompt exactly when one is resting. */
  lemma OpensAs(p: Model, t: Timed)
    requires Opens(p, t.event)
    ensures var q, id := Step(p, t), t.event.id;
            var ended := if t.event.Dispatch? then !t.event.stillRunning else id in p.dispatched && !p.dispatched[id];
            && q.active.Some? && q.active.value.id == id
            && (q.active.value.mode == Stream ==> ended)
            && (ended && !Seen(p, t.m).restingPrompt ==> Streams(q))
            && (ended && q.active.value.mode == Stream ==> (q.active.value.anchored <==> Seen(p, t.m).restingPrompt))
            && (t.event.Dispatch? ==> (q.active.value.mode == Stream <==> ended) && q.log == p.log)
  {
    hide Normalized, EraseRegion, RestoreRegion, Resume, TailIntact, Flat;
  }

  // ---- Placement ---------------------------------------------------------------------------------------------------

  /** Between `p` and `q` the tokens are written right away. */
  ghost predicate Begins(p: Model, q: Model, toks: Toks) { exists more: Toks :: Flat(q.log) == Flat(p.log) + toks + more }

  lemma TailBegins(p: Model, q: Model, r: Model)
    requires q.log == p.log + [Tail] && Extends(q, r)
    ensures Begins(p, r, NEWLINE)
  {
    hide Flat;
    FlatPush(p.log, Tail);
    var more: Toks :| Flat(r.log) == Flat(q.log) + more;
    assert Flat(r.log) == Flat(p.log) + NEWLINE + more;
  }

  /** A streamed answer ends its line before anything else is written, at its end and at an interrupt. */
  lemma AnswerEndsItsLine(p: Model, m: Mirror, error: Option<string>)
    requires Streams(p) && p.active.value.started
    ensures Begins(p, Interrupt(p, m), NEWLINE)
    ensures p.active.value.id !in p.aborted ==> Begins(p, Finish(p, m, p.active.value.id, error), NEWLINE)
  {
    hide Flat, Extends, Begins, WithNotice, WithHeld, Shows, NoticeText;
    var a := p.active.value;
    var p1 := p.(active := None, dispatched := p.dispatched - {a.id}, aborted := p.aborted + {a.id}, ended := p.ended + [a.id]);
    var p2 := WithTail(p1, a);
    TailThen(p2, m, a, "answer interrupted (^C)", Plain, AtInterrupt);
    TailThen(p2, m, a, "answer interrupted (^C); releasing held command output", InterruptBoundary, AtInterrupt);
    TailBegins(p, p2, Interrupt(p, m));
    if a.id !in p.aborted {
      var f1 := p.(dispatched := p.dispatched - {a.id}, active := None, ended := p.ended + [a.id]);
      var f2 := WithTail(f1, a);
      TailThen(f2, m, a, ErrorText(error.GetOr([])), Plain, AtFinish);
      TailBegins(p, f2, Finish(p, m, a.id, error));
    }
  }

  lemma TailThen(p: Model, m: Mirror, a: Response, text: string, kind: NoticeKind, how: PtyHow)
    ensures Extends(p, WithNotice(p, m, text, kind)) && Extends(p, WithHeld(p, a, how))
    ensures Extends(p, WithHeld(WithNotice(p, m, text, kind), a, how))
  {
    hide Flat, Extends, Shows, NoticeText, WithNotice, WithHeld;
    var q := WithNotice(p, m, text, kind);
    NoticeShows(p, m, text, kind);
    ShowsExtends(p, q, NoticeText(text));
    TailExtends(p, a, how);
    TailExtends(q, a, how);
    ExtendsOn(p, q, WithHeld(q, a, how));
  }

  lemma ExtendsOn(p: Model, q: Model, r: Model)
    requires Extends(p, q) && Extends(q, r)
    ensures Extends(p, r)
  {
    hide Flat;
    var a: Toks :| Flat(q.log) == Flat(p.log) + a;
    var b: Toks :| Flat(r.log) == Flat(q.log) + b;
    assert Flat(p.log) + a + b == Flat(p.log) + (a + b);
    ExtendedBy(p, r, a + b);
  }

  /** The last thing written between `p` and `q` is `toks`. */
  ghost predicate EndsWith(p: Model, q: Model, toks: Toks) { exists before: Toks :: Flat(q.log) == Flat(p.log) + before + toks }

  lemma PutEnds(p: Model, q: Model, c: Chunk, before: Toks, toks: Toks)
    requires q.log == p.log + [c] && ChunkToks(c) == before + toks
    ensures EndsWith(p, q, toks)
  {
    hide Flat;
    FlatPush(p.log, c);
    assert Flat(p.log) + (before + toks) == Flat(p.log) + before + toks;
  }

  /** A block or a notice before the prompt leaves a resting prompt's line last; with no prompt resting, or
      one that cannot be sampled, it ends with a newline. */
  lemma PromptStaysLast(p: Model, m: Mirror, text: string, a: Response)
    requires a.accumulated != []
    ensures var v := Seen(p, m);
            var last := if v.restingPrompt && v.live.Some? then RestoreRegion(v.live.value) else NEWLINE;
            EndsWith(p, WithNoticeBeforePrompt(p, m, text), last) && EndsWith(p, WithBlock(p, m, a), last)
  {
    hide Flat, EndsWith, Normalized, EraseRegion, RestoreRegion, AI_HEADER;
    var v := Seen(p, m);
    if v.restingPrompt && v.live.Some? {
      var r := v.live.value;
      PutEnds(p, WithNoticeBeforePrompt(p, m, text), Redraw(EraseRegion(r) + DimLine(text) + RestoreRegion(r)),
              EraseRegion(r) + DimLine(text), RestoreRegion(r));
      PutEnds(p, WithBlock(p, m, a), Redraw(EraseRegion(r) + BlockText(a) + RestoreRegion(r)),
              EraseRegion(r) + BlockText(a), RestoreRegion(r));
    } else {
      var front := [Sgr([2])] + Chars("[koshell] " + Normalized(text, false)) + [Sgr([0])];
      var block := AI_HEADER + Chars(Normalized(a.accumulated, false));
      assert LinePrefix(v) + DimLine(text) == LinePrefix(v) + front + NEWLINE;
      assert LinePrefix(v) + BlockText(a) == LinePrefix(v) + block + NEWLINE;
      PutEnds(p, WithNotice(p, m, text, Plain), Notice(LinePrefix(v) + DimLine(text), Plain), LinePrefix(v) + front, NEWLINE);
      PutEnds(p, Put(p, Redraw(LinePrefix(v) + BlockText(a))), Redraw(LinePrefix(v) + BlockText(a)), LinePrefix(v) + block, NEWLINE);
    }
  }

  // ---- Degrading and deadlines -----------------------------------------------------------------------------------

  /** An anchored response goes over to block mode, and writes nothing then, exactly when its live line
      cannot be sampled or another row than its tail stands above it. */
  lemma DegradesExactly(p: Model, m: Mirror, id: RequestId, delta: string, now: nat)
    requires p.active.Some? && p.active.value.id == id && id !in p.aborted
    requires p.active.value.mode == Stream && p.active.value.anchored
    ensures var q, a, live := OnDelta(p, m, id, delta, now), p.active.value, Seen(p, m).live;
            var degrades := live.None? || (a.aiEnd.Some? && live.value.rowAbove != Some(a.aiEnd.value.tail));
            && q.active.Some?
            && (degrades <==> q.active.value.mode == Mode.Block)
            && (degrades ==> q.log == p.log && !q.active.value.anchored)
            && (!degrades ==> q.active.value.anchored && q.active.value.started && |q.log| == |p.log| + 2)
  {
    hide Normalized, EraseRegion, RestoreRegion, Resume, Flat;
  }

  /** The deadline after a poll is the waiting notice's or the stall notice's, whichever comes first: one
      second after the opening while nothing is rendered or announced, thirty seconds after the last
      progress while output may be held and this was not said. */
  lemma DeadlineIsExact(p: Model, m: Mirror, now: nat)
    ensures var q := Polled(p, m, now);
            var waits := q.active.Some? && !q.active.value.receiptShown && q.active.value.NothingRendered();
            var stalls := Streams(q) && !q.active.value.stallNoticeShown && q.active.value.lastProgressAt + 30_000 > now;
            var d := NextDeadline(q, now);
            && (d.Some? <==> waits || stalls)
            && (waits ==> d.value <= q.active.value.dispatchedAt + 1_000 - now)
            && (stalls ==> d.value <= q.active.value.lastProgressAt + 30_000 - now)
            && (d.Some? ==>
                  || (waits && now + d.value == q.active.value.dispatchedAt + 1_000)
                  || (stalls && now + d.value == q.active.value.lastProgressAt + 30_000))
  {
    hide WithNotice, WithNoticeAbove, Flat, DeltaToks;
    if p.active.Some? {
      var a := p.active.value;
      var shown := p.(active := Some(a.(receiptShown := true)));
      AnswerTexts.NoticeText(shown, m, WAITING_TEXT, Plain);
      var p1 := if !ReceiptDue(a, now) then p
                else if a.anchored then WithNoticeAbove(shown, m, WAITING_TEXT, Plain)
                else WithNotice(shown, m, WAITING_TEXT, Plain);
      AnswerTexts.NoticeText(p1.(active := Some(p1.active.value.(stallNoticeShown := true, receiptShown := true))), m, STALL_TEXT, Plain);
    }
  }
}
