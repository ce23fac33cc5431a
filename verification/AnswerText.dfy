/** What of the AI's text, and of the notices, reaches the terminal in a presentation run: stated on
    the output and the messages received. */
module AnswerTexts {
  import opened Common
  import opened TerminalStreams
  import opened Presentations
  import opened PresentationRuns

  // ---- The answer as received ----------------------------------------------------------------------------

  /** The message opens a response: a question dispatched while none is active, or a delta of a
      request that is neither interrupted nor the active one. */
  predicate Opens(p: Model, e: Event) {
    || (e.Dispatch? && p.active.None?)
    || (e.DeltaMsg? && e.id !in p.aborted && (p.active.None? || p.active.value.id != e.id))
  }

  /** The text the message adds to the active response. */
  function Adds(p: Model, e: Event): string { if e.DeltaMsg? && e.id !in p.aborted then e.delta else [] }

  /** All deltas of the active response since it was opened. */
  function Said(events: seq<Timed>): string {
    if events == [] then []
    else
      var front, e := events[..|events| - 1], events[|events| - 1].event;
      (if Opens(Run(front), e) then [] else Said(front)) + Adds(Run(front), e)
  }

  /** Its deltas since it has been in block mode. */
  function SaidInBlock(events: seq<Timed>): string {
    if events == [] then []
    else
      var front, e := events[..|events| - 1], events[|events| - 1].event;
      var p := Run(front);
      (if Opens(p, e) || (p.active.Some? && p.active.value.mode == Stream) then [] else SaidInBlock(front)) + Adds(p, e)
  }

  predicate Streams(p: Model) { p.active.Some? && p.active.value.mode == Stream && !p.active.value.anchored }

  /** The AI text streamed by the responses opened before the active one. */
  function Earlier(events: seq<Timed>): Toks
    decreases |events|, 0
  {
    if events == [] then []
    else
      var front := events[..|events| - 1];
      if Opens(Run(front), events[|events| - 1].event) then Streamed(front) else Earlier(front)
  }

  /** All AI text that must have been streamed: response by response the deltas joined, with their
      newlines normalized as one text. */
  function Streamed(events: seq<Timed>): Toks
    decreases |events|, 1
  {
    if events == [] then []
    else if Streams(Run(events)) then Earlier(events) + Chars(Normalized(Said(events), false))
    else Streamed(events[..|events| - 1])
  }

  // ---- The answer as written -----------------------------------------------------------------------------

  function DeltaToks(log: seq<Chunk>): Toks {
    if log == [] then []
    else DeltaToks(log[..|log| - 1]) + if log[|log| - 1].Delta? then log[|log| - 1].toks else []
  }

  lemma DeltaPush(log: seq<Chunk>, c: Chunk)
    ensures DeltaToks(log + [c]) == DeltaToks(log) + if c.Delta? then c.toks else []
    ensures !c.Delta? ==> DeltaToks(log + [c]) == DeltaToks(log)
  {
    assert (log + [c])[..|log|] == log;
  }

  /** Nothing but the log changes, and no AI text is added to it. */
  ghost predicate SameText(p: Model, q: Model) { q == p.(log := q.log) && DeltaToks(q.log) == DeltaToks(p.log) }

  lemma NoticeText(p: Model, m: Mirror, text: string, kind: NoticeKind)
    ensures SameText(p, WithNotice(p, m, text, kind))
    ensures SameText(p, WithNoticeAbove(p, m, text, kind))
    ensures SameText(p, WithNoticeBeforePrompt(p, m, text))
  {
    hide DimLine, DeltaToks, EraseRegion, RestoreRegion, Flat;
    forall c: Chunk | c.Redraw? || c.Notice? ensures DeltaToks(p.log + [c]) == DeltaToks(p.log) { DeltaPush(p.log, c); }
  }

  lemma PiecesText(p: Model, m: Mirror, a: Response, how: PtyHow)
    ensures SameText(p, WithTail(p, a)) && SameText(p, WithBlock(p, m, a)) && SameText(p, WithHeld(p, a, how))
  {
    hide BlockText, DeltaToks, EraseRegion, RestoreRegion, Flat;
    forall c: Chunk | !c.Delta? ensures DeltaToks(p.log + [c]) == DeltaToks(p.log) { DeltaPush(p.log, c); }
  }

  /** Where the active response stands, apart from what notices and PTY bytes change. */
  ghost predicate SameAnswer(a: Response, b: Response) {
    && b.id == a.id && b.mode == a.mode && b.anchored == a.anchored
    && b.lastWasCr == a.lastWasCr && b.accumulated == a.accumulated
  }

  /** No AI text was written; the active response, if it is still there, stands as before. */
  ghost predicate TextKept(p: Model, q: Model) {
    && DeltaToks(q.log) == DeltaToks(p.log)
    && (q.active.Some? ==> p.active.Some? && SameAnswer(p.active.value, q.active.value))
  }

  lemma PtyText(p: Model, m: Mirror, visible: seq<Byte>, now: nat)
    ensures TextKept(p, PtyOutput(p, m, visible, now))
  {
    hide DeltaToks, WithNotice;
    forall log: seq<Chunk>, c: Chunk | !c.Delta? ensures DeltaToks(log + [c]) == DeltaToks(log) { DeltaPush(log, c); }
    if p.active.Some? && p.active.value.HoldingPty() {
      var a := p.active.value.(bufferedPty := p.active.value.bufferedPty + visible);
      NoticeText(p.(active := Some(a.(bufferedPty := [], resumeHeaderPending := a.resumeHeaderPending || a.started))), m,
                 FUSE_TEXT, FuseBoundary);
      NoticeText(p.(active := Some(a.(stallNoticeShown := true, receiptShown := true))), m, STALL_TEXT, Plain);
    }
  }

  lemma ToolText(p: Model, m: Mirror, id: RequestId, message: string, now: nat)
    ensures TextKept(p, OnTool(p, m, id, message, now))
  {
    hide DeltaToks, WithNotice, WithNoticeAbove;
    if p.active.Some? {
      NoticeText(p.(active := Some(p.active.value.(receiptShown := true, lastProgressAt := now))), m, message, Tool);
    }
  }

  lemma ClosedText(p: Model, m: Mirror, a: Response, error: Option<string>)
    ensures SameText(p, Closed(p, m, a, error))
  {
    hide DeltaToks, WithNotice, WithNoticeAbove, WithNoticeBeforePrompt, WithTail, WithBlock, WithHeld;
    var text := if error.Some? then ErrorText(error.value) else [];
    PiecesText(p, m, a, AtFinish);
    NoticeText(WithBlock(p, m, a), m, text, Plain);
    NoticeText(p, m, text, Plain);
    var p1 := WithTail(p, a);
    NoticeText(p1, m, text, Plain);
    PiecesText(p1, m, a, AtFinish);
    PiecesText(WithNotice(p1, m, text, Plain), m, a, AtFinish);
  }

  lemma FinishText(p: Model, m: Mirror, id: RequestId, error: Option<string>)
    ensures TextKept(p, Finish(p, m, id, error))
  {
    hide DeltaToks, WithNotice, Closed;
    var p1 := p.(dispatched := p.dispatched - {id});
    if p.active.Some? { ClosedText(p1.(active := None, ended := p.ended + [id]), m, p.active.value, error); }
    if error.Some? { NoticeText(p1, m, ErrorText(error.value), Plain); }
  }

  lemma InterruptText(p: Model, m: Mirror)
    ensures TextKept(p, Interrupt(p, m))
  {
    hide DeltaToks, WithNotice, WithNoticeAbove, WithNoticeBeforePrompt, WithTail, WithHeld;
    if p.active.Some? {
      var a := p.active.value;
      var p1 := p.(active := None, dispatched := p.dispatched - {a.id}, aborted := p.aborted + {a.id}, ended := p.ended + [a.id]);
      var p2 := WithTail(p1, a);
      var text := "answer interrupted (^C); releasing held command output";
      PiecesText(p1, m, a, AtInterrupt);
      NoticeText(p1, m, "answer cancelled (^C)", Plain);
      NoticeText(p1, m, "answer interrupted (^C)", Plain);
      NoticeText(p2, m, "answer interrupted (^C)", Plain);
      NoticeText(p2, m, text, InterruptBoundary);
      PiecesText(WithNotice(p2, m, text, InterruptBoundary), m, a, AtInterrupt);
    }
  }

  lemma PollText(p: Model, m: Mirror, now: nat)
    ensures TextKept(p, Polled(p, m, now))
  {
    hide DeltaToks, WithNotice, WithNoticeAbove;
    if p.active.Some? {
      var a := p.active.value;
      var shown := p.(active := Some(a.(receiptShown := true)));
      NoticeText(shown, m, WAITING_TEXT, Plain);
      var p1 := if !ReceiptDue(a, now) then p
                else if a.anchored then WithNoticeAbove(shown, m, WAITING_TEXT, Plain)
                else WithNotice(shown, m, WAITING_TEXT, Plain);
      NoticeText(p1.(active := Some(p1.active.value.(stallNoticeShown := true, receiptShown := true))), m, STALL_TEXT, Plain);
    }
  }

  // ---- Deltas -----------------------------------------------------------------------------------------------

  /** What one accepted delta does to the answer of `a`. */
  ghost predicate DeltaTold(p: Model, a: Response, q: Model, delta: string) {
    && q.active.Some? && q.active.value.id == a.id
    && var b := q.active.value;
       if a.mode == Stream && !a.anchored then
         && b.mode == Stream && !b.anchored && b.accumulated == a.accumulated
         && b.lastWasCr == EndsInCr(delta, a.lastWasCr)
         && DeltaToks(q.log) == DeltaToks(p.log) + Chars(Normalized(delta, a.lastWasCr))
       else
         && DeltaToks(q.log) == DeltaToks(p.log)
         && (b.mode == Stream ==> a.mode == Stream && b.anchored && b.accumulated == a.accumulated)
         && (b.mode == Block ==> !b.anchored || a.mode == Block)
         && (b.mode == Block ==> b.accumulated == a.accumulated + delta)
  }

  lemma StreamDeltaTold(p: Model, m: Mirror, a: Response, delta: string)
    requires a.mode == Stream && !a.anchored
    ensures DeltaTold(p, a, StreamDelta(p, m, a, delta), delta)
  {
    hide DeltaToks, Normalized, AI_HEADER, Flat;
    var header, text := Header(LinePrefix(Seen(p, m)) + AI_HEADER), Delta(Chars(Normalized(delta, a.lastWasCr)));
    DeltaPush(p.log, header);
    DeltaPush(p.log + [header], text);
    DeltaPush(p.log, text);
  }

  lemma AnchoredDeltaTold(p: Model, m: Mirror, a: Response, delta: string)
    requires a.mode == Stream && a.anchored
    ensures DeltaTold(p, a, AnchoredDelta(p, m, a, delta), delta)
  {
    hide DeltaToks, Normalized, EraseRegion, RestoreRegion, TailIntact, Resume, Flat;
    var live := Seen(p, m).live;
    if live.Some? {
      var text := Redraw(EraseRegion(live.value) + Resume(a.aiEnd) + Chars(Normalized(delta, a.lastWasCr)));
      DeltaPush(p.log, text);
      DeltaPush(p.log + [text], Redraw(NEWLINE + RestoreRegion(live.value)));
    }
  }

  /** The response a delta goes to. */
  function Target(p: Model, m: Mirror, id: RequestId, now: nat): Response {
    if p.active.Some? && p.active.value.id == id then p.active.value
    else Fresh(p, m, id, if id in p.dispatched && !p.dispatched[id] then Stream else Block, now)
  }

  lemma DeltaIsTold(p: Model, m: Mirror, id: RequestId, delta: string, now: nat)
    requires id !in p.aborted
    ensures DeltaTold(p, Target(p, m, id, now), OnDelta(p, m, id, delta, now), delta)
  {
    hide DeltaToks, StreamDelta, AnchoredDelta, Normalized, Flat;
    var p1 :=
      if p.active.None? || p.active.value.id != id
      then Begun(p, m, id, if id in p.dispatched && !p.dispatched[id] then Stream else Block, now)
      else p;
    var a := p1.active.value.(lastProgressAt := now);
    var p2 := p1.(active := Some(a));
    assert Target(p, m, id, now).(lastProgressAt := now) == a.(lastProgressAt := now);
    if a.mode == Stream {
      if a.anchored { AnchoredDeltaTold(p2, m, a, delta); } else { StreamDeltaTold(p2, m, a, delta); }
    }
  }

  // ---- Whole runs ---------------------------------------------------------------------------------------------

  /** The output tells the answer: `said` is the active response's text, `inBlock` the part in block mode. */
  ghost predicate Tells(p: Model, streamed: Toks, earlier: Toks, said: string, inBlock: string) {
    && DeltaToks(p.log) == streamed
    && (Streams(p) ==>
          && streamed == earlier + Chars(Normalized(said, false))
          && p.active.value.lastWasCr == EndsInCr(said, false))
    && (p.active.Some? ==> p.active.value.accumulated == if p.active.value.mode == Block then inBlock else [])
  }

  lemma OpenTells(p: Model, a: Response, streamed: Toks, earlier: Toks, said: string, inBlock: string)
    requires Tells(p, streamed, earlier, said, inBlock) && !a.lastWasCr && a.accumulated == []
    ensures Tells(p.(active := Some(a)), streamed, streamed, [], [])
  {
    hide DeltaToks;
    assert streamed + Chars(Normalized([], false)) == streamed;
  }

  lemma KeptTells(p: Model, q: Model, streamed: Toks, earlier: Toks, said: string, inBlock: string)
    requires Tells(p, streamed, earlier, said, inBlock) && TextKept(p, q)
    ensures Tells(q, streamed, earlier, said, inBlock)
  {
    hide DeltaToks, Normalized;
  }

  lemma AddedTells(p: Model, a: Response, q: Model, delta: string, streamed: Toks, earlier: Toks, said: string, inBlock: string)
    requires Tells(p.(active := Some(a)), streamed, earlier, said, inBlock) && DeltaTold(p, a, q, delta)
    ensures Tells(q, if Streams(q) then earlier + Chars(Normalized(said + delta, false)) else streamed, earlier, said + delta,
                  (if a.mode == Stream then [] else inBlock) + delta)
  {
    hide DeltaToks, Normalized;
    NormalizedInDeltas(said, delta, false);
    var x, y := Normalized(said, false), Normalized(delta, EndsInCr(said, false));
    assert earlier + Chars(x) + Chars(y) == earlier + Chars(x + y);
    assert [] + delta == delta;
  }

  /** Main theorem: over every run the AI text written is exactly what must be streamed, in order, and
      what a response in block mode has to print is what was said to it there. */
  lemma {:induction false} AnswerIsTold(events: seq<Timed>)
    ensures Tells(Run(events), Streamed(events), Earlier(events), Said(events), SaidInBlock(events))
  {
    hide DeltaToks, Normalized, Tells, Step, TextKept, DeltaTold, Opens, Adds;
    if events == [] {
      NothingTold();
    } else {
      var front, t := events[..|events| - 1], events[|events| - 1];
      AnswerIsTold(front);
      StepTells(Run(front), t, Streamed(front), Earlier(front), Said(front), SaidInBlock(front));
    }
  }

  lemma NothingTold()
    ensures Tells(NEW, [], [], [], [])
  {
  }

  lemma StepTells(p: Model, t: Timed, streamed: Toks, earlier: Toks, said: string, inBlock: string)
    requires Tells(p, streamed, earlier, said, inBlock)
    ensures var q, opens := Step(p, t), Opens(p, t.event);
            var earlier' := if opens then streamed else earlier;
            var said' := (if opens then [] else said) + Adds(p, t.event);
            Tells(q, if Streams(q) then earlier' + Chars(Normalized(said', false)) else streamed, earlier', said',
                  (if opens || (p.active.Some? && p.active.value.mode == Stream) then [] else inBlock) + Adds(p, t.event))
  {
    hide DeltaToks, Normalized, TextKept, DeltaTold, PtyOutput, OnDelta, OnTool, Finish, Interrupt, Polled, Flat, Tells, Dispatched;
    var q := Step(p, t);
    var nothing: string := [];
    assert said + nothing == said && inBlock + nothing == inBlock && nothing + nothing == nothing;
    match t.event
    case PtyIn(visible) => PtyText(p, t.m, visible, t.now); StepKeepsText(p, q, streamed, earlier, said, inBlock);
    case ToolMsg(id, message) => ToolText(p, t.m, id, message, t.now); StepKeepsText(p, q, streamed, earlier, said, inBlock);
    case EndMsg(id, error) => FinishText(p, t.m, id, error); StepKeepsText(p, q, streamed, earlier, said, inBlock);
    case UserInterrupt => InterruptText(p, t.m); StepKeepsText(p, q, streamed, earlier, said, inBlock);
    case Tick => PollText(p, t.m, t.now); StepKeepsText(p, q, streamed, earlier, said, inBlock);
    case Dispatch(id, stillRunning) => DispatchTells(p, t, id, stillRunning, streamed, earlier, said, inBlock);
    case DeltaMsg(id, delta) =>
      if id in p.aborted {
        assert q == p by { AbortedDelta(p, t.m, id, delta, t.now); }
        SameTells(p, streamed, earlier, said, inBlock);
      } else {
        DeltaTells(p, t, id, delta, streamed, earlier, said, inBlock);
      }
  }

  lemma StepKeepsText(p: Model, q: Model, streamed: Toks, earlier: Toks, said: string, inBlock: string)
    requires Tells(p, streamed, earlier, said, inBlock) && TextKept(p, q)
    ensures Tells(q, if Streams(q) then earlier + Chars(Normalized(said, false)) else streamed, earlier, said,
                  if p.active.Some? && p.active.value.mode == Stream then [] else inBlock)
  {
    hide DeltaToks, Normalized;
  }

  lemma AbortedDelta(p: Model, m: Mirror, id: RequestId, delta: string, now: nat)
    requires id in p.aborted
    ensures OnDelta(p, m, id, delta, now) == p
  {
  }

  lemma SameTells(p: Model, streamed: Toks, earlier: Toks, said: string, inBlock: string)
    requires Tells(p, streamed, earlier, said, inBlock)
    ensures Tells(p, if Streams(p) then earlier + Chars(Normalized(said, false)) else streamed, earlier, said,
                  if p.active.Some? && p.active.value.mode == Stream then [] else inBlock)
  {
    hide DeltaToks, Normalized;
  }

  lemma DispatchTells(p: Model, t: Timed, id: RequestId, stillRunning: bool, streamed: Toks, earlier: Toks, said: string, inBlock: string)
    requires Tells(p, streamed, earlier, said, inBlock) && t.event == Dispatch(id, stillRunning)
    ensures var q := Step(p, t);
            if p.active.None? then Tells(q, if Streams(q) then streamed + Chars(Normalized([], false)) else streamed, streamed, [], [])
            else Tells(q, if Streams(q) then earlier + Chars(Normalized(said, false)) else streamed, earlier, said,
                       if p.active.value.mode == Stream then [] else inBlock)
  {
    hide DeltaToks, Normalized, Flat;
    if p.active.None? {
      assert streamed + Chars(Normalized([], false)) == streamed by { NothingNormalized(); }
      assert !EndsInCr([], false);
    } else {
      SameTells(p, streamed, earlier, said, inBlock);
    }
  }

  lemma NothingNormalized()
    ensures Normalized([], false) == []
  {
  }

  lemma DeltaTells(p: Model, t: Timed, id: RequestId, delta: string, streamed: Toks, earlier: Toks, said: string, inBlock: string)
    requires Tells(p, streamed, earlier, said, inBlock) && t.event == DeltaMsg(id, delta) && id !in p.aborted
    ensures var q, opens := Step(p, t), p.active.None? || p.active.value.id != id;
            var earlier' := if opens then streamed else earlier;
            var said' := (if opens then [] else said) + delta;
            Tells(q, if Streams(q) then earlier' + Chars(Normalized(said', false)) else streamed, earlier', said',
                  (if opens || p.active.value.mode == Stream then [] else inBlock) + delta)
  {
    hide DeltaToks, Normalized, DeltaTold, OnDelta, Tells, Flat;
    var a := Target(p, t.m, id, t.now);
    var q := Step(p, t);
    DeltaIsTold(p, t.m, id, delta, t.now);
    if p.active.None? || p.active.value.id != id {
      OpenTells(p, a, streamed, earlier, said, inBlock);
      AddedTells(p, a, q, delta, streamed, streamed, [], []);
    } else {
      assert p.(active := Some(a)) == p;
      AddedTells(p, a, q, delta, streamed, earlier, said, inBlock);
    }
  }
}
