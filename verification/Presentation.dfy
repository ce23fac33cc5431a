/** The presentation state machine: what is written to the terminal when, which PTY bytes are
    held back, and how a response starts, is interrupted and ends. */
module Presentations {
  import opened Common
  import opened TerminalStreams

  const PTY_BUFFER_FUSE_BYTES: nat := 256 * 1024
  const RECEIPT_NOTICE_DELAY: nat := 1_000
  const STALL_NOTICE_DELAY: nat := 30_000

  type RequestId = string

  // ---- What is read from the mirror ----------------------------------------------------------------

  /** The cursor's logical line, sampled for redrawing it; the redraw makes no use of `needsWrap`. */
  datatype Region = Region(
    styledRows: seq<Toks>, lastRowChars: nat, cursorCol: nat, needsWrap: bool, rowAbove: Option<string>)

  datatype AiEnd = AiEnd(col: nat, needsWrap: bool, tail: string)

  datatype View = View(restingPrompt: bool, atLineStart: bool, live: Option<Region>, probe: AiEnd)

  /** The mirror is a function of everything fed to it; each step may have its own. */
  type Mirror = Toks -> View

  // ---- The state as a value ---------------------------------------------------------------------------

  datatype Mode = Stream | Block

  datatype Response = Response(
    id: RequestId,
    mode: Mode,
    dispatchedAt: nat,
    lastProgressAt: nat,
    receiptShown: bool,
    started: bool,
    lastWasCr: bool,
    accumulated: string,
    bufferedPty: seq<Byte>,
    stallNoticeShown: bool,
    resumeHeaderPending: bool,
    anchored: bool,
    aiEnd: Option<AiEnd>)
  {
    predicate HoldingPty() { mode == Stream && !anchored }
    predicate NothingRendered() { !started && accumulated == [] }
    predicate StallDeadlinePassed(now: nat) { !stallNoticeShown && now >= lastProgressAt + STALL_NOTICE_DELAY }
  }

  datatype PtyHow = Through | Fuse | AtInterrupt | AtFinish
  datatype NoticeKind = FuseBoundary | InterruptBoundary | Tool | Plain

  /** The pieces of output, in the order they are written. */
  datatype Chunk =
    | Pty(bytes: seq<Byte>, how: PtyHow)
    | Notice(toks: Toks, kind: NoticeKind)
    | Header(toks: Toks)
    | Delta(toks: Toks)
    | Tail
    | Redraw(toks: Toks)

  function ChunkToks(c: Chunk): Toks {
    match c
    case Pty(bytes, _) => Raws(bytes)
    case Notice(toks, _) => toks
    case Header(toks) => toks
    case Delta(toks) => toks
    case Tail => NEWLINE
    case Redraw(toks) => toks
  }

  function Flat(log: seq<Chunk>): Toks {
    if log == [] then [] else Flat(log[..|log| - 1]) + ChunkToks(log[|log| - 1])
  }

  lemma FlatPush(log: seq<Chunk>, c: Chunk)
    ensures Flat(log + [c]) == Flat(log) + ChunkToks(c)
  {
    assert (log + [c])[..|log|] == log;
  }

  /** `log` is the output so far; `begun` and `ended` are the responses opened and closed. */
  datatype Model = Model(
    dispatched: map<RequestId, bool>,
    active: Option<Response>,
    aborted: set<RequestId>,
    log: seq<Chunk>,
    begun: seq<RequestId>,
    ended: seq<RequestId>)

  const NEW: Model := Model(map[], None, {}, [], [], [])

  function Seen(p: Model, m: Mirror): View { m(Flat(p.log)) }

  function Put(p: Model, c: Chunk): Model { p.(log := p.log + [c]) }

  // ---- Pieces of output ---------------------------------------------------------------------------------

  const AI_HEADER: Toks := [Sgr([2])] + Chars("[koshell ai]") + [Sgr([0])] + NEWLINE

  function LinePrefix(v: View): Toks { if v.atLineStart then [] else NEWLINE }

  function DimLine(text: string): Toks {
    [Sgr([2])] + Chars("[koshell] " + Normalized(text, false)) + [Sgr([0])] + NEWLINE
  }

  function EraseRegion(region: Region): Toks { [Ch('\r'), El] + EraseAbove(|region.styledRows| - 1) }

  function EraseAbove(rows: int): Toks { if rows <= 0 then [] else EraseAbove(rows - 1) + [Cuu, El] }

  function Joined(rows: seq<Toks>): Toks { if rows == [] then [] else Joined(rows[..|rows| - 1]) + rows[|rows| - 1] }

  function Spaces(n: int): Toks { if n <= 0 then [] else Spaces(n - 1) + [Ch(' ')] }

  function RestoreRegion(region: Region): Toks {
    Joined(region.styledRows) + Spaces(region.cursorCol - region.lastRowChars)
  }

  function WithNotice(p: Model, m: Mirror, text: string, kind: NoticeKind): Model {
    Put(p, Notice(LinePrefix(Seen(p, m)) + DimLine(text), kind))
  }

  /** Content inserted above the live line, or `None` when the line cannot be sampled. */
  function InsertedAbove(p: Model, m: Mirror, lines: Toks): Option<Model> {
    match Seen(p, m).live
    case None => None
    case Some(region) => Some(Put(p, Redraw(EraseRegion(region) + lines + RestoreRegion(region))))
  }

  function WithNoticeAbove(p: Model, m: Mirror, text: string, kind: NoticeKind): Model {
    InsertedAbove(p, m, DimLine(text)).GetOr(WithNotice(p, m, text, kind))
  }

  function WithNoticeBeforePrompt(p: Model, m: Mirror, text: string): Model {
    if Seen(p, m).restingPrompt then WithNoticeAbove(p, m, text, Plain) else WithNotice(p, m, text, Plain)
  }

  // ---- The operations --------------------------------------------------------------------------------------

  function Fresh(p: Model, m: Mirror, id: RequestId, mode: Mode, now: nat): Response {
    Response(id, mode, now, now, false, false, false, [], [], false, false,
             mode == Stream && Seen(p, m).restingPrompt, None)
  }

  /** Opens a response; one that is active is replaced, its held bytes with it. */
  function Begun(p: Model, m: Mirror, id: RequestId, mode: Mode, now: nat): Model {
    p.(active := Some(Fresh(p, m, id, mode, now)), begun := p.begun + [id])
  }

  function Dispatched(p: Model, m: Mirror, id: RequestId, stillRunning: bool, now: nat): Model {
    var p' := p.(dispatched := p.dispatched[id := stillRunning]);
    if p.active.None? then Begun(p', m, id, if stillRunning then Block else Stream, now) else p'
  }

  const FUSE_TEXT: string := "held command output hit the size limit; releasing it (the answer resumes below)"
  const STALL_TEXT: string :=
    "no AI progress for 30 seconds \U{2014} press Ctrl+C to stop the AI and release the held command output"
  const WAITING_TEXT: string := "waiting for the AI answer\U{2026}"

  function WithStallNotice(p: Model, m: Mirror, a: Response): Model {
    WithNotice(p.(active := Some(a.(stallNoticeShown := true, receiptShown := true))), m, STALL_TEXT, Plain)
  }

  function PtyOutput(p: Model, m: Mirror, visible: seq<Byte>, now: nat): Model {
    if p.active.Some? && p.active.value.HoldingPty() then
      var a := p.active.value.(bufferedPty := p.active.value.bufferedPty + visible);
      var p' := p.(active := Some(a));
      if |a.bufferedPty| >= PTY_BUFFER_FUSE_BYTES then
        Put(WithNotice(p.(active := Some(a.(bufferedPty := [],
                                            resumeHeaderPending := a.resumeHeaderPending || a.started))),
                       m, FUSE_TEXT, FuseBoundary),
            Pty(a.bufferedPty, Fuse))
      else if a.StallDeadlinePassed(now) then WithStallNotice(p', m, a)
      else p'
    else Put(p, Pty(visible, Through))
  }

  function Degraded(p: Model, a: Response, delta: string): Model {
    p.(active := Some(a.(mode := Block, anchored := false, accumulated := a.accumulated + delta)))
  }

  /** Where the AI text goes on: below the header, in place, or back on its last row. */
  function Resume(end: Option<AiEnd>): Toks {
    match end
    case None => AI_HEADER
    case Some(e) => if e.needsWrap then [] else [Cuu, Cha(e.col + 1)]
  }

  function TailIntact(end: Option<AiEnd>, region: Region): bool {
    end.Some? ==> region.rowAbove == Some(end.value.tail)
  }

  function AnchoredDelta(p: Model, m: Mirror, a: Response, delta: string): Model {
    match Seen(p, m).live
    case None => Degraded(p, a, delta)
    case Some(region) =>
      if !TailIntact(a.aiEnd, region) then Degraded(p, a, delta)
      else
        var p1 := Put(p, Redraw(EraseRegion(region) + Resume(a.aiEnd) + Chars(Normalized(delta, a.lastWasCr))));
        var a1 := a.(started := true, lastWasCr := EndsInCr(delta, a.lastWasCr), aiEnd := Some(Seen(p1, m).probe));
        Put(p1, Redraw(NEWLINE + RestoreRegion(region))).(active := Some(a1))
  }

  function StreamDelta(p: Model, m: Mirror, a: Response, delta: string): Model {
    var p1 :=
      if !a.started || a.resumeHeaderPending
      then Put(p, Header(LinePrefix(Seen(p, m)) + AI_HEADER))
      else p;
    Put(p1, Delta(Chars(Normalized(delta, a.lastWasCr))))
      .(active := Some(a.(started := true, resumeHeaderPending := false, lastWasCr := EndsInCr(delta, a.lastWasCr))))
  }

  function OnDelta(p: Model, m: Mirror, id: RequestId, delta: string, now: nat): Model {
    if id in p.aborted then p
    else
      var p1 :=
        if p.active.None? || p.active.value.id != id
        then Begun(p, m, id, if id in p.dispatched && !p.dispatched[id] then Stream else Block, now)
        else p;
      var a := p1.active.value.(lastProgressAt := now);
      var p2 := p1.(active := Some(a));
      if a.mode == Block then p2.(active := Some(a.(accumulated := a.accumulated + delta)))
      else if a.anchored then AnchoredDelta(p2, m, a, delta)
      else StreamDelta(p2, m, a, delta)
  }

  function OnTool(p: Model, m: Mirror, id: RequestId, message: string, now: nat): Model {
    if id in p.aborted || p.active.None? || p.active.value.id != id then p
    else
      var a := p.active.value.(receiptShown := true, lastProgressAt := now);
      var p1 := p.(active := Some(a));
      if a.anchored
      then WithNoticeAbove(p1, m, message, Tool).(active := Some(a.(aiEnd := None)))
      else WithNotice(p1, m, message, Tool).(active := Some(a.(resumeHeaderPending := a.resumeHeaderPending || a.started)))
  }

  function ErrorText(message: string): string { "AI error: " + message }

  function BlockText(a: Response): Toks { AI_HEADER + Chars(Normalized(a.accumulated, false)) + NEWLINE }

  /** The one block of a response that ran in block mode. */
  function WithBlock(p: Model, m: Mirror, a: Response): Model {
    if a.accumulated == [] then p
    else
      var v := Seen(p, m);
      var plain := Put(p, Redraw(LinePrefix(v) + BlockText(a)));
      if v.restingPrompt then InsertedAbove(p, m, BlockText(a)).GetOr(plain) else plain
  }

  function WithTail(p: Model, a: Response): Model { if a.started then Put(p, Tail) else p }

  function WithHeld(p: Model, a: Response, how: PtyHow): Model {
    if a.bufferedPty == [] then p else Put(p, Pty(a.bufferedPty, how))
  }

  /** What closing a response writes. */
  function Closed(p: Model, m: Mirror, a: Response, error: Option<string>): Model {
    if a.mode == Block then
      var p1 := WithBlock(p, m, a);
      if error.Some? then WithNoticeBeforePrompt(p1, m, ErrorText(error.value)) else p1
    else if a.anchored then
      if error.Some? then WithNoticeAbove(p, m, ErrorText(error.value), Plain) else p
    else
      var p1 := WithTail(p, a);
      var p2 := if error.Some? then WithNotice(p1, m, ErrorText(error.value), Plain) else p1;
      WithHeld(p2, a, AtFinish)
  }

  function Finish(p: Model, m: Mirror, id: RequestId, error: Option<string>): Model {
    var p1 := p.(dispatched := p.dispatched - {id});
    if id in p.aborted then p1.(aborted := p.aborted - {id})
    else if p.active.Some? && p.active.value.id == id then
      Closed(p1.(active := None, ended := p.ended + [id]), m, p.active.value, error)
    else if error.Some? then WithNotice(p1, m, ErrorText(error.value), Plain)
    else p1
  }

  function Interrupt(p: Model, m: Mirror): Model {
    if p.active.None? then p
    else
      var a := p.active.value;
      var p1 := p.(active := None, dispatched := p.dispatched - {a.id}, aborted := p.aborted + {a.id}, ended := p.ended + [a.id]);
      if a.mode == Block then WithNoticeBeforePrompt(p1, m, "answer cancelled (^C)")
      else if a.anchored then WithNoticeAbove(p1, m, "answer interrupted (^C)", Plain)
      else
        var p2 := WithTail(p1, a);
        if a.bufferedPty == [] then WithNotice(p2, m, "answer interrupted (^C)", Plain)
        else WithHeld(WithNotice(p2, m, "answer interrupted (^C); releasing held command output", InterruptBoundary), a, AtInterrupt)
  }

  function ReceiptDue(a: Response, now: nat): bool {
    !a.receiptShown && a.NothingRendered() && now >= a.dispatchedAt + RECEIPT_NOTICE_DELAY
  }

  function StallDue(a: Response, now: nat): bool {
    a.HoldingPty() && a.StallDeadlinePassed(now) && a.bufferedPty != []
  }

  function Polled(p: Model, m: Mirror, now: nat): Model {
    if p.active.None? then p
    else
      var a := p.active.value;
      var p1 :=
        if !ReceiptDue(a, now) then p
        else
          var shown := p.(active := Some(a.(receiptShown := true)));
          if a.anchored then WithNoticeAbove(shown, m, WAITING_TEXT, Plain) else WithNotice(shown, m, WAITING_TEXT, Plain);
      if StallDue(a, now) then WithStallNotice(p1, m, p1.active.value) else p1
  }

  function Min(a: nat, b: nat): nat { if a <= b then a else b }

  /** How long nothing will be due: the earlier of the receipt and the stall notice still to come. */
  function NextDeadline(p: Model, now: nat): Option<nat> {
    if p.active.None? then None
    else
      var a := p.active.value;
      var receipt := if !a.receiptShown && a.NothingRendered() then Some(a.dispatchedAt + RECEIPT_NOTICE_DELAY) else None;
      var stall := a.lastProgressAt + STALL_NOTICE_DELAY;
      var next :=
        if a.HoldingPty() && !a.stallNoticeShown && stall > now
        then Some(if receipt.Some? then Min(receipt.value, stall) else stall)
        else receipt;
      match next case None => None case Some(at) => Some(if at > now then at - now else 0)
  }

  // ---- The object -----------------------------------------------------------------------------------------------

  /** Every write is followed by feeding the mirror; `log` names the pieces. */
  class Presentation {
    var dispatched: map<RequestId, bool>
    var active: Option<Response>
    var aborted: set<RequestId>
    var out: Toks
    var fed: Toks
    ghost var log: seq<Chunk>
    ghost var begun: seq<RequestId>
    ghost var ended: seq<RequestId>

    /** The mirror-feed invariant: the terminal and the mirror have received the same stream. */
    ghost predicate Valid()
      reads this
    {
      out == fed == Flat(log)
    }

    ghost function Value(): Model
      reads this
    {
      Model(dispatched, active, aborted, log, begun, ended)
    }

    constructor ()
      ensures Valid() && Value() == NEW
    {
      dispatched, active, aborted, out, fed := map[], None, {}, [], [];
      log, begun, ended := [], [], [];
    }

    method Write(toks: Toks)
      modifies this`out
      ensures out == old(out) + toks
    {
      out := out + toks;
    }

    method Feed(toks: Toks)
      modifies this`fed
      ensures fed == old(fed) + toks
    {
      fed := fed + toks;
    }

    ghost method Log(c: Chunk)
      requires out == fed == Flat(log) + ChunkToks(c)
      modifies this`log
      ensures Valid() && log == old(log) + [c]
    {
      FlatPush(log, c);
      log := log + [c];
    }

    method WriteNotice(text: string, kind: NoticeKind, m: Mirror)
      requires Valid()
      modifies this`out, this`fed, this`log
      ensures Valid() && Value() == WithNotice(old(Value()), m, text, kind)
    {
      hide Flat, DimLine;
      var toks := LinePrefix(m(fed)) + DimLine(text);
      Write(toks);
      Feed(toks);
      Log(Notice(toks, kind));
    }

    method InsertAboveLive(lines: Toks, m: Mirror) returns (inserted: bool)
      requires Valid()
      modifies this`out, this`fed, this`log
      ensures Valid() && inserted == InsertedAbove(old(Value()), m, lines).Some?
      ensures Value() == InsertedAbove(old(Value()), m, lines).GetOr(old(Value()))
    {
      hide Flat, EraseRegion, RestoreRegion;
      var region := m(fed).live;
      if region.None? {
        return false;
      }
      var toks := EraseRegion(region.value) + lines + RestoreRegion(region.value);
      Write(toks);
      Feed(toks);
      Log(Redraw(toks));
      return true;
    }

    method NoticeAboveLive(text: string, kind: NoticeKind, m: Mirror)
      requires Valid()
      modifies this`out, this`fed, this`log
      ensures Valid() && Value() == WithNoticeAbove(old(Value()), m, text, kind)
    {
      hide Flat, DimLine, InsertedAbove, WithNotice;
      var inserted := InsertAboveLive(DimLine(text), m);
      if !inserted {
        WriteNotice(text, kind, m);
      }
    }

    method NoticeBeforePrompt(text: string, m: Mirror)
      requires Valid()
      modifies this`out, this`fed, this`log
      ensures Valid() && Value() == WithNoticeBeforePrompt(old(Value()), m, text)
    {
      hide Flat, WithNotice, WithNoticeAbove;
      if m(fed).restingPrompt {
        NoticeAboveLive(text, Plain, m);
      } else {
        WriteNotice(text, Plain, m);
      }
    }

    method WritePty(bytes: seq<Byte>, how: PtyHow)
      requires Valid()
      modifies this`out, this`fed, this`log
      ensures Valid() && Value() == Put(old(Value()), Pty(bytes, how))
    {
      hide Flat;
      Write(Raws(bytes));
      Feed(Raws(bytes));
      Log(Pty(bytes, how));
    }

    method WriteTail()
      requires Valid()
      modifies this`out, this`fed, this`log
      ensures Valid() && Value() == Put(old(Value()), Tail)
    {
      hide Flat;
      Write(NEWLINE);
      Feed(NEWLINE);
      Log(Tail);
    }

    method BeginResponse(id: RequestId, mode: Mode, m: Mirror, now: nat)
      requires Valid()
      modifies this`active, this`begun
      ensures Valid() && Value() == Begun(old(Value()), m, id, mode, now)
    {
      hide Flat;
      active := Some(Response(id, mode, now, now, false, false, false, [], [], false, false,
                              mode == Stream && m(fed).restingPrompt, None));
      begun := begun + [id];
    }

    method NoteDispatch(id: RequestId, stillRunning: bool, m: Mirror, now: nat)
      requires Valid()
      modifies this
      ensures Valid() && Value() == Dispatched(old(Value()), m, id, stillRunning, now)
    {
      hide Flat, Begun;
      dispatched := dispatched[id := stillRunning];
      if active.None? {
        BeginResponse(id, if stillRunning then Block else Stream, m, now);
      }
    }

    method StallNotice(m: Mirror)
      requires Valid() && active.Some?
      modifies this
      ensures Valid() && Value() == WithStallNotice(old(Value()), m, old(active).value)
    {
      hide Flat, DimLine;
      active := Some(active.value.(stallNoticeShown := true, receiptShown := true));
      WriteNotice(STALL_TEXT, Plain, m);
    }

    method WritePtyOutput(visible: seq<Byte>, m: Mirror, now: nat)
      requires Valid()
      modifies this
      ensures Valid() && Value() == PtyOutput(old(Value()), m, visible, now)
    {
      hide Flat, DimLine;
      if active.Some? && active.value.HoldingPty() {
        active := Some(active.value.(bufferedPty := active.value.bufferedPty + visible));
        if |active.value.bufferedPty| >= PTY_BUFFER_FUSE_BYTES {
          ReleaseHeldBlock(m);
        } else if active.value.StallDeadlinePassed(now) {
          StallNotice(m);
        }
        return;
      }
      WritePty(visible, Through);
    }

    method ReleaseHeldBlock(m: Mirror)
      requires Valid() && active.Some? && active.value.bufferedPty != []
      modifies this
      ensures var a := old(active).value;
              && Valid()
              && Value() == Put(WithNotice(old(Value()).(active := Some(a.(bufferedPty := [],
                                                         resumeHeaderPending := a.resumeHeaderPending || a.started))),
                                           m, FUSE_TEXT, FuseBoundary),
                                Pty(a.bufferedPty, Fuse))
    {
      hide Flat, DimLine;
      var buffered := active.value.bufferedPty;
      active := Some(active.value.(bufferedPty := []));
      WriteNotice(FUSE_TEXT, FuseBoundary, m);
      WritePty(buffered, Fuse);
      if active.value.started {
        active := Some(active.value.(resumeHeaderPending := true));
      }
    }

    method HandleDelta(id: RequestId, delta: string, m: Mirror, now: nat)
      requires Valid()
      modifies this
      ensures Valid() && Value() == OnDelta(old(Value()), m, id, delta, now)
    {
      hide Flat, AnchoredDelta, StreamDelta;
      if id in aborted {
        return;
      }
      if active.None? || active.value.id != id {
        BeginResponse(id, if id in dispatched && !dispatched[id] then Stream else Block, m, now);
      }
      active := Some(active.value.(lastProgressAt := now));
      if active.value.mode == Block {
        active := Some(active.value.(accumulated := active.value.accumulated + delta));
      } else if active.value.anchored {
        WriteAnchoredDelta(delta, m);
      } else {
        WriteStreamDelta(delta, m);
      }
    }

    method WriteStreamDelta(delta: string, m: Mirror)
      requires Valid() && active.Some?
      modifies this
      ensures Valid() && Value() == StreamDelta(old(Value()), m, old(active).value, delta)
    {
      hide Flat, Normalized;
      if !active.value.started || active.value.resumeHeaderPending {
        active := Some(active.value.(started := true, resumeHeaderPending := false));
        var header := LinePrefix(m(fed)) + AI_HEADER;
        Write(header);
        Feed(header);
        Log(Header(header));
      }
      var normal, lastWasCr := NormalizeNewlines(delta, active.value.lastWasCr);
      active := Some(active.value.(lastWasCr := lastWasCr));
      Write(Chars(normal));
      Feed(Chars(normal));
      Log(Delta(Chars(normal)));
    }

    method WriteAnchoredDelta(delta: string, m: Mirror)
      requires Valid() && active.Some?
      modifies this
      ensures Valid() && Value() == AnchoredDelta(old(Value()), m, old(active).value, delta)
    {
      hide Flat, Normalized, EraseRegion, RestoreRegion;
      var sampled := m(fed).live;
      if sampled.None? || !TailIntact(active.value.aiEnd, sampled.value) {
        active := Some(active.value.(mode := Block, anchored := false, accumulated := active.value.accumulated + delta));
        return;
      }
      var region := sampled.value;
      var normal, lastWasCr := NormalizeNewlines(delta, active.value.lastWasCr);
      var text := EraseRegion(region) + Resume(active.value.aiEnd) + Chars(normal);
      Write(text);
      Feed(text);
      Log(Redraw(text));
      active := Some(active.value.(started := true, lastWasCr := lastWasCr, aiEnd := Some(m(fed).probe)));
      var below := NEWLINE + RestoreRegion(region);
      Write(below);
      Feed(below);
      Log(Redraw(below));
    }

    method HandleTool(id: RequestId, message: string, m: Mirror, now: nat)
      requires Valid()
      modifies this
      ensures Valid() && Value() == OnTool(old(Value()), m, id, message, now)
    {
      hide Flat, DimLine, InsertedAbove, WithNoticeAbove;
      if id in aborted || active.None? || active.value.id != id {
        return;
      }
      active := Some(active.value.(receiptShown := true, lastProgressAt := now));
      if active.value.anchored {
        NoticeAboveLive(message, Tool, m);
        active := Some(active.value.(aiEnd := None));
      } else {
        WriteNotice(message, Tool, m);
        if active.value.started {
          active := Some(active.value.(resumeHeaderPending := true));
        }
      }
    }

    method WriteBlock(a: Response, m: Mirror)
      requires Valid()
      modifies this`out, this`fed, this`log
      ensures Valid() && Value() == WithBlock(old(Value()), m, a)
    {
      hide Flat, Normalized, InsertedAbove;
      if a.accumulated == [] {
        return;
      }
      var normal, _ := NormalizeNewlines(a.accumulated, false);
      var block := AI_HEADER + Chars(normal) + NEWLINE;
      var inserted := false;
      var v := m(fed);
      if v.restingPrompt {
        inserted := InsertAboveLive(block, m);
      }
      if !inserted {
        var placed := LinePrefix(v) + block;
        Write(placed);
        Feed(placed);
        Log(Redraw(placed));
      }
    }

    method WriteClosing(a: Response, error: Option<string>, m: Mirror)
      requires Valid()
      modifies this`out, this`fed, this`log
      ensures Valid() && Value() == Closed(old(Value()), m, a, error)
    {
      hide Flat, WithBlock, WithNotice, WithNoticeAbove, WithNoticeBeforePrompt;
      if a.mode == Block {
        WriteBlock(a, m);
        if error.Some? {
          NoticeBeforePrompt(ErrorText(error.value), m);
        }
      } else if a.anchored {
        if error.Some? {
          NoticeAboveLive(ErrorText(error.value), Plain, m);
        }
      } else {
        if a.started {
          WriteTail();
        }
        if error.Some? {
          WriteNotice(ErrorText(error.value), Plain, m);
        }
        if a.bufferedPty != [] {
          WritePty(a.bufferedPty, AtFinish);
        }
      }
    }

    method HandleEnd(id: RequestId, error: Option<string>, m: Mirror)
      requires Valid()
      modifies this
      ensures Valid() && Value() == Finish(old(Value()), m, id, error)
    {
      hide Flat, WithNotice, Closed;
      dispatched := dispatched - {id};
      if id in aborted {
        aborted := aborted - {id};
        return;
      }
      if active.Some? && active.value.id == id {
        var a := active.value;
        active := None;
        ended := ended + [id];
        WriteClosing(a, error, m);
      } else if error.Some? {
        WriteNotice(ErrorText(error.value), Plain, m);
      }
    }

    method UserInterrupt(m: Mirror) returns (id: Option<RequestId>)
      requires Valid()
      modifies this
      ensures Valid() && Value() == Interrupt(old(Value()), m)
      ensures id == if old(active).Some? then Some(old(active).value.id) else None
    {
      hide Flat, WithNotice, WithNoticeAbove, WithNoticeBeforePrompt;
      if active.None? {
        return None;
      }
      var a := active.value;
      active := None;
      dispatched := dispatched - {a.id};
      aborted := aborted + {a.id};
      ended := ended + [a.id];
      if a.mode == Block {
        NoticeBeforePrompt("answer cancelled (^C)", m);
      } else if a.anchored {
        NoticeAboveLive("answer interrupted (^C)", Plain, m);
      } else {
        if a.started {
          WriteTail();
        }
        if a.bufferedPty == [] {
          WriteNotice("answer interrupted (^C)", Plain, m);
        } else {
          WriteNotice("answer interrupted (^C); releasing held command output", InterruptBoundary, m);
          WritePty(a.bufferedPty, AtInterrupt);
        }
      }
      return Some(a.id);
    }

    method Poll(m: Mirror, now: nat)
      requires Valid()
      modifies this
      ensures Valid() && Value() == Polled(old(Value()), m, now)
    {
      hide Flat, WithNotice, WithNoticeAbove;
      if active.None? {
        return;
      }
      if ReceiptDue(active.value, now) {
        active := Some(active.value.(receiptShown := true));
        if active.value.anchored {
          NoticeAboveLive(WAITING_TEXT, Plain, m);
        } else {
          WriteNotice(WAITING_TEXT, Plain, m);
        }
      }
      if StallDue(active.value, now) {
        StallNotice(m);
      }
    }
  }
}
