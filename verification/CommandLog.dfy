/** Runs of the command index against an unbounded log that keeps every byte of every command.
    The index must answer like the log wherever it answers at all. */
module CommandLogs {
  import opened Common
  import opened Utf8
  import opened OutputBuffers
  import opened CommandHistories

  datatype Op =
    | Begin(command: string)
    | Record(bytes: seq<Byte>)
    | End(exitCode: Option<int>)
    | Clear
    | Abandon

  function Step(h: History, op: Op): History {
    match op
    case Begin(command) => Begun(h, command)
    case Record(bytes) => Recorded(h, bytes)
    case End(exitCode) => Ended(h, exitCode)
    case Clear => Cleared(h)
    case Abandon => Abandoned(h)
  }

  function Run(ops: seq<Op>): History {
    if ops == [] then NEW else Step(Run(ops[..|ops| - 1]), ops[|ops| - 1])
  }

  // ---- The unbounded log -----------------------------------------------------------------

  /** A finished command with all the bytes recorded for it. */
  datatype Command = Command(text: string, bytes: seq<Byte>, exitCode: Option<int>)
  datatype Open = Open(id: nat, text: string, bytes: seq<Byte>)

  /** `done` never loses a command; `listed` are the ids finished since the last clear. */
  datatype Log = Log(done: map<nat, Command>, listed: seq<nat>, open: Option<Open>, nextId: nat)

  function LogStep(log: Log, op: Op): Log {
    match op
    case Begin(command) => log.(open := Some(Open(log.nextId, command, [])), nextId := log.nextId + 1)
    case Record(bytes) =>
      if log.open.None? then log
      else log.(open := Some(log.open.value.(bytes := log.open.value.bytes + bytes)))
    case End(exitCode) =>
      if log.open.None? then log
      else
        var o := log.open.value;
        log.(done := log.done[o.id := Command(o.text, o.bytes, exitCode)], listed := log.listed + [o.id], open := None)
    case Clear => log.(listed := [])
    case Abandon => log.(open := None)
  }

  function LogOf(ops: seq<Op>): Log {
    if ops == [] then Log(map[], [], None, 1) else LogStep(LogOf(ops[..|ops| - 1]), ops[|ops| - 1])
  }

  /** The original output of a finished command. */
  function Original(log: Log, id: nat): string
    requires id in log.done
  {
    Lossy(log.done[id].bytes)
  }

  function LastTen(ids: seq<nat>): seq<nat> {
    if |ids| > MAX_COMPLETED_COMMANDS then ids[|ids| - MAX_COMPLETED_COMMANDS..] else ids
  }

  /** Output recorded or a command ended while the session stays within its cap drops nothing; nor does
      anything else but an eleventh command or a clear. */
  lemma FittingStepDropsNothing(ops: seq<Op>, op: Op)
    requires var h := Run(ops);
             op.Record? && h.active.Some? ==>
               var span := h.active.value;
               RowBytes(h.completed) + ByteLen(Appended(span.output, Decode(span.partial + op.bytes).text).retained) <= 4_194_304
    requires var h := Run(ops);
             op.End? && h.active.Some? ==>
               RowBytes(Newest(h.completed + [ClosedRow(h.active.value, op.exitCode)])) <= 4_194_304
    ensures var h, after := Run(ops).completed, Run(ops + [op]).completed;
            && (op.Begin? || op.Record? || op.Abandon? ==> after == h)
            && (op.End? && Run(ops).active.None? ==> after == h)
            && (op.End? && Run(ops).active.Some? && |h| < 10 ==> |after| == |h| + 1 && after[..|h|] == h)
            && (op.Clear? ==> after == [])
  {
    hide ReclaimedOldest, RowBytes, Decode, Appended, ByteLen;
    assert (ops + [op])[..|ops|] == ops;
    var h := Run(ops);
    match op
    case Record(bytes) =>
      if h.active.Some? && bytes != [] {
        var span := h.active.value;
        var d := Decode(span.partial + bytes);
        var grown := h.(active := Some(span.(output := Appended(span.output, d.text), partial := d.rest)));
        var k := EnforcedExactly(grown);
      }
    case End(exitCode) =>
      if h.active.Some? {
        var k := EnforcedExactly(History(Newest(h.completed + [ClosedRow(h.active.value, exitCode)]), None, h.nextId));
      }
    case _ =>
  }

  // ---- The index refines the log -----------------------------------------------------------

  ghost predicate RowRefines(r: Row, log: Log) {
    && r.id in log.done
    && r.command == StoredCommand(log.done[r.id].text)
    && r.exitCode == log.done[r.id].exitCode
    && Describes(r.output, Original(log, r.id))
  }

  ghost predicate RowsRefine(rows: seq<Row>, ids: seq<nat>, log: Log) {
    && |rows| == |ids|
    && forall i :: 0 <= i < |rows| ==> rows[i].id == ids[i] && RowRefines(rows[i], log)
  }

  ghost predicate SpanRefines(s: Span, o: Open) {
    && s.id == o.id
    && s.command == StoredCommand(o.text)
    && s.partial == Decode(o.bytes).rest
    && Describes(s.output, Decode(o.bytes).text)
    && LongestTail(s.output, Decode(o.bytes).text)
  }

  /** Ids are handed out in increasing order and never reused. */
  ghost predicate IdsFresh(log: Log) {
    && (forall id :: id in log.done ==> id < log.nextId)
    && (forall i, j :: 0 <= i < j < |log.listed| ==> log.listed[i] < log.listed[j])
    && (forall i :: 0 <= i < |log.listed| ==> log.listed[i] in log.done)
    && (log.open.Some? ==> log.open.value.id < log.nextId && forall id :: id in log.done ==> id < log.open.value.id)
  }

  ghost predicate Refines(h: History, log: Log) {
    && h.nextId == log.nextId
    && (h.active.Some? <==> log.open.Some?)
    && (h.active.Some? ==> SpanRefines(h.active.value, log.open.value))
    && RowsRefine(h.completed, LastTen(log.listed), log)
    && RetainedBytes(h) <= MAX_TOTAL_OUTPUT_BYTES
  }

  /** Main theorem: after any run, the index holds exactly the last ten commands finished since
      the last clear, each row describes the lossy decoding of all its bytes however they were
      chunked, and both caps hold. */
  lemma {:induction false} RunRefinesLog(ops: seq<Op>)
    ensures Refines(Run(ops), LogOf(ops)) && IdsFresh(LogOf(ops))
  {
    if ops != [] {
      var before, op := ops[..|ops| - 1], ops[|ops| - 1];
      RunRefinesLog(before);
      StepRefines(Run(before), LogOf(before), op);
    }
  }

  lemma StepRefines(h: History, log: Log, op: Op)
    requires Refines(h, log) && IdsFresh(log)
    ensures Refines(Step(h, op), LogStep(log, op)) && IdsFresh(LogStep(log, op))
  {
    match op
    case Begin(command) => BegunRefines(h, log, command);
    case Record(bytes) => RecordedRefines(h, log, bytes);
    case End(exitCode) => EndedRefines(h, log, exitCode);
    case Clear => assert LastTen([]) == [];
    case Abandon =>
  }

  lemma BegunRefines(h: History, log: Log, command: string)
    requires Refines(h, log) && IdsFresh(log)
    ensures Refines(Begun(h, command), LogStep(log, Begin(command))) && IdsFresh(LogStep(log, Begin(command)))
  {
    hide Describes, LongestTail;
    EmptyDescribes();
    assert RowsRefine(h.completed, LastTen(log.listed), LogStep(log, Begin(command)));
  }

  lemma EmptyDescribes()
    ensures Decode([]) == Decoded([], []) && Describes(EMPTY, []) && LongestTail(EMPTY, [])
  {
  }

  lemma RecordedRefines(h: History, log: Log, bytes: seq<Byte>)
    requires Refines(h, log) && IdsFresh(log)
    ensures Refines(Recorded(h, bytes), LogStep(log, Record(bytes))) && IdsFresh(LogStep(log, Record(bytes)))
  {
    hide SpanRefines, RowRefines, Enforced, RetainedBytes;
    if h.active.Some? {
      var s, o, log' := h.active.value, log.open.value, LogStep(log, Record(bytes));
      if bytes == [] {
        assert o.bytes + bytes == o.bytes;
      } else {
        var d := Decode(s.partial + bytes);
        var s' := s.(output := Appended(s.output, d.text), partial := d.rest);
        SpanRecorded(s, o, bytes);
        SameRows(h.completed, LastTen(log.listed), log, log');
        EnforcedRefines(h.(active := Some(s')), log');
      }
    }
  }

  lemma SpanRecorded(s: Span, o: Open, bytes: seq<Byte>)
    requires SpanRefines(s, o)
    ensures var d := Decode(s.partial + bytes);
            SpanRefines(s.(output := Appended(s.output, d.text), partial := d.rest), o.(bytes := o.bytes + bytes))
  {
    hide Decode, Describes, LongestTail, Appended;
    DecodeInChunks(o.bytes, bytes);
    AppendedDescribes(s.output, Decode(o.bytes).text, Decode(s.partial + bytes).text);
  }

  lemma SameRows(rows: seq<Row>, ids: seq<nat>, log: Log, log': Log)
    requires RowsRefine(rows, ids, log)
    requires forall id :: id in log.done ==> id in log'.done && log'.done[id] == log.done[id]
    ensures RowsRefine(rows, ids, log')
  {
    hide Describes, Lossy;
    forall i | 0 <= i < |rows| ensures RowRefines(rows[i], log') { assert RowRefines(rows[i], log); }
  }

  lemma EnforcedRefines(h: History, log: Log)
    requires h.nextId == log.nextId && (h.active.Some? <==> log.open.Some?)
    requires h.active.Some? ==> SpanRefines(h.active.value, log.open.value)
    requires RowsRefine(h.completed, LastTen(log.listed), log)
    ensures Refines(Enforced(h), log)
  {
    hide RowsRefine, Decode, ReclaimedOldest;
    EnforcedRows(h.completed, LastTen(log.listed), log, RetainedBytes(h) - MAX_TOTAL_OUTPUT_BYTES);
    ReclaimFreesExcess(h.completed, RetainedBytes(h) - MAX_TOTAL_OUTPUT_BYTES);
  }

  lemma {:induction false} EnforcedRows(rows: seq<Row>, ids: seq<nat>, log: Log, excess: int)
    requires RowsRefine(rows, ids, log)
    ensures RowsRefine(ReclaimedOldest(rows, excess), ids, log)
  {
    hide RowRefines, ReclaimedPrefix, ByteLen;
    if rows != [] && excess > 0 {
      var out := ReclaimedPrefix(rows[0].output, excess);
      var less := excess - (ByteLen(rows[0].output.retained) - ByteLen(out.retained));
      assert RowRefines(rows[0], log);
      RowReclaimed(rows[0], log, excess);
      EnforcedRows(rows[1..], ids[1..], log, less);
      var rest := ReclaimedOldest(rows[1..], less);
      forall i | 0 < i < |rows| ensures rest[i - 1].id == ids[i] && RowRefines(rest[i - 1], log) {
        assert ids[1..][i - 1] == ids[i];
      }
    }
  }

  lemma RowReclaimed(r: Row, log: Log, bytes: nat)
    requires RowRefines(r, log)
    ensures RowRefines(r.(output := ReclaimedPrefix(r.output, bytes)), log)
  {
    hide Describes, Lossy;
    ReclaimedDescribes(r.output, Original(log, r.id), bytes);
  }

  lemma EndedRefines(h: History, log: Log, exitCode: Option<int>)
    requires Refines(h, log) && IdsFresh(log)
    ensures Refines(Ended(h, exitCode), LogStep(log, End(exitCode))) && IdsFresh(LogStep(log, End(exitCode)))
  {
    hide RowRefines, Enforced, RetainedBytes;
    if h.active.Some? {
      var s, o, log' := h.active.value, log.open.value, LogStep(log, End(exitCode));
      ClosedRefines(s, o, exitCode, log');
      SameRows(h.completed, LastTen(log.listed), log, log');
      PushedRefines(h.completed, ClosedRow(s, exitCode), log.listed, log');
      EnforcedRefines(History(Newest(h.completed + [ClosedRow(s, exitCode)]), None, h.nextId), log');
    }
  }

  lemma ClosedRefines(s: Span, o: Open, exitCode: Option<int>, log: Log)
    requires SpanRefines(s, o)
    requires o.id in log.done && log.done[o.id] == Command(o.text, o.bytes, exitCode)
    ensures RowRefines(ClosedRow(s, exitCode), log)
  {
    hide Describes, Decode, Lossy, Appended;
    LossyIsDecodePlusTail(o.bytes);
    var text := Decode(o.bytes).text;
    assert text + [] == text;
    AppendedDescribes(s.output, text, [REPLACEMENT]);
  }

  lemma PushedRefines(rows: seq<Row>, r: Row, ids: seq<nat>, log: Log)
    requires RowsRefine(rows, LastTen(ids), log) && RowRefines(r, log)
    ensures RowsRefine(Newest(rows + [r]), LastTen(ids + [r.id]), log)
  {
    hide RowRefines;
  }

  // ---- The log only grows --------------------------------------------------------------------

  lemma {:induction false} LogGrows(ops: seq<Op>, more: seq<Op>)
    ensures var log, later := LogOf(ops), LogOf(ops + more);
            && log.nextId <= later.nextId
            && forall id :: id in log.done ==> id in later.done && later.done[id] == log.done[id]
  {
    if more == [] {
      assert ops + more == ops;
    } else {
      var n := |more| - 1;
      assert (ops + more)[..|ops| + n] == ops + more[..n];
      LogGrows(ops, more[..n]);
      RunRefinesLog(ops + more[..n]);
      LogStepKeeps(LogOf(ops + more[..n]), more[n]);
    }
  }

  lemma LogStepKeeps(log: Log, op: Op)
    requires IdsFresh(log)
    ensures forall id :: id in log.done ==> id in LogStep(log, op).done && LogStep(log, op).done[id] == log.done[id]
    ensures log.nextId <= LogStep(log, op).nextId
  {
  }

  // ---- Pages -----------------------------------------------------------------------------------

  /** What a page must be: the slice of the original output from `offset` to `nextOffset`. */
  ghost predicate IsSlice(p: Page, full: string) {
    && (p.offset <= |full| ==> p.offset <= p.nextOffset <= |full| && p.content == full[p.offset..p.nextOffset])
    && (p.offset > |full| ==> p.nextOffset == p.offset && p.content == [])
    && (p.hasMore <==> p.nextOffset < |full|)
    && (p.hasMore ==> p.offset < p.nextOffset)
    && |p.content| <= MAX_READ_LIMIT
  }

  lemma {:induction false} FindRow(rows: seq<Row>, ids: seq<nat>, log: Log, id: nat)
    requires RowsRefine(rows, ids, log)
    ensures Find(rows, id).Some? <==> id in ids
    ensures Find(rows, id).Some? ==> Find(rows, id).value.id == id && RowRefines(Find(rows, id).value, log)
  {
    hide RowRefines;
    if rows != [] {
      assert RowRefines(rows[0], log) && ids == [rows[0].id] + ids[1..];
      assert RowsRefine(rows[1..], ids[1..], log);
      FindRow(rows[1..], ids[1..], log, id);
    }
  }

  lemma ServedIsSlice(row: Row, full: string, start: nat, limit: Option<nat>)
    requires Describes(row.output, full) && row.output.startOffset <= start
    ensures var b := row.output;
            var content := Taken(b.retained, start - b.startOffset, Clamp(limit));
            var next := start + |content|;
            var page := Page(row.id, start, next, next < b.startOffset + |b.retained|, content, b);
            IsSlice(page, full) && IsFullPage(page, full, limit)
  {
    hide ByteLen;
  }

  /** A page holds as much as was asked for, 1 to 16,000 characters, 8,000 if nothing was said, or all
      that is left. */
  predicate IsFullPage(p: Page, full: string, limit: Option<nat>) {
    var asked := if limit.None? then 8_000 else if limit.value < 1 then 1 else if limit.value > 16_000 then 16_000 else limit.value;
    var left := if p.offset <= |full| then |full| - p.offset else 0;
    |p.content| == if asked <= left then asked else left
  }

  /** Every read is answered from the original output, whatever was evicted before it: not found
      exactly when the id is not among the last ten, evicted exactly below the earliest retained
      offset, and otherwise a slice. */
  ghost predicate AnswersFrom(h: History, log: Log, id: nat, offset: Option<nat>, limit: Option<nat>) {
    match Read(h, id, offset, limit)
    case CommandNotFound => id !in LastTen(log.listed)
    case Served(p) =>
      && id in LastTen(log.listed) && id in log.done
      && p.id == id && (offset.Some? ==> p.offset == offset.value)
      && (offset.None? ==> forall o: nat :: Read(h, id, Some(o), limit).Served? <==> p.offset <= o)
      && IsSlice(p, Original(log, id))
      && IsFullPage(p, Original(log, id), limit)
    case OutputEvicted(earliest) =>
      && id in LastTen(log.listed) && id in log.done
      && earliest <= |Original(log, id)|
      && offset.Some? && offset.value < earliest
      && forall o: nat :: Read(h, id, Some(o), limit).Served? <==> earliest <= o
  }

  lemma ReadAnswersFromOriginal(ops: seq<Op>, id: nat, offset: Option<nat>, limit: Option<nat>)
    ensures AnswersFrom(Run(ops), LogOf(ops), id, offset, limit)
  {
    hide Describes, Taken, Clamp, LastTen, IsSlice, IsFullPage, Run, LogOf, Lossy;
    var h, log := Run(ops), LogOf(ops);
    assert RowsRefine(h.completed, LastTen(log.listed), log) by { RunRefinesLog(ops); }
    FindRow(h.completed, LastTen(log.listed), log, id);
    match Find(h.completed, id)
    case None =>
    case Some(row) =>
      var start := offset.GetOr(row.output.startOffset);
      EarliestInside(row.output, Original(log, id));
      if row.output.startOffset <= start {
        ServedIsSlice(row, Original(log, id), start, limit);
      }
  }

  lemma EarliestInside(b: Buffer, full: string)
    requires Describes(b, full)
    ensures b.startOffset <= |full|
  {
  }

  /** Pages read at different times belong to one text: a page, and one read later from where it
      ended, are together a slice of the same original output. */
  lemma PagesJoin(ops: seq<Op>, more: seq<Op>, id: nat, offset: nat, limit: Option<nat>, limit': Option<nat>)
    requires Read(Run(ops), id, Some(offset), limit).Served?
    requires var p := Read(Run(ops), id, Some(offset), limit).page;
             p.hasMore && Read(Run(ops + more), id, Some(p.nextOffset), limit').Served?
    ensures var p := Read(Run(ops), id, Some(offset), limit).page;
            var q := Read(Run(ops + more), id, Some(p.nextOffset), limit').page;
            && id in LogOf(ops).done
            && offset <= q.nextOffset <= |Original(LogOf(ops), id)|
            && p.content + q.content == Original(LogOf(ops), id)[offset..q.nextOffset]
  {
    hide Read, Run, LogOf, Lossy;
    var p := Read(Run(ops), id, Some(offset), limit).page;
    ReadAnswersFromOriginal(ops, id, Some(offset), limit);
    ReadAnswersFromOriginal(ops + more, id, Some(p.nextOffset), limit');
    LogGrows(ops, more);
  }

  /** Following `nextOffset` while there is more. */
  function Follow(h: History, id: nat, offset: nat, limit: Option<nat>): string
    decreases var row := Find(h.completed, id);
              if row.Some? then row.value.output.startOffset + |row.value.output.retained| - offset else 0
  {
    match Read(h, id, Some(offset), limit)
    case Served(p) =>
      if p.hasMore && offset < p.nextOffset then p.content + Follow(h, id, p.nextOffset, limit) else p.content
    case _ => []
  }

  /** Following the pages ends with exactly the suffix from the first offset served. */
  lemma FollowIsSuffix(ops: seq<Op>, id: nat, offset: nat, limit: Option<nat>)
    requires Read(Run(ops), id, Some(offset), limit).Served?
    ensures id in LogOf(ops).done
    ensures offset <= |Original(LogOf(ops), id)| ==>
              Follow(Run(ops), id, offset, limit) == Original(LogOf(ops), id)[offset..]
  {
    hide Read, Run, LogOf, Lossy, Follow, IsSlice;
    ReadAnswersFromOriginal(ops, id, Some(offset), limit);
    var full := Original(LogOf(ops), id);
    forall o: nat | Read(Run(ops), id, Some(o), limit).Served?
      ensures ServesSlice(Run(ops), id, o, limit, full)
    {
      ReadAnswersFromOriginal(ops, id, Some(o), limit);
    }
    ServedAfterServed(ops, id, offset, limit);
    if offset <= |full| { FollowSlices(Run(ops), id, offset, limit, full); }
  }

  ghost predicate ServesSlice(h: History, id: nat, offset: nat, limit: Option<nat>, full: string) {
    var r := Read(h, id, Some(offset), limit);
    r.Served? && r.page.offset == offset && IsSlice(r.page, full)
  }

  lemma ServedAfterServed(ops: seq<Op>, id: nat, offset: nat, limit: Option<nat>)
    requires Read(Run(ops), id, Some(offset), limit).Served?
    ensures forall o: nat :: offset <= o ==> Read(Run(ops), id, Some(o), limit).Served?
  {
    hide Run;
  }

  lemma {:induction false} FollowSlices(h: History, id: nat, offset: nat, limit: Option<nat>, full: string)
    requires offset <= |full|
    requires forall o: nat :: offset <= o ==> ServesSlice(h, id, o, limit, full)
    ensures Follow(h, id, offset, limit) == full[offset..]
    decreases |full| - offset
  {
    hide Read;
    assert ServesSlice(h, id, offset, limit, full);
    var p := Read(h, id, Some(offset), limit).page;
    if p.hasMore {
      FollowSlices(h, id, p.nextOffset, limit, full);
      assert p.content + full[p.nextOffset..] == full[offset..];
    }
  }

  // ---- Caps --------------------------------------------------------------------------------------

  /** After every operation: at most 1 MiB per command, 4 MiB in all, ten rows, and the counters
      add up. */
  lemma CapsHold(ops: seq<Op>)
    ensures var h := Run(ops);
            && RetainedBytes(h) <= MAX_TOTAL_OUTPUT_BYTES
            && |h.completed| <= MAX_COMPLETED_COMMANDS
            && (forall r :: r in h.completed ==> WithinCap(r.output))
            && (h.active.Some? ==> WithinCap(h.active.value.output))
  {
    hide RetainedBytes;
    var h, log := Run(ops), LogOf(ops);
    RunRefinesLog(ops);
    forall r | r in h.completed ensures WithinCap(r.output) {
      var i :| 0 <= i < |h.completed| && h.completed[i] == r;
      assert RowRefines(h.completed[i], log);
      Conservation(r.output, Original(log, r.id));
    }
    if h.active.Some? { Conservation(h.active.value.output, Decode(log.open.value.bytes).text); }
  }

  ghost predicate WithinCap(b: Buffer) {
    && ByteLen(b.retained) <= MAX_COMMAND_OUTPUT_BYTES
    && ByteLen(b.retained) + b.droppedBytes == b.totalBytes
    && |b.retained| + b.startOffset == b.totalCharacters
    && (b.truncated <==> b.startOffset > 0)
  }

  // ---- Chunking ------------------------------------------------------------------------------------

  /** Describing an output with the longest tail leaves no choice. */
  lemma LongestTailIsUnique(b: Buffer, c: Buffer, full: string)
    requires Describes(b, full) && LongestTail(b, full)
    requires Describes(c, full) && LongestTail(c, full)
    ensures b == c
  {
    hide ByteLen;
    if b.startOffset < c.startOffset {
      TailsShrink(full, b.startOffset, c.startOffset - 1);
    } else if c.startOffset < b.startOffset {
      TailsShrink(full, c.startOffset, b.startOffset - 1);
    }
  }

  lemma TailsShrink(full: string, i: nat, j: nat)
    requires i <= j <= |full|
    ensures ByteLen(full[j..]) <= ByteLen(full[i..])
  {
    ByteLenSplit(full[i..], j - i);
    assert full[i..][j - i..] == full[j..];
  }

  /** The open span cannot tell one chunk from two. */
  lemma ChunkingIsInvisible(ops: seq<Op>, a: seq<Byte>, b: seq<Byte>)
    ensures Run(ops + [Record(a), Record(b)]).active == Run(ops + [Record(a + b)]).active
  {
    hide Run, LogOf, Refines;
    var once, twice := ops + [Record(a + b)], ops + [Record(a), Record(b)];
    SameOpenBytes(ops, a, b);
    assert Refines(Run(once), LogOf(once)) by { RunRefinesLog(once); }
    assert Refines(Run(twice), LogOf(twice)) by { RunRefinesLog(twice); }
    ActiveIsCanonical(Run(once), Run(twice), LogOf(once), LogOf(twice));
  }

  lemma SameOpenBytes(ops: seq<Op>, a: seq<Byte>, b: seq<Byte>)
    ensures LogOf(ops + [Record(a), Record(b)]).open == LogOf(ops + [Record(a + b)]).open
  {
    var once, twice := ops + [Record(a + b)], ops + [Record(a), Record(b)];
    assert once[..|ops|] == ops && twice[..|ops| + 1] == ops + [Record(a)] && (ops + [Record(a)])[..|ops|] == ops;
    assert LogOf(twice) == LogStep(LogOf(ops + [Record(a)]), Record(b));
    if LogOf(ops).open.Some? {
      assert LogOf(ops).open.value.bytes + a + b == LogOf(ops).open.value.bytes + (a + b);
    }
  }

  /** The open span is a function of the bytes recorded for it. */
  lemma ActiveIsCanonical(h: History, h': History, log: Log, log': Log)
    requires Refines(h, log) && Refines(h', log') && log.open == log'.open
    ensures h.active == h'.active
  {
    hide Decode, Describes, LongestTail, RowsRefine, RetainedBytes;
    if log.open.Some? {
      LongestTailIsUnique(h.active.value.output, h'.active.value.output, Decode(log.open.value.bytes).text);
    }
  }
}
