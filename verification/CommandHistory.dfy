/** The bounded index of completed commands: one span captured at a time, a per-command and a
    session-wide byte cap, and pages addressed by absolute character offset. */
module CommandHistories {
  import opened Common
  import opened Utf8
  import opened OutputBuffers

  const MAX_COMPLETED_COMMANDS: nat := 10
  const MAX_TOTAL_OUTPUT_BYTES: nat := 4 * 1024 * 1024
  const MAX_COMMAND_TEXT_BYTES: nat := 4 * 1024
  const DEFAULT_READ_LIMIT: nat := 8_000
  const MAX_READ_LIMIT: nat := 16_000

  // ---- The state as a value --------------------------------------------------------------

  datatype Row = Row(id: nat, command: string, exitCode: Option<int>, output: Buffer)
  datatype Span = Span(id: nat, command: string, output: Buffer, partial: seq<Byte>)
  datatype History = History(completed: seq<Row>, active: Option<Span>, nextId: nat)

  const NEW: History := History([], None, 1)

  function RowBytes(rows: seq<Row>): nat {
    if rows == [] then 0 else ByteLen(rows[0].output.retained) + RowBytes(rows[1..])
  }

  function RetainedBytes(h: History): nat {
    (if h.active.Some? then ByteLen(h.active.value.output.retained) else 0) + RowBytes(h.completed)
  }

  /** Reclaims from the oldest row on until `excess` bytes are freed. */
  function ReclaimedOldest(rows: seq<Row>, excess: int): seq<Row> {
    if rows == [] || excess <= 0 then rows
    else
      var out := ReclaimedPrefix(rows[0].output, excess);
      var freed := ByteLen(rows[0].output.retained) - ByteLen(out.retained);
      [rows[0].(output := out)] + ReclaimedOldest(rows[1..], excess - freed)
  }

  function Enforced(h: History): History {
    h.(completed := ReclaimedOldest(h.completed, RetainedBytes(h) - MAX_TOTAL_OUTPUT_BYTES))
  }

  /** The longest whole-character prefix of the command line that fits its cap. */
  function StoredCommand(command: string): string {
    command[..PrefixWithin(command, MAX_COMMAND_TEXT_BYTES)]
  }

  function PrefixWithin(text: string, maxBytes: int): (k: nat)
    ensures k <= |text|
  {
    if text == [] || CharBytes(text[0]) > maxBytes then 0
    else 1 + PrefixWithin(text[1..], maxBytes - CharBytes(text[0]))
  }

  function Begun(h: History, command: string): History {
    History(h.completed, Some(Span(h.nextId, StoredCommand(command), EMPTY, [])), h.nextId + 1)
  }

  function Recorded(h: History, bytes: seq<Byte>): History {
    if h.active.None? || bytes == [] then h
    else
      var span := h.active.value;
      var d := Decode(span.partial + bytes);
      Enforced(h.(active := Some(span.(output := Appended(span.output, d.text), partial := d.rest))))
  }

  function Newest(rows: seq<Row>): seq<Row> {
    if |rows| > MAX_COMPLETED_COMMANDS then rows[|rows| - MAX_COMPLETED_COMMANDS..] else rows
  }

  function ClosedRow(span: Span, exitCode: Option<int>): Row {
    Row(span.id, span.command, exitCode,
        if span.partial != [] then Appended(span.output, [REPLACEMENT]) else span.output)
  }

  function Ended(h: History, exitCode: Option<int>): History {
    if h.active.None? then h
    else Enforced(History(Newest(h.completed + [ClosedRow(h.active.value, exitCode)]), None, h.nextId))
  }

  function Cleared(h: History): History { h.(completed := []) }

  function Abandoned(h: History): History { h.(active := None) }

  // ---- Reading ---------------------------------------------------------------------------

  datatype Page = Page(id: nat, offset: nat, nextOffset: nat, hasMore: bool, content: string, output: Buffer)
  datatype ReadResult = Served(page: Page) | CommandNotFound | OutputEvicted(earliestOffset: nat)

  function Find(rows: seq<Row>, id: nat): Option<Row> {
    if rows == [] then None else if rows[0].id == id then Some(rows[0]) else Find(rows[1..], id)
  }

  function Clamp(limit: Option<nat>): nat {
    var n := limit.GetOr(DEFAULT_READ_LIMIT);
    if n < 1 then 1 else if n > MAX_READ_LIMIT then MAX_READ_LIMIT else n
  }

  function Taken(text: string, skip: nat, limit: nat): string {
    if skip >= |text| then [] else if limit < |text| - skip then text[skip..skip + limit] else text[skip..]
  }

  function Read(h: History, id: nat, offset: Option<nat>, limit: Option<nat>): ReadResult {
    match Find(h.completed, id)
    case None => CommandNotFound
    case Some(row) =>
      var b := row.output;
      var start := offset.GetOr(b.startOffset);
      if start < b.startOffset then OutputEvicted(b.startOffset)
      else
        var content := Taken(b.retained, start - b.startOffset, Clamp(limit));
        var next := start + |content|;
        Served(Page(id, start, next, next < b.startOffset + |b.retained|, content, b))
  }

  // ---- The session cap ---------------------------------------------------------------------

  /** Enforcement frees the excess whenever the rows hold it. */
  lemma {:induction false} ReclaimFreesExcess(rows: seq<Row>, excess: int)
    ensures RowBytes(ReclaimedOldest(rows, excess)) <= RowBytes(rows)
    ensures excess <= RowBytes(rows) ==> RowBytes(ReclaimedOldest(rows, excess)) + excess <= RowBytes(rows)
  {
    if rows != [] && excess > 0 {
      var out := ReclaimedPrefix(rows[0].output, excess);
      ReclaimedBounds(rows[0].output, excess);
      ReclaimFreesExcess(rows[1..], excess - (ByteLen(rows[0].output.retained) - ByteLen(out.retained)));
    }
  }

  lemma ReclaimNothing(rows: seq<Row>, excess: int)
    requires rows == [] || excess <= 0
    ensures ReclaimedOldest(rows, excess) == rows
  {
  }

  /** Where enforcement stands: `done` rows dealt with, `rest` still to go. */
  ghost predicate Reclaiming(goal: seq<Row>, done: seq<Row>, rest: seq<Row>, excess: int) {
    goal == done + ReclaimedOldest(rest, excess)
  }

  lemma ReclaimStarts(rows: seq<Row>, excess: int)
    ensures Reclaiming(ReclaimedOldest(rows, excess), [], rows, excess)
  {
  }

  lemma ReclaimEnds(goal: seq<Row>, done: seq<Row>, rest: seq<Row>, excess: int)
    requires Reclaiming(goal, done, rest, excess) && (rest == [] || excess <= 0)
    ensures goal == done + rest
  {
  }

  lemma ReclaimStep(goal: seq<Row>, done: seq<Row>, rest: seq<Row>, excess: int)
    requires rest != [] && excess > 0 && Reclaiming(goal, done, rest, excess)
    ensures var out := ReclaimedPrefix(rest[0].output, excess);
            var freed := ByteLen(rest[0].output.retained) - ByteLen(out.retained);
            Reclaiming(goal, done + [rest[0].(output := out)], rest[1..], excess - freed)
  {
  }

  lemma NewestStep(rows: seq<Row>)
    ensures Newest(rows) == if |rows| > MAX_COMPLETED_COMMANDS then Newest(rows[1..]) else rows
  {
  }

  lemma UpdateNext(done: seq<Row>, rest: seq<Row>, row: Row)
    requires rest != []
    ensures (done + rest)[|done|] == rest[0]
    ensures (done + rest)[|done| := row] == done + [row] + rest[1..]
  {
  }

  /** Enforcement empties the `k` oldest rows, trims at most the next one by under four bytes
      more than needed, and leaves every newer row as it was. */
  ghost predicate OldestFirst(rows: seq<Row>, after: seq<Row>, k: nat, excess: int) {
    && |after| == |rows|
    && k <= |rows|
    && (forall i :: 0 <= i < k ==> after[i].output.retained == [])
    && (forall i :: k < i < |rows| ==> after[i] == rows[i])
    && (forall i :: 0 <= i < |rows| ==> after[i] == rows[i].(output := after[i].output))
    && RowBytes(rows) - RowBytes(after) <= if excess > 0 then excess + 3 else 0
  }

  lemma {:induction false} ReclaimIsOldestFirst(rows: seq<Row>, excess: int) returns (k: nat)
    ensures OldestFirst(rows, ReclaimedOldest(rows, excess), k, excess)
  {
    if rows == [] || excess <= 0 {
      return 0;
    }
    var b := rows[0].output;
    var out := ReclaimedPrefix(b, excess);
    var freed := ByteLen(b.retained) - ByteLen(out.retained);
    ReclaimedBounds(b, excess);
    EmptyText(out.retained);
    if out.retained == [] {
      var j := ReclaimIsOldestFirst(rows[1..], excess - freed);
      EmptiedFirst(rows, ReclaimedOldest(rows[1..], excess - freed), out, j, excess);
      k := j + 1;
    } else {
      assert ReclaimedOldest(rows[1..], excess - freed) == rows[1..];
      k := 0;
    }
  }

  /** Main theorem: a session within its cap is left alone; otherwise exactly the excess is reclaimed,
      oldest rows first, by under four bytes more than needed. */
  lemma EnforcedExactly(h: History) returns (k: nat)
    ensures RetainedBytes(h) <= 4_194_304 ==> Enforced(h) == h
    ensures RetainedBytes(h) > 4_194_304 ==>
              && Enforced(h) == h.(completed := Enforced(h).completed)
              && OldestFirst(h.completed, Enforced(h).completed, k, RetainedBytes(h) - 4_194_304)
              && (RetainedBytes(h) - 4_194_304 <= RowBytes(h.completed) ==> RetainedBytes(Enforced(h)) <= 4_194_304)
  {
    hide ReclaimedOldest, RowBytes;
    var excess := RetainedBytes(h) - MAX_TOTAL_OUTPUT_BYTES;
    k := ReclaimIsOldestFirst(h.completed, excess);
    ReclaimFreesExcess(h.completed, excess);
    if excess <= 0 { ReclaimNothing(h.completed, excess); }
  }

  /** The stored command line is its longest beginning of whole characters within 4 KiB. */
  lemma StoredIsLongest(command: string)
    ensures StoredCommand(command) <= command && ByteLen(StoredCommand(command)) <= 4_096
    ensures StoredCommand(command) != command ==> ByteLen(command[..|StoredCommand(command)| + 1]) > 4_096
    ensures ByteLen(command) <= 4_096 ==> StoredCommand(command) == command
  {
    PrefixFits(command, MAX_COMMAND_TEXT_BYTES);
    assert command[..|command|] == command;
    if ByteLen(command) <= 4_096 { WithinUnique(command, MAX_COMMAND_TEXT_BYTES, |command|); }
  }

  lemma {:induction false} PrefixFits(text: string, maxBytes: int)
    requires maxBytes >= 0
    ensures var k := PrefixWithin(text, maxBytes);
            && ByteLen(text[..k]) <= maxBytes
            && (k < |text| ==> ByteLen(text[..k + 1]) > maxBytes)
  {
    if text != [] {
      if CharBytes(text[0]) <= maxBytes {
        PrefixFits(text[1..], maxBytes - CharBytes(text[0]));
        var k := PrefixWithin(text[1..], maxBytes - CharBytes(text[0]));
        assert text[..k + 1][1..] == text[1..][..k];
        if k + 1 < |text| { assert text[..k + 2][1..] == text[1..][..k + 1]; }
      } else {
        assert text[..1][1..] == [];
      }
    }
  }

  lemma EmptiedFirst(rows: seq<Row>, rest: seq<Row>, out: Buffer, j: nat, excess: int)
    requires rows != [] && out.retained == []
    requires ByteLen(rows[0].output.retained) <= excess + 3 && excess > 0
    requires OldestFirst(rows[1..], rest, j, excess - (ByteLen(rows[0].output.retained) - ByteLen(out.retained)))
    ensures OldestFirst(rows, [rows[0].(output := out)] + rest, j + 1, excess)
  {
    hide ByteLen;
    var after := [rows[0].(output := out)] + rest;
    assert after[1..] == rest;
  }

  // ---- The object --------------------------------------------------------------------------

  datatype CompletedCommand = CompletedCommand(id: nat, command: string, exitCode: Option<int>, output: OutputBuffer)
  datatype ActiveSpan = ActiveSpan(id: nat, command: string, output: OutputBuffer, partial: seq<Byte>)

  class CommandHistory {
    var completed: seq<CompletedCommand>
    var active: Option<ActiveSpan>
    var nextId: nat
    ghost var buffers: set<OutputBuffer>

    ghost predicate Valid()
      reads this
    {
      && (forall i :: 0 <= i < |completed| ==> completed[i].output in buffers)
      && (forall i, j :: 0 <= i < j < |completed| ==> completed[i].output != completed[j].output)
      && (active.Some? ==> active.value.output in buffers)
      && (active.Some? ==> forall i :: 0 <= i < |completed| ==> completed[i].output != active.value.output)
    }

    static function RowOf(c: CompletedCommand): Row
      reads c.output
    {
      Row(c.id, c.command, c.exitCode, c.output.Value())
    }

    static function Rows(commands: seq<CompletedCommand>): (rows: seq<Row>)
      reads set c | c in commands :: c.output
      ensures |rows| == |commands|
    {
      seq(|commands|, i requires 0 <= i < |commands| reads if 0 <= i < |commands| then {commands[i].output} else {} => RowOf(commands[i]))
    }

    static function SpanOf(s: ActiveSpan): Span
      reads s.output
    {
      Span(s.id, s.command, s.output.Value(), s.partial)
    }

    /** The state as a value. */
    ghost function Model(): (h: History)
      requires Valid()
      reads this, buffers
      ensures |h.completed| == |completed|
    {
      History(Rows(completed), if active.Some? then Some(SpanOf(active.value)) else None, nextId)
    }

    constructor ()
      ensures Valid() && fresh(buffers) && Model() == NEW
    {
      completed, active, nextId, buffers := [], None, 1, {};
    }

    method Begin(command: string) returns (id: nat)
      requires Valid()
      modifies this
      ensures Valid() && fresh(buffers - old(buffers))
      ensures Model() == Begun(old(Model()), command) && id == old(nextId)
    {
      var output := new OutputBuffer();
      id := nextId;
      nextId := nextId + 1;
      var text, _ := TruncateCommand(command);
      active := Some(ActiveSpan(id, text, output, []));
      buffers := buffers + {output};
    }

    /** Decodes what it can; bytes outside a span are ignored. */
    method RecordOutput(bytes: seq<Byte>)
      requires Valid()
      modifies this, buffers
      ensures Valid() && buffers == old(buffers)
      ensures Model() == Recorded(old(Model()), bytes)
    {
      hide Enforced, Appended, Decode, ByteLen, RowBytes;
      if active.None? || bytes == [] {
        return;
      }
      var span := active.value;
      var decoded, partial := DecodeAvailable(span.partial + bytes);
      // A held tail of four bytes could never complete; none is ever that long.
      if |partial| >= 4 {
        decoded, partial := decoded + [REPLACEMENT], [];
      }
      active := Some(span.(partial := partial));
      span.output.Append(decoded);
      EnforceTotalCap();
    }

    method End(exitCode: Option<int>) returns (id: Option<nat>)
      requires Valid()
      modifies this, buffers
      ensures Valid() && buffers == old(buffers)
      ensures Model() == Ended(old(Model()), exitCode)
      ensures id == if old(active).Some? then Some(old(active).value.id) else None
    {
      hide Enforced, Appended, ByteLen, RowBytes;
      if active.None? {
        return None;
      }
      var span := active.value;
      active := None;
      if span.partial != [] {
        span.output.Append([REPLACEMENT]);
      }
      id := Some(span.id);
      Push(CompletedCommand(span.id, span.command, exitCode, span.output));
      EnforceTotalCap();
    }

    /** Appends a row and drops the oldest ones past the count. */
    method Push(command: CompletedCommand)
      requires Valid() && active.None? && command.output in buffers
      requires forall i :: 0 <= i < |completed| ==> completed[i].output != command.output
      modifies this`completed
      ensures Valid()
      ensures Rows(completed) == Newest(old(Rows(completed)) + [RowOf(command)])
    {
      hide Newest;
      completed := completed + [command];
      ghost var rows := Rows(completed);
      assert rows == old(Rows(completed)) + [RowOf(command)];
      while |completed| > MAX_COMPLETED_COMMANDS
        invariant Valid()
        invariant Newest(Rows(completed)) == Newest(rows)
      {
        assert Rows(completed[1..]) == Rows(completed)[1..];
        NewestStep(Rows(completed));
        completed := completed[1..];
      }
      NewestStep(Rows(completed));
    }

    method ClearCompleted()
      requires Valid()
      modifies this
      ensures Valid() && buffers == old(buffers)
      ensures Model() == Cleared(old(Model()))
    {
      completed := [];
    }

    method AbandonActive()
      requires Valid()
      modifies this
      ensures Valid() && buffers == old(buffers)
      ensures Model() == Abandoned(old(Model()))
    {
      active := None;
    }

    method EnforceTotalCap()
      requires Valid()
      modifies buffers
      ensures Valid()
      ensures Model() == Enforced(old(Model()))
    {
      hide ReclaimedOldest, RetainedBytes, Model;
      var total := TotalRetained();
      if total <= MAX_TOTAL_OUTPUT_BYTES {
        ReclaimNothing(Model().completed, total - MAX_TOTAL_OUTPUT_BYTES);
        return;
      }
      ReclaimRows(total);
    }

    method ReclaimRows(total: nat)
      requires Valid()
      modifies buffers
      ensures Valid()
      ensures Model() == old(Model()).(completed := ReclaimedOldest(old(Model()).completed, total - MAX_TOTAL_OUTPUT_BYTES))
    {
      hide ReclaimedOldest, ReclaimedPrefix, ByteLen, Reclaiming, Model;
      var left := total;
      ghost var done: seq<Row>, rest := [], Model().completed;
      ghost var goal := ReclaimedOldest(rest, total - MAX_TOTAL_OUTPUT_BYTES);
      ReclaimStarts(rest, left - MAX_TOTAL_OUTPUT_BYTES);
      var i := 0;
      while i < |completed| && left > MAX_TOTAL_OUTPUT_BYTES
        invariant i == |done| && Valid()
        invariant Model() == old(Model()).(completed := done + rest)
        invariant Reclaiming(goal, done, rest, left - MAX_TOTAL_OUTPUT_BYTES)
      {
        ReclaimStep(goal, done, rest, left - MAX_TOTAL_OUTPUT_BYTES);
        ghost var row := rest[0].(output := ReclaimedPrefix(rest[0].output, left - MAX_TOTAL_OUTPUT_BYTES));
        UpdateNext(done, rest, row);
        var freed := ReclaimRow(i, left - MAX_TOTAL_OUTPUT_BYTES);
        done, rest := done + [row], rest[1..];
        left := left - freed;
        i := i + 1;
      }
      ReclaimEnds(goal, done, rest, left - MAX_TOTAL_OUTPUT_BYTES);
    }

    method ReclaimRow(i: nat, bytes: nat) returns (freed: nat)
      requires Valid() && i < |completed|
      modifies completed[i].output
      ensures Valid()
      ensures var rows := old(Model()).completed;
              var out := ReclaimedPrefix(rows[i].output, bytes);
              && Model() == old(Model()).(completed := rows[i := rows[i].(output := out)])
              && freed == ByteLen(rows[i].output.retained) - ByteLen(out.retained)
    {
      hide ReclaimedPrefix, ByteLen;
      freed := completed[i].output.ReclaimPrefix(bytes);
    }

    /** Adds up what the rows and the open span hold. */
    method TotalRetained() returns (total: nat)
      requires Valid()
      ensures total == RetainedBytes(Model())
    {
      total := if active.Some? then ByteLen(active.value.output.retained) else 0;
      ghost var rows := Rows(completed);
      for i := 0 to |completed|
        invariant total + RowBytes(rows[i..]) == RetainedBytes(Model())
      {
        assert rows[i..][1..] == rows[i + 1..];
        total := total + ByteLen(completed[i].output.retained);
      }
    }

    /** Finds the row, checks the offset against what is left, and cuts the page. */
    method ReadPage(id: nat, offset: Option<nat>, limit: Option<nat>) returns (r: ReadResult)
      requires Valid()
      ensures r == Read(Model(), id, offset, limit)
    {
      hide Clamp, Taken;
      ghost var rows := Rows(completed);
      for i := 0 to |completed|
        invariant Find(rows, id) == Find(rows[i..], id)
      {
        assert rows[i..][1..] == rows[i + 1..];
        if completed[i].id == id {
          var b := completed[i].output.Value();
          var start := offset.GetOr(b.startOffset);
          if start < b.startOffset {
            return OutputEvicted(b.startOffset);
          }
          var content := Taken(b.retained, start - b.startOffset, Clamp(limit));
          var next := start + |content|;
          return Served(Page(id, start, next, next < b.startOffset + |b.retained|, content, b));
        }
      }
      return CommandNotFound;
    }
  }

  /** The decoding loop over one buffer: valid runs are copied, each malformed subpart becomes
      one U+FFFD, an unfinished tail is handed back. */
  method DecodeAvailable(buffer: seq<Byte>) returns (decoded: string, partial: seq<Byte>)
    ensures decoded == Decode(buffer).text && partial == Decode(buffer).rest
  {
    hide Decode, WellFormedText, FromUtf8, FrontOf, Value;
    decoded := [];
    var cursor := 0;
    assert buffer[0..] == buffer;
    while true
      invariant cursor <= |buffer|
      invariant Decode(buffer) == After(decoded, buffer[cursor..])
      decreases |buffer| - cursor
    {
      var rest := buffer[cursor..];
      match FromUtf8(rest)
      case Valid =>
        FromUtf8Valid(rest);
        return decoded + WellFormedText(rest), [];
      case Invalid(valid, errorLen) =>
        DecodeDefect(decoded, rest);
        decoded := decoded + WellFormedText(rest[..valid]);
        cursor := cursor + valid;
        assert buffer[cursor..] == rest[valid..];
        match errorLen {
          case Some(bad) =>
            assert buffer[cursor + bad..] == rest[valid..][bad..];
            decoded := decoded + [REPLACEMENT];
            cursor := cursor + bad;
          case None => return decoded, buffer[cursor..];
        }
    }
  }

  /** The decoding of a buffer whose front has produced `text` and whose back is `rest`. */
  function After(text: string, rest: seq<Byte>): Decoded {
    Decoded(text + Decode(rest).text, Decode(rest).rest)
  }

  lemma DecodeDefect(text: string, rest: seq<Byte>)
    requires FromUtf8(rest).Invalid?
    ensures var v := FromUtf8(rest);
            var front := text + WellFormedText(rest[..v.validUpTo]);
            var tail := rest[v.validUpTo..];
            match v.errorLen
            case Some(bad) => 0 < bad <= |tail| && After(text, rest) == After(front + [REPLACEMENT], tail[bad..])
            case None => After(text, rest) == Decoded(front, tail)
  {
    hide Value, FromUtf8, WellFormedText;
    var v := FromUtf8(rest);
    var good, tail := WellFormedText(rest[..v.validUpTo]), rest[v.validUpTo..];
    FromUtf8Invalid(rest);
    Regroup(text, good, Decode(tail).text);
    if v.errorLen.Some? {
      Regroup(text + good, [REPLACEMENT], Decode(tail[v.errorLen.value..]).text);
    }
  }

  /** Whole characters up to 4 KiB; `truncated` says if there were more. */
  method TruncateCommand(command: string) returns (text: string, truncated: bool)
    ensures text == StoredCommand(command) && (truncated <==> text != command)
  {
    if ByteLen(command) <= MAX_COMMAND_TEXT_BYTES {
      assert command[..|command|] == command;
      WithinUnique(command, MAX_COMMAND_TEXT_BYTES, |command|);
      return command, false;
    }
    var end, index, i := 0, 0, 0;
    while i < |command|
      invariant i <= |command| && index == ByteLen(command[..i])
      invariant i > 0 ==> end == i - 1 && ByteLen(command[..end]) <= MAX_COMMAND_TEXT_BYTES
      invariant i == 0 ==> end == 0
    {
      if index > MAX_COMMAND_TEXT_BYTES {
        break;
      }
      LastScalar(command, i + 1);
      end, index, i := i, index + CharBytes(command[i]), i + 1;
    }
    assert command[..|command|] == command;
    WithinUnique(command, MAX_COMMAND_TEXT_BYTES, end);
    return command[..end], true;
  }

  lemma {:induction false} WithinUnique(text: string, maxBytes: int, k: nat)
    requires k <= |text| && ByteLen(text[..k]) <= maxBytes
    requires k < |text| ==> ByteLen(text[..k + 1]) > maxBytes
    ensures k == PrefixWithin(text, maxBytes)
  {
    if k > 0 {
      assert text[..k][1..] == text[1..][..k - 1];
      if k < |text| { assert text[..k + 1][1..] == text[1..][..k]; }
      WithinUnique(text[1..], maxBytes - CharBytes(text[0]), k - 1);
    }
  }
}
