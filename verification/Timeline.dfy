/** The bounded timeline: events in order, thinned by an age-tiered policy for snapshots, a
    character budget per raw-text kind, and an age limit for everything else. */
module Timelines {
  import opened Common
  import opened Utf8

  const MAX_AGE_MS: int := 604_800_000
  const RAW_TEXT_RETENTION_CHARS: nat := 32_000
  const COMPACT_EVERY: nat := 256
  const SNAPSHOT_RETENTION_BYTES: nat := 32 * 1024 * 1024

  /** `Bookkeeping` stands for the command, AI and control-mode events, which only age out. */
  datatype Event =
    | HumanInput(data: string, visible: bool)
    | PtyOutput(data: string)
    | VisibleOutput(text: string)
    | ScreenSnapshot(snapshotId: nat, rows: nat, columns: nat, altScreen: bool, screen: Option<string>)
    | Bookkeeping

  datatype Entry = Entry(id: nat, ts: int, event: Event)

  // ---- The retention policy ------------------------------------------------------------------

  /** The spacing of the first age tier that covers the age, `None` past the last tier. */
  function SpacingForAge(age: int): Option<int> {
    if age <= 60_000 then Some(200)
    else if age <= 300_000 then Some(5_000)
    else if age <= 1_800_000 then Some(30_000)
    else if age <= 3_600_000 then Some(60_000)
    else if age <= 43_200_000 then Some(300_000)
    else if age <= 86_400_000 then Some(900_000)
    else if age <= 604_800_000 then Some(3_600_000)
    else None
  }

  /** What one compaction pass carries from newer entries to older ones. */
  datatype Budgets = Budgets(lastSnapshot: Option<int>, snapshots: nat, pty: nat, visible: nat, input: nat)

  const FULL: Budgets := Budgets(
    None, SNAPSHOT_RETENTION_BYTES, RAW_TEXT_RETENTION_CHARS, RAW_TEXT_RETENTION_CHARS, RAW_TEXT_RETENTION_CHARS)

  /** Draws `cost` from a budget; the entry that straddles the end is still kept. */
  function Drawn(budget: nat, cost: nat): nat { if cost >= budget then 0 else budget - cost }

  function TierKeeps(e: Entry, now: int, last: Option<int>): bool {
    match SpacingForAge(now - e.ts)
    case None => false
    case Some(spacing) => last.Some? ==> last.value - e.ts >= spacing
  }

  function ScreenBytes(e: Event): nat
    requires e.ScreenSnapshot?
  {
    ByteLen(e.screen.GetOr([]))
  }

  function Keeps(e: Entry, now: int, b: Budgets): bool {
    match e.event
    case ScreenSnapshot(_, _, _, _, _) => TierKeeps(e, now, b.lastSnapshot) && b.snapshots > 0
    case PtyOutput(_) => b.pty > 0
    case VisibleOutput(_) => b.visible > 0
    case HumanInput(_, visible) => if visible then b.input > 0 else now - e.ts <= MAX_AGE_MS
    case Bookkeeping => now - e.ts <= MAX_AGE_MS
  }

  function Spent(e: Entry, now: int, b: Budgets): Budgets {
    match e.event
    case ScreenSnapshot(_, _, _, _, _) =>
      if TierKeeps(e, now, b.lastSnapshot)
      then b.(lastSnapshot := Some(e.ts), snapshots := Drawn(b.snapshots, ScreenBytes(e.event)))
      else b
    case PtyOutput(data) => b.(pty := Drawn(b.pty, |data|))
    case VisibleOutput(text) => b.(visible := Drawn(b.visible, |text|))
    case HumanInput(data, visible) => if visible then b.(input := Drawn(b.input, |data|)) else b
    case Bookkeeping => b
  }

  /** The entries one pass keeps, decided newest first. */
  function Compacted(entries: seq<Entry>, now: int, b: Budgets): seq<Entry> {
    if entries == [] then []
    else
      var front, e := entries[..|entries| - 1], entries[|entries| - 1];
      Compacted(front, now, Spent(e, now, b)) + if Keeps(e, now, b) then [e] else []
  }

  // ---- The state as a value --------------------------------------------------------------------

  datatype Store = Store(entries: seq<Entry>, nextId: nat, sinceCompaction: nat)

  const NEW: Store := Store([], 1, 0)

  function Maintained(s: Store, now: int): Store {
    s.(entries := Compacted(s.entries, now, FULL), sinceCompaction := 0)
  }

  /** Records an event at `ts`; every `COMPACT_EVERY` records it compacts at `now`. */
  function Recorded(s: Store, event: Event, ts: int, now: int): Store {
    var s' := Store(s.entries + [Entry(s.nextId, ts, event)], s.nextId + 1, s.sinceCompaction + 1);
    if s'.sinceCompaction >= COMPACT_EVERY then Maintained(s', now) else s'
  }

  function Cleared(s: Store): Store { s.(entries := []) }

  // ---- Queries ---------------------------------------------------------------------------------

  datatype Kind = Pty | Visible | Input

  /** The text an entry contributes to a kind. */
  function Piece(kind: Kind, e: Event): string {
    match e
    case PtyOutput(data) => if kind == Pty then data else []
    case VisibleOutput(text) => if kind == Visible then text else []
    case HumanInput(data, visible) => if kind == Input && visible then data else []
    case _ => []
  }

  function TextOf(kind: Kind, entries: seq<Entry>): string {
    if entries == [] then []
    else TextOf(kind, entries[..|entries| - 1]) + Piece(kind, entries[|entries| - 1].event)
  }

  /** The last `max` characters. */
  function LastChars(text: string, max: nat): string {
    if |text| <= max then text else text[|text| - max..]
  }

  function LatestSnapshot(entries: seq<Entry>): Option<Entry> {
    if entries == [] then None
    else if entries[|entries| - 1].event.ScreenSnapshot? then Some(entries[|entries| - 1])
    else LatestSnapshot(entries[..|entries| - 1])
  }

  // ---- The object --------------------------------------------------------------------------------

  /** The entries `keep` marks, in order. */
  function Marked(entries: seq<Entry>, keep: seq<bool>): seq<Entry>
    requires |entries| == |keep|
  {
    if entries == [] then []
    else
      var n := |entries| - 1;
      Marked(entries[..n], keep[..n]) + if keep[n] then [entries[n]] else []
  }

  class InMemoryTimelineStore {
    var entries: seq<Entry>
    var nextId: nat
    var recordsSinceCompaction: nat

    function Value(): Store
      reads this
    {
      Store(entries, nextId, recordsSinceCompaction)
    }

    constructor ()
      ensures Value() == NEW
    {
      entries, nextId, recordsSinceCompaction := [], 1, 0;
    }

    method Record(event: Event, ts: int, now: int) returns (entry: Entry)
      modifies this
      ensures Value() == Recorded(old(Value()), event, ts, now)
      ensures entry == Entry(old(nextId), ts, event)
    {
      entry := Entry(nextId, ts, event);
      nextId := nextId + 1;
      entries := entries + [entry];
      recordsSinceCompaction := recordsSinceCompaction + 1;
      if recordsSinceCompaction >= COMPACT_EVERY {
        Compact(now);
      }
    }

    method Maintain(now: int)
      modifies this
      ensures Value() == Maintained(old(Value()), now)
    {
      Compact(now);
    }

    method Reset()
      modifies this
      ensures Value() == Cleared(old(Value()))
    {
      entries := [];
    }

    /** Decides newest first which entries to keep, then retains them in place. */
    method Compact(now: int)
      modifies this
      ensures Value() == Maintained(old(Value()), now)
    {
      hide Compacted, Keeps, Spent;
      recordsSinceCompaction := 0;
      var n := |entries|;
      var keep := new bool[n];
      var budgets := FULL;
      PassStarts(entries, now, keep[..]);
      for idx := n downto 0
        invariant PassDown(entries, now, idx, budgets, keep[..])
        invariant entries == old(entries) && recordsSinceCompaction == 0 && nextId == old(nextId)
        modifies keep
      {
        PassStep(entries, now, idx, budgets, keep[..]);
        keep[idx], budgets := Decide(entries[idx], now, budgets);
      }
      ghost var marks := keep[..];
      PassEnds(entries, now, budgets, marks);
      var retained: seq<Entry> := [];
      for idx := 0 to n
        invariant keep[..] == marks && retained == Marked(entries[..idx], marks[..idx])
        invariant entries == old(entries) && recordsSinceCompaction == 0 && nextId == old(nextId)
        modifies {}
      {
        MarkedPush(entries, marks, idx);
        if keep[idx] {
          retained := retained + [entries[idx]];
        }
      }
      assert entries[..n] == entries && marks[..n] == marks;
      entries := retained;
    }
  }

  /** The decision for one entry, newest first. */
  method Decide(e: Entry, now: int, b: Budgets) returns (keep: bool, left: Budgets)
    ensures keep == Keeps(e, now, b) && left == Spent(e, now, b)
  {
    var age := now - e.ts;
    left := b;
    match e.event
    case ScreenSnapshot(_, _, _, _, _) =>
      keep, left := KeepSnapshot(age, e.ts, b);
      if keep {
        var budget;
        keep, budget := TakeFromBudget(b.snapshots, ScreenBytes(e.event));
        left := left.(snapshots := budget);
      }
    case PtyOutput(data) =>
      var budget;
      keep, budget := TakeFromBudget(b.pty, |data|);
      left := b.(pty := budget);
    case VisibleOutput(text) =>
      var budget;
      keep, budget := TakeFromBudget(b.visible, |text|);
      left := b.(visible := budget);
    case HumanInput(data, visible) =>
      if visible {
        var budget;
        keep, budget := TakeFromBudget(b.input, |data|);
        left := b.(input := budget);
      } else {
        keep := age <= MAX_AGE_MS;
      }
    case Bookkeeping => keep := age <= MAX_AGE_MS;
  }

  method KeepSnapshot(age: int, ts: int, b: Budgets) returns (keep: bool, left: Budgets)
    ensures keep == match SpacingForAge(age)
      case None => false
      case Some(spacing) => b.lastSnapshot.Some? ==> b.lastSnapshot.value - ts >= spacing
    ensures left == if keep then b.(lastSnapshot := Some(ts)) else b
  {
    left := b;
    var spacing := SpacingForAge(age);
    if spacing.None? {
      return false, b;
    }
    keep := b.lastSnapshot.None? || b.lastSnapshot.value - ts >= spacing.value;
    if keep {
      left := b.(lastSnapshot := Some(ts));
    }
  }

  method TakeFromBudget(budget: nat, cost: nat) returns (keep: bool, left: nat)
    ensures keep <==> budget > 0
    ensures left == Drawn(budget, cost)
  {
    if budget == 0 {
      return false, 0;
    }
    return true, Drawn(budget, cost);
  }

  /** Where the decision pass stands: entries from `idx` on are decided in `keep`. */
  ghost predicate PassDown(entries: seq<Entry>, now: int, idx: nat, b: Budgets, keep: seq<bool>) {
    && idx <= |entries| == |keep|
    && Compacted(entries, now, FULL) == Compacted(entries[..idx], now, b) + Marked(entries[idx..], keep[idx..])
  }

  lemma PassStarts(entries: seq<Entry>, now: int, keep: seq<bool>)
    requires |entries| == |keep|
    ensures PassDown(entries, now, |entries|, FULL, keep)
  {
    assert entries[..|entries|] == entries;
  }

  lemma PassStep(entries: seq<Entry>, now: int, idx: nat, b: Budgets, keep: seq<bool>)
    requires idx < |entries| && PassDown(entries, now, idx + 1, b, keep)
    ensures PassDown(entries, now, idx, Spent(entries[idx], now, b), keep[idx := Keeps(entries[idx], now, b)])
  {
    hide Keeps, Spent;
    var e, k := entries[idx], Keeps(entries[idx], now, b);
    var keep' := keep[idx := k];
    assert entries[..idx + 1][..idx] == entries[..idx];
    assert entries[idx..] == [e] + entries[idx + 1..] && keep'[idx..] == [k] + keep[idx + 1..];
    MarkedFront(e, k, entries[idx + 1..], keep[idx + 1..]);
  }

  lemma PassEnds(entries: seq<Entry>, now: int, b: Budgets, keep: seq<bool>)
    requires PassDown(entries, now, 0, b, keep)
    ensures Compacted(entries, now, FULL) == Marked(entries, keep)
  {
    assert entries[0..] == entries && keep[0..] == keep;
  }

  lemma {:induction false} MarkedFront(e: Entry, k: bool, rest: seq<Entry>, keep: seq<bool>)
    requires |rest| == |keep|
    ensures Marked([e] + rest, [k] + keep) == (if k then [e] else []) + Marked(rest, keep)
  {
    if rest != [] {
      var n := |rest| - 1;
      assert ([e] + rest)[..n + 1] == [e] + rest[..n] && ([k] + keep)[..n + 1] == [k] + keep[..n];
      MarkedFront(e, k, rest[..n], keep[..n]);
    }
  }

  lemma MarkedPush(entries: seq<Entry>, keep: seq<bool>, idx: nat)
    requires |entries| == |keep| && idx < |entries|
    ensures Marked(entries[..idx + 1], keep[..idx + 1])
         == Marked(entries[..idx], keep[..idx]) + if keep[idx] then [entries[idx]] else []
  {
    assert entries[..idx + 1][..idx] == entries[..idx] && keep[..idx + 1][..idx] == keep[..idx];
  }
}
