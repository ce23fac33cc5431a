/** Numeric bounds on what the timeline retains, and the stability of a compaction pass. */
module Retention {
  import opened Common
  import opened Utf8
  import opened Timelines
  import opened TerminalContexts

  const MAX_SNAPSHOTS: nat := 753
  const MAX_SNAPSHOTS_BETWEEN: nat := 1_008

  function SnapshotCount(entries: seq<Entry>): nat {
    if entries == [] then 0
    else SnapshotCount(entries[..|entries| - 1]) + if entries[|entries| - 1].event.ScreenSnapshot? then 1 else 0
  }

  lemma PushCount(entries: seq<Entry>, e: Entry)
    ensures SnapshotCount(entries + [e]) == SnapshotCount(entries) + if e.event.ScreenSnapshot? then 1 else 0
  {
    assert (entries + [e])[..|entries|] == entries;
  }

  // ---- How many snapshots ------------------------------------------------------------------------

  /** How many more snapshots the tiers have room for, past one kept at this age: the slots left
      in its tier plus all the slots of the older tiers. */
  function Room(age: int): int
    requires age >= 0
  {
    if age <= 60_000 then (60_000 - age) / 200 + 452
    else if age <= 300_000 then (300_000 - age) / 5_000 + 404
    else if age <= 1_800_000 then (1_800_000 - age) / 30_000 + 354
    else if age <= 3_600_000 then (3_600_000 - age) / 60_000 + 324
    else if age <= 43_200_000 then (43_200_000 - age) / 300_000 + 192
    else if age <= 86_400_000 then (86_400_000 - age) / 900_000 + 144
    else if age <= 604_800_000 then (604_800_000 - age) / 3_600_000
    else 0
  }

  /** Keeping one more snapshot uses up a slot. */
  lemma RoomShrinks(newer: int, older: int)
    requires 0 <= newer && SpacingForAge(older).Some? && older - newer >= SpacingForAge(older).value
    ensures 0 <= Room(older) < Room(newer)
  {
  }

  ghost predicate NotAfter(entries: seq<Entry>, now: int) {
    forall i :: 0 <= i < |entries| ==> entries[i].ts <= now
  }

  lemma {:induction false} CompactedCount(entries: seq<Entry>, now: int, b: Budgets)
    requires NotAfter(entries, now)
    requires b.lastSnapshot.Some? ==> b.lastSnapshot.value <= now
    ensures SnapshotCount(Compacted(entries, now, b))
         <= if b.lastSnapshot.Some? then Room(now - b.lastSnapshot.value) else MAX_SNAPSHOTS
  {
    hide Room, SpacingForAge;
    if entries == [] {
      if b.lastSnapshot.Some? { RoomIsNat(now - b.lastSnapshot.value); }
    } else {
      var front, e := entries[..|entries| - 1], entries[|entries| - 1];
      CompactedCount(front, now, Spent(e, now, b));
      var kept := Compacted(front, now, Spent(e, now, b));
      if Keeps(e, now, b) { PushCount(kept, e); } else { assert kept + [] == kept; }
      if e.event.ScreenSnapshot? && TierKeeps(e, now, b.lastSnapshot) {
        if b.lastSnapshot.Some? {
          RoomShrinks(now - b.lastSnapshot.value, now - e.ts);
        } else {
          RoomAtMost(now - e.ts);
        }
      }
    }
  }

  lemma RoomIsNat(age: int)
    requires age >= 0
    ensures Room(age) >= 0
  {
  }

  lemma RoomAtMost(age: int)
    requires age >= 0
    ensures Room(age) <= MAX_SNAPSHOTS - 1
  {
  }

  /** One pass retains at most 301+48+50+30+132+48+144 snapshots. */
  lemma PassRetainsAtMost753(entries: seq<Entry>, now: int)
    requires NotAfter(entries, now)
    ensures SnapshotCount(Compacted(entries, now, FULL)) <= MAX_SNAPSHOTS
  {
    CompactedCount(entries, now, FULL);
  }

  /** The clock readings of a run never go back; `clock` is the last one. */
  predicate Steady(ops: seq<Op>, clock: int) {
    ops != [] ==>
      match ops[|ops| - 1]
      case Record(_, ts, now) => ts <= now <= clock && Steady(ops[..|ops| - 1], ts)
      case Maintain(now) => now <= clock && Steady(ops[..|ops| - 1], now)
      case Reset => Steady(ops[..|ops| - 1], clock)
  }

  lemma NoSnapshots()
    ensures SnapshotCount([]) == 0
  {
  }

  /** Under a steady clock the store never holds more than 1,008 snapshots. */
  lemma {:induction false} RunHoldsAtMost1008(ops: seq<Op>, clock: int)
    requires Steady(ops, clock)
    ensures NotAfter(Run(ops).entries, clock)
    ensures Run(ops).sinceCompaction < COMPACT_EVERY
    ensures SnapshotCount(Run(ops).entries) <= MAX_SNAPSHOTS + Run(ops).sinceCompaction <= MAX_SNAPSHOTS_BETWEEN
  {
    hide Compacted, SnapshotCount;
    NoSnapshots();
    if ops != [] {
      var before := ops[..|ops| - 1];
      var s := Run(before);
      match ops[|ops| - 1]
      case Record(event, ts, now) =>
        RunHoldsAtMost1008(before, ts);
        var e := Entry(s.nextId, ts, event);
        PushCount(s.entries, e);
        PassRetainsAtMost753(s.entries + [e], now);
        KeptAreMembers(s.entries + [e], now, FULL);
        MembersNotAfter(s.entries + [e], Compacted(s.entries + [e], now, FULL), clock);
      case Maintain(now) =>
        RunHoldsAtMost1008(before, now);
        PassRetainsAtMost753(s.entries, now);
        KeptAreMembers(s.entries, now, FULL);
        MembersNotAfter(s.entries, Compacted(s.entries, now, FULL), clock);
      case Reset => RunHoldsAtMost1008(before, clock);
    }
  }

  lemma MembersNotAfter(entries: seq<Entry>, kept: seq<Entry>, now: int)
    requires NotAfter(entries, now) && forall e :: e in kept ==> e in entries
    ensures NotAfter(kept, now)
  {
    forall i | 0 <= i < |kept| ensures kept[i].ts <= now { assert kept[i] in entries; }
  }

  // ---- How many bytes ------------------------------------------------------------------------------

  /** Screen bytes of all snapshots but the oldest. */
  function BytesPastOldest(entries: seq<Entry>): nat {
    if entries == [] then 0
    else
      var front, e := entries[..|entries| - 1], entries[|entries| - 1].event;
      if e.ScreenSnapshot? && SnapshotCount(front) > 0 then BytesPastOldest(front) + ScreenBytes(e)
      else BytesPastOldest(front)
  }

  lemma {:induction false} CompactedBytes(entries: seq<Entry>, now: int, b: Budgets)
    ensures var kept := Compacted(entries, now, b);
            && (b.snapshots == 0 ==> SnapshotCount(kept) == 0)
            && (SnapshotCount(kept) > 0 ==> BytesPastOldest(kept) < b.snapshots)
            && (SnapshotCount(kept) == 0 ==> BytesPastOldest(kept) == 0)
  {
    if entries != [] {
      var front, e := entries[..|entries| - 1], entries[|entries| - 1];
      CompactedBytes(front, now, Spent(e, now, b));
      var kept := Compacted(front, now, Spent(e, now, b));
      if Keeps(e, now, b) {
        PushCount(kept, e);
        assert (kept + [e])[..|kept|] == kept;
      } else {
        assert kept + [] == kept;
      }
    }
  }

  /** One pass keeps under 32 MiB of screen text besides its oldest snapshot. */
  lemma PassRetainsUnder32MiB(entries: seq<Entry>, now: int)
    ensures BytesPastOldest(Compacted(entries, now, FULL)) < SNAPSHOT_RETENTION_BYTES
  {
    CompactedBytes(entries, now, FULL);
  }

  // ---- What one pass keeps --------------------------------------------------------------------------

  /** `older` keeps its tier's distance from a snapshot kept at `newer`. */
  predicate Apart(older: Entry, newer: int, now: int) {
    SpacingForAge(now - older.ts).Some? && newer - older.ts >= SpacingForAge(now - older.ts).value
  }

  /** Snapshots are at most seven days old, and each keeps its tier's distance from every newer one. */
  ghost predicate Spaced(kept: seq<Entry>, now: int) {
    && (forall e :: e in kept && e.event.ScreenSnapshot? ==> SpacingForAge(now - e.ts).Some?)
    && forall i, j :: 0 <= i < j < |kept| && kept[i].event.ScreenSnapshot? && kept[j].event.ScreenSnapshot? ==>
         Apart(kept[i], kept[j].ts, now)
  }

  ghost predicate AllApart(kept: seq<Entry>, newer: int, now: int) {
    forall e :: e in kept && e.event.ScreenSnapshot? ==> Apart(e, newer, now)
  }

  lemma KeptAreSpaced(entries: seq<Entry>, now: int)
    ensures Spaced(Compacted(entries, now, FULL), now)
  {
    PassIsSpaced(entries, now, FULL);
  }

  lemma {:induction false} PassIsSpaced(entries: seq<Entry>, now: int, b: Budgets)
    ensures Spaced(Compacted(entries, now, b), now)
    ensures b.lastSnapshot.Some? ==> AllApart(Compacted(entries, now, b), b.lastSnapshot.value, now)
  {
    hide SpacingForAge, Spaced, AllApart;
    if entries == [] {
      NothingSpaced(now);
      if b.lastSnapshot.Some? { NothingApart(b.lastSnapshot.value, now); }
    } else {
      var front, e := entries[..|entries| - 1], entries[|entries| - 1];
      var kept := Compacted(front, now, Spent(e, now, b));
      PassIsSpaced(front, now, Spent(e, now, b));
      assert kept + [] == kept;
      if e.event.ScreenSnapshot? && TierKeeps(e, now, b.lastSnapshot) {
        SpacedPush(kept, e, now);
        if b.lastSnapshot.Some? { ApartPush(kept, e, b.lastSnapshot.value, now); }
      } else if Keeps(e, now, b) {
        SpacedText(kept, e, now, if b.lastSnapshot.Some? then b.lastSnapshot.value else 0);
      }
    }
  }

  lemma NothingSpaced(now: int)
    ensures Spaced([], now)
  {
  }

  lemma NothingApart(newer: int, now: int)
    ensures AllApart([], newer, now)
  {
  }

  lemma SpacedPush(kept: seq<Entry>, e: Entry, now: int)
    requires Spaced(kept, now) && AllApart(kept, e.ts, now) && SpacingForAge(now - e.ts).Some?
    ensures Spaced(kept + [e], now)
  {
    hide SpacingForAge;
  }

  lemma ApartPush(kept: seq<Entry>, e: Entry, newer: int, now: int)
    requires AllApart(kept, e.ts, now) && Apart(e, newer, now)
    ensures AllApart(kept, newer, now) && AllApart(kept + [e], newer, now)
  {
  }

  lemma SpacedText(kept: seq<Entry>, e: Entry, now: int, newer: int)
    requires Spaced(kept, now) && !e.event.ScreenSnapshot?
    ensures Spaced(kept + [e], now)
    ensures AllApart(kept, newer, now) ==> AllApart(kept + [e], newer, now)
  {
    hide SpacingForAge;
  }

  /** The budgets left once the newer entries have been decided. */
  function After(newer: seq<Entry>, now: int, b: Budgets): Budgets {
    if newer == [] then b
    else After(newer[..|newer| - 1], now, Spent(newer[|newer| - 1], now, b))
  }

  lemma {:induction false} CompactedParts(older: seq<Entry>, newer: seq<Entry>, now: int, b: Budgets)
    ensures Compacted(older + newer, now, b) == Compacted(older, now, After(newer, now, b)) + Compacted(newer, now, b)
  {
    hide Keeps, Spent;
    if newer == [] {
      assert older + newer == older;
    } else {
      var n := |newer| - 1;
      assert (older + newer)[..|older| + n] == older + newer[..n];
      CompactedParts(older, newer[..n], now, Spent(newer[n], now, b));
    }
  }

  /** Text budgets are drawn down by exactly the text that is newer. */
  lemma {:induction false} TextDrawn(kind: Kind, newer: seq<Entry>, now: int, b: Budgets)
    ensures BudgetOf(kind, After(newer, now, b)) == Drawn(BudgetOf(kind, b), |TextOf(kind, newer)|)
  {
    if newer != [] {
      TextDrawn(kind, newer[..|newer| - 1], now, Spent(newer[|newer| - 1], now, b));
    }
  }

  predicate IsText(kind: Kind, e: Event) {
    match kind
    case Pty => e.PtyOutput?
    case Visible => e.VisibleOutput?
    case Input => e.HumanInput? && e.visible
  }

  /** Main theorem: a piece of text is kept precisely if under 32,000 characters of its kind are newer. */
  lemma TextKeptIff(older: seq<Entry>, e: Entry, newer: seq<Entry>, now: int, kind: Kind)
    requires IsText(kind, e.event)
    ensures Compacted(older + [e] + newer, now, FULL)
         == Compacted(older, now, After([e] + newer, now, FULL))
          + (if |TextOf(kind, newer)| < RAW_TEXT_RETENTION_CHARS then [e] else [])
          + Compacted(newer, now, FULL)
  {
    hide Compacted, TextOf;
    TextDrawn(kind, newer, now, FULL);
    DecidedAfterNewer(older, e, newer, now);
  }

  /** The decision on an entry depends on what is newer. */
  lemma DecidedAfterNewer(older: seq<Entry>, e: Entry, newer: seq<Entry>, now: int)
    ensures Compacted(older + [e] + newer, now, FULL)
         == Compacted(older, now, After([e] + newer, now, FULL))
          + (if Keeps(e, now, After(newer, now, FULL)) then [e] else [])
          + Compacted(newer, now, FULL)
  {
    hide Compacted, Keeps;
    CompactedParts(older + [e], newer, now, FULL);
    CompactedParts(older, [e], now, After(newer, now, FULL));
    AfterParts([e], newer, now, FULL);
    OneDecided(e, now, After(newer, now, FULL));
  }

  lemma OneDecided(e: Entry, now: int, b: Budgets)
    ensures Compacted([e], now, b) == if Keeps(e, now, b) then [e] else []
  {
    assert [e][..0] == [];
  }

  lemma {:induction false} AfterParts(older: seq<Entry>, newer: seq<Entry>, now: int, b: Budgets)
    ensures After(older + newer, now, b) == After(older, now, After(newer, now, b))
  {
    hide Spent;
    if newer == [] {
      assert older + newer == older;
    } else {
      var n := |newer| - 1;
      assert (older + newer)[..|older| + n] == older + newer[..n];
      AfterParts(older, newer[..n], now, Spent(newer[n], now, b));
    }
  }

  /** Screen bytes of all snapshots. */
  function BytesOf(entries: seq<Entry>): nat {
    if entries == [] then 0
    else (if entries[0].event.ScreenSnapshot? then ScreenBytes(entries[0].event) else 0) + BytesOf(entries[1..])
  }

  /** The timestamp of the first snapshot. */
  function OldestOf(entries: seq<Entry>): Option<int> {
    if entries == [] then None
    else if entries[0].event.ScreenSnapshot? then Some(entries[0].ts)
    else OldestOf(entries[1..])
  }

  /** The snapshot budget is drawn down by exactly what was kept; until it is spent, the last
      timestamp is that of the oldest snapshot kept. */
  ghost predicate DrawnFor(c: Budgets, kept: seq<Entry>) {
    && c.snapshots == Drawn(SNAPSHOT_RETENTION_BYTES, BytesOf(kept))
    && (c.snapshots > 0 ==> c.lastSnapshot == OldestOf(kept))
  }

  lemma {:induction false} SnapshotsDrawn(newer: seq<Entry>, now: int)
    ensures DrawnFor(After(newer, now, FULL), Compacted(newer, now, FULL))
  {
    if newer == [] {
      NothingDrawn(now);
    } else {
      var e, rest := newer[0], newer[1..];
      assert [e] + rest == newer;
      SnapshotsDrawn(rest, now);
      hide *;
      var c := After(rest, now, FULL);
      CompactedParts([e], rest, now, FULL);
      AfterParts([e], rest, now, FULL);
      OneDecided(e, now, c);
      OneSpent(e, now, c);
      DrawnStep(e, now, c, Compacted(rest, now, FULL));
    }
  }

  lemma NothingDrawn(now: int)
    ensures DrawnFor(After([], now, FULL), Compacted([], now, FULL))
  {
  }

  lemma DrawnStep(e: Entry, now: int, c: Budgets, kept: seq<Entry>)
    requires DrawnFor(c, kept)
    ensures DrawnFor(Spent(e, now, c), (if Keeps(e, now, c) then [e] else []) + kept)
  {
    hide TierKeeps, ScreenBytes;
    assert ([e] + kept)[1..] == kept && [] + kept == kept;
  }

  lemma OneSpent(e: Entry, now: int, b: Budgets)
    ensures After([e], now, b) == Spent(e, now, b)
  {
    assert [e][..0] == [];
  }

  lemma {:induction false} OldestIsFirst(kept: seq<Entry>) returns (k: nat)
    ensures k <= |kept| && forall i :: 0 <= i < k ==> !kept[i].event.ScreenSnapshot?
    ensures OldestOf(kept) == if k < |kept| then Some(kept[k].ts) else None
    ensures k < |kept| ==> kept[k].event.ScreenSnapshot?
  {
    k := 0;
    if kept != [] && !kept[0].event.ScreenSnapshot? {
      var n := OldestIsFirst(kept[1..]);
      k := n + 1;
    }
  }

  /** Of spaced snapshots the oldest is the one to keep a distance from. */
  lemma FarFromOldest(kept: seq<Entry>, now: int, x: Entry)
    requires Spaced(kept, now) && SpacingForAge(now - x.ts).Some?
    ensures (OldestOf(kept).Some? ==> Apart(x, OldestOf(kept).value, now)) <==> FarFromAll(x, kept, now)
  {
    var k := OldestIsFirst(kept);
    hide OldestOf;
    if k < |kept| {
      forall j | k < j < |kept| && kept[j].event.ScreenSnapshot? ensures kept[k].ts < kept[j].ts {
        assert Apart(kept[k], kept[j].ts, now);
        SpacingIsPositive(now - kept[k].ts);
      }
      hide SpacingForAge, Spaced;
      assert kept[k] in kept;
    }
  }

  lemma SpacingIsPositive(age: int)
    ensures SpacingForAge(age).Some? ==> SpacingForAge(age).value > 0
  {
  }

  /** `x` keeps its tier's distance from every one of these snapshots. */
  ghost predicate FarFromAll(x: Entry, kept: seq<Entry>, now: int) {
    forall y :: y in kept && y.event.ScreenSnapshot? ==> Apart(x, y.ts, now)
  }

  /** Main theorem: a snapshot is kept precisely if it is at most seven days old, keeps its tier's
      distance from every newer snapshot kept, and these hold under 32 MiB. */
  lemma SnapshotKeptIff(older: seq<Entry>, x: Entry, newer: seq<Entry>, now: int)
    requires x.event.ScreenSnapshot?
    ensures var kept := Compacted(newer, now, FULL);
            Compacted(older + [x] + newer, now, FULL)
            == Compacted(older, now, After([x] + newer, now, FULL))
             + (if now - x.ts <= MAX_AGE_MS && FarFromAll(x, kept, now) && BytesOf(kept) < SNAPSHOT_RETENTION_BYTES
                then [x] else [])
             + kept
  {
    var kept := Compacted(newer, now, FULL);
    hide Compacted, BytesOf, OldestOf, After;
    SnapshotsDrawn(newer, now);
    assert DrawnFor(After(newer, now, FULL), kept);
    KeptAreSpaced(newer, now);
    if SpacingForAge(now - x.ts).Some? { FarFromOldest(kept, now, x); }
    hide FarFromAll, Spaced;
    DecidedAfterNewer(older, x, newer, now);
  }

  /** Hidden input and bookkeeping events are kept for seven days, whatever else is there. */
  lemma OtherKeptIff(older: seq<Entry>, e: Entry, newer: seq<Entry>, now: int)
    requires e.event.Bookkeeping? || (e.event.HumanInput? && !e.event.visible)
    ensures Compacted(older + [e] + newer, now, FULL)
         == Compacted(older, now, After([e] + newer, now, FULL))
          + (if now - e.ts <= 604_800_000 then [e] else [])
          + Compacted(newer, now, FULL)
  {
    hide Compacted;
    DecidedAfterNewer(older, e, newer, now);
  }

  /** Fewer than 256 records, and no maintenance, leave the log as it is. */
  lemma {:induction false} SmallStoreIsLog(ops: seq<Op>)
    requires |ops| < 256 && forall k :: 0 <= k < |ops| ==> ops[k].Record?
    ensures Run(ops).entries == LogOf(ops) && Run(ops).sinceCompaction == |ops|
  {
    if ops != [] { SmallStoreIsLog(ops[..|ops| - 1]); }
  }

  // ---- Stability -------------------------------------------------------------------------------------

  /** Budgets that make the same decisions: once the snapshot budget is spent, the last kept
      timestamp no longer matters. */
  ghost predicate Alike(b: Budgets, c: Budgets) {
    b == c.(lastSnapshot := b.lastSnapshot) && (b.snapshots > 0 ==> b.lastSnapshot == c.lastSnapshot)
  }

  lemma {:induction false} CompactedAgain(entries: seq<Entry>, now: int, b: Budgets, c: Budgets)
    requires Alike(b, c)
    ensures Compacted(Compacted(entries, now, b), now, c) == Compacted(entries, now, b)
  {
    if entries != [] {
      var front, e := entries[..|entries| - 1], entries[|entries| - 1];
      var kept := Compacted(front, now, Spent(e, now, b));
      if Keeps(e, now, b) {
        assert (kept + [e])[..|kept|] == kept;
        CompactedAgain(front, now, Spent(e, now, b), Spent(e, now, c));
      } else {
        assert kept + [] == kept;
        CompactedAgain(front, now, Spent(e, now, b), c);
      }
    }
  }

  /** Compacting twice at the same instant is compacting once. */
  lemma CompactionIsIdempotent(entries: seq<Entry>, now: int)
    ensures Compacted(Compacted(entries, now, FULL), now, FULL) == Compacted(entries, now, FULL)
  {
    CompactedAgain(entries, now, FULL, FULL);
  }
}
