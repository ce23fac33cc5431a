/** Context selection, and the proof that the bounded timeline answers it like the unbounded,
    append-only log it replaces. */
module TerminalContexts {
  import opened Common
  import opened Timelines

  // ---- Context selection ---------------------------------------------------------------------

  datatype Options = Options(
    inputMax: Option<nat>, ptyMax: Option<nat>, visibleMax: Option<nat>, screenMax: Option<nat>)
  {
    function Input(): nat { inputMax.GetOr(2_000) }
    function Pty(): nat { ptyMax.GetOr(8_000) }
    function Visible(): nat { visibleMax.GetOr(8_000) }
    function Screen(): nat { screenMax.GetOr(8_000) }
  }

  datatype PrimarySource = FromScreen | FromVisible | FromPty | Empty

  datatype Context = Context(
    recentInput: string,
    recentPtyOutput: string,
    recentVisibleOutput: string,
    altScreen: bool,
    primaryText: string,
    primarySource: PrimarySource,
    primaryTextTruncated: bool,
    currentScreen: Option<string>,
    screenRows: Option<nat>,
    screenColumns: Option<nat>)

  predicate HasText(text: string) { exists i :: 0 <= i < |text| && !IsWhitespace(text[i]) }

  function ChoosePrimary(alt: bool, screen: Option<string>, visible: string, pty: string): (string, PrimarySource) {
    if alt && HasText(screen.GetOr([])) then (screen.GetOr([]), FromScreen)
    else if HasText(visible) then (visible, FromVisible)
    else if !alt && HasText(pty) then (pty, FromPty)
    else if HasText(screen.GetOr([])) then (screen.GetOr([]), FromScreen)
    else ([], Empty)
  }

  /** The non-empty text of a snapshot, if any. */
  function ScreenOf(latest: Option<Entry>): Option<string> {
    if latest.Some? && latest.value.event.ScreenSnapshot? && latest.value.event.screen.GetOr([]) != []
    then latest.value.event.screen
    else None
  }

  function BuildContext(entries: seq<Entry>, o: Options): Context {
    var latest := LatestSnapshot(entries);
    var visibleAll := TextOf(Kind.Visible, entries);
    var visible := LastChars(visibleAll, o.Visible());
    var pty := LastChars(TextOf(Kind.Pty, entries), o.Pty());
    var whole := ScreenOf(latest);
    var screen := if whole.Some? then Some(LastChars(whole.value, o.Screen())) else None;
    var alt := latest.Some? && latest.value.event.ScreenSnapshot? && latest.value.event.altScreen;
    var (text, source) := ChoosePrimary(alt, screen, visible, pty);
    var truncated :=
      match source
      case FromScreen => whole.Some? && |screen.value| < |whole.value|
      case FromVisible => |visible| < |visibleAll|
      case FromPty => |pty| >= o.Pty()
      case Empty => false;
    Context(
      LastChars(TextOf(Kind.Input, entries), o.Input()), pty, visible, alt, text, source, truncated, screen,
      if latest.Some? && latest.value.event.ScreenSnapshot? then Some(latest.value.event.rows) else None,
      if latest.Some? && latest.value.event.ScreenSnapshot? then Some(latest.value.event.columns) else None)
  }

  // ---- Runs, and the log ------------------------------------------------------------------------

  datatype Op =
    | Record(event: Event, ts: int, now: int)
    | Maintain(now: int)
    | Reset

  function Run(ops: seq<Op>): Store {
    if ops == [] then NEW
    else
      var s := Run(ops[..|ops| - 1]);
      match ops[|ops| - 1]
      case Record(event, ts, now) => Recorded(s, event, ts, now)
      case Maintain(now) => Maintained(s, now)
      case Reset => Cleared(s)
  }

  /** Every entry since the last reset. */
  function LogOf(ops: seq<Op>): seq<Entry> {
    if ops == [] then []
    else
      var before := ops[..|ops| - 1];
      match ops[|ops| - 1]
      case Record(event, ts, now) => LogOf(before) + [Entry(Run(before).nextId, ts, event)]
      case Maintain(now) => LogOf(before)
      case Reset => []
  }

  // ---- Text survives compaction -------------------------------------------------------------------

  predicate IsSuffix(a: string, b: string) { |a| <= |b| && a == b[|b| - |a|..] }

  /** `a` is the end of `b`, and all of it unless `a` already holds `least` characters. */
  ghost predicate Recent(a: string, b: string, least: nat) {
    IsSuffix(a, b) && (a == b || |a| >= least)
  }

  function BudgetOf(kind: Kind, b: Budgets): nat {
    match kind case Pty => b.pty case Visible => b.visible case Input => b.input
  }

  lemma RecentPush(a: string, b: string, piece: string, least: nat, budget: nat)
    requires Recent(a, b, least) && least == Drawn(budget, |piece|)
    ensures Recent(a + piece, b + piece, budget)
  {
    assert (b + piece)[|b| - |a|..] == b[|b| - |a|..] + piece;
  }

  /** One pass keeps the end of each kind's text, up to its budget. */
  lemma {:induction false} CompactedText(kind: Kind, entries: seq<Entry>, now: int, b: Budgets)
    ensures Recent(TextOf(kind, Compacted(entries, now, b)), TextOf(kind, entries), BudgetOf(kind, b))
  {
    hide Keeps, Spent, Piece, BudgetOf, Recent, TextOf;
    if entries == [] {
      NothingRecentIn(kind, BudgetOf(kind, b));
    } else {
      var front, e := entries[..|entries| - 1], entries[|entries| - 1];
      var b' := Spent(e, now, b);
      var kept := Compacted(front, now, b');
      CompactedText(kind, front, now, b');
      TextDecided(kind, e, now, b);
      assert front + [e] == entries;
      PushText(kind, front, e);
      PushText(kind, kept, e);
      assert kept + [] == kept;
      if Keeps(e, now, b) {
        RecentPush(TextOf(kind, kept), TextOf(kind, front), Piece(kind, e.event), BudgetOf(kind, b'), BudgetOf(kind, b));
      } else if Piece(kind, e.event) == [] {
        assert TextOf(kind, front) + [] == TextOf(kind, front);
      } else {
        NothingKept(kind, front, now, b');
        NothingIsRecent(TextOf(kind, entries));
      }
    }
  }

  /** What the decision on an entry means for one kind of text. */
  lemma TextDecided(kind: Kind, e: Entry, now: int, b: Budgets)
    ensures var piece, after := Piece(kind, e.event), BudgetOf(kind, Spent(e, now, b));
            && after == Drawn(BudgetOf(kind, b), |piece|)
            && (!Keeps(e, now, b) && piece != [] ==> BudgetOf(kind, b) == 0)
  {
  }

  lemma NothingRecentIn(kind: Kind, least: nat)
    ensures Recent(TextOf(kind, []), TextOf(kind, []), least)
  {
  }

  lemma NothingIsRecent(text: string)
    ensures Recent([], text, 0)
  {
  }

  /** An exhausted budget keeps nothing older of its kind. */
  lemma {:induction false} NothingKept(kind: Kind, entries: seq<Entry>, now: int, b: Budgets)
    requires BudgetOf(kind, b) == 0
    ensures TextOf(kind, Compacted(entries, now, b)) == []
  {
    hide Keeps, Spent, Piece, BudgetOf;
    if entries != [] {
      var front, e := entries[..|entries| - 1], entries[|entries| - 1];
      NothingOf(kind, e, now, b);
      NothingKept(kind, front, now, Spent(e, now, b));
      var kept := Compacted(front, now, Spent(e, now, b));
      PushText(kind, kept, e);
      assert kept + [] == kept;
    }
  }

  lemma NothingOf(kind: Kind, e: Entry, now: int, b: Budgets)
    requires BudgetOf(kind, b) == 0
    ensures BudgetOf(kind, Spent(e, now, b)) == 0
    ensures Keeps(e, now, b) ==> Piece(kind, e.event) == []
  {
  }

  lemma RecentTrans(a: string, b: string, c: string, n: nat)
    requires Recent(a, b, n) && Recent(b, c, n)
    ensures Recent(a, c, n)
  {
    assert a == c[|c| - |a|..];
  }

  /** For every run: the store's text of a kind is the end of the log's, all of it up to 32,000
      characters. */
  lemma {:induction false} RunKeepsText(kind: Kind, ops: seq<Op>)
    ensures Recent(TextOf(kind, Run(ops).entries), TextOf(kind, LogOf(ops)), RAW_TEXT_RETENTION_CHARS)
  {
    hide Recent, Compacted, Piece, TextOf;
    if ops == [] {
      NothingRecent();
    } else {
      var before := ops[..|ops| - 1];
      var s, log := Run(before), LogOf(before);
      RunKeepsText(kind, before);
      match ops[|ops| - 1]
      case Record(event, ts, now) =>
        var e := Entry(s.nextId, ts, event);
        PushText(kind, s.entries, e);
        PushText(kind, log, e);
        PushRecent(TextOf(kind, s.entries), TextOf(kind, log), Piece(kind, event));
        CompactedRecent(kind, s.entries + [e], log + [e], now);
      case Maintain(now) => CompactedRecent(kind, s.entries, log, now);
      case Reset => NothingRecent();
    }
  }

  lemma NothingRecent()
    ensures Recent([], [], RAW_TEXT_RETENTION_CHARS) && forall kind :: TextOf(kind, []) == []
  {
  }

  lemma PushText(kind: Kind, entries: seq<Entry>, e: Entry)
    ensures TextOf(kind, entries + [e]) == TextOf(kind, entries) + Piece(kind, e.event)
  {
    assert (entries + [e])[..|entries|] == entries;
  }

  lemma PushRecent(a: string, b: string, piece: string)
    requires Recent(a, b, RAW_TEXT_RETENTION_CHARS)
    ensures Recent(a + piece, b + piece, RAW_TEXT_RETENTION_CHARS)
  {
    assert (b + piece)[|b| - |a|..] == b[|b| - |a|..] + piece;
  }

  lemma CompactedRecent(kind: Kind, entries: seq<Entry>, log: seq<Entry>, now: int)
    requires Recent(TextOf(kind, entries), TextOf(kind, log), RAW_TEXT_RETENTION_CHARS)
    ensures Recent(TextOf(kind, Compacted(entries, now, FULL)), TextOf(kind, log), RAW_TEXT_RETENTION_CHARS)
  {
    CompactedText(kind, entries, now, FULL);
    RecentTrans(TextOf(kind, Compacted(entries, now, FULL)), TextOf(kind, entries), TextOf(kind, log), RAW_TEXT_RETENTION_CHARS);
  }

  // ---- The latest snapshot --------------------------------------------------------------------------

  predicate Fresh(latest: Option<Entry>, now: int) { latest.Some? ==> now - latest.value.ts <= MAX_AGE_MS }

  /** Whether an operation compacts the store left by the run before it. */
  predicate Compacts(before: seq<Op>, op: Op) {
    match op
    case Record(_, _, _) => Run(before).sinceCompaction + 1 >= COMPACT_EVERY
    case Maintain(_) => true
    case Reset => false
  }

  /** The latest snapshot was at most seven days old at each compaction since it was recorded.
      Compactions before it, and before the last reset, do not matter. */
  predicate LatestKept(ops: seq<Op>) {
    ops != [] ==>
      var before, op := ops[..|ops| - 1], ops[|ops| - 1];
      || op.Reset?
      || (&& ((op.Record? && op.event.ScreenSnapshot?) || LatestKept(before))
          && (Compacts(before, op) ==> Fresh(LatestSnapshot(LogOf(ops)), op.now)))
  }

  /** A pass that starts with no snapshot kept keeps the latest one while a tier covers its age. */
  lemma {:induction false} CompactedLatest(entries: seq<Entry>, now: int, b: Budgets)
    requires b.lastSnapshot.None? && b.snapshots > 0
    requires Fresh(LatestSnapshot(entries), now)
    ensures LatestSnapshot(Compacted(entries, now, b)) == LatestSnapshot(entries)
  {
    if entries != [] {
      var front, e := entries[..|entries| - 1], entries[|entries| - 1];
      var kept := Compacted(front, now, Spent(e, now, b));
      if !e.event.ScreenSnapshot? { CompactedLatest(front, now, Spent(e, now, b)); }
      if Keeps(e, now, b) { assert (kept + [e])[..|kept|] == kept; } else { assert kept + [] == kept; }
    }
  }

  ghost predicate DistinctIds(entries: seq<Entry>) {
    forall i, j :: 0 <= i < j < |entries| ==> entries[i].id != entries[j].id
  }

  /** The seven-day condition is exact: an older latest snapshot is lost. */
  lemma LatestSurvivesIff(entries: seq<Entry>, now: int)
    requires DistinctIds(entries)
    ensures LatestSnapshot(Compacted(entries, now, FULL)) == LatestSnapshot(entries)
       <==> Fresh(LatestSnapshot(entries), now)
  {
    if Fresh(LatestSnapshot(entries), now) {
      CompactedLatest(entries, now, FULL);
    } else {
      StaleIsLost(entries, now, FULL);
      LatestIsMember(Compacted(entries, now, FULL));
    }
  }

  lemma {:induction false} StaleIsLost(entries: seq<Entry>, now: int, b: Budgets)
    requires DistinctIds(entries) && !Fresh(LatestSnapshot(entries), now)
    ensures LatestSnapshot(entries).value !in Compacted(entries, now, b)
  {
    var front, e := entries[..|entries| - 1], entries[|entries| - 1];
    var kept := Compacted(front, now, Spent(e, now, b));
    if e.event.ScreenSnapshot? {
      assert Compacted(entries, now, b) == kept + [] == kept;
      KeptAreMembers(front, now, Spent(e, now, b));
    } else {
      StaleIsLost(front, now, Spent(e, now, b));
      LatestIsSnapshot(front);
    }
  }

  lemma {:induction false} LatestIsSnapshot(entries: seq<Entry>)
    ensures LatestSnapshot(entries).Some? ==> LatestSnapshot(entries).value.event.ScreenSnapshot?
  {
    if entries != [] && !entries[|entries| - 1].event.ScreenSnapshot? { LatestIsSnapshot(entries[..|entries| - 1]); }
  }

  lemma {:induction false} LatestIsMember(entries: seq<Entry>)
    ensures LatestSnapshot(entries).Some? ==> LatestSnapshot(entries).value in entries
  {
    if entries != [] && !entries[|entries| - 1].event.ScreenSnapshot? { LatestIsMember(entries[..|entries| - 1]); }
  }

  lemma {:induction false} KeptAreMembers(entries: seq<Entry>, now: int, b: Budgets)
    ensures forall e :: e in Compacted(entries, now, b) ==> e in entries
  {
    if entries != [] {
      KeptAreMembers(entries[..|entries| - 1], now, Spent(entries[|entries| - 1], now, b));
    }
  }

  lemma PushLatest(entries: seq<Entry>, e: Entry)
    ensures LatestSnapshot(entries + [e]) == if e.event.ScreenSnapshot? then Some(e) else LatestSnapshot(entries)
  {
    assert (entries + [e])[..|entries|] == entries;
  }

  /** Ids rise along the entries and stay below `next`. */
  ghost predicate Rising(entries: seq<Entry>, next: nat) {
    && (forall i, j :: 0 <= i < j < |entries| ==> entries[i].id < entries[j].id)
    && (forall i :: 0 <= i < |entries| ==> entries[i].id < next)
  }

  lemma RisingPush(entries: seq<Entry>, e: Entry)
    requires Rising(entries, e.id)
    ensures Rising(entries + [e], e.id + 1)
  {
  }

  lemma {:induction false} CompactedRises(entries: seq<Entry>, now: int, b: Budgets, next: nat)
    requires Rising(entries, next)
    ensures Rising(Compacted(entries, now, b), next)
  {
    hide Keeps, Spent;
    if entries != [] {
      var front, e := entries[..|entries| - 1], entries[|entries| - 1];
      CompactedRises(front, now, Spent(e, now, b), e.id);
      RisingPush(Compacted(front, now, Spent(e, now, b)), e);
    }
  }

  /** Every run numbers its entries in order; no two share an id. */
  lemma {:induction false} RunRises(ops: seq<Op>)
    ensures Rising(Run(ops).entries, Run(ops).nextId) && DistinctIds(Run(ops).entries)
  {
    hide Compacted;
    if ops != [] {
      var s := Run(ops[..|ops| - 1]);
      RunRises(ops[..|ops| - 1]);
      match ops[|ops| - 1]
      case Record(event, ts, now) =>
        var e := Entry(s.nextId, ts, event);
        RisingPush(s.entries, e);
        CompactedRises(s.entries + [e], now, FULL, s.nextId + 1);
      case Maintain(now) => CompactedRises(s.entries, now, FULL, s.nextId);
      case Reset =>
    }
  }

  /** The store has the log's latest snapshot, or lacks it for good. */
  ghost predicate LatestIs(entries: seq<Entry>, log: seq<Entry>, kept: bool) {
    var latest := LatestSnapshot(log);
    if kept then LatestSnapshot(entries) == latest else latest.Some? && latest.value !in entries
  }

  lemma LatestPush(entries: seq<Entry>, log: seq<Entry>, kept: bool, e: Entry)
    requires LatestIs(entries, log, kept)
    ensures LatestIs(entries + [e], log + [e], kept || e.event.ScreenSnapshot?)
  {
    PushLatest(entries, e);
    PushLatest(log, e);
    LatestIsSnapshot(log);
  }

  lemma LatestCompacted(entries: seq<Entry>, log: seq<Entry>, kept: bool, now: int)
    requires LatestIs(entries, log, kept) && DistinctIds(entries)
    ensures LatestIs(Compacted(entries, now, FULL), log, kept && Fresh(LatestSnapshot(log), now))
  {
    hide Compacted, LatestSnapshot;
    if kept && Fresh(LatestSnapshot(log), now) {
      CompactedLatest(entries, now, FULL);
    } else if kept {
      StaleIsLost(entries, now, FULL);
    } else {
      KeptAreMembers(entries, now, FULL);
    }
  }

  lemma {:induction false} RunLatest(ops: seq<Op>)
    ensures LatestIs(Run(ops).entries, LogOf(ops), LatestKept(ops))
  {
    hide Compacted, LatestIs, Fresh, LatestSnapshot, DistinctIds, Rising;
    if ops == [] {
      NoneLatest();
    } else {
      var before := ops[..|ops| - 1];
      var s := Run(before);
      RunLatest(before);
      RunRises(before);
      match ops[|ops| - 1]
      case Record(event, ts, now) =>
        var e := Entry(s.nextId, ts, event);
        LatestPush(s.entries, LogOf(before), LatestKept(before), e);
        RisingPush(s.entries, e);
        RisingIsDistinct(s.entries + [e], e.id + 1);
        LatestCompacted(s.entries + [e], LogOf(before) + [e], LatestKept(before) || event.ScreenSnapshot?, now);
      case Maintain(now) => LatestCompacted(s.entries, LogOf(before), LatestKept(before), now);
      case Reset => NoneLatest();
    }
  }

  lemma RisingIsDistinct(entries: seq<Entry>, next: nat)
    requires Rising(entries, next)
    ensures DistinctIds(entries)
  {
  }

  lemma NoneLatest()
    ensures LatestIs([], [], true)
  {
  }

  /** Main theorem: after any run the store's latest snapshot is the log's precisely if that
      snapshot was never compacted when over seven days old. */
  lemma RunKeepsLatestIff(ops: seq<Op>)
    ensures LatestSnapshot(Run(ops).entries) == LatestSnapshot(LogOf(ops)) <==> LatestKept(ops)
  {
    hide LatestKept, Run, LogOf;
    RunLatest(ops);
    LatestIsMember(Run(ops).entries);
  }

  // ---- The bounded store refines the log ---------------------------------------------------------------

  /** The store holds as much of a text as is asked for: nothing was dropped, or enough is left. */
  predicate Suffices(kind: Kind, ops: seq<Op>, max: nat) {
    var kept, all := TextOf(kind, Run(ops).entries), TextOf(kind, LogOf(ops));
    kept == all || |kept| >= max
  }

  lemma LastCharsAgreeIff(a: string, b: string, max: nat)
    requires IsSuffix(a, b)
    ensures LastChars(a, max) == LastChars(b, max) <==> a == b || |a| >= max
  {
    if a != b && |a| < max {
      assert |a| < |b|;
      assert |LastChars(a, max)| < |LastChars(b, max)|;
    }
  }

  /** Whether the last characters are all there are is lost when exactly that many are left. */
  lemma CutAgreesIff(a: string, b: string, max: nat)
    requires IsSuffix(a, b) && (a == b || |a| >= max)
    ensures (|LastChars(a, max)| < |a| <==> |LastChars(b, max)| < |b|) <==> !(|a| == max < |b|)
  {
  }

  lemma KindAgreesIff(kind: Kind, ops: seq<Op>, max: nat)
    ensures LastChars(TextOf(kind, Run(ops).entries), max) == LastChars(TextOf(kind, LogOf(ops)), max) <==> Suffices(kind, ops, max)
  {
    hide Run, LogOf, TextOf, LastChars;
    RunKeepsText(kind, ops);
    LastCharsAgreeIff(TextOf(kind, Run(ops).entries), TextOf(kind, LogOf(ops)), max);
  }

  /** Main theorem: for any budgets, the context built from the store is the one built from the whole
      log exactly if the store holds enough of each kind of text, and the visible text, when it is
      primary, was not cut to exactly the budget by compaction alone. */
  lemma ContextAgreesIff(ops: seq<Op>, o: Options)
    requires LatestKept(ops)
    ensures var s, log := Run(ops).entries, LogOf(ops);
            BuildContext(s, o) == BuildContext(log, o)
            <==> && Suffices(Kind.Input, ops, o.Input()) && Suffices(Kind.Pty, ops, o.Pty())
                 && Suffices(Kind.Visible, ops, o.Visible())
                 && !(&& BuildContext(log, o).primarySource == FromVisible
                      && |TextOf(Kind.Visible, s)| == o.Visible() < |TextOf(Kind.Visible, log)|)
  {
    hide Run, LogOf, HasText, TextOf, LatestSnapshot, ScreenOf, LatestKept, LastChars, Suffices, Recent;
    RunKeepsLatestIff(ops);
    KindAgreesIff(Kind.Input, ops, o.Input());
    KindAgreesIff(Kind.Pty, ops, o.Pty());
    KindAgreesIff(Kind.Visible, ops, o.Visible());
    if Suffices(Kind.Visible, ops, o.Visible()) { VisibleCut(ops, o.Visible()); }
  }

  lemma VisibleCut(ops: seq<Op>, max: nat)
    requires Suffices(Kind.Visible, ops, max)
    ensures var a, b := TextOf(Kind.Visible, Run(ops).entries), TextOf(Kind.Visible, LogOf(ops));
            (|LastChars(a, max)| < |a| <==> |LastChars(b, max)| < |b|) <==> !(|a| == max < |b|)
  {
    hide Run, LogOf, TextOf, LastChars;
    RunKeepsText(Kind.Visible, ops);
    CutAgreesIff(TextOf(Kind.Visible, Run(ops).entries), TextOf(Kind.Visible, LogOf(ops)), max);
  }

  lemma BudgetSuffices(kind: Kind, ops: seq<Op>, max: nat)
    requires max <= RAW_TEXT_RETENTION_CHARS
    ensures Suffices(kind, ops, max)
  {
    hide Run, LogOf, TextOf;
    RunKeepsText(kind, ops);
  }

  /** In particular with character budgets up to 32,000 the two contexts are the same,
      `primaryTextTruncated` included when the visible budget is below 32,000. */
  lemma StoreRefinesLog(ops: seq<Op>, o: Options)
    requires LatestKept(ops)
    requires o.Input() <= RAW_TEXT_RETENTION_CHARS && o.Pty() <= RAW_TEXT_RETENTION_CHARS
    requires o.Visible() <= RAW_TEXT_RETENTION_CHARS
    ensures var c, full := BuildContext(Run(ops).entries, o), BuildContext(LogOf(ops), o);
            && c == full.(primaryTextTruncated := c.primaryTextTruncated)
            && (o.Visible() < RAW_TEXT_RETENTION_CHARS ==> c == full)
  {
    hide Run, LogOf, HasText, TextOf, LatestSnapshot, ScreenOf, LatestKept, LastChars, Suffices;
    BudgetSuffices(Kind.Input, ops, o.Input());
    BudgetSuffices(Kind.Pty, ops, o.Pty());
    BudgetSuffices(Kind.Visible, ops, o.Visible());
    KindAgreesIff(Kind.Input, ops, o.Input());
    KindAgreesIff(Kind.Pty, ops, o.Pty());
    KindAgreesIff(Kind.Visible, ops, o.Visible());
    RunKeepsLatestIff(ops);
    RunKeepsText(Kind.Visible, ops);
    VisibleCut(ops, o.Visible());
  }

  /** Such a run exists. */
  lemma FlagLostAtLimit(first: string, second: string) returns (ops: seq<Op>)
    requires first != [] && |second| == RAW_TEXT_RETENTION_CHARS && HasText(second)
    ensures var o := Options(None, None, Some(RAW_TEXT_RETENTION_CHARS), None);
            && !BuildContext(Run(ops).entries, o).primaryTextTruncated
            && BuildContext(LogOf(ops), o).primaryTextTruncated
  {
    ops := [Record(VisibleOutput(first), 0, 0), Record(VisibleOutput(second), 0, 0), Maintain(0)];
    var a, b := Entry(1, 0, VisibleOutput(first)), Entry(2, 0, VisibleOutput(second));
    var o := Options(None, None, Some(RAW_TEXT_RETENTION_CHARS), None);
    TwoThenCompact(first, second);
    TwoTexts(a, b, first, second);
    assert LastChars(first + second, RAW_TEXT_RETENTION_CHARS) == second;
    assert LastChars(second, RAW_TEXT_RETENTION_CHARS) == second;
    hide Run, LogOf, BuildContext, HasText, LastChars;
    VisibleIsPrimary([b], o, second);
    VisibleIsPrimary([a, b], o, first + second);
  }

  lemma TwoTexts(a: Entry, b: Entry, first: string, second: string)
    requires a.event == VisibleOutput(first) && b.event == VisibleOutput(second)
    ensures TextOf(Kind.Visible, [b]) == second && TextOf(Kind.Visible, [a, b]) == first + second
    ensures LatestSnapshot([b]) == LatestSnapshot([a, b]) == None
  {
    assert [a, b][..1] == [a] && [a][..0] == [] && [b][..0] == [];
    assert TextOf(Kind.Visible, [a]) == first && LatestSnapshot([a]) == None;
  }

  lemma VisibleIsPrimary(entries: seq<Entry>, o: Options, text: string)
    requires LatestSnapshot(entries) == None && TextOf(Kind.Visible, entries) == text
    requires HasText(LastChars(text, o.Visible()))
    ensures BuildContext(entries, o).primaryTextTruncated <==> |LastChars(text, o.Visible())| < |text|
  {
  }

  lemma TwoThenCompact(first: string, second: string)
    requires |second| == RAW_TEXT_RETENTION_CHARS
    ensures var ops := [Record(VisibleOutput(first), 0, 0), Record(VisibleOutput(second), 0, 0), Maintain(0)];
            var a, b := Entry(1, 0, VisibleOutput(first)), Entry(2, 0, VisibleOutput(second));
            Run(ops).entries == [b] && LogOf(ops) == [a, b]
  {
    hide Compacted;
    var a, b := Entry(1, 0, VisibleOutput(first)), Entry(2, 0, VisibleOutput(second));
    var one := [Record(a.event, 0, 0)];
    var two := one + [Record(b.event, 0, 0)];
    var ops := two + [Maintain(0)];
    assert ops == [Record(VisibleOutput(first), 0, 0), Record(VisibleOutput(second), 0, 0), Maintain(0)];
    assert one[..0] == [] && two[..1] == one && ops[..2] == two;
    assert Run(one) == Store([a], 2, 1) && LogOf(one) == [a];
    assert Run(two) == Store([a, b], 3, 2) && LogOf(two) == [a, b];
    CompactTwo(a, b);
  }

  lemma CompactTwo(a: Entry, b: Entry)
    requires a.event.VisibleOutput? && b.event.VisibleOutput? && |b.event.text| == RAW_TEXT_RETENTION_CHARS
    ensures Compacted([a, b], 0, FULL) == [b]
  {
    assert [a, b][..1] == [a];
    assert Compacted([], 0, Spent(a, 0, Spent(b, 0, FULL))) == [];
    assert Compacted([a], 0, Spent(b, 0, FULL)) == [];
  }

  /** An untruncated PTY context is all the PTY output there was since the last reset. */
  lemma UntruncatedIsEverything(ops: seq<Op>, o: Options)
    requires o.Pty() <= RAW_TEXT_RETENTION_CHARS
    requires var c := BuildContext(Run(ops).entries, o); c.primarySource == FromPty && !c.primaryTextTruncated
    ensures BuildContext(Run(ops).entries, o).primaryText == TextOf(Kind.Pty, LogOf(ops))
  {
    hide Run, LogOf, HasText, TextOf, LatestSnapshot, ScreenOf;
    RunKeepsText(Kind.Pty, ops);
  }
}
