/** The fields of a terminal context, each said of the entries it is built from. */
module ContextFields {
  import opened Common
  import opened Timelines
  import opened TerminalContexts

  // ---- The texts ------------------------------------------------------------------------------------------

  /** `part` is the last `max` characters of `all`, or all of them. */
  predicate IsLastOf(part: string, all: string, max: nat) {
    && |part| <= |all| && part == all[|all| - |part|..]
    && |part| == if |all| <= max then |all| else max
  }

  /** One entry's text: its own kind's and no other's, and hidden input has none. */
  lemma OneText(e: Entry)
    ensures e.event.PtyOutput? ==> forall kind :: TextOf(kind, [e]) == if kind == Pty then e.event.data else []
    ensures e.event.VisibleOutput? ==> forall kind :: TextOf(kind, [e]) == if kind == Visible then e.event.text else []
    ensures e.event.HumanInput? && e.event.visible ==>
              forall kind :: TextOf(kind, [e]) == if kind == Input then e.event.data else []
    ensures e.event.HumanInput? && !e.event.visible ==> forall kind :: TextOf(kind, [e]) == []
    ensures e.event.ScreenSnapshot? || e.event.Bookkeeping? ==> forall kind :: TextOf(kind, [e]) == []
  {
    assert [e][..0] == [];
  }

  /** Texts follow each other in the order of the entries. */
  lemma {:induction false} TextsJoin(kind: Kind, a: seq<Entry>, b: seq<Entry>)
    ensures TextOf(kind, a + b) == TextOf(kind, a) + TextOf(kind, b)
  {
    hide TextOf;
    if b == [] {
      assert a + b == a && TextOf(kind, a) + [] == TextOf(kind, a) && TextOf(kind, []) == [] by { NoText(kind); }
    } else {
      var n := |b| - 1;
      TextsJoin(kind, a, b[..n]);
      assert a + b == a + b[..n] + [b[n]] && b == b[..n] + [b[n]];
      PushText(kind, a + b[..n], b[n]);
      PushText(kind, b[..n], b[n]);
    }
  }

  lemma NoText(kind: Kind)
    ensures TextOf(kind, []) == []
  {
  }

  // ---- The latest snapshot --------------------------------------------------------------------------------

  /** The latest snapshot is the last entry that is one. */
  lemma {:induction false} LatestIsLast(entries: seq<Entry>, k: nat)
    requires k < |entries| && entries[k].event.ScreenSnapshot?
    requires forall j :: k < j < |entries| ==> !entries[j].event.ScreenSnapshot?
    ensures LatestSnapshot(entries) == Some(entries[k])
  {
    if k < |entries| - 1 { LatestIsLast(entries[..|entries| - 1], k); }
  }

  lemma {:induction false} NoSnapshotIsLatest(entries: seq<Entry>)
    requires forall j :: 0 <= j < |entries| ==> !entries[j].event.ScreenSnapshot?
    ensures LatestSnapshot(entries) == None
  {
    if entries != [] { NoSnapshotIsLatest(entries[..|entries| - 1]); }
  }

  /** What a context says of the latest snapshot. */
  ghost predicate ShowsScreen(c: Context, screen: Option<string>, alt: bool, rows: nat, columns: nat, max: nat) {
    && c.altScreen == alt && c.screenRows == Some(rows) && c.screenColumns == Some(columns)
    && (if screen.GetOr([]) == [] then c.currentScreen == None
        else c.currentScreen.Some? && IsLastOf(c.currentScreen.value, screen.value, max))
  }

  lemma ScreenIsLatest(entries: seq<Entry>, o: Options, k: nat)
    requires k < |entries| && entries[k].event.ScreenSnapshot?
    requires forall j :: k < j < |entries| ==> !entries[j].event.ScreenSnapshot?
    ensures var e := entries[k].event;
            ShowsScreen(BuildContext(entries, o), e.screen, e.altScreen, e.rows, e.columns, o.screenMax.GetOr(8_000))
  {
    hide HasText, TextOf, LatestSnapshot;
    LatestIsLast(entries, k);
  }

  /** The texts of a context are the last characters of the entries' texts. */
  lemma RecentIsLast(entries: seq<Entry>, o: Options)
    ensures var c := BuildContext(entries, o);
            && IsLastOf(c.recentInput, TextOf(Kind.Input, entries), o.inputMax.GetOr(2_000))
            && IsLastOf(c.recentPtyOutput, TextOf(Kind.Pty, entries), o.ptyMax.GetOr(8_000))
            && IsLastOf(c.recentVisibleOutput, TextOf(Kind.Visible, entries), o.visibleMax.GetOr(8_000))
  {
    hide HasText, TextOf, LatestSnapshot;
  }

  // ---- The primary text -----------------------------------------------------------------------------------

  /** Main theorem: on the alternate screen the screen comes first, elsewhere last; visible output comes
      before raw output, and raw output is not used on the alternate screen.  The primary text is the
      field chosen. */
  lemma PrimaryIs(entries: seq<Entry>, o: Options)
    ensures var c := BuildContext(entries, o);
            var screen, visible, pty := HasText(c.currentScreen.GetOr([])), HasText(c.recentVisibleOutput), HasText(c.recentPtyOutput);
            && (c.primarySource == FromScreen <==> screen && (c.altScreen || (!visible && !pty)))
            && (c.primarySource == FromVisible <==> visible && !(c.altScreen && screen))
            && (c.primarySource == FromPty <==> pty && !c.altScreen && !visible)
            && (c.primarySource == Empty <==> !screen && !visible && (c.altScreen || !pty))
            && (c.primarySource == FromScreen ==> c.currentScreen == Some(c.primaryText))
            && (c.primarySource == FromVisible ==> c.primaryText == c.recentVisibleOutput)
            && (c.primarySource == FromPty ==> c.primaryText == c.recentPtyOutput)
            && (c.primarySource == Empty ==> c.primaryText == [])
  {
    assert !HasText([]);
    hide TextOf, LatestSnapshot, LastChars, ScreenOf, HasText;
  }

  /** The flag says whether the primary text was cut; for raw output, whether its budget was reached. */
  lemma TruncatedIff(entries: seq<Entry>, o: Options)
    ensures var c := BuildContext(entries, o);
            && (c.primarySource == FromScreen ==> LatestSnapshot(entries).Some? && LatestSnapshot(entries).value.event.ScreenSnapshot?)
            && (c.primarySource == FromScreen ==>
                  (c.primaryTextTruncated <==> |LatestSnapshot(entries).value.event.screen.GetOr([])| > o.Screen()))
            && (c.primarySource == FromVisible ==> (c.primaryTextTruncated <==> |TextOf(Kind.Visible, entries)| > o.Visible()))
            && (c.primarySource == FromPty ==> (c.primaryTextTruncated <==> |TextOf(Kind.Pty, entries)| >= o.Pty()))
            && (c.primarySource == Empty ==> !c.primaryTextTruncated)
  {
    assert !HasText([]);
    hide TextOf, LatestSnapshot, HasText;
  }

  /** Hidden input leaves no trace in a context. */
  lemma HiddenInputStaysOut(a: seq<Entry>, e: Entry, b: seq<Entry>, o: Options)
    requires e.event.HumanInput? && !e.event.visible
    ensures BuildContext(a + [e] + b, o) == BuildContext(a + b, o)
  {
    forall kind: Kind ensures TextOf(kind, a + [e] + b) == TextOf(kind, a + b) {
      TextsJoin(kind, a + [e], b);
      TextsJoin(kind, a, [e]);
      TextsJoin(kind, a, b);
      OneText(e);
      assert TextOf(kind, a) + [] == TextOf(kind, a);
    }
    NotASnapshot(a, e, b);
    hide TextOf, LatestSnapshot, HasText, LastChars, ScreenOf;
  }

  lemma {:induction false} NotASnapshot(a: seq<Entry>, e: Entry, b: seq<Entry>)
    requires !e.event.ScreenSnapshot?
    ensures LatestSnapshot(a + [e] + b) == LatestSnapshot(a + b)
  {
    if b == [] {
      assert a + [e] + b == a + [e] && (a + [e])[..|a|] == a && a + b == a;
    } else {
      var n := |b| - 1;
      assert (a + [e] + b)[..|a| + 1 + n] == a + [e] + b[..n] && (a + b)[..|a| + n] == a + b[..n];
      NotASnapshot(a, e, b[..n]);
    }
  }
}
