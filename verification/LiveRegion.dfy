/** The cursor's logical line on the terminal: sampling it, erasing it and drawing it again. */
module LiveRegions {
  import opened Common
  import opened TerminalStreams
  import opened Screens
  import opened Presentations
  import StyledRows

  function TrimEnd(s: string): (t: string)
    ensures t <= s
  {
    if s != [] && IsWhitespace(s[|s| - 1]) then TrimEnd(s[..|s| - 1]) else s
  }

  // ---- The mirror as an observer of the terminal -----------------------------------------------------

  function Top(s: Screen, r: nat): (t: nat)
    ensures t <= r
  {
    if r > 0 && r - 1 in s.wraps then Top(s, r - 1) else r
  }

  /** A region sampled from the screen: rows that wrap onward whole, the last one trimmed, each
      with some styling. */
  ghost predicate Samples(region: Region, s: Screen) {
    var top := Top(s, s.row);
    var n := |region.styledRows|;
    && n == s.row - top + 1
    && (forall i :: 0 <= i < n - 1 ==> Unstyled(region.styledRows[i]) == Chars(At(s, top + i)))
    && Unstyled(region.styledRows[n - 1]) == Chars(TrimEnd(At(s, s.row)))
    && region.lastRowChars == |TrimEnd(At(s, s.row))|
    && region.cursorCol == s.col && region.needsWrap == s.pending
    && region.rowAbove == if top > 0 then Some(TrimEnd(At(s, top - 1))) else None
  }

  function Probe(s: Screen): AiEnd { AiEnd(s.col, s.pending, TrimEnd(At(s, s.row))) }

  ghost predicate Shows(v: View, s: Screen) {
    && (v.live.None? <==> s.row in s.wraps)
    && (v.live.Some? ==> Samples(v.live.value, s))
    && v.probe == Probe(s)
  }

  /** From `stream` on, when the terminal shows `s`, the mirror reports what the terminal shows. */
  ghost predicate Watches(m: Mirror, stream: Toks, s: Screen)
    requires s.Ok()
  {
    forall more: Toks :: Shows(m(stream + more), FeedAll(s, more))
  }

  lemma WatchesNow(m: Mirror, stream: Toks, s: Screen)
    requires s.Ok() && Watches(m, stream, s)
    ensures Shows(m(stream), s)
  {
    hide Shows;
    assert Shows(m(stream + []), FeedAll(s, []));
    assert stream + [] == stream;
  }

  lemma WatchesOn(m: Mirror, stream: Toks, s: Screen, toks: Toks)
    requires s.Ok() && Watches(m, stream, s)
    ensures Watches(m, stream + toks, FeedAll(s, toks))
  {
    hide Shows, FeedAll;
    forall more: Toks ensures Shows(m(stream + toks + more), FeedAll(FeedAll(s, toks), more)) {
      FeedConcat(s, toks, more);
      assert stream + toks + more == stream + (toks + more);
      assert Shows(m(stream + (toks + more)), FeedAll(s, toks + more));
    }
  }

  // ---- Sampling ------------------------------------------------------------------------------------------

  /** The rows of the region, unstyled. */
  function SampledRows(s: Screen, top: nat): (rows: seq<Toks>)
    requires top <= s.row
    ensures |rows| == s.row - top + 1
  {
    seq(s.row - top, i requires i >= 0 => Chars(At(s, top + i))) + [Chars(TrimEnd(At(s, s.row)))]
  }

  function Sampled(s: Screen): Option<Region> {
    var top, last := Top(s, s.row), TrimEnd(At(s, s.row));
    if s.row in s.wraps then None
    else Some(Region(SampledRows(s, top), |last|, s.col, s.pending, if top > 0 then Some(TrimEnd(At(s, top - 1))) else None))
  }

  /** The cells of a row, one column each. */
  ghost predicate Paints(cells: seq<StyledRows.Cell>, row: string) {
    |cells| == |row| && forall i :: 0 <= i < |cells| ==> !cells[i].spacer && cells[i].c == row[i]
  }

  function ToTok(item: StyledRows.Item): Tok {
    match item
    case Glyph(c) => Ch(c)
    case Sgr(params) => Tok.Sgr(params)
  }

  function ToToks(items: seq<StyledRows.Item>): Toks { seq(|items|, i requires 0 <= i < |items| => ToTok(items[i])) }

  /** Written on a terminal in the default state, `toks` shows the first `n` cells with their styles
      and leaves the default state. */
  ghost predicate ShowsCells(toks: Toks, cells: seq<StyledRows.Cell>, n: nat) {
    exists items :: toks == ToToks(items)
      && StyledRows.Show(items) == StyledRows.Shown(StyledRows.FirstVisible(cells, n), StyledRows.DEFAULT_STYLE)
  }

  function Glyphs(shown: seq<(char, StyledRows.Style)>): (text: string)
    ensures |text| == |shown|
  {
    seq(|shown|, i requires 0 <= i < |shown| => shown[i].0)
  }

  lemma {:induction false} UnstyledIsShown(items: seq<StyledRows.Item>)
    ensures Unstyled(ToToks(items)) == Chars(Glyphs(StyledRows.Show(items).glyphs))
  {
    if items != [] {
      var n := |items| - 1;
      UnstyledIsShown(items[..n]);
      hide StyledRows.Interpret;
      assert ToToks(items)[..n] == ToToks(items[..n]);
    }
  }

  lemma {:induction false} FirstCells(cells: seq<StyledRows.Cell>, n: nat, row: string)
    requires Paints(cells, row) && n <= |row|
    ensures Glyphs(StyledRows.FirstVisible(cells, n)) == row[..n]
  {
    hide StyledRows.StyleOf;
    if n > 0 {
      FirstCells(cells[1..], n - 1, row[1..]);
      assert row[..n] == [row[0]] + row[1..][..n - 1];
    }
  }

  /** A printed row holds the text of its cells. */
  lemma PrintedText(toks: Toks, cells: seq<StyledRows.Cell>, n: nat, row: string)
    requires Paints(cells, row) && n <= |row| && ShowsCells(toks, cells, n)
    ensures Unstyled(toks) == Chars(row[..n])
  {
    hide StyledRows.Show, StyledRows.FirstVisible, Unstyled;
    var items :| toks == ToToks(items)
      && StyledRows.Show(items) == StyledRows.Shown(StyledRows.FirstVisible(cells, n), StyledRows.DEFAULT_STYLE);
    UnstyledIsShown(items);
    FirstCells(cells, n, row);
  }

  /** How much of a row is sampled: rows that wrap onward whole, the cursor's row up to its text. */
  function SampledChars(s: Screen, r: nat): nat { if r < s.row then s.width else |TrimEnd(At(s, s.row))| }

  /** The rows sampled show the cells with their styles. */
  ghost predicate StylesSampled(rows: seq<Toks>, s: Screen, top: nat, styled: nat -> seq<StyledRows.Cell>) {
    forall i: nat :: i < |rows| ==> ShowsCells(rows[i], styled(top + i), SampledChars(s, top + i))
  }

  /** The live line of a screen whose rows have the given cells; nothing on the alternate screen. */
  method SampleLiveRegion(s: Screen, styled: nat -> seq<StyledRows.Cell>, alternate: bool) returns (live: Option<Region>)
    requires s.Ok() && forall r: nat :: Paints(styled(r), At(s, r))
    ensures live.None? <==> alternate || s.row in s.wraps
    ensures live.Some? ==> Samples(live.value, s) && StylesSampled(live.value.styledRows, s, Top(s, s.row), styled)
  {
    hide At, TrimEnd, ShowsCells;
    if alternate {
      return None;
    }
    if s.row in s.wraps {
      return None;
    }
    var top: nat := s.row;
    while top > 0 && top - 1 in s.wraps
      invariant top <= s.row && Top(s, top) == Top(s, s.row)
    {
      top := top - 1;
    }
    var rows: seq<Toks> := [];
    for row := top to s.row + 1
      invariant |rows| == row - top && StylesSampled(rows, s, top, styled)
    {
      var visible := if row < s.row then s.width else |TrimEnd(At(s, row))|;
      var items := StyledRows.RowStyled(styled(row), visible);
      assert ShowsCells(ToToks(items), styled(row), visible) by { ShowsItems(items, styled(row), visible); }
      rows := rows + [ToToks(items)];
    }
    var above := if top > 0 then Some(TrimEnd(At(s, top - 1))) else None;
    live := Some(Region(rows, |TrimEnd(At(s, s.row))|, s.col, s.pending, above));
    StyledIsSampled(live.value, s, styled);
  }

  lemma ShowsItems(items: seq<StyledRows.Item>, cells: seq<StyledRows.Cell>, n: nat)
    requires StyledRows.Show(items) == StyledRows.Shown(StyledRows.FirstVisible(cells, n), StyledRows.DEFAULT_STYLE)
    ensures ShowsCells(ToToks(items), cells, n)
  {
  }

  lemma StyledIsSampled(region: Region, s: Screen, styled: nat -> seq<StyledRows.Cell>)
    requires s.Ok() && forall r: nat :: Paints(styled(r), At(s, r))
    requires var top := Top(s, s.row);
             && |region.styledRows| == s.row - top + 1 && StylesSampled(region.styledRows, s, top, styled)
             && region == Region(region.styledRows, |TrimEnd(At(s, s.row))|, s.col, s.pending,
                                 if top > 0 then Some(TrimEnd(At(s, top - 1))) else None)
    ensures Samples(region, s)
  {
    hide TrimEnd, ShowsCells, Unstyled, Paints, At;
    var top, rows := Top(s, s.row), region.styledRows;
    forall i: nat | i < |rows|
      ensures Unstyled(rows[i]) == Chars(if top + i < s.row then At(s, top + i) else TrimEnd(At(s, s.row)))
    {
      PrintedRow(rows[i], s, top + i, styled(top + i));
    }
  }

  lemma PrintedRow(toks: Toks, s: Screen, r: nat, cells: seq<StyledRows.Cell>)
    requires s.Ok() && r <= s.row && Paints(cells, At(s, r)) && ShowsCells(toks, cells, SampledChars(s, r))
    ensures Unstyled(toks) == Chars(if r < s.row then At(s, r) else TrimEnd(At(s, s.row)))
  {
    hide TrimEnd, ShowsCells, Unstyled, Paints;
    RowLength(s, r);
    PrintedText(toks, cells, SampledChars(s, r), At(s, r));
    assert At(s, r)[..s.width] == At(s, r);
    assert TrimEnd(At(s, s.row)) <= At(s, s.row);
  }

  lemma RowLength(s: Screen, r: nat)
    requires s.Ok()
    ensures |At(s, r)| == s.width && SampledChars(s, r) <= s.width
  {
    assert |At(s, s.row)| == s.width;
  }

  lemma {:induction false} NothingStyled(text: string)
    ensures Unstyled(Chars(text)) == Chars(text)
  {
    if text != [] {
      var n := |text| - 1;
      assert Chars(text)[..n] == Chars(text[..n]);
      NothingStyled(text[..n]);
    }
  }

  lemma SampledShows(s: Screen, restingPrompt: bool, atLineStart: bool)
    ensures Shows(View(restingPrompt, atLineStart, Sampled(s), Probe(s)), s)
  {
    hide Unstyled, At, TrimEnd;
    var top := Top(s, s.row);
    var rows := SampledRows(s, top);
    NothingStyled(TrimEnd(At(s, s.row)));
    forall i | 0 <= i < |rows| - 1 ensures Unstyled(rows[i]) == Chars(At(s, top + i)) {
      NothingStyled(At(s, top + i));
    }
  }

  /** Whatever the terminal shows, there is a mirror that reports it from then on. */
  lemma SomeMirrorWatches(stream: Toks, s: Screen, restingPrompt: bool) returns (m: Mirror)
    requires s.Ok()
    ensures Watches(m, stream, s) && m(stream).restingPrompt == restingPrompt
  {
    hide Shows, Sampled, FeedAll, Probe;
    m := (toks: Toks) =>
      var t := if |stream| <= |toks| then FeedAll(s, toks[|stream|..]) else s;
      View(restingPrompt, false, Sampled(t), Probe(t));
    forall more: Toks ensures Shows(m(stream + more), FeedAll(s, more)) {
      assert (stream + more)[|stream|..] == more;
      SampledShows(FeedAll(s, more), restingPrompt, false);
    }
  }

  // ---- The live line ----------------------------------------------------------------------------------

  /** The rows of the line, and the cursor on the last one with its pending wrap. */
  datatype Live = Live(rows: seq<string>, col: nat, pending: bool)
  {
    function Last(): string
      requires rows != []
    {
      rows[|rows| - 1]
    }

    ghost predicate Ok(width: nat) {
      && rows != [] && col < width && (pending ==> col == width - 1)
      && forall i :: 0 <= i < |rows| ==> |rows[i]| == width && NoBreaks(rows[i])
    }

    /** What drawing the line again depends on: blanks after the text, a cursor at or past the end
        of the text with at least one column on the last of several rows, and a wrap pending
        exactly if the text fills its last row. */
    ghost predicate Restorable(width: nat)
      requires Ok(width)
    {
      var m := |TrimEnd(Last())|;
      && Last()[m..] == Blank(width - m)
      && (m <= col || (m == width && col == width - 1))
      && (|rows| > 1 ==> m > 0 || col > 0)
      && (pending <==> m == width)
    }
  }

  predicate NoBreaks(row: string) { '\r' !in row && '\n' !in row }

  /** The screen ends in the live line, drawn from row `top` on, and the cursor is on it. */
  ghost predicate LiveAt(s: Screen, live: Live, top: nat) {
    && Open(s)
    && s.row == top + |live.rows| - 1 && s.col == live.col && s.pending == live.pending
    && (forall i: nat :: i < |live.rows| ==> At(s, top + i) == live.rows[i])
    && (forall r: nat :: top <= r < s.row ==> r in s.wraps)
    && (top > 0 ==> top - 1 !in s.wraps)
  }

  /** The region holds the line. */
  ghost predicate Holds(region: Region, live: Live)
    requires live.rows != []
  {
    var n := |live.rows|;
    && |region.styledRows| == n
    && (forall i :: 0 <= i < n - 1 ==> Unstyled(region.styledRows[i]) == Chars(live.rows[i]))
    && Unstyled(region.styledRows[n - 1]) == Chars(TrimEnd(live.Last()))
    && region.lastRowChars == |TrimEnd(live.Last())|
    && region.cursorCol == live.col && region.needsWrap == live.pending
  }

  lemma {:induction false} TopIs(s: Screen, top: nat, r: nat)
    requires top <= r && (forall i: nat :: top <= i < r ==> i in s.wraps) && (top > 0 ==> top - 1 !in s.wraps)
    ensures Top(s, r) == top
  {
    if r > top { TopIs(s, top, r - 1); }
  }

  lemma SampledLive(s: Screen, live: Live, top: nat, region: Region)
    requires live.rows != [] && LiveAt(s, live, top) && Samples(region, s)
    ensures Holds(region, live)
    ensures region.rowAbove == if top > 0 then Some(TrimEnd(At(s, top - 1))) else None
  {
    hide At, TrimEnd, Unstyled;
    TopIs(s, top, s.row);
    var n := |live.rows|;
    assert At(s, top + (n - 1)) == live.rows[n - 1];
    forall i | 0 <= i < n - 1 ensures Unstyled(region.styledRows[i]) == Chars(live.rows[i]) {
      assert At(s, top + i) == live.rows[i];
    }
  }

  ghost predicate SameAbove(s: Screen, t: Screen, top: nat) {
    && t.width == s.width
    && forall r: nat :: r < top ==> At(t, r) == At(s, r) && (r in t.wraps <==> r in s.wraps)
  }

  // ---- Erasing ------------------------------------------------------------------------------------------

  /** Everything from row `top` on is blank and the cursor is at its start. */
  ghost predicate Lifted(t: Screen, top: nat) {
    Open(t) && t.row == top && t.col == 0 && !t.pending && At(t, top) == Blank(t.width)
  }

  lemma LiftedOk(t: Screen, top: nat)
    requires Lifted(t, top)
    ensures t.Ok()
  {
  }

  lemma EraseRow(s: Screen, t: Screen, top: nat)
    requires s.Ok() && s.row == top && s.col == 0 && !s.pending && t == Feed(s, El)
    requires forall r: nat :: top < r ==> At(s, r) == Blank(s.width) && r !in s.wraps
    ensures Lifted(t, top) && SameAbove(s, t, top)
  {
    var cells := At(s, s.row)[..s.col] + Blank(s.width - s.col);
    assert cells == Blank(s.width);
    SetRowAt(s, s.row, cells);
    var u := SetRow(s, s.row, cells);
    hide SetRow;
    assert forall r: nat :: At(t, r) == At(u, r);
  }

  lemma {:induction false} ErasesAbove(s: Screen, top: nat, k: nat)
    requires Lifted(s, top) && k <= top
    ensures var t := FeedAll(s, EraseAbove(k)); Lifted(t, top - k) && SameAbove(s, t, top - k)
  {
    hide At, Feed, Open;
    assert s.Ok() by { LiftedOk(s, top); }
    if k == 0 {
      assert FeedAll(s, []) == s;
    } else {
      hide FeedAll;
      ErasesAbove(s, top, k - 1);
      var t := FeedAll(s, EraseAbove(k - 1));
      FeedConcat(s, EraseAbove(k - 1), [Cuu, El]);
      FeedTwo(t, Cuu, El);
      EraseStep(t, top - k);
    }
  }

  lemma EraseStep(t: Screen, r: nat)
    requires Lifted(t, r + 1)
    ensures var t' := Feed(Feed(t, Cuu), El); Lifted(t', r) && SameAbove(t, t', r)
  {
    var up := Feed(t, Cuu);
    assert forall i: nat :: At(up, i) == At(t, i);
    EraseRow(up, Feed(up, El), r);
  }

  lemma ErasesRegion(s: Screen, live: Live, top: nat, region: Region)
    requires live.rows != [] && LiveAt(s, live, top) && |region.styledRows| == |live.rows|
    ensures var t := FeedAll(s, EraseRegion(region)); Lifted(t, top) && SameAbove(s, t, top)
  {
    var n := |live.rows|;
    hide At, Feed, FeedAll, Open, Lifted, EraseAbove;
    OpenOk(s);
    var t := Feed(Feed(s, Ch('\r')), El);
    EraseCursorRow(s, t);
    FeedTwo(s, Ch('\r'), El);
    FeedConcat(s, [Ch('\r'), El], EraseAbove(n - 1));
    ErasesAbove(t, s.row, n - 1);
  }

  lemma EraseCursorRow(s: Screen, t: Screen)
    requires Open(s) && t == Feed(Feed(s, Ch('\r')), El)
    ensures Lifted(t, s.row) && SameAbove(s, t, s.row)
  {
    var home := Feed(s, Ch('\r'));
    assert forall r: nat :: At(home, r) == At(s, r);
    EraseRow(home, t, s.row);
  }

  // ---- Drawing a row --------------------------------------------------------------------------------------

  /** `u` printed from the start of the cursor's row. */
  ghost predicate Printed(x: Screen, y: Screen, u: string)
    requires x.Ok() && |u| <= x.width
  {
    && y.Ok() && y.width == x.width && y.row == x.row
    && (forall r: nat :: At(y, r) == if r == x.row then u + At(x, r)[|u|..] else At(x, r))
    && (if |u| < x.width then y.col == |u| && !y.pending else y.col == x.width - 1 && y.pending)
    && (forall r: nat :: r != x.row ==> (r in y.wraps <==> r in x.wraps))
  }

  lemma {:induction false} PrintsRow(x: Screen, u: string)
    requires x.Ok() && x.col == 0 && !x.pending && |u| <= x.width && NoBreaks(u)
    ensures Printed(x, FeedAll(x, Chars(u)), u)
  {
    hide SetRow, Blank;
    if u != [] {
      var n := |u| - 1;
      PrintsRow(x, u[..n]);
      assert Chars(u)[..n] == Chars(u[..n]);
      var y := FeedAll(x, Chars(u[..n]));
      FeedAt(y, Ch(u[n]));
      PrintsOne(x, y, u);
    } else {
      assert Chars(u) == [];
    }
  }

  lemma PrintsOne(x: Screen, y: Screen, u: string)
    requires x.Ok() && 0 < |u| <= x.width && NoBreaks(u) && Printed(x, y, u[..|u| - 1])
    ensures Printed(x, Feed(y, Ch(u[|u| - 1])), u)
  {
    hide SetRow, Blank;
    var n := |u| - 1;
    PrintAt(y, u[n]);
    var z := Print(y, u[n]);
    hide Print;
    assert u[n] in u;
    assert z == Feed(y, Ch(u[n]));
    forall r: nat ensures At(z, r) == if r == x.row then u + At(x, r)[|u|..] else At(x, r) {
      if r == x.row {
        assert (u[..n] + At(x, r)[n..])[n := u[n]] == u + At(x, r)[|u|..];
      }
    }
  }

  /** A pending wrap takes effect with the first character. */
  lemma WrapsFirst(x: Screen, u: string)
    requires x.Ok() && u != [] && Prints(Ch(u[0]))
    ensures Wrapped(x).Ok() && FeedAll(x, Chars(u)) == FeedAll(Wrapped(x), Chars(u))
  {
    var first, rest := [Ch(u[0])], Chars(u[1..]);
    assert Chars(u) == first + rest;
    FeedConcat(x, first, rest);
    FeedConcat(Wrapped(x), first, rest);
    FeedOne(x, Ch(u[0]));
    FeedOne(Wrapped(x), Ch(u[0]));
  }

  // ---- Drawing the line ------------------------------------------------------------------------------------

  /** The first `k` rows of the line are drawn from row `top` on; the next character starts row `k`. */
  ghost predicate Drawing(t: Screen, y: Screen, live: Live, top: nat, k: nat)
    requires k <= |live.rows|
  {
    && Open(y) && SameAbove(t, y, top)
    && (if k == 0 then Lifted(y, top) else y.row == top + k - 1 && y.col == y.width - 1 && y.pending)
    && (forall i: nat :: i < k ==> At(y, top + i) == live.rows[i])
    && (forall r: nat :: top <= r < y.row ==> r in y.wraps)
  }

  /** `u` follows the `k` rows drawn so far. */
  ghost predicate Continued(t: Screen, z: Screen, live: Live, top: nat, k: nat, u: string)
    requires k <= |live.rows|
  {
    && Open(z) && SameAbove(t, z, top) && |u| <= z.width
    && z.row == top + k
    && (if |u| < z.width then z.col == |u| && !z.pending else z.col == z.width - 1 && z.pending)
    && (forall i: nat :: i < k ==> At(z, top + i) == live.rows[i])
    && At(z, top + k) == u + Blank(z.width - |u|)
    && (forall r: nat :: top <= r < z.row ==> r in z.wraps)
  }

  lemma WrapsOn(t: Screen, y: Screen, live: Live, top: nat, k: nat)
    requires k <= |live.rows| && Drawing(t, y, live, top, k)
    ensures Continued(t, Wrapped(y), live, top, k, [])
  {
    var w := Wrapped(y);
    assert forall r: nat :: At(w, r) == At(y, r);
    assert [] + Blank(w.width) == Blank(w.width);
    hide At, Blank;
  }

  lemma DrawsOn(t: Screen, y: Screen, live: Live, top: nat, k: nat, u: string)
    requires k <= |live.rows| && Drawing(t, y, live, top, k)
    requires 0 < |u| <= t.width && NoBreaks(u)
    ensures Continued(t, FeedAll(y, Chars(u)), live, top, k, u)
  {
    hide Feed, FeedAll, At, Blank;
    WrapsFirst(y, u);
    WrapsOn(t, y, live, top, k);
    var w := Wrapped(y);
    TextFrame(w, Chars(u));
    PrintsRow(w, u);
    BlankAfter(w.width, |u|);
    RowStarts(w, FeedAll(w, Chars(u)), u);
  }

  lemma RowStarts(w: Screen, z: Screen, u: string)
    requires w.Ok() && |u| <= w.width && Printed(w, z, u) && At(w, w.row) == [] + Blank(w.width)
    ensures At(z, w.row) == u + Blank(w.width - |u|)
  {
    assert ([] + Blank(w.width))[|u|..] == Blank(w.width - |u|);
  }

  lemma BlankAfter(n: nat, k: nat)
    requires k <= n
    ensures Blank(n)[k..] == Blank(n - k)
  {
  }

  lemma {:induction false} DrawsRows(t: Screen, live: Live, top: nat, region: Region, k: nat)
    requires Lifted(t, top) && live.Ok(t.width) && Holds(region, live) && k < |live.rows|
    ensures Drawing(t, FeedAll(t, Joined(region.styledRows[..k])), live, top, k)
  {
    hide Feed, At, Blank, TrimEnd, Unstyled;
    if k > 0 {
      var front, row := region.styledRows[..k - 1], region.styledRows[k - 1];
      assert region.styledRows[..k][..k - 1] == front;
      DrawsRows(t, live, top, region, k - 1);
      var y := FeedAll(t, Joined(front));
      FeedConcat(t, Joined(front), row);
      StylingMovesNothing(y, row);
      DrawsOn(t, y, live, top, k - 1, live.rows[k - 1]);
      RowDone(t, FeedAll(y, row), live, top, k);
    }
  }

  lemma RowDone(t: Screen, z: Screen, live: Live, top: nat, k: nat)
    requires 0 < k <= |live.rows| && live.Ok(t.width) && Continued(t, z, live, top, k - 1, live.rows[k - 1])
    ensures Drawing(t, z, live, top, k)
  {
    hide At;
    assert Blank(0) == [];
    assert live.rows[k - 1] + [] == live.rows[k - 1];
  }

  lemma {:induction false} SpacesAreBlank(n: nat)
    ensures Spaces(n) == Chars(Blank(n))
  {
    if n > 0 { SpacesAreBlank(n - 1); }
  }

  /** What is drawn on the last row. */
  function LastText(live: Live): string
    requires live.rows != []
  {
    var m := |TrimEnd(live.Last())|;
    TrimEnd(live.Last()) + Blank(if m < live.col then live.col - m else 0)
  }

  lemma DrawsLast(y: Screen, live: Live, region: Region)
    requires y.Ok() && live.rows != [] && Holds(region, live)
    ensures var last := region.styledRows[|live.rows| - 1];
            FeedAll(FeedAll(y, last), Spaces(region.cursorCol - region.lastRowChars)) == FeedAll(y, Chars(LastText(live)))
  {
    hide Feed, FeedAll, TrimEnd, Unstyled, Blank;
    var last := region.styledRows[|live.rows| - 1];
    var pad := region.cursorCol - region.lastRowChars;
    var trimmed, blanks := TrimEnd(live.Last()), Blank(if pad > 0 then pad else 0);
    StylingMovesNothing(y, last);
    SpacesAreBlank(if pad > 0 then pad else 0);
    FeedConcat(y, Chars(trimmed), Chars(blanks));
    assert Chars(trimmed) + Chars(blanks) == Chars(trimmed + blanks);
  }

  /** The line as a redraw leaves it: the text of its last row padded up to the cursor, blanks after
      it, the cursor behind it, and a wrap pending exactly if it fills the row.  With nothing to
      draw on the last of several rows, that row is gone and the wrap onto it is pending. */
  function Settled(live: Live, width: nat): Live {
    if live.rows == [] then live
    else
      var front, u := live.rows[..|live.rows| - 1], LastText(live);
      if u == [] && front != [] then Live(front, if width > 0 then width - 1 else 0, true)
      else if |u| < width then Live(front + [u + Blank(width - |u|)], |u|, false)
      else Live(front + [u], if width > 0 then width - 1 else 0, true)
  }

  lemma SettledOk(live: Live, width: nat)
    requires live.Ok(width)
    ensures Settled(live, width).Ok(width)
  {
    LastTextFits(live, width);
    hide LastText;
    var u := LastText(live);
    if |u| < width { assert NoBreaks(u + Blank(width - |u|)); }
  }

  /** Main theorem: whatever the line and wherever the cursor on it, drawing it again below `top`
      changes nothing above and leaves the settled line. */
  lemma RestoresSettled(t: Screen, live: Live, top: nat, region: Region)
    requires Lifted(t, top) && live.Ok(t.width) && Holds(region, live) && (top > 0 ==> top - 1 !in t.wraps)
    ensures var z := FeedAll(t, RestoreRegion(region)); SameAbove(t, z, top) && LiveAt(z, Settled(live, t.width), top)
  {
    hide Feed, FeedAll, At, TrimEnd, Unstyled, Blank, Joined, Spaces, RestoreRegion, LastText, Holds, Open, Settled;
    LiftedOk(t, top);
    var n := |live.rows|;
    HoldsCount(region, live);
    var y := FeedAll(t, Joined(region.styledRows[..n - 1]));
    DrawsRows(t, live, top, region, n - 1);
    RestoresInParts(t, live, region);
    LastTextFits(live, t.width);
    if LastText(live) == [] {
      assert Chars([]) == [] && FeedAll(y, []) == y by { FeedNone(y); }
      NothingLast(t, y, live, top);
    } else {
      DrawsOn(t, y, live, top, n - 1, LastText(live));
      LastDone(t, FeedAll(y, Chars(LastText(live))), live, top);
    }
  }

  /** The line stays as it is exactly when it is restorable. */
  lemma SettledIff(live: Live, width: nat)
    requires live.Ok(width)
    ensures Settled(live, width) == live <==> live.Restorable(width)
  {
    LastTextFits(live, width);
    LastCells(live, width);
    hide TrimEnd, Blank, LastText;
    var n := |live.rows|;
    assert live.rows == live.rows[..n - 1] + [live.Last()];
    assert LastText(live) + Blank(0) == LastText(live) by { BlankAfter(0, 0); NoBlank(); }
  }

  lemma NoBlank()
    ensures Blank(0) == []
  {
  }

  /** Drawing the line again below `top`: the line comes back exactly when it is restorable. */
  lemma RestoresIff(t: Screen, live: Live, top: nat, region: Region)
    requires Lifted(t, top) && live.Ok(t.width) && Holds(region, live) && (top > 0 ==> top - 1 !in t.wraps)
    ensures var z := FeedAll(t, RestoreRegion(region));
            && SameAbove(t, z, top)
            && (LiveAt(z, live, top) <==> live.Restorable(t.width))
  {
    hide FeedAll, RestoreRegion, LiveAt, Holds, Settled;
    LiftedOk(t, top);
    RestoresSettled(t, live, top, region);
    SettledIff(live, t.width);
    SettledOk(live, t.width);
    OneLiveAt(FeedAll(t, RestoreRegion(region)), live, Settled(live, t.width), top);
  }

  lemma OneLiveAt(s: Screen, a: Live, b: Live, top: nat)
    requires a.rows != [] && b.rows != []
    ensures LiveAt(s, a, top) && LiveAt(s, b, top) ==> a == b
  {
    hide At;
    if LiveAt(s, a, top) && LiveAt(s, b, top) {
      assert |a.rows| == |b.rows|;
      forall i | 0 <= i < |a.rows| ensures a.rows[i] == b.rows[i] { assert At(s, top + i) == a.rows[i]; }
      assert a.rows == b.rows;
    }
  }

  /** From then on every redraw gives the line back, unless its last row is gone. */
  lemma SettledStays(live: Live, width: nat)
    requires live.Ok(width) && (|live.rows| > 1 ==> LastText(live) != [])
    ensures Settled(live, width).Ok(width) && Settled(live, width).Restorable(width)
  {
    SettledOk(live, width);
    LastTextFits(live, width);
    var trimmed := TrimEnd(live.Last());
    SettledLast(live, width);
    TrimmedBlank(live.Last(), width - |trimmed|);
    assert (trimmed + Blank(width - |trimmed|))[|trimmed|..] == Blank(width - |trimmed|);
    hide TrimEnd, LastText, Blank;
  }

  lemma SettledLast(live: Live, width: nat)
    requires live.Ok(width) && (|live.rows| > 1 ==> LastText(live) != [])
    ensures var trimmed, back := TrimEnd(live.Last()), Settled(live, width);
            && |trimmed| <= width && back.rows != [] && back.Last() == trimmed + Blank(width - |trimmed|)
  {
    LastTextFits(live, width);
    hide TrimEnd;
  }

  lemma {:induction false} TrimmedBlank(s: string, k: nat)
    ensures TrimEnd(TrimEnd(s) + Blank(k)) == TrimEnd(s)
  {
    if k > 0 {
      var t := TrimEnd(s) + Blank(k);
      assert t[..|t| - 1] == TrimEnd(s) + Blank(k - 1);
      TrimmedBlank(s, k - 1);
    } else {
      assert TrimEnd(s) + Blank(0) == TrimEnd(s);
      TrimmedTwice(s);
    }
  }

  lemma {:induction false} TrimmedTwice(s: string)
    ensures TrimEnd(TrimEnd(s)) == TrimEnd(s)
  {
    if s != [] && IsWhitespace(s[|s| - 1]) { TrimmedTwice(s[..|s| - 1]); }
  }

  /** A wrap is lost after a blank typed up to the margin, and gained when the cursor has come to
      rest on the last character of a full row; the next character then lands on another row. */
  lemma WrapLostOrGained(width: nat, text: string, s: Screen, z: Screen, top: nat, c: char)
    requires |text| == width > 0 && NoBreaks(text) && Prints(Ch(c))
    requires TrimEnd(text) == text || (TrimEnd(text) == text[..width - 1] && text[width - 1] == ' ')
    ensures var full := TrimEnd(text) == text;
            var live := Live([text], width - 1, !full);
            && live.Ok(width) && !live.Restorable(width) && live.(pending := full).Restorable(width)
            && (LiveAt(s, live, top) && LiveAt(z, live.(pending := full), top) ==>
                  Feed(s, Ch(c)).row != Feed(z, Ch(c)).row)
  {
    hide At, TrimEnd;
    var live := Live([text], width - 1, TrimEnd(text) != text);
    assert live.Last() == text;
    assert [text[width - 1]] == text[width - 1..];
    if LiveAt(s, live, top) && LiveAt(z, live.(pending := !live.pending), top) {
      FeedAt(s, Ch(c));
      FeedAt(z, Ch(c));
    }
  }

  /** Such lines on a terminal three columns wide. */
  lemma AtTheMargin()
    ensures var typed, resting := Live(["ab "], 2, true), Live(["abc"], 2, false);
            && typed.Ok(3) && !typed.Restorable(3) && typed.(pending := false).Restorable(3)
            && resting.Ok(3) && !resting.Restorable(3) && resting.(pending := true).Restorable(3)
  {
    assert "ab "[..2] == "ab" && TrimEnd("ab") == "ab" && TrimEnd("ab ") == "ab" && TrimEnd("abc") == "abc";
    var s := Screen(3, [], {}, 0, 0, false);
    WrapLostOrGained(3, "ab ", s, s, 0, 'x');
    WrapLostOrGained(3, "abc", s, s, 0, 'x');
  }

  lemma HoldsCount(region: Region, live: Live)
    requires live.rows != [] && Holds(region, live)
    ensures |region.styledRows| == |live.rows|
  {
  }

  lemma FeedNone(y: Screen)
    requires y.Ok()
    ensures FeedAll(y, []) == y
  {
  }

  lemma RestoresInParts(t: Screen, live: Live, region: Region)
    requires t.Ok() && live.rows != [] && Holds(region, live)
    ensures FeedAll(t, RestoreRegion(region))
         == FeedAll(FeedAll(t, Joined(region.styledRows[..|live.rows| - 1])), Chars(LastText(live)))
  {
    hide Feed, FeedAll, LastText, Holds, Joined, Spaces;
    var n := |live.rows|;
    HoldsCount(region, live);
    var front, last := Joined(region.styledRows[..n - 1]), region.styledRows[n - 1];
    var spaces := Spaces(region.cursorCol - region.lastRowChars);
    JoinedLast(region.styledRows);
    assert RestoreRegion(region) == front + last + spaces;
    hide *;
    FeedThree(t, front, last, spaces);
    DrawsLast(FeedAll(t, front), live, region);
  }

  lemma JoinedLast(rows: seq<Toks>)
    requires rows != []
    ensures Joined(rows) == Joined(rows[..|rows| - 1]) + rows[|rows| - 1]
  {
  }

  lemma LastTextFits(live: Live, width: nat)
    requires live.Ok(width)
    ensures |LastText(live)| <= width && NoBreaks(LastText(live))
    ensures |LastText(live)| == if |TrimEnd(live.Last())| < live.col then live.col else |TrimEnd(live.Last())|
  {
    hide TrimEnd;
    var trimmed := TrimEnd(live.Last());
    assert trimmed <= live.Last();
    assert forall i :: 0 <= i < |trimmed| ==> trimmed[i] == live.Last()[i];
  }

  lemma NothingLast(t: Screen, y: Screen, live: Live, top: nat)
    requires live.Ok(t.width) && LastText(live) == [] && (top > 0 ==> top - 1 !in t.wraps)
    requires Drawing(t, y, live, top, |live.rows| - 1)
    ensures SameAbove(t, y, top) && LiveAt(y, Settled(live, t.width), top)
  {
    hide At, Blank, LastText;
    if |live.rows| == 1 {
      assert [] + Blank(t.width) == Blank(t.width);
      assert At(y, top + 0) == Blank(t.width);
    }
  }

  lemma LastDone(t: Screen, z: Screen, live: Live, top: nat)
    requires live.Ok(t.width) && LastText(live) != [] && (top > 0 ==> top - 1 !in t.wraps)
    requires Continued(t, z, live, top, |live.rows| - 1, LastText(live))
    ensures SameAbove(t, z, top) && LiveAt(z, Settled(live, t.width), top)
  {
    var u := LastText(live);
    assert u + Blank(0) == u;
    hide At, Blank, LastText;
  }

  lemma LastCells(live: Live, width: nat)
    requires live.Ok(width) && |LastText(live)| <= width
    ensures var m := |TrimEnd(live.Last())|;
            LastText(live) + Blank(width - |LastText(live)|) == live.Last() <==> live.Last()[m..] == Blank(width - m)
  {
    var last, trimmed := live.Last(), TrimEnd(live.Last());
    hide TrimEnd;
    var m := |trimmed|;
    assert last == trimmed + last[m..];
    var cells := LastText(live) + Blank(width - |LastText(live)|);
    assert cells == trimmed + Blank(width - m);
    assert (trimmed + last[m..])[m..] == last[m..];
    assert (trimmed + Blank(width - m))[m..] == Blank(width - m);
  }
}
