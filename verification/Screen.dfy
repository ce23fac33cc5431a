/** A small terminal: rows of a fixed width growing downwards without end, a cursor with pending
    wrap, and a wrap flag per row.  Characters are one column wide. */
module Screens {
  import opened Common
  import opened TerminalStreams

  /** `wraps` are the rows whose last cell carries the flag of a soft wrap into the next row. */
  datatype Screen = Screen(width: nat, rows: seq<string>, wraps: set<nat>, row: nat, col: nat, pending: bool)
  {
    ghost predicate Ok() {
      && width > 0 && col < width && (pending ==> col == width - 1)
      && forall r :: 0 <= r < |rows| ==> |rows[r]| == width
    }
  }

  function Blank(n: nat): (s: string)
    ensures |s| == n && forall i :: 0 <= i < n ==> s[i] == ' '
  {
    seq(n, i => ' ')
  }

  /** The cells of a row; rows never written are blank. */
  function At(s: Screen, r: nat): string { if r < |s.rows| then s.rows[r] else Blank(s.width) }

  function SetRow(s: Screen, r: nat, cells: string): Screen {
    s.(rows := seq(if r < |s.rows| then |s.rows| else r + 1, i requires i >= 0 => if i == r then cells else At(s, i)))
  }

  lemma SetRowAt(s: Screen, r: nat, cells: string)
    requires s.Ok() && |cells| == s.width
    ensures SetRow(s, r, cells).Ok()
    ensures forall i: nat :: At(SetRow(s, r, cells), i) == if i == r then cells else At(s, i)
  {
  }

  // ---- Control functions -----------------------------------------------------------------------------

  /** Writes a character at the cursor; the last column sets pending wrap. */
  function Print(s: Screen, c: char): Screen
    requires s.Ok()
  {
    var t := SetRow(s, s.row, At(s, s.row)[s.col := c]);
    if s.col == s.width - 1 then t.(wraps := s.wraps - {s.row}, pending := true) else t.(col := s.col + 1)
  }

  /** A pending wrap flags its row and continues on the next one. */
  function Wrapped(s: Screen): Screen {
    if s.pending then s.(wraps := s.wraps + {s.row}, row := s.row + 1, col := 0, pending := false) else s
  }

  function Erased(s: Screen): Screen
    requires s.Ok()
  {
    SetRow(s, s.row, At(s, s.row)[..s.col] + Blank(s.width - s.col)).(wraps := s.wraps - {s.row})
  }

  function Feed(s: Screen, t: Tok): (s': Screen)
    requires s.Ok()
    ensures s'.Ok() && s'.width == s.width
  {
    match t
    case Ch(c) =>
      if c == '\r' then s.(col := 0, pending := false)
      else if c == '\n' then s.(row := s.row + 1)
      else Print(Wrapped(s), c)
    case Cuu => s.(row := if s.row > 0 then s.row - 1 else 0, pending := false)
    case Cha(n) => s.(col := if n == 0 then 0 else if n > s.width then s.width - 1 else n - 1, pending := false)
    case El => Erased(s)
    case Sgr(_) => s
    case Raw(_) => s
  }

  function FeedAll(s: Screen, toks: Toks): (s': Screen)
    requires s.Ok()
    ensures s'.Ok() && s'.width == s.width
  {
    if toks == [] then s else Feed(FeedAll(s, toks[..|toks| - 1]), toks[|toks| - 1])
  }

  lemma {:induction false} FeedConcat(s: Screen, a: Toks, b: Toks)
    requires s.Ok()
    ensures FeedAll(s, a + b) == FeedAll(FeedAll(s, a), b)
  {
    hide Feed;
    if b == [] {
      assert a + b == a;
    } else {
      assert (a + b)[..|a| + |b| - 1] == a + b[..|b| - 1];
      FeedConcat(s, a, b[..|b| - 1]);
    }
  }

  lemma FeedThree(s: Screen, a: Toks, b: Toks, c: Toks)
    requires s.Ok()
    ensures FeedAll(s, a + b + c) == FeedAll(FeedAll(FeedAll(s, a), b), c)
  {
    hide Feed, FeedAll;
    FeedConcat(s, a + b, c);
    FeedConcat(s, a, b);
  }

  lemma FeedOne(s: Screen, t: Tok)
    requires s.Ok()
    ensures FeedAll(s, [t]) == Feed(s, t)
  {
    assert [t][..0] == [];
  }

  lemma FeedTwo(s: Screen, t: Tok, u: Tok)
    requires s.Ok()
    ensures FeedAll(s, [t, u]) == Feed(Feed(s, t), u)
  {
    assert [t, u][..1] == [t];
    FeedOne(s, t);
  }

  /** Styling does not move anything. */
  function Unstyled(toks: Toks): Toks {
    if toks == [] then []
    else Unstyled(toks[..|toks| - 1]) + if toks[|toks| - 1].Sgr? then [] else [toks[|toks| - 1]]
  }

  lemma {:induction false} StylingMovesNothing(s: Screen, toks: Toks)
    requires s.Ok()
    ensures FeedAll(s, Unstyled(toks)) == FeedAll(s, toks)
  {
    if toks != [] {
      var front, last := toks[..|toks| - 1], toks[|toks| - 1];
      StylingMovesNothing(s, front);
      if last.Sgr? {
        assert Unstyled(front) + [] == Unstyled(front);
      } else {
        assert (Unstyled(front) + [last])[..|Unstyled(front)|] == Unstyled(front);
      }
    }
  }

  predicate Prints(t: Tok) { t.Ch? && t.c != '\r' && t.c != '\n' }

  // ---- Text ---------------------------------------------------------------------------------------------

  /** Text and styling: what never moves the cursor up. */
  predicate IsText(toks: Toks) { forall i :: 0 <= i < |toks| ==> toks[i].Ch? || toks[i].Sgr? }

  /** From the cursor's row on no row wraps, and below it everything is blank. */
  ghost predicate Open(s: Screen) {
    && s.Ok()
    && (forall r: nat :: s.row <= r ==> r !in s.wraps)
    && (forall r: nat :: s.row < r ==> At(s, r) == Blank(s.width))
  }

  lemma PrintAt(s: Screen, c: char)
    requires s.Ok()
    ensures forall r: nat :: At(Print(s, c), r) == if r == s.row then At(s, r)[s.col := c] else At(s, r)
    ensures var t := Print(s, c);
            && t.row == s.row && t.wraps == (if s.col == s.width - 1 then s.wraps - {s.row} else s.wraps)
            && t.col == (if s.col == s.width - 1 then s.col else s.col + 1)
            && t.pending == (s.pending || s.col == s.width - 1)
  {
    SetRowAt(s, s.row, At(s, s.row)[s.col := c]);
  }

  /** What text changes: one row, at the cursor's column. */
  function Touched(s: Screen, t: Tok, r: nat): string
    requires s.Ok()
  {
    var w := Wrapped(s);
    if Prints(t) && r == w.row then At(s, r)[w.col := t.c] else At(s, r)
  }

  lemma FeedAt(s: Screen, t: Tok)
    requires s.Ok() && (t.Ch? || t.Sgr?)
    ensures forall r: nat :: At(Feed(s, t), r) == Touched(s, t, r)
    ensures var w, s' := Wrapped(s), Feed(s, t);
            && s'.row >= s.row
            && (if Prints(t) then s'.row == w.row && w.wraps - {w.row} <= s'.wraps <= w.wraps else s'.wraps == s.wraps)
  {
    hide SetRow, Blank;
    assert forall r: nat :: At(Wrapped(s), r) == At(s, r);
    if Prints(t) { PrintAt(Wrapped(s), t.c); }
  }

  /** Text leaves the rows above the cursor alone and keeps what is below open. */
  lemma TextStaysBelow(s: Screen, t: Tok)
    requires Open(s) && (t.Ch? || t.Sgr?)
    ensures Open(Feed(s, t)) && Feed(s, t).row >= s.row
    ensures forall r: nat :: r < s.row ==> At(Feed(s, t), r) == At(s, r)
    ensures forall r: nat :: r < s.row ==> (r in Feed(s, t).wraps <==> r in s.wraps)
  {
    hide SetRow, Blank;
    FeedAt(s, t);
    var s' := Feed(s, t);
    forall r: nat | s'.row < r ensures At(s', r) == Blank(s'.width) { assert At(s, r) == Blank(s.width); }
  }

  lemma OpenOk(s: Screen)
    requires Open(s)
    ensures s.Ok()
  {
  }

  lemma {:induction false} TextFrame(s: Screen, toks: Toks)
    requires Open(s) && IsText(toks)
    ensures Open(FeedAll(s, toks)) && FeedAll(s, toks).row >= s.row
    ensures forall r: nat :: r < s.row ==> At(FeedAll(s, toks), r) == At(s, r)
    ensures forall r: nat :: r < s.row ==> (r in FeedAll(s, toks).wraps <==> r in s.wraps)
  {
    hide Feed, Open, At;
    OpenOk(s);
    if toks != [] {
      TextFrame(s, toks[..|toks| - 1]);
      TextStaysBelow(FeedAll(s, toks[..|toks| - 1]), toks[|toks| - 1]);
    }
  }

  /** The cursors are `d` rows apart and otherwise in the same place. */
  predicate Apart(s: Screen, o: Screen, d: nat) {
    s.width == o.width && s.row == o.row + d && s.col == o.col && s.pending == o.pending
  }

  lemma ApartOne(s: Screen, o: Screen, d: nat, t: Tok)
    requires s.Ok() && o.Ok() && Apart(s, o, d) && (t.Ch? || t.Sgr?)
    ensures Apart(Feed(s, t), Feed(o, t), d)
  {
    hide SetRow, Blank;
    if Prints(t) {
      PrintAt(Wrapped(s), t.c);
      PrintAt(Wrapped(o), t.c);
    }
  }

  /** `s` shows from row `base` on what `o` shows from its top, with the cursor in the same place. */
  ghost predicate Shift(s: Screen, o: Screen, base: nat) {
    && Open(s) && Open(o)
    && Apart(s, o, base)
    && forall r: nat :: At(s, base + r) == At(o, r)
  }

  lemma ShiftOne(s: Screen, o: Screen, base: nat, t: Tok)
    requires Shift(s, o, base) && (t.Ch? || t.Sgr?)
    ensures Shift(Feed(s, t), Feed(o, t), base)
  {
    TextStaysBelow(s, t);
    TextStaysBelow(o, t);
    ApartOne(s, o, base, t);
    var s', o' := Feed(s, t), Feed(o, t);
    forall r: nat ensures At(s', base + r) == At(o', r) {
      hide Feed, Open, At;
      FeedAt(s, t);
      FeedAt(o, t);
    }
  }

  /** The same text continues the same picture. */
  lemma {:induction false} ShiftAll(s: Screen, o: Screen, base: nat, toks: Toks)
    requires Shift(s, o, base) && IsText(toks)
    ensures Shift(FeedAll(s, toks), FeedAll(o, toks), base)
  {
    hide Feed, Shift;
    assert s.Ok() && o.Ok() by { ShiftOk(s, o, base); }
    if toks != [] {
      var front := toks[..|toks| - 1];
      ShiftAll(s, o, base, front);
      ShiftOne(FeedAll(s, front), FeedAll(o, front), base, toks[|toks| - 1]);
    }
  }

  lemma ShiftOk(s: Screen, o: Screen, base: nat)
    requires Shift(s, o, base)
    ensures s.Ok() && o.Ok()
  {
  }

  /** Where text takes the cursor depends on the cursor alone. */
  lemma {:induction false} ApartAll(s: Screen, o: Screen, d: nat, toks: Toks)
    requires s.Ok() && o.Ok() && Apart(s, o, d) && IsText(toks)
    ensures Apart(FeedAll(s, toks), FeedAll(o, toks), d)
  {
    hide Feed;
    if toks != [] {
      var front := toks[..|toks| - 1];
      ApartAll(s, o, d, front);
      ApartOne(FeedAll(s, front), FeedAll(o, front), d, toks[|toks| - 1]);
    }
  }
}
