/** The styled-row printer of the terminal mirror, and an SGR interpreter that reads it back. */
module StyledRows {
  import opened Common

  datatype Color = Named(name: nat) | Indexed(index: Byte) | Spec(r: Byte, g: Byte, b: Byte)

  datatype Cell = Cell(
    c: char, spacer: bool,
    bold: bool, dim: bool, italic: bool, underline: bool, inverse: bool, strikeout: bool,
    fg: Color, bg: Color)

  /** Printed text: characters and SGR control functions with their numeric parameters. */
  datatype Item = Glyph(c: char) | Sgr(params: seq<nat>)

  // ---- What is printed ---------------------------------------------------------------------------

  function Flags(cell: Cell): seq<(bool, nat)> {
    [(cell.bold, 1), (cell.dim, 2), (cell.italic, 3), (cell.underline, 4), (cell.inverse, 7), (cell.strikeout, 9)]
  }

  function FlagParams(flags: seq<(bool, nat)>): seq<nat> {
    if flags == [] then [] else (if flags[0].0 then [flags[0].1] else []) + FlagParams(flags[1..])
  }

  function ColorParams(color: Color, foreground: bool): seq<nat> {
    var base, bright, extended := if foreground then 30 else 40, if foreground then 90 else 100, if foreground then 38 else 48;
    match color
    case Named(n) => if n < 8 then [base + n] else if n < 16 then [bright + n - 8] else []
    case Indexed(n) => if n < 8 then [base + n] else if n < 16 then [bright + n - 8] else [extended, 5, n]
    case Spec(r, g, b) => [extended, 2, r, g, b]
  }

  function Params(cell: Cell): seq<nat> {
    FlagParams(Flags(cell)) + ColorParams(cell.fg, true) + ColorParams(cell.bg, false)
  }

  // ---- The interpreter -----------------------------------------------------------------------------

  datatype Paint = Default | Basic(n: nat) | Palette(n: nat) | Rgb(r: nat, g: nat, b: nat)

  datatype Style = Style(
    bold: bool, dim: bool, italic: bool, underline: bool, inverse: bool, strikeout: bool, fg: Paint, bg: Paint)

  const DEFAULT_STYLE: Style := Style(false, false, false, false, false, false, Default, Default)

  function WithPaint(s: Style, foreground: bool, p: Paint): Style {
    if foreground then s.(fg := p) else s.(bg := p)
  }

  /** SGR parameters, left to right (section 8.3.117 of ECMA-48; 38 and 48 as in section 13.1.8 of
      ITU-T T.416): the style after them. */
  function Interpret(params: seq<nat>, s: Style): Style {
    if params == [] then s
    else
      var p, rest := params[0], params[1..];
      if p == 0 then Interpret(rest, DEFAULT_STYLE)
      else if p == 1 then Interpret(rest, s.(bold := true))
      else if p == 2 then Interpret(rest, s.(dim := true))
      else if p == 3 then Interpret(rest, s.(italic := true))
      else if p == 4 then Interpret(rest, s.(underline := true))
      else if p == 7 then Interpret(rest, s.(inverse := true))
      else if p == 9 then Interpret(rest, s.(strikeout := true))
      else if p == 22 then Interpret(rest, s.(bold := false, dim := false))
      else if p == 23 then Interpret(rest, s.(italic := false))
      else if p == 24 then Interpret(rest, s.(underline := false))
      else if p == 27 then Interpret(rest, s.(inverse := false))
      else if p == 29 then Interpret(rest, s.(strikeout := false))
      else if 30 <= p <= 37 then Interpret(rest, s.(fg := Basic(p - 30)))
      else if p == 39 then Interpret(rest, s.(fg := Default))
      else if 40 <= p <= 47 then Interpret(rest, s.(bg := Basic(p - 40)))
      else if p == 49 then Interpret(rest, s.(bg := Default))
      else if 90 <= p <= 97 then Interpret(rest, s.(fg := Basic(p - 90 + 8)))
      else if 100 <= p <= 107 then Interpret(rest, s.(bg := Basic(p - 100 + 8)))
      else if p == 38 || p == 48 then
        if |rest| >= 2 && rest[0] == 5 then Interpret(rest[2..], WithPaint(s, p == 38, Palette(rest[1])))
        else if |rest| >= 4 && rest[0] == 2 then
          Interpret(rest[4..], WithPaint(s, p == 38, Rgb(rest[1], rest[2], rest[3])))
        else s
      else Interpret(rest, s)
  }

  datatype Shown = Shown(glyphs: seq<(char, Style)>, style: Style)

  /** What a terminal in the default state shows for the text, and the state it is left in. */
  function Show(text: seq<Item>): Shown {
    if text == [] then Shown([], DEFAULT_STYLE)
    else
      var before := Show(text[..|text| - 1]);
      match text[|text| - 1]
      case Glyph(c) => Shown(before.glyphs + [(c, before.style)], before.style)
      case Sgr(params) => Shown(before.glyphs, if params == [] then DEFAULT_STYLE else Interpret(params, before.style))
  }

  lemma ShowPush(text: seq<Item>, item: Item)
    ensures var before := Show(text);
            Show(text + [item]) == match item
              case Glyph(c) => Shown(before.glyphs + [(c, before.style)], before.style)
              case Sgr(params) =>
                Shown(before.glyphs, if params == [] then DEFAULT_STYLE else Interpret(params, before.style))
  {
    assert (text + [item])[..|text|] == text;
  }

  // ---- What must be shown ----------------------------------------------------------------------------

  /** The colors the printer distinguishes: 0 to 15 by name or index, the palette, RGB; the
      palette specials past 15 are the default. */
  function PaintOf(color: Color): Paint {
    match color
    case Named(n) => if n < 16 then Basic(n) else Default
    case Indexed(n) => if n < 16 then Basic(n) else Palette(n)
    case Spec(r, g, b) => Rgb(r, g, b)
  }

  function StyleOf(cell: Cell): Style {
    Style(cell.bold, cell.dim, cell.italic, cell.underline, cell.inverse, cell.strikeout, PaintOf(cell.fg), PaintOf(cell.bg))
  }

  /** The first `n` cells that are not wide-character spacers. */
  function FirstVisible(cells: seq<Cell>, n: nat): seq<(char, Style)> {
    if cells == [] || n == 0 then []
    else if cells[0].spacer then FirstVisible(cells[1..], n)
    else [(cells[0].c, StyleOf(cells[0]))] + FirstVisible(cells[1..], n - 1)
  }

  function WithFlag(flag: (bool, nat), s: Style): Style {
    if !flag.0 then s
    else if flag.1 == 1 then s.(bold := true)
    else if flag.1 == 2 then s.(dim := true)
    else if flag.1 == 3 then s.(italic := true)
    else if flag.1 == 4 then s.(underline := true)
    else if flag.1 == 7 then s.(inverse := true)
    else s.(strikeout := true)
  }

  function WithFlags(flags: seq<(bool, nat)>, s: Style): Style {
    if flags == [] then s else WithFlags(flags[1..], WithFlag(flags[0], s))
  }

  lemma {:induction false} FlagsInterpreted(flags: seq<(bool, nat)>, rest: seq<nat>, s: Style)
    requires forall f :: f in flags ==> f.1 in {1, 2, 3, 4, 7, 9}
    ensures Interpret(FlagParams(flags) + rest, s) == Interpret(rest, WithFlags(flags, s))
  {
    if flags == [] {
      assert [] + rest == rest;
    } else {
      var first, more := if flags[0].0 then [flags[0].1] else [], FlagParams(flags[1..]);
      assert first + more + rest == first + (more + rest);
      if flags[0].0 {
        assert flags[0].1 in {1, 2, 3, 4, 7, 9};
        assert (first + (more + rest))[1..] == more + rest;
      } else {
        assert first + (more + rest) == more + rest;
      }
      FlagsInterpreted(flags[1..], rest, WithFlag(flags[0], s));
    }
  }

  lemma CellFlags(cell: Cell)
    ensures WithFlags(Flags(cell), DEFAULT_STYLE) == StyleOf(cell).(fg := Default, bg := Default)
  {
    var f: seq<(bool, nat)> := Flags(cell);
    var s0 := DEFAULT_STYLE;
    FlagStep(f[0], [f[1], f[2], f[3], f[4], f[5]], s0);
    var s1 := WithFlag(f[0], s0);
    FlagStep(f[1], [f[2], f[3], f[4], f[5]], s1);
    var s2 := WithFlag(f[1], s1);
    FlagStep(f[2], [f[3], f[4], f[5]], s2);
    var s3 := WithFlag(f[2], s2);
    FlagStep(f[3], [f[4], f[5]], s3);
    var s4 := WithFlag(f[3], s3);
    FlagStep(f[4], [f[5]], s4);
    FlagStep(f[5], [], WithFlag(f[4], s4));
  }

  lemma FlagStep(flag: (bool, nat), rest: seq<(bool, nat)>, s: Style)
    ensures WithFlags([flag] + rest, s) == WithFlags(rest, WithFlag(flag, s))
  {
    assert ([flag] + rest)[1..] == rest;
  }

  lemma ColorInterpreted(color: Color, foreground: bool, rest: seq<nat>, s: Style)
    requires (if foreground then s.fg else s.bg) == Default
    ensures Interpret(ColorParams(color, foreground) + rest, s) == Interpret(rest, WithPaint(s, foreground, PaintOf(color)))
  {
    var params := ColorParams(color, foreground);
    if params == [] {
      assert params + rest == rest;
    } else if |params| == 1 {
      hide Interpret;
      BasicInterpreted(PaintOf(color).n, foreground, rest, s);
    } else {
      hide Interpret;
      ExtendedInterpreted(params, rest, s);
    }
  }

  lemma BasicInterpreted(n: nat, foreground: bool, rest: seq<nat>, s: Style)
    requires n < 16
    ensures var p := if n < 8 then (if foreground then 30 else 40) + n else (if foreground then 90 else 100) + n - 8;
            Interpret([p] + rest, s) == Interpret(rest, WithPaint(s, foreground, Basic(n)))
  {
    var p := if n < 8 then (if foreground then 30 else 40) + n else (if foreground then 90 else 100) + n - 8;
    assert ([p] + rest)[1..] == rest;
  }

  lemma ExtendedInterpreted(params: seq<nat>, rest: seq<nat>, s: Style)
    requires |params| >= 3 && params[0] in {38, 48}
    requires (|params| == 3 && params[1] == 5) || (|params| == 5 && params[1] == 2)
    ensures Interpret(params + rest, s)
         == Interpret(rest, WithPaint(s, params[0] == 38,
              if |params| == 3 then Palette(params[2]) else Rgb(params[2], params[3], params[4])))
  {
    var more := (params + rest)[1..];
    assert more == params[1..] + rest;
    assert more[|params| - 1..] == rest;
  }

  /** From the default state, the parameters printed for a cell give the cell's style. */
  lemma ParamsGiveStyle(cell: Cell)
    ensures Interpret(Params(cell), DEFAULT_STYLE) == StyleOf(cell)
  {
    hide Interpret, FlagParams, ColorParams;
    var flags, fg, bg := FlagParams(Flags(cell)), ColorParams(cell.fg, true), ColorParams(cell.bg, false);
    var s := StyleOf(cell).(fg := Default, bg := Default);
    assert flags + fg + bg == flags + (fg + bg);
    FlagsInterpreted(Flags(cell), fg + bg, DEFAULT_STYLE);
    CellFlags(cell);
    ColorInterpreted(cell.fg, true, bg, s);
    ColorInterpreted(cell.bg, false, [], WithPaint(s, true, PaintOf(cell.fg)));
    assert bg + [] == bg;
    NothingInterpreted(StyleOf(cell));
  }

  lemma NothingInterpreted(s: Style)
    ensures Interpret([], s) == s
  {
  }

  // ---- The printer -------------------------------------------------------------------------------------

  /** Attributes first, then the two colours. */
  method SgrParams(cell: Cell) returns (params: seq<nat>)
    ensures params == Params(cell)
  {
    params := PushFlags(Flags(cell));
    params := params + ColorParams(cell.fg, true);
    params := params + ColorParams(cell.bg, false);
  }

  method PushFlags(flags: seq<(bool, nat)>) returns (params: seq<nat>)
    ensures params == FlagParams(flags)
  {
    params := [];
    for k := 0 to |flags|
      invariant params == FlagParams(flags[..k])
    {
      FlagParamsPush(flags[..k], flags[k]);
      assert flags[..k + 1] == flags[..k] + [flags[k]];
      if flags[k].0 {
        params := params + [flags[k].1];
      }
    }
    assert flags[..|flags|] == flags;
  }

  lemma Regroup(a: seq<nat>, b: seq<nat>, c: seq<nat>)
    ensures a + (b + c) == a + b + c
  {
  }

  lemma {:induction false} FlagParamsPush(flags: seq<(bool, nat)>, f: (bool, nat))
    ensures FlagParams(flags + [f]) == FlagParams(flags) + if f.0 then [f.1] else []
  {
    if flags == [] {
      assert [f][1..] == [];
    } else {
      assert (flags + [f])[1..] == flags[1..] + [f];
      FlagParamsPush(flags[1..], f);
      Regroup(if flags[0].0 then [flags[0].1] else [], FlagParams(flags[1..]), if f.0 then [f.1] else []);
    }
  }

  /** Main theorem: the printed row, read by the interpreter, shows exactly the first
      `visibleChars` non-spacer characters with their styles, and leaves the default state. */
  method RowStyled(cells: seq<Cell>, visibleChars: nat) returns (text: seq<Item>)
    ensures Show(text) == Shown(FirstVisible(cells, visibleChars), DEFAULT_STYLE)
  {
    hide Show, Interpret, Params, StyleOf;
    text := [];
    var emitted := 0;
    var active: seq<nat> := [];
    var col := 0;
    RowStarts(cells, visibleChars);
    while col < |cells|
      invariant RowSoFar(text, active, cells, visibleChars, col, emitted)
    {
      if emitted >= visibleChars {
        break;
      }
      var cell := cells[col];
      if cell.spacer {
        RowSkips(text, active, cells, visibleChars, col, emitted);
        col := col + 1;
        continue;
      }
      var params := SgrParams(cell);
      RowGrows(text, active, cells, visibleChars, col, emitted);
      ghost var restyled := Restyled(text, active, params);
      if params != active {
        if active != [] {
          text := text + [Sgr([0])];
        }
        if params != [] {
          text := text + [Sgr(params)];
        }
        active := params;
      }
      assert text == restyled;
      text := text + [Glyph(cell.c)];
      emitted := emitted + 1;
      col := col + 1;
    }
    RowEnds(text, active, cells, visibleChars, col, emitted);
    ghost var reset := Restyled(text, active, []);
    if active != [] {
      text := text + [Sgr([0])];
    }
    assert text == reset;
  }

  /** Where the printer stands at `col`. */
  ghost predicate RowSoFar(text: seq<Item>, active: seq<nat>, cells: seq<Cell>, n: nat, col: nat, emitted: nat) {
    && col <= |cells| && emitted <= n
    && Show(text).style == Interpret(active, DEFAULT_STYLE)
    && FirstVisible(cells, n) == Show(text).glyphs + FirstVisible(cells[col..], n - emitted)
  }

  lemma RowStarts(cells: seq<Cell>, n: nat)
    ensures RowSoFar([], [], cells, n, 0, 0)
  {
    assert cells[0..] == cells;
  }

  lemma RowSkips(text: seq<Item>, active: seq<nat>, cells: seq<Cell>, n: nat, col: nat, emitted: nat)
    requires RowSoFar(text, active, cells, n, col, emitted) && col < |cells| && cells[col].spacer
    ensures RowSoFar(text, active, cells, n, col + 1, emitted)
  {
    hide Show, Interpret;
    assert cells[col..][0] == cells[col] && cells[col..][1..] == cells[col + 1..];
  }

  function Restyled(text: seq<Item>, active: seq<nat>, params: seq<nat>): seq<Item> {
    if params == active then text
    else text + (if active != [] then [Sgr([0])] else []) + (if params != [] then [Sgr(params)] else [])
  }

  lemma RestyledShows(text: seq<Item>, active: seq<nat>, params: seq<nat>)
    requires Show(text).style == Interpret(active, DEFAULT_STYLE)
    ensures Show(Restyled(text, active, params)) == Shown(Show(text).glyphs, Interpret(params, DEFAULT_STYLE))
  {
    hide Show;
    if params != active {
      var reset := text + if active != [] then [Sgr([0])] else [];
      assert Show(reset) == Shown(Show(text).glyphs, DEFAULT_STYLE) by {
        if active != [] {
          ShowPush(text, Sgr([0]));
          assert [0 as nat][1..] == [];
        } else {
          assert reset == text;
        }
      }
      if params != [] {
        ShowPush(reset, Sgr(params));
      } else {
        assert reset + [] == reset;
      }
    }
  }

  lemma RowGrows(text: seq<Item>, active: seq<nat>, cells: seq<Cell>, n: nat, col: nat, emitted: nat)
    requires RowSoFar(text, active, cells, n, col, emitted) && col < |cells| && !cells[col].spacer && emitted < n
    ensures RowSoFar(Restyled(text, active, Params(cells[col])) + [Glyph(cells[col].c)], Params(cells[col]),
                     cells, n, col + 1, emitted + 1)
  {
    hide Show, Interpret, Params, Restyled, StyleOf;
    var cell := cells[col];
    var styled := Restyled(text, active, Params(cell));
    RestyledShows(text, active, Params(cell));
    ParamsGiveStyle(cell);
    ShowPush(styled, Glyph(cell.c));
    assert cells[col..][0] == cell && cells[col..][1..] == cells[col + 1..];
    var g, more := Show(text).glyphs, FirstVisible(cells[col + 1..], n - emitted - 1);
    assert g + ([(cell.c, StyleOf(cell))] + more) == g + [(cell.c, StyleOf(cell))] + more;
  }

  lemma RowEnds(text: seq<Item>, active: seq<nat>, cells: seq<Cell>, n: nat, col: nat, emitted: nat)
    requires RowSoFar(text, active, cells, n, col, emitted) && (col == |cells| || emitted >= n)
    ensures Show(Restyled(text, active, [])) == Shown(FirstVisible(cells, n), DEFAULT_STYLE)
  {
    hide Show, Restyled, Interpret;
    RestyledShows(text, active, []);
    NothingInterpreted(DEFAULT_STYLE);
    assert FirstVisible(cells[col..], n - emitted) == [];
    assert Show(text).glyphs + [] == Show(text).glyphs;
  }
}
