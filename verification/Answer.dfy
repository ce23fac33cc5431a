/** The AI text on a terminal: as the deltas build it up, and as one piece. */
module Answers {
  import opened TerminalStreams
  import opened Screens
  import opened LiveRegions
  import Presentations

  const HEADER: Toks := Presentations.AI_HEADER

  function Empty(width: nat): Screen { Screen(width, [], {}, 0, 0, false) }

  function Concat(deltas: seq<string>): string {
    if deltas == [] then [] else Concat(deltas[..|deltas| - 1]) + deltas[|deltas| - 1]
  }

  lemma ConcatPush(deltas: seq<string>, d: string)
    ensures Concat(deltas + [d]) == Concat(deltas) + d
  {
    assert (deltas + [d])[..|deltas|] == deltas;
  }

  /** Whether the text said so far ends in a carriage return. */
  function CrAfter(said: seq<string>, cr: bool): bool { EndsInCr(Concat(said), cr) }

  lemma CrAfterPush(said: seq<string>, d: string, cr: bool)
    ensures CrAfter(said + [d], cr) == EndsInCr(d, CrAfter(said, cr))
    ensures Normalized(Concat(said + [d]), cr) == Normalized(Concat(said), cr) + Normalized(d, CrAfter(said, cr))
  {
    ConcatPush(said, d);
    NormalizedInDeltas(Concat(said), d, cr);
  }

  /** The answer written in one piece, below its header, on an empty terminal. */
  function OneShot(width: nat, text: string, cr: bool): (o: Screen)
    requires width > 0
    ensures o.Ok() && o.width == width
  {
    FeedAll(Empty(width), HEADER + Chars(Normalized(text, cr)))
  }

  /** The answer as the redraws build it: a wrap pending after one delta takes effect with the next,
      whatever that is. */
  function Built(width: nat, said: seq<string>, cr: bool): (b: Screen)
    requires width > 0
    ensures b.Ok() && b.width == width
  {
    if said == [] then FeedAll(Empty(width), HEADER)
    else
      var n := |said| - 1;
      FeedAll(Wrapped(Built(width, said[..n], cr)), Chars(Normalized(said[n], CrAfter(said[..n], cr))))
  }

  lemma BuiltPush(width: nat, said: seq<string>, d: string, cr: bool)
    requires width > 0
    ensures Wrapped(Built(width, said, cr)).Ok()
    ensures Built(width, said + [d], cr)
         == FeedAll(Wrapped(Built(width, said, cr)), Chars(Normalized(d, CrAfter(said, cr))))
  {
    hide FeedAll;
    assert (said + [d])[..|said|] == said;
  }

  lemma OneShotPush(width: nat, said: seq<string>, d: string, cr: bool)
    requires width > 0
    ensures OneShot(width, Concat(said + [d]), cr)
         == FeedAll(OneShot(width, Concat(said), cr), Chars(Normalized(d, CrAfter(said, cr))))
  {
    hide FeedAll, Normalized, Concat, CrAfter;
    CrAfterPush(said, d, cr);
    var a, b := Normalized(Concat(said), cr), Normalized(d, CrAfter(said, cr));
    assert HEADER + Chars(a + b) == HEADER + Chars(a) + Chars(b);
    FeedConcat(Empty(width), HEADER + Chars(a), Chars(b));
  }

  lemma CharsAreText(s: string)
    ensures IsText(Chars(s)) && IsText(HEADER + Chars(s)) && IsText(HEADER)
  {
  }

  lemma EmptyIsOpen(width: nat)
    requires width > 0
    ensures Open(Empty(width))
  {
  }

  lemma WrappedIsOpen(s: Screen)
    requires Open(s)
    ensures Open(Wrapped(s))
  {
    var w := Wrapped(s);
    assert forall r: nat :: At(w, r) == At(s, r);
    hide At;
  }

  lemma {:induction false} BuiltIsOpen(width: nat, said: seq<string>, cr: bool)
    requires width > 0
    ensures Open(Built(width, said, cr))
  {
    hide Feed, FeedAll, Normalized, Open, Wrapped;
    if said == [] {
      EmptyIsOpen(width);
      CharsAreText([]);
      TextFrame(Empty(width), HEADER);
    } else {
      var n := |said| - 1;
      BuiltIsOpen(width, said[..n], cr);
      WrappedIsOpen(Built(width, said[..n], cr));
      assert said[..n] + [said[n]] == said;
      BuiltPush(width, said[..n], said[n], cr);
      CharsAreText(Normalized(said[n], CrAfter(said[..n], cr)));
      TextFrame(Wrapped(Built(width, said[..n], cr)), Chars(Normalized(said[n], CrAfter(said[..n], cr))));
    }
  }

  lemma OneShotIsOpen(width: nat, text: string, cr: bool)
    requires width > 0
    ensures Open(OneShot(width, text, cr))
  {
    hide Feed, FeedAll, Normalized, Open;
    EmptyIsOpen(width);
    CharsAreText(Normalized(text, cr));
    TextFrame(Empty(width), HEADER + Chars(Normalized(text, cr)));
  }

  lemma HeaderEndsRow(width: nat)
    requires width > 0
    ensures var h := FeedAll(Empty(width), HEADER); !h.pending && h.col == 0
  {
    var front := [Sgr([2])] + Chars("[koshell ai]") + [Sgr([0])];
    assert HEADER == front + NEWLINE;
    var e := Empty(width);
    hide FeedAll, HEADER, NEWLINE;
    FeedConcat(e, front, NEWLINE);
    FeedTwo(FeedAll(e, front), Ch('\r'), Ch('\n'));
    assert NEWLINE == [Ch('\r'), Ch('\n')];
  }

  lemma NothingSaid(width: nat, cr: bool)
    requires width > 0
    ensures OneShot(width, [], cr) == Built(width, [], cr) == FeedAll(Empty(width), HEADER)
  {
    hide FeedAll;
    assert HEADER + Chars(Normalized([], cr)) == HEADER;
  }

  /** A carriage return leaves no pending wrap. */
  lemma FullLineNotAfterCr(width: nat, text: string, cr: bool)
    requires width > 0 && OneShot(width, text, cr).pending
    ensures !EndsInCr(text, cr)
  {
    if text == [] {
      hide OneShot, FeedAll;
      NothingSaid(width, cr);
      HeaderEndsRow(width);
      assert false;
    } else if text[|text| - 1] == '\r' {
      CrResets(width, text, cr);
    }
  }

  lemma CrResets(width: nat, text: string, cr: bool)
    requires width > 0 && text != [] && text[|text| - 1] == '\r'
    ensures !OneShot(width, text, cr).pending
  {
    var toks := HEADER + Chars(Normalized(text, cr));
    var n := |toks| - 1;
    assert toks[n] == Ch('\r');
    hide HEADER, Normalized;
    assert OneShot(width, text, cr) == Feed(FeedAll(Empty(width), toks[..n]), toks[n]);
  }

  lemma NormalizedStart(delta: string, cr: bool)
    requires delta != [] && (delta[0] == '\n' ==> !cr)
    ensures Normalized(delta, cr) != []
    ensures Normalized(delta, cr)[0] == if delta[0] == '\n' then '\r' else delta[0]
  {
    NormalizedInDeltas(delta[..1], delta[1..], cr);
    assert delta == delta[..1] + delta[1..];
    assert delta[..1][..0] == [];
    assert Normalized(delta[..1], cr) == if delta[0] == '\n' then ['\r', '\n'] else [delta[0]];
  }

  // ---- When the built answer is the one-shot answer ---------------------------------------------------

  /** The text starts with a character that is printed. */
  predicate StartsPrinted(text: string) { text != [] && Prints(Ch(text[0])) }

  /** The line is exactly full after the first `k` deltas. */
  predicate FullAfter(width: nat, said: seq<string>, cr: bool, k: nat)
    requires width > 0 && k <= |said|
  {
    OneShot(width, Concat(said[..k]), cr).pending
  }

  /** Wherever a delta ends on an exactly full line, what follows in later deltas starts with a
      printed character. */
  ghost predicate InOnePiece(width: nat, said: seq<string>, cr: bool)
    requires width > 0
  {
    forall k: nat :: k < |said| && FullAfter(width, said, cr, k) ==> StartsPrinted(Concat(said[k..]))
  }

  ghost predicate Broken(width: nat, said: seq<string>, cr: bool)
    requires width > 0
  {
    exists k: nat :: k < |said| && FullAfter(width, said, cr, k) && Concat(said[k..]) != [] && !StartsPrinted(Concat(said[k..]))
  }

  ghost predicate Waiting(width: nat, said: seq<string>, cr: bool)
    requires width > 0
  {
    exists k: nat :: k < |said| && FullAfter(width, said, cr, k) && Concat(said[k..]) == []
  }

  lemma {:induction false} ConcatSplit(said: seq<string>, k: nat)
    requires k <= |said|
    ensures Concat(said) == Concat(said[..k]) + Concat(said[k..])
  {
    if k == |said| {
      assert said[..k] == said && said[k..] == [];
      assert Concat(said) + [] == Concat(said);
    } else {
      var n := |said| - 1;
      ConcatSplit(said[..n], k);
      assert said[..n][..k] == said[..k] && said[..n][k..] == said[k..][..n - k];
    }
  }

  /** One delta more: at the cuts there were, and at the new one. */
  lemma CutsPush(width: nat, said: seq<string>, d: string, cr: bool, k: nat)
    requires width > 0 && k <= |said|
    ensures FullAfter(width, said + [d], cr, k) == FullAfter(width, said, cr, k)
    ensures Concat((said + [d])[k..]) == Concat(said[k..]) + d
  {
    assert (said + [d])[..k] == said[..k] && (said + [d])[k..] == said[k..] + [d];
    ConcatPush(said[k..], d);
  }

  lemma WaitingIsFull(width: nat, said: seq<string>, cr: bool)
    requires width > 0 && Waiting(width, said, cr)
    ensures FullAfter(width, said, cr, |said|)
  {
    hide Concat, OneShot;
    var k: nat :| k < |said| && FullAfter(width, said, cr, k) && Concat(said[k..]) == [];
    ConcatSplit(said, k);
    assert said[..|said|] == said;
    assert Concat(said[..k]) + [] == Concat(said[..k]);
  }

  lemma StatusPush(width: nat, said: seq<string>, d: string, cr: bool)
    requires width > 0
    ensures var full := FullAfter(width, said, cr, |said|);
            && (Waiting(width, said + [d], cr) <==> d == [] && full)
            && (Broken(width, said + [d], cr) <==> Broken(width, said, cr) || (full && d != [] && !StartsPrinted(d)))
  {
    hide Concat, FullAfter, Prints;
    var more, full := said + [d], FullAfter(width, said, cr, |said|);
    forall k: nat | k <= |said|
      ensures FullAfter(width, more, cr, k) == FullAfter(width, said, cr, k)
      ensures Concat(more[k..]) == Concat(said[k..]) + d
    {
      CutsPush(width, said, d, cr, k);
    }
    assert Concat(said[|said|..]) == [] by { NothingJoined(said); }
    assert [] + d == d;
    if Waiting(width, said, cr) { WaitingIsFull(width, said, cr); }
    if Waiting(width, more, cr) {
      var k: nat :| k < |more| && FullAfter(width, more, cr, k) && Concat(more[k..]) == [];
      assert k < |said| ==> Waiting(width, said, cr);
    }
    if d == [] && full {
      assert FullAfter(width, more, cr, |said|) && Concat(more[|said|..]) == [];
    }
    BrokenPush(width, said, d, cr);
  }

  lemma NothingJoined(said: seq<string>)
    ensures Concat(said[|said|..]) == []
  {
  }

  lemma BrokenPush(width: nat, said: seq<string>, d: string, cr: bool)
    requires width > 0
    ensures var full := FullAfter(width, said, cr, |said|);
            Broken(width, said + [d], cr) <==> Broken(width, said, cr) || (full && d != [] && !StartsPrinted(d))
  {
    hide Concat, FullAfter, Prints;
    var more, full := said + [d], FullAfter(width, said, cr, |said|);
    NothingJoined(said);
    assert [] + d == d;
    if Broken(width, said, cr) {
      var k: nat :| k < |said| && FullAfter(width, said, cr, k) && Concat(said[k..]) != [] && !StartsPrinted(Concat(said[k..]));
      CutsPush(width, said, d, cr, k);
      assert (Concat(said[k..]) + d)[0] == Concat(said[k..])[0];
      assert FullAfter(width, more, cr, k);
    }
    if full && d != [] && !StartsPrinted(d) {
      CutsPush(width, said, d, cr, |said|);
      assert FullAfter(width, more, cr, |said|);
    }
    if Broken(width, more, cr) {
      var k: nat :| k < |more| && FullAfter(width, more, cr, k) && Concat(more[k..]) != [] && !StartsPrinted(Concat(more[k..]));
      CutsPush(width, said, d, cr, k);
      if k < |said| {
        if Concat(said[k..]) == [] {
          assert Waiting(width, said, cr);
          WaitingIsFull(width, said, cr);
        } else {
          assert (Concat(said[k..]) + d)[0] == Concat(said[k..])[0];
          assert FullAfter(width, said, cr, k);
        }
      }
    }
  }

  /** How the built answer stands to the one-shot answer: level, waiting on the row below a full
      line, or too low for good. */
  ghost predicate Stands(b: Screen, o: Screen, broken: bool, waiting: bool) {
    && Open(b) && Open(o) && b.width == o.width
    && if broken then Wrapped(b).row > Wrapped(o).row && Wrapped(b).col == Wrapped(o).col && (b.pending ==> o.pending)
       else Shift(Wrapped(b), Wrapped(o), 0) && if waiting then o.pending && !b.pending else Shift(b, o, 0)
  }

  lemma WrappedOk(s: Screen)
    requires s.Ok()
    ensures Wrapped(s).Ok() && Wrapped(s).width == s.width && !Wrapped(s).pending
  {
  }

  lemma ShiftWrapped(b: Screen, o: Screen)
    requires Shift(b, o, 0)
    ensures Shift(Wrapped(b), Wrapped(o), 0)
  {
    WrappedIsOpen(b);
    WrappedIsOpen(o);
    var x, y := Wrapped(b), Wrapped(o);
    assert forall r: nat :: At(x, r) == At(b, r);
    assert forall r: nat :: At(y, r) == At(o, r);
    assert forall r: nat :: At(b, 0 + r) == At(o, r);
    hide At;
  }

  /** The wrap takes effect with text that starts with a printed character; otherwise it leaves the
      text one row lower. */
  lemma WrapsAround(o: Screen, text: string)
    requires o.Ok() && Wrapped(o).Ok() && text != [] && (o.pending ==> text[0] != '\n')
    ensures var w, x := FeedAll(Wrapped(o), Chars(text)), FeedAll(o, Chars(text));
            if !o.pending || Prints(Ch(text[0])) then w == x else Apart(w, x, 1)
  {
    hide FeedAll;
    if !o.pending {
    } else if Prints(Ch(text[0])) {
      WrapsFirst(o, text);
    } else {
      var first, rest := [Ch('\r')], Chars(text[1..]);
      assert Chars(text) == first + rest;
      FeedConcat(o, first, rest);
      FeedConcat(Wrapped(o), first, rest);
      FeedOne(o, Ch('\r'));
      FeedOne(Wrapped(o), Ch('\r'));
      CharsAreText(text[1..]);
      ApartAll(Feed(Wrapped(o), Ch('\r')), Feed(o, Ch('\r')), 1, rest);
    }
  }

  lemma StandsAfterNothing(b: Screen, o: Screen, broken: bool, waiting: bool)
    requires Stands(b, o, broken, waiting)
    ensures Stands(Wrapped(b), o, broken, o.pending)
  {
    WrappedIsOpen(b);
    hide Open, Shift;
  }

  lemma StandsAfterText(b: Screen, o: Screen, broken: bool, waiting: bool, text: string)
    requires Stands(b, o, broken, waiting) && text != [] && (o.pending ==> text[0] != '\n')
    ensures b.Ok() && Wrapped(b).Ok() && o.Ok()
    ensures Stands(FeedAll(Wrapped(b), Chars(text)), FeedAll(o, Chars(text)),
                   broken || (o.pending && !Prints(Ch(text[0]))), false)
  {
    hide FeedAll, Feed, At, Prints;
    OpenOk(b);
    OpenOk(o);
    WrappedOk(b);
    WrappedOk(o);
    WrappedIsOpen(b);
    WrapsAround(o, text);
    CharsAreText(text);
    var toks := Chars(text);
    var w, x, z := FeedAll(Wrapped(o), toks), FeedAll(o, toks), FeedAll(Wrapped(b), toks);
    TextFrame(Wrapped(b), toks);
    TextFrame(o, toks);
    if broken {
      hide Open, Shift;
      ApartAll(Wrapped(b), Wrapped(o), Wrapped(b).row - Wrapped(o).row, toks);
    } else {
      ShiftAll(Wrapped(b), Wrapped(o), 0, toks);
      if w == x { ShiftWrapped(z, x); }
    }
  }

  lemma StandsPush(b: Screen, o: Screen, broken: bool, waiting: bool, d: string, cr: bool)
    requires Stands(b, o, broken, waiting) && (o.pending ==> !cr)
    ensures b.Ok() && Wrapped(b).Ok() && o.Ok()
    ensures var toks := Chars(Normalized(d, cr));
            Stands(FeedAll(Wrapped(b), toks), FeedAll(o, toks), broken || (o.pending && d != [] && !StartsPrinted(d)),
                   d == [] && o.pending)
  {
    assert b.Ok() && o.Ok() by { OpenOk(b); OpenOk(o); }
    WrappedOk(b);
    hide FeedAll, Stands, Prints, Wrapped;
    if d == [] {
      assert Normalized(d, cr) == [] && Chars([]) == [];
      FeedNone(Wrapped(b));
      FeedNone(o);
      StandsAfterNothing(b, o, broken, waiting);
    } else {
      assert Normalized(d, cr) != [];
      if o.pending { NormalizedStart(d, cr); }
      hide Normalized;
      assert o.pending ==> (Prints(Ch(Normalized(d, cr)[0])) <==> StartsPrinted(d)) by { BreaksAreNotPrinted(); }
      StandsAfterText(b, o, broken, waiting, Normalized(d, cr));
    }
  }

  lemma BreaksAreNotPrinted()
    ensures !Prints(Ch('\n')) && !Prints(Ch('\r'))
  {
  }

  lemma {:induction false} BuiltStands(width: nat, said: seq<string>, cr: bool)
    requires width > 0
    ensures Stands(Built(width, said, cr), OneShot(width, Concat(said), cr),
                   Broken(width, said, cr), Waiting(width, said, cr))
  {
    hide Stands, Built, OneShot, Broken, Waiting, CrAfter, StartsPrinted;
    if said == [] {
      assert Concat(said) == [];
      NothingSaid(width, cr);
      OneShotIsOpen(width, [], cr);
      HeaderEndsRow(width);
      hide FeedAll;
      NoneBroken(width, cr);
      StandsLevel(OneShot(width, [], cr));
    } else {
      var n := |said| - 1;
      var front, d := said[..n], said[n];
      assert front + [d] == said;
      BuiltStands(width, front, cr);
      BuiltPush(width, front, d, cr);
      OneShotPush(width, front, d, cr);
      StatusPush(width, front, d, cr);
      assert front[..n] == front;
      if OneShot(width, Concat(front), cr).pending { FullLineNotAfterCr(width, Concat(front), cr); }
      assert CrAfter(front, cr) == EndsInCr(Concat(front), cr) by { CrAfterIs(front, cr); }
      hide *;
      StandsPush(Built(width, front, cr), OneShot(width, Concat(front), cr), Broken(width, front, cr),
                 Waiting(width, front, cr), d, CrAfter(front, cr));
      FullIs(width, front, cr);
    }
  }

  lemma CrAfterIs(said: seq<string>, cr: bool)
    ensures CrAfter(said, cr) == EndsInCr(Concat(said), cr)
  {
  }

  lemma FullIs(width: nat, said: seq<string>, cr: bool)
    requires width > 0
    ensures FullAfter(width, said, cr, |said|) == OneShot(width, Concat(said), cr).pending
  {
    assert said[..|said|] == said;
  }

  lemma NoneBroken(width: nat, cr: bool)
    requires width > 0
    ensures !Broken(width, [], cr) && !Waiting(width, [], cr)
  {
  }

  lemma StandsLevel(o: Screen)
    requires Open(o)
    ensures Stands(o, o, false, false)
  {
    WrappedIsOpen(o);
  }

  /** The same rows hold the same cells. */
  ghost predicate SameShown(b: Screen, o: Screen) {
    b.row == o.row && forall r: nat :: At(b, r) == At(o, r)
  }

  /** Main theorem: what the redraws build shows the answer in one piece, cursor included, exactly if
      no delta that leaves the line exactly full is followed by nothing or by a line break. */
  lemma BuiltInOnePieceIff(width: nat, said: seq<string>, cr: bool)
    requires width > 0
    ensures SameShown(Built(width, said, cr), OneShot(width, Concat(said), cr)) <==> InOnePiece(width, said, cr)
    ensures InOnePiece(width, said, cr) ==> Shift(Built(width, said, cr), OneShot(width, Concat(said), cr), 0)
  {
    hide Built, OneShot;
    PieceOrStatus(width, said, cr);
    BuiltStands(width, said, cr);
    hide Broken, Waiting, InOnePiece;
    var b, o := Built(width, said, cr), OneShot(width, Concat(said), cr);
    assert Shift(b, o, 0) ==> forall r: nat :: At(b, 0 + r) == At(o, r);
    hide At, Open;
  }

  lemma PieceOrStatus(width: nat, said: seq<string>, cr: bool)
    requires width > 0
    ensures InOnePiece(width, said, cr) <==> !Broken(width, said, cr) && !Waiting(width, said, cr)
  {
    hide Concat, FullAfter, Prints;
    if !InOnePiece(width, said, cr) {
      var k: nat :| k < |said| && FullAfter(width, said, cr, k) && !StartsPrinted(Concat(said[k..]));
      assert Concat(said[k..]) == [] ==> Waiting(width, said, cr);
    }
  }

  /** Delta by delta: after an answer in one piece, the next delta keeps it so exactly if the last line
      is not full or the delta starts with a printed character. */
  lemma NextInOnePieceIff(width: nat, said: seq<string>, d: string, cr: bool)
    requires width > 0 && InOnePiece(width, said, cr)
    ensures InOnePiece(width, said + [d], cr)
       <==> (OneShot(width, Concat(said), cr).pending ==> StartsPrinted(d))
  {
    hide OneShot, InOnePiece, Broken, Waiting, FullAfter;
    PieceOrStatus(width, said, cr);
    PieceOrStatus(width, said + [d], cr);
    StatusPush(width, said, d, cr);
    FullIs(width, said, cr);
  }

  /** Every delta fits when it comes. */
  predicate EachFits(width: nat, said: seq<string>, cr: bool)
    requires width > 0
  {
    said != [] ==>
      var n := |said| - 1;
      EachFits(width, said[..n], cr) && (OneShot(width, Concat(said[..n]), cr).pending ==> StartsPrinted(said[n]))
  }

  lemma {:induction false} EachFitsInOnePiece(width: nat, said: seq<string>, cr: bool)
    requires width > 0 && EachFits(width, said, cr)
    ensures InOnePiece(width, said, cr)
  {
    hide OneShot, StartsPrinted;
    if said == [] {
      assert InOnePiece(width, [], cr);
    } else {
      var n := |said| - 1;
      assert said[..n] + [said[n]] == said;
      EachFitsInOnePiece(width, said[..n], cr);
      hide InOnePiece;
      NextInOnePieceIff(width, said[..n], said[n], cr);
    }
  }

  // ---- A full line ----------------------------------------------------------------------------------------

  lemma {:induction false} NothingToNormalize(text: string)
    requires NoBreaks(text)
    ensures Normalized(text, false) == text
  {
    if text != [] {
      var n := |text| - 1;
      assert text[n] in text && NoBreaks(text[..n]);
      NothingToNormalize(text[..n]);
    }
  }

  /** The failing family: a delta of exactly one full line, then one that is empty or breaks the line.
      An empty one does no harm if printed text follows. */
  lemma LineBreakAfterFullLine(width: nat, text: string, d: string, later: string)
    requires width > 0 && |text| == width && NoBreaks(text)
    ensures InOnePiece(width, [text], false)
    ensures InOnePiece(width, [text, d], false) <==> StartsPrinted(d)
    ensures InOnePiece(width, [text, [], later], false) <==> StartsPrinted(later)
  {
    hide OneShot, Prints, InOnePiece, StartsPrinted;
    FullLineIsPending(width, text);
    assert Concat([]) == [] && Concat([text]) == text && Concat([text, []]) == text by { OneJoined(text); }
    assert InOnePiece(width, [], false) by { NothingInPieces(width); }
    assert [] + [text] == [text] && [text] + [d] == [text, d] && [text] + [[]] == [text, []];
    NextInOnePieceIff(width, [], text, false);
    NextInOnePieceIff(width, [text], d, false);
    EmptyThenText(width, text, later);
  }

  lemma OneJoined(text: string)
    ensures Concat([]) == [] && Concat([text]) == text && Concat([text, []]) == text
  {
    assert [text][..0] == [] && [text, []][..1] == [text];
    assert [] + text == text && text + [] == text;
  }

  lemma NothingInPieces(width: nat)
    requires width > 0
    ensures InOnePiece(width, [], false)
  {
  }

  lemma EmptyThenText(width: nat, text: string, later: string)
    requires width > 0 && OneShot(width, text, false).pending && !OneShot(width, [], false).pending
    ensures InOnePiece(width, [text, [], later], false) <==> StartsPrinted(later)
  {
    var said := [text, [], later];
    assert said[..0] == [] && said[..1] == [text] && said[..2] == [text, []];
    assert said[1..] == [[], later] && said[2..] == [later] && [[], later][..1] == [[]];
    OneJoined(text);
    OneJoined(later);
    OneJoined([]);
    assert Concat([[], later]) == later by { assert [] + later == later; }
    hide OneShot, StartsPrinted, Concat;
    assert FullAfter(width, said, false, 1) && FullAfter(width, said, false, 2) && !FullAfter(width, said, false, 0);
  }

  lemma FullLineIsPending(width: nat, text: string)
    requires width > 0 && |text| == width && NoBreaks(text)
    ensures OneShot(width, text, false).pending && !OneShot(width, [], false).pending
  {
    hide FeedAll, Normalized, OneShot;
    NothingToNormalize(text);
    NothingSaid(width, false);
    HeaderEndsRow(width);
    OneShotPush(width, [], text, false);
    assert Concat([]) == [] && Concat([] + [text]) == text && CrAfter([], false) == false by { OneSaid(text); }
    PrintsRow(OneShot(width, [], false), text);
  }

  lemma OneSaid(text: string)
    ensures Concat([]) == [] && Concat([] + [text]) == text && CrAfter([], false) == false
  {
    assert [] + text == text;
    ConcatPush([], text);
  }
}
