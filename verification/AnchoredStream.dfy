/** Anchored streaming on the terminal: the answer grows above the live line, which comes back below
    it each time, from the dispatch of a response to its close. */
module AnchoredStreams {
  import opened Common
  import opened TerminalStreams
  import opened Screens
  import opened Presentations
  import opened LiveRegions
  import opened Answers

  // ---- The picture -------------------------------------------------------------------------------------

  /** Rows above, the deltas said since the last header (none: no header yet), and the live line. */
  datatype Picture = Picture(above: seq<string>, cr: bool, said: seq<string>, live: Live)
  {
    function With(delta: string, width: nat): Picture { this.(said := said + [delta], live := Settled(live, width)) }
  }

  function Answer(pic: Picture, width: nat): (o: Screen)
    requires width > 0
    ensures o.Ok() && o.width == width
  {
    Built(width, pic.said, pic.cr)
  }

  function LiveTop(pic: Picture, width: nat): nat
    requires width > 0
  {
    |pic.above| + if pic.said != [] then Answer(pic, width).row + 1 else 0
  }

  ghost predicate Drawn(s: Screen, pic: Picture) {
    && s.Ok() && pic.live.Ok(s.width)
    && LiveAt(s, pic.live, LiveTop(pic, s.width))
    && (forall r: nat :: r < |pic.above| ==> At(s, r) == pic.above[r])
    && (pic.said != [] ==> AnswerAt(s, Answer(pic, s.width), |pic.above|))
  }

  ghost predicate AnswerAt(s: Screen, o: Screen, base: nat) {
    forall r: nat :: r <= o.row ==> At(s, base + r) == At(o, r)
  }

  lemma DrawnOk(s: Screen, pic: Picture)
    requires Drawn(s, pic)
    ensures s.Ok() && s.width > 0 && pic.live.Ok(s.width)
  {
  }

  /** The same picture with the answer written in one piece. */
  ghost predicate DrawnInOne(s: Screen, pic: Picture) {
    && s.Ok() && s.width > 0
    && var o := OneShot(s.width, Concat(pic.said), pic.cr);
       && LiveAt(s, pic.live, |pic.above| + o.row + 1)
       && (forall r: nat :: r < |pic.above| ==> At(s, r) == pic.above[r])
       && AnswerAt(s, o, |pic.above|)
  }

  /** A drawn answer is the one-shot rendering of everything said exactly if it came in one piece. */
  lemma DrawnInOneIff(s: Screen, pic: Picture)
    requires Drawn(s, pic) && pic.said != []
    ensures DrawnInOne(s, pic) <==> InOnePiece(s.width, pic.said, pic.cr)
  {
    hide At, Built, OneShot, InOnePiece, Open, Concat;
    var w, base := s.width, |pic.above|;
    var b, o := Answer(pic, w), OneShot(w, Concat(pic.said), pic.cr);
    BuiltInOnePieceIff(w, pic.said, pic.cr);
    if DrawnInOne(s, pic) {
      assert b.row == o.row;
      BuiltIsOpen(w, pic.said, pic.cr);
      OneShotIsOpen(w, Concat(pic.said), pic.cr);
      SameBelow(s, b, o, base);
    }
  }

  lemma SameBelow(s: Screen, b: Screen, o: Screen, base: nat)
    requires Open(b) && Open(o) && b.width == o.width && b.row == o.row
    requires AnswerAt(s, b, base) && AnswerAt(s, o, base)
    ensures SameShown(b, o)
  {
    hide At;
    forall r: nat ensures At(b, r) == At(o, r) {
      if r <= b.row { assert At(s, base + r) == At(b, r); }
    }
  }

  /** What the response remembers fits the picture. */
  ghost predicate Tracks(a: Response, pic: Picture, width: nat)
    requires width > 0
  {
    && a.anchored && a.mode == Stream && a.lastWasCr == CrAfter(pic.said, pic.cr)
    && (if pic.said != [] then a.started && a.aiEnd == Some(Probe(Answer(pic, width))) else a.aiEnd == None)
  }

  // ---- Writing the answer on ---------------------------------------------------------------------------

  lemma LiftedShifts(t: Screen, base: nat)
    requires Lifted(t, base)
    ensures Shift(t, Empty(t.width), base)
  {
  }

  /** After the resume sequence the terminal shows the answer with its pending wrap in effect. */
  lemma LiftedResumes(t: Screen, o: Screen, base: nat)
    requires Lifted(t, base + o.row + 1) && Open(o) && o.width == t.width && AnswerAt(t, o, base)
    requires base + o.row !in t.wraps
    ensures Wrapped(o).Ok()
    ensures o.pending ==> Shift(t, Wrapped(o), base)
    ensures !o.pending ==> Shift(Feed(Feed(t, Cuu), Cha(o.col + 1)), Wrapped(o), base)
  {
    hide Blank;
    var w := Wrapped(o);
    assert forall r: nat :: At(w, r) == At(o, r);
    forall r: nat ensures At(t, base + r) == At(o, r) {
      if r > o.row { assert At(t, base + r) == Blank(t.width); }
    }
    var x := Feed(Feed(t, Cuu), Cha(o.col + 1));
    assert forall r: nat :: At(x, r) == At(t, r);
    hide At;
  }

  /** What the first part of a redraw leaves: `o` from row `base` on, nothing above changed. */
  ghost predicate Resumed(t: Screen, u: Screen, o: Screen, base: nat) {
    Open(u) && u.row >= base && SameAbove(t, u, base) && Shift(u, o, base)
  }

  lemma FrameBelow(x: Screen, toks: Toks, base: nat)
    requires Open(x) && IsText(toks) && base <= x.row
    ensures var u := FeedAll(x, toks); Open(u) && u.row >= base && SameAbove(x, u, base)
  {
    hide At, Feed, FeedAll;
    TextFrame(x, toks);
  }

  lemma ShiftOpens(x: Screen, o: Screen, base: nat)
    requires Shift(x, o, base)
    ensures Open(x) && x.Ok() && o.Ok() && x.row >= base && x.width == o.width
  {
  }

  lemma ShiftResumes(x: Screen, o: Screen, base: nat, toks: Toks)
    requires Shift(x, o, base) && IsText(toks)
    ensures x.Ok() && o.Ok() && Resumed(x, FeedAll(x, toks), FeedAll(o, toks), base)
  {
    hide Shift, Feed, FeedAll, Open, SameAbove;
    ShiftOpens(x, o, base);
    ShiftAll(x, o, base, toks);
    FrameBelow(x, toks, base);
  }

  /** The header takes the erased row. */
  lemma FirstDelta(t: Screen, base: nat, text: string)
    requires Lifted(t, base)
    ensures t.Ok() && Wrapped(FeedAll(Empty(t.width), AI_HEADER)).Ok()
    ensures Resumed(t, FeedAll(t, AI_HEADER + Chars(text)), FeedAll(Wrapped(FeedAll(Empty(t.width), AI_HEADER)), Chars(text)), base)
  {
    LiftedOk(t, base);
    LiftedShifts(t, base);
    assert HEADER == AI_HEADER;
    hide Shift, FeedAll, Resumed, Lifted, AI_HEADER, HEADER;
    CharsAreText(text);
    HeaderEndsRow(t.width);
    FeedConcat(Empty(t.width), AI_HEADER, Chars(text));
    ShiftResumes(t, Empty(t.width), base, AI_HEADER + Chars(text));
  }

  /** On the erased row below a full line. */
  lemma DeltaBelow(t: Screen, o: Screen, base: nat, text: string)
    requires Shift(t, Wrapped(o), base)
    ensures t.Ok() && Wrapped(o).Ok()
    ensures Resumed(t, FeedAll(t, [] + Chars(text)), FeedAll(Wrapped(o), Chars(text)), base)
  {
    assert [] + Chars(text) == Chars(text);
    hide *;
    CharsAreText(text);
    ShiftResumes(t, Wrapped(o), base, Chars(text));
  }

  /** Back on the answer's last row. */
  lemma DeltaInPlace(t: Screen, o: Screen, base: nat, text: string)
    requires t.Ok() && t.row > base && Shift(Feed(Feed(t, Cuu), Cha(o.col + 1)), Wrapped(o), base)
    ensures Wrapped(o).Ok()
    ensures Resumed(t, FeedAll(t, [Cuu, Cha(o.col + 1)] + Chars(text)), FeedAll(Wrapped(o), Chars(text)), base)
  {
    var x := Feed(Feed(t, Cuu), Cha(o.col + 1));
    assert SameAbove(t, x, base);
    hide Feed, FeedAll, Shift, At, Open, Wrapped;
    FeedTwo(t, Cuu, Cha(o.col + 1));
    FeedConcat(t, [Cuu, Cha(o.col + 1)], Chars(text));
    CharsAreText(text);
    ShiftResumes(x, Wrapped(o), base, Chars(text));
    ResumedFrom(t, x, FeedAll(x, Chars(text)), FeedAll(Wrapped(o), Chars(text)), base);
  }

  lemma ResumedFrom(t: Screen, x: Screen, u: Screen, o: Screen, base: nat)
    requires SameAbove(t, x, base) && Resumed(x, u, o, base)
    ensures Resumed(t, u, o, base)
  {
    hide At, Open, Shift;
  }

  lemma NextDelta(t: Screen, o: Screen, base: nat, text: string)
    requires Lifted(t, base + o.row + 1) && Open(o) && o.width == t.width && AnswerAt(t, o, base)
    requires base + o.row !in t.wraps
    ensures t.Ok() && Wrapped(o).Ok()
    ensures Resumed(t, FeedAll(t, Resume(Some(Probe(o))) + Chars(text)), FeedAll(Wrapped(o), Chars(text)), base)
  {
    hide FeedAll, Resumed, Shift, Feed, At, AnswerAt, Open, TrimEnd;
    LiftedOk(t, base + o.row + 1);
    LiftedResumes(t, o, base);
    if o.pending { DeltaBelow(t, o, base, text); } else { DeltaInPlace(t, o, base, text); }
  }

  function ResumeFor(pic: Picture, width: nat): Toks
    requires width > 0
  {
    Resume(if pic.said != [] then Some(Probe(Answer(pic, width))) else None)
  }

  function CrFor(pic: Picture): bool { CrAfter(pic.said, pic.cr) }

  /** The picture without its live line. */
  ghost predicate LiftedOff(t: Screen, pic: Picture) {
    && t.Ok() && Lifted(t, LiveTop(pic, t.width))
    && (pic.said != [] ==> AnswerAt(t, Answer(pic, t.width), |pic.above|) && LiveTop(pic, t.width) - 1 !in t.wraps)
  }

  /** With the live line lifted off, the resume sequence and any delta continue the answer. */
  lemma Resumes(t: Screen, pic: Picture, delta: string)
    requires LiftedOff(t, pic)
    ensures t.Ok()
    ensures Resumed(t, FeedAll(t, ResumeFor(pic, t.width) + Chars(Normalized(delta, CrFor(pic)))),
                    Answer(pic.With(delta, t.width), t.width), |pic.above|)
  {
    hide FeedAll, Resumed, Lifted, AnswerAt, Normalized, AI_HEADER, CrAfter, Settled;
    var w, base, text := t.width, |pic.above|, Normalized(delta, CrFor(pic));
    BuiltPush(w, pic.said, delta, pic.cr);
    if pic.said == [] {
      assert Built(w, [], pic.cr) == FeedAll(Empty(w), AI_HEADER);
      FirstDelta(t, base, text);
    } else {
      BuiltIsOpen(w, pic.said, pic.cr);
      hide Built;
      NextDelta(t, Answer(pic, w), base, text);
    }
  }

  // ---- The live line below it ---------------------------------------------------------------------------

  lemma NewRow(u: Screen)
    requires Open(u)
    ensures var v := FeedAll(u, NEWLINE); Lifted(v, u.row + 1) && SameAbove(u, v, u.row + 1) && u.row !in v.wraps
  {
    FeedTwo(u, Ch('\r'), Ch('\n'));
    var v := Feed(Feed(u, Ch('\r')), Ch('\n'));
    assert forall r: nat :: At(v, r) == At(u, r);
    hide At;
  }

  /** A new row, and the live line on it. */
  lemma PutsBack(u: Screen, live: Live, region: Region)
    requires Open(u) && live.Ok(u.width) && Holds(region, live)
    ensures var z := FeedAll(u, NEWLINE + RestoreRegion(region));
            LiveAt(z, Settled(live, u.width), u.row + 1) && SameAbove(u, z, u.row + 1)
  {
    hide Holds, FeedAll, RestoreRegion, At, Feed, Settled;
    FeedConcat(u, NEWLINE, RestoreRegion(region));
    NewRow(u);
    RestoresSettled(FeedAll(u, NEWLINE), live, u.row + 1, region);
  }

  /** Where the mirror knows an empty line's start, a notice or header goes right there, and elsewhere on a
      new row: it always starts a row that is blank. */
  lemma NoticesStartRows(s: Screen, v: View)
    requires Open(s) && (v.atLineStart ==> s.col == 0 && !s.pending && At(s, s.row) == Blank(s.width))
    ensures s.Ok()
    ensures var x := FeedAll(s, LinePrefix(v));
            Lifted(x, if v.atLineStart then s.row else s.row + 1) && SameAbove(s, x, x.row)
  {
    OpenOk(s);
    if v.atLineStart {
      FeedNone(s);
    } else {
      NewRow(s);
      hide FeedAll, At;
    }
  }

  // ---- One delta -------------------------------------------------------------------------------------------

  /** The first part of a redraw: up to the end of the answer. */
  function AnswerToks(pic: Picture, region: Region, delta: string, width: nat): Toks
    requires width > 0
  {
    EraseRegion(region) + (ResumeFor(pic, width) + Chars(Normalized(delta, CrFor(pic))))
  }

  function BelowToks(region: Region): Toks { NEWLINE + RestoreRegion(region) }

  /** The terminal after erasing the live line. */
  lemma LiftsOff(s: Screen, pic: Picture, region: Region)
    requires Drawn(s, pic) && Holds(region, pic.live)
    ensures var t := FeedAll(s, EraseRegion(region));
            LiftedOff(t, pic) && SameAbove(s, t, LiveTop(pic, s.width))
  {
    hide FeedAll, EraseRegion, At, Lifted, Built;
    ErasesRegion(s, pic.live, LiveTop(pic, s.width), region);
  }

  /** `u` and `z` are the terminal after the two parts: the picture gains the delta and nothing else. */
  ghost predicate Redrawn(u: Screen, z: Screen, pic: Picture, delta: string) {
    && u.Ok() && z.Ok() && z.width == u.width
    && var next := pic.With(delta, u.width);
       Drawn(z, next) && Probe(u) == Probe(Answer(next, u.width))
  }

  lemma Redraws(s: Screen, pic: Picture, region: Region, delta: string)
    requires Drawn(s, pic) && Holds(region, pic.live)
    ensures s.Ok() && s.width > 0
    ensures var u := FeedAll(s, AnswerToks(pic, region, delta, s.width));
            Redrawn(u, FeedAll(u, BelowToks(region)), pic, delta)
  {
    hide *;
    DrawnOk(s, pic);
    var text := ResumeFor(pic, s.width) + Chars(Normalized(delta, CrFor(pic)));
    var t := FeedAll(s, EraseRegion(region));
    AnswerInParts(s, pic, region, delta);
    RedrawParts(s, t, FeedAll(t, text), pic, region, delta);
  }

  lemma AnswerInParts(s: Screen, pic: Picture, region: Region, delta: string)
    requires s.Ok() && s.width > 0
    ensures FeedAll(s, AnswerToks(pic, region, delta, s.width))
         == FeedAll(FeedAll(s, EraseRegion(region)), ResumeFor(pic, s.width) + Chars(Normalized(delta, CrFor(pic))))
  {
    var text := ResumeFor(pic, s.width) + Chars(Normalized(delta, CrFor(pic)));
    assert AnswerToks(pic, region, delta, s.width) == EraseRegion(region) + text;
    hide *;
    FeedConcat(s, EraseRegion(region), text);
  }

  lemma RedrawParts(s: Screen, t: Screen, u: Screen, pic: Picture, region: Region, delta: string)
    requires Drawn(s, pic) && Holds(region, pic.live) && s.Ok() && s.width > 0
    requires t == FeedAll(s, EraseRegion(region))
    requires u == FeedAll(t, ResumeFor(pic, t.width) + Chars(Normalized(delta, CrFor(pic))))
    ensures Redrawn(u, FeedAll(u, BelowToks(region)), pic, delta)
  {
    assert BelowToks(region) == NEWLINE + RestoreRegion(region);
    hide *;
    DrawnOk(s, pic);
    LiftsOff(s, pic, region);
    Resumes(t, pic, delta);
    ResumedOpen(t, u, Answer(pic.With(delta, s.width), s.width), |pic.above|);
    PutsBack(u, pic.live, region);
    SettledOk(pic.live, s.width);
    RedrawnIs(s, t, u, FeedAll(u, BelowToks(region)), pic, delta);
  }

  lemma ResumedOpen(t: Screen, u: Screen, o: Screen, base: nat)
    requires Resumed(t, u, o, base)
    ensures Open(u)
  {
  }

  lemma RedrawnIs(s: Screen, t: Screen, u: Screen, z: Screen, pic: Picture, delta: string)
    requires Drawn(s, pic) && SameAbove(s, t, LiveTop(pic, s.width))
    requires Resumed(t, u, Answer(pic.With(delta, s.width), s.width), |pic.above|)
    requires Settled(pic.live, s.width).Ok(s.width)
    requires LiveAt(z, Settled(pic.live, s.width), u.row + 1) && SameAbove(u, z, u.row + 1)
    ensures Redrawn(u, z, pic, delta)
  {
    hide At, Built, TrimEnd, Settled, Live.Ok;
  }

  // ---- The state machine on the terminal -------------------------------------------------------------------

  /** What the second state has written since the first. */
  function Written(p: Model, q: Model): Toks
    requires Flat(p.log) <= Flat(q.log)
  {
    Flat(q.log)[|Flat(p.log)|..]
  }

  /** The response `id` streams above the live line of `s`, which shows `pic`; the mirror reports
      what the terminal shows. */
  ghost predicate Streaming(p: Model, m: Mirror, id: RequestId, s: Screen, pic: Picture) {
    && Drawn(s, pic) && Watches(m, Flat(p.log), s)
    && p.active.Some? && p.active.value.id == id && id !in p.aborted
    && Tracks(p.active.value, pic, s.width)
  }

  /** `q` has come from `p`, whose terminal showed `s`, and still streams; its terminal shows `pic`. */
  ghost predicate Shown(p: Model, q: Model, m: Mirror, id: RequestId, s: Screen, pic: Picture) {
    && s.Ok() && Flat(p.log) <= Flat(q.log)
    && Streaming(q, m, id, FeedAll(s, Written(p, q)), pic)
  }

  lemma StreamingOk(p: Model, m: Mirror, id: RequestId, s: Screen, pic: Picture)
    requires Streaming(p, m, id, s, pic)
    ensures Drawn(s, pic) && s.Ok() && s.width > 0 && p.active.Some? && p.active.value.id == id && id !in p.aborted
    ensures Watches(m, Flat(p.log), s) && Tracks(p.active.value, pic, s.width)
  {
  }

  /** The tail check never fails. */
  lemma TailHolds(p: Model, m: Mirror, id: RequestId, s: Screen, pic: Picture)
    requires Streaming(p, m, id, s, pic)
    ensures var live := Seen(p, m).live;
            live.Some? && Holds(live.value, pic.live) && TailIntact(p.active.value.aiEnd, live.value)
  {
    hide At, Built, TrimEnd, Holds, Samples;
    WatchesNow(m, Flat(p.log), s);
    var region := m(Flat(p.log)).live.value;
    var top := LiveTop(pic, s.width);
    SampledLive(s, pic.live, top, region);
    if pic.said != [] {
      var o := Answer(pic, s.width);
      assert top == |pic.above| + o.row + 1;
      assert At(s, |pic.above| + o.row) == At(o, o.row);
    }
  }

  lemma TracksOn(pic: Picture, a: Response, delta: string, end: AiEnd, width: nat)
    requires width > 0 && Tracks(a, pic, width) && end == Probe(Answer(pic.With(delta, width), width))
    ensures Tracks(a.(started := true, lastWasCr := EndsInCr(delta, a.lastWasCr), aiEnd := Some(end)),
                   pic.With(delta, width), width)
  {
    hide Normalized, Built, Settled, CrAfter;
    CrAfterPush(pic.said, delta, pic.cr);
  }

  lemma AnchoredRuns(p: Model, m: Mirror, a: Response, delta: string, s: Screen, pic: Picture, region: Region)
    requires s.Ok() && Tracks(a, pic, s.width) && Seen(p, m).live == Some(region) && TailIntact(a.aiEnd, region)
    ensures var first := AnswerToks(pic, region, delta, s.width);
            var q := AnchoredDelta(p, m, a, delta);
            && q.aborted == p.aborted
            && Flat(q.log) == Flat(p.log) + first + BelowToks(region)
            && q.active == Some(a.(started := true, lastWasCr := EndsInCr(delta, a.lastWasCr),
                                   aiEnd := Some(m(Flat(p.log) + first).probe)))
  {
    hide Normalized, EraseRegion, RestoreRegion, Flat, Built, CrAfter;
    var first := AnswerToks(pic, region, delta, s.width);
    assert a.aiEnd == (if pic.said != [] then Some(Probe(Answer(pic, s.width))) else None);
    assert EraseRegion(region) + Resume(a.aiEnd) + Chars(Normalized(delta, a.lastWasCr)) == first;
    var p1 := Put(p, Redraw(first));
    FlatPush(p.log, Redraw(first));
    FlatPush(p1.log, Redraw(BelowToks(region)));
  }

  lemma WrittenIs(p: Model, q: Model, toks: Toks)
    requires Flat(q.log) == Flat(p.log) + toks
    ensures Flat(p.log) <= Flat(q.log) && Written(p, q) == toks
  {
  }

  /** Any delta extends the answer on the terminal by exactly itself and leaves the live line settled;
      the response goes on streaming in place. */
  lemma DeltaDraws(p: Model, m: Mirror, id: RequestId, delta: string, now: nat, s: Screen, pic: Picture)
    requires Streaming(p, m, id, s, pic)
    ensures Shown(p, OnDelta(p, m, id, delta, now), m, id, s, pic.With(delta, s.width))
  {
    hide Normalized, EraseRegion, RestoreRegion, Flat, FeedAll, Holds, LiveAt, Open, Drawn, CrAfter, Settled;
    hide AnchoredDelta, Answer, Shows, Watches, AnswerToks, BelowToks, TailIntact, Probe;
    StreamingOk(p, m, id, s, pic);
    var a := p.active.value.(lastProgressAt := now);
    var p2 := p.(active := Some(a));
    var q := OnDelta(p, m, id, delta, now);
    assert q == AnchoredDelta(p2, m, a, delta);
    TailHolds(p, m, id, s, pic);
    var region := Seen(p, m).live.value;
    var first, below := AnswerToks(pic, region, delta, s.width), BelowToks(region);
    AnchoredRuns(p2, m, a, delta, s, pic, region);
    Redraws(s, pic, region, delta);
    var u := FeedAll(s, first);
    FeedConcat(s, first, below);
    assert Flat(p.log) + first + below == Flat(p.log) + (first + below);
    WrittenIs(p, q, first + below);
    WatchesOn(m, Flat(p.log), s, first);
    WatchesNow(m, Flat(p.log) + first, u);
    WatchesOn(m, Flat(p.log), s, first + below);
    assert m(Flat(p.log) + first).probe == Probe(u) by { hide *; ShowsProbe(m(Flat(p.log) + first), u); }
    TracksOn(pic, a, delta, Probe(u), s.width);
  }

  /** One delta after an answer in one piece: it stays so exactly if the last line was not full or the
      delta starts with a printed character. */
  lemma DeltaDrawsIff(p: Model, m: Mirror, id: RequestId, delta: string, now: nat, s: Screen, pic: Picture)
    requires Streaming(p, m, id, s, pic) && s.width > 0 && InOnePiece(s.width, pic.said, pic.cr)
    ensures s.Ok() && Flat(p.log) <= Flat(OnDelta(p, m, id, delta, now).log)
    ensures DrawnInOne(FeedAll(s, Written(p, OnDelta(p, m, id, delta, now))), pic.With(delta, s.width))
       <==> (OneShot(s.width, Concat(pic.said), pic.cr).pending ==> StartsPrinted(delta))
  {
    hide OnDelta, Streaming, Drawn, DrawnInOne, InOnePiece, OneShot, FeedAll, Flat, Settled, StartsPrinted;
    DeltaDraws(p, m, id, delta, now, s, pic);
    var z, next := FeedAll(s, Written(p, OnDelta(p, m, id, delta, now))), pic.With(delta, s.width);
    StreamingOk(OnDelta(p, m, id, delta, now), m, id, z, next);
    DrawnInOneIff(z, next);
    NextInOnePieceIff(s.width, pic.said, delta, pic.cr);
  }

  lemma ShowsProbe(v: View, s: Screen)
    requires Shows(v, s)
    ensures v.probe == Probe(s)
  {
  }

  // ---- Text inserted above the live line --------------------------------------------------------------------

  function RowsOf(o: Screen, n: nat): (rows: seq<string>)
    ensures |rows| == n
  {
    seq(n, r requires r >= 0 => At(o, r))
  }

  /** The rows above the live line. */
  function Above(pic: Picture, width: nat): (rows: seq<string>)
    requires width > 0
    ensures |rows| == LiveTop(pic, width)
  {
    pic.above + if pic.said != [] then RowsOf(Answer(pic, width), Answer(pic, width).row + 1) else []
  }

  function Body(width: nat, body: Toks): (o: Screen)
    requires width > 0
    ensures o.Ok() && o.width == width
  {
    FeedAll(Empty(width), body)
  }

  /** The answer so far and `body` become rows above; the next delta starts over with a header. */
  function WithBody(pic: Picture, width: nat, body: Toks): Picture
    requires width > 0
  {
    var b := Body(width, body);
    Picture(Above(pic, width) + RowsOf(b, b.row + 1), CrFor(pic), [], Settled(pic.live, width))
  }

  lemma AboveIs(s: Screen, pic: Picture)
    requires Drawn(s, pic)
    ensures s.width > 0 && forall r: nat :: r < LiveTop(pic, s.width) ==> At(s, r) == Above(pic, s.width)[r]
  {
    hide At, Built;
    var w := s.width;
    forall r: nat | r < LiveTop(pic, w) ensures At(s, r) == Above(pic, w)[r] {
      if r >= |pic.above| {
        assert At(s, |pic.above| + (r - |pic.above|)) == At(Answer(pic, w), r - |pic.above|);
      }
    }
  }

  /** `body` on a row of its own above the live line, which comes back below it. */
  lemma Inserts(s: Screen, pic: Picture, region: Region, body: Toks)
    requires Drawn(s, pic) && Holds(region, pic.live) && IsText(body)
    ensures s.Ok() && s.width > 0
    ensures Drawn(FeedAll(s, EraseRegion(region) + body + BelowToks(region)), WithBody(pic, s.width, body))
  {
    assert BelowToks(region) == NEWLINE + RestoreRegion(region);
    hide *;
    DrawnOk(s, pic);
    FeedThree(s, EraseRegion(region), body, BelowToks(region));
    LiftsOff(s, pic, region);
    AboveIs(s, pic);
    var t := FeedAll(s, EraseRegion(region));
    var top := LiveTop(pic, s.width);
    LiftedOffShifts(t, pic);
    ShiftResumes(t, Empty(t.width), top, body);
    var u := FeedAll(t, body);
    BodyIs(t.width, body);
    ResumedOpen(t, u, Body(t.width, body), top);
    PutsBack(u, pic.live, region);
    SettledOk(pic.live, s.width);
    Inserted(s, t, u, FeedAll(u, BelowToks(region)), pic, body);
  }

  lemma BodyIs(width: nat, body: Toks)
    requires width > 0
    ensures Body(width, body) == FeedAll(Empty(width), body)
  {
  }

  lemma LiftedOffShifts(t: Screen, pic: Picture)
    requires LiftedOff(t, pic)
    ensures Shift(t, Empty(t.width), LiveTop(pic, t.width))
  {
    hide At, Built, Open;
    LiftedShifts(t, LiveTop(pic, t.width));
  }

  lemma Inserted(s: Screen, t: Screen, u: Screen, z: Screen, pic: Picture, body: Toks)
    requires Drawn(s, pic) && SameAbove(s, t, LiveTop(pic, s.width))
    requires Resumed(t, u, Body(s.width, body), LiveTop(pic, s.width))
    requires Settled(pic.live, s.width).Ok(s.width)
    requires LiveAt(z, Settled(pic.live, s.width), u.row + 1) && SameAbove(u, z, u.row + 1)
    requires forall r: nat :: r < LiveTop(pic, s.width) ==> At(s, r) == Above(pic, s.width)[r]
    ensures Drawn(z, WithBody(pic, s.width, body))
  {
    hide At, Built, TrimEnd, Body, Above, Settled, Live.Ok;
    var w, top, b := s.width, LiveTop(pic, s.width), Body(s.width, body);
    var pic' := WithBody(pic, w, body);
    forall r: nat | r < |pic'.above| ensures At(z, r) == pic'.above[r] {
      if r < top {
        assert At(u, r) == At(t, r);
      } else {
        assert At(u, top + (r - top)) == At(b, r - top);
      }
    }
  }

  function NoteBody(message: string): Toks {
    [Sgr([2])] + Chars("[koshell] " + Normalized(message, false)) + [Sgr([0])]
  }

  function WithNote(pic: Picture, width: nat, message: string): Picture
    requires width > 0
  {
    WithBody(pic, width, NoteBody(message))
  }

  function NoteToks(region: Region, message: string): Toks {
    EraseRegion(region) + NoteBody(message) + BelowToks(region)
  }

  lemma NoticeToks(region: Region, message: string)
    ensures IsText(NoteBody(message))
    ensures EraseRegion(region) + DimLine(message) + RestoreRegion(region) == NoteToks(region, message)
  {
    hide Normalized, EraseRegion, RestoreRegion;
    assert DimLine(message) == NoteBody(message) + NEWLINE;
  }

  lemma NoticeRuns(p: Model, m: Mirror, text: string, kind: NoticeKind, region: Region)
    requires Seen(p, m).live == Some(region)
    ensures var q := WithNoticeAbove(p, m, text, kind);
            q == p.(log := q.log) && Flat(q.log) == Flat(p.log) + NoteToks(region, text)
  {
    hide DimLine, EraseRegion, RestoreRegion, Flat, NoteToks;
    NoticeToks(region, text);
    FlatPush(p.log, Redraw(EraseRegion(region) + DimLine(text) + RestoreRegion(region)));
  }

  /** `q` has written one notice above the live line since `p`. */
  ghost predicate Noted(p: Model, q: Model, m: Mirror, text: string) {
    && Seen(p, m).live.Some?
    && Flat(q.log) == Flat(p.log) + NoteToks(Seen(p, m).live.value, text)
  }

  /** The notice is drawn above the live line, and the mirror keeps up. */
  lemma NoteDraws(p: Model, q: Model, m: Mirror, id: RequestId, text: string, s: Screen, pic: Picture)
    requires Streaming(p, m, id, s, pic) && Noted(p, q, m, text)
    ensures s.Ok() && s.width > 0 && Flat(p.log) <= Flat(q.log)
    ensures var z := FeedAll(s, Written(p, q));
            Drawn(z, WithNote(pic, s.width, text)) && Watches(m, Flat(q.log), z)
  {
    hide Flat, FeedAll, Drawn, Watches, WithBody, NoteBody, EraseRegion, BelowToks, Streaming, Holds, TailIntact;
    StreamingOk(p, m, id, s, pic);
    TailHolds(p, m, id, s, pic);
    var region := Seen(p, m).live.value;
    NoticeToks(region, text);
    Inserts(s, pic, region, NoteBody(text));
    WrittenIs(p, q, NoteToks(region, text));
    WatchesOn(m, Flat(p.log), s, NoteToks(region, text));
  }

  /** A response that has no resume point left goes on with a header. */
  lemma TracksAnew(a: Response, pic: Picture, width: nat, text: string)
    requires width > 0 && Tracks(a, pic, width)
    ensures Tracks(a.(aiEnd := None), WithNote(pic, width, text), width)
    ensures a.aiEnd == None ==> Tracks(a, WithNote(pic, width, text), width)
  {
    hide Normalized, Built, Settled, Above, RowsOf, NoteBody, Body;
    assert CrAfter([], CrFor(pic)) == CrFor(pic);
  }

  // ---- Events --------------------------------------------------------------------------------------------------

  /** A tool line goes above the live line; the answer goes on below a new header. */
  lemma ToolDraws(p: Model, m: Mirror, id: RequestId, message: string, now: nat, s: Screen, pic: Picture)
    requires Streaming(p, m, id, s, pic)
    ensures s.width > 0
    ensures Shown(p, OnTool(p, m, id, message, now), m, id, s, WithNote(pic, s.width, message))
  {
    hide Flat, FeedAll, Drawn, Watches, WithNote, WithNoticeAbove, NoteToks, Tracks;
    StreamingOk(p, m, id, s, pic);
    assert p.active.value.anchored by { TracksAnchored(p.active.value, pic, s.width); }
    TailHolds(p, m, id, s, pic);
    var a := p.active.value.(receiptShown := true, lastProgressAt := now);
    var q := OnTool(p, m, id, message, now);
    NoticeRuns(p.(active := Some(a)), m, message, Tool, Seen(p, m).live.value);
    NoteDraws(p, q, m, id, message, s, pic);
    TracksSame(p.active.value, a, pic, s.width);
    TracksAnew(a, pic, s.width, message);
  }

  lemma TracksAnchored(a: Response, pic: Picture, width: nat)
    requires width > 0 && Tracks(a, pic, width)
    ensures a.anchored && a.mode == Stream && (!a.started ==> a.aiEnd == None)
  {
  }

  lemma TracksSame(a: Response, b: Response, pic: Picture, width: nat)
    requires width > 0 && Tracks(a, pic, width)
    requires b == a.(receiptShown := b.receiptShown, lastProgressAt := b.lastProgressAt)
    ensures Tracks(b, pic, width)
  {
  }

  /** The notice a poll puts above the live line while nothing has been rendered. */
  lemma TickDraws(p: Model, m: Mirror, id: RequestId, now: nat, s: Screen, pic: Picture)
    requires Streaming(p, m, id, s, pic)
    ensures s.width > 0 && p.active.Some?
    ensures Shown(p, Polled(p, m, now), m, id, s,
                  if ReceiptDue(p.active.value, now) then WithNote(pic, s.width, WAITING_TEXT) else pic)
  {
    hide Flat, FeedAll, Drawn, Watches, WithNote, WithNoticeAbove, NoteToks, Tracks;
    StreamingOk(p, m, id, s, pic);
    TracksAnchored(p.active.value, pic, s.width);
    var q := Polled(p, m, now);
    if ReceiptDue(p.active.value, now) {
      TailHolds(p, m, id, s, pic);
      var a := p.active.value.(receiptShown := true);
      NoticeRuns(p.(active := Some(a)), m, WAITING_TEXT, Plain, Seen(p, m).live.value);
      NoteDraws(p, q, m, id, WAITING_TEXT, s, pic);
      TracksSame(p.active.value, a, pic, s.width);
      TracksAnew(a, pic, s.width, WAITING_TEXT);
    } else {
      ShownNow(p, m, id, s, pic);
    }
  }

  lemma ShownNow(p: Model, m: Mirror, id: RequestId, s: Screen, pic: Picture)
    requires Streaming(p, m, id, s, pic)
    ensures Shown(p, p, m, id, s, pic)
  {
    hide Streaming, Flat;
    StreamingOk(p, m, id, s, pic);
    assert Written(p, p) == [];
    FeedNone(s);
  }

  // ---- Whole runs ---------------------------------------------------------------------------------------------

  datatype Event = Says(delta: string, now: nat) | Reports(message: string, now: nat) | Ticks(now: nat)

  function Step(p: Model, m: Mirror, id: RequestId, e: Event): Model {
    match e
    case Says(delta, now) => OnDelta(p, m, id, delta, now)
    case Reports(message, now) => OnTool(p, m, id, message, now)
    case Ticks(now) => Polled(p, m, now)
  }

  function Run(p: Model, m: Mirror, id: RequestId, events: seq<Event>): Model {
    if events == [] then p else Step(Run(p, m, id, events[..|events| - 1]), m, id, events[|events| - 1])
  }

  /** What an event adds to the picture; a tick adds the waiting notice when that is due. */
  function Next(pic: Picture, width: nat, p: Model, e: Event): Picture
    requires width > 0
  {
    match e
    case Says(delta, _) => pic.With(delta, width)
    case Reports(message, _) => WithNote(pic, width, message)
    case Ticks(now) =>
      if p.active.Some? && ReceiptDue(p.active.value, now) then WithNote(pic, width, WAITING_TEXT) else pic
  }

  /** The picture the events intend. */
  function Intended(p: Model, m: Mirror, id: RequestId, pic: Picture, width: nat, events: seq<Event>): Picture
    requires width > 0
  {
    if events == [] then pic
    else
      var front := events[..|events| - 1];
      Next(Intended(p, m, id, pic, width, front), width, Run(p, m, id, front), events[|events| - 1])
  }

  lemma StepDraws(p: Model, m: Mirror, id: RequestId, e: Event, s: Screen, pic: Picture)
    requires Streaming(p, m, id, s, pic)
    ensures s.width > 0 && Shown(p, Step(p, m, id, e), m, id, s, Next(pic, s.width, p, e))
  {
    hide OnDelta, OnTool, Polled, Streaming, Shown, WithNote, ReceiptDue;
    StreamingOk(p, m, id, s, pic);
    match e
    case Says(delta, now) => DeltaDraws(p, m, id, delta, now, s, pic);
    case Reports(message, now) => ToolDraws(p, m, id, message, now, s, pic);
    case Ticks(now) => TickDraws(p, m, id, now, s, pic);
  }

  lemma WrittenOn(p: Model, q: Model, r: Model)
    requires Flat(p.log) <= Flat(q.log) <= Flat(r.log)
    ensures Flat(p.log) <= Flat(r.log) && Written(p, r) == Written(p, q) + Written(q, r)
  {
    hide Flat;
    PrefixesJoin(Flat(p.log), Flat(q.log), Flat(r.log));
  }

  lemma PrefixesJoin(a: Toks, b: Toks, c: Toks)
    requires a <= b <= c
    ensures a <= c && c[|a|..] == b[|a|..] + c[|b|..]
  {
    assert c[..|b|] == b;
    assert c[|a|..] == c[|a|..|b|] + c[|b|..];
  }

  lemma ShownOn(p: Model, q: Model, r: Model, m: Mirror, id: RequestId, s: Screen, pic: Picture)
    requires s.Ok() && Flat(p.log) <= Flat(q.log)
    requires Shown(q, r, m, id, FeedAll(s, Written(p, q)), pic)
    ensures Shown(p, r, m, id, s, pic)
  {
    hide Flat, FeedAll, Streaming, Written;
    WrittenOn(p, q, r);
    FeedConcat(s, Written(p, q), Written(q, r));
  }

  /** Main theorem: any run of deltas, tool lines and ticks leaves the intended picture, and the
      response is still streaming in place. */
  lemma {:induction false} RunDraws(p: Model, m: Mirror, id: RequestId, events: seq<Event>, s: Screen, pic: Picture)
    requires Streaming(p, m, id, s, pic)
    ensures s.width > 0 && Shown(p, Run(p, m, id, events), m, id, s, Intended(p, m, id, pic, s.width, events))
  {
    hide Step, Next, Streaming, Flat, FeedAll;
    StreamingOk(p, m, id, s, pic);
    if events == [] {
      ShownNow(p, m, id, s, pic);
    } else {
      var front, e := events[..|events| - 1], events[|events| - 1];
      RunDraws(p, m, id, front, s, pic);
      var q := Run(p, m, id, front);
      StepDraws(q, m, id, e, FeedAll(s, Written(p, q)), Intended(p, m, id, pic, s.width, front));
      ShownOn(p, q, Step(q, m, id, e), m, id, s, Intended(p, m, id, pic, s.width, events));
    }
  }

  /** Main theorem: after any run the answer since the last header is on the terminal as if written in
      one piece, exactly if no delta of it that left the line exactly full was followed by nothing or
      by a line break. */
  lemma RunDrawsInOneIff(p: Model, m: Mirror, id: RequestId, events: seq<Event>, s: Screen, pic: Picture)
    requires Streaming(p, m, id, s, pic)
    ensures s.Ok() && s.width > 0 && Flat(p.log) <= Flat(Run(p, m, id, events).log)
    ensures var z, now := FeedAll(s, Written(p, Run(p, m, id, events))), Intended(p, m, id, pic, s.width, events);
            && Drawn(z, now)
            && (now.said != [] ==> (DrawnInOne(z, now) <==> InOnePiece(s.width, now.said, now.cr)))
  {
    hide Streaming, Drawn, DrawnInOne, InOnePiece, Run, Intended, Flat, FeedAll;
    StreamingOk(p, m, id, s, pic);
    RunDraws(p, m, id, events, s, pic);
    var q, now := Run(p, m, id, events), Intended(p, m, id, pic, s.width, events);
    var z := FeedAll(s, Written(p, q));
    StreamingOk(q, m, id, z, now);
    if now.said != [] { DrawnInOneIff(z, now); }
  }

  function AllSaid(deltas: seq<string>, now: nat): (events: seq<Event>)
    ensures |events| == |deltas|
  {
    seq(|deltas|, i requires 0 <= i < |deltas| => Says(deltas[i], now))
  }

  /** What is said between tool lines is what the deltas said, in order. */
  lemma {:induction false} IntendedSays(p: Model, m: Mirror, id: RequestId, pic: Picture, width: nat, deltas: seq<string>, now: nat)
    requires width > 0
    ensures var next := Intended(p, m, id, pic, width, AllSaid(deltas, now));
            next.said == pic.said + deltas && next.above == pic.above && next.cr == pic.cr
  {
    hide Settled;
    if deltas == [] {
      assert pic.said + [] == pic.said;
    } else {
      var n := |deltas| - 1;
      assert AllSaid(deltas, now)[..n] == AllSaid(deltas[..n], now);
      IntendedSays(p, m, id, pic, width, deltas[..n], now);
      assert pic.said + deltas[..n] + [deltas[n]] == pic.said + deltas;
    }
  }

  /** While the live line is restorable it is the same in every picture; else it is from the first
      redraw on, unless its last row goes. */
  lemma LiveLineStays(pic: Picture, width: nat, p: Model, e: Event)
    requires width > 0 && pic.live.Ok(width)
    ensures pic.live.Restorable(width) ==> Next(pic, width, p, e).live == pic.live
    ensures (|pic.live.rows| > 1 ==> LastText(pic.live) != []) && Next(pic, width, p, e) != pic ==>
              Next(pic, width, p, e).live.Ok(width) && Next(pic, width, p, e).live.Restorable(width)
  {
    hide Settled, LastText, Live.Restorable, Live.Ok, Above, Body, RowsOf, NoteBody, ReceiptDue;
    SettledIff(pic.live, width);
    if |pic.live.rows| > 1 ==> LastText(pic.live) != [] { SettledStays(pic.live, width); }
  }

  // ---- From dispatch to close -------------------------------------------------------------------------------------

  /** A response dispatched at a resting prompt streams above it from the start. */
  lemma StartsAtPrompt(p: Model, m: Mirror, id: RequestId, now: nat, s: Screen, pic: Picture)
    requires Drawn(s, pic) && pic.said == [] && !pic.cr && Watches(m, Flat(p.log), s)
    requires p.active.None? && id !in p.aborted && Seen(p, m).restingPrompt
    ensures Shown(p, Dispatched(p, m, id, false, now), m, id, s, pic)
  {
    hide Flat, Watches, Drawn, Built;
    var q := Dispatched(p, m, id, false, now);
    assert Written(p, q) == [];
    DrawnOk(s, pic);
    FeedNone(s);
  }

  datatype Closing = Ends | Fails(message: string) | Interrupted

  function Close(p: Model, m: Mirror, id: RequestId, c: Closing): Model {
    match c
    case Ends => Finish(p, m, id, None)
    case Fails(message) => Finish(p, m, id, Some(message))
    case Interrupted => Interrupt(p, m)
  }

  function ClosedPicture(pic: Picture, width: nat, c: Closing): Picture
    requires width > 0
  {
    match c
    case Ends => pic
    case Fails(message) => WithNote(pic, width, ErrorText(message))
    case Interrupted => WithNote(pic, width, "answer interrupted (^C)")
  }

  /** A streaming response closes with the answer left where it is, and at most a notice below it. */
  ghost predicate Closes(p: Model, q: Model, s: Screen, pic: Picture) {
    && s.Ok() && Flat(p.log) <= Flat(q.log) && q.active.None?
    && Drawn(FeedAll(s, Written(p, q)), pic)
  }

  lemma CloseDraws(p: Model, m: Mirror, id: RequestId, c: Closing, s: Screen, pic: Picture)
    requires Streaming(p, m, id, s, pic)
    ensures s.width > 0 && Closes(p, Close(p, m, id, c), s, ClosedPicture(pic, s.width, c))
  {
    hide Flat, FeedAll, Drawn, Watches, WithNote, WithNoticeAbove, NoteToks, Tracks, Streaming;
    StreamingOk(p, m, id, s, pic);
    TracksAnchored(p.active.value, pic, s.width);
    TailHolds(p, m, id, s, pic);
    var region := Seen(p, m).live.value;
    var q := Close(p, m, id, c);
    match c
    case Ends =>
      assert Written(p, q) == [];
      FeedNone(s);
    case Fails(message) =>
      NoticeRuns(p.(dispatched := p.dispatched - {id}, active := None, ended := p.ended + [id]), m, ErrorText(message), Plain, region);
      NoteDraws(p, q, m, id, ErrorText(message), s, pic);
    case Interrupted =>
      NoticeRuns(p.(active := None, dispatched := p.dispatched - {id}, aborted := p.aborted + {id}, ended := p.ended + [id]),
                 m, "answer interrupted (^C)", Plain, region);
      NoteDraws(p, q, m, id, "answer interrupted (^C)", s, pic);
  }

  /** Main theorem: a response from its dispatch at a resting prompt, through any events, to its close. */
  lemma ResponseDraws(p: Model, m: Mirror, id: RequestId, at: nat, events: seq<Event>, c: Closing, s: Screen, pic: Picture)
    requires Drawn(s, pic) && pic.said == [] && !pic.cr && Watches(m, Flat(p.log), s)
    requires p.active.None? && id !in p.aborted && Seen(p, m).restingPrompt
    ensures s.width > 0
    ensures var first := Dispatched(p, m, id, false, at);
            var last := Close(Run(first, m, id, events), m, id, c);
            Closes(p, last, s, ClosedPicture(Intended(first, m, id, pic, s.width, events), s.width, c))
  {
    hide *;
    DrawnOk(s, pic);
    var first := Dispatched(p, m, id, false, at);
    StartsAtPrompt(p, m, id, at, s, pic);
    var s1 := ShownAt(p, first, m, id, s, pic);
    RunDraws(first, m, id, events, s1, pic);
    var q := Run(first, m, id, events);
    ShownOn(p, first, q, m, id, s, Intended(first, m, id, pic, s.width, events));
    var s2 := ShownAt(p, q, m, id, s, Intended(first, m, id, pic, s.width, events));
    CloseDraws(q, m, id, c, s2, Intended(first, m, id, pic, s.width, events));
    ClosesOn(p, q, Close(q, m, id, c), s, ClosedPicture(Intended(first, m, id, pic, s.width, events), s.width, c));
  }

  lemma ShownAt(p: Model, q: Model, m: Mirror, id: RequestId, s: Screen, pic: Picture) returns (z: Screen)
    requires Shown(p, q, m, id, s, pic)
    ensures s.Ok() && Flat(p.log) <= Flat(q.log) && z == FeedAll(s, Written(p, q))
    ensures z.width == s.width && Streaming(q, m, id, z, pic)
  {
    z := FeedAll(s, Written(p, q));
  }

  lemma ClosesOn(p: Model, q: Model, r: Model, s: Screen, pic: Picture)
    requires s.Ok() && Flat(p.log) <= Flat(q.log)
    requires Closes(q, r, FeedAll(s, Written(p, q)), pic)
    ensures Closes(p, r, s, pic)
  {
    hide Flat, FeedAll, Written, Drawn;
    WrittenOn(p, q, r);
    FeedConcat(s, Written(p, q), Written(q, r));
  }
}
