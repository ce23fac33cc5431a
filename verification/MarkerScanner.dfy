/** The in-band marker scanner: splits the PTY stream into visible bytes and koshell markers,
    holding what may still become a marker.  The reference reads one position at a time; the
    scanner searches, drains and caps. */
module MarkerScanners {
  import opened Common

  type Bytes = seq<Byte>

  const MARKER_PREFIX: Bytes := Ascii("\U{1B}]777;koshell;")
  const MARKER_SUFFIX: Byte := 0x07
  const MAX_PENDING_MARKER_BYTES: nat := 64 * 1024

  function Ascii(text: string): (bytes: Bytes)
    requires forall i :: 0 <= i < |text| ==> text[i] < '\U{80}'
    ensures |bytes| == |text|
  {
    seq(|text|, i requires 0 <= i < |text| => text[i] as int)
  }

  /** What the stream consists of: a visible byte, or a complete marker sequence. */
  datatype Token = Visible(b: Byte) | Raw(payload: Bytes)

  function VisibleAll(s: Bytes): (toks: seq<Token>)
    ensures |toks| == |s| && forall i :: 0 <= i < |s| ==> toks[i] == Visible(s[i])
  {
    seq(|s|, i requires 0 <= i < |s| => Visible(s[i]))
  }

  /** The bytes a token was read from. */
  function Unread(toks: seq<Token>): Bytes {
    if toks == [] then []
    else (match toks[0]
          case Visible(b) => [b]
          case Raw(payload) => MARKER_PREFIX + payload + [MARKER_SUFFIX]) + Unread(toks[1..])
  }

  datatype Scan = Scan(toks: seq<Token>, rest: Bytes)

  // ---- The reference -------------------------------------------------------------------------

  predicate StartsMarker(s: Bytes) { MARKER_PREFIX <= s }

  /** Everything seen so far agrees with the prefix. */
  predicate MayStartMarker(s: Bytes) { s <= MARKER_PREFIX || StartsMarker(s) }

  function IndexOf(s: Bytes, b: Byte): (i: nat)
    ensures i <= |s| && (i < |s| ==> s[i] == b) && forall j :: 0 <= j < i ==> s[j] != b
  {
    if s == [] || s[0] == b then 0 else 1 + IndexOf(s[1..], b)
  }

  /** Reads a stream position by position: a byte that cannot start a marker is visible, a
      terminated marker is consumed, and anything else is held. */
  function Reference(s: Bytes): Scan {
    if s == [] then Scan([], [])
    else if !MayStartMarker(s) then
      var r := Reference(s[1..]);
      Scan([Visible(s[0])] + r.toks, r.rest)
    else if !StartsMarker(s) then Scan([], s)
    else
      var body := s[|MARKER_PREFIX|..];
      var end := IndexOf(body, MARKER_SUFFIX);
      if end == |body| then Scan([], s)
      else
        var r := Reference(body[end + 1..]);
        Scan([Raw(body[..end])] + r.toks, r.rest)
  }

  /** What one feed of the scanner does: the reference, then the cap. */
  function Fed(buf: Bytes, data: Bytes): Scan {
    var r := Reference(buf + data);
    if |r.rest| <= MAX_PENDING_MARKER_BYTES then r
    else
      var keep := PartialPrefixLen(r.rest);
      Scan(r.toks + VisibleAll(r.rest[..|r.rest| - keep]), r.rest[|r.rest| - keep..])
  }

  /** How many bytes at the end of `s` could be the start of a prefix still to come: as many as possible. */
  function PartialPrefixLen(s: Bytes): (k: nat)
    ensures k <= |s| && k < |MARKER_PREFIX|
    ensures s[|s| - k..] == MARKER_PREFIX[..k]
    ensures forall j :: k < j < |MARKER_PREFIX| && j <= |s| ==> s[|s| - j..] != MARKER_PREFIX[..j]
  {
    LongestOverlap(s, if |s| < |MARKER_PREFIX| - 1 then |s| else |MARKER_PREFIX| - 1)
  }

  function LongestOverlap(s: Bytes, max: nat): (k: nat)
    requires max <= |s| && max < |MARKER_PREFIX|
    ensures k <= max && s[|s| - k..] == MARKER_PREFIX[..k]
    ensures forall j :: k < j <= max ==> s[|s| - j..] != MARKER_PREFIX[..j]
  {
    if max == 0 || s[|s| - max..] == MARKER_PREFIX[..max] then max else LongestOverlap(s, max - 1)
  }

  // ---- The reference is a stream parser --------------------------------------------------------

  lemma CannotStartEver(a: Bytes, b: Bytes)
    requires !MayStartMarker(a)
    ensures !MayStartMarker(a + b)
  {
    if |a| < |MARKER_PREFIX| {
      var i :| 0 <= i < |a| && a[i] != MARKER_PREFIX[i];
      assert (a + b)[i] == a[i];
    } else {
      assert (a + b)[..|MARKER_PREFIX|] == a[..|MARKER_PREFIX|];
    }
  }

  lemma {:induction false} IndexOfStable(a: Bytes, b: Bytes, x: Byte)
    requires IndexOf(a, x) < |a|
    ensures IndexOf(a + b, x) == IndexOf(a, x)
  {
    var i := IndexOf(a, x);
    var j := IndexOf(a + b, x);
    assert forall k :: 0 <= k < |a| ==> (a + b)[k] == a[k];
    assert !(i < j) && !(j < i);
  }

  /** Reading on from what is held equals reading the whole. */
  lemma {:induction false} ReferenceInChunks(a: Bytes, b: Bytes)
    ensures Reference(a + b) == Onward(Reference(a), b)
    decreases |a|
  {
    if a != [] && !MayStartMarker(a) {
      ReferenceInChunks(a[1..], b);
      hide *;
      VisibleThenMore(a, b);
      OnwardAfter(Visible(a[0]), Reference(a[1..]), b);
    } else if StartsMarker(a) && IndexOf(a[|MARKER_PREFIX|..], MARKER_SUFFIX) < |a| - |MARKER_PREFIX| {
      var body := a[|MARKER_PREFIX|..];
      var end := IndexOf(body, MARKER_SUFFIX);
      ReferenceInChunks(body[end + 1..], b);
      hide *;
      MarkerThenMore(a, b, body, end);
      OnwardAfter(Raw(body[..end]), Reference(body[end + 1..]), b);
    } else {
      assert Reference(a) == Scan([], a);
      hide *;
      HeldThenMore(a, b);
    }
  }

  lemma HeldThenMore(a: Bytes, b: Bytes)
    ensures Onward(Scan([], a), b) == Reference(a + b)
  {
    hide Reference;
    assert [] + Reference(a + b).toks == Reference(a + b).toks;
  }

  lemma VisibleThenMore(a: Bytes, b: Bytes)
    requires a != [] && !MayStartMarker(a)
    ensures Reference(a) == Scan([Visible(a[0])] + Reference(a[1..]).toks, Reference(a[1..]).rest)
    ensures Reference(a + b) == Scan([Visible(a[0])] + Reference(a[1..] + b).toks, Reference(a[1..] + b).rest)
  {
    hide *;
    CannotStartEver(a, b);
    ReferenceVisible(a);
    ReferenceVisible(a + b);
    assert (a + b)[1..] == a[1..] + b;
  }

  lemma MarkerThenMore(a: Bytes, b: Bytes, body: Bytes, end: nat)
    requires StartsMarker(a) && body == a[|MARKER_PREFIX|..] && end == IndexOf(body, MARKER_SUFFIX) < |body|
    ensures var first, r := Reference(body[end + 1..]), Reference(body[end + 1..] + b);
            && Reference(a) == Scan([Raw(body[..end])] + first.toks, first.rest)
            && Reference(a + b) == Scan([Raw(body[..end])] + r.toks, r.rest)
  {
    hide *;
    MarkerStays(a, b);
    ReferenceMarker(a, body, end);
    IndexOfStable(body, b, MARKER_SUFFIX);
    SlicesStay(body, b, end);
    ReferenceMarker(a + b, body + b, end);
  }

  lemma MarkerStays(a: Bytes, b: Bytes)
    requires StartsMarker(a)
    ensures |MARKER_PREFIX| <= |a| && StartsMarker(a + b)
    ensures (a + b)[|MARKER_PREFIX|..] == a[|MARKER_PREFIX|..] + b
  {
  }

  lemma SlicesStay(body: Bytes, b: Bytes, end: nat)
    requires end < |body|
    ensures (body + b)[..end] == body[..end] && (body + b)[end + 1..] == body[end + 1..] + b
  {
  }

  lemma ReferenceMarker(s: Bytes, body: Bytes, end: nat)
    requires StartsMarker(s) && body == s[|MARKER_PREFIX|..] && end == IndexOf(body, MARKER_SUFFIX) < |body|
    ensures var r := Reference(body[end + 1..]);
            Reference(s) == Scan([Raw(body[..end])] + r.toks, r.rest)
  {
    hide IndexOf;
  }

  function Onward(r: Scan, b: Bytes): Scan {
    var more := Reference(r.rest + b);
    Scan(r.toks + more.toks, more.rest)
  }

  lemma OnwardAfter(t: Token, r: Scan, b: Bytes)
    ensures Onward(Scan([t] + r.toks, r.rest), b) == Scan([t] + Onward(r, b).toks, Onward(r, b).rest)
  {
    var more := Reference(r.rest + b).toks;
    assert [t] + r.toks + more == [t] + (r.toks + more);
  }

  /** A marker is read as one wherever it starts, and reading goes on behind it. */
  lemma MarkerIsRead(payload: Bytes, rest: Bytes)
    requires MARKER_SUFFIX !in payload
    ensures var r := Reference(rest);
            Reference(Ascii("\U{1B}]777;koshell;") + payload + [7] + rest) == Scan([Raw(payload)] + r.toks, r.rest)
  {
    var s, body := MARKER_PREFIX + payload + [MARKER_SUFFIX] + rest, payload + [MARKER_SUFFIX] + rest;
    assert s == MARKER_PREFIX + body;
    assert s[|MARKER_PREFIX|..] == body && StartsMarker(s);
    var end := IndexOf(body, MARKER_SUFFIX);
    assert body[|payload|] == MARKER_SUFFIX && forall i :: 0 <= i < |payload| ==> body[i] == payload[i];
    assert end == |payload|;
    hide Reference, StartsMarker;
    ReferenceMarker(s, body, end);
    assert body[..end] == payload && body[end + 1..] == rest;
  }

  /** Bytes without an escape character are all visible. */
  lemma {:induction false} PlainBytesAreVisible(s: Bytes)
    requires 0x1B !in s
    ensures Reference(s) == Scan(VisibleAll(s), [])
  {
    if s != [] {
      PlainBytesAreVisible(s[1..]);
      if MayStartMarker(s) { FirstOfPrefix(s); }
      ReferenceVisible(s);
      assert VisibleAll(s) == [Visible(s[0])] + VisibleAll(s[1..]);
    }
  }

  lemma FirstOfPrefix(s: Bytes)
    requires s != [] && MayStartMarker(s)
    ensures s[0] == 0x1B
  {
    assert MARKER_PREFIX[0] == 0x1B;
  }

  /** Nothing is lost, added or reordered. */
  lemma {:induction false} ReferenceReassembles(s: Bytes)
    ensures Unread(Reference(s).toks) + Reference(s).rest == s
  {
    if s != [] && !MayStartMarker(s) {
      ReferenceReassembles(s[1..]);
      hide *;
      VisibleReassembles(s);
    } else if StartsMarker(s) {
      var body := s[|MARKER_PREFIX|..];
      var end := IndexOf(body, MARKER_SUFFIX);
      if end < |body| {
        ReferenceReassembles(body[end + 1..]);
        hide *;
        MarkerReassembles(s, body, end);
      }
    }
  }

  lemma VisibleReassembles(s: Bytes)
    requires s != [] && !MayStartMarker(s)
    requires Unread(Reference(s[1..]).toks) + Reference(s[1..]).rest == s[1..]
    ensures Unread(Reference(s).toks) + Reference(s).rest == s
  {
    hide *;
    ReferenceVisible(s);
    UnreadFirst(Visible(s[0]), Reference(s[1..]), s[1..]);
    UnreadByte(s[0]);
    assert [s[0]] + s[1..] == s;
  }

  lemma ReferenceVisible(s: Bytes)
    requires s != [] && !MayStartMarker(s)
    ensures Reference(s) == Scan([Visible(s[0])] + Reference(s[1..]).toks, Reference(s[1..]).rest)
  {
    hide MayStartMarker, StartsMarker, IndexOf;
  }

  lemma UnreadByte(b: Byte)
    ensures Unread([Visible(b)]) == [b]
  {
    assert [Visible(b)][1..] == [];
  }

  lemma MarkerReassembles(s: Bytes, body: Bytes, end: nat)
    requires StartsMarker(s) && body == s[|MARKER_PREFIX|..] && end == IndexOf(body, MARKER_SUFFIX) < |body|
    requires Unread(Reference(body[end + 1..]).toks) + Reference(body[end + 1..]).rest == body[end + 1..]
    ensures Unread(Reference(s).toks) + Reference(s).rest == s
  {
    MarkerSplit(s, end);
    hide *;
    ReferenceMarker(s, body, end);
    UnreadFirst(Raw(body[..end]), Reference(body[end + 1..]), body[end + 1..]);
    UnreadMarker(body[..end]);
  }

  lemma UnreadMarker(payload: Bytes)
    ensures Unread([Raw(payload)]) == MARKER_PREFIX + payload + [MARKER_SUFFIX]
  {
    var bytes := MARKER_PREFIX + payload + [MARKER_SUFFIX];
    assert bytes + [] == bytes;
    assert [Raw(payload)][1..] == [];
  }

  lemma UnreadFirst(t: Token, r: Scan, rest: Bytes)
    requires Unread(r.toks) + r.rest == rest
    ensures Unread([t] + r.toks) + r.rest == Unread([t]) + rest
  {
    assert ([t] + r.toks)[1..] == r.toks && [t][1..] == [];
  }

  lemma MarkerSplit(s: Bytes, end: nat)
    requires StartsMarker(s) && end < |s| - |MARKER_PREFIX| && s[|MARKER_PREFIX| + end] == MARKER_SUFFIX
    ensures var body := s[|MARKER_PREFIX|..];
            MARKER_PREFIX + body[..end] + [MARKER_SUFFIX] + body[end + 1..] == s
  {
    var body := s[|MARKER_PREFIX|..];
    assert body == body[..end] + [MARKER_SUFFIX] + body[end + 1..];
    assert s == MARKER_PREFIX + body;
  }

  lemma {:induction false} UnreadConcat(a: seq<Token>, b: seq<Token>)
    ensures Unread(a + b) == Unread(a) + Unread(b)
  {
    if a == [] {
      assert a + b == b;
    } else {
      assert (a + b)[1..] == a[1..] + b;
      UnreadConcat(a[1..], b);
    }
  }

  lemma {:induction false} UnreadVisible(s: Bytes)
    ensures Unread(VisibleAll(s)) == s
  {
    if s != [] {
      assert VisibleAll(s)[1..] == VisibleAll(s[1..]);
      UnreadVisible(s[1..]);
    }
  }

  /** What may be held between feeds. */
  ghost predicate HeldProperly(buf: Bytes) {
    Withheld(buf) && |buf| <= MAX_PENDING_MARKER_BYTES
  }

  /** Not a byte that could be shown: the start of a prefix, or an unterminated marker. */
  predicate Withheld(rest: Bytes) { rest < MARKER_PREFIX || (StartsMarker(rest) && MARKER_SUFFIX !in rest) }

  lemma {:induction false} ReferenceHolds(s: Bytes)
    ensures Withheld(Reference(s).rest)
  {
    if s != [] && !MayStartMarker(s) {
      ReferenceHolds(s[1..]);
      hide *;
      ReferenceVisible(s);
    } else if StartsMarker(s) {
      var body := s[|MARKER_PREFIX|..];
      var end := IndexOf(body, MARKER_SUFFIX);
      if end < |body| {
        ReferenceHolds(body[end + 1..]);
        hide *;
        ReferenceMarker(s, body, end);
      } else {
        hide Reference;
        assert s == MARKER_PREFIX + body;
        HeldWhole(s);
      }
    }
  }

  lemma HeldWhole(s: Bytes)
    requires StartsMarker(s) && IndexOf(s[|MARKER_PREFIX|..], MARKER_SUFFIX) == |s| - |MARKER_PREFIX|
    ensures Reference(s) == Scan([], s)
  {
  }

  /** The tokens and the held bytes are the input. */
  ghost predicate Reassembles(r: Scan, s: Bytes) { Unread(r.toks) + r.rest == s }

  lemma ScansJoin(first: Scan, s: Bytes, second: Scan, data: Bytes)
    requires Reassembles(first, s) && Reassembles(second, first.rest + data)
    ensures Reassembles(Scan(first.toks + second.toks, second.rest), s + data)
  {
    hide Unread;
    var u := Unread(first.toks);
    UnreadConcat(first.toks, second.toks);
    assert u + Unread(second.toks) + second.rest == u + (Unread(second.toks) + second.rest);
    assert u + (first.rest + data) == u + first.rest + data;
  }

  /** One feed keeps the held bytes proper and reassembles its input, with or without the cap. */
  lemma FedReassembles(buf: Bytes, data: Bytes)
    ensures HeldProperly(Fed(buf, data).rest)
    ensures Reassembles(Fed(buf, data), buf + data)
  {
    hide Reference, Unread, PartialPrefixLen;
    var r := Reference(buf + data);
    ReferenceHolds(buf + data);
    ReferenceReassembles(buf + data);
    if |r.rest| > MAX_PENDING_MARKER_BYTES {
      var cut := |r.rest| - PartialPrefixLen(r.rest);
      UnreadVisible(r.rest[..cut]);
      assert r.rest[..cut] + r.rest[cut..] == r.rest == r.rest + [];
      ScansJoin(r, buf + data, Scan(VisibleAll(r.rest[..cut]), r.rest[cut..]), []);
      assert buf + data + [] == buf + data;
    }
  }

  // ---- Runs of feeds ---------------------------------------------------------------------------

  function Concat(chunks: seq<Bytes>): Bytes {
    if chunks == [] then [] else Concat(chunks[..|chunks| - 1]) + chunks[|chunks| - 1]
  }

  function RunFeeds(chunks: seq<Bytes>): Scan {
    if chunks == [] then Scan([], [])
    else
      var before := RunFeeds(chunks[..|chunks| - 1]);
      var last := Fed(before.rest, chunks[|chunks| - 1]);
      Scan(before.toks + last.toks, last.rest)
  }

  /** After any run of feeds, capped or not, tokens and held bytes reassemble the stream. */
  lemma {:induction false} RunReassembles(chunks: seq<Bytes>)
    ensures HeldProperly(RunFeeds(chunks).rest)
    ensures Reassembles(RunFeeds(chunks), Concat(chunks))
  {
    hide Fed;
    if chunks != [] {
      var before, data := RunFeeds(chunks[..|chunks| - 1]), chunks[|chunks| - 1];
      RunReassembles(chunks[..|chunks| - 1]);
      FedReassembles(before.rest, data);
      ScansJoin(before, Concat(chunks[..|chunks| - 1]), Fed(before.rest, data), data);
    }
  }

  /** No feed of the run ends up with more than the cap to hold: the guard of the cap, feed by feed. */
  ghost predicate NoFeedCapped(chunks: seq<Bytes>) {
    chunks != [] ==>
      var front := chunks[..|chunks| - 1];
      && NoFeedCapped(front)
      && |Reference(RunFeeds(front).rest + chunks[|chunks| - 1]).rest| <= MAX_PENDING_MARKER_BYTES
  }

  /** Main theorem: a chunking gives the tokens and the held bytes of one reading of the whole
      exactly when none of its feeds hits the cap. */
  lemma ChunkingIsInvisibleIff(chunks: seq<Bytes>)
    ensures RunFeeds(chunks) == Reference(Concat(chunks)) <==> NoFeedCapped(chunks)
  {
    hide *;
    if NoFeedCapped(chunks) {
      UncappedIsReference(chunks);
    } else {
      var n := CappedStrays(chunks);
      StrayedDiffers(RunFeeds(chunks), Concat(chunks), n);
    }
  }

  lemma {:induction false} UncappedIsReference(chunks: seq<Bytes>)
    requires NoFeedCapped(chunks)
    ensures RunFeeds(chunks) == Reference(Concat(chunks))
  {
    hide Reference;
    if chunks == [] {
      assert Reference([]) == Scan([], []) by { NothingRead(); }
    } else {
      UncappedIsReference(chunks[..|chunks| - 1]);
      ReferenceInChunks(Concat(chunks[..|chunks| - 1]), chunks[|chunks| - 1]);
    }
  }

  lemma NothingRead()
    ensures Reference([]) == Scan([], [])
  {
  }

  /** The `n`-th token is a visible byte, and no reading of `s`, however it goes on, has one there. */
  ghost predicate StrayedAt(toks: seq<Token>, s: Bytes, n: nat) {
    n < |toks| && toks[n].Visible? && forall more: Bytes :: NoneVisibleAt(Reference(s + more).toks, n)
  }

  predicate NoneVisibleAt(toks: seq<Token>, n: nat) { n < |toks| ==> toks[n].Raw? }

  /** From the first capped feed on the run has left the reference for good. */
  lemma {:induction false} CappedStrays(chunks: seq<Bytes>) returns (n: nat)
    requires !NoFeedCapped(chunks)
    ensures StrayedAt(RunFeeds(chunks).toks, Concat(chunks), n)
  {
    hide Reference, Fed, StrayedAt;
    var front, data := chunks[..|chunks| - 1], chunks[|chunks| - 1];
    var before := RunFeeds(front);
    if NoFeedCapped(front) {
      UncappedIsReference(front);
      n := |Reference(Concat(front) + data).toks|;
      CapStrays(Concat(front), data);
    } else {
      n := CappedStrays(front);
      StrayedOn(before.toks, Fed(before.rest, data).toks, Concat(front), data, n);
    }
  }

  lemma StrayedOn(toks: seq<Token>, later: seq<Token>, s: Bytes, data: Bytes, n: nat)
    requires StrayedAt(toks, s, n)
    ensures StrayedAt(toks + later, s + data, n)
  {
    hide Reference, NoneVisibleAt;
    forall more: Bytes ensures NoneVisibleAt(Reference(s + data + more).toks, n) {
      assert s + data + more == s + (data + more);
    }
  }

  lemma StrayedDiffers(r: Scan, s: Bytes, n: nat)
    requires StrayedAt(r.toks, s, n)
    ensures r != Reference(s)
  {
    hide Reference;
    assert s + [] == s;
    assert NoneVisibleAt(Reference(s + []).toks, n);
  }

  /** A feed that hits the cap shows the first byte of a marker that may still be completed. */
  lemma CapStrays(s: Bytes, data: Bytes)
    requires |Reference(Reference(s).rest + data).rest| > MAX_PENDING_MARKER_BYTES
    ensures StrayedAt(Reference(s).toks + Fed(Reference(s).rest, data).toks, s + data, |Reference(s + data).toks|)
  {
    hide *;
    ReferenceInChunks(s, data);
    CapShows(Reference(s).rest, data);
    OnwardParts(Reference(s), data);
    forall more: Bytes ensures NoneVisibleAt(Reference(s + data + more).toks, |Reference(s + data).toks|) {
      MarkerNext(s + data, more);
    }
    StrayedNow(Reference(s).toks + Fed(Reference(s).rest, data).toks, s + data, |Reference(s + data).toks|);
  }

  lemma OnwardParts(r: Scan, b: Bytes)
    ensures Onward(r, b).rest == Reference(r.rest + b).rest
    ensures |Onward(r, b).toks| == |r.toks| + |Reference(r.rest + b).toks|
  {
  }

  lemma StrayedNow(toks: seq<Token>, s: Bytes, n: nat)
    requires n < |toks| && toks[n].Visible? && forall more: Bytes :: NoneVisibleAt(Reference(s + more).toks, n)
    ensures StrayedAt(toks, s, n)
  {
  }

  lemma CapShows(buf: Bytes, data: Bytes)
    requires |Reference(buf + data).rest| > MAX_PENDING_MARKER_BYTES
    ensures var held, toks := Reference(buf + data), Fed(buf, data).toks;
            StartsMarker(held.rest) && |held.toks| < |toks| && toks[|held.toks|].Visible?
  {
    var held := Reference(buf + data);
    ReferenceHolds(buf + data);
    hide Reference, PartialPrefixLen, StartsMarker;
    assert Fed(buf, data).toks == held.toks + VisibleAll(held.rest[..|held.rest| - PartialPrefixLen(held.rest)]);
  }

  lemma MarkerNext(s: Bytes, more: Bytes)
    requires StartsMarker(Reference(s).rest)
    ensures NoneVisibleAt(Reference(s + more).toks, |Reference(s).toks|)
  {
    var r := Reference(s);
    hide Reference;
    ReferenceInChunks(s, more);
    MarkerStays(r.rest, more);
    MarkerFirst(r.rest + more);
  }

  /** A stream that starts with a marker reads as that marker first, or is held. */
  lemma MarkerFirst(s: Bytes)
    requires StartsMarker(s)
    ensures NoneVisibleAt(Reference(s).toks, 0)
  {
    hide IndexOf;
  }

  /** No marker of the stream ever has more than the cap pending. */
  ghost predicate NeverOverCap(s: Bytes) {
    forall k :: 0 <= k <= |s| ==> |Reference(s[..k]).rest| <= MAX_PENDING_MARKER_BYTES
  }

  /** On a stream without over-long markers every chunking is invisible. */
  lemma {:induction false} ChunkingIsInvisible(chunks: seq<Bytes>)
    requires NeverOverCap(Concat(chunks))
    ensures RunFeeds(chunks) == Reference(Concat(chunks)) && NoFeedCapped(chunks)
  {
    hide Reference;
    if chunks == [] {
      NothingRead();
    } else {
      var before, data := chunks[..|chunks| - 1], chunks[|chunks| - 1];
      var s := Concat(before);
      forall k | 0 <= k <= |s| ensures |Reference(s[..k]).rest| <= MAX_PENDING_MARKER_BYTES {
        assert (s + data)[..k] == s[..k];
      }
      ChunkingIsInvisible(before);
      ReferenceInChunks(s, data);
      assert (s + data)[..|s + data|] == s + data;
    }
  }

  /** Past the cap the boundary shows: a marker one byte too long to wait for is a marker when it
      arrives whole, and visible bytes when its terminator comes in a second chunk. */
  lemma OverCapDependsOnChunking(payload: Bytes)
    requires |payload| == MAX_PENDING_MARKER_BYTES && MARKER_SUFFIX !in payload
    ensures var head, tail := MARKER_PREFIX + payload, [MARKER_SUFFIX];
            && RunFeeds([head + tail]) == Scan([Raw(payload)], [])
            && RunFeeds([head, tail]).toks != []
            && RunFeeds([head, tail]).toks[0] == Visible(MARKER_PREFIX[0])
  {
    var head, tail := MARKER_PREFIX + payload, [MARKER_SUFFIX];
    WholeMarker(payload);
    OneFeed(head + tail);
    HalfMarker(payload);
    OneFeed(head);
    GivenUp(head);
    assert [head, tail][..1] == [head];
    hide Reference, Unread, PartialPrefixLen;
    assert Fed([], head + tail) == Scan([Raw(payload)], []);
  }

  /** A marker one byte past the cap is made visible from its first byte. */
  lemma GivenUp(head: Bytes)
    requires |head| > MAX_PENDING_MARKER_BYTES && MARKER_PREFIX <= head && Reference(head) == Scan([], head)
    ensures Fed([], head).toks != [] && Fed([], head).toks[0] == Visible(MARKER_PREFIX[0])
  {
    hide Reference, PartialPrefixLen;
    assert [] + head == head;
    assert head[0] == MARKER_PREFIX[0];
    var keep := PartialPrefixLen(head);
    assert Fed([], head).toks == VisibleAll(head[..|head| - keep]);
  }

  lemma OneFeed(data: Bytes)
    ensures RunFeeds([data]) == Fed([], data)
    ensures [] + data == data
  {
    assert RunFeeds([data][..0]) == Scan([], []);
    var r := Fed([], data);
    assert [] + r.toks == r.toks;
  }

  lemma WholeMarker(payload: Bytes)
    requires MARKER_SUFFIX !in payload
    ensures Reference(MARKER_PREFIX + payload + [MARKER_SUFFIX]) == Scan([Raw(payload)], [])
  {
    var s := MARKER_PREFIX + payload + [MARKER_SUFFIX];
    assert StartsMarker(s);
    assert s[|MARKER_PREFIX|..] == payload + [MARKER_SUFFIX];
    assert (payload + [MARKER_SUFFIX])[|payload|] == MARKER_SUFFIX;
    assert IndexOf(payload + [MARKER_SUFFIX], MARKER_SUFFIX) == |payload|;
  }

  lemma HalfMarker(payload: Bytes)
    requires MARKER_SUFFIX !in payload
    ensures Reference(MARKER_PREFIX + payload) == Scan([], MARKER_PREFIX + payload)
  {
    var s := MARKER_PREFIX + payload;
    assert StartsMarker(s);
    assert s[|MARKER_PREFIX|..] == payload;
    assert IndexOf(payload, MARKER_SUFFIX) == |payload|;
  }

  // ---- The scanner -------------------------------------------------------------------------------

  /** A segment handed to the session: visible bytes, or a marker whose payload parsed. */
  datatype Segment<M> = VisibleSegment(bytes: Bytes) | MarkerSegment(marker: M)

  /** The stream as the session sees it, visible runs merged. */
  datatype Item<M> = Shown(b: Byte) | Parsed(marker: M)

  type Parser<M> = Bytes -> Option<M>

  /** Tokens after payload parsing: a payload that does not parse leaves nothing behind. */
  function Rendered<M>(toks: seq<Token>, parse: Parser<M>): seq<Item<M>> {
    if toks == [] then []
    else (match toks[0]
          case Visible(b) => [Shown(b)]
          case Raw(payload) =>
            match parse(payload)
            case Some(m) => [Parsed(m)]
            case None => []) + Rendered(toks[1..], parse)
  }

  function ShownAll<M>(s: Bytes): seq<Item<M>> {
    seq(|s|, i requires 0 <= i < |s| => Shown(s[i]))
  }

  function Merged<M>(segments: seq<Segment<M>>): seq<Item<M>> {
    if segments == [] then []
    else
      var last := segments[|segments| - 1];
      Merged(segments[..|segments| - 1])
      + (match last
         case VisibleSegment(bytes) => ShownAll(bytes)
         case MarkerSegment(m) => [Parsed(m)])
  }

  lemma MergedPush<M>(segments: seq<Segment<M>>, s: Segment<M>)
    ensures Merged(segments + [s]) == Merged(segments) + match s
      case VisibleSegment(bytes) => ShownAll(bytes)
      case MarkerSegment(m) => [Parsed(m)]
  {
    assert (segments + [s])[..|segments|] == segments;
  }

  lemma {:induction false} RenderedConcat<M>(a: seq<Token>, b: seq<Token>, parse: Parser<M>)
    ensures Rendered(a + b, parse) == Rendered(a, parse) + Rendered(b, parse)
  {
    if a == [] {
      assert a + b == b;
    } else {
      assert (a + b)[1..] == a[1..] + b;
      RenderedConcat(a[1..], b, parse);
    }
  }

  lemma {:induction false} RenderedVisible<M>(s: Bytes, parse: Parser<M>)
    ensures Rendered(VisibleAll(s), parse) == ShownAll(s)
  {
    if s != [] {
      assert VisibleAll(s)[1..] == VisibleAll(s[1..]);
      RenderedVisible(s[1..], parse);
      assert ShownAll<M>(s) == [Shown(s[0])] + ShownAll(s[1..]);
    }
  }

  /** Reading `s` gives `toks` and goes on as reading `rest`. */
  ghost predicate ReadsAs(s: Bytes, toks: seq<Token>, rest: Bytes) {
    Reference(s) == Scan(toks + Reference(rest).toks, Reference(rest).rest)
  }

  lemma ReadsOn(s: Bytes, t: seq<Token>, mid: Bytes, u: seq<Token>, rest: Bytes)
    requires ReadsAs(s, t, mid) && ReadsAs(mid, u, rest)
    ensures ReadsAs(s, t + u, rest)
  {
    hide Reference;
    var more := Reference(rest).toks;
    assert t + u + more == t + (u + more);
  }

  /** Bytes before the first place a marker could start are visible. */
  lemma {:induction false} SkipVisible(s: Bytes, d: nat)
    requires d <= |s| && forall q :: 0 <= q < d ==> !MayStartMarker(s[q..])
    ensures ReadsAs(s, VisibleAll(s[..d]), s[d..])
  {
    hide *;
    if d == 0 {
      ReadsNothing(s);
    } else {
      forall q | 0 <= q < d - 1 ensures !MayStartMarker(s[1..][q..]) { assert s[1..][q..] == s[q + 1..]; }
      SkipVisible(s[1..], d - 1);
      VisibleFirst(s);
      ReadsOn(s, [Visible(s[0])], s[1..], VisibleAll(s[1..][..d - 1]), s[1..][d - 1..]);
      OneMoreVisible(s, d);
    }
  }

  lemma ReadsNothing(s: Bytes)
    ensures ReadsAs(s, VisibleAll(s[..0]), s[0..])
  {
    hide Reference;
    assert s[0..] == s && VisibleAll(s[..0]) == [];
    assert [] + Reference(s).toks == Reference(s).toks;
  }

  lemma OneMoreVisible(s: Bytes, d: nat)
    requires 0 < d <= |s|
    ensures VisibleAll(s[..d]) == [Visible(s[0])] + VisibleAll(s[1..][..d - 1]) && s[1..][d - 1..] == s[d..]
  {
  }

  lemma VisibleFirst(s: Bytes)
    requires s != [] && !MayStartMarker(s[0..])
    ensures ReadsAs(s, [Visible(s[0])], s[1..])
  {
    assert s[0..] == s;
  }

  /** A complete prefix is found where the reference first stops at it. */
  lemma SkipToPrefix(s: Bytes, pos: nat)
    requires pos <= |s| && StartsMarker(s[pos..]) && forall q :: 0 <= q < pos ==> !StartsMarker(s[q..])
    ensures ReadsAs(s, VisibleAll(s[..pos]), s[pos..])
  {
    assert forall q :: 0 <= q < pos ==> |s[q..]| > |s[pos..]| >= |MARKER_PREFIX|;
    SkipVisible(s, pos);
  }

  /** With no complete prefix, everything but the longest overlap is visible. */
  lemma SkipToOverlap(s: Bytes)
    requires forall q :: 0 <= q <= |s| ==> !StartsMarker(s[q..])
    ensures var d := |s| - PartialPrefixLen(s);
            ReadsAs(s, VisibleAll(s[..d]), s[d..]) && Reference(s[d..]) == Scan([], s[d..])
  {
    hide MayStartMarker, StartsMarker, IndexOf, PartialPrefixLen;
    var k := PartialPrefixLen(s);
    forall q | 0 <= q < |s| - k ensures !MayStartMarker(s[q..]) {
      if MayStartMarker(s[q..]) { OverlapsFrom(s, q); }
    }
    SkipVisible(s, |s| - k);
    OverlapIsHeld(s[|s| - k..], k);
  }

  lemma OverlapIsHeld(s: Bytes, k: nat)
    requires k < |MARKER_PREFIX| && s == MARKER_PREFIX[..k]
    ensures Reference(s) == Scan([], s)
  {
  }

  lemma OverlapsFrom(s: Bytes, q: nat)
    requires q <= |s| && MayStartMarker(s[q..]) && !StartsMarker(s[q..])
    ensures |s| - q <= PartialPrefixLen(s)
  {
    hide PartialPrefixLen, StartsMarker;
    PrefixShape(s[q..]);
    var j := |s| - q;
    assert s[|s| - j..] == MARKER_PREFIX[..j];
  }

  lemma PrefixShape(s: Bytes)
    requires s <= MARKER_PREFIX
    ensures s == MARKER_PREFIX[..|s|] && (|s| >= |MARKER_PREFIX| ==> StartsMarker(s))
  {
  }

  lemma ReadMarker(s: Bytes)
    requires StartsMarker(s)
    ensures var body := s[|MARKER_PREFIX|..];
            var end := IndexOf(body, MARKER_SUFFIX);
            if end < |body| then ReadsAs(s, [Raw(body[..end])], body[end + 1..]) else Reference(s) == Scan([], s)
  {
  }

  method FindSubslice(haystack: Bytes, needle: Bytes) returns (pos: Option<nat>)
    requires needle != []
    ensures pos.Some? ==>
      && pos.value + |needle| <= |haystack| && needle <= haystack[pos.value..]
      && forall q :: 0 <= q < pos.value ==> !(needle <= haystack[q..])
    ensures pos.None? ==> forall q :: 0 <= q <= |haystack| ==> !(needle <= haystack[q..])
  {
    var i := 0;
    while i + |needle| <= |haystack|
      invariant forall q :: 0 <= q < i && q <= |haystack| ==> !(needle <= haystack[q..])
    {
      if haystack[i..i + |needle|] == needle {
        assert haystack[i..][..|needle|] == needle;
        return Some(i);
      }
      assert haystack[i..i + |needle|] == haystack[i..][..|needle|];
      i := i + 1;
    }
    return None;
  }

  class MarkerScanner<M> {
    const parse: Parser<M>
    var buf: Bytes

    constructor (parse: Parser<M>)
      ensures this.parse == parse && buf == []
    {
      this.parse, buf := parse, [];
    }

    /** Reads on from the held bytes; `out` shows the tokens one feed of the specification gives. */
    method Feed(data: Bytes) returns (out: seq<Segment<M>>)
      modifies this
      ensures buf == Fed(old(buf), data).rest
      ensures Merged(out) == Rendered(Fed(old(buf), data).toks, parse)
      ensures forall s :: s in out && s.VisibleSegment? ==> s.bytes != []
    {
      hide Reference, Rendered, Merged, PartialPrefixLen, Progress, ShownAll, Pushed;
      buf := buf + data;
      out := [];
      var visible: Bytes := [];
      ghost var whole, seen := buf, [];
      ProgressStarts(whole, parse);
      while true
        invariant Progress(whole, seen, buf, Pushed(out, visible), parse)
        invariant forall s :: s in out && s.VisibleSegment? ==> s.bytes != []
        decreases |buf|
      {
        var found := FindSubslice(buf, MARKER_PREFIX);
        if found.None? {
          // Only the end of the buffer can still become a prefix.
          var emit := |buf| - PartialPrefixLen(buf);
          SkipToOverlap(buf);
          ProgressVisible(whole, seen, buf, out, visible, emit, parse);
          seen, visible, buf := seen + VisibleAll(buf[..emit]), visible + buf[..emit], buf[emit..];
          break;
        }
        var pos := found.value;
        SkipToPrefix(buf, pos);
        ProgressVisible(whole, seen, buf, out, visible, pos, parse);
        seen, visible, buf := seen + VisibleAll(buf[..pos]), visible + buf[..pos], buf[pos..];
        ReadMarker(buf);
        var body := buf[|MARKER_PREFIX|..];
        var end := IndexOf(body, MARKER_SUFFIX);
        if end == |body| {
          break;
        }
        ProgressMarker(whole, seen, buf, out, visible, body[..end], body[end + 1..], parse);
        out, visible := PushVisible(out, visible), [];
        var marker := parse(body[..end]);
        if marker.Some? {
          out := out + [MarkerSegment(marker.value)];
        }
        seen, buf := seen + [Raw(body[..end])], body[end + 1..];
      }
      ProgressEnds(whole, seen, buf, out, visible, parse);
      // Only an unfinished marker can be this long: give it up as literal output.
      if |buf| > MAX_PENDING_MARKER_BYTES {
        var emit := |buf| - PartialPrefixLen(buf);
        ShowMore(seen, out, visible, buf[..emit], parse);
        visible, buf := visible + buf[..emit], buf[emit..];
      }
      PushedVisible(out, visible);
      out := PushVisible(out, visible);
    }
  }

  function PushVisible<M>(out: seq<Segment<M>>, visible: Bytes): seq<Segment<M>> {
    if visible == [] then out else out + [VisibleSegment(visible)]
  }

  /** The stream so far: the finished segments and the visible bytes not yet in one. */
  function Pushed<M>(out: seq<Segment<M>>, visible: Bytes): seq<Item<M>> {
    Merged(out) + ShownAll(visible)
  }

  /** Where a feed stands: `seen` has been read and pushed, `buf` is still to be read. */
  ghost predicate Progress<M>(whole: Bytes, seen: seq<Token>, buf: Bytes, items: seq<Item<M>>, parse: Parser<M>) {
    ReadsAs(whole, seen, buf) && items == Rendered(seen, parse)
  }

  lemma ProgressStarts<M>(whole: Bytes, parse: Parser<M>)
    ensures Progress(whole, [], whole, Pushed([], []), parse)
  {
  }

  lemma ProgressVisible<M>(whole: Bytes, seen: seq<Token>, buf: Bytes, out: seq<Segment<M>>, visible: Bytes, d: nat, parse: Parser<M>)
    requires d <= |buf| && ReadsAs(buf, VisibleAll(buf[..d]), buf[d..])
    requires Progress(whole, seen, buf, Pushed(out, visible), parse)
    ensures Progress(whole, seen + VisibleAll(buf[..d]), buf[d..], Pushed(out, visible + buf[..d]), parse)
  {
    hide ReadsAs, Pushed, Rendered;
    ReadsOn(whole, seen, buf, VisibleAll(buf[..d]), buf[d..]);
    ShowMore(seen, out, visible, buf[..d], parse);
  }

  lemma ProgressMarker<M>(whole: Bytes, seen: seq<Token>, buf: Bytes, out: seq<Segment<M>>, visible: Bytes,
                          payload: Bytes, rest: Bytes, parse: Parser<M>)
    requires ReadsAs(buf, [Raw(payload)], rest)
    requires Progress(whole, seen, buf, Pushed(out, visible), parse)
    ensures var pushed := PushVisible(out, visible);
            var after := match parse(payload) case Some(m) => pushed + [MarkerSegment(m)] case None => pushed;
            Progress(whole, seen + [Raw(payload)], rest, Pushed(after, []), parse)
  {
    hide ReadsAs, Rendered, Merged;
    ReadsOn(whole, seen, buf, [Raw(payload)], rest);
    RenderMarker(seen, payload, parse);
    PushedVisible(out, visible);
    var pushed := PushVisible(out, visible);
    if parse(payload).Some? { MergedPush(pushed, MarkerSegment(parse(payload).value)); }
  }

  lemma ProgressEnds<M>(whole: Bytes, seen: seq<Token>, buf: Bytes, out: seq<Segment<M>>, visible: Bytes, parse: Parser<M>)
    requires Progress(whole, seen, buf, Pushed(out, visible), parse) && Reference(buf) == Scan([], buf)
    ensures Reference(whole) == Scan(seen, buf) && Pushed(out, visible) == Rendered(seen, parse)
  {
  }

  lemma PushedVisible<M>(out: seq<Segment<M>>, visible: Bytes)
    ensures Merged(PushVisible(out, visible)) == Pushed(out, visible)
  {
    if visible != [] { MergedPush(out, VisibleSegment(visible)); }
  }

  lemma ShowMore<M>(seen: seq<Token>, out: seq<Segment<M>>, visible: Bytes, more: Bytes, parse: Parser<M>)
    requires Pushed(out, visible) == Rendered(seen, parse)
    ensures Pushed(out, visible + more) == Rendered(seen + VisibleAll(more), parse)
  {
    hide Rendered, Merged;
    RenderedConcat(seen, VisibleAll(more), parse);
    RenderedVisible(more, parse);
    assert Pushed(out, visible + more) == Pushed(out, visible) + ShownAll(more);
  }

  lemma RenderMarker<M>(seen: seq<Token>, payload: Bytes, parse: Parser<M>)
    ensures Rendered(seen + [Raw(payload)], parse)
         == Rendered(seen, parse) + match parse(payload) case Some(m) => [Parsed(m)] case None => []
  {
    RenderedConcat(seen, [Raw(payload)], parse);
    assert [Raw(payload)][1..] == [];
  }
}
