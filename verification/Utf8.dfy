/** UTF-8 as `std::str::from_utf8` reads it: one sequence at a time, with the length of each
    ill-formed subpart.  `Lossy` is the whole-input decoder, `Decode` the one that holds an
    unfinished tail for the next chunk. */
module Utf8 {
  import opened Common

  /** A `char` is a Unicode scalar value, as in Rust; a `string` is a sequence of them. */
  const REPLACEMENT: char := '\U{FFFD}'

  // ---- One sequence ------------------------------------------------------------------

  /** What the front of a non-empty input holds: a well-formed sequence, an ill-formed subpart,
      or a sequence the input ends in the middle of. */
  datatype Front = Whole(len: nat) | Bad(len: nat) | Cut

  function Width(lead: Byte): nat {
    if lead < 0x80 then 1
    else if 0xC2 <= lead <= 0xDF then 2
    else if 0xE0 <= lead <= 0xEF then 3
    else if 0xF0 <= lead <= 0xF4 then 4
    else 0
  }

  predicate IsContinuation(b: Byte) { 0x80 <= b <= 0xBF }

  /** Table 3-7 of the Unicode Standard: the second byte is narrower after four of the leads. */
  predicate SecondByteFits(lead: Byte, b: Byte) {
    && IsContinuation(b)
    && (lead == 0xE0 ==> 0xA0 <= b)
    && (lead == 0xED ==> b <= 0x9F)
    && (lead == 0xF0 ==> 0x90 <= b)
    && (lead == 0xF4 ==> b <= 0x8F)
  }

  function FrontOf(s: seq<Byte>): Front
    requires s != []
  {
    var w := Width(s[0]);
    if w == 0 then Bad(1)
    else if w == 1 then Whole(1)
    else if |s| < 2 then Cut
    else if !SecondByteFits(s[0], s[1]) then Bad(1)
    else if w == 2 then Whole(2)
    else if |s| < 3 then Cut
    else if !IsContinuation(s[2]) then Bad(2)
    else if w == 3 then Whole(3)
    else if |s| < 4 then Cut
    else if !IsContinuation(s[3]) then Bad(3)
    else Whole(4)
  }

  function Join(high: int, b: Byte): int { high * 0x40 + (b - 0x80) }

  predicate IsScalar(v: int) { 0 <= v <= 0x10FFFF && !(0xD800 <= v <= 0xDFFF) }

  function Value(s: seq<Byte>): (c: char)
    requires s != [] && FrontOf(s).Whole?
    ensures Encode(c) == s[..FrontOf(s).len]
  {
    match FrontOf(s).len
    case 1 => s[0] as char
    case 2 => Value2Encodes(s[0], s[1]); Join(s[0] - 0xC0, s[1]) as char
    case 3 => Value3Encodes(s[0], s[1], s[2]); Join(Join(s[0] - 0xE0, s[1]), s[2]) as char
    case _ => Value4Encodes(s[0], s[1], s[2], s[3]); Join(Join(Join(s[0] - 0xF0, s[1]), s[2]), s[3]) as char
  }

  lemma Value2Encodes(lead: Byte, b1: Byte)
    requires Width(lead) == 2 && SecondByteFits(lead, b1)
    ensures var c := Join(lead - 0xC0, b1); 0x80 <= c < 0x800 && EncodeInt(c) == [lead, b1]
  {
  }

  lemma Value3Encodes(lead: Byte, b1: Byte, b2: Byte)
    requires Width(lead) == 3 && SecondByteFits(lead, b1) && IsContinuation(b2)
    ensures var c := Join(Join(lead - 0xE0, b1), b2);
            && 0x800 <= c < 0x10000 && IsScalar(c) && EncodeInt(c) == [lead, b1, b2]
  {
    var c := Join(Join(lead - 0xE0, b1), b2);
    assert c / 0x40 == Join(lead - 0xE0, b1) && c % 0x40 == b2 - 0x80;
  }

  lemma Value4Encodes(lead: Byte, b1: Byte, b2: Byte, b3: Byte)
    requires Width(lead) == 4 && SecondByteFits(lead, b1) && IsContinuation(b2) && IsContinuation(b3)
    ensures var c := Join(Join(Join(lead - 0xF0, b1), b2), b3);
            && 0x10000 <= c <= 0x10FFFF && EncodeInt(c) == [lead, b1, b2, b3]
  {
    var d := Join(Join(lead - 0xF0, b1), b2);
    var c := Join(d, b3);
    assert c / 0x40 == d && c % 0x40 == b3 - 0x80;
    assert d / 0x40 == Join(lead - 0xF0, b1) && d % 0x40 == b2 - 0x80;
  }

  /** The encoder of section 3 of RFC 3629, the reference the decoder is measured against. */
  function Encode(c: char): seq<Byte> { EncodeInt(c as int) }

  function EncodeInt(c: int): seq<Byte>
    requires IsScalar(c)
  {
    if c < 0x80 then [c]
    else if c < 0x800 then [0xC0 + c / 0x40, 0x80 + c % 0x40]
    else if c < 0x10000 then [0xE0 + c / 0x40 / 0x40, 0x80 + c / 0x40 % 0x40, 0x80 + c % 0x40]
    else [0xF0 + c / 0x40 / 0x40 / 0x40, 0x80 + c / 0x40 / 0x40 % 0x40, 0x80 + c / 0x40 % 0x40, 0x80 + c % 0x40]
  }

  function CharBytes(c: char): (n: nat)
    ensures 1 <= n <= 4
  {
    if c < '\U{80}' then 1 else if c < '\U{800}' then 2 else if c < '\U{10000}' then 3 else 4
  }

  lemma CharBytesIsEncodedLength(c: char)
    ensures CharBytes(c) == |Encode(c)|
  {
  }

  lemma EncodedFront(c: char, rest: seq<Byte>)
    ensures FrontOf(Encode(c) + rest) == Whole(|Encode(c)|)
    ensures Value(Encode(c) + rest) == c
  {
    var e := Encode(c);
    var s := e + rest;
    assert s[..|e|] == e;
    EncodedBytes(c);
    assert forall i | 0 <= i < |e| :: s[i] == e[i];
    assert Encode(Value(s)) == e;
    EncodeInjective(Value(s), c);
  }

  lemma EncodedBytes(c: char)
    ensures FrontOf(Encode(c)) == Whole(|Encode(c)|)
  {
  }

  lemma EncodeInjective(c: char, d: char)
    requires Encode(c) == Encode(d)
    ensures c == d
  {
  }

  // ---- Ill-formed input ----------------------------------------------------------------

  /** An ill-formed subpart is what definition U+FFFD substitution (section 3.9 of the Unicode
      Standard) calls maximal: it starts some well-formed sequence, or is one byte, and no
      longer piece of the input starts one. */
  lemma BadIsMaximalSubpart(s: seq<Byte>)
    requires s != [] && FrontOf(s).Bad?
    ensures var n := FrontOf(s).len;
            && n <= |s|
            && (n == 1 || exists c: char :: s[..n] <= Encode(c))
            && forall c: char, k :: n < k <= |s| ==> !(s[..k] <= Encode(c))
  {
    var n := FrontOf(s).len;
    forall c: char, k | n < k <= |s| ensures !(s[..k] <= Encode(c)) {
      assert FrontOf(s[..k]) == Bad(n);
      if k <= |Encode(c)| {
        EncodedPrefix(c, k);
        assert Encode(c)[..k] != s[..k];
      }
    }
    if n > 1 { Completion(s[..n]); }
  }

  lemma EncodedPrefix(c: char, k: nat)
    requires 0 < k <= |Encode(c)|
    ensures !FrontOf(Encode(c)[..k]).Bad?
  {
    EncodedBytes(c);
  }

  /** A held tail is short, and is the start of a well-formed sequence. */
  lemma CutIsUnfinished(s: seq<Byte>)
    requires s != [] && FrontOf(s).Cut?
    ensures |s| <= 3
    ensures exists c: char :: s < Encode(c)
  {
    Completion(s);
  }

  lemma Completion(s: seq<Byte>)
    requires s != [] && FrontOf(s).Cut?
    ensures exists c: char :: s < Encode(c)
  {
    var second: Byte := if s[0] == 0xE0 then 0xA0 else if s[0] == 0xF0 then 0x90 else 0x80;
    var tail := if |s| == 1 then [second] else [];
    var third := if |s| <= 2 && Width(s[0]) >= 3 then [0x80 as Byte] else [];
    var fourth := if Width(s[0]) == 4 then [0x80 as Byte] else [];
    var whole := s + tail + third + fourth;
    assert FrontOf(whole) == Whole(|whole|);
    assert whole[..|whole|] == whole;
    assert s < Encode(Value(whole));
  }

  // ---- Decoding ------------------------------------------------------------------------

  /** Lossy decoding of a whole input: one U+FFFD for each ill-formed subpart, the unfinished
      tail included. */
  function Lossy(s: seq<Byte>): string {
    if s == [] then []
    else match FrontOf(s)
      case Whole(n) => [Value(s)] + Lossy(s[n..])
      case Bad(n) => [REPLACEMENT] + Lossy(s[n..])
      case Cut => [REPLACEMENT]
  }

  datatype Decoded = Decoded(text: string, rest: seq<Byte>)

  /** Decoding that keeps an unfinished tail. */
  function Decode(s: seq<Byte>): (d: Decoded)
    ensures |d.rest| <= 3
    ensures d.rest != [] ==> FrontOf(d.rest).Cut?
  {
    if s == [] then Decoded([], [])
    else match FrontOf(s)
      case Whole(n) => var d := Decode(s[n..]); Decoded([Value(s)] + d.text, d.rest)
      case Bad(n) => var d := Decode(s[n..]); Decoded([REPLACEMENT] + d.text, d.rest)
      case Cut => Decoded([], s)
  }

  lemma LossyIsDecodePlusTail(s: seq<Byte>)
    ensures Lossy(s) == Decode(s).text + if Decode(s).rest == [] then [] else [REPLACEMENT]
  {
    if s != [] && !FrontOf(s).Cut? { LossyIsDecodePlusTail(s[FrontOf(s).len..]); }
  }

  lemma DecodeStep(s: seq<Byte>)
    requires s != [] && !FrontOf(s).Cut?
    ensures var n := FrontOf(s).len;
            && 0 < n <= |s|
            && Decode(s) == Decoded(FrontText(s) + Decode(s[n..]).text, Decode(s[n..]).rest)
  {
  }

  function FrontText(s: seq<Byte>): string
    requires s != [] && !FrontOf(s).Cut?
  {
    if FrontOf(s).Whole? then [Value(s)] else [REPLACEMENT]
  }

  /** Holding the tail makes chunk boundaries invisible. */
  lemma {:induction false} DecodeInChunks(a: seq<Byte>, b: seq<Byte>)
    ensures Decode(a + b) == InChunks(a, b)
    decreases |a|
  {
    if a == [] {
      assert a + b == b && Decode(a).rest + b == b;
    } else if FrontOf(a).Cut? {
      assert Decode(a) == Decoded([], a);
    } else {
      var n := FrontOf(a).len;
      DecodeStep(a);
      DecodeStepConcat(a, b);
      DecodeInChunks(a[n..], b);
      AppendText(FrontText(a), Decode(a[n..]), b);
    }
  }

  function InChunks(a: seq<Byte>, b: seq<Byte>): Decoded {
    Continue(Decode(a), b)
  }

  /** Decoding `b` after a state that has produced `d.text` and holds `d.rest`. */
  function Continue(d: Decoded, b: seq<Byte>): Decoded {
    var more := Decode(d.rest + b);
    Decoded(d.text + more.text, more.rest)
  }

  lemma AppendText(front: string, d: Decoded, b: seq<Byte>)
    ensures Continue(Decoded(front + d.text, d.rest), b)
         == Decoded(front + Continue(d, b).text, Continue(d, b).rest)
  {
    var more := Decode(d.rest + b).text;
    assert front + d.text + more == front + (d.text + more);
  }

  lemma DecodeStepConcat(a: seq<Byte>, b: seq<Byte>)
    requires a != [] && !FrontOf(a).Cut?
    ensures var n := FrontOf(a).len;
            && n <= |a|
            && Decode(a + b) == Decoded(FrontText(a) + Decode(a[n..] + b).text, Decode(a[n..] + b).rest)
  {
    FrontIsStable(a, b);
    DecodeStep(a + b);
    assert (a + b)[FrontOf(a).len..] == a[FrontOf(a).len..] + b;
  }

  lemma FrontIsStable(a: seq<Byte>, b: seq<Byte>)
    requires a != [] && !FrontOf(a).Cut?
    ensures FrontOf(a + b) == FrontOf(a)
    ensures FrontOf(a).Whole? ==> Value(a + b) == Value(a)
  {
    assert forall i | 0 <= i < |a| :: (a + b)[i] == a[i];
    if FrontOf(a).Whole? {
      var n := FrontOf(a).len;
      assert (a + b)[..n] == a[..n];
      EncodeInjective(Value(a + b), Value(a));
    }
  }

  function EncodeAll(text: string): seq<Byte> {
    if text == [] then [] else Encode(text[0]) + EncodeAll(text[1..])
  }

  /** Well-formed input is decoded to exactly the text it encodes, with nothing held. */
  lemma {:induction false} DecodeInvertsEncode(text: string)
    ensures Decode(EncodeAll(text)) == Decoded(text, [])
    ensures Lossy(EncodeAll(text)) == text
  {
    if text != [] {
      var e, rest := Encode(text[0]), EncodeAll(text[1..]);
      EncodedFront(text[0], rest);
      assert (e + rest)[|e|..] == rest;
      DecodeInvertsEncode(text[1..]);
      assert [text[0]] + text[1..] == text;
    }
  }

  // ---- Sizes ---------------------------------------------------------------------------

  /** Length of the UTF-8 encoding, the size `String::len` reports. */
  function ByteLen(text: string): (n: nat) {
    if text == [] then 0 else CharBytes(text[0]) + ByteLen(text[1..])
  }

  lemma {:induction false} ByteLenIsEncodedLength(text: string)
    ensures ByteLen(text) == |EncodeAll(text)|
  {
    if text != [] {
      CharBytesIsEncodedLength(text[0]);
      ByteLenIsEncodedLength(text[1..]);
    }
  }

  lemma {:induction false} ByteLenConcat(a: string, b: string)
    ensures ByteLen(a + b) == ByteLen(a) + ByteLen(b)
  {
    if a == [] {
      assert a + b == b;
    } else {
      assert (a + b)[1..] == a[1..] + b;
      ByteLenConcat(a[1..], b);
    }
  }

  lemma ByteLenSplit(text: string, k: nat)
    requires k <= |text|
    ensures ByteLen(text) == ByteLen(text[..k]) + ByteLen(text[k..])
  {
    ByteLenConcat(text[..k], text[k..]);
    assert text[..k] + text[k..] == text;
  }

  // ---- `std::str::from_utf8` -------------------------------------------------------------

  datatype Validity = Valid | Invalid(validUpTo: nat, errorLen: Option<nat>)

  /** The validity verdict: how far the input is well-formed, and the length of the ill-formed
      subpart there (`None` when the input ends in the middle of a sequence). */
  function FromUtf8(s: seq<Byte>): (v: Validity)
    ensures v.Invalid? ==> v.validUpTo < |s|
    ensures v.Invalid? ==>
      var tail := s[v.validUpTo..];
      FrontOf(tail) == (match v.errorLen case Some(n) => Bad(n) case None => Cut)
  {
    if s == [] then Valid
    else match FrontOf(s)
      case Bad(n) => Invalid(0, Some(n))
      case Cut => Invalid(0, None)
      case Whole(n) =>
        match FromUtf8(s[n..])
        case Valid => Valid
        case Invalid(up, len) => assert s[n..][up..] == s[n + up..]; Invalid(n + up, len)
  }

  lemma FromUtf8Valid(s: seq<Byte>)
    requires FromUtf8(s).Valid?
    ensures Decode(s) == Decoded(WellFormedText(s), [])
  {
    if s != [] { FromUtf8Valid(s[FrontOf(s).len..]); }
  }

  /** The first `k` bytes are decoded on their own, as text. */
  ghost predicate SplitsAt(s: seq<Byte>, k: nat) {
    && k <= |s|
    && Decode(s) == Decoded(WellFormedText(s[..k]) + Decode(s[k..]).text, Decode(s[k..]).rest)
  }

  lemma {:induction false} FromUtf8Invalid(s: seq<Byte>)
    requires FromUtf8(s).Invalid?
    ensures SplitsAt(s, FromUtf8(s).validUpTo)
  {
    if FrontOf(s).Whole? {
      FromUtf8Invalid(s[FrontOf(s).len..]);
      SplitsAtStep(s, FromUtf8(s).validUpTo);
    } else {
      assert s[0..] == s;
    }
  }

  lemma SplitsAtStep(s: seq<Byte>, k: nat)
    requires s != [] && FrontOf(s).Whole? && FrontOf(s).len <= k
    requires SplitsAt(s[FrontOf(s).len..], k - FrontOf(s).len)
    ensures SplitsAt(s, k)
  {
    var n := FrontOf(s).len;
    var t := s[n..];
    assert t[k - n..] == s[k..];
    assert Decode(s) == Decoded(FrontText(s) + Decode(t).text, Decode(t).rest) by { DecodeStep(s); }
    assert WellFormedText(s[..k]) == FrontText(s) + WellFormedText(t[..k - n]) by { WellFormedStep(s, k); }
    Regroup(FrontText(s), WellFormedText(t[..k - n]), Decode(s[k..]).text);
  }

  lemma Regroup(a: string, b: string, c: string)
    ensures a + (b + c) == a + b + c
  {
  }

  lemma WellFormedStep(s: seq<Byte>, k: nat)
    requires s != [] && FrontOf(s).Whole? && FrontOf(s).len <= k <= |s|
    ensures var n := FrontOf(s).len;
            WellFormedText(s[..k]) == FrontText(s) + WellFormedText(s[n..][..k - n])
  {
    FrontOfPrefix(s, k);
    hide FrontOf;
    SliceOfPrefix(s, FrontOf(s).len, k);
  }

  lemma SliceOfPrefix(s: seq<Byte>, n: nat, k: nat)
    requires n <= k <= |s|
    ensures s[..k][n..] == s[n..][..k - n]
  {
  }

  lemma FrontOfPrefix(s: seq<Byte>, k: nat)
    requires s != [] && FrontOf(s).Whole? && FrontOf(s).len <= k <= |s|
    ensures FrontOf(s[..k]) == FrontOf(s) && Value(s[..k]) == Value(s)
  {
    FrontIsStable(s[..k], s[k..]);
    assert s[..k] + s[k..] == s;
  }

  /** The text of input already known to be well formed (up to the first defect otherwise). */
  function WellFormedText(s: seq<Byte>): string {
    if s == [] || !FrontOf(s).Whole? then [] else [Value(s)] + WellFormedText(s[FrontOf(s).len..])
  }
}
