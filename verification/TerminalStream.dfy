/** The stream written to the user's terminal, as characters and control functions. */
module TerminalStreams {
  import opened Common

  /** `Raw` is a byte passed on from the PTY; the rest is what presentation writes: a character,
      or a control function of ECMA-48 (CUU by one, CHA, EL to the end of the line, SGR). */
  datatype Tok = Raw(b: Byte) | Ch(c: char) | Cuu | Cha(column: nat) | El | Sgr(params: seq<nat>)

  type Toks = seq<Tok>

  const NEWLINE: Toks := [Ch('\r'), Ch('\n')]

  function Chars(s: string): (t: Toks)
    ensures |t| == |s| && forall i :: 0 <= i < |s| ==> t[i] == Ch(s[i])
  {
    seq(|s|, i requires 0 <= i < |s| => Ch(s[i]))
  }

  function Raws(bytes: seq<Byte>): (t: Toks)
    ensures |t| == |bytes| && forall i :: 0 <= i < |bytes| ==> t[i] == Raw(bytes[i])
  {
    seq(|bytes|, i requires 0 <= i < |bytes| => Raw(bytes[i]))
  }

  // ---- Newline normalization ------------------------------------------------------------------

  /** Whether the text, read after `cr`, ends in a carriage return. */
  function EndsInCr(text: string, cr: bool): bool {
    if text == [] then cr else text[|text| - 1] == '\r'
  }

  /** Every line feed not already after a carriage return gets one; `cr` is the state carried in. */
  function Normalized(text: string, cr: bool): string {
    if text == [] then []
    else
      var n := |text| - 1;
      Normalized(text[..n], cr)
      + (if text[n] == '\n' && !EndsInCr(text[..n], cr) then ['\r'] else [])
      + [text[n]]
  }

  method NormalizeNewlines(text: string, cr: bool) returns (normal: string, lastWasCr: bool)
    ensures normal == Normalized(text, cr) && lastWasCr == EndsInCr(text, cr)
  {
    normal, lastWasCr := [], cr;
    for k := 0 to |text|
      invariant normal == Normalized(text[..k], cr) && lastWasCr == EndsInCr(text[..k], cr)
    {
      assert text[..k + 1][..k] == text[..k];
      if text[k] == '\n' && !lastWasCr {
        normal := normal + ['\r'];
      }
      lastWasCr := text[k] == '\r';
      normal := normal + [text[k]];
    }
    assert text[..|text|] == text;
  }

  /** Carrying the state across deltas makes the split invisible. */
  lemma {:induction false} NormalizedInDeltas(a: string, b: string, cr: bool)
    ensures Normalized(a + b, cr) == Normalized(a, cr) + Normalized(b, EndsInCr(a, cr))
    ensures EndsInCr(a + b, cr) == EndsInCr(b, EndsInCr(a, cr))
  {
    if b == [] {
      assert a + b == a;
    } else {
      var n := |b| - 1;
      assert (a + b)[..|a| + n] == a + b[..n];
      NormalizedInDeltas(a, b[..n], cr);
    }
  }

  /** Text without its carriage returns. */
  function WithoutCr(text: string): string {
    if text == [] then []
    else WithoutCr(text[..|text| - 1]) + if text[|text| - 1] == '\r' then [] else [text[|text| - 1]]
  }

  lemma WithoutCrPush(text: string, c: char)
    ensures WithoutCr(text + [c]) == WithoutCr(text) + if c == '\r' then [] else [c]
  {
    assert (text + [c])[..|text|] == text;
  }

  /** Normalizing adds carriage returns and changes nothing else. */
  lemma {:induction false} NormalizedAddsCrs(text: string, cr: bool)
    ensures WithoutCr(Normalized(text, cr)) == WithoutCr(text)
  {
    if text != [] {
      var n := |text| - 1;
      var x, c := Normalized(text[..n], cr), text[n];
      NormalizedAddsCrs(text[..n], cr);
      assert text == text[..n] + [c];
      hide WithoutCr;
      WithoutCrPush(text[..n], c);
      WithoutCrPush(x, c);
      WithoutCrPush(x, '\r');
      WithoutCrPush(x + ['\r'], c);
      assert WithoutCr(x) + [] == WithoutCr(x) && x + [] == x;
    }
  }

  /** In normalized text every line feed follows a carriage return. */
  ghost predicate FeedsFollowCr(t: string, cr: bool) {
    forall i :: 0 <= i < |t| && t[i] == '\n' ==> EndsInCr(t[..i], cr)
  }

  lemma {:induction false} LineFeedsFollowCr(text: string, cr: bool)
    ensures FeedsFollowCr(Normalized(text, cr), cr)
    ensures EndsInCr(Normalized(text, cr), cr) == EndsInCr(text, cr)
  {
    if text != [] {
      var n := |text| - 1;
      LineFeedsFollowCr(text[..n], cr);
      var front := Normalized(text[..n], cr);
      if text[n] == '\n' && !EndsInCr(text[..n], cr) {
        PushFollows(front, '\r', cr);
        PushFollows(front + ['\r'], '\n', cr);
      } else {
        PushFollows(front, text[n], cr);
        assert front + [] == front;
      }
    }
  }

  /** Text whose line feeds all follow a carriage return stays as it is. */
  lemma {:induction false} NormalizedStays(text: string, cr: bool)
    requires FeedsFollowCr(text, cr)
    ensures Normalized(text, cr) == text
  {
    if text != [] {
      var n := |text| - 1;
      FrontFollows(text, cr);
      hide FeedsFollowCr, EndsInCr;
      NormalizedStays(text[..n], cr);
      assert text[..n] + [] == text[..n];
      assert text == text[..n] + [text[n]];
    }
  }

  lemma FrontFollows(text: string, cr: bool)
    requires FeedsFollowCr(text, cr) && text != []
    ensures var n := |text| - 1; FeedsFollowCr(text[..n], cr) && (text[n] == '\n' ==> EndsInCr(text[..n], cr))
  {
    var n := |text| - 1;
    forall i | 0 <= i < n && text[..n][i] == '\n' ensures EndsInCr(text[..n][..i], cr) {
      assert text[..n][..i] == text[..i];
    }
  }

  lemma PushFollows(t: string, c: char, cr: bool)
    requires FeedsFollowCr(t, cr) && (c == '\n' ==> EndsInCr(t, cr))
    ensures FeedsFollowCr(t + [c], cr)
  {
    forall i | 0 <= i < |t + [c]| && (t + [c])[i] == '\n' ensures EndsInCr((t + [c])[..i], cr) {
      assert (t + [c])[..i] == t[..i];
      if i == |t| { assert t[..i] == t; }
    }
  }
}
