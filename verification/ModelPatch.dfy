/** The source-preserving edit of the root `model` assignment in a TOML configuration. */
module ModelPatches {
  import opened Common

  // ---- The patterns --------------------------------------------------------------------------------

  /** `\s` of a regular expression. */
  predicate IsSpace(c: char) { (IsWhitespace(c) && c != '\U{85}') || c == '\U{FEFF}' }

  /** What `.` does not match. */
  predicate IsLineTerminator(c: char) { c == '\n' || c == '\r' || c == '\U{2028}' || c == '\U{2029}' }

  /** `\s*` */
  function Spaces(s: string): (n: nat)
    ensures n <= |s| && (n < |s| ==> !IsSpace(s[n])) && forall i :: 0 <= i < n ==> IsSpace(s[i])
  {
    if s == [] || !IsSpace(s[0]) then 0 else 1 + Spaces(s[1..])
  }

  /** `^\s*\[` */
  predicate IsTableHeader(line: string) {
    var n := Spaces(line); n < |line| && line[n] == '['
  }

  /** The alternation of the three spellings of the key: the length matched, 0 for none. */
  function Key(s: string): (n: nat)
    ensures n <= |s|
  {
    if "model" <= s then 5 else if "\"model\"" <= s then 7 else if "'model'" <= s then 7 else 0
  }

  /** `^\s*KEY\s*=`: the length matched, 0 for none. */
  function Assignment(line: string): (n: nat)
    ensures n <= |line|
  {
    var i := Spaces(line);
    var j := Key(line[i..]);
    if j == 0 then 0
    else
      var k := i + j + Spaces(line[i + j..]);
      if k < |line| && line[k] == '=' then k + 1 else 0
  }

  /** Length of a basic string from its opening quote through its closing one, 0 if unterminated. */
  function BasicString(s: string): (n: nat)
    ensures n <= |s|
  {
    if s == [] || s[0] != '"' then 0
    else var n := BasicBody(s[1..]); if n == 0 then 0 else n + 1
  }

  /** `(?:\\.|[^"\\])*"`: the length matched, 0 for none. */
  function BasicBody(s: string): (n: nat)
    ensures n <= |s|
  {
    if s == [] then 0
    else if s[0] == '"' then 1
    else if s[0] == '\\' then
      if |s| < 2 || IsLineTerminator(s[1]) then 0
      else var n := BasicBody(s[2..]); if n == 0 then 0 else n + 2
    else var n := BasicBody(s[1..]); if n == 0 then 0 else n + 1
  }

  /** `'[^']*'`: the length matched, 0 for none. */
  function LiteralString(s: string): (n: nat)
    ensures n <= |s|
  {
    if s == [] || s[0] != '\'' then 0
    else var n := LiteralBody(s[1..]); if n == 0 then 0 else n + 1
  }

  function LiteralBody(s: string): (n: nat)
    ensures n <= |s|
  {
    if s == [] then 0
    else if s[0] == '\'' then 1
    else var n := LiteralBody(s[1..]); if n == 0 then 0 else n + 1
  }

  /** `[ \t]*(?:#.*)?(\r?\n)?$` */
  predicate IsTail(s: string) {
    if s != [] && (s[0] == ' ' || s[0] == '\t') then IsTail(s[1..])
    else if s != [] && s[0] == '#' then IsComment(s[1..])
    else s == "" || s == "\n" || s == "\r\n"
  }

  predicate IsComment(s: string) {
    if s != [] && !IsLineTerminator(s[0]) then IsComment(s[1..]) else s == "" || s == "\n" || s == "\r\n"
  }

  /** A line as the editor sees it. */
  datatype LineKind = Header | Other | Malformed | Root(start: nat, end: nat)

  function Classify(line: string): (k: LineKind)
    ensures k.Root? ==> k.start <= k.end <= |line|
  {
    if IsTableHeader(line) then Header
    else
      var a := Assignment(line);
      if a == 0 then Other
      else
        var start := a + Spaces(line[a..]);
        var basic, literal := BasicString(line[start..]), LiteralString(line[start..]);
        var len := if basic > 0 then basic else literal;
        if len > 0 && IsTail(line[start + len..]) then Root(start, start + len) else Malformed
  }

  /** The first line of a text, its newline included. */
  function FirstLine(text: string): (n: nat)
    ensures n <= |text| && (text != [] ==> n > 0)
    ensures forall i :: 0 <= i < n - 1 ==> text[i] != '\n'
    ensures n < |text| ==> text[n - 1] == '\n'
  {
    if text == [] then 0 else if text[0] == '\n' then 1 else 1 + FirstLine(text[1..])
  }

  /** Where the root model value is: before the first table header, or nowhere. */
  datatype Found = Absent | Unreadable | At(start: nat, end: nat)

  function Find(text: string): (f: Found)
    ensures f.At? ==> f.start <= f.end <= |text|
  {
    if text == [] then Absent
    else
      var n := FirstLine(text);
      match Classify(text[..n])
      case Header => Absent
      case Malformed => Unreadable
      case Root(start, end) => At(start, end)
      case Other => Shifted(Find(text[n..]), n)
  }

  function Shifted(f: Found, n: nat): Found { if f.At? then At(n + f.start, n + f.end) else f }

  // ---- `JSON.stringify` of a string ---------------------------------------------------------------------

  function HexDigit(n: nat): char
    requires n < 16
  {
    "0123456789abcdef"[n]
  }

  function Escaped(c: char): (s: string)
    ensures s != []
  {
    if c == '"' then "\\\""
    else if c == '\\' then "\\\\"
    else if c == '\U{8}' then "\\b"
    else if c == '\t' then "\\t"
    else if c == '\n' then "\\n"
    else if c == '\U{C}' then "\\f"
    else if c == '\r' then "\\r"
    else if c < ' ' then "\\u00" + [HexDigit(c as int / 16), HexDigit(c as int % 16)]
    else [c]
  }

  function EscapedAll(s: string): string { if s == [] then [] else Escaped(s[0]) + EscapedAll(s[1..]) }

  function Quoted(s: string): string { "\"" + EscapedAll(s) + "\"" }

  // ---- The edit -------------------------------------------------------------------------------------------

  datatype Patch = Patched(text: string) | ConfigError

  function Spliced(text: string, start: nat, end: nat, value: string): string
    requires start <= end <= |text|
  {
    text[..start] + value + text[end..]
  }

  function PatchOf(text: string, name: string): Patch {
    match Find(text)
    case At(start, end) => Patched(Spliced(text, start, end, Quoted(name)))
    case Unreadable => ConfigError
    case Absent => Patched("model = " + Quoted(name) + "\n" + text)
  }

  method PatchRootModel(text: string, name: string) returns (r: Patch)
    ensures r == PatchOf(text, name)
  {
    hide Classify, FirstLine, Quoted, Find, Spliced;
    var replacement := Quoted(name);
    var offset := 0;
    assert text[0..] == text;
    while offset < |text|
      invariant offset <= |text|
      invariant Find(text) == Shifted(Find(text[offset..]), offset)
    {
      var rest := text[offset..];
      var n := FirstLine(rest);
      var line := rest[..n];
      FindStep(rest);
      match Classify(line)
      case Header => break;
      case Malformed => return ConfigError;
      case Root(start, end) =>
        var updated := line[..start] + replacement + line[end..];
        SpliceLine(text, offset, n, start, end, replacement);
        return Patched(text[..offset] + updated + text[offset + n..]);
      case Other =>
        SliceOn(text, offset, n);
        offset := offset + n;
    }
    if offset == |text| { FindNothing(); }
    return Patched("model = " + replacement + "\n" + text);
  }

  lemma SliceOn(text: string, offset: nat, n: nat)
    requires offset + n <= |text|
    ensures text[offset..][n..] == text[offset + n..]
  {
  }

  lemma FindStep(text: string)
    requires text != []
    ensures var n := FirstLine(text);
            Find(text) == match Classify(text[..n])
              case Header => Absent
              case Malformed => Unreadable
              case Root(start, end) => At(start, end)
              case Other => Shifted(Find(text[n..]), n)
  {
  }

  lemma FindNothing()
    ensures Find([]) == Absent
  {
  }

  lemma SpliceLine(text: string, offset: nat, n: nat, start: nat, end: nat, value: string)
    requires offset + n <= |text| && start <= end <= n
    ensures var line := text[offset..][..n];
            text[..offset] + (line[..start] + value + line[end..]) + text[offset + n..]
            == Spliced(text, offset + start, offset + end, value)
  {
    var line := text[offset..][..n];
    assert text[..offset] + line[..start] == text[..offset + start];
    assert line[end..] + text[offset + n..] == text[offset + end..];
  }

  // ---- Reading the value back -----------------------------------------------------------------------------

  function HexValue(c: char): nat {
    if '0' <= c <= '9' then c as int - '0' as int else if 'a' <= c <= 'f' then c as int - 'a' as int + 10 else 0
  }

  function UnicodeEscape(s: string): char
    requires |s| >= 4
  {
    var v := ((HexValue(s[0]) * 16 + HexValue(s[1])) * 16 + HexValue(s[2])) * 16 + HexValue(s[3]);
    if v < 0xD800 then v as char else '\U{FFFD}'
  }

  /** The text between the quotes of a basic string, escapes resolved. */
  function Unescaped(s: string): string {
    if s == [] then []
    else if s[0] != '\\' || |s| < 2 then [s[0]] + Unescaped(s[1..])
    else if s[1] == 'u' && |s| >= 6 then [UnicodeEscape(s[2..6])] + Unescaped(s[6..])
    else
      [ShortEscape(s[1])] + Unescaped(s[2..])
  }

  function ShortEscape(c: char): char {
    match c
    case 'b' => '\U{8}'
    case 't' => '\t'
    case 'n' => '\n'
    case 'f' => '\U{C}'
    case 'r' => '\r'
    case other => other
  }

  lemma EscapeIsUndone(c: char, rest: string)
    ensures Unescaped(Escaped(c) + rest) == [c] + Unescaped(rest)
  {
    hide Unescaped, HexDigit;
    if Escaped(c) == [c] {
      PlainIsUndone(c, rest);
    } else if |Escaped(c)| == 2 {
      assert Escaped(c) == ['\\', Escaped(c)[1]];
      ShortIsUndone(Escaped(c)[1], rest);
    } else {
      UnicodeIsUndone(c, rest);
    }
  }

  lemma PlainIsUndone(c: char, rest: string)
    requires c != '\\'
    ensures Unescaped([c] + rest) == [c] + Unescaped(rest)
  {
    assert ([c] + rest)[1..] == rest;
  }

  lemma ShortIsUndone(c: char, rest: string)
    requires c != 'u'
    ensures Unescaped(['\\', c] + rest) == [ShortEscape(c)] + Unescaped(rest)
  {
    assert (['\\', c] + rest)[2..] == rest;
  }

  lemma UnicodeIsUndone(c: char, rest: string)
    requires c < ' '
    ensures Unescaped("\\u00" + [HexDigit(c as int / 16), HexDigit(c as int % 16)] + rest) == [c] + Unescaped(rest)
  {
    var h, l := HexDigit(c as int / 16), HexDigit(c as int % 16);
    var s := "\\u00" + [h, l] + rest;
    assert s[6..] == rest;
    assert s[2..6] == ['0', '0', h, l];
    HexIsUndone(c);
    hide HexDigit, HexValue, UnicodeEscape;
    assert s[0] == '\\' && s[1] == 'u' && |s| >= 6;
  }

  lemma HexIsUndone(c: char)
    requires c < ' '
    ensures UnicodeEscape(['0', '0', HexDigit(c as int / 16), HexDigit(c as int % 16)]) == c
  {
    assert HexValue(HexDigit(c as int / 16)) == c as int / 16 && HexValue(HexDigit(c as int % 16)) == c as int % 16;
  }

  lemma {:induction false} EscapesAreUndone(s: string)
    ensures Unescaped(EscapedAll(s)) == s
  {
    if s != [] {
      EscapeIsUndone(s[0], EscapedAll(s[1..]));
      EscapesAreUndone(s[1..]);
      assert [s[0]] + s[1..] == s;
    }
  }

  lemma EscapeIsBody(c: char, rest: string)
    requires BasicBody(rest) > 0
    ensures BasicBody(Escaped(c) + rest) == |Escaped(c)| + BasicBody(rest)
    ensures '\n' !in Escaped(c)
  {
    hide BasicBody;
    if Escaped(c) == [c] {
      PlainBody(c, rest);
    } else if |Escaped(c)| == 2 {
      EscapeBody(Escaped(c)[1], rest);
      assert Escaped(c) == ['\\', Escaped(c)[1]];
    } else {
      UnicodeBody(HexDigit(c as int / 16), HexDigit(c as int % 16), rest);
    }
  }

  lemma UnicodeBody(h: char, l: char, rest: string)
    requires BasicBody(rest) > 0 && '0' <= h <= 'f' && '0' <= l <= 'f' && h != '\\' && l != '\\'
    ensures BasicBody("\\u00" + [h, l] + rest) == 6 + BasicBody(rest)
  {
    hide BasicBody;
    PlainBody(l, rest);
    PlainBody(h, [l] + rest);
    PlainBody('0', [h] + ([l] + rest));
    PlainBody('0', ['0'] + ([h] + ([l] + rest)));
    var tail := ['0'] + (['0'] + ([h] + ([l] + rest)));
    EscapeBody('u', tail);
    assert "\\u00" + [h, l] + rest == ['\\', 'u'] + tail;
  }

  lemma PlainBody(c: char, rest: string)
    requires c != '"' && c != '\\' && BasicBody(rest) > 0
    ensures BasicBody([c] + rest) == 1 + BasicBody(rest)
  {
    assert ([c] + rest)[1..] == rest;
  }

  lemma EscapeBody(c: char, rest: string)
    requires !IsLineTerminator(c) && BasicBody(rest) > 0
    ensures BasicBody(['\\', c] + rest) == 2 + BasicBody(rest)
  {
    assert (['\\', c] + rest)[2..] == rest;
  }

  lemma {:induction false} EscapedBody(s: string, rest: string)
    ensures BasicBody(EscapedAll(s) + "\"" + rest) == |EscapedAll(s)| + 1
    ensures '\n' !in EscapedAll(s)
  {
    if s == [] {
      assert EscapedAll(s) + "\"" + rest == "\"" + rest;
    } else {
      var more := EscapedAll(s[1..]) + "\"" + rest;
      EscapedBody(s[1..], rest);
      EscapeIsBody(s[0], more);
      assert EscapedAll(s) + "\"" + rest == Escaped(s[0]) + more;
    }
  }

  /** A value that can be spliced in: one basic string on one line. */
  ghost predicate IsValue(value: string) {
    && value != [] && value[0] == '"' && '\n' !in value
    && forall rest :: BasicString(value + rest) == |value|
  }

  lemma QuotedIsValue(name: string)
    ensures IsValue(Quoted(name))
  {
    hide EscapedAll, BasicBody;
    EscapedBody(name, []);
    forall rest ensures BasicString(Quoted(name) + rest) == |Quoted(name)| {
      EscapedBody(name, rest);
      BasicStringOf(EscapedAll(name), rest);
    }
  }

  lemma BasicStringOf(body: string, rest: string)
    requires BasicBody(body + "\"" + rest) == |body| + 1
    ensures BasicString("\"" + body + "\"" + rest) == |body| + 2
  {
    assert ("\"" + body + "\"" + rest)[1..] == body + "\"" + rest;
  }

  // ---- Finding the value again ------------------------------------------------------------------------------

  lemma {:induction false} SpacesOf(front: string, rest: string)
    requires forall c :: c in front ==> IsSpace(c)
    requires rest != [] && !IsSpace(rest[0])
    ensures Spaces(front + rest) == |front|
  {
    var s := front + rest;
    assert forall i :: 0 <= i < |front| ==> s[i] == front[i] && front[i] in front;
    assert s[|front|] == rest[0];
  }

  lemma FirstLineIs(line: string, rest: string)
    requires line != [] && forall i :: 0 <= i < |line| - 1 ==> line[i] != '\n'
    requires rest == [] || line[|line| - 1] == '\n'
    ensures FirstLine(line + rest) == |line|
  {
    assert forall i :: 0 <= i < |line| ==> (line + rest)[i] == line[i];
  }

  /** The assignment's match depends on what it matched only. */
  lemma AssignmentIs(line: string, line': string)
    requires var a := Assignment(line); 0 < a <= |line'| && line'[..a] == line[..a]
    ensures Assignment(line') == Assignment(line)
    ensures IsTableHeader(line') == IsTableHeader(line) == false
  {
    hide Key, Spaces;
    var a, i := Assignment(line), Spaces(line);
    var j := Key(line[i..]);
    var k := i + j + Spaces(line[i + j..]);
    assert Spaces(line') == i by { SplitSpaces(line, line', i, a); }
    assert Key(line'[i..]) == j by {
      SamePrefix(line, line', a, i);
      KeyIs(line[i..], line'[i..], a - i);
    }
    assert Spaces(line'[i + j..]) == k - i - j by {
      SamePrefix(line, line', a, i + j);
      SplitSpaces(line[i + j..], line'[i + j..], k - i - j, a - i - j);
    }
    assert line'[k] == line'[..a][k] && line[k] == line[..a][k];
    assert line'[i] == line'[..a][i] && line[i] == line[..a][i];
    KeyIsNoBracket(line[i..]);
  }

  lemma KeyIsNoBracket(s: string)
    requires Key(s) > 0
    ensures s[0] != '['
  {
  }

  lemma SamePrefix(s: string, t: string, a: nat, p: nat)
    requires p <= a <= |s| && a <= |t| && s[..a] == t[..a]
    ensures s[p..][..a - p] == t[p..][..a - p]
  {
    assert s[p..][..a - p] == s[..a][p..] && t[p..][..a - p] == t[..a][p..];
  }

  lemma SplitSpaces(s: string, t: string, n: nat, m: nat)
    requires Spaces(s) == n < m <= |s| && m <= |t| && s[..m] == t[..m]
    ensures Spaces(t) == n
  {
    assert t[n] == t[..m][n] == s[..m][n] == s[n];
    forall c | c in t[..n] ensures IsSpace(c) {
      var i :| 0 <= i < n && t[..n][i] == c;
      assert t[..m][i] == s[..m][i];
    }
    SpacesOf(t[..n], t[n..]);
    assert t[..n] + t[n..] == t;
  }

  lemma KeyIs(s: string, t: string, m: nat)
    requires 0 < Key(s) < m <= |s| && m <= |t| && s[..m] == t[..m]
    ensures Key(t) == Key(s)
  {
    var n := Key(s);
    assert forall i :: 0 <= i < n ==> t[i] == t[..m][i] == s[..m][i] == s[i];
  }

  /** A root line with its value replaced is a root line with the new value in the same place. */
  lemma ClassifySpliced(line: string, value: string)
    requires Classify(line).Root? && IsValue(value)
    ensures var k := Classify(line);
            Classify(Spliced(line, k.start, k.end, value)) == Root(k.start, k.start + |value|)
  {
    hide Assignment, IsTableHeader, BasicString, LiteralString, IsTail, Spaces;
    var k, a := Classify(line), Assignment(line);
    var line' := Spliced(line, k.start, k.end, value);
    assert line'[..a] == line[..a];
    AssignmentIs(line, line');
    assert line'[a..] == line[a..k.start] + (value + line[k.end..]);
    SpacesBefore(line, a);
    QuoteIsNoSpace(value, line[k.end..]);
    SpacesOf(line[a..k.start], value + line[k.end..]);
    assert line'[k.start..] == value + line[k.end..];
    assert line'[k.start + |value|..] == line[k.end..];
  }

  lemma SpacesBefore(line: string, a: nat)
    requires a <= |line|
    ensures forall c :: c in line[a..a + Spaces(line[a..])] ==> IsSpace(c)
  {
  }

  lemma QuoteIsNoSpace(value: string, rest: string)
    requires IsValue(value)
    ensures value + rest != [] && !IsSpace((value + rest)[0])
  {
  }

  /** The replaced value is found again, at the same place. */
  lemma {:induction false} FindSpliced(text: string, value: string)
    requires Find(text).At? && IsValue(value)
    ensures FindsAgain(text, value)
  {
    hide Classify, IsValue, FindsAgain;
    FindStep(text);
    var n := FirstLine(text);
    if Classify(text[..n]).Other? {
      FindSpliced(text[n..], value);
      FindSplicedLater(text, value);
    } else {
      FindSplicedHere(text, value);
    }
  }

  ghost predicate FindsAgain(text: string, value: string) {
    var f := Find(text);
    f.At? ==> Find(Spliced(text, f.start, f.end, value)) == At(f.start, f.start + |value|)
  }

  lemma FindSplicedLater(text: string, value: string)
    requires text != [] && Find(text).At? && Classify(text[..FirstLine(text)]).Other?
    requires FindsAgain(text[FirstLine(text)..], value)
    ensures FindsAgain(text, value)
  {
    hide Classify, Find, FirstLine, Spliced;
    var n := FirstLine(text);
    var line, rest := text[..n], text[n..];
    FindStep(text);
    var f := Find(rest);
    var rest' := Spliced(rest, f.start, f.end, value);
    SpliceRest(text, n, f.start, f.end, value);
    FindNothing();
    assert FirstLine(line + rest') == n by { FirstLineIs(line, rest'); }
    assert (line + rest')[..n] == line && (line + rest')[n..] == rest';
    FindStep(line + rest');
  }

  lemma FindSplicedHere(text: string, value: string)
    requires text != [] && Classify(text[..FirstLine(text)]).Root? && IsValue(value)
    ensures FindsAgain(text, value)
  {
    hide Classify, Find;
    var n := FirstLine(text);
    var line, rest := text[..n], text[n..];
    var k := Classify(line);
    var line' := Spliced(line, k.start, k.end, value);
    FindStep(text);
    ClassifySpliced(line, value);
    RootEndsWithQuote(line);
    SplicedLineEnds(line, rest, k.start, k.end, value);
    SpliceFront(text, n, k.start, k.end, value);
    assert (line' + rest)[..|line'|] == line';
    FindStep(line' + rest);
  }

  lemma RootEndsWithQuote(line: string)
    requires Classify(line).Root?
    ensures var k := Classify(line); k.start < k.end && line[k.end - 1] != '\n'
  {
    hide BasicString, LiteralString, IsTail, Assignment, IsTableHeader, Spaces;
    var start := Classify(line).start;
    StringEnds(line[start..]);
  }

  lemma StringEnds(s: string)
    ensures BasicString(s) > 0 ==> s[BasicString(s) - 1] == '"'
    ensures LiteralString(s) > 0 ==> s[LiteralString(s) - 1] == '\''
  {
    if s != [] {
      BodyEnds(s[1..]);
    }
  }

  lemma {:induction false} BodyEnds(s: string)
    ensures BasicBody(s) > 0 ==> s[BasicBody(s) - 1] == '"'
    ensures LiteralBody(s) > 0 ==> s[LiteralBody(s) - 1] == '\''
  {
    if s != [] { BodyEnds(s[1..]); }
    if |s| >= 2 { BodyEnds(s[2..]); }
  }

  lemma SpliceRest(text: string, n: nat, start: nat, end: nat, value: string)
    requires n <= |text| && start <= end <= |text| - n
    ensures Spliced(text, n + start, n + end, value) == text[..n] + Spliced(text[n..], start, end, value)
  {
    assert text[..n + start] == text[..n] + text[n..][..start];
    assert text[n + end..] == text[n..][end..];
  }

  lemma SpliceFront(text: string, n: nat, start: nat, end: nat, value: string)
    requires start <= end <= n <= |text|
    ensures Spliced(text, start, end, value) == Spliced(text[..n], start, end, value) + text[n..]
  {
    assert text[..n][..start] == text[..start];
    assert text[end..] == text[..n][end..] + text[n..];
  }

  lemma SplicedLineEnds(line: string, rest: string, start: nat, end: nat, value: string)
    requires start < end <= |line| && line[end - 1] != '\n' && IsValue(value)
    requires forall i :: 0 <= i < |line| - 1 ==> line[i] != '\n'
    requires rest != [] ==> line[|line| - 1] == '\n'
    ensures var line' := Spliced(line, start, end, value); FirstLine(line' + rest) == |line'|
  {
    var line' := Spliced(line, start, end, value);
    forall i | 0 <= i < |line'| - 1 ensures line'[i] != '\n' {
      if start <= i < start + |value| { assert line'[i] == value[i - start]; }
    }
    FirstLineIs(line', rest);
  }

  /** The prepended assignment is found. */
  lemma FindPrepended(text: string, value: string)
    requires IsValue(value)
    ensures Find("model = " + value + "\n" + text) == At(8, 8 + |value|)
  {
    hide Find, Classify;
    var line := "model = " + value + "\n";
    ClassifyPrepended(value);
    forall i | 0 <= i < |line| - 1 ensures line[i] != '\n' {
      if i >= 8 { assert line[i] == value[i - 8]; }
    }
    FirstLineIs(line, text);
    assert (line + text)[..|line|] == line;
    FindStep(line + text);
  }

  lemma ClassifyPrepended(value: string)
    requires IsValue(value)
    ensures Classify("model = " + value + "\n") == Root(8, 8 + |value|)
  {
    hide Spaces, BasicString, LiteralString, Assignment, IsTableHeader;
    var line := "model = " + value + "\n";
    PlainAssignment();
    assert line[..7] == "model =" == "model ="[..7];
    AssignmentIs("model =", line);
    assert line[7..] == [' '] + line[8..] && line[8..] == value + "\n";
    SpacesOf([' '], line[8..]);
    assert line[8 + |value|..] == "\n";
  }

  lemma PlainAssignment()
    ensures Assignment("model =") == 7
  {
    SpacesOf([], "model =");
    assert [] + "model =" == "model =" == "model ="[0..];
    assert "model ="[5..] == " =" == [' '] + "=";
    SpacesOf([' '], "=");
  }

  // ---- The theorems -------------------------------------------------------------------------------------------

  /** Main theorem: a patch on top of a patch is the second patch alone. */
  lemma LastWriteWins(text: string, a: string, b: string)
    requires PatchOf(text, a).Patched?
    ensures PatchOf(PatchOf(text, a).text, b) == PatchOf(text, b)
  {
    hide Quoted, Find;
    QuotedIsValue(a);
    match Find(text)
    case At(start, end) =>
      FindSpliced(text, Quoted(a));
      var once := Spliced(text, start, end, Quoted(a));
      assert once[..start] == text[..start] && once[start + |Quoted(a)|..] == text[end..];
    case Absent =>
      FindPrepended(text, Quoted(a));
      var once := "model = " + Quoted(a) + "\n" + text;
      assert once[..8] == "model = " && once[8 + |Quoted(a)|..] == "\n" + text;
    case Unreadable =>
  }

  /** The root model a text names, read from its one-line basic or literal string. */
  function RootModel(text: string): Option<string> {
    match Find(text)
    case At(start, end) =>
      if end - start < 2 then None
      else if text[start] == '"' then Some(Unescaped(text[start + 1..end - 1]))
      else Some(text[start + 1..end - 1])
    case _ => None
  }

  /** After a patch the text names exactly the model asked for. */
  lemma PatchSetsModel(text: string, name: string)
    requires PatchOf(text, name).Patched?
    ensures RootModel(PatchOf(text, name).text) == Some(name)
  {
    hide Find, Unescaped, EscapedAll, Quoted, IsValue;
    var value := Quoted(name);
    QuotedIsValue(name);
    match Find(text)
    case At(start, end) =>
      FindSpliced(text, value);
      ReadsBack(text[..start], name, text[end..]);
    case Absent =>
      FindPrepended(text, value);
      assert "model = " + value + "\n" + text == "model = " + value + ("\n" + text);
      ReadsBack("model = ", name, "\n" + text);
    case Unreadable =>
  }

  /** A quoted name in its place reads back as the name. */
  lemma ReadsBack(front: string, name: string, rest: string)
    requires Find(front + Quoted(name) + rest) == At(|front|, |front| + |Quoted(name)|)
    ensures RootModel(front + Quoted(name) + rest) == Some(name)
  {
    BetweenQuotes(front, EscapedAll(name), rest);
    hide Find, Unescaped, EscapedAll;
    EscapesAreUndone(name);
  }

  lemma BetweenQuotes(front: string, body: string, rest: string)
    ensures var text := front + ("\"" + body + "\"") + rest;
            |text| >= |front| + |body| + 2 && text[|front|] == '"' && text[|front| + 1..|front| + |body| + 1] == body
  {
  }

  // ---- Legal TOML ------------------------------------------------------------------------------------------

  function DigitValue(c: char): Option<nat> {
    if '0' <= c <= '9' then Some(c as int - '0' as int)
    else if 'a' <= c <= 'f' then Some(c as int - 'a' as int + 10)
    else if 'A' <= c <= 'F' then Some(c as int - 'A' as int + 10)
    else None
  }

  /** The number a string of hexadecimal digits stands for. */
  function HexNumber(s: string): Option<nat> {
    if s == [] then Some(0)
    else
      var high, low := HexNumber(s[..|s| - 1]), DigitValue(s[|s| - 1]);
      if high.Some? && low.Some? then Some(high.value * 16 + low.value) else None
  }

  /** Digits of a Unicode scalar value. */
  predicate IsScalarHex(s: string) {
    var v := HexNumber(s);
    v.Some? && (v.value < 0xD800 || 0xE000 <= v.value <= 0x10FFFF)
  }

  /** What may stand between the quotes of a basic string (TOML 1.0.0, "String"): characters other than
      the quote, the backslash and control characters except tab, and the escapes it lists. */
  predicate IsTomlBody(s: string) {
    if s == [] then true
    else if s[0] != '\\' then s[0] != '"' && (s[0] >= ' ' || s[0] == '\t') && s[0] != '\U{7F}' && IsTomlBody(s[1..])
    else if |s| < 2 then false
    else if s[1] == 'u' then |s| >= 6 && IsScalarHex(s[2..6]) && IsTomlBody(s[6..])
    else if s[1] == 'U' then |s| >= 10 && IsScalarHex(s[2..10]) && IsTomlBody(s[10..])
    else s[1] in "btnfr\"\\" && IsTomlBody(s[2..])
  }

  /** The value written is a legal basic string exactly if the name has no U+007F, which JSON quoting
      leaves as it is. */
  lemma {:induction false} QuotedIsTomlIff(name: string)
    ensures IsTomlBody(EscapedAll(name)) <==> '\U{7F}' !in name
  {
    if name != [] {
      EscapeIsToml(name[0], EscapedAll(name[1..]));
      QuotedIsTomlIff(name[1..]);
      hide Escaped, IsTomlBody;
      assert name == [name[0]] + name[1..];
    }
  }

  lemma EscapeIsToml(c: char, rest: string)
    ensures IsTomlBody(Escaped(c) + rest) <==> c != '\U{7F}' && IsTomlBody(rest)
  {
    hide IsTomlBody, HexDigit;
    if Escaped(c) == [c] {
      PlainIsToml(c, rest);
    } else if |Escaped(c)| == 2 {
      assert Escaped(c) == ['\\', Escaped(c)[1]];
      ShortIsToml(Escaped(c)[1], rest);
    } else {
      UnicodeIsToml(c, rest);
    }
  }

  lemma PlainIsToml(c: char, rest: string)
    requires c >= ' ' && c != '"' && c != '\\'
    ensures IsTomlBody([c] + rest) <==> c != '\U{7F}' && IsTomlBody(rest)
  {
    assert ([c] + rest)[1..] == rest;
  }

  lemma ShortIsToml(c: char, rest: string)
    requires c in "btnfr\"\\"
    ensures IsTomlBody(['\\', c] + rest) <==> IsTomlBody(rest)
  {
    assert (['\\', c] + rest)[2..] == rest;
  }

  lemma UnicodeIsToml(c: char, rest: string)
    requires c < ' '
    ensures IsTomlBody("\\u00" + [HexDigit(c as int / 16), HexDigit(c as int % 16)] + rest) <==> IsTomlBody(rest)
  {
    var h, l := HexDigit(c as int / 16), HexDigit(c as int % 16);
    var s := "\\u00" + [h, l] + rest;
    assert s[6..] == rest && s[2..6] == ['0', '0', h, l];
    ControlIsScalar(c);
    hide HexDigit, IsScalarHex;
    assert s[0] == '\\' && s[1] == 'u' && |s| >= 6;
  }

  lemma ControlIsScalar(c: char)
    requires c < ' '
    ensures IsScalarHex(['0', '0', HexDigit(c as int / 16), HexDigit(c as int % 16)])
  {
    var h, l := HexDigit(c as int / 16), HexDigit(c as int % 16);
    assert DigitValue(h) == Some(c as int / 16) && DigitValue(l) == Some(c as int % 16);
    hide HexDigit, DigitValue;
    var s := ['0', '0', h, l];
    assert s[..3] == ['0', '0', h] && s[..3][..2] == ['0', '0'] && s[..3][..2][..1] == ['0'] && s[..1][..0] == [];
    assert DigitValue('0') == Some(0) by { ZeroIsZero(); }
    assert HexNumber([]) == Some(0) && HexNumber(['0']) == Some(0) && HexNumber(['0', '0']) == Some(0);
    assert HexNumber(['0', '0', h]) == Some(c as int / 16);
  }

  lemma ZeroIsZero()
    ensures DigitValue('0') == Some(0)
  {
  }

  /** Everything outside the root value stays where it was and the value now found is in its
      place; or there was none, and exactly one line comes before the whole old text. */
  ghost predicate Local(text: string, once: string) {
    var f := Find(text);
    if f.At? then
      var rest := |text| - f.end;
      && f.start <= f.end <= |text| && f.start <= |once| && rest <= |once|
      && once[..f.start] == text[..f.start] && once[|once| - rest..] == text[f.end..]
      && Find(once) == At(f.start, |once| - rest)
    else
      && |text| < |once| && once[|once| - |text|..] == text
      && FirstLine(once) == |once| - |text|
  }

  /** A patch is local. */
  lemma PatchIsLocal(text: string, name: string)
    requires PatchOf(text, name).Patched?
    ensures Local(text, PatchOf(text, name).text)
  {
    hide Find, Classify, Quoted;
    var value := Quoted(name);
    QuotedIsValue(name);
    match Find(text)
    case At(start, end) =>
      FindSpliced(text, value);
    case Absent =>
      var line := "model = " + value + "\n";
      forall i | 0 <= i < |line| - 1 ensures line[i] != '\n' {
        if i >= 8 { assert line[i] == value[i - 8]; }
      }
      FirstLineIs(line, text);
    case Unreadable =>
  }

  /** What the first line decides on its own, when it does. */
  function Decision(text: string): Found {
    if text == [] then Absent
    else
      match Classify(text[..FirstLine(text)])
      case Malformed => Unreadable
      case Root(start, end) => At(start, end)
      case _ => Absent
  }

  /** `Find` answers by the first line that is a header or a root model assignment: every line
      before it is neither. */
  lemma {:induction false} FindIsFirst(text: string) returns (skipped: nat)
    ensures skipped <= |text| && OnlyOthers(text[..skipped])
    ensures var rest := text[skipped..];
            && (rest != [] ==> !Classify(rest[..FirstLine(rest)]).Other?)
            && Find(text) == Shifted(Decision(rest), skipped)
  {
    hide Classify, FirstLine, Find;
    if text == [] {
      FindNothing();
      return 0;
    }
    FindStep(text);
    var n := FirstLine(text);
    if Classify(text[..n]).Other? {
      var more := FindIsFirst(text[n..]);
      skipped := n + more;
      assert text[n..][more..] == text[skipped..];
      OthersJoin(text, n, more);
    } else {
      assert text[0..] == text && text[..0] == [];
      skipped := 0;
    }
  }

  lemma OthersJoin(text: string, n: nat, more: nat)
    requires text != [] && n == FirstLine(text) && more <= |text| - n
    requires Classify(text[..n]).Other? && OnlyOthers(text[n..][..more])
    ensures OnlyOthers(text[..n + more])
  {
    hide Classify, FirstLine;
    var front := text[..n + more];
    assert front == text[..n] + text[n..][..more];
    FirstLineIs(text[..n], text[n..][..more]);
    assert front[..n] == text[..n] && front[n..] == text[n..][..more];
  }

  /** A run of whole lines, none of them a header or a root model assignment. */
  ghost predicate OnlyOthers(text: string) {
    text != [] ==>
      var n := FirstLine(text);
      Classify(text[..n]).Other? && OnlyOthers(text[n..])
  }
}
