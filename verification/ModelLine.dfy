/** What the patterns match, said of the text of a line: the root model assignment with its parts. */
module ModelLines {
  import opened Common
  import opened ModelPatches

  predicate AllSpaces(s: string) { forall c :: c in s ==> IsSpace(c) }

  predicate IsKey(s: string) { s == "model" || s == "\"model\"" || s == "'model'" }

  /** Between double quotes: no quote of its own except behind a backslash, and no backslash at the end
      or in front of a line terminator. */
  predicate WellQuoted(s: string) {
    if s == [] then true
    else if s[0] == '\\' then |s| >= 2 && !IsLineTerminator(s[1]) && WellQuoted(s[2..])
    else s[0] != '"' && WellQuoted(s[1..])
  }

  predicate IsQuoted(v: string) {
    && |v| >= 2
    && var body := v[1..|v| - 1];
       || (v[0] == '"' && v[|v| - 1] == '"' && WellQuoted(body))
       || (v[0] == '\'' && v[|v| - 1] == '\'' && '\'' !in body)
  }

  /** Space, key, space, equals sign, space, quoted value, tail. */
  datatype Parts = Parts(a: string, key: string, b: string, c: string, value: string, tail: string) {
    function Line(): string { a + (key + (b + ("=" + (c + (value + tail))))) }
    function Start(): nat { |a| + |key| + |b| + 1 + |c| }
    predicate Ok() { AllSpaces(a) && IsKey(key) && AllSpaces(b) && AllSpaces(c) && IsQuoted(value) && IsTail(tail) }
  }

  // ---- Quoted values ---------------------------------------------------------------------------------------

  lemma {:induction false} BodyMatched(body: string, rest: string)
    requires WellQuoted(body)
    ensures BasicBody(body + "\"" + rest) == |body| + 1
  {
    var s := body + "\"" + rest;
    if body == [] {
      assert s[0] == '"';
    } else if body[0] == '\\' {
      BodyMatched(body[2..], rest);
      assert s[2..] == body[2..] + "\"" + rest;
    } else {
      BodyMatched(body[1..], rest);
      assert s[1..] == body[1..] + "\"" + rest;
    }
  }

  lemma {:induction false} LiteralMatched(body: string, rest: string)
    requires '\'' !in body
    ensures LiteralBody(body + "'" + rest) == |body| + 1
  {
    var s := body + "'" + rest;
    if body == [] {
      assert s[0] == '\'';
    } else {
      assert body[0] in body && forall c :: c in body[1..] ==> c in body;
      LiteralMatched(body[1..], rest);
      assert s[1..] == body[1..] + "'" + rest;
    }
  }

  /** A quoted value in front of anything is matched as a whole. */
  lemma ValueMatched(v: string, rest: string)
    requires IsQuoted(v)
    ensures var basic, literal := BasicString(v + rest), LiteralString(v + rest);
            (if basic > 0 then basic else literal) == |v|
  {
    var body := v[1..|v| - 1];
    hide WellQuoted, BasicBody, LiteralBody;
    if v[0] == '"' {
      BodyMatched(body, rest);
      assert (v + rest)[1..] == body + "\"" + rest;
    } else {
      LiteralMatched(body, rest);
      assert (v + rest)[1..] == body + "'" + rest;
    }
  }

  lemma {:induction false} BodyIsQuoted(s: string)
    requires BasicBody(s) > 0
    ensures var n := BasicBody(s); s[n - 1] == '"' && WellQuoted(s[..n - 1])
  {
    var n := BasicBody(s);
    if s[0] == '"' {
    } else if s[0] == '\\' {
      BodyIsQuoted(s[2..]);
      assert s[..n - 1][2..] == s[2..][..n - 3];
    } else {
      BodyIsQuoted(s[1..]);
      assert s[..n - 1][1..] == s[1..][..n - 2];
    }
  }

  lemma {:induction false} LiteralIsQuoted(s: string)
    requires LiteralBody(s) > 0
    ensures var n := LiteralBody(s); s[n - 1] == '\'' && '\'' !in s[..n - 1]
  {
    var n := LiteralBody(s);
    if s[0] != '\'' {
      LiteralIsQuoted(s[1..]);
      assert s[..n - 1] == [s[0]] + s[1..][..n - 2];
    }
  }

  lemma MatchIsQuoted(s: string)
    ensures var basic, literal := BasicString(s), LiteralString(s);
            var len := if basic > 0 then basic else literal;
            len > 0 ==> IsQuoted(s[..len])
  {
    hide WellQuoted, BasicBody, LiteralBody;
    if BasicString(s) > 0 {
      BodyIsQuoted(s[1..]);
      var n := BasicString(s);
      assert s[..n][1..n - 1] == s[1..][..n - 2];
    } else if LiteralString(s) > 0 {
      LiteralIsQuoted(s[1..]);
      var n := LiteralString(s);
      assert s[..n][1..n - 1] == s[1..][..n - 2];
    }
  }

  // ---- Lines -------------------------------------------------------------------------------------------------

  lemma KeyMatched(key: string, rest: string)
    requires IsKey(key)
    ensures Key(key + rest) == |key| > 0 && !IsSpace((key + rest)[0]) && (key + rest)[0] != '['
  {
    assert forall i :: 0 <= i < |key| ==> (key + rest)[i] == key[i];
    assert key <= key + rest;
    assert (key + rest)[0] == key[0];
  }

  lemma Skips(front: string, rest: string)
    requires AllSpaces(front) && rest != [] && !IsSpace(rest[0])
    ensures Spaces(front + rest) == |front| && (front + rest)[|front|..] == rest && (front + rest)[|front|] == rest[0]
  {
    SpacesOf(front, rest);
  }

  lemma Behind(front: string, rest: string, s: string, k: nat)
    requires k + |front| <= |s| && s[k..] == front + rest
    ensures s[k + |front|..] == rest
  {
  }

  lemma AssignmentMatched(p: Parts)
    requires p.Ok()
    ensures var line := p.Line();
            && !IsTableHeader(line)
            && Assignment(line) == |p.a| + |p.key| + |p.b| + 1
            && line[Assignment(line)..] == p.c + (p.value + p.tail)
  {
    hide IsTail, Spaces, Key, IsQuoted, AllSpaces, IsKey;
    var rest := p.c + (p.value + p.tail);
    SlicesOf(p.a, p.key, p.b, rest);
    KeyMatched(p.key, p.b + ("=" + rest));
    Skips(p.a, p.key + (p.b + ("=" + rest)));
    SkipsToEquals(p.b, rest);
  }

  lemma SkipsToEquals(b: string, rest: string)
    requires AllSpaces(b)
    ensures Spaces(b + ("=" + rest)) == |b|
  {
    assert ("=" + rest)[0] == '=' && !IsSpace('=');
    Skips(b, "=" + rest);
  }

  lemma SlicesOf(a: string, key: string, b: string, rest: string)
    ensures var line := a + (key + (b + ("=" + rest)));
            var k := |a| + |key| + |b|;
            && line[|a|..] == key + (b + ("=" + rest)) && line[|a| + |key|..] == b + ("=" + rest)
            && k < |line| && line[k] == '=' && line[k + 1..] == rest
  {
    var line := a + (key + (b + ("=" + rest)));
    Behind(a, key + (b + ("=" + rest)), line, 0);
    Behind(key, b + ("=" + rest), line, |a|);
    Behind(b, "=" + rest, line, |a| + |key|);
    assert line[|a| + |key| + |b|..][0] == '=';
    Behind("=", rest, line, |a| + |key| + |b|);
  }

  /** Every line put together from such parts is a root model line, its value where it was put. */
  lemma PartsAreRoot(p: Parts)
    requires p.Ok()
    ensures Classify(p.Line()) == Root(p.Start(), p.Start() + |p.value|)
  {
    hide IsTail, Spaces, Assignment, IsTableHeader, BasicString, LiteralString, WellQuoted;
    var line, rest := p.Line(), p.value + p.tail;
    AssignmentMatched(p);
    var a := Assignment(line);
    assert !IsSpace('"') && !IsSpace('\'') && rest[0] == p.value[0];
    Skips(p.c, rest);
    Behind(p.c, rest, line, a);
    ValueMatched(p.value, p.tail);
    Behind(p.value, p.tail, line, a + |p.c|);
  }

  /** And every root model line is put together from such parts. */
  lemma RootHasParts(line: string) returns (p: Parts)
    requires Classify(line).Root?
    ensures p.Ok() && p.Line() == line
    ensures Classify(line) == Root(p.Start(), p.Start() + |p.value|)
  {
    hide Assignment, IsTail, WellQuoted, IsQuoted, AllSpaces, IsKey, Classify;
    var k := Classify(line);
    ValueParts(line);
    var i, j, eq := AssignmentParts(line);
    p := Parts(line[..i], line[i..j], line[j..eq], line[eq + 1..k.start], line[k.start..k.end], line[k.end..]);
    Reassembled(line, i, j, eq, k.start, k.end);
  }

  lemma AssignmentParts(line: string) returns (i: nat, j: nat, eq: nat)
    requires Assignment(line) > 0
    ensures i <= j <= eq < |line| && line[eq] == '=' && Assignment(line) == eq + 1
    ensures AllSpaces(line[..i]) && IsKey(line[i..j]) && AllSpaces(line[j..eq])
  {
    hide Key, IsKey;
    i := Spaces(line);
    var n := Key(line[i..]);
    j := i + n;
    eq := j + Spaces(line[j..]);
    KeyIsOne(line[i..]);
    assert line[i..][..n] == line[i..j];
    assert line[j..][..eq - j] == line[j..eq];
  }

  lemma ValueParts(line: string)
    requires Classify(line).Root?
    ensures var k, a := Classify(line), Assignment(line);
            && 0 < a <= k.start <= k.end <= |line|
            && AllSpaces(line[a..k.start]) && IsQuoted(line[k.start..k.end]) && IsTail(line[k.end..])
  {
    hide Assignment, IsTail, BasicString, LiteralString, WellQuoted, IsQuoted, IsTableHeader;
    var k, a := Classify(line), Assignment(line);
    MatchIsQuoted(line[k.start..]);
    assert line[k.start..][..k.end - k.start] == line[k.start..k.end];
    assert line[a..][..k.start - a] == line[a..k.start];
  }

  lemma KeyIsOne(s: string)
    requires Key(s) > 0
    ensures IsKey(s[..Key(s)])
  {
  }

  lemma Reassembled(s: string, i: nat, j: nat, k: nat, l: nat, m: nat)
    requires i <= j <= k < l <= m <= |s| && s[k] == '='
    ensures s[..i] + (s[i..j] + (s[j..k] + ("=" + (s[k + 1..l] + (s[l..m] + s[m..]))))) == s
  {
    assert s[l..m] + s[m..] == s[l..];
    assert s[k + 1..l] + s[l..] == s[k + 1..];
    assert "=" + s[k + 1..] == s[k..];
    assert s[j..k] + s[k..] == s[j..];
    assert s[i..j] + s[j..] == s[i..];
  }

  /** A table header starts with an opening bracket behind space, and nothing else does. */
  lemma HeaderIff(line: string)
    ensures Classify(line).Header? <==> exists n :: 0 <= n < |line| && AllSpaces(line[..n]) && line[n] == '['
  {
    if exists n :: 0 <= n < |line| && AllSpaces(line[..n]) && line[n] == '[' {
      var n :| 0 <= n < |line| && AllSpaces(line[..n]) && line[n] == '[';
      SpacesOf(line[..n], line[n..]);
      assert line[..n] + line[n..] == line && !IsSpace('[');
    } else if Classify(line).Header? {
      assert AllSpaces(line[..Spaces(line)]);
    }
  }
}
