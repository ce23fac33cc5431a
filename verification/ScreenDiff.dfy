/** Screen diffs: the hunk builder over an edit script, read back as a patch. */
module ScreenDiffs {
  import opened Common

  type Line = string

  /** An edit operation as the diff library reports it, with the positions it applies to. */
  datatype DiffOp =
    | Equal(oldIndex: nat, newIndex: nat, len: nat)
    | Delete(oldIndex: nat, oldLen: nat, newIndex: nat)
    | Insert(oldIndex: nat, newIndex: nat, newLen: nat)
    | Replace(oldIndex: nat, oldLen: nat, newIndex: nat, newLen: nat)
  {
    function OldLen(): nat { match this case Equal(_, _, n) => n case Delete(_, n, _) => n case Insert(_, _, _) => 0 case Replace(_, n, _, _) => n }
    function NewLen(): nat { match this case Equal(_, _, n) => n case Delete(_, _, _) => 0 case Insert(_, _, n) => n case Replace(_, _, _, n) => n }
    function Removed(): nat { if Equal? then 0 else OldLen() }
    function Added(): nat { if Equal? then 0 else NewLen() }
  }

  datatype HunkLine = HunkLine(added: bool, line: Line, oldLineNumber: Option<nat>, newLineNumber: Option<nat>)
  datatype Hunk = Hunk(oldStart: nat, oldLines: nat, newStart: nat, newLines: nat, lines: seq<HunkLine>)

  /** A script that walks both texts from start to end, equal where it says so. */
  ghost predicate ValidScript(ops: seq<DiffOp>, before: seq<Line>, after: seq<Line>, i: nat, j: nat) {
    if ops == [] then i == |before| && j == |after|
    else
      var op := ops[0];
      && op.oldIndex == i && op.newIndex == j
      && i + op.OldLen() <= |before| && j + op.NewLen() <= |after|
      && (op.Equal? ==> before[i..i + op.len] == after[j..j + op.len])
      && ValidScript(ops[1..], before, after, i + op.OldLen(), j + op.NewLen())
  }

  // ---- Reading hunks as a patch ------------------------------------------------------------------

  function RemovedLines(lines: seq<HunkLine>): seq<Line> {
    if lines == [] then []
    else
      var last := lines[|lines| - 1];
      RemovedLines(lines[..|lines| - 1]) + if last.added then [] else [last.line]
  }

  function AddedLines(lines: seq<HunkLine>): seq<Line> {
    if lines == [] then []
    else
      var last := lines[|lines| - 1];
      AddedLines(lines[..|lines| - 1]) + if last.added then [last.line] else []
  }

  /** Line numbers count on from the hunk's starts, removed and added lines each on their own. */
  ghost predicate Numbered(lines: seq<HunkLine>, oldStart: nat, newStart: nat) {
    lines != [] ==>
      var front, last := lines[..|lines| - 1], lines[|lines| - 1];
      && Numbered(front, oldStart, newStart)
      && last.oldLineNumber == (if last.added then None else Some(oldStart + |RemovedLines(front)|))
      && last.newLineNumber == (if last.added then Some(newStart + |AddedLines(front)|) else None)
  }

  /** A hunk takes its removed lines from one text and puts its added lines into the other, its
      line numbers are their positions, and after it the texts agree up to `i` and `j`. */
  ghost predicate Fits(h: Hunk, before: seq<Line>, after: seq<Line>, i: nat, j: nat) {
    && h.oldStart >= 1 && h.newStart >= 1 && h.lines != []
    && h.oldStart - 1 + h.oldLines <= i <= |before| && h.newStart - 1 + h.newLines <= j <= |after|
    && before[h.oldStart - 1 + h.oldLines..i] == after[h.newStart - 1 + h.newLines..j]
    && RemovedLines(h.lines) == before[h.oldStart - 1..h.oldStart - 1 + h.oldLines]
    && AddedLines(h.lines) == after[h.newStart - 1..h.newStart - 1 + h.newLines]
    && Numbered(h.lines, h.oldStart, h.newStart)
  }

  /** The hunks, in order, turn `before[..i]` into `after[..j]`. */
  ghost predicate Patches(hunks: seq<Hunk>, before: seq<Line>, after: seq<Line>, i: nat, j: nat) {
    && i <= |before| && j <= |after|
    && if hunks == [] then i == j && before[..i] == after[..j]
       else
         var h := hunks[|hunks| - 1];
         && Fits(h, before, after, i, j)
         && Patches(hunks[..|hunks| - 1], before, after, h.oldStart - 1, h.newStart - 1)
  }

  /** Plain patch application: copy up to each hunk, skip what it removes, insert what it adds. */
  function Apply(hunks: seq<Hunk>, before: seq<Line>, i: nat): seq<Line>
    requires i <= |before|
  {
    if hunks == [] then before[..i]
    else
      var h := hunks[|hunks| - 1];
      if h.oldStart < 1 || h.oldStart - 1 + h.oldLines > i then []
      else Apply(hunks[..|hunks| - 1], before, h.oldStart - 1) + AddedLines(h.lines) + before[h.oldStart - 1 + h.oldLines..i]
  }

  /** The same patch read backwards. */
  function Revert(hunks: seq<Hunk>, after: seq<Line>, j: nat): seq<Line>
    requires j <= |after|
  {
    if hunks == [] then after[..j]
    else
      var h := hunks[|hunks| - 1];
      if h.newStart < 1 || h.newStart - 1 + h.newLines > j then []
      else Revert(hunks[..|hunks| - 1], after, h.newStart - 1) + RemovedLines(h.lines) + after[h.newStart - 1 + h.newLines..j]
  }

  lemma {:induction false} PatchesApply(hunks: seq<Hunk>, before: seq<Line>, after: seq<Line>, i: nat, j: nat)
    requires Patches(hunks, before, after, i, j)
    ensures Apply(hunks, before, i) == after[..j]
  {
    hide Fits;
    if hunks != [] {
      var front, h := hunks[..|hunks| - 1], hunks[|hunks| - 1];
      FitsApply(h, before, after, i, j);
      assert Apply(front, before, h.oldStart - 1) == after[..h.newStart - 1] by {
        PatchesApply(front, before, after, h.oldStart - 1, h.newStart - 1);
      }
    }
  }

  lemma {:induction false} PatchesRevert(hunks: seq<Hunk>, before: seq<Line>, after: seq<Line>, i: nat, j: nat)
    requires Patches(hunks, before, after, i, j)
    ensures Revert(hunks, after, j) == before[..i]
  {
    hide Fits;
    if hunks != [] {
      var front, h := hunks[..|hunks| - 1], hunks[|hunks| - 1];
      FitsApply(h, before, after, i, j);
      assert Revert(front, after, h.newStart - 1) == before[..h.oldStart - 1] by {
        PatchesRevert(front, before, after, h.oldStart - 1, h.newStart - 1);
      }
    }
  }

  lemma FitsApply(h: Hunk, before: seq<Line>, after: seq<Line>, i: nat, j: nat)
    requires Fits(h, before, after, i, j)
    ensures 1 <= h.oldStart && h.oldStart - 1 + h.oldLines <= i <= |before|
    ensures 1 <= h.newStart && h.newStart - 1 + h.newLines <= j <= |after|
    ensures after[..h.newStart - 1] + AddedLines(h.lines) + before[h.oldStart - 1 + h.oldLines..i] == after[..j]
    ensures before[..h.oldStart - 1] + RemovedLines(h.lines) + after[h.newStart - 1 + h.newLines..j] == before[..i]
  {
    hide RemovedLines, AddedLines, Numbered;
    var a, b := h.oldStart - 1, h.newStart - 1;
    var i', j' := a + h.oldLines, b + h.newLines;
    var removed, added, oldGap, newGap := RemovedLines(h.lines), AddedLines(h.lines), before[i'..i], after[j'..j];
    assert removed == before[a..i'] && added == after[b..j'] && oldGap == newGap;
    hide Fits;
    ThreeParts(after, added, oldGap, b, j', j);
    ThreeParts(before, removed, newGap, a, i', i);
  }

  lemma ThreeParts(s: seq<Line>, second: seq<Line>, third: seq<Line>, a: nat, b: nat, c: nat)
    requires a <= b <= c <= |s| && second == s[a..b] && third == s[b..c]
    ensures s[..a] + second + third == s[..c]
  {
  }

  /** Hunks come in order and do not overlap, in either text. */
  ghost predicate Ordered(hunks: seq<Hunk>) {
    forall k, l :: 0 <= k < l < |hunks| ==>
      && hunks[k].oldStart + hunks[k].oldLines <= hunks[l].oldStart
      && hunks[k].newStart + hunks[k].newLines <= hunks[l].newStart
  }

  lemma {:induction false} PatchesOrdered(hunks: seq<Hunk>, before: seq<Line>, after: seq<Line>, i: nat, j: nat)
    requires Patches(hunks, before, after, i, j)
    ensures Ordered(hunks) && EndsBy(hunks, i, j)
  {
    hide *;
    if hunks == [] {
      NothingOrdered(i, j);
    } else {
      PatchesLast(hunks, before, after, i, j);
      var front, h := hunks[..|hunks| - 1], hunks[|hunks| - 1];
      PatchesOrdered(front, before, after, h.oldStart - 1, h.newStart - 1);
      OrderedPush(front, h, i, j);
    }
  }

  lemma PatchesLast(hunks: seq<Hunk>, before: seq<Line>, after: seq<Line>, i: nat, j: nat)
    requires hunks != [] && Patches(hunks, before, after, i, j)
    ensures var h := hunks[|hunks| - 1];
            && hunks == hunks[..|hunks| - 1] + [h]
            && 1 <= h.oldStart <= h.oldStart + h.oldLines <= i + 1 && 1 <= h.newStart <= h.newStart + h.newLines <= j + 1
            && Patches(hunks[..|hunks| - 1], before, after, h.oldStart - 1, h.newStart - 1)
  {
    hide RemovedLines, AddedLines, Numbered;
  }

  /** No hunk reaches past the first `i` old and `j` new lines. */
  ghost predicate EndsBy(hunks: seq<Hunk>, i: nat, j: nat) {
    forall k :: 0 <= k < |hunks| ==>
      && hunks[k].oldStart + hunks[k].oldLines <= i + 1
      && hunks[k].newStart + hunks[k].newLines <= j + 1
  }

  lemma NothingOrdered(i: nat, j: nat)
    ensures Ordered([]) && EndsBy([], i, j)
  {
  }

  lemma OrderedPush(front: seq<Hunk>, h: Hunk, i: nat, j: nat)
    requires 1 <= h.oldStart <= h.oldStart + h.oldLines <= i + 1 && 1 <= h.newStart <= h.newStart + h.newLines <= j + 1
    requires Ordered(front) && EndsBy(front, h.oldStart - 1, h.newStart - 1)
    ensures Ordered(front + [h]) && EndsBy(front + [h], i, j)
  {
  }

  function TotalOld(hunks: seq<Hunk>): nat {
    if hunks == [] then 0 else TotalOld(hunks[..|hunks| - 1]) + hunks[|hunks| - 1].oldLines
  }

  function TotalNew(hunks: seq<Hunk>): nat {
    if hunks == [] then 0 else TotalNew(hunks[..|hunks| - 1]) + hunks[|hunks| - 1].newLines
  }

  // ---- The builder ---------------------------------------------------------------------------------

  /** Pending lines stand for the last `oldLines` of `before[..i]` and `newLines` of `after[..j]`. */
  ghost predicate Stands(lines: seq<HunkLine>, before: seq<Line>, after: seq<Line>, i: nat, j: nat, oldLines: nat, newLines: nat) {
    && oldLines <= i <= |before| && newLines <= j <= |after|
    && RemovedLines(lines) == before[i - oldLines..i]
    && AddedLines(lines) == after[j - newLines..j]
    && Numbered(lines, i + 1 - oldLines, j + 1 - newLines)
  }

  lemma StandsRemoved(lines: seq<HunkLine>, before: seq<Line>, after: seq<Line>, i: nat, j: nat, oldLines: nat, newLines: nat)
    requires Stands(lines, before, after, i, j, oldLines, newLines) && i < |before|
    ensures Stands(lines + [HunkLine(false, before[i], Some(i + 1), None)], before, after, i + 1, j, oldLines + 1, newLines)
  {
    var more := lines + [HunkLine(false, before[i], Some(i + 1), None)];
    assert more[..|lines|] == lines;
    assert before[i - oldLines..i + 1] == before[i - oldLines..i] + [before[i]];
  }

  lemma StandsAdded(lines: seq<HunkLine>, before: seq<Line>, after: seq<Line>, i: nat, j: nat, oldLines: nat, newLines: nat)
    requires Stands(lines, before, after, i, j, oldLines, newLines) && j < |after|
    ensures Stands(lines + [HunkLine(true, after[j], None, Some(j + 1))], before, after, i, j + 1, oldLines, newLines + 1)
  {
    var more := lines + [HunkLine(true, after[j], None, Some(j + 1))];
    assert more[..|lines|] == lines;
    assert after[j - newLines..j + 1] == after[j - newLines..j] + [after[j]];
  }

  lemma PatchesPush(hunks: seq<Hunk>, lines: seq<HunkLine>, before: seq<Line>, after: seq<Line>, i: nat, j: nat, oldLines: nat, newLines: nat)
    requires Stands(lines, before, after, i, j, oldLines, newLines) && lines != []
    requires Patches(hunks, before, after, i - oldLines, j - newLines)
    ensures Patches(hunks + [Hunk(i + 1 - oldLines, oldLines, j + 1 - newLines, newLines, lines)], before, after, i, j)
  {
    hide Patches;
    PendingInside(lines, before, after, i, j, oldLines, newLines);
    var h := Hunk(i + 1 - oldLines, oldLines, j + 1 - newLines, newLines, lines);
    assert Fits(h, before, after, i, j) by { StandsFits(h, before, after, i, j); }
    OnePatchMore(hunks, h, before, after, i, j);
  }

  lemma StandsFits(h: Hunk, before: seq<Line>, after: seq<Line>, i: nat, j: nat)
    requires Stands(h.lines, before, after, i, j, h.oldLines, h.newLines) && h.lines != []
    requires h.oldStart == i + 1 - h.oldLines && h.newStart == j + 1 - h.newLines
    ensures Fits(h, before, after, i, j)
  {
    hide RemovedLines, AddedLines, Numbered;
  }

  lemma OnePatchMore(hunks: seq<Hunk>, h: Hunk, before: seq<Line>, after: seq<Line>, i: nat, j: nat)
    requires i <= |before| && j <= |after| && h.oldStart >= 1 && h.newStart >= 1 && Fits(h, before, after, i, j)
    requires Patches(hunks, before, after, h.oldStart - 1, h.newStart - 1)
    ensures Patches(hunks + [h], before, after, i, j)
  {
    hide Fits;
    assert (hunks + [h])[..|hunks|] == hunks;
  }

  lemma ExtendGap(hunks: seq<Hunk>, before: seq<Line>, after: seq<Line>, i: nat, j: nat, len: nat)
    requires Patches(hunks, before, after, i, j) && i + len <= |before| && j + len <= |after|
    requires before[i..i + len] == after[j..j + len]
    ensures Patches(hunks, before, after, i + len, j + len)
  {
    hide Fits;
    if hunks == [] {
      GapGrows(before, after, 0, 0, i, j, len);
      assert before[..i] == before[0..i] && after[..j] == after[0..j];
      assert before[..i + len] == before[0..i + len] && after[..j + len] == after[0..j + len];
    } else {
      FitsGrown(hunks[|hunks| - 1], before, after, i, j, len);
    }
  }

  lemma FitsGrown(h: Hunk, before: seq<Line>, after: seq<Line>, i: nat, j: nat, len: nat)
    requires Fits(h, before, after, i, j) && i + len <= |before| && j + len <= |after|
    requires before[i..i + len] == after[j..j + len]
    ensures Fits(h, before, after, i + len, j + len)
  {
    hide RemovedLines, AddedLines, Numbered;
    GapGrows(before, after, h.oldStart - 1 + h.oldLines, h.newStart - 1 + h.newLines, i, j, len);
  }

  lemma GapGrows(before: seq<Line>, after: seq<Line>, p: nat, q: nat, i: nat, j: nat, len: nat)
    requires p <= i && q <= j && i + len <= |before| && j + len <= |after|
    requires before[p..i] == after[q..j] && before[i..i + len] == after[j..j + len]
    ensures before[p..i + len] == after[q..j + len]
  {
    assert before[p..i + len] == before[p..i] + before[i..i + len];
    assert after[q..j + len] == after[q..j] + after[j..j + len];
  }

  class HunkBuilder {
    ghost const before: seq<Line>
    ghost const after: seq<Line>
    var hunks: seq<Hunk>
    var pending: seq<HunkLine>
    var oldStart: Option<nat>
    var newStart: Option<nat>
    var oldLines: nat
    var newLines: nat
    var oldLineNumber: nat
    var newLineNumber: nat

    /** The flushed hunks and the pending lines cover both texts up to the current line numbers. */
    ghost predicate Valid()
      reads this
    {
      && oldLineNumber >= 1 && newLineNumber >= 1
      && Stands(pending, before, after, oldLineNumber - 1, newLineNumber - 1, oldLines, newLines)
      && Patches(hunks, before, after, oldLineNumber - 1 - oldLines, newLineNumber - 1 - newLines)
      && oldStart == (if pending == [] then None else Some(oldLineNumber - oldLines))
      && newStart == (if pending == [] then None else Some(newLineNumber - newLines))
    }

    /** Lines removed and added so far. */
    ghost function Counts(): (nat, nat)
      reads this
    {
      (TotalOld(hunks) + oldLines, TotalNew(hunks) + newLines)
    }

    constructor (ghost before: seq<Line>, ghost after: seq<Line>)
      ensures Valid() && this.before == before && this.after == after && Counts() == (0, 0)
      ensures oldLineNumber == newLineNumber == 1
    {
      this.before, this.after := before, after;
      hunks, pending, oldStart, newStart := [], [], None, None;
      oldLines, newLines, oldLineNumber, newLineNumber := 0, 0, 1, 1;
      new;
      Covered();
    }

    ghost method Covered()
      requires pending == [] && hunks == [] && oldStart == newStart == None
      requires oldLines == newLines == 0 && oldLineNumber == newLineNumber == 1
      ensures Valid() && Counts() == (0, 0)
    {
      hide Patches, Stands, TotalOld, TotalNew;
      NothingStands(before, after, 0, 0);
      NothingPatches(before, after);
    }

    method Flush()
      requires Valid()
      modifies this
      ensures Valid() && pending == [] && oldLines == newLines == 0 && Counts() == old(Counts())
      ensures oldLineNumber == old(oldLineNumber) && newLineNumber == old(newLineNumber)
    {
      hide Patches, Stands, TotalOld, TotalNew;
      if pending == [] {
        PendingCounts(pending, before, after, oldLineNumber - 1, newLineNumber - 1, oldLines, newLines);
        return;
      }
      PendingInside(pending, before, after, oldLineNumber - 1, newLineNumber - 1, oldLines, newLines);
      PatchesPush(hunks, pending, before, after, oldLineNumber - 1, newLineNumber - 1, oldLines, newLines);
      var h := Hunk(oldStart.GetOr(oldLineNumber), oldLines, newStart.GetOr(newLineNumber), newLines, pending);
      OneMoreTotal(hunks, h);
      hunks := hunks + [h];
      NothingStands(before, after, oldLineNumber - 1, newLineNumber - 1);
      pending, oldStart, newStart, oldLines, newLines := [], None, None, 0, 0;
    }

    lemma Flushed()
      requires Valid() && oldLines == newLines == 0
      ensures Patches(hunks, before, after, oldLineNumber - 1, newLineNumber - 1)
      ensures Counts() == (TotalOld(hunks), TotalNew(hunks))
    {
      hide Patches, Stands, TotalOld, TotalNew;
    }

    method Removed(line: Line)
      requires Valid() && oldLineNumber <= |before| && line == before[oldLineNumber - 1]
      modifies this
      ensures Valid() && Counts() == (old(Counts()).0 + 1, old(Counts()).1)
      ensures oldLineNumber == old(oldLineNumber) + 1 && newLineNumber == old(newLineNumber)
    {
      hide Patches, Stands;
      StandsRemoved(pending, before, after, oldLineNumber - 1, newLineNumber - 1, oldLines, newLines);
      PendingCounts(pending, before, after, oldLineNumber - 1, newLineNumber - 1, oldLines, newLines);
      oldStart := Some(oldStart.GetOr(oldLineNumber));
      newStart := Some(newStart.GetOr(newLineNumber));
      pending := pending + [HunkLine(false, line, Some(oldLineNumber), None)];
      oldLineNumber := oldLineNumber + 1;
      oldLines := oldLines + 1;
    }

    method Added(line: Line)
      requires Valid() && newLineNumber <= |after| && line == after[newLineNumber - 1]
      modifies this
      ensures Valid() && Counts() == (old(Counts()).0, old(Counts()).1 + 1)
      ensures oldLineNumber == old(oldLineNumber) && newLineNumber == old(newLineNumber) + 1
    {
      hide Patches, Stands;
      StandsAdded(pending, before, after, oldLineNumber - 1, newLineNumber - 1, oldLines, newLines);
      PendingCounts(pending, before, after, oldLineNumber - 1, newLineNumber - 1, oldLines, newLines);
      oldStart := Some(oldStart.GetOr(oldLineNumber));
      newStart := Some(newStart.GetOr(newLineNumber));
      pending := pending + [HunkLine(true, line, None, Some(newLineNumber))];
      newLineNumber := newLineNumber + 1;
      newLines := newLines + 1;
    }

    method Equal(len: nat)
      requires Valid() && oldLineNumber - 1 + len <= |before| && newLineNumber - 1 + len <= |after|
      requires before[oldLineNumber - 1..][..len] == after[newLineNumber - 1..][..len]
      modifies this
      ensures Valid() && Counts() == old(Counts())
      ensures oldLineNumber == old(oldLineNumber) + len && newLineNumber == old(newLineNumber) + len
    {
      hide Patches, Stands, TotalOld, TotalNew;
      Flush();
      var i, j := oldLineNumber - 1, newLineNumber - 1;
      assert before[i..i + len] == before[i..][..len] && after[j..j + len] == after[j..][..len];
      ExtendGap(hunks, before, after, i, j, len);
      NothingStands(before, after, i + len, j + len);
      oldLineNumber := oldLineNumber + len;
      newLineNumber := newLineNumber + len;
    }
  }

  lemma NothingStands(before: seq<Line>, after: seq<Line>, i: nat, j: nat)
    requires i <= |before| && j <= |after|
    ensures Stands([], before, after, i, j, 0, 0)
  {
  }

  lemma PendingInside(lines: seq<HunkLine>, before: seq<Line>, after: seq<Line>, i: nat, j: nat, oldLines: nat, newLines: nat)
    requires Stands(lines, before, after, i, j, oldLines, newLines)
    ensures oldLines <= i <= |before| && newLines <= j <= |after|
  {
  }

  lemma OneMoreTotal(hunks: seq<Hunk>, h: Hunk)
    ensures TotalOld(hunks + [h]) == TotalOld(hunks) + h.oldLines && TotalNew(hunks + [h]) == TotalNew(hunks) + h.newLines
  {
    assert (hunks + [h])[..|hunks|] == hunks;
  }

  lemma NothingPatches(before: seq<Line>, after: seq<Line>)
    ensures Patches([], before, after, 0, 0) && TotalOld([]) == TotalNew([]) == 0
  {
  }

  lemma PendingCounts(lines: seq<HunkLine>, before: seq<Line>, after: seq<Line>, i: nat, j: nat, oldLines: nat, newLines: nat)
    requires Stands(lines, before, after, i, j, oldLines, newLines)
    ensures lines == [] ==> oldLines == newLines == 0
  {
  }

  function SumRemoved(ops: seq<DiffOp>): nat { if ops == [] then 0 else ops[0].Removed() + SumRemoved(ops[1..]) }

  function SumAdded(ops: seq<DiffOp>): nat { if ops == [] then 0 else ops[0].Added() + SumAdded(ops[1..]) }

  /** Main theorem: for every valid edit script the hunks are a patch from one text to the other,
      in order, with truthful line numbers, and their sizes are the script's counts. */
  method BuildHunks(ops: seq<DiffOp>, before: seq<Line>, after: seq<Line>) returns (hunks: seq<Hunk>)
    requires ValidScript(ops, before, after, 0, 0)
    ensures Apply(hunks, before, |before|) == after
    ensures Revert(hunks, after, |after|) == before
    ensures Patches(hunks, before, after, |before|, |after|) && Ordered(hunks)
    ensures TotalOld(hunks) == SumRemoved(ops) && TotalNew(hunks) == SumAdded(ops)
  {
    hide Patches, Stands, Apply, Revert, TotalOld, TotalNew, Ordered, HunkBuilder.Valid, HunkBuilder.Counts;
    hide ValidScript, SumRemoved, SumAdded;
    var builder := new HunkBuilder(before, after);
    assert ops[0..] == ops;
    for k := 0 to |ops|
      invariant builder.Valid() && builder.before == before && builder.after == after
      invariant builder.oldLineNumber >= 1 && builder.newLineNumber >= 1
      invariant ValidScript(ops[k..], before, after, builder.oldLineNumber - 1, builder.newLineNumber - 1)
      invariant builder.Counts().0 + SumRemoved(ops[k..]) == SumRemoved(ops)
      invariant builder.Counts().1 + SumAdded(ops[k..]) == SumAdded(ops)
    {
      ScriptStep(ops, k, before, after, builder.oldLineNumber - 1, builder.newLineNumber - 1);
      ApplyOp(builder, ops[k], before, after);
    }
    ScriptEnds(ops[|ops|..], before, after, builder.oldLineNumber - 1, builder.newLineNumber - 1);
    builder.Flush();
    hunks := builder.hunks;
    builder.Flushed();
    WholePatch(hunks, before, after);
  }

  lemma ScriptStep(ops: seq<DiffOp>, k: nat, before: seq<Line>, after: seq<Line>, i: nat, j: nat)
    requires k < |ops| && ValidScript(ops[k..], before, after, i, j)
    ensures var op := ops[k];
            && op.oldIndex == i && op.newIndex == j
            && i + op.OldLen() <= |before| && j + op.NewLen() <= |after|
            && (op.Equal? ==> before[i..i + op.len] == after[j..j + op.len])
            && ValidScript(ops[k + 1..], before, after, i + op.OldLen(), j + op.NewLen())
            && SumRemoved(ops[k..]) == op.Removed() + SumRemoved(ops[k + 1..])
            && SumAdded(ops[k..]) == op.Added() + SumAdded(ops[k + 1..])
  {
    assert ops[k..][1..] == ops[k + 1..];
  }

  lemma ScriptEnds(ops: seq<DiffOp>, before: seq<Line>, after: seq<Line>, i: nat, j: nat)
    requires ops == [] && ValidScript(ops, before, after, i, j)
    ensures i == |before| && j == |after| && SumRemoved(ops) == SumAdded(ops) == 0
  {
  }

  lemma WholePatch(hunks: seq<Hunk>, before: seq<Line>, after: seq<Line>)
    requires Patches(hunks, before, after, |before|, |after|)
    ensures Apply(hunks, before, |before|) == after && Revert(hunks, after, |after|) == before && Ordered(hunks)
  {
    hide Patches, Apply, Revert, Ordered;
    PatchesApply(hunks, before, after, |before|, |after|);
    PatchesRevert(hunks, before, after, |before|, |after|);
    PatchesOrdered(hunks, before, after, |before|, |after|);
    assert after[..|after|] == after && before[..|before|] == before;
  }

  method ApplyOp(builder: HunkBuilder, op: DiffOp, before: seq<Line>, after: seq<Line>)
    requires builder.Valid() && builder.before == before && builder.after == after
    requires op.oldIndex == builder.oldLineNumber - 1 && op.newIndex == builder.newLineNumber - 1
    requires op.oldIndex + op.OldLen() <= |before| && op.newIndex + op.NewLen() <= |after|
    requires op.Equal? ==> before[op.oldIndex..op.oldIndex + op.len] == after[op.newIndex..op.newIndex + op.len]
    modifies builder
    ensures builder.Valid()
    ensures builder.oldLineNumber == op.oldIndex + op.OldLen() + 1
    ensures builder.newLineNumber == op.newIndex + op.NewLen() + 1
    ensures builder.Counts() == (old(builder.Counts()).0 + op.Removed(), old(builder.Counts()).1 + op.Added())
  {
    hide Patches, Stands, HunkBuilder.Valid;
    match op
    case Equal(i, j, len) =>
      assert before[i..][..len] == before[i..i + len] && after[j..][..len] == after[j..j + len];
      builder.Equal(len);
    case Delete(i, n, _) => RemoveLines(builder, i, n, before);
    case Insert(_, j, n) => AddLines(builder, j, n, after);
    case Replace(i, n, j, m) =>
      RemoveLines(builder, i, n, before);
      AddLines(builder, j, m, after);
  }

  method RemoveLines(builder: HunkBuilder, i: nat, n: nat, before: seq<Line>)
    requires builder.Valid() && builder.before == before && builder.oldLineNumber == i + 1 && i + n <= |before|
    modifies builder
    ensures builder.Valid() && builder.oldLineNumber == i + n + 1 && builder.newLineNumber == old(builder.newLineNumber)
    ensures builder.Counts() == (old(builder.Counts()).0 + n, old(builder.Counts()).1)
  {
    hide Patches, Stands, HunkBuilder.Valid;
    for k := i to i + n
      invariant builder.Valid() && builder.oldLineNumber == k + 1 && builder.newLineNumber == old(builder.newLineNumber)
      invariant builder.Counts() == (old(builder.Counts()).0 + k - i, old(builder.Counts()).1)
    {
      builder.Removed(before[k]);
    }
  }

  method AddLines(builder: HunkBuilder, j: nat, m: nat, after: seq<Line>)
    requires builder.Valid() && builder.after == after && builder.newLineNumber == j + 1 && j + m <= |after|
    modifies builder
    ensures builder.Valid() && builder.newLineNumber == j + m + 1 && builder.oldLineNumber == old(builder.oldLineNumber)
    ensures builder.Counts() == (old(builder.Counts()).0, old(builder.Counts()).1 + m)
  {
    hide Patches, Stands, HunkBuilder.Valid;
    for k := j to j + m
      invariant builder.Valid() && builder.newLineNumber == k + 1 && builder.oldLineNumber == old(builder.oldLineNumber)
      invariant builder.Counts() == (old(builder.Counts()).0, old(builder.Counts()).1 + k - j)
    {
      builder.Added(after[k]);
    }
  }

  datatype ScreenTextDiff = ScreenTextDiff(addedLines: nat, removedLines: nat, changedLines: nat, hunks: seq<Hunk>)

  /** The diff of two texts over the library's script: the summary counts are the hunks' sizes,
      and their difference is the difference in length. */
  method DiffScreenText(ops: seq<DiffOp>, before: seq<Line>, after: seq<Line>) returns (d: ScreenTextDiff)
    requires ValidScript(ops, before, after, 0, 0)
    ensures d.addedLines == TotalNew(d.hunks) && d.removedLines == TotalOld(d.hunks)
    ensures d.changedLines == d.addedLines + d.removedLines
    ensures d.addedLines - d.removedLines == |after| - |before|
    ensures Apply(d.hunks, before, |before|) == after
  {
    hide Apply;
    var added, removed := 0, 0;
    assert ops[0..] == ops;
    for k := 0 to |ops|
      invariant removed + SumRemoved(ops[k..]) == SumRemoved(ops) && added + SumAdded(ops[k..]) == SumAdded(ops)
    {
      assert ops[k..][0] == ops[k] && ops[k..][1..] == ops[k + 1..];
      match ops[k]
      case Insert(_, _, n) => added := added + n;
      case Delete(_, n, _) => removed := removed + n;
      case Replace(_, n, _, m) => removed, added := removed + n, added + m;
      case Equal(_, _, _) =>
    }
    ScriptLength(ops, before, after, 0, 0);
    var hunks := BuildHunks(ops, before, after);
    d := ScreenTextDiff(added, removed, added + removed, hunks);
  }

  lemma {:induction false} ScriptLength(ops: seq<DiffOp>, before: seq<Line>, after: seq<Line>, i: nat, j: nat)
    requires ValidScript(ops, before, after, i, j)
    ensures SumAdded(ops) - SumRemoved(ops) == (|after| - j) - (|before| - i)
  {
    if ops != [] { ScriptLength(ops[1..], before, after, i + ops[0].OldLen(), j + ops[0].NewLen()); }
  }
}
