/** The retained tail of one command's output, with the accounting of what was dropped. */
module OutputBuffers {
  import opened Utf8

  const MAX_COMMAND_OUTPUT_BYTES: nat := 1024 * 1024

  /** The state of an `OutputBuffer`, as a value. */
  datatype Buffer = Buffer(
    retained: string,
    totalBytes: nat,
    totalCharacters: nat,
    startOffset: nat,
    droppedBytes: nat,
    truncated: bool)

  const EMPTY: Buffer := Buffer([], 0, 0, 0, 0, false)

  // ---- What the operations compute -----------------------------------------------------

  /** The least number of leading scalars whose encoding reaches `need` bytes. */
  function PrefixReaching(text: string, need: int): (k: nat)
    ensures k <= |text|
    ensures k > 0 ==> ByteLen(text[..k - 1]) < need
    ensures need <= ByteLen(text) ==> need <= ByteLen(text[..k])
  {
    if need <= 0 || text == [] then 0
    else
      var k := PrefixReaching(text[1..], need - CharBytes(text[0]));
      assert text[..k + 1][1..] == text[1..][..k];
      assert k > 0 ==> text[..k][1..] == text[1..][..k - 1];
      k + 1
  }

  function Dropped(b: Buffer, k: nat): Buffer
    requires k <= |b.retained|
  {
    b.(retained := b.retained[k..],
       startOffset := b.startOffset + k,
       droppedBytes := b.droppedBytes + ByteLen(b.retained[..k]),
       truncated := true)
  }

  function Trimmed(b: Buffer, maxBytes: nat): Buffer {
    var len := ByteLen(b.retained);
    if len <= maxBytes then b else Dropped(b, PrefixReaching(b.retained, len - maxBytes))
  }

  function Appended(b: Buffer, text: string): Buffer {
    if text == [] then b
    else Trimmed(Grown(b, text), MAX_COMMAND_OUTPUT_BYTES)
  }

  function Grown(b: Buffer, text: string): Buffer {
    b.(retained := b.retained + text,
       totalBytes := b.totalBytes + ByteLen(text),
       totalCharacters := b.totalCharacters + |text|)
  }

  function ReclaimedAll(b: Buffer): Buffer {
    if ByteLen(b.retained) == 0 then b else Dropped(b, |b.retained|)
  }

  function ReclaimedPrefix(b: Buffer, bytes: nat): Buffer {
    var len := ByteLen(b.retained);
    if bytes >= len then ReclaimedAll(b) else Trimmed(b, len - bytes)
  }

  // ---- What they promise ----------------------------------------------------------------

  /** The counters and the retained tail are truthful about `full`, everything produced. */
  ghost predicate Accounts(b: Buffer, full: string) {
    && b.totalBytes == ByteLen(full)
    && b.totalCharacters == |full|
    && b.startOffset <= |full|
    && b.retained == full[b.startOffset..]
    && b.droppedBytes == ByteLen(full[..b.startOffset])
  }

  ghost predicate Describes(b: Buffer, full: string) {
    && Accounts(b, full)
    && (b.truncated <==> b.startOffset > 0)
    && ByteLen(b.retained) <= MAX_COMMAND_OUTPUT_BYTES
  }

  /** The retained tail is the longest one that fits the per-command cap. */
  ghost predicate LongestTail(b: Buffer, full: string)
    requires Describes(b, full)
  {
    b.startOffset > 0 ==> ByteLen(full[b.startOffset - 1..]) > MAX_COMMAND_OUTPUT_BYTES
  }

  /** Retained plus dropped is the total, in bytes and in characters. */
  lemma Conservation(b: Buffer, full: string)
    requires Describes(b, full)
    ensures ByteLen(b.retained) + b.droppedBytes == b.totalBytes
    ensures |b.retained| + b.startOffset == b.totalCharacters
  {
    ByteLenSplit(full, b.startOffset);
  }

  lemma EmptyText(text: string)
    ensures ByteLen(text) == 0 <==> text == []
  {
  }

  lemma DroppedDescribes(b: Buffer, full: string, k: nat)
    requires Accounts(b, full)
    requires 0 < k <= |b.retained| && ByteLen(b.retained[k..]) <= MAX_COMMAND_OUTPUT_BYTES
    ensures Describes(Dropped(b, k), full)
  {
    hide ByteLen;
    var s := b.startOffset;
    SplitTwice(full, s, k);
  }

  lemma SplitTwice(full: string, s: nat, k: nat)
    requires s + k <= |full|
    ensures full[s..][k..] == full[s + k..]
    ensures ByteLen(full[..s + k]) == ByteLen(full[..s]) + ByteLen(full[s..][..k])
  {
    assert full[..s + k][..s] == full[..s] && full[..s + k][s..] == full[s..][..k];
    ByteLenSplit(full[..s + k], s);
  }

  /** Trimming keeps at most `maxBytes`, under four bytes less than it could. */
  lemma TrimmedBounds(b: Buffer, maxBytes: nat)
    ensures var after := ByteLen(Trimmed(b, maxBytes).retained);
            && after <= maxBytes
            && (Trimmed(b, maxBytes) != b ==> maxBytes < after + 4)
  {
    hide ByteLen;
    var len := ByteLen(b.retained);
    if len > maxBytes {
      var k := PrefixReaching(b.retained, len - maxBytes);
      EmptyText(b.retained[..0]);
      ByteLenSplit(b.retained, k);
      LastScalar(b.retained, k);
    }
  }

  lemma LastScalar(text: string, k: nat)
    requires 0 < k <= |text|
    ensures ByteLen(text[..k]) == ByteLen(text[..k - 1]) + CharBytes(text[k - 1])
    ensures ByteLen(text[k - 1..]) == ByteLen(text[k..]) + CharBytes(text[k - 1])
  {
    ByteLenConcat(text[..k - 1], [text[k - 1]]);
    assert text[..k - 1] + [text[k - 1]] == text[..k];
    assert ByteLen([text[k - 1]]) == CharBytes(text[k - 1]);
    assert text[k - 1..][1..] == text[k..];
  }

  /** Appending extends the described output, and keeps the longest tail that fits. */
  lemma AppendedDescribes(b: Buffer, full: string, text: string)
    requires Describes(b, full) && LongestTail(b, full)
    ensures Describes(Appended(b, text), full + text) && LongestTail(Appended(b, text), full + text)
  {
    if text == [] {
      assert full + text == full;
    } else {
      hide ByteLen;
      GrownAccounts(b, full, text);
      var grown, s := Grown(b, text), b.startOffset;
      if ByteLen(grown.retained) > MAX_COMMAND_OUTPUT_BYTES {
        GrownDescribes(grown, full + text);
      } else if s > 0 {
        ByteLenConcat(full[s - 1..], text);
        assert (full + text)[s - 1..] == full[s - 1..] + text;
      }
    }
  }

  lemma GrownAccounts(b: Buffer, full: string, text: string)
    requires Accounts(b, full)
    ensures Accounts(Grown(b, text), full + text)
  {
    hide ByteLen;
    var s := b.startOffset;
    ByteLenConcat(full, text);
    assert (full + text)[..s] == full[..s] && (full + text)[s..] == full[s..] + text;
  }

  lemma GrownDescribes(b: Buffer, full: string)
    requires Accounts(b, full)
    requires ByteLen(b.retained) > MAX_COMMAND_OUTPUT_BYTES
    ensures var t := Trimmed(b, MAX_COMMAND_OUTPUT_BYTES); Describes(t, full) && LongestTail(t, full)
  {
    hide ByteLen, PrefixReaching;
    var tail := b.retained;
    var k := PrefixReaching(tail, ByteLen(tail) - MAX_COMMAND_OUTPUT_BYTES);
    LeastDrop(tail, MAX_COMMAND_OUTPUT_BYTES);
    DroppedDescribes(b, full, k);
    TailOneEarlier(full, b.startOffset, k);
  }

  /** The trimmed length is the least drop that fits. */
  lemma LeastDrop(text: string, maxBytes: nat)
    requires ByteLen(text) > maxBytes
    ensures var k := PrefixReaching(text, ByteLen(text) - maxBytes);
            0 < k && ByteLen(text[k..]) <= maxBytes < ByteLen(text[k - 1..])
  {
    hide ByteLen, PrefixReaching;
    var k := PrefixReaching(text, ByteLen(text) - maxBytes);
    assert k > 0 by { EmptyText(text[..0]); }
    ByteLenSplit(text, k);
    ByteLenSplit(text, k - 1);
  }

  lemma TailOneEarlier(full: string, s: nat, k: nat)
    requires 0 < k && s + k <= |full|
    ensures full[s..][k - 1..] == full[s + k - 1..]
  {
  }

  /** Reclaiming frees what was asked for, or everything, and overshoots by under four bytes. */
  lemma ReclaimedBounds(b: Buffer, bytes: nat)
    ensures var before, after := ByteLen(b.retained), ByteLen(ReclaimedPrefix(b, bytes).retained);
            if bytes >= before then after == 0
            else before - after >= bytes && (bytes > 0 ==> before - after < bytes + 4)
  {
    hide ByteLen, PrefixReaching;
    var len := ByteLen(b.retained);
    if bytes >= len {
      EmptyText(b.retained[|b.retained|..]);
    } else {
      TrimmedBounds(b, len - bytes);
    }
  }

  lemma ReclaimedDescribes(b: Buffer, full: string, bytes: nat)
    requires Describes(b, full)
    ensures Describes(ReclaimedPrefix(b, bytes), full)
    ensures b.startOffset <= ReclaimedPrefix(b, bytes).startOffset
  {
    hide ByteLen, PrefixReaching;
    var len := ByteLen(b.retained);
    if bytes >= len {
      if len > 0 {
        EmptyText(b.retained);
        EmptyText(b.retained[|b.retained|..]);
        DroppedDescribes(b, full, |b.retained|);
      }
    } else if bytes > 0 {
      LeastDrop(b.retained, len - bytes);
      DroppedDescribes(b, full, PrefixReaching(b.retained, bytes));
    }
  }

  /** Where `TrimTo` stands after walking over `k` scalars. */
  ghost predicate WalkedTo(text: string, need: int, k: nat, bytes: nat) {
    && k <= |text|
    && bytes == ByteLen(text[..k])
    && PrefixReaching(text, need) == k + PrefixReaching(text[k..], need - bytes)
  }

  lemma WalkStarts(text: string, need: int)
    ensures WalkedTo(text, need, 0, 0)
  {
    assert text[0..] == text;
  }

  lemma WalkStep(text: string, need: int, k: nat, bytes: nat)
    requires k < |text| && WalkedTo(text, need, k, bytes) && bytes < need
    ensures WalkedTo(text, need, k + 1, bytes + CharBytes(text[k]))
  {
    assert text[k..][1..] == text[k + 1..];
    assert ByteLen(text[..k + 1]) == bytes + CharBytes(text[k]) by { LastScalar(text, k + 1); }
  }

  lemma WalkEnds(text: string, need: int, k: nat, bytes: nat)
    requires WalkedTo(text, need, k, bytes) && (k == |text| || bytes >= need)
    ensures k == PrefixReaching(text, need) && bytes == ByteLen(text[..k])
  {
  }

  // ---- The object ------------------------------------------------------------------------

  class OutputBuffer {
    var retained: string
    var totalBytes: nat
    var totalCharacters: nat
    var retainedStartOffset: nat
    var droppedPrefixBytes: nat
    var sourceTruncated: bool

    constructor ()
      ensures Value() == EMPTY
    {
      retained, totalBytes, totalCharacters := [], 0, 0;
      retainedStartOffset, droppedPrefixBytes, sourceTruncated := 0, 0, false;
    }

    function Value(): Buffer
      reads this
    {
      Buffer(retained, totalBytes, totalCharacters, retainedStartOffset, droppedPrefixBytes, sourceTruncated)
    }

    method Append(text: string)
      modifies this
      ensures Value() == Appended(old(Value()), text)
    {
      if text == [] {
        return;
      }
      totalBytes := totalBytes + ByteLen(text);
      totalCharacters := totalCharacters + |text|;
      retained := retained + text;
      TrimTo(MAX_COMMAND_OUTPUT_BYTES);
    }

    /** The walk stops at the first character boundary past the excess bytes. */
    method TrimTo(maxBytes: nat)
      modifies this
      ensures Value() == Trimmed(old(Value()), maxBytes)
    {
      hide ByteLen, PrefixReaching;
      if ByteLen(retained) <= maxBytes {
        return;
      }
      var targetDrop := ByteLen(retained) - maxBytes;
      var dropped: nat, droppedChars := 0, 0;
      WalkStarts(retained, targetDrop);
      while droppedChars < |retained| && dropped < targetDrop
        invariant droppedChars <= |retained|
        invariant WalkedTo(retained, targetDrop, droppedChars, dropped)
        modifies {}
      {
        WalkStep(retained, targetDrop, droppedChars, dropped);
        dropped := dropped + CharBytes(retained[droppedChars]);
        droppedChars := droppedChars + 1;
      }
      WalkEnds(retained, targetDrop, droppedChars, dropped);
      retained := retained[droppedChars..];
      retainedStartOffset := retainedStartOffset + droppedChars;
      droppedPrefixBytes := droppedPrefixBytes + dropped;
      sourceTruncated := true;
    }

    method ReclaimAll() returns (freed: nat)
      modifies this
      ensures Value() == ReclaimedAll(old(Value()))
      ensures freed == old(ByteLen(retained))
    {
      freed := ByteLen(retained);
      if freed == 0 {
        return;
      }
      assert retained[..|retained|] == retained;
      retainedStartOffset := retainedStartOffset + |retained|;
      droppedPrefixBytes := droppedPrefixBytes + freed;
      sourceTruncated := true;
      retained := [];
    }

    /** Frees a prefix of `bytes` or slightly more, up to everything; `freed` is its size. */
    method ReclaimPrefix(bytes: nat) returns (freed: nat)
      modifies this
      ensures Value() == ReclaimedPrefix(old(Value()), bytes)
      ensures freed == old(ByteLen(retained)) - ByteLen(retained)
    {
      if bytes >= ByteLen(retained) {
        freed := ReclaimAll();
        EmptyText(retained);
        return;
      }
      var before := ByteLen(retained);
      TrimmedBounds(Value(), before - bytes);
      TrimTo(before - bytes);
      freed := before - ByteLen(retained);
    }
  }
}
