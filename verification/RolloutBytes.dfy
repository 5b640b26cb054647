/**
 Byte-level view of an append-only JSONL file: complete records end in LF, a partial
 record may follow the last LF.
 */
module RolloutBytes {
  newtype byte = x: int | 0 <= x < 256

  type Bytes = seq<byte>

  const LF: byte := 10
  const CR: byte := 13

  predicate NoLf(s: Bytes) {
    forall i :: 0 <= i < |s| ==> s[i] != LF
  }

  /** Length of the first complete record including its LF; 0 when there is none. */
  function RecordLength(s: Bytes): (n: nat)
    ensures n <= |s|
    ensures n > 0 ==> s[n - 1] == LF && forall i :: 0 <= i < n - 1 ==> s[i] != LF
    ensures n == 0 ==> NoLf(s)
  {
    if s == [] then 0
    else if s[0] == LF then 1
    else
      var n := RecordLength(s[1..]);
      assert forall i :: 1 <= i < |s| ==> s[i] == s[1..][i - 1];
      if n == 0 then 0 else n + 1
  }

  /** What one readline call returns at the front of s: a complete record or the rest. */
  function FirstLine(s: Bytes): (line: Bytes)
    ensures line <= s
  {
    var n := RecordLength(s);
    if n == 0 then s else s[..n]
  }

  /** The partial record after the last LF. */
  function Tail(s: Bytes): (t: Bytes)
    ensures |t| <= |s|
  {
    var n := RecordLength(s);
    if n == 0 then s else Tail(s[n..])
  }

  /** Drops the longest suffix made of bytes in chars (Python's rstrip). */
  function TrimRight(s: Bytes, chars: set<byte>): (t: Bytes)
    ensures t <= s
    ensures forall i :: |t| <= i < |s| ==> s[i] in chars
    ensures t != [] ==> t[|t| - 1] !in chars
  {
    if s != [] && s[|s| - 1] in chars then TrimRight(s[..|s| - 1], chars) else s
  }

  /** The body the reader parses and hashes for one raw record. */
  function Body(raw: Bytes): Bytes {
    TrimRight(raw, {CR, LF})
  }

  /** Index just after the last LF before position end, or 0. */
  function AfterLastLf(s: Bytes, end: nat): (i: nat)
    requires end <= |s|
    ensures i <= end
    ensures i > 0 ==> s[i - 1] == LF
    ensures forall k :: i <= k < end ==> s[k] != LF
  {
    if end == 0 || s[end - 1] == LF then end else AfterLastLf(s, end - 1)
  }

  /** The last complete record of a non-empty run of complete records, found going forward. */
  function LastRecord(s: Bytes): (r: Bytes)
    requires s != [] && Tail(s) == []
  {
    var n := RecordLength(s);
    if n == |s| then s else LastRecord(s[n..])
  }

  /** Some complete record has an empty body. */
  predicate HasBlank(s: Bytes) {
    var n := RecordLength(s);
    n > 0 && (Body(s[..n]) == [] || HasBlank(s[n..]))
  }

  lemma RecordLengthAppend(s: Bytes, t: Bytes)
    requires RecordLength(s) > 0
    ensures RecordLength(s + t) == RecordLength(s)
  {
    var n := RecordLength(s);
    assert (s + t)[n - 1] == LF;
    assert forall i :: 0 <= i < n - 1 ==> (s + t)[i] == s[i];
  }

  /** Reading on after more bytes arrived starts from the same partial record. */
  lemma {:induction false} TailAppend(s: Bytes, t: Bytes)
    ensures Tail(s + t) == Tail(Tail(s) + t)
    decreases |s|
  {
    var n := RecordLength(s);
    if n > 0 {
      RecordLengthAppend(s, t);
      assert (s + t)[n..] == s[n..] + t;
      TailAppend(s[n..], t);
    }
  }

  /** The complete records of s, without the partial last one. */
  function Complete(s: Bytes): Bytes {
    var n := RecordLength(s);
    if n == 0 then [] else s[..n] + Complete(s[n..])
  }

  lemma {:induction false} SplitAtTail(s: Bytes)
    ensures s == Complete(s) + Tail(s) && |Complete(s)| == |s| - |Tail(s)|
    decreases |s|
  {
    hide *;
    var n := RecordLength(s);
    UnfoldRecords(s);
    if n > 0 {
      SplitAtTail(s[n..]);
      assert s == s[..n] + s[n..];
    }
  }

  lemma UnfoldRecords(s: Bytes)
    ensures var n := RecordLength(s);
            if n == 0 then Tail(s) == s && Complete(s) == [] && !HasBlank(s)
            else
              && Tail(s) == Tail(s[n..])
              && Complete(s) == s[..n] + Complete(s[n..])
              && (HasBlank(s) <==> Body(s[..n]) == [] || HasBlank(s[n..]))
  {
  }

  lemma {:induction false} CompleteHasNoTail(s: Bytes)
    ensures NoLf(Tail(s)) && Tail(Complete(s)) == []
    decreases |s|
  {
    var n := RecordLength(s);
    if n > 0 {
      CompleteHasNoTail(s[n..]);
      FirstRecord(s, Complete(s[n..]));
    }
  }

  lemma FirstRecord(s: Bytes, rest: Bytes)
    requires RecordLength(s) > 0
    ensures var n := RecordLength(s);
            RecordLength(s[..n] + rest) == n && (s[..n] + rest)[n..] == rest
  {
    var n := RecordLength(s);
    assert s[..n][n - 1] == LF;
    RecordLengthAppend(s[..n], rest);
  }

  lemma {:induction false} HasBlankAppend(s: Bytes, t: Bytes)
    requires Tail(s) == []
    ensures HasBlank(s + t) <==> HasBlank(s) || HasBlank(t)
    decreases |s|
  {
    hide *;
    var n := RecordLength(s);
    UnfoldRecords(s);
    UnfoldRecords(s + t);
    if n == 0 {
      assert s + t == t;
    } else {
      RecordLengthAppend(s, t);
      assert (s + t)[n..] == s[n..] + t;
      assert (s + t)[..n] == s[..n];
      HasBlankAppend(s[n..], t);
    }
  }

  lemma {:induction false} TrimLineEnd(line: Bytes)
    requires NoLf(line)
    ensures Body(line + [LF]) == TrimRight(line, {CR})
  {
    assert (line + [LF])[..|line|] == line;
    TrimWithoutLf(line);
  }

  lemma {:induction false} TrimWithoutLf(line: Bytes)
    requires NoLf(line)
    ensures TrimRight(line, {CR, LF}) == TrimRight(line, {CR})
  {
    if line != [] && line[|line| - 1] == CR {
      TrimWithoutLf(line[..|line| - 1]);
    }
  }

  /**
   The body that a backward search from a committed offset selects: drop one LF at the end
   if there is one, go back to the previous LF, and trim CR bytes.
   */
  function BackwardBody(s: Bytes, committed: nat): Bytes
    requires 0 < committed <= |s|
  {
    var end := if s[committed - 1] == LF then committed - 1 else committed;
    TrimRight(s[AfterLastLf(s, end)..end], {CR})
  }

  /** At a record boundary the backward search finds the last record of the forward pass. */
  lemma {:induction false} BackwardAgreesWithForward(s: Bytes, committed: nat)
    requires 0 < committed <= |s| && Tail(s[..committed]) == []
    ensures BackwardBody(s, committed) == Body(LastRecord(s[..committed]))
  {
    hide Tail, LastRecord, AfterLastLf, TrimRight;
    var p := s[..committed];
    var end := committed - 1;
    BoundaryEndsWithLf(p);
    LastRecordStart(p);
    AfterLastLfPrefix(s, committed, end);
    var start := AfterLastLf(s, end);
    LineOfRecord(s, committed, start);
    TrimLineEnd(s[start..end]);
  }

  lemma LineOfRecord(s: Bytes, committed: nat, start: nat)
    requires start < committed <= |s| && s[committed - 1] == LF
    ensures s[..committed][start..] == s[start..committed - 1] + [LF]
  {
  }

  lemma {:induction false} BoundaryEndsWithLf(p: Bytes)
    requires p != [] && Tail(p) == []
    ensures p[|p| - 1] == LF
    decreases |p|
  {
    var n := RecordLength(p);
    if n < |p| {
      var rest := p[n..];
      BoundaryEndsWithLf(rest);
      assert rest[|rest| - 1] == p[|p| - 1];
    }
  }

  lemma {:induction false} LastRecordStart(p: Bytes)
    requires p != [] && Tail(p) == []
    ensures LastRecord(p) == p[AfterLastLf(p, |p| - 1)..]
    decreases |p|
  {
    hide *;
    var n := RecordLength(p);
    BoundaryUnfold(p);
    if n < |p| {
      var rest := p[n..];
      LastRecordStart(rest);
      AfterLastLfShift(p, n, |rest| - 1);
      SliceOfSlice(p, n, AfterLastLf(rest, |rest| - 1));
    } else {
      assert AfterLastLf(p, |p| - 1) == 0;
    }
  }

  lemma BoundaryUnfold(p: Bytes)
    requires p != [] && Tail(p) == []
    ensures var n := RecordLength(p);
            && n > 0
            && (n < |p| ==> Tail(p[n..]) == [] && LastRecord(p) == LastRecord(p[n..]))
            && (n == |p| ==> LastRecord(p) == p)
  {
  }

  lemma SliceOfSlice(p: Bytes, n: nat, i: nat)
    requires n + i <= |p|
    ensures p[n..][i..] == p[n + i..]
  {
  }

  lemma {:induction false} AfterLastLfShift(p: Bytes, n: nat, end: nat)
    requires 0 < n && n + end <= |p| && p[n - 1] == LF
    ensures AfterLastLf(p, n + end) == n + AfterLastLf(p[n..], end)
  {
    if end > 0 && p[n + end - 1] != LF {
      AfterLastLfShift(p, n, end - 1);
    }
  }

  lemma {:induction false} AfterLastLfPrefix(s: Bytes, k: nat, end: nat)
    requires end <= k <= |s|
    ensures AfterLastLf(s[..k], end) == AfterLastLf(s, end)
  {
    if end > 0 && s[end - 1] != LF {
      AfterLastLfPrefix(s, k, end - 1);
    }
  }
}
