/** Splitting a text into chunks that fit a byte budget without splitting a character. */
module Utf8Chunks {
  import opened Options

  /** Length of one character in UTF-8. */
  function Size(c: char): nat {
    if c as int < 0x80 then 1 else if c as int < 0x800 then 2 else if c as int < 0x10000 then 3 else 4
  }

  /** One character in UTF-8 (section 3 of RFC 3629). */
  function Encoded(c: char): (u: seq<int>)
    ensures forall k :: 0 <= k < |u| ==> 0 <= u[k] < 0x100
  {
    var n := c as int;
    var high := n / 0x40;
    if n < 0x80 then [n]
    else if n < 0x800 then [0xC0 + high, 0x80 + n % 0x40]
    else if n < 0x10000 then [0xE0 + high / 0x40, 0x80 + high % 0x40, 0x80 + n % 0x40]
    else [0xF0 + high / 0x40 / 0x40, 0x80 + high / 0x40 % 0x40, 0x80 + high % 0x40, 0x80 + n % 0x40]
  }

  /** The character that the octets stand for: the payload bits of the first one and six of each that follows. */
  function Decoded(u: seq<int>): int {
    if |u| == 1 then u[0]
    else if |u| == 2 then (u[0] - 0xC0) * 0x40 + (u[1] - 0x80)
    else if |u| == 3 then ((u[0] - 0xE0) * 0x40 + (u[1] - 0x80)) * 0x40 + (u[2] - 0x80)
    else if |u| == 4 then (((u[0] - 0xF0) * 0x40 + (u[1] - 0x80)) * 0x40 + (u[2] - 0x80)) * 0x40 + (u[3] - 0x80)
    else -1
  }

  function EncodedText(s: string): seq<int> {
    if s == "" then [] else EncodedText(s[..|s| - 1]) + Encoded(s[|s| - 1])
  }

  /** The size of a character is the number of octets that it is encoded in, and the encoding can be read back. */
  lemma SizeIsEncodedLength(c: char)
    ensures |Encoded(c)| == Size(c) && Decoded(Encoded(c)) == c as int
  {
    var n := c as int;
    var high := n / 0x40;
    assert high * 0x40 + n % 0x40 == n;
    assert high / 0x40 * 0x40 + high % 0x40 == high;
    assert high / 0x40 / 0x40 * 0x40 + high / 0x40 % 0x40 == high / 0x40;
  }

  /** What is counted against the budget is the length of the encoded text. */
  lemma {:induction false} BytesAreEncoded(s: string)
    ensures Bytes(s) == |EncodedText(s)|
    decreases |s|
  {
    hide Encoded, Size;
    if s != "" {
      BytesAreEncoded(s[..|s| - 1]);
      SizeIsEncodedLength(s[|s| - 1]);
    }
  }

  function Bytes(s: string): nat {
    if s == "" then 0 else Bytes(s[..|s| - 1]) + Size(s[|s| - 1])
  }

  function Concat(pieces: seq<string>): string {
    if pieces == [] then "" else Concat(pieces[..|pieces| - 1]) + pieces[|pieces| - 1]
  }

  predicate Fits(pieces: seq<string>, budget: int) {
    forall k :: 0 <= k < |pieces| ==> Bytes(pieces[k]) <= budget
  }

  predicate FullAt(chunks: seq<string>, k: nat, budget: int)
    requires k + 1 < |chunks|
  {
    chunks[k + 1] != "" && Bytes(chunks[k]) + Size(chunks[k + 1][0]) > budget
  }

  /** Every chunk but the last is full: the first character of the next one would not fit. */
  predicate Full(chunks: seq<string>, budget: int) {
    forall k :: 0 <= k < |chunks| - 1 ==> FullAt(chunks, k, budget)
  }

  predicate NoneEmpty(chunks: seq<string>) {
    forall k :: 0 <= k < |chunks| ==> chunks[k] != ""
  }

  predicate TooWide(text: string, budget: int) {
    exists k :: 0 <= k < |text| && Size(text[k]) > budget
  }

  datatype ChunkError = BadBudget | CharacterTooWide

  lemma BytesAppend(s: string, c: char)
    ensures Bytes(s + [c]) == Bytes(s) + Size(c)
  {
    assert (s + [c])[..|s|] == s;
  }

  lemma ConcatAppend(pieces: seq<string>, piece: string)
    ensures Concat(pieces + [piece]) == Concat(pieces) + piece
  {
    assert (pieces + [piece])[..|pieces|] == pieces;
  }

  /** Closed chunks and the open one, after a part of the text. */
  ghost predicate Covers(chunks: seq<string>, current: string, part: string, budget: int) {
    && Concat(chunks) + current == part
    && Fits(chunks, budget) && NoneEmpty(chunks) && Full(chunks, budget)
    && Bytes(current) <= budget
    && (current == "" ==> chunks == [])
    && (chunks != [] ==> Bytes(chunks[|chunks| - 1]) + Size(current[0]) > budget)
  }

  lemma CloseKeeps(chunks: seq<string>, current: string, part: string, budget: int)
    requires Covers(chunks, current, part, budget) && current != ""
    ensures var closed := chunks + [current];
            Concat(closed) == part && Fits(closed, budget) && NoneEmpty(closed) && Full(closed, budget)
  {
    hide Bytes, Concat, Size;
    ConcatAppend(chunks, current);
    var closed := chunks + [current];
    forall k | 0 <= k < |closed| - 1 ensures FullAt(closed, k, budget) {
      if k < |chunks| - 1 { assert FullAt(chunks, k, budget); }
    }
  }

  lemma AddKeeps(chunks: seq<string>, current: string, part: string, budget: int, c: char)
    requires Covers(chunks, current, part, budget) && Bytes(current) + Size(c) <= budget
    ensures Covers(chunks, current + [c], part + [c], budget)
  {
    hide Bytes, Concat, Size, Fits, Full, NoneEmpty;
    BytesAppend(current, c);
    assert Concat(chunks) + (current + [c]) == (Concat(chunks) + current) + [c];
    assert current != "" ==> (current + [c])[0] == current[0];
  }

  lemma OpenKeeps(chunks: seq<string>, current: string, part: string, budget: int, c: char)
    requires Covers(chunks, current, part, budget) && current != "" && Bytes(current) + Size(c) > budget >= Size(c)
    ensures Covers(chunks + [current], [c], part + [c], budget)
  {
    hide Concat, Size, Fits, Full, NoneEmpty, Bytes;
    CloseKeeps(chunks, current, part, budget);
    NothingYet();
    BytesAppend("", c);
    assert "" + [c] == [c];
  }

  /**
   Fails exactly for a budget that is not positive or smaller than some character; otherwise the
   chunks are the text, fit, are not empty unless the text is, and no split into fewer pieces fits.
   */
  method Split(text: string, budget: int) returns (r: Result<seq<string>, ChunkError>)
    ensures r == Err(BadBudget) <==> budget <= 0
    ensures r == Err(CharacterTooWide) <==> budget > 0 && TooWide(text, budget)
    ensures r.Ok? ==> Concat(r.value) == text && Fits(r.value, budget)
    ensures r.Ok? ==> if text == "" then r.value == [""] else NoneEmpty(r.value)
    ensures r.Ok? ==> forall pieces :: Concat(pieces) == text && Fits(pieces, budget) && text != "" ==> |r.value| <= |pieces|
  {
    if budget <= 0 {
      return Err(BadBudget);
    }
    hide Bytes, Concat, Covers, Fits, Full, NoneEmpty, Size;
    var chunks: seq<string> := [];
    var current := "";
    var used := 0;
    assert text[..0] == "";
    Beginning(budget);
    for k := 0 to |text|
      invariant used == Bytes(current)
      invariant Covers(chunks, current, text[..k], budget)
      invariant forall j :: 0 <= j < k ==> Size(text[j]) <= budget
    {
      var c := text[k];
      var size := Size(c);
      ghost var closed, partial := chunks, current;
      assert text[..k + 1] == text[..k] + [c];
      if current != "" && used + size > budget {
        chunks := chunks + [current];
        current := "";
        used := 0;
        NothingYet();
      }
      if size > budget {
        return Err(CharacterTooWide);
      }
      if chunks == closed {
        AddKeeps(closed, partial, text[..k], budget, c);
      } else {
        OpenKeeps(closed, partial, text[..k], budget, c);
        assert "" + [c] == [c];
      }
      BytesAppend(current, c);
      current := current + [c];
      used := used + size;
    }
    assert text[..|text|] == text;
    ghost var closed := chunks;
    if current != "" || chunks == [] {
      chunks := chunks + [current];
    }
    if current == "" {
      OnlyEmpty(closed, text, budget);
      NothingFits(budget);
      assert chunks == [""];
    } else {
      CloseKeeps(closed, current, text, budget);
      NotEmptyText(chunks, text);
      forall pieces | Concat(pieces) == text && Fits(pieces, budget)
        ensures |chunks| <= |pieces|
      {
        FullIsShortest(chunks, pieces, budget);
      }
    }
    return Ok(chunks);
  }

  lemma Beginning(budget: int)
    requires budget > 0
    ensures Covers([], "", "", budget) && Bytes("") == 0
  {
  }

  lemma NothingYet()
    ensures Bytes("") == 0 && Concat([]) == ""
  {
  }

  lemma OnlyEmpty(chunks: seq<string>, part: string, budget: int)
    requires Covers(chunks, "", part, budget)
    ensures chunks == [] && part == ""
  {
  }

  lemma NothingFits(budget: int)
    requires budget > 0
    ensures Concat([""]) == "" && Fits([""], budget)
  {
  }

  lemma NotEmptyText(chunks: seq<string>, text: string)
    requires chunks != [] && NoneEmpty(chunks) && Concat(chunks) == text
    ensures text != ""
  {
  }

  // ---- Full chunks are as few as possible ----

  lemma {:induction false} BytesMonotone(s: string, from: nat, end: nat)
    requires from <= end <= |s|
    ensures Bytes(s[from..end]) <= Bytes(s)
    decreases |s|
  {
    if s != "" {
      var init := s[..|s| - 1];
      if end == |s| {
        if from < end {
          BytesMonotone(init, from, end - 1);
          assert s[from..end][..end - from - 1] == init[from..end - 1];
        }
      } else {
        BytesMonotone(init, from, end);
        assert s[from..end] == init[from..end];
      }
    }
  }

  lemma {:induction false} ConcatSplit(pieces: seq<string>, j: nat)
    requires j <= |pieces|
    ensures Concat(pieces[..j]) <= Concat(pieces) && |Concat(pieces[..j])| <= |Concat(pieces)|
    decreases |pieces|
  {
    if j < |pieces| {
      var init := pieces[..|pieces| - 1];
      ConcatSplit(init, j);
      assert init[..j] == pieces[..j];
    } else {
      assert pieces[..j] == pieces;
    }
  }

  lemma ConcatStep(pieces: seq<string>, j: nat)
    requires j < |pieces|
    ensures Concat(pieces[..j + 1]) == Concat(pieces[..j]) + pieces[j]
  {
    assert pieces[..j + 1] == pieces[..j] + [pieces[j]];
    ConcatAppend(pieces[..j], pieces[j]);
  }

  /** After as many pieces, full chunks have covered at least as much of the text. */
  lemma {:induction false} FullStaysAhead(chunks: seq<string>, pieces: seq<string>, budget: int, j: nat)
    requires Concat(chunks) == Concat(pieces) && Full(chunks, budget) && Fits(pieces, budget)
    requires j <= |pieces| && j < |chunks|
    ensures |Concat(pieces[..j])| <= |Concat(chunks[..j])|
    decreases j
  {
    hide Bytes, Concat;
    if j > 0 {
      FullStaysAhead(chunks, pieces, budget, j - 1);
      ConcatStep(chunks, j - 1);
      ConcatStep(pieces, j - 1);
      ConcatStep(chunks, j);
      ConcatSplit(chunks, j + 1);
      ConcatSplit(pieces, j);
      assert FullAt(chunks, j - 1, budget);
      NextWouldNotFit(Concat(chunks), Concat(pieces[..j - 1]), pieces[j - 1], Concat(chunks[..j - 1]), chunks[j - 1], chunks[j], budget);
    } else {
      assert pieces[..0] == [] && chunks[..0] == [];
    }
  }

  /** A piece that starts no later than a full chunk cannot reach beyond it. */
  lemma NextWouldNotFit(text: string, before: string, piece: string, ahead: string, chunk: string, next: string, budget: int)
    requires before + piece <= text && ahead + chunk + next <= text && |before| <= |ahead|
    requires next != "" && Bytes(chunk) + Size(next[0]) > budget && Bytes(piece) <= budget
    ensures |before + piece| <= |ahead + chunk|
  {
    hide Bytes;
    if |before + piece| > |ahead + chunk| {
      var from, end := |ahead| - |before|, |ahead + chunk| + 1 - |before|;
      var longer := chunk + [next[0]];
      assert piece == text[|before|..|before| + |piece|];
      assert longer == text[|ahead|..|ahead + chunk| + 1];
      assert piece[from..end] == longer;
      BytesMonotone(piece, from, end);
      BytesAppend(chunk, next[0]);
    }
  }

  lemma {:induction false} FullIsShortest(chunks: seq<string>, pieces: seq<string>, budget: int)
    requires Concat(chunks) == Concat(pieces) && Full(chunks, budget) && NoneEmpty(chunks) && Fits(pieces, budget)
    ensures |chunks| <= |pieces|
  {
    hide *;
    if |pieces| < |chunks| {
      var j := |pieces|;
      FullStaysAhead(chunks, pieces, budget, j);
      assert pieces[..j] == pieces;
      ConcatStep(chunks, j);
      ConcatSplit(chunks, j + 1);
      HasCharacters(chunks, j);
    }
  }

  lemma HasCharacters(chunks: seq<string>, j: nat)
    requires NoneEmpty(chunks) && j < |chunks|
    ensures |chunks[j]| > 0
  {
  }
}
