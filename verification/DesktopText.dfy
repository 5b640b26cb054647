/** How an observed user item is matched with text submitted through the desktop application. */
module DesktopText {
  function WithoutTerminalNewline(s: string): string {
    if |s| >= 2 && s[|s| - 2..] == "\r\n" then s[..|s| - 2]
    else if |s| >= 1 && s[|s| - 1] == '\n' then s[..|s| - 1]
    else s
  }

  /** SHA-256 is taken as injective, so the normalised text stands for its own digest. */
  function SubmissionDigest(s: string): string {
    WithoutTerminalNewline(s)
  }

  const MARKER := "\n## My request:\n"
  const FILES_HEADER := "# Files mentioned by the user:"
  const BROWSER_OPEN := "<in-app-browser-context source=\"ambient-ui-state\">"
  const BROWSER_CLOSE := "</in-app-browser-context>"

  predicate OccursAt(s: string, pattern: string, k: nat) {
    k + |pattern| <= |s| && s[k..k + |pattern|] == pattern
  }

  ghost predicate Contains(s: string, pattern: string) {
    exists k: nat :: OccursAt(s, pattern, k)
  }

  /** Position of the last occurrence that starts at or before from, or -1 (Python's rfind). */
  function LastOccurrence(s: string, pattern: string, from: nat): (k: int)
    ensures -1 <= k <= from
    ensures k >= 0 ==> OccursAt(s, pattern, k)
    ensures forall j: nat :: k < j <= from ==> !OccursAt(s, pattern, j)
  {
    if OccursAt(s, pattern, from) then from
    else if from == 0 then -1
    else LastOccurrence(s, pattern, from - 1)
  }

  predicate Space(c: char) {
    c in "\t\n\r \U{0B}\U{0C}\U{1C}\U{1D}\U{1E}\U{1F}\U{85}\U{A0}\U{1680}\U{2028}\U{2029}\U{202F}\U{205F}\U{3000}"
    || '\U{2000}' <= c <= '\U{200A}'
  }

  function TrimLeft(s: string): string {
    if s != "" && Space(s[0]) then TrimLeft(s[1..]) else s
  }

  function TrimRight(s: string): string {
    if s != "" && Space(s[|s| - 1]) then TrimRight(s[..|s| - 1]) else s
  }

  function Trim(s: string): string {
    TrimRight(TrimLeft(s))
  }

  predicate EndsWith(s: string, suffix: string) {
    |suffix| <= |s| && s[|s| - |suffix|..] == suffix
  }

  /** The text before the request was written by the application itself. */
  predicate Wrapper(preamble: string, hasAttachments: bool) {
    var stripped := Trim(preamble);
    || (hasAttachments && FILES_HEADER <= stripped)
    || (BROWSER_OPEN <= stripped && EndsWith(stripped, BROWSER_CLOSE))
  }

  // ---- Preambles ----

  ghost predicate AllSpaces(s: string) {
    forall k :: 0 <= k < |s| ==> Space(s[k])
  }

  /** preamble is middle with white space around it, and middle has none at its ends. */
  ghost predicate Around(preamble: string, left: string, middle: string, right: string) {
    && preamble == left + middle + right && AllSpaces(left) && AllSpaces(right)
    && (middle != "" ==> !Space(middle[0]) && !Space(middle[|middle| - 1]))
  }

  lemma {:induction false} TrimmedLeft(s: string) returns (left: string)
    ensures s == left + TrimLeft(s) && AllSpaces(left)
    ensures TrimLeft(s) != "" ==> !Space(TrimLeft(s)[0])
    decreases |s|
  {
    hide Space;
    left := "";
    if s != "" && Space(s[0]) {
      left := TrimmedLeft(s[1..]);
      left := [s[0]] + left;
      assert s == [s[0]] + s[1..];
    } else {
      assert "" + s == s;
    }
  }

  lemma {:induction false} TrimmedRight(s: string) returns (right: string)
    ensures s == TrimRight(s) + right && AllSpaces(right)
    ensures TrimRight(s) != "" ==> !Space(TrimRight(s)[|TrimRight(s)| - 1]) && TrimRight(s)[0] == s[0]
    decreases |s|
  {
    hide Space;
    right := "";
    if s != "" && Space(s[|s| - 1]) {
      right := TrimmedRight(s[..|s| - 1]);
      right := right + [s[|s| - 1]];
      assert s == s[..|s| - 1] + [s[|s| - 1]];
    } else {
      assert s + "" == s;
    }
  }

  lemma Trimmed(s: string) returns (left: string, right: string)
    ensures Around(s, left, Trim(s), right)
  {
    hide TrimLeft, TrimRight, Space;
    left := TrimmedLeft(s);
    right := TrimmedRight(TrimLeft(s));
    assert left + (Trim(s) + right) == left + Trim(s) + right;
  }

  /** Only one part of a text can be what is left of it. */
  lemma OneMiddle(s: string, l: string, m: string, r: string, l': string, m': string, r': string)
    requires Around(s, l, m, r) && Around(s, l', m', r') && m != ""
    ensures m' == m
  {
    hide Space;
    assert s[|l|] == m[0] && s[|l| + |m| - 1] == m[|m| - 1];
    assert forall k :: 0 <= k < |l'| ==> s[k] == l'[k];
    assert forall k :: 0 <= k < |r'| ==> s[|l'| + |m'| + k] == r'[k];
    assert |l'| <= |l|;
    assert |l'| + |m'| >= |l| + |m|;
    assert m' != "";
    assert s[|l'|] == m'[0] && s[|l'| + |m'| - 1] == m'[|m'| - 1];
    assert forall k :: 0 <= k < |l| ==> s[k] == l[k];
    assert forall k :: 0 <= k < |r| ==> s[|l| + |m| + k] == r[k];
    assert m == s[|l|..|l| + |m|] && m' == s[|l'|..|l'| + |m'|];
  }

  /** What an application writes before the request, white space around it aside. */
  ghost predicate WrittenByApplication(middle: string, hasAttachments: bool) {
    || (hasAttachments && FILES_HEADER <= middle)
    || (BROWSER_OPEN <= middle && EndsWith(middle, BROWSER_CLOSE))
  }

  /** A preamble counts exactly when, inside its outer white space, an application's text begins (and ends). */
  lemma WrapperIff(preamble: string, hasAttachments: bool)
    ensures Wrapper(preamble, hasAttachments) <==>
            exists left, middle, right :: Around(preamble, left, middle, right) && WrittenByApplication(middle, hasAttachments)
  {
    hide Around, Space, Trim;
    var l, r := Trimmed(preamble);
    if left, middle, right :| Around(preamble, left, middle, right) && WrittenByApplication(middle, hasAttachments) {
      assert middle != "";
      OneMiddle(preamble, left, middle, right, l, Trim(preamble), r);
    }
    if Wrapper(preamble, hasAttachments) {
      assert Around(preamble, l, Trim(preamble), r) && WrittenByApplication(Trim(preamble), hasAttachments);
    }
  }

  predicate MatchesSubmission(actual: string, digest: string, hasAttachments: bool) {
    || SubmissionDigest(actual) == digest
    || var k := LastOccurrence(actual, MARKER, |actual|);
       && k >= 0
       && Wrapper(actual[..k], hasAttachments)
       && SubmissionDigest(actual[k + |MARKER|..]) == digest
  }

  predicate Ending(e: string) {
    e == "" || e == "\n" || e == "\r\n"
  }

  /** Taking one line end off text + ending leaves what taking one off text leaves. */
  predicate EndingIsForgotten(text: string, ending: string) {
    || ending == ""
    || text == ""
    || (text[|text| - 1] != '\n' && !(ending == "\n" && text[|text| - 1] == '\r'))
  }

  /**
   Submitted text that comes back with a line end added, or with none, is recognised exactly when
   nothing was added or the text has no line end of its own that the added one runs into.
   */
  lemma EchoIsRecognisedIff(text: string, ending: string, hasAttachments: bool)
    requires Ending(ending)
    ensures MatchesSubmission(text + ending, SubmissionDigest(text), hasAttachments) <==> EndingIsForgotten(text, ending)
  {
    hide *;
    MarkerEnd();
    var w := text + ending;
    EndingLength(ending);
    EndingIsDroppedIff(text, ending);
    MatchesUnfold(w, SubmissionDigest(text), hasAttachments);
    DigestBounds(text);
    var k := LastOccurrence(w, MARKER, |w|);
    if k >= 0 {
      DigestBounds(w[k + |MARKER|..]);
    }
  }

  lemma EndingLength(ending: string)
    requires Ending(ending)
    ensures |ending| <= 2
  {
  }

  lemma EndingIsDroppedIff(text: string, ending: string)
    requires Ending(ending)
    ensures SubmissionDigest(text + ending) == SubmissionDigest(text) <==> EndingIsForgotten(text, ending)
  {
    hide SubmissionDigest;
    var s := text + ending;
    DigestLength(s);
    DigestLength(text);
    DigestPrefix(s);
    DigestPrefix(text);
    assert ending == "" ==> s == text;
    assert forall i :: 0 <= i < |text| ==> s[i] == text[i];
    assert forall i :: 0 <= i < |ending| ==> s[|text| + i] == ending[i];
    assert s[..|text|] == text;
    if |SubmissionDigest(s)| == |SubmissionDigest(text)| {
      assert SubmissionDigest(s) == s[..|SubmissionDigest(s)|] == text[..|SubmissionDigest(text)|];
    }
  }

  lemma DigestPrefix(s: string)
    ensures SubmissionDigest(s) <= s
  {
  }

  lemma DigestBounds(s: string)
    ensures |s| - 2 <= |SubmissionDigest(s)| <= |s|
  {
  }

  /** For instance a text that ends in a line feed is not recognised with another line feed behind it. */
  lemma TextWithLineFeedIsNotRecognised()
    ensures !MatchesSubmission("a\n" + "\n", SubmissionDigest("a\n"), false)
  {
    EchoIsRecognisedIff("a\n", "\n", false);
  }

  // ---- What the normaliser makes of a plain message ----

  predicate LineEndChar(c: char) {
    c == '\r' || c == '\n'
  }

  function StripLineEndsLeft(s: string): string {
    if s != "" && LineEndChar(s[0]) then StripLineEndsLeft(s[1..]) else s
  }

  function StripLineEndsRight(s: string): string {
    if s != "" && LineEndChar(s[|s| - 1]) then StripLineEndsRight(s[..|s| - 1]) else s
  }

  /** A message that the normaliser does nothing to but strip: no request marker, image reference or envelope. */
  ghost predicate Plain(raw: string) {
    '<' !in raw && !Contains(raw, MARKER)
  }

  /** What the normaliser makes of a plain message; this text is compared when the item arrives late. */
  function NormalisedText(raw: string): string {
    StripLineEndsRight(StripLineEndsLeft(raw))
  }

  predicate NoOuterLineEnds(s: string) {
    s == "" || (!LineEndChar(s[0]) && !LineEndChar(s[|s| - 1]))
  }

  /**
   A late item is compared in its normalised form, so a plain message is recognised late exactly when the
   submitted text neither begins nor, but for one line end, ends with line ends of its own.
   */
  lemma LateEchoIsRecognisedIff(text: string, ending: string, hasAttachments: bool)
    requires Ending(ending) && Plain(text + ending)
    ensures MatchesSubmission(NormalisedText(text + ending), SubmissionDigest(text), hasAttachments) <==>
            NoOuterLineEnds(SubmissionDigest(text))
  {
    hide *;
    MarkerEnd();
    var d, n := SubmissionDigest(text), NormalisedText(text + ending);
    Normalised(text + ending);
    MatchesUnfold(n, d, hasAttachments);
    EndingLength(ending);
    DigestBounds(text);
    var k := LastOccurrence(n, MARKER, |n|);
    if k >= 0 {
      DigestBounds(n[k + |MARKER|..]);
    }
    DigestOfStripped(n);
    var rest := text[|d|..] + ending;
    DigestSplits(text);
    assert text + ending == d + rest;
    OnlyLineEnds(text, ending);
    if NoOuterLineEnds(d) {
      StripAround(d, rest);
    }
  }

  lemma DigestSplits(text: string)
    ensures |SubmissionDigest(text)| <= |text| && text == SubmissionDigest(text) + text[|SubmissionDigest(text)|..]
  {
  }

  lemma OnlyLineEnds(text: string, ending: string)
    requires Ending(ending)
    ensures |SubmissionDigest(text)| <= |text|
    ensures var rest := text[|SubmissionDigest(text)|..] + ending;
            forall i :: 0 <= i < |rest| ==> LineEndChar(rest[i])
  {
    hide SubmissionDigest;
    DigestBounds(text);
    DigestLength(text);
  }

  lemma {:induction false} StrippedLeft(s: string)
    ensures var t := StripLineEndsLeft(s);
            |t| <= |s| && s[|s| - |t|..] == t && (t != "" ==> !LineEndChar(t[0]))
    decreases |s|
  {
    if s != "" && LineEndChar(s[0]) { StrippedLeft(s[1..]); }
  }

  lemma {:induction false} StrippedRight(s: string)
    ensures var t := StripLineEndsRight(s);
            t <= s && (t != "" ==> !LineEndChar(t[|t| - 1]))
    decreases |s|
  {
    if s != "" && LineEndChar(s[|s| - 1]) { StrippedRight(s[..|s| - 1]); }
  }

  lemma Normalised(s: string)
    ensures NoOuterLineEnds(NormalisedText(s)) && |NormalisedText(s)| <= |s|
  {
    hide StripLineEndsLeft, StripLineEndsRight, LineEndChar;
    StrippedLeft(s);
    StrippedRight(StripLineEndsLeft(s));
  }

  lemma DigestOfStripped(n: string)
    requires NoOuterLineEnds(n)
    ensures SubmissionDigest(n) == n
  {
    DigestLength(n);
  }

  lemma {:induction false} StripAround(d: string, rest: string)
    requires NoOuterLineEnds(d) && forall i :: 0 <= i < |rest| ==> LineEndChar(rest[i])
    ensures NormalisedText(d + rest) == d
    decreases |rest|
  {
    hide LineEndChar;
    if d == "" {
      assert d + rest == rest;
      StripAllLeft(rest);
    } else {
      assert StripLineEndsLeft(d + rest) == d + rest;
      StripRightOf(d, rest);
    }
  }

  lemma {:induction false} StripAllLeft(rest: string)
    requires forall i :: 0 <= i < |rest| ==> LineEndChar(rest[i])
    ensures StripLineEndsLeft(rest) == ""
    decreases |rest|
  {
    if rest != "" { StripAllLeft(rest[1..]); }
  }

  lemma {:induction false} StripRightOf(d: string, rest: string)
    requires d != "" && !LineEndChar(d[|d| - 1]) && forall i :: 0 <= i < |rest| ==> LineEndChar(rest[i])
    ensures StripLineEndsRight(d + rest) == d
    decreases |rest|
  {
    if rest == "" {
      assert d + rest == d;
    } else {
      assert (d + rest)[..|d + rest| - 1] == d + rest[..|rest| - 1];
      StripRightOf(d, rest[..|rest| - 1]);
    }
  }

  /** Digests forget nothing but that line end. */
  lemma DigestsDistinguish(a: string, b: string)
    ensures SubmissionDigest(a) == SubmissionDigest(b) ==>
              exists s, x, y :: a == s + x && b == s + y && x in ["", "\n", "\r\n"] && y in ["", "\n", "\r\n"]
  {
    if SubmissionDigest(a) == SubmissionDigest(b) {
      var s := SubmissionDigest(a);
      DigestRest(a);
      DigestRest(b);
      assert a == s + a[|s|..] && b == s + b[|s|..];
    }
  }

  lemma DigestRest(a: string)
    ensures var s := SubmissionDigest(a);
            |s| <= |a| && a == s + a[|s|..] && a[|s|..] in ["", "\n", "\r\n"]
  {
    if |a| >= 1 && a[|a| - 1] == '\n' {
      assert a[|a| - 1..] == "\n";
    }
  }

  /**
   A submission that comes back behind an application preamble, with or without a line end added,
   is recognised exactly when what stands behind the marker does not complete another marker and
   the added line end is forgotten.
   */
  lemma WrappedEchoIsRecognisedIff(preamble: string, text: string, ending: string, hasAttachments: bool)
    requires Wrapper(preamble, hasAttachments) && Ending(ending)
    ensures MatchesSubmission(preamble + MARKER + text + ending, SubmissionDigest(text), hasAttachments) <==>
            !Contains("\n" + text + ending, MARKER) && EndingIsForgotten(text, ending)
  {
    hide *;
    MarkerEnd();
    EndingLength(ending);
    var tail := text + ending;
    var w := preamble + MARKER + tail;
    assert preamble + MARKER + text + ending == w && "\n" + text + ending == "\n" + tail;
    var k := LastOccurrence(w, MARKER, |w|);
    var p := |preamble|;
    assert w[p..p + |MARKER|] == MARKER;
    assert OccursAt(w, MARKER, p) by { OccursWhere(w, MARKER, p); }
    assert k >= p;
    DigestBounds(w);
    DigestBounds(text);
    LaterMarker(preamble, tail);
    MatchesUnfold(w, SubmissionDigest(text), hasAttachments);
    if k == p {
      assert w[..k] == preamble && w[k + |MARKER|..] == tail;
      EndingIsDroppedIff(text, ending);
    } else {
      MarkersDoNotOverlap(w, p, k);
      DigestBounds(w[k + |MARKER|..]);
    }
  }

  /** The line end that the application adds can itself complete a marker at the end of the text. */
  lemma {:induction false} AddedLineEndCompletesMarker(preamble: string)
    requires Wrapper(preamble, false)
    ensures !Contains("\n" + "x\n## My request:", MARKER)
    ensures !MatchesSubmission(preamble + MARKER + "x\n## My request:" + "\n", SubmissionDigest("x\n## My request:"), false)
  {
    hide Wrapper, MatchesSubmission, SubmissionDigest, Contains, EndingIsForgotten;
    WrappedEchoIsRecognisedIff(preamble, "x\n## My request:", "\n", false);
    MarkerThen();
    NoMarkerYet();
  }

  lemma {:induction false} MarkerThen()
    ensures Contains("\n" + "x\n## My request:" + "\n", MARKER)
  {
    var t := "\n" + "x\n## My request:" + "\n";
    assert |t| == 18 && |MARKER| == 16;
    assert t[2..18] == MARKER;
    assert OccursAt(t, MARKER, 2);
  }

  lemma {:induction false} NoMarkerYet()
    ensures !Contains("\n" + "x\n## My request:", MARKER)
  {
    var t := "\n" + "x\n## My request:";
    assert |t| == 17 && |MARKER| == 16;
    assert t[0..16][1] != MARKER[1];
    assert t[1..17][0] != MARKER[0];
  }

  lemma MarkerEnd()
    ensures |MARKER| == 16 && MARKER[15] == '\n'
  {
  }

  lemma OccursWhere(s: string, pattern: string, k: nat)
    ensures OccursAt(s, pattern, k) <==> k + |pattern| <= |s| && s[k..k + |pattern|] == pattern
  {
  }

  lemma MatchesUnfold(actual: string, digest: string, hasAttachments: bool)
    ensures var k := LastOccurrence(actual, MARKER, |actual|);
            k >= 0 ==> k + |MARKER| <= |actual|
    ensures var k := LastOccurrence(actual, MARKER, |actual|);
            MatchesSubmission(actual, digest, hasAttachments) <==>
              || SubmissionDigest(actual) == digest
              || (k >= 0 && Wrapper(actual[..k], hasAttachments) && SubmissionDigest(actual[k + |MARKER|..]) == digest)
  {
    hide Wrapper, SubmissionDigest;
  }

  lemma LaterMarker(preamble: string, text: string)
    ensures var w := preamble + MARKER + text;
            Contains("\n" + text, MARKER) <==> exists k: nat :: |preamble| < k <= |w| && OccursAt(w, MARKER, k)
  {
    var w, t := preamble + MARKER + text, "\n" + text;
    var shift := |preamble| + |MARKER| - 1;
    assert w[shift..] == t;
    if Contains(t, MARKER) {
      var j: nat :| OccursAt(t, MARKER, j);
      assert w[j + shift..j + shift + |MARKER|] == t[j..j + |MARKER|];
      assert OccursAt(w, MARKER, j + shift);
    }
    if k: nat :| k > |preamble| && OccursAt(w, MARKER, k) {
      MarkersDoNotOverlap(w, |preamble|, k);
      assert t[k - shift..k - shift + |MARKER|] == w[k..k + |MARKER|];
      assert OccursAt(t, MARKER, k - shift);
    }
  }

  /** Two markers share at most the line end between them. */
  lemma MarkersDoNotOverlap(w: string, p: nat, k: nat)
    requires p < k && OccursAt(w, MARKER, p) && OccursAt(w, MARKER, k)
    ensures k >= p + |MARKER| - 1
  {
    assert w[k] == w[k..k + |MARKER|][0] == '\n';
    assert forall i :: p < i < p + |MARKER| - 1 ==> w[i] == w[p..p + |MARKER|][i - p] == MARKER[i - p] != '\n';
  }

  lemma DigestLength(s: string)
    ensures |SubmissionDigest(s)| == |s| -
              (if |s| >= 2 && s[|s| - 2] == '\r' && s[|s| - 1] == '\n' then 2
               else if |s| >= 1 && s[|s| - 1] == '\n' then 1 else 0)
  {
    if |s| >= 2 {
      assert s[|s| - 2..] == [s[|s| - 2], s[|s| - 1]];
    }
  }
}
