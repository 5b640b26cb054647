/**
 Which parts of a text are links and images, told without a scan: escapes are counted backwards, parentheses
 are balanced, and of overlapping candidates the leftmost one counts.
 */
module MarkdownMeaning {
  import opened Options
  import opened Markdown

  // ---- Targets ----

  /** An odd number of backslashes stands directly before k. */
  predicate Escaped(text: string, k: nat)
    requires k <= |text|
  {
    k > 0 && text[k - 1] == '\\' && !Escaped(text, k - 1)
  }

  /** Parentheses open at k, of those from start on and the one before it; escaped ones do not count. */
  function Open(text: string, start: nat, k: nat): int
    requires start <= k <= |text|
  {
    if k == start then 1
    else
      var before := Open(text, start, k - 1);
      if Escaped(text, k - 1) then before
      else if text[k - 1] == '(' then before + 1
      else if text[k - 1] == ')' then before - 1
      else before
  }

  predicate OneLine(text: string, from: nat, end: nat)
    requires end <= |text|
  {
    forall k :: from <= k < end ==> !LineEnd(text[k])
  }

  /** The parentheses are balanced at end for the first time, on the line of start. */
  ghost predicate PlainTargetEnds(text: string, start: nat, end: nat) {
    && start < end <= |text| && OneLine(text, start, end)
    && Open(text, start, end) == 0
    && forall k :: start <= k < end ==> Open(text, start, k) > 0
  }

  /** Something not empty between angle brackets, on one line, and the closing parenthesis. */
  ghost predicate AngleTargetEnds(text: string, start: nat, end: nat) {
    && start + 4 <= end <= |text| && text[end - 2] == '>' && text[end - 1] == ')'
    && forall k :: start < k < end - 2 ==> text[k] != '>' && !LineEnd(text[k])
  }

  ghost predicate IsTarget(text: string, start: nat, end: nat) {
    if start < |text| && text[start] == '<' then AngleTargetEnds(text, start, end) else PlainTargetEnds(text, start, end)
  }

  /** Where scanning goes on behind what is no target: after the line, or after an angle bracket that ended it. */
  ghost predicate GoesOnAt(text: string, start: nat, resume: nat) {
    && start <= resume <= |text|
    && if start < |text| && text[start] == '<' then
         && (forall k :: start < k < resume - 1 ==> text[k] != '>' && !LineEnd(text[k]))
         && start < resume
         && (resume == |text| || (start + 1 < resume && (text[resume - 1] == '>' || LineEnd(text[resume - 1]))))
       else
         if resume > start && LineEnd(text[resume - 1]) then OneLine(text, start, resume - 1)
         else resume == |text| && OneLine(text, start, |text|)
  }

  lemma OpenStep(text: string, start: nat, k: nat)
    requires start <= k < |text|
    ensures Open(text, start, k + 1) == Open(text, start, k) +
            (if Escaped(text, k) then 0 else if text[k] == '(' then 1 else if text[k] == ')' then -1 else 0)
    ensures Escaped(text, k + 1) <==> text[k] == '\\' && !Escaped(text, k)
  {
  }

  /** The scan at cursor, with depth parentheses open so far and none balanced before. */
  lemma {:induction false} PlainTargetMeans(text: string, start: nat, cursor: nat, depth: nat)
    requires depth > 0 && start <= cursor <= |text| && OneLine(text, start, cursor)
    requires Open(text, start, cursor) == depth && forall k :: start <= k <= cursor ==> Open(text, start, k) > 0
    requires cursor < |text| ==> !Escaped(text, cursor)
    ensures var t := PlainTarget(text, cursor, depth);
            && t.resume <= |text|
            && (t.end.Some? ==> t.end.value == t.resume && PlainTargetEnds(text, start, t.end.value))
            && (t.end.None? ==>
                  && (if t.resume > start && LineEnd(text[t.resume - 1]) then OneLine(text, start, t.resume - 1)
                      else t.resume == |text| && OneLine(text, start, |text|))
                  && start <= t.resume
                  && forall end: nat :: !PlainTargetEnds(text, start, end))
    decreases |text| - cursor
  {
    hide Open, Escaped, PlainTarget;
    UnfoldPlain(text, cursor, depth);
    if cursor == |text| {
      NotYetBalanced(text, start, cursor);
    } else {
      OpenStep(text, start, cursor);
      if LineEnd(text[cursor]) {
        NotYetBalanced(text, start, cursor);
      } else if text[cursor] == '\\' {
        if cursor + 1 < |text| {
          OpenStep(text, start, cursor + 1);
          if LineEnd(text[cursor + 1]) {
            NotYetBalanced(text, start, cursor + 1);
          } else {
            PlainTargetMeans(text, start, cursor + 2, depth);
          }
        } else {
          NotYetBalanced(text, start, cursor + 1);
        }
      } else if text[cursor] == '(' {
        PlainTargetMeans(text, start, cursor + 1, depth + 1);
      } else if text[cursor] == ')' {
        if depth > 1 { PlainTargetMeans(text, start, cursor + 1, depth - 1); }
      } else {
        PlainTargetMeans(text, start, cursor + 1, depth);
      }
    }
  }

  lemma UnfoldPlain(text: string, cursor: nat, depth: nat)
    requires depth > 0 && cursor <= |text|
    ensures PlainTarget(text, cursor, depth) ==
            if cursor >= |text| then Target(None, |text|)
            else if LineEnd(text[cursor]) then Target(None, cursor + 1)
            else if text[cursor] == '\\' then
              if cursor + 1 >= |text| then Target(None, |text|)
              else if LineEnd(text[cursor + 1]) then Target(None, cursor + 2)
              else PlainTarget(text, cursor + 2, depth)
            else if text[cursor] == '(' then PlainTarget(text, cursor + 1, depth + 1)
            else if text[cursor] == ')' then
              if depth == 1 then Target(Some(cursor + 1), cursor + 1) else PlainTarget(text, cursor + 1, depth - 1)
            else PlainTarget(text, cursor + 1, depth)
  {
  }

  /** Nothing balanced up to the end of the line or of the text. */
  lemma NotYetBalanced(text: string, start: nat, at: nat)
    requires start <= at <= |text| && (forall k :: start <= k <= at ==> Open(text, start, k) > 0)
    requires at == |text| || LineEnd(text[at])
    ensures forall end: nat :: !PlainTargetEnds(text, start, end)
  {
    hide Open;
  }

  lemma OneEnd(text: string, start: nat, a: nat, b: nat)
    requires PlainTargetEnds(text, start, a) && PlainTargetEnds(text, start, b)
    ensures a == b
  {
    hide Open;
  }

  /** What a target is, and where the scan goes on when there is none. */
  lemma TargetIff(text: string, start: nat)
    requires start <= |text| && (start < |text| ==> !Escaped(text, start))
    ensures var t := TargetAt(text, start);
            && (forall end: nat :: t.end == Some(end) <==> IsTarget(text, start, end))
            && (t.end.None? ==> GoesOnAt(text, start, t.resume))
  {
    hide Open, Escaped, PlainTarget, PlainTargetEnds;
    if start < |text| && text[start] == '<' {
      AngleIff(text, start);
    } else {
      StartsOpen(text, start);
      PlainTargetMeans(text, start, start, 1);
      var t := TargetAt(text, start);
      forall end: nat ensures t.end == Some(end) <==> PlainTargetEnds(text, start, end) {
        if t.end.Some? && PlainTargetEnds(text, start, end) { OneEnd(text, start, t.end.value, end); }
      }
    }
  }

  lemma StartsOpen(text: string, start: nat)
    requires start <= |text|
    ensures Open(text, start, start) == 1
  {
  }

  lemma AngleIff(text: string, start: nat)
    requires start < |text| && text[start] == '<'
    ensures var t := TargetAt(text, start);
            && (forall end: nat :: t.end == Some(end) <==> AngleTargetEnds(text, start, end))
            && (t.end.None? ==> GoesOnAt(text, start, t.resume))
  {
    var k := AngleEnd(text, start + 1);
    forall end: nat ensures TargetAt(text, start).end == Some(end) <==> AngleTargetEnds(text, start, end) {
      if AngleTargetEnds(text, start, end) {
        assert k == end - 2;
      }
    }
  }

  // ---- Links ----

  predicate Live(text: string, k: nat) {
    k < |text| && (text[k] == '[' || text[k] == ']') && !Escaped(text, k)
  }

  /** A link's label: not an image's, not empty, without brackets of its own, and with a parenthesis behind it. */
  ghost predicate Labelled(text: string, open: nat, close: nat) {
    && open + 1 < close && close + 1 < |text|
    && Live(text, open) && text[open] == '[' && Live(text, close) && text[close] == ']'
    && (forall k :: open < k < close ==> !Live(text, k))
    && (open > 0 ==> text[open - 1] != '!')
    && text[close + 1] == '('
  }

  /** The label is looked at: no label looked at before takes the text up behind its opening bracket. */
  ghost predicate LookedAt(text: string, open: nat)
    decreases open
  {
    && (exists close: nat :: Labelled(text, open, close))
    && forall o: nat, c: nat :: o < open && Labelled(text, o, c) && LookedAt(text, o) ==> TargetAt(text, c + 2).resume <= open
  }

  /** Nothing that was looked at before p reaches beyond it. */
  ghost predicate Clear(text: string, p: nat) {
    forall o: nat, c: nat :: o < p && Labelled(text, o, c) && LookedAt(text, o) ==> TargetAt(text, c + 2).resume <= p
  }

  ghost predicate LinkThere(text: string, s: Span) {
    LookedAt(text, s.start) && Labelled(text, s.start, s.close) && IsTarget(text, s.close + 2, s.end)
  }

  lemma OneClose(text: string, open: nat, a: nat, b: nat)
    requires Labelled(text, open, a) && Labelled(text, open, b)
    ensures a == b
  {
    hide Escaped;
  }

  /** The next bracket is the first one that is not escaped. */
  lemma {:induction false} NextBracketIs(text: string, from: nat)
    requires from <= |text| && (from < |text| ==> !Escaped(text, from))
    ensures var k := NextBracket(text, from);
            from <= k <= |text| && (k < |text| ==> Live(text, k)) && forall j :: from <= j < k ==> !Live(text, j)
    decreases |text| - from
  {
    hide Escaped;
    if from < |text| {
      OpenStep(text, from, from);
      if text[from] == '\\' && from + 1 < |text| {
        OpenStep(text, from, from + 1);
        NextBracketIs(text, from + 2);
      } else if text[from] != '[' && text[from] != ']' {
        if from + 1 < |text| {
          NextBracketIs(text, from + 1);
        } else {
          NoLinksAtEnd(text, from + 1);
        }
      }
    }
  }

  /** Going on at a later place, when what lies between is not looked at. */
  lemma ClearLater(text: string, p: nat, q: nat)
    requires Clear(text, p) && p <= q && forall o: nat :: p <= o < q ==> !LookedAt(text, o)
    ensures Clear(text, q)
  {
    hide Labelled, LookedAt, TargetAt;
  }

  /** A label behind which the scan is clear is looked at, and hides what lies before its target's end. */
  lemma LookHere(text: string, p: nat, close: nat)
    requires Clear(text, p) && Labelled(text, p, close)
    ensures LookedAt(text, p)
    ensures forall o: nat :: p < o < TargetAt(text, close + 2).resume ==> !LookedAt(text, o)
    ensures p < close + 2 <= TargetAt(text, close + 2).resume && Clear(text, TargetAt(text, close + 2).resume)
  {
    hide Labelled, TargetAt;
    assert p < close && close + 2 <= |text| by { LabelFits(text, p, close); }
    TargetBounds(text, close + 2);
    var r := TargetAt(text, close + 2).resume;
    assert LookedAt(text, p);
    assert forall o: nat :: p < o < r ==> !LookedAt(text, o);
    forall o: nat, c: nat | o < r && Labelled(text, o, c) && LookedAt(text, o) ensures TargetAt(text, c + 2).resume <= r {
      if o == p { OneClose(text, p, c, close); }
    }
  }

  lemma LabelFits(text: string, open: nat, close: nat)
    requires Labelled(text, open, close)
    ensures open + 1 < close && close + 2 <= |text| && !Escaped(text, close + 1) && !Escaped(text, close + 2)
  {
  }

  lemma NotEscapedAfter(text: string, start: nat)
    requires start < |text| && TargetAt(text, start).resume < |text| && start <= TargetAt(text, start).resume
    requires !Escaped(text, start)
    ensures !Escaped(text, TargetAt(text, start).resume)
  {
    hide TargetAt;
    TargetIff(text, start);
    TargetBounds(text, start);
  }

  lemma LookedAtIsLive(text: string, o: nat)
    requires LookedAt(text, o)
    ensures Live(text, o) && text[o] == '['
  {
    hide Escaped;
  }

  /** The links found from p on are exactly those that start there. */
  lemma {:induction false} LinksFrom(text: string, p: nat, s: Span)
    requires p <= |text| && Clear(text, p) && (p < |text| ==> !Escaped(text, p))
    ensures s in Links(text, p) <==> p <= s.start && LinkThere(text, s)
    decreases |text| - p
  {
    hide Escaped, Labelled, LookedAt, Clear, Links, NextBracket, AfterLabel, TargetAt, IsTarget;
    if p == |text| {
      NoLinksAtEnd(text, p);
      if LookedAt(text, s.start) { LookedAtIsLive(text, s.start); }
    } else {
      OpenStep(text, p, p);
      if text[p] == '\\' && p + 1 < |text| {
        OpenStep(text, p, p + 1);
        UnfoldAt(text, p);
        PassOver(text, p, p + 2);
        LinksFrom(text, p + 2, s);
      } else if text[p] != '[' {
        UnfoldAt(text, p);
        PassOver(text, p, p + 1);
        LinksFrom(text, p + 1, s);
      } else {
        LinksFromBracket(text, p, s);
      }
    }
  }

  /** Nothing that is not a live opening bracket is looked at. */
  lemma PassOver(text: string, p: nat, q: nat)
    requires Clear(text, p) && p <= q <= |text| && forall k :: p <= k < q ==> !Live(text, k) || text[k] != '['
    ensures Clear(text, q) && forall o: nat :: p <= o < q ==> !LookedAt(text, o)
  {
    hide LookedAt, Live, Clear;
    forall o: nat | p <= o < q ensures !LookedAt(text, o) {
      if LookedAt(text, o) { LookedAtIsLive(text, o); }
    }
    ClearLater(text, p, q);
  }

  lemma LinksFromBracket(text: string, p: nat, s: Span)
    requires p < |text| && Clear(text, p) && !Escaped(text, p) && text[p] == '['
    ensures s in Links(text, p) <==> p <= s.start && LinkThere(text, s)
    decreases |text| - p, 0
  {
    hide Escaped, LookedAt, Clear, Links, NextBracket, TargetAt, IsTarget;
    OpenStep(text, p, p);
    UnfoldOpen(text, p);
    NextBracketIs(text, p + 1);
    var close := NextBracket(text, p + 1);
    if close >= |text| || text[close] == '[' || !Opens(text, p, close) {
      NotLabelled(text, p, close);
      var next := if close >= |text| || text[close] == '[' then p + 1 else close + 1;
      if next > p + 1 { OpenStep(text, p, close); }
      NothingBetween(text, p, next, close);
      LinksFrom(text, next, s);
    } else {
      assert Labelled(text, p, close);
      LookHere(text, p, close);
      LabelFits(text, p, close);
      var t := TargetAt(text, close + 2);
      TargetIff(text, close + 2);
      TargetBounds(text, close + 2);
      if t.resume < |text| { NotEscapedAfter(text, close + 2); }
      LinksFrom(text, t.resume, s);
      if s.start == p && Labelled(text, p, s.close) { OneClose(text, p, close, s.close); }
    }
  }

  lemma NotLabelled(text: string, p: nat, close: nat)
    requires p < close <= |text| && (close < |text| ==> Live(text, close)) && (forall j :: p < j < close ==> !Live(text, j))
    requires close == |text| || text[close] == '[' || !Opens(text, p, close)
    requires p < |text|
    ensures forall c: nat :: !Labelled(text, p, c)
  {
    hide Escaped;
  }

  lemma NothingBetween(text: string, p: nat, next: nat, close: nat)
    requires Clear(text, p) && p < next <= |text| && (forall c: nat :: !Labelled(text, p, c))
    requires p < close <= |text| && (forall j :: p < j < close ==> !Live(text, j))
    requires next == p + 1 || (close < |text| && next == close + 1 && text[close] == ']')
    ensures Clear(text, next) && forall o: nat :: p <= o < next ==> !LookedAt(text, o)
  {
    hide Clear, Escaped, Labelled, LookedAt;
    NoLabelNoLook(text, p);
    forall o: nat | p <= o < next ensures !LookedAt(text, o) {
      if LookedAt(text, o) { LookedAtIsLive(text, o); }
    }
    ClearLater(text, p, next);
  }

  lemma NoLabelNoLook(text: string, p: nat)
    requires forall c: nat :: !Labelled(text, p, c)
    ensures !LookedAt(text, p)
  {
  }

  /**
   The links of a text, for every span: a label that is not inside what an earlier label's target takes up,
   and a target behind it.
   */
  lemma FoundIff(text: string, s: Span)
    ensures s in Links(text, 0) <==> LinkThere(text, s)
  {
    hide LinkThere, Links;
    LinksFrom(text, 0, s);
  }

  // ---- Images ----

  /** An image begins at start, and its label, which may be empty or hold brackets, ends at the first live closing one. */
  ghost predicate ImageLabelled(text: string, start: nat, close: nat) {
    && start + 2 <= close < |text|
    && text[start] == '!' && text[start + 1] == '['
    && text[close] == ']' && !Escaped(text, close)
    && forall k :: start + 2 <= k < close && text[k] == ']' ==> Escaped(text, k)
  }

  /** Where the scan goes on after an image's label. */
  function ImageResume(text: string, close: nat): nat {
    if close + 1 < |text| && text[close + 1] == '(' then TargetAt(text, close + 2).resume else close + 1
  }

  ghost predicate ImageLookedAt(text: string, start: nat)
    decreases start
  {
    && (exists close: nat :: ImageLabelled(text, start, close))
    && forall o: nat, c: nat :: o < start && ImageLabelled(text, o, c) && ImageLookedAt(text, o) ==> ImageResume(text, c) <= start
  }

  ghost predicate ImagesClear(text: string, p: nat) {
    forall o: nat, c: nat :: o < p && ImageLabelled(text, o, c) && ImageLookedAt(text, o) ==> ImageResume(text, c) <= p
  }

  ghost predicate ImageThere(text: string, s: Span) {
    && ImageLookedAt(text, s.start) && ImageLabelled(text, s.start, s.close)
    && s.close + 1 < |text| && text[s.close + 1] == '('
    && IsTarget(text, s.close + 2, s.end)
  }

  lemma OneImageClose(text: string, start: nat, a: nat, b: nat)
    requires ImageLabelled(text, start, a) && ImageLabelled(text, start, b)
    ensures a == b
  {
    hide Escaped;
  }

  lemma {:induction false} LabelEndIs(text: string, from: nat)
    requires from <= |text| && (from < |text| ==> !Escaped(text, from))
    ensures var k := LabelEnd(text, from);
            && from <= k <= |text| && (k < |text| ==> text[k] == ']' && !Escaped(text, k))
            && forall j :: from <= j < k && text[j] == ']' ==> Escaped(text, j)
    decreases |text| - from
  {
    hide Escaped;
    if from < |text| {
      OpenStep(text, from, from);
      if text[from] == '\\' && from + 1 < |text| {
        OpenStep(text, from, from + 1);
        LabelEndIs(text, from + 2);
      } else if text[from] != ']' {
        if from + 1 < |text| { LabelEndIs(text, from + 1); }
      }
    }
  }

  lemma {:induction false} FindImageIs(text: string, from: nat)
    requires from <= |text|
    ensures forall j :: from <= j < FindImage(text, from) && j + 1 < |text| ==> !(text[j] == '!' && text[j + 1] == '[')
    decreases |text| - from
  {
    if from + 1 < |text| && !(text[from] == '!' && text[from + 1] == '[') {
      FindImageIs(text, from + 1);
    }
  }

  lemma ImagesClearLater(text: string, p: nat, q: nat)
    requires ImagesClear(text, p) && p <= q && forall o: nat :: p <= o < q ==> !ImageLookedAt(text, o)
    ensures ImagesClear(text, q)
  {
    hide ImageLabelled, ImageLookedAt, ImageResume;
  }

  lemma ImageResumeBounds(text: string, close: nat)
    requires close < |text|
    ensures close < ImageResume(text, close) <= |text|
  {
    hide TargetAt;
    if close + 1 < |text| { TargetBounds(text, close + 2); }
  }

  lemma LookAtImage(text: string, p: nat, close: nat)
    requires ImagesClear(text, p) && ImageLabelled(text, p, close)
    ensures ImageLookedAt(text, p)
    ensures forall o: nat :: p < o < ImageResume(text, close) ==> !ImageLookedAt(text, o)
    ensures p < ImageResume(text, close) && ImagesClear(text, ImageResume(text, close))
  {
    assert p < close < |text|;
    ImageResumeBounds(text, close);
    hide ImageLabelled, ImageResume;
    var r := ImageResume(text, close);
    assert ImageLookedAt(text, p);
    assert forall o: nat :: p < o < r ==> !ImageLookedAt(text, o);
    forall o: nat, c: nat | o < r && ImageLabelled(text, o, c) && ImageLookedAt(text, o) ensures ImageResume(text, c) <= r {
      if o == p { OneImageClose(text, p, c, close); }
    }
  }

  lemma ImageLookedAtBegins(text: string, o: nat)
    requires ImageLookedAt(text, o)
    ensures o + 1 < |text| && text[o] == '!' && text[o + 1] == '['
  {
    hide Escaped;
  }

  /** The images found from p on are exactly those that start there. */
  lemma {:induction false} ImagesFrom(text: string, p: nat, s: Span)
    requires p <= |text| && ImagesClear(text, p)
    ensures s in Images(text, p) <==> p <= s.start && ImageThere(text, s)
    decreases |text| - p
  {
    hide Escaped, ImageLabelled, ImageLookedAt, ImagesClear, Images, FindImage, LabelEnd, AfterImageLabel, TargetAt, IsTarget, ImageResume;
    UnfoldImages(text, p);
    FindImageIs(text, p);
    var start := FindImage(text, p);
    forall o: nat | p <= o < start ensures !ImageLookedAt(text, o) {
      if ImageLookedAt(text, o) { ImageLookedAtBegins(text, o); }
    }
    ImagesClearLater(text, p, start);
    if start == |text| {
      if ImageLookedAt(text, s.start) { ImageLookedAtBegins(text, s.start); }
    } else {
      ImagesFromStart(text, start, s);
      assert s in Images(text, start) <==> s in Images(text, p) by { SameImages(text, p); }
    }
  }

  lemma SameImages(text: string, p: nat)
    requires p <= |text|
    ensures Images(text, FindImage(text, p)) == Images(text, p)
  {
    hide AfterImageLabel, LabelEnd, Images;
    UnfoldImages(text, p);
    UnfoldImages(text, FindImage(text, p));
    FindsItself(text, p);
  }

  lemma FindsItself(text: string, p: nat)
    requires p <= |text|
    ensures FindImage(text, FindImage(text, p)) == FindImage(text, p)
  {
  }

  lemma ImagesFromStart(text: string, start: nat, s: Span)
    requires start + 1 < |text| && text[start] == '!' && text[start + 1] == '[' && ImagesClear(text, start)
    ensures s in Images(text, start) <==> start <= s.start && ImageThere(text, s)
    decreases |text| - start, 0
  {
    hide Escaped, ImageLookedAt, ImagesClear, Images, LabelEnd, TargetAt, IsTarget, AfterImageLabel, ImageResume;
    UnfoldImages(text, start);
    FindsHere(text, start);
    OpenStep(text, start, start + 1);
    LabelEndIs(text, start + 2);
    var close := LabelEnd(text, start + 2);
    if close >= |text| {
      if start <= s.start { NoCloseLater(text, start, s.start); }
    } else {
      assert ImageLabelled(text, start, close);
      LookAtImage(text, start, close);
      ImageResumeBounds(text, close);
      AfterImageIs(text, start, close);
      ImagesFrom(text, ImageResume(text, close), s);
      if s.start == start && ImageLabelled(text, start, s.close) { OneImageClose(text, start, close, s.close); }
    }
  }

  lemma FindsHere(text: string, start: nat)
    requires start + 1 < |text| && text[start] == '!' && text[start + 1] == '['
    ensures FindImage(text, start) == start
  {
  }

  lemma NoCloseLater(text: string, start: nat, o: nat)
    requires start <= o && forall j :: start + 2 <= j < |text| && text[j] == ']' ==> Escaped(text, j)
    ensures !ImageLookedAt(text, o)
  {
    hide Escaped;
  }

  lemma AfterImageIs(text: string, start: nat, close: nat)
    requires close < |text| && text[close] == ']' && !Escaped(text, close)
    ensures var after := AfterImageLabel(text, start, close);
            && after.1 == ImageResume(text, close)
            && (forall s :: after.0 == Some(s) <==>
                  s.start == start && s.close == close && close + 1 < |text| && text[close + 1] == '(' && IsTarget(text, close + 2, s.end))
  {
    hide IsTarget, TargetAt, Escaped;
    if close + 1 < |text| && text[close + 1] == '(' {
      OpenStep(text, close, close);
      OpenStep(text, close, close + 1);
      TargetIff(text, close + 2);
      TargetBounds(text, close + 2);
    }
  }

  /**
   The images of a text, for every span: a label that no image looked at before reaches into, and a target.
   */
  lemma ImageFoundIff(text: string, s: Span)
    ensures s in Images(text, 0) <==> ImageThere(text, s)
  {
    hide ImageThere, Images;
    ImagesFrom(text, 0, s);
  }
}
