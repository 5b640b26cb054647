/**
 The left-to-right scanners for Markdown links and images. The number of loop steps is kept as a
 ghost count, because bounded work is what these scanners are for.
 */
module Markdown {
  import opened Options

  predicate LineEnd(c: char) {
    c == '\r' || c == '\n'
  }

  // ---- The end of a link target ----

  /** Exclusive end of the target if there is one, and where to go on scanning. */
  datatype Target = Target(end: Option<nat>, resume: nat)

  function Min(a: nat, b: nat): nat {
    if a <= b then a else b
  }

  function Max(a: nat, b: nat): nat {
    if a >= b then a else b
  }

  /** First position at or after from that ends an angle-bracket target. */
  function AngleEnd(text: string, from: nat): (k: nat)
    requires from <= |text|
    ensures from <= k <= |text|
    ensures k < |text| ==> text[k] == '>' || LineEnd(text[k])
    ensures forall j :: from <= j < k ==> text[j] != '>' && !LineEnd(text[j])
    decreases |text| - from
  {
    if from == |text| || text[from] == '>' || LineEnd(text[from]) then from else AngleEnd(text, from + 1)
  }

  function AngleTarget(text: string, start: nat): Target
    requires start < |text|
  {
    var k := AngleEnd(text, start + 1);
    if k > start + 1 && k + 1 < |text| && text[k] == '>' && text[k + 1] == ')' then Target(Some(k + 2), k + 2)
    else Target(None, Min(|text|, k + 1))
  }

  /** Scans a plain target from cursor at a nesting depth. */
  function PlainTarget(text: string, cursor: nat, depth: nat): Target
    requires depth > 0
    decreases |text| - cursor
  {
    if cursor >= |text| then Target(None, |text|)
    else if LineEnd(text[cursor]) then Target(None, cursor + 1)
    else if text[cursor] == '\\' then
      if cursor + 1 >= |text| || LineEnd(text[cursor + 1]) then Target(None, Min(|text|, cursor + 2))
      else PlainTarget(text, cursor + 2, depth)
    else if text[cursor] == '(' then PlainTarget(text, cursor + 1, depth + 1)
    else if text[cursor] == ')' then
      if depth == 1 then Target(Some(cursor + 1), cursor + 1) else PlainTarget(text, cursor + 1, depth - 1)
    else PlainTarget(text, cursor + 1, depth)
  }

  function TargetAt(text: string, start: nat): Target {
    if start < |text| && text[start] == '<' then AngleTarget(text, start) else PlainTarget(text, start, 1)
  }

  /** Every step moves past a position, up to where the scan resumes. */
  method MarkdownTargetEnd(text: string, start: nat) returns (t: Target, ghost steps: nat)
    requires start <= |text|
    ensures t == TargetAt(text, start)
    ensures steps <= t.resume - start
  {
    steps := 0;
    if start < |text| && text[start] == '<' {
      var cursor := start + 1;
      while cursor < |text| && text[cursor] != '>' && !LineEnd(text[cursor])
        invariant start + 1 <= cursor <= |text|
        invariant AngleEnd(text, start + 1) == AngleEnd(text, cursor)
        invariant steps == cursor - start - 1
      {
        cursor := cursor + 1;
        steps := steps + 1;
      }
      if cursor > start + 1 && cursor < |text| && text[cursor] == '>' && cursor + 1 < |text| && text[cursor + 1] == ')' {
        return Target(Some(cursor + 2), cursor + 2), steps;
      }
      return Target(None, Min(|text|, cursor + 1)), steps;
    }
    var depth := 1;
    var cursor := start;
    while cursor < |text|
      invariant start <= cursor <= |text| && depth > 0
      invariant PlainTarget(text, start, 1) == PlainTarget(text, cursor, depth)
      invariant steps <= cursor - start
    {
      var character := text[cursor];
      steps := steps + 1;
      if LineEnd(character) {
        return Target(None, cursor + 1), steps;
      }
      if character == '\\' {
        if cursor + 1 >= |text| || LineEnd(text[cursor + 1]) {
          return Target(None, Min(|text|, cursor + 2)), steps;
        }
        cursor := cursor + 2;
        continue;
      }
      if character == '(' {
        depth := depth + 1;
      } else if character == ')' {
        depth := depth - 1;
        if depth == 0 {
          return Target(Some(cursor + 1), cursor + 1), steps;
        }
      }
      cursor := cursor + 1;
    }
    return Target(None, |text|), steps;
  }

  lemma {:induction false} PlainTargetBounds(text: string, cursor: nat, depth: nat)
    requires depth > 0 && cursor <= |text|
    ensures var t := PlainTarget(text, cursor, depth);
            && cursor <= t.resume <= |text|
            && (t.end.Some? ==>
                  && t.end.value == t.resume && cursor < t.resume && text[t.resume - 1] == ')'
                  && forall k :: cursor <= k < t.resume ==> !LineEnd(text[k]))
    decreases |text| - cursor
  {
    if cursor < |text| && !LineEnd(text[cursor]) {
      if text[cursor] == '\\' {
        if cursor + 1 < |text| && !LineEnd(text[cursor + 1]) {
          PlainTargetBounds(text, cursor + 2, depth);
        }
      } else if text[cursor] == ')' {
        if depth > 1 { PlainTargetBounds(text, cursor + 1, depth - 1); }
      } else {
        PlainTargetBounds(text, cursor + 1, if text[cursor] == '(' then depth + 1 else depth);
      }
    }
  }

  /** A target ends with a closing parenthesis and stays on its line. */
  lemma TargetBounds(text: string, start: nat)
    requires start <= |text|
    ensures var t := TargetAt(text, start);
            && start <= t.resume <= |text|
            && (t.end.Some? ==>
                  && t.end.value == t.resume && start < t.resume && text[t.resume - 1] == ')'
                  && forall k :: start <= k < t.resume ==> !LineEnd(text[k]))
  {
    hide PlainTarget;
    if !(start < |text| && text[start] == '<') {
      PlainTargetBounds(text, start, 1);
    }
  }

  // ---- Links, found without a stack: the reference ----

  datatype Span = Span(start: nat, close: nat, end: nat)

  /** First unescaped bracket at or after from. */
  function NextBracket(text: string, from: nat): (k: nat)
    ensures from <= |text| ==> from <= k
    decreases |text| - from
  {
    if from >= |text| then from
    else if text[from] == '\\' && from + 1 < |text| then NextBracket(text, from + 2)
    else if text[from] == '[' || text[from] == ']' then from
    else NextBracket(text, from + 1)
  }

  /** The bracket at open is not an image's, its label is not empty, and a target follows. */
  predicate Opens(text: string, open: nat, close: nat) {
    && close + 1 < |text| && text[close + 1] == '('
    && (open == 0 || (open <= |text| && text[open - 1] != '!'))
    && open + 1 != close
  }

  /** Where scanning goes on after the closing bracket, and the link if there is one. */
  function AfterLabel(text: string, open: nat, close: nat): (Option<Span>, nat)
    requires close < |text|
  {
    if !Opens(text, open, close) then (None, close + 1)
    else
      var t := TargetAt(text, close + 2);
      if t.end.Some? then (Some(Span(open, close, t.end.value)), t.end.value)
      else (None, Max(close + 1, t.resume))
  }

  lemma AfterLabelAdvances(text: string, open: nat, close: nat)
    requires close < |text|
    ensures close < AfterLabel(text, open, close).1 <= |text|
    ensures var link := AfterLabel(text, open, close).0;
            link.Some? ==> link.value.end == AfterLabel(text, open, close).1 && close + 2 < link.value.end
  {
    if Opens(text, open, close) { TargetBounds(text, close + 2); }
  }

  /** The links from position p on: an opening bracket, a bracket-free label, a target. */
  function Links(text: string, p: nat): seq<Span>
    decreases |text| - p
  {
    if p >= |text| then []
    else if text[p] == '\\' && p + 1 < |text| then Links(text, p + 2)
    else if text[p] != '[' then Links(text, p + 1)
    else
      var close := NextBracket(text, p + 1);
      if close >= |text| || text[close] == '[' then Links(text, p + 1)
      else
        AfterLabelAdvances(text, p, close);
        var after := AfterLabel(text, p, close);
        (if after.0.Some? then [after.0.value] else []) + Links(text, after.1)
  }

  /** Brackets that no opening bracket stands before lead nowhere. */
  lemma {:induction false} SkipToBracket(text: string, p: nat)
    requires p <= |text|
    ensures Links(text, p) == Links(text, NextBracket(text, p))
    decreases |text| - p
  {
    if p < |text| && text[p] != '[' && text[p] != ']' {
      SkipToBracket(text, if text[p] == '\\' && p + 1 < |text| then p + 2 else p + 1);
    }
  }

  // ---- The scanner with its stack of open labels ----

  datatype OpenLabel = OpenLabel(at: nat, notImage: bool)

  /** What is still to be found when the scan is at cursor with the given open label. */
  ghost predicate Waits(text: string, cursor: nat, open: OpenLabel) {
    && open.at < cursor <= |text| && text[open.at] == '['
    && (open.notImage <==> open.at == 0 || text[open.at - 1] != '!')
    && NextBracket(text, open.at + 1) == NextBracket(text, cursor)
  }

  function Pending(text: string, cursor: nat, labels: seq<OpenLabel>): seq<Span> {
    if labels == [] then Links(text, cursor) else Links(text, labels[|labels| - 1].at)
  }

  ghost predicate Scanning(text: string, cursor: nat, labels: seq<OpenLabel>) {
    cursor <= |text| && (labels != [] ==> Waits(text, cursor, labels[|labels| - 1]))
  }

  lemma UnfoldOpen(text: string, p: nat)
    requires p < |text| && text[p] == '['
    ensures var close := NextBracket(text, p + 1);
            Links(text, p) ==
            if close >= |text| || text[close] == '[' then Links(text, p + 1)
            else (if AfterLabel(text, p, close).0.Some? then [AfterLabel(text, p, close).0.value] else []) +
                 Links(text, AfterLabel(text, p, close).1)
  {
    hide AfterLabel, NextBracket;
  }

  lemma UnfoldAt(text: string, p: nat)
    requires p < |text|
    ensures text[p] == '\\' && p + 1 < |text| ==> NextBracket(text, p) == NextBracket(text, p + 2) && Links(text, p) == Links(text, p + 2)
    ensures !(text[p] == '\\' && p + 1 < |text|) && text[p] != '[' && text[p] != ']' ==>
              NextBracket(text, p) == NextBracket(text, p + 1) && Links(text, p) == Links(text, p + 1)
    ensures text[p] == ']' ==> Links(text, p) == Links(text, p + 1)
    ensures text[p] == '[' || text[p] == ']' ==> NextBracket(text, p) == p
  {
    hide AfterLabel;
  }

  /** Stepping over anything but a bracket. */
  lemma SkipKeeps(text: string, cursor: nat, labels: seq<OpenLabel>)
    requires Scanning(text, cursor, labels) && cursor < |text| && text[cursor] != '[' && text[cursor] != ']'
    ensures var next := if text[cursor] == '\\' && cursor + 1 < |text| then cursor + 2 else cursor + 1;
            Scanning(text, next, labels) && Pending(text, next, labels) == Pending(text, cursor, labels)
  {
    hide Links, NextBracket;
    UnfoldAt(text, cursor);
  }

  /** An opening bracket takes the place of the open label before it. */
  lemma OpenKeeps(text: string, cursor: nat, labels: seq<OpenLabel>)
    requires Scanning(text, cursor, labels) && cursor < |text| && text[cursor] == '['
    ensures var labels' := labels + [OpenLabel(cursor, cursor == 0 || text[cursor - 1] != '!')];
            Scanning(text, cursor + 1, labels') && Pending(text, cursor + 1, labels') == Pending(text, cursor, labels)
  {
    hide Links, NextBracket, AfterLabel;
    UnfoldAt(text, cursor);
    if labels != [] {
      var open := labels[|labels| - 1].at;
      UnfoldOpen(text, open);
      SkipToBracket(text, open + 1);
    }
  }

  /** A closing bracket settles the open label, if there is one. */
  lemma CloseKeeps(text: string, cursor: nat, labels: seq<OpenLabel>)
    requires Scanning(text, cursor, labels) && cursor < |text| && text[cursor] == ']'
    ensures labels == [] ==> Pending(text, cursor, labels) == Links(text, cursor + 1)
    ensures labels != [] ==>
              var after := AfterLabel(text, labels[|labels| - 1].at, cursor);
              && Pending(text, cursor, labels) == (if after.0.Some? then [after.0.value] else []) + Links(text, after.1)
              && cursor < after.1 <= |text|
  {
    hide Links, NextBracket, AfterLabel;
    UnfoldAt(text, cursor);
    if labels != [] {
      UnfoldOpen(text, labels[|labels| - 1].at);
      AfterLabelAdvances(text, labels[|labels| - 1].at, cursor);
    }
  }

  lemma ScanAtEnd(text: string, labels: seq<OpenLabel>)
    requires Scanning(text, |text|, labels)
    ensures Pending(text, |text|, labels) == []
  {
    hide AfterLabel, NextBracket, Links;
    NoLinksAtEnd(text, |text|);
    if labels != [] {
      var open := labels[|labels| - 1].at;
      UnfoldOpen(text, open);
      SkipToBracket(text, open + 1);
    }
  }

  /** What happens at a closing bracket; a target scan takes no more steps than it passes positions. */
  method CloseLabel(text: string, cursor: nat, candidate: OpenLabel) returns (link: Option<Span>, resume: nat, ghost steps: nat)
    requires Waits(text, cursor, candidate) && cursor < |text|
    ensures (link, resume) == AfterLabel(text, candidate.at, cursor)
    ensures steps < resume - cursor
  {
    hide NextBracket, TargetAt;
    steps := 0;
    if !candidate.notImage || cursor + 1 >= |text| || text[cursor + 1] != '(' {
      return None, cursor + 1, steps;
    }
    if candidate.at + 1 == cursor {
      return None, cursor + 1, steps;
    }
    var target;
    target, steps := MarkdownTargetEnd(text, cursor + 2);
    TargetBounds(text, cursor + 2);
    if target.end.None? {
      return None, Max(cursor + 1, target.resume), steps;
    }
    return Some(Span(candidate.at, cursor, target.end.value)), target.end.value, steps;
  }

  /**
   One bounded pass: it finds the links of the reference, and the steps of the main loop and of
   all target scans together are at most the length of the text.
   */
  method FindLinks(text: string) returns (found: seq<Span>, ghost steps: nat)
    ensures found == Links(text, 0)
    ensures steps <= |text|
  {
    hide AfterLabel, Links, NextBracket, TargetAt, Pending, Scanning;
    found := [];
    steps := 0;
    var openLabels: seq<OpenLabel> := [];
    var cursor := 0;
    StartScanning(text);
    while cursor < |text|
      invariant 0 <= cursor <= |text|
      invariant Links(text, 0) == found + Pending(text, cursor, openLabels)
      invariant Scanning(text, cursor, openLabels)
      invariant steps <= cursor
      decreases |text| - cursor
    {
      var character := text[cursor];
      steps := steps + 1;
      if character == '\\' && cursor + 1 < |text| {
        SkipKeeps(text, cursor, openLabels);
        cursor := cursor + 2;
        continue;
      }
      if character == '[' {
        OpenKeeps(text, cursor, openLabels);
        openLabels := openLabels + [OpenLabel(cursor, cursor == 0 || text[cursor - 1] != '!')];
        cursor := cursor + 1;
        continue;
      }
      if character != ']' {
        SkipKeeps(text, cursor, openLabels);
        cursor := cursor + 1;
        continue;
      }
      CloseKeeps(text, cursor, openLabels);
      var candidate := if openLabels == [] then None else Some(openLabels[|openLabels| - 1]);
      UnfoldScanning(text, cursor, openLabels);
      openLabels := [];
      var link, resume := None, cursor + 1;
      if candidate.Some? {
        ghost var scanned: nat;
        link, resume, scanned := CloseLabel(text, cursor, candidate.value);
        steps := steps + scanned;
      }
      if link.Some? {
        found := found + [link.value];
      }
      cursor := resume;
      NothingOpen(text, cursor);
    }
    ScanAtEnd(text, openLabels);
  }

  lemma StartScanning(text: string)
    ensures Scanning(text, 0, []) && Pending(text, 0, []) == Links(text, 0)
  {
  }

  lemma NothingOpen(text: string, cursor: nat)
    requires cursor <= |text|
    ensures Scanning(text, cursor, []) && Pending(text, cursor, []) == Links(text, cursor)
  {
  }

  lemma UnfoldScanning(text: string, cursor: nat, labels: seq<OpenLabel>)
    requires Scanning(text, cursor, labels)
    ensures labels != [] ==> Waits(text, cursor, labels[|labels| - 1])
  {
  }

  lemma NoLinksAtEnd(text: string, cursor: nat)
    requires cursor >= |text|
    ensures Links(text, cursor) == [] && NextBracket(text, cursor) == cursor
  {
  }

  // ---- What the spans are ----

  /** A link: an opening bracket that is no image's, a label without brackets of its own, a target. */
  ghost predicate IsLink(text: string, s: Span) {
    && s.start + 1 < s.close && s.close + 2 < s.end <= |text|
    && text[s.start] == '[' && (s.start == 0 || text[s.start - 1] != '!')
    && NextBracket(text, s.start + 1) == s.close && text[s.close] == ']' && text[s.close + 1] == '('
    && TargetAt(text, s.close + 2).end == Some(s.end)
    && text[s.end - 1] == ')'
  }

  predicate Shaped(text: string, s: Span) {
    s.start + 1 < s.close && s.close + 2 < s.end <= |text|
  }

  /** Spans follow one another without overlap, from p on. */
  ghost predicate Increasing(text: string, spans: seq<Span>, p: nat) {
    && (forall k :: 0 <= k < |spans| ==> p <= spans[k].start && Shaped(text, spans[k]))
    && (forall i, j :: 0 <= i < j < |spans| ==> spans[i].end <= spans[j].start)
  }

  lemma FoundIsLink(text: string, open: nat, close: nat)
    requires open < close < |text| && text[open] == '[' && text[close] == ']' && NextBracket(text, open + 1) == close
    ensures var link := AfterLabel(text, open, close).0;
            link.Some? ==> IsLink(text, link.value) && Shaped(text, link.value) && link.value.start == open
  {
    hide NextBracket, PlainTarget, TargetAt;
    AfterLabelAdvances(text, open, close);
    if Opens(text, open, close) { TargetBounds(text, close + 2); }
  }

  lemma BracketThere(text: string, p: nat)
    requires p <= |text|
    ensures var k := NextBracket(text, p); p <= k && (k < |text| ==> text[k] == '[' || text[k] == ']')
    decreases |text| - p
  {
  }

  /** The spans found are links, disjoint and in order. */
  lemma {:induction false} LinksAreDisjoint(text: string, p: nat)
    requires p <= |text|
    ensures Increasing(text, Links(text, p), p) && forall k :: 0 <= k < |Links(text, p)| ==> IsLink(text, Links(text, p)[k])
    decreases |text| - p
  {
    hide AfterLabel, NextBracket, IsLink, Links;
    if p == |text| {
      NoLinksAtEnd(text, p);
    } else if text[p] != '[' {
      UnfoldAt(text, p);
      LinksAreDisjoint(text, if text[p] == '\\' && p + 1 < |text| then p + 2 else p + 1);
    } else {
      var close := NextBracket(text, p + 1);
      BracketThere(text, p + 1);
      UnfoldOpen(text, p);
      if close >= |text| || text[close] == '[' {
        LinksAreDisjoint(text, p + 1);
      } else {
        AfterLabelAdvances(text, p, close);
        FoundIsLink(text, p, close);
        var after := AfterLabel(text, p, close);
        LinksAreDisjoint(text, after.1);
        if after.0.Some? {
          AddSpan(text, after.0.value, Links(text, after.1), p, after.1);
        }
      }
    }
  }

  lemma AddSpan(text: string, s: Span, rest: seq<Span>, p: nat, next: nat)
    requires p <= s.start && s.end <= next && Increasing(text, rest, next) && Shaped(text, s)
    ensures Increasing(text, [s] + rest, p)
  {
  }

  // ---- Replacing the spans ----

  /** render makes what is shown of a link from its label and target. */
  function Shown(text: string, s: Span, render: (string, string) -> string): string
    requires Shaped(text, s)
  {
    render(text[s.start + 1..s.close], text[s.close + 2..s.end - 1])
  }

  function Splice(text: string, spans: seq<Span>, from: nat, render: (string, string) -> string): string
    requires from <= |text| && Increasing(text, spans, from)
    decreases |spans|
  {
    if spans == [] then text[from..]
    else text[from..spans[0].start] + Shown(text, spans[0], render) + Splice(text, spans[1..], spans[0].end, render)
  }

  method ReplaceMarkdownLinks(text: string, render: (string, string) -> string) returns (result: string, ghost steps: nat)
    ensures Increasing(text, Links(text, 0), 0)
    ensures result == Splice(text, Links(text, 0), 0, render)
    ensures steps <= 2 * |text|
  {
    hide Links, IsLink, Increasing, Shown, Splice, Shaped;
    var spans;
    spans, steps := FindLinks(text);
    LinksAreDisjoint(text, 0);
    SpansFit(text, spans, 0);
    if spans == [] {
      NothingToSplice(text, 0, render);
      return text, steps;
    }
    result := "";
    var copiedTo := 0;
    for k := 0 to |spans|
      invariant 0 <= copiedTo <= |text|
      invariant Increasing(text, spans[k..], copiedTo)
      invariant result + Splice(text, spans[k..], copiedTo, render) == Splice(text, spans, 0, render)
      invariant steps <= |text| + k
    {
      ghost var rest := spans[k..];
      var s := spans[k];
      assert rest[0] == s && rest[1..] == spans[k + 1..];
      DropSpan(text, rest, copiedTo);
      SpliceOne(text, rest, copiedTo, render, result);
      result := result + text[copiedTo..s.start];
      result := result + Shown(text, s, render);
      copiedTo := s.end;
      steps := steps + 1;
    }
    NothingToSplice(text, copiedTo, render);
    assert spans[|spans|..] == [];
    result := result + text[copiedTo..];
  }

  lemma NothingToSplice(text: string, from: nat, render: (string, string) -> string)
    requires from <= |text|
    ensures Increasing(text, [], from) && Splice(text, [], from, render) == text[from..]
    ensures from == 0 ==> text[from..] == text
  {
  }

  lemma SpliceOne(text: string, spans: seq<Span>, from: nat, render: (string, string) -> string, done: string)
    requires spans != [] && from <= |text| && Increasing(text, spans, from)
    ensures from <= spans[0].start <= |text| && Shaped(text, spans[0]) && Increasing(text, spans[1..], spans[0].end)
    ensures done + text[from..spans[0].start] + Shown(text, spans[0], render) + Splice(text, spans[1..], spans[0].end, render) ==
            done + Splice(text, spans, from, render)
  {
    hide Shown;
    DropSpan(text, spans, from);
    var gap, shown, rest := text[from..spans[0].start], Shown(text, spans[0], render), Splice(text, spans[1..], spans[0].end, render);
    assert done + gap + shown + rest == done + (gap + shown + rest);
  }

  lemma DropSpan(text: string, spans: seq<Span>, from: nat)
    requires spans != [] && Increasing(text, spans, from)
    ensures from <= spans[0].start < spans[0].end <= |text| && Shaped(text, spans[0])
    ensures Increasing(text, spans[1..], spans[0].end)
  {
  }

  /** There are no more spans than characters. */
  lemma {:induction false} SpansFit(text: string, spans: seq<Span>, p: nat)
    requires Increasing(text, spans, p) && p <= |text|
    ensures |spans| <= |text| - p
    decreases |spans|
  {
    if spans != [] {
      DropSpan(text, spans, p);
      SpansFit(text, spans[1..], spans[0].end);
    }
  }

  /** Where the character at p ends up. */
  function MovedTo(text: string, spans: seq<Span>, from: nat, render: (string, string) -> string, p: nat): nat
    requires from <= p < |text| && Increasing(text, spans, from)
    decreases |spans|
  {
    if spans == [] || p < spans[0].start then p - from
    else
      var before := spans[0].start - from + |Shown(text, spans[0], render)|;
      if p < spans[0].end then before else before + MovedTo(text, spans[1..], spans[0].end, render, p)
  }

  predicate Outside(spans: seq<Span>, p: nat) {
    forall k :: 0 <= k < |spans| ==> !(spans[k].start <= p < spans[k].end)
  }

  /** Every character outside the spans is kept. */
  lemma {:induction false} OutsideIsKept(text: string, spans: seq<Span>, from: nat, render: (string, string) -> string, p: nat)
    requires from <= p < |text| && Increasing(text, spans, from) && Outside(spans, p)
    ensures var out := Splice(text, spans, from, render);
            MovedTo(text, spans, from, render, p) < |out| && out[MovedTo(text, spans, from, render, p)] == text[p]
    decreases |spans|
  {
    hide Shown, Increasing, Outside, Shaped;
    if spans != [] {
      DropSpan(text, spans, from);
      OutsideRest(spans, p);
      var s := spans[0];
      var gap, shown, rest := text[from..s.start], Shown(text, s, render), Splice(text, spans[1..], s.end, render);
      assert Splice(text, spans, from, render) == gap + shown + rest;
      if p >= s.end {
        OutsideIsKept(text, spans[1..], s.end, render, p);
        InLastPart(gap, shown, rest, MovedTo(text, spans[1..], s.end, render, p));
      } else {
        InFirstPart(gap, shown, rest, p - from);
      }
    }
  }

  /** Characters outside the spans stay in their order. */
  lemma {:induction false} OutsideKeepsOrder(text: string, spans: seq<Span>, from: nat, render: (string, string) -> string, p: nat, q: nat)
    requires from <= p < q < |text| && Increasing(text, spans, from) && Outside(spans, p) && Outside(spans, q)
    ensures MovedTo(text, spans, from, render, p) < MovedTo(text, spans, from, render, q)
    decreases |spans|
  {
    hide Shown, Increasing, Outside, Shaped;
    if spans != [] {
      DropSpan(text, spans, from);
      OutsideRest(spans, p);
      OutsideRest(spans, q);
      if p >= spans[0].end {
        OutsideKeepsOrder(text, spans[1..], spans[0].end, render, p, q);
      }
    }
  }

  lemma OutsideRest(spans: seq<Span>, p: nat)
    requires spans != [] && Outside(spans, p)
    ensures Outside(spans[1..], p) && (p < spans[0].start || spans[0].end <= p)
  {
  }

  lemma InFirstPart(a: string, b: string, c: string, k: nat)
    requires k < |a|
    ensures k < |a + b + c| && (a + b + c)[k] == a[k]
  {
  }

  lemma InLastPart(a: string, b: string, c: string, k: nat)
    requires k < |c|
    ensures |a| + |b| + k < |a + b + c| && (a + b + c)[|a| + |b| + k] == c[k]
  {
  }

  // ---- Images ----

  /** First position at or after from where an image reference begins, or the length. */
  function FindImage(text: string, from: nat): (k: nat)
    requires from <= |text|
    ensures from <= k <= |text| && (k < |text| ==> k + 1 < |text| && text[k] == '!' && text[k + 1] == '[')
    decreases |text| - from
  {
    if from + 1 >= |text| then |text|
    else if text[from] == '!' && text[from + 1] == '[' then from
    else FindImage(text, from + 1)
  }

  /** First unescaped closing bracket at or after from, or a position past the end. */
  function LabelEnd(text: string, from: nat): (k: nat)
    ensures from <= k && (k < |text| ==> text[k] == ']')
    decreases |text| - from
  {
    if from >= |text| then from
    else if text[from] == '\\' && from + 1 < |text| then LabelEnd(text, from + 2)
    else if text[from] == ']' then from
    else LabelEnd(text, from + 1)
  }

  /** The image whose label closes at close, and where scanning goes on. */
  function AfterImageLabel(text: string, start: nat, close: nat): (Option<Span>, nat)
    requires close < |text|
  {
    if close + 1 >= |text| || text[close + 1] != '(' then (None, close + 1)
    else
      var t := TargetAt(text, close + 2);
      if t.end.Some? then (Some(Span(start, close, t.end.value)), t.end.value) else (None, Max(close + 1, t.resume))
  }

  lemma AfterImageAdvances(text: string, start: nat, close: nat)
    requires close < |text|
    ensures var after := AfterImageLabel(text, start, close);
            && close < after.1 <= |text|
            && (after.0.Some? ==> after.0.value.end == after.1 && close + 2 < after.1 && text[after.1 - 1] == ')')
  {
    hide TargetAt;
    if close + 1 < |text| { TargetBounds(text, close + 2); }
  }

  function Images(text: string, from: nat): seq<Span>
    requires from <= |text|
    decreases |text| - from
  {
    var start := FindImage(text, from);
    if start == |text| then []
    else
      var close := LabelEnd(text, start + 2);
      if close >= |text| then []
      else
        AfterImageAdvances(text, start, close);
        var after := AfterImageLabel(text, start, close);
        (if after.0.Some? then [after.0.value] else []) + Images(text, after.1)
  }

  lemma UnfoldImages(text: string, from: nat)
    requires from <= |text|
    ensures var start := FindImage(text, from);
            var close := LabelEnd(text, start + 2);
            if start == |text| || close >= |text| then Images(text, from) == []
            else
              var after := AfterImageLabel(text, start, close);
              && close < after.1 <= |text|
              && Images(text, from) == (if after.0.Some? then [after.0.value] else []) + Images(text, after.1)
    ensures from == |text| ==> FindImage(text, from) == |text|
  {
    hide AfterImageLabel, LabelEnd;
    var start := FindImage(text, from);
    var close := LabelEnd(text, start + 2);
    if start < |text| && close < |text| { AfterImageAdvances(text, start, close); }
  }

  /** steps counts the positions passed in search of a beginning and the steps of the label and target scans. */
  method MarkdownImages(text: string) returns (found: seq<Span>, ghost steps: nat)
    ensures found == Images(text, 0)
    ensures steps <= |text|
  {
    hide TargetAt, Images, FindImage, LabelEnd;
    found := [];
    steps := 0;
    var cursor := 0;
    while cursor < |text|
      invariant 0 <= cursor <= |text|
      invariant Images(text, 0) == found + Images(text, cursor)
      invariant steps <= cursor
      decreases |text| - cursor
    {
      UnfoldImages(text, cursor);
      var start := FindImage(text, cursor);
      steps := steps + start - cursor;
      if start == |text| {
        return;
      }
      ghost var scanned: nat;
      var close;
      close, scanned := CloseOfLabel(text, start + 2);
      steps := steps + scanned;
      if close >= |text| {
        return;
      }
      if close + 1 >= |text| || text[close + 1] != '(' {
        cursor := close + 1;
        continue;
      }
      var target;
      target, scanned := MarkdownTargetEnd(text, close + 2);
      TargetBounds(text, close + 2);
      steps := steps + scanned;
      if target.end.None? {
        cursor := Max(close + 1, target.resume);
        continue;
      }
      found := found + [Span(start, close, target.end.value)];
      cursor := target.end.value;
    }
    UnfoldImages(text, cursor);
  }

  method CloseOfLabel(text: string, from: nat) returns (close: nat, ghost steps: nat)
    requires from <= |text|
    ensures close == LabelEnd(text, from)
    ensures steps <= Min(|text|, close + 1) - from
  {
    close := from;
    steps := 0;
    while close < |text|
      invariant from <= close <= |text|
      invariant LabelEnd(text, from) == LabelEnd(text, close)
      invariant steps <= close - from
      decreases |text| - close
    {
      steps := steps + 1;
      if text[close] == '\\' && close + 1 < |text| {
        close := close + 2;
        continue;
      }
      if text[close] == ']' {
        break;
      }
      close := close + 1;
    }
  }

  predicate ImageShaped(text: string, s: Span) {
    && Shaped(text, s) && text[s.start] == '!' && text[s.start + 1] == '[' && text[s.close] == ']'
    && text[s.close + 1] == '(' && text[s.end - 1] == ')'
  }

  /** Image references are disjoint and in order; each begins with ![ and ends with its target's parenthesis. */
  lemma {:induction false} ImagesAreDisjoint(text: string, from: nat)
    requires from <= |text|
    ensures Increasing(text, Images(text, from), from)
    ensures forall k :: 0 <= k < |Images(text, from)| ==> ImageShaped(text, Images(text, from)[k])
    decreases |text| - from
  {
    hide AfterImageLabel, Increasing, FindImage, LabelEnd, Images, ImageShaped;
    UnfoldImages(text, from);
    var start := FindImage(text, from);
    NoSpans(text, from);
    if start < |text| {
      var close := LabelEnd(text, start + 2);
      if close < |text| {
        var after := AfterImageLabel(text, start, close);
        ImagesAreDisjoint(text, after.1);
        AddImage(text, start, close, from, Images(text, after.1));
      }
    }
  }

  lemma AddImage(text: string, start: nat, close: nat, from: nat, rest: seq<Span>)
    requires from <= start && start + 2 <= close < |text| && text[start] == '!' && text[start + 1] == '[' && text[close] == ']'
    requires Increasing(text, rest, AfterImageLabel(text, start, close).1)
    ensures var image := AfterImageLabel(text, start, close).0;
            && (image.Some? ==> ImageShaped(text, image.value))
            && Increasing(text, (if image.Some? then [image.value] else []) + rest, from)
  {
    hide AfterImageLabel, Increasing;
    var after := AfterImageLabel(text, start, close);
    AfterImageAdvances(text, start, close);
    ImageSpan(text, start, close);
    if after.0.Some? {
      AddSpan(text, after.0.value, rest, from, after.1);
    } else {
      LaterSpans(text, rest, after.1, from);
    }
  }

  lemma NoSpans(text: string, from: nat)
    ensures Increasing(text, [], from)
  {
  }

  lemma LaterSpans(text: string, spans: seq<Span>, later: nat, from: nat)
    requires Increasing(text, spans, later) && from <= later
    ensures Increasing(text, spans, from) && [] + spans == spans
  {
  }

  lemma ImageSpan(text: string, start: nat, close: nat)
    requires start + 2 <= close < |text|
    ensures var link := AfterImageLabel(text, start, close).0;
            link.Some? ==> link.value.start == start && link.value.close == close && text[close + 1] == '(' && Shaped(text, link.value)
  {
    hide TargetAt;
    AfterImageAdvances(text, start, close);
  }
}
