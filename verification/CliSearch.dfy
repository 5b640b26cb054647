/** Finding the rollout item that a CLI submission became, among the lines written after it. */
module CliSearch {
  import opened Options
  import opened DesktopText

  /** One rollout line as the search sees it. */
  datatype Line =
    | Started(turn: Option<string>)
    | Context(turn: Option<string>)
    | User(turn: Option<string>, text: Option<string>, item: Option<string>, at: Option<int>)
    | OtherLine

  datatype Found = Found(turn: string, item: string)

  /** What is looked for; withoutImages drops the leading image tags that the CLI adds. */
  datatype Query = Query(digest: string, hasImages: bool, withoutImages: string -> string, notBefore: Option<int>)

  /** The text that was submitted, with or without one line end, perhaps behind the image tags. */
  predicate SubmittedText(q: Query, text: string) {
    || WithoutTerminalNewline(text) == q.digest
    || (q.hasImages && WithoutTerminalNewline(q.withoutImages(text)) == q.digest)
  }

  method MatchesCliSubmission(q: Query, text: Option<string>) returns (matches: bool)
    ensures matches <==> text.Some? && SubmittedText(q, text.value)
  {
    if text.None? {
      return false;
    }
    if SubmissionDigest(text.value) == q.digest {
      return true;
    }
    if !q.hasImages {
      return false;
    }
    var without := q.withoutImages(text.value);
    return without != text.value && SubmissionDigest(without) == q.digest;
  }

  /** The turn started, and then got its context, before line k. */
  ghost predicate InContext(lines: seq<Line>, k: nat, turn: string)
    requires k <= |lines|
  {
    exists s, c :: 0 <= s < c < k && lines[s] == Started(Some(turn)) && lines[c] == Context(Some(turn))
  }

  ghost predicate HasStarted(lines: seq<Line>, k: nat, turn: string)
    requires k <= |lines|
  {
    exists s :: 0 <= s < k && lines[s] == Started(Some(turn))
  }

  /** Line k is the submitted text as a user item of a turn that started and got its context after the submission. */
  ghost predicate Proves(q: Query, lines: seq<Line>, k: nat)
    requires k < |lines|
  {
    var line := lines[k];
    && line.User? && line.turn.Some? && line.item.Some?
    && InContext(lines, k, line.turn.value)
    && line.text.Some? && SubmittedText(q, line.text.value)
    && (q.notBefore.Some? ==> line.at.Some? && q.notBefore.value <= line.at.value)
  }

  /** The first line that proves the submission, if any does. */
  method FindNewUserTurn(q: Query, lines: seq<Line>) returns (found: Option<Found>)
    ensures found.None? ==> forall k :: 0 <= k < |lines| ==> !Proves(q, lines, k)
    ensures found.Some? ==>
              exists k :: 0 <= k < |lines| && Proves(q, lines, k)
                && found.value == Found(lines[k].turn.value, lines[k].item.value)
                && forall j :: 0 <= j < k ==> !Proves(q, lines, j)
  {
    hide SubmittedText;
    var started: set<string> := {};
    var contextualized: set<string> := {};
    for k := 0 to |lines|
      invariant forall turn :: turn in started <==> HasStarted(lines, k, turn)
      invariant forall turn :: turn in contextualized <==> InContext(lines, k, turn)
      invariant forall j :: 0 <= j < k ==> !Proves(q, lines, j)
    {
      NextLine(lines, k);
      var line := lines[k];
      if line.Started? {
        if line.turn.Some? {
          started := started + {line.turn.value};
        }
        continue;
      }
      if line.Context? {
        if line.turn.Some? && line.turn.value in started {
          contextualized := contextualized + {line.turn.value};
        }
        continue;
      }
      if !line.User? || line.turn.None? || line.turn.value !in contextualized {
        continue;
      }
      var matches := MatchesCliSubmission(q, line.text);
      if !matches {
        continue;
      }
      if q.notBefore.Some? {
        if line.at.None? || line.at.value < q.notBefore.value {
          continue;
        }
      }
      if line.item.Some? {
        return Some(Found(line.turn.value, line.item.value));
      }
    }
    return None;
  }

  lemma NextLine(lines: seq<Line>, k: nat)
    requires k < |lines|
    ensures forall turn :: HasStarted(lines, k + 1, turn) <==> HasStarted(lines, k, turn) || lines[k] == Started(Some(turn))
    ensures forall turn :: InContext(lines, k + 1, turn) <==>
                           InContext(lines, k, turn) || (lines[k] == Context(Some(turn)) && HasStarted(lines, k, turn))
  {
    forall turn
      ensures HasStarted(lines, k + 1, turn) <==> HasStarted(lines, k, turn) || lines[k] == Started(Some(turn))
      ensures InContext(lines, k + 1, turn) <==>
              InContext(lines, k, turn) || (lines[k] == Context(Some(turn)) && HasStarted(lines, k, turn))
    {
      StepsTo(lines, k, turn);
    }
  }

  lemma StepsTo(lines: seq<Line>, k: nat, turn: string)
    requires k < |lines|
    ensures HasStarted(lines, k + 1, turn) <==> HasStarted(lines, k, turn) || lines[k] == Started(Some(turn))
    ensures InContext(lines, k + 1, turn) <==>
            InContext(lines, k, turn) || (lines[k] == Context(Some(turn)) && HasStarted(lines, k, turn))
  {
    if lines[k] == Context(Some(turn)) && HasStarted(lines, k, turn) {
      var s :| 0 <= s < k && lines[s] == Started(Some(turn));
      assert 0 <= s < k < k + 1;
    }
    if InContext(lines, k, turn) {
      var s, c :| 0 <= s < c < k && lines[s] == Started(Some(turn)) && lines[c] == Context(Some(turn));
      assert 0 <= s < c < k + 1;
    }
  }

  /** Without images, what comes back with a line end added is found exactly when that line end is forgotten. */
  lemma SubmittedTextIsFoundIff(q: Query, text: string, ending: string)
    requires Ending(ending) && q.digest == SubmissionDigest(text) && !q.hasImages
    ensures SubmittedText(q, text + ending) <==> EndingIsForgotten(text, ending)
  {
    EndingIsDroppedIff(text, ending);
  }
}
