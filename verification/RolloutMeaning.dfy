/**
 What a rollout file means, said of its records as a whole: which file is accepted, which turn and thread
 every message belongs to, and which turns are active. One pass computes exactly that.
 */
module RolloutMeaning {
  import opened Options
  import opened RolloutBytes
  import opened RolloutSpec

  /** The complete records of a file in order; None for a blank line. */
  function Records(c: Codec, s: Bytes): seq<Option<Record>>
    decreases |s|
  {
    var n := RecordLength(s);
    if n == 0 then []
    else [if Body(s[..n]) == [] then None else Some(c.classify(Body(s[..n])))] + Records(c, s[n..])
  }

  /** The last of the first k records that holds what is looked for. */
  function LastOf(rs: seq<Option<Record>>, k: nat, wanted: Record -> bool): (r: Option<nat>)
    requires k <= |rs|
    ensures r.Some? ==> r.value < k && rs[r.value].Some? && wanted(rs[r.value].value)
    ensures forall j :: (if r.Some? then r.value else -1) < j < k && rs[j].Some? ==> !wanted(rs[j].value)
  {
    if k == 0 then None
    else if rs[k - 1].Some? && wanted(rs[k - 1].value) then Some(k - 1)
    else LastOf(rs, k - 1, wanted)
  }

  function NewTurn(r: Record): bool {
    r.TurnContext?
  }

  function NewSession(r: Record): bool {
    r.SessionMeta? && r.session.Some?
  }

  /** A task event of the turn u. */
  predicate Concerns(r: Record, u: string) {
    r.Message? && r.isEvent && r.payload.Some? && !r.payload.value.kind.OtherKind? && r.payload.value.turn == Text(u)
  }

  /** The turn that was announced last. */
  function TurnBefore(rs: seq<Option<Record>>, k: nat): Field
    requires k <= |rs|
  {
    var j := LastOf(rs, k, NewTurn);
    if j.None? then Missing else rs[j.value].value.turn
  }

  function SessionBefore(rs: seq<Option<Record>>, k: nat): Option<Session>
    requires k <= |rs|
  {
    var j := LastOf(rs, k, NewSession);
    if j.None? then None else rs[j.value].value.session
  }

  /** The last task event of the turn is its start. */
  predicate ActiveBefore(rs: seq<Option<Record>>, k: nat, u: string)
    requires k <= |rs|
  {
    var j := LastOf(rs, k, r => Concerns(r, u));
    j.Some? && rs[j.value].value.payload.value.kind.TaskStarted?
  }

  function Nested(m: Payload): Field {
    if m.metadata.Metadata? then m.metadata.turn else Missing
  }

  /** Turn and thread that a message belongs to: what it names itself, or else what the file said before. */
  predicate BelongsTo(rs: seq<Option<Record>>, k: nat, m: Payload, turn: Field, thread: Field)
    requires k <= |rs|
  {
    && (m.turn != Missing ==> turn == m.turn)
    && (m.turn == Missing && Nested(m) != Missing ==> turn == Nested(m))
    && (m.turn == Missing && Nested(m) == Missing ==> turn == TurnBefore(rs, k))
    && (m.thread != Missing ==> thread == m.thread)
    && (m.thread == Missing && SessionBefore(rs, k).Some? ==> thread == SessionBefore(rs, k).value.thread)
    && (m.thread == Missing && SessionBefore(rs, k).None? ==> thread == Missing)
  }

  /** The message as the normaliser gets it. */
  ghost predicate Given(rs: seq<Option<Record>>, k: nat, m: Payload, given: Payload)
    requires k <= |rs|
  {
    given == m.(turn := given.turn, thread := given.thread) && BelongsTo(rs, k, m, given.turn, given.thread)
  }

  predicate TrustedSession(c: Codec, x: Option<string>, session: Session) {
    && session.version in c.supported && Trusted(session.thread)
    && (x.Some? ==> session.thread == Text(x.value))
  }

  predicate TrustedTurns(isEvent: bool, m: Payload) {
    && (isEvent && !m.kind.OtherKind? ==> Trusted(m.turn))
    && !m.metadata.BadMetadata?
    && (Nested(m) == Missing || (Trusted(Nested(m)) && (m.turn == Missing || m.turn == Nested(m))))
  }

  /** Record k can be read after the ones before it. */
  ghost predicate Acceptable(c: Codec, x: Option<string>, rs: seq<Option<Record>>, k: nat)
    requires k < |rs|
  {
    rs[k].None? ||
    match rs[k].value
    case Malformed => false
    case NotObject => false
    case SessionMeta(session) =>
      && session.Some? && TrustedSession(c, x, session.value)
      && (SessionBefore(rs, k).Some? ==> SessionBefore(rs, k).value.version == session.value.version)
    case TurnContext(turn) => Trusted(turn)
    case OtherRecord => SessionBefore(rs, k).Some?
    case Message(isEvent, payload) =>
      && SessionBefore(rs, k).Some? && payload.Some? && TrustedTurns(isEvent, payload.value)
      && exists given :: Given(rs, k, payload.value, given) && !c.normalize(isEvent, given).Rejected?
  }

  /** The event that record k becomes, if it is a visible message. */
  ghost predicate Becomes(c: Codec, rs: seq<Option<Record>>, k: nat, event: Option<Event>)
    requires k < |rs|
  {
    if rs[k].None? || !rs[k].value.Message? || rs[k].value.payload.None? then event.None?
    else
      exists given :: Given(rs, k, rs[k].value.payload.value, given) &&
        var n := c.normalize(rs[k].value.isEvent, given);
        event == if n.Visible? then Some(n.event) else None
  }

  function Listed(events: seq<Option<Event>>): seq<Event> {
    if events == [] then []
    else Listed(events[..|events| - 1]) + if events[|events| - 1].Some? then [events[|events| - 1].value] else []
  }

  /** events lists what the first |each| records become. */
  ghost predicate Events(c: Codec, rs: seq<Option<Record>>, each: seq<Option<Event>>, events: seq<Event>) {
    && |each| <= |rs|
    && (forall k :: 0 <= k < |each| ==> Becomes(c, rs, k, each[k]))
    && events == Listed(each)
  }

  function TurnField(turn: Option<string>): Field {
    if turn.None? then Missing else Text(turn.value)
  }

  /** The state of a pass after k records, said of the records. */
  ghost predicate Knows(c: Codec, rs: seq<Option<Record>>, k: nat, p: Progress)
    requires k <= |rs|
  {
    && TurnField(p.turn) == TurnBefore(rs, k)
    && (forall u :: u in p.active <==> ActiveBefore(rs, k, u))
    && (p.verified <==> SessionBefore(rs, k).Some?)
    && (p.verified ==> p.version == SessionBefore(rs, k).value.version && TurnField(p.session) == SessionBefore(rs, k).value.thread)
    && (p.session.Some? <==> p.verified)
  }

  // ---- One more record ----

  lemma GivenIsAttributed(rs: seq<Option<Record>>, k: nat, p: Progress, m: Payload, given: Payload)
    requires k <= |rs| && TurnField(p.turn) == TurnBefore(rs, k)
    requires p.session.Some? <==> SessionBefore(rs, k).Some?
    requires p.session.Some? ==> TurnField(p.session) == SessionBefore(rs, k).value.thread
    requires Nested(m) == Missing || (Trusted(Nested(m)) && (m.turn == Missing || m.turn == Nested(m)))
    requires !m.metadata.BadMetadata?
    ensures Given(rs, k, m, given) <==> Attribute(p.session, p.turn, m) == Ok(given)
  {
    hide TurnBefore, SessionBefore;
  }

  lemma AttributeFailsIff(session: Option<string>, turn: Option<string>, m: Payload)
    ensures Attribute(session, turn, m).Ok? <==>
            !m.metadata.BadMetadata? &&
            (Nested(m) == Missing || (Trusted(Nested(m)) && (m.turn == Missing || m.turn == Nested(m))))
  {
  }

  lemma ActivityFailsIff(active: set<string>, isEvent: bool, m: Payload)
    ensures StepActivity(active, isEvent, m).Ok? <==> (isEvent && !m.kind.OtherKind? ==> Trusted(m.turn))
  {
  }

  lemma TurnAfter(rs: seq<Option<Record>>, k: nat)
    requires k < |rs|
    ensures TurnBefore(rs, k + 1) ==
            if rs[k].Some? && rs[k].value.TurnContext? then rs[k].value.turn else TurnBefore(rs, k)
  {
  }

  lemma SessionAfter(rs: seq<Option<Record>>, k: nat)
    requires k < |rs|
    ensures SessionBefore(rs, k + 1) ==
            if rs[k].Some? && NewSession(rs[k].value) then rs[k].value.session else SessionBefore(rs, k)
  {
  }

  lemma ActiveAfter(rs: seq<Option<Record>>, k: nat, u: string)
    requires k < |rs|
    ensures ActiveBefore(rs, k + 1, u) <==>
            if rs[k].Some? && Concerns(rs[k].value, u) then rs[k].value.payload.value.kind.TaskStarted? else ActiveBefore(rs, k, u)
  {
  }

  /** A record that is no task event leaves the active turns as they are. */
  lemma SameActive(rs: seq<Option<Record>>, k: nat, active: set<string>)
    requires k < |rs| && (forall u :: u in active <==> ActiveBefore(rs, k, u))
    requires rs[k].Some? ==> forall u :: !Concerns(rs[k].value, u)
    ensures forall u :: u in active <==> ActiveBefore(rs, k + 1, u)
  {
    hide ActiveBefore, Concerns;
    forall u ensures u in active <==> ActiveBefore(rs, k + 1, u) {
      ActiveAfter(rs, k, u);
    }
  }

  /** Task events add and remove their own turn. */
  lemma ActivityStep(rs: seq<Option<Record>>, k: nat, active: set<string>, isEvent: bool, m: Payload)
    requires k < |rs| && rs[k] == Some(Message(isEvent, Some(m))) && (forall u :: u in active <==> ActiveBefore(rs, k, u))
    requires StepActivity(active, isEvent, m).Ok?
    ensures forall u :: u in StepActivity(active, isEvent, m).value <==> ActiveBefore(rs, k + 1, u)
  {
    hide ActiveBefore;
    forall u ensures u in StepActivity(active, isEvent, m).value <==> ActiveBefore(rs, k + 1, u) {
      ActiveAfter(rs, k, u);
    }
  }

  /** The step over a message does what the file says of it. */
  lemma MessageMeans(c: Codec, x: Option<string>, rs: seq<Option<Record>>, k: nat, p: Progress, isEvent: bool, payload: Option<Payload>)
    requires k < |rs| && rs[k] == Some(Message(isEvent, payload)) && Knows(c, rs, k, p)
    ensures var r := StepMessage(c, p, isEvent, payload);
            && (r.Ok? <==> Acceptable(c, x, rs, k))
            && (r.Ok? ==> Knows(c, rs, k + 1, r.value) && OneMore(c, rs, k, p, r.value))
  {
    hide TurnBefore, SessionBefore, ActiveBefore, Attribute, StepActivity, Given;
    TurnAfter(rs, k);
    SessionAfter(rs, k);
    if payload.Some? {
      var m := payload.value;
      AttributeFailsIff(p.session, p.turn, m);
      ActivityFailsIff(p.active, isEvent, m);
      if TrustedTurns(isEvent, m) && p.verified {
        forall given: Payload ensures Given(rs, k, m, given) <==> Attribute(p.session, p.turn, m) == Ok(given) {
          GivenIsAttributed(rs, k, p, m, given);
        }
        ActivityStep(rs, k, p.active, isEvent, m);
        var given := Attribute(p.session, p.turn, m).value;
        assert Given(rs, k, m, given);
        var n := c.normalize(isEvent, given);
        if !n.Rejected? {
          assert Becomes(c, rs, k, if n.Visible? then Some(n.event) else None);
        }
      }
    }
  }

  /** One more record was read: it became its event, or it is counted as ignored. */
  ghost predicate OneMore(c: Codec, rs: seq<Option<Record>>, k: nat, p: Progress, q: Progress)
    requires k < |rs|
  {
    exists event ::
      && Becomes(c, rs, k, event)
      && q.events == p.events + (if event.Some? then [event.value] else [])
      && q.ignored == p.ignored + (if event.Some? then 0 else 1)
  }

  lemma StepMeans(c: Codec, x: Option<string>, rs: seq<Option<Record>>, k: nat, p: Progress, raw: Bytes)
    requires k < |rs| && rs[k] == (if Body(raw) == [] then None else Some(c.classify(Body(raw)))) && Knows(c, rs, k, p)
    ensures var r := Step(c, x, p, raw);
            && (r.Ok? <==> Acceptable(c, x, rs, k))
            && (r.Ok? ==> Knows(c, rs, k + 1, r.value) && OneMore(c, rs, k, p, r.value))
  {
    hide TurnBefore, SessionBefore, ActiveBefore, StepMessage, Given, Body;
    TurnAfter(rs, k);
    SessionAfter(rs, k);
    if rs[k].Some? && rs[k].value.Message? {
      MessageMeans(c, x, rs, k, p, rs[k].value.isEvent, rs[k].value.payload);
    } else {
      SameActive(rs, k, p.active);
      assert Becomes(c, rs, k, None);
      assert p.events + [] == p.events;
    }
  }

  // ---- The whole file ----

  lemma {:induction false} FoldMeans(c: Codec, x: Option<string>, rs: seq<Option<Record>>, k: nat, s: Bytes, p: Progress,
                                     each: seq<Option<Event>>) returns (all: seq<Option<Event>>)
    requires k <= |rs| && rs[k..] == Records(c, s) && Knows(c, rs, k, p)
    requires |each| == k && Events(c, rs, each, p.events) && p.ignored + |p.events| == k
    requires forall j :: 0 <= j < k ==> Acceptable(c, x, rs, j)
    ensures var r := Fold(c, x, s, p);
            && (r.Ok? <==> forall j :: 0 <= j < |rs| ==> Acceptable(c, x, rs, j))
            && (r.Ok? ==> Knows(c, rs, |rs|, r.value) && |all| == |rs| && Events(c, rs, all, r.value.events))
            && (r.Ok? ==> r.value.ignored + |r.value.events| == |rs|)
    decreases |s|
  {
    hide Knows, Acceptable, Step, RecordLength, Becomes, Fold, Body;
    var n := RecordLength(s);
    UnfoldFold(c, x, s, p);
    all := each;
    if n == 0 {
      assert |rs| == k by { assert |rs[k..]| == 0; }
    } else {
      assert rs[k..][0] == rs[k] && rs[k..][1..] == rs[k + 1..];
      StepMeans(c, x, rs, k, p, s[..n]);
      var r := Step(c, x, p, s[..n]);
      if r.Ok? {
        var event :| Becomes(c, rs, k, event) && r.value.events == p.events + (if event.Some? then [event.value] else [])
                     && r.value.ignored == p.ignored + (if event.Some? then 0 else 1);
        var longer := each + [event];
        assert longer[..k] == each;
        all := FoldMeans(c, x, rs, k + 1, s[n..], r.value, longer);
      }
    }
  }

  /**
   For every file: a pass accepts it exactly when each record can be read after the ones before it. Then its
   events are what the visible messages become, in order, each under the turn and thread that the records
   before it give it; the current turn is the one announced last, and the active turns are those whose last
   task event is a start.
   */
  lemma ReadMeans(c: Codec, x: Option<string>, file: Bytes) returns (each: seq<Option<Event>>)
    ensures var rs := Records(c, file);
            var r := OneShot(c, x, file);
            && (r.Ok? <==> forall k :: 0 <= k < |rs| ==> Acceptable(c, x, rs, k))
            && (r.Ok? ==>
                  && |each| == |rs| && (forall k :: 0 <= k < |rs| ==> Becomes(c, rs, k, each[k]))
                  && r.value.events == Listed(each)
                  && r.value.ignored + |r.value.events| == |rs|
                  && TurnField(r.value.turn) == TurnBefore(rs, |rs|)
                  && (forall u :: u in r.value.active <==> ActiveBefore(rs, |rs|, u))
                  && (r.value.verified <==> SessionBefore(rs, |rs|).Some?)
                  && (r.value.verified ==> r.value.version == SessionBefore(rs, |rs|).value.version))
  {
    hide Acceptable, Becomes, TurnBefore, SessionBefore, ActiveBefore, Fold;
    var rs := Records(c, file);
    NothingKnown(c, rs);
    assert rs[0..] == rs;
    each := FoldMeans(c, x, rs, 0, file, INITIAL, []);
  }

  lemma NothingKnown(c: Codec, rs: seq<Option<Record>>)
    ensures Knows(c, rs, 0, INITIAL)
  {
  }
}
