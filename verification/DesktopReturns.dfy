/**
 Which desktop submissions can still be found in the rollout, and which never will be: the row stays
 unbound for good, and its echo is mirrored like any other user message.
 */
module DesktopReturns {
  import opened DesktopEcho
  import opened DesktopText
  import opened DispatchRecords
  import opened Options

  predicate InFlight(w: World, k: nat) {
    !w.loop.Idle? && w.loop.k == k
  }

  /** Some message that is not hidden comes back as the submitted text of d. */
  ghost predicate Returnable(rules: Rules, d: Dispatch) {
    exists raw, images :: ReturnsAs(rules, d, raw, images)
  }

  predicate ReturnsAs(rules: Rules, d: Dispatch, raw: string, images: seq<string>) {
    && !rules.internal(rules.normalised(raw, images)) && (rules.normalised(raw, images) != "" || images != [])
    && MatchesSubmission(rules.normalised(raw, images), d.digest, d.attachments)
  }

  /** Reported as submitted but not confirmed, not older than two hours, and with a text that can come back. */
  ghost predicate LateOpen(rules: Rules, w: World, k: nat)
    requires k < |w.rows.ds|
  {
    var d := w.rows.ds[k];
    && d.state.OutcomeUnknown? && d.stage.Submitted?
    && w.clock <= d.created + TWO_HOURS
    && Returnable(rules, d)
  }

  predicate Bound(w: World, k: nat) {
    k < |w.rows.ds| && w.rows.ds[k].bound.Some?
  }

  ghost predicate CanBeBound(rules: Rules, w: World, k: nat) {
    exists actions :: Bound(Run(rules, w, actions), k)
  }

  // ---- Runs ----

  lemma {:induction false} RunSplit(rules: Rules, w: World, a: seq<Action>, b: seq<Action>)
    ensures Run(rules, w, a + b) == Run(rules, Run(rules, w, a), b)
    decreases |a|
  {
    hide Next;
    if a == [] {
      assert a + b == b;
    } else {
      assert (a + b)[1..] == a[1..] + b;
      RunSplit(rules, Next(rules, w, a[0]), a[1..], b);
    }
  }

  lemma RunLast(rules: Rules, w: World, actions: seq<Action>)
    requires actions != []
    ensures Run(rules, w, actions) == Next(rules, Run(rules, w, actions[..|actions| - 1]), actions[|actions| - 1])
  {
    hide Next;
    var init, last := actions[..|actions| - 1], actions[|actions| - 1];
    assert actions == init + [last];
    RunSplit(rules, w, init, [last]);
    assert Run(rules, Next(rules, Run(rules, w, init), last), []) == Next(rules, Run(rules, w, init), last);
  }

  // ---- Times ----

  /** Rows were created one after the other, all before now. */
  ghost predicate TimesInv(w: World) {
    && (forall i, j :: 0 <= i < j < |w.rows.ds| ==> w.rows.ds[i].created < w.rows.ds[j].created)
    && (forall k :: 0 <= k < |w.rows.ds| ==> w.rows.ds[k].created < w.clock)
  }

  ghost predicate SameTimes(ds: seq<Dispatch>, ds': seq<Dispatch>) {
    |ds'| == |ds| && forall k :: 0 <= k < |ds| ==> ds'[k].created == ds[k].created
  }

  lemma {:induction false} EnqueueKeepsTimes(rules: Rules, t: Rows, thread: string, items: seq<UserItem>, now: nat)
    ensures SameTimes(t.ds, EnqueueItems(t, rules, thread, items, now).ds)
    decreases |items|
  {
    hide Recognised, LateClaim, Hidden, Text;
    if items != [] {
      EnqueueKeepsTimes(rules, t, thread, items[..|items| - 1], now);
    }
  }

  lemma NextKeepsTimes(rules: Rules, w: World, a: Action)
    requires TimesInv(w)
    ensures TimesInv(Next(rules, w, a))
  {
    hide EnqueueItems, FirstMatch, SubmissionDigest, KnownId;
    if a.Ingest? {
      var log := LogOf(w, a.thread);
      if log.cursor.Some? && log.cursor.value <= a.upTo <= log.complete <= |log.records| {
        EnqueueKeepsTimes(rules, w.rows, a.thread, log.records[log.cursor.value..a.upTo], w.clock);
      }
    }
  }

  lemma {:induction false} RunKeepsTimes(rules: Rules, w: World, actions: seq<Action>)
    requires TimesInv(w)
    ensures TimesInv(Run(rules, w, actions))
    decreases |actions|
  {
    hide Next, TimesInv;
    if actions != [] {
      NextKeepsTimes(rules, w, actions[0]);
      RunKeepsTimes(rules, Next(rules, w, actions[0]), actions[1..]);
    }
  }

  // ---- A row that is not open stays unbound ----

  ghost predicate Closed(rules: Rules, w: World, k: nat) {
    k < |w.rows.ds| && w.rows.ds[k].bound.None? && !InFlight(w, k) && !LateOpen(rules, w, k)
  }

  /** Ingestion binds only rows that are late and open. */
  lemma {:induction false} IngestLeavesClosed(rules: Rules, t: Rows, thread: string, items: seq<UserItem>, now: nat, k: nat)
    requires k < |t.ds|
    requires Awaiting(t.ds[k], thread, now) ==> !Returnable(rules, t.ds[k])
    ensures var t' := EnqueueItems(t, rules, thread, items, now); k < |t'.ds| && t'.ds[k] == t.ds[k]
    decreases |items|
  {
    hide Recognised, LateClaim, MatchesSubmission, Returnable, Awaiting;
    if items != [] {
      var init, item := items[..|items| - 1], items[|items| - 1];
      IngestLeavesClosed(rules, t, thread, init, now, k);
      var mid := EnqueueItems(t, rules, thread, init, now);
      EnqueueLeavesClosed(rules, mid, thread, item, now, k);
    }
  }

  lemma MatchIsReturnable(rules: Rules, d: Dispatch, item: UserItem)
    ensures !Hidden(rules, item) && MatchesSubmission(Text(rules, item), d.digest, d.attachments) ==> Returnable(rules, d)
  {
    assert ReturnsAs(rules, d, item.raw, item.images) || !ReturnsAs(rules, d, item.raw, item.images);
  }

  lemma EnqueueLeavesClosed(rules: Rules, t: Rows, thread: string, item: UserItem, now: nat, k: nat)
    requires k < |t.ds|
    requires Awaiting(t.ds[k], thread, now) ==> !Returnable(rules, t.ds[k])
    ensures var t' := EnqueueItem(t, rules, thread, item, now); k < |t'.ds| && t'.ds[k] == t.ds[k]
  {
    hide Recognised, LateClaim, MatchesSubmission, Awaiting;
    hide Returnable;
    MatchIsReturnable(rules, t.ds[k], item);
  }

  lemma ClosedStays(rules: Rules, w: World, a: Action, k: nat)
    requires Inv(rules, w) && Closed(rules, w, k)
    ensures Closed(rules, Next(rules, w, a), k)
  {
    hide EnqueueItems, FirstMatch, SubmissionDigest, RowsInv, ThreadInv, SnapshotInv, Returnable;
    if a.Ingest? {
      var log := LogOf(w, a.thread);
      if log.cursor.Some? && log.cursor.value <= a.upTo <= log.complete <= |log.records| {
        IngestLeavesClosed(rules, w.rows, a.thread, log.records[log.cursor.value..a.upTo], w.clock, k);
      }
    }
  }

  lemma {:induction false} ClosedForever(rules: Rules, w: World, actions: seq<Action>, k: nat)
    requires Inv(rules, w) && Closed(rules, w, k)
    ensures Closed(rules, Run(rules, w, actions), k)
    decreases |actions|
  {
    hide Next, Inv, Closed;
    if actions != [] {
      NextKeepsInv(rules, w, actions[0]);
      ClosedStays(rules, w, actions[0], k);
      ClosedForever(rules, Next(rules, w, actions[0]), actions[1..], k);
    }
  }

  // ---- An open row can be bound ----

  lemma BoundAlready(rules: Rules, w: World, k: nat)
    requires Bound(w, k)
    ensures CanBeBound(rules, w, k)
  {
    assert Bound(Run(rules, w, []), k);
  }

  lemma StepBack(rules: Rules, w: World, a: Action, k: nat)
    requires CanBeBound(rules, Next(rules, w, a), k)
    ensures CanBeBound(rules, w, k)
  {
    hide Next, Bound;
    var actions :| Bound(Run(rules, Next(rules, w, a), actions), k);
    assert ([a] + actions)[1..] == actions;
    assert Bound(Run(rules, w, [a] + actions), k);
  }

  /** A text whose digest is the given one. */
  function Preimage(digest: string): string {
    if digest != "" && digest[|digest| - 1] == '\n' then digest + "\n" else digest
  }

  lemma PreimageMatches(digest: string, attachments: bool)
    ensures MatchesSubmission(Preimage(digest), digest, attachments)
  {
    var text := Preimage(digest);
    assert |text| > |digest| ==> text[|digest| - 1] == '\n' && text[..|text| - 1] == digest;
  }

  function Longest(records: seq<UserItem>): nat {
    if records == [] then 0
    else
      var rest, n := Longest(records[..|records| - 1]), |records[|records| - 1].id.item|;
      if rest < n then n else rest
  }

  lemma {:induction false} LongestBounds(records: seq<UserItem>, k: nat)
    requires k < |records|
    ensures |records[k].id.item| <= Longest(records)
    decreases |records|
  {
    if k < |records| - 1 {
      LongestBounds(records[..|records| - 1], k);
    }
  }

  /** Files can always get another item. */
  lemma NewId(log: Log) returns (id: ItemId)
    ensures !KnownId(log, id)
  {
    id := ItemId("", seq(Longest(log.records) + 1, i => 'x'));
    forall k | 0 <= k < |log.records| ensures log.records[k].id != id {
      LongestBounds(log.records, k);
    }
  }

  /** The thread's file is complete up to its last record, and all of it was ingested. */
  predicate CaughtUp(w: World, thread: string) {
    var log := LogOf(w, thread);
    log.complete == |log.records| && log.cursor == Some(|log.records|)
  }

  /** At the last moment at which it is looked at, a late row is the first candidate, and one more item binds it. */
  lemma LastMomentBinds(rules: Rules, w: World, k: nat)
    requires Inv(rules, w) && TimesInv(w)
    requires k < |w.rows.ds| && w.loop.Idle? && LateOpen(rules, w, k)
    requires w.clock == w.rows.ds[k].created + TWO_HOURS && CaughtUp(w, w.rows.ds[k].thread)
    ensures CanBeBound(rules, w, k)
  {
    hide MatchesSubmission, RowsInv, ThreadInv, KnownId, EnqueueItems;
    var d := w.rows.ds[k];
    var log := LogOf(w, d.thread);
    var n := |log.records|;
    var raw, images :| ReturnsAs(rules, d, raw, images);
    var id := NewId(log);
    var item := UserItem(id, raw, images);
    var w1 := Next(rules, w, BeginRecord(d.thread, item));
    var w2 := Next(rules, w1, FinishRecord(d.thread));
    var w3 := Next(rules, w2, Ingest(d.thread, n + 1, false));
    var log2 := LogOf(w2, d.thread);
    assert log2.records == log.records + [item] && log2.complete == n + 1 && log2.cursor == Some(n);
    assert log2.records[n..n + 1] == [item];
    assert w3.rows == EnqueueItems(w.rows, rules, d.thread, [item], w.clock);
    assert ThreadInv(rules, w.rows, d.thread, log);
    NotRecognisedYet(rules, w.rows, d.thread, log, id);
    FirstCandidateClaims(rules, w.rows, d.thread, item, w.clock, k);
    BoundAlready(rules, w3, k);
    StepBack(rules, w2, Ingest(d.thread, n + 1, false), k);
    StepBack(rules, w1, FinishRecord(d.thread), k);
    StepBack(rules, w, BeginRecord(d.thread, item), k);
  }

  lemma FirstCandidateClaims(rules: Rules, t: Rows, thread: string, item: UserItem, now: nat, k: nat)
    requires k < |t.ds| && Awaiting(t.ds[k], thread, now)
    requires forall j :: 0 <= j < k ==> t.ds[j].created + TWO_HOURS < now
    requires !Hidden(rules, item) && MatchesSubmission(Text(rules, item), t.ds[k].digest, t.ds[k].attachments)
    requires !Recognised(t.ds, thread, item.id)
    ensures EnqueueItems(t, rules, thread, [item], now) == AcceptRow(t, k, item.id)
  {
    hide MatchesSubmission, Recognised;
    assert [item][..0] == [];
    assert EnqueueItems(t, rules, thread, [], now) == t;
    NoneAwaiting(t.ds, 0, k, thread, now);
    LateClaimIff(t.ds, 0, CANDIDATE_LIMIT, thread, Text(rules, item), now, k);
  }

  lemma {:induction false} NoneAwaiting(ds: seq<Dispatch>, from: nat, end: nat, thread: string, now: nat)
    requires from <= end <= |ds| && forall j :: from <= j < end ==> !Awaiting(ds[j], thread, now)
    ensures AwaitingBetween(ds, from, end, thread, now) == 0
    decreases end - from
  {
    hide Awaiting;
    if from < end {
      NoneAwaiting(ds, from + 1, end, thread, now);
    }
  }

  /** Time passes until the row is about to get too old. */
  lemma WaitingBinds(rules: Rules, w: World, k: nat)
    requires Inv(rules, w) && TimesInv(w)
    requires k < |w.rows.ds| && w.loop.Idle? && LateOpen(rules, w, k) && CaughtUp(w, w.rows.ds[k].thread)
    ensures CanBeBound(rules, w, k)
  {
    hide RowsInv, ThreadInv, Returnable;
    var a := Tick(w.rows.ds[k].created + TWO_HOURS - w.clock);
    var w' := Next(rules, w, a);
    assert LogOf(w', w.rows.ds[k].thread) == LogOf(w, w.rows.ds[k].thread);
    NextKeepsInv(rules, w, a);
    NextKeepsTimes(rules, w, a);
    LastMomentBinds(rules, w', k);
    StepBack(rules, w, a, k);
  }

  /** Ingestion catches up with the file, and either binds the row on the way or leaves it open. */
  lemma CatchingUpBinds(rules: Rules, w: World, k: nat)
    requires Inv(rules, w) && TimesInv(w)
    requires k < |w.rows.ds| && w.loop.Idle? && LateOpen(rules, w, k)
    requires LogOf(w, w.rows.ds[k].thread).complete == |LogOf(w, w.rows.ds[k].thread).records|
    ensures CanBeBound(rules, w, k)
  {
    hide RowsInv, Returnable, HandedIff, EnqueueItems;
    var thread := w.rows.ds[k].thread;
    var log := LogOf(w, thread);
    var a := if log.cursor.None? then Checkpoint(thread) else Ingest(thread, log.complete, false);
    assert ThreadInv(rules, w.rows, thread, log);
    var w' := Next(rules, w, a);
    assert CaughtUp(w', thread);
    if log.cursor.Some? {
      IngestBindsOrLeaves(rules, w.rows, thread, log.records[log.cursor.value..log.complete], w.clock, k);
    }
    NextKeepsInv(rules, w, a);
    NextKeepsTimes(rules, w, a);
    if Bound(w', k) {
      BoundAlready(rules, w', k);
    } else {
      WaitingBinds(rules, w', k);
    }
    StepBack(rules, w, a, k);
  }

  lemma {:induction false} IngestBindsOrLeaves(rules: Rules, t: Rows, thread: string, items: seq<UserItem>, now: nat, k: nat)
    requires k < |t.ds|
    ensures var t' := EnqueueItems(t, rules, thread, items, now);
            k < |t'.ds| && (t'.ds[k].bound.Some? || t'.ds[k] == t.ds[k])
    decreases |items|
  {
    hide Recognised, LateClaim, Hidden, Text;
    if items != [] {
      IngestBindsOrLeaves(rules, t, thread, items[..|items| - 1], now, k);
    }
  }

  lemma LateBinds(rules: Rules, w: World, k: nat)
    requires Inv(rules, w) && TimesInv(w)
    requires k < |w.rows.ds| && LateOpen(rules, w, k)
    ensures CanBeBound(rules, w, k)
  {
    hide RowsInv, ThreadInv, Returnable, SnapshotInv;
    var thread := w.rows.ds[k].thread;
    var w1 := Next(rules, w, Crash);
    var w2 := Next(rules, w1, FinishRecord(thread));
    NextKeepsInv(rules, w, Crash);
    NextKeepsInv(rules, w1, FinishRecord(thread));
    CatchingUpBinds(rules, w2, k);
    StepBack(rules, w1, FinishRecord(thread), k);
    StepBack(rules, w, Crash, k);
  }

  // ---- A dispatch in flight can be confirmed ----

  lemma ConfirmingBinds(rules: Rules, w: World, k: nat)
    requires Inv(rules, w) && w.loop.Confirming? && w.loop.k == k
    ensures CanBeBound(rules, w, k)
  {
    hide MatchesSubmission, SubmissionDigest, RowsInv, ThreadInv, KnownId, FirstMatch, EnqueueItems, Run, CanBeBound, Complete, Preimage;
    var d := w.rows.ds[k];
    var w1 := Next(rules, w, FinishRecord(d.thread));
    var log1 := LogOf(w1, d.thread);
    var id := NewId(log1);
    var item := UserItem(id, Preimage(d.digest), []);
    PreimageMatches(d.digest, d.attachments);
    var w2 := Next(rules, w1, BeginRecord(d.thread, item));
    var log2 := LogOf(w2, d.thread);
    var n := |log2.records|;
    assert log2.records == log1.records + [item] && n >= 1 && w.loop.snapshot <= n - 1;
    assert log2.records[w.loop.snapshot..n][n - 1 - w.loop.snapshot] == item;
    MatchIsFound(log2.records[w.loop.snapshot..n], d, n - 1 - w.loop.snapshot);
    var w3 := Next(rules, w2, Search(n));
    assert Bound(w3, k);
    BoundAlready(rules, w3, k);
    StepBack(rules, w2, Search(n), k);
    StepBack(rules, w1, BeginRecord(d.thread, item), k);
    StepBack(rules, w, FinishRecord(d.thread), k);
  }

  lemma {:induction false} MatchIsFound(records: seq<UserItem>, d: Dispatch, j: nat)
    requires j < |records| && MatchesSubmission(records[j].raw, d.digest, d.attachments)
    ensures FirstMatch(records, d).Some?
    decreases j
  {
    hide MatchesSubmission;
    if j > 0 {
      assert records[1..][j - 1] == records[j];
      MatchIsFound(records[1..], d, j - 1);
    }
  }

  lemma InFlightBinds(rules: Rules, w: World, k: nat)
    requires Inv(rules, w) && InFlight(w, k)
    ensures CanBeBound(rules, w, k)
    decreases if w.loop.Inserted? then 3 else if w.loop.Snapped? then 2 else if w.loop.Sending? then 1 else 0
  {
    hide RowsInv, ThreadInv, SnapshotInv;
    if w.loop.Confirming? {
      ConfirmingBinds(rules, w, k);
    } else {
      var a := if w.loop.Inserted? then Snapshot else if w.loop.Snapped? then TakeFence else Submit(true);
      NextKeepsInv(rules, w, a);
      InFlightBinds(rules, Next(rules, w, a), k);
      StepBack(rules, w, a, k);
    }
  }

  // ---- Main results ----

  /**
   In every run: an unbound submission can still be bound exactly when its dispatch is in flight, or when it
   was reported as submitted, is not older than two hours, and some user message that is not hidden
   normalises to its text. Every other one stays unbound in every continuation.
   */
  lemma CanBeBoundIff(rules: Rules, actions: seq<Action>, k: nat)
    requires k < |Run(rules, START, actions).rows.ds|
    ensures var w := Run(rules, START, actions);
            w.rows.ds[k].bound.None? ==> (CanBeBound(rules, w, k) <==> InFlight(w, k) || LateOpen(rules, w, k))
  {
    hide Next, Inv, TimesInv, LateOpen, CanBeBound, Run;
    var w := Run(rules, START, actions);
    StartInv(rules);
    StartTimes();
    RunKeepsInv(rules, START, actions);
    RunKeepsTimes(rules, START, actions);
    if InFlight(w, k) {
      InFlightBinds(rules, w, k);
    } else if LateOpen(rules, w, k) {
      LateBinds(rules, w, k);
    } else if w.rows.ds[k].bound.None? {
      ClosedIsNeverBound(rules, w, k);
    }
  }

  lemma StartTimes()
    ensures TimesInv(START)
  {
  }

  lemma ClosedIsNeverBound(rules: Rules, w: World, k: nat)
    requires Inv(rules, w) && Closed(rules, w, k)
    ensures !CanBeBound(rules, w, k)
  {
    hide Next, Inv, Run;
    forall actions ensures !Bound(Run(rules, w, actions), k) {
      ClosedForever(rules, w, actions, k);
    }
  }

  // ---- What closes a row ----

  /** The row still counts as sending, but the call that sent it is gone. */
  predicate Abandoned(w: World, k: nat) {
    k < |w.rows.ds| && w.rows.ds[k].state.BytesSending? && !InFlight(w, k)
  }

  /** The gateway reported a failure, so the row was never marked as submitted. */
  predicate Undelivered(w: World, k: nat) {
    k < |w.rows.ds| && w.rows.ds[k].state.OutcomeUnknown? && w.rows.ds[k].stage.Sending?
  }

  predicate SendingNow(w: World, k: nat) {
    InFlight(w, k) && (w.loop.Sending? || w.loop.Confirming?)
  }

  lemma {:induction false} IngestLeavesOthers(rules: Rules, t: Rows, thread: string, items: seq<UserItem>, now: nat, k: nat)
    ensures var t' := EnqueueItems(t, rules, thread, items, now);
            && |t'.ds| == |t.ds|
            && (k < |t.ds| && !(t.ds[k].state.OutcomeUnknown? && t.ds[k].stage.Submitted?) ==> t'.ds[k] == t.ds[k])
            && (k < |t.ds| && t'.ds[k] != t.ds[k] ==> t'.ds[k].state.Accepted?)
    decreases |items|
  {
    hide Recognised, LateClaim, Hidden, Text;
    if items != [] {
      IngestLeavesOthers(rules, t, thread, items[..|items| - 1], now, k);
    }
  }

  lemma AbandonedStep(rules: Rules, w: World, a: Action, k: nat)
    requires Inv(rules, w)
    ensures Abandoned(Next(rules, w, a), k) <==> Abandoned(w, k) || (a.Crash? && SendingNow(w, k))
    ensures Undelivered(Next(rules, w, a), k) <==>
            Undelivered(w, k) || (a == Submit(false) && InFlight(w, k) && w.loop.Sending?)
  {
    hide EnqueueItems, FirstMatch, SubmissionDigest, RowsInv, ThreadInv, SnapshotInv;
    if a.Ingest? {
      var log := LogOf(w, a.thread);
      if log.cursor.Some? && log.cursor.value <= a.upTo <= log.complete <= |log.records| {
        IngestLeavesOthers(rules, w.rows, a.thread, log.records[log.cursor.value..a.upTo], w.clock, k);
      }
    }
  }

  /** The i-th action is a crash inside the call that submits row k. */
  ghost predicate CrashedAt(rules: Rules, actions: seq<Action>, i: nat, k: nat) {
    i < |actions| && actions[i].Crash? && SendingNow(Run(rules, START, actions[..i]), k)
  }

  /** The i-th action is the gateway's failure report for row k. */
  ghost predicate RefusedAt(rules: Rules, actions: seq<Action>, i: nat, k: nat) {
    && i < |actions| && actions[i] == Submit(false)
    && InFlight(Run(rules, START, actions[..i]), k) && Run(rules, START, actions[..i]).loop.Sending?
  }

  /**
   In every run, row k is left in bytes_sending without its call exactly when the process stopped between
   the send fence and the confirmation, and left unmarked exactly when the gateway reported a failure.
   */
  lemma {:induction false} ClosedByCrashOrRefusal(rules: Rules, actions: seq<Action>, k: nat)
    ensures Abandoned(Run(rules, START, actions), k) <==> exists i: nat :: CrashedAt(rules, actions, i, k)
    ensures Undelivered(Run(rules, START, actions), k) <==> exists i: nat :: RefusedAt(rules, actions, i, k)
    decreases |actions|
  {
    hide Next, Inv, Abandoned, Undelivered, SendingNow, InFlight, Run;
    if actions == [] {
      NothingAtStart(rules, k);
    } else {
      var init, last := actions[..|actions| - 1], actions[|actions| - 1];
      var w := Run(rules, START, init);
      StartInv(rules);
      RunKeepsInv(rules, START, init);
      RunLast(rules, START, actions);
      ClosedByCrashOrRefusal(rules, init, k);
      AbandonedStep(rules, w, last, k);
      assert forall i: nat :: i < |init| ==> actions[..i] == init[..i] && actions[i] == init[i];
      assert forall i: nat :: i < |init| ==> (CrashedAt(rules, actions, i, k) <==> CrashedAt(rules, init, i, k));
      assert forall i: nat :: i < |init| ==> (RefusedAt(rules, actions, i, k) <==> RefusedAt(rules, init, i, k));
      assert CrashedAt(rules, actions, |init|, k) <==> last.Crash? && SendingNow(w, k);
      assert RefusedAt(rules, actions, |init|, k) <==> last == Submit(false) && InFlight(w, k) && w.loop.Sending?;
    }
  }

  lemma NothingAtStart(rules: Rules, k: nat)
    ensures !Abandoned(Run(rules, START, []), k) && !Undelivered(Run(rules, START, []), k)
  {
  }

  // ---- Concrete runs that mirror their own echo ----

  function SentRow(ingress: string, thread: string, text: string, attachments: bool): Dispatch {
    Dispatch(ingress, thread, SubmissionDigest(text), attachments, 0, BytesSending, Stage.Sending, None)
  }

  function AfterFence(ingress: string, thread: string, text: string, attachments: bool): World {
    World(map[thread := Log([], 0, Some(0), 0)], Rows([SentRow(ingress, thread, text, attachments)], {}, []), Loop.Sending(0, 0), 1)
  }

  lemma FirstSteps(rules: Rules, ingress: string, thread: string, text: string, attachments: bool)
    ensures Run(rules, START, [Checkpoint(thread), Prepare(ingress, thread, text, attachments), Snapshot, TakeFence]) ==
            AfterFence(ingress, thread, text, attachments)
  {
    hide SubmissionDigest;
    var a, b := Checkpoint(thread), Prepare(ingress, thread, text, attachments);
    var w1 := Next(rules, START, a);
    assert w1.logs == map[thread := Log([], 0, Some(0), 0)];
    var w2 := Next(rules, w1, b);
    var w3 := Next(rules, w2, Snapshot);
    assert Next(rules, w3, TakeFence) == AfterFence(ingress, thread, text, attachments);
    RunFour(rules, START, a, b, Snapshot, TakeFence);
  }

  lemma RunFour(rules: Rules, w: World, a: Action, b: Action, c: Action, d: Action)
    ensures Run(rules, w, [a, b, c, d]) == Next(rules, Next(rules, Next(rules, Next(rules, w, a), b), c), d)
  {
    hide Next;
    RunLast(rules, w, [a, b, c, d]);
    RunLast(rules, w, [a, b, c]);
    RunLast(rules, w, [a, b]);
    RunLast(rules, w, [a]);
    assert [a, b, c, d][..3] == [a, b, c] && [a, b, c][..2] == [a, b] && [a, b][..1] == [a] && [a][..0] == [];
  }

  /** The process stops, the gateway reports a failure, or nothing is confirmed and two hours pass. */
  predicate Loses(how: seq<Action>) {
    || how == [Submit(true), Crash]
    || how == [Submit(false)]
    || how == [Submit(true), GiveUp, Tick(TWO_HOURS)]
  }

  predicate Starting(w: World, d: Dispatch, thread: string, loop: Loop) {
    && w.logs == map[thread := Log([], 0, Some(0), 0)] && w.rows == Rows([d], {}, [])
    && w.loop == loop && d.thread == thread && d.bound.None? && d.created == 0 && w.clock >= 1
  }

  lemma SubmitStep(rules: Rules, w: World, d: Dispatch, thread: string, delivered: bool)
    requires Starting(w, d, thread, Loop.Sending(0, 0)) && d.state.BytesSending?
    ensures Starting(Next(rules, w, Submit(delivered)),
                     if delivered then d.(stage := Submitted) else d.(state := OutcomeUnknown), thread,
                     if delivered then Confirming(0, 0) else Idle)
  {
    hide LogOf;
  }

  lemma LeavingStep(rules: Rules, w: World, d: Dispatch, thread: string)
    requires Starting(w, d, thread, Confirming(0, 0)) && d.state.BytesSending?
    ensures Starting(Next(rules, w, Crash), d, thread, Idle)
    ensures Starting(Next(rules, w, GiveUp), d.(state := OutcomeUnknown), thread, Idle)
  {
    hide LogOf;
  }

  lemma LosingSteps(rules: Rules, w: World, how: seq<Action>, d: Dispatch, thread: string) returns (d': Dispatch)
    requires Loses(how) && d.state.BytesSending? && d.stage.Sending? && Starting(w, d, thread, Loop.Sending(0, 0))
    ensures var w' := Run(rules, w, how); Starting(w', d', thread, Idle) && !Awaiting(d', thread, w'.clock)
  {
    hide Run, Starting, DispatchStep, ServiceStep;
    var w1 := Next(rules, w, how[0]);
    SubmitStep(rules, w, d, thread, |how| > 1);
    RunCons(rules, w, how);
    if |how| == 1 {
      d' := d.(state := OutcomeUnknown);
    } else {
      var d1 := d.(stage := Submitted);
      var w2 := Next(rules, w1, how[1]);
      LeavingStep(rules, w1, d1, thread);
      RunCons(rules, w1, how[1..]);
      d' := if |how| == 2 then d1 else d1.(state := OutcomeUnknown);
      if |how| > 2 {
        assert how[1..][1..] == [how[2]];
        RunCons(rules, w2, [how[2]]);
        TickStep(rules, w2, d', thread);
      }
    }
  }

  lemma TickStep(rules: Rules, w: World, d: Dispatch, thread: string)
    requires Starting(w, d, thread, Idle)
    ensures var w' := Next(rules, w, Tick(TWO_HOURS)); Starting(w', d, thread, Idle) && !Awaiting(d, thread, w'.clock)
  {
  }

  lemma RunCons(rules: Rules, w: World, actions: seq<Action>)
    requires actions != []
    ensures Run(rules, w, actions) == Run(rules, Next(rules, w, actions[0]), actions[1..])
    ensures |actions| == 1 ==> Run(rules, w, actions) == Next(rules, w, actions[0])
  {
  }

  lemma EchoArrives(rules: Rules, w: World, d: Dispatch, thread: string, item: UserItem)
    requires Starting(w, d, thread, Idle) && !Awaiting(d, thread, w.clock) && !Hidden(rules, item)
    ensures var w' := Run(rules, w, [BeginRecord(thread, item), FinishRecord(thread), Ingest(thread, 1, false)]);
            w'.rows == Rows([d], {}, [Queued(thread, item.id)])
  {
    hide Hidden, Text, Awaiting;
    var a, b, c := BeginRecord(thread, item), FinishRecord(thread), Ingest(thread, 1, false);
    RunCons(rules, w, [a, b, c]);
    var w1 := Next(rules, w, a);
    RunCons(rules, w1, [b, c]);
    var w2 := Next(rules, w1, b);
    RunCons(rules, w2, [c]);
    assert [a, b, c][1..] == [b, c] && [b, c][1..] == [c] && [c][1..] == [];
    assert LogOf(w2, thread).records[0..1] == [item];
    assert [item][..0] == [];
    assert EnqueueItems(w.rows, rules, thread, [], w.clock) == w.rows;
    assert LateClaim(w.rows.ds, 1, CANDIDATE_LIMIT, thread, Text(rules, item), w.clock) == None;
  }

  /**
   Whatever is submitted, if the call is lost in one of these ways its own echo is handed to queueing as a
   new user message, and the row stays unbound.
   */
  lemma LostEchoIsMirrored(rules: Rules, ingress: string, thread: string, text: string, attachments: bool,
                           how: seq<Action>, item: UserItem)
    requires Loses(how) && item.raw == text && !Hidden(rules, item)
    ensures var t := Run(rules, START,
                         [Checkpoint(thread), Prepare(ingress, thread, text, attachments), Snapshot, TakeFence] + how +
                         [BeginRecord(thread, item), FinishRecord(thread), Ingest(thread, 1, false)]).rows;
            t.queued == [Queued(thread, item.id)] && |t.ds| == 1 && t.ds[0].bound.None?
  {
    hide Run, SubmissionDigest, Loses, Awaiting, Hidden;
    var first := [Checkpoint(thread), Prepare(ingress, thread, text, attachments), Snapshot, TakeFence];
    var last := [BeginRecord(thread, item), FinishRecord(thread), Ingest(thread, 1, false)];
    FirstSteps(rules, ingress, thread, text, attachments);
    var w := AfterFence(ingress, thread, text, attachments);
    var d := LosingSteps(rules, w, how, w.rows.ds[0], thread);
    RunSplit(rules, START, first, how);
    RunSplit(rules, START, first + how, last);
    EchoArrives(rules, Run(rules, w, how), d, thread, item);
  }

  // ---- The rules for timely and late items, and completion ----

  ghost predicate FirstMatching(records: seq<UserItem>, snapshot: nat, d: Dispatch, k: nat) {
    && snapshot <= k < |records| && MatchesSubmission(records[k].raw, d.digest, d.attachments)
    && forall j :: snapshot <= j < k ==> !MatchesSubmission(records[j].raw, d.digest, d.attachments)
  }

  /** The search after a submission finds the first matching item that began after the snapshot, and fails exactly when there is none. */
  lemma {:induction false} SearchFinds(records: seq<UserItem>, snapshot: nat, d: Dispatch)
    requires snapshot <= |records|
    ensures FirstMatch(records[snapshot..], d).None? <==> forall k: nat :: !FirstMatching(records, snapshot, d, k)
    ensures forall k: nat :: FirstMatching(records, snapshot, d, k) ==> FirstMatch(records[snapshot..], d) == Some(records[k].id)
    decreases |records| - snapshot
  {
    hide MatchesSubmission;
    if snapshot < |records| {
      var next: nat := snapshot + 1;
      assert records[snapshot..][1..] == records[next..];
      if MatchesSubmission(records[snapshot].raw, d.digest, d.attachments) {
        assert FirstMatching(records, snapshot, d, snapshot);
      } else {
        SearchFinds(records, next, d);
        forall k: nat ensures FirstMatching(records, next, d, k) <==> FirstMatching(records, snapshot, d, k) {
        }
      }
    }
  }

  /** Reported as submitted, not confirmed, and at most two hours old, in microseconds. */
  predicate Candidate(d: Dispatch, thread: string, now: nat) {
    d.thread == thread && d.state == OutcomeUnknown && d.stage == Submitted && now - d.created <= 7_200_000_000
  }

  function CandidatesBefore(ds: seq<Dispatch>, k: nat, thread: string, now: nat): nat
    requires k <= |ds|
  {
    if k == 0 then 0 else CandidatesBefore(ds, k - 1, thread, now) + if Candidate(ds[k - 1], thread, now) then 1 else 0
  }

  lemma {:induction false} AwaitingAre(ds: seq<Dispatch>, from: nat, end: nat, thread: string, now: nat)
    requires from <= end <= |ds|
    ensures AwaitingBetween(ds, from, end, thread, now) == CandidatesBefore(ds, end, thread, now) - CandidatesBefore(ds, from, thread, now)
    decreases end - from
  {
    if from < end {
      AwaitingAre(ds, from + 1, end, thread, now);
    }
  }

  /** A late item is claimed by the oldest candidate it matches, if that is one of the twenty oldest. */
  lemma ClaimRule(ds: seq<Dispatch>, thread: string, text: string, now: nat, k: nat)
    ensures LateClaim(ds, 0, CANDIDATE_LIMIT, thread, text, now) == Some(k) <==>
            && k < |ds| && Candidate(ds[k], thread, now) && CandidatesBefore(ds, k, thread, now) < 20
            && MatchesSubmission(text, ds[k].digest, ds[k].attachments)
            && forall j :: 0 <= j < k && Candidate(ds[j], thread, now) ==> !MatchesSubmission(text, ds[j].digest, ds[j].attachments)
  {
    hide MatchesSubmission, LateClaim;
    LateClaimIff(ds, 0, CANDIDATE_LIMIT, thread, text, now, k);
    if k < |ds| { AwaitingAre(ds, 0, k, thread, now); }
    assert forall d: Dispatch :: Awaiting(d, thread, now) <==> Candidate(d, thread, now);
  }

  predicate Done(w: World, k: nat) {
    k < |w.rows.ds| && w.rows.ds[k].state.Completed?
  }

  /** The turn that the accepted row k became is reported as over. */
  predicate EndsTurn(w: World, a: Action, k: nat) {
    && w.loop.Idle? && a.TurnCompleted? && k < |w.rows.ds|
    && w.rows.ds[k].thread == a.thread && w.rows.ds[k].state.Accepted?
    && w.rows.ds[k].bound.Some? && w.rows.ds[k].bound.value.turn == a.turn
  }

  lemma CompletedStep(rules: Rules, w: World, a: Action, k: nat)
    requires Inv(rules, w)
    ensures Done(Next(rules, w, a), k) <==> Done(w, k) || EndsTurn(w, a, k)
  {
    hide EnqueueItems, FirstMatch, SubmissionDigest, RowsInv, ThreadInv, SnapshotInv;
    if a.Ingest? {
      var log := LogOf(w, a.thread);
      if log.cursor.Some? && log.cursor.value <= a.upTo <= log.complete <= |log.records| {
        IngestLeavesOthers(rules, w.rows, a.thread, log.records[log.cursor.value..a.upTo], w.clock, k);
      }
    }
  }

  ghost predicate EndsTurnAt(rules: Rules, actions: seq<Action>, i: nat, k: nat) {
    i < |actions| && EndsTurn(Run(rules, START, actions[..i]), actions[i], k)
  }

  /** In every run, a submission is completed exactly when the turn it had become was reported as over. */
  lemma {:induction false} CompletedIff(rules: Rules, actions: seq<Action>, k: nat)
    ensures Done(Run(rules, START, actions), k) <==> exists i: nat :: EndsTurnAt(rules, actions, i, k)
    decreases |actions|
  {
    hide Run, Next, Inv, Done, EndsTurn;
    if actions == [] {
      NothingDone(rules, k);
    } else {
      var init, last := actions[..|actions| - 1], actions[|actions| - 1];
      StartInv(rules);
      RunKeepsInv(rules, START, init);
      RunLast(rules, START, actions);
      CompletedIff(rules, init, k);
      CompletedStep(rules, Run(rules, START, init), last, k);
      forall i: nat | i < |init| ensures EndsTurnAt(rules, actions, i, k) <==> EndsTurnAt(rules, init, i, k) {
        assert actions[..i] == init[..i];
      }
      assert EndsTurnAt(rules, actions, |init|, k) <==> EndsTurn(Run(rules, START, init), last, k);
    }
  }

  lemma NothingDone(rules: Rules, k: nat)
    ensures !Done(Run(rules, START, []), k)
  {
  }
}
