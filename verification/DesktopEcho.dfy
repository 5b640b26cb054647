/**
 Submitting a Feishu message through the desktop application and recognising the rollout item
 that it becomes. One service loop does both; rollout files grow on their own.
 */
module DesktopEcho {
  import opened Options
  import opened DesktopText
  import opened DispatchRecords

  datatype ItemId = ItemId(turn: string, item: string)

  /** One user message recorded in a rollout: its joined input text, and the images embedded in it. */
  datatype UserItem = UserItem(id: ItemId, raw: string, images: seq<string>)

  /** The text of the event that the normaliser makes of a message, and which texts are orchestration envelopes. */
  datatype Rules = Rules(normalised: (string, seq<string>) -> string, internal: string -> bool)

  function Text(rules: Rules, item: UserItem): string {
    rules.normalised(item.raw, item.images)
  }

  /** The normaliser makes no event of a message that comes out empty. */
  predicate NoEvent(rules: Rules, item: UserItem) {
    Text(rules, item) == "" && item.images == []
  }

  /** Not to be mirrored: no event, or an orchestration envelope. */
  predicate Hidden(rules: Rules, item: UserItem) {
    NoEvent(rules, item) || rules.internal(Text(rules, item))
  }

  /** A row of dispatch_records; rows are kept in the order of their creation, times are in microseconds. */
  datatype Dispatch = Dispatch(
    ingress: string,
    thread: string,
    digest: string,
    attachments: bool,
    created: nat,
    state: DispatchState,
    stage: Stage,
    bound: Option<ItemId>)

  const TWO_HOURS := 7_200_000_000
  const CANDIDATE_LIMIT := 20

  function Accept(d: Dispatch, id: ItemId): Dispatch {
    d.(state := Accepted, bound := Some(id))
  }

  // ---- The search that follows a submission ----

  /** The first matching item among the records that began after the snapshot. */
  function FirstMatch(records: seq<UserItem>, d: Dispatch): Option<ItemId> {
    if records == [] then None
    else if MatchesSubmission(records[0].raw, d.digest, d.attachments) then Some(records[0].id)
    else FirstMatch(records[1..], d)
  }

  // ---- What ingestion does with one user item ----

  predicate IsReturn(d: Dispatch, thread: string, id: ItemId) {
    d.thread == thread && d.bound == Some(id) && (d.state.Accepted? || d.state.Completed?)
  }

  predicate Recognised(ds: seq<Dispatch>, thread: string, id: ItemId) {
    exists k :: 0 <= k < |ds| && IsReturn(ds[k], thread, id)
  }

  /** Submitted, unconfirmed and young enough for a late item to be its return. */
  predicate Awaiting(d: Dispatch, thread: string, now: nat) {
    d.thread == thread && d.state.OutcomeUnknown? && d.stage.Submitted? && d.created + TWO_HOURS >= now
  }

  /** Index of the dispatch that claims a late item, looking at no more than limit awaiting ones. */
  function LateClaim(ds: seq<Dispatch>, from: nat, limit: nat, thread: string, text: string, now: nat): (r: Option<nat>)
    requires from <= |ds|
    ensures r.Some? ==>
              && from <= r.value < |ds|
              && Awaiting(ds[r.value], thread, now)
              && MatchesSubmission(text, ds[r.value].digest, ds[r.value].attachments)
    decreases |ds| - from
  {
    if from == |ds| || limit == 0 then None
    else if !Awaiting(ds[from], thread, now) then LateClaim(ds, from + 1, limit, thread, text, now)
    else if MatchesSubmission(text, ds[from].digest, ds[from].attachments) then Some(from)
    else LateClaim(ds, from + 1, limit - 1, thread, text, now)
  }

  function AwaitingBetween(ds: seq<Dispatch>, from: nat, end: nat, thread: string, now: nat): nat
    requires from <= end <= |ds|
    decreases |ds| - from
  {
    if from == end then 0
    else (if Awaiting(ds[from], thread, now) then 1 else 0) + AwaitingBetween(ds, from + 1, end, thread, now)
  }

  /** Row k is among the first limit awaiting ones, and the oldest of them that the text matches. */
  ghost predicate ClaimedBy(ds: seq<Dispatch>, from: nat, limit: nat, thread: string, text: string, now: nat, k: nat)
    requires from <= |ds|
  {
    && from <= k < |ds|
    && Awaiting(ds[k], thread, now) && MatchesSubmission(text, ds[k].digest, ds[k].attachments)
    && AwaitingBetween(ds, from, k, thread, now) < limit
    && forall j :: from <= j < k && Awaiting(ds[j], thread, now) ==>
         !MatchesSubmission(text, ds[j].digest, ds[j].attachments)
  }

  /** Which submission claims a late item, for every table of rows and every row. */
  lemma {:induction false} LateClaimIff(ds: seq<Dispatch>, from: nat, limit: nat, thread: string, text: string, now: nat, k: nat)
    requires from <= |ds|
    ensures LateClaim(ds, from, limit, thread, text, now) == Some(k) <==> ClaimedBy(ds, from, limit, thread, text, now, k)
    decreases |ds| - from
  {
    hide MatchesSubmission, Awaiting;
    if from < |ds| && limit > 0 && from != k {
      var left := if Awaiting(ds[from], thread, now) then limit - 1 else limit;
      LateClaimIff(ds, from + 1, left, thread, text, now, k);
    }
  }

  datatype Queued = Queued(thread: string, id: ItemId)

  /** Dispatch rows, executed-command tombstones by ingress message, and items handed to queueing. */
  datatype Rows = Rows(ds: seq<Dispatch>, tombstones: set<string>, queued: seq<Queued>)

  function AcceptRow(t: Rows, k: nat, id: ItemId): Rows
    requires k < |t.ds|
  {
    t.(ds := t.ds[k := Accept(t.ds[k], id)], tombstones := t.tombstones + {t.ds[k].ingress})
  }

  function EnqueueItem(t: Rows, rules: Rules, thread: string, item: UserItem, now: nat): Rows {
    if Hidden(rules, item) || Recognised(t.ds, thread, item.id) then t
    else match LateClaim(t.ds, 0, CANDIDATE_LIMIT, thread, Text(rules, item), now)
      case Some(k) => AcceptRow(t, k, item.id)
      case None => t.(queued := t.queued + [Queued(thread, item.id)])
  }

  function EnqueueItems(t: Rows, rules: Rules, thread: string, items: seq<UserItem>, now: nat): Rows {
    if items == [] then t
    else EnqueueItem(EnqueueItems(t, rules, thread, items[..|items| - 1], now), rules, thread, items[|items| - 1], now)
  }

  // ---- The database rows, and the methods that update them ----

  class EchoStore {
    var ds: seq<Dispatch>
    var tombstones: set<string>
    var queued: seq<Queued>

    constructor ()
      ensures Contents() == Rows([], {}, [])
    {
      ds, tombstones, queued := [], {}, [];
    }

    function Contents(): Rows
      reads this
    {
      Rows(ds, tombstones, queued)
    }

    /** Claims a late rollout item for one submission that was never confirmed. */
    method ReconcileDelayedReturn(rules: Rules, thread: string, item: UserItem, now: nat) returns (claimed: bool)
      modifies this
      ensures var k := LateClaim(old(ds), 0, CANDIDATE_LIMIT, thread, Text(rules, item), now);
              && claimed == k.Some?
              && Contents() == if claimed then AcceptRow(old(Contents()), k.value, item.id) else old(Contents())
    {
      hide MatchesSubmission;
      var text := Text(rules, item);
      var seen := 0;
      for k := 0 to |ds|
        invariant Contents() == old(Contents())
        invariant 0 <= seen <= CANDIDATE_LIMIT
        invariant LateClaim(ds, 0, CANDIDATE_LIMIT, thread, text, now) ==
                  LateClaim(ds, k, CANDIDATE_LIMIT - seen, thread, text, now)
      {
        if seen == CANDIDATE_LIMIT {
          return false;
        }
        if Awaiting(ds[k], thread, now) {
          seen := seen + 1;
          if MatchesSubmission(text, ds[k].digest, ds[k].attachments) {
            tombstones := tombstones + {ds[k].ingress};
            ds := ds[k := Accept(ds[k], item.id)];
            return true;
          }
        }
      }
      return false;
    }

    /** admitted: the thread is opted in and its task anchor is confirmed. */
    method EnqueueEvent(rules: Rules, thread: string, item: UserItem, admitted: bool, now: nat) returns (ok: bool)
      requires !NoEvent(rules, item)
      modifies this
      ensures ok == admitted
      ensures Contents() == if ok then EnqueueItem(old(Contents()), rules, thread, item, now) else old(Contents())
    {
      if !admitted {
        return false;
      }
      if rules.internal(Text(rules, item)) {
        return true;
      }
      for k := 0 to |ds|
        invariant Contents() == old(Contents())
        invariant forall j :: 0 <= j < k ==> !IsReturn(ds[j], thread, item.id)
      {
        if IsReturn(ds[k], thread, item.id) {
          return true;
        }
      }
      var claimed := ReconcileDelayedReturn(rules, thread, item, now);
      if !claimed {
        queued := queued + [Queued(thread, item.id)];
      }
      return true;
    }

    /** The user items of one rollout batch; a refused item or an interruption rolls the transaction back. */
    method IngestUserItems(rules: Rules, thread: string, items: seq<UserItem>, admitted: bool, now: nat, interrupted: bool)
      returns (ok: bool)
      modifies this
      ensures ok == (!interrupted && (admitted || forall item :: item in items ==> NoEvent(rules, item)))
      ensures Contents() == if ok then EnqueueItems(old(Contents()), rules, thread, items, now) else old(Contents())
    {
      var saved := Contents();
      ok := !interrupted;
      for k := 0 to |items|
        invariant ok == (!interrupted && (admitted || forall j :: 0 <= j < k ==> NoEvent(rules, items[j])))
        invariant ok ==> Contents() == EnqueueItems(old(Contents()), rules, thread, items[..k], now)
      {
        if !NoEvent(rules, items[k]) {
          var stored := EnqueueEvent(rules, thread, items[k], admitted, now);
          ok := ok && stored;
        }
        assert items[..k + 1][..k] == items[..k];
      }
      assert items[..|items|] == items;
      if !ok {
        ds, tombstones, queued := saved.ds, saved.tombstones, saved.queued;
      }
    }
  }

  method FindNewUserTurn(records: seq<UserItem>, snapshot: nat, d: Dispatch) returns (found: Option<ItemId>)
    ensures found == if snapshot <= |records| then FirstMatch(records[snapshot..], d) else None
  {
    hide MatchesSubmission;
    if |records| <= snapshot {
      return None;
    }
    for k := snapshot to |records|
      invariant FirstMatch(records[snapshot..], d) == FirstMatch(records[k..], d)
    {
      if MatchesSubmission(records[k].raw, d.digest, d.attachments) {
        return Some(records[k].id);
      }
      assert records[k..][1..] == records[k + 1..];
    }
    return None;
  }

  // ---- Runs ----

  /**
   A rollout file as its user items: records lists every item whose record has begun, the first
   complete of them are whole, cursor and start count the items before the cursor and the
   checkpoint. At most the last record is still being written.
   */
  datatype Log = Log(records: seq<UserItem>, complete: nat, cursor: Option<nat>, start: nat)

  const NO_LOG := Log([], 0, None, 0)

  /** Where the service loop is: idle, or inside one dispatch with its snapshot of the file. */
  datatype Loop =
    | Idle
    | Inserted(k: nat)
    | Snapped(k: nat, snapshot: nat)
    | Sending(k: nat, snapshot: nat)
    | Confirming(k: nat, snapshot: nat)

  datatype World = World(logs: map<string, Log>, rows: Rows, loop: Loop, clock: nat)

  datatype Action =
    | BeginRecord(thread: string, item: UserItem)
    | FinishRecord(thread: string)
    | Checkpoint(thread: string)
    | Ingest(thread: string, upTo: nat, interrupted: bool)
    | Prepare(ingress: string, thread: string, text: string, attachments: bool)
    | Snapshot
    | TakeFence
    | Submit(delivered: bool)
    | Search(seen: nat)
    | GiveUp
    | TurnCompleted(thread: string, turn: string)
    | Crash
    | Tick(ticks: nat)

  function LogOf(w: World, thread: string): Log {
    if thread in w.logs then w.logs[thread] else NO_LOG
  }

  predicate KnownId(log: Log, id: ItemId) {
    exists k :: 0 <= k < |log.records| && log.records[k].id == id
  }

  function SetLog(w: World, thread: string, log: Log): World {
    w.(logs := w.logs[thread := log])
  }

  function SetDispatch(w: World, k: nat, d: Dispatch, loop: Loop): World
    requires k < |w.rows.ds|
  {
    w.(rows := w.rows.(ds := w.rows.ds[k := d]), loop := loop)
  }

  function Complete(ds: seq<Dispatch>, thread: string, turn: string): seq<Dispatch> {
    seq(|ds|, k requires 0 <= k < |ds| =>
      if ds[k].thread == thread && ds[k].state.Accepted? && ds[k].bound.Some? && ds[k].bound.value.turn == turn
      then ds[k].(state := Completed) else ds[k])
  }

  /** The service's own steps; each one needs the loop to be at the right place. */
  function ServiceStep(rules: Rules, w: World, a: Action): World {
    match a
    case Checkpoint(thread) =>
      var log := LogOf(w, thread);
      if w.loop.Idle? && log.cursor.None? then SetLog(w, thread, log.(cursor := Some(log.complete), start := log.complete)) else w
    case Ingest(thread, upTo, interrupted) =>
      var log := LogOf(w, thread);
      if w.loop.Idle? && !interrupted && log.cursor.Some? && log.cursor.value <= upTo <= log.complete <= |log.records| then
        SetLog(w, thread, log.(cursor := Some(upTo)))
          .(rows := EnqueueItems(w.rows, rules, thread, log.records[log.cursor.value..upTo], w.clock))
      else w
    case Prepare(ingress, thread, text, attachments) =>
      if w.loop.Idle? && (forall k :: 0 <= k < |w.rows.ds| ==> w.rows.ds[k].ingress != ingress) then
        var d := Dispatch(ingress, thread, SubmissionDigest(text), attachments, w.clock, Prepared, Unsent, None);
        w.(rows := w.rows.(ds := w.rows.ds + [d]), loop := Inserted(|w.rows.ds|), clock := w.clock + 1)
      else w
    case TurnCompleted(thread, turn) =>
      if w.loop.Idle? then w.(rows := w.rows.(ds := Complete(w.rows.ds, thread, turn))) else w
    case _ => DispatchStep(w, a)
  }

  /** The steps of one dispatch after its row was inserted. */
  function DispatchStep(w: World, a: Action): World {
    if w.loop.Idle? || w.loop.k >= |w.rows.ds| then w
    else
      var d := w.rows.ds[w.loop.k];
      var log := LogOf(w, d.thread);
      match a
      case Snapshot =>
        if w.loop.Inserted? then w.(loop := Snapped(w.loop.k, |log.records|)) else w
      case TakeFence =>
        if w.loop.Snapped? && d.state.Prepared? then
          SetDispatch(w, w.loop.k, d.(state := BytesSending, stage := Stage.Sending), Loop.Sending(w.loop.k, w.loop.snapshot))
        else w
      case Submit(delivered) =>
        if !w.loop.Sending? || !d.state.BytesSending? then w
        else if delivered then
          SetDispatch(w, w.loop.k, d.(stage := Submitted), Confirming(w.loop.k, w.loop.snapshot))
        else SetDispatch(w, w.loop.k, d.(state := OutcomeUnknown), Idle)
      case Search(seen) =>
        if w.loop.Confirming? && d.state.BytesSending? && w.loop.snapshot <= seen <= |log.records| then
          match FirstMatch(log.records[w.loop.snapshot..seen], d)
          case Some(id) => w.(rows := AcceptRow(w.rows, w.loop.k, id), loop := Idle)
          case None => w
        else w
      case GiveUp =>
        if w.loop.Confirming? && d.state.BytesSending? then SetDispatch(w, w.loop.k, d.(state := OutcomeUnknown), Idle) else w
      case _ => w
  }

  function Next(rules: Rules, w: World, a: Action): World {
    match a
    case BeginRecord(thread, item) =>
      var log := LogOf(w, thread);
      if log.complete == |log.records| && !KnownId(log, item.id) then
        SetLog(w, thread, log.(records := log.records + [item]))
      else w
    case FinishRecord(thread) =>
      var log := LogOf(w, thread);
      SetLog(w, thread, log.(complete := |log.records|))
    case Crash => w.(loop := Idle)
    case Tick(ticks) => w.(clock := w.clock + ticks)
    case _ => ServiceStep(rules, w, a)
  }

  function Run(rules: Rules, w: World, actions: seq<Action>): World
    decreases |actions|
  {
    if actions == [] then w else Run(rules, Next(rules, w, actions[0]), actions[1..])
  }

  const START := World(map[], Rows([], {}, []), Idle, 0)

  // ---- What every run keeps ----

  ghost predicate LogInv(log: Log) {
    && log.complete <= |log.records|
    && (log.cursor.Some? ==> log.start <= log.cursor.value <= log.complete)
    && forall i, j :: 0 <= i < j < |log.records| ==> log.records[i].id != log.records[j].id
  }

  ghost predicate Evidence(d: Dispatch, tombstones: set<string>) {
    && (d.bound.Some? <==> d.state.Accepted? || d.state.Completed?)
    && (d.bound.Some? <==> d.ingress in tombstones)
  }

  ghost predicate SameBinding(a: Dispatch, b: Dispatch) {
    a.bound.Some? && a.thread == b.thread && a.bound == b.bound
  }

  ghost predicate RowsInv(t: Rows) {
    && (forall k :: 0 <= k < |t.ds| ==> Evidence(t.ds[k], t.tombstones))
    && (forall i, j :: 0 <= i < j < |t.ds| ==> t.ds[i].ingress != t.ds[j].ingress)
    && (forall x :: x in t.tombstones ==> exists k :: 0 <= k < |t.ds| && t.ds[k].ingress == x)
    && (forall i, j :: 0 <= i < j < |t.ds| ==> !SameBinding(t.ds[i], t.ds[j]))
    && (forall i, j :: 0 <= i < j < |t.queued| ==> t.queued[i] != t.queued[j])
  }

  /** The k-th user item of a thread has been handed to queueing. */
  ghost predicate Handed(t: Rows, thread: string, log: Log, k: nat)
    requires k < |log.records|
  {
    Queued(thread, log.records[k].id) in t.queued
  }

  /** Handed over exactly when ingested after the checkpoint, not hidden, and nobody's return. */
  ghost predicate HandedIff(rules: Rules, t: Rows, thread: string, log: Log, k: nat)
    requires k < |log.records|
  {
    Handed(t, thread, log, k) <==>
    && log.cursor.Some?
    && log.start <= k < log.cursor.value
    && !Hidden(rules, log.records[k])
    && !Recognised(t.ds, thread, log.records[k].id)
  }

  ghost predicate ThreadInv(rules: Rules, t: Rows, thread: string, log: Log) {
    && LogInv(log)
    && (forall k :: 0 <= k < |log.records| ==> HandedIff(rules, t, thread, log, k))
    && (forall id :: Queued(thread, id) in t.queued ==> KnownId(log, id))
    && (forall k :: 0 <= k < |t.ds| && t.ds[k].thread == thread && t.ds[k].bound.Some? ==> KnownId(log, t.ds[k].bound.value))
  }

  /** The snapshot is not behind the cursor, and nothing after it is anybody's return yet. */
  ghost predicate SnapshotInv(t: Rows, thread: string, log: Log, snapshot: nat) {
    && snapshot <= |log.records|
    && (log.cursor.Some? ==> log.cursor.value <= snapshot)
    && forall k :: snapshot <= k < |log.records| ==> !Recognised(t.ds, thread, log.records[k].id)
  }

  ghost predicate LoopInv(w: World) {
    w.loop.Idle? ||
    (&& w.loop.k < |w.rows.ds|
     && var d := w.rows.ds[w.loop.k];
        && (w.loop.Inserted? || w.loop.Snapped? ==> d.state.Prepared?)
        && (w.loop.Sending? ==> d.state.BytesSending? && d.stage.Sending?)
        && (w.loop.Confirming? ==> d.state.BytesSending? && d.stage.Submitted?)
        && (!w.loop.Inserted? ==> SnapshotInv(w.rows, d.thread, LogOf(w, d.thread), w.loop.snapshot)))
  }

  ghost predicate Inv(rules: Rules, w: World) {
    && RowsInv(w.rows)
    && (forall thread :: ThreadInv(rules, w.rows, thread, LogOf(w, thread)))
    && LoopInv(w)
  }

  lemma StartInv(rules: Rules)
    ensures Inv(rules, START)
  {
  }

  // ---- Accepting a return ----

  /** Row k may take id as its return. */
  ghost predicate Claimable(t: Rows, k: nat, id: ItemId) {
    && k < |t.ds|
    && t.ds[k].bound.None?
    && !Recognised(t.ds, t.ds[k].thread, id)
    && Queued(t.ds[k].thread, id) !in t.queued
  }

  lemma RecognisedAfterAccept(t: Rows, k: nat, id: ItemId, thread: string, other: ItemId)
    requires k < |t.ds| && t.ds[k].bound.None?
    ensures Recognised(AcceptRow(t, k, id).ds, thread, other) <==>
            Recognised(t.ds, thread, other) || (thread == t.ds[k].thread && other == id)
  {
    var ds, ds' := t.ds, AcceptRow(t, k, id).ds;
    assert forall j :: 0 <= j < |ds| && j != k ==> ds'[j] == ds[j];
    if j :| 0 <= j < |ds| && IsReturn(ds[j], thread, other) {
      assert IsReturn(ds'[j], thread, other);
    }
    if thread == ds[k].thread && other == id {
      assert IsReturn(ds'[k], thread, other);
    }
    if j :| 0 <= j < |ds'| && IsReturn(ds'[j], thread, other) {
      if j != k { assert IsReturn(ds[j], thread, other); }
    }
  }

  lemma BoundIsRecognised(t: Rows, k: nat)
    requires RowsInv(t) && k < |t.ds| && t.ds[k].bound.Some?
    ensures Recognised(t.ds, t.ds[k].thread, t.ds[k].bound.value)
  {
    assert Evidence(t.ds[k], t.tombstones);
    assert IsReturn(t.ds[k], t.ds[k].thread, t.ds[k].bound.value);
  }

  lemma AcceptKeepsRows(t: Rows, k: nat, id: ItemId)
    requires RowsInv(t) && Claimable(t, k, id)
    ensures RowsInv(AcceptRow(t, k, id))
  {
    hide Recognised;
    var t' := AcceptRow(t, k, id);
    forall j | 0 <= j < |t.ds|
      ensures Evidence(t'.ds[j], t'.tombstones)
      ensures j != k ==> !SameBinding(t'.ds[j], t'.ds[k]) && !SameBinding(t'.ds[k], t'.ds[j])
    {
      assert Evidence(t.ds[j], t.tombstones);
      if t.ds[j].bound.Some? {
        BoundIsRecognised(t, j);
      }
    }
    forall i, j | 0 <= i < j < |t'.ds|
      ensures !SameBinding(t'.ds[i], t'.ds[j]) && t'.ds[i].ingress != t'.ds[j].ingress
    {
      assert t.ds[i].ingress != t.ds[j].ingress;
      if i != k && j != k { assert !SameBinding(t.ds[i], t.ds[j]); }
    }
    forall x | x in t'.tombstones
      ensures exists j :: 0 <= j < |t'.ds| && t'.ds[j].ingress == x
    {
      var j :| 0 <= j < |t.ds| && t.ds[j].ingress == x;
      assert t'.ds[j].ingress == x;
    }
  }

  lemma AcceptKeepsThread(rules: Rules, t: Rows, k: nat, id: ItemId, thread: string, log: Log)
    requires RowsInv(t) && Claimable(t, k, id) && ThreadInv(rules, t, thread, log)
    requires thread == t.ds[k].thread ==> KnownId(log, id)
    ensures ThreadInv(rules, AcceptRow(t, k, id), thread, log)
  {
    hide Recognised, RowsInv;
    var t' := AcceptRow(t, k, id);
    forall j | 0 <= j < |log.records|
      ensures HandedIff(rules, t', thread, log, j)
    {
      RecognisedAfterAccept(t, k, id, thread, log.records[j].id);
      assert HandedIff(rules, t, thread, log, j);
    }
  }

  // ---- Ingesting one more item ----

  lemma EnqueueKeepsRows(rules: Rules, t: Rows, thread: string, item: UserItem, now: nat)
    requires RowsInv(t) && Queued(thread, item.id) !in t.queued
    ensures RowsInv(EnqueueItem(t, rules, thread, item, now))
  {
    hide MatchesSubmission, SubmissionDigest, Recognised, LateClaim;
    if !Hidden(rules, item) && !Recognised(t.ds, thread, item.id) {
      var claim := LateClaim(t.ds, 0, CANDIDATE_LIMIT, thread, Text(rules, item), now);
      if claim.Some? {
        assert Evidence(t.ds[claim.value], t.tombstones);
        AcceptKeepsRows(t, claim.value, item.id);
      }
    }
  }

  /** The item at the cursor is handed over, or recognised, and the cursor moves past it. */
  lemma EnqueueKeepsThread(rules: Rules, t: Rows, thread: string, log: Log, now: nat)
    requires RowsInv(t) && ThreadInv(rules, t, thread, log)
    requires log.cursor.Some? && log.cursor.value < log.complete
    ensures var t' := EnqueueItem(t, rules, thread, log.records[log.cursor.value], now);
            ThreadInv(rules, t', thread, log.(cursor := Some(log.cursor.value + 1)))
  {
    hide MatchesSubmission, SubmissionDigest, Recognised, LateClaim, RowsInv;
    var c := log.cursor.value;
    var item := log.records[c];
    var t' := EnqueueItem(t, rules, thread, item, now);
    var log' := log.(cursor := Some(c + 1));
    assert HandedIff(rules, t, thread, log, c);
    assert Queued(thread, item.id) !in t.queued;
    var claim := LateClaim(t.ds, 0, CANDIDATE_LIMIT, thread, Text(rules, item), now);
    if !Hidden(rules, item) && !Recognised(t.ds, thread, item.id) && claim.Some? {
      UnboundWhileUnknown(t, claim.value);
      AcceptKeepsThread(rules, t, claim.value, item.id, thread, log);
      RecognisedAfterAccept(t, claim.value, item.id, thread, item.id);
    }
    forall j | 0 <= j < |log.records|
      ensures HandedIff(rules, t', thread, log', j)
    {
      assert HandedIff(rules, t, thread, log, j);
      if t'.ds != t.ds { assert HandedIff(rules, t', thread, log, j); }
    }
  }

  lemma UnboundWhileUnknown(t: Rows, k: nat)
    requires RowsInv(t) && k < |t.ds| && t.ds[k].state.OutcomeUnknown?
    ensures t.ds[k].bound.None?
  {
    assert Evidence(t.ds[k], t.tombstones);
  }

  lemma EnqueueKeepsOther(rules: Rules, t: Rows, thread: string, item: UserItem, now: nat, other: string, log: Log)
    requires RowsInv(t) && Queued(thread, item.id) !in t.queued
    requires other != thread && ThreadInv(rules, t, other, log)
    ensures ThreadInv(rules, EnqueueItem(t, rules, thread, item, now), other, log)
  {
    hide MatchesSubmission, SubmissionDigest, Recognised, LateClaim, RowsInv;
    var t' := EnqueueItem(t, rules, thread, item, now);
    var claim := LateClaim(t.ds, 0, CANDIDATE_LIMIT, thread, Text(rules, item), now);
    if !Hidden(rules, item) && !Recognised(t.ds, thread, item.id) && claim.Some? {
      UnboundWhileUnknown(t, claim.value);
      AcceptKeepsThread(rules, t, claim.value, item.id, other, log);
    } else {
      forall j | 0 <= j < |log.records|
        ensures HandedIff(rules, t', other, log, j)
      {
        assert HandedIff(rules, t, other, log, j);
      }
    }
  }

  lemma SliceInit<T>(s: seq<T>, from: nat, end: nat)
    requires from < end <= |s|
    ensures var t := s[from..end]; t[..|t| - 1] == s[from..end - 1] && t[|t| - 1] == s[end - 1]
  {
  }

  lemma {:induction false} IngestKeeps(rules: Rules, t: Rows, thread: string, log: Log, upTo: nat, now: nat,
                                       other: string, otherLog: Log)
    requires RowsInv(t) && ThreadInv(rules, t, thread, log)
    requires log.cursor.Some? && log.cursor.value <= upTo <= log.complete
    requires other != thread ==> ThreadInv(rules, t, other, otherLog)
    ensures var t' := EnqueueItems(t, rules, thread, log.records[log.cursor.value..upTo], now);
            && RowsInv(t')
            && ThreadInv(rules, t', thread, log.(cursor := Some(upTo)))
            && (other != thread ==> ThreadInv(rules, t', other, otherLog))
    decreases upTo
  {
    hide RowsInv, HandedIff, EnqueueItem;
    var c := log.cursor.value;
    var items := log.records[c..upTo];
    if upTo == c {
      assert items == [];
    } else {
      IngestKeeps(rules, t, thread, log, upTo - 1, now, other, otherLog);
      SliceInit(log.records, c, upTo);
      var mid := EnqueueItems(t, rules, thread, items[..|items| - 1], now);
      var log' := log.(cursor := Some(upTo - 1));
      assert items[|items| - 1] == log'.records[upTo - 1];
      NotYetHanded(rules, mid, thread, log', upTo - 1);
      EnqueueKeepsRows(rules, mid, thread, items[|items| - 1], now);
      EnqueueKeepsThread(rules, mid, thread, log', now);
      if other != thread {
        EnqueueKeepsOther(rules, mid, thread, items[|items| - 1], now, other, otherLog);
      }
    }
  }

  lemma NotYetHanded(rules: Rules, t: Rows, thread: string, log: Log, k: nat)
    requires ThreadInv(rules, t, thread, log) && k < |log.records|
    requires log.cursor.Some? ==> log.cursor.value <= k
    ensures Queued(thread, log.records[k].id) !in t.queued
  {
    assert HandedIff(rules, t, thread, log, k);
  }

  // ---- Row updates that leave every return as it is ----

  ghost predicate SameReturns(ds: seq<Dispatch>, ds': seq<Dispatch>) {
    |ds'| == |ds| && forall k :: 0 <= k < |ds| ==>
      && ds'[k].ingress == ds[k].ingress && ds'[k].thread == ds[k].thread && ds'[k].bound == ds[k].bound
      && (ds'[k].state.Accepted? || ds'[k].state.Completed? <==> ds[k].state.Accepted? || ds[k].state.Completed?)
  }

  lemma SameReturnsRecognise(ds: seq<Dispatch>, ds': seq<Dispatch>, thread: string, id: ItemId)
    requires SameReturns(ds, ds')
    ensures Recognised(ds', thread, id) <==> Recognised(ds, thread, id)
  {
    if k :| 0 <= k < |ds| && IsReturn(ds[k], thread, id) {
      assert IsReturn(ds'[k], thread, id);
    }
    if k :| 0 <= k < |ds'| && IsReturn(ds'[k], thread, id) {
      assert IsReturn(ds[k], thread, id);
    }
  }

  lemma SameReturnsKeepRows(t: Rows, ds': seq<Dispatch>)
    requires RowsInv(t) && SameReturns(t.ds, ds')
    ensures RowsInv(t.(ds := ds'))
  {
    forall k | 0 <= k < |ds'| ensures Evidence(ds'[k], t.tombstones) {
      assert Evidence(t.ds[k], t.tombstones);
    }
    forall i, j | 0 <= i < j < |ds'| ensures !SameBinding(ds'[i], ds'[j]) {
      assert !SameBinding(t.ds[i], t.ds[j]);
    }
    forall x | x in t.tombstones ensures exists k :: 0 <= k < |ds'| && ds'[k].ingress == x {
      var k :| 0 <= k < |t.ds| && t.ds[k].ingress == x;
      assert ds'[k].ingress == x;
    }
  }

  lemma SameReturnsKeepThread(rules: Rules, t: Rows, ds': seq<Dispatch>, thread: string, log: Log)
    requires ThreadInv(rules, t, thread, log) && SameReturns(t.ds, ds')
    ensures ThreadInv(rules, t.(ds := ds'), thread, log)
  {
    hide Recognised;
    forall k | 0 <= k < |log.records| ensures HandedIff(rules, t.(ds := ds'), thread, log, k) {
      SameReturnsRecognise(t.ds, ds', thread, log.records[k].id);
      assert HandedIff(rules, t, thread, log, k);
    }
  }

  lemma SameReturnsKeepSnapshot(t: Rows, ds': seq<Dispatch>, thread: string, log: Log, snapshot: nat)
    requires SnapshotInv(t, thread, log, snapshot) && SameReturns(t.ds, ds')
    ensures SnapshotInv(t.(ds := ds'), thread, log, snapshot)
  {
    hide Recognised;
    forall k | snapshot <= k < |log.records| ensures !Recognised(ds', thread, log.records[k].id) {
      SameReturnsRecognise(t.ds, ds', thread, log.records[k].id);
    }
  }

  // ---- Every step keeps the invariant ----

  lemma SetDispatchKeepsInv(rules: Rules, w: World, d: Dispatch, loop: Loop)
    requires Inv(rules, w) && !w.loop.Idle?
    requires SameReturns(w.rows.ds, w.rows.ds[w.loop.k := d])
    requires loop.Idle? ||
             (&& loop.k == w.loop.k && !loop.Inserted? && !w.loop.Inserted? && loop.snapshot == w.loop.snapshot
              && (loop.Snapped? ==> d.state.Prepared?)
              && (loop.Sending? ==> d.state.BytesSending? && d.stage.Sending?)
              && (loop.Confirming? ==> d.state.BytesSending? && d.stage.Submitted?))
    ensures Inv(rules, SetDispatch(w, w.loop.k, d, loop))
  {
    hide RowsInv, ThreadInv, SnapshotInv, SameReturns;
    var w' := SetDispatch(w, w.loop.k, d, loop);
    SameReturnsKeepRows(w.rows, w'.rows.ds);
    forall thread ensures ThreadInv(rules, w'.rows, thread, LogOf(w', thread)) {
      assert LogOf(w', thread) == LogOf(w, thread);
      SameReturnsKeepThread(rules, w.rows, w'.rows.ds, thread, LogOf(w, thread));
    }
    if !loop.Idle? {
      var thread := w.rows.ds[w.loop.k].thread;
      assert d.thread == thread by { SameReturnsThread(w.rows.ds, w'.rows.ds, w.loop.k); }
      SameReturnsKeepSnapshot(w.rows, w'.rows.ds, thread, LogOf(w, thread), w.loop.snapshot);
    }
  }

  lemma SameReturnsThread(ds: seq<Dispatch>, ds': seq<Dispatch>, k: nat)
    requires SameReturns(ds, ds') && k < |ds|
    ensures ds'[k].thread == ds[k].thread
  {
  }

  lemma SnapshotKeepsInv(rules: Rules, w: World)
    requires Inv(rules, w)
    ensures Inv(rules, DispatchStep(w, Snapshot))
  {
    hide RowsInv, HandedIff, Recognised;
    if w.loop.Inserted? {
      var w' := DispatchStep(w, Snapshot);
      assert LogInv(LogOf(w, w.rows.ds[w.loop.k].thread));
      forall thread ensures ThreadInv(rules, w'.rows, thread, LogOf(w', thread)) {
        assert LogOf(w', thread) == LogOf(w, thread);
      }
    }
  }

  lemma {:induction false} FirstMatchIsRecorded(records: seq<UserItem>, d: Dispatch)
    ensures var id := FirstMatch(records, d);
            id.Some? ==> exists k :: 0 <= k < |records| && records[k].id == id.value
    decreases |records|
  {
    hide MatchesSubmission;
    if records != [] && !MatchesSubmission(records[0].raw, d.digest, d.attachments) {
      FirstMatchIsRecorded(records[1..], d);
      assert forall k :: 0 <= k < |records[1..]| ==> records[1..][k] == records[k + 1];
    }
  }

  lemma SearchKeepsInv(rules: Rules, w: World, seen: nat)
    requires Inv(rules, w)
    ensures Inv(rules, DispatchStep(w, Search(seen)))
  {
    hide MatchesSubmission, FirstMatch, RowsInv, ThreadInv, Recognised;
    var w' := DispatchStep(w, Search(seen));
    if w' != w {
      var k := w.loop.k;
      var d := w.rows.ds[k];
      var log := LogOf(w, d.thread);
      var after := log.records[w.loop.snapshot..seen];
      var id := FirstMatch(after, d).value;
      FirstMatchIsRecorded(after, d);
      var j :| 0 <= j < |after| && after[j].id == id;
      assert log.records[w.loop.snapshot + j].id == id;
      SearchClaims(rules, w, w.loop.snapshot + j);
      AcceptKeepsRows(w.rows, k, id);
      forall thread ensures ThreadInv(rules, w'.rows, thread, LogOf(w', thread)) {
        assert LogOf(w', thread) == LogOf(w, thread);
        AcceptKeepsThread(rules, w.rows, k, id, thread, LogOf(w, thread));
      }
    }
  }

  /** What a dispatch finds after its snapshot is nobody else's return and was never handed over. */
  lemma SearchClaims(rules: Rules, w: World, j: nat)
    requires Inv(rules, w) && w.loop.Confirming?
    requires w.loop.snapshot <= j < |LogOf(w, w.rows.ds[w.loop.k].thread).records|
    ensures var d := w.rows.ds[w.loop.k];
            Claimable(w.rows, w.loop.k, LogOf(w, d.thread).records[j].id)
  {
    hide Recognised;
    var d := w.rows.ds[w.loop.k];
    var log := LogOf(w, d.thread);
    assert Evidence(d, w.rows.tombstones);
    NotYetHanded(rules, w.rows, d.thread, log, j);
  }

  lemma PrepareKeepsInv(rules: Rules, w: World, a: Action)
    requires Inv(rules, w) && a.Prepare?
    ensures Inv(rules, ServiceStep(rules, w, a))
  {
    hide SubmissionDigest;
    var w' := ServiceStep(rules, w, a);
    if w' != w {
      var ds, ds' := w.rows.ds, w'.rows.ds;
      assert ds' == ds + [ds'[|ds|]];
      NewRowKeepsRows(w.rows, ds'[|ds|]);
      forall thread ensures ThreadInv(rules, w'.rows, thread, LogOf(w', thread)) {
        assert LogOf(w', thread) == LogOf(w, thread);
        NewRowKeepsThread(rules, w.rows, ds'[|ds|], thread, LogOf(w, thread));
      }
    }
  }

  lemma NewRowKeepsRows(t: Rows, d: Dispatch)
    requires RowsInv(t) && d.bound.None? && !d.state.Accepted? && !d.state.Completed?
    requires forall k :: 0 <= k < |t.ds| ==> t.ds[k].ingress != d.ingress
    ensures RowsInv(t.(ds := t.ds + [d]))
  {
    var ds' := t.ds + [d];
    assert forall k :: 0 <= k < |t.ds| ==> ds'[k] == t.ds[k];
    forall k | 0 <= k < |ds'| ensures Evidence(ds'[k], t.tombstones) {
      if k < |t.ds| { assert Evidence(t.ds[k], t.tombstones); }
    }
    forall i, j | 0 <= i < j < |ds'| ensures !SameBinding(ds'[i], ds'[j]) {
      if j < |t.ds| { assert !SameBinding(t.ds[i], t.ds[j]); }
    }
    forall x | x in t.tombstones ensures exists k :: 0 <= k < |ds'| && ds'[k].ingress == x {
      var k :| 0 <= k < |t.ds| && t.ds[k].ingress == x;
      assert ds'[k].ingress == x;
    }
  }

  lemma NewRowRecognises(ds: seq<Dispatch>, d: Dispatch, thread: string, id: ItemId)
    requires d.bound.None?
    ensures Recognised(ds + [d], thread, id) <==> Recognised(ds, thread, id)
  {
    if k :| 0 <= k < |ds| && IsReturn(ds[k], thread, id) {
      assert IsReturn((ds + [d])[k], thread, id);
    }
  }

  lemma NewRowKeepsThread(rules: Rules, t: Rows, d: Dispatch, thread: string, log: Log)
    requires ThreadInv(rules, t, thread, log) && d.bound.None?
    ensures ThreadInv(rules, t.(ds := t.ds + [d]), thread, log)
  {
    hide Recognised;
    forall k | 0 <= k < |log.records| ensures HandedIff(rules, t.(ds := t.ds + [d]), thread, log, k) {
      NewRowRecognises(t.ds, d, thread, log.records[k].id);
      assert HandedIff(rules, t, thread, log, k);
    }
  }

  lemma BeginKeepsInv(rules: Rules, w: World, thread: string, item: UserItem)
    requires Inv(rules, w)
    ensures Inv(rules, Next(rules, w, BeginRecord(thread, item)))
  {
    hide RowsInv;
    var log := LogOf(w, thread);
    var w' := Next(rules, w, BeginRecord(thread, item));
    if w' != w {
      BeginKeepsThread(rules, w.rows, thread, log, item);
      forall other ensures ThreadInv(rules, w'.rows, other, LogOf(w', other)) {
        assert other != thread ==> LogOf(w', other) == LogOf(w, other);
      }
      NotRecognisedYet(rules, w.rows, thread, log, item.id);
    }
  }

  lemma NotRecognisedYet(rules: Rules, t: Rows, thread: string, log: Log, id: ItemId)
    requires ThreadInv(rules, t, thread, log) && !KnownId(log, id)
    ensures !Recognised(t.ds, thread, id)
  {
    hide HandedIff;
  }

  lemma BeginKeepsThread(rules: Rules, t: Rows, thread: string, log: Log, item: UserItem)
    requires ThreadInv(rules, t, thread, log) && log.complete == |log.records| && !KnownId(log, item.id)
    ensures ThreadInv(rules, t, thread, log.(records := log.records + [item]))
  {
    hide Recognised;
    var log' := log.(records := log.records + [item]);
    NotRecognisedYet(rules, t, thread, log, item.id);
    forall k | 0 <= k < |log'.records| ensures HandedIff(rules, t, thread, log', k) {
      if k < |log.records| { assert HandedIff(rules, t, thread, log, k); }
    }
    forall id | KnownId(log, id) ensures KnownId(log', id) {
      var k :| 0 <= k < |log.records| && log.records[k].id == id;
      assert log'.records[k].id == id;
    }
  }

  lemma FinishKeepsInv(rules: Rules, w: World, thread: string)
    requires Inv(rules, w)
    ensures Inv(rules, Next(rules, w, FinishRecord(thread)))
  {
    hide RowsInv, Recognised;
    var w' := Next(rules, w, FinishRecord(thread));
    forall other ensures ThreadInv(rules, w'.rows, other, LogOf(w', other)) {
      MarksKeepThread(rules, w.rows, other, LogOf(w, other), LogOf(w', other));
    }
  }

  lemma CheckpointKeepsInv(rules: Rules, w: World, thread: string)
    requires Inv(rules, w)
    ensures Inv(rules, ServiceStep(rules, w, Checkpoint(thread)))
  {
    hide RowsInv, Recognised;
    var w' := ServiceStep(rules, w, Checkpoint(thread));
    forall other ensures ThreadInv(rules, w'.rows, other, LogOf(w', other)) {
      MarksKeepThread(rules, w.rows, other, LogOf(w, other), LogOf(w', other));
    }
  }

  lemma MarksKeepThread(rules: Rules, t: Rows, thread: string, log: Log, log': Log)
    requires ThreadInv(rules, t, thread, log) && log'.records == log.records && log.complete <= log'.complete <= |log.records|
    requires (log'.cursor == log.cursor && log'.start == log.start) ||
             (log.cursor.None? && log'.cursor == Some(log'.start) && log'.start == log'.complete)
    ensures ThreadInv(rules, t, thread, log')
  {
    hide Recognised;
    forall k | 0 <= k < |log.records| ensures HandedIff(rules, t, thread, log', k) {
      assert HandedIff(rules, t, thread, log, k);
    }
    forall id | KnownId(log, id) ensures KnownId(log', id) {
      var k :| 0 <= k < |log.records| && log.records[k].id == id;
      assert log'.records[k].id == id;
    }
  }

  lemma IngestKeepsInv(rules: Rules, w: World, a: Action)
    requires Inv(rules, w) && a.Ingest?
    ensures Inv(rules, ServiceStep(rules, w, a))
  {
    hide RowsInv, HandedIff, EnqueueItems;
    var w' := ServiceStep(rules, w, a);
    if w' != w {
      var log := LogOf(w, a.thread);
      IngestKeeps(rules, w.rows, a.thread, log, a.upTo, w.clock, a.thread, log);
      forall other ensures ThreadInv(rules, w'.rows, other, LogOf(w', other)) {
        IngestKeeps(rules, w.rows, a.thread, log, a.upTo, w.clock, other, LogOf(w, other));
        assert other != a.thread ==> LogOf(w', other) == LogOf(w, other);
      }
    }
  }

  lemma CompleteKeepsInv(rules: Rules, w: World, thread: string, turn: string)
    requires Inv(rules, w)
    ensures Inv(rules, ServiceStep(rules, w, TurnCompleted(thread, turn)))
  {
    hide RowsInv, ThreadInv, Recognised;
    var w' := ServiceStep(rules, w, TurnCompleted(thread, turn));
    if w.loop.Idle? {
      SameReturnsKeepRows(w.rows, w'.rows.ds);
      forall other ensures ThreadInv(rules, w'.rows, other, LogOf(w', other)) {
        assert LogOf(w', other) == LogOf(w, other);
        SameReturnsKeepThread(rules, w.rows, w'.rows.ds, other, LogOf(w, other));
      }
    }
  }

  lemma DispatchStepKeepsInv(rules: Rules, w: World, a: Action)
    requires Inv(rules, w)
    ensures Inv(rules, DispatchStep(w, a))
  {
    hide RowsInv, ThreadInv, SnapshotInv, FirstMatch;
    if a.Snapshot? {
      SnapshotKeepsInv(rules, w);
    } else if a.Search? {
      SearchKeepsInv(rules, w, a.seen);
    } else if !w.loop.Idle? {
      var d := w.rows.ds[w.loop.k];
      if a.TakeFence? && w.loop.Snapped? {
        SetDispatchKeepsInv(rules, w, d.(state := BytesSending, stage := Stage.Sending), Loop.Sending(w.loop.k, w.loop.snapshot));
      } else if a.Submit? && w.loop.Sending? {
        SetDispatchKeepsInv(rules, w, d.(stage := Submitted), Confirming(w.loop.k, w.loop.snapshot));
        SetDispatchKeepsInv(rules, w, d.(state := OutcomeUnknown), Idle);
      } else if a.GiveUp? && w.loop.Confirming? {
        SetDispatchKeepsInv(rules, w, d.(state := OutcomeUnknown), Idle);
      }
    }
  }

  lemma NextKeepsInv(rules: Rules, w: World, a: Action)
    requires Inv(rules, w)
    ensures Inv(rules, Next(rules, w, a))
  {
    hide RowsInv, ThreadInv, SnapshotInv, EnqueueItems, DispatchStep, LogOf, Complete;
    match a {
      case BeginRecord(thread, item) => BeginKeepsInv(rules, w, thread, item);
      case FinishRecord(thread) => FinishKeepsInv(rules, w, thread);
      case Checkpoint(thread) => CheckpointKeepsInv(rules, w, thread);
      case Ingest(_, _, _) => IngestKeepsInv(rules, w, a);
      case Prepare(_, _, _, _) => PrepareKeepsInv(rules, w, a);
      case TurnCompleted(thread, turn) => CompleteKeepsInv(rules, w, thread, turn);
      case Crash => LoopAndClockKeepInv(rules, w, Idle, w.clock);
      case Tick(ticks) => LoopAndClockKeepInv(rules, w, w.loop, w.clock + ticks);
      case _ => DispatchStepKeepsInv(rules, w, a);
    }
  }

  lemma LoopAndClockKeepInv(rules: Rules, w: World, loop: Loop, clock: nat)
    requires Inv(rules, w) && (loop.Idle? || loop == w.loop)
    ensures Inv(rules, w.(loop := loop, clock := clock))
  {
    hide RowsInv, ThreadInv, SnapshotInv;
    var w' := w.(loop := loop, clock := clock);
    forall thread ensures LogOf(w', thread) == LogOf(w, thread) && ThreadInv(rules, w'.rows, thread, LogOf(w', thread)) {
    }
  }

  lemma {:induction false} RunKeepsInv(rules: Rules, w: World, actions: seq<Action>)
    requires Inv(rules, w)
    ensures Inv(rules, Run(rules, w, actions))
    decreases |actions|
  {
    hide Inv, Next;
    if actions != [] {
      NextKeepsInv(rules, w, actions[0]);
      RunKeepsInv(rules, Next(rules, w, actions[0]), actions[1..]);
    }
  }

  // ---- Nothing is taken back ----

  ghost predicate Extends(t: Rows, t': Rows) {
    && |t.ds| <= |t'.ds|
    && (forall k :: 0 <= k < |t.ds| ==>
          && t'.ds[k].ingress == t.ds[k].ingress && t'.ds[k].thread == t.ds[k].thread && t'.ds[k].created == t.ds[k].created
          && (t.ds[k].bound.Some? ==> t'.ds[k].bound == t.ds[k].bound))
    && t.tombstones <= t'.tombstones
    && t.queued <= t'.queued
  }

  lemma EnqueueExtends(rules: Rules, t: Rows, thread: string, item: UserItem, now: nat)
    requires RowsInv(t)
    ensures Extends(t, EnqueueItem(t, rules, thread, item, now))
  {
    hide MatchesSubmission, SubmissionDigest, Recognised, LateClaim, RowsInv;
    var claim := LateClaim(t.ds, 0, CANDIDATE_LIMIT, thread, Text(rules, item), now);
    if claim.Some? {
      UnboundWhileUnknown(t, claim.value);
    }
  }

  lemma {:induction false} IngestExtends(rules: Rules, t: Rows, thread: string, log: Log, upTo: nat, now: nat)
    requires RowsInv(t) && ThreadInv(rules, t, thread, log)
    requires log.cursor.Some? && log.cursor.value <= upTo <= log.complete
    ensures Extends(t, EnqueueItems(t, rules, thread, log.records[log.cursor.value..upTo], now))
    decreases upTo
  {
    hide RowsInv, EnqueueItem, HandedIff;
    var items := log.records[log.cursor.value..upTo];
    if items != [] {
      SliceInit(log.records, log.cursor.value, upTo);
      IngestExtends(rules, t, thread, log, upTo - 1, now);
      IngestKeeps(rules, t, thread, log, upTo - 1, now, thread, log);
      EnqueueExtends(rules, EnqueueItems(t, rules, thread, items[..|items| - 1], now), thread, items[|items| - 1], now);
    }
  }

  /** A return stays the return it is, and what was handed over stays handed over, in order. */
  lemma NothingIsTakenBack(rules: Rules, w: World, a: Action)
    requires Inv(rules, w)
    ensures Extends(w.rows, Next(rules, w, a).rows)
  {
    hide MatchesSubmission, SubmissionDigest, ThreadInv, RowsInv, EnqueueItems, FirstMatch;
    if a.Ingest? {
      var log := LogOf(w, a.thread);
      if log.cursor.Some? && log.cursor.value <= a.upTo <= log.complete {
        assert ThreadInv(rules, w.rows, a.thread, log);
        IngestExtends(rules, w.rows, a.thread, log, a.upTo, w.clock);
      }
    } else if a.Search? && !w.loop.Idle? {
      UnboundWhileSending(w.rows, w.loop.k);
    }
  }

  lemma UnboundWhileSending(t: Rows, k: nat)
    requires RowsInv(t) && k < |t.ds|
    ensures t.ds[k].state.BytesSending? ==> t.ds[k].bound.None?
  {
    assert Evidence(t.ds[k], t.tombstones);
  }

  // ---- Main results ----

  /** Nothing is returned twice, and every return left its tombstone. */
  lemma ReturnsAreUnique(rules: Rules, actions: seq<Action>)
    ensures var t := Run(rules, START, actions).rows;
            && (forall i, j :: 0 <= i < j < |t.ds| && t.ds[i].bound.Some? && t.ds[i].thread == t.ds[j].thread ==>
                  t.ds[i].bound != t.ds[j].bound)
            && (forall k :: 0 <= k < |t.ds| ==>
                  (t.ds[k].ingress in t.tombstones <==> t.ds[k].state.Accepted? || t.ds[k].state.Completed?))
  {
    hide Next, ThreadInv, LoopInv;
    StartInv(rules);
    RunKeepsInv(rules, START, actions);
    var t := Run(rules, START, actions).rows;
    forall i, j | 0 <= i < j < |t.ds| && t.ds[i].bound.Some? && t.ds[i].thread == t.ds[j].thread
      ensures t.ds[i].bound != t.ds[j].bound
    {
      assert !SameBinding(t.ds[i], t.ds[j]);
    }
    forall k | 0 <= k < |t.ds|
      ensures t.ds[k].ingress in t.tombstones <==> t.ds[k].state.Accepted? || t.ds[k].state.Completed?
    {
      assert Evidence(t.ds[k], t.tombstones);
    }
  }

  /**
   In every run: no returned item is ever handed to queueing, and every other user item between
   the checkpoint and the cursor that is not hidden is handed over exactly once.
   */
  lemma EchoIsNeverMirrored(rules: Rules, actions: seq<Action>, thread: string, k: nat)
    requires k < |LogOf(Run(rules, START, actions), thread).records|
    ensures var w := Run(rules, START, actions);
            var log := LogOf(w, thread);
            var handed := multiset(w.rows.queued)[Queued(thread, log.records[k].id)];
            var returned := exists d :: d in w.rows.ds && d.thread == thread && d.bound == Some(log.records[k].id);
            && (returned ==> handed == 0)
            && (log.cursor.Some? && log.start <= k < log.cursor.value && !Hidden(rules, log.records[k]) && !returned ==>
                  handed == 1)
            && (log.cursor.None? || k < log.start || log.cursor.value <= k || Hidden(rules, log.records[k]) ==>
                  handed == 0)
  {
    hide Next, LoopInv;
    StartInv(rules);
    RunKeepsInv(rules, START, actions);
    var w := Run(rules, START, actions);
    var log := LogOf(w, thread);
    var id := log.records[k].id;
    assert HandedIff(rules, w.rows, thread, log, k);
    NoRepeats(w.rows.queued, Queued(thread, id));
    ReturnedIsRecognised(w.rows, thread, id);
  }

  lemma ReturnedIsRecognised(t: Rows, thread: string, id: ItemId)
    requires RowsInv(t)
    ensures Recognised(t.ds, thread, id) <==> exists d :: d in t.ds && d.thread == thread && d.bound == Some(id)
  {
    if d :| d in t.ds && d.thread == thread && d.bound == Some(id) {
      var k :| 0 <= k < |t.ds| && t.ds[k] == d;
      BoundIsRecognised(t, k);
    }
    if k :| 0 <= k < |t.ds| && IsReturn(t.ds[k], thread, id) {
      assert t.ds[k] in t.ds;
    }
  }

  lemma {:induction false} NoRepeats<T>(s: seq<T>, x: T)
    requires forall i, j :: 0 <= i < j < |s| ==> s[i] != s[j]
    ensures multiset(s)[x] == if x in s then 1 else 0
    decreases |s|
  {
    if s != [] {
      var init, last := s[..|s| - 1], s[|s| - 1];
      assert s == init + [last];
      NoRepeats(init, x);
    }
  }
}
