/**
 What becomes of an outbox row: the state a run leaves it in is the one that the last thing that happened to
 it calls for, told from the answers of the provider and not from the code that records them.
 */
module OutboxOutcomes {
  import opened Options
  import opened OutboxCards
  import opened Outbox
  import opened OutboxRuns

  /** A state that something puts a row in, with a message id and a time for the next attempt if it gives one. */
  datatype Outcome = Outcome(state: State, message: Option<string>, due: Option<int>)

  function To(state: State): Outcome {
    Outcome(state, None, None)
  }

  /** A final answer that is given up is kept apart from everything else. */
  function GivenUp(row: Row): Outcome {
    To(if row.operation == Final then FinalUndelivered else Permanent)
  }

  /** A key is still missing in the body. */
  predicate Incomplete(body: Body) {
    None in KeysOf(body)
  }

  /** What a worker pass over the row comes to. */
  function PassOutcome(row: Row, now: int, env: Env): Outcome {
    if env.crash.AfterLease? then To(Leased)
    else if env.route.NoBinding? then To(Permanent)
    else if env.route.WrongAncestry? then GivenUp(row)
    else if Incomplete(row.body) then UploadOutcome(row, now, env)
    else if env.crash.AfterSend? then To(Leased)
    else AnswerOutcome(row, env.answer)
  }

  function UploadOutcome(row: Row, now: int, env: Env): Outcome {
    match env.upload
    case UploadRefused => GivenUp(row)
    case UploadLater(due) => Outcome(Retryable, None, Some(due))
    case Uploaded(key) =>
      if key == "" then GivenUp(row)
      else if env.crash.AfterUpload? then To(Leased)
      else Outcome(Retryable, None, Some(now))
  }

  /** A send without an answer leaves the outcome unknown; only titles cannot be looked up again. */
  function AnswerOutcome(row: Row, answer: Answer): Outcome {
    match answer
    case Refused => GivenUp(row)
    case NoAnswer => To(if row.operation == AnchorTitle then DeliveryIndeterminate else Unknown)
    case SendLater(due) => Outcome(Retryable, None, Some(due))
    case Delivered(message) => Outcome(Confirmed, if row.operation == AnchorTitle then None else message, None)
  }

  /** The row that a lease takes: due, its turn's earlier rows finished, and first of those. */
  ghost predicate Picked(rows: seq<Row>, now: int, id: nat) {
    IsChoice(rows, now, Some(id))
  }

  predicate Lapsed(row: Row, now: int) {
    row.state.Leased? && row.expires.Some? && row.expires.value <= now
  }

  predicate Holds(row: Row, owner: string) {
    row.state.Leased? && row.owner == Some(owner)
  }

  predicate TakesKey(body: Body, ordinal: nat) {
    match body
    case PlainText(_) => false
    case ImageFile(key) => key == None
    case AttachedFile(key) => key == None
    case Card(_, keys) => ordinal < |keys| && keys[ordinal] == None
  }

  /** The history names exactly one message that fits the row. */
  ghost predicate OneMatch(pages: seq<Page>, message: string) {
    exists n: nat :: EndsAt(pages, n) && pages[n].Page? && !pages[n].hasMore && AllMatches(pages[..n + 1]) == [message]
  }

  predicate InWindow(row: Row, now: int, window: Option<int>) {
    window.Some? && row.firstAttempt.Some? && now - row.firstAttempt.value <= window.value
  }

  ghost predicate Confirmable(history: Option<seq<Page>>, message: string) {
    history.Some? && OneMatch(history.value, message)
  }

  /** The search through the history came to an end, or there is none. */
  ghost predicate Searched(history: Option<seq<Page>>) {
    history.None? || exists n: nat :: EndsAt(history.value, n)
  }

  ghost predicate ReconcilesTo(row: Row, now: int, window: Option<int>, history: Option<seq<Page>>, o: Outcome) {
    row.state.Unknown? &&
    if InWindow(row, now, window) then o == Outcome(Retryable, None, Some(now))
    else if exists m :: Confirmable(history, m) then
      o.state == Confirmed && o.message.Some? && o.due.None? && Confirmable(history, o.message.value)
    else Searched(history) && o == To(DeliveryIndeterminate)
  }

  /** The action puts row id into the state of o. */
  ghost predicate Happens(rows: seq<Row>, a: Action, id: nat, o: Outcome)
    requires id < |rows|
  {
    var row := rows[id];
    match a
    case Enqueue(_, _, _, _, _, _) => false
    case WorkerPass(owner, until, now, env) =>
      (Picked(rows, now, id) && o == PassOutcome(row, now, env)) || (Lapsed(row, now) && o == To(Unknown))
    case LeaseOnly(owner, until, now) =>
      (Picked(rows, now, id) && o == To(Leased)) || (Lapsed(row, now) && o == To(Unknown))
    case FinishOnly(which, owner, state, message, due) =>
      which == id && Holds(row, owner) && !state.Pending? && !state.Leased? && o == Outcome(state, message, due)
    case StageOnly(which, owner, ordinal, key, now) =>
      which == id && Holds(row, owner) && key != "" && TakesKey(row.body, ordinal) && o == Outcome(Retryable, None, Some(now))
    case ReconcileRow(which, now, window, history) => which == id && ReconcilesTo(row, now, window, history, o)
    case Retire(hit) => (row.state.Pending? || row.state.Retryable?) && hit(row) && o == To(Permanent)
  }

  ghost predicate Arrived(row: Row, row': Row, o: Outcome) {
    && row'.state == o.state
    && row'.message == (if o.message.Some? then o.message else row.message)
    && row'.due == (if o.due.Some? then o.due.value else row.due)
  }

  /** A lease is held exactly while the row is leased, by who took it and until when. */
  ghost predicate LeaseFits(row: Row) {
    row.state.Leased? <==> row.owner.Some? && row.expires.Some?
  }

  // ---- One action and one row ----

  lemma MissingIffIncomplete(body: Body)
    ensures NextUpload(body).Some? <==> Incomplete(body)
  {
    if body.Card? {
      var first := FirstMissing(body.keys);
      if first.Some? { assert body.keys[first.value] == None; }
    }
  }

  lemma TakesKeyIff(body: Body, ordinal: nat, key: string)
    ensures WithKey(body, ordinal, key).Some? <==> TakesKey(body, ordinal)
  {
  }

  lemma NextIsMissing(body: Body)
    ensures NextUpload(body).Some? ==> TakesKey(body, NextUpload(body).value)
  {
  }

  lemma ExpiryKeepsDue(rows: seq<Row>, now: int, k: nat)
    requires k < |rows|
    ensures Due(Expire(rows, now), k, now) <==> Due(rows, k, now)
  {
    var rows' := Expire(rows, now);
    assert forall e :: 0 <= e < |rows| ==>
             rows'[e].turn == rows[e].turn && rows'[e].due == rows[e].due && (Over(rows'[e].state) <==> Over(rows[e].state));
    assert rows'[k].state.Pending? == rows[k].state.Pending? && rows'[k].state.Retryable? == rows[k].state.Retryable?;
  }

  lemma ExpiryKeepsChoice(rows: seq<Row>, now: int, choice: Option<nat>)
    ensures IsChoice(Expire(rows, now), now, choice) <==> IsChoice(rows, now, choice)
  {
    hide Due;
    forall k | 0 <= k < |rows|
      ensures Due(Expire(rows, now), k, now) <==> Due(rows, k, now)
      ensures Expire(rows, now)[k].priority == rows[k].priority
    {
      ExpiryKeepsDue(rows, now, k);
    }
  }

  /** What a lease does to row id. */
  lemma LeaseOutcome(rows: seq<Row>, owner: string, until: int, now: int, id: nat)
    requires id < |rows|
    ensures var leased := Lease(rows, owner, until, now);
            && (leased.id == Some(id) <==> Picked(rows, now, id))
            && (Picked(rows, now, id) ==> leased.rows[id] == Take(rows[id], owner, until, now))
            && (!Picked(rows, now, id) ==>
                  leased.rows[id] == if Lapsed(rows[id], now) then Release(rows[id]).(state := Unknown) else rows[id])
  {
    hide Due;
    var leased := Lease(rows, owner, until, now);
    LeasesTheChoice(rows, owner, until, now);
    ExpiryKeepsChoice(rows, now, leased.id);
    if Picked(rows, now, id) {
      OneChoice(rows, now, leased.id, Some(id));
    }
  }

  /** Row id of a pass's lease arrives where o says, with its lease ended unless it is still leased; no other row changes. */
  ghost predicate Settles(rows: seq<Row>, rows': seq<Row>, id: nat, o: Outcome)
    requires id < |rows|
  {
    && |rows'| == |rows| && (forall k :: 0 <= k < |rows| && k != id ==> rows'[k] == rows[k])
    && Arrived(rows[id], rows'[id], o)
    && rows'[id].attempts == rows[id].attempts && rows'[id].firstAttempt == rows[id].firstAttempt
    && rows'[id].owner == (if rows'[id].state.Leased? then rows[id].owner else None)
    && rows'[id].expires == (if rows'[id].state.Leased? then rows[id].expires else None)
  }

  lemma UploadSettles(rows: seq<Row>, id: nat, now: int, env: Env)
    requires id < |rows| && rows[id].state.Leased? && NextUpload(rows[id].body).Some?
    ensures Settles(rows, UploadPhase(rows, id, NextUpload(rows[id].body).value, now, env), id, UploadOutcome(rows[id], now, env))
  {
    hide NextUpload, WithKey, TakesKey;
    NextIsMissing(rows[id].body);
    if env.upload.Uploaded? {
      TakesKeyIff(rows[id].body, NextUpload(rows[id].body).value, env.upload.key);
    }
  }

  lemma SendSettles(rows: seq<Row>, id: nat, env: Env)
    requires id < |rows| && rows[id].state.Leased?
    ensures Settles(rows, SendPhase(rows, id, env), id,
                    if env.crash.AfterSend? then To(Leased) else AnswerOutcome(rows[id], env.answer))
  {
  }

  /** The work on a leased row brings it where the pass's outcome says, and touches no other row. */
  lemma WorkOutcome(rows: seq<Row>, id: nat, now: int, env: Env, row: Row)
    requires id < |rows| && rows[id].state.Leased? && SlotsHaveImages(rows[id].body)
    requires row.body == rows[id].body && row.operation == rows[id].operation
    ensures Settles(rows, Work(rows, id, now, env).rows, id, PassOutcome(row, now, env))
  {
    hide NextUpload, Incomplete, Outgoing, SlotsHaveImages, UploadPhase, SendPhase, Settles, Finished, AnswerOutcome, UploadOutcome;
    MissingIffIncomplete(row.body);
    SendSettles(rows, id, env);
    FinishSettles(rows, id, Permanent);
    FinishSettles(rows, id, Refusal(rows[id].operation));
    SameOutcomes(row, rows[id], now, env);
    if NextUpload(row.body).Some? {
      UploadSettles(rows, id, now, env);
    } else {
      CardsAreComplete(row.body);
    }
  }

  lemma FinishSettles(rows: seq<Row>, id: nat, state: State)
    requires id < |rows| && rows[id].state.Leased? && !state.Leased?
    ensures Settles(rows, Finished(rows, id, state, None, None), id, To(state)) && Settles(rows, rows, id, To(Leased))
  {
  }

  lemma SameOutcomes(row: Row, row': Row, now: int, env: Env)
    requires row'.operation == row.operation
    ensures AnswerOutcome(row, env.answer) == AnswerOutcome(row', env.answer)
    ensures UploadOutcome(row, now, env) == UploadOutcome(row', now, env)
  {
  }

  /** How the fields of a lease go with the state. */
  ghost predicate Accounted(rows: seq<Row>, a: Action, id: nat, row': Row)
    requires id < |rows|
  {
    var row := rows[id];
    var picked := (a.WorkerPass? || a.LeaseOnly?) && Picked(rows, a.now, id);
    && row'.attempts == row.attempts + (if picked then 1 else 0)
    && row'.firstAttempt == (if row.firstAttempt.Some? then row.firstAttempt else if picked then Some(a.now) else None)
    && (picked && row'.state.Leased? ==> row'.owner == Some(a.owner) && row'.expires == Some(a.until))
    && (!row'.state.Leased? && row'.state != row.state ==> row'.owner == row.owner || row'.owner.None?)
  }

  lemma PassHappens(rows: seq<Row>, a: Action, id: nat)
    requires RowsInv(rows) && id < |rows| && a.WorkerPass?
    ensures var rows' := RunOnce(rows, a.owner, a.until, a.now, a.env).rows;
            && id < |rows'|
            && (Picked(rows, a.now, id) ==> Arrived(rows[id], rows'[id], PassOutcome(rows[id], a.now, a.env)))
            && (!Picked(rows, a.now, id) && Lapsed(rows[id], a.now) ==> Arrived(rows[id], rows'[id], To(Unknown)))
            && (!Picked(rows, a.now, id) && !Lapsed(rows[id], a.now) ==> rows'[id] == rows[id])
            && Accounted(rows, a, id, rows'[id])
  {
    hide Work, Lease, PassOutcome, Picked, SlotsHaveImages, InOrder;
    var leased := Lease(rows, a.owner, a.until, a.now);
    LeaseOutcome(rows, a.owner, a.until, a.now, id);
    if leased.id.Some? {
      var chosen := leased.id.value;
      LeaseOutcome(rows, a.owner, a.until, a.now, chosen);
      assert RowInv(rows[chosen]);
      WorkOutcome(leased.rows, chosen, a.now, a.env, rows[chosen]);
    }
  }

  lemma LeaseHappens(rows: seq<Row>, a: Action, id: nat)
    requires id < |rows| && a.LeaseOnly?
    ensures var rows' := Lease(rows, a.owner, a.until, a.now).rows;
            && (Picked(rows, a.now, id) ==> Arrived(rows[id], rows'[id], To(Leased)))
            && (!Picked(rows, a.now, id) && Lapsed(rows[id], a.now) ==> Arrived(rows[id], rows'[id], To(Unknown)))
            && (!Picked(rows, a.now, id) && !Lapsed(rows[id], a.now) ==> rows'[id] == rows[id])
            && Accounted(rows, a, id, rows'[id])
  {
    hide Lease, Picked;
    LeaseOutcome(rows, a.owner, a.until, a.now, id);
  }

  lemma OneEnd(pages: seq<Page>, m: nat, n: nat)
    requires EndsAt(pages, m) && EndsAt(pages, n)
    ensures m == n
  {
    hide Continues;
  }

  lemma ReconcileHappens(rows: seq<Row>, a: Action, o: Outcome)
    requires RowsInv(rows) && a.ReconcileRow? && a.id < |rows| && ReconcilesTo(rows[a.id], a.now, a.window, a.history, o)
    ensures var r := Reconcile(rows, a.id, a.now, a.window, a.history);
            r.Ok? && |r.value| == |rows| && Arrived(rows[a.id], r.value[a.id], o)
  {
    hide SearchHistory, EndsAt, AllMatches, InOrder, AllContinue, OneMatch;
    var row := rows[a.id];
    assert RowInv(row);
    if !InWindow(row, a.now, a.window) && a.history.Some? {
      SearchDecides(a.history.value);
      var found := SearchHistory(a.history.value, None, []);
      if found.Found? && |found.ids| == 1 {
        assert found.ids == [found.ids[0]];
        assert OneMatch(a.history.value, found.ids[0]);
        assert Confirmable(a.history, found.ids[0]);
      }
    }
  }

  lemma SearchDecides(pages: seq<Page>)
    ensures var r := SearchHistory(pages, None, []);
            && (r.Waiting? <==> !exists n: nat :: EndsAt(pages, n))
            && (forall m :: OneMatch(pages, m) <==> r == Found([m]))
  {
    hide SearchHistory, AllMatches, Continues;
    SearchOutcome(pages);
    var n := FirstStop(pages, 0);
    if n < |pages| {
      assert EndsAt(pages, n);
      forall m ensures OneMatch(pages, m) <==> SearchHistory(pages, None, []) == Found([m]) {
        if k: nat :| EndsAt(pages, k) && pages[k].Page? && !pages[k].hasMore && AllMatches(pages[..k + 1]) == [m] {
          OneEnd(pages, k, n);
        }
        EndDecides(pages, n);
      }
    }
  }

  lemma EndDecides(pages: seq<Page>, n: nat)
    requires EndsAt(pages, n)
    ensures SearchHistory(pages, None, []) ==
            if pages[n].Page? && !pages[n].hasMore then Found(AllMatches(pages[..n + 1])) else Gone
  {
    hide SearchHistory, AllMatches, Continues, AllContinue;
    SearchOutcome(pages);
  }

  /** One action brings a row where what happens says, and leaves it as it is when nothing happens to it. */
  lemma StepHappens(w: World, a: Action, id: nat)
    requires RowsInv(w.rows) && id < |w.rows|
    ensures id < |Next(w, a).rows|
    ensures forall o :: Happens(w.rows, a, id, o) ==> Arrived(w.rows[id], Next(w, a).rows[id], o)
    ensures (forall o :: !Happens(w.rows, a, id, o)) ==> Next(w, a).rows[id] == w.rows[id]
  {
    hide RowsInv, Picked, PassOutcome, RunOnce, Lease, Reconcile, ReconcilesTo, Stage, TakesKey, NewlyConfirmed, NewRow;
    match a {
      case Enqueue(_, _, _, _, _, _) =>
      case WorkerPass(_, _, now, env) =>
        PassHappens(w.rows, a, id);
        if Picked(w.rows, now, id) { PickedIsWaiting(w.rows, now, id); }
        assert Picked(w.rows, now, id) ==> Happens(w.rows, a, id, PassOutcome(w.rows[id], now, env));
        assert Lapsed(w.rows[id], now) ==> Happens(w.rows, a, id, To(Unknown));
      case LeaseOnly(_, _, now) =>
        LeaseHappens(w.rows, a, id);
        if Picked(w.rows, now, id) { PickedIsWaiting(w.rows, now, id); }
        assert Picked(w.rows, now, id) ==> Happens(w.rows, a, id, To(Leased));
        assert Lapsed(w.rows[id], now) ==> Happens(w.rows, a, id, To(Unknown));
      case FinishOnly(_, _, state, message, due) =>
        assert Finish(w.rows, a.id, a.owner, state, message, due).Ok? && a.id == id ==>
               Happens(w.rows, a, id, Outcome(state, message, due));
      case StageOnly(_, _, ordinal, key, now) => StageHappens(w, a, id);
      case ReconcileRow(_, _, _, _) => ReconcileStep(w, a, id);
      case Retire(hit) =>
        assert (w.rows[id].state.Pending? || w.rows[id].state.Retryable?) && hit(w.rows[id]) ==> Happens(w.rows, a, id, To(Permanent));
    }
  }

  lemma PickedIsWaiting(rows: seq<Row>, now: int, id: nat)
    requires id < |rows| && Picked(rows, now, id)
    ensures Sendable(rows[id].state) && !Lapsed(rows[id], now)
  {
  }

  lemma StageHappens(w: World, a: Action, id: nat)
    requires id < |w.rows| && a.StageOnly?
    ensures id < |Next(w, a).rows|
    ensures forall o :: Happens(w.rows, a, id, o) ==> Arrived(w.rows[id], Next(w, a).rows[id], o)
    ensures (forall o :: !Happens(w.rows, a, id, o)) ==> Next(w, a).rows[id] == w.rows[id]
  {
    hide TakesKey, WithKey, NewlyConfirmed;
    if a.id < |w.rows| {
      TakesKeyIff(w.rows[a.id].body, a.ordinal, a.key);
    }
    assert Stage(w.rows, a.id, a.owner, a.ordinal, a.key, a.now).Ok? && a.id == id ==>
           Happens(w.rows, a, id, Outcome(Retryable, None, Some(a.now)));
  }

  lemma ReconcileStep(w: World, a: Action, id: nat)
    requires RowsInv(w.rows) && id < |w.rows| && a.ReconcileRow?
    ensures id < |Next(w, a).rows|
    ensures forall o :: Happens(w.rows, a, id, o) ==> Arrived(w.rows[id], Next(w, a).rows[id], o)
    ensures (forall o :: !Happens(w.rows, a, id, o)) ==> Next(w, a).rows[id] == w.rows[id]
  {
    hide RowsInv, ReconcilesTo, SearchHistory, NewlyConfirmed;
    forall o | Happens(w.rows, a, id, o) ensures Arrived(w.rows[id], Next(w, a).rows[id], o) {
      ReconcileHappens(w.rows, a, o);
    }
    if a.id == id {
      ReconcileDoesSomething(w.rows, a);
      if o :| ReconcilesTo(w.rows[id], a.now, a.window, a.history, o) {
        assert Happens(w.rows, a, id, o);
      }
    }
  }

  lemma ReconcileDoesSomething(rows: seq<Row>, a: Action)
    requires RowsInv(rows) && a.ReconcileRow? && a.id < |rows|
    ensures var r := Reconcile(rows, a.id, a.now, a.window, a.history);
            r.Ok? && r.value[a.id] != rows[a.id] ==> exists o :: ReconcilesTo(rows[a.id], a.now, a.window, a.history, o)
  {
    hide SearchHistory, EndsAt, AllMatches, InOrder, AllContinue, OneMatch;
    var row := rows[a.id];
    assert RowInv(row);
    if row.state.Unknown? {
      if InWindow(row, a.now, a.window) {
        assert ReconcilesTo(row, a.now, a.window, a.history, Outcome(Retryable, None, Some(a.now)));
      } else if m :| Confirmable(a.history, m) {
        assert ReconcilesTo(row, a.now, a.window, a.history, Outcome(Confirmed, Some(m), None));
      } else {
        if a.history.Some? { SearchDecides(a.history.value); }
        assert Searched(a.history) ==> ReconcilesTo(row, a.now, a.window, a.history, To(DeliveryIndeterminate));
      }
    }
  }

  // ---- Runs ----

  lemma {:induction false} RunSnoc(w: World, actions: seq<Action>, a: Action)
    ensures Run(w, actions + [a]) == Next(Run(w, actions), a)
    decreases |actions|
  {
    hide Next;
    if actions == [] {
      assert [] + [a] == [a];
      assert Run(Next(w, a), []) == Next(w, a);
    } else {
      assert (actions + [a])[1..] == actions[1..] + [a];
      RunSnoc(Next(w, actions[0]), actions[1..], a);
    }
  }

  lemma {:induction false} RunSplit(w: World, a: seq<Action>, b: seq<Action>)
    ensures Run(w, a + b) == Run(Run(w, a), b)
    decreases |a|
  {
    hide Next;
    if a == [] {
      assert a + b == b;
    } else {
      assert (a + b)[1..] == a[1..] + b;
      RunSplit(Next(w, a[0]), a[1..], b);
    }
  }

  function RowsAt(actions: seq<Action>, i: nat): seq<Row>
    requires i <= |actions|
  {
    Run(START, actions[..i]).rows
  }

  /** The i-th action of the run puts row id into the state of o. */
  ghost predicate HappensAt(actions: seq<Action>, i: nat, id: nat, o: Outcome) {
    i < |actions| && id < |RowsAt(actions, i)| && Happens(RowsAt(actions, i), actions[i], id, o)
  }

  ghost predicate Untouched(actions: seq<Action>, from: nat, id: nat) {
    forall i: nat, o :: from <= i ==> !HappensAt(actions, i, id, o)
  }

  /** The last thing that happened to a row decides its state; a row that nothing happened to is pending. */
  ghost predicate DecidedBy(actions: seq<Action>, id: nat, row: Row) {
    || (Untouched(actions, 0, id) && row.state.Pending? && row.message.None?)
    || (exists i: nat, o :: HappensAt(actions, i, id, o) && Untouched(actions, i + 1, id) && row.state == o.state &&
                            (o.message.Some? ==> row.message == o.message))
  }

  lemma {:induction false} LastHappeningDecides(actions: seq<Action>, id: nat)
    requires id < |Run(START, actions).rows|
    ensures DecidedBy(actions, id, Run(START, actions).rows[id])
    decreases |actions|
  {
    hide Next, Run, Happens, RowsInv, Ordered, SentRight, Arrived, Untouched, DecidedBy;
    if actions == [] {
      assert false by { NoRows(); }
    } else {
      var init, last := actions[..|actions| - 1], actions[|actions| - 1];
      assert actions == init + [last];
      RunSnoc(START, init, last);
      StartInv();
      RunKeepsInv(START, init);
      var w := Run(START, init);
      assert RowsAt(actions, |init|) == w.rows by { assert actions[..|init|] == init; }
      if id < |w.rows| {
        StepHappens(w, last, id);
        LastHappeningDecides(init, id);
        DecidedOnce(init, last, id);
      } else {
        NewRowIsPending(init, last, id);
      }
    }
  }

  lemma NoRows()
    ensures Run(START, []).rows == []
  {
  }

  lemma HappensEarlier(init: seq<Action>, last: Action, i: nat, id: nat, o: Outcome)
    ensures i < |init| ==> (HappensAt(init + [last], i, id, o) <==> HappensAt(init, i, id, o))
    ensures i > |init| ==> !HappensAt(init + [last], i, id, o)
  {
    hide Happens, Run;
    if i < |init| {
      assert (init + [last])[..i] == init[..i];
    }
  }

  /** One more action: either nothing happens to the row, or it is the last thing that happened. */
  lemma DecidedOnce(init: seq<Action>, last: Action, id: nat)
    requires var w := Run(START, init);
             && id < |w.rows| && DecidedBy(init, id, w.rows[id]) && id < |Next(w, last).rows|
             && (forall o :: Happens(w.rows, last, id, o) ==> Arrived(w.rows[id], Next(w, last).rows[id], o))
             && ((forall o :: !Happens(w.rows, last, id, o)) ==> Next(w, last).rows[id] == w.rows[id])
    ensures DecidedBy(init + [last], id, Next(Run(START, init), last).rows[id])
  {
    hide Next, Run, Happens;
    var actions, w := init + [last], Run(START, init);
    assert actions[..|init|] == init;
    forall i: nat, o ensures i < |init| ==> (HappensAt(actions, i, id, o) <==> HappensAt(init, i, id, o))
      ensures i > |init| ==> !HappensAt(actions, i, id, o)
    {
      HappensEarlier(init, last, i, id, o);
    }
    if o :| Happens(w.rows, last, id, o) {
      assert HappensAt(actions, |init|, id, o);
      assert Untouched(actions, |init| + 1, id);
    } else {
      assert forall o :: !HappensAt(actions, |init|, id, o);
      if Untouched(init, 0, id) && w.rows[id].state.Pending? && w.rows[id].message.None? {
        assert Untouched(actions, 0, id);
      } else {
        var i: nat, o :| HappensAt(init, i, id, o) && Untouched(init, i + 1, id) && w.rows[id].state == o.state &&
                         (o.message.Some? ==> w.rows[id].message == o.message);
        assert HappensAt(actions, i, id, o) && Untouched(actions, i + 1, id);
      }
    }
  }

  lemma NewRowIsPending(init: seq<Action>, last: Action, id: nat)
    requires |Run(START, init).rows| <= id < |Next(Run(START, init), last).rows|
    ensures DecidedBy(init + [last], id, Next(Run(START, init), last).rows[id])
  {
    hide Run, Happens, RunOnce, Reconcile, NewBody, Finish, Stage;
    var actions, w := init + [last], Run(START, init);
    SameLength(w, last);
    assert actions[..|init|] == init;
    forall i: nat, o ensures !HappensAt(actions, i, id, o) {
      if i < |init| {
        assert actions[..i] == init[..i];
        RowsGrow(init, i);
      }
    }
  }

  lemma SameLength(w: World, a: Action)
    ensures |Next(w, a).rows| == |w.rows| + if a.Enqueue? then 1 else 0
  {
    hide Choose, Fill, FirstMissing, WithKey, SearchHistory, NewBody;
  }

  lemma RowsGrow(actions: seq<Action>, i: nat)
    requires i <= |actions|
    ensures |RowsAt(actions, i)| <= |Run(START, actions).rows|
  {
    hide Next, RowsInv, Ordered, SentRight, Edge;
    StartInv();
    RunKeepsInv(START, actions[..i]);
    RunKeepsInv(Run(START, actions[..i]), actions[i..]);
    assert actions[..i] + actions[i..] == actions;
    RunSplit(START, actions[..i], actions[i..]);
  }

  // ---- Main results ----

  lemma EndedStaysEnded(actions: seq<Action>, i: nat, id: nat, o: Outcome)
    requires HappensAt(actions, i, id, o) && Terminal(o.state)
    ensures id < |Run(START, actions).rows|
    ensures var row := Run(START, actions).rows[id];
            row.state == o.state && (o.message.Some? ==> row.message == o.message)
  {
    hide Next, Happens, Ordered, SentRight, RowsInv, BodyExtends;
    var before, after := actions[..i], actions[i + 1..];
    assert actions == (before + [actions[i]]) + after;
    RunSnoc(START, before, actions[i]);
    RunSplit(START, before + [actions[i]], after);
    StartInv();
    RunKeepsInv(START, before);
    StepHappens(Run(START, before), actions[i], id);
    RunKeepsInv(START, before + [actions[i]]);
    RunKeepsInv(Run(START, before + [actions[i]]), after);
    assert Edge(Run(START, before + [actions[i]]).rows[id], Run(START, actions).rows[id]);
  }

  /** A row ends in a state exactly when something in the run put it there. */
  lemma EndsIff(actions: seq<Action>, id: nat, s: State)
    requires id < |Run(START, actions).rows| && Terminal(s)
    ensures Run(START, actions).rows[id].state == s <==> exists i: nat, o :: HappensAt(actions, i, id, o) && o.state == s
  {
    hide Run, Happens, Untouched;
    LastHappeningDecides(actions, id);
    if i: nat, o :| HappensAt(actions, i, id, o) && o.state == s {
      EndedStaysEnded(actions, i, id, o);
    }
  }

  /** The pass got as far as sending the row, and lived to record the answer. */
  predicate Answered(row: Row, env: Env) {
    env.route.Routed? && !Incomplete(row.body) && !env.crash.AfterLease? && !env.crash.AfterSend?
  }

  /**
   What confirms a row: the provider reported its delivery, the holder of its lease finished it as confirmed, or
   after the window the history named exactly one message.
   */
  ghost predicate Confirms(rows: seq<Row>, a: Action, id: nat, message: Option<string>)
    requires id < |rows|
  {
    var row := rows[id];
    || (&& a.WorkerPass? && Picked(rows, a.now, id) && Answered(row, a.env) && a.env.answer.Delivered?
        && message == if row.operation == AnchorTitle then None else a.env.answer.message)
    || (a.FinishOnly? && a.id == id && Holds(row, a.owner) && a.state.Confirmed? && message == a.message)
    || (&& a.ReconcileRow? && a.id == id && row.state.Unknown? && !InWindow(row, a.now, a.window)
        && message.Some? && Confirmable(a.history, message.value))
  }

  ghost predicate ConfirmsAt(actions: seq<Action>, i: nat, id: nat, message: Option<string>) {
    i < |actions| && id < |RowsAt(actions, i)| && Confirms(RowsAt(actions, i), actions[i], id, message)
  }

  lemma ConfirmsIff(rows: seq<Row>, a: Action, id: nat, message: Option<string>)
    requires id < |rows|
    ensures Confirms(rows, a, id, message) <==> exists o :: Happens(rows, a, id, o) && o.state.Confirmed? && o.message == message
  {
    hide Picked, Confirmable, Searched, TakesKey, InWindow, Incomplete;
    if Confirms(rows, a, id, message) {
      assert Happens(rows, a, id, Outcome(Confirmed, message, if a.FinishOnly? then a.due else None));
    }
  }

  /** In every run a row is confirmed exactly when something confirmed it, and it has the message id that came with it. */
  lemma ConfirmedIff(actions: seq<Action>, id: nat)
    requires id < |Run(START, actions).rows|
    ensures var row := Run(START, actions).rows[id];
            && (row.state.Confirmed? <==> exists i: nat, message :: ConfirmsAt(actions, i, id, message))
            && (forall i: nat, message :: ConfirmsAt(actions, i, id, message) && message.Some? ==> row.message == message)
  {
    hide Run, Happens, Confirms;
    EndsIff(actions, id, Confirmed);
    if i: nat, o :| HappensAt(actions, i, id, o) && o.state == Confirmed {
      ConfirmsIff(RowsAt(actions, i), actions[i], id, o.message);
      assert ConfirmsAt(actions, i, id, o.message);
    }
    forall i: nat, message | ConfirmsAt(actions, i, id, message)
      ensures exists o :: HappensAt(actions, i, id, o) && o.state == Confirmed
      ensures message.Some? ==> Run(START, actions).rows[id].message == message
    {
      ConfirmsIff(RowsAt(actions, i), actions[i], id, message);
      var o :| Happens(RowsAt(actions, i), actions[i], id, o) && o.state.Confirmed? && o.message == message;
      assert HappensAt(actions, i, id, o);
      EndedStaysEnded(actions, i, id, o);
    }
  }

  /** The pass was refused for good: by the reply tree, at the upload, or by the provider's answer. */
  predicate Refuses(row: Row, env: Env) {
    && !env.crash.AfterLease?
    && (|| env.route.WrongAncestry?
        || (env.route.Routed? && Incomplete(row.body) && (env.upload.UploadRefused? || env.upload == Uploaded("")))
        || (Answered(row, env) && env.answer.Refused?))
  }

  ghost predicate RefusedAt(actions: seq<Action>, i: nat, id: nat) {
    && i < |actions| && id < |RowsAt(actions, i)| && actions[i].WorkerPass?
    && Picked(RowsAt(actions, i), actions[i].now, id) && Refuses(RowsAt(actions, i)[id], actions[i].env)
  }

  ghost predicate FinishedAt(actions: seq<Action>, i: nat, id: nat, s: State) {
    && i < |actions| && id < |RowsAt(actions, i)| && actions[i].FinishOnly? && actions[i].id == id
    && Holds(RowsAt(actions, i)[id], actions[i].owner) && actions[i].state == s
  }

  /** The task has no chat, or the row was retired while it waited. */
  ghost predicate DroppedAt(actions: seq<Action>, i: nat, id: nat) {
    && i < |actions| && id < |RowsAt(actions, i)|
    && var row, a := RowsAt(actions, i)[id], actions[i];
       || (a.WorkerPass? && Picked(RowsAt(actions, i), a.now, id) && a.env.route.NoBinding? && !a.env.crash.AfterLease?)
       || (a.Retire? && (row.state.Pending? || row.state.Retryable?) && a.hit(row))
  }

  lemma GivenUpIff(rows: seq<Row>, a: Action, id: nat)
    requires id < |rows|
    ensures (exists o :: Happens(rows, a, id, o) && o.state == FinalUndelivered) <==>
            || (a.WorkerPass? && Picked(rows, a.now, id) && Refuses(rows[id], a.env) && rows[id].operation == Final)
            || (a.FinishOnly? && a.id == id && Holds(rows[id], a.owner) && a.state == FinalUndelivered)
    ensures (exists o :: Happens(rows, a, id, o) && o.state == Permanent) <==>
            || (a.WorkerPass? && Picked(rows, a.now, id) && Refuses(rows[id], a.env) && rows[id].operation != Final)
            || (a.FinishOnly? && a.id == id && Holds(rows[id], a.owner) && a.state == Permanent)
            || (a.WorkerPass? && Picked(rows, a.now, id) && a.env.route.NoBinding? && !a.env.crash.AfterLease?)
            || (a.Retire? && (rows[id].state.Pending? || rows[id].state.Retryable?) && a.hit(rows[id]))
  {
    hide Picked, Confirmable, Searched, TakesKey, InWindow, Incomplete;
    if a.WorkerPass? {
      assert Picked(rows, a.now, id) ==> Happens(rows, a, id, PassOutcome(rows[id], a.now, a.env));
    } else if a.FinishOnly? {
      assert a.id == id && Holds(rows[id], a.owner) && !a.state.Pending? && !a.state.Leased? ==>
             Happens(rows, a, id, Outcome(a.state, a.message, a.due));
    } else if a.Retire? {
      assert (rows[id].state.Pending? || rows[id].state.Retryable?) && a.hit(rows[id]) ==> Happens(rows, a, id, To(Permanent));
    }
  }

  /**
   In every run a final answer counts as undelivered exactly when it was refused or finished as such, and a row
   is permanently failed exactly when it is no final answer and was refused, or was dropped or finished as such.
   */
  lemma RefusedIff(actions: seq<Action>, id: nat)
    requires id < |Run(START, actions).rows|
    ensures var row := Run(START, actions).rows[id];
            && (row.state.FinalUndelivered? <==>
                  exists i: nat :: (RefusedAt(actions, i, id) && row.operation == Final) || FinishedAt(actions, i, id, FinalUndelivered))
            && (row.state.Permanent? <==>
                  exists i: nat :: || (RefusedAt(actions, i, id) && row.operation != Final) || FinishedAt(actions, i, id, Permanent)
                                   || DroppedAt(actions, i, id))
  {
    hide Run, Happens, Refuses, Holds, Picked;
    EndsIff(actions, id, FinalUndelivered);
    EndsIff(actions, id, Permanent);
    forall i: nat | i < |actions| && id < |RowsAt(actions, i)|
      ensures (exists o :: HappensAt(actions, i, id, o) && o.state == FinalUndelivered) <==>
              (RefusedAt(actions, i, id) && Run(START, actions).rows[id].operation == Final) || FinishedAt(actions, i, id, FinalUndelivered)
      ensures (exists o :: HappensAt(actions, i, id, o) && o.state == Permanent) <==>
              || (RefusedAt(actions, i, id) && Run(START, actions).rows[id].operation != Final) || FinishedAt(actions, i, id, Permanent)
              || DroppedAt(actions, i, id)
    {
      SameOperation(actions, i, id);
      GivenUpIff(RowsAt(actions, i), actions[i], id);
      assert forall o :: HappensAt(actions, i, id, o) <==> Happens(RowsAt(actions, i), actions[i], id, o);
    }
  }

  lemma SameOperation(actions: seq<Action>, i: nat, id: nat)
    requires i <= |actions| && id < |RowsAt(actions, i)| && id < |Run(START, actions).rows|
    ensures Run(START, actions).rows[id].operation == RowsAt(actions, i)[id].operation
  {
    hide Next, RowsInv, Ordered, SentRight, BodyExtends;
    StartInv();
    RunKeepsInv(START, actions[..i]);
    RunKeepsInv(Run(START, actions[..i]), actions[i..]);
    assert actions[..i] + actions[i..] == actions;
    RunSplit(START, actions[..i], actions[i..]);
    assert Edge(RowsAt(actions, i)[id], Run(START, actions).rows[id]);
  }

  /** A row becomes unknown exactly by a send without answer that can be looked up, a lapsed lease, or its holder. */
  lemma UnknownIff(w: World, a: Action, id: nat)
    requires RowsInv(w.rows) && id < |w.rows| && !w.rows[id].state.Unknown?
    ensures id < |Next(w, a).rows|
    ensures var row := w.rows[id];
            Next(w, a).rows[id].state.Unknown? <==>
            || (&& a.WorkerPass? && Picked(w.rows, a.now, id) && Answered(row, a.env) && a.env.answer.NoAnswer?
                && row.operation != AnchorTitle)
            || ((a.WorkerPass? || a.LeaseOnly?) && Lapsed(row, a.now))
            || (a.FinishOnly? && a.id == id && Holds(row, a.owner) && a.state.Unknown?)
  {
    hide Next, RowsInv, Picked, Confirmable, Searched, TakesKey, InWindow, Incomplete;
    StepHappens(w, a, id);
    if a.WorkerPass? {
      if Picked(w.rows, a.now, id) { PickedIsWaiting(w.rows, a.now, id); }
      assert Picked(w.rows, a.now, id) ==> Happens(w.rows, a, id, PassOutcome(w.rows[id], a.now, a.env));
      assert Lapsed(w.rows[id], a.now) ==> Happens(w.rows, a, id, To(Unknown));
    } else if a.LeaseOnly? {
      if Picked(w.rows, a.now, id) { PickedIsWaiting(w.rows, a.now, id); }
      assert Lapsed(w.rows[id], a.now) ==> Happens(w.rows, a, id, To(Unknown));
    } else if a.FinishOnly? {
      assert a.id == id && Holds(w.rows[id], a.owner) && a.state.Unknown? ==>
             Happens(w.rows, a, id, Outcome(Unknown, a.message, a.due));
    }
  }

  /** Nothing but a reconciliation touches such a row, so it is not sent again before one. */
  lemma {:induction false} UnknownWaits(w: World, actions: seq<Action>, id: nat)
    requires Inv(w) && id < |w.rows| && w.rows[id].state.Unknown?
    requires forall k :: 0 <= k < |actions| ==> !(actions[k].ReconcileRow? && actions[k].id == id)
    ensures id < |Run(w, actions).rows| && Run(w, actions).rows[id] == w.rows[id]
    decreases |actions|
  {
    hide Next, Inv;
    if actions != [] {
      UnknownIsLeftAlone(w, actions[0], id);
      NextKeepsInv(w, actions[0]);
      UnknownWaits(Next(w, actions[0]), actions[1..], id);
    }
  }

  lemma UnknownIsLeftAlone(w: World, a: Action, id: nat)
    requires Inv(w) && id < |w.rows| && w.rows[id].state.Unknown? && !(a.ReconcileRow? && a.id == id)
    ensures id < |Next(w, a).rows| && Next(w, a).rows[id] == w.rows[id]
  {
    hide Next, RowsInv, Ordered, SentRight, Blocked, Before, PassOutcome;
    StepHappens(w, a, id);
  }
}
