/** Whole runs of the provider outbox. */
module OutboxRuns {
  import opened Options
  import opened OutboxCards
  import opened Outbox

  /** What enqueueing is given; a card is built from the parts of an answer. */
  datatype Draft =
    | TextDraft(text: string)
    | ImageDraft
    | FileDraft
    | CardDraft(rendering: Rendering, active: set<string>, parts: seq<Part>, fallback: string)

  /** A card that cannot be built becomes text; text that needs several chunks is several drafts. */
  function NewBody(d: Draft): Body {
    match d
    case TextDraft(text) => PlainText(text)
    case ImageDraft => ImageFile(None)
    case FileDraft => AttachedFile(None)
    case CardDraft(r, active, parts, fallback) =>
      var card := MarkdownCard(r, active, parts);
      if card.None? then PlainText(fallback) else Card(card.value.elements, seq(|card.value.images|, _ => None))
  }

  function NewRow(turn: Option<string>, thread: string, operation: Operation, priority: int, draft: Draft, now: int): Row {
    Row(turn, thread, operation, priority, NewBody(draft), Pending, now, None, None, 0, None, None)
  }

  datatype Action =
    | Enqueue(turn: Option<string>, thread: string, operation: Operation, priority: int, draft: Draft, now: int)
    | WorkerPass(owner: string, until: int, now: int, env: Env)
    | LeaseOnly(owner: string, until: int, now: int)
    | FinishOnly(id: nat, owner: string, state: State, message: Option<string>, due: Option<int>)
    | StageOnly(id: nat, owner: string, ordinal: nat, key: string, now: int)
    | ReconcileRow(id: nat, now: int, window: Option<int>, history: Option<seq<Page>>)
    | Retire(hit: Row -> bool)

  /** confirmed and sent record history; keyMissing records that a card was given up for lack of a key. */
  datatype World = World(rows: seq<Row>, confirmed: seq<nat>, sent: seq<Sent>, keyMissing: bool)

  const START := World([], [], [], false)

  function NewlyConfirmed(rows: seq<Row>, rows': seq<Row>, id: nat): seq<nat> {
    if id < |rows| && id < |rows'| && !rows[id].state.Confirmed? && rows'[id].state.Confirmed? then [id] else []
  }

  function Updated(w: World, rows: Result<seq<Row>, OutboxError>, id: nat): World {
    match rows
    case Err(_) => w
    case Ok(after) => w.(rows := after, confirmed := w.confirmed + NewlyConfirmed(w.rows, after, id))
  }

  function AfterPass(w: World, pass: Pass): World {
    World(pass.rows,
          if pass.id.None? then w.confirmed else w.confirmed + NewlyConfirmed(w.rows, pass.rows, pass.id.value),
          if pass.sent.None? then w.sent else w.sent + [pass.sent.value],
          w.keyMissing || pass.keyMissing)
  }

  function Next(w: World, a: Action): World {
    match a
    case Enqueue(turn, thread, operation, priority, draft, now) =>
      w.(rows := w.rows + [NewRow(turn, thread, operation, priority, draft, now)])
    case WorkerPass(owner, until, now, env) => AfterPass(w, RunOnce(w.rows, owner, until, now, env))
    case LeaseOnly(owner, until, now) => w.(rows := Lease(w.rows, owner, until, now).rows)
    case FinishOnly(id, owner, state, message, due) => Updated(w, Finish(w.rows, id, owner, state, message, due), id)
    case StageOnly(id, owner, ordinal, key, now) => Updated(w, Stage(w.rows, id, owner, ordinal, key, now), id)
    case ReconcileRow(id, now, window, history) => Updated(w, Reconcile(w.rows, id, now, window, history), id)
    case Retire(hit) => w.(rows := Suppress(w.rows, hit))
  }

  function Run(w: World, actions: seq<Action>): World
    decreases |actions|
  {
    if actions == [] then w else Run(Next(w, actions[0]), actions[1..])
  }

  // ---- What every writer keeps about rows ----

  ghost predicate KeysExtend(a: Option<string>, b: Option<string>) {
    a.Some? ==> b == a
  }

  /** Uploaded keys are written once. */
  ghost predicate BodyExtends(a: Body, b: Body) {
    match a
    case PlainText(_) => b == a
    case ImageFile(key) => b.ImageFile? && KeysExtend(key, b.key)
    case AttachedFile(key) => b.AttachedFile? && KeysExtend(key, b.key)
    case Card(elements, keys) =>
      && b.Card? && b.elements == elements && |b.keys| == |keys|
      && forall k :: 0 <= k < |keys| ==> KeysExtend(keys[k], b.keys[k])
  }

  /** What a write may do to one row. */
  ghost predicate Edge(a: Row, b: Row) {
    && b.turn == a.turn && b.thread == a.thread && b.operation == a.operation && b.priority == a.priority
    && (Terminal(a.state) ==> b.state == a.state && b.message == a.message)
    && b.attempts >= a.attempts
    && BodyExtends(a.body, b.body)
  }

  ghost predicate SlotsHaveImages(body: Body) {
    body.Card? ==> Ordinals(body.elements) == Range(|body.keys|)
  }

  ghost predicate RowInv(row: Row) {
    && (row.state.Leased? || row.state.Unknown? || row.state.Confirmed? ==> row.attempts > 0)
    && (row.attempts > 0 ==> row.firstAttempt.Some?)
    && SlotsHaveImages(row.body)
  }

  /** Once a row was ever tried, every earlier row of its turn is finished. */
  ghost predicate InOrder(rows: seq<Row>) {
    forall id :: 0 <= id < |rows| && rows[id].attempts > 0 ==> !Blocked(rows, id)
  }

  ghost predicate RowsInv(rows: seq<Row>) {
    (forall id :: 0 <= id < |rows| ==> RowInv(rows[id])) && InOrder(rows)
  }

  ghost predicate Edges(rows: seq<Row>, rows': seq<Row>) {
    |rows| <= |rows'| && forall id :: 0 <= id < |rows| ==> Edge(rows[id], rows'[id])
  }

  lemma EdgesTransitive(a: seq<Row>, b: seq<Row>, c: seq<Row>)
    requires Edges(a, b) && Edges(b, c)
    ensures Edges(a, c)
  {
    forall id | 0 <= id < |a| ensures Edge(a[id], c[id]) {
      assert Edge(a[id], b[id]) && Edge(b[id], c[id]);
    }
  }

  lemma EdgesReflexive(a: seq<Row>)
    ensures Edges(a, a)
  {
  }

  lemma EdgesUnblock(rows: seq<Row>, rows': seq<Row>, id: nat)
    requires Edges(rows, rows') && id < |rows| && !Blocked(rows, id)
    ensures !Blocked(rows', id)
  {
    forall e | 0 <= e < id && rows'[e].turn.Some? && rows'[e].turn == rows'[id].turn ensures Terminal(rows'[e].state) {
      assert Edge(rows[e], rows'[e]) && Edge(rows[id], rows'[id]);
      assert Terminal(rows[e].state);
    }
  }

  /** Writes that only try rows that are not blocked keep every turn in order. */
  lemma EdgesKeepOrder(rows: seq<Row>, rows': seq<Row>)
    requires InOrder(rows) && Edges(rows, rows')
    requires forall id :: 0 <= id < |rows'| && rows'[id].attempts > 0 ==>
               id < |rows| && (rows[id].attempts > 0 || !Blocked(rows, id))
    ensures InOrder(rows')
  {
    hide Edges, Blocked;
    forall id | 0 <= id < |rows'| && rows'[id].attempts > 0 ensures !Blocked(rows', id) {
      EdgesUnblock(rows, rows', id);
    }
  }

  lemma ExpireKeepsRows(rows: seq<Row>, now: int)
    requires RowsInv(rows)
    ensures RowsInv(Expire(rows, now)) && Edges(rows, Expire(rows, now))
  {
    hide Blocked, SlotsHaveImages;
    var rows' := Expire(rows, now);
    forall id | 0 <= id < |rows| ensures Edge(rows[id], rows'[id]) && RowInv(rows'[id]) {
      assert RowInv(rows[id]);
    }
    EdgesKeepOrder(rows, rows');
  }

  /** One row changes, and is not tried anew. */
  lemma UpdateKeepsRows(rows: seq<Row>, id: nat, row: Row)
    requires RowsInv(rows) && id < |rows| && Edge(rows[id], row) && RowInv(row)
    requires row.attempts > 0 ==> rows[id].attempts > 0 || !Blocked(rows, id)
    ensures RowsInv(rows[id := row]) && Edges(rows, rows[id := row])
  {
    hide Blocked, Edge, RowInv;
    forall k | 0 <= k < |rows| && k != id ensures Edge(rows[k], rows[k]) {
      EdgeReflexive(rows[k]);
    }
    EdgesKeepOrder(rows, rows[id := row]);
  }

  lemma EdgeReflexive(row: Row)
    ensures Edge(row, row)
  {
  }

  lemma LeaseKeepsRows(rows: seq<Row>, owner: string, until: int, now: int)
    requires RowsInv(rows)
    ensures var leased := Lease(rows, owner, until, now);
            && RowsInv(leased.rows) && Edges(rows, leased.rows)
            && (leased.id.Some? ==> leased.rows[leased.id.value].state.Leased? && leased.rows[leased.id.value].attempts > 0)
  {
    hide Blocked, Edges, Expire, SlotsHaveImages;
    ExpireKeepsRows(rows, now);
    var expired := Expire(rows, now);
    var choice := Choose(expired, now, |expired|);
    if choice.Some? {
      ChooseIsChoice(expired, now, |expired|);
      ReadyIsDue(expired, choice.value, now);
      var row := Take(expired[choice.value], owner, until, now);
      assert RowInv(expired[choice.value]);
      UpdateKeepsRows(expired, choice.value, row);
      EdgesTransitive(rows, expired, expired[choice.value := row]);
    }
  }

  lemma WithKeyExtends(body: Body, ordinal: nat, key: string)
    ensures var staged := WithKey(body, ordinal, key);
            staged.Some? ==> BodyExtends(body, staged.value) && (SlotsHaveImages(body) ==> SlotsHaveImages(staged.value))
  {
    hide Ordinals;
  }

  lemma FinishedKeepsRows(rows: seq<Row>, id: nat, state: State, message: Option<string>, due: Option<int>)
    requires RowsInv(rows) && id < |rows| && !Terminal(rows[id].state) && rows[id].attempts > 0
    ensures RowsInv(Finished(rows, id, state, message, due)) && Edges(rows, Finished(rows, id, state, message, due))
  {
    hide Blocked, Edges, SlotsHaveImages;
    assert RowInv(rows[id]);
    UpdateKeepsRows(rows, id, Finished(rows, id, state, message, due)[id]);
  }

  lemma StagedKeepsRows(rows: seq<Row>, id: nat, ordinal: nat, key: string, now: int)
    requires RowsInv(rows) && id < |rows| && rows[id].state.Leased? && WithKey(rows[id].body, ordinal, key).Some?
    ensures var row := Release(rows[id]).(body := WithKey(rows[id].body, ordinal, key).value, state := Retryable, due := now);
            RowsInv(rows[id := row]) && Edges(rows, rows[id := row])
  {
    hide Blocked, Edges, SlotsHaveImages, BodyExtends, WithKey;
    assert RowInv(rows[id]);
    WithKeyExtends(rows[id].body, ordinal, key);
    UpdateKeepsRows(rows, id, Release(rows[id]).(body := WithKey(rows[id].body, ordinal, key).value, state := Retryable, due := now));
  }

  lemma ReconcileKeepsRows(rows: seq<Row>, id: nat, now: int, window: Option<int>, history: Option<seq<Page>>)
    requires RowsInv(rows)
    ensures var r := Reconcile(rows, id, now, window, history);
            r.Ok? ==> RowsInv(r.value) && Edges(rows, r.value)
  {
    hide RowsInv, Edges, SearchHistory, Blocked, SlotsHaveImages;
    var r := Reconcile(rows, id, now, window, history);
    EdgesReflexive(rows);
    if r.Ok? && r.value != rows {
      UnknownWasTried(rows, id);
      UpdateKeepsRows(rows, id, r.value[id]);
      assert r.value == rows[id := r.value[id]];
    }
  }

  lemma UnknownWasTried(rows: seq<Row>, id: nat)
    requires RowsInv(rows) && id < |rows| && (rows[id].state.Unknown? || rows[id].state.Leased?)
    ensures rows[id].attempts > 0 && rows[id].firstAttempt.Some? && RowInv(rows[id])
  {
    assert RowInv(rows[id]);
  }

  lemma SuppressKeepsRows(rows: seq<Row>, hit: Row -> bool)
    requires RowsInv(rows)
    ensures RowsInv(Suppress(rows, hit)) && Edges(rows, Suppress(rows, hit))
  {
    hide Blocked, SlotsHaveImages;
    var rows' := Suppress(rows, hit);
    forall id | 0 <= id < |rows| ensures Edge(rows[id], rows'[id]) && RowInv(rows'[id]) {
      assert RowInv(rows[id]);
    }
    EdgesKeepOrder(rows, rows');
  }

  lemma NewBodyHasItsImages(d: Draft)
    ensures SlotsHaveImages(NewBody(d))
  {
    hide AppendParts, HasWords;
    if d.CardDraft? {
      SlotsMatchImages(d.rendering, d.active, d.parts);
    }
  }

  lemma EnqueueKeepsRows(rows: seq<Row>, a: Action)
    requires RowsInv(rows) && a.Enqueue?
    ensures var rows' := rows + [NewRow(a.turn, a.thread, a.operation, a.priority, a.draft, a.now)];
            RowsInv(rows') && Edges(rows, rows')
  {
    hide NewBody, SlotsHaveImages, Blocked;
    NewBodyHasItsImages(a.draft);
    var rows' := rows + [NewRow(a.turn, a.thread, a.operation, a.priority, a.draft, a.now)];
    forall id | 0 <= id < |rows| ensures Edge(rows[id], rows'[id]) {
      EdgeReflexive(rows[id]);
    }
    EdgesKeepOrder(rows, rows');
  }

  lemma UploadKeepsRows(rows: seq<Row>, id: nat, ordinal: nat, now: int, env: Env)
    requires RowsInv(rows) && id < |rows| && rows[id].state.Leased? && rows[id].attempts > 0
    ensures var rows' := UploadPhase(rows, id, ordinal, now, env);
            RowsInv(rows') && Edges(rows, rows') && |rows'| == |rows|
  {
    hide RowsInv, Edges, Finished, WithKey;
    EdgesReflexive(rows);
    match env.upload {
      case Uploaded(key) =>
        if key == "" {
          FinishedKeepsRows(rows, id, Refusal(rows[id].operation), None, None);
        } else if WithKey(rows[id].body, ordinal, key).Some? {
          StagedKeepsRows(rows, id, ordinal, key, now);
        }
      case UploadLater(due) => FinishedKeepsRows(rows, id, Retryable, None, Some(due));
      case UploadRefused => FinishedKeepsRows(rows, id, Refusal(rows[id].operation), None, None);
    }
  }

  lemma SendKeepsRows(rows: seq<Row>, id: nat, env: Env)
    requires RowsInv(rows) && id < |rows| && rows[id].state.Leased? && rows[id].attempts > 0
    ensures var rows' := SendPhase(rows, id, env);
            RowsInv(rows') && Edges(rows, rows') && |rows'| == |rows|
  {
    hide RowsInv, Edges, Finished;
    EdgesReflexive(rows);
    match env.answer {
      case Delivered(message) =>
        FinishedKeepsRows(rows, id, Confirmed, if rows[id].operation.AnchorTitle? then None else message, None);
      case SendLater(due) => FinishedKeepsRows(rows, id, Retryable, None, Some(due));
      case NoAnswer =>
        FinishedKeepsRows(rows, id, if rows[id].operation.AnchorTitle? then DeliveryIndeterminate else Unknown, None, None);
      case Refused => FinishedKeepsRows(rows, id, Refusal(rows[id].operation), None, None);
    }
  }

  lemma WorkKeepsRows(rows: seq<Row>, id: nat, now: int, env: Env)
    requires RowsInv(rows) && id < |rows| && rows[id].state.Leased? && rows[id].attempts > 0
    ensures var pass := Work(rows, id, now, env);
            RowsInv(pass.rows) && Edges(rows, pass.rows) && |pass.rows| == |rows|
  {
    hide RowsInv, Edges, Finished, UploadPhase, SendPhase, FirstMissing, Fill;
    EdgesReflexive(rows);
    FinishedKeepsRows(rows, id, Permanent, None, None);
    FinishedKeepsRows(rows, id, Refusal(rows[id].operation), None, None);
    if NextUpload(rows[id].body).Some? {
      UploadKeepsRows(rows, id, NextUpload(rows[id].body).value, now, env);
    }
    SendKeepsRows(rows, id, env);
  }

  lemma RunOnceKeepsRows(rows: seq<Row>, owner: string, until: int, now: int, env: Env)
    requires RowsInv(rows)
    ensures var pass := RunOnce(rows, owner, until, now, env);
            RowsInv(pass.rows) && Edges(rows, pass.rows) && |pass.rows| == |rows|
  {
    hide RowsInv, Edges, Lease, Work;
    var leased := Lease(rows, owner, until, now);
    LeaseKeepsRows(rows, owner, until, now);
    if leased.id.Some? {
      WorkKeepsRows(leased.rows, leased.id.value, now, env);
      EdgesTransitive(rows, leased.rows, Work(leased.rows, leased.id.value, now, env).rows);
    }
  }

  lemma FinishKeepsRows(rows: seq<Row>, id: nat, owner: string, state: State, message: Option<string>, due: Option<int>)
    requires RowsInv(rows)
    ensures var r := Finish(rows, id, owner, state, message, due);
            r.Ok? ==> RowsInv(r.value) && Edges(rows, r.value)
  {
    hide RowsInv, Edges;
    if Finish(rows, id, owner, state, message, due).Ok? {
      UnknownWasTried(rows, id);
      FinishedKeepsRows(rows, id, state, message, due);
    }
  }

  lemma StageKeepsRows(rows: seq<Row>, id: nat, owner: string, ordinal: nat, key: string, now: int)
    requires RowsInv(rows)
    ensures var r := Stage(rows, id, owner, ordinal, key, now);
            r.Ok? ==> RowsInv(r.value) && Edges(rows, r.value)
  {
    hide RowsInv, Edges, WithKey;
    if Stage(rows, id, owner, ordinal, key, now).Ok? {
      StagedKeepsRows(rows, id, ordinal, key, now);
    }
  }

  /** Every writer: finished rows stay as they finished, turns stay in order, keys are written once. */
  lemma NextKeepsRows(w: World, a: Action)
    requires RowsInv(w.rows)
    ensures RowsInv(Next(w, a).rows) && Edges(w.rows, Next(w, a).rows)
  {
    hide RowsInv, Edges, RunOnce, Lease, Finish, Stage, Reconcile, Suppress, NewRow, NewlyConfirmed;
    EdgesReflexive(w.rows);
    match a {
      case Enqueue(_, _, _, _, _, _) => EnqueueKeepsRows(w.rows, a);
      case WorkerPass(owner, until, now, env) => RunOnceKeepsRows(w.rows, owner, until, now, env);
      case LeaseOnly(owner, until, now) => LeaseKeepsRows(w.rows, owner, until, now);
      case FinishOnly(id, owner, state, message, due) => FinishKeepsRows(w.rows, id, owner, state, message, due);
      case StageOnly(id, owner, ordinal, key, now) => StageKeepsRows(w.rows, id, owner, ordinal, key, now);
      case ReconcileRow(id, now, window, history) => ReconcileKeepsRows(w.rows, id, now, window, history);
      case Retire(hit) => SuppressKeepsRows(w.rows, hit);
    }
  }

  // ---- The order of confirmations ----

  ghost predicate Ordered(rows: seq<Row>, log: seq<nat>) {
    && (forall k :: 0 <= k < |log| ==> log[k] < |rows| && rows[log[k]].state.Confirmed?)
    && (forall id :: 0 <= id < |rows| && rows[id].state.Confirmed? ==> id in log)
    && (forall i, j :: 0 <= i < j < |log| ==>
          log[i] != log[j] && (rows[log[i]].turn.Some? && rows[log[i]].turn == rows[log[j]].turn ==> log[i] < log[j]))
  }

  /** At most the row id is confirmed by the write. */
  ghost predicate OnlyConfirms(rows: seq<Row>, rows': seq<Row>, id: nat)
    requires |rows| <= |rows'|
  {
    && (forall k :: 0 <= k < |rows| && k != id && rows'[k].state.Confirmed? ==> rows[k].state.Confirmed?)
    && (forall k :: |rows| <= k < |rows'| ==> !rows'[k].state.Confirmed?)
  }

  lemma ConfirmationKeepsOrder(rows: seq<Row>, rows': seq<Row>, log: seq<nat>, id: nat)
    requires RowsInv(rows) && RowsInv(rows') && Edges(rows, rows') && Ordered(rows, log) && OnlyConfirms(rows, rows', id)
    ensures Ordered(rows', log + NewlyConfirmed(rows, rows', id))
  {
    hide InOrder, RowInv, BodyExtends;
    var log' := log + NewlyConfirmed(rows, rows', id);
    forall k | 0 <= k < |rows| ensures rows'[k].turn == rows[k].turn && (rows[k].state.Confirmed? ==> rows'[k].state.Confirmed?) {
      assert Edge(rows[k], rows'[k]);
    }
    if log' != log {
      forall i | 0 <= i < |log| && rows[log[i]].turn.Some? && rows[log[i]].turn == rows[id].turn ensures log[i] < id {
        ConfirmedEarlier(rows, log[i], id);
      }
    }
    forall k | 0 <= k < |rows'| && rows'[k].state.Confirmed? ensures k in log' {
      if k < |rows| && rows[k].state.Confirmed? {
        assert k in log;
      } else {
        assert k == id && log'[|log|] == id;
      }
    }
  }

  /** A row that was not finished yet is not before a confirmed one of its turn. */
  lemma ConfirmedEarlier(rows: seq<Row>, done: nat, id: nat)
    requires RowsInv(rows) && done < |rows| && id < |rows|
    requires rows[done].state.Confirmed? && !Terminal(rows[id].state)
    requires rows[done].turn.Some? && rows[done].turn == rows[id].turn
    ensures done < id
  {
    assert RowInv(rows[done]);
    assert !Blocked(rows, done);
  }

  lemma RetiredIsLeftOut(rows: seq<Row>, rows': seq<Row>, log: seq<nat>)
    requires RowsInv(rows) && RowsInv(rows') && Edges(rows, rows') && Ordered(rows, log) && OnlyConfirms(rows, rows', |rows'|)
    ensures Ordered(rows', log)
  {
    ConfirmationKeepsOrder(rows, rows', log, |rows'|);
    assert log + [] == log;
  }

  lemma RunOnceConfirmsOne(rows: seq<Row>, owner: string, until: int, now: int, env: Env)
    ensures var pass := RunOnce(rows, owner, until, now, env);
            |pass.rows| == |rows| && OnlyConfirms(rows, pass.rows, if pass.id.Some? then pass.id.value else |rows|)
  {
    hide Choose, Fill, FirstMissing, WithKey;
    var leased := Lease(rows, owner, until, now);
    assert OnlyConfirms(rows, leased.rows, |rows|);
  }

  lemma NextKeepsOrdered(w: World, a: Action)
    requires RowsInv(w.rows) && Ordered(w.rows, w.confirmed)
    ensures Ordered(Next(w, a).rows, Next(w, a).confirmed)
  {
    hide RowsInv, Edges, RunOnce, Ordered, NewlyConfirmed, NewBody, WithKey, SearchHistory, Choose, Terminal;
    NextKeepsRows(w, a);
    var w' := Next(w, a);
    if w'.rows == w.rows && w'.confirmed == w.confirmed {
    } else if a.WorkerPass? {
      RunOnceConfirmsOne(w.rows, a.owner, a.until, a.now, a.env);
      var pass := RunOnce(w.rows, a.owner, a.until, a.now, a.env);
      if pass.id.Some? {
        ConfirmationKeepsOrder(w.rows, w'.rows, w.confirmed, pass.id.value);
      } else {
        RetiredIsLeftOut(w.rows, w'.rows, w.confirmed);
      }
    } else if a.Enqueue? || a.LeaseOnly? || a.Retire? {
      RetiredIsLeftOut(w.rows, w'.rows, w.confirmed);
    } else {
      ConfirmationKeepsOrder(w.rows, w'.rows, w.confirmed, a.id);
    }
  }

  // ---- What was sent ----

  /** A row is sent only when nothing is left to upload, and always with the same content. */
  ghost predicate SentRight(rows: seq<Row>, sent: Sent) {
    && sent.id < |rows|
    && NextUpload(rows[sent.id].body).None?
    && Outgoing(rows[sent.id].body) == Some(sent.content)
  }

  lemma ReadyBodiesStay(a: Body, b: Body)
    requires BodyExtends(a, b) && NextUpload(a).None?
    ensures b == a
  {
    hide Fill;
    if a.Card? {
      assert b.keys == a.keys;
    }
  }

  lemma SentStaysRight(rows: seq<Row>, rows': seq<Row>, sent: Sent)
    requires Edges(rows, rows') && SentRight(rows, sent)
    ensures SentRight(rows', sent)
  {
    hide BodyExtends, NextUpload, Outgoing;
    assert Edge(rows[sent.id], rows'[sent.id]);
    ReadyBodiesStay(rows[sent.id].body, rows'[sent.id].body);
  }

  lemma CardsAreComplete(body: Body)
    requires SlotsHaveImages(body) && NextUpload(body).None?
    ensures Outgoing(body).Some?
  {
    hide Ordinals;
    if body.Card? {
      FillFailsIff(body.elements, body.keys);
    }
  }

  lemma PassSendsRight(rows: seq<Row>, owner: string, until: int, now: int, env: Env)
    requires RowsInv(rows)
    ensures var pass := RunOnce(rows, owner, until, now, env);
            !pass.keyMissing && (pass.sent.Some? ==> SentRight(pass.rows, pass.sent.value))
  {
    hide RowsInv, Edges, Lease, SlotsHaveImages, NextUpload, Outgoing, SendPhase, UploadPhase, Finished, SentRight;
    var leased := Lease(rows, owner, until, now);
    LeaseKeepsRows(rows, owner, until, now);
    if leased.id.Some? {
      var id := leased.id.value;
      UnknownWasTried(leased.rows, id);
      WorkKeepsRows(leased.rows, id, now, env);
      if NextUpload(leased.rows[id].body).None? {
        CardsAreComplete(leased.rows[id].body);
        var sent := Sent(id, Outgoing(leased.rows[id].body).value);
        SentNow(leased.rows, sent);
        SentStaysRight(leased.rows, Work(leased.rows, id, now, env).rows, sent);
      }
    }
  }

  lemma SentNow(rows: seq<Row>, sent: Sent)
    requires sent.id < |rows| && NextUpload(rows[sent.id].body).None? && Outgoing(rows[sent.id].body) == Some(sent.content)
    ensures SentRight(rows, sent)
  {
  }

  // ---- Runs ----

  ghost predicate Inv(w: World) {
    && RowsInv(w.rows)
    && Ordered(w.rows, w.confirmed)
    && (forall k :: 0 <= k < |w.sent| ==> SentRight(w.rows, w.sent[k]))
    && !w.keyMissing
  }

  lemma StartInv()
    ensures Inv(START)
  {
  }

  lemma NextKeepsInv(w: World, a: Action)
    requires Inv(w)
    ensures Inv(Next(w, a))
  {
    hide RowsInv, Edges, Ordered, SentRight, RunOnce, Lease, Finish, Stage, Reconcile, Suppress, NewRow, NewlyConfirmed;
    NextKeepsRows(w, a);
    NextKeepsOrdered(w, a);
    var w' := Next(w, a);
    forall k | 0 <= k < |w.sent| ensures SentRight(w'.rows, w.sent[k]) {
      SentStaysRight(w.rows, w'.rows, w.sent[k]);
    }
    if a.WorkerPass? {
      PassSendsRight(w.rows, a.owner, a.until, a.now, a.env);
    }
  }

  lemma {:induction false} RunKeepsInv(w: World, actions: seq<Action>)
    requires Inv(w)
    ensures Inv(Run(w, actions)) && Edges(w.rows, Run(w, actions).rows)
    decreases |actions|
  {
    hide RowsInv, Ordered, Edges, Next;
    if actions == [] {
      EdgesReflexive(w.rows);
    } else {
      var mid := Next(w, actions[0]);
      NextKeepsInv(w, actions[0]);
      NextKeepsRows(w, actions[0]);
      RunKeepsInv(mid, actions[1..]);
      EdgesTransitive(w.rows, mid.rows, Run(mid, actions[1..]).rows);
    }
  }

  // ---- Main results ----

  ghost predicate InFlight(row: Row) {
    row.state.Leased? || row.state.Unknown?
  }

  /**
   In every run, whenever a row is leased or its outcome unknown, every earlier row of its turn
   is finished; so at most one row of a turn is in flight.
   */
  lemma OneInFlightPerTurn(actions: seq<Action>, id: nat)
    requires id < |Run(START, actions).rows| && InFlight(Run(START, actions).rows[id])
    ensures var rows := Run(START, actions).rows;
            forall e :: 0 <= e < |rows| && rows[e].turn.Some? && rows[e].turn == rows[id].turn && e != id ==>
              (e < id ==> Terminal(rows[e].state)) && !InFlight(rows[e])
  {
    hide Next, Ordered, SentRight;
    StartInv();
    RunKeepsInv(START, actions);
    var rows := Run(START, actions).rows;
    forall e | 0 <= e < |rows| && rows[e].turn.Some? && rows[e].turn == rows[id].turn && e != id
      ensures (e < id ==> Terminal(rows[e].state)) && !InFlight(rows[e])
    {
      InFlightIsFirst(rows, if e < id then e else id, if e < id then id else e);
    }
  }

  lemma InFlightIsFirst(rows: seq<Row>, earlier: nat, later: nat)
    requires RowsInv(rows) && earlier < later < |rows|
    requires rows[earlier].turn.Some? && rows[earlier].turn == rows[later].turn
    ensures InFlight(rows[later]) ==> Terminal(rows[earlier].state)
  {
    assert RowInv(rows[later]);
    assert rows[later].attempts > 0 ==> !Blocked(rows, later);
  }

  /** Confirmations within a turn happen in the order of the rows, each row at most once. */
  lemma ConfirmedInOrder(actions: seq<Action>)
    ensures var w := Run(START, actions);
            forall i, j :: 0 <= i < j < |w.confirmed| ==>
              && w.confirmed[i] < |w.rows| && w.confirmed[j] < |w.rows|
              && w.confirmed[i] != w.confirmed[j]
              && (w.rows[w.confirmed[i]].turn.Some? && w.rows[w.confirmed[i]].turn == w.rows[w.confirmed[j]].turn ==>
                    w.confirmed[i] < w.confirmed[j])
  {
    hide Next, RowsInv, SentRight, Edges;
    StartInv();
    RunKeepsInv(START, actions);
  }

  /** A finished row never changes state again, whoever writes. */
  lemma FinishedStaysFinished(actions: seq<Action>, more: seq<Action>, id: nat)
    requires id < |Run(START, actions).rows| && Terminal(Run(START, actions).rows[id].state)
    ensures var later := Run(Run(START, actions), more).rows;
            id < |later| && later[id].state == Run(START, actions).rows[id].state
  {
    hide Next, RowsInv, Ordered, SentRight, BodyExtends;
    StartInv();
    RunKeepsInv(START, actions);
    RunKeepsInv(Run(START, actions), more);
    assert Edge(Run(START, actions).rows[id], Run(Run(START, actions), more).rows[id]);
  }

  /** With every row due and none in flight, there is something to lease exactly when something is unfinished. */
  lemma NeverDeadlocks(rows: seq<Row>, owner: string, until: int, now: int)
    requires forall k :: 0 <= k < |rows| ==> rows[k].due <= now && !InFlight(rows[k])
    ensures Lease(rows, owner, until, now).id.Some? <==> exists k :: 0 <= k < |rows| && !Terminal(rows[k].state)
  {
    hide Choose, Blocked;
    assert Expire(rows, now) == rows;
    ChooseIsChoice(rows, now, |rows|);
    if k :| 0 <= k < |rows| && !Terminal(rows[k].state) {
      var first := FirstUnfinished(rows, k);
      ReadyIsDue(rows, first, now);
    }
  }

  lemma FirstUnfinished(rows: seq<Row>, k: nat) returns (first: nat)
    requires k < |rows| && !Terminal(rows[k].state)
    ensures first <= k && !Terminal(rows[first].state) && !Blocked(rows, first)
  {
    first := 0;
    while Terminal(rows[first].state)
      invariant first <= k
      invariant forall e :: 0 <= e < first ==> Terminal(rows[e].state)
      decreases k - first
    {
      first := first + 1;
    }
  }

  /** What is leased is the choice of the documented order: due, unblocked, highest priority, then oldest. */
  lemma LeasesTheChoice(rows: seq<Row>, owner: string, until: int, now: int)
    ensures IsChoice(Expire(rows, now), now, Lease(rows, owner, until, now).id)
  {
    hide Ready;
    ChooseIsChoice(Expire(rows, now), now, |rows|);
  }

  function KeysOf(body: Body): seq<Option<string>> {
    match body
    case PlainText(_) => []
    case ImageFile(key) => [key]
    case AttachedFile(key) => [key]
    case Card(_, keys) => keys
  }

  /** A pass with a successful upload writes one key, the next missing one, and lowers the number still missing. */
  lemma UploadsConverge(rows: seq<Row>, id: nat, now: int, env: Env)
    requires id < |rows| && NextUpload(rows[id].body).Some?
    requires env.route.Routed? && env.crash.Never? && env.upload.Uploaded? && env.upload.key != ""
    ensures var pass := Work(rows, id, now, env);
            var before, after := KeysOf(rows[id].body), KeysOf(pass.rows[id].body);
            && pass.sent.None?
            && NextUpload(rows[id].body).value < |before|
            && after == before[NextUpload(rows[id].body).value := Some(env.upload.key)]
            && MissingCount(after) == MissingCount(before) - 1
            && pass.rows[id].state.Retryable?
  {
    hide FirstMissing, MissingCount;
    var body := rows[id].body;
    SettingKeyLowersMissing(KeysOf(body), NextUpload(body).value, env.upload.key);
  }

  /** A sent card shows every image of its row, in order, under the key that was uploaded for it. */
  ghost predicate SentWhole(rows: seq<Row>, sent: Sent)
    requires sent.id < |rows|
  {
    sent.content.SentCard? ==>
      && rows[sent.id].body.Card?
      && var shown, keys := ImageKeys(sent.content.elements), rows[sent.id].body.keys;
         |shown| == |keys| && forall k :: 0 <= k < |keys| ==> keys[k] == Some(shown[k])
  }

  lemma SentIsWhole(rows: seq<Row>, sent: Sent)
    requires RowsInv(rows) && SentRight(rows, sent)
    ensures SentWhole(rows, sent)
  {
    hide Ordinals, ImageKeys, Fill;
    assert RowInv(rows[sent.id]);
    var body := rows[sent.id].body;
    if body.Card? {
      FilledInOrder(body.elements, body.keys);
    }
  }

  /**
   In every run a card is never given up for a missing key, and the content built from a row's body
   (a card or an uploaded file above all) is the same in every send of the row.
   */
  lemma CardsAreSentWhole(actions: seq<Action>)
    ensures var w := Run(START, actions);
            && !w.keyMissing
            && (forall k :: 0 <= k < |w.sent| ==> SentRight(w.rows, w.sent[k]) && SentWhole(w.rows, w.sent[k]))
            && (forall i, j :: 0 <= i < j < |w.sent| && w.sent[i].id == w.sent[j].id ==> w.sent[i] == w.sent[j])
  {
    hide Next, RowsInv, Ordered, Edges, NextUpload, Outgoing, SentWhole;
    StartInv();
    RunKeepsInv(START, actions);
    var w := Run(START, actions);
    forall k | 0 <= k < |w.sent| ensures SentWhole(w.rows, w.sent[k]) {
      SentIsWhole(w.rows, w.sent[k]);
    }
    forall i, j | 0 <= i < j < |w.sent| && w.sent[i].id == w.sent[j].id ensures w.sent[i] == w.sent[j] {
      assert SentRight(w.rows, w.sent[i]) && SentRight(w.rows, w.sent[j]);
    }
  }
}
