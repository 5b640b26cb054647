/**
 Single-use approvals: issued once per server request, consumed by one card action or by the
 automatic decision, answered at most once, and cancelled by an emergency stop.
 */
module Approvals {
  import opened Options

  datatype ApprovalState =
    | Issued | ActionCommitted | ResponseSending | Resolved | Rejected | Expired | Cancelled | OutcomeUnknown

  /** The declared transition table. */
  predicate Allowed(a: ApprovalState, b: ApprovalState) {
    match a
    case Issued => b.ActionCommitted? || b.Rejected? || b.Expired? || b.Cancelled?
    case ActionCommitted => b.ResponseSending? || b.Cancelled?
    case ResponseSending => b.Resolved? || b.Rejected? || b.OutcomeUnknown?
    case OutcomeUnknown => b.Resolved? || b.Rejected?
    case _ => false
  }

  /** Everything a decision must agree with, as pinned when the approval was issued. */
  datatype Context = Context(
    tenant: string, app: string, chat: string, card: string,
    bindingEpoch: int, identityEpoch: int, killGeneration: int,
    serverEpoch: string, connectionEpoch: string, session: string, fencingToken: int)

  /** A server request as the App Server names it. */
  datatype RequestKey = RequestKey(serverEpoch: string, connectionEpoch: string, id: string)

  datatype Subject = Subject(approval: string, content: string, serverMethod: string, thread: string, turn: Option<string>)

  /** A row of approval_requests. */
  datatype Request = Request(state: ApprovalState, content: string, responseHash: Option<string>)

  /** A row of approval_actions. */
  datatype ActionRow = ActionRow(
    subject: Subject,
    request: RequestKey,
    context: Context,
    decisions: map<string, string>,
    expires: int,
    consumed: bool,
    decision: Option<string>)

  /** actions is keyed by token hash; byRequest is the unique index over server requests. */
  datatype Tables = Tables(
    requests: map<string, Request>,
    actions: map<string, ActionRow>,
    byRequest: map<RequestKey, string>,
    killGeneration: int)

  datatype ApprovalError =
    | BadIssue | IdentityReused | KeyConflict
    | BadToken | TokenExpired | ContextMismatch | DecisionNotOffered | StateLost
    | HashLost | ResultLost

  datatype IssueOutcome = Created | AlreadyIssued

  function RequestKeyOf(context: Context, id: string): RequestKey {
    RequestKey(context.serverEpoch, context.connectionEpoch, id)
  }

  // ---- What each transaction does ----

  function Issue(t: Tables, token: string, requestId: string, subject: Subject, context: Context,
                 decisions: map<string, string>, ttl: int, now: int): Result<(Tables, IssueOutcome), ApprovalError>
  {
    var key := RequestKeyOf(context, requestId);
    if ttl <= 0 || decisions == map[] then Err(BadIssue)
    else if key in t.byRequest && t.byRequest[key] in t.actions then
      var existing := t.actions[t.byRequest[key]];
      if existing.subject == subject && existing.context.session == context.session then Ok((t, AlreadyIssued))
      else Err(IdentityReused)
    else if subject.approval in t.requests || token in t.actions then Err(KeyConflict)
    else
      Ok((t.(requests := t.requests[subject.approval := Request(Issued, subject.content, None)],
             actions := t.actions[token := ActionRow(subject, key, context, decisions, now + ttl, false, None)],
             byRequest := t.byRequest[key := token]), Created))
  }

  function SetState(t: Tables, approval: string, state: ApprovalState): Tables
    requires approval in t.requests
  {
    t.(requests := t.requests[approval := t.requests[approval].(state := state)])
  }

  /** Consumes the token; the state of an expired one stays, because the raise takes its update back. */
  function CommitCardAction(t: Tables, token: string, decision: string, context: Context, now: int)
    : Result<Tables, ApprovalError>
  {
    if token !in t.actions || t.actions[token].consumed then Err(BadToken)
    else
      var row := t.actions[token];
      if row.expires <= now then Err(TokenExpired)
      else if row.context != context then Err(ContextMismatch)
      else if decision !in row.decisions then Err(DecisionNotOffered)
      else if row.subject.approval !in t.requests || !t.requests[row.subject.approval].state.Issued? then Err(StateLost)
      else
        Ok(SetState(t.(actions := t.actions[token := row.(consumed := true, decision := Some(decision))]),
                    row.subject.approval, ActionCommitted))
  }

  function CommitExactResponse(t: Tables, approval: string, hash: string): Result<Tables, ApprovalError> {
    if approval in t.requests && t.requests[approval].state.ActionCommitted? && t.requests[approval].responseHash.None? then
      Ok(t.(requests := t.requests[approval := t.requests[approval].(state := ResponseSending, responseHash := Some(hash))]))
    else Err(HashLost)
  }

  function RecordResult(t: Tables, approval: string, accepted: Option<bool>): Result<Tables, ApprovalError> {
    if approval in t.requests && t.requests[approval].state.ResponseSending? && t.requests[approval].responseHash.Some? then
      Ok(SetState(t, approval, if accepted.None? then OutcomeUnknown else if accepted.value then Resolved else Rejected))
    else Err(ResultLost)
  }

  function ObserveResolved(t: Tables, key: RequestKey): Tables {
    if key in t.byRequest && t.byRequest[key] in t.actions then
      var approval := t.actions[t.byRequest[key]].subject.approval;
      if approval in t.requests && (t.requests[approval].state.ResponseSending? || t.requests[approval].state.OutcomeUnknown?)
      then SetState(t, approval, Resolved) else t
    else t
  }

  function Stopped(r: Request): Request {
    if r.state.Issued? || r.state.ActionCommitted? then r.(state := Cancelled) else r
  }

  function HardStop(t: Tables): Tables {
    Tables(map id | id in t.requests :: Stopped(t.requests[id]),
           map token | token in t.actions :: t.actions[token].(consumed := true),
           t.byRequest,
           t.killGeneration + 1)
  }

  class ApprovalStore {
    var requests: map<string, Request>
    var actions: map<string, ActionRow>
    var byRequest: map<RequestKey, string>
    var killGeneration: int

    constructor (killGeneration: int)
      ensures Contents() == Tables(map[], map[], map[], killGeneration)
    {
      requests, actions, byRequest, this.killGeneration := map[], map[], map[], killGeneration;
    }

    function Contents(): Tables
      reads this
    {
      Tables(requests, actions, byRequest, killGeneration)
    }

    method IssueApproval(token: string, requestId: string, subject: Subject, context: Context,
                         decisions: map<string, string>, ttl: int, now: int) returns (r: Result<IssueOutcome, ApprovalError>)
      modifies this
      ensures match Issue(old(Contents()), token, requestId, subject, context, decisions, ttl, now) {
                case Err(e) => r == Err(e) && Contents() == old(Contents())
                case Ok(after) => r == Ok(after.1) && Contents() == after.0
              }
    {
      if ttl <= 0 || decisions == map[] {
        return Err(BadIssue);
      }
      var key := RequestKeyOf(context, requestId);
      if key in byRequest && byRequest[key] in actions {
        var existing := actions[byRequest[key]];
        if existing.subject != subject || existing.context.session != context.session {
          return Err(IdentityReused);
        }
        return Ok(AlreadyIssued);
      }
      if subject.approval in requests {
        return Err(KeyConflict);
      }
      var saved := requests;
      requests := requests[subject.approval := Request(Issued, subject.content, None)];
      if token in actions {
        requests := saved;
        return Err(KeyConflict);
      }
      actions := actions[token := ActionRow(subject, key, context, decisions, now + ttl, false, None)];
      byRequest := byRequest[key := token];
      return Ok(Created);
    }

    method Commit(token: string, decision: string, context: Context, now: int) returns (r: Result<string, ApprovalError>)
      modifies this
      ensures match CommitCardAction(old(Contents()), token, decision, context, now) {
                case Err(e) => r == Err(e) && Contents() == old(Contents())
                case Ok(after) =>
                  && Contents() == after
                  && token in old(actions) && decision in old(actions)[token].decisions
                  && r == Ok(old(actions)[token].decisions[decision])
              }
    {
      if token !in actions || actions[token].consumed {
        return Err(BadToken);
      }
      var row := actions[token];
      var approval := row.subject.approval;
      if row.expires <= now {
        var saved := requests;
        if approval in requests && requests[approval].state.Issued? {
          requests := requests[approval := requests[approval].(state := Expired)];
        }
        requests := saved;
        return Err(TokenExpired);
      }
      if row.context != context {
        return Err(ContextMismatch);
      }
      if decision !in row.decisions {
        return Err(DecisionNotOffered);
      }
      var savedActions := actions;
      actions := actions[token := row.(consumed := true, decision := Some(decision))];
      if approval !in requests || !requests[approval].state.Issued? {
        actions := savedActions;
        return Err(StateLost);
      }
      requests := requests[approval := requests[approval].(state := ActionCommitted)];
      return Ok(row.decisions[decision]);
    }

    method PrepareResponse(approval: string, hash: string) returns (r: Result<bool, ApprovalError>)
      modifies this
      ensures match CommitExactResponse(old(Contents()), approval, hash) {
                case Err(e) => r == Err(e) && Contents() == old(Contents())
                case Ok(after) => r == Ok(true) && Contents() == after
              }
    {
      if approval !in requests || !requests[approval].state.ActionCommitted? || requests[approval].responseHash.Some? {
        return Err(HashLost);
      }
      requests := requests[approval := requests[approval].(state := ResponseSending, responseHash := Some(hash))];
      return Ok(true);
    }

    method RecordResponseResult(approval: string, accepted: Option<bool>) returns (r: Result<bool, ApprovalError>)
      modifies this
      ensures match RecordResult(old(Contents()), approval, accepted) {
                case Err(e) => r == Err(e) && Contents() == old(Contents())
                case Ok(after) => r == Ok(true) && Contents() == after
              }
    {
      if approval !in requests || !requests[approval].state.ResponseSending? || requests[approval].responseHash.None? {
        return Err(ResultLost);
      }
      var target := if accepted.None? then OutcomeUnknown else if accepted.value then Resolved else Rejected;
      requests := requests[approval := requests[approval].(state := target)];
      return Ok(true);
    }

    method ObserveResolution(key: RequestKey)
      modifies this
      ensures Contents() == ObserveResolved(old(Contents()), key)
    {
      if key !in byRequest || byRequest[key] !in actions {
        return;
      }
      var approval := actions[byRequest[key]].subject.approval;
      if approval in requests && (requests[approval].state.ResponseSending? || requests[approval].state.OutcomeUnknown?) {
        requests := requests[approval := requests[approval].(state := Resolved)];
      }
    }

    method EmergencyStop()
      modifies this
      ensures Contents() == HardStop(old(Contents()))
    {
      killGeneration := killGeneration + 1;
      requests := map id | id in requests :: Stopped(requests[id]);
      actions := map token | token in actions :: actions[token].(consumed := true);
    }
  }

  // ---- Threads that race ----

  /** Where one thread is between the steps of answering one approval. */
  datatype Progress =
    | Committed(approval: string, response: string)
    | Prepared(approval: string, response: string)
    | Responded(approval: string)

  /** A decision written to the App Server. */
  datatype Wire = Wire(approval: string, response: string)

  /** An error answered to a server request at once. */
  datatype Refusal = Refusal(key: RequestKey, code: int)

  const NOT_AVAILABLE := -32601
  const INVALID_PARAMETERS := -32602
  const CONFLICTING := -32600

  datatype World = World(tables: Tables, threads: map<nat, Progress>, wire: seq<Wire>, refusals: seq<Refusal>)

  /** hash is the exact-response hash; resolve fills a decision that needs the user's input. */
  datatype Setup = Setup(hash: string -> string, resolve: (string, string) -> string)

  /**
   Reject is a server request that does not get as far as an issue: its method is not one that asks for
   approval, or its parameters are no object.
   */
  datatype Action =
    | Reject(key: RequestKey, knownMethod: bool)
    | IssueOne(token: string, requestId: string, subject: Subject, context: Context, decisions: map<string, string>, ttl: int, now: int)
    | DeliverCard(token: string, card: string)
    | CommitOne(thread: nat, token: string, decision: string, context: Context, input: string, now: int)
    | Prepare(thread: nat)
    | Respond(thread: nat, reached: bool)
    | Record(thread: nat, accepted: Option<bool>)
    | Observe(key: RequestKey)
    | Stop
    | Abort(thread: nat)
    | Crash

  function Next(setup: Setup, w: World, a: Action): World {
    match a
    case Reject(key, knownMethod) =>
      w.(refusals := w.refusals + [Refusal(key, if knownMethod then INVALID_PARAMETERS else NOT_AVAILABLE)])
    case IssueOne(token, requestId, subject, context, decisions, ttl, now) =>
      var r := Issue(w.tables, token, requestId, subject, context, decisions, ttl, now);
      if r.Ok? then w.(tables := r.value.0)
      else if r.error.BadIssue? || r.error.IdentityReused? then
        w.(refusals := w.refusals + [Refusal(RequestKeyOf(context, requestId), CONFLICTING)])
      else w
    case DeliverCard(token, card) =>
      if token in w.tables.actions then
        w.(tables := w.tables.(actions := w.tables.actions[token := w.tables.actions[token].(context := w.tables.actions[token].context.(card := card))]))
      else w
    case CommitOne(thread, token, decision, context, input, now) =>
      var r := CommitCardAction(w.tables, token, decision, context, now);
      if thread in w.threads || r.Err? then w
      else
        var row := w.tables.actions[token];
        w.(tables := r.value,
           threads := w.threads[thread := Committed(row.subject.approval, setup.resolve(row.decisions[decision], input))])
    case Prepare(thread) =>
      if thread in w.threads && w.threads[thread].Committed? then
        var p := w.threads[thread];
        var r := CommitExactResponse(w.tables, p.approval, setup.hash(p.response));
        if r.Ok? then w.(tables := r.value, threads := w.threads[thread := Prepared(p.approval, p.response)])
        else w.(threads := w.threads - {thread})
      else w
    case Respond(thread, reached) =>
      if thread in w.threads && w.threads[thread].Prepared? then
        var p := w.threads[thread];
        w.(threads := w.threads[thread := Responded(p.approval)],
           wire := if reached then w.wire + [Wire(p.approval, p.response)] else w.wire)
      else w
    case Record(thread, accepted) =>
      if thread in w.threads && w.threads[thread].Responded? then
        var r := RecordResult(w.tables, w.threads[thread].approval, accepted);
        w.(tables := if r.Ok? then r.value else w.tables, threads := w.threads - {thread})
      else w
    case Observe(key) => w.(tables := ObserveResolved(w.tables, key))
    case Stop => w.(tables := HardStop(w.tables))
    case Abort(thread) => w.(threads := w.threads - {thread})
    case Crash => w.(threads := map[])
  }

  function Run(setup: Setup, w: World, actions: seq<Action>): World
    decreases |actions|
  {
    if actions == [] then w else Run(setup, Next(setup, w, actions[0]), actions[1..])
  }

  ghost predicate Initial(w: World) {
    w.tables.requests == map[] && w.tables.actions == map[] && w.tables.byRequest == map[] && w.threads == map[] && w.wire == []
    && w.refusals == []
  }

  // ---- What every step keeps ----

  /** A token is unconsumed exactly while its approval is issued. */
  ghost predicate RowsAgree(t: Tables) {
    forall token :: token in t.actions ==>
      && t.actions[token].subject.approval in t.requests
      && (!t.actions[token].consumed <==> t.requests[t.actions[token].subject.approval].state.Issued?)
  }

  /** One action row per approval. */
  ghost predicate OneRowEach(t: Tables) {
    forall a, b :: a in t.actions && b in t.actions && a != b ==>
      t.actions[a].subject.approval != t.actions[b].subject.approval
  }

  ghost predicate HashesFit(t: Tables) {
    forall id :: id in t.requests ==>
      && (t.requests[id].responseHash.Some? ==> !Unanswered(t.requests[id].state))
      && (t.requests[id].state.ResponseSending? || t.requests[id].state.OutcomeUnknown? ==> t.requests[id].responseHash.Some?)
  }

  ghost predicate TablesInv(t: Tables) {
    RowsAgree(t) && OneRowEach(t) && HashesFit(t)
  }

  /** No response can have been prepared. */
  predicate Unanswered(s: ApprovalState) {
    s.Issued? || s.ActionCommitted? || s.Cancelled? || s.Expired?
  }

  ghost predicate ThreadInv(setup: Setup, t: Tables, p: Progress) {
    && p.approval in t.requests
    && !t.requests[p.approval].state.Issued?
    && (p.Committed? ==> Unanswered(t.requests[p.approval].state))
    && (p.Prepared? ==> t.requests[p.approval].responseHash == Some(setup.hash(p.response)))
    && (p.Responded? ==> t.requests[p.approval].responseHash.Some?)
  }

  ghost predicate WireInv(setup: Setup, t: Tables, m: Wire) {
    m.approval in t.requests && t.requests[m.approval].responseHash == Some(setup.hash(m.response))
  }

  ghost predicate Inv(setup: Setup, w: World) {
    && TablesInv(w.tables)
    && (forall x :: x in w.threads ==> ThreadInv(setup, w.tables, w.threads[x]))
    && (forall x, y :: x in w.threads && y in w.threads && x != y ==> w.threads[x].approval != w.threads[y].approval)
    && (forall k :: 0 <= k < |w.wire| ==> WireInv(setup, w.tables, w.wire[k]))
    && (forall k, x :: 0 <= k < |w.wire| && x in w.threads && w.threads[x].approval == w.wire[k].approval ==> w.threads[x].Responded?)
    && (forall i, j :: 0 <= i < j < |w.wire| ==> w.wire[i].approval != w.wire[j].approval)
  }

  /** How one step may change the request rows: states move along the table, hashes are written once. */
  ghost predicate Moves(t: Tables, t': Tables) {
    forall id :: id in t.requests ==>
      && id in t'.requests
      && (t'.requests[id].state == t.requests[id].state || Allowed(t.requests[id].state, t'.requests[id].state))
      && (t.requests[id].responseHash.Some? ==> t'.requests[id].responseHash == t.requests[id].responseHash)
  }

  /** A state change of one request row that touches no action row. */
  lemma SetRequestMoves(t: Tables, id: string, r: Request)
    requires TablesInv(t) && id in t.requests
    requires Allowed(t.requests[id].state, r.state) && !t.requests[id].state.Issued? && !r.state.Issued?
    requires t.requests[id].responseHash.Some? ==> r.responseHash == t.requests[id].responseHash
    requires (r.responseHash.Some? ==> !Unanswered(r.state)) && (r.state.ResponseSending? || r.state.OutcomeUnknown? ==> r.responseHash.Some?)
    ensures var t' := t.(requests := t.requests[id := r]); TablesInv(t') && Moves(t, t')
  {
  }

  lemma IssueMoves(t: Tables, token: string, requestId: string, subject: Subject, context: Context,
                   decisions: map<string, string>, ttl: int, now: int)
    requires TablesInv(t)
    ensures var r := Issue(t, token, requestId, subject, context, decisions, ttl, now);
            r.Ok? ==> TablesInv(r.value.0) && Moves(t, r.value.0)
  {
    hide Moves, TablesInv, Allowed, Unanswered;
    var r := Issue(t, token, requestId, subject, context, decisions, ttl, now);
    if r.Ok? && r.value.1.Created? {
      var row := ActionRow(subject, RequestKeyOf(context, requestId), context, decisions, now + ttl, false, None);
      NewRowsKeepTables(t, r.value.0, token, row);
    }
    NothingMoves(t);
  }

  lemma NewRowsKeepTables(t: Tables, t': Tables, token: string, row: ActionRow)
    requires TablesInv(t) && token !in t.actions && row.subject.approval !in t.requests && !row.consumed
    requires t'.actions == t.actions[token := row]
    requires t'.requests == t.requests[row.subject.approval := Request(Issued, row.subject.content, None)]
    ensures TablesInv(t') && Moves(t, t')
  {
    hide Allowed, Unanswered, RowsAgree, OneRowEach, HashesFit;
    NewRowAgrees(t, t', token, row);
    NewRowIsTheOnlyOne(t, t', token, row);
    NewRequestFits(t, t', row.subject.approval, row.subject.content);
    assert forall id :: id in t.requests ==> id in t'.requests && t'.requests[id] == t.requests[id];
  }

  lemma NewRowAgrees(t: Tables, t': Tables, token: string, row: ActionRow)
    requires RowsAgree(t) && token !in t.actions && row.subject.approval !in t.requests && !row.consumed
    requires t'.actions == t.actions[token := row]
    requires t'.requests == t.requests[row.subject.approval := Request(Issued, row.subject.content, None)]
    ensures RowsAgree(t')
  {
  }

  lemma NewRowIsTheOnlyOne(t: Tables, t': Tables, token: string, row: ActionRow)
    requires RowsAgree(t) && OneRowEach(t) && token !in t.actions && row.subject.approval !in t.requests
    requires t'.actions == t.actions[token := row]
    ensures OneRowEach(t')
  {
  }

  lemma NewRequestFits(t: Tables, t': Tables, id: string, content: string)
    requires HashesFit(t) && t'.requests == t.requests[id := Request(Issued, content, None)]
    ensures HashesFit(t')
  {
  }

  lemma CommitMoves(t: Tables, token: string, decision: string, context: Context, now: int)
    requires TablesInv(t)
    ensures var r := CommitCardAction(t, token, decision, context, now);
            r.Ok? ==>
              && TablesInv(r.value) && Moves(t, r.value)
              && token in t.actions && t.actions[token].subject.approval in t.requests
              && decision in t.actions[token].decisions
              && t.requests[t.actions[token].subject.approval].state.Issued?
              && t.requests[t.actions[token].subject.approval].responseHash.None?
              && r.value.requests == t.requests[t.actions[token].subject.approval :=
                                                 t.requests[t.actions[token].subject.approval].(state := ActionCommitted)]
  {
  }

  lemma PrepareMoves(t: Tables, approval: string, hash: string)
    requires TablesInv(t)
    ensures var r := CommitExactResponse(t, approval, hash);
            r.Ok? ==> TablesInv(r.value) && Moves(t, r.value)
  {
    hide TablesInv, Moves;
    var r := CommitExactResponse(t, approval, hash);
    if r.Ok? {
      SetRequestMoves(t, approval, r.value.requests[approval]);
    }
  }

  lemma RecordMoves(t: Tables, approval: string, accepted: Option<bool>)
    requires TablesInv(t)
    ensures var r := RecordResult(t, approval, accepted);
            r.Ok? ==> TablesInv(r.value) && Moves(t, r.value)
  {
    hide TablesInv, Moves;
    var r := RecordResult(t, approval, accepted);
    if r.Ok? {
      SetRequestMoves(t, approval, r.value.requests[approval]);
    }
  }

  lemma ObserveMoves(t: Tables, key: RequestKey)
    requires TablesInv(t)
    ensures TablesInv(ObserveResolved(t, key)) && Moves(t, ObserveResolved(t, key))
  {
    hide TablesInv, Moves;
    NothingMoves(t);
    if ObserveResolved(t, key) != t {
      var id := t.actions[t.byRequest[key]].subject.approval;
      AnsweredHasHash(t, id);
      SetRequestMoves(t, id, ObserveResolved(t, key).requests[id]);
    }
  }

  lemma AnsweredHasHash(t: Tables, id: string)
    requires TablesInv(t) && id in t.requests && (t.requests[id].state.ResponseSending? || t.requests[id].state.OutcomeUnknown?)
    ensures t.requests[id].responseHash.Some?
  {
  }

  lemma NothingMoves(t: Tables)
    ensures Moves(t, t)
  {
  }

  lemma StopMoves(t: Tables)
    requires TablesInv(t)
    ensures TablesInv(HardStop(t)) && Moves(t, HardStop(t))
  {
  }

  /** Steps that change no thread and no wire keep the rest. */
  lemma MovesKeepInv(setup: Setup, w: World, t': Tables)
    requires Inv(setup, w) && TablesInv(t') && Moves(w.tables, t')
    requires forall x :: x in w.threads && w.threads[x].Committed? ==>
               w.threads[x].approval in t'.requests && Unanswered(t'.requests[w.threads[x].approval].state)
    ensures Inv(setup, w.(tables := t'))
  {
    hide TablesInv;
  }

  lemma DropKeepsInv(setup: Setup, w: World, gone: set<nat>)
    requires Inv(setup, w)
    ensures Inv(setup, w.(threads := w.threads - gone))
  {
    hide TablesInv, ThreadInv, WireInv;
  }

  lemma CommitKeepsInv(setup: Setup, w: World, a: Action)
    requires Inv(setup, w) && a.CommitOne?
    ensures Inv(setup, Next(setup, w, a))
  {
    hide TablesInv, CommitCardAction;
    CommitMoves(w.tables, a.token, a.decision, a.context, a.now);
    var r := CommitCardAction(w.tables, a.token, a.decision, a.context, a.now);
    if r.Ok? && a.thread !in w.threads {
      MovesKeepInv(setup, w, r.value);
      var id := w.tables.actions[a.token].subject.approval;
      assert forall x :: x in w.threads ==> w.threads[x].approval != id;
      assert forall k :: 0 <= k < |w.wire| ==> w.wire[k].approval != id;
    }
  }

  lemma PrepareKeepsInv(setup: Setup, w: World, thread: nat)
    requires Inv(setup, w) && thread in w.threads && w.threads[thread].Committed?
    ensures Inv(setup, Next(setup, w, Prepare(thread)))
  {
    hide TablesInv, Moves;
    var p := w.threads[thread];
    var rest := w.(threads := w.threads - {thread});
    DropKeepsInv(setup, w, {thread});
    PrepareMoves(w.tables, p.approval, setup.hash(p.response));
    var r := CommitExactResponse(w.tables, p.approval, setup.hash(p.response));
    if r.Ok? {
      MovesKeepInv(setup, rest, r.value);
      assert forall k :: 0 <= k < |w.wire| ==> w.wire[k].approval != p.approval;
    }
  }

  lemma RespondKeepsInv(setup: Setup, w: World, thread: nat, reached: bool)
    requires Inv(setup, w) && thread in w.threads && w.threads[thread].Prepared?
    ensures Inv(setup, Next(setup, w, Respond(thread, reached)))
  {
    hide TablesInv;
    var p := w.threads[thread];
    assert ThreadInv(setup, w.tables, p);
    assert forall k :: 0 <= k < |w.wire| ==> w.wire[k].approval != p.approval;
  }

  lemma RecordKeepsInv(setup: Setup, w: World, thread: nat, accepted: Option<bool>)
    requires Inv(setup, w) && thread in w.threads && w.threads[thread].Responded?
    ensures Inv(setup, Next(setup, w, Record(thread, accepted)))
  {
    hide TablesInv;
    var p := w.threads[thread];
    DropKeepsInv(setup, w, {thread});
    RecordMoves(w.tables, p.approval, accepted);
    var r := RecordResult(w.tables, p.approval, accepted);
    if r.Ok? {
      MovesKeepInv(setup, w.(threads := w.threads - {thread}), r.value);
    }
  }

  lemma IssueKeepsInv(setup: Setup, w: World, a: Action)
    requires Inv(setup, w) && a.IssueOne?
    ensures Inv(setup, Next(setup, w, a))
  {
    hide TablesInv;
    IssueMoves(w.tables, a.token, a.requestId, a.subject, a.context, a.decisions, a.ttl, a.now);
    var r := Issue(w.tables, a.token, a.requestId, a.subject, a.context, a.decisions, a.ttl, a.now);
    if r.Ok? {
      MovesKeepInv(setup, w, r.value.0);
    }
  }

  lemma DeliverKeepsTables(t: Tables, token: string, card: string)
    requires TablesInv(t) && token in t.actions
    ensures TablesInv(t.(actions := t.actions[token := t.actions[token].(context := t.actions[token].context.(card := card))]))
  {
  }

  lemma TablesStepKeepsInv(setup: Setup, w: World, a: Action)
    requires Inv(setup, w) && (a.DeliverCard? || a.Observe? || a.Stop? || a.Reject?)
    ensures Inv(setup, Next(setup, w, a))
  {
    hide TablesInv;
    if a.DeliverCard? {
      if a.token in w.tables.actions {
        DeliverKeepsTables(w.tables, a.token, a.card);
        MovesKeepInv(setup, w, Next(setup, w, a).tables);
      }
    } else if a.Observe? {
      ObserveMoves(w.tables, a.key);
      MovesKeepInv(setup, w, ObserveResolved(w.tables, a.key));
    } else if a.Stop? {
      StopMoves(w.tables);
      MovesKeepInv(setup, w, HardStop(w.tables));
    }
  }

  lemma NextKeepsInv(setup: Setup, w: World, a: Action)
    requires Inv(setup, w)
    ensures Inv(setup, Next(setup, w, a))
  {
    hide Inv, Issue, CommitCardAction, CommitExactResponse, RecordResult, ObserveResolved, HardStop;
    match a {
      case IssueOne(_, _, _, _, _, _, _) => IssueKeepsInv(setup, w, a);
      case CommitOne(_, _, _, _, _, _) => CommitKeepsInv(setup, w, a);
      case Prepare(thread) => if thread in w.threads && w.threads[thread].Committed? { PrepareKeepsInv(setup, w, thread); }
      case Respond(thread, reached) => if thread in w.threads && w.threads[thread].Prepared? { RespondKeepsInv(setup, w, thread, reached); }
      case Record(thread, accepted) => if thread in w.threads && w.threads[thread].Responded? { RecordKeepsInv(setup, w, thread, accepted); }
      case Abort(thread) => DropKeepsInv(setup, w, {thread});
      case Crash =>
        DropKeepsInv(setup, w, w.threads.Keys);
        assert w.threads - w.threads.Keys == map[];
      case _ => TablesStepKeepsInv(setup, w, a);
    }
  }

  lemma {:induction false} RunKeepsInv(setup: Setup, w: World, actions: seq<Action>)
    requires Inv(setup, w)
    ensures Inv(setup, Run(setup, w, actions))
    decreases |actions|
  {
    hide Inv, Next;
    if actions != [] {
      NextKeepsInv(setup, w, actions[0]);
      RunKeepsInv(setup, Next(setup, w, actions[0]), actions[1..]);
    }
  }

  // ---- The answer is the pinned one ----

  /** The response answers the decision recorded with the approval's consumed token. */
  ghost predicate Pinned(setup: Setup, t: Tables, approval: string, response: string) {
    exists token, input :: Answers(setup, t, approval, response, token, input)
  }

  ghost predicate Answers(setup: Setup, t: Tables, approval: string, response: string, token: string, input: string) {
    && token in t.actions
    && var row := t.actions[token];
       && row.subject.approval == approval && row.consumed
       && row.decision.Some? && row.decision.value in row.decisions
       && response == setup.resolve(row.decisions[row.decision.value], input)
  }

  /** A consumed token keeps its approval, its decisions and the one that was taken. */
  ghost predicate KeepsConsumed(t: Tables, t': Tables) {
    forall token :: token in t.actions && t.actions[token].consumed ==>
      && token in t'.actions && t'.actions[token].consumed
      && t'.actions[token].subject == t.actions[token].subject
      && t'.actions[token].decisions == t.actions[token].decisions
      && t'.actions[token].decision == t.actions[token].decision
  }

  ghost predicate PinInv(setup: Setup, w: World) {
    && (forall x :: x in w.threads && !w.threads[x].Responded? ==>
          Pinned(setup, w.tables, w.threads[x].approval, w.threads[x].response))
    && (forall k :: 0 <= k < |w.wire| ==> Pinned(setup, w.tables, w.wire[k].approval, w.wire[k].response))
  }

  lemma PinnedKept(setup: Setup, t: Tables, t': Tables, approval: string, response: string)
    requires KeepsConsumed(t, t') && Pinned(setup, t, approval, response)
    ensures Pinned(setup, t', approval, response)
  {
    var token, input :| Answers(setup, t, approval, response, token, input);
    assert Answers(setup, t', approval, response, token, input);
  }

  lemma IssueKeepsConsumed(t: Tables, token: string, requestId: string, subject: Subject, context: Context,
                           decisions: map<string, string>, ttl: int, now: int)
    ensures var r := Issue(t, token, requestId, subject, context, decisions, ttl, now);
            r.Ok? ==> KeepsConsumed(t, r.value.0)
  {
  }

  lemma CommitKeepsConsumed(t: Tables, token: string, decision: string, context: Context, now: int)
    ensures var r := CommitCardAction(t, token, decision, context, now);
            r.Ok? ==> KeepsConsumed(t, r.value)
  {
  }

  lemma NextKeepsConsumed(setup: Setup, w: World, a: Action)
    ensures KeepsConsumed(w.tables, Next(setup, w, a).tables)
  {
    hide Issue, CommitCardAction;
    if a.IssueOne? {
      IssueKeepsConsumed(w.tables, a.token, a.requestId, a.subject, a.context, a.decisions, a.ttl, a.now);
    } else if a.CommitOne? {
      CommitKeepsConsumed(w.tables, a.token, a.decision, a.context, a.now);
    }
  }

  lemma CommitPins(setup: Setup, w: World, a: Action)
    requires a.CommitOne? && CommitCardAction(w.tables, a.token, a.decision, a.context, a.now).Ok? && a.thread !in w.threads
    ensures var w' := Next(setup, w, a);
            Pinned(setup, w'.tables, w'.threads[a.thread].approval, w'.threads[a.thread].response)
  {
    var w' := Next(setup, w, a);
    assert Answers(setup, w'.tables, w'.threads[a.thread].approval, w'.threads[a.thread].response, a.token, a.input);
  }

  lemma NextKeepsPins(setup: Setup, w: World, a: Action)
    requires PinInv(setup, w)
    ensures PinInv(setup, Next(setup, w, a))
  {
    hide Pinned, KeepsConsumed, Issue, CommitCardAction, CommitExactResponse, RecordResult, ObserveResolved, HardStop;
    var w' := Next(setup, w, a);
    NextKeepsConsumed(setup, w, a);
    if a.CommitOne? && CommitCardAction(w.tables, a.token, a.decision, a.context, a.now).Ok? && a.thread !in w.threads {
      CommitPins(setup, w, a);
    }
    forall x | x in w.threads && !w.threads[x].Responded?
      ensures Pinned(setup, w'.tables, w.threads[x].approval, w.threads[x].response)
    {
      PinnedKept(setup, w.tables, w'.tables, w.threads[x].approval, w.threads[x].response);
    }
    forall k | 0 <= k < |w.wire| ensures Pinned(setup, w'.tables, w.wire[k].approval, w.wire[k].response) {
      PinnedKept(setup, w.tables, w'.tables, w.wire[k].approval, w.wire[k].response);
    }
  }

  lemma {:induction false} RunKeepsPins(setup: Setup, w: World, actions: seq<Action>)
    requires PinInv(setup, w)
    ensures PinInv(setup, Run(setup, w, actions))
    decreases |actions|
  {
    hide PinInv, Next;
    if actions != [] {
      NextKeepsPins(setup, w, actions[0]);
      RunKeepsPins(setup, Next(setup, w, actions[0]), actions[1..]);
    }
  }

  // ---- Main results ----

  /**
   However cards, the service thread and emergency stops interleave: each approval has at most
   one response on the wire, its exact hash is the stored one, and it was not cancelled.
   */
  lemma AtMostOneResponse(setup: Setup, w0: World, actions: seq<Action>)
    requires Initial(w0)
    ensures var w := Run(setup, w0, actions);
            && (forall i, j :: 0 <= i < j < |w.wire| ==> w.wire[i].approval != w.wire[j].approval)
            && (forall k :: 0 <= k < |w.wire| ==>
                  && w.wire[k].approval in w.tables.requests
                  && w.tables.requests[w.wire[k].approval].responseHash == Some(setup.hash(w.wire[k].response))
                  && !Unanswered(w.tables.requests[w.wire[k].approval].state))
  {
    hide Next;
    RunKeepsInv(setup, w0, actions);
    var w := Run(setup, w0, actions);
    forall k | 0 <= k < |w.wire|
      ensures w.wire[k].approval in w.tables.requests && !Unanswered(w.tables.requests[w.wire[k].approval].state)
    {
      assert WireInv(setup, w.tables, w.wire[k]);
    }
  }

  /** Every response on the wire is the pinned answer to the decision that consumed the approval's token. */
  lemma ResponsesArePinned(setup: Setup, w0: World, actions: seq<Action>, k: nat)
    requires Initial(w0) && k < |Run(setup, w0, actions).wire|
    ensures var w := Run(setup, w0, actions);
            Pinned(setup, w.tables, w.wire[k].approval, w.wire[k].response)
  {
    hide Next, Pinned;
    RunKeepsPins(setup, w0, actions);
  }

  /** When a response goes out, its hash is stored already and the approval is not cancelled. */
  lemma HashIsStoredFirst(setup: Setup, w0: World, actions: seq<Action>, a: Action)
    requires Initial(w0)
    ensures var w := Run(setup, w0, actions);
            var w' := Next(setup, w, a);
            w'.wire != w.wire ==>
              && |w'.wire| == |w.wire| + 1 && w.wire < w'.wire
              && var m := w'.wire[|w.wire|];
                 && m.approval in w.tables.requests
                 && w.tables.requests[m.approval].responseHash == Some(setup.hash(m.response))
                 && !Unanswered(w.tables.requests[m.approval].state)
  {
    hide Run, Issue, CommitCardAction, CommitExactResponse, RecordResult, ObserveResolved, HardStop;
    RunKeepsInv(setup, w0, actions);
    var w := Run(setup, w0, actions);
    if a.Respond? && a.thread in w.threads && w.threads[a.thread].Prepared? {
      assert ThreadInv(setup, w.tables, w.threads[a.thread]);
    }
  }

  /** A token is unconsumed exactly while its approval is issued. */
  lemma UnconsumedIffIssued(setup: Setup, w0: World, actions: seq<Action>, token: string)
    requires Initial(w0) && token in Run(setup, w0, actions).tables.actions
    ensures var t := Run(setup, w0, actions).tables;
            && t.actions[token].subject.approval in t.requests
            && (!t.actions[token].consumed <==> t.requests[t.actions[token].subject.approval].state.Issued?)
  {
    hide Next;
    RunKeepsInv(setup, w0, actions);
  }

  /** Every state change is an edge of the declared table, and a stored hash never changes. */
  lemma StatesFollowTheTable(setup: Setup, w: World, a: Action)
    requires Inv(setup, w)
    ensures Moves(w.tables, Next(setup, w, a).tables)
  {
    hide TablesInv, Moves, Issue, CommitCardAction, CommitExactResponse, RecordResult, ObserveResolved, HardStop;
    NothingMoves(w.tables);
    match a {
      case IssueOne(token, requestId, subject, context, decisions, ttl, now) =>
        IssueMoves(w.tables, token, requestId, subject, context, decisions, ttl, now);
      case CommitOne(_, token, decision, context, _, now) => CommitMoves(w.tables, token, decision, context, now);
      case Prepare(thread) =>
        if thread in w.threads && w.threads[thread].Committed? {
          PrepareMoves(w.tables, w.threads[thread].approval, setup.hash(w.threads[thread].response));
        }
      case Record(thread, accepted) =>
        if thread in w.threads && w.threads[thread].Responded? {
          RecordMoves(w.tables, w.threads[thread].approval, accepted);
        }
      case Observe(key) => ObserveMoves(w.tables, key);
      case Stop => StopMoves(w.tables);
      case DeliverCard(token, card) => SameRequestsMove(w.tables, Next(setup, w, a).tables);
      case _ =>
    }
  }

  lemma SameRequestsMove(t: Tables, t': Tables)
    requires t'.requests == t.requests
    ensures Moves(t, t')
  {
  }

  /** No run reaches the expired state: the update that would set it is taken back by its own raise. */
  lemma {:induction false} NeverExpired(setup: Setup, w: World, actions: seq<Action>, id: string)
    requires forall x :: x in w.tables.requests ==> !w.tables.requests[x].state.Expired?
    ensures var t := Run(setup, w, actions).tables;
            id in t.requests ==> !t.requests[id].state.Expired?
    decreases |actions|
  {
    if actions != [] {
      NextNeverExpires(setup, w, actions[0]);
      NeverExpired(setup, Next(setup, w, actions[0]), actions[1..], id);
    }
  }

  lemma NextNeverExpires(setup: Setup, w: World, a: Action)
    requires forall x :: x in w.tables.requests ==> !w.tables.requests[x].state.Expired?
    ensures forall x :: x in Next(setup, w, a).tables.requests ==> !Next(setup, w, a).tables.requests[x].state.Expired?
  {
  }

  /** After an emergency stop nothing that was issued or only committed can ever be answered. */
  lemma StopIsFinal(setup: Setup, w0: World, before: seq<Action>, after: seq<Action>, id: string)
    requires Initial(w0)
    requires var t := Run(setup, w0, before).tables;
             id in t.requests && (t.requests[id].state.Issued? || t.requests[id].state.ActionCommitted?)
    ensures var w := Run(setup, Next(setup, Run(setup, w0, before), Stop), after);
            && id in w.tables.requests && w.tables.requests[id].state.Cancelled?
            && forall k :: 0 <= k < |w.wire| ==> w.wire[k].approval != id
  {
    hide Next;
    RunKeepsInv(setup, w0, before);
    var w := Run(setup, w0, before);
    NextKeepsInv(setup, w, Stop);
    assert Next(setup, w, Stop).tables == HardStop(w.tables) by { StopStep(setup, w); }
    CancelledForever(setup, Next(setup, w, Stop), after, id);
    RunKeepsInv(setup, Next(setup, w, Stop), after);
    var last := Run(setup, Next(setup, w, Stop), after);
    forall k | 0 <= k < |last.wire| ensures last.wire[k].approval != id {
      assert WireInv(setup, last.tables, last.wire[k]);
    }
  }

  lemma StopStep(setup: Setup, w: World)
    ensures Next(setup, w, Stop).tables == HardStop(w.tables)
  {
  }

  lemma {:induction false} CancelledForever(setup: Setup, w: World, actions: seq<Action>, id: string)
    requires Inv(setup, w) && id in w.tables.requests && w.tables.requests[id].state.Cancelled?
    ensures var t := Run(setup, w, actions).tables;
            id in t.requests && t.requests[id].state.Cancelled?
    decreases |actions|
  {
    hide Inv, Next;
    if actions != [] {
      StatesFollowTheTable(setup, w, actions[0]);
      NextKeepsInv(setup, w, actions[0]);
      CancelledForever(setup, Next(setup, w, actions[0]), actions[1..], id);
    }
  }

  // ---- How many responses one server request gets ----

  /** The unique index names the one action row of each server request. */
  ghost predicate KeyInv(t: Tables) {
    && (forall token :: token in t.actions ==>
          t.actions[token].request in t.byRequest && t.byRequest[t.actions[token].request] == token)
    && (forall key :: key in t.byRequest ==> t.byRequest[key] in t.actions && t.actions[t.byRequest[key]].request == key)
  }

  /** No step but an issue changes which approval stands for which server request. */
  ghost predicate SameKeys(t: Tables, t': Tables) {
    && t'.byRequest == t.byRequest && t'.actions.Keys == t.actions.Keys
    && forall token :: token in t.actions ==>
         t'.actions[token].request == t.actions[token].request && t'.actions[token].subject == t.actions[token].subject
  }

  lemma IssueKeepsKeys(t: Tables, token: string, requestId: string, subject: Subject, context: Context,
                       decisions: map<string, string>, ttl: int, now: int)
    requires KeyInv(t)
    ensures var r := Issue(t, token, requestId, subject, context, decisions, ttl, now);
            r.Ok? ==> KeyInv(r.value.0)
  {
  }

  lemma OtherStepKeepsKeys(setup: Setup, w: World, a: Action)
    requires !a.IssueOne?
    ensures SameKeys(w.tables, Next(setup, w, a).tables)
  {
    hide Issue;
  }

  lemma SameKeysKeep(t: Tables, t': Tables)
    requires KeyInv(t) && SameKeys(t, t')
    ensures KeyInv(t')
  {
  }

  lemma NextKeepsKeys(setup: Setup, w: World, a: Action)
    requires KeyInv(w.tables)
    ensures KeyInv(Next(setup, w, a).tables)
  {
    hide KeyInv, SameKeys, Issue;
    if a.IssueOne? {
      IssueKeepsKeys(w.tables, a.token, a.requestId, a.subject, a.context, a.decisions, a.ttl, a.now);
    } else {
      OtherStepKeepsKeys(setup, w, a);
      SameKeysKeep(w.tables, Next(setup, w, a).tables);
    }
  }

  lemma {:induction false} RunKeepsKeys(setup: Setup, w: World, actions: seq<Action>)
    requires KeyInv(w.tables)
    ensures KeyInv(Run(setup, w, actions).tables)
    decreases |actions|
  {
    hide Next, KeyInv;
    if actions != [] {
      NextKeepsKeys(setup, w, actions[0]);
      RunKeepsKeys(setup, Next(setup, w, actions[0]), actions[1..]);
    }
  }

  /** The k-th response on the wire is the decision about the server request key. */
  ghost predicate Decides(w: World, k: nat, key: RequestKey) {
    && k < |w.wire|
    && exists token :: token in w.tables.actions && w.tables.actions[token].request == key &&
                       w.tables.actions[token].subject.approval == w.wire[k].approval
  }

  ghost function Decisions(w: World, key: RequestKey): set<nat> {
    set k: nat | k < |w.wire| && Decides(w, k, key)
  }

  function Refusals(w: World, key: RequestKey): set<nat> {
    set k: nat | k < |w.refusals| && w.refusals[k].key == key
  }

  lemma OneDecision(setup: Setup, w: World, key: RequestKey, i: nat, j: nat)
    requires Inv(setup, w) && KeyInv(w.tables) && Decides(w, i, key) && Decides(w, j, key)
    ensures i == j
  {
    hide TablesInv, ThreadInv, WireInv;
    var a :| a in w.tables.actions && w.tables.actions[a].request == key &&
             w.tables.actions[a].subject.approval == w.wire[i].approval;
    var b :| b in w.tables.actions && w.tables.actions[b].request == key &&
             w.tables.actions[b].subject.approval == w.wire[j].approval;
    assert a == b;
  }

  lemma AtMostOneElement(s: set<nat>)
    requires forall i, j :: i in s && j in s ==> i == j
    ensures |s| == if s == {} then 0 else 1
  {
    if k :| k in s {
      assert s == {k};
    }
  }

  lemma DecidesInRange(w: World, k: nat, key: RequestKey)
    requires Decides(w, k, key)
    ensures k < |w.wire|
  {
  }

  lemma StartKeys(setup: Setup, w0: World)
    requires Initial(w0)
    ensures Inv(setup, w0) && KeyInv(w0.tables)
  {
  }

  /**
   What makes a step refuse the server request key: a method or parameters that are not served, no decision
   or no time on offer, or another subject or session than that of the approval already issued for the key.
   */
  ghost predicate Refuses(w: World, a: Action, key: RequestKey) {
    || (a.Reject? && a.key == key)
    || (&& a.IssueOne? && RequestKeyOf(a.context, a.requestId) == key
        && (|| a.ttl <= 0 || a.decisions == map[]
            || exists token :: token in w.tables.actions && w.tables.actions[token].request == key &&
                 (w.tables.actions[token].subject != a.subject || w.tables.actions[token].context.session != a.context.session)))
  }

  /** The positions in a run whose action is refused. */
  ghost function RefusedAt(setup: Setup, w0: World, actions: seq<Action>, key: RequestKey): set<nat> {
    set i: nat | i < |actions| && Refuses(Run(setup, w0, actions[..i]), actions[i], key)
  }

  /** A step answers at most one server request with an error, and key exactly when it is refused. */
  lemma RefusedIff(setup: Setup, w: World, a: Action, key: RequestKey)
    requires KeyInv(w.tables)
    ensures var w' := Next(setup, w, a);
            && (w'.refusals == w.refusals || (|w'.refusals| == |w.refusals| + 1 && w.refusals < w'.refusals))
            && (Refuses(w, a, key) <==> |w'.refusals| == |w.refusals| + 1 && w'.refusals[|w.refusals|].key == key)
  {
    hide CommitCardAction, CommitExactResponse, RecordResult, ObserveResolved, HardStop;
    if a.IssueOne? {
      var k := RequestKeyOf(a.context, a.requestId);
      assert k in w.tables.byRequest ==> w.tables.byRequest[k] in w.tables.actions && w.tables.actions[w.tables.byRequest[k]].request == k;
    }
  }

  lemma {:induction false} RunSnoc(setup: Setup, w: World, actions: seq<Action>, a: Action)
    ensures Run(setup, w, actions + [a]) == Next(setup, Run(setup, w, actions), a)
    decreases |actions|
  {
    hide Next;
    if actions == [] {
      assert [] + [a] == [a];
      assert Run(setup, Next(setup, w, a), []) == Next(setup, w, a);
    } else {
      assert (actions + [a])[1..] == actions[1..] + [a];
      RunSnoc(setup, Next(setup, w, actions[0]), actions[1..], a);
    }
  }

  /** Every refusal in a run comes from one refused action, and the other way round. */
  lemma {:induction false} RefusalsAreRefusedActions(setup: Setup, w0: World, actions: seq<Action>, key: RequestKey)
    requires Initial(w0)
    ensures |Refusals(Run(setup, w0, actions), key)| == |RefusedAt(setup, w0, actions, key)|
    decreases |actions|
  {
    hide Next, Refuses, KeyInv, Run, RefusedAt, Refusals;
    if actions == [] {
      NoRefusals(setup, w0, key);
    } else {
      var init, last := actions[..|actions| - 1], actions[|actions| - 1];
      var w := Run(setup, w0, init);
      assert actions == init + [last];
      RefusalsAreRefusedActions(setup, w0, init, key);
      RunSnoc(setup, w0, init, last);
      StartKeys(setup, w0);
      RunKeepsKeys(setup, w0, init);
      RefusedIff(setup, w, last, key);
      OneMoreRefusal(w, Next(setup, w, last), key, Refuses(w, last, key));
      OneMoreRefusedAction(setup, w0, init, last, key);
    }
  }

  lemma {:induction false} OneMoreRefusedAction(setup: Setup, w0: World, init: seq<Action>, last: Action, key: RequestKey)
    ensures |RefusedAt(setup, w0, init + [last], key)| ==
            |RefusedAt(setup, w0, init, key)| + if Refuses(Run(setup, w0, init), last, key) then 1 else 0
  {
    hide Next, Refuses, Run;
    var actions := init + [last];
    assert forall i: nat :: i < |init| ==> actions[..i] == init[..i] && actions[i] == init[i];
    assert actions[..|init|] == init;
    assert RefusedAt(setup, w0, actions, key) ==
           RefusedAt(setup, w0, init, key) + if Refuses(Run(setup, w0, init), last, key) then {|init|} else {};
  }

  lemma NoRefusals(setup: Setup, w0: World, key: RequestKey)
    requires Initial(w0)
    ensures Refusals(Run(setup, w0, []), key) == {} && RefusedAt(setup, w0, [], key) == {}
  {
  }

  lemma OneMoreRefusal(w: World, w': World, key: RequestKey, refused: bool)
    requires w'.refusals == w.refusals || (|w'.refusals| == |w.refusals| + 1 && w.refusals < w'.refusals)
    requires refused <==> |w'.refusals| == |w.refusals| + 1 && w'.refusals[|w.refusals|].key == key
    ensures |Refusals(w', key)| == |Refusals(w, key)| + if refused then 1 else 0
  {
    assert Refusals(w', key) == Refusals(w, key) + if refused then {|w.refusals|} else {};
  }

  /**
   In every run a server request gets at most one response exactly when none of the actions was refused for
   it, or a single one was and no decision about it went out.
   */
  lemma OneResponsePerRequestIff(setup: Setup, w0: World, actions: seq<Action>, key: RequestKey)
    requires Initial(w0)
    ensures var w := Run(setup, w0, actions);
            var refused := RefusedAt(setup, w0, actions, key);
            && |Decisions(w, key)| <= 1
            && (|Decisions(w, key)| + |Refusals(w, key)| <= 1 <==>
                  refused == {} || (|refused| == 1 && !exists k: nat :: Decides(w, k, key)))
  {
    hide Next, Inv, KeyInv, Decides, Refuses, Run;
    var w := Run(setup, w0, actions);
    StartKeys(setup, w0);
    RunKeepsInv(setup, w0, actions);
    RunKeepsKeys(setup, w0, actions);
    RefusalsAreRefusedActions(setup, w0, actions, key);
    forall i, j | i in Decisions(w, key) && j in Decisions(w, key) ensures i == j {
      OneDecision(setup, w, key, i, j);
    }
    AtMostOneElement(Decisions(w, key));
    if k: nat :| Decides(w, k, key) {
      assert k in Decisions(w, key) by { DecidesInRange(w, k, key); }
    }
  }

  /** Every action row was issued by an action of the run, for its request, subject and session. */
  ghost predicate IssuedBy(a: Action, row: ActionRow) {
    && a.IssueOne? && RequestKeyOf(a.context, a.requestId) == row.request
    && a.subject == row.subject && a.context.session == row.context.session
  }

  lemma NextIssues(setup: Setup, w: World, a: Action, token: string)
    requires token in Next(setup, w, a).tables.actions
    ensures var row := Next(setup, w, a).tables.actions[token];
            || IssuedBy(a, row)
            || (&& token in w.tables.actions && w.tables.actions[token].request == row.request
                && w.tables.actions[token].subject == row.subject
                && w.tables.actions[token].context.session == row.context.session)
  {
  }

  lemma {:induction false} RowsWereIssued(setup: Setup, w0: World, actions: seq<Action>, token: string) returns (j: nat)
    requires Initial(w0) && token in Run(setup, w0, actions).tables.actions
    ensures j < |actions| && IssuedBy(actions[j], Run(setup, w0, actions).tables.actions[token])
    decreases |actions|
  {
    hide Next, Run;
    NoRows(setup, w0);
    assert actions != [];
    var init, last := actions[..|actions| - 1], actions[|actions| - 1];
    assert actions == init + [last];
    RunSnoc(setup, w0, init, last);
    NextIssues(setup, Run(setup, w0, init), last, token);
    j := |init|;
    if !IssuedBy(last, Run(setup, w0, actions).tables.actions[token]) {
      j := RowsWereIssued(setup, w0, init, token);
    }
  }

  lemma NoRows(setup: Setup, w0: World)
    requires Initial(w0)
    ensures Run(setup, w0, []).tables.actions == map[]
  {
  }

  /** What the App Server has to keep to: one meaning per request id, with decisions and time to answer. */
  ghost predicate Consistent(actions: seq<Action>, key: RequestKey) {
    && (forall i :: 0 <= i < |actions| && actions[i].Reject? ==> actions[i].key != key)
    && (forall i :: 0 <= i < |actions| && Issues(actions[i], key) ==> actions[i].ttl > 0 && actions[i].decisions != map[])
    && (forall i, j :: 0 <= i < j < |actions| && Issues(actions[i], key) && Issues(actions[j], key) ==>
          actions[i].subject == actions[j].subject && actions[i].context.session == actions[j].context.session)
  }

  predicate Issues(a: Action, key: RequestKey) {
    a.IssueOne? && RequestKeyOf(a.context, a.requestId) == key
  }

  /** Repetitions that keep to it never get a second response, whatever else happens in the run. */
  lemma ConsistentRequestsAreAnsweredOnce(setup: Setup, w0: World, actions: seq<Action>, key: RequestKey)
    requires Initial(w0) && Consistent(actions, key)
    ensures var w := Run(setup, w0, actions);
            Refusals(w, key) == {} && |Decisions(w, key)| <= 1
  {
    hide Run, Initial, Decides;
    OneResponsePerRequestIff(setup, w0, actions, key);
    RefusalsAreRefusedActions(setup, w0, actions, key);
    forall i: nat | i < |actions| ensures !Refuses(Run(setup, w0, actions[..i]), actions[i], key) {
      var w := Run(setup, w0, actions[..i]);
      if Issues(actions[i], key) {
        forall token | token in w.tables.actions && w.tables.actions[token].request == key
          ensures w.tables.actions[token].subject == actions[i].subject
          ensures w.tables.actions[token].context.session == actions[i].context.session
        {
          var j := RowsWereIssued(setup, w0, actions[..i], token);
          assert actions[..i][j] == actions[j] && Issues(actions[j], key);
        }
      }
    }
    assert RefusedAt(setup, w0, actions, key) == {};
  }

  /** The only approval, still pending, after its request id came again with other content. */
  ghost predicate Conflicted(w: World, token: string, row: ActionRow) {
    && w.tables.requests == map[row.subject.approval := Request(Issued, row.subject.content, None)]
    && w.tables.actions == map[token := row] && !row.consumed
    && w.threads == map[] && w.wire == [] && w.refusals == [Refusal(row.request, CONFLICTING)]
  }

  lemma ConflictIsRefused(setup: Setup, w0: World, a: Action, b: Action)
    requires Initial(w0) && a.IssueOne? && b.IssueOne? && a.decisions != map[] && a.ttl > 0
    requires RequestKeyOf(a.context, a.requestId) == RequestKeyOf(b.context, b.requestId) && a.subject != b.subject
    ensures var key := RequestKeyOf(a.context, a.requestId);
            Conflicted(Next(setup, Next(setup, w0, a), b), a.token,
                       ActionRow(a.subject, key, a.context, a.decisions, a.now + a.ttl, false, None))
  {
  }

  lemma PendingIsAnswered(setup: Setup, w: World, token: string, row: ActionRow, decision: string, input: string, now: int)
    requires Conflicted(w, token, row) && decision in row.decisions && now < row.expires
    ensures var w1 := Next(setup, w, CommitOne(0, token, decision, row.context, input, now));
            var w' := Next(setup, Next(setup, w1, Prepare(0)), Respond(0, true));
            w'.refusals == [Refusal(row.request, CONFLICTING)] && |w'.wire| == 1 && Decides(w', 0, row.request)
  {
    var w1 := Next(setup, w, CommitOne(0, token, decision, row.context, input, now));
    assert w1.threads.Keys == {0} && w1.tables.actions[token].subject == row.subject;
    var w2 := Next(setup, w1, Prepare(0));
    assert w2.threads.Keys == {0} && w2.threads[0].Prepared?;
    assert token in w2.tables.actions;
  }

  /** The same request id comes again with other content while the first is pending: it is refused, and answered. */
  lemma ConflictIsAnsweredTwice(setup: Setup, w0: World, a: Action, b: Action, decision: string, input: string)
    requires Initial(w0) && a.IssueOne? && b.IssueOne? && decision in a.decisions && a.ttl > 0
    requires RequestKeyOf(a.context, a.requestId) == RequestKeyOf(b.context, b.requestId) && a.subject != b.subject
    ensures var w := Run(setup, w0, [a, b, CommitOne(0, a.token, decision, a.context, input, a.now), Prepare(0), Respond(0, true)]);
            var key := RequestKeyOf(a.context, a.requestId);
            w.refusals == [Refusal(key, CONFLICTING)] && |w.wire| == 1 && Decides(w, 0, key)
  {
    hide Run, Next, Decides, Initial;
    var c := CommitOne(0, a.token, decision, a.context, input, a.now);
    var row := ActionRow(a.subject, RequestKeyOf(a.context, a.requestId), a.context, a.decisions, a.now + a.ttl, false, None);
    var w2 := Next(setup, Next(setup, w0, a), b);
    ConflictIsRefused(setup, w0, a, b);
    PendingIsAnswered(setup, w2, a.token, row, decision, input, a.now);
    RunCons(setup, w0, a, [b, c, Prepare(0), Respond(0, true)]);
    RunCons(setup, Next(setup, w0, a), b, [c, Prepare(0), Respond(0, true)]);
    RunCons(setup, w2, c, [Prepare(0), Respond(0, true)]);
    RunCons(setup, Next(setup, w2, c), Prepare(0), [Respond(0, true)]);
    RunCons(setup, Next(setup, Next(setup, w2, c), Prepare(0)), Respond(0, true), []);
    RunCons(setup, Next(setup, Next(setup, Next(setup, w2, c), Prepare(0)), Respond(0, true)), Crash, []);
    assert [a] + [b, c, Prepare(0), Respond(0, true)] == [a, b, c, Prepare(0), Respond(0, true)];
    assert [b] + [c, Prepare(0), Respond(0, true)] == [b, c, Prepare(0), Respond(0, true)];
    assert [c] + [Prepare(0), Respond(0, true)] == [c, Prepare(0), Respond(0, true)];
    assert [Prepare(0)] + [Respond(0, true)] == [Prepare(0), Respond(0, true)];
    assert [Respond(0, true)] + [] == [Respond(0, true)];
  }

  lemma RunCons(setup: Setup, w: World, a: Action, rest: seq<Action>)
    ensures Run(setup, w, [a] + rest) == Run(setup, Next(setup, w, a), rest)
    ensures Run(setup, w, []) == w
  {
    assert ([a] + rest)[1..] == rest;
  }
}
