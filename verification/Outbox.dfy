/**
 The durable provider outbox: leases, per-turn order, staged uploads and reconciliation of
 sends whose outcome is unknown. A row's id is its index; rows are never deleted.
 */
module Outbox {
  import opened Options
  import opened OutboxCards

  datatype State =
    | Pending | Leased | Confirmed | Retryable | Permanent | Unknown
    | DeliveryIndeterminate | RetentionPolicyBlocked | FinalUndelivered

  datatype Operation = Final | AnchorTitle | OtherOperation

  datatype Body =
    | PlainText(text: string)
    | ImageFile(key: Option<string>)
    | AttachedFile(key: Option<string>)
    | Card(elements: seq<Element>, keys: seq<Option<string>>)

  datatype Row = Row(
    turn: Option<string>,
    thread: string,
    operation: Operation,
    priority: int,
    body: Body,
    state: State,
    due: int,
    owner: Option<string>,
    expires: Option<int>,
    attempts: nat,
    firstAttempt: Option<int>,
    message: Option<string>)

  predicate Terminal(s: State) {
    s.Confirmed? || s.Permanent? || s.DeliveryIndeterminate? || s.RetentionPolicyBlocked? || s.FinalUndelivered?
  }

  predicate Sendable(s: State) {
    s.Pending? || s.Retryable?
  }

  /** An earlier row of the same turn is not finished. */
  predicate Blocked(rows: seq<Row>, id: nat)
    requires id < |rows|
  {
    exists e :: 0 <= e < id && rows[e].turn.Some? && rows[e].turn == rows[id].turn && !Terminal(rows[e].state)
  }

  predicate Ready(rows: seq<Row>, id: nat, now: int)
    requires id < |rows|
  {
    Sendable(rows[id].state) && rows[id].due <= now && !Blocked(rows, id)
  }

  function Release(row: Row): Row {
    row.(owner := None, expires := None)
  }

  /** A lease that ran out means that the outcome of its send is unknown. */
  function ExpireOne(row: Row, now: int): Row {
    if row.state.Leased? && row.expires.Some? && row.expires.value <= now then Release(row).(state := Unknown) else row
  }

  function Expire(rows: seq<Row>, now: int): (r: seq<Row>)
    ensures |r| == |rows|
  {
    seq(|rows|, k requires 0 <= k < |rows| => ExpireOne(rows[k], now))
  }

  /** Higher priority first, then the older row. */
  predicate Before(rows: seq<Row>, i: nat, j: nat)
    requires i < |rows| && j < |rows|
  {
    rows[i].priority > rows[j].priority || (rows[i].priority == rows[j].priority && i < j)
  }

  /** The row waits, its time has come, and all that was queued before it for its turn is over for good. */
  ghost predicate Due(rows: seq<Row>, id: nat, now: int)
    requires id < |rows|
  {
    && (rows[id].state == Pending || rows[id].state == Retryable)
    && rows[id].due <= now
    && forall e :: 0 <= e < id && rows[e].turn.Some? && rows[e].turn == rows[id].turn ==> Over(rows[e].state)
  }

  /** The five states that a row is left in. */
  ghost predicate Over(s: State) {
    s in {Confirmed, Permanent, DeliveryIndeterminate, RetentionPolicyBlocked, FinalUndelivered}
  }

  /** Of the rows that are due, the one with the highest priority, and of those the oldest. */
  ghost predicate IsChoice(rows: seq<Row>, now: int, choice: Option<nat>) {
    if choice.None? then forall k :: 0 <= k < |rows| ==> !Due(rows, k, now)
    else
      && choice.value < |rows|
      && Due(rows, choice.value, now)
      && forall k :: 0 <= k < |rows| && Due(rows, k, now) ==>
           rows[k].priority < rows[choice.value].priority || (rows[k].priority == rows[choice.value].priority && choice.value <= k)
  }

  function Choose(rows: seq<Row>, now: int, upTo: nat): (best: Option<nat>)
    requires upTo <= |rows|
    ensures best.Some? ==> best.value < upTo
  {
    if upTo == 0 then None
    else
      var best := Choose(rows, now, upTo - 1);
      if Ready(rows, upTo - 1, now) && (best.None? || Before(rows, upTo - 1, best.value)) then Some(upTo - 1) else best
  }

  lemma ReadyIsDue(rows: seq<Row>, id: nat, now: int)
    requires id < |rows|
    ensures Ready(rows, id, now) <==> Due(rows, id, now)
  {
  }

  /** The loop over the rows up to upTo keeps the one to choose. */
  lemma {:induction false} ChooseIsChoice(rows: seq<Row>, now: int, upTo: nat)
    requires upTo <= |rows|
    ensures var best := Choose(rows, now, upTo);
            if best.None? then forall k :: 0 <= k < upTo ==> !Due(rows, k, now)
            else
              && Due(rows, best.value, now)
              && forall k :: 0 <= k < upTo && Due(rows, k, now) ==>
                   rows[k].priority < rows[best.value].priority || (rows[k].priority == rows[best.value].priority && best.value <= k)
    decreases upTo
  {
    hide Ready, Due;
    if upTo > 0 {
      ChooseIsChoice(rows, now, upTo - 1);
      ReadyIsDue(rows, upTo - 1, now);
    }
  }

  lemma OneChoice(rows: seq<Row>, now: int, a: Option<nat>, b: Option<nat>)
    requires IsChoice(rows, now, a) && IsChoice(rows, now, b)
    ensures a == b
  {
    hide Due;
  }

  function Take(row: Row, owner: string, until: int, now: int): Row {
    row.(state := Leased, owner := Some(owner), expires := Some(until), attempts := row.attempts + 1,
         firstAttempt := if row.firstAttempt.Some? then row.firstAttempt else Some(now))
  }

  datatype LeaseResult = LeaseResult(rows: seq<Row>, id: Option<nat>)

  function Lease(rows: seq<Row>, owner: string, until: int, now: int): (r: LeaseResult)
    ensures |r.rows| == |rows| && (r.id.Some? ==> r.id.value < |rows|)
  {
    var expired := Expire(rows, now);
    match Choose(expired, now, |expired|)
    case None => LeaseResult(expired, None)
    case Some(id) => LeaseResult(expired[id := Take(expired[id], owner, until, now)], Some(id))
  }

  datatype OutboxError = InvalidTransition | InvalidState | EmptyKey | NotUnknown

  predicate HeldBy(rows: seq<Row>, id: nat, owner: string) {
    id < |rows| && rows[id].state.Leased? && rows[id].owner == Some(owner)
  }

  function Finish(rows: seq<Row>, id: nat, owner: string, state: State, message: Option<string>, due: Option<int>)
    : Result<seq<Row>, OutboxError>
  {
    if state.Pending? || state.Leased? then Err(InvalidState)
    else if !HeldBy(rows, id, owner) then Err(InvalidTransition)
    else
      var row := rows[id];
      Ok(rows[id := Release(row).(state := state,
                                  message := if message.Some? then message else row.message,
                                  due := if due.Some? then due.value else row.due)])
  }

  function WithKey(body: Body, ordinal: nat, key: string): Option<Body> {
    match body
    case PlainText(_) => None
    case ImageFile(was) => if was.None? then Some(ImageFile(Some(key))) else None
    case AttachedFile(was) => if was.None? then Some(AttachedFile(Some(key))) else None
    case Card(elements, keys) =>
      if ordinal < |keys| && keys[ordinal].None? then Some(Card(elements, keys[ordinal := Some(key)])) else None
  }

  /** Stores an uploaded key and releases the row for its next phase. */
  function Stage(rows: seq<Row>, id: nat, owner: string, ordinal: nat, key: string, now: int): Result<seq<Row>, OutboxError> {
    if key == "" then Err(EmptyKey)
    else if id >= |rows| || WithKey(rows[id].body, ordinal, key).None? || !HeldBy(rows, id, owner) then Err(InvalidTransition)
    else Ok(rows[id := Release(rows[id]).(body := WithKey(rows[id].body, ordinal, key).value, state := Retryable, due := now)])
  }

  /** Rows that a suppression retires: not yet in flight, and hit by its condition. */
  function Suppress(rows: seq<Row>, hit: Row -> bool): (r: seq<Row>)
    ensures |r| == |rows|
  {
    seq(|rows|, k requires 0 <= k < |rows| =>
      if Sendable(rows[k].state) && hit(rows[k]) then Release(rows[k]).(state := Permanent) else rows[k])
  }

  // ---- Reconciliation of one unknown send against provider history ----

  /** One answer of the history endpoint; matches are the ids of messages that fit the row. */
  datatype Page = Unavailable | Page(matches: seq<string>, hasMore: bool, token: Option<string>)

  datatype Search = Waiting | Gone | Found(ids: seq<string>)

  function SearchHistory(pages: seq<Page>, token: Option<string>, ids: seq<string>): Search {
    if pages == [] then Waiting
    else if pages[0].Unavailable? then Gone
    else
      var seen := ids + pages[0].matches;
      var next := pages[0].token;
      if !pages[0].hasMore then Found(seen)
      else if next.None? || next.value == "" || next == token then Gone
      else SearchHistory(pages[1..], next, seen)
  }

  /** Page k is there, announces more, and names a token that is not empty and not the one it was asked with. */
  predicate Continues(pages: seq<Page>, k: nat)
    requires k < |pages|
  {
    && pages[k].Page? && pages[k].hasMore && pages[k].token.Some? && pages[k].token.value != ""
    && (k > 0 && pages[k - 1].Page? ==> pages[k].token != pages[k - 1].token)
  }

  /** The search goes on after each of the first n pages. */
  ghost predicate AllContinue(pages: seq<Page>, n: nat)
    requires n <= |pages|
  {
    forall k :: 0 <= k < n ==> Continues(pages, k)
  }

  /** Page n is the first one after which it does not. */
  ghost predicate EndsAt(pages: seq<Page>, n: nat) {
    n < |pages| && !Continues(pages, n) && AllContinue(pages, n)
  }

  function AllMatches(pages: seq<Page>): seq<string> {
    if pages == [] then []
    else AllMatches(pages[..|pages| - 1]) + if pages[|pages| - 1].Page? then pages[|pages| - 1].matches else []
  }

  /** What the search finds after n pages that it continues from. */
  function Decided(pages: seq<Page>, n: nat): Search
    requires n <= |pages|
  {
    if n == |pages| then Waiting
    else if pages[n].Page? && !pages[n].hasMore then Found(AllMatches(pages[..n + 1]))
    else Gone
  }

  lemma {:induction false} SearchFrom(pages: seq<Page>, k: nat, n: nat, token: Option<string>)
    requires k <= n <= |pages| && AllContinue(pages, n) && (n < |pages| ==> !Continues(pages, n))
    requires if k == 0 then token.None? else pages[k - 1].Page? && token == pages[k - 1].token
    ensures SearchHistory(pages[k..], token, AllMatches(pages[..k])) == Decided(pages, n)
    decreases n - k
  {
    if k < |pages| {
      assert pages[k..][0] == pages[k] && pages[k..][1..] == pages[k + 1..];
      assert pages[..k + 1][..k] == pages[..k];
      assert AllMatches(pages[..k + 1]) == AllMatches(pages[..k]) + if pages[k].Page? then pages[k].matches else [];
      if k < n {
        assert Continues(pages, k);
        SearchFrom(pages, k + 1, n, pages[k].token);
      }
    }
  }

  /** The search waits exactly while every page continues it; the first one that does not decides the outcome. */
  lemma {:induction false} SearchOutcome(pages: seq<Page>)
    ensures var r := SearchHistory(pages, None, []);
            && (r.Waiting? <==> AllContinue(pages, |pages|))
            && (forall n: nat :: EndsAt(pages, n) ==> r == Decided(pages, n))
  {
    hide SearchHistory, Continues, AllMatches;
    assert pages[0..] == pages && pages[..0] == [];
    NoMatchesYet();
    var n := FirstStop(pages, 0);
    SearchFrom(pages, 0, n, None);
  }

  /** Only the previous token is remembered, so a provider that alternates between two keeps the search going. */
  lemma SearchNeedNotEnd(n: nat)
    ensures SearchHistory(seq(n, k => Page([], true, Some(if k % 2 == 0 then "a" else "b"))), None, []) == Waiting
  {
    hide SearchHistory;
    var pages := seq(n, k => Page([], true, Some(if k % 2 == 0 then "a" else "b")));
    SearchOutcome(pages);
    assert "a"[0] != "b"[0];
    forall k | 0 <= k < n ensures Continues(pages, k) {
      if k > 0 { assert k % 2 != (k - 1) % 2; }
    }
  }

  lemma NoMatchesYet()
    ensures AllMatches([]) == []
  {
  }

  lemma FirstStop(pages: seq<Page>, k: nat) returns (n: nat)
    requires k <= |pages| && AllContinue(pages, k)
    ensures n <= |pages| && AllContinue(pages, n) && (n < |pages| ==> !Continues(pages, n))
    decreases |pages| - k
  {
    hide Continues;
    if k < |pages| && Continues(pages, k) {
      n := FirstStop(pages, k + 1);
    } else {
      n := k;
    }
  }

  /** history is absent when the endpoint is disabled or the task has no binding. */
  function Reconcile(rows: seq<Row>, id: nat, now: int, window: Option<int>, history: Option<seq<Page>>)
    : Result<seq<Row>, OutboxError>
  {
    if id >= |rows| || !rows[id].state.Unknown? || rows[id].firstAttempt.None? then Err(NotUnknown)
    else if window.Some? && now - rows[id].firstAttempt.value <= window.value then
      Ok(rows[id := rows[id].(state := Retryable, due := now)])
    else if history.None? then Ok(rows[id := rows[id].(state := DeliveryIndeterminate)])
    else
      match SearchHistory(history.value, None, [])
      case Waiting => Ok(rows)
      case Gone => Ok(rows[id := rows[id].(state := DeliveryIndeterminate)])
      case Found(ids) =>
        if |ids| == 1 then Ok(rows[id := rows[id].(state := Confirmed, message := Some(ids[0]))])
        else Ok(rows[id := rows[id].(state := DeliveryIndeterminate)])
  }

  // ---- One pass of the worker ----

  datatype Upload = Uploaded(key: string) | UploadLater(due: int) | UploadRefused

  /** The provider may leave out the id of a delivered message. */
  datatype Answer = Delivered(message: Option<string>) | SendLater(due: int) | NoAnswer | Refused

  datatype Crash = Never | AfterLease | AfterUpload | AfterSend

  datatype Route = Routed | NoBinding | WrongAncestry

  /** What the provider, the bindings and the process do during one pass. */
  datatype Env = Env(route: Route, upload: Upload, answer: Answer, crash: Crash)

  datatype Content = SentText(text: string) | SentKey(key: string) | SentCard(elements: seq<SentElement>)

  datatype Sent = Sent(id: nat, content: Content)

  datatype Pass = Pass(rows: seq<Row>, id: Option<nat>, sent: Option<Sent>, keyMissing: bool)

  function Refusal(operation: Operation): State {
    if operation.Final? then FinalUndelivered else Permanent
  }

  /** The position whose key has to be uploaded before the body can be sent. */
  function NextUpload(body: Body): Option<nat> {
    match body
    case PlainText(_) => None
    case ImageFile(key) => if key.None? then Some(0) else None
    case AttachedFile(key) => if key.None? then Some(0) else None
    case Card(_, keys) => FirstMissing(keys)
  }

  /** The body as the provider gets it; None when a card slot has no key. */
  function Outgoing(body: Body): Option<Content>
    requires NextUpload(body).None?
  {
    match body
    case PlainText(text) => Some(SentText(text))
    case ImageFile(key) => Some(SentKey(key.value))
    case AttachedFile(key) => Some(SentKey(key.value))
    case Card(elements, keys) =>
      var filled := Fill(elements, keys);
      if filled.None? then None else Some(SentCard(filled.value))
  }

  /** The rows after a finish that its own pass can rely on. */
  function Finished(rows: seq<Row>, id: nat, state: State, message: Option<string>, due: Option<int>): (r: seq<Row>)
    requires id < |rows|
    ensures |r| == |rows|
  {
    var row := rows[id];
    rows[id := Release(row).(state := state,
                             message := if message.Some? then message else row.message,
                             due := if due.Some? then due.value else row.due)]
  }

  function UploadPhase(rows: seq<Row>, id: nat, ordinal: nat, now: int, env: Env): seq<Row>
    requires id < |rows|
  {
    match env.upload
    case Uploaded(key) =>
      if key == "" then Finished(rows, id, Refusal(rows[id].operation), None, None)
      else if env.crash.AfterUpload? || WithKey(rows[id].body, ordinal, key).None? then rows
      else rows[id := Release(rows[id]).(body := WithKey(rows[id].body, ordinal, key).value, state := Retryable, due := now)]
    case UploadLater(due) => Finished(rows, id, Retryable, None, Some(due))
    case UploadRefused => Finished(rows, id, Refusal(rows[id].operation), None, None)
  }

  function SendPhase(rows: seq<Row>, id: nat, env: Env): seq<Row>
    requires id < |rows|
  {
    if env.crash.AfterSend? then rows
    else match env.answer
      case Delivered(message) => Finished(rows, id, Confirmed, if rows[id].operation.AnchorTitle? then None else message, None)
      case SendLater(due) => Finished(rows, id, Retryable, None, Some(due))
      case NoAnswer => Finished(rows, id, if rows[id].operation.AnchorTitle? then DeliveryIndeterminate else Unknown, None, None)
      case Refused => Finished(rows, id, Refusal(rows[id].operation), None, None)
  }

  function Work(rows: seq<Row>, id: nat, now: int, env: Env): Pass
    requires id < |rows|
  {
    if env.crash.AfterLease? then Pass(rows, Some(id), None, false)
    else if env.route.NoBinding? then Pass(Finished(rows, id, Permanent, None, None), Some(id), None, false)
    else if env.route.WrongAncestry? then
      Pass(Finished(rows, id, Refusal(rows[id].operation), None, None), Some(id), None, false)
    else
      var upload := NextUpload(rows[id].body);
      if upload.Some? then Pass(UploadPhase(rows, id, upload.value, now, env), Some(id), None, false)
      else
        var content := Outgoing(rows[id].body);
        if content.None? then Pass(Finished(rows, id, Permanent, None, None), Some(id), None, true)
        else Pass(SendPhase(rows, id, env), Some(id), Some(Sent(id, content.value)), false)
  }

  function RunOnce(rows: seq<Row>, owner: string, until: int, now: int, env: Env): Pass {
    var leased := Lease(rows, owner, until, now);
    if leased.id.None? then Pass(leased.rows, None, None, false) else Work(leased.rows, leased.id.value, now, env)
  }

  // ---- The table as the program updates it ----

  class ProviderOutbox {
    var rows: seq<Row>

    constructor ()
      ensures rows == []
    {
      rows := [];
    }

    method LeaseOutbox(owner: string, until: int, now: int) returns (id: Option<nat>)
      modifies this
      ensures LeaseResult(rows, id) == Lease(old(rows), owner, until, now)
    {
      ExpireLeases(now);
      id := None;
      for k := 0 to |rows|
        invariant rows == Expire(old(rows), now)
        invariant id == Choose(rows, now, k)
      {
        if Sendable(rows[k].state) && rows[k].due <= now {
          var blocked := IsBlocked(k);
          if !blocked && (id.None? || Before(rows, k, id.value)) {
            id := Some(k);
          }
        }
      }
      if id.Some? {
        rows := rows[id.value := Take(rows[id.value], owner, until, now)];
      }
    }

    method ExpireLeases(now: int)
      modifies this
      ensures rows == Expire(old(rows), now)
    {
      for k := 0 to |rows|
        invariant |rows| == |old(rows)|
        invariant forall j :: 0 <= j < k ==> rows[j] == ExpireOne(old(rows)[j], now)
        invariant forall j :: k <= j < |rows| ==> rows[j] == old(rows)[j]
      {
        if rows[k].state.Leased? && rows[k].expires.Some? && rows[k].expires.value <= now {
          rows := rows[k := Release(rows[k]).(state := Unknown)];
        }
      }
    }

    method IsBlocked(id: nat) returns (blocked: bool)
      requires id < |rows|
      ensures blocked <==> Blocked(rows, id)
    {
      for e := 0 to id
        invariant forall j :: 0 <= j < e ==>
          !(rows[j].turn.Some? && rows[j].turn == rows[id].turn && !Terminal(rows[j].state))
      {
        if rows[e].turn.Some? && rows[e].turn == rows[id].turn && !Terminal(rows[e].state) {
          return true;
        }
      }
      return false;
    }

    method FinishOutbox(id: nat, owner: string, state: State, message: Option<string>, due: Option<int>)
      returns (r: Result<bool, OutboxError>)
      modifies this
      ensures match Finish(old(rows), id, owner, state, message, due) {
                case Err(e) => r == Err(e) && rows == old(rows)
                case Ok(after) => r == Ok(true) && rows == after
              }
    {
      if state.Pending? || state.Leased? {
        return Err(InvalidState);
      }
      if !HeldBy(rows, id, owner) {
        return Err(InvalidTransition);
      }
      rows := Finished(rows, id, state, message, due);
      return Ok(true);
    }

    /** One transaction: the key is written first, and a lost lease takes it back. */
    method StageUploaded(id: nat, owner: string, ordinal: nat, key: string, now: int) returns (r: Result<bool, OutboxError>)
      modifies this
      ensures match Stage(old(rows), id, owner, ordinal, key, now) {
                case Err(e) => r == Err(e) && rows == old(rows)
                case Ok(after) => r == Ok(true) && rows == after
              }
    {
      if key == "" {
        return Err(EmptyKey);
      }
      if id >= |rows| {
        return Err(InvalidTransition);
      }
      var saved := rows;
      var staged := WithKey(rows[id].body, ordinal, key);
      if staged.None? {
        return Err(InvalidTransition);
      }
      rows := rows[id := rows[id].(body := staged.value)];
      if !HeldBy(rows, id, owner) {
        rows := saved;
        return Err(InvalidTransition);
      }
      rows := rows[id := Release(rows[id]).(state := Retryable, due := now)];
      return Ok(true);
    }

    method ReconcileUnknown(id: nat, now: int, window: Option<int>, history: Option<seq<Page>>)
      returns (r: Result<bool, OutboxError>)
      modifies this
      ensures match Reconcile(old(rows), id, now, window, history) {
                case Err(e) => r == Err(e) && rows == old(rows)
                case Ok(after) => r == Ok(true) && rows == after
              }
    {
      if id >= |rows| || !rows[id].state.Unknown? || rows[id].firstAttempt.None? {
        return Err(NotUnknown);
      }
      var row := rows[id];
      if window.Some? && now - row.firstAttempt.value <= window.value {
        rows := rows[id := row.(state := Retryable, due := now)];
        return Ok(true);
      }
      if history.None? {
        rows := rows[id := row.(state := DeliveryIndeterminate)];
        return Ok(true);
      }
      var found := FindMessages(history.value);
      if found.Found? && |found.ids| == 1 {
        rows := rows[id := row.(state := Confirmed, message := Some(found.ids[0]))];
      } else if !found.Waiting? {
        rows := rows[id := row.(state := DeliveryIndeterminate)];
      }
      return Ok(true);
    }

    static method FindMessages(pages: seq<Page>) returns (found: Search)
      ensures found == SearchHistory(pages, None, [])
      ensures found.Waiting? <==> AllContinue(pages, |pages|)
      ensures forall n: nat :: EndsAt(pages, n) ==>
                found == if pages[n].Page? && !pages[n].hasMore then Found(AllMatches(pages[..n + 1])) else Gone
    {
      hide AllContinue, Continues;
      SearchOutcome(pages);
      var token: Option<string> := None;
      var ids: seq<string> := [];
      for k := 0 to |pages|
        invariant SearchHistory(pages, None, []) == SearchHistory(pages[k..], token, ids)
      {
        assert pages[k..][1..] == pages[k + 1..];
        var page := pages[k];
        if page.Unavailable? {
          return Gone;
        }
        ids := ids + page.matches;
        if !page.hasMore {
          return Found(ids);
        }
        if page.token.None? || page.token.value == "" || page.token == token {
          return Gone;
        }
        token := page.token;
      }
      return Waiting;
    }

    /** Retires rows of a thread or of a kind that must not be mirrored. */
    method SuppressWaiting(hit: Row -> bool)
      modifies this
      ensures rows == Suppress(old(rows), hit)
    {
      for k := 0 to |rows|
        invariant |rows| == |old(rows)|
        invariant forall j :: 0 <= j < k ==> rows[j] == Suppress(old(rows), hit)[j]
        invariant forall j :: k <= j < |rows| ==> rows[j] == old(rows)[j]
      {
        if Sendable(rows[k].state) && hit(rows[k]) {
          rows := rows[k := Release(rows[k]).(state := Permanent)];
        }
      }
    }

    /** Leases one row and carries it one phase further. */
    method RunWorkerOnce(owner: string, until: int, now: int, env: Env) returns (id: Option<nat>, sent: Option<Sent>, keyMissing: bool)
      modifies this
      ensures Pass(rows, id, sent, keyMissing) == RunOnce(old(rows), owner, until, now, env)
    {
      sent, keyMissing := None, false;
      id := LeaseOutbox(owner, until, now);
      if id.None? || env.crash.AfterLease? {
        return;
      }
      var row := rows[id.value];
      if !env.route.Routed? {
        var _ := FinishOutbox(id.value, owner, if env.route.NoBinding? then Permanent else Refusal(row.operation), None, None);
        return;
      }
      var upload := NextUpload(row.body);
      if upload.Some? {
        match env.upload {
          case Uploaded(key) =>
            if key == "" {
              var _ := FinishOutbox(id.value, owner, Refusal(row.operation), None, None);
            } else if !env.crash.AfterUpload? {
              var _ := StageUploaded(id.value, owner, upload.value, key, now);
            }
          case UploadLater(due) => var _ := FinishOutbox(id.value, owner, Retryable, None, Some(due));
          case UploadRefused => var _ := FinishOutbox(id.value, owner, Refusal(row.operation), None, None);
        }
        return;
      }
      var content := Outgoing(row.body);
      if content.None? {
        var _ := FinishOutbox(id.value, owner, Permanent, None, None);
        keyMissing := true;
        return;
      }
      sent := Some(Sent(id.value, content.value));
      if env.crash.AfterSend? {
        return;
      }
      match env.answer {
        case Delivered(message) =>
          var _ := FinishOutbox(id.value, owner, Confirmed, if row.operation.AnchorTitle? then None else message, None);
        case SendLater(due) => var _ := FinishOutbox(id.value, owner, Retryable, None, Some(due));
        case NoAnswer =>
          var _ := FinishOutbox(id.value, owner, if row.operation.AnchorTitle? then DeliveryIndeterminate else Unknown, None, None);
        case Refused => var _ := FinishOutbox(id.value, owner, Refusal(row.operation), None, None);
      }
    }
  }
}
