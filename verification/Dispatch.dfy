/**
 Dispatching Feishu messages to Codex over four paths that share one attempt id per message:
 the App Server queue, the desktop application, the CLI and the desktop relay.
 */
module Dispatch {
  import opened DispatchRecords
  import opened Options

  datatype Path = Queue | Desktop | Cli | Relay

  /** A row of dispatch_records; the attempt id is a function of the ingress message. */
  datatype Record = Record(path: Path, request: string, state: DispatchState, stage: Stage)

  datatype AttemptState = Dispatching | AttemptUnknown | AttemptAccepted

  /** The three tables, keyed by ingress message. */
  datatype Tables = Tables(records: map<string, Record>, attempts: map<string, AttemptState>, tombstones: set<string>)

  datatype DispatchError = IdentityConflict | KeyConflict | FenceLost | SwapLost

  datatype Insertion = Inserted | Existing(state: DispatchState, stage: Stage)

  // ---- What each transaction or statement does ----

  function Insert(t: Tables, ingress: string, path: Path, request: string): Result<(Tables, Insertion), DispatchError> {
    if ingress in t.records then
      if t.records[ingress].request != request then Err(IdentityConflict)
      else Ok((t, Existing(t.records[ingress].state, t.records[ingress].stage)))
    else if ingress in t.attempts then Err(KeyConflict)
    else
      Ok((t.(attempts := t.attempts[ingress := Dispatching],
             records := t.records[ingress := Record(path, request, Prepared, Unsent)]), Inserted))
  }

  predicate InState(t: Tables, ingress: string, states: set<DispatchState>) {
    ingress in t.records && t.records[ingress].state in states
  }

  function SetRecord(t: Tables, ingress: string, r: Record): Tables {
    t.(records := t.records[ingress := r])
  }

  /** held is whether the service still has its fencing token. */
  function TakeFence(t: Tables, ingress: string, held: bool): Result<Tables, DispatchError> {
    if held && InState(t, ingress, {Prepared}) then
      Ok(SetRecord(t, ingress, t.records[ingress].(state := BytesSending, stage := Sending)))
    else Err(FenceLost)
  }

  function Acknowledge(t: Tables, ingress: string): Result<Tables, DispatchError> {
    if InState(t, ingress, {BytesSending}) && t.records[ingress].stage.Sending? then
      Ok(SetRecord(t, ingress, t.records[ingress].(stage := Submitted)))
    else Err(SwapLost)
  }

  function SetAttempt(t: Tables, ingress: string, from: set<AttemptState>, next: AttemptState): Tables {
    if ingress in t.attempts && t.attempts[ingress] in from then t.(attempts := t.attempts[ingress := next]) else t
  }

  /** Acceptance by the dispatching call itself: its plain insert fails when a tombstone is there. */
  function AcceptNow(t: Tables, ingress: string): Result<Tables, DispatchError> {
    var states := if ingress in t.records && t.records[ingress].path.Queue? then {BytesSending, Accepted} else {BytesSending};
    if !InState(t, ingress, states) then Err(SwapLost)
    else if ingress in t.tombstones then Err(KeyConflict)
    else
      Ok(SetAttempt(SetRecord(t, ingress, t.records[ingress].(state := Accepted)), ingress, {Dispatching}, AttemptAccepted)
           .(tombstones := t.tombstones + {ingress}))
  }

  /** Acceptance found out later, from rollout items, the queue or the thread's history. */
  function AcceptLate(t: Tables, ingress: string, states: set<DispatchState>): Tables {
    if InState(t, ingress, states) then
      SetAttempt(SetRecord(t, ingress, t.records[ingress].(state := Accepted)), ingress, {Dispatching, AttemptUnknown}, AttemptAccepted)
        .(tombstones := t.tombstones + {ingress})
    else t
  }

  /** The outcome is lost; interrupted stops between the two statements. */
  function MarkUnknown(t: Tables, ingress: string, interrupted: bool): Tables {
    var marked := if InState(t, ingress, {BytesSending}) then SetRecord(t, ingress, t.records[ingress].(state := OutcomeUnknown)) else t;
    if interrupted then marked else SetAttempt(marked, ingress, {Dispatching}, AttemptUnknown)
  }

  /** Nothing was sent: the queue path still counts its attempt as unknown, the others leave the rows as they are. */
  function LoseFence(t: Tables, ingress: string): Tables {
    if ingress in t.records && t.records[ingress].path.Queue? then MarkUnknown(t, ingress, false) else t
  }

  /** CLI and relay take back an attempt that no Codex item was seen for. */
  predicate MayRollBack(t: Tables, ingress: string) {
    && InState(t, ingress, {BytesSending}) && t.records[ingress].stage.Sending?
    && (t.records[ingress].path.Cli? || t.records[ingress].path.Relay?)
  }

  function RollBack(t: Tables, ingress: string): Tables {
    if !MayRollBack(t, ingress) then t
    else
      t.(records := t.records - {ingress},
         attempts := if ingress in t.attempts && t.attempts[ingress].Dispatching? then t.attempts - {ingress} else t.attempts)
  }

  class DispatchStore {
    var records: map<string, Record>
    var attempts: map<string, AttemptState>
    var tombstones: set<string>

    constructor ()
      ensures Contents() == Tables(map[], map[], {})
    {
      records, attempts, tombstones := map[], map[], {};
    }

    function Contents(): Tables
      reads this
    {
      Tables(records, attempts, tombstones)
    }

    method InsertAttempt(ingress: string, path: Path, request: string) returns (r: Result<Insertion, DispatchError>)
      modifies this
      ensures match Insert(old(Contents()), ingress, path, request) {
                case Err(e) => r == Err(e) && Contents() == old(Contents())
                case Ok(after) => r == Ok(after.1) && Contents() == after.0
              }
    {
      if ingress in records {
        if records[ingress].request != request {
          return Err(IdentityConflict);
        }
        return Ok(Existing(records[ingress].state, records[ingress].stage));
      }
      if ingress in attempts {
        return Err(KeyConflict);
      }
      attempts := attempts[ingress := Dispatching];
      records := records[ingress := Record(path, request, Prepared, Unsent)];
      return Ok(Inserted);
    }

    /** One transaction: record, attempt and tombstone change together or not at all. */
    method Accept(ingress: string) returns (r: Result<bool, DispatchError>)
      modifies this
      ensures match AcceptNow(old(Contents()), ingress) {
                case Err(e) => r == Err(e) && Contents() == old(Contents())
                case Ok(after) => r == Ok(true) && Contents() == after
              }
    {
      if ingress !in records {
        return Err(SwapLost);
      }
      var record := records[ingress];
      if !record.state.BytesSending? && !(record.path.Queue? && record.state.Accepted?) {
        return Err(SwapLost);
      }
      var saved := Contents();
      records := records[ingress := record.(state := Accepted)];
      if ingress in attempts && attempts[ingress].Dispatching? {
        attempts := attempts[ingress := AttemptAccepted];
      }
      if ingress in tombstones {
        records, attempts := saved.records, saved.attempts;
        return Err(KeyConflict);
      }
      tombstones := tombstones + {ingress};
      return Ok(true);
    }

    method AcceptReconciled(ingress: string, states: set<DispatchState>)
      modifies this
      ensures Contents() == AcceptLate(old(Contents()), ingress, states)
    {
      if ingress !in records || records[ingress].state !in states {
        return;
      }
      records := records[ingress := records[ingress].(state := Accepted)];
      if ingress in attempts && (attempts[ingress].Dispatching? || attempts[ingress].AttemptUnknown?) {
        attempts := attempts[ingress := AttemptAccepted];
      }
      tombstones := tombstones + {ingress};
    }

    method TakeBack(ingress: string) returns (removed: bool)
      modifies this
      ensures removed == MayRollBack(old(Contents()), ingress) && Contents() == RollBack(old(Contents()), ingress)
    {
      if ingress !in records {
        return false;
      }
      var record := records[ingress];
      if !record.state.BytesSending? || !record.stage.Sending? || !(record.path.Cli? || record.path.Relay?) {
        return false;
      }
      records := records - {ingress};
      if ingress in attempts && attempts[ingress].Dispatching? {
        attempts := attempts - {ingress};
      }
      return true;
    }
  }

  // ---- Looking for one queued submission ----

  /** One answer to thread/queue/list; ids are the entries with the wanted client message id. */
  datatype QueuePage = Failed | QueuePage(ids: seq<string>, next: Option<string>)

  const PAGE_LIMIT := 10

  /** The entries on the first pages, None when a page fails. */
  function QueueEntries(pages: seq<QueuePage>, limit: nat): Option<seq<string>>
    decreases limit
  {
    if limit == 0 then Some([])
    else if pages == [] || pages[0].Failed? then None
    else if pages[0].next.None? || pages[0].next.value == "" then Some(pages[0].ids)
    else Prefixed(pages[0].ids, QueueEntries(pages[1..], limit - 1))
  }

  predicate AllSame(ids: seq<string>) {
    forall k :: 0 <= k < |ids| ==> ids[k] == ids[0]
  }

  function Prefixed(ids: seq<string>, rest: Option<seq<string>>): Option<seq<string>> {
    if rest.None? then None else Some(ids + rest.value)
  }

  lemma PrefixedTwice(a: seq<string>, b: seq<string>, rest: Option<seq<string>>)
    ensures Prefixed(a, Prefixed(b, rest)) == Prefixed(a + b, rest) && Prefixed([], rest) == rest
    ensures Prefixed(a, Some([])) == Some(a)
  {
    assert rest.Some? ==> a + (b + rest.value) == (a + b) + rest.value && [] + rest.value == rest.value;
    assert a + [] == a;
  }

  /** The page names another one. */
  predicate HasMore(page: QueuePage) {
    page.QueuePage? && page.next.Some? && page.next.value != ""
  }

  /** The first n pages are read, all of them there: up to the first that names no other, or up to the limit. */
  ghost predicate ReadsPages(pages: seq<QueuePage>, limit: nat, n: nat) {
    && n <= limit && n <= |pages|
    && (forall k :: 0 <= k < n ==> pages[k].QueuePage?)
    && (forall k :: 0 <= k < n - 1 ==> HasMore(pages[k]))
    && (n < limit ==> n > 0 && !HasMore(pages[n - 1]))
  }

  function IdsOn(pages: seq<QueuePage>, n: nat): seq<string>
    requires n <= |pages|
  {
    if n == 0 then [] else (if pages[0].QueuePage? then pages[0].ids else []) + IdsOn(pages[1..], n - 1)
  }

  /** Which entries are found: those of the pages that are read, and none when one of them failed. */
  lemma {:induction false} EntriesAre(pages: seq<QueuePage>, limit: nat)
    ensures QueueEntries(pages, limit).Some? <==> exists n: nat :: ReadsPages(pages, limit, n)
    ensures forall n: nat :: ReadsPages(pages, limit, n) ==> QueueEntries(pages, limit) == Some(IdsOn(pages, n))
    decreases limit
  {
    if limit == 0 {
      assert ReadsPages(pages, 0, 0);
    } else if pages != [] && HasMore(pages[0]) {
      var rest, left: nat := pages[1..], limit - 1;
      assert pages == [pages[0]] + rest;
      EntriesAre(rest, left);
      forall n: nat | ReadsPages(pages, limit, n) ensures n > 0 && ReadsPages(rest, left, n - 1) {
        assert n > 0;
      }
      if m: nat :| ReadsPages(rest, left, m) {
        assert ReadsPages(pages, limit, m + 1);
      }
    } else if pages != [] && pages[0].QueuePage? {
      assert ReadsPages(pages, limit, 1);
      assert forall n: nat :: ReadsPages(pages, limit, n) ==> n == 1;
      assert IdsOn(pages, 1) == pages[0].ids + IdsOn(pages[1..], 0);
      assert pages[0].ids + [] == pages[0].ids;
    } else {
      forall n: nat ensures !ReadsPages(pages, limit, n) {
        assert n > 0 && pages != [] ==> !pages[0].QueuePage?;
      }
    }
  }

  method CollectEntries(pages: seq<QueuePage>) returns (entries: Option<seq<string>>)
    ensures entries == QueueEntries(pages, PAGE_LIMIT)
  {
    var matches: seq<string> := [];
    PrefixedTwice([], [], QueueEntries(pages, PAGE_LIMIT));
    for page := 0 to PAGE_LIMIT
      invariant page <= |pages|
      invariant QueueEntries(pages, PAGE_LIMIT) == Prefixed(matches, QueueEntries(pages[page..], PAGE_LIMIT - page))
    {
      if page == |pages| || pages[page].Failed? {
        return None;
      }
      var answer := pages[page];
      assert pages[page..][1..] == pages[page + 1..];
      PrefixedTwice(matches, answer.ids, QueueEntries(pages[page + 1..], PAGE_LIMIT - page - 1));
      matches := matches + answer.ids;
      if answer.next.None? || answer.next.value == "" {
        return Some(matches);
      }
    }
    PrefixedTwice(matches, [], Some([]));
    return Some(matches);
  }

  /** A queue entry counts only when the pages name exactly one. */
  method FindQueued(pages: seq<QueuePage>) returns (id: Option<string>)
    ensures var entries := QueueEntries(pages, PAGE_LIMIT);
            id == if entries.Some? && entries.value != [] && AllSame(entries.value) then Some(entries.value[0]) else None
  {
    hide QueueEntries;
    var entries := CollectEntries(pages);
    if entries.None? || entries.value == [] {
      return None;
    }
    var matches := entries.value;
    for k := 0 to |matches|
      invariant forall j :: 0 <= j < k ==> matches[j] == matches[0]
    {
      if matches[k] != matches[0] {
        return None;
      }
    }
    return Some(matches[0]);
  }

  // ---- Runs ----

  /** What happened outside: a submission reached a writer, or an attempt was taken back. */
  datatype Event = Submission(ingress: string, path: Path) | TakenBack(ingress: string, path: Path)

  datatype Loop = Idle | AfterInsert(ingress: string) | AfterFence(ingress: string) | AfterSubmit(ingress: string)

  datatype World = World(tables: Tables, loop: Loop, log: seq<Event>)

  datatype Action =
    | Begin(ingress: string, path: Path, request: string)
    | Fence(held: bool)
    | Submit
    | Acknowledged
    | Confirm
    | LoseOutcome(interrupted: bool)
    | GiveBack
    | RecoverAbandoned(ingress: string, found: bool)
    | Reconcile(ingress: string)
    | EchoSeen(ingress: string)
    | TurnCompleted(ingress: string)
    | ControlDone(ingress: string)
    | Crash

  function TakeBackEvent(w: World, ingress: string): World {
    if MayRollBack(w.tables, ingress) then
      w.(tables := RollBack(w.tables, ingress), log := w.log + [TakenBack(ingress, w.tables.records[ingress].path)])
    else w
  }

  /** Steps of the dispatching call that the loop stands in. */
  function CallStep(w: World, a: Action): World {
    match a
    case Fence(held) =>
      if !w.loop.AfterInsert? then w
      else
        var r := TakeFence(w.tables, w.loop.ingress, held);
        if r.Ok? then w.(tables := r.value, loop := AfterFence(w.loop.ingress))
        else w.(tables := LoseFence(w.tables, w.loop.ingress), loop := Idle)
    case Submit =>
      if w.loop.AfterFence? && w.loop.ingress in w.tables.records then
        w.(loop := AfterSubmit(w.loop.ingress), log := w.log + [Submission(w.loop.ingress, w.tables.records[w.loop.ingress].path)])
      else w
    case Acknowledged =>
      if !w.loop.AfterSubmit? then w
      else
        var r := Acknowledge(w.tables, w.loop.ingress);
        if r.Ok? then w.(tables := r.value) else w.(loop := Idle)
    case Confirm =>
      if !w.loop.AfterSubmit? then w
      else
        var r := AcceptNow(w.tables, w.loop.ingress);
        w.(tables := if r.Ok? then r.value else w.tables, loop := Idle)
    case LoseOutcome(interrupted) =>
      if w.loop.AfterSubmit? then w.(tables := MarkUnknown(w.tables, w.loop.ingress, interrupted), loop := Idle) else w
    case GiveBack =>
      if w.loop.AfterSubmit? then TakeBackEvent(w, w.loop.ingress).(loop := Idle) else w
    case _ => w
  }

  /** Only messages without a tombstone are dispatched; the other steps run between dispatching calls. */
  function Next(w: World, a: Action): World {
    if a.Crash? then w.(loop := Idle)
    else if !w.loop.Idle? then CallStep(w, a)
    else match a
      case Begin(ingress, path, request) =>
        var r := Insert(w.tables, ingress, path, request);
        if ingress !in w.tables.tombstones && r.Ok? && r.value.1.Inserted? then
          w.(tables := r.value.0, loop := AfterInsert(ingress))
        else w
      case RecoverAbandoned(ingress, found) =>
        if !MayRollBack(w.tables, ingress) || !w.tables.records[ingress].path.Cli? then w
        else if found then w.(tables := AcceptLate(w.tables, ingress, {BytesSending}))
        else TakeBackEvent(w, ingress)
      case Reconcile(ingress) => w.(tables := AcceptLate(w.tables, ingress, {OutcomeUnknown}))
      case EchoSeen(ingress) => w.(tables := AcceptLate(w.tables, ingress, {BytesSending, Accepted, OutcomeUnknown}))
      case TurnCompleted(ingress) =>
        if InState(w.tables, ingress, {Accepted}) then
          w.(tables := SetRecord(w.tables, ingress, w.tables.records[ingress].(state := Completed)))
        else w
      case ControlDone(ingress) =>
        if ingress !in w.tables.records || InState(w.tables, ingress, {Accepted, Completed}) then
          w.(tables := w.tables.(tombstones := w.tables.tombstones + {ingress}))
        else w
      case _ => w
  }

  function Run(w: World, actions: seq<Action>): World
    decreases |actions|
  {
    if actions == [] then w else Run(Next(w, actions[0]), actions[1..])
  }

  const START := World(Tables(map[], map[], {}), Idle, [])

  // ---- What every step keeps ----

  /** The path of the last submission for the message, unless it was taken back. */
  function Live(log: seq<Event>, ingress: string): Option<Path> {
    if log == [] then None
    else
      var last := log[|log| - 1];
      if last.ingress != ingress then Live(log[..|log| - 1], ingress)
      else if last.Submission? then Some(last.path) else None
  }

  /** A submission needs that nothing is live, and only CLI and relay submissions are taken back. */
  ghost predicate Alternates(log: seq<Event>) {
    log == [] ||
    (var init, last := log[..|log| - 1], log[|log| - 1];
     && Alternates(init)
     && (last.Submission? ==> Live(init, last.ingress).None?)
     && (last.TakenBack? ==>
           && (last.path.Cli? || last.path.Relay?)
           && (Live(init, last.ingress).Some? ==> Live(init, last.ingress) == Some(last.path))))
  }

  ghost predicate RecordInv(t: Tables, log: seq<Event>, ingress: string) {
    && (ingress in t.records <==> ingress in t.attempts)
    && (Live(log, ingress).Some? ==>
          ingress in t.records && t.records[ingress].path == Live(log, ingress).value && !t.records[ingress].state.Prepared?)
    && (ingress in t.records ==>
          var r := t.records[ingress];
          && (r.state.Accepted? || r.state.Completed? <==> ingress in t.tombstones)
          && (r.state.BytesSending? ==> t.attempts[ingress].Dispatching?)
          && (r.state.Prepared? ==> t.attempts[ingress].Dispatching? || (t.attempts[ingress].AttemptUnknown? && r.path.Queue?)))
  }

  ghost predicate LoopInv(w: World) {
    !w.loop.Idle? ==>
      && w.loop.ingress in w.tables.records
      && w.loop.ingress in w.tables.attempts
      && (w.loop.AfterInsert? ==>
            w.tables.records[w.loop.ingress].state.Prepared? && w.tables.attempts[w.loop.ingress].Dispatching?)
      && (w.loop.AfterFence? ==> w.tables.records[w.loop.ingress].state.BytesSending? && Live(w.log, w.loop.ingress).None?)
      && (w.loop.AfterSubmit? ==> w.tables.records[w.loop.ingress].state.BytesSending?)
  }

  ghost predicate Inv(w: World) {
    && (forall ingress :: RecordInv(w.tables, w.log, ingress))
    && Alternates(w.log)
    && LoopInv(w)
  }

  lemma StartInv()
    ensures Inv(START)
  {
  }

  lemma LiveAppend(log: seq<Event>, e: Event, ingress: string)
    ensures Live(log + [e], ingress) ==
            if e.ingress != ingress then Live(log, ingress) else if e.Submission? then Some(e.path) else None
  {
    assert (log + [e])[..|log|] == log;
  }

  lemma AlternatesAppend(log: seq<Event>, e: Event)
    requires Alternates(log)
    requires e.Submission? ==> Live(log, e.ingress).None?
    requires e.TakenBack? ==> (e.path.Cli? || e.path.Relay?) && (Live(log, e.ingress).Some? ==> Live(log, e.ingress) == Some(e.path))
    ensures Alternates(log + [e])
  {
    hide Live;
    assert (log + [e])[..|log|] == log;
  }

  /** Steps that change one message's rows and nothing outside. */
  lemma RowsStepKeepsInv(w: World, w': World, ingress: string)
    requires Inv(w) && w'.log == w.log && LoopInv(w') && RecordInv(w'.tables, w.log, ingress)
    requires forall x :: x != ingress ==>
               && (x in w'.tables.records <==> x in w.tables.records) && (x in w'.tables.attempts <==> x in w.tables.attempts)
               && (x in w'.tables.tombstones <==> x in w.tables.tombstones)
               && (x in w.tables.records ==> w'.tables.records[x] == w.tables.records[x])
               && (x in w.tables.attempts ==> w'.tables.attempts[x] == w.tables.attempts[x])
    ensures Inv(w')
  {
    hide Live, Alternates;
    forall x ensures RecordInv(w'.tables, w'.log, x) {
      assert RecordInv(w.tables, w.log, x);
    }
  }

  lemma BeginKeepsInv(w: World, a: Action)
    requires Inv(w) && w.loop.Idle? && a.Begin?
    ensures Inv(Next(w, a))
  {
    hide Live, Alternates;
    assert RecordInv(w.tables, w.log, a.ingress);
    if Next(w, a) != w { RowsStepKeepsInv(w, Next(w, a), a.ingress); }
  }

  lemma LateKeepsInv(w: World, ingress: string, states: set<DispatchState>)
    requires Inv(w) && w.loop.Idle? && Prepared !in states
    ensures Inv(w.(tables := AcceptLate(w.tables, ingress, states)))
  {
    hide Live, Alternates;
    assert RecordInv(w.tables, w.log, ingress);
    RowsStepKeepsInv(w, w.(tables := AcceptLate(w.tables, ingress, states)), ingress);
  }

  lemma QuietKeepsInv(w: World, a: Action)
    requires Inv(w) && w.loop.Idle? && (a.TurnCompleted? || a.ControlDone?)
    ensures Inv(Next(w, a))
  {
    hide Live, Alternates;
    assert RecordInv(w.tables, w.log, a.ingress);
    if Next(w, a) != w { RowsStepKeepsInv(w, Next(w, a), a.ingress); }
  }

  lemma TakeBackKeepsInv(w: World, ingress: string)
    requires Inv(w) && (w.loop.Idle? || w.loop.ingress == ingress)
    ensures Inv(TakeBackEvent(w, ingress).(loop := Idle))
  {
    hide Live, Alternates;
    var w' := TakeBackEvent(w, ingress).(loop := Idle);
    if MayRollBack(w.tables, ingress) {
      var e := TakenBack(ingress, w.tables.records[ingress].path);
      assert RecordInv(w.tables, w.log, ingress);
      AlternatesAppend(w.log, e);
      forall x ensures RecordInv(w'.tables, w'.log, x) {
        assert RecordInv(w.tables, w.log, x);
        LiveAppend(w.log, e, x);
      }
    }
  }

  lemma SubmitKeepsInv(w: World)
    requires Inv(w) && w.loop.AfterFence?
    ensures Inv(CallStep(w, Submit))
  {
    hide Live, Alternates;
    var w' := CallStep(w, Submit);
    var e := Submission(w.loop.ingress, w.tables.records[w.loop.ingress].path);
    AlternatesAppend(w.log, e);
    forall x ensures RecordInv(w'.tables, w'.log, x) {
      assert RecordInv(w.tables, w.log, x);
      LiveAppend(w.log, e, x);
    }
  }

  lemma CallKeepsInv(w: World, a: Action)
    requires Inv(w) && !w.loop.Idle?
    ensures Inv(CallStep(w, a))
  {
    hide Live, Alternates;
    if a.Submit? {
      if w.loop.AfterFence? { SubmitKeepsInv(w); }
    } else if a.GiveBack? {
      if w.loop.AfterSubmit? { TakeBackKeepsInv(w, w.loop.ingress); }
    } else if CallStep(w, a) != w {
      assert RecordInv(w.tables, w.log, w.loop.ingress);
      RowsStepKeepsInv(w, CallStep(w, a), w.loop.ingress);
    }
  }

  lemma NextKeepsInv(w: World, a: Action)
    requires Inv(w)
    ensures Inv(Next(w, a))
  {
    hide Live, Alternates, CallStep, AcceptLate, RollBack, RecordInv;
    if a.Crash? {
    } else if !w.loop.Idle? {
      CallKeepsInv(w, a);
    } else {
      match a {
        case Begin(_, _, _) => BeginKeepsInv(w, a);
        case RecoverAbandoned(ingress, found) =>
          LateKeepsInv(w, ingress, {BytesSending});
          TakeBackKeepsInv(w, ingress);
        case Reconcile(ingress) => LateKeepsInv(w, ingress, {OutcomeUnknown});
        case EchoSeen(ingress) => LateKeepsInv(w, ingress, {BytesSending, Accepted, OutcomeUnknown});
        case TurnCompleted(_) => QuietKeepsInv(w, a);
        case ControlDone(_) => QuietKeepsInv(w, a);
        case _ =>
      }
    }
  }

  lemma {:induction false} RunKeepsInv(w: World, actions: seq<Action>)
    requires Inv(w)
    ensures Inv(Run(w, actions))
    decreases |actions|
  {
    hide Inv, Next;
    if actions != [] {
      NextKeepsInv(w, actions[0]);
      RunKeepsInv(Next(w, actions[0]), actions[1..]);
    }
  }

  // ---- Main results ----

  /** While a submission is live and not taken back in between, it stays the live one. */
  lemma {:induction false} StaysLive(log: seq<Event>, a: nat, b: nat)
    requires Alternates(log) && a < b <= |log| && log[a].Submission?
    requires forall c :: a < c < b ==> log[c] != TakenBack(log[a].ingress, log[a].path)
    ensures Live(log[..b], log[a].ingress) == Some(log[a].path)
    decreases b
  {
    var e := log[a];
    assert log[..b][..b - 1] == log[..b - 1];
    PrefixAlternates(log, b);
    if b == a + 1 {
      assert log[..b][b - 1] == e;
    } else {
      StaysLive(log, a, b - 1);
    }
  }

  lemma {:induction false} PrefixAlternates(log: seq<Event>, b: nat)
    requires Alternates(log) && b <= |log|
    ensures Alternates(log[..b])
    decreases |log|
  {
    hide Live;
    if b < |log| {
      PrefixAlternates(log[..|log| - 1], b);
      assert log[..|log| - 1][..b] == log[..b];
    } else {
      assert log[..b] == log;
    }
  }

  /**
   At most once: in every run, between two submissions of one message the first one was taken back,
   and it went through the CLI or the relay.
   */
  lemma ResubmittedOnlyAfterRollback(actions: seq<Action>, a: nat, b: nat)
    requires var log := Run(START, actions).log;
             a < b < |log| && log[a].Submission? && log[b].Submission? && log[a].ingress == log[b].ingress
    ensures var log := Run(START, actions).log;
            && (log[a].path.Cli? || log[a].path.Relay?)
            && exists c :: a < c < b && log[c] == TakenBack(log[a].ingress, log[a].path)
  {
    hide Run, Next;
    StartInv();
    RunKeepsInv(START, actions);
    var log := Run(START, actions).log;
    if forall c :: a < c < b ==> log[c] != TakenBack(log[a].ingress, log[a].path) {
      StaysLive(log, a, b);
    }
    SubmittedWhenNothingLive(log, b);
    var c :| a < c < b && log[c] == TakenBack(log[a].ingress, log[a].path);
    PrefixAlternates(log, c + 1);
    assert log[..c + 1][c] == log[c];
  }

  lemma SubmittedWhenNothingLive(log: seq<Event>, b: nat)
    requires Alternates(log) && b < |log| && log[b].Submission?
    ensures Live(log[..b], log[b].ingress).None?
  {
    hide Live;
    PrefixAlternates(log, b + 1);
    assert log[..b + 1][..b] == log[..b] && log[..b + 1][b] == log[b];
  }

  /** A message submitted to the queue or the desktop is never submitted again, over any path. */
  lemma QueueAndDesktopOnce(actions: seq<Action>, a: nat, b: nat)
    requires var log := Run(START, actions).log;
             a < b < |log| && log[a].Submission? && log[b].Submission? && (log[a].path.Queue? || log[a].path.Desktop?)
    ensures var log := Run(START, actions).log; log[a].ingress != log[b].ingress
  {
    hide Run, Next;
    var log := Run(START, actions).log;
    if log[a].ingress == log[b].ingress {
      ResubmittedOnlyAfterRollback(actions, a, b);
    }
  }

  /** A dispatch record is accepted or completed exactly when its message has a tombstone. */
  lemma AcceptedIffTombstone(actions: seq<Action>, ingress: string)
    requires ingress in Run(START, actions).tables.records
    ensures var t := Run(START, actions).tables;
            t.records[ingress].state.Accepted? || t.records[ingress].state.Completed? <==> ingress in t.tombstones
  {
    hide Run, Next, Live, Alternates;
    StartInv();
    RunKeepsInv(START, actions);
    assert RecordInv(Run(START, actions).tables, Run(START, actions).log, ingress);
  }

  /** Inserting an attempt never meets a leftover row of its message, so only a changed request is refused. */
  lemma InsertFailsIff(actions: seq<Action>, ingress: string, path: Path, request: string)
    ensures var t := Run(START, actions).tables;
            Insert(t, ingress, path, request).Err? <==> ingress in t.records && t.records[ingress].request != request
  {
    hide Run, Next, Live, Alternates;
    StartInv();
    RunKeepsInv(START, actions);
    assert RecordInv(Run(START, actions).tables, Run(START, actions).log, ingress);
  }

  /**
   The dispatching call can accept its record exactly while it is still sending: a record that is
   accepted already, which the queue path allows for, is refused by the tombstone it left.
   */
  lemma AcceptSucceedsIff(actions: seq<Action>, ingress: string)
    ensures var t := Run(START, actions).tables;
            && (AcceptNow(t, ingress).Ok? <==> InState(t, ingress, {BytesSending}))
            && (AcceptNow(t, ingress) == Err(KeyConflict) <==> InState(t, ingress, {Accepted}) && t.records[ingress].path == Queue)
  {
    hide Run, Next, Live, Alternates;
    StartInv();
    RunKeepsInv(START, actions);
    assert RecordInv(Run(START, actions).tables, Run(START, actions).log, ingress);
  }
}
