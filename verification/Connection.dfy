/**
 The App Server connection: requesting threads and the reader thread share a table of waiters
 and a bounded memory of requests that timed out. Each action below is one lock section or one
 step outside the locks.
 */
module Connection {
  import opened Options

  const EXPIRED_LIMIT := 1024

  /** waiters maps a request id to its requester's queue, named by the request's index. */
  datatype Table = Table(waiters: map<int, nat>, expired: set<int>, order: seq<int>)

  function Evict(order: seq<int>, expired: set<int>): (r: (seq<int>, set<int>))
    decreases |order|
  {
    if |order| <= EXPIRED_LIMIT then (order, expired) else Evict(order[1..], expired - {order[0]})
  }

  function Expired(t: Table, id: int): Table {
    var kept := Evict(t.order + [id], t.expired + {id});
    t.(order := kept.0, expired := kept.1)
  }

  datatype Lookup = Lookup(target: Option<nat>, wasExpired: bool)

  function Looked(t: Table, id: int): Lookup {
    Lookup(if id in t.waiters then Some(t.waiters[id]) else None, id in t.expired)
  }

  class ResponseTable {
    var waiters: map<int, nat>
    var expired: set<int>
    var order: seq<int>

    constructor ()
      ensures Contents() == Table(map[], {}, [])
    {
      waiters, expired, order := map[], {}, [];
    }

    function Contents(): Table
      reads this
    {
      Table(waiters, expired, order)
    }

    method Register(id: int, queue: nat)
      modifies this
      ensures Contents() == old(Contents()).(waiters := old(waiters)[id := queue])
    {
      waiters := waiters[id := queue];
    }

    method Unregister(id: int)
      modifies this
      ensures Contents() == old(Contents()).(waiters := old(waiters) - {id})
    {
      waiters := waiters - {id};
    }

    /** The reader's section: who waits for id, and is it remembered as expired. */
    method LookUp(id: int) returns (found: Lookup)
      modifies this
      ensures found == Looked(old(Contents()), id)
      ensures Contents() == old(Contents()).(expired := old(expired) - {id})
    {
      found := Lookup(if id in waiters then Some(waiters[id]) else None, id in expired);
      if found.wasExpired {
        expired := expired - {id};
      }
    }

    /** The section a requester runs after its wait timed out. */
    method Expire(id: int)
      modifies this
      ensures Contents() == Expired(old(Contents()), id)
    {
      expired := expired + {id};
      order := order + [id];
      while |order| > EXPIRED_LIMIT
        invariant waiters == old(waiters)
        invariant Evict(order, expired) == Evict(old(order) + [id], old(expired) + {id})
        decreases |order|
      {
        expired := expired - {order[0]};
        order := order[1..];
      }
    }
  }

  // ---- Two kinds of threads ----

  datatype Message = Message(id: int, payload: string)

  datatype Stage = Registered | Sent | TimedOut | Remembered | Answered(message: Message) | Done

  /** One call of request: its id, where it is, and its queue of at most one message. */
  datatype Call = Call(id: int, stage: Stage, sent: bool, queue: seq<Message>)

  /**
   timeouts, responded and settled record history: the requests that timed out, how many responses each id got,
   and the ids that got one after their timeout was remembered.
   */
  datatype World = World(
    table: Table,
    calls: seq<Call>,
    holding: Option<(nat, Message)>,
    failed: bool,
    timeouts: seq<int>,
    responded: multiset<int>,
    settled: set<int>)

  datatype Action =
    | Register(id: int)
    | Send(k: nat)
    | SendFails(k: nat)
    | Receive(message: Message)
    | Put
    | TimeOut(k: nat)
    | Remember(k: nat)
    | Take(k: nat)
    | Finish(k: nat)

  predicate At(w: World, k: nat, stage: Stage) {
    k < |w.calls| && w.calls[k].stage == stage
  }

  function Move(w: World, k: nat, call: Call): World
    requires k < |w.calls|
  {
    w.(calls := w.calls[k := call])
  }

  /** Request ids are fresh; the server may answer any id any number of times. Other steps have no effect. */
  function Next(w: World, a: Action): World {
    match a
    case Register(id) =>
      if !w.failed && (forall c :: c in w.calls ==> c.id != id) then
        w.(table := w.table.(waiters := w.table.waiters[id := |w.calls|]), calls := w.calls + [Call(id, Registered, false, [])])
      else w
    case Send(k) => if At(w, k, Registered) then Move(w, k, w.calls[k].(stage := Sent, sent := true)) else w
    case SendFails(k) =>
      if At(w, k, Registered) then
        Move(w.(table := w.table.(waiters := w.table.waiters - {w.calls[k].id})), k, w.calls[k].(stage := Done))
      else w
    case Receive(message) =>
      if w.failed || w.holding.Some? then w
      else
        var found := Looked(w.table, message.id);
        var next := w.(table := w.table.(expired := w.table.expired - {message.id}),
                       responded := w.responded + multiset{message.id},
                       settled := if message.id in w.timeouts then w.settled + {message.id} else w.settled);
        if found.target.Some? then next.(holding := Some((found.target.value, message)))
        else next.(failed := !found.wasExpired)
    case Put =>
      if w.holding.Some? && w.holding.value.0 < |w.calls| && w.calls[w.holding.value.0].queue == [] then
        var k := w.holding.value.0;
        Move(w.(holding := None), k, w.calls[k].(queue := [w.holding.value.1]))
      else w
    case TimeOut(k) =>
      if At(w, k, Sent) && w.calls[k].queue == [] then Move(w, k, w.calls[k].(stage := TimedOut)) else w
    case Remember(k) =>
      if At(w, k, TimedOut) then
        Move(w.(table := Expired(w.table, w.calls[k].id), timeouts := w.timeouts + [w.calls[k].id]), k,
             w.calls[k].(stage := Remembered))
      else w
    case Take(k) =>
      if At(w, k, Sent) && w.calls[k].queue != [] then
        Move(w, k, w.calls[k].(stage := Answered(w.calls[k].queue[0]), queue := w.calls[k].queue[1..]))
      else w
    case Finish(k) =>
      if k < |w.calls| && (w.calls[k].stage.Remembered? || w.calls[k].stage.Answered?) then
        Move(w.(table := w.table.(waiters := w.table.waiters - {w.calls[k].id})), k, w.calls[k].(stage := Done))
      else w
  }

  function Run(w: World, actions: seq<Action>): World
    decreases |actions|
  {
    if actions == [] then w else Run(Next(w, actions[0]), actions[1..])
  }

  const START := World(Table(map[], {}, []), [], None, false, [], multiset{}, {})

  // ---- What every step keeps ----

  function Recent(timeouts: seq<int>): seq<int> {
    if |timeouts| <= EXPIRED_LIMIT then timeouts else timeouts[|timeouts| - EXPIRED_LIMIT..]
  }

  /** The order is the last timeouts, and remembered are those among them that got no response since. */
  ghost predicate MemoryInv(t: Table, timeouts: seq<int>, settled: set<int>) {
    && t.order == Recent(timeouts)
    && (forall id :: id in settled ==> id in timeouts)
    && (forall id :: id in t.expired <==> id in t.order && id !in settled)
  }

  function Count(b: bool): nat {
    if b then 1 else 0
  }

  /** The responses that are on their way to the call, or are its answer. */
  function OnTheWay(w: World, k: nat): nat
    requires k < |w.calls|
  {
    |w.calls[k].queue| + Count(w.calls[k].stage.Answered?) + Count(w.holding.Some? && w.holding.value.0 == k)
  }

  ghost predicate CallInv(w: World, k: nat)
    requires k < |w.calls|
  {
    var c := w.calls[k];
    && (c.stage.Done? <==> c.id !in w.table.waiters)
    && (c.id in w.table.waiters ==> w.table.waiters[c.id] == k)
    && (c.id in w.timeouts ==> c.stage.Remembered? || c.stage.Done?)
    && (c.stage.Remembered? ==> c.id in w.timeouts)
    && (c.stage.Registered? ==> !c.sent)
    && (forall m :: m in c.queue ==> m.id == c.id)
    && (c.stage.Answered? ==> c.stage.message.id == c.id)
    && |c.queue| <= 1
    && OnTheWay(w, k) <= w.responded[c.id]
    && (c.stage.Done? && c.sent && c.id !in w.responded ==> c.id in w.timeouts)
  }

  /** Some call registered the id. */
  ghost predicate Known(calls: seq<Call>, id: int) {
    exists k :: 0 <= k < |calls| && calls[k].id == id
  }

  ghost predicate Inv(w: World) {
    && MemoryInv(w.table, w.timeouts, w.settled)
    && (forall k :: 0 <= k < |w.calls| ==> CallInv(w, k))
    && (forall i, j :: 0 <= i < j < |w.calls| ==> w.calls[i].id != w.calls[j].id)
    && (forall i, j :: 0 <= i < j < |w.timeouts| ==> w.timeouts[i] != w.timeouts[j])
    && (forall id :: id in w.table.waiters ==> Known(w.calls, id))
    && (forall i :: 0 <= i < |w.timeouts| ==> Known(w.calls, w.timeouts[i]))
    && (w.holding.Some? ==>
          && w.holding.value.0 < |w.calls|
          && w.calls[w.holding.value.0].id == w.holding.value.1.id)
  }

  // ---- The bounded memory ----

  lemma {:induction false} EvictKeepsRecent(order: seq<int>, expired: set<int>)
    requires forall i, j :: 0 <= i < j < |order| ==> order[i] != order[j]
    requires forall id :: id in expired ==> id in order
    ensures var kept := Evict(order, expired);
            && kept.0 == Recent(order)
            && (forall id :: id in kept.1 <==> id in expired && id in kept.0)
    decreases |order|
  {
    if |order| > EXPIRED_LIMIT {
      var rest := order[1..];
      assert order == [order[0]] + rest;
      assert order[0] !in rest;
      EvictKeepsRecent(rest, expired - {order[0]});
      assert Recent(rest) == Recent(order);
    } else {
      assert forall id :: id in expired ==> id in order;
    }
  }

  lemma RecentAppend(timeouts: seq<int>, id: int)
    ensures Recent(timeouts + [id]) == Recent(Recent(timeouts) + [id])
  {
  }

  lemma RememberKeepsMemory(t: Table, timeouts: seq<int>, settled: set<int>, id: int)
    requires MemoryInv(t, timeouts, settled) && id !in timeouts
    requires forall i, j :: 0 <= i < j < |timeouts| ==> timeouts[i] != timeouts[j]
    ensures MemoryInv(Expired(t, id), timeouts + [id], settled)
  {
    hide Evict;
    var order := t.order + [id];
    assert forall x :: x in t.order ==> x in timeouts;
    assert forall x :: x in order <==> x in t.order || x == id;
    EvictKeepsRecent(order, t.expired + {id});
    RecentAppend(timeouts, id);
    assert forall x :: x in Recent(order) ==> x in order;
  }

  lemma ReceiveKeepsMemory(t: Table, timeouts: seq<int>, settled: set<int>, id: int)
    requires MemoryInv(t, timeouts, settled)
    ensures MemoryInv(t.(expired := t.expired - {id}), timeouts, if id in timeouts then settled + {id} else settled)
  {
  }

  // ---- Every step keeps the invariant ----

  lemma RegisterKeepsInv(w: World, id: int)
    requires Inv(w)
    ensures Inv(Next(w, Register(id)))
  {
    hide MemoryInv, Recent;
    var w' := Next(w, Register(id));
    if w' != w {
      forall k | 0 <= k < |w.calls| ensures w.calls[k].id != id && CallInv(w', k) {
        assert w.calls[k] in w.calls;
        assert CallInv(w, k) && w'.calls[k] == w.calls[k];
      }
      assert id !in w.timeouts;
      assert CallInv(w', |w.calls|);
      SameMemory(w.table, w'.table, w.timeouts, w.settled);
      forall x | x in w'.table.waiters ensures Known(w'.calls, x) {
        assert x != id ==> Known(w.calls, x);
        if x == id {
          assert w'.calls[|w.calls|].id == x;
        } else {
          var k :| 0 <= k < |w.calls| && w.calls[k].id == x;
          assert w'.calls[k].id == x;
        }
      }
      forall i | 0 <= i < |w.timeouts| ensures Known(w'.calls, w.timeouts[i]) {
        assert Known(w.calls, w.timeouts[i]);
        var k :| 0 <= k < |w.calls| && w.calls[k].id == w.timeouts[i];
        assert w'.calls[k].id == w.timeouts[i];
      }
    }
  }

  /** One call changes stage or queue; its id and the other calls stay. */
  lemma MoveKeepsOthers(w: World, w': World, k: nat)
    requires Inv(w) && k < |w.calls| && |w'.calls| == |w.calls| && w'.calls[k].id == w.calls[k].id
    requires forall j :: 0 <= j < |w.calls| && j != k ==> w'.calls[j] == w.calls[j]
    requires forall x :: x != w.calls[k].id ==> (x in w'.table.waiters <==> x in w.table.waiters)
    requires forall x :: x != w.calls[k].id && x in w.table.waiters ==> w'.table.waiters[x] == w.table.waiters[x]
    requires w.calls[k].id in w'.table.waiters ==> w.calls[k].id in w.table.waiters
    requires forall x :: x != w.calls[k].id ==> (x in w'.timeouts <==> x in w.timeouts)
    requires w'.responded == w.responded && (w'.holding == w.holding || w'.holding.None?)
    ensures forall j :: 0 <= j < |w.calls| && j != k ==> CallInv(w', j)
    ensures forall i, j :: 0 <= i < j < |w'.calls| ==> w'.calls[i].id != w'.calls[j].id
    ensures forall id :: id in w'.table.waiters ==> Known(w'.calls, id)
  {
    hide MemoryInv;
    forall j | 0 <= j < |w.calls| && j != k ensures CallInv(w', j) && w.calls[j].id != w.calls[k].id {
      assert CallInv(w, j);
    }
    forall x | x in w'.table.waiters ensures Known(w'.calls, x) {
      assert Known(w.calls, x);
      var j :| 0 <= j < |w.calls| && w.calls[j].id == x;
      assert w'.calls[j].id == x;
    }
  }

  lemma SameTimeouts(w: World, w': World)
    requires Inv(w) && w'.timeouts == w.timeouts && |w'.calls| == |w.calls|
    requires forall j :: 0 <= j < |w.calls| ==> w'.calls[j].id == w.calls[j].id
    ensures forall i :: 0 <= i < |w'.timeouts| ==> Known(w'.calls, w'.timeouts[i])
  {
    hide MemoryInv, CallInv;
    forall i | 0 <= i < |w'.timeouts| ensures Known(w'.calls, w'.timeouts[i]) {
      assert Known(w.calls, w.timeouts[i]);
      var k :| 0 <= k < |w.calls| && w.calls[k].id == w.timeouts[i];
      assert w'.calls[k].id == w'.timeouts[i];
    }
  }

  /** Steps of one requester that remember nothing. */
  lemma CallStepKeepsInv(w: World, a: Action)
    requires Inv(w) && (a.Send? || a.SendFails? || a.TimeOut? || a.Take? || a.Finish?)
    ensures Inv(Next(w, a))
  {
    hide MemoryInv, Recent, Expired;
    var w' := Next(w, a);
    if w' != w {
      assert CallInv(w, a.k);
      MoveKeepsOthers(w, w', a.k);
      SameTimeouts(w, w');
      assert MemoryInv(w'.table, w'.timeouts, w'.settled) by { SameMemory(w.table, w'.table, w.timeouts, w.settled); }
      assert CallInv(w', a.k);
    }
  }

  lemma SameMemory(t: Table, t': Table, timeouts: seq<int>, settled: set<int>)
    requires MemoryInv(t, timeouts, settled) && t'.order == t.order && t'.expired == t.expired
    ensures MemoryInv(t', timeouts, settled)
  {
  }

  lemma RememberKeepsInv(w: World, k: nat)
    requires Inv(w)
    ensures Inv(Next(w, Remember(k)))
  {
    hide MemoryInv, Recent, Evict;
    var w' := Next(w, Remember(k));
    if w' != w {
      var id := w.calls[k].id;
      assert CallInv(w, k);
      RememberKeepsMemory(w.table, w.timeouts, w.settled, id);
      MoveKeepsOthers(w, w', k);
      assert CallInv(w', k) by { assert w'.timeouts[|w.timeouts|] == id; }
      forall i | 0 <= i < |w'.timeouts| ensures Known(w'.calls, w'.timeouts[i]) {
        if i < |w.timeouts| {
          var j :| 0 <= j < |w.calls| && w.calls[j].id == w.timeouts[i];
          assert w'.calls[j].id == w'.timeouts[i];
        } else {
          assert w'.calls[k].id == w'.timeouts[i];
        }
      }
    }
  }

  lemma PutKeepsInv(w: World)
    requires Inv(w)
    ensures Inv(Next(w, Put))
  {
    hide MemoryInv;
    var w' := Next(w, Put);
    if w' != w {
      var k := w.holding.value.0;
      assert CallInv(w, k);
      MoveKeepsOthers(w, w', k);
      SameTimeouts(w, w');
      assert CallInv(w', k);
    }
  }

  lemma ReceiveKeepsInv(w: World, message: Message)
    requires Inv(w)
    ensures Inv(Next(w, Receive(message)))
  {
    hide MemoryInv;
    var w' := Next(w, Receive(message));
    if w' != w {
      ReceiveKeepsMemory(w.table, w.timeouts, w.settled, message.id);
      if w'.holding.Some? {
        var k :| 0 <= k < |w.calls| && w.calls[k].id == message.id;
        assert CallInv(w, k);
      }
      forall k | 0 <= k < |w.calls| ensures CallInv(w', k) {
        assert CallInv(w, k);
      }
    }
  }

  lemma NextKeepsInv(w: World, a: Action)
    requires Inv(w)
    ensures Inv(Next(w, a))
  {
    hide Inv, Next;
    match a {
      case Register(id) => RegisterKeepsInv(w, id);
      case Receive(message) => ReceiveKeepsInv(w, message);
      case Put => PutKeepsInv(w);
      case Remember(k) => RememberKeepsInv(w, k);
      case _ => CallStepKeepsInv(w, a);
    }
  }

  lemma {:induction false} RunKeepsInv(w: World, actions: seq<Action>)
    requires Inv(w)
    ensures Inv(Run(w, actions))
    decreases |actions|
  {
    hide Inv, Next;
    if actions != [] {
      NextKeepsInv(w, actions[0]);
      RunKeepsInv(Next(w, actions[0]), actions[1..]);
    }
  }

  lemma StartInv()
    ensures Inv(START)
  {
  }

  // ---- Main results ----

  /** How many requests timed out after id did. */
  function LaterTimeouts(timeouts: seq<int>, id: int): nat
    requires id in timeouts
  {
    if timeouts[|timeouts| - 1] == id then 0 else 1 + LaterTimeouts(timeouts[..|timeouts| - 1], id)
  }

  lemma {:induction false} LaterTimeoutsAt(timeouts: seq<int>, i: nat)
    requires i < |timeouts| && forall a, b :: 0 <= a < b < |timeouts| ==> timeouts[a] != timeouts[b]
    ensures LaterTimeouts(timeouts, timeouts[i]) == |timeouts| - 1 - i
    decreases |timeouts|
  {
    if i < |timeouts| - 1 {
      LaterTimeoutsAt(timeouts[..|timeouts| - 1], i);
    }
  }

  lemma RecentIffFewLater(timeouts: seq<int>, id: int)
    requires id in timeouts && forall a, b :: 0 <= a < b < |timeouts| ==> timeouts[a] != timeouts[b]
    ensures id in Recent(timeouts) <==> LaterTimeouts(timeouts, id) < EXPIRED_LIMIT
  {
    hide LaterTimeouts;
    var i :| 0 <= i < |timeouts| && timeouts[i] == id;
    LaterTimeoutsAt(timeouts, i);
    var from := |timeouts| - |Recent(timeouts)|;
    if i >= from {
      assert Recent(timeouts)[i - from] == id;
    }
  }

  /** The call with this id has not come to its end. */
  ghost predicate Waited(w: World, id: int) {
    exists k :: 0 <= k < |w.calls| && w.calls[k].id == id && !w.calls[k].stage.Done?
  }

  /** The id timed out, fewer than 1024 others after it, and no response to it came since. */
  ghost predicate Excused(w: World, id: int) {
    id in w.timeouts && id !in w.settled && LaterTimeouts(w.timeouts, id) < 1024
  }

  /** A response, to whatever id and however often, fails the connection exactly when nobody waits for it and it is not excused. */
  lemma ResponseFailsIff(actions: seq<Action>, message: Message)
    requires var w := Run(START, actions); !w.failed && w.holding.None?
    ensures var w := Run(START, actions);
            Next(w, Receive(message)).failed <==> !Waited(w, message.id) && !Excused(w, message.id)
  {
    hide Run, LaterTimeouts, Recent;
    StartInv();
    RunKeepsInv(START, actions);
    var w := Run(START, actions);
    var id := message.id;
    if id in w.timeouts {
      RecentIffFewLater(w.timeouts, id);
    }
    RememberedAreRecent(w.table, w.timeouts, w.settled, id);
    forall k | 0 <= k < |w.calls| && w.calls[k].id == id ensures w.calls[k].stage.Done? <==> id !in w.table.waiters {
      assert CallInv(w, k);
    }
    if id in w.table.waiters {
      assert Known(w.calls, id);
    }
  }

  lemma RememberedAreRecent(t: Table, timeouts: seq<int>, settled: set<int>, id: int)
    requires MemoryInv(t, timeouts, settled)
    ensures id in t.expired <==> id in timeouts && id in Recent(timeouts) && id !in settled
  {
  }

  /** A request that was sent and got no response yet can only fail the connection after 1024 later timeouts. */
  lemma LateResponseFailsIff(actions: seq<Action>, k: nat, payload: string)
    requires var w := Run(START, actions);
             k < |w.calls| && w.calls[k].sent && w.calls[k].id !in w.responded && !w.failed && w.holding.None?
    ensures var w := Run(START, actions);
            var id := w.calls[k].id;
            Next(w, Receive(Message(id, payload))).failed <==>
            w.calls[k].stage.Done? && id in w.timeouts && LaterTimeouts(w.timeouts, id) >= EXPIRED_LIMIT
  {
    hide Run, LaterTimeouts, Recent, Next;
    StartInv();
    RunKeepsInv(START, actions);
    SettledGotResponses(actions);
    ResponseFailsIff(actions, Message(Run(START, actions).calls[k].id, payload));
    var w := Run(START, actions);
    assert CallInv(w, k);
  }

  lemma {:induction false} SettledFrom(w: World, actions: seq<Action>)
    requires forall id :: id in w.settled ==> id in w.responded
    ensures forall id :: id in Run(w, actions).settled ==> id in Run(w, actions).responded
    decreases |actions|
  {
    if actions != [] {
      SettledFrom(Next(w, actions[0]), actions[1..]);
    }
  }

  lemma SettledGotResponses(actions: seq<Action>)
    ensures forall id :: id in Run(START, actions).settled ==> id in Run(START, actions).responded
  {
    hide Run;
    SettledFrom(START, actions);
  }

  /**
   A call is only ever answered with a response to its own id, and the reader waits for room in a queue only
   with a second response to the same id.
   */
  lemma ResponsesReachTheirCall(actions: seq<Action>, k: nat)
    requires k < |Run(START, actions).calls|
    ensures var w := Run(START, actions);
            && (w.calls[k].stage.Answered? ==> w.calls[k].stage.message.id == w.calls[k].id)
            && (forall m :: m in w.calls[k].queue ==> m.id == w.calls[k].id)
            && (w.holding.Some? && w.holding.value.0 == k && w.calls[k].queue != [] ==> w.responded[w.calls[k].id] >= 2)
  {
    hide Run, MemoryInv;
    StartInv();
    RunKeepsInv(START, actions);
    assert CallInv(Run(START, actions), k);
  }

  /** A response that comes while its call waits, with nothing in its queue yet, becomes the answer of the call. */
  lemma ResponseIsDelivered(actions: seq<Action>, k: nat, payload: string)
    requires var w := Run(START, actions);
             k < |w.calls| && w.calls[k].stage.Sent? && w.calls[k].queue == [] && !w.failed && w.holding.None?
    ensures var w := Run(START, actions);
            var message := Message(w.calls[k].id, payload);
            var w' := Run(w, [Receive(message), Put, Take(k)]);
            && k < |w'.calls| && w'.calls[k] == w.calls[k].(stage := Answered(message))
            && !w'.failed && w'.holding.None? && w'.timeouts == w.timeouts
  {
    hide Run, MemoryInv;
    StartInv();
    RunKeepsInv(START, actions);
    var w := Run(START, actions);
    assert CallInv(w, k);
    var message := Message(w.calls[k].id, payload);
    var steps := [Receive(message), Put, Take(k)];
    assert steps == [Receive(message)] + [Put, Take(k)] && [Put, Take(k)] == [Put] + [Take(k)] && [Take(k)] == [Take(k)] + [];
    RunOne(w, Receive(message), [Put, Take(k)]);
    var w1 := Next(w, Receive(message));
    assert w1.holding == Some((k, message)) && w1.calls == w.calls && w1.timeouts == w.timeouts && !w1.failed;
    RunOne(w1, Put, [Take(k)]);
    var w2 := Next(w1, Put);
    assert w2.calls == w.calls[k := w.calls[k].(queue := [message])] && w2.holding.None? && w2.timeouts == w.timeouts && !w2.failed;
    RunOne(w2, Take(k), []);
    RunNothing(Next(w2, Take(k)));
  }

  /** What a requester does from where it stands, whatever the reader does not do. */
  function Ending(w: World, k: nat): seq<Action>
    requires k < |w.calls|
  {
    match w.calls[k].stage
    case Registered => [SendFails(k)]
    case Sent => if w.calls[k].queue == [] then [TimeOut(k), Remember(k), Finish(k)] else [Take(k), Finish(k)]
    case TimedOut => [Remember(k), Finish(k)]
    case Remembered => [Finish(k)]
    case Answered(_) => [Finish(k)]
    case Done => []
  }

  /** From every state each call can come to its end by its own steps alone, and then nobody waits for its id. */
  lemma EveryCallCanEnd(actions: seq<Action>, k: nat)
    requires k < |Run(START, actions).calls|
    ensures var w := Run(START, actions);
            var w' := Run(w, Ending(w, k));
            k < |w'.calls| && w'.calls[k].stage.Done? && !Waited(w', w.calls[k].id)
            && (w.calls[k].stage.Sent? && w.calls[k].queue != [] ==> w'.timeouts == w.timeouts)
  {
    hide Inv, Run;
    StartInv();
    RunKeepsInv(START, actions);
    var w := Run(START, actions);
    var steps := Ending(w, k);
    RunKeepsInv(w, steps);
    EndingEnds(w, k);
    OneCallPerId(Run(w, steps), k);
  }

  /** k's call is at its end, and the timeouts are those before. */
  predicate Ended(w: World, w': World, k: nat, kept: bool)
    requires k < |w.calls|
  {
    k < |w'.calls| && w'.calls[k].stage.Done? && w'.calls[k].id == w.calls[k].id && (kept ==> w'.timeouts == w.timeouts)
  }

  lemma EndingEnds(w: World, k: nat)
    requires k < |w.calls|
    ensures Ended(w, Run(w, Ending(w, k)), k, w.calls[k].stage.Sent? && w.calls[k].queue != [])
  {
    hide Expired, Run, Next;
    match w.calls[k].stage
    case Registered =>
      assert [SendFails(k)] == [SendFails(k)] + [];
      RunOne(w, SendFails(k), []);
      RunNothing(Next(w, SendFails(k)));
      SendFailsEnds(w, k);
    case Sent =>
      if w.calls[k].queue == [] {
        assert Ending(w, k) == [TimeOut(k)] + [Remember(k), Finish(k)];
        RunOne(w, TimeOut(k), [Remember(k), Finish(k)]);
        TimeOutMoves(w, k);
        RememberEnds(Next(w, TimeOut(k)), k);
      } else {
        assert Ending(w, k) == [Take(k)] + [Finish(k)];
        RunOne(w, Take(k), [Finish(k)]);
        TakeMoves(w, k);
        FinishEnds(Next(w, Take(k)), k);
      }
    case TimedOut => RememberEnds(w, k);
    case Remembered => FinishEnds(w, k);
    case Answered(_) => FinishEnds(w, k);
    case Done => RunNothing(w);
  }

  lemma SendFailsEnds(w: World, k: nat)
    requires k < |w.calls| && w.calls[k].stage.Registered?
    ensures Ended(w, Next(w, SendFails(k)), k, true)
  {
  }

  lemma TimeOutMoves(w: World, k: nat)
    requires k < |w.calls| && w.calls[k].stage.Sent? && w.calls[k].queue == []
    ensures var w' := Next(w, TimeOut(k)); |w'.calls| == |w.calls| && w'.calls[k] == w.calls[k].(stage := TimedOut)
  {
  }

  lemma TakeMoves(w: World, k: nat)
    requires k < |w.calls| && w.calls[k].stage.Sent? && w.calls[k].queue != []
    ensures var w' := Next(w, Take(k));
            |w'.calls| == |w.calls| && w'.calls[k].stage.Answered? && w'.calls[k].id == w.calls[k].id && w'.timeouts == w.timeouts
  {
  }

  lemma FinishEnds(w: World, k: nat)
    requires k < |w.calls| && (w.calls[k].stage.Remembered? || w.calls[k].stage.Answered?)
    ensures Ended(w, Run(w, [Finish(k)]), k, true)
  {
    hide Run;
    assert [Finish(k)] == [Finish(k)] + [];
    RunOne(w, Finish(k), []);
    RunNothing(Next(w, Finish(k)));
  }

  lemma RememberEnds(w: World, k: nat)
    requires k < |w.calls| && w.calls[k].stage.TimedOut?
    ensures Ended(w, Run(w, [Remember(k), Finish(k)]), k, false)
  {
    hide Run, Next;
    assert [Remember(k), Finish(k)] == [Remember(k)] + [Finish(k)];
    RunOne(w, Remember(k), [Finish(k)]);
    RememberMoves(w, k);
    FinishEnds(Next(w, Remember(k)), k);
  }

  lemma RememberMoves(w: World, k: nat)
    requires k < |w.calls| && w.calls[k].stage.TimedOut?
    ensures var w' := Next(w, Remember(k)); |w'.calls| == |w.calls| && w'.calls[k] == w.calls[k].(stage := Remembered)
  {
    hide Expired;
  }

  lemma RunOne(w: World, a: Action, rest: seq<Action>)
    ensures Run(w, [a] + rest) == Run(Next(w, a), rest)
  {
    hide Next;
    assert ([a] + rest)[1..] == rest;
  }

  lemma RunNothing(w: World)
    ensures Run(w, []) == w
  {
  }

  lemma OneCallPerId(w: World, k: nat)
    requires Inv(w) && k < |w.calls| && w.calls[k].stage.Done?
    ensures !Waited(w, w.calls[k].id)
  {
    hide MemoryInv, CallInv;
  }
}
