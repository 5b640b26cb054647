/** Token buckets, and the limiter that takes one token from each of several buckets or from none. */
module RateLimit {
  import opened Options

  /** Settings and the two fields of a bucket; time is a real number from a monotone clock. */
  datatype Bucket = Bucket(capacity: real, refill: real, tokens: real, updatedAt: real)

  predicate ValidBucket(b: Bucket) {
    b.refill > 0.0 && 0.0 <= b.tokens <= b.capacity
  }

  function Create(capacity: real, refill: real, now: real): Bucket {
    Bucket(capacity, refill, capacity, now)
  }

  function Refilled(b: Bucket, now: real): Bucket {
    var tokens := b.tokens + (now - b.updatedAt) * b.refill;
    b.(tokens := if tokens < b.capacity then tokens else b.capacity, updatedAt := now)
  }

  class TokenBucket {
    const capacity: real
    const refill: real
    var tokens: real
    var updatedAt: real

    constructor (capacity: real, refill: real, now: real)
      ensures Contents() == Create(capacity, refill, now)
    {
      this.capacity, this.refill, tokens, updatedAt := capacity, refill, capacity, now;
    }

    function Contents(): Bucket
      reads this
    {
      Bucket(capacity, refill, tokens, updatedAt)
    }

    /** Refills, and says how long to wait: no time exactly when amount can be taken now. */
    method Delay(amount: real, now: real) returns (seconds: real)
      requires refill > 0.0
      modifies this
      ensures Contents() == Refilled(old(Contents()), now)
      ensures seconds <= 0.0 <==> tokens >= amount
      ensures seconds > 0.0 ==> seconds * refill == amount - tokens
    {
      tokens := if tokens + (now - updatedAt) * refill < capacity then tokens + (now - updatedAt) * refill else capacity;
      updatedAt := now;
      if tokens >= amount {
        return 0.0;
      }
      var missing := amount - tokens;
      seconds := missing / refill;
      assert seconds * refill == missing;
      assert seconds > 0.0 by { PositiveQuotient(missing, refill, seconds); }
    }

    method Consume(amount: real) returns (ok: bool)
      modifies this
      ensures ok == (old(tokens) >= amount)
      ensures updatedAt == old(updatedAt) && tokens == if ok then old(tokens) - amount else old(tokens)
    {
      if tokens < amount {
        return false;
      }
      tokens := tokens - amount;
      return true;
    }
  }

  lemma PositiveQuotient(a: real, b: real, q: real)
    requires a > 0.0 && b > 0.0 && q * b == a
    ensures q > 0.0
  {
    assert q <= 0.0 ==> q * b <= 0.0;
  }

  // ---- The limiter ----

  datatype BucketId = GlobalBucket | EndpointBucket(name: string) | ChatBucket(name: string, chat: string)

  datatype Endpoint = Endpoint(name: string, capacity: real, refill: real, chatCapacity: Option<real>, chatRefill: Option<real>)

  type Buckets = map<BucketId, Bucket>

  /** One look at the clock for each bucket of an attempt, and one for buckets that are created. */
  datatype Tick = Tick(created: real, shared: real, endpoint: real, chat: real)

  predicate UsesChat(e: Endpoint, chat: Option<string>) {
    chat.Some? && chat.value != "" && e.chatCapacity.Some?
  }

  function Ids(e: Endpoint, chat: Option<string>): (ids: seq<BucketId>)
    ensures forall i, j :: 0 <= i < j < |ids| ==> ids[i] != ids[j]
  {
    [GlobalBucket, EndpointBucket(e.name)] + if UsesChat(e, chat) then [ChatBucket(e.name, chat.value)] else []
  }

  function TimeFor(id: BucketId, tick: Tick): real {
    match id
    case GlobalBucket => tick.shared
    case EndpointBucket(_) => tick.endpoint
    case ChatBucket(_, _) => tick.chat
  }

  /** A chat refill of zero counts as absent. */
  function ChatRefill(e: Endpoint): real {
    if e.chatRefill.Some? && e.chatRefill.value != 0.0 then e.chatRefill.value else 1.0
  }

  function Ensured(bs: Buckets, id: BucketId, bucket: Bucket): Buckets {
    if id in bs then bs else bs[id := bucket]
  }

  /** The buckets once those of the endpoint and the chat exist. */
  function WithBuckets(bs: Buckets, e: Endpoint, chat: Option<string>, now: real): Buckets {
    var bs' := Ensured(bs, EndpointBucket(e.name), Create(e.capacity, e.refill, now));
    if UsesChat(e, chat) then
      Ensured(bs', ChatBucket(e.name, chat.value), Create(e.chatCapacity.value, ChatRefill(e), now))
    else bs'
  }

  function RefillAll(bs: Buckets, ids: seq<BucketId>, tick: Tick): Buckets {
    map id | id in bs :: if id in ids then Refilled(bs[id], TimeFor(id, tick)) else bs[id]
  }

  predicate AllHaveOne(bs: Buckets, ids: seq<BucketId>) {
    forall id :: id in ids ==> id in bs && bs[id].tokens >= 1.0
  }

  function TakeOne(bs: Buckets, ids: seq<BucketId>): Buckets {
    map id | id in bs :: if id in ids then bs[id].(tokens := bs[id].tokens - 1.0) else bs[id]
  }

  datatype Attempted = Attempted(buckets: Buckets, granted: bool)

  /** One pass of the loop under the lock. */
  function Attempt(bs: Buckets, e: Endpoint, chat: Option<string>, tick: Tick): Attempted {
    var ids := Ids(e, chat);
    var refilled := RefillAll(WithBuckets(bs, e, chat, tick.created), ids, tick);
    if AllHaveOne(refilled, ids) then Attempted(TakeOne(refilled, ids), true) else Attempted(refilled, false)
  }

  /** Attempts until one is granted; None when the clock readings run out first. */
  function Waited(bs: Buckets, e: Endpoint, chat: Option<string>, ticks: seq<Tick>): (Buckets, Option<nat>)
    decreases |ticks|
  {
    if ticks == [] then (bs, None)
    else
      var a := Attempt(bs, e, chat, ticks[0]);
      if a.granted then (a.buckets, Some(0))
      else
        var later := Waited(a.buckets, e, chat, ticks[1..]);
        (later.0, if later.1.None? then None else Some(later.1.value + 1))
  }

  predicate PositiveRefill(e: Endpoint) {
    e.refill > 0.0 && ChatRefill(e) > 0.0
  }

  lemma RefillOneMore(bs: Buckets, ids: seq<BucketId>, k: nat, tick: Tick)
    requires k <= |ids| && (forall id :: id in ids ==> id in bs)
    requires forall i, j :: 0 <= i < j < |ids| ==> ids[i] != ids[j]
    ensures k < |ids| ==>
            var between := RefillAll(bs, ids[..k], tick);
            var after := RefillAll(bs, ids[..k + 1], tick);
            && between[ids[k]] == bs[ids[k]]
            && after == between[ids[k] := Refilled(bs[ids[k]], TimeFor(ids[k], tick))]
            && (AllHaveOne(after, ids[..k + 1]) <==>
                  AllHaveOne(between, ids[..k]) && Refilled(bs[ids[k]], TimeFor(ids[k], tick)).tokens >= 1.0)
    ensures RefillAll(bs, [], tick) == bs && AllHaveOne(bs, [])
  {
    hide Refilled, TimeFor;
    if k < |ids| {
      assert ids[..k + 1] == ids[..k] + [ids[k]] && ids[k] !in ids[..k];
      var between := RefillAll(bs, ids[..k], tick);
      var after := RefillAll(bs, ids[..k + 1], tick);
      assert forall id :: id in ids[..k] ==> id in ids && after[id] == between[id];
      assert forall id :: id in ids[..k + 1] <==> id in ids[..k] || id == ids[k];
    }
  }

  lemma TakeOneMore(bs: Buckets, ids: seq<BucketId>, k: nat)
    requires k <= |ids| && AllHaveOne(bs, ids)
    requires forall i, j :: 0 <= i < j < |ids| ==> ids[i] != ids[j]
    ensures TakeOne(bs, []) == bs
    ensures k < |ids| ==>
            var between := TakeOne(bs, ids[..k]);
            && ids[k] in bs && between[ids[k]] == bs[ids[k]] && bs[ids[k]].tokens >= 1.0
            && TakeOne(bs, ids[..k + 1]) == between[ids[k] := bs[ids[k]].(tokens := bs[ids[k]].tokens - 1.0)]
  {
    if k < |ids| {
      assert ids[..k + 1] == ids[..k] + [ids[k]] && ids[k] !in ids[..k];
      assert forall id :: id in ids[..k + 1] <==> id in ids[..k] || id == ids[k];
    }
  }

  lemma WithBucketsHasIds(bs: Buckets, e: Endpoint, chat: Option<string>, now: real)
    requires GlobalBucket in bs
    ensures forall id :: id in Ids(e, chat) ==> id in WithBuckets(bs, e, chat, now)
  {
  }

  class RateLimiter {
    var buckets: map<BucketId, TokenBucket>

    constructor (capacity: real, refill: real, now: real)
      requires refill > 0.0
      ensures Valid() && fresh(buckets.Values)
      ensures Contents() == map[GlobalBucket := Create(capacity, refill, now)]
    {
      var shared := new TokenBucket(capacity, refill, now);
      buckets := map[GlobalBucket := shared];
    }

    ghost predicate Valid()
      reads this, buckets.Values
    {
      && GlobalBucket in buckets
      && (forall a, b :: a in buckets && b in buckets && a != b ==> buckets[a] != buckets[b])
      && (forall id :: id in buckets ==> buckets[id].refill > 0.0)
    }

    ghost function Contents(): Buckets
      reads this, buckets.Values
    {
      map id | id in buckets :: buckets[id].Contents()
    }

    /** The bucket that is there, or a full one. */
    method SetDefault(id: BucketId, capacity: real, refill: real, now: real)
      requires Valid() && refill > 0.0
      modifies this
      ensures Valid() && id in buckets && buckets.Keys == old(buckets).Keys + {id}
      ensures fresh(buckets.Values - old(buckets.Values))
      ensures Contents() == Ensured(old(Contents()), id, Create(capacity, refill, now))
    {
      if id !in buckets {
        var created := new TokenBucket(capacity, refill, now);
        buckets := buckets[id := created];
        assert forall x :: x in buckets && x != id ==> x in old(buckets) && buckets[x] == old(buckets)[x];
      }
    }

    method DelayOf(id: BucketId, now: real) returns (seconds: real)
      requires Valid() && id in buckets
      modifies buckets[id]
      ensures Valid() && Contents() == old(Contents())[id := Refilled(old(Contents())[id], now)]
      ensures seconds <= 0.0 <==> Contents()[id].tokens >= 1.0
    {
      hide Refilled;
      seconds := buckets[id].Delay(1.0, now);
    }

    method ConsumeOf(id: BucketId) returns (ok: bool)
      requires Valid() && id in buckets
      modifies buckets[id]
      ensures Valid() && ok == (old(Contents())[id].tokens >= 1.0)
      ensures ok ==>
                var b := old(Contents())[id];
                Contents() == old(Contents())[id := b.(tokens := b.tokens - 1.0)]
    {
      ok := buckets[id].Consume(1.0);
    }

    /** The longest time that one of the buckets asks to wait; every bucket is refilled on the way. */
    method LongestDelay(ids: seq<BucketId>, tick: Tick) returns (longest: real)
      requires Valid() && forall id :: id in ids ==> id in Contents()
      requires forall i, j :: 0 <= i < j < |ids| ==> ids[i] != ids[j]
      modifies buckets.Values
      ensures Valid() && Contents() == RefillAll(old(Contents()), ids, tick)
      ensures longest <= 0.0 <==> AllHaveOne(Contents(), ids)
    {
      hide Valid, Refilled, TimeFor, AllHaveOne, RefillAll;
      ghost var before := Contents();
      RefillOneMore(before, ids, 0, tick);
      longest := 0.0;
      for k := 0 to |ids|
        invariant Valid() && Contents() == RefillAll(before, ids[..k], tick)
        invariant longest <= 0.0 <==> AllHaveOne(Contents(), ids[..k])
      {
        RefillOneMore(before, ids, k, tick);
        var seconds := DelayOf(ids[k], TimeFor(ids[k], tick));
        longest := if k == 0 || seconds > longest then seconds else longest;
      }
      assert ids[..|ids|] == ids;
    }

    /** Takes one token from each bucket; none of them refuses. */
    method ConsumeEach(ids: seq<BucketId>)
      requires Valid() && AllHaveOne(Contents(), ids)
      requires forall i, j :: 0 <= i < j < |ids| ==> ids[i] != ids[j]
      modifies buckets.Values
      ensures Valid() && Contents() == TakeOne(old(Contents()), ids)
    {
      hide Valid, AllHaveOne, TakeOne;
      ghost var before := Contents();
      TakeOneMore(before, ids, 0);
      for k := 0 to |ids|
        invariant Valid() && Contents() == TakeOne(before, ids[..k])
      {
        TakeOneMore(before, ids, k);
        var ok := ConsumeOf(ids[k]);
        assert ok;
      }
      assert ids[..|ids|] == ids;
    }

    /** The buckets of a call, created where they are missing. */
    method BucketsOf(e: Endpoint, chat: Option<string>, now: real) returns (ids: seq<BucketId>)
      requires Valid() && PositiveRefill(e)
      modifies this
      ensures Valid() && fresh(buckets.Values - old(buckets.Values))
      ensures ids == Ids(e, chat) && Contents() == WithBuckets(old(Contents()), e, chat, now)
    {
      hide Valid, Contents, Create, ChatRefill;
      SetDefault(EndpointBucket(e.name), e.capacity, e.refill, now);
      ids := [GlobalBucket, EndpointBucket(e.name)];
      if UsesChat(e, chat) {
        SetDefault(ChatBucket(e.name, chat.value), e.chatCapacity.value, ChatRefill(e), now);
        ids := ids + [ChatBucket(e.name, chat.value)];
      }
    }

    /** One pass under the lock. */
    method Pass(e: Endpoint, chat: Option<string>, tick: Tick) returns (granted: bool)
      requires Valid() && PositiveRefill(e)
      modifies this, buckets.Values
      ensures Valid() && fresh(buckets.Values - old(buckets.Values))
      ensures Attempted(Contents(), granted) == Attempt(old(Contents()), e, chat, tick)
    {
      hide Refilled, RefillAll, AllHaveOne, TakeOne, WithBuckets, Valid, Contents;
      assert GlobalBucket in Contents() by { HasGlobal(); }
      var ids := BucketsOf(e, chat, tick.created);
      WithBucketsHasIds(old(Contents()), e, chat, tick.created);
      var delay := LongestDelay(ids, tick);
      granted := delay <= 0.0;
      if granted {
        ConsumeEach(ids);
      }
    }

    lemma HasGlobal()
      requires Valid()
      ensures GlobalBucket in Contents()
    {
    }

    /** ticks are the clock readings of successive passes; sleeping between them is not modelled. */
    method Wait(e: Endpoint, chat: Option<string>, ticks: seq<Tick>) returns (pass: Option<nat>)
      requires Valid() && PositiveRefill(e)
      modifies this, buckets.Values
      ensures Valid() && fresh(buckets.Values - old(buckets.Values))
      ensures (Contents(), pass) == Waited(old(Contents()), e, chat, ticks)
    {
      hide Attempt;
      for k := 0 to |ticks|
        invariant Valid() && fresh(buckets.Values - old(buckets.Values))
        invariant Waited(old(Contents()), e, chat, ticks) ==
                  (var later := Waited(Contents(), e, chat, ticks[k..]);
                   (later.0, if later.1.None? then None else Some(later.1.value + k)))
      {
        assert ticks[k..][1..] == ticks[k + 1..];
        var granted := Pass(e, chat, ticks[k]);
        if granted {
          return Some(k);
        }
      }
      return None;
    }
  }

  // ---- Runs ----

  /** One draw from a bucket: when, and whether a token was granted. */
  datatype Draw = Draw(at: real, granted: bool)

  datatype World = World(buckets: Buckets, clock: real, draws: map<BucketId, seq<Draw>>)

  datatype Call = Call(endpoint: Endpoint, chat: Option<string>, tick: Tick)

  function DrawsOf(w: World, id: BucketId): seq<Draw> {
    if id in w.draws then w.draws[id] else []
  }

  /** The clock does not run backwards, and a new bucket has room for its settings. */
  predicate Admissible(w: World, c: Call) {
    && w.clock <= c.tick.created <= c.tick.shared <= c.tick.endpoint <= c.tick.chat
    && c.endpoint.refill > 0.0 && c.endpoint.capacity >= 0.0 && ChatRefill(c.endpoint) > 0.0
    && (c.endpoint.chatCapacity.Some? ==> c.endpoint.chatCapacity.value >= 0.0)
  }

  function Next(w: World, c: Call): World {
    var ids := Ids(c.endpoint, c.chat);
    var a := Attempt(w.buckets, c.endpoint, c.chat, c.tick);
    World(a.buckets, c.tick.chat,
          map id | id in w.draws.Keys + (set x | x in ids) ::
            if id in ids then DrawsOf(w, id) + [Draw(TimeFor(id, c.tick), a.granted)] else w.draws[id])
  }

  function Run(w: World, calls: seq<Call>): World
    decreases |calls|
  {
    if calls == [] then w else if Admissible(w, calls[0]) then Run(Next(w, calls[0]), calls[1..]) else Run(w, calls[1..])
  }

  function Grants(draws: seq<Draw>): int {
    if draws == [] then 0 else Grants(draws[..|draws| - 1]) + if draws[|draws| - 1].granted then 1 else 0
  }

  /** What a bucket can have granted since its i-th draw. */
  ghost predicate Since(b: Bucket, draws: seq<Draw>, i: nat)
    requires i < |draws|
  {
    Grants(draws[i..]) as real + b.tokens <= b.capacity + b.refill * (b.updatedAt - draws[i].at)
  }

  /** The bound on grants from the i-th to before the j-th draw. */
  ghost predicate Window(b: Bucket, draws: seq<Draw>, i: nat, j: nat)
    requires i < j <= |draws|
  {
    Grants(draws[i..j]) as real <= b.capacity + b.refill * (draws[j - 1].at - draws[i].at)
  }

  ghost predicate BucketInv(b: Bucket, draws: seq<Draw>, clock: real) {
    && ValidBucket(b)
    && b.updatedAt <= clock
    && (draws != [] ==> draws[|draws| - 1].at == b.updatedAt)
    && (forall i :: 0 <= i < |draws| ==> Since(b, draws, i))
    && (forall i, j :: 0 <= i < j <= |draws| ==> Window(b, draws, i, j))
  }

  ghost predicate Inv(w: World) {
    && GlobalBucket in w.buckets
    && w.draws.Keys <= w.buckets.Keys
    && (forall id :: id in w.buckets ==> BucketInv(w.buckets[id], DrawsOf(w, id), w.clock))
  }

  lemma CreatedInv(capacity: real, refill: real, now: real, clock: real)
    requires capacity >= 0.0 && refill > 0.0 && now <= clock
    ensures BucketInv(Create(capacity, refill, now), [], clock)
  {
  }

  lemma Later(refill: real, a: real, b: real, c: real)
    ensures refill * (c - a) == refill * (b - a) + refill * (c - b)
  {
  }

  lemma RefillGains(b: Bucket, now: real)
    requires ValidBucket(b) && b.updatedAt <= now
    ensures ValidBucket(Refilled(b, now))
    ensures Refilled(b, now).tokens <= b.tokens + b.refill * (now - b.updatedAt)
  {
    assert (now - b.updatedAt) * b.refill >= 0.0;
    assert (now - b.updatedAt) * b.refill == b.refill * (now - b.updatedAt);
  }

  lemma GrantsAppend(draws: seq<Draw>, d: Draw)
    ensures Grants(draws + [d]) == Grants(draws) + if d.granted then 1 else 0
  {
    assert (draws + [d])[..|draws|] == draws;
  }

  /** Drawing at a later time keeps every bound. */
  lemma DrawKeepsInv(b: Bucket, draws: seq<Draw>, clock: real, now: real, granted: bool)
    requires BucketInv(b, draws, clock) && clock <= now
    requires granted ==> Refilled(b, now).tokens >= 1.0
    ensures var r := Refilled(b, now);
            var b' := if granted then r.(tokens := r.tokens - 1.0) else r;
            BucketInv(b', draws + [Draw(now, granted)], now)
  {
    hide Grants, Refilled, Since, Window, ValidBucket;
    RefillGains(b, now);
    RefillSettings(b, now);
    var r := Refilled(b, now);
    var b' := if granted then r.(tokens := r.tokens - 1.0) else r;
    var d := Draw(now, granted);
    var draws' := draws + [d];
    StillValid(r, granted);
    forall i | 0 <= i < |draws'| ensures Since(b', draws', i) {
      SinceStep(b, draws, i, r, b', d);
    }
    forall i, j | 0 <= i < j <= |draws'| ensures Window(b', draws', i, j) {
      if j <= |draws| {
        OldWindow(b, b', draws, d, i, j);
      } else {
        NewWindow(b', draws', i);
      }
    }
  }

  lemma StillValid(r: Bucket, granted: bool)
    requires ValidBucket(r) && (granted ==> r.tokens >= 1.0)
    ensures ValidBucket(if granted then r.(tokens := r.tokens - 1.0) else r)
  {
  }

  lemma SinceStep(b: Bucket, draws: seq<Draw>, i: nat, r: Bucket, b': Bucket, d: Draw)
    requires i <= |draws| && (i < |draws| ==> Since(b, draws, i))
    requires ValidBucket(r) && r.tokens <= b.tokens + b.refill * (d.at - b.updatedAt)
    requires r.updatedAt == d.at && r.capacity == b.capacity && r.refill == b.refill
    requires b' == if d.granted then r.(tokens := r.tokens - 1.0) else r
    ensures Since(b', draws + [d], i)
  {
    hide Grants;
    var draws' := draws + [d];
    assert draws'[i..] == draws[i..] + [d];
    GrantsAppend(draws[i..], d);
    if i < |draws| {
      Later(b.refill, draws[i].at, b.updatedAt, d.at);
    } else {
      NoGrants();
      assert b.refill * (d.at - d.at) == 0.0;
    }
  }

  lemma OldWindow(b: Bucket, b': Bucket, draws: seq<Draw>, d: Draw, i: nat, j: nat)
    requires i < j <= |draws| && Window(b, draws, i, j) && b'.capacity == b.capacity && b'.refill == b.refill
    ensures Window(b', draws + [d], i, j)
  {
    hide Grants;
    assert (draws + [d])[i..j] == draws[i..j];
  }

  lemma NewWindow(b: Bucket, draws: seq<Draw>, i: nat)
    requires i < |draws| && Since(b, draws, i) && b.tokens >= 0.0 && draws[|draws| - 1].at == b.updatedAt
    ensures Window(b, draws, i, |draws|)
  {
    hide Grants;
    assert draws[i..|draws|] == draws[i..];
  }

  lemma RefillSettings(b: Bucket, now: real)
    ensures var r := Refilled(b, now); r.updatedAt == now && r.capacity == b.capacity && r.refill == b.refill
  {
  }

  lemma NoGrants()
    ensures Grants([]) == 0
  {
  }

  lemma LaterClock(b: Bucket, draws: seq<Draw>, clock: real, later: real)
    requires BucketInv(b, draws, clock) && clock <= later
    ensures BucketInv(b, draws, later)
  {
    hide Since, Window;
  }

  lemma WithBucketsInv(w: World, c: Call)
    requires Inv(w) && Admissible(w, c)
    ensures var bs := WithBuckets(w.buckets, c.endpoint, c.chat, c.tick.created);
            && w.buckets.Keys <= bs.Keys
            && (forall id :: id in Ids(c.endpoint, c.chat) ==> id in bs)
            && (forall id :: id in bs ==> BucketInv(bs[id], DrawsOf(w, id), c.tick.created))
  {
    hide BucketInv, ChatRefill, Create;
    var bs := WithBuckets(w.buckets, c.endpoint, c.chat, c.tick.created);
    CreatedInv(c.endpoint.capacity, c.endpoint.refill, c.tick.created, c.tick.created);
    if UsesChat(c.endpoint, c.chat) {
      CreatedInv(c.endpoint.chatCapacity.value, ChatRefill(c.endpoint), c.tick.created, c.tick.created);
    }
    forall id | id in bs ensures BucketInv(bs[id], DrawsOf(w, id), c.tick.created) {
      if id in w.buckets {
        LaterClock(w.buckets[id], DrawsOf(w, id), w.clock, c.tick.created);
      }
    }
  }

  /** What a pass does to one bucket and its draws. */
  lemma AttemptAt(w: World, c: Call, id: BucketId)
    requires var bs := WithBuckets(w.buckets, c.endpoint, c.chat, c.tick.created);
             id in bs && forall x :: x in Ids(c.endpoint, c.chat) ==> x in bs
    ensures var bs := WithBuckets(w.buckets, c.endpoint, c.chat, c.tick.created);
            var now := TimeFor(id, c.tick);
            var r := Refilled(bs[id], now);
            var granted := Attempt(w.buckets, c.endpoint, c.chat, c.tick).granted;
            var w' := Next(w, c);
            && id in w'.buckets
            && (if id in Ids(c.endpoint, c.chat) then
                  && (granted ==> r.tokens >= 1.0)
                  && w'.buckets[id] == (if granted then r.(tokens := r.tokens - 1.0) else r)
                  && DrawsOf(w', id) == DrawsOf(w, id) + [Draw(now, granted)]
                else w'.buckets[id] == bs[id] && DrawsOf(w', id) == DrawsOf(w, id))
  {
    hide WithBuckets, Refilled, Ids, TimeFor;
  }

  lemma NextDomains(w: World, c: Call)
    requires w.draws.Keys <= w.buckets.Keys
    requires var bs := WithBuckets(w.buckets, c.endpoint, c.chat, c.tick.created);
             w.buckets.Keys <= bs.Keys && forall x :: x in Ids(c.endpoint, c.chat) ==> x in bs
    ensures var w' := Next(w, c);
            && w'.buckets.Keys == WithBuckets(w.buckets, c.endpoint, c.chat, c.tick.created).Keys
            && w'.draws.Keys <= w'.buckets.Keys && w'.clock == c.tick.chat
  {
    hide WithBuckets, Refilled, Ids, TimeFor;
  }

  lemma NextKeepsInv(w: World, c: Call)
    requires Inv(w) && Admissible(w, c)
    ensures Inv(Next(w, c))
  {
    hide BucketInv, WithBuckets, Refilled, Next, Attempt, DrawsOf, Ids;
    WithBucketsInv(w, c);
    NextDomains(w, c);
    var w' := Next(w, c);
    var bs := WithBuckets(w.buckets, c.endpoint, c.chat, c.tick.created);
    var granted := Attempt(w.buckets, c.endpoint, c.chat, c.tick).granted;
    forall id | id in w'.buckets ensures BucketInv(w'.buckets[id], DrawsOf(w', id), w'.clock) {
      var now := TimeFor(id, c.tick);
      AttemptAt(w, c, id);
      if id in Ids(c.endpoint, c.chat) {
        DrawKeepsInv(bs[id], DrawsOf(w, id), c.tick.created, now, granted);
        LaterClock(w'.buckets[id], DrawsOf(w', id), now, w'.clock);
      } else {
        LaterClock(bs[id], DrawsOf(w, id), c.tick.created, w'.clock);
      }
    }
  }

  lemma {:induction false} RunKeepsInv(w: World, calls: seq<Call>)
    requires Inv(w)
    ensures Inv(Run(w, calls))
    decreases |calls|
  {
    hide Inv, Next, Admissible;
    if calls != [] {
      if Admissible(w, calls[0]) {
        NextKeepsInv(w, calls[0]);
        RunKeepsInv(Next(w, calls[0]), calls[1..]);
      } else {
        RunKeepsInv(w, calls[1..]);
      }
    }
  }

  ghost predicate Initial(w: World) {
    && w.draws == map[]
    && w.buckets.Keys == {GlobalBucket}
    && BucketInv(w.buckets[GlobalBucket], [], w.clock)
  }

  // ---- Main results ----

  /**
   In every run, for every bucket and every stretch of its draws that lies between the times s and
   t, the tokens granted are at most the capacity plus what flows in from s to t; the balance is
   never negative and never above the capacity.
   */
  lemma GrantsAreBounded(w0: World, calls: seq<Call>, id: BucketId, i: nat, j: nat, s: real, t: real)
    requires Initial(w0) && id in Run(w0, calls).buckets && i < j <= |DrawsOf(Run(w0, calls), id)|
    requires s <= DrawsOf(Run(w0, calls), id)[i].at && DrawsOf(Run(w0, calls), id)[j - 1].at <= t
    ensures var w := Run(w0, calls);
            var b, draws := w.buckets[id], DrawsOf(w, id);
            && 0.0 <= b.tokens <= b.capacity
            && Grants(draws[i..j]) as real <= b.capacity + b.refill * (t - s)
  {
    hide Run, Grants, Since;
    RunKeepsInv(w0, calls);
    var b, draws := Run(w0, calls).buckets[id], DrawsOf(Run(w0, calls), id);
    assert BucketInv(b, draws, Run(w0, calls).clock);
    assert Window(b, draws, i, j);
    Wider(b.refill, draws[i].at, draws[j - 1].at, s, t);
  }

  lemma Wider(refill: real, from: real, end: real, s: real, t: real)
    requires refill > 0.0 && s <= from && end <= t
    ensures refill * (end - from) <= refill * (t - s)
  {
    assert refill * (t - s) - refill * (end - from) == refill * ((t - s) - (end - from));
  }

  // ---- What one wait does ----

  /** The readings of one wait come from a clock that does not run backwards. */
  ghost predicate Clocked(bs: Buckets, ticks: seq<Tick>) {
    && (forall k :: 0 <= k < |ticks| ==>
          ticks[k].created <= ticks[k].shared && ticks[k].shared <= ticks[k].endpoint && ticks[k].endpoint <= ticks[k].chat)
    && (forall j, k :: 0 <= j < k < |ticks| ==> ticks[j].chat <= ticks[k].created)
    && (forall id, k :: id in bs && 0 <= k < |ticks| ==> bs[id].updatedAt <= ticks[k].created)
  }

  ghost predicate Sound(bs: Buckets) {
    GlobalBucket in bs && forall id :: id in bs ==> ValidBucket(bs[id])
  }

  predicate SoundSettings(e: Endpoint) {
    && e.refill > 0.0 && e.capacity >= 0.0 && ChatRefill(e) > 0.0
    && (e.chatCapacity.Some? ==> e.chatCapacity.value >= 0.0)
  }

  /** The balance of a bucket of the call at pass k if nobody had touched it since before the wait. */
  function AtPass(bs: Buckets, e: Endpoint, chat: Option<string>, ticks: seq<Tick>, k: nat, id: BucketId): real
    requires k < |ticks| && id in WithBuckets(bs, e, chat, ticks[0].created)
  {
    Refilled(WithBuckets(bs, e, chat, ticks[0].created)[id], TimeFor(id, ticks[k])).tokens
  }

  /** Every bucket of the call has a token at pass k. */
  predicate AllAtPass(bs: Buckets, e: Endpoint, chat: Option<string>, ticks: seq<Tick>, k: nat)
    requires k < |ticks| && GlobalBucket in bs
  {
    forall id :: id in Ids(e, chat) ==> AtPass(bs, e, chat, ticks, k, id) >= 1.0
  }

  lemma RefillTwice(b: Bucket, t1: real, t2: real)
    requires ValidBucket(b) && b.updatedAt <= t1 <= t2
    ensures Refilled(Refilled(b, t1), t2) == Refilled(b, t2) && ValidBucket(Refilled(b, t1))
  {
    var d1, d2 := t1 - b.updatedAt, t2 - t1;
    assert (t2 - b.updatedAt) * b.refill == d1 * b.refill + d2 * b.refill;
    assert d1 * b.refill >= 0.0 && d2 * b.refill >= 0.0;
  }

  lemma TimeInside(id: BucketId, tick: Tick)
    requires tick.created <= tick.shared <= tick.endpoint <= tick.chat
    ensures tick.created <= TimeFor(id, tick) <= tick.chat
  {
  }

  /** The buckets after k refused passes: only refilled, and as if the last pass had been the only one. */
  function Passed(bs: Buckets, e: Endpoint, chat: Option<string>, ticks: seq<Tick>, k: nat): Buckets
    requires k <= |ticks|
  {
    if k == 0 then bs else RefillAll(WithBuckets(bs, e, chat, ticks[0].created), Ids(e, chat), ticks[k - 1])
  }

  lemma SoundWithBuckets(bs: Buckets, e: Endpoint, chat: Option<string>, ticks: seq<Tick>, id: BucketId)
    requires ticks != [] && Clocked(bs, ticks) && Sound(bs) && SoundSettings(e)
    requires id in WithBuckets(bs, e, chat, ticks[0].created)
    ensures var b := WithBuckets(bs, e, chat, ticks[0].created)[id];
            ValidBucket(b) && b.updatedAt <= ticks[0].created
  {
    hide ChatRefill;
  }

  lemma NothingToCreate(bs: Buckets, e: Endpoint, chat: Option<string>, now: real)
    requires forall id :: id in Ids(e, chat) ==> id in bs
    ensures WithBuckets(bs, e, chat, now) == bs
  {
    assert forall id :: id in Ids(e, chat) ==> id in bs;
    assert Ids(e, chat)[1] == EndpointBucket(e.name);
    assert UsesChat(e, chat) ==> Ids(e, chat)[2] == ChatBucket(e.name, chat.value);
  }

  /** Looking again loses nothing: pass k finds the balances that it would have found without the earlier ones. */
  lemma PassRefills(bs: Buckets, e: Endpoint, chat: Option<string>, ticks: seq<Tick>, k: nat)
    requires k < |ticks| && Clocked(bs, ticks) && Sound(bs) && SoundSettings(e)
    ensures RefillAll(WithBuckets(Passed(bs, e, chat, ticks, k), e, chat, ticks[k].created), Ids(e, chat), ticks[k]) ==
            Passed(bs, e, chat, ticks, k + 1)
  {
    hide Ids, ChatRefill, Refilled, WithBuckets, Ensured, ValidBucket;
    if k > 0 {
      var before := WithBuckets(bs, e, chat, ticks[0].created);
      WithBucketsHasIds(bs, e, chat, ticks[0].created);
      NothingToCreate(Passed(bs, e, chat, ticks, k), e, chat, ticks[k].created);
      forall id | id in before && id in Ids(e, chat)
        ensures Refilled(Refilled(before[id], TimeFor(id, ticks[k - 1])), TimeFor(id, ticks[k])) == Refilled(before[id], TimeFor(id, ticks[k]))
      {
        SoundWithBuckets(bs, e, chat, ticks, id);
        TimeInside(id, ticks[k - 1]);
        TimeInside(id, ticks[k]);
        RefillTwice(before[id], TimeFor(id, ticks[k - 1]), TimeFor(id, ticks[k]));
      }
    }
  }

  lemma PassStep(bs: Buckets, e: Endpoint, chat: Option<string>, ticks: seq<Tick>, k: nat)
    requires k < |ticks| && Clocked(bs, ticks) && Sound(bs) && SoundSettings(e)
    ensures var after := Passed(bs, e, chat, ticks, k + 1);
            Attempt(Passed(bs, e, chat, ticks, k), e, chat, ticks[k]) ==
            if AllAtPass(bs, e, chat, ticks, k) then Attempted(TakeOne(after, Ids(e, chat)), true) else Attempted(after, false)
  {
    hide Ids, ChatRefill, Refilled, WithBuckets, TakeOne, Clocked, Sound;
    PassRefills(bs, e, chat, ticks, k);
    WithBucketsHasIds(bs, e, chat, ticks[0].created) by { HasShared(bs); }
    var before := WithBuckets(bs, e, chat, ticks[0].created);
    var after := Passed(bs, e, chat, ticks, k + 1);
    assert forall id :: id in Ids(e, chat) ==> after[id].tokens == AtPass(bs, e, chat, ticks, k, id);
  }

  lemma {:induction false} WaitedFrom(bs: Buckets, e: Endpoint, chat: Option<string>, ticks: seq<Tick>, k: nat)
    requires k <= |ticks| && Clocked(bs, ticks) && Sound(bs) && SoundSettings(e)
    ensures var r := Waited(Passed(bs, e, chat, ticks, k), e, chat, ticks[k..]);
            && (r.1.Some? ==>
                  && k + r.1.value < |ticks| && AllAtPass(bs, e, chat, ticks, k + r.1.value)
                  && (forall m :: k <= m < k + r.1.value ==> !AllAtPass(bs, e, chat, ticks, m))
                  && r.0 == TakeOne(Passed(bs, e, chat, ticks, k + r.1.value + 1), Ids(e, chat)))
            && (r.1.None? ==>
                  && (forall m :: k <= m < |ticks| ==> !AllAtPass(bs, e, chat, ticks, m))
                  && r.0 == Passed(bs, e, chat, ticks, |ticks|))
    decreases |ticks| - k
  {
    hide Attempt, AllAtPass, Passed, TakeOne, Ids, Clocked;
    if k < |ticks| {
      PassStep(bs, e, chat, ticks, k);
      WaitedFrom(bs, e, chat, ticks, k + 1);
      assert ticks[k..][1..] == ticks[k + 1..];
    }
  }

  // ---- The same told without passes ----

  /** A call uses the shared bucket, its endpoint's, and its chat's if it names one and chats are limited. */
  predicate Uses(e: Endpoint, chat: Option<string>, id: BucketId) {
    match id
    case GlobalBucket => true
    case EndpointBucket(name) => name == e.name
    case ChatBucket(name, c) => name == e.name && chat == Some(c) && c != "" && e.chatCapacity.Some?
  }

  /** A bucket that is not there yet begins full; a chat's refill is one token a second unless it is set. */
  function Begun(bs: Buckets, e: Endpoint, id: BucketId, created: real): Bucket {
    if id in bs then bs[id]
    else if !id.ChatBucket? || e.chatCapacity.None? then Bucket(e.capacity, e.refill, e.capacity, created)
    else
      var refill := if e.chatRefill.None? || e.chatRefill.value == 0.0 then 1.0 else e.chatRefill.value;
      Bucket(e.chatCapacity.value, refill, e.chatCapacity.value, created)
  }

  /** What a bucket holds at a time if nobody touches it until then: it gains refill a second up to its capacity. */
  function Balance(b: Bucket, at: real): real {
    var gained := b.tokens + (at - b.updatedAt) * b.refill;
    if gained <= b.capacity then gained else b.capacity
  }

  /** Every bucket of the call has a token at pass n, with nothing taken or looked at before. */
  ghost predicate Affordable(bs: Buckets, e: Endpoint, chat: Option<string>, ticks: seq<Tick>, n: nat)
    requires n < |ticks| && GlobalBucket in bs
  {
    forall id :: Uses(e, chat, id) ==> Balance(Begun(bs, e, id, ticks[0].created), TimeFor(id, ticks[n])) >= 1.0
  }

  ghost predicate FirstAffordable(bs: Buckets, e: Endpoint, chat: Option<string>, ticks: seq<Tick>, n: nat)
    requires GlobalBucket in bs
  {
    n < |ticks| && Affordable(bs, e, chat, ticks, n) && forall m :: 0 <= m < n ==> !Affordable(bs, e, chat, ticks, m)
  }

  lemma UsesIffNamed(e: Endpoint, chat: Option<string>, id: BucketId)
    ensures Uses(e, chat, id) <==> id in Ids(e, chat)
  {
    assert GlobalBucket in [GlobalBucket, EndpointBucket(e.name)] && EndpointBucket(e.name) in [GlobalBucket, EndpointBucket(e.name)];
  }

  lemma BegunIsThere(bs: Buckets, e: Endpoint, chat: Option<string>, created: real, id: BucketId)
    requires GlobalBucket in bs && Uses(e, chat, id)
    ensures id in WithBuckets(bs, e, chat, created) && WithBuckets(bs, e, chat, created)[id] == Begun(bs, e, id, created)
  {
  }

  lemma RefilledHolds(b: Bucket, at: real)
    ensures Refilled(b, at) == b.(tokens := Balance(b, at), updatedAt := at)
  {
  }

  lemma AllAtPassIff(bs: Buckets, e: Endpoint, chat: Option<string>, ticks: seq<Tick>, n: nat)
    requires n < |ticks| && GlobalBucket in bs
    ensures AllAtPass(bs, e, chat, ticks, n) <==> Affordable(bs, e, chat, ticks, n)
  {
    hide Uses, Ids, WithBuckets, Begun, Refilled, Balance;
    forall id ensures Uses(e, chat, id) <==> id in Ids(e, chat) {
      UsesIffNamed(e, chat, id);
    }
    forall id | Uses(e, chat, id)
      ensures id in WithBuckets(bs, e, chat, ticks[0].created)
      ensures AtPass(bs, e, chat, ticks, n, id) == Balance(Begun(bs, e, id, ticks[0].created), TimeFor(id, ticks[n]))
    {
      BegunIsThere(bs, e, chat, ticks[0].created, id);
      RefilledHolds(Begun(bs, e, id, ticks[0].created), TimeFor(id, ticks[n]));
    }
  }

  /**
   A wait is granted at the first of its passes at which each of its buckets has a token, counted as if the
   earlier passes had not been; it takes one token from each of them, or from none, and touches no other.
   */
  lemma {:induction false} WaitTakesOneFromEach(bs: Buckets, e: Endpoint, chat: Option<string>, ticks: seq<Tick>, id: BucketId)
    requires ticks != [] && Clocked(bs, ticks) && Sound(bs) && SoundSettings(e)
    ensures var (after, pass) := Waited(bs, e, chat, ticks);
            && (forall n: nat :: pass == Some(n) <==> FirstAffordable(bs, e, chat, ticks, n))
            && (id in after <==> id in bs || Uses(e, chat, id))
            && (Uses(e, chat, id) ==>
                  var last := TimeFor(id, ticks[if pass.Some? && pass.value < |ticks| then pass.value else |ticks| - 1]);
                  var b := Begun(bs, e, id, ticks[0].created);
                  after[id] == b.(tokens := Balance(b, last) - (if pass.Some? then 1.0 else 0.0), updatedAt := last))
            && (id in bs && !Uses(e, chat, id) ==> after[id] == bs[id])
  {
    hide Waited, Clocked, AllAtPass, Refilled, WithBuckets, Affordable, Begun, Balance, Ids, Uses;
    WaitedFrom(bs, e, chat, ticks, 0);
    assert ticks[0..] == ticks;
    WithBucketsHasIds(bs, e, chat, ticks[0].created);
    forall n | 0 <= n < |ticks| ensures AllAtPass(bs, e, chat, ticks, n) <==> Affordable(bs, e, chat, ticks, n) {
      AllAtPassIff(bs, e, chat, ticks, n);
    }
    UsesIffNamed(e, chat, id);
    WithBucketsAre(bs, e, chat, ticks[0].created, id);
    if Uses(e, chat, id) {
      BegunIsThere(bs, e, chat, ticks[0].created, id);
      var pass := Waited(bs, e, chat, ticks).1;
      RefilledHolds(Begun(bs, e, id, ticks[0].created), TimeFor(id, ticks[if pass.Some? then pass.value else |ticks| - 1]));
    } else if id in bs {
      OthersWereThere(bs, e, chat, ticks[0].created, id);
    }
  }

  lemma WithBucketsAre(bs: Buckets, e: Endpoint, chat: Option<string>, now: real, id: BucketId)
    requires GlobalBucket in bs
    ensures id in WithBuckets(bs, e, chat, now) <==> id in bs || id in Ids(e, chat)
  {
    UsesIffNamed(e, chat, id);
  }

  /**
   After a refused look, seconds more make amount available exactly when they refill what was missing;
   for more than the capacity no time is enough.
   */
  lemma WaitingIsEnoughIff(b: Bucket, amount: real, now: real, seconds: real)
    requires b.refill > 0.0 && seconds >= 0.0 && Balance(b, now) < amount
    ensures Balance(Refilled(b, now), now + seconds) >= amount <==>
            amount <= b.capacity && seconds * b.refill >= amount - Balance(b, now)
  {
    RefilledHolds(b, now);
    assert now + seconds - now == seconds;
  }

  lemma OthersWereThere(bs: Buckets, e: Endpoint, chat: Option<string>, now: real, id: BucketId)
    requires id in WithBuckets(bs, e, chat, now) && id !in Ids(e, chat)
    ensures id in bs && WithBuckets(bs, e, chat, now)[id] == bs[id]
  {
  }

  // ---- Waits are runs ----

  function CallsOf(e: Endpoint, chat: Option<string>, ticks: seq<Tick>): seq<Call> {
    if ticks == [] then [] else [Call(e, chat, ticks[0])] + CallsOf(e, chat, ticks[1..])
  }

  ghost predicate Readings(clock: real, ticks: seq<Tick>) {
    && (forall k :: 0 <= k < |ticks| ==>
          clock <= ticks[k].created && ticks[k].created <= ticks[k].shared && ticks[k].shared <= ticks[k].endpoint && ticks[k].endpoint <= ticks[k].chat)
    && (forall j, k :: 0 <= j < k < |ticks| ==> ticks[j].chat <= ticks[k].created)
  }

  /**
   The passes of one wait are steps of a run, so every bound on runs holds for waits, also when the passes of
   other callers come in between; the wait is granted at most one token of each bucket, by its last pass.
   */
  lemma {:induction false} WaitedIsRun(w: World, e: Endpoint, chat: Option<string>, ticks: seq<Tick>, id: BucketId)
    requires Readings(w.clock, ticks) && SoundSettings(e)
    ensures var (after, pass) := Waited(w.buckets, e, chat, ticks);
            var used := if pass.Some? && pass.value < |ticks| then ticks[..pass.value + 1] else ticks;
            var w' := Run(w, CallsOf(e, chat, used));
            && (pass.Some? ==> pass.value < |ticks|)
            && w'.buckets == after
            && Grants(DrawsOf(w', id)) == Grants(DrawsOf(w, id)) + if pass.Some? && id in Ids(e, chat) then 1 else 0
    decreases |ticks|
  {
    hide Attempt, Ids, DrawsOf, Grants, ChatRefill, Run, CallsOf;
    FirstCall(w, e, chat, []);
    if ticks != [] {
      var c := Call(e, chat, ticks[0]);
      var a := Attempt(w.buckets, e, chat, ticks[0]);
      OneDraw(w, c, id);
      var later := Waited(a.buckets, e, chat, ticks[1..]);
      if a.granted {
        assert ticks[..1][0] == ticks[0] && ticks[..1][1..] == [];
        FirstCall(w, e, chat, ticks[..1]);
        FirstCall(Next(w, c), e, chat, []);
      } else {
        WaitedIsRun(Next(w, c), e, chat, ticks[1..], id);
        if later.1.Some? {
          var n := later.1.value;
          assert ticks[..n + 2][1..] == ticks[1..][..n + 1];
          FirstCall(w, e, chat, ticks[..n + 2]);
        } else {
          FirstCall(w, e, chat, ticks);
        }
      }
    }
  }

  lemma {:induction false} FirstCall(w: World, e: Endpoint, chat: Option<string>, ticks: seq<Tick>)
    requires SoundSettings(e)
    requires ticks != [] ==>
               w.clock <= ticks[0].created <= ticks[0].shared <= ticks[0].endpoint <= ticks[0].chat
    ensures ticks != [] ==>
            var w' := Next(w, Call(e, chat, ticks[0]));
            Run(w, CallsOf(e, chat, ticks)) == Run(w', CallsOf(e, chat, ticks[1..]))
    ensures Run(w, CallsOf(e, chat, [])) == w
  {
    hide Next;
    if ticks != [] {
      assert CallsOf(e, chat, ticks)[1..] == CallsOf(e, chat, ticks[1..]);
    }
  }

  lemma OneDraw(w: World, c: Call, id: BucketId)
    ensures var granted := Attempt(w.buckets, c.endpoint, c.chat, c.tick).granted;
            Grants(DrawsOf(Next(w, c), id)) ==
            Grants(DrawsOf(w, id)) + if granted && id in Ids(c.endpoint, c.chat) then 1 else 0
  {
    hide Attempt, Ids;
    GrantsAppend(DrawsOf(w, id), Draw(TimeFor(id, c.tick), Attempt(w.buckets, c.endpoint, c.chat, c.tick).granted));
  }

  lemma HasShared(bs: Buckets)
    requires Sound(bs)
    ensures GlobalBucket in bs
  {
  }
}
