/**
 What the ingestion tables hold after any transactions, whoever asks for them: told from the batches and
 cursors that were asked for, and from which of them fit what was there.
 */
module IngestHistory {
  import opened Options
  import opened RolloutSpec
  import opened RolloutReader
  import opened RolloutIngest

  datatype Transaction = Take(batch: Batch, refused: set<string>) | Start(cursor: SourceCursor)

  function Apply(t: Tables, x: Transaction): Tables {
    var r := if x.Take? then Ingested(t, x.batch, x.refused) else Checkpointed(t, x.cursor);
    if r.Ok? then r.value else t
  }

  function After(xs: seq<Transaction>): Tables {
    if xs == [] then EMPTY else Apply(After(xs[..|xs| - 1]), xs[|xs| - 1])
  }

  function CursorIn(x: Transaction): SourceCursor {
    if x.Take? then x.batch.cursor else x.cursor
  }

  function EventsIn(x: Transaction): seq<Event> {
    if x.Take? then x.batch.events else []
  }

  // ---- Which transactions are accepted ----

  /** The same file and version, no way back, and no other record at the same place. */
  predicate GoesOn(current: SourceCursor, next: SourceCursor) {
    && next.path == current.path && next.fileId == current.fileId && next.version == current.version
    && current.offset <= next.offset
    && (current.offset == next.offset ==> current.lastHash == next.lastHash)
  }

  predicate Fits(t: Tables, next: SourceCursor) {
    next.path in t.cursors ==> GoesOn(t.cursors[next.path], next)
  }

  ghost predicate Accepted(t: Tables, x: Transaction) {
    && Fits(t, CursorIn(x))
    && (x.Take? ==> forall e :: e in x.batch.events && e.key in x.refused ==> e.key in t.items)
    && (x.Start? && x.cursor.offset > 0 ==> x.cursor.lastHash.Some? && x.cursor.lastHash.value != "")
  }

  ghost predicate Keyed(t: Tables) {
    forall path :: path in t.cursors ==> t.cursors[path].path == path
  }

  /** A transaction succeeds exactly when its cursor goes on where the stored one stands, and nothing new is refused. */
  lemma SucceedsIff(t: Tables, x: Transaction)
    requires Keyed(t)
    ensures (if x.Take? then Ingested(t, x.batch, x.refused).Ok? else Checkpointed(t, x.cursor).Ok?) <==> Accepted(t, x)
  {
    hide InsertEvents;
    if x.Take? {
      InsertEventsAccepts(t, x.batch.events, x.refused);
    }
  }

  /**
   The two layers report a different error for the same stale cursor exactly when it names another version
   and an earlier place at once.
   */
  lemma LayersDisagreeIff(t: Tables, next: SourceCursor)
    ensures CheckCursor(t.cursors, next) != CheckStoredCursor(t.cursors, next) <==>
            && next.path in t.cursors && next.fileId == t.cursors[next.path].fileId
            && next.version != t.cursors[next.path].version && next.offset < t.cursors[next.path].offset
    ensures next.path in t.cursors && next.fileId != t.cursors[next.path].fileId ==>
              CheckCursor(t.cursors, next) == Err(SourceIdentityChanged)
  {
  }

  // ---- What the tables tell ----

  /** The events of all transactions that were accepted. */
  ghost function Given(xs: seq<Transaction>): seq<Event> {
    if xs == [] then []
    else
      var init, last := xs[..|xs| - 1], xs[|xs| - 1];
      Given(init) + if Accepted(After(init), last) then EventsIn(last) else []
  }

  /** The cursor of the last transaction on the path that was accepted. */
  ghost function LastCursor(xs: seq<Transaction>, path: string): Option<SourceCursor> {
    if xs == [] then None
    else
      var init, last := xs[..|xs| - 1], xs[|xs| - 1];
      if CursorIn(last).path == path && Accepted(After(init), last) then Some(CursorIn(last)) else LastCursor(init, path)
  }

  ghost predicate FirstWithKey(events: seq<Event>, i: nat, key: string) {
    i < |events| && events[i].key == key && forall j :: 0 <= j < i ==> events[j].key != key
  }

  /** Every stored item is the first event that was given with its key. */
  ghost predicate ItemsAreFirst(t: Tables, events: seq<Event>) {
    forall key :: key in t.items ==> exists i: nat :: FirstWithKey(events, i, key) && t.items[key] == events[i]
  }

  lemma {:induction false} KeysAt(events: seq<Event>, i: nat)
    requires i < |events|
    ensures |Keys(events)| == |events| && Keys(events)[i] == events[i].key
  {
    if i > 0 { KeysAt(events[1..], i - 1); } else if |events| > 1 { KeysAt(events[1..], 0); }
  }

  lemma InsertOneKeepsFirst(t: Tables, event: Event, events: seq<Event>)
    requires HandedFirstOccurrences(t, Keys(events)) && ItemsAreFirst(t, events)
    ensures ItemsAreFirst(InsertOne(t, event), events + [event])
  {
    hide Keys, Dedup;
    var u := InsertOne(t, event);
    forall key | key in u.items
      ensures exists i: nat :: FirstWithKey(events + [event], i, key) && u.items[key] == (events + [event])[i]
    {
      if key in t.items {
        var i: nat :| FirstWithKey(events, i, key) && t.items[key] == events[i];
        assert FirstWithKey(events + [event], i, key);
      } else {
        assert key !in Keys(events);
        NoneWithKey(events, key);
        assert FirstWithKey(events + [event], |events|, key);
      }
    }
  }

  lemma NoneWithKey(events: seq<Event>, key: string)
    requires key !in Keys(events)
    ensures forall j :: 0 <= j < |events| ==> events[j].key != key
  {
    forall j | 0 <= j < |events| ensures events[j].key != key {
      KeysAt(events, j);
    }
  }

  lemma {:induction false} InsertEventsKeepsFirst(t: Tables, more: seq<Event>, refused: set<string>, events: seq<Event>)
    requires HandedFirstOccurrences(t, Keys(events)) && ItemsAreFirst(t, events)
    requires InsertEvents(t, more, refused).Ok?
    ensures ItemsAreFirst(InsertEvents(t, more, refused).value, events + more)
    decreases |more|
  {
    hide HandedFirstOccurrences, ItemsAreFirst, InsertOne, Keys;
    if more == [] {
      assert events + more == events;
    } else {
      InsertOneHandsFirstOccurrence(t, more[0], Keys(events));
      InsertOneKeepsFirst(t, more[0], events);
      KeysAppend(events, [more[0]]);
      OneKey(more[0]);
      InsertEventsKeepsFirst(InsertOne(t, more[0]), more[1..], refused, events + [more[0]]);
      assert events + more == events + [more[0]] + more[1..];
    }
  }

  lemma OneKey(event: Event)
    ensures Keys([event]) == [event.key]
  {
    assert [event][1..] == [];
  }

  /**
   After any transactions: handed to queueing are the first occurrences of the keys of what was accepted, in
   order; each item is the first event of its key; each cursor is the last one accepted for its path.
   */
  lemma {:induction false} TablesTellHistory(xs: seq<Transaction>)
    ensures var t := After(xs);
            && Keyed(t)
            && HandedFirstOccurrences(t, Keys(Given(xs)))
            && ItemsAreFirst(t, Given(xs))
            && (forall path :: LastCursor(xs, path) == if path in t.cursors then Some(t.cursors[path]) else None)
    decreases |xs|
  {
    hide HandedFirstOccurrences, ItemsAreFirst, InsertEvents, CheckCursor, CheckStoredCursor, Keys, Accepted;
    if xs == [] {
      NothingYet();
    } else {
      var init, last := xs[..|xs| - 1], xs[|xs| - 1];
      var t := After(init);
      TablesTellHistory(init);
      SucceedsIff(t, last);
      if Accepted(t, last) {
        if last.Take? {
          InsertEventsHandsFirstOccurrences(t, last.batch.events, last.refused, Keys(Given(init)));
          InsertEventsKeepsFirst(t, last.batch.events, last.refused, Given(init));
          KeysAppend(Given(init), last.batch.events);
          CursorsAside(InsertEvents(t, last.batch.events, last.refused).value, After(xs), Keys(Given(xs)), Given(xs));
        } else {
          assert Given(init) + [] == Given(init);
          CursorsAside(t, After(xs), Keys(Given(xs)), Given(xs));
        }
      } else {
        assert Given(init) + [] == Given(init);
      }
    }
  }

  lemma CursorsAside(t: Tables, t': Tables, keys: seq<string>, events: seq<Event>)
    requires t'.items == t.items && t'.handed == t.handed
    ensures HandedFirstOccurrences(t, keys) ==> HandedFirstOccurrences(t', keys)
    ensures ItemsAreFirst(t, events) ==> ItemsAreFirst(t', events)
  {
  }

  lemma NothingYet()
    ensures Keyed(EMPTY) && HandedFirstOccurrences(EMPTY, Keys([])) && ItemsAreFirst(EMPTY, [])
  {
  }

  /** Whatever is asked for, the stored cursor of a source only goes on. */
  lemma {:induction false} CursorsGoOn(xs: seq<Transaction>, more: seq<Transaction>, path: string)
    requires path in After(xs).cursors
    ensures path in After(xs + more).cursors && GoesOn(After(xs).cursors[path], After(xs + more).cursors[path])
    decreases |more|
  {
    hide Ingested, Checkpointed, Accepted;
    if more == [] {
      assert xs + more == xs;
    } else {
      var init, last := more[..|more| - 1], more[|more| - 1];
      assert (xs + more)[..|xs + more| - 1] == xs + init && (xs + more)[|xs + more| - 1] == last;
      CursorsGoOn(xs, init, path);
      TablesTellHistory(xs + init);
      CursorStep(After(xs + init), last, path);
    }
  }

  lemma CursorStep(t: Tables, x: Transaction, path: string)
    requires Keyed(t) && path in t.cursors
    ensures path in Apply(t, x).cursors && GoesOn(t.cursors[path], Apply(t, x).cursors[path])
  {
    hide InsertEvents, HandedFirstOccurrences, Dedup;
    SucceedsIff(t, x);
    if x.Take? {
      InsertKeepsCursors(t, x.batch.events, x.refused);
    }
  }

  lemma {:induction false} InsertKeepsCursors(t: Tables, events: seq<Event>, refused: set<string>)
    ensures var r := InsertEvents(t, events, refused); r.Ok? ==> r.value.cursors == t.cursors
    decreases |events|
  {
    if events != [] && InsertEvents(t, events, refused).Ok? {
      InsertKeepsCursors(InsertOne(t, events[0]), events[1..], refused);
    }
  }
}
