/**
 Durable ingestion of rollout batches. The items table, the source cursors and the hand-over
 of each new item to outbound queueing change together or not at all.
 */
module RolloutIngest {
  import opened Options
  import opened RolloutSpec
  import opened RolloutReader

  datatype IngestError =
    | SourceIdentityChanged | SchemaVersionChanged | MovedBackwards | ConflictingHash | MissingHash | QueueingRefused

  /** handed lists, in order, the logical keys given to outbound queueing by committed work. */
  datatype Tables = Tables(items: map<string, Event>, cursors: map<string, SourceCursor>, handed: seq<string>)

  const EMPTY := Tables(map[], map[], [])

  // ---- What one transaction does ----

  function CheckCursor(cursors: map<string, SourceCursor>, next: SourceCursor): Result<bool, IngestError> {
    if next.path !in cursors then Ok(true)
    else
      var current := cursors[next.path];
      if current.fileId != next.fileId then Err(SourceIdentityChanged)
      else if next.version != current.version then Err(SchemaVersionChanged)
      else if next.offset < current.offset then Err(MovedBackwards)
      else if next.offset == current.offset && next.lastHash != current.lastHash then Err(ConflictingHash)
      else Ok(true)
  }

  /** The same checks in the order in which the storage layer makes them. */
  function CheckStoredCursor(cursors: map<string, SourceCursor>, next: SourceCursor): Result<bool, IngestError> {
    if next.path !in cursors then Ok(true)
    else
      var current := cursors[next.path];
      if current.fileId != next.fileId then Err(SourceIdentityChanged)
      else if next.offset < current.offset then Err(MovedBackwards)
      else if next.version != current.version then Err(SchemaVersionChanged)
      else if next.offset == current.offset && next.lastHash != current.lastHash then Err(ConflictingHash)
      else Ok(true)
  }

  /** Inserts one event unless its key is known, handing an inserted one to queueing. */
  function InsertOne(t: Tables, event: Event): Tables {
    if event.key in t.items then t
    else t.(items := t.items[event.key := event], handed := t.handed + [event.key])
  }

  function InsertEvents(t: Tables, events: seq<Event>, refused: set<string>): Result<Tables, IngestError>
    decreases |events|
  {
    if events == [] then Ok(t)
    else if events[0].key !in t.items && events[0].key in refused then Err(QueueingRefused)
    else InsertEvents(InsertOne(t, events[0]), events[1..], refused)
  }

  function Ingested(t: Tables, batch: Batch, refused: set<string>): Result<Tables, IngestError> {
    match CheckCursor(t.cursors, batch.cursor)
    case Err(e) => Err(e)
    case Ok(_) =>
      match InsertEvents(t, batch.events, refused)
      case Err(e) => Err(e)
      case Ok(u) => Ok(u.(cursors := u.cursors[batch.cursor.path := batch.cursor]))
  }

  /** The first cursor of a source: its existing records are stored nowhere and never mirrored. */
  function Checkpointed(t: Tables, cursor: SourceCursor): Result<Tables, IngestError> {
    match CheckStoredCursor(t.cursors, cursor)
    case Err(e) => Err(e)
    case Ok(_) =>
      if cursor.offset > 0 && (cursor.lastHash == None || cursor.lastHash == Some("")) then Err(MissingHash)
      else Ok(t.(cursors := t.cursors[cursor.path := cursor]))
  }

  class IngestStore {
    var items: map<string, Event>
    var cursors: map<string, SourceCursor>
    var handed: seq<string>

    constructor ()
      ensures Contents() == EMPTY
    {
      items, cursors, handed := map[], map[], [];
    }

    function Contents(): Tables
      reads this
    {
      Tables(items, cursors, handed)
    }

    /** One transaction: every raise restores the tables. refused are the keys queueing raises on. */
    method IngestRolloutBatch(batch: Batch, refused: set<string>) returns (r: Result<nat, IngestError>)
      modifies this
      ensures match Ingested(old(Contents()), batch, refused) {
                case Err(e) => r == Err(e) && Contents() == old(Contents())
                case Ok(t) => r == Ok(|t.handed| - |old(handed)|) && Contents() == t
              }
    {
      var checked := CheckCursor(cursors, batch.cursor);
      if checked.Err? {
        return Err(checked.error);
      }
      var savedItems, savedHanded := items, handed;
      var inserted := 0;
      for i := 0 to |batch.events|
        invariant cursors == old(cursors)
        invariant |handed| == |old(handed)| + inserted
        invariant InsertEvents(old(Contents()), batch.events, refused) ==
                  InsertEvents(Contents(), batch.events[i..], refused)
      {
        var event := batch.events[i];
        assert batch.events[i..][1..] == batch.events[i + 1..];
        if event.key in items {
          continue;
        }
        if event.key in refused {
          items, handed := savedItems, savedHanded;
          return Err(QueueingRefused);
        }
        items := items[event.key := event];
        inserted := inserted + 1;
        handed := handed + [event.key];
      }
      cursors := cursors[batch.cursor.path := batch.cursor];
      return Ok(inserted);
    }

    method StoreCheckpoint(cursor: SourceCursor) returns (r: Result<bool, IngestError>)
      modifies this
      ensures match Checkpointed(old(Contents()), cursor) {
                case Err(e) => r == Err(e) && Contents() == old(Contents())
                case Ok(t) => r == Ok(true) && Contents() == t
              }
    {
      var checked := CheckStoredCursor(cursors, cursor);
      if checked.Err? {
        return Err(checked.error);
      }
      if cursor.offset > 0 && (cursor.lastHash == None || cursor.lastHash == Some("")) {
        return Err(MissingHash);
      }
      cursors := cursors[cursor.path := cursor];
      return Ok(true);
    }
  }

  // ---- First occurrences ----

  function Keys(events: seq<Event>): seq<string> {
    if events == [] then [] else [events[0].key] + Keys(events[1..])
  }

  /** Keeps the first occurrence of every key. */
  function Dedup(keys: seq<string>): (d: seq<string>)
    ensures forall k :: k in d <==> k in keys
    ensures forall i, j :: 0 <= i < j < |d| ==> d[i] != d[j]
  {
    if keys == [] then []
    else
      var last := keys[|keys| - 1];
      var d := Dedup(keys[..|keys| - 1]);
      assert keys == keys[..|keys| - 1] + [last];
      if last in d then d else d + [last]
  }

  lemma {:induction false} KeysAppend(a: seq<Event>, b: seq<Event>)
    ensures Keys(a + b) == Keys(a) + Keys(b)
    decreases |a|
  {
    if a == [] {
      assert a + b == b;
    } else {
      assert (a + b)[1..] == a[1..] + b;
      KeysAppend(a[1..], b);
    }
  }

  /** Dedup keeps the order in which keys first occur. */
  lemma {:induction false} DedupKeepsOrder(keys: seq<string>, i: nat, j: nat)
    requires i < j < |keys| && keys[i] !in keys[..i] && keys[j] !in keys[..j]
    ensures exists m, n :: 0 <= m < n < |Dedup(keys)| && Dedup(keys)[m] == keys[i] && Dedup(keys)[n] == keys[j]
  {
    var init := keys[..|keys| - 1];
    var d := Dedup(init);
    assert keys == init + [keys[|keys| - 1]];
    assert init[..i] == keys[..i];
    if j < |init| {
      assert init[..j] == keys[..j];
      DedupKeepsOrder(init, i, j);
      var m, n :| 0 <= m < n < |d| && d[m] == init[i] && d[n] == init[j];
      assert Dedup(keys)[m] == keys[i] && Dedup(keys)[n] == keys[j];
    } else {
      assert init == keys[..j];
      assert keys[i] == init[i] && keys[i] in d;
      var m :| 0 <= m < |d| && d[m] == keys[i];
      assert Dedup(keys) == d + [keys[j]];
      assert Dedup(keys)[m] == keys[i] && Dedup(keys)[|d|] == keys[j];
    }
  }

  /** Committed work hands over the first occurrences of everything it was given, in order. */
  ghost predicate HandedFirstOccurrences(t: Tables, keys: seq<string>) {
    t.handed == Dedup(keys) && forall k :: k in t.items <==> k in t.handed
  }

  lemma InsertOneHandsFirstOccurrence(t: Tables, event: Event, keys: seq<string>)
    requires HandedFirstOccurrences(t, keys)
    ensures HandedFirstOccurrences(InsertOne(t, event), keys + [event.key])
  {
    assert (keys + [event.key])[..|keys|] == keys;
    if event.key !in t.items {
      var u := InsertOne(t, event);
      assert forall k :: k in u.handed <==> k in t.handed || k == event.key;
    }
  }

  lemma {:induction false} InsertEventsHandsFirstOccurrences(t: Tables, events: seq<Event>, refused: set<string>, keys: seq<string>)
    requires HandedFirstOccurrences(t, keys)
    ensures var r := InsertEvents(t, events, refused);
            r.Ok? ==> HandedFirstOccurrences(r.value, keys + Keys(events)) && r.value.cursors == t.cursors
    decreases |events|
  {
    hide HandedFirstOccurrences;
    if events == [] {
      assert keys + Keys(events) == keys;
    } else if InsertEvents(t, events, refused).Ok? {
      InsertOneHandsFirstOccurrence(t, events[0], keys);
      InsertEventsHandsFirstOccurrences(InsertOne(t, events[0]), events[1..], refused, keys + [events[0].key]);
      assert keys + Keys(events) == keys + [events[0].key] + Keys(events[1..]);
    }
  }

  /** A batch is accepted exactly when nothing new in it is refused. */
  lemma {:induction false} InsertEventsAccepts(t: Tables, events: seq<Event>, refused: set<string>)
    ensures InsertEvents(t, events, refused).Ok? <==>
            forall e :: e in events && e.key in refused ==> e.key in t.items
    decreases |events|
  {
    if events != [] {
      assert forall e :: e in events <==> e == events[0] || e in events[1..];
      if !(events[0].key !in t.items && events[0].key in refused) {
        InsertEventsAccepts(InsertOne(t, events[0]), events[1..], refused);
      }
    }
  }
}
