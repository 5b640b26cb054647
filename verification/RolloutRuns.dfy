/**
 Whole runs of observation: files grow, the service polls, ingestion may be interrupted or
 refused, and the process may restart at any point.
 */
module RolloutRuns {
  import opened Options
  import opened RolloutBytes
  import opened RolloutSpec
  import opened RolloutReader
  import opened RolloutRefinement
  import opened RolloutIngest

  /** A source keeps one file identity, and discovery binds it to one thread. */
  datatype SourceInfo = SourceInfo(fileId: string, thread: string)

  datatype Setup = Setup(codec: Codec, sources: map<string, SourceInfo>)

  datatype Outcome = ReadFailed | NotCommitted | CheckpointStored(start: nat) | UpToDate | BatchStored(events: seq<Event>)

  datatype Polled = Polled(states: map<string, SourceState>, tables: Tables, outcome: Outcome)

  /**
   One service iteration over one source: checkpoint it when it is new, otherwise ingest what
   it gained. interrupted stands for any failure between the read and the commit.
   */
  function PollSource(c: Codec, states: map<string, SourceState>, t: Tables, path: string, info: SourceInfo, file: Bytes,
                      refused: set<string>, interrupted: bool): Polled
  {
    var cursor := if path in t.cursors then Some(t.cursors[path]) else None;
    match ReadResult(c, states, path, info.fileId, file, cursor, Some(info.thread))
    case Err(_) => Polled(states, t, ReadFailed)
    case Ok(p) =>
      var states' := states[path := StateOf(info.fileId, p)];
      var batch := BatchOf(path, info.fileId, p);
      if interrupted then Polled(states', t, NotCommitted)
      else if cursor.None? then
        match Checkpointed(t, batch.cursor)
        case Err(_) => Polled(states', t, NotCommitted)
        case Ok(u) => Polled(states', u, CheckpointStored(p.offset))
      else if batch.cursor == cursor.value then Polled(states', t, UpToDate)
      else
        match Ingested(t, batch, refused)
        case Err(_) => Polled(states', t, NotCommitted)
        case Ok(u) => Polled(states', u, BatchStored(batch.events))
  }

  /** The service loop's work on one source, over the reader object and the database. */
  method Poll(reader: IncrementalRolloutReader, store: IngestStore, path: string, info: SourceInfo, file: Bytes,
              refused: set<string>, interrupted: bool) returns (outcome: Outcome)
    modifies reader, store
    ensures Polled(reader.sourceStates, store.Contents(), outcome) ==
            PollSource(reader.codec, old(reader.sourceStates), old(store.Contents()), path, info, file, refused, interrupted)
  {
    hide ReadResult, Ingested, Checkpointed;
    var cursor := if path in store.cursors then Some(store.cursors[path]) else None;
    var read := reader.Read(path, info.fileId, file, cursor, Some(info.thread));
    if read.Err? {
      return ReadFailed;
    }
    var batch := read.value;
    if interrupted {
      return NotCommitted;
    }
    if cursor.None? {
      var stored := store.StoreCheckpoint(batch.cursor);
      return if stored.Ok? then CheckpointStored(batch.cursor.offset) else NotCommitted;
    }
    if batch.cursor == cursor.value {
      return UpToDate;
    }
    var stored := store.IngestRolloutBatch(batch, refused);
    return if stored.Ok? then BatchStored(batch.events) else NotCommitted;
  }

  // ---- Runs ----

  datatype Logged = Logged(path: string, event: Event)

  /** log and starts record history: what committed batches held, and where each source was checkpointed. */
  datatype World = World(
    files: map<string, Bytes>,
    states: map<string, SourceState>,
    tables: Tables,
    log: seq<Logged>,
    starts: map<string, nat>)

  datatype Action =
    | Append(path: string, bytes: Bytes)
    | PollOne(path: string, refused: set<string>, interrupted: bool)
    | Restart

  function Tag(path: string, events: seq<Event>): seq<Logged> {
    seq(|events|, i requires 0 <= i < |events| => Logged(path, events[i]))
  }

  function EventsFrom(log: seq<Logged>, path: string): seq<Event> {
    if log == [] then []
    else EventsFrom(log[..|log| - 1], path) + if log[|log| - 1].path == path then [log[|log| - 1].event] else []
  }

  function AllEvents(log: seq<Logged>): seq<Event> {
    seq(|log|, i requires 0 <= i < |log| => log[i].event)
  }

  function AfterPoll(w: World, path: string, polled: Polled): World {
    var next := w.(states := polled.states, tables := polled.tables);
    match polled.outcome
    case CheckpointStored(start) => next.(starts := w.starts[path := start])
    case BatchStored(events) => next.(log := w.log + Tag(path, events))
    case _ => next
  }

  function Next(setup: Setup, w: World, a: Action): World {
    match a
    case Append(path, bytes) =>
      if path in w.files then w.(files := w.files[path := w.files[path] + bytes]) else w
    case Restart => w.(states := map[])
    case PollOne(path, refused, interrupted) =>
      if path !in setup.sources || path !in w.files then w
      else
        AfterPoll(w, path, PollSource(setup.codec, w.states, w.tables, path, setup.sources[path], w.files[path],
                                      refused, interrupted))
  }

  function Run(setup: Setup, w: World, actions: seq<Action>): World
    decreases |actions|
  {
    if actions == [] then w else Run(setup, Next(setup, w, actions[0]), actions[1..])
  }

  ghost predicate Initial(setup: Setup, w: World) {
    w.files.Keys == setup.sources.Keys && w.states == map[] && w.tables == EMPTY && w.log == [] && w.starts == map[]
  }

  // ---- What every run keeps ----

  /** The cursor is the end of a committed prefix; the log holds exactly what came after the checkpoint. */
  ghost predicate CursorInv(setup: Setup, w: World, path: string)
    requires path in setup.sources && path in w.files
  {
    var info, file := setup.sources[path], w.files[path];
    if path !in w.tables.cursors then EventsFrom(w.log, path) == []
    else
      && path in w.starts
      && exists p0, p :: ProgressBetween(setup.codec, info, file, path, w.starts[path], w.tables.cursors[path], EventsFrom(w.log, path), p0, p)
  }

  ghost predicate ProgressBetween(c: Codec, info: SourceInfo, file: Bytes, path: string, start: nat, cursor: SourceCursor,
                                  events: seq<Event>, p0: Progress, p: Progress)
  {
    && Committed(c, info.thread, file, start, p0)
    && Committed(c, info.thread, file, cursor.offset, p)
    && cursor == CursorOf(path, info.fileId, p)
    && start <= cursor.offset
    && p0.events + events == p.events
  }

  ghost predicate StateInv(setup: Setup, w: World, path: string)
    requires path in setup.sources && path in w.files
  {
    path in w.states ==> TrueState(setup.codec, setup.sources[path].thread, setup.sources[path].fileId, w.files[path], w.states[path])
  }

  ghost predicate Inv(setup: Setup, w: World) {
    && w.files.Keys == setup.sources.Keys
    && (forall path :: path in setup.sources ==> CursorInv(setup, w, path))
    && (forall path :: path in setup.sources ==> StateInv(setup, w, path))
    && HandedFirstOccurrences(w.tables, Keys(AllEvents(w.log)))
  }

  lemma InitialInv(setup: Setup, w: World)
    requires Initial(setup, w)
    ensures Inv(setup, w)
  {
  }

  lemma {:induction false} EventsFromAppend(log: seq<Logged>, path: string, events: seq<Event>, other: string)
    ensures EventsFrom(log + Tag(path, events), other) == EventsFrom(log, other) + if other == path then events else []
    decreases |events|
  {
    if events == [] {
      assert log + Tag(path, events) == log;
    } else {
      var init := events[..|events| - 1];
      var longer := log + Tag(path, events);
      assert longer[..|longer| - 1] == log + Tag(path, init);
      EventsFromAppend(log, path, init, other);
      assert events == init + [events[|events| - 1]];
    }
  }

  lemma AllEventsAppend(log: seq<Logged>, path: string, events: seq<Event>)
    ensures AllEvents(log + Tag(path, events)) == AllEvents(log) + events
  {
  }

  lemma AppendKeepsSource(setup: Setup, w: World, grown: World, path: string, bytes: Bytes)
    requires path in setup.sources && path in w.files && path in grown.files
    requires grown.files[path] == w.files[path] + bytes
    requires grown.states == w.states && grown.tables == w.tables && grown.log == w.log && grown.starts == w.starts
    requires CursorInv(setup, w, path) && StateInv(setup, w, path)
    ensures CursorInv(setup, grown, path) && StateInv(setup, grown, path)
  {
    hide Committed;
    var c, info, file := setup.codec, setup.sources[path], w.files[path];
    if path in w.tables.cursors {
      var cursor := w.tables.cursors[path];
      var p0, p :| ProgressBetween(c, info, file, path, w.starts[path], cursor, EventsFrom(w.log, path), p0, p);
      CommittedAppend(c, info.thread, file, bytes, w.starts[path], p0);
      CommittedAppend(c, info.thread, file, bytes, cursor.offset, p);
      assert ProgressBetween(c, info, grown.files[path], path, w.starts[path], cursor, EventsFrom(w.log, path), p0, p);
    }
    if path in w.states {
      var q :| Committed(c, info.thread, file, w.states[path].offset, q) && w.states[path] == StateOf(info.fileId, q);
      CommittedAppend(c, info.thread, file, bytes, w.states[path].offset, q);
    }
  }

  lemma AppendKeepsInv(setup: Setup, w: World, path: string, bytes: Bytes)
    requires Inv(setup, w) && path in w.files
    ensures Inv(setup, Next(setup, w, Append(path, bytes)))
  {
    hide CursorInv, StateInv, HandedFirstOccurrences;
    var grown := Next(setup, w, Append(path, bytes));
    forall other | other in setup.sources
      ensures CursorInv(setup, grown, other) && StateInv(setup, grown, other)
    {
      var gained := if other == path then bytes else [];
      assert grown.files[other] == w.files[other] + gained;
      AppendKeepsSource(setup, w, grown, other, gained);
    }
  }

  /** A successful read of a source leaves the reader in the state of a pass over the whole file. */
  lemma ReadReachesEnd(setup: Setup, w: World, path: string) returns (q: Progress)
    requires ValidCodec(setup.codec) && path in setup.sources && path in w.files
    requires CursorInv(setup, w, path) && StateInv(setup, w, path)
    ensures var info := setup.sources[path];
            var cursor := if path in w.tables.cursors then Some(w.tables.cursors[path]) else None;
            var r := ReadResult(setup.codec, w.states, path, info.fileId, w.files[path], cursor, Some(info.thread));
            r.Ok? ==>
              && OneShot(setup.codec, Some(info.thread), w.files[path]) == Ok(q)
              && Committed(setup.codec, info.thread, w.files[path], q.offset, q)
              && CursorOf(path, info.fileId, r.value) == CursorOf(path, info.fileId, q)
              && StateOf(info.fileId, r.value) == StateOf(info.fileId, q)
              && (path !in w.tables.cursors ==> r.value == q)
              && (path in w.tables.cursors ==>
                    && w.tables.cursors[path].offset <= q.offset
                    && path in w.starts
                    && exists p0 :: ProgressBetween(setup.codec, info, w.files[path], path, w.starts[path],
                                                    CursorOf(path, info.fileId, q),
                                                    EventsFrom(w.log, path) + r.value.events, p0, q))
  {
    hide Committed, Fold, Settled, ReadResult;
    var c, info, file := setup.codec, setup.sources[path], w.files[path];
    var cursor := if path in w.tables.cursors then Some(w.tables.cursors[path]) else None;
    var r := ReadResult(c, w.states, path, info.fileId, file, cursor, Some(info.thread));
    q := INITIAL;
    if r.Ok? {
      if cursor.None? {
        FirstRead(c, w.states, path, info.fileId, info.thread, file);
        q := r.value;
        OneShotCommits(c, info.thread, file, q);
      } else {
        var events := EventsFrom(w.log, path);
        var p0, p :| ProgressBetween(c, info, file, path, w.starts[path], cursor.value, events, p0, p);
        CommittedFacts(c, info.thread, file, cursor.value.offset, p);
        ResumedReadRefinesOneShot(c, w.states, path, info.fileId, info.thread, file, p);
        q := Rebase(p.events, p.ignored, r.value);
        OneShotCommits(c, info.thread, file, q);
        assert p0.events + (events + r.value.events) == (p0.events + events) + r.value.events;
        OffsetsGrow(c, info.thread, file, p, q);
        assert ProgressBetween(c, info, file, path, w.starts[path], CursorOf(path, info.fileId, q), events + r.value.events, p0, q);
      }
    }
  }

  lemma OffsetsGrow(c: Codec, thread: string, file: Bytes, p: Progress, q: Progress)
    requires ValidCodec(c) && Committed(c, thread, file, p.offset, p)
    requires OneShot(c, Some(thread), file) == Ok(q)
    ensures p.offset <= q.offset
  {
    hide Fold, Settled, Tail;
    CommittedFacts(c, thread, file, p.offset, p);
    FoldSettled(c, thread, file[p.offset..], p);
  }

  /** What a poll does to its own source. */
  lemma PollPath(c: Codec, states: map<string, SourceState>, t: Tables, path: string, info: SourceInfo, file: Bytes,
                 refused: set<string>, interrupted: bool)
    ensures var polled := PollSource(c, states, t, path, info, file, refused, interrupted);
            var cursor := if path in t.cursors then Some(t.cursors[path]) else None;
            var r := ReadResult(c, states, path, info.fileId, file, cursor, Some(info.thread));
            && (polled.outcome.ReadFailed? <==> r.Err?)
            && (r.Err? ==> polled.states == states && polled.tables == t)
            && (r.Ok? ==> polled.states == states[path := StateOf(info.fileId, r.value)])
            && (polled.outcome.CheckpointStored? || polled.outcome.BatchStored? ==>
                  path in polled.tables.cursors && polled.tables.cursors[path] == CursorOf(path, info.fileId, r.value))
            && (polled.outcome.CheckpointStored? ==> path !in t.cursors && polled.outcome.start == r.value.offset)
            && (polled.outcome.BatchStored? ==> path in t.cursors && polled.outcome.events == r.value.events)
            && (!polled.outcome.CheckpointStored? && !polled.outcome.BatchStored? ==> polled.tables == t)
  {
    hide ReadResult, InsertEvents;
  }

  /** The polled source: reader state, cursor, checkpoint and log move together. */
  lemma PollKeepsSource(setup: Setup, w: World, path: string, refused: set<string>, interrupted: bool)
    requires ValidCodec(setup.codec) && path in setup.sources && path in w.files
    requires CursorInv(setup, w, path) && StateInv(setup, w, path)
    ensures var w' := Next(setup, w, PollOne(path, refused, interrupted));
            w'.files == w.files && CursorInv(setup, w', path) && StateInv(setup, w', path)
  {
    hide Committed, ReadResult, OneShot, InsertEvents, PollSource, EventsFrom, Tag, ProgressBetween;
    var w' := Next(setup, w, PollOne(path, refused, interrupted));
    var c, info, file := setup.codec, setup.sources[path], w.files[path];
    var q := ReadReachesEnd(setup, w, path);
    var polled := PollSource(c, w.states, w.tables, path, info, file, refused, interrupted);
    PollPath(c, w.states, w.tables, path, info, file, refused, interrupted);
    assert w' == AfterPoll(w, path, polled) && w'.files == w.files;
    if !polled.outcome.ReadFailed? {
      assert TrueState(c, info.thread, info.fileId, file, StateOf(info.fileId, q));
    }
    if polled.outcome.CheckpointStored? {
      CheckpointProgress(c, info, file, path, q);
      assert EventsFrom(w'.log, path) == [] && w'.starts[path] == q.offset;
    } else if polled.outcome.BatchStored? {
      EventsFromAppend(w.log, path, polled.outcome.events, path);
    }
  }

  lemma CheckpointProgress(c: Codec, info: SourceInfo, file: Bytes, path: string, q: Progress)
    requires Committed(c, info.thread, file, q.offset, q)
    ensures ProgressBetween(c, info, file, path, q.offset, CursorOf(path, info.fileId, q), [], q, q)
  {
    hide Committed;
    assert q.events + [] == q.events;
  }

  lemma {:induction false} InsertEventsKeepsCursors(t: Tables, events: seq<Event>, refused: set<string>)
    ensures InsertEvents(t, events, refused).Ok? ==> InsertEvents(t, events, refused).value.cursors == t.cursors
    decreases |events|
  {
    if events != [] {
      InsertEventsKeepsCursors(InsertOne(t, events[0]), events[1..], refused);
    }
  }

  /** Nothing that the invariant says about a source changed. */
  ghost predicate SameSource(w: World, w': World, path: string) {
    && path in w.files && path in w'.files && w'.files[path] == w.files[path]
    && (path in w'.states ==> path in w.states && w'.states[path] == w.states[path])
    && (path in w'.tables.cursors <==> path in w.tables.cursors)
    && (path in w.tables.cursors ==> w'.tables.cursors[path] == w.tables.cursors[path])
    && (path in w.starts ==> path in w'.starts && w'.starts[path] == w.starts[path])
    && EventsFrom(w'.log, path) == EventsFrom(w.log, path)
  }

  lemma SameSourceKeepsInv(setup: Setup, w: World, w': World, path: string)
    requires path in setup.sources && SameSource(w, w', path)
    requires CursorInv(setup, w, path) && StateInv(setup, w, path)
    ensures CursorInv(setup, w', path) && StateInv(setup, w', path)
  {
    hide ProgressBetween, TrueState, EventsFrom;
  }

  /** What a poll does to the tables, whatever its outcome. */
  lemma PollTables(c: Codec, states: map<string, SourceState>, t: Tables, path: string, info: SourceInfo, file: Bytes,
                   refused: set<string>, interrupted: bool)
    ensures var polled := PollSource(c, states, t, path, info, file, refused, interrupted);
            && t.handed <= polled.tables.handed
            && polled.states.Keys <= states.Keys + {path}
            && (forall other :: other != path && other in states ==> other in polled.states && polled.states[other] == states[other])
            && polled.tables.cursors.Keys <= t.cursors.Keys + {path}
            && (forall other :: other != path && other in t.cursors ==>
                  other in polled.tables.cursors && polled.tables.cursors[other] == t.cursors[other])
            && (path in t.cursors ==>
                  && path in polled.tables.cursors
                  && t.cursors[path].offset <= polled.tables.cursors[path].offset
                  && t.cursors[path].version == polled.tables.cursors[path].version)
            && (polled.outcome.CheckpointStored? ==> path !in t.cursors && path in polled.tables.cursors)
            && (polled.outcome.BatchStored? ==>
                  && path in t.cursors
                  && InsertEvents(t, polled.outcome.events, refused).Ok?
                  && var u := InsertEvents(t, polled.outcome.events, refused).value;
                     polled.tables.items == u.items && polled.tables.handed == u.handed)
            && (!polled.outcome.BatchStored? ==> polled.tables.items == t.items && polled.tables.handed == t.handed)
  {
    hide ReadResult, InsertEvents;
    var polled := PollSource(c, states, t, path, info, file, refused, interrupted);
    if polled.outcome.BatchStored? {
      InsertEventsKeepsCursors(t, polled.outcome.events, refused);
      InsertEventsExtends(t, polled.outcome.events, refused);
    }
  }

  lemma {:induction false} InsertEventsExtends(t: Tables, events: seq<Event>, refused: set<string>)
    ensures InsertEvents(t, events, refused).Ok? ==> t.handed <= InsertEvents(t, events, refused).value.handed
    decreases |events|
  {
    if events != [] {
      InsertEventsExtends(InsertOne(t, events[0]), events[1..], refused);
    }
  }

  lemma PollKeepsOthers(setup: Setup, w: World, path: string, refused: set<string>, interrupted: bool, other: string)
    requires path in setup.sources && path in w.files && other in setup.sources && other in w.files && other != path
    ensures SameSource(w, Next(setup, w, PollOne(path, refused, interrupted)), other)
  {
    hide PollSource, EventsFrom, Tag, InsertEvents;
    var polled := PollSource(setup.codec, w.states, w.tables, path, setup.sources[path], w.files[path], refused, interrupted);
    PollTables(setup.codec, w.states, w.tables, path, setup.sources[path], w.files[path], refused, interrupted);
    if polled.outcome.BatchStored? {
      EventsFromAppend(w.log, path, polled.outcome.events, other);
      assert EventsFrom(w.log, other) + [] == EventsFrom(w.log, other);
    }
  }

  lemma PollKeepsHanded(setup: Setup, w: World, path: string, refused: set<string>, interrupted: bool)
    requires path in setup.sources && path in w.files
    requires HandedFirstOccurrences(w.tables, Keys(AllEvents(w.log)))
    ensures var w' := Next(setup, w, PollOne(path, refused, interrupted));
            HandedFirstOccurrences(w'.tables, Keys(AllEvents(w'.log)))
  {
    hide PollSource, InsertEvents, Dedup, Keys, AllEvents;
    var polled := PollSource(setup.codec, w.states, w.tables, path, setup.sources[path], w.files[path], refused, interrupted);
    PollTables(setup.codec, w.states, w.tables, path, setup.sources[path], w.files[path], refused, interrupted);
    if polled.outcome.BatchStored? {
      var events := polled.outcome.events;
      InsertEventsHandsFirstOccurrences(w.tables, events, refused, Keys(AllEvents(w.log)));
      AllEventsAppend(w.log, path, events);
      KeysAppend(AllEvents(w.log), events);
    }
  }

  lemma PollKeepsInv(setup: Setup, w: World, path: string, refused: set<string>, interrupted: bool)
    requires ValidCodec(setup.codec) && Inv(setup, w) && path in setup.sources
    ensures Inv(setup, Next(setup, w, PollOne(path, refused, interrupted)))
  {
    hide CursorInv, StateInv, HandedFirstOccurrences, PollSource, EventsFrom;
    var w' := Next(setup, w, PollOne(path, refused, interrupted));
    forall other | other in setup.sources
      ensures CursorInv(setup, w', other) && StateInv(setup, w', other)
    {
      if other == path {
        PollKeepsSource(setup, w, path, refused, interrupted);
      } else {
        PollKeepsOthers(setup, w, path, refused, interrupted, other);
        SameSourceKeepsInv(setup, w, w', other);
      }
    }
    PollKeepsHanded(setup, w, path, refused, interrupted);
  }

  lemma NextKeepsInv(setup: Setup, w: World, a: Action)
    requires ValidCodec(setup.codec) && Inv(setup, w)
    ensures Inv(setup, Next(setup, w, a))
  {
    hide CursorInv, StateInv, HandedFirstOccurrences, PollSource;
    match a {
      case Append(path, bytes) =>
        if path in w.files {
          AppendKeepsInv(setup, w, path, bytes);
        }
      case Restart =>
        RestartKeepsInv(setup, w);
      case PollOne(path, refused, interrupted) =>
        if path in setup.sources {
          PollKeepsInv(setup, w, path, refused, interrupted);
        }
    }
  }

  lemma RestartKeepsInv(setup: Setup, w: World)
    requires Inv(setup, w)
    ensures Inv(setup, w.(states := map[]))
  {
    hide ProgressBetween, HandedFirstOccurrences;
    var w' := w.(states := map[]);
    forall path | path in setup.sources
      ensures CursorInv(setup, w', path)
    {
      assert CursorInv(setup, w, path);
    }
  }

  lemma {:induction false} RunKeepsInv(setup: Setup, w: World, actions: seq<Action>)
    requires ValidCodec(setup.codec) && Inv(setup, w)
    ensures Inv(setup, Run(setup, w, actions))
    decreases |actions|
  {
    if actions != [] {
      NextKeepsInv(setup, w, actions[0]);
      RunKeepsInv(setup, Next(setup, w, actions[0]), actions[1..]);
    }
  }

  // ---- Main results ----

  /** The events that one pass over the file finds after offset start and up to offset end. */
  ghost predicate EventsBetween(c: Codec, thread: string, file: Bytes, start: nat, end: nat, events: seq<Event>) {
    exists p0, p ::
      && Committed(c, thread, file, start, p0)
      && Committed(c, thread, file, end, p)
      && start <= end
      && p0.events + events == p.events
  }

  /**
   Exactly-once ingestion: in every run, what was handed to queueing is the first occurrence of
   every key that committed batches held, in order and without repetition, and the committed
   batches of each source hold exactly the events between its checkpoint and its cursor.
   */
  lemma ExactlyOnce(setup: Setup, w0: World, actions: seq<Action>)
    requires ValidCodec(setup.codec) && Initial(setup, w0)
    ensures var w := Run(setup, w0, actions);
            && w.tables.handed == Dedup(Keys(AllEvents(w.log)))
            && (forall key :: key in w.tables.items <==> key in w.tables.handed)
            && forall path :: path in setup.sources && path in w.tables.cursors ==>
                 && path in w.files && path in w.starts
                 && EventsBetween(setup.codec, setup.sources[path].thread, w.files[path], w.starts[path],
                                  w.tables.cursors[path].offset, EventsFrom(w.log, path))
  {
    InitialInv(setup, w0);
    RunKeepsInv(setup, w0, actions);
    var w := Run(setup, w0, actions);
    forall path | path in setup.sources && path in w.tables.cursors
      ensures path in w.files && path in w.starts
      ensures EventsBetween(setup.codec, setup.sources[path].thread, w.files[path], w.starts[path],
                            w.tables.cursors[path].offset, EventsFrom(w.log, path))
    {
      assert CursorInv(setup, w, path);
    }
  }

  /** No step moves a cursor back, forgets an item, or takes back what was handed over. */
  lemma NothingIsUndone(setup: Setup, w: World, a: Action)
    requires ValidCodec(setup.codec) && Inv(setup, w)
    ensures var w' := Next(setup, w, a);
            && w.tables.handed <= w'.tables.handed
            && (forall path :: path in setup.sources && path in w.tables.cursors ==>
                  path in w'.tables.cursors && w.tables.cursors[path].offset <= w'.tables.cursors[path].offset)
            && forall path :: path in setup.sources && path in w.starts && path in w.tables.cursors ==>
                  path in w'.starts && w'.starts[path] == w.starts[path]
  {
    hide PollSource, CursorInv, StateInv, HandedFirstOccurrences, InsertEvents;
    if a.PollOne? && a.path in setup.sources {
      PollTables(setup.codec, w.states, w.tables, a.path, setup.sources[a.path], w.files[a.path], a.refused, a.interrupted);
    }
  }

  /**
   A source whose cursor stands at the end of its complete records has, in any run, the cursor,
   the events and the active turns that one read of the file as it is now would give.
   */
  lemma CaughtUpMatchesOneShot(setup: Setup, w: World, path: string)
    requires ValidCodec(setup.codec) && Inv(setup, w) && path in setup.sources && path in w.tables.cursors
    requires w.tables.cursors[path].offset == |w.files[path]| - |Tail(w.files[path])|
    ensures var info, file := setup.sources[path], w.files[path];
            exists p0, q ::
              && OneShot(setup.codec, Some(info.thread), file) == Ok(q)
              && w.tables.cursors[path] == CursorOf(path, info.fileId, q)
              && Committed(setup.codec, info.thread, file, w.starts[path], p0)
              && p0.events + EventsFrom(w.log, path) == q.events
              && (path in w.states && w.states[path].offset == q.offset ==> w.states[path].active == q.active)
  {
    hide Fold, Settled;
    var c, info, file := setup.codec, setup.sources[path], w.files[path];
    assert CursorInv(setup, w, path) && StateInv(setup, w, path);
    var cursor := w.tables.cursors[path];
    var p0, p :| ProgressBetween(c, info, file, path, w.starts[path], cursor, EventsFrom(w.log, path), p0, p);
    CommittedFacts(c, info.thread, file, cursor.offset, p);
    SplitAtTail(file);
    assert file[cursor.offset..] == Tail(file);
    CompleteHasNoTail(file);
    UnfoldFold(c, Some(info.thread), Tail(file), p);
  }

  /**
   Given a committed cursor and no interruption, a poll brings the source to its end exactly
   when the reader can resume, the whole file is acceptable, the schema version is still the
   cursor's, and queueing refuses nothing that is new.
   */
  lemma PollAdvancesIff(setup: Setup, w: World, path: string, refused: set<string>)
    requires ValidCodec(setup.codec) && Inv(setup, w) && path in setup.sources && path in w.tables.cursors
    ensures var info, file, cursor := setup.sources[path], w.files[path], w.tables.cursors[path];
            var polled := PollSource(setup.codec, w.states, w.tables, path, info, file, refused, false);
            var whole := OneShot(setup.codec, Some(info.thread), file);
            var gained := ReadResult(setup.codec, w.states, path, info.fileId, file, Some(cursor), Some(info.thread));
            (whole.Ok? && path in polled.tables.cursors &&
             polled.tables.cursors[path] == CursorOf(path, info.fileId, whole.value)) <==>
            && whole.Ok?
            && (Cached(w.states, path, info.fileId, cursor.offset) || !HasBlank(file[..cursor.offset]) ||
                cursor == CursorOf(path, info.fileId, whole.value))
            && cursor.version == whole.value.version
            && (forall e :: gained.Ok? && e in gained.value.events && e.key in refused ==> e.key in w.tables.items)
  {
    hide Committed, Fold, Settled, ReadResult, InsertEvents;
    var c, info, file, cursor := setup.codec, setup.sources[path], w.files[path], w.tables.cursors[path];
    assert CursorInv(setup, w, path) && StateInv(setup, w, path);
    var p0, p :| ProgressBetween(c, info, file, path, w.starts[path], cursor, EventsFrom(w.log, path), p0, p);
    CommittedFacts(c, info.thread, file, cursor.offset, p);
    ResumedReadRefinesOneShot(c, w.states, path, info.fileId, info.thread, file, p);
    var whole := OneShot(c, Some(info.thread), file);
    if whole.Ok? {
      OffsetsGrow(c, info.thread, file, p, whole.value);
      var gained := ReadResult(c, w.states, path, info.fileId, file, Some(cursor), Some(info.thread));
      if gained.Ok? {
        InsertEventsAccepts(w.tables, gained.value.events, refused);
        InsertEventsKeepsCursors(w.tables, gained.value.events, refused);
        if whole.value.offset == p.offset {
          SameOffsetSameProgress(c, info.thread, file, p, whole.value);
          assert gained.value.events == [];
        }
      }
    }
  }

  lemma SameOffsetSameProgress(c: Codec, thread: string, file: Bytes, p: Progress, q: Progress)
    requires ValidCodec(c) && Committed(c, thread, file, p.offset, p)
    requires OneShot(c, Some(thread), file) == Ok(q) && p.offset == q.offset
    ensures p == q
  {
    OneShotCommits(c, thread, file, q);
  }

  // ---- A source checkpointed before its session metadata never delivers ----

  /** The checkpoint was taken before the session_meta record was complete. */
  ghost predicate Stalled(setup: Setup, w: World, path: string) {
    path in setup.sources && path in w.tables.cursors && w.tables.cursors[path].version == UNVERIFIED
  }

  /**
   Such a source hands nothing over in any continuation of the run: every batch that reaches
   the metadata is refused because the stored schema version differs.
   */
  lemma {:induction false} StalledForever(setup: Setup, w: World, path: string, actions: seq<Action>)
    requires ValidCodec(setup.codec) && Inv(setup, w) && Stalled(setup, w, path)
    ensures Stalled(setup, Run(setup, w, actions), path)
    ensures EventsFrom(Run(setup, w, actions).log, path) == []
    decreases |actions|
  {
    hide Inv;
    if actions == [] {
      UnverifiedHasNoEvents(setup, w, path);
    } else {
      NextKeepsInv(setup, w, actions[0]);
      StallIsKept(setup, w, path, actions[0]);
      StalledForever(setup, Next(setup, w, actions[0]), path, actions[1..]);
    }
  }

  lemma UnverifiedHasNoEvents(setup: Setup, w: World, path: string)
    requires ValidCodec(setup.codec) && Inv(setup, w) && Stalled(setup, w, path)
    ensures EventsFrom(w.log, path) == []
  {
    hide Committed, HandedFirstOccurrences;
    var c, info, file := setup.codec, setup.sources[path], w.files[path];
    assert CursorInv(setup, w, path);
    var cursor := w.tables.cursors[path];
    var p0, p :| ProgressBetween(c, info, file, path, w.starts[path], cursor, EventsFrom(w.log, path), p0, p);
    CommittedFacts(c, info.thread, file, cursor.offset, p);
    assert p.events == [];
  }

  lemma StallIsKept(setup: Setup, w: World, path: string, a: Action)
    requires Stalled(setup, w, path)
    ensures Stalled(setup, Next(setup, w, a), path)
  {
    hide PollSource;
    if a.PollOne? && a.path in setup.sources && a.path in w.files {
      PollTables(setup.codec, w.states, w.tables, a.path, setup.sources[a.path], w.files[a.path], a.refused, a.interrupted);
    }
  }

  /** A checkpoint stalls its source exactly when the metadata was not yet complete in the file. */
  lemma CheckpointStallsIff(setup: Setup, w: World, path: string, refused: set<string>)
    requires ValidCodec(setup.codec) && Inv(setup, w) && path in setup.sources && path !in w.tables.cursors
    ensures var info := setup.sources[path];
            var whole := OneShot(setup.codec, Some(info.thread), w.files[path]);
            Stalled(setup, Next(setup, w, PollOne(path, refused, false)), path) <==>
            whole.Ok? && !whole.value.verified
  {
    hide Committed, Fold, ReadResult;
    var c, info, file := setup.codec, setup.sources[path], w.files[path];
    assert CursorInv(setup, w, path) && StateInv(setup, w, path);
    FirstRead(c, w.states, path, info.fileId, info.thread, file);
    InitialSettled(c, info.thread);
    FoldSettled(c, info.thread, file, INITIAL);
  }

  /** For instance: once an empty file was polled, nothing that is ever written to it is handed over. */
  lemma EmptyFileStalls(setup: Setup, w: World, path: string, refused: set<string>, actions: seq<Action>)
    requires ValidCodec(setup.codec) && Inv(setup, w) && path in setup.sources && path !in w.tables.cursors
    requires w.files[path] == []
    ensures EventsFrom(Run(setup, Next(setup, w, PollOne(path, refused, false)), actions).log, path) == []
  {
    hide Inv, Step, ReadResult;
    UnfoldFold(setup.codec, Some(setup.sources[path].thread), [], INITIAL);
    CheckpointStallsIff(setup, w, path, refused);
    NextKeepsInv(setup, w, PollOne(path, refused, false));
    StalledForever(setup, Next(setup, w, PollOne(path, refused, false)), path, actions);
  }

  // ---- A source with a blank committed record does not survive a restart ----

  /** The in-memory state is gone and a committed record is blank, so the restart scan fails. */
  ghost predicate BlankStalled(setup: Setup, w: World, path: string) {
    && path in setup.sources && path in w.files && path in w.tables.cursors
    && w.tables.cursors[path].offset <= |w.files[path]|
    && HasBlank(w.files[path][..w.tables.cursors[path].offset])
    && !Cached(w.states, path, setup.sources[path].fileId, w.tables.cursors[path].offset)
  }

  lemma BlankFailsToRead(setup: Setup, w: World, path: string)
    requires ValidCodec(setup.codec) && Inv(setup, w) && BlankStalled(setup, w, path)
    ensures ReadResult(setup.codec, w.states, path, setup.sources[path].fileId, w.files[path], Some(w.tables.cursors[path]),
                       Some(setup.sources[path].thread)) == Err(InvalidBeforeCursor)
  {
    hide Committed, ReadResult, HasBlank, HandedFirstOccurrences;
    var c, info, file := setup.codec, setup.sources[path], w.files[path];
    assert CursorInv(setup, w, path) && StateInv(setup, w, path);
    var p0, p :| ProgressBetween(c, info, file, path, w.starts[path], w.tables.cursors[path], EventsFrom(w.log, path), p0, p);
    ResumedReadRefinesOneShot(c, w.states, path, info.fileId, info.thread, file, p);
  }

  lemma BlankPollChangesNothing(setup: Setup, w: World, path: string, refused: set<string>, interrupted: bool)
    requires ValidCodec(setup.codec) && Inv(setup, w) && BlankStalled(setup, w, path)
    ensures Next(setup, w, PollOne(path, refused, interrupted)) == w
  {
    hide Inv, ReadResult, HasBlank;
    BlankFailsToRead(setup, w, path);
  }

  lemma BlankStallIsKept(setup: Setup, w: World, path: string, a: Action)
    requires ValidCodec(setup.codec) && Inv(setup, w) && BlankStalled(setup, w, path)
    ensures var w' := Next(setup, w, a);
            && BlankStalled(setup, w', path)
            && w'.tables.cursors[path] == w.tables.cursors[path] && EventsFrom(w'.log, path) == EventsFrom(w.log, path)
  {
    hide CursorInv, StateInv, HandedFirstOccurrences, HasBlank, PollSource, EventsFrom;
    match a {
      case Append(other, bytes) =>
        var offset := w.tables.cursors[path].offset;
        assert (w.files[path] + bytes)[..offset] == w.files[path][..offset];
      case Restart =>
      case PollOne(other, refused, interrupted) =>
        if other == path {
          BlankPollChangesNothing(setup, w, path, refused, interrupted);
        } else if other in setup.sources {
          PollKeepsOthers(setup, w, other, refused, interrupted, path);
        }
    }
  }

  lemma {:induction false} BlankStalledForever(setup: Setup, w: World, path: string, actions: seq<Action>)
    requires ValidCodec(setup.codec) && Inv(setup, w) && BlankStalled(setup, w, path)
    ensures var w' := Run(setup, w, actions);
            && BlankStalled(setup, w', path)
            && w'.tables.cursors[path] == w.tables.cursors[path] && EventsFrom(w'.log, path) == EventsFrom(w.log, path)
    decreases |actions|
  {
    hide Inv, Next, HasBlank, EventsFrom;
    if actions != [] {
      NextKeepsInv(setup, w, actions[0]);
      BlankStallIsKept(setup, w, path, actions[0]);
      BlankStalledForever(setup, Next(setup, w, actions[0]), path, actions[1..]);
    }
  }

  /** After a restart such a source delivers nothing in any continuation, and its cursor never moves again. */
  lemma BlankStallsAfterRestart(setup: Setup, w0: World, before: seq<Action>, path: string, after: seq<Action>)
    requires ValidCodec(setup.codec) && Initial(setup, w0)
    requires var w := Run(setup, w0, before);
             && path in setup.sources && path in w.files && path in w.tables.cursors
             && w.tables.cursors[path].offset <= |w.files[path]|
             && HasBlank(w.files[path][..w.tables.cursors[path].offset])
    ensures var w := Run(setup, w0, before);
            var w' := Run(setup, Next(setup, w, Restart), after);
            && path in w'.tables.cursors && w'.tables.cursors[path] == w.tables.cursors[path]
            && EventsFrom(w'.log, path) == EventsFrom(w.log, path)
  {
    hide Inv, HasBlank, Run, EventsFrom, Initial;
    InitialInv(setup, w0);
    RunKeepsInv(setup, w0, before);
    var w := Run(setup, w0, before);
    NextKeepsInv(setup, w, Restart);
    BlankStalledForever(setup, Next(setup, w, Restart), path, after);
  }

  /** A blank line behind a complete file is read, ignored and committed. */
  lemma BlankLineIsCommitted(c: Codec, thread: string, file: Bytes, p: Progress)
    requires ValidCodec(c) && Committed(c, thread, file, |file|, p)
    ensures OneShot(c, Some(thread), file + [LF]) ==
            Ok(p.(ignored := p.ignored + 1, offset := |file| + 1, lastHash := Some(c.hash([]))))
    ensures HasBlank(file + [LF])
  {
    hide Fold, HasBlank, Tail, Settled, BackwardBody, RecordLength;
    assert file[..|file|] == file;
    CommittedFacts(c, thread, file, |file|, p);
    FoldAppend(c, Some(thread), file, [LF], INITIAL);
    assert [] + [LF] == [LF];
    HasBlankAppend(file, [LF]);
    BlankLine();
    UnfoldFold(c, Some(thread), [LF], p);
    assert [LF][..1] == [LF] && [LF][1..] == [];
    var q := p.(ignored := p.ignored + 1, offset := p.offset + 1, lastHash := Some(c.hash([])));
    UnfoldFold(c, Some(thread), [], q);
  }

  lemma BlankLine()
    ensures RecordLength([LF]) == 1 && RecordLength([]) == 0 && Body([LF]) == [] && HasBlank([LF])
  {
    assert [LF][..1] == [LF];
  }

  lemma BlankLineIsRead(c: Codec, states: map<string, SourceState>, path: string, info: SourceInfo, file: Bytes, p: Progress)
    requires ValidCodec(c) && Committed(c, info.thread, file, |file|, p)
    requires Cached(states, path, info.fileId, |file|) && TrueState(c, info.thread, info.fileId, file, states[path])
    ensures ReadResult(c, states, path, info.fileId, file + [LF], Some(CursorOf(path, info.fileId, p)), Some(info.thread)) ==
            Ok(p.(events := [], ignored := 1, offset := |file| + 1, lastHash := Some(c.hash([]))))
  {
    hide Fold, HasBlank, Tail, Settled, BackwardBody, ReadResult, Committed, StateOf, Rebase;
    CommittedFacts(c, info.thread, file, |file|, p);
    CommittedAppend(c, info.thread, file, [LF], |file|, p);
    var q :| Committed(c, info.thread, file, |file|, q) && states[path] == StateOf(info.fileId, q);
    CommittedAppend(c, info.thread, file, [LF], |file|, q);
    ResumedReadRefinesOneShot(c, states, path, info.fileId, info.thread, file + [LF], p);
    BlankLineIsCommitted(c, info.thread, file, p);
    var r := ReadResult(c, states, path, info.fileId, file + [LF], Some(CursorOf(path, info.fileId, p)), Some(info.thread));
    OnlyTheGain(p, r.value, |file| + 1, Some(c.hash([])));
  }

  lemma OnlyTheGain(p: Progress, gained: Progress, offset: nat, lastHash: Option<string>)
    requires Rebase(p.events, p.ignored, gained) == p.(ignored := p.ignored + 1, offset := offset, lastHash := lastHash)
    ensures gained == p.(events := [], ignored := 1, offset := offset, lastHash := lastHash)
  {
    assert Rebase(p.events, p.ignored, gained).events == p.events + gained.events;
    assert |p.events + gained.events| == |p.events| + |gained.events|;
    assert gained.events == [];
  }

  /** The poll that reads the blank line stores its offset and no event. */
  lemma BlankLineIsPolled(setup: Setup, w: World, path: string)
    requires ValidCodec(setup.codec) && Inv(setup, w) && path in setup.sources && path in w.tables.cursors
    requires w.tables.cursors[path].offset == |w.files[path]|
    requires Cached(w.states, path, setup.sources[path].fileId, |w.files[path]|)
    ensures var read := Next(setup, Next(setup, w, Append(path, [LF])), PollOne(path, {}, false));
            && path in read.files && read.files[path] == w.files[path] + [LF] && HasBlank(read.files[path])
            && path in read.tables.cursors && read.tables.cursors[path].offset == |w.files[path]| + 1
            && EventsFrom(read.log, path) == EventsFrom(w.log, path)
  {
    hide Committed, Fold, Settled, HasBlank, ReadResult, EventsFrom, HandedFirstOccurrences, TrueState, PollSource;
    var c, info, file := setup.codec, setup.sources[path], w.files[path];
    assert CursorInv(setup, w, path) && StateInv(setup, w, path);
    var p0, p :| ProgressBetween(c, info, file, path, w.starts[path], w.tables.cursors[path], EventsFrom(w.log, path), p0, p);
    CommittedFacts(c, info.thread, file, |file|, p);
    BlankLineIsCommitted(c, info.thread, file, p);
    BlankLineIsRead(c, w.states, path, info, file, p);
    var gained := p.(events := [], ignored := 1, offset := |file| + 1, lastHash := Some(c.hash([])));
    EmptyBatchIsStored(c, w.states, w.tables, path, info, file + [LF], p, gained);
    EventsFromAppend(w.log, path, [], path);
    assert EventsFrom(w.log, path) + [] == EventsFrom(w.log, path);
  }

  lemma EmptyBatchIsStored(c: Codec, states: map<string, SourceState>, t: Tables, path: string, info: SourceInfo, file: Bytes,
                           p: Progress, gained: Progress)
    requires path in t.cursors && t.cursors[path] == CursorOf(path, info.fileId, p)
    requires ReadResult(c, states, path, info.fileId, file, Some(t.cursors[path]), Some(info.thread)) == Ok(gained)
    requires gained.events == [] && gained.offset == p.offset + 1 && gained.version == p.version
    ensures var polled := PollSource(c, states, t, path, info, file, {}, false);
            && polled.outcome == BatchStored([])
            && path in polled.tables.cursors && polled.tables.cursors[path].offset == p.offset + 1
  {
    hide ReadResult;
  }

  /**
   For instance: a source that is caught up, whatever it holds, reads one blank line; after the next restart it
   delivers nothing that is ever written to it.
   */
  lemma OneBlankLineStalls(setup: Setup, w: World, path: string, actions: seq<Action>)
    requires ValidCodec(setup.codec) && Inv(setup, w) && path in setup.sources && path in w.tables.cursors
    requires w.tables.cursors[path].offset == |w.files[path]|
    requires Cached(w.states, path, setup.sources[path].fileId, |w.files[path]|)
    ensures var read := Next(setup, Next(setup, w, Append(path, [LF])), PollOne(path, {}, false));
            var w' := Run(setup, Next(setup, read, Restart), actions);
            && path in read.tables.cursors && read.tables.cursors[path].offset == |w.files[path]| + 1
            && path in w'.tables.cursors && w'.tables.cursors[path] == read.tables.cursors[path]
            && EventsFrom(w'.log, path) == EventsFrom(w.log, path)
  {
    hide Inv, HasBlank, Run, EventsFrom, PollSource;
    var grown := Next(setup, w, Append(path, [LF]));
    var read := Next(setup, grown, PollOne(path, {}, false));
    BlankLineIsPolled(setup, w, path);
    NextKeepsInv(setup, w, Append(path, [LF]));
    NextKeepsInv(setup, grown, PollOne(path, {}, false));
    NextKeepsInv(setup, read, Restart);
    assert read.files[path][..|read.files[path]|] == read.files[path];
    BlankStalledForever(setup, Next(setup, read, Restart), path, actions);
  }
}
