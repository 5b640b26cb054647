/**
 The incremental reader: an object that keeps per-source turn state in memory, verifies its
 durable cursor against the file, and reads forward by complete records.
 */
module RolloutReader {
  import opened Options
  import opened RolloutBytes
  import opened RolloutSpec

  datatype SourceCursor = SourceCursor(path: string, fileId: string, offset: nat, lastHash: Option<string>, version: string)

  datatype Batch = Batch(events: seq<Event>, cursor: SourceCursor, ignored: nat, active: set<string>)

  /** In-memory state of one source, valid only for exactly this file and offset. */
  datatype SourceState = SourceState(fileId: string, offset: nat, turn: Option<string>, active: set<string>)

  const BLOCK_SIZE := 8192

  /** An open binary file. */
  class Handle {
    const content: Bytes
    var position: nat

    constructor (content: Bytes)
      ensures this.content == content && position == 0
    {
      this.content := content;
      position := 0;
    }

    method Seek(to: nat)
      modifies this
      ensures position == to
    {
      position := to;
    }

    method Read(count: nat) returns (data: Bytes)
      modifies this
      ensures |data| == (if old(position) > |content| then 0
                         else if count <= |content| - old(position) then count else |content| - old(position))
      ensures forall k :: 0 <= k < |data| ==> data[k] == content[old(position) + k]
      ensures position == old(position) + |data|
    {
      if position >= |content| {
        data := [];
      } else {
        var end := if count <= |content| - position then position + count else |content|;
        data := content[position..end];
        position := end;
      }
    }

    method ReadLine() returns (line: Bytes)
      modifies this
      ensures old(position) <= |content| ==> line == FirstLine(content[old(position)..])
      ensures old(position) > |content| ==> line == []
      ensures position == old(position) + |line|
    {
      line := if position <= |content| then FirstLine(content[position..]) else [];
      position := position + |line|;
    }
  }

  function LastHash(c: Codec, content: Bytes, committed: nat): Option<string>
    requires committed <= |content|
  {
    if committed == 0 then None else Some(c.hash(BackwardBody(content, committed)))
  }

  /** Searches backwards from end, one block at a time, for the start of the line that ends there. */
  method LineStart(handle: Handle, end: nat, blockSize: nat) returns (start: nat)
    requires blockSize >= 1 && end <= |handle.content|
    modifies handle
    ensures start == AfterLastLf(handle.content, end)
  {
    var position := end;
    while position > 0
      invariant 0 <= position <= end
      invariant AfterLastLf(handle.content, end) == AfterLastLf(handle.content, position)
    {
      var blockStart := if position > blockSize then position - blockSize else 0;
      handle.Seek(blockStart);
      var block := handle.Read(position - blockStart);
      var afterLf := AfterLastLf(block, |block|);
      AfterLastLfInBlock(handle.content, blockStart, position, block);
      if afterLf > 0 {
        return blockStart + afterLf;
      }
      position := blockStart;
    }
    start := 0;
  }

  lemma {:induction false} AfterLastLfInBlock(content: Bytes, start: nat, end: nat, block: Bytes)
    requires start <= end <= |content| && block == content[start..end]
    ensures var i := AfterLastLf(block, |block|);
            AfterLastLf(content, end) == if i > 0 then start + i else AfterLastLf(content, start)
    decreases end
  {
    if start < end && content[end - 1] != LF {
      AfterLastLfInBlock(content, start, end - 1, content[start..end - 1]);
      assert block[..|block| - 1] == content[start..end - 1];
      AfterLastLfPrefix(block, |block| - 1, |block| - 1);
    }
  }

  /** Finds the previous complete record without rereading the file, and hashes its body. */
  method LastCommittedRecordHash(c: Codec, handle: Handle, committed: nat, blockSize: nat) returns (h: Option<string>)
    requires blockSize >= 1 && committed <= |handle.content|
    modifies handle
    ensures h == LastHash(c, handle.content, committed)
  {
    if committed == 0 {
      return None;
    }
    var end := committed;
    handle.Seek(end - 1);
    var last := handle.Read(1);
    assert last[0] == handle.content[end - 1] && last == [last[0]];
    if last == [LF] {
      end := end - 1;
    }
    var start := LineStart(handle, end, blockSize);
    handle.Seek(start);
    var line := handle.Read(end - start);
    assert line == handle.content[start..end];
    h := Some(c.hash(TrimRight(line, {CR})));
  }

  /** Recovers turn context and activity after a restart. */
  method StateBeforeOffset(c: Codec, handle: Handle, committed: nat) returns (r: Result<TurnState, ReadError>)
    modifies handle
    ensures r == Recover(c, handle.content, committed, TurnState(None, {}))
  {
    hide Recover, RecoverStep, FirstLine;
    var t := TurnState(None, {});
    RecoverOneLine(c, handle.content, 0, committed, t);
    if committed == 0 {
      return Ok(t);
    }
    handle.Seek(0);
    var consumed := 0;
    while consumed < committed
      invariant consumed <= committed && consumed <= |handle.content| && handle.position == consumed
      invariant Recover(c, handle.content, committed, TurnState(None, {})) ==
                Recover(c, handle.content[consumed..], committed - consumed, t)
      decreases committed - consumed
    {
      RecoverOneLine(c, handle.content, consumed, committed, t);
      var line := handle.ReadLine();
      if line == [] {
        return Err(NotBoundary);
      }
      consumed := consumed + |line|;
      if consumed > committed {
        return Err(SplitRecord);
      }
      var next := RecoverStep(c, t, line);
      if next.Err? {
        return Err(next.error);
      }
      t := next.value;
    }
    RecoverOneLine(c, handle.content, consumed, committed, t);
    return Ok(t);
  }

  /** What the restart scan does with the next line. */
  lemma {:induction false} RecoverOneLine(c: Codec, content: Bytes, consumed: nat, committed: nat, t: TurnState)
    requires consumed <= |content| && consumed <= committed
    ensures var line := FirstLine(content[consumed..]);
            && consumed + |line| <= |content|
            && Recover(c, content[consumed..], committed - consumed, t) ==
               if consumed == committed then Ok(t)
               else if line == [] then Err(NotBoundary)
               else if consumed + |line| > committed then Err(SplitRecord)
               else match RecoverStep(c, t, line)
                 case Err(e) => Err(e)
                 case Ok(u) => Recover(c, content[consumed + |line|..], committed - (consumed + |line|), u)
    ensures content[0..] == content
  {
    hide RecoverStep, FirstLine;
    var line := FirstLine(content[consumed..]);
    FirstLineFits(content[consumed..]);
    assert content[consumed..][|line|..] == content[consumed + |line|..];
  }

  lemma FirstLineFits(rest: Bytes)
    ensures |FirstLine(rest)| <= |rest|
  {
  }

  lemma FirstLineIsRecord(rest: Bytes)
    ensures var line := FirstLine(rest);
            if line != [] && line[|line| - 1] == LF then RecordLength(rest) == |line| && line == rest[..|line|]
            else RecordLength(rest) == 0
  {
  }

  // ---- What one read returns ----

  function Resumed(path: string, fileId: string, cursor: Option<SourceCursor>): SourceCursor {
    if cursor.Some? then cursor.value else SourceCursor(path, fileId, 0, None, UNVERIFIED)
  }

  function Cached(states: map<string, SourceState>, path: string, fileId: string, offset: nat): bool {
    path in states && states[path].fileId == fileId && states[path].offset == offset
  }

  /** The turn state a read starts from: cached, fresh, or rebuilt from the file. */
  function StartState(c: Codec, states: map<string, SourceState>, path: string, fileId: string, content: Bytes,
                      cursor: Option<SourceCursor>): Result<TurnState, ReadError>
  {
    var offset := Resumed(path, fileId, cursor).offset;
    if Cached(states, path, fileId, offset) then Ok(TurnState(states[path].turn, states[path].active))
    else if cursor.None? then Ok(TurnState(None, {}))
    else Recover(c, content, offset, TurnState(None, {}))
  }

  /** Where a read starts; fails when the cursor does not describe this file. */
  function Begin(c: Codec, states: map<string, SourceState>, path: string, fileId: string, content: Bytes,
                 cursor: Option<SourceCursor>, expected: Option<string>): (r: Result<Progress, ReadError>)
    ensures r.Ok? ==> r.value.offset <= |content|
  {
    var from := Resumed(path, fileId, cursor);
    if from.path != path then Err(PathChanged)
    else if from.fileId != fileId then Err(IdentityChanged)
    else if |content| < from.offset then Err(Truncated)
    else if from.lastHash.Some? && LastHash(c, content, from.offset) != from.lastHash then Err(LastRecordChanged)
    else match StartState(c, states, path, fileId, content, cursor)
      case Err(e) => Err(e)
      case Ok(t) =>
        var verified := cursor.Some? && from.version in c.supported;
        Ok(Progress(from.offset, from.lastHash, verified, from.version, if verified then expected else None,
                    t.turn, t.active, [], 0))
  }

  function ReadResult(c: Codec, states: map<string, SourceState>, path: string, fileId: string, content: Bytes,
                      cursor: Option<SourceCursor>, expected: Option<string>): Result<Progress, ReadError>
  {
    match Begin(c, states, path, fileId, content, cursor, expected)
    case Err(e) => Err(e)
    case Ok(p) => Fold(c, expected, content[p.offset..], p)
  }

  function CursorOf(path: string, fileId: string, p: Progress): SourceCursor {
    SourceCursor(path, fileId, p.offset, p.lastHash, p.version)
  }

  function BatchOf(path: string, fileId: string, p: Progress): Batch {
    Batch(p.events, CursorOf(path, fileId, p), p.ignored, p.active)
  }

  function StateOf(fileId: string, p: Progress): SourceState {
    SourceState(fileId, p.offset, p.turn, p.active)
  }

  class IncrementalRolloutReader {
    const codec: Codec
    var sourceStates: map<string, SourceState>

    constructor (codec: Codec)
      ensures this.codec == codec && sourceStates == map[]
    {
      this.codec := codec;
      sourceStates := map[];
    }

    /** Reads every complete record after the cursor; a failed read leaves the object unchanged. */
    method Read(path: string, fileId: string, content: Bytes, cursor: Option<SourceCursor>, expected: Option<string>)
      returns (r: Result<Batch, ReadError>)
      modifies this
      ensures match ReadResult(codec, old(sourceStates), path, fileId, content, cursor, expected) {
                case Err(e) => r == Err(e) && sourceStates == old(sourceStates)
                case Ok(p) => r == Ok(BatchOf(path, fileId, p)) && sourceStates == old(sourceStates)[path := StateOf(fileId, p)]
              }
    {
      var handle := new Handle(content);
      var start := Open(handle, path, fileId, cursor, expected);
      match start {
        case Err(e) => return Err(e);
        case Ok(p) =>
          handle.Seek(p.offset);
          var done := ReadRecords(handle, expected, p);
          match done {
            case Err(e) => return Err(e);
            case Ok(q) =>
              sourceStates := sourceStates[path := StateOf(fileId, q)];
              return Ok(BatchOf(path, fileId, q));
          }
      }
    }

    /** Checks the cursor against the file and finds the turn state to start from. */
    method Open(handle: Handle, path: string, fileId: string, cursor: Option<SourceCursor>, expected: Option<string>)
      returns (r: Result<Progress, ReadError>)
      modifies handle
      ensures r == Begin(codec, sourceStates, path, fileId, handle.content, cursor, expected)
    {
      var from := Resumed(path, fileId, cursor);
      if from.path != path {
        return Err(PathChanged);
      } else if from.fileId != fileId {
        return Err(IdentityChanged);
      }
      if |handle.content| < from.offset {
        return Err(Truncated);
      }
      if from.lastHash.Some? {
        var actual := LastCommittedRecordHash(codec, handle, from.offset, BLOCK_SIZE);
        if actual != from.lastHash {
          return Err(LastRecordChanged);
        }
      }
      var t := TurnState(None, {});
      if Cached(sourceStates, path, fileId, from.offset) {
        t := TurnState(sourceStates[path].turn, sourceStates[path].active);
      } else if cursor.Some? {
        var recovered := StateBeforeOffset(codec, handle, from.offset);
        match recovered {
          case Err(e) => return Err(e);
          case Ok(u) => t := u;
        }
      }
      var verified := cursor.Some? && from.version in codec.supported;
      return Ok(Progress(from.offset, from.lastHash, verified, from.version, if verified then expected else None,
                         t.turn, t.active, [], 0));
    }

    /** Takes in complete records until the first partial one. */
    method ReadRecords(handle: Handle, expected: Option<string>, start: Progress) returns (r: Result<Progress, ReadError>)
      requires handle.position == start.offset <= |handle.content|
      modifies handle
      ensures r == Fold(codec, expected, handle.content[start.offset..], start)
    {
      hide *;
      var p := start;
      while true
        invariant handle.position <= |handle.content|
        invariant Fold(codec, expected, handle.content[start.offset..], start) ==
                  Fold(codec, expected, handle.content[handle.position..], p)
        decreases |handle.content| - handle.position
      {
        ghost var rest := handle.content[handle.position..];
        UnfoldFold(codec, expected, rest, p);
        FirstLineIsRecord(rest);
        var raw := handle.ReadLine();
        if raw == [] || raw[|raw| - 1] != LF {
          return Ok(p);
        }
        assert rest[|raw|..] == handle.content[handle.position..];
        var next := Step(codec, expected, p, raw);
        if next.Err? {
          return Err(next.error);
        }
        p := next.value;
      }
    }

    method ActiveTurnIds(path: string) returns (active: set<string>)
      ensures active == if path in sourceStates then sourceStates[path].active else {}
    {
      active := if path in sourceStates then sourceStates[path].active else {};
    }
  }
}
