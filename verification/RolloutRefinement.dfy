/**
 Reading a growing file in pieces, with or without the in-memory state, computes what one
 read of the whole file computes.
 */
module RolloutRefinement {
  import opened Options
  import opened RolloutBytes
  import opened RolloutSpec
  import opened RolloutReader

  /** The first offset bytes are complete records that one pass accepts, ending in state p. */
  ghost predicate Committed(c: Codec, thread: string, file: Bytes, offset: nat, p: Progress) {
    && offset <= |file|
    && Tail(file[..offset]) == []
    && OneShot(c, Some(thread), file[..offset]) == Ok(p)
  }

  lemma CommittedFacts(c: Codec, thread: string, file: Bytes, offset: nat, p: Progress)
    requires ValidCodec(c) && Committed(c, thread, file, offset, p)
    ensures Settled(c, thread, p) && p.offset == offset <= |file|
    ensures LastHash(c, file, offset) == p.lastHash
    ensures OneShot(c, Some(thread), file) == Fold(c, Some(thread), file[offset..], p)
  {
    hide Fold, Tail, BackwardBody, LastRecord, Settled;
    var prefix := file[..offset];
    var rest := file[offset..];
    InitialSettled(c, thread);
    FoldSettled(c, thread, prefix, INITIAL);
    FoldAppend(c, Some(thread), prefix, rest, INITIAL);
    assert file == prefix + rest;
    assert [] + rest == rest;
    if offset > 0 {
      FoldLastHash(c, Some(thread), prefix, INITIAL);
      BackwardAgreesWithForward(file, offset);
    } else {
      InitialOnly(c, thread, p);
    }
  }

  lemma InitialSettled(c: Codec, thread: string)
    requires ValidCodec(c)
    ensures Settled(c, thread, INITIAL)
  {
  }

  lemma InitialOnly(c: Codec, thread: string, p: Progress)
    requires Settled(c, thread, p) && p.offset == 0
    ensures p == INITIAL
  {
  }

  /** Appending bytes does not disturb what is committed. */
  lemma CommittedAppend(c: Codec, thread: string, file: Bytes, more: Bytes, offset: nat, p: Progress)
    requires Committed(c, thread, file, offset, p)
    ensures Committed(c, thread, file + more, offset, p)
  {
    assert (file + more)[..offset] == file[..offset];
  }

  /** A finished pass commits everything up to the partial last record. */
  lemma OneShotCommits(c: Codec, thread: string, file: Bytes, q: Progress)
    requires ValidCodec(c) && OneShot(c, Some(thread), file) == Ok(q)
    ensures q.offset == |file| - |Tail(file)|
    ensures Committed(c, thread, file, q.offset, q)
  {
    FoldSettled(c, thread, file, INITIAL);
    SplitAtTail(file);
    CompleteHasNoTail(file);
    assert file[..|Complete(file)|] == Complete(file);
    PartialRecordIsIgnored(c, Some(thread), Complete(file), Tail(file));
  }

  /** The in-memory state of a source describes some committed prefix of its file. */
  ghost predicate TrueState(c: Codec, thread: string, fileId: string, file: Bytes, s: SourceState) {
    s.fileId == fileId && exists p :: Committed(c, thread, file, s.offset, p) && s == StateOf(fileId, p)
  }

  lemma FreshStart(c: Codec, thread: string, file: Bytes)
    ensures Committed(c, thread, file, 0, INITIAL)
  {
    assert file[..0] == [];
  }

  /** A read without a cursor is one pass over the file. */
  lemma FirstRead(c: Codec, states: map<string, SourceState>, path: string, fileId: string, thread: string, file: Bytes)
    requires ValidCodec(c)
    requires path in states && states[path].fileId == fileId ==> TrueState(c, thread, fileId, file, states[path])
    ensures ReadResult(c, states, path, fileId, file, None, Some(thread)) == OneShot(c, Some(thread), file)
  {
    FreshStart(c, thread, file);
    assert file[0..] == file;
  }

  /**
   A read that resumes at a committed cursor is the rest of one pass over the whole file: with
   the in-memory state at hand always, and without it exactly when no committed record is blank.
   */
  lemma ResumedReadRefinesOneShot(c: Codec, states: map<string, SourceState>, path: string, fileId: string,
                                  thread: string, file: Bytes, p: Progress)
    requires ValidCodec(c) && Committed(c, thread, file, p.offset, p)
    requires path in states && states[path].fileId == fileId ==> TrueState(c, thread, fileId, file, states[path])
    ensures var r := ReadResult(c, states, path, fileId, file, Some(CursorOf(path, fileId, p)), Some(thread));
            if !Cached(states, path, fileId, p.offset) && HasBlank(file[..p.offset]) then r == Err(InvalidBeforeCursor)
            else OneShot(c, Some(thread), file) == RebaseResult(p.events, p.ignored, r)
  {
    hide Begin, Fold, Committed, TrueState, HasBlank, Settled, Cached, Tail, Rebase;
    CommittedFacts(c, thread, file, p.offset, p);
    ResumeBegins(c, states, path, fileId, thread, file, p);
    if Cached(states, path, fileId, p.offset) || !HasBlank(file[..p.offset]) {
      var from := p.(events := [], ignored := 0);
      RebaseBack(p);
      FoldRebase(c, Some(thread), file[p.offset..], from, p.events, p.ignored);
    }
  }

  lemma RebaseBack(p: Progress)
    ensures Rebase(p.events, p.ignored, p.(events := [], ignored := 0)) == p
  {
  }

  lemma ResumeBegins(c: Codec, states: map<string, SourceState>, path: string, fileId: string,
                     thread: string, file: Bytes, p: Progress)
    requires ValidCodec(c) && Committed(c, thread, file, p.offset, p)
    requires path in states && states[path].fileId == fileId ==> TrueState(c, thread, fileId, file, states[path])
    ensures Begin(c, states, path, fileId, file, Some(CursorOf(path, fileId, p)), Some(thread)) ==
            if !Cached(states, path, fileId, p.offset) && HasBlank(file[..p.offset]) then Err(InvalidBeforeCursor)
            else Ok(p.(events := [], ignored := 0))
  {
    hide Committed, Fold, Recover, Tail, HasBlank, BackwardBody, LastHash;
    CommittedFacts(c, thread, file, p.offset, p);
    assert p.offset <= |file| && p.verified == (p.version in c.supported);
    if Cached(states, path, fileId, p.offset) {
      CachedStart(c, states, path, fileId, thread, file, p);
    } else {
      RestartRecovers(c, thread, file, p);
    }
  }

  lemma CachedStart(c: Codec, states: map<string, SourceState>, path: string, fileId: string,
                    thread: string, file: Bytes, p: Progress)
    requires Committed(c, thread, file, p.offset, p)
    requires Cached(states, path, fileId, p.offset) && TrueState(c, thread, fileId, file, states[path])
    ensures states[path] == StateOf(fileId, p)
  {
  }

  lemma RestartRecovers(c: Codec, thread: string, file: Bytes, p: Progress)
    requires ValidCodec(c) && Committed(c, thread, file, p.offset, p)
    ensures Recover(c, file, p.offset, TurnState(None, {})) ==
            if HasBlank(file[..p.offset]) then Err(InvalidBeforeCursor) else Ok(TurnState(p.turn, p.active))
  {
    hide Recover, Fold, Tail, HasBlank;
    RecoverAgrees(c, Some(thread), file[..p.offset], file[p.offset..], INITIAL);
    assert file[..p.offset] + file[p.offset..] == file;
  }

  /**
   A cursor is used only on what it was taken from: the same path and file identity, a file that is at least
   as long, and the same content in the last record before it.
   */
  lemma OtherFilesAreRefused(c: Codec, states: map<string, SourceState>, path: string, fileId: string, thread: string,
                             file: Bytes, p: Progress, path': string, fileId': string, other: Bytes)
    requires ValidCodec(c) && (forall a, b :: c.hash(a) == c.hash(b) ==> a == b)
    requires Committed(c, thread, file, p.offset, p) && p.offset > 0
    requires ReadResult(c, states, path', fileId', other, Some(CursorOf(path, fileId, p)), Some(thread)).Ok?
    ensures path' == path && fileId' == fileId && p.offset <= |other|
    ensures BackwardBody(other, p.offset) == BackwardBody(file, p.offset)
  {
    hide Fold, Recover, Tail, BackwardBody, Committed, StartState;
    CommittedFacts(c, thread, file, p.offset, p);
  }
}
