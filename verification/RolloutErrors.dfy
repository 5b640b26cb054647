/** Why a read fails: each error, and exactly when it is the one reported. */
module RolloutErrors {
  import opened Options
  import opened RolloutBytes
  import opened RolloutSpec
  import opened RolloutReader
  import M = RolloutMeaning

  predicate OfThisFile(cursor: SourceCursor, path: string, fileId: string) {
    cursor.path == path && cursor.fileId == fileId
  }

  /** What is wrong with a cursor, in the order in which it is looked for; nothing is with none. */
  lemma CursorErrors(c: Codec, states: map<string, SourceState>, path: string, fileId: string, content: Bytes,
                     cursor: Option<SourceCursor>, expected: Option<string>)
    ensures var r := Begin(c, states, path, fileId, content, cursor, expected);
            && (r == Err(PathChanged) <==> cursor.Some? && cursor.value.path != path)
            && (r == Err(IdentityChanged) <==> cursor.Some? && cursor.value.path == path && cursor.value.fileId != fileId)
            && (r == Err(Truncated) <==> cursor.Some? && OfThisFile(cursor.value, path, fileId) && |content| < cursor.value.offset)
            && (r == Err(LastRecordChanged) <==>
                  && cursor.Some? && OfThisFile(cursor.value, path, fileId) && cursor.value.offset <= |content|
                  && cursor.value.lastHash.Some?
                  && (cursor.value.offset == 0 || c.hash(BackwardBody(content, cursor.value.offset)) != cursor.value.lastHash.value))
            && (r.Err? ==> cursor.Some? && r.error in {PathChanged, IdentityChanged, Truncated, LastRecordChanged,
                                                       InvalidBeforeCursor, UntrustedTurn, NotBoundary, SplitRecord})
  {
    hide BackwardBody, Recover;
    if cursor.Some? {
      RecoverErrors(c, content, cursor.value.offset, TurnState(None, {}));
    }
  }

  lemma {:induction false} RecoverErrors(c: Codec, rest: Bytes, left: nat, t: TurnState)
    ensures var r := Recover(c, rest, left, t);
            r.Err? ==> r.error in {InvalidBeforeCursor, UntrustedTurn, NotBoundary, SplitRecord}
    decreases |rest|
  {
    hide FirstLine, RecoverStep;
    var line := FirstLine(rest);
    if left > 0 && line != [] && |line| <= left {
      StepBeforeErrors(c, t, line);
      var next := RecoverStep(c, t, line);
      if next.Ok? {
        FirstLineFits(rest);
        RecoverErrors(c, rest[|line|..], left - |line|, next.value);
      }
    }
  }

  lemma StepBeforeErrors(c: Codec, t: TurnState, line: Bytes)
    ensures RecoverStep(c, t, line).Err? ==> RecoverStep(c, t, line).error in {InvalidBeforeCursor, UntrustedTurn}
  {
  }

  predicate TaskEvent(isEvent: bool, m: Payload) {
    isEvent && (m.kind == TaskStarted || m.kind == TaskComplete)
  }

  /** What is wrong with a session header, in the order in which it is looked for. */
  lemma SessionErrors(c: Codec, x: Option<string>, p: Progress, raw: Bytes, session: Option<Session>)
    requires Body(raw) != [] && c.classify(Body(raw)) == SessionMeta(session)
    ensures var r := Step(c, x, p, raw);
            && (r == Err(UntrustedSession) <==> session.None?)
            && (r == Err(UnsupportedVersion) <==> session.Some? && session.value.version !in c.supported)
            && (r == Err(MissingThread) <==>
                  session.Some? && session.value.version in c.supported && !Trusted(session.value.thread))
            && (r == Err(WrongThread) <==>
                  && session.Some? && session.value.version in c.supported && Trusted(session.value.thread)
                  && x.Some? && session.value.thread != Text(x.value))
            && (r == Err(SchemaChanged) <==>
                  session.Some? && M.TrustedSession(c, x, session.value) && p.verified && p.version != session.value.version)
            && (r.Err? ==> r.error in {UntrustedSession, UnsupportedVersion, MissingThread, WrongThread, SchemaChanged})
  {
    hide Body;
  }

  /** What is wrong with a message, in the order in which it is looked for. */
  lemma MessageErrors(c: Codec, x: Option<string>, p: Progress, raw: Bytes, isEvent: bool, payload: Option<Payload>)
    requires Body(raw) != [] && c.classify(Body(raw)) == Message(isEvent, payload)
    ensures var r := Step(c, x, p, raw);
            && (r == Err(NoSession) <==> !p.verified)
            && (p.verified && payload.None? ==> r == Err(NotNormalizable))
            && (p.verified && payload.Some? ==>
                  var m := payload.value;
                  && (r == Err(UntrustedTurn) <==> TaskEvent(isEvent, m) && !Trusted(m.turn))
                  && (r == Err(BadTurnMetadata) <==>
                        && !(TaskEvent(isEvent, m) && !Trusted(m.turn))
                        && (m.metadata == BadMetadata || (M.Nested(m) != Missing && !Trusted(M.Nested(m)))))
                  && (r == Err(ConflictingTurns) <==>
                        && !(TaskEvent(isEvent, m) && !Trusted(m.turn)) && m.metadata != BadMetadata
                        && Trusted(M.Nested(m)) && m.turn != Missing && m.turn != M.Nested(m))
                  && (r.Err? && M.TrustedTurns(isEvent, m) ==> r == Err(NotNormalizable)))
  {
    hide Body;
  }

  /** The other records: neither session nor message. */
  lemma RecordErrors(c: Codec, x: Option<string>, p: Progress, raw: Bytes)
    requires Body(raw) != [] ==> !c.classify(Body(raw)).SessionMeta? && !c.classify(Body(raw)).Message?
    ensures var r := Step(c, x, p, raw);
            var record := c.classify(Body(raw));
            && (Body(raw) == [] ==> r.Ok?)
            && (r == Err(InvalidRecord) <==> Body(raw) != [] && (record.Malformed? || record.NotObject?))
            && (r == Err(UntrustedTurn) <==> Body(raw) != [] && record.TurnContext? && !Trusted(record.turn))
            && (r == Err(NoSession) <==> Body(raw) != [] && record.OtherRecord? && !p.verified)
            && (r.Err? ==> r.error in {InvalidRecord, UntrustedTurn, NoSession})
  {
    hide Body;
  }
}
