/**
 What one pass over a rollout file computes. JSON decoding and content normalisation are
 parameters (Codec); everything the reader itself decides is spelled out.
 */
module RolloutSpec {
  import opened Options
  import opened RolloutBytes

  /** A JSON value under a key: absent or null, a string, or anything else. */
  datatype Field = Missing | Text(text: string) | Junk

  predicate Trusted(f: Field) {
    f.Text? && f.text != ""
  }

  datatype Metadata = NoMetadata | BadMetadata | Metadata(turn: Field)

  datatype PayloadKind = TaskStarted | TaskComplete | OtherKind

  /** The parts of an event_msg or response_item payload that the reader looks at. */
  datatype Payload = Payload(kind: PayloadKind, thread: Field, turn: Field, metadata: Metadata, content: string)

  datatype Session = Session(version: string, thread: Field)

  /** The reader's total classification of one decoded record. */
  datatype Record =
    | Malformed
    | NotObject
    | SessionMeta(session: Option<Session>)
    | TurnContext(turn: Field)
    | Message(isEvent: bool, payload: Option<Payload>)
    | OtherRecord

  /** A normalised visible event; key is its logical key. */
  datatype Event = Event(key: string, thread: string, turn: string, item: string, text: string)

  datatype Normalized = Rejected | Hidden | Visible(event: Event)

  datatype Codec = Codec(
    classify: Bytes -> Record,
    normalize: (bool, Payload) -> Normalized,
    hash: Bytes -> string,
    supported: set<string>)

  /** An empty line is not JSON, the placeholder version is not a supported one, and no digest is empty. */
  ghost predicate ValidCodec(c: Codec) {
    && c.classify([]).Malformed?
    && UNVERIFIED !in c.supported
    && forall body :: c.hash(body) != ""
  }

  const UNVERIFIED := "unverified"

  datatype ReadError =
    | PathChanged | IdentityChanged | Truncated | LastRecordChanged
    | SplitRecord | NotBoundary | InvalidBeforeCursor
    | InvalidRecord | UntrustedSession | UnsupportedVersion | MissingThread | WrongThread | SchemaChanged
    | UntrustedTurn | NoSession | BadTurnMetadata | ConflictingTurns | NotNormalizable

  datatype Progress = Progress(
    offset: nat,
    lastHash: Option<string>,
    verified: bool,
    version: string,
    session: Option<string>,
    turn: Option<string>,
    active: set<string>,
    events: seq<Event>,
    ignored: nat)

  const INITIAL := Progress(0, None, false, UNVERIFIED, None, None, {}, [], 0)

  function StepSession(c: Codec, expected: Option<string>, p: Progress, session: Option<Session>): Result<Progress, ReadError> {
    if session.None? then Err(UntrustedSession)
    else if session.value.version !in c.supported then Err(UnsupportedVersion)
    else if !Trusted(session.value.thread) then Err(MissingThread)
    else if expected.Some? && session.value.thread.text != expected.value then Err(WrongThread)
    else if p.verified && p.version != session.value.version then Err(SchemaChanged)
    else Ok(p.(verified := true, version := session.value.version, session := Some(session.value.thread.text)))
  }

  function StepActivity(active: set<string>, isEvent: bool, m: Payload): Result<set<string>, ReadError> {
    if !isEvent || m.kind.OtherKind? then Ok(active)
    else if !Trusted(m.turn) then Err(UntrustedTurn)
    else if m.kind.TaskStarted? then Ok(active + {m.turn.text})
    else Ok(active - {m.turn.text})
  }

  /** Fills in the thread and turn that the payload leaves out. */
  function Attribute(session: Option<string>, turn: Option<string>, m: Payload): Result<Payload, ReadError> {
    if m.metadata.BadMetadata? then Err(BadTurnMetadata)
    else
      var nested := if m.metadata.Metadata? then m.metadata.turn else Missing;
      if nested != Missing && !Trusted(nested) then Err(BadTurnMetadata)
      else if m.turn != Missing && nested != Missing && m.turn != nested then Err(ConflictingTurns)
      else
        var filled :=
          if m.turn != Missing then m.turn
          else if nested != Missing then nested
          else if turn.Some? then Text(turn.value)
          else Missing;
        var thread := if m.thread == Missing && session.Some? then Text(session.value) else m.thread;
        Ok(m.(thread := thread, turn := filled))
  }

  function StepMessage(c: Codec, p: Progress, isEvent: bool, payload: Option<Payload>): Result<Progress, ReadError> {
    if !p.verified then Err(NoSession)
    else if payload.None? then Err(NotNormalizable)
    else match StepActivity(p.active, isEvent, payload.value)
      case Err(e) => Err(e)
      case Ok(active) =>
        match Attribute(p.session, p.turn, payload.value)
        case Err(e) => Err(e)
        case Ok(m) =>
          match c.normalize(isEvent, m)
          case Rejected => Err(NotNormalizable)
          case Hidden => Ok(p.(active := active, ignored := p.ignored + 1))
          case Visible(event) => Ok(p.(active := active, events := p.events + [event]))
  }

  function StepRecord(c: Codec, expected: Option<string>, p: Progress, record: Record): Result<Progress, ReadError> {
    match record
    case Malformed => Err(InvalidRecord)
    case NotObject => Err(InvalidRecord)
    case SessionMeta(session) =>
      (match StepSession(c, expected, p, session)
       case Err(e) => Err(e)
       case Ok(q) => Ok(q.(ignored := q.ignored + 1)))
    case TurnContext(turn) =>
      if !Trusted(turn) then Err(UntrustedTurn)
      else Ok(p.(turn := Some(turn.text), ignored := p.ignored + 1))
    case Message(isEvent, payload) => StepMessage(c, p, isEvent, payload)
    case OtherRecord => if !p.verified then Err(NoSession) else Ok(p.(ignored := p.ignored + 1))
  }

  /** One complete raw record. */
  function Step(c: Codec, expected: Option<string>, p: Progress, raw: Bytes): Result<Progress, ReadError> {
    var body := Body(raw);
    var next := if body == [] then Ok(p.(ignored := p.ignored + 1)) else StepRecord(c, expected, p, c.classify(body));
    match next
    case Err(e) => Err(e)
    case Ok(q) => Ok(q.(offset := p.offset + |raw|, lastHash := Some(c.hash(body))))
  }

  /** One pass over every complete record of s. */
  function Fold(c: Codec, expected: Option<string>, s: Bytes, p: Progress): Result<Progress, ReadError>
    decreases |s|
  {
    var n := RecordLength(s);
    if n == 0 then Ok(p)
    else match Step(c, expected, p, s[..n])
      case Err(e) => Err(e)
      case Ok(q) => Fold(c, expected, s[n..], q)
  }

  /** Reading a whole file at once, from nothing. */
  function OneShot(c: Codec, expected: Option<string>, file: Bytes): Result<Progress, ReadError> {
    Fold(c, expected, file, INITIAL)
  }

  datatype TurnState = TurnState(turn: Option<string>, active: set<string>)

  /** The restart scan's view of one record before the cursor. */
  function RecoverStep(c: Codec, t: TurnState, line: Bytes): Result<TurnState, ReadError> {
    match c.classify(Body(line))
    case Malformed => Err(InvalidBeforeCursor)
    case TurnContext(turn) => if !Trusted(turn) then Err(UntrustedTurn) else Ok(t.(turn := Some(turn.text)))
    case Message(isEvent, payload) =>
      if payload.None? then Ok(t)
      else
        (match StepActivity(t.active, isEvent, payload.value)
         case Err(e) => Err(e)
         case Ok(active) => Ok(t.(active := active)))
    case _ => Ok(t)
  }

  /** Rebuilds the turn state from the left bytes before the cursor, rest being what is still unread. */
  function Recover(c: Codec, rest: Bytes, left: nat, t: TurnState): Result<TurnState, ReadError>
    decreases |rest|
  {
    if left == 0 then Ok(t)
    else
      var line := FirstLine(rest);
      if line == [] then Err(NotBoundary)
      else if |line| > left then Err(SplitRecord)
      else match RecoverStep(c, t, line)
        case Err(e) => Err(e)
        case Ok(u) => Recover(c, rest[|line|..], left - |line|, u)
  }

  lemma {:induction false} UnfoldFold(c: Codec, x: Option<string>, s: Bytes, p: Progress)
    ensures var n := RecordLength(s);
            Fold(c, x, s, p) ==
            if n == 0 then Ok(p)
            else match Step(c, x, p, s[..n]) { case Err(e) => Err(e) case Ok(q) => Fold(c, x, s[n..], q) }
  {
  }

  lemma {:induction false} UnfoldRecover(c: Codec, rest: Bytes, left: nat, t: TurnState)
    requires RecordLength(rest) > 0 && RecordLength(rest) <= left
    ensures var n := RecordLength(rest);
            Recover(c, rest, left, t) ==
            match RecoverStep(c, t, rest[..n]) { case Err(e) => Err(e) case Ok(u) => Recover(c, rest[n..], left - n, u) }
  {
    hide RecoverStep, RecordLength, FirstLine;
    CompleteFirstLine(rest);
  }

  lemma CompleteFirstLine(rest: Bytes)
    requires RecordLength(rest) > 0
    ensures FirstLine(rest) == rest[..RecordLength(rest)] && FirstLine(rest) != []
  {
    hide RecordLength;
  }

  // ---- Splitting a pass at a record boundary ----

  lemma {:induction false} FoldAppend(c: Codec, x: Option<string>, s: Bytes, t: Bytes, p: Progress)
    ensures Fold(c, x, s + t, p) ==
            match Fold(c, x, s, p) { case Err(e) => Err(e) case Ok(q) => Fold(c, x, Tail(s) + t, q) }
    decreases |s|
  {
    hide *;
    var n := RecordLength(s);
    UnfoldFold(c, x, s, p);
    UnfoldRecords(s);
    if n > 0 {
      UnfoldFold(c, x, s + t, p);
      RecordLengthAppend(s, t);
      assert (s + t)[..n] == s[..n];
      assert (s + t)[n..] == s[n..] + t;
      var next := Step(c, x, p, s[..n]);
      if next.Ok? {
        FoldAppend(c, x, s[n..], t, next.value);
      }
    }
  }

  /** A partial last record changes nothing. */
  lemma PartialRecordIsIgnored(c: Codec, x: Option<string>, s: Bytes, partial: Bytes)
    requires Tail(s) == [] && NoLf(partial)
    ensures OneShot(c, x, s + partial) == OneShot(c, x, s)
  {
    FoldAppend(c, x, s, partial, INITIAL);
    assert [] + partial == partial;
  }

  // ---- What already happened does not influence what happens next ----

  function Rebase(events: seq<Event>, ignored: nat, p: Progress): Progress {
    p.(events := events + p.events, ignored := ignored + p.ignored)
  }

  function RebaseResult(events: seq<Event>, ignored: nat, r: Result<Progress, ReadError>): Result<Progress, ReadError> {
    match r case Err(e) => Err(e) case Ok(q) => Ok(Rebase(events, ignored, q))
  }

  lemma StepMessageRebase(c: Codec, p: Progress, isEvent: bool, payload: Option<Payload>, es: seq<Event>, k: nat)
    ensures StepMessage(c, Rebase(es, k, p), isEvent, payload) == RebaseResult(es, k, StepMessage(c, p, isEvent, payload))
  {
    hide StepActivity, Attribute;
    if payload.Some? {
      var m := Attribute(p.session, p.turn, payload.value);
      if m.Ok? && c.normalize(isEvent, m.value).Visible? {
        var event := c.normalize(isEvent, m.value).event;
        assert (es + p.events) + [event] == es + (p.events + [event]);
      }
    }
  }

  lemma StepRecordRebase(c: Codec, x: Option<string>, p: Progress, record: Record, es: seq<Event>, k: nat)
    ensures StepRecord(c, x, Rebase(es, k, p), record) == RebaseResult(es, k, StepRecord(c, x, p, record))
  {
    hide StepMessage, Trusted;
    if record.Message? {
      StepMessageRebase(c, p, record.isEvent, record.payload, es, k);
    }
  }

  lemma {:induction false} StepRebase(c: Codec, x: Option<string>, p: Progress, raw: Bytes, es: seq<Event>, k: nat)
    ensures Step(c, x, Rebase(es, k, p), raw) == RebaseResult(es, k, Step(c, x, p, raw))
  {
    hide StepRecord, Body;
    StepRecordRebase(c, x, p, c.classify(Body(raw)), es, k);
  }

  lemma {:induction false} FoldRebase(c: Codec, x: Option<string>, s: Bytes, p: Progress, es: seq<Event>, k: nat)
    ensures Fold(c, x, s, Rebase(es, k, p)) == RebaseResult(es, k, Fold(c, x, s, p))
    decreases |s|
  {
    hide Step, RecordLength;
    var n := RecordLength(s);
    if n > 0 {
      StepRebase(c, x, p, s[..n], es, k);
      var next := Step(c, x, p, s[..n]);
      if next.Ok? {
        FoldRebase(c, x, s[n..], next.value, es, k);
      }
    }
  }

  // ---- Facts about every state a pass from the start can reach ----

  /** Session fields are a function of the version alone when the expected thread is fixed. */
  predicate Settled(c: Codec, thread: string, p: Progress) {
    && (p.verified <==> p.version in c.supported)
    && (p.verified ==> p.session == Some(thread))
    && (!p.verified ==> p.session == None && p.version == UNVERIFIED && p.events == [])
    && (p.offset == 0 ==> p == INITIAL)
    && (p.offset > 0 ==> p.lastHash.Some?)
    && p.lastHash != Some("")
  }

  lemma StepSettled(c: Codec, thread: string, p: Progress, raw: Bytes)
    requires ValidCodec(c) && raw != [] && Settled(c, thread, p)
    ensures Step(c, Some(thread), p, raw).Ok? ==> Settled(c, thread, Step(c, Some(thread), p, raw).value)
  {
  }

  lemma StepOffset(c: Codec, x: Option<string>, p: Progress, raw: Bytes)
    ensures Step(c, x, p, raw).Ok? ==> Step(c, x, p, raw).value.offset == p.offset + |raw|
  {
    hide StepRecord, TrimRight;
  }

  lemma {:induction false} FoldSettled(c: Codec, thread: string, s: Bytes, p: Progress)
    requires ValidCodec(c) && Settled(c, thread, p)
    ensures Fold(c, Some(thread), s, p).Ok? ==>
              && Settled(c, thread, Fold(c, Some(thread), s, p).value)
              && Fold(c, Some(thread), s, p).value.offset == p.offset + |s| - |Tail(s)|
    decreases |s|
  {
    hide Step, RecordLength, Settled;
    var n := RecordLength(s);
    if n > 0 {
      StepOffset(c, Some(thread), p, s[..n]);
      StepSettled(c, thread, p, s[..n]);
      var next := Step(c, Some(thread), p, s[..n]);
      if next.Ok? {
        FoldSettled(c, thread, s[n..], next.value);
      }
    }
  }

  /** The hash kept by a pass is the hash of the last complete record. */
  lemma {:induction false} FoldLastHash(c: Codec, x: Option<string>, s: Bytes, p: Progress)
    requires s != [] && Tail(s) == [] && Fold(c, x, s, p).Ok?
    ensures Fold(c, x, s, p).value.lastHash == Some(c.hash(Body(LastRecord(s))))
    decreases |s|
  {
    var n := RecordLength(s);
    assert s[..|s|] == s;
    if n < |s| {
      FoldLastHash(c, x, s[n..], Step(c, x, p, s[..n]).value);
    }
  }

  lemma RecoverStepAgrees(c: Codec, x: Option<string>, p: Progress, raw: Bytes)
    requires ValidCodec(c) && Step(c, x, p, raw).Ok?
    ensures RecoverStep(c, TurnState(p.turn, p.active), raw) ==
            if Body(raw) == [] then Err(InvalidBeforeCursor)
            else var q := Step(c, x, p, raw).value; Ok(TurnState(q.turn, q.active))
  {
  }

  /**
   The restart scan rebuilds exactly the turn state of the committed records when none of
   them is blank, and fails when one of them is.
   */
  lemma {:induction false} RecoverAgrees(c: Codec, x: Option<string>, s: Bytes, more: Bytes, p: Progress)
    requires ValidCodec(c) && Tail(s) == [] && Fold(c, x, s, p).Ok?
    ensures Recover(c, s + more, |s|, TurnState(p.turn, p.active)) ==
            if HasBlank(s) then Err(InvalidBeforeCursor)
            else var q := Fold(c, x, s, p).value; Ok(TurnState(q.turn, q.active))
    decreases |s|
  {
    hide *;
    var n := RecordLength(s);
    UnfoldFold(c, x, s, p);
    UnfoldRecords(s);
    if n == 0 {
      assert Recover(c, s + more, |s|, TurnState(p.turn, p.active)) == Ok(TurnState(p.turn, p.active)) by {
        RecoverNothing(c, s + more, TurnState(p.turn, p.active));
      }
    } else {
      RecordLengthAppend(s, more);
      assert (s + more)[..n] == s[..n];
      assert (s + more)[n..] == s[n..] + more;
      UnfoldRecover(c, s + more, |s|, TurnState(p.turn, p.active));
      RecoverStepAgrees(c, x, p, s[..n]);
      RecoverAgrees(c, x, s[n..], more, Step(c, x, p, s[..n]).value);
    }
  }

  lemma RecoverNothing(c: Codec, rest: Bytes, t: TurnState)
    ensures Recover(c, rest, 0, t) == Ok(t)
  {
  }
}
