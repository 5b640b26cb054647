/** What becomes of a dispatched message, told from what happened to it and not from the statements that record it. */
module DispatchOutcomes {
  import opened Dispatch
  import opened DispatchRecords
  import opened Options

  /** What the three tables say about one message. */
  datatype Told = Told(record: Option<Record>, attempt: Option<AttemptState>, tombstone: bool)

  ghost function Tell(t: Tables, x: string): Told {
    Told(if x in t.records then Some(t.records[x]) else None,
         if x in t.attempts then Some(t.attempts[x]) else None,
         x in t.tombstones)
  }

  predicate Stands(t: Tables, x: string, states: set<DispatchState>) {
    x in t.records && t.records[x].state in states
  }

  /** A CLI or relay submission of which nothing was heard since it began. */
  predicate Unheard(t: Tables, x: string) {
    x in t.records && t.records[x].state == BytesSending && t.records[x].stage == Sending
    && (t.records[x].path == Cli || t.records[x].path == Relay)
  }

  // ---- What can happen to a message ----

  predicate Begins(w: World, a: Action, x: string) {
    w.loop.Idle? && a.Begin? && a.ingress == x && x !in w.tables.records && x !in w.tables.tombstones
  }

  predicate Sends(w: World, a: Action, x: string) {
    w.loop == AfterInsert(x) && a == Fence(true)
  }

  predicate LosesFence(w: World, a: Action, x: string) {
    w.loop == AfterInsert(x) && a == Fence(false)
  }

  predicate Acknowledges(w: World, a: Action, x: string) {
    w.loop == AfterSubmit(x) && a.Acknowledged? && x in w.tables.records && w.tables.records[x].stage == Sending
  }

  predicate Accepts(w: World, a: Action, x: string) {
    || (w.loop == AfterSubmit(x) && a.Confirm?)
    || (w.loop.Idle? &&
        (|| (a == RecoverAbandoned(x, true) && Unheard(w.tables, x) && w.tables.records[x].path == Cli)
         || (a == Reconcile(x) && Stands(w.tables, x, {OutcomeUnknown}))
         || (a == EchoSeen(x) && Stands(w.tables, x, {BytesSending, Accepted, OutcomeUnknown}))))
  }

  predicate Loses(w: World, a: Action, x: string) {
    w.loop == AfterSubmit(x) && a.LoseOutcome?
  }

  predicate TakesBack(w: World, a: Action, x: string) {
    && Unheard(w.tables, x)
    && (|| (w.loop == AfterSubmit(x) && a.GiveBack?)
        || (w.loop.Idle? && a == RecoverAbandoned(x, false) && w.tables.records[x].path == Cli))
  }

  predicate Completes(w: World, a: Action, x: string) {
    w.loop.Idle? && a == TurnCompleted(x) && Stands(w.tables, x, {Accepted})
  }

  predicate Controls(w: World, a: Action, x: string) {
    w.loop.Idle? && a == ControlDone(x) && (x !in w.tables.records || Stands(w.tables, x, {Accepted, Completed}))
  }

  /** What the tables say about the message afterwards. */
  ghost function Becomes(w: World, a: Action, x: string): Told {
    var now := Tell(w.tables, x);
    if Begins(w, a, x) then Told(Some(Record(a.path, a.request, Prepared, Unsent)), Some(Dispatching), now.tombstone)
    else if now.record.None? then now.(tombstone := now.tombstone || Controls(w, a, x))
    else if Sends(w, a, x) then now.(record := Some(now.record.value.(state := BytesSending, stage := Sending)))
    else if LosesFence(w, a, x) then
      now.(attempt := if now.record.value.path == Queue then Some(AttemptUnknown) else now.attempt)
    else if Acknowledges(w, a, x) then now.(record := Some(now.record.value.(stage := Submitted)))
    else if Accepts(w, a, x) then Told(Some(now.record.value.(state := Accepted)), Some(AttemptAccepted), true)
    else if Loses(w, a, x) then
      now.(record := Some(now.record.value.(state := OutcomeUnknown)),
           attempt := if a.interrupted then now.attempt else Some(AttemptUnknown))
    else if TakesBack(w, a, x) then Told(None, None, now.tombstone)
    else if Completes(w, a, x) then now.(record := Some(now.record.value.(state := Completed)))
    else now
  }

  /** The submissions and take-backs of one step. */
  ghost function Logs(w: World, a: Action): seq<Event> {
    if w.loop.AfterFence? && a.Submit? && w.loop.ingress in w.tables.records then
      [Submission(w.loop.ingress, w.tables.records[w.loop.ingress].path)]
    else if w.loop.AfterSubmit? && TakesBack(w, a, w.loop.ingress) then
      [TakenBack(w.loop.ingress, w.tables.records[w.loop.ingress].path)]
    else if a.RecoverAbandoned? && TakesBack(w, a, a.ingress) then [TakenBack(a.ingress, w.tables.records[a.ingress].path)]
    else []
  }

  /** Where the dispatching call stands afterwards; only an acknowledgement or nothing leaves it where it is. */
  ghost function Goes(w: World, a: Action): Loop {
    if a.Crash? then Idle
    else match w.loop
      case Idle => if a.Begin? && Begins(w, a, a.ingress) then AfterInsert(a.ingress) else Idle
      case AfterInsert(x) => if a == Fence(true) then AfterFence(x) else if a == Fence(false) then Idle else w.loop
      case AfterFence(x) => if a.Submit? then AfterSubmit(x) else w.loop
      case AfterSubmit(x) =>
        if a.Confirm? || a.LoseOutcome? || a.GiveBack? || (a.Acknowledged? && !Acknowledges(w, a, x)) then Idle else w.loop
  }

  /** Records and attempts are accepted together, and nothing was sent of a prepared one. */
  ghost predicate AcceptedTogether(t: Tables, x: string) {
    && (x in t.records && (t.records[x].state.Accepted? || t.records[x].state.Completed?) <==>
          x in t.attempts && t.attempts[x].AttemptAccepted?)
    && (x in t.records && t.records[x].state.OutcomeUnknown? ==> x in t.attempts && !t.attempts[x].AttemptAccepted?)
    && (x in t.records && t.records[x].state.Prepared? ==> t.records[x].stage.Unsent?)
  }

  lemma InvAt(w: World, x: string)
    requires Inv(w)
    ensures RecordInv(w.tables, w.log, x) && LoopInv(w)
  {
  }

  /** The step did to the message what Becomes says, and went and logged what is said for it. */
  ghost predicate StepIsTold(w: World, a: Action, x: string) {
    && Tell(Next(w, a).tables, x) == Becomes(w, a, x)
    && Next(w, a).loop == Goes(w, a) && Next(w, a).log == w.log + Logs(w, a)
    && AcceptedTogether(Next(w, a).tables, x)
  }

  /** One step, for every message. */
  lemma StepTells(w: World, a: Action, x: string)
    requires Inv(w) && AcceptedTogether(w.tables, x)
    ensures StepIsTold(w, a, x)
  {
    hide Inv, RecordInv, AcceptedTogether, StepIsTold;
    InvAt(w, x);
    if a.Crash? {
      CrashTells(w, x);
    } else if w.loop.Idle? {
      match a {
        case Begin(ingress, _, _) => InvAt(w, ingress); BeginTells(w, a, x);
        case RecoverAbandoned(_, _) => RecoverTells(w, a, x);
        case Reconcile(_) => LateTells(w, a, x);
        case EchoSeen(_) => LateTells(w, a, x);
        case TurnCompleted(_) => QuietTells(w, a, x);
        case ControlDone(_) => QuietTells(w, a, x);
        case _ => NothingTells(w, a, x);
      }
    } else {
      InvAt(w, w.loop.ingress);
      if w.loop.AfterInsert? {
        FenceTells(w, a, x);
      } else if w.loop.AfterFence? {
        SubmitTells(w, a, x);
      } else {
        AfterSubmitTells(w, a, x);
      }
    }
  }

  lemma CrashTells(w: World, x: string)
    requires AcceptedTogether(w.tables, x)
    ensures StepIsTold(w, Crash, x)
  {
  }

  lemma BeginTells(w: World, a: Action, x: string)
    requires AcceptedTogether(w.tables, x) && w.loop.Idle? && a.Begin?
    requires RecordInv(w.tables, w.log, x) && RecordInv(w.tables, w.log, a.ingress)
    ensures StepIsTold(w, a, x)
  {
    hide Live;
  }

  lemma RecoverTells(w: World, a: Action, x: string)
    requires AcceptedTogether(w.tables, x) && w.loop.Idle? && a.RecoverAbandoned? && RecordInv(w.tables, w.log, x)
    ensures StepIsTold(w, a, x)
  {
    hide Live;
  }

  lemma LateTells(w: World, a: Action, x: string)
    requires AcceptedTogether(w.tables, x) && w.loop.Idle? && (a.Reconcile? || a.EchoSeen?) && RecordInv(w.tables, w.log, x)
    ensures StepIsTold(w, a, x)
  {
    hide Live, RollBack;
  }

  lemma QuietTells(w: World, a: Action, x: string)
    requires AcceptedTogether(w.tables, x) && w.loop.Idle? && (a.TurnCompleted? || a.ControlDone?) && RecordInv(w.tables, w.log, x)
    ensures StepIsTold(w, a, x)
  {
    hide Live, RollBack;
  }

  lemma NothingTells(w: World, a: Action, x: string)
    requires AcceptedTogether(w.tables, x) && w.loop.Idle?
    requires a.Fence? || a.Submit? || a.Acknowledged? || a.Confirm? || a.LoseOutcome? || a.GiveBack?
    ensures StepIsTold(w, a, x)
  {
  }

  lemma FenceTells(w: World, a: Action, x: string)
    requires AcceptedTogether(w.tables, x) && w.loop.AfterInsert? && !a.Crash? && RecordInv(w.tables, w.log, x)
    requires LoopInv(w) && RecordInv(w.tables, w.log, w.loop.ingress)
    ensures StepIsTold(w, a, x)
  {
    hide Live, RollBack;
  }

  lemma SubmitTells(w: World, a: Action, x: string)
    requires AcceptedTogether(w.tables, x) && w.loop.AfterFence? && !a.Crash? && LoopInv(w)
    ensures StepIsTold(w, a, x)
  {
    hide Live, RollBack;
  }

  lemma AfterSubmitTells(w: World, a: Action, x: string)
    requires AcceptedTogether(w.tables, x) && w.loop.AfterSubmit? && !a.Crash? && RecordInv(w.tables, w.log, x)
    requires LoopInv(w) && RecordInv(w.tables, w.log, w.loop.ingress)
    ensures StepIsTold(w, a, x)
  {
    hide Live;
  }

  lemma {:induction false} RunTells(actions: seq<Action>, x: string)
    ensures Inv(Run(START, actions)) && AcceptedTogether(Run(START, actions).tables, x)
    decreases |actions|
  {
    hide Run, Next, Inv, AcceptedTogether, StepIsTold;
    StartInv();
    RunKeepsInv(START, actions);
    if actions == [] {
      StartTells(x);
    } else {
      var init, last := actions[..|actions| - 1], actions[|actions| - 1];
      RunTells(init, x);
      StepTells(Run(START, init), last, x);
      assert actions == init + [last];
      RunSnoc(START, init, last);
      StepKeepsTogether(Run(START, init), last, x);
    }
  }

  lemma StepKeepsTogether(w: World, a: Action, x: string)
    requires StepIsTold(w, a, x)
    ensures AcceptedTogether(Next(w, a).tables, x)
  {
  }

  lemma StartTells(x: string)
    ensures AcceptedTogether(Run(START, []).tables, x) && Tell(Run(START, []).tables, x) == Told(None, None, false)
    ensures Run(START, []) == START
  {
  }

  lemma {:induction false} RunSnoc(w: World, actions: seq<Action>, a: Action)
    ensures Run(w, actions + [a]) == Next(Run(w, actions), a)
    decreases |actions|
  {
    hide Next;
    if actions == [] {
      assert [] + [a] == [a];
      assert Run(Next(w, a), []) == Next(w, a);
    } else {
      assert (actions + [a])[1..] == actions[1..] + [a];
      RunSnoc(Next(w, actions[0]), actions[1..], a);
    }
  }

  // ---- Whole runs ----

  /** The state that the i-th action of the run meets. */
  ghost function At(actions: seq<Action>, i: nat): World
    requires i <= |actions|
  {
    Run(START, actions[..i])
  }

  /** From one prefix of the run to the next. */
  lemma StepAt(actions: seq<Action>, i: nat, x: string)
    requires i < |actions|
    ensures Tell(At(actions, i + 1).tables, x) == Becomes(At(actions, i), actions[i], x)
    ensures At(actions, i + 1).loop == Goes(At(actions, i), actions[i])
    ensures At(actions, i + 1).log == At(actions, i).log + Logs(At(actions, i), actions[i])
    ensures Inv(At(actions, i)) && AcceptedTogether(At(actions, i).tables, x)
  {
    hide Run, Next, Inv, AcceptedTogether, Becomes, Goes, Logs, Tell;
    assert actions[..i + 1] == actions[..i] + [actions[i]];
    RunTells(actions[..i], x);
    RunSnoc(START, actions[..i], actions[i]);
    StepTells(At(actions, i), actions[i], x);
  }

  lemma BeginsEmpty(actions: seq<Action>, x: string)
    ensures Tell(At(actions, 0).tables, x) == Told(None, None, false) && At(actions, 0).loop == Idle && At(actions, 0).log == []
  {
    assert actions[..0] == [];
  }

  ghost predicate Settled(t: Tables, x: string) {
    Stands(t, x, {Accepted, Completed})
  }

  /**
   In every run a message is accepted or completed exactly when one of its actions accepted it, completed exactly
   when its turn was then seen to end, and its attempt is accepted exactly then.
   */
  lemma {:induction false} SettledIff(actions: seq<Action>, n: nat, x: string)
    requires n <= |actions|
    ensures Settled(At(actions, n).tables, x) <==> exists i: nat :: i < n && Accepts(At(actions, i), actions[i], x)
    ensures Stands(At(actions, n).tables, x, {Completed}) <==> exists i: nat :: i < n && Completes(At(actions, i), actions[i], x)
    decreases n
  {
    hide Run, Inv, AcceptedTogether, Logs, Goes;
    if n == 0 {
      BeginsEmpty(actions, x);
    } else {
      SettledIff(actions, n - 1, x);
      StepAt(actions, n - 1, x);
      SettlesOnce(At(actions, n - 1), actions[n - 1], x);
    }
  }

  lemma SettlesOnce(w: World, a: Action, x: string)
    requires Inv(w)
    ensures var now := Becomes(w, a, x).record;
            && (now.Some? && now.value.state in {Accepted, Completed} <==> Accepts(w, a, x) || Settled(w.tables, x))
            && (now.Some? && now.value.state == Completed <==> Completes(w, a, x) || Stands(w.tables, x, {Completed}))
  {
    hide Live, Alternates;
    InvAt(w, x);
    if !w.loop.Idle? { InvAt(w, w.loop.ingress); }
  }

  /** Its outcome is unknown exactly when it was lost, and nothing accepted the message since. */
  lemma {:induction false} UnknownIff(actions: seq<Action>, n: nat, x: string)
    requires n <= |actions|
    ensures Stands(At(actions, n).tables, x, {OutcomeUnknown}) <==>
            !Settled(At(actions, n).tables, x) && exists i: nat :: i < n && Loses(At(actions, i), actions[i], x)
    decreases n
  {
    hide Run, Inv, AcceptedTogether, Logs, Goes;
    if n == 0 {
      BeginsEmpty(actions, x);
    } else {
      UnknownIff(actions, n - 1, x);
      StepAt(actions, n - 1, x);
      LosesOnce(At(actions, n - 1), actions[n - 1], x);
    }
  }

  lemma LosesOnce(w: World, a: Action, x: string)
    requires Inv(w)
    ensures var now := Becomes(w, a, x).record;
            && (now.Some? && now.value.state == OutcomeUnknown <==>
                  Loses(w, a, x) || (Stands(w.tables, x, {OutcomeUnknown}) && !Accepts(w, a, x)))
            && (now.Some? && now.value.state in {Accepted, Completed} <==> Accepts(w, a, x) || Settled(w.tables, x))
            && (Loses(w, a, x) ==> !Accepts(w, a, x) && !Settled(w.tables, x))
  {
    hide Live, Alternates;
    InvAt(w, x);
    if !w.loop.Idle? { InvAt(w, w.loop.ingress); }
    SettlesOnce(w, a, x);
  }

  /** There is a record exactly when one was begun and not taken back since. */
  lemma {:induction false} RecordedIff(actions: seq<Action>, n: nat, x: string)
    requires n <= |actions|
    ensures x in At(actions, n).tables.records <==>
            exists i: nat :: i < n && Begins(At(actions, i), actions[i], x) &&
              forall j :: i < j < n ==> !TakesBack(At(actions, j), actions[j], x)
    decreases n
  {
    hide Run, Inv, AcceptedTogether, Logs, Goes, Begins, TakesBack;
    if n == 0 {
      BeginsEmpty(actions, x);
    } else {
      RecordedIff(actions, n - 1, x);
      StepAt(actions, n - 1, x);
      RecordedOnce(At(actions, n - 1), actions[n - 1], x);
      if x in At(actions, n).tables.records {
        if !Begins(At(actions, n - 1), actions[n - 1], x) {
          var i: nat :| i < n - 1 && Begins(At(actions, i), actions[i], x) &&
            forall j :: i < j < n - 1 ==> !TakesBack(At(actions, j), actions[j], x);
          assert forall j :: i < j < n ==> !TakesBack(At(actions, j), actions[j], x);
        }
      }
      if i: nat :| i < n && Begins(At(actions, i), actions[i], x) && forall j :: i < j < n ==> !TakesBack(At(actions, j), actions[j], x) {
        if i < n - 1 {
          assert forall j :: i < j < n - 1 ==> !TakesBack(At(actions, j), actions[j], x);
          assert !TakesBack(At(actions, n - 1), actions[n - 1], x);
        }
      }
    }
  }

  lemma RecordedOnce(w: World, a: Action, x: string)
    requires Inv(w)
    ensures Becomes(w, a, x).record.Some? <==> Begins(w, a, x) || (x in w.tables.records && !TakesBack(w, a, x))
  {
    hide Live, Alternates;
    InvAt(w, x);
    if !w.loop.Idle? { InvAt(w, w.loop.ingress); }
  }

  /** What the App Server acknowledged is never taken back: its record keeps path and request for good. */
  lemma {:induction false} AcknowledgedIsKept(actions: seq<Action>, n: nat, m: nat, x: string)
    requires n <= m <= |actions|
    requires x in At(actions, n).tables.records && At(actions, n).tables.records[x].stage.Submitted?
    ensures var before := At(actions, n).tables.records[x];
            && x in At(actions, m).tables.records
            && At(actions, m).tables.records[x] == before.(state := At(actions, m).tables.records[x].state)
    decreases m
  {
    hide Run, Inv, Logs, Goes;
    if n < m {
      AcknowledgedIsKept(actions, n, m - 1, x);
      StepAt(actions, m - 1, x);
      SubmittedStays(At(actions, m - 1), actions[m - 1], x);
    }
  }

  lemma SubmittedStays(w: World, a: Action, x: string)
    requires Inv(w) && AcceptedTogether(w.tables, x) && x in w.tables.records && w.tables.records[x].stage.Submitted?
    ensures var now := Becomes(w, a, x).record; now.Some? && now.value == w.tables.records[x].(state := now.value.state)
  {
    hide Live, Alternates;
    InvAt(w, x);
    if !w.loop.Idle? { InvAt(w, w.loop.ingress); }
  }

  // ---- Nothing is submitted without the fence ----

  predicate InCall(loop: Loop, x: string) {
    !loop.Idle? && loop.ingress == x
  }

  /** The call for the message that the b-th action began goes on without a break up to n. */
  ghost predicate BegunAt(actions: seq<Action>, b: nat, n: nat, x: string) {
    && b < n <= |actions| && actions[b].Begin? && Begins(At(actions, b), actions[b], x)
    && (forall c: nat :: b < c <= n ==> InCall(At(actions, c).loop, x))
    && x in At(actions, n).tables.records && At(actions, n).tables.records[x].path == actions[b].path
  }

  /** In it, the service held its fence at f. */
  ghost predicate FencedAt(actions: seq<Action>, b: nat, f: nat, n: nat, x: string) {
    BegunAt(actions, b, n, x) && b < f < n && actions[f] == Fence(true)
  }

  ghost predicate LoopTold(actions: seq<Action>, n: nat)
    requires n <= |actions|
  {
    match At(actions, n).loop
    case Idle => true
    case AfterInsert(x) => exists b: nat :: BegunAt(actions, b, n, x)
    case AfterFence(x) => exists b: nat, f: nat :: FencedAt(actions, b, f, n, x)
    case AfterSubmit(x) => exists b: nat, f: nat :: FencedAt(actions, b, f, n, x)
  }

  lemma StaysBegun(actions: seq<Action>, b: nat, n: nat, x: string)
    requires n < |actions| && BegunAt(actions, b, n, x) && InCall(At(actions, n + 1).loop, x)
    ensures BegunAt(actions, b, n + 1, x)
  {
    hide Run, Inv, Logs;
    StepAt(actions, n, x);
    KeptInCall(At(actions, n), actions[n], x);
    forall c: nat | b < c <= n + 1 ensures InCall(At(actions, c).loop, x) {
      if c <= n { assert b < c <= n; }
    }
  }

  lemma KeptInCall(w: World, a: Action, x: string)
    requires Inv(w) && InCall(w.loop, x) && InCall(Goes(w, a), x) && x in w.tables.records
    ensures var now := Becomes(w, a, x).record; now.Some? && now.value.path == w.tables.records[x].path
  {
    hide Live, Alternates;
    InvAt(w, x);
  }

  lemma {:induction false} LoopIsTold(actions: seq<Action>, n: nat)
    requires n <= |actions|
    ensures LoopTold(actions, n)
    decreases n
  {
    hide Run, Inv, Logs, BegunAt, Becomes, AcceptedTogether;
    BeginsEmpty(actions, "");
    if n > 0 {
      LoopIsTold(actions, n - 1);
      var w, a := At(actions, n - 1), actions[n - 1];
      var loop := At(actions, n).loop;
      StepAt(actions, n - 1, "");
      if !loop.Idle? {
        var x := loop.ingress;
        if w.loop.Idle? {
          JustBegun(actions, n, x);
        } else if w.loop.AfterInsert? {
          var b: nat :| BegunAt(actions, b, n - 1, x);
          StaysBegun(actions, b, n - 1, x);
          BegunEarlier(actions, b, n - 1, x);
          if loop.AfterFence? { assert FencedAt(actions, b, n - 1, n, x); }
        } else {
          var b: nat, f: nat :| FencedAt(actions, b, f, n - 1, x);
          StaysBegun(actions, b, n - 1, x);
          assert FencedAt(actions, b, f, n, x);
        }
      }
    }
  }

  lemma BegunEarlier(actions: seq<Action>, b: nat, n: nat, x: string)
    requires BegunAt(actions, b, n, x)
    ensures b < n
  {
  }

  lemma JustBegun(actions: seq<Action>, n: nat, x: string)
    requires 0 < n <= |actions| && At(actions, n - 1).loop.Idle? && InCall(At(actions, n).loop, x)
    ensures BegunAt(actions, n - 1, n, x) && At(actions, n).loop.AfterInsert?
  {
    hide Run, Inv, Logs, AcceptedTogether;
    StepAt(actions, n - 1, x);
  }

  /** The three steps behind the k-th event: begun at b, fenced at f, submitted at s, in one call. */
  ghost predicate SubmittedBy(actions: seq<Action>, b: nat, f: nat, s: nat, x: string, path: Path) {
    s < |actions| && FencedAt(actions, b, f, s, x) && actions[s].Submit? && actions[b].path == path
  }

  /** In every run each submission was begun, and then fenced by a service that held its token, in the call that submitted it. */
  lemma {:induction false} SubmittedUnderFence(actions: seq<Action>, n: nat, k: nat)
    requires n <= |actions| && k < |At(actions, n).log| && At(actions, n).log[k].Submission?
    ensures var e := At(actions, n).log[k];
            exists b: nat, f: nat, s: nat :: s < n && SubmittedBy(actions, b, f, s, e.ingress, e.path)
    decreases n
  {
    hide Run, Inv, BegunAt, Becomes, AcceptedTogether, TakesBack, FencedAt;
    BeginsEmpty(actions, "");
    StepAt(actions, n - 1, "");
    if k < |At(actions, n - 1).log| {
      SubmittedUnderFence(actions, n - 1, k);
    } else {
      LoopIsTold(actions, n - 1);
      var x := At(actions, n - 1).loop.ingress;
      var b: nat, f: nat :| FencedAt(actions, b, f, n - 1, x);
      PathOf(actions, b, f, n - 1, x);
      assert SubmittedBy(actions, b, f, n - 1, x, At(actions, n).log[k].path);
    }
  }

  lemma PathOf(actions: seq<Action>, b: nat, f: nat, n: nat, x: string)
    requires FencedAt(actions, b, f, n, x)
    ensures b < n <= |actions| && actions[b].Begin? && x in At(actions, n).tables.records
    ensures At(actions, n).tables.records[x].path == actions[b].path
  {
  }
}
