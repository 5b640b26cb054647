/** The state of every approval is what the last action on it calls for, told from the actions and who they met. */
module ApprovalStates {
  import opened Approvals
  import opened ApprovalDecisions
  import opened Options

  /** Some token was issued for the server request and the approval. */
  ghost predicate IssuedFor(t: Tables, key: RequestKey, approval: string) {
    exists token :: token in t.actions && t.actions[token].request == key && t.actions[token].subject.approval == approval
  }

  ghost predicate KnownKey(t: Tables, key: RequestKey) {
    exists token :: token in t.actions && t.actions[token].request == key
  }

  ghost predicate StateIn(t: Tables, approval: string, states: set<ApprovalState>) {
    approval in t.requests && t.requests[approval].state in states
  }

  /** The state that the action puts the approval in, if it does anything to it. */
  ghost function Put(w: World, a: Action, approval: string): Option<ApprovalState> {
    var t := w.tables;
    match a
    case IssueOne(token, requestId, subject, context, decisions, ttl, now) =>
      if subject.approval == approval && ttl > 0 && decisions != map[] && approval !in t.requests && token !in t.actions
         && !KnownKey(t, RequestKey(context.serverEpoch, context.connectionEpoch, requestId)) then Some(Issued) else None
    case CommitOne(thread, token, decision, context, input, now) =>
      if token in t.actions && t.actions[token].subject.approval == approval && !t.actions[token].consumed
         && now < t.actions[token].expires && SameContext(t.actions[token].context, context)
         && decision in t.actions[token].decisions && StateIn(t, approval, {Issued}) && thread !in w.threads
      then Some(ActionCommitted) else None
    case Prepare(thread) =>
      if thread in w.threads && w.threads[thread].Committed? && w.threads[thread].approval == approval
         && StateIn(t, approval, {ActionCommitted}) then Some(ResponseSending) else None
    case Record(thread, accepted) =>
      if thread in w.threads && w.threads[thread].Responded? && w.threads[thread].approval == approval
         && StateIn(t, approval, {ResponseSending})
      then Some(match accepted case None => OutcomeUnknown case Some(yes) => if yes then Resolved else Rejected) else None
    case Observe(key) =>
      if IssuedFor(t, key, approval) && StateIn(t, approval, {ResponseSending, OutcomeUnknown}) then Some(Resolved) else None
    case Stop => if StateIn(t, approval, {Issued, ActionCommitted}) then Some(Cancelled) else None
    case _ => None
  }

  ghost function StateOf(t: Tables, approval: string): Option<ApprovalState> {
    if approval in t.requests then Some(t.requests[approval].state) else None
  }

  lemma KnownKeyIff(t: Tables, key: RequestKey)
    requires KeyInv(t)
    ensures KnownKey(t, key) <==> key in t.byRequest && t.byRequest[key] in t.actions
    ensures KnownKey(t, key) ==>
              forall approval :: IssuedFor(t, key, approval) <==> t.actions[t.byRequest[key]].subject.approval == approval
    ensures !KnownKey(t, key) ==> forall approval :: !IssuedFor(t, key, approval)
  {
    if key in t.byRequest && t.byRequest[key] in t.actions {
      assert t.actions[t.byRequest[key]].request == key;
    }
  }

  /** One action brings every approval where Put says, and leaves it where it is otherwise. */
  lemma StepPuts(setup: Setup, w: World, a: Action, approval: string)
    requires Inv(setup, w) && KeyInv(w.tables)
    ensures StateOf(Next(setup, w, a).tables, approval) ==
            if Put(w, a, approval).Some? then Put(w, a, approval) else StateOf(w.tables, approval)
  {
    hide KeyInv, KnownKey, IssuedFor, Inv, SameContext;
    match a {
      case IssueOne(_, requestId, _, context, _, _, _) => KnownKeyIff(w.tables, RequestKeyOf(context, requestId));
      case CommitOne(_, token, decision, context, _, now) => CommitPuts(setup, w, a, approval);
      case Prepare(thread) =>
        if thread in w.threads && w.threads[thread].Committed? { NoHashYet(setup, w, w.threads[thread].approval); }
      case Record(thread, _) =>
        if thread in w.threads && w.threads[thread].Responded? { HashThere(setup, w, thread); }
      case Observe(key) => KnownKeyIff(w.tables, key);
      case _ =>
    }
  }

  lemma CommitPuts(setup: Setup, w: World, a: Action, approval: string)
    requires a.CommitOne?
    ensures StateOf(Next(setup, w, a).tables, approval) ==
            if Put(w, a, approval).Some? then Put(w, a, approval) else StateOf(w.tables, approval)
  {
    CommitSucceedsIff(w.tables, a.token, a.decision, a.context, a.now);
  }

  lemma NoHashYet(setup: Setup, w: World, approval: string)
    requires Inv(setup, w)
    ensures approval in w.tables.requests && w.tables.requests[approval].state.ActionCommitted? ==>
              w.tables.requests[approval].responseHash.None?
  {
  }

  lemma HashThere(setup: Setup, w: World, thread: nat)
    requires Inv(setup, w) && thread in w.threads && w.threads[thread].Responded?
    ensures w.threads[thread].approval in w.tables.requests && w.tables.requests[w.threads[thread].approval].responseHash.Some?
  {
    assert ThreadInv(setup, w.tables, w.threads[thread]);
  }

  // ---- Over whole runs ----

  /** What the i-th action of the run does to the approval. */
  ghost function PutAt(setup: Setup, w0: World, actions: seq<Action>, i: nat, approval: string): Option<ApprovalState>
    requires i < |actions|
  {
    Put(Run(setup, w0, actions[..i]), actions[i], approval)
  }

  /** The state of the last action that did something to the approval. */
  ghost function LastPut(setup: Setup, w0: World, actions: seq<Action>, n: nat, approval: string): Option<ApprovalState>
    requires n <= |actions|
  {
    if n == 0 then None
    else if PutAt(setup, w0, actions, n - 1, approval).Some? then PutAt(setup, w0, actions, n - 1, approval)
    else LastPut(setup, w0, actions, n - 1, approval)
  }

  lemma {:induction false} LastPutDecides(setup: Setup, w0: World, actions: seq<Action>, n: nat, approval: string)
    requires Initial(w0) && n <= |actions|
    ensures StateOf(Run(setup, w0, actions[..n]).tables, approval) == LastPut(setup, w0, actions, n, approval)
    decreases n
  {
    hide Put, StateOf, Run, Inv, KeyInv;
    BeginsSound(setup, w0);
    if n == 0 {
      assert actions[..0] == [];
      NothingPut(setup, w0, approval);
    } else {
      LastPutDecides(setup, w0, actions, n - 1, approval);
      assert actions[..n] == actions[..n - 1] + [actions[n - 1]];
      RunSnoc(setup, w0, actions[..n - 1], actions[n - 1]);
      RunKeepsInv(setup, w0, actions[..n - 1]);
      RunKeepsKeys(setup, w0, actions[..n - 1]);
      StepPuts(setup, Run(setup, w0, actions[..n - 1]), actions[n - 1], approval);
    }
  }

  lemma BeginsSound(setup: Setup, w0: World)
    requires Initial(w0)
    ensures Inv(setup, w0) && KeyInv(w0.tables)
  {
  }

  lemma NothingPut(setup: Setup, w0: World, approval: string)
    requires Initial(w0)
    ensures StateOf(Run(setup, w0, []).tables, approval) == None
  {
  }

  predicate Final(s: ApprovalState) {
    s.Resolved? || s.Rejected? || s.Cancelled?
  }

  lemma FinalIsLast(w: World, a: Action, approval: string, s: ApprovalState)
    requires Final(s) && StateOf(w.tables, approval) == Some(s)
    ensures Put(w, a, approval).None?
  {
  }

  lemma {:induction false} FinalStays(setup: Setup, w0: World, actions: seq<Action>, i: nat, n: nat, approval: string, s: ApprovalState)
    requires Initial(w0) && i < n <= |actions| && Final(s) && PutAt(setup, w0, actions, i, approval) == Some(s)
    ensures LastPut(setup, w0, actions, n, approval) == Some(s)
    decreases n
  {
    hide Put, StateOf, Run, Initial;
    if n > i + 1 {
      FinalStays(setup, w0, actions, i, n - 1, approval, s);
      LastPutDecides(setup, w0, actions, n - 1, approval);
      FinalIsLast(Run(setup, w0, actions[..n - 1]), actions[n - 1], approval, s);
    }
  }

  lemma {:induction false} LastWasPut(setup: Setup, w0: World, actions: seq<Action>, n: nat, approval: string)
    requires n <= |actions| && LastPut(setup, w0, actions, n, approval).Some?
    ensures exists i: nat :: i < n && PutAt(setup, w0, actions, i, approval) == LastPut(setup, w0, actions, n, approval)
    decreases n
  {
    hide Put, Run;
    if PutAt(setup, w0, actions, n - 1, approval).None? {
      LastWasPut(setup, w0, actions, n - 1, approval);
    }
  }

  /** An approval ends resolved, rejected or cancelled exactly when some action of the run put it there. */
  lemma EndsIff(setup: Setup, w0: World, actions: seq<Action>, approval: string, s: ApprovalState)
    requires Initial(w0) && Final(s)
    ensures StateOf(Run(setup, w0, actions).tables, approval) == Some(s) <==>
            exists i: nat :: i < |actions| && PutAt(setup, w0, actions, i, approval) == Some(s)
  {
    hide Put, StateOf, Run, Initial;
    assert actions[..|actions|] == actions;
    LastPutDecides(setup, w0, actions, |actions|, approval);
    if i: nat :| i < |actions| && PutAt(setup, w0, actions, i, approval) == Some(s) {
      FinalStays(setup, w0, actions, i, |actions|, approval, s);
    }
    if LastPut(setup, w0, actions, |actions|, approval) == Some(s) {
      LastWasPut(setup, w0, actions, |actions|, approval);
    }
  }

  /** A stop came while the approval waited for a decision or for its answer. */
  ghost predicate StoppedAt(setup: Setup, w0: World, actions: seq<Action>, i: nat, approval: string) {
    && i < |actions| && actions[i].Stop?
    && StateIn(Run(setup, w0, actions[..i]).tables, approval, {Issued, ActionCommitted})
  }

  /** An answer to it that had been sent was refused by the App Server. */
  ghost predicate RefusedAt(setup: Setup, w0: World, actions: seq<Action>, i: nat, approval: string) {
    && i < |actions| && actions[i].Record? && actions[i].accepted == Some(false)
    && AnswerOutstanding(Run(setup, w0, actions[..i]), actions[i].thread, approval)
  }

  ghost predicate AnswerOutstanding(w: World, thread: nat, approval: string) {
    && thread in w.threads && w.threads[thread] == Responded(approval)
    && StateIn(w.tables, approval, {ResponseSending})
  }

  /** An answer was accepted, or the App Server reported its request as resolved while an answer was out. */
  ghost predicate ResolvedAt(setup: Setup, w0: World, actions: seq<Action>, i: nat, approval: string) {
    i < |actions| &&
    var w := Run(setup, w0, actions[..i]);
    || (actions[i].Record? && actions[i].accepted == Some(true) && AnswerOutstanding(w, actions[i].thread, approval))
    || (actions[i].Observe? && IssuedFor(w.tables, actions[i].key, approval)
        && StateIn(w.tables, approval, {ResponseSending, OutcomeUnknown}))
  }

  /** In every run, which approvals end cancelled, rejected and resolved. */
  lemma EndingsTellTheRun(setup: Setup, w0: World, actions: seq<Action>, approval: string)
    requires Initial(w0)
    ensures var state := StateOf(Run(setup, w0, actions).tables, approval);
            && (state == Some(Cancelled) <==> exists i: nat :: StoppedAt(setup, w0, actions, i, approval))
            && (state == Some(Rejected) <==> exists i: nat :: RefusedAt(setup, w0, actions, i, approval))
            && (state == Some(Resolved) <==> exists i: nat :: ResolvedAt(setup, w0, actions, i, approval))
  {
    hide Run, StateOf, StateIn, IssuedFor, KnownKey, SameContext, Initial;
    EndsIff(setup, w0, actions, approval, Cancelled);
    EndsIff(setup, w0, actions, approval, Rejected);
    EndsIff(setup, w0, actions, approval, Resolved);
    forall i: nat | i < |actions|
      ensures PutAt(setup, w0, actions, i, approval) == Some(Cancelled) <==> StoppedAt(setup, w0, actions, i, approval)
      ensures PutAt(setup, w0, actions, i, approval) == Some(Rejected) <==> RefusedAt(setup, w0, actions, i, approval)
      ensures PutAt(setup, w0, actions, i, approval) == Some(Resolved) <==> ResolvedAt(setup, w0, actions, i, approval)
    {
    }
  }

  // ---- Generations ----

  function Stops(actions: seq<Action>): nat {
    if actions == [] then 0 else Stops(actions[..|actions| - 1]) + if actions[|actions| - 1].Stop? then 1 else 0
  }

  /** The kill generation counts the stops. */
  lemma {:induction false} GenerationCountsStops(setup: Setup, w0: World, actions: seq<Action>)
    ensures Run(setup, w0, actions).tables.killGeneration == w0.tables.killGeneration + Stops(actions)
    decreases |actions|
  {
    hide Run, Next;
    if actions == [] {
      NoActions(setup, w0);
    } else {
      var init, last := actions[..|actions| - 1], actions[|actions| - 1];
      assert actions == init + [last];
      GenerationCountsStops(setup, w0, init);
      RunSnoc(setup, w0, init, last);
      GenerationStep(setup, Run(setup, w0, init), last);
    }
  }

  lemma NoActions(setup: Setup, w0: World)
    ensures Run(setup, w0, []) == w0
  {
  }

  lemma GenerationStep(setup: Setup, w: World, a: Action)
    ensures Next(setup, w, a).tables.killGeneration == w.tables.killGeneration + if a.Stop? then 1 else 0
  {
  }
}
