/** Every answer that goes out is somebody's decision, made in time and in the pinned context. */
module ApprovalDecisions {
  import opened Approvals
  import opened Options

  /** The eleven values that a decision has to agree with. */
  predicate SameContext(a: Context, b: Context) {
    && a.tenant == b.tenant && a.app == b.app && a.chat == b.chat && a.card == b.card
    && a.bindingEpoch == b.bindingEpoch && a.identityEpoch == b.identityEpoch && a.killGeneration == b.killGeneration
    && a.serverEpoch == b.serverEpoch && a.connectionEpoch == b.connectionEpoch && a.session == b.session
    && a.fencingToken == b.fencingToken
  }

  /** A decision succeeds exactly for an open approval, in time, in the pinned context, and if it was offered. */
  lemma CommitSucceedsIff(t: Tables, token: string, decision: string, context: Context, now: int)
    ensures CommitCardAction(t, token, decision, context, now).Ok? <==>
            && token in t.actions && !t.actions[token].consumed && now < t.actions[token].expires
            && SameContext(t.actions[token].context, context) && decision in t.actions[token].decisions
            && t.actions[token].subject.approval in t.requests && t.requests[t.actions[token].subject.approval].state.Issued?
  {
  }

  /** Why a decision fails, each error exactly when it is the one reported. */
  lemma CommitErrors(t: Tables, token: string, decision: string, context: Context, now: int)
    ensures var r := CommitCardAction(t, token, decision, context, now);
            && (r == Err(BadToken) <==> token !in t.actions || t.actions[token].consumed)
            && (token in t.actions && !t.actions[token].consumed ==>
                  var row := t.actions[token];
                  && (r == Err(TokenExpired) <==> now >= row.expires)
                  && (r == Err(ContextMismatch) <==> now < row.expires && !SameContext(row.context, context))
                  && (r == Err(DecisionNotOffered) <==>
                        now < row.expires && SameContext(row.context, context) && decision !in row.decisions)
                  && (r == Err(StateLost) <==>
                        && now < row.expires && SameContext(row.context, context) && decision in row.decisions
                        && (row.subject.approval in t.requests ==> t.requests[row.subject.approval].state != Issued)))
  {
  }

  /** The card that a token was delivered on after its issue. */
  function CardAfter(actions: seq<Action>, token: string, issued: string): string {
    if actions == [] then issued
    else
      var last := actions[|actions| - 1];
      if last.DeliverCard? && last.token == token then last.card else CardAfter(actions[..|actions| - 1], token, issued)
  }

  /** The j-th action issued the row, and cards were delivered as the actions after it say. */
  ghost predicate IssuedAt(actions: seq<Action>, j: nat, token: string, row: ActionRow) {
    && j < |actions| && actions[j].IssueOne? && actions[j].token == token
    && row.subject == actions[j].subject && row.decisions == actions[j].decisions
    && row.expires == actions[j].now + actions[j].ttl
    && row.context == actions[j].context.(card := CardAfter(actions[j + 1..], token, actions[j].context.card))
  }

  /** Every action row tells its issue. */
  ghost predicate WasIssued(actions: seq<Action>, token: string, row: ActionRow) {
    exists j: nat :: IssuedAt(actions, j, token, row)
  }

  /** A row after one action: issued by it, or the row before, with the card that the action delivered. */
  ghost predicate RowComesFrom(w: World, a: Action, token: string, row: ActionRow) {
    || (&& a.IssueOne? && a.token == token && row.subject == a.subject && row.decisions == a.decisions
        && row.expires == a.now + a.ttl && row.context == a.context)
    || (&& token in w.tables.actions
        && var before := w.tables.actions[token];
           && row.subject == before.subject && row.decisions == before.decisions && row.expires == before.expires
           && row.context == if a.DeliverCard? && a.token == token then before.context.(card := a.card) else before.context)
  }

  lemma IssuedRow(setup: Setup, w: World, a: Action, token: string)
    requires a.IssueOne? && token in Next(setup, w, a).tables.actions
    ensures RowComesFrom(w, a, token, Next(setup, w, a).tables.actions[token])
  {
  }

  lemma CommittedRow(setup: Setup, w: World, a: Action, token: string)
    requires a.CommitOne? && token in Next(setup, w, a).tables.actions
    ensures RowComesFrom(w, a, token, Next(setup, w, a).tables.actions[token])
  {
  }

  lemma NextRow(setup: Setup, w: World, a: Action, token: string)
    requires token in Next(setup, w, a).tables.actions
    ensures RowComesFrom(w, a, token, Next(setup, w, a).tables.actions[token])
  {
    if a.IssueOne? {
      hide *;
      IssuedRow(setup, w, a, token);
    } else if a.CommitOne? {
      hide *;
      CommittedRow(setup, w, a, token);
    } else {
      hide Issue, CommitCardAction, Stopped;
    }
  }

  lemma {:induction false} RowsTellTheirIssue(setup: Setup, w0: World, actions: seq<Action>, token: string)
    requires Initial(w0) && token in Run(setup, w0, actions).tables.actions
    ensures WasIssued(actions, token, Run(setup, w0, actions).tables.actions[token])
    decreases |actions|
  {
    hide Next, Run;
    NoRows(setup, w0);
    assert actions != [];
    var init, last := actions[..|actions| - 1], actions[|actions| - 1];
    assert actions == init + [last];
    RunSnoc(setup, w0, init, last);
    var row := Run(setup, w0, actions).tables.actions[token];
    NextRow(setup, Run(setup, w0, init), last, token);
    if token in Run(setup, w0, init).tables.actions {
      RowsTellTheirIssue(setup, w0, init, token);
      var before := Run(setup, w0, init).tables.actions[token];
      var j: nat :| IssuedAt(init, j, token, before);
      var later := actions[j + 1..];
      assert later[..|later| - 1] == init[j + 1..] && later[|later| - 1] == last;
      if row.context == (if last.DeliverCard? && last.token == token then before.context.(card := last.card) else before.context)
         && row.subject == before.subject && row.decisions == before.decisions && row.expires == before.expires {
        assert IssuedAt(actions, j, token, row);
      } else {
        IssuedLast(init, last, token, row);
      }
    } else {
      IssuedLast(init, last, token, row);
    }
  }

  lemma IssuedLast(init: seq<Action>, last: Action, token: string, row: ActionRow)
    requires last.IssueOne? && last.token == token && row.subject == last.subject && row.decisions == last.decisions
    requires row.expires == last.now + last.ttl && row.context == last.context
    ensures WasIssued(init + [last], token, row)
  {
    assert (init + [last])[|init| + 1..] == [];
    assert IssuedAt(init + [last], |init|, token, row);
  }

  /**
   The i-th action decided the approval: a decision offered by the issue at j, made before that issue's time ran
   out and in its context, on the card it was last delivered on; response is the answer to it.
   */
  ghost predicate DecidedAt(setup: Setup, actions: seq<Action>, j: nat, i: nat, approval: string, response: string) {
    && j < i < |actions| && actions[j].IssueOne? && actions[i].CommitOne? && actions[i].token == actions[j].token
    && actions[j].subject.approval == approval
    && actions[i].now < actions[j].now + actions[j].ttl
    && SameContext(actions[i].context,
                   actions[j].context.(card := CardAfter(actions[j + 1..i], actions[j].token, actions[j].context.card)))
    && actions[i].decision in actions[j].decisions
    && response == setup.resolve(actions[j].decisions[actions[i].decision], actions[i].input)
  }

  ghost predicate Decided(setup: Setup, actions: seq<Action>, approval: string, response: string) {
    exists j: nat, i: nat :: DecidedAt(setup, actions, j, i, approval, response)
  }

  lemma DecidedStays(setup: Setup, init: seq<Action>, last: Action, approval: string, response: string)
    requires Decided(setup, init, approval, response)
    ensures Decided(setup, init + [last], approval, response)
  {
    var j: nat, i: nat :| DecidedAt(setup, init, j, i, approval, response);
    assert (init + [last])[j + 1..i] == init[j + 1..i];
    assert DecidedAt(setup, init + [last], j, i, approval, response);
  }

  lemma DecidedLast(setup: Setup, w0: World, init: seq<Action>, a: Action)
    requires Initial(w0) && a.CommitOne?
    requires CommitCardAction(Run(setup, w0, init).tables, a.token, a.decision, a.context, a.now).Ok?
    ensures var row := Run(setup, w0, init).tables.actions[a.token];
            Decided(setup, init + [a], row.subject.approval, setup.resolve(row.decisions[a.decision], a.input))
  {
    hide Run, Next, Initial;
    var t := Run(setup, w0, init).tables;
    CommitSucceedsIff(t, a.token, a.decision, a.context, a.now);
    RowsTellTheirIssue(setup, w0, init, a.token);
    var row := t.actions[a.token];
    var j: nat :| IssuedAt(init, j, a.token, row);
    assert (init + [a])[j + 1..|init|] == init[j + 1..];
    assert DecidedAt(setup, init + [a], j, |init|, row.subject.approval, setup.resolve(row.decisions[a.decision], a.input));
  }

  /** What is on its way out, or out, was decided. */
  ghost predicate AllDecided(setup: Setup, actions: seq<Action>, w: World) {
    && (forall x :: x in w.threads && !w.threads[x].Responded? ==>
          Decided(setup, actions, w.threads[x].approval, w.threads[x].response))
    && (forall k :: 0 <= k < |w.wire| ==> Decided(setup, actions, w.wire[k].approval, w.wire[k].response))
  }

  lemma {:induction false} RunsAreDecided(setup: Setup, w0: World, actions: seq<Action>)
    requires Initial(w0)
    ensures AllDecided(setup, actions, Run(setup, w0, actions))
    decreases |actions|
  {
    hide Run, Decided, Issue, CommitCardAction, CommitExactResponse, RecordResult, ObserveResolved, HardStop;
    if actions == [] {
      NothingOnTheWay(setup, w0);
    } else {
      var init, a := actions[..|actions| - 1], actions[|actions| - 1];
      assert actions == init + [a];
      RunSnoc(setup, w0, init, a);
      RunsAreDecided(setup, w0, init);
      var w, w' := Run(setup, w0, init), Run(setup, w0, actions);
      if a.CommitOne? && CommitCardAction(w.tables, a.token, a.decision, a.context, a.now).Ok? {
        DecidedLast(setup, w0, init, a);
      }
      forall x | x in w'.threads && !w'.threads[x].Responded?
        ensures Decided(setup, actions, w'.threads[x].approval, w'.threads[x].response)
      {
        if x in w.threads { DecidedIfSame(setup, init, a, w.threads[x]); }
      }
      forall k | 0 <= k < |w'.wire| ensures Decided(setup, actions, w'.wire[k].approval, w'.wire[k].response) {
        if k < |w.wire| {
          DecidedStays(setup, init, a, w.wire[k].approval, w.wire[k].response);
        } else {
          DecidedIfSame(setup, init, a, w.threads[a.thread]);
        }
      }
    }
  }

  lemma DecidedIfSame(setup: Setup, init: seq<Action>, a: Action, p: Progress)
    requires !p.Responded? ==> Decided(setup, init, p.approval, p.response)
    ensures !p.Responded? ==> Decided(setup, init + [a], p.approval, p.response)
  {
    if !p.Responded? { DecidedStays(setup, init, a, p.approval, p.response); }
  }

  lemma NothingOnTheWay(setup: Setup, w0: World)
    requires Initial(w0)
    ensures Run(setup, w0, []).threads == map[] && Run(setup, w0, []).wire == []
  {
  }

  /** In every run each response that went out answers one action that decided its approval in time and in its context. */
  lemma ResponsesWereDecided(setup: Setup, w0: World, actions: seq<Action>, k: nat)
    requires Initial(w0) && k < |Run(setup, w0, actions).wire|
    ensures var m := Run(setup, w0, actions).wire[k];
            exists j: nat, i: nat :: DecidedAt(setup, actions, j, i, m.approval, m.response)
  {
    hide Run, Next;
    RunsAreDecided(setup, w0, actions);
    var m := Run(setup, w0, actions).wire[k];
    assert Decided(setup, actions, m.approval, m.response);
  }
}
