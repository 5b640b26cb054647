/** What the provider is sent: when, and with which content, told from what was enqueued and uploaded. */
module OutboxDeliveries {
  import opened Options
  import opened OutboxCards
  import opened Outbox
  import opened OutboxRuns
  import opened OutboxOutcomes

  // ---- The content of a send ----

  /** The content carries the body: its text, its key, or its elements one by one, images under their keys. */
  ghost predicate Carries(content: Content, body: Body) {
    match body
    case PlainText(text) => content == SentText(text)
    case ImageFile(key) => key.Some? && content == SentKey(key.value)
    case AttachedFile(key) => key.Some? && content == SentKey(key.value)
    case Card(elements, keys) => content.SentCard? && CarriesCard(content.elements, elements, keys)
  }

  ghost predicate CarriesCard(sent: seq<SentElement>, elements: seq<Element>, keys: seq<Option<string>>) {
    && |sent| == |elements|
    && forall k :: 0 <= k < |elements| ==> CarriesElement(sent[k], elements[k], keys)
  }

  predicate CarriesElement(sent: SentElement, element: Element, keys: seq<Option<string>>) {
    match element
    case Words(text) => sent == SentWords(text)
    case Slot(n) => 1 <= n <= |keys| && keys[n - 1].Some? && sent == SentImage(keys[n - 1].value)
  }

  lemma OutgoingCarries(body: Body)
    requires NextUpload(body).None? && Outgoing(body).Some?
    ensures Carries(Outgoing(body).value, body)
  {
    hide Fill;
    if body.Card? {
      var sent := Fill(body.elements, body.keys).value;
      forall k | 0 <= k < |body.elements| ensures |sent| == |body.elements| && CarriesElement(sent[k], body.elements[k], body.keys) {
        FilledElementwise(body.elements, body.keys, k);
      }
      if body.elements == [] {
        UnfoldFill(body.elements, body.keys);
      } else {
        FilledElementwise(body.elements, body.keys, 0);
      }
    }
  }

  // ---- When something is sent ----

  /** The pass takes the row and gets as far as sending it: its process lives on, its task is bound, no key is missing. */
  ghost predicate SendsRow(rows: seq<Row>, a: Action, id: nat) {
    && a.WorkerPass? && id < |rows| && Picked(rows, a.now, id)
    && !a.env.crash.AfterLease? && a.env.route.Routed? && !Incomplete(rows[id].body)
  }

  /** One action sends exactly one row, or none. */
  lemma SendsIff(w: World, a: Action)
    requires RowsInv(w.rows)
    ensures var sent := Next(w, a).sent;
            && (forall id: nat :: SendsRow(w.rows, a, id) ==>
                  |sent| == |w.sent| + 1 && sent[..|w.sent|] == w.sent && sent[|w.sent|].id == id
                  && Carries(sent[|w.sent|].content, w.rows[id].body))
            && ((forall id: nat :: !SendsRow(w.rows, a, id)) ==> sent == w.sent)
  {
    hide RowsInv, Picked, Lease, Work, Finish, Stage, Reconcile, Incomplete, Carries, NewlyConfirmed;
    if a.WorkerPass? {
      var leased := Lease(w.rows, a.owner, a.until, a.now);
      forall id: nat | id < |w.rows| ensures leased.id == Some(id) <==> Picked(w.rows, a.now, id) {
        LeaseOutcome(w.rows, a.owner, a.until, a.now, id);
      }
      if leased.id.Some? {
        PassSends(w.rows, a, leased.id.value);
      }
    }
  }

  lemma PassSends(rows: seq<Row>, a: Action, id: nat)
    requires RowsInv(rows) && a.WorkerPass? && id < |rows| && Picked(rows, a.now, id)
    ensures var leased := Lease(rows, a.owner, a.until, a.now);
            var sent := Work(leased.rows, id, a.now, a.env).sent;
            && (SendsRow(rows, a, id) ==> sent.Some? && sent.value.id == id && Carries(sent.value.content, rows[id].body))
            && (!SendsRow(rows, a, id) ==> sent.None?)
  {
    hide Lease, Picked, Carries, NextUpload, Incomplete, Outgoing, SlotsHaveImages, UploadPhase, SendPhase, Finished, InOrder;
    LeaseOutcome(rows, a.owner, a.until, a.now, id);
    var body := rows[id].body;
    assert RowInv(rows[id]);
    MissingIffIncomplete(body);
    if NextUpload(body).None? {
      CardsAreComplete(body);
      OutgoingCarries(body);
    }
  }

  // ---- Which keys are uploaded where ----

  /** Position n is the first that has no key yet. */
  ghost predicate FirstGap(body: Body, n: nat) {
    && n < |KeysOf(body)| && KeysOf(body)[n] == None
    && forall k :: 0 <= k < n ==> KeysOf(body)[k] != None
  }

  function PutKey(body: Body, n: nat, key: string): Body {
    match body
    case PlainText(_) => body
    case ImageFile(_) => ImageFile(Some(key))
    case AttachedFile(_) => AttachedFile(Some(key))
    case Card(elements, keys) => if n < |keys| then Card(elements, keys[n := Some(key)]) else body
  }

  /** The action writes the uploaded key at position n of the row. */
  ghost predicate Uploads(rows: seq<Row>, a: Action, id: nat, n: nat, key: string)
    requires id < |rows|
  {
    var row := rows[id];
    key != "" &&
    match a
    case WorkerPass(owner, until, now, env) =>
      && Picked(rows, now, id) && env.route.Routed? && env.crash != AfterLease && env.crash != AfterUpload
      && env.upload == Uploaded(key) && FirstGap(row.body, n)
    case StageOnly(which, owner, ordinal, k, now) =>
      which == id && Holds(row, owner) && k == key && ordinal == n && TakesKey(row.body, n)
    case _ => false
  }

  lemma NextIsFirstGap(body: Body, n: nat)
    ensures NextUpload(body) == Some(n) <==> FirstGap(body, n)
  {
    hide FirstMissing;
  }

  lemma PutsKey(body: Body, n: nat, key: string)
    requires WithKey(body, n, key).Some?
    ensures WithKey(body, n, key).value == PutKey(body, n, key)
  {
  }

  /** A body changes exactly where a key is uploaded for it. */
  lemma BodyStep(w: World, a: Action, id: nat)
    requires RowsInv(w.rows) && id < |w.rows|
    ensures id < |Next(w, a).rows|
    ensures forall n: nat, key :: Uploads(w.rows, a, id, n, key) ==> Next(w, a).rows[id].body == PutKey(w.rows[id].body, n, key)
    ensures (forall n: nat, key :: !Uploads(w.rows, a, id, n, key)) ==> Next(w, a).rows[id].body == w.rows[id].body
  {
    hide RowsInv, Picked, RunOnce, TakesKey, PutKey, WithKey, FirstGap, SearchHistory, NewlyConfirmed, Choose;
    match a {
      case WorkerPass(_, _, _, _) => PassBody(w.rows, a, id);
      case LeaseOnly(owner, until, now) => LeaseOutcome(w.rows, owner, until, now, id);
      case StageOnly(_, _, _, _, _) => StageBody(w, a, id);
      case _ =>
    }
  }

  lemma StageBody(w: World, a: Action, id: nat)
    requires id < |w.rows| && a.StageOnly?
    ensures id < |Next(w, a).rows|
    ensures forall n: nat, key :: Uploads(w.rows, a, id, n, key) ==> Next(w, a).rows[id].body == PutKey(w.rows[id].body, n, key)
    ensures (forall n: nat, key :: !Uploads(w.rows, a, id, n, key)) ==> Next(w, a).rows[id].body == w.rows[id].body
  {
    hide TakesKey, PutKey, WithKey, NewlyConfirmed;
    if a.id < |w.rows| {
      TakesKeyIff(w.rows[a.id].body, a.ordinal, a.key);
      if WithKey(w.rows[a.id].body, a.ordinal, a.key).Some? { PutsKey(w.rows[a.id].body, a.ordinal, a.key); }
    }
    assert Stage(w.rows, a.id, a.owner, a.ordinal, a.key, a.now).Ok? && a.id == id ==> Uploads(w.rows, a, id, a.ordinal, a.key);
  }

  lemma PassBody(rows: seq<Row>, a: Action, id: nat)
    requires RowsInv(rows) && id < |rows| && a.WorkerPass?
    ensures var rows' := RunOnce(rows, a.owner, a.until, a.now, a.env).rows;
            && id < |rows'|
            && (forall n: nat, key :: Uploads(rows, a, id, n, key) ==> rows'[id].body == PutKey(rows[id].body, n, key))
            && ((forall n: nat, key :: !Uploads(rows, a, id, n, key)) ==> rows'[id].body == rows[id].body)
  {
    hide Work, Lease, Picked, PutKey, FirstGap, RowsInv;
    var leased := Lease(rows, a.owner, a.until, a.now);
    LeaseOutcome(rows, a.owner, a.until, a.now, id);
    if leased.id.Some? {
      var chosen := leased.id.value;
      LeaseOutcome(rows, a.owner, a.until, a.now, chosen);
      WorkBody(leased.rows, chosen, a.now, a.env, id);
      forall n: nat, key
        ensures Uploads(rows, a, id, n, key) <==> id == chosen && PassUploads(leased.rows[id].body, a.env, n, key)
      {
      }
    }
  }

  /** The upload that a pass over the row makes, if it makes one. */
  ghost predicate PassUploads(body: Body, env: Env, n: nat, key: string) {
    && key != "" && env.route.Routed? && env.crash != AfterLease && env.crash != AfterUpload
    && env.upload == Uploaded(key) && FirstGap(body, n)
  }

  lemma WorkBody(rows: seq<Row>, chosen: nat, now: int, env: Env, id: nat)
    requires chosen < |rows| && id < |rows|
    ensures var rows' := Work(rows, chosen, now, env).rows;
            && |rows'| == |rows|
            && (id != chosen ==> rows'[id].body == rows[id].body)
            && (forall n: nat, key :: id == chosen && PassUploads(rows[id].body, env, n, key) ==>
                  rows'[id].body == PutKey(rows[id].body, n, key))
            && ((forall n: nat, key :: !PassUploads(rows[chosen].body, env, n, key)) ==> rows'[id].body == rows[id].body)
  {
    hide PutKey, NextUpload, FirstGap, WithKey, Outgoing;
    var body := rows[chosen].body;
    forall n: nat ensures NextUpload(body) == Some(n) <==> FirstGap(body, n) {
      NextIsFirstGap(body, n);
    }
    if NextUpload(body).Some? && env.upload.Uploaded? {
      var n := NextUpload(body).value;
      NextIsMissing(body);
      TakesKeyIff(body, n, env.upload.key);
      PutsKey(body, n, env.upload.key);
      assert env.upload.key != "" && env.route.Routed? && env.crash != AfterLease && env.crash != AfterUpload ==>
             PassUploads(body, env, n, env.upload.key);
    }
  }

  // ---- Whole runs ----

  /** The i-th action enqueued row id, and what it gave is still there; keys may have been added to its body. */
  ghost predicate EnqueuedBy(actions: seq<Action>, i: nat, id: nat, row: Row) {
    && i < |actions| && actions[i].Enqueue? && |RowsAt(actions, i)| == id
    && row.turn == actions[i].turn && row.thread == actions[i].thread && row.operation == actions[i].operation
    && row.priority == actions[i].priority && BodyExtends(NewBody(actions[i].draft), row.body)
  }

  lemma {:induction false} RowsTellTheirDraft(actions: seq<Action>, id: nat)
    requires id < |Run(START, actions).rows|
    ensures exists i: nat :: EnqueuedBy(actions, i, id, Run(START, actions).rows[id])
    decreases |actions|
  {
    hide Run, Next, RowsInv, BodyExtends, NewBody, Ordered, SentRight;
    NoRowsYet();
    var init, last := actions[..|actions| - 1], actions[|actions| - 1];
    assert actions == init + [last];
    RunSnoc(START, init, last);
    StartInv();
    RunKeepsInv(START, init);
    var w := Run(START, init);
    NextKeepsRows(w, last);
    SameLength(w, last);
    if id < |w.rows| {
      RowsTellTheirDraft(init, id);
      var i: nat :| EnqueuedBy(init, i, id, w.rows[id]);
      assert actions[..i] == init[..i];
      assert Edge(w.rows[id], Next(w, last).rows[id]);
      ExtendsAgain(NewBody(actions[i].draft), w.rows[id].body, Next(w, last).rows[id].body);
      assert EnqueuedBy(actions, i, id, Next(w, last).rows[id]);
    } else {
      assert actions[..|init|] == init;
      EnqueuedNow(w, last, id);
      assert EnqueuedBy(actions, |init|, id, Next(w, last).rows[id]);
    }
  }

  lemma NoRowsYet()
    ensures Run(START, []).rows == []
  {
  }

  lemma ExtendsAgain(a: Body, b: Body, c: Body)
    requires BodyExtends(a, b) && BodyExtends(b, c)
    ensures BodyExtends(a, c)
  {
  }

  /** A new row waits from now on, untried and unleased. */
  lemma EnqueuedNow(w: World, a: Action, id: nat)
    requires a.Enqueue? && id == |w.rows| && id < |Next(w, a).rows|
    ensures var row := Next(w, a).rows[id];
            && Next(w, a) == w.(rows := w.rows + [row])
            && row.state == Pending && row.due == a.now && row.attempts == 0 && row.firstAttempt == None
            && row.owner == None && row.expires == None && row.message == None
    ensures var row := Next(w, a).rows[id];
            && row.turn == a.turn && row.thread == a.thread && row.operation == a.operation
            && row.priority == a.priority && BodyExtends(NewBody(a.draft), row.body)
  {
  }

  /** The content is what the draft calls for, images and files under keys that are stored in the row. */
  ghost predicate Delivers(content: Content, draft: Draft, row: Row) {
    match draft
    case TextDraft(text) => content == SentText(text)
    case ImageDraft => content.SentKey? && row.body == ImageFile(Some(content.key))
    case FileDraft => content.SentKey? && row.body == AttachedFile(Some(content.key))
    case CardDraft(r, active, parts, fallback) =>
      var card := MarkdownCard(r, active, parts);
      if card.None? then content == SentText(fallback)
      else
        && content.SentCard? && row.body.Card? && |row.body.keys| == |card.value.images|
        && CarriesCard(content.elements, card.value.elements, row.body.keys)
  }

  lemma CarriedDelivers(content: Content, draft: Draft, row: Row)
    requires Carries(content, row.body) && BodyExtends(NewBody(draft), row.body)
    ensures Delivers(content, draft, row)
  {
    hide MarkdownCard, CarriesCard;
  }

  /** In every run each send carries what one enqueueing asked for. */
  lemma SendsWhatWasEnqueued(actions: seq<Action>, k: nat)
    requires k < |Run(START, actions).sent|
    ensures var w := Run(START, actions);
            var s := w.sent[k];
            && s.id < |w.rows|
            && exists i: nat :: EnqueuedBy(actions, i, s.id, w.rows[s.id]) && Delivers(s.content, actions[i].draft, w.rows[s.id])
  {
    hide Run, Next, RowsInv, BodyExtends, NewBody, Ordered, Delivers, Carries, NextUpload, Outgoing;
    StartInv();
    RunKeepsInv(START, actions);
    var w := Run(START, actions);
    var s := w.sent[k];
    assert SentRight(w.rows, s);
    OutgoingCarries(w.rows[s.id].body);
    RowsTellTheirDraft(actions, s.id);
    var i: nat :| EnqueuedBy(actions, i, s.id, w.rows[s.id]);
    CarriedDelivers(s.content, actions[i].draft, w.rows[s.id]);
  }
}
