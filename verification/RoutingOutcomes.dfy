/** What becomes of an incoming message, told from what was received, and when a reply is routed at all. */
module RoutingOutcomes {
  import opened Options
  import opened Routing

  // ---- When a reply is routed ----

  /** What was recorded about a topic does not speak against this one. */
  predicate Admits(known: Option<string>, topic: string) {
    known == None || known == Some("") || known == Some(topic)
  }

  /** The reply stands below its task's anchor, in the task's chat, and both ends are recorded. */
  ghost predicate Below(t: Tables, m: Message, task: string) {
    && m.root.Some? && m.parent.Some? && m.root.value in t.ancestry && m.parent.value in t.ancestry
    && IsAnchor(t, m.root.value, task, m.chat) && Hangs(t, m.parent.value, m.root.value, task, m.chat)
  }

  lemma AnchorRowBelongs(parentOf: string -> Option<string>, t: Tables, id: string, task: string, chat: string)
    requires TablesInv(parentOf, t) && id in t.ancestry && IsAnchor(t, id, task, chat)
    ensures t.ancestry[id].task == task && t.ancestry[id].chat == chat && t.ancestry[id].root.None?
  {
    hide Hangs;
    assert RowInv(parentOf, t, id);
  }

  lemma HangingRowBelongs(parentOf: string -> Option<string>, t: Tables, id: string, root: string, task: string, chat: string)
    requires TablesInv(parentOf, t) && id in t.ancestry && IsAnchor(t, root, task, chat) && Hangs(t, id, root, task, chat)
    ensures t.ancestry[id].task == task && t.ancestry[id].chat == chat && RootOfReply(t.ancestry[id], id) == root
  {
    var n: nat :| Climbs(t, id, root, task, chat, n);
    hide Hangs;
    assert RowInv(parentOf, t, id);
    if id == root {
      AnchorRowBelongs(parentOf, t, id, task, chat);
    }
  }

  /**
   In every run a message goes to a task exactly when it stands below that task's anchor, the task is opted in
   and has a topic group, and the message names a topic that nothing recorded for task, root or parent contradicts.
   */
  lemma RoutedIff(parentOf: string -> Option<string>, actions: seq<Action>, m: Message, task: string)
    requires m.parent != Some("")
    ensures var t := Run(parentOf, START, actions).tables;
            Route(t, m).target == Some(task) <==>
            && Below(t, m, task)
            && t.tasks[task].optedIn && t.tasks[task].topicGroup
            && m.topic.Some? && m.topic.value != ""
            && Admits(t.tasks[task].topic, m.topic.value)
            && Admits(t.ancestry[m.root.value].topic, m.topic.value) && Admits(t.ancestry[m.parent.value].topic, m.topic.value)
  {
    hide Next, Hangs, Run, Learn;
    StartInv(parentOf);
    RunKeepsInv(parentOf, START, actions);
    var t := Run(parentOf, START, actions).tables;
    if Routable(t, m) {
      RoutableHangs(parentOf, t, m);
    }
    if Below(t, m, task) {
      AnchorRowBelongs(parentOf, t, m.root.value, task, m.chat);
      HangingRowBelongs(parentOf, t, m.parent.value, m.root.value, task, m.chat);
    }
  }

  /** Once a reply was routed, another topic below the same messages is not. */
  lemma TopicIsLearned(t: Tables, m: Message, other: Message)
    requires Route(t, m).target.Some? && other.root == m.root && other.parent == m.parent
    requires t.tasks[Route(t, m).target.value].topic != Some("") && other.topic != m.topic
    ensures Route(Route(t, m).tables, other).target.None?
  {
  }

  // ---- What becomes of a message ----

  /** A message that comes again changes nothing, and is refused exactly when its chat or content differ. */
  lemma RepeatedIff(t: Tables, authorized: set<string>, m: Message, command: bool, administrative: bool)
    requires m.id in t.ingress && m.chat in authorized && !IsEcho(t, m.id)
    ensures var r := IngestMessage(t, authorized, m, command, administrative);
            && (r.Err? <==> t.ingress[m.id].chat != m.chat || t.ingress[m.id].content != m.content)
            && (r.Ok? ==> r.value == (t, Duplicate))
  {
  }

  function TablesAt(parentOf: string -> Option<string>, actions: seq<Action>, i: nat): Tables
    requires i <= |actions|
  {
    Run(parentOf, START, actions[..i]).tables
  }

  /** The i-th action brought the message into the table. */
  ghost predicate AcceptedAt(parentOf: string -> Option<string>, actions: seq<Action>, i: nat, id: string) {
    && i < |actions| && actions[i].Receive? && actions[i].received.id == id
    && actions[i].received.chat in actions[i].authorized
    && id !in TablesAt(parentOf, actions, i).ingress
  }

  /** At the i-th action it was taken out of dispatch: the bridge's own reply had been recorded under its id. */
  ghost predicate SuppressedAt(parentOf: string -> Option<string>, actions: seq<Action>, i: nat, id: string) {
    && i < |actions| && actions[i] == SuppressEcho(id)
    && var t := TablesAt(parentOf, actions, i);
       id in t.ingress && id in t.ancestry && t.ancestry[id].source == Outbound
  }

  ghost predicate SuppressedAfter(parentOf: string -> Option<string>, actions: seq<Action>, i: nat, id: string) {
    exists j: nat :: i < j && SuppressedAt(parentOf, actions, j, id)
  }

  /** What the row says of the message that came in at i. */
  ghost predicate Tells(parentOf: string -> Option<string>, actions: seq<Action>, i: nat, row: Ingress, suppressed: bool)
    requires i < |actions| && actions[i].Receive?
  {
    var m, t := actions[i].received, TablesAt(parentOf, actions, i);
    && row.chat == m.chat && row.content == m.content && row.sequence == t.nextSequence
    && row.target == Route(t, m).target
    && (row.state == OutboundEcho <==> suppressed || (row.target.Some? && actions[i].administrative))
    && (row.state == Control <==> !suppressed && row.target.Some? && !actions[i].administrative && actions[i].command)
    && (row.state == RoutedReply <==> !suppressed && row.target.Some? && !actions[i].administrative && !actions[i].command)
    && (row.state == Indeterminate <==> !suppressed && row.target.None?)
  }

  ghost predicate Told(parentOf: string -> Option<string>, actions: seq<Action>, id: string, row: Ingress) {
    exists i: nat :: AcceptedAt(parentOf, actions, i, id) && Tells(parentOf, actions, i, row, SuppressedAfter(parentOf, actions, i, id))
  }

  lemma {:induction false} RunSnoc(parentOf: string -> Option<string>, w: World, actions: seq<Action>, a: Action)
    ensures Run(parentOf, w, actions + [a]) == Next(parentOf, Run(parentOf, w, actions), a)
    decreases |actions|
  {
    hide Next;
    if actions == [] {
      assert [] + [a] == [a];
      assert Run(parentOf, Next(parentOf, w, a), []) == Next(parentOf, w, a);
    } else {
      assert (actions + [a])[1..] == actions[1..] + [a];
      RunSnoc(parentOf, Next(parentOf, w, actions[0]), actions[1..], a);
    }
  }

  /** How one action changes the row of a message. */
  lemma NextIngress(parentOf: string -> Option<string>, w: World, a: Action, id: string)
    ensures var t, t' := w.tables, Next(parentOf, w, a).tables;
            && (id in t.ingress ==>
                  && id in t'.ingress
                  && t'.ingress[id] == if a == SuppressEcho(id) && IsEcho(t, id) then t.ingress[id].(state := OutboundEcho)
                                       else t.ingress[id])
            && (id !in t.ingress && id in t'.ingress ==>
                  && a.Receive? && a.received.id == id && a.received.chat in a.authorized
                  && t'.ingress[id] ==
                     Ingress(a.received.chat, a.received.content, t.nextSequence, NewState(t, a), Route(t, a.received).target))
  {
    hide Routable, Learn, MayReply;
    if a.Receive? && Routable(w.tables, a.received) {
      LearnLeavesIngress(w.tables, a.received);
    }
  }

  function NewState(t: Tables, a: Action): RoutingState
    requires a.Receive?
  {
    if Route(t, a.received).target.None? then Indeterminate
    else if a.administrative then OutboundEcho
    else if a.command then Control
    else RoutedReply
  }

  lemma LearnLeavesIngress(t: Tables, m: Message)
    requires Routable(t, m)
    ensures Learn(t, m).ingress == t.ingress && Learn(t, m).nextSequence == t.nextSequence && m.root.Some? && m.parent.Some?
  {
  }

  lemma SuppressedEarlier(parentOf: string -> Option<string>, init: seq<Action>, last: Action, i: nat, id: string)
    requires i < |init|
    ensures SuppressedAfter(parentOf, init + [last], i, id) <==>
            SuppressedAfter(parentOf, init, i, id) || SuppressedAt(parentOf, init + [last], |init|, id)
  {
    hide Run;
    var actions := init + [last];
    forall j: nat | j < |init| ensures SuppressedAt(parentOf, actions, j, id) <==> SuppressedAt(parentOf, init, j, id) {
      assert actions[..j] == init[..j];
    }
    if j: nat :| i < j && SuppressedAt(parentOf, init, j, id) {
      assert SuppressedAt(parentOf, actions, j, id);
    }
  }

  lemma ToldLater(parentOf: string -> Option<string>, init: seq<Action>, last: Action, id: string)
    requires var w := Run(parentOf, START, init); id in w.tables.ingress && Told(parentOf, init, id, w.tables.ingress[id])
    ensures var w' := Next(parentOf, Run(parentOf, START, init), last);
            id in w'.tables.ingress && Told(parentOf, init + [last], id, w'.tables.ingress[id])
  {
    hide Run, Next, Route, SuppressedAfter;
    var actions, w := init + [last], Run(parentOf, START, init);
    var i: nat :| AcceptedAt(parentOf, init, i, id) &&
                  Tells(parentOf, init, i, w.tables.ingress[id], SuppressedAfter(parentOf, init, i, id));
    NextIngress(parentOf, w, last, id);
    SuppressedEarlier(parentOf, init, last, i, id);
    assert actions[..i] == init[..i] && actions[..|init|] == init;
    assert AcceptedAt(parentOf, actions, i, id);
  }

  lemma ToldNow(parentOf: string -> Option<string>, init: seq<Action>, last: Action, id: string)
    requires id !in Run(parentOf, START, init).tables.ingress
    requires id in Next(parentOf, Run(parentOf, START, init), last).tables.ingress
    ensures Told(parentOf, init + [last], id, Next(parentOf, Run(parentOf, START, init), last).tables.ingress[id])
  {
    hide Run, Next, Route;
    var actions, w := init + [last], Run(parentOf, START, init);
    NextIngress(parentOf, w, last, id);
    assert actions[..|init|] == init;
    assert !SuppressedAfter(parentOf, actions, |init|, id);
    assert AcceptedAt(parentOf, actions, |init|, id);
    assert Tells(parentOf, actions, |init|, Next(parentOf, w, last).tables.ingress[id], false);
  }

  /**
   In every run each recorded message came in by one action, and its row tells that message: routed to the task
   that the reply tree gave at that moment; a control exactly when it was a command, a routed reply exactly when
   it was not, unless it was the bridge's own subscription reply or was suppressed later, which make it an echo.
   */
  lemma {:induction false} MessagesAreTold(parentOf: string -> Option<string>, actions: seq<Action>, id: string)
    requires id in Run(parentOf, START, actions).tables.ingress
    ensures Told(parentOf, actions, id, Run(parentOf, START, actions).tables.ingress[id])
    decreases |actions|
  {
    hide Run, Next, Told;
    NothingReceived(parentOf);
    assert actions != [];
    var init, last := actions[..|actions| - 1], actions[|actions| - 1];
    assert actions == init + [last];
    RunSnoc(parentOf, START, init, last);
    if id in Run(parentOf, START, init).tables.ingress {
      MessagesAreTold(parentOf, init, id);
      ToldLater(parentOf, init, last, id);
    } else {
      ToldNow(parentOf, init, last, id);
    }
  }

  lemma NothingReceived(parentOf: string -> Option<string>)
    ensures Run(parentOf, START, []).tables.ingress == map[]
  {
  }

  ghost predicate Taken(t: Tables, n: nat) {
    exists id :: id in t.ingress && t.ingress[id].sequence == n
  }

  /** The accepted messages are numbered from 1 on, without a gap and without a repetition. */
  ghost predicate Numbered(t: Tables) {
    && t.nextSequence > 0
    && (forall id :: id in t.ingress ==> 0 < t.ingress[id].sequence < t.nextSequence)
    && (forall a, b :: a in t.ingress && b in t.ingress && a != b ==> t.ingress[a].sequence != t.ingress[b].sequence)
    && (forall n: nat :: 0 < n < t.nextSequence ==> Taken(t, n))
  }

  /** A step numbers the message it receives, or nothing, and no number changes. */
  ghost predicate Numbers(t: Tables, t': Tables) {
    && (forall id :: id in t.ingress ==> id in t'.ingress && t'.ingress[id].sequence == t.ingress[id].sequence)
    && if t'.nextSequence == t.nextSequence then t'.ingress.Keys == t.ingress.Keys
       else
         && t'.nextSequence == t.nextSequence + 1
         && exists id :: id !in t.ingress && t'.ingress.Keys == t.ingress.Keys + {id} && t'.ingress[id].sequence == t.nextSequence
  }

  lemma NextCounts(parentOf: string -> Option<string>, w: World, a: Action)
    ensures Numbers(w.tables, Next(parentOf, w, a).tables)
  {
    hide Routable, Learn, MayReply;
    if a.Receive? && Routable(w.tables, a.received) {
      LearnLeavesIngress(w.tables, a.received);
    }
    var t, t' := w.tables, Next(parentOf, w, a).tables;
    if t'.nextSequence != t.nextSequence {
      assert a.received.id !in t.ingress && t'.ingress.Keys == t.ingress.Keys + {a.received.id};
    } else {
      assert t'.ingress.Keys == t.ingress.Keys;
    }
  }

  lemma NumbersKeep(t: Tables, t': Tables)
    requires Numbered(t) && Numbers(t, t')
    ensures Numbered(t')
  {
    forall n: nat | 0 < n < t'.nextSequence ensures Taken(t', n) {
      if n < t.nextSequence {
        assert Taken(t, n);
        var id :| id in t.ingress && t.ingress[id].sequence == n;
        assert id in t'.ingress && t'.ingress[id].sequence == n;
      } else {
        var id :| id !in t.ingress && t'.ingress.Keys == t.ingress.Keys + {id} && t'.ingress[id].sequence == t.nextSequence;
        assert id in t'.ingress && t'.ingress[id].sequence == n;
      }
    }
  }

  /** A message that is accepted gets the next number, and no number changes. */
  lemma NextNumbers(parentOf: string -> Option<string>, w: World, a: Action)
    requires Numbered(w.tables)
    ensures var t, t' := w.tables, Next(parentOf, w, a).tables;
            && Numbered(t') && t.nextSequence <= t'.nextSequence
            && (forall id :: id in t.ingress ==> id in t'.ingress && t'.ingress[id].sequence == t.ingress[id].sequence)
            && (forall id :: id in t'.ingress && id !in t.ingress ==> t'.ingress[id].sequence == t.nextSequence)
  {
    hide Next, Numbered;
    NextCounts(parentOf, w, a);
    NumbersKeep(w.tables, Next(parentOf, w, a).tables);
  }

  lemma {:induction false} RunNumbers(parentOf: string -> Option<string>, w: World, actions: seq<Action>)
    requires Numbered(w.tables)
    ensures Numbered(Run(parentOf, w, actions).tables) && w.tables.nextSequence <= Run(parentOf, w, actions).tables.nextSequence
    decreases |actions|
  {
    hide Next, Numbered;
    if actions != [] {
      NextNumbers(parentOf, w, actions[0]);
      RunNumbers(parentOf, Next(parentOf, w, actions[0]), actions[1..]);
    }
  }

  /**
   A new message is recorded exactly when its chat is authorized, it is no recorded reply of the bridge, and its
   reply row is free if it needs one; a message to be dispatched gets that row below its parent.
   */
  lemma AcceptedIff(parentOf: string -> Option<string>, w: World, a: Action)
    requires a.Receive? && a.received.id !in w.tables.ingress
    requires a.received.parent == parentOf(a.received.id) && a.received.root != Some("") && a.received.parent != Some("")
    ensures var t, t', m := w.tables, Next(parentOf, w, a).tables, a.received;
            var target := Route(t, m).target;
            && (m.id in t'.ingress <==>
                  && m.chat in a.authorized && !IsEcho(t, m.id)
                  && !(target.Some? && !a.administrative && m.id in t.ancestry))
            && (m.id in t'.ingress && target.Some? && !a.administrative ==>
                  m.id in t'.ancestry && t'.ancestry[m.id] == Ancestry(m.root, m.parent, target.value, m.chat, m.topic, Inbound))
            && (m.id !in t'.ingress ==> t' == t)
  {
    hide Routable, Learn;
    if Routable(w.tables, a.received) {
      LearnLeavesIngress(w.tables, a.received);
      LearnKeepsKeys(w.tables, a.received);
    }
  }

  lemma LearnKeepsKeys(t: Tables, m: Message)
    requires Routable(t, m)
    ensures Learn(t, m).ancestry.Keys == t.ancestry.Keys
  {
  }

  // ---- The bridge's own replies ----

  lemma EchoStays(parentOf: string -> Option<string>, w: World, a: Action, id: string)
    requires Inv(parentOf, w) && IsEcho(w.tables, id) && parentOf(id).Some?
    ensures IsEcho(Next(parentOf, w, a).tables, id)
  {
    hide RowInv, IngressInv;
    if a.Receive? && Routable(w.tables, a.received) {
      LearnKeepsSource(w.tables, a.received, id);
    }
  }

  lemma LearnKeepsSource(t: Tables, m: Message, id: string)
    requires Routable(t, m) && id in t.ancestry
    ensures id in Learn(t, m).ancestry && Learn(t, m).ancestry[id].source == t.ancestry[id].source
  {
  }

  lemma {:induction false} EchoStaysForever(parentOf: string -> Option<string>, w: World, actions: seq<Action>, id: string)
    requires Inv(parentOf, w) && IsEcho(w.tables, id) && parentOf(id).Some?
    ensures IsEcho(Run(parentOf, w, actions).tables, id)
    decreases |actions|
  {
    hide Next, Inv, IsEcho;
    if actions != [] {
      EchoStays(parentOf, w, actions[0], id);
      NextKeepsInv(parentOf, w, actions[0]);
      EchoStaysForever(parentOf, Next(parentOf, w, actions[0]), actions[1..], id);
    }
  }

  /**
   Once the bridge recorded a reply of its own, the provider's callback for it is dropped as an echo in every
   continuation, and a callback that came in before is taken out of dispatch.
   */
  lemma OwnRepliesAreEchoes(parentOf: string -> Option<string>, before: seq<Action>, reply: Action, after: seq<Action>,
                            authorized: set<string>, m: Message, command: bool, administrative: bool)
    requires reply.Reply? && parentOf(reply.message) == Some(reply.target) && reply.target != ""
    requires MayReply(Run(parentOf, START, before).tables, reply.task, reply.target)
    requires m.id == reply.message && m.chat in authorized
    ensures var t := Run(parentOf, Next(parentOf, Run(parentOf, START, before), reply), after).tables;
            && IngestMessage(t, authorized, m, command, administrative) == Ok((t, Echo))
            && (m.id in t.ingress ==> m.id in Suppressed(t, m.id).ingress && Suppressed(t, m.id).ingress[m.id].state == OutboundEcho)
  {
    hide Inv, Run, MayReply;
    StartInv(parentOf);
    RunKeepsInv(parentOf, START, before);
    var w := Run(parentOf, START, before);
    NextKeepsInv(parentOf, w, reply);
    EchoStaysForever(parentOf, Next(parentOf, w, reply), after, m.id);
  }

  // ---- Replies and anchors of the bridge ----

  /** The bridge may reply for the task: to a message recorded for it in its chat, or to its anchor before that is recorded. */
  predicate RepliesFor(t: Tables, task: string, target: string) {
    && task in t.tasks
    && if target in t.ancestry then t.ancestry[target].task == task && t.ancestry[target].chat == t.tasks[task].chat
       else t.tasks[task].anchor == Some(target)
  }

  predicate Named(topic: Option<string>) {
    topic.Some? && topic.value != ""
  }

  /** The row of a delivered reply: below what it answers, in the topic reported for it, else that of what it answers, else the task's. */
  ghost predicate RecordsReply(t: Tables, a: Action, row: Ancestry)
    requires a.Reply? && a.task in t.tasks
  {
    var answered := if a.target in t.ancestry then Some(t.ancestry[a.target]) else None;
    && row.task == a.task && row.chat == t.tasks[a.task].chat && row.source == Outbound && row.parent == Some(a.target)
    && (row.root == if answered.Some? && Named(answered.value.root) then answered.value.root else Some(a.target))
    && (row.topic == if Named(a.topic) then a.topic
                     else if answered.Some? && Named(answered.value.topic) then answered.value.topic
                     else t.tasks[a.task].topic)
  }

  /** A delivered reply gets exactly this row, if the bridge may send it at all, and nothing else changes. */
  lemma ReplyIsRecorded(parentOf: string -> Option<string>, w: World, a: Action)
    requires a.Reply?
    ensures var w' := Next(parentOf, w, a);
            if parentOf(a.message) == Some(a.target) && a.target != "" && RepliesFor(w.tables, a.task, a.target) then
              && a.message in w'.tables.ancestry && RecordsReply(w.tables, a, w'.tables.ancestry[a.message])
              && w' == w.(tables := w.tables.(ancestry := w.tables.ancestry[a.message := w'.tables.ancestry[a.message]]))
            else w' == w
  {
  }

  /**
   The first anchor delivered for a task becomes its anchor and gives it its topic, and no other does; its row
   comes in a step of its own.
   */
  lemma AnchorIsRecorded(parentOf: string -> Option<string>, w: World, task: string, message: string, topic: Option<string>)
    requires task in w.tables.tasks && w.anchoring.None? && parentOf(message).None? && message != ""
    ensures var w' := Next(parentOf, w, AnchorDelivered(task, message, topic));
            var w'' := Next(parentOf, w', AnchorRecorded);
            if w.tables.tasks[task].anchor.None? && (forall x :: x in w.tables.tasks ==> w.tables.tasks[x].anchor != Some(message)) then
              && w'.tables == w.tables.(tasks := w.tables.tasks[task := w.tables.tasks[task].(anchor := Some(message), topic := topic)])
              && w''.tables == w'.tables.(ancestry :=
                   w.tables.ancestry[message := Ancestry(None, None, task, w.tables.tasks[task].chat, topic, Anchor)])
              && w''.anchoring.None?
            else w' == w
  {
  }
}
