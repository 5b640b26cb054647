/**
 Routing replies to tasks in topic-group mode. message_ancestry records who replied to what; a
 task's topic hangs below the task's anchor message.
 */
module Routing {
  import opened Options

  datatype Source = Anchor | Outbound | Inbound

  /** A row of message_ancestry. */
  datatype Ancestry = Ancestry(root: Option<string>, parent: Option<string>, task: string, chat: string,
                               topic: Option<string>, source: Source)

  /** A row of task_bindings; anchor is set once, when the anchor is confirmed. */
  datatype Task = Task(chat: string, optedIn: bool, topicGroup: bool, anchor: Option<string>, topic: Option<string>)

  datatype RoutingState = Indeterminate | RoutedReply | Control | OutboundEcho

  /** A row of ingress_messages. */
  datatype Ingress = Ingress(chat: string, content: string, sequence: nat, state: RoutingState, target: Option<string>)

  datatype Tables = Tables(ancestry: map<string, Ancestry>, tasks: map<string, Task>, ingress: map<string, Ingress>, nextSequence: nat)

  /** One incoming message; empty provider fields count as absent. */
  datatype Message = Message(id: string, chat: string, content: string, root: Option<string>, parent: Option<string>, topic: Option<string>)

  datatype Routed = Routed(target: Option<string>, tables: Tables)

  function Filled(topic: Option<string>): Option<string> {
    if topic.Some? && topic.value != "" then topic else None
  }

  /** Sets a missing value (SQL COALESCE). */
  function OrElse(topic: Option<string>, value: string): Option<string> {
    if topic.None? then Some(value) else topic
  }

  /** The root that a reply to this message has. */
  function RootOfReply(parent: Ancestry, parentId: string): string {
    if parent.root.Some? && parent.root.value != "" then parent.root.value else parentId
  }

  predicate SameTopic(known: Option<string>, topic: string) {
    Filled(known).None? || known == Some(topic)
  }

  /** The reply stands in one chat and one task, below the root its parent has. */
  predicate Consistent(t: Tables, m: Message)
    requires m.root.Some? && m.parent.Some?
  {
    && m.root.value in t.ancestry && m.parent.value in t.ancestry
    && var root, parent := t.ancestry[m.root.value], t.ancestry[m.parent.value];
       && root.chat == m.chat && parent.chat == m.chat && root.task == parent.task
       && RootOfReply(parent, m.parent.value) == m.root.value
  }

  predicate TaskAccepts(t: Tables, task: string, m: Message)
    requires m.topic.Some?
  {
    && task in t.tasks
    && t.tasks[task].optedIn && t.tasks[task].topicGroup && t.tasks[task].chat == m.chat
    && SameTopic(t.tasks[task].topic, m.topic.value)
  }

  predicate Routable(t: Tables, m: Message) {
    && m.root.Some? && m.parent.Some? && Filled(m.topic).Some?
    && Consistent(t, m)
    && SameTopic(t.ancestry[m.root.value].topic, m.topic.value)
    && SameTopic(t.ancestry[m.parent.value].topic, m.topic.value)
    && TaskAccepts(t, t.ancestry[m.root.value].task, m)
  }

  /** Learns the topic for the task, the root and the parent. */
  function Learn(t: Tables, m: Message): Tables
    requires Routable(t, m)
  {
    var task, topic := t.ancestry[m.root.value].task, m.topic.value;
    var root := t.ancestry[m.root.value].(topic := OrElse(t.ancestry[m.root.value].topic, topic));
    var parent := t.ancestry[m.parent.value].(topic := OrElse(t.ancestry[m.parent.value].topic, topic));
    t.(tasks := t.tasks[task := t.tasks[task].(topic := OrElse(t.tasks[task].topic, topic))],
       ancestry := t.ancestry[m.root.value := root][m.parent.value := parent])
  }

  function Route(t: Tables, m: Message): Routed {
    if Routable(t, m) then Routed(Some(t.ancestry[m.root.value].task), Learn(t, m)) else Routed(None, t)
  }

  datatype Rejection = ChatNotAuthorized | ConflictingContent | KeyConflict

  datatype Decision = Echo | Duplicate | Accepted(state: RoutingState, target: Option<string>, sequence: nat)

  /**
   One transaction. command says whether the text is a control command, and administrative whether
   the message is the bridge's own pending subscription reply.
   */
  function IngestMessage(t: Tables, authorized: set<string>, m: Message, command: bool, administrative: bool)
    : Result<(Tables, Decision), Rejection>
  {
    if m.chat !in authorized then Err(ChatNotAuthorized)
    else if m.id in t.ancestry && t.ancestry[m.id].source.Outbound? then Ok((t, Echo))
    else if m.id in t.ingress then
      if t.ingress[m.id].chat != m.chat || t.ingress[m.id].content != m.content then Err(ConflictingContent)
      else Ok((t, Duplicate))
    else
      var routed := Route(t, m);
      var state :=
        if routed.target.None? then Indeterminate
        else if administrative && m.root.Some? && m.parent.Some? then OutboundEcho
        else if command then Control else RoutedReply;
      var records := routed.target.Some? && m.root.Some? && m.parent.Some? && (state.RoutedReply? || state.Control?);
      if records && m.id in routed.tables.ancestry then Err(KeyConflict)
      else
        var u := routed.tables;
        Ok((u.(ingress := u.ingress[m.id := Ingress(m.chat, m.content, u.nextSequence, state, routed.target)],
               ancestry := if records then
                             u.ancestry[m.id := Ancestry(m.root, m.parent, routed.target.value, m.chat, m.topic, Inbound)]
                           else u.ancestry,
               nextSequence := u.nextSequence + 1),
            Accepted(state, routed.target, u.nextSequence)))
  }

  /** What the worker replies to: a recorded message, or the confirmed anchor of the row's task. */
  function ReplyParent(t: Tables, task: string, target: string): Option<Ancestry> {
    if target in t.ancestry then Some(t.ancestry[target])
    else if task in t.tasks && t.tasks[task].anchor == Some(target) then
      Some(Ancestry(None, None, task, t.tasks[task].chat, t.tasks[task].topic, Anchor))
    else None
  }

  /** The worker refuses a reply whose target belongs to another task or chat. */
  predicate MayReply(t: Tables, task: string, target: string) {
    && task in t.tasks
    && ReplyParent(t, task, target).Some?
    && ReplyParent(t, task, target).value.task == task
    && ReplyParent(t, task, target).value.chat == t.tasks[task].chat
  }

  /** After the provider confirmed a reply under the given message id. */
  function RecordReply(t: Tables, task: string, target: string, message: string, topic: Option<string>): Tables
    requires MayReply(t, task, target)
  {
    var parent := ReplyParent(t, task, target).value;
    var known := if Filled(topic).Some? then topic else if Filled(parent.topic).Some? then parent.topic else t.tasks[task].topic;
    t.(ancestry := t.ancestry[message := Ancestry(Some(RootOfReply(parent, target)), Some(target), task, t.tasks[task].chat, known, Outbound)])
  }

  /** First step after an anchor is delivered: the task remembers it. */
  function ConfirmAnchor(t: Tables, task: string, message: string, topic: Option<string>): Tables
    requires task in t.tasks
  {
    if t.tasks[task].anchor.Some? then t
    else t.(tasks := t.tasks[task := t.tasks[task].(anchor := Some(message), topic := topic)])
  }

  /** Second step: the anchor gets its ancestry row. */
  function RecordAnchor(t: Tables, task: string, message: string): Tables
    requires task in t.tasks
  {
    t.(ancestry := t.ancestry[message := Ancestry(None, None, task, t.tasks[task].chat, t.tasks[task].topic, Anchor)])
  }

  predicate IsEcho(t: Tables, message: string) {
    message in t.ancestry && t.ancestry[message].source.Outbound?
  }

  function Suppressed(t: Tables, message: string): Tables {
    if IsEcho(t, message) && message in t.ingress then
      t.(ingress := t.ingress[message := t.ingress[message].(state := OutboundEcho)])
    else t
  }

  class Router {
    var ancestry: map<string, Ancestry>
    var tasks: map<string, Task>
    var ingress: map<string, Ingress>
    var nextSequence: nat

    constructor (tasks: map<string, Task>)
      ensures Contents() == Tables(map[], tasks, map[], 1)
    {
      ancestry, this.tasks, ingress, nextSequence := map[], tasks, map[], 1;
    }

    function Contents(): Tables
      reads this
    {
      Tables(ancestry, tasks, ingress, nextSequence)
    }

    /** The reply tree decides the task, and what it teaches about the topic is kept. */
    method RouteReply(m: Message) returns (target: Option<string>)
      modifies this
      ensures Routed(target, Contents()) == Route(old(Contents()), m)
    {
      if m.root.None? || m.parent.None? {
        return None;
      }
      var rootId, parentId := m.root.value, m.parent.value;
      if rootId !in ancestry || parentId !in ancestry {
        return None;
      }
      var root, parent := ancestry[rootId], ancestry[parentId];
      if root.chat != m.chat || parent.chat != m.chat || root.task != parent.task || RootOfReply(parent, parentId) != rootId {
        return None;
      }
      if Filled(m.topic).None? {
        return None;
      }
      var topic := m.topic.value;
      if !SameTopic(root.topic, topic) || !SameTopic(parent.topic, topic) {
        return None;
      }
      if root.task !in tasks || !tasks[root.task].optedIn || !tasks[root.task].topicGroup || tasks[root.task].chat != m.chat {
        return None;
      }
      if !SameTopic(tasks[root.task].topic, topic) {
        return None;
      }
      tasks := tasks[root.task := tasks[root.task].(topic := OrElse(tasks[root.task].topic, topic))];
      ancestry := ancestry[rootId := root.(topic := OrElse(root.topic, topic))][parentId := parent.(topic := OrElse(parent.topic, topic))];
      return Some(root.task);
    }

    method Ingest(authorized: set<string>, m: Message, command: bool, administrative: bool) returns (r: Result<Decision, Rejection>)
      modifies this
      ensures match IngestMessage(old(Contents()), authorized, m, command, administrative) {
                case Err(e) => r == Err(e) && Contents() == old(Contents())
                case Ok(after) => r == Ok(after.1) && Contents() == after.0
              }
    {
      if m.chat !in authorized {
        return Err(ChatNotAuthorized);
      }
      if m.id in ancestry && ancestry[m.id].source.Outbound? {
        return Ok(Echo);
      }
      if m.id in ingress {
        if ingress[m.id].chat != m.chat || ingress[m.id].content != m.content {
          return Err(ConflictingContent);
        }
        return Ok(Duplicate);
      }
      var saved := Contents();
      var target := RouteReply(m);
      var state := if target.None? then Indeterminate else if command then Control else RoutedReply;
      if target.Some? && m.root.Some? && m.parent.Some? && administrative {
        state := OutboundEcho;
      }
      var sequence := nextSequence;
      ingress := ingress[m.id := Ingress(m.chat, m.content, sequence, state, target)];
      if target.Some? && m.root.Some? && m.parent.Some? && (state.RoutedReply? || state.Control?) {
        if m.id in ancestry {
          ancestry, tasks, ingress := saved.ancestry, saved.tasks, saved.ingress;
          return Err(KeyConflict);
        }
        ancestry := ancestry[m.id := Ancestry(m.root, m.parent, target.value, m.chat, m.topic, Inbound)];
      }
      nextSequence := nextSequence + 1;
      return Ok(Accepted(state, target, sequence));
    }

    /** A callback that raced the recording of the bridge's own reply is taken out of dispatch. */
    method SuppressIfOutboundEcho(message: string) returns (echo: bool)
      modifies this
      ensures echo == IsEcho(old(Contents()), message)
      ensures Contents() == Suppressed(old(Contents()), message)
    {
      if message !in ancestry || !ancestry[message].source.Outbound? {
        return false;
      }
      if message in ingress {
        ingress := ingress[message := ingress[message].(state := OutboundEcho)];
      }
      return true;
    }
  }

  // ---- Runs ----

  /** anchoring is set while the worker stands between the two steps of recording an anchor. */
  datatype World = World(tables: Tables, anchoring: Option<(string, string)>)

  datatype Action =
    | Receive(authorized: set<string>, received: Message, command: bool, administrative: bool)
    | SuppressEcho(message: string)
    | Reply(task: string, target: string, message: string, topic: Option<string>)
    | AnchorDelivered(task: string, message: string, topic: Option<string>)
    | AnchorRecorded
    | BindTask(task: string, chat: string, topicGroup: bool)
    | OptIn(task: string, optedIn: bool)
    | Crash

  /** No other task has the message as its anchor (the column is unique). */
  predicate AnchorFree(t: Tables, message: string) {
    forall x :: x in t.tasks ==> t.tasks[x].anchor != Some(message)
  }

  /**
   parentOf is what the provider says each message replies to; the provider never reports a
   message under two parents, and an anchor, which is not a reply, has none.
   */
  function Next(parentOf: string -> Option<string>, w: World, a: Action): World {
    match a
    case Receive(authorized, m, command, administrative) =>
      var r := IngestMessage(w.tables, authorized, m, command, administrative);
      if m.parent == parentOf(m.id) && m.root != Some("") && m.parent != Some("") && r.Ok? then w.(tables := r.value.0) else w
    case SuppressEcho(message) => w.(tables := Suppressed(w.tables, message))
    case Reply(task, target, message, topic) =>
      if parentOf(message) == Some(target) && target != "" && MayReply(w.tables, task, target) then
        w.(tables := RecordReply(w.tables, task, target, message, topic))
      else w
    case AnchorDelivered(task, message, topic) =>
      if task in w.tables.tasks && w.tables.tasks[task].anchor.None? && parentOf(message).None?
         && message != "" && AnchorFree(w.tables, message) && w.anchoring.None? then
        World(ConfirmAnchor(w.tables, task, message, topic), Some((task, message)))
      else w
    case AnchorRecorded =>
      if w.anchoring.Some? && w.anchoring.value.0 in w.tables.tasks then
        World(RecordAnchor(w.tables, w.anchoring.value.0, w.anchoring.value.1), None)
      else w
    case BindTask(task, chat, topicGroup) =>
      if task in w.tables.tasks then w
      else w.(tables := w.tables.(tasks := w.tables.tasks[task := Task(chat, true, topicGroup, None, None)]))
    case OptIn(task, optedIn) =>
      if task in w.tables.tasks then
        w.(tables := w.tables.(tasks := w.tables.tasks[task := w.tables.tasks[task].(optedIn := optedIn)]))
      else w
    case Crash => w.(anchoring := None)
  }

  function Run(parentOf: string -> Option<string>, w: World, actions: seq<Action>): World
    decreases |actions|
  {
    if actions == [] then w else Run(parentOf, Next(parentOf, w, actions[0]), actions[1..])
  }

  const START := World(Tables(map[], map[], map[], 1), None)

  // ---- What every step keeps ----

  /** The message is the confirmed anchor of the task, in the chat. */
  predicate IsAnchor(t: Tables, id: string, task: string, chat: string) {
    task in t.tasks && t.tasks[task].anchor == Some(id) && t.tasks[task].chat == chat
  }

  /** After n replies upwards, all recorded for the task and chat, one stands at the root. */
  predicate Climbs(t: Tables, id: string, root: string, task: string, chat: string, n: nat)
    decreases n
  {
    if n == 0 then id == root
    else
      && id in t.ancestry && t.ancestry[id].task == task && t.ancestry[id].chat == chat
      && t.ancestry[id].parent.Some? && Climbs(t, t.ancestry[id].parent.value, root, task, chat, n - 1)
  }

  ghost predicate Hangs(t: Tables, id: string, root: string, task: string, chat: string) {
    exists n: nat :: Climbs(t, id, root, task, chat, n)
  }

  /** A row without a root is its task's anchor. */
  ghost predicate AnchorRow(t: Tables, id: string, row: Ancestry) {
    row.parent.None? && row.source.Anchor? && IsAnchor(t, id, row.task, row.chat)
  }

  /** A row with a root is a reply that hangs below its task's anchor. */
  ghost predicate ReplyRow(parentOf: string -> Option<string>, t: Tables, id: string, row: Ancestry)
    requires row.root.Some?
  {
    && row.root.value != "" && !row.source.Anchor?
    && IsAnchor(t, row.root.value, row.task, row.chat)
    && parentOf(row.root.value).None?
    && row.parent.Some?
    && Hangs(t, id, row.root.value, row.task, row.chat)
    && (if row.parent.value in t.ancestry then
          var p := t.ancestry[row.parent.value];
          p.task == row.task && p.chat == row.chat && row.root == Some(RootOfReply(p, row.parent.value))
        else row.parent == row.root)
  }

  ghost predicate RowInv(parentOf: string -> Option<string>, t: Tables, id: string)
    requires id in t.ancestry
  {
    var row := t.ancestry[id];
    && row.parent == parentOf(id)
    && (if row.root.None? then AnchorRow(t, id, row) else ReplyRow(parentOf, t, id, row))
  }

  /** Anchors are nobody's replies and belong to one task each. */
  ghost predicate TasksInv(parentOf: string -> Option<string>, tasks: map<string, Task>) {
    && (forall x :: x in tasks && tasks[x].anchor.Some? ==> tasks[x].anchor.value != "" && parentOf(tasks[x].anchor.value).None?)
    && (forall a, b :: a in tasks && b in tasks && a != b && tasks[a].anchor.Some? ==> tasks[a].anchor != tasks[b].anchor)
  }

  /** A routed message is recorded under the task it was routed to. */
  ghost predicate IngressInv(t: Tables) {
    forall id :: id in t.ingress && (t.ingress[id].state.RoutedReply? || t.ingress[id].state.Control?) ==>
      id in t.ancestry && t.ancestry[id].root.Some? && t.ingress[id].target == Some(t.ancestry[id].task)
  }

  ghost predicate TablesInv(parentOf: string -> Option<string>, t: Tables) {
    && TasksInv(parentOf, t.tasks)
    && (forall id :: id in t.ancestry ==> RowInv(parentOf, t, id))
    && IngressInv(t)
  }

  ghost predicate Inv(parentOf: string -> Option<string>, w: World) {
    && TablesInv(parentOf, w.tables)
    && (w.anchoring.Some? ==>
          && w.anchoring.value.0 in w.tables.tasks
          && w.tables.tasks[w.anchoring.value.0].anchor == Some(w.anchoring.value.1))
  }

  lemma StartInv(parentOf: string -> Option<string>)
    ensures Inv(parentOf, START)
  {
  }

  /** Rows keep root, parent, task and chat, tasks keep chat and a confirmed anchor; more of both may come. */
  ghost predicate Grows(t: Tables, t': Tables) {
    && (forall id :: id in t.ancestry ==>
          && id in t'.ancestry
          && t'.ancestry[id].root == t.ancestry[id].root && t'.ancestry[id].parent == t.ancestry[id].parent
          && t'.ancestry[id].task == t.ancestry[id].task && t'.ancestry[id].chat == t.ancestry[id].chat)
    && (forall x :: x in t.tasks ==>
          && x in t'.tasks && t'.tasks[x].chat == t.tasks[x].chat
          && (t.tasks[x].anchor.Some? ==> t'.tasks[x].anchor == t.tasks[x].anchor))
  }

  lemma {:induction false} ClimbsKept(t: Tables, t': Tables, id: string, root: string, task: string, chat: string, n: nat)
    requires Grows(t, t') && Climbs(t, id, root, task, chat, n)
    ensures Climbs(t', id, root, task, chat, n)
    decreases n
  {
    if n > 0 { ClimbsKept(t, t', t.ancestry[id].parent.value, root, task, chat, n - 1); }
  }

  lemma HangsKept(t: Tables, t': Tables, id: string, root: string, task: string, chat: string)
    requires Grows(t, t') && Hangs(t, id, root, task, chat)
    ensures Hangs(t', id, root, task, chat)
  {
    hide Climbs, Grows;
    var n: nat :| Climbs(t, id, root, task, chat, n);
    ClimbsKept(t, t', id, root, task, chat, n);
  }

  /** What a row that comes to stand where none stood must be: the anchor that replies already point at. */
  ghost predicate FitsChildren(parentOf: string -> Option<string>, t: Tables, t': Tables) {
    forall id :: id in t'.ancestry && id !in t.ancestry ==>
      t'.ancestry[id].root.None? || parentOf(id).Some?
  }

  /** An old row stays right when the tables grow. */
  lemma RowKept(parentOf: string -> Option<string>, t: Tables, t': Tables, id: string)
    requires TablesInv(parentOf, t) && TasksInv(parentOf, t'.tasks) && Grows(t, t') && FitsChildren(parentOf, t, t')
    requires id in t.ancestry && (t'.ancestry[id].source.Anchor? <==> t.ancestry[id].source.Anchor?)
    requires forall x :: x in t'.ancestry && x !in t.ancestry && t'.ancestry[x].root.None? ==> AnchorRow(t', x, t'.ancestry[x])
    ensures RowInv(parentOf, t', id)
  {
    hide Hangs;
    assert RowInv(parentOf, t, id);
    var row := t.ancestry[id];
    if row.root.Some? {
      HangsKept(t, t', id, row.root.value, row.task, row.chat);
    }
  }

  lemma TopicsKeep(parentOf: string -> Option<string>, t: Tables, t': Tables)
    requires TablesInv(parentOf, t) && Grows(t, t') && t'.ancestry.Keys == t.ancestry.Keys && TasksInv(parentOf, t'.tasks)
    requires forall id :: id in t.ancestry ==> t'.ancestry[id].source == t.ancestry[id].source
    requires t'.ingress == t.ingress
    ensures TablesInv(parentOf, t')
  {
    hide TasksInv, RowInv;
    forall id | id in t'.ancestry ensures RowInv(parentOf, t', id) {
      RowKept(parentOf, t, t', id);
    }
  }

  lemma LearnKeeps(parentOf: string -> Option<string>, t: Tables, m: Message)
    requires TablesInv(parentOf, t) && Routable(t, m)
    ensures var u := Learn(t, m);
            TablesInv(parentOf, u) && Grows(t, u) && u.ancestry.Keys == t.ancestry.Keys && u.ingress == t.ingress
  {
    hide RowInv, IngressInv, TasksInv;
    LearnGrows(t, m);
    TasksInvKept(parentOf, t.tasks, Learn(t, m).tasks);
    TopicsKeep(parentOf, t, Learn(t, m));
  }

  lemma LearnGrows(t: Tables, m: Message)
    requires Routable(t, m)
    ensures var u := Learn(t, m);
            && Grows(t, u) && u.ancestry.Keys == t.ancestry.Keys && u.ingress == t.ingress && u.tasks.Keys == t.tasks.Keys
            && (forall id :: id in t.ancestry ==> u.ancestry[id].source == t.ancestry[id].source)
            && (forall x :: x in t.tasks ==> u.tasks[x].anchor == t.tasks[x].anchor)
  {
    hide Consistent, TaskAccepts, SameTopic;
    assert t.ancestry[m.root.value].task in t.tasks by { AcceptedTask(t, m); }
    assert m.root.value in t.ancestry && m.parent.value in t.ancestry by { RecordedRoot(t, m); }
  }

  lemma AcceptedTask(t: Tables, m: Message)
    requires Routable(t, m)
    ensures m.root.value in t.ancestry && t.ancestry[m.root.value].task in t.tasks
  {
  }

  lemma RecordedRoot(t: Tables, m: Message)
    requires Routable(t, m)
    ensures m.root.Some? && m.parent.Some? && m.root.value in t.ancestry && m.parent.value in t.ancestry
  {
  }

  lemma TasksInvKept(parentOf: string -> Option<string>, tasks: map<string, Task>, tasks': map<string, Task>)
    requires TasksInv(parentOf, tasks) && tasks'.Keys == tasks.Keys
    requires forall x :: x in tasks ==> tasks'[x].anchor == tasks[x].anchor
    ensures TasksInv(parentOf, tasks')
  {
  }

  /** The root of a routable reply is its task's anchor, and its parent hangs below it. */
  lemma RoutableHangs(parentOf: string -> Option<string>, t: Tables, m: Message)
    requires TablesInv(parentOf, t) && Routable(t, m) && m.parent != Some("")
    ensures var task := t.ancestry[m.root.value].task;
            && IsAnchor(t, m.root.value, task, m.chat)
            && parentOf(m.root.value).None? && m.root.value != ""
            && Hangs(t, m.parent.value, m.root.value, task, m.chat)
  {
    hide TaskAccepts, Hangs;
    var p := t.ancestry[m.parent.value];
    assert RowInv(parentOf, t, m.parent.value);
    if p.root.None? {
      assert Hangs(t, m.parent.value, m.root.value, p.task, m.chat) by { HangsAtRoot(t, m.root.value, p.task, m.chat); }
    }
  }

  lemma HangsAtRoot(t: Tables, root: string, task: string, chat: string)
    ensures Hangs(t, root, root, task, chat)
  {
    assert Climbs(t, root, root, task, chat, 0);
  }

  /** A new reply row below a parent that hangs, or below the anchor itself. */
  lemma HangsBelow(t: Tables, id: string, root: string, task: string, chat: string)
    requires id in t.ancestry && t.ancestry[id].task == task && t.ancestry[id].chat == chat && t.ancestry[id].parent.Some?
    requires Hangs(t, t.ancestry[id].parent.value, root, task, chat)
    ensures Hangs(t, id, root, task, chat)
  {
    var n: nat :| Climbs(t, t.ancestry[id].parent.value, root, task, chat, n);
    assert Climbs(t, id, root, task, chat, n + 1);
  }

  /** One more reply row, new or written again, keeps the tables right. */
  lemma AddReplyKeeps(parentOf: string -> Option<string>, t: Tables, id: string, row: Ancestry)
    requires TablesInv(parentOf, t)
    requires row.root.Some? && row.parent == parentOf(id) && row.parent.Some? && !row.source.Anchor? && row.root.value != ""
    requires IsAnchor(t, row.root.value, row.task, row.chat) && parentOf(row.root.value).None?
    requires Hangs(t, row.parent.value, row.root.value, row.task, row.chat)
    requires if row.parent.value in t.ancestry then
               var p := t.ancestry[row.parent.value];
               p.task == row.task && p.chat == row.chat && row.root == Some(RootOfReply(p, row.parent.value))
             else row.parent == row.root
    ensures TablesInv(parentOf, t.(ancestry := t.ancestry[id := row])) && Grows(t, t.(ancestry := t.ancestry[id := row]))
  {
    hide Hangs, TasksInv;
    var t' := t.(ancestry := t.ancestry[id := row]);
    if id in t.ancestry {
      assert RowInv(parentOf, t, id);
      SameReply(parentOf, t, id, row);
    }
    HangsKept(t, t', row.parent.value, row.root.value, row.task, row.chat);
    HangsBelow(t', id, row.root.value, row.task, row.chat);
    assert row.parent.value == id ==> row.root == Some(RootOfReply(row, id));
    forall x | x in t'.ancestry ensures RowInv(parentOf, t', x) {
      if x != id { RowKept(parentOf, t, t', x); }
    }
  }

  /** Writing a reply row again writes the same root, task and chat. */
  lemma SameReply(parentOf: string -> Option<string>, t: Tables, id: string, row: Ancestry)
    requires TasksInv(parentOf, t.tasks) && id in t.ancestry && RowInv(parentOf, t, id)
    requires row.root.Some? && row.parent == parentOf(id) && row.parent.Some?
    requires IsAnchor(t, row.root.value, row.task, row.chat)
    requires if row.parent.value in t.ancestry then
               var p := t.ancestry[row.parent.value];
               p.task == row.task && p.chat == row.chat && row.root == Some(RootOfReply(p, row.parent.value))
             else row.parent == row.root
    ensures var was := t.ancestry[id]; was.root == row.root && was.task == row.task && was.chat == row.chat && !was.source.Anchor?
  {
    hide Hangs;
  }

  // ---- Every step keeps the invariant ----

  lemma IngressKept(parentOf: string -> Option<string>, t: Tables, ingress: map<string, Ingress>, next: nat)
    requires TablesInv(parentOf, t) && IngressInv(t.(ingress := ingress, nextSequence := next))
    ensures TablesInv(parentOf, t.(ingress := ingress, nextSequence := next))
  {
    var t' := t.(ingress := ingress, nextSequence := next);
    forall id | id in t'.ancestry ensures RowInv(parentOf, t', id) {
      RowKept(parentOf, t, t', id);
    }
  }

  lemma IngestKeeps(parentOf: string -> Option<string>, t: Tables, authorized: set<string>, m: Message, command: bool, administrative: bool)
    requires TablesInv(parentOf, t) && m.parent == parentOf(m.id) && m.root != Some("") && m.parent != Some("")
    ensures var r := IngestMessage(t, authorized, m, command, administrative);
            r.Ok? ==> TablesInv(parentOf, r.value.0) && Grows(t, r.value.0)
  {
    hide TablesInv, Routable, Learn, Grows;
    var r := IngestMessage(t, authorized, m, command, administrative);
    GrowsReflexive(t);
    if r.Ok? && r.value.1.Accepted? {
      var u := Route(t, m).tables;
      if Routable(t, m) {
        RecordedRoot(t, m);
        LearnKeeps(parentOf, t, m);
        RoutedKeeps(parentOf, t, m, r.value.1.state);
      }
      if !Routable(t, m) || !(r.value.1.state.RoutedReply? || r.value.1.state.Control?) {
        NotRecordedKeeps(parentOf, u, m, r.value.1.state, r.value.1.target);
        GrowsTransitive(t, u, r.value.0);
      }
    }
  }

  lemma GrowsReflexive(t: Tables)
    ensures Grows(t, t)
  {
  }

  lemma GrowsTransitive(a: Tables, b: Tables, c: Tables)
    requires Grows(a, b) && Grows(b, c)
    ensures Grows(a, c)
  {
  }

  lemma NotRecordedKeeps(parentOf: string -> Option<string>, u: Tables, m: Message, state: RoutingState, target: Option<string>)
    requires TablesInv(parentOf, u) && !state.RoutedReply? && !state.Control?
    ensures var u' := u.(ingress := u.ingress[m.id := Ingress(m.chat, m.content, u.nextSequence, state, target)],
                         nextSequence := u.nextSequence + 1);
            TablesInv(parentOf, u') && Grows(u, u')
  {
    hide RowInv, TasksInv;
    IngressKept(parentOf, u, u.ingress[m.id := Ingress(m.chat, m.content, u.nextSequence, state, target)], u.nextSequence + 1);
  }

  lemma RoutedKeeps(parentOf: string -> Option<string>, t: Tables, m: Message, state: RoutingState)
    requires TablesInv(parentOf, t) && Routable(t, m) && m.parent == parentOf(m.id) && m.root != Some("") && m.parent != Some("")
    requires TablesInv(parentOf, Learn(t, m)) && Grows(t, Learn(t, m))
    ensures var u := Learn(t, m);
            var task := t.ancestry[m.root.value].task;
            var u' := u.(ingress := u.ingress[m.id := Ingress(m.chat, m.content, u.nextSequence, state, Some(task))],
                         ancestry := u.ancestry[m.id := Ancestry(m.root, m.parent, task, m.chat, m.topic, Inbound)],
                         nextSequence := u.nextSequence + 1);
            TablesInv(parentOf, u') && Grows(t, u')
  {
    hide RowInv, TasksInv, Learn, Hangs, IsAnchor;
    RoutableHangs(parentOf, t, m);
    var u := Learn(t, m);
    var task := t.ancestry[m.root.value].task;
    var row := Ancestry(m.root, m.parent, task, m.chat, m.topic, Inbound);
    HangsKept(t, u, m.parent.value, m.root.value, task, m.chat);
    AnchorKept(t, u, m.root.value, task, m.chat);
    AddReplyKeeps(parentOf, u, m.id, row);
    var v := u.(ancestry := u.ancestry[m.id := row]);
    IngressKept(parentOf, v, u.ingress[m.id := Ingress(m.chat, m.content, u.nextSequence, state, Some(task))], u.nextSequence + 1);
  }

  lemma AnchorKept(t: Tables, u: Tables, id: string, task: string, chat: string)
    requires Grows(t, u) && IsAnchor(t, id, task, chat)
    ensures IsAnchor(u, id, task, chat)
  {
  }

  lemma ReplyKeeps(parentOf: string -> Option<string>, t: Tables, task: string, target: string, message: string, topic: Option<string>)
    requires TablesInv(parentOf, t) && MayReply(t, task, target) && parentOf(message) == Some(target) && target != ""
    ensures var t' := RecordReply(t, task, target, message, topic); TablesInv(parentOf, t') && Grows(t, t')
  {
    hide Hangs;
    var t' := RecordReply(t, task, target, message, topic);
    var row := t'.ancestry[message];
    if target in t.ancestry {
      assert RowInv(parentOf, t, target);
    }
    HangsAtRoot(t, target, task, row.chat);
    AddReplyKeeps(parentOf, t, message, row);
  }

  lemma TasksGrowKeeps(parentOf: string -> Option<string>, t: Tables, tasks: map<string, Task>)
    requires TablesInv(parentOf, t) && TasksInv(parentOf, tasks) && Grows(t, t.(tasks := tasks))
    ensures TablesInv(parentOf, t.(tasks := tasks))
  {
    hide TasksInv, RowInv, Grows;
    var t' := t.(tasks := tasks);
    forall id | id in t'.ancestry ensures RowInv(parentOf, t', id) {
      RowKept(parentOf, t, t', id);
    }
  }

  lemma RecordAnchorKeeps(parentOf: string -> Option<string>, t: Tables, task: string, message: string)
    requires TablesInv(parentOf, t) && task in t.tasks && t.tasks[task].anchor == Some(message)
    ensures TablesInv(parentOf, RecordAnchor(t, task, message)) && Grows(t, RecordAnchor(t, task, message))
  {
    hide Hangs;
    var t' := RecordAnchor(t, task, message);
    if message in t.ancestry {
      assert RowInv(parentOf, t, message);
    }
    assert Grows(t, t');
    forall id | id in t'.ancestry ensures RowInv(parentOf, t', id) {
      if id != message { RowKept(parentOf, t, t', id); }
    }
  }

  lemma TaskStepKeepsInv(parentOf: string -> Option<string>, w: World, a: Action)
    requires Inv(parentOf, w) && (a.AnchorDelivered? || a.BindTask? || a.OptIn?)
    ensures Inv(parentOf, Next(parentOf, w, a))
  {
    hide RowInv, IngressInv;
    var w' := Next(parentOf, w, a);
    if w' != w {
      TasksGrowKeeps(parentOf, w.tables, w'.tables.tasks);
    }
  }

  lemma SuppressKeeps(parentOf: string -> Option<string>, t: Tables, message: string)
    requires TablesInv(parentOf, t)
    ensures TablesInv(parentOf, Suppressed(t, message))
  {
    hide RowInv, TasksInv;
    if Suppressed(t, message) != t {
      IngressKept(parentOf, t, Suppressed(t, message).ingress, t.nextSequence);
    }
  }

  lemma NextKeepsInv(parentOf: string -> Option<string>, w: World, a: Action)
    requires Inv(parentOf, w)
    ensures Inv(parentOf, Next(parentOf, w, a))
  {
    hide TablesInv, IngestMessage, RecordReply, RecordAnchor, ConfirmAnchor, MayReply;
    match a {
      case SuppressEcho(message) => SuppressKeeps(parentOf, w.tables, message);
      case Receive(authorized, m, command, administrative) =>
        if m.parent == parentOf(m.id) && m.root != Some("") && m.parent != Some("") {
          IngestKeeps(parentOf, w.tables, authorized, m, command, administrative);
        }
      case Reply(task, target, message, topic) =>
        if parentOf(message) == Some(target) && target != "" && MayReply(w.tables, task, target) {
          ReplyKeeps(parentOf, w.tables, task, target, message, topic);
        }
      case AnchorRecorded =>
        if w.anchoring.Some? {
          RecordAnchorKeeps(parentOf, w.tables, w.anchoring.value.0, w.anchoring.value.1);
        }
      case Crash =>
      case _ => TaskStepKeepsInv(parentOf, w, a);
    }
  }

  lemma {:induction false} RunKeepsInv(parentOf: string -> Option<string>, w: World, actions: seq<Action>)
    requires Inv(parentOf, w)
    ensures Inv(parentOf, Run(parentOf, w, actions))
    decreases |actions|
  {
    hide Inv, Next;
    if actions != [] {
      NextKeepsInv(parentOf, w, actions[0]);
      RunKeepsInv(parentOf, Next(parentOf, w, actions[0]), actions[1..]);
    }
  }

  // ---- Main results ----

  /**
   In every run, every recorded reply has as its root the confirmed anchor of its task, in its chat;
   and if that anchor is recorded, it is recorded for the same task and has no root itself.
   */
  lemma RootsAreAnchors(parentOf: string -> Option<string>, actions: seq<Action>, id: string)
    requires id in Run(parentOf, START, actions).tables.ancestry && Run(parentOf, START, actions).tables.ancestry[id].root.Some?
    ensures var t := Run(parentOf, START, actions).tables;
            var row := t.ancestry[id];
            && IsAnchor(t, row.root.value, row.task, row.chat)
            && Hangs(t, id, row.root.value, row.task, row.chat)
            && (row.root.value in t.ancestry ==>
                  var r := t.ancestry[row.root.value]; r.root.None? && r.task == row.task && r.chat == row.chat)
  {
    hide Next, Hangs, Run;
    StartInv(parentOf);
    RunKeepsInv(parentOf, START, actions);
    var t := Run(parentOf, START, actions).tables;
    assert RowInv(parentOf, t, id);
    if t.ancestry[id].root.value in t.ancestry {
      assert RowInv(parentOf, t, t.ancestry[id].root.value);
    }
  }

  /** In every run, a reply that is routed goes to the task whose anchor stands at the top of the chain of replies above it. */
  lemma RoutedRepliesGoHome(parentOf: string -> Option<string>, actions: seq<Action>, m: Message)
    requires Route(Run(parentOf, START, actions).tables, m).target.Some? && m.parent != Some("")
    ensures var t := Run(parentOf, START, actions).tables;
            var task := Route(t, m).target.value;
            && m.root.Some? && m.parent.Some?
            && IsAnchor(t, m.root.value, task, m.chat)
            && Hangs(t, m.parent.value, m.root.value, task, m.chat)
            && forall other :: other in t.tasks && t.tasks[other].anchor == m.root ==> other == task
  {
    hide Next, Hangs, Run;
    StartInv(parentOf);
    RunKeepsInv(parentOf, START, actions);
    RoutableHangs(parentOf, Run(parentOf, START, actions).tables, m);
  }

  /** The same of everything that was ever accepted as a routed reply or a control command. */
  lemma AcceptedRepliesStayHome(parentOf: string -> Option<string>, actions: seq<Action>, id: string)
    requires var t := Run(parentOf, START, actions).tables;
             id in t.ingress && (t.ingress[id].state.RoutedReply? || t.ingress[id].state.Control?)
    ensures var t := Run(parentOf, START, actions).tables;
            && t.ingress[id].target.Some? && id in t.ancestry && t.ancestry[id].root.Some?
            && IsAnchor(t, t.ancestry[id].root.value, t.ingress[id].target.value, t.ancestry[id].chat)
            && Hangs(t, id, t.ancestry[id].root.value, t.ingress[id].target.value, t.ancestry[id].chat)
  {
    hide Next, Hangs, Run;
    StartInv(parentOf);
    RunKeepsInv(parentOf, START, actions);
    RootsAreAnchors(parentOf, actions, id);
  }
}
