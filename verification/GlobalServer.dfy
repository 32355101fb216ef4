/**
 The server objects whose turns are the steps of the tree: `Global` with its two-way index,
 its task list and its pub/sub client.  Every method is proved to do to the server's part of
 the tree what the step function of `PubSubTree` says.
 */
module GlobalServer {
  import opened Wrappers
  import opened TwoWayMappings
  import opened PubSubTree
  import opened PubSubLinks
  import opened PubSubTraffic

  /** The client end of the link to the parent: a queue of outgoing messages. */
  class GwemsPubSub {
    const serialize: Runnable -> string
    var queue: seq<UpMessage>

    constructor (serialize: Runnable -> string)
      ensures this.serialize == serialize && queue == []
    {
      this.serialize := serialize;
      queue := [];
    }

    method Subcribe(channels: seq<Channel>)
      modifies this
      ensures queue == old(queue) + seq(|channels|, i requires 0 <= i < |channels| => Sub(channels[i]))
    {
      for i := 0 to |channels|
        invariant queue == old(queue) + seq(i, j requires 0 <= j < |channels| => Sub(channels[j]))
      {
        queue := queue + [Sub(channels[i])];
      }
    }

    method Unsubcribe(channels: seq<Channel>)
      modifies this
      ensures queue == old(queue) + seq(|channels|, i requires 0 <= i < |channels| => Unsub(channels[i]))
    {
      for i := 0 to |channels|
        invariant queue == old(queue) + seq(i, j requires 0 <= j < |channels| => Unsub(channels[j]))
      {
        queue := queue + [Unsub(channels[i])];
      }
    }

    method Publish(c: Channel, m: Runnable)
      modifies this
      ensures queue == old(queue) + [Pub(c, serialize(m))]
    {
      queue := queue + [Pub(c, serialize(m))];
    }
  }

  /** A whole `publish` call: the fan-out is handed to the pool and the message promoted. */
  function PublishCall(t: Tree, n: nat, nd: Node, c: Channel, m: Runnable, except: Option<Agent>): Node
    requires t.IsNode(n)
  {
    if c == "" then nd
    else SendUp(t, n, nd.(tasks := nd.tasks + [FanOut(c, m, Heeded(t, n, except))]), Pub(c, t.serialize(m)))
  }

  /** The call is the publish step with the promotion done at once. */
  lemma PublishCallIsTwoSteps(t: Tree, n: nat, nd: Node, c: Channel, m: Runnable, except: Option<Agent>)
    requires t.IsNode(n) && c != ""
    ensures var nd' := PublishAt(n, nd, c, m, Heeded(t, n, except));
            && (n == 0 ==> PublishCall(t, n, nd, c, m, except) == nd')
            && (n != 0 ==>
                 && nd'.tasks[|nd.tasks| + 1] == Promote(c, m)
                 && PublishCall(t, n, nd, c, m, except)
                    == SendUp(t, n, nd'.(tasks := RemoveAt(nd'.tasks, |nd.tasks| + 1)), Pub(c, t.serialize(m))))
  {
    var fanOut := FanOut(c, m, Heeded(t, n, except));
    assert nd.tasks + [fanOut] + [] == nd.tasks + [fanOut];
    if n != 0 {
      var tasks' := nd.tasks + [fanOut] + [Promote(c, m)];
      assert RemoveAt(tasks', |nd.tasks| + 1) == nd.tasks + [fanOut];
    }
  }

  /** Who a publish call visits: all subscribers, in a server of the tree all but the agent it came from. */
  lemma PublishCallVisits(t: Tree, n: nat, nd: Node, c: Channel, m: Runnable, except: Option<Agent>, a: Agent)
    requires t.IsNode(n) && c != ""
    ensures var tasks := PublishCall(t, n, nd, c, m, except).tasks;
            && tasks[..|tasks| - 1] == nd.tasks
            && var task := tasks[|nd.tasks|];
               && task.FanOut? && task.m == m
               && (a in Targets(nd.rel, task) <==> (a, c) in nd.rel && !(t.isPubSub[n] && except == Some(a)))
  {
    var tasks := PublishCall(t, n, nd, c, m, except).tasks;
    assert tasks == nd.tasks + [FanOut(c, m, Heeded(t, n, except))];
  }

  /** The message queues of the agents of a server. */
  type Queues = map<Agent, seq<(Channel, Payload)>>

  /** The queue of an agent, empty until something is put into it. */
  function Queued(queues: Queues, a: Agent): seq<(Channel, Payload)> {
    if a in queues then queues[a] else []
  }

  // --- the run of a fan-out, as steps of the tree ---

  function MailOf(mail: seq<Mail>, a: Agent): seq<(Channel, Payload)>
    decreases |mail|
  {
    if mail == [] then []
    else
      var last := mail[|mail| - 1];
      MailOf(mail[..|mail| - 1], a) + if last.to == a then [(last.c, last.p)] else []
  }

  /** The envelopes a link session writes for the payloads in its queue. */
  function Envelopes(t: Tree, queue: seq<(Channel, Payload)>): seq<DownMessage> {
    seq(|queue|, j requires 0 <= j < |queue| => P2C(queue[j].0, Wire(t, queue[j].1)))
  }

  /** The queue of a client agent is its mail at the node, that of a link is on its way down. */
  ghost predicate HasQueue(t: Tree, n: nat, s: State, a: Agent, queue: seq<(Channel, Payload)>)
    requires IsState(t, s) && t.IsNode(n)
  {
    match a
    case Client(_) => MailOf(s.nodes[n].mail, a) == queue
    case Link(k) => t.IsLink(k) && t.parent[k] == n ==> s.nodes[k].down == Envelopes(t, queue)
  }

  ghost predicate InStep(t: Tree, n: nat, s: State, queues: Queues)
    requires IsState(t, s) && t.IsNode(n)
  {
    forall a :: HasQueue(t, n, s, a, Queued(queues, a))
  }

  /** Only task `i` of the node, and the queues of its agents, have moved on from `s0` to `s1`. */
  ghost predicate Fanning(t: Tree, n: nat, s0: State, s1: State, i: nat, task: Task, queues: Queues)
    requires IsState(t, s0) && IsState(t, s1) && t.IsNode(n)
  {
    && i < |s0.nodes[n].tasks|
    && s1.nodes[n] == s0.nodes[n].(tasks := s0.nodes[n].tasks[i := task], mail := s1.nodes[n].mail)
    && InStep(t, n, s1, queues)
  }

  lemma StartFans(t: Tree, n: nat, s: State, i: nat, queues: Queues)
    requires IsState(t, s) && Enabled(t, s, Start(n, i)) && InStep(t, n, s, queues)
    ensures Fanning(t, n, s, Apply(t, s, Start(n, i)), i, Started(t, n, s.nodes[n], s.nodes[n].tasks[i]), queues)
  {
    var s' := Apply(t, s, Start(n, i));
    forall a
      ensures HasQueue(t, n, s', a, Queued(queues, a))
    {
      assert HasQueue(t, n, s, a, Queued(queues, a));
    }
  }

  lemma MailAppend(mail: seq<Mail>, last: Mail, a: Agent)
    ensures MailOf(mail + [last], a) == MailOf(mail, a) + if last.to == a then [(last.c, last.p)] else []
  {
    assert (mail + [last])[..|mail|] == mail;
  }

  lemma EnvelopesAppend(t: Tree, queue: seq<(Channel, Payload)>, c: Channel, p: Payload)
    ensures Envelopes(t, queue + [(c, p)]) == Envelopes(t, queue) + [P2C(c, Wire(t, p))]
  {
  }

  /** What one turn of the loop does to the queues. */
  lemma SendMovesQueue(t: Tree, n: nat, s: State, i: nat, a: Agent, b: Agent, queue: seq<(Channel, Payload)>)
    requires IsState(t, s) && Enabled(t, s, SendTo(n, i, a)) && HasQueue(t, n, s, b, queue)
    ensures var task := s.nodes[n].tasks[i];
            HasQueue(t, n, Apply(t, s, SendTo(n, i, a)), b, queue + if a == b then [(task.c, task.p)] else [])
  {
    hide MailOf, Envelopes;
    var task := s.nodes[n].tasks[i];
    assert queue + [] == queue;
    MailAppend(s.nodes[n].mail, Mail(a, task.c, task.p), b);
    EnvelopesAppend(t, queue, task.c, task.p);
  }

  lemma SendFans(t: Tree, n: nat, s0: State, s1: State, i: nat, task: Task, queues: Queues, a: Agent)
    requires IsState(t, s0) && IsState(t, s1) && t.IsNode(n) && Fanning(t, n, s0, s1, i, task, queues)
    requires task.Sending? && a in task.todo && (a.Link? ==> t.IsLink(a.child) && t.parent[a.child] == n)
    ensures Enabled(t, s1, SendTo(n, i, a))
    ensures Fanning(t, n, s0, Apply(t, s1, SendTo(n, i, a)), i, task.(todo := task.todo - {a}),
                    queues[a := Queued(queues, a) + [(task.c, task.p)]])
  {
    hide HasQueue;
    var s2 := Apply(t, s1, SendTo(n, i, a));
    var queues' := queues[a := Queued(queues, a) + [(task.c, task.p)]];
    forall b
      ensures HasQueue(t, n, s2, b, Queued(queues', b))
    {
      SendMovesQueue(t, n, s1, i, a, b, Queued(queues, b));
      assert Queued(queues, b) + [] == Queued(queues, b);
    }
  }

  lemma FinishFans(t: Tree, n: nat, s0: State, s1: State, i: nat, task: Task, queues: Queues)
    requires IsState(t, s0) && IsState(t, s1) && t.IsNode(n) && Fanning(t, n, s0, s1, i, task, queues)
    requires task.Sending? && task.todo == {}
    ensures Enabled(t, s1, Finish(n, i))
    ensures var s2 := Apply(t, s1, Finish(n, i));
            && s2.nodes[n] == s0.nodes[n].(tasks := RemoveAt(s0.nodes[n].tasks, i), mail := s2.nodes[n].mail)
            && InStep(t, n, s2, queues)
  {
    var s2 := Apply(t, s1, Finish(n, i));
    var tasks := s0.nodes[n].tasks;
    assert tasks[i := task][..i] == tasks[..i] && tasks[i := task][i + 1..] == tasks[i + 1..];
    forall a
      ensures HasQueue(t, n, s2, a, Queued(queues, a))
    {
      assert HasQueue(t, n, s1, a, Queued(queues, a));
    }
  }

  /** An arrival at a node leaves the queues of its agents alone. */
  lemma ArriveKeepsQueues(t: Tree, n: nat, s: State, queues: Queues)
    requires IsState(t, s) && Enabled(t, s, Arrive(n)) && InStep(t, n, s, queues)
    ensures InStep(t, n, Apply(t, s, Arrive(n)), queues)
  {
    var s' := Apply(t, s, Arrive(n));
    forall a
      ensures HasQueue(t, n, s', a, Queued(queues, a))
    {
      assert HasQueue(t, n, s, a, Queued(queues, a));
    }
  }

  /** The agents in `done` have the payload at the end of their queues, the others have what they had. */
  ghost predicate HaveBeenGiven(before: Queues, after: Queues, done: set<Agent>, given: seq<(Channel, Payload)>) {
    forall a :: Queued(after, a) == Queued(before, a) + (if a in done then given else [])
  }

  lemma NothingGiven(queues: Queues, given: seq<(Channel, Payload)>)
    ensures HaveBeenGiven(queues, queues, {}, given) && Listing<Agent>([], {})
  {
  }

  lemma GiveOne(before: Queues, after: Queues,
                done: set<Agent>, given: seq<(Channel, Payload)>, a: Agent)
    requires HaveBeenGiven(before, after, done, given) && a !in done
    ensures HaveBeenGiven(before, after[a := Queued(after, a) + given], done + {a}, given)
  {
    var after' := after[a := Queued(after, a) + given];
    forall b
      ensures Queued(after', b) == Queued(before, b) + (if b in done + {a} then given else [])
    {
      assert Queued(after, b) == Queued(before, b) + (if b in done then given else []);
      assert b != a ==> Queued(after', b) == Queued(after, b);
      assert b == a ==> Queued(before, b) + [] == Queued(before, b);
    }
  }

  lemma ListOne(order: seq<Agent>, done: set<Agent>, a: Agent)
    requires Listing(order, done) && a !in done
    ensures Listing(order + [a], done + {a})
  {
    forall x
      ensures x in done + {a} <==> x in order + [a]
    {
      assert x in done <==> x in order;
    }
  }

  lemma AllGiven(before: Queues, after: Queues,
                 done: set<Agent>, given: seq<(Channel, Payload)>)
    requires HaveBeenGiven(before, after, done, given)
    ensures forall a :: Queued(after, a) == Queued(before, a) + (if a in done then given else [])
  {
  }

  function Sends(n: nat, i: nat, order: seq<Agent>): (steps: seq<Step>)
    decreases |order|
  {
    if order == [] then [Start(n, i)]
    else Sends(n, i, order[..|order| - 1]) + [SendTo(n, i, order[|order| - 1])]
  }

  /** The fan-out begins, visits the agents in the order given, and ends. */
  function FanOutSteps(n: nat, i: nat, order: seq<Agent>): seq<Step> { Sends(n, i, order) + [Finish(n, i)] }

  class Global {
    const tree: Tree
    const index: nat
    const thePubSub: GwemsPubSub?
    const session2channel: TwoWayMapping<Agent, Channel>
    var tasks: seq<Task>
    var messageQs: Queues
    var subscriptionsRecorded: nat
    var unsubscriptionsRecorded: nat
    ghost var touched: bool

    ghost predicate Valid()
      reads this, session2channel
    {
      && tree.Valid() && tree.IsNode(index)
      && session2channel.Valid() && session2channel.Tight()
      && (thePubSub == null <==> index == 0)
      && (thePubSub != null ==> thePubSub.serialize == tree.serialize)
    }

    /** This server as a node of the tree; `env` supplies the part other servers hold. */
    ghost function AsNode(env: Node): Node
      reads this, session2channel, thePubSub
    {
      env.(rel := session2channel.Rel(),
           up := if thePubSub == null then [] else thePubSub.queue,
           tasks := tasks,
           touched := touched)
    }

    constructor (tree: Tree, index: nat)
      requires tree.Valid() && tree.IsNode(index)
      ensures Valid() && fresh(session2channel) && (thePubSub != null ==> fresh(thePubSub))
      ensures this.tree == tree && this.index == index
      ensures AsNode(NEW_NODE) == NEW_NODE && messageQs == map[]
      ensures subscriptionsRecorded == 0 && unsubscriptionsRecorded == 0
    {
      this.tree := tree;
      this.index := index;
      session2channel := new TwoWayMapping();
      var client: GwemsPubSub? := null;
      if index != 0 {
        client := new GwemsPubSub(tree.serialize);
      }
      thePubSub := client;
      tasks := [];
      messageQs := map[];
      subscriptionsRecorded := 0;
      unsubscriptionsRecorded := 0;
      touched := false;
    }

    method Subscribe(agent: Agent, channel: Channel)
      requires Valid()
      modifies this`subscriptionsRecorded, this`touched, session2channel, thePubSub
      ensures Valid()
      ensures forall env :: AsNode(env) == SubscribeAt(tree, index, old(AsNode(env)), agent, channel)
      ensures session2channel.Rel() == old(session2channel.Rel()) + if channel == "" then {} else {(agent, channel)}
      ensures subscriptionsRecorded == old(subscriptionsRecorded) + if channel == "" then 0 else 1
    {
      if channel == "" {
        return;
      }
      SubIfFirst(channel);
      subscriptionsRecorded := subscriptionsRecorded + 1;
      label told:
      session2channel.Add(Some(agent), Some(channel));
      assert forall env :: AsNode(env) == old@told(AsNode(env)).(rel := session2channel.Rel());
    }

    /** Nobody on the channel yet means a Sub. */
    method SubIfFirst(channel: Channel)
      requires Valid()
      modifies this`touched, thePubSub
      ensures Valid() && session2channel.Rel() == old(session2channel.Rel())
      ensures forall env :: AsNode(env) ==
                (if Subscribers(session2channel.Rel(), channel) == {}
                 then SendUp(tree, index, old(AsNode(env)), Sub(channel)) else old(AsNode(env)))
    {
      var agents := session2channel.Thing2ItemsGet(channel);
      assert agents == Subscribers(session2channel.Rel(), channel);
      if agents == {} && thePubSub != null {
        thePubSub.Subcribe([channel]);
        assert thePubSub.queue == old(thePubSub.queue) + [Sub(channel)];
        touched := touched || channel == tree.linkKey[index];
      }
    }

    method Unsubscribe(agent: Agent, channel: Channel)
      requires Valid()
      modifies this`unsubscriptionsRecorded, this`touched, session2channel, thePubSub
      ensures Valid()
      ensures forall env :: AsNode(env) == UnsubscribeAt(tree, index, old(AsNode(env)), agent, channel)
      ensures session2channel.Rel() == old(session2channel.Rel()) - {(agent, channel)}
      ensures unsubscriptionsRecorded == old(unsubscriptionsRecorded) + 1
    {
      hide Converse, NoEmptyRow, Pairs, Row;
      unsubscriptionsRecorded := unsubscriptionsRecorded + 1;
      var _ := session2channel.Remove(Some(agent), Some(channel));
      UnsubIfLast(channel);
    }

    /** The tail both unsubscribe calls share: nobody left on the channel means an Unsub. */
    method UnsubIfLast(channel: Channel)
      requires Valid()
      modifies this`touched, thePubSub
      ensures Valid() && session2channel.Rel() == old(session2channel.Rel())
      ensures forall env :: AsNode(env) ==
                (if Subscribers(session2channel.Rel(), channel) == {}
                 then SendUp(tree, index, old(AsNode(env)), Unsub(channel)) else old(AsNode(env)))
    {
      var agents := session2channel.Thing2ItemsGet(channel);
      assert agents == Subscribers(session2channel.Rel(), channel);
      if agents == {} && thePubSub != null {
        thePubSub.Unsubcribe([channel]);
        assert thePubSub.queue == old(thePubSub.queue) + [Unsub(channel)];
        touched := touched || channel == tree.linkKey[index];
      }
    }

    /** The order in which the channels of the agent are visited is the set's, whatever it is. */
    method UnsubscribeAgent(agent: Agent) returns (ghost order: seq<Channel>)
      requires Valid()
      modifies this`unsubscriptionsRecorded, this`touched, session2channel, thePubSub
      ensures Valid()
      ensures Listing(order, ChannelsOf(old(session2channel.Rel()), agent))
      ensures forall env :: AsNode(env) == UnsubscribeAgentAt(tree, index, old(AsNode(env)), agent, order)
      ensures forall a, c :: (a, c) in session2channel.Rel() <==> (a, c) in old(session2channel.Rel()) && a != agent
      ensures unsubscriptionsRecorded == old(unsubscriptionsRecorded) + 1
    {
      hide Converse, NoEmptyRow, Pairs, Row;
      var channels := session2channel.Item2ThingsGet(agent);
      assert channels == ChannelsOf(session2channel.Rel(), agent);
      unsubscriptionsRecorded := unsubscriptionsRecorded + 1;
      var _ := session2channel.RemoveItem(agent);
      assert session2channel.Rel() == WithoutAgent(old(session2channel.Rel()), agent);
      order := [];
      var todo := channels;
      while todo != {}
        invariant Valid() && todo <= channels
        invariant session2channel.Rel() == WithoutAgent(old(session2channel.Rel()), agent)
        invariant Listing(order, channels - todo)
        invariant unsubscriptionsRecorded == old(unsubscriptionsRecorded) + 1
        invariant forall env :: AsNode(env) == UnsubscribeAgentAt(tree, index, old(AsNode(env)), agent, order)
      {
        var channel :| channel in todo;
        UnsubIfLast(channel);
        todo := todo - {channel};
        assert (order + [channel])[..|order|] == order;
        order := order + [channel];
      }
    }

    method Publish(channel: Channel, runme: Runnable, except: Option<Agent>)
      requires Valid()
      modifies this`tasks, this`touched, thePubSub
      ensures Valid()
      ensures forall env :: AsNode(env) == PublishCall(tree, index, old(AsNode(env)), channel, runme, except)
    {
      if channel == "" {
        return;
      }
      if tree.isPubSub[index] {
        tasks := tasks + [FanOut(channel, runme, except)];
      } else {
        tasks := tasks + [FanOut(channel, runme, None)];
      }
      if thePubSub != null {
        thePubSub.Publish(channel, runme);
      }
    }

    /** The run methods of the messages `d.Sub`, `d.Unsub` and `d.Pub`, as the link's session. */
    method Execute(child: nat, msg: UpMessage)
      requires Valid()
      modifies this`tasks, this`touched, this`subscriptionsRecorded, this`unsubscriptionsRecorded
      modifies session2channel, thePubSub
      ensures Valid()
      ensures !msg.Pub? ==> forall env :: AsNode(env) == RunUpMessage(tree, index, old(AsNode(env)), child, msg)
      ensures msg.Pub? ==>
                var m := tree.deserialize(msg.text);
                forall env :: AsNode(env) == PublishCall(tree, index, old(AsNode(env)), msg.c, m, Some(Link(child)))
    {
      match msg {
        case Sub(c) => Subscribe(Link(child), c);
        case Unsub(c) => Unsubscribe(Link(child), c);
        case Pub(c, text) => Publish(c, tree.deserialize(text), Some(Link(child)));
      }
    }

    /** The server's part of a state of the tree, with the queues of its agents. */
    ghost predicate Stands(s: State)
      requires Valid()
      reads this, session2channel, thePubSub
    {
      && IsState(tree, s)
      && s.nodes[index] == AsNode(s.nodes[index])
      && InStep(tree, index, s, messageQs)
    }

    /** An envelope from the parent arrives: its content is handed to the pool, not looked at here. */
    method Handle(envelope: DownMessage, ghost s: State)
      requires Valid() && Stands(s) && index != 0
      requires s.nodes[index].down != [] && s.nodes[index].down[0] == envelope
      modifies this`tasks
      ensures Valid() && Enabled(tree, s, Arrive(index)) && Stands(Apply(tree, s, Arrive(index)))
    {
      tasks := tasks + [Relay(envelope.c, envelope.text)];
      ArriveKeepsQueues(tree, index, s, messageQs);
    }

    /**
     The pool runs a fan-out from beginning to end: the agents are read from the index once,
     and each of them but the excepted one gets the payload exactly once, at the end of its
     queue; no other queue changes.  That is a run of the tree: the start, one send for each
     target in the order of the set, whatever it is, and the end.
     */
    method RunFanOut(i: nat, ghost s: State) returns (ghost order: seq<Agent>)
      requires Valid() && i < |tasks| && (tasks[i].FanOut? || tasks[i].Relay?)
      requires Stands(s) && LinksOfChildren(tree, index, s.nodes[index])
      modifies this`messageQs, this`tasks
      ensures Valid() && tasks == RemoveAt(old(tasks), i)
      ensures Listing(order, Targets(session2channel.Rel(), old(tasks)[i]))
      ensures var task := old(tasks)[i];
              var given := [(task.c, PayloadFor(tree, index, task))];
              forall a :: Queued(messageQs, a) ==
                Queued(old(messageQs), a) + (if a in Targets(session2channel.Rel(), task) then given else [])
      ensures IsRun(tree, s, FanOutSteps(index, i, order)) && Stands(After(tree, s, FanOutSteps(index, i, order)))
    {
      hide Apply, Enabled, InStep, Fanning, Listing, HaveBeenGiven, After, IsRun, Sends;
      hide Converse, NoEmptyRow, Pairs, Row;
      var task := tasks[i];
      var agents := session2channel.Thing2ItemsGet(task.c);
      assert agents == Subscribers(session2channel.Rel(), task.c);
      ghost var targets := Targets(session2channel.Rel(), task);
      ghost var given := [(task.c, PayloadFor(tree, index, task))];
      ghost var sending := Started(tree, index, s.nodes[index], task);
      order := [];
      StartOfFanOut(s, i);
      ghost var left := targets;
      assert targets - left == {} && s.nodes[index].rel == session2channel.Rel();
      NothingGiven(messageQs, given);
      var todo := agents;
      while todo != {}
        invariant todo <= agents && tasks == old(tasks) && left <= targets
        invariant forall a :: a in left <==> a in targets && a in todo
        invariant Listing(order, targets - left) && HaveBeenGiven(old(messageQs), messageQs, targets - left, given)
        invariant IsRun(tree, s, Sends(index, i, order))
        invariant Fanning(tree, index, s, After(tree, s, Sends(index, i, order)), i, sending.(todo := left), messageQs)
      {
        var agent :| agent in todo;
        todo := todo - {agent};
        if task.Relay? || task.except != Some(agent) {
          OwnTarget(s, task.c, agent);
          SendOfFanOut(s, i, order, sending.(todo := left), agent);
          GiveOne(old(messageQs), messageQs, targets - left, given, agent);
          ListOne(order, targets - left, agent);
          GiveTo(agent, task);
          assert targets - left + {agent} == targets - (left - {agent});
          order := order + [agent];
          left := left - {agent};
        }
      }
      assert left == {} && targets - left == targets;
      FinishOfFanOut(s, i, order, sending.(todo := {}));
      AllGiven(old(messageQs), messageQs, targets, given);
      tasks := RemoveAt(tasks, i);
    }

    /** A target of a fan-out that is a link is the link of a child. */
    lemma OwnTarget(s: State, c: Channel, agent: Agent)
      requires Valid() && IsState(tree, s) && LinksOfChildren(tree, index, s.nodes[index])
      requires s.nodes[index].rel == session2channel.Rel() && (agent, c) in session2channel.Rel()
      ensures agent.Link? ==> tree.IsLink(agent.child) && tree.parent[agent.child] == index
    {
    }

    lemma StartOfFanOut(s: State, i: nat)
      requires Valid() && Stands(s) && i < |tasks| && (tasks[i].FanOut? || tasks[i].Relay?)
      ensures IsRun(tree, s, Sends(index, i, []))
      ensures Fanning(tree, index, s, After(tree, s, Sends(index, i, [])), i,
                      Started(tree, index, s.nodes[index], tasks[i]), messageQs)
    {
      StartFans(tree, index, s, i, messageQs);
      OneStep(tree, s, Start(index, i));
    }

    lemma SendOfFanOut(s: State, i: nat, order: seq<Agent>, sending: Task, agent: Agent)
      requires Valid() && IsState(tree, s) && IsRun(tree, s, Sends(index, i, order))
      requires Fanning(tree, index, s, After(tree, s, Sends(index, i, order)), i, sending, messageQs)
      requires sending.Sending? && agent in sending.todo
      requires agent.Link? ==> tree.IsLink(agent.child) && tree.parent[agent.child] == index
      ensures IsRun(tree, s, Sends(index, i, order + [agent]))
      ensures Fanning(tree, index, s, After(tree, s, Sends(index, i, order + [agent])), i,
                      sending.(todo := sending.todo - {agent}),
                      messageQs[agent := Queued(messageQs, agent) + [(sending.c, sending.p)]])
    {
      hide Apply, Enabled, Fanning;
      var steps := Sends(index, i, order);
      SendFans(tree, index, s, After(tree, s, steps), i, sending, messageQs, agent);
      Then(tree, s, steps, SendTo(index, i, agent));
      assert (order + [agent])[..|order|] == order;
    }

    lemma FinishOfFanOut(s: State, i: nat, order: seq<Agent>, sending: Task)
      requires Valid() && IsState(tree, s) && IsRun(tree, s, Sends(index, i, order))
      requires Fanning(tree, index, s, After(tree, s, Sends(index, i, order)), i, sending, messageQs)
      requires sending.Sending? && sending.todo == {}
      ensures IsRun(tree, s, FanOutSteps(index, i, order))
      ensures var s' := After(tree, s, FanOutSteps(index, i, order));
              && i < |s.nodes[index].tasks|
              && s'.nodes[index]
                 == s.nodes[index].(tasks := RemoveAt(s.nodes[index].tasks, i), mail := s'.nodes[index].mail)
              && InStep(tree, index, s', messageQs)
    {
      hide Apply, Enabled, InStep;
      var steps := Sends(index, i, order);
      FinishFans(tree, index, s, After(tree, s, steps), i, sending, messageQs);
      Then(tree, s, steps, Finish(index, i));
    }

    /** One turn of the fan-out loop: the payload is wrapped for the agent and queued. */
    method GiveTo(agent: Agent, task: Task)
      requires tree.IsNode(index) && (task.FanOut? || task.Relay?)
      modifies this`messageQs
      ensures messageQs ==
              old(messageQs)[agent := Queued(old(messageQs), agent) + [(task.c, PayloadFor(tree, index, task))]]
    {
      var payload;
      if task.FanOut? {
        payload := if tree.isPubSub[index] then Text(tree.serialize(task.m)) else Run(task.m);
      } else {
        payload := if tree.isPubSub[index] then Text(task.text) else Run(tree.deserialize(task.text));
      }
      messageQs := messageQs[agent := Queued(messageQs, agent) + [(task.c, payload)]];
    }
  }
}
