/**
 What the messages in flight look like: every text is the serialization of the message it
 stands for, whatever depth it has reached; fan-outs go to the node's own children only; and,
 while nobody unsubscribes, no message comes down to a node that does not want it.
 */
module PubSubTraffic {
  import opened Wrappers
  import opened PubSubTree
  import opened PubSubLinks
  import opened PubSubDelivery

  /** The text is what serializing its message gives. */
  predicate Canonical(t: Tree, text: string) {
    t.serialize(t.deserialize(text)) == text
  }

  /** A server of the tree only forwards texts; any other runs the messages. */
  predicate Forwards(t: Tree, n: nat) { n < |t.isPubSub| && t.isPubSub[n] }

  predicate TaskInOrder(t: Tree, n: nat, task: Task) {
    match task
    case FanOut(_, _, _) => true
    case Relay(_, text) => Canonical(t, text)
    case Sending(_, p, todo) =>
      && (p.Text? <==> Forwards(t, n)) && (p.Text? ==> Canonical(t, p.t))
      && (forall a :: a in todo && a.Link? ==> t.IsLink(a.child) && a.child < |t.parent| && t.parent[a.child] == n)
    case Promote(_, _) => n != 0
  }

  predicate UpInOrder(t: Tree, msg: UpMessage) { msg.Pub? ==> Canonical(t, msg.text) }

  predicate DownInOrder(t: Tree, msg: DownMessage) { Canonical(t, msg.text) }

  predicate MailInOrder(t: Tree, n: nat, mail: Mail) {
    (mail.p.Text? <==> Forwards(t, n)) && (mail.p.Text? ==> Canonical(t, mail.p.t))
  }

  predicate NodeInOrder(t: Tree, n: nat, nd: Node) {
    && (forall i :: 0 <= i < |nd.up| ==> UpInOrder(t, nd.up[i]))
    && (forall i :: 0 <= i < |nd.down| ==> DownInOrder(t, nd.down[i]))
    && (forall i :: 0 <= i < |nd.tasks| ==> TaskInOrder(t, n, nd.tasks[i]))
    && (forall i :: 0 <= i < |nd.mail| ==> MailInOrder(t, n, nd.mail[i]))
    && (n == 0 ==> nd.up == [] && nd.down == [])
  }

  ghost predicate InOrder(t: Tree, s: State)
    requires IsState(t, s)
  {
    forall n :: t.IsNode(n) ==> NodeInOrder(t, n, s.nodes[n])
  }

  lemma SendUpInOrder(t: Tree, n: nat, nd: Node, msg: UpMessage)
    requires t.IsNode(n) && NodeInOrder(t, n, nd) && UpInOrder(t, msg)
    ensures NodeInOrder(t, n, SendUp(t, n, nd, msg))
  {
  }

  lemma SubscribeInOrder(t: Tree, n: nat, nd: Node, a: Agent, c: Channel)
    requires t.IsNode(n) && NodeInOrder(t, n, nd)
    ensures NodeInOrder(t, n, SubscribeAt(t, n, nd, a, c))
  {
    SendUpInOrder(t, n, nd, Sub(c));
  }

  lemma UnsubscribeInOrder(t: Tree, n: nat, nd: Node, a: Agent, c: Channel)
    requires t.IsNode(n) && NodeInOrder(t, n, nd)
    ensures NodeInOrder(t, n, UnsubscribeAt(t, n, nd, a, c))
  {
    SendUpInOrder(t, n, nd.(rel := nd.rel - {(a, c)}), Unsub(c));
  }

  lemma {:induction false} SendUnsubsInOrder(t: Tree, n: nat, nd: Node, channels: seq<Channel>)
    requires t.IsNode(n) && NodeInOrder(t, n, nd)
    ensures NodeInOrder(t, n, SendUnsubs(t, n, nd, channels))
    decreases |channels|
  {
    if channels != [] {
      var front := channels[..|channels| - 1];
      SendUnsubsInOrder(t, n, nd, front);
      SendUpInOrder(t, n, SendUnsubs(t, n, nd, front), Unsub(channels[|channels| - 1]));
    }
  }

  lemma PublishInOrder(t: Tree, n: nat, nd: Node, c: Channel, m: Runnable, except: Option<Agent>)
    requires NodeInOrder(t, n, nd)
    ensures NodeInOrder(t, n, PublishAt(n, nd, c, m, except))
  {
  }

  lemma RunUpInOrder(t: Tree, q: nat, nd: Node, k: nat, msg: UpMessage)
    requires t.IsNode(q) && NodeInOrder(t, q, nd)
    ensures NodeInOrder(t, q, RunUpMessage(t, q, nd, k, msg))
  {
    match msg {
      case Sub(c) => SubscribeInOrder(t, q, nd, Link(k), c);
      case Unsub(c) => UnsubscribeInOrder(t, q, nd, Link(k), c);
      case Pub(c, text) => PublishInOrder(t, q, nd, c, t.deserialize(text), Heeded(t, q, Some(Link(k))));
    }
  }

  lemma CallInOrder(t: Tree, s: State, step: Step, n: nat)
    requires IsState(t, s) && Enabled(t, s, step) && t.IsNode(n) && !Internal(step)
    requires NodeInOrder(t, n, s.nodes[n])
    ensures NodeInOrder(t, n, Apply(t, s, step).nodes[n])
  {
    var nd := s.nodes[n];
    if step.n == n {
      match step {
        case Subscribe(_, key, c) => SubscribeInOrder(t, n, nd, Client(key), c);
        case Unsubscribe(_, key, c) => UnsubscribeInOrder(t, n, nd, Client(key), c);
        case UnsubscribeAgent(_, key, channels) =>
          SendUnsubsInOrder(t, n, nd.(rel := WithoutAgent(nd.rel, Client(key))), channels);
        case Publish(_, c, m) => PublishInOrder(t, n, nd, c, m, None);
      }
    }
  }

  lemma LinkTurnInOrder(t: Tree, s: State, step: Step, n: nat)
    requires IsState(t, s) && Enabled(t, s, step) && t.IsNode(n) && (step.Accept? || step.Receive?)
    requires NodeInOrder(t, n, s.nodes[n])
    ensures NodeInOrder(t, n, Apply(t, s, step).nodes[n])
  {
    var nd := s.nodes[n];
    if t.parent[step.n] == n {
      if step.Accept? {
        SubscribeInOrder(t, n, nd, Link(step.n), t.linkKey[step.n]);
      } else {
        RunUpInOrder(t, n, nd, step.n, s.nodes[step.n].up[0]);
      }
    }
  }

  lemma StartInOrder(t: Tree, s: State, n: nat, i: nat)
    requires IsState(t, s) && Enabled(t, s, Start(n, i)) && LinkInvariant(t, s)
    requires NodeInOrder(t, n, s.nodes[n])
    ensures TaskInOrder(t, n, Started(t, n, s.nodes[n], s.nodes[n].tasks[i]))
  {
    assert TaskInOrder(t, n, s.nodes[n].tasks[i]);
    assert LinksOfChildren(t, n, s.nodes[n]);
  }

  lemma SendInOrder(t: Tree, s: State, step: Step, n: nat)
    requires IsState(t, s) && Enabled(t, s, step) && t.IsNode(n) && step.SendTo?
    requires NodeInOrder(t, n, s.nodes[n]) && NodeInOrder(t, step.n, s.nodes[step.n])
    ensures NodeInOrder(t, n, Apply(t, s, step).nodes[n])
  {
    var task := s.nodes[step.n].tasks[step.i];
    assert TaskInOrder(t, step.n, task);
    assert TaskInOrder(t, step.n, task.(todo := task.todo - {step.a}));
    assert Canonical(t, Wire(t, task.p));
  }

  lemma PromoteInOrder(t: Tree, s: State, step: Step, n: nat)
    requires IsState(t, s) && Enabled(t, s, step) && t.IsNode(n) && step.PromoteUp?
    requires NodeInOrder(t, n, s.nodes[n])
    ensures NodeInOrder(t, n, Apply(t, s, step).nodes[n])
  {
    var nd := s.nodes[step.n];
    if step.n == n {
      SendUpInOrder(t, n, nd.(tasks := RemoveAt(nd.tasks, step.i)),
                    Pub(nd.tasks[step.i].c, t.serialize(nd.tasks[step.i].m)));
    }
  }

  lemma TaskTurnInOrder(t: Tree, s: State, step: Step, n: nat)
    requires IsState(t, s) && Enabled(t, s, step) && LinkInvariant(t, s) && t.IsNode(n)
    requires step.PromoteUp? || step.Start? || step.Finish? || step.SendTo?
    requires NodeInOrder(t, n, s.nodes[n]) && NodeInOrder(t, step.n, s.nodes[step.n])
    ensures NodeInOrder(t, n, Apply(t, s, step).nodes[n])
  {
    if step.SendTo? {
      SendInOrder(t, s, step, n);
    } else if step.PromoteUp? {
      PromoteInOrder(t, s, step, n);
    } else if step.Start? {
      StartInOrder(t, s, step.n, step.i);
    }
  }

  lemma LastTurnInOrder(t: Tree, s: State, step: Step, n: nat)
    requires IsState(t, s) && Enabled(t, s, step) && t.IsNode(n) && (step.Arrive? || step.Deliver?)
    requires NodeInOrder(t, n, s.nodes[n])
    ensures NodeInOrder(t, n, Apply(t, s, step).nodes[n])
  {
  }

  lemma StepKeepsOrder(t: Tree, s: State, step: Step)
    requires IsState(t, s) && Enabled(t, s, step) && LinkInvariant(t, s) && InOrder(t, s)
    ensures InOrder(t, Apply(t, s, step))
  {
    hide NodeInOrder, LinkInvariant;
    forall n | t.IsNode(n)
      ensures NodeInOrder(t, n, Apply(t, s, step).nodes[n])
    {
      assert NodeInOrder(t, n, s.nodes[n]) && NodeInOrder(t, step.n, s.nodes[step.n]);
      if !Internal(step) {
        CallInOrder(t, s, step, n);
      } else if step.Accept? || step.Receive? {
        LinkTurnInOrder(t, s, step, n);
      } else if step.PromoteUp? || step.Start? || step.Finish? || step.SendTo? {
        TaskTurnInOrder(t, s, step, n);
      } else {
        LastTurnInOrder(t, s, step, n);
      }
    }
  }

  lemma {:induction false} RunKeepsOrder(t: Tree, s: State, steps: seq<Step>)
    requires IsState(t, s) && IsRun(t, s, steps) && LinkInvariant(t, s) && InOrder(t, s)
    ensures LinkInvariant(t, After(t, s, steps)) && InOrder(t, After(t, s, steps))
    decreases |steps|
  {
    if steps != [] {
      StepKeepsLinks(t, s, steps[0]);
      StepKeepsOrder(t, s, steps[0]);
      RunKeepsOrder(t, Apply(t, s, steps[0]), steps[1..]);
    }
  }

  lemma ReachableInOrder(t: Tree, steps: seq<Step>)
    requires t.Valid() && IsRun(t, Initial(t), steps)
    ensures LinkInvariant(t, After(t, Initial(t), steps)) && InOrder(t, After(t, Initial(t), steps))
  {
    hide LinkInvariant;
    InitialLinks(t);
    RunKeepsOrder(t, Initial(t), steps);
  }

  /** At every depth and in every reachable state, the text in flight for `m` is `m` serialized. */
  lemma SameTextEverywhere(t: Tree, steps: seq<Step>, n: nat, i: nat, m: Runnable)
    requires t.Valid() && IsRun(t, Initial(t), steps) && t.IsNode(n)
    ensures var nd := After(t, Initial(t), steps).nodes[n];
            && (i < |nd.up| && nd.up[i].Pub? && t.deserialize(nd.up[i].text) == m ==> nd.up[i].text == t.serialize(m))
            && (i < |nd.down| && t.deserialize(nd.down[i].text) == m ==> nd.down[i].text == t.serialize(m))
            && (i < |nd.mail| && nd.mail[i].p.Text? && Content(t, nd.mail[i].p) == m
                ==> nd.mail[i].p.t == t.serialize(m))
  {
    ReachableInOrder(t, steps);
    var nd := After(t, Initial(t), steps).nodes[n];
    assert NodeInOrder(t, n, nd);
    assert i < |nd.up| ==> UpInOrder(t, nd.up[i]);
    assert i < |nd.down| ==> DownInOrder(t, nd.down[i]);
    assert i < |nd.mail| ==> MailInOrder(t, n, nd.mail[i]);
  }

  /** In every reachable state a client of a server of the tree holds texts, any other messages to run. */
  lemma MailIsRunOrForwarded(t: Tree, steps: seq<Step>, n: nat, i: nat)
    requires t.Valid() && IsRun(t, Initial(t), steps) && t.IsNode(n)
    ensures var nd := After(t, Initial(t), steps).nodes[n];
            i < |nd.mail| ==> (nd.mail[i].p.Run? <==> !t.isPubSub[n])
  {
    ReachableInOrder(t, steps);
    var nd := After(t, Initial(t), steps).nodes[n];
    assert NodeInOrder(t, n, nd);
    assert i < |nd.mail| ==> MailInOrder(t, n, nd.mail[i]);
  }

  // --- nothing comes down to a node that does not want it ---

  /** The link to `k` is on record at its parent. */
  ghost predicate OnRecord(t: Tree, s: State, k: nat, c: Channel)
    requires IsState(t, s)
  {
    t.IsLink(k) && (Link(k), c) in s.nodes[t.parent[k]].rel
  }

  ghost predicate SendsOnRecord(t: Tree, s: State, q: nat, task: Task)
    requires IsState(t, s)
  {
    task.Sending? ==>
      forall k: nat :: (Link(k) in task.todo && t.IsLink(k) && t.parent[k] == q) ==> OnRecord(t, s, k, task.c)
  }

  /** Everything on its way down a link, or just come down it, is on a channel on record. */
  ghost predicate DownOnRecord(t: Tree, s: State)
    requires IsState(t, s)
  {
    && (forall k, i :: t.IsNode(k) && 0 <= i < |s.nodes[k].down| ==> OnRecord(t, s, k, s.nodes[k].down[i].c))
    && (forall k, i :: t.IsNode(k) && 0 <= i < |s.nodes[k].tasks| && s.nodes[k].tasks[i].Relay? ==>
          OnRecord(t, s, k, s.nodes[k].tasks[i].c))
    && (forall q, i :: t.IsNode(q) && 0 <= i < |s.nodes[q].tasks| ==> SendsOnRecord(t, s, q, s.nodes[q].tasks[i]))
  }

  /** Relations only grow from one state to the next. */
  ghost predicate Grown(t: Tree, s: State, s': State)
    requires IsState(t, s) && IsState(t, s')
  {
    forall n :: t.IsNode(n) ==> s.nodes[n].rel <= s'.nodes[n].rel
  }

  /** The queue down to `k` grows only by what its parent sends to it. */
  lemma DownOrigin(t: Tree, s: State, step: Step, k: nat)
    requires IsState(t, s) && Enabled(t, s, step) && t.IsNode(k) && !Leaves(step)
    ensures var down' := Apply(t, s, step).nodes[k].down;
            if step == Arrive(k) then down' == s.nodes[k].down[1..]
            else if step.SendTo? && step.a == Link(k) then
              var task := s.nodes[step.n].tasks[step.i];
              down' == s.nodes[k].down + [P2C(task.c, Wire(t, task.p))]
            else down' == s.nodes[k].down
  {
    if step.Accept? || step.Receive? {
      DownAtLinkTurn(t, s, step, k);
    }
  }

  lemma DownAtLinkTurn(t: Tree, s: State, step: Step, k: nat)
    requires IsState(t, s) && Enabled(t, s, step) && t.IsNode(k) && (step.Accept? || step.Receive?)
    ensures Apply(t, s, step).nodes[k].down == s.nodes[k].down
  {
  }

  lemma DownQueueKept(t: Tree, s: State, step: Step, k: nat, i: nat)
    requires IsState(t, s) && Enabled(t, s, step) && DownOnRecord(t, s) && t.IsNode(k) && !Leaves(step)
    requires i < |Apply(t, s, step).nodes[k].down| && Grown(t, s, Apply(t, s, step))
    ensures OnRecord(t, Apply(t, s, step), k, Apply(t, s, step).nodes[k].down[i].c)
  {
    DownOrigin(t, s, step, k);
    if step == Arrive(k) {
      assert OnRecord(t, s, k, s.nodes[k].down[i + 1].c);
    } else if i < |s.nodes[k].down| {
      assert OnRecord(t, s, k, s.nodes[k].down[i].c);
    } else {
      assert SendsOnRecord(t, s, step.n, s.nodes[step.n].tasks[step.i]);
    }
  }

  predicate Fresh(task: Task) { task.FanOut? || task.Promote? }

  /** Calls and messages from below add at most a new fan-out and its promotion. */
  lemma PublishedTasks(t: Tree, s: State, step: Step, n: nat)
    requires IsState(t, s) && Enabled(t, s, step) && t.IsNode(n)
    requires step.Subscribe? || step.Publish? || step.Accept? || step.Receive?
    ensures var tasks' := Apply(t, s, step).nodes[n].tasks;
            forall i :: 0 <= i < |tasks'| ==> Fresh(tasks'[i]) || tasks'[i] in s.nodes[n].tasks
  {
    var nd := s.nodes[n];
    if step.Receive? && t.parent[step.n] == n {
      TasksOfMessage(t, n, nd, step.n, s.nodes[step.n].up[0]);
    } else if step.Publish? && step.n == n {
      TasksOfPublish(n, nd, step.c, step.m, None);
    }
  }

  predicate OnlyFreshAdded(nd: Node, nd': Node) {
    forall i :: 0 <= i < |nd'.tasks| ==> Fresh(nd'.tasks[i]) || nd'.tasks[i] in nd.tasks
  }

  lemma TasksOfPublish(n: nat, nd: Node, c: Channel, m: Runnable, except: Option<Agent>)
    ensures OnlyFreshAdded(nd, PublishAt(n, nd, c, m, except))
  {
  }

  lemma TasksOfMessage(t: Tree, q: nat, nd: Node, k: nat, msg: UpMessage)
    requires t.IsNode(q)
    ensures OnlyFreshAdded(nd, RunUpMessage(t, q, nd, k, msg))
  {
    if msg.Pub? {
      TasksOfPublish(q, nd, msg.c, t.deserialize(msg.text), Heeded(t, q, Some(Link(k))));
    }
  }

  lemma OtherTasks(t: Tree, s: State, step: Step, n: nat)
    requires IsState(t, s) && Enabled(t, s, step) && t.IsNode(n)
    requires step.Finish? || step.PromoteUp? || step.Deliver?
    ensures var tasks' := Apply(t, s, step).nodes[n].tasks;
            forall i :: 0 <= i < |tasks'| ==> tasks'[i] in s.nodes[n].tasks
  {
  }

  lemma StartedTask(t: Tree, s: State, q: nat, i: nat, n: nat, j: nat)
    requires IsState(t, s) && Enabled(t, s, Start(q, i)) && DownOnRecord(t, s) && t.IsNode(n)
    requires j < |Apply(t, s, Start(q, i)).nodes[n].tasks|
    ensures var task := Apply(t, s, Start(q, i)).nodes[n].tasks[j];
            (task.Relay? ==> OnRecord(t, s, n, task.c)) && SendsOnRecord(t, s, n, task)
  {
    assert j < |s.nodes[n].tasks| ==> SendsOnRecord(t, s, n, s.nodes[n].tasks[j]);
  }

  lemma SentTask(t: Tree, s: State, q: nat, i: nat, a: Agent, n: nat, j: nat)
    requires IsState(t, s) && Enabled(t, s, SendTo(q, i, a)) && DownOnRecord(t, s) && t.IsNode(n)
    requires j < |Apply(t, s, SendTo(q, i, a)).nodes[n].tasks|
    ensures var task := Apply(t, s, SendTo(q, i, a)).nodes[n].tasks[j];
            (task.Relay? ==> OnRecord(t, s, n, task.c)) && SendsOnRecord(t, s, n, task)
  {
    assert j < |s.nodes[n].tasks| ==> SendsOnRecord(t, s, n, s.nodes[n].tasks[j]);
  }

  lemma ArrivedTask(t: Tree, s: State, k: nat, n: nat, j: nat)
    requires IsState(t, s) && Enabled(t, s, Arrive(k)) && DownOnRecord(t, s) && t.IsNode(n)
    requires j < |Apply(t, s, Arrive(k)).nodes[n].tasks|
    ensures var task := Apply(t, s, Arrive(k)).nodes[n].tasks[j];
            (task.Relay? ==> OnRecord(t, s, n, task.c)) && SendsOnRecord(t, s, n, task)
  {
    assert OnRecord(t, s, k, s.nodes[k].down[0].c);
    assert j < |s.nodes[n].tasks| ==> SendsOnRecord(t, s, n, s.nodes[n].tasks[j]);
  }

  lemma TasksKept(t: Tree, s: State, step: Step, q: nat, i: nat)
    requires IsState(t, s) && Enabled(t, s, step) && DownOnRecord(t, s) && t.IsNode(q) && !Leaves(step)
    requires i < |Apply(t, s, step).nodes[q].tasks|
    ensures var task := Apply(t, s, step).nodes[q].tasks[i];
            (task.Relay? ==> OnRecord(t, s, q, task.c)) && SendsOnRecord(t, s, q, task)
  {
    var task := Apply(t, s, step).nodes[q].tasks[i];
    if step.Start? {
      StartedTask(t, s, step.n, step.i, q, i);
    } else if step.SendTo? {
      SentTask(t, s, step.n, step.i, step.a, q, i);
    } else if step.Arrive? {
      ArrivedTask(t, s, step.n, q, i);
    } else {
      if step.Finish? || step.PromoteUp? || step.Deliver? {
        OtherTasks(t, s, step, q);
      } else {
        PublishedTasks(t, s, step, q);
      }
      if task in s.nodes[q].tasks {
        var j :| 0 <= j < |s.nodes[q].tasks| && s.nodes[q].tasks[j] == task;
        assert SendsOnRecord(t, s, q, s.nodes[q].tasks[j]);
      }
    }
  }

  lemma StepKeepsDownOnRecord(t: Tree, s: State, step: Step)
    requires IsState(t, s) && Enabled(t, s, step) && DownOnRecord(t, s) && NoUnsubQueued(s) && !Leaves(step)
    ensures NoUnsubQueued(Apply(t, s, step)) && DownOnRecord(t, Apply(t, s, step))
  {
    JoiningKeepsRelations(t, s, step);
    var s' := Apply(t, s, step);
    forall k, i | t.IsNode(k) && 0 <= i < |s'.nodes[k].down|
      ensures OnRecord(t, s', k, s'.nodes[k].down[i].c)
    {
      DownQueueKept(t, s, step, k, i);
    }
    forall q, i | t.IsNode(q) && 0 <= i < |s'.nodes[q].tasks|
      ensures var task := s'.nodes[q].tasks[i];
              (task.Relay? ==> OnRecord(t, s', q, task.c)) && SendsOnRecord(t, s', q, task)
    {
      TasksKept(t, s, step, q, i);
    }
  }

  lemma {:induction false} RunKeepsDownOnRecord(t: Tree, s: State, steps: seq<Step>)
    requires IsState(t, s) && IsRun(t, s, steps) && LinkInvariant(t, s)
    requires DownOnRecord(t, s) && NoUnsubQueued(s)
    requires forall i :: 0 <= i < |steps| ==> !Leaves(steps[i])
    ensures var s' := After(t, s, steps);
            LinkInvariant(t, s') && DownOnRecord(t, s') && NoUnsubQueued(s')
    decreases |steps|
  {
    if steps != [] {
      assert !Leaves(steps[0]);
      StepKeepsLinks(t, s, steps[0]);
      StepKeepsDownOnRecord(t, s, steps[0]);
      RunKeepsDownOnRecord(t, Apply(t, s, steps[0]), steps[1..]);
    }
  }

  lemma {:induction false} ReplayOfSubs(up: seq<UpMessage>, c: Channel)
    requires NoUnsub(up)
    ensures Replay(true, up, c)
    decreases |up|
  {
    if up != [] {
      ReplayOfSubs(up[..|up| - 1], c);
    }
  }

  /**
   After a reachable state with nothing in flight, while nobody unsubscribes, a message that
   has come down to a node finds a subscriber there, unless its channel is the node's own
   untouched session key.
   */
  lemma ComesDownToSubscribers(t: Tree, before: seq<Step>, steps: seq<Step>, n: nat, i: nat)
    requires t.Valid() && IsRun(t, Initial(t), before) && t.IsNode(n)
    requires Quiet(After(t, Initial(t), before)) && IsRun(t, After(t, Initial(t), before), steps)
    requires forall j :: 0 <= j < |steps| ==> !Leaves(steps[j])
    ensures var s := After(t, After(t, Initial(t), before), steps);
            var nd := s.nodes[n];
            i < |nd.tasks| && nd.tasks[i].Relay? ==>
              n != 0 && (Subscribers(nd.rel, nd.tasks[i].c) != {}
                         <==> nd.tasks[i].c != t.linkKey[n] || !nd.linked || nd.touched)
  {
    InitialLinks(t);
    RunKeepsLinks(t, Initial(t), before);
    var s0 := After(t, Initial(t), before);
    assert NoUnsubQueued(s0) && DownOnRecord(t, s0);
    RunKeepsDownOnRecord(t, s0, steps);
    var s := After(t, s0, steps);
    var nd := s.nodes[n];
    if i < |nd.tasks| && nd.tasks[i].Relay? {
      var c := nd.tasks[i].c;
      assert OnRecord(t, s, n, c);
      ReplayOfSubs(nd.up, c);
      assert LinkOk(t, n, nd, s.nodes[t.parent[n]].rel);
      assert Wanted(t, n, nd, c);
    }
  }

  /** One more step of a run. */
  lemma {:induction false} Then(t: Tree, s: State, steps: seq<Step>, step: Step)
    requires IsState(t, s) && IsRun(t, s, steps) && Enabled(t, After(t, s, steps), step)
    ensures IsRun(t, s, steps + [step])
    ensures After(t, s, steps + [step]) == Apply(t, After(t, s, steps), step)
    decreases |steps|
  {
    hide Enabled;
    if steps == [] {
      assert ([] + [step])[1..] == [];
      assert IsRun(t, Apply(t, s, step), []);
      assert After(t, Apply(t, s, step), []) == Apply(t, s, step);
    } else {
      Then(t, Apply(t, s, steps[0]), steps[1..], step);
      assert (steps + [step])[1..] == steps[1..] + [step];
    }
  }

  /**
   The exception does occur: in a tree of two servers, a publish on the session key of the
   link, at the root, comes down to a node where nobody is subscribed to it.
   */
  lemma SessionKeyComesDown(t: Tree, m: Runnable)
    requires t.Valid() && |t.parent| == 2
    ensures var key := t.linkKey[1];
            var steps := [Accept(1)] + [Publish(0, key, m)] + [Start(0, 0)] + [SendTo(0, 0, Link(1))] + [Arrive(1)];
            && IsRun(t, Initial(t), steps)
            && var nd := After(t, Initial(t), steps).nodes[1];
               nd.tasks == [Relay(key, t.serialize(m))] && Subscribers(nd.rel, key) == {}
  {
    hide Enabled, Apply;
    var key, text := t.linkKey[1], t.serialize(m);
    var sent := Sending(key, Text(text), {});
    var linked := KeyState(t, m, [], [], [], false, false);
    var published := KeyState(t, m, [FanOut(key, m, None)], [], [], true, false);
    var started := KeyState(t, m, [sent.(todo := {Link(1)})], [], [], true, false);
    var sentDown := KeyState(t, m, [sent], [P2C(key, text)], [], true, false);
    KeyAccepted(t, m);
    OneStep(t, Initial(t), Accept(1));
    KeyPublished(t, m);
    Then(t, Initial(t), [Accept(1)], Publish(0, key, m));
    KeyStarted(t, m);
    Then(t, Initial(t), [Accept(1)] + [Publish(0, key, m)], Start(0, 0));
    KeySent(t, m);
    Then(t, Initial(t), [Accept(1)] + [Publish(0, key, m)] + [Start(0, 0)], SendTo(0, 0, Link(1)));
    KeyArrived(t, m);
    Then(t, Initial(t), [Accept(1)] + [Publish(0, key, m)] + [Start(0, 0)] + [SendTo(0, 0, Link(1))], Arrive(1));
  }

  lemma OneStep(t: Tree, s: State, step: Step)
    requires IsState(t, s) && Enabled(t, s, step)
    ensures IsRun(t, s, [step]) && After(t, s, [step]) == Apply(t, s, step)
  {
    hide Enabled, Apply;
    assert [step][1..] == [];
    assert IsRun(t, Apply(t, s, step), []);
    assert After(t, Apply(t, s, step), []) == Apply(t, s, step);
  }

  /** Two servers whose only subscription is the link's own session key. */
  ghost function KeyState(t: Tree, m: Runnable, fanOuts: seq<Task>, down: seq<DownMessage>, relays: seq<Task>,
                          published: bool, crossed: bool): State
    requires |t.linkKey| == 2
  {
    var key := t.linkKey[1];
    State([NEW_NODE.(rel := {(Link(1), key)}, tasks := fanOuts),
           NEW_NODE.(linked := true, down := down, tasks := relays)],
          if published then multiset{(key, m)} else multiset{}, multiset{},
          if crossed then multiset{(1, key, m)} else multiset{})
  }

  lemma KeyAccepted(t: Tree, m: Runnable)
    requires t.Valid() && |t.parent| == 2
    ensures Enabled(t, Initial(t), Accept(1))
    ensures Apply(t, Initial(t), Accept(1)) == KeyState(t, m, [], [], [], false, false)
  {
    assert t.parent[1] == 0;
    SameKeyState(Apply(t, Initial(t), Accept(1)), KeyState(t, m, [], [], [], false, false));
  }

  lemma SameKeyState(a: State, b: State)
    requires |a.nodes| == |b.nodes| == 2 && a.nodes[0] == b.nodes[0] && a.nodes[1] == b.nodes[1]
    requires a.published == b.published && a.delivered == b.delivered && a.crossed == b.crossed
    ensures a == b
  {
    assert a.nodes == b.nodes;
  }

  lemma KeyPublished(t: Tree, m: Runnable)
    requires t.Valid() && |t.parent| == 2
    ensures var key := t.linkKey[1];
            var s := KeyState(t, m, [], [], [], false, false);
            Enabled(t, s, Publish(0, key, m))
            && Apply(t, s, Publish(0, key, m)) == KeyState(t, m, [FanOut(key, m, None)], [], [], true, false)
  {
    var s := KeyState(t, m, [], [], [], false, false);
    SameKeyState(Apply(t, s, Publish(0, t.linkKey[1], m)),
                 KeyState(t, m, [FanOut(t.linkKey[1], m, None)], [], [], true, false));
  }

  lemma KeyStarted(t: Tree, m: Runnable)
    requires t.Valid() && |t.parent| == 2
    ensures var key := t.linkKey[1];
            var s := KeyState(t, m, [FanOut(key, m, None)], [], [], true, false);
            Enabled(t, s, Start(0, 0))
            && Apply(t, s, Start(0, 0))
               == KeyState(t, m, [Sending(key, Text(t.serialize(m)), {Link(1)})], [], [], true, false)
  {
    assert t.parent[1] == 0;
    assert Subscribers({(Link(1), t.linkKey[1])}, t.linkKey[1]) == {Link(1)};
    var s := KeyState(t, m, [FanOut(t.linkKey[1], m, None)], [], [], true, false);
    SameKeyState(Apply(t, s, Start(0, 0)),
                 KeyState(t, m, [Sending(t.linkKey[1], Text(t.serialize(m)), {Link(1)})], [], [], true, false));
  }

  lemma KeySent(t: Tree, m: Runnable)
    requires t.Valid() && |t.parent| == 2
    ensures var key, text := t.linkKey[1], t.serialize(m);
            var s := KeyState(t, m, [Sending(key, Text(text), {Link(1)})], [], [], true, false);
            Enabled(t, s, SendTo(0, 0, Link(1)))
            && Apply(t, s, SendTo(0, 0, Link(1)))
               == KeyState(t, m, [Sending(key, Text(text), {})], [P2C(key, text)], [], true, false)
  {
    assert t.parent[1] == 0;
    assert {Link(1)} - {Link(1)} == {};
    var key, text := t.linkKey[1], t.serialize(m);
    var s := KeyState(t, m, [Sending(key, Text(text), {Link(1)})], [], [], true, false);
    SameKeyState(Apply(t, s, SendTo(0, 0, Link(1))),
                 KeyState(t, m, [Sending(key, Text(text), {})], [P2C(key, text)], [], true, false));
  }

  lemma KeyArrived(t: Tree, m: Runnable)
    requires t.Valid() && |t.parent| == 2
    ensures var key, text := t.linkKey[1], t.serialize(m);
            var s := KeyState(t, m, [Sending(key, Text(text), {})], [P2C(key, text)], [], true, false);
            Enabled(t, s, Arrive(1))
            && Apply(t, s, Arrive(1))
               == KeyState(t, m, [Sending(key, Text(text), {})], [], [Relay(key, text)], true, true)
  {
    var key, text := t.linkKey[1], t.serialize(m);
    var s := KeyState(t, m, [Sending(key, Text(text), {})], [P2C(key, text)], [], true, false);
    SameKeyState(Apply(t, s, Arrive(1)),
                 KeyState(t, m, [Sending(key, Text(text), {})], [], [Relay(key, text)], true, true));
  }
}
