/**
 Weighing a state of the tree: a weigher gives every queued message and every task a number,
 and the total over the whole tree changes by what one step takes and what it gives.  The
 counting arguments (each copy arrives once, each link is crossed once, runs end) are
 instances of this one bookkeeping.
 */
module PubSubWeights {
  import opened Wrappers
  import opened PubSubTree

  datatype Weigher = Weigher(
    up: (nat, UpMessage) -> nat,
    down: (nat, DownMessage) -> nat,
    task: (nat, Task) -> nat,
    mail: (nat, Mail) -> nat,
    unlinked: nat -> nat)

  function SumOf<T>(s: seq<T>, n: nat, w: (nat, T) -> nat): nat {
    if s == [] then 0 else SumOf(s[..|s| - 1], n, w) + w(n, s[|s| - 1])
  }

  lemma {:induction false} SumConcat<T>(a: seq<T>, b: seq<T>, n: nat, w: (nat, T) -> nat)
    ensures SumOf(a + b, n, w) == SumOf(a, n, w) + SumOf(b, n, w)
  {
    if b == [] {
      assert a + b == a;
    } else {
      assert (a + b)[..|a + b| - 1] == a + b[..|b| - 1];
      SumConcat(a, b[..|b| - 1], n, w);
    }
  }

  lemma SumOne<T>(x: T, n: nat, w: (nat, T) -> nat)
    ensures SumOf([x], n, w) == w(n, x)
  {
    assert [x][..0] == [];
  }

  lemma SumSplit<T>(s: seq<T>, i: nat, n: nat, w: (nat, T) -> nat)
    requires i < |s|
    ensures SumOf(s, n, w) == SumOf(s[..i], n, w) + w(n, s[i]) + SumOf(s[i + 1..], n, w)
  {
    assert s == s[..i] + ([s[i]] + s[i + 1..]);
    SumConcat(s[..i], [s[i]] + s[i + 1..], n, w);
    SumConcat([s[i]], s[i + 1..], n, w);
    SumOne(s[i], n, w);
  }

  lemma SumRemoveAt<T>(s: seq<T>, i: nat, n: nat, w: (nat, T) -> nat)
    requires i < |s|
    ensures SumOf(RemoveAt(s, i), n, w) + w(n, s[i]) == SumOf(s, n, w)
  {
    SumSplit(s, i, n, w);
    SumConcat(s[..i], s[i + 1..], n, w);
  }

  lemma SumTail<T>(s: seq<T>, n: nat, w: (nat, T) -> nat)
    requires s != []
    ensures SumOf(s[1..], n, w) + w(n, s[0]) == SumOf(s, n, w)
  {
    SumRemoveAt(s, 0, n, w);
    assert RemoveAt(s, 0) == s[1..];
  }

  lemma SumReplace<T>(s: seq<T>, i: nat, x: T, n: nat, w: (nat, T) -> nat)
    requires i < |s|
    ensures SumOf(s[i := x], n, w) + w(n, s[i]) == SumOf(s, n, w) + w(n, x)
  {
    SumSplit(s, i, n, w);
    SumSplit(s[i := x], i, n, w);
    assert s[i := x][..i] == s[..i] && s[i := x][i + 1..] == s[i + 1..];
  }

  lemma SumAppend<T>(s: seq<T>, x: T, n: nat, w: (nat, T) -> nat)
    ensures SumOf(s + [x], n, w) == SumOf(s, n, w) + w(n, x)
  {
    SumConcat(s, [x], n, w);
    SumOne(x, n, w);
  }

  function NodeWeight(w: Weigher, n: nat, nd: Node): nat {
    SumOf(nd.up, n, w.up) + SumOf(nd.down, n, w.down) + SumOf(nd.tasks, n, w.task)
    + SumOf(nd.mail, n, w.mail) + if nd.linked then 0 else w.unlinked(n)
  }

  function TotalUpTo(w: Weigher, nodes: seq<Node>, k: nat): nat
    requires k <= |nodes|
  {
    if k == 0 then 0 else TotalUpTo(w, nodes, k - 1) + NodeWeight(w, k - 1, nodes[k - 1])
  }

  function Total(w: Weigher, nodes: seq<Node>): nat {
    TotalUpTo(w, nodes, |nodes|)
  }

  lemma {:induction false} TotalUpdate(w: Weigher, nodes: seq<Node>, j: nat, nd: Node, k: nat)
    requires j < |nodes| && k <= |nodes|
    ensures TotalUpTo(w, nodes[j := nd], k) + (if j < k then NodeWeight(w, j, nodes[j]) else 0)
         == TotalUpTo(w, nodes, k) + (if j < k then NodeWeight(w, j, nd) else 0)
  {
    if k > 0 {
      TotalUpdate(w, nodes, j, nd, k - 1);
    }
  }

  /** A weight that gives nothing to membership messages and to missing sessions. */
  ghost predicate OnlyPublishes(w: Weigher) {
    && (forall n, c :: w.up(n, Sub(c)) == 0 && w.up(n, Unsub(c)) == 0)
    && (forall n :: w.unlinked(n) == 0)
  }

  /** What sending `msg` up from `n` gives. */
  function UpGiven(w: Weigher, n: nat, msg: UpMessage): nat {
    if n == 0 then 0 else w.up(n, msg)
  }

  lemma SendUpWeight(t: Tree, w: Weigher, n: nat, nd: Node, msg: UpMessage)
    requires t.IsNode(n)
    ensures NodeWeight(w, n, SendUp(t, n, nd, msg)) == NodeWeight(w, n, nd) + UpGiven(w, n, msg)
  {
    SumAppend(nd.up, msg, n, w.up);
  }

  /** What a subscribe call adds: at most one Sub on the way up. */
  function SubscribeGiven(w: Weigher, n: nat, nd: Node, c: Channel): nat {
    if c != "" && Subscribers(nd.rel, c) == {} then UpGiven(w, n, Sub(c)) else 0
  }

  function UnsubscribeGiven(w: Weigher, n: nat, nd: Node, a: Agent, c: Channel): nat {
    if Subscribers(nd.rel - {(a, c)}, c) == {} then UpGiven(w, n, Unsub(c)) else 0
  }

  function PublishGiven(w: Weigher, n: nat, c: Channel, m: Runnable, except: Option<Agent>): nat {
    if c == "" then 0
    else w.task(n, FanOut(c, m, except)) + if n == 0 then 0 else w.task(n, Promote(c, m))
  }

  lemma SubscribeWeight(t: Tree, w: Weigher, n: nat, nd: Node, a: Agent, c: Channel)
    requires t.IsNode(n)
    ensures NodeWeight(w, n, SubscribeAt(t, n, nd, a, c)) == NodeWeight(w, n, nd) + SubscribeGiven(w, n, nd, c)
  {
    SendUpWeight(t, w, n, nd, Sub(c));
  }

  lemma UnsubscribeWeight(t: Tree, w: Weigher, n: nat, nd: Node, a: Agent, c: Channel)
    requires t.IsNode(n)
    ensures NodeWeight(w, n, UnsubscribeAt(t, n, nd, a, c)) == NodeWeight(w, n, nd) + UnsubscribeGiven(w, n, nd, a, c)
  {
    SendUpWeight(t, w, n, nd.(rel := nd.rel - {(a, c)}), Unsub(c));
  }

  lemma {:induction false} SendUnsubsWeight(t: Tree, w: Weigher, n: nat, nd: Node, channels: seq<Channel>)
    requires t.IsNode(n) && OnlyPublishes(w)
    ensures NodeWeight(w, n, SendUnsubs(t, n, nd, channels)) == NodeWeight(w, n, nd)
    decreases |channels|
  {
    if channels != [] {
      var front := channels[..|channels| - 1];
      SendUnsubsWeight(t, w, n, nd, front);
      SendUpWeight(t, w, n, SendUnsubs(t, n, nd, front), Unsub(channels[|channels| - 1]));
    }
  }

  lemma PublishWeight(w: Weigher, n: nat, nd: Node, c: Channel, m: Runnable, except: Option<Agent>)
    ensures NodeWeight(w, n, PublishAt(n, nd, c, m, except)) == NodeWeight(w, n, nd) + PublishGiven(w, n, c, m, except)
  {
    var f := FanOut(c, m, except);
    SumAppend(nd.tasks, f, n, w.task);
    SumAppend(nd.tasks + [f], Promote(c, m), n, w.task);
    assert nd.tasks + [f] + [] == nd.tasks + [f];
  }

  function RunUpGiven(t: Tree, w: Weigher, q: nat, nd: Node, k: nat, msg: UpMessage): nat
    requires t.IsNode(q)
  {
    match msg
    case Sub(c) => SubscribeGiven(w, q, nd, c)
    case Unsub(c) => UnsubscribeGiven(w, q, nd, Link(k), c)
    case Pub(c, text) => PublishGiven(w, q, c, t.deserialize(text), Heeded(t, q, Some(Link(k))))
  }

  lemma RunUpWeight(t: Tree, w: Weigher, q: nat, nd: Node, k: nat, msg: UpMessage)
    requires t.IsNode(q)
    ensures NodeWeight(w, q, RunUpMessage(t, q, nd, k, msg)) == NodeWeight(w, q, nd) + RunUpGiven(t, w, q, nd, k, msg)
  {
    match msg {
      case Sub(c) => SubscribeWeight(t, w, q, nd, Link(k), c);
      case Unsub(c) => UnsubscribeWeight(t, w, q, nd, Link(k), c);
      case Pub(c, text) => PublishWeight(w, q, nd, c, t.deserialize(text), Heeded(t, q, Some(Link(k))));
    }
  }

  /** What an internal step takes out of the tree. */
  ghost function Taken(t: Tree, w: Weigher, s: State, step: Step): nat
    requires IsState(t, s) && Enabled(t, s, step)
  {
    var n := step.n;
    var nd := s.nodes[n];
    match step
    case Subscribe(_, _, _) => 0
    case Unsubscribe(_, _, _) => 0
    case UnsubscribeAgent(_, _, _) => 0
    case Publish(_, _, _) => 0
    case Accept(_) => w.unlinked(n)
    case Receive(_) => w.up(n, nd.up[0])
    case PromoteUp(_, i) => w.task(n, nd.tasks[i])
    case Start(_, i) => w.task(n, nd.tasks[i])
    case SendTo(_, i, _) => w.task(n, nd.tasks[i])
    case Finish(_, i) => w.task(n, nd.tasks[i])
    case Arrive(_) => w.down(n, nd.down[0])
    case Deliver(_, i) => w.mail(n, nd.mail[i])
  }

  /** What a step puts into the tree; membership calls from outside are weighed by themselves. */
  ghost function Given(t: Tree, w: Weigher, s: State, step: Step): nat
    requires IsState(t, s) && Enabled(t, s, step)
  {
    var n := step.n;
    var nd := s.nodes[n];
    match step
    case Subscribe(_, _, c) => SubscribeGiven(w, n, nd, c)
    case Unsubscribe(_, key, c) => UnsubscribeGiven(w, n, nd, Client(key), c)
    case UnsubscribeAgent(_, _, _) => 0
    case Publish(_, c, m) => PublishGiven(w, n, c, m, None)
    case Accept(_) => SubscribeGiven(w, t.parent[n], s.nodes[t.parent[n]], t.linkKey[n])
    case Receive(_) => RunUpGiven(t, w, t.parent[n], s.nodes[t.parent[n]], n, nd.up[0])
    case PromoteUp(_, i) => w.up(n, Pub(nd.tasks[i].c, t.serialize(nd.tasks[i].m)))
    case Start(_, i) => w.task(n, Started(t, n, nd, nd.tasks[i]))
    case SendTo(_, i, a) =>
      var task := nd.tasks[i];
      w.task(n, task.(todo := task.todo - {a}))
      + if a.Client? then w.mail(n, Mail(a, task.c, task.p)) else w.down(a.child, P2C(task.c, Wire(t, task.p)))
    case Finish(_, _) => 0
    case Arrive(_) => w.task(n, Relay(nd.down[0].c, nd.down[0].text))
    case Deliver(_, _) => 0
  }

  /** Changing the node `n`, and then another node, changes the total by the changes of the two. */
  lemma TwoUpdates(w: Weigher, nodes: seq<Node>, n: nat, nd: Node, q: nat, nq: Node)
    requires n < |nodes| && q < |nodes| && n != q
    ensures Total(w, nodes[n := nd][q := nq]) + NodeWeight(w, n, nodes[n]) + NodeWeight(w, q, nodes[q])
         == Total(w, nodes) + NodeWeight(w, n, nd) + NodeWeight(w, q, nq)
  {
    TotalUpdate(w, nodes, n, nd, |nodes|);
    TotalUpdate(w, nodes[n := nd], q, nq, |nodes|);
  }

  lemma OneUpdate(w: Weigher, nodes: seq<Node>, n: nat, nd: Node)
    requires n < |nodes|
    ensures Total(w, nodes[n := nd]) + NodeWeight(w, n, nodes[n]) == Total(w, nodes) + NodeWeight(w, n, nd)
  {
    TotalUpdate(w, nodes, n, nd, |nodes|);
  }

  lemma SendToBalance(t: Tree, w: Weigher, s: State, n: nat, i: nat, a: Agent)
    requires IsState(t, s) && Enabled(t, s, SendTo(n, i, a))
    ensures Total(w, Apply(t, s, SendTo(n, i, a)).nodes) + Taken(t, w, s, SendTo(n, i, a))
         == Total(w, s.nodes) + Given(t, w, s, SendTo(n, i, a))
  {
    var nd := s.nodes[n];
    var task := nd.tasks[i];
    var nd' := nd.(tasks := nd.tasks[i := task.(todo := task.todo - {a})]);
    SumReplace(nd.tasks, i, task.(todo := task.todo - {a}), n, w.task);
    if a.Client? {
      SumAppend(nd.mail, Mail(a, task.c, task.p), n, w.mail);
      OneUpdate(w, s.nodes, n, nd'.(mail := nd'.mail + [Mail(a, task.c, task.p)]));
    } else {
      var ch := s.nodes[a.child];
      SumAppend(ch.down, P2C(task.c, Wire(t, task.p)), a.child, w.down);
      TwoUpdates(w, s.nodes, n, nd', a.child, ch.(down := ch.down + [P2C(task.c, Wire(t, task.p))]));
    }
  }

  lemma LinkBalance(t: Tree, w: Weigher, s: State, step: Step)
    requires IsState(t, s) && Enabled(t, s, step) && (step.Accept? || step.Receive?)
    ensures Total(w, Apply(t, s, step).nodes) + Taken(t, w, s, step) == Total(w, s.nodes) + Given(t, w, s, step)
  {
    var n := step.n;
    var nd := s.nodes[n];
    var q := t.parent[n];
    if step.Accept? {
      SubscribeWeight(t, w, q, s.nodes[q], Link(n), t.linkKey[n]);
      TwoUpdates(w, s.nodes, n, nd.(linked := true), q, SubscribeAt(t, q, s.nodes[q], Link(n), t.linkKey[n]));
    } else {
      SumTail(nd.up, n, w.up);
      RunUpWeight(t, w, q, s.nodes[q], n, nd.up[0]);
      TwoUpdates(w, s.nodes, n, nd.(up := nd.up[1..]), q, RunUpMessage(t, q, s.nodes[q], n, nd.up[0]));
    }
  }

  /** The balance of one step. */
  lemma StepBalance(t: Tree, w: Weigher, s: State, step: Step)
    requires IsState(t, s) && Enabled(t, s, step)
    requires step.UnsubscribeAgent? ==> OnlyPublishes(w)
    ensures Total(w, Apply(t, s, step).nodes) + Taken(t, w, s, step) == Total(w, s.nodes) + Given(t, w, s, step)
  {
    var n := step.n;
    var nd := s.nodes[n];
    if step.SendTo? {
      SendToBalance(t, w, s, n, step.i, step.a);
    } else if step.Accept? || step.Receive? {
      LinkBalance(t, w, s, step);
    } else {
      OneUpdate(w, s.nodes, n, Apply(t, s, step).nodes[n]);
      match step {
        case Subscribe(_, key, c) => SubscribeWeight(t, w, n, nd, Client(key), c);
        case Unsubscribe(_, key, c) => UnsubscribeWeight(t, w, n, nd, Client(key), c);
        case UnsubscribeAgent(_, key, channels) =>
          SendUnsubsWeight(t, w, n, nd.(rel := WithoutAgent(nd.rel, Client(key))), channels);
        case Publish(_, c, m) => PublishWeight(w, n, nd, c, m, None);
        case PromoteUp(_, i) =>
          SumRemoveAt(nd.tasks, i, n, w.task);
          SendUpWeight(t, w, n, nd.(tasks := RemoveAt(nd.tasks, i)), Pub(nd.tasks[i].c, t.serialize(nd.tasks[i].m)));
        case Start(_, i) => SumReplace(nd.tasks, i, Started(t, n, nd, nd.tasks[i]), n, w.task);
        case Finish(_, i) => SumRemoveAt(nd.tasks, i, n, w.task);
        case Arrive(_) =>
          SumTail(nd.down, n, w.down);
          SumAppend(nd.tasks, Relay(nd.down[0].c, nd.down[0].text), n, w.task);
        case Deliver(_, i) => SumRemoveAt(nd.mail, i, n, w.mail);
      }
    }
  }
}
