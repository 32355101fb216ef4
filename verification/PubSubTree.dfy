/**
 The publish/subscribe tree as a transition system.

 Every server (`Global`) is a node; node 0 is the root and every other node has a link to a
 parent with a smaller number.  A step is one atomic action of one thread of one server: an
 outside call, the run of one queued message, or one turn of a fan-out loop.  Steps of
 different servers interleave freely.
 */
module PubSubTree {
  import opened Wrappers

  type Channel = string

  /** A message object of the program, seen as its class name and its fields. */
  datatype Runnable = Runnable(typeName: string, fields: string)

  /** A subscriber at a node: a client session, or the session that fronts a child server. */
  datatype Agent = Client(key: string) | Link(child: nat)

  /** What does not change: the shape of the tree, the session keys of the links, the wire codec. */
  datatype Tree = Tree(
    parent: seq<nat>,
    linkKey: seq<Channel>,
    isPubSub: seq<bool>,
    serialize: Runnable -> string,
    deserialize: string -> Runnable)
  {
    ghost predicate Valid() {
      && 0 < |parent| == |linkKey| == |isPubSub|
      && (forall n :: 0 < n < |parent| ==> parent[n] < n && isPubSub[parent[n]])
      && (forall n :: 0 < n < |parent| ==> linkKey[n] != "")
      && (forall m :: deserialize(serialize(m)) == m)
    }

    predicate IsNode(n: int) { 0 <= n < |parent| && n < |linkKey| && n < |isPubSub| }

    predicate IsLink(n: int) { n != 0 && IsNode(n) }
  }

  /** Messages from a child's pub/sub client to its parent. */
  datatype UpMessage = Sub(c: Channel) | Unsub(c: Channel) | Pub(c: Channel, text: string)

  /** The envelope that travels down a link. */
  datatype DownMessage = P2C(c: Channel, text: string)

  /** What a fan-out hands to an agent: the message to run, or its text to be forwarded. */
  datatype Payload = Run(m: Runnable) | Text(t: string)

  /** Work given to the thread pool of a server, or left to be done by the thread in `publish`. */
  datatype Task =
    | FanOut(c: Channel, m: Runnable, except: Option<Agent>)
    | Relay(c: Channel, text: string)
    | Sending(c: Channel, p: Payload, todo: set<Agent>)
    | Promote(c: Channel, m: Runnable)

  /** A payload waiting in the message queue of a client agent. */
  datatype Mail = Mail(to: Agent, c: Channel, p: Payload)

  /**
   One server.  `up` is everything on its way to the parent that the parent has not run yet,
   `down` everything on its way from the parent, `linked` says that the parent has built the
   session for this link.  `touched` is history: a Sub or Unsub for the link's own session
   key has been sent.
   */
  datatype Node = Node(
    rel: set<(Agent, Channel)>,
    up: seq<UpMessage>,
    down: seq<DownMessage>,
    tasks: seq<Task>,
    mail: seq<Mail>,
    linked: bool,
    touched: bool)

  const NEW_NODE := Node({}, [], [], [], [], false, false)

  function Subscribers(rel: set<(Agent, Channel)>, c: Channel): (agents: set<Agent>)
    ensures forall a :: a in agents <==> (a, c) in rel
  {
    set p | p in rel && p.1 == c :: p.0
  }

  function ChannelsOf(rel: set<(Agent, Channel)>, a: Agent): (channels: set<Channel>)
    ensures forall c :: c in channels <==> (a, c) in rel
  {
    set p | p in rel && p.0 == a :: p.1
  }

  predicate IsOp(msg: UpMessage, c: Channel) {
    !msg.Pub? && msg.c == c
  }

  /** Queues a message for the parent; the root has none. */
  function SendUp(t: Tree, n: nat, nd: Node, msg: UpMessage): Node
    requires t.IsNode(n)
  {
    if n == 0 then nd
    else nd.(up := nd.up + [msg], touched := nd.touched || IsOp(msg, t.linkKey[n]))
  }

  function SubscribeAt(t: Tree, n: nat, nd: Node, a: Agent, c: Channel): Node
    requires t.IsNode(n)
  {
    if c == "" then nd
    else
      var nd' := if Subscribers(nd.rel, c) == {} then SendUp(t, n, nd, Sub(c)) else nd;
      nd'.(rel := nd'.rel + {(a, c)})
  }

  function UnsubscribeAt(t: Tree, n: nat, nd: Node, a: Agent, c: Channel): Node
    requires t.IsNode(n)
  {
    var nd' := nd.(rel := nd.rel - {(a, c)});
    if Subscribers(nd'.rel, c) == {} then SendUp(t, n, nd', Unsub(c)) else nd'
  }

  /** The end of `unsubscribeAgent`: an Unsub for each listed channel that nobody is left on. */
  function SendUnsubs(t: Tree, n: nat, nd: Node, channels: seq<Channel>): Node
    requires t.IsNode(n)
    decreases |channels|
  {
    if channels == [] then nd
    else
      var c := channels[|channels| - 1];
      var nd' := SendUnsubs(t, n, nd, channels[..|channels| - 1]);
      if Subscribers(nd'.rel, c) == {} then SendUp(t, n, nd', Unsub(c)) else nd'
  }

  function WithoutAgent(rel: set<(Agent, Channel)>, a: Agent): set<(Agent, Channel)> {
    set p | p in rel && p.0 != a
  }

  function UnsubscribeAgentAt(t: Tree, n: nat, nd: Node, a: Agent, channels: seq<Channel>): Node
    requires t.IsNode(n)
  {
    SendUnsubs(t, n, nd.(rel := WithoutAgent(nd.rel, a)), channels)
  }

  /** Only a server of the tree leaves out the session a publish came from; others ignore it. */
  function Heeded(t: Tree, n: nat, except: Option<Agent>): Option<Agent>
    requires t.IsNode(n)
  {
    if t.isPubSub[n] then except else None
  }

  function PublishAt(n: nat, nd: Node, c: Channel, m: Runnable, except: Option<Agent>): Node {
    if c == "" then nd
    else nd.(tasks := nd.tasks + [FanOut(c, m, except)] + if n == 0 then [] else [Promote(c, m)])
  }

  /** The parent `q` runs the oldest message of the link to its child `k`. */
  function RunUpMessage(t: Tree, q: nat, nd: Node, k: nat, msg: UpMessage): Node
    requires t.IsNode(q)
  {
    match msg
    case Sub(c) => SubscribeAt(t, q, nd, Link(k), c)
    case Unsub(c) => UnsubscribeAt(t, q, nd, Link(k), c)
    case Pub(c, text) => PublishAt(q, nd, c, t.deserialize(text), Heeded(t, q, Some(Link(k))))
  }

  /** The agents a fan-out task will visit, read from the index as the fan-out starts. */
  function Targets(rel: set<(Agent, Channel)>, task: Task): set<Agent>
    requires task.FanOut? || task.Relay?
  {
    if task.FanOut? && task.except.Some? then Subscribers(rel, task.c) - {task.except.value}
    else Subscribers(rel, task.c)
  }

  /** What each target of a fan-out is given: a server of the tree only forwards texts. */
  function PayloadFor(t: Tree, n: nat, task: Task): Payload
    requires t.IsNode(n)
    requires task.FanOut? || task.Relay?
  {
    if task.FanOut? then (if t.isPubSub[n] then Text(t.serialize(task.m)) else Run(task.m))
    else (if t.isPubSub[n] then Text(task.text) else Run(t.deserialize(task.text)))
  }

  function Started(t: Tree, n: nat, nd: Node, task: Task): Task
    requires t.IsNode(n)
    requires task.FanOut? || task.Relay?
  {
    Sending(task.c, PayloadFor(t, n, task), Targets(nd.rel, task))
  }

  /** The message a payload carries. */
  function Content(t: Tree, p: Payload): Runnable {
    match p case Run(m) => m case Text(s) => t.deserialize(s)
  }

  /** The text a link session writes; only servers of the tree have links, and they hold texts. */
  function Wire(t: Tree, p: Payload): string {
    match p case Run(m) => t.serialize(m) case Text(s) => s
  }

  /**
   The whole tree and its history: `published` counts the publish calls, `delivered` the
   payloads run by a client agent of a node, `crossed` the passages of a publish over the link
   between a node and its parent, in either direction.
   */
  datatype State = State(
    nodes: seq<Node>,
    published: multiset<(Channel, Runnable)>,
    delivered: multiset<(nat, Agent, Channel, Runnable)>,
    crossed: multiset<(nat, Channel, Runnable)>)

  datatype Step =
    // outside calls
    | Subscribe(n: nat, key: string, c: Channel)
    | Unsubscribe(n: nat, key: string, c: Channel)
    | UnsubscribeAgent(n: nat, key: string, channels: seq<Channel>)
    | Publish(n: nat, c: Channel, m: Runnable)
    // turns of the servers
    | Accept(n: nat)
    | Receive(n: nat)
    | PromoteUp(n: nat, i: nat)
    | Start(n: nat, i: nat)
    | SendTo(n: nat, i: nat, a: Agent)
    | Finish(n: nat, i: nat)
    | Arrive(n: nat)
    | Deliver(n: nat, i: nat)

  /** Every element of the set once, in some order. */
  ghost predicate Listing<T(!new)>(xs: seq<T>, of: set<T>) {
    && (forall x :: x in of <==> x in xs)
    && (forall i, j :: 0 <= i < j < |xs| ==> xs[i] != xs[j])
  }

  predicate Internal(step: Step) {
    !step.Subscribe? && !step.Unsubscribe? && !step.UnsubscribeAgent? && !step.Publish?
  }

  ghost predicate IsState(t: Tree, s: State) {
    t.Valid() && |s.nodes| == |t.parent|
  }

  /** When a step can be taken. */
  ghost predicate Enabled(t: Tree, s: State, step: Step): (enabled: bool)
    requires IsState(t, s)
    ensures enabled ==> t.IsNode(step.n)
  {
    && t.IsNode(step.n)
    && var nd := s.nodes[step.n];
       match step
       case Subscribe(_, _, _) => true
       case Unsubscribe(_, _, _) => true
       case UnsubscribeAgent(_, key, channels) => Listing(channels, ChannelsOf(nd.rel, Client(key)))
       case Publish(_, _, _) => true
       case Accept(n) => n != 0 && !nd.linked
       case Receive(n) => n != 0 && nd.linked && nd.up != []
       case PromoteUp(n, i) => i < |nd.tasks| && nd.tasks[i].Promote? && n != 0
       case Start(_, i) => i < |nd.tasks| && (nd.tasks[i].FanOut? || nd.tasks[i].Relay?)
       case SendTo(n, i, a) =>
         && i < |nd.tasks| && nd.tasks[i].Sending? && a in nd.tasks[i].todo
         && (a.Link? ==> t.IsLink(a.child) && t.parent[a.child] == n)
       case Finish(_, i) => i < |nd.tasks| && nd.tasks[i].Sending? && nd.tasks[i].todo == {}
       case Arrive(n) => n != 0 && nd.down != []
       case Deliver(_, i) => i < |nd.mail|
  }

  ghost function Apply(t: Tree, s: State, step: Step): (s': State)
    requires IsState(t, s) && Enabled(t, s, step)
    ensures IsState(t, s')
  {
    var n := step.n;
    var nd := s.nodes[n];
    match step
    case Subscribe(_, key, c) => s.(nodes := s.nodes[n := SubscribeAt(t, n, nd, Client(key), c)])
    case Unsubscribe(_, key, c) => s.(nodes := s.nodes[n := UnsubscribeAt(t, n, nd, Client(key), c)])
    case UnsubscribeAgent(_, key, channels) =>
      s.(nodes := s.nodes[n := UnsubscribeAgentAt(t, n, nd, Client(key), channels)])
    case Publish(_, c, m) =>
      s.(nodes := s.nodes[n := PublishAt(n, nd, c, m, None)],
         published := s.published + if c == "" then multiset{} else multiset{(c, m)})
    case Accept(_) =>
      var q := t.parent[n];
      s.(nodes := s.nodes[n := nd.(linked := true)]
                         [q := SubscribeAt(t, q, s.nodes[q], Link(n), t.linkKey[n])])
    case Receive(_) =>
      var q := t.parent[n];
      s.(nodes := s.nodes[n := nd.(up := nd.up[1..])]
                         [q := RunUpMessage(t, q, s.nodes[q], n, nd.up[0])],
         crossed := s.crossed + if nd.up[0].Pub?
                                then multiset{(n, nd.up[0].c, t.deserialize(nd.up[0].text))} else multiset{})
    case PromoteUp(_, i) =>
      var nd' := nd.(tasks := RemoveAt(nd.tasks, i));
      s.(nodes := s.nodes[n := SendUp(t, n, nd', Pub(nd.tasks[i].c, t.serialize(nd.tasks[i].m)))])
    case Start(_, i) =>
      s.(nodes := s.nodes[n := nd.(tasks := nd.tasks[i := Started(t, n, nd, nd.tasks[i])])])
    case SendTo(_, i, a) =>
      var task := nd.tasks[i];
      var nd' := nd.(tasks := nd.tasks[i := task.(todo := task.todo - {a})]);
      if a.Client? then s.(nodes := s.nodes[n := nd'.(mail := nd'.mail + [Mail(a, task.c, task.p)])])
      else
        var ch := s.nodes[a.child];
        s.(nodes := s.nodes[n := nd'][a.child := ch.(down := ch.down + [P2C(task.c, Wire(t, task.p))])])
    case Finish(_, i) => s.(nodes := s.nodes[n := nd.(tasks := RemoveAt(nd.tasks, i))])
    case Arrive(_) =>
      var P2C(c, text) := nd.down[0];
      s.(nodes := s.nodes[n := nd.(down := nd.down[1..], tasks := nd.tasks + [Relay(c, text)])],
         crossed := s.crossed + multiset{(n, c, t.deserialize(text))})
    case Deliver(_, i) =>
      var Mail(a, c, p) := nd.mail[i];
      s.(nodes := s.nodes[n := nd.(mail := RemoveAt(nd.mail, i))],
         delivered := s.delivered + multiset{(n, a, c, Content(t, p))})
  }

  /** A run: every step is enabled in the state the steps before it lead to. */
  ghost predicate IsRun(t: Tree, s: State, steps: seq<Step>)
    requires IsState(t, s)
    decreases |steps|
  {
    steps == [] || (Enabled(t, s, steps[0]) && IsRun(t, Apply(t, s, steps[0]), steps[1..]))
  }

  ghost function After(t: Tree, s: State, steps: seq<Step>): (s': State)
    requires IsState(t, s) && IsRun(t, s, steps)
    ensures IsState(t, s')
    decreases |steps|
  {
    if steps == [] then s else After(t, Apply(t, s, steps[0]), steps[1..])
  }

  /** Nothing is queued and no loop is running anywhere. */
  predicate Quiet(s: State) {
    forall n :: 0 <= n < |s.nodes| ==>
      && s.nodes[n].up == [] && s.nodes[n].down == []
      && s.nodes[n].tasks == [] && s.nodes[n].mail == []
  }

  function InitialNodes(k: nat): (nodes: seq<Node>)
    ensures |nodes| == k && forall n :: 0 <= n < k ==> nodes[n] == NEW_NODE
  {
    seq(k, _ => NEW_NODE)
  }

  /** Servers just started: no subscription, no session, nothing in flight. */
  function Initial(t: Tree): State {
    State(InitialNodes(|t.parent|), multiset{}, multiset{}, multiset{})
  }
}
