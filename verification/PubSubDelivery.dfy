/**
 Delivery of publishes: no client and no link ever sees a publish twice, in any run; a client
 that is subscribed all the way up sees it exactly once, whoever else joins or leaves meanwhile.
 */
module PubSubDelivery {
  import opened Wrappers
  import opened PubSubTree
  import opened PubSubWeights
  import opened PubSubLinks

  /** Where copies are counted: at a client session of node `x`, or on the link above node `e`. */
  datatype Target = AtClient(x: nat, key: string) | OnLink(e: nat)

  predicate IsTarget(t: Tree, tg: Target) {
    match tg case AtClient(x, _) => t.IsNode(x) case OnLink(e) => t.IsLink(e)
  }

  /** A fan-out at `n` can lead to the target. */
  predicate Inside(t: Tree, tg: Target, n: nat) {
    match tg case AtClient(x, _) => Below(t, x, n) case OnLink(e) => Below(t, e, n) && e != n
  }

  /** A message sent down to `n` can lead to the target. */
  predicate Reaches(t: Tree, tg: Target, n: nat) {
    match tg case AtClient(x, _) => Below(t, x, n) case OnLink(e) => Below(t, e, n)
  }

  /** The agent of `n` that leads to the target. */
  function Via(t: Tree, tg: Target, n: nat): Agent
    requires t.Valid() && Inside(t, tg, n)
  {
    match tg
    case AtClient(x, key) => if x == n then Client(key) else Link(Toward(t, x, n))
    case OnLink(e) => Link(Toward(t, e, n))
  }

  ghost predicate Leads(t: Tree, tg: Target, n: nat, a: Agent) {
    t.Valid() && Inside(t, tg, n) && Via(t, tg, n) == a
  }

  /** A task can still bring a copy of `m` on channel `c` to the target. */
  ghost predicate TaskCovers(t: Tree, tg: Target, c: Channel, m: Runnable, n: nat, task: Task) {
    match task
    case FanOut(c', m', except) =>
      c' == c && m' == m && Inside(t, tg, n) && (except.Some? ==> !Leads(t, tg, n, except.value))
    case Relay(c', text) => c' == c && t.deserialize(text) == m && Inside(t, tg, n)
    case Sending(c', p, todo) =>
      c' == c && Content(t, p) == m && exists a :: a in todo && Leads(t, tg, n, a)
    case Promote(c', m') => c' == c && m' == m && !Inside(t, tg, n)
  }

  function UpCovers(t: Tree, tg: Target, c: Channel, m: Runnable, n: nat, msg: UpMessage): nat {
    match msg
    case Sub(_) => 0
    case Unsub(_) => 0
    case Pub(c', text) => One(c' == c && t.deserialize(text) == m && !Inside(t, tg, n))
  }

  function DownCovers(t: Tree, tg: Target, c: Channel, m: Runnable, n: nat, msg: DownMessage): nat {
    One(msg.c == c && t.deserialize(msg.text) == m && Reaches(t, tg, n))
  }

  function MailCovers(t: Tree, tg: Target, c: Channel, m: Runnable, n: nat, mail: Mail): nat {
    One(tg.AtClient? && tg.x == n && mail.to == Client(tg.key) && mail.c == c && Content(t, mail.p) == m)
  }

  /** Copies of `m` on `c` still under way to the target: each message or task counts at most once. */
  ghost function Cover(t: Tree, tg: Target, c: Channel, m: Runnable): Weigher {
    Weigher(
      (n: nat, msg: UpMessage) => UpCovers(t, tg, c, m, n, msg),
      (n: nat, msg: DownMessage) => DownCovers(t, tg, c, m, n, msg),
      (n: nat, task: Task) => One(TaskCovers(t, tg, c, m, n, task)),
      (n: nat, mail: Mail) => MailCovers(t, tg, c, m, n, mail),
      (n: nat) => 0)
  }

  /** Copies that have arrived. */
  function Arrived(s: State, tg: Target, c: Channel, m: Runnable): nat {
    match tg
    case AtClient(x, key) => s.delivered[(x, Client(key), c, m)]
    case OnLink(e) => s.crossed[(e, c, m)]
  }

  /** Copies that have arrived or are under way. */
  ghost function Copies(t: Tree, s: State, tg: Target, c: Channel, m: Runnable): nat {
    Total(Cover(t, tg, c, m), s.nodes) + Arrived(s, tg, c, m)
  }

  /** Every node above a client has the next agent on the way down subscribed. */
  ghost predicate Route(t: Tree, s: State, x: nat, key: string, c: Channel)
    requires IsState(t, s)
  {
    forall n :: t.IsNode(n) && Below(t, x, n) ==> (Via(t, AtClient(x, key), n), c) in s.nodes[n].rel
  }

  lemma {:induction false} RootIsAbove(t: Tree, x: nat)
    requires t.Valid() && t.IsNode(x)
    ensures Below(t, x, 0)
    decreases x
  {
    if x != 0 {
      RootIsAbove(t, t.parent[x]);
    }
  }

  /** Ancestors are not larger, and two of them on one level chain are comparable. */
  lemma {:induction false} BelowIsLarger(t: Tree, x: nat, n: nat)
    requires Below(t, x, n)
    ensures n <= x
    decreases x
  {
    if x != n {
      BelowIsLarger(t, t.parent[x], n);
    }
  }

  lemma {:induction false} TowardIsUnique(t: Tree, x: nat, n: nat, k: nat)
    requires t.Valid() && Below(t, x, k) && t.IsLink(k) && t.parent[k] == n
    ensures Below(t, x, n) && x != n && Toward(t, x, n) == k
    decreases x
  {
    BelowIsLarger(t, x, k);
    if x != k {
      TowardIsUnique(t, t.parent[x], n, k);
      BelowIsLarger(t, t.parent[x], k);
    }
  }

  /** A link leads to exactly what a message sent down it can reach. */
  lemma LinkLeads(t: Tree, tg: Target, n: nat, k: nat)
    requires t.Valid() && t.IsLink(k) && t.parent[k] == n
    ensures Leads(t, tg, n, Link(k)) <==> Reaches(t, tg, k)
    ensures Reaches(t, tg, k) <==> Inside(t, tg, k) || tg == OnLink(k)
    ensures tg == OnLink(k) ==> !Inside(t, tg, k)
  {
    var x := if tg.AtClient? then tg.x else tg.e;
    if Below(t, x, k) {
      TowardIsUnique(t, x, n, k);
    }
  }

  /** A client of `n` is led to only as a target of `n` itself. */
  lemma ClientLeads(t: Tree, tg: Target, n: nat, key: string)
    requires t.Valid()
    ensures Leads(t, tg, n, Client(key)) <==> tg == AtClient(n, key)
  {
  }

  lemma CoverIsOfPublishes(t: Tree, tg: Target, c: Channel, m: Runnable)
    ensures OnlyPublishes(Cover(t, tg, c, m))
  {
  }

  // --- what one step does to the copies ---

  /** Starting a fan-out loses no copy unless the way to the target is not subscribed. */
  lemma StartCovers(t: Tree, s: State, tg: Target, c: Channel, m: Runnable, n: nat, i: nat)
    requires IsState(t, s) && Enabled(t, s, Start(n, i))
    ensures var w := Cover(t, tg, c, m);
            && Given(t, w, s, Start(n, i)) <= Taken(t, w, s, Start(n, i))
            && (Inside(t, tg, n) && (Via(t, tg, n), c) in s.nodes[n].rel
                ==> Given(t, w, s, Start(n, i)) == Taken(t, w, s, Start(n, i)))
            && (!Inside(t, tg, n) ==> Given(t, w, s, Start(n, i)) == Taken(t, w, s, Start(n, i)))
  {
    var nd := s.nodes[n];
    var task := nd.tasks[i];
    var started := Started(t, n, nd, task);
    assert Content(t, started.p) == if task.FanOut? then task.m else t.deserialize(task.text);
    if Inside(t, tg, n) {
      var a := Via(t, tg, n);
      assert Leads(t, tg, n, a);
      assert (exists b :: b in started.todo && Leads(t, tg, n, b)) <==> a in started.todo;
    }
  }

  /** Sending to one agent hands the copy over. */
  lemma SendCovers(t: Tree, s: State, tg: Target, c: Channel, m: Runnable, n: nat, i: nat, a: Agent)
    requires IsState(t, s) && Enabled(t, s, SendTo(n, i, a))
    ensures var w := Cover(t, tg, c, m);
            Given(t, w, s, SendTo(n, i, a)) == Taken(t, w, s, SendTo(n, i, a))
  {
    var task := s.nodes[n].tasks[i];
    if a.Client? {
      ClientLeads(t, tg, n, a.key);
    } else {
      LinkLeads(t, tg, n, a.child);
      assert t.deserialize(Wire(t, task.p)) == Content(t, task.p);
    }
    var rest := task.(todo := task.todo - {a});
    assert forall b :: Leads(t, tg, n, a) && Leads(t, tg, n, b) ==> a == b;
    if c == task.c && Content(t, task.p) == m {
      if Leads(t, tg, n, a) {
        assert TaskCovers(t, tg, c, m, n, task) && !TaskCovers(t, tg, c, m, n, rest);
      } else if TaskCovers(t, tg, c, m, n, task) {
        var b :| b in task.todo && Leads(t, tg, n, b);
        assert b in rest.todo;
      }
    }
  }

  /** A publish passed on by the parent covers what it covered on the way up. */
  lemma PassedOnCovers(t: Tree, tg: Target, c: Channel, m: Runnable, n: nat, c': Channel, text: string)
    requires t.Valid() && t.IsLink(n) && IsTarget(t, tg) && c != ""
    ensures PublishGiven(Cover(t, tg, c, m), t.parent[n], c', t.deserialize(text), Some(Link(n)))
              + One(tg == OnLink(n) && c' == c && t.deserialize(text) == m)
         == UpCovers(t, tg, c, m, n, Pub(c', text))
  {
    var q := t.parent[n];
    var w := Cover(t, tg, c, m);
    LinkLeads(t, tg, q, n);
    RootIsAbove(t, if tg.AtClient? then tg.x else tg.e);
    var m' := t.deserialize(text);
    var mine := c' == c && m' == m;
    assert w.task(q, FanOut(c', m', Some(Link(n)))) == One(mine && Inside(t, tg, q) && !Reaches(t, tg, n));
    assert w.task(q, Promote(c', m')) == One(mine && !Inside(t, tg, q));
    assert q == 0 ==> Inside(t, tg, q);
  }

  lemma ReceiveCovers(t: Tree, s: State, tg: Target, c: Channel, m: Runnable, n: nat)
    requires IsState(t, s) && Enabled(t, s, Receive(n)) && IsTarget(t, tg) && c != ""
    ensures var w := Cover(t, tg, c, m);
            Given(t, w, s, Receive(n)) + Arrived(Apply(t, s, Receive(n)), tg, c, m)
            == Taken(t, w, s, Receive(n)) + Arrived(s, tg, c, m)
  {
    hide Inside, Reaches, TaskCovers;
    CoverIsOfPublishes(t, tg, c, m);
    if s.nodes[n].up[0].Pub? {
      PassedOnCovers(t, tg, c, m, n, s.nodes[n].up[0].c, s.nodes[n].up[0].text);
    }
  }

  lemma ArriveCovers(t: Tree, s: State, tg: Target, c: Channel, m: Runnable, n: nat)
    requires IsState(t, s) && Enabled(t, s, Arrive(n))
    ensures var w := Cover(t, tg, c, m);
            Given(t, w, s, Arrive(n)) + Arrived(Apply(t, s, Arrive(n)), tg, c, m)
            == Taken(t, w, s, Arrive(n)) + Arrived(s, tg, c, m)
  {
    LinkLeads(t, tg, t.parent[n], n);
  }

  /** A new publish covers every target once. */
  lemma PublishCovers(t: Tree, s: State, tg: Target, c: Channel, m: Runnable, n: nat, c': Channel, m': Runnable)
    requires IsState(t, s) && Enabled(t, s, Publish(n, c', m')) && IsTarget(t, tg) && c != ""
    ensures Given(t, Cover(t, tg, c, m), s, Publish(n, c', m')) == One(c' == c && m' == m)
  {
    if n == 0 {
      RootIsAbove(t, if tg.AtClient? then tg.x else tg.e);
    }
  }

  lemma NothingArrives(t: Tree, s: State, step: Step, tg: Target, c: Channel, m: Runnable)
    requires IsState(t, s) && Enabled(t, s, step) && (step.Publish? || step.Start? || step.SendTo?)
    ensures Arrived(Apply(t, s, step), tg, c, m) == Arrived(s, tg, c, m)
  {
  }

  lemma OtherCovers(t: Tree, s: State, step: Step, tg: Target, c: Channel, m: Runnable)
    requires IsState(t, s) && Enabled(t, s, step)
    requires !step.Publish? && !step.Start? && !step.SendTo? && !step.Receive? && !step.Arrive?
    ensures var w := Cover(t, tg, c, m);
            Given(t, w, s, step) + Arrived(Apply(t, s, step), tg, c, m)
            == Taken(t, w, s, step) + Arrived(s, tg, c, m)
  {
  }

  lemma PublishedCount(t: Tree, s: State, step: Step, c: Channel, m: Runnable)
    requires IsState(t, s) && Enabled(t, s, step) && c != ""
    ensures Apply(t, s, step).published[(c, m)]
         == s.published[(c, m)] + One(step.Publish? && step.c == c && step.m == m)
  {
  }

  /** What a step gives and delivers, against what it takes and a publish call adds. */
  lemma StepCovers(t: Tree, s: State, step: Step, tg: Target, c: Channel, m: Runnable)
    requires IsState(t, s) && Enabled(t, s, step) && IsTarget(t, tg) && c != ""
    ensures var w := Cover(t, tg, c, m);
            var given := Given(t, w, s, step) + Arrived(Apply(t, s, step), tg, c, m);
            var taken := Taken(t, w, s, step) + Arrived(s, tg, c, m)
                         + One(step.Publish? && step.c == c && step.m == m);
            && given <= taken
            && (tg.AtClient? && Route(t, s, tg.x, tg.key, c) ==> given == taken)
  {
    hide Apply, Enabled, Cover, Arrived, Given;
    if step.Publish? {
      PublishCovers(t, s, tg, c, m, step.n, step.c, step.m);
      NothingArrives(t, s, step, tg, c, m);
    } else if step.Start? {
      StartCovers(t, s, tg, c, m, step.n, step.i);
      NothingArrives(t, s, step, tg, c, m);
    } else if step.SendTo? {
      SendCovers(t, s, tg, c, m, step.n, step.i, step.a);
      NothingArrives(t, s, step, tg, c, m);
    } else if step.Receive? {
      ReceiveCovers(t, s, tg, c, m, step.n);
    } else if step.Arrive? {
      ArriveCovers(t, s, tg, c, m, step.n);
    } else {
      OtherCovers(t, s, step, tg, c, m);
    }
  }

  /**
   One step: copies come into being only with a publish call, one for each target, and are
   lost only where the way to the target is not subscribed.
   */
  lemma StepCopies(t: Tree, s: State, step: Step, tg: Target, c: Channel, m: Runnable)
    requires IsState(t, s) && Enabled(t, s, step) && IsTarget(t, tg) && c != ""
    ensures var s' := Apply(t, s, step);
            && s'.published[(c, m)] == s.published[(c, m)] + One(step.Publish? && step.c == c && step.m == m)
            && Copies(t, s', tg, c, m) + s.published[(c, m)] <= Copies(t, s, tg, c, m) + s'.published[(c, m)]
            && (tg.AtClient? && Route(t, s, tg.x, tg.key, c) ==>
                Copies(t, s', tg, c, m) + s.published[(c, m)] == Copies(t, s, tg, c, m) + s'.published[(c, m)])
  {
    hide Apply, Enabled, Cover, Arrived, Given, Taken, Route, Total;
    CoverIsOfPublishes(t, tg, c, m);
    StepBalance(t, Cover(t, tg, c, m), s, step);
    PublishedCount(t, s, step, c, m);
    StepCovers(t, s, step, tg, c, m);
  }

  // --- at most once, in every run ---

  lemma {:induction false} InitialWeight(t: Tree, tg: Target, c: Channel, m: Runnable, k: nat)
    requires k <= |t.parent|
    ensures TotalUpTo(Cover(t, tg, c, m), Initial(t).nodes, k) == 0
  {
    if k > 0 {
      InitialWeight(t, tg, c, m, k - 1);
    }
  }

  lemma {:induction false} RunCopies(t: Tree, s: State, steps: seq<Step>, tg: Target, c: Channel, m: Runnable)
    requires IsState(t, s) && IsRun(t, s, steps) && IsTarget(t, tg) && c != ""
    ensures var s' := After(t, s, steps);
            Copies(t, s', tg, c, m) + s.published[(c, m)] <= Copies(t, s, tg, c, m) + s'.published[(c, m)]
    decreases |steps|
  {
    if steps != [] {
      StepCopies(t, s, steps[0], tg, c, m);
      RunCopies(t, Apply(t, s, steps[0]), steps[1..], tg, c, m);
    }
  }

  /**
   In every reachable state, under any interleaving and any membership changes, a message
   published k times on a channel has been run at most k times by each client, and has passed
   over each link at most k times, counting both directions.
   */
  lemma AtMostOnce(t: Tree, steps: seq<Step>, tg: Target, c: Channel, m: Runnable)
    requires t.Valid() && IsRun(t, Initial(t), steps) && IsTarget(t, tg) && c != ""
    ensures var s := After(t, Initial(t), steps);
            Arrived(s, tg, c, m) <= s.published[(c, m)]
  {
    InitialWeight(t, tg, c, m, |t.parent|);
    RunCopies(t, Initial(t), steps, tg, c, m);
  }

  // --- exactly once, for whoever is and stays subscribed ---

  predicate Leaves(step: Step) {
    step.Unsubscribe? || step.UnsubscribeAgent?
  }

  ghost predicate NoUnsubQueued(s: State) {
    forall n :: 0 <= n < |s.nodes| ==> NoUnsub(s.nodes[n].up)
  }

  ghost predicate NoUnsub(up: seq<UpMessage>) {
    forall i :: 0 <= i < |up| ==> !up[i].Unsub?
  }

  lemma SubscribeGrows(t: Tree, n: nat, nd: Node, a: Agent, c: Channel)
    requires t.IsNode(n) && NoUnsub(nd.up)
    ensures nd.rel <= SubscribeAt(t, n, nd, a, c).rel && NoUnsub(SubscribeAt(t, n, nd, a, c).up)
  {
  }

  lemma JoiningGrows(t: Tree, s: State, step: Step, j: nat)
    requires IsState(t, s) && Enabled(t, s, step) && !Leaves(step) && t.IsNode(j)
    requires forall n :: 0 <= n < |s.nodes| ==> NoUnsub(s.nodes[n].up)
    ensures s.nodes[j].rel <= Apply(t, s, step).nodes[j].rel && NoUnsub(Apply(t, s, step).nodes[j].up)
  {
    var nd := s.nodes[j];
    if (step.Accept? || step.Receive?) && t.parent[step.n] == j {
      var k := step.n;
      if step.Accept? {
        SubscribeGrows(t, j, nd, Link(k), t.linkKey[k]);
      } else {
        assert !s.nodes[k].up[0].Unsub?;
        SubscribeGrows(t, j, nd, Link(k), s.nodes[k].up[0].c);
      }
    } else if step.Subscribe? && step.n == j {
      SubscribeGrows(t, j, nd, Client(step.key), step.c);
    }
  }

  lemma JoiningKeepsRelations(t: Tree, s: State, step: Step)
    requires IsState(t, s) && Enabled(t, s, step) && NoUnsubQueued(s) && !Leaves(step)
    ensures NoUnsubQueued(Apply(t, s, step))
    ensures forall n :: 0 <= n < |s.nodes| ==> s.nodes[n].rel <= Apply(t, s, step).nodes[n].rel
  {
    hide Apply, Enabled, NoUnsub;
    forall n | 0 <= n < |s.nodes|
      ensures s.nodes[n].rel <= Apply(t, s, step).nodes[n].rel && NoUnsub(Apply(t, s, step).nodes[n].up)
    {
      JoiningGrows(t, s, step, n);
    }
  }

  /** The client gives up its own subscription to the channel. */
  predicate OwnLeave(step: Step, x: nat, key: string, c: Channel) {
    step == Unsubscribe(x, key, c) || (step.UnsubscribeAgent? && step.n == x && step.key == key)
  }

  /** Subscribed at a node, which has not told its parent otherwise. */
  ghost predicate HeldAt(nd: Node, a: Agent, c: Channel) {
    (a, c) in nd.rel && forall i :: 0 <= i < |nd.up| ==> nd.up[i] != Unsub(c)
  }

  /** Subscribed all the way up, with no Unsub for the channel on the way. */
  ghost predicate Held(t: Tree, s: State, x: nat, key: string, c: Channel)
    requires IsState(t, s)
  {
    forall n :: t.IsNode(n) && Below(t, x, n) ==> HeldAt(s.nodes[n], Via(t, AtClient(x, key), n), c)
  }

  lemma SubscribeHolds(t: Tree, n: nat, nd: Node, b: Agent, d: Channel, a: Agent, c: Channel)
    requires t.IsNode(n) && HeldAt(nd, a, c)
    ensures HeldAt(SubscribeAt(t, n, nd, b, d), a, c)
  {
  }

  lemma UnsubscribeHolds(t: Tree, n: nat, nd: Node, b: Agent, d: Channel, a: Agent, c: Channel)
    requires t.IsNode(n) && HeldAt(nd, a, c) && (b, d) != (a, c)
    ensures HeldAt(UnsubscribeAt(t, n, nd, b, d), a, c)
  {
    assert a in Subscribers(nd.rel - {(b, d)}, c);
  }

  lemma {:induction false} SendUnsubsHolds(t: Tree, n: nat, nd: Node, channels: seq<Channel>, a: Agent, c: Channel)
    requires t.IsNode(n) && HeldAt(nd, a, c)
    ensures HeldAt(SendUnsubs(t, n, nd, channels), a, c)
    decreases |channels|
  {
    if channels != [] {
      var front := channels[..|channels| - 1];
      SendUnsubsHolds(t, n, nd, front, a, c);
      assert a in Subscribers(SendUnsubs(t, n, nd, front).rel, c);
    }
  }

  lemma CallHolds(t: Tree, s: State, step: Step, x: nat, key: string, c: Channel, n: nat)
    requires IsState(t, s) && Enabled(t, s, step) && !Internal(step) && !OwnLeave(step, x, key, c)
    requires t.IsNode(n) && Below(t, x, n) && HeldAt(s.nodes[n], Via(t, AtClient(x, key), n), c)
    ensures HeldAt(Apply(t, s, step).nodes[n], Via(t, AtClient(x, key), n), c)
  {
    hide SubscribeAt, UnsubscribeAt, SendUnsubs;
    var nd, a := s.nodes[n], Via(t, AtClient(x, key), n);
    if step.n == n {
      match step {
        case Subscribe(_, k, d) => SubscribeHolds(t, n, nd, Client(k), d, a, c);
        case Unsubscribe(_, k, d) => UnsubscribeHolds(t, n, nd, Client(k), d, a, c);
        case UnsubscribeAgent(_, k, channels) =>
          SendUnsubsHolds(t, n, nd.(rel := WithoutAgent(nd.rel, Client(k))), channels, a, c);
        case Publish(_, _, _) =>
      }
    }
  }

  /** The parent runs a message of a link: only an Unsub of that link could end the subscription. */
  lemma RunUpHolds(t: Tree, q: nat, nd: Node, k: nat, msg: UpMessage, a: Agent, c: Channel)
    requires t.IsNode(q) && HeldAt(nd, a, c) && (a == Link(k) ==> msg != Unsub(c))
    ensures HeldAt(RunUpMessage(t, q, nd, k, msg), a, c)
  {
    hide SubscribeAt, UnsubscribeAt;
    match msg {
      case Sub(d) => SubscribeHolds(t, q, nd, Link(k), d, a, c);
      case Unsub(d) => UnsubscribeHolds(t, q, nd, Link(k), d, a, c);
      case Pub(_, _) =>
    }
  }

  /** No Unsub for the channel is queued on a link that leads to the subscriber. */
  lemma WayIsHeld(t: Tree, s: State, x: nat, key: string, c: Channel, k: nat)
    requires IsState(t, s) && Held(t, s, x, key, c) && t.IsLink(k) && s.nodes[k].up != []
    requires Below(t, x, t.parent[k]) && Via(t, AtClient(x, key), t.parent[k]) == Link(k)
    ensures s.nodes[k].up[0] != Unsub(c)
  {
    assert Below(t, x, k);
    assert HeldAt(s.nodes[k], Via(t, AtClient(x, key), k), c);
  }

  lemma LinkTurnHolds(t: Tree, s: State, step: Step, x: nat, key: string, c: Channel, n: nat)
    requires IsState(t, s) && Enabled(t, s, step) && (step.Accept? || step.Receive?)
    requires Held(t, s, x, key, c) && t.IsNode(n) && Below(t, x, n)
    ensures HeldAt(Apply(t, s, step).nodes[n], Via(t, AtClient(x, key), n), c)
  {
    hide SubscribeAt, RunUpMessage, Via;
    var nd, a, k := s.nodes[n], Via(t, AtClient(x, key), n), step.n;
    assert HeldAt(nd, a, c);
    if t.parent[k] == n {
      if step.Accept? {
        SubscribeHolds(t, n, nd, Link(k), t.linkKey[k], a, c);
      } else {
        if a == Link(k) {
          WayIsHeld(t, s, x, key, c, k);
        }
        RunUpHolds(t, n, nd, k, s.nodes[k].up[0], a, c);
      }
    }
  }

  lemma OtherTurnHolds(t: Tree, s: State, step: Step, a: Agent, c: Channel, n: nat)
    requires IsState(t, s) && Enabled(t, s, step) && Internal(step) && !step.Accept? && !step.Receive?
    requires t.IsNode(n) && HeldAt(s.nodes[n], a, c)
    ensures HeldAt(Apply(t, s, step).nodes[n], a, c)
  {
    OtherTurnsKeepRelations(t, s, step, n);
  }

  lemma StepKeepsHeld(t: Tree, s: State, step: Step, x: nat, key: string, c: Channel)
    requires IsState(t, s) && Enabled(t, s, step) && Held(t, s, x, key, c) && !OwnLeave(step, x, key, c)
    ensures Held(t, Apply(t, s, step), x, key, c)
  {
    hide Apply, Enabled, HeldAt, OwnLeave;
    forall n | t.IsNode(n) && Below(t, x, n)
      ensures HeldAt(Apply(t, s, step).nodes[n], Via(t, AtClient(x, key), n), c)
    {
      if !Internal(step) {
        CallHolds(t, s, step, x, key, c, n);
      } else if step.Accept? || step.Receive? {
        LinkTurnHolds(t, s, step, x, key, c, n);
      } else {
        OtherTurnHolds(t, s, step, Via(t, AtClient(x, key), n), c, n);
      }
    }
  }

  /** While the client stays, its way to the root stays subscribed, and no copy is lost or made. */
  lemma {:induction false} RunKeepsRoute(
    t: Tree, s: State, steps: seq<Step>, x: nat, key: string, c: Channel, m: Runnable)
    requires IsState(t, s) && IsRun(t, s, steps) && t.IsNode(x) && c != "" && Held(t, s, x, key, c)
    requires forall i :: 0 <= i < |steps| ==> !OwnLeave(steps[i], x, key, c)
    ensures var s' := After(t, s, steps);
            var tg := AtClient(x, key);
            && Held(t, s', x, key, c)
            && Copies(t, s', tg, c, m) + s.published[(c, m)] == Copies(t, s, tg, c, m) + s'.published[(c, m)]
    decreases |steps|
  {
    hide Apply, Enabled, Copies, OwnLeave;
    if steps != [] {
      assert !OwnLeave(steps[0], x, key, c);
      assert Route(t, s, x, key, c);
      StepCopies(t, s, steps[0], AtClient(x, key), c, m);
      StepKeepsHeld(t, s, steps[0], x, key, c);
      RunKeepsRoute(t, Apply(t, s, steps[0]), steps[1..], x, key, c, m);
    }
  }

  /** With agreement, and the channel's Subs and Unsubs run, being subscribed is being subscribed all the way up. */
  lemma SubscribedHasRoute(t: Tree, s: State, x: nat, key: string, c: Channel)
    requires IsState(t, s) && LinkInvariant(t, s) && Settled(t, s, x, c)
    requires t.IsNode(x) && (Client(key), c) in s.nodes[x].rel
    ensures Held(t, s, x, key, c)
  {
    forall n | t.IsNode(n) && Below(t, x, n)
      ensures HeldAt(s.nodes[n], Via(t, AtClient(x, key), n), c)
    {
      var up := s.nodes[n].up;
      assert forall i :: 0 <= i < |up| ==> !IsOp(up[i], c);
      if x != n {
        var k := Toward(t, x, n);
        HasMeans(s.nodes[x], c);
        WantSpreads(t, s, x, k, c);
        SettledRecord(t, s, k, c);
      }
    }
  }

  lemma {:induction false} QuietWeight(w: Weigher, s: State, k: nat)
    requires Quiet(s) && k <= |s.nodes| && OnlyPublishes(w)
    ensures TotalUpTo(w, s.nodes, k) == 0
  {
    if k > 0 {
      QuietWeight(w, s, k - 1);
    }
  }

  /** Copies still under way to a client. */
  ghost function InFlight(t: Tree, s: State, x: nat, key: string, c: Channel, m: Runnable): nat {
    Total(Cover(t, AtClient(x, key), c, m), s.nodes)
  }

  lemma QuietHasNoneInFlight(t: Tree, s: State, x: nat, key: string, c: Channel, m: Runnable)
    requires Quiet(s)
    ensures InFlight(t, s, x, key, c, m) == 0
  {
    CoverIsOfPublishes(t, AtClient(x, key), c, m);
    QuietWeight(Cover(t, AtClient(x, key), c, m), s, |s.nodes|);
  }

  lemma ExactlyOnceFrom(t: Tree, s: State, steps: seq<Step>, x: nat, key: string, c: Channel, m: Runnable)
    requires IsState(t, s) && LinkInvariant(t, s) && Settled(t, s, x, c) && IsRun(t, s, steps)
    requires t.IsNode(x) && c != "" && (Client(key), c) in s.nodes[x].rel
    requires forall i :: 0 <= i < |steps| ==> !OwnLeave(steps[i], x, key, c)
    ensures var s' := After(t, s, steps);
            && (Client(key), c) in s'.nodes[x].rel
            && s'.delivered[(x, Client(key), c, m)] + InFlight(t, s', x, key, c, m) + s.published[(c, m)]
               == s.delivered[(x, Client(key), c, m)] + InFlight(t, s, x, key, c, m) + s'.published[(c, m)]
            && (Quiet(s') ==> InFlight(t, s', x, key, c, m) == 0)
  {
    SubscribedHasRoute(t, s, x, key, c);
    RunKeepsRoute(t, s, steps, x, key, c, m);
    var s' := After(t, s, steps);
    assert Below(t, x, x) && HeldAt(s'.nodes[x], Client(key), c);
    if Quiet(s') {
      QuietHasNoneInFlight(t, s', x, key, c, m);
    }
  }

  /**
   Exactly once.  Take any reachable state, with anything in flight, and a client subscribed
   to a channel for which no Sub or Unsub is queued between its node and the root.  Let
   anything happen after it, publishes, joins and leaves of all the others in any
   interleaving, as long as this client does not itself leave.  Then the copies it has run
   since, plus those under way, are at all times the copies that were under way plus the
   publish calls made since; and whenever all is quiet it has run each exactly once.
   */
  lemma ExactlyOnce(t: Tree, before: seq<Step>, steps: seq<Step>, x: nat, key: string, c: Channel, m: Runnable)
    requires t.Valid() && IsRun(t, Initial(t), before) && t.IsNode(x) && c != ""
    requires Settled(t, After(t, Initial(t), before), x, c) && IsRun(t, After(t, Initial(t), before), steps)
    requires (Client(key), c) in After(t, Initial(t), before).nodes[x].rel
    requires forall i :: 0 <= i < |steps| ==> !OwnLeave(steps[i], x, key, c)
    ensures var s := After(t, Initial(t), before);
            var s' := After(t, s, steps);
            var delivered: int := (s'.delivered[(x, Client(key), c, m)] as int) - s.delivered[(x, Client(key), c, m)];
            var published: int := (s'.published[(c, m)] as int) - s.published[(c, m)];
            && delivered + InFlight(t, s', x, key, c, m) == InFlight(t, s, x, key, c, m) + published
            && (Quiet(s') ==> delivered == InFlight(t, s, x, key, c, m) + published)
            && (Quiet(s) && Quiet(s') ==> delivered == published)
  {
    InitialLinks(t);
    RunKeepsLinks(t, Initial(t), before);
    var s := After(t, Initial(t), before);
    ExactlyOnceFrom(t, s, steps, x, key, c, m);
    if Quiet(s) {
      QuietHasNoneInFlight(t, s, x, key, c, m);
    }
  }

  // --- from the subscribe call on ---

  /** A subscribe call puts its client on the channel, whoever is on it already. */
  lemma SubscribeJoins(t: Tree, s: State, n: nat, key: string, c: Channel)
    requires IsState(t, s) && t.IsNode(n)
    ensures Enabled(t, s, Subscribe(n, key, c))
    ensures Apply(t, s, Subscribe(n, key, c)).nodes[n].rel
         == s.nodes[n].rel + if c == "" then {} else {(Client(key), c)}
  {
  }

  /** An unsubscribe call takes exactly that pair away, whoever is left. */
  lemma UnsubscribeLeaves(t: Tree, s: State, n: nat, key: string, c: Channel)
    requires IsState(t, s) && t.IsNode(n)
    ensures Enabled(t, s, Unsubscribe(n, key, c))
    ensures Apply(t, s, Unsubscribe(n, key, c)).nodes[n].rel == s.nodes[n].rel - {(Client(key), c)}
  {
  }

  /** Dropping an agent takes all its pairs away, and no other. */
  lemma UnsubscribeAgentLeaves(t: Tree, s: State, n: nat, key: string, channels: seq<Channel>)
    requires IsState(t, s) && t.IsNode(n) && Listing(channels, ChannelsOf(s.nodes[n].rel, Client(key)))
    ensures Enabled(t, s, UnsubscribeAgent(n, key, channels))
    ensures forall a, c :: (a, c) in Apply(t, s, UnsubscribeAgent(n, key, channels)).nodes[n].rel
              <==> (a, c) in s.nodes[n].rel && a != Client(key)
  {
    SendUnsubsRel(t, n, s.nodes[n].(rel := WithoutAgent(s.nodes[n].rel, Client(key))), channels);
  }

  /** Clients of a node change only by their own calls. */
  lemma StepKeepsMember(t: Tree, s: State, step: Step, x: nat, key: string, c: Channel)
    requires IsState(t, s) && Enabled(t, s, step) && t.IsNode(x) && !OwnLeave(step, x, key, c)
    requires (Client(key), c) in s.nodes[x].rel
    ensures (Client(key), c) in Apply(t, s, step).nodes[x].rel
  {
    hide Apply, Enabled;
    if !Internal(step) {
      CallKeepsMember(t, s, step, x, key, c);
    } else if step.Accept? || step.Receive? {
      LinkTurnKeepsMember(t, s, step, x, key, c);
    } else {
      OtherTurnsKeepRelations(t, s, step, x);
    }
  }

  lemma CallKeepsMember(t: Tree, s: State, step: Step, x: nat, key: string, c: Channel)
    requires IsState(t, s) && Enabled(t, s, step) && t.IsNode(x) && !Internal(step) && !OwnLeave(step, x, key, c)
    requires (Client(key), c) in s.nodes[x].rel
    ensures (Client(key), c) in Apply(t, s, step).nodes[x].rel
  {
    if step.UnsubscribeAgent? && step.n == x {
      UnsubscribeAgentLeaves(t, s, x, step.key, step.channels);
    }
  }

  lemma LinkTurnKeepsMember(t: Tree, s: State, step: Step, x: nat, key: string, c: Channel)
    requires IsState(t, s) && Enabled(t, s, step) && t.IsNode(x) && (step.Accept? || step.Receive?)
    requires (Client(key), c) in s.nodes[x].rel
    ensures (Client(key), c) in Apply(t, s, step).nodes[x].rel
  {
  }

  lemma {:induction false} RunKeepsMember(t: Tree, s: State, steps: seq<Step>, x: nat, key: string, c: Channel)
    requires IsState(t, s) && IsRun(t, s, steps) && t.IsNode(x) && (Client(key), c) in s.nodes[x].rel
    requires forall i :: 0 <= i < |steps| ==> !OwnLeave(steps[i], x, key, c)
    ensures (Client(key), c) in After(t, s, steps).nodes[x].rel
    decreases |steps|
  {
    hide Apply, Enabled, OwnLeave;
    if steps != [] {
      StepKeepsMember(t, s, steps[0], x, key, c);
      RunKeepsMember(t, Apply(t, s, steps[0]), steps[1..], x, key, c);
    }
  }

  // --- nobody else ---

  /** Nothing on channel `c` is on its last hop to a client of `x`. */
  ghost predicate NothingFor(s: State, x: nat, key: string, c: Channel) {
    x < |s.nodes| && NoTaskFor(s.nodes[x], key, c) && NoMailFor(s.nodes[x], key, c)
  }

  ghost predicate NoTaskFor(nd: Node, key: string, c: Channel) {
    forall i :: 0 <= i < |nd.tasks| ==>
      (nd.tasks[i].Sending? && nd.tasks[i].c == c ==> Client(key) !in nd.tasks[i].todo)
  }

  ghost predicate NoMailFor(nd: Node, key: string, c: Channel) {
    forall i :: 0 <= i < |nd.mail| ==> nd.mail[i].to != Client(key) || nd.mail[i].c != c
  }

  lemma TaskStepForNobody(t: Tree, s: State, step: Step, x: nat, key: string, c: Channel)
    requires IsState(t, s) && Enabled(t, s, step) && t.IsNode(x)
    requires step.PromoteUp? || step.Start? || step.SendTo? || step.Finish?
    requires NothingAt(s.nodes[x], key, c)
    ensures NothingAt(Apply(t, s, step).nodes[x], key, c)
  {
    if step.PromoteUp? || step.Finish? {
      DoneTaskForNobody(t, s, step, x, key, c);
    } else if step.Start? {
      StartForNobody(t, s, step, x, key, c);
    }
  }

  lemma DoneTaskForNobody(t: Tree, s: State, step: Step, x: nat, key: string, c: Channel)
    requires IsState(t, s) && Enabled(t, s, step) && t.IsNode(x) && (step.PromoteUp? || step.Finish?)
    requires NothingAt(s.nodes[x], key, c)
    ensures NothingAt(Apply(t, s, step).nodes[x], key, c)
  {
  }

  lemma StartForNobody(t: Tree, s: State, step: Step, x: nat, key: string, c: Channel)
    requires IsState(t, s) && Enabled(t, s, step) && t.IsNode(x) && step.Start?
    requires NothingAt(s.nodes[x], key, c)
    ensures NothingAt(Apply(t, s, step).nodes[x], key, c)
  {
  }

  ghost predicate NothingAt(nd: Node, key: string, c: Channel) {
    (Client(key), c) !in nd.rel && NoTaskFor(nd, key, c) && NoMailFor(nd, key, c)
  }

  lemma PublishForNobody(n: nat, nd: Node, key: string, c: Channel, c': Channel, m: Runnable, except: Option<Agent>)
    requires NothingAt(nd, key, c)
    ensures NothingAt(PublishAt(n, nd, c', m, except), key, c)
  {
  }

  lemma RunUpForNobody(t: Tree, q: nat, nd: Node, k: nat, msg: UpMessage, key: string, c: Channel)
    requires t.IsNode(q) && NothingAt(nd, key, c)
    ensures NothingAt(RunUpMessage(t, q, nd, k, msg), key, c)
  {
    match msg {
      case Sub(_) =>
      case Unsub(_) =>
      case Pub(c', text) => PublishForNobody(q, nd, key, c, c', t.deserialize(text), Heeded(t, q, Some(Link(k))));
    }
  }

  lemma CallForNobody(t: Tree, s: State, step: Step, x: nat, key: string, c: Channel)
    requires IsState(t, s) && Enabled(t, s, step) && t.IsNode(x) && !Internal(step)
    requires NothingAt(s.nodes[x], key, c) && step != Subscribe(x, key, c)
    ensures NothingAt(Apply(t, s, step).nodes[x], key, c)
  {
    var nd := s.nodes[x];
    if step.n == x {
      match step {
        case UnsubscribeAgent(_, k, channels) =>
          SendUnsubsRel(t, x, nd.(rel := WithoutAgent(nd.rel, Client(k))), channels);
          SendUnsubsQueuesOnly(t, x, nd.(rel := WithoutAgent(nd.rel, Client(k))), channels);
        case Publish(_, c', m) => PublishForNobody(x, nd, key, c, c', m, None);
        case _ =>
      }
    }
  }

  lemma StepForNobody(t: Tree, s: State, step: Step, x: nat, key: string, c: Channel)
    requires IsState(t, s) && Enabled(t, s, step) && t.IsNode(x)
    requires (Client(key), c) !in s.nodes[x].rel && NothingFor(s, x, key, c) && step != Subscribe(x, key, c)
    ensures var s' := Apply(t, s, step);
            (Client(key), c) !in s'.nodes[x].rel && NothingFor(s', x, key, c)
  {
    assert NothingAt(s.nodes[x], key, c);
    if !Internal(step) {
      CallForNobody(t, s, step, x, key, c);
    } else if step.PromoteUp? || step.Start? || step.SendTo? || step.Finish? {
      TaskStepForNobody(t, s, step, x, key, c);
    } else if step.Receive? && t.parent[step.n] == x {
      RunUpForNobody(t, x, s.nodes[x], step.n, s.nodes[step.n].up[0], key, c);
    }
  }

  lemma DeliverToOthers(t: Tree, s: State, step: Step, x: nat, key: string, c: Channel, m: Runnable)
    requires IsState(t, s) && Enabled(t, s, step) && t.IsNode(x) && NothingFor(s, x, key, c)
    ensures Apply(t, s, step).delivered[(x, Client(key), c, m)] == s.delivered[(x, Client(key), c, m)]
  {
  }

  lemma {:induction false} SendUnsubsQueuesOnly(t: Tree, n: nat, nd: Node, channels: seq<Channel>)
    requires t.IsNode(n)
    ensures SendUnsubs(t, n, nd, channels).tasks == nd.tasks && SendUnsubs(t, n, nd, channels).mail == nd.mail
    decreases |channels|
  {
    if channels != [] {
      SendUnsubsQueuesOnly(t, n, nd, channels[..|channels| - 1]);
    }
  }

  /** A client that is not subscribed to a channel, and does not subscribe, runs nothing from it. */
  lemma {:induction false} NobodyElse(t: Tree, s: State, steps: seq<Step>, x: nat, key: string, c: Channel, m: Runnable)
    requires IsState(t, s) && IsRun(t, s, steps) && t.IsNode(x)
    requires (Client(key), c) !in s.nodes[x].rel && NothingFor(s, x, key, c)
    requires forall i :: 0 <= i < |steps| ==> steps[i] != Subscribe(x, key, c)
    ensures After(t, s, steps).delivered[(x, Client(key), c, m)] == s.delivered[(x, Client(key), c, m)]
    decreases |steps|
  {
    if steps != [] {
      StepForNobody(t, s, steps[0], x, key, c);
      DeliverToOthers(t, s, steps[0], x, key, c, m);
      NobodyElse(t, Apply(t, s, steps[0]), steps[1..], x, key, c, m);
    }
  }
}
