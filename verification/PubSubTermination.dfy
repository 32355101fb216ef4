/**
 Runs of the servers' own turns end: every such turn uses up some of the work in flight, so
 between outside calls there is a bound on the number of turns, and the tree comes to rest
 only when nothing is left to do.  At rest every publish has arrived.
 */
module PubSubTermination {
  import opened PubSubTree
  import opened PubSubWeights
  import opened PubSubLinks
  import opened PubSubDelivery
  import opened PubSubTraffic

  /** Work of a fan-out that visits at most `b` agents at each of `d` more levels. */
  function FanWork(b: nat, d: nat): (w: nat)
    ensures w >= 2
  {
    if d == 0 then 2 else 2 + b * (3 + FanWork(b, d - 1))
  }

  lemma {:induction false} FanWorkGrows(b: nat, d: nat, e: nat)
    requires d <= e
    ensures FanWork(b, d) <= FanWork(b, e)
  {
    if d > 0 {
      FanWorkGrows(b, d - 1, e - 1);
      Times(b, 3 + FanWork(b, d - 1), 3 + FanWork(b, e - 1));
    }
  }

  lemma Times(a: nat, x: nat, y: nat)
    requires x <= y
    ensures a * x <= a * y
  {
  }

  /** Levels that can still lie below `n` in a tree of `size` nodes. */
  function Depth(size: nat, n: nat): nat { if n < size then size - n else 0 }

  function PerAgent(b: nat, d: nat): nat { if d == 0 then 3 else 3 + FanWork(b, d - 1) }

  function PerHop(size: nat, b: nat): nat { 4 + FanWork(b, size) }

  function UpWork(size: nat, b: nat, n: nat, msg: UpMessage): nat {
    if msg.Pub? then n * PerHop(size, b) else n
  }

  function TaskWork(size: nat, b: nat, n: nat, task: Task): nat {
    match task
    case FanOut(_, _, _) => FanWork(b, Depth(size, n))
    case Relay(_, _) => FanWork(b, Depth(size, n))
    case Sending(_, _, todo) => 1 + |todo| * PerAgent(b, Depth(size, n))
    case Promote(_, _) => 1 + n * PerHop(size, b)
  }

  function Work(size: nat, b: nat): Weigher {
    Weigher(
      (n: nat, msg: UpMessage) => UpWork(size, b, n, msg),
      (n: nat, msg: DownMessage) => 1 + FanWork(b, Depth(size, n)),
      (n: nat, task: Task) => TaskWork(size, b, n, task),
      (n: nat, mail: Mail) => 1,
      (n: nat) => 1 + n)
  }

  /** Every subscriber of every node is in the pool, and so is every link. */
  ghost predicate Within(t: Tree, s: State, pool: set<Agent>)
    requires IsState(t, s)
  {
    && (forall n, a, c :: t.IsNode(n) && (a, c) in s.nodes[n].rel ==> a in pool)
    && (forall k: nat :: t.IsLink(k) ==> Link(k) in pool)
  }

  /** All subscribers of a state and all links. */
  function Pool(t: Tree, s: State): set<Agent> {
    (set n, p | 0 <= n < |s.nodes| && p in s.nodes[n].rel :: p.0) + (set k: nat | 0 < k < |t.parent| :: Link(k))
  }

  lemma PoolHoldsAll(t: Tree, s: State)
    requires IsState(t, s)
    ensures Within(t, s, Pool(t, s))
  {
    forall n, a, c | t.IsNode(n) && (a, c) in s.nodes[n].rel
      ensures a in Pool(t, s)
    {
      assert (a, c).0 == a;
    }
  }

  lemma {:induction false} SubsetSize<T>(a: set<T>, b: set<T>)
    requires a <= b
    ensures |a| <= |b|
    decreases b
  {
    if a != {} {
      var x :| x in a;
      SubsetSize(a - {x}, b - {x});
    }
  }

  lemma StepKeepsWithin(t: Tree, s: State, step: Step, pool: set<Agent>)
    requires IsState(t, s) && Enabled(t, s, step) && Internal(step) && Within(t, s, pool)
    ensures Within(t, Apply(t, s, step), pool)
  {
    hide Apply, Enabled;
    forall n, a, c | t.IsNode(n) && (a, c) in Apply(t, s, step).nodes[n].rel
      ensures a in pool
    {
      if step.Accept? || step.Receive? {
        LinkTurnWithin(t, s, step, n, a, c);
      } else {
        OtherTurnsKeepRelations(t, s, step, n);
      }
    }
  }

  lemma LinkTurnWithin(t: Tree, s: State, step: Step, n: nat, a: Agent, c: Channel)
    requires IsState(t, s) && Enabled(t, s, step) && (step.Accept? || step.Receive?) && t.IsNode(n)
    requires (a, c) in Apply(t, s, step).nodes[n].rel
    ensures (a, c) in s.nodes[n].rel || (t.IsLink(step.n) && a == Link(step.n))
  {
  }

  /** Receiving a publish spends one hop and passes on the hops that are left. */
  lemma ReceiveSpends(t: Tree, s: State, n: nat, b: nat)
    requires IsState(t, s) && Enabled(t, s, Receive(n))
    ensures var w := Work(|t.parent|, b);
            Given(t, w, s, Receive(n)) < Taken(t, w, s, Receive(n))
  {
    hide FanWork, PerHop;
    var size := |t.parent|;
    var q := t.parent[n];
    if s.nodes[n].up[0].Pub? {
      HopIsEnough(size, b, q, n);
    }
  }

  /** A fan-out and a promotion at `q` weigh less than a publish sent up from a larger `n`. */
  lemma HopIsEnough(size: nat, b: nat, q: nat, n: nat)
    requires q < n
    ensures FanWork(b, Depth(size, q)) + 1 + q * PerHop(size, b) < n * PerHop(size, b)
  {
    FanWorkGrows(b, Depth(size, q), size);
    var hop := PerHop(size, b);
    Times(hop, q + 1, n);
    assert hop * (q + 1) == q * hop + hop;
    assert hop * n == n * hop;
  }

  lemma StartSpends(t: Tree, s: State, n: nat, i: nat, pool: set<Agent>)
    requires IsState(t, s) && Enabled(t, s, Start(n, i)) && Within(t, s, pool)
    ensures var w := Work(|t.parent|, |pool|);
            Given(t, w, s, Start(n, i)) < Taken(t, w, s, Start(n, i))
  {
    hide PerHop, FanWork, PerAgent;
    var task := s.nodes[n].tasks[i];
    var todo := Started(t, n, s.nodes[n], task).todo;
    assert forall a :: a in todo ==> (a, task.c) in s.nodes[n].rel;
    SubsetSize(todo, pool);
    FanWorkIsEnough(|pool|, Depth(|t.parent|, n), |todo|);
  }

  /** A fan-out weighs more than its loop over as many agents as the pool has. */
  lemma FanWorkIsEnough(b: nat, d: nat, k: nat)
    requires k <= b && d > 0
    ensures 1 + k * PerAgent(b, d) < FanWork(b, d)
  {
    var each := PerAgent(b, d);
    Times(each, k, b);
    assert each * k == k * each && each * b == b * each;
  }

  lemma SendSpends(t: Tree, s: State, n: nat, i: nat, a: Agent, b: nat)
    requires IsState(t, s) && Enabled(t, s, SendTo(n, i, a))
    ensures var w := Work(|t.parent|, b);
            Given(t, w, s, SendTo(n, i, a)) < Taken(t, w, s, SendTo(n, i, a))
  {
    var size := |t.parent|;
    var todo := s.nodes[n].tasks[i].todo;
    var each := PerAgent(b, Depth(size, n));
    assert |todo - {a}| == |todo| - 1;
    assert (|todo| - 1) * each == |todo| * each - each;
    if a.Link? {
      FanWorkGrows(b, Depth(size, a.child), Depth(size, n) - 1);
    }
  }

  lemma StepSpends(t: Tree, s: State, step: Step, pool: set<Agent>)
    requires IsState(t, s) && Enabled(t, s, step) && Internal(step) && Within(t, s, pool)
    ensures var w := Work(|t.parent|, |pool|);
            Total(w, Apply(t, s, step).nodes) < Total(w, s.nodes)
  {
    hide Apply, Enabled, Given, Taken, Work, Total, Within;
    StepBalance(t, Work(|t.parent|, |pool|), s, step);
    if step.Receive? {
      ReceiveSpends(t, s, step.n, |pool|);
    } else if step.Start? {
      StartSpends(t, s, step.n, step.i, pool);
    } else if step.SendTo? {
      SendSpends(t, s, step.n, step.i, step.a, |pool|);
    } else {
      OthersSpend(t, s, step, |pool|);
    }
  }

  lemma OthersSpend(t: Tree, s: State, step: Step, b: nat)
    requires IsState(t, s) && Enabled(t, s, step) && Internal(step)
    requires !step.Receive? && !step.Start? && !step.SendTo?
    ensures var w := Work(|t.parent|, b);
            Given(t, w, s, step) < Taken(t, w, s, step)
  {
    hide FanWork, PerHop, PerAgent;
  }

  /** Between outside calls there are at most as many turns as there is work in the tree. */
  lemma {:induction false} TurnsAreBounded(t: Tree, s: State, steps: seq<Step>, pool: set<Agent>)
    requires IsState(t, s) && IsRun(t, s, steps) && Within(t, s, pool)
    requires forall i :: 0 <= i < |steps| ==> Internal(steps[i])
    ensures |steps| + Total(Work(|t.parent|, |pool|), After(t, s, steps).nodes)
            <= Total(Work(|t.parent|, |pool|), s.nodes)
    decreases |steps|
  {
    if steps != [] {
      assert Internal(steps[0]);
      StepSpends(t, s, steps[0], pool);
      StepKeepsWithin(t, s, steps[0], pool);
      TurnsAreBounded(t, Apply(t, s, steps[0]), steps[1..], pool);
    }
  }

  /** A reachable state that is not quiet has a turn to take. */
  lemma SomethingToDo(t: Tree, before: seq<Step>) returns (step: Step)
    requires t.Valid() && IsRun(t, Initial(t), before)
    requires !Quiet(After(t, Initial(t), before))
    ensures Internal(step) && Enabled(t, After(t, Initial(t), before), step)
  {
    ReachableInOrder(t, before);
    var s := After(t, Initial(t), before);
    var n :| 0 <= n < |s.nodes|
      && !(s.nodes[n].up == [] && s.nodes[n].down == [] && s.nodes[n].tasks == [] && s.nodes[n].mail == []);
    var nd := s.nodes[n];
    assert NodeInOrder(t, n, nd);
    if nd.up != [] {
      step := if nd.linked then Receive(n) else Accept(n);
    } else if nd.down != [] {
      step := Arrive(n);
    } else if nd.mail != [] {
      step := Deliver(n, 0);
    } else {
      assert TaskInOrder(t, n, nd.tasks[0]);
      match nd.tasks[0] {
        case FanOut(_, _, _) => step := Start(n, 0);
        case Relay(_, _) => step := Start(n, 0);
        case Promote(_, _) => step := PromoteUp(n, 0);
        case Sending(_, _, todo) =>
          if todo == {} {
            step := Finish(n, 0);
          } else {
            var a :| a in todo;
            step := SendTo(n, 0, a);
          }
      }
    }
  }

  // --- coming to rest ---

  /** A bound on the server turns from a state on, if no outside call comes. */
  function TurnsLeft(t: Tree, s: State): nat { Total(Work(|t.parent|, |Pool(t, s)|), s.nodes) }

  predicate OnlyTurns(steps: seq<Step>) { forall i :: 0 <= i < |steps| ==> Internal(steps[i]) }

  /** However the server turns interleave, there are no more of them than the state allows. */
  lemma TurnsRunOut(t: Tree, s: State, turns: seq<Step>)
    requires IsState(t, s) && IsRun(t, s, turns) && OnlyTurns(turns)
    ensures |turns| <= TurnsLeft(t, s)
  {
    hide Work, Total, Pool;
    PoolHoldsAll(t, s);
    TurnsAreBounded(t, s, turns, Pool(t, s));
  }

  lemma {:induction false} RunConcat(t: Tree, s: State, a: seq<Step>, b: seq<Step>)
    requires IsState(t, s) && IsRun(t, s, a) && IsRun(t, After(t, s, a), b)
    ensures IsRun(t, s, a + b) && After(t, s, a + b) == After(t, After(t, s, a), b)
    decreases |a|
  {
    hide Enabled, Apply;
    if a == [] {
      assert [] + b == b;
    } else {
      RunConcat(t, Apply(t, s, a[0]), a[1..], b);
      assert (a + b)[1..] == a[1..] + b;
    }
  }

  lemma {:induction false} RestWithin(t: Tree, before: seq<Step>, pool: set<Agent>) returns (turns: seq<Step>)
    requires t.Valid() && IsRun(t, Initial(t), before) && Within(t, After(t, Initial(t), before), pool)
    ensures var s := After(t, Initial(t), before);
            IsRun(t, s, turns) && OnlyTurns(turns) && Quiet(After(t, s, turns))
    decreases Total(Work(|t.parent|, |pool|), After(t, Initial(t), before).nodes)
  {
    hide Enabled, Apply, Work, Total, Within, Quiet, Internal;
    var s := After(t, Initial(t), before);
    if Quiet(s) {
      turns := [];
    } else {
      var step := SomethingToDo(t, before);
      Then(t, Initial(t), before, step);
      StepSpends(t, s, step, pool);
      StepKeepsWithin(t, s, step, pool);
      var rest := RestWithin(t, before + [step], pool);
      turns := [step] + rest;
      assert turns[1..] == rest;
    }
  }

  /** From every reachable state some run of server turns alone brings the tree to rest. */
  lemma ComesToRest(t: Tree, before: seq<Step>) returns (turns: seq<Step>)
    requires t.Valid() && IsRun(t, Initial(t), before)
    ensures var s := After(t, Initial(t), before);
            IsRun(t, s, turns) && OnlyTurns(turns) && |turns| <= TurnsLeft(t, s) && Quiet(After(t, s, turns))
  {
    hide Quiet, Pool;
    var s := After(t, Initial(t), before);
    PoolHoldsAll(t, s);
    turns := RestWithin(t, before, Pool(t, s));
    TurnsRunOut(t, s, turns);
  }

  lemma {:induction false} TurnsPublishNothing(t: Tree, s: State, turns: seq<Step>, c: Channel, m: Runnable)
    requires IsState(t, s) && IsRun(t, s, turns) && OnlyTurns(turns) && c != ""
    ensures After(t, s, turns).published[(c, m)] == s.published[(c, m)]
    decreases |turns|
  {
    hide Enabled, Apply;
    if turns != [] {
      assert Internal(turns[0]);
      PublishedCount(t, s, turns[0], c, m);
      TurnsPublishNothing(t, Apply(t, s, turns[0]), turns[1..], c, m);
    }
  }

  /**
   Every publish arrives.  Take a reachable state and a client subscribed to a channel whose
   Subs and Unsubs have been run on the way up; let anything happen but that this client
   leaves.  Then the servers' own turns can finish what is left, and once they have, the client
   has run exactly the publishes of the run and the copies that were under way before it.
   */
  lemma PublishesArrive(t: Tree, before: seq<Step>, steps: seq<Step>, x: nat, key: string, c: Channel, m: Runnable)
    returns (turns: seq<Step>)
    requires t.Valid() && IsRun(t, Initial(t), before) && t.IsNode(x) && c != ""
    requires Settled(t, After(t, Initial(t), before), x, c) && IsRun(t, After(t, Initial(t), before), steps)
    requires (Client(key), c) in After(t, Initial(t), before).nodes[x].rel
    requires forall i :: 0 <= i < |steps| ==> !OwnLeave(steps[i], x, key, c)
    ensures var s := After(t, Initial(t), before);
            var s' := After(t, s, steps);
            && IsRun(t, s', turns) && OnlyTurns(turns) && Quiet(After(t, s', turns))
            && After(t, s', turns).delivered[(x, Client(key), c, m)] + s.published[(c, m)]
               == s.delivered[(x, Client(key), c, m)] + InFlight(t, s, x, key, c, m) + s'.published[(c, m)]
  {
    hide Quiet, InFlight, Settled, TurnsLeft, OwnLeave;
    var s := After(t, Initial(t), before);
    RunConcat(t, Initial(t), before, steps);
    turns := ComesToRest(t, before + steps);
    TurnsPublishNothing(t, After(t, s, steps), turns, c, m);
    RunConcat(t, s, steps, turns);
    TurnsAreNoLeave(turns, x, key, c);
    ExactlyOnce(t, before, steps + turns, x, key, c, m);
  }

  lemma TurnsAreNoLeave(turns: seq<Step>, x: nat, key: string, c: Channel)
    requires OnlyTurns(turns)
    ensures forall i :: 0 <= i < |turns| ==> !OwnLeave(turns[i], x, key, c)
  {
    forall i | 0 <= i < |turns|
      ensures !OwnLeave(turns[i], x, key, c)
    {
      assert Internal(turns[i]);
    }
  }

  lemma {:induction false} RunSplit(t: Tree, s: State, a: seq<Step>, b: seq<Step>)
    requires IsState(t, s) && IsRun(t, s, a + b)
    ensures IsRun(t, s, a) && IsRun(t, After(t, s, a), b) && After(t, s, a + b) == After(t, After(t, s, a), b)
    decreases |a|
  {
    hide Enabled, Apply;
    if a == [] {
      assert [] + b == b;
    } else {
      assert (a + b)[1..] == a[1..] + b;
      RunSplit(t, Apply(t, s, a[0]), a[1..], b);
    }
  }

  /** After its subscribe call a client is subscribed as long as it stays. */
  lemma SubscribedFromCall(t: Tree, before: seq<Step>, x: nat, key: string, c: Channel, settling: seq<Step>)
    requires t.Valid() && t.IsNode(x) && c != ""
    requires IsRun(t, Initial(t), before + [Subscribe(x, key, c)] + settling)
    requires forall i :: 0 <= i < |settling| ==> !OwnLeave(settling[i], x, key, c)
    ensures (Client(key), c) in After(t, Initial(t), before + [Subscribe(x, key, c)] + settling).nodes[x].rel
  {
    hide Apply, Enabled, OwnLeave;
    RunSplit(t, Initial(t), before + [Subscribe(x, key, c)], settling);
    RunSplit(t, Initial(t), before, [Subscribe(x, key, c)]);
    var s := After(t, Initial(t), before);
    SubscribeJoins(t, s, x, key, c);
    OneStep(t, s, Subscribe(x, key, c));
    RunKeepsMember(t, Apply(t, s, Subscribe(x, key, c)), settling, x, key, c);
  }

  /**
   Subscribe and be served.  In any run let a client subscribe, and let anything happen, but
   that this client leaves, until the channel is settled on its way up; and then anything
   again.  The servers' own turns can finish what is left, and once they have, the client has
   run every publish made after the settling, and every copy then under way, once.
   */
  lemma SubscribersAreServed(
    t: Tree, before: seq<Step>, settling: seq<Step>, steps: seq<Step>, x: nat, key: string, c: Channel, m: Runnable)
    returns (turns: seq<Step>)
    requires t.Valid() && t.IsNode(x) && c != ""
    requires IsRun(t, Initial(t), before + [Subscribe(x, key, c)] + settling)
    requires var s := After(t, Initial(t), before + [Subscribe(x, key, c)] + settling);
             Settled(t, s, x, c) && IsRun(t, s, steps)
    requires forall i :: 0 <= i < |settling| ==> !OwnLeave(settling[i], x, key, c)
    requires forall i :: 0 <= i < |steps| ==> !OwnLeave(steps[i], x, key, c)
    ensures var s := After(t, Initial(t), before + [Subscribe(x, key, c)] + settling);
            var s' := After(t, s, steps);
            && IsRun(t, s', turns) && OnlyTurns(turns) && Quiet(After(t, s', turns))
            && After(t, s', turns).delivered[(x, Client(key), c, m)] + s.published[(c, m)]
               == s.delivered[(x, Client(key), c, m)] + InFlight(t, s, x, key, c, m) + s'.published[(c, m)]
  {
    hide Quiet, InFlight, Settled, OwnLeave, Apply, Enabled;
    SubscribedFromCall(t, before, x, key, c, settling);
    turns := PublishesArrive(t, before + [Subscribe(x, key, c)] + settling, steps, x, key, c, m);
  }

  /** And settling is always possible: the turns of the servers alone get there. */
  lemma SubscribeSettles(t: Tree, before: seq<Step>, x: nat, key: string, c: Channel) returns (settling: seq<Step>)
    requires t.Valid() && IsRun(t, Initial(t), before) && t.IsNode(x)
    ensures IsRun(t, Initial(t), before + [Subscribe(x, key, c)] + settling) && OnlyTurns(settling)
    ensures Settled(t, After(t, Initial(t), before + [Subscribe(x, key, c)] + settling), x, c)
  {
    hide Apply, Enabled, TurnsLeft;
    SubscribeJoins(t, After(t, Initial(t), before), x, key, c);
    Then(t, Initial(t), before, Subscribe(x, key, c));
    var begun := before + [Subscribe(x, key, c)];
    settling := ComesToRest(t, begun);
    RunConcat(t, Initial(t), begun, settling);
    DrainedIsSettled(t, After(t, Initial(t), begun + settling), x, c);
  }
}
