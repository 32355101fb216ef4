/**
 Link agreement: what a parent has on record for the link to a child, brought up to date with
 the Sub and Unsub messages still on the way, against what the child's own subscribers need.

 The session that fronts a child subscribes to its own session key when it is built
 (`Agent`'s constructor), so on that one channel the parent can hold a record that the child
 never asked for, until the child has sent a Sub or Unsub for it.
 */
module PubSubLinks {
  import opened Wrappers
  import opened PubSubTree

  predicate Has(nd: Node, c: Channel) {
    Subscribers(nd.rel, c) != {}
  }

  lemma HasMeans(nd: Node, c: Channel)
    ensures Has(nd, c) <==> exists a :: (a, c) in nd.rel
  {
    if Has(nd, c) {
      var a :| a in Subscribers(nd.rel, c);
      assert (a, c) in nd.rel;
    }
  }

  /** The record of a link on a channel after the parent has run one more message. */
  predicate Updated(record: bool, msg: UpMessage, c: Channel) {
    if msg == Sub(c) && c != "" then true else if msg == Unsub(c) then false else record
  }

  /** The record after the parent has run all the queued messages, oldest first. */
  predicate Replay(record: bool, up: seq<UpMessage>, c: Channel)
    decreases |up|
  {
    if up == [] then record else Updated(Replay(record, up[..|up| - 1], c), up[|up| - 1], c)
  }

  predicate HasOp(up: seq<UpMessage>, c: Channel) {
    exists i :: 0 <= i < |up| && IsOp(up[i], c)
  }

  lemma {:induction false} ReplayHead(record: bool, up: seq<UpMessage>, c: Channel)
    requires up != []
    ensures Replay(record, up, c) == Replay(Updated(record, up[0], c), up[1..], c)
    decreases |up|
  {
    if |up| == 1 {
      assert up[..0] == [] && up[1..] == [];
    } else {
      var front := up[..|up| - 1];
      ReplayHead(record, front, c);
      assert front[1..] == up[1..][..|up[1..]| - 1];
    }
  }

  lemma ReplayAppend(record: bool, up: seq<UpMessage>, msg: UpMessage, c: Channel)
    ensures Replay(record, up + [msg], c) == Updated(Replay(record, up, c), msg, c)
  {
    assert (up + [msg])[..|up|] == up;
  }

  /** Without a queued operation the record stays; with one it does not matter what it was. */
  lemma {:induction false} ReplayOps(up: seq<UpMessage>, c: Channel)
    requires c != ""
    ensures HasOp(up, c) ==> Replay(true, up, c) == Replay(false, up, c)
    ensures !HasOp(up, c) ==> forall record :: Replay(record, up, c) == record
    decreases |up|
  {
    if up != [] {
      var front := up[..|up| - 1];
      ReplayOps(front, c);
      if HasOp(up, c) && !IsOp(up[|up| - 1], c) {
        var i :| 0 <= i < |up| && IsOp(up[i], c);
        assert IsOp(front[i], c);
      }
      if !HasOp(up, c) {
        assert !IsOp(up[|up| - 1], c);
        forall i | 0 <= i < |front| ensures !IsOp(front[i], c) { assert !IsOp(up[i], c); }
      }
    }
  }

  /** Whether node `n` needs, or is given for its session key, a record of its link on `c`. */
  predicate Wanted(t: Tree, n: nat, nd: Node, c: Channel)
    requires t.IsNode(n)
  {
    Has(nd, c) || (c == t.linkKey[n] && nd.linked && !nd.touched)
  }

  /** The invariant of the link of `n`, given the parent's relation. */
  ghost predicate LinkOk(t: Tree, n: nat, nd: Node, above: set<(Agent, Channel)>)
    requires t.IsNode(n)
  {
    && (forall c :: Replay((Link(n), c) in above, nd.up, c) == Wanted(t, n, nd, c))
    && (!nd.linked ==> (forall c :: (Link(n), c) !in above) && (nd.touched <==> HasOp(nd.up, t.linkKey[n])))
    && (Has(nd, t.linkKey[n]) ==> nd.touched)
  }

  /** Only sessions of a node's own children are among its links. */
  ghost predicate LinksOfChildren(t: Tree, q: nat, nd: Node) {
    forall k: nat, c :: (Link(k), c) in nd.rel ==> t.IsLink(k) && t.parent[k] == q
  }

  ghost predicate LinkInvariant(t: Tree, s: State)
    requires IsState(t, s)
  {
    && (forall n :: t.IsLink(n) ==> LinkOk(t, n, s.nodes[n], s.nodes[t.parent[n]].rel))
    && (forall q :: t.IsNode(q) ==> LinksOfChildren(t, q, s.nodes[q]))
  }

  // --- the child's side: whatever it does to its own relation, it tells the parent ---

  lemma SendUpOps(up: seq<UpMessage>, msg: UpMessage, c: Channel)
    ensures HasOp(up + [msg], c) <==> HasOp(up, c) || IsOp(msg, c)
  {
    if HasOp(up, c) {
      var i :| 0 <= i < |up| && IsOp(up[i], c);
      assert IsOp((up + [msg])[i], c);
    }
    if IsOp(msg, c) {
      assert IsOp((up + [msg])[|up|], c);
    }
    if HasOp(up + [msg], c) {
      var i :| 0 <= i < |up + [msg]| && IsOp((up + [msg])[i], c);
      assert i < |up| ==> IsOp(up[i], c);
    }
  }

  lemma SubscribeKeepsLink(t: Tree, n: nat, nd: Node, a: Agent, c: Channel, above: set<(Agent, Channel)>)
    requires t.Valid() && t.IsLink(n) && LinkOk(t, n, nd, above)
    ensures LinkOk(t, n, SubscribeAt(t, n, nd, a, c), above)
  {
    var nd' := SubscribeAt(t, n, nd, a, c);
    SendUpOps(nd.up, Sub(c), t.linkKey[n]);
    forall d
      ensures Replay((Link(n), d) in above, nd'.up, d) == Wanted(t, n, nd', d)
    {
      ReplayAppend((Link(n), d) in above, nd.up, Sub(c), d);
      HasMeans(nd, d);
      HasMeans(nd', d);
    }
  }

  lemma UnsubscribeKeepsLink(t: Tree, n: nat, nd: Node, a: Agent, c: Channel, above: set<(Agent, Channel)>)
    requires t.Valid() && t.IsLink(n) && LinkOk(t, n, nd, above)
    ensures LinkOk(t, n, UnsubscribeAt(t, n, nd, a, c), above)
  {
    var nd' := UnsubscribeAt(t, n, nd, a, c);
    SendUpOps(nd.up, Unsub(c), t.linkKey[n]);
    forall d
      ensures Replay((Link(n), d) in above, nd'.up, d) == Wanted(t, n, nd', d)
    {
      ReplayAppend((Link(n), d) in above, nd.up, Unsub(c), d);
      HasMeans(nd, d);
      HasMeans(nd', d);
    }
  }

  /** `SendUnsubs` takes back exactly the listed channels that nobody is left on. */
  lemma {:induction false} SendUnsubsReplay(t: Tree, n: nat, nd: Node, channels: seq<Channel>, record: bool, d: Channel)
    requires t.Valid() && t.IsLink(n)
    ensures var nd' := SendUnsubs(t, n, nd, channels);
            && nd' == nd.(up := nd'.up, touched := nd'.touched)
            && Replay(record, nd'.up, d) == (if d in channels && !Has(nd, d) then false else Replay(record, nd.up, d))
            && (nd'.touched <==> nd.touched || (t.linkKey[n] in channels && !Has(nd, t.linkKey[n])))
            && (HasOp(nd'.up, t.linkKey[n]) <==>
                HasOp(nd.up, t.linkKey[n]) || (t.linkKey[n] in channels && !Has(nd, t.linkKey[n])))
    decreases |channels|
  {
    if channels != [] {
      var c := channels[|channels| - 1];
      var front := channels[..|channels| - 1];
      SendUnsubsReplay(t, n, nd, front, record, d);
      assert channels == front + [c];
      var mid := SendUnsubs(t, n, nd, front);
      ReplayAppend(record, mid.up, Unsub(c), d);
      SendUpOps(mid.up, Unsub(c), t.linkKey[n]);
    }
  }

  lemma UnsubscribeAgentKeepsLink(
    t: Tree, n: nat, nd: Node, a: Agent, channels: seq<Channel>, above: set<(Agent, Channel)>)
    requires t.Valid() && t.IsLink(n) && LinkOk(t, n, nd, above)
    requires Listing(channels, ChannelsOf(nd.rel, a))
    ensures LinkOk(t, n, UnsubscribeAgentAt(t, n, nd, a, channels), above)
  {
    var less := nd.(rel := WithoutAgent(nd.rel, a));
    var nd' := UnsubscribeAgentAt(t, n, nd, a, channels);
    forall d
      ensures Replay((Link(n), d) in above, nd'.up, d) == Wanted(t, n, nd', d)
    {
      SendUnsubsReplay(t, n, less, channels, (Link(n), d) in above, d);
      HasMeans(nd, d);
      HasMeans(less, d);
      if d !in channels {
        assert forall b :: (b, d) in nd.rel <==> (b, d) in less.rel;
      } else {
        assert (a, d) in nd.rel;
      }
    }
    SendUnsubsReplay(t, n, less, channels, false, "");
  }

  /** Queueing a publish does not concern the record. */
  lemma SendPubKeepsLink(t: Tree, n: nat, nd: Node, c: Channel, text: string, above: set<(Agent, Channel)>)
    requires t.Valid() && t.IsLink(n) && LinkOk(t, n, nd, above)
    ensures LinkOk(t, n, SendUp(t, n, nd, Pub(c, text)), above)
  {
    var nd' := SendUp(t, n, nd, Pub(c, text));
    SendUpOps(nd.up, Pub(c, text), t.linkKey[n]);
    forall d
      ensures Replay((Link(n), d) in above, nd'.up, d) == Wanted(t, n, nd', d)
    {
      ReplayAppend((Link(n), d) in above, nd.up, Pub(c, text), d);
      HasMeans(nd, d);
      HasMeans(nd', d);
    }
  }

  // --- the parent's side ---

  /** Running the oldest message moves it from the queue into the record. */
  lemma ReceiveKeepsLink(t: Tree, n: nat, nd: Node, q: Node)
    requires t.Valid() && t.IsLink(n) && nd.up != [] && nd.linked && LinkOk(t, n, nd, q.rel)
    ensures LinkOk(t, n, nd.(up := nd.up[1..]), RunUpMessage(t, t.parent[n], q, n, nd.up[0]).rel)
  {
    var nd' := nd.(up := nd.up[1..]);
    var above := RunUpMessage(t, t.parent[n], q, n, nd.up[0]).rel;
    forall d
      ensures Replay((Link(n), d) in above, nd'.up, d) == Wanted(t, n, nd', d)
    {
      ReplayHead((Link(n), d) in q.rel, nd.up, d);
      assert ((Link(n), d) in above) == Updated((Link(n), d) in q.rel, nd.up[0], d);
    }
  }

  /** Building the session puts its own key on record. */
  lemma AcceptKeepsLink(t: Tree, n: nat, nd: Node, q: Node)
    requires t.Valid() && t.IsLink(n) && !nd.linked && LinkOk(t, n, nd, q.rel)
    ensures LinkOk(t, n, nd.(linked := true), SubscribeAt(t, t.parent[n], q, Link(n), t.linkKey[n]).rel)
  {
    var above := SubscribeAt(t, t.parent[n], q, Link(n), t.linkKey[n]).rel;
    var nd' := nd.(linked := true);
    forall d
      ensures Replay((Link(n), d) in above, nd'.up, d) == Wanted(t, n, nd', d)
    {
      ReplayOps(nd.up, t.linkKey[n]);
    }
  }

  /** A change of the parent's relation that leaves the records of this link alone. */
  lemma OtherRecords(t: Tree, n: nat, nd: Node, above: set<(Agent, Channel)>, above': set<(Agent, Channel)>)
    requires t.IsNode(n) && LinkOk(t, n, nd, above)
    requires forall c :: (Link(n), c) in above <==> (Link(n), c) in above'
    ensures LinkOk(t, n, nd, above')
  {
  }

  // --- every step ---

  /** The link sees of its child only the relation, the queue and the two flags. */
  lemma SameForLink(t: Tree, n: nat, nd: Node, nd': Node, above: set<(Agent, Channel)>)
    requires t.IsNode(n) && LinkOk(t, n, nd, above)
    requires nd'.rel == nd.rel && nd'.up == nd.up && nd'.linked == nd.linked && nd'.touched == nd.touched
    ensures LinkOk(t, n, nd', above)
  {
  }

  /** What a step does to a node, seen from the link above it. */
  lemma OwnSide(t: Tree, s: State, step: Step, n: nat)
    requires IsState(t, s) && Enabled(t, s, step) && LinkInvariant(t, s) && t.IsLink(n)
    requires (step.Accept? || step.Receive?) ==> step.n != n
    ensures LinkOk(t, n, Apply(t, s, step).nodes[n], s.nodes[t.parent[n]].rel)
  {
    hide LinkOk, Apply, Enabled;
    if (step.Accept? || step.Receive?) && t.parent[step.n] == n {
      ChildTurnForLink(t, s, step, n);
    } else if step.n == n && !Internal(step) {
      CallForLink(t, s, step, n);
    } else if step.n == n {
      OwnTurnForLink(t, s, step, n);
    } else {
      FarStepForLink(t, s, step, n);
    }
  }

  lemma CallForLink(t: Tree, s: State, step: Step, n: nat)
    requires IsState(t, s) && Enabled(t, s, step) && t.IsLink(n) && step.n == n && !Internal(step)
    requires LinkOk(t, n, s.nodes[n], s.nodes[t.parent[n]].rel)
    ensures LinkOk(t, n, Apply(t, s, step).nodes[n], s.nodes[t.parent[n]].rel)
  {
    hide LinkOk, SubscribeAt, UnsubscribeAt, UnsubscribeAgentAt;
    var nd := s.nodes[n];
    var above := s.nodes[t.parent[n]].rel;
    match step {
      case Subscribe(_, key, c) => SubscribeKeepsLink(t, n, nd, Client(key), c, above);
      case Unsubscribe(_, key, c) => UnsubscribeKeepsLink(t, n, nd, Client(key), c, above);
      case UnsubscribeAgent(_, key, channels) => UnsubscribeAgentKeepsLink(t, n, nd, Client(key), channels, above);
      case Publish(_, _, _) => SameForLink(t, n, nd, Apply(t, s, step).nodes[n], above);
    }
  }

  lemma OwnTurnForLink(t: Tree, s: State, step: Step, n: nat)
    requires IsState(t, s) && Enabled(t, s, step) && t.IsLink(n) && step.n == n && Internal(step)
    requires !step.Accept? && !step.Receive? && LinkOk(t, n, s.nodes[n], s.nodes[t.parent[n]].rel)
    ensures LinkOk(t, n, Apply(t, s, step).nodes[n], s.nodes[t.parent[n]].rel)
  {
    hide LinkOk;
    var nd := s.nodes[n];
    var above := s.nodes[t.parent[n]].rel;
    if step.PromoteUp? {
      var left := nd.(tasks := RemoveAt(nd.tasks, step.i));
      SameForLink(t, n, nd, left, above);
      SendPubKeepsLink(t, n, left, nd.tasks[step.i].c, t.serialize(nd.tasks[step.i].m), above);
    } else {
      SameForLink(t, n, nd, Apply(t, s, step).nodes[n], above);
    }
  }

  /** A step of another node, other than the run of a message of a child of `n`. */
  lemma FarStepForLink(t: Tree, s: State, step: Step, n: nat)
    requires IsState(t, s) && Enabled(t, s, step) && t.IsLink(n) && step.n != n
    requires (step.Accept? || step.Receive?) ==> t.parent[step.n] != n
    requires LinkOk(t, n, s.nodes[n], s.nodes[t.parent[n]].rel)
    ensures LinkOk(t, n, Apply(t, s, step).nodes[n], s.nodes[t.parent[n]].rel)
  {
    hide LinkOk;
    SameForLink(t, n, s.nodes[n], Apply(t, s, step).nodes[n], s.nodes[t.parent[n]].rel);
  }

  /** A node that runs a message of one of its own children. */
  lemma ChildTurnForLink(t: Tree, s: State, step: Step, n: nat)
    requires IsState(t, s) && Enabled(t, s, step) && t.IsLink(n) && (step.Accept? || step.Receive?)
    requires t.parent[step.n] == n && LinkOk(t, n, s.nodes[n], s.nodes[t.parent[n]].rel)
    ensures LinkOk(t, n, Apply(t, s, step).nodes[n], s.nodes[t.parent[n]].rel)
  {
    hide LinkOk, SubscribeAt, UnsubscribeAt;
    var nd := s.nodes[n];
    var above := s.nodes[t.parent[n]].rel;
    var k := step.n;
    if step.Accept? {
      SubscribeKeepsLink(t, n, nd, Link(k), t.linkKey[k], above);
    } else {
      match s.nodes[k].up[0] {
        case Sub(c) => SubscribeKeepsLink(t, n, nd, Link(k), c, above);
        case Unsub(c) => UnsubscribeKeepsLink(t, n, nd, Link(k), c, above);
        case Pub(_, _) => SameForLink(t, n, nd, Apply(t, s, step).nodes[n], above);
      }
    }
  }

  /** The records of a link change only when the parent runs a message of that link. */
  lemma RecordsOfOthers(t: Tree, s: State, step: Step, q: nat, k: nat, c: Channel)
    requires IsState(t, s) && Enabled(t, s, step) && t.IsNode(q)
    requires (step.Accept? || step.Receive?) ==> step.n != k
    ensures (Link(k), c) in Apply(t, s, step).nodes[q].rel <==> (Link(k), c) in s.nodes[q].rel
  {
    hide Apply, Enabled;
    if !Internal(step) {
      RecordsAtCall(t, s, step, q, k, c);
    } else if step.Accept? || step.Receive? {
      RecordsAtLinkTurn(t, s, step, q, k, c);
    } else {
      OtherTurnsKeepRelations(t, s, step, q);
    }
  }

  lemma RecordsAtCall(t: Tree, s: State, step: Step, q: nat, k: nat, c: Channel)
    requires IsState(t, s) && Enabled(t, s, step) && t.IsNode(q) && !Internal(step)
    ensures (Link(k), c) in Apply(t, s, step).nodes[q].rel <==> (Link(k), c) in s.nodes[q].rel
  {
    if step.UnsubscribeAgent? && step.n == q {
      SendUnsubsRel(t, q, s.nodes[q].(rel := WithoutAgent(s.nodes[q].rel, Client(step.key))), step.channels);
    }
  }

  lemma RecordsAtLinkTurn(t: Tree, s: State, step: Step, q: nat, k: nat, c: Channel)
    requires IsState(t, s) && Enabled(t, s, step) && t.IsNode(q) && (step.Accept? || step.Receive?) && step.n != k
    ensures (Link(k), c) in Apply(t, s, step).nodes[q].rel <==> (Link(k), c) in s.nodes[q].rel
  {
  }

  lemma OtherTurnsKeepRelations(t: Tree, s: State, step: Step, q: nat)
    requires IsState(t, s) && Enabled(t, s, step) && t.IsNode(q) && Internal(step) && !step.Accept? && !step.Receive?
    ensures Apply(t, s, step).nodes[q].rel == s.nodes[q].rel
  {
  }

  lemma {:induction false} SendUnsubsRel(t: Tree, n: nat, nd: Node, channels: seq<Channel>)
    requires t.IsNode(n)
    ensures SendUnsubs(t, n, nd, channels).rel == nd.rel
    decreases |channels|
  {
    if channels != [] {
      SendUnsubsRel(t, n, nd, channels[..|channels| - 1]);
    }
  }

  lemma StepKeepsLinkOk(t: Tree, s: State, step: Step, n: nat)
    requires IsState(t, s) && Enabled(t, s, step) && LinkInvariant(t, s) && t.IsLink(n)
    ensures LinkOk(t, n, Apply(t, s, step).nodes[n], Apply(t, s, step).nodes[t.parent[n]].rel)
  {
    var s' := Apply(t, s, step);
    var q := t.parent[n];
    if (step.Accept? || step.Receive?) && step.n == n {
      if step.Accept? {
        AcceptKeepsLink(t, n, s.nodes[n], s.nodes[q]);
      } else {
        ReceiveKeepsLink(t, n, s.nodes[n], s.nodes[q]);
      }
    } else {
      OwnSide(t, s, step, n);
      forall c
        ensures (Link(n), c) in s.nodes[q].rel <==> (Link(n), c) in s'.nodes[q].rel
      {
        RecordsOfOthers(t, s, step, q, n, c);
      }
      OtherRecords(t, n, s'.nodes[n], s.nodes[q].rel, s'.nodes[q].rel);
    }
  }

  lemma StepKeepsChildren(t: Tree, s: State, step: Step, q: nat)
    requires IsState(t, s) && Enabled(t, s, step) && LinkInvariant(t, s) && t.IsNode(q)
    ensures LinksOfChildren(t, q, Apply(t, s, step).nodes[q])
  {
    var s' := Apply(t, s, step);
    forall k: nat, c | (Link(k), c) in s'.nodes[q].rel
      ensures t.IsLink(k) && t.parent[k] == q
    {
      if !((step.Accept? || step.Receive?) && step.n == k) {
        RecordsOfOthers(t, s, step, q, k, c);
      }
    }
  }

  lemma StepKeepsLinks(t: Tree, s: State, step: Step)
    requires IsState(t, s) && Enabled(t, s, step) && LinkInvariant(t, s)
    ensures LinkInvariant(t, Apply(t, s, step))
  {
    forall n | t.IsLink(n)
      ensures LinkOk(t, n, Apply(t, s, step).nodes[n], Apply(t, s, step).nodes[t.parent[n]].rel)
    {
      StepKeepsLinkOk(t, s, step, n);
    }
    forall q | t.IsNode(q)
      ensures LinksOfChildren(t, q, Apply(t, s, step).nodes[q])
    {
      StepKeepsChildren(t, s, step, q);
    }
  }

  lemma InitialLinks(t: Tree)
    requires t.Valid()
    ensures IsState(t, Initial(t)) && LinkInvariant(t, Initial(t))
  {
  }

  /** The invariant holds in every state of every run. */
  lemma {:induction false} RunKeepsLinks(t: Tree, s: State, steps: seq<Step>)
    requires IsState(t, s) && IsRun(t, s, steps) && LinkInvariant(t, s)
    ensures LinkInvariant(t, After(t, s, steps))
    decreases |steps|
  {
    if steps != [] {
      StepKeepsLinks(t, s, steps[0]);
      RunKeepsLinks(t, Apply(t, s, steps[0]), steps[1..]);
    }
  }

  /**
   Link agreement in every reachable state, for every link and channel: replaying the queue
   onto the parent's record gives "the child has a subscriber" in all cases but one: the
   channel is the link's own session key, the session exists, and no Sub or Unsub for that
   channel was ever sent.
   */
  lemma LinkAgreement(t: Tree, steps: seq<Step>, n: nat, c: Channel)
    requires t.Valid() && IsRun(t, Initial(t), steps) && t.IsLink(n)
    ensures var s := After(t, Initial(t), steps);
            var nd := s.nodes[n];
            (Replay((Link(n), c) in s.nodes[t.parent[n]].rel, nd.up, c) == Has(nd, c))
            <==> c != t.linkKey[n] || !nd.linked || nd.touched
  {
    InitialLinks(t);
    RunKeepsLinks(t, Initial(t), steps);
    var s := After(t, Initial(t), steps);
    assert LinkOk(t, n, s.nodes[n], s.nodes[t.parent[n]].rel);
  }

  /** The one case does occur: right after its session is built, in a tree of two servers. */
  lemma SessionKeyDisagrees(t: Tree)
    requires t.Valid() && |t.parent| == 2
    ensures IsRun(t, Initial(t), [Accept(1)])
    ensures var s := After(t, Initial(t), [Accept(1)]);
            (Link(1), t.linkKey[1]) in s.nodes[0].rel && !Has(s.nodes[1], t.linkKey[1]) && s.nodes[1].up == []
  {
    var s0 := Initial(t);
    assert t.parent[1] == 0;
    assert Enabled(t, s0, Accept(1));
    var s1 := Apply(t, s0, Accept(1));
    assert [Accept(1)][1..] == [];
    assert IsRun(t, s1, []);
    assert After(t, s0, [Accept(1)]) == s1;
  }

  // --- drained links ---

  /** `x` is `n` or below it. */
  predicate Below(t: Tree, x: nat, n: nat)
    decreases x
  {
    x == n || (0 < x < |t.parent| && t.parent[x] < x && Below(t, t.parent[x], n))
  }

  /** The child of `n` on the way down to `x`. */
  function Toward(t: Tree, x: nat, n: nat): (k: nat)
    requires t.Valid() && Below(t, x, n) && x != n
    ensures 0 < k < |t.parent| && t.parent[k] == n && Below(t, x, k)
    decreases x
  {
    if t.parent[x] == n then x else Toward(t, t.parent[x], n)
  }

  lemma {:induction false} BelowTransitive(t: Tree, x: nat, k: nat, n: nat)
    requires Below(t, x, k) && Below(t, k, n)
    ensures Below(t, x, n)
    decreases x
  {
    if x != k {
      BelowTransitive(t, t.parent[x], k, n);
    }
  }

  ghost predicate Drained(s: State) {
    forall n, i :: 0 <= n < |s.nodes| && 0 <= i < |s.nodes[n].up| ==> s.nodes[n].up[i].Pub?
  }

  ghost predicate ClientBelow(t: Tree, s: State, n: nat, c: Channel) {
    exists x, key :: 0 <= x < |s.nodes| && Below(t, x, n) && (Client(key), c) in s.nodes[x].rel
  }

  /** A session key at or below `n` that was put on record by itself. */
  ghost predicate KeyBelow(t: Tree, s: State, n: nat, c: Channel)
    requires IsState(t, s)
  {
    exists x :: t.IsLink(x) && Below(t, x, n) && c == t.linkKey[x] && s.nodes[x].linked && !s.nodes[x].touched
  }

  /** No Sub or Unsub for the channel is queued at `x` or between `x` and the root. */
  ghost predicate Settled(t: Tree, s: State, x: nat, c: Channel)
    requires IsState(t, s)
  {
    forall n :: t.IsNode(n) && Below(t, x, n) ==> !HasOp(s.nodes[n].up, c)
  }

  lemma DrainedIsSettled(t: Tree, s: State, x: nat, c: Channel)
    requires IsState(t, s) && Drained(s)
    ensures Settled(t, s, x, c)
  {
    forall n | t.IsNode(n) && Below(t, x, n)
      ensures !HasOp(s.nodes[n].up, c)
    {
      var up := s.nodes[n].up;
      assert forall i :: 0 <= i < |up| ==> !IsOp(up[i], c);
    }
  }

  lemma SettledAbove(t: Tree, s: State, x: nat, c: Channel)
    requires t.Valid() && IsState(t, s) && Settled(t, s, x, c) && t.IsLink(x)
    ensures Settled(t, s, t.parent[x], c)
  {
    forall n | t.IsNode(n) && Below(t, t.parent[x], n)
      ensures !HasOp(s.nodes[n].up, c)
    {
      assert Below(t, x, n);
    }
  }

  lemma {:induction false} ReplayOthers(record: bool, up: seq<UpMessage>, c: Channel)
    requires !HasOp(up, c)
    ensures Replay(record, up, c) == record
    decreases |up|
  {
    if up != [] {
      var front := up[..|up| - 1];
      assert !IsOp(up[|up| - 1], c);
      forall i | 0 <= i < |front| ensures !IsOp(front[i], c) { assert !IsOp(up[i], c); }
      ReplayOthers(record, front, c);
    }
  }

  lemma SettledRecord(t: Tree, s: State, n: nat, c: Channel)
    requires IsState(t, s) && LinkInvariant(t, s) && t.IsLink(n) && !HasOp(s.nodes[n].up, c)
    ensures (Link(n), c) in s.nodes[t.parent[n]].rel <==> Wanted(t, n, s.nodes[n], c)
  {
    ReplayOthers((Link(n), c) in s.nodes[t.parent[n]].rel, s.nodes[n].up, c);
  }

  lemma DrainedRecord(t: Tree, s: State, n: nat, c: Channel)
    requires IsState(t, s) && LinkInvariant(t, s) && Drained(s) && t.IsLink(n)
    ensures (Link(n), c) in s.nodes[t.parent[n]].rel <==> Wanted(t, n, s.nodes[n], c)
  {
    DrainedIsSettled(t, s, n, c);
    assert Below(t, n, n);
    SettledRecord(t, s, n, c);
  }

  lemma {:induction false} RecordHasReason(t: Tree, s: State, n: nat, c: Channel)
    requires IsState(t, s) && LinkInvariant(t, s) && Drained(s) && t.IsLink(n)
    requires (Link(n), c) in s.nodes[t.parent[n]].rel
    ensures ClientBelow(t, s, n, c) || KeyBelow(t, s, n, c)
    decreases |t.parent| - n
  {
    DrainedRecord(t, s, n, c);
    if Has(s.nodes[n], c) {
      HasMeans(s.nodes[n], c);
      var a :| (a, c) in s.nodes[n].rel;
      if a.Link? {
        var k := a.child;
        assert LinksOfChildren(t, n, s.nodes[n]);
        RecordHasReason(t, s, k, c);
        assert Below(t, k, n);
        if ClientBelow(t, s, k, c) {
          var x, key :| 0 <= x < |s.nodes| && Below(t, x, k) && (Client(key), c) in s.nodes[x].rel;
          BelowTransitive(t, x, k, n);
        } else {
          var x :| t.IsLink(x) && Below(t, x, k) && c == t.linkKey[x] && s.nodes[x].linked && !s.nodes[x].touched;
          BelowTransitive(t, x, k, n);
        }
      } else {
        assert Below(t, n, n) && (Client(a.key), c) in s.nodes[n].rel;
      }
    } else {
      assert Below(t, n, n);
    }
  }

  /** Every node between `x` and `n` wants a channel that `x` wants. */
  lemma {:induction false} WantSpreads(t: Tree, s: State, x: nat, n: nat, c: Channel)
    requires IsState(t, s) && LinkInvariant(t, s) && Settled(t, s, x, c)
    requires t.IsLink(n) && t.IsNode(x) && Below(t, x, n)
    requires Has(s.nodes[x], c) || (t.IsLink(x) && Wanted(t, x, s.nodes[x], c))
    ensures Wanted(t, n, s.nodes[n], c)
    decreases x
  {
    if x != n {
      assert Below(t, x, x);
      SettledRecord(t, s, x, c);
      SettledAbove(t, s, x, c);
      var q := t.parent[x];
      HasMeans(s.nodes[q], c);
      WantSpreads(t, s, q, n, c);
    }
  }

  /**
   Once the queues hold no Sub or Unsub, a parent has a link on record for a channel exactly
   when a client at or below the child is subscribed to it, or it is the untouched session
   key of a link at or below the child.
   */
  lemma DrainedRecords(t: Tree, steps: seq<Step>, n: nat, c: Channel)
    requires t.Valid() && IsRun(t, Initial(t), steps) && t.IsLink(n)
    requires Drained(After(t, Initial(t), steps))
    ensures var s := After(t, Initial(t), steps);
            (Link(n), c) in s.nodes[t.parent[n]].rel <==> ClientBelow(t, s, n, c) || KeyBelow(t, s, n, c)
  {
    InitialLinks(t);
    RunKeepsLinks(t, Initial(t), steps);
    var s := After(t, Initial(t), steps);
    DrainedRecord(t, s, n, c);
    if (Link(n), c) in s.nodes[t.parent[n]].rel {
      RecordHasReason(t, s, n, c);
    }
    if ClientBelow(t, s, n, c) {
      var x, key :| 0 <= x < |s.nodes| && Below(t, x, n) && (Client(key), c) in s.nodes[x].rel;
      HasMeans(s.nodes[x], c);
      DrainedIsSettled(t, s, x, c);
      WantSpreads(t, s, x, n, c);
    }
    if KeyBelow(t, s, n, c) {
      var x :| t.IsLink(x) && Below(t, x, n) && c == t.linkKey[x] && s.nodes[x].linked && !s.nodes[x].touched;
      DrainedIsSettled(t, s, x, c);
      WantSpreads(t, s, x, n, c);
    }
  }
}
