/**
 The mailbox of an agent: a queue of messages that hands itself to the thread pool when it
 becomes busy and drains itself there.  Any number of producers and pool threads take turns
 freely; each step below is one synchronized block, or one point of a message's execution.
 */
module Mailbox {
  import opened Wrappers

  type Message = nat

  /** Where one run of the queue's runner stands. */
  datatype Phase =
    | Scheduled               // given to the pool, not started
    | Polling                 // about to ask for the next message
    | Holding(msg: Message)   // has taken a message off the queue, not begun it
    | Executing(msg: Message)

  datatype State = State(
    q: seq<Message>,
    isRunning: bool,
    runners: seq<Phase>,
    submitted: seq<Message>,
    executed: seq<Message>)

  const IDLE := State([], false, [], [], [])

  datatype Step =
    | Submit(msg: Message)
    | Start(i: nat)
    | Poll(i: nat)
    | Begin(i: nat)
    | Finish(i: nat)

  predicate Enabled(s: State, step: Step) {
    match step
    case Submit(_) => true
    case Start(i) => i < |s.runners| && s.runners[i].Scheduled?
    case Poll(i) => i < |s.runners| && s.runners[i].Polling?
    case Begin(i) => i < |s.runners| && s.runners[i].Holding?
    case Finish(i) => i < |s.runners| && s.runners[i].Executing?
  }

  /** `run`: the message is queued, and an idle queue is handed to the pool. */
  function Submitted(s: State, msg: Message): State {
    var s' := s.(q := s.q + [msg], submitted := s.submitted + [msg]);
    if s.isRunning then s' else s'.(isRunning := true, runners := s.runners + [Scheduled])
  }

  /** `hasMore`: the oldest message, or the end of this run of the runner. */
  function Polled(s: State, i: nat): State
    requires i < |s.runners|
  {
    if s.q != [] then s.(q := s.q[1..], runners := s.runners[i := Holding(s.q[0])])
    else s.(isRunning := false, runners := RemoveAt(s.runners, i))
  }

  function Apply(s: State, step: Step): State
    requires Enabled(s, step)
  {
    match step
    case Submit(msg) => Submitted(s, msg)
    case Start(i) => s.(runners := s.runners[i := Polling])
    case Poll(i) => Polled(s, i)
    case Begin(i) => s.(runners := s.runners[i := Executing(s.runners[i].msg)])
    case Finish(i) => s.(runners := s.runners[i := Polling], executed := s.executed + [s.runners[i].msg])
  }

  ghost predicate IsRun(s: State, steps: seq<Step>)
    decreases |steps|
  {
    steps == [] || (Enabled(s, steps[0]) && IsRun(Apply(s, steps[0]), steps[1..]))
  }

  ghost function After(s: State, steps: seq<Step>): State
    requires IsRun(s, steps)
    decreases |steps|
  {
    if steps == [] then s else After(Apply(s, steps[0]), steps[1..])
  }

  /** The message off the queue and not yet done, if any. */
  function Current(s: State): seq<Message> {
    if |s.runners| == 1 && (s.runners[0].Holding? || s.runners[0].Executing?) then [s.runners[0].msg] else []
  }

  /**
   One runner exactly while the flag is up, none of them otherwise; a queue that is not empty
   has its runner; and nothing is lost, doubled or reordered.
   */
  predicate Consistent(s: State) {
    && |s.runners| == (if s.isRunning then 1 else 0)
    && (s.q != [] ==> s.isRunning)
    && s.executed + Current(s) + s.q == s.submitted
  }

  lemma SubmitKeeps(s: State, msg: Message)
    requires Consistent(s)
    ensures Consistent(Submitted(s, msg))
  {
    var s' := Submitted(s, msg);
    assert Current(s') == Current(s);
    assert s.executed + Current(s) + (s.q + [msg]) == s.executed + Current(s) + s.q + [msg];
  }

  lemma PollKeeps(s: State, i: nat)
    requires Consistent(s) && Enabled(s, Poll(i))
    ensures Consistent(Polled(s, i))
  {
    if s.q != [] {
      assert Current(Polled(s, i)) == [s.q[0]];
      assert s.executed + [] + s.q == s.executed + [s.q[0]] + s.q[1..];
    }
  }

  lemma StepKeeps(s: State, step: Step)
    requires Consistent(s) && Enabled(s, step)
    ensures Consistent(Apply(s, step))
  {
    match step {
      case Submit(msg) => SubmitKeeps(s, msg);
      case Poll(i) => PollKeeps(s, i);
      case Start(_) =>
      case Begin(_) =>
      case Finish(i) =>
        assert s.executed + [s.runners[i].msg] + s.q == s.executed + [s.runners[i].msg] + [] + s.q;
    }
  }

  lemma {:induction false} RunKeeps(s: State, steps: seq<Step>)
    requires Consistent(s) && IsRun(s, steps)
    ensures Consistent(After(s, steps))
    decreases |steps|
  {
    if steps != [] {
      StepKeeps(s, steps[0]);
      RunKeeps(Apply(s, steps[0]), steps[1..]);
    }
  }

  /**
   In every reachable state: the flag is up exactly when one runner is scheduled or looping and
   down when there is none; a message in the queue always has a runner coming for it; and the
   messages run, the one in hand and the queue make up what was submitted, in order.
   */
  lemma MailboxIsCorrect(steps: seq<Step>)
    requires IsRun(IDLE, steps)
    ensures var s := After(IDLE, steps);
            && (s.isRunning <==> |s.runners| == 1) && (!s.isRunning <==> s.runners == [])
            && (s.q != [] ==> |s.runners| == 1)
            && s.executed + Current(s) + s.q == s.submitted
  {
    RunKeeps(IDLE, steps);
  }

  // --- progress ---

  function PhaseWork(p: Phase): nat {
    match p
    case Scheduled => 2
    case Polling => 1
    case Holding(_) => 3
    case Executing(_) => 2
  }

  function RunnersWork(runners: seq<Phase>): nat {
    if runners == [] then 0 else RunnersWork(runners[..|runners| - 1]) + PhaseWork(runners[|runners| - 1])
  }

  /** What the runner still has to do, in steps. */
  function Work(s: State): nat { 3 * |s.q| + RunnersWork(s.runners) }

  lemma OneRunner(p: Phase)
    ensures RunnersWork([p]) == PhaseWork(p)
  {
    assert [p][..0] == [];
  }

  /** Every step of the runner uses up one unit of the work. */
  lemma StepWorks(s: State, step: Step)
    requires Consistent(s) && Enabled(s, step) && !step.Submit?
    ensures Work(Apply(s, step)) + 1 == Work(s)
  {
    assert s.runners == [s.runners[0]];
    OneRunner(s.runners[0]);
    var s' := Apply(s, step);
    if s'.runners != [] {
      assert s'.runners == [s'.runners[0]];
      OneRunner(s'.runners[0]);
    }
  }

  /** Without new messages the runner takes exactly as many steps as it has work. */
  lemma {:induction false} RunWorks(s: State, steps: seq<Step>)
    requires Consistent(s) && IsRun(s, steps) && forall i :: 0 <= i < |steps| ==> !steps[i].Submit?
    ensures Work(After(s, steps)) + |steps| == Work(s)
    decreases |steps|
  {
    if steps != [] {
      assert !steps[0].Submit?;
      StepKeeps(s, steps[0]);
      StepWorks(s, steps[0]);
      RunWorks(Apply(s, steps[0]), steps[1..]);
    }
  }

  /** The step the runner can take now. */
  function NextStep(s: State): Step
    requires |s.runners| == 1
  {
    match s.runners[0]
    case Scheduled => Start(0)
    case Polling => Poll(0)
    case Holding(_) => Begin(0)
    case Executing(_) => Finish(0)
  }

  /**
   No wake-up is lost: whatever happened before, letting the runner work ends after as many
   steps as there is work, with every message submitted executed in order.
   */
  lemma {:induction false} EverythingRuns(s: State) returns (steps: seq<Step>)
    requires Consistent(s)
    ensures IsRun(s, steps) && (forall i :: 0 <= i < |steps| ==> !steps[i].Submit?)
    ensures |steps| == Work(s)
    ensures After(s, steps).executed == s.submitted && After(s, steps).runners == []
    decreases Work(s)
  {
    if s.runners == [] {
      steps := [];
    } else {
      var step := NextStep(s);
      StepKeeps(s, step);
      StepWorks(s, step);
      var rest := EverythingRuns(Apply(s, step));
      steps := [step] + rest;
      assert steps[1..] == rest;
    }
  }

  // --- the object ---

  /** The pool: how many runs of this queue's runner it has been given. */
  class Pool {
    var given: nat

    constructor ()
      ensures given == 0
    {
      given := 0;
    }

    method Execute()
      modifies this
      ensures given == old(given) + 1
    {
      given := given + 1;
    }
  }

  class RunnablesQueue {
    var q: seq<Message>
    var isRunning: bool
    const pool: Pool

    constructor (pool: Pool)
      ensures this.pool == pool && q == [] && !isRunning
    {
      this.pool := pool;
      q := [];
      isRunning := false;
    }

    /** The object with the given runners in the pool. */
    function AsState(runners: seq<Phase>): State
      reads this
    {
      State(q, isRunning, runners, [], [])
    }

    /** `run` is the submit step: the pool gets the runners the step adds. */
    method Run(msg: Message)
      modifies this, pool
      ensures var s' := Submitted(old(AsState([])), msg);
              q == s'.q && isRunning == s'.isRunning && pool.given == old(pool.given) + |s'.runners|
    {
      q := q + [msg];
      if !isRunning {
        isRunning := true;
        pool.Execute();
      }
    }

    /** `hasMore` is the poll step: what the runner holds then, or that it ends. */
    method HasMore() returns (msg: Option<Message>)
      modifies this
      ensures var s' := Polled(old(AsState([Polling])), 0);
              && q == s'.q && isRunning == s'.isRunning
              && s'.runners == if msg.Some? then [Holding(msg.value)] else []
      ensures msg == if old(q) == [] then None else Some(old(q)[0])
    {
      if q != [] {
        msg := Some(q[0]);
        q := q[1..];
      } else {
        isRunning := false;
        msg := None;
      }
    }

    /** The loop of the runner, undisturbed: it runs what is queued, in order, and goes idle. */
    method RunLoop() returns (ran: seq<Message>)
      modifies this
      ensures ran == old(q) && q == [] && !isRunning
    {
      ran := [];
      var r := HasMore();
      assert r.Some? ==> old(q) == [old(q)[0]] + old(q)[1..];
      while r.Some?
        invariant r.Some? ==> ran + [r.value] + q == old(q)
        invariant r.None? ==> ran == old(q) && q == [] && !isRunning
        decreases if r.Some? then |q| + 1 else 0
      {
        ran := ran + [r.value];
        ghost var before := q;
        r := HasMore();
        assert before != [] ==> before == [before[0]] + before[1..];
      }
    }
  }

  // --- two mailboxes and one monitor ---

  /** Which of the two queues of a session: messages from subscriptions, or from the socket. */
  datatype Which = MessageQ | SocketQ

  /**
   A session: its two mailboxes, the queue whose message is inside the monitor, the messages
   run in the order they ran, and the count of socket messages.
   */
  datatype Session = Session(
    messageQ: State,
    socketQ: State,
    inside: Option<Which>,
    ran: seq<(Which, Message)>,
    messageCount: nat)

  const NEW_SESSION := Session(IDLE, IDLE, None, [], 0)

  function Box(s: Session, w: Which): State { if w.MessageQ? then s.messageQ else s.socketQ }

  function WithBox(s: Session, w: Which, box: State): Session {
    if w.MessageQ? then s.(messageQ := box) else s.(socketQ := box)
  }

  /** A runner begins a message by entering the monitor, and leaves it when the message is done. */
  predicate SessionEnabled(s: Session, w: Which, step: Step) {
    Enabled(Box(s, w), step) && (step.Begin? ==> s.inside.None?)
  }

  function SessionApply(s: Session, w: Which, step: Step): Session
    requires SessionEnabled(s, w, step)
  {
    var s' := WithBox(s, w, Apply(Box(s, w), step));
    if step.Begin? then
      s'.(inside := Some(w), messageCount := s.messageCount + if w.SocketQ? then 1 else 0)
    else if step.Finish? then
      s'.(inside := None, ran := s.ran + [(w, Box(s, w).runners[step.i].msg)])
    else s'
  }

  ghost predicate IsSessionRun(s: Session, steps: seq<(Which, Step)>)
    decreases |steps|
  {
    steps == []
    || (SessionEnabled(s, steps[0].0, steps[0].1)
        && IsSessionRun(SessionApply(s, steps[0].0, steps[0].1), steps[1..]))
  }

  ghost function AfterSession(s: Session, steps: seq<(Which, Step)>): Session
    requires IsSessionRun(s, steps)
    decreases |steps|
  {
    if steps == [] then s else AfterSession(SessionApply(s, steps[0].0, steps[0].1), steps[1..])
  }

  /** A message of the queue is being executed. */
  predicate IsExecuting(box: State) { |box.runners| == 1 && box.runners[0].Executing? }

  /** The messages of one queue among those run. */
  function Of(ran: seq<(Which, Message)>, w: Which): seq<Message> {
    if ran == [] then []
    else
      var front := Of(ran[..|ran| - 1], w);
      var last := ran[|ran| - 1];
      if last.0 == w then front + [last.1] else front
  }

  lemma OfNext(ran: seq<(Which, Message)>, x: (Which, Message), w: Which)
    ensures Of(ran + [x], w) == if x.0 == w then Of(ran, w) + [x.1] else Of(ran, w)
  {
    assert (ran + [x])[..|ran|] == ran;
  }

  predicate SessionConsistent(s: Session) {
    && Consistent(s.messageQ) && Consistent(s.socketQ)
    && (IsExecuting(s.messageQ) <==> s.inside == Some(MessageQ))
    && (IsExecuting(s.socketQ) <==> s.inside == Some(SocketQ))
    && Of(s.ran, MessageQ) == s.messageQ.executed && Of(s.ran, SocketQ) == s.socketQ.executed
    && s.messageCount == |s.socketQ.executed| + if IsExecuting(s.socketQ) then 1 else 0
  }

  lemma SessionStepKeeps(s: Session, w: Which, step: Step)
    requires SessionConsistent(s) && SessionEnabled(s, w, step)
    ensures SessionConsistent(SessionApply(s, w, step))
  {
    StepKeeps(Box(s, w), step);
    if step.Finish? {
      var x := (w, Box(s, w).runners[step.i].msg);
      OfNext(s.ran, x, MessageQ);
      OfNext(s.ran, x, SocketQ);
    }
  }

  lemma {:induction false} SessionRunKeeps(s: Session, steps: seq<(Which, Step)>)
    requires SessionConsistent(s) && IsSessionRun(s, steps)
    ensures SessionConsistent(AfterSession(s, steps))
    decreases |steps|
  {
    if steps != [] {
      SessionStepKeeps(s, steps[0].0, steps[0].1);
      SessionRunKeeps(SessionApply(s, steps[0].0, steps[0].1), steps[1..]);
    }
  }

  /**
   In every reachable state of a session: at most one message executes over both queues; each
   queue's messages ran in the order they were submitted; the count is the number of socket
   messages begun.
   */
  lemma SessionIsSerial(steps: seq<(Which, Step)>)
    requires IsSessionRun(NEW_SESSION, steps)
    ensures var s := AfterSession(NEW_SESSION, steps);
            && !(IsExecuting(s.messageQ) && IsExecuting(s.socketQ))
            && (forall w :: Of(s.ran, w) + Current(Box(s, w)) + Box(s, w).q == Box(s, w).submitted)
            && s.messageCount == |Of(s.ran, SocketQ)| + if IsExecuting(s.socketQ) then 1 else 0
  {
    SessionRunKeeps(NEW_SESSION, steps);
  }

  /** The queues never block each other for good: while there is work some runner can go on. */
  lemma SessionGoesOn(s: Session) returns (w: Which, step: Step)
    requires SessionConsistent(s) && (s.messageQ.runners != [] || s.socketQ.runners != [])
    ensures !step.Submit? && SessionEnabled(s, w, step)
  {
    if s.inside.Some? {
      w := s.inside.value;
    } else {
      w := if s.messageQ.runners != [] then MessageQ else SocketQ;
    }
    step := NextStep(Box(s, w));
  }

  /** And the work of both runs out. */
  lemma SessionStepWorks(s: Session, w: Which, step: Step)
    requires SessionConsistent(s) && SessionEnabled(s, w, step) && !step.Submit?
    ensures var s' := SessionApply(s, w, step);
            Work(s'.messageQ) + Work(s'.socketQ) + 1 == Work(s.messageQ) + Work(s.socketQ)
  {
    StepWorks(Box(s, w), step);
  }

  // --- the session object ---

  class SessionAgent {
    var next10sec: int
    var messageCount: nat
    /** When the time to live was set anew. */
    ghost var renewals: seq<int>

    /** Renewals are more than ten seconds apart, and the next one is due ten seconds after the last. */
    ghost predicate Valid()
      reads this
    {
      && (forall i :: 0 <= i < |renewals| ==> renewals[i] + 10000 <= next10sec)
      && (forall i, j :: 0 <= i < j < |renewals| ==> renewals[i] + 10000 < renewals[j])
    }

    constructor (now: int)
      ensures Valid() && next10sec == now + 10000 && messageCount == 0 && renewals == []
    {
      next10sec := now + 10 * 1000;
      messageCount := 0;
      renewals := [];
    }

    /**
     `runSocketMessage` up to the run of the message: the session is kept alive at most once in
     ten seconds, whatever the stream of messages.
     */
    method RunSocketMessage(current: int, isOpen: bool) returns (setTtl: bool)
      requires Valid()
      modifies this
      ensures Valid() && messageCount == old(messageCount) + 1
      ensures setTtl <==> current > old(next10sec) && isOpen
      ensures next10sec == if current > old(next10sec) then current + 10000 else old(next10sec)
      ensures renewals == old(renewals) + if setTtl then [current] else []
    {
      setTtl := false;
      if current > next10sec {
        next10sec := current + 10 * 1000;
        if isOpen {
          setTtl := true;
          renewals := renewals + [current];
        }
      }
      messageCount := messageCount + 1;
    }
  }
}
