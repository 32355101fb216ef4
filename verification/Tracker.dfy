/**
 The tracker keeps a player subscribed to the cells around it at six levels: what its batches
 of messages do to the subscriptions at the server, and the tracker object.
 */
module Trackers {
  import opened Text
  import opened QuadSpaces
  import opened QuadNeighbours
  import opened TrackerCells
  import opened TrackerLevels

  // --- the server's side ---

  datatype SocketMessage = Subscribe(c: string) | Unsubscribe(c: string) | Publish(c: string)

  function Ran(subscribed: set<string>, msg: SocketMessage): set<string> {
    match msg
    case Subscribe(c) => subscribed + {c}
    case Unsubscribe(c) => subscribed - {c}
    case Publish(_) => subscribed
  }

  /** The subscriptions of the session at the server after it has run the messages in order. */
  function AtServer(before: set<string>, log: seq<SocketMessage>): set<string>
    decreases |log|
  {
    if log == [] then before else Ran(AtServer(before, log[..|log| - 1]), log[|log| - 1])
  }

  lemma AtServerNext(before: set<string>, log: seq<SocketMessage>, msg: SocketMessage)
    ensures AtServer(before, log + [msg]) == Ran(AtServer(before, log), msg)
  {
    assert (log + [msg])[..|log|] == log;
  }

  /** The spaces of a level are names of cells of that level. */
  ghost predicate OfLevel(spaces: set<string>, level: nat) {
    forall s :: s in spaces ==> exists q :: s == CellName(q, Bias(level))
  }

  ghost predicate LevelsApart(views: seq<View>) {
    forall j :: 0 <= j < |views| ==> OfLevel(views[j].spaces, j)
  }

  lemma AroundIsOfLevel(p: Vec, level: nat)
    ensures OfLevel(Around(p, Bias(level)), level)
  {
    forall s | s in Around(p, Bias(level))
      ensures exists q :: s == CellName(q, Bias(level))
    {
      NeighbourhoodCovered(p, Bias(level), s);
    }
  }

  /** Names of different levels never collide. */
  lemma LevelsNeverCollide(p: Vec, i: nat, q: Vec, j: nat)
    requires CellName(p, Bias(i)) == CellName(q, Bias(j))
    ensures i == j
  {
    var a := QuadsW(W32, CellOf(p, Bias(i)), Bias(i));
    var b := QuadsW(W32, CellOf(q, Bias(j)), Bias(j));
    ListedIsInjective(a, b);
    assert a[0].p == Bias(i) && b[0].p == Bias(j);
  }

  lemma SpacesAreDisjoint(views: seq<View>, i: nat, j: nat, s: string)
    requires LevelsApart(views) && i < |views| && j < |views| && s in views[i].spaces && s in views[j].spaces
    ensures i == j
  {
    assert OfLevel(views[i].spaces, i) && OfLevel(views[j].spaces, j);
    var p :| s == CellName(p, Bias(i));
    var q :| s == CellName(q, Bias(j));
    LevelsNeverCollide(p, i, q, j);
  }

  /**
   Unsubscribing the refreshed levels' old channels and then subscribing their new ones turns
   the union of all old channels into the union of all new ones.
   */
  lemma BatchesAreExact(views: seq<View>, p: Vec, k: nat)
    requires LevelsApart(views) && k <= |views|
    ensures LevelsApart(Refreshed(views, p, k))
    ensures AllSpaces(views) - SpacesBelow(views, k) + SpacesBelow(Refreshed(views, p, k), k)
         == AllSpaces(Refreshed(views, p, k))
  {
    var views' := Refreshed(views, p, k);
    forall j | 0 <= j < |views'|
      ensures OfLevel(views'[j].spaces, j)
    {
      AroundIsOfLevel(p, j);
      assert OfLevel(views[j].spaces, j);
    }
    forall s
      ensures s in AllSpaces(views) - SpacesBelow(views, k) + SpacesBelow(views', k) <==> s in AllSpaces(views')
    {
      if s in AllSpaces(views) && s !in SpacesBelow(views, k) {
        var j :| 0 <= j < |views| && s in views[j].spaces;
        assert s in views'[j].spaces;
      }
      if s in AllSpaces(views') && s !in SpacesBelow(views', k) {
        var j :| 0 <= j < |views| && s in views'[j].spaces;
        assert j >= k && s in views[j].spaces;
        if s in SpacesBelow(views, k) {
          var i :| 0 <= i < k && s in views[i].spaces;
          SpacesAreDisjoint(views, i, j, s);
          assert false;
        }
      }
    }
  }

  // --- the objects ---

  lemma {:induction false} AtServerConcat(before: set<string>, a: seq<SocketMessage>, b: seq<SocketMessage>)
    ensures AtServer(before, a + b) == AtServer(AtServer(before, a), b)
    decreases |b|
  {
    if b == [] {
      assert a + b == a;
    } else {
      var front := b[..|b| - 1];
      AtServerConcat(before, a, front);
      assert a + b == (a + front) + [b[|b| - 1]];
      AtServerNext(before, a + front, b[|b| - 1]);
    }
  }

  /** What a batch does to any set of subscriptions: some leave, then some join. */
  ghost predicate Effect(batch: seq<SocketMessage>, leave: set<string>, join: set<string>) {
    forall before :: AtServer(before, batch) == before - leave + join
  }

  /** Two batches in turn, when what the first lets join the second does not make leave. */
  lemma EffectConcat(a: seq<SocketMessage>, b: seq<SocketMessage>,
                     leave: set<string>, join: set<string>, leave': set<string>, join': set<string>)
    requires Effect(a, leave, join) && Effect(b, leave', join') && join !! leave'
    ensures Effect(a + b, leave + leave', join + join')
  {
    hide AtServer;
    forall before
      ensures AtServer(before, a + b) == before - (leave + leave') + (join + join')
    {
      AtServerConcat(before, a, b);
      assert AtServer(before, a) == before - leave + join;
      assert AtServer(AtServer(before, a), b) == AtServer(before, a) - leave' + join';
    }
  }

  lemma NoEffect()
    ensures Effect([], {}, {})
  {
  }

  lemma EffectOfOne(msg: SocketMessage)
    ensures msg.Subscribe? ==> Effect([msg], {}, {msg.c})
    ensures msg.Unsubscribe? ==> Effect([msg], {msg.c}, {})
    ensures msg.Publish? ==> Effect([msg], {}, {})
  {
    forall before
      ensures AtServer(before, [msg]) == Ran(before, msg)
    {
      AtServerNext(before, [], msg);
      assert [] + [msg] == [msg];
    }
  }

  /** What the levels below `n` publish: those whose time has come, each on its own channel. */
  function Due(views: seq<View>, times: seq<int>, time: int, n: nat): seq<SocketMessage>
    requires n <= |views| && n <= |times|
  {
    if n == 0 then []
    else Due(views, times, time, n - 1) + (if times[n - 1] < time then [Publish(views[n - 1].name)] else [])
  }

  /**
   The publishes that are due are one for each level whose time has come and no other, in the
   order of the levels, each on the level's own channel.
   */
  lemma {:induction false} DueInOrder(views: seq<View>, times: seq<int>, time: int, n: nat) returns (levels: seq<nat>)
    requires n <= |views| && n <= |times|
    ensures forall a :: 0 <= a < |levels| ==> levels[a] < n
    ensures forall j :: j in levels <==> 0 <= j < n && times[j] < time
    ensures forall a, b :: 0 <= a < b < |levels| ==> levels[a] < levels[b]
    ensures |Due(views, times, time, n)| == |levels|
    ensures forall a :: 0 <= a < |levels| ==> Due(views, times, time, n)[a] == Publish(views[levels[a]].name)
    decreases n
  {
    levels := [];
    if n > 0 {
      levels := DueInOrder(views, times, time, n - 1);
      if times[n - 1] < time {
        levels := levels + [n - 1];
      }
    }
  }

  /** The publishes among the messages. */
  function Publishes(log: seq<SocketMessage>): seq<SocketMessage>
    decreases |log|
  {
    if log == [] then []
    else Publishes(log[..|log| - 1]) + if log[|log| - 1].Publish? then [log[|log| - 1]] else []
  }

  lemma {:induction false} PublishesConcat(a: seq<SocketMessage>, b: seq<SocketMessage>)
    ensures Publishes(a + b) == Publishes(a) + Publishes(b)
    decreases |b|
  {
    if b == [] {
      assert a + b == a;
    } else {
      var front := b[..|b| - 1];
      assert (a + b)[..|a + b| - 1] == a + front;
      PublishesConcat(a, front);
    }
  }

  lemma {:induction false} PublishesOfOthers(log: seq<SocketMessage>)
    requires forall i :: 0 <= i < |log| ==> !log[i].Publish?
    ensures Publishes(log) == []
    decreases |log|
  {
    if log != [] {
      PublishesOfOthers(log[..|log| - 1]);
    }
  }

  lemma {:induction false} PublishesOfPublishes(log: seq<SocketMessage>)
    requires forall i :: 0 <= i < |log| ==> log[i].Publish?
    ensures Publishes(log) == log
    decreases |log|
  {
    if log != [] {
      PublishesOfPublishes(log[..|log| - 1]);
    }
  }

  lemma {:induction false} DueArePublishes(views: seq<View>, times: seq<int>, time: int, n: nat)
    requires n <= |views| && n <= |times|
    ensures forall i :: 0 <= i < |Due(views, times, time, n)| ==> Due(views, times, time, n)[i].Publish?
    decreases n
  {
    if n > 0 {
      DueArePublishes(views, times, time, n - 1);
    }
  }

  /** When each level is to send next, after the sends of one update. */
  function Rescheduled(times: seq<int>, intervals: seq<int>, time: int): (times': seq<int>)
    requires |times| == |intervals|
    ensures |times'| == |times|
    ensures forall j :: 0 <= j < |times| ==> times'[j] == times[j] + if times[j] < time then intervals[j] else 0
  {
    seq(|times|, j requires 0 <= j < |times| => times[j] + if times[j] < time then intervals[j] else 0)
  }

  /** And after the sends of updates at several times. */
  function RescheduledBy(times: seq<int>, intervals: seq<int>, updates: seq<int>): (times': seq<int>)
    requires |times| == |intervals|
    ensures |times'| == |times|
    decreases |updates|
  {
    if updates == [] then times
    else
      Rescheduled(RescheduledBy(times, intervals, updates[..|updates| - 1]), intervals, updates[|updates| - 1])
  }

  /** What is published on the way: at each update what is due then, on the channels it leaves. */
  function PublishedOn(path: seq<Vec>, updates: seq<int>, times: seq<int>, intervals: seq<int>): seq<SocketMessage>
    requires |path| == |updates| && |times| == |intervals| == LEVELS
    decreases |path|
  {
    if path == [] then []
    else
      var front := updates[..|updates| - 1];
      var due := if |AfterUpdates(path)| != LEVELS then []
                 else Due(AfterUpdates(path), RescheduledBy(times, intervals, front), updates[|updates| - 1], LEVELS);
      PublishedOn(path[..|path| - 1], front, times, intervals) + due
  }

  lemma NothingDue(views: seq<View>, times: seq<int>, time: int)
    ensures Due(views, times, time, 0) == []
  {
  }

  lemma NextDue(log: seq<SocketMessage>, views: seq<View>, times: seq<int>, time: int, n: nat)
    requires n < |views| && n < |times|
    ensures log + Due(views, times, time, n + 1)
         == log + Due(views, times, time, n) + (if times[n] < time then [Publish(views[n].name)] else [])
  {
  }

  lemma {:induction false} DueHasNoEffect(views: seq<View>, times: seq<int>, time: int, n: nat)
    requires n <= |views| && n <= |times|
    ensures Effect(Due(views, times, time, n), {}, {})
    decreases n
  {
    hide Effect;
    NoEffect();
    var none: set<string> := {};
    if n > 0 {
      DueHasNoEffect(views, times, time, n - 1);
      EffectOfOne(Publish(views[n - 1].name));
      EffectConcat(Due(views, times, time, n - 1), [Publish(views[n - 1].name)], {}, {}, {}, {});
      assert none + none == none;
      assert Due(views, times, time, n - 1) + [] == Due(views, times, time, n - 1);
    }
  }

  class Socket {
    var isOpen: bool
    var sent: seq<SocketMessage>

    method Send(msg: SocketMessage)
      modifies this`sent
      ensures sent == old(sent) + [msg]
    {
      sent := sent + [msg];
    }
  }

  /** One message for each key and no other: to subscribe it, or to unsubscribe it. */
  ghost predicate OneForEach(batch: seq<SocketMessage>, keys: set<string>, joining: bool) {
    && |batch| == |keys|
    && forall msg :: msg in batch <==> (if joining then msg.Subscribe? else msg.Unsubscribe?) && msg.c in keys
  }

  lemma NoKeys()
    ensures OneForEach([], {}, true) && OneForEach([], {}, false) && Effect([], {}, {})
  {
  }

  lemma OneMoreMessage(batch: seq<SocketMessage>, keys: set<string>, joining: bool, key: string)
    requires OneForEach(batch, keys, joining) && key !in keys
    ensures OneForEach(batch + [if joining then Subscribe(key) else Unsubscribe(key)], keys + {key}, joining)
  {
    var last := if joining then Subscribe(key) else Unsubscribe(key);
    assert |keys + {key}| == |keys| + 1;
    forall msg
      ensures msg in batch + [last] <==> (if joining then msg.Subscribe? else msg.Unsubscribe?) && msg.c in keys + {key}
    {
      assert msg in batch + [last] <==> msg in batch || msg == last;
    }
  }

  /** What a message for one key more does to the effect of a batch. */
  lemma OneMore(batch: seq<SocketMessage>, keys: set<string>, joining: bool, key: string)
    requires OneForEach(batch, keys, joining) && key !in keys
    requires if joining then Effect(batch, {}, keys) else Effect(batch, keys, {})
    ensures var batch' := batch + [if joining then Subscribe(key) else Unsubscribe(key)];
            && OneForEach(batch', keys + {key}, joining)
            && if joining then Effect(batch', {}, keys + {key}) else Effect(batch', keys + {key}, {})
  {
    hide Effect, OneForEach;
    var last := if joining then Subscribe(key) else Unsubscribe(key);
    var none: set<string> := {};
    OneMoreMessage(batch, keys, joining, key);
    EffectOfOne(last);
    assert none + none == none;
    if joining {
      EffectConcat(batch, [last], {}, keys, {}, {key});
    } else {
      EffectConcat(batch, [last], keys, {}, {key}, {});
    }
  }

  /** `GWEMS.unsubscribe`: one message for each key. */
  method UnsubscribeAll(channels: set<string>, socket: Socket) returns (ghost batch: seq<SocketMessage>)
    modifies socket`sent
    ensures socket.sent == old(socket.sent) + batch && Effect(batch, channels, {})
    ensures OneForEach(batch, channels, false)
  {
    hide Effect, OneForEach;
    NoKeys();
    batch := [];
    ghost var done: set<string> := {};
    var todo := channels;
    while todo != {}
      invariant done !! todo && done + todo == channels
      invariant socket.sent == old(socket.sent) + batch && Effect(batch, done, {}) && OneForEach(batch, done, false)
    {
      var key :| key in todo;
      socket.Send(Unsubscribe(key));
      OneMore(batch, done, false, key);
      batch := batch + [Unsubscribe(key)];
      todo := todo - {key};
      done := done + {key};
    }
    assert done == channels;
  }

  /** `GWEMS.subscribe`: one message for each key. */
  method SubscribeAll(channels: set<string>, socket: Socket) returns (ghost batch: seq<SocketMessage>)
    modifies socket`sent
    ensures socket.sent == old(socket.sent) + batch && Effect(batch, {}, channels)
    ensures OneForEach(batch, channels, true)
  {
    hide Effect, OneForEach;
    NoKeys();
    batch := [];
    ghost var done: set<string> := {};
    var todo := channels;
    while todo != {}
      invariant done !! todo && done + todo == channels
      invariant socket.sent == old(socket.sent) + batch && Effect(batch, {}, done) && OneForEach(batch, done, true)
    {
      var key :| key in todo;
      socket.Send(Subscribe(key));
      OneMore(batch, done, true, key);
      batch := batch + [Subscribe(key)];
      todo := todo - {key};
      done := done + {key};
    }
    assert done == channels;
  }

  class Level {
    const logscale: int
    const interval: int
    var name: string
    var subscribeSpaces: set<string>
    var nextSend: int

    constructor (logscale: int, interval: int, time: int)
      ensures this.logscale == logscale && this.interval == interval && nextSend == time
      ensures View(name, subscribeSpaces) == NEW_VIEW
    {
      this.logscale := logscale;
      this.interval := interval;
      name := "";
      subscribeSpaces := {};
      nextSend := time;
    }
  }

  function Doubled(n: int, k: nat): int { if k == 0 then n else 2 * Doubled(n, k - 1) }

  lemma OneLevelAround(p: Vec, bias: int)
    ensures AroundLevels(p, bias, bias + 1) == Around(p, bias)
  {
  }

  class Tracker {
    const socket: Socket
    const intervals: seq<Level>

    ghost predicate Valid() {
      && |intervals| == LEVELS
      && (forall i, j :: 0 <= i < j < LEVELS ==> intervals[i] != intervals[j])
      && (forall j :: 0 <= j < LEVELS ==> intervals[j].logscale == Bias(j))
    }

    ghost function Views(): (views: seq<View>)
      requires |intervals| == LEVELS
      reads intervals
      ensures |views| == LEVELS
    {
      seq(LEVELS, j requires 0 <= j < LEVELS reads intervals => View(intervals[j].name, intervals[j].subscribeSpaces))
    }

    ghost function Sends(): (times: seq<int>)
      requires |intervals| == LEVELS
      reads intervals
      ensures |times| == LEVELS
    {
      seq(LEVELS, j requires 0 <= j < LEVELS reads intervals => intervals[j].nextSend)
    }

    ghost function Spans(): (spans: seq<int>)
      requires |intervals| == LEVELS
      ensures |spans| == LEVELS
    {
      seq(LEVELS, j requires 0 <= j < LEVELS => intervals[j].interval)
    }

    constructor (socket: Socket, time: int)
      ensures Valid() && this.socket == socket && fresh(intervals)
      ensures Views() == NewViews()
      ensures forall j :: 0 <= j < LEVELS ==>
        intervals[j].nextSend == time && intervals[j].interval == Doubled(200, j)
      ensures Spans() == [200, 400, 800, 1600, 3200, 6400]
    {
      this.socket := socket;
      var levels: seq<Level> := [];
      var interval := 200;
      var i := MIN_LEVEL;
      while i < 14
        invariant i == Bias(|levels|) && |levels| <= LEVELS && fresh(levels) && interval == Doubled(200, |levels|)
        invariant forall a, b :: 0 <= a < b < |levels| ==> levels[a] != levels[b]
        invariant forall j :: 0 <= j < |levels| ==>
          && levels[j].logscale == Bias(j) && levels[j].nextSend == time && levels[j].interval == Doubled(200, j)
          && View(levels[j].name, levels[j].subscribeSpaces) == NEW_VIEW
      {
        var level := new Level(i, interval, time);
        levels := levels + [level];
        interval := interval * 2;
        i := i + 2;
      }
      intervals := levels;
    }

    /** The publish channel of one level, from the list of the position. */
    method ChannelOf(lodlist: seq<string>, level: nat, ghost position: Vec) returns (str: string)
      requires lodlist == Names(QuadsW(W32, CellOf(position, MIN_LEVEL), MIN_LEVEL))
      ensures str == Channel(position, level)
    {
      if level < |lodlist| {
        str := ListToString(lodlist);
      } else {
        str := "[0_0_0_" + Print(Bias(level)) + "]";
      }
    }

    /** One level takes its new channel and the cells around the position. */
    method RefreshLevel(i: nat, str: string, position: Vec) returns (some: set<string>)
      requires Valid() && i < LEVELS && str == Channel(position, i)
      modifies intervals
      ensures some == Around(position, Bias(i))
      ensures Views() == old(Views())[i := Fresh(position, i)]
      ensures forall j :: 0 <= j < LEVELS ==> intervals[j].nextSend == old(intervals[j].nextSend)
    {
      var level := intervals[i];
      level.name := str;
      some := SurroundingSpaceNames(position, level.logscale, level.logscale + 1);
      OneLevelAround(position, level.logscale);
      level.subscribeSpaces := some;
      assert View(level.name, level.subscribeSpaces) == Fresh(position, i);
      forall j | 0 <= j < LEVELS
        ensures Views()[j] == old(Views())[i := Fresh(position, i)][j]
      {
        assert j != i ==> intervals[j] != level;
      }
    }

    /** The level loop: levels change from the smallest up and the first unchanged one stops it. */
    method Relevel(position: Vec) returns (unsubs: set<string>, subs: set<string>)
      requires Valid()
      modifies intervals
      ensures Views() == Updated(old(Views()), position)
      ensures var k := FirstSame(old(Views()), position, 0);
              unsubs == SpacesBelow(old(Views()), k) && subs == SpacesBelow(Views(), k)
      ensures Sends() == old(Sends())
    {
      hide Channel, Around;
      unsubs, subs := {}, {};
      ghost var before := Views();
      var lodlist := Decompose(position, MIN_LEVEL);
      var i := 0;
      while i < |intervals|
        invariant 0 <= i <= LEVELS
        invariant FirstSame(before, position, 0) == FirstSame(before, position, i)
        invariant Views() == Refreshed(before, position, i)
        invariant unsubs == SpacesBelow(before, i) && subs == SpacesBelow(Refreshed(before, position, i), i)
        invariant forall j :: 0 <= j < LEVELS ==> intervals[j].nextSend == old(intervals[j].nextSend)
      {
        var level := intervals[i];
        var str := ChannelOf(lodlist, i, position);
        assert View(level.name, level.subscribeSpaces) == Views()[i] == before[i];
        if level.name == str {
          break;
        }
        unsubs := unsubs + level.subscribeSpaces;
        var some := RefreshLevel(i, str, position);
        subs := subs + some;
        NextSpaces(before, position, i);
        NextRefreshed(before, position, i);
        i := i + 1;
      }
    }

    /** The sends: every level whose time has come publishes on its channel, in order. */
    method SendDue(time: int)
      requires Valid()
      modifies intervals, socket`sent
      ensures socket.sent == old(socket.sent) + Due(old(Views()), old(Sends()), time, LEVELS)
      ensures Views() == old(Views()) && Sends() == Rescheduled(old(Sends()), Spans(), time)
    {
      hide Due;
      assert Due(old(Views()), old(Sends()), time, 0) == [] by { NothingDue(Views(), Sends(), time); }
      for i := 0 to |intervals|
        invariant socket.sent == old(socket.sent) + Due(old(Views()), old(Sends()), time, i)
        invariant Views() == old(Views())
        invariant forall j :: i <= j < LEVELS ==> intervals[j].nextSend == old(intervals[j].nextSend)
        invariant forall j :: 0 <= j < i ==>
          intervals[j].nextSend == old(intervals[j].nextSend)
            + (if old(intervals[j].nextSend) < time then intervals[j].interval else 0)
      {
        var level := intervals[i];
        assert Views()[i].name == level.name && old(Sends())[i] == level.nextSend;
        SendIfDue(level, time);
        NextDue(old(socket.sent), old(Views()), old(Sends()), time, i);
      }
    }

    method SendIfDue(level: Level, time: int)
      modifies level`nextSend, socket`sent
      ensures socket.sent == old(socket.sent) + (if old(level.nextSend) < time then [Publish(level.name)] else [])
      ensures level.nextSend == old(level.nextSend) + (if old(level.nextSend) < time then level.interval else 0)
    {
      if level.nextSend < time {
        socket.Send(Publish(level.name));
        level.nextSend := level.nextSend + level.interval;
      }
    }

    /**
     One update.  With the socket open, the levels become those of `Updated`; the messages sent
     take any server-side set from the old channels of the changed levels to their new ones, and
     behind them stand the publishes that are due, on the channels the levels have now; every
     level that has published is rescheduled.  With the socket closed nothing happens.
     */
    method Update(position: Vec, time: int) returns (ghost batch: seq<SocketMessage>)
      requires Valid()
      modifies intervals, socket`sent
      ensures socket.sent == old(socket.sent) + batch
      ensures !socket.isOpen ==> batch == [] && Views() == old(Views()) && Sends() == old(Sends())
      ensures socket.isOpen ==> Views() == Updated(old(Views()), position)
      ensures socket.isOpen ==> Sends() == Rescheduled(old(Sends()), Spans(), time)
      ensures socket.isOpen ==>
                var due := Due(Views(), old(Sends()), time, LEVELS);
                && Publishes(batch) == due && |due| <= |batch| && batch[|batch| - |due|..] == due
      ensures socket.isOpen ==>
                var k := FirstSame(old(Views()), position, 0);
                Effect(batch, SpacesBelow(old(Views()), k), SpacesBelow(Views(), k))
    {
      hide Effect, Due, Updated, SpacesBelow, FirstSame, Rescheduled, Publishes, OneForEach;
      batch := [];
      if !socket.isOpen {
        return;
      }
      var unsubs, subs := Relevel(position);
      ghost var b1 := UnsubscribeAll(unsubs, socket);
      ghost var b2 := SubscribeAll(subs, socket);
      ghost var b3 := Due(Views(), Sends(), time, LEVELS);
      DueHasNoEffect(Views(), Sends(), time, LEVELS);
      SendDue(time);
      EffectConcat(b1, b2, unsubs, {}, {}, subs);
      assert unsubs + {} == unsubs && {} + subs == subs;
      EffectConcat(b1 + b2, b3, unsubs, subs, {}, {});
      assert subs + {} == subs;
      batch := b1 + b2 + b3;
      AppendedInTurn(old(socket.sent), b1, b2, b3);
      NoPublishAmong(b1, unsubs, false);
      NoPublishAmong(b2, subs, true);
      DueComesLast(b1 + b2, Views(), old(Sends()), time);
    }
  }

  lemma NoPublishAmong(batch: seq<SocketMessage>, keys: set<string>, joining: bool)
    requires OneForEach(batch, keys, joining)
    ensures forall i :: 0 <= i < |batch| ==> !batch[i].Publish?
  {
    forall i | 0 <= i < |batch|
      ensures !batch[i].Publish?
    {
      assert batch[i] in batch;
    }
  }

  lemma DueComesLast(front: seq<SocketMessage>, views: seq<View>, times: seq<int>, time: int)
    requires |views| == |times| == LEVELS && forall i :: 0 <= i < |front| ==> !front[i].Publish?
    ensures var due := Due(views, times, time, LEVELS);
            && Publishes(front + due) == due && (front + due)[|front + due| - |due|..] == due
  {
    hide Due, Publishes;
    var due := Due(views, times, time, LEVELS);
    DueArePublishes(views, times, time, LEVELS);
    PublishesConcat(front, due);
    PublishesOfOthers(front);
    PublishesOfPublishes(due);
  }

  lemma AppendedInTurn(log: seq<SocketMessage>, a: seq<SocketMessage>, b: seq<SocketMessage>, c: seq<SocketMessage>)
    ensures log + a + b + c == log + (a + b + c)
  {
  }

  lemma SpacesBelowNext(views: seq<View>, i: nat)
    requires i < |views|
    ensures SpacesBelow(views, i + 1) == SpacesBelow(views, i) + views[i].spaces
  {
    forall s
      ensures s in SpacesBelow(views, i + 1) <==> s in SpacesBelow(views, i) + views[i].spaces
    {
      if s in SpacesBelow(views, i + 1) {
        var j :| 0 <= j < i + 1 && s in views[j].spaces;
        assert j == i || s in SpacesBelow(views, i);
      }
      if s in SpacesBelow(views, i) {
        var j :| 0 <= j < i && s in views[j].spaces;
        assert s in views[j].spaces && j < i + 1;
      }
      if s in views[i].spaces {
        assert i < i + 1;
      }
    }
  }

  lemma SpacesBelowSame(views: seq<View>, views': seq<View>, i: nat)
    requires i <= |views| && i <= |views'| && views[..i] == views'[..i]
    ensures SpacesBelow(views, i) == SpacesBelow(views', i)
  {
    assert forall j :: 0 <= j < i ==> views[j] == views[..i][j] == views'[j];
  }

  lemma NextSpaces(views: seq<View>, p: Vec, i: nat)
    requires i < |views|
    ensures SpacesBelow(views, i + 1) == SpacesBelow(views, i) + views[i].spaces
    ensures SpacesBelow(Refreshed(views, p, i + 1), i + 1)
         == SpacesBelow(Refreshed(views, p, i), i) + Around(p, Bias(i))
  {
    hide Around, Channel, SpacesBelow;
    var next := Refreshed(views, p, i + 1);
    SpacesBelowNext(views, i);
    SpacesBelowNext(next, i);
    assert next[i] == Fresh(p, i);
    assert next[..i] == Refreshed(views, p, i)[..i];
    SpacesBelowSame(next, Refreshed(views, p, i), i);
  }

  /** One update keeps the server's set equal to the union of the channels of all levels. */
  lemma UpdateKeepsServer(views: seq<View>, p: Vec, batch: seq<SocketMessage>, server: set<string>)
    requires LevelsApart(views) && server == AllSpaces(views)
    requires var k := FirstSame(views, p, 0); Effect(batch, SpacesBelow(views, k), SpacesBelow(Updated(views, p), k))
    ensures LevelsApart(Updated(views, p)) && AtServer(server, batch) == AllSpaces(Updated(views, p))
  {
    BatchesAreExact(views, p, FirstSame(views, p, 0));
  }

  /** The messages of a whole run of updates with the socket open. */
  ghost predicate IsRunLog(path: seq<Vec>, log: seq<SocketMessage>)
    decreases |path|
  {
    if path == [] then log == []
    else
      exists n :: 0 <= n <= |log| && IsUpdateLog(path, log[..n], log[n..])
  }

  ghost predicate IsUpdateLog(path: seq<Vec>, log: seq<SocketMessage>, batch: seq<SocketMessage>)
    requires path != []
    decreases |path|, 0
  {
    var front := path[..|path| - 1];
    var views := AfterUpdates(front);
    var k := FirstSame(views, path[|path| - 1], 0);
    IsRunLog(front, log) && Effect(batch, SpacesBelow(views, k), SpacesBelow(AfterUpdates(path), k))
  }

  lemma NewLevelsApart()
    ensures LevelsApart(NewViews()) && AllSpaces(NewViews()) == {}
  {
  }

  /**
   After any run of updates the session's subscriptions at the server are exactly the union of
   the channels of the six levels.
   */
  lemma {:induction false} ServerHoldsAllSpaces(path: seq<Vec>, log: seq<SocketMessage>)
    requires IsRunLog(path, log)
    ensures LevelsApart(AfterUpdates(path)) && AtServer({}, log) == AllSpaces(AfterUpdates(path))
    decreases |path|
  {
    hide Effect, AllSpaces, SpacesBelow, LevelsApart, FirstSame, Updated;
    if path == [] {
      NewLevelsApart();
    } else {
      var n :| 0 <= n <= |log| && IsUpdateLog(path, log[..n], log[n..]);
      var front := path[..|path| - 1];
      ServerHoldsAllSpaces(front, log[..n]);
      UpdateKeepsServer(AfterUpdates(front), path[|path| - 1], log[n..], AtServer({}, log[..n]));
      AtServerConcat({}, log[..n], log[n..]);
      assert log[..n] + log[n..] == log;
    }
  }

  lemma NextRunLog(path: seq<Vec>, n: nat, log: seq<SocketMessage>, batch: seq<SocketMessage>)
    requires n < |path| && IsRunLog(path[..n], log)
    requires var views := AfterUpdates(path[..n]);
             Effect(batch, SpacesBelow(views, FirstSame(views, path[n], 0)),
                    SpacesBelow(Updated(views, path[n]), FirstSame(views, path[n], 0)))
    ensures AfterUpdates(path[..n + 1]) == Updated(AfterUpdates(path[..n]), path[n])
    ensures IsRunLog(path[..n + 1], log + batch)
  {
    hide Effect, SpacesBelow, FirstSame, Updated;
    var next := path[..n + 1];
    assert next[..|next| - 1] == path[..n];
    var all := log + batch;
    assert all[..|log|] == log && all[|log|..] == batch;
    assert IsUpdateLog(next, all[..|log|], all[|log|..]);
  }

  /**
   A new tracker that follows a path with its socket open: every level is subscribed to the
   player's own cell, and the server holds exactly the channels of the levels.
   */
  method FollowPath(tracker: Tracker, path: seq<Vec>, times: seq<int>) returns (ghost log: seq<SocketMessage>)
    requires tracker.Valid() && tracker.Views() == NewViews() && tracker.socket.isOpen && |times| == |path|
    modifies tracker.intervals, tracker.socket`sent
    ensures tracker.Views() == AfterUpdates(path) && tracker.socket.sent == old(tracker.socket.sent) + log
    ensures AtServer({}, log) == AllSpaces(tracker.Views())
    ensures Publishes(log) == PublishedOn(path, times, old(tracker.Sends()), tracker.Spans())
    ensures tracker.Sends() == RescheduledBy(old(tracker.Sends()), tracker.Spans(), times)
    ensures path != [] && (forall n :: 0 <= n < |path| ==> Steady(path[n])) ==>
              forall level: nat :: level < LEVELS ==> Subscribed(path, level)
  {
    hide Effect, SpacesBelow, FirstSame, Updated, AtServer, AllSpaces, Subscribed, Steady, Due, Publishes;
    log := [];
    assert Publishes(log) == [] by { PublishesOfOthers(log); }
    assert times[..0] == [];
    assert path[..0] == [];
    for n := 0 to |path|
      invariant tracker.Views() == AfterUpdates(path[..n]) && IsRunLog(path[..n], log)
      invariant tracker.socket.sent == old(tracker.socket.sent) + log
      invariant Publishes(log) == PublishedOn(path[..n], times[..n], old(tracker.Sends()), tracker.Spans())
      invariant tracker.Sends() == RescheduledBy(old(tracker.Sends()), tracker.Spans(), times[..n])
    {
      ghost var batch := tracker.Update(path[n], times[n]);
      NextRunLog(path, n, log, batch);
      PublishesConcat(log, batch);
      assert path[..n + 1][..n] == path[..n] && times[..n + 1][..n] == times[..n];
      log := log + batch;
    }
    assert path[..|path|] == path && times[..|times|] == times;
    ServerHoldsAllSpaces(path, log);
    if path != [] {
      OwnCellsAreSubscribed(path);
    }
  }

  lemma OwnCellsAreSubscribed(path: seq<Vec>)
    requires path != []
    ensures (forall n :: 0 <= n < |path| ==> Steady(path[n])) ==>
              forall level: nat :: level < LEVELS ==> Subscribed(path, level)
  {
    hide Subscribed, Steady;
    if forall n :: 0 <= n < |path| ==> Steady(path[n]) {
      forall level: nat | level < LEVELS
        ensures Subscribed(path, level)
      {
        OwnCellIsSubscribed(path, level);
      }
    }
  }
}
