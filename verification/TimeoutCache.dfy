/**
 The cache with a time to live for every key: a map from keys to holders, and an ordered set of
 mutable `TimedKey` objects.  Every method is one synchronized block of the program, so what
 each of them keeps holds under all their interleavings.
 */
module TimeoutCaches {
  import opened Wrappers

  /** A runnable called when a key times out. */
  type Callback = nat

  /** A cached object. */
  type Value = nat

  // --- the order of the queue ---

  /** `a.compareTo(b) < 0` on strings. */
  predicate StrLess(a: string, b: string) {
    if b == "" then false
    else if a == "" then true
    else if a[0] != b[0] then a[0] < b[0]
    else StrLess(a[1..], b[1..])
  }

  /** At the first difference the smaller character decides; without one the shorter string is less. */
  lemma {:induction false} StrLessMeans(a: string, b: string)
    ensures StrLess(a, b) <==> a < b || exists i :: 0 <= i < |a| && i < |b| && a[..i] == b[..i] && a[i] < b[i]
    decreases |a|
  {
    if a != "" && b != "" {
      if a[0] != b[0] {
        FirstDifference(a, b);
      } else {
        var a', b' := a[1..], b[1..];
        StrLessMeans(a', b');
        assert a == [a[0]] + a' && b == [a[0]] + b';
        assert a' < b' <==> a < b;
        if i :| 0 <= i < |a'| && i < |b'| && a'[..i] == b'[..i] && a'[i] < b'[i] {
          assert a[..i + 1] == [a[0]] + a'[..i] && b[..i + 1] == [a[0]] + b'[..i];
          assert a[i + 1] < b[i + 1];
        }
        if i :| 0 <= i < |a| && i < |b| && a[..i] == b[..i] && a[i] < b[i] {
          assert a'[..i - 1] == a[..i][1..] && b'[..i - 1] == b[..i][1..];
          assert a'[i - 1] < b'[i - 1];
        }
      }
    }
  }

  lemma FirstDifference(a: string, b: string)
    requires a != "" && b != "" && a[0] != b[0]
    ensures !(a < b)
    ensures a[0] < b[0] <==> exists i :: 0 <= i < |a| && i < |b| && a[..i] == b[..i] && a[i] < b[i]
  {
    if a[0] < b[0] {
      assert a[..0] == b[..0];
    }
    forall i | 0 < i < |a| && i < |b|
      ensures a[..i] != b[..i]
    {
      assert a[..i][0] != b[..i][0];
    }
  }

  lemma {:induction false} StrTotal(a: string, b: string)
    ensures a == b || StrLess(a, b) || StrLess(b, a)
    decreases |a|
  {
    if a != "" && b != "" && a[0] == b[0] {
      StrTotal(a[1..], b[1..]);
      assert a == [a[0]] + a[1..] && b == [b[0]] + b[1..];
    }
  }

  lemma {:induction false} StrOrder(a: string, b: string, c: string)
    ensures !StrLess(a, a)
    ensures StrLess(a, b) && StrLess(b, c) ==> StrLess(a, c)
    decreases |a|
  {
    if a != "" {
      if b != "" && c != "" {
        StrOrder(a[1..], b[1..], c[1..]);
      } else {
        StrOrder(a[1..], a[1..], a[1..]);
      }
    }
  }

  /** First by the time it expires, then by the key. */
  predicate Before(e: int, k: string, f: int, l: string) { e < f || (e == f && StrLess(k, l)) }

  lemma BeforeOrder(e: int, k: string, f: int, l: string, g: int, m: string)
    ensures !Before(e, k, e, k)
    ensures Before(e, k, f, l) && Before(f, l, g, m) ==> Before(e, k, g, m)
    ensures (e, k) == (f, l) || Before(e, k, f, l) || Before(f, l, e, k)
  {
    StrOrder(k, l, m);
    StrTotal(k, l);
  }

  class TimedKey {
    var key: string
    var expires: int
    var runners: seq<Callback>

    constructor ()
      ensures key == "" && expires == 0 && runners == []
    {
      key := "";
      expires := 0;
      runners := [];
    }
  }

  predicate Earlier(a: TimedKey, b: TimedKey)
    reads a, b
  {
    Before(a.expires, a.key, b.expires, b.key)
  }

  predicate Sorted(q: seq<TimedKey>)
    reads q
  {
    forall i, j :: 0 <= i < j < |q| ==> Earlier(q[i], q[j])
  }

  lemma EarlierOrder(a: TimedKey, b: TimedKey, c: TimedKey)
    ensures !Earlier(a, a)
    ensures Earlier(a, b) && Earlier(b, c) ==> Earlier(a, c)
    ensures (a.expires, a.key) == (b.expires, b.key) || Earlier(a, b) || Earlier(b, a)
  {
    BeforeOrder(a.expires, a.key, b.expires, b.key, c.expires, c.key);
  }

  lemma SortedHasNoRepeats(q: seq<TimedKey>, i: nat, j: nat)
    requires Sorted(q) && i < |q| && j < |q| && q[i] == q[j]
    ensures i == j
  {
    EarlierOrder(q[i], q[i], q[i]);
  }

  lemma WithoutOne(q: seq<TimedKey>, i: nat)
    requires Sorted(q) && i < |q|
    ensures var q' := q[..i] + q[i + 1..];
            Sorted(q') && forall t :: t in q' <==> t in q && t != q[i]
  {
    var q' := q[..i] + q[i + 1..];
    forall t
      ensures t in q' <==> t in q && t != q[i]
    {
      if t in q' {
        var j :| 0 <= j < |q'| && q'[j] == t;
        var k := if j < i then j else j + 1;
        assert q[k] == t;
        if t == q[i] {
          SortedHasNoRepeats(q, k, i);
          assert false;
        }
      }
      if t in q && t != q[i] {
        var j :| 0 <= j < |q| && q[j] == t;
        assert q'[if j < i then j else j - 1] == t;
      }
    }
    forall j, k | 0 <= j < k < |q'|
      ensures Earlier(q'[j], q'[k])
    {
      assert q'[j] == q[if j < i then j else j + 1] && q'[k] == q[if k < i then k else k + 1];
    }
  }

  lemma WithOne(q: seq<TimedKey>, i: nat, tkey: TimedKey)
    requires Sorted(q) && i <= |q|
    requires (forall j :: 0 <= j < i ==> Earlier(q[j], tkey)) && (i < |q| ==> Earlier(tkey, q[i]))
    ensures var q' := q[..i] + [tkey] + q[i..];
            Sorted(q') && forall t :: t in q' <==> t in q || t == tkey
  {
    var q' := q[..i] + [tkey] + q[i..];
    forall t
      ensures t in q' <==> t in q || t == tkey
    {
      if t in q {
        var j :| 0 <= j < |q| && q[j] == t;
        assert q'[if j < i then j else j + 1] == t;
      }
      if t == tkey {
        assert q'[i] == t;
      }
    }
    forall j, k | 0 <= j < k < |q'|
      ensures Earlier(q'[j], q'[k])
    {
      if j < i && k > i {
        assert q'[j] == q[j] && q'[k] == q[k - 1];
      } else if j == i {
        assert q'[k] == q[k - 1];
        EarlierOrder(tkey, q[i], q[k - 1]);
      } else if j > i {
        assert q'[j] == q[j - 1] && q'[k] == q[k - 1];
      }
    }
  }

  lemma WithoutFirst(q: seq<TimedKey>)
    requires Sorted(q) && q != []
    ensures Sorted(q[1..]) && (set t | t in q[1..]) == (set t | t in q) - {q[0]}
  {
    hide Sorted;
    assert q[..0] + q[1..] == q[1..];
    WithoutOne(q, 0);
  }

  /** An entry later than all goes to the end. */
  lemma AppendLater(q: seq<TimedKey>, h: TimedKey)
    requires Sorted(q) && forall t :: t in q ==> Earlier(t, h)
    ensures Sorted(q + [h]) && forall t :: t in q + [h] <==> t in q || t == h
  {
    WithOne(q, |q|, h);
    assert q[..|q|] + [h] + q[|q|..] == q + [h];
  }

  // --- the cache ---

  datatype Holder = Holder(key: TimedKey, value: Value)

  /** What can be handed to the map as a key. */
  datatype AnyKey = StringKey(s: string) | TimedObject(t: TimedKey)

  /**
   One atomic action on the cache: a synchronized method, the test or the pop of the watcher,
   or one of the two synchronized blocks of callback job `i` in the pool.
   */
  datatype Call =
    | PutCall(key: string, value: Value, ttl: int, notified: seq<Callback>)
    | GetCall(key: string)
    | SetTtlCall(key: string, ttl: int)
    | RemoveCall(key: string)
    | TestCall
    | PopCall
    | SnapshotCall(i: nat)
    | FinishCall(i: nat)

  /** The key whose entry a call gives a new time. */
  function KeyOf(call: Call): Option<string> {
    if call.PutCall? || call.SetTtlCall? || call.RemoveCall? then Some(call.key) else None
  }

  /** What the cache keeps of a key: its value, when it expires, and its callbacks. */
  datatype Kept = Kept(value: Value, expires: int, runners: seq<Callback>)

  /** What is kept after a call. */
  function KeptAfter(kept: map<string, Kept>, call: Call, now: int): map<string, Kept> {
    match call
    case PutCall(key, value, ttl, notified) => kept[key := Kept(value, now + ttl, notified)]
    case SetTtlCall(key, ttl) => if key in kept then kept[key := kept[key].(expires := now + ttl)] else kept
    case RemoveCall(key) => if key in kept then kept[key := kept[key].(expires := now - 1, runners := [])] else kept
    case _ => kept
  }

  function KeptAfterAll(kept: map<string, Kept>, calls: seq<(Call, int)>): map<string, Kept>
    decreases |calls|
  {
    if calls == [] then kept
    else KeptAfter(KeptAfterAll(kept, calls[..|calls| - 1]), calls[|calls| - 1].0, calls[|calls| - 1].1)
  }

  /** The key a call puts into the queue: that of a put, or of a renewal or removal of a known key. */
  function QueuedBy(kept: map<string, Kept>, call: Call): multiset<string> {
    match call
    case PutCall(key, _, _, _) => multiset{key}
    case SetTtlCall(key, _) => if key in kept then multiset{key} else multiset{}
    case RemoveCall(key) => if key in kept then multiset{key} else multiset{}
    case _ => multiset{}
  }

  function QueuedByAll(kept: map<string, Kept>, calls: seq<(Call, int)>): multiset<string>
    decreases |calls|
  {
    if calls == [] then multiset{}
    else
      var front := calls[..|calls| - 1];
      QueuedByAll(kept, front) + QueuedBy(KeptAfterAll(kept, front), calls[|calls| - 1].0)
  }

  lemma NothingCalled(kept: map<string, Kept>)
    ensures KeptAfterAll(kept, []) == kept && QueuedByAll(kept, []) == multiset{}
  {
  }

  lemma NextCall(kept: map<string, Kept>, calls: seq<(Call, int)>, i: nat)
    requires i < |calls|
    ensures KeptAfterAll(kept, calls[..i + 1]) == KeptAfter(KeptAfterAll(kept, calls[..i]), calls[i].0, calls[i].1)
    ensures QueuedByAll(kept, calls[..i + 1])
         == QueuedByAll(kept, calls[..i]) + QueuedBy(KeptAfterAll(kept, calls[..i]), calls[i].0)
  {
    assert calls[..i + 1][..i] == calls[..i];
  }

  /** Call `i` puts the key and no later call does. */
  predicate IsLastPut(calls: seq<(Call, int)>, i: int, key: string) {
    && 0 <= i < |calls| && calls[i].0.PutCall? && calls[i].0.key == key
    && forall j :: i < j < |calls| && calls[j].0.PutCall? ==> calls[j].0.key != key
  }

  /** Whatever else is called, a key that was put has the value of its last put, and no other key is new. */
  lemma {:induction false} LastPutCounts(kept: map<string, Kept>, calls: seq<(Call, int)>, key: string)
    ensures var kept' := KeptAfterAll(kept, calls);
            || (exists i :: IsLastPut(calls, i, key) && key in kept' && kept'[key].value == calls[i].0.value)
            || ((forall i :: 0 <= i < |calls| && calls[i].0.PutCall? ==> calls[i].0.key != key)
                && (key in kept' <==> key in kept) && (key in kept ==> kept'[key].value == kept[key].value))
    decreases |calls|
  {
    if calls != [] {
      var front, call := calls[..|calls| - 1], calls[|calls| - 1].0;
      LastPutCounts(kept, front, key);
      if call.PutCall? && call.key == key {
        assert IsLastPut(calls, |calls| - 1, key);
      } else if i: nat :| IsLastPut(front, i, key) {
        assert IsLastPut(calls, i, key);
      }
    }
  }

  /** A popped entry handed to the pool, with the time of the test and, once copied, its callbacks. */
  datatype Job = Job(head: TimedKey, time: int, runList: Option<seq<Callback>>)

  class TimeoutCache {
    var cache: map<string, Holder>
    var timedQ: seq<TimedKey>
    /** How often each key was put into the queue, and popped from it by the watcher. */
    ghost var inserted: multiset<string>
    ghost var popped: multiset<string>

    ghost function Repr(): set<TimedKey>
      reads this
    {
      Own() + Members()
    }

    /** The timed keys of the map. */
    ghost function Own(): set<TimedKey>
      reads this`cache
    {
      set k | k in cache :: cache[k].key
    }

    /** The entries of the queue. */
    ghost function Members(): set<TimedKey>
      reads this`timedQ
    {
      set t | t in timedQ
    }

    ghost function Contents(): (kept: map<string, Kept>)
      reads this, Repr()
      ensures kept.Keys == cache.Keys
    {
      map k | k in cache :: Kept(cache[k].value, cache[k].key.expires, cache[k].key.runners)
    }

    /** The key has an entry in the queue. */
    ghost predicate Queued(key: string)
      reads this
    {
      key in cache && cache[key].key in Members()
    }

    /**
     The map's keys are the keys of its holders' timed keys; the queue is strictly sorted, and
     each of its entries is the cache's own timed key; no key was popped more often than it was
     put in.
     */
    ghost predicate Valid()
      reads this, Repr()
    {
      && (forall k :: k in cache ==> cache[k].key.key == k)
      && (forall t :: t in Members() ==> t.key in cache && cache[t.key].key == t)
      && Sorted(timedQ)
      && Paid()
    }

    /** Every pop of a key, and its entry if it has one, was paid for by putting it in. */
    ghost predicate Paid()
      reads this
    {
      forall k :: popped[k] + One(Queued(k)) <= inserted[k]
    }

    /** Queueing one key once more is paid for. */
    twostate lemma StillPaid(key: string)
      requires old(Paid()) && popped == old(popped) && inserted == old(inserted) + multiset{key}
      requires forall k :: k != key ==> Queued(k) == old(Queued(k))
      ensures Paid()
    {
      forall k
        ensures popped[k] + One(Queued(k)) <= inserted[k]
      {
        assert popped[k] + old(One(Queued(k))) <= old(inserted[k]);
      }
    }

    constructor ()
      ensures Valid() && cache == map[] && timedQ == [] && Repr() == {}
    {
      cache := map[];
      timedQ := [];
      inserted := multiset{};
      popped := multiset{};
    }

    /** At most one entry for each key, and that is the cache's own. */
    lemma OneEntryEach(i: nat, j: nat)
      requires Valid() && i < |timedQ| && j < |timedQ| && timedQ[i].key == timedQ[j].key
      ensures i == j && timedQ[i] == cache[timedQ[i].key].key
    {
      SortedHasNoRepeats(timedQ, i, j);
    }

    /** `TreeSet.remove`: the entry that compares as equal goes. */
    method TreeRemove(tkey: TimedKey)
      requires Sorted(timedQ) && forall t :: t in Members() && t.key == tkey.key ==> t == tkey
      modifies this`timedQ
      ensures Sorted(timedQ) && Members() == old(Members()) - {tkey}
    {
      var i := 0;
      while i < |timedQ| && !(timedQ[i].expires == tkey.expires && timedQ[i].key == tkey.key)
        invariant 0 <= i <= |timedQ|
        invariant forall j :: 0 <= j < i ==> timedQ[j] != tkey
      {
        i := i + 1;
      }
      if i < |timedQ| {
        WithoutOne(timedQ, i);
        timedQ := timedQ[..i] + timedQ[i + 1..];
      }
    }

    /** `TreeSet.add`: the entry goes to its place in the order. */
    method TreeAdd(tkey: TimedKey)
      requires Sorted(timedQ) && forall t :: t in Members() ==> t.key != tkey.key
      modifies this`timedQ
      ensures Sorted(timedQ) && Members() == old(Members()) + {tkey}
    {
      var i := 0;
      while i < |timedQ| && Earlier(timedQ[i], tkey)
        invariant 0 <= i <= |timedQ|
        invariant forall j :: 0 <= j < i ==> Earlier(timedQ[j], tkey)
      {
        i := i + 1;
      }
      if i < |timedQ| {
        EarlierOrder(timedQ[i], tkey, tkey);
      }
      WithOne(timedQ, i, tkey);
      timedQ := timedQ[..i] + [tkey] + timedQ[i..];
    }

    /** The entry of `key` is queued as given, and nothing else has changed. */
    twostate predicate Renewed(key: string, expires: int, runners: seq<Callback>)
      requires old(Valid()) && Valid()
      reads this, Repr()
    {
      && cache.Keys == old(cache.Keys) + {key}
      && var tkey := cache[key].key;
         && tkey.expires == expires && tkey.runners == runners && tkey in Members()
         && (key in old(cache) ==> tkey == old(cache)[key].key)
         && (forall k :: k in old(cache) && k != key ==> cache[k] == old(cache)[k])
         && Members() == old(Members()) + {tkey}
         && (forall t :: t in old(Repr()) && t != tkey ==> unchanged(t))
         && popped == old(popped) && inserted == old(inserted) + multiset{key}
    }

    /** A timed key that is not queued gets its new time and callbacks and is queued. */
    method Enqueue(tkey: TimedKey, expires: int, runners: seq<Callback>)
      requires Sorted(timedQ) && tkey !in Members() && forall t :: t in Members() ==> t.key != tkey.key
      modifies this`timedQ, this`inserted, tkey`expires, tkey`runners
      ensures tkey.expires == expires && tkey.runners == runners
      ensures forall t :: t in old(Members()) ==> unchanged(t)
      ensures Sorted(timedQ) && Members() == old(Members()) + {tkey} && inserted == old(inserted) + multiset{tkey.key}
    {
      tkey.expires := expires;
      tkey.runners := [];
      for i := 0 to |runners|
        invariant tkey.expires == expires && tkey.runners == runners[..i]
        invariant timedQ == old(timedQ) && inserted == old(inserted)
      {
        tkey.runners := tkey.runners + [runners[i]];
      }
      assert Sorted(timedQ);
      TreeAdd(tkey);
      inserted := inserted + multiset{tkey.key};
    }

    /** With one key given its holder and its entry, every entry is still the cache's own. */
    twostate lemma OwnEntries(key: string, new tkey: TimedKey)
      requires old(Valid()) && key in cache && cache[key].key == tkey && tkey.key == key
      requires cache == old(cache)[key := cache[key]] && (key in old(cache) ==> old(cache)[key].key == tkey)
      requires Members() == old(Members()) + {tkey} && (forall t :: t in old(Repr()) ==> t.key == old(t.key))
      ensures forall k :: k in cache ==> cache[k].key.key == k
      ensures forall t :: t in Members() ==> t.key in cache && cache[t.key].key == t
      ensures Repr() == old(Repr()) + {tkey}
      ensures popped == old(popped) && inserted == old(inserted) + multiset{key} ==> Paid()
    {
      hide Sorted;
      if popped == old(popped) && inserted == old(inserted) + multiset{key} {
        StillPaid(key);
      }
      forall t | t in Members()
        ensures t.key in cache && cache[t.key].key == t
      {
        if t != tkey {
          assert t in old(Members()) && t in old(Repr());
        }
      }
      forall t
        ensures t in Repr() <==> t in old(Repr()) || t == tkey
      {
        if t in old(Repr()) && t !in old(Members()) {
          var k :| k in old(cache) && old(cache)[k].key == t;
          assert k in cache;
        }
      }
    }

    /** The timed key for a put: the cache's own, taken out of the queue, or a new one. */
    method KeyToQueue(key: string) returns (tkey: TimedKey)
      requires Valid()
      modifies this`timedQ
      ensures tkey.key == key && Sorted(timedQ) && Members() == old(Members()) - {tkey}
      ensures forall t :: t in Members() ==> t.key != key
      ensures if key in cache then tkey == cache[key].key else fresh(tkey)
    {
      if key in cache {
        tkey := cache[key].key;
        TreeRemove(tkey);
      } else {
        tkey := new TimedKey();
        tkey.key := key;
      }
    }

    method Put(key: string, value: Value, ttl: int, now: int, notified: seq<Callback>)
      requires Valid()
      modifies this, Repr()
      ensures Valid() && fresh(Repr() - old(Repr()))
      ensures Renewed(key, now + ttl, notified) && cache[key].value == value
    {
      hide Sorted, Paid, Renewed, Members, Earlier;
      var tkey := KeyToQueue(key);
      cache := cache[key := Holder(tkey, value)];
      Enqueue(tkey, now + ttl, notified);
      assert Members() == old(Members()) + {tkey};
      OwnEntries(key, tkey);
      assert Valid();
      IsRenewed(key, tkey);
    }

    twostate lemma IsRenewed(key: string, new tkey: TimedKey)
      requires old(Valid()) && Valid() && key in cache && cache[key].key == tkey
      requires cache == old(cache)[key := cache[key]] && (key in old(cache) ==> old(cache)[key].key == tkey)
      requires Members() == old(Members()) + {tkey}
      requires forall t :: t in old(Repr()) && t != tkey ==> unchanged(t)
      requires popped == old(popped) && inserted == old(inserted) + multiset{key}
      ensures Renewed(key, tkey.expires, tkey.runners)
    {
      hide Sorted, Paid;
    }

    method Get(key: string) returns (value: Option<Value>)
      ensures value == if key in cache then Some(cache[key].value) else None
    {
      if key in cache {
        return Some(cache[key].value);
      }
      return None;
    }

    /** The time to live of a present key starts anew, whether or not the watcher has popped it. */
    method SetTtl(key: string, ttl: int, now: int)
      requires Valid()
      modifies this, Repr()
      ensures Valid() && Repr() == old(Repr()) && cache == old(cache)
      ensures key !in cache ==> unchanged(this) && forall t :: t in Repr() ==> unchanged(t)
      ensures key in cache ==> Renewed(key, now + ttl, old(cache[key].key.runners))
    {
      hide Sorted, Paid, Members, Renewed;
      if key in cache {
        var tkey := cache[key].key;
        TreeRemove(tkey);
        Enqueue(tkey, now + ttl, tkey.runners);
        OwnEntries(key, tkey);
        IsRenewed(key, tkey);
      }
    }

    /** A removed key is due at once and calls nobody; its value stays in the cache. */
    method Remove(key: string, now: int)
      requires Valid()
      modifies this, Repr()
      ensures Valid() && Repr() == old(Repr()) && cache == old(cache)
      ensures key !in cache ==> unchanged(this) && forall t :: t in Repr() ==> unchanged(t)
      ensures key in cache ==> Renewed(key, now - 1, [])
    {
      hide Sorted, Paid, Members, Renewed;
      if key in cache {
        var tkey := cache[key].key;
        TreeRemove(tkey);
        Enqueue(tkey, now - 1, []);
        OwnEntries(key, tkey);
        IsRenewed(key, tkey);
      }
    }

    /** Popping an entry spends what was paid for it. */
    twostate lemma PopIsPaid(head: TimedKey)
      requires old(Paid()) && old(Queued(head.key)) && !Queued(head.key)
      requires popped == old(popped) + multiset{head.key} && inserted == old(inserted) && head.key == old(head.key)
      requires forall k :: k != head.key ==> Queued(k) == old(Queued(k))
      ensures Paid()
    {
      forall k
        ensures popped[k] + One(Queued(k)) <= inserted[k]
      {
        assert old(popped[k] + One(Queued(k)) <= inserted[k]);
      }
    }

    /** In a sorted queue the first entry is the earliest. */
    lemma FirstIsEarliest(t: TimedKey)
      requires Sorted(timedQ) && t in Members() && t != timedQ[0]
      ensures Earlier(timedQ[0], t)
    {
      var i :| 0 <= i < |timedQ| && timedQ[i] == t;
    }

    /** The test of the watcher, which it makes outside the lock: whether some entry is due. */
    method Test(time: int) returns (due: bool)
      requires Valid()
      ensures due <==> exists t :: t in Members() && t.expires <= time
    {
      if |timedQ| == 0 {
        return false;
      }
      due := timedQ[0].expires <= time;
      assert timedQ[0] in Members();
      forall t | t in Members() && t != timedQ[0]
        ensures timedQ[0].expires <= t.expires
      {
        FirstIsEarliest(t);
      }
    }

    /** The pop of the watcher, under the lock: the earliest entry, due or not. */
    method PollFirst() returns (head: TimedKey?)
      requires Valid()
      modifies this`timedQ, this`popped
      ensures Valid()
      ensures head == null ==> unchanged(this) && timedQ == []
      ensures head != null ==>
                && head in old(Members()) && popped == old(popped) + multiset{head.key}
                && Members() == old(Members()) - {head} && |timedQ| < |old(timedQ)|
                && forall t :: t in Members() ==> Earlier(head, t)
    {
      if |timedQ| == 0 {
        return null;
      }
      head := timedQ[0];
      assert head in Members();
      forall t | t in Members() && t != head
        ensures Earlier(head, t)
      {
        FirstIsEarliest(t);
      }
      Pop();
      PopIsPaid(head);
    }

    /** The watcher's test and pop with nothing coming in between: the earliest entry, if it is due. */
    method Poll(time: int) returns (head: TimedKey?)
      requires Valid()
      modifies this`timedQ, this`popped
      ensures Valid()
      ensures head == null ==> unchanged(this) && forall t :: t in Members() ==> t.expires > time
      ensures head != null ==>
                && head in old(Members()) && head.expires <= time && popped == old(popped) + multiset{head.key}
                && Members() == old(Members()) - {head} && |timedQ| < |old(timedQ)|
                && forall t :: t in Members() ==> Earlier(head, t)
    {
      var due := Test(time);
      if !due {
        return null;
      }
      ghost var t :| t in Members() && t.expires <= time;
      head := PollFirst();
      assert t == head || Earlier(head, t);
    }

    method Pop()
      requires Sorted(timedQ) && timedQ != []
      modifies this`timedQ, this`popped
      ensures Sorted(timedQ) && Members() == old(Members()) - {old(timedQ)[0]} && |timedQ| < |old(timedQ)|
      ensures popped == old(popped) + multiset{old(timedQ)[0].key}
    {
      WithoutFirst(timedQ);
      popped := popped + multiset{timedQ[0].key};
      timedQ := timedQ[1..];
    }

    /** The callbacks of a popped entry, copied under the lock. */
    method Snapshot(head: TimedKey) returns (runList: seq<Callback>)
      ensures runList == head.runners
    {
      runList := head.runners;
    }

    /** `invalidate` takes any object; an entry goes only if the object equals its string key. */
    method Invalidate(key: AnyKey)
      modifies this`cache
      ensures cache == if key.StringKey? then old(cache) - {key.s} else old(cache)
    {
      if key.StringKey? {
        cache := cache - {key.s};
      }
    }

    /**
     The end of a callback: the object handed to the map is the `TimedKey`, which equals no
     string, so the map keeps its entry even when it is still timed out.
     */
    method FinishCallback(head: TimedKey, time: int)
      modifies this`cache
      ensures cache == old(cache)
    {
      if head.expires <= time {
        Invalidate(TimedObject(head));
      }
    }

    /** The inner loop of the watcher, with nothing coming in between. */
    method Drain(time: int) returns (heads: seq<TimedKey>)
      requires Valid()
      modifies this`timedQ, this`popped
      ensures Valid() && cache == old(cache) && inserted == old(inserted)
      ensures forall t :: t in Members() <==> t in old(Members()) && t.expires > time
      ensures forall t :: t in heads <==> t in old(Members()) && t.expires <= time
      ensures Sorted(heads)
    {
      hide Before;
      heads := [];
      var head := Poll(time);
      while head != null
        invariant Valid() && cache == old(cache) && inserted == old(inserted)
        invariant head == null ==> forall t :: t in Members() ==> t.expires > time
        invariant head != null ==>
                    head.expires <= time && head in old(Members()) && head !in Members() && head !in heads
        invariant head != null ==> forall t :: t in Members() ==> Earlier(head, t)
        invariant head != null ==> forall t :: t in heads ==> Earlier(t, head)
        invariant forall t :: t in old(Members()) <==> t in Members() || t in heads || t == head
        invariant forall t :: t in heads ==> t.expires <= time && t !in Members()
        invariant Sorted(heads)
        decreases |timedQ|, head != null
      {
        var h: TimedKey := head;
        AppendLater(heads, h);
        heads := heads + [h];
        head := Poll(time);
        if head != null {
          forall t | t in heads
            ensures Earlier(t, head)
          {
            EarlierOrder(t, h, head);
          }
        }
      }
    }

    /** A callback that renews its own key: one entry of the key is left, at the new time. */
    method PollAndRenew(time: int, ttl: int, now: int) returns (head: TimedKey?)
      requires Valid()
      modifies this, Repr()
      ensures Valid() && Repr() == old(Repr()) && cache == old(cache)
      ensures head != null ==>
                && head in Members() && head.expires == now + ttl
                && (forall t :: t in Members() && t.key == head.key ==> t == head)
                && (forall t :: t in Members() <==> t in old(Members()))
    {
      head := Poll(time);
      if head != null {
        ghost var key := head.key;
        assert key in cache && cache[key].key == head;
        var runList := Snapshot(head);
        SetTtl(head.key, ttl, now);
        FinishCallback(head, time);
      }
    }

    lemma PoppedAreInserted()
      requires Paid()
      ensures popped <= inserted
    {
      assert forall k :: popped[k] + One(Queued(k)) <= inserted[k];
    }
  }

  // --- the watcher and the pool ---

  /** The thread that pops due entries, and the jobs it has given to the pool. */
  class RunTimer {
    const cache: TimeoutCache
    /** The time of a test that an entry has passed, until the watcher pops. */
    var passed: Option<int>
    var jobs: seq<Job>

    constructor (cache: TimeoutCache)
      requires cache.Valid()
      ensures Valid() && this.cache == cache && passed == None && jobs == []
    {
      this.cache := cache;
      passed := None;
      jobs := [];
    }

    /** After a passed test there is something to pop; the map keeps the timed key of every job. */
    ghost predicate Valid()
      reads this, cache, cache.Repr()
    {
      && cache.Valid()
      && (passed.Some? ==> cache.timedQ != [])
      && (forall j :: 0 <= j < |jobs| ==> jobs[j].head in cache.Own())
    }

    /** Nothing of the cache has changed. */
    twostate predicate CacheAsBefore()
      reads cache, cache.Repr()
    {
      unchanged(cache) && forall t :: t in cache.Repr() ==> unchanged(t)
    }

    /** A test at the given time has passed if some entry was due; one passed before stands. */
    twostate predicate Looked(time: int)
      reads this, cache, cache.Repr()
    {
      && CacheAsBefore() && jobs == old(jobs)
      && passed == if old(passed).Some? then old(passed)
                   else if exists t :: t in cache.Members() && t.expires <= time then Some(time) else None
    }

    /** The watcher tests, at the time it read. */
    method Look(time: int)
      requires Valid()
      modifies this`passed
      ensures Valid() && Looked(time)
    {
      if passed == None {
        var due := cache.Test(time);
        if due {
          passed := Some(time);
        }
      }
    }

    /**
     After a passed test the earliest entry has been popped and made a job.  It was due exactly
     if some entry was still due: a call in between may have renewed them all.
     */
    twostate predicate TookFirst()
      reads this, cache, cache.Repr()
    {
      && passed == None && cache.cache == old(cache.cache) && cache.inserted == old(cache.inserted)
      && (forall t :: t in old(cache.Own()) && t in cache.Own() ==> unchanged(t))
      && if old(passed) == None then jobs == old(jobs) && unchanged(cache)
         else
           && |jobs| == |old(jobs)| + 1 && jobs[..|old(jobs)|] == old(jobs)
           && var job := jobs[|old(jobs)|];
              && job.head in old(cache.Members()) && job.time == old(passed).value && job.runList == None
              && (forall t :: t in old(cache.Members()) && t != job.head ==> old(Earlier(job.head, t)))
              && cache.Members() == old(cache.Members()) - {job.head}
              && cache.popped == old(cache.popped) + multiset{old(job.head.key)}
              && (old(job.head.expires) <= job.time
                  <==> exists t :: t in old(cache.Members()) && old(t.expires) <= job.time)
    }

    /** The watcher pops, if its test has passed. */
    method TakeFirst()
      requires Valid()
      modifies this, cache`timedQ, cache`popped
      ensures Valid() && TookFirst()
    {
      if passed.Some? {
        var head := cache.PollFirst();
        assert head != null && forall t :: t in old(cache.Members()) && t != head ==> t in cache.Members();
        jobs := jobs + [Job(head, passed.value, None)];
        passed := None;
      }
    }

    /** The first synchronized block of a job. */
    method TakeRunList(i: nat)
      requires Valid() && i < |jobs| && jobs[i].runList == None
      modifies this`jobs
      ensures Valid() && jobs == old(jobs)[i := old(jobs)[i].(runList := Some(old(jobs)[i].head.runners))]
    {
      var runList := cache.Snapshot(jobs[i].head);
      jobs := jobs[i := jobs[i].(runList := Some(runList))];
    }

    /** The second one, after the callbacks: the job ends and the map has kept every entry. */
    method EndJob(i: nat)
      requires Valid() && i < |jobs| && jobs[i].runList.Some?
      modifies this`jobs, cache`cache
      ensures Valid() && jobs == RemoveAt(old(jobs), i) && cache.cache == old(cache.cache)
    {
      cache.FinishCallback(jobs[i].head, jobs[i].time);
      jobs := RemoveAt(jobs, i);
    }

    /** What each action does. */
    twostate predicate Did(call: Call, now: int)
      requires old(Valid()) && Valid()
      reads this, cache, cache.Repr()
    {
      match call
      case PutCall(key, value, ttl, notified) =>
        unchanged(this) && cache.Renewed(key, now + ttl, notified) && cache.cache[key].value == value
      case GetCall(_) => unchanged(this) && CacheAsBefore()
      case SetTtlCall(key, ttl) =>
        && unchanged(this) && cache.cache == old(cache.cache)
        && if key !in cache.cache then CacheAsBefore()
           else cache.Renewed(key, now + ttl, old(cache.cache[key].key.runners))
      case RemoveCall(key) =>
        && unchanged(this) && cache.cache == old(cache.cache)
        && if key !in cache.cache then CacheAsBefore() else cache.Renewed(key, now - 1, [])
      case TestCall => Looked(now)
      case PopCall => TookFirst()
      case SnapshotCall(i) =>
        && CacheAsBefore() && passed == old(passed)
        && jobs == if i < |old(jobs)| && old(jobs)[i].runList == None
                   then old(jobs)[i := old(jobs)[i].(runList := Some(old(jobs)[i].head.runners))] else old(jobs)
      case FinishCall(i) =>
        && CacheAsBefore() && passed == old(passed)
        && jobs == if i < |old(jobs)| && old(jobs)[i].runList.Some? then RemoveAt(old(jobs), i) else old(jobs)
    }

    /** After a call that renews at most one key, the jobs and the passed test still stand. */
    twostate lemma StillStands()
      requires old(Valid()) && cache.Valid() && unchanged(this) && old(cache.Own()) <= cache.Own()
      requires old(cache.Members()) <= cache.Members()
      ensures Valid()
    {
      if passed.Some? {
        assert old(cache.timedQ)[0] in old(cache.Members());
      }
    }

    twostate lemma KeptByRenewal(key: string)
      requires cache.cache.Keys == old(cache.cache.Keys) + {key}
      requires forall k :: k in cache.cache ==> cache.cache[k].key.key == k
      requires forall k :: k in old(cache.cache) && k != key ==> cache.cache[k] == old(cache.cache)[k]
      requires forall t :: t in old(cache.Own()) && t != cache.cache[key].key ==> unchanged(t)
      ensures cache.Contents() == old(cache.Contents())
                    [key := Kept(cache.cache[key].value, cache.cache[key].key.expires, cache.cache[key].key.runners)]
    {
      forall k | k in old(cache.cache) && k != key
        ensures cache.Contents()[k] == old(cache.Contents())[k]
      {
        var tkey := old(cache.cache)[k].key;
        assert tkey in old(cache.Own()) && tkey.key == k;
      }
    }

    twostate lemma KeptByNothing()
      requires cache.cache == old(cache.cache)
      requires forall t :: t in old(cache.Own()) && t in cache.Own() ==> unchanged(t)
      ensures cache.Contents() == old(cache.Contents())
    {
      forall k | k in cache.cache
        ensures cache.Contents()[k] == old(cache.Contents())[k]
      {
        assert cache.cache[k].key in cache.Own() && cache.cache[k].key in old(cache.Own());
      }
    }

    method CallPut(key: string, value: Value, ttl: int, notified: seq<Callback>, now: int)
      requires Valid()
      modifies cache, cache.Repr()
      ensures Valid() && unchanged(this) && fresh(cache.Repr() - old(cache.Repr()))
      ensures cache.Renewed(key, now + ttl, notified) && cache.cache == old(cache.cache)[key := cache.cache[key]]
      ensures cache.cache[key] == Holder(cache.cache[key].key, value)
      ensures cache.cache[key].key.expires == now + ttl && cache.cache[key].key.runners == notified
      ensures cache.inserted == old(cache.inserted) + multiset{key}
      ensures forall t :: t in old(cache.Own()) && t != cache.cache[key].key ==> unchanged(t)
      ensures forall t :: t in old(cache.Repr()) ==> t.key == old(t.key)
      ensures forall t :: t in old(cache.Repr()) && t.key != key ==> unchanged(t)
    {
      hide Sorted, Earlier, TimeoutCache.Contents;
      cache.Put(key, value, ttl, now, notified);
      StillStands();
      SameKeys(key);
    }

    method CallSetTtl(key: string, ttl: int, now: int)
      requires Valid()
      modifies cache, cache.Repr()
      ensures Valid() && unchanged(this) && cache.Repr() == old(cache.Repr()) && cache.cache == old(cache.cache)
      ensures key !in cache.cache ==> CacheAsBefore()
      ensures key in cache.cache ==> cache.Renewed(key, now + ttl, old(cache.cache[key].key.runners))
      ensures forall t :: t in old(cache.Repr()) ==> t.key == old(t.key)
      ensures forall t :: t in old(cache.Repr()) && t.key != key ==> unchanged(t)
    {
      hide Sorted, Earlier;
      cache.SetTtl(key, ttl, now);
      StillStands();
      SameKeys(key);
    }

    method CallRemove(key: string, now: int)
      requires Valid()
      modifies cache, cache.Repr()
      ensures Valid() && unchanged(this) && cache.Repr() == old(cache.Repr()) && cache.cache == old(cache.cache)
      ensures key !in cache.cache ==> CacheAsBefore()
      ensures key in cache.cache ==> cache.Renewed(key, now - 1, [])
      ensures forall t :: t in old(cache.Repr()) ==> t.key == old(t.key)
      ensures forall t :: t in old(cache.Repr()) && t.key != key ==> unchanged(t)
    {
      hide Sorted, Earlier;
      cache.Remove(key, now);
      StillStands();
      SameKeys(key);
    }

    method DoPut(key: string, value: Value, ttl: int, notified: seq<Callback>, now: int)
      requires Valid()
      modifies cache, cache.Repr()
      ensures Valid() && unchanged(this) && fresh(cache.Repr() - old(cache.Repr()))
      ensures old(cache.cache.Keys) <= cache.cache.Keys && Did(PutCall(key, value, ttl, notified), now)
      ensures cache.Contents() == KeptAfter(old(cache.Contents()), PutCall(key, value, ttl, notified), now)
      ensures cache.inserted ==
        old(cache.inserted) + QueuedBy(old(cache.Contents()), PutCall(key, value, ttl, notified))
      ensures forall t :: t in old(cache.Repr()) ==> t.key == old(t.key)
      ensures forall t :: t in old(cache.Repr()) && t.key != key ==> unchanged(t)
    {
      hide Sorted, Earlier, TimeoutCache.Contents, TimeoutCache.Members, TimeoutCache.Paid, Looked, TookFirst, Valid;
      hide TimeoutCache.Renewed, TimeoutCache.Repr, TimeoutCache.Own;
      CallPut(key, value, ttl, notified, now);
      OwnKeys();
      KeptByRenewal(key);
    }

    method DoSetTtl(key: string, ttl: int, now: int)
      requires Valid()
      modifies cache, cache.Repr()
      ensures Valid() && unchanged(this) && fresh(cache.Repr() - old(cache.Repr()))
      ensures old(cache.cache.Keys) <= cache.cache.Keys && Did(SetTtlCall(key, ttl), now)
      ensures cache.Contents() == KeptAfter(old(cache.Contents()), SetTtlCall(key, ttl), now)
      ensures cache.inserted == old(cache.inserted) + QueuedBy(old(cache.Contents()), SetTtlCall(key, ttl))
      ensures forall t :: t in old(cache.Repr()) ==> t.key == old(t.key)
      ensures forall t :: t in old(cache.Repr()) && t.key != key ==> unchanged(t)
    {
      hide Sorted, Earlier, TimeoutCache.Contents, TimeoutCache.Members, TimeoutCache.Paid, Looked, TookFirst, Valid;
      CallSetTtl(key, ttl, now);
      OwnKeys();
      KeptByCall(key);
    }

    method DoRemove(key: string, now: int)
      requires Valid()
      modifies cache, cache.Repr()
      ensures Valid() && unchanged(this) && fresh(cache.Repr() - old(cache.Repr()))
      ensures old(cache.cache.Keys) <= cache.cache.Keys && Did(RemoveCall(key), now)
      ensures cache.Contents() == KeptAfter(old(cache.Contents()), RemoveCall(key), now)
      ensures cache.inserted == old(cache.inserted) + QueuedBy(old(cache.Contents()), RemoveCall(key))
      ensures forall t :: t in old(cache.Repr()) ==> t.key == old(t.key)
      ensures forall t :: t in old(cache.Repr()) && t.key != key ==> unchanged(t)
    {
      hide Sorted, Earlier, TimeoutCache.Contents, TimeoutCache.Members, TimeoutCache.Paid, Looked, TookFirst, Valid;
      CallRemove(key, now);
      OwnKeys();
      KeptByCall(key);
    }

    lemma OwnKeys()
      requires Valid()
      ensures forall k :: k in cache.cache ==> cache.cache[k].key.key == k
    {
    }

    twostate lemma KeptByCall(key: string)
      requires cache.cache == old(cache.cache) && forall k :: k in cache.cache ==> cache.cache[k].key.key == k
      requires forall t :: t in old(cache.Own()) && !(key in cache.cache && t == cache.cache[key].key) ==> unchanged(t)
      ensures key !in cache.cache ==> cache.Contents() == old(cache.Contents())
      ensures key in cache.cache ==>
                var tkey := cache.cache[key].key;
                var before := old(cache.Contents());
                && key in before && before[key].runners == old(cache.cache[key].key.runners)
                && cache.Contents() == before[key := before[key].(expires := tkey.expires, runners := tkey.runners)]
    {
      hide TimeoutCache.Contents;
      if key in cache.cache {
        KeptByRenewal(key);
        KeptOf(key);
      } else {
        KeptByNothing();
      }
    }

    twostate lemma KeptOf(key: string)
      requires key in old(cache.cache)
      ensures key in old(cache.Contents())
      ensures old(cache.Contents())[key]
           == Kept(old(cache.cache)[key].value, old(cache.cache[key].key.expires), old(cache.cache[key].key.runners))
    {
    }

    /** A renewal touches one timed key, and not its key. */
    twostate lemma SameKeys(key: string)
      requires old(cache.Valid()) && cache.Valid()
      requires (key !in cache.cache && forall t :: t in old(cache.Repr()) ==> unchanged(t))
               || (key in cache.cache && (key in old(cache.cache) ==> cache.cache[key].key == old(cache.cache)[key].key)
                   && (forall k :: k in old(cache.cache) && k != key ==>
                         k in cache.cache && cache.cache[k] == old(cache.cache)[k])
                   && forall t :: t in old(cache.Repr()) && t != cache.cache[key].key ==> unchanged(t))
      ensures forall t :: t in old(cache.Repr()) ==> t.key == old(t.key)
      ensures forall t :: t in old(cache.Repr()) && t.key != key ==> unchanged(t)
    {
      hide Sorted, Earlier;
      forall t | t in old(cache.Repr())
        ensures t.key == old(t.key) && (t.key != key ==> unchanged(t))
      {
        if key in cache.cache && t == cache.cache[key].key {
          var k := old(t.key);
          assert k in old(cache.cache) && old(cache.cache)[k].key == t by {
            if t !in old(cache.Members()) {
              var l :| l in old(cache.cache) && old(cache.cache)[l].key == t;
            }
          }
        }
      }
    }

    /**
     One atomic action.  Only the entry of the call's own key is given a new time or new
     callbacks, and no timed key ever changes its key.
     */
    method Do(call: Call, now: int)
      requires Valid()
      modifies this, cache, cache.Repr()
      ensures Valid() && fresh(cache.Repr() - old(cache.Repr())) && old(cache.cache.Keys) <= cache.cache.Keys
      ensures forall t :: t in old(cache.Repr()) ==> t.key == old(t.key)
      ensures forall t :: t in old(cache.Repr()) && KeyOf(call) != Some(t.key) ==> unchanged(t)
      ensures Did(call, now)
      ensures cache.Contents() == KeptAfter(old(cache.Contents()), call, now)
      ensures cache.inserted == old(cache.inserted) + QueuedBy(old(cache.Contents()), call)
    {
      hide Sorted, Earlier, Valid, TimeoutCache.Contents, Did;
      match call {
        case PutCall(key, value, ttl, notified) => DoPut(key, value, ttl, notified, now);
        case SetTtlCall(key, ttl) => DoSetTtl(key, ttl, now);
        case RemoveCall(key) => DoRemove(key, now);
        case _ => Turn(call, now);
      }
    }

    /** A turn of the watcher or of a job changes no timed key. */
    method Turn(call: Call, now: int)
      requires Valid() && KeyOf(call) == None
      modifies this, cache`timedQ, cache`popped, cache`cache
      ensures Valid() && cache.Repr() <= old(cache.Repr()) && cache.cache == old(cache.cache)
      ensures Did(call, now)
      ensures cache.Contents() == old(cache.Contents()) && cache.inserted == old(cache.inserted)
    {
      hide Sorted, Earlier, TimeoutCache.Contents;
      match call {
        case GetCall(key) => var _ := cache.Get(key);
        case TestCall => Look(now);
        case PopCall => TakeFirst();
        case SnapshotCall(i) =>
          if i < |jobs| && jobs[i].runList == None {
            TakeRunList(i);
          }
        case FinishCall(i) =>
          if i < |jobs| && jobs[i].runList.Some? {
            EndJob(i);
          }
      }
      KeptByNothing();
    }

    lemma PopsArePaid()
      requires Valid()
      ensures forall k :: cache.popped[k] <= cache.inserted[k]
    {
      cache.PoppedAreInserted();
      assert cache.popped <= cache.inserted;
    }

    /**
     Any interleaving of calls, tests, pops and callback blocks, each at its own time, leaves
     the queue and the map in step, keeps of every key what the calls say, puts a key into the
     queue once for each call that renews it, and pops none more often than it was put in.
     */
    method Interleave(calls: seq<(Call, int)>)
      requires Valid()
      modifies this, cache, cache.Repr()
      ensures Valid() && fresh(cache.Repr() - old(cache.Repr()))
      ensures forall k :: cache.popped[k] <= cache.inserted[k]
      ensures cache.Contents() == KeptAfterAll(old(cache.Contents()), calls)
      ensures cache.inserted == old(cache.inserted) + QueuedByAll(old(cache.Contents()), calls)
      ensures old(cache.cache.Keys) <= cache.cache.Keys
      ensures forall t :: t in old(cache.Repr()) ==> t.key == old(t.key)
    {
      hide Valid, Did, KeptAfter, QueuedBy, KeptAfterAll, QueuedByAll, TimeoutCache.Contents;
      NothingCalled(cache.Contents());
      for i := 0 to |calls|
        invariant cache.Contents() == KeptAfterAll(old(cache.Contents()), calls[..i])
        invariant cache.inserted == old(cache.inserted) + QueuedByAll(old(cache.Contents()), calls[..i])
        invariant Valid() && fresh(cache.Repr() - old(cache.Repr())) && old(cache.cache.Keys) <= cache.cache.Keys
        invariant forall t :: t in old(cache.Repr()) ==> t.key == old(t.key)
      {
        NextCall(old(cache.Contents()), calls, i);
        Do(calls[i].0, calls[i].1);
      }
      assert calls[..|calls|] == calls;
      PopsArePaid();
    }

    /**
     The test is made outside the lock, so a renewal can come between it and the pop: the entry
     just renewed for a long time is popped at once, and no later test will see it.
     */
    method RenewedIsPopped(key: string, value: Value)
      requires Valid() && cache.cache == map[] && cache.timedQ == [] && passed == None && jobs == []
      modifies this, cache
      ensures Valid() && |jobs| == 1 && jobs[0].time == 1 && jobs[0].head.expires == 1002
      ensures key in cache.cache && cache.cache[key].key == jobs[0].head && cache.Members() == {}
    {
      hide Sorted, Earlier, TimeoutCache.Paid, TimeoutCache.Contents;
      cache.Put(key, value, 0, 0, []);
      ghost var tkey := cache.cache[key].key;
      assert cache.Members() == {tkey} && tkey.expires == 0;
      Look(1);
      assert passed == Some(1);
      cache.SetTtl(key, 1000, 2);
      assert cache.Members() == {tkey} && tkey.expires == 1002;
      TakeFirst();
    }
  }
}
