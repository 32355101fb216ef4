/**
 The two-way index of `org.gwems.util.TwoWayMapping`: a map from an item to its set of
 things kept in step with a map from a thing to its set of items.  A `null` argument of
 the program is `None` here; the two maps never hold a null key.
 */
module TwoWayMappings {
  import opened Wrappers

  /** What `remove` reports: the item or the thing whose row became empty. */
  datatype Orphan<I, T> = Orphan(item: Option<I>, thing: Option<T>)

  function Row<X, Y>(m: map<X, set<Y>>, x: X): (row: set<Y>) {
    if x in m then m[x] else {}
  }

  /** The relation a map of rows stands for. */
  ghost function Pairs<X(!new), Y(!new)>(m: map<X, set<Y>>): (r: set<(X, Y)>)
    ensures forall x, y :: (x, y) in r <==> y in Row(m, x)
  {
    set x, y | x in m && y in m[x] :: (x, y)
  }

  /** The two maps hold the same relation, read in the two directions. */
  ghost predicate Converse<X(!new), Y(!new)>(m: map<X, set<Y>>, w: map<Y, set<X>>) {
    forall x, y :: y in Row(m, x) <==> x in Row(w, y)
  }

  ghost predicate NoEmptyRow<X, Y>(m: map<X, set<Y>>) {
    forall x :: x in m ==> m[x] != {}
  }

  /** The row of `x` without `y`; a row left empty disappears.  A null `y` is in no row. */
  function Without<X, Y>(m: map<X, set<Y>>, x: Option<X>, y: Option<Y>): map<X, set<Y>> {
    if x.None? || x.value !in m then m
    else
      var row := if y.Some? then m[x.value] - {y.value} else m[x.value];
      if row == {} then m - {x.value} else m[x.value := row]
  }

  /** Removing takes one pair out of the relation and nothing else, and leaves no empty row of `x`. */
  lemma WithoutPair<X(!new), Y(!new)>(m: map<X, set<Y>>, x: Option<X>, y: Option<Y>)
    ensures forall a, b :: b in Row(Without(m, x, y), a) <==> b in Row(m, a) && !(x == Some(a) && y == Some(b))
    ensures Pairs(Without(m, x, y)) == Pairs(m) - if x.Some? && y.Some? then {(x.value, y.value)} else {}
    ensures NoEmptyRow(m) ==> NoEmptyRow(Without(m, x, y))
    ensures x.Some? && x.value in Without(m, x, y) ==> Row(Without(m, x, y), x.value) != {}
  {
    var w := Without(m, x, y);
    forall a, b
      ensures b in Row(w, a) <==> b in Row(m, a) && !(x == Some(a) && y == Some(b))
    {
      if x == Some(a) && a in m && a !in w && b in m[a] {
        assert y.Some? && b !in m[a] - {y.value};
      }
    }
    var gone: set<(X, Y)> := if x.Some? && y.Some? then {(x.value, y.value)} else {};
    forall a, b
      ensures (a, b) in Pairs(w) <==> (a, b) in Pairs(m) - gone
    {
      assert b in Row(w, a) <==> (a, b) in Pairs(w);
    }
  }

  /** The row of `x`, made if it was missing, with `y` added to it unless `y` is null. */
  function With<X, Y>(m: map<X, set<Y>>, x: Option<X>, y: Option<Y>): map<X, set<Y>> {
    if x.None? then m else m[x.value := if y.Some? then Row(m, x.value) + {y.value} else Row(m, x.value)]
  }

  /** Adding to both maps adds one pair to the relation; a null argument adds at most an empty row. */
  lemma WithPair<X(!new), Y(!new)>(m: map<X, set<Y>>, w: map<Y, set<X>>, x: Option<X>, y: Option<Y>)
    requires Converse(m, w)
    ensures Converse(With(m, x, y), With(w, y, x))
    ensures Pairs(With(m, x, y)) == Pairs(m) + if x.Some? && y.Some? then {(x.value, y.value)} else {}
    ensures NoEmptyRow(m) ==> (NoEmptyRow(With(m, x, y)) <==> x.None? || y.Some? || x.value in m)
  {
    forall a, b
      ensures b in Row(With(m, x, y), a) <==> b in Row(m, a) || (x == Some(a) && y == Some(b))
      ensures a in Row(With(w, y, x), b) <==> a in Row(w, b) || (x == Some(a) && y == Some(b))
    {
    }
    if x.Some? && y.None? && x.value !in m {
      assert With(m, x, y)[x.value] == {};
    }
  }

  class TwoWayMapping<I(==,!new), T(==,!new)> {
    var item2things: map<I, set<T>>
    var thing2items: map<T, set<I>>

    ghost predicate Valid()
      reads this
    {
      Converse(item2things, thing2items)
    }

    /** No row of either map is empty. */
    ghost predicate Tight()
      reads this
    {
      NoEmptyRow(item2things) && NoEmptyRow(thing2items)
    }

    /** The one relation that both maps hold. */
    ghost function Rel(): set<(I, T)>
      reads this
    {
      Pairs(item2things)
    }

    constructor ()
      ensures Valid() && Tight() && Rel() == {}
    {
      item2things := map[];
      thing2items := map[];
    }

    method Item2ThingsGet(item: I) returns (things: set<T>)
      ensures forall t :: t in things <==> (item, t) in Rel()
    {
      things := Row(item2things, item);
    }

    method Thing2ItemsGet(thing: T) returns (items: set<I>)
      requires Valid()
      ensures forall i :: i in items <==> (i, thing) in Rel()
    {
      items := Row(thing2items, thing);
    }

    /** The items that have a thing, and those whose row an `add` with a null thing left empty. */
    method Item2ThingsKeySet() returns (items: set<I>)
      ensures forall i :: i in items <==> (exists t :: (i, t) in Rel()) || (i in item2things && item2things[i] == {})
    {
      items := item2things.Keys;
      forall i | i in items && item2things[i] != {}
        ensures exists t :: (i, t) in Rel()
      {
        var t :| t in item2things[i];
        assert (i, t) in Rel();
      }
    }

    method Thing2ItemsKeySet() returns (things: set<T>)
      requires Valid()
      ensures forall t :: t in things <==> (exists i :: (i, t) in Rel()) || (t in thing2items && thing2items[t] == {})
    {
      things := thing2items.Keys;
      forall t | t in things && thing2items[t] != {}
        ensures exists i :: (i, t) in Rel()
      {
        var i :| i in thing2items[t];
        assert i in Row(thing2items, t);
        assert (i, t) in Rel();
      }
      forall t, i | (i, t) in Rel()
        ensures t in things
      {
        assert i in Row(thing2items, t);
      }
    }

    /**
     Adds the pair.  With one argument null only an empty row is made, so the index stays
     tight exactly when the row of the other argument was there already.
     */
    method Add(item: Option<I>, thing: Option<T>)
      requires Valid()
      modifies this
      ensures Valid()
      ensures Rel() == old(Rel()) + if item.Some? && thing.Some? then {(item.value, thing.value)} else {}
      ensures old(Tight()) ==> (Tight() <==>
                                && (item.Some? && thing.None? ==> item.value in old(item2things))
                                && (item.None? && thing.Some? ==> thing.value in old(thing2items)))
    {
      ghost var before, after := item2things, thing2items;
      if item.Some? {
        AddToRow(item.value, thing);
      }
      if thing.Some? {
        AddToColumn(thing.value, item);
      }
      WithPair(before, after, item, thing);
      WithPair(after, before, thing, item);
    }

    method AddToRow(item: I, thing: Option<T>)
      modifies this`item2things
      ensures item2things == With(old(item2things), Some(item), thing)
    {
      if item !in item2things {
        item2things := item2things[item := {}];
      }
      if thing.Some? {
        item2things := item2things[item := item2things[item] + {thing.value}];
      }
    }

    method AddToColumn(thing: T, item: Option<I>)
      modifies this`thing2items
      ensures thing2items == With(old(thing2items), Some(thing), item)
    {
      if thing !in thing2items {
        thing2items := thing2items[thing := {}];
      }
      if item.Some? {
        thing2items := thing2items[thing := thing2items[thing] + {item.value}];
      }
    }

    /**
     Removes the pair; the orphan names each side whose row is gone because it is empty now.
     With one argument null no pair goes, but an empty row of the other does.
     */
    method Remove(item: Option<I>, thing: Option<T>) returns (orphan: Orphan<I, T>)
      requires Valid()
      modifies this
      ensures Valid()
      ensures Rel() == old(Rel()) - if item.Some? && thing.Some? then {(item.value, thing.value)} else {}
      ensures old(Tight()) ==> Tight()
      ensures item.Some? && item.value in item2things ==> Row(item2things, item.value) != {}
      ensures thing.Some? && thing.value in thing2items ==> Row(thing2items, thing.value) != {}
      ensures orphan.item
           == if item.Some? && item.value in old(item2things) && item.value !in item2things then item else None
      ensures orphan.thing
           == if thing.Some? && thing.value in old(thing2items) && thing.value !in thing2items then thing else None
    {
      hide Without, Pairs, NoEmptyRow, Row;
      WithoutPair(item2things, item, thing);
      WithoutPair(thing2items, thing, item);
      orphan := Orphan(None, None);
      if thing.Some? {
        var gone := RemoveFromColumn(thing.value, item);
        if gone {
          orphan := orphan.(thing := thing);
        }
      }
      if item.Some? {
        var gone := RemoveFromRow(item.value, thing);
        if gone {
          orphan := orphan.(item := item);
        }
      }
      StillConverse(old(item2things), old(thing2items), item, thing);
    }

    lemma StillConverse(m: map<I, set<T>>, w: map<T, set<I>>, item: Option<I>, thing: Option<T>)
      requires Converse(m, w)
      ensures Converse(Without(m, item, thing), Without(w, thing, item))
      ensures item == None ==> Without(m, item, thing) == m
      ensures thing == None ==> Without(w, thing, item) == w
    {
      WithoutPair(m, item, thing);
      WithoutPair(w, thing, item);
    }

    method RemoveFromColumn(thing: T, item: Option<I>) returns (gone: bool)
      modifies this`thing2items
      ensures thing2items == Without(old(thing2items), Some(thing), item)
      ensures gone <==> thing in old(thing2items) && thing !in thing2items
    {
      gone := false;
      if thing in thing2items {
        var items := if item.Some? then thing2items[thing] - {item.value} else thing2items[thing];
        gone := items == {};
        thing2items := if gone then thing2items - {thing} else thing2items[thing := items];
      }
    }

    method RemoveFromRow(item: I, thing: Option<T>) returns (gone: bool)
      modifies this`item2things
      ensures item2things == Without(old(item2things), Some(item), thing)
      ensures gone <==> item in old(item2things) && item !in item2things
    {
      gone := false;
      if item in item2things {
        var things := if thing.Some? then item2things[item] - {thing.value} else item2things[item];
        gone := things == {};
        item2things := if gone then item2things - {item} else item2things[item := things];
      }
    }

    /** Removes a whole row of things and returns it. */
    method RemoveItem(item: I) returns (things: set<T>)
      requires Valid()
      modifies this
      ensures Valid() && (old(Tight()) ==> Tight())
      ensures forall t :: t in things <==> (item, t) in old(Rel())
      ensures Rel() == set p | p in old(Rel()) && p.0 != item
    {
      things := Row(item2things, item);
      var todo := things;
      while todo != {}
        invariant Valid() && (old(Tight()) ==> Tight())
        invariant todo <= things
        invariant Rel() == set p | p in old(Rel()) && !(p.0 == item && p.1 !in todo)
      {
        var thing :| thing in todo;
        var _ := Remove(Some(item), Some(thing));
        todo := todo - {thing};
      }
    }

    /** Removes a whole column of items and returns it. */
    method RemoveThing(thing: T) returns (items: set<I>)
      requires Valid()
      modifies this
      ensures Valid() && (old(Tight()) ==> Tight())
      ensures forall i :: i in items <==> (i, thing) in old(Rel())
      ensures Rel() == set p | p in old(Rel()) && p.1 != thing
    {
      items := Row(thing2items, thing);
      var todo := items;
      while todo != {}
        invariant Valid() && (old(Tight()) ==> Tight())
        invariant todo <= items
        invariant Rel() == set p | p in old(Rel()) && !(p.1 == thing && p.0 !in todo)
      {
        var item :| item in todo;
        var _ := Remove(Some(item), Some(thing));
        todo := todo - {item};
      }
    }
  }
}
