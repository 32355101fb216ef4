/**
 The levels of the tracker and their update, which refreshes the levels from the smallest up
 and stops at the first whose channel has not changed; and why that early stop is sound.
 */
module TrackerLevels {
  import opened QuadSpaces
  import opened QuadNeighbours
  import opened TrackerCells

  // --- the levels and their update ---

  /** What a level remembers: its publish channel and the channels it is subscribed to. */
  datatype View = View(name: string, spaces: set<string>)

  const NEW_VIEW := View("", {})

  function Fresh(p: Vec, level: nat): View { View(Channel(p, level), Around(p, Bias(level))) }

  /** The first level, from `i` on, whose channel is the one of the position already. */
  function FirstSame(views: seq<View>, p: Vec, i: nat): (k: nat)
    requires i <= |views|
    ensures i <= k <= |views|
    decreases |views| - i
  {
    if i == |views| || views[i].name == Channel(p, i) then i else FirstSame(views, p, i + 1)
  }

  lemma {:induction false} FirstSameMeans(views: seq<View>, p: Vec, i: nat)
    requires i <= |views|
    ensures var k := FirstSame(views, p, i);
            && (forall j :: i <= j < k ==> views[j].name != Channel(p, j))
            && (k < |views| ==> views[k].name == Channel(p, k))
    decreases |views| - i
  {
    hide Channel;
    if i < |views| && views[i].name != Channel(p, i) {
      FirstSameMeans(views, p, i + 1);
    }
  }

  /** The levels below `k` refreshed at the position, the others as they were. */
  function Refreshed(views: seq<View>, p: Vec, k: nat): (views': seq<View>)
    requires k <= |views|
    ensures |views'| == |views|
    ensures forall j :: 0 <= j < |views| ==> views'[j] == if j < k then Fresh(p, j) else views[j]
  {
    seq(|views|, j requires 0 <= j < |views| => if j < k then Fresh(p, j) else views[j])
  }

  function Updated(views: seq<View>, p: Vec): seq<View> { Refreshed(views, p, FirstSame(views, p, 0)) }

  lemma NextRefreshed(views: seq<View>, p: Vec, k: nat)
    requires k < |views|
    ensures Refreshed(views, p, k)[k := Fresh(p, k)] == Refreshed(views, p, k + 1)
  {
    var a := Refreshed(views, p, k)[k := Fresh(p, k)];
    var b := Refreshed(views, p, k + 1);
    forall j | 0 <= j < |views|
      ensures a[j] == b[j]
    {
    }
  }

  /** The channels of the levels below `k`. */
  function SpacesBelow(views: seq<View>, k: nat): set<string>
    requires k <= |views|
  {
    set j, s | 0 <= j < k && s in views[j].spaces :: s
  }

  /** All channels of all levels. */
  function AllSpaces(views: seq<View>): set<string> { SpacesBelow(views, |views|) }

  // --- the early break ---

  /** Where on the path the level was last refreshed: where the player came to a position not alike the one before. */
  function RefreshedAt(path: seq<Vec>, level: nat): (p: Vec)
    requires path != []
    ensures p in path
    decreases |path|
  {
    var front, last := path[..|path| - 1], path[|path| - 1];
    if front == [] || !Alike(front[|front| - 1], last, level) then last else RefreshedAt(front, level)
  }

  lemma {:induction false} RefreshedAtIsAlike(path: seq<Vec>, level: nat)
    requires path != []
    ensures Alike(RefreshedAt(path, level), path[|path| - 1], level)
    decreases |path|
  {
    var front := path[..|path| - 1];
    if front != [] {
      RefreshedAtIsAlike(front, level);
    }
  }

  lemma RefreshedAtNext(path: seq<Vec>, q: Vec, level: nat)
    requires path != []
    ensures RefreshedAt(path + [q], level)
            == if Alike(path[|path| - 1], q, level) then RefreshedAt(path, level) else q
  {
    hide Alike;
    assert (path + [q])[..|path|] == path;
  }

  /** Every level is as its last refresh on the path has left it. */
  ghost predicate UpToDate(views: seq<View>, path: seq<Vec>) {
    path != [] && |views| == LEVELS && forall j :: 0 <= j < LEVELS ==> views[j] == Fresh(RefreshedAt(path, j), j)
  }

  /** A level keeps its channel exactly if it, or a smaller one, was refreshed at a position alike. */
  lemma KeptLevelIsAlike(views: seq<View>, path: seq<Vec>, q: Vec, j: nat)
    requires UpToDate(views, path) && j < LEVELS
    ensures FirstSame(views, q, 0) <= j <==> Alike(path[|path| - 1], q, j)
  {
    hide Channel, Around, SmallCell, QuadsW, RefreshedAt;
    var k, last := FirstSame(views, q, 0), path[|path| - 1];
    FirstSameMeans(views, q, 0);
    var i := if k <= j then k else j;
    assert views[i] == Fresh(RefreshedAt(path, i), i);
    RefreshedAtIsAlike(path, i);
    ChannelsTell(RefreshedAt(path, i), q, i);
  }

  /** One update keeps every level up to date, whatever the position. */
  lemma UpdateKeepsUpToDate(views: seq<View>, path: seq<Vec>, q: Vec)
    requires UpToDate(views, path)
    ensures UpToDate(Updated(views, q), path + [q])
  {
    hide Channel, Around, Alike, RefreshedAt;
    forall j | 0 <= j < LEVELS
      ensures Updated(views, q)[j] == Fresh(RefreshedAt(path + [q], j), j)
    {
      KeptLevelIsAlike(views, path, q, j);
      RefreshedAtNext(path, q, j);
    }
  }

  lemma ChannelIsNotEmpty(p: Vec, level: nat)
    ensures Channel(p, level) != ""
  {
  }

  lemma {:induction false} AllAreNew(views: seq<View>, p: Vec, i: nat)
    requires i <= |views| && forall j :: 0 <= j < |views| ==> views[j].name == ""
    ensures FirstSame(views, p, i) == |views|
    decreases |views| - i
  {
    hide Channel;
    if i < |views| {
      ChannelIsNotEmpty(p, i);
      AllAreNew(views, p, i + 1);
    }
  }

  function NewViews(): (views: seq<View>)
    ensures |views| == LEVELS && forall j :: 0 <= j < LEVELS ==> views[j] == NEW_VIEW
  {
    seq(LEVELS, _ => NEW_VIEW)
  }

  /** The first update refreshes every level. */
  lemma FirstUpdate(p: Vec)
    ensures var views := Updated(NewViews(), p);
            |views| == LEVELS && forall j :: 0 <= j < LEVELS ==> views[j] == Fresh(p, j)
  {
    hide Channel, Around;
    AllAreNew(NewViews(), p, 0);
  }

  /** The levels after a sequence of updates. */
  function AfterUpdates(path: seq<Vec>): seq<View>
    decreases |path|
  {
    if path == [] then NewViews() else Updated(AfterUpdates(path[..|path| - 1]), path[|path| - 1])
  }

  lemma AfterOneMore(path: seq<Vec>, q: Vec)
    ensures AfterUpdates(path + [q]) == Updated(AfterUpdates(path), q)
  {
    hide Updated;
    assert (path + [q])[..|path|] == path;
  }

  lemma {:induction false} PathIsUpToDate(path: seq<Vec>)
    requires path != []
    ensures UpToDate(AfterUpdates(path), path)
    decreases |path|
  {
    hide Updated, Fresh, Alike;
    var front, q := path[..|path| - 1], path[|path| - 1];
    assert path == front + [q];
    AfterOneMore(front, q);
    if front == [] {
      FirstUpdate(q);
    } else {
      PathIsUpToDate(front);
      UpdateKeepsUpToDate(AfterUpdates(front), front, q);
    }
  }

  /** After the path the level is subscribed to the cell the player is in then. */
  ghost predicate Subscribed(path: seq<Vec>, level: nat)
    requires path != []
  {
    level < |AfterUpdates(path)| && CellName(path[|path| - 1], Bias(level)) in AfterUpdates(path)[level].spaces
  }

  /**
   After any path of any positions, a level is subscribed to the player's own cell if and only
   if that cell is among those around the position where the level was last refreshed.
   */
  lemma SubscribedMeans(path: seq<Vec>, level: nat)
    requires path != [] && level < LEVELS
    ensures Subscribed(path, level)
            <==> CellName(path[|path| - 1], Bias(level)) in Around(RefreshedAt(path, level), Bias(level))
  {
    hide CellName, Around, Channel, RefreshedAt, AfterUpdates;
    PathIsUpToDate(path);
  }

  /**
   After any sequence of steady positions every one of the six levels is subscribed to the
   player's own cell at that level, although each update stopped at its first unchanged level.
   */
  lemma OwnCellIsSubscribed(path: seq<Vec>, level: nat)
    requires path != [] && level < LEVELS && forall n :: 0 <= n < |path| ==> Steady(path[n])
    ensures Subscribed(path, level)
  {
    hide CellOf, CellName, Channel, Around, SmallCell, ListLength, Subscribed, RefreshedAt;
    var p, q := RefreshedAt(path, level), path[|path| - 1];
    SubscribedMeans(path, level);
    RefreshedAtIsAlike(path, level);
    assert Steady(p) && Steady(q);
    AlikeQuartered(p, q, level);
    NamesTell(p, q, Bias(level));
    OwnCellIsAround(p, Bias(level));
  }

  /** Of two positions, any two: the second finds the level refreshed, or its cell around the first. */
  lemma PairIsSubscribed(p: Vec, q: Vec, level: nat)
    requires level < LEVELS
    ensures Subscribed([p] + [q], level)
            <==> (Alike(p, q, level) ==> CellName(q, Bias(level)) in Around(p, Bias(level)))
  {
    hide CellName, Around, Alike, Subscribed;
    var path := [p] + [q];
    SubscribedMeans(path, level);
    RefreshedAtNext([p], q, level);
    OwnCellIsAround(q, Bias(level));
    assert RefreshedAt([p], level) == p;
  }

  /** If every position of a path is a safe one to come from, so is the path. */
  lemma PairsAreEnough(path: seq<Vec>, q: Vec, level: nat)
    requires level < LEVELS && forall n :: 0 <= n < |path| ==> Subscribed([path[n]] + [q], level)
    ensures Subscribed(path + [q], level)
  {
    hide CellName, Around, Alike, Subscribed, RefreshedAt;
    var p := RefreshedAt(path + [q], level);
    RefreshedAtIsAlike(path + [q], level);
    SubscribedMeans(path + [q], level);
    if p == q {
      OwnCellIsAround(q, Bias(level));
    } else {
      var n :| 0 <= n < |path| && path[n] == p;
      PairIsSubscribed(p, q, level);
    }
  }
}
