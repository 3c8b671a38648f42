/**
 * What `count_statistics` computes, independently of the order in which the nodes of a
 * group are aggregated.
 *
 * The walk of one node reuses the stored rollups of every node it meets that is already
 * aggregated, so what it computes could a priori depend on which nodes were aggregated
 * before.  `Tally`, `Height` and `UrHeight` are the same quantities defined by plain
 * structural recursion over the arena, without any stored state.  `TargetExact` shows that
 * as long as every stored rollup agrees with them (`Settled`), so does the next one: the
 * descendant and leaf counts, the two maximum depths, the engagement totals and the author
 * sets that end up in the table do not depend on the order of aggregation.  The three
 * remaining fields (`sum_depth`, `ur_sum_depth`, `ur_leaf_descendants`) do; see
 * `TreeCases`.
 */
module TreeReach {
  import opened Wrappers
  import opened TreeModel

  /** The fields of an aggregate that do not depend on depth: counts, totals and author sets. */
  function Flat(a: Aggregate): Aggregate {
    a.(urLeafDescendants := 0, maxDepth := 0, urMaxDepth := 0, sumDepth := 0, urSumDepth := 0)
  }

  /** The flat share of a node met on a frame: its reply-only part counts only on a reply path. */
  function Drop(a: Aggregate, reply: bool): Aggregate {
    if reply then Flat(a)
    else Flat(a).(descendants := 0, leafDescendants := 0, t := NoCounters, tAuthors := {})
  }

  /**
   * The flat fields of node `x` by structural recursion: its own seed, the shares of its
   * reply children on the reply path and those of its retweet/quote children off it.
   */
  ghost function Tally(g: seq<Node>, x: nat): Aggregate
    requires x < |g|
    decreases ID_BOUND - g[x].id, 1, 0
  {
    Add(Flat(Seed(g, x)),
        Add(TallyOver(g, g[x].children, true, g[x].id),
            TallyOver(g, g[x].urChildren, false, g[x].id)))
  }

  ghost function TallyOver(g: seq<Node>, s: set<nat>, reply: bool, lo: int): Aggregate
    decreases ID_BOUND - lo, 0, |s|
  {
    if s == {} then Zero
    else
      var c :| c in s;
      Add(if c < |g| && lo < g[c].id then Drop(Tally(g, c), reply) else Zero,
          TallyOver(g, s - {c}, reply, lo))
  }

  /** The length of the longest chain of reply edges below `x`. */
  ghost function Height(g: seq<Node>, x: nat): nat
    requires x < |g|
    decreases ID_BOUND - g[x].id, 1, 0
  {
    HeightOver(g, g[x].children, g[x].id)
  }

  ghost function HeightOver(g: seq<Node>, s: set<nat>, lo: int): nat
    decreases ID_BOUND - lo, 0, |s|
  {
    if s == {} then 0
    else
      var c :| c in s;
      Max(if c < |g| && lo < g[c].id then Height(g, c) + 1 else 0, HeightOver(g, s - {c}, lo))
  }

  /** The length of the longest chain of edges of either kind below `x`. */
  ghost function UrHeight(g: seq<Node>, x: nat): nat
    requires x < |g|
    decreases ID_BOUND - g[x].id, 1, 0
  {
    Max(UrHeightOver(g, g[x].children, g[x].id), UrHeightOver(g, g[x].urChildren, g[x].id))
  }

  ghost function UrHeightOver(g: seq<Node>, s: set<nat>, lo: int): nat
    decreases ID_BOUND - lo, 0, |s|
  {
    if s == {} then 0
    else
      var c :| c in s;
      Max(if c < |g| && lo < g[c].id then UrHeight(g, c) + 1 else 0, UrHeightOver(g, s - {c}, lo))
  }

  /** `a` holds the order-independent values of node `x`. */
  ghost predicate Exact(g: seq<Node>, x: nat, a: Aggregate)
    requires x < |g|
  {
    Flat(a) == Tally(g, x) && a.maxDepth == Height(g, x) && a.urMaxDepth == UrHeight(g, x)
  }

  /** Every rollup stored so far holds the order-independent values of its node. */
  ghost predicate Settled(g: seq<Node>, st: seq<Option<Aggregate>>) {
    TalliesSettled(g, st) && HeightsSettled(g, st) && UrHeightsSettled(g, st)
  }

  ghost predicate TalliesSettled(g: seq<Node>, st: seq<Option<Aggregate>>) {
    forall j :: 0 <= j < |g| && Stored(st, j).Some? ==> Flat(Stored(st, j).value) == Tally(g, j)
  }

  ghost predicate HeightsSettled(g: seq<Node>, st: seq<Option<Aggregate>>) {
    forall j :: 0 <= j < |g| && Stored(st, j).Some? ==> Stored(st, j).value.maxDepth == Height(g, j)
  }

  ghost predicate UrHeightsSettled(g: seq<Node>, st: seq<Option<Aggregate>>) {
    forall j :: 0 <= j < |g| && Stored(st, j).Some? ==> Stored(st, j).value.urMaxDepth == UrHeight(g, j)
  }

  lemma FlatAdd(a: Aggregate, b: Aggregate)
    ensures Flat(Add(a, b)) == Add(Flat(a), Flat(b))
  {
  }

  lemma DropAdd(a: Aggregate, b: Aggregate, reply: bool)
    ensures Drop(Add(a, b), reply) == Add(Drop(a, reply), Drop(b, reply))
  {
  }

  lemma DropFlat(a: Aggregate, r1: bool, r2: bool)
    ensures Drop(Flat(a), r1) == Drop(a, r1)
    ensures Drop(Drop(a, r1), r2) == Drop(a, r1 && r2)
  {
  }

  lemma FlatRollup(s: Aggregate, depth: int, reply: bool)
    ensures Flat(Rollup(s, depth, reply)) == Drop(s, reply)
  {
  }

  lemma FlatLocal(g: seq<Node>, x: nat, depth: int, reply: bool)
    requires x < |g|
    ensures Flat(Local(g, x, depth, reply)) == Drop(Seed(g, x), reply)
  {
  }

  lemma {:induction false} TallyOverPick(g: seq<Node>, s: set<nat>, reply: bool, lo: int, y: nat)
    requires Above(g, s, lo) && y in s
    ensures TallyOver(g, s, reply, lo) == Add(Drop(Tally(g, y), reply), TallyOver(g, s - {y}, reply, lo))
    decreases |s|
  {
    var c :| c in s && TallyOver(g, s, reply, lo)
                       == Add(Drop(Tally(g, c), reply), TallyOver(g, s - {c}, reply, lo));
    if c != y {
      var rest := s - {c} - {y};
      assert s - {c} - {y} == s - {y} - {c};
      TallyOverPick(g, s - {c}, reply, lo, y);
      TallyOverPick(g, s - {y}, reply, lo, c);
      AddAssociative(Drop(Tally(g, c), reply), Drop(Tally(g, y), reply), TallyOver(g, rest, reply, lo));
      AddAssociative(Drop(Tally(g, y), reply), Drop(Tally(g, c), reply), TallyOver(g, rest, reply, lo));
      AddCommutative(Drop(Tally(g, c), reply), Drop(Tally(g, y), reply));
    }
  }

  lemma {:induction false} HeightOverPick(g: seq<Node>, s: set<nat>, lo: int, y: nat)
    requires Above(g, s, lo) && y in s
    ensures HeightOver(g, s, lo) == Max(Height(g, y) + 1, HeightOver(g, s - {y}, lo))
    decreases |s|
  {
    var c :| c in s && HeightOver(g, s, lo) == Max(Height(g, c) + 1, HeightOver(g, s - {c}, lo));
    if c != y {
      assert s - {c} - {y} == s - {y} - {c};
      HeightOverPick(g, s - {c}, lo, y);
      HeightOverPick(g, s - {y}, lo, c);
      var a, b, r := Height(g, c) + 1, Height(g, y) + 1, HeightOver(g, s - {c} - {y}, lo);
      assert HeightOver(g, s, lo) == Max(a, Max(b, r));
      assert Max(a, Max(b, r)) == Max(b, Max(a, r));
    }
  }

  lemma {:induction false} UrHeightOverPick(g: seq<Node>, s: set<nat>, lo: int, y: nat)
    requires Above(g, s, lo) && y in s
    ensures UrHeightOver(g, s, lo) == Max(UrHeight(g, y) + 1, UrHeightOver(g, s - {y}, lo))
    decreases |s|
  {
    var c :| c in s && UrHeightOver(g, s, lo) == Max(UrHeight(g, c) + 1, UrHeightOver(g, s - {c}, lo));
    if c != y {
      assert s - {c} - {y} == s - {y} - {c};
      UrHeightOverPick(g, s - {c}, lo, y);
      UrHeightOverPick(g, s - {y}, lo, c);
      var a, b, r := UrHeight(g, c) + 1, UrHeight(g, y) + 1, UrHeightOver(g, s - {c} - {y}, lo);
      assert UrHeightOver(g, s, lo) == Max(a, Max(b, r));
      assert Max(a, Max(b, r)) == Max(b, Max(a, r));
    }
  }

  /** Taking the reply part away twice is taking it away once, slot by slot. */
  lemma {:induction false} DropOver(g: seq<Node>, s: set<nat>, r1: bool, r2: bool, lo: int)
    requires Above(g, s, lo)
    ensures Drop(TallyOver(g, s, r1, lo), r2) == TallyOver(g, s, r1 && r2, lo)
    decreases |s|
  {
    if s != {} {
      var y :| y in s;
      TallyOverPick(g, s, r1, lo, y);
      TallyOverPick(g, s, r1 && r2, lo, y);
      DropOver(g, s - {y}, r1, r2, lo);
      DropAdd(Drop(Tally(g, y), r1), TallyOver(g, s - {y}, r1, lo), r2);
      DropFlat(Tally(g, y), r1, r2);
    }
  }

  /** The flat part of what a frame adds is the structural tally of its node. */
  lemma {:induction false} ContributionTally(g: seq<Node>, st: seq<Option<Aggregate>>, x: nat, depth: int, reply: bool)
    requires Arena(g, st) && TalliesSettled(g, st) && x < |g|
    ensures Flat(Contribution(g, st, x, depth, reply)) == Drop(Tally(g, x), reply)
    decreases ID_BOUND - g[x].id, 1, 0
  {
    match Stored(st, x)
    case Some(s) =>
      FlatRollup(s, depth, reply);
      DropFlat(s, reply, reply);
    case None =>
      var n := g[x];
      var a := SumOver(g, st, n.children, depth + 1, reply, n.id);
      var b := SumOver(g, st, n.urChildren, depth + 1, false, n.id);
      var ta := TallyOver(g, n.children, true, n.id);
      var tb := TallyOver(g, n.urChildren, false, n.id);
      KidsAbove(g, x);
      SumOverTally(g, st, n.children, depth + 1, reply, n.id);
      SumOverTally(g, st, n.urChildren, depth + 1, false, n.id);
      DropOver(g, n.children, true, reply, n.id);
      DropOver(g, n.urChildren, false, reply, n.id);
      ContributionUnaggregated(g, st, x, depth, reply);
      FlatAdd(Local(g, x, depth, reply), Add(a, b));
      FlatAdd(a, b);
      FlatLocal(g, x, depth, reply);
      DropAdd(Flat(Seed(g, x)), Add(ta, tb), reply);
      DropAdd(ta, tb, reply);
      DropFlat(Seed(g, x), reply, reply);
  }

  lemma {:induction false} SumOverTally(g: seq<Node>, st: seq<Option<Aggregate>>, s: set<nat>, depth: int, reply: bool, lo: int)
    requires Arena(g, st) && TalliesSettled(g, st) && Above(g, s, lo)
    ensures Flat(SumOver(g, st, s, depth, reply, lo)) == TallyOver(g, s, reply, lo)
    decreases ID_BOUND - lo, 0, |s|
  {
    if s != {} {
      var y :| y in s;
      SumOverPick(g, st, s, depth, reply, lo, y);
      TallyOverPick(g, s, reply, lo, y);
      ContributionTally(g, st, y, depth, reply);
      SumOverTally(g, st, s - {y}, depth, reply, lo);
      FlatAdd(Contribution(g, st, y, depth, reply), SumOver(g, st, s - {y}, depth, reply, lo));
    }
  }

  /** On a reply path, a frame at `depth` reaches `depth` plus the reply height of its node. */
  lemma {:induction false} ContributionHeight(g: seq<Node>, st: seq<Option<Aggregate>>, x: nat, depth: int, reply: bool)
    requires Arena(g, st) && HeightsSettled(g, st) && x < |g| && depth >= 1
    ensures Contribution(g, st, x, depth, reply).maxDepth == if reply then Height(g, x) + depth else 0
    decreases ID_BOUND - g[x].id, 1, 0
  {
    if Stored(st, x).None? {
      KidsAbove(g, x);
      SumOverHeight(g, st, g[x].children, depth + 1, reply, g[x].id);
      SumOverHeight(g, st, g[x].urChildren, depth + 1, false, g[x].id);
      ContributionUnaggregated(g, st, x, depth, reply);
    }
  }

  lemma {:induction false} SumOverHeight(g: seq<Node>, st: seq<Option<Aggregate>>, s: set<nat>, depth: int, reply: bool, lo: int)
    requires Arena(g, st) && HeightsSettled(g, st) && Above(g, s, lo) && depth >= 1
    ensures SumOver(g, st, s, depth, reply, lo).maxDepth
         == if reply && s != {} then HeightOver(g, s, lo) + depth - 1 else 0
    decreases ID_BOUND - lo, 0, |s|
  {
    if s != {} {
      var y :| y in s;
      var a := Contribution(g, st, y, depth, reply);
      var rest := SumOver(g, st, s - {y}, depth, reply, lo);
      SumOverPick(g, st, s, depth, reply, lo, y);
      assert SumOver(g, st, s, depth, reply, lo).maxDepth == Max(a.maxDepth, rest.maxDepth);
      HeightOverPick(g, s, lo, y);
      ContributionHeight(g, st, y, depth, reply);
      SumOverHeight(g, st, s - {y}, depth, reply, lo);
      assert HeightOver(g, s, lo) == Max(Height(g, y) + 1, HeightOver(g, s - {y}, lo));
      if s - {y} == {} {
        assert rest.maxDepth == 0 && HeightOver(g, s - {y}, lo) == 0;
      }
    }
  }

  /** On any path, a frame at `depth` reaches `depth` plus the height of its node over both edge kinds. */
  lemma {:induction false} ContributionUrHeight(g: seq<Node>, st: seq<Option<Aggregate>>, x: nat, depth: int, reply: bool)
    requires Arena(g, st) && UrHeightsSettled(g, st) && x < |g| && depth >= 1
    ensures Contribution(g, st, x, depth, reply).urMaxDepth == UrHeight(g, x) + depth
    decreases ID_BOUND - g[x].id, 1, 0
  {
    if Stored(st, x).None? {
      KidsAbove(g, x);
      SumOverUrHeight(g, st, g[x].children, depth + 1, reply, g[x].id);
      SumOverUrHeight(g, st, g[x].urChildren, depth + 1, false, g[x].id);
      ContributionUnaggregated(g, st, x, depth, reply);
    }
  }

  lemma {:induction false} SumOverUrHeight(g: seq<Node>, st: seq<Option<Aggregate>>, s: set<nat>, depth: int, reply: bool, lo: int)
    requires Arena(g, st) && UrHeightsSettled(g, st) && Above(g, s, lo) && depth >= 1
    ensures SumOver(g, st, s, depth, reply, lo).urMaxDepth
         == if s != {} then UrHeightOver(g, s, lo) + depth - 1 else 0
    decreases ID_BOUND - lo, 0, |s|
  {
    if s != {} {
      var y :| y in s;
      var a := Contribution(g, st, y, depth, reply);
      var rest := SumOver(g, st, s - {y}, depth, reply, lo);
      SumOverPick(g, st, s, depth, reply, lo, y);
      assert SumOver(g, st, s, depth, reply, lo).urMaxDepth == Max(a.urMaxDepth, rest.urMaxDepth);
      UrHeightOverPick(g, s, lo, y);
      ContributionUrHeight(g, st, y, depth, reply);
      SumOverUrHeight(g, st, s - {y}, depth, reply, lo);
      assert UrHeightOver(g, s, lo) == Max(UrHeight(g, y) + 1, UrHeightOver(g, s - {y}, lo));
      if s - {y} == {} {
        assert rest.urMaxDepth == 0 && UrHeightOver(g, s - {y}, lo) == 0;
      }
    }
  }

  /**
   * Whatever has been aggregated before, as long as it was aggregated exactly, the rollups
   * `count_statistics` computes for slot `k` are exact too.
   */
  lemma TargetExact(g: seq<Node>, st: seq<Option<Aggregate>>, k: nat)
    requires Arena(g, st) && Settled(g, st) && k < |g|
    ensures Exact(g, k, Target(g, st, k))
  {
    var n := g[k];
    var a := SumOver(g, st, n.children, 1, true, n.id);
    var b := SumOver(g, st, n.urChildren, 1, false, n.id);
    KidsAbove(g, k);
    SumOverTally(g, st, n.children, 1, true, n.id);
    SumOverTally(g, st, n.urChildren, 1, false, n.id);
    FlatAdd(Seed(g, k), Add(a, b));
    FlatAdd(a, b);
    SumOverHeight(g, st, n.children, 1, true, n.id);
    SumOverHeight(g, st, n.urChildren, 1, false, n.id);
    SumOverUrHeight(g, st, n.children, 1, true, n.id);
    SumOverUrHeight(g, st, n.urChildren, 1, false, n.id);
  }

  /** Storing an exact rollup keeps the stored state settled. */
  lemma SettledStore(g: seq<Node>, st: seq<Option<Aggregate>>, k: nat, a: Aggregate)
    requires |st| == |g| && Settled(g, st) && k < |g| && Exact(g, k, a)
    ensures Settled(g, st[k := Some(a)])
  {
    var st2 := st[k := Some(a)];
    forall j | 0 <= j < |g| && j != k
      ensures Stored(st2, j) == Stored(st, j)
    {
    }
  }

  /** Storing what `count_statistics` computes keeps the stored state settled. */
  lemma TargetSettles(g: seq<Node>, st: seq<Option<Aggregate>>, k: nat)
    requires Arena(g, st) && k < |g|
    ensures Settled(g, st) ==> Settled(g, st[k := Some(Target(g, st, k))])
  {
    if Settled(g, st) {
      TargetExact(g, st, k);
      SettledStore(g, st, k, Target(g, st, k));
    }
  }

  /** Nothing aggregated yet: trivially settled. */
  lemma SettledBlank(g: seq<Node>, st: seq<Option<Aggregate>>)
    requires forall j :: 0 <= j < |st| ==> st[j].None?
    ensures Settled(g, st)
  {
  }
}
