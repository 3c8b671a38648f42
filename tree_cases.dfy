/**
 * An ur-conversation of two tweets: a root and one reply to it.  It shows that the rollup
 * of lines 91-111 of 3_create_tweet_stats_i.py loses the depth of a leaf that was counted
 * before its parent, so `sum_depth` (and with it `mean_depth`) depends on the order in which
 * `count_statistics` visits the tweets, while the fields `TreeReach.Exact` describes do not.
 */
module TreeCases {
  import opened Wrappers
  import opened TreeModel
  import opened TreeReach
  import opened Dispersions

  /** Slot 0 is a root whose only edge is a reply from slot 1, which has no edges. */
  ghost predicate IsPair(g: seq<Node>) {
    && |g| == 2
    && g[0].children == {1} && g[0].urChildren == {}
    && g[1].children == {} && g[1].urChildren == {}
    && g[0].id < g[1].id
  }

  /** Tweet 1 with reply count 3, and tweet 2 replying to it. */
  function Pair(): (g: seq<Node>)
    ensures IsPair(g)
  {
    [Node(1, 10, Counters(3, 0, 0, 0), {1}, {}), Node(2, 20, NoCounters, {}, {})]
  }

  lemma PairArena(g: seq<Node>, st: seq<Option<Aggregate>>)
    requires IsPair(g) && |st| == 2
    ensures Arena(g, st)
  {
  }

  /** The root starts from one reply, which is a leaf, and its own counters. */
  lemma RootSeed(g: seq<Node>)
    requires IsPair(g)
    ensures Seed(g, 0).leafDescendants == 1 && Seed(g, 0).sumDepth == 0
  {
    assert (set x | x in g[0].children && x < |g| && g[x].children == {}) == {1};
  }

  /** The root's aggregate is its seed plus what its reply contributes at depth 1. */
  lemma RootTarget(g: seq<Node>, st: seq<Option<Aggregate>>)
    requires IsPair(g)
    ensures Target(g, st, 0).leafDescendants == Seed(g, 0).leafDescendants + Contribution(g, st, 1, 1, true).leafDescendants
    ensures Target(g, st, 0).sumDepth == Seed(g, 0).sumDepth + Contribution(g, st, 1, 1, true).sumDepth
  {
    SumOverPick(g, st, {1}, 1, true, g[0].id, 1);
    assert {1} - {1} == {};
    assert SumOver(g, st, {1}, 1, true, g[0].id) == Add(Contribution(g, st, 1, 1, true), Zero);
    assert SumOver(g, st, {}, 1, false, g[0].id) == Zero;
  }

  /** A leaf reached unaggregated on a reply path adds its depth and no leaf count. */
  lemma FreshLeaf(g: seq<Node>, st: seq<Option<Aggregate>>, i: nat, depth: int)
    requires i < |g| && g[i].children == {} && g[i].urChildren == {} && Stored(st, i).None?
    ensures Contribution(g, st, i, depth, true).sumDepth == depth
    ensures Contribution(g, st, i, depth, true).leafDescendants == 0
  {
    FreshLeafDepth(g, st, i, depth);
    FreshLeafCount(g, st, i, depth);
  }

  lemma FreshLeafDepth(g: seq<Node>, st: seq<Option<Aggregate>>, i: nat, depth: int)
    requires i < |g| && g[i].children == {} && g[i].urChildren == {} && Stored(st, i).None?
    ensures Contribution(g, st, i, depth, true).sumDepth == depth
  {
    ContributionUnaggregated(g, st, i, depth, true);
  }

  lemma FreshLeafCount(g: seq<Node>, st: seq<Option<Aggregate>>, i: nat, depth: int)
    requires i < |g| && g[i].children == {} && g[i].urChildren == {} && Stored(st, i).None?
    ensures Contribution(g, st, i, depth, true).leafDescendants == 0
  {
    ContributionUnaggregated(g, st, i, depth, true);
  }

  /** A tweet without edges stores no leaves below it and a zero depth sum. */
  lemma LeafRollup(g: seq<Node>, st: seq<Option<Aggregate>>, i: nat)
    requires i < |g| && g[i].children == {} && g[i].urChildren == {}
    ensures Target(g, st, i).sumDepth == 0 && Target(g, st, i).leafDescendants == 0
  {
    ChildlessTarget(g, st, i);
    SeedOfChildless(g, i);
  }

  /** An aggregated node rolled up on a reply path at depth 1 adds its own sums. */
  lemma StoredReply(g: seq<Node>, st: seq<Option<Aggregate>>, a: Aggregate)
    requires IsPair(g) && Stored(st, 1) == Some(a)
    ensures Contribution(g, st, 1, 1, true).sumDepth == a.sumDepth + a.leafDescendants
    ensures Contribution(g, st, 1, 1, true).leafDescendants == a.leafDescendants
  {
  }

  /** The root's aggregate once its reply's contribution is known. */
  lemma RootWith(g: seq<Node>, st: seq<Option<Aggregate>>, x: int)
    requires IsPair(g)
    requires Contribution(g, st, 1, 1, true).sumDepth == x && Contribution(g, st, 1, 1, true).leafDescendants == 0
    ensures Target(g, st, 0).leafDescendants == 1
    ensures Target(g, st, 0).sumDepth == x
  {
    RootSeed(g);
    RootTarget(g, st);
  }

  /** Counting the root first: the walk reaches the reply unaggregated and adds its depth. */
  lemma RootFirst(g: seq<Node>, st: seq<Option<Aggregate>>)
    requires IsPair(g) && |st| == 2 && st[1].None?
    ensures Target(g, st, 0).leafDescendants == 1
    ensures Target(g, st, 0).sumDepth == 1
  {
    FreshLeaf(g, st, 1, 1);
    RootWith(g, st, 1);
  }

  /**
   * Counting the reply first, as the descending id order of line 360 does: the rollup adds
   * `sum_depth + 1 * leaf_descendants` of a leaf, which is 0, so the root's `sum_depth` is 0.
   */
  lemma ReplyFirst(g: seq<Node>, st: seq<Option<Aggregate>>, a: Aggregate)
    requires IsPair(g) && Stored(st, 1) == Some(a) && a.sumDepth == 0 && a.leafDescendants == 0
    ensures Target(g, st, 0).leafDescendants == 1
    ensures Target(g, st, 0).sumDepth == 0
  {
    StoredReply(g, st, a);
    RootWith(g, st, 0);
  }

  /** Nothing counted yet: the state in which the root is counted first. */
  function Blank(): seq<Option<Aggregate>> {
    [None, None]
  }

  /** The state after storing the rollup `a` of the reply alone. */
  function AfterReply(a: Aggregate): seq<Option<Aggregate>> {
    Blank()[1 := Some(a)]
  }

  /**
   * Counting the reply first, as the descending id order does, and then the root stores the
   * same value as counting the root first for every field of `TreeReach.Exact`.
   */
  lemma OrderKeepsExact(g: seq<Node>)
    requires IsPair(g)
    ensures Exact(g, 0, Target(g, Blank(), 0)) && Exact(g, 0, Target(g, AfterReply(Target(g, Blank(), 1)), 0))
  {
    var blank := Blank();
    PairArena(g, blank);
    PairArena(g, AfterReply(Target(g, blank, 1)));
    SettledBlank(g, blank);
    TargetSettles(g, blank, 1);
    TargetExact(g, blank, 0);
    TargetExact(g, AfterReply(Target(g, blank, 1)), 0);
  }

  /** Counted first, the root's `mean_depth` is 1.0: its one leaf is at depth 1. */
  lemma MeanDepthRootFirst(g: seq<Node>)
    requires IsPair(g)
    ensures MeanDepth(Target(g, Blank(), 0).sumDepth, Target(g, Blank(), 0).leafDescendants) == 1.0
  {
    RootFirst(g, Blank());
  }

  /**
   * Counted after its reply, the root's `mean_depth` is 0.0: the reply's stored rollup has
   * no leaves and a zero depth sum, as `LeafRollup` shows for `Target(g, Blank(), 1)`.
   */
  lemma MeanDepthReplyFirst(g: seq<Node>, a: Aggregate)
    requires IsPair(g) && a.sumDepth == 0 && a.leafDescendants == 0
    ensures MeanDepth(Target(g, AfterReply(a), 0).sumDepth, Target(g, AfterReply(a), 0).leafDescendants) == 0.0
  {
    ReplyFirst(g, AfterReply(a), a);
  }
}
