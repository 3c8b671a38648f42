/**
 * The per-tweet nodes of an ur-conversation and the walk that `Tree.count_statistics`
 * performs over them, written as specification functions.
 *
 * A group of tweets is an arena: `g: seq<Node>` holds what the builder wires up (id,
 * author, own counters, `children` reply edges and `urChildren` retweet/quote edges as
 * sets of arena slots), and `st: seq<Option<Aggregate>>` holds, per slot, the fields that
 * `count_statistics` fills in (`None` where the source still has the sentinel -1).
 * The walk is described one stack frame at a time: `Contribution` is what popping a frame
 * adds to the running aggregate of the node being counted, and `SumOver` folds it over a
 * set of sibling slots.
 */
module TreeModel {
  import opened Wrappers

  /** Tweet ids are BIGINT UNSIGNED columns. */
  const ID_BOUND: int := 0x1_0000_0000_0000_0000

  type TweetId = x: int | 0 <= x < ID_BOUND

  /** The four engagement counters of a tweet, or their totals over a subtree. */
  datatype Counters = Counters(reply: int, quote: int, like: int, retweet: int)
  {
    predicate NonNegative() {
      reply >= 0 && quote >= 0 && like >= 0 && retweet >= 0
    }

    /** Every counter is non-negative and at most the same counter of `b`. */
    predicate Within(b: Counters) {
      0 <= reply <= b.reply && 0 <= quote <= b.quote && 0 <= like <= b.like && 0 <= retweet <= b.retweet
    }
  }

  const NoCounters := Counters(0, 0, 0, 0)

  /**
   * The fields that `count_statistics` fills in, for the reply-only view and the `ur_`
   * view (reply edges plus retweet/quote edges).
   */
  datatype Aggregate = Aggregate(
    descendants: int, urDescendants: int,
    leafDescendants: int, urLeafDescendants: int,
    maxDepth: int, urMaxDepth: int,
    sumDepth: int, urSumDepth: int,
    t: Counters, urT: Counters,
    tAuthors: set<int>, urTAuthors: set<int>)

  /** The dispersion fields that `count_mads` fills in. */
  datatype Dispersion = Dispersion(
    madReply: real, urMadReply: real,
    madQuote: real, urMadQuote: real,
    madLike: real, urMadLike: real,
    madRetweet: real, urMadRetweet: real,
    madDepth: real, urMadDepth: real,
    madTAuthors: real, urMadTAuthors: real)

  /** The structural part of one `Tree` object: what the builder sets. */
  datatype Node = Node(
    id: TweetId, authorId: int, own: Counters,
    children: set<nat>, urChildren: set<nat>)
  {
    function Kids(): set<nat> { children + urChildren }
  }

  /** The object `Tree(id)` creates: author -1, zero counters, no edges. */
  function NewNode(id: TweetId): (n: Node)
    ensures n.id == id && n.Kids() == {} && n.authorId == -1 && n.own == NoCounters
  {
    Node(id, -1, NoCounters, {}, {})
  }

  /**
   * Every edge stays inside the arena and leads to a larger tweet id (a reply, retweet
   * or quote is younger than the tweet it refers to), so the graph is acyclic.
   */
  ghost predicate WellFormed(g: seq<Node>) {
    && (forall i, c {:trigger c in g[i].children} ::
          0 <= i < |g| && c in g[i].children ==> c < |g| && g[i].id < g[c].id)
    && (forall i, c {:trigger c in g[i].urChildren} ::
          0 <= i < |g| && c in g[i].urChildren ==> c < |g| && g[i].id < g[c].id)
  }

  /** Every slot in `s` is in the arena and has a tweet id above `lo`. */
  ghost predicate Above(g: seq<Node>, s: set<nat>, lo: int) {
    forall c :: c in s ==> c < |g| && lo < g[c].id
  }

  lemma KidsAbove(g: seq<Node>, i: nat)
    requires WellFormed(g) && i < |g|
    ensures Above(g, g[i].children, g[i].id) && Above(g, g[i].urChildren, g[i].id)
  {
  }

  /** `reduce(... if len(node.children) == 0 ...)`: slots of `s` without reply children. */
  function LeafCount(g: seq<Node>, s: set<nat>): (n: nat)
    ensures n <= |s|
  {
    var leaves := set c | c in s && c < |g| && g[c].children == {};
    SubsetCardinality(leaves, s);
    |leaves|
  }

  /** The test of line 71: slots of `s` with neither reply nor retweet/quote children. */
  function StrictLeafCount(g: seq<Node>, s: set<nat>): (n: nat)
    ensures n <= LeafCount(g, s)
  {
    var leaves := set c | c in s && c < |g| && g[c].children == {} && g[c].urChildren == {};
    SubsetCardinality(leaves, set c | c in s && c < |g| && g[c].children == {});
    |leaves|
  }

  lemma {:induction false} SubsetCardinality<T>(a: set<T>, b: set<T>)
    requires a <= b
    ensures |a| <= |b|
    decreases |b|
  {
    if a != {} {
      var x :| x in a;
      SubsetCardinality(a - {x}, b - {x});
    }
  }

  const Zero := Aggregate(0, 0, 0, 0, 0, 0, 0, 0, NoCounters, NoCounters, {}, {})

  function Max(a: int, b: int): int { if a < b then b else a }

  /** Folding two contributions together: counts and totals add, depths take the maximum, author sets unite. */
  function Add(a: Aggregate, b: Aggregate): Aggregate {
    Aggregate(
      a.descendants + b.descendants, a.urDescendants + b.urDescendants,
      a.leafDescendants + b.leafDescendants, a.urLeafDescendants + b.urLeafDescendants,
      Max(a.maxDepth, b.maxDepth), Max(a.urMaxDepth, b.urMaxDepth),
      a.sumDepth + b.sumDepth, a.urSumDepth + b.urSumDepth,
      Counters(a.t.reply + b.t.reply, a.t.quote + b.t.quote, a.t.like + b.t.like, a.t.retweet + b.t.retweet),
      Counters(a.urT.reply + b.urT.reply, a.urT.quote + b.urT.quote, a.urT.like + b.urT.like, a.urT.retweet + b.urT.retweet),
      a.tAuthors + b.tAuthors, a.urTAuthors + b.urTAuthors)
  }

  /** Lines 66-84: the values a node starts from before its stack walk. */
  function Seed(g: seq<Node>, i: nat): (a: Aggregate)
    requires i < |g|
  {
    var n := g[i];
    var leaves := LeafCount(g, n.children);
    Aggregate(
      |n.children|, |n.children| + |n.urChildren|,
      leaves, leaves + StrictLeafCount(g, n.urChildren),
      0, 0, 0, 0,
      n.own, n.own, {n.authorId}, {n.authorId})
  }

  /** Lines 91-111: a popped frame whose node is already aggregated adds its stored rollups. */
  function Rollup(s: Aggregate, depth: int, reply: bool): Aggregate {
    Aggregate(
      if reply then s.descendants else 0, s.urDescendants,
      if reply then s.leafDescendants else 0, s.urLeafDescendants,
      if reply then s.maxDepth + depth else 0, s.urMaxDepth + depth,
      if reply then s.sumDepth + depth * s.leafDescendants else 0,
      s.urSumDepth + depth * s.urLeafDescendants,
      if reply then s.t else NoCounters, s.urT,
      if reply then s.tAuthors else {}, s.urTAuthors)
  }

  /** Lines 113-137: a popped frame whose node is not aggregated adds its own raw fields. */
  function Local(g: seq<Node>, i: nat, depth: int, reply: bool): Aggregate
    requires i < |g|
  {
    var n := g[i];
    var leaves := LeafCount(g, n.children);
    var replyLeaf := reply && n.children == {};
    var urLeaf := n.children == {} && n.urChildren == {};
    Aggregate(
      if reply then |n.children| else 0, |n.children| + |n.urChildren|,
      if reply then leaves else 0, leaves + LeafCount(g, n.urChildren),
      if replyLeaf then depth else 0, if urLeaf then depth else 0,
      if replyLeaf then depth else 0, if urLeaf then depth else 0,
      if reply then n.own else NoCounters, n.own,
      if reply then {n.authorId} else {}, {n.authorId})
  }

  /** The arena and the per-slot computed state have the same length. */
  ghost predicate Arena(g: seq<Node>, st: seq<Option<Aggregate>>) {
    WellFormed(g) && |st| == |g|
  }

  /** What `count_statistics` has stored for slot `i`, if anything. */
  function Stored(st: seq<Option<Aggregate>>, i: nat): Option<Aggregate> {
    if i < |st| then st[i] else None
  }

  /**
   * What a stack frame `(i, depth, reply)` adds to the aggregate by the time the walk has
   * emptied everything it pushes: the stored rollups of an aggregated node, otherwise its
   * own fields plus the frames pushed for its children (line 138) and ur-children (line 139).
   */
  ghost function Contribution(g: seq<Node>, st: seq<Option<Aggregate>>, i: nat, depth: int, reply: bool): Aggregate
    decreases if i < |g| then ID_BOUND - g[i].id else 0, 1, 0
  {
    if i >= |g| then Zero
    else match Stored(st, i)
      case Some(s) => Rollup(s, depth, reply)
      case None =>
        Add(Local(g, i, depth, reply),
            Add(SumOver(g, st, g[i].children, depth + 1, reply, g[i].id),
                SumOver(g, st, g[i].urChildren, depth + 1, false, g[i].id)))
  }

  /**
   * The contributions of the frames `(c, depth, reply)` for every slot `c` of `s`; a slot
   * outside the arena or not above `lo` (which a well-formed arena never has) adds nothing.
   */
  ghost function SumOver(g: seq<Node>, st: seq<Option<Aggregate>>, s: set<nat>, depth: int, reply: bool, lo: int): Aggregate
    decreases ID_BOUND - lo, 0, |s|
  {
    if s == {} then Zero
    else
      var c :| c in s;
      Add(if c < |g| && lo < g[c].id then Contribution(g, st, c, depth, reply) else Zero,
          SumOver(g, st, s - {c}, depth, reply, lo))
  }

  /** An unaggregated node contributes its own fields and everything below it. */
  lemma ContributionUnaggregated(g: seq<Node>, st: seq<Option<Aggregate>>, i: nat, depth: int, reply: bool)
    requires i < |g| && Stored(st, i).None?
    ensures Contribution(g, st, i, depth, reply)
         == Add(Local(g, i, depth, reply),
                Add(SumOver(g, st, g[i].children, depth + 1, reply, g[i].id),
                    SumOver(g, st, g[i].urChildren, depth + 1, false, g[i].id)))
  {
  }

  /** The aggregate `count_statistics` stores for slot `i` (lines 65-139). */
  ghost function Target(g: seq<Node>, st: seq<Option<Aggregate>>, i: nat): Aggregate
    requires i < |g|
  {
    Add(Seed(g, i),
        Add(SumOver(g, st, g[i].children, 1, true, g[i].id),
            SumOver(g, st, g[i].urChildren, 1, false, g[i].id)))
  }

  lemma AddAssociative(a: Aggregate, b: Aggregate, c: Aggregate)
    ensures Add(Add(a, b), c) == Add(a, Add(b, c))
  {
  }

  lemma AddCommutative(a: Aggregate, b: Aggregate)
    ensures Add(a, b) == Add(b, a)
  {
  }

  /** The fold does not depend on which slot `SumOver` happens to pick first. */
  lemma {:induction false} SumOverPick(g: seq<Node>, st: seq<Option<Aggregate>>, s: set<nat>, depth: int, reply: bool, lo: int, y: nat)
    requires Above(g, s, lo) && y in s
    ensures SumOver(g, st, s, depth, reply, lo)
         == Add(Contribution(g, st, y, depth, reply), SumOver(g, st, s - {y}, depth, reply, lo))
    decreases |s|
  {
    var c :| c in s && SumOver(g, st, s, depth, reply, lo)
                       == Add(Contribution(g, st, c, depth, reply), SumOver(g, st, s - {c}, depth, reply, lo));
    if c != y {
      var rest := s - {c} - {y};
      assert s - {c} - {y} == s - {y} - {c};
      SumOverPick(g, st, s - {c}, depth, reply, lo, y);
      SumOverPick(g, st, s - {y}, depth, reply, lo, c);
      AddAssociative(Contribution(g, st, c, depth, reply), Contribution(g, st, y, depth, reply), SumOver(g, st, rest, depth, reply, lo));
      AddAssociative(Contribution(g, st, y, depth, reply), Contribution(g, st, c, depth, reply), SumOver(g, st, rest, depth, reply, lo));
      AddCommutative(Contribution(g, st, c, depth, reply), Contribution(g, st, y, depth, reply));
    }
  }

  /** One entry `(cur_node, cur_depth, cur_reply)` of the explicit stack. */
  datatype Frame = Frame(node: nat, depth: int, reply: bool)

  /** The slots named by a sequence of frames. */
  function NodesOf(fs: seq<Frame>): set<nat> {
    set k | 0 <= k < |fs| :: fs[k].node
  }

  /**
   * `fs` lists every slot of `s` exactly once, each with the given depth and flag, in some
   * order: what `[(child, depth, reply) for child in s]` builds from a set.
   */
  ghost predicate Enumerates(fs: seq<Frame>, s: set<nat>, depth: int, reply: bool) {
    && |fs| == |s|
    && NodesOf(fs) == s
    && (forall k :: 0 <= k < |fs| ==> fs[k].depth == depth && fs[k].reply == reply)
    && (forall k, l :: 0 <= k < l < |fs| ==> fs[k].node != fs[l].node)
  }

  ghost predicate FramesIn(g: seq<Node>, fs: seq<Frame>) {
    forall k :: 0 <= k < |fs| ==> fs[k].node < |g|
  }

  /** The contributions of every frame on a stack. */
  ghost function StackSum(g: seq<Node>, st: seq<Option<Aggregate>>, fs: seq<Frame>): Aggregate
  {
    if fs == [] then Zero
    else
      var e := fs[|fs| - 1];
      Add(StackSum(g, st, fs[..|fs| - 1]), Contribution(g, st, e.node, e.depth, e.reply))
  }

  lemma AddZero(a: Aggregate)
    requires a.maxDepth >= 0 && a.urMaxDepth >= 0
    ensures Add(a, Zero) == a && Add(Zero, a) == a
  {
  }

  lemma {:induction false} StackSumDepths(g: seq<Node>, st: seq<Option<Aggregate>>, fs: seq<Frame>)
    ensures StackSum(g, st, fs).maxDepth >= 0 && StackSum(g, st, fs).urMaxDepth >= 0
    decreases |fs|
  {
    if fs != [] {
      StackSumDepths(g, st, fs[..|fs| - 1]);
    }
  }

  lemma StackSumLast(g: seq<Node>, st: seq<Option<Aggregate>>, fs: seq<Frame>)
    requires fs != []
    ensures StackSum(g, st, fs)
         == Add(StackSum(g, st, fs[..|fs| - 1]), Contribution(g, st, fs[|fs| - 1].node, fs[|fs| - 1].depth, fs[|fs| - 1].reply))
  {
  }

  lemma {:induction false} StackSumAppend(g: seq<Node>, st: seq<Option<Aggregate>>, a: seq<Frame>, b: seq<Frame>)
    ensures StackSum(g, st, a + b) == Add(StackSum(g, st, a), StackSum(g, st, b))
    decreases |b|
  {
    if b == [] {
      assert a + b == a;
      StackSumDepths(g, st, a);
      AddZero(StackSum(g, st, a));
    } else {
      var e := b[|b| - 1];
      var b' := b[..|b| - 1];
      var ce := Contribution(g, st, e.node, e.depth, e.reply);
      assert (a + b)[..|a + b| - 1] == a + b';
      assert (a + b)[|a + b| - 1] == e;
      StackSumLast(g, st, a + b);
      StackSumAppend(g, st, a, b');
      calc {
        StackSum(g, st, a + b);
        Add(StackSum(g, st, a + b'), ce);
        Add(Add(StackSum(g, st, a), StackSum(g, st, b')), ce);
        { AddAssociative(StackSum(g, st, a), StackSum(g, st, b'), ce); }
        Add(StackSum(g, st, a), Add(StackSum(g, st, b'), ce));
        Add(StackSum(g, st, a), StackSum(g, st, b));
      }
    }
  }

  /** Dropping the last frame of an enumeration enumerates the set without that slot. */
  lemma EnumeratesFront(fs: seq<Frame>, s: set<nat>, depth: int, reply: bool)
    requires Enumerates(fs, s, depth, reply) && fs != []
    ensures fs[|fs| - 1].node in s
    ensures Enumerates(fs[..|fs| - 1], s - {fs[|fs| - 1].node}, depth, reply)
  {
    var n := |fs| - 1;
    var e := fs[n];
    var front := fs[..n];
    assert e.node in NodesOf(fs);
    assert NodesOf(front) == s - {e.node} by {
      forall x | x in s - {e.node} ensures x in NodesOf(front) {
        assert x in NodesOf(fs);
        var k :| 0 <= k < |fs| && fs[k].node == x;
      }
    }
  }

  /** The stack frames pushed for a set of siblings contribute exactly `SumOver` of that set. */
  lemma {:induction false} StackSumEnumerates(g: seq<Node>, st: seq<Option<Aggregate>>, fs: seq<Frame>, s: set<nat>, depth: int, reply: bool, lo: int)
    requires Above(g, s, lo) && Enumerates(fs, s, depth, reply)
    ensures FramesIn(g, fs)
    ensures StackSum(g, st, fs) == SumOver(g, st, s, depth, reply, lo)
    decreases |fs|
  {
    assert forall k :: 0 <= k < |fs| ==> fs[k].node in NodesOf(fs);
    if fs != [] {
      var n := |fs| - 1;
      var e := fs[n];
      var front := fs[..n];
      EnumeratesFront(fs, s, depth, reply);
      StackSumEnumerates(g, st, front, s - {e.node}, depth, reply, lo);
      var ce := Contribution(g, st, e.node, depth, reply);
      calc {
        StackSum(g, st, fs);
        { StackSumLast(g, st, fs); }
        Add(StackSum(g, st, front), ce);
        { AddCommutative(StackSum(g, st, front), ce); }
        Add(ce, SumOver(g, st, s - {e.node}, depth, reply, lo));
        { SumOverPick(g, st, s, depth, reply, lo, e.node); }
        SumOver(g, st, s, depth, reply, lo);
      }
    }
  }

  /**
   * The inequalities every aggregate satisfies (the sanity check of line 246 among them):
   * the reply tree is part of the ur tree, so each of its counts, totals and authors is
   * within the `ur_` one (lines 91 and 102, 113 and 122 add every reply share to both).
   */
  ghost predicate Bounded(a: Aggregate) {
    && 0 <= a.leafDescendants <= a.descendants <= a.urDescendants
    && a.leafDescendants <= a.urLeafDescendants <= a.urDescendants
    && 0 <= a.maxDepth && 0 <= a.urMaxDepth
    && 0 <= a.sumDepth && 0 <= a.urSumDepth
    && a.t.Within(a.urT) && a.tAuthors <= a.urTAuthors
  }

  /** Stored rollups are bounded and vanish where the node has no edges of that view. */
  ghost predicate Sane(n: Node, s: Aggregate) {
    && Bounded(s)
    && (n.children == {} ==> s.descendants == 0)
    && (n.Kids() == {} ==> s.urDescendants == 0)
  }

  /** The engagement counters of every node are non-negative (`INTEGER UNSIGNED` columns). */
  ghost predicate OwnUnsigned(g: seq<Node>) {
    forall j :: 0 <= j < |g| ==> g[j].own.NonNegative()
  }

  /** The own counters are unsigned and every stored rollup is sane. */
  ghost predicate AllSane(g: seq<Node>, st: seq<Option<Aggregate>>) {
    && OwnUnsigned(g)
    && forall j :: 0 <= j < |g| && Stored(st, j).Some? ==> Sane(g[j], Stored(st, j).value)
  }

  /** A contribution made off the reply path leaves every reply-only field untouched. */
  ghost predicate NoReplyPart(a: Aggregate) {
    a.descendants == 0 && a.leafDescendants == 0 && a.maxDepth == 0 && a.sumDepth == 0
    && a.t == NoCounters && a.tAuthors == {}
  }

  lemma AddBounded(a: Aggregate, b: Aggregate)
    requires Bounded(a) && Bounded(b)
    ensures Bounded(Add(a, b))
  {
  }

  lemma LocalBounded(g: seq<Node>, i: nat, depth: int, reply: bool)
    requires i < |g| && depth >= 0 && g[i].own.NonNegative()
    ensures Bounded(Local(g, i, depth, reply))
  {
  }

  lemma {:induction false} ContributionBounded(g: seq<Node>, st: seq<Option<Aggregate>>, i: nat, depth: int, reply: bool)
    requires Arena(g, st) && AllSane(g, st) && depth >= 0
    ensures Bounded(Contribution(g, st, i, depth, reply))
    decreases if i < |g| then ID_BOUND - g[i].id else 0, 1, 0
  {
    if i >= |g| {
    } else if Stored(st, i).None? {
      var a := SumOver(g, st, g[i].children, depth + 1, reply, g[i].id);
      var b := SumOver(g, st, g[i].urChildren, depth + 1, false, g[i].id);
      KidsAbove(g, i);
      SumOverBounded(g, st, g[i].children, depth + 1, reply, g[i].id);
      SumOverBounded(g, st, g[i].urChildren, depth + 1, false, g[i].id);
      AddBounded(a, b);
      LocalBounded(g, i, depth, reply);
      AddBounded(Local(g, i, depth, reply), Add(a, b));
    } else {
      assert Sane(g[i], Stored(st, i).value);
    }
  }

  lemma {:induction false} SumOverBounded(g: seq<Node>, st: seq<Option<Aggregate>>, s: set<nat>, depth: int, reply: bool, lo: int)
    requires Arena(g, st) && AllSane(g, st) && Above(g, s, lo) && depth >= 0
    ensures Bounded(SumOver(g, st, s, depth, reply, lo))
    decreases ID_BOUND - lo, 0, |s|
  {
    if s != {} {
      var c :| c in s;
      SumOverPick(g, st, s, depth, reply, lo, c);
      ContributionBounded(g, st, c, depth, reply);
      SumOverBounded(g, st, s - {c}, depth, reply, lo);
      AddBounded(Contribution(g, st, c, depth, reply), SumOver(g, st, s - {c}, depth, reply, lo));
    }
  }

  lemma AddNoReplyPart(a: Aggregate, b: Aggregate)
    requires NoReplyPart(a) && NoReplyPart(b)
    ensures NoReplyPart(Add(a, b))
  {
  }

  lemma {:induction false} ContributionOffReply(g: seq<Node>, st: seq<Option<Aggregate>>, i: nat, depth: int)
    requires Arena(g, st) && i < |g|
    ensures NoReplyPart(Contribution(g, st, i, depth, false))
    decreases ID_BOUND - g[i].id, 1, 0
  {
    if Stored(st, i).None? {
      KidsAbove(g, i);
      var a := SumOver(g, st, g[i].children, depth + 1, false, g[i].id);
      var b := SumOver(g, st, g[i].urChildren, depth + 1, false, g[i].id);
      SumOverOffReply(g, st, g[i].children, depth + 1, g[i].id);
      SumOverOffReply(g, st, g[i].urChildren, depth + 1, g[i].id);
      AddNoReplyPart(a, b);
      AddNoReplyPart(Local(g, i, depth, false), Add(a, b));
      assert Contribution(g, st, i, depth, false) == Add(Local(g, i, depth, false), Add(a, b));
    }
  }

  lemma {:induction false} SumOverOffReply(g: seq<Node>, st: seq<Option<Aggregate>>, s: set<nat>, depth: int, lo: int)
    requires Arena(g, st) && Above(g, s, lo)
    ensures NoReplyPart(SumOver(g, st, s, depth, false, lo))
    decreases ID_BOUND - lo, 0, |s|
  {
    if s != {} {
      var c :| c in s;
      SumOverPick(g, st, s, depth, false, lo, c);
      ContributionOffReply(g, st, c, depth);
      SumOverOffReply(g, st, s - {c}, depth, lo);
      AddNoReplyPart(Contribution(g, st, c, depth, false), SumOver(g, st, s - {c}, depth, false, lo));
    }
  }

  lemma {:induction false} StackSumBounded(g: seq<Node>, st: seq<Option<Aggregate>>, fs: seq<Frame>)
    requires Arena(g, st) && AllSane(g, st)
    requires forall k :: 0 <= k < |fs| ==> fs[k].depth >= 0
    ensures Bounded(StackSum(g, st, fs))
    decreases |fs|
  {
    if fs != [] {
      var e := fs[|fs| - 1];
      StackSumBounded(g, st, fs[..|fs| - 1]);
      ContributionBounded(g, st, e.node, e.depth, e.reply);
    }
  }

  /**
   * What `count_statistics` stores is bounded (so the sanity checks at lines 244-247 and the
   * denominators `1 + descendants - leaf_descendants` of lines 200-201 are safe): each reply
   * tree total lies between 0 and its ur-tree total, and the reply tree's authors are among
   * the ur-tree's. A node without edges gets zero descendants in the corresponding view.
   */
  lemma TargetSane(g: seq<Node>, st: seq<Option<Aggregate>>, i: nat)
    requires Arena(g, st) && AllSane(g, st) && i < |g|
    ensures Sane(g[i], Target(g, st, i))
    ensures Target(g, st, i).t.Within(Target(g, st, i).urT) && Target(g, st, i).tAuthors <= Target(g, st, i).urTAuthors
    ensures Target(g, st, i).descendants >= |g[i].children|
    ensures Target(g, st, i).urDescendants >= |g[i].children| + |g[i].urChildren|
  {
    KidsAbove(g, i);
    SumOverBounded(g, st, g[i].children, 1, true, g[i].id);
    SumOverBounded(g, st, g[i].urChildren, 1, false, g[i].id);
    SumOverOffReply(g, st, g[i].urChildren, 1, g[i].id);
  }
}
