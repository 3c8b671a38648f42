/**
 * What `Tree.count_mads` (lines 141-178) computes for one node, as specification functions
 * over the arena and the stored aggregates.
 *
 * The depth and author dispersions fold over the node's direct children (and ur-children)
 * and read the children's own `max_depth`, `t_authors` and `ur_t_authors` fields, which
 * still hold their initial values (-1 and the empty set) for a child that has not been
 * aggregated. The engagement dispersions add `|own metric - mean|` for the node itself and
 * for every direct child, reply children to both variants and ur-children to the `ur_` one.
 */
module Dispersions {
  import opened Wrappers
  import opened TreeModel

  function Abs(x: real): real { if x < 0.0 then -x else x }

  /** A value per engagement metric: means, or sums of absolute deviations. */
  datatype Quad = Quad(reply: real, quote: real, like: real, retweet: real)

  const NoQuad := Quad(0.0, 0.0, 0.0, 0.0)

  function QPlus(a: Quad, b: Quad): Quad {
    Quad(a.reply + b.reply, a.quote + b.quote, a.like + b.like, a.retweet + b.retweet)
  }

  /** Lines 149-163: `t_x / (descendants + 1)` for each metric. */
  function Means(t: Counters, n: int): (m: Quad)
    requires n >= 1
    ensures m.reply * n as real == t.reply as real && m.like * n as real == t.like as real
    ensures m.quote * n as real == t.quote as real && m.retweet * n as real == t.retweet as real
  {
    Quad(t.reply as real / n as real, t.quote as real / n as real,
         t.like as real / n as real, t.retweet as real / n as real)
  }

  /** `abs(x_count - mean_x_count)` for each metric. */
  function Deviation(x: Counters, m: Quad): (d: Quad)
    ensures d.reply >= 0.0 && d.quote >= 0.0 && d.like >= 0.0 && d.retweet >= 0.0
  {
    Quad(Abs(x.reply as real - m.reply), Abs(x.quote as real - m.quote),
         Abs(x.like as real - m.like), Abs(x.retweet as real - m.retweet))
  }

  /** The own counters of slot `c`. */
  function Own(g: seq<Node>, c: nat): Counters {
    if c < |g| then g[c].own else NoCounters
  }

  /** The deviations of every slot of `s` from the means `m`, in any order. */
  ghost function SetDeviation(g: seq<Node>, s: set<nat>, m: Quad): Quad
    decreases |s|
  {
    if s == {} then NoQuad
    else
      var c :| c in s;
      QPlus(Deviation(Own(g, c), m), SetDeviation(g, s - {c}, m))
  }

  /** Sum of `f` over a set, in any order: what `reduce` folds over a Python set. */
  ghost function RealSum(s: set<nat>, f: nat -> real): real
    decreases |s|
  {
    if s == {} then 0.0
    else
      var c :| c in s;
      f(c) + RealSum(s - {c}, f)
  }

  /** A child's `max_depth`: -1 until it has been aggregated. */
  function MaxDepthField(st: seq<Option<Aggregate>>, c: nat): int {
    if Stored(st, c).Some? then Stored(st, c).value.maxDepth else -1
  }

  /** `len(child.t_authors)`: the set is empty until the child has been aggregated. */
  function AuthorsField(st: seq<Option<Aggregate>>, c: nat): nat {
    if Stored(st, c).Some? then |Stored(st, c).value.tAuthors| else 0
  }

  /** `len(child.ur_t_authors)`, likewise. */
  function UrAuthorsField(st: seq<Option<Aggregate>>, c: nat): nat {
    if Stored(st, c).Some? then |Stored(st, c).value.urTAuthors| else 0
  }

  /** The term of lines 143 and 145 for one child. */
  function DepthGap(st: seq<Option<Aggregate>>, mean: real): nat -> real {
    (c: nat) => Abs(mean - MaxDepthField(st, c) as real)
  }

  /** The term of line 146 for one child. */
  function AuthorCount(st: seq<Option<Aggregate>>): nat -> real {
    (c: nat) => AuthorsField(st, c) as real
  }

  /** The term of line 147 for one child. */
  function UrAuthorCount(st: seq<Option<Aggregate>>): nat -> real {
    (c: nat) => UrAuthorsField(st, c) as real
  }

  /** Lines 142 and 144: `sum_depth / leaf_descendants`, or 0.0 without leaves. */
  function MeanDepth(sumDepth: int, leaves: int): real {
    if leaves != 0 then sumDepth as real / leaves as real else 0.0
  }

  /** The stored aggregate of slot `k`, which `count_mads` reads. */
  ghost predicate Counted(g: seq<Node>, st: seq<Option<Aggregate>>, k: nat) {
    k < |g| && Stored(st, k).Some? && Sane(g[k], Stored(st, k).value)
  }

  /** The engagement dispersions of lines 149-178 for slot `k`: the reply variant and the `ur_` variant. */
  ghost function Engagement(g: seq<Node>, st: seq<Option<Aggregate>>, k: nat): (Quad, Quad)
    requires Counted(g, st, k)
  {
    var s := Stored(st, k).value;
    var n := g[k];
    var mean := Means(s.t, s.descendants + 1);
    var urMean := Means(s.urT, s.urDescendants + 1);
    (QPlus(Deviation(n.own, mean), SetDeviation(g, n.children, mean)),
     QPlus(Deviation(n.own, urMean), QPlus(SetDeviation(g, n.children, urMean), SetDeviation(g, n.urChildren, urMean))))
  }

  /** Lines 142-145: `mad_depth` and `ur_mad_depth` of slot `k`. */
  ghost function DepthMads(g: seq<Node>, st: seq<Option<Aggregate>>, k: nat): (real, real)
    requires Counted(g, st, k)
  {
    var s := Stored(st, k).value;
    var n := g[k];
    var meanDepth := MeanDepth(s.sumDepth, s.leafDescendants);
    var urMeanDepth := MeanDepth(s.urSumDepth, s.urLeafDescendants);
    (if s.leafDescendants != 0
     then RealSum(n.children, DepthGap(st, meanDepth)) / |n.children| as real else 0.0,
     if s.urLeafDescendants != 0
     then (RealSum(n.children, DepthGap(st, urMeanDepth)) + RealSum(n.urChildren, DepthGap(st, urMeanDepth)))
          / (|n.children| + |n.urChildren|) as real
     else 0.0)
  }

  /** Lines 146-147: `mad_t_authors` and `ur_mad_t_authors` of slot `k`. */
  ghost function AuthorMads(g: seq<Node>, st: seq<Option<Aggregate>>, k: nat): (real, real)
    requires Counted(g, st, k)
  {
    var s := Stored(st, k).value;
    var n := g[k];
    (if s.descendants != 0
     then RealSum(n.children, AuthorCount(st)) / |n.children| as real else 0.0,
     if s.urLeafDescendants != 0
     then (RealSum(n.children, UrAuthorCount(st)) + RealSum(n.urChildren, UrAuthorCount(st)))
          / (|n.children| + |n.urChildren|) as real
     else 0.0)
  }

  /** Everything `count_mads` stores for slot `k` (lines 142-178). */
  ghost function Mads(g: seq<Node>, st: seq<Option<Aggregate>>, k: nat): Dispersion
    requires Counted(g, st, k)
  {
    var (t, ur) := Engagement(g, st, k);
    var (depth, urDepth) := DepthMads(g, st, k);
    var (authors, urAuthors) := AuthorMads(g, st, k);
    Dispersion(t.reply, ur.reply, t.quote, ur.quote, t.like, ur.like, t.retweet, ur.retweet,
               depth, urDepth, authors, urAuthors)
  }

  lemma QPlusSwap(a: Quad, b: Quad, r: Quad)
    ensures QPlus(a, QPlus(b, r)) == QPlus(b, QPlus(a, r))
  {
  }

  lemma QPlusAssociative(a: Quad, b: Quad, c: Quad)
    ensures QPlus(QPlus(a, b), c) == QPlus(a, QPlus(b, c))
  {
  }

  lemma {:induction false} RealSumPick(s: set<nat>, f: nat -> real, y: nat)
    requires y in s
    ensures RealSum(s, f) == f(y) + RealSum(s - {y}, f)
    decreases |s|
  {
    var c :| c in s && RealSum(s, f) == f(c) + RealSum(s - {c}, f);
    if c != y {
      assert s - {c} - {y} == s - {y} - {c};
      RealSumPick(s - {c}, f, y);
      RealSumPick(s - {y}, f, c);
    }
  }

  lemma {:induction false} SetDeviationPick(g: seq<Node>, s: set<nat>, m: Quad, y: nat)
    requires y in s
    ensures SetDeviation(g, s, m) == QPlus(Deviation(Own(g, y), m), SetDeviation(g, s - {y}, m))
    decreases |s|
  {
    var c :| c in s && SetDeviation(g, s, m) == QPlus(Deviation(Own(g, c), m), SetDeviation(g, s - {c}, m));
    if c != y {
      assert s - {c} - {y} == s - {y} - {c};
      SetDeviationPick(g, s - {c}, m, y);
      SetDeviationPick(g, s - {y}, m, c);
      QPlusSwap(Deviation(Own(g, c), m), Deviation(Own(g, y), m), SetDeviation(g, s - {c} - {y}, m));
    }
  }

  /**
   * What the frames on the dispersion stack (lines 166-178) still add: each frame adds its
   * node's deviations, except that with `replyOnly` a frame pushed for an ur-child adds nothing.
   */
  ghost function StackDeviation(g: seq<Node>, fs: seq<Frame>, m: Quad, replyOnly: bool): Quad
  {
    if fs == [] then NoQuad
    else
      var e := fs[|fs| - 1];
      QPlus(StackDeviation(g, fs[..|fs| - 1], m, replyOnly),
            if replyOnly && !e.reply then NoQuad else Deviation(Own(g, e.node), m))
  }

  lemma {:induction false} StackDeviationAppend(g: seq<Node>, a: seq<Frame>, b: seq<Frame>, m: Quad, replyOnly: bool)
    ensures StackDeviation(g, a + b, m, replyOnly) == QPlus(StackDeviation(g, a, m, replyOnly), StackDeviation(g, b, m, replyOnly))
    decreases |b|
  {
    if b == [] {
      assert a + b == a;
    } else {
      assert (a + b)[..|a + b| - 1] == a + b[..|b| - 1];
      assert (a + b)[|a + b| - 1] == b[|b| - 1];
      StackDeviationAppend(g, a, b[..|b| - 1], m, replyOnly);
      var e := b[|b| - 1];
      QPlusAssociative(StackDeviation(g, a, m, replyOnly), StackDeviation(g, b[..|b| - 1], m, replyOnly),
                       if replyOnly && !e.reply then NoQuad else Deviation(Own(g, e.node), m));
    }
  }

  /** The frames pushed for a set of children add the deviations of exactly that set. */
  lemma {:induction false} StackDeviationEnumerates(g: seq<Node>, fs: seq<Frame>, s: set<nat>, depth: int, reply: bool, m: Quad, replyOnly: bool)
    requires Enumerates(fs, s, depth, reply)
    ensures StackDeviation(g, fs, m, replyOnly) == if replyOnly && !reply then NoQuad else SetDeviation(g, s, m)
    decreases |fs|
  {
    if fs != [] {
      var e := fs[|fs| - 1];
      EnumeratesFront(fs, s, depth, reply);
      StackDeviationEnumerates(g, fs[..|fs| - 1], s - {e.node}, depth, reply, m, replyOnly);
      if !(replyOnly && !reply) {
        SetDeviationPick(g, s, m, e.node);
      }
    }
  }

  lemma {:induction false} RealSumNonNegative(s: set<nat>, f: nat -> real)
    requires forall c :: c in s ==> f(c) >= 0.0
    ensures RealSum(s, f) >= 0.0
    decreases |s|
  {
    if s != {} {
      var c :| c in s && RealSum(s, f) == f(c) + RealSum(s - {c}, f);
      RealSumNonNegative(s - {c}, f);
    }
  }

  ghost predicate QuadNonNegative(q: Quad) {
    q.reply >= 0.0 && q.quote >= 0.0 && q.like >= 0.0 && q.retweet >= 0.0
  }

  lemma {:induction false} SetDeviationNonNegative(g: seq<Node>, s: set<nat>, m: Quad)
    ensures QuadNonNegative(SetDeviation(g, s, m))
    decreases |s|
  {
    if s != {} {
      var c :| c in s;
      SetDeviationPick(g, s, m, c);
      SetDeviationNonNegative(g, s - {c}, m);
      var d := Deviation(Own(g, c), m);
      assert QuadNonNegative(d);
    }
  }

  lemma QuotientNonNegative(x: real, n: nat)
    requires x >= 0.0 && n > 0
    ensures x / n as real >= 0.0
  {
  }

  lemma EngagementNonNegative(g: seq<Node>, st: seq<Option<Aggregate>>, k: nat)
    requires Counted(g, st, k)
    ensures QuadNonNegative(Engagement(g, st, k).0) && QuadNonNegative(Engagement(g, st, k).1)
  {
    var s := Stored(st, k).value;
    var n := g[k];
    var mean := Means(s.t, s.descendants + 1);
    var urMean := Means(s.urT, s.urDescendants + 1);
    SetDeviationNonNegative(g, n.children, mean);
    SetDeviationNonNegative(g, n.children, urMean);
    SetDeviationNonNegative(g, n.urChildren, urMean);
  }

  /** The divisors of lines 143-147 are non-zero whenever their guards hold. */
  lemma Divisors(g: seq<Node>, st: seq<Option<Aggregate>>, k: nat)
    requires Counted(g, st, k)
    ensures var s := Stored(st, k).value;
      && (s.descendants != 0 ==> |g[k].children| > 0)
      && (s.urLeafDescendants != 0 ==> |g[k].children| + |g[k].urChildren| > 0)
  {
    var n := g[k];
    if |n.children| + |n.urChildren| == 0 {
      assert n.children == {} && n.urChildren == {};
      assert n.Kids() == {};
    }
  }

  lemma DepthMadsNonNegative(g: seq<Node>, st: seq<Option<Aggregate>>, k: nat)
    requires Counted(g, st, k)
    ensures DepthMads(g, st, k).0 >= 0.0 && DepthMads(g, st, k).1 >= 0.0
  {
    var s := Stored(st, k).value;
    var n := g[k];
    var md := MeanDepth(s.sumDepth, s.leafDescendants);
    var umd := MeanDepth(s.urSumDepth, s.urLeafDescendants);
    var a := RealSum(n.children, DepthGap(st, md));
    var b := RealSum(n.children, DepthGap(st, umd));
    var c := RealSum(n.urChildren, DepthGap(st, umd));
    Divisors(g, st, k);
    RealSumNonNegative(n.children, DepthGap(st, md));
    RealSumNonNegative(n.children, DepthGap(st, umd));
    RealSumNonNegative(n.urChildren, DepthGap(st, umd));
    if s.leafDescendants != 0 {
      QuotientNonNegative(a, |n.children|);
    }
    if s.urLeafDescendants != 0 {
      QuotientNonNegative(b + c, |n.children| + |n.urChildren|);
    }
    assert DepthMads(g, st, k).0 == if s.leafDescendants != 0 then a / |n.children| as real else 0.0;
    assert DepthMads(g, st, k).1 == if s.urLeafDescendants != 0 then (b + c) / (|n.children| + |n.urChildren|) as real else 0.0;
  }

  lemma AuthorMadsNonNegative(g: seq<Node>, st: seq<Option<Aggregate>>, k: nat)
    requires Counted(g, st, k)
    ensures AuthorMads(g, st, k).0 >= 0.0 && AuthorMads(g, st, k).1 >= 0.0
  {
    Divisors(g, st, k);
    var s := Stored(st, k).value;
    var n := g[k];
    if s.descendants != 0 {
      RealSumNonNegative(n.children, AuthorCount(st));
      QuotientNonNegative(RealSum(n.children, AuthorCount(st)), |n.children|);
    }
    if s.urLeafDescendants != 0 {
      RealSumNonNegative(n.children, UrAuthorCount(st));
      RealSumNonNegative(n.urChildren, UrAuthorCount(st));
      QuotientNonNegative(RealSum(n.children, UrAuthorCount(st)) + RealSum(n.urChildren, UrAuthorCount(st)),
                          |n.children| + |n.urChildren|);
    }
  }

  /**
   * Every dispersion `count_mads` stores is non-negative, as the `FLOAT UNSIGNED` columns
   * they end up in require, whether or not the children were aggregated first.
   */
  lemma MadsNonNegative(g: seq<Node>, st: seq<Option<Aggregate>>, k: nat)
    requires Counted(g, st, k)
    ensures var d := Mads(g, st, k);
      && d.madReply >= 0.0 && d.urMadReply >= 0.0 && d.madQuote >= 0.0 && d.urMadQuote >= 0.0
      && d.madLike >= 0.0 && d.urMadLike >= 0.0 && d.madRetweet >= 0.0 && d.urMadRetweet >= 0.0
      && d.madDepth >= 0.0 && d.urMadDepth >= 0.0 && d.madTAuthors >= 0.0 && d.urMadTAuthors >= 0.0
  {
    EngagementNonNegative(g, st, k);
    DepthMadsNonNegative(g, st, k);
    AuthorMadsNonNegative(g, st, k);
  }

  /** A node without edges of either kind aggregates to its seed: nothing is pushed on its stack. */
  lemma ChildlessTarget(g: seq<Node>, st: seq<Option<Aggregate>>, k: nat)
    requires k < |g| && g[k].children == {} && g[k].urChildren == {}
    ensures Target(g, st, k) == Seed(g, k)
  {
    var sd := Seed(g, k);
    ChildlessSums(g, st, k);
    assert Target(g, st, k) == Add(sd, Add(Zero, Zero));
    AddZero(Zero);
    AddZero(sd);
  }

  lemma ChildlessSums(g: seq<Node>, st: seq<Option<Aggregate>>, k: nat)
    requires k < |g| && g[k].children == {} && g[k].urChildren == {}
    ensures SumOver(g, st, g[k].children, 1, true, g[k].id) == Zero
    ensures SumOver(g, st, g[k].urChildren, 1, false, g[k].id) == Zero
  {
  }

  lemma SeedOfChildless(g: seq<Node>, k: nat)
    requires k < |g| && g[k].children == {} && g[k].urChildren == {}
    ensures var a := Seed(g, k);
      && a.descendants == 0 && a.urDescendants == 0 && a.leafDescendants == 0 && a.urLeafDescendants == 0
      && a.t == g[k].own && a.urT == g[k].own
      && a.maxDepth == 0 && a.urMaxDepth == 0 && a.sumDepth == 0 && a.urSumDepth == 0
      && a.tAuthors == {g[k].authorId} && a.urTAuthors == {g[k].authorId}
  {
    var n := g[k];
    assert LeafCount(g, n.children) == 0;
    assert StrictLeafCount(g, n.urChildren) == 0;
  }

  /** Engagement dispersions of a childless node whose totals are its own counters. */
  lemma OwnOnlyEngagement(g: seq<Node>, st: seq<Option<Aggregate>>, k: nat)
    requires Counted(g, st, k) && g[k].children == {} && g[k].urChildren == {}
    requires Stored(st, k).value.t == g[k].own && Stored(st, k).value.urT == g[k].own
    ensures Engagement(g, st, k) == (NoQuad, NoQuad)
  {
    OwnMeans(g, st, k);
    SelfDeviation(g[k].own);
    NoDeviation(g, Means(g[k].own, 1));
  }

  /** The means of a childless node are its own counters. */
  lemma OwnMeans(g: seq<Node>, st: seq<Option<Aggregate>>, k: nat)
    requires Counted(g, st, k) && g[k].children == {} && g[k].urChildren == {}
    requires Stored(st, k).value.t == g[k].own && Stored(st, k).value.urT == g[k].own
    ensures var s := Stored(st, k).value;
      Means(s.t, s.descendants + 1) == Means(g[k].own, 1) && Means(s.urT, s.urDescendants + 1) == Means(g[k].own, 1)
  {
  }

  /** Nothing deviates in an empty set. */
  lemma NoDeviation(g: seq<Node>, m: Quad)
    ensures SetDeviation(g, {}, m) == NoQuad
  {
  }

  /** Counters deviate by nothing from themselves taken as means. */
  lemma SelfDeviation(x: Counters)
    ensures Deviation(x, Means(x, 1)) == NoQuad
  {
    assert Means(x, 1) == Quad(x.reply as real, x.quote as real, x.like as real, x.retweet as real);
  }

  /** Dispersions of a childless node whose totals are its own counters. */
  lemma OwnOnlyMads(g: seq<Node>, st: seq<Option<Aggregate>>, k: nat)
    requires Counted(g, st, k) && g[k].children == {} && g[k].urChildren == {}
    requires Stored(st, k).value.t == g[k].own && Stored(st, k).value.urT == g[k].own
    ensures Mads(g, st, k) == Dispersion(0.0, 0.0, 0.0, 0.0, 0.0, 0.0, 0.0, 0.0, 0.0, 0.0, 0.0, 0.0)
  {
    OwnOnlyEngagement(g, st, k);
    assert DepthMads(g, st, k) == (0.0, 0.0);
    assert AuthorMads(g, st, k) == (0.0, 0.0);
  }

  /**
   * A node without children or ur-children, once aggregated, has every dispersion 0.0: its
   * means are its own counters, and there is nothing else to deviate.
   */
  lemma ChildlessMads(g: seq<Node>, st: seq<Option<Aggregate>>, k: nat)
    requires Counted(g, st, k) && g[k].children == {} && g[k].urChildren == {}
    requires Stored(st, k).value == Target(g, st, k)
    ensures Mads(g, st, k) == Dispersion(0.0, 0.0, 0.0, 0.0, 0.0, 0.0, 0.0, 0.0, 0.0, 0.0, 0.0, 0.0)
  {
    ChildlessTarget(g, st, k);
    SeedOfChildless(g, k);
    OwnOnlyMads(g, st, k);
  }

  /** Folding two functions that agree on every element of a set gives the same sum. */
  lemma {:induction false} RealSumAgree(s: set<nat>, f: nat -> real, h: nat -> real)
    requires forall c :: c in s ==> f(c) == h(c)
    ensures RealSum(s, f) == RealSum(s, h)
    decreases |s|
  {
    if s != {} {
      var c :| c in s;
      RealSumPick(s, f, c);
      RealSumPick(s, h, c);
      RealSumAgree(s - {c}, f, h);
    }
  }

  /** Children (`reply`) or ur-children whose stored aggregates agree in two states. */
  ghost predicate SameBelow(g: seq<Node>, st: seq<Option<Aggregate>>, st2: seq<Option<Aggregate>>, k: nat)
    requires k < |g|
  {
    && (forall c :: c in g[k].children ==> Stored(st2, c) == Stored(st, c))
    && (forall c :: c in g[k].urChildren ==> Stored(st2, c) == Stored(st, c))
  }

  lemma DepthMadsFrame(g: seq<Node>, st: seq<Option<Aggregate>>, st2: seq<Option<Aggregate>>, k: nat)
    requires Counted(g, st, k) && Stored(st2, k) == Stored(st, k) && SameBelow(g, st, st2, k)
    ensures Counted(g, st2, k) && DepthMads(g, st2, k) == DepthMads(g, st, k)
  {
    Divisors(g, st, k);
    var s := Stored(st, k).value;
    var md := MeanDepth(s.sumDepth, s.leafDescendants);
    var umd := MeanDepth(s.urSumDepth, s.urLeafDescendants);
    var a := RealSum(g[k].children, DepthGap(st, md));
    var b := RealSum(g[k].children, DepthGap(st, umd));
    var c := RealSum(g[k].urChildren, DepthGap(st, umd));
    GapsAgree(g[k].children, st, st2, md);
    GapsAgree(g[k].children, st, st2, umd);
    GapsAgree(g[k].urChildren, st, st2, umd);
    assert DepthMads(g, st, k).0 == if s.leafDescendants != 0 then a / |g[k].children| as real else 0.0;
    assert DepthMads(g, st, k).1 == if s.urLeafDescendants != 0 then (b + c) / (|g[k].children| + |g[k].urChildren|) as real else 0.0;
  }

  lemma GapsAgree(s: set<nat>, st: seq<Option<Aggregate>>, st2: seq<Option<Aggregate>>, m: real)
    requires forall c :: c in s ==> Stored(st2, c) == Stored(st, c)
    ensures RealSum(s, DepthGap(st2, m)) == RealSum(s, DepthGap(st, m))
  {
    RealSumAgree(s, DepthGap(st, m), DepthGap(st2, m));
  }

  lemma AuthorMadsFrame(g: seq<Node>, st: seq<Option<Aggregate>>, st2: seq<Option<Aggregate>>, k: nat)
    requires Counted(g, st, k) && Stored(st2, k) == Stored(st, k) && SameBelow(g, st, st2, k)
    ensures Counted(g, st2, k) && AuthorMads(g, st2, k) == AuthorMads(g, st, k)
  {
    Divisors(g, st, k);
    var s := Stored(st, k).value;
    var a := RealSum(g[k].children, AuthorCount(st));
    var b := RealSum(g[k].children, UrAuthorCount(st));
    var c := RealSum(g[k].urChildren, UrAuthorCount(st));
    CountsAgree(g[k].children, st, st2);
    CountsAgree(g[k].urChildren, st, st2);
    assert AuthorMads(g, st, k).0 == if s.descendants != 0 then a / |g[k].children| as real else 0.0;
    assert AuthorMads(g, st, k).1 == if s.urLeafDescendants != 0 then (b + c) / (|g[k].children| + |g[k].urChildren|) as real else 0.0;
  }

  lemma CountsAgree(s: set<nat>, st: seq<Option<Aggregate>>, st2: seq<Option<Aggregate>>)
    requires forall c :: c in s ==> Stored(st2, c) == Stored(st, c)
    ensures RealSum(s, AuthorCount(st2)) == RealSum(s, AuthorCount(st))
    ensures RealSum(s, UrAuthorCount(st2)) == RealSum(s, UrAuthorCount(st))
  {
    RealSumAgree(s, AuthorCount(st), AuthorCount(st2));
    RealSumAgree(s, UrAuthorCount(st), UrAuthorCount(st2));
  }

  /**
   * `count_mads` on slot `k` reads no stored aggregate but its own and those of its
   * children and ur-children: aggregating any other node does not change what it computes.
   */
  lemma MadsFrame(g: seq<Node>, st: seq<Option<Aggregate>>, st2: seq<Option<Aggregate>>, k: nat)
    requires Counted(g, st, k) && Stored(st2, k) == Stored(st, k) && SameBelow(g, st, st2, k)
    ensures Counted(g, st2, k) && Mads(g, st2, k) == Mads(g, st, k)
  {
    DepthMadsFrame(g, st, st2, k);
    AuthorMadsFrame(g, st, st2, k);
  }
}
