/**
 * `enrich_conversation` and the `Tree` methods it drives, as a class over the arena of
 * one ur-conversation.
 *
 * A `Conversation` holds the nodes the builder wires up, the aggregates `count_statistics`
 * stores (`None` for the sentinel -1), the dispersions `count_mads` stores, and the memo
 * cache of `lru_cache(lambda id: Tree(id))` as a map from tweet id to arena slot.
 */
module Conversations {
  import opened Wrappers
  import opened TreeModel
  import opened Dispersions
  import opened Records
  import opened TreeReach
  import opened TreeSize
  import TreeRow

  /**
   * `[(child, depth, reply) for child in s]`: the frames pushed for a set of slots, in
   * whatever order the set is iterated.
   */
  method Frames(s: set<nat>, depth: int, reply: bool) returns (fs: seq<Frame>)
    ensures Enumerates(fs, s, depth, reply)
  {
    fs := [];
    var rest := s;
    while rest != {}
      invariant rest <= s
      invariant Enumerates(fs, s - rest, depth, reply)
      decreases |rest|
    {
      var c :| c in rest;
      EnumeratesSnoc(fs, s - rest, c, depth, reply);
      assert s - (rest - {c}) == (s - rest) + {c};
      fs := fs + [Frame(c, depth, reply)];
      rest := rest - {c};
    }
    assert s - rest == s;
  }

  lemma EnumeratesSnoc(fs: seq<Frame>, t: set<nat>, c: nat, depth: int, reply: bool)
    requires Enumerates(fs, t, depth, reply) && c !in t
    ensures Enumerates(fs + [Frame(c, depth, reply)], t + {c}, depth, reply)
  {
    var fs' := fs + [Frame(c, depth, reply)];
    assert NodesOf(fs') == NodesOf(fs) + {c} by {
      assert forall k :: 0 <= k < |fs| ==> fs'[k] == fs[k];
      assert fs'[|fs|].node == c;
    }
  }

  /** Popping an aggregated node's frame and adding its rollups keeps the walk on target. */
  lemma PopAggregated(g: seq<Node>, st: seq<Option<Aggregate>>, acc: Aggregate, front: seq<Frame>,
                      i: nat, depth: int, reply: bool, s: Aggregate)
    requires Stored(st, i) == Some(s) && i < |g|
    ensures Add(Add(acc, Rollup(s, depth, reply)), StackSum(g, st, front))
         == Add(acc, StackSum(g, st, front + [Frame(i, depth, reply)]))
  {
    var fs := front + [Frame(i, depth, reply)];
    var r := Rollup(s, depth, reply);
    assert fs[..|front|] == front;
    StackSumLast(g, st, fs);
    calc {
      Add(Add(acc, r), StackSum(g, st, front));
      { AddAssociative(acc, r, StackSum(g, st, front)); }
      Add(acc, Add(r, StackSum(g, st, front)));
      { AddCommutative(r, StackSum(g, st, front)); }
      Add(acc, Add(StackSum(g, st, front), r));
    }
  }

  /** The sum over a stack with two runs of frames pushed on top. */
  lemma PushedSum(g: seq<Node>, st: seq<Option<Aggregate>>, front: seq<Frame>, ef: seq<Frame>, eu: seq<Frame>)
    ensures StackSum(g, st, front + ef + eu) == Add(Add(StackSum(g, st, front), StackSum(g, st, ef)), StackSum(g, st, eu))
  {
    StackSumAppend(g, st, front, ef);
    StackSumAppend(g, st, front + ef, eu);
  }

  /** The sum over a stack whose top frame names an unaggregated node, split into its parts. */
  lemma PoppedSum(g: seq<Node>, st: seq<Option<Aggregate>>, front: seq<Frame>, i: nat, depth: int, reply: bool)
    requires i < |g| && Stored(st, i).None?
    ensures StackSum(g, st, front + [Frame(i, depth, reply)])
      == Add(StackSum(g, st, front),
             Add(Local(g, i, depth, reply),
                 Add(SumOver(g, st, g[i].children, depth + 1, reply, g[i].id),
                     SumOver(g, st, g[i].urChildren, depth + 1, false, g[i].id))))
  {
    var fs := front + [Frame(i, depth, reply)];
    assert fs[..|front|] == front;
    StackSumLast(g, st, fs);
    ContributionUnaggregated(g, st, i, depth, reply);
  }

  /**
   * Popping an unaggregated node's frame, adding its own fields and pushing its children
   * and ur-children keeps the walk on target.
   */
  lemma PopUnaggregated(g: seq<Node>, st: seq<Option<Aggregate>>, acc: Aggregate, front: seq<Frame>,
                        i: nat, depth: int, reply: bool, ef: seq<Frame>, eu: seq<Frame>)
    requires i < |g| && Stored(st, i).None?
    requires StackSum(g, st, ef) == SumOver(g, st, g[i].children, depth + 1, reply, g[i].id)
    requires StackSum(g, st, eu) == SumOver(g, st, g[i].urChildren, depth + 1, false, g[i].id)
    ensures Add(Add(acc, Local(g, i, depth, reply)), StackSum(g, st, front + ef + eu))
         == Add(acc, StackSum(g, st, front + [Frame(i, depth, reply)]))
  {
    PushedSum(g, st, front, ef, eu);
    PoppedSum(g, st, front, i, depth, reply);
    Shuffle(acc, Local(g, i, depth, reply), StackSum(g, st, front), StackSum(g, st, ef), StackSum(g, st, eu));
  }

  /** Every frame names a slot of the arena and lies at depth one or more. */
  ghost predicate StackIn(g: seq<Node>, fs: seq<Frame>) {
    forall j :: 0 <= j < |fs| ==> fs[j].node < |g| && fs[j].depth >= 1
  }

  lemma StackInAppend(g: seq<Node>, a: seq<Frame>, b: seq<Frame>)
    requires StackIn(g, a) && StackIn(g, b)
    ensures StackIn(g, a + b)
  {
    assert forall j :: |a| <= j < |a + b| ==> (a + b)[j] == b[j - |a|];
  }

  lemma Shuffle(acc: Aggregate, l: Aggregate, f: Aggregate, a: Aggregate, b: Aggregate)
    ensures Add(Add(acc, l), Add(Add(f, a), b)) == Add(acc, Add(f, Add(l, Add(a, b))))
  {
    AddAssociative(acc, l, Add(Add(f, a), b));
    AddAssociative(f, a, b);
    AddAssociative(l, f, Add(a, b));
    AddCommutative(l, f);
    AddAssociative(f, l, Add(a, b));
  }

  /**
   * The loop invariant of the walk from slot `k`: the stack stays in the arena below the
   * root, and the accumulator plus what the stack still owes is the node's `Target`.
   */
  ghost predicate OnTarget(g: seq<Node>, st: seq<Option<Aggregate>>, k: nat, acc: Aggregate, stack: seq<Frame>)
    requires k < |g|
  {
    && StackIn(g, stack)
    && acc.maxDepth >= 0 && acc.urMaxDepth >= 0
    && Add(acc, StackSum(g, st, stack)) == Target(g, st, k)
  }

  /** What the walk still has to do: every descendant it will meet, plus the frames pending. */
  ghost function Pending(g: seq<Node>, st: seq<Option<Aggregate>>, stack: seq<Frame>): int {
    StackSum(g, st, stack).urDescendants + |stack|
  }

  /** The top frame of a stack in the arena is in the arena, and so is the rest. */
  lemma StackInFront(g: seq<Node>, front: seq<Frame>, i: nat, depth: int, reply: bool)
    requires StackIn(g, front + [Frame(i, depth, reply)])
    ensures StackIn(g, front) && i < |g| && depth >= 1
  {
    var fs := front + [Frame(i, depth, reply)];
    assert fs[|front|] == Frame(i, depth, reply);
    assert forall j :: 0 <= j < |front| ==> fs[j] == front[j];
  }

  /** The walk's step for an aggregated node keeps it on target and brings it closer to the end. */
  lemma StepAggregated(g: seq<Node>, st: seq<Option<Aggregate>>, k: nat, acc: Aggregate, front: seq<Frame>,
                       i: nat, depth: int, reply: bool, s: Aggregate)
    requires Arena(g, st) && AllSane(g, st) && k < |g|
    requires OnTarget(g, st, k, acc, front + [Frame(i, depth, reply)]) && Stored(st, i) == Some(s)
    ensures OnTarget(g, st, k, Add(acc, Rollup(s, depth, reply)), front)
    ensures 0 <= Pending(g, st, front) < Pending(g, st, front + [Frame(i, depth, reply)])
  {
    var fs := front + [Frame(i, depth, reply)];
    StackInFront(g, front, i, depth, reply);
    assert Sane(g[i], s);
    PopAggregated(g, st, acc, front, i, depth, reply, s);
    assert fs[..|front|] == front;
    StackSumLast(g, st, fs);
    StackSumBounded(g, st, front);
  }

  /**
   * What the frames `ef` and `eu` pushed for node `i` at `depth` amount to: they lie in the
   * arena, there is one per child and ur-child, and they owe exactly the two sums of the node.
   */
  ghost predicate Pushes(g: seq<Node>, st: seq<Option<Aggregate>>, i: nat, depth: int, reply: bool, ef: seq<Frame>, eu: seq<Frame>)
    requires i < |g|
  {
    && StackIn(g, ef) && StackIn(g, eu)
    && |ef| == |g[i].children| && |eu| == |g[i].urChildren|
    && StackSum(g, st, ef) == SumOver(g, st, g[i].children, depth + 1, reply, g[i].id)
    && StackSum(g, st, eu) == SumOver(g, st, g[i].urChildren, depth + 1, false, g[i].id)
  }

  /** The frames listing a node's children and ur-children, one level deeper, are what it pushes. */
  lemma ChildFrames(g: seq<Node>, st: seq<Option<Aggregate>>, i: nat, depth: int, reply: bool, ef: seq<Frame>, eu: seq<Frame>)
    requires WellFormed(g) && i < |g| && depth >= 0
    requires Enumerates(ef, g[i].children, depth + 1, reply)
    requires Enumerates(eu, g[i].urChildren, depth + 1, false)
    ensures Pushes(g, st, i, depth, reply, ef, eu)
  {
    KidsAbove(g, i);
    StackSumEnumerates(g, st, ef, g[i].children, depth + 1, reply, g[i].id);
    StackSumEnumerates(g, st, eu, g[i].urChildren, depth + 1, false, g[i].id);
  }

  /** The walk's step for an unaggregated node keeps it on target. */
  lemma StepUnaggregated(g: seq<Node>, st: seq<Option<Aggregate>>, k: nat, acc: Aggregate, front: seq<Frame>,
                         i: nat, depth: int, reply: bool, ef: seq<Frame>, eu: seq<Frame>)
    requires k < |g| && i < |g| && Stored(st, i).None?
    requires OnTarget(g, st, k, acc, front + [Frame(i, depth, reply)])
    requires Pushes(g, st, i, depth, reply, ef, eu)
    ensures OnTarget(g, st, k, Add(acc, Local(g, i, depth, reply)), front + ef + eu)
  {
    StackInFront(g, front, i, depth, reply);
    PopUnaggregated(g, st, acc, front, i, depth, reply, ef, eu);
    StackInAppend(g, front, ef);
    StackInAppend(g, front + ef, eu);
  }

  /** Expanding an unaggregated node trades its frame and its own descendants for its children's frames. */
  lemma PendingDrops(g: seq<Node>, st: seq<Option<Aggregate>>, front: seq<Frame>,
                     i: nat, depth: int, reply: bool, ef: seq<Frame>, eu: seq<Frame>)
    requires i < |g| && Stored(st, i).None?
    requires Pushes(g, st, i, depth, reply, ef, eu)
    requires Bounded(StackSum(g, st, front)) && Bounded(StackSum(g, st, ef)) && Bounded(StackSum(g, st, eu))
    ensures 0 <= Pending(g, st, front + ef + eu) < Pending(g, st, front + [Frame(i, depth, reply)])
  {
    PushedSum(g, st, front, ef, eu);
    PoppedSum(g, st, front, i, depth, reply);
  }

  /** Every stack whose frames lie at non-negative depths owes a bounded aggregate. */
  lemma StacksBounded(g: seq<Node>, st: seq<Option<Aggregate>>, front: seq<Frame>, ef: seq<Frame>, eu: seq<Frame>)
    requires Arena(g, st) && AllSane(g, st)
    requires StackIn(g, front) && StackIn(g, ef) && StackIn(g, eu)
    ensures Bounded(StackSum(g, st, front)) && Bounded(StackSum(g, st, ef)) && Bounded(StackSum(g, st, eu))
  {
    StackSumBounded(g, st, front);
    StackSumBounded(g, st, ef);
    StackSumBounded(g, st, eu);
  }

  /** `stack.pop()`: the top frame's fields and the rest of the stack. */
  method Top(stack: seq<Frame>) returns (front: seq<Frame>, i: nat, depth: int, reply: bool)
    requires stack != []
    ensures stack == front + [Frame(i, depth, reply)]
  {
    front := stack[..|stack| - 1];
    i, depth, reply := stack[|stack| - 1].node, stack[|stack| - 1].depth, stack[|stack| - 1].reply;
    assert stack == front + [stack[|stack| - 1]];
  }

  /** Lines 138-139: the frames pushed for the children and the ur-children of node `i`. */
  method Push(g: seq<Node>, st: seq<Option<Aggregate>>, i: nat, depth: int, reply: bool) returns (ef: seq<Frame>, eu: seq<Frame>)
    requires WellFormed(g) && i < |g| && depth >= 0
    ensures Pushes(g, st, i, depth, reply, ef, eu)
  {
    ef := Frames(g[i].children, depth + 1, reply);
    eu := Frames(g[i].urChildren, depth + 1, false);
    ChildFrames(g, st, i, depth, reply, ef, eu);
  }

  /**
   * The explicit-stack walk of `count_statistics` (lines 66-139) from slot `k`: the node's own
   * fields seed the accumulator, then each popped frame adds the rollups of an aggregated
   * node (lines 90-111) or the fields of an unaggregated one and pushes its children and
   * ur-children (lines 112-139). The result is `Target`, whatever order the sets are iterated in.
   */
  method Walk(g: seq<Node>, st: seq<Option<Aggregate>>, k: nat) returns (acc: Aggregate)
    requires Arena(g, st) && AllSane(g, st) && k < |g|
    ensures acc == Target(g, st, k)
  {
    acc := Seed(g, k);
    var cf := Frames(g[k].children, 1, true);
    var uf := Frames(g[k].urChildren, 1, false);
    var stack := cf + uf;
    Started(g, st, k, cf, uf);
    while |stack| > 0
      invariant OnTarget(g, st, k, acc, stack)
      decreases Pending(g, st, stack)
    {
      var front, i, depth, reply := Top(stack);
      StackInFront(g, front, i, depth, reply);
      match st[i]
      case Some(s) =>
        StepAggregated(g, st, k, acc, front, i, depth, reply, s);
        acc := Add(acc, Rollup(s, depth, reply));
        stack := front;
      case None =>
        var ef, eu := Push(g, st, i, depth, reply);
        StacksBounded(g, st, front, ef, eu);
        StepUnaggregated(g, st, k, acc, front, i, depth, reply, ef, eu);
        PendingDrops(g, st, front, i, depth, reply, ef, eu);
        acc := Add(acc, Local(g, i, depth, reply));
        stack := front + ef + eu;
    }
    AddZero(acc);
  }

  /** The walk starts on target: the seed plus the frames of the root's children and ur-children. */
  lemma Started(g: seq<Node>, st: seq<Option<Aggregate>>, k: nat, cf: seq<Frame>, uf: seq<Frame>)
    requires Arena(g, st) && k < |g|
    requires Enumerates(cf, g[k].children, 1, true) && Enumerates(uf, g[k].urChildren, 1, false)
    ensures OnTarget(g, st, k, Seed(g, k), cf + uf)
  {
    ChildFrames(g, st, k, 0, true, cf, uf);
    StackSumAppend(g, st, cf, uf);
    StackInAppend(g, cf, uf);
  }

  /** `reduce(lambda acc, child: acc + f(child), s, 0)`: the sum of `f` over a set, in iteration order. */
  method SumSet(s: set<nat>, f: nat -> real) returns (r: real)
    ensures r == RealSum(s, f)
  {
    r := 0.0;
    var rest := s;
    while rest != {}
      invariant r + RealSum(rest, f) == RealSum(s, f)
      decreases |rest|
    {
      var c :| c in rest;
      RealSumPick(rest, f, c);
      r := r + f(c);
      rest := rest - {c};
    }
  }

  lemma StackDeviationLast(g: seq<Node>, front: seq<Frame>, i: nat, depth: int, reply: bool, m: Quad, replyOnly: bool)
    ensures StackDeviation(g, front + [Frame(i, depth, reply)], m, replyOnly)
         == QPlus(StackDeviation(g, front, m, replyOnly), if replyOnly && !reply then NoQuad else Deviation(Own(g, i), m))
  {
    assert (front + [Frame(i, depth, reply)])[..|front|] == front;
  }

  /** Moving one deviation from what the stack owes into the running sum. */
  lemma Shift(t: Quad, d: Quad, rest: Quad)
    ensures QPlus(t, QPlus(rest, d)) == QPlus(QPlus(t, d), rest)
  {
  }

  lemma QPlusNone(q: Quad)
    ensures QPlus(q, NoQuad) == q
  {
  }

  /** The frames for a node's children and ur-children add the deviations of its children, and of its ur-children to the `ur_` sums. */
  lemma DeviationStart(g: seq<Node>, n: Node, cf: seq<Frame>, uf: seq<Frame>, mean: Quad, urMean: Quad)
    requires Enumerates(cf, n.children, 1, true) && Enumerates(uf, n.urChildren, 1, false)
    ensures StackDeviation(g, cf + uf, mean, true) == SetDeviation(g, n.children, mean)
    ensures StackDeviation(g, cf + uf, urMean, false)
         == QPlus(SetDeviation(g, n.children, urMean), SetDeviation(g, n.urChildren, urMean))
  {
    StackDeviationAppend(g, cf, uf, mean, true);
    StackDeviationAppend(g, cf, uf, urMean, false);
    StackDeviationEnumerates(g, cf, n.children, 1, true, mean, true);
    StackDeviationEnumerates(g, uf, n.urChildren, 1, false, mean, true);
    StackDeviationEnumerates(g, cf, n.children, 1, true, urMean, false);
    StackDeviationEnumerates(g, uf, n.urChildren, 1, false, urMean, false);
  }

  /**
   * Lines 150-178: the engagement dispersions of node `n`, starting from its own deviation
   * and adding, frame by frame, the deviation of every child (both variants) and ur-child
   * (the `ur_` variant only).
   */
  method Deviations(g: seq<Node>, n: Node, mean: Quad, urMean: Quad) returns (t: Quad, ur: Quad)
    ensures t == QPlus(Deviation(n.own, mean), SetDeviation(g, n.children, mean))
    ensures ur == QPlus(Deviation(n.own, urMean), QPlus(SetDeviation(g, n.children, urMean), SetDeviation(g, n.urChildren, urMean)))
  {
    t := Deviation(n.own, mean);
    ur := Deviation(n.own, urMean);
    var cf := Frames(n.children, 1, true);
    var uf := Frames(n.urChildren, 1, false);
    var stack := cf + uf;
    DeviationStart(g, n, cf, uf, mean, urMean);
    ghost var target := QPlus(Deviation(n.own, mean), SetDeviation(g, n.children, mean));
    ghost var urTarget := QPlus(Deviation(n.own, urMean), QPlus(SetDeviation(g, n.children, urMean), SetDeviation(g, n.urChildren, urMean)));
    while |stack| > 0
      invariant QPlus(t, StackDeviation(g, stack, mean, true)) == target
      invariant QPlus(ur, StackDeviation(g, stack, urMean, false)) == urTarget
    {
      var front, i, depth, reply := Top(stack);
      var d, ud := Deviation(Own(g, i), mean), Deviation(Own(g, i), urMean);
      StackDeviationLast(g, front, i, depth, reply, mean, true);
      StackDeviationLast(g, front, i, depth, reply, urMean, false);
      Shift(ur, ud, StackDeviation(g, front, urMean, false));
      ur := QPlus(ur, ud);
      if reply {
        Shift(t, d, StackDeviation(g, front, mean, true));
        t := QPlus(t, d);
      } else {
        QPlusNone(StackDeviation(g, front, mean, true));
      }
      stack := front;
    }
    QPlusNone(t);
    QPlusNone(ur);
  }

  /** Lines 142-145: the depth dispersions of slot `k`. */
  method DepthSpread(g: seq<Node>, st: seq<Option<Aggregate>>, k: nat) returns (depth: real, urDepth: real)
    requires Counted(g, st, k)
    ensures (depth, urDepth) == DepthMads(g, st, k)
  {
    Divisors(g, st, k);
    var s := st[k].value;
    var n := g[k];
    var meanDepth := MeanDepth(s.sumDepth, s.leafDescendants);
    depth := 0.0;
    if s.leafDescendants != 0 {
      var sum := SumSet(n.children, DepthGap(st, meanDepth));
      depth := sum / |n.children| as real;
    }
    var urMeanDepth := MeanDepth(s.urSumDepth, s.urLeafDescendants);
    urDepth := 0.0;
    if s.urLeafDescendants != 0 {
      var sum := SumSet(n.children, DepthGap(st, urMeanDepth));
      var urSum := SumSet(n.urChildren, DepthGap(st, urMeanDepth));
      urDepth := (sum + urSum) / (|n.children| + |n.urChildren|) as real;
    }
  }

  /** Lines 146-147: the author dispersions of slot `k`. */
  method AuthorSpread(g: seq<Node>, st: seq<Option<Aggregate>>, k: nat) returns (authors: real, urAuthors: real)
    requires Counted(g, st, k)
    ensures (authors, urAuthors) == AuthorMads(g, st, k)
  {
    Divisors(g, st, k);
    var s := st[k].value;
    var n := g[k];
    authors := 0.0;
    if s.descendants != 0 {
      var sum := SumSet(n.children, AuthorCount(st));
      authors := sum / |n.children| as real;
    }
    urAuthors := 0.0;
    if s.urLeafDescendants != 0 {
      var sum := SumSet(n.children, UrAuthorCount(st));
      var urSum := SumSet(n.urChildren, UrAuthorCount(st));
      urAuthors := (sum + urSum) / (|n.children| + |n.urChildren|) as real;
    }
  }

  /** `count_mads` (lines 141-178) on slot `k`, whose aggregate is stored: what it assigns. */
  method Spread(g: seq<Node>, st: seq<Option<Aggregate>>, k: nat) returns (d: Dispersion)
    requires Counted(g, st, k)
    ensures d == Mads(g, st, k)
  {
    var s := Stored(st, k).value;
    var depth, urDepth := DepthSpread(g, st, k);
    var authors, urAuthors := AuthorSpread(g, st, k);
    var t, ur := Deviations(g, g[k], Means(s.t, s.descendants + 1), Means(s.urT, s.urDescendants + 1));
    assert (t, ur) == Engagement(g, st, k);
    d := Dispersion(t.reply, ur.reply, t.quote, ur.quote, t.like, ur.like, t.retweet, ur.retweet,
                    depth, urDepth, authors, urAuthors);
  }

  /** Storing a sane aggregate for one slot keeps every stored aggregate sane. */
  lemma StoreSane(g: seq<Node>, st: seq<Option<Aggregate>>, k: nat, a: Aggregate)
    requires AllSane(g, st) && k < |g| && k < |st| && Sane(g[k], a)
    ensures AllSane(g, st[k := Some(a)])
  {
  }

  /** The arena slots of the records of `rs`. */
  ghost function Visited(slots: map<TweetId, nat>, rs: seq<Record>): set<nat> {
    set r | r in rs && r.tweetId in slots :: slots[r.tweetId]
  }

  lemma VisitedSnoc(slots: map<TweetId, nat>, rs: seq<Record>, r: Record)
    requires r.tweetId in slots
    ensures Visited(slots, rs + [r]) == Visited(slots, rs) + {slots[r.tweetId]}
  {
  }

  /**
   * Line 360 hands the records over newest first. Since every record refers to an older
   * tweet, when the descending loop reaches record `i`, each child and ur-child of its node
   * is the node of an earlier record, already aggregated.
   */
  lemma ChildrenFirst(g: seq<Node>, slots: map<TweetId, nat>, rs: seq<Record>, i: nat)
    requires Indexed(g, slots) && Describes(g, slots, rs) && Ordered(rs) && Descending(rs) && i < |rs|
    ensures rs[i].tweetId in slots && slots[rs[i].tweetId] < |g|
    ensures g[slots[rs[i].tweetId]].children <= Visited(slots, rs[..i])
    ensures g[slots[rs[i].tweetId]].urChildren <= Visited(slots, rs[..i])
  {
    LinkedMentioned(rs, rs[i].tweetId, true);
    var k := slots[rs[i].tweetId];
    forall c | c in g[k].children
      ensures c in Visited(slots, rs[..i])
    {
      Earlier(g, slots, rs, i, c, true);
    }
    forall c | c in g[k].urChildren
      ensures c in Visited(slots, rs[..i])
    {
      Earlier(g, slots, rs, i, c, false);
    }
  }

  lemma Earlier(g: seq<Node>, slots: map<TweetId, nat>, rs: seq<Record>, i: nat, c: nat, reply: bool)
    requires Indexed(g, slots) && Describes(g, slots, rs) && Ordered(rs) && Descending(rs) && i < |rs|
    requires rs[i].tweetId in slots && c in Joined(g[slots[rs[i].tweetId]], reply)
    ensures c in Visited(slots, rs[..i])
  {
    var k := slots[rs[i].tweetId];
    assert c < |g| && g[c].id in Linked(rs, g[k].id, reply);
    LinkedWitness(rs, g[k].id, reply, g[c].id);
    var j :| 0 <= j < |rs| && rs[j].tweetId == g[c].id && Link(rs[j]) == Some(Edge(g[k].id, reply));
    assert rs[i].tweetId < rs[j].tweetId;
    assert j < i;
    assert rs[..i][j] == rs[j];
  }

  /** Slot `k` is aggregated and its stored dispersions are those `count_mads` computes from the current state. */
  ghost predicate Dispersed(g: seq<Node>, st: seq<Option<Aggregate>>, md: seq<Option<Dispersion>>, k: nat) {
    Counted(g, st, k) && k < |md| && md[k] == Some(Mads(g, st, k))
  }

  /**
   * Slot `k` has been through `count_statistics` and `count_mads`, and all its children and
   * ur-children are aggregated, so `count_mads` read their true `max_depth` and author sets.
   */
  ghost predicate Done(g: seq<Node>, st: seq<Option<Aggregate>>, md: seq<Option<Dispersion>>, k: nat) {
    && Dispersed(g, st, md, k)
    && (forall c :: c in g[k].children ==> Stored(st, c).Some?)
    && (forall c :: c in g[k].urChildren ==> Stored(st, c).Some?)
  }

  /** Aggregating a node that was not aggregated yet, or re-running `count_mads` on another node, keeps `j` dispersed. */
  lemma DoneKept(g: seq<Node>, st: seq<Option<Aggregate>>, md: seq<Option<Dispersion>>, k: nat, a: Aggregate, m: Dispersion, j: nat)
    requires Done(g, st, md, j) && j != k && k < |st| && k < |md| && (st[k].None? || st[k] == Some(a))
    ensures Dispersed(g, st[k := Some(a)], md[k := Some(m)], j)
  {
    var st2 := st[k := Some(a)];
    KeptBelow(g, st, j, k, a);
    MadsFrame(g, st, st2, j);
  }

  /** Storing `a` in a slot that was empty or already held it changes nothing an aggregated node's children hold. */
  lemma KeptBelow(g: seq<Node>, st: seq<Option<Aggregate>>, j: nat, k: nat, a: Aggregate)
    requires j < |g| && k < |st| && (st[k].None? || st[k] == Some(a))
    requires forall c :: c in g[j].children ==> Stored(st, c).Some?
    requires forall c :: c in g[j].urChildren ==> Stored(st, c).Some?
    ensures SameBelow(g, st, st[k := Some(a)], j)
  {
  }

  /** The records whose node has more than `bound` reply descendants: those line 244 logs. */
  ghost function Overgrown(g: seq<Node>, slots: map<TweetId, nat>, rs: seq<Record>, bound: int): nat {
    if rs == [] then 0
    else
      var id := rs[|rs| - 1].tweetId;
      Overgrown(g, slots, rs[..|rs| - 1], bound)
        + if id in slots && slots[id] < |g| && Tally(g, slots[id]).descendants > bound then 1 else 0
  }

  /** Exactly the slots of `v` are aggregated. */
  ghost predicate StoredExactly(st: seq<Option<Aggregate>>, v: set<nat>) {
    forall k: nat :: Stored(st, k).Some? <==> k in v
  }

  /** The children and ur-children of every slot of `v` are in `v`. */
  ghost predicate Closed(g: seq<Node>, v: set<nat>) {
    forall k :: k in v ==> k < |g| && g[k].children <= v && g[k].urChildren <= v
  }

  /**
   * Every slot of `v` is dispersed. (The dispersions are only looked at when asked for:
   * their definition folds over the children, which are in `v`, whose dispersions fold over
   * theirs.)
   */
  ghost predicate AllDispersed(g: seq<Node>, v: set<nat>, st: seq<Option<Aggregate>>, md: seq<Option<Dispersion>>) {
    forall k {:trigger Dispersed(g, st, md, k)} :: k in v ==> Dispersed(g, st, md, k)
  }

  /** Exactly the slots of `v` are aggregated, each is dispersed, and `v` holds their children. */
  ghost predicate DoneOn(g: seq<Node>, v: set<nat>, st: seq<Option<Aggregate>>, md: seq<Option<Dispersion>>) {
    StoredExactly(st, v) && Closed(g, v) && AllDispersed(g, v, st, md)
  }

  lemma DoneOnDone(g: seq<Node>, v: set<nat>, st: seq<Option<Aggregate>>, md: seq<Option<Dispersion>>, k: nat)
    requires DoneOn(g, v, st, md) && k in v
    ensures Done(g, st, md, k)
  {
  }

  /** After the first `i` records of the descending loop: exactly their nodes are aggregated, and each is done. */
  ghost predicate Progress(g: seq<Node>, slots: map<TweetId, nat>, rs: seq<Record>, i: nat,
                           st: seq<Option<Aggregate>>, md: seq<Option<Dispersion>>)
    requires i <= |rs|
  {
    DoneOn(g, Visited(slots, rs[..i]), st, md)
  }

  /** Nothing is aggregated before the first record. */
  lemma ProgressStart(g: seq<Node>, slots: map<TweetId, nat>, rs: seq<Record>, st: seq<Option<Aggregate>>, md: seq<Option<Dispersion>>)
    requires forall k :: 0 <= k < |st| ==> st[k].None?
    ensures Progress(g, slots, rs, 0, st, md)
  {
    assert rs[..0] == [];
    assert Visited(slots, []) == {};
  }

  lemma VisitedStep(slots: map<TweetId, nat>, rs: seq<Record>, i: nat)
    requires i < |rs| && rs[i].tweetId in slots
    ensures Visited(slots, rs[..i + 1]) == Visited(slots, rs[..i]) + {slots[rs[i].tweetId]}
  {
    assert rs[..i + 1] == rs[..i] + [rs[i]];
    VisitedSnoc(slots, rs[..i], rs[i]);
  }

  /**
   * One turn of the descending loop keeps the progress: slot `k`, whose children and
   * ur-children are all aggregated, gets an aggregate (a new one, or the one it already had)
   * and the dispersions computed from it, while every slot done before stays done.
   */
  lemma DoneStep(g: seq<Node>, v: set<nat>, st: seq<Option<Aggregate>>, md: seq<Option<Dispersion>>,
                 k: nat, a: Aggregate, m: Dispersion)
    requires |st| == |g| && |md| == |g| && k < |g| && DoneOn(g, v, st, md)
    requires g[k].children <= v && g[k].urChildren <= v && (st[k].None? || st[k] == Some(a))
    requires Dispersed(g, st[k := Some(a)], md[k := Some(m)], k)
    ensures DoneOn(g, v + {k}, st[k := Some(a)], md[k := Some(m)])
  {
    StoredStep(st, v, k, a);
    DispersedStep(g, v, st, md, k, a, m);
  }

  lemma DispersedStep(g: seq<Node>, v: set<nat>, st: seq<Option<Aggregate>>, md: seq<Option<Dispersion>>,
                      k: nat, a: Aggregate, m: Dispersion)
    requires |st| == |g| && |md| == |g| && k < |g| && DoneOn(g, v, st, md) && (st[k].None? || st[k] == Some(a))
    requires Dispersed(g, st[k := Some(a)], md[k := Some(m)], k)
    ensures AllDispersed(g, v + {k}, st[k := Some(a)], md[k := Some(m)])
  {
    forall j | j in v + {k} && j != k
      ensures Dispersed(g, st[k := Some(a)], md[k := Some(m)], j)
    {
      DoneOnDone(g, v, st, md, j);
      DoneKept(g, st, md, k, a, m, j);
    }
  }

  /** Storing an aggregate for slot `k` adds `k` to the aggregated slots. */
  lemma StoredStep(st: seq<Option<Aggregate>>, v: set<nat>, k: nat, a: Aggregate)
    requires k < |st| && forall j: nat :: Stored(st, j).Some? <==> j in v
    ensures forall j: nat :: Stored(st[k := Some(a)], j).Some? <==> j in v + {k}
  {
  }

  /** At the end of the descending loop, the node of every record is done. */
  lemma ProgressDone(g: seq<Node>, slots: map<TweetId, nat>, rs: seq<Record>,
                     st: seq<Option<Aggregate>>, md: seq<Option<Dispersion>>, j: nat)
    requires Describes(g, slots, rs) && Progress(g, slots, rs, |rs|, st, md) && j < |rs|
    ensures rs[j].tweetId in slots && Done(g, st, md, slots[rs[j].tweetId])
    ensures var k := slots[rs[j].tweetId];
      k < |st| && k < |md| && st[k].Some? && Bounded(st[k].value) && md[k].Some?
  {
    LinkedMentioned(rs, rs[j].tweetId, true);
    assert rs[..|rs|] == rs;
    assert slots[rs[j].tweetId] in Visited(slots, rs);
    DoneOnDone(g, Visited(slots, rs), st, md, slots[rs[j].tweetId]);
  }

  /** `ProgressDone` for every record at once. */
  lemma AllDone(g: seq<Node>, slots: map<TweetId, nat>, rs: seq<Record>,
                st: seq<Option<Aggregate>>, md: seq<Option<Dispersion>>)
    requires Describes(g, slots, rs) && Progress(g, slots, rs, |rs|, st, md)
    ensures forall j :: 0 <= j < |rs| ==> rs[j].tweetId in slots && Done(g, st, md, slots[rs[j].tweetId])
    ensures forall j :: 0 <= j < |rs| ==> var k := slots[rs[j].tweetId];
      k < |st| && k < |md| && st[k].Some? && Bounded(st[k].value) && md[k].Some?
  {
    forall j | 0 <= j < |rs|
      ensures rs[j].tweetId in slots && Done(g, st, md, slots[rs[j].tweetId])
      ensures var k := slots[rs[j].tweetId];
        k < |st| && k < |md| && st[k].Some? && Bounded(st[k].value) && md[k].Some?
    {
      ProgressDone(g, slots, rs, st, md, j);
    }
  }

  /** The count of line 244 after one more record whose node has `d` reply descendants. */
  lemma OvergrownStep(g: seq<Node>, slots: map<TweetId, nat>, rs: seq<Record>, i: nat, bound: int,
                      big: bool, count: nat, next: nat)
    requires i < |rs| && rs[i].tweetId in slots && slots[rs[i].tweetId] < |g|
    requires big == (Tally(g, slots[rs[i].tweetId]).descendants > bound)
    requires count == Overgrown(g, slots, rs[..i], bound) && next == count + if big then 1 else 0
    ensures next == Overgrown(g, slots, rs[..i + 1], bound)
  {
    assert rs[..i + 1][..i] == rs[..i];
  }

  /**
   * Line 244 logs no record: the node of every record has fewer reply descendants than the
   * group has records, because they are distinct nodes of other records.
   */
  lemma {:induction false} NeverOvergrown(g: seq<Node>, slots: map<TweetId, nat>, rs: seq<Record>, m: nat)
    requires Indexed(g, slots) && Describes(g, slots, rs) && Ordered(rs) && Descending(rs) && m <= |rs|
    ensures Overgrown(g, slots, rs[..m], |rs|) == 0
  {
    if m > 0 {
      NeverOvergrown(g, slots, rs, m - 1);
      assert rs[..m][..m - 1] == rs[..m - 1];
      DescendantsCounted(g, slots, rs, m - 1);
    }
  }

  class Conversation {
    /** The `Tree` objects of the group, by arena slot. */
    var nodes: seq<Node>
    /** Per slot, the fields `count_statistics` fills in; `None` while they hold -1. */
    var stats: seq<Option<Aggregate>>
    /** Per slot, the fields `count_mads` fills in; `None` while they hold -1. */
    var mads: seq<Option<Dispersion>>
    /** The memo cache of `tweet_trees`: tweet id to arena slot. */
    var slots: map<TweetId, nat>

    /** The cache and the arena agree: every cached id names the slot holding that id, and back. */
    ghost predicate Valid()
      reads this
    {
      |stats| == |nodes| && |mads| == |nodes| && Indexed(nodes, slots)
    }

    /** Nothing has been aggregated yet: every statistics and dispersion field still holds -1. */
    ghost predicate Blank()
      reads this`stats, this`mads
    {
      (forall k :: 0 <= k < |stats| ==> stats[k].None?) && (forall k :: 0 <= k < |mads| ==> mads[k].None?)
    }

    constructor ()
      ensures Valid() && Blank() && nodes == [] && slots == map[]
    {
      nodes := [];
      stats := [];
      mads := [];
      slots := map[];
    }

    /**
     * `tweet_trees(id)` (line 226): the cached node for `id`, or a fresh `Tree(id)` that is
     * cached from then on. The same id always yields the same slot.
     */
    method Lookup(id: TweetId) returns (k: nat)
      requires Valid()
      modifies this
      ensures Valid() && (nodes, slots, k) == Get(old(nodes), old(slots), id)
      ensures old(Blank()) ==> Blank()
      ensures id in old(slots) ==> stats == old(stats) && mads == old(mads)
      ensures id !in old(slots) ==> stats == old(stats) + [None] && mads == old(mads) + [None]
    {
      if id in slots {
        k := slots[id];
      } else {
        k := |nodes|;
        nodes := nodes + [NewNode(id)];
        stats := stats + [None];
        mads := mads + [None];
        slots := slots[id := k];
      }
    }

    /**
     * One turn of the builder loop (lines 228-240): get or create the node of the record,
     * copy the author and the counters, get or create the node of its parent, and join the
     * parent's `children` (reply) or `ur_children` (retweet, else quote) set. The arena then
     * describes one more record, and every slot cached before keeps its node.
     */
    method AddRecord(r: Record, ghost rs: seq<Record>)
      requires Valid() && Blank() && Describes(nodes, slots, rs)
      modifies this
      ensures Valid() && Blank() && (nodes, slots) == Step(old(nodes), old(slots), r)
      ensures Describes(nodes, slots, rs + [r])
      ensures slots.Keys == old(slots).Keys + {r.tweetId} + if Link(r).Some? then {Link(r).value.parent} else {}
      ensures forall id :: id in old(slots) ==> slots[id] == old(slots)[id]
    {
      ghost var g0, s0 := nodes, slots;
      var k := Lookup(r.tweetId);
      nodes := Fill(nodes, k, r);
      assert Blank();
      var link := Link(r);
      if link.Some? {
        var p := Lookup(link.value.parent);
        nodes := Hang(nodes, p, k, link.value.reply);
        assert Blank();
      }
      StepIndexed(g0, s0, r);
      StepCaches(g0, s0, r);
      StepDescribes(g0, s0, rs, r);
    }

    /** The builder loop of lines 228-240 over all records of the group. */
    method AddRecords(rs: seq<Record>)
      requires Valid() && Blank() && nodes == [] && slots == map[]
      modifies this
      ensures Valid() && Blank() && Describes(nodes, slots, rs)
      ensures slots.Keys == Mentioned(rs)
    {
      for i := 0 to |rs|
        invariant Valid() && Blank() && Describes(nodes, slots, rs[..i])
        invariant slots.Keys == Mentioned(rs[..i])
      {
        assert rs[..i + 1] == rs[..i] + [rs[i]];
        MentionedSnoc(rs[..i], rs[i]);
        AddRecord(rs[i], rs[..i]);
      }
      assert rs[..|rs|] == rs;
    }

    /**
     * `count_statistics` (lines 64-139) on slot `k`. A node already aggregated is left as it
     * is (line 65); otherwise the walk's result, `Target`, is stored, and it is bounded.
     */
    method CountStatistics(k: nat)
      requires Valid() && WellFormed(nodes) && AllSane(nodes, stats) && k < |nodes|
      modifies this
      ensures Valid() && AllSane(nodes, stats)
      ensures nodes == old(nodes) && mads == old(mads) && slots == old(slots)
      ensures old(stats[k]).Some? ==> stats == old(stats)
      ensures old(stats[k]).None? ==> stats == old(stats)[k := Some(Target(nodes, old(stats), k))]
      ensures Settled(nodes, old(stats)) ==> Settled(nodes, stats)
    {
      if stats[k].Some? {
        return;
      }
      var acc := Walk(nodes, stats, k);
      TargetSane(nodes, stats, k);
      StoreSane(nodes, stats, k, acc);
      TargetSettles(nodes, stats, k);
      stats := stats[k := Some(acc)];
    }

    /**
     * `count_mads` (lines 141-178) on slot `k`. The node must have been aggregated: before
     * that its `descendants + 1` is 0 and line 149 divides by it.
     */
    method CountMads(k: nat)
      requires Valid() && Counted(nodes, stats, k)
      modifies this
      ensures Valid() && nodes == old(nodes) && stats == old(stats) && slots == old(slots)
      ensures mads == old(mads)[k := Some(Mads(nodes, stats, k))]
    {
      var d := Spread(nodes, stats, k);
      mads := mads[k := Some(d)];
    }

    /** `Done` on the current state. */
    ghost predicate Finished(k: nat)
      reads this
    {
      Done(nodes, stats, mads, k)
    }

    /** Slot `k` holds a sane aggregate and dispersions: `as_tuple()` can read it. */
    ghost predicate Ready(k: nat)
      reads this
    {
      && k < |nodes| && k < |stats| && k < |mads|
      && stats[k].Some? && Bounded(stats[k].value) && mads[k].Some?
    }

    /** `as_tuple()` of the node in slot `k`. */
    function Row(k: nat): seq<TreeRow.Cell>
      requires Ready(k)
      reads this
    {
      TreeRow.AsTuple(nodes[k], stats[k].value, mads[k].value)
    }

    /**
     * The state of the descending loop after `i` records: the arena is acyclic, every stored
     * aggregate is sane and exact, and exactly the nodes of those records are done.
     */
    ghost predicate Descent(rs: seq<Record>, i: nat)
      requires i <= |rs|
      reads this
    {
      && Valid() && WellFormed(nodes) && AllSane(nodes, stats) && Settled(nodes, stats)
      && Progress(nodes, slots, rs, i, stats, mads)
    }

    /**
     * One turn of the descending loop (lines 242-248) on record `i`: look up its node,
     * `count_statistics`, the two checks of lines 244 and 246, then `count_mads`. The first
     * check would fire if the node had more reply descendants than the group has records,
     * which it cannot: they are distinct nodes of other records. The second never fires either.
     */
    method Visit(rs: seq<Record>, i: nat) returns (overgrown: bool, overleafed: bool)
      requires Describes(nodes, slots, rs) && Ordered(rs) && Descending(rs) && i < |rs| && Descent(rs, i)
      modifies this
      ensures nodes == old(nodes) && slots == old(slots) && Descent(rs, i + 1)
      ensures rs[i].tweetId in slots && slots[rs[i].tweetId] < |nodes|
      ensures overgrown == (Tally(nodes, slots[rs[i].tweetId]).descendants > |rs|) && !overgrown && !overleafed
    {
      DescendantsCounted(nodes, slots, rs, i);
      ChildrenFirst(nodes, slots, rs, i);
      ghost var st0, md0 := stats, mads;
      // `tweet_trees(tweet[0])` hits the cache: the record's node was made by the builder loop.
      var k := slots[rs[i].tweetId];
      CountStatistics(k);
      ghost var a := stats[k].value;
      assert stats == st0[k := Some(a)];
      overgrown := stats[k].value.descendants > |rs|;
      overleafed := stats[k].value.leafDescendants > stats[k].value.descendants;
      CountMads(k);
      VisitedStep(slots, rs, i);
      DoneStep(nodes, Visited(slots, rs[..i]), st0, md0, k, a, mads[k].value);
    }

    /**
     * The descending loop (lines 241-248): every record, in the order of line 360, through
     * `Visit`, with the checks of lines 244 and 246 counted. Every record's node ends up
     * aggregated exactly, with dispersions read from aggregated children.
     */
    method Descend(rs: seq<Record>) returns (overgrown: nat, overleafed: nat)
      requires Valid() && Blank() && Describes(nodes, slots, rs) && Ordered(rs) && Descending(rs) && UnsignedCounts(rs)
      modifies this
      ensures nodes == old(nodes) && slots == old(slots) && Descent(rs, |rs|)
      ensures overgrown == Overgrown(nodes, slots, rs, |rs|) && overgrown == 0 && overleafed == 0
    {
      DescribesWellFormed(nodes, slots, rs);
      CarriesUnsigned(nodes, rs);
      SettledBlank(nodes, stats);
      ProgressStart(nodes, slots, rs, stats, mads);
      ghost var g, sl := nodes, slots;
      overgrown, overleafed := 0, 0;
      for i := 0 to |rs|
        invariant nodes == g && slots == sl && Descent(rs, i)
        invariant overgrown == Overgrown(g, sl, rs[..i], |rs|) && overleafed == 0
      {
        var big, leafy := Visit(rs, i);
        var next := overgrown + if big then 1 else 0;
        OvergrownStep(g, sl, rs, i, |rs|, big, overgrown, next);
        overgrown := next;
        overleafed := overleafed + if leafy then 1 else 0;
      }
      assert rs[..|rs|] == rs;
      NeverOvergrown(g, sl, rs, |rs|);
    }

    /**
     * The insert loop (lines 249-254): the `as_tuple` row of every record's node, in record
     * order, which `executemany` hands to `INSERT IGNORE` in batches of 500.
     */
    method Rows(rs: seq<Record>) returns (rows: seq<seq<TreeRow.Cell>>)
      requires forall j :: 0 <= j < |rs| ==> rs[j].tweetId in slots && Ready(slots[rs[j].tweetId])
      ensures |rows| == |rs| && forall j :: 0 <= j < |rs| ==> rows[j] == Row(slots[rs[j].tweetId])
    {
      rows := [];
      for i := 0 to |rs|
        invariant |rows| == i && forall j :: 0 <= j < i ==> rows[j] == Row(slots[rs[j].tweetId])
      {
        // `tweet_trees(tweet[0])` hits the cache: every record's id is in it.
        var k := slots[rs[i].tweetId];
        rows := rows + [TreeRow.AsTuple(nodes[k], stats[k].value, mads[k].value)];
      }
    }

    /**
     * `enrich_conversation` (lines 225-254) on the records of one ur-conversation, on a fresh
     * cache: build the arena, aggregate every node newest first, and produce one row per record.
     */
    method Enrich(rs: seq<Record>) returns (rows: seq<seq<TreeRow.Cell>>, overgrown: nat, overleafed: nat)
      requires Valid() && Blank() && nodes == [] && slots == map[] && Ordered(rs) && Descending(rs) && UnsignedCounts(rs)
      modifies this
      ensures Valid() && Describes(nodes, slots, rs) && slots.Keys == Mentioned(rs) && Settled(nodes, stats)
      ensures forall j :: 0 <= j < |rs| ==> rs[j].tweetId in slots && Finished(slots[rs[j].tweetId])
      ensures forall j :: 0 <= j < |rs| ==> Ready(slots[rs[j].tweetId])
      ensures |rows| == |rs| && forall j :: 0 <= j < |rs| ==> rows[j] == Row(slots[rs[j].tweetId])
      ensures overgrown == Overgrown(nodes, slots, rs, |rs|) && overgrown == 0 && overleafed == 0
    {
      AddRecords(rs);
      overgrown, overleafed := Descend(rs);
      AllDone(nodes, slots, rs, stats, mads);
      rows := Rows(rs);
    }
  }
}
