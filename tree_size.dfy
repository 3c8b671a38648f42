/**
 * What `descendants` and `ur_descendants` count, and why the check of line 244 of
 * `code/create-db/3_create_tweet_stats_i.py` never fires.
 *
 * `Tally` adds up, over the children of a node, one plus the children's own counts: it
 * counts chains of edges. `Reach` is the set of slots that some chain of edges leads to.
 * The two agree once every slot hangs below at most one node (`Forest`). That is the case
 * for the arena the builder makes, because every record adds at most one edge, below its
 * own node, and the ids of the records are distinct: `tweet_id` is the primary key of
 * `tweets_i`. Every slot below a record's node is then the node of another record, so a
 * node has fewer descendants than the group has records.
 */
module TreeSize {
  import opened Wrappers
  import opened TreeModel
  import opened TreeReach
  import opened Records

  /** The slots one edge below `x`: its reply children, and with `ur` its retweet/quote children too. */
  function Under(g: seq<Node>, x: nat, ur: bool): set<nat>
    requires x < |g|
  {
    if ur then g[x].children + g[x].urChildren else g[x].children
  }

  /** A chain of one or more such edges leads from `x` down to `y`. */
  ghost predicate Below(g: seq<Node>, x: nat, y: nat, ur: bool)
    requires x < |g|
    decreases ID_BOUND - g[x].id
  {
    exists c :: c in Under(g, x, ur) && c < |g| && g[x].id < g[c].id && (c == y || Below(g, c, y, ur))
  }

  /** The slots below `x`: over reply edges (`ur` false) or over edges of both kinds. */
  ghost function Reach(g: seq<Node>, x: nat, ur: bool): set<nat>
    requires x < |g|
  {
    set y: nat | y < |g| && Below(g, x, y, ur)
  }

  /** The slots a chain of reply edges leads to from `x`. */
  ghost function ReplyReach(g: seq<Node>, x: nat): set<nat>
    requires x < |g|
  {
    Reach(g, x, false)
  }

  /** The slots a chain of reply, retweet or quote edges leads to from `x`. */
  ghost function UrReach(g: seq<Node>, x: nat): set<nat>
    requires x < |g|
  {
    Reach(g, x, true)
  }

  /** Slot `y` is one of the slots of `s` or lies below one of them. */
  ghost predicate FromSome(g: seq<Node>, s: set<nat>, y: nat, ur: bool) {
    exists c :: c in s && c < |g| && (c == y || Below(g, c, y, ur))
  }

  /** The slots in or below the slots of `s`. */
  ghost function ReachFrom(g: seq<Node>, s: set<nat>, ur: bool): set<nat> {
    set y: nat | y < |g| && FromSome(g, s, y, ur)
  }

  /** Every slot hangs below at most one node, by at most one edge. */
  ghost predicate Forest(g: seq<Node>) {
    && (forall p, q, c :: 0 <= p < |g| && 0 <= q < |g| && c in Under(g, p, true) && c in Under(g, q, true) ==> p == q)
    && (forall p :: 0 <= p < |g| ==> g[p].children !! g[p].urChildren)
  }

  /** What `descendants` (`ur` false) or `ur_descendants` holds of an aggregate. */
  function Size(a: Aggregate, ur: bool): int {
    if ur then a.urDescendants else a.descendants
  }

  /** Everything below `x` has a larger tweet id; in particular `x` is not below itself. */
  lemma {:induction false} BelowAbove(g: seq<Node>, x: nat, y: nat, ur: bool)
    requires x < |g| && Below(g, x, y, ur)
    ensures y < |g| && g[x].id < g[y].id
    decreases ID_BOUND - g[x].id
  {
    var c :| c in Under(g, x, ur) && c < |g| && g[x].id < g[c].id && (c == y || Below(g, c, y, ur));
    if c != y {
      BelowAbove(g, c, y, ur);
    }
  }

  /** A chain ends with an edge: whatever is below `x` is one edge below `x` or below `x`. */
  lemma {:induction false} LastEdge(g: seq<Node>, x: nat, y: nat, ur: bool)
    requires x < |g| && Below(g, x, y, ur)
    ensures exists p: nat :: p < |g| && (p == x || Below(g, x, p, ur)) && y in Under(g, p, ur)
    decreases ID_BOUND - g[x].id
  {
    var c :| c in Under(g, x, ur) && c < |g| && g[x].id < g[c].id && (c == y || Below(g, c, y, ur));
    if c != y {
      LastEdge(g, c, y, ur);
      var p: nat :| p < |g| && (p == c || Below(g, c, p, ur)) && y in Under(g, p, ur);
      assert Below(g, x, p, ur);
    }
  }

  /** The parent of a slot is unique. */
  lemma OneParent(g: seq<Node>, p: nat, q: nat, c: nat, ur: bool)
    requires Forest(g) && p < |g| && q < |g| && c in Under(g, p, ur) && c in Under(g, q, ur)
    ensures p == q
  {
    assert c in Under(g, p, true) && c in Under(g, q, true);
  }

  /** In a forest, two slots with something in common below them lie on one chain. */
  lemma {:induction false} Converge(g: seq<Node>, a: nat, b: nat, y: nat, ur: bool)
    requires Forest(g) && a < |g| && b < |g|
    requires (y == a || Below(g, a, y, ur)) && (y == b || Below(g, b, y, ur))
    ensures a == b || Below(g, a, b, ur) || Below(g, b, a, ur)
    decreases (ID_BOUND - g[a].id) + (ID_BOUND - g[b].id)
  {
    if y != a && y != b {
      var a1 :| a1 in Under(g, a, ur) && a1 < |g| && g[a].id < g[a1].id && (a1 == y || Below(g, a1, y, ur));
      Converge(g, a1, b, y, ur);
      if a1 == b || Below(g, a1, b, ur) {
        assert Below(g, a, b, ur);
      } else {
        LastEdge(g, b, a1, ur);
        var p: nat :| p < |g| && (p == b || Below(g, b, p, ur)) && a1 in Under(g, p, ur);
        OneParent(g, a, p, a1, ur);
      }
    }
  }

  /** Two siblings have nothing in common below them, nor is one below the other. */
  lemma Apart(g: seq<Node>, x: nat, c: nat, d: nat, y: nat, ur: bool)
    requires WellFormed(g) && Forest(g) && x < |g| && c in Under(g, x, ur) && d in Under(g, x, ur) && c != d
    requires y == c || Below(g, c, y, ur)
    ensures y != d && !Below(g, d, y, ur)
  {
    if y == d || Below(g, d, y, ur) {
      Converge(g, c, d, y, ur);
      if Below(g, c, d, ur) {
        Sibling(g, x, c, d, ur);
      } else {
        Sibling(g, x, d, c, ur);
      }
    }
  }

  /** A child of `x` is not below a sibling. */
  lemma Sibling(g: seq<Node>, x: nat, c: nat, d: nat, ur: bool)
    requires WellFormed(g) && Forest(g) && x < |g| && c in Under(g, x, ur) && d in Under(g, x, ur)
    ensures !Below(g, c, d, ur)
  {
    if Below(g, c, d, ur) {
      LastEdge(g, c, d, ur);
      var p: nat :| p < |g| && (p == c || Below(g, c, p, ur)) && d in Under(g, p, ur);
      OneParent(g, x, p, d, ur);
      if p != c {
        BelowAbove(g, c, p, ur);
      }
    }
  }

  /** Below `x` lies each slot one edge below it, with what lies below that slot. */
  lemma ReachSplit(g: seq<Node>, x: nat, ur: bool)
    requires WellFormed(g) && x < |g|
    ensures Reach(g, x, ur) == ReachFrom(g, Under(g, x, ur), ur)
  {
    forall y | y in ReachFrom(g, Under(g, x, ur), ur)
      ensures y in Reach(g, x, ur)
    {
      var c :| c in Under(g, x, ur) && c < |g| && (c == y || Below(g, c, y, ur));
      assert c in g[x].children || c in g[x].urChildren;
      assert Below(g, x, y, ur);
    }
  }

  /** The slots in or below `c`, and those in or below the rest of `s`. */
  lemma ReachFromPick(g: seq<Node>, s: set<nat>, c: nat, ur: bool)
    requires c in s && c < |g|
    ensures ReachFrom(g, s, ur) == ({c} + Reach(g, c, ur)) + ReachFrom(g, s - {c}, ur)
  {
    forall y | y in ReachFrom(g, s, ur)
      ensures y in ({c} + Reach(g, c, ur)) + ReachFrom(g, s - {c}, ur)
    {
      var d :| d in s && d < |g| && (d == y || Below(g, d, y, ur));
      if d != c {
        assert d in s - {c};
      }
    }
    forall y | y in Reach(g, c, ur)
      ensures y in ReachFrom(g, s, ur)
    {
      assert c in s && c < |g| && Below(g, c, y, ur);
    }
  }

  lemma ReachFromUnion(g: seq<Node>, a: set<nat>, b: set<nat>, ur: bool)
    ensures ReachFrom(g, a + b, ur) == ReachFrom(g, a, ur) + ReachFrom(g, b, ur)
  {
  }

  /** What lies in or below a child of `x` does not lie in or below its siblings `s`. */
  lemma ReachFromApart(g: seq<Node>, x: nat, c: nat, s: set<nat>, ur: bool)
    requires WellFormed(g) && Forest(g) && x < |g| && s <= Under(g, x, ur) && c in Under(g, x, ur) && c !in s
    ensures ({c} + Reach(g, c, ur)) !! ReachFrom(g, s, ur)
  {
    forall y | y in ReachFrom(g, s, ur)
      ensures y != c && y !in Reach(g, c, ur)
    {
      var d :| d in s && d < |g| && (d == y || Below(g, d, y, ur));
      Apart(g, x, d, c, y, ur);
    }
  }

  /** What lies in or below two disjoint sets of children of `x` is disjoint. */
  lemma ReachFromsApart(g: seq<Node>, x: nat, a: set<nat>, b: set<nat>, ur: bool)
    requires WellFormed(g) && Forest(g) && x < |g| && a <= Under(g, x, ur) && b <= Under(g, x, ur) && a !! b
    ensures ReachFrom(g, a, ur) !! ReachFrom(g, b, ur)
  {
    forall y | y in ReachFrom(g, a, ur)
      ensures y !in ReachFrom(g, b, ur)
    {
      var c :| c in a && c < |g| && (c == y || Below(g, c, y, ur));
      ReachFromApart(g, x, c, b, ur);
    }
  }

  /**
   * Over a set `s` of children of `x`, the chains `TallyOver` counts lead to distinct slots:
   * the slots in or below `s` are as many as `s` plus the descendants it adds up.
   */
  lemma {:induction false} ReachFromCount(g: seq<Node>, x: nat, s: set<nat>, ur: bool, reply: bool)
    requires WellFormed(g) && Forest(g) && x < |g| && s <= Under(g, x, ur) && (ur || reply)
    ensures |ReachFrom(g, s, ur)| == |s| + Size(TallyOver(g, s, reply, g[x].id), ur)
    decreases ID_BOUND - g[x].id, 0, |s|
  {
    KidsAbove(g, x);
    assert Above(g, s, g[x].id);
    if s == {} {
      assert ReachFrom(g, s, ur) == {};
    } else {
      var c :| c in s;
      var rest := TallyOver(g, s - {c}, reply, g[x].id);
      ReachFromPick(g, s, c, ur);
      ReachFromApart(g, x, c, s - {c}, ur);
      if c in Reach(g, c, ur) {
        BelowAbove(g, c, c, ur);
      }
      ReachFromCount(g, x, s - {c}, ur, reply);
      ReachCount(g, c);
      TallyOverPick(g, s, reply, g[x].id, c);
      assert Size(Add(Drop(Tally(g, c), reply), rest), ur) == Size(Tally(g, c), ur) + Size(rest, ur);
    }
  }

  /**
   * In a forest, `descendants` as `Tally` defines it is the number of slots below `x` over
   * reply edges, and `ur_descendants` the number below it over edges of both kinds.
   */
  lemma {:induction false} ReachCount(g: seq<Node>, x: nat)
    requires WellFormed(g) && Forest(g) && x < |g|
    ensures Tally(g, x).descendants == |ReplyReach(g, x)|
    ensures Tally(g, x).urDescendants == |UrReach(g, x)|
    decreases ID_BOUND - g[x].id, 1, 0
  {
    var n := g[x];
    KidsAbove(g, x);
    ReachSplit(g, x, false);
    ReachSplit(g, x, true);
    ReachFromCount(g, x, n.children, false, true);
    ReachFromCount(g, x, n.children, true, true);
    ReachFromCount(g, x, n.urChildren, true, false);
    ReachFromUnion(g, n.children, n.urChildren, true);
    ReachFromsApart(g, x, n.children, n.urChildren, true);
    DropOver(g, n.urChildren, false, false, n.id);
  }

  /** The record that put slot `c` below slot `p`. */
  lemma EdgeRecord(g: seq<Node>, rs: seq<Record>, p: nat, c: nat, reply: bool) returns (j: nat)
    requires EdgesLinked(g, rs) && p < |g| && c in Joined(g[p], reply)
    ensures j < |rs| && c < |g| && rs[j].tweetId == g[c].id && Link(rs[j]) == Some(Edge(g[p].id, reply))
  {
    LinkedWitness(rs, g[p].id, reply, g[c].id);
    j :| 0 <= j < |rs| && rs[j].tweetId == g[c].id && Link(rs[j]) == Some(Edge(g[p].id, reply));
  }

  /** No two records of the group share a tweet id. */
  lemma SameRecord(rs: seq<Record>, j: nat, k: nat)
    requires Descending(rs) && j < |rs| && k < |rs| && rs[j].tweetId == rs[k].tweetId
    ensures j == k
  {
  }

  /** The one record behind a slot decides which parent and which set the slot hangs in. */
  lemma HungBy(g: seq<Node>, rs: seq<Record>, j: nat, p: nat, c: nat, reply: bool)
    requires EdgesLinked(g, rs) && Descending(rs) && j < |rs| && p < |g| && c < |g| && rs[j].tweetId == g[c].id
    ensures c in Joined(g[p], reply) ==> Link(rs[j]) == Some(Edge(g[p].id, reply))
  {
    if c in Joined(g[p], reply) {
      var k := EdgeRecord(g, rs, p, c, reply);
      SameRecord(rs, j, k);
    }
  }

  /**
   * The arena built from records with distinct ids is a forest: each record adds one edge,
   * below its own node, so no slot has two parents nor two edges from one parent.
   */
  lemma DescribesForest(g: seq<Node>, slots: map<TweetId, nat>, rs: seq<Record>)
    requires Indexed(g, slots) && Describes(g, slots, rs) && Descending(rs)
    ensures Forest(g)
  {
    forall p, q, c | 0 <= p < |g| && 0 <= q < |g| && c in Under(g, p, true) && c in Under(g, q, true)
      ensures p == q
    {
      var rp := c in g[p].children;
      var j := EdgeRecord(g, rs, p, c, rp);
      HungBy(g, rs, j, q, c, true);
      HungBy(g, rs, j, q, c, false);
    }
    forall p, c | 0 <= p < |g| && c in g[p].children
      ensures c !in g[p].urChildren
    {
      var j := EdgeRecord(g, rs, p, c, true);
      HungBy(g, rs, j, p, c, false);
    }
  }

  /** The tweet ids held by the slots of `s`. */
  ghost function IdsAt(g: seq<Node>, s: set<nat>): set<int> {
    set y | y in s && y < |g| :: g[y].id
  }

  /** Distinct slots hold distinct ids: a set of slots holds as many ids as it has slots. */
  lemma {:induction false} IdCount(g: seq<Node>, slots: map<TweetId, nat>, s: set<nat>)
    requires Indexed(g, slots) && forall y :: y in s ==> y < |g|
    ensures |IdsAt(g, s)| == |s|
    decreases |s|
  {
    if s != {} {
      var y :| y in s;
      IdCount(g, slots, s - {y});
      assert IdsAt(g, s) == IdsAt(g, s - {y}) + {g[y].id};
      assert g[y].id !in IdsAt(g, s - {y});
    }
  }

  lemma {:induction false} IdsCount(rs: seq<Record>)
    ensures |Ids(rs)| <= |rs|
  {
    if rs != [] {
      IdsCount(rs[..|rs| - 1]);
    }
  }

  /** Every slot below a node is the node of a record: only a record adds an edge, below its own node. */
  lemma ReachRecorded(g: seq<Node>, rs: seq<Record>, x: nat, ur: bool, y: nat)
    requires EdgesLinked(g, rs) && x < |g| && y in Reach(g, x, ur)
    ensures g[y].id in Ids(rs)
  {
    LastEdge(g, x, y, ur);
    var p: nat :| p < |g| && (p == x || Below(g, x, p, ur)) && y in Under(g, p, ur);
    var j := EdgeRecord(g, rs, p, y, y in g[p].children);
    assert rs[j] in rs;
  }

  /** The node of a record has fewer slots below it, of either kind, than the group has records. */
  lemma FewerThanRecords(g: seq<Node>, slots: map<TweetId, nat>, rs: seq<Record>, k: nat, ur: bool)
    requires Indexed(g, slots) && Describes(g, slots, rs) && k < |g| && g[k].id in Ids(rs)
    ensures |Reach(g, k, ur)| < |rs|
  {
    var s := Reach(g, k, ur) + {k};
    if k in Reach(g, k, ur) {
      BelowAbove(g, k, k, ur);
    }
    forall y | y in s
      ensures g[y].id in Ids(rs)
    {
      if y != k {
        ReachRecorded(g, rs, k, ur, y);
      }
    }
    IdCount(g, slots, s);
    SubsetCardinality(IdsAt(g, s), Ids(rs));
    IdsCount(rs);
  }

  /**
   * Lines 241-244: for the node of every record, `descendants` is the number of tweets below
   * it over reply edges and `ur_descendants` the number below it over edges of every kind,
   * and both are smaller than the number of records of the group.
   */
  lemma DescendantsCounted(g: seq<Node>, slots: map<TweetId, nat>, rs: seq<Record>, i: nat)
    requires Indexed(g, slots) && Describes(g, slots, rs) && Ordered(rs) && Descending(rs) && i < |rs|
    ensures rs[i].tweetId in slots && slots[rs[i].tweetId] < |g|
    ensures var k := slots[rs[i].tweetId];
      && Tally(g, k).descendants == |ReplyReach(g, k)| < |rs|
      && Tally(g, k).urDescendants == |UrReach(g, k)| < |rs|
  {
    LinkedMentioned(rs, rs[i].tweetId, true);
    assert rs[i] in rs;
    var k := slots[rs[i].tweetId];
    DescribesWellFormed(g, slots, rs);
    DescribesForest(g, slots, rs);
    ReachCount(g, k);
    FewerThanRecords(g, slots, rs, k, false);
    FewerThanRecords(g, slots, rs, k, true);
  }
}
