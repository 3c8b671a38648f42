/**
 * The rows `enrich_conversation` receives (the query of line 360 of
 * `code/create-db/3_create_tweet_stats_i.py`) and what the builder loop (lines 226-240)
 * makes of them, stated declaratively: which node exists for which tweet id, which author
 * and counters it carries, and which edges hang below it.
 */
module Records {
  import opened Wrappers
  import opened TreeModel

  /** `(tweet_id, author_id, in_reply_to, retweet_of, quotes, reply, quote, like, retweet)`. */
  datatype Record = Record(
    tweetId: TweetId, authorId: int,
    inReplyTo: Option<TweetId>, retweetOf: Option<TweetId>, quotes: Option<TweetId>,
    own: Counters)

  /** The parent set a record joins: `reply` for `children`, otherwise `ur_children`. */
  datatype Edge = Edge(parent: TweetId, reply: bool)

  /**
   * Lines 235-240: a reply edge if `in_reply_to` is set, otherwise a retweet edge, otherwise
   * a quote edge; a record without any of the three joins no parent set.
   */
  function Link(r: Record): (e: Option<Edge>)
    ensures e.None? <==> r.inReplyTo.None? && r.retweetOf.None? && r.quotes.None?
    ensures e.Some? ==> (e.value.reply <==> r.inReplyTo.Some?)
  {
    if r.inReplyTo.Some? then Some(Edge(r.inReplyTo.value, true))
    else if r.retweetOf.Some? then Some(Edge(r.retweetOf.value, false))
    else if r.quotes.Some? then Some(Edge(r.quotes.value, false))
    else None
  }

  /** The last record of `rs` for tweet `x`: the one whose fields the node ends up with. */
  function Latest(rs: seq<Record>, x: TweetId): (r: Option<Record>)
    ensures r.Some? ==> r.value in rs && r.value.tweetId == x
  {
    if rs == [] then None
    else if rs[|rs| - 1].tweetId == x then Some(rs[|rs| - 1])
    else Latest(rs[..|rs| - 1], x)
  }

  /** The author a node for `x` carries: the latest record's, or -1 when `x` only appears as a parent. */
  function AuthorOf(rs: seq<Record>, x: TweetId): int {
    if Latest(rs, x).Some? then Latest(rs, x).value.authorId else -1
  }

  /** The counters a node for `x` carries, likewise. */
  function OwnOf(rs: seq<Record>, x: TweetId): Counters {
    if Latest(rs, x).Some? then Latest(rs, x).value.own else NoCounters
  }

  /** The tweet ids of `rs`. */
  function Ids(rs: seq<Record>): (s: set<TweetId>)
    ensures forall r :: r in rs ==> r.tweetId in s
  {
    if rs == [] then {} else Ids(rs[..|rs| - 1]) + {rs[|rs| - 1].tweetId}
  }

  /** The tweet ids of the records of `rs` that join the `reply` set of `x`. */
  function Linked(rs: seq<Record>, x: TweetId, reply: bool): set<TweetId> {
    if rs == [] then {}
    else
      var r := rs[|rs| - 1];
      Linked(rs[..|rs| - 1], x, reply) + if Link(r) == Some(Edge(x, reply)) then {r.tweetId} else {}
  }

  /** Every id `tweet_trees` is called with while the records are attached: the records' own and their parents. */
  function Mentioned(rs: seq<Record>): set<TweetId> {
    if rs == [] then {}
    else
      var r := rs[|rs| - 1];
      Mentioned(rs[..|rs| - 1]) + {r.tweetId} + if Link(r).Some? then {Link(r).value.parent} else {}
  }

  /** The memo cache and the arena agree: every cached id names the slot holding it, and back. */
  ghost predicate Indexed(g: seq<Node>, slots: map<TweetId, nat>) {
    && (forall id :: id in slots ==> slots[id] < |g| && g[slots[id]].id == id)
    && (forall k :: 0 <= k < |g| ==> g[k].id in slots && slots[g[k].id] == k)
  }

  /** Each node carries its latest record's author and counters. */
  ghost predicate Carries(g: seq<Node>, rs: seq<Record>) {
    forall k :: 0 <= k < |g| ==> g[k].authorId == AuthorOf(rs, g[k].id) && g[k].own == OwnOf(rs, g[k].id)
  }

  /** Every edge below a node comes from a record that named the node as its parent. */
  ghost predicate EdgesLinked(g: seq<Node>, rs: seq<Record>) {
    && (forall k, c {:trigger c in g[k].children} :: 0 <= k < |g| && c in g[k].children ==> c < |g| && g[c].id in Linked(rs, g[k].id, true))
    && (forall k, c {:trigger c in g[k].urChildren} :: 0 <= k < |g| && c in g[k].urChildren ==> c < |g| && g[c].id in Linked(rs, g[k].id, false))
  }

  /** The parent set of `n` that reply (`reply`) or retweet and quote edges join. */
  function Joined(n: Node, reply: bool): set<nat> {
    if reply then n.children else n.urChildren
  }

  /** Every record that names a node as its `reply` parent hangs below it in that set. */
  ghost predicate HungIn(g: seq<Node>, slots: map<TweetId, nat>, rs: seq<Record>, reply: bool) {
    forall k, y :: 0 <= k < |g| && y in Linked(rs, g[k].id, reply) ==> y in slots && slots[y] in Joined(g[k], reply)
  }

  /** Every record that names a node as its parent hangs below it. */
  ghost predicate LinksHung(g: seq<Node>, slots: map<TweetId, nat>, rs: seq<Record>) {
    HungIn(g, slots, rs, true) && HungIn(g, slots, rs, false)
  }

  /**
   * The arena is what attaching `rs` produces: every mentioned id has a node, each node
   * carries its latest record's author and counters, and a node's `children` (`ur_children`)
   * are exactly the nodes of the records that named it as reply (retweet or quote) parent.
   */
  ghost predicate Describes(g: seq<Node>, slots: map<TweetId, nat>, rs: seq<Record>) {
    Mentioned(rs) <= slots.Keys && Carries(g, rs) && EdgesLinked(g, rs) && LinksHung(g, slots, rs)
  }

  /** Lines 230-234: the record's author and counters are copied onto its node. */
  function Fill(g: seq<Node>, k: nat, r: Record): (h: seq<Node>)
    requires k < |g|
    ensures |h| == |g|
  {
    g[k := g[k].(authorId := r.authorId, own := r.own)]
  }

  /** Lines 235-240: slot `k` joins the `children` (`reply`) or `ur_children` set of slot `p`. */
  function Hang(g: seq<Node>, p: nat, k: nat, reply: bool): (h: seq<Node>)
    requires p < |g|
    ensures |h| == |g|
  {
    g[p := if reply then g[p].(children := g[p].children + {k}) else g[p].(urChildren := g[p].urChildren + {k})]
  }

  /**
   * `tweet_trees(id)` (line 226) on an arena and its memo cache: the cached slot, or a new
   * node `Tree(id)` in a new slot that is cached from then on.
   */
  function Get(g: seq<Node>, slots: map<TweetId, nat>, id: TweetId): (res: (seq<Node>, map<TweetId, nat>, nat))
    requires Indexed(g, slots)
    ensures var (h, s, k) := res;
      && Indexed(h, s) && k < |h| && h[k].id == id && s == slots[id := k]
      && (forall x :: x in slots ==> x in s && s[x] == slots[x])
      && (id in slots ==> h == g && k == slots[id])
      && (id !in slots ==> h == g + [NewNode(id)] && k == |g|)
  {
    if id in slots then (g, slots, slots[id])
    else (g + [NewNode(id)], slots[id := |g|], |g|)
  }

  /** One turn of the builder loop (lines 228-240) on an arena and its memo cache. */
  function Step(g: seq<Node>, slots: map<TweetId, nat>, r: Record): (seq<Node>, map<TweetId, nat>)
    requires Indexed(g, slots)
  {
    var (g1, s1, k) := Get(g, slots, r.tweetId);
    var g2 := Fill(g1, k, r);
    match Link(r)
    case None => (g2, s1)
    case Some(e) =>
      var (g3, s3, p) := Get(g2, s1, e.parent);
      (Hang(g3, p, k, e.reply), s3)
  }

  /** The arena after attaching `r` to an arena that already holds nodes for its ids. */
  function Attached(g: seq<Node>, slots: map<TweetId, nat>, r: Record): (h: seq<Node>)
    requires Indexed(g, slots) && r.tweetId in slots
    requires Link(r).Some? ==> Link(r).value.parent in slots
    ensures |h| == |g|
  {
    var g1 := Fill(g, slots[r.tweetId], r);
    match Link(r)
    case None => g1
    case Some(e) => Hang(g1, slots[e.parent], slots[r.tweetId], e.reply)
  }

  lemma {:induction false} LatestAbsent(rs: seq<Record>, x: TweetId)
    requires x !in Mentioned(rs)
    ensures Latest(rs, x).None?
  {
    if rs != [] {
      LatestAbsent(rs[..|rs| - 1], x);
    }
  }

  lemma {:induction false} LinkedMentioned(rs: seq<Record>, x: TweetId, reply: bool)
    ensures Linked(rs, x, reply) <= Ids(rs) <= Mentioned(rs)
    ensures Linked(rs, x, reply) != {} ==> x in Mentioned(rs)
  {
    if rs != [] {
      LinkedMentioned(rs[..|rs| - 1], x, reply);
    }
  }

  /** Creating a node for an id no record mentions keeps the description (the `Tree(id)` default). */
  lemma DescribesFresh(g: seq<Node>, slots: map<TweetId, nat>, rs: seq<Record>, x: TweetId)
    requires Indexed(g, slots) && Describes(g, slots, rs) && x !in slots
    ensures Indexed(g + [NewNode(x)], slots[x := |g|]) && Describes(g + [NewNode(x)], slots[x := |g|], rs)
  {
    CarriesFresh(g, rs, x);
    EdgesLinkedFresh(g, rs, x);
    LinksHungFresh(g, slots, rs, x);
  }

  lemma CarriesFresh(g: seq<Node>, rs: seq<Record>, x: TweetId)
    requires Carries(g, rs) && x !in Mentioned(rs)
    ensures Carries(g + [NewNode(x)], rs)
  {
    LatestAbsent(rs, x);
  }

  lemma EdgesLinkedFresh(g: seq<Node>, rs: seq<Record>, x: TweetId)
    requires EdgesLinked(g, rs)
    ensures EdgesLinked(g + [NewNode(x)], rs)
  {
    var h := g + [NewNode(x)];
    assert h[|g|] == Node(x, -1, NoCounters, {}, {});
    forall k: int, c: nat | 0 <= k < |h| && c in h[k].children
      ensures c < |h| && h[c].id in Linked(rs, h[k].id, true)
    {
      assert k < |g| && h[k] == g[k];
      assert c < |g|;
      assert h[c] == g[c];
    }
    forall k: int, c: nat | 0 <= k < |h| && c in h[k].urChildren
      ensures c < |h| && h[c].id in Linked(rs, h[k].id, false)
    {
      assert k < |g| && h[k] == g[k];
      assert c < |g|;
      assert h[c] == g[c];
    }
  }

  lemma HungInFresh(g: seq<Node>, slots: map<TweetId, nat>, rs: seq<Record>, x: TweetId, reply: bool)
    requires HungIn(g, slots, rs, reply) && x !in Mentioned(rs)
    ensures HungIn(g + [NewNode(x)], slots[x := |g|], rs, reply)
  {
    var h := g + [NewNode(x)];
    LinkedMentioned(rs, x, reply);
    forall k, y | 0 <= k < |h| && y in Linked(rs, h[k].id, reply)
      ensures y in slots[x := |g|] && slots[x := |g|][y] in Joined(h[k], reply)
    {
      assert k < |g| && h[k] == g[k];
      LinkedMentioned(rs, h[k].id, reply);
    }
  }

  lemma LinksHungFresh(g: seq<Node>, slots: map<TweetId, nat>, rs: seq<Record>, x: TweetId)
    requires LinksHung(g, slots, rs) && x !in Mentioned(rs)
    ensures LinksHung(g + [NewNode(x)], slots[x := |g|], rs)
  {
    HungInFresh(g, slots, rs, x, true);
    HungInFresh(g, slots, rs, x, false);
  }

  lemma LatestSnoc(rs: seq<Record>, r: Record, x: TweetId)
    ensures Latest(rs + [r], x) == if r.tweetId == x then Some(r) else Latest(rs, x)
  {
    assert (rs + [r])[..|rs|] == rs;
  }

  lemma LinkedSnoc(rs: seq<Record>, r: Record, x: TweetId, reply: bool)
    ensures Linked(rs + [r], x, reply) == Linked(rs, x, reply) + if Link(r) == Some(Edge(x, reply)) then {r.tweetId} else {}
  {
    assert (rs + [r])[..|rs|] == rs;
  }

  lemma MentionedSnoc(rs: seq<Record>, r: Record)
    ensures Mentioned(rs + [r]) == Mentioned(rs) + {r.tweetId} + if Link(r).Some? then {Link(r).value.parent} else {}
  {
    assert (rs + [r])[..|rs|] == rs;
  }

  /** The edges `r` adds below slot `j`, in its `reply` set. */
  function Added(slots: map<TweetId, nat>, r: Record, j: nat, reply: bool): set<nat>
    requires r.tweetId in slots
  {
    if Link(r).Some? && Link(r).value.reply == reply && Link(r).value.parent in slots && slots[Link(r).value.parent] == j
    then {slots[r.tweetId]} else {}
  }

  /** Attaching `r` changes the author and counters of its own slot and adds one edge, and nothing else. */
  lemma AttachedAt(g: seq<Node>, slots: map<TweetId, nat>, r: Record, j: nat)
    requires Indexed(g, slots) && r.tweetId in slots
    requires Link(r).Some? ==> Link(r).value.parent in slots
    requires j < |g|
    ensures var h := Attached(g, slots, r);
      && h[j].id == g[j].id
      && h[j].authorId == (if j == slots[r.tweetId] then r.authorId else g[j].authorId)
      && h[j].own == (if j == slots[r.tweetId] then r.own else g[j].own)
      && h[j].children == g[j].children + Added(slots, r, j, true)
      && h[j].urChildren == g[j].urChildren + Added(slots, r, j, false)
  {
  }

  lemma IndexedAttached(g: seq<Node>, slots: map<TweetId, nat>, r: Record)
    requires Indexed(g, slots) && r.tweetId in slots
    requires Link(r).Some? ==> Link(r).value.parent in slots
    ensures Indexed(Attached(g, slots, r), slots)
  {
    var h := Attached(g, slots, r);
    forall j | 0 <= j < |h|
      ensures h[j].id == g[j].id
    {
      AttachedAt(g, slots, r, j);
    }
  }

  lemma CarriesAttached(g: seq<Node>, slots: map<TweetId, nat>, rs: seq<Record>, r: Record)
    requires Indexed(g, slots) && Carries(g, rs) && r.tweetId in slots
    requires Link(r).Some? ==> Link(r).value.parent in slots
    ensures Carries(Attached(g, slots, r), rs + [r])
  {
    var h := Attached(g, slots, r);
    forall j | 0 <= j < |h|
      ensures h[j].authorId == AuthorOf(rs + [r], h[j].id) && h[j].own == OwnOf(rs + [r], h[j].id)
    {
      AttachedAt(g, slots, r, j);
      LatestSnoc(rs, r, h[j].id);
    }
  }

  lemma EdgesLinkedAttached(g: seq<Node>, slots: map<TweetId, nat>, rs: seq<Record>, r: Record)
    requires Indexed(g, slots) && EdgesLinked(g, rs) && r.tweetId in slots
    requires Link(r).Some? ==> Link(r).value.parent in slots
    ensures EdgesLinked(Attached(g, slots, r), rs + [r])
  {
    var h := Attached(g, slots, r);
    forall j: int, c: nat | 0 <= j < |h| && c in h[j].children
      ensures c < |h| && h[c].id in Linked(rs + [r], h[j].id, true)
    {
      AttachedAt(g, slots, r, j);
      LinkedSnoc(rs, r, h[j].id, true);
      if c in g[j].children {
        AttachedAt(g, slots, r, c);
      } else {
        assert c in Added(slots, r, j, true);
        AttachedAt(g, slots, r, c);
      }
    }
    forall j: int, c: nat | 0 <= j < |h| && c in h[j].urChildren
      ensures c < |h| && h[c].id in Linked(rs + [r], h[j].id, false)
    {
      AttachedAt(g, slots, r, j);
      LinkedSnoc(rs, r, h[j].id, false);
      if c in g[j].urChildren {
        AttachedAt(g, slots, r, c);
      } else {
        assert c in Added(slots, r, j, false);
        AttachedAt(g, slots, r, c);
      }
    }
  }

  lemma HungInAttached(g: seq<Node>, slots: map<TweetId, nat>, rs: seq<Record>, r: Record, reply: bool)
    requires Indexed(g, slots) && HungIn(g, slots, rs, reply) && r.tweetId in slots
    requires Link(r).Some? ==> Link(r).value.parent in slots
    ensures HungIn(Attached(g, slots, r), slots, rs + [r], reply)
  {
    var h := Attached(g, slots, r);
    forall j, y | 0 <= j < |h| && y in Linked(rs + [r], h[j].id, reply)
      ensures y in slots && slots[y] in Joined(h[j], reply)
    {
      AttachedAt(g, slots, r, j);
      LinkedSnoc(rs, r, h[j].id, reply);
      if y !in Linked(rs, h[j].id, reply) {
        assert slots[y] in Added(slots, r, j, reply);
      }
    }
  }

  lemma LinksHungAttached(g: seq<Node>, slots: map<TweetId, nat>, rs: seq<Record>, r: Record)
    requires Indexed(g, slots) && LinksHung(g, slots, rs) && r.tweetId in slots
    requires Link(r).Some? ==> Link(r).value.parent in slots
    ensures LinksHung(Attached(g, slots, r), slots, rs + [r])
  {
    HungInAttached(g, slots, rs, r, true);
    HungInAttached(g, slots, rs, r, false);
  }

  /** Attaching one more record to an arena that holds nodes for its ids describes the longer sequence. */
  lemma DescribesAttached(g: seq<Node>, slots: map<TweetId, nat>, rs: seq<Record>, r: Record)
    requires Indexed(g, slots) && Describes(g, slots, rs) && r.tweetId in slots
    requires Link(r).Some? ==> Link(r).value.parent in slots
    ensures Indexed(Attached(g, slots, r), slots) && Describes(Attached(g, slots, r), slots, rs + [r])
  {
    IndexedAttached(g, slots, r);
    MentionedSnoc(rs, r);
    CarriesAttached(g, slots, rs, r);
    EdgesLinkedAttached(g, slots, rs, r);
    LinksHungAttached(g, slots, rs, r);
  }

  /** A builder turn keeps the memo cache consistent with the arena, which only grows. */
  lemma StepIndexed(g: seq<Node>, slots: map<TweetId, nat>, r: Record)
    requires Indexed(g, slots)
    ensures Indexed(Step(g, slots, r).0, Step(g, slots, r).1) && |g| <= |Step(g, slots, r).0|
  {
    var (g1, s1, k) := Get(g, slots, r.tweetId);
    if Link(r).Some? {
      var (g3, s3, p) := Get(Fill(g1, k, r), s1, Link(r).value.parent);
      assert Step(g, slots, r) == (Hang(g3, p, k, Link(r).value.reply), s3);
    }
  }

  /** A builder turn keeps every cached slot and caches the record's id and its parent's. */
  lemma StepCaches(g: seq<Node>, slots: map<TweetId, nat>, r: Record)
    requires Indexed(g, slots)
    ensures var s := Step(g, slots, r).1;
      && s.Keys == slots.Keys + {r.tweetId} + (if Link(r).Some? then {Link(r).value.parent} else {})
      && (forall id :: id in slots ==> s[id] == slots[id])
  {
    var (g1, s1, k) := Get(g, slots, r.tweetId);
    if Link(r).Some? {
      var (g3, s3, p) := Get(Fill(g1, k, r), s1, Link(r).value.parent);
      assert Step(g, slots, r).1 == s3;
    }
  }

  /** A lookup keeps the description, whether it finds the node or creates it. */
  lemma GetDescribes(g: seq<Node>, slots: map<TweetId, nat>, rs: seq<Record>, id: TweetId)
    requires Indexed(g, slots) && Describes(g, slots, rs)
    ensures Describes(Get(g, slots, id).0, Get(g, slots, id).1, rs)
  {
    if id !in slots {
      DescribesFresh(g, slots, rs, id);
    }
  }

  /** Copying a record's fields onto a node commutes with a lookup. */
  lemma GetFill(g: seq<Node>, slots: map<TweetId, nat>, k: nat, r: Record, id: TweetId)
    requires Indexed(g, slots) && k < |g|
    ensures Indexed(Fill(g, k, r), slots)
    ensures Get(Fill(g, k, r), slots, id) == (Fill(Get(g, slots, id).0, k, r), Get(g, slots, id).1, Get(g, slots, id).2)
  {
    if id !in slots {
      assert Fill(g, k, r) + [NewNode(id)] == Fill(g + [NewNode(id)], k, r);
    }
  }

  /** A builder turn leaves an arena that describes one more record. */
  lemma StepDescribes(g: seq<Node>, slots: map<TweetId, nat>, rs: seq<Record>, r: Record)
    requires Indexed(g, slots) && Describes(g, slots, rs)
    ensures Describes(Step(g, slots, r).0, Step(g, slots, r).1, rs + [r])
  {
    var (g1, s1, k) := Get(g, slots, r.tweetId);
    GetDescribes(g, slots, rs, r.tweetId);
    match Link(r)
    case None =>
      assert Step(g, slots, r) == (Attached(g1, s1, r), s1);
      DescribesAttached(g1, s1, rs, r);
    case Some(e) =>
      var (b, sb, p) := Get(g1, s1, e.parent);
      GetDescribes(g1, s1, rs, e.parent);
      GetFill(g1, s1, k, r, e.parent);
      assert Step(g, slots, r) == (Attached(b, sb, r), sb);
      DescribesAttached(b, sb, rs, r);
  }

  /**
   * Every record refers to an older tweet: a reply, retweet or quote is younger than its
   * parent, and tweet ids grow with time.
   */
  predicate Ordered(rs: seq<Record>) {
    forall j :: 0 <= j < |rs| && Link(rs[j]).Some? ==> Link(rs[j]).value.parent < rs[j].tweetId
  }

  /**
   * `ORDER BY tweet_id DESC` (line 360): the records come newest first, and no id comes
   * twice, since `tweet_id` is the primary key of `tweets_i` (line 165 of
   * `code/create-db/1_initial_load.py`).
   */
  predicate Descending(rs: seq<Record>) {
    forall i, j :: 0 <= i < j < |rs| ==> rs[j].tweetId < rs[i].tweetId
  }

  /**
   * The engagement counters come from `INTEGER UNSIGNED` columns (lines 168-171 of
   * `code/create-db/1_initial_load.py`).
   */
  predicate UnsignedCounts(rs: seq<Record>) {
    forall r :: r in rs ==> r.own.NonNegative()
  }

  /** The nodes built from records with unsigned counters carry unsigned counters. */
  lemma CarriesUnsigned(g: seq<Node>, rs: seq<Record>)
    requires Carries(g, rs) && UnsignedCounts(rs)
    ensures OwnUnsigned(g)
  {
    forall k | 0 <= k < |g|
      ensures g[k].own.NonNegative()
    {
      if Latest(rs, g[k].id).Some? {
        assert Latest(rs, g[k].id).value in rs;
      }
    }
  }

  /** An id linked below `x` is the id of a record of `rs` that names `x` as its parent. */
  lemma {:induction false} LinkedWitness(rs: seq<Record>, x: TweetId, reply: bool, y: TweetId)
    requires y in Linked(rs, x, reply)
    ensures exists j :: 0 <= j < |rs| && rs[j].tweetId == y && Link(rs[j]) == Some(Edge(x, reply))
  {
    var front := rs[..|rs| - 1];
    if y in Linked(front, x, reply) {
      LinkedWitness(front, x, reply, y);
      var j :| 0 <= j < |front| && front[j].tweetId == y && Link(front[j]) == Some(Edge(x, reply));
      assert rs[j] == front[j];
    } else {
      assert rs[|rs| - 1].tweetId == y && Link(rs[|rs| - 1]) == Some(Edge(x, reply));
    }
  }

  /** Among ordered records, everything linked below `x` has a larger id. */
  lemma LinkedOrdered(rs: seq<Record>, x: TweetId, reply: bool, y: TweetId)
    requires Ordered(rs) && y in Linked(rs, x, reply)
    ensures x < y
  {
    LinkedWitness(rs, x, reply, y);
  }

  /**
   * The arena the builder makes of ordered records is acyclic: every `children` and
   * `ur_children` edge leads to a younger tweet, so the walks of `count_statistics` end.
   */
  lemma DescribesWellFormed(g: seq<Node>, slots: map<TweetId, nat>, rs: seq<Record>)
    requires Describes(g, slots, rs) && Ordered(rs)
    ensures WellFormed(g)
  {
    forall i, c | 0 <= i < |g| && c in g[i].children
      ensures c < |g| && g[i].id < g[c].id
    {
      LinkedOrdered(rs, g[i].id, true, g[c].id);
    }
    forall i, c | 0 <= i < |g| && c in g[i].urChildren
      ensures c < |g| && g[i].id < g[c].id
    {
      LinkedOrdered(rs, g[i].id, false, g[c].id);
    }
  }
}
