/**
 * The row `Tree.as_tuple` emits for one tweet (3_create_tweet_stats_i.py, lines 180-222),
 * the layout of the `tweet_stats_i` table it goes into (lines 256-280 and 297-302), and the
 * row the SQL short-cut of lines 305-352 writes for a tweet that is alone in its
 * ur-conversation.
 */
module TreeRow {
  import opened Wrappers
  import opened TreeModel
  import opened Dispersions

  /** One value of a row: an integer column or a float column. */
  datatype Cell = Int(i: int) | Real(r: real)

  datatype SqlType = BigIntUnsigned | IntegerUnsigned | FloatUnsigned

  /** `int_cols` (lines 256-266). */
  const IntCols: seq<string> :=
    ["children", "descendants", "leaf_descendants", "max_depth", "t_authors",
     "t_reply_count", "t_quote_count", "t_like_count", "t_retweet_count"]

  /** `float_cols` (lines 268-280). */
  const FloatCols: seq<string> :=
    ["branching_factor", "mean_depth", "depth_mad", "mean_reply_count", "reply_count_mad",
     "mean_quote_count", "quote_count_mad", "mean_like_count", "like_count_mad",
     "mean_retweet_count", "retweet_count_mad"]

  /** The columns the loops of lines 298-301 declare: `col`, then `ur_col`, for each name. */
  function Pairs(cols: seq<string>, t: SqlType): (r: seq<(string, SqlType)>)
    ensures |r| == 2 * |cols|
    ensures forall k :: 0 <= k < |r| ==> r[k].1 == t
  {
    if cols == [] then [] else [(cols[0], t), ("ur_" + cols[0], t)] + Pairs(cols[1..], t)
  }

  /** The columns of `CREATE TABLE tweet_stats_i` (lines 297-302), in order. */
  function Schema(): seq<(string, SqlType)> {
    Columns(IntCols, FloatCols)
  }

  /** The primary key, then a pair per integer column name, then a pair per float column name. */
  function Columns(ints: seq<string>, floats: seq<string>): seq<(string, SqlType)> {
    [("tweet_id", BigIntUnsigned)] + Pairs(ints, IntegerUnsigned) + Pairs(floats, FloatUnsigned)
  }

  /** `s * n` for a Python string. */
  function Repeat(s: string, n: nat): string {
    if n == 0 then [] else s + Repeat(s, n - 1)
  }

  /** The value list of the `INSERT IGNORE INTO tweet_stats_i VALUES (...)` of line 251. */
  function InsertValues(): string {
    Repeat("%s,", 40) + "%s"
  }

  /** The number of occurrences of `c` in `s`. */
  function Occurrences(s: string, c: char): nat {
    if s == [] then 0 else (if s[0] == c then 1 else 0) + Occurrences(s[1..], c)
  }

  /** `x / y` on Python numbers, `y` non-zero. */
  function Ratio(x: int, y: int): real
    requires y != 0
  {
    x as real / y as real
  }

  /**
   * `as_tuple` (lines 180-222) of a node whose statistics `s` and dispersions `m` have been
   * computed: the id, nine integer column pairs and eleven float column pairs.
   */
  function AsTuple(n: Node, s: Aggregate, m: Dispersion): (row: seq<Cell>)
    requires Bounded(s)
  {
    [Int(n.id)] + Counts(n, s) + Ratios(s, m)
  }

  /** Lines 181-198: the integer column pairs, `children` first. */
  function Counts(n: Node, s: Aggregate): (row: seq<Cell>)
    ensures |row| == 2 * |IntCols|
    ensures forall i :: 0 <= i < |row| ==> row[i].Int?
  {
    [Int(|n.children|), Int(|n.children| + |n.urChildren|),
     Int(s.descendants), Int(s.urDescendants),
     Int(s.leafDescendants), Int(s.urLeafDescendants),
     Int(s.maxDepth), Int(s.urMaxDepth),
     Int(|s.tAuthors|), Int(|s.urTAuthors|),
     Int(s.t.reply), Int(s.urT.reply), Int(s.t.quote), Int(s.urT.quote),
     Int(s.t.like), Int(s.urT.like), Int(s.t.retweet), Int(s.urT.retweet)]
  }

  /**
   * Lines 199-221: the float column pairs.  The branching factors divide by
   * `1 + descendants - leaf_descendants`, which `Bounded` keeps at least 1; the dispersions of
   * the engagement counters are divided by `1 + descendants` once more here.
   */
  function Ratios(s: Aggregate, m: Dispersion): (row: seq<Cell>)
    requires Bounded(s)
    ensures |row| == 2 * |FloatCols|
    ensures forall i :: 0 <= i < |row| ==> row[i].Real?
  {
    var d, ud := 1 + s.descendants, 1 + s.urDescendants;
    [Real(Ratio(s.descendants, 1 + s.descendants - s.leafDescendants)),
     Real(Ratio(s.urDescendants, 1 + s.urDescendants - s.urLeafDescendants)),
     Real(MeanDepth(s.sumDepth, s.leafDescendants)), Real(MeanDepth(s.urSumDepth, s.urLeafDescendants)),
     Real(m.madDepth), Real(m.urMadDepth)]
    + CounterCells(s.t.reply, s.urT.reply, m.madReply, m.urMadReply, d, ud)
    + CounterCells(s.t.quote, s.urT.quote, m.madQuote, m.urMadQuote, d, ud)
    + CounterCells(s.t.like, s.urT.like, m.madLike, m.urMadLike, d, ud)
    + CounterCells(s.t.retweet, s.urT.retweet, m.madRetweet, m.urMadRetweet, d, ud)
  }

  /** The mean and the dispersion of one engagement counter, in both views. */
  function CounterCells(t: int, urT: int, mad: real, urMad: real, d: int, ud: int): (row: seq<Cell>)
    requires d >= 1 && ud >= 1
  {
    [Real(Ratio(t, d)), Real(Ratio(urT, ud)), Real(mad / d as real), Real(urMad / ud as real)]
  }

  /**
   * The row the query of lines 305-352 inserts for a tweet alone in its ur-conversation:
   * zero counts, one author, totals and means equal to its own counters, zero dispersions
   * and ratios.
   */
  function SingletonRow(id: TweetId, own: Counters): seq<Cell> {
    [Int(id)] + SingletonCounts(own) + SingletonRatios(own)
  }

  function SingletonCounts(own: Counters): seq<Cell> {
    [Int(0), Int(0), Int(0), Int(0), Int(0), Int(0), Int(0), Int(0), Int(1), Int(1),
     Int(own.reply), Int(own.reply), Int(own.quote), Int(own.quote),
     Int(own.like), Int(own.like), Int(own.retweet), Int(own.retweet)]
  }

  function SingletonRatios(own: Counters): seq<Cell> {
    [Real(0.0), Real(0.0), Real(0.0), Real(0.0), Real(0.0), Real(0.0),
     Real(own.reply as real), Real(own.reply as real), Real(0.0), Real(0.0),
     Real(own.quote as real), Real(own.quote as real), Real(0.0), Real(0.0),
     Real(own.like as real), Real(own.like as real), Real(0.0), Real(0.0),
     Real(own.retweet as real), Real(own.retweet as real), Real(0.0), Real(0.0)]
  }

  /** A value an `UNSIGNED` column accepts. */
  predicate Unsigned(c: Cell) {
    match c
    case Int(i) => i >= 0
    case Real(r) => r >= 0.0
  }

  predicate MadsUnsigned(m: Dispersion) {
    && m.madReply >= 0.0 && m.urMadReply >= 0.0 && m.madQuote >= 0.0 && m.urMadQuote >= 0.0
    && m.madLike >= 0.0 && m.urMadLike >= 0.0 && m.madRetweet >= 0.0 && m.urMadRetweet >= 0.0
    && m.madDepth >= 0.0 && m.urMadDepth >= 0.0
  }

  lemma {:induction false} OccurrencesAppend(a: string, b: string, c: char)
    ensures Occurrences(a + b, c) == Occurrences(a, c) + Occurrences(b, c)
    decreases |a|
  {
    if a == [] {
      assert a + b == b;
    } else {
      assert (a + b)[1..] == a[1..] + b;
      OccurrencesAppend(a[1..], b, c);
    }
  }

  lemma {:induction false} OccurrencesRepeat(s: string, n: nat, c: char)
    ensures Occurrences(Repeat(s, n), c) == n * Occurrences(s, c)
  {
    if n > 0 {
      OccurrencesAppend(s, Repeat(s, n - 1), c);
      OccurrencesRepeat(s, n - 1, c);
    }
  }

  /** The INSERT of line 251 has one placeholder per column of the table. */
  lemma InsertMatchesSchema()
    ensures Occurrences(InsertValues(), '%') == |Schema()| == 41
  {
    SchemaKinds();
    OccurrencesRepeat("%s,", 40, '%');
    OccurrencesAppend(Repeat("%s,", 40), "%s", '%');
  }

  /**
   * `as_tuple` emits one value per column of `tweet_stats_i`, integers exactly where the
   * table declares integer columns.
   */
  lemma RowMatchesSchema(n: Node, s: Aggregate, m: Dispersion)
    requires Bounded(s)
    ensures |AsTuple(n, s, m)| == |Schema()|
    ensures forall i :: 0 <= i < |Schema()| ==> (AsTuple(n, s, m)[i].Int? <==> Schema()[i].1 != FloatUnsigned)
  {
    SchemaKinds();
    RowKinds(n, s, m);
  }

  /** The table has the id column, then 18 integer columns, then 22 float columns. */
  lemma SchemaKinds()
    ensures |Schema()| == 41
    ensures forall i :: 0 <= i < 41 ==> (Schema()[i].1 == FloatUnsigned <==> i >= 19)
  {
    ColumnKinds(IntCols, FloatCols);
  }

  lemma ColumnKinds(ints: seq<string>, floats: seq<string>)
    ensures |Columns(ints, floats)| == 1 + 2 * |ints| + 2 * |floats|
    ensures forall i :: 0 <= i < |Columns(ints, floats)| ==>
      (Columns(ints, floats)[i].1 == FloatUnsigned <==> i >= 1 + 2 * |ints|)
  {
    var cols := Columns(ints, floats);
    var a, b := Pairs(ints, IntegerUnsigned), Pairs(floats, FloatUnsigned);
    forall i | 0 <= i < |cols|
      ensures cols[i].1 == FloatUnsigned <==> i >= 1 + |a|
    {
      if 1 <= i < 1 + |a| {
        assert cols[i] == a[i - 1];
      } else if i >= 1 + |a| {
        assert cols[i] == b[i - 1 - |a|];
      }
    }
  }

  /** The row has the id, then 18 integers, then 22 floats. */
  lemma RowKinds(n: Node, s: Aggregate, m: Dispersion)
    requires Bounded(s)
    ensures |AsTuple(n, s, m)| == 41
    ensures forall i :: 0 <= i < 41 ==> (AsTuple(n, s, m)[i].Int? <==> i < 19)
  {
    var row, counts, ratios := AsTuple(n, s, m), Counts(n, s), Ratios(s, m);
    assert row == [Int(n.id)] + counts + ratios;
    forall i | 0 <= i < 41
      ensures row[i].Int? <==> i < 19
    {
      if 1 <= i < 19 {
        assert row[i] == counts[i - 1];
      } else if i >= 19 {
        assert row[i] == ratios[i - 19];
      }
    }
  }

  /**
   * With a bounded aggregate and non-negative dispersions, every value of the row fits the `UNSIGNED`
   * column it is inserted into; in particular no denominator is zero or negative.
   */
  lemma RowUnsigned(n: Node, s: Aggregate, m: Dispersion)
    requires Bounded(s) && MadsUnsigned(m)
    ensures forall i :: 0 <= i < |AsTuple(n, s, m)| ==> Unsigned(AsTuple(n, s, m)[i])
  {
    var row, counts, ratios := AsTuple(n, s, m), Counts(n, s), Ratios(s, m);
    CountsUnsigned(n, s);
    RatiosUnsigned(s, m);
    assert row == [Int(n.id)] + counts + ratios;
    forall i | 0 <= i < |row|
      ensures Unsigned(row[i])
    {
      if 1 <= i < 1 + |counts| {
        assert row[i] == counts[i - 1];
      } else if i >= 1 + |counts| {
        assert row[i] == ratios[i - 1 - |counts|];
      }
    }
  }

  lemma CountsUnsigned(n: Node, s: Aggregate)
    requires Bounded(s)
    ensures forall i :: 0 <= i < |Counts(n, s)| ==> Unsigned(Counts(n, s)[i])
  {
  }

  lemma RatiosUnsigned(s: Aggregate, m: Dispersion)
    requires Bounded(s) && MadsUnsigned(m)
    ensures forall i :: 0 <= i < |Ratios(s, m)| ==> Unsigned(Ratios(s, m)[i])
  {
    var d, ud := 1 + s.descendants, 1 + s.urDescendants;
    CounterUnsigned(s.t.reply, s.urT.reply, m.madReply, m.urMadReply, d, ud);
    CounterUnsigned(s.t.quote, s.urT.quote, m.madQuote, m.urMadQuote, d, ud);
    CounterUnsigned(s.t.like, s.urT.like, m.madLike, m.urMadLike, d, ud);
    CounterUnsigned(s.t.retweet, s.urT.retweet, m.madRetweet, m.urMadRetweet, d, ud);
  }

  lemma CounterUnsigned(t: int, urT: int, mad: real, urMad: real, d: int, ud: int)
    requires d >= 1 && ud >= 1 && t >= 0 && urT >= 0 && mad >= 0.0 && urMad >= 0.0
    ensures forall i :: 0 <= i < 4 ==> Unsigned(CounterCells(t, urT, mad, urMad, d, ud)[i])
  {
  }

  /**
   * For a tweet without replies, retweets or quotes, the row `as_tuple` would compute after
   * `count_statistics` and `count_mads` is the row the SQL short-cut inserts.
   */
  lemma ChildlessRow(g: seq<Node>, st: seq<Option<Aggregate>>, k: nat)
    requires Counted(g, st, k) && g[k].children == {} && g[k].urChildren == {}
    requires Stored(st, k).value == Target(g, st, k)
    ensures AsTuple(g[k], Stored(st, k).value, Mads(g, st, k)) == SingletonRow(g[k].id, g[k].own)
  {
    var n, s := g[k], Stored(st, k).value;
    ChildlessTarget(g, st, k);
    SeedOfChildless(g, k);
    ChildlessMads(g, st, k);
    SeedCounts(n, s);
    SeedRatios(n.own, s);
  }

  lemma SeedCounts(n: Node, s: Aggregate)
    requires n.children == {} && n.urChildren == {}
    requires s.descendants == 0 && s.urDescendants == 0 && s.leafDescendants == 0 && s.urLeafDescendants == 0
    requires s.maxDepth == 0 && s.urMaxDepth == 0 && s.t == n.own && s.urT == n.own
    requires s.tAuthors == {n.authorId} && s.urTAuthors == {n.authorId}
    ensures Counts(n, s) == SingletonCounts(n.own)
  {
  }

  lemma SeedRatios(own: Counters, s: Aggregate)
    requires Bounded(s)
    requires s.descendants == 0 && s.urDescendants == 0 && s.leafDescendants == 0 && s.urLeafDescendants == 0
    requires s.t == own && s.urT == own
    ensures Ratios(s, Dispersion(0.0, 0.0, 0.0, 0.0, 0.0, 0.0, 0.0, 0.0, 0.0, 0.0, 0.0, 0.0)) == SingletonRatios(own)
  {
    SeedCounter(own.reply);
    SeedCounter(own.quote);
    SeedCounter(own.like);
    SeedCounter(own.retweet);
  }

  lemma SeedCounter(x: int)
    ensures CounterCells(x, x, 0.0, 0.0, 1, 1) == [Real(x as real), Real(x as real), Real(0.0), Real(0.0)]
  {
  }
}
