/**
 * `code/fetch-conversations/extract_conversation_ids.py`: one pass over the search results
 * of the campaign's own tweets, counting lines, tweets and replies, and a `Counter` of
 * replies per conversation (lines 9-30); then the conversations that got any reply are
 * written out, one id per line, in the order they were first counted (lines 34-37). That
 * file is the input of the crawl in `CrawlStatus`.
 */
module ReplyTally {
  import opened CrawlStatus

  /** One element of a page's `data`: its `conversation_id` and `public_metrics.reply_count`. */
  datatype Tweet = Tweet(conversationId: string, replies: int)

  /**
   * A line of `tweets.jsonl`: not JSON (caught at line 29), JSON without a `data` member (line
   * 21 raises a `KeyError`, which line 29 does not catch), or a page of tweets.
   */
  datatype Line = Malformed | NoData | Page(data: seq<Tweet>)

  /** The number of lines read before the first one without `data`, which ends the script. */
  function Readable(ls: seq<Line>): (n: nat)
    ensures n <= |ls|
    ensures forall k :: 0 <= k < n ==> !ls[k].NoData?
    ensures n < |ls| ==> ls[n].NoData?
  {
    if ls == [] || ls[0].NoData? then 0 else 1 + Readable(ls[1..])
  }

  /** The tweets of the pages among `ls`, in file order. */
  function Tweets(ls: seq<Line>): seq<Tweet> {
    if ls == [] then []
    else Tweets(ls[..|ls| - 1]) + (match ls[|ls| - 1] case Page(data) => data case _ => [])
  }

  /** The 1-based numbers of the lines that do not parse, as line 30 reports them. */
  function MalformedLines(ls: seq<Line>): seq<nat> {
    if ls == [] then []
    else MalformedLines(ls[..|ls| - 1]) + (if ls[|ls| - 1].Malformed? then [|ls|] else [])
  }

  function ReplySum(ts: seq<Tweet>): int {
    if ts == [] then 0 else ReplySum(ts[..|ts| - 1]) + ts[|ts| - 1].replies
  }

  function ZeroCount(ts: seq<Tweet>): nat {
    if ts == [] then 0 else ZeroCount(ts[..|ts| - 1]) + (if ts[|ts| - 1].replies == 0 then 1 else 0)
  }

  /** The `Counter` of line 28 after the tweets `ts`: only a tweet with replies touches it. */
  function Counted(ts: seq<Tweet>): map<string, int> {
    if ts == [] then map[]
    else
      var m := Counted(ts[..|ts| - 1]);
      var t := ts[|ts| - 1];
      if t.replies == 0 then m
      else m[t.conversationId := (if t.conversationId in m then m[t.conversationId] else 0) + t.replies]
  }

  /** The keys of that `Counter` in the order of their first insertion, which `keys()` follows. */
  function KeyOrder(ts: seq<Tweet>): seq<string> {
    if ts == [] then []
    else
      var t := ts[|ts| - 1];
      if t.replies == 0 || t.conversationId in Counted(ts[..|ts| - 1]) then KeyOrder(ts[..|ts| - 1])
      else KeyOrder(ts[..|ts| - 1]) + [t.conversationId]
  }

  /** The replies of the tweets of conversation `id`, added up tweet by tweet. */
  function ConvReplies(ts: seq<Tweet>, id: string): int {
    if ts == [] then 0
    else ConvReplies(ts[..|ts| - 1], id) + (if ts[|ts| - 1].conversationId == id then ts[|ts| - 1].replies else 0)
  }

  /** Some tweet of conversation `id` has a nonzero reply count. */
  predicate Replied(ts: seq<Tweet>, id: string) {
    exists i :: 0 <= i < |ts| && ts[i].conversationId == id && ts[i].replies != 0
  }

  predicate Distinct(keys: seq<string>) {
    forall i, j :: 0 <= i < j < |keys| ==> keys[i] != keys[j]
  }

  /** The sum, over the conversations `keys`, of their replies. */
  function SumConv(keys: seq<string>, ts: seq<Tweet>): int {
    if keys == [] then 0 else SumConv(keys[..|keys| - 1], ts) + ConvReplies(ts, keys[|keys| - 1])
  }

  /** The number of tweets with a nonzero reply count, counted from the front. */
  function NonZeroCount(ts: seq<Tweet>): nat {
    if ts == [] then 0 else (if ts[0].replies != 0 then 1 else 0) + NonZeroCount(ts[1..])
  }

  /** The sum of the values the `Counter` holds for `keys`. */
  function CounterSum(keys: seq<string>, m: map<string, int>): int
    requires forall k :: k in keys ==> k in m
  {
    if keys == [] then 0 else CounterSum(keys[..|keys| - 1], m) + m[keys[|keys| - 1]]
  }

  /** Lines 35-37: the content of `convoy_conversation_ids.txt`. */
  function Dump(keys: seq<string>): string {
    if keys == [] then [] else Dump(keys[..|keys| - 1]) + keys[|keys| - 1] + "\n"
  }

  /**
   * Lines 9-30: the counters after reading `ls`. `convs` and `keys` are the `Counter` and the
   * order of its keys; `errors` the line numbers logged by line 30. A line without `data`
   * ends the script (`aborted`): the lines before it are counted, and the ids are never
   * written out.
   */
  method Extract(ls: seq<Line>)
    returns (lines: nat, tweets: nat, treplies: int, zreplies: nat,
             convs: map<string, int>, keys: seq<string>, errors: seq<nat>, aborted: bool)
    ensures var read := ls[..Readable(ls)];
      && aborted == (Readable(ls) < |ls|)
      && lines == (if aborted then Readable(ls) + 1 else |ls|) && errors == MalformedLines(read)
      && tweets == |Tweets(read)| && treplies == ReplySum(Tweets(read)) && zreplies == ZeroCount(Tweets(read))
      && convs == Counted(Tweets(read)) && keys == KeyOrder(Tweets(read))
  {
    lines, tweets, treplies, zreplies, convs, keys, errors := 0, 0, 0, 0, map[], [], [];
    aborted := false;
    var n := 0;
    while n < |ls| && !aborted
      invariant n <= Readable(ls) && (aborted ==> n == Readable(ls) < |ls|)
      invariant lines == n + (if aborted then 1 else 0) && errors == MalformedLines(ls[..n])
      invariant tweets == |Tweets(ls[..n])| && treplies == ReplySum(Tweets(ls[..n]))
      invariant zreplies == ZeroCount(Tweets(ls[..n]))
      invariant convs == Counted(Tweets(ls[..n])) && keys == KeyOrder(Tweets(ls[..n]))
      decreases |ls| - n, if aborted then 0 else 1
    {
      assert ls[..n + 1][..n] == ls[..n];
      lines := lines + 1;
      match ls[n] {
        case NoData =>
          // `d['data']` raises a `KeyError`, which ends the script.
          aborted := true;
        case Malformed =>
          assert Tweets(ls[..n + 1]) == Tweets(ls[..n]) + [] == Tweets(ls[..n]);
          errors := errors + [lines];
          n := n + 1;
        case Page(data) =>
          assert Tweets(ls[..n + 1]) == Tweets(ls[..n]) + data;
          tweets, treplies, zreplies, convs, keys := TallyPage(data, Tweets(ls[..n]), tweets, treplies, zreplies, convs, keys);
          n := n + 1;
      }
    }
    assert !aborted ==> ls[..n] == ls;
  }

  /** Lines 21-28: the tweets of one page added to the counters kept for the tweets `seen` so far. */
  method TallyPage(data: seq<Tweet>, ghost seen: seq<Tweet>, tweets0: nat, treplies0: int, zreplies0: nat,
                   convs0: map<string, int>, keys0: seq<string>)
    returns (tweets: nat, treplies: int, zreplies: nat, convs: map<string, int>, keys: seq<string>)
    requires tweets0 == |seen| && treplies0 == ReplySum(seen) && zreplies0 == ZeroCount(seen)
    requires convs0 == Counted(seen) && keys0 == KeyOrder(seen)
    ensures tweets == |seen + data| && treplies == ReplySum(seen + data) && zreplies == ZeroCount(seen + data)
    ensures convs == Counted(seen + data) && keys == KeyOrder(seen + data)
  {
    tweets, treplies, zreplies, convs, keys := tweets0, treplies0, zreplies0, convs0, keys0;
    ghost var ts := seen;
    for j := 0 to |data|
      invariant ts == seen + data[..j]
      invariant tweets == |ts| && treplies == ReplySum(ts) && zreplies == ZeroCount(ts)
      invariant convs == Counted(ts) && keys == KeyOrder(ts)
    {
      var tweet := data[j];
      ghost var next := ts + [tweet];
      assert next == seen + data[..j + 1] by { assert data[..j + 1] == data[..j] + [tweet]; }
      TotalsStep(ts, tweet);
      CountedStep(ts, tweet);
      KeyOrderStep(ts, tweet);
      var id, replies := tweet.conversationId, tweet.replies;
      tweets := tweets + 1;
      treplies := treplies + replies;
      if replies == 0 {
        zreplies := zreplies + 1;
      } else {
        if id !in convs {
          keys := keys + [id];
        }
        convs := convs[id := (if id in convs then convs[id] else 0) + replies];
      }
      ts := next;
    }
    assert data[..|data|] == data;
  }

  /** The totals after one more tweet, in terms of those before it. */
  lemma TotalsStep(ts: seq<Tweet>, t: Tweet)
    ensures ReplySum(ts + [t]) == ReplySum(ts) + t.replies
    ensures ZeroCount(ts + [t]) == ZeroCount(ts) + (if t.replies == 0 then 1 else 0)
  {
    assert (ts + [t])[..|ts + [t]| - 1] == ts;
  }

  /** The `Counter` after one more tweet, in terms of the one before it. */
  lemma CountedStep(ts: seq<Tweet>, t: Tweet)
    ensures Counted(ts + [t]) == if t.replies == 0 then Counted(ts)
      else Counted(ts)[t.conversationId := (if t.conversationId in Counted(ts) then Counted(ts)[t.conversationId] else 0) + t.replies]
  {
    assert (ts + [t])[..|ts + [t]| - 1] == ts;
  }

  /** The key order after one more tweet, in terms of the one before it. */
  lemma KeyOrderStep(ts: seq<Tweet>, t: Tweet)
    ensures KeyOrder(ts + [t]) == if t.replies == 0 || t.conversationId in Counted(ts) then KeyOrder(ts)
      else KeyOrder(ts) + [t.conversationId]
  {
    assert (ts + [t])[..|ts + [t]| - 1] == ts;
  }

  /** Lines 34-37: one line per conversation, in the `Counter`'s order. */
  method WriteIds(keys: seq<string>) returns (out: string)
    ensures out == Dump(keys)
  {
    out := [];
    for k := 0 to |keys|
      invariant out == Dump(keys[..k])
    {
      assert keys[..k + 1][..k] == keys[..k];
      out := out + keys[k];
      out := out + "\n";
    }
    assert keys[..|keys|] == keys;
  }

  /** The keys are listed once each, and exactly the conversations in the `Counter`. */
  lemma {:induction false} KeyOrderKeys(ts: seq<Tweet>)
    ensures Distinct(KeyOrder(ts))
    ensures forall id :: id in KeyOrder(ts) <==> id in Counted(ts)
  {
    if ts != [] {
      KeyOrderKeys(ts[..|ts| - 1]);
    }
  }

  /** A conversation is in the `Counter` exactly when one of its tweets has a nonzero reply count. */
  lemma {:induction false} CountedKeys(ts: seq<Tweet>, id: string)
    ensures id in Counted(ts) <==> Replied(ts, id)
  {
    if ts != [] {
      var p := ts[..|ts| - 1];
      CountedKeys(p, id);
      if Replied(p, id) {
        var i :| 0 <= i < |p| && p[i].conversationId == id && p[i].replies != 0;
        assert ts[i] == p[i];
      }
      if Replied(ts, id) && !Replied(p, id) {
        assert forall j :: 0 <= j < |p| ==> p[j] == ts[j];
        var i :| 0 <= i < |ts| && ts[i].conversationId == id && ts[i].replies != 0;
        assert i == |ts| - 1;
      }
    }
  }

  /** The `Counter` holds, for each conversation, the sum of the reply counts of its tweets (0 if absent). */
  lemma {:induction false} CountedValues(ts: seq<Tweet>, id: string)
    ensures ConvReplies(ts, id) == if id in Counted(ts) then Counted(ts)[id] else 0
  {
    if ts != [] {
      CountedValues(ts[..|ts| - 1], id);
    }
  }

  /** Adding one tweet adds its replies to the sum over distinct conversations that include its own. */
  lemma {:induction false} SumConvStep(keys: seq<string>, ts: seq<Tweet>, t: Tweet)
    requires Distinct(keys)
    ensures SumConv(keys, ts + [t]) == SumConv(keys, ts) + (if t.conversationId in keys then t.replies else 0)
  {
    assert (ts + [t])[..|ts + [t]| - 1] == ts;
    if keys != [] {
      var init := keys[..|keys| - 1];
      assert Distinct(init);
      SumConvStep(init, ts, t);
      assert t.conversationId in keys <==> t.conversationId in init || t.conversationId == keys[|keys| - 1];
      assert keys[|keys| - 1] !in init;
    }
  }

  /** Every reply counted in `treplies` belongs to exactly one conversation written out. */
  lemma {:induction false} RepliesConserved(ts: seq<Tweet>)
    ensures ReplySum(ts) == SumConv(KeyOrder(ts), ts)
  {
    if ts != [] {
      var p := ts[..|ts| - 1];
      var t := ts[|ts| - 1];
      assert ts == p + [t];
      RepliesConserved(p);
      KeyOrderKeys(p);
      SumConvStep(KeyOrder(p), p, t);
      if t.replies != 0 && t.conversationId !in Counted(p) {
        var keys := KeyOrder(p) + [t.conversationId];
        assert keys[..|keys| - 1] == KeyOrder(p);
        CountedValues(p, t.conversationId);
      }
    }
  }

  lemma {:induction false} NonZeroAppend(ts: seq<Tweet>, t: Tweet)
    ensures NonZeroCount(ts + [t]) == NonZeroCount(ts) + (if t.replies != 0 then 1 else 0)
  {
    if ts != [] {
      assert (ts + [t])[1..] == ts[1..] + [t];
      NonZeroAppend(ts[1..], t);
    } else {
      assert ([t])[1..] == [];
    }
  }

  /** Lines 23-27: every tweet counted is counted either in `zreplies` or as one with replies. */
  lemma {:induction false} TweetsSplit(ts: seq<Tweet>)
    ensures |ts| == ZeroCount(ts) + NonZeroCount(ts)
  {
    if ts != [] {
      var p := ts[..|ts| - 1];
      TweetsSplit(p);
      assert ts == p + [ts[|ts| - 1]];
      NonZeroAppend(p, ts[|ts| - 1]);
    }
  }

  lemma {:induction false} CounterSumConv(keys: seq<string>, ts: seq<Tweet>)
    requires forall k :: k in keys ==> k in Counted(ts)
    ensures CounterSum(keys, Counted(ts)) == SumConv(keys, ts)
  {
    if keys != [] {
      CounterSumConv(keys[..|keys| - 1], ts);
      CountedValues(ts, keys[|keys| - 1]);
    }
  }

  /** Lines 24 and 28: `treplies` is the sum of the values of the `Counter`. */
  lemma TotalIsCounterSum(ts: seq<Tweet>)
    ensures forall k :: k in KeyOrder(ts) ==> k in Counted(ts)
    ensures ReplySum(ts) == CounterSum(KeyOrder(ts), Counted(ts))
  {
    KeyOrderKeys(ts);
    RepliesConserved(ts);
    CounterSumConv(KeyOrder(ts), ts);
  }

  /** `tweets == zreplies` exactly when no conversation is written out. */
  lemma {:induction false} NothingToFetch(ts: seq<Tweet>)
    ensures ZeroCount(ts) <= |ts|
    ensures ZeroCount(ts) == |ts| <==> KeyOrder(ts) == []
  {
    if ts != [] {
      var p := ts[..|ts| - 1];
      NothingToFetch(p);
      KeyOrderKeys(p);
    }
  }

  lemma {:induction false} DumpAppend(keys: seq<string>, k: string)
    ensures Dump(keys + [k]) == Dump(keys) + k + "\n"
  {
    assert (keys + [k])[..|keys + [k]| - 1] == keys;
  }

  /** A line read from the front of `a + "\n" + rest`, where `a` holds no newline. */
  lemma {:induction false} ReadLineFirst(a: string, rest: string)
    requires '\n' !in a
    ensures ReadLine(a + "\n" + rest) == a + "\n"
  {
    if a != [] {
      assert (a + "\n" + rest)[1..] == a[1..] + "\n" + rest;
      ReadLineFirst(a[1..], rest);
      assert [a[0]] + (a[1..] + "\n") == a + "\n";
    }
  }

  /** `readlines()` on the written file: one line per key, with its newline. */
  lemma {:induction false} ReadDump(keys: seq<string>)
    requires forall k :: 0 <= k < |keys| ==> '\n' !in keys[k]
    ensures ReadLines(Dump(keys)) == seq(|keys|, k requires 0 <= k < |keys| => keys[k] + "\n")
    decreases |keys|
  {
    if keys != [] {
      var rest := keys[1..];
      assert keys == [keys[0]] + rest;
      DumpFront(keys[0], rest);
      ReadLineFirst(keys[0], Dump(rest));
      assert (keys[0] + "\n" + Dump(rest))[|keys[0] + "\n"|..] == Dump(rest);
      ReadDump(rest);
    }
  }

  lemma {:induction false} DumpFront(k: string, rest: seq<string>)
    ensures Dump([k] + rest) == k + "\n" + Dump(rest)
    decreases |rest|
  {
    if rest == [] {
      assert [k] + rest == [] + [k];
      DumpAppend([], k);
    } else {
      var init := rest[..|rest| - 1];
      var last := rest[|rest| - 1];
      assert rest == init + [last];
      assert [k] + rest == ([k] + init) + [last];
      calc {
        Dump([k] + rest);
      == { DumpAppend([k] + init, last); }
        Dump([k] + init) + last + "\n";
      == { DumpFront(k, init); }
        k + "\n" + Dump(init) + last + "\n";
      == { DumpAppend(init, last); }
        k + "\n" + Dump(rest);
      }
    }
  }

  /**
   * The crawl reads back exactly the conversations written out, in order: the ids of the
   * written file (line 52 of the crawl) are the keys, so its batches cover every key once.
   */
  lemma DumpFeedsCrawl(keys: seq<string>)
    requires forall k :: 0 <= k < |keys| ==> '\n' !in keys[k]
    ensures Ids(ReadLines(Dump(keys))) == keys
    ensures Flatten(Chunked(Ids(ReadLines(Dump(keys))), BATCH)) == keys
  {
    ReadDump(keys);
    forall k | 0 <= k < |keys|
      ensures RStripNewlines(keys[k] + "\n") == keys[k]
    {
      assert (keys[k] + "\n")[..|keys[k] + "\n"| - 1] == keys[k];
      RStripClean(keys[k]);
    }
    FlattenChunked(keys, BATCH);
  }
}
