/**
 * The record mapping of `code/create-db/1_initial_load.py`: a tweet object of the search
 * API decoded into a `tweets_i` row (`Tweet.map_tweet`, lines 89-151), an API error into a
 * row of its own (`Tweet.error`, lines 153-155), a row into the values of its INSERT
 * (`Tweet.as_tuple`, lines 215-218), and a user object or a user error into a `users_a`
 * row (`User.map_user` and `User.error`, lines 245-282). The JSON comes in already decoded,
 * as the datatypes below. A key the code reads unconditionally (`text` at line 95,
 * `id`, `created_at`, `public_metrics` and `lang` at lines 131-139, a user's `url` and
 * `description` at lines 247-248) is a field here, so an object
 * lacking it, on which the code raises `KeyError`, cannot be built.
 */
module InitialLoad {
  import opened Wrappers
  import TreeRow

  // The decoded JSON of the search API.

  /** An element of `entities.urls`: the short `url` and the expansions the API may add. */
  datatype UrlEntity = UrlEntity(url: string, expandedUrl: Option<string>, unwoundUrl: Option<string>)

  datatype HashtagEntity = HashtagEntity(tag: string)

  datatype MentionEntity = MentionEntity(username: string, id: int)

  datatype Entities = Entities(
    urls: Option<seq<UrlEntity>>, hashtags: Option<seq<HashtagEntity>>, mentions: Option<seq<MentionEntity>>)

  /** An element of `referenced_tweets`: its `type` and the referenced tweet's `id`. */
  datatype Reference = Reference(kind: string, id: int)

  datatype TweetMetrics = TweetMetrics(retweetCount: int, replyCount: int, likeCount: int, quoteCount: int)

  datatype TweetObject = TweetObject(
    id: int, conversationId: int, authorId: int, createdAt: string, publicMetrics: TweetMetrics,
    lang: string, text: string, inReplyToUserId: Option<int>,
    entities: Option<Entities>, referencedTweets: Option<seq<Reference>>)

  /** An element of a page's `errors`. */
  datatype ErrorObject = ErrorObject(resourceId: int, title: string, detail: string)

  /** The entities of one field of a user (its `url` or its `description`). */
  datatype FieldEntities = FieldEntities(urls: Option<seq<UrlEntity>>)

  datatype UserMetrics = UserMetrics(followersCount: int, followingCount: int, tweetCount: int, listedCount: int)

  datatype UserObject = UserObject(
    id: int, username: string, name: string, description: string, createdAt: string,
    verified: bool, protected: bool, url: string, location: Option<string>, publicMetrics: UserMetrics,
    entities: Option<seq<FieldEntities>>)

  // The rows.

  /** The dataclass `Tweet` (lines 65-87), one field per column of `tweets_i`. */
  datatype Tweet = Tweet(
    urConversationId: Option<int>, conversationId: Option<int>, id: Option<int>, authorId: Option<int>,
    createdAt: Option<string>, retweetCount: Option<int>, replyCount: Option<int>, likeCount: Option<int>,
    quoteCount: Option<int>, lang: Option<string>, text: Option<string>, inReplyTo: Option<int>,
    inReplyToUserId: Option<int>, quotes: Option<int>, retweetOf: Option<int>,
    errorShort: Option<string>, errorDetail: Option<string>, original: bool,
    hashtags: Option<seq<string>>, urls: Option<seq<string>>, mentions: Option<seq<int>>)

  /** The dataclass `User` (lines 227-243). */
  datatype User = User(
    id: int, username: Option<string>, name: Option<string>, description: Option<string>,
    createdAt: Option<string>, verified: Option<bool>, protected: Option<bool>, url: Option<string>,
    location: Option<string>, followersCount: Option<int>, followingCount: Option<int>,
    tweetCount: Option<int>, listedCount: Option<int>, errorShort: Option<string>, errorDetail: Option<string>)

  /** A value handed to the database driver. */
  datatype Value = Null | IntValue(i: int) | StrValue(s: string) | BoolValue(b: bool)

  // Python's string operations.

  /** `s[i:j]` for `0 <= i <= j`: Python clamps both bounds to the string. */
  function Slice(s: string, i: nat, j: nat): (r: string)
    requires i <= j
    ensures |r| == if j <= |s| then j - i else if i <= |s| then |s| - i else 0
    ensures forall k :: 0 <= k < |r| ==> r[k] == s[i + k]
  {
    if i >= |s| then [] else if j >= |s| then s[i..] else s[i..j]
  }

  predicate StartsWith(s: string, p: string) {
    |p| <= |s| && s[..|p|] == p
  }

  /** `p in s`. */
  predicate Occurs(s: string, p: string) {
    exists i :: 0 <= i <= |s| && StartsWith(s[i..], p)
  }

  /** `s.replace(pattern, replacement)`: every occurrence, scanning left to right without overlaps. */
  function Replace(s: string, pattern: string, replacement: string): string
    decreases |s|
  {
    if pattern == [] then (if s == [] then replacement else replacement + [s[0]] + Replace(s[1..], pattern, replacement))
    else if |s| < |pattern| then s
    else if s[..|pattern|] == pattern then replacement + Replace(s[|pattern|..], pattern, replacement)
    else [s[0]] + Replace(s[1..], pattern, replacement)
  }

  /** Python dict, insertion ordered, held as its items. */
  type Items = seq<(string, string)>

  function Lookup(d: Items, k: string): Option<string> {
    if d == [] then None else if d[0].0 == k then Some(d[0].1) else Lookup(d[1..], k)
  }

  predicate DistinctKeys(d: Items) {
    forall i, j :: 0 <= i < j < |d| ==> d[i].0 != d[j].0
  }

  /** `d[k] = v`: a key already present keeps its place and takes the new value. */
  function Assign(d: Items, k: string, v: string): Items {
    if d == [] then [(k, v)]
    else if d[0].0 == k then [(k, v)] + d[1..]
    else [d[0]] + Assign(d[1..], k, v)
  }

  /** `for (ourl, nurl) in urlmap.items(): text = text.replace(ourl, nurl)`. */
  function ReplaceAll(text: string, d: Items): string
    decreases |d|
  {
    if d == [] then text else ReplaceAll(Replace(text, d[0].0, d[0].1), d[1..])
  }

  // Timestamps.

  /** Lines 134 and 267 as written: `s[0:10] + ' ' + s[11:18]`. */
  function StampAsWritten(s: string): string {
    Slice(s, 0, 10) + " " + Slice(s, 11, 18)
  }

  /** The date, a space and the whole `HH:MM:SS` of an API timestamp: `s[0:10] + ' ' + s[11:19]`. */
  function Stamp(s: string): string {
    Slice(s, 0, 10) + " " + Slice(s, 11, 19)
  }

  predicate IsDigit(c: char) {
    '0' <= c <= '9'
  }

  /** The characters at `positions` are digits, and `s` has a `sep` at each of `seps`. */
  predicate Shaped(s: string, digits: set<nat>, seps: map<nat, char>) {
    (forall k :: k in digits ==> k < |s| && IsDigit(s[k])) && (forall k :: k in seps ==> k < |s| && s[k] == seps[k])
  }

  /** An API timestamp, `YYYY-MM-DDTHH:MM:SS` followed by anything (`.000Z`). */
  predicate IsoStamp(s: string) {
    Shaped(s, {0, 1, 2, 3, 5, 6, 8, 9, 11, 12, 14, 15, 17, 18}, map[4 := '-', 7 := '-', 10 := 'T', 13 := ':', 16 := ':'])
  }

  /** A MariaDB DATETIME literal `YYYY-MM-DD HH:MM:SS`. */
  predicate DateTimeText(s: string) {
    |s| == 19
    && Shaped(s, {0, 1, 2, 3, 5, 6, 8, 9, 11, 12, 14, 15, 17, 18}, map[4 := '-', 7 := '-', 10 := ' ', 13 := ':', 16 := ':'])
  }

  // Tweet.map_tweet

  /** Lines 104-109: the expansion of a short URL, the unwound one first. */
  function Expansion(e: UrlEntity): Option<string> {
    if e.unwoundUrl.Some? then e.unwoundUrl else e.expandedUrl
  }

  /** Lines 104-111: the URL listed for an entity: its expansion, or the short URL itself. */
  function Preferred(e: UrlEntity): string {
    match Expansion(e)
    case Some(u) => u
    case None => e.url
  }

  /** Lines 103-109: the `urlmap` built from the URL entities, short URL to expansion. */
  function UrlMapOf(es: seq<UrlEntity>): Items {
    if es == [] then []
    else
      var e := es[|es| - 1];
      match Expansion(e)
      case Some(u) => Assign(UrlMapOf(es[..|es| - 1]), e.url, u)
      case None => UrlMapOf(es[..|es| - 1])
  }

  /** How line 123-129 classify a reference. */
  datatype RefKind = Retweeted | RepliedTo | Quoted

  function KindOf(r: Reference): RefKind {
    if r.kind == "retweeted" then Retweeted else if r.kind == "replied_to" then RepliedTo else Quoted
  }

  /** The id of the last reference of kind `k`, if any. */
  function LastOf(refs: seq<Reference>, k: RefKind): Option<int> {
    if refs == [] then None
    else if KindOf(refs[|refs| - 1]) == k then Some(refs[|refs| - 1].id)
    else LastOf(refs[..|refs| - 1], k)
  }

  /** The four fields lines 121-129 set: `in_reply_to`, `in_reply_to_user_id`, `quotes`, `retweet_of`. */
  datatype RefFields = RefFields(inReplyTo: Option<int>, inReplyToUserId: Option<int>, quotes: Option<int>, retweetOf: Option<int>)

  /**
   * Lines 121-129 on the references `refs`: `None` when a reply reference meets a tweet
   * without `in_reply_to_user_id` (line 127 raises).
   */
  function Classified(refs: seq<Reference>, inReplyToUserId: Option<int>): Option<RefFields> {
    if LastOf(refs, RepliedTo).Some? && inReplyToUserId.None? then None
    else Some(RefFields(LastOf(refs, RepliedTo), if LastOf(refs, RepliedTo).Some? then inReplyToUserId else None,
                        LastOf(refs, Quoted), LastOf(refs, Retweeted)))
  }

  /** Line 119: the caller's `mentions_id_map` after recording the mentions `ms`. */
  function RecordMentions(m: map<string, int>, ms: seq<MentionEntity>): map<string, int> {
    if ms == [] then m
    else RecordMentions(m, ms[..|ms| - 1])[ms[|ms| - 1].username := ms[|ms| - 1].id]
  }

  function TweetUrls(t: TweetObject): Option<seq<string>> {
    if t.entities.Some? && t.entities.value.urls.Some? then
      var es := t.entities.value.urls.value;
      Some(seq(|es|, i requires 0 <= i < |es| => Preferred(es[i])))
    else None
  }

  function TweetText(t: TweetObject): string {
    if t.entities.Some? && t.entities.value.urls.Some? then ReplaceAll(t.text, UrlMapOf(t.entities.value.urls.value))
    else t.text
  }

  function TweetHashtags(t: TweetObject): Option<seq<string>> {
    if t.entities.Some? && t.entities.value.hashtags.Some? then
      var hs := t.entities.value.hashtags.value;
      Some(seq(|hs|, i requires 0 <= i < |hs| => hs[i].tag))
    else None
  }

  function TweetMentions(t: TweetObject): Option<seq<int>> {
    if t.entities.Some? && t.entities.value.mentions.Some? then
      var ms := t.entities.value.mentions.value;
      Some(seq(|ms|, i requires 0 <= i < |ms| => ms[i].id))
    else None
  }

  function MentionIdsAfter(t: TweetObject, m: map<string, int>): map<string, int> {
    if t.entities.Some? && t.entities.value.mentions.Some? then RecordMentions(m, t.entities.value.mentions.value) else m
  }

  /** The row of lines 130-151 for `t`, with the reference fields `f` and the timestamp text `created`. */
  function TweetRow(t: TweetObject, original: bool, f: RefFields, created: string): Tweet {
    Tweet(None, Some(t.conversationId), Some(t.id), Some(t.authorId), Some(created),
          Some(t.publicMetrics.retweetCount), Some(t.publicMetrics.replyCount),
          Some(t.publicMetrics.likeCount), Some(t.publicMetrics.quoteCount),
          Some(t.lang), Some(TweetText(t)), f.inReplyTo, f.inReplyToUserId, f.quotes, f.retweetOf,
          None, None, original, TweetHashtags(t), TweetUrls(t), TweetMentions(t))
  }

  /** The row `map_tweet` returns for `t` as written (with the slice of line 134), or `None` when it raises. */
  function MappedTweet(t: TweetObject, original: bool): Option<Tweet> {
    var refs := if t.referencedTweets.Some? then t.referencedTweets.value else [];
    match Classified(refs, t.inReplyToUserId)
    case None => None
    case Some(f) => Some(TweetRow(t, original, f, StampAsWritten(t.createdAt)))
  }

  /** `map_tweet` with the whole `HH:MM:SS` kept at line 134. */
  function FixedTweet(t: TweetObject, original: bool): Option<Tweet> {
    var refs := if t.referencedTweets.Some? then t.referencedTweets.value else [];
    match Classified(refs, t.inReplyToUserId)
    case None => None
    case Some(f) => Some(TweetRow(t, original, f, Stamp(t.createdAt)))
  }

  /** Lines 101-111: the listed URLs and the `urlmap` of a tweet's URL entities. */
  method ExpandUrls(es: seq<UrlEntity>) returns (urls: seq<string>, urlmap: Items)
    ensures |urls| == |es| && forall i :: 0 <= i < |es| ==> urls[i] == Preferred(es[i])
    ensures urlmap == UrlMapOf(es)
  {
    urls, urlmap := [], [];
    for i := 0 to |es|
      invariant |urls| == i && forall k :: 0 <= k < i ==> urls[k] == Preferred(es[k])
      invariant urlmap == UrlMapOf(es[..i])
    {
      var url := es[i];
      assert es[..i + 1][..i] == es[..i];
      if url.unwoundUrl.Some? {
        urlmap := Assign(urlmap, url.url, url.unwoundUrl.value);
        urls := urls + [url.unwoundUrl.value];
      } else if url.expandedUrl.Some? {
        urlmap := Assign(urlmap, url.url, url.expandedUrl.value);
        urls := urls + [url.expandedUrl.value];
      } else {
        urls := urls + [url.url];
      }
    }
    assert es[..|es|] == es;
  }

  /** Lines 112-113 (and 258-260 for one field): every short URL of `urlmap` replaced in turn. */
  method RewriteUrls(text: string, urlmap: Items) returns (r: string)
    ensures r == ReplaceAll(text, urlmap)
  {
    r := text;
    for i := 0 to |urlmap|
      invariant ReplaceAll(r, urlmap[i..]) == ReplaceAll(text, urlmap)
    {
      assert urlmap[i..][1..] == urlmap[i + 1..];
      r := Replace(r, urlmap[i].0, urlmap[i].1);
    }
  }

  /** Lines 117-120: the mentioned ids, each username recorded in the caller's map. */
  method RecordMentionIds(ms: seq<MentionEntity>, m: map<string, int>) returns (ids: seq<int>, m': map<string, int>)
    ensures |ids| == |ms| && forall i :: 0 <= i < |ms| ==> ids[i] == ms[i].id
    ensures m' == RecordMentions(m, ms)
  {
    ids, m' := [], m;
    for i := 0 to |ms|
      invariant |ids| == i && forall k :: 0 <= k < i ==> ids[k] == ms[k].id
      invariant m' == RecordMentions(m, ms[..i])
    {
      assert ms[..i + 1][..i] == ms[..i];
      m' := m'[ms[i].username := ms[i].id];
      ids := ids + [ms[i].id];
    }
    assert ms[..|ms|] == ms;
  }

  /** Lines 121-129: the references classified, a later one of a kind overwriting an earlier one. */
  method ClassifyReferences(refs: seq<Reference>, inReplyToUserId: Option<int>) returns (f: Option<RefFields>)
    ensures f == Classified(refs, inReplyToUserId)
  {
    var inReplyTo, userId, quotes, retweetOf := None, None, None, None;
    for i := 0 to |refs|
      invariant inReplyTo == LastOf(refs[..i], RepliedTo) && quotes == LastOf(refs[..i], Quoted)
      invariant retweetOf == LastOf(refs[..i], Retweeted)
      invariant userId == if inReplyTo.Some? then inReplyToUserId else None
      invariant inReplyTo.Some? ==> inReplyToUserId.Some?
    {
      assert refs[..i + 1][..i] == refs[..i];
      var ref := refs[i];
      if ref.kind == "retweeted" {
        retweetOf := Some(ref.id);
      } else if ref.kind == "replied_to" {
        if inReplyToUserId.None? {
          assert refs[..i + 1] <= refs;
          LastOfPrefix(refs, i + 1, RepliedTo);
          return None;
        }
        inReplyTo := Some(ref.id);
        userId := inReplyToUserId;
      } else {
        quotes := Some(ref.id);
      }
    }
    assert refs[..|refs|] == refs;
    f := Some(RefFields(inReplyTo, userId, quotes, retweetOf));
  }

  /** A reference of a kind in a prefix leaves a last one of that kind in the whole. */
  lemma {:induction false} LastOfPrefix(refs: seq<Reference>, n: nat, k: RefKind)
    requires n <= |refs| && LastOf(refs[..n], k).Some?
    ensures LastOf(refs, k).Some?
    decreases |refs|
  {
    if n < |refs| {
      var init := refs[..|refs| - 1];
      assert init[..n] == refs[..n];
      if KindOf(refs[|refs| - 1]) != k {
        LastOfPrefix(init, n, k);
      }
    } else {
      assert refs[..n] == refs;
    }
  }

  /**
   * Lines 89-151: a tweet object mapped to its row (`None` where the code raises), and the
   * caller's `mentions_id_map` after it, updated even when the mapping then raises.
   */
  method MapTweet(t: TweetObject, original: bool, mentionIds: map<string, int>)
    returns (r: Option<Tweet>, mentionIds': map<string, int>)
    ensures r == MappedTweet(t, original)
    ensures mentionIds' == MentionIdsAfter(t, mentionIds)
  {
    var text := t.text;
    var hashtags: Option<seq<string>> := None;
    var urls: Option<seq<string>> := None;
    var mentions: Option<seq<int>> := None;
    mentionIds' := mentionIds;
    if t.entities.Some? {
      var entities := t.entities.value;
      if entities.urls.Some? {
        var es := entities.urls.value;
        var listed, urlmap := ExpandUrls(es);
        assert listed == seq(|es|, i requires 0 <= i < |es| => Preferred(es[i]));
        urls := Some(listed);
        text := RewriteUrls(text, urlmap);
      }
      if entities.hashtags.Some? {
        var hs := entities.hashtags.value;
        hashtags := Some(seq(|hs|, i requires 0 <= i < |hs| => hs[i].tag));
      }
      if entities.mentions.Some? {
        var ids;
        var ms := entities.mentions.value;
        ids, mentionIds' := RecordMentionIds(ms, mentionIds);
        assert ids == seq(|ms|, i requires 0 <= i < |ms| => ms[i].id);
        mentions := Some(ids);
      }
    }
    var refs := if t.referencedTweets.Some? then t.referencedTweets.value else [];
    var fields := ClassifyReferences(refs, t.inReplyToUserId);
    if fields.None? {
      return None, mentionIds';
    }
    var f := fields.value;
    r := Some(Tweet(None, Some(t.conversationId), Some(t.id), Some(t.authorId),
                    Some(StampAsWritten(t.createdAt)),
                    Some(t.publicMetrics.retweetCount), Some(t.publicMetrics.replyCount),
                    Some(t.publicMetrics.likeCount), Some(t.publicMetrics.quoteCount),
                    Some(t.lang), Some(text), f.inReplyTo, f.inReplyToUserId, f.quotes, f.retweetOf,
                    None, None, original, hashtags, urls, mentions));
  }

  /** Lines 153-155: the row of an API error about a tweet. */
  function TweetError(e: ErrorObject, original: bool): Tweet {
    Tweet(None, None, Some(e.resourceId), None, None, None, None, None, None, None, None, None, None, None, None,
          Some(e.title), Some(e.detail), original, None, None, None)
  }

  function IntOrNull(x: Option<int>): Value {
    if x.Some? then IntValue(x.value) else Null
  }

  function StrOrNull(x: Option<string>): Value {
    if x.Some? then StrValue(x.value) else Null
  }

  function LengthOrNull<T>(x: Option<seq<T>>): Value {
    if x.Some? then IntValue(|x.value|) else Null
  }

  /** Line 216: the fields in order, the three lists replaced by their lengths. */
  function AsTuple(t: Tweet): seq<Value> {
    [IntOrNull(t.urConversationId), IntOrNull(t.conversationId), IntOrNull(t.id), IntOrNull(t.authorId),
     StrOrNull(t.createdAt), IntOrNull(t.retweetCount), IntOrNull(t.replyCount), IntOrNull(t.likeCount),
     IntOrNull(t.quoteCount), StrOrNull(t.lang), StrOrNull(t.text), IntOrNull(t.inReplyTo),
     IntOrNull(t.inReplyToUserId), IntOrNull(t.quotes), IntOrNull(t.retweetOf), StrOrNull(t.errorShort),
     StrOrNull(t.errorDetail), BoolValue(t.original), LengthOrNull(t.hashtags), LengthOrNull(t.urls),
     LengthOrNull(t.mentions)]
  }

  /** The column types of `tweets_i`. */
  datatype ColumnType = BigIntUnsigned | IntegerUnsigned | DateTime | VarChar(width: nat) | Boolean

  /** Lines 162-183: the columns of `tweets_i`, in order. */
  const TweetColumns: seq<(string, ColumnType)> := [
    ("ur_conversation_id", BigIntUnsigned), ("conversation_id", BigIntUnsigned), ("tweet_id", BigIntUnsigned),
    ("author_id", BigIntUnsigned), ("created_at", DateTime), ("retweet_count", IntegerUnsigned),
    ("reply_count", IntegerUnsigned), ("like_count", IntegerUnsigned), ("quote_count", IntegerUnsigned),
    ("lang", VarChar(3)), ("text", VarChar(2000)), ("in_reply_to", BigIntUnsigned),
    ("in_reply_to_user_id", BigIntUnsigned), ("quotes", BigIntUnsigned), ("retweet_of", BigIntUnsigned),
    ("error", VarChar(255)), ("error_detail", VarChar(255)), ("original", Boolean),
    ("hashtags", IntegerUnsigned), ("urls", IntegerUnsigned), ("mentions", IntegerUnsigned)]

  /** Line 218: the placeholders of `Tweet.insert_stmt`. */
  function TweetPlaceholders(): string {
    TreeRow.Repeat("%s,", 20) + "%s"
  }

  /** A value the driver can store in a column of that type (a NULL anywhere). */
  predicate Fits(v: Value, c: ColumnType) {
    match v
    case Null => true
    case IntValue(_) => c == BigIntUnsigned || c == IntegerUnsigned
    case StrValue(_) => c.VarChar? || c == DateTime
    case BoolValue(_) => c == Boolean
  }

  // User.map_user

  /**
   * Lines 250-257 as written: the `urlmap` of a user's field entities, or `None` where line
   * 255 raises, indexing the string `url` with `'url'` as soon as an entity has an unwound URL.
   */
  function UserUrlMapAsWritten(fields: seq<FieldEntities>): Option<Items> {
    if fields == [] then Some([])
    else
      match UserUrlMapAsWritten(fields[..|fields| - 1])
      case None => None
      case Some(d) =>
        var f := fields[|fields| - 1];
        if f.urls.None? then Some(d) else FieldUrlMapAsWritten(d, f.urls.value)
  }

  function FieldUrlMapAsWritten(d: Items, es: seq<UrlEntity>): Option<Items> {
    if es == [] then Some(d)
    else
      match FieldUrlMapAsWritten(d, es[..|es| - 1])
      case None => None
      case Some(d') =>
        var e := es[|es| - 1];
        if e.unwoundUrl.Some? then None
        else if e.expandedUrl.Some? then Some(Assign(d', e.url, e.expandedUrl.value))
        else Some(d')
  }

  /** Lines 250-257 as lines 104-109 do it for tweets: each short URL mapped to its expansion. */
  function UserUrlMap(fields: seq<FieldEntities>): Items {
    if fields == [] then []
    else
      var f := fields[|fields| - 1];
      if f.urls.None? then UserUrlMap(fields[..|fields| - 1])
      else FieldUrlMap(UserUrlMap(fields[..|fields| - 1]), f.urls.value)
  }

  function FieldUrlMap(d: Items, es: seq<UrlEntity>): Items {
    if es == [] then d
    else
      var e := es[|es| - 1];
      var d' := FieldUrlMap(d, es[..|es| - 1]);
      match Expansion(e)
      case Some(u) => Assign(d', e.url, u)
      case None => d'
  }

  /** Python's truth test on a string field: the empty string becomes NULL. */
  function NonEmpty(s: string): Option<string> {
    if s != "" then Some(s) else None
  }

  /** The row of lines 262-278 for `u`, with the URL map `d` and the timestamp text `created`. */
  function UserRow(u: UserObject, d: Items, created: string): User {
    User(u.id, Some(u.username), Some(u.name), NonEmpty(ReplaceAll(u.description, d)), Some(created),
         Some(u.verified), Some(u.protected), NonEmpty(ReplaceAll(u.url, d)),
         if u.location.Some? then NonEmpty(u.location.value) else None,
         Some(u.publicMetrics.followersCount), Some(u.publicMetrics.followingCount),
         Some(u.publicMetrics.tweetCount), Some(u.publicMetrics.listedCount), None, None)
  }

  /**
   * The row `map_user` returns for `u` as written (lines 246-278), or `None` where line 255
   * raises; its timestamp has the slice of line 267.
   */
  function MappedUser(u: UserObject): Option<User> {
    var d := if u.entities.Some? then UserUrlMapAsWritten(u.entities.value) else Some([]);
    match d
    case None => None
    case Some(d) => Some(UserRow(u, d, StampAsWritten(u.createdAt)))
  }

  /**
   * `map_user` with lines 254-255 reading `murl['url']` and line 267 keeping the whole
   * `HH:MM:SS`: it maps every user.
   */
  function FixedUser(u: UserObject): User {
    UserRow(u, if u.entities.Some? then UserUrlMap(u.entities.value) else [], Stamp(u.createdAt))
  }

  /** Some URL entity of some field of `u` has an unwound URL. */
  predicate Unwinds(u: UserObject) {
    u.entities.Some? &&
    exists i, j :: 0 <= i < |u.entities.value| && u.entities.value[i].urls.Some?
      && 0 <= j < |u.entities.value[i].urls.value| && u.entities.value[i].urls.value[j].unwoundUrl.Some?
  }

  /**
   * Lines 250-257 as written: the URL map over every field's entities, or `None` where
   * line 255 raises on an entity with an unwound URL.
   */
  method UserUrls(fields: seq<FieldEntities>) returns (urlmap: Option<Items>)
    ensures urlmap == UserUrlMapAsWritten(fields)
  {
    var d: Items := [];
    for i := 0 to |fields|
      invariant UserUrlMapAsWritten(fields[..i]) == Some(d)
    {
      assert fields[..i + 1][..i] == fields[..i];
      if fields[i].urls.Some? {
        var es := fields[i].urls.value;
        ghost var before := d;
        for j := 0 to |es|
          invariant FieldUrlMapAsWritten(before, es[..j]) == Some(d)
        {
          assert es[..j + 1][..j] == es[..j];
          var murl := es[j];
          if murl.unwoundUrl.Some? {
            // `url['url']` indexes the user's URL string with a string: TypeError.
            UnwoundUserUrlRaisesAsWritten(fields, i, j);
            return None;
          } else if murl.expandedUrl.Some? {
            d := Assign(d, murl.url, murl.expandedUrl.value);
          }
        }
        assert es[..|es|] == es;
      }
    }
    assert fields[..|fields|] == fields;
    urlmap := Some(d);
  }

  /** Lines 246-278: a user object mapped to its row as written, or `None` where line 255 raises. */
  method MapUser(u: UserObject) returns (r: Option<User>)
    ensures r == MappedUser(u)
  {
    var url := u.url;
    var description := u.description;
    if u.entities.Some? {
      var urlmap := UserUrls(u.entities.value);
      if urlmap.None? {
        return None;
      }
      url := RewriteUrls(url, urlmap.value);
      description := RewriteUrls(description, urlmap.value);
    }
    r := Some(User(u.id, Some(u.username), Some(u.name), if description != "" then Some(description) else None,
                   Some(StampAsWritten(u.createdAt)), Some(u.verified), Some(u.protected),
                   if url != "" then Some(url) else None,
                   if u.location.Some? && u.location.value != "" then u.location else None,
                   Some(u.publicMetrics.followersCount), Some(u.publicMetrics.followingCount),
                   Some(u.publicMetrics.tweetCount), Some(u.publicMetrics.listedCount), None, None));
  }

  /** Lines 280-282: the row of an API error about a user. */
  function UserError(id: int, e: ErrorObject): User {
    User(id, None, None, None, None, None, None, None, None, None, None, None, None, Some(e.title), Some(e.detail))
  }

  // Properties.

  /** The dict of items: assigning a key sets its value, keeps every other one, and keeps keys distinct. */
  lemma {:induction false} AssignLookup(d: Items, k: string, v: string, k': string)
    requires DistinctKeys(d)
    ensures DistinctKeys(Assign(d, k, v))
    ensures Lookup(Assign(d, k, v), k') == if k' == k then Some(v) else Lookup(d, k')
  {
    if d != [] && d[0].0 != k {
      assert DistinctKeys(d[1..]);
      AssignLookup(d[1..], k, v, k');
      AssignKeys(d[1..], k, v);
      assert forall j :: 0 <= j < |d[1..]| ==> d[1..][j].0 != d[0].0;
    }
  }

  /** Assigning adds at most the new key. */
  lemma {:induction false} AssignKeys(d: Items, k: string, v: string)
    ensures forall j :: 0 <= j < |Assign(d, k, v)| ==> Assign(d, k, v)[j].0 == k || exists i :: 0 <= i < |d| && d[i].0 == Assign(d, k, v)[j].0
  {
    if d != [] && d[0].0 != k {
      AssignKeys(d[1..], k, v);
      var a := Assign(d, k, v);
      forall j | 0 <= j < |a| && a[j].0 != k
        ensures exists i :: 0 <= i < |d| && d[i].0 == a[j].0
      {
        if j > 0 {
          var i :| 0 <= i < |d[1..]| && d[1..][i].0 == a[j].0;
          assert d[i + 1].0 == a[j].0;
        } else {
          assert d[0].0 == a[j].0;
        }
      }
    }
  }

  /**
   * Lines 103-109: a short URL is in `urlmap` exactly when one of its entities has an
   * expansion, mapped to the expansion of the last such entity; no short URL twice.
   */
  lemma {:induction false} UrlMapLookup(es: seq<UrlEntity>, k: string)
    ensures DistinctKeys(UrlMapOf(es))
    ensures Lookup(UrlMapOf(es), k).None? <==> forall i :: 0 <= i < |es| && es[i].url == k ==> Expansion(es[i]).None?
    ensures forall i :: (0 <= i < |es| && es[i].url == k && Expansion(es[i]).Some?
                         && (forall j :: i < j < |es| && es[j].url == k ==> Expansion(es[j]).None?))
                        ==> Lookup(UrlMapOf(es), k) == Expansion(es[i])
  {
    if es != [] {
      var init := es[..|es| - 1];
      var e := es[|es| - 1];
      UrlMapLookup(init, k);
      if Expansion(e).Some? {
        AssignLookup(UrlMapOf(init), e.url, Expansion(e).value, k);
      }
      assert forall i :: 0 <= i < |init| ==> init[i] == es[i];
    }
  }

  /** A text without the short URL is left as it is (line 113). */
  lemma {:induction false} ReplaceAbsent(s: string, pattern: string, replacement: string)
    requires pattern != [] && !Occurs(s, pattern)
    ensures Replace(s, pattern, replacement) == s
    decreases |s|
  {
    if |s| >= |pattern| {
      assert StartsWith(s[0..], pattern) ==> Occurs(s, pattern);
      assert s[0..] == s;
      assert !Occurs(s[1..], pattern);
      ReplaceAbsent(s[1..], pattern, replacement);
      assert [s[0]] + s[1..] == s;
    }
  }

  /**
   * The first occurrence of a short URL is replaced by its expansion: in `a + pattern + b`, where
   * no occurrence of `pattern` starts inside `a`, the text becomes `a + replacement` followed by `b` rewritten.
   */
  lemma {:induction false} ReplaceFirst(a: string, pattern: string, replacement: string, b: string)
    requires pattern != []
    requires forall i :: 0 <= i < |a| ==> !StartsWith((a + pattern + b)[i..], pattern)
    ensures Replace(a + pattern + b, pattern, replacement) == a + replacement + Replace(b, pattern, replacement)
    decreases |a|, 1
  {
    if a == [] {
      ReplaceAtStart(a, pattern, replacement, b);
    } else {
      ReplacePast(a, pattern, replacement, b);
    }
  }

  /** `ReplaceFirst` when `a` is not empty: its first character is kept, the rest follows by induction. */
  lemma {:induction false} ReplacePast(a: string, pattern: string, replacement: string, b: string)
    requires pattern != [] && a != []
    requires forall i :: 0 <= i < |a| ==> !StartsWith((a + pattern + b)[i..], pattern)
    ensures Replace(a + pattern + b, pattern, replacement) == a + replacement + Replace(b, pattern, replacement)
    decreases |a|, 0
  {
    NoneBeforeTail(a, pattern, b);
    ReplaceStep(a, pattern, replacement, b);
    ReplaceFirst(a[1..], pattern, replacement, b);
    Regroup(a, replacement, Replace(b, pattern, replacement));
  }

  /** No occurrence starts inside `a`: then none starts at its first character, nor inside its tail. */
  lemma NoneBeforeTail(a: string, pattern: string, b: string)
    requires a != []
    requires forall i :: 0 <= i < |a| ==> !StartsWith((a + pattern + b)[i..], pattern)
    ensures !StartsWith(a + pattern + b, pattern)
    ensures forall i :: 0 <= i < |a[1..]| ==> !StartsWith((a[1..] + pattern + b)[i..], pattern)
  {
    var s := a + pattern + b;
    var t := a[1..] + pattern + b;
    assert s[0..] == s;
    forall i | 0 <= i < |a[1..]|
      ensures !StartsWith(t[i..], pattern)
    {
      assert t[i..] == s[i + 1..];
    }
  }

  /** Past a first character at which the short URL does not start. */
  lemma ReplaceStep(a: string, pattern: string, replacement: string, b: string)
    requires pattern != [] && a != [] && !StartsWith(a + pattern + b, pattern)
    ensures Replace(a + pattern + b, pattern, replacement) == [a[0]] + Replace(a[1..] + pattern + b, pattern, replacement)
  {
    var s := a + pattern + b;
    ReplaceSkip(s, pattern, replacement);
    assert s[1..] == a[1..] + pattern + b;
  }

  lemma Regroup(a: string, r: string, rest: string)
    requires a != []
    ensures [a[0]] + (a[1..] + r + rest) == a + r + rest
  {
    assert [a[0]] + a[1..] == a;
  }

  /** A text that starts with the short URL gets its expansion in front of the rest rewritten. */
  lemma ReplaceAtStart(a: string, pattern: string, replacement: string, b: string)
    requires pattern != [] && a == []
    ensures Replace(a + pattern + b, pattern, replacement) == a + replacement + Replace(b, pattern, replacement)
  {
    var s := a + pattern + b;
    assert s[..|pattern|] == pattern;
    assert s[|pattern|..] == b;
    assert a + replacement + Replace(b, pattern, replacement) == replacement + Replace(b, pattern, replacement);
  }

  /** A text that does not start with the short URL keeps its first character. */
  lemma ReplaceSkip(s: string, pattern: string, replacement: string)
    requires pattern != [] && s != [] && !StartsWith(s, pattern)
    ensures Replace(s, pattern, replacement) == [s[0]] + Replace(s[1..], pattern, replacement)
  {
  }

  /** A text in which no short URL of the map occurs comes out unchanged (line 112-113). */
  lemma {:induction false} ReplaceAllAbsent(text: string, d: Items)
    requires forall i :: 0 <= i < |d| ==> d[i].0 != [] && !Occurs(text, d[i].0)
    ensures ReplaceAll(text, d) == text
  {
    if d != [] {
      ReplaceAbsent(text, d[0].0, d[0].1);
      ReplaceAllAbsent(text, d[1..]);
    }
  }

  /** The last reference of a kind is the one the field keeps; none leaves it `None`. */
  lemma {:induction false} LastOfMeans(refs: seq<Reference>, k: RefKind)
    ensures LastOf(refs, k).None? <==> forall i :: 0 <= i < |refs| ==> KindOf(refs[i]) != k
    ensures LastOf(refs, k).Some? ==> exists i :: (0 <= i < |refs| && KindOf(refs[i]) == k
      && LastOf(refs, k) == Some(refs[i].id) && forall j :: i < j < |refs| ==> KindOf(refs[j]) != k)
  {
    if refs != [] {
      var init := refs[..|refs| - 1];
      LastOfMeans(init, k);
      assert forall i :: 0 <= i < |init| ==> init[i] == refs[i];
      if KindOf(refs[|refs| - 1]) != k && LastOf(init, k).Some? {
        var i :| 0 <= i < |init| && KindOf(init[i]) == k && LastOf(init, k) == Some(init[i].id)
          && forall j :: i < j < |init| ==> KindOf(init[j]) != k;
        assert forall j :: i < j < |refs| ==> KindOf(refs[j]) != k;
      }
    }
  }

  /**
   * Lines 121-129: `retweet_of`, `in_reply_to` and `quotes` hold the last reference of their
   * kind (`retweeted`, `replied_to`, any other type) and stay `None` without one;
   * `in_reply_to_user_id` is set exactly with `in_reply_to`.
   */
  lemma ReferencesClassified(t: TweetObject, original: bool)
    requires MappedTweet(t, original).Some?
    ensures var r := MappedTweet(t, original).value;
      var refs := if t.referencedTweets.Some? then t.referencedTweets.value else [];
      && r.retweetOf == LastOf(refs, Retweeted) && r.inReplyTo == LastOf(refs, RepliedTo)
      && r.quotes == LastOf(refs, Quoted)
      && (r.inReplyToUserId.Some? <==> r.inReplyTo.Some?)
      && (r.inReplyTo.Some? ==> r.inReplyToUserId == t.inReplyToUserId)
      && (r.retweetOf.None? <==> forall i :: 0 <= i < |refs| ==> refs[i].kind != "retweeted")
      && (r.inReplyTo.None? <==> forall i :: 0 <= i < |refs| ==> refs[i].kind != "replied_to")
  {
    var refs := if t.referencedTweets.Some? then t.referencedTweets.value else [];
    LastOfMeans(refs, Retweeted);
    LastOfMeans(refs, RepliedTo);
  }

  /** Line 127: a reply reference on a tweet without `in_reply_to_user_id` makes the mapping raise. */
  lemma ReplyNeedsUserId(t: TweetObject, original: bool)
    requires t.referencedTweets.Some? && t.inReplyToUserId.None?
    ensures MappedTweet(t, original).None? <==> exists i :: 0 <= i < |t.referencedTweets.value| && t.referencedTweets.value[i].kind == "replied_to"
  {
    LastOfMeans(t.referencedTweets.value, RepliedTo);
  }

  /**
   * Line 119: after the mapping, every mentioned username maps to the id of its last mention,
   * and no other entry of the caller's map changes.
   */
  lemma {:induction false} MentionsRecorded(m: map<string, int>, ms: seq<MentionEntity>, u: string)
    ensures u in RecordMentions(m, ms) <==> u in m || exists i :: 0 <= i < |ms| && ms[i].username == u
    ensures (forall i :: 0 <= i < |ms| ==> ms[i].username != u) && u in m ==> RecordMentions(m, ms)[u] == m[u]
    ensures forall i :: (0 <= i < |ms| && ms[i].username == u && (forall j :: i < j < |ms| ==> ms[j].username != u))
                        ==> RecordMentions(m, ms)[u] == ms[i].id
  {
    if ms != [] {
      var init := ms[..|ms| - 1];
      MentionsRecorded(m, init, u);
      assert forall i :: 0 <= i < |init| ==> init[i] == ms[i];
    }
  }

  /** Line 130: a freshly mapped tweet has no `ur_conversation_id`; nor has an error row (line 155). */
  lemma UrConversationUnset(t: TweetObject, e: ErrorObject, original: bool)
    ensures MappedTweet(t, original).Some? ==> AsTuple(MappedTweet(t, original).value)[0] == Null
    ensures AsTuple(TweetError(e, original))[0] == Null
  {
  }

  /**
   * Lines 153-155 and 216: an error row carries the id, the error's title and detail and the
   * `original` flag, and NULL in every other of its 21 columns.
   */
  lemma ErrorRow(e: ErrorObject, original: bool)
    ensures var row := AsTuple(TweetError(e, original));
      && |row| == 21 && row[2] == IntValue(e.resourceId) && row[15] == StrValue(e.title)
      && row[16] == StrValue(e.detail) && row[17] == BoolValue(original)
      && forall i :: 0 <= i < 21 && i !in {2, 15, 16, 17} ==> row[i] == Null
  {
  }

  /**
   * Lines 162-183 and 216: a row has one value per column of `tweets_i`, each of a kind
   * that column stores.
   */
  lemma RowFitsTable(t: Tweet)
    ensures |AsTuple(t)| == |TweetColumns| == 21
    ensures forall i :: 0 <= i < 21 ==> Fits(AsTuple(t)[i], TweetColumns[i].1)
  {
  }

  /** Line 218: the INSERT has one placeholder per column of `tweets_i`. */
  lemma PlaceholdersPerColumn()
    ensures TreeRow.Occurrences(TweetPlaceholders(), '%') == |TweetColumns|
  {
    TreeRow.OccurrencesAppend(TreeRow.Repeat("%s,", 20), "%s", '%');
    TreeRow.OccurrencesRepeat("%s,", 20, '%');
  }

  /**
   * Lines 100-111 and 216: a mapped tweet lists one URL per URL entity, in order, each the
   * entity's unwound URL, else its expanded URL, else its short URL; the row stores their count.
   */
  lemma UrlsListed(t: TweetObject, original: bool)
    requires MappedTweet(t, original).Some? && t.entities.Some? && t.entities.value.urls.Some?
    ensures var es := t.entities.value.urls.value; var r := MappedTweet(t, original).value;
      && r.urls.Some? && |r.urls.value| == |es|
      && (forall i :: 0 <= i < |es| ==> r.urls.value[i] == (if es[i].unwoundUrl.Some? then es[i].unwoundUrl.value
                                                         else if es[i].expandedUrl.Some? then es[i].expandedUrl.value
                                                         else es[i].url))
      && AsTuple(r)[19] == IntValue(|es|)
  {
  }

  /**
   * Lines 134 and 267 as they should read: an API timestamp becomes a whole DATETIME
   * literal with the same date and time.
   */
  lemma StampIso(s: string)
    requires IsoStamp(s)
    ensures DateTimeText(Stamp(s))
    ensures Stamp(s)[..10] == s[..10] && Stamp(s)[11..] == s[11..19]
  {
  }

  /** As written, lines 134 and 267 cut the last digit of the seconds off an API timestamp. */
  lemma StampAsWrittenDropsDigit(s: string)
    requires IsoStamp(s)
    ensures |StampAsWritten(s)| == 18 && !DateTimeText(StampAsWritten(s))
    ensures StampAsWritten(s) == Stamp(s)[..18]
  {
  }

  /** As written, a user whose entities hold an unwound URL cannot be mapped: line 255 raises. */
  lemma {:induction false} UnwoundUserUrlRaisesAsWritten(fields: seq<FieldEntities>, i: nat, j: nat)
    requires i < |fields| && fields[i].urls.Some? && j < |fields[i].urls.value|
    requires fields[i].urls.value[j].unwoundUrl.Some?
    ensures UserUrlMapAsWritten(fields) == None
  {
    var init := fields[..|fields| - 1];
    if i < |fields| - 1 {
      assert init[i] == fields[i];
      UnwoundUserUrlRaisesAsWritten(init, i, j);
    } else if UserUrlMapAsWritten(init).Some? {
      FieldRaisesAsWritten(UserUrlMapAsWritten(init).value, fields[i].urls.value, j);
    }
  }

  lemma {:induction false} FieldRaisesAsWritten(d: Items, es: seq<UrlEntity>, j: nat)
    requires j < |es| && es[j].unwoundUrl.Some?
    ensures FieldUrlMapAsWritten(d, es) == None
  {
    var init := es[..|es| - 1];
    if j < |es| - 1 {
      assert init[j] == es[j];
      FieldRaisesAsWritten(d, init, j);
    }
  }

  /** The URL entities of all of a user's fields, field after field. */
  function FieldUrls(fields: seq<FieldEntities>): seq<UrlEntity> {
    if fields == [] then []
    else
      var f := fields[|fields| - 1];
      FieldUrls(fields[..|fields| - 1]) + if f.urls.Some? then f.urls.value else []
  }

  /** Continuing the map with one field's entities is building it over the longer entity list. */
  lemma {:induction false} FieldUrlMapOf(pre: seq<UrlEntity>, es: seq<UrlEntity>)
    ensures FieldUrlMap(UrlMapOf(pre), es) == UrlMapOf(pre + es)
    decreases |es|
  {
    if es == [] {
      assert pre + es == pre;
    } else {
      var init := es[..|es| - 1];
      FieldUrlMapOf(pre, init);
      assert (pre + es)[..|pre + es| - 1] == pre + init;
      assert (pre + es)[|pre + es| - 1] == es[|es| - 1];
    }
  }

  /**
   * The user URL map is the tweet URL map of lines 103-109 over all the fields' entities: a
   * short URL is in it exactly when one of its entities has an expansion, and it maps to the
   * expansion of the last such entity.
   */
  lemma {:induction false} UserUrlMapLookup(fields: seq<FieldEntities>, k: string)
    ensures UserUrlMap(fields) == UrlMapOf(FieldUrls(fields))
    ensures var es := FieldUrls(fields);
      && DistinctKeys(UserUrlMap(fields))
      && (Lookup(UserUrlMap(fields), k).None? <==> forall i :: 0 <= i < |es| && es[i].url == k ==> Expansion(es[i]).None?)
      && (forall i :: (0 <= i < |es| && es[i].url == k && Expansion(es[i]).Some?
                       && (forall j :: i < j < |es| && es[j].url == k ==> Expansion(es[j]).None?))
                      ==> Lookup(UserUrlMap(fields), k) == Expansion(es[i]))
    decreases |fields|
  {
    if fields != [] {
      var init := fields[..|fields| - 1];
      var f := fields[|fields| - 1];
      UserUrlMapLookup(init, k);
      if f.urls.Some? {
        FieldUrlMapOf(FieldUrls(init), f.urls.value);
      } else {
        assert FieldUrls(fields) == FieldUrls(init) + [] == FieldUrls(init);
      }
    }
    UrlMapLookup(FieldUrls(fields), k);
  }

  /** Without unwound URLs, the user URL map as written agrees with the one `MapUser` uses. */
  lemma {:induction false} UserUrlMapAgrees(fields: seq<FieldEntities>)
    requires forall i, j :: 0 <= i < |fields| && fields[i].urls.Some? && 0 <= j < |fields[i].urls.value| ==>
      fields[i].urls.value[j].unwoundUrl.None?
    ensures UserUrlMapAsWritten(fields) == Some(UserUrlMap(fields))
  {
    if fields != [] {
      var init := fields[..|fields| - 1];
      assert forall i :: 0 <= i < |init| ==> init[i] == fields[i];
      UserUrlMapAgrees(init);
      var f := fields[|fields| - 1];
      if f.urls.Some? {
        FieldUrlMapAgrees(UserUrlMap(init), f.urls.value);
      }
    }
  }

  lemma {:induction false} FieldUrlMapAgrees(d: Items, es: seq<UrlEntity>)
    requires forall j :: 0 <= j < |es| ==> es[j].unwoundUrl.None?
    ensures FieldUrlMapAsWritten(d, es) == Some(FieldUrlMap(d, es))
  {
    if es != [] {
      FieldUrlMapAgrees(d, es[..|es| - 1]);
    }
  }

  /**
   * The tweet mapper as written and as corrected raise on the same tweets and give the same
   * row but for `created_at`: on an API timestamp, the corrected one is a complete DATETIME
   * literal and the one as written is it without its last character.
   */
  lemma FixedTweetAgrees(t: TweetObject, original: bool)
    ensures MappedTweet(t, original).None? <==> FixedTweet(t, original).None?
    ensures MappedTweet(t, original).Some? ==>
      MappedTweet(t, original).value == FixedTweet(t, original).value.(createdAt := Some(StampAsWritten(t.createdAt)))
    ensures IsoStamp(t.createdAt) && FixedTweet(t, original).Some? ==>
      var fixed := FixedTweet(t, original).value.createdAt.value;
      DateTimeText(fixed) && MappedTweet(t, original).value.createdAt.value == fixed[..18]
  {
    if IsoStamp(t.createdAt) {
      StampIso(t.createdAt);
      StampAsWrittenDropsDigit(t.createdAt);
    }
  }

  /**
   * The user mapper as written raises exactly on the users with an unwound URL; otherwise it
   * gives the corrected row but for `created_at`, where it drops the last character of the
   * complete DATETIME literal the corrected one has.
   */
  lemma FixedUserAgrees(u: UserObject)
    ensures MappedUser(u).None? <==> Unwinds(u)
    ensures MappedUser(u).Some? ==> MappedUser(u).value == FixedUser(u).(createdAt := Some(StampAsWritten(u.createdAt)))
    ensures IsoStamp(u.createdAt) ==>
      && DateTimeText(FixedUser(u).createdAt.value)
      && (MappedUser(u).Some? ==> MappedUser(u).value.createdAt.value == FixedUser(u).createdAt.value[..18])
  {
    if u.entities.Some? {
      var fields := u.entities.value;
      if Unwinds(u) {
        var i, j :| 0 <= i < |fields| && fields[i].urls.Some?
          && 0 <= j < |fields[i].urls.value| && fields[i].urls.value[j].unwoundUrl.Some?;
        UnwoundUserUrlRaisesAsWritten(fields, i, j);
      } else {
        UserUrlMapAgrees(fields);
      }
    }
    if IsoStamp(u.createdAt) {
      StampIso(u.createdAt);
      StampAsWrittenDropsDigit(u.createdAt);
    }
  }

  /**
   * Lines 266 and 270-271: an empty description, URL or location is stored as NULL, and
   * a non-empty one as itself (after URL expansion, for description and URL), in the row
   * as written whenever it exists and in the corrected row.
   */
  lemma UserEmptyFields(u: UserObject)
    ensures var d := if u.entities.Some? then UserUrlMap(u.entities.value) else [];
      forall r :: (r == FixedUser(u) || (MappedUser(u).Some? && r == MappedUser(u).value)) ==>
        && (r.description.None? <==> ReplaceAll(u.description, d) == "")
        && (r.description.Some? ==> r.description.value == ReplaceAll(u.description, d))
        && (r.url.None? <==> ReplaceAll(u.url, d) == "")
        && (r.url.Some? ==> r.url.value == ReplaceAll(u.url, d))
        && (r.location.None? <==> u.location.None? || u.location.value == "")
        && (r.location.Some? ==> r.location == u.location)
  {
    FixedUserAgrees(u);
  }

  /**
   * Lines 262-282: a mapped user row carries the user's own fields and no error, while an
   * error row carries only the id and the error's title and detail, so the two kinds of row
   * are told apart by `error_short`.
   */
  lemma UserRowKinds(u: UserObject, id: int, e: ErrorObject)
    ensures forall r :: (r == FixedUser(u) || (MappedUser(u).Some? && r == MappedUser(u).value)) ==>
      && r.id == u.id && r.username == Some(u.username) && r.name == Some(u.name)
      && r.errorShort.None? && r.errorDetail.None?
    ensures var r := UserError(id, e);
      && r.id == id && r.errorShort == Some(e.title) && r.errorDetail == Some(e.detail)
      && r.username.None? && r.name.None? && r.description.None? && r.createdAt.None?
      && r.verified.None? && r.protected.None? && r.url.None? && r.location.None?
      && r.followersCount.None? && r.followingCount.None? && r.tweetCount.None? && r.listedCount.None?
  {
  }
}
