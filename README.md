# convoy-data-pipeline: tweet-tree statistics, record mapping, crawl resume and reply tally

This project models, in Dafny, the parts of the convoy data pipeline that compute and check
values rather than move them: four pieces of code, in four modules plus their helpers.

**Statistics of a conversation tree** (`code/create-db/3_create_tweet_stats_i.py`). The model
follows the computation that `enrich_conversation` runs for every ur-conversation. The records of
the group come in newest first. They are attached to `Tree` objects fetched through a memo cache.
A record becomes a reply child of its parent, or else a retweet or quote ur-child. Every node is
then aggregated by the explicit-stack walk of `count_statistics`, its dispersions are computed
by `count_mads`, and `as_tuple` turns it into a 41-value row of `tweet_stats_i`.

- `TreeModel` holds the entities: the node arena, the aggregate fields and the dispersion fields.
  It also specifies the walk frame by frame (`Target`) and bounds what the walk stores.
- `TreeReach` gives the order-independent fields a structural definition: counts, totals and
  author sets (`Tally`), and the longest reply path and longest path (`Height`, `UrHeight`). It
  proves that the walk computes exactly these once the nodes below are exact.
- `TreeSize` shows what `descendants` and `ur_descendants` count: the distinct tweets below a
  node over reply edges, and over edges of every kind. Since `tweet_id` is a primary key, each
  record adds one edge below its own node, so both counts stay below the number of records and
  the check of line 244 never fires.
- `Dispersions` specifies `count_mads`.
- `Records` models the builder: records, the get-or-create cache and the parent sets.
- `Conversations` holds the imperative code. The class `Conversation` keeps the arena, the
  stored statistics and dispersions, and the cache, and its methods are the builder loop,
  `count_statistics`, `count_mads`, the descending loop and the insert loop.
- `TreeRow` models `as_tuple` and the table layout.
- `TreeCases` works through a two-tweet conversation. It shows which fields depend on the order
  in which nodes are aggregated.

**Tweet and user mapping** (`code/create-db/1_initial_load.py`, module `InitialLoad`). A decoded
API tweet object becomes a `tweets_i` row. This covers the referenced-tweet classification, URL
expansion and text rewriting, mention recording, the timestamp slice, and `as_tuple` with lists
replaced by their lengths. A user object becomes a `users_a` row. Error objects become error rows.
The mappers are modelled as written: with the timestamp slices of lines 134 and 267, and with the
user mapper failing where line 255 raises. `FixedTweet` and `FixedUser` are the corrected
mappers, and lemmas relate the two versions (see Findings).

**Crawl batching and resume status** (`code/fetch-conversations/fetch_conversation_tweets.py`,
module `CrawlStatus`). Conversation ids are packed into search queries of 26 ids. After every page
a `/`-separated status line is written; on restart, that line is read back.

**Reply tally** (`code/fetch-conversations/extract_conversation_ids.py`, module `ReplyTally`). This
counts tweets and replies per conversation over the crawled pages and dumps the ids of the
conversations that have replies.

Python's `-1` "not yet computed" sentinel becomes `Option`. Python sets of `Tree` objects become
sets of arena slots. Python floats become `real`. Every edge leads to a younger tweet, which has
a larger id, so the arena is acyclic. Termination and every induction over a tree use the tweet
id, bounded by 2^64 because ids are `BIGINT UNSIGNED`.

## Model

| member | source | states |
|---|---|---|
| TreeModel.LeafCount | code/create-db/3_create_tweet_stats_i.py:70 | the leaf count of a child set (children without reply children) never exceeds the set's size |
| TreeModel.StrictLeafCount | code/create-db/3_create_tweet_stats_i.py:71 | the stricter leaf test of line 71 (no children of either kind) never counts more than the reply-only test |
| TreeModel.SumOverPick | code/create-db/3_create_tweet_stats_i.py:86-89 | what a set of sibling frames adds does not depend on which sibling the stack pops first |
| TreeModel.StackSumEnumerates | code/create-db/3_create_tweet_stats_i.py:86-87 | the frames pushed for a set of siblings, in any order, add exactly the contributions of that set |
| TreeModel.ContributionBounded | code/create-db/3_create_tweet_stats_i.py:88-139 | whatever a frame adds satisfies leaf ≤ descendants ≤ ur-descendants, leaf ≤ ur-leaf ≤ ur-descendants, and non-negative depths |
| TreeModel.ContributionOffReply | code/create-db/3_create_tweet_stats_i.py:101-130 | a frame off the reply path adds nothing to any reply-only field: descendants, leaves, depths, totals and authors |
| TreeModel.TargetSane | code/create-db/3_create_tweet_stats_i.py:64-139 | the aggregate `count_statistics` stores satisfies the sanity checks of lines 244-247; every reply-tree total lies between 0 and its ur-tree total and the reply-tree authors are among the ur-tree authors (lines 91/102, 113/122); so the denominators of lines 200-201 are at least 1; descendants ≥ number of children, ur-descendants ≥ children plus ur-children, and zero without edges |
| TreeReach.ContributionTally | code/create-db/3_create_tweet_stats_i.py:88-139 | once the stored nodes are exact, the counts, totals and author sets a frame adds are the structural tally of its subtree, reply parts dropped off the reply path |
| TreeReach.SumOverTally | code/create-db/3_create_tweet_stats_i.py:86-87 | the frames of a sibling set add the structural tally of the set |
| TreeReach.ContributionHeight | code/create-db/3_create_tweet_stats_i.py:108-132 | on a reply path a frame at depth d reaches d plus the longest reply path below its node; off it, nothing |
| TreeReach.ContributionUrHeight | code/create-db/3_create_tweet_stats_i.py:97-136 | a frame at depth d reaches d plus the longest path over both edge kinds below its node |
| TreeReach.SumOverHeight | code/create-db/3_create_tweet_stats_i.py:108-109 | the deepest reply path through a sibling set is the longest path below them plus their depth |
| TreeReach.SumOverUrHeight | code/create-db/3_create_tweet_stats_i.py:97-98 | likewise for paths over both edge kinds |
| TreeReach.TargetExact | code/create-db/3_create_tweet_stats_i.py:64-139 | if every node aggregated before holds exact values, then what `count_statistics` computes has descendants, leaf counts, totals and author sets equal to the structural tally, `max_depth` equal to the longest reply path and `ur_max_depth` equal to the longest path |
| TreeReach.SettledStore | code/create-db/3_create_tweet_stats_i.py:64-65 | storing an exact aggregate keeps every stored aggregate exact |
| TreeReach.TargetSettles | code/create-db/3_create_tweet_stats_i.py:64-139 | storing what `count_statistics` computes keeps every stored aggregate exact |
| TreeReach.SettledBlank | code/create-db/3_create_tweet_stats_i.py:20-62 | with every field still at its sentinel, no stored value can be wrong |
| Dispersions.Means | code/create-db/3_create_tweet_stats_i.py:149-163 | each engagement mean times `descendants + 1` gives back the total |
| Dispersions.Deviation | code/create-db/3_create_tweet_stats_i.py:150-164 | every absolute deviation is non-negative |
| Dispersions.RealSumPick | code/create-db/3_create_tweet_stats_i.py:143-147 | `reduce` over a Python set gives the same sum whichever element comes first |
| Dispersions.SetDeviationPick | code/create-db/3_create_tweet_stats_i.py:168-178 | the summed deviations of a child set do not depend on the pop order |
| Dispersions.StackDeviationEnumerates | code/create-db/3_create_tweet_stats_i.py:166-178 | the frames of the dispersion stack add the deviations of the direct children only (no grandchildren), and the reply variant ignores the ur-children |
| Dispersions.Divisors | code/create-db/3_create_tweet_stats_i.py:143-147 | after aggregation, whenever a guard of lines 143-147 holds, the length it divides by is non-zero |
| Dispersions.DepthMadsNonNegative | code/create-db/3_create_tweet_stats_i.py:142-145 | `mad_depth` and `ur_mad_depth` are non-negative, with no division by zero |
| Dispersions.AuthorMadsNonNegative | code/create-db/3_create_tweet_stats_i.py:146-147 | `mad_t_authors` and `ur_mad_t_authors` are non-negative, with no division by zero |
| Dispersions.EngagementNonNegative | code/create-db/3_create_tweet_stats_i.py:149-178 | the eight engagement dispersions are non-negative |
| Dispersions.MadsNonNegative | code/create-db/3_create_tweet_stats_i.py:141-178 | all twelve fields `count_mads` stores are non-negative, as the `FLOAT UNSIGNED` columns require, whatever state the children are in |
| Dispersions.ChildlessTarget | code/create-db/3_create_tweet_stats_i.py:86-88 | a node without edges pushes nothing: its aggregate is its seed |
| Dispersions.SeedOfChildless | code/create-db/3_create_tweet_stats_i.py:66-84 | the seed of a node without edges has zero counts and depths, its own counters as totals and its own author as author set |
| Dispersions.ChildlessMads | code/create-db/3_create_tweet_stats_i.py:141-178 | an aggregated node without edges has every dispersion 0.0 |
| Dispersions.DepthMadsFrame | code/create-db/3_create_tweet_stats_i.py:142-145 | the depth dispersions read only the node's own aggregate and its children's |
| Dispersions.AuthorMadsFrame | code/create-db/3_create_tweet_stats_i.py:146-147 | the author dispersions read only the node's own aggregate and its children's |
| Dispersions.MadsFrame | code/create-db/3_create_tweet_stats_i.py:141-178 | aggregating any node that is not the node or one of its children leaves what `count_mads` computes unchanged |
| Records.Link | code/create-db/3_create_tweet_stats_i.py:235-240 | a record joins no parent set exactly when it has no parent of any kind, and joins `children` exactly when it is a reply (reply before retweet before quote) |
| Records.Latest | code/create-db/3_create_tweet_stats_i.py:229-234 | the record whose fields a node carries is a record for that id |
| Records.Get | code/create-db/3_create_tweet_stats_i.py:226 | get-or-create: a cached id yields its slot and leaves the arena alone; a new id gets a fresh `Tree(id)` in a new slot; no cached slot moves |
| Records.StepIndexed | code/create-db/3_create_tweet_stats_i.py:228-240 | a builder turn keeps the cache and the arena in agreement, and the arena only grows |
| Records.StepCaches | code/create-db/3_create_tweet_stats_i.py:228-240 | a builder turn caches exactly the record's id and its parent's, and keeps every earlier slot |
| Records.StepDescribes | code/create-db/3_create_tweet_stats_i.py:228-240 | after a builder turn each node carries its latest record's author and counters, and its parent sets are exactly the records naming it as parent |
| Records.LinkedOrdered | code/create-db/3_create_tweet_stats_i.py:235-240 | among records that refer only to older tweets, every child has a larger id than its parent |
| Records.CarriesUnsigned | code/create-db/1_initial_load.py:168-171 | records read from the `INTEGER UNSIGNED` counter columns give every node non-negative counters |
| TreeSize.ReachSplit | code/create-db/3_create_tweet_stats_i.py:86-87 | what lies below a node is its children (and ur-children) together with what lies below them |
| TreeSize.ReachFromCount | code/create-db/3_create_tweet_stats_i.py:103-127 | in a forest, the nodes in or below a set of children number the children plus the descendants the walk adds for them |
| TreeSize.ReachCount | code/create-db/3_create_tweet_stats_i.py:64-139 | in a forest, `descendants` is the number of nodes below over reply edges, and `ur_descendants` the number below over edges of every kind |
| TreeSize.DescribesForest | code/create-db/3_create_tweet_stats_i.py:228-240 | built from records with distinct ids, every node hangs below at most one parent, in one of its two sets |
| TreeSize.ReachRecorded | code/create-db/3_create_tweet_stats_i.py:235-240 | every node below a record's node is the node of a record, since only a record adds an edge |
| TreeSize.FewerThanRecords | code/create-db/3_create_tweet_stats_i.py:244 | a record's node has fewer nodes below it, of either kind, than the group has records |
| TreeSize.DescendantsCounted | code/create-db/3_create_tweet_stats_i.py:241-244 | for every record's node, `descendants` and `ur_descendants` count the distinct tweets below it and are smaller than the number of records |
| Records.DescribesWellFormed | code/create-db/3_create_tweet_stats_i.py:226-240 | the arena built from such records is acyclic: every edge leads to a larger id |
| TreeRow.Pairs | code/create-db/3_create_tweet_stats_i.py:298-301 | the columns declared for a list of names come in pairs, all of the given type |
| TreeRow.Counts | code/create-db/3_create_tweet_stats_i.py:181-199 | the integer part of the row has one integer per integer column |
| TreeRow.Ratios | code/create-db/3_create_tweet_stats_i.py:200-221 | the float part of the row has one real per float column, and is defined (no zero denominator) for every bounded aggregate |
| TreeRow.InsertMatchesSchema | code/create-db/3_create_tweet_stats_i.py:252 | the INSERT has 41 placeholders, one per column of `tweet_stats_i` |
| TreeRow.SchemaKinds | code/create-db/3_create_tweet_stats_i.py:297-302 | the table has the id, 18 integer columns, then 22 float columns |
| TreeRow.ColumnKinds | code/create-db/3_create_tweet_stats_i.py:256-280 | for any column name lists, the float columns are exactly those after the id and the integer pairs |
| TreeRow.RowMatchesSchema | code/create-db/3_create_tweet_stats_i.py:180-222 | `as_tuple` has one value per column, integer exactly where the column is not `FLOAT` |
| TreeRow.RowKinds | code/create-db/3_create_tweet_stats_i.py:180-222 | the row is 41 values, integers at positions 0-18 and reals after |
| TreeRow.RowUnsigned | code/create-db/3_create_tweet_stats_i.py:180-222 | with non-negative counters and dispersions every value fits its `UNSIGNED` column |
| TreeRow.ChildlessRow | code/create-db/3_create_tweet_stats_i.py:305-352 | for a tweet without replies, retweets or quotes, the row `as_tuple` would produce equals the row the SQL short-cut for singleton ur-conversations inserts |
| TreeRow.SeedCounts | code/create-db/3_create_tweet_stats_i.py:308-325 | the integer columns of a node without edges match the short-cut's zeros, single author and own counters |
| TreeRow.SeedRatios | code/create-db/3_create_tweet_stats_i.py:326-347 | the float columns of a node without edges match the short-cut's means and zero dispersions |
| TreeCases.RootFirst | code/create-db/3_create_tweet_stats_i.py:129-137 | aggregating a root before its leaf reply gives `sum_depth` 1 |
| TreeCases.ReplyFirst | code/create-db/3_create_tweet_stats_i.py:99-111 | aggregating the reply first, as line 360 orders it, gives the root `sum_depth` 0 |
| TreeCases.OrderKeepsExact | code/create-db/3_create_tweet_stats_i.py:64-139 | both orders store the same counts, totals, authors and maximal depths for the root |
| TreeCases.MeanDepthRootFirst | code/create-db/3_create_tweet_stats_i.py:202 | root first, the root's `mean_depth` is 1.0 |
| TreeCases.MeanDepthReplyFirst | code/create-db/3_create_tweet_stats_i.py:202 | reply first, the root's `mean_depth` is 0.0 |
| Conversations.Walk | code/create-db/3_create_tweet_stats_i.py:66-139 | the explicit-stack walk ends and returns the aggregate its specification gives, in any pop and set-iteration order |
| Conversations.SumSet | code/create-db/3_create_tweet_stats_i.py:143-147 | the `reduce` loop over a set returns the sum of the function over the set |
| Conversations.Deviations | code/create-db/3_create_tweet_stats_i.py:150-178 | the dispersion loop returns the node's own deviation plus those of its children (reply variant), and of its children and ur-children (`ur_` variant) |
| Conversations.DepthSpread | code/create-db/3_create_tweet_stats_i.py:142-145 | returns the depth dispersions of the specification |
| Conversations.AuthorSpread | code/create-db/3_create_tweet_stats_i.py:146-147 | returns the author dispersions of the specification |
| Conversations.Spread | code/create-db/3_create_tweet_stats_i.py:141-178 | returns everything `count_mads` assigns, as the specification gives it |
| Conversations.ChildrenFirst | code/create-db/3_create_tweet_stats_i.py:241-243 | records newest first, each referring to an older tweet: when the loop reaches a record, every child and ur-child of its node belongs to an earlier record |
| Conversations.DoneKept | code/create-db/3_create_tweet_stats_i.py:243-248 | aggregating a fresh node keeps the dispersions of every finished node correct |
| Conversations.DoneStep | code/create-db/3_create_tweet_stats_i.py:242-248 | one turn of the descending loop adds its node to the finished nodes and keeps all earlier ones finished |
| Conversations.ProgressDone | code/create-db/3_create_tweet_stats_i.py:241-248 | after the loop, the node of every record is aggregated and sane, and its dispersions were read from aggregated children |
| Conversations.NeverOvergrown | code/create-db/3_create_tweet_stats_i.py:244-245 | the check of line 244 flags no record of the group |
| Conversations.OvergrownStep | code/create-db/3_create_tweet_stats_i.py:244-245 | the count of nodes the check of line 244 flags grows by one exactly for a node with more reply descendants than the group has records |
| Conversations.Conversation.Lookup | code/create-db/3_create_tweet_stats_i.py:226 | get-or-create on the cache: the same id always yields the same slot, and a new id adds one blank node |
| Conversations.Conversation.AddRecord | code/create-db/3_create_tweet_stats_i.py:228-240 | one builder turn: the arena then describes one more record, and earlier cache entries are kept |
| Conversations.Conversation.AddRecords | code/create-db/3_create_tweet_stats_i.py:227-240 | the builder loop leaves an arena that describes all records, with exactly the mentioned ids cached and nothing aggregated |
| Conversations.Conversation.CountStatistics | code/create-db/3_create_tweet_stats_i.py:64-139 | idempotent: an aggregated node is left as it is (line 65); otherwise the walk's result is stored, and stored values stay sane and exact |
| Conversations.Conversation.CountMads | code/create-db/3_create_tweet_stats_i.py:141-178 | stores the dispersions of the specification for the node and changes nothing else |
| Conversations.Conversation.Visit | code/create-db/3_create_tweet_stats_i.py:242-248 | one turn of the descending loop keeps the loop invariant; the check of line 244 would fire exactly when the node's reply descendants exceed the record count, and neither it nor the check of line 246 fires |
| Conversations.Conversation.Descend | code/create-db/3_create_tweet_stats_i.py:241-248 | the descending loop aggregates every record's node exactly and raises no alarm at line 244 or line 246 |
| Conversations.Conversation.Rows | code/create-db/3_create_tweet_stats_i.py:249-250 | one `as_tuple` row per record, in record order |
| Conversations.Conversation.Enrich | code/create-db/3_create_tweet_stats_i.py:225-254 | `enrich_conversation` on newest-first records: the arena describes the records, every stored value is exact, every node is finished, there is one row per record, and neither check of lines 244-247 fires |
| InitialLoad.Slice | code/create-db/1_initial_load.py:134 | Python slicing clamps both bounds to the string |
| InitialLoad.ExpandUrls | code/create-db/1_initial_load.py:101-111 | one listed URL per entity, in order, unwound before expanded before short; the URL map of the entities |
| InitialLoad.RewriteUrls | code/create-db/1_initial_load.py:112-113 | the text with every short URL of the map replaced in turn |
| InitialLoad.RecordMentionIds | code/create-db/1_initial_load.py:116-120 | the mentioned ids in entity order, each username recorded in the caller's map |
| InitialLoad.ClassifyReferences | code/create-db/1_initial_load.py:121-129 | the four reference fields, or failure where line 127 raises |
| InitialLoad.MapTweet | code/create-db/1_initial_load.py:89-151 | the row of a tweet object as written, timestamp slice of line 134 included (none where the code raises), and the caller's mention map after it |
| InitialLoad.UserUrls | code/create-db/1_initial_load.py:250-257 | as written: the URL map over every field's entities, or failure where line 255 raises on an unwound URL |
| InitialLoad.MapUser | code/create-db/1_initial_load.py:246-278 | as written: the row of a user object, timestamp slice of line 267 included, or failure where line 255 raises |
| InitialLoad.AssignLookup | code/create-db/1_initial_load.py:105 | assigning in a dict sets that key, keeps every other key, and never duplicates a key |
| InitialLoad.UrlMapLookup | code/create-db/1_initial_load.py:103-109 | a short URL is in the map exactly when one of its entities has an expansion, and it maps to the last such expansion |
| InitialLoad.ReplaceAbsent | code/create-db/1_initial_load.py:113 | a text without the short URL is left unchanged |
| InitialLoad.ReplaceFirst | code/create-db/1_initial_load.py:113 | the first occurrence of a short URL is replaced by its expansion, and the rest is rewritten likewise |
| InitialLoad.ReplaceAllAbsent | code/create-db/1_initial_load.py:112-113 | a text containing no short URL of the map comes out unchanged |
| InitialLoad.LastOfMeans | code/create-db/1_initial_load.py:122-129 | the reference kept for a kind is the last of that kind, and there is none exactly when no reference has that kind |
| InitialLoad.ReferencesClassified | code/create-db/1_initial_load.py:121-129 | `retweet_of`, `in_reply_to` and `quotes` hold the last reference of their kind and stay None without one; `in_reply_to_user_id` is set exactly with `in_reply_to` |
| InitialLoad.ReplyNeedsUserId | code/create-db/1_initial_load.py:127 | for a tweet without `in_reply_to_user_id`, mapping fails exactly when it has a reply reference |
| InitialLoad.MentionsRecorded | code/create-db/1_initial_load.py:119 | every mentioned username maps to the id of its last mention, and no other entry changes |
| InitialLoad.UrConversationUnset | code/create-db/1_initial_load.py:130 | mapped and error rows both leave `ur_conversation_id` NULL |
| InitialLoad.ErrorRow | code/create-db/1_initial_load.py:153-155 | an error row holds the id, title, detail and `original`, and NULL in every other column |
| InitialLoad.RowFitsTable | code/create-db/1_initial_load.py:162-183 | a row has 21 values, each of a kind its column of `tweets_i` stores |
| InitialLoad.PlaceholdersPerColumn | code/create-db/1_initial_load.py:218 | the INSERT has one placeholder per column |
| InitialLoad.UrlsListed | code/create-db/1_initial_load.py:100-111 | one URL per entity, in order, preferring the unwound URL; the row stores their count |
| InitialLoad.StampIso | code/create-db/1_initial_load.py:134 | the corrected slice turns an API timestamp into a complete DATETIME literal with the same date and time |
| InitialLoad.StampAsWrittenDropsDigit | code/create-db/1_initial_load.py:134 | the slice as written yields 18 characters, losing the last digit of the seconds |
| InitialLoad.UnwoundUserUrlRaisesAsWritten | code/create-db/1_initial_load.py:254-255 | as written, any user entity with an unwound URL makes the mapping raise |
| InitialLoad.UserUrlMapAgrees | code/create-db/1_initial_load.py:250-257 | without unwound URLs, the map as written equals the corrected one |
| InitialLoad.UserUrlMapLookup | code/create-db/1_initial_load.py:250-257 | corrected: the user URL map is the tweet URL map over all the fields' entities, so a short URL maps to the expansion of its last entity that has one, and is absent exactly when none has |
| InitialLoad.FixedTweetAgrees | code/create-db/1_initial_load.py:130-151 | the mapper as written and the corrected one fail on the same tweets and differ only in `created_at`: the corrected one is a complete DATETIME literal, the one as written that literal minus its last character |
| InitialLoad.FixedUserAgrees | code/create-db/1_initial_load.py:246-278 | the user mapper as written fails exactly on users with an unwound URL, and otherwise gives the corrected row but for a `created_at` one character short of the corrected, complete DATETIME literal |
| InitialLoad.UserEmptyFields | code/create-db/1_initial_load.py:266-271 | in the row as written (when it exists) and the corrected row, an empty description, URL or location becomes NULL, a non-empty one is kept (after URL expansion) |
| InitialLoad.UserRowKinds | code/create-db/1_initial_load.py:262-282 | a mapped user row (as written or corrected) has the user's id and names and no error, and an error row has nothing but the id and the error |
| CrawlStatus.Split | code/fetch-conversations/fetch_conversation_tweets.py:55 | `split` always yields at least one piece |
| CrawlStatus.PyIndex | code/fetch-conversations/fetch_conversation_tweets.py:61 | indexing succeeds exactly for indices from -len to len-1 |
| CrawlStatus.PySliceFrom | code/fetch-conversations/fetch_conversation_tweets.py:69 | the slice from a non-negative start is the suffix, or empty past the end |
| CrawlStatus.FlattenChunked | code/fetch-conversations/fetch_conversation_tweets.py:52 | the batches, concatenated, are the ids in order |
| CrawlStatus.ChunkedSizes | code/fetch-conversations/fetch_conversation_tweets.py:52 | every batch has 1 to n ids, all but the last exactly n, and there are ceil(len/n) of them |
| CrawlStatus.QueriesCoverIds | code/fetch-conversations/fetch_conversation_tweets.py:52 | every id is in exactly one query, in order, at most 26 per query, with ceil(ids/26) queries |
| CrawlStatus.ParseIntString | code/fetch-conversations/fetch_conversation_tweets.py:59 | `int(str(i)) == i` |
| CrawlStatus.ParseIntStrips | code/fetch-conversations/fetch_conversation_tweets.py:59 | `int` ignores whitespace around the number: `" 3"` and `"3 \n"` both read as 3 |
| CrawlStatus.ParseIntUnderscores | code/fetch-conversations/fetch_conversation_tweets.py:59 | a single underscore between digits, an explicit `+` and leading zeros are accepted: `"1_0"` is 10, `"+07"` is 7 |
| CrawlStatus.ParseIntRejects | code/fetch-conversations/fetch_conversation_tweets.py:59 | doubled, leading or trailing underscores make `int` raise |
| CrawlStatus.ParseIntRejectsBlank | code/fetch-conversations/fetch_conversation_tweets.py:59 | a space after the sign and a blank string make `int` raise |
| CrawlStatus.ParseGrouped | code/fetch-conversations/fetch_conversation_tweets.py:59 | any run of digits with single underscores between them reads as its value, underscores skipped |
| CrawlStatus.ParseIntKeepsSeparators | code/fetch-conversations/fetch_conversation_tweets.py:59 | the ASCII separators U+001C to U+001F around the digits are not stripped, so `int` raises |
| CrawlStatus.PaddedIndexResumes | code/fetch-conversations/fetch_conversation_tweets.py:59-62 | a status line whose index is padded with a space still resumes at that query, without a token |
| CrawlStatus.SplitFour | code/fetch-conversations/fetch_conversation_tweets.py:55 | a line of four fields without `/` or a newline splits back into them |
| CrawlStatus.SliceIndex | code/fetch-conversations/fetch_conversation_tweets.py:69-82 | after the slice, `start + index` is the absolute index of the query being fetched |
| CrawlStatus.DecodeFields | code/fetch-conversations/fetch_conversation_tweets.py:58-62 | a four-field status resumes at its index; the two decodings differ only in when they keep the token |
| CrawlStatus.DecodeTokenLine | code/fetch-conversations/fetch_conversation_tweets.py:79-80 | the status after a page with a next token resumes the same query at that token |
| CrawlStatus.DecodeNextLine | code/fetch-conversations/fetch_conversation_tweets.py:81-82 | the status after a query's last page starts the next query afresh, both as written and corrected |
| CrawlStatus.DecodeDoneLine | code/fetch-conversations/fetch_conversation_tweets.py:83-84 | the corrected decoder reports the final status complete |
| CrawlStatus.DoneRestartsAsWritten | code/fetch-conversations/fetch_conversation_tweets.py:56 | as written, the final status `done.` restarts the crawl at query 0 |
| CrawlStatus.FirstPageTokenLostAsWritten | code/fetch-conversations/fetch_conversation_tweets.py:60 | as written, the status after page 0 of a query with more pages drops its token |
| CrawlStatus.LaterPageAsWritten | code/fetch-conversations/fetch_conversation_tweets.py:60 | as written, a later page's status does resume at its token |
| CrawlStatus.StatusResumes | code/fetch-conversations/fetch_conversation_tweets.py:53-84 | whatever page the crawl stops after, its status decodes to the same query at the token, the next query afresh, or completion |
| CrawlStatus.WrittenLines | code/fetch-conversations/fetch_conversation_tweets.py:74-85 | every status line written is the one for some page of some query |
| CrawlStatus.InterruptedCrawlResumes | code/fetch-conversations/fetch_conversation_tweets.py:53-85 | after any status line has been written, the status file reads back without error, as complete or as a query at or after the start |
| CrawlStatus.EmptyStatusRestarts | code/fetch-conversations/fetch_conversation_tweets.py:53-68 | an empty status file, as a crash between lines 78 and 85 leaves it, restarts at query 0 in both decoders |
| CrawlStatus.WritePages | code/fetch-conversations/fetch_conversation_tweets.py:74-85 | one status line per page, in page order |
| CrawlStatus.Crawl | code/fetch-conversations/fetch_conversation_tweets.py:69-101 | corrected (line 86 on every path): one call per remaining query until a fatal error, the resumed token with the first call only; the status lines written and the abandoned queries logged |
| CrawlStatus.TokenAsWrittenUnlessAbandoned | code/fetch-conversations/fetch_conversation_tweets.py:86-98 | unless the first remaining query is abandoned, the loop as written sends the resumed token with the first call only, as the corrected loop does |
| CrawlStatus.StaleTokenAsWritten | code/fetch-conversations/fetch_conversation_tweets.py:86-98 | as written, when the resumed query is abandoned its token goes on to the following queries for as long as they are abandoned too |
| ReplyTally.Readable | code/fetch-conversations/extract_conversation_ids.py:19-29 | the lines before the first JSON line without `data`: none of them lacks it, and the line after them does |
| ReplyTally.Extract | code/fetch-conversations/extract_conversation_ids.py:16-30 | the counters over the lines before the first one without `data`: lines read, malformed line numbers, tweets, reply sum, zero-reply count, the `Counter` and its key order; whether that line's `KeyError` ended the script |
| ReplyTally.TallyPage | code/fetch-conversations/extract_conversation_ids.py:21-28 | the counters after one more page of tweets |
| ReplyTally.WriteIds | code/fetch-conversations/extract_conversation_ids.py:34-37 | the dump: one line per key, in order |
| ReplyTally.KeyOrderKeys | code/fetch-conversations/extract_conversation_ids.py:35 | the dumped keys are distinct and exactly the keys of the `Counter` |
| ReplyTally.CountedKeys | code/fetch-conversations/extract_conversation_ids.py:25-28 | a conversation is counted exactly when one of its tweets has a non-zero reply count |
| ReplyTally.CountedValues | code/fetch-conversations/extract_conversation_ids.py:28 | the `Counter` holds the sum of the reply counts of each conversation's tweets |
| ReplyTally.RepliesConserved | code/fetch-conversations/extract_conversation_ids.py:24-28 | the reply total is the sum, over the conversations dumped, of their replies |
| ReplyTally.TweetsSplit | code/fetch-conversations/extract_conversation_ids.py:23-27 | tweets = zero-reply tweets + tweets with replies |
| ReplyTally.TotalIsCounterSum | code/fetch-conversations/extract_conversation_ids.py:24-28 | the reply total is the sum of the `Counter`'s values |
| ReplyTally.NothingToFetch | code/fetch-conversations/extract_conversation_ids.py:23-28 | no conversation is dumped exactly when every tweet has zero replies |
| ReplyTally.ReadDump | code/fetch-conversations/extract_conversation_ids.py:34-37 | reading the dump back gives one newline-terminated line per key |
| ReplyTally.DumpFeedsCrawl | code/fetch-conversations/extract_conversation_ids.py:34-37 | the crawl reads back exactly the dumped ids, in order, and its batches cover each of them once |

## Left out

- Database I/O is not modelled: connections, DDL execution, `ENABLE/DISABLE KEYS` and the table copies. The DDL strings only fix the column layouts that `TreeRow` and `InitialLoad` check rows against.
- The `INSERT IGNORE` batching with `chunked(..., 500)` and `executemany` is not modelled; `Rows` produces the sequence of rows those batches hand over. The `InterfaceError` logging is left out too.
- `RecoveringCursor` (reconnect and chunk-halving retry around a live connection) is left out as error recovery around I/O.
- The page reading of `1_initial_load.py` (`yield_pages`) and the insert loops that drive `map_tweet` and `map_user` are not modelled. The mappers take already-decoded objects as datatypes. Every key the code reads unconditionally is a field of those datatypes, so the `KeyError` raised on an object lacking one is not modelled. In `1_initial_load.py` these are a tweet's `text` (line 95) and its `conversation_id`, `id`, `author_id`, `created_at`, `public_metrics` and `lang` (lines 131-139), and a user's `url` and `description` (lines 247-248) and its `id`, `username`, `name`, `created_at`, `verified`, `protected` and `public_metrics` (lines 263-275).
- ReplyTally.Extract: a tweet inside a page is always decoded with its `public_metrics.reply_count` and `conversation_id`. The `KeyError` that lines 22 and 28 of `extract_conversation_ids.py` raise part-way through a page, after some of the page's tweets were counted, is not modelled; only a line without `data` (line 21) ends the pass.
- CrawlStatus.ParseInt: Python's `int` also accepts decimal digits of other scripts (Unicode category Nd, such as `'٣'`); these are not modelled and read as `None`, i.e. as an unreadable status index.
- The SQL-only steps `2_enrich_ur_conversation_ids.py`, `4_create_tweets_a.py`, `5_create_conversation_tables.py` and `6_copy_tables_to_columnstore.py` are not part of this model: their logic belongs to the database engine. The singleton short-cut query of `3_create_tweet_stats_i.py` (lines 305-352) is used only as the expected row of `TreeRow.ChildlessRow`.
- The outer query loop of line 359 is not modelled. The `ORDER BY tweet_id DESC` of line 360, over the primary key `tweet_id` of `tweets_i` (line 165 of `code/create-db/1_initial_load.py`), becomes the strictly decreasing `Descending` precondition. That each reply, retweet or quote is younger than its parent, so has a larger id, becomes the `Ordered` precondition.
- JSON decoding, the HTTP client with its retry and rate-limit decorators, progress bars, `click` wiring and logging are left out. The responses are parameters (`Fetch`: the next tokens of the pages and how the query ends), and the logged lines become returned sequences or counts.
- The output file of the crawl (`json.dump` of each page) is not modelled; the status file is modelled as the sequence of lines written to it, each write truncating the file before it.
- CrawlStatus.InterruptedCrawlResumes: the `truncate(0)`, write and flush of lines 78-85 are treated as one atomic step. A crash between the truncation and the flush leaves an empty status file, which lines 63-65 read as a fresh start at query 0 (`EmptyStatusRestarts`), re-fetching every query before `start`; the lemma covers only the states after a status line was written.
- Python floats are modelled as `real`, without rounding; `FLOAT UNSIGNED` storage precision is left out.
- `sum_depth`, `ur_sum_depth` and `ur_leaf_descendants` depend on the order in which nodes are aggregated. An aggregated leaf adds 0 through lines 99 and 110; an unaggregated leaf adds its depth through lines 133 and 137. Lines 71 and 119 also use different leaf tests. These fields are modelled exactly as written, through the walk specification `Target`. They have no closed form, and `TreeCases` exhibits the order dependence.
- `count_mads` reads the children's `max_depth` and author sets. The model keeps the sentinel semantics (`-1`, an empty set) for a child not aggregated yet, and `Descend` proves that line 360's order makes every child aggregated first.
- `lru_cache` is modelled as a map from tweet id to arena slot; eviction does not arise (`maxsize=None`).
- Integers are unbounded. Counts never approach a 64-bit limit in the model, so no wrap-around is modelled. Tweet ids are bounded by 2^64 as `BIGINT UNSIGNED` columns.

## Findings

| source | as written | input that shows it | evidently intended | confidence | as-written member | corrected member |
|---|---|---|---|---|---|---|
| code/fetch-conversations/fetch_conversation_tweets.py:56 | the completion test compares the first field with `done.\n`, but line 84 writes `done.` with no newline | a status file holding `done.` after a completed crawl | a completed crawl is reported complete | high, not executed | CrawlStatus.DoneRestartsAsWritten | CrawlStatus.DecodeDoneLine |
| code/fetch-conversations/fetch_conversation_tweets.py:60 | the token is dropped whenever the page field is `0`, yet line 80 writes page index 0 with a real token after the first page | status `3/0/abc/q` written after page 0 of query 3 | resume at token `abc` and not fetch page 0 again | high, not executed | CrawlStatus.FirstPageTokenLostAsWritten | CrawlStatus.DecodeTokenLine |
| code/fetch-conversations/fetch_conversation_tweets.py:86 | `next_token = None` is skipped when a query is abandoned, so a resumed token is sent with the next query | resume with token `t`; the first query ends abandoned; the second query is sent with `t` | the resumed token applies only to the first query | medium, not executed | CrawlStatus.StaleTokenAsWritten | CrawlStatus.Crawl |
| code/create-db/1_initial_load.py:134 | `created_at[11:18]` keeps `HH:MM:S`, cutting off the last seconds digit | `2022-01-02T03:04:56.000Z` becomes `2022-01-02 03:04:5` | `created_at[11:19]`, the whole `HH:MM:SS` | high, not executed | InitialLoad.StampAsWrittenDropsDigit | InitialLoad.FixedTweetAgrees |
| code/create-db/1_initial_load.py:267 | the user's `created_at[11:18]` cuts off the last seconds digit in the same way | a user created at `2022-01-02T03:04:56.000Z` | `created_at[11:19]` | high, not executed | InitialLoad.StampAsWrittenDropsDigit | InitialLoad.FixedUserAgrees |
| code/create-db/1_initial_load.py:255 | `url['url']` indexes the user's `url` string with a string, which raises | a user whose entity has an `unwound_url` | `murl['url']`, as line 257 does | high, not executed | InitialLoad.UnwoundUserUrlRaisesAsWritten | InitialLoad.FixedUserAgrees |
