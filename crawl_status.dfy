/**
 * The resumable crawl of `code/fetch-conversations/fetch_conversation_tweets.py`:
 * conversation ids packed into search queries (line 52), the status line written after every
 * page (lines 78-84) and read back on a restart (lines 53-68), and the loop over the
 * remaining queries and their pages in between (lines 69-86).
 */
module CrawlStatus {
  import opened Wrappers

  /** Line 52: ids per query. */
  const BATCH: nat := 26
  const PREFIX: string := "conversation_id:"
  const OR_PREFIX: string := " OR conversation_id:"
  /** Line 84: the status written after the last page of the last query. */
  const DONE: string := "done."

  /** `sep.join(parts)`. */
  function Join(parts: seq<string>, sep: string): string {
    if parts == [] then []
    else if |parts| == 1 then parts[0]
    else parts[0] + sep + Join(parts[1..], sep)
  }

  /** `s.split(d)` for a one-character separator: the pieces between separators, at least one. */
  function Split(s: string, d: char): (parts: seq<string>)
    ensures |parts| >= 1
  {
    if s == [] then [[]]
    else
      var rest := Split(s[1..], d);
      if s[0] == d then [[]] + rest else [[s[0]] + rest[0]] + rest[1..]
  }

  /** `s.rstrip('\n')`. */
  function RStripNewlines(s: string): (r: string)
    ensures r <= s && (r == [] || r[|r| - 1] != '\n')
  {
    if s != [] && s[|s| - 1] == '\n' then RStripNewlines(s[..|s| - 1]) else s
  }

  /** `f.readline()` on a file holding `content`: everything up to and including the first newline. */
  function ReadLine(content: string): (line: string)
    ensures line <= content && (content != [] ==> line != [])
  {
    if content == [] then []
    else if content[0] == '\n' then "\n"
    else [content[0]] + ReadLine(content[1..])
  }

  /** `f.readlines()` on a file holding `content`: its lines, each with its newline but perhaps the last. */
  function ReadLines(content: string): seq<string>
    decreases |content|
  {
    if content == [] then []
    else
      var line := ReadLine(content);
      [line] + ReadLines(content[|line|..])
  }

  /** Neither a separator of the status line nor a newline. */
  predicate Clean(s: string) {
    '/' !in s && '\n' !in s
  }

  predicate IsDigit(c: char) {
    '0' <= c <= '9'
  }

  predicate AllDigits(s: string) {
    s != [] && forall k :: 0 <= k < |s| ==> IsDigit(s[k])
  }

  function Digit(d: nat): (c: char)
    requires d < 10
    ensures IsDigit(c)
  {
    ('0' as int + d) as char
  }

  /** The decimal digits of `n`. */
  function NatString(n: nat): (s: string)
    ensures AllDigits(s)
  {
    if n < 10 then [Digit(n)] else NatString(n / 10) + [Digit(n % 10)]
  }

  /** `str(i)`, as the f-strings of lines 80 and 82 format an int. */
  function IntString(i: int): string {
    if i < 0 then "-" + NatString(-i) else NatString(i)
  }

  /**
   * Whitespace `int` strips from both ends of its argument: the ASCII space and `\t` to `\r`,
   * and the characters from U+0080 on that `str.isspace` accepts. The ASCII separators
   * U+001C to U+001F, though `str.isspace` accepts them, are kept, so `int` raises on them.
   */
  predicate IsSpace(c: char) {
    || c == ' ' || '\t' <= c <= '\r' || c == '\U{0085}' || c == '\U{00A0}'
    || c == '\U{1680}' || '\U{2000}' <= c <= '\U{200A}' || c == '\U{2028}' || c == '\U{2029}'
    || c == '\U{202F}' || c == '\U{205F}' || c == '\U{3000}'
  }

  /** `s` without the leading and trailing whitespace `int` ignores. */
  function Strip(s: string): (r: string)
    ensures |r| <= |s|
    ensures r != [] ==> !IsSpace(r[0]) && !IsSpace(r[|r| - 1])
    ensures (s == [] || (!IsSpace(s[0]) && !IsSpace(s[|s| - 1]))) ==> r == s
  {
    if s == [] then []
    else if IsSpace(s[0]) then Strip(s[1..])
    else if IsSpace(s[|s| - 1]) then Strip(s[..|s| - 1])
    else s
  }

  /** Decimal digits, with single underscores allowed between two digits: digit (`_`? digit)*. */
  predicate Grouped(s: string) {
    && s != [] && IsDigit(s[|s| - 1])
    && var p := s[..|s| - 1];
       p == [] || Grouped(p) || (|p| >= 2 && p[|p| - 1] == '_' && Grouped(p[..|p| - 1]))
  }

  /** Grouped digits begin and end with a digit. */
  lemma {:induction false} GroupedEnds(s: string)
    requires Grouped(s)
    ensures IsDigit(s[0]) && IsDigit(s[|s| - 1])
  {
    var p := s[..|s| - 1];
    if p != [] {
      if Grouped(p) {
        GroupedEnds(p);
      } else {
        GroupedEnds(p[..|p| - 1]);
      }
    }
  }

  /** The value of the digits of `s`, underscores skipped. */
  function GroupedValue(s: string): nat {
    if s == [] then 0
    else
      var c := s[|s| - 1];
      if IsDigit(c) then GroupedValue(s[..|s| - 1]) * 10 + (c as int - '0' as int)
      else GroupedValue(s[..|s| - 1])
  }

  /**
   * `int(s)` (line 59) on a `str`: surrounding whitespace is stripped, and what is left must be
   * an optional sign followed by ASCII decimal digits, with single underscores between digits.
   * Any other string is `None` here: `int` raises on it, except on digits of other scripts,
   * which `int` accepts and this model does not.
   */
  function ParseInt(s: string): Option<int> {
    ParseStripped(Strip(s))
  }

  /** `int` on a string already stripped: an optional sign, then grouped digits. */
  function ParseStripped(t: string): Option<int> {
    if t != [] && (t[0] == '-' || t[0] == '+') then
      if Grouped(t[1..]) then
        var magnitude: int := GroupedValue(t[1..]);
        Some(if t[0] == '-' then -magnitude else magnitude)
      else None
    else if Grouped(t) then Some(GroupedValue(t))
    else None
  }

  /** `xs[i]` in Python: a negative index counts from the end, anything else out of range raises. */
  function PyIndex<T>(xs: seq<T>, i: int): (r: Option<T>)
    ensures r.Some? <==> -|xs| <= i < |xs|
  {
    if 0 <= i < |xs| then Some(xs[i])
    else if -|xs| <= i < 0 then Some(xs[|xs| + i])
    else None
  }

  /** `xs[i:]` in Python. */
  function PySliceFrom<T>(xs: seq<T>, i: int): (r: seq<T>)
    ensures |r| <= |xs|
    ensures 0 <= i ==> r == if i <= |xs| then xs[i..] else []
  {
    if i >= |xs| then []
    else if i >= 0 then xs[i..]
    else if |xs| + i >= 0 then xs[|xs| + i..]
    else xs
  }

  /** `chunked(xs, n)`: consecutive pieces of `n` elements, the last one possibly shorter. */
  function Chunked<T>(xs: seq<T>, n: nat): (cs: seq<seq<T>>)
    requires n > 0
    decreases |xs|
  {
    if xs == [] then []
    else if |xs| <= n then [xs]
    else [xs[..n]] + Chunked(xs[n..], n)
  }

  function Flatten<T>(cs: seq<seq<T>>): seq<T> {
    if cs == [] then [] else cs[0] + Flatten(cs[1..])
  }

  /** The input lines without their trailing newlines: the conversation ids. */
  function Ids(lines: seq<string>): (ids: seq<string>)
    ensures |ids| == |lines|
  {
    seq(|lines|, k requires 0 <= k < |lines| => RStripNewlines(lines[k]))
  }

  /** The search query for one batch of conversation ids. */
  function Query(batch: seq<string>): string {
    PREFIX + Join(batch, OR_PREFIX)
  }

  /** Line 52: the ids of the input file `content` in batches of 26, each turned into one query. */
  function Queries(content: string): seq<string> {
    var bs := Chunked(Ids(ReadLines(content)), BATCH);
    seq(|bs|, k requires 0 <= k < |bs| => Query(bs[k]))
  }

  /** Where a crawl begins: the absolute index of its first query and the page token to resume that query with. */
  datatype Resume = Resume(start: int, token: Option<string>)

  /** What lines 53-68 make of the status file. */
  datatype Decoded =
    | Complete            // line 57: the crawl exits
    | Restart(at: Resume) // the crawl goes on from `at`
    | NotANumber          // line 59: `int` raises
    | NoSuchQuery         // line 61: `queries[start]` raises
    | Mismatch            // line 61: the assertion fails

  /** Lines 59-62, once the line has four fields and the token has been chosen. */
  function Resumed(parts: seq<string>, token: Option<string>, queries: seq<string>): Decoded
    requires |parts| == 4
  {
    match ParseInt(parts[0])
    case None => NotANumber
    case Some(start) =>
      match PyIndex(queries, start)
      case None => NoSuchQuery
      case Some(q) => if q == RStripNewlines(parts[3]) then Restart(Resume(start, token)) else Mismatch
  }

  /**
   * Lines 53-68 as written: `status` is the content of the status file, if it exists. The
   * crawl is complete only for a first line `done.\n`, and the token is dropped whenever the
   * page field is `0`.
   */
  function DecodeAsWritten(status: Option<string>, queries: seq<string>): Decoded {
    match status
    case None => Restart(Resume(0, None))
    case Some(content) =>
      var parts := Split(ReadLine(content), '/');
      if |parts| == 1 && parts[0] == DONE + "\n" then Complete
      else if |parts| == 4 then Resumed(parts, if parts[1] != "0" then Some(parts[2]) else None, queries)
      else Restart(Resume(0, None))
  }

  /**
   * Lines 53-68 as the status lines of lines 79-84 call for: `done.` as written by line 84
   * means the crawl is complete, and the token field is used whenever it is not empty.
   */
  function Decode(status: Option<string>, queries: seq<string>): Decoded {
    match status
    case None => Restart(Resume(0, None))
    case Some(content) =>
      var parts := Split(ReadLine(content), '/');
      if |parts| == 1 && RStripNewlines(parts[0]) == DONE then Complete
      else if |parts| == 4 then Resumed(parts, if parts[2] != "" then Some(parts[2]) else None, queries)
      else Restart(Resume(0, None))
  }

  /**
   * Lines 79-84: the status written after page `page` of the `index`-th of the remaining
   * `queries`, whose `meta` carried the token `next` (or none).
   */
  function StatusLine(start: int, queries: seq<string>, index: nat, page: nat, next: Option<string>): string
    requires index < |queries|
  {
    if next.Some? then IntString(start + index) + "/" + IntString(page) + "/" + next.value + "/" + queries[index]
    else if index + 1 < |queries| then IntString(start + index + 1) + "/0//" + queries[index + 1]
    else DONE
  }

  /** The status lines written while fetching the pages of the `index`-th remaining query. */
  function PageWrites(start: int, queries: seq<string>, index: nat, metas: seq<Option<string>>): (ws: seq<string>)
    requires index < |queries|
    ensures |ws| == |metas|
  {
    seq(|metas|, p requires 0 <= p < |metas| => StatusLine(start, queries, index, p, metas[p]))
  }

  /** How the fetching of one query ends. */
  datatype Ending =
    | Exhausted // the pages ran out (line 86)
    | Abandoned // a request or connection error outlived the retries: logged, and the crawl moves on (lines 87-98)
    | Fatal     // a 403 or any other error: the crawl stops (lines 88-90 and 99-101)

  /** What the search API does for one query: the `next_token` of each page it returns, then how it ends. */
  datatype Fetch = Fetch(metas: seq<Option<string>>, ending: Ending)

  /** The status lines written while fetching the first `n` remaining queries. */
  function AllWrites(start: int, queries: seq<string>, fetches: seq<Fetch>, n: nat): seq<string>
    requires n <= |queries| && n <= |fetches|
  {
    if n == 0 then []
    else AllWrites(start, queries, fetches, n - 1) + PageWrites(start, queries, n - 1, fetches[n - 1].metas)
  }

  /** The error log lines (absolute index and query) written while fetching the first `n` remaining queries. */
  function Logged(start: int, queries: seq<string>, fetches: seq<Fetch>, n: nat): seq<(int, string)>
    requires n <= |queries| && n <= |fetches|
  {
    if n == 0 then []
    else
      Logged(start, queries, fetches, n - 1)
      + (if fetches[n - 1].ending == Abandoned then [(start + n - 1, queries[n - 1])] else [])
  }

  /**
   * The token the `i`-th remaining query is fetched with, as written: line 86, which forgets the
   * token, is skipped when the query is abandoned, so the token passes on to the next query.
   */
  function CallTokenAsWritten(token: Option<string>, fetches: seq<Fetch>, i: nat): Option<string>
    requires i < |fetches|
  {
    if i == 0 then token
    else if fetches[i - 1].ending == Abandoned then CallTokenAsWritten(token, fetches, i - 1)
    else None
  }

  /** Lines 74-85: one status line after each page of the `index`-th remaining query, the file truncated in between. */
  method WritePages(start: int, queries: seq<string>, index: nat, metas: seq<Option<string>>, before: seq<string>)
    returns (writes: seq<string>)
    requires index < |queries|
    ensures writes == before + PageWrites(start, queries, index, metas)
  {
    writes := before;
    for p := 0 to |metas|
      invariant writes == before + PageWrites(start, queries, index, metas[..p])
    {
      assert PageWrites(start, queries, index, metas[..p + 1])
          == PageWrites(start, queries, index, metas[..p]) + [StatusLine(start, queries, index, p, metas[p])];
      writes := writes + [StatusLine(start, queries, index, p, metas[p])];
    }
    assert metas[..|metas|] == metas;
  }

  /**
   * Lines 69-101, corrected so that line 86 forgets the token on every path: the queries from
   * `start` on, each fetched page by page as `fetches` says. Returns the calls made to `search_all` (query and token), the status lines written, the
   * error log lines and whether the crawl stopped on a fatal error. The resumed token goes with
   * the first query only, whichever way that query ends.
   */
  method Crawl(all: seq<string>, start: int, token: Option<string>, fetches: seq<Fetch>)
    returns (calls: seq<(string, Option<string>)>, writes: seq<string>, errors: seq<(int, string)>, fatal: bool)
    requires |fetches| == |PySliceFrom(all, start)|
    ensures |calls| <= |fetches|
    ensures forall i :: 0 <= i < |calls| ==> calls[i] == (PySliceFrom(all, start)[i], if i == 0 then token else None)
    ensures forall i :: 0 <= i < |calls| - 1 ==> fetches[i].ending != Fatal
    ensures fatal <==> |calls| > 0 && fetches[|calls| - 1].ending == Fatal
    ensures !fatal ==> |calls| == |fetches|
    ensures writes == AllWrites(start, PySliceFrom(all, start), fetches, |calls|)
    ensures errors == Logged(start, PySliceFrom(all, start), fetches, |calls|)
  {
    var queries := PySliceFrom(all, start);
    var next := token;
    calls, writes, errors, fatal := [], [], [], false;
    var index := 0;
    while index < |queries| && !fatal
      decreases |queries| - index
      invariant index <= |queries| && |calls| == index
      invariant forall i :: 0 <= i < index ==> calls[i] == (queries[i], if i == 0 then token else None)
      invariant forall i :: 0 <= i < index - 1 ==> fetches[i].ending != Fatal
      invariant fatal <==> index > 0 && fetches[index - 1].ending == Fatal
      invariant next == if index == 0 then token else None
      invariant writes == AllWrites(start, queries, fetches, index)
      invariant errors == Logged(start, queries, fetches, index)
    {
      calls := calls + [(queries[index], next)];
      writes := WritePages(start, queries, index, fetches[index].metas, writes);
      match fetches[index].ending {
        case Exhausted =>
        case Abandoned =>
          errors := errors + [(start + index, queries[index])];
        case Fatal =>
          fatal := true;
      }
      next := None;
      index := index + 1;
    }
  }

  // Properties of the batching.

  lemma {:induction false} FlattenChunked<T>(xs: seq<T>, n: nat)
    requires n > 0
    ensures Flatten(Chunked(xs, n)) == xs
    decreases |xs|
  {
    if xs != [] && |xs| > n {
      FlattenChunked(xs[n..], n);
      assert xs == xs[..n] + xs[n..];
    } else if xs != [] {
      assert Flatten([xs]) == xs + [];
    }
  }

  /** Every batch holds between 1 and `n` ids, all but the last exactly `n`, and there are ceil(|xs| / n) of them. */
  lemma {:induction false} ChunkedSizes<T>(xs: seq<T>, n: nat)
    requires n > 0
    ensures (|Chunked(xs, n)| - 1) * n < |xs| <= |Chunked(xs, n)| * n
    ensures forall k :: 0 <= k < |Chunked(xs, n)| ==> 0 < |Chunked(xs, n)[k]| <= n
    ensures forall k :: 0 <= k < |Chunked(xs, n)| - 1 ==> |Chunked(xs, n)[k]| == n
    decreases |xs|
  {
    if xs != [] && |xs| > n {
      var rest := Chunked(xs[n..], n);
      ChunkedSizes(xs[n..], n);
      assert Chunked(xs, n) == [xs[..n]] + rest;
      OneMoreBatch(|rest|, n, |xs|);
    }
  }

  /** The count bound of `ChunkedSizes` survives one more full batch of `n`. */
  lemma OneMoreBatch(c: int, n: int, len: int)
    requires (c - 1) * n < len - n <= c * n
    ensures c * n < len <= (c + 1) * n
  {
    assert (c + 1) * n == c * n + n && c * n == (c - 1) * n + n;
  }

  /**
   * Line 52: the queries are made from the ids in order, every id in exactly one batch, at
   * most 26 ids per batch, and there are ceil(|ids| / 26) queries.
   */
  lemma QueriesCoverIds(content: string)
    ensures var ids := Ids(ReadLines(content)); var bs := Chunked(ids, BATCH);
      && Flatten(bs) == ids
      && (|Queries(content)| - 1) * BATCH < |ids| <= |Queries(content)| * BATCH
      && (forall k :: 0 <= k < |bs| ==> 0 < |bs[k]| <= BATCH && Queries(content)[k] == Query(bs[k]))
  {
    FlattenChunked(Ids(ReadLines(content)), BATCH);
    ChunkedSizes(Ids(ReadLines(content)), BATCH);
  }

  // Properties of the status line.

  lemma {:induction false} NatStringValue(n: nat)
    ensures GroupedValue(NatString(n)) == n && Grouped(NatString(n))
  {
    if n >= 10 {
      NatStringValue(n / 10);
      var s := NatString(n / 10) + [Digit(n % 10)];
      assert s[..|s| - 1] == NatString(n / 10);
    }
  }

  /** `int(str(i)) == i`. */
  lemma {:induction false} ParseIntString(i: int)
    ensures ParseInt(IntString(i)) == Some(i)
  {
    if i < 0 { ParseIntNegative(i); } else { ParseIntNat(i); }
  }

  lemma {:induction false} ParseIntNat(n: nat)
    ensures ParseInt(NatString(n)) == Some(n)
  {
    NatStringValue(n);
    ParseGrouped(NatString(n));
  }

  lemma {:induction false} ParseIntNegative(i: int)
    requires i < 0
    ensures ParseInt("-" + NatString(-i)) == Some(i)
  {
    NatStringValue(-i);
    ParseNegativeGrouped(NatString(-i));
  }

  /** Grouped digits read as their value. */
  lemma {:induction false} ParseGrouped(t: string)
    requires Grouped(t)
    ensures ParseInt(t) == Some(GroupedValue(t))
  {
    GroupedEnds(t);
    assert !IsSpace(t[0]) && !IsSpace(t[|t| - 1]);
  }

  /** Grouped digits after a minus sign read as the negated value. */
  lemma {:induction false} ParseNegativeGrouped(t: string)
    requires Grouped(t)
    ensures var v: int := GroupedValue(t); ParseInt("-" + t) == Some(-v)
  {
    var s := "-" + t;
    GroupedEnds(t);
    assert s[1..] == t && s[|s| - 1] == t[|t| - 1];
    assert !IsSpace(s[0]) && !IsSpace(s[|s| - 1]);
  }

  /** `int` strips surrounding whitespace. */
  lemma ParseIntStrips()
    ensures ParseInt(" 3") == Some(3) && ParseInt("3 \n") == Some(3)
  {
    assert Strip(" 3") == "3" by { assert " 3"[1..] == "3"; }
    assert Strip("3 \n") == "3" by { assert "3 \n"[..2] == "3 " && "3 "[..1] == "3"; }
    assert GroupedValue("3") == 3 by { assert "3"[..0] == []; }
  }

  /** `int` takes single underscores between digits, a sign and leading zeros. */
  lemma ParseIntUnderscores()
    ensures ParseInt("1_0") == Some(10) && ParseInt("+07") == Some(7)
  {
    assert Strip("1_0") == "1_0";
    assert "1_0"[..2] == "1_" && "1_"[..1] == "1" && "1"[..0] == [];
    assert Strip("+07") == "+07";
    assert "+07"[1..] == "07" && "07"[..1] == "0" && "0"[..0] == [];
  }

  /** A doubled, leading or trailing underscore makes `int` raise. */
  lemma ParseIntRejects()
    ensures ParseInt("1__0") == None && ParseInt("_1") == None && ParseInt("1_") == None
  {
    assert Strip("1__0") == "1__0" && !Grouped("1__0") by { assert "1__0"[..3] == "1__" && "1__"[..2] == "1_"; }
    assert Strip("_1") == "_1" && Strip("1_") == "1_";
    assert "_1"[..1] == "_";
  }

  /** A space after the sign, or no digits at all, make `int` raise. */
  lemma ParseIntRejectsBlank()
    ensures ParseInt("- 3") == None && ParseInt(" ") == None
  {
    assert Strip("- 3") == "- 3" && "- 3"[1..] == " 3" && " 3"[..1] == " ";
    assert Strip(" ") == [] by { assert " "[1..] == []; }
  }

  /** An ASCII separator around the digits is not whitespace to `int`, which raises. */
  lemma ParseIntKeepsSeparators()
    ensures ParseInt("\U{001C}0") == None && ParseInt("0\U{001F}") == None
  {
    assert Strip("\U{001C}0") == "\U{001C}0" && Strip("0\U{001F}") == "0\U{001F}";
    assert "\U{001C}0"[..1] == "\U{001C}";
  }

  /** A status whose query index has surrounding whitespace resumes like one without. */
  lemma {:induction false} PaddedIndexResumes(q: string)
    requires '\n' !in q
    ensures Resumed([" 0", "0", "", q], None, [q]) == Restart(Resume(0, None))
  {
    assert Strip(" 0") == "0" by { assert " 0"[1..] == "0"; }
    RStripClean(q);
  }

  lemma IntStringClean(i: int)
    ensures Clean(IntString(i))
    ensures i != 0 ==> IntString(i) != "0"
  {
    var s := IntString(i);
    if i < 0 {
      assert forall k :: 1 <= k < |s| ==> IsDigit(s[k]);
    }
    if i != 0 {
      ParseIntString(i);
      ParseIntString(0);
    }
  }

  lemma {:induction false} SplitNone(a: string, d: char)
    requires d !in a
    ensures Split(a, d) == [a]
  {
    if a != [] {
      SplitNone(a[1..], d);
      assert [a[0]] + a[1..] == a;
    }
  }

  lemma {:induction false} SplitCons(a: string, d: char, rest: string)
    requires d !in a
    ensures Split(a + [d] + rest, d) == [a] + Split(rest, d)
  {
    if a == [] {
      assert a + [d] + rest == [d] + rest;
      assert ([d] + rest)[1..] == rest;
    } else {
      assert (a + [d] + rest)[1..] == a[1..] + [d] + rest;
      SplitCons(a[1..], d, rest);
      assert [a[0]] + a[1..] == a;
    }
  }

  /** A line of four clean fields splits back into them. */
  lemma SplitFour(a: string, b: string, c: string, q: string)
    requires Clean(a) && Clean(b) && Clean(c) && Clean(q)
    ensures Split(a + "/" + b + "/" + c + "/" + q, '/') == [a, b, c, q]
  {
    assert a + "/" + b + "/" + c + "/" + q == a + ['/'] + (b + ['/'] + (c + ['/'] + q));
    SplitCons(a, '/', b + ['/'] + (c + ['/'] + q));
    SplitCons(b, '/', c + ['/'] + q);
    SplitCons(c, '/', q);
    SplitNone(q, '/');
  }

  lemma {:induction false} ReadLineWhole(s: string)
    requires '\n' !in s
    ensures ReadLine(s) == s
  {
    if s != [] {
      ReadLineWhole(s[1..]);
      assert [s[0]] + s[1..] == s;
    }
  }

  lemma RStripClean(s: string)
    requires '\n' !in s
    ensures RStripNewlines(s) == s
  {
  }

  /** After the slice of line 69, `start + index` is the absolute index of the query being fetched. */
  lemma SliceIndex(all: seq<string>, start: int, index: nat)
    requires 0 <= start && index < |PySliceFrom(all, start)|
    ensures start + index < |all| && PySliceFrom(all, start)[index] == all[start + index]
  {
  }

  /** How a four-field status line decodes, the two decodings differing only in the token. */
  lemma DecodeFields(all: seq<string>, a: int, b: string, c: string, q: string)
    requires Clean(b) && Clean(c) && Clean(q) && 0 <= a < |all| && all[a] == q
    ensures Decode(Some(IntString(a) + "/" + b + "/" + c + "/" + q), all)
         == Restart(Resume(a, if c != "" then Some(c) else None))
    ensures DecodeAsWritten(Some(IntString(a) + "/" + b + "/" + c + "/" + q), all)
         == Restart(Resume(a, if b != "0" then Some(c) else None))
  {
    var line := IntString(a) + "/" + b + "/" + c + "/" + q;
    IntStringClean(a);
    assert '\n' !in line;
    ReadLineWhole(line);
    SplitFour(IntString(a), b, c, q);
    ParseIntString(a);
    RStripClean(q);
  }

  /**
   * Decoding the status written after a page that has a next token resumes the same query
   * at that token.
   */
  lemma DecodeTokenLine(all: seq<string>, start: int, index: nat, page: nat, token: string)
    requires 0 <= start && index < |PySliceFrom(all, start)|
    requires Clean(token) && token != "" && Clean(PySliceFrom(all, start)[index])
    ensures Decode(Some(StatusLine(start, PySliceFrom(all, start), index, page, Some(token))), all)
         == Restart(Resume(start + index, Some(token)))
  {
    IntStringClean(page);
    SliceIndex(all, start, index);
    DecodeFields(all, start + index, IntString(page), token, PySliceFrom(all, start)[index]);
  }

  /** Decoding the status written after the last page of a query that is not the last starts the next one afresh. */
  lemma DecodeNextLine(all: seq<string>, start: int, index: nat, page: nat)
    requires 0 <= start && index + 1 < |PySliceFrom(all, start)| && Clean(PySliceFrom(all, start)[index + 1])
    ensures Decode(Some(StatusLine(start, PySliceFrom(all, start), index, page, None)), all)
         == Restart(Resume(start + index + 1, None))
    ensures DecodeAsWritten(Some(StatusLine(start, PySliceFrom(all, start), index, page, None)), all)
         == Restart(Resume(start + index + 1, None))
  {
    var q := PySliceFrom(all, start)[index + 1];
    SliceIndex(all, start, index + 1);
    assert IntString(start + index + 1) + "/0//" + q == IntString(start + index + 1) + "/" + "0" + "/" + "" + "/" + q;
    DecodeFields(all, start + index + 1, "0", "", q);
  }

  /** Decoding the status written after the last page of the last query reports the crawl complete. */
  lemma DecodeDoneLine(all: seq<string>)
    ensures Decode(Some(DONE), all) == Complete
  {
    ReadLineWhole(DONE);
    SplitNone(DONE, '/');
  }

  /** As written, the status of line 84 is not recognised by line 56: the crawl starts over at query 0. */
  lemma DoneRestartsAsWritten(all: seq<string>)
    ensures DecodeAsWritten(Some(DONE), all) == Restart(Resume(0, None))
  {
    ReadLineWhole(DONE);
    SplitNone(DONE, '/');
    assert DONE != DONE + "\n";
  }

  /**
   * As written, the status after the first page of a query that has more pages drops its
   * token: the crawl restarts that query at its first page and fetches that page again.
   */
  lemma FirstPageTokenLostAsWritten(all: seq<string>, start: int, index: nat, token: string)
    requires 0 <= start && index < |PySliceFrom(all, start)|
    requires Clean(token) && Clean(PySliceFrom(all, start)[index])
    ensures DecodeAsWritten(Some(StatusLine(start, PySliceFrom(all, start), index, 0, Some(token))), all)
         == Restart(Resume(start + index, None))
  {
    SliceIndex(all, start, index);
    assert IntString(0) == "0";
    DecodeFields(all, start + index, IntString(0), token, PySliceFrom(all, start)[index]);
  }

  /** As written, a later page's status line does resume at its token. */
  lemma LaterPageAsWritten(all: seq<string>, start: int, index: nat, page: nat, token: string)
    requires 0 <= start && index < |PySliceFrom(all, start)| && page > 0
    requires Clean(token) && Clean(PySliceFrom(all, start)[index])
    ensures DecodeAsWritten(Some(StatusLine(start, PySliceFrom(all, start), index, page, Some(token))), all)
         == Restart(Resume(start + index, Some(token)))
  {
    IntStringClean(page);
    SliceIndex(all, start, index);
    DecodeFields(all, start + index, IntString(page), token, PySliceFrom(all, start)[index]);
  }

  /**
   * Whatever page the crawl stopped after, the last status it wrote decodes to the query to
   * go on with: the same query at the page's token, the next query afresh, or completion.
   */
  lemma StatusResumes(all: seq<string>, start: int, index: nat, page: nat, next: Option<string>)
    requires 0 <= start && index < |PySliceFrom(all, start)|
    requires forall k :: 0 <= k < |all| ==> Clean(all[k])
    requires next.Some? ==> Clean(next.value) && next.value != ""
    ensures var d := Decode(Some(StatusLine(start, PySliceFrom(all, start), index, page, next)), all);
      && (next.Some? ==> d == Restart(Resume(start + index, next)))
      && (next.None? && index + 1 < |PySliceFrom(all, start)| ==> d == Restart(Resume(start + index + 1, None)))
      && (next.None? && index + 1 == |PySliceFrom(all, start)| ==> d == Complete)
  {
    SliceIndex(all, start, index);
    if next.Some? {
      DecodeTokenLine(all, start, index, page, next.value);
    } else if index + 1 < |PySliceFrom(all, start)| {
      SliceIndex(all, start, index + 1);
      DecodeNextLine(all, start, index, page);
    } else {
      DecodeDoneLine(all);
    }
  }

  /** Every status line the crawl writes is the one for some page of some query. */
  lemma {:induction false} WrittenLines(start: int, queries: seq<string>, fetches: seq<Fetch>, n: nat, j: nat)
    requires n <= |queries| && n <= |fetches| && j < |AllWrites(start, queries, fetches, n)|
    ensures exists i, p :: (0 <= i < n && 0 <= p < |fetches[i].metas|
      && AllWrites(start, queries, fetches, n)[j] == StatusLine(start, queries, i, p, fetches[i].metas[p]))
  {
    var before := AllWrites(start, queries, fetches, n - 1);
    if j < |before| {
      WrittenLines(start, queries, fetches, n - 1, j);
    } else {
      var p := j - |before|;
      assert AllWrites(start, queries, fetches, n)[j] == StatusLine(start, queries, n - 1, p, fetches[n - 1].metas[p]);
    }
  }

  /**
   * Once any status line has been written (lines 78-85), the status file reads back
   * (lines 53-68) without error: it reports the crawl complete or names a query at or after
   * `start` to go on with. Query strings and tokens must not hold `/` or a newline.
   */
  lemma InterruptedCrawlResumes(all: seq<string>, start: int, fetches: seq<Fetch>, n: nat, j: nat)
    requires 0 <= start && |fetches| == |PySliceFrom(all, start)| && n <= |fetches|
    requires forall k :: 0 <= k < |all| ==> Clean(all[k])
    requires forall i, p :: 0 <= i < |fetches| && 0 <= p < |fetches[i].metas| && fetches[i].metas[p].Some? ==>
      Clean(fetches[i].metas[p].value) && fetches[i].metas[p].value != ""
    requires j < |AllWrites(start, PySliceFrom(all, start), fetches, n)|
    ensures var d := Decode(Some(AllWrites(start, PySliceFrom(all, start), fetches, n)[j]), all);
      d == Complete || (d.Restart? && start <= d.at.start < |all|)
  {
    WrittenLines(start, PySliceFrom(all, start), fetches, n, j);
    var i, p :| 0 <= i < n && 0 <= p < |fetches[i].metas|
      && AllWrites(start, PySliceFrom(all, start), fetches, n)[j]
         == StatusLine(start, PySliceFrom(all, start), i, p, fetches[i].metas[p]);
    StatusResumes(all, start, i, p, fetches[i].metas[p]);
  }

  /**
   * A crash between the `truncate(0)` of line 78 and the flush of line 85 leaves the status
   * file empty, and lines 63-65 read an empty file as a fresh start at query 0, in both
   * decoders.
   */
  lemma EmptyStatusRestarts(all: seq<string>)
    ensures Decode(Some(""), all) == Restart(Resume(0, None))
    ensures DecodeAsWritten(Some(""), all) == Restart(Resume(0, None))
  {
    assert Split("", '/') == [""];
  }

  /**
   * Unless the first query is abandoned, the loop as written sends the same tokens as the
   * corrected one: the resumed token with the first call only.
   */
  lemma {:induction false} TokenAsWrittenUnlessAbandoned(token: Option<string>, fetches: seq<Fetch>, i: nat)
    requires i < |fetches| && fetches[0].ending != Abandoned
    ensures CallTokenAsWritten(token, fetches, i) == if i == 0 then token else None
  {
    if i > 1 && fetches[i - 1].ending == Abandoned {
      TokenAsWrittenUnlessAbandoned(token, fetches, i - 1);
    }
  }

  /**
   * As written, once the resumed query is abandoned, its token goes with every following
   * query for as long as those are abandoned too.
   */
  lemma {:induction false} StaleTokenAsWritten(token: Option<string>, fetches: seq<Fetch>, i: nat)
    requires i < |fetches|
    requires forall k :: 0 <= k < i ==> fetches[k].ending == Abandoned
    ensures CallTokenAsWritten(token, fetches, i) == token
  {
    if i > 0 {
      StaleTokenAsWritten(token, fetches, i - 1);
    }
  }
}
