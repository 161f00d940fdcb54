/**
 * Shaping a Polygon news reply for display (src/news/helpers.rs): the items are
 * ordered newest first, the fifteen newest are kept, and their text, link and date
 * are cut on UTF-8 character boundaries to the capacities of the fixed-size
 * strings that hold them. Date parsing and formatting (chrono) are parameters.
 */
module NewsHelpers {
  import opened Wrappers

  // ---- UTF-8 lengths ----

  /** `char::len_utf8`. */
  function Utf8Len(c: char): (n: nat)
    ensures 1 <= n <= 4
  {
    if c as int < 0x80 then 1
    else if c as int < 0x800 then 2
    else if c as int < 0x1_0000 then 3
    else 4
  }

  /** `str::len`: the number of UTF-8 bytes of a string. */
  function ByteLen(s: string): (n: nat)
    ensures n >= |s|
  {
    if |s| == 0 then 0 else ByteLen(s[..|s| - 1]) + Utf8Len(s[|s| - 1])
  }

  /** Byte length grows with the prefix. */
  lemma {:induction false} ByteLenMonotone(s: string, i: nat, j: nat)
    requires i <= j <= |s|
    ensures ByteLen(s[..i]) <= ByteLen(s[..j])
  {
    if i < j {
      ByteLenMonotone(s, i, j - 1);
      assert s[..j][..j - 1] == s[..j - 1];
    }
  }

  /**
   * `out` is what truncating `s` to `n` bytes on a character boundary gives: a
   * prefix of `s` that fits, and either all of `s` or one character short of not fitting.
   */
  predicate IsTruncation(s: string, n: nat, out: string)
  {
    |out| <= |s| && out == s[..|out|] && ByteLen(out) <= n
    && (|out| == |s| || ByteLen(s[..|out| + 1]) > n)
  }

  /** There is only one such prefix: the truncation is the longest prefix that fits. */
  lemma TruncationUnique(s: string, n: nat, a: string, b: string)
    requires IsTruncation(s, n, a) && IsTruncation(s, n, b)
    ensures a == b
  {
    if |a| < |b| {
      ByteLenMonotone(s, |a| + 1, |b|);
    } else if |b| < |a| {
      ByteLenMonotone(s, |b| + 1, |a|);
    }
  }

  /** `to_arraystring::<N>`: `s` itself when it fits, else its characters one by one while they fit. */
  method ToArrayString(s: string, n: nat) returns (out: string)
    ensures IsTruncation(s, n, out)
    ensures ByteLen(s) <= n ==> out == s
  {
    if ByteLen(s) <= n {
      assert s[..|s|] == s;
      return s;
    }
    out := "";
    var bytes := 0;
    var i := 0;
    while i < |s|
      invariant 0 <= i <= |s|
      invariant out == s[..i] && bytes == ByteLen(out) && bytes <= n
    {
      var ch := s[i];
      assert s[..i + 1][..i] == s[..i];
      if bytes + Utf8Len(ch) > n {
        return;
      }
      out := out + [ch];
      bytes := bytes + Utf8Len(ch);
      i := i + 1;
      assert out[..|out| - 1] == s[..i - 1];
    }
  }

  // ---- the reply ----

  datatype PolygonPublisher = PolygonPublisher(
    name: Option<string>, homepageUrl: Option<string>, logoUrl: Option<string>, faviconUrl: Option<string>)

  datatype PolygonInsight = PolygonInsight(
    ticker: Option<string>, sentiment: Option<string>, sentimentReasoning: Option<string>)

  datatype PolygonNewsItem = PolygonNewsItem(
    id: string,
    title: string,
    articleUrl: string,
    ampUrl: Option<string>,
    author: Option<string>,
    description: Option<string>,
    imageUrl: Option<string>,
    publishedUtc: string,
    keywords: Option<seq<string>>,
    publisher: Option<PolygonPublisher>,
    tickers: Option<seq<string>>,
    insights: Option<seq<PolygonInsight>>)

  datatype PolygonNewsResponse = PolygonNewsResponse(
    status: Option<string>,
    requestId: Option<string>,
    count: Option<nat>,
    nextUrl: Option<string>,
    results: Option<seq<PolygonNewsItem>>)

  /** What the news box shows: three wrapping deques of capacity 15. */
  datatype NewsBoxProps = NewsBoxProps(
    model: string,
    articleText: seq<string>,
    articleLinks: seq<string>,
    dates: seq<string>)

  const DEQUE_CAPACITY: nat := 15
  const TEXT_BYTES: nat := 300
  const LINK_BYTES: nat := 30

  /** `push_back` on a `Wrapping` deque: when full, the oldest entry is dropped first. */
  function PushBackWrapping<T>(d: seq<T>, x: T): (r: seq<T>)
    requires |d| <= DEQUE_CAPACITY
    ensures |r| <= DEQUE_CAPACITY
    ensures |d| < DEQUE_CAPACITY ==> r == d + [x]
    ensures |d| == DEQUE_CAPACITY ==> r == d[1..] + [x]
  {
    if |d| == DEQUE_CAPACITY then d[1..] + [x] else d + [x]
  }

  /** `best_link`: the AMP address when there is one, else the article address. */
  function BestLink(item: PolygonNewsItem): (link: string)
    ensures item.ampUrl.Some? ==> link == item.ampUrl.value
    ensures item.ampUrl.None? ==> link == item.articleUrl
  {
    if item.ampUrl.Some? then item.ampUrl.value else item.articleUrl
  }

  /** The text shown for an item: its title, else its description, else its id. */
  function Headline(item: PolygonNewsItem): (t: string)
    ensures item.title != "" ==> t == item.title
    ensures item.title == "" && item.description.Some? ==> t == item.description.value
    ensures item.title == "" && item.description.None? ==> t == item.id
  {
    if item.title != "" then item.title
    else if item.description.Some? then item.description.value
    else item.id
  }

  // ---- newest first ----

  /**
   * `pb.cmp(&pa)` on `Option<DateTime>`: `a` may stay before `b` when its parsed date
   * is not older; a date that does not parse (`None`) is older than every date that does.
   */
  predicate NotOlder(a: Option<int>, b: Option<int>)
  {
    match (a, b)
    case (None, None) => true
    case (Some(_), None) => true
    case (None, Some(_)) => false
    case (Some(x), Some(y)) => x >= y
  }

  /** The instant an item was published at, as the date parser reads it. */
  function Published(parse: string -> Option<int>, item: PolygonNewsItem): Option<int>
  {
    parse(item.publishedUtc)
  }

  predicate NewestFirst(parse: string -> Option<int>, items: seq<PolygonNewsItem>)
  {
    forall i, j :: 0 <= i < j < |items| ==> NotOlder(Published(parse, items[i]), Published(parse, items[j]))
  }

  /** One step of a stable insertion: `x` goes after every entry that is not older than it. */
  function Insert(parse: string -> Option<int>, x: PolygonNewsItem, s: seq<PolygonNewsItem>): (r: seq<PolygonNewsItem>)
    ensures |r| == |s| + 1
    ensures forall j :: 0 <= j < |r| ==> r[j] == x || r[j] in s
  {
    if |s| == 0 then [x]
    else if NotOlder(Published(parse, s[0]), Published(parse, x)) then [s[0]] + Insert(parse, x, s[1..])
    else [x] + s
  }

  /** `items.sort_by(...)`: Rust's stable sort, written as an insertion sort. */
  function SortNewestFirst(parse: string -> Option<int>, items: seq<PolygonNewsItem>): seq<PolygonNewsItem>
  {
    if |items| == 0 then []
    else Insert(parse, items[|items| - 1], SortNewestFirst(parse, items[..|items| - 1]))
  }

  lemma {:induction false} InsertKeepsOrder(parse: string -> Option<int>, x: PolygonNewsItem, s: seq<PolygonNewsItem>)
    requires NewestFirst(parse, s)
    ensures NewestFirst(parse, Insert(parse, x, s))
  {
    if |s| > 0 {
      var k := Published(parse, x);
      if NotOlder(Published(parse, s[0]), k) {
        InsertKeepsOrder(parse, x, s[1..]);
        var rest := Insert(parse, x, s[1..]);
        forall j | 0 <= j < |rest|
          ensures NotOlder(Published(parse, s[0]), Published(parse, rest[j]))
        {
          if rest[j] != x {
            var m :| 0 <= m < |s[1..]| && s[1..][m] == rest[j];
            assert s[m + 1] == rest[j];
          }
        }
      } else {
        forall j | 0 <= j < |s|
          ensures NotOlder(k, Published(parse, s[j]))
        {
          assert NotOlder(Published(parse, s[0]), Published(parse, s[j])) || j == 0;
        }
        assert Insert(parse, x, s) == [x] + s;
      }
    }
  }

  lemma {:induction false} InsertPermutes(parse: string -> Option<int>, x: PolygonNewsItem, s: seq<PolygonNewsItem>)
    ensures multiset(Insert(parse, x, s)) == multiset(s) + multiset{x}
  {
    if |s| > 0 && NotOlder(Published(parse, s[0]), Published(parse, x)) {
      InsertPermutes(parse, x, s[1..]);
      assert s == [s[0]] + s[1..];
    }
  }

  /** The sort orders the items newest first, unparseable dates last, and loses or adds nothing. */
  lemma {:induction false} SortNewestFirstCorrect(parse: string -> Option<int>, items: seq<PolygonNewsItem>)
    ensures NewestFirst(parse, SortNewestFirst(parse, items))
    ensures multiset(SortNewestFirst(parse, items)) == multiset(items)
  {
    if |items| > 0 {
      var init := items[..|items| - 1];
      SortNewestFirstCorrect(parse, init);
      InsertKeepsOrder(parse, items[|items| - 1], SortNewestFirst(parse, init));
      InsertPermutes(parse, items[|items| - 1], SortNewestFirst(parse, init));
      assert items == init + [items[|items| - 1]];
    }
  }

  // ---- stability ----

  /** The items published at `d` (or, for `None`, those whose date does not parse), in order. */
  function WithDate(parse: string -> Option<int>, d: Option<int>, s: seq<PolygonNewsItem>): (r: seq<PolygonNewsItem>)
    ensures forall j :: 0 <= j < |r| ==> Published(parse, r[j]) == d
  {
    if |s| == 0 then []
    else (if Published(parse, s[0]) == d then [s[0]] else []) + WithDate(parse, d, s[1..])
  }

  lemma WithDateCons(parse: string -> Option<int>, d: Option<int>, y: PolygonNewsItem, t: seq<PolygonNewsItem>)
    ensures WithDate(parse, d, [y] + t) == (if Published(parse, y) == d then [y] else []) + WithDate(parse, d, t)
  {
    assert ([y] + t)[1..] == t;
  }

  lemma {:induction false} WithDateAppend(parse: string -> Option<int>, d: Option<int>, a: seq<PolygonNewsItem>, b: seq<PolygonNewsItem>)
    ensures WithDate(parse, d, a + b) == WithDate(parse, d, a) + WithDate(parse, d, b)
  {
    if |a| == 0 {
      assert a + b == b;
    } else {
      WithDateAppend(parse, d, a[1..], b);
      assert a + b == [a[0]] + (a[1..] + b);
      WithDateCons(parse, d, a[0], a[1..] + b);
    }
  }

  lemma {:induction false} WithDateNone(parse: string -> Option<int>, d: Option<int>, s: seq<PolygonNewsItem>)
    requires forall j :: 0 <= j < |s| ==> Published(parse, s[j]) != d
    ensures WithDate(parse, d, s) == []
  {
    if |s| > 0 {
      WithDateNone(parse, d, s[1..]);
    }
  }

  /** Insertion puts the new item behind every item of its own date and moves no other date's items. */
  lemma {:induction false} InsertKeepsStable(parse: string -> Option<int>, x: PolygonNewsItem, s: seq<PolygonNewsItem>, d: Option<int>)
    requires NewestFirst(parse, s)
    ensures WithDate(parse, d, Insert(parse, x, s))
      == WithDate(parse, d, s) + (if Published(parse, x) == d then [x] else [])
    decreases |s|, 1
  {
    if |s| > 0 {
      if NotOlder(Published(parse, s[0]), Published(parse, x)) {
        InsertBehindHead(parse, x, s, d);
      } else {
        InsertInFront(parse, x, s, d);
      }
    }
  }

  lemma InsertBehindHead(parse: string -> Option<int>, x: PolygonNewsItem, s: seq<PolygonNewsItem>, d: Option<int>)
    requires NewestFirst(parse, s) && |s| > 0 && NotOlder(Published(parse, s[0]), Published(parse, x))
    ensures WithDate(parse, d, Insert(parse, x, s))
      == WithDate(parse, d, s) + (if Published(parse, x) == d then [x] else [])
    decreases |s|, 0
  {
    var rest := Insert(parse, x, s[1..]);
    InsertKeepsStable(parse, x, s[1..], d);
    assert Insert(parse, x, s) == [s[0]] + rest;
    WithDateCons(parse, d, s[0], rest);
  }

  lemma InsertInFront(parse: string -> Option<int>, x: PolygonNewsItem, s: seq<PolygonNewsItem>, d: Option<int>)
    requires NewestFirst(parse, s) && |s| > 0 && !NotOlder(Published(parse, s[0]), Published(parse, x))
    ensures WithDate(parse, d, Insert(parse, x, s))
      == WithDate(parse, d, s) + (if Published(parse, x) == d then [x] else [])
  {
    WithDateCons(parse, d, x, s);
    if Published(parse, x) == d {
      forall j | 0 <= j < |s|
        ensures Published(parse, s[j]) != d
      {
        assert j == 0 || NotOlder(Published(parse, s[0]), Published(parse, s[j]));
      }
      WithDateNone(parse, d, s);
    }
  }

  /**
   * The sort is stable: for every date, the items of that date keep their relative order,
   * as Rust's `sort_by` guarantees for elements that compare equal.
   */
  lemma {:induction false} SortNewestFirstStable(parse: string -> Option<int>, items: seq<PolygonNewsItem>, d: Option<int>)
    ensures WithDate(parse, d, SortNewestFirst(parse, items)) == WithDate(parse, d, items)
  {
    if |items| > 0 {
      var init, x := items[..|items| - 1], items[|items| - 1];
      SortNewestFirstStable(parse, init, d);
      assert items == init + [x];
      SortStableStep(parse, init, x, d);
    }
  }

  lemma SortStableStep(parse: string -> Option<int>, init: seq<PolygonNewsItem>, x: PolygonNewsItem, d: Option<int>)
    requires WithDate(parse, d, SortNewestFirst(parse, init)) == WithDate(parse, d, init)
    ensures WithDate(parse, d, SortNewestFirst(parse, init + [x])) == WithDate(parse, d, init + [x])
  {
    var items := init + [x];
    assert items[..|items| - 1] == init && items[|items| - 1] == x;
    SortNewestFirstCorrect(parse, init);
    InsertKeepsStable(parse, x, SortNewestFirst(parse, init), d);
    WithDateAppend(parse, d, init, [x]);
    WithDateCons(parse, d, x, []);
    assert [x] + [] == [x];
  }

  /** In a newest-first list, every item whose date does not parse comes after all that do. */
  lemma UnparseableLast(parse: string -> Option<int>, items: seq<PolygonNewsItem>, i: nat, j: nat)
    requires NewestFirst(parse, items)
    requires i < j < |items| && Published(parse, items[i]).None?
    ensures Published(parse, items[j]).None?
  {
    assert NotOlder(Published(parse, items[i]), Published(parse, items[j]));
  }

  /** The items of a reply, none when it has no results. */
  function Results(resp: PolygonNewsResponse): seq<PolygonNewsItem>
  {
    if resp.results.Some? then resp.results.value else []
  }

  /**
   * `polygon_to_props`: the fifteen newest items (or all, when fewer), in order, each
   * as its headline cut to 300 bytes, its best link cut to 30 bytes and its formatted
   * date cut to 30 bytes.
   */
  method PolygonToProps(model: string, resp: PolygonNewsResponse, parse: string -> Option<int>,
                        ymd: string -> string) returns (props: NewsBoxProps)
    ensures props.model == model
    ensures var items := SortNewestFirst(parse, Results(resp));
      var n := if |items| < DEQUE_CAPACITY then |items| else DEQUE_CAPACITY;
      |props.articleText| == n && |props.articleLinks| == n && |props.dates| == n
      && forall j :: 0 <= j < n ==>
        IsTruncation(Headline(items[j]), TEXT_BYTES, props.articleText[j])
        && IsTruncation(BestLink(items[j]), LINK_BYTES, props.articleLinks[j])
        && IsTruncation(ymd(items[j].publishedUtc), LINK_BYTES, props.dates[j])
  {
    var items := SortNewestFirst(parse, Results(resp));
    var takeN := if DEQUE_CAPACITY < |items| then DEQUE_CAPACITY else |items|;
    var articleText: seq<string> := [];
    var articleLinks: seq<string> := [];
    var dates: seq<string> := [];
    var k := 0;
    while k < takeN
      invariant 0 <= k <= takeN
      invariant |articleText| == k && |articleLinks| == k && |dates| == k
      invariant forall j :: 0 <= j < k ==>
        IsTruncation(Headline(items[j]), TEXT_BYTES, articleText[j])
        && IsTruncation(BestLink(items[j]), LINK_BYTES, articleLinks[j])
        && IsTruncation(ymd(items[j].publishedUtc), LINK_BYTES, dates[j])
    {
      var item := items[k];
      var title := Headline(item);
      var link := BestLink(item);
      var date := ymd(item.publishedUtc);
      var t := ToArrayString(title, TEXT_BYTES);
      var l := ToArrayString(link, LINK_BYTES);
      var d := ToArrayString(date, LINK_BYTES);
      articleText := PushBackWrapping(articleText, t);
      articleLinks := PushBackWrapping(articleLinks, l);
      dates := PushBackWrapping(dates, d);
      k := k + 1;
    }
    props := NewsBoxProps(model, articleText, articleLinks, dates);
  }
}
