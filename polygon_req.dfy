/**
 * The Polygon news query (src/news/polygon_req.rs): a `NewsQuery` record, its
 * constructors and single-field setters, and the URL and request built from it.
 * Date formatting (chrono) and percent-encoding (`urlencoding::encode`) are not part
 * of this model; they are function parameters.
 */
module PolygonReq {
  import opened Wrappers
  import Strs
  import ModelRequest

  const NEWS_ENDPOINT: string := "https://api.polygon.io/v2/reference/news"

  datatype NewsQuery = NewsQuery(
    ticker: Option<string>,
    publishedUtcGte: Option<string>,
    publishedUtcLte: Option<string>,
    order: Option<string>,
    limit: Option<nat>,
    sort: Option<string>,
    apiKey: string)

  /** `NewsQuery::new_just_key`: the key, every optional field `None`. */
  function NewJustKey(apiKey: string): (q: NewsQuery)
    ensures q.apiKey == apiKey
    ensures q.ticker.None? && q.publishedUtcGte.None? && q.publishedUtcLte.None?
    ensures q.order.None? && q.limit.None? && q.sort.None?
  {
    NewsQuery(None, None, None, None, None, None, apiKey)
  }

  /**
   * `NewsQuery::new`. The key is unwrapped, so a call without one panics; the cursor
   * is accepted and dropped, and the order is never set.
   */
  function New(apiKey: Option<string>, ticker: Option<string>, publishedGte: Option<string>,
               publishedLte: Option<string>, limit: Option<nat>, sort: Option<string>,
               cursor: Option<string>): (q: NewsQuery)
    requires apiKey.Some?
    ensures q.apiKey == apiKey.value && q.order.None?
    ensures q.ticker == ticker && q.publishedUtcGte == publishedGte && q.publishedUtcLte == publishedLte
    ensures q.limit == limit && q.sort == sort
  {
    NewsQuery(ticker, publishedGte, publishedLte, None, limit, sort, apiKey.value)
  }

  /** `ticker(val)`: sets the ticker and nothing else. */
  function Ticker(q: NewsQuery, val: string): (r: NewsQuery)
    ensures r.ticker == Some(val)
    ensures r.publishedUtcGte == q.publishedUtcGte && r.publishedUtcLte == q.publishedUtcLte
    ensures r.order == q.order && r.limit == q.limit && r.sort == q.sort && r.apiKey == q.apiKey
  {
    q.(ticker := Some(val))
  }

  /** `published_gte(val)`: sets the lower date bound and nothing else. */
  function PublishedGte(q: NewsQuery, val: string): (r: NewsQuery)
    ensures r.publishedUtcGte == Some(val)
    ensures r.ticker == q.ticker && r.publishedUtcLte == q.publishedUtcLte
    ensures r.order == q.order && r.limit == q.limit && r.sort == q.sort && r.apiKey == q.apiKey
  {
    q.(publishedUtcGte := Some(val))
  }

  /** `published_lte(val)`: sets the upper date bound and nothing else. */
  function PublishedLte(q: NewsQuery, val: string): (r: NewsQuery)
    ensures r.publishedUtcLte == Some(val)
    ensures r.ticker == q.ticker && r.publishedUtcGte == q.publishedUtcGte
    ensures r.order == q.order && r.limit == q.limit && r.sort == q.sort && r.apiKey == q.apiKey
  {
    q.(publishedUtcLte := Some(val))
  }

  /**
   * `published_gte_naive_date`, `_naive_datetime` and `_datetime`: the bound is the
   * date as "%Y-%m-%d", the date-time as "%Y-%m-%dT%H:%M:%S" followed by "Z", or the
   * RFC 3339 text; `ymd`, `hms` and `rfc3339` stand for chrono's formatting.
   */
  function PublishedGteNaiveDate<D>(q: NewsQuery, date: D, ymd: D -> string): (r: NewsQuery)
    ensures r == PublishedGte(q, ymd(date))
  {
    q.(publishedUtcGte := Some(ymd(date)))
  }

  function PublishedGteNaiveDatetime<D>(q: NewsQuery, dt: D, hms: D -> string): (r: NewsQuery)
    ensures r == PublishedGte(q, hms(dt) + "Z")
  {
    q.(publishedUtcGte := Some(hms(dt) + "Z"))
  }

  function PublishedGteDatetime<D>(q: NewsQuery, dt: D, rfc3339: D -> string): (r: NewsQuery)
    ensures r == PublishedGte(q, rfc3339(dt))
  {
    q.(publishedUtcGte := Some(rfc3339(dt)))
  }

  /** The `published_lte_*` variants, the same three formats for the upper bound. */
  function PublishedLteNaiveDate<D>(q: NewsQuery, date: D, ymd: D -> string): (r: NewsQuery)
    ensures r == PublishedLte(q, ymd(date))
  {
    q.(publishedUtcLte := Some(ymd(date)))
  }

  function PublishedLteNaiveDatetime<D>(q: NewsQuery, dt: D, hms: D -> string): (r: NewsQuery)
    ensures r == PublishedLte(q, hms(dt) + "Z")
  {
    q.(publishedUtcLte := Some(hms(dt) + "Z"))
  }

  function PublishedLteDatetime<D>(q: NewsQuery, dt: D, rfc3339: D -> string): (r: NewsQuery)
    ensures r == PublishedLte(q, rfc3339(dt))
  {
    q.(publishedUtcLte := Some(rfc3339(dt)))
  }

  /** One optional parameter: present exactly when the field is set. */
  function Opt(key: string, v: Option<string>): seq<(string, string)>
  {
    if v.Some? then [(key, v.value)] else []
  }

  /**
   * The query parameters of a query, in the fixed order ticker, published_utc.gte,
   * published_utc.lte, order, limit, sort, and always the API key last.
   */
  function Params(q: NewsQuery): seq<(string, string)>
  {
    Opt("ticker", q.ticker) + Opt("published_utc.gte", q.publishedUtcGte)
    + Opt("published_utc.lte", q.publishedUtcLte) + Opt("order", q.order)
    + Opt("limit", if q.limit.Some? then Some(Strs.NatToString(q.limit.value)) else None)
    + Opt("sort", q.sort) + [("apiKey", q.apiKey)]
  }

  /** The keys of a parameter list, in order. */
  function Keys(ps: seq<(string, string)>): (ks: seq<string>)
    ensures |ks| == |ps| && forall i :: 0 <= i < |ps| ==> ks[i] == ps[i].0
  {
    if |ps| == 0 then [] else [ps[0].0] + Keys(ps[1..])
  }

  /** Keys of a concatenation. */
  lemma {:induction false} KeysAppend(a: seq<(string, string)>, b: seq<(string, string)>)
    ensures Keys(a + b) == Keys(a) + Keys(b)
  {
    if |a| > 0 {
      assert (a + b)[1..] == a[1..] + b;
      KeysAppend(a[1..], b);
    } else {
      assert a + b == b;
    }
  }

  /** Number of optional fields that are set. */
  function SetCount(q: NewsQuery): nat
  {
    (if q.ticker.Some? then 1 else 0) + (if q.publishedUtcGte.Some? then 1 else 0)
    + (if q.publishedUtcLte.Some? then 1 else 0) + (if q.order.Some? then 1 else 0)
    + (if q.limit.Some? then 1 else 0) + (if q.sort.Some? then 1 else 0)
  }

  /** The pairs written as `encode(k)=encode(v)`. */
  function EncodedPairs(ps: seq<(string, string)>, encode: string -> string): (r: seq<string>)
    ensures |r| == |ps|
    ensures forall i :: 0 <= i < |ps| ==> r[i] == encode(ps[i].0) + "=" + encode(ps[i].1)
  {
    if |ps| == 0 then [] else [encode(ps[0].0) + "=" + encode(ps[0].1)] + EncodedPairs(ps[1..], encode)
  }

  /** `build_url`: collects the parameters, then appends '?' and the encoded pairs joined by '&'. */
  method BuildUrl(q: NewsQuery, encode: string -> string) returns (url: string)
    ensures url == NEWS_ENDPOINT + "?" + Strs.Join(EncodedPairs(Params(q), encode), "&")
  {
    url := NEWS_ENDPOINT;
    var params: seq<(string, string)> := [];
    ghost var limitText := if q.limit.Some? then Some(Strs.NatToString(q.limit.value)) else None;
    if q.ticker.Some? { params := params + [("ticker", q.ticker.value)]; }
    assert params == Opt("ticker", q.ticker);
    if q.publishedUtcGte.Some? { params := params + [("published_utc.gte", q.publishedUtcGte.value)]; }
    assert params == Opt("ticker", q.ticker) + Opt("published_utc.gte", q.publishedUtcGte);
    ghost var p2 := params;
    if q.publishedUtcLte.Some? { params := params + [("published_utc.lte", q.publishedUtcLte.value)]; }
    assert params == p2 + Opt("published_utc.lte", q.publishedUtcLte);
    ghost var p3 := params;
    if q.order.Some? { params := params + [("order", q.order.value)]; }
    assert params == p3 + Opt("order", q.order);
    ghost var p4 := params;
    if q.limit.Some? { params := params + [("limit", Strs.NatToString(q.limit.value))]; }
    assert params == p4 + Opt("limit", limitText);
    ghost var p5 := params;
    if q.sort.Some? { params := params + [("sort", q.sort.value)]; }
    assert params == p5 + Opt("sort", q.sort);
    params := params + [("apiKey", q.apiKey)];
    assert params == Params(q);
    if |params| > 0 {
      url := url + "?";
      url := url + Strs.Join(EncodedPairs(params, encode), "&");
    }
  }

  /** `to_spec`: a GET of the built URL, no body, and the single header `Accept: application/json`. */
  method ToSpec(q: NewsQuery, encode: string -> string) returns (spec: ModelRequest.RequestSpec)
    ensures spec.verb == ModelRequest.Get && spec.bodyJson.None?
    ensures spec.headers == [("Accept", "application/json")]
    ensures spec.url == NEWS_ENDPOINT + "?" + Strs.Join(EncodedPairs(Params(q), encode), "&")
  {
    var url := BuildUrl(q, encode);
    spec := ModelRequest.RequestSpec(ModelRequest.Get, url, None, [("Accept", "application/json")]);
  }

  /** The key of an optional parameter is there exactly when its field is set. */
  function KeyIf<T>(key: string, v: Option<T>): seq<string>
  {
    if v.Some? then [key] else []
  }

  /** The keys of the parameter list, field by field. */
  lemma KeysOfParams(q: NewsQuery)
    ensures Keys(Params(q)) == KeyIf("ticker", q.ticker) + KeyIf("published_utc.gte", q.publishedUtcGte)
      + KeyIf("published_utc.lte", q.publishedUtcLte) + KeyIf("order", q.order) + KeyIf("limit", q.limit)
      + KeyIf("sort", q.sort) + ["apiKey"]
  {
    var o1, o2, o3 := Opt("ticker", q.ticker), Opt("published_utc.gte", q.publishedUtcGte), Opt("published_utc.lte", q.publishedUtcLte);
    var o4, o5 := Opt("order", q.order), Opt("limit", if q.limit.Some? then Some(Strs.NatToString(q.limit.value)) else None);
    var o6, o7 := Opt("sort", q.sort), [("apiKey", q.apiKey)];
    KeysAppend(o1, o2);
    KeysAppend(o1 + o2, o3);
    KeysAppend(o1 + o2 + o3, o4);
    KeysAppend(o1 + o2 + o3 + o4, o5);
    KeysAppend(o1 + o2 + o3 + o4 + o5, o6);
    KeysAppend(o1 + o2 + o3 + o4 + o5 + o6, o7);
    assert Keys(o7) == ["apiKey"];
    assert Keys(o1) == KeyIf("ticker", q.ticker);
    assert Keys(o2) == KeyIf("published_utc.gte", q.publishedUtcGte);
    assert Keys(o3) == KeyIf("published_utc.lte", q.publishedUtcLte);
    assert Keys(o4) == KeyIf("order", q.order);
    assert Keys(o5) == KeyIf("limit", q.limit);
    assert Keys(o6) == KeyIf("sort", q.sort);
  }

  /**
   * The parameter list has one pair per set field and the API key last, so the
   * query always has at least one parameter.
   */
  lemma ParamsShape(q: NewsQuery)
    ensures |Params(q)| == SetCount(q) + 1
    ensures Params(q)[|Params(q)| - 1] == ("apiKey", q.apiKey)
    ensures q.ticker.Some? ==> Params(q)[0] == ("ticker", q.ticker.value)
    ensures q.sort.Some? ==> Params(q)[|Params(q)| - 2] == ("sort", q.sort.value)
  {
  }

  /** A key occurs in the parameter list exactly when it is the API key or names a set field. */
  lemma ParamKeys(q: NewsQuery, key: string)
    ensures key in Keys(Params(q)) <==>
      key == "apiKey"
      || (key == "ticker" && q.ticker.Some?)
      || (key == "published_utc.gte" && q.publishedUtcGte.Some?)
      || (key == "published_utc.lte" && q.publishedUtcLte.Some?)
      || (key == "order" && q.order.Some?)
      || (key == "limit" && q.limit.Some?)
      || (key == "sort" && q.sort.Some?)
  {
    KeysOfParams(q);
  }

  /**
   * Every pair `encode(k)=encode(v)` is one piece between '&'s: splitting the query on
   * '&' gives back the encoded pairs, and the query has one '&' fewer than it has
   * parameters.
   */
  lemma QuerySplitsIntoPairs(q: NewsQuery, encode: string -> string)
    requires Strs.PercentEncoder(encode)
    ensures Strs.Split(Strs.Join(EncodedPairs(Params(q), encode), "&"), '&') == EncodedPairs(Params(q), encode)
    ensures Strs.CountChar(Strs.Join(EncodedPairs(Params(q), encode), "&"), '&') == |Params(q)| - 1
  {
    var ps := Params(q);
    var es := EncodedPairs(ps, encode);
    ParamsShape(q);
    forall i | 0 <= i < |es|
      ensures '&' !in es[i]
    {
      Strs.EncodedLacks(encode, ps[i].0, '&');
      Strs.EncodedLacks(encode, ps[i].1, '&');
    }
    Strs.SplitJoin(es, '&');
    Strs.SplitCount(Strs.Join(es, "&"), '&');
  }

  /** Each encoded pair splits on '=' into the encoded key and the encoded value. */
  lemma PairSplitsOnEquals(k: string, v: string, encode: string -> string)
    requires Strs.PercentEncoder(encode)
    ensures Strs.Split(encode(k) + "=" + encode(v), '=') == [encode(k), encode(v)]
  {
    Strs.EncodedLacks(encode, k, '=');
    Strs.EncodedLacks(encode, v, '=');
    Strs.SplitJoin([encode(k), encode(v)], '=');
    assert Strs.Join([encode(k), encode(v)], "=") == encode(k) + "=" + encode(v);
  }
}
