/**
 * The three source adapters: each merges its default query parameters with
 * the caller's, requests one endpoint, extracts its item list from the
 * decoded response and maps its normaliser over the items.
 */
module Adapters {
  import opened Wrappers
  import opened Php
  import opened Articles
  import NewsApiArticle
  import GuardianArticle
  import NYTimesArticle

  datatype Source = NewsApi | Guardian | NYTimes

  /** A configured adapter (`new XAdapter($baseUrl, $apiKey)`). */
  datatype Adapter = Adapter(source: Source, baseUrl: string, apiKey: string)

  /** An HTTP GET: the full url and the query parameters. */
  datatype Request = Request(url: string, query: seq<Entry>)

  /**
   * The network as `makeRequest` sees it: the decoded JSON body of a request.
   * A failed request (bad status or a transport exception) is the empty
   * array `[]`.
   */
  type Http = Request -> Value

  /** `getSourceName()`. */
  function SourceName(s: Source): (name: string)
    ensures s == NewsApi ==> name == NewsApiArticle.SourceName
    ensures s == Guardian ==> name == GuardianArticle.SourceName
    ensures s == NYTimes ==> name == NYTimesArticle.SourceName
  {
    match s
    case NewsApi => "NewsAPI"
    case Guardian => "The Guardian"
    case NYTimes => "New York Times"
  }

  /** The three sources have three different names. */
  lemma SourceNamesDistinct(s: Source, t: Source)
    requires s != t
    ensures SourceName(s) != SourceName(t)
  {
    assert SourceName(NewsApi)[0] == 'N' && SourceName(NYTimes)[0] == 'N';
    assert SourceName(NewsApi)[3] != SourceName(NYTimes)[3];
  }

  /** The path appended to the base url. */
  function Endpoint(s: Source): string {
    match s
    case NewsApi => "/everything"
    case Guardian => "/search"
    case NYTimes => "/search/v2/articlesearch.json"
  }

  /** `$defaultParams` of `fetchArticles`. */
  function DefaultParams(a: Adapter): seq<Entry> {
    match a.source
    case NewsApi => [
      Entry("apiKey", Str(a.apiKey)),
      Entry("language", Str("en")),
      Entry("sortBy", Str("publishedAt")),
      Entry("pageSize", Num(100))]
    case Guardian => [
      Entry("api-key", Str(a.apiKey)),
      Entry("show-fields", Str("headline,byline,body,thumbnail")),
      Entry("show-tags", Str("keyword")),
      Entry("page-size", Num(50)),
      Entry("order-by", Str("newest"))]
    case NYTimes => [
      Entry("api-key", Str(a.apiKey))]
  }

  /** The default entries, each with the caller's value when the caller has that key. */
  function Override(defaults: seq<Entry>, params: seq<Entry>): (r: seq<Entry>)
    ensures |r| == |defaults|
    ensures forall i :: 0 <= i < |r| ==> r[i].key == defaults[i].key
  {
    if defaults == [] then []
    else
      var k := defaults[0].key;
      var v := match Find(params, k) case Some(p) => p case None => defaults[0].val;
      [Entry(k, v)] + Override(defaults[1..], params)
  }

  /** The caller's entries whose keys are not among the defaults, in the caller's order. */
  function Extra(params: seq<Entry>, defaults: seq<Entry>): (r: seq<Entry>)
    ensures |r| <= |params|
    ensures forall i :: 0 <= i < |r| ==> Find(defaults, r[i].key).None?
    ensures forall e :: e in r <==> e in params && Find(defaults, e.key).None?
  {
    if params == [] then []
    else if Find(defaults, params[0].key).Some? then Extra(params[1..], defaults)
    else [params[0]] + Extra(params[1..], defaults)
  }

  /** `array_merge($defaults, $params)` for string keys. */
  function Merge(defaults: seq<Entry>, params: seq<Entry>): seq<Entry> {
    Override(defaults, params) + Extra(params, defaults)
  }

  /** The first match of a concatenation is in the first part if it is there at all. */
  lemma {:induction false} FindAppend(a: seq<Entry>, b: seq<Entry>, k: string)
    ensures Find(a + b, k) == if Find(a, k).Some? then Find(a, k) else Find(b, k)
  {
    if a == [] {
      assert a + b == b;
    } else {
      assert (a + b)[0] == a[0] && (a + b)[1..] == a[1..] + b;
      FindAppend(a[1..], b, k);
    }
  }

  lemma {:induction false} FindOverride(defaults: seq<Entry>, params: seq<Entry>, k: string)
    ensures Find(Override(defaults, params), k) ==
      if Find(defaults, k).None? then None
      else if Find(params, k).Some? then Find(params, k)
      else Find(defaults, k)
  {
    if defaults != [] {
      FindOverride(defaults[1..], params, k);
    }
  }

  lemma {:induction false} FindExtra(params: seq<Entry>, defaults: seq<Entry>, k: string)
    ensures Find(Extra(params, defaults), k) == if Find(defaults, k).Some? then None else Find(params, k)
  {
    if params != [] {
      FindExtra(params[1..], defaults, k);
    }
  }

  /** After the merge a key holds the caller's value if the caller gave one, else the default. */
  lemma MergeFind(defaults: seq<Entry>, params: seq<Entry>, k: string)
    ensures Find(Merge(defaults, params), k) == if Find(params, k).Some? then Find(params, k) else Find(defaults, k)
  {
    FindAppend(Override(defaults, params), Extra(params, defaults), k);
    FindOverride(defaults, params, k);
    FindExtra(params, defaults, k);
  }

  /** The query an adapter sends for the caller's parameters. */
  function QueryParams(a: Adapter, params: seq<Entry>): (q: seq<Entry>)
    ensures forall k :: Find(params, k).Some? ==> Find(q, k) == Find(params, k)
    ensures forall k :: Find(params, k).None? ==> Find(q, k) == Find(DefaultParams(a), k)
    ensures |q| >= |DefaultParams(a)|
    ensures forall i :: 0 <= i < |DefaultParams(a)| ==> q[i].key == DefaultParams(a)[i].key
    ensures q[|DefaultParams(a)|..] == Extra(params, DefaultParams(a))
  {
    var q := Merge(DefaultParams(a), params);
    forall k ensures Find(q, k) == if Find(params, k).Some? then Find(params, k) else Find(DefaultParams(a), k) {
      MergeFind(DefaultParams(a), params, k);
    }
    q
  }

  /** Without caller parameters the query is exactly the defaults. */
  lemma {:induction false} QueryWithoutParams(a: Adapter)
    ensures QueryParams(a, []) == DefaultParams(a)
  {
    var d := DefaultParams(a);
    OverrideNothing(d);
    assert Extra([], d) == [];
  }

  lemma {:induction false} OverrideNothing(defaults: seq<Entry>)
    ensures Override(defaults, []) == defaults
  {
    if defaults != [] {
      OverrideNothing(defaults[1..]);
    }
  }

  /** The request `fetchArticles` makes. */
  function RequestFor(a: Adapter, params: seq<Entry>): Request {
    Request(a.baseUrl + Endpoint(a.source), QueryParams(a, params))
  }

  /** `$data['articles']`, `$data['response']['results']` or `$data['response']['docs']` under `??`. */
  function ListPath(s: Source, data: Value): Option<Value> {
    match s
    case NewsApi => Field(data, "articles")
    case Guardian => Path(data, "response", "results")
    case NYTimes => Path(data, "response", "docs")
  }

  /** The item list, `?? []`; a non-array there is a TypeError from `array_map`. */
  function ItemList(s: Source, data: Value): (r: Result<seq<Value>, Fault>)
    ensures ListPath(s, data).None? ==> r == Ok([])
    ensures r.Err? <==> ListPath(s, data).Some? && !IsArray(ListPath(s, data).value)
    ensures r.Err? ==> r.error == TypeError
    ensures r.Ok? && ListPath(s, data).Some? ==> r.value == Elements(ListPath(s, data).value)
  {
    match ListPath(s, data)
    case None => Ok([])
    case Some(v) => if IsArray(v) then Ok(Elements(v)) else Err(TypeError)
  }

  /** The source's normaliser, `fromXResponse`. */
  function FromResponse(s: Source, item: Value, now: int, parse: DateParser): (r: Result<Article, Fault>)
    ensures r.Ok? ==> r.value.sourceName == SourceName(s)
    ensures !IsArray(item) ==> r == Err(TypeError)
  {
    match s
    case NewsApi => NewsApiArticle.FromNewsApiResponse(item, now, parse)
    case Guardian => GuardianArticle.FromGuardianResponse(item, now, parse)
    case NYTimes => NYTimesArticle.FromNYTimesResponse(item, now, parse)
  }

  /** `array_map` of a normaliser `f`: one record per item in order, or the first fault. */
  function MapAll(f: Value -> Result<Article, Fault>, items: seq<Value>): (r: Result<seq<Article>, Fault>)
    ensures r.Ok? <==> forall i :: 0 <= i < |items| ==> f(items[i]).Ok?
    ensures r.Ok? ==> |r.value| == |items|
    ensures r.Ok? ==> forall i :: 0 <= i < |items| ==> f(items[i]) == Ok(r.value[i])
    ensures r.Err? ==> exists i :: 0 <= i < |items| && f(items[i]) == Err(r.error)
                                  && forall j :: 0 <= j < i ==> f(items[j]).Ok?
  {
    if items == [] then Ok([])
    else
      var head := f(items[0]);
      var tail := MapAll(f, items[1..]);
      assert forall i :: 1 <= i < |items| ==> items[i] == items[1..][i - 1];
      if head.Err? then Err(head.error)
      else if tail.Err? then
        assert exists i :: 1 <= i < |items| && f(items[i]) == Err(tail.error)
                         && forall j :: 0 <= j < i ==> f(items[j]).Ok? by {
          var i :| 0 <= i < |items[1..]| && f(items[1..][i]) == Err(tail.error)
                   && forall j :: 0 <= j < i ==> f(items[1..][j]).Ok?;
          assert f(items[i + 1]) == Err(tail.error);
          forall j | 0 <= j < i + 1 ensures f(items[j]).Ok? {
            if j > 0 { assert items[j] == items[1..][j - 1]; }
          }
        }
        Err(tail.error)
      else Ok([head.value] + tail.value)
  }

  /** `array_map([$this, 'normalizeArticle']…)` over the item list with the source's normaliser. */
  function MapRecords(s: Source, items: seq<Value>, now: int, parse: DateParser): (r: Result<seq<Article>, Fault>)
    ensures r.Ok? <==> forall i :: 0 <= i < |items| ==> FromResponse(s, items[i], now, parse).Ok?
    ensures r.Ok? ==> |r.value| == |items|
    ensures r.Ok? ==> forall i :: 0 <= i < |items| ==> FromResponse(s, items[i], now, parse) == Ok(r.value[i])
    ensures r.Err? ==> exists i :: 0 <= i < |items| && FromResponse(s, items[i], now, parse) == Err(r.error)
                                  && forall j :: 0 <= j < i ==> FromResponse(s, items[j], now, parse).Ok?
  {
    MapAll(v => FromResponse(s, v, now, parse), items)
  }

  /**
   * `fetchArticles($params)`. A body that is not an array fails the
   * `makeRequest(): array` return type, a TypeError.
   */
  function Fetch(a: Adapter, params: seq<Entry>, http: Http, now: int, parse: DateParser): (r: Result<seq<Article>, Fault>)
    ensures r.Ok? ==> forall i :: 0 <= i < |r.value| ==> r.value[i].sourceName == SourceName(a.source)
    ensures !IsArray(http(RequestFor(a, params))) ==> r == Err(TypeError)
    ensures IsArray(http(RequestFor(a, params))) ==>
      match ItemList(a.source, http(RequestFor(a, params)))
      case Err(e) => r == Err(e)
      case Ok(items) => r == MapRecords(a.source, items, now, parse)
  {
    var data := http(RequestFor(a, params));
    if !IsArray(data) then Err(TypeError)
    else
      var items :- ItemList(a.source, data);
      MapRecords(a.source, items, now, parse)
  }

  /** A failed request (`[]`) yields no records and no fault. */
  lemma FailedRequestFetchesNothing(a: Adapter, params: seq<Entry>, http: Http, now: int, parse: DateParser)
    requires http(RequestFor(a, params)) in {List([]), Dict([])}
    ensures Fetch(a, params, http, now, parse) == Ok([])
  {
    var data := http(RequestFor(a, params));
    EmptyHasNoList(a.source, data);
    assert ItemList(a.source, data) == Ok([]);
  }

  lemma EmptyHasNoList(s: Source, data: Value)
    requires data in {List([]), Dict([])}
    ensures ListPath(s, data) == None
  {
  }

  /** `normalizeArticle($article)`: the storage row of the normalised record. */
  function NormalizeArticle(s: Source, item: Value, now: int, parse: DateParser): (r: Result<Row, Fault>)
    ensures r.Ok? <==> FromResponse(s, item, now, parse).Ok?
    ensures r.Ok? ==> forall dateText :: FromArray(r.value, now, dateText) == Some(FromResponse(s, item, now, parse).value)
    ensures r.Err? ==> r.error == FromResponse(s, item, now, parse).error
  {
    var d :- FromResponse(s, item, now, parse);
    forall dateText ensures FromArray(ToArray(d), now, dateText) == Some(d) {
      RoundTrip(d, now, dateText);
    }
    Ok(ToArray(d))
  }
}
