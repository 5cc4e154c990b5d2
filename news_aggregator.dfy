/**
 * NewsAggregatorService: registers one adapter per configured source, polls
 * them in order, validates and deduplicates their records against the
 * article store, and counts what happened; and the retention cleanup.
 *
 * `Run` below is the specification of one `aggregateArticles` call, a fold
 * over the adapters' outcomes; the method of the class is proved to compute
 * it, and the lemmas state what it guarantees.
 */
module NewsAggregator {
  import opened Wrappers
  import opened Php
  import opened Articles
  import opened Adapters
  import opened ArticleStore

  /** `config('services.<name>.url')` and `config('services.<name>.key')`. */
  datatype ServiceConfig = ServiceConfig(url: string, key: Option<string>)

  datatype Config = Config(newsapi: ServiceConfig, guardian: ServiceConfig, nytimes: ServiceConfig)

  /** An entry of `$this->services`: its key and the adapter stored under it. */
  datatype Service = Service(name: string, adapter: Adapter)

  /** The three registration keys, in registration order. */
  const ServiceOrder: seq<string> := ["newsapi", "guardian", "nytimes"]

  /** `if (config('services.<name>.key'))`: a key that is set and not falsy. */
  predicate Configured(c: ServiceConfig) {
    c.key.Some? && !Falsy(c.key.value)
  }

  /** The service `initializeServices` registers for one source, if its key is configured. */
  function Register(name: string, s: Source, c: ServiceConfig): seq<Service> {
    if Configured(c) then [Service(name, Adapter(s, c.url, c.key.value))] else []
  }

  /** `$this->services` after `initializeServices`. */
  function Registered(config: Config): (r: seq<Service>)
    ensures |r| <= 3
  {
    Register("newsapi", NewsApi, config.newsapi)
    + Register("guardian", Guardian, config.guardian)
    + Register("nytimes", NYTimes, config.nytimes)
  }

  /** `array_keys($this->services)`. */
  function Names(services: seq<Service>): (names: seq<string>)
    ensures |names| == |services|
    ensures forall i :: 0 <= i < |services| ==> names[i] == services[i].name
  {
    seq(|services|, i requires 0 <= i < |services| => services[i].name)
  }

  /** `$this->services[$name] ?? null`. */
  function Lookup(services: seq<Service>, name: string): (r: Option<Adapter>)
    ensures r.None? <==> name !in Names(services)
    ensures r.Some? ==> Service(name, r.value) in services
  {
    if services == [] then None
    else if services[0].name == name then Some(services[0].adapter)
    else
      var r := Lookup(services[1..], name);
      assert Names(services) == [services[0].name] + Names(services[1..]);
      r
  }

  /** The adapter `initializeServices` stores under `name`, if any. */
  function Expected(config: Config, name: string): Option<Adapter> {
    if name == "newsapi" && Configured(config.newsapi) then
      Some(Adapter(NewsApi, config.newsapi.url, config.newsapi.key.value))
    else if name == "guardian" && Configured(config.guardian) then
      Some(Adapter(Guardian, config.guardian.url, config.guardian.key.value))
    else if name == "nytimes" && Configured(config.nytimes) then
      Some(Adapter(NYTimes, config.nytimes.url, config.nytimes.key.value))
    else None
  }

  lemma LookupRegister(name: string, s: Source, c: ServiceConfig, key: string)
    ensures Lookup(Register(name, s, c), key) ==
      if key == name && Configured(c) then Some(Adapter(s, c.url, c.key.value)) else None
  {
    if Configured(c) {
      var r := Register(name, s, c);
      assert r[1..] == [];
    }
  }

  /**
   * Registration: a source is registered exactly when its key is configured,
   * under its own key and with its own url and key; no other key is.
   */
  lemma RegisteredExactly(config: Config, name: string)
    ensures Lookup(Registered(config), name) == Expected(config, name)
    ensures name !in ServiceOrder ==> Lookup(Registered(config), name) == None
  {
    var a := Register("newsapi", NewsApi, config.newsapi);
    var b := Register("guardian", Guardian, config.guardian);
    var c := Register("nytimes", NYTimes, config.nytimes);
    LookupRegister("newsapi", NewsApi, config.newsapi, name);
    LookupRegister("guardian", Guardian, config.guardian, name);
    LookupRegister("nytimes", NYTimes, config.nytimes, name);
    LookupAppend(a, b + c, name);
    LookupAppend(b, c, name);
    assert Registered(config) == a + (b + c);
  }

  lemma {:induction false} LookupAppend(a: seq<Service>, b: seq<Service>, name: string)
    ensures Lookup(a + b, name) == if Lookup(a, name).Some? then Lookup(a, name) else Lookup(b, name)
  {
    if a == [] {
      assert a + b == b;
    } else {
      assert (a + b)[0] == a[0] && (a + b)[1..] == a[1..] + b;
      LookupAppend(a[1..], b, name);
    }
  }

  /** The position of a registration key in `ServiceOrder`. */
  function Rank(name: string): nat {
    if name == "newsapi" then 0 else if name == "guardian" then 1 else 2
  }

  /** Registered keys follow the order newsapi, guardian, nytimes, each at most once. */
  lemma RegisteredInOrder(config: Config)
    ensures forall i, j :: 0 <= i < j < |Registered(config)| ==>
      Rank(Registered(config)[i].name) < Rank(Registered(config)[j].name)
    ensures forall i :: 0 <= i < |Registered(config)| ==> Registered(config)[i].name in ServiceOrder
    ensures Configured(config.newsapi) && Configured(config.guardian) && Configured(config.nytimes) ==>
      Names(Registered(config)) == ServiceOrder
  {
    var r := Registered(config);
    var a := Register("newsapi", NewsApi, config.newsapi);
    var b := Register("guardian", Guardian, config.guardian);
    var c := Register("nytimes", NYTimes, config.nytimes);
    forall i | 0 <= i < |r|
      ensures r[i].name in ServiceOrder
      ensures Rank(r[i].name) == if i < |a| then 0 else if i < |a| + |b| then 1 else 2
    {
      if i < |a| {
        assert r[i] == a[i];
      } else if i < |a| + |b| {
        assert r[i] == b[i - |a|];
      } else {
        assert r[i] == c[i - |a| - |b|];
      }
    }
  }

  // ---------------------------------------------------------------------
  // One aggregation run, as a specification
  // ---------------------------------------------------------------------

  /** The `$stats` array. */
  datatype Tally = Tally(fetched: nat, saved: nat, duplicates: nat, errors: nat)

  /**
   * The state of a run: the counters, the records saved so far (the
   * `$allArticles` list, as records), the store, and whether a TypeError
   * escaped and ended the run.
   */
  datatype Pass = Pass(stats: Tally, articles: seq<Article>, rows: seq<Article>, aborted: bool)

  /** What `aggregateArticles` returns, or `Aborted` when an uncaught TypeError ends it. */
  datatype Report = Completed(stats: Tally, articles: seq<Row>) | Aborted

  /** What one adapter's `fetchArticles` produced. */
  type Outcome = Result<seq<Article>, Fault>

  /**
   * Which store calls fail: `(j, i)` means looking up or creating the `i`-th
   * record of the `j`-th adapter throws a database exception.
   */
  type StoreFaults = set<(nat, nat)>

  function Start(rows: seq<Article>): Pass {
    Pass(Tally(0, 0, 0, 0), [], rows, false)
  }

  /** The body of the inner `foreach` for the `i`-th record `d` of adapter `j`. */
  function Admit(p: Pass, j: nat, i: nat, d: Article, faults: StoreFaults, acceptsUrl: string -> bool): Pass {
    if !IsValid(d, acceptsUrl) then p
    else if (j, i) in faults then p.(stats := p.stats.(errors := p.stats.errors + 1))
    else if HasUrl(p.rows, d.url) then p.(stats := p.stats.(duplicates := p.stats.duplicates + 1))
    else p.(stats := p.stats.(saved := p.stats.saved + 1), articles := p.articles + [d], rows := p.rows + [d])
  }

  /** The inner `foreach` over adapter `j`'s records. */
  function AdmitAll(p: Pass, j: nat, dtos: seq<Article>, faults: StoreFaults, acceptsUrl: string -> bool): (q: Pass)
    ensures q.aborted == p.aborted && q.stats.fetched == p.stats.fetched
    ensures |p.rows| <= |q.rows| && q.rows[..|p.rows|] == p.rows
    decreases |dtos|
  {
    if dtos == [] then p
    else
      var n := |dtos| - 1;
      Admit(AdmitAll(p, j, dtos[..n], faults, acceptsUrl), j, n, dtos[n], faults, acceptsUrl)
  }

  /** The body of the outer `foreach` for adapter `j`. */
  function Poll(p: Pass, j: nat, out: Outcome, faults: StoreFaults, acceptsUrl: string -> bool): Pass {
    if p.aborted then p
    else
      match out
      case Err(e) =>
        if e == TypeError then p.(aborted := true)
        else p.(stats := p.stats.(errors := p.stats.errors + 1))
      case Ok(dtos) =>
        AdmitAll(p.(stats := p.stats.(fetched := p.stats.fetched + |dtos|)), j, dtos, faults, acceptsUrl)
  }

  /** The outer `foreach` over the adapters' outcomes. */
  function PollAll(p: Pass, outs: seq<Outcome>, faults: StoreFaults, acceptsUrl: string -> bool): (q: Pass)
    ensures p.aborted ==> q == p
    ensures |p.rows| <= |q.rows| && q.rows[..|p.rows|] == p.rows
    decreases |outs|
  {
    if outs == [] then p
    else
      var n := |outs| - 1;
      Poll(PollAll(p, outs[..n], faults, acceptsUrl), n, outs[n], faults, acceptsUrl)
  }

  /** A whole run against a store holding `rows`. */
  function Run(rows: seq<Article>, outs: seq<Outcome>, faults: StoreFaults, acceptsUrl: string -> bool): Pass {
    PollAll(Start(rows), outs, faults, acceptsUrl)
  }

  /** `$allArticles`: the row of each saved record. */
  function Rows(ds: seq<Article>): (r: seq<Row>)
    ensures |r| == |ds|
    ensures forall i :: 0 <= i < |ds| ==> r[i] == ToArray(ds[i])
  {
    seq(|ds|, i requires 0 <= i < |ds| => ToArray(ds[i]))
  }

  function ReportOf(p: Pass): Report {
    if p.aborted then Aborted else Completed(p.stats, Rows(p.articles))
  }

  /** The outcome of `fetch` for each service's adapter, in registration order. */
  function FetchAll(services: seq<Service>, fetch: Adapter -> Outcome): (outs: seq<Outcome>)
    ensures |outs| == |services|
    ensures forall j :: 0 <= j < |services| ==> outs[j] == fetch(services[j].adapter)
  {
    seq(|services|, j requires 0 <= j < |services| => fetch(services[j].adapter))
  }

  /** Each service's `fetchArticles($params)` outcome. */
  function Outcomes(services: seq<Service>, params: seq<Entry>, http: Http, now: int, parse: DateParser): (outs: seq<Outcome>)
    ensures |outs| == |services|
    ensures forall j :: 0 <= j < |services| ==> outs[j] == Fetch(services[j].adapter, params, http, now, parse)
  {
    FetchAll(services, a => Fetch(a, params, http, now, parse))
  }

  // ---------------------------------------------------------------------
  // Counting helpers
  // ---------------------------------------------------------------------

  /** Records `isValid()` rejects. */
  function Invalid(dtos: seq<Article>, acceptsUrl: string -> bool): nat
    decreases |dtos|
  {
    if dtos == [] then 0
    else
      var n := |dtos| - 1;
      Invalid(dtos[..n], acceptsUrl) + (if IsValid(dtos[n], acceptsUrl) then 0 else 1)
  }

  /** Records returned by adapters that did not throw. */
  function FetchedIn(outs: seq<Outcome>): nat
    decreases |outs|
  {
    if outs == [] then 0
    else
      var n := |outs| - 1;
      FetchedIn(outs[..n]) + (if outs[n].Ok? then |outs[n].value| else 0)
  }

  /** Invalid records among them. */
  function InvalidIn(outs: seq<Outcome>, acceptsUrl: string -> bool): nat
    decreases |outs|
  {
    if outs == [] then 0
    else
      var n := |outs| - 1;
      InvalidIn(outs[..n], acceptsUrl) + (if outs[n].Ok? then Invalid(outs[n].value, acceptsUrl) else 0)
  }

  /** Adapters whose `fetchArticles` threw an `\Exception`. */
  function RaisedIn(outs: seq<Outcome>): nat
    decreases |outs|
  {
    if outs == [] then 0
    else
      var n := |outs| - 1;
      RaisedIn(outs[..n]) + (if outs[n] == Err(Exception) then 1 else 0)
  }

  /** Some adapter raised a TypeError, which `catch (\Exception $e)` lets through. */
  predicate Crashes(outs: seq<Outcome>) {
    exists j :: 0 <= j < |outs| && outs[j] == Err(TypeError)
  }

  // ---------------------------------------------------------------------
  // Properties of a run
  // ---------------------------------------------------------------------

  /** The store is the initial rows followed by the saved records, and `total_saved` counts them. */
  predicate Consistent(p: Pass, base: seq<Article>) {
    p.rows == base + p.articles && p.stats.saved == |p.articles|
  }

  /**
   * One adapter's records: each is invalid, a duplicate, a store error or
   * saved; `total_fetched` is untouched; saved records go to both the store
   * and the output list.
   */
  lemma {:induction false} AdmitAllAccounting(p: Pass, j: nat, dtos: seq<Article>, faults: StoreFaults, acceptsUrl: string -> bool, base: seq<Article>)
    requires Consistent(p, base)
    ensures var q := AdmitAll(p, j, dtos, faults, acceptsUrl);
      && q.aborted == p.aborted
      && q.stats.fetched == p.stats.fetched
      && q.stats.saved + q.stats.duplicates + q.stats.errors + Invalid(dtos, acceptsUrl)
         == p.stats.saved + p.stats.duplicates + p.stats.errors + |dtos|
      && Consistent(q, base)
      && |p.articles| <= |q.articles| && q.articles[..|p.articles|] == p.articles
  {
    if dtos != [] {
      var n := |dtos| - 1;
      AdmitAllAccounting(p, j, dtos[..n], faults, acceptsUrl, base);
      var q := AdmitAll(p, j, dtos[..n], faults, acceptsUrl);
      AdmitAccounting(q, j, n, dtos[n], faults, acceptsUrl, base);
      var q2 := Admit(q, j, n, dtos[n], faults, acceptsUrl);
      if q2.articles != q.articles {
        assert q2.articles[..|p.articles|] == q.articles[..|p.articles|];
      }
    }
  }

  /** One record: it lands in exactly one bucket, and a saved record goes to both lists. */
  lemma AdmitAccounting(q: Pass, j: nat, i: nat, d: Article, faults: StoreFaults, acceptsUrl: string -> bool, base: seq<Article>)
    requires Consistent(q, base)
    ensures var q2 := Admit(q, j, i, d, faults, acceptsUrl);
      && q2.aborted == q.aborted
      && q2.stats.fetched == q.stats.fetched
      && q2.stats.saved + q2.stats.duplicates + q2.stats.errors + (if IsValid(d, acceptsUrl) then 0 else 1)
         == q.stats.saved + q.stats.duplicates + q.stats.errors + 1
      && Consistent(q2, base)
      && (q2.articles == q.articles || q2.articles == q.articles + [d])
      && (!IsValid(d, acceptsUrl) ==> q2 == q)
      && (q2.articles == q.articles + [d] <==> IsValid(d, acceptsUrl) && (j, i) !in faults && !HasUrl(q.rows, d.url))
  {
    var q2 := Admit(q, j, i, d, faults, acceptsUrl);
    if q2.articles != q.articles {
      assert q2.rows == base + q2.articles;
    }
  }

  /** The validation gate, per adapter: every record `AdmitAll` saves passes `isValid()`. */
  lemma {:induction false} AdmitAllSavesOnlyValid(p: Pass, j: nat, dtos: seq<Article>, faults: StoreFaults, acceptsUrl: string -> bool)
    requires forall d :: d in p.articles ==> IsValid(d, acceptsUrl)
    ensures forall d :: d in AdmitAll(p, j, dtos, faults, acceptsUrl).articles ==> IsValid(d, acceptsUrl)
  {
    if dtos != [] {
      var n := |dtos| - 1;
      AdmitAllSavesOnlyValid(p, j, dtos[..n], faults, acceptsUrl);
      var q := AdmitAll(p, j, dtos[..n], faults, acceptsUrl);
      var q2 := Admit(q, j, n, dtos[n], faults, acceptsUrl);
      assert q2.articles == q.articles || (q2.articles == q.articles + [dtos[n]] && IsValid(dtos[n], acceptsUrl));
    }
  }

  /** The validation gate, per run: every record the outer loop saves passes `isValid()`. */
  lemma {:induction false} PollAllSavesOnlyValid(p: Pass, outs: seq<Outcome>, faults: StoreFaults, acceptsUrl: string -> bool)
    requires forall d :: d in p.articles ==> IsValid(d, acceptsUrl)
    ensures forall d :: d in PollAll(p, outs, faults, acceptsUrl).articles ==> IsValid(d, acceptsUrl)
  {
    if outs != [] {
      var n := |outs| - 1;
      PollAllSavesOnlyValid(p, outs[..n], faults, acceptsUrl);
      var q := PollAll(p, outs[..n], faults, acceptsUrl);
      if !q.aborted && outs[n].Ok? {
        AdmitAllSavesOnlyValid(q.(stats := q.stats.(fetched := q.stats.fetched + |outs[n].value|)), n, outs[n].value, faults, acceptsUrl);
      }
    }
  }

  /**
   * An invalid record is never saved: every record a run returns (and adds
   * to the store) passes `isValid()`.
   */
  lemma RunSavesOnlyValid(rows: seq<Article>, outs: seq<Outcome>, faults: StoreFaults, acceptsUrl: string -> bool)
    ensures forall d :: d in Run(rows, outs, faults, acceptsUrl).articles ==> IsValid(d, acceptsUrl)
    ensures var q := Run(rows, outs, faults, acceptsUrl);
      forall i :: |rows| <= i < |q.rows| ==> IsValid(q.rows[i], acceptsUrl)
  {
    var q := Run(rows, outs, faults, acceptsUrl);
    PollAllSavesOnlyValid(Start(rows), outs, faults, acceptsUrl);
    assert Consistent(Start(rows), rows) by { assert rows + [] == rows; }
    RunAccounting(Start(rows), outs, faults, acceptsUrl, rows);
    forall i | |rows| <= i < |q.rows| ensures IsValid(q.rows[i], acceptsUrl) {
      assert q.rows[i] == q.articles[i - |rows|];
    }
  }

  /** Uniqueness of store urls survives one adapter's records. */
  lemma {:induction false} AdmitAllUnique(p: Pass, j: nat, dtos: seq<Article>, faults: StoreFaults, acceptsUrl: string -> bool)
    requires UniqueUrls(p.rows)
    ensures UniqueUrls(AdmitAll(p, j, dtos, faults, acceptsUrl).rows)
  {
    if dtos != [] {
      var n := |dtos| - 1;
      AdmitAllUnique(p, j, dtos[..n], faults, acceptsUrl);
      var q := AdmitAll(p, j, dtos[..n], faults, acceptsUrl);
      if IsValid(dtos[n], acceptsUrl) && (j, n) !in faults && !HasUrl(q.rows, dtos[n].url) {
        UniqueAppend(q.rows, dtos[n]);
      }
    }
  }

  /**
   * Per adapter: a list of records adds its length to `total_fetched`, and
   * each record to exactly one of saved, duplicates, errors or invalid; an
   * `\Exception` adds 1 to `errors` and nothing else; an empty list (a failed
   * request) changes nothing.
   */
  lemma PollAccounting(p: Pass, j: nat, out: Outcome, faults: StoreFaults, acceptsUrl: string -> bool, base: seq<Article>)
    requires !p.aborted
    requires Consistent(p, base)
    ensures var q := Poll(p, j, out, faults, acceptsUrl);
      && (q.aborted <==> out == Err(TypeError))
      && (out == Err(Exception) ==> q == p.(stats := p.stats.(errors := p.stats.errors + 1)))
      && (out == Ok([]) ==> q == p)
      && (out.Ok? ==>
            && q.stats.fetched == p.stats.fetched + |out.value|
            && (q.stats.saved - p.stats.saved) + (q.stats.duplicates - p.stats.duplicates)
               + (q.stats.errors - p.stats.errors) + Invalid(out.value, acceptsUrl) == |out.value|)
      && Consistent(q, base)
  {
    if out.Ok? {
      var p1 := p.(stats := p.stats.(fetched := p.stats.fetched + |out.value|));
      AdmitAllAccounting(p1, j, out.value, faults, acceptsUrl, base);
    }
  }

  /** An adapter that returned records: its count is added, then each record is admitted. */
  lemma PollRecords(p: Pass, j: nat, dtos: seq<Article>, faults: StoreFaults, acceptsUrl: string -> bool)
    requires !p.aborted
    ensures Poll(p, j, Ok(dtos), faults, acceptsUrl)
      == AdmitAll(p.(stats := p.stats.(fetched := p.stats.fetched + |dtos|)), j, dtos, faults, acceptsUrl)
  {
  }

  /** Once a TypeError has ended the run, later adapters change nothing. */
  lemma {:induction false} AbortedStaysPut(p: Pass, outs: seq<Outcome>, k: nat, faults: StoreFaults, acceptsUrl: string -> bool)
    requires k <= |outs|
    requires PollAll(p, outs[..k], faults, acceptsUrl).aborted
    ensures PollAll(p, outs, faults, acceptsUrl) == PollAll(p, outs[..k], faults, acceptsUrl)
    decreases |outs|
  {
    if k < |outs| {
      var n := |outs| - 1;
      assert outs[..n][..k] == outs[..k];
      AbortedStaysPut(p, outs[..n], k, faults, acceptsUrl);
    } else {
      assert outs[..k] == outs;
    }
  }

  /** A run ends early exactly when some adapter raised a TypeError. */
  lemma {:induction false} AbortedIffCrash(p: Pass, outs: seq<Outcome>, faults: StoreFaults, acceptsUrl: string -> bool)
    ensures PollAll(p, outs, faults, acceptsUrl).aborted <==> p.aborted || Crashes(outs)
    decreases |outs|
  {
    if outs != [] {
      var n := |outs| - 1;
      AbortedIffCrash(p, outs[..n], faults, acceptsUrl);
      var q := PollAll(p, outs[..n], faults, acceptsUrl);
      assert Crashes(outs) <==> Crashes(outs[..n]) || outs[n] == Err(TypeError) by {
        if Crashes(outs) {
          var j :| 0 <= j < |outs| && outs[j] == Err(TypeError);
          if j < n { assert outs[..n][j] == outs[j]; }
        }
        if Crashes(outs[..n]) {
          var j :| 0 <= j < n && outs[..n][j] == Err(TypeError);
          assert outs[j] == Err(TypeError);
        }
      }
    }
  }

  /**
   * The whole run's accounting: every fetched record and every adapter
   * exception is counted exactly once, and the store grows by exactly the
   * saved records, which `total_saved` counts.
   */
  lemma {:induction false} RunAccounting(p: Pass, outs: seq<Outcome>, faults: StoreFaults, acceptsUrl: string -> bool, base: seq<Article>)
    requires !p.aborted
    requires Consistent(p, base)
    ensures var q := PollAll(p, outs, faults, acceptsUrl);
      && Consistent(q, base)
      && (!q.aborted ==>
            && q.stats.fetched == p.stats.fetched + FetchedIn(outs)
            && q.stats.saved + q.stats.duplicates + q.stats.errors + InvalidIn(outs, acceptsUrl)
               == p.stats.saved + p.stats.duplicates + p.stats.errors + FetchedIn(outs) + RaisedIn(outs))
    decreases |outs|
  {
    if outs != [] {
      var n := |outs| - 1;
      RunAccounting(p, outs[..n], faults, acceptsUrl, base);
      var q := PollAll(p, outs[..n], faults, acceptsUrl);
      if !q.aborted {
        PollAccounting(q, n, outs[n], faults, acceptsUrl, base);
      }
    }
  }

  /** What a completed run reports, starting from an empty tally. */
  lemma RunTotals(rows: seq<Article>, outs: seq<Outcome>, faults: StoreFaults, acceptsUrl: string -> bool)
    ensures var q := Run(rows, outs, faults, acceptsUrl);
      && q.rows == rows + q.articles
      && q.stats.saved == |q.articles|
      && (q.aborted <==> Crashes(outs))
      && (!q.aborted ==>
            && q.stats.fetched == FetchedIn(outs)
            && q.stats.saved + q.stats.duplicates + q.stats.errors + InvalidIn(outs, acceptsUrl)
               == FetchedIn(outs) + RaisedIn(outs))
  {
    assert rows + [] == rows;
    RunAccounting(Start(rows), outs, faults, acceptsUrl, rows);
    AbortedIffCrash(Start(rows), outs, faults, acceptsUrl);
  }

  /** Uniqueness of store urls survives a run. */
  lemma {:induction false} RunUnique(p: Pass, outs: seq<Outcome>, faults: StoreFaults, acceptsUrl: string -> bool)
    requires UniqueUrls(p.rows)
    ensures UniqueUrls(PollAll(p, outs, faults, acceptsUrl).rows)
    decreases |outs|
  {
    if outs != [] {
      var n := |outs| - 1;
      RunUnique(p, outs[..n], faults, acceptsUrl);
      var q := PollAll(p, outs[..n], faults, acceptsUrl);
      if !q.aborted && outs[n].Ok? {
        AdmitAllUnique(q.(stats := q.stats.(fetched := q.stats.fetched + |outs[n].value|)), n, outs[n].value, faults, acceptsUrl);
      }
    }
  }

  // ---------------------------------------------------------------------
  // Idempotence
  // ---------------------------------------------------------------------

  /** Every valid record of adapter `j` whose store calls succeed has its url in `rows`. */
  predicate Absorbed(rows: seq<Article>, j: nat, dtos: seq<Article>, faults: StoreFaults, acceptsUrl: string -> bool) {
    forall i :: 0 <= i < |dtos| && IsValid(dtos[i], acceptsUrl) && (j, i) !in faults ==> HasUrl(rows, dtos[i].url)
  }

  predicate AbsorbedAll(rows: seq<Article>, outs: seq<Outcome>, faults: StoreFaults, acceptsUrl: string -> bool) {
    forall j :: 0 <= j < |outs| && outs[j].Ok? ==> Absorbed(rows, j, outs[j].value, faults, acceptsUrl)
  }

  lemma AbsorbedExtend(rows: seq<Article>, more: seq<Article>, j: nat, dtos: seq<Article>, faults: StoreFaults, acceptsUrl: string -> bool)
    requires Absorbed(rows, j, dtos, faults, acceptsUrl)
    ensures Absorbed(rows + more, j, dtos, faults, acceptsUrl)
  {
    forall i | 0 <= i < |dtos| && IsValid(dtos[i], acceptsUrl) && (j, i) !in faults
      ensures HasUrl(rows + more, dtos[i].url)
    {
      HasUrlExtend(rows, more, dtos[i].url);
    }
  }

  /** After one adapter's records are processed, each one that could be stored is in the store. */
  lemma {:induction false} AdmitAllAbsorbs(p: Pass, j: nat, dtos: seq<Article>, faults: StoreFaults, acceptsUrl: string -> bool)
    ensures Absorbed(AdmitAll(p, j, dtos, faults, acceptsUrl).rows, j, dtos, faults, acceptsUrl)
  {
    if dtos != [] {
      var n := |dtos| - 1;
      AdmitAllAbsorbs(p, j, dtos[..n], faults, acceptsUrl);
      var q := AdmitAll(p, j, dtos[..n], faults, acceptsUrl);
      var q2 := Admit(q, j, n, dtos[n], faults, acceptsUrl);
      var more := q2.rows[|q.rows|..];
      assert q2.rows == q.rows + more;
      AbsorbedExtend(q.rows, more, j, dtos[..n], faults, acceptsUrl);
      forall i | 0 <= i < |dtos| && IsValid(dtos[i], acceptsUrl) && (j, i) !in faults
        ensures HasUrl(q2.rows, dtos[i].url)
      {
        if i < n {
          assert dtos[..n][i] == dtos[i];
        } else if HasUrl(q.rows, dtos[n].url) {
          HasUrlExtend(q.rows, more, dtos[n].url);
        } else {
          assert q2.rows[|q.rows|] == dtos[n];
        }
      }
    }
  }

  /** Records already absorbed, with at least the same store failures, are all skipped. */
  lemma {:induction false} AdmitAllNoop(p: Pass, j: nat, dtos: seq<Article>, faults1: StoreFaults, faults2: StoreFaults, acceptsUrl: string -> bool)
    requires Absorbed(p.rows, j, dtos, faults1, acceptsUrl)
    requires faults1 <= faults2
    ensures var q := AdmitAll(p, j, dtos, faults2, acceptsUrl);
      q.rows == p.rows && q.articles == p.articles && q.stats.saved == p.stats.saved
      && q.stats.fetched == p.stats.fetched && q.aborted == p.aborted
  {
    if dtos != [] {
      var n := |dtos| - 1;
      assert Absorbed(p.rows, j, dtos[..n], faults1, acceptsUrl) by {
        forall i | 0 <= i < n && IsValid(dtos[..n][i], acceptsUrl) && (j, i) !in faults1
          ensures HasUrl(p.rows, dtos[..n][i].url)
        {
          assert dtos[..n][i] == dtos[i];
        }
      }
      AdmitAllNoop(p, j, dtos[..n], faults1, faults2, acceptsUrl);
    }
  }

  /** After a completed run, every record that could be stored is in the store. */
  lemma {:induction false} PollAllAbsorbs(p: Pass, outs: seq<Outcome>, faults: StoreFaults, acceptsUrl: string -> bool)
    requires !PollAll(p, outs, faults, acceptsUrl).aborted
    ensures AbsorbedAll(PollAll(p, outs, faults, acceptsUrl).rows, outs, faults, acceptsUrl)
    decreases |outs|
  {
    if outs != [] {
      var n := |outs| - 1;
      var q := PollAll(p, outs[..n], faults, acceptsUrl);
      assert !q.aborted;
      PollAllAbsorbs(p, outs[..n], faults, acceptsUrl);
      var q2 := Poll(q, n, outs[n], faults, acceptsUrl);
      if outs[n].Ok? {
        AdmitAllAbsorbs(q.(stats := q.stats.(fetched := q.stats.fetched + |outs[n].value|)), n, outs[n].value, faults, acceptsUrl);
      }
      assert |q.rows| <= |q2.rows| && q2.rows[..|q.rows|] == q.rows;
      var more := q2.rows[|q.rows|..];
      assert q2.rows == q.rows + more;
      forall j | 0 <= j < |outs| && outs[j].Ok? ensures Absorbed(q2.rows, j, outs[j].value, faults, acceptsUrl) {
        if j < n {
          assert outs[..n][j] == outs[j];
          AbsorbedExtend(q.rows, more, j, outs[j].value, faults, acceptsUrl);
        }
      }
    }
  }

  /** A run over outcomes already absorbed, with at least the same store failures, stores nothing. */
  lemma {:induction false} PollAllNoop(p: Pass, outs: seq<Outcome>, faults1: StoreFaults, faults2: StoreFaults, acceptsUrl: string -> bool)
    requires AbsorbedAll(p.rows, outs, faults1, acceptsUrl)
    requires faults1 <= faults2
    ensures var q := PollAll(p, outs, faults2, acceptsUrl);
      q.rows == p.rows && q.articles == p.articles && q.stats.saved == p.stats.saved
    decreases |outs|
  {
    if outs != [] {
      var n := |outs| - 1;
      assert AbsorbedAll(p.rows, outs[..n], faults1, acceptsUrl) by {
        forall j | 0 <= j < n && outs[..n][j].Ok? ensures Absorbed(p.rows, j, outs[..n][j].value, faults1, acceptsUrl) {
          assert outs[..n][j] == outs[j];
        }
      }
      PollAllNoop(p, outs[..n], faults1, faults2, acceptsUrl);
      var q := PollAll(p, outs[..n], faults2, acceptsUrl);
      if !q.aborted && outs[n].Ok? {
        AdmitAllNoop(q.(stats := q.stats.(fetched := q.stats.fetched + |outs[n].value|)), n, outs[n].value, faults1, faults2, acceptsUrl);
      }
    }
  }

  /**
   * Idempotence: running again on the same adapter outcomes, with the store
   * failing at least where it failed before, saves nothing and leaves the
   * store as the first run left it.
   */
  lemma RunIdempotent(rows: seq<Article>, outs: seq<Outcome>, faults1: StoreFaults, faults2: StoreFaults, acceptsUrl: string -> bool)
    requires !Run(rows, outs, faults1, acceptsUrl).aborted
    requires faults1 <= faults2
    ensures var first := Run(rows, outs, faults1, acceptsUrl);
      var second := Run(first.rows, outs, faults2, acceptsUrl);
      && second.rows == first.rows
      && second.articles == []
      && second.stats.saved == 0
      && !second.aborted
  {
    var first := Run(rows, outs, faults1, acceptsUrl);
    PollAllAbsorbs(Start(rows), outs, faults1, acceptsUrl);
    PollAllNoop(Start(first.rows), outs, faults1, faults2, acceptsUrl);
    AbortedIffCrash(Start(rows), outs, faults1, acceptsUrl);
    AbortedIffCrash(Start(first.rows), outs, faults2, acceptsUrl);
  }

  // ---------------------------------------------------------------------
  // Scenarios
  // ---------------------------------------------------------------------

  /** A record whose url the store already holds is skipped as a duplicate. */
  lemma DuplicateOfStored(rows: seq<Article>, d: Article, acceptsUrl: string -> bool)
    requires IsValid(d, acceptsUrl)
    requires HasUrl(rows, d.url)
    ensures Run(rows, [Ok([d])], {}, acceptsUrl) == Pass(Tally(1, 0, 1, 0), [], rows, false)
  {
    var outs: seq<Outcome> := [Ok([d])];
    assert outs[..0] == [];
    assert PollAll(Start(rows), outs[..0], {}, acceptsUrl) == Start(rows);
    var p1 := Pass(Tally(1, 0, 0, 0), [], rows, false);
    assert [d][..0] == [];
    assert AdmitAll(p1, 0, [d][..0], {}, acceptsUrl) == p1;
    assert AdmitAll(p1, 0, [d], {}, acceptsUrl) == Pass(Tally(1, 0, 1, 0), [], rows, false);
  }

  /** Two valid records with one new url: the first is saved and the second is a duplicate. */
  lemma DuplicateWithinRun(rows: seq<Article>, d: Article, e: Article, acceptsUrl: string -> bool)
    requires IsValid(d, acceptsUrl) && IsValid(e, acceptsUrl)
    requires d.url == e.url && !HasUrl(rows, d.url)
    ensures Run(rows, [Ok([d, e])], {}, acceptsUrl) == Pass(Tally(2, 1, 1, 0), [d], rows + [d], false)
  {
    var outs: seq<Outcome> := [Ok([d, e])];
    assert outs[..0] == [];
    assert PollAll(Start(rows), outs[..0], {}, acceptsUrl) == Start(rows);
    var p1 := Pass(Tally(2, 0, 0, 0), [], rows, false);
    assert [d, e][..1] == [d] && [d][..0] == [];
    assert AdmitAll(p1, 0, [d][..0], {}, acceptsUrl) == p1;
    var p2 := Pass(Tally(2, 1, 0, 0), [d], rows + [d], false);
    assert AdmitAll(p1, 0, [d], {}, acceptsUrl) == p2;
    assert (rows + [d])[|rows|] == d;
    assert HasUrl(p2.rows, e.url);
    assert AdmitAll(p1, 0, [d, e], {}, acceptsUrl) == Pass(Tally(2, 1, 1, 0), [d], rows + [d], false);
  }

  /** A record without a url is fetched but neither saved, counted as duplicate nor as error. */
  lemma InvalidSkipped(rows: seq<Article>, d: Article, acceptsUrl: string -> bool)
    requires d.url == ""
    ensures Run(rows, [Ok([d])], {}, acceptsUrl) == Pass(Tally(1, 0, 0, 0), [], rows, false)
  {
    var outs: seq<Outcome> := [Ok([d])];
    assert outs[..0] == [];
    assert PollAll(Start(rows), outs[..0], {}, acceptsUrl) == Start(rows);
    var p1 := Pass(Tally(1, 0, 0, 0), [], rows, false);
    assert [d][..0] == [];
    assert AdmitAll(p1, 0, [d][..0], {}, acceptsUrl) == p1;
    assert !IsValid(d, acceptsUrl);
  }

  /** Three failed requests: nothing fetched, saved or counted as an error. */
  lemma AllRequestsFail(rows: seq<Article>, faults: StoreFaults, acceptsUrl: string -> bool)
    ensures Run(rows, [Ok([]), Ok([]), Ok([])], faults, acceptsUrl) == Start(rows)
  {
    var outs: seq<Outcome> := [Ok([]), Ok([]), Ok([])];
    var p := Start(rows);
    assert outs[..0] == [];
    assert PollAll(p, outs[..0], faults, acceptsUrl) == p;
    assert outs[..1][..0] == [] && outs[..1][0] == Ok([]);
    assert PollAll(p, outs[..1], faults, acceptsUrl) == p;
    assert outs[..2][..1] == outs[..1] && outs[..2][1] == Ok([]);
    assert PollAll(p, outs[..2], faults, acceptsUrl) == p;
    assert outs[..2] == outs[..|outs| - 1];
  }

  // ---------------------------------------------------------------------
  // Retention
  // ---------------------------------------------------------------------

  const SecondsPerDay: int := 86400

  /** `now()->subDays($daysToKeep)`. */
  function Cutoff(now: int, daysToKeep: int): int {
    now - daysToKeep * SecondsPerDay
  }

  // ---------------------------------------------------------------------
  // The service
  // ---------------------------------------------------------------------

  class NewsAggregatorService {
    var services: seq<Service>

    /** `__construct()` and `initializeServices()`. */
    constructor(config: Config)
      ensures services == Registered(config)
    {
      services := [];
      if Configured(config.newsapi) {
        services := services + [Service("newsapi", Adapter(NewsApi, config.newsapi.url, config.newsapi.key.value))];
      }
      if Configured(config.guardian) {
        services := services + [Service("guardian", Adapter(Guardian, config.guardian.url, config.guardian.key.value))];
      }
      if Configured(config.nytimes) {
        services := services + [Service("nytimes", Adapter(NYTimes, config.nytimes.url, config.nytimes.key.value))];
      }
    }

    /** `getAvailableServices()`. */
    function GetAvailableServices(): (names: seq<string>)
      reads this
      ensures |names| == |services|
      ensures forall name :: name in names <==> Lookup(services, name).Some?
    {
      Names(services)
    }

    /** `getService($serviceName)`. */
    function GetService(name: string): (r: Option<Adapter>)
      reads this
      ensures r.None? <==> name !in Names(services)
    {
      Lookup(services, name)
    }

    /**
     * `aggregateArticles($params)`: polls every service in order and returns
     * the saved rows and the counters, or `Aborted` when a TypeError escapes
     * (the records stored before it stay stored).
     */
    method AggregateArticles(store: Store, params: seq<Entry>, http: Http, now: int, parse: DateParser,
                             faults: StoreFaults, acceptsUrl: string -> bool) returns (report: Report)
      requires store.Valid()
      modifies store
      ensures var run := Run(old(store.rows), Outcomes(services, params, http, now, parse), faults, acceptsUrl);
        report == ReportOf(run) && store.rows == run.rows
      ensures store.Valid()
    {
      var fetch := a => Fetch(a, params, http, now, parse);
      assert FetchAll(services, fetch) == Outcomes(services, params, http, now, parse);
      report := PollServices(store, fetch, faults, acceptsUrl);
    }

    /**
     * The outer `foreach` of `aggregateArticles`, with `fetch` standing for
     * each adapter's `fetchArticles($params)`.
     */
    method PollServices(store: Store, fetch: Adapter -> Outcome, faults: StoreFaults, acceptsUrl: string -> bool)
      returns (report: Report)
      requires store.Valid()
      modifies store
      ensures var run := Run(old(store.rows), FetchAll(services, fetch), faults, acceptsUrl);
        report == ReportOf(run) && store.rows == run.rows
      ensures store.Valid()
    {
      ghost var outs := FetchAll(services, fetch);
      ghost var p0 := Start(store.rows);
      var stats := Tally(0, 0, 0, 0);
      var allArticles: seq<Article> := [];
      var j := 0;
      while j < |services|
        invariant 0 <= j <= |services|
        invariant PollAll(p0, outs[..j], faults, acceptsUrl) == Pass(stats, allArticles, store.rows, false)
        invariant store.Valid()
      {
        assert outs[..j + 1][..j] == outs[..j];
        ghost var before := Pass(stats, allArticles, store.rows, false);
        assert PollAll(p0, outs[..j + 1], faults, acceptsUrl) == Poll(before, j, outs[j], faults, acceptsUrl);
        var fetched := fetch(services[j].adapter);
        if fetched == Err(TypeError) {
          AbortedStaysPut(p0, outs, j + 1, faults, acceptsUrl);
          return Aborted;
        }
        stats, allArticles := PollService(store, j, fetched, stats, allArticles, faults, acceptsUrl);
        j := j + 1;
      }
      assert outs[..|services|] == outs;
      report := Completed(stats, Rows(allArticles));
    }

    /**
     * One iteration of the outer `foreach` for an adapter whose fetch did not
     * raise a TypeError: an `\Exception` is counted, records are counted and
     * saved one by one.
     */
    method PollService(store: Store, j: nat, fetched: Outcome, stats0: Tally, articles0: seq<Article>,
                       faults: StoreFaults, acceptsUrl: string -> bool) returns (stats: Tally, allArticles: seq<Article>)
      requires store.Valid()
      requires fetched != Err(TypeError)
      modifies store
      ensures Pass(stats, allArticles, store.rows, false) ==
        Poll(Pass(stats0, articles0, old(store.rows), false), j, fetched, faults, acceptsUrl)
      ensures store.Valid()
    {
      ghost var before := Pass(stats0, articles0, store.rows, false);
      if fetched.Err? {
        stats, allArticles := stats0.(errors := stats0.errors + 1), articles0;
      } else {
        var dtos := fetched.value;
        PollRecords(before, j, dtos, faults, acceptsUrl);
        stats, allArticles := SaveRecords(store, j, dtos, stats0.(fetched := stats0.fetched + |dtos|), articles0, faults, acceptsUrl);
      }
    }

    /** The inner `foreach` of `aggregateArticles` over the `j`-th service's records. */
    method SaveRecords(store: Store, j: nat, dtos: seq<Article>, stats0: Tally, articles0: seq<Article>,
                       faults: StoreFaults, acceptsUrl: string -> bool) returns (stats: Tally, allArticles: seq<Article>)
      requires store.Valid()
      modifies store
      ensures Pass(stats, allArticles, store.rows, false) ==
        AdmitAll(Pass(stats0, articles0, old(store.rows), false), j, dtos, faults, acceptsUrl)
      ensures store.Valid()
    {
      ghost var pj := Pass(stats0, articles0, store.rows, false);
      stats, allArticles := stats0, articles0;
      var i := 0;
      while i < |dtos|
        invariant 0 <= i <= |dtos|
        invariant AdmitAll(pj, j, dtos[..i], faults, acceptsUrl) == Pass(stats, allArticles, store.rows, false)
        invariant store.Valid()
      {
        assert dtos[..i + 1][..i] == dtos[..i];
        var d := dtos[i];
        if !IsValid(d, acceptsUrl) {
          // `continue`: an invalid record is only logged
        } else if (j, i) in faults {
          stats := stats.(errors := stats.errors + 1);
        } else if store.FindByUrl(d.url).Some? {
          stats := stats.(duplicates := stats.duplicates + 1);
        } else {
          store.Insert(d);
          stats := stats.(saved := stats.saved + 1);
          allArticles := allArticles + [d];
        }
        i := i + 1;
      }
      assert dtos[..|dtos|] == dtos;
    }

    /** `cleanupOldArticles($daysToKeep)`: the number of records deleted. */
    method CleanupOldArticles(store: Store, daysToKeep: int, now: int) returns (deleted: nat)
      requires store.Valid()
      modifies store
      ensures store.rows == Retained(old(store.rows), Cutoff(now, daysToKeep))
      ensures deleted == CountOlder(old(store.rows), Cutoff(now, daysToKeep))
      ensures store.Valid()
    {
      deleted := store.DeleteOlderThan(Cutoff(now, daysToKeep));
    }
  }

  /**
   * Retention: a record survives exactly when it is not older than the
   * cutoff; the count is the number of older records; and a second cleanup
   * with the same cutoff deletes nothing.
   */
  lemma CleanupExactly(rows: seq<Article>, now: int, daysToKeep: int, d: Article)
    ensures d in Retained(rows, Cutoff(now, daysToKeep)) <==> d in rows && d.publishedAt >= now - daysToKeep * 86400
    ensures |Retained(rows, Cutoff(now, daysToKeep))| + CountOlder(rows, Cutoff(now, daysToKeep)) == |rows|
    ensures CountOlder(Retained(rows, Cutoff(now, daysToKeep)), Cutoff(now, daysToKeep)) == 0
  {
    var c := Cutoff(now, daysToKeep);
    RetainedCount(rows, c);
    RetainedIdempotent(rows, c);
    RetainedCount(Retained(rows, c), c);
  }

  /** Five records 40 days old and three 10 days old: keeping 30 days deletes the five. */
  lemma CleanupFortyAndTenDays(older: seq<Article>, recent: seq<Article>, now: int)
    requires forall i :: 0 <= i < |older| ==> older[i].publishedAt == now - 40 * 86400
    requires forall i :: 0 <= i < |recent| ==> recent[i].publishedAt == now - 10 * 86400
    ensures Retained(older + recent, Cutoff(now, 30)) == recent
    ensures CountOlder(older + recent, Cutoff(now, 30)) == |older|
  {
    RetainedSplit(older, recent, Cutoff(now, 30));
  }
}
