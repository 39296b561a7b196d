/**
 * `ingestOne` (src/lib/ingest/index.ts): look the source up, honour its
 * enabled flag and robots.txt, read items from its feed and/or scrape its page
 * according to its strategy, and insert one article per item whose hash is
 * new.  The database is a value: the sources are a map, the articles a
 * sequence; everything fetched is an input (`World`).
 */
module Ingest {
  import opened Wrappers
  import opened Normalize
  import opened Items
  import opened Retrying
  import Text
  import Rss
  import HtmlList
  import Robots

  datatype SourceType = RSS | HTML | AUTO

  /** The `rules` column: null, text that does not parse as JSON, or parsed rules. */
  datatype StoredRules = NoRules | Unreadable | Rules(rules: HtmlList.HtmlRules)

  datatype Source = Source(id: string, url: string, kind: SourceType, enabled: bool, rules: StoredRules,
                           categories: set<string>, lastFetched: Option<int>)

  datatype Article = Article(sourceId: string, title: string, url: string, canonicalUrl: string,
                             hash: string, publishedAt: JsDate)

  /** What one attempt at reading the feed can throw: the network, or an entry URL that does not parse. */
  datatype FeedError = Network(message: string) | EntryUrl(error: UrlError)

  /** A page response; `text` is None when reading the body throws. */
  datatype Response = Response(text: Option<string>)

  /**
   * Everything outside the process: the robots.txt fetch, the i-th feed read
   * (the parsed `items`, absent when the feed has none), the i-th page fetch,
   * the nodes the item selector matches in a page, and which inserts fail for
   * a reason other than a duplicate hash.
   */
  datatype World = World(
    robots: Robots.RobotsFetch,
    feed: nat -> Result<Option<seq<Rss.FeedEntry>>, string>,
    page: nat -> Result<Response, string>,
    select: (string, HtmlList.HtmlRules) -> seq<HtmlList.MatchedNode>,
    insertFails: Article -> bool)

  datatype IngestError = SourceNotFound | ItemUrl(error: UrlError)

  const Attempts := 3
  const BackoffMs := 800

  predicate TryRss(kind: SourceType) { kind == RSS || kind == AUTO }
  predicate TryHtml(kind: SourceType) { kind == HTML || kind == AUTO }

  /** One `fetchRss` attempt: the feed read followed by the entry loop. */
  function FeedAttempt(p: Platform, w: World, i: nat): Result<seq<Item>, FeedError> {
    match w.feed(i)
    case Failure(m) => Failure(Network(m))
    case Success(entries) =>
      match Collect(Rss.Entries(entries), Rss.Stepper(p))
      case Success(items) => Success(items)
      case Failure(e) => Failure(EntryUrl(e))
  }

  function FeedCall(p: Platform, w: World): nat -> Result<seq<Item>, FeedError> {
    (i: nat) => FeedAttempt(p, w, i)
  }

  /** What the scrape after a successful page fetch yields; None when it throws. */
  function Scrape(p: Platform, w: World, s: Source, resp: Response): (r: Option<seq<Item>>)
    ensures r.Some? ==> resp.text.Some? && s.rules.Rules? && Text.Truthy(s.rules.rules.itemSelector)
  {
    if resp.text.None? || !s.rules.Rules? || !Text.Truthy(s.rules.rules.itemSelector) then None
    else
      match Collect(w.select(resp.text.value, s.rules.rules), HtmlList.Stepper(p, s.url, s.rules.rules))
      case Success(items) => Some(items)
      case Failure(_) => None
  }

  /** The items gathered for a source and the number of feed reads and page fetches made. */
  datatype Extraction = Extraction(items: seq<Item>, feedCalls: nat, pageCalls: nat)

  /** The feed reads, when the strategy calls for them. */
  function FeedRun(p: Platform, w: World, s: Source): RetryRun<seq<Item>, FeedError> {
    if TryRss(s.kind) then Retry(FeedCall(p, w), Attempts, BackoffMs) else RetryRun(Failure(None), 0, [])
  }

  /** The items the feed gave; none when it was not read or every read failed. */
  function FeedItems(p: Platform, w: World, s: Source): seq<Item> {
    var feed := FeedRun(p, w, s);
    if feed.result.Success? then feed.result.value else []
  }

  function Extract(p: Platform, w: World, s: Source): Extraction {
    var items := FeedItems(p, w, s);
    if |items| == 0 && TryHtml(s.kind) then
      var fetched := Retry(w.page, Attempts, BackoffMs);
      var scraped := if fetched.result.Success? then Scrape(p, w, s, fetched.result.value) else None;
      Extraction(if scraped.Some? then scraped.value else items, FeedRun(p, w, s).calls, fetched.calls)
    else
      Extraction(items, FeedRun(p, w, s).calls, 0)
  }

  /** The article inserted for an item, or the error of canonicalising its URL. */
  function ToArticle(p: Platform, sourceId: string, it: Item, now: int): (r: Result<Article, UrlError>)
    ensures r.Failure? <==> Canonicalize(p, it.url, None).Failure?
    ensures r.Success? ==>
              var c := Canonicalize(p, it.url, None).value;
              && r.value.canonicalUrl == c && r.value.hash == p.sha256(c) && r.value.url == it.url
              && r.value.sourceId == sourceId
              && r.value.title == (if it.title == "" then c else it.title)
              && r.value.publishedAt == (if it.publishedAt.Some? then it.publishedAt.value else JsDate(Some(now)))
  {
    match Canonicalize(p, it.url, None)
    case Failure(e) => Failure(e)
    case Success(c) =>
      Success(Article(sourceId, if it.title == "" then c else it.title, it.url, c, p.sha256(c),
                      if it.publishedAt.Some? then it.publishedAt.value else JsDate(Some(now))))
  }

  function Hashes(store: seq<Article>): set<string> {
    set a | a in store :: a.hash
  }

  /** No two stored articles share a hash (the unique index on `hash`). */
  predicate UniqueHashes(store: seq<Article>) {
    forall i, j :: 0 <= i < j < |store| ==> store[i].hash != store[j].hash
  }

  /** The insert loop: the store afterwards, the count, and the error that aborted the loop, if any. */
  datatype InsertRun = InsertRun(store: seq<Article>, created: nat, error: Option<UrlError>)

  function InsertAll(p: Platform, w: World, sourceId: string, items: seq<Item>, store: seq<Article>, now: int)
    : InsertRun
  {
    if items == [] then InsertRun(store, 0, None)
    else
      var before := InsertAll(p, w, sourceId, items[..|items| - 1], store, now);
      if before.error.Some? then before
      else
        match ToArticle(p, sourceId, items[|items| - 1], now)
        case Failure(e) => InsertRun(before.store, before.created, Some(e))
        case Success(a) =>
          if a.hash in Hashes(before.store) || w.insertFails(a) then before
          else InsertRun(before.store + [a], before.created + 1, None)
  }

  /** The extraction step of `ingestOne`: read the feed and/or scrape the page, as the strategy says, swallowing every failure. */
  method ExtractItems(p: Platform, w: World, source: Source)
    returns (items: seq<Item>, feedCalls: nat, pageCalls: nat)
    ensures Extraction(items, feedCalls, pageCalls) == Extract(p, w, source)
  {
    items, feedCalls, pageCalls := [], 0, 0;
    if TryRss(source.kind) {
      var feed, delays;
      feed, feedCalls, delays := FetchWithRetry(FeedCall(p, w), Attempts, BackoffMs);
      if feed.Success? {
        items := feed.value;
      }
    }
    if |items| == 0 && TryHtml(source.kind) {
      var fetched, delays;
      fetched, pageCalls, delays := FetchWithRetry(w.page, Attempts, BackoffMs);
      if fetched.Success? && fetched.value.text.Some? && source.rules.Rules?
         && Text.Truthy(source.rules.rules.itemSelector) {
        var rules := source.rules.rules;
        var nodes := w.select(fetched.value.text.value, rules);
        var scraped := HtmlList.ScrapeHtmlList(p, source.url, rules, nodes);
        if scraped.Success? {
          items := scraped.value;
        }
      }
    }
  }

  /** The insert loop of `ingestOne`: insert one article per item, counting the inserts that succeed. */
  method InsertItems(p: Platform, w: World, sourceId: string, items: seq<Item>, store: seq<Article>, now: int)
    returns (newStore: seq<Article>, created: nat, error: Option<UrlError>)
    ensures InsertRun(newStore, created, error) == InsertAll(p, w, sourceId, items, store, now)
  {
    newStore, created := store, 0;
    for i := 0 to |items|
      invariant InsertAll(p, w, sourceId, items[..i], store, now) == InsertRun(newStore, created, None)
    {
      newStore, created, error := InsertItem(p, w, sourceId, items, store, now, i, newStore, created);
      if error.Some? {
        return;
      }
    }
    assert items[..|items|] == items;
    error := None;
  }

  /**
   * One pass of the insert loop, at item `i`: a URL that does not canonicalise
   * aborts the loop; a new hash is inserted unless the insert fails.
   */
  method InsertItem(p: Platform, w: World, sourceId: string, items: seq<Item>, store: seq<Article>, now: int,
                    i: nat, oldStore: seq<Article>, oldCreated: nat)
    returns (newStore: seq<Article>, created: nat, error: Option<UrlError>)
    requires i < |items|
    requires InsertAll(p, w, sourceId, items[..i], store, now) == InsertRun(oldStore, oldCreated, None)
    ensures error.None? ==> InsertAll(p, w, sourceId, items[..i + 1], store, now) == InsertRun(newStore, created, None)
    ensures error.Some? ==> InsertAll(p, w, sourceId, items, store, now) == InsertRun(newStore, created, error)
  {
    newStore, created, error := oldStore, oldCreated, None;
    var article := ToArticle(p, sourceId, items[i], now);
    if article.Failure? {
      InsertStopsAt(p, w, sourceId, items, store, now, i);
      return oldStore, oldCreated, Some(article.error);
    }
    var a := article.value;
    InsertStep(p, w, sourceId, items, store, now, i);
    if a.hash !in Hashes(newStore) && !w.insertFails(a) {
      newStore := newStore + [a];
      created := created + 1;
    }
  }

  /** `ingestOne(sourceId)`, run at time `now`. */
  method IngestOne(p: Platform, w: World, sources: map<string, Source>, store: seq<Article>,
                   sourceId: string, now: int)
    returns (r: Result<nat, IngestError>, newSources: map<string, Source>, newStore: seq<Article>,
             feedCalls: nat, pageCalls: nat)
    ensures sourceId !in sources ==>
              r == Failure(SourceNotFound) && newSources == sources && newStore == store
              && feedCalls == 0 && pageCalls == 0
    ensures sourceId in sources && !(sources[sourceId].enabled && Robots.Verdict(w.robots)) ==>
              r == Success(0) && newSources == sources && newStore == store && feedCalls == 0 && pageCalls == 0
    ensures sourceId in sources && sources[sourceId].enabled && Robots.Verdict(w.robots) ==>
              var s := sources[sourceId];
              var ex := Extract(p, w, s);
              var ins := InsertAll(p, w, sourceId, ex.items, store, now);
              && feedCalls == ex.feedCalls && pageCalls == ex.pageCalls && newStore == ins.store
              && (ins.error.None? ==> r == Success(ins.created)
                                      && newSources == sources[sourceId := s.(lastFetched := Some(now))])
              && (ins.error.Some? ==> r == Failure(ItemUrl(ins.error.value)) && newSources == sources)
  {
    newSources, newStore, feedCalls, pageCalls := sources, store, 0, 0;
    if sourceId !in sources {
      return Failure(SourceNotFound), newSources, newStore, feedCalls, pageCalls;
    }
    var source := sources[sourceId];
    if !source.enabled {
      return Success(0), newSources, newStore, feedCalls, pageCalls;
    }
    var allowed := Robots.IsAllowed(w.robots);
    if !allowed {
      return Success(0), newSources, newStore, feedCalls, pageCalls;
    }
    var items;
    items, feedCalls, pageCalls := ExtractItems(p, w, source);
    var created, error;
    newStore, created, error := InsertItems(p, w, sourceId, items, store, now);
    if error.Some? {
      return Failure(ItemUrl(error.value)), newSources, newStore, feedCalls, pageCalls;
    }
    newSources := sources[sourceId := source.(lastFetched := Some(now))];
    r := Success(created);
  }

  /** One more item that canonicalises: it is inserted unless its hash is stored or the insert fails. */
  lemma InsertStep(p: Platform, w: World, sourceId: string, items: seq<Item>, store: seq<Article>, now: int, i: nat)
    requires i < |items| && ToArticle(p, sourceId, items[i], now).Success?
    requires InsertAll(p, w, sourceId, items[..i], store, now).error.None?
    ensures var before := InsertAll(p, w, sourceId, items[..i], store, now);
            var a := ToArticle(p, sourceId, items[i], now).value;
            InsertAll(p, w, sourceId, items[..i + 1], store, now)
              == if a.hash in Hashes(before.store) || w.insertFails(a) then before
                 else InsertRun(before.store + [a], before.created + 1, None)
  {
    assert items[..i + 1][..i] == items[..i];
  }

  /** An item whose URL does not canonicalise aborts the loop, whatever follows it. */
  lemma {:induction false} InsertStopsAt(p: Platform, w: World, sourceId: string, items: seq<Item>,
                                         store: seq<Article>, now: int, k: nat)
    requires k < |items| && ToArticle(p, sourceId, items[k], now).Failure?
    requires InsertAll(p, w, sourceId, items[..k], store, now).error.None?
    ensures var before := InsertAll(p, w, sourceId, items[..k], store, now);
            InsertAll(p, w, sourceId, items, store, now)
              == InsertRun(before.store, before.created, Some(ToArticle(p, sourceId, items[k], now).error))
    decreases |items|
  {
    if |items| == k + 1 {
      assert items[..|items| - 1] == items[..k];
    } else {
      assert items[..|items| - 1][..k] == items[..k];
      InsertStopsAt(p, w, sourceId, items[..|items| - 1], store, now, k);
    }
  }

  /**
   * The strategy: the feed is read (at most three times) only for RSS and
   * AUTO sources; the page is fetched (at most three times) only for HTML and
   * AUTO sources, and only when the feed gave no items.
   */
  lemma StrategyChoice(p: Platform, w: World, s: Source)
    ensures var ex := Extract(p, w, s);
            && ex.feedCalls <= Attempts && ex.pageCalls <= Attempts
            && (ex.feedCalls > 0 <==> TryRss(s.kind))
            && (s.kind == HTML ==> ex.feedCalls == 0)
            && (s.kind == RSS ==> ex.pageCalls == 0)
            && (ex.pageCalls > 0 <==> TryHtml(s.kind) && FeedItems(p, w, s) == [])
  {
    RetryMeaning(FeedCall(p, w), Attempts, BackoffMs);
    RetryMeaning(w.page, Attempts, BackoffMs);
  }

  /**
   * A failed scrape — including a source without an item selector — leaves
   * an HTML source with no items, and an AUTO source with the (empty) list
   * its feed gave.
   */
  lemma ScrapeFailureSwallowed(p: Platform, w: World, s: Source)
    requires !(s.rules.Rules? && Text.Truthy(s.rules.rules.itemSelector))
    ensures Extract(p, w, s).items == FeedItems(p, w, s)
    ensures s.kind == HTML ==> Extract(p, w, s).items == []
  {
  }

  /** The loop only appends, one article per created item, so `created` is at most the number of items. */
  lemma {:induction false} InsertAllGrows(p: Platform, w: World, sourceId: string, items: seq<Item>,
                                          store: seq<Article>, now: int)
    ensures var ins := InsertAll(p, w, sourceId, items, store, now);
            && ins.created <= |items|
            && |ins.store| == |store| + ins.created
            && ins.store[..|store|] == store
    decreases |items|
  {
    if items != [] {
      var init := items[..|items| - 1];
      InsertAllGrows(p, w, sourceId, init, store, now);
      var before := InsertAll(p, w, sourceId, init, store, now);
      var ins := InsertAll(p, w, sourceId, items, store, now);
      if ins.store != before.store {
        assert ins.store[..|store|] == before.store[..|store|];
      }
    }
  }

  /**
   * Every appended article is the article of one of the items, its hash was
   * not stored before it, and its insert did not fail.
   */
  lemma {:induction false} InsertAllNew(p: Platform, w: World, sourceId: string, items: seq<Item>,
                                        store: seq<Article>, now: int, j: nat)
    requires var ins := InsertAll(p, w, sourceId, items, store, now); |store| <= j < |ins.store|
    ensures var ins := InsertAll(p, w, sourceId, items, store, now);
            && ins.store[j].hash !in Hashes(ins.store[..j]) && !w.insertFails(ins.store[j])
            && exists it :: it in items && ToArticle(p, sourceId, it, now) == Success(ins.store[j])
    decreases |items|
  {
    var init := items[..|items| - 1];
    var before := InsertAll(p, w, sourceId, init, store, now);
    var ins := InsertAll(p, w, sourceId, items, store, now);
    InsertAllGrows(p, w, sourceId, init, store, now);
    if j < |before.store| {
      InsertAllNew(p, w, sourceId, init, store, now, j);
      assert ins.store[..|before.store|] == before.store;
      assert ins.store[..j] == before.store[..j];
      var it :| it in init && ToArticle(p, sourceId, it, now) == Success(before.store[j]);
      assert it in items;
    } else {
      var last := items[|items| - 1];
      assert last in items;
      assert ins.store == before.store + [ins.store[j]] && ToArticle(p, sourceId, last, now) == Success(ins.store[j]);
      assert ins.store[..j] == before.store;
    }
  }

  /** The loop keeps the stored hashes unique. */
  lemma {:induction false} InsertAllUnique(p: Platform, w: World, sourceId: string, items: seq<Item>,
                                           store: seq<Article>, now: int)
    requires UniqueHashes(store)
    ensures UniqueHashes(InsertAll(p, w, sourceId, items, store, now).store)
    decreases |items|
  {
    if items != [] {
      var init := items[..|items| - 1];
      InsertAllUnique(p, w, sourceId, init, store, now);
      var before := InsertAll(p, w, sourceId, init, store, now);
      var ins := InsertAll(p, w, sourceId, items, store, now);
      if ins.store != before.store {
        forall i, j | 0 <= i < j < |ins.store| ensures ins.store[i].hash != ins.store[j].hash {
          if j == |before.store| {
            assert ins.store[i] in before.store;
          }
        }
      }
    }
  }

  /** The item's URL canonicalises and its article's hash is among `hashes`. */
  predicate HashStored(p: Platform, sourceId: string, it: Item, now: int, hashes: set<string>) {
    ToArticle(p, sourceId, it, now).Success? && ToArticle(p, sourceId, it, now).value.hash in hashes
  }

  /** Inserting the item's article, if it has one, does not fail. */
  predicate InsertSucceeds(p: Platform, w: World, sourceId: string, it: Item, now: int) {
    ToArticle(p, sourceId, it, now).Success? ==> !w.insertFails(ToArticle(p, sourceId, it, now).value)
  }

  /**
   * Running the loop over items whose URLs all canonicalise and whose hashes
   * are all stored already creates nothing and changes nothing, whichever
   * inserts would fail: each insert meets the unique index on `hash`.
   */
  lemma {:induction false} StoredHashesCreateNothing(p: Platform, w: World, sourceId: string, items: seq<Item>,
                                                     later: seq<Article>, now: int)
    requires forall i :: 0 <= i < |items| ==> HashStored(p, sourceId, items[i], now, Hashes(later))
    ensures InsertAll(p, w, sourceId, items, later, now) == InsertRun(later, 0, None)
    decreases |items|
  {
    if items != [] {
      var init := items[..|items| - 1];
      assert forall i :: 0 <= i < |init| ==> init[i] == items[i];
      StoredHashesCreateNothing(p, w, sourceId, init, later, now);
      assert HashStored(p, sourceId, items[|items| - 1], now, Hashes(later));
    }
  }

  /**
   * The clock only supplies the default publication date: whether an item's
   * URL canonicalises, and the article's hash, do not depend on it.
   */
  lemma ToArticleAnyTime(p: Platform, sourceId: string, it: Item, now1: int, now2: int)
    ensures ToArticle(p, sourceId, it, now1).Success? == ToArticle(p, sourceId, it, now2).Success?
    ensures ToArticle(p, sourceId, it, now1).Success? ==>
              ToArticle(p, sourceId, it, now2).value
              == ToArticle(p, sourceId, it, now1).value.(publishedAt := ToArticle(p, sourceId, it, now2).value.publishedAt)
  {
  }

  /** A stored hash stays stored whenever the item is seen again. */
  lemma HashStoredAnyTime(p: Platform, sourceId: string, it: Item, now1: int, now2: int, hashes: set<string>)
    requires HashStored(p, sourceId, it, now1, hashes)
    ensures HashStored(p, sourceId, it, now2, hashes)
  {
    ToArticleAnyTime(p, sourceId, it, now1, now2);
  }

  /** The insert of the item's article fails at `now2` exactly when it failed at `now1`. */
  predicate SameInsertOutcome(p: Platform, w: World, sourceId: string, it: Item, now1: int, now2: int) {
    ToArticle(p, sourceId, it, now1).Success? && ToArticle(p, sourceId, it, now2).Success? ==>
      (w.insertFails(ToArticle(p, sourceId, it, now2).value) <==> w.insertFails(ToArticle(p, sourceId, it, now1).value))
  }

  /**
   * Re-running the loop over the same items at a later time, with the same
   * insert outcomes, against a store that already holds every hash the first
   * run stored creates nothing and changes nothing.
   */
  lemma {:induction false} RerunCreatesNothing(p: Platform, w: World, sourceId: string, items: seq<Item>,
                                               store: seq<Article>, later: seq<Article>, now1: int, now2: int)
    requires InsertAll(p, w, sourceId, items, store, now1).error.None?
    requires Hashes(InsertAll(p, w, sourceId, items, store, now1).store) <= Hashes(later)
    requires forall i :: 0 <= i < |items| ==> SameInsertOutcome(p, w, sourceId, items[i], now1, now2)
    ensures InsertAll(p, w, sourceId, items, later, now2) == InsertRun(later, 0, None)
    decreases |items|
  {
    if items != [] {
      var init := items[..|items| - 1];
      var before := InsertAll(p, w, sourceId, init, store, now1);
      var ins := InsertAll(p, w, sourceId, items, store, now1);
      assert Hashes(before.store) <= Hashes(ins.store) by {
        if ins.store != before.store {
          forall a | a in before.store ensures a in ins.store { }
        }
      }
      assert forall i :: 0 <= i < |init| ==> init[i] == items[i];
      RerunCreatesNothing(p, w, sourceId, init, store, later, now1, now2);
      var last := items[|items| - 1];
      ToArticleAnyTime(p, sourceId, last, now1, now2);
      assert SameInsertOutcome(p, w, sourceId, last, now1, now2);
      var a := ToArticle(p, sourceId, last, now1).value;
      if ins.store != before.store {
        assert ins.store[|before.store|] == a;
      }
    }
  }

  /**
   * In particular, running the loop again later, with the same insert
   * outcomes, creates nothing the second time.
   */
  lemma SecondRunCreatesNothing(p: Platform, w: World, sourceId: string, items: seq<Item>,
                                store: seq<Article>, now1: int, now2: int)
    requires InsertAll(p, w, sourceId, items, store, now1).error.None?
    requires forall i :: 0 <= i < |items| ==> SameInsertOutcome(p, w, sourceId, items[i], now1, now2)
    ensures var first := InsertAll(p, w, sourceId, items, store, now1);
            InsertAll(p, w, sourceId, items, first.store, now2) == InsertRun(first.store, 0, None)
  {
    RerunCreatesNothing(p, w, sourceId, items, store, InsertAll(p, w, sourceId, items, store, now1).store, now1, now2);
  }

  /**
   * A run without error in which no insert fails leaves every item's hash in
   * the store: every item was inserted, or met its hash already stored.
   */
  lemma EveryHashStored(p: Platform, w: World, sourceId: string, items: seq<Item>, store: seq<Article>, now: int)
    requires InsertAll(p, w, sourceId, items, store, now).error.None?
    requires forall i :: 0 <= i < |items| ==> InsertSucceeds(p, w, sourceId, items[i], now)
    ensures forall i :: 0 <= i < |items| ==>
              HashStored(p, sourceId, items[i], now, Hashes(InsertAll(p, w, sourceId, items, store, now).store))
  {
    forall i | 0 <= i < |items|
      ensures HashStored(p, sourceId, items[i], now, Hashes(InsertAll(p, w, sourceId, items, store, now).store))
    {
      HashStoredAt(p, w, sourceId, items, store, now, i);
    }
  }

  /** Item `i` of such a run: stored by its own pass, and kept by every later one. */
  lemma {:induction false} HashStoredAt(p: Platform, w: World, sourceId: string, items: seq<Item>,
                                        store: seq<Article>, now: int, i: nat)
    requires i < |items| && InsertAll(p, w, sourceId, items, store, now).error.None?
    requires InsertSucceeds(p, w, sourceId, items[i], now)
    ensures HashStored(p, sourceId, items[i], now, Hashes(InsertAll(p, w, sourceId, items, store, now).store))
    decreases |items|
  {
    LastStepKeepsHashes(p, w, sourceId, items, store, now);
    if i < |items| - 1 {
      var init := items[..|items| - 1];
      assert init[i] == items[i];
      HashStoredAt(p, w, sourceId, init, store, now, i);
      HashStoredGrows(p, sourceId, items[i], now, Hashes(InsertAll(p, w, sourceId, init, store, now).store),
                      Hashes(InsertAll(p, w, sourceId, items, store, now).store));
    }
  }

  lemma HashStoredGrows(p: Platform, sourceId: string, it: Item, now: int, had: set<string>, has: set<string>)
    requires had <= has && HashStored(p, sourceId, it, now, had)
    ensures HashStored(p, sourceId, it, now, has)
  {
  }

  /**
   * The last pass of a run without error keeps every stored hash and, when
   * its insert does not fail, leaves its own hash stored.
   */
  lemma LastStepKeepsHashes(p: Platform, w: World, sourceId: string, items: seq<Item>, store: seq<Article>, now: int)
    requires items != [] && InsertAll(p, w, sourceId, items, store, now).error.None?
    ensures var before := InsertAll(p, w, sourceId, items[..|items| - 1], store, now);
            var ins := InsertAll(p, w, sourceId, items, store, now);
            && Hashes(before.store) <= Hashes(ins.store)
            && (InsertSucceeds(p, w, sourceId, items[|items| - 1], now) ==>
                  HashStored(p, sourceId, items[|items| - 1], now, Hashes(ins.store)))
  {
    var before := InsertAll(p, w, sourceId, items[..|items| - 1], store, now);
    var ins := InsertAll(p, w, sourceId, items, store, now);
    var a := ToArticle(p, sourceId, items[|items| - 1], now).value;
    if ins.store != before.store {
      assert ins.store == before.store + [a];
      assert ins.store[|before.store|] == a;
    }
  }

  /**
   * A second run over the same items, at any later time, after a first run
   * in which every insert succeeded or met a stored hash creates nothing,
   * whatever inserts would fail in the second run.
   */
  lemma SecondRunInAnyWorld(p: Platform, w1: World, w2: World, sourceId: string, items: seq<Item>,
                            store: seq<Article>, now1: int, now2: int)
    requires InsertAll(p, w1, sourceId, items, store, now1).error.None?
    requires forall i :: 0 <= i < |items| ==> InsertSucceeds(p, w1, sourceId, items[i], now1)
    ensures var first := InsertAll(p, w1, sourceId, items, store, now1);
            InsertAll(p, w2, sourceId, items, first.store, now2) == InsertRun(first.store, 0, None)
  {
    var first := InsertAll(p, w1, sourceId, items, store, now1);
    EveryHashStored(p, w1, sourceId, items, store, now1);
    forall i | 0 <= i < |items|
      ensures HashStored(p, sourceId, items[i], now2, Hashes(first.store))
    {
      HashStoredAnyTime(p, sourceId, items[i], now1, now2, Hashes(first.store));
    }
    StoredHashesCreateNothing(p, w2, sourceId, items, first.store, now2);
  }
}
