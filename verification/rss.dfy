/**
 * The item loop of `fetchRss` (src/lib/ingest/rss.ts).  Fetching and parsing
 * the feed belong to rss-parser; the model starts from the parsed entries.
 */
module Rss {
  import opened Wrappers
  import opened Text
  import opened Normalize
  import opened Items

  /** One parsed feed entry; every field may be missing. */
  datatype FeedEntry = FeedEntry(link: Option<string>, guid: Option<string>, title: Option<string>,
                                 isoDate: Option<string>, pubDate: Option<string>)

  /** `it.link || it.guid || ''` */
  function EntryLink(e: FeedEntry): (link: string)
    ensures Truthy(e.link) ==> link == e.link.value
    ensures !Truthy(e.link) && Truthy(e.guid) ==> link == e.guid.value
    ensures link == "" <==> !Truthy(e.link) && !Truthy(e.guid)
  {
    if Truthy(e.link) then e.link.value else if Truthy(e.guid) then e.guid.value else ""
  }

  /** `it.isoDate ? new Date(it.isoDate) : it.pubDate ? new Date(it.pubDate) : undefined` */
  function EntryDate(p: Platform, e: FeedEntry): (d: Option<JsDate>)
    ensures Truthy(e.isoDate) ==> d == Some(JsDate(p.parseDate(e.isoDate.value)))
    ensures !Truthy(e.isoDate) && Truthy(e.pubDate) ==> d == Some(JsDate(p.parseDate(e.pubDate.value)))
    ensures d == None <==> !Truthy(e.isoDate) && !Truthy(e.pubDate)
  {
    if Truthy(e.isoDate) then Some(JsDate(p.parseDate(e.isoDate.value)))
    else if Truthy(e.pubDate) then Some(JsDate(p.parseDate(e.pubDate.value)))
    else None
  }

  /** One iteration of the loop over `feed.items`. */
  function EntryStep(p: Platform, e: FeedEntry): Step<Item, UrlError> {
    var link := EntryLink(e);
    if link == "" then Skip
    else
      var title := Trim(e.title.GetOr(""));
      match Canonicalize(p, link, None)
      case Failure(err) => Throw(err)
      case Success(url) => Emit(Item(title, url, EntryDate(p, e)))
  }

  function Stepper(p: Platform): FeedEntry -> Step<Item, UrlError> {
    e => EntryStep(p, e)
  }

  /** `feed.items || []` */
  function Entries(items: Option<seq<FeedEntry>>): seq<FeedEntry> {
    items.GetOr([])
  }

  /** The loop of `fetchRss`: push one item per entry that has a link; a bad URL throws. */
  method FetchRss(p: Platform, items: Option<seq<FeedEntry>>) returns (r: Result<seq<Item>, UrlError>)
    ensures r == Collect(Entries(items), Stepper(p))
  {
    var entries := Entries(items);
    var out: seq<Item> := [];
    for i := 0 to |entries|
      invariant Collect(entries[..i], Stepper(p)) == Success(out)
    {
      assert entries[..i + 1][..i] == entries[..i];
      var e := entries[i];
      var link := EntryLink(e);
      if link == "" {
        continue;
      }
      var title := Trim(e.title.GetOr(""));
      var publishedAt := EntryDate(p, e);
      var canonical := Canonicalize(p, link, None);
      if canonical.Failure? {
        CollectStopsAt(entries, Stepper(p), i);
        return Failure(canonical.error);
      }
      out := out + [Item(title, canonical.value, publishedAt)];
    }
    assert entries[..|entries|] == entries;
    r := Success(out);
  }

  /**
   * What a successful feed read yields: at most one item per entry, in feed
   * order; each from an entry with a link or guid, with the canonical form of
   * that link, the trimmed title (empty when missing) and the preferred date.
   */
  lemma FeedItems(p: Platform, items: Option<seq<FeedEntry>>, it: Item)
    requires Collect(Entries(items), Stepper(p)).Success?
    requires it in Collect(Entries(items), Stepper(p)).value
    ensures |Collect(Entries(items), Stepper(p)).value| <= |Entries(items)|
    ensures exists e :: e in Entries(items) && EntryLink(e) != ""
                        && Canonicalize(p, EntryLink(e), None) == Success(it.url)
                        && it.title == Trim(e.title.GetOr(""))
                        && it.publishedAt == EntryDate(p, e)
  {
    var xs := Entries(items);
    CollectMeaning(xs, Stepper(p));
    EmittedFrom(xs, Stepper(p), it);
    var i :| 0 <= i < |xs| && Stepper(p)(xs[i]) == Emit(it);
    assert xs[i] in xs;
  }

  /** A feed whose item list is missing yields no items. */
  lemma MissingItemList(p: Platform)
    ensures Collect(Entries(None), Stepper(p)) == Success([])
  {
  }

  /** An entry with neither link nor guid is skipped; one with either never is. */
  lemma SkippedEntries(p: Platform, e: FeedEntry)
    ensures EntryStep(p, e).Skip? <==> !Truthy(e.link) && !Truthy(e.guid)
  {
  }
}
