/**
 * The per-node loop of `scrapeHtmlList` (src/lib/ingest/html.ts).  Selector
 * evaluation belongs to cheerio: the model receives the nodes `itemSelector`
 * matched, each with the first match of every rule selector inside it.
 */
module HtmlList {
  import opened Wrappers
  import opened Text
  import opened Normalize
  import opened Items

  /** The scraping rules of a source; every field may be missing. */
  datatype HtmlRules = HtmlRules(itemSelector: Option<string>, titleSelector: Option<string>,
                                 linkSelector: Option<string>, linkAttr: Option<string>,
                                 dateSelector: Option<string>, dateAttr: Option<string>)

  datatype Element = Element(attrs: map<string, string>, text: string)

  /**
   * A node matched by `itemSelector`.  Each field is the first element, inside
   * the node, matched by `linkSelector`, by `a`, by `titleSelector` and by
   * `dateSelector`; None stands for an empty selection.
   */
  datatype MatchedNode = MatchedNode(linkMatch: Option<Element>, firstAnchor: Option<Element>,
                                     titleMatch: Option<Element>, dateMatch: Option<Element>)

  /** cheerio `.attr(name)`: undefined for an empty selection or a missing attribute. */
  function Attr(el: Option<Element>, name: string): (v: Option<string>)
    ensures v.Some? <==> el.Some? && name in el.value.attrs
  {
    if el.Some? && name in el.value.attrs then Some(el.value.attrs[name]) else None
  }

  /** cheerio `.text()`: the empty string for an empty selection. */
  function TextOf(el: Option<Element>): (t: string)
    ensures el.None? ==> t == ""
  {
    if el.Some? then el.value.text else ""
  }

  /** The first match of `linkSelector` when one is given, otherwise the node's first anchor. */
  function LinkElement(rules: HtmlRules, node: MatchedNode): (el: Option<Element>)
    ensures Truthy(rules.linkSelector) ==> el == node.linkMatch
    ensures !Truthy(rules.linkSelector) ==> el == node.firstAnchor
  {
    if Truthy(rules.linkSelector) then node.linkMatch else node.firstAnchor
  }

  /** `rules.linkAttr || 'href'` */
  function LinkAttrName(rules: HtmlRules): (name: string)
    ensures !Truthy(rules.linkAttr) ==> name == "href"
    ensures Truthy(rules.linkAttr) ==> name == rules.linkAttr.value
  {
    if Truthy(rules.linkAttr) then rules.linkAttr.value else "href"
  }

  /** The trimmed text of the title match when `titleSelector` is given, else of the link. */
  function NodeTitle(rules: HtmlRules, node: MatchedNode): string {
    if Truthy(rules.titleSelector) then Trim(TextOf(node.titleMatch))
    else Trim(TextOf(LinkElement(rules, node)))
  }

  /** The raw date: the `dateAttr` attribute of the date match when given, else its text. */
  function RawDate(rules: HtmlRules, node: MatchedNode): Option<string> {
    if Truthy(rules.dateAttr) then Attr(node.dateMatch, rules.dateAttr.value)
    else Some(TextOf(node.dateMatch))
  }

  /** publishedAt: set only with a `dateSelector` and a raw value that parses. */
  function NodeDate(p: Platform, rules: HtmlRules, node: MatchedNode): (d: Option<JsDate>)
    ensures d.Some? <==> Truthy(rules.dateSelector) && ToDateSafe(p, Some(RawDate(rules, node).GetOr(""))).Some?
    ensures d.Some? ==> d.value.time.Some?
  {
    if Truthy(rules.dateSelector) then
      match ToDateSafe(p, Some(RawDate(rules, node).GetOr("")))
      case Some(t) => Some(JsDate(Some(t)))
      case None => None
    else None
  }

  /** `linkEl.attr(rules.linkAttr || 'href')` */
  function Href(rules: HtmlRules, node: MatchedNode): Option<string> {
    Attr(LinkElement(rules, node), LinkAttrName(rules))
  }

  /** One call of the `.each` callback. */
  function NodeStep(p: Platform, pageUrl: string, rules: HtmlRules, node: MatchedNode): Step<Item, UrlError> {
    var href := Href(rules, node);
    if !Truthy(href) then Skip
    else
      match Canonicalize(p, href.value, Some(pageUrl))
      case Failure(err) => Throw(err)
      case Success(url) =>
        var title := NodeTitle(rules, node);
        if title != "" && url != "" then Emit(Item(title, url, NodeDate(p, rules, node))) else Skip
  }

  function Stepper(p: Platform, pageUrl: string, rules: HtmlRules): MatchedNode -> Step<Item, UrlError> {
    node => NodeStep(p, pageUrl, rules, node)
  }

  /** `scrapeHtmlList`: push one item per matched node with a link, a title and a URL. */
  method ScrapeHtmlList(p: Platform, pageUrl: string, rules: HtmlRules, nodes: seq<MatchedNode>)
    returns (r: Result<seq<Item>, UrlError>)
    ensures r == Collect(nodes, Stepper(p, pageUrl, rules))
  {
    var out: seq<Item> := [];
    for i := 0 to |nodes|
      invariant Collect(nodes[..i], Stepper(p, pageUrl, rules)) == Success(out)
    {
      assert nodes[..i + 1][..i] == nodes[..i];
      var node := nodes[i];
      var linkEl := LinkElement(rules, node);
      var href := Attr(linkEl, LinkAttrName(rules));
      if !Truthy(href) {
        continue;
      }
      var url := Canonicalize(p, href.value, Some(pageUrl));
      if url.Failure? {
        CollectStopsAt(nodes, Stepper(p, pageUrl, rules), i);
        return Failure(url.error);
      }
      var title := NodeTitle(rules, node);
      var publishedAt: Option<JsDate> := None;
      if Truthy(rules.dateSelector) {
        var raw := RawDate(rules, node);
        var d := ToDateSafe(p, Some(raw.GetOr("")));
        if d.Some? {
          publishedAt := Some(JsDate(d));
        }
      }
      if title != "" && url.value != "" {
        out := out + [Item(title, url.value, publishedAt)];
      }
    }
    assert nodes[..|nodes|] == nodes;
    r := Success(out);
  }

  /**
   * What a successful scrape yields: at most one item per node, in node order;
   * each from a node whose link element carries the link attribute, with that
   * value resolved against the page URL and canonicalised, a non-empty title
   * and URL, and a date only when it parses.
   */
  lemma ScrapedItems(p: Platform, pageUrl: string, rules: HtmlRules, nodes: seq<MatchedNode>, it: Item)
    requires Collect(nodes, Stepper(p, pageUrl, rules)).Success?
    requires it in Collect(nodes, Stepper(p, pageUrl, rules)).value
    ensures |Collect(nodes, Stepper(p, pageUrl, rules)).value| <= |nodes|
    ensures it.title != "" && it.url != ""
    ensures exists node :: node in nodes
              && Truthy(Href(rules, node))
              && Canonicalize(p, Href(rules, node).value, Some(pageUrl)) == Success(it.url)
              && it.title == NodeTitle(rules, node)
              && it.publishedAt == NodeDate(p, rules, node)
  {
    CollectMeaning(nodes, Stepper(p, pageUrl, rules));
    EmittedFrom(nodes, Stepper(p, pageUrl, rules), it);
    var i :| 0 <= i < |nodes| && Stepper(p, pageUrl, rules)(nodes[i]) == Emit(it);
    var node := nodes[i];
    assert NodeStep(p, pageUrl, rules, node) == Emit(it);
    assert node in nodes && Truthy(Href(rules, node));
  }

  /** A node whose link element lacks the link attribute is skipped. */
  lemma NodeWithoutLink(p: Platform, pageUrl: string, rules: HtmlRules, node: MatchedNode)
    requires !Truthy(Href(rules, node))
    ensures NodeStep(p, pageUrl, rules, node) == Skip
  {
  }
}
