/**
 * The CSV export of a saved view (src/app/api/export.csv/route.ts). The handler
 * looks the view up by the `viewId` query parameter, turns the view's saved
 * filter into an article query, and writes the matching articles as CSV: a
 * header line, then one line per article in query order, joined by "\n". Title
 * and source name are quoted with every `"` doubled (RFC 4180, section 2,
 * rule 7); the canonical URL is written as it is; the publication time is
 * written in ISO 8601 form, or left empty when there is none.
 *
 * The database is a parameter: `query` returns the articles a query admits,
 * newest first. The clock reading `now` and the ISO formatter `iso` are
 * parameters as well.
 */
module Export {
  import opened Wrappers
  import opened Text

  /** A view's saved filter, as its JSON text parses; an absent key is `None`. */
  datatype ViewFilter = ViewFilter(
    sources: Option<seq<string>>,
    status: Option<string>,
    lang: Option<string>,
    q: Option<string>,
    fromHours: Option<int>)

  /** What a view whose filter column is null stands for: the empty object. */
  const NoFilter: ViewFilter := ViewFilter(None, None, None, None, None)

  datatype SavedView = SavedView(filter: Option<ViewFilter>)

  /** An article joined with its source, as the query returns it. Times are milliseconds. */
  datatype ArticleRow = ArticleRow(
    sourceId: string,
    sourceName: Option<string>,
    title: Option<string>,
    canonicalUrl: string,
    status: string,
    language: Option<string>,
    publishedAt: Option<int>)

  /** The `where` object of the article query; an absent field constrains nothing. */
  datatype ArticleWhere = ArticleWhere(
    sourceIn: Option<seq<string>>,
    status: Option<string>,
    language: Option<string>,
    titleContains: Option<string>,
    publishedFrom: Option<int>)

  const HourMs: int := 3600 * 1000

  /** `q` occurs in `s` at index `i`, ignoring ASCII case. */
  predicate OccursAt(s: string, q: string, i: int) {
    0 <= i && i + |q| <= |s| && Lower(s[i..i + |q|]) == Lower(q)
  }

  ghost predicate ContainsIgnoreCase(s: string, q: string) {
    exists i :: OccursAt(s, q, i)
  }

  /** The rows a `where` object admits: every field it has must hold; a null column fails. */
  ghost predicate Admits(w: ArticleWhere, a: ArticleRow) {
    && (w.sourceIn.None? || a.sourceId in w.sourceIn.value)
    && (w.status.None? || a.status == w.status.value)
    && (w.language.None? || a.language == w.language)
    && (w.titleContains.None? || (a.title.Some? && ContainsIgnoreCase(a.title.value, w.titleContains.value)))
    && (w.publishedFrom.None? || (a.publishedAt.Some? && a.publishedAt.value >= w.publishedFrom.value))
  }

  /**
   * The rows a saved filter asks for, stated on the filter itself: each key
   * whose value is truthy in JavaScript (a non-empty list or string, a non-zero
   * number of hours) restricts the rows.
   */
  ghost predicate Wanted(f: ViewFilter, now: int, a: ArticleRow) {
    && (f.sources.Some? && f.sources.value != [] ==> a.sourceId in f.sources.value)
    && (Truthy(f.status) ==> a.status == f.status.value)
    && (Truthy(f.lang) ==> a.language == f.lang)
    && (Truthy(f.q) ==> a.title.Some? && ContainsIgnoreCase(a.title.value, f.q.value))
    && (f.fromHours.Some? && f.fromHours.value != 0 ==>
          a.publishedAt.Some? && a.publishedAt.value >= now - f.fromHours.value * HourMs)
  }

  /** The `where` object a filter produces: a field for every truthy key and no other. */
  function Constraints(f: ViewFilter, now: int): (w: ArticleWhere)
    ensures w.sourceIn.Some? <==> f.sources.Some? && f.sources.value != []
    ensures w.status.Some? <==> Truthy(f.status)
    ensures w.language.Some? <==> Truthy(f.lang)
    ensures w.titleContains.Some? <==> Truthy(f.q)
    ensures w.publishedFrom.Some? <==> f.fromHours.Some? && f.fromHours.value != 0
  {
    ArticleWhere(
      if f.sources.Some? && f.sources.value != [] then f.sources else None,
      if Truthy(f.status) then f.status else None,
      if Truthy(f.lang) then f.lang else None,
      if Truthy(f.q) then f.q else None,
      if f.fromHours.Some? && f.fromHours.value != 0 then Some(now - f.fromHours.value * HourMs) else None)
  }

  /** The query built from a filter admits exactly the rows the filter asks for. */
  lemma ConstraintsMeaning(f: ViewFilter, now: int, a: ArticleRow)
    ensures Admits(Constraints(f, now), a) <==> Wanted(f, now, a)
  {
  }

  /** An empty filter admits every row. */
  lemma NoFilterAdmitsAll(now: int, a: ArticleRow)
    ensures Admits(Constraints(NoFilter, now), a)
  {
  }

  /** Builds the `where` object one key at a time, as the handler does. */
  method BuildWhere(f: ViewFilter, now: int) returns (w: ArticleWhere)
    ensures w == Constraints(f, now)
    ensures forall a :: Admits(w, a) <==> Wanted(f, now, a)
  {
    w := ArticleWhere(None, None, None, None, None);
    if f.sources.Some? && |f.sources.value| > 0 {
      w := w.(sourceIn := f.sources);
    }
    if Truthy(f.status) {
      w := w.(status := f.status);
    }
    if Truthy(f.lang) {
      w := w.(language := f.lang);
    }
    if Truthy(f.q) {
      w := w.(titleContains := f.q);
    }
    if f.fromHours.Some? && f.fromHours.value != 0 {
      w := w.(publishedFrom := Some(now - f.fromHours.value * HourMs));
    }
    forall a | true
      ensures Admits(w, a) <==> Wanted(f, now, a)
    {
      ConstraintsMeaning(f, now, a);
    }
  }

  /** `s.replace(/"/g, '""')`: every double quote doubled. */
  function Escape(s: string): (r: string)
    ensures |r| >= |s|
  {
    if s == [] then []
    else (if s[0] == '"' then "\"\"" else [s[0]]) + Escape(s[1..])
  }

  /** The inverse of `Escape`: a pair of quotes stands for one; a lone quote is malformed. */
  function Unescape(s: string): Option<string> {
    if s == [] then Some([])
    else if s[0] != '"' then
      match Unescape(s[1..])
      case Some(rest) => Some([s[0]] + rest)
      case None => None
    else if |s| >= 2 && s[1] == '"' then
      match Unescape(s[2..])
      case Some(rest) => Some(['"'] + rest)
      case None => None
    else None
  }

  /** A title or source name in quotes; a missing or empty value gives `""`. */
  function QuoteField(v: Option<string>): (r: string)
    ensures |r| >= 2 && r[0] == '"' && r[|r| - 1] == '"'
    ensures v.None? || v == Some("") ==> r == "\"\""
  {
    "\"" + Escape(v.GetOr("")) + "\""
  }

  /** Reads a quoted field back: outer quotes stripped, doubled quotes halved. */
  function Unquote(field: string): Option<string> {
    if |field| >= 2 && field[0] == '"' && field[|field| - 1] == '"' then Unescape(field[1..|field| - 1])
    else None
  }

  lemma {:induction false} UnescapeEscape(s: string)
    ensures Unescape(Escape(s)) == Some(s)
    decreases |s|
  {
    if s != [] {
      UnescapeEscape(s[1..]);
      var e := Escape(s);
      if s[0] == '"' {
        assert e == "\"\"" + Escape(s[1..]);
        assert e[2..] == Escape(s[1..]);
        assert Unescape(e) == Some(['"'] + s[1..]);
      } else {
        assert e == [s[0]] + Escape(s[1..]);
        assert e[1..] == Escape(s[1..]);
        assert Unescape(e) == Some([s[0]] + s[1..]);
      }
      assert [s[0]] + s[1..] == s;
    }
  }

  /** Quoting loses nothing: the value comes back from its field. */
  lemma QuoteRoundTrip(v: string)
    ensures Unquote(QuoteField(Some(v))) == Some(v)
  {
    var field := QuoteField(Some(v));
    assert field[1..|field| - 1] == Escape(v);
    UnescapeEscape(v);
  }

  /** The last field: the ISO form of the publication time, or nothing. */
  function Published(at: Option<int>, iso: int -> string): string {
    if at.Some? then iso(at.value) else ""
  }

  function Row(a: ArticleRow, iso: int -> string): string {
    Join([QuoteField(a.title), a.canonicalUrl, QuoteField(a.sourceName), Published(a.publishedAt, iso)], ",")
  }

  /** A row is the quoted title, the URL verbatim, the quoted source name and the time, comma-separated. */
  lemma RowLayout(a: ArticleRow, iso: int -> string)
    ensures Row(a, iso)
      == QuoteField(a.title) + "," + a.canonicalUrl + "," + QuoteField(a.sourceName) + "," + Published(a.publishedAt, iso)
    ensures a.publishedAt.None? ==> Row(a, iso)[|Row(a, iso)| - 1] == ','
  {
    var title, url, name, at := QuoteField(a.title), a.canonicalUrl, QuoteField(a.sourceName), Published(a.publishedAt, iso);
    var fields := [title, url, name, at];
    assert fields[1..] == [url, name, at];
    assert fields[1..][1..] == [name, at];
    assert fields[1..][1..][1..] == [at];
    assert Join([name, at], ",") == name + "," + at;
    assert Join([url, name, at], ",") == url + "," + (name + "," + at);
    assert Join(fields, ",") == title + "," + (url + "," + (name + "," + at));
  }

  /** The column names joined by commas. */
  const Header: string := Join(["Title", "URL", "Source", "Published"], ",")

  lemma HeaderText()
    ensures Header == "Title,URL,Source,Published"
  {
    var names := ["Title", "URL", "Source", "Published"];
    assert names[1..] == ["URL", "Source", "Published"];
    assert names[1..][1..] == ["Source", "Published"];
    assert names[1..][1..][1..] == ["Published"];
  }

  function Rows(items: seq<ArticleRow>, iso: int -> string): (rows: seq<string>)
    ensures |rows| == |items|
  {
    seq(|items|, i requires 0 <= i < |items| => Row(items[i], iso))
  }

  /** The exported text. */
  function Csv(items: seq<ArticleRow>, iso: int -> string): string {
    Join([Header] + Rows(items, iso), "\n")
  }

  /** Each article's line, each preceded by a line break, in query order. */
  function Lines(items: seq<ArticleRow>, iso: int -> string): string {
    if items == [] then "" else "\n" + Row(items[0], iso) + Lines(items[1..], iso)
  }

  lemma {:induction false} JoinLines(first: string, items: seq<ArticleRow>, iso: int -> string)
    ensures Join([first] + Rows(items, iso), "\n") == first + Lines(items, iso)
    decreases |items|
  {
    if items != [] {
      var rows := Rows(items, iso);
      assert rows == [Row(items[0], iso)] + Rows(items[1..], iso);
      JoinLines(Row(items[0], iso), items[1..], iso);
      assert ([first] + rows)[1..] == rows;
      assert Join([first] + rows, "\n") == first + "\n" + Join(rows, "\n");
    }
  }

  /** The export is the header line followed by one line per article, in query order. */
  lemma CsvLayout(items: seq<ArticleRow>, iso: int -> string)
    ensures Csv(items, iso) == Header + Lines(items, iso)
    ensures Csv(items, iso)[..|Header|] == Header
    ensures items == [] ==> Csv(items, iso) == Header
  {
    JoinLines(Header, items, iso);
  }

  datatype ExportResponse =
    | Plain(status: nat, body: string)
    | CsvFile(filename: string, body: string)

  function ViewFilterOf(view: SavedView): ViewFilter {
    view.filter.GetOr(NoFilter)
  }

  /**
   * The handler. A missing or empty `viewId` and an unknown view are answered
   * without querying articles: those responses do not depend on `query`.
   */
  method ExportView(
    viewId: Option<string>, views: map<string, SavedView>,
    query: ArticleWhere -> seq<ArticleRow>, iso: int -> string, now: int)
    returns (resp: ExportResponse)
    ensures !Truthy(viewId) ==> resp == Plain(400, "viewId required")
    ensures Truthy(viewId) && viewId.value !in views ==> resp == Plain(404, "Not found")
    ensures Truthy(viewId) && viewId.value in views ==>
      resp == CsvFile("export-" + viewId.value + ".csv",
                      Csv(query(Constraints(ViewFilterOf(views[viewId.value]), now)), iso))
  {
    if !Truthy(viewId) {
      return Plain(400, "viewId required");
    }
    var id := viewId.value;
    if id !in views {
      return Plain(404, "Not found");
    }
    var where := BuildWhere(ViewFilterOf(views[id]), now);
    var items := query(where);
    resp := CsvFile("export-" + id + ".csv", Csv(items, iso));
  }
}
