/**
 * URL canonicalisation and the content hash (src/lib/ingest/normalize.ts).
 *
 * A URL is a record; parsing (`new URL`), serialisation (`toString`), date
 * parsing (`new Date`) and SHA-256 are supplied by the `Platform` record,
 * whose fields are total functions the model knows nothing about.  Being
 * functions, they are deterministic: equal inputs give equal outputs.
 */
module Normalize {
  import opened Wrappers
  import opened Text

  /**
   * A parsed URL; `scheme` keeps the trailing colon, as `URL.protocol` does,
   * and `port` is "" for the scheme's default port.  `query` is the list of
   * `searchParams`; `rawQuery` is the query text as parsed, which the
   * serialiser writes back as it is, and is None once `searchParams` has
   * rewritten the query in form-urlencoded form from the list.
   */
  datatype Url = Url(scheme: string, host: string, port: string, path: string,
                     query: seq<(string, string)>, rawQuery: Option<string>, fragment: string)

  datatype UrlError = InvalidUrl

  datatype Platform = Platform(
    /** `new URL(raw)` (second argument None) or `new URL(raw, base)`; None when it throws. */
    parseUrl: (string, Option<string>) -> Option<Url>,
    /** `URL.prototype.toString` */
    serializeUrl: Url -> string,
    /** `+new Date(v)`; None when the result is NaN. */
    parseDate: string -> Option<int>,
    /** `crypto.createHash('sha256').update(s).digest('hex')` */
    sha256: string -> string)

  /** The ten tracking parameter names, in lower case. */
  const Tracking: set<string> := {"utm_source", "utm_medium", "utm_campaign", "utm_term",
                                  "utm_content", "fbclid", "gclid", "yclid", "mc_cid", "mc_eid"}

  predicate IsTracking(name: string) {
    Lower(name) in Tracking
  }

  /** The query with every tracking parameter removed, the others kept in order. */
  function WithoutTracking(q: seq<(string, string)>): (r: seq<(string, string)>)
    ensures |r| <= |q|
    ensures forall i :: 0 <= i < |r| ==> !IsTracking(r[i].0) && r[i] in q
    ensures forall i :: 0 <= i < |q| && !IsTracking(q[i].0) ==> q[i] in r
  {
    if |q| == 0 then []
    else if IsTracking(q[|q| - 1].0) then WithoutTracking(q[..|q| - 1])
    else WithoutTracking(q[..|q| - 1]) + [q[|q| - 1]]
  }

  /** Removing tracking parameters distributes over concatenation, so relative order is kept. */
  lemma {:induction false} WithoutTrackingAppend(a: seq<(string, string)>, b: seq<(string, string)>)
    ensures WithoutTracking(a + b) == WithoutTracking(a) + WithoutTracking(b)
    decreases |b|
  {
    if |b| == 0 {
      assert a + b == a;
    } else {
      var b' := b[..|b| - 1];
      assert (a + b)[..|a + b| - 1] == a + b';
      assert (a + b)[|a + b| - 1] == b[|b| - 1];
      WithoutTrackingAppend(a, b');
    }
  }

  /** Some parameter of `q` has a tracking name. */
  predicate HasTracking(q: seq<(string, string)>) {
    |q| > 0 && (IsTracking(q[|q| - 1].0) || HasTracking(q[..|q| - 1]))
  }

  lemma {:induction false} HasTrackingMeaning(q: seq<(string, string)>)
    ensures HasTracking(q) <==> exists i :: 0 <= i < |q| && IsTracking(q[i].0)
  {
    if |q| > 0 {
      HasTrackingMeaning(q[..|q| - 1]);
      assert forall i :: 0 <= i < |q| - 1 ==> q[..|q| - 1][i] == q[i];
    }
  }

  /**
   * The pure meaning of the three in-place steps of `canonicalizeUrl`.  The
   * protocol setter drops a port that is the default of the new scheme (443
   * for `https:`); deleting a parameter rewrites the query from the list.
   */
  function CanonicalUrl(u: Url): (r: Url)
    ensures r.scheme == (if u.scheme == "http:" then "https:" else u.scheme)
    ensures r.port == (if u.scheme == "http:" && u.port == "443" then "" else u.port)
    ensures r.fragment == ""
    ensures r.host == u.host && r.path == u.path
    ensures forall i :: 0 <= i < |r.query| ==> !IsTracking(r.query[i].0)
    ensures r.rawQuery.None? <==> u.rawQuery.None? || HasTracking(u.query)
    ensures r.rawQuery.Some? ==> r.rawQuery == u.rawQuery && r.query == u.query
  {
    NoTrackingKept(u.query);
    u.(scheme := if u.scheme == "http:" then "https:" else u.scheme,
       port := if u.scheme == "http:" && u.port == "443" then "" else u.port,
       fragment := "",
       query := WithoutTracking(u.query),
       rawQuery := if HasTracking(u.query) then None else u.rawQuery)
  }

  /** A query without tracking parameters is left as it is. */
  lemma {:induction false} NoTrackingKept(q: seq<(string, string)>)
    ensures !HasTracking(q) ==> WithoutTracking(q) == q
  {
    if |q| > 0 && !HasTracking(q) {
      NoTrackingKept(q[..|q| - 1]);
    }
  }

  lemma CanonicalUrlIdempotent(u: Url)
    ensures CanonicalUrl(CanonicalUrl(u)) == CanonicalUrl(u)
  {
    WithoutTrackingIdempotent(u.query);
    HasTrackingMeaning(WithoutTracking(u.query));
  }

  lemma {:induction false} WithoutTrackingIdempotent(q: seq<(string, string)>)
    ensures WithoutTracking(WithoutTracking(q)) == WithoutTracking(q)
  {
    if |q| > 0 {
      var q' := q[..|q| - 1];
      WithoutTrackingIdempotent(q');
      if !IsTracking(q[|q| - 1].0) {
        WithoutTrackingAppend(WithoutTracking(q'), [q[|q| - 1]]);
        assert WithoutTracking([q[|q| - 1]]) == [q[|q| - 1]] by {
          assert [q[|q| - 1]][..0] == [];
        }
      }
    }
  }

  /** The parameters named `name` removed, as `URLSearchParams.delete(name)` does. */
  function DeleteParam(q: seq<(string, string)>, name: string): (r: seq<(string, string)>)
    ensures forall i :: 0 <= i < |r| ==> r[i].0 != name && r[i] in q
  {
    if |q| == 0 then []
    else if q[|q| - 1].0 == name then DeleteParam(q[..|q| - 1], name)
    else DeleteParam(q[..|q| - 1], name) + [q[|q| - 1]]
  }

  /** The parameters whose names lie in `names` removed. */
  function DeleteParams(q: seq<(string, string)>, names: set<string>): seq<(string, string)> {
    if |q| == 0 then []
    else if q[|q| - 1].0 in names then DeleteParams(q[..|q| - 1], names)
    else DeleteParams(q[..|q| - 1], names) + [q[|q| - 1]]
  }

  lemma {:induction false} DeleteNothing(q: seq<(string, string)>)
    ensures DeleteParams(q, {}) == q
  {
    if |q| > 0 {
      DeleteNothing(q[..|q| - 1]);
    }
  }

  lemma {:induction false} DeleteOneMore(q: seq<(string, string)>, names: set<string>, name: string)
    ensures DeleteParam(DeleteParams(q, names), name) == DeleteParams(q, names + {name})
  {
    if |q| > 0 {
      var q' := q[..|q| - 1];
      DeleteOneMore(q', names, name);
      var d := DeleteParams(q', names);
      if q[|q| - 1].0 !in names && q[|q| - 1].0 != name {
        var e := d + [q[|q| - 1]];
        assert e[..|e| - 1] == d;
      }
    }
  }

  /** Deleting every tracking name that occurs is removing the tracking parameters. */
  lemma {:induction false} DeleteTrackedNames(q: seq<(string, string)>, names: set<string>)
    requires forall n :: n in names ==> IsTracking(n)
    requires forall i :: 0 <= i < |q| && IsTracking(q[i].0) ==> q[i].0 in names
    ensures DeleteParams(q, names) == WithoutTracking(q)
  {
    if |q| > 0 {
      DeleteTrackedNames(q[..|q| - 1], names);
    }
  }

  /**
   * `canonicalizeUrl` after parsing: the URL object is changed step by step
   * (protocol, hash, then the tracking keys are deleted).
   */
  method CanonicalizeInPlace(parsed: Url) returns (u: Url)
    ensures u == CanonicalUrl(parsed)
  {
    u := parsed;
    if u.scheme == "http:" {
      u := u.(scheme := "https:", port := if u.port == "443" then "" else u.port);
    }
    u := u.(fragment := "");
    u := DeleteTrackingKeys(u);
  }

  /**
   * The loop of `canonicalizeUrl` over a snapshot of the query's keys,
   * deleting every key with a tracking name; the first deletion rewrites the
   * query from the list.
   */
  method DeleteTrackingKeys(before: Url) returns (u: Url)
    ensures u.query == WithoutTracking(before.query)
    ensures forall i :: 0 <= i < |u.query| ==> !IsTracking(u.query[i].0)
    ensures u.rawQuery == if HasTracking(before.query) then None else before.rawQuery
    ensures u == before.(query := u.query, rawQuery := u.rawQuery)
  {
    u := before;
    var keys := seq(|u.query|, i requires 0 <= i < |u.query| => u.query[i].0);
    ghost var deleted: set<string> := {};
    DeleteNothing(before.query);
    for i := 0 to |keys|
      invariant forall n :: n in deleted ==> IsTracking(n)
      invariant forall j :: 0 <= j < i && IsTracking(keys[j]) ==> keys[j] in deleted
      invariant u == before.(query := DeleteParams(before.query, deleted),
                             rawQuery := if HasTracking(before.query[..i]) then None else before.rawQuery)
    {
      HasTrackingStep(before.query, i);
      if IsTracking(keys[i]) {
        DeleteOneMore(before.query, deleted, keys[i]);
        u := u.(query := DeleteParam(u.query, keys[i]), rawQuery := None);
        deleted := deleted + {keys[i]};
      }
    }
    assert before.query[..|keys|] == before.query;
    assert forall j :: 0 <= j < |keys| ==> keys[j] == before.query[j].0;
    DeleteTrackedNames(before.query, deleted);
  }

  lemma HasTrackingStep(q: seq<(string, string)>, i: nat)
    requires i < |q|
    ensures HasTracking(q[..i + 1]) <==> HasTracking(q[..i]) || IsTracking(q[i].0)
  {
    assert q[..i + 1][..i] == q[..i];
  }

  /** A base takes part only when it is a non-empty string (`base ? new URL(raw, base) : new URL(raw)`). */
  function BaseArg(base: Option<string>): (r: Option<string>)
    ensures r.Some? <==> Truthy(base)
  {
    if Truthy(base) then base else None
  }

  /**
   * `canonicalizeUrl(raw, base?)`: resolve (against the base when given),
   * canonicalise, serialise; InvalidUrl when parsing throws.
   */
  function Canonicalize(p: Platform, raw: string, base: Option<string>): (r: Result<string, UrlError>)
    ensures r.Failure? <==> p.parseUrl(raw, BaseArg(base)).None?
    ensures r.Success? ==> exists u :: p.parseUrl(raw, BaseArg(base)) == Some(u)
                                       && r.value == p.serializeUrl(CanonicalUrl(u))
  {
    match p.parseUrl(raw, BaseArg(base))
    case None => Failure(InvalidUrl)
    case Some(u) => Success(p.serializeUrl(CanonicalUrl(u)))
  }

  /**
   * The canonical string of `raw` parses back to its canonical URL, except
   * that the query is held as text again, and that URL serialises to the same
   * string.
   */
  ghost predicate CanonicalReparses(p: Platform, raw: string, base: Option<string>) {
    match p.parseUrl(raw, BaseArg(base))
    case None => true
    case Some(u) =>
      var c := CanonicalUrl(u);
      var back := p.parseUrl(p.serializeUrl(c), None);
      back.Some? && back.value == c.(rawQuery := back.value.rawQuery)
      && p.serializeUrl(back.value) == p.serializeUrl(c)
  }

  /** Canonicalising an already canonical URL string returns it unchanged. */
  lemma CanonicalizeIdempotent(p: Platform, raw: string, base: Option<string>)
    requires CanonicalReparses(p, raw, base)
    ensures Canonicalize(p, raw, base).Success? ==>
              Canonicalize(p, Canonicalize(p, raw, base).value, None) == Canonicalize(p, raw, base)
  {
    if Canonicalize(p, raw, base).Success? {
      var u := p.parseUrl(raw, BaseArg(base)).value;
      var c := CanonicalUrl(u);
      var back := p.parseUrl(p.serializeUrl(c), None).value;
      HasTrackingMeaning(c.query);
      NoTrackingKept(c.query);
      assert CanonicalUrl(back) == back;
    }
  }

  /** `toDateSafe(v)`: nothing for an absent or empty string or an unparseable date. */
  function ToDateSafe(p: Platform, v: Option<string>): (r: Option<int>)
    ensures !Truthy(v) ==> r == None
    ensures Truthy(v) ==> r == p.parseDate(v.value)
  {
    if Truthy(v) then p.parseDate(v.value) else None
  }

  /** The example of a URL with a mixed-case tracking parameter, a plain parameter and a fragment. */
  lemma MixedCaseTrackingExample()
    ensures CanonicalUrl(Url("http:", "a.com", "", "/x", [("utm_Source", "y"), ("id", "1")], Some("utm_Source=y&id=1"), "frag"))
            == Url("https:", "a.com", "", "/x", [("id", "1")], None, "")
  {
    var q := [("utm_Source", "y"), ("id", "1")];
    assert Lower("utm_Source") == "utm_source";
    assert IsTracking(q[0].0);
    assert q[..1] == [("utm_Source", "y")];
    assert q[..1][..0] == [];
  }

  /**
   * `?a` and `?a&utm_source=x` have the same plain parameters, but only the
   * second is rewritten: the first keeps its text, the second is serialised
   * from the list (as `?a=`).
   */
  lemma QueryRewrittenExample()
    ensures CanonicalUrl(Url("https:", "a.com", "", "/p", [("a", "")], Some("a"), "")).rawQuery == Some("a")
    ensures CanonicalUrl(Url("https:", "a.com", "", "/p", [("a", ""), ("utm_source", "x")], Some("a&utm_source=x"), "")).rawQuery
            == None
  {
    assert !IsTracking("a") by {
      assert Lower("a") == "a";
    }
    assert IsTracking("utm_source") by {
      assert Lower("utm_source") == "utm_source";
    }
    var q := [("a", ""), ("utm_source", "x")];
    assert IsTracking(q[1].0);
  }

  /** Upgrading `http://a.com:443/x` drops the port, which is the default of `https:`. */
  lemma DefaultPortDroppedExample()
    ensures CanonicalUrl(Url("http:", "a.com", "443", "/x", [], Some(""), "")).port == ""
  {
  }
}
