/**
 * The politeness gate `isAllowed` (src/lib/ingest/robots.ts): a coarse
 * reading of robots.txt that only looks for `Disallow: /` in the group opened
 * by the last `User-agent: *` line, and fails open on every error.
 */
module Robots {
  import opened Wrappers
  import opened Text

  /**
   * The outcome of fetching `{origin}/robots.txt`: Threw when `new URL` or
   * `fetch` threw; otherwise the response's `ok` flag and its text (None
   * when reading the body threw).
   */
  datatype RobotsFetch = Threw | Responded(ok: bool, body: Option<string>)

  /** A piece without the one CR that may end it. */
  function DropCr(s: string): (r: string)
    ensures |s| > 0 && s[|s| - 1] == '\r' ==> s == r + "\r"
    ensures |s| == 0 || s[|s| - 1] != '\r' ==> r == s
  {
    if |s| > 0 && s[|s| - 1] == '\r' then s[..|s| - 1] else s
  }

  /** `s.split('\n')`: the pieces between line feeds. */
  function Segments(s: string): (r: seq<string>)
    ensures |r| >= 1
    ensures forall i :: 0 <= i < |r| ==> '\n' !in r[i]
    decreases |s|
  {
    var k := FirstIndex(s, '\n');
    if k == |s| then
      assert forall i :: 0 <= i < |s| ==> s[i] != '\n';
      [s]
    else
      [s[..k]] + Segments(s[k + 1..])
  }

  /** The segments, joined again with line feeds, give back the text. */
  lemma {:induction false} SegmentsRebuild(s: string)
    ensures Join(Segments(s), "\n") == s
    decreases |s|
  {
    var k := FirstIndex(s, '\n');
    if k < |s| {
      SegmentsRebuild(s[k + 1..]);
      SegmentsStep(s, k);
      JoinCons(s[..k], Segments(s[k + 1..]), "\n");
      assert s == s[..k] + "\n" + s[k + 1..];
    }
  }

  lemma JoinCons(first: string, rest: seq<string>, sep: string)
    requires |rest| >= 1
    ensures Join([first] + rest, sep) == first + sep + Join(rest, sep)
  {
    assert ([first] + rest)[1..] == rest;
  }

  /**
   * `txt.split(/\r?\n/)`: the pieces between line feeds, a CR just before a
   * line feed being part of the separator.
   */
  function SplitLines(s: string): (r: seq<string>)
    ensures |r| == |Segments(s)| >= 1
    ensures forall i :: 0 <= i < |r| - 1 ==> r[i] == DropCr(Segments(s)[i])
    ensures r[|r| - 1] == Segments(s)[|r| - 1]
    ensures forall i :: 0 <= i < |r| ==> '\n' !in r[i]
    ensures '\n' !in s ==> r == [s]
    decreases |s|
  {
    var k := FirstIndex(s, '\n');
    if k == |s| then
      assert forall i :: 0 <= i < |s| ==> s[i] != '\n';
      [s]
    else
      var rest := SplitLines(s[k + 1..]);
      SegmentsStep(s, k);
      ConsLines(s[..k], rest, Segments(s[k + 1..]));
      ConsNoLineFeed(s[..k], rest);
      [DropCr(s[..k])] + rest
  }

  lemma SegmentsStep(s: string, k: nat)
    requires k == FirstIndex(s, '\n') < |s|
    ensures Segments(s) == [s[..k]] + Segments(s[k + 1..])
    ensures '\n' !in s[..k] && '\n' in s
  {
  }

  /** Putting one more segment in front keeps the relation between lines and segments. */
  lemma ConsLines(seg: string, rest: seq<string>, segs: seq<string>)
    requires |rest| == |segs| >= 1
    requires forall i :: 0 <= i < |rest| - 1 ==> rest[i] == DropCr(segs[i])
    requires rest[|rest| - 1] == segs[|rest| - 1]
    ensures var r, all := [DropCr(seg)] + rest, [seg] + segs;
            && (forall i :: 0 <= i < |r| - 1 ==> r[i] == DropCr(all[i]))
            && r[|r| - 1] == all[|r| - 1]
  {
    var r, all := [DropCr(seg)] + rest, [seg] + segs;
    forall i | 1 <= i < |r| - 1
      ensures r[i] == DropCr(all[i])
    {
      assert r[i] == rest[i - 1] && all[i] == segs[i - 1];
    }
    assert r[|r| - 1] == rest[|rest| - 1] && all[|r| - 1] == segs[|rest| - 1];
  }

  /** Lines without a line feed stay so with one more in front. */
  lemma ConsNoLineFeed(seg: string, rest: seq<string>)
    requires '\n' !in seg && forall i :: 0 <= i < |rest| ==> '\n' !in rest[i]
    ensures forall i :: 0 <= i < |rest| + 1 ==> '\n' !in ([DropCr(seg)] + rest)[i]
  {
    var r := [DropCr(seg)] + rest;
    assert forall i :: 1 <= i < |r| ==> r[i] == rest[i - 1];
    if DropCr(seg) != seg {
      assert seg == DropCr(seg) + "\r";
      assert forall j :: 0 <= j < |DropCr(seg)| ==> DropCr(seg)[j] == seg[j];
    }
  }

  /** The lines of the file, each trimmed. */
  function Lines(txt: string): (lines: seq<string>)
    ensures |lines| == |SplitLines(txt)|
    ensures forall i :: 0 <= i < |lines| ==> lines[i] == Trim(SplitLines(txt)[i])
  {
    var pieces := SplitLines(txt);
    seq(|pieces|, i requires 0 <= i < |pieces| => Trim(pieces[i]))
  }

  /** `/^User-agent:/i` */
  predicate IsAgentLine(ln: string) {
    StartsWithIgnoreCase(ln, "user-agent:")
  }

  // The pattern `User-agent:`, optional white space, then a star (case-insensitive); anything may follow the star.
  predicate IsStarLine(ln: string) {
    IsAgentLine(ln) && var rest := TrimStart(ln[11..]); |rest| > 0 && rest[0] == '*'
  }

  /** `/^Disallow:\s*\/\s*$/i`: a slash and nothing but white space after it. */
  predicate IsDisallowRoot(ln: string) {
    StartsWithIgnoreCase(ln, "disallow:")
    && var rest := TrimStart(ln[9..]); |rest| > 0 && rest[0] == '/' && AllSpace(rest[1..])
  }

  /** What a trimmed line means to the scanner. */
  datatype Directive = WildcardAgent | OtherAgent | DisallowAll | Ignored

  /** A line cannot start with both `User-agent:` and `Disallow:`. */
  lemma AgentNotDisallow(ln: string)
    ensures !(IsAgentLine(ln) && IsDisallowRoot(ln))
  {
  }

  function Classify(ln: string): (d: Directive)
    ensures d == WildcardAgent <==> IsStarLine(ln)
    ensures d == OtherAgent <==> IsAgentLine(ln) && !IsStarLine(ln)
    ensures d == DisallowAll <==> IsDisallowRoot(ln)
  {
    AgentNotDisallow(ln);
    if IsStarLine(ln) then WildcardAgent
    else if IsAgentLine(ln) then OtherAgent
    else if IsDisallowRoot(ln) then DisallowAll
    else Ignored
  }

  function Directives(lines: seq<string>): (ds: seq<Directive>)
    ensures |ds| == |lines|
    ensures forall i :: 0 <= i < |lines| ==> ds[i] == Classify(lines[i])
  {
    seq(|lines|, i requires 0 <= i < |lines| => Classify(lines[i]))
  }

  /** The two flags of the scanning loop. */
  datatype ScanState = ScanState(star: bool, disallow: bool)

  /** One iteration of the loop, on the line's directive. */
  function ScanLine(s: ScanState, d: Directive): ScanState {
    match d
    case WildcardAgent => ScanState(true, false)
    case OtherAgent => ScanState(false, s.disallow)
    case DisallowAll => ScanState(s.star, s.disallow || s.star)
    case Ignored => s
  }

  /** The flags after scanning all of `ds`, from `star = disall = false`. */
  function Scan(ds: seq<Directive>): ScanState {
    if |ds| == 0 then ScanState(false, false)
    else ScanLine(Scan(ds[..|ds| - 1]), ds[|ds| - 1])
  }

  /** The index of the last `User-agent: *` line, if any. */
  function LastStar(ds: seq<Directive>): (r: Option<nat>)
    ensures r.Some? ==> r.value < |ds| && ds[r.value] == WildcardAgent
                        && forall m :: r.value < m < |ds| ==> ds[m] != WildcardAgent
    ensures r.None? ==> forall m :: 0 <= m < |ds| ==> ds[m] != WildcardAgent
  {
    if |ds| == 0 then None
    else if ds[|ds| - 1] == WildcardAgent then Some(|ds| - 1)
    else LastStar(ds[..|ds| - 1])
  }

  /** The lines after `k` up to index `j` hold no User-agent line. */
  ghost predicate NoAgentBetween(ds: seq<Directive>, k: nat, j: nat)
    requires j < |ds|
  {
    forall m :: k < m <= j ==> !(ds[m] == WildcardAgent || ds[m] == OtherAgent)
  }

  /** The group opened at line `k` (up to the next User-agent line) holds `Disallow: /`. */
  ghost predicate GroupDisallows(ds: seq<Directive>, k: nat) {
    exists j :: k < j < |ds| && ds[j] == DisallowAll && NoAgentBetween(ds, k, j)
  }

  /** The group of the last `User-agent: *` line holds `Disallow: /`. */
  ghost predicate LastGroupDisallows(ds: seq<Directive>) {
    LastStar(ds).Some? && GroupDisallows(ds, LastStar(ds).value)
  }

  /** The wildcard group is still open after the last line. */
  ghost predicate GroupOpen(ds: seq<Directive>) {
    LastStar(ds).Some? && (|ds| == 0 || NoAgentBetween(ds, LastStar(ds).value, |ds| - 1))
  }

  /** The `star` flag means: the last wildcard group is still open. */
  lemma {:induction false} StarMeaning(ds: seq<Directive>)
    ensures Scan(ds).star <==> GroupOpen(ds)
  {
    if |ds| > 0 {
      var n := |ds|;
      var prev := ds[..n - 1];
      StarMeaning(prev);
      assert forall m :: 0 <= m < n - 1 ==> prev[m] == ds[m];
    }
  }

  /** Extending the file by one line extends the open group by that line. */
  lemma GroupDisallowsStep(ds: seq<Directive>, k: nat)
    requires k < |ds| - 1
    ensures GroupDisallows(ds, k) <==>
              GroupDisallows(ds[..|ds| - 1], k)
              || (ds[|ds| - 1] == DisallowAll && NoAgentBetween(ds, k, |ds| - 1))
  {
    var n := |ds|;
    var prev := ds[..n - 1];
    assert forall m :: 0 <= m < n - 1 ==> prev[m] == ds[m];
    if GroupDisallows(prev, k) {
      var j :| k < j < n - 1 && prev[j] == DisallowAll && NoAgentBetween(prev, k, j);
      assert ds[j] == DisallowAll && NoAgentBetween(ds, k, j);
    }
    if GroupDisallows(ds, k) {
      var j :| k < j < n && ds[j] == DisallowAll && NoAgentBetween(ds, k, j);
      if j < n - 1 {
        assert prev[j] == DisallowAll && NoAgentBetween(prev, k, j);
      }
    }
  }

  /** The `disall` flag means: the group of the last `User-agent: *` line holds `Disallow: /`. */
  lemma {:induction false} DisallowMeaning(ds: seq<Directive>)
    ensures Scan(ds).disallow <==> LastGroupDisallows(ds)
  {
    if |ds| > 0 {
      var n := |ds|;
      var prev := ds[..n - 1];
      DisallowMeaning(prev);
      StarMeaning(prev);
      assert forall m :: 0 <= m < n - 1 ==> prev[m] == ds[m];
      if ds[n - 1] != WildcardAgent && LastStar(prev).Some? {
        var k := LastStar(prev).value;
        assert LastStar(ds) == Some(k);
        GroupDisallowsStep(ds, k);
        if k < n - 2 {
          assert NoAgentBetween(ds, k, n - 1) <==> NoAgentBetween(prev, k, n - 2) && ds[n - 1] != OtherAgent;
        }
      }
    }
  }

  /** The scanning loop of `isAllowed` over the trimmed lines, testing the patterns in the source's order. */
  method ScanRobots(lines: seq<string>) returns (allowed: bool)
    ensures allowed <==> !LastGroupDisallows(Directives(lines))
  {
    var star, disall := false, false;
    ghost var ds := Directives(lines);
    for i := 0 to |lines|
      invariant Scan(ds[..i]) == ScanState(star, disall)
    {
      assert ds[..i + 1][..i] == ds[..i];
      var ln := lines[i];
      assert ds[i] == Classify(ln);
      if IsStarLine(ln) {
        star := true;
        disall := false;
        continue;
      }
      if star && IsAgentLine(ln) {
        star := false;
      }
      if star && IsDisallowRoot(ln) {
        disall := true;
      }
    }
    assert ds[..|lines|] == ds;
    allowed := !disall;
    DisallowMeaning(ds);
  }

  /**
   * The verdict of `isAllowed` as a function of the fetch outcome: it fails
   * open on any error or non-success status, otherwise the body decides.
   */
  function Verdict(fetch: RobotsFetch): (allowed: bool)
    ensures !allowed ==> fetch.Responded? && fetch.ok && fetch.body.Some?
    ensures fetch.Responded? && fetch.ok && fetch.body.Some? ==>
              (allowed <==> !LastGroupDisallows(Directives(Lines(fetch.body.value))))
  {
    var ds := if fetch.Responded? && fetch.body.Some? then Directives(Lines(fetch.body.value)) else [];
    DisallowMeaning(ds);
    !(fetch.Responded? && fetch.ok && fetch.body.Some? && Scan(ds).disallow)
  }

  /** `isAllowed`: return early on the fail-open cases, otherwise scan the body's lines. */
  method IsAllowed(fetch: RobotsFetch) returns (allowed: bool)
    ensures allowed == Verdict(fetch)
  {
    if fetch.Threw? {
      return true;
    }
    if !fetch.ok {
      return true;
    }
    if fetch.body.None? {
      return true;
    }
    var lines := Lines(fetch.body.value);
    allowed := ScanRobots(lines);
  }

  /** A file without any `User-agent: *` line allows everything. */
  lemma NoWildcardGroup(lines: seq<string>)
    requires forall i :: 0 <= i < |lines| ==> !IsStarLine(lines[i])
    ensures !LastGroupDisallows(Directives(lines))
  {
  }

  /** A `User-agent: *` line with no `Disallow: /` after it allows everything, whatever came before. */
  lemma LaterWildcardResets(lines: seq<string>, k: nat)
    requires k < |lines| && IsStarLine(lines[k])
    requires forall m :: k < m < |lines| ==> !IsDisallowRoot(lines[m])
    ensures !LastGroupDisallows(Directives(lines))
  {
  }
}

/** Worked examples of the line patterns of the politeness gate. */
module RobotsExamples {
  import opened Text
  import opened Robots

  lemma DisallowPrefix()
    ensures StartsWithIgnoreCase("Disallow: /", "disallow:")
  {
    var a := "Disallow: /";
    assert a[..9] == "Disallow:";
    assert Lower("Disallow:") == "disallow:";
  }

  lemma SlashThenNothing()
    ensures var rest := TrimStart("Disallow: /"[9..]); |rest| > 0 && rest[0] == '/' && AllSpace(rest[1..])
  {
    assert "Disallow: /"[9..] == " /";
    TrimLeading(" /");
  }

  lemma TrimLeading(s: string)
    requires |s| >= 2 && s[0] == ' ' && !IsSpace(s[1])
    ensures TrimStart(s) == s[1..]
  {
    assert TrimStart(s[1..]) == s[1..];
  }

  /** `Disallow: /` is a root disallow. */
  lemma RootDisallowExample()
    ensures IsDisallowRoot("Disallow: /")
  {
    DisallowPrefix();
    SlashThenNothing();
  }

  lemma SlashThenPath()
    ensures var rest := TrimStart("Disallow: /private"[9..]); |rest| > 0 && rest[0] == '/' && !AllSpace(rest[1..])
  {
    assert "Disallow: /private"[9..] == " /private";
    TrimLeading(" /private");
    assert "/private"[1..][0] == 'p';
  }

  /** `Disallow: /private` is not: something other than white space follows the slash. */
  lemma PathDisallowExample()
    ensures !IsDisallowRoot("Disallow: /private")
  {
    SlashThenPath();
  }
}
