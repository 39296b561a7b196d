/**
 * `requireAdmin` (src/lib/utils/auth.ts): the `Authorization` header must
 * match `/^Bearer\s+(.+)$/i` and its captured credential must equal the
 * configured admin token.  The configured token (the `ADMIN_TOKEN`
 * environment variable) is a parameter.
 */
module Auth {
  import opened Wrappers
  import opened Text

  datatype AuthError = AdminTokenNotSet

  predicate NoLineTerminator(s: string) {
    forall i :: 0 <= i < |s| ==> !IsLineTerminator(s[i])
  }

  /**
   * The pattern matches `h` with the capture group starting at `k`:
   * `Bearer` in any case, at least one white-space character up to `k`, and
   * at least one character other than a line terminator from `k` to the end.
   */
  ghost predicate MatchesAt(h: string, k: int) {
    StartsWithIgnoreCase(h, "bearer") && 7 <= k < |h| && AllSpace(h[6..k]) && NoLineTerminator(h[k..])
  }

  /** The number of white-space characters after the first six. */
  function LeadingSpace(h: string): (n: nat)
    requires 6 <= |h|
    ensures 6 + n <= |h| && AllSpace(h[6..6 + n])
    ensures 6 + n == |h| || !IsSpace(h[6 + n])
  {
    var rest := TrimStart(h[6..]);
    assert h[6..][..|h| - 6 - |rest|] == h[6..|h| - |rest|];
    |h| - 6 - |rest|
  }

  /**
   * The credential the pattern captures, if it matches.  `\s+` is greedy:
   * it takes every white-space character but the last one when nothing else
   * follows, so that `.+` still has a character.
   */
  function BearerCredential(h: string): (r: Option<string>)
    ensures r.Some? ==> r.value != [] && NoLineTerminator(r.value)
  {
    if !StartsWithIgnoreCase(h, "bearer") then None
    else
      var k := CaptureStart(h);
      if k >= 7 && NoLineTerminator(h[k..]) then Some(h[k..]) else None
  }

  /** Where the greedy `\s+` stops: after all the white space, but before the last character. */
  function CaptureStart(h: string): (k: int)
    requires 6 <= |h|
    ensures k < |h| || |h| == 6
  {
    var n := LeadingSpace(h);
    if 6 + n < |h| then 6 + n else |h| - 1
  }

  lemma SpacesWithin(h: string, j: int)
    requires 6 <= j <= |h| && AllSpace(h[6..j])
    ensures j <= 6 + LeadingSpace(h)
  {
    SpaceAt(h[6..j], LeadingSpace(h));
  }

  lemma SpaceAt(s: string, i: int)
    requires AllSpace(s)
    ensures 0 <= i < |s| ==> IsSpace(s[i])
  {
  }

  /** No match starts its group after `CaptureStart`. */
  lemma CaptureStartIsLast(h: string, j: int)
    requires MatchesAt(h, j)
    ensures j <= CaptureStart(h)
  {
    SpacesWithin(h, j);
  }

  /** A credential comes from a match whose group starts at `CaptureStart`. */
  lemma CaptureMatches(h: string)
    requires BearerCredential(h).Some?
    ensures MatchesAt(h, CaptureStart(h)) && BearerCredential(h).value == h[CaptureStart(h)..]
  {
    var n, k := LeadingSpace(h), CaptureStart(h);
    assert h[6..k] == h[6..6 + n][..k - 6];
  }

  /** Any match means the function finds a credential. */
  lemma MatchGivesCapture(h: string, j: int)
    requires MatchesAt(h, j)
    ensures BearerCredential(h).Some?
  {
    CaptureStartIsLast(h, j);
    var k := CaptureStart(h);
    assert h[k..] == h[j..][k - j..];
  }

  /**
   * The capture is exactly what the regular expression yields: there is a
   * match iff the function gives a credential, and the credential starts at
   * the last position a match can start its group.
   */
  lemma BearerCredentialMeaning(h: string)
    ensures BearerCredential(h).Some? <==> exists k :: MatchesAt(h, k)
    ensures BearerCredential(h).Some? ==>
              exists k :: MatchesAt(h, k) && BearerCredential(h).value == h[k..]
                          && forall j :: MatchesAt(h, j) ==> j <= k
  {
    if BearerCredential(h).Some? {
      CaptureMatches(h);
      var k := CaptureStart(h);
      forall j | MatchesAt(h, j) ensures j <= k {
        CaptureStartIsLast(h, j);
      }
    }
    if exists j :: MatchesAt(h, j) {
      var j :| MatchesAt(h, j);
      MatchGivesCapture(h, j);
    }
  }

  /** `requireAdmin(authHeader)` with the configured token. */
  function RequireAdmin(token: Option<string>, header: Option<string>): (r: Result<bool, AuthError>)
    ensures r.Failure? <==> !Truthy(token)
    ensures r == Success(true) <==>
              Truthy(token) && Truthy(header) && BearerCredential(header.value) == Some(token.value)
  {
    if !Truthy(token) then Failure(AdminTokenNotSet)
    else if !Truthy(header) then Success(false)
    else
      match BearerCredential(header.value)
      case None => Success(false)
      case Some(credential) => Success(credential == token.value)
  }

  /** Another scheme, or `Bearer` with no white space after it (nothing at all, or another character), is refused. */
  lemma OtherSchemeRefused(token: string, header: string)
    requires token != ""
    requires !StartsWithIgnoreCase(header, "bearer") || |header| == 6 || !IsSpace(header[6])
    ensures RequireAdmin(Some(token), Some(header)) == Success(false)
  {
    if StartsWithIgnoreCase(header, "bearer") && |header| > 6 {
      assert LeadingSpace(header) == 0 by {
        SpacesWithin(header, 6);
      }
    }
  }

  /** The scheme is matched in any case: only the rest of the header decides the credential. */
  lemma SchemeCaseIgnored(h1: string, h2: string)
    requires |h1| == |h2| >= 6 && Lower(h1[..6]) == Lower(h2[..6]) && h1[6..] == h2[6..]
    ensures BearerCredential(h1) == BearerCredential(h2)
  {
    assert StartsWithIgnoreCase(h1, "bearer") == StartsWithIgnoreCase(h2, "bearer");
    assert LeadingSpace(h1) == LeadingSpace(h2);
    var k := CaptureStart(h1);
    if k >= 6 {
      assert h1[k..] == h1[6..][k - 6..] && h2[k..] == h2[6..][k - 6..];
    }
  }
}
