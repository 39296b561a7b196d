/**
 * `jaccardSimilarity` (src/lib/utils/similarity.ts): the Jaccard index of the
 * word sets of two strings, as a ratio.  Words are the maximal runs of
 * `[A-Za-z0-9_]` (the regular-expression class `\w`) of the lower-cased text.
 */
module Similarity {
  import opened Text
  import opened Ratios

  predicate IsWordChar(c: char) {
    'a' <= c <= 'z' || 'A' <= c <= 'Z' || '0' <= c <= '9' || c == '_'
  }

  predicate AllWordChars(w: string) {
    forall i :: 0 <= i < |w| ==> IsWordChar(w[i])
  }

  /**
   * `s.split(/\W+/).filter(Boolean)`, with `cur` the word being read: the
   * non-empty pieces between runs of non-word characters.
   */
  function Words(s: string, cur: string): seq<string>
    decreases |s|
  {
    if s == [] then (if cur == [] then [] else [cur])
    else if IsWordChar(s[0]) then Words(s[1..], cur + [s[0]])
    else (if cur == [] then [] else [cur]) + Words(s[1..], [])
  }

  /** The token set of a string. */
  function Tokens(s: string): set<string> {
    set w | w in Words(Lower(s), [])
  }

  /** `jaccardSimilarity(a, b)`: `|A ∩ B| / (|A ∪ B| || 1)` */
  function Jaccard(a: string, b: string): (r: Ratio)
    ensures 1 <= r.den && r.num <= r.den
    ensures r.num == |Tokens(a) * Tokens(b)|
  {
    var sa, sb := Tokens(a), Tokens(b);
    SubsetSize(sa * sb, sa + sb);
    var union := |sa + sb|;
    Ratio(|sa * sb|, if union == 0 then 1 else union)
  }

  lemma {:induction false} SubsetSize<T>(x: set<T>, y: set<T>)
    requires x <= y
    ensures |x| <= |y|
    decreases |x|
  {
    if x != {} {
      var e :| e in x;
      SubsetSize(x - {e}, y - {e});
    }
  }

  /** Every word is non-empty and made of word characters; of lower-case text, lower-case. */
  lemma {:induction false} WordsShape(s: string, cur: string)
    requires AllWordChars(cur)
    ensures forall w :: w in Words(s, cur) ==> w != [] && AllWordChars(w)
    ensures (forall i :: 0 <= i < |s| ==> LowerChar(s[i]) == s[i]) && Lower(cur) == cur ==>
              forall w :: w in Words(s, cur) ==> Lower(w) == w
    decreases |s|
  {
    if s != [] {
      if IsWordChar(s[0]) {
        WordsShape(s[1..], cur + [s[0]]);
        if (forall i :: 0 <= i < |s| ==> LowerChar(s[i]) == s[i]) && Lower(cur) == cur {
          assert Lower(cur + [s[0]]) == cur + [s[0]];
        }
      } else {
        WordsShape(s[1..], []);
      }
    }
  }

  /** Tokens are non-empty, lower-case runs of word characters. */
  lemma TokenShape(s: string, w: string)
    requires w in Tokens(s)
    ensures w != [] && AllWordChars(w) && Lower(w) == w
  {
    WordsShape(Lower(s), []);
  }

  /** Text without word characters has no tokens. */
  lemma {:induction false} NoWordCharsNoWords(s: string)
    requires forall i :: 0 <= i < |s| ==> !IsWordChar(s[i])
    ensures Words(s, []) == []
    decreases |s|
  {
    if s != [] {
      NoWordCharsNoWords(s[1..]);
    }
  }

  /** The index does not depend on the order of its arguments. */
  lemma JaccardSymmetric(a: string, b: string)
    ensures Jaccard(a, b) == Jaccard(b, a)
  {
    assert Tokens(a) * Tokens(b) == Tokens(b) * Tokens(a);
    assert Tokens(a) + Tokens(b) == Tokens(b) + Tokens(a);
  }

  /** Two strings without tokens give 0, not 1. */
  lemma NoTokensGiveZero(a: string, b: string)
    requires Tokens(a) == {} && Tokens(b) == {}
    ensures Jaccard(a, b) == Ratio(0, 1)
  {
  }

  /** Strings with the same non-empty token set give 1. */
  lemma SameTokensGiveOne(a: string, b: string)
    requires Tokens(a) == Tokens(b) != {}
    ensures Jaccard(a, b).num == Jaccard(a, b).den
  {
    assert Tokens(a) * Tokens(b) == Tokens(a) + Tokens(b);
  }

  /** Case does not matter: strings equal up to ASCII case have the same tokens, hence the index 1 when any. */
  lemma CaseIgnored(a: string, b: string)
    requires Lower(a) == Lower(b)
    ensures Tokens(a) == Tokens(b)
    ensures Tokens(a) != {} ==> Jaccard(a, b).num == Jaccard(a, b).den
  {
    if Tokens(a) != {} {
      SameTokensGiveOne(a, b);
    }
  }

  /** Two word characters around one separator make two one-letter words. */
  lemma TwoWords(x: char, sep: char, y: char)
    requires IsWordChar(x) && !IsWordChar(sep) && IsWordChar(y)
    ensures Words([x, sep, y], []) == [[x], [y]]
  {
    var e: string := [];
    assert [y][1..] == e && e + [y] == [y];
    assert Words([y], e) == Words(e, [y]) == [[y]];
    assert [sep, y][1..] == [y];
    assert Words([sep, y], [x]) == [[x]] + Words([y], e);
    assert [x, sep, y][1..] == [sep, y] && e + [x] == [x];
  }

  /** "A-b" and "b a" split into the same tokens, so their index is 1. */
  lemma TokensExample()
    ensures Tokens("A-b") == Tokens("b a") == {"a", "b"}
    ensures Jaccard("A-b", "b a") == Ratio(2, 2)
  {
    assert Lower("A-b") == "a-b";
    assert Lower("b a") == "b a";
    TwoWords('a', '-', 'b');
    TwoWords('b', ' ', 'a');
    assert Tokens("A-b") == {"a", "b"};
    assert Tokens("b a") == {"a", "b"};
    assert {"a", "b"} * {"a", "b"} == {"a", "b"} + {"a", "b"} == {"a", "b"};
    assert |{"a", "b"}| == 2;
  }
}
