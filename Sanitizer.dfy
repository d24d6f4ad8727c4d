/**
 * The file-name sanitiser: the video title, already HTML-unescaped, with
 * every character that is unsafe in a file name deleted.
 */
module Sanitizer {

  /** The characters the sanitiser deletes: / : * ? . " < > | and #. */
  const FORBIDDEN: set<char> := {'/', ':', '*', '?', '.', '"', '<', '>', '|', '#'}

  /** `s` with every forbidden character deleted (runs of them included). */
  function Sanitize(s: string): (r: string)
    ensures |r| <= |s|
    ensures forall i :: 0 <= i < |r| ==> r[i] !in FORBIDDEN
  {
    if s == [] then []
    else (if s[0] in FORBIDDEN then [] else [s[0]]) + Sanitize(s[1..])
  }

  /** `sub` is `s` with some characters deleted and the rest in their order. */
  predicate IsSubsequence(sub: string, s: string) {
    if sub == [] then true
    else if s == [] then false
    else if sub[0] == s[0] then IsSubsequence(sub[1..], s[1..])
    else IsSubsequence(sub, s[1..])
  }

  /** Sanitising works character by character: it distributes over concatenation. */
  lemma {:induction false} SanitizeAppend(a: string, b: string)
    ensures Sanitize(a + b) == Sanitize(a) + Sanitize(b)
  {
    if a == [] {
      assert a + b == b;
    } else {
      assert (a + b)[0] == a[0] && (a + b)[1..] == a[1..] + b;
      SanitizeAppend(a[1..], b);
    }
  }

  /** Every character that is not forbidden survives, as often as it occurs. */
  lemma {:induction false} SanitizeKeepsOthers(s: string, c: char)
    requires c !in FORBIDDEN
    ensures multiset(Sanitize(s))[c] == multiset(s)[c]
  {
    if s != [] {
      SanitizeKeepsOthers(s[1..], c);
      assert s == [s[0]] + s[1..];
    }
  }

  /** The surviving characters keep their original order. */
  lemma {:induction false} SanitizeKeepsOrder(s: string)
    ensures IsSubsequence(Sanitize(s), s)
  {
    if s != [] {
      SanitizeKeepsOrder(s[1..]);
      if s[0] !in FORBIDDEN {
        assert Sanitize(s) == [s[0]] + Sanitize(s[1..]);
      } else {
        assert Sanitize(s) == Sanitize(s[1..]);
        SubsequenceOfTail(Sanitize(s[1..]), s);
      }
    }
  }

  /** A subsequence of the tail of `s` is a subsequence of `s`. */
  lemma {:induction false} SubsequenceOfTail(sub: string, s: string)
    requires s != [] && IsSubsequence(sub, s[1..])
    ensures IsSubsequence(sub, s)
    decreases |s|, 0
  {
    if sub != [] && sub[0] == s[0] {
      SubsequenceDropHead(sub, s[1..]);
    }
  }

  /** Dropping the first character of a subsequence keeps it a subsequence. */
  lemma {:induction false} SubsequenceDropHead(sub: string, s: string)
    requires sub != [] && IsSubsequence(sub, s)
    ensures IsSubsequence(sub[1..], s)
    decreases |s|, 1
  {
    if sub[0] == s[0] {
      if sub[1..] != [] {
        SubsequenceOfTail(sub[1..], s);
      }
    } else {
      SubsequenceDropHead(sub, s[1..]);
      SubsequenceOfTail(sub[1..], s);
    }
  }

  /** A string is left unchanged exactly when it holds no forbidden character. */
  lemma {:induction false} SanitizeFixedPoint(s: string)
    ensures Sanitize(s) == s <==> forall i :: 0 <= i < |s| ==> s[i] !in FORBIDDEN
  {
    if s != [] {
      SanitizeFixedPoint(s[1..]);
      if s[0] in FORBIDDEN {
        assert |Sanitize(s)| <= |s[1..]| < |s|;
      } else {
        assert Sanitize(s) == [s[0]] + Sanitize(s[1..]);
        if Sanitize(s) == s {
          assert Sanitize(s[1..]) == s[1..];
        }
      }
    }
  }

  /** Sanitising twice gives the same name as sanitising once. */
  lemma SanitizeIdempotent(s: string)
    ensures Sanitize(Sanitize(s)) == Sanitize(s)
  {
    SanitizeFixedPoint(Sanitize(s));
  }
}
