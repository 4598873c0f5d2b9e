/**
 The email format check of both sign-up pages, `/\S+@\S+\.\S+/.test(email)`.
 The pattern is unanchored: it accepts any string that CONTAINS a run of
 non-space characters, an `@`, a run of non-space characters, a `.`, and a
 run of non-space characters.
 */
module Email {
  import opened Text

  predicate NonSpace(s: string) {
    forall i :: 0 <= i < |s| ==> !IsSpace(s[i])
  }

  /** `s[i..e]` is a match of the pattern with its `@` at `p` and its `.` at `q`. */
  ghost predicate MatchAt(s: string, i: int, p: int, q: int, e: int) {
    && 0 <= i < p
    && p + 1 < q
    && q + 1 < e <= |s|
    && NonSpace(s[i..p])
    && s[p] == '@'
    && NonSpace(s[p + 1..q])
    && s[q] == '.'
    && NonSpace(s[q + 1..e])
  }

  /** The language of the regular expression: some substring of `s` matches. */
  ghost predicate ContainsAddress(s: string) {
    exists i, p, q, e :: MatchAt(s, i, p, q, e)
  }

  /**
   The shortest match around an `@` at `p` and a `.` at `q`: one non-space
   character on each side suffices, since `\S+` may match a single one.
   */
  predicate ShortMatch(s: string, p: int, q: int)
    requires 1 <= p && p + 1 < q && q + 1 < |s|
  {
    && !IsSpace(s[p - 1])
    && s[p] == '@'
    && NonSpace(s[p + 1..q])
    && s[q] == '.'
    && !IsSpace(s[q + 1])
  }

  /**
   `regex.test(s)` as a bounded search. Anything it accepts holds an `@`
   followed later by a `.`, and has at least five characters.
   */
  function EmailTest(s: string): (r: bool)
    ensures r ==> |s| >= 5
    ensures r ==> exists p, q :: 0 <= p < q < |s| && s[p] == '@' && s[q] == '.'
  {
    exists p, q | 1 <= p && p + 1 < q && q + 1 < |s| :: ShortMatch(s, p, q)
  }

  /** The search accepts exactly the strings the regular expression matches. */
  lemma EmailTestMatchesPattern(s: string)
    ensures EmailTest(s) <==> ContainsAddress(s)
  {
    if EmailTest(s) {
      var p, q :| 1 <= p && p + 1 < q && q + 1 < |s| && ShortMatch(s, p, q);
      assert s[p - 1..p] == [s[p - 1]];
      assert s[q + 1..q + 2] == [s[q + 1]];
      assert MatchAt(s, p - 1, p, q, q + 2);
    }
    if ContainsAddress(s) {
      var i, p, q, e :| MatchAt(s, i, p, q, e);
      assert s[p - 1] == s[i..p][p - 1 - i];
      assert s[q + 1] == s[q + 1..e][0];
      assert ShortMatch(s, p, q);
    }
  }
}
