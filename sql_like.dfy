/**
 * PostgreSQL's `LIKE` operator, as the playlist filter uses it: `%` matches any
 * run of characters, `_` any single character, and a backslash makes the next
 * pattern character literal. Matching is case-sensitive.
 */
module SqlLike {
  import opened Text

  /** `s LIKE p`. */
  predicate Like(p: string, s: string)
    decreases |p| + |s|
  {
    if p == [] then s == []
    else if p[0] == '%' then Like(p[1..], s) || (s != [] && Like(p, s[1..]))
    else if p[0] == '\\' && |p| >= 2 then s != [] && s[0] == p[1] && Like(p[2..], s[1..])
    else s != [] && (p[0] == '_' || p[0] == s[0]) && Like(p[1..], s[1..])
  }

  /** A pattern character that `LIKE` does not read literally. */
  predicate IsWildcard(c: char) {
    c == '%' || c == '_' || c == '\\'
  }

  /** The pattern `'%' + t + '%'` the filter builds for one tag. */
  function ContainsPattern(t: string): (p: string)
    ensures |p| == |t| + 2 && p[0] == '%' && p[|p| - 1] == '%'
    ensures p[1..|p| - 1] == t
  {
    ['%'] + t + ['%']
  }

  /** A lone `%` matches everything. */
  lemma {:induction false} LikeAnything(s: string)
    ensures Like(['%'], s)
  {
    if s != [] {
      LikeAnything(s[1..]);
    }
  }

  /** Without wildcards, `t%` matches exactly the strings that start with t. */
  lemma {:induction false} LikePrefix(t: string, s: string)
    requires forall k :: 0 <= k < |t| ==> !IsWildcard(t[k])
    ensures Like(t + ['%'], s) <==> (|t| <= |s| && s[..|t|] == t)
  {
    if t == [] {
      assert t + ['%'] == ['%'];
      LikeAnything(s);
    } else {
      assert (t + ['%'])[1..] == t[1..] + ['%'];
      if s != [] {
        LikePrefix(t[1..], s[1..]);
        if |t| <= |s| && s[..|t|] == t {
          assert s[1..][..|t| - 1] == s[..|t|][1..];
        }
        if |t| <= |s| && s[1..][..|t| - 1] == t[1..] && s[0] == t[0] {
          assert s[..|t|] == [s[0]] + s[1..][..|t| - 1];
          assert t == [t[0]] + t[1..];
        }
      }
    }
  }

  /** A leading `%` lets the rest of the pattern match any suffix. */
  lemma {:induction false} LikeLeadingPercent(q: string, s: string)
    ensures Like(['%'] + q, s) <==> exists k | 0 <= k <= |s| :: Like(q, s[k..])
  {
    var p := ['%'] + q;
    assert p[1..] == q;
    if s == [] {
      assert s[0..] == s;
    } else {
      LikeLeadingPercent(q, s[1..]);
      if exists k | 0 <= k <= |s| :: Like(q, s[k..]) {
        var k :| 0 <= k <= |s| && Like(q, s[k..]);
        if k == 0 {
          assert s[0..] == s;
        } else {
          assert s[1..][k - 1..] == s[k..];
        }
      }
      if exists k | 0 <= k <= |s[1..]| :: Like(q, s[1..][k..]) {
        var k :| 0 <= k <= |s[1..]| && Like(q, s[1..][k..]);
        assert s[1..][k..] == s[k + 1..];
      }
      if Like(q, s) {
        assert s[0..] == s;
      }
    }
  }

  /**
   * The tag filter's `LIKE '%t%'` is a substring test when the tag holds no
   * `%`, `_` or backslash; a tag that holds one of them is read as a pattern.
   */
  lemma LikeContains(t: string, s: string)
    requires forall k :: 0 <= k < |t| ==> !IsWildcard(t[k])
    ensures Like(ContainsPattern(t), s) <==> IsSubstring(t, s)
  {
    assert ContainsPattern(t) == ['%'] + (t + ['%']);
    LikeLeadingPercent(t + ['%'], s);
    if Like(ContainsPattern(t), s) {
      var k :| 0 <= k <= |s| && Like(t + ['%'], s[k..]);
      LikePrefix(t, s[k..]);
      assert s[k..][..|t|] == s[k..k + |t|];
      assert OccursAt(t, s, k);
    }
    if IsSubstring(t, s) {
      var k :| 0 <= k <= |s| - |t| && OccursAt(t, s, k);
      LikePrefix(t, s[k..]);
      assert s[k..][..|t|] == s[k..k + |t|];
    }
  }

  /** An underscore in a tag matches any character: the tag `a_c` matches the stored text `abc`. */
  lemma UnderscoreIsWildcard()
    ensures Like(ContainsPattern("a_c"), "abc")
    ensures !IsSubstring("a_c", "abc")
  {
    var p := ContainsPattern("a_c");
    assert p == "%a_c%";
    assert Like(p[4..], "");
    assert Like(p[3..], "c");
    assert Like(p[2..], "bc");
    assert Like(p[1..], "abc");
    assert !OccursAt("a_c", "abc", 0);
  }

  /**
   * A tag ending in a backslash escapes the closing `%` of its own pattern:
   * the tag `a\` selects text ending in `a%`, and neither text holding `a\`
   * nor text with anything after `a%`.
   */
  lemma TrailingBackslashEscapesPercent()
    ensures Like(ContainsPattern("a\\"), "a%")
    ensures Like(ContainsPattern("a\\"), "xa%")
    ensures !Like(ContainsPattern("a\\"), "a\\")
    ensures !Like(ContainsPattern("a\\"), "a%b")
  {
    var p := ContainsPattern("a\\");
    assert p == "%a\\%";
    assert p[1..] == "a\\%" && p[2..] == "\\%" && p[4..] == "";
  }
}
