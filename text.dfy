/**
 * The JavaScript string operations the forms and services rely on:
 * `String.prototype.trim`, `split(',')`, `join`, the `\S` character class of
 * `RegExp`, and the unanchored test of the email pattern `\S+@\S+\.\S+`.
 * Strings are sequences of Unicode scalar values.
 */
module Text {

  /** JavaScript's WhiteSpace and LineTerminator code points: what `trim` strips and `\s` matches. */
  predicate IsSpace(c: char) {
    var n := c as int;
    n == 0x09 || n == 0x0A || n == 0x0B || n == 0x0C || n == 0x0D || n == 0x20
    || n == 0xA0 || n == 0x1680 || (0x2000 <= n <= 0x200A)
    || n == 0x2028 || n == 0x2029 || n == 0x202F || n == 0x205F || n == 0x3000 || n == 0xFEFF
  }

  /** `trimStart`: drop white space from the front. */
  function TrimStart(s: string): string {
    if s != [] && IsSpace(s[0]) then TrimStart(s[1..]) else s
  }

  /** `trimEnd`: drop white space from the back. */
  function TrimEnd(s: string): string {
    if s != [] && IsSpace(s[|s| - 1]) then TrimEnd(s[..|s| - 1]) else s
  }

  /** trimStart keeps the longest suffix that does not begin with white space. */
  lemma {:induction false} TrimStartSpec(s: string)
    ensures |TrimStart(s)| <= |s| && TrimStart(s) == s[|s| - |TrimStart(s)|..]
    ensures forall k :: 0 <= k < |s| - |TrimStart(s)| ==> IsSpace(s[k])
    ensures TrimStart(s) == [] || !IsSpace(TrimStart(s)[0])
  {
    if s != [] && IsSpace(s[0]) {
      var t := TrimStart(s[1..]);
      TrimStartSpec(s[1..]);
      assert TrimStart(s) == t;
      assert s[1..][|s| - 1 - |t|..] == s[|s| - |t|..];
      forall k | 0 <= k < |s| - |t| ensures IsSpace(s[k]) {
        if k > 0 {
          assert s[k] == s[1..][k - 1];
        }
      }
    }
  }

  /** trimEnd keeps the longest prefix that does not end with white space. */
  lemma {:induction false} TrimEndSpec(s: string)
    ensures |TrimEnd(s)| <= |s| && TrimEnd(s) == s[..|TrimEnd(s)|]
    ensures forall k :: |TrimEnd(s)| <= k < |s| ==> IsSpace(s[k])
    ensures TrimEnd(s) == [] || !IsSpace(TrimEnd(s)[|TrimEnd(s)| - 1])
  {
    if s != [] && IsSpace(s[|s| - 1]) {
      var p := s[..|s| - 1];
      var t := TrimEnd(p);
      TrimEndSpec(p);
      assert TrimEnd(s) == t;
      assert p[..|t|] == s[..|t|];
      forall k | |t| <= k < |s| ensures IsSpace(s[k]) {
        if k < |s| - 1 {
          assert s[k] == p[k];
        }
      }
    }
  }

  /** A string with no white space at either end. */
  predicate Trimmed(s: string) {
    s == [] || (!IsSpace(s[0]) && !IsSpace(s[|s| - 1]))
  }

  /** `String.prototype.trim`. */
  function Trim(s: string): (r: string)
    ensures Trimmed(r)
    ensures |r| <= |s|
  {
    TrimStartSpec(s);
    TrimEndSpec(TrimStart(s));
    TrimEnd(TrimStart(s))
  }

  /** `!s.trim()`: the string is empty once white space is stripped. */
  predicate IsBlank(s: string) {
    Trim(s) == []
  }

  /** The trimmed string is the slice s[i..j] and everything cut away is white space. */
  lemma TrimSlice(s: string) returns (i: nat, j: nat)
    ensures i <= j <= |s| && Trim(s) == s[i..j]
    ensures forall k :: 0 <= k < i ==> IsSpace(s[k])
    ensures forall k :: j <= k < |s| ==> IsSpace(s[k])
    ensures forall k :: 0 <= k < |s| && !IsSpace(s[k]) ==> i <= k < j
  {
    var t := TrimStart(s);
    TrimStartSpec(s);
    var r := TrimEnd(t);
    TrimEndSpec(t);
    assert Trim(s) == r;
    i := |s| - |t|;
    j := i + |r|;
    SliceOfSlice(s, i, t, r);
    NonSpaceInside(s, i, j);
  }

  /** A prefix r of the suffix t = s[i..] is the slice s[i..i+|r|]. */
  lemma SliceOfSlice(s: string, i: nat, t: string, r: string)
    requires i <= |s| && t == s[i..] && |r| <= |t| && r == t[..|r|]
    ensures r == s[i..i + |r|]
    ensures forall k :: i + |r| <= k < |s| ==> s[k] == t[k - i]
  {
  }

  /** With white space only outside s[i..j], every other character lies inside. */
  lemma NonSpaceInside(s: string, i: nat, j: nat)
    requires i <= j <= |s|
    requires forall k :: 0 <= k < i ==> IsSpace(s[k])
    requires forall k :: j <= k < |s| ==> IsSpace(s[k])
    ensures forall k :: 0 <= k < |s| && !IsSpace(s[k]) ==> i <= k < j
  {
  }

  /** Trimming leaves an already trimmed string alone; so trimming is idempotent. */
  lemma TrimTrimmed(s: string)
    requires Trimmed(s)
    ensures Trim(s) == s
  {
  }

  /** Trimming never introduces a character. */
  lemma TrimKeepsOut(s: string, c: char)
    ensures c in Trim(s) ==> c in s
  {
    var i, j := TrimSlice(s);
  }

  /** Trim is idempotent. */
  lemma TrimIdempotent(s: string)
    ensures Trim(Trim(s)) == Trim(s)
  {
    TrimTrimmed(Trim(s));
  }

  /** Leading white space does not change the trimmed string. */
  lemma TrimSpacePrefix(c: char, s: string)
    requires IsSpace(c)
    ensures Trim([c] + s) == Trim(s)
  {
    assert ([c] + s)[1..] == s;
  }

  /** A string is blank exactly when every character in it is white space. */
  lemma BlankIffAllSpace(s: string)
    ensures IsBlank(s) <==> forall k :: 0 <= k < |s| ==> IsSpace(s[k])
  {
    var i, j := TrimSlice(s);
  }

  /** `s.split(sep)`: the pieces between occurrences of `sep`; the empty string gives one empty piece. */
  function Split(s: string, sep: char): (parts: seq<string>)
    ensures |parts| >= 1
  {
    if s == [] then [[]]
    else
      var rest := Split(s[1..], sep);
      if s[0] == sep then [[]] + rest
      else [[s[0]] + rest[0]] + rest[1..]
  }

  /** No piece holds the separator. */
  lemma {:induction false} SplitPiecesNoSep(s: string, sep: char)
    ensures forall k :: 0 <= k < |Split(s, sep)| ==> sep !in Split(s, sep)[k]
  {
    if s != [] {
      SplitPiecesNoSep(s[1..], sep);
      var rest := Split(s[1..], sep);
      if s[0] != sep {
        assert sep !in [s[0]] + rest[0];
      }
    }
  }

  /** Every character of every piece comes from the split string. */
  lemma {:induction false} SplitChars(s: string, sep: char, k: nat, i: nat)
    requires k < |Split(s, sep)| && i < |Split(s, sep)[k]|
    ensures Split(s, sep)[k][i] in s
  {
    if s != [] {
      var rest := Split(s[1..], sep);
      if s[0] == sep {
        SplitChars(s[1..], sep, k - 1, i);
      } else if k == 0 && i == 0 {
      } else if k == 0 {
        SplitChars(s[1..], sep, 0, i - 1);
      } else {
        SplitChars(s[1..], sep, k, i);
      }
    }
  }

  /** `parts.join(sep)`. */
  function Join(parts: seq<string>, sep: string): string {
    if |parts| == 0 then []
    else if |parts| == 1 then parts[0]
    else parts[0] + sep + Join(parts[1..], sep)
  }

  /** A string without the separator is a single piece. */
  lemma {:induction false} SplitNoSep(s: string, sep: char)
    requires sep !in s
    ensures Split(s, sep) == [s]
  {
    if s != [] {
      SplitNoSep(s[1..], sep);
      assert [s[0]] + s[1..] == s;
    }
  }

  /** Splitting around one separator splits both sides independently. */
  lemma {:induction false} SplitAround(a: string, sep: char, b: string)
    ensures Split(a + [sep] + b, sep) == Split(a, sep) + Split(b, sep)
  {
    if a == [] {
      assert a + [sep] + b == [sep] + b;
      SplitCons(sep, b, sep);
    } else {
      SplitAround(a[1..], sep, b);
      SplitAroundStep(a, sep, b);
    }
  }

  /** One step of SplitAround: the first character of a is moved in front. */
  lemma SplitAroundStep(a: string, sep: char, b: string)
    requires a != []
    requires Split(a[1..] + [sep] + b, sep) == Split(a[1..], sep) + Split(b, sep)
    ensures Split(a + [sep] + b, sep) == Split(a, sep) + Split(b, sep)
  {
    var c, y := a[0], a[1..] + [sep] + b;
    ConsAround(a, sep, b);
    SplitCons(c, y, sep);
    SplitCons(c, a[1..], sep);
    PiecesAround(c, sep, Split([c] + y, sep), Split(y, sep), Split([c] + a[1..], sep), Split(a[1..], sep), Split(b, sep));
  }

  /** a + [sep] + b, read from its first character. */
  lemma ConsAround(a: string, sep: char, b: string)
    requires a != []
    ensures a + [sep] + b == [a[0]] + (a[1..] + [sep] + b)
    ensures a == [a[0]] + a[1..]
  {
  }

  /** Prepending c to both splits keeps the pieces of back at the end. */
  lemma PiecesAround(c: char, sep: char, whole: seq<string>, tail: seq<string>,
                     first: seq<string>, front: seq<string>, back: seq<string>)
    requires |front| >= 1 && tail == front + back
    requires whole == if c == sep then [[]] + tail else [[c] + tail[0]] + tail[1..]
    requires first == if c == sep then [[]] + front else [[c] + front[0]] + front[1..]
    ensures whole == first + back
  {
    if c != sep {
      assert tail[1..] == front[1..] + back;
    }
  }

  /** Splitting a string that starts with c: c opens a new piece or joins the first one. */
  lemma SplitCons(c: char, s: string, sep: char)
    ensures Split([c] + s, sep) == if c == sep then [[]] + Split(s, sep)
                                   else [[c] + Split(s, sep)[0]] + Split(s, sep)[1..]
  {
    assert ([c] + s)[1..] == s;
  }

  /** Joining the pieces with the separator gives the original string back. */
  lemma {:induction false} JoinSplit(s: string, sep: char)
    ensures Join(Split(s, sep), [sep]) == s
  {
    if s != [] {
      var rest := Split(s[1..], sep);
      JoinSplit(s[1..], sep);
      if s[0] == sep {
        assert Join([[]] + rest, [sep]) == [] + [sep] + Join(rest, [sep]);
        assert s == [s[0]] + s[1..];
      } else {
        var parts := [[s[0]] + rest[0]] + rest[1..];
        if |rest| == 1 {
          assert parts == [[s[0]] + rest[0]];
          assert s == [s[0]] + s[1..];
        } else {
          assert parts[1..] == rest[1..];
          assert Join(rest, [sep]) == rest[0] + [sep] + Join(rest[1..], [sep]);
          assert s == [s[0]] + s[1..];
        }
      }
    }
  }

  /** Splitting a join of separator-free pieces gives the pieces back. */
  lemma {:induction false} SplitJoin(parts: seq<string>, sep: char)
    requires |parts| >= 1
    requires forall k :: 0 <= k < |parts| ==> sep !in parts[k]
    ensures Split(Join(parts, [sep]), sep) == parts
  {
    if |parts| == 1 {
      SplitNoSep(parts[0], sep);
    } else {
      SplitJoin(parts[1..], sep);
      SplitNoSep(parts[0], sep);
      SplitAround(parts[0], sep, Join(parts[1..], [sep]));
      assert [parts[0]] + parts[1..] == parts;
    }
  }

  /**
   * `s.length`: the number of UTF-16 code units, so a character outside the
   * Basic Multilingual Plane counts twice.
   */
  function Utf16Length(s: string): (n: nat)
    ensures |s| <= n <= 2 * |s|
  {
    if s == [] then 0
    else (if s[0] as int >= 0x10000 then 2 else 1) + Utf16Length(s[1..])
  }

  /** A list of strings in which no entry appears twice. */
  predicate NoDuplicates(s: seq<string>) {
    forall i, j :: 0 <= i < j < |s| ==> s[i] != s[j]
  }

  /** `s.includes(t)`: t occurs in s as a contiguous run. */
  predicate IsSubstring(t: string, s: string) {
    exists k | 0 <= k <= |s| - |t| :: OccursAt(t, s, k)
  }

  /** t occurs in s starting at index k. */
  predicate OccursAt(t: string, s: string, k: int) {
    0 <= k <= |s| - |t| && s[k..k + |t|] == t
  }

  /**
   * One way the pattern `\S+@\S+\.\S+` can match inside `s`: an `@` at `a` with
   * a non-space before it, a `.` at `d` two or more places later, only non-space
   * in between, and a non-space after the dot.
   */
  predicate EmailMatchAt(s: string, a: int, d: int) {
    && 1 <= a && a + 2 <= d && d + 1 < |s|
    && s[a] == '@' && s[d] == '.'
    && !IsSpace(s[a - 1]) && !IsSpace(s[d + 1])
    && forall k :: a < k < d ==> !IsSpace(s[k])
  }

  /** `/\S+@\S+\.\S+/.test(s)`: the pattern matches somewhere in s (it is not anchored). */
  predicate EmailPattern(s: string) {
    exists a, d | 0 <= a < |s| && 0 <= d < |s| :: EmailMatchAt(s, a, d)
  }

  /** A match in s lies inside the trimmed part, so it is a match in the trimmed string. */
  lemma EmailPatternToTrim(s: string)
    requires EmailPattern(s)
    ensures EmailPattern(Trim(s))
  {
    var i, j := TrimSlice(s);
    var t := Trim(s);
    var a, d :| 0 <= a < |s| && 0 <= d < |s| && EmailMatchAt(s, a, d);
    assert i <= a - 1 < d + 1 < j;
    forall k | a - i < k < d - i ensures !IsSpace(t[k]) {
      assert t[k] == s[k + i];
    }
    assert t[a - i] == s[a] && t[d - i] == s[d];
    assert t[a - i - 1] == s[a - 1] && t[d - i + 1] == s[d + 1];
    assert EmailMatchAt(t, a - i, d - i);
  }

  /** A match in the trimmed string is a match in the original one. */
  lemma EmailPatternFromTrim(s: string)
    requires EmailPattern(Trim(s))
    ensures EmailPattern(s)
  {
    var i, j := TrimSlice(s);
    var t := Trim(s);
    var a, d :| 0 <= a < |t| && 0 <= d < |t| && EmailMatchAt(t, a, d);
    forall k | a + i < k < d + i ensures !IsSpace(s[k]) {
      assert s[k] == t[k - i];
    }
    assert t[a] == s[a + i] && t[d] == s[d + i];
    assert t[a - 1] == s[a + i - 1] && t[d + 1] == s[d + i + 1];
    assert EmailMatchAt(s, a + i, d + i);
  }

  /** The pattern matches a string exactly when it matches its trimmed form. */
  lemma EmailPatternTrim(s: string)
    ensures EmailPattern(s) <==> EmailPattern(Trim(s))
  {
    if EmailPattern(s) { EmailPatternToTrim(s); }
    if EmailPattern(Trim(s)) { EmailPatternFromTrim(s); }
  }

  /** A string the pattern matches is never blank. */
  lemma EmailPatternNotBlank(s: string)
    requires EmailPattern(s)
    ensures !IsBlank(s)
  {
    EmailPatternToTrim(s);
  }
}
