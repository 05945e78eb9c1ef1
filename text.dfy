/**
 * The pieces of Go's `strings` package the loader relies on, over `seq<char>`:
 * HasPrefix, Contains, Index (of one character), Split and Join (on one separator
 * character), ReplaceAll, ToUpper and TrimSpace.
 */
module Text {

  /** `p` is a prefix of `t` (strings.HasPrefix). */
  predicate StartsWith(t: string, p: string) {
    |p| <= |t| && t[..|p|] == p
  }

  /** `s` occurs somewhere in `t` (strings.Contains). */
  predicate Contains(t: string, s: string)
    decreases |t|
  {
    StartsWith(t, s) || (t != [] && Contains(t[1..], s))
  }

  lemma {:induction false} ContainsAt(t: string, s: string)
    ensures Contains(t, s) <==> exists i :: 0 <= i <= |t| && StartsWith(t[i..], s)
    decreases |t|
  {
    if t != [] {
      ContainsAt(t[1..], s);
      if Contains(t[1..], s) {
        var i :| 0 <= i <= |t[1..]| && StartsWith(t[1..][i..], s);
        assert t[1..][i..] == t[i + 1..];
      }
      forall i | 1 <= i <= |t| && StartsWith(t[i..], s)
        ensures Contains(t[1..], s)
      {
        assert t[1..][i - 1..] == t[i..];
      }
    }
    assert t[0..] == t;
  }

  lemma StartsWithConcat(p: string, x: string)
    ensures StartsWith(p + x, p)
  {
    assert (p + x)[..|p|] == p;
  }

  /**
   * strings.Split with a one-character separator: the pieces between the
   * occurrences of `c`, never an empty list.
   */
  function Split(s: string, c: char): (parts: seq<string>)
    ensures |parts| >= 1
    ensures (c in s) <==> |parts| > 1
    ensures forall k :: 0 <= k < |parts| ==> c !in parts[k]
    decreases |s|
  {
    if s == [] then [""]
    else if s[0] == c then [""] + Split(s[1..], c)
    else
      var rest := Split(s[1..], c);
      [[s[0]] + rest[0]] + rest[1..]
  }

  /** Concatenation is associative. */
  lemma ConcatAssoc<T>(a: seq<T>, b: seq<T>, c: seq<T>)
    ensures (a + b) + c == a + (b + c)
  {
  }

  /** strings.Join with a one-character separator. */
  function JoinWith(parts: seq<string>, c: char): string
    requires |parts| >= 1
    decreases |parts|
  {
    if |parts| == 1 then parts[0] else parts[0] + [c] + JoinWith(parts[1..], c)
  }

  /** Splitting at the first separator. */
  lemma {:induction false} SplitAt(a: string, c: char, b: string)
    requires c !in a
    ensures Split(a + [c] + b, c) == [a] + Split(b, c)
    decreases |a|
  {
    var s := a + [c] + b;
    if a == [] {
      assert s == [c] + b;
      assert s[1..] == b;
    } else {
      SplitAt(a[1..], c, b);
      assert s[1..] == a[1..] + [c] + b;
      assert [a[0]] + a[1..] == a;
    }
  }

  /** Split and JoinWith are inverse: joining the pieces gives the text back. */
  lemma {:induction false} JoinSplit(s: string, c: char)
    ensures JoinWith(Split(s, c), c) == s
    decreases |s|
  {
    if s != [] {
      JoinSplit(s[1..], c);
      var rest := Split(s[1..], c);
      if s[0] != c && |rest| > 1 {
        assert JoinWith(rest, c) == rest[0] + [c] + JoinWith(rest[1..], c);
        assert ([[s[0]] + rest[0]] + rest[1..])[1..] == rest[1..];
      }
      assert s == [s[0]] + s[1..];
    }
  }

  /** ... and splitting a join of separator-free pieces gives the pieces back. */
  lemma {:induction false} SplitJoin(parts: seq<string>, c: char)
    requires |parts| >= 1
    requires forall k :: 0 <= k < |parts| ==> c !in parts[k]
    ensures Split(JoinWith(parts, c), c) == parts
    decreases |parts|
  {
    if |parts| > 1 {
      SplitJoin(parts[1..], c);
      SplitAt(parts[0], c, JoinWith(parts[1..], c));
      assert parts == [parts[0]] + parts[1..];
    } else {
      SplitNone(parts[0], c);
    }
  }

  /** A text without the separator is a single piece. */
  lemma {:induction false} SplitNone(s: string, c: char)
    requires c !in s
    ensures Split(s, c) == [s]
    decreases |s|
  {
    if s != [] {
      SplitNone(s[1..], c);
      assert [s[0]] + s[1..] == s;
    }
  }

  /**
   * strings.ReplaceAll for a non-empty `pat`: every occurrence of `pat`,
   * scanning left to right without overlaps, is replaced by `rep`.
   */
  function ReplaceAll(s: string, pat: string, rep: string): string
    requires pat != []
    decreases |s|
  {
    if StartsWith(s, pat) then rep + ReplaceAll(s[|pat|..], pat, rep)
    else if s == [] then []
    else [s[0]] + ReplaceAll(s[1..], pat, rep)
  }

  /** A text in which `pat` does not occur is left as it is. */
  lemma {:induction false} ReplaceAllAbsent(s: string, pat: string, rep: string)
    requires pat != []
    requires !Contains(s, pat)
    ensures ReplaceAll(s, pat, rep) == s
    decreases |s|
  {
    if s != [] {
      ReplaceAllAbsent(s[1..], pat, rep);
      assert s == [s[0]] + s[1..];
    }
  }

  /** Where the pattern does not start, one character is copied. */
  lemma ReplaceAllCopy(s: string, pat: string, rep: string)
    requires pat != [] && s != [] && !StartsWith(s, pat)
    ensures ReplaceAll(s, pat, rep) == [s[0]] + ReplaceAll(s[1..], pat, rep)
  {
  }

  /** A prefix at none of whose positions `pat` starts is copied unchanged. */
  lemma {:induction false} ReplaceAllSkip(x: string, y: string, pat: string, rep: string)
    requires pat != []
    requires forall i :: 0 <= i < |x| ==> !StartsWith((x + y)[i..], pat)
    ensures ReplaceAll(x + y, pat, rep) == x + ReplaceAll(y, pat, rep)
    decreases |x|
  {
    if x == [] {
      assert x + y == y;
    } else {
      var t := x[1..];
      var xy := x + y;
      assert xy[0..] == xy;
      assert xy[1..] == t + y;
      forall i | 0 <= i < |t|
        ensures !StartsWith((t + y)[i..], pat)
      {
        assert (t + y)[i..] == xy[i + 1..];
      }
      ReplaceAllSkip(t, y, pat, rep);
      ReplaceAllCopy(xy, pat, rep);
      assert xy[0] == x[0];
      assert x == [x[0]] + t;
    }
  }

  lemma ReplaceAllHit(y: string, pat: string, rep: string)
    requires pat != []
    ensures ReplaceAll(pat + y, pat, rep) == rep + ReplaceAll(y, pat, rep)
  {
    StartsWithConcat(pat, y);
    assert (pat + y)[|pat|..] == y;
  }

  /** A pattern whose first character does not occur is never found. */
  lemma {:induction false} ContainsMissingHead(t: string, pat: string)
    requires pat != [] && pat[0] !in t
    ensures !Contains(t, pat)
    decreases |t|
  {
    if t != [] {
      assert t[0] != pat[0];
      ContainsMissingHead(t[1..], pat);
    }
  }

  /** A text in which the first character of `pat` does not occur is left as it is. */
  lemma ReplaceAllMissingHead(s: string, pat: string, rep: string)
    requires pat != [] && pat[0] !in s
    ensures ReplaceAll(s, pat, rep) == s
  {
    ContainsMissingHead(s, pat);
    ReplaceAllAbsent(s, pat, rep);
  }

  /** A prefix that does not hold the first character of `pat` is copied unchanged. */
  lemma ReplaceAllFreeHead(x: string, y: string, pat: string, rep: string)
    requires pat != [] && pat[0] !in x
    ensures ReplaceAll(x + y, pat, rep) == x + ReplaceAll(y, pat, rep)
  {
    forall i | 0 <= i < |x| ensures !StartsWith((x + y)[i..], pat) {
      assert (x + y)[i..][0] == x[i];
    }
    ReplaceAllSkip(x, y, pat, rep);
  }

  /**
   * A `pat`-free text followed by a character that `pat` does not contain is
   * copied unchanged: no occurrence can start in it or reach across the character.
   */
  lemma ReplaceAllSep(x: string, d: char, y: string, pat: string, rep: string)
    requires pat != [] && d !in pat && !Contains(x, pat)
    ensures ReplaceAll(x + [d] + y, pat, rep) == x + [d] + ReplaceAll(y, pat, rep)
  {
    var xd := x + [d];
    var s := xd + y;
    ContainsAt(x, pat);
    forall i | 0 <= i < |xd| ensures !StartsWith(s[i..], pat) {
      if i + |pat| <= |x| {
        assert s[i..][..|pat|] == x[i..][..|pat|];
      } else if |pat| <= |s[i..]| {
        assert s[i..][|x| - i] == d;
      }
    }
    ReplaceAllSkip(xd, y, pat, rep);
  }

  /** Upper-casing of one character (ASCII letters only). */
  function UpperChar(ch: char): char {
    if 'a' <= ch <= 'z' then (ch as int - 32) as char else ch
  }

  /** strings.ToUpper, restricted to ASCII letters. */
  function ToUpper(s: string): string
    decreases |s|
  {
    if s == [] then [] else [UpperChar(s[0])] + ToUpper(s[1..])
  }

  lemma {:induction false} ToUpperAt(s: string)
    ensures |ToUpper(s)| == |s|
    ensures forall i :: 0 <= i < |s| ==> ToUpper(s)[i] == UpperChar(s[i])
    decreases |s|
  {
    if s != [] {
      ToUpperAt(s[1..]);
      assert forall i :: 1 <= i < |s| ==> s[1..][i - 1] == s[i];
    }
  }

  /** Upper-casing a concatenation upper-cases each part. */
  lemma {:induction false} ToUpperConcat(a: string, b: string)
    ensures ToUpper(a + b) == ToUpper(a) + ToUpper(b)
    decreases |a|
  {
    if a != [] {
      ToUpperConcat(a[1..], b);
      assert (a + b)[1..] == a[1..] + b;
    } else {
      assert a + b == b;
    }
  }

  /** Upper-casing leaves no lower-case ASCII letter and changes nothing a second time. */
  lemma ToUpperNormal(s: string)
    ensures forall i :: 0 <= i < |ToUpper(s)| ==> !('a' <= ToUpper(s)[i] <= 'z')
    ensures ToUpper(ToUpper(s)) == ToUpper(s)
  {
    ToUpperAt(s);
    ToUpperAt(ToUpper(s));
  }

  /** unicode.IsSpace. */
  predicate IsSpace(ch: char) {
    || ch == ' ' || ch == '\t' || ch == '\n' || ch == '\r'
    || ch == '\U{000B}' || ch == '\U{000C}' || ch == '\U{0085}' || ch == '\U{00A0}'
    || ch == '\U{1680}' || ('\U{2000}' <= ch <= '\U{200A}')
    || ch == '\U{2028}' || ch == '\U{2029}' || ch == '\U{202F}' || ch == '\U{205F}'
    || ch == '\U{3000}'
  }

  function TrimLeft(s: string): string
    decreases |s|
  {
    if s != [] && IsSpace(s[0]) then TrimLeft(s[1..]) else s
  }

  function TrimRight(s: string): string
    decreases |s|
  {
    if s != [] && IsSpace(s[|s| - 1]) then TrimRight(s[..|s| - 1]) else s
  }

  /** strings.TrimSpace: drops leading and trailing white space. */
  function TrimSpace(s: string): string {
    TrimRight(TrimLeft(s))
  }

  lemma {:induction false} TrimLeftSpec(s: string) returns (i: nat)
    ensures i <= |s| && TrimLeft(s) == s[i..]
    ensures forall k :: 0 <= k < i ==> IsSpace(s[k])
    ensures i < |s| ==> !IsSpace(s[i])
    decreases |s|
  {
    if s != [] && IsSpace(s[0]) {
      var j := TrimLeftSpec(s[1..]);
      i := j + 1;
      assert s[1..][j..] == s[i..];
      forall k | 1 <= k < i ensures IsSpace(s[k]) {
        assert s[k] == s[1..][k - 1];
      }
      if i < |s| {
        assert s[i] == s[1..][j];
      }
    } else {
      i := 0;
    }
  }

  lemma {:induction false} TrimRightSpec(s: string) returns (j: nat)
    ensures j <= |s| && TrimRight(s) == s[..j]
    ensures forall k :: j <= k < |s| ==> IsSpace(s[k])
    ensures 0 < j ==> !IsSpace(s[j - 1])
    decreases |s|
  {
    if s != [] && IsSpace(s[|s| - 1]) {
      j := TrimRightSpec(s[..|s| - 1]);
      assert s[..|s| - 1][..j] == s[..j];
      forall k | j <= k < |s| - 1 ensures IsSpace(s[k]) {
        assert s[k] == s[..|s| - 1][k];
      }
      if 0 < j {
        assert s[j - 1] == s[..|s| - 1][j - 1];
      }
    } else {
      j := |s|;
    }
  }

  /**
   * TrimSpace keeps a contiguous piece of its input: everything cut off
   * on either side is white space, and the piece neither starts nor ends with it.
   */
  lemma TrimSpaceSpec(s: string)
    ensures exists i, j :: 0 <= i <= j <= |s| && TrimSpace(s) == s[i..j]
                           && (forall k :: 0 <= k < i ==> IsSpace(s[k]))
                           && (forall k :: j <= k < |s| ==> IsSpace(s[k]))
    ensures TrimSpace(s) != [] ==> !IsSpace(TrimSpace(s)[0]) && !IsSpace(TrimSpace(s)[|TrimSpace(s)| - 1])
  {
    var i := TrimLeftSpec(s);
    var t := s[i..];
    var j := TrimRightSpec(t);
    assert TrimSpace(s) == s[i..i + j];
    forall k | i + j <= k < |s| ensures IsSpace(s[k]) {
      assert s[k] == t[k - i];
    }
    if j > 0 {
      assert !IsSpace(t[0]);
    }
  }

  /** Trimming a second time changes nothing. */
  lemma TrimSpaceIdempotent(s: string)
    ensures TrimSpace(TrimSpace(s)) == TrimSpace(s)
  {
    TrimSpaceSpec(s);
    var r := TrimSpace(s);
    var i := TrimLeftSpec(r);
    assert i == 0;
    assert r[0..] == r;
    var j := TrimRightSpec(r);
    assert j == |r|;
    assert r[..|r|] == r;
  }
}
