/**
 * Go's path/filepath as the loader uses it, on a system whose separator
 * is '/': Clean and Join.
 */

module Paths {
  import opened Text

  /** A path element that Clean keeps as it is. */
  predicate Plain(e: string) {
    e != "" && e != "." && e != ".." && '/' !in e
  }

  /**
   * One element of Clean's scan: empty and "." elements vanish, ".." takes
   * back the element before it (or is dropped at the root of a rooted path,
   * or kept when there is nothing to take back), anything else is kept.
   */
  function CleanStep(stack: seq<string>, e: string, rooted: bool): seq<string> {
    if e == "" || e == "." then stack
    else if e == ".." then
      if |stack| > 0 && stack[|stack| - 1] != ".." then stack[..|stack| - 1]
      else if rooted then stack
      else stack + [".."]
    else stack + [e]
  }

  /** Clean's scan over the elements, left to right. */
  function CleanFrom(stack: seq<string>, elems: seq<string>, rooted: bool): seq<string>
    decreases |elems|
  {
    if elems == [] then stack
    else CleanFrom(CleanStep(stack, elems[0], rooted), elems[1..], rooted)
  }

  /** The kept elements joined by '/'. */
  function JoinElements(st: seq<string>): string {
    if st == [] then "" else JoinWith(st, '/')
  }

  /**
   * filepath.Clean: the shortest path naming the same file by purely
   * lexical processing; "." when nothing is left of an unrooted path.
   */
  function Clean(p: string): (r: string)
    ensures r != ""
  {
    if p == "" then "."
    else
      var body := JoinElements(Kept(p));
      if Rooted(p) then "/" + body
      else if body == "" then "."
      else body
  }

  predicate Rooted(p: string) {
    p != "" && p[0] == '/'
  }

  /** The elements of `p` that Clean keeps. */
  function Kept(p: string): seq<string> {
    CleanFrom([], Split(p, '/'), Rooted(p))
  }

  /**
   * filepath.Join of a directory and a file name: empty elements are
   * ignored and the joined path is cleaned.
   */
  function JoinPath(dir: string, name: string): string {
    if dir != "" then Clean(dir + "/" + name)
    else if name != "" then Clean(name)
    else ""
  }

  /** The elements Clean leaves: plain names, with ".." only at the front of an unrooted path. */
  predicate Normal(st: seq<string>, rooted: bool) {
    && (forall k :: 0 <= k < |st| ==> Plain(st[k]) || st[k] == "..")
    && (forall k :: 0 <= k < |st| && st[k] == ".." ==>
          !rooted && forall j :: 0 <= j < k ==> st[j] == "..")
  }

  lemma CleanStepNormal(stack: seq<string>, e: string, rooted: bool)
    requires Normal(stack, rooted) && '/' !in e
    ensures Normal(CleanStep(stack, e, rooted), rooted)
  {
  }

  /** Clean's scan only ever produces elements in normal form. */
  lemma {:induction false} CleanFromNormal(stack: seq<string>, elems: seq<string>, rooted: bool)
    requires Normal(stack, rooted)
    requires forall k :: 0 <= k < |elems| ==> '/' !in elems[k]
    ensures Normal(CleanFrom(stack, elems, rooted), rooted)
    decreases |elems|
  {
    if elems != [] {
      CleanStepNormal(stack, elems[0], rooted);
      CleanFromNormal(CleanStep(stack, elems[0], rooted), elems[1..], rooted);
    }
  }

  /** Clean's scan leaves elements that are already in normal form as they are. */
  lemma {:induction false} CleanFromFixed(stack: seq<string>, elems: seq<string>, rooted: bool)
    requires Normal(stack + elems, rooted)
    ensures CleanFrom(stack, elems, rooted) == stack + elems
    decreases |elems|
  {
    if elems != [] {
      var e := elems[0];
      var all := stack + elems;
      assert all[|stack|] == e;
      if e == ".." {
        if |stack| > 0 {
          assert all[|stack| - 1] == stack[|stack| - 1];
        }
      }
      assert CleanStep(stack, e, rooted) == stack + [e];
      assert (stack + [e]) + elems[1..] == all;
      CleanFromFixed(stack + [e], elems[1..], rooted);
    }
  }

  /** Clean's scan splits over a concatenation of element lists. */
  lemma {:induction false} CleanFromConcat(stack: seq<string>, a: seq<string>, b: seq<string>, rooted: bool)
    ensures CleanFrom(stack, a + b, rooted) == CleanFrom(CleanFrom(stack, a, rooted), b, rooted)
    decreases |a|
  {
    if a == [] {
      assert a + b == b;
    } else {
      assert (a + b)[0] == a[0];
      assert (a + b)[1..] == a[1..] + b;
      CleanFromConcat(CleanStep(stack, a[0], rooted), a[1..], b, rooted);
    }
  }

  /** A join of elements starts with the first element, and is longer than it when there are more. */
  lemma {:induction false} JoinWithHead(st: seq<string>, c: char)
    requires |st| >= 1
    ensures |JoinWith(st, c)| >= |st[0]|
    ensures JoinWith(st, c)[..|st[0]|] == st[0]
    ensures |st| > 1 ==> |JoinWith(st, c)| > |st[0]|
  {
  }

  /** Joining one more element appends a separator and that element. */
  lemma {:induction false} JoinWithSnoc(st: seq<string>, x: string, c: char)
    requires |st| >= 1
    ensures JoinWith(st + [x], c) == JoinWith(st, c) + [c] + x
    decreases |st|
  {
    if |st| > 1 {
      assert (st + [x])[1..] == st[1..] + [x];
      JoinWithSnoc(st[1..], x, c);
    }
  }

  /** The text of normal elements splits back into those elements. */
  lemma NormalSplitJoin(st: seq<string>, rooted: bool)
    requires Normal(st, rooted) && st != []
    ensures Split(JoinElements(st), '/') == st
    ensures JoinElements(st) != "" && JoinElements(st)[0] != '/'
    ensures JoinElements(st) != "."
  {
    SplitJoin(st, '/');
    JoinWithHead(st, '/');
    assert JoinElements(st)[0] == st[0][0];
  }

  /** The kept elements are in normal form. */
  lemma KeptNormal(p: string)
    ensures Normal(Kept(p), Rooted(p))
  {
    CleanFromNormal([], Split(p, '/'), Rooted(p));
  }

  /** An unrooted path of normal elements is clean. */
  lemma CleanUnrooted(st: seq<string>)
    requires Normal(st, false) && st != []
    ensures Clean(JoinElements(st)) == JoinElements(st)
  {
    NormalSplitJoin(st, false);
    CleanFromFixed([], st, false);
    assert [] + st == st;
  }

  /** A rooted path of normal elements is clean. */
  lemma CleanRooted(st: seq<string>)
    requires Normal(st, true)
    ensures Clean("/" + JoinElements(st)) == "/" + JoinElements(st)
  {
    var c := "/" + JoinElements(st);
    assert c == "" + "/" + JoinElements(st);
    assert Rooted(c);
    SplitAt("", '/', JoinElements(st));
    if st == [] {
      SplitNone("", '/');
      assert Split(c, '/') == ["", ""];
      assert ["", ""][1..] == [""] && [""][1..] == [];
      assert CleanFrom([], [""], true) == [];
      assert Kept(c) == [];
    } else {
      NormalSplitJoin(st, true);
      assert Split(c, '/') == [""] + st;
      CleanFromConcat([], [""], st, true);
      CleanFromFixed([], st, true);
      assert [] + st == st;
    }
  }

  /** Cleaning a clean path changes nothing. */
  lemma CleanIdempotent(p: string)
    ensures Clean(Clean(p)) == Clean(p)
  {
    if p == "" || (!Rooted(p) && Kept(p) == []) {
      SplitNone(".", '/');
      assert Kept(".") == [];
    } else {
      KeptNormal(p);
      if Rooted(p) {
        CleanRooted(Kept(p));
      } else {
        CleanUnrooted(Kept(p));
      }
    }
  }

  /** The first occurrence of `c` in `a`. */
  lemma {:induction false} FirstOccurrence(a: string, c: char) returns (i: nat)
    requires c in a
    ensures i < |a| && a[i] == c && c !in a[..i]
    decreases |a|
  {
    if a[0] == c {
      i := 0;
    } else {
      var j := FirstOccurrence(a[1..], c);
      i := j + 1;
      assert a[..i] == [a[0]] + a[1..][..j];
    }
  }

  /** Splitting a text with a separator in it: the pieces of each side. */
  lemma {:induction false} SplitConcat(a: string, b: string, c: char)
    ensures Split(a + [c] + b, c) == Split(a, c) + Split(b, c)
    decreases |a|
  {
    if c !in a {
      SplitAt(a, c, b);
      SplitNone(a, c);
    } else {
      var i := FirstOccurrence(a, c);
      var x, y := a[..i], a[i + 1..];
      assert a == x + [c] + y;
      ConcatAssoc(x + [c], y, [c] + b);
      ConcatAssoc(x + [c] + y, [c], b);
      ConcatAssoc(y, [c], b);
      SplitAt(x, c, y + [c] + b);
      SplitAt(x, c, y);
      SplitConcat(y, b, c);
      ConcatAssoc([x], Split(y, c), Split(b, c));
    }
  }

  /** Joining a plain name onto a non-empty directory keeps one more element. */
  lemma KeptAppend(dir: string, name: string)
    requires dir != "" && Plain(name)
    ensures Rooted(dir + "/" + name) == Rooted(dir)
    ensures Kept(dir + "/" + name) == Kept(dir) + [name]
  {
    var p := dir + "/" + name;
    assert p[0] == dir[0];
    SplitNone(name, '/');
    SplitConcat(dir, name, '/');
    CleanFromConcat([], Split(dir, '/'), [name], Rooted(dir));
  }

  /** A plain name on its own is clean. */
  lemma CleanPlain(name: string)
    requires Plain(name)
    ensures Clean(name) == name
  {
    SplitNone(name, '/');
    assert name[0] in name;
    assert !Rooted(name);
    assert CleanStep([], name, false) == [name];
    assert [name][1..] == [];
    assert CleanFrom([], [name], false) == [name];
  }

  /**
   * Joining a plain file name onto a directory appends it to the cleaned
   * directory: the current directory contributes nothing and the root
   * contributes only its '/'.
   */
  lemma JoinPlainName(dir: string, name: string)
    requires Plain(name)
    ensures JoinPath(dir, name) ==
              if Clean(dir) == "." then name
              else if Clean(dir) == "/" then "/" + name
              else Clean(dir) + "/" + name
  {
    if dir == "" {
      CleanPlain(name);
    } else {
      var p := dir + "/" + name;
      var st := Kept(dir);
      assert Rooted(p) == Rooted(dir) && Kept(p) == st + [name] by {
        KeptAppend(dir, name);
      }
      if st == [] {
        assert JoinElements(Kept(p)) == name by {
          assert st + [name] == [name];
        }
        assert Clean(dir) == if Rooted(dir) then "/" else "." by {
          assert "/" + JoinElements(st) == "/";
        }
      } else {
        var body := JoinElements(st);
        assert body != "" && body != "." && body[0] != '/' by {
          KeptNormal(dir);
          NormalSplitJoin(st, Rooted(dir));
        }
        assert |"/" + body| > 1;
        assert JoinElements(Kept(p)) == body + "/" + name by {
          JoinWithSnoc(st, name, '/');
        }
        ConcatAssoc("/", body, "/" + name);
        ConcatAssoc("/" + body, "/", name);
        ConcatAssoc(body, "/", name);
      }
    }
  }

  /** A joined plain file name is at the end of the joined path. */
  lemma JoinPathEndsWithName(dir: string, name: string)
    requires Plain(name)
    ensures |name| <= |JoinPath(dir, name)|
    ensures JoinPath(dir, name)[|JoinPath(dir, name)| - |name|..] == name
  {
    JoinPlainName(dir, name);
  }

  /** A leading "./" is cleaned away, and "./" alone is the current directory. */
  lemma CleanDotPrefix(d: string)
    requires Plain(d)
    ensures Clean("./" + d) == d
    ensures Clean("./") == "."
  {
    var p := "./" + d;
    assert p == "." + "/" + d && p[0] == '.';
    SplitAt(".", '/', d);
    SplitNone(d, '/');
    var e := [".", d];
    assert Split(p, '/') == e;
    assert e[1..] == [d] && [d][1..] == [];
    assert CleanFrom([], e, false) == CleanFrom([], [d], false) == [d];
    assert "./" == "." + "/" + "";
    SplitAt(".", '/', "");
    SplitNone("", '/');
    var f := [".", ""];
    assert f[1..] == [""] && [""][1..] == [];
    assert CleanFrom([], f, false) == CleanFrom([], [""], false) == [];
  }

  /** Doubled separators are cleaned away. */
  lemma CleanDoubled(a: string, b: string)
    requires Plain(a) && Plain(b)
    ensures Clean(a + "//" + b) == a + "/" + b
  {
    var q := [] + ['/'] + b;
    var p := a + ['/'] + q;
    assert p == a + "//" + b && p[0] == a[0];
    assert a[0] in a;
    SplitAt(a, '/', q);
    SplitAt([], '/', b);
    SplitNone(b, '/');
    var e := [a, "", b];
    assert Split(p, '/') == e;
    assert e == [a] + [""] + [b];
    assert CleanFrom([], [a], false) == [a];
    CleanFromConcat([], [a] + [""], [b], false);
    CleanFromConcat([], [a], [""], false);
    assert CleanFrom([a], [""], false) == [a];
    assert CleanFrom([a], [b], false) == [a, b];
    assert JoinWith([a, b], '/') == a + "/" + b;
  }

  /** A ".." element takes back the element before it. */
  lemma CleanParent(a: string, b: string)
    requires Plain(a) && Plain(b)
    ensures Clean(a + "/../" + b) == b
  {
    var q := ".." + ['/'] + b;
    var p := a + ['/'] + q;
    assert p == a + "/../" + b && p[0] == a[0];
    assert a[0] in a;
    SplitAt(a, '/', q);
    SplitAt("..", '/', b);
    SplitNone(b, '/');
    var f := [a, "..", b];
    assert Split(p, '/') == f;
    assert f == [a] + [".."] + [b];
    assert CleanFrom([], [a], false) == [a];
    CleanFromConcat([], [a] + [".."], [b], false);
    CleanFromConcat([], [a], [".."], false);
    assert CleanFrom([a], [".."], false) == [];
    assert CleanFrom([], [b], false) == [b];
  }

  /** A "." element inside a path is cleaned away. */
  lemma CleanInnerDot(a: string, b: string)
    requires Plain(a) && Plain(b)
    ensures Clean(a + "/./" + b) == a + "/" + b
  {
    var q := "." + ['/'] + b;
    var p := a + ['/'] + q;
    assert p == a + "/./" + b && p[0] == a[0];
    assert a[0] in a;
    SplitAt(a, '/', q);
    SplitAt(".", '/', b);
    SplitNone(b, '/');
    var e := [a, ".", b];
    assert Split(p, '/') == e;
    assert e == [a] + ["."] + [b];
    assert CleanFrom([], [a], false) == [a];
    CleanFromConcat([], [a] + ["."], [b], false);
    CleanFromConcat([], [a], ["."], false);
    assert CleanFrom([a], ["."], false) == [a];
    assert CleanFrom([a], [b], false) == [a, b];
    assert JoinWith([a, b], '/') == a + "/" + b;
  }

  /** The current directory is clean. */
  lemma CleanDot()
    ensures Clean(".") == "."
  {
    SplitNone(".", '/');
    assert Kept(".") == [];
  }

  /** The root alone is clean. */
  lemma CleanRoot()
    ensures Clean("/") == "/"
  {
    CleanRooted([]);
  }

  /** A leading "./" and the current directory contribute nothing to a joined path. */
  lemma JoinPathCurrentDir(d: string, name: string)
    requires Plain(d) && Plain(name)
    ensures JoinPath("./" + d, name) == d + "/" + name
    ensures JoinPath("./", name) == name
    ensures JoinPath(".", name) == name
  {
    CleanDotPrefix(d);
    CleanDot();
    assert d != "." && d != "/" by {
      assert d[0] in d;
    }
    JoinPlainName("./" + d, name);
    JoinPlainName("./", name);
    JoinPlainName(".", name);
  }

  /** Doubled separators, "." and ".." elements and the root are cleaned in a joined path. */
  lemma JoinPathCleans(a: string, b: string, name: string)
    requires Plain(a) && Plain(b) && Plain(name)
    ensures JoinPath(a + "//" + b, name) == a + "/" + b + "/" + name
    ensures JoinPath(a + "/./" + b, name) == a + "/" + b + "/" + name
    ensures JoinPath(a + "/../" + b, name) == b + "/" + name
    ensures JoinPath("/", name) == "/" + name
  {
    CleanDoubled(a, b);
    CleanInnerDot(a, b);
    CleanParent(a, b);
    CleanRoot();
    assert a + "/" + b != "." && a + "/" + b != "/";
    assert b != "." && b != "/" by {
      assert b[0] in b;
    }
    JoinPlainName(a + "//" + b, name);
    JoinPlainName(a + "/./" + b, name);
    JoinPlainName(a + "/../" + b, name);
    JoinPlainName("/", name);
  }
}
