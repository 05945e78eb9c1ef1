/**
 * replaceEnvironments: every `${NAME}` or `${NAME:default}` reference in a
 * string value is replaced by the environment variable NAME when it is set,
 * and by the default (or nothing) when it is not; an empty reference `${}`
 * is an error.
 */
module Interpolation {
  import opened Outcomes
  import opened Text

  const MissingNameMessage: string := "environment name is missing"

  /** One match of the reference pattern: the whole text `${value}` and the part between the braces. */
  datatype Reference = Reference(whole: string, value: string)

  /**
   * Where the lazy `.*?` of the pattern stops: the index of the first '}' of
   * `t`, provided no newline comes before it (`.` does not match a newline).
   */
  function Close(t: string): (r: Option<nat>)
    ensures r.Some? ==> r.value < |t| && t[r.value] == '}' && '}' !in t[..r.value] && '\n' !in t[..r.value]
    ensures r.None? ==> forall k :: 0 <= k < |t| && t[k] == '}' ==> '\n' in t[..k]
    decreases |t|
  {
    if t == [] then None
    else if t[0] == '}' then Some(0)
    else if t[0] == '\n' then None
    else match Close(t[1..])
      case None =>
        assert forall k :: 1 <= k < |t| ==> t[1..][..k - 1] == t[1..k];
        None
      case Some(j) =>
        assert t[..j + 1] == [t[0]] + t[1..][..j];
        Some(j + 1)
  }

  /**
   * FindAllStringSubmatch of `\$\{(.*?|)\}`: matches from left to right,
   * without overlaps; where a `${` has no closing brace on its line, the
   * search moves on by one character.
   */
  function FindReferences(s: string): (r: seq<Reference>)
    ensures forall k :: 0 <= k < |r| ==>
      r[k].whole == "${" + r[k].value + "}" && '}' !in r[k].value && '\n' !in r[k].value
    decreases |s|
  {
    if |s| < 2 then []
    else if s[0] == '$' && s[1] == '{' then
      match Close(s[2..])
      case Some(j) =>
        assert s[2..j + 2] == s[2..][..j];
        assert s[j + 2] == s[2..][j] == '}';
        assert s[..2] == "${";
        assert s[..j + 3] == s[..2] + s[2..j + 2] + [s[j + 2]];
        [Reference(s[..j + 3], s[2..j + 2])] + FindReferences(s[j + 3..])
      case None => FindReferences(s[1..])
    else FindReferences(s[1..])
  }

  /** The replacement for a reference: the variable if set, else the text after the first ':' up to the next one. */
  function Resolve(value: string, env: map<string, string>): string {
    var parts := Split(value, ':');
    if parts[0] in env then env[parts[0]]
    else if |parts| > 1 then parts[1]
    else ""
  }

  /** The outcome of replaceEnvironments: the result so far, and whether an empty reference stopped it. */
  datatype Interpolated = Interpolated(result: string, missingName: bool)

  /** The replacement loop from a partial result on: each reference is replaced everywhere, in turn. */
  function SubstituteFrom(result: string, refs: seq<Reference>, env: map<string, string>): Interpolated
    requires forall k :: 0 <= k < |refs| ==> refs[k].whole != []
    decreases |refs|
  {
    if refs == [] then Interpolated(result, false)
    else if refs[0].value == "" then Interpolated(result, true)
    else SubstituteFrom(ReplaceAll(result, refs[0].whole, Resolve(refs[0].value, env)), refs[1..], env)
  }

  /** replaceEnvironments on a string, as a value. */
  function Interpolate(s: string, env: map<string, string>): Interpolated {
    SubstituteFrom(s, FindReferences(s), env)
  }

  /** replaceEnvironments: the loop over the matches, in the environment `env`. */
  method ReplaceEnvironments(str: string, env: map<string, string>) returns (result: string, err: Option<string>)
    ensures Interpolated(result, err.Some?) == Interpolate(str, env)
    ensures err.Some? ==> err.value == MissingNameMessage
  {
    var refs := FindReferences(str);
    result := str;
    for i := 0 to |refs|
      invariant SubstituteFrom(result, refs[i..], env) == Interpolate(str, env)
    {
      var whole, value := refs[i].whole, refs[i].value;
      if value == "" {
        return result, Some(MissingNameMessage);
      }
      var s := Split(value, ':');
      var envName := s[0];
      if envName in env {
        result := ReplaceAll(result, whole, env[envName]);
      } else {
        var defaultVal := "";
        if |s| > 1 {
          defaultVal := s[1];
        }
        result := ReplaceAll(result, whole, defaultVal);
      }
      assert refs[i..][1..] == refs[i + 1..];
    }
    err := None;
  }

  /** Text without `${` holds no reference. */
  lemma {:induction false} FindNone(s: string)
    requires !Contains(s, "${")
    ensures FindReferences(s) == []
    decreases |s|
  {
    if |s| >= 2 {
      assert s[..2] == [s[0], s[1]];
      assert !(s[0] == '$' && s[1] == '{');
      FindNone(s[1..]);
    }
  }

  /** A prefix without '$' holds no reference and cannot start one. */
  lemma {:induction false} FindAfterFree(x: string, y: string)
    requires '$' !in x
    ensures FindReferences(x + y) == FindReferences(y)
    decreases |x|
  {
    if x != [] {
      var s := x + y;
      FindAfterFree(x[1..], y);
      assert s[1..] == x[1..] + y;
      assert s[0] == x[0] != '$';
      if |s| < 2 {
        assert y == [] && x[1..] == [];
        assert FindReferences(s) == [];
        assert FindReferences(y) == [];
      } else {
        assert FindReferences(s) == FindReferences(s[1..]);
      }
    } else {
      assert x + y == y;
    }
  }

  lemma {:induction false} CloseAfter(v: string, rest: string)
    requires '}' !in v && '\n' !in v
    ensures Close(v + "}" + rest) == Some(|v|)
    decreases |v|
  {
    if v != [] {
      CloseAfter(v[1..], rest);
      assert (v + "}" + rest)[1..] == v[1..] + "}" + rest;
    }
  }

  /** A well-formed reference at the front is the first match, and the search resumes after it. */
  lemma FindAt(v: string, y: string)
    requires '}' !in v && '\n' !in v
    ensures FindReferences("${" + v + "}" + y) == [Reference("${" + v + "}", v)] + FindReferences(y)
  {
    var s := "${" + v + "}" + y;
    assert s[2..] == v + "}" + y;
    CloseAfter(v, y);
    assert s[..|v| + 3] == "${" + v + "}";
    assert s[2..|v| + 2] == v;
    assert s[|v| + 3..] == y;
  }

  /** A string without references is returned unchanged and without error. */
  lemma InterpolateNoReference(s: string, env: map<string, string>)
    requires !Contains(s, "${")
    ensures Interpolate(s, env) == Interpolated(s, false)
  {
    FindNone(s);
  }

  /** The first reference being `${}` stops the loop with an error and the text unchanged. */
  lemma InterpolateMissingName(a: string, b: string, env: map<string, string>)
    requires '$' !in a
    ensures Interpolate(a + "${}" + b, env) == Interpolated(a + "${}" + b, true)
  {
    var s := a + "${}" + b;
    assert s == a + ("${}" + b);
    FindAfterFree(a, "${}" + b);
    assert "${}" + b == "${" + "" + "}" + b;
    FindAt("", b);
    var refs := FindReferences(s);
    assert refs[0] == Reference("${}", "");
  }

  /** The loop reports a missing name iff some reference it meets is empty. */
  lemma {:induction false} SubstituteMissing(result: string, refs: seq<Reference>, env: map<string, string>)
    requires forall k :: 0 <= k < |refs| ==> refs[k].whole != []
    ensures SubstituteFrom(result, refs, env).missingName <==> exists k :: 0 <= k < |refs| && refs[k].value == ""
    decreases |refs|
  {
    if refs != [] && refs[0].value != "" {
      var next := ReplaceAll(result, refs[0].whole, Resolve(refs[0].value, env));
      SubstituteMissing(next, refs[1..], env);
      if exists k :: 0 <= k < |refs| && refs[k].value == "" {
        var k :| 0 <= k < |refs| && refs[k].value == "";
        assert refs[1..][k - 1].value == "";
      }
      if exists k :: 0 <= k < |refs[1..]| && refs[1..][k].value == "" {
        var k :| 0 <= k < |refs[1..]| && refs[1..][k].value == "";
        assert refs[k + 1].value == "";
      }
    }
  }

  /**
   * At the first empty reference the loop stops with the error, keeping the
   * replacements of every reference before it.
   */
  lemma {:induction false} SubstituteStopsAt(result: string, refs: seq<Reference>, env: map<string, string>, k: nat)
    requires forall j :: 0 <= j < |refs| ==> refs[j].whole != []
    requires k < |refs| && refs[k].value == "" && forall j :: 0 <= j < k ==> refs[j].value != ""
    ensures SubstituteFrom(result, refs, env) == Interpolated(SubstituteFrom(result, refs[..k], env).result, true)
    decreases k
  {
    if k > 0 {
      var next := ReplaceAll(result, refs[0].whole, Resolve(refs[0].value, env));
      SubstituteStopsAt(next, refs[1..], env, k - 1);
      assert refs[..k][1..] == refs[1..][..k - 1];
    }
  }

  /** replaceEnvironments fails iff one of the matches has an empty name. */
  lemma InterpolateMissingAny(s: string, env: map<string, string>)
    ensures Interpolate(s, env).missingName <==>
              exists k :: 0 <= k < |FindReferences(s)| && FindReferences(s)[k].value == ""
  {
    SubstituteMissing(s, FindReferences(s), env);
  }

  /**
   * When match `k` is the first with an empty name, replaceEnvironments
   * returns the error and the text with the matches before `k` replaced.
   */
  lemma InterpolateStopsAt(s: string, env: map<string, string>, k: nat)
    requires k < |FindReferences(s)| && FindReferences(s)[k].value == ""
    requires forall j :: 0 <= j < k ==> FindReferences(s)[j].value != ""
    ensures Interpolate(s, env) == Interpolated(SubstituteFrom(s, FindReferences(s)[..k], env).result, true)
  {
    SubstituteStopsAt(s, FindReferences(s), env, k);
  }

  /** One reference in '$'-free text is replaced by what it resolves to. */
  lemma InterpolateOne(a: string, v: string, b: string, env: map<string, string>)
    requires '$' !in a && '$' !in b && v != [] && '}' !in v && '\n' !in v
    ensures Interpolate(a + "${" + v + "}" + b, env) == Interpolated(a + Resolve(v, env) + b, false)
  {
    var w := "${" + v + "}";
    var r := Resolve(v, env);
    var s := a + (w + b);
    assert a + "${" + v + "}" + b == s;
    FindOne(a, v, b, w);
    ReplaceOne(a, w, b, r);
    var refs := [Reference(w, v)];
    assert refs[1..] == [];
    calc {
      Interpolate(s, env);
      SubstituteFrom(s, refs, env);
      SubstituteFrom(a + (r + b), [], env);
    }
    assert a + (r + b) == a + r + b;
  }

  /** The only reference between two texts without '$'. */
  lemma FindOne(a: string, v: string, b: string, w: string)
    requires '$' !in a && '$' !in b && '}' !in v && '\n' !in v && w == "${" + v + "}"
    ensures FindReferences(a + (w + b)) == [Reference(w, v)]
  {
    FindAfterFree(a, w + b);
    assert w + b == "${" + v + "}" + b;
    FindAt(v, b);
    FindAfterFree(b, []);
    assert b + [] == b;
  }

  /** Replacing a reference that occurs once, between two texts without '$'. */
  lemma ReplaceOne(a: string, w: string, b: string, r: string)
    requires '$' !in a && '$' !in b && w != [] && w[0] == '$'
    ensures ReplaceAll(a + (w + b), w, r) == a + (r + b)
  {
    ReplaceAllFreeHead(a, w + b, w, r);
    ReplaceAllHit(b, w, r);
    ReplaceAllMissingHead(b, w, r);
  }

  lemma {:induction false} DiffIndex(v1: string, v2: string) returns (k: nat)
    requires |v1| == |v2| && v1 != v2
    ensures k < |v1| && v1[k] != v2[k]
    decreases |v1|
  {
    assert v1 == [v1[0]] + v1[1..] && v2 == [v2[0]] + v2[1..];
    if v1[0] != v2[0] {
      k := 0;
    } else {
      var k' := DiffIndex(v1[1..], v2[1..]);
      k := k' + 1;
    }
  }

  /** A different reference does not start where another one does. */
  lemma OtherReferenceDiffers(v1: string, v2: string, y: string)
    requires v1 != v2 && '}' !in v1 && '}' !in v2
    ensures !StartsWith("${" + v2 + "}" + y, "${" + v1 + "}")
  {
    var w1 := "${" + v1 + "}";
    var t := "${" + v2 + "}" + y;
    var k: nat;
    if |v1| < |v2| {
      k := |v1| + 2;
      assert w1[k] == '}' && t[k] == v2[|v1|];
    } else if |v1| > |v2| {
      k := |v2| + 2;
      assert t[k] == '}' && w1[k] == v1[|v2|];
    } else {
      var d := DiffIndex(v1, v2);
      k := d + 2;
      assert t[k] == v2[d] && w1[k] == v1[d];
    }
    assert k < |w1| && w1[k] != t[k];
    if |w1| <= |t| {
      assert t[..|w1|][k] == t[k];
    }
  }

  lemma SecondReferenceUntouched(v1: string, v2: string, b: string, r: string)
    requires v1 != v2 && '}' !in v1 && '}' !in v2 && '$' !in v2 && '$' !in b
    ensures ReplaceAll("${" + v2 + "}" + b, "${" + v1 + "}", r) == "${" + v2 + "}" + b
  {
    var w1 := "${" + v1 + "}";
    var t := "${" + v2 + "}" + b;
    OtherReferenceDiffers(v1, v2, b);
    assert t[1..] == "{" + v2 + "}" + b;
    assert '$' !in t[1..];
    assert ReplaceAll(t, w1, r) == [t[0]] + ReplaceAll(t[1..], w1, r);
    ReplaceAllMissingHead(t[1..], w1, r);
  }

  /** The two matches of a text with two references. */
  lemma FindTwo(a: string, v1: string, m: string, v2: string, b: string, w1: string, w2: string)
    requires '$' !in a && '$' !in m && '$' !in b
    requires '}' !in v1 && '\n' !in v1 && '}' !in v2 && '\n' !in v2
    requires w1 == "${" + v1 + "}" && w2 == "${" + v2 + "}"
    ensures FindReferences(a + (w1 + (m + (w2 + b)))) == [Reference(w1, v1), Reference(w2, v2)]
  {
    var t3 := w2 + b;
    var t2 := m + t3;
    var t1 := w1 + t2;
    FindAfterFree(a, t1);
    FindAt(v1, t2);
    FindAfterFree(m, t3);
    FindAt(v2, b);
    FindAfterFree(b, []);
    assert b + [] == b;
  }

  /** The first pass replaces the first reference, and the second too when it is the same. */
  lemma FirstPass(a: string, v1: string, m: string, v2: string, b: string, w1: string, w2: string, r1: string)
    requires '$' !in a && '$' !in m && '$' !in b
    requires '}' !in v1 && '}' !in v2 && '$' !in v2
    requires w1 == "${" + v1 + "}" && w2 == "${" + v2 + "}"
    ensures ReplaceAll(a + (w1 + (m + (w2 + b))), w1, r1)
            == a + (r1 + (m + (if v1 == v2 then r1 + b else w2 + b)))
  {
    var t3 := w2 + b;
    var t2 := m + t3;
    var t1 := w1 + t2;
    ReplaceAllFreeHead(a, t1, w1, r1);
    ReplaceAllHit(t2, w1, r1);
    ReplaceAllFreeHead(m, t3, w1, r1);
    if v1 == v2 {
      ReplaceAllHit(b, w1, r1);
      ReplaceAllMissingHead(b, w1, r1);
    } else {
      SecondReferenceUntouched(v1, v2, b, r1);
    }
  }

  /** The second pass replaces the second reference, if the first pass left it. */
  lemma SecondPass(a: string, r1: string, m: string, v2: string, b: string, w2: string, r2: string, same: bool)
    requires '$' !in a && '$' !in r1 && '$' !in m && '$' !in b && '$' !in r2
    requires w2 == "${" + v2 + "}"
    ensures ReplaceAll(a + (r1 + (m + (if same then r2 + b else w2 + b))), w2, r2)
            == a + (r1 + (m + (r2 + b)))
  {
    var x := a + (r1 + m);
    assert '$' !in x;
    if same {
      ReplaceAllMissingHead(a + (r1 + (m + (r2 + b))), w2, r2);
    } else {
      assert a + (r1 + (m + (w2 + b))) == x + (w2 + b);
      ReplaceAllFreeHead(x, w2 + b, w2, r2);
      ReplaceAllHit(b, w2, r2);
      ReplaceAllMissingHead(b, w2, r2);
    }
  }

  /** Both passes together. */
  lemma TwoPasses(a: string, v1: string, m: string, v2: string, b: string, w1: string, w2: string, r1: string, r2: string)
    requires '$' !in a && '$' !in m && '$' !in b && '$' !in r1 && '$' !in r2
    requires '}' !in v1 && '}' !in v2 && '$' !in v2
    requires w1 == "${" + v1 + "}" && w2 == "${" + v2 + "}"
    requires v1 == v2 ==> r1 == r2
    ensures ReplaceAll(ReplaceAll(a + (w1 + (m + (w2 + b))), w1, r1), w2, r2) == a + r1 + m + r2 + b
  {
    var s := a + (w1 + (m + (w2 + b)));
    var done := a + (r1 + (m + (r2 + b)));
    if v1 == v2 {
      assert ReplaceAll(s, w1, r1) == a + (r1 + (m + (r2 + b))) by {
        FirstPass(a, v1, m, v2, b, w1, w2, r1);
      }
      SecondPass(a, r1, m, v2, b, w2, r2, true);
    } else {
      assert ReplaceAll(s, w1, r1) == a + (r1 + (m + (w2 + b))) by {
        FirstPass(a, v1, m, v2, b, w1, w2, r1);
      }
      SecondPass(a, r1, m, v2, b, w2, r2, false);
    }
    assert done == a + r1 + m + r2 + b by {
      ConcatAssoc(m, r2, b);
      ConcatAssoc(r1, m + r2, b);
      ConcatAssoc(r1, m, r2);
      ConcatAssoc(a, r1 + m + r2, b);
      ConcatAssoc(a, r1 + m, r2);
      ConcatAssoc(a, r1, m);
    }
  }

  /** The text of two references, grouped from the right. */
  lemma TwoShape(a: string, v1: string, m: string, v2: string, b: string)
    ensures a + "${" + v1 + "}" + m + "${" + v2 + "}" + b
            == a + ("${" + v1 + "}" + (m + ("${" + v2 + "}" + b)))
  {
    var w1 := "${" + v1 + "}";
    var w2 := "${" + v2 + "}";
    ConcatAssoc(m, w2, b);
    ConcatAssoc(w1, m + w2, b);
    ConcatAssoc(w1, m, w2);
    ConcatAssoc(a, w1 + m + w2, b);
    ConcatAssoc(a, w1 + m, w2);
    ConcatAssoc(a, w1, m);
    ConcatAssoc(a + "${", v1, "}");
    ConcatAssoc(a, "${", v1 + "}");
    ConcatAssoc(a + w1 + m + "${", v2, "}");
    ConcatAssoc(a + w1 + m, "${", v2 + "}");
  }

  /**
   * Two references in '$'-free text, resolving to '$'-free values, are
   * replaced in place (the same reference twice is replaced in both places
   * by the first pass).
   */
  lemma InterpolateTwo(a: string, v1: string, m: string, v2: string, b: string, env: map<string, string>)
    requires '$' !in a && '$' !in m && '$' !in b
    requires v1 != [] && '}' !in v1 && '\n' !in v1 && '$' !in v1
    requires v2 != [] && '}' !in v2 && '\n' !in v2 && '$' !in v2
    requires '$' !in Resolve(v1, env) && '$' !in Resolve(v2, env)
    ensures Interpolate(a + "${" + v1 + "}" + m + "${" + v2 + "}" + b, env)
            == Interpolated(a + Resolve(v1, env) + m + Resolve(v2, env) + b, false)
  {
    var w1 := "${" + v1 + "}";
    var w2 := "${" + v2 + "}";
    var r1 := Resolve(v1, env);
    var r2 := Resolve(v2, env);
    var s := a + (w1 + (m + (w2 + b)));
    TwoShape(a, v1, m, v2, b);
    var refs := [Reference(w1, v1), Reference(w2, v2)];
    calc {
      Interpolate(s, env);
      { FindTwo(a, v1, m, v2, b, w1, w2); }
      SubstituteFrom(s, refs, env);
      { assert refs[1..] == [Reference(w2, v2)]; }
      SubstituteFrom(ReplaceAll(s, w1, r1), [Reference(w2, v2)], env);
      { assert [Reference(w2, v2)][1..] == []; }
      SubstituteFrom(ReplaceAll(ReplaceAll(s, w1, r1), w2, r2), [], env);
      { TwoPasses(a, v1, m, v2, b, w1, w2, r1, r2); }
      Interpolated(a + r1 + m + r2 + b, false);
    }
  }

  /** A set variable is used whatever default follows its name. */
  lemma ResolveSet(name: string, rest: string, env: map<string, string>)
    requires ':' !in name && name in env
    ensures Resolve(name, env) == env[name]
    ensures Resolve(name + ":" + rest, env) == env[name]
  {
    SplitNone(name, ':');
    SplitAt(name, ':', rest);
    assert name + ":" + rest == name + [':'] + rest;
  }

  /**
   * An unset variable gives "" without a default, the default after the
   * colon, and of a default holding a further colon only the part before it.
   */
  lemma ResolveUnset(name: string, d1: string, d2: string, env: map<string, string>)
    requires ':' !in name && ':' !in d1 && name !in env
    ensures Resolve(name, env) == ""
    ensures ':' !in d2 ==> Resolve(name + ":" + d1, env) == d1
    ensures Resolve(name + ":" + d1 + ":" + d2, env) == d1
  {
    assert Resolve(name, env) == "" by {
      SplitNone(name, ':');
    }
    assert Resolve(name + ":" + d1, env) == d1 by {
      SplitNone(d1, ':');
      SplitAt(name, ':', d1);
    }
    assert Resolve(name + ":" + d1 + ":" + d2, env) == d1 by {
      var t := d1 + [':'] + d2;
      assert name + ":" + d1 + ":" + d2 == name + [':'] + t by {
        ConcatAssoc(name + [':'] + d1, [':'], d2);
        ConcatAssoc(name + [':'], d1, [':'] + d2);
        ConcatAssoc(d1, [':'], d2);
      }
      SplitAt(d1, ':', d2);
      SplitAt(name, ':', t);
    }
  }
}
