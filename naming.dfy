/**
 * Logical file names: the main configuration file, one profile file per
 * profile (named by substituting into the profile layout), the tags that
 * classify a found file, and the `origin:tag=path` text of a located file.
 */
module Naming {
  import opened Outcomes
  import opened Text
  import opened Numbers

  const DefaultFilename: string := "config.yaml"
  const DefaultDir: string := "."
  const DefaultTag: string := "conf"
  /** time.RFC3339, Go's reference-time layout. */
  const DefaultTimeLayout: string := "2006-01-02T15:04:05Z07:00"
  const DefaultProfileLayout: string := "config.test.yaml"
  const MainFileIndicator: string := "#main"
  const ProfileFileIndicator: string := "#profile"
  const EmbedLocationIndicator: string := "#embed"
  const LocalLocationIndicator: string := "#local"

  /** What the file naming depends on: the main file name, the profile layout and the profiles. */
  datatype Names = Names(filename: string, layout: string, profiles: seq<string>)

  /**
   * Profile file names take the part of the main file name after its first
   * dot, so with profiles the main file name must contain a dot.
   */
  predicate Nameable(n: Names) {
    n.profiles == [] || '.' in n.filename
  }

  /**
   * profileFileName: in the layout, every "config" becomes the main file's
   * stem, then every "test" the profile, then every "yaml" the extension
   * (stem and extension being the first two dot-separated parts of the name).
   */
  function ProfileFileName(n: Names, profile: string): string
    requires '.' in n.filename
  {
    var parts := Split(n.filename, '.');
    var named := ReplaceAll(n.layout, "config", parts[0]);
    var profiled := ReplaceAll(named, "test", profile);
    ReplaceAll(profiled, "yaml", parts[1])
  }

  /** The profile file names in profile order. */
  function ProfileFileNames(n: Names): (r: seq<string>)
    requires Nameable(n)
    ensures |r| == |n.profiles|
    ensures forall i :: 0 <= i < |r| ==> r[i] == ProfileFileName(n, n.profiles[i])
  {
    seq(|n.profiles|, i requires 0 <= i < |n.profiles| => ProfileFileName(n, n.profiles[i]))
  }

  /** initExpectedConfigFiles: the main file, then each profile's file. */
  function ExpectedFiles(n: Names): seq<string>
    requires Nameable(n)
  {
    [n.filename] + ProfileFileNames(n)
  }

  /** The expected list names the main file first and then one file per profile, in order. */
  lemma ExpectedFilesShape(n: Names)
    requires Nameable(n)
    ensures |ExpectedFiles(n)| == 1 + |n.profiles|
    ensures ExpectedFiles(n)[0] == n.filename
    ensures forall i :: 0 <= i < |n.profiles| ==> ExpectedFiles(n)[i + 1] == ProfileFileName(n, n.profiles[i])
  {
  }

  /** A pattern at the front, and nowhere after it. */
  lemma ReplaceHead(pat: string, rest: string, rep: string)
    requires pat != [] && pat[0] !in rest
    ensures ReplaceAll(pat + rest, pat, rep) == rep + rest
  {
    ReplaceAllHit(rest, pat, rep);
    ReplaceAllMissingHead(rest, pat, rep);
  }

  lemma LayoutStem(stem: string)
    ensures ReplaceAll(DefaultProfileLayout, "config", stem) == stem + ".test.yaml"
  {
    var rest := ".test.yaml";
    assert DefaultProfileLayout == "config" + rest;
    assert 'c' !in rest;
    ReplaceHead("config", rest, stem);
  }

  lemma LayoutProfile(stem: string, profile: string)
    requires !Contains(stem, "test")
    ensures ReplaceAll(stem + ".test.yaml", "test", profile) == stem + "." + profile + ".yaml"
  {
    var rest := ".yaml";
    var tail := "test" + rest;
    assert stem + ".test.yaml" == stem + ['.'] + tail;
    ReplaceAllSep(stem, '.', tail, "test", profile);
    assert 't' !in rest;
    ReplaceHead("test", rest, profile);
    assert stem + ['.'] + (profile + rest) == stem + "." + profile + ".yaml";
  }

  lemma LayoutExtension(stem: string, profile: string, ext: string)
    requires !Contains(stem, "yaml") && !Contains(profile, "yaml")
    ensures ReplaceAll(stem + "." + profile + ".yaml", "yaml", ext) == stem + "." + profile + "." + ext
  {
    var tail := "yaml" + "";
    var mid := profile + ['.'] + tail;
    assert stem + "." + profile + ".yaml" == stem + ['.'] + mid;
    ReplaceAllSep(profile, '.', tail, "yaml", ext);
    ReplaceHead("yaml", "", ext);
    assert ReplaceAll(mid, "yaml", ext) == profile + ['.'] + (ext + "");
    ReplaceAllSep(stem, '.', mid, "yaml", ext);
    assert stem + ['.'] + (profile + ['.'] + (ext + "")) == stem + "." + profile + "." + ext;
  }

  /**
   * With the default layout, a name `stem.ext` and a profile `p` give
   * `stem.p.ext`, as long as the substituted pieces do not themselves hold
   * the words the later substitutions look for.
   */
  lemma DefaultProfileFileName(stem: string, ext: string, profiles: seq<string>, profile: string)
    requires '.' !in stem && '.' !in ext
    requires !Contains(stem, "test") && !Contains(stem, "yaml") && !Contains(profile, "yaml")
    ensures ProfileFileName(Names(stem + "." + ext, DefaultProfileLayout, profiles), profile)
            == stem + "." + profile + "." + ext
  {
    SplitAt(stem, '.', ext);
    SplitNone(ext, '.');
    assert stem + "." + ext == stem + ['.'] + ext;
    LayoutStem(stem);
    LayoutProfile(stem, profile);
    LayoutExtension(stem, profile, ext);
  }

  /**
   * A name with more than one '.' keeps only its first two dot-separated
   * parts: `stem.mid.tail` and profile `p` give `stem.p.mid`, and the tail
   * (`.yaml` of `app.prod.yaml`, say) is dropped.
   */
  lemma ProfileFileNameDropsTail(stem: string, mid: string, tail: string, profiles: seq<string>, profile: string)
    requires '.' !in stem && '.' !in mid
    requires !Contains(stem, "test") && !Contains(stem, "yaml") && !Contains(profile, "yaml")
    ensures ProfileFileName(Names(stem + "." + mid + "." + tail, DefaultProfileLayout, profiles), profile)
            == stem + "." + profile + "." + mid
  {
    var rest := mid + ['.'] + tail;
    assert stem + "." + mid + "." + tail == stem + ['.'] + rest by {
      ConcatAssoc(stem + ['.'] + mid, ['.'], tail);
      ConcatAssoc(stem + ['.'], mid, ['.'] + tail);
      ConcatAssoc(mid, ['.'], tail);
    }
    SplitAt(stem, '.', rest);
    SplitAt(mid, '.', tail);
    LayoutStem(stem);
    LayoutProfile(stem, profile);
    LayoutExtension(stem, profile, mid);
  }

  /** The tag of the profile with index `idx`: `#profile_NN_name` with a two-digit index. */
  function ProfileTag(idx: nat, profile: string): string {
    ProfileFileIndicator + "_" + Pad2(idx) + "_" + profile
  }

  /** The index of the first occurrence of `name` in `names`, if any. */
  function FirstIndex(names: seq<string>, name: string): (r: Option<nat>)
    ensures r.None? <==> name !in names
    ensures r.Some? ==> r.value < |names| && names[r.value] == name
    ensures r.Some? ==> forall j :: 0 <= j < r.value ==> names[j] != name
    decreases |names|
  {
    if names == [] then None
    else if names[0] == name then Some(0)
    else match FirstIndex(names[1..], name)
      case None => None
      case Some(k) => Some(k + 1)
  }

  /**
   * fileExists (the method): the main tag for the main file name, the tag of
   * the first profile whose file has this name, or "" for any other name.
   */
  function FileTag(n: Names, name: string): string
    requires Nameable(n)
  {
    if name == n.filename then MainFileIndicator
    else match FirstIndex(ProfileFileNames(n), name)
      case Some(i) => ProfileTag(i, n.profiles[i])
      case None => ""
  }

  /** Every tag starts with '#'; a profile tag differs from the main tag in its second character. */
  lemma ProfileTagShape(idx: nat, profile: string)
    ensures |ProfileTag(idx, profile)| > 9 && ProfileTag(idx, profile)[..9] == "#profile_"
    ensures ProfileTag(idx, profile) != MainFileIndicator && ProfileTag(idx, profile) != ""
  {
    assert ProfileTag(idx, profile)[1] == 'p';
  }

  /**
   * FileTag's three outcomes: the main tag exactly for the main file name,
   * "" exactly for a name that is not expected, and otherwise the tag of the
   * first profile whose file name matches.
   */
  lemma FileTagSpec(n: Names, name: string)
    requires Nameable(n)
    ensures FileTag(n, name) == MainFileIndicator <==> name == n.filename
    ensures FileTag(n, name) == "" <==> name !in ExpectedFiles(n)
    ensures name != n.filename && name in ProfileFileNames(n) ==>
      exists i :: 0 <= i < |n.profiles| && FileTag(n, name) == ProfileTag(i, n.profiles[i])
                  && ProfileFileName(n, n.profiles[i]) == name
                  && forall j :: 0 <= j < i ==> ProfileFileName(n, n.profiles[j]) != name
  {
    var r := FirstIndex(ProfileFileNames(n), name);
    if name != n.filename && r.Some? {
      ProfileTagShape(r.value, n.profiles[r.value]);
    }
  }

  /** Two different profiles give two different file names under the default layout. */
  lemma {:induction false} DefaultProfileNamesDiffer(stem: string, ext: string, p0: string, p1: string)
    requires p0 != p1
    ensures stem + "." + p0 + "." + ext != stem + "." + p1 + "." + ext
  {
    var a := stem + "." + p0 + "." + ext;
    var b := stem + "." + p1 + "." + ext;
    if |p0| == |p1| {
      assert a[|stem| + 1..|stem| + 1 + |p0|] == p0;
      assert b[|stem| + 1..|stem| + 1 + |p1|] == p1;
    }
  }

  /**
   * With the default layout and two different profiles `p0` and `p1`, the
   * file `stem.p1.ext` is tagged `#profile_01_p1`.
   */
  lemma FileTagSecondProfile(stem: string, ext: string, p0: string, p1: string)
    requires '.' !in stem && '.' !in ext && p0 != p1
    requires !Contains(stem, "test") && !Contains(stem, "yaml")
    requires !Contains(p0, "yaml") && !Contains(p1, "yaml")
    ensures FileTag(Names(stem + "." + ext, DefaultProfileLayout, [p0, p1]), stem + "." + p1 + "." + ext)
            == "#profile_01_" + p1
  {
    var n := Names(stem + "." + ext, DefaultProfileLayout, [p0, p1]);
    var name := stem + "." + p1 + "." + ext;
    DefaultProfileFileName(stem, ext, n.profiles, p0);
    DefaultProfileFileName(stem, ext, n.profiles, p1);
    DefaultProfileNamesDiffer(stem, ext, p0, p1);
    assert |name| != |n.filename|;
    SecondOfTwo(n, name);
    ProfileTagOne(p1);
  }

  /** The tag of the profile with index 1. */
  lemma ProfileTagOne(p: string)
    ensures ProfileTag(1, p) == "#profile_01_" + p
  {
    Pad2Digits(1);
  }

  /** A name that is the second of two profile files, and neither the main file nor the first, gets the second tag. */
  lemma SecondOfTwo(n: Names, name: string)
    requires Nameable(n) && |n.profiles| == 2 && name != n.filename
    requires ProfileFileName(n, n.profiles[0]) != name && ProfileFileName(n, n.profiles[1]) == name
    ensures FileTag(n, name) == ProfileTag(1, n.profiles[1])
  {
    var names := ProfileFileNames(n);
    assert names == [names[0], name];
    assert FirstIndex(names[1..], name) == Some(0);
  }

  /** The text of a located file: `origin:tag=path`. */
  function Location(origin: string, tag: string, path: string): string {
    origin + ":" + tag + "=" + path
  }

  /**
   * The path read back from a location (the second `=`-separated section) is
   * the path up to its own first `=`: the whole path when it holds none.
   */
  lemma LocationPath(origin: string, tag: string, path: string)
    requires '=' !in origin && '=' !in tag
    ensures |Split(Location(origin, tag, path), '=')| >= 2
    ensures Split(Location(origin, tag, path), '=')[1] == Split(path, '=')[0]
    ensures '=' !in path ==> Split(Location(origin, tag, path), '=')[1] == path
  {
    var head := origin + ":" + tag;
    assert Location(origin, tag, path) == head + ['='] + path;
    assert '=' !in head;
    SplitAt(head, '=', path);
    if '=' !in path {
      SplitNone(path, '=');
    }
  }

  /** A location starts with its origin and holds an '='. */
  lemma LocationHead(origin: string, tag: string, path: string)
    ensures Contains(Location(origin, tag, path), origin)
    ensures '=' in Location(origin, tag, path)
  {
    var rest := ":" + tag + "=" + path;
    assert Location(origin, tag, path) == origin + rest;
    StartsWithConcat(origin, rest);
    assert Location(origin, tag, path)[|origin| + 1 + |tag|] == '=';
  }
}
