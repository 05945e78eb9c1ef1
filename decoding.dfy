/**
 * Turning located files into one decoded object: the extension-based
 * choice of decoder (decodeReader), the decoding of one `origin:tag=path`
 * entry, and the left fold that merges the entries into the seed in order
 * (decodeFiles). The decoders and the merge are parameters.
 */
module Decoding {
  import opened Outcomes
  import opened Text
  import opened Naming

  /** The YAML, JSON and TOML decoders, the empty object, and mergo.Merge with override. */
  datatype Decoders<!T> = Decoders(
    yaml: string -> Result<T, string>,
    json: string -> Result<T, string>,
    toml: string -> Result<T, string>,
    empty: T,
    merge: (T, T) -> Result<T, string>)

  datatype DecodeError =
    | Malformed(message: string)
    | UnsupportedExtension(ext: string)
    | OpenFailed(path: string)
    | MergeFailed(message: string)

  /**
   * filepath.Ext: the suffix of the last path element from its last '.',
   * or "" when that element has no '.'.
   */
  function Ext(path: string): string
    decreases |path|
  {
    if path == [] || path[|path| - 1] == '/' then ""
    else if path[|path| - 1] == '.' then "."
    else
      var e := Ext(path[..|path| - 1]);
      if e == "" then "" else e + [path[|path| - 1]]
  }

  /** An extension is empty or a '.' with no other '.', its path's suffix, and holds no '/'. */
  lemma {:induction false} ExtShape(path: string)
    ensures var r := Ext(path);
      && (r == [] || (r[0] == '.' && '.' !in r[1..]))
      && '/' !in r && |r| <= |path| && r == path[|path| - |r|..]
    decreases |path|
  {
    if path != [] && path[|path| - 1] != '/' && path[|path| - 1] != '.' {
      var q := path[..|path| - 1];
      var ch := path[|path| - 1];
      ExtShape(q);
      var e := Ext(q);
      if e != "" {
        assert path == q + [ch];
        assert (e + [ch])[1..] == e[1..] + [ch];
        assert path[|path| - |e| - 1..] == q[|q| - |e|..] + [ch];
      }
    }
  }

  /** A character other than '.' and '/' extends an extension. */
  lemma ExtSnoc(q: string, ch: char)
    requires ch != '.' && ch != '/' && Ext(q) != ""
    ensures Ext(q + [ch]) == Ext(q) + [ch]
  {
    assert (q + [ch])[..|q|] == q;
  }

  /** The extension of a name ending in a '.' followed by plain characters. */
  lemma {:induction false} ExtAfterDot(q: string, ext: string)
    requires q != [] && q[|q| - 1] == '.' && '.' !in ext && '/' !in ext
    ensures Ext(q + ext) == "." + ext
    decreases |ext|
  {
    if ext == [] {
      assert q + ext == q;
    } else {
      var init := ext[..|ext| - 1];
      var last := ext[|ext| - 1];
      var p := q + init;
      assert ext == init + [last];
      assert q + ext == p + [last];
      ExtAfterDot(q, init);
      ExtSnoc(p, last);
      assert "." + ext == ("." + init) + [last];
    }
  }

  /** The extension of `stem.ext` is `.ext`, for a plain `ext`. */
  lemma ExtOf(stem: string, ext: string)
    requires '.' !in ext && '/' !in ext
    ensures Ext(stem + "." + ext) == "." + ext
  {
    ExtAfterDot(stem + ".", ext);
  }

  /** A name with no '.' in its last element has no extension. */
  lemma {:induction false} ExtNone(path: string)
    requires '.' !in path
    ensures Ext(path) == ""
    decreases |path|
  {
    if path != [] && path[|path| - 1] != '/' {
      assert forall i :: 0 <= i < |path| - 1 ==> path[..|path| - 1][i] == path[i];
      ExtNone(path[..|path| - 1]);
    }
  }

  /**
   * decodeReader: ".yaml" and ".yml" read YAML, ".json" JSON, ".toml" TOML;
   * any other decoder is an error naming the extension of the main file name.
   */
  function DecodeReader<T>(d: Decoders<T>, content: string, decoder: string, mainFilename: string): Result<T, DecodeError> {
    if decoder !in {".yaml", ".yml", ".json", ".toml"} then Err(UnsupportedExtension(Ext(mainFilename)))
    else
      var decoded :=
        if decoder == ".json" then d.json(content)
        else if decoder == ".toml" then d.toml(content)
        else d.yaml(content);
      match decoded
      case Ok(v) => Ok(v)
      case Err(msg) => Err(Malformed(msg))
  }

  /**
   * Only the four decoders are supported; the error for any other names the
   * main file's extension, not the decoder asked for.
   */
  lemma DecodeReaderDispatch<T>(d: Decoders<T>, content: string, decoder: string, mainFilename: string)
    ensures decoder == ".yaml" || decoder == ".yml" ==>
      (DecodeReader(d, content, decoder, mainFilename).Ok? <==> d.yaml(content).Ok?)
    ensures decoder == ".json" ==> (DecodeReader(d, content, decoder, mainFilename).Ok? <==> d.json(content).Ok?)
    ensures decoder == ".toml" ==> (DecodeReader(d, content, decoder, mainFilename).Ok? <==> d.toml(content).Ok?)
    ensures DecodeReader(d, content, decoder, mainFilename).Ok? ==>
      Some(DecodeReader(d, content, decoder, mainFilename).value) ==
        (if decoder == ".json" then Some(d.json(content).value)
         else if decoder == ".toml" then Some(d.toml(content).value)
         else Some(d.yaml(content).value))
    ensures decoder !in {".yaml", ".yml", ".json", ".toml"} ==>
      DecodeReader(d, content, decoder, mainFilename) == Err(UnsupportedExtension(Ext(mainFilename)))
  {
  }

  /** decodeEmbedFile: open the embedded file and decode it by its own extension. */
  function DecodeEmbedFile<T>(d: Decoders<T>, embedded: map<string, string>, file: string, mainFilename: string): Result<T, DecodeError> {
    if file !in embedded then Err(OpenFailed(file)) else DecodeReader(d, embedded[file], Ext(file), mainFilename)
  }

  /** decodeFile: open the local file and decode it by its own extension. */
  function DecodeFile<T>(d: Decoders<T>, disk: map<string, string>, file: string, mainFilename: string): Result<T, DecodeError> {
    if file !in disk then Err(OpenFailed(file)) else DecodeReader(d, disk[file], Ext(file), mainFilename)
  }

  /** An entry that names a file must hold a '=' before its path (decodeFiles reads `sections[1]`, the second piece of the split on '='). */
  predicate WellFormedEntry(entry: string) {
    (Contains(entry, EmbedLocationIndicator) || Contains(entry, LocalLocationIndicator)) ==> '=' in entry
  }

  /**
   * The object one entry decodes to: the path is the second '='-separated
   * section; an entry mentioning `#embed` is read from the embedded files,
   * one mentioning `#local` from disk (the later read wins), and any other
   * entry gives the empty object.
   */
  function EntryValue<T>(d: Decoders<T>, disk: map<string, string>, embedded: map<string, string>,
                         mainFilename: string, entry: string): Result<T, DecodeError>
    requires WellFormedEntry(entry)
  {
    var sections := Split(entry, '=');
    var fromEmbed :=
      if Contains(entry, EmbedLocationIndicator) then DecodeEmbedFile(d, embedded, sections[1], mainFilename)
      else Ok(d.empty);
    if fromEmbed.Err? then fromEmbed
    else if Contains(entry, LocalLocationIndicator) then DecodeFile(d, disk, sections[1], mainFilename)
    else fromEmbed
  }

  /** The merge of one decoded object into the accumulated one. */
  function MergeInto<T>(d: Decoders<T>, acc: T, v: T): Result<T, DecodeError> {
    match d.merge(acc, v)
    case Ok(m) => Ok(m)
    case Err(msg) => Err(MergeFailed(msg))
  }

  /** decodeFiles: entries are decoded and merged into `origin` from left to right; the first error aborts. */
  function DecodeAll<T>(d: Decoders<T>, disk: map<string, string>, embedded: map<string, string>,
                        mainFilename: string, files: seq<string>, origin: T): Result<T, DecodeError>
    requires forall i :: 0 <= i < |files| ==> WellFormedEntry(files[i])
    decreases |files|
  {
    if files == [] then Ok(origin)
    else match DecodeAll(d, disk, embedded, mainFilename, files[..|files| - 1], origin)
      case Err(e) => Err(e)
      case Ok(acc) =>
        match EntryValue(d, disk, embedded, mainFilename, files[|files| - 1])
        case Err(e) => Err(e)
        case Ok(v) => MergeInto(d, acc, v)
  }

  /** The fold composes: decoding `a + b` is decoding `b` into the result of decoding `a`. */
  lemma {:induction false} DecodeAllConcat<T>(d: Decoders<T>, disk: map<string, string>, embedded: map<string, string>,
                                              mainFilename: string, a: seq<string>, b: seq<string>, origin: T)
    requires forall i :: 0 <= i < |a| ==> WellFormedEntry(a[i])
    requires forall i :: 0 <= i < |b| ==> WellFormedEntry(b[i])
    ensures forall i :: 0 <= i < |a + b| ==> WellFormedEntry((a + b)[i])
    ensures DecodeAll(d, disk, embedded, mainFilename, a + b, origin) ==
      match DecodeAll(d, disk, embedded, mainFilename, a, origin)
      case Err(e) => Err(e)
      case Ok(acc) => DecodeAll(d, disk, embedded, mainFilename, b, acc)
    decreases |b|
  {
    assert forall i :: 0 <= i < |a + b| ==> (a + b)[i] == if i < |a| then a[i] else b[i - |a|];
    if b == [] {
      assert a + b == a;
    } else {
      var init := b[..|b| - 1];
      DecodeAllConcat(d, disk, embedded, mainFilename, a, init, origin);
      assert (a + b)[..|a + b| - 1] == a + init;
      assert (a + b)[|a + b| - 1] == b[|b| - 1];
    }
  }

  /** Any entry that fails to decode makes the whole fold fail. */
  lemma {:induction false} DecodeAllAborts<T>(d: Decoders<T>, disk: map<string, string>, embedded: map<string, string>,
                                              mainFilename: string, files: seq<string>, origin: T, k: nat)
    requires forall i :: 0 <= i < |files| ==> WellFormedEntry(files[i])
    requires k < |files| && EntryValue(d, disk, embedded, mainFilename, files[k]).Err?
    ensures DecodeAll(d, disk, embedded, mainFilename, files, origin).Err?
    decreases |files|
  {
    var init := files[..|files| - 1];
    if k < |files| - 1 {
      assert init[k] == files[k];
      DecodeAllAborts(d, disk, embedded, mainFilename, init, origin, k);
    }
  }

  /** Once a prefix of the entries fails, the fold fails with the same error. */
  lemma {:induction false} DecodeAllStops<T>(d: Decoders<T>, disk: map<string, string>, embedded: map<string, string>,
                                             mainFilename: string, files: seq<string>, origin: T, k: nat)
    requires forall i :: 0 <= i < |files| ==> WellFormedEntry(files[i])
    requires k <= |files| && DecodeAll(d, disk, embedded, mainFilename, files[..k], origin).Err?
    ensures DecodeAll(d, disk, embedded, mainFilename, files, origin)
            == DecodeAll(d, disk, embedded, mainFilename, files[..k], origin)
    decreases |files|
  {
    if k < |files| {
      var init := files[..|files| - 1];
      assert init[..k] == files[..k];
      DecodeAllStops(d, disk, embedded, mainFilename, init, origin, k);
    } else {
      assert files[..k] == files;
    }
  }

  /**
   * With a merge that never fails and entries that all decode, the result is
   * the seed merged with each entry's object in order.
   */
  function MergeAll<T(!new)>(merge: (T, T) -> Result<T, string>, origin: T, vs: seq<T>): T
    requires forall a, b :: merge(a, b).Ok?
    decreases |vs|
  {
    if vs == [] then origin else merge(MergeAll(merge, origin, vs[..|vs| - 1]), vs[|vs| - 1]).value
  }

  lemma {:induction false} DecodeAllMerges<T(!new)>(d: Decoders<T>, disk: map<string, string>, embedded: map<string, string>,
                                              mainFilename: string, files: seq<string>, origin: T, vs: seq<T>)
    requires forall a, b :: d.merge(a, b).Ok?
    requires forall i :: 0 <= i < |files| ==> WellFormedEntry(files[i])
    requires |vs| == |files|
    requires forall i :: 0 <= i < |files| ==> EntryValue(d, disk, embedded, mainFilename, files[i]) == Ok(vs[i])
    ensures DecodeAll(d, disk, embedded, mainFilename, files, origin) == Ok(MergeAll(d.merge, origin, vs))
    decreases |files|
  {
    if files != [] {
      var init := files[..|files| - 1];
      assert forall i :: 0 <= i < |init| ==> init[i] == files[i];
      DecodeAllMerges(d, disk, embedded, mainFilename, init, origin, vs[..|vs| - 1]);
    }
  }

  /**
   * A local entry reads the path up to its first '=' (so a path holding '='
   * is cut there) from disk, as long as it does not also mention `#embed`.
   */
  lemma LocalEntryReadsPath<T>(d: Decoders<T>, disk: map<string, string>, embedded: map<string, string>,
                               mainFilename: string, tag: string, path: string)
    requires '=' !in tag && !Contains(Location(LocalLocationIndicator, tag, path), EmbedLocationIndicator)
    ensures WellFormedEntry(Location(LocalLocationIndicator, tag, path))
    ensures EntryValue(d, disk, embedded, mainFilename, Location(LocalLocationIndicator, tag, path))
            == DecodeFile(d, disk, Split(path, '=')[0], mainFilename)
  {
    LocationPath(LocalLocationIndicator, tag, path);
    LocationHead(LocalLocationIndicator, tag, path);
  }
}
