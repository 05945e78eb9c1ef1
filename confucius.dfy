/**
 * The loader object: its fields, the options applied to it, the file search
 * that updates its expected list, the decoding fold and Load. Each method is
 * proved equal to the functions of the other modules, whose properties are
 * proved there.
 */
module Confucius {
  import opened Outcomes
  import opened Text
  import opened Sorting
  import opened Naming
  import opened Paths
  import opened Scan
  import opened Options
  import opened Locator
  import opened Decoding
  import opened Fields

  /** Why Load fails. */
  datatype LoadError =
    | NotStructPointer
    | DecodeFailed(decode: DecodeError)
    | LocateFailed(locate: LocateError)
    /**
     * profileFileName takes the second dot-separated part of the file name,
     * which panics (index out of range) when profiles are given and the file
     * name holds no dot.
     */
    | NamePanic
    | MapFailed(msg: string)
    | FieldsFailed(errors: map<string, FieldError>, fields: seq<Field>)

  /**
   * What Load works against: the decoders and merge, the decoding of the
   * merged object into the target's fields (mapstructure with the tag, the
   * time layout and the environment interpolation hook, then flattenCfg), the
   * value conversions, the files on disk and the environment.
   */
  datatype Host<!T> = Host(
    decoders: Decoders<T>,
    decodeMap: (T, string, string) -> Result<seq<Field>, string>,
    conversions: Conversions,
    disk: map<string, string>,
    env: map<string, string>)

  /** The binding of processField to the loader's fields. */
  function BindingOf(s: Settings): Binding {
    Binding(s.useEnv, s.envPrefix, s.timeLayout)
  }

  /** The end of Load: decodeMap of the merged object, then processCfg. */
  function Finish<T>(s: Settings, h: Host<T>, vals: T): Result<seq<Field>, LoadError> {
    match h.decodeMap(vals, s.tag, s.timeLayout)
    case Err(msg) => Err(MapFailed(msg))
    case Ok(fields) =>
      var errs := ErrorsOf(BindingOf(s), h.conversions, h.env, fields);
      var out := ProcessedFields(BindingOf(s), h.conversions, h.env, fields);
      if errs != map[] then Err(FieldsFailed(errs, out)) else Ok(out)
  }

  /** The object Load starts from: the reader's, or the empty one. */
  function Seed<T>(s: Settings, h: Host<T>): Result<T, DecodeError> {
    if s.useReader then DecodeReader(h.decoders, s.readerConfig, s.readerDecoder, s.filename)
    else Ok(h.decoders.empty)
  }

  /** Load, as a function of the settings. */
  function LoadSpec<T>(s: Settings, h: Host<T>, isStructPtr: bool): Result<seq<Field>, LoadError> {
    if !isStructPtr then Err(NotStructPointer)
    else if Seed(s, h).Err? then Err(DecodeFailed(Seed(s, h).error))
    else if !Nameable(s.Names()) then Err(NamePanic)
    else
      var l := Locate(s, h.disk.Keys);
      if l.error.Some? && !(s.useReader || s.useEnv) then Err(LocateFailed(l.error.value))
      else
        match DecodeAll(h.decoders, h.disk, s.embedFS.files, s.filename, l.files, Seed(s, h).value)
        case Err(e) => Err(DecodeFailed(e))
        case Ok(vals) => Finish(s, h, vals)
  }

  /** A target that is not a pointer to a struct is rejected before anything is read. */
  lemma LoadRejectsNonStruct<T>(s: Settings, h: Host<T>)
    ensures LoadSpec(s, h, false) == Err(NotStructPointer)
  {
  }

  /**
   * Load without options runs on the defaults: it never reaches the naming
   * panic, the only file it expects is `config.yaml`, and with neither a
   * reader nor the environment a failed search ends it.
   */
  lemma LoadWithoutOptions<T>(h: Host<T>, isStructPtr: bool)
    ensures LoadSpec(ConfigureAll(DefaultSettings(), []), h, isStructPtr) == LoadSpec(DefaultSettings(), h, isStructPtr)
    ensures LoadSpec(DefaultSettings(), h, isStructPtr) != Err(NamePanic)
    ensures ExpectedFiles(DefaultSettings().Names()) == [DefaultFilename]
    ensures isStructPtr && Locate(DefaultSettings(), h.disk.Keys).error.Some? ==>
              LoadSpec(DefaultSettings(), h, isStructPtr) == Err(LocateFailed(Locate(DefaultSettings(), h.disk.Keys).error.value))
  {
    DefaultSettingsNameable();
  }

  /** A reader that does not decode fails Load with its error. */
  lemma LoadReaderFailure<T>(s: Settings, h: Host<T>)
    requires s.useReader
    requires DecodeReader(h.decoders, s.readerConfig, s.readerDecoder, s.filename).Err?
    ensures LoadSpec(s, h, true) == Err(DecodeFailed(DecodeReader(h.decoders, s.readerConfig, s.readerDecoder, s.filename).error))
  {
  }

  /**
   * A failed file search ends Load unless a reader or the environment is in
   * use; then Load goes on from the seed alone, with no files.
   */
  lemma LoadLocateFailure<T>(s: Settings, h: Host<T>)
    requires Seed(s, h).Ok? && Nameable(s.Names()) && Locate(s, h.disk.Keys).error.Some?
    ensures !(s.useReader || s.useEnv) ==> LoadSpec(s, h, true) == Err(LocateFailed(Locate(s, h.disk.Keys).error.value))
    ensures s.useReader || s.useEnv ==> LoadSpec(s, h, true) == Finish(s, h, Seed(s, h).value)
  {
  }

  /** When the search succeeds, any found file that does not decode fails Load. */
  lemma LoadFileFailure<T>(s: Settings, h: Host<T>, k: nat)
    requires Seed(s, h).Ok? && Nameable(s.Names())
    requires k < |Locate(s, h.disk.Keys).files|
    requires EntryValue(h.decoders, h.disk, s.embedFS.files, s.filename, Locate(s, h.disk.Keys).files[k]).Err?
    ensures LoadSpec(s, h, true).Err? && LoadSpec(s, h, true).error.DecodeFailed?
  {
    var l := Locate(s, h.disk.Keys);
    DecodeAllAborts(h.decoders, h.disk, s.embedFS.files, s.filename, l.files, Seed(s, h).value, k);
  }

  /**
   * The end of Load succeeds exactly when decodeMap does and every field
   * processes cleanly, and then yields the processed fields; otherwise the
   * field errors are reported together with the fields as processed.
   */
  lemma FinishSpec<T>(s: Settings, h: Host<T>, vals: T)
    ensures Finish(s, h, vals).Ok? <==>
      h.decodeMap(vals, s.tag, s.timeLayout).Ok? &&
      var fields := h.decodeMap(vals, s.tag, s.timeLayout).value;
      forall i :: 0 <= i < |fields| ==> ProcessField(BindingOf(s), h.conversions, h.env, fields[i]).error.None?
    ensures Finish(s, h, vals).Ok? ==>
      Finish(s, h, vals).value == ProcessedFields(BindingOf(s), h.conversions, h.env, h.decodeMap(vals, s.tag, s.timeLayout).value)
  {
    match h.decodeMap(vals, s.tag, s.timeLayout) {
      case Err(_) =>
      case Ok(fields) => ErrorsOfEmpty(BindingOf(s), h.conversions, h.env, fields);
    }
  }

  class Confucius {
    var useEnv: bool
    var useReader: bool
    var useEmbedFS: bool
    var dirs: seq<string>
    var profiles: seq<string>
    var expectedConfigFiles: seq<string>
    var filename: string
    var tag: string
    var timeLayout: string
    var envPrefix: string
    var profileLayout: string
    var readerConfig: string
    var readerDecoder: string
    var embedFS: EmbedFS

    /** All fields as one value. */
    function State(): Settings
      reads this
    {
      Settings(useEnv, useReader, useEmbedFS, dirs, profiles, expectedConfigFiles, filename, tag,
               timeLayout, envPrefix, profileLayout, readerConfig, readerDecoder, embedFS)
    }

    /** What file naming reads. */
    function FileNames(): (n: Names)
      reads this`filename, this`profileLayout, this`profiles
      ensures n.filename == filename && n.profiles == profiles
    {
      Naming.Names(filename, profileLayout, profiles)
    }

    /** defaultConfucius. */
    constructor ()
      ensures State() == DefaultSettings()
    {
      filename := DefaultFilename;
      dirs := [DefaultDir];
      tag := DefaultTag;
      timeLayout := DefaultTimeLayout;
      profileLayout := DefaultProfileLayout;
      useEnv, useReader, useEmbedFS := false, false, false;
      profiles, expectedConfigFiles := [], [];
      envPrefix, readerConfig, readerDecoder := "", "", "";
      embedFS := EmptyEmbedFS;
    }

    /** Calling an option on the loader. */
    method Apply(o: Opt)
      modifies this
      ensures State() == Configure(old(State()), o)
    {
      match o {
        case File(name) => WithFile(name);
        case Reader(content, decoder) => UseReaderOf(content, decoder);
        case String(text, decoder) => UseReaderOf(TrimSpace(text), decoder);
        case Dirs(ds) => WithDirs(ds);
        case Tag(t) => WithTag(t);
        case TimeLayout(layout) => WithTimeLayout(layout);
        case UseEnv(prefix) => WithEnv(prefix);
        case Profiles(ps) => WithProfiles(ps);
        case ProfileLayout(layout) => WithProfileLayout(layout);
      }
    }

    /** The File option: the main file name. */
    method WithFile(name: string)
      modifies this
      ensures State() == Configure(old(State()), Opt.File(name))
    {
      filename := name;
    }

    /** The Dirs option: the directories searched, in order. */
    method WithDirs(ds: seq<string>)
      modifies this
      ensures State() == Configure(old(State()), Dirs(ds))
    {
      dirs := ds;
    }

    /** The Tag option: the struct tag the decoded fields are named by. */
    method WithTag(t: string)
      modifies this
      ensures State() == Configure(old(State()), Tag(t))
    {
      tag := t;
    }

    /** The TimeLayout option: the layout times are parsed with. */
    method WithTimeLayout(layout: string)
      modifies this
      ensures State() == Configure(old(State()), TimeLayout(layout))
    {
      timeLayout := layout;
    }

    /** The UseEnv option: environment lookup on, with its prefix. */
    method WithEnv(prefix: string)
      modifies this
      ensures State() == Configure(old(State()), UseEnv(prefix))
    {
      useEnv, envPrefix := true, prefix;
    }

    /** The Profiles option: the profiles, in order. */
    method WithProfiles(ps: seq<string>)
      modifies this
      ensures State() == Configure(old(State()), Profiles(ps))
    {
      profiles := ps;
    }

    /** The ProfileLayout option: the layout profile file names are made from. */
    method WithProfileLayout(layout: string)
      modifies this
      ensures State() == Configure(old(State()), ProfileLayout(layout))
    {
      profileLayout := layout;
    }

    /** The Reader option; String is Reader on the trimmed text. */
    method UseReaderOf(content: string, decoder: string)
      modifies this
      ensures State() == UseReader(old(State()), content, decoder)
    {
      useReader, readerConfig, readerDecoder := true, content, decoder;
    }

    /** initExpectedConfigFiles: the main file, then each profile's file. */
    method InitExpectedConfigFiles()
      requires Nameable(FileNames())
      modifies this`expectedConfigFiles
      ensures expectedConfigFiles == ExpectedFiles(FileNames())
    {
      expectedConfigFiles := [filename];
      for i := 0 to |profiles|
        invariant expectedConfigFiles == [filename] + ProfileFileNames(FileNames())[..i]
      {
        expectedConfigFiles := expectedConfigFiles + [ProfileFileName(FileNames(), profiles[i])];
        assert ProfileFileNames(FileNames())[..i + 1]
               == ProfileFileNames(FileNames())[..i] + [ProfileFileNames(FileNames())[i]];
      }
      assert ProfileFileNames(FileNames())[..|profiles|] == ProfileFileNames(FileNames());
    }

    /** removeFromExpectedList: every occurrence of `file` goes, the rest keep their order. */
    method RemoveFromExpectedList(file: string)
      modifies this`expectedConfigFiles
      ensures expectedConfigFiles == Without(old(expectedConfigFiles), {file})
    {
      var result: seq<string> := [];
      for i := 0 to |expectedConfigFiles|
        invariant result == Without(expectedConfigFiles[..i], {file})
      {
        assert expectedConfigFiles[..i + 1][..i] == expectedConfigFiles[..i];
        if expectedConfigFiles[i] != file {
          result := result + [expectedConfigFiles[i]];
        }
      }
      assert expectedConfigFiles[..|expectedConfigFiles|] == expectedConfigFiles;
      expectedConfigFiles := result;
    }

    /** One candidate: taken when present and its name not found before. */
    method Take(p: Probe, found: set<string>, acc: seq<string>) returns (found': set<string>, acc': seq<string>)
      modifies this`expectedConfigFiles
      ensures ScanState(found', acc', expectedConfigFiles) == Step(ScanState(found, acc, old(expectedConfigFiles)), p)
    {
      found', acc' := found, acc;
      if p.present && p.name !in found {
        found' := found + {p.name};
        RemoveFromExpectedList(p.name);
        acc' := acc + [p.location];
      }
    }

    /**
     * walkEmbedDir on a directory given by its listing: entries in listing
     * order, directories walked depth first, the first unreadable directory
     * ending the walk.
     */
    method WalkEmbedDir(found: set<string>, acc: seq<string>, path: string, listing: Listing)
      returns (found': set<string>, acc': seq<string>, err: Option<string>)
      requires Nameable(FileNames())
      modifies this`expectedConfigFiles
      ensures Walk(ScanState(found', acc', expectedConfigFiles), err)
              == Run(ListingEvents(FileNames(), path, listing), ScanState(found, acc, old(expectedConfigFiles)))
      decreases listing
    {
      var n := FileNames();
      var st0 := ScanState(found, acc, expectedConfigFiles);
      if !listing.readable {
        return found, acc, Some(path);
      }
      var entries := listing.entries;
      found', acc', err := found, acc, None;
      assert entries[..0] == [];
      for i := 0 to |entries|
        invariant Walk(ScanState(found', acc', expectedConfigFiles), None) == Run(EntriesEvents(n, path, entries[..i]), st0)
      {
        var before := ScanState(found', acc', expectedConfigFiles);
        EntriesStep(n, path, entries, i, st0);
        match entries[i] {
          case Dir(name, l) =>
            var e;
            found', acc', e := WalkEmbedDir(found', acc', JoinPath(path, name), l);
            if e.Some? {
              EntriesRest(n, path, entries, i + 1, st0);
              return found', acc', e;
            }
          case File(name) =>
            var tag := FileTag(n, name);
            found', acc' := Take(Probe(name, tag != "", Location(EmbedLocationIndicator, tag, path + "/" + name)), found', acc');
            FileStep(n, path, name, before);
        }
      }
      assert entries[..|entries|] == entries;
    }

    /** findEmbedFiles: the walk from the root when the embedded file system is in use. */
    method FindEmbedFiles() returns (acc: seq<string>, err: Option<string>)
      requires Nameable(FileNames())
      modifies this`expectedConfigFiles
      ensures var w := Run(EmbedEvents(old(State())), ScanState({}, [], old(expectedConfigFiles)));
        acc == w.state.acc && expectedConfigFiles == w.state.expected && err == w.failure
    {
      acc, err := [], None;
      if useEmbedFS {
        var found;
        found, acc, err := WalkEmbedDir({}, [], ".", embedFS.root);
      }
    }

    /** findLocalFiles: each directory in order, the main file then each profile's file. */
    method FindLocalFiles(disk: set<string>) returns (acc: seq<string>)
      requires Nameable(FileNames())
      modifies this`expectedConfigFiles
      ensures var w := Run(LocalEvents(FileNames(), disk, dirs), ScanState({}, [], old(expectedConfigFiles)));
        acc == w.state.acc && expectedConfigFiles == w.state.expected && w.failure.None?
    {
      var n := FileNames();
      var st0 := ScanState({}, [], expectedConfigFiles);
      var found: set<string> := {};
      acc := [];
      assert dirs[..0] == [];
      for d := 0 to |dirs|
        invariant Run(LocalEvents(n, disk, dirs[..d]), st0) == Walk(ScanState(found, acc, expectedConfigFiles), None)
      {
        ghost var done := LocalEvents(n, disk, dirs[..d]);
        found, acc := FindInDir(disk, dirs[d], found, acc);
        LocalStep(n, disk, dirs, d);
        RunConcat(done, DirEvents(n, disk, dirs[d]), st0);
      }
      assert dirs[..|dirs|] == dirs;
    }

    /** The body of findLocalFiles' loop for one directory: the main file, then each profile's file. */
    method FindInDir(disk: set<string>, dir: string, found: set<string>, acc: seq<string>)
      returns (found': set<string>, acc': seq<string>)
      requires Nameable(FileNames())
      modifies this`expectedConfigFiles
      ensures Walk(ScanState(found', acc', expectedConfigFiles), None)
              == Run(DirEvents(FileNames(), disk, dir), ScanState(found, acc, old(expectedConfigFiles)))
    {
      var n := FileNames();
      var st0 := ScanState(found, acc, expectedConfigFiles);
      var path := JoinPath(dir, filename);
      found', acc' := Take(Probe(filename, path in disk, Location(LocalLocationIndicator, MainFileIndicator, path)), found, acc);
      DirStep(n, disk, dir, 0, st0);
      for idx := 0 to |profiles|
        invariant Run(DirEvents(n, disk, dir)[..idx + 1], st0) == Walk(ScanState(found', acc', expectedConfigFiles), None)
      {
        var profileName := ProfileFileName(n, profiles[idx]);
        var p := JoinPath(dir, profileName);
        found', acc' := Take(Probe(profileName, p in disk, Location(LocalLocationIndicator, ProfileTag(idx, profiles[idx]), p)), found', acc');
        DirStep(n, disk, dir, idx + 1, st0);
      }
      DirStep(n, disk, dir, |profiles|, st0);
    }

    /** findFiles. */
    method FindFiles(disk: set<string>) returns (files: seq<string>, err: Option<LocateError>)
      requires Nameable(FileNames())
      modifies this`expectedConfigFiles
      ensures Search(files, err, expectedConfigFiles) == Locate(old(State()), disk)
    {
      ghost var s := State();
      InitExpectedConfigFiles();
      EmbedEventsFrame(State(), s);
      ghost var embed := Run(EmbedEvents(s), Start(s));
      var result: seq<string> := [];
      var embedded, e := FindEmbedFiles();
      assert embedded == embed.state.acc && expectedConfigFiles == embed.state.expected && e == embed.failure;
      if e.Some? {
        assert Locate(s, disk) == Search([], Some(LocateError.Unreadable(e.value)), embed.state.expected);
        return result, Some(LocateError.Unreadable(e.value));
      }
      ghost var local := LocalRun(s, disk, embed.state);
      result := result + embedded;
      assert FileNames() == s.Names() && dirs == s.dirs;
      var found := FindLocalFiles(disk);
      assert found == local.acc && expectedConfigFiles == local.expected;
      result := result + found;
      if expectedConfigFiles != [] {
        assert Locate(s, disk) == Search([], Some(NotFound(local.expected)), local.expected);
        return [], Some(NotFound(expectedConfigFiles));
      }
      assert result == embedded + found by {
        assert [] + embedded == embedded;
      }
      assert Collected(s, disk) == embed.state.acc + local.acc;
      assert Locate(s, disk) == Search(Sort(result), None, []);
      files, err := Sort(result), None;
    }

    /** The body of decodeFiles for one entry: the embedded read, then the local read. */
    method DecodeEntry<T>(d: Decoders<T>, disk: map<string, string>, file: string) returns (r: Result<T, DecodeError>)
      requires WellFormedEntry(file)
      ensures r == EntryValue(d, disk, embedFS.files, filename, file)
    {
      var fileVals := d.empty;
      var sections := Split(file, '=');
      if Contains(file, EmbedLocationIndicator) {
        var v := DecodeEmbedFile(d, embedFS.files, sections[1], filename);
        if v.Err? {
          return v;
        }
        fileVals := v.value;
      }
      if Contains(file, LocalLocationIndicator) {
        var v := DecodeFile(d, disk, sections[1], filename);
        if v.Err? {
          return v;
        }
        fileVals := v.value;
      }
      return Ok(fileVals);
    }

    /** decodeFiles: each found file decoded and merged over what came before; the first failure ends it. */
    method DecodeFiles<T>(d: Decoders<T>, disk: map<string, string>, files: seq<string>, origin: T)
      returns (r: Result<T, DecodeError>)
      requires forall i :: 0 <= i < |files| ==> WellFormedEntry(files[i])
      ensures r == DecodeAll(d, disk, embedFS.files, filename, files, origin)
    {
      var embedded, main := embedFS.files, filename;
      var vals := origin;
      assert files[..0] == [];
      for i := 0 to |files|
        invariant DecodeAll(d, disk, embedded, main, files[..i], origin) == Ok(vals)
      {
        DecodeStep(d, disk, embedded, main, files, origin, i);
        var fileVals := DecodeEntry(d, disk, files[i]);
        if fileVals.Err? {
          DecodeAllStops(d, disk, embedded, main, files, origin, i + 1);
          return Err(fileVals.error);
        }
        var merged := MergeInto(d, vals, fileVals.value);
        if merged.Err? {
          DecodeAllStops(d, disk, embedded, main, files, origin, i + 1);
          return merged;
        }
        vals := merged.value;
      }
      assert files[..|files|] == files;
      return Ok(vals);
    }

    /** Load on this loader. */
    method Load<T>(h: Host<T>, isStructPtr: bool) returns (r: Result<seq<Field>, LoadError>)
      modifies this`expectedConfigFiles
      ensures r == LoadSpec(old(State()), h, isStructPtr)
    {
      if !isStructPtr {
        return Err(NotStructPointer);
      }
      var vals := h.decoders.empty;
      if useReader {
        var v := DecodeReader(h.decoders, readerConfig, readerDecoder, filename);
        if v.Err? {
          return Err(DecodeFailed(v.error));
        }
        vals := v.value;
      }
      if !Nameable(FileNames()) {
        return Err(NamePanic);
      }
      var files, err := FindFiles(h.disk.Keys);
      if err.Some? && !(useReader || useEnv) {
        return Err(LocateFailed(err.value));
      }
      var decoded := DecodeFiles(h.decoders, h.disk, files, vals);
      if decoded.Err? {
        return Err(DecodeFailed(decoded.error));
      }
      var mapped := h.decodeMap(decoded.value, tag, timeLayout);
      if mapped.Err? {
        return Err(MapFailed(mapped.error));
      }
      var out, errs := ProcessCfg(BindingOf(State()), h.conversions, h.env, mapped.value);
      if errs != map[] {
        return Err(FieldsFailed(errs, out));
      }
      return Ok(out);
    }
  }

  /** The fold over one more found file. */
  lemma DecodeStep<T>(d: Decoders<T>, disk: map<string, string>, embedded: map<string, string>,
                      mainFilename: string, files: seq<string>, origin: T, i: nat)
    requires forall k :: 0 <= k < |files| ==> WellFormedEntry(files[k])
    requires i < |files|
    ensures DecodeAll(d, disk, embedded, mainFilename, files[..i + 1], origin)
      == match DecodeAll(d, disk, embedded, mainFilename, files[..i], origin) {
           case Err(e) => Err(e)
           case Ok(acc) =>
             match EntryValue(d, disk, embedded, mainFilename, files[i]) {
               case Err(e) => Err(e)
               case Ok(v) => MergeInto(d, acc, v)
             }
         }
  {
    assert files[..i + 1][..i] == files[..i];
    assert files[..i + 1][i] == files[i];
  }

  /** The embedded candidates depend only on the naming, the flag and the tree. */
  lemma EmbedEventsFrame(s: Settings, t: Settings)
    requires Nameable(s.Names()) && s.Names() == t.Names()
    requires s.useEmbedFS == t.useEmbedFS && s.embedFS == t.embedFS
    ensures EmbedEvents(s) == EmbedEvents(t)
  {
  }

  /** The walk of one more entry of a directory. */
  lemma EntriesStep(n: Names, path: string, entries: seq<Entry>, i: nat, st: ScanState)
    requires Nameable(n) && i < |entries|
    ensures Run(EntriesEvents(n, path, entries[..i + 1]), st)
      == (var w := Run(EntriesEvents(n, path, entries[..i]), st);
          if w.failure.Some? then w else Run(EntryEvents(n, path, entries[i]), w.state))
  {
    assert entries[..i + 1][..i] == entries[..i];
    RunConcat(EntriesEvents(n, path, entries[..i]), EntryEvents(n, path, entries[i]), st);
  }

  /** Once the walk of the first `k` entries failed, the walk of the directory fails there too. */
  lemma EntriesRest(n: Names, path: string, entries: seq<Entry>, k: nat, st: ScanState)
    requires Nameable(n) && k <= |entries| && Run(EntriesEvents(n, path, entries[..k]), st).failure.Some?
    ensures Run(EntriesEvents(n, path, entries), st) == Run(EntriesEvents(n, path, entries[..k]), st)
  {
    EntriesEventsSplit(n, path, entries, k);
    RunConcat(EntriesEvents(n, path, entries[..k]), EntriesEvents(n, path, entries[k..]), st);
  }

  /** A file entry of the walk is one candidate. */
  lemma FileStep(n: Names, path: string, name: string, st: ScanState)
    requires Nameable(n)
    ensures Run(EntryEvents(n, path, Entry.File(name)), st) == Walk(Step(st, EmbedProbe(n, path, name)), None)
  {
    RunSnoc([], EmbedProbe(n, path, name), st);
  }

  /**
   * The search of a directory after the earlier ones, one candidate at a
   * time: candidate 0 is the main file, candidate `k` the file of profile `k - 1`.
   */
  lemma DirStep(n: Names, disk: set<string>, dir: string, k: nat, st: ScanState)
    requires Nameable(n) && k <= |n.profiles|
    ensures k == 0 ==> Run(DirEvents(n, disk, dir)[..1], st) == Walk(Step(st, MainProbe(n, disk, dir)), None)
    ensures k > 0 ==>
      (Run(DirEvents(n, disk, dir)[..k + 1], st)
       == var w := Run(DirEvents(n, disk, dir)[..k], st);
          if w.failure.Some? then w else Walk(Step(w.state, ProfileProbe(n, disk, dir, k - 1)), None))
    ensures k == |n.profiles| ==> DirEvents(n, disk, dir)[..k + 1] == DirEvents(n, disk, dir)
  {
    var de := DirEvents(n, disk, dir);
    DirEventAt(n, disk, dir, k);
    RunPrefixStep(de, k, st);
    if k == 0 {
      assert de[..k] == [];
    }
  }

  /** Running one more event of a list of candidates is one more step. */
  lemma RunPrefixStep(es: seq<Event>, k: nat, st: ScanState)
    requires k < |es| && es[k].Visit?
    ensures Run(es[..k + 1], st)
              == var w := Run(es[..k], st);
                 if w.failure.Some? then w else Walk(Step(w.state, es[k].probe), None)
  {
    assert es[..k + 1] == es[..k] + [Visit(es[k].probe)];
    RunSnoc(es[..k], es[k].probe, st);
  }

  /** Candidate 0 of a directory is its main file, candidate `k` the file of profile `k - 1`. */
  lemma DirEventAt(n: Names, disk: set<string>, dir: string, k: nat)
    requires Nameable(n) && k <= |n.profiles|
    ensures k == 0 ==> DirEvents(n, disk, dir)[k] == Visit(MainProbe(n, disk, dir))
    ensures k > 0 ==> DirEvents(n, disk, dir)[k] == Visit(ProfileProbe(n, disk, dir, k - 1))
  {
  }

  /** The candidates of the first `d + 1` directories. */
  lemma LocalStep(n: Names, disk: set<string>, dirs: seq<string>, d: nat)
    requires Nameable(n) && d < |dirs|
    ensures LocalEvents(n, disk, dirs[..d + 1]) == LocalEvents(n, disk, dirs[..d]) + DirEvents(n, disk, dirs[d])
  {
    assert dirs[..d + 1][..d] == dirs[..d];
  }

  /** Load: a fresh loader, every option applied in order, then Load on it. */
  method LoadWith<T>(opts: seq<Opt>, h: Host<T>, isStructPtr: bool) returns (r: Result<seq<Field>, LoadError>)
    ensures r == LoadSpec(ConfigureAll(DefaultSettings(), opts), h, isStructPtr)
  {
    var c := new Confucius();
    assert opts[..0] == [];
    for i := 0 to |opts|
      invariant c.State() == ConfigureAll(DefaultSettings(), opts[..i])
    {
      c.Apply(opts[i]);
      assert opts[..i + 1][..i] == opts[..i];
    }
    assert opts[..|opts|] == opts;
    r := c.Load(h, isStructPtr);
  }
}
