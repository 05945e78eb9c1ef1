/**
 * The loader's settings record, its defaults, and the options that update
 * it. Each option assigns only its own fields; options are applied in
 * order, so the last option of a kind wins.
 */
module Options {
  import opened Text
  import opened Naming
  import opened Scan

  /**
   * An embedded file system: the root directory listing, and the contents of
   * the embedded files by path (what Open reads).
   */
  datatype EmbedFS = EmbedFS(root: Listing, files: map<string, string>)

  /** The zero embedded file system: an empty, readable root. */
  const EmptyEmbedFS: EmbedFS := EmbedFS(Listing(true, []), map[])

  /**
   * Every field of the loader, as a value. A reader is modelled by the text
   * it yields; a decoder by its extension string (".yaml", ".json", ...).
   */
  datatype Settings = Settings(
    useEnv: bool,
    useReader: bool,
    useEmbedFS: bool,
    dirs: seq<string>,
    profiles: seq<string>,
    expectedConfigFiles: seq<string>,
    filename: string,
    tag: string,
    timeLayout: string,
    envPrefix: string,
    profileLayout: string,
    readerConfig: string,
    readerDecoder: string,
    embedFS: EmbedFS)
  {
    /** What file naming depends on. */
    function Names(): Names {
      Naming.Names(filename, profileLayout, profiles)
    }
  }

  /** defaultConfucius: `config.yaml` in ".", tag `conf`, RFC 3339 times, layout `config.test.yaml`. */
  function DefaultSettings(): (s: Settings)
    ensures s.filename == DefaultFilename && s.dirs == [DefaultDir] && s.tag == DefaultTag
    ensures s.timeLayout == DefaultTimeLayout && s.profileLayout == DefaultProfileLayout
    ensures !s.useEnv && !s.useReader && !s.useEmbedFS && s.profiles == [] && s.envPrefix == ""
  {
    Settings(false, false, false, [DefaultDir], [], [], DefaultFilename, DefaultTag,
             DefaultTimeLayout, "", DefaultProfileLayout, "", "", EmptyEmbedFS)
  }

  /** The default settings can name their files: there are no profiles. */
  lemma DefaultSettingsNameable()
    ensures Nameable(DefaultSettings().Names())
    ensures ExpectedFiles(DefaultSettings().Names()) == [DefaultFilename]
  {
  }

  /** The options of option.go. */
  datatype Opt =
    | File(name: string)
    | Reader(content: string, decoder: string)
    | String(text: string, decoder: string)
    | Dirs(dirs: seq<string>)
    | Tag(tag: string)
    | TimeLayout(layout: string)
    | UseEnv(prefix: string)
    | Profiles(profiles: seq<string>)
    | ProfileLayout(layout: string)

  /** What the Reader option assigns. */
  function UseReader(s: Settings, content: string, decoder: string): Settings {
    s.(useReader := true, readerConfig := content, readerDecoder := decoder)
  }

  /** Applying one option. */
  function Configure(s: Settings, o: Opt): Settings {
    match o
    case File(name) => s.(filename := name)
    case Reader(content, decoder) => UseReader(s, content, decoder)
    case String(text, decoder) => UseReader(s, TrimSpace(text), decoder)
    case Dirs(dirs) => s.(dirs := dirs)
    case Tag(tag) => s.(tag := tag)
    case TimeLayout(layout) => s.(timeLayout := layout)
    case UseEnv(prefix) => s.(useEnv := true, envPrefix := prefix)
    case Profiles(profiles) => s.(profiles := profiles)
    case ProfileLayout(layout) => s.(profileLayout := layout)
  }

  /** Applying options in order (the option loop of Load). */
  function ConfigureAll(s: Settings, opts: seq<Opt>): Settings
    decreases |opts|
  {
    if opts == [] then s else Configure(ConfigureAll(s, opts[..|opts| - 1]), opts[|opts| - 1])
  }

  /** The settings fields an option can assign. */
  datatype FieldName =
    | UseEnvName | UseReaderName | DirsName | ProfilesName | FilenameName | TagName
    | TimeLayoutName | EnvPrefixName | ProfileLayoutName | ReaderConfigName | ReaderDecoderName

  /** The fields an option assigns. */
  function Assigns(o: Opt): set<FieldName> {
    match o
    case File(_) => {FilenameName}
    case Reader(_, _) => {UseReaderName, ReaderConfigName, ReaderDecoderName}
    case String(_, _) => {UseReaderName, ReaderConfigName, ReaderDecoderName}
    case Dirs(_) => {DirsName}
    case Tag(_) => {TagName}
    case TimeLayout(_) => {TimeLayoutName}
    case UseEnv(_) => {UseEnvName, EnvPrefixName}
    case Profiles(_) => {ProfilesName}
    case ProfileLayout(_) => {ProfileLayoutName}
  }

  /** Two settings agree on every field not named in `fields`. */
  predicate AgreeExcept(a: Settings, b: Settings, fields: set<FieldName>) {
    && (UseEnvName !in fields ==> a.useEnv == b.useEnv)
    && (UseReaderName !in fields ==> a.useReader == b.useReader)
    && a.useEmbedFS == b.useEmbedFS
    && (DirsName !in fields ==> a.dirs == b.dirs)
    && (ProfilesName !in fields ==> a.profiles == b.profiles)
    && a.expectedConfigFiles == b.expectedConfigFiles
    && (FilenameName !in fields ==> a.filename == b.filename)
    && (TagName !in fields ==> a.tag == b.tag)
    && (TimeLayoutName !in fields ==> a.timeLayout == b.timeLayout)
    && (EnvPrefixName !in fields ==> a.envPrefix == b.envPrefix)
    && (ProfileLayoutName !in fields ==> a.profileLayout == b.profileLayout)
    && (ReaderConfigName !in fields ==> a.readerConfig == b.readerConfig)
    && (ReaderDecoderName !in fields ==> a.readerDecoder == b.readerDecoder)
    && a.embedFS == b.embedFS
  }

  /** An option changes nothing but the fields it assigns. */
  lemma ConfigureFrame(s: Settings, o: Opt)
    ensures AgreeExcept(s, Configure(s, o), Assigns(o))
  {
  }

  /** What each option sets its fields to, whatever they were before: lists are replaced, not extended. */
  lemma ConfigureSets(s: Settings, o: Opt)
    ensures o.File? ==> Configure(s, o).filename == o.name
    ensures o.Reader? ==> Configure(s, o).useReader && Configure(s, o).readerConfig == o.content
                          && Configure(s, o).readerDecoder == o.decoder
    ensures o.String? ==> Configure(s, o).useReader && Configure(s, o).readerConfig == TrimSpace(o.text)
                          && Configure(s, o).readerDecoder == o.decoder
    ensures o.Dirs? ==> Configure(s, o).dirs == o.dirs
    ensures o.Tag? ==> Configure(s, o).tag == o.tag
    ensures o.TimeLayout? ==> Configure(s, o).timeLayout == o.layout
    ensures o.UseEnv? ==> Configure(s, o).useEnv && Configure(s, o).envPrefix == o.prefix
    ensures o.Profiles? ==> Configure(s, o).profiles == o.profiles
    ensures o.ProfileLayout? ==> Configure(s, o).profileLayout == o.layout
  {
  }

  /** String is Reader applied to the text with its surrounding white space trimmed. */
  lemma StringIsTrimmedReader(s: Settings, text: string, decoder: string)
    ensures Configure(s, String(text, decoder)) == Configure(s, Reader(TrimSpace(text), decoder))
  {
  }

  /** Applying an option twice is applying it once. */
  lemma ConfigureIdempotent(s: Settings, o: Opt)
    ensures Configure(Configure(s, o), o) == Configure(s, o)
  {
  }

  /** Options that assign different fields can be given in either order. */
  lemma ConfigureCommutes(s: Settings, o1: Opt, o2: Opt)
    requires Assigns(o1) !! Assigns(o2)
    ensures Configure(Configure(s, o1), o2) == Configure(Configure(s, o2), o1)
  {
  }

  /** Options after those given change only what they assign. */
  lemma {:induction false} ConfigureAllFrame(s: Settings, opts: seq<Opt>, fields: set<FieldName>)
    requires forall i :: 0 <= i < |opts| ==> Assigns(opts[i]) <= fields
    ensures AgreeExcept(s, ConfigureAll(s, opts), fields)
    decreases |opts|
  {
    if opts != [] {
      ConfigureAllFrame(s, opts[..|opts| - 1], fields);
      ConfigureFrame(ConfigureAll(s, opts[..|opts| - 1]), opts[|opts| - 1]);
    }
  }

  /** The last File option decides the file name: the options after it leave it alone. */
  lemma LastFileWins(s: Settings, before: seq<Opt>, name: string, after: seq<Opt>)
    requires forall i :: 0 <= i < |after| ==> !after[i].File?
    ensures ConfigureAll(s, before + [Opt.File(name)] + after).filename == name
  {
    ConfigureAllSplit(s, before + [Opt.File(name)], after);
    ConfigureAllSplit(s, before, [Opt.File(name)]);
    var mid := ConfigureAll(s, before + [Opt.File(name)]);
    var fields := {UseEnvName, UseReaderName, DirsName, ProfilesName, TagName, TimeLayoutName, EnvPrefixName,
                   ProfileLayoutName, ReaderConfigName, ReaderDecoderName};
    forall i | 0 <= i < |after| ensures Assigns(after[i]) <= fields {
    }
    ConfigureAllFrame(mid, after, fields);
  }

  /** Applying a concatenation of options is applying the second list after the first. */
  lemma {:induction false} ConfigureAllSplit(s: Settings, a: seq<Opt>, b: seq<Opt>)
    ensures ConfigureAll(s, a + b) == ConfigureAll(ConfigureAll(s, a), b)
    decreases |b|
  {
    if b == [] {
      assert a + b == a;
    } else {
      ConfigureAllSplit(s, a, b[..|b| - 1]);
      assert (a + b)[..|a + b| - 1] == a + b[..|b| - 1];
    }
  }
}
