# confucius, modelled in Dafny

confucius is a Go configuration loader. `Load(&cfg, options...)` first
applies the options to a loader that starts from its defaults:

- file `config.yaml`;
- directory `.`;
- struct tag `conf`;
- RFC 3339 times;
- profile layout `config.test.yaml`.

Then it runs these steps:

1. When a reader was given, it decodes the reader into a seed object.
2. `findFiles` looks for the main file and one file per profile. It looks
   first in an embedded file system (a depth-first walk, when one is in
   use) and then in each directory in turn. Each found file contributes an
   entry `origin:tag=path`. When a file is still missing it reports "not
   found"; otherwise it sorts the entries.
3. `decodeFiles` decodes every entry with the decoder its extension
   selects, and merges the results into the seed from left to right.
4. The merged object is decoded into the struct.
5. `processCfg` checks each leaf field:
   - `required` together with `default` is rejected;
   - the field is overridden from the environment (`PREFIX_FIELD_PATH`);
   - `required` is validated;
   - a `default` is applied to a zero field.

   Failures are collected by field path.

The package's small logger is modelled as well: levels, a threshold, the
default or a user callback, and the options that set them.

The model follows the source's own split between objects and values:

- **The loader (`Confucius.Confucius`).** It is a class with the Go
  struct's fields.
  - Its option methods assign exactly the fields each option assigns.
  - `InitExpectedConfigFiles`, `RemoveFromExpectedList`, `WalkEmbedDir`,
    `FindEmbedFiles`, `FindLocalFiles` and `FindFiles` update
    `expectedConfigFiles` in place with the source's loops and recursion.
  - `DecodeFiles` and `Load` are the source's loops and early returns.
  - Each method is proved equal to a function of the old state:
    `Configure`, `ExpectedFiles`, `Without`, `Run` over the search's
    candidate events, `Locate`, `DecodeAll` and `LoadSpec`.
- **The search as a value.**
  - `Scan` describes the searches as a list of events: a candidate file,
    or a directory that cannot be read. A first-found-wins step is
    applied to each event.
  - `Locator.Locate` is findFiles over that description.
  - The lemmas give what the search collects, what it leaves expected,
    when it fails, and how the sorted entries are ordered.
- **File naming and entries (`Naming`).** `profileFileName`'s three
  substitutions, `fileExists`' tags, and the `origin:tag=path` text.
- **Decoding (`Decoding`).** The decoder dispatch of `decodeReader`, the
  reading of one entry, and the fold of `decodeFiles`.
- **Interpolation (`Interpolation`).** `replaceEnvironments`. The
  matches of `\$\{(.*?|)\}` are computed exactly, and each is replaced
  everywhere in turn.
- **Fields (`Fields`).** `setValue`/`setSlice` on a value datatype,
  `setDefaultValue`, `formatEnvKey`, `processField` and `processCfg`.
- **Standard library pieces.**
  - `strings` (Split, Contains, ReplaceAll, ToUpper, TrimSpace) is in
    `Text`.
  - `strconv` (ParseBool, ParseInt and ParseUint in base 10 to 64 bits
    with their syntax and range errors) is in `Numbers`.
  - `sort.StringSlice`, given as the sorted permutation of its input, is
    in `Sorting`.
  - `path/filepath`'s Clean and Join are in `Paths`. They follow Go's
    lexical rules: empty and `.` elements go, `..` takes back the element
    before it, and an empty result is `.`.
- **The logger (`Logging.Logger`).** It is a class with the logger's four
  fields. `Print` and its level wrappers return the callback call they
  make.

### Parameters

The model has no I/O. These things are parameters instead:

- **The files on disk:** a map from path to content. `os.Stat` is
  membership in its keys, and `os.Open` is a lookup.
- **The embedded file system:** a `Listing` tree for `ReadDir`, and a
  map for `Open`.
- **The environment:** a map.
- **Whether the target is a pointer to a struct:** a boolean.
- **The caller position from `runtime.Caller`:** an optional value.
- **Oracle functions in a `Host`/`Conversions` value:**
  - the YAML, JSON and TOML decoders;
  - the merge;
  - the decoding of the merged object into the struct's leaf fields;
  - `isZero` and `stringSlice`;
  - float, duration and time parsing.

## Model

| member | source | states |
|---|---|---|
| Options.DefaultSettings | confucius.go:50-58 | the defaults: `config.yaml` in `.`, tag `conf`, RFC 3339 layout, layout `config.test.yaml`, no env, no reader, no embedded files, no profiles |
| Options.Configure | option.go:20-137 | one option: the fields that option assigns |
| Options.ConfigureAll | confucius.go:103-105 | the options applied in order |
| Options.DefaultSettingsNameable | confucius.go:50-58 | with the defaults the only expected file is `config.yaml` |
| Options.ConfigureSets | option.go:20-137 | each option sets its own fields to the given values, replacing (not extending) lists |
| Options.ConfigureFrame | option.go:20-137 | an option changes no field other than those it assigns |
| Options.StringIsTrimmedReader | option.go:36-38 | String is Reader on the text with surrounding white space trimmed |
| Options.ConfigureIdempotent | option.go:20-137 | giving the same option twice is giving it once |
| Options.ConfigureCommutes | option.go:20-137 | options that assign disjoint fields commute |
| Options.ConfigureAllSplit | confucius.go:103-105 | applying `a + b` is applying `b` after `a` |
| Options.ConfigureAllFrame | confucius.go:103-105 | later options change only the fields they assign |
| Options.LastFileWins | confucius.go:103-105 | the last File option decides the file name |
| Confucius.Confucius.constructor | confucius.go:50-58 | a new loader holds the default settings |
| Confucius.Confucius.Apply | confucius.go:103-105 | calling an option on the loader changes its state as `Configure` says |
| Confucius.Confucius.WithFile | option.go:20-24 | File sets the file name only |
| Confucius.Confucius.UseReaderOf | option.go:27-38 | Reader (and String, on the trimmed text) turns the reader on and stores it and its decoder |
| Confucius.Confucius.WithDirs | option.go:51-55 | Dirs replaces the directory list |
| Confucius.Confucius.WithTag | option.go:63-67 | Tag sets the tag |
| Confucius.Confucius.WithTimeLayout | option.go:75-79 | TimeLayout sets the time layout |
| Confucius.Confucius.WithEnv | option.go:110-115 | UseEnv turns the environment on with the prefix |
| Confucius.Confucius.WithProfiles | option.go:122-126 | Profiles replaces the profile list |
| Confucius.Confucius.WithProfileLayout | option.go:133-137 | ProfileLayout sets the profile layout |
| Confucius.LoadWith | confucius.go:100-108 | package Load is c.Load on the defaults with the options applied in order |
| Confucius.Confucius.InitExpectedConfigFiles | confucius.go:242-248 | the expected list becomes the main file then each profile's file name |
| Confucius.Confucius.RemoveFromExpectedList | confucius.go:250-259 | every occurrence of the name leaves the list, the rest keep their order |
| Confucius.Confucius.Take | confucius.go:165-170 | a present candidate whose name is new is marked found, removed from the expected list and its entry appended; otherwise nothing changes |
| Confucius.Confucius.WalkEmbedDir | confucius.go:215-240 | the walk of a directory equals the run of its depth-first candidate events: found set, entries, expected list, and the first unreadable directory |
| Confucius.Confucius.FindEmbedFiles | confucius.go:189-198 | with a fresh found set, the walk from `.` when the embedded file system is in use, else nothing |
| Confucius.Confucius.FindLocalFiles | confucius.go:161-187 | with its own fresh found set, the run of every directory's candidates in order, each candidate path being `filepath.Join(dir, name)` (cleaned, so `./configs` gives `configs/pod.yaml`); it never fails |
| Confucius.Confucius.FindInDir | confucius.go:164-184 | one directory: the main file, then each profile's file in profile order, at the cleaned joined path |
| Confucius.Confucius.FindFiles | confucius.go:139-159 | the files, the error and the expected list left in the loader are those of `Locate` on the old settings |
| Confucius.Confucius.DecodeEntry | confucius.go:274-289 | one entry: the embedded read if it mentions `#embed`, then the local read if it mentions `#local`, the first error returned |
| Confucius.Confucius.DecodeFiles | confucius.go:271-296 | the loop is the left fold `DecodeAll` of decoding and merging from the origin, stopping at the first error |
| Confucius.Confucius.Load | confucius.go:110-137 | the method's result is `LoadSpec` of the old settings |
| Confucius.Seed | confucius.go:115-121 | the object Load starts from: the reader's decoding when a reader is in use, else the empty object |
| Confucius.LoadSpec | confucius.go:110-137 | Load as a function of the settings: struct check, seed, search, decoding, then the end of Load |
| Confucius.Finish | confucius.go:132-136 | the end of Load: decodeMap, then processCfg, failing with the error map if it is not empty |
| Confucius.LoadRejectsNonStruct | confucius.go:111-113 | a target that is not a struct pointer fails before anything else |
| Confucius.LoadReaderFailure | confucius.go:116-121 | a reader that fails to decode fails Load with that error |
| Confucius.LoadLocateFailure | confucius.go:123-127 | a failed search fails Load unless reader or env is in use; then Load goes on with the seed alone |
| Confucius.LoadWithoutOptions | confucius.go:100-137 | Load without options is Load on the defaults: it never reaches the naming panic, expects only `config.yaml`, and fails with the search error when that file is missing, since neither a reader nor the environment is in use |
| Confucius.LoadFileFailure | confucius.go:128-130 | any found entry that fails to decode fails Load with a decode error |
| Confucius.FinishSpec | confucius.go:132-136 | the end of Load succeeds iff decodeMap succeeds and every field processes cleanly, and then yields the processed fields |
| Naming.ProfileFileName | confucius.go:298-305 | profileFileName: in the layout every `config` becomes the part of the file name before its first `.`, then every `test` the profile, then every `yaml` the second dot-separated part of the file name (between its first and second `.`; any further dotted parts are dropped) |
| Naming.ExpectedFiles | confucius.go:242-248 | initExpectedConfigFiles' list: the main file, then each profile's file |
| Naming.FileTag | confucius.go:200-213 | fileExists: `#main` for the main name, else the tag of the first profile whose file has that name, else `""` |
| Naming.ExpectedFilesShape | confucius.go:242-248 | the expected list has 1 + profiles entries: the main file, then profile `i`'s file at `i + 1` |
| Naming.LayoutStem | confucius.go:301 | the first substitution turns the default layout into `stem.test.yaml` |
| Naming.LayoutProfile | confucius.go:302 | the second puts the profile in place of `test`, when the stem holds no `test` |
| Naming.LayoutExtension | confucius.go:303 | the third puts the extension in place of `yaml`, when stem and profile hold no `yaml` |
| Naming.DefaultProfileFileName | confucius.go:298-305 | under the default layout `stem.ext` and profile `p` give `stem.p.ext`, as long as the substituted pieces do not contain the later patterns |
| Naming.ProfileFileNameDropsTail | confucius.go:300-303 | a name with a second `.` keeps only its first two parts: under the default layout `stem.mid.tail` and profile `p` give `stem.p.mid`, so `app.prod.yaml` with `dev` gives `app.dev.prod` |
| Naming.ProfileTagShape | confucius.go:181 | a profile tag starts with `#profile_` and is neither `#main` nor empty |
| Naming.FileTagSpec | confucius.go:200-213 | `#main` exactly for the main name, `""` exactly for a name not expected, else the tag of the first profile with that file name |
| Naming.FileTagSecondProfile | confucius.go:205-210 | under the default layout the file of the second of two profiles is tagged `#profile_01_<profile>` |
| Naming.LocationPath | confucius.go:275-285 | the second `=`-section of an entry is the path up to its own first `=` |
| Paths.Clean | confucius.go:164 | filepath.Clean: never empty; the kept elements joined by `/`, behind `/` for a rooted path, `.` when none is kept |
| Paths.JoinPath | confucius.go:164 | filepath.Join: the cleaned `dir/name`, or the cleaned name when the directory is empty |
| Paths.CleanIdempotent | confucius.go:164 | cleaning a cleaned path changes nothing |
| Paths.JoinPlainName | confucius.go:164 | joining a plain name gives the name under `.`, `/name` under the root, else the cleaned directory, `/` and the name |
| Paths.JoinPathEndsWithName | confucius.go:164 | a path joined with a plain name ends with that name |
| Paths.CleanDotPrefix | confucius.go:164 | `./d` cleans to `d` and `./` to `.` |
| Paths.CleanDoubled | confucius.go:164 | `a//b` cleans to `a/b` |
| Paths.CleanInnerDot | confucius.go:164 | `a/./b` cleans to `a/b` |
| Paths.CleanParent | confucius.go:164 | `a/../b` cleans to `b` |
| Paths.CleanDot | confucius.go:164 | `.` is clean |
| Paths.CleanRoot | confucius.go:164 | `/` is clean |
| Paths.JoinPathCurrentDir | confucius.go:164 | joining under `./d`, `./` or `.` gives `d/name`, `name` and `name` (the last is walkEmbedDir's subdirectory path) |
| Paths.JoinPathCleans | confucius.go:175 | joining under `a//b`, `a/./b`, `a/../b` or `/` gives `a/b/name`, `a/b/name`, `b/name` or `/name` |
| Numbers.Pad2Digits | confucius.go:181 | below 100, `%02d` is exactly the two digits |
| Numbers.NatToStringDenotes | confucius.go:181 | `%d` gives a non-empty digit string denoting the value |
| Numbers.ParseUintSpec | confucius.go:508-511 | ParseUint accepts exactly non-empty digit strings whose value fits 64 bits, and returns that value |
| Numbers.ParseUintRejectsSign | confucius.go:508-511 | a signed text is never an unsigned number |
| Numbers.ParseUintFormat | confucius.go:508-511 | the decimal text of a 64-bit unsigned value parses back to it |
| Numbers.ParseIntSpec | confucius.go:501-505 | ParseInt accepts exactly an optional sign and digits whose signed value fits 64 bits, and returns that value |
| Numbers.ParseIntFormat | confucius.go:501-505 | the decimal text of a 64-bit signed value parses back to it |
| Numbers.ParseBoolFormat | confucius.go:488-492 | `true`/`false` parse back to the boolean |
| Sorting.Sort | confucius.go:157 | the sorted result is a permutation of the input |
| Sorting.BelowIrreflexive | confucius.go:157 | the string order is irreflexive |
| Sorting.BelowAsymmetric | confucius.go:157 | the string order is asymmetric |
| Sorting.BelowTransitive | confucius.go:157 | the string order is transitive |
| Sorting.BelowTotal | confucius.go:157 | the string order is total |
| Sorting.SortedPlacesBelowFirst | confucius.go:157 | in a sorted list a strictly smaller string stands earlier |
| Text.Split | confucius.go:275 | strings.Split on one character: at least one piece, more than one iff the separator occurs, no piece holds it |
| Text.JoinSplit | confucius.go:275 | joining the pieces of a split gives the text back |
| Text.SplitJoin | confucius.go:275 | splitting a join of separator-free pieces gives the pieces back |
| Text.ContainsAt | confucius.go:277-284 | strings.Contains holds iff the pattern starts at some position |
| Text.ReplaceAllAbsent | confucius.go:301-303 | ReplaceAll leaves a text without the pattern unchanged |
| Text.ToUpperNormal | confucius.go:460 | upper-casing leaves no lower-case ASCII letter and is idempotent |
| Text.TrimSpaceSpec | option.go:37 | TrimSpace keeps a contiguous piece, cuts only white space and leaves none at either end |
| Text.TrimSpaceIdempotent | option.go:37 | trimming twice is trimming once |
| Scan.Without | confucius.go:250-259 | removeFromExpectedList for a set of names: the entries not removed, in order |
| Scan.Step | confucius.go:165-170 | one candidate: a present file with a new name is marked found, its entry appended, its name removed from the expected list |
| Scan.Run | confucius.go:215-240 | the candidates in order, stopping at the first directory that cannot be read |
| Scan.MainProbeCleansDir | confucius.go:164-171 | under directory `./d` the main candidate is `d/<file>`, and its entry names that path |
| Scan.WithoutMembers | confucius.go:250-259 | removal keeps exactly the members not dropped and never lengthens the list |
| Scan.WithoutConcat | confucius.go:250-259 | removal distributes over concatenation |
| Scan.WithoutTwice | confucius.go:250-259 | two removals are one removal of the union |
| Scan.WithoutNothing | confucius.go:250-259 | removing names the list does not hold changes nothing |
| Scan.RunStops | confucius.go:215-229 | a walk fails iff it meets an unreadable directory, names the first one, and keeps what came before |
| Scan.RunFound | confucius.go:165-183 | a readable run finds every present name, and exactly the newly found names leave the expected list, which keeps its order |
| Scan.RunHits | confucius.go:165-183 | a run appends the entries of exactly the first present candidate of each new name, in order |
| Scan.FirstPresentUnique | confucius.go:165-178 | no name is collected twice within one search |
| Scan.LocalEventsVisits | confucius.go:161-187 | each directory contributes 1 + profiles candidates, none a failure |
| Scan.RunLocated | confucius.go:168-181 | a run over candidates whose entries hold `=` appends only such entries |
| Scan.ListingLocated | confucius.go:233-234 | every embedded candidate's entry holds `=` |
| Scan.LocalLocated | confucius.go:168-181 | every local candidate's entry holds `=` |
| Locator.Locate | confucius.go:139-159 | every returned file holds `=`, and success leaves nothing expected |
| Locator.LocateNotFound | confucius.go:150-155 | with a readable embedded tree, findFiles fails iff some expected file is found nowhere; the error lists exactly those, in expected order |
| Locator.LocateUnreadable | confucius.go:143-146 | an unreadable embedded directory fails findFiles with its path and no files |
| Locator.LocateSuccess | confucius.go:147-158 | on success the files are sorted and a permutation of the embedded then the local entries |
| Locator.EmbedBeforeLocal | confucius.go:157 | every `#embed` entry sorts before every `#local` entry |
| Locator.MainBeforeProfile | confucius.go:157 | from the same origin the main entry sorts before profile entries |
| Locator.ProfilesByIndex | confucius.go:157 | from the same origin profile entries with indices below 100 sort by index |
| Locator.SortedEmbedFirst | confucius.go:157 | in the sorted result embedded entries stand before local ones |
| Locator.EmbeddedAndLocalBothReturned | confucius.go:161-171 | a main file both embedded and on disk is returned twice, since the local search starts a fresh found set |
| Decoding.ExtShape | confucius.go:315 | filepath.Ext is empty or a `.` with no further `.`, holds no `/`, and is a suffix of the path |
| Decoding.ExtOf | confucius.go:315 | the extension of `stem.ext` is `.ext` |
| Decoding.ExtNone | confucius.go:315 | a name without `.` has no extension |
| Decoding.DecodeReader | confucius.go:318-343 | decodeReader: an unsupported decoder fails with the main file's extension, a supported one decodes with its decoder |
| Decoding.EntryValue | confucius.go:274-289 | one entry of decodeFiles: the embedded read, then the local read, of the path in `sections[1]` (the second piece of the split on `=`) |
| Decoding.DecodeAll | confucius.go:271-296 | decodeFiles: entries decoded and merged into the seed from left to right, the first error aborting |
| Decoding.DecodeReaderDispatch | confucius.go:318-343 | `.yaml`/`.yml` use YAML, `.json` JSON, `.toml` TOML; any other decoder fails with the main file's extension |
| Decoding.LocalEntryReadsPath | confucius.go:275-289 | a `#local` entry without `#embed` reads from disk the path up to its first `=` |
| Decoding.DecodeAllConcat | confucius.go:273-294 | decoding `a + b` is decoding `b` into the result of `a` |
| Decoding.DecodeAllAborts | confucius.go:277-288 | any entry that fails to decode fails the whole fold |
| Decoding.DecodeAllStops | confucius.go:273-294 | once a prefix fails, the fold fails with the same error |
| Decoding.DecodeAllMerges | confucius.go:271-296 | with a total merge and all entries decoding, the result is the seed merged with each object in order |
| Interpolation.Resolve | confucius.go:371-382 | a reference's replacement: the variable if set, else the text after its first `:` up to the next one, else `""` |
| Interpolation.SubstituteFrom | confucius.go:365-384 | the loop: each match in turn is replaced everywhere in the result; an empty name stops it with the error |
| Interpolation.Interpolate | confucius.go:363-385 | replaceEnvironments: the loop over the matches of the original string |
| Interpolation.Close | confucius.go:364 | the lazy group ends at the first `}`, provided no newline comes before it |
| Interpolation.FindReferences | confucius.go:364-366 | every match is `${value}` with a `}`-free, newline-free value |
| Interpolation.ReplaceEnvironments | confucius.go:363-385 | the loop computes `Interpolate`; its only error is "environment name is missing" |
| Interpolation.FindNone | confucius.go:366 | text without `${` has no match |
| Interpolation.FindAfterFree | confucius.go:366 | a prefix without `$` contributes no match |
| Interpolation.FindAt | confucius.go:366 | a reference at the front is the first match, and the search resumes after it |
| Interpolation.InterpolateNoReference | confucius.go:363-385 | a string without references is returned unchanged, without error |
| Interpolation.InterpolateMissingName | confucius.go:368-370 | an empty reference first stops with the error and the text unchanged |
| Interpolation.SubstituteMissing | confucius.go:365-370 | the loop reports the missing name iff some match in the list has an empty name |
| Interpolation.SubstituteStopsAt | confucius.go:365-383 | at the first empty match the loop stops with the error, the matches before it already replaced |
| Interpolation.InterpolateMissingAny | confucius.go:363-370 | replaceEnvironments fails iff some match of the string has an empty name, wherever it stands |
| Interpolation.InterpolateStopsAt | confucius.go:363-383 | when match `k` is the first with an empty name, the error comes with the text in which matches `0..k-1` are replaced |
| Interpolation.InterpolateOne | confucius.go:366-383 | one reference is replaced by what it resolves to |
| Interpolation.InterpolateTwo | confucius.go:366-383 | two references are replaced in place |
| Interpolation.ResolveSet | confucius.go:372-375 | a set variable is used whatever default follows |
| Interpolation.ResolveUnset | confucius.go:376-381 | an unset variable gives "" without a default, else the default up to its next colon |
| Fields.Assign | confucius.go:476-535 | setValue: the text converted by the value's kind, through pointers and slices; a failure keeps the value |
| Fields.AssignAll | confucius.go:541-551 | setSlice's element loop: each text set into a zero element, the first failure the result |
| Fields.FromEnv | confucius.go:446-452 | setFromEnv: the variable named by the formatted path, if set, is set into the field |
| Fields.FormatEnvKey | confucius.go:454-461 | formatEnvKey: the rewritten path, behind `PREFIX_` for a prefix, upper-cased |
| Fields.ProcessField | confucius.go:422-444 | processField: required-with-default rejected, then the environment, then required, then the default on a zero value |
| Fields.ErrorsOf | confucius.go:403-418 | processCfg's error map: each failing field's error under its path |
| Fields.Zero | confucius.go:480 | the zero value of a kind has that kind |
| Fields.SetValue | confucius.go:476-535 | the method computes `Assign` |
| Fields.SetSlice | confucius.go:541-551 | the method computes `AssignAll` over the split text |
| Fields.AssignKeepsKind | confucius.go:476-535 | setting never changes a value's kind |
| Fields.AssignFailureUnchanged | confucius.go:476-535 | a failed set changes nothing but the nil pointers it allocated |
| Fields.AssignNilPointer | confucius.go:478-482 | a nil pointer is allocated with a zero element, which is then set |
| Fields.AssignScalars | confucius.go:487-520 | strings are taken as they are; bools, ints and uints succeed iff strconv parses, with the parsed value |
| Fields.AssignFormatted | confucius.go:487-512 | the text of an int64, a uint64 or a bool sets exactly that value |
| Fields.AssignNegativeUint | confucius.go:507-511 | a negative text fails on an unsigned field, which keeps its value |
| Fields.AssignUnsupported | confucius.go:521-533 | non-time structs and unknown kinds are rejected as unsupported |
| Fields.AssignAllStops | confucius.go:544-548 | once an element fails, the slice fails with that error |
| Fields.AssignAllSpec | confucius.go:541-551 | the slice succeeds iff every element sets from zero, and then holds those values one for one |
| Fields.SliceAllOrNothing | confucius.go:544-549 | if one element fails, the slice field is left as it was |
| Fields.SliceOfOne | confucius.go:541-551 | a slice whose text splits into one integer becomes a one-element slice |
| Fields.SetDefault | confucius.go:465-470 | bool fields cannot take a default; any other is set as by setValue |
| Fields.KeyPathConcat | confucius.go:456 | the key rewrite works piecewise |
| Fields.KeyPathClean | confucius.go:456 | no `.`, `[` or `]` remains, and a key without them is untouched |
| Fields.KeyPathSeparators | confucius.go:455-456 | `a.b` becomes `a_b` and `a[i]` becomes `a_i` |
| Fields.FormatEnvKeySpec | confucius.go:454-461 | the key is the rewritten path upper-cased, behind `PREFIX_` for a prefix, with no lower-case letter |
| Fields.RequiredWithDefaultRejected | confucius.go:423-425 | required with a default is an error and leaves the field alone |
| Fields.EnvOverrides | confucius.go:427-431 | a set variable overrides the field even when it has a value; a bad one fails |
| Fields.NoEnvNoChange | confucius.go:433-443 | without the variable a required field fails iff it is zero, and a non-zero field passes unchanged |
| Fields.DefaultOnlyWhenZero | confucius.go:437-441 | a default is used only on a zero value |
| Fields.BoolDefaultRejected | confucius.go:437-441 | a zero bool field with a default fails and keeps its value |
| Fields.ProcessFieldFrame | confucius.go:422-444 | processing changes only the field's value, and keeps its kind |
| Fields.ProcessedFields | confucius.go:407-411 | the processed fields, one for one |
| Fields.ProcessCfg | confucius.go:403-418 | the loop gives the processed fields and the error map `ErrorsOf` |
| Fields.ErrorsOfSpec | confucius.go:407-411 | a path is in the error map iff a field with that path fails, with the error of the last such field |
| Fields.ErrorsOfEmpty | confucius.go:413-417 | no error is reported iff every field processes cleanly |
| Logging.LevelName | logger.go:16-34 | LogLevel.String: the level's name, or UNKNOWN |
| Logging.Emit | logger.go:101-111 | Print's decision: no call below the threshold, else the callback with the caller or `n/a`, -1 |
| Logging.ApplyOption | logger.go:69-92 | one logger option: its new fields, and the warning SetOutput gives under a callback |
| Logging.LevelNameSpec | logger.go:16-34 | each named level has its name; every other value is UNKNOWN, which no level has |
| Logging.LevelNamesDistinct | logger.go:16-34 | different levels have different names |
| Logging.SetLevelThreshold | logger.go:77-81 | after SetLevel(l) a message is printed iff its level is at least l; under SetLevel(Warning), Debug, Trace and Info are silenced and Warning, Error, Panic and Fatal pass |
| Logging.EmitSpec | logger.go:101-111 | the callback is called iff level is at least the threshold, with the level, the message and the caller position or `n/a`, -1 |
| Logging.EmitMonotone | logger.go:102-104 | a message that passes would also pass at any higher level |
| Logging.ApplyOptionFrame | logger.go:69-92 | SetLevel changes only the level; Callback installs the callback and discards output; only SetOutput under a callback warns |
| Logging.SetOutputAfterCallback | logger.go:69-92 | after Callback, SetOutput changes nothing and warns iff the warning level passes |
| Logging.SetOutputWithoutCallback | logger.go:83-88 | without a callback, SetOutput installs the default callback over the new output |
| Logging.Logger.constructor | logger.go:46-53 | defaultLogger: level Debug, output discarded, the default callback |
| Logging.Logger.Print | logger.go:101-111 | the method returns the call `Emit` describes |
| Logging.Logger.Debug | logger.go:113-115 | Print at Debug |
| Logging.Logger.Trace | logger.go:117-119 | Print at Trace |
| Logging.Logger.Info | logger.go:121-123 | Print at Info |
| Logging.Logger.Warn | logger.go:125-127 | Print at Warning |
| Logging.Logger.Error | logger.go:129-131 | Print at Error |
| Logging.Logger.Fatal | logger.go:133-135 | Print at Fatal |
| Logging.Logger.Panic | logger.go:137-139 | Print at Panic |
| Logging.Logger.Callback | logger.go:69-75 | the Callback option changes the state as `ApplyOption` says |
| Logging.Logger.SetLevel | logger.go:77-81 | the SetLevel option changes the state as `ApplyOption` says |
| Logging.Logger.SetOutput | logger.go:83-92 | the SetOutput option's new state and warning are as `ApplyOption` says |

## Left out

- I/O is replaced by parameters. `os.Stat`/`os.Open` become a map from path to content. `embed.FS` becomes a listing tree for `ReadDir` and a map for `Open`. The environment becomes a map. `runtime.Caller` becomes an optional caller. `isStructPtr` becomes a boolean.
- The YAML, JSON and TOML decoders, `mergo.Merge` and `decodeMap` are oracle functions. In particular, `mapstructure` with the `fromEnvironmentHookFunc` interpolation hook, the duration and time hooks, and `flattenCfg` are not modelled. `replaceEnvironments` is modelled on its own.
- `isZero`, `stringSlice`, `strconv.ParseFloat`, `time.ParseDuration` and `time.Parse` are oracle functions.
- `strings.ToUpper` is modelled on ASCII letters only. `unicode.IsSpace` (used by `strings.TrimSpace`) is the full Unicode White_Space set.
- `Scan.Listing`: ReadDir's result after walkEmbedDir's `sort.Slice` is given as the listing order. The comparator `!entries[i].IsDir()` is not a strict weak order, so the resulting order is not derived.
- An embedded file directly under the root gets the path `./name`, since walkEmbedDir joins `path + "/" + name` from `.` without cleaning. A file in a subdirectory gets `sub/name`, since the subdirectory's path is `filepath.Join(".", "sub")`, which is `sub`. `embed.FS.Open` is given that path, and whether embed.FS accepts it is part of the oracle map.
- `log.Printf("file not found")` in walkEmbedDir is not modelled: it only writes to the standard logger.
- Fields narrower than 64 bits are not modelled: the model parses to 64-bit range, and Go's `SetInt`/`SetUint` truncation is left out.
- `Fields.ProcessCfg`: each field's value is updated independently. Fields that alias through reflection (a pointer shared by two paths) are not modelled.
- `Logging`: the text formatting of `fmt.Sprintf` with `args` is left out; messages are taken as already formatted.
- `Logging`: defaultCallback's `log.New` output is left out. So is the panic or exit that Panic and Fatal cause in the default callback. The model returns the callback call instead of running it.
- `Confucius.Confucius.WalkEmbedDir`: the shared `found` map and `accumulator` pointer are threaded through as values in and out, which is the same state passed along.
- `Confucius.Confucius.InitExpectedConfigFiles` requires that the file name holds a `.` when there are profiles, because profileFileName panics (index out of range) otherwise. `Confucius.Confucius.FindFiles`, `FindEmbedFiles`, `FindLocalFiles`, `WalkEmbedDir` and `Locator.Locate` have the same requires for the same reason. `Load` and `LoadSpec` handle that case as the `NamePanic` outcome before the search starts.
- No option sets `useEmbedFS` or `embedFS`: option.go has none. The tests use an `EmbedFS(...)` option (confucius_test.go:168), which is not defined in option.go and is not modelled. These fields are only set when the loader is built with them.
- A path holding `=` is cut at it when read back, since decodeFiles takes `sections[1]`, the second piece of a split on `=` (`Naming.LocationPath`).
- An entry is checked for `#embed` and `#local` anywhere in its text, including its path (`Decoding.LocalEntryReadsPath` requires the path not to hold `#embed`).
- `replaceEnvironments`' default is the text between the first and second colon, not everything after the first colon (`Interpolation.ResolveUnset`).
- profileFileName takes `yaml`'s replacement from the second dot-separated part only, so a file name with more than one `.` loses its tail (`Naming.ProfileFileNameDropsTail`); the model keeps that behaviour as written.
- profileFileName's substitutions also rewrite inside the pieces substituted before, for example a stem holding `test`. `Naming.DefaultProfileFileName` requires that the pieces are free of the later patterns.
- The error for an unsupported decoder names the extension of the main file name, not the decoder (`Decoding.DecodeReaderDispatch`).
