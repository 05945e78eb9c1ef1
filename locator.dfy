/**
 * findFiles as a function of the settings and of the set of existing
 * local paths: the embedded walk (when enabled), then the local search with
 * its own found set, then the "not found" check and the sort.
 */
module Locator {
  import opened Outcomes
  import opened Text
  import opened Sorting
  import opened Naming
  import opened Paths
  import opened Scan
  import opened Options
  import opened Numbers

  datatype LocateError =
    | Unreadable(path: string)
    | NotFound(missing: seq<string>)

  /** The files found (sorted), the error, and the expected list left in the loader. */
  datatype Search = Search(files: seq<string>, error: Option<LocateError>, expected: seq<string>)

  /** The candidates of the embedded walk; none when the embedded file system is not in use. */
  function EmbedEvents(s: Settings): seq<Event>
    requires Nameable(s.Names())
  {
    if s.useEmbedFS then ListingEvents(s.Names(), ".", s.embedFS.root) else []
  }

  /** The expected list findFiles starts from, and its empty bookkeeping. */
  function Start(s: Settings): ScanState
    requires Nameable(s.Names())
  {
    ScanState({}, [], ExpectedFiles(s.Names()))
  }

  /** The local search: a fresh found set, the expected list the embedded walk left. */
  function LocalRun(s: Settings, disk: set<string>, after: ScanState): ScanState
    requires Nameable(s.Names())
  {
    Run(LocalEvents(s.Names(), disk, s.dirs), ScanState({}, [], after.expected)).state
  }

  /** What both searches collected, embedded entries first. */
  function Collected(s: Settings, disk: set<string>): seq<string>
    requires Nameable(s.Names())
  {
    var embed := Run(EmbedEvents(s), Start(s));
    embed.state.acc + LocalRun(s, disk, embed.state).acc
  }

  /** findFiles. */
  function Locate(s: Settings, disk: set<string>): (r: Search)
    requires Nameable(s.Names())
    ensures forall i :: 0 <= i < |r.files| ==> '=' in r.files[i]
    ensures r.error.None? ==> r.expected == []
  {
    var embed := Run(EmbedEvents(s), Start(s));
    if embed.failure.Some? then Search([], Some(LocateError.Unreadable(embed.failure.value)), embed.state.expected)
    else
      var local := LocalRun(s, disk, embed.state);
      if local.expected != [] then Search([], Some(NotFound(local.expected)), local.expected)
      else
        CollectedLocated(s, disk);
        SortedLocated(Collected(s, disk));
        Search(Sort(Collected(s, disk)), None, [])
  }

  lemma CollectedLocated(s: Settings, disk: set<string>)
    requires Nameable(s.Names())
    ensures forall k :: 0 <= k < |Collected(s, disk)| ==> '=' in Collected(s, disk)[k]
  {
    var n := s.Names();
    if s.useEmbedFS {
      ListingLocated(n, ".", s.embedFS.root);
    }
    RunLocated(EmbedEvents(s), Start(s));
    var embed := Run(EmbedEvents(s), Start(s));
    LocalLocated(n, disk, s.dirs);
    RunLocated(LocalEvents(n, disk, s.dirs), ScanState({}, [], embed.state.expected));
    var a := embed.state.acc;
    var b := LocalRun(s, disk, embed.state).acc;
    AllHoldEquals(a, b);
  }

  lemma AllHoldEquals(a: seq<string>, b: seq<string>)
    requires forall k :: 0 <= k < |a| ==> '=' in a[k]
    requires forall k :: 0 <= k < |b| ==> '=' in b[k]
    ensures forall k :: 0 <= k < |a + b| ==> '=' in (a + b)[k]
  {
    assert forall k :: 0 <= k < |a + b| ==> (a + b)[k] == if k < |a| then a[k] else b[k - |a|];
  }

  lemma SortedLocated(result: seq<string>)
    requires forall k :: 0 <= k < |result| ==> '=' in result[k]
    ensures forall i :: 0 <= i < |Sort(result)| ==> '=' in Sort(result)[i]
  {
    forall i | 0 <= i < |Sort(result)| ensures '=' in Sort(result)[i] {
      assert Sort(result)[i] in multiset(Sort(result));
      assert Sort(result)[i] in multiset(result);
    }
  }

  /** The names found by a scan: those of the present candidates. */
  function FoundNames(s: Settings, disk: set<string>): set<string>
    requires Nameable(s.Names()) && AllVisits(EmbedEvents(s))
  {
    LocalEventsVisits(s.Names(), disk, s.dirs);
    PresentNames(EmbedEvents(s)) + PresentNames(LocalEvents(s.Names(), disk, s.dirs))
  }

  /**
   * When every embedded directory can be read, findFiles fails exactly when
   * some expected file is found neither in the embedded tree nor on disk,
   * and the error lists exactly those files, in expected order.
   */
  lemma LocateNotFound(s: Settings, disk: set<string>)
    requires Nameable(s.Names()) && AllVisits(EmbedEvents(s))
    ensures Locate(s, disk).error.Some? <==>
      exists x :: x in ExpectedFiles(s.Names()) && x !in FoundNames(s, disk)
    ensures Locate(s, disk).error.Some? ==>
      Locate(s, disk).error == Some(NotFound(Without(ExpectedFiles(s.Names()), FoundNames(s, disk))))
  {
    var n := s.Names();
    RunFound(EmbedEvents(s), Start(s));
    var embed := Run(EmbedEvents(s), Start(s));
    LocalEventsVisits(n, disk, s.dirs);
    var local := LocalEvents(n, disk, s.dirs);
    RunFound(local, ScanState({}, [], embed.state.expected));
    assert PresentNames(local) - {} == PresentNames(local);
    assert PresentNames(EmbedEvents(s)) - {} == PresentNames(EmbedEvents(s));
    WithoutTwice(ExpectedFiles(n), PresentNames(EmbedEvents(s)), PresentNames(local));
    var missing := Without(ExpectedFiles(n), FoundNames(s, disk));
    assert LocalRun(s, disk, embed.state).expected == missing;
    WithoutMembers(ExpectedFiles(n), FoundNames(s, disk));
    if missing != [] {
      assert missing[0] in missing;
    }
  }

  /** A directory of the embedded tree that cannot be read fails findFiles with its path, and nothing is returned. */
  lemma LocateUnreadable(s: Settings, disk: set<string>)
    requires Nameable(s.Names()) && !AllVisits(EmbedEvents(s))
    ensures var k := FirstUnreadable(EmbedEvents(s));
      k < |EmbedEvents(s)| &&
      Locate(s, disk) == Search([], Some(LocateError.Unreadable(EmbedEvents(s)[k].path)), Locate(s, disk).expected)
  {
    var events := EmbedEvents(s);
    var k := FirstUnreadable(events);
    RunStops(events, Start(s));
    assert events[..|events|] == events;
  }

  /** On success the files are sorted and are exactly the embedded entries and the local entries. */
  lemma LocateSuccess(s: Settings, disk: set<string>)
    requires Nameable(s.Names())
    ensures var r := Locate(s, disk);
      r.error.None? ==>
        var embed := Run(EmbedEvents(s), Start(s));
        && embed.failure.None?
        && Sorted(r.files)
        && multiset(r.files) == multiset(Collected(s, disk))
  {
  }

  /** Every `#embed` entry sorts before every `#local` entry. */
  lemma EmbedBeforeLocal(t1: string, p1: string, t2: string, p2: string)
    ensures Below(Location(EmbedLocationIndicator, t1, p1), Location(LocalLocationIndicator, t2, p2))
  {
    var a := Location(EmbedLocationIndicator, t1, p1);
    var b := Location(LocalLocationIndicator, t2, p2);
    assert a[..1] == "#" == b[..1];
    assert a[1] == 'e' && b[1] == 'l';
    BelowAtDifference(a, b, 1);
  }

  /** From the same origin, the main file's entry sorts before any profile entry. */
  lemma MainBeforeProfile(origin: string, p1: string, idx: nat, profile: string, p2: string)
    ensures Below(Location(origin, MainFileIndicator, p1), Location(origin, ProfileTag(idx, profile), p2))
  {
    var a := Location(origin, MainFileIndicator, p1);
    var b := Location(origin, ProfileTag(idx, profile), p2);
    var k := |origin| + 2;
    assert a[..k] == origin + ":#" == b[..k];
    assert a[k] == 'm' && b[k] == 'p';
    BelowAtDifference(a, b, k);
  }

  /** Strings that share a head and then differ in the first or second character after it. */
  lemma BelowAfterHead(h: string, c1: char, c2: char, r1: string, d1: char, d2: char, r2: string)
    requires c1 < d1 || (c1 == d1 && c2 < d2)
    ensures Below(h + ([c1, c2] + r1), h + ([d1, d2] + r2))
  {
    var a := h + ([c1, c2] + r1);
    var b := h + ([d1, d2] + r2);
    var k := |h|;
    assert a[..k] == h == b[..k];
    if c1 < d1 {
      BelowAtDifference(a, b, k);
    } else {
      assert a[..k + 1] == h + [c1] == b[..k + 1];
      BelowAtDifference(a, b, k + 1);
    }
  }

  /** A profile entry's text: a common head, the two index digits, then the rest. */
  lemma ProfileLocationShape(origin: string, i: nat, p: string, x: string)
    requires i < 100
    ensures Location(origin, ProfileTag(i, p), x)
      == (origin + ":#profile_") + ([DigitChar(i / 10), DigitChar(i % 10)] + ("_" + p + "=" + x))
  {
    Pad2Digits(i);
  }

  /** From the same origin, profile entries (indices below 100) sort by profile index. */
  lemma ProfilesByIndex(origin: string, i: nat, pi: string, x: string, j: nat, pj: string, y: string)
    requires i < j < 100
    ensures Below(Location(origin, ProfileTag(i, pi), x), Location(origin, ProfileTag(j, pj), y))
  {
    ProfileLocationShape(origin, i, pi, x);
    ProfileLocationShape(origin, j, pj, y);
    BelowAfterHead(origin + ":#profile_", DigitChar(i / 10), DigitChar(i % 10), "_" + pi + "=" + x,
                   DigitChar(j / 10), DigitChar(j % 10), "_" + pj + "=" + y);
  }

  /** In a sorted list of found files, `#embed` entries stand before `#local` ones. */
  lemma SortedEmbedFirst(files: seq<string>, i: nat, j: nat, t1: string, p1: string, t2: string, p2: string)
    requires Sorted(files) && i < |files| && j < |files|
    requires files[i] == Location(EmbedLocationIndicator, t1, p1) && files[j] == Location(LocalLocationIndicator, t2, p2)
    ensures i < j
  {
    EmbedBeforeLocal(t1, p1, t2, p2);
    SortedPlacesBelowFirst(files, i, j);
  }

  /**
   * The local search does not skip names the embedded walk found: with the
   * main file both embedded at the root and on disk, both entries are returned.
   */
  lemma EmbeddedAndLocalBothReturned(s: Settings, disk: set<string>, dir: string)
    requires s.useEmbedFS && s.profiles == [] && s.dirs == [dir]
    requires s.embedFS.root == Listing(true, [Entry.File(s.filename)])
    requires JoinPath(dir, s.filename) in disk
    ensures Locate(s, disk) == Search(
      Sort([Location(EmbedLocationIndicator, MainFileIndicator, "./" + s.filename),
            Location(LocalLocationIndicator, MainFileIndicator, JoinPath(dir, s.filename))]),
      None, [])
  {
    var f := s.filename;
    var embedLoc := Location(EmbedLocationIndicator, MainFileIndicator, "./" + f);
    var localLoc := Location(LocalLocationIndicator, MainFileIndicator, JoinPath(dir, f));
    var embed := Run(EmbedEvents(s), Start(s));
    assert embed == Walk(ScanState({f}, [embedLoc], []), None) by {
      SingleEmbeddedMain(s);
    }
    assert LocalRun(s, disk, embed.state) == ScanState({f}, [localLoc], []) by {
      SingleLocalMain(s, disk, dir);
    }
    assert Collected(s, disk) == [embedLoc, localLoc];
  }

  /** The embedded walk of a root holding only the main file collects it. */
  lemma SingleEmbeddedMain(s: Settings)
    requires s.useEmbedFS && s.profiles == []
    requires s.embedFS.root == Listing(true, [Entry.File(s.filename)])
    ensures Run(EmbedEvents(s), Start(s))
            == Walk(ScanState({s.filename}, [Location(EmbedLocationIndicator, MainFileIndicator, "./" + s.filename)], []), None)
  {
    var n := s.Names();
    var f := s.filename;
    assert ProfileFileNames(n) == [];
    assert ExpectedFiles(n) == [f];
    var es := s.embedFS.root.entries;
    assert es[..|es| - 1] == [];
    assert FileTag(n, f) == MainFileIndicator;
    var embedLoc := Location(EmbedLocationIndicator, MainFileIndicator, "." + "/" + f);
    assert "." + "/" + f == "./" + f;
    assert EntryEvents(n, ".", es[0]) == [Visit(Probe(f, true, embedLoc))];
    assert EntriesEvents(n, ".", es[..|es| - 1]) == [];
    assert EntriesEvents(n, ".", es) == [Visit(Probe(f, true, embedLoc))];
    assert EmbedEvents(s) == [Visit(Probe(f, true, embedLoc))];
    RunSnoc([], Probe(f, true, embedLoc), Start(s));
    assert Without([f], {f}) == [];
  }

  /** The local search of one directory holding the main file collects it, whatever was found before. */
  lemma SingleLocalMain(s: Settings, disk: set<string>, dir: string)
    requires s.profiles == [] && s.dirs == [dir]
    requires JoinPath(dir, s.filename) in disk
    ensures forall after: ScanState :: after.expected == [] ==>
      LocalRun(s, disk, after)
        == ScanState({s.filename}, [Location(LocalLocationIndicator, MainFileIndicator, JoinPath(dir, s.filename))], [])
  {
    var n := s.Names();
    var f := s.filename;
    assert ProfileFileNames(n) == [];
    var dirs := s.dirs;
    assert dirs[..|dirs| - 1] == [];
    var localLoc := Location(LocalLocationIndicator, MainFileIndicator, JoinPath(dir, f));
    assert MainProbe(n, disk, dir) == Probe(f, true, localLoc);
    assert DirEvents(n, disk, dir) == [Visit(Probe(f, true, localLoc))];
    assert LocalEvents(n, disk, dirs) == [Visit(Probe(f, true, localLoc))];
    assert Without([], {f}) == [];
    RunSnoc([], Probe(f, true, localLoc), ScanState({}, [], []));
  }
}
