/**
 * The "first found wins" bookkeeping shared by the local-directory search
 * (findLocalFiles) and the embedded-tree walk (walkEmbedDir): each candidate
 * file is a probe; a present probe whose logical name has not been found yet
 * contributes its location, marks the name found and drops it from the
 * expected list. The embedded walk stops at the first directory it cannot read.
 */
module Scan {
  import opened Outcomes
  import opened Naming
  import opened Paths
  import opened Text

  /** A candidate file: its logical name, whether it exists, and the location text it contributes. */
  datatype Probe = Probe(name: string, present: bool, location: string)

  /** What a search meets, in order: a candidate file, or a directory it cannot list. */
  datatype Event = Visit(probe: Probe) | Unreadable(path: string)

  /** The names found so far (the `found` map), the collected locations and the files still expected. */
  datatype ScanState = ScanState(found: set<string>, acc: seq<string>, expected: seq<string>)

  /** Where a search ended: its bookkeeping, and the directory it could not list, if any. */
  datatype Walk = Walk(state: ScanState, failure: Option<string>)

  /** The entries of `s` not in `drop`, in their order (removeFromExpectedList for one or more names). */
  function Without(s: seq<string>, drop: set<string>): seq<string>
    decreases |s|
  {
    if s == [] then []
    else Without(s[..|s| - 1], drop) + (if s[|s| - 1] in drop then [] else [s[|s| - 1]])
  }

  lemma {:induction false} WithoutMembers(s: seq<string>, drop: set<string>)
    ensures forall x :: x in Without(s, drop) <==> x in s && x !in drop
    ensures |Without(s, drop)| <= |s|
    decreases |s|
  {
    if s != [] {
      WithoutMembers(s[..|s| - 1], drop);
      assert s == s[..|s| - 1] + [s[|s| - 1]];
    }
  }

  lemma {:induction false} WithoutConcat(a: seq<string>, b: seq<string>, drop: set<string>)
    ensures Without(a + b, drop) == Without(a, drop) + Without(b, drop)
    decreases |b|
  {
    if b == [] {
      assert a + b == a;
    } else {
      var b' := b[..|b| - 1];
      WithoutConcat(a, b', drop);
      assert (a + b)[..|a + b| - 1] == a + b';
    }
  }

  /** Dropping in two rounds is dropping the union once. */
  lemma {:induction false} WithoutTwice(s: seq<string>, d1: set<string>, d2: set<string>)
    ensures Without(Without(s, d1), d2) == Without(s, d1 + d2)
    decreases |s|
  {
    if s != [] {
      var s' := s[..|s| - 1];
      var x := s[|s| - 1];
      WithoutTwice(s', d1, d2);
      var tail := if x in d1 then [] else [x];
      WithoutConcat(Without(s', d1), tail, d2);
      if x !in d1 {
        assert Without(tail, d2) == Without([], d2) + (if x in d2 then [] else [x]);
      }
    }
  }

  /** A list none of whose entries is dropped is kept whole. */
  lemma {:induction false} WithoutNothing(s: seq<string>, drop: set<string>)
    requires forall x :: x in s ==> x !in drop
    ensures Without(s, drop) == s
    decreases |s|
  {
    if s != [] {
      WithoutNothing(s[..|s| - 1], drop);
      assert s == s[..|s| - 1] + [s[|s| - 1]];
    }
  }

  /** One probe: a present file whose name is new is collected. */
  function Step(st: ScanState, p: Probe): ScanState {
    if p.present && p.name !in st.found then
      ScanState(st.found + {p.name}, st.acc + [p.location], Without(st.expected, {p.name}))
    else st
  }

  /** The events in order, stopping at the first unreadable directory. */
  function Run(events: seq<Event>, st: ScanState): Walk
    decreases |events|
  {
    if events == [] then Walk(st, None)
    else match events[0]
      case Unreadable(path) => Walk(st, Some(path))
      case Visit(p) => Run(events[1..], Step(st, p))
  }

  /** Running two lists of events is running the first and, unless it failed, the second from where it ended. */
  lemma {:induction false} RunConcat(a: seq<Event>, b: seq<Event>, st: ScanState)
    ensures Run(a + b, st) == (var w := Run(a, st); if w.failure.Some? then w else Run(b, w.state))
    decreases |a|
  {
    if a == [] {
      assert a + b == b;
    } else {
      assert (a + b)[0] == a[0];
      assert (a + b)[1..] == a[1..] + b;
      if a[0].Visit? {
        RunConcat(a[1..], b, Step(st, a[0].probe));
      }
    }
  }

  predicate AllVisits(events: seq<Event>) {
    forall i :: 0 <= i < |events| ==> events[i].Visit?
  }

  /** The index of the first unreadable directory, or the length when every directory was readable. */
  function FirstUnreadable(events: seq<Event>): (k: nat)
    ensures k <= |events| && AllVisits(events[..k])
    ensures k < |events| ==> events[k].Unreadable?
    decreases |events|
  {
    if events == [] then 0
    else if events[0].Unreadable? then 0
    else
      var k := FirstUnreadable(events[1..]);
      var pre := events[..k + 1];
      assert AllVisits(pre) by {
        forall i | 0 < i < |pre| ensures pre[i].Visit? {
          assert pre[i] == events[1..][..k][i - 1];
        }
      }
      k + 1
  }

  /**
   * A walk fails exactly when it meets an unreadable directory, naming the first
   * one, and keeps what the events before it collected.
   */
  lemma {:induction false} RunStops(events: seq<Event>, st: ScanState)
    ensures var k := FirstUnreadable(events);
            Run(events, st).failure == (if k < |events| then Some(events[k].path) else None)
            && Run(events, st).state == Run(events[..k], st).state
            && Run(events[..k], st).failure.None?
    decreases |events|
  {
    if events != [] && events[0].Visit? {
      var k := FirstUnreadable(events[1..]);
      RunStops(events[1..], Step(st, events[0].probe));
      assert events[..k + 1][1..] == events[1..][..k];
    }
  }

  /**
   * Probe `i` is the first present probe with its name, and that name was not
   * found before the run began.
   */
  predicate FirstPresent(events: seq<Event>, i: nat, found: set<string>)
    requires AllVisits(events)
  {
    i < |events| && events[i].probe.present && events[i].probe.name !in found
    && forall j :: 0 <= j < i && events[j].probe.present ==> events[j].probe.name != events[i].probe.name
  }

  /** The names of the present probes. */
  function PresentNames(events: seq<Event>): set<string>
    requires AllVisits(events)
  {
    set i | 0 <= i < |events| && events[i].probe.present :: events[i].probe.name
  }

  lemma {:induction false} FirstPresentShift(events: seq<Event>, i: nat, st: ScanState)
    requires AllVisits(events) && events != [] && i < |events| - 1
    ensures FirstPresent(events, i + 1, st.found)
            <==> FirstPresent(events[1..], i, Step(st, events[0].probe).found)
  {
    var p := events[0].probe;
    var q := events[i + 1].probe;
    assert events[1..][i].probe == q;
    if FirstPresent(events, i + 1, st.found) {
      forall j | 0 <= j < i && events[1..][j].probe.present ensures events[1..][j].probe.name != q.name {
        assert events[1..][j] == events[j + 1];
      }
    }
    if FirstPresent(events[1..], i, Step(st, p).found) {
      forall j | 0 <= j < i + 1 && events[j].probe.present ensures events[j].probe.name != q.name {
        if j > 0 {
          assert events[j] == events[1..][j - 1];
        }
      }
    }
  }

  lemma PresentNamesFront(events: seq<Event>)
    requires AllVisits(events) && events != []
    ensures PresentNames(events)
            == (if events[0].probe.present then {events[0].probe.name} else {}) + PresentNames(events[1..])
  {
    var tail := events[1..];
    forall x | x in PresentNames(events)
      ensures x in (if events[0].probe.present then {events[0].probe.name} else {}) + PresentNames(tail)
    {
      var i :| 0 <= i < |events| && events[i].probe.present && events[i].probe.name == x;
      if i > 0 {
        assert tail[i - 1] == events[i];
      }
    }
    forall x | x in PresentNames(tail) ensures x in PresentNames(events) {
      var i :| 0 <= i < |tail| && tail[i].probe.present && tail[i].probe.name == x;
      assert events[i + 1] == tail[i];
    }
  }

  /**
   * What a run of readable events finds and what it leaves expected: the
   * present names are all found, and exactly the newly found ones leave the
   * expected list, the rest of which keeps its order.
   */
  lemma {:induction false} RunFound(events: seq<Event>, st: ScanState)
    requires AllVisits(events)
    ensures Run(events, st).failure.None?
    ensures Run(events, st).state.found == st.found + PresentNames(events)
    ensures Run(events, st).state.expected == Without(st.expected, PresentNames(events) - st.found)
    decreases |events|
  {
    if events == [] {
      assert PresentNames(events) - st.found == {};
      WithoutNothing(st.expected, {});
    } else {
      var p := events[0].probe;
      var st' := Step(st, p);
      assert AllVisits(events[1..]) by {
        forall i | 0 <= i < |events[1..]| ensures events[1..][i].Visit? {
          assert events[1..][i] == events[i + 1];
        }
      }
      RunFound(events[1..], st');
      PresentNamesFront(events);
      var rest := PresentNames(events[1..]);
      if p.present && p.name !in st.found {
        WithoutTwice(st.expected, {p.name}, rest - st'.found);
        assert {p.name} + (rest - st'.found) == PresentNames(events) - st.found;
      } else {
        assert rest - st.found == PresentNames(events) - st.found;
      }
    }
  }

  /** The collected positions of the events after the first, moved up by one, are collected positions of all. */
  lemma {:induction false} ShiftHits(events: seq<Event>, st: ScanState, rest: seq<nat>) returns (shifted: seq<nat>)
    requires AllVisits(events) && events != [] && AllVisits(events[1..])
    requires TailHits(events, st, rest)
    ensures |shifted| == |rest| && (forall k :: 0 <= k < |rest| ==> shifted[k] == rest[k] + 1)
    ensures forall k :: 0 <= k < |rest| ==> rest[k] < |events| - 1
    ensures forall k :: 0 <= k < |shifted| ==> FirstPresent(events, shifted[k], st.found)
    ensures forall k, m :: 0 <= k < m < |shifted| ==> shifted[k] < shifted[m]
    ensures forall i: nat :: 0 < i && FirstPresent(events, i, st.found) ==> i in shifted
  {
    var tail := events[1..];
    shifted := seq(|rest|, k requires 0 <= k < |rest| => rest[k] + 1);
    forall k | 0 <= k < |rest| ensures FirstPresent(events, shifted[k], st.found) {
      FirstPresentShift(events, rest[k], st);
    }
    forall i: nat | 0 < i && FirstPresent(events, i, st.found) ensures i in shifted {
      FirstPresentShift(events, i - 1, st);
      var k :| 0 <= k < |rest| && rest[k] == i - 1;
      assert shifted[k] == i;
    }
  }

  /** The first event is collected exactly when its file is present and its name new. */
  lemma FirstPresentFront(events: seq<Event>, found: set<string>)
    requires AllVisits(events) && events != []
    ensures FirstPresent(events, 0, found) <==> events[0].probe.present && events[0].probe.name !in found
  {
  }

  /** The locations of the probes at positions `idx`, in that order. */
  function LocationsAt(events: seq<Event>, idx: seq<nat>): (r: seq<string>)
    requires AllVisits(events) && forall k :: 0 <= k < |idx| ==> idx[k] < |events|
    ensures |r| == |idx|
  {
    seq(|idx|, k requires 0 <= k < |idx| => events[idx[k]].probe.location)
  }

  lemma LocationsShift(events: seq<Event>, rest: seq<nat>, shifted: seq<nat>)
    requires AllVisits(events) && events != [] && AllVisits(events[1..])
    requires forall k :: 0 <= k < |rest| ==> rest[k] < |events| - 1
    requires |shifted| == |rest| && forall k :: 0 <= k < |rest| ==> shifted[k] == rest[k] + 1
    ensures LocationsAt(events, shifted) == LocationsAt(events[1..], rest)
    ensures LocationsAt(events, [0] + shifted) == [events[0].probe.location] + LocationsAt(events[1..], rest)
  {
    var idx := [0] + shifted;
    forall k | 0 <= k < |rest| ensures events[shifted[k]] == events[1..][rest[k]] {
    }
    assert LocationsAt(events, idx)[1..] == LocationsAt(events, shifted);
  }

  /** When the first event is collected, its position goes in front of the others'. */
  lemma FrontHit(events: seq<Event>, found: set<string>, shifted: seq<nat>)
    requires AllVisits(events) && events != [] && FirstPresent(events, 0, found)
    requires forall k :: 0 <= k < |shifted| ==> 0 < shifted[k] && FirstPresent(events, shifted[k], found)
    requires forall k, m :: 0 <= k < m < |shifted| ==> shifted[k] < shifted[m]
    requires forall i: nat :: 0 < i && FirstPresent(events, i, found) ==> i in shifted
    ensures var idx := [0] + shifted;
            (forall k :: 0 <= k < |idx| ==> idx[k] < |events| && FirstPresent(events, idx[k], found))
            && (forall k, m :: 0 <= k < m < |idx| ==> idx[k] < idx[m])
            && (forall i :: FirstPresent(events, i, found) ==> i in idx)
  {
    var idx := [0] + shifted;
    assert forall k :: 0 < k < |idx| ==> idx[k] == shifted[k - 1];
  }

  /** When the first event is not collected, the others' positions are all. */
  lemma NoFrontHit(events: seq<Event>, found: set<string>, shifted: seq<nat>)
    requires AllVisits(events) && events != [] && !FirstPresent(events, 0, found)
    requires forall k :: 0 <= k < |shifted| ==> FirstPresent(events, shifted[k], found)
    requires forall i: nat :: 0 < i && FirstPresent(events, i, found) ==> i in shifted
    ensures forall k :: 0 <= k < |shifted| ==> shifted[k] < |events|
    ensures forall i :: FirstPresent(events, i, found) ==> i in shifted
  {
  }

  /** What the events after the first collected, in the terms of all events. */
  ghost predicate TailHits(events: seq<Event>, st: ScanState, rest: seq<nat>)
    requires AllVisits(events) && events != [] && AllVisits(events[1..])
  {
    var st' := Step(st, events[0].probe);
    (forall k :: 0 <= k < |rest| ==> FirstPresent(events[1..], rest[k], st'.found))
    && (forall k, m :: 0 <= k < m < |rest| ==> rest[k] < rest[m])
    && (forall i :: FirstPresent(events[1..], i, st'.found) ==> i in rest)
  }

  /** The collected positions of all events when the first event is collected. */
  lemma ConsHitsNew(events: seq<Event>, st: ScanState, rest: seq<nat>) returns (idx: seq<nat>)
    requires AllVisits(events) && events != [] && AllVisits(events[1..])
    requires events[0].probe.present && events[0].probe.name !in st.found
    requires TailHits(events, st, rest)
    ensures forall k :: 0 <= k < |idx| ==> idx[k] < |events| && FirstPresent(events, idx[k], st.found)
    ensures forall k, m :: 0 <= k < m < |idx| ==> idx[k] < idx[m]
    ensures forall i :: FirstPresent(events, i, st.found) ==> i in idx
    ensures st.acc + LocationsAt(events, idx)
            == Step(st, events[0].probe).acc + LocationsAt(events[1..], rest)
  {
    var shifted := ShiftHits(events, st, rest);
    idx := [0] + shifted;
    assert FirstPresent(events, 0, st.found) by {
      FirstPresentFront(events, st.found);
    }
    FrontHit(events, st.found, shifted);
    assert st.acc + LocationsAt(events, idx) == Step(st, events[0].probe).acc + LocationsAt(events[1..], rest) by {
      FrontLocations(events, st, rest, shifted);
    }
  }

  /** The locations collected when the first event is: its own, then the tail's. */
  lemma FrontLocations(events: seq<Event>, st: ScanState, rest: seq<nat>, shifted: seq<nat>)
    requires AllVisits(events) && events != [] && AllVisits(events[1..])
    requires events[0].probe.present && events[0].probe.name !in st.found
    requires forall k :: 0 <= k < |rest| ==> rest[k] < |events| - 1
    requires |shifted| == |rest| && forall k :: 0 <= k < |rest| ==> shifted[k] == rest[k] + 1
    ensures st.acc + LocationsAt(events, [0] + shifted)
            == Step(st, events[0].probe).acc + LocationsAt(events[1..], rest)
  {
    LocationsShift(events, rest, shifted);
    var l := LocationsAt(events[1..], rest);
    ConcatAssoc(st.acc, [events[0].probe.location], l);
  }

  /** The collected positions of all events when the first event is not collected. */
  lemma ConsHitsOld(events: seq<Event>, st: ScanState, rest: seq<nat>) returns (idx: seq<nat>)
    requires AllVisits(events) && events != [] && AllVisits(events[1..])
    requires !(events[0].probe.present && events[0].probe.name !in st.found)
    requires TailHits(events, st, rest)
    ensures forall k :: 0 <= k < |idx| ==> idx[k] < |events| && FirstPresent(events, idx[k], st.found)
    ensures forall k, m :: 0 <= k < m < |idx| ==> idx[k] < idx[m]
    ensures forall i :: FirstPresent(events, i, st.found) ==> i in idx
    ensures st.acc + LocationsAt(events, idx)
            == Step(st, events[0].probe).acc + LocationsAt(events[1..], rest)
  {
    var shifted := ShiftHits(events, st, rest);
    LocationsShift(events, rest, shifted);
    FirstPresentFront(events, st.found);
    NoFrontHit(events, st.found, shifted);
    idx := shifted;
  }

  /**
   * What a run of readable events collects: after what was already
   * collected, the locations of exactly the first present probe of each new
   * name, in event order. `idx` lists those probes' positions.
   */
  lemma {:induction false} RunHits(events: seq<Event>, st: ScanState) returns (idx: seq<nat>)
    requires AllVisits(events)
    ensures forall k :: 0 <= k < |idx| ==> idx[k] < |events| && FirstPresent(events, idx[k], st.found)
    ensures forall k, m :: 0 <= k < m < |idx| ==> idx[k] < idx[m]
    ensures forall i :: FirstPresent(events, i, st.found) ==> i in idx
    ensures Run(events, st).state.acc == st.acc + LocationsAt(events, idx)
    decreases |events|
  {
    if events == [] {
      idx := [];
    } else {
      var tail := events[1..];
      assert AllVisits(tail) by {
        forall i | 0 <= i < |tail| ensures tail[i].Visit? {
          assert tail[i] == events[i + 1];
        }
      }
      var st' := Step(st, events[0].probe);
      assert Run(events, st) == Run(tail, st');
      var rest := RunHits(tail, st');
      if events[0].probe.present && events[0].probe.name !in st.found {
        idx := ConsHitsNew(events, st, rest);
      } else {
        idx := ConsHitsOld(events, st, rest);
      }
    }
  }

  /** No logical name is collected twice: two collected probes have different names. */
  lemma FirstPresentUnique(events: seq<Event>, i: nat, j: nat, found: set<string>)
    requires AllVisits(events)
    requires FirstPresent(events, i, found) && FirstPresent(events, j, found) && i < j
    ensures events[i].probe.name != events[j].probe.name
  {
  }

  // ---- The embedded tree -------------------------------------------------

  /** An entry of an embedded directory: a file, or a directory with its own listing. */
  datatype Entry = File(name: string) | Dir(name: string, listing: Listing)

  /**
   * A directory listing as ReadDir returns it (after walkEmbedDir's sort):
   * `readable` is false when ReadDir fails.
   */
  datatype Listing = Listing(readable: bool, entries: seq<Entry>)

  /** A file met by the walk in directory `path`: present when its name is expected, tagged by FileTag. */
  function EmbedProbe(n: Names, path: string, name: string): Probe
    requires Nameable(n)
  {
    var tag := FileTag(n, name);
    Probe(name, tag != "", Location(EmbedLocationIndicator, tag, path + "/" + name))
  }

  /** The walk of a listing, depth first in listing order. */
  function ListingEvents(n: Names, path: string, l: Listing): seq<Event>
    requires Nameable(n)
    decreases l
  {
    if !l.readable then [Unreadable(path)] else EntriesEvents(n, path, l.entries)
  }

  function EntriesEvents(n: Names, path: string, es: seq<Entry>): seq<Event>
    requires Nameable(n)
    decreases es
  {
    if es == [] then [] else EntriesEvents(n, path, es[..|es| - 1]) + EntryEvents(n, path, es[|es| - 1])
  }

  function EntryEvents(n: Names, path: string, e: Entry): seq<Event>
    requires Nameable(n)
    decreases e
  {
    match e
    case File(name) => [Visit(EmbedProbe(n, path, name))]
    case Dir(name, l) => ListingEvents(n, JoinPath(path, name), l)
  }

  // ---- The local directories ---------------------------------------------

  /** The main file in directory `dir`. */
  function MainProbe(n: Names, disk: set<string>, dir: string): Probe {
    var path := JoinPath(dir, n.filename);
    Probe(n.filename, path in disk, Location(LocalLocationIndicator, MainFileIndicator, path))
  }

  /** The file of profile `idx` in directory `dir`. */
  function ProfileProbe(n: Names, disk: set<string>, dir: string, idx: nat): Probe
    requires Nameable(n) && idx < |n.profiles|
  {
    var name := ProfileFileName(n, n.profiles[idx]);
    var path := JoinPath(dir, name);
    Probe(name, path in disk, Location(LocalLocationIndicator, ProfileTag(idx, n.profiles[idx]), path))
  }

  /**
   * A directory given as `./d` is cleaned in the candidate: the file looked
   * up and the path in its entry are `d/<file>`.
   */
  lemma MainProbeCleansDir(n: Names, disk: set<string>, d: string)
    requires Plain(d) && Plain(n.filename)
    ensures MainProbe(n, disk, "./" + d)
              == Probe(n.filename, d + "/" + n.filename in disk,
                       Location(LocalLocationIndicator, MainFileIndicator, d + "/" + n.filename))
  {
    JoinPathCurrentDir(d, n.filename);
  }

  /** The candidates of one directory: the main file, then each profile's file in profile order. */
  function DirEvents(n: Names, disk: set<string>, dir: string): (r: seq<Event>)
    requires Nameable(n)
    ensures |r| == |n.profiles| + 1 && AllVisits(r)
  {
    [Visit(MainProbe(n, disk, dir))]
      + seq(|n.profiles|, i requires 0 <= i < |n.profiles| => Visit(ProfileProbe(n, disk, dir, i)))
  }

  /** The candidates of all directories, directory by directory in the given order. */
  function LocalEvents(n: Names, disk: set<string>, dirs: seq<string>): seq<Event>
    requires Nameable(n)
    decreases |dirs|
  {
    if dirs == [] then []
    else LocalEvents(n, disk, dirs[..|dirs| - 1]) + DirEvents(n, disk, dirs[|dirs| - 1])
  }

  /** Each directory contributes 1 + |profiles| candidates, all of them files. */
  lemma {:induction false} LocalEventsVisits(n: Names, disk: set<string>, dirs: seq<string>)
    requires Nameable(n)
    ensures AllVisits(LocalEvents(n, disk, dirs))
    ensures |LocalEvents(n, disk, dirs)| == |dirs| * (|n.profiles| + 1)
    decreases |dirs|
  {
    if dirs != [] {
      var init := dirs[..|dirs| - 1];
      LocalEventsVisits(n, disk, init);
      var k := |n.profiles| + 1;
      var de := DirEvents(n, disk, dirs[|dirs| - 1]);
      assert LocalEvents(n, disk, dirs) == LocalEvents(n, disk, init) + de;
      assert |de| == k && AllVisits(de);
      assert |dirs| == |init| + 1;
      MulSucc(|init|, k);
    }
  }

  lemma MulSucc(a: nat, k: nat)
    ensures (a + 1) * k == a * k + k
  {
  }

  // ---- Shape of the collected entries -------------------------------------

  /** Running one more candidate after some events. */
  lemma RunSnoc(events: seq<Event>, p: Probe, st: ScanState)
    ensures Run(events + [Visit(p)], st) ==
      (var w := Run(events, st); if w.failure.Some? then w else Walk(Step(w.state, p), None))
  {
    RunConcat(events, [Visit(p)], st);
    assert [Visit(p)][1..] == [];
  }

  /** Every candidate's location holds a '=' (so its path can be read back). */
  predicate Located(events: seq<Event>) {
    forall i :: 0 <= i < |events| && events[i].Visit? ==> '=' in events[i].probe.location
  }

  lemma LocationHasEquals(origin: string, tag: string, path: string)
    ensures '=' in Location(origin, tag, path)
  {
    assert Location(origin, tag, path)[|origin| + 1 + |tag|] == '=';
  }

  lemma LocatedConcat(a: seq<Event>, b: seq<Event>)
    requires Located(a) && Located(b)
    ensures Located(a + b)
  {
    assert forall i :: 0 <= i < |a + b| ==> (a + b)[i] == if i < |a| then a[i] else b[i - |a|];
  }

  /** A run over located candidates only adds entries holding '='. */
  lemma {:induction false} RunLocated(events: seq<Event>, st: ScanState)
    requires Located(events) && forall k :: 0 <= k < |st.acc| ==> '=' in st.acc[k]
    ensures forall k :: 0 <= k < |Run(events, st).state.acc| ==> '=' in Run(events, st).state.acc[k]
    decreases |events|
  {
    if events != [] && events[0].Visit? {
      assert forall i :: 0 <= i < |events[1..]| ==> events[1..][i] == events[i + 1];
      RunLocated(events[1..], Step(st, events[0].probe));
    }
  }

  lemma {:induction false} ListingLocated(n: Names, path: string, l: Listing)
    requires Nameable(n)
    ensures Located(ListingEvents(n, path, l))
    decreases l
  {
    if l.readable {
      EntriesLocated(n, path, l.entries);
    }
  }

  lemma {:induction false} EntriesLocated(n: Names, path: string, es: seq<Entry>)
    requires Nameable(n)
    ensures Located(EntriesEvents(n, path, es))
    decreases es
  {
    if es != [] {
      EntriesLocated(n, path, es[..|es| - 1]);
      EntryLocated(n, path, es[|es| - 1]);
      LocatedConcat(EntriesEvents(n, path, es[..|es| - 1]), EntryEvents(n, path, es[|es| - 1]));
    }
  }

  lemma {:induction false} EntryLocated(n: Names, path: string, e: Entry)
    requires Nameable(n)
    ensures Located(EntryEvents(n, path, e))
    decreases e
  {
    match e {
      case File(name) =>
        LocationHasEquals(EmbedLocationIndicator, FileTag(n, name), path + "/" + name);
      case Dir(name, l) => ListingLocated(n, JoinPath(path, name), l);
    }
  }

  lemma {:induction false} LocalLocated(n: Names, disk: set<string>, dirs: seq<string>)
    requires Nameable(n)
    ensures Located(LocalEvents(n, disk, dirs))
    decreases |dirs|
  {
    if dirs != [] {
      var dir := dirs[|dirs| - 1];
      LocalLocated(n, disk, dirs[..|dirs| - 1]);
      var de := DirEvents(n, disk, dir);
      LocationHasEquals(LocalLocationIndicator, MainFileIndicator, JoinPath(dir, n.filename));
      forall i | 0 < i < |de| ensures '=' in de[i].probe.location {
        var name := ProfileFileName(n, n.profiles[i - 1]);
        LocationHasEquals(LocalLocationIndicator, ProfileTag(i - 1, n.profiles[i - 1]), JoinPath(dir, name));
      }
      LocatedConcat(LocalEvents(n, disk, dirs[..|dirs| - 1]), de);
    }
  }

  /** The walk of the entries is the walk of all but the last, then the last. */
  lemma EntriesEventsSnoc(n: Names, path: string, es: seq<Entry>)
    requires Nameable(n) && es != []
    ensures EntriesEvents(n, path, es) == EntriesEvents(n, path, es[..|es| - 1]) + EntryEvents(n, path, es[|es| - 1])
  {
  }

  /** The slices of a list without its last element, against those of the list. */
  lemma SlicesOfInit<T>(s: seq<T>, k: nat)
    requires k < |s|
    ensures s[..|s| - 1][..k] == s[..k]
    ensures s[k..][..|s[k..]| - 1] == s[..|s| - 1][k..]
    ensures s[k..][|s[k..]| - 1] == s[|s| - 1]
  {
  }

  /** The walk of the first `k` entries followed by the walk of the rest is the walk of all. */
  lemma {:induction false} EntriesEventsSplit(n: Names, path: string, es: seq<Entry>, k: nat)
    requires Nameable(n) && k <= |es|
    ensures EntriesEvents(n, path, es) == EntriesEvents(n, path, es[..k]) + EntriesEvents(n, path, es[k..])
    decreases |es|
  {
    if k == |es| {
      assert es[..k] == es;
      assert es[k..] == [];
    } else {
      var init := es[..|es| - 1];
      var tail := es[k..];
      EntriesEventsSplit(n, path, init, k);
      EntriesEventsSnoc(n, path, es);
      EntriesEventsSnoc(n, path, tail);
      SlicesOfInit(es, k);
      ConcatAssoc(EntriesEvents(n, path, es[..k]), EntriesEvents(n, path, init[k..]), EntryEvents(n, path, es[|es| - 1]));
    }
  }
}
