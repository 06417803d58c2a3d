/**
 * `filter_repeated`: the planning pass over the scan. Each entry is looked
 * up by its digest; a new digest records the entry as its representative
 * (never replaced afterwards) and places the file; a known digest drops the
 * entry in full-hash mode, and in fast-hash mode drops it only when the full
 * digests of the entry and of the representative agree.
 */
module Planner {
  import opened Types
  import opened Oracles
  import opened RustPath
  import opened Digest
  import opened Placement

  /** One element of `ScanData`: a path and the digest the scan computed. */
  datatype ScanEntry = ScanEntry(path: string, hash: Hash)
  type ScanData = seq<ScanEntry>

  /** The accumulators of `filter_repeated`. */
  datatype PlanState = PlanState(hm: map<Hash, string>, outpaths: set<string>, clist: CopyList)

  /** Placement of a kept file: `make_outpath`, then `checked_add_to_copylist`. */
  function Place(env: Env, opts: Options, st: PlanState, src: string): (r: Result<PlanState>)
    ensures r.Success? <==> OutPath(env, opts, src).Success?
    ensures r.Failure? ==> r.error == OutPath(env, opts, src).error
  {
    match OutPath(env, opts, src)
    case Failure(e) => Failure(e)
    case Success(pdst) =>
      Success(st.(
        outpaths := if pdst in st.outpaths then st.outpaths else st.outpaths + {pdst},
        clist := st.clist + [(src, Destination(st.outpaths, pdst))]))
  }

  /**
   * One iteration of the loop of `filter_repeated`: a step that does not
   * abort leaves the entry's digest known; in full-hash mode a known digest
   * changes nothing.
   */
  function Step(env: Env, opts: Options, st: PlanState, e: ScanEntry): (r: Result<PlanState>)
    ensures r.Success? ==> e.hash in r.value.hm
    ensures e.hash in st.hm && !opts.fastHash ==> r == Success(st)
  {
    if e.hash in st.hm then
      if !opts.fastHash then Success(st)
      else
        match DigestOf(env, st.hm[e.hash], false)
        case Failure(err) => Failure(err)
        case Success(fullOld) =>
          match DigestOf(env, e.path, false)
          case Failure(err) => Failure(err)
          case Success(fullNew) =>
            if fullNew == fullOld then Success(st) else Place(env, opts, st, e.path)
    else
      Place(env, opts, st.(hm := st.hm[e.hash := e.path]), e.path)
  }

  /**
   * The loop run over a whole scan; the first panic aborts it, so an empty
   * scan never aborts.
   */
  function Run(env: Env, opts: Options, scan: ScanData): (r: Result<PlanState>)
    ensures r.Failure? ==> |scan| > 0
    decreases |scan|
  {
    if scan == [] then Success(PlanState(map[], {}, []))
    else
      match Run(env, opts, scan[..|scan| - 1])
      case Failure(e) => Failure(e)
      case Success(st) => Step(env, opts, st, scan[|scan| - 1])
  }

  /**
   * A placement records the candidate (whether or not it was taken, as a
   * set) and appends one pair; the representative map is untouched.
   */
  lemma PlaceEffect(env: Env, opts: Options, st: PlanState, src: string)
    requires Place(env, opts, st, src).Success?
    ensures var r := Place(env, opts, st, src).value;
      var pdst := OutPath(env, opts, src).value;
      && r.hm == st.hm
      && r.outpaths == st.outpaths + {pdst}
      && r.clist == st.clist + [(src, Destination(st.outpaths, pdst))]
  {
  }

  /**
   * A step that does not abort keeps every representative, adds the entry's
   * digest and nothing else to the map's keys, appends at most one pair, and
   * forgets no recorded path.
   */
  lemma StepPreserves(env: Env, opts: Options, st: PlanState, e: ScanEntry)
    requires Step(env, opts, st, e).Success?
    ensures var r := Step(env, opts, st, e).value;
      && r.hm.Keys == st.hm.Keys + {e.hash}
      && (forall h | h in st.hm :: r.hm[h] == st.hm[h])
      && st.clist <= r.clist && |r.clist| <= |st.clist| + 1
      && st.outpaths <= r.outpaths
  {
    if e.hash !in st.hm {
      PlaceEffect(env, opts, st.(hm := st.hm[e.hash := e.path]), e.path);
    } else if Step(env, opts, st, e) != Success(st) {
      PlaceEffect(env, opts, st, e.path);
    }
  }

  /** A run that does not abort holds at most one pair per scan entry. */
  lemma {:induction false} RunLength(env: Env, opts: Options, scan: ScanData)
    requires Run(env, opts, scan).Success?
    ensures |Run(env, opts, scan).value.clist| <= |scan|
    decreases |scan|
  {
    if scan != [] {
      var pre := scan[..|scan| - 1];
      RunLength(env, opts, pre);
      StepPreserves(env, opts, Run(env, opts, pre).value, scan[|scan| - 1]);
    }
  }

  /** Running one more entry: the previous run, then one step (unless it aborted). */
  lemma RunSnoc(env: Env, opts: Options, pre: ScanData, e: ScanEntry)
    ensures Run(env, opts, pre).Failure? ==> Run(env, opts, pre + [e]) == Failure(Run(env, opts, pre).error)
    ensures Run(env, opts, pre).Success? ==> Run(env, opts, pre + [e]) == Step(env, opts, Run(env, opts, pre).value, e)
  {
    var scan := pre + [e];
    assert scan[..|scan| - 1] == pre && scan[|scan| - 1] == e;
  }

  // ---------------------------------------------------------------------
  // Reference definitions, stated on the scan alone

  /** The digests of the scan. */
  function Hashes(scan: ScanData): set<Hash>
    decreases |scan|
  {
    if scan == [] then {} else Hashes(scan[..|scan| - 1]) + {scan[|scan| - 1].hash}
  }

  /** The path of the first entry with digest `h`: its representative. */
  function FirstWith(scan: ScanData, h: Hash): string
    requires h in Hashes(scan)
    decreases |scan|
  {
    var pre := scan[..|scan| - 1];
    if h in Hashes(pre) then FirstWith(pre, h) else scan[|scan| - 1].path
  }

  /**
   * Whether the entry `e`, coming after `pre`, is placed: its digest is new,
   * or (fast-hash mode only) its full digest differs from that of the first
   * file seen with the same digest.
   */
  predicate IsKept(env: Env, opts: Options, pre: ScanData, e: ScanEntry) {
    || e.hash !in Hashes(pre)
    || (opts.fastHash && DigestOf(env, FirstWith(pre, e.hash), false) != DigestOf(env, e.path, false))
  }

  /** The entries that are placed, in scan order. */
  function Kept(env: Env, opts: Options, scan: ScanData): ScanData
    decreases |scan|
  {
    if scan == [] then []
    else
      var pre := scan[..|scan| - 1];
      var e := scan[|scan| - 1];
      Kept(env, opts, pre) + (if IsKept(env, opts, pre, e) then [e] else [])
  }

  function Paths(scan: ScanData): seq<string> {
    seq(|scan|, i requires 0 <= i < |scan| => scan[i].path)
  }

  function Sources(clist: CopyList): seq<string> {
    seq(|clist|, i requires 0 <= i < |clist| => clist[i].0)
  }

  function Dests(clist: CopyList): seq<string> {
    seq(|clist|, i requires 0 <= i < |clist| => clist[i].1)
  }

  /** The `make_outpath` destination of a path ("" where it would abort). */
  function Candidate(env: Env, opts: Options, path: string): string {
    match OutPath(env, opts, path)
    case Success(d) => d
    case Failure(_) => ""
  }

  function Candidates(env: Env, opts: Options, scan: ScanData): seq<string> {
    seq(|scan|, i requires 0 <= i < |scan| => Candidate(env, opts, scan[i].path))
  }

  function Elems(s: seq<string>): set<string> {
    set x | x in s
  }

  /**
   * How the copy list's destinations follow from the candidates: the first
   * claim of a candidate keeps it, and every later claim of the same
   * candidate gets the "-1" name, the same one each time.
   */
  function Allocate(cands: seq<string>): seq<string>
    decreases |cands|
  {
    if cands == [] then []
    else
      var pre := cands[..|cands| - 1];
      var c := cands[|cands| - 1];
      Allocate(pre) + [if c in pre then Renamed(c, 1) else c]
  }
  // ---------------------------------------------------------------------
  // The loop keeps its accumulators equal to the reference definitions

  /** The representative map: keyed by the digests seen, each mapped to its first path. */
  ghost predicate MapMatches(scan: ScanData, hm: map<Hash, string>) {
    && hm.Keys == Hashes(scan)
    && (forall h | h in hm :: hm[h] == FirstWith(scan, h))
  }

  /** Copy list and `outpaths` after placing exactly the entries `kept`, in order. */
  ghost predicate PlacedAs(env: Env, opts: Options, kept: ScanData, st: PlanState) {
    && (forall i | 0 <= i < |kept| :: OutPath(env, opts, kept[i].path).Success?)
    && Sources(st.clist) == Paths(kept)
    && Dests(st.clist) == Allocate(Candidates(env, opts, kept))
    && st.outpaths == Elems(Candidates(env, opts, kept))
    && (forall p | p in st.outpaths :: '/' in p)
  }

  ghost predicate Matches(env: Env, opts: Options, scan: ScanData, st: PlanState) {
    MapMatches(scan, st.hm) && PlacedAs(env, opts, Kept(env, opts, scan), st)
  }

  /**
   * Whatever the scan, a run that does not abort has its representative map
   * keyed by exactly the digests seen, each mapped to the first path seen
   * with it; places exactly the kept entries, in scan order; and gives them
   * the destinations `Allocate` describes.
   */
  lemma {:induction false} RunMatches(env: Env, opts: Options, scan: ScanData)
    requires Run(env, opts, scan).Success?
    ensures Matches(env, opts, scan, Run(env, opts, scan).value)
    decreases |scan|
  {
    if scan == [] {
      assert Kept(env, opts, scan) == [];
      assert Elems([]) == {};
    } else {
      var pre := scan[..|scan| - 1];
      var e := scan[|scan| - 1];
      RunMatches(env, opts, pre);
      assert pre + [e] == scan;
      StepMatches(env, opts, pre, e, Run(env, opts, pre).value);
    }
  }

  lemma StepMatches(env: Env, opts: Options, pre: ScanData, e: ScanEntry, st: PlanState)
    requires Matches(env, opts, pre, st)
    requires Step(env, opts, st, e).Success?
    ensures Matches(env, opts, pre + [e], Step(env, opts, st, e).value)
  {
    KeptAppend(env, opts, pre, e);
    if e.hash in st.hm {
      HashesAppendSeen(pre, e);
      if IsKept(env, opts, pre, e) {
        assert Step(env, opts, st, e) == Place(env, opts, st, e.path) by {
          SeenStep(env, opts, pre, e, st);
        }
        PlaceMatches(env, opts, Kept(env, opts, pre), e, st);
      } else {
        assert Step(env, opts, st, e) == Success(st) by {
          SeenStep(env, opts, pre, e, st);
        }
        assert Kept(env, opts, pre + [e]) == Kept(env, opts, pre) + [] == Kept(env, opts, pre);
        assert MapMatches(pre + [e], st.hm);
      }
    } else {
      var st1 := st.(hm := st.hm[e.hash := e.path]);
      assert Step(env, opts, st, e) == Place(env, opts, st1, e.path);
      HashesAppendNew(pre, e, st.hm);
      PlaceMatches(env, opts, Kept(env, opts, pre), e, st1);
    }
  }

  /** A seen digest: the step places the entry exactly when `IsKept` says so. */
  lemma SeenStep(env: Env, opts: Options, pre: ScanData, e: ScanEntry, st: PlanState)
    requires MapMatches(pre, st.hm) && e.hash in st.hm
    requires Step(env, opts, st, e).Success?
    ensures IsKept(env, opts, pre, e) ==> Step(env, opts, st, e) == Place(env, opts, st, e.path)
    ensures !IsKept(env, opts, pre, e) ==> Step(env, opts, st, e) == Success(st)
  {
    assert st.hm[e.hash] == FirstWith(pre, e.hash);
  }

  lemma KeptAppend(env: Env, opts: Options, pre: ScanData, e: ScanEntry)
    ensures Kept(env, opts, pre + [e]) == Kept(env, opts, pre) + (if IsKept(env, opts, pre, e) then [e] else [])
  {
    var scan := pre + [e];
    assert scan[..|scan| - 1] == pre && scan[|scan| - 1] == e;
  }

  lemma HashesAppendSeen(pre: ScanData, e: ScanEntry)
    requires e.hash in Hashes(pre)
    ensures Hashes(pre + [e]) == Hashes(pre)
    ensures forall h | h in Hashes(pre) :: FirstWith(pre + [e], h) == FirstWith(pre, h)
  {
    var scan := pre + [e];
    assert scan[..|scan| - 1] == pre && scan[|scan| - 1] == e;
  }

  lemma HashesAppendNew(pre: ScanData, e: ScanEntry, hm: map<Hash, string>)
    requires MapMatches(pre, hm) && e.hash !in hm
    ensures MapMatches(pre + [e], hm[e.hash := e.path])
  {
    var scan := pre + [e];
    assert scan[..|scan| - 1] == pre && scan[|scan| - 1] == e;
    assert Hashes(scan) == Hashes(pre) + {e.hash};
  }

  /** Placing one more entry extends sources, destinations and `outpaths` as the references say. */
  lemma PlaceMatches(env: Env, opts: Options, kept: ScanData, e: ScanEntry, st: PlanState)
    requires PlacedAs(env, opts, kept, st)
    requires Place(env, opts, st, e.path).Success?
    ensures Place(env, opts, st, e.path).value.hm == st.hm
    ensures PlacedAs(env, opts, kept + [e], Place(env, opts, st, e.path).value)
  {
    var pdst := OutPath(env, opts, e.path).value;
    var cands := Candidates(env, opts, kept);
    var d := Destination(st.outpaths, pdst);
    var st' := Place(env, opts, st, e.path).value;
    PlaceEffect(env, opts, st, e.path);
    OutPathShape(env, opts, e.path);
    ListsAppend(st.clist, (e.path, d));
    ScanAppend(env, opts, kept, e);
    assert Sources(st'.clist) == Paths(kept + [e]);
    assert Dests(st'.clist) == Allocate(Candidates(env, opts, kept + [e])) by {
      ProbeStopsAtOne(st.outpaths, pdst);
      assert d == if pdst in cands then Renamed(pdst, 1) else pdst;
      AllocateAppend(cands, pdst);
    }
    assert st'.outpaths == Elems(Candidates(env, opts, kept + [e])) by {
      ElemsAppend(cands, pdst);
    }
    assert forall p | p in st'.outpaths :: '/' in p;
    assert forall i | 0 <= i < |kept + [e]| :: OutPath(env, opts, (kept + [e])[i].path).Success?;
  }

  lemma ListsAppend(clist: CopyList, x: CopyPair)
    ensures Sources(clist + [x]) == Sources(clist) + [x.0]
    ensures Dests(clist + [x]) == Dests(clist) + [x.1]
  {
  }

  lemma ScanAppend(env: Env, opts: Options, kept: ScanData, e: ScanEntry)
    ensures Paths(kept + [e]) == Paths(kept) + [e.path]
    ensures Candidates(env, opts, kept + [e]) == Candidates(env, opts, kept) + [Candidate(env, opts, e.path)]
    ensures forall i | 0 <= i < |kept + [e]| :: (kept + [e])[i] == if i < |kept| then kept[i] else e
  {
  }

  lemma ElemsAppend(s: seq<string>, x: string)
    ensures Elems(s + [x]) == Elems(s) + {x}
  {
  }

  lemma AllocateAppend(cands: seq<string>, c: string)
    ensures Allocate(cands + [c]) == Allocate(cands) + [if c in cands then Renamed(c, 1) else c]
  {
    var s := cands + [c];
    assert s[..|s| - 1] == cands && s[|s| - 1] == c;
  }

  // ---------------------------------------------------------------------
  // The loop itself

  /** An abort stays an abort: later entries are never looked at. */
  lemma {:induction false} RunAbortsAt(env: Env, opts: Options, scan: ScanData, j: nat)
    requires j <= |scan|
    requires Run(env, opts, scan[..j]).Failure?
    ensures Run(env, opts, scan) == Run(env, opts, scan[..j])
    decreases |scan| - j
  {
    if j < |scan| {
      var next := scan[..j + 1];
      assert next[..|next| - 1] == scan[..j];
      RunAbortsAt(env, opts, scan, j + 1);
    } else {
      assert scan[..j] == scan;
    }
  }

  /** `filter_repeated`: the copy list for a scan, or the panic that aborts it. */
  method FilterRepeated(env: Env, opts: Options, scandata: ScanData) returns (r: Result<CopyList>)
    ensures r.Failure? ==> Run(env, opts, scandata) == Failure(r.error)
    ensures r.Success? ==> Run(env, opts, scandata).Success? && Run(env, opts, scandata).value.clist == r.value
    ensures r.Success? ==>
      && Sources(r.value) == Paths(Kept(env, opts, scandata))
      && Dests(r.value) == Allocate(Candidates(env, opts, Kept(env, opts, scandata)))
  {
    var clist: CopyList := [];
    var hm: map<Hash, string> := map[];
    var outpaths: set<string> := {};
    for i := 0 to |scandata|
      invariant Run(env, opts, scandata[..i]) == Success(PlanState(hm, outpaths, clist))
    {
      var p := scandata[i].path;
      var h := scandata[i].hash;
      var src := p;
      ghost var st := PlanState(hm, outpaths, clist);
      ghost var next := scandata[..i + 1];
      assert next[..|next| - 1] == scandata[..i] && next[|next| - 1] == scandata[i];
      assert Run(env, opts, next) == Step(env, opts, st, scandata[i]);
      if h in hm {
        if !opts.fastHash {
          continue;
        }
        var existingSrc := hm[h];
        var fullHashOld := HashFile(env, existingSrc, false);
        if fullHashOld.Failure? {
          RunAbortsAt(env, opts, scandata, i + 1);
          return Failure(fullHashOld.error);
        }
        var fullHashNew := HashFile(env, src, false);
        if fullHashNew.Failure? {
          RunAbortsAt(env, opts, scandata, i + 1);
          return Failure(fullHashNew.error);
        }
        if fullHashNew.value == fullHashOld.value {
          continue;
        }
        var pdst := MakeOutpath(env, opts, p);
        if pdst.Failure? {
          RunAbortsAt(env, opts, scandata, i + 1);
          return Failure(pdst.error);
        }
        clist, outpaths := CheckedAddToCopyList(clist, outpaths, src, pdst.value);
      } else {
        hm := hm[h := p];
        var pdst := MakeOutpath(env, opts, p);
        if pdst.Failure? {
          RunAbortsAt(env, opts, scandata, i + 1);
          return Failure(pdst.error);
        }
        clist, outpaths := CheckedAddToCopyList(clist, outpaths, src, pdst.value);
      }
    }
    assert scandata[..|scandata|] == scandata;
    RunMatches(env, opts, scandata);
    r := Success(clist);
  }

  // ---------------------------------------------------------------------
  // Properties of the plan

  /** A digest is seen exactly when some entry carries it. */
  lemma {:induction false} HashesAreCarried(scan: ScanData, h: Hash)
    ensures h in Hashes(scan) <==> exists i | 0 <= i < |scan| :: scan[i].hash == h
    decreases |scan|
  {
    if scan != [] {
      var pre := scan[..|scan| - 1];
      HashesAreCarried(pre, h);
      assert forall i | 0 <= i < |pre| :: pre[i] == scan[i];
    }
  }

  /** The representative of a digest is the path of the first entry carrying it. */
  lemma {:induction false} FirstWithIsFirst(scan: ScanData, h: Hash)
    requires h in Hashes(scan)
    ensures exists i | 0 <= i < |scan| ::
      && scan[i].hash == h
      && scan[i].path == FirstWith(scan, h)
      && forall j | 0 <= j < i :: scan[j].hash != h
    decreases |scan|
  {
    var pre := scan[..|scan| - 1];
    assert forall i | 0 <= i < |pre| :: pre[i] == scan[i];
    if h in Hashes(pre) {
      FirstWithIsFirst(pre, h);
      var i :| 0 <= i < |pre| && pre[i].hash == h && pre[i].path == FirstWith(pre, h)
        && forall j | 0 <= j < i :: pre[j].hash != h;
      assert scan[i] == pre[i];
    } else {
      HashesAreCarried(pre, h);
      assert forall j | 0 <= j < |pre| :: scan[j].hash != h;
    }
  }

  /** Only entries of the scan are placed, each at most as often as it occurs. */
  lemma {:induction false} KeptFromScan(env: Env, opts: Options, scan: ScanData)
    ensures multiset(Kept(env, opts, scan)) <= multiset(scan)
    ensures |Kept(env, opts, scan)| <= |scan|
    decreases |scan|
  {
    if scan != [] {
      var pre := scan[..|scan| - 1];
      KeptFromScan(env, opts, pre);
      assert scan == pre + [scan[|scan| - 1]];
    }
  }

  /** A scan with distinct paths gives a copy list with distinct sources. */
  lemma {:induction false} KeptSourcesDistinct(env: Env, opts: Options, scan: ScanData)
    requires forall i, j | 0 <= i < j < |scan| :: scan[i].path != scan[j].path
    ensures var kept := Kept(env, opts, scan);
      forall i, j | 0 <= i < j < |kept| :: kept[i].path != kept[j].path
    decreases |scan|
  {
    if scan != [] {
      var pre := scan[..|scan| - 1];
      var e := scan[|scan| - 1];
      KeptSourcesDistinct(env, opts, pre);
      KeptFromScan(env, opts, pre);
      var kp := Kept(env, opts, pre);
      forall i | 0 <= i < |kp|
        ensures kp[i].path != e.path
      {
        assert kp[i] in multiset(kp);
        assert kp[i] in pre;
      }
    }
  }

  /**
   * With full digests from the scan, the plan keeps exactly one entry per
   * digest, and that entry is the digest's first occurrence.
   */
  lemma {:induction false} FullModeKeepsFirstOfEachDigest(env: Env, opts: Options, scan: ScanData)
    requires !opts.fastHash
    ensures var kept := Kept(env, opts, scan);
      && (forall i, j | 0 <= i < j < |kept| :: kept[i].hash != kept[j].hash)
      && (forall i | 0 <= i < |kept| :: kept[i].hash in Hashes(scan) && kept[i].path == FirstWith(scan, kept[i].hash))
      && (forall h | h in Hashes(scan) :: exists i | 0 <= i < |kept| :: kept[i].hash == h)
    decreases |scan|
  {
    if scan != [] {
      var pre := scan[..|scan| - 1];
      var e := scan[|scan| - 1];
      assert pre + [e] == scan;
      FullModeKeepsFirstOfEachDigest(env, opts, pre);
      KeptAppend(env, opts, pre, e);
      var kp := Kept(env, opts, pre);
      var kept := Kept(env, opts, scan);
      assert forall i | 0 <= i < |kp| :: kept[i] == kp[i];
      forall h | h in Hashes(scan)
        ensures exists i | 0 <= i < |kept| :: kept[i].hash == h
      {
        if h in Hashes(pre) {
          var i :| 0 <= i < |kp| && kp[i].hash == h;
          assert kept[i].hash == h;
        } else {
          assert kept[|kept| - 1] == e;
        }
      }
    }
  }

  /**
   * In full mode, when every entry carries the full digest of its file (what
   * `scan_path` stores), a file whose content equals that of an earlier one
   * is dropped: of two identical files at most one is placed.
   */
  lemma FullModeDropsEqualContent(env: Env, opts: Options, scan: ScanData, i: nat, j: nat, c: seq<byte>)
    requires !opts.fastHash
    requires forall k | 0 <= k < |scan| :: DigestOf(env, scan[k].path, false) == Success(scan[k].hash)
    requires i < j < |scan|
    requires Openable(env, scan[i].path) && Openable(env, scan[j].path)
    requires Delivers(env.files[scan[i].path].script, c) && Delivers(env.files[scan[j].path].script, c)
    ensures !IsKept(env, opts, scan[..j], scan[j])
  {
    FullDigestIgnoresChunking(env, scan[i].path, scan[j].path, c);
    assert scan[..j][i] == scan[i];
    HashesAreCarried(scan[..j], scan[j].hash);
  }

  /**
   * In fast mode a digest match is settled by the files' contents: a file
   * whose content equals its representative's is dropped, and one whose
   * content has a different SHA-256 is placed.
   */
  lemma FastModeComparesContent(env: Env, opts: Options, pre: ScanData, e: ScanEntry, c: seq<byte>, c': seq<byte>)
    requires opts.fastHash && e.hash in Hashes(pre)
    requires Openable(env, FirstWith(pre, e.hash)) && Openable(env, e.path)
    requires Delivers(env.files[FirstWith(pre, e.hash)].script, c)
    requires Delivers(env.files[e.path].script, c')
    ensures c == c' ==> !IsKept(env, opts, pre, e)
    ensures env.sha256(c) != env.sha256(c') ==> IsKept(env, opts, pre, e)
  {
    FullModeFeedsContent(env.files[FirstWith(pre, e.hash)].script, c);
    FullModeFeedsContent(env.files[e.path].script, c');
  }

  /**
   * In fast mode a repeat is compared in full only with the first file that
   * had its digest: when `a` differs from `b` and `c` equals `b`, all three
   * are placed, so two files with the same content both enter the plan.
   */
  lemma FastRepeatOfNonRepresentativeKept(env: Env, opts: Options, a: ScanEntry, b: ScanEntry, c: ScanEntry)
    requires opts.fastHash && a.hash == b.hash && b.hash == c.hash
    requires Openable(env, a.path) && Openable(env, b.path) && Openable(env, c.path)
    requires DigestOf(env, a.path, false) != DigestOf(env, b.path, false)
    requires DigestOf(env, b.path, false) == DigestOf(env, c.path, false)
    ensures Kept(env, opts, [a, b, c]) == [a, b, c]
  {
    KeptAppend(env, opts, [], a);
    assert [a] == [] + [a];
    assert FirstWith([a], a.hash) == a.path;
    KeptAppend(env, opts, [a], b);
    assert [a, b] == [a] + [b];
    assert FirstWith([a, b], a.hash) == a.path by {
      assert [a, b][..1] == [a];
    }
    KeptAppend(env, opts, [a, b], c);
    assert [a, b, c] == [a, b] + [c];
  }

  /** Hence a plan for such a scan copies `b` and `c`, though their contents are equal. */
  lemma FastRepeatOfNonRepresentativePlanned(env: Env, opts: Options, scan: ScanData, a: ScanEntry, b: ScanEntry, c: ScanEntry)
    requires opts.fastHash && a.hash == b.hash && b.hash == c.hash
    requires Openable(env, a.path) && Openable(env, b.path) && Openable(env, c.path)
    requires DigestOf(env, a.path, false) != DigestOf(env, b.path, false)
    requires DigestOf(env, b.path, false) == DigestOf(env, c.path, false)
    requires scan == [a, b, c] && Run(env, opts, scan).Success?
    ensures Sources(Run(env, opts, scan).value.clist) == [a.path, b.path, c.path]
  {
    FastRepeatOfNonRepresentativeKept(env, opts, a, b, c);
    RunPlan(env, opts, scan);
    assert Paths([a, b, c]) == [a.path, b.path, c.path];
  }

  /** The destination of each placed entry: its candidate, or the "-1" name on a repeat. */
  lemma {:induction false} AllocateAt(cands: seq<string>)
    ensures |Allocate(cands)| == |cands|
    ensures forall i | 0 <= i < |cands| ::
      Allocate(cands)[i] == if cands[i] in cands[..i] then Renamed(cands[i], 1) else cands[i]
    decreases |cands|
  {
    if cands != [] {
      var pre := cands[..|cands| - 1];
      AllocateAt(pre);
      assert forall i | 0 <= i < |pre| :: cands[i] == pre[i] && cands[..i] == pre[..i];
    }
  }

  /**
   * Destinations are not unique: a third file with the same candidate gets
   * the same "-1" name as the second, and its copy overwrites the second's.
   */
  lemma ThirdClaimRepeatsSecond(d: string)
    ensures Allocate([d, d, d]) == [d, Renamed(d, 1), Renamed(d, 1)]
  {
    AllocateAt([d, d, d]);
    assert [d, d, d][..1] == [d] && [d, d, d][..2] == [d, d];
  }

  /**
   * A run aborts only on a source without a destination, or, in fast mode,
   * on a source that cannot be opened for the full comparison.
   */
  lemma {:induction false} RunSucceeds(env: Env, opts: Options, scan: ScanData)
    requires forall i | 0 <= i < |scan| :: OutPath(env, opts, scan[i].path).Success?
    requires opts.fastHash ==> forall i | 0 <= i < |scan| :: Openable(env, scan[i].path)
    ensures Run(env, opts, scan).Success?
    decreases |scan|
  {
    if scan != [] {
      var pre := scan[..|scan| - 1];
      var e := scan[|scan| - 1];
      assert forall i | 0 <= i < |pre| :: pre[i] == scan[i];
      RunSucceeds(env, opts, pre);
      RunMatches(env, opts, pre);
      var st := Run(env, opts, pre).value;
      if e.hash in st.hm && opts.fastHash {
        FirstWithIsFirst(pre, e.hash);
        assert Openable(env, st.hm[e.hash]);
      }
    }
  }

  /**
   * In fast mode, a digest hit on a file that cannot be opened aborts the
   * run, even when the file could be dated and placed.
   */
  lemma FastHitOnUnreadableAborts(env: Env, opts: Options, pre: ScanData, e: ScanEntry)
    requires opts.fastHash && Run(env, opts, pre).Success?
    requires e.hash in Hashes(pre)
    requires Openable(env, FirstWith(pre, e.hash)) && !Openable(env, e.path)
    ensures Run(env, opts, pre + [e]) == Failure(Fatal(CannotOpen, e.path))
  {
    RunSnoc(env, opts, pre, e);
    RunMatches(env, opts, pre);
  }

  /** With no repeated digests every entry is kept. */
  lemma {:induction false} DistinctDigestsAllKept(env: Env, opts: Options, scan: ScanData)
    requires forall i, j | 0 <= i < j < |scan| :: scan[i].hash != scan[j].hash
    ensures Kept(env, opts, scan) == scan
    decreases |scan|
  {
    if scan != [] {
      var pre := scan[..|scan| - 1];
      var e := scan[|scan| - 1];
      assert pre + [e] == scan;
      assert forall i | 0 <= i < |pre| :: pre[i] == scan[i];
      DistinctDigestsAllKept(env, opts, pre);
      assert e.hash !in Hashes(pre) by {
        HashesAreCarried(pre, e.hash);
      }
      KeptAppend(env, opts, pre, e);
    }
  }

  /**
   * A run places every entry that carries a new digest and has a destination:
   * with no repeated digests and every destination defined, nothing is dropped
   * and the run does not abort.
   */
  lemma {:induction false} DistinctDigestsAllPlaced(env: Env, opts: Options, scan: ScanData)
    requires forall i, j | 0 <= i < j < |scan| :: scan[i].hash != scan[j].hash
    requires forall i | 0 <= i < |scan| :: OutPath(env, opts, scan[i].path).Success?
    ensures Run(env, opts, scan).Success?
    ensures Kept(env, opts, scan) == scan
    decreases |scan|
  {
    DistinctDigestsAllKept(env, opts, scan);
    if scan != [] {
      var pre := scan[..|scan| - 1];
      var e := scan[|scan| - 1];
      assert forall i | 0 <= i < |pre| :: pre[i] == scan[i];
      DistinctDigestsAllPlaced(env, opts, pre);
      var st := Run(env, opts, pre).value;
      assert e.hash !in st.hm by {
        HashesAreCarried(pre, e.hash);
        RunKeys(env, opts, pre);
      }
    }
  }

  /** The copy list of a run that does not abort, in terms of the scan alone. */
  lemma RunPlan(env: Env, opts: Options, scan: ScanData)
    requires Run(env, opts, scan).Success?
    ensures Sources(Run(env, opts, scan).value.clist) == Paths(Kept(env, opts, scan))
    ensures Dests(Run(env, opts, scan).value.clist) == Allocate(Candidates(env, opts, Kept(env, opts, scan)))
  {
    RunMatches(env, opts, scan);
  }

  /** The keys of the representative map are the digests seen. */
  lemma RunKeys(env: Env, opts: Options, scan: ScanData)
    requires Run(env, opts, scan).Success?
    ensures Run(env, opts, scan).value.hm.Keys == Hashes(scan)
  {
    RunMatches(env, opts, scan);
  }

  /**
   * Three sources with distinct digests and the same candidate destination:
   * the copy list sends the second and the third to the same file.
   */
  lemma SameCandidateThriceCollides(env: Env, opts: Options, scan: ScanData, d: string)
    requires |scan| == 3
    requires forall i, j | 0 <= i < j < 3 :: scan[i].hash != scan[j].hash
    requires forall i | 0 <= i < 3 :: OutPath(env, opts, scan[i].path) == Success(d)
    ensures Run(env, opts, scan).Success?
    ensures Dests(Run(env, opts, scan).value.clist) == [d, Renamed(d, 1), Renamed(d, 1)]
  {
    DistinctDigestsAllPlaced(env, opts, scan);
    RunMatches(env, opts, scan);
    assert Candidates(env, opts, scan) == [d, d, d];
    ThirdClaimRepeatsSecond(d);
  }
}
