/**
 * The two planning outcomes the repository's own tests check: first for any
 * paths and dates of the same shape, then for the test data's own paths.
 * Each run is followed entry by entry.
 */
module Scenarios {
  import opened Types
  import opened Decimal
  import opened RustPath
  import opened Oracles
  import opened Digest
  import opened Dating
  import opened Placement
  import opened Planner

  // ---------------------------------------------------------------------
  // One step of a run, for each outcome the tests exercise

  /** The first entry of a run is placed at its destination. */
  lemma RunFirst(env: Env, opts: Options, e: ScanEntry, d: string)
    requires OutPath(env, opts, e.path) == Success(d)
    ensures Run(env, opts, [e]) == Success(PlanState(map[e.hash := e.path], {d}, [(e.path, d)]))
  {
    assert [e] == [] + [e];
    RunSnoc(env, opts, [], e);
    var st0 := PlanState(map[e.hash := e.path], {}, []);
    assert Destination({}, d) == d;
    assert Run(env, opts, [e]) == Success(st0.(outpaths := {} + {d}, clist := [] + [(e.path, d)]));
    assert {} + {d} == {d} && [] + [(e.path, d)] == [(e.path, d)];
  }

  /** A new digest whose destination is free is placed there. */
  lemma RunFresh(env: Env, opts: Options, pre: ScanData, st: PlanState, e: ScanEntry, d: string)
    requires Run(env, opts, pre) == Success(st)
    requires e.hash !in st.hm && OutPath(env, opts, e.path) == Success(d) && d !in st.outpaths
    ensures Run(env, opts, pre + [e]) ==
      Success(PlanState(st.hm[e.hash := e.path], st.outpaths + {d}, st.clist + [(e.path, d)]))
  {
    RunSnoc(env, opts, pre, e);
  }

  /** A new digest whose destination is taken gets the "-1" name. */
  lemma RunClash(env: Env, opts: Options, pre: ScanData, st: PlanState, e: ScanEntry, d: string)
    requires Run(env, opts, pre) == Success(st)
    requires forall p | p in st.outpaths :: '/' in p
    requires e.hash !in st.hm && OutPath(env, opts, e.path) == Success(d) && d in st.outpaths
    ensures Run(env, opts, pre + [e]) ==
      Success(PlanState(st.hm[e.hash := e.path], st.outpaths, st.clist + [(e.path, Renamed(d, 1))]))
  {
    RunSnoc(env, opts, pre, e);
    ProbeStopsAtOne(st.outpaths, d);
  }

  /** In fast mode, a known digest whose full digest also matches is dropped. */
  lemma RunDropped(env: Env, opts: Options, pre: ScanData, st: PlanState, e: ScanEntry)
    requires Run(env, opts, pre) == Success(st)
    requires opts.fastHash && e.hash in st.hm
    requires DigestOf(env, st.hm[e.hash], false).Success?
    requires DigestOf(env, e.path, false) == DigestOf(env, st.hm[e.hash], false)
    ensures Run(env, opts, pre + [e]) == Success(st)
  {
    RunSnoc(env, opts, pre, e);
  }

  // ---------------------------------------------------------------------
  // The tests' outcomes

  /** Two new digests with the same destination: the second gets the "-1" name. */
  lemma RunSameDestination(env: Env, opts: Options, e0: ScanEntry, e1: ScanEntry, d: string)
    requires e0.hash != e1.hash && '/' in d
    requires OutPath(env, opts, e0.path) == Success(d) && OutPath(env, opts, e1.path) == Success(d)
    ensures Run(env, opts, [e0] + [e1]) == Success(PlanState(
      map[e0.hash := e0.path, e1.hash := e1.path], {d}, [(e0.path, d)] + [(e1.path, Renamed(d, 1))]))
  {
    RunFirst(env, opts, e0, d);
    RunClash(env, opts, [e0], PlanState(map[e0.hash := e0.path], {d}, [(e0.path, d)]), e1, d);
  }

  /**
   * Two different files with the same name and month, from two folders: the
   * first keeps its name, the second gets the "-1" name beside it.
   */
  lemma SameNameTwice(env: Env, opts: Options, e0: ScanEntry, e1: ScanEntry, dir1: string, dir2: string, name: string, date: Date)
    requires ValidName(name)
    requires e0.hash != e1.hash
    requires e0.path == Push(dir1, name) && e1.path == Push(dir2, name)
    requires CreateDate(env, opts.useExif, e0.path) == Success(date)
    requires CreateDate(env, opts.useExif, e1.path) == Success(date)
    ensures var m := MonthDir(opts.outDir, date);
      Run(env, opts, [e0] + [e1]) == Success(PlanState(
        map[e0.hash := e0.path, e1.hash := e1.path],
        {Push(m, name)},
        [(e0.path, Push(m, name))] + [(e1.path, Push(m, BareName(StemOfName(name), 1, ExtOfName(name))))]))
  {
    var m := MonthDir(opts.outDir, date);
    var d := Push(m, name);
    assert Renamed(d, 1) == Push(m, BareName(StemOfName(name), 1, ExtOfName(name))) by {
      MonthDirPlain(opts.outDir, date);
      RenamedOfPush(m, name, 1);
    }
    assert OutPath(env, opts, e0.path) == Success(d) by {
      OutPathOfPush(env, opts, dir1, name, date);
    }
    assert OutPath(env, opts, e1.path) == Success(d) by {
      OutPathOfPush(env, opts, dir2, name, date);
    }
    assert '/' in d by {
      OutPathShape(env, opts, e0.path);
    }
    RunSameDestination(env, opts, e0, e1, d);
  }

  /** The month folder of the deconfliction test. */
  lemma Out2Month()
    ensures MonthDir("test/out2", Date(2017, 11)) == "test/out2/2017/11"
  {
    assert NatToDecimal(2017) == "2017" && IntToDecimal(2017) == "2017" && NatToDecimal(11) == "11";
  }

  /** The "-1" name of `foo`. */
  lemma FooRenamed()
    ensures BareName(StemOfName("foo"), 1, ExtOfName("foo")) == "foo-1"
  {
    assert StemOfName("foo") == "foo" && ExtOfName("foo") == "";
    assert NatToDecimal(1) == "1";
  }

  /** The paths of the deconfliction test, written out. */
  lemma Ref2Paths()
    ensures ValidName("foo")
    ensures Push("test/ref2", "foo") == "test/ref2/foo" && Push("test/ref2/b", "foo") == "test/ref2/b/foo"
    ensures Push(MonthDir("test/out2", Date(2017, 11)), "foo") == "test/out2/2017/11/foo"
    ensures Push(MonthDir("test/out2", Date(2017, 11)), BareName(StemOfName("foo"), 1, ExtOfName("foo"))) == "test/out2/2017/11/foo-1"
  {
    Out2Month();
    FooRenamed();
  }

  /** `foo` and `b/foo`, both from November 2017, go to `foo` and `foo-1`. */
  lemma DeconflictOutputName(env: Env, opts: Options, e0: ScanEntry, e1: ScanEntry)
    requires e0.hash != e1.hash
    requires e0.path == "test/ref2/foo" && e1.path == "test/ref2/b/foo"
    requires opts.outDir == "test/out2"
    requires CreateDate(env, opts.useExif, "test/ref2/foo") == Success(Date(2017, 11))
    requires CreateDate(env, opts.useExif, "test/ref2/b/foo") == Success(Date(2017, 11))
    ensures Run(env, opts, [e0] + [e1]).Success?
    ensures Run(env, opts, [e0] + [e1]).value.clist ==
      [("test/ref2/foo", "test/out2/2017/11/foo")] + [("test/ref2/b/foo", "test/out2/2017/11/foo-1")]
  {
    Ref2Paths();
    SameNameTwice(env, opts, e0, e1, "test/ref2", "test/ref2/b", "foo", Date(2017, 11));
  }

  /** Two new digests with different free destinations are both placed. */
  lemma RunTwoFresh(env: Env, opts: Options, e0: ScanEntry, e1: ScanEntry, d0: string, d1: string)
    requires e0.hash != e1.hash && d0 != d1
    requires OutPath(env, opts, e0.path) == Success(d0) && OutPath(env, opts, e1.path) == Success(d1)
    ensures Run(env, opts, [e0] + [e1]) == Success(PlanState(
      map[e0.hash := e0.path, e1.hash := e1.path], {d0} + {d1}, [(e0.path, d0)] + [(e1.path, d1)]))
  {
    RunFirst(env, opts, e0, d0);
    RunFresh(env, opts, [e0], PlanState(map[e0.hash := e0.path], {d0}, [(e0.path, d0)]), e1, d1);
  }

  /** Two new digests placed, then in fast mode a true duplicate of the second dropped. */
  lemma RunTwoThenDuplicate(env: Env, opts: Options, e0: ScanEntry, e1: ScanEntry, e2: ScanEntry, d0: string, d1: string)
    requires opts.fastHash && e2.hash == e1.hash && e0.hash != e1.hash && d0 != d1
    requires OutPath(env, opts, e0.path) == Success(d0) && OutPath(env, opts, e1.path) == Success(d1)
    requires DigestOf(env, e1.path, false).Success?
    requires DigestOf(env, e2.path, false) == DigestOf(env, e1.path, false)
    ensures Run(env, opts, [e0] + [e1]) == Success(PlanState(
      map[e0.hash := e0.path, e1.hash := e1.path], {d0} + {d1}, [(e0.path, d0)] + [(e1.path, d1)]))
    ensures Run(env, opts, [e0] + [e1] + [e2]) == Run(env, opts, [e0] + [e1])
  {
    RunTwoFresh(env, opts, e0, e1, d0, d1);
    var st2 := PlanState(map[e0.hash := e0.path, e1.hash := e1.path], {d0} + {d1}, [(e0.path, d0)] + [(e1.path, d1)]);
    RunDropped(env, opts, [e0] + [e1], st2, e2);
  }

  /** After two placements and a dropped duplicate, a fourth new digest with a free destination is placed. */
  lemma RunFreshAfterDuplicate(env: Env, opts: Options, pre: ScanData, e0: ScanEntry, e1: ScanEntry, e3: ScanEntry,
                               d0: string, d1: string, d3: string)
    requires Run(env, opts, pre) == Success(PlanState(
      map[e0.hash := e0.path, e1.hash := e1.path], {d0} + {d1}, [(e0.path, d0)] + [(e1.path, d1)]))
    requires e0.hash != e3.hash && e1.hash != e3.hash
    requires OutPath(env, opts, e3.path) == Success(d3) && d0 != d3 && d1 != d3
    ensures Run(env, opts, pre + [e3]) == Success(PlanState(
      map[e0.hash := e0.path, e1.hash := e1.path, e3.hash := e3.path], {d0} + {d1} + {d3},
      [(e0.path, d0)] + [(e1.path, d1)] + [(e3.path, d3)]))
  {
    var st2 := Run(env, opts, pre).value;
    FreshStep(st2, e0, e1, e3, d0, d1, d3);
    RunFresh(env, opts, pre, st2, e3, d3);
  }

  /** The state facts `RunFreshAfterDuplicate` needs, apart from any run. */
  lemma FreshStep(st2: PlanState, e0: ScanEntry, e1: ScanEntry, e3: ScanEntry, d0: string, d1: string, d3: string)
    requires st2 == PlanState(map[e0.hash := e0.path, e1.hash := e1.path], {d0} + {d1}, [(e0.path, d0)] + [(e1.path, d1)])
    requires e0.hash != e3.hash && e1.hash != e3.hash && d0 != d3 && d1 != d3
    ensures e3.hash !in st2.hm && d3 !in st2.outpaths
    ensures PlanState(st2.hm[e3.hash := e3.path], st2.outpaths + {d3}, st2.clist + [(e3.path, d3)]) ==
      PlanState(map[e0.hash := e0.path, e1.hash := e1.path, e3.hash := e3.path], {d0} + {d1} + {d3},
        [(e0.path, d0)] + [(e1.path, d1)] + [(e3.path, d3)])
  {
  }

  /**
   * Fast mode: of four files with distinct destinations, the third shares the
   * fast digest and the content of the second. The third is dropped; the
   * others keep their names.
   */
  lemma FastDuplicateDropped(env: Env, opts: Options, e0: ScanEntry, e1: ScanEntry, e2: ScanEntry, e3: ScanEntry,
                             content: seq<byte>, d0: string, d1: string, d3: string)
    requires opts.fastHash
    requires e2.hash == e1.hash && e0.hash != e1.hash && e0.hash != e3.hash && e1.hash != e3.hash
    requires Openable(env, e1.path) && Openable(env, e2.path)
    requires Delivers(env.files[e1.path].script, content)
    requires Delivers(env.files[e2.path].script, content)
    requires OutPath(env, opts, e0.path) == Success(d0)
    requires OutPath(env, opts, e1.path) == Success(d1)
    requires OutPath(env, opts, e3.path) == Success(d3)
    requires d0 != d1 && d0 != d3 && d1 != d3
    ensures Run(env, opts, [e0] + [e1] + [e2] + [e3]).Success?
    ensures Run(env, opts, [e0] + [e1] + [e2] + [e3]).value.clist == [(e0.path, d0)] + [(e1.path, d1)] + [(e3.path, d3)]
  {
    assert DigestOf(env, e2.path, false) == DigestOf(env, e1.path, false) by {
      FullModeFeedsContent(env.files[e1.path].script, content);
      FullModeFeedsContent(env.files[e2.path].script, content);
    }
    RunTwoThenDuplicate(env, opts, e0, e1, e2, d0, d1);
    RunFreshAfterDuplicate(env, opts, [e0] + [e1] + [e2], e0, e1, e3, d0, d1, d3);
  }

  /** The month folder of the copy test. */
  lemma OutMonth()
    ensures MonthDir("test/out", Date(2017, 10)) == "test/out/2017/10"
  {
    assert NatToDecimal(2017) == "2017" && IntToDecimal(2017) == "2017" && NatToDecimal(10) == "10";
  }

  /** The source paths of the copy test, written out. */
  lemma RefSources()
    ensures ValidName("1") && ValidName("10") && ValidName("foo")
    ensures Push("test/ref/a", "1") == "test/ref/a/1" && Push("test/ref/a", "10") == "test/ref/a/10"
    ensures Push("test/ref/b", "foo") == "test/ref/b/foo"
  {
  }

  /** The destination paths of the copy test, written out. */
  lemma RefDestinations()
    ensures Push(MonthDir("test/out", Date(2017, 10)), "1") == "test/out/2017/10/1"
    ensures Push(MonthDir("test/out", Date(2017, 10)), "10") == "test/out/2017/10/10"
    ensures Push(MonthDir("test/out", Date(2017, 10)), "foo") == "test/out/2017/10/foo"
  {
    OutMonth();
  }

  /**
   * Fast mode over `a/1`, `a/10`, `b/10` and `b/foo`, all from October 2017,
   * where `b/10` has the fast digest and the content of `a/10`: `b/10` is
   * dropped and the others keep their names.
   */
  lemma ExecCopyPlan(env: Env, opts: Options, e0: ScanEntry, e1: ScanEntry, e2: ScanEntry, e3: ScanEntry, content: seq<byte>)
    requires opts.outDir == "test/out" && opts.fastHash
    requires e0.path == "test/ref/a/1" && e1.path == "test/ref/a/10"
    requires e2.path == "test/ref/b/10" && e3.path == "test/ref/b/foo"
    requires e2.hash == e1.hash && e0.hash != e1.hash && e0.hash != e3.hash && e1.hash != e3.hash
    requires Openable(env, "test/ref/a/10") && Openable(env, "test/ref/b/10")
    requires CreateDate(env, opts.useExif, "test/ref/a/1") == Success(Date(2017, 10))
    requires CreateDate(env, opts.useExif, "test/ref/a/10") == Success(Date(2017, 10))
    requires CreateDate(env, opts.useExif, "test/ref/b/foo") == Success(Date(2017, 10))
    requires Delivers(env.files["test/ref/a/10"].script, content)
    requires Delivers(env.files["test/ref/b/10"].script, content)
    ensures Run(env, opts, [e0] + [e1] + [e2] + [e3]).Success?
    ensures Run(env, opts, [e0] + [e1] + [e2] + [e3]).value.clist ==
      [("test/ref/a/1", "test/out/2017/10/1")] + [("test/ref/a/10", "test/out/2017/10/10")] +
      [("test/ref/b/foo", "test/out/2017/10/foo")]
  {
    RefSources();
    RefDestinations();
    OutPathOfPush(env, opts, "test/ref/a", "1", Date(2017, 10));
    OutPathOfPush(env, opts, "test/ref/a", "10", Date(2017, 10));
    OutPathOfPush(env, opts, "test/ref/b", "foo", Date(2017, 10));
    FastDuplicateDropped(env, opts, e0, e1, e2, e3, content, "test/out/2017/10/1", "test/out/2017/10/10", "test/out/2017/10/foo");
  }
}
