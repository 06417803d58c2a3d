/**
 * Where a file goes: `make_outpath` (outdir/<year>/<month>/<file name>) and
 * `checked_add_to_copylist` (append a copy pair, renaming the destination on
 * a clash).
 */
module Placement {
  import opened Types
  import opened Decimal
  import opened RustPath
  import opened Oracles
  import opened Dating
  import opened Digest

  /** The planner's part of `Options`. */
  datatype Options = Options(fastHash: bool, useExif: bool, outDir: string)

  /** (src, dst) */
  type CopyPair = (string, string)
  type CopyList = seq<CopyPair>

  function YearDir(outdir: string, d: Date): string {
    Push(outdir, IntToDecimal(d.year))
  }

  function MonthDir(outdir: string, d: Date): string {
    Push(YearDir(outdir, d), NatToDecimal(d.month))
  }

  /**
   * `make_outpath`: the creation date is resolved first (and may abort the
   * run), then the source's file name is taken (a source without one aborts).
   */
  function OutPath(env: Env, opts: Options, srcpath: string): (r: Result<string>)
    ensures r.Success? <==> CreateDate(env, opts.useExif, srcpath).Success? && FileName(srcpath).Some?
    ensures CreateDate(env, opts.useExif, srcpath).Failure? ==> r == Failure(CreateDate(env, opts.useExif, srcpath).error)
    ensures CreateDate(env, opts.useExif, srcpath).Success? && FileName(srcpath).None? ==>
      r == Failure(Fatal(BadFileName, srcpath))
  {
    match CreateDate(env, opts.useExif, srcpath)
    case Failure(e) => Failure(e)
    case Success(d) =>
      match FileName(srcpath)
      case None => Failure(Fatal(BadFileName, srcpath))
      case Some(name) => Success(Push(MonthDir(opts.outDir, d), name))
  }

  /**
   * A destination keeps the source's file name, sits directly in the month
   * folder of the source's date, and is never a bare name.
   */
  lemma OutPathShape(env: Env, opts: Options, srcpath: string)
    requires OutPath(env, opts, srcpath).Success?
    ensures var r := OutPath(env, opts, srcpath).value;
      && FileName(r) == FileName(srcpath)
      && Parent(r) == Some(MonthDir(opts.outDir, CreateDate(env, opts.useExif, srcpath).value))
      && '/' in r
  {
    var d := CreateDate(env, opts.useExif, srcpath).value;
    var name := FileName(srcpath).value;
    MonthDirPlain(opts.outDir, d);
    FileNameOfPush(MonthDir(opts.outDir, d), name);
    ParentOfPush(MonthDir(opts.outDir, d), name);
    PushHasSeparator(MonthDir(opts.outDir, d), name);
  }

  /** `make_outpath` as written: the destination is built by successive pushes. */
  method MakeOutpath(env: Env, opts: Options, srcpath: string) returns (r: Result<string>)
    ensures r == OutPath(env, opts, srcpath)
  {
    var pdst := opts.outDir;
    var crdate: Date;
    if opts.useExif {
      var exif := ExifCreateDate(env, srcpath);
      match exif {
        case Failure(e) =>
          return Failure(e);
        case Success(Some(d)) =>
          crdate := d;
        case Success(None) =>
          var fs := FsCreateDate(env, srcpath);
          if fs.Failure? {
            return Failure(fs.error);
          }
          crdate := fs.value;
      }
    } else {
      var fs := FsCreateDate(env, srcpath);
      if fs.Failure? {
        return Failure(fs.error);
      }
      crdate := fs.value;
    }
    pdst := Push(pdst, IntToDecimal(crdate.year));
    pdst := Push(pdst, NatToDecimal(crdate.month));
    var srcName := FileName(srcpath);
    if srcName.None? {
      return Failure(Fatal(BadFileName, srcpath));
    }
    pdst := Push(pdst, srcName.value);
    r := Success(pdst);
  }

  /** The year and month directories are named by the unpadded decimal date. */
  lemma MonthDirShape(outdir: string, d: Date)
    ensures FileName(MonthDir(outdir, d)) == Some(NatToDecimal(d.month))
    ensures Parent(MonthDir(outdir, d)) == Some(YearDir(outdir, d))
    ensures FileName(YearDir(outdir, d)) == Some(IntToDecimal(d.year))
    ensures DecimalValue(NatToDecimal(d.month)) == d.month
    ensures ParseInt(IntToDecimal(d.year)) == d.year
  {
    var y := IntToDecimal(d.year);
    var m := NatToDecimal(d.month);
    assert y[0] != '.';
    assert m[0] != '.';
    FileNameOfPush(outdir, y);
    FileNameOfPush(YearDir(outdir, d), m);
    PushEndsWith(outdir, y);
    ParentOfPush(YearDir(outdir, d), m);
    NatRoundTrip(d.month);
    IntRoundTrip(d.year);
  }

  /** The month directory ends in a digit, so a file pushed onto it pops back off. */
  lemma MonthDirPlain(outdir: string, d: Date)
    ensures |MonthDir(outdir, d)| > 0
    ensures IsDigit(MonthDir(outdir, d)[|MonthDir(outdir, d)| - 1])
  {
    PushEndsWith(YearDir(outdir, d), NatToDecimal(d.month));
  }

  lemma PushEndsWith(base: string, comp: string)
    requires |comp| > 0
    ensures |Push(base, comp)| > 0 && Push(base, comp)[|Push(base, comp)| - 1] == comp[|comp| - 1]
  {
  }

  // ---------------------------------------------------------------------
  // Deconfliction

  /** `format!("{}-{}{}", fname, fidx, ext)`: the bare name tried for index `n`. */
  function BareName(stem: string, n: nat, ext: string): string {
    stem + "-" + NatToDecimal(n) + ext
  }

  /** `file_stem`, or "" when the destination has no file name. */
  function StemPart(pdst: string): string {
    match FileName(pdst)
    case Some(name) => StemOfName(name)
    case None => ""
  }

  /** `"." + extension`, or "" when the destination has none. */
  function ExtPart(pdst: string): string {
    match FileName(pdst)
    case Some(name) => ExtOfName(name)
    case None => ""
  }

  /** The two parts are the matches on `file_stem` and `extension` of lines 161-168. */
  lemma PartsOfPath(pdst: string)
    ensures StemPart(pdst) == match FileStem(pdst) case Some(st) => st case None => ""
    ensures ExtPart(pdst) == match Extension(pdst) case Some(e) => "." + e case None => ""
  {
  }

  /** The renamed destination: the clashing one popped, the bare name pushed. */
  function Renamed(pdst: string, n: nat): string {
    Push(Pop(pdst), BareName(StemPart(pdst), n, ExtPart(pdst)))
  }

  lemma BareNameInjective(stem: string, ext: string, a: nat, b: nat)
    requires BareName(stem, a, ext) == BareName(stem, b, ext)
    ensures a == b
  {
    var da, db := NatToDecimal(a), NatToDecimal(b);
    var s := BareName(stem, a, ext);
    assert |da| == |db|;
    assert s == (stem + "-") + da + ext;
    assert BareName(stem, b, ext) == (stem + "-") + db + ext;
    assert da == s[|stem| + 1 .. |stem| + 1 + |da|];
    assert db == s[|stem| + 1 .. |stem| + 1 + |db|];
    NatToDecimalInjective(a, b);
  }

  /** The bare names tried before index `n`. */
  function Probed(stem: string, ext: string, n: nat): set<string> {
    set m | 1 <= m < n :: BareName(stem, m, ext)
  }

  lemma {:induction false} ProbedCount(stem: string, ext: string, n: nat)
    requires n >= 1
    ensures |Probed(stem, ext, n)| == n - 1
  {
    if n > 1 {
      ProbedCount(stem, ext, n - 1);
      assert Probed(stem, ext, n) == Probed(stem, ext, n - 1) + {BareName(stem, n - 1, ext)};
      forall m | 1 <= m < n - 1
        ensures BareName(stem, m, ext) != BareName(stem, n - 1, ext)
      {
        if BareName(stem, m, ext) == BareName(stem, n - 1, ext) {
          BareNameInjective(stem, ext, m, n - 1);
        }
      }
      assert BareName(stem, n - 1, ext) !in Probed(stem, ext, n - 1);
    } else {
      assert Probed(stem, ext, n) == {};
    }
  }

  /**
   * The probe can only find taken names as long as `outpaths` lasts: every
   * index tried before `n` names a distinct member of it.
   */
  lemma ProbeBound(outpaths: set<string>, stem: string, ext: string, n: nat)
    requires n >= 1
    requires forall m | 1 <= m < n :: BareName(stem, m, ext) in outpaths
    ensures n - 1 <= |outpaths|
  {
    ProbedCount(stem, ext, n);
    SubsetCardinality(Probed(stem, ext, n), outpaths);
  }

  lemma {:induction false} SubsetCardinality<T>(a: set<T>, b: set<T>)
    requires a <= b
    ensures |a| <= |b|
    decreases a
  {
    if a != {} {
      var x :| x in a;
      SubsetCardinality(a - {x}, b - {x});
    }
  }

  /** The probing loop of `checked_add_to_copylist`, as a function. */
  function FirstFree(outpaths: set<string>, stem: string, ext: string, n: nat): (k: nat)
    requires n >= 1
    requires forall m | 1 <= m < n :: BareName(stem, m, ext) in outpaths
    ensures n <= k && BareName(stem, k, ext) !in outpaths
    ensures forall m | n <= m < k :: BareName(stem, m, ext) in outpaths
    decreases |outpaths| + 1 - n
  {
    if BareName(stem, n, ext) !in outpaths then n
    else
      ProbeBound(outpaths, stem, ext, n + 1);
      FirstFree(outpaths, stem, ext, n + 1)
  }

  /**
   * The destination `checked_add_to_copylist` appends: the candidate when it
   * is not taken; otherwise the candidate's directory with the bare name of
   * the smallest index whose bare name is not in `outpaths`.
   */
  function Destination(outpaths: set<string>, pdst: string): (d: string)
    ensures pdst !in outpaths ==> d == pdst
    ensures pdst in outpaths ==>
      exists k: nat | k >= 1 ::
        && d == Renamed(pdst, k)
        && BareName(StemPart(pdst), k, ExtPart(pdst)) !in outpaths
        && forall m | 1 <= m < k :: BareName(StemPart(pdst), m, ExtPart(pdst)) in outpaths
  {
    if pdst in outpaths then Renamed(pdst, FirstFree(outpaths, StemPart(pdst), ExtPart(pdst), 1))
    else pdst
  }

  /**
   * `checked_add_to_copylist`: appends one pair to `clist`. A new destination
   * is also added to `outpaths`; a renamed one is not.
   */
  method CheckedAddToCopyList(clist: CopyList, outpaths: set<string>, src: string, pdst: string)
    returns (clist': CopyList, outpaths': set<string>)
    ensures clist' == clist + [(src, Destination(outpaths, pdst))]
    ensures pdst in outpaths ==> outpaths' == outpaths
    ensures pdst !in outpaths ==> outpaths' == outpaths + {pdst}
  {
    var dst := pdst;
    if dst in outpaths {
      var fidx: nat := 1;
      var fname := StemPart(pdst);
      var ext := ExtPart(pdst);
      var dir := Pop(pdst);
      while BareName(fname, fidx, ext) in outpaths
        invariant fidx >= 1
        invariant forall m | 1 <= m < fidx :: BareName(fname, m, ext) in outpaths
        decreases |outpaths| + 1 - fidx
      {
        ProbeBound(outpaths, fname, ext, fidx + 1);
        fidx := fidx + 1;
      }
      LeastFreeIsFirstFree(outpaths, fname, ext, fidx);
      var newname := BareName(fname, fidx, ext);
      clist' := clist + [(src, Push(dir, newname))];
      outpaths' := outpaths;
    } else {
      outpaths' := outpaths + {dst};
      clist' := clist + [(src, dst)];
    }
  }

  /** The least free index is what the probe finds. */
  lemma LeastFreeIsFirstFree(outpaths: set<string>, stem: string, ext: string, k: nat)
    requires k >= 1 && BareName(stem, k, ext) !in outpaths
    requires forall m | 1 <= m < k :: BareName(stem, m, ext) in outpaths
    ensures FirstFree(outpaths, stem, ext, 1) == k
  {
  }

  /**
   * The probe looks up a bare name, which has no '/', in a set of paths. If
   * every path in the set holds a '/', the first probe succeeds: the suffix
   * is always "-1", however many files clashed before.
   */
  lemma ProbeStopsAtOne(outpaths: set<string>, pdst: string)
    requires forall p | p in outpaths :: '/' in p
    ensures FirstFree(outpaths, StemPart(pdst), ExtPart(pdst), 1) == 1
    ensures pdst in outpaths ==> Destination(outpaths, pdst) == Renamed(pdst, 1)
  {
    var stem, ext := StemPart(pdst), ExtPart(pdst);
    match FileName(pdst) {
      case None =>
      case Some(n) => StemExtensionNoSeparator(n);
    }
    var bare := BareName(stem, 1, ext);
    assert bare == stem + "-" + "1" + ext;
    assert '/' !in bare;
    LeastFreeIsFirstFree(outpaths, stem, ext, 1);
  }

  /**
   * A file that can be stat'ed but not opened is still dated and placed when
   * EXIF is not consulted, though it has no digest.
   */
  lemma UnreadableFilePlaced(env: Env, opts: Options, dir: string, name: string)
    requires !opts.useExif && ValidName(name)
    requires Push(dir, name) in env.files && !env.files[Push(dir, name)].readable
    requires env.files[Push(dir, name)].times.created.Some?
    ensures OutPath(env, opts, Push(dir, name)) == Success(Push(MonthDir(opts.outDir, env.files[Push(dir, name)].times.created.value), name))
    ensures DigestOf(env, Push(dir, name), false) == Failure(Fatal(CannotOpen, Push(dir, name)))
  {
    FileNameOfPush(dir, name);
  }

  /** The destination of `dir/name` dated `date`: the month folder, then `name`. */
  lemma OutPathOfPush(env: Env, opts: Options, dir: string, name: string, date: Date)
    requires ValidName(name)
    requires CreateDate(env, opts.useExif, Push(dir, name)) == Success(date)
    ensures OutPath(env, opts, Push(dir, name)) == Success(Push(MonthDir(opts.outDir, date), name))
  {
    FileNameOfPush(dir, name);
  }

  /** `"." + extension` of a bare file name, or "" when it has none. */
  function ExtOfName(name: string): string {
    match ExtensionOfName(name)
    case Some(e) => "." + e
    case None => ""
  }

  /** A bare name built from a valid name is valid, and longer than that name. */
  lemma BareNameValid(name: string, n: nat)
    requires ValidName(name)
    ensures ValidName(BareName(StemOfName(name), n, ExtOfName(name)))
    ensures |BareName(StemOfName(name), n, ExtOfName(name))| > |name|
  {
    StemExtensionRejoin(name);
    StemExtensionNoSeparator(name);
    var stem, ext := StemOfName(name), ExtOfName(name);
    assert |stem| + |ext| == |name|;
    var bare := BareName(stem, n, ext);
    assert bare[|stem|] == '-';
    assert forall i | 0 <= i < |bare| :: bare[i] != '/';
  }

  /**
   * Renaming `m/name` pushes the bare name onto `m` again: the result has the
   * same parent, is named by the bare name, and differs from `m/name`.
   */
  lemma RenamedOfPush(m: string, name: string, n: nat)
    requires ValidName(name)
    requires |m| > 0 && m[|m| - 1] != '/' && m[|m| - 1] != '.'
    ensures var bare := BareName(StemOfName(name), n, ExtOfName(name));
      && Renamed(Push(m, name), n) == Push(m, bare)
      && Parent(Push(m, bare)) == Parent(Push(m, name)) == Some(m)
      && FileName(Push(m, bare)) == Some(bare)
      && Push(m, bare) != Push(m, name)
  {
    var bare := BareName(StemOfName(name), n, ExtOfName(name));
    ParentOfPush(m, name);
    FileNameOfPush(m, name);
    BareNameValid(name, n);
    FileNameOfPush(m, bare);
    ParentOfPush(m, bare);
  }

  /**
   * A renamed destination of a planned path stays in the same month folder,
   * is named by the bare name, and is never the clashing path itself.
   */
  lemma RenamedStaysBeside(env: Env, opts: Options, srcpath: string, n: nat)
    requires OutPath(env, opts, srcpath).Success?
    ensures var d := OutPath(env, opts, srcpath).value;
      && Parent(Renamed(d, n)) == Parent(d)
      && FileName(Renamed(d, n)) == Some(BareName(StemPart(d), n, ExtPart(d)))
      && Renamed(d, n) != d
  {
    var date := CreateDate(env, opts.useExif, srcpath).value;
    var name := FileName(srcpath).value;
    var m := MonthDir(opts.outDir, date);
    var d := OutPath(env, opts, srcpath).value;
    assert d == Push(m, name);
    MonthDirPlain(opts.outDir, date);
    RenamedOfPush(m, name, n);
    assert StemPart(d) == StemOfName(name) && ExtPart(d) == ExtOfName(name) by {
      FileNameOfPush(m, name);
    }
  }
}
