/**
 * The parts of Rust's `std::path` (Unix flavour) the planner relies on,
 * modelled on strings: `PathBuf::push`, `PathBuf::pop` (through
 * `Path::parent`), `Path::file_name`, `Path::file_stem` and
 * `Path::extension`.
 *
 * A path is split at '/'. A leading '/' is the root and a leading "."
 * followed by '/' (or alone) is the current-directory component; together
 * they form the part before the body. Inside the body, empty pieces and "."
 * pieces are not components and are skipped when reading from the back.
 */
module RustPath {
  import opened Types

  /** Length of the part before the body: the root, or a leading ".". */
  function BodyStart(p: string): (n: nat)
    ensures n <= 1 && n <= |p|
    ensures n == 1 ==> p[0] == '/' || p[0] == '.'
  {
    if |p| > 0 && (p[0] == '/' || (p[0] == '.' && (|p| == 1 || p[1] == '/'))) then 1 else 0
  }

  /** Where the last piece of `p[lo..hi]` starts: just past its last '/', or `lo`. */
  function PieceStart(p: string, lo: nat, hi: nat): (k: nat)
    requires lo <= hi <= |p|
    ensures lo <= k <= hi
    ensures forall i | k <= i < hi :: p[i] != '/'
    ensures k > lo ==> p[k - 1] == '/'
    decreases hi
  {
    if hi == lo then lo
    else if p[hi - 1] == '/' then hi
    else PieceStart(p, lo, hi - 1)
  }

  /** The piece `p[k..hi]` is "." */
  predicate IsDot(p: string, k: nat, hi: nat)
    requires k <= hi <= |p|
  {
    hi == k + 1 && p[k] == '.'
  }

  /**
   * Where `p[..hi]` ends once trailing pieces that are not components (empty
   * or ".") are dropped, never reaching into the part before the body
   * (`Components::trim_right`).
   */
  function TrimEnd(p: string, lo: nat, hi: nat): (e: nat)
    requires lo <= hi <= |p|
    ensures lo <= e <= hi
    ensures e > lo ==> PieceStart(p, lo, e) < e && !IsDot(p, PieceStart(p, lo, e), e)
    decreases hi
  {
    if hi == lo then lo
    else
      var k := PieceStart(p, lo, hi);
      if k == hi || IsDot(p, k, hi) then TrimEnd(p, lo, if k > lo then k - 1 else k)
      else hi
  }

  /** `Path::file_name`: the last component, when it is a normal one. */
  function FileName(p: string): (r: Option<string>)
    ensures r.Some? ==> ValidName(r.value)
  {
    var lo := BodyStart(p);
    var e := TrimEnd(p, lo, |p|);
    if e > lo then
      var k := PieceStart(p, lo, e);
      if e == k + 2 && p[k] == '.' && p[k + 1] == '.' then None else Some(p[k..e])
    else None
  }

  /** A normal path component: what `file_name` can return. */
  predicate ValidName(n: string) {
    |n| > 0 && n != "." && n != ".." && forall i | 0 <= i < |n| :: n[i] != '/'
  }

  /** `Path::parent`: the path without its last component, when it has one. */
  function Parent(p: string): (r: Option<string>)
    ensures r.Some? ==> |r.value| < |p| && r.value == p[..|r.value|]
  {
    var lo := BodyStart(p);
    var e := TrimEnd(p, lo, |p|);
    if e > lo then
      var k := PieceStart(p, lo, e);
      Some(p[..TrimEnd(p, lo, if k > lo then k - 1 else k)])
    else if lo == 1 && p[0] == '.' then Some("")
    else None
  }

  /** `PathBuf::pop`: truncate to the parent, or leave the path alone. */
  function Pop(p: string): (r: string)
    ensures |r| <= |p| && r == p[..|r|]
    ensures Parent(p).None? ==> r == p
    ensures Parent(p).Some? ==> |r| < |p|
  {
    match Parent(p)
    case Some(q) => q
    case None => p
  }

  /**
   * `PathBuf::push`: an absolute path replaces the buffer; otherwise a '/'
   * is added first when the buffer is non-empty and does not end in one.
   */
  function Push(base: string, comp: string): (r: string)
    ensures |comp| > 0 && comp[0] == '/' ==> r == comp
    ensures |comp| <= |r| <= |base| + 1 + |comp|
  {
    if |comp| > 0 && comp[0] == '/' then comp
    else if |base| > 0 && base[|base| - 1] != '/' then base + "/" + comp
    else base + comp
  }

  /** Index of the last '.' of `s`, or -1. */
  function LastDot(s: string): (i: int)
    ensures -1 <= i < |s|
    ensures i >= 0 ==> s[i] == '.'
    ensures forall j | i < j < |s| :: s[j] != '.'
  {
    if s == [] then -1
    else if s[|s| - 1] == '.' then |s| - 1
    else LastDot(s[..|s| - 1])
  }

  /**
   * `rsplit_file_at_dot` on a file name: the name is split at its last dot,
   * unless that dot is its first character (".bashrc" has no extension).
   */
  function StemOfName(name: string): string {
    var i := LastDot(name);
    if i <= 0 then name else name[..i]
  }

  function ExtensionOfName(name: string): Option<string> {
    var i := LastDot(name);
    if i <= 0 then None else Some(name[i + 1..])
  }

  /** `Path::file_stem`: a non-empty prefix of the file name. */
  function FileStem(p: string): (r: Option<string>)
    ensures r.Some? <==> FileName(p).Some?
    ensures r.Some? ==> 0 < |r.value| <= |FileName(p).value| && r.value == FileName(p).value[..|r.value|]
  {
    match FileName(p)
    case None => None
    case Some(n) => Some(StemOfName(n))
  }

  /** `Path::extension`: what follows the file name's last dot, never holding a dot. */
  function Extension(p: string): (r: Option<string>)
    ensures r.Some? ==> FileName(p).Some? && |r.value| < |FileName(p).value|
    ensures r.Some? ==> forall j | 0 <= j < |r.value| :: r.value[j] != '.'
    ensures r.Some? ==> FileName(p).value[|FileName(p).value| - |r.value|..] == r.value
  {
    match FileName(p)
    case None => None
    case Some(n) => ExtensionOfName(n)
  }

  // ---------------------------------------------------------------------
  // Properties

  /** Splitting a name into stem and extension loses nothing. */
  lemma StemExtensionRejoin(name: string)
    ensures ExtensionOfName(name).None? ==> StemOfName(name) == name
    ensures ExtensionOfName(name).Some? ==>
      StemOfName(name) + "." + ExtensionOfName(name).value == name
      && |StemOfName(name)| > 0
      && forall j | 0 <= j < |ExtensionOfName(name).value| :: ExtensionOfName(name).value[j] != '.'
  {
    var i := LastDot(name);
    if i > 0 {
      assert name == name[..i] + "." + name[i + 1..];
    }
  }

  /** Stem and extension of a name never hold a separator. */
  lemma StemExtensionNoSeparator(name: string)
    requires forall i | 0 <= i < |name| :: name[i] != '/'
    ensures forall i | 0 <= i < |StemOfName(name)| :: StemOfName(name)[i] != '/'
    ensures ExtensionOfName(name).Some? ==>
      forall i | 0 <= i < |ExtensionOfName(name).value| :: ExtensionOfName(name).value[i] != '/'
  {
  }

  /** Pushing a normal component onto a path makes it the path's file name. */
  lemma FileNameOfPush(d: string, n: string)
    requires ValidName(n)
    ensures FileName(Push(d, n)) == Some(n)
  {
    var p := Push(d, n);
    var k := |p| - |n|;
    assert p == p[..k] + n;
    assert p[k..] == n;
    assert k > 0 ==> p[k - 1] == '/';
    var lo := BodyStart(p);
    assert lo <= k by {
      if k == 0 {
        assert p == n;
      }
    }
    PieceStartAfterSeparator(p, lo, |p|, k);
    FileNameOfLastPiece(p, k);
  }

  /** A last piece that is a normal component is the file name. */
  lemma FileNameOfLastPiece(p: string, k: nat)
    requires BodyStart(p) <= k < |p|
    requires PieceStart(p, BodyStart(p), |p|) == k
    requires ValidName(p[k..])
    ensures FileName(p) == Some(p[k..])
  {
    var n := p[k..];
    assert n[0] == p[k] && (|n| >= 2 ==> n[1] == p[k + 1]);
    assert |n| == 1 ==> n == [n[0]];
    assert |n| == 2 ==> n == [n[0], n[1]];
    assert !IsDot(p, k, |p|);
    assert TrimEnd(p, BodyStart(p), |p|) == |p|;
    assert p[k..|p|] == n;
  }

  /**
   * The last piece of `p[lo..hi]` starts at `k` when `p[k..hi]` holds no
   * separator and `k` is at `lo` or just after one.
   */
  lemma {:induction false} PieceStartAfterSeparator(p: string, lo: nat, hi: nat, k: nat)
    requires lo <= k <= hi <= |p|
    requires forall i | k <= i < hi :: p[i] != '/'
    requires k > lo ==> p[k - 1] == '/'
    ensures PieceStart(p, lo, hi) == k
    decreases hi
  {
    if hi > k {
      PieceStartAfterSeparator(p, lo, hi - 1, k);
    }
  }

  /**
   * Popping a pushed component gives back the directory, when the directory
   * ends in an ordinary character (neither '/' nor '.').
   */
  lemma ParentOfPush(d: string, n: string)
    requires ValidName(n)
    requires |d| > 0 && d[|d| - 1] != '/' && d[|d| - 1] != '.'
    ensures Parent(Push(d, n)) == Some(d)
    ensures Pop(Push(d, n)) == d
  {
    var p := Push(d, n);
    assert p == d + "/" + n;
    var lo := BodyStart(p);
    assert p[0] == d[0];
    PieceStartAfterSeparator(p, lo, |p|, |d| + 1);
    assert TrimEnd(p, lo, |p|) == |p|;
    assert lo < |d| by {
      if |d| == 1 {
        assert p[1] == '/';
      }
    }
    TrimEndOfPlainEnd(p, lo, |d|);
    assert p[..|d|] == d;
  }

  /** A prefix whose last character is neither '/' nor '.' has nothing to trim. */
  lemma TrimEndOfPlainEnd(p: string, lo: nat, hi: nat)
    requires lo < hi <= |p|
    requires p[hi - 1] != '/' && p[hi - 1] != '.'
    ensures TrimEnd(p, lo, hi) == hi
  {
  }

  /**
   * A relative component is appended: the buffer stays a prefix, the
   * component ends the result, and at most one separator comes between.
   */
  lemma PushExtends(base: string, comp: string)
    requires !(|comp| > 0 && comp[0] == '/')
    ensures var r := Push(base, comp);
      && r[..|base|] == base
      && r[|r| - |comp|..] == comp
      && (|r| == |base| + |comp| || (|r| == |base| + 1 + |comp| && r[|base|] == '/'))
  {
  }

  /** A component pushed onto a non-empty path is separated from it by '/'. */
  lemma PushHasSeparator(d: string, n: string)
    requires |d| > 0 && ValidName(n)
    ensures exists i :: 0 <= i < |Push(d, n)| && Push(d, n)[i] == '/'
  {
    var p := Push(d, n);
    if d[|d| - 1] != '/' {
      assert p[|d|] == '/';
    } else {
      assert p[|d| - 1] == '/';
    }
  }
}
