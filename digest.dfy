/**
 * `hash_file`: the content fingerprint of a file. The opened file and the
 * SHA-256 hasher are objects whose state the read loop advances; SHA-256
 * itself is the uninterpreted `Env.sha256` of all bytes fed to the hasher.
 */
module Digest {
  import opened Types
  import opened Oracles

  /** An opened file: successive `read` calls return the script's outcomes. */
  class File {
    const script: seq<ReadOutcome>
    var calls: nat

    constructor Open(script: seq<ReadOutcome>)
      ensures this.script == script && calls == 0
    {
      this.script := script;
      calls := 0;
    }

    method Read() returns (r: ReadOutcome)
      modifies this
      ensures calls == old(calls) + 1
      ensures r == ReadAt(script, old(calls))
    {
      r := ReadAt(script, calls);
      calls := calls + 1;
    }
  }

  /** `Sha256` from the `crypto` crate: the state is the bytes fed so far. */
  class Sha256 {
    const sha256: seq<byte> -> Hash
    var fed: seq<byte>

    constructor (sha256: seq<byte> -> Hash)
      ensures this.sha256 == sha256 && fed == []
    {
      this.sha256 := sha256;
      fed := [];
    }

    method Input(data: seq<byte>)
      modifies this
      ensures fed == old(fed) + data
    {
      fed := fed + data;
    }

    method Result() returns (out: Hash)
      ensures out == sha256(fed)
    {
      out := sha256(fed);
    }
  }

  /** Bytes fed in full mode: every read up to the first empty read or error. */
  function ReadAll(script: seq<ReadOutcome>): seq<byte> {
    if script == [] then []
    else match script[0]
      case ReadError => []
      case Bytes(d) => if d == [] then [] else d + ReadAll(script[1..])
  }

  /** Bytes fed in fast mode: the first read alone, nothing if it fails. */
  function FirstRead(script: seq<ReadOutcome>): seq<byte> {
    match ReadAt(script, 0)
    case ReadError => []
    case Bytes(d) => d
  }

  function Fed(script: seq<ReadOutcome>, fastHash: bool): seq<byte> {
    if fastHash then FirstRead(script) else ReadAll(script)
  }

  /**
   * What `hash_file(fname, fast_hash)` returns, or the panic of `File::open`:
   * a digest exactly when the file can be opened.
   */
  function DigestOf(env: Env, fname: string, fastHash: bool): (r: Result<Hash>)
    ensures r.Success? <==> Openable(env, fname)
    ensures r.Failure? ==> r.error == Fatal(CannotOpen, fname)
  {
    if !Openable(env, fname) then Failure(Fatal(CannotOpen, fname))
    else Success(env.sha256(Fed(env.files[fname].script, fastHash)))
  }

  /** The loop of full mode: feed every read until an empty read or an error. */
  method FeedToEnd(f: File, h: Sha256)
    requires f.calls == 0 && h.fed == []
    modifies f, h
    ensures h.fed == ReadAll(f.script)
  {
    while true
      invariant f.calls <= |f.script|
      invariant h.fed + ReadAll(f.script[f.calls..]) == ReadAll(f.script)
      decreases |f.script| - f.calls
    {
      ghost var before := f.calls;
      var res := f.Read();
      ReadAllAt(f.script, before);
      if res.ReadError? || res.data == [] {
        break;
      }
      h.Input(res.data);
    }
  }

  method HashFile(env: Env, fname: string, fastHash: bool) returns (r: Result<Hash>)
    ensures !Openable(env, fname) ==> r == Failure(Fatal(CannotOpen, fname))
    ensures Openable(env, fname) ==> r.Success?
    ensures Openable(env, fname) && fastHash ==> r.value == env.sha256(FirstRead(env.files[fname].script))
    ensures Openable(env, fname) && !fastHash ==> r.value == env.sha256(ReadAll(env.files[fname].script))
  {
    if !Openable(env, fname) {
      return Failure(Fatal(CannotOpen, fname));
    }
    var f := new File.Open(env.files[fname].script);
    var h := new Sha256(env.sha256);
    if fastHash {
      var res := f.Read();
      if res.Bytes? {
        h.Input(res.data);
      }
      assert h.fed == FirstRead(env.files[fname].script);
    } else {
      FeedToEnd(f, h);
    }
    var out := h.Result();
    r := Success(out);
  }

  /** What full mode feeds from the read with index `i` on. */
  lemma ReadAllAt(script: seq<ReadOutcome>, i: nat)
    requires i <= |script|
    ensures ReadAt(script, i).ReadError? || ReadAt(script, i).data == [] ==> ReadAll(script[i..]) == []
    ensures ReadAt(script, i).Bytes? && ReadAt(script, i).data != [] ==>
      i < |script| && ReadAll(script[i..]) == script[i].data + ReadAll(script[i + 1..])
  {
    if i < |script| {
      assert script[i..][0] == script[i] && script[i..][1..] == script[i + 1..];
    }
  }

  // ---------------------------------------------------------------------
  // Reading a file's whole content

  /**
   * The reads return the bytes of `content` in order, in chunks of any size,
   * and then report end of file, with no error on the way.
   */
  predicate Delivers(script: seq<ReadOutcome>, content: seq<byte>) {
    if script == [] then content == []
    else match script[0]
      case ReadError => false
      case Bytes(d) =>
        if d == [] then content == []
        else |d| <= |content| && content[..|d|] == d && Delivers(script[1..], content[|d|..])
  }

  /** Full mode feeds exactly the content of a file read without error. */
  lemma {:induction false} FullModeFeedsContent(script: seq<ReadOutcome>, content: seq<byte>)
    requires Delivers(script, content)
    ensures ReadAll(script) == content
    decreases |script|
  {
    if script != [] && script[0].Bytes? && script[0].data != [] {
      var d := script[0].data;
      FullModeFeedsContent(script[1..], content[|d|..]);
      assert content == d + content[|d|..];
    }
  }

  /** Fast mode feeds a prefix of the content, no longer than the buffer. */
  lemma FastModeFeedsPrefix(script: seq<ReadOutcome>, content: seq<byte>)
    requires Delivers(script, content)
    ensures |FirstRead(script)| <= HASH_BUF_SIZE
    ensures FirstRead(script) == content[..|FirstRead(script)|]
    ensures content != [] ==> FirstRead(script) != []
  {
  }

  /** The full digest depends on the content alone, not on how the reads split it. */
  lemma FullDigestIgnoresChunking(env: Env, p: string, q: string, content: seq<byte>)
    requires Openable(env, p) && Openable(env, q)
    requires Delivers(env.files[p].script, content) && Delivers(env.files[q].script, content)
    ensures DigestOf(env, p, false) == DigestOf(env, q, false)
  {
    FullModeFeedsContent(env.files[p].script, content);
    FullModeFeedsContent(env.files[q].script, content);
  }

  /**
   * Two files whose first reads agree share a fast digest even when their
   * contents differ; their full digests then differ unless SHA-256 collides.
   */
  lemma FastDigestMayCollide(env: Env, p: string, q: string, cp: seq<byte>, cq: seq<byte>)
    requires Openable(env, p) && Openable(env, q)
    requires Delivers(env.files[p].script, cp) && Delivers(env.files[q].script, cq)
    requires FirstRead(env.files[p].script) == FirstRead(env.files[q].script)
    requires env.sha256(cp) != env.sha256(cq)
    ensures DigestOf(env, p, true) == DigestOf(env, q, true)
    ensures DigestOf(env, p, false) != DigestOf(env, q, false)
  {
    FullModeFeedsContent(env.files[p].script, cp);
    FullModeFeedsContent(env.files[q].script, cq);
  }

  /**
   * A full digest is the SHA-256 of the file's content, however the reads
   * split it; a fast digest is the SHA-256 of a prefix of that content no
   * longer than the buffer.
   */
  lemma DigestOfContent(env: Env, fname: string, content: seq<byte>)
    requires Openable(env, fname) && Delivers(env.files[fname].script, content)
    ensures DigestOf(env, fname, false) == Success(env.sha256(content))
    ensures exists k | 0 <= k <= |content| && k <= HASH_BUF_SIZE ::
      DigestOf(env, fname, true) == Success(env.sha256(content[..k]))
  {
    var script := env.files[fname].script;
    FullModeFeedsContent(script, content);
    FastModeFeedsPrefix(script, content);
    var k := |FirstRead(script)|;
    assert DigestOf(env, fname, true) == Success(env.sha256(content[..k]));
  }
}
