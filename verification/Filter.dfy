/**
 The filter chain hash -> compress -> encrypt -> sink of internal/filter/filter.go. The two
 codecs are streaming encoders given by what they have emitted after any input; the sink may
 take any part of a write and fail.
 */
module Filter {
  import opened Common
  import opened Text

  /** emit: output after this input so far; finish: the whole output once closed. */
  datatype Codec = Codec(emit: Bytes -> Bytes, finish: Bytes -> Bytes)

  ghost predicate Streams(c: Codec) {
    && (forall p, q :: p <= q ==> c.emit(p) <= c.emit(q))
    && (forall p :: c.emit(p) <= c.finish(p))
  }

  lemma {:induction false} PrefixRest(e: Bytes, f: Bytes)
    requires e <= f
    ensures e + f[|e|..] == f
  {
  }

  ghost predicate Inverse(c: Codec, read: Bytes -> Option<Bytes>) { forall p :: read(c.finish(p)) == Some(p) }

  /** The storage-side writer: content is what it has accepted. */
  class Sink {
    var content: Bytes
    var closedClean: bool

    constructor ()
      ensures content == [] && !closedClean
    {
      content, closedClean := [], false;
    }

    method Write(p: Bytes) returns (n: nat, ok: bool)
      modifies this`content
      ensures n <= |p| && (ok ==> n == |p|) && content == old(content) + p[..n]
    {
      ok := *;
      var k: int := *;
      n := if !ok && 0 <= k <= |p| then k else |p|;
      content := content + p[..n];
    }

    method Close() returns (ok: bool)
      modifies this`closedClean
      ensures ok ==> closedClean
    {
      ok := *;
      closedClean := ok;
    }
  }

  /** Result, filled in by Close. */
  datatype Digests = Digests(size: nat, digest: Digest, repoSize: nat, repoDigest: Digest)

  class ChainWriter {
    const comp: Codec
    const enc: Codec
    const hash: Hash
    const sink: Sink
    var hashed: Bytes    // fed to the plaintext hasher
    var compIn: Bytes    // fed to the compressor
    var encIn: Bytes     // fed to the encryptor
    var repo: Bytes      // fed to repoSink's hasher
    var failed: bool     // history: some call of this chain returned an error
    var closed: bool
    var result: Option<Digests>

    /** The storage digest always covers exactly what the sink took; until an error, the stages are in step. */
    ghost predicate Valid()
      reads this, sink
    {
      && Streams(comp) && Streams(enc)
      && repo == sink.content
      && (!closed && !failed ==> hashed == compIn && encIn == comp.emit(compIn) && repo == enc.emit(encIn))
    }

    /** Wrap: an encoder may write a header as soon as it exists; a sink that refuses it fails the chain. */
    constructor (comp: Codec, enc: Codec, hash: Hash, sink: Sink)
      requires Streams(comp) && Streams(enc) && sink.content == []
      modifies sink`content
      ensures Valid() && !closed && hashed == [] && this.sink == sink
      ensures this.comp == comp && this.enc == enc && this.hash == hash
    {
      this.comp, this.enc, this.hash, this.sink := comp, enc, hash, sink;
      hashed, compIn, encIn, repo := [], [], comp.emit([]), [];
      failed, closed, result := false, false, None;
      new;
      var ok := RepoWrite(enc.emit(encIn));
      failed := !ok;
    }

    /** repoSink.Write: hash and count what the sink says it took. */
    method RepoWrite(p: Bytes) returns (ok: bool)
      requires repo == sink.content
      modifies this`repo, sink`content
      ensures repo == sink.content
      ensures ok ==> repo == old(repo) + p
    {
      var n: nat;
      n, ok := sink.Write(p);
      repo := repo + p[..n];
    }

    method EncWrite(p: Bytes) returns (ok: bool)
      requires repo == sink.content && Streams(enc)
      modifies this`encIn, this`repo, sink`content
      ensures repo == sink.content && encIn == old(encIn) + p
      ensures ok && old(repo) == enc.emit(old(encIn)) ==> repo == enc.emit(encIn)
    {
      var before := enc.emit(encIn);
      encIn := encIn + p;
      assert before <= enc.emit(encIn);
      ok := RepoWrite(enc.emit(encIn)[|before|..]);
    }

    /** The compressor passes on what it emits; on error the hasher's count is anyone's guess. */
    method Write(p: Bytes) returns (ok: bool)
      requires Valid()
      modifies this, sink`content
      ensures Valid() && closed == old(closed)
      ensures closed ==> !ok && hashed == old(hashed) && sink.content == old(sink.content)
      ensures ok && !old(failed) ==> !failed && hashed == old(hashed) + p
      ensures !ok && !closed ==> failed
    {
      if closed { return false; }
      var before := comp.emit(compIn);
      compIn := compIn + p;
      assert before <= comp.emit(compIn);
      ok := EncWrite(comp.emit(compIn)[|before|..]);
      if ok {
        hashed := hashed + p;
      } else {
        var k: int := *;
        hashed := if 0 <= k <= |p| then hashed + p[..k] else hashed;
        failed := true;
      }
    }

    /** Closing the compressor, then the encryptor: each emits what it still holds. */
    method FlushStages() returns (ok: bool)
      requires repo == sink.content && Streams(comp) && Streams(enc)
      modifies this`encIn, this`repo, sink`content
      ensures repo == sink.content
      ensures ok && old(encIn) == comp.emit(compIn) && old(repo) == enc.emit(old(encIn)) ==>
                repo == enc.finish(comp.finish(compIn))
    {
      PrefixRest(comp.emit(compIn), comp.finish(compIn));
      ok := EncWrite(comp.finish(compIn)[|comp.emit(compIn)|..]);
      if !ok { return; }
      PrefixRest(enc.emit(encIn), enc.finish(encIn));
      ok := RepoWrite(enc.finish(encIn)[|enc.emit(encIn)|..]);
    }

    /** Capture the plaintext digest, flush the stages, capture the storage digest, close the sink. */
    method Close() returns (ok: bool)
      requires Valid()
      modifies this, sink
      ensures Valid() && closed && hashed == old(hashed)
      ensures old(closed) ==> ok && sink.content == old(sink.content) && result == old(result)
      ensures ok && !old(closed) && !old(failed) ==>
        && sink.closedClean && sink.content == enc.finish(comp.finish(hashed))
        && result == Some(Digests(|hashed|, hash(hashed), |sink.content|, hash(sink.content)))
    {
      if closed { return true; }
      closed := true;
      ok := FlushStages();
      if !ok {
        failed := true;
        var _ := sink.Close();
        return;
      }
      result := Some(Digests(|hashed|, hash(hashed), |repo|, hash(repo)));
      ok := sink.Close();
      failed := failed || !ok;
    }
  }

  /** Reading back: decrypt, then decompress. */
  function Unwrap(decrypt: Bytes -> Option<Bytes>, decompress: Bytes -> Option<Bytes>, w: Bytes): Option<Bytes> {
    match decrypt(w)
    case None => None
    case Some(c) => decompress(c)
  }

  /** The reverse chain recovers the plaintext, whatever compressor and encryptor stand in the chain. */
  lemma {:induction false} UnwrapInvertsWrap(comp: Codec, enc: Codec, decompress: Bytes -> Option<Bytes>, decrypt: Bytes -> Option<Bytes>, plain: Bytes)
    requires Inverse(comp, decompress) && Inverse(enc, decrypt)
    ensures Unwrap(decrypt, decompress, enc.finish(comp.finish(plain))) == Some(plain)
  {
    assert decrypt(enc.finish(comp.finish(plain))) == Some(comp.finish(plain));
  }

  /** One file through the chain in any chunking: on success both digests and the stored bytes belong together. */
  method CopyThrough(comp: Codec, enc: Codec, hash: Hash, decompress: Bytes -> Option<Bytes>, decrypt: Bytes -> Option<Bytes>,
                     chunks: seq<Bytes>) returns (r: Option<Digests>, stored: Bytes)
    requires Streams(comp) && Streams(enc)
    requires Inverse(comp, decompress) && Inverse(enc, decrypt)
    ensures r.Some? ==>
      && Unwrap(decrypt, decompress, stored) == Some(Flatten(chunks))
      && r.value == Digests(|Flatten(chunks)|, hash(Flatten(chunks)), |stored|, hash(stored))
  {
    var sink := new Sink();
    var w := new ChainWriter(comp, enc, hash, sink);
    if w.failed { return None, sink.content; }
    var ok := Feed(w, chunks);
    if !ok {
      var _ := w.Close();
      return None, sink.content;
    }
    ok := w.Close();
    stored := sink.content;
    r := if ok then w.result else None;
    UnwrapInvertsWrap(comp, enc, decompress, decrypt, w.hashed);
  }

  /** io.Copy into the chain. */
  method Feed(w: ChainWriter, chunks: seq<Bytes>) returns (ok: bool)
    requires w.Valid() && !w.closed && !w.failed && w.hashed == []
    modifies w, w.sink`content
    ensures w.Valid() && !w.closed
    ensures ok ==> !w.failed && w.hashed == Flatten(chunks)
  {
    for i := 0 to |chunks|
      invariant w.Valid() && !w.closed && !w.failed && w.hashed == Flatten(chunks[..i])
    {
      ok := w.Write(chunks[i]);
      if !ok { return; }
      FlattenPush(chunks[..i], chunks[i]);
      assert chunks[..i + 1] == chunks[..i] + [chunks[i]];
    }
    assert chunks[..|chunks|] == chunks;
    ok := true;
  }
}
