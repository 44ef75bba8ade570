/** The file registry: pushing an image into a directory, pulling it out again,
    and flushing what was pulled into a local store. */
module Registry {
  import opened Bits
  import opened Base
  import opened Manifests
  import opened DiskStore
  import Cas

  // ---------- signatures ----------

  datatype Signature = Signature(algorithm: string, manifestDigest: string, signature: string, bundle: Option<string>)

  const ALGORITHM: string := "hmac-sha256"

  /** The text "processfork-default-self-sign-key.v1" in bytes. */
  const DEFAULT_KEY: Bytes := [
    112, 114, 111, 99, 101, 115, 115, 102, 111, 114, 107, 45,
    100, 101, 102, 97, 117, 108, 116, 45, 115, 101, 108, 102,
    45, 115, 105, 103, 110, 45, 107, 101, 121, 46, 118, 49]

  /** The key that counts: the configured one, or the built-in default. */
  function EffectiveKey(key: Option<Bytes>): Bytes { if key.Some? then key.value else DEFAULT_KEY }

  function Sign(p: Prim, bytes: Bytes, key: Option<Bytes>): Signature {
    Signature(ALGORITHM, Hash(p, bytes), HexEncode(p.hmac(EffectiveKey(key), bytes)), None)
  }

  predicate SignatureHolds(p: Prim, bytes: Bytes, sig: Signature, key: Option<Bytes>) {
    && sig.algorithm == ALGORITHM
    && sig.manifestDigest == Hash(p, bytes)
    && sig.signature == HexEncode(p.hmac(EffectiveKey(key), bytes))
  }

  // ---------- the directory ----------

  /** The signature file: missing, cut off in the middle, or whole. */
  datatype SignatureFile = Absent | Torn | Whole(signature: Signature)

  datatype DirState = DirState(manifest: Option<Bytes>, signature: SignatureFile, files: BlobFiles)

  /** How a push ends. Files are written in place, so a push that is killed or
      runs out of space inside a write leaves a first part of that file behind;
      `InBlob` says which blob, and what part of it if it was begun at all. */
  datatype End = Completes | InManifest(n: nat) | InSignature | InBlob(index: nat, part: Option<nat>)

  function FirstPart(b: Bytes, n: nat): Bytes { if n <= |b| then b[..n] else b }

  datatype Mirror = Mirror(files: BlobFiles, ok: bool)

  /** `copy_blob`: a file that is there already is not looked at. */
  function CopyOne(p: Prim, blobs: Cas.Blobs, files: BlobFiles, d: Digest): Mirror {
    if |HexPart(d)| < 2 then Mirror(files, false)
    else if PathOf(d) in files then Mirror(files, true)
    else if d !in blobs then Mirror(files, false)
    else Mirror(files[PathOf(d) := p.zstd(blobs[d])], true)
  }

  /** The same, cut off. */
  function CutOne(p: Prim, blobs: Cas.Blobs, files: BlobFiles, d: Digest, part: Option<nat>): Mirror {
    if |HexPart(d)| < 2 || PathOf(d) in files || d !in blobs || part.None? then Mirror(files, false)
    else Mirror(files[PathOf(d) := FirstPart(p.zstd(blobs[d]), part.value)], false)
  }

  function CopyNext(p: Prim, blobs: Cas.Blobs, files: BlobFiles, d: Digest, i: nat, end: End): Mirror {
    if end.InBlob? && end.index == i then CutOne(p, blobs, files, d, end.part) else CopyOne(p, blobs, files, d)
  }

  function CopyAll(p: Prim, blobs: Cas.Blobs, files: BlobFiles, ds: seq<Digest>, end: End): Mirror {
    if ds == [] then Mirror(files, true)
    else
      var n := |ds| - 1;
      var r := CopyAll(p, blobs, files, ds[..n], end);
      if r.ok then CopyNext(p, blobs, r.files, ds[n], n, end) else r
  }

  /** One push: who signs, what is pushed, what the source's `get` returns, and
      how it ends. */
  datatype PushCall = PushCall(key: Option<Bytes>, manifest: Manifest, blobs: Cas.Blobs, end: End)

  function Mirrored(p: Prim, files: BlobFiles, call: PushCall): Mirror {
    CopyAll(p, call.blobs, files, Firsts(AllRefs(p, call.blobs, call.manifest)), call.end)
  }

  function Pushed(p: Prim, c: ManifestCodec, s: DirState, call: PushCall): DirState {
    var bytes := c.encode(call.manifest);
    match call.end
    case InManifest(n) => s.(manifest := Some(FirstPart(bytes, n)))
    case InSignature => s.(manifest := Some(bytes), signature := Torn)
    case _ => DirState(Some(bytes), Whole(Sign(p, bytes, call.key)), Mirrored(p, s.files, call).files)
  }

  predicate PushSucceeds(p: Prim, s: DirState, call: PushCall) {
    !call.end.InManifest? && !call.end.InSignature? && Mirrored(p, s.files, call).ok
  }

  datatype LayerSet = LayerSet(manifest: Manifest, blobs: seq<(Digest, Bytes)>)

  datatype PullError = NoManifest | NoSignature | BadSignature | BadManifest | BadBlob

  /** Every file with a digest for a name holds that digest's bytes. */
  ghost predicate Readable(p: Prim, files: BlobFiles) { forall d :: d in Named(files) ==> Fetch(p, files, d).Some? }

  /** Whether a pull succeeds, and with which manifest. */
  ghost function PullOutcome(p: Prim, c: ManifestCodec, s: DirState, key: Option<Bytes>): Result<Manifest, PullError> {
    if s.manifest.None? then Failure(NoManifest)
    else if s.signature.Absent? then Failure(NoSignature)
    else if s.signature.Torn? then Failure(BadSignature)
    else if !SignatureHolds(p, s.manifest.value, s.signature.signature, key) then Failure(BadSignature)
    else if c.decode(s.manifest.value).None? then Failure(BadManifest)
    else if !Readable(p, s.files) then Failure(BadBlob)
    else Success(c.decode(s.manifest.value).value)
  }

  /** A list of exactly the readable blobs. */
  ghost predicate ListsBlobs(p: Prim, files: BlobFiles, blobs: seq<(Digest, Bytes)>) {
    forall d, b :: (d, b) in blobs <==> d in View(p, files) && View(p, files)[d] == b
  }

  /** Exactly the bytes of the readable blobs. */
  ghost predicate Mirrors(p: Prim, files: BlobFiles, flushed: seq<Bytes>) {
    forall b :: b in flushed <==> b in View(p, files).Values
  }

  class RegistryDir {
    var manifest: Option<Bytes>
    var signature: SignatureFile
    var files: BlobFiles

    function State(): DirState
      reads this
    {
      DirState(manifest, signature, files)
    }

    constructor ()
      ensures State() == DirState(None, Absent, map[])
    {
      manifest, signature, files := None, Absent, map[];
    }

    /** Manifest and signature first, then every reachable blob. A blob that
        cannot be read ends the push, and so does a write that is cut off. */
    method Push(p: Prim, c: ManifestCodec, call: PushCall) returns (ok: bool)
      modifies this
      ensures State() == Pushed(p, c, old(State()), call)
      ensures ok == PushSucceeds(p, old(State()), call)
    {
      var bytes := c.encode(call.manifest);
      if call.end.InManifest? {
        manifest := Some(FirstPart(bytes, call.end.n));
        return false;
      }
      manifest := Some(bytes);
      if call.end.InSignature? {
        signature := Torn;
        return false;
      }
      signature := Whole(Sign(p, bytes, call.key));
      ok := CopyReachable(p, call);
    }

    method CopyReachable(p: Prim, call: PushCall) returns (ok: bool)
      modifies this`files
      ensures Mirror(files, ok) == Mirrored(p, old(files), call)
    {
      var ds := TransitiveBlobDigests(p, call.manifest, call.blobs);
      ok := CopyBlobs(p, call.blobs, ds, call.end);
    }

    method CopyBlobs(p: Prim, blobs: Cas.Blobs, ds: seq<Digest>, end: End) returns (ok: bool)
      modifies this`files
      ensures Mirror(files, ok) == CopyAll(p, blobs, old(files), ds, end)
    {
      for i := 0 to |ds|
        invariant CopyAll(p, blobs, old(files), ds[..i], end) == Mirror(files, true)
      {
        assert ds[..i + 1][..i] == ds[..i];
        var copied := CopyBlob(p, blobs, ds[i], i, end);
        if !copied {
          CopyFails(p, blobs, old(files), ds, end, i + 1);
          return false;
        }
      }
      assert ds[..|ds|] == ds;
      return true;
    }

    method CopyBlob(p: Prim, blobs: Cas.Blobs, d: Digest, i: nat, end: End) returns (ok: bool)
      modifies this`files
      ensures Mirror(files, ok) == CopyNext(p, blobs, old(files), d, i, end)
    {
      var cut := end.InBlob? && end.index == i;
      if |HexPart(d)| < 2 {
        return false;
      }
      var dest := PathOf(d);
      if dest in files {
        return !cut;
      }
      if d !in blobs || (cut && end.part.None?) {
        return false;
      }
      var compressed := p.zstd(blobs[d]);
      files := files[dest := if cut then FirstPart(compressed, end.part.value) else compressed];
      return !cut;
    }

    /** The signature is checked before the manifest is parsed; then the whole
        blob directory is mirrored, in whatever order it is listed. */
    method Pull(p: Prim, c: ManifestCodec, key: Option<Bytes>) returns (r: Result<LayerSet, PullError>)
      requires Lawful(p)
      ensures
        match PullOutcome(p, c, State(), key)
        case Failure(e) => r == Failure(e)
        case Success(m) => r.Success? && r.value.manifest == m && ListsBlobs(p, files, r.value.blobs)
    {
      if manifest.None? {
        return Failure(NoManifest);
      }
      if signature.Absent? {
        return Failure(NoSignature);
      }
      if signature.Torn? || !SignatureHolds(p, manifest.value, signature.signature, key) {
        return Failure(BadSignature);
      }
      var m := c.decode(manifest.value);
      if m.None? {
        return Failure(BadManifest);
      }
      var blobs := ReadBlobs(p);
      if blobs.None? {
        return Failure(BadBlob);
      }
      return Success(LayerSet(m.value, blobs.value));
    }

    method ReadBlobs(p: Prim) returns (r: Option<seq<(Digest, Bytes)>>)
      requires Lawful(p)
      ensures r.Some? <==> Readable(p, files)
      ensures r.Some? ==> ListsBlobs(p, files, r.value)
    {
      var blobs: seq<(Digest, Bytes)> := [];
      var rest := files.Keys;
      while rest != {}
        invariant rest <= files.Keys
        invariant ReadSoFar(p, files, rest, blobs)
      {
        var f :| f in rest;
        var d := NameDigest(f.name);
        if d.Some? {
          var bytes := Fetch(p, files, d.value);
          if bytes.None? {
            assert d.value in Named(files);
            return None;
          }
          blobs := blobs + [(d.value, bytes.value)];
        }
        rest := rest - {f};
      }
      ReadAll(p, files, blobs);
      return Some(blobs);
    }
  }

  /** The files outside `rest` have been read and found whole. */
  ghost predicate ReadSoFar(p: Prim, files: BlobFiles, rest: set<BlobFile>, blobs: seq<(Digest, Bytes)>) {
    && (forall f :: f in files && f !in rest && NameDigest(f.name).Some? ==>
          var d := NameDigest(f.name).value;
          Fetch(p, files, d).Some? && (d, Fetch(p, files, d).value) in blobs)
    && forall x :: x in blobs ==> x.0 in Named(files) && Fetch(p, files, x.0) == Some(x.1)
  }

  lemma {:induction false} ReadAll(p: Prim, files: BlobFiles, blobs: seq<(Digest, Bytes)>)
    requires Lawful(p) && ReadSoFar(p, files, {}, blobs)
    ensures Readable(p, files) && ListsBlobs(p, files, blobs)
  {
    forall d, b
      ensures (d, b) in blobs <==> d in View(p, files) && View(p, files)[d] == b
    {
      if (d, b) in blobs {
        assert (d, b).0 in Named(files) && Fetch(p, files, (d, b).0) == Some((d, b).1);
      }
      if d in View(p, files) && View(p, files)[d] == b {
        var f :| f in files && NameDigest(f.name) == Some(d);
      }
    }
  }

  lemma {:induction false} CopyFails(p: Prim, blobs: Cas.Blobs, files: BlobFiles, ds: seq<Digest>, end: End, i: nat)
    requires i <= |ds| && !CopyAll(p, blobs, files, ds[..i], end).ok
    ensures CopyAll(p, blobs, files, ds, end) == CopyAll(p, blobs, files, ds[..i], end)
    decreases |ds| - i
  {
    if i == |ds| {
      assert ds[..i] == ds;
    } else {
      assert ds[..i + 1][..i] == ds[..i];
      CopyFails(p, blobs, files, ds, end, i + 1);
    }
  }

  // ---------- `pf pull` ----------

  /** Flush what was pulled into the local store, then the manifest. A file that
      is at a digest's place already stays, whatever it holds. */
  method PullInto(p: Prim, c: ManifestCodec, dir: RegistryDir, key: Option<Bytes>, store: PfStore)
    returns (r: Option<Digest>, ghost flushed: seq<Bytes>)
    requires Lawful(p)
    modifies store
    ensures r.Some? <==> PullOutcome(p, c, dir.State(), key).Success?
    ensures r.None? ==> store.files == old(store.files) && store.markers == old(store.markers)
    ensures r.Some? ==>
      var bytes := c.encode(PullOutcome(p, c, dir.State(), key).value);
      && r.value == Of(p, bytes)
      && Mirrors(p, dir.files, flushed)
      && store.files == FilesAfterPuts(p, old(store.files), flushed + [bytes])
      && store.markers == MarkersAfterPut(p, c, old(store.markers), PullOutcome(p, c, dir.State(), key).value)
  {
    flushed := [];
    var pulled := dir.Pull(p, c, key);
    if pulled.Failure? {
      return None, flushed;
    }
    flushed := Flush(p, dir.files, pulled.value.blobs, store);
    ghost var bytes := c.encode(pulled.value.manifest);
    assert (flushed + [bytes])[..|flushed|] == flushed;
    var cid := store.PutManifest(p, c, pulled.value.manifest);
    r := Some(cid);
  }

  method Flush(p: Prim, ghost files: BlobFiles, blobs: seq<(Digest, Bytes)>, store: PfStore) returns (ghost flushed: seq<Bytes>)
    requires Lawful(p) && ListsBlobs(p, files, blobs)
    modifies store`files
    ensures Mirrors(p, files, flushed)
    ensures store.files == FilesAfterPuts(p, old(store.files), flushed)
  {
    flushed := [];
    for i := 0 to |blobs|
      invariant FirstBytes(blobs, i, flushed)
      invariant store.files == FilesAfterPuts(p, old(store.files), flushed)
    {
      ListedDigest(p, files, blobs, i);
      var d := store.Put(p, blobs[i].1);
      // the program's own check that these agree never fires
      assert d == blobs[i].0;
      FirstBytesStep(blobs, i, flushed);
      assert (flushed + [blobs[i].1])[..i] == flushed;
      flushed := flushed + [blobs[i].1];
    }
    FlushedAll(p, files, blobs, flushed);
  }

  /** The bytes of the first `n` blobs. */
  ghost predicate FirstBytes(blobs: seq<(Digest, Bytes)>, n: nat, bs: seq<Bytes>) {
    n <= |blobs| && |bs| == n && forall i :: 0 <= i < n ==> bs[i] == blobs[i].1
  }

  lemma {:induction false} FirstBytesStep(blobs: seq<(Digest, Bytes)>, n: nat, bs: seq<Bytes>)
    requires FirstBytes(blobs, n, bs) && n < |blobs|
    ensures FirstBytes(blobs, n + 1, bs + [blobs[n].1])
  {
  }

  lemma {:induction false} ListedDigest(p: Prim, files: BlobFiles, blobs: seq<(Digest, Bytes)>, i: nat)
    requires Lawful(p) && ListsBlobs(p, files, blobs) && i < |blobs|
    ensures Of(p, blobs[i].1) == blobs[i].0
  {
    assert (blobs[i].0, blobs[i].1) in blobs;
    ViewIsKeyed(p, files);
  }

  lemma {:induction false} FlushedAll(p: Prim, files: BlobFiles, blobs: seq<(Digest, Bytes)>, flushed: seq<Bytes>)
    requires ListsBlobs(p, files, blobs) && FirstBytes(blobs, |blobs|, flushed)
    ensures Mirrors(p, files, flushed)
  {
    var view := View(p, files);
    forall b
      ensures b in flushed <==> b in view.Values
    {
      if b in flushed {
        var i :| 0 <= i < |flushed| && flushed[i] == b;
        assert (blobs[i].0, blobs[i].1) in blobs;
      }
      if b in view.Values {
        var d :| d in view && view[d] == b;
        assert (d, b) in blobs;
        var i :| 0 <= i < |blobs| && blobs[i] == (d, b);
      }
    }
  }
}
