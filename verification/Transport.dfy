/** What survives a trip through a file registry. */
module Transport {
  // After any history of pushes, cut off in the middle of a file or not, and for
  // any receiving store, damaged or not.

  import opened Bits
  import opened Base
  import opened Manifests
  import opened DiskStore
  import opened Registry
  import FsRestore
  import Cache
  import CacheLaws
  import GcLaws
  import Cas

  /** The directory after a sequence of pushes to an empty one. */
  function After(p: Prim, c: ManifestCodec, calls: seq<PushCall>): DirState {
    if calls == [] then DirState(None, Absent, map[])
    else Pushed(p, c, After(p, c, calls[..|calls| - 1]), calls[|calls| - 1])
  }

  ghost predicate Sources(p: Prim, calls: seq<PushCall>) {
    forall i :: 0 <= i < |calls| ==> Cas.Keyed(p, calls[i].blobs)
  }

  // ---------- files at their own places ----------

  predicate PlaceOf(f: BlobFile, d: Digest) { |HexPart(d)| >= 2 && f == PathOf(d) }

  /** Every file named after a digest is at that digest's place. */
  ghost predicate OwnPlaces(files: BlobFiles) {
    forall f :: f in files && NameDigest(f.name).Some? ==> PlaceOf(f, NameDigest(f.name).value)
  }

  lemma {:induction false} NamedIsPlaced(files: BlobFiles, d: Digest)
    requires OwnPlaces(files) && IsDigest(d)
    ensures d in Named(files) <==> PlacedIn(files, d)
  {
    DigestName(d);
    if d in Named(files) {
      var f :| f in files && NameDigest(f.name) == Some(d);
      assert PlaceOf(f, d);
    }
  }

  /** A new file changes what its own digest reads, and nothing else. */
  lemma {:induction false} NewFile(p: Prim, files: BlobFiles, d: Digest, content: Bytes)
    requires OwnPlaces(files) && IsDigest(d) && !PlacedIn(files, d)
    ensures
      var after := files[PathOf(d) := content];
      && OwnPlaces(after)
      && (Readable(p, after) <==> Readable(p, files) && Fetch(p, after, d).Some?)
  {
    var after := files[PathOf(d) := content];
    DigestName(d);
    assert PlacedIn(after, d);
    NamedIsPlaced(files, d);
    NamedIsPlaced(after, d);
    forall e | e in Named(files)
      ensures e in Named(after) && Fetch(p, after, e) == Fetch(p, files, e)
    {
      NamedIsPlaced(files, e);
      NamedIsPlaced(after, e);
      PathInjective(d, e);
    }
    forall e | e in Named(after) && e != d
      ensures e in Named(files)
    {
      NamedIsPlaced(files, e);
      NamedIsPlaced(after, e);
      PathInjective(d, e);
    }
  }

  /** Files stay at their own places and nothing is repaired; nor is anything
      damaged, if the writes were `whole`. */
  ghost predicate NoRepair(p: Prim, files: BlobFiles, files': BlobFiles, whole: bool) {
    && OwnPlaces(files')
    && (Readable(p, files') ==> Readable(p, files))
    && (whole && Readable(p, files) ==> Readable(p, files'))
  }

  predicate Tears(end: End) { end.InBlob? && end.part.Some? }

  /** One blob of a push: a copy that succeeds neither repairs nor damages
      anything, and only a torn write does damage. */
  lemma {:induction false} CopyNextReadable(p: Prim, blobs: Cas.Blobs, files: BlobFiles, d: Digest, i: nat, end: End)
    requires Lawful(p) && Cas.Keyed(p, blobs) && OwnPlaces(files)
    ensures
      var r := CopyNext(p, blobs, files, d, i, end);
      NoRepair(p, files, r.files, r.ok || !Tears(end))
  {
    var r := CopyNext(p, blobs, files, d, i, end);
    if r.files != files {
      HashShape(p, blobs[d]);
      DigestName(d);
      NewFile(p, files, d, r.files[PathOf(d)]);
    }
  }

  lemma {:induction false} CopyAllReadable(p: Prim, blobs: Cas.Blobs, files: BlobFiles, ds: seq<Digest>, end: End)
    requires Lawful(p) && Cas.Keyed(p, blobs) && OwnPlaces(files)
    ensures
      var r := CopyAll(p, blobs, files, ds, end);
      NoRepair(p, files, r.files, r.ok || !Tears(end))
  {
    if ds != [] {
      var n := |ds| - 1;
      CopyAllReadable(p, blobs, files, ds[..n], end);
      CopyNextReadable(p, blobs, CopyAll(p, blobs, files, ds[..n], end).files, ds[n], n, end);
    }
  }

  lemma {:induction false} PushReadable(p: Prim, c: ManifestCodec, s: DirState, call: PushCall)
    requires Lawful(p) && Cas.Keyed(p, call.blobs) && OwnPlaces(s.files)
    ensures NoRepair(p, s.files, Pushed(p, c, s, call).files, PushSucceeds(p, s, call) || !Tears(call.end))
  {
    CopyAllReadable(p, call.blobs, s.files, Firsts(AllRefs(p, call.blobs, call.manifest)), call.end);
  }

  // ---------- histories ----------

  /** Torn or not, every file of a registry directory is at its own place. */
  lemma {:induction false} HistoryOwnPlaces(p: Prim, c: ManifestCodec, calls: seq<PushCall>)
    requires Lawful(p) && Sources(p, calls)
    ensures OwnPlaces(After(p, c, calls).files)
  {
    if calls != [] {
      var n := |calls| - 1;
      HistoryOwnPlaces(p, c, calls[..n]);
      PushReadable(p, c, After(p, c, calls[..n]), calls[n]);
    }
  }

  /** As long as no push was cut off inside the write of a blob, every file holds
      the bytes of the digest it is named after. */
  lemma {:induction false} HistoryWithoutTears(p: Prim, c: ManifestCodec, calls: seq<PushCall>)
    requires Lawful(p) && Sources(p, calls)
    requires forall i :: 0 <= i < |calls| ==> !Tears(calls[i].end)
    ensures Readable(p, After(p, c, calls).files)
  {
    if calls != [] {
      var n := |calls| - 1;
      HistoryWithoutTears(p, c, calls[..n]);
      HistoryOwnPlaces(p, c, calls[..n]);
      PushReadable(p, c, After(p, c, calls[..n]), calls[n]);
    }
  }

  /** A file that does not read back stays so under every later push. */
  lemma {:induction false} TornForGood(p: Prim, c: ManifestCodec, calls: seq<PushCall>, k: nat)
    requires Lawful(p) && Sources(p, calls) && k <= |calls|
    ensures Readable(p, After(p, c, calls).files) ==> Readable(p, After(p, c, calls[..k]).files)
  {
    if k < |calls| {
      var n := |calls| - 1;
      TornForGood(p, c, calls[..n], k);
      assert calls[..n][..k] == calls[..k];
      HistoryOwnPlaces(p, c, calls[..n]);
      PushReadable(p, c, After(p, c, calls[..n]), calls[n]);
    } else {
      assert calls[..k] == calls;
    }
  }

  // ---------- a push, then a pull ----------

  lemma {:induction false} CopyNextKeeps(p: Prim, blobs: Cas.Blobs, files: BlobFiles, d: Digest, i: nat, end: End)
    ensures files.Keys <= CopyNext(p, blobs, files, d, i, end).files.Keys
    ensures CopyNext(p, blobs, files, d, i, end).ok ==>
      |HexPart(d)| >= 2 && PathOf(d) in CopyNext(p, blobs, files, d, i, end).files
  {
  }

  /** A copy that succeeds leaves every digest in the directory. */
  lemma {:induction false} CopiedAll(p: Prim, blobs: Cas.Blobs, files: BlobFiles, ds: seq<Digest>, end: End)
    requires CopyAll(p, blobs, files, ds, end).ok
    ensures forall d :: d in ds ==> PlaceKept(CopyAll(p, blobs, files, ds, end).files, d)
  {
    if ds != [] {
      var n := |ds| - 1;
      CopiedAll(p, blobs, files, ds[..n], end);
      CopyNextKeeps(p, blobs, CopyAll(p, blobs, files, ds[..n], end).files, ds[n], n, end);
      assert ds == ds[..n] + [ds[n]];
      forall d | d in ds[..n]
        ensures PlaceKept(CopyAll(p, blobs, files, ds, end).files, d)
      {
        assert PlaceKept(CopyAll(p, blobs, files, ds[..n], end).files, d);
      }
    }
  }

  predicate PlaceKept(files: BlobFiles, d: Digest) { |HexPart(d)| >= 2 && PathOf(d) in files }

  /** The two keys sign the bytes alike; without a key the built-in one counts. */
  predicate SignAlike(p: Prim, bytes: Bytes, a: Option<Bytes>, b: Option<Bytes>) {
    var builtIn := p.hmac(Ascii("processfork-default-self-sign-key.v1"), bytes);
    match (a, b)
    case (None, None) => true
    case (Some(k), None) => p.hmac(k, bytes) == builtIn
    case (None, Some(k)) => p.hmac(k, bytes) == builtIn
    case (Some(k), Some(l)) => p.hmac(k, bytes) == p.hmac(l, bytes)
  }

  lemma {:induction false} DefaultKeyText()
    ensures EffectiveKey(None) == Ascii("processfork-default-self-sign-key.v1")
  {
    var text := "processfork-default-self-sign-key.v1";
    assert |text| == 36 && |DEFAULT_KEY| == 36;
    forall i | 0 <= i < 36
      ensures DEFAULT_KEY[i] == Ascii(text)[i]
    {
    }
  }

  lemma {:induction false} SignaturesAgree(p: Prim, bytes: Bytes, signer: Option<Bytes>, reader: Option<Bytes>)
    ensures SignatureHolds(p, bytes, Sign(p, bytes, signer), reader) <==> SignAlike(p, bytes, reader, signer)
  {
    DefaultKeyText();
    if HexEncode(p.hmac(EffectiveKey(reader), bytes)) == HexEncode(p.hmac(EffectiveKey(signer), bytes)) {
      HexInjective(p.hmac(EffectiveKey(reader), bytes), p.hmac(EffectiveKey(signer), bytes));
    }
  }

  /** After a push that succeeded, into any directory whose files are at their
      own places, a pull succeeds exactly under a key that signs alike and if
      every file that was there before the push read back. It then yields the
      pushed manifest. Every reference of it has a file in either case. */
  lemma {:induction false} PushThenPull(p: Prim, c: ManifestCodec, s: DirState, call: PushCall, key: Option<Bytes>)
    requires Lawful(p) && LawfulManifests(c) && Timely(c, call.manifest) && Cas.Keyed(p, call.blobs) && OwnPlaces(s.files)
    requires PushSucceeds(p, s, call)
    ensures PullOutcome(p, c, Pushed(p, c, s, call), key) ==
      if !SignAlike(p, c.encode(call.manifest), key, call.key) then Failure(BadSignature)
      else if !Readable(p, s.files) then Failure(BadBlob)
      else Success(call.manifest)
    ensures forall d :: RefersTo(p, call.blobs, call.manifest, d) ==> PlaceKept(Pushed(p, c, s, call).files, d)
  {
    var refs := AllRefs(p, call.blobs, call.manifest);
    PushReadable(p, c, s, call);
    SignaturesAgree(p, c.encode(call.manifest), call.key, key);
    CopiedAll(p, call.blobs, s.files, Firsts(refs), call.end);
    RefsCopied(p, call.blobs, call.manifest);
  }

  /** What is copied is exactly what the manifest refers to. */
  lemma {:induction false} RefsCopied(p: Prim, blobs: Cas.Blobs, m: Manifest)
    ensures forall d :: d in Firsts(AllRefs(p, blobs, m)) <==> RefersTo(p, blobs, m, d)
  {
    FirstsOf(AllRefs(p, blobs, m));
    forall d
      ensures d in AllRefs(p, blobs, m) <==> RefersTo(p, blobs, m, d)
    {
      AllRefsIff(p, blobs, m, d);
    }
  }

  // ---------- where a push stops ----------

  /** The digest has a file, or can get one. */
  predicate Copyable(blobs: Cas.Blobs, files: BlobFiles, d: Digest) { |HexPart(d)| >= 2 && (PathOf(d) in files || d in blobs) }

  /** The first `n` digests have files: those that were there, and new ones of their bytes. */
  ghost predicate CopiedTo(p: Prim, blobs: Cas.Blobs, files: BlobFiles, ds: seq<Digest>, n: nat, after: BlobFiles)
    requires n <= |ds|
  {
    && (forall i :: 0 <= i < n ==> PlaceKept(after, ds[i]))
    && (forall f :: f in files ==> f in after && after[f] == files[f])
    && forall f :: f in after && f !in files ==> exists i :: 0 <= i < n && CopyOf(p, blobs, ds[i], f, after[f])
  }

  predicate CopyOf(p: Prim, blobs: Cas.Blobs, d: Digest, f: BlobFile, bytes: Bytes) {
    |HexPart(d)| >= 2 && PathOf(d) == f && d in blobs && bytes == p.zstd(blobs[d])
  }

  /** A push that is not cut off copies up to the first digest that has no file and
      cannot be read, and no further; it succeeds if there is none. */
  ghost predicate StopsAfter(p: Prim, blobs: Cas.Blobs, files: BlobFiles, ds: seq<Digest>, r: Mirror, n: nat) {
    && n <= |ds| && CopiedTo(p, blobs, files, ds, n, r.files) && (r.ok <==> n == |ds|)
    && (n < |ds| ==> !Copyable(blobs, r.files, ds[n]))
  }

  lemma {:induction false} PushStops(p: Prim, blobs: Cas.Blobs, files: BlobFiles, ds: seq<Digest>) returns (n: nat)
    ensures StopsAfter(p, blobs, files, ds, CopyAll(p, blobs, files, ds, Completes), n)
  {
    if ds == [] {
      n := 0;
    } else {
      var last := |ds| - 1;
      n := PushStops(p, blobs, files, ds[..last]);
      var before := CopyAll(p, blobs, files, ds[..last], Completes);
      if before.ok {
        n := StopsNext(p, blobs, files, ds, before);
      } else {
        StoppedLater(p, blobs, files, ds, before, n);
      }
    }
  }

  lemma {:induction false} StoppedLater(p: Prim, blobs: Cas.Blobs, files: BlobFiles, ds: seq<Digest>, r: Mirror, n: nat)
    requires ds != [] && StopsAfter(p, blobs, files, ds[..|ds| - 1], r, n) && !r.ok
    ensures StopsAfter(p, blobs, files, ds, r, n)
  {
    var fewer := ds[..|ds| - 1];
    assert forall i :: 0 <= i < |fewer| ==> fewer[i] == ds[i];
  }

  lemma {:induction false} StopsNext(p: Prim, blobs: Cas.Blobs, files: BlobFiles, ds: seq<Digest>, before: Mirror) returns (n: nat)
    requires ds != [] && before.ok && StopsAfter(p, blobs, files, ds[..|ds| - 1], before, |ds| - 1)
    ensures StopsAfter(p, blobs, files, ds, CopyOne(p, blobs, before.files, ds[|ds| - 1]), n)
  {
    hide HexPart, PathOf;
    var last := |ds| - 1;
    var fewer, d := ds[..last], ds[last];
    assert forall i :: 0 <= i < last ==> fewer[i] == ds[i] && PlaceKept(before.files, ds[i]);
    n := if Copyable(blobs, before.files, d) then |ds| else last;
    var after := CopyOne(p, blobs, before.files, d).files;
    forall f | f in after && f !in files
      ensures exists i :: 0 <= i < n && CopyOf(p, blobs, ds[i], f, after[f])
    {
      if f in before.files {
        var i :| 0 <= i < last && CopyOf(p, blobs, fewer[i], f, before.files[f]);
        assert CopyOf(p, blobs, ds[i], f, after[f]);
      } else {
        assert CopyOf(p, blobs, ds[last], f, after[f]);
      }
    }
  }

  /** The digests are what the manifest refers to, each once, and the copying stopped after `n`. */
  ghost predicate WentThrough(p: Prim, files: BlobFiles, call: PushCall, ds: seq<Digest>, n: nat, after: BlobFiles, ok: bool) {
    && (forall d :: d in ds <==> RefersTo(p, call.blobs, call.manifest, d))
    && (forall i, j :: 0 <= i < j < |ds| ==> ds[i] != ds[j])
    && StopsAfter(p, call.blobs, files, ds, Mirror(after, ok), n)
  }

  /** What a push that is not cut off leaves, and when it succeeds: it goes through
      what the manifest refers to, each once, up to the first that it cannot copy. */
  lemma {:induction false} PushCopies(p: Prim, c: ManifestCodec, s: DirState, call: PushCall)
    requires call.end.Completes?
    ensures
      exists ds, n: nat :: WentThrough(p, s.files, call, ds, n, Pushed(p, c, s, call).files, PushSucceeds(p, s, call))
  {
    hide StopsAfter, CopyAll, RefersTo;
    var ds := Firsts(AllRefs(p, call.blobs, call.manifest));
    RefsCopied(p, call.blobs, call.manifest);
    FirstsOf(AllRefs(p, call.blobs, call.manifest));
    var n := PushStops(p, call.blobs, s.files, ds);
    var r := CopyAll(p, call.blobs, s.files, ds, Completes);
    assert Mirrored(p, s.files, call) == r && Mirror(r.files, r.ok) == r;
    assert Pushed(p, c, s, call).files == r.files && PushSucceeds(p, s, call) == r.ok;
    assert WentThrough(p, s.files, call, ds, n, r.files, r.ok);
  }

  /** The signature names its algorithm and the hash of the bytes, and carries the hex
      of their MAC under the key, or under the built-in one without a key. */
  predicate SignatureFits(p: Prim, bytes: Bytes, sig: Signature, key: Option<Bytes>) {
    && sig.algorithm == "hmac-sha256" && sig.manifestDigest == Hash(p, bytes)
    && sig.signature == HexEncode(p.hmac(if key.Some? then key.value else Ascii("processfork-default-self-sign-key.v1"), bytes))
  }

  /** A pull from any directory succeeds exactly if manifest and signature are there
      and fit, the manifest can be read, and every file named by a digest reads back. */
  lemma {:induction false} PullSucceedsIff(p: Prim, c: ManifestCodec, s: DirState, key: Option<Bytes>, m: Manifest)
    ensures PullOutcome(p, c, s, key) == Success(m) <==>
      && s.manifest.Some? && c.decode(s.manifest.value) == Some(m)
      && s.signature.Whole? && SignatureFits(p, s.manifest.value, s.signature.signature, key)
      && forall f :: f in s.files && NameDigest(f.name).Some? ==> Fetch(p, s.files, NameDigest(f.name).value).Some?
  {
    DefaultKeyText();
  }

  /** A manifest put in the place of the one that was pushed is refused under every
      key; nothing is assumed about HMAC. */
  lemma {:induction false} ReplacedManifestIsRefused(p: Prim, c: ManifestCodec, s: DirState, call: PushCall, other: Bytes,
                                                     key: Option<Bytes>)
    requires PushSucceeds(p, s, call) && other != c.encode(call.manifest) && CollisionFree(p, {other, c.encode(call.manifest)})
    ensures PullOutcome(p, c, Pushed(p, c, s, call).(manifest := Some(other)), key) == Failure(BadSignature)
  {
    if Hash(p, other) == Hash(p, c.encode(call.manifest)) {
      OfInjective(p, {other, c.encode(call.manifest)}, other, c.encode(call.manifest));
    }
  }

  /** A pull from a directory whose only push was cut off before its blobs. */
  lemma {:induction false} PullAfterCut(p: Prim, c: ManifestCodec, call: PushCall, key: Option<Bytes>)
    ensures PullOutcome(p, c, After(p, c, []), key) == Failure(NoManifest)
    ensures call.end.InManifest? ==> PullOutcome(p, c, After(p, c, [call]), key) == Failure(NoSignature)
    ensures call.end.InSignature? ==> PullOutcome(p, c, After(p, c, [call]), key) == Failure(BadSignature)
  {
    assert [call][..0] == [];
    assert After(p, c, [call]) == Pushed(p, c, After(p, c, []), call);
  }

  ghost predicate LastPushSucceeded(p: Prim, c: ManifestCodec, calls: seq<PushCall>) {
    calls != [] && PushSucceeds(p, After(p, c, calls[..|calls| - 1]), calls[|calls| - 1])
  }

  /** The same over histories: after any sequence of pushes, cut off anywhere, of
      which the last succeeded. */
  lemma {:induction false} PullAfterPushes(p: Prim, c: ManifestCodec, calls: seq<PushCall>, key: Option<Bytes>)
    requires Lawful(p) && LawfulManifests(c) && Sources(p, calls) && LastPushSucceeded(p, c, calls)
    requires Timely(c, calls[|calls| - 1].manifest)
    ensures
      var last, before := calls[|calls| - 1], After(p, c, calls[..|calls| - 1]);
      PullOutcome(p, c, After(p, c, calls), key) ==
        if !SignAlike(p, c.encode(last.manifest), key, last.key) then Failure(BadSignature)
        else if !Readable(p, before.files) then Failure(BadBlob)
        else Success(last.manifest)
  {
    var n := |calls| - 1;
    HistoryOwnPlaces(p, c, calls[..n]);
    PushThenPull(p, c, After(p, c, calls[..n]), calls[n], key);
  }

  // ---------- a torn write spoils the directory ----------

  lemma {:induction false} CopySucceeds(p: Prim, blobs: Cas.Blobs, files: BlobFiles, ds: seq<Digest>)
    requires Lawful(p) && Cas.Keyed(p, blobs) && forall d :: d in ds ==> d in blobs
    ensures CopyAll(p, blobs, files, ds, Completes).ok
  {
    if ds != [] {
      var n := |ds| - 1;
      CopySucceeds(p, blobs, files, ds[..n]);
      HashShape(p, blobs[ds[n]]);
    }
  }

  lemma {:induction false} FirstRef(ds: seq<Digest>)
    requires ds != []
    ensures Firsts(ds) != [] && Firsts(ds)[0] == ds[0]
  {
    if |ds| > 1 {
      FirstRef(ds[..|ds| - 1]);
    }
  }

  /** A push is cut off inside its first blob, at a point where what is written
      does not decompress. The same push then succeeds, and every pull fails. */
  lemma {:induction false} TornPushSpoilsPulls(p: Prim, c: ManifestCodec, key: Option<Bytes>, m: Manifest, blobs: Cas.Blobs, n: nat)
    requires Lawful(p) && LawfulManifests(c) && Timely(c, m) && Cas.Keyed(p, blobs)
    requires forall d :: RefersTo(p, blobs, m, d) ==> d in blobs
    requires m.modelBase in blobs && p.unzstd(FirstPart(p.zstd(blobs[m.modelBase]), n)).None?
    ensures
      var cut, again := PushCall(key, m, blobs, InBlob(0, Some(n))), PushCall(key, m, blobs, Completes);
      && !LastPushSucceeded(p, c, [cut]) && LastPushSucceeded(p, c, [cut, again])
      && PullOutcome(p, c, After(p, c, [cut, again]), key) == Failure(BadBlob)
  {
    var cut, again := PushCall(key, m, blobs, InBlob(0, Some(n))), PushCall(key, m, blobs, Completes);
    TornOnce(p, c, key, m, blobs, n);
    RetrySucceeds(p, After(p, c, [cut]), again);
    assert [cut, again][..1] == [cut];
    HistoryOwnPlaces(p, c, [cut]);
    PushThenPull(p, c, After(p, c, [cut]), again, key);
  }

  lemma {:induction false} RetrySucceeds(p: Prim, s: DirState, call: PushCall)
    requires Lawful(p) && Cas.Keyed(p, call.blobs) && call.end.Completes?
    requires forall d :: RefersTo(p, call.blobs, call.manifest, d) ==> d in call.blobs
    ensures PushSucceeds(p, s, call)
  {
    RefsCopied(p, call.blobs, call.manifest);
    CopySucceeds(p, call.blobs, s.files, Firsts(AllRefs(p, call.blobs, call.manifest)));
  }

  lemma {:induction false} TornOnce(p: Prim, c: ManifestCodec, key: Option<Bytes>, m: Manifest, blobs: Cas.Blobs, n: nat)
    requires Lawful(p) && Cas.Keyed(p, blobs)
    requires m.modelBase in blobs && p.unzstd(FirstPart(p.zstd(blobs[m.modelBase]), n)).None?
    ensures
      var cut := PushCall(key, m, blobs, InBlob(0, Some(n)));
      !LastPushSucceeded(p, c, [cut]) && !Readable(p, After(p, c, [cut]).files)
  {
    var cut := PushCall(key, m, blobs, InBlob(0, Some(n)));
    var refs := AllRefs(p, blobs, m);
    FirstRef(refs);
    assert refs[0] == m.modelBase;
    TornFile(p, blobs, Firsts(refs), n);
    assert [cut][..0] == [];
    assert After(p, c, []) == DirState(None, Absent, map[]);
  }

  lemma {:induction false} TornFile(p: Prim, blobs: Cas.Blobs, ds: seq<Digest>, n: nat)
    requires Lawful(p) && Cas.Keyed(p, blobs)
    requires ds != [] && ds[0] in blobs && p.unzstd(FirstPart(p.zstd(blobs[ds[0]]), n)).None?
    ensures
      var r := CopyAll(p, blobs, map[], ds, InBlob(0, Some(n)));
      !r.ok && !Readable(p, r.files)
  {
    var d, end := ds[0], InBlob(0, Some(n));
    HashShape(p, blobs[d]);
    DigestName(d);
    assert ds[..1] == [d] && [d][..0] == [];
    assert CopyAll(p, blobs, map[], [d], end) == CutOne(p, blobs, map[], d, Some(n));
    CopyFails(p, blobs, map[], ds, end, 1);
    var files: BlobFiles := map[PathOf(d) := FirstPart(p.zstd(blobs[d]), n)];
    assert CopyAll(p, blobs, map[], ds, end).files == files;
    assert d in Named(files) && Fetch(p, files, d).None?;
  }

  // ---------- the receiving store ----------

  /** The references that the source can read arrive, except where the receiving
      store had a damaged file: there nothing can be read. */
  ghost predicate ArrivedUnlessDamaged(p: Prim, source: Cas.Blobs, m: Manifest, mine: BlobFiles, after: Cas.Blobs) {
    forall d :: d in source && RefersTo(p, source, m, d) ==>
      Cas.Lookup(after, d) == if Damaged(p, mine, d) then None else Cas.Lookup(source, d)
  }

  ghost predicate LayerArrives(p: Prim, source: Cas.Blobs, mine: BlobFiles, after: Cas.Blobs, d: Digest) {
    d in source ==> Cas.Lookup(after, d) == if Damaged(p, mine, d) then None else Cas.Lookup(source, d)
  }

  /** Each layer of the manifest, by its field. */
  ghost predicate LayersArrive(p: Prim, source: Cas.Blobs, m: Manifest, mine: BlobFiles, after: Cas.Blobs) {
    && LayerArrives(p, source, mine, after, m.modelBase) && LayerArrives(p, source, mine, after, m.modelDiff)
    && LayerArrives(p, source, mine, after, m.cacheManifest) && LayerArrives(p, source, mine, after, m.worldFs)
    && LayerArrives(p, source, mine, after, m.worldEnv) && LayerArrives(p, source, mine, after, m.worldProcs)
    && LayerArrives(p, source, mine, after, m.ledger) && LayerArrives(p, source, mine, after, m.messages)
  }

  lemma {:induction false} LayersAmongRefs(p: Prim, source: Cas.Blobs, m: Manifest, mine: BlobFiles, after: Cas.Blobs)
    requires ArrivedUnlessDamaged(p, source, m, mine, after)
    ensures LayersArrive(p, source, m, mine, after)
  {
  }

  lemma {:induction false} SameBlob(p: Prim, source: Cas.Blobs, view: Cas.Blobs, inputs: set<Bytes>, d: Digest)
    requires Cas.Keyed(p, source) && Cas.Keyed(p, view) && CollisionFree(p, inputs)
    requires source.Values <= inputs && view.Values <= inputs && d in source && d in view
    ensures source[d] == view[d] && source[d] in view.Values
  {
    assert source[d] in source.Values && view[d] in view.Values;
    OfInjective(p, inputs, view[d], source[d]);
  }

  /** The store after `pf pull` has flushed the blobs and the manifest. */
  function Received(p: Prim, mine: BlobFiles, flushed: seq<Bytes>, manifest: Bytes): Cas.Blobs {
    View(p, FilesAfterPuts(p, mine, flushed + [manifest]))
  }

  lemma {:induction false} OneArrives(p: Prim, mine: BlobFiles, flushed: seq<Bytes>, manifest: Bytes, b: Bytes, inputs: set<Bytes>)
    requires Lawful(p) && CollisionFree(p, inputs) && View(p, mine).Values <= inputs && manifest in inputs
    requires (forall x :: x in flushed ==> x in inputs) && b in flushed + [manifest]
    ensures Cas.Lookup(Received(p, mine, flushed, manifest), Of(p, b)) ==
      if Damaged(p, mine, Of(p, b)) then None else Some(b)
  {
    var bs, d := flushed + [manifest], Of(p, b);
    HashShape(p, b);
    PutsReadBackIff(p, mine, bs, b, inputs);
    PutsKeepFiles(p, mine, bs, d);
    ViewIsFetch(p, FilesAfterPuts(p, mine, bs), d);
  }

  lemma {:induction false} FlushedArrives(p: Prim, source: Cas.Blobs, m: Manifest, dir: BlobFiles, mine: BlobFiles,
                                          flushed: seq<Bytes>, bytes: Bytes, inputs: set<Bytes>)
    requires Lawful(p) && Cas.Keyed(p, source) && CollisionFree(p, inputs)
    requires source.Values <= inputs && View(p, dir).Values <= inputs && View(p, mine).Values <= inputs && bytes in inputs
    requires Readable(p, dir) && Mirrors(p, dir, flushed)
    requires forall d :: RefersTo(p, source, m, d) ==> PlaceKept(dir, d)
    ensures ArrivedUnlessDamaged(p, source, m, mine, Received(p, mine, flushed, bytes))
  {
    ViewIsKeyed(p, dir);
    forall d | d in source && RefersTo(p, source, m, d)
      ensures Cas.Lookup(Received(p, mine, flushed, bytes), d) == if Damaged(p, mine, d) then None else Cas.Lookup(source, d)
    {
      HashShape(p, source[d]);
      DigestName(d);
      assert PlaceKept(dir, d);
      assert d in Named(dir);
      ViewIsFetch(p, dir, d);
      SameBlob(p, source, View(p, dir), inputs, d);
      OneArrives(p, mine, flushed, bytes, source[d], inputs);
    }
  }

  /** No digest that restoring the tree fetches has a damaged file in `mine`. */
  ghost predicate TreeUndamaged(p: Prim, source: Cas.Blobs, m: Manifest, mine: BlobFiles) {
    forall d :: FsRestore.Fetches(p, source, m.worldFs, d) ==> !Damaged(p, mine, d)
  }

  lemma {:induction false} TreeFetchedRefs(p: Prim, source: Cas.Blobs, m: Manifest, f: FsRestore.System, opts: FsRestore.Options, d: Digest)
    requires Lawful(p) && Cas.Keyed(p, source) && FsRestore.Restored(p, f, opts, source, m.worldFs).Success?
    requires FsRestore.Fetches(p, source, m.worldFs, d)
    ensures d in source && RefersTo(p, source, m, d)
  {
    FsRestore.RestoredFetchedAll(p, f, opts, source, m.worldFs, d);
    HashShape(p, source[d]);
    GcLaws.TreeReadsMarked(p, source, m, d);
  }

  /** A tree that restores at the source restores at the receiver, and to the
      same directory tree, if and only if none of its files met a damaged one. */
  lemma {:induction false} TreeArrivesIff(p: Prim, source: Cas.Blobs, m: Manifest, mine: BlobFiles, after: Cas.Blobs,
                                          f: FsRestore.System, opts: FsRestore.Options)
    requires Lawful(p) && Cas.Keyed(p, source) && ArrivedUnlessDamaged(p, source, m, mine, after)
    requires FsRestore.Restored(p, f, opts, source, m.worldFs).Success?
    ensures FsRestore.Restored(p, f, opts, after, m.worldFs) == FsRestore.Restored(p, f, opts, source, m.worldFs)
       <==> TreeUndamaged(p, source, m, mine)
  {
    var tree := m.worldFs;
    assert FsRestore.Fetches(p, source, tree, tree);
    TreeFetchedRefs(p, source, m, f, opts, tree);
    if TreeUndamaged(p, source, m, mine) {
      forall d | FsRestore.Fetches(p, source, tree, d)
        ensures Cas.Lookup(source, d) == Cas.Lookup(after, d)
      {
        TreeFetchedRefs(p, source, m, f, opts, d);
      }
      FsRestore.RestoreReadsOnly(p, f, opts, source, after, tree);
    } else {
      var d :| FsRestore.Fetches(p, source, tree, d) && Damaged(p, mine, d);
      TreeFetchedRefs(p, source, m, f, opts, d);
      assert d !in after;
      if FsRestore.Restored(p, f, opts, after, tree).Success? {
        assert Cas.Lookup(after, tree) == Cas.Lookup(source, tree);
        FsRestore.RestoredFetchedAll(p, f, opts, after, tree, d);
      }
    }
  }

  ghost predicate PagesUndamaged(p: Prim, source: Cas.Blobs, m: Manifest, mine: BlobFiles) {
    forall d :: CacheLaws.Fetches(p, source, m.cacheManifest, d) ==> !Damaged(p, mine, d)
  }

  lemma {:induction false} PageFetchedRefs(p: Prim, source: Cas.Blobs, m: Manifest, d: Digest)
    requires Lawful(p) && Cas.Keyed(p, source) && Cache.Deserialize(p, source, m.cacheManifest).Success?
    requires CacheLaws.Fetches(p, source, m.cacheManifest, d)
    ensures d in source && RefersTo(p, source, m, d)
  {
    CacheLaws.DeserializedFetchedAll(p, source, m.cacheManifest, d);
    HashShape(p, source[d]);
    GcLaws.PageReadsMarked(p, source, m, d);
  }

  /** The same for the pages of the cache. */
  lemma {:induction false} PagesArriveIff(p: Prim, source: Cas.Blobs, m: Manifest, mine: BlobFiles, after: Cas.Blobs)
    requires Lawful(p) && Cas.Keyed(p, source) && ArrivedUnlessDamaged(p, source, m, mine, after)
    requires Cache.Deserialize(p, source, m.cacheManifest).Success?
    ensures Cache.Deserialize(p, after, m.cacheManifest) == Cache.Deserialize(p, source, m.cacheManifest)
       <==> PagesUndamaged(p, source, m, mine)
  {
    var manifest := m.cacheManifest;
    assert CacheLaws.Fetches(p, source, manifest, manifest);
    PageFetchedRefs(p, source, m, manifest);
    if PagesUndamaged(p, source, m, mine) {
      forall d | CacheLaws.Fetches(p, source, manifest, d)
        ensures Cas.Lookup(source, d) == Cas.Lookup(after, d)
      {
        PageFetchedRefs(p, source, m, d);
      }
      CacheLaws.DeserializeReadsOnly(p, source, after, manifest);
    } else {
      var d :| CacheLaws.Fetches(p, source, manifest, d) && Damaged(p, mine, d);
      PageFetchedRefs(p, source, m, d);
      assert d !in after;
      if Cache.Deserialize(p, after, manifest).Success? {
        assert Cas.Lookup(after, manifest) == Cas.Lookup(source, manifest);
        CacheLaws.DeserializedFetchedAll(p, after, manifest, d);
      }
    }
  }

  /** The bytes in play when the last push is pulled into the store `mine`. */
  ghost predicate InPlay(p: Prim, c: ManifestCodec, calls: seq<PushCall>, mine: BlobFiles, inputs: set<Bytes>)
    requires calls != []
  {
    var last := calls[|calls| - 1];
    && last.blobs.Values <= inputs && View(p, After(p, c, calls).files).Values <= inputs
    && View(p, mine).Values <= inputs && c.encode(last.manifest) in inputs
  }

  /** Pushed under any history and pulled into any store, an image keeps its
      content-id, and it reads as at the source exactly where the receiving store
      had no damaged file: the manifest, each reference, the restored tree and
      the cache pages. The receiving store loses nothing. */
  lemma {:induction false} TransportKeepsImageIff(p: Prim, c: ManifestCodec, calls: seq<PushCall>, mine: BlobFiles,
                                                  flushed: seq<Bytes>, inputs: set<Bytes>)
    requires Lawful(p) && LawfulManifests(c) && Sources(p, calls) && LastPushSucceeded(p, c, calls)
    requires Timely(c, calls[|calls| - 1].manifest)
    requires Readable(p, After(p, c, calls).files) && Mirrors(p, After(p, c, calls).files, flushed)
    requires CollisionFree(p, inputs) && InPlay(p, c, calls, mine, inputs)
    ensures
      var last := calls[|calls| - 1];
      var source, m, bytes := last.blobs, last.manifest, c.encode(last.manifest);
      var after := Received(p, mine, flushed, bytes);
      && Cas.Lookup(after, Of(p, bytes)) == (if Damaged(p, mine, Of(p, bytes)) then None else Some(bytes))
      && c.decode(bytes) == Some(m)
      && ArrivedUnlessDamaged(p, source, m, mine, after) && LayersArrive(p, source, m, mine, after)
  {
    var n := |calls| - 1;
    var last, files := calls[n], After(p, c, calls).files;
    HistoryOwnPlaces(p, c, calls[..n]);
    PushThenPull(p, c, After(p, c, calls[..n]), last, last.key);
    forall x | x in flushed
      ensures x in inputs
    {
      assert x in View(p, files).Values;
    }
    FlushedArrives(p, last.blobs, last.manifest, files, mine, flushed, c.encode(last.manifest), inputs);
    OneArrives(p, mine, flushed, c.encode(last.manifest), c.encode(last.manifest), inputs);
    LayersAmongRefs(p, last.blobs, last.manifest, mine, Received(p, mine, flushed, c.encode(last.manifest)));
  }

  /** What the receiving store could read before, it reads alike afterwards. */
  lemma {:induction false} ReceiverLosesNothing(p: Prim, mine: BlobFiles, flushed: seq<Bytes>, bytes: Bytes)
    requires Lawful(p)
    ensures Cas.Extends(View(p, mine), Received(p, mine, flushed, bytes))
  {
    forall d | d in View(p, mine)
      ensures Cas.Lookup(Received(p, mine, flushed, bytes), d) == Cas.Lookup(View(p, mine), d)
    {
      ViewIsFetch(p, mine, d);
      FetchedIsDigest(p, mine, d);
      DigestName(d);
      PutsKeepFiles(p, mine, flushed + [bytes], d);
      ViewIsFetch(p, FilesAfterPuts(p, mine, flushed + [bytes]), d);
    }
  }

  /** A store whose file for the manifest is damaged reports the content-id and
      cannot read it. */
  lemma {:induction false} DamagedReceiver(p: Prim, bytes: Bytes, torn: Bytes)
    requires Lawful(p) && p.unzstd(torn).None? && |HexPart(Of(p, bytes))| >= 2
    ensures Damaged(p, map[PathOf(Of(p, bytes)) := torn], Of(p, bytes))
    ensures Of(p, bytes) !in Received(p, map[PathOf(Of(p, bytes)) := torn], [], bytes)
  {
    var d := Of(p, bytes);
    var mine: BlobFiles := map[PathOf(d) := torn];
    HashShape(p, bytes);
    DigestName(d);
    assert Fetch(p, mine, d).None?;
    PutsKeepFiles(p, mine, [] + [bytes], d);
    ViewIsFetch(p, FilesAfterPuts(p, mine, [] + [bytes]), d);
  }
}
