/** What `merge_world` leaves at each path. */
module ConflictFiles {
  // The table of outcomes, and the bytes of a conflict file: both sides' texts
  // between the markers.

  import opened Bits
  import opened Base
  import opened Tree
  import opened WorldMerge
  import opened WorldMergeLaws
  import Algebra = WorldMergeAlgebra
  import Cas

  // ---------- the bytes of a conflict file ----------

  /** Ten bytes, A's text, nine bytes, B's text, eleven bytes. */
  predicate HoldsBoth(text: Bytes, ta: Bytes, tb: Bytes) {
    && |text| == 30 + |ta| + |tb|
    && text[..10] == [60, 60, 60, 60, 60, 60, 60, 32, 65, 10]
    && text[10..10 + |ta|] == ta
    && text[10 + |ta|..19 + |ta|] == [10, 61, 61, 61, 61, 61, 61, 61, 10]
    && text[19 + |ta|..19 + |ta| + |tb|] == tb
    && text[19 + |ta| + |tb|..] == [10, 62, 62, 62, 62, 62, 62, 62, 32, 66, 10]
  }

  /** The number that decimal digits stand for. */
  function Digits(b: Bytes): nat {
    if b == [] then 0 else 10 * Digits(b[..|b| - 1]) + (if 48 <= b[|b| - 1] <= 57 then b[|b| - 1] as int - 48 else 0)
  }

  /** `<binary: n bytes>` */
  predicate BinaryNote(text: Bytes, n: nat) {
    && |text| >= 16
    && text[..9] == [60, 98, 105, 110, 97, 114, 121, 58, 32]
    && Digits(text[9..|text| - 7]) == n
    && text[|text| - 7..] == [32, 98, 121, 116, 101, 115, 62]
  }

  /** The text of a side: its bytes if they are UTF-8, and else a note of their number. */
  ghost predicate SideText(p: Prim, m: Cas.Blobs, e: Entry, text: Bytes) {
    match e.blob
    case None => text == []
    case Some(d) => d in m && if p.isUtf8(m[d]) then text == m[d] else BinaryNote(text, |m[d]|)
  }

  lemma {:induction false} MarkerBytes()
    ensures Ascii("<<<<<<< A\n") == [60, 60, 60, 60, 60, 60, 60, 32, 65, 10]
    ensures Ascii("\n=======\n") == [10, 61, 61, 61, 61, 61, 61, 61, 10]
    ensures Ascii("\n>>>>>>> B\n") == [10, 62, 62, 62, 62, 62, 62, 62, 32, 66, 10]
  {
  }

  lemma {:induction false} MarkedHoldsBoth(p: Prim, ta: Bytes, tb: Bytes)
    ensures HoldsBoth(Marked(p, ta, tb), ta, tb)
  {
    var text := Marked(p, ta, tb);
    var open, mid, close := Ascii("<<<<<<< A\n"), Ascii("\n=======\n"), Ascii("\n>>>>>>> B\n");
    MarkerBytes();
    assert text == open + ta + mid + tb + close;
    assert text[..10] == open && text[10..10 + |ta|] == ta && text[10 + |ta|..19 + |ta|] == mid;
    assert text[19 + |ta|..19 + |ta| + |tb|] == tb && text[19 + |ta| + |tb|..] == close;
  }

  lemma {:induction false} AsciiSum(s: string, t: string)
    ensures Ascii(s + t) == Ascii(s) + Ascii(t)
  {
  }

  lemma {:induction false} DecimalDigits(n: nat)
    ensures Decimal(n) != "" && Digits(Ascii(Decimal(n))) == n
  {
    if n < 10 {
      assert Ascii(Decimal(n)) == [(48 + n) as byte];
      assert [(48 + n) as byte][..0] == [];
    } else {
      var last := ['0' + ((n % 10) as char)];
      DecimalDigits(n / 10);
      AsciiSum(Decimal(n / 10), last);
      assert Ascii(last) == [(48 + n % 10) as byte];
      var b := Ascii(Decimal(n / 10)) + Ascii(last);
      assert b[..|b| - 1] == Ascii(Decimal(n / 10));
    }
  }

  lemma {:induction false} NoteBytes()
    ensures Ascii("<binary: ") == [60, 98, 105, 110, 97, 114, 121, 58, 32]
    ensures Ascii(" bytes>") == [32, 98, 121, 116, 101, 115, 62]
  {
  }

  lemma {:induction false} TextIsSide(p: Prim, b: Bytes)
    ensures !p.isUtf8(b) ==> BinaryNote(Text(p, b), |b|)
  {
    var digits := Decimal(|b|);
    DecimalDigits(|b|);
    NoteBytes();
    AsciiSum("<binary: ", digits);
    AsciiSum("<binary: " + digits, " bytes>");
    if !p.isUtf8(b) {
      var text := Text(p, b);
      assert text == Ascii("<binary: ") + Ascii(digits) + Ascii(" bytes>");
      assert text[9..|text| - 7] == Ascii(digits);
    }
  }

  lemma {:induction false} ContentIsSide(p: Prim, m: Cas.Blobs, e: Entry)
    requires Content(p, m, e).Some?
    ensures SideText(p, m, e, Content(p, m, e).value)
  {
    if e.blob.Some? {
      TextIsSide(p, m[e.blob.value]);
    }
  }

  // ---------- the table ----------

  /** Different kinds, contents or targets, or only one of the two is there. */
  predicate Differ(e: Option<Entry>, f: Option<Entry>) {
    if e.None? || f.None? then e != f
    else e.value.kind != f.value.kind || e.value.blob != f.value.blob || e.value.linkTarget != f.value.linkTarget
  }

  /** The merged entry of a path, if it has one. */
  ghost predicate EntryIs(es: seq<Entry>, k: string, entry: Option<Entry>) {
    && (forall e :: e in es && e.path == k ==> entry == Some(e))
    && (entry.Some? ==> entry.value in es && entry.value.path == k)
  }

  /** The recorded conflict of a path, if there is one. */
  ghost predicate ConflictIs(cs: seq<Conflict>, k: string, conflict: Option<Conflict>) {
    && (forall c :: c in cs && c.path == k ==> conflict == Some(c))
    && (conflict.Some? ==> conflict.value in cs && conflict.value.path == k)
  }

  function BlobOrEmpty(p: Prim, e: Option<Entry>): Digest {
    if e.Some? && e.value.blob.Some? then e.value.blob.value else Of(p, [])
  }

  /** The conflict names A's blob, B's blob and the ancestor's, each in its place. */
  function ConflictOf(p: Prim, k: string, a: Option<Entry>, b: Option<Entry>, x: Option<Entry>): Conflict {
    Conflict(k, BlobOrEmpty(p, a), BlobOrEmpty(p, b), if x.Some? then x.value.blob else None)
  }

  /** A regular file with A's mode whose stored bytes hold both sides. */
  ghost predicate ConflictFile(p: Prim, m: Cas.Blobs, blobs: Cas.Blobs, a: Entry, b: Entry, e: Entry) {
    && e.path == a.path && e.mode == a.mode && e.kind == File && e.linkTarget == None
    && e.blob.Some? && e.blob.value in blobs
    && var text := blobs[e.blob.value];
       e.size == |text| % 0x1_0000_0000_0000_0000
       && exists ta, tb :: SideText(p, m, a, ta) && SideText(p, m, b, tb) && HoldsBoth(text, ta, tb)
  }

  /** What the merge leaves at a path and what it records about it. */
  ghost predicate MergedAt(p: Prim, m: Cas.Blobs, t: Trees, r: Progress, k: string) {
    var a, b, x := At(t.a, k), At(t.b, k), At(t.x, k);
    if !Differ(b, x) || (a.None? && b.None?) then EntryIs(r.merged, k, a) && ConflictIs(r.conflicts, k, None)
    else if !Differ(a, x) then EntryIs(r.merged, k, b) && ConflictIs(r.conflicts, k, None)
    else if !Differ(a, b) then EntryIs(r.merged, k, a) && ConflictIs(r.conflicts, k, None)
    else
      && ConflictIs(r.conflicts, k, Some(ConflictOf(p, k, a, b, x)))
      && if b.None? then EntryIs(r.merged, k, a)
         else if a.None? then EntryIs(r.merged, k, b)
         else exists e :: EntryIs(r.merged, k, Some(e)) && ConflictFile(p, m, r.blobs, a.value, b.value, e)
  }

  lemma {:induction false} OutputIsEntry(p: Prim, m: Cas.Blobs, t: Trees, paths: seq<string>, k: string)
    requires Ready(p, m, t) && AllPaths(t, paths) && OwnPaths(t.a) && OwnPaths(t.b)
    ensures EntryIs(Entries(p, m, t, paths), k, OutputAt(p, m, t, k))
  {
    EntriesArePerPath(p, m, t, paths);
    OutputPath(p, m, t, k);
  }

  lemma {:induction false} ConflictsAre(p: Prim, t: Trees, paths: seq<string>, k: string)
    ensures ConflictIs(Conflicts(p, t, paths), k, if k in paths && ConflictedAt(t, k) then Some(Pair(p, t, k)) else None)
  {
    if paths != [] {
      ConflictsAre(p, t, paths[1..], k);
      assert paths == [paths[0]] + paths[1..];
      assert Pair(p, t, paths[0]).path == paths[0];
      assert forall c :: c in Conflicts(p, t, paths) <==> c in ConflictsAt(p, t, paths[0]) || c in Conflicts(p, t, paths[1..]);
    }
  }

  /** The marker entry that the merge makes of two contents. */
  lemma {:induction false} MarkerIsFile(p: Prim, m: Cas.Blobs, blobs: Cas.Blobs, a: Entry, b: Entry)
    requires Content(p, m, a).Some? && Content(p, m, b).Some?
    requires
      var text := Marked(p, Content(p, m, a).value, Content(p, m, b).value);
      Cas.Lookup(blobs, Of(p, text)) == Some(text)
    ensures
      var text := Marked(p, Content(p, m, a).value, Content(p, m, b).value);
      ConflictFile(p, m, blobs, a, b, MarkerEntry(a, Of(p, text), Size64(text)))
  {
    hide HoldsBoth, SideText;
    ContentIsSide(p, m, a);
    ContentIsSide(p, m, b);
    MarkedHoldsBoth(p, Content(p, m, a).value, Content(p, m, b).value);
  }

  lemma {:induction false} ClashOutput(p: Prim, m: Cas.Blobs, t: Trees, k: string)
    requires Ready(p, m, t) && Decide(At(t.a, k), At(t.b, k), At(t.x, k)).Clash?
    ensures k in t.a && k in t.b && Content(p, m, t.a[k]).Some? && Content(p, m, t.b[k]).Some?
    ensures
      var text := Marked(p, Content(p, m, t.a[k]).value, Content(p, m, t.b[k]).value);
      text in MarkerTexts(p, m, t) && OutputAt(p, m, t, k) == Some(MarkerEntry(t.a[k], Of(p, text), Size64(text)))
  {
    hide Marked;
    assert k in t.a && k in t.b && Decide(At(t.a, k), At(t.b, k), At(t.x, k)) == Clash(t.a[k], t.b[k]);
    assert Content(p, m, t.a[k]).Some? && Content(p, m, t.b[k]).Some?;
    assert MarkerText(p, m, t.a[k], t.b[k]).Some?;
  }

  lemma {:induction false} MarkerStored(p: Prim, m: Cas.Blobs, t: Trees, paths: seq<string>, k: string)
    requires Ready(p, m, t) && AllPaths(t, paths) && OwnPaths(t.a) && OwnPaths(t.b)
    requires Decide(At(t.a, k), At(t.b, k), At(t.x, k)).Clash?
    ensures
      var r := Algebra.Run(p, m, t, paths);
      && r.Some? && OutputAt(p, m, t, k).Some?
      && ConflictFile(p, m, r.value.blobs, t.a[k], t.b[k], OutputAt(p, m, t, k).value)
  {
    hide ConflictFile, Marked;
    ClashOutput(p, m, t, k);
    var text := Marked(p, Content(p, m, t.a[k]).value, Content(p, m, t.b[k]).value);
    TextInRun(p, m, t, paths, OutputAt(p, m, t, k).value, text);
    MarkerIsFile(p, m, Algebra.Run(p, m, t, paths).value.blobs, t.a[k], t.b[k]);
  }

  lemma {:induction false} TextInRun(p: Prim, m: Cas.Blobs, t: Trees, paths: seq<string>, e: Entry, text: Bytes)
    requires Ready(p, m, t) && AllPaths(t, paths) && OwnPaths(t.a) && OwnPaths(t.b) && text in MarkerTexts(p, m, t)
    requires OutputAt(p, m, t, e.path) == Some(e) && e.blob == Some(Of(p, text))
    ensures Algebra.Run(p, m, t, paths).Some?
    ensures Cas.Lookup(Algebra.Run(p, m, t, paths).value.blobs, Of(p, text)) == Some(text)
  {
    hide MarkerTexts, OutputAt;
    FoldPerPath(p, m, t, Progress(m, [], [], 0), paths);
    MergedTreeShape(p, m, t, paths);
    var r := Algebra.Run(p, m, t, paths).value;
    assert e in r.merged;
    StoredText(p, m, t, r.blobs, text);
  }

  /** No other bytes of this merge have the marker's digest. */
  lemma {:induction false} StoredText(p: Prim, m: Cas.Blobs, t: Trees, blobs: Cas.Blobs, text: Bytes)
    requires Ready(p, m, t) && Between(p, m, t, blobs) && text in MarkerTexts(p, m, t) && Of(p, text) in blobs
    ensures blobs[Of(p, text)] == text
  {
    assert blobs[Of(p, text)] in blobs.Values;
    OfInjective(p, m.Values + MarkerTexts(p, m, t), blobs[Of(p, text)], text);
  }

  lemma {:induction false} TableRow(p: Prim, m: Cas.Blobs, t: Trees, r: Progress, k: string)
    requires EntryIs(r.merged, k, OutputAt(p, m, t, k))
    requires ConflictIs(r.conflicts, k, if ConflictedAt(t, k) then Some(Pair(p, t, k)) else None)
    requires Decide(At(t.a, k), At(t.b, k), At(t.x, k)).Clash? ==>
      OutputAt(p, m, t, k).Some? && ConflictFile(p, m, r.blobs, t.a[k], t.b[k], OutputAt(p, m, t, k).value)
    ensures MergedAt(p, m, t, r, k)
  {
    hide EntryIs, ConflictIs, ConflictFile, MarkerText, MarkerEntry;
    assert Pair(p, t, k) == ConflictOf(p, k, At(t.a, k), At(t.b, k), At(t.x, k));
  }

  /** On complete images the merge leaves at every path what the table says. */
  lemma {:induction false} MergeTable(p: Prim, m: Cas.Blobs, t: Trees, paths: seq<string>, k: string)
    requires Ready(p, m, t) && AllPaths(t, paths) && OwnPaths(t.a) && OwnPaths(t.b)
    ensures
      var r := Algebra.Run(p, m, t, paths);
      r.Some? && MergedAt(p, m, t, r.value, k)
  {
    hide EntryIs, ConflictIs, ConflictFile, MergedAt, MarkerText;
    RunPerPath(p, m, t, paths);
    OutputIsEntry(p, m, t, paths, k);
    ConflictsAre(p, t, paths, k);
    if Decide(At(t.a, k), At(t.b, k), At(t.x, k)).Clash? {
      MarkerStored(p, m, t, paths, k);
    }
    assert ConflictedAt(t, k) ==> k in paths;
    TableRow(p, m, t, Algebra.Run(p, m, t, paths).value, k);
  }

  // ---------- reading the trees, and missing blobs ----------

  /** Of several entries with one path the last counts. */
  ghost predicate LastWith(es: seq<Entry>, k: string, e: Entry) {
    exists i :: 0 <= i < |es| && es[i] == e && e.path == k && forall j :: i < j < |es| ==> es[j].path != k
  }

  lemma {:induction false} LastCounts(es: seq<Entry>, k: string, e: Entry)
    ensures At(MapOf(es), k) == Some(e) <==> LastWith(es, k, e)
  {
    if es != [] {
      var last := |es| - 1;
      LastCounts(es[..last], k, e);
      if LastWith(es[..last], k, e) && es[last].path != k {
        var i :| 0 <= i < last && es[..last][i] == e && e.path == k && forall j :: i < j < last ==> es[..last][j].path != k;
        assert es[i] == e && forall j :: i < j < |es| ==> j == last || es[j] == es[..last][j];
      }
      if LastWith(es, k, e) && es[last].path != k {
        var i :| 0 <= i < |es| && es[i] == e && e.path == k && forall j :: i < j < |es| ==> es[j].path != k;
        assert es[..last][i] == e && forall j :: i < j < last ==> es[..last][j] == es[j];
      }
    }
  }

  predicate Lacks(m: Cas.Blobs, e: Entry) { e.blob.Some? && e.blob.value !in m }

  /** Both sides hold the path, changed it differently, and a blob is missing. */
  predicate StopsAt(m: Cas.Blobs, t: Trees, k: string) {
    && k in t.a && k in t.b
    && Differ(At(t.a, k), At(t.b, k)) && Differ(At(t.a, k), At(t.x, k)) && Differ(At(t.b, k), At(t.x, k))
    && (Lacks(m, t.a[k]) || Lacks(m, t.b[k]))
  }

  /** No marker text has a digest that an entry names and the store lacks. */
  ghost predicate NoneHit(p: Prim, m: Cas.Blobs, t: Trees) {
    forall k, text :: text in MarkerTexts(p, m, t) ==>
      (k in t.a && Lacks(m, t.a[k]) ==> t.a[k].blob != Some(Of(p, text)))
      && (k in t.b && Lacks(m, t.b[k]) ==> t.b[k].blob != Some(Of(p, text)))
  }

  /** The store has grown by marker texts only. */
  ghost predicate GrownBy(p: Prim, m: Cas.Blobs, t: Trees, now: Cas.Blobs) {
    && Cas.Keyed(p, now) && Cas.Extends(m, now)
    && forall d :: d in now && d !in m ==> exists text :: text in MarkerTexts(p, m, t) && d == Of(p, text)
  }

  lemma {:induction false} LacksAlike(p: Prim, m: Cas.Blobs, t: Trees, now: Cas.Blobs, k: string)
    requires GrownBy(p, m, t, now) && NoneHit(p, m, t)
    ensures k in t.a ==> Content(p, now, t.a[k]) == Content(p, m, t.a[k])
    ensures k in t.b ==> Content(p, now, t.b[k]) == Content(p, m, t.b[k])
  {
  }

  lemma {:induction false} ClashIff(a: Option<Entry>, b: Option<Entry>, x: Option<Entry>)
    ensures Decide(a, b, x).Clash? <==> a.Some? && b.Some? && Differ(a, b) && Differ(a, x) && Differ(b, x)
    ensures Decide(a, b, x).Clash? ==> Decide(a, b, x) == Clash(a.value, b.value)
  {
  }

  lemma {:induction false} ClashStops(p: Prim, m: Cas.Blobs, t: Trees, s: Progress, k: string, c: Conflict)
    requires GrownBy(p, m, t, s.blobs) && NoneHit(p, m, t) && k in t.a && k in t.b
    ensures Clashed(p, s, t.a[k], t.b[k], c).None? <==> Lacks(m, t.a[k]) || Lacks(m, t.b[k])
    ensures Clashed(p, s, t.a[k], t.b[k], c).Some? ==> GrownBy(p, m, t, Clashed(p, s, t.a[k], t.b[k], c).value.blobs)
  {
    hide Marked, Text, NoneHit;
    LacksAlike(p, m, t, s.blobs, k);
    if Content(p, m, t.a[k]).Some? && Content(p, m, t.b[k]).Some? {
      var text := Marked(p, Content(p, m, t.a[k]).value, Content(p, m, t.b[k]).value);
      assert MarkerText(p, m, t.a[k], t.b[k]) == Some(text);
      assert text in MarkerTexts(p, m, t);
      hide MarkerTexts;
      Cas.StoredGrows(p, s.blobs, text);
    }
  }

  lemma {:induction false} StepStops(p: Prim, m: Cas.Blobs, t: Trees, s: Progress, k: string)
    requires GrownBy(p, m, t, s.blobs) && NoneHit(p, m, t)
    ensures StepAt(p, s, t, k).None? <==> StopsAt(m, t, k)
    ensures StepAt(p, s, t, k).Some? ==> GrownBy(p, m, t, StepAt(p, s, t, k).value.blobs)
  {
    hide GrownBy, NoneHit, Clashed, Lacks, Decide, Differ;
    var a, b, x := At(t.a, k), At(t.b, k), At(t.x, k);
    ClashIff(a, b, x);
    if Decide(a, b, x).Clash? {
      ClashStops(p, m, t, s, k, ConflictAt(p, k, a, b, x));
    }
  }

  lemma {:induction false} FoldStops(p: Prim, m: Cas.Blobs, t: Trees, s: Progress, paths: seq<string>)
    requires GrownBy(p, m, t, s.blobs) && NoneHit(p, m, t)
    ensures Fold(p, s, t, paths).None? <==> exists k :: k in paths && StopsAt(m, t, k)
    decreases |paths|
  {
    hide StopsAt, GrownBy, NoneHit, StepAt;
    if paths != [] {
      StepStops(p, m, t, s, paths[0]);
      assert paths == [paths[0]] + paths[1..];
      if StepAt(p, s, t, paths[0]).Some? {
        FoldStops(p, m, t, StepAt(p, s, t, paths[0]).value, paths[1..]);
      }
    }
  }

  /** A merge fails exactly if it cannot read a side of some conflict file. */
  lemma {:induction false} MergeFailsIff(p: Prim, m: Cas.Blobs, t: Trees, paths: seq<string>)
    requires Cas.Keyed(p, m) && NoneHit(p, m, t) && AllPaths(t, paths)
    ensures Algebra.Run(p, m, t, paths).None? <==> exists k :: StopsAt(m, t, k)
  {
    FoldStops(p, m, t, Progress(m, [], [], 0), paths);
    forall k | StopsAt(m, t, k)
      ensures k in paths
    {
      assert k in t.a;
    }
  }
}
