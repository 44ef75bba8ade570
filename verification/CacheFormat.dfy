/** The page manifest of a paged cache: the metadata of the engine, its pages and
    its sequences in canonical order, and their JSON. */
module CacheFormat {
  import opened Bits
  import opened Base
  import opened Sorting
  import Json

  const LAYOUT_V1: string := "paged-batchinvariant-v1"

  datatype Dtype = Bf16 | F16 | F32 | Fp8E4m3

  function DtypeBytes(d: Dtype): nat {
    match d
    case Bf16 => 2
    case F16 => 2
    case F32 => 4
    case Fp8E4m3 => 1
  }

  function DtypeName(d: Dtype): string {
    match d
    case Bf16 => "bf16"
    case F16 => "f16"
    case F32 => "f32"
    case Fp8E4m3 => "fp8e4m3"
  }

  function DtypeOf(name: string): Option<Dtype> {
    if name == "bf16" then Some(Bf16) else if name == "f16" then Some(F16)
    else if name == "f32" then Some(F32) else if name == "fp8e4m3" then Some(Fp8E4m3) else None
  }

  datatype CacheMeta = CacheMeta(pageSizeTokens: u32, nLayers: u32, nHeads: u32, headDim: u32, dtype: Dtype)

  /** Bytes of one K page or V page; the product wraps as `usize` does. */
  function PageSize(c: CacheMeta): nat {
    (c.nLayers * c.pageSizeTokens * c.nHeads * c.headDim * DtypeBytes(c.dtype)) % 0x1_0000_0000_0000_0000
  }

  datatype Page = Page(ix: u32, k: Digest, v: Digest)

  datatype LogicalSeq = LogicalSeq(id: string, pageIxs: seq<u32>, fillInLastPage: u32)

  datatype PageManifest = PageManifest(layout: string, meta: CacheMeta, pages: seq<Page>, logicalSeqs: seq<LogicalSeq>)

  predicate IxLe(a: Page, b: Page) { a.ix <= b.ix }

  predicate IdLe(a: LogicalSeq, b: LogicalSeq) { StrLe(a.id, b.id) }

  predicate NatLe(a: u32, b: u32) { a <= b }

  lemma {:induction false} Orders()
    ensures TotalPreorder(IxLe) && TotalPreorder(IdLe) && TotalPreorder(NatLe)
  {
    forall a: LogicalSeq, b: LogicalSeq
      ensures IdLe(a, b) || IdLe(b, a)
    {
      StrTotal(a.id, b.id);
    }
    forall a: LogicalSeq, b: LogicalSeq, c: LogicalSeq | IdLe(a, b) && IdLe(b, c)
      ensures IdLe(a, c)
    {
      StrTransitive(a.id, b.id, c.id);
    }
  }

  /** `canonicalize` */
  function Canonical(m: PageManifest): PageManifest {
    PageManifest(m.layout, m.meta, Sort(m.pages, IxLe), Sort(m.logicalSeqs, IdLe))
  }

  // ---------- JSON ----------

  function EncodeList<T>(xs: seq<T>, encode: T -> Json.Value): seq<Json.Value> {
    if xs == [] then [] else [encode(xs[0])] + EncodeList(xs[1..], encode)
  }

  function DecodeList<T>(vs: seq<Json.Value>, decode: Json.Value -> Option<T>): Option<seq<T>> {
    if vs == [] then Some([])
    else
      match (decode(vs[0]), DecodeList(vs[1..], decode))
      case (Some(x), Some(xs)) => Some([x] + xs)
      case _ => None
  }

  lemma {:induction false} ListRoundTrip<T(!new)>(xs: seq<T>, encode: T -> Json.Value, decode: Json.Value -> Option<T>)
    requires forall x :: decode(encode(x)) == Some(x)
    ensures DecodeList(EncodeList(xs, encode), decode) == Some(xs)
  {
    if xs != [] {
      ListRoundTrip(xs[1..], encode, decode);
      assert xs == [xs[0]] + xs[1..];
      assert EncodeList(xs, encode)[1..] == EncodeList(xs[1..], encode);
    }
  }

  predicate IsU32(v: Json.Value) { v.Num? && 0 <= v.n < 0x1_0000_0000 }

  predicate HasU32(v: Json.Value, k: Json.Key) { v.Has(k) && IsU32(v.At(k)) }

  function NumJson(n: u32): Json.Value { Json.Num(n) }

  function JsonNum(v: Json.Value): Option<u32> { if IsU32(v) then Some(v.n) else None }

  function PageJson(pg: Page): Json.Value {
    Json.Obj(map[Json.Ix := Json.Num(pg.ix), Json.K := Json.Str(pg.k), Json.V := Json.Str(pg.v)])
  }

  function JsonPage(v: Json.Value): Option<Page> {
    if HasU32(v, Json.Ix) && v.HasText(Json.K) && v.HasText(Json.V)
    then Some(Page(v.At(Json.Ix).n, v.At(Json.K).s, v.At(Json.V).s))
    else None
  }

  function SeqJson(s: LogicalSeq): Json.Value {
    Json.Obj(map[
      Json.Id := Json.Str(s.id),
      Json.PageIxs := Json.Arr(EncodeList(s.pageIxs, NumJson)),
      Json.FillInLastPage := Json.Num(s.fillInLastPage)])
  }

  function JsonSeq(v: Json.Value): Option<LogicalSeq> {
    if v.HasText(Json.Id) && v.HasList(Json.PageIxs) && HasU32(v, Json.FillInLastPage)
       && DecodeList(v.At(Json.PageIxs).items, JsonNum).Some?
    then Some(LogicalSeq(v.At(Json.Id).s, DecodeList(v.At(Json.PageIxs).items, JsonNum).value, v.At(Json.FillInLastPage).n))
    else None
  }

  /** The metadata members stand beside the others in one object. */
  function ManifestJson(m: PageManifest): Json.Value {
    Json.Obj(map[
      Json.Layout := Json.Str(m.layout),
      Json.PageSizeTokens := Json.Num(m.meta.pageSizeTokens),
      Json.NLayers := Json.Num(m.meta.nLayers),
      Json.NHeads := Json.Num(m.meta.nHeads),
      Json.HeadDim := Json.Num(m.meta.headDim),
      Json.Dtype := Json.Str(DtypeName(m.meta.dtype)),
      Json.Pages := Json.Arr(EncodeList(m.pages, PageJson)),
      Json.LogicalSeqs := Json.Arr(EncodeList(m.logicalSeqs, SeqJson))])
  }

  function JsonMeta(v: Json.Value): Option<CacheMeta> {
    if && HasU32(v, Json.PageSizeTokens) && HasU32(v, Json.NLayers) && HasU32(v, Json.NHeads) && HasU32(v, Json.HeadDim)
       && v.HasText(Json.Dtype) && DtypeOf(v.At(Json.Dtype).s).Some?
    then Some(CacheMeta(v.At(Json.PageSizeTokens).n, v.At(Json.NLayers).n, v.At(Json.NHeads).n, v.At(Json.HeadDim).n,
                        DtypeOf(v.At(Json.Dtype).s).value))
    else None
  }

  function JsonManifest(v: Json.Value): Option<PageManifest> {
    if !(v.HasText(Json.Layout) && v.HasList(Json.Pages) && v.HasList(Json.LogicalSeqs)) then None
    else
      match (JsonMeta(v), DecodeList(v.At(Json.Pages).items, JsonPage), DecodeList(v.At(Json.LogicalSeqs).items, JsonSeq))
      case (Some(meta), Some(pages), Some(seqs)) => Some(PageManifest(v.At(Json.Layout).s, meta, pages, seqs))
      case _ => None
  }

  function ManifestBytes(p: Prim, m: PageManifest): Bytes { p.render(ManifestJson(m)) }

  /** The typed reading of a page manifest of this layout. */
  function ReadManifest(p: Prim, b: Bytes): Option<PageManifest> {
    match p.parse(b)
    case None => None
    case Some(v) =>
      match JsonManifest(v)
      case None => None
      case Some(m) => if m.layout == LAYOUT_V1 then Some(m) else None
  }

  lemma {:induction false} SeqRoundTrip(s: LogicalSeq)
    ensures JsonSeq(SeqJson(s)) == Some(s)
  {
    ListRoundTrip(s.pageIxs, NumJson, JsonNum);
  }

  lemma {:induction false} MetaRoundTrip(m: PageManifest)
    ensures JsonMeta(ManifestJson(m)) == Some(m.meta)
  {
  }

  lemma {:induction false} ManifestJsonRoundTrip(m: PageManifest)
    ensures JsonManifest(ManifestJson(m)) == Some(m)
  {
    MetaRoundTrip(m);
    ListRoundTrip(m.pages, PageJson, JsonPage);
    forall s
      ensures JsonSeq(SeqJson(s)) == Some(s)
    {
      SeqRoundTrip(s);
    }
    ListRoundTrip(m.logicalSeqs, SeqJson, JsonSeq);
  }

  lemma {:induction false} ListRepresentable<T(!new)>(xs: seq<T>, encode: T -> Json.Value)
    requires forall x :: Json.Representable(encode(x))
    ensures Json.Representable(Json.Arr(EncodeList(xs, encode)))
  {
    if xs != [] {
      ListRepresentable(xs[1..], encode);
      var items, rest := EncodeList(xs, encode), EncodeList(xs[1..], encode);
      forall i | 0 <= i < |items|
        ensures Json.Representable(items[i])
      {
        assert i > 0 ==> items[i] == rest[i - 1];
      }
    }
  }

  lemma {:induction false} PartsRepresentable()
    ensures forall pg :: Json.Representable(PageJson(pg))
    ensures forall s :: Json.Representable(SeqJson(s))
  {
    forall pg
      ensures Json.Representable(PageJson(pg))
    {
      Json.ObjectRepresentable(PageJson(pg).fields);
    }
    forall s
      ensures Json.Representable(SeqJson(s))
    {
      ListRepresentable(s.pageIxs, NumJson);
      Json.ObjectRepresentable(SeqJson(s).fields);
    }
  }

  lemma {:induction false} ManifestRepresentable(m: PageManifest)
    ensures Json.Representable(ManifestJson(m))
  {
    hide PageJson, SeqJson;
    PartsRepresentable();
    ListRepresentable(m.pages, PageJson);
    ListRepresentable(m.logicalSeqs, SeqJson);
    Json.ObjectRepresentable(ManifestJson(m).fields);
  }

  lemma {:induction false} ManifestRoundTrip(p: Prim, m: PageManifest)
    requires Lawful(p) && m.layout == LAYOUT_V1
    ensures ReadManifest(p, ManifestBytes(p, m)) == Some(m)
  {
    ManifestJsonRoundTrip(m);
    ManifestRepresentable(m);
    assert p.parse(ManifestBytes(p, m)) == Some(ManifestJson(m));
  }

  /** A page manifest of another layout is refused. */
  lemma {:induction false} OtherLayoutRefused(p: Prim, m: PageManifest)
    requires Lawful(p)
    ensures ReadManifest(p, ManifestBytes(p, m)).Some? <==> m.layout == "paged-batchinvariant-v1"
  {
    ManifestJsonRoundTrip(m);
    ManifestRepresentable(m);
    assert p.parse(ManifestBytes(p, m)) == Some(ManifestJson(m));
  }

  // ---------- the text of a page manifest ----------

  predicate DtypeIs(d: Dtype, name: string) {
    || (d == Bf16 && name == "bf16") || (d == F16 && name == "f16")
    || (d == F32 && name == "f32") || (d == Fp8E4m3 && name == "fp8e4m3")
  }

  ghost predicate PageReads(v: Json.Value, pg: Page) {
    && Json.Members(v, 3) && Json.Reads(v, "ix", Json.Num(pg.ix))
    && Json.Reads(v, "k", Json.Str(pg.k)) && Json.Reads(v, "v", Json.Str(pg.v))
  }

  ghost predicate SeqReads(v: Json.Value, s: LogicalSeq) {
    && Json.Members(v, 3) && Json.Reads(v, "id", Json.Str(s.id))
    && Json.Reads(v, "fill_in_last_page", Json.Num(s.fillInLastPage))
    && exists nums :: Json.Reads(v, "page_ixs", Json.Arr(nums)) && NumsRead(nums, s.pageIxs)
  }

  predicate NumsRead(vs: seq<Json.Value>, ns: seq<u32>) {
    |vs| == |ns| && forall i :: 0 <= i < |ns| ==> vs[i] == Json.Num(ns[i])
  }

  ghost predicate PagesRead(vs: seq<Json.Value>, pages: seq<Page>) {
    |vs| == |pages| && forall i :: 0 <= i < |pages| ==> PageReads(vs[i], pages[i])
  }

  ghost predicate SeqsRead(vs: seq<Json.Value>, seqs: seq<LogicalSeq>) {
    |vs| == |seqs| && forall i :: 0 <= i < |seqs| ==> SeqReads(vs[i], seqs[i])
  }

  ghost predicate MetaReads(v: Json.Value, c: CacheMeta) {
    && Json.Reads(v, "page_size_tokens", Json.Num(c.pageSizeTokens)) && Json.Reads(v, "n_layers", Json.Num(c.nLayers))
    && Json.Reads(v, "n_heads", Json.Num(c.nHeads)) && Json.Reads(v, "head_dim", Json.Num(c.headDim))
    && exists name :: DtypeIs(c.dtype, name) && Json.Reads(v, "dtype", Json.Str(name))
  }

  /** The document has these eight members, with the values of the manifest. */
  ghost predicate ManifestReads(v: Json.Value, m: PageManifest) {
    && Json.Members(v, 8) && Json.Reads(v, "layout", Json.Str(m.layout)) && MetaReads(v, m.meta)
    && (exists items :: Json.Reads(v, "pages", Json.Arr(items)) && PagesRead(items, m.pages))
    && (exists items :: Json.Reads(v, "logical_seqs", Json.Arr(items)) && SeqsRead(items, m.logicalSeqs))
  }

  lemma {:induction false} EncodedAt<T>(xs: seq<T>, encode: T -> Json.Value)
    ensures |EncodeList(xs, encode)| == |xs|
    ensures forall i :: 0 <= i < |xs| ==> EncodeList(xs, encode)[i] == encode(xs[i])
  {
    if xs != [] {
      EncodedAt(xs[1..], encode);
    }
  }

  lemma {:induction false} PageJsonReads(pg: Page)
    ensures PageReads(PageJson(pg), pg)
  {
    Json.PartNames();
    hide Json.Reads, Json.KeyText;
    Json.ReadsMember(PageJson(pg), Json.Ix);
    Json.ReadsMember(PageJson(pg), Json.K);
    Json.ReadsMember(PageJson(pg), Json.V);
  }

  lemma {:induction false} SeqJsonReads(s: LogicalSeq)
    ensures SeqReads(SeqJson(s), s)
  {
    Json.PartNames();
    hide Json.Reads, Json.KeyText;
    Json.ReadsMember(SeqJson(s), Json.Id);
    Json.ReadsMember(SeqJson(s), Json.PageIxs);
    Json.ReadsMember(SeqJson(s), Json.FillInLastPage);
    EncodedAt(s.pageIxs, NumJson);
    assert NumsRead(EncodeList(s.pageIxs, NumJson), s.pageIxs);
  }

  lemma {:induction false} MetaJsonReads(m: PageManifest)
    ensures MetaReads(ManifestJson(m), m.meta)
  {
    Json.PageNames();
    hide Json.Reads, Json.KeyText;
    var v := ManifestJson(m);
    Json.ReadsMember(v, Json.PageSizeTokens);
    Json.ReadsMember(v, Json.NLayers);
    Json.ReadsMember(v, Json.NHeads);
    Json.ReadsMember(v, Json.HeadDim);
    Json.ReadsMember(v, Json.Dtype);
    assert DtypeIs(m.meta.dtype, DtypeName(m.meta.dtype));
  }

  lemma {:induction false} ListsRead(m: PageManifest)
    ensures PagesRead(EncodeList(m.pages, PageJson), m.pages)
    ensures SeqsRead(EncodeList(m.logicalSeqs, SeqJson), m.logicalSeqs)
  {
    hide PageReads, SeqReads, PageJson, SeqJson;
    EncodedAt(m.pages, PageJson);
    EncodedAt(m.logicalSeqs, SeqJson);
    forall i | 0 <= i < |m.pages|
      ensures PageReads(EncodeList(m.pages, PageJson)[i], m.pages[i])
    {
      PageJsonReads(m.pages[i]);
    }
    forall i | 0 <= i < |m.logicalSeqs|
      ensures SeqReads(EncodeList(m.logicalSeqs, SeqJson)[i], m.logicalSeqs[i])
    {
      SeqJsonReads(m.logicalSeqs[i]);
    }
  }

  lemma {:induction false} ManifestJsonReads(m: PageManifest)
    ensures ManifestReads(ManifestJson(m), m)
  {
    Json.PageNames();
    hide Json.Reads, Json.KeyText, PagesRead, SeqsRead, MetaReads;
    var v := ManifestJson(m);
    Json.ReadsMember(v, Json.Layout);
    Json.ReadsMember(v, Json.Pages);
    Json.ReadsMember(v, Json.LogicalSeqs);
    MetaJsonReads(m);
    ListsRead(m);
  }

  /** The stored bytes of a page manifest, member by member. */
  lemma {:induction false} ManifestText(p: Prim, m: PageManifest)
    requires Lawful(p)
    ensures p.parse(ManifestBytes(p, m)).Some? && ManifestReads(p.parse(ManifestBytes(p, m)).value, m)
  {
    hide ManifestReads, ManifestJson, Json.Representable;
    ManifestRepresentable(m);
    ManifestJsonReads(m);
    assert p.parse(ManifestBytes(p, m)) == Some(ManifestJson(m));
  }

  // ---------- the size of a page ----------

  /** The bytes of one number of that type. */
  predicate NumberBytes(d: Dtype, n: nat) {
    || (d == Bf16 && n == 2) || (d == F16 && n == 2) || (d == F32 && n == 4) || (d == Fp8E4m3 && n == 1)
  }

  /** One page half holds, for every layer, token and head, a vector of the head's
      dimension; the size is that number of bytes wherever it fits 64 bits. */
  lemma {:induction false} PageSizeIs(c: CacheMeta, n: nat)
    requires NumberBytes(c.dtype, n)
    ensures SameMod64(PageSize(c), HalfBytes(c.nLayers, c.pageSizeTokens, c.nHeads, c.headDim, n))
  {
    Regroup(c.nLayers, c.pageSizeTokens, c.nHeads, c.headDim, n);
    Wrapped(c.nLayers * c.pageSizeTokens * c.nHeads * c.headDim * DtypeBytes(c.dtype));
  }

  function HalfBytes(layers: nat, tokens: nat, heads: nat, dim: nat, n: nat): nat { layers * (tokens * (heads * (dim * n))) }

  /** The size is below 2^64, and the bytes differ from it by a multiple of that. */
  ghost predicate SameMod64(size: nat, bytes: nat) {
    size < 0x1_0000_0000_0000_0000 && exists wraps: nat :: Wraps(size, bytes, wraps)
  }

  predicate Wraps(size: nat, bytes: nat, wraps: nat) { bytes == size + wraps * 0x1_0000_0000_0000_0000 }

  lemma {:induction false} Regroup(l: nat, t: nat, h: nat, d: nat, n: nat)
    ensures l * t * h * d * n == HalfBytes(l, t, h, d, n)
  {
    Associative(l, t, h);
    Associative(l, t * h, d);
    Associative(l, t * h * d, n);
    Associative(t, h, d);
    Associative(t, h * d, n);
    Associative(h, d, n);
  }

  lemma {:induction false} Associative(x: nat, y: nat, z: nat)
    ensures x * y * z == x * (y * z)
  {
  }

  lemma {:induction false} Wrapped(x: nat)
    ensures SameMod64(x % 0x1_0000_0000_0000_0000, x)
  {
    assert Wraps(x % 0x1_0000_0000_0000_0000, x, x / 0x1_0000_0000_0000_0000);
  }
}
