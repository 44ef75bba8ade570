/** The `fs.tree.v1` blob: the entries of a captured tree, what is optional in
    them, and their JSON. */
module Tree {
  import opened Bits
  import opened Base
  import Cas
  import Json

  datatype Kind = File | Dir | Symlink

  datatype Entry = Entry(
    path: string,
    mode: string,
    size: u64,
    kind: Kind,
    blob: Option<Digest>,
    linkTarget: Option<string>)

  const TREE_KIND: string := "fs.tree.v1"

  function KindName(k: Kind): string {
    match k
    case File => "file"
    case Dir => "dir"
    case Symlink => "symlink"
  }

  function KindOf(name: string): Option<Kind> {
    if name == "file" then Some(File) else if name == "dir" then Some(Dir)
    else if name == "symlink" then Some(Symlink) else None
  }

  /** Optional members are left out of the object when absent. */
  function EntryJson(e: Entry): Json.Value {
    var fields := map[
      Json.Path := Json.Str(e.path),
      Json.Mode := Json.Str(e.mode),
      Json.Size := Json.Num(e.size),
      Json.Kind := Json.Str(KindName(e.kind))];
    var withBlob := if e.blob.Some? then fields[Json.Blob := Json.Str(e.blob.value)] else fields;
    Json.Obj(if e.linkTarget.Some? then withBlob[Json.LinkTarget := Json.Str(e.linkTarget.value)] else withBlob)
  }

  /** A member that may be missing or null, but must be text otherwise. */
  function OptionalText(v: Json.Value, k: Json.Key): Option<Option<string>> {
    if !v.Has(k) || v.At(k).Null? then Some(None)
    else if v.At(k).Str? then Some(Some(v.At(k).s))
    else None
  }

  function JsonEntry(v: Json.Value): Option<Entry> {
    if && v.HasText(Json.Path) && v.HasText(Json.Mode) && v.HasText(Json.Kind)
       && KindOf(v.At(Json.Kind).s).Some?
       && v.Has(Json.Size) && v.At(Json.Size).Num? && 0 <= v.At(Json.Size).n < 0x1_0000_0000_0000_0000
       && OptionalText(v, Json.Blob).Some? && OptionalText(v, Json.LinkTarget).Some?
    then Some(Entry(v.At(Json.Path).s, v.At(Json.Mode).s, v.At(Json.Size).n, KindOf(v.At(Json.Kind).s).value,
                    OptionalText(v, Json.Blob).value, OptionalText(v, Json.LinkTarget).value))
    else None
  }

  function EntriesJson(es: seq<Entry>): seq<Json.Value> {
    if es == [] then [] else [EntryJson(es[0])] + EntriesJson(es[1..])
  }

  function JsonEntries(vs: seq<Json.Value>): Option<seq<Entry>> {
    if vs == [] then Some([])
    else
      match (JsonEntry(vs[0]), JsonEntries(vs[1..]))
      case (Some(e), Some(es)) => Some([e] + es)
      case _ => None
  }

  function TreeJson(es: seq<Entry>): Json.Value {
    Json.Obj(map[Json.Kind := Json.Str(TREE_KIND), Json.Entries := Json.Arr(EntriesJson(es))])
  }

  function TreeBytes(p: Prim, es: seq<Entry>): Bytes { p.render(TreeJson(es)) }

  /** The typed reading that `restore_tree` and `merge_world` start with. */
  function ReadTree(p: Prim, b: Bytes): Option<seq<Entry>> {
    match p.parse(b)
    case None => None
    case Some(v) =>
      if v.Says(Json.Kind, TREE_KIND) && v.HasList(Json.Entries)
      then JsonEntries(v.At(Json.Entries).items)
      else None
  }

  lemma {:induction false} EntryRoundTrip(e: Entry)
    ensures JsonEntry(EntryJson(e)) == Some(e)
  {
  }

  lemma {:induction false} EntriesRoundTrip(es: seq<Entry>)
    ensures JsonEntries(EntriesJson(es)) == Some(es)
  {
    if es != [] {
      EntryRoundTrip(es[0]);
      EntriesRoundTrip(es[1..]);
      assert es == [es[0]] + es[1..];
    }
  }

  lemma {:induction false} EntryRepresentable(e: Entry)
    ensures Json.Representable(EntryJson(e))
  {
    Json.ObjectRepresentable(EntryJson(e).fields);
  }

  lemma {:induction false} EntriesRepresentable(es: seq<Entry>)
    ensures Json.Representable(Json.Arr(EntriesJson(es)))
  {
    if es != [] {
      EntryRepresentable(es[0]);
      EntriesRepresentable(es[1..]);
      var items, rest := EntriesJson(es), EntriesJson(es[1..]);
      forall i | 0 <= i < |items|
        ensures Json.Representable(items[i])
      {
        assert i > 0 ==> items[i] == rest[i - 1];
      }
    }
  }

  lemma {:induction false} TreeRepresentable(es: seq<Entry>)
    ensures Json.Representable(TreeJson(es))
  {
    EntriesRepresentable(es);
    Json.ObjectRepresentable(TreeJson(es).fields);
  }

  lemma {:induction false} TreeRoundTrip(p: Prim, es: seq<Entry>)
    requires Lawful(p)
    ensures ReadTree(p, TreeBytes(p, es)) == Some(es)
  {
    TreeRepresentable(es);
    assert p.parse(TreeBytes(p, es)) == Some(TreeJson(es));
    EntriesRoundTrip(es);
  }

  // ---------- the text of a tree ----------

  predicate KindIs(k: Kind, name: string) {
    (k == File && name == "file") || (k == Dir && name == "dir") || (k == Symlink && name == "symlink")
  }

  /** A member that is left out when there is nothing to write. */
  ghost predicate ReadsSome(v: Json.Value, name: string, text: Option<string>) {
    text.Some? ==> Json.Reads(v, name, Json.Str(text.value))
  }

  /** The document has these members and no others, with the values of the entry. */
  ghost predicate EntryReads(v: Json.Value, e: Entry) {
    && Json.Members(v, 4 + (if e.blob.Some? then 1 else 0) + (if e.linkTarget.Some? then 1 else 0))
    && Json.Reads(v, "path", Json.Str(e.path)) && Json.Reads(v, "mode", Json.Str(e.mode))
    && Json.Reads(v, "size", Json.Num(e.size))
    && (exists name :: KindIs(e.kind, name) && Json.Reads(v, "kind", Json.Str(name)))
    && ReadsSome(v, "blob", e.blob) && ReadsSome(v, "link_target", e.linkTarget)
  }

  ghost predicate AllRead(vs: seq<Json.Value>, es: seq<Entry>) {
    |vs| == |es| && forall i :: 0 <= i < |es| ==> EntryReads(vs[i], es[i])
  }

  ghost predicate TreeReads(v: Json.Value, es: seq<Entry>) {
    && Json.Members(v, 2) && Json.Reads(v, "kind", Json.Str("fs.tree.v1"))
    && exists items :: Json.Reads(v, "entries", Json.Arr(items)) && AllRead(items, es)
  }

  lemma {:induction false} EntryJsonReads(e: Entry)
    ensures EntryReads(EntryJson(e), e)
  {
    Json.TreeNames();
    hide Json.Reads, Json.KeyText;
    var v := EntryJson(e);
    Json.ReadsMember(v, Json.Path);
    Json.ReadsMember(v, Json.Mode);
    Json.ReadsMember(v, Json.Size);
    Json.ReadsMember(v, Json.Kind);
    assert KindIs(e.kind, KindName(e.kind));
    if e.blob.Some? {
      Json.ReadsMember(v, Json.Blob);
    }
    if e.linkTarget.Some? {
      Json.ReadsMember(v, Json.LinkTarget);
    }
  }

  lemma {:induction false} EntriesJsonRead(es: seq<Entry>)
    ensures AllRead(EntriesJson(es), es)
  {
    hide EntryReads, EntryJson;
    if es != [] {
      EntryJsonReads(es[0]);
      EntriesJsonRead(es[1..]);
      var items, rest := EntriesJson(es), EntriesJson(es[1..]);
      forall i | 0 <= i < |es|
        ensures EntryReads(items[i], es[i])
      {
        assert i > 0 ==> items[i] == rest[i - 1] && es[i] == es[1..][i - 1];
      }
    }
  }

  /** The stored bytes of a tree, member by member. */
  lemma {:induction false} TreeText(p: Prim, es: seq<Entry>)
    requires Lawful(p)
    ensures p.parse(TreeBytes(p, es)).Some? && TreeReads(p.parse(TreeBytes(p, es)).value, es)
  {
    Json.TreeNames();
    hide Json.Reads, Json.KeyText, AllRead;
    TreeRepresentable(es);
    var v := TreeJson(es);
    assert p.parse(TreeBytes(p, es)) == Some(v);
    Json.ReadsMember(v, Json.Kind);
    Json.ReadsMember(v, Json.Entries);
    EntriesJsonRead(es);
  }

  /** Every blob the entries name is in the store. */
  ghost predicate BlobClosed(m: Cas.Blobs, es: seq<Entry>) {
    forall i :: 0 <= i < |es| && es[i].blob.Some? ==> es[i].blob.value in m
  }

  /** `bytes.len() as u64` */
  function Size64(b: Bytes): u64 { |b| % 0x1_0000_0000_0000_0000 }
}
