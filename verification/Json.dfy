/** Machine integers and byte strings. */
module Bits {
  newtype byte = x: int | 0 <= x < 256
  type Bytes = seq<byte>
  type u32 = x: int | 0 <= x < 0x1_0000_0000
  type u64 = x: int | 0 <= x < 0x1_0000_0000_0000_0000
}

/** JSON documents as values. The names of object members that the program
    looks at are constructors of `Key`, so that a typed decoder and a dynamic
    lookup (`value.get("blob")`) speak about the same member. A number with a
    fraction or an exponent is kept as text. */
module Json {
  datatype Key =
    | Kind | Entries | Path | Mode | Size | Blob | LinkTarget
    | Layout | PageSizeTokens | NLayers | NHeads | HeadDim | Dtype | Pages | LogicalSeqs
    | Ix | K | V | Id | PageIxs | FillInLastPage
    | Ts | ToolId | ArgsHash | IdempotencyKey | ResultHash | SideEffectClass | SessionHmac
    | SessionSecretHex | VerificationMode
    | ParentA | ParentB | Ancestor | ReplayWithNewKey | Summary
    | AEntries | BEntries | BIrreversibleCached
    | Other(name: string)

  datatype Value =
    | Null
    | Bool(b: bool)
    | Num(n: int)
    | Float(text: string)
    | Str(s: string)
    | Arr(items: seq<Value>)
    | Obj(fields: map<Key, Value>)
  {
    /** `value.get(key)`: nothing unless this is an object holding the key. */
    predicate Has(k: Key) { Obj? && k in fields }

    function At(k: Key): Value
      requires Has(k)
    {
      fields[k]
    }

    /** `value.get(key).and_then(as_str)` is there. */
    predicate HasText(k: Key) { Has(k) && At(k).Str? }

    /** `value.get(key).and_then(as_array)` is there. */
    predicate HasList(k: Key) { Has(k) && At(k).Arr? }

    /** `value.get(key).and_then(as_str) == Some(text)` */
    predicate Says(k: Key, text: string) { Has(k) && At(k) == Str(text) }
  }

  /** The name of a member in JSON text. */
  function KeyText(k: Key): string {
    match k
    case Kind => "kind"
    case Entries => "entries"
    case Path => "path"
    case Mode => "mode"
    case Size => "size"
    case Blob => "blob"
    case LinkTarget => "link_target"
    case Layout => "layout"
    case PageSizeTokens => "page_size_tokens"
    case NLayers => "n_layers"
    case NHeads => "n_heads"
    case HeadDim => "head_dim"
    case Dtype => "dtype"
    case Pages => "pages"
    case LogicalSeqs => "logical_seqs"
    case Ix => "ix"
    case K => "k"
    case V => "v"
    case Id => "id"
    case PageIxs => "page_ixs"
    case FillInLastPage => "fill_in_last_page"
    case Ts => "ts"
    case ToolId => "tool_id"
    case ArgsHash => "args_hash"
    case IdempotencyKey => "idempotency_key"
    case ResultHash => "result_hash"
    case SideEffectClass => "side_effect_class"
    case SessionHmac => "session_hmac"
    case SessionSecretHex => "session_secret_hex"
    case VerificationMode => "verification_mode"
    case ParentA => "parent_a"
    case ParentB => "parent_b"
    case Ancestor => "ancestor"
    case ReplayWithNewKey => "replay_with_new_key"
    case Summary => "summary"
    case AEntries => "a_entries"
    case BEntries => "b_entries"
    case BIrreversibleCached => "b_irreversible_cached"
    case Other(name) => name
  }

  /** In the text of this document the member of that name has that value. */
  ghost predicate Reads(v: Value, name: string, w: Value) {
    v.Obj? && exists k :: k in v.fields && KeyText(k) == name && v.fields[k] == w
  }

  /** An object of that many members. */
  predicate Members(v: Value, n: nat) { v.Obj? && |v.fields| == n }

  /** What the member `k` of an object holds is read under its name. */
  lemma {:induction false} ReadsMember(v: Value, k: Key)
    requires v.Has(k)
    ensures Reads(v, KeyText(k), v.At(k))
  {
  }

  // The names of the members each format uses.

  lemma {:induction false} HeaderNames()
    ensures KeyText(Kind) == "kind" && KeyText(Entries) == "entries"
    ensures KeyText(SessionSecretHex) == "session_secret_hex" && KeyText(VerificationMode) == "verification_mode"
  {
  }

  lemma {:induction false} EntryNames()
    ensures KeyText(Ts) == "ts" && KeyText(ToolId) == "tool_id"
    ensures KeyText(ArgsHash) == "args_hash" && KeyText(IdempotencyKey) == "idempotency_key"
    ensures KeyText(ResultHash) == "result_hash" && KeyText(SideEffectClass) == "side_effect_class"
    ensures KeyText(SessionHmac) == "session_hmac"
  {
    MoreEntryNames();
    hide KeyText;
    FirstEntryNames();
  }

  lemma {:induction false} FirstEntryNames()
    ensures KeyText(Ts) == "ts" && KeyText(ToolId) == "tool_id"
    ensures KeyText(ArgsHash) == "args_hash"
  {
  }

  lemma {:induction false} MoreEntryNames()
    ensures KeyText(IdempotencyKey) == "idempotency_key" && KeyText(ResultHash) == "result_hash"
    ensures KeyText(SideEffectClass) == "side_effect_class" && KeyText(SessionHmac) == "session_hmac"
  {
  }

  lemma {:induction false} RecordNames()
    ensures KeyText(Kind) == "kind" && KeyText(ParentA) == "parent_a"
    ensures KeyText(ParentB) == "parent_b" && KeyText(Ancestor) == "ancestor"
    ensures KeyText(ReplayWithNewKey) == "replay_with_new_key" && KeyText(Summary) == "summary"
  {
    ReplayNames();
    hide KeyText;
    ParentNames();
  }

  lemma {:induction false} ParentNames()
    ensures KeyText(Kind) == "kind" && KeyText(ParentA) == "parent_a"
    ensures KeyText(ParentB) == "parent_b" && KeyText(Ancestor) == "ancestor"
  {
  }

  lemma {:induction false} ReplayNames()
    ensures KeyText(ReplayWithNewKey) == "replay_with_new_key" && KeyText(Summary) == "summary"
  {
  }

  lemma {:induction false} SummaryNames()
    ensures KeyText(AEntries) == "a_entries" && KeyText(BEntries) == "b_entries"
    ensures KeyText(BIrreversibleCached) == "b_irreversible_cached"
  {
  }

  lemma {:induction false} TreeNames()
    ensures KeyText(Kind) == "kind" && KeyText(Entries) == "entries"
    ensures KeyText(Path) == "path" && KeyText(Mode) == "mode"
    ensures KeyText(Size) == "size" && KeyText(Blob) == "blob"
    ensures KeyText(LinkTarget) == "link_target"
  {
  }

  lemma {:induction false} PageNames()
    ensures KeyText(Layout) == "layout" && KeyText(PageSizeTokens) == "page_size_tokens"
    ensures KeyText(NLayers) == "n_layers" && KeyText(NHeads) == "n_heads"
    ensures KeyText(HeadDim) == "head_dim" && KeyText(Dtype) == "dtype"
    ensures KeyText(Pages) == "pages" && KeyText(LogicalSeqs) == "logical_seqs"
  {
  }

  lemma {:induction false} PartNames()
    ensures KeyText(Ix) == "ix" && KeyText(K) == "k"
    ensures KeyText(V) == "v" && KeyText(Id) == "id"
    ensures KeyText(PageIxs) == "page_ixs" && KeyText(FillInLastPage) == "fill_in_last_page"
  {
  }

  /** A name the program does not look at is not one of those it does. */
  ghost predicate Unambiguous(k: Key) {
    k.Other? ==> forall r: Key :: !r.Other? ==> KeyText(r) != KeyText(k)
  }

  /** Documents that printing and parsing carry over: their integers fit 64 bits,
      and each member has one reading. Numbers with fractions are only printed. */
  ghost predicate Representable(v: Value) {
    match v
    case Num(n) => -0x8000_0000_0000_0000 <= n < 0x1_0000_0000_0000_0000
    case Float(_) => false
    case Arr(items) => forall i :: 0 <= i < |items| ==> Representable(items[i])
    case Obj(fields) => forall k :: k in fields ==> Unambiguous(k) && Representable(fields[k])
    case _ => true
  }

  /** An object of known members, each representable. */
  lemma {:induction false} ObjectRepresentable(fields: map<Key, Value>)
    requires forall k :: k in fields ==> !k.Other? && Representable(fields[k])
    ensures Representable(Obj(fields))
  {
    forall k | k in fields
      ensures Unambiguous(k) && Representable(fields[k])
    {
    }
  }
}
