/** The append-only effect ledger and its HMAC chain. */
module Ledger {
  import opened Bits
  import opened Base
  import Json

  datatype Class = Pure | Idempotent | Irreversible | NetworkOnly

  /** `effects.entry.v1`; the timestamp is kept in its RFC 3339 text. */
  datatype Entry = Entry(
    ts: string,
    toolId: string,
    argsHash: Digest,
    key: string,
    resultHash: Digest,
    class_: Class,
    mac: string)

  function ClassName(c: Class): string {
    match c
    case Pure => "pure"
    case Idempotent => "idempotent"
    case Irreversible => "irreversible"
    case NetworkOnly => "network-only"
  }

  function EntryJson(e: Entry): Json.Value {
    Json.Obj(map[
      Json.Ts := Json.Str(e.ts),
      Json.ToolId := Json.Str(e.toolId),
      Json.ArgsHash := Json.Str(e.argsHash),
      Json.IdempotencyKey := Json.Str(e.key),
      Json.ResultHash := Json.Str(e.resultHash),
      Json.SideEffectClass := Json.Str(ClassName(e.class_)),
      Json.SessionHmac := Json.Str(e.mac)])
  }

  /** What a class is called in the text of an entry. */
  predicate CalledIn(c: Class, name: string) {
    || (c == Pure && name == "pure") || (c == Idempotent && name == "idempotent")
    || (c == Irreversible && name == "irreversible") || (c == NetworkOnly && name == "network-only")
  }

  /** The document has these members and no others, with the values of the entry. */
  ghost predicate EntryReads(v: Json.Value, e: Entry) {
    && Json.Members(v, 7)
    && Json.Reads(v, "ts", Json.Str(e.ts)) && Json.Reads(v, "tool_id", Json.Str(e.toolId))
    && Json.Reads(v, "args_hash", Json.Str(e.argsHash)) && Json.Reads(v, "idempotency_key", Json.Str(e.key))
    && Json.Reads(v, "result_hash", Json.Str(e.resultHash)) && Json.Reads(v, "session_hmac", Json.Str(e.mac))
    && exists name :: CalledIn(e.class_, name) && Json.Reads(v, "side_effect_class", Json.Str(name))
  }

  lemma {:induction false} EntryJsonReads(e: Entry)
    ensures EntryReads(EntryJson(e), e)
  {
    Json.EntryNames();
    hide Json.Reads, Json.KeyText;
    var v := EntryJson(e);
    Json.ReadsMember(v, Json.Ts);
    Json.ReadsMember(v, Json.ToolId);
    Json.ReadsMember(v, Json.ArgsHash);
    Json.ReadsMember(v, Json.IdempotencyKey);
    Json.ReadsMember(v, Json.ResultHash);
    Json.ReadsMember(v, Json.SideEffectClass);
    Json.ReadsMember(v, Json.SessionHmac);
    assert CalledIn(e.class_, ClassName(e.class_));
  }

  /** The entry with `session_hmac = ""`. */
  function Stripped(e: Entry): Entry { e.(mac := "") }

  function Body(p: Prim, e: Entry): Bytes { p.render(EntryJson(Stripped(e))) }

  /** Hex part of `entry_hash_without_hmac`. */
  function EntryHash(p: Prim, e: Entry): string { Hash(p, Body(p, e)) }

  /** What is signed for entry `i`: the previous entry's hash, then its own. */
  function Message(p: Prim, es: seq<Entry>, i: nat): string
    requires i < |es|
  {
    PrevHash(p, es, i) + EntryHash(p, es[i])
  }

  function PrevHash(p: Prim, es: seq<Entry>, i: nat): string
    requires i <= |es|
  {
    if i == 0 then "" else EntryHash(p, es[i - 1])
  }

  predicate VerifiesAt(p: Prim, secret: Bytes, es: seq<Entry>, i: nat)
    requires i < |es|
  {
    HexDecode(es[i].mac) == Some(p.hmacText(secret, Message(p, es, i)))
  }

  predicate VerifiesTo(p: Prim, secret: Bytes, es: seq<Entry>, n: nat)
    requires n <= |es|
  {
    forall i :: 0 <= i < n ==> VerifiesAt(p, secret, es, i)
  }

  predicate Verifies(p: Prim, secret: Bytes, es: seq<Entry>) { VerifiesTo(p, secret, es, |es|) }

  /** The text of a timestamp is as the program prints instants. */
  predicate Timed(p: Prim, e: Entry) { p.instant(e.ts) == Some(e.ts) }

  predicate AllTimed(p: Prim, es: seq<Entry>) { forall i :: 0 <= i < |es| ==> Timed(p, es[i]) }

  /** Entries whose timestamps and MACs are as `append` writes them. */
  ghost predicate Appended(p: Prim, secret: Bytes, es: seq<Entry>) {
    AllTimed(p, es) && forall i :: 0 <= i < |es| ==> SignedEntry(p, secret, es, i)
  }

  predicate SignedEntry(p: Prim, secret: Bytes, es: seq<Entry>, i: nat)
    requires i < |es|
  {
    es[i].mac == HexEncode(p.hmacText(secret, Message(p, es, i)))
  }

  /** The MAC is over the hash of the entry before, if there is one, and then the
      entry's own, both of the entry's JSON with an empty MAC. */
  predicate SignedAfter(p: Prim, secret: Bytes, before: seq<Entry>, e: Entry) {
    var own := Hash(p, p.render(EntryJson(e.(mac := ""))));
    e.mac == HexEncode(p.hmacText(secret,
                                  if before == [] then own
                                  else Hash(p, p.render(EntryJson(before[|before| - 1].(mac := "")))) + own))
  }

  datatype Verdict = Good | BadHex(ix: nat) | Mismatch(ix: nat)

  class Ledger {
    const secret: Bytes
    var entries: seq<Entry>

    ghost predicate Valid(p: Prim)
      reads this
    {
      Appended(p, secret, entries)
    }

    constructor (secret: Bytes)
      ensures this.secret == secret && entries == []
    {
      this.secret := secret;
      entries := [];
    }

    /** `Ledger { secret, entries }`, as `deserialize` builds it. */
    constructor Holding(secret: Bytes, entries: seq<Entry>)
      ensures this.secret == secret && this.entries == entries
    {
      this.secret := secret;
      this.entries := entries;
    }

    method Append(p: Prim, ts: string, toolId: string, argsHash: Digest, key: string, resultHash: Digest, class_: Class)
      returns (e: Entry)
      requires Valid(p) && p.instant(ts) == Some(ts)
      modifies this
      ensures Valid(p)
      ensures entries == old(entries) + [e]
      ensures Stripped(e) == Entry(ts, toolId, argsHash, key, resultHash, class_, "")
      ensures SignedAfter(p, secret, old(entries), e)
    {
      e := Entry(ts, toolId, argsHash, key, resultHash, class_, "");
      var prev := if entries == [] then "" else EntryHash(p, entries[|entries| - 1]);
      var this_ := EntryHash(p, e);
      var tag := p.hmacText(secret, prev + this_);
      e := e.(mac := HexEncode(tag));
      assert e.(mac := "") == Entry(ts, toolId, argsHash, key, resultHash, class_, "");
      assert entries == [] ==> prev + this_ == this_;
      AppendedExtends(p, secret, entries, e);
      entries := entries + [e];
    }

    /** Walks the chain and reports the first entry that does not verify. */
    method Verify(p: Prim) returns (r: Verdict)
      ensures r == Good <==> Verifies(p, secret, entries)
      ensures r != Good ==>
        && r.ix < |entries| && VerifiesTo(p, secret, entries, r.ix)
        && !VerifiesAt(p, secret, entries, r.ix)
        && (r.BadHex? <==> HexDecode(entries[r.ix].mac).None?)
    {
      hide EntryHash, Stripped, HexDecode;
      var prevHash := "";
      for ix := 0 to |entries|
        invariant prevHash == PrevHash(p, entries, ix)
        invariant VerifiesTo(p, secret, entries, ix)
      {
        var this_ := EntryHash(p, entries[ix]);
        var toSign := prevHash + this_;
        var expected := HexDecode(entries[ix].mac);
        assert VerifiesAt(p, secret, entries, ix) <==> expected == Some(p.hmacText(secret, toSign));
        if expected.None? {
          return BadHex(ix);
        }
        if p.hmacText(secret, toSign) != expected.value {
          return Mismatch(ix);
        }
        prevHash := this_;
      }
      return Good;
    }
  }

  lemma {:induction false} AppendedExtends(p: Prim, secret: Bytes, es: seq<Entry>, e: Entry)
    requires Appended(p, secret, es) && Timed(p, e)
    requires e.mac == HexEncode(p.hmacText(secret, PrevHash(p, es, |es|) + EntryHash(p, e)))
    ensures Appended(p, secret, es + [e])
  {
    forall i | 0 <= i < |es + [e]|
      ensures SignedEntry(p, secret, es + [e], i)
    {
      if i < |es| {
        assert SignedEntry(p, secret, es, i);
        MessageKept(p, es, e, i);
      } else {
        MessageLast(p, es, e);
      }
    }
  }

  lemma {:induction false} MessageKept(p: Prim, es: seq<Entry>, e: Entry, i: nat)
    requires i < |es|
    ensures Message(p, es + [e], i) == Message(p, es, i)
  {
    assert (es + [e])[i] == es[i];
    assert i > 0 ==> (es + [e])[i - 1] == es[i - 1];
  }

  lemma {:induction false} MessageLast(p: Prim, es: seq<Entry>, e: Entry)
    ensures Message(p, es + [e], |es|) == PrevHash(p, es, |es|) + EntryHash(p, e)
  {
    assert (es + [e])[|es|] == e;
    assert es != [] ==> (es + [e])[|es| - 1] == es[|es| - 1];
  }

  lemma {:induction false} AppendedVerifies(p: Prim, secret: Bytes, es: seq<Entry>)
    requires Appended(p, secret, es)
    ensures Verifies(p, secret, es)
  {
    forall i | 0 <= i < |es|
      ensures VerifiesAt(p, secret, es, i)
    {
      assert SignedEntry(p, secret, es, i);
      MacRoundTrip(es[i].mac, p.hmacText(secret, Message(p, es, i)));
    }
  }

  lemma {:induction false} MacRoundTrip(s: string, tag: Bytes)
    ensures s == HexEncode(tag) ==> HexDecode(s) == Some(tag)
    ensures HexDecode(s) == Some(tag) <==> Lower(s) == HexEncode(tag)
  {
    HexRoundTrip(s, tag);
    HexLength(tag);
    LowerFixed(HexEncode(tag));
  }

  // ---------- what the chain rules out ----------

  /** Equal but for the letter case of the hex MAC, which `hex::decode` accepts either way. */
  predicate SameEntry(e: Entry, f: Entry) {
    Stripped(e) == Stripped(f) && Lower(e.mac) == Lower(f.mac)
  }

  predicate PrefixOf(es: seq<Entry>, ledger: seq<Entry>) {
    |es| <= |ledger| && forall i :: 0 <= i < |es| ==> SameEntry(es[i], ledger[i])
  }

  /** Entry `i` of `es` asks for a signature that the ledger made for its entry `j`. */
  predicate SameMessage(p: Prim, es: seq<Entry>, i: nat, ledger: seq<Entry>, j: nat) {
    i < |es| && j < |ledger| && Message(p, es, i) == Message(p, ledger, j)
  }

  /** Every message `verify` would check is one the ledger signed: nobody
      without the secret can produce a tag for any other. */
  ghost predicate SignedBy(p: Prim, es: seq<Entry>, ledger: seq<Entry>) {
    forall i :: 0 <= i < |es| ==> SignedAt(p, es, i, ledger)
  }

  ghost predicate SignedAt(p: Prim, es: seq<Entry>, i: nat, ledger: seq<Entry>) {
    exists j :: SameMessage(p, es, i, ledger, j)
  }

  function Bodies(p: Prim, es: seq<Entry>): set<Bytes> {
    set i | 0 <= i < |es| :: Body(p, es[i])
  }

  predicate Distinct(es: seq<Entry>) {
    forall i, j :: 0 <= i < j < |es| ==> Stripped(es[i]) != Stripped(es[j])
  }

  lemma {:induction false} EntryRepresentable(e: Entry)
    ensures Json.Representable(EntryJson(e))
  {
    Json.ObjectRepresentable(EntryJson(e).fields);
  }

  lemma {:induction false} EntryPrints(p: Prim, e: Entry)
    requires Lawful(p)
    ensures p.parse(p.render(EntryJson(e))) == Some(EntryJson(e))
  {
    EntryRepresentable(e);
  }

  lemma {:induction false} SameFields(e: Entry, f: Entry)
    requires EntryJson(e) == EntryJson(f)
    ensures e == f
  {
    var v, w := EntryJson(e).fields, EntryJson(f).fields;
    assert v[Json.Ts] == Json.Str(e.ts) && w[Json.Ts] == Json.Str(f.ts);
    assert v[Json.ToolId] == Json.Str(e.toolId) && w[Json.ToolId] == Json.Str(f.toolId);
    assert v[Json.ArgsHash] == Json.Str(e.argsHash) && w[Json.ArgsHash] == Json.Str(f.argsHash);
    assert v[Json.IdempotencyKey] == Json.Str(e.key) && w[Json.IdempotencyKey] == Json.Str(f.key);
    assert v[Json.ResultHash] == Json.Str(e.resultHash) && w[Json.ResultHash] == Json.Str(f.resultHash);
    assert v[Json.SideEffectClass] == Json.Str(ClassName(e.class_)) && w[Json.SideEffectClass] == Json.Str(ClassName(f.class_));
    assert v[Json.SessionHmac] == Json.Str(e.mac) && w[Json.SessionHmac] == Json.Str(f.mac);
  }

  lemma {:induction false} BodyInjective(p: Prim, e: Entry, f: Entry)
    requires Lawful(p) && Body(p, e) == Body(p, f)
    ensures Stripped(e) == Stripped(f)
  {
    EntryPrints(p, Stripped(e));
    EntryPrints(p, Stripped(f));
    SameFields(Stripped(e), Stripped(f));
  }

  /** A message of 64 characters is a first entry's; one of 128 splits into
      exactly two hashes. */
  lemma {:induction false} MessageSplits(p: Prim, es: seq<Entry>, i: nat, fs: seq<Entry>, j: nat)
    requires Lawful(p) && i < |es| && j < |fs|
    ensures Message(p, es, i) == Message(p, fs, j) <==>
      && (i == 0 <==> j == 0)
      && EntryHash(p, es[i]) == EntryHash(p, fs[j])
      && (0 < i && 0 < j ==> EntryHash(p, es[i - 1]) == EntryHash(p, fs[j - 1]))
  {
    HashShape(p, Body(p, es[i]));
    HashShape(p, Body(p, fs[j]));
    var a := if i == 0 then "" else EntryHash(p, es[i - 1]);
    var b := if j == 0 then "" else EntryHash(p, fs[j - 1]);
    if i > 0 {
      HashShape(p, Body(p, es[i - 1]));
    }
    if j > 0 {
      HashShape(p, Body(p, fs[j - 1]));
    }
    var s, t := a + EntryHash(p, es[i]), b + EntryHash(p, fs[j]);
    if s == t {
      assert s[|a|..] == EntryHash(p, es[i]) && t[|b|..] == EntryHash(p, fs[j]);
      assert s[..|a|] == a && t[..|b|] == b;
    }
  }

  /** Entry `i` of `es` repeats entry `j` of the ledger together with its predecessor. */
  predicate Continues(es: seq<Entry>, i: nat, ledger: seq<Entry>, j: nat) {
    && i < |es| && j < |ledger|
    && (i == 0 <==> j == 0)
    && SameEntry(es[i], ledger[j])
    && (0 < i && 0 < j ==> Stripped(es[i - 1]) == Stripped(ledger[j - 1]))
  }

  ghost predicate WalkAt(es: seq<Entry>, i: nat, ledger: seq<Entry>) {
    exists j :: Continues(es, i, ledger, j)
  }

  /** The list starts like the ledger, and every step from one entry to the
      next is a step the ledger also makes. */
  ghost predicate Walk(es: seq<Entry>, ledger: seq<Entry>) {
    forall i :: 0 <= i < |es| ==> WalkAt(es, i, ledger)
  }

  lemma {:induction false} SameHashSameEntry(p: Prim, inputs: set<Bytes>, e: Entry, f: Entry)
    requires Lawful(p) && CollisionFree(p, inputs)
    requires Body(p, e) in inputs && Body(p, f) in inputs
    ensures EntryHash(p, e) == EntryHash(p, f) <==> Stripped(e) == Stripped(f)
  {
    if EntryHash(p, e) == EntryHash(p, f) {
      HexInjective(p.sha(Body(p, e)), p.sha(Body(p, f)));
      BodyInjective(p, e, f);
    }
  }

  lemma {:induction false} AcceptedAtIffContinues(p: Prim, secret: Bytes, es: seq<Entry>, i: nat, ledger: seq<Entry>, j: nat)
    requires Lawful(p) && Appended(p, secret, ledger) && i < |es| && j < |ledger|
    requires CollisionFree(p, Bodies(p, es) + Bodies(p, ledger))
    ensures SameMessage(p, es, i, ledger, j) && VerifiesAt(p, secret, es, i) <==> Continues(es, i, ledger, j)
  {
    var inputs := Bodies(p, es) + Bodies(p, ledger);
    MessageSplits(p, es, i, ledger, j);
    SameHashSameEntry(p, inputs, es[i], ledger[j]);
    if 0 < i && 0 < j {
      SameHashSameEntry(p, inputs, es[i - 1], ledger[j - 1]);
    }
    var tag := p.hmacText(secret, Message(p, ledger, j));
    assert SignedEntry(p, secret, ledger, j);
    MacRoundTrip(es[i].mac, tag);
    HexLength(tag);
    LowerFixed(ledger[j].mac);
  }

  /** A list is accepted exactly when it is a walk along the ledger. */
  lemma {:induction false} AcceptedIffWalk(p: Prim, secret: Bytes, es: seq<Entry>, ledger: seq<Entry>)
    requires Lawful(p) && Appended(p, secret, ledger)
    requires CollisionFree(p, Bodies(p, es) + Bodies(p, ledger))
    ensures SignedBy(p, es, ledger) && Verifies(p, secret, es) <==> Walk(es, ledger)
  {
    forall i | 0 <= i < |es|
      ensures SignedAt(p, es, i, ledger) && VerifiesAt(p, secret, es, i) <==> WalkAt(es, i, ledger)
    {
      if SignedAt(p, es, i, ledger) && VerifiesAt(p, secret, es, i) {
        var j :| SameMessage(p, es, i, ledger, j);
        AcceptedAtIffContinues(p, secret, es, i, ledger, j);
      }
      if WalkAt(es, i, ledger) {
        var j :| Continues(es, i, ledger, j);
        AcceptedAtIffContinues(p, secret, es, i, ledger, j);
      }
    }
    if Walk(es, ledger) {
      forall i | 0 <= i < |es|
        ensures SignedAt(p, es, i, ledger) && VerifiesAt(p, secret, es, i)
      {
        assert WalkAt(es, i, ledger);
      }
    }
  }

  /** Tamper evidence: with pairwise distinct entries, a list made of signed
      messages verifies if and only if it is a prefix of the ledger. Edits,
      drops, reorders, duplicates and splices before the tail are all refused. */
  lemma {:induction false} VerifiesIffPrefix(p: Prim, secret: Bytes, es: seq<Entry>, ledger: seq<Entry>)
    requires Lawful(p) && Appended(p, secret, ledger) && Distinct(ledger)
    requires CollisionFree(p, Bodies(p, es) + Bodies(p, ledger))
    ensures SignedBy(p, es, ledger) && Verifies(p, secret, es) <==> PrefixOf(es, ledger)
  {
    AcceptedIffWalk(p, secret, es, ledger);
    WalkIffPrefix(es, ledger);
  }

  lemma {:induction false} WalkIffPrefix(es: seq<Entry>, ledger: seq<Entry>)
    requires Distinct(ledger)
    ensures Walk(es, ledger) <==> PrefixOf(es, ledger)
  {
    if PrefixOf(es, ledger) {
      forall i | 0 <= i < |es|
        ensures WalkAt(es, i, ledger)
      {
        assert SameEntry(es[i], ledger[i]);
        assert i > 0 ==> SameEntry(es[i - 1], ledger[i - 1]);
        assert Continues(es, i, ledger, i);
      }
    }
    if Walk(es, ledger) {
      WalkIsPrefix(es, ledger, |es|);
    }
  }

  lemma {:induction false} WalkIsPrefix(es: seq<Entry>, ledger: seq<Entry>, n: nat)
    requires Distinct(ledger) && n <= |es| && Walk(es, ledger)
    ensures n <= |ledger| && forall i :: 0 <= i < n ==> SameEntry(es[i], ledger[i])
  {
    if n > 0 {
      WalkIsPrefix(es, ledger, n - 1);
      assert WalkAt(es, n - 1, ledger);
      var j :| Continues(es, n - 1, ledger, j);
      if n > 1 {
        assert SameEntry(es[n - 2], ledger[n - 2]);
        assert Stripped(ledger[j - 1]) == Stripped(ledger[n - 2]);
        assert j == n - 1;
      }
    }
  }

  /** Without any hypothesis on the list: if it verifies and is not a prefix,
      then it carries a valid tag for a message the ledger never signed, or two
      of the entries involved collide under SHA-256. */
  lemma {:induction false} VerifiesOrBreaksPrimitive(p: Prim, secret: Bytes, es: seq<Entry>, ledger: seq<Entry>)
    requires Lawful(p) && Appended(p, secret, ledger) && Distinct(ledger)
    requires Verifies(p, secret, es)
    ensures
      || PrefixOf(es, ledger)
      || (exists i :: 0 <= i < |es| && VerifiesAt(p, secret, es, i) && !SignedAt(p, es, i, ledger))
      || !CollisionFree(p, Bodies(p, es) + Bodies(p, ledger))
  {
    if CollisionFree(p, Bodies(p, es) + Bodies(p, ledger)) {
      VerifiesIffPrefix(p, secret, es, ledger);
      if !SignedBy(p, es, ledger) {
        var i :| 0 <= i < |es| && !SignedAt(p, es, i, ledger);
        assert VerifiesAt(p, secret, es, i);
      }
    }
  }

  /** If entries `i` and `j` are equal, an accepted list may follow the ledger
      to `j` and from there keep repeating the stretch `i + 1 .. j`. */
  lemma {:induction false} LoopingWalk(ledger: seq<Entry>, i: nat, j: nat, n: nat) returns (es: seq<Entry>, q: nat)
    requires i < j < |ledger| && Stripped(ledger[i]) == Stripped(ledger[j]) && 0 < n
    ensures |es| == n && Walk(es, ledger) && q <= j && es[n - 1] == ledger[q]
    ensures forall k :: 0 <= k < n ==> es[k] in ledger
  {
    if n == 1 {
      es, q := [ledger[0]], 0;
      assert Continues(es, 0, ledger, 0);
    } else {
      var shorter, last := LoopingWalk(ledger, i, j, n - 1);
      q := if last == j then i + 1 else last + 1;
      es := shorter + [ledger[q]];
      WalkExtends(shorter, ledger, q);
    }
  }

  lemma {:induction false} WalkExtends(es: seq<Entry>, ledger: seq<Entry>, q: nat)
    requires Walk(es, ledger) && es != [] && 0 < q < |ledger|
    requires Stripped(es[|es| - 1]) == Stripped(ledger[q - 1])
    ensures Walk(es + [ledger[q]], ledger)
  {
    var more := es + [ledger[q]];
    forall k | 0 <= k < |more|
      ensures WalkAt(more, k, ledger)
    {
      if k < |es| {
        assert WalkAt(es, k, ledger);
        var j :| Continues(es, k, ledger, j);
        assert Continues(more, k, ledger, j);
      } else {
        assert Continues(more, k, ledger, q);
      }
    }
  }

  /** Distinctness is exactly what tamper evidence needs: if two entries are
      equal, some accepted list is not a prefix. */
  lemma {:induction false} PrefixOnlyIffDistinct(p: Prim, secret: Bytes, ledger: seq<Entry>)
    requires Lawful(p) && Appended(p, secret, ledger) && CollisionFree(p, Bodies(p, ledger))
    ensures Distinct(ledger) <==> forall es :: Accepted(p, secret, es, ledger) ==> PrefixOf(es, ledger)
  {
    if Distinct(ledger) {
      forall es | Accepted(p, secret, es, ledger)
        ensures PrefixOf(es, ledger)
      {
        VerifiesIffPrefix(p, secret, es, ledger);
      }
    } else {
      var i, j :| 0 <= i < j < |ledger| && Stripped(ledger[i]) == Stripped(ledger[j]);
      var es, _ := LoopingWalk(ledger, i, j, |ledger| + 1);
      LongWalkAccepted(p, secret, es, ledger);
    }
  }

  /** Accepted by `verify`, made of signed messages, and free of collisions. */
  ghost predicate Accepted(p: Prim, secret: Bytes, es: seq<Entry>, ledger: seq<Entry>) {
    && CollisionFree(p, Bodies(p, es) + Bodies(p, ledger))
    && SignedBy(p, es, ledger) && Verifies(p, secret, es)
  }

  lemma {:induction false} LongWalkAccepted(p: Prim, secret: Bytes, es: seq<Entry>, ledger: seq<Entry>)
    requires Lawful(p) && Appended(p, secret, ledger) && CollisionFree(p, Bodies(p, ledger))
    requires Walk(es, ledger) && |es| > |ledger| && forall k :: 0 <= k < |es| ==> es[k] in ledger
    ensures Accepted(p, secret, es, ledger) && !PrefixOf(es, ledger)
  {
    forall b | b in Bodies(p, es)
      ensures b in Bodies(p, ledger)
    {
      var k :| 0 <= k < |es| && b == Body(p, es[k]);
      var j :| 0 <= j < |ledger| && ledger[j] == es[k];
    }
    assert Bodies(p, es) + Bodies(p, ledger) == Bodies(p, ledger);
    AcceptedIffWalk(p, secret, es, ledger);
  }
}
