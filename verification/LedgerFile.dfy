/** The ledger as a file of lines. */
module LedgerFile {
  // Writing, reading, embedding the session secret in the header, judging the
  // chain, and counting entries for a merge.

  import opened Bits
  import opened Base
  import opened Ledger
  import Cas
  import Json

  const KIND: string := "effects.ledger.v1"

  datatype Problem = Missing | NoHeader | BadJson | NotALedger
  datatype Outcome<+T> = Ok(value: T) | Err(problem: Problem)

  // ---------- text of the file ----------

  function Header(n: nat): Json.Value {
    Json.Obj(map[Json.Kind := Json.Str(KIND), Json.Entries := Json.Num(n)])
  }

  function EntryLines(p: Prim, es: seq<Entry>): Bytes {
    if es == [] then [] else p.render(EntryJson(es[0])) + [NEWLINE] + EntryLines(p, es[1..])
  }

  function FileBytes(p: Prim, es: seq<Entry>): Bytes {
    p.render(Header(|es|)) + [NEWLINE] + EntryLines(p, es)
  }

  /** `bytes.split(|b| *b == b'\n')` */
  function Split(b: Bytes): (segments: seq<Bytes>)
    ensures segments != []
  {
    if b == [] then [[]]
    else
      var rest := Split(b[1..]);
      if b[0] == NEWLINE then [[]] + rest else [[b[0]] + rest[0]] + rest[1..]
  }

  /** `bytes.splitn(2, ..)`: up to the first line feed, and what follows it. */
  function SplitFirst(b: Bytes): (Bytes, Bytes) {
    if b == [] then ([], [])
    else if b[0] == NEWLINE then ([], b[1..])
    else var (line, rest) := SplitFirst(b[1..]); ([b[0]] + line, rest)
  }

  function NonEmpty(segments: seq<Bytes>): seq<Bytes> {
    if segments == [] then []
    else if segments[0] == [] then NonEmpty(segments[1..])
    else [segments[0]] + NonEmpty(segments[1..])
  }

  function Lines(b: Bytes): seq<Bytes> { NonEmpty(Split(b)) }

  // ---------- typed reading ----------

  function ClassOf(name: string): Option<Class> {
    if name == "pure" then Some(Pure)
    else if name == "idempotent" then Some(Idempotent)
    else if name == "irreversible" then Some(Irreversible)
    else if name == "network-only" then Some(NetworkOnly)
    else None
  }

  /** The timestamp is read as an instant and kept in its printed form. */
  function JsonEntry(p: Prim, v: Json.Value): Option<Entry> {
    if && v.HasText(Json.Ts) && v.HasText(Json.ToolId) && v.HasText(Json.ArgsHash)
       && v.HasText(Json.IdempotencyKey) && v.HasText(Json.ResultHash)
       && v.HasText(Json.SideEffectClass) && v.HasText(Json.SessionHmac)
       && ClassOf(v.At(Json.SideEffectClass).s).Some? && p.instant(v.At(Json.Ts).s).Some?
    then Some(Entry(p.instant(v.At(Json.Ts).s).value, v.At(Json.ToolId).s, v.At(Json.ArgsHash).s, v.At(Json.IdempotencyKey).s,
                    v.At(Json.ResultHash).s, ClassOf(v.At(Json.SideEffectClass).s).value, v.At(Json.SessionHmac).s))
    else None
  }

  /** A line read as an entry. */
  function LineEntry(p: Prim, line: Bytes): Option<Entry> {
    match p.parse(line)
    case Some(v) => JsonEntry(p, v)
    case None => None
  }

  predicate IsHeader(v: Json.Value) { v.Says(Json.Kind, KIND) }

  lemma {:induction false} EntryRoundTrip(p: Prim, e: Entry)
    requires Lawful(p) && Timed(p, e)
    ensures LineEntry(p, p.render(EntryJson(e))) == Some(e)
  {
    EntryPrints(p, e);
    ClassRoundTrip(e.class_);
  }

  lemma {:induction false} ClassRoundTrip(c: Class)
    ensures ClassOf(ClassName(c)) == Some(c)
    ensures ClassName(c) == "irreversible" <==> c == Irreversible
  {
    forall d: Class | ClassName(d) == ClassName(c)
      ensures c == d
    {
    }
    assert ClassName(Pure) == "pure" && ClassName(Idempotent) == "idempotent";
    assert ClassName(Irreversible) == "irreversible" && ClassName(NetworkOnly) == "network-only";
  }

  // ---------- lines of a written file ----------

  lemma {:induction false} SplitLine(line: Bytes, rest: Bytes)
    requires NEWLINE !in line
    ensures Split(line + [NEWLINE] + rest) == [line] + Split(rest)
    ensures SplitFirst(line + [NEWLINE] + rest) == (line, rest)
  {
    var all := line + [NEWLINE] + rest;
    if line == [] {
      assert all[1..] == rest;
    } else {
      assert all[1..] == line[1..] + [NEWLINE] + rest;
      SplitLine(line[1..], rest);
      assert line == [line[0]] + line[1..];
    }
  }

  function Rendered(p: Prim, es: seq<Entry>): seq<Bytes> {
    if es == [] then [] else [p.render(EntryJson(es[0]))] + Rendered(p, es[1..])
  }

  lemma {:induction false} LinesOfEntries(p: Prim, es: seq<Entry>)
    requires Lawful(p)
    ensures Lines(EntryLines(p, es)) == Rendered(p, es)
  {
    if es != [] {
      var line := p.render(EntryJson(es[0]));
      SplitLine(line, EntryLines(p, es[1..]));
      LinesOfEntries(p, es[1..]);
    } else {
      assert NonEmpty([[]]) == NonEmpty([]);
    }
  }

  /** A file with any one-line JSON header before the entry lines. */
  lemma {:induction false} LinesOfFile(p: Prim, header: Json.Value, es: seq<Entry>)
    requires Lawful(p)
    ensures
      var file := p.render(header) + [NEWLINE] + EntryLines(p, es);
      Lines(file) == [p.render(header)] + Rendered(p, es) && SplitFirst(file) == (p.render(header), EntryLines(p, es))
  {
    SplitLine(p.render(header), EntryLines(p, es));
    LinesOfEntries(p, es);
    assert Split(p.render(header) + [NEWLINE] + EntryLines(p, es))[1..] == Split(EntryLines(p, es));
  }

  // ---------- Ledger::serialize and Ledger::deserialize ----------

  method Serialize(p: Prim, ledger: Ledger, store: Cas.MemBlobStore) returns (d: Digest)
    requires store.Valid(p)
    modifies store
    ensures store.Valid(p) && ledger.entries == old(ledger.entries)
    ensures d == Of(p, FileBytes(p, ledger.entries))
    ensures store.inner == Cas.Stored(p, old(store.inner), FileBytes(p, ledger.entries))
  {
    var out: Bytes := [];
    var es := ledger.entries;
    for i := 0 to |es|
      invariant out + EntryLines(p, es[i..]) == EntryLines(p, es)
    {
      var line := p.render(EntryJson(es[i]));
      assert es[i..][1..] == es[i + 1..];
      assert out + (line + [NEWLINE] + EntryLines(p, es[i + 1..])) == out + line + [NEWLINE] + EntryLines(p, es[i + 1..]);
      out := out + line + [NEWLINE];
    }
    assert out + EntryLines(p, []) == out;
    d := store.Put(p, p.render(Header(|es|)) + [NEWLINE] + out);
  }

  function ReadEntries(p: Prim, lines: seq<Bytes>): Option<seq<Entry>> {
    if lines == [] then Some([])
    else
      match (LineEntry(p, lines[0]), ReadEntries(p, lines[1..]))
      case (Some(e), Some(es)) => Some([e] + es)
      case _ => None
  }

  /** The entries a file holds. */
  function Read(p: Prim, file: Bytes): Outcome<seq<Entry>> {
    var lines := Lines(file);
    if lines == [] then Err(NoHeader)
    else
      match p.parse(lines[0])
      case None => Err(BadJson)
      case Some(header) =>
        if !IsHeader(header) then Err(NotALedger)
        else
          match ReadEntries(p, lines[1..])
          case Some(es) => Ok(es)
          case None => Err(BadJson)
  }

  method Deserialize(p: Prim, store: Cas.MemBlobStore, d: Digest, secret: Bytes) returns (r: Outcome<Ledger>)
    ensures d !in store.inner ==> r == Err(Missing)
    ensures d in store.inner ==>
      match Read(p, store.inner[d])
      case Ok(es) => r.Ok? && fresh(r.value) && r.value.entries == es && r.value.secret == secret
      case Err(problem) => r == Err(problem)
  {
    var bytes := store.Get(d);
    if bytes.None? {
      return Err(Missing);
    }
    var lines := Lines(bytes.value);
    if lines == [] {
      return Err(NoHeader);
    }
    var header := p.parse(lines[0]);
    if header.None? {
      return Err(BadJson);
    }
    if !IsHeader(header.value) {
      return Err(NotALedger);
    }
    var entries: seq<Entry> := [];
    var todo := lines[1..];
    for i := 0 to |todo|
      invariant ReadEntries(p, todo).Some? <==> ReadEntries(p, todo[i..]).Some?
      invariant ReadEntries(p, todo).Some? ==> ReadEntries(p, todo).value == entries + ReadEntries(p, todo[i..]).value
    {
      assert todo[i..][1..] == todo[i + 1..];
      var e := LineEntry(p, todo[i]);
      if e.None? {
        return Err(BadJson);
      }
      entries := entries + [e.value];
    }
    var ledger := new Ledger.Holding(secret, entries);
    return Ok(ledger);
  }

  lemma {:induction false} ReadEntriesIff(p: Prim, lines: seq<Bytes>)
    ensures ReadEntries(p, lines).Some? <==> forall i :: 0 <= i < |lines| ==> LineEntry(p, lines[i]).Some?
    ensures ReadEntries(p, lines).Some? ==>
      var es := ReadEntries(p, lines).value;
      |es| == |lines| && forall i :: 0 <= i < |lines| ==> LineEntry(p, lines[i]) == Some(es[i])
  {
    hide LineEntry;
    if lines != [] {
      ReadEntriesIff(p, lines[1..]);
      forall i | 1 <= i < |lines|
        ensures lines[i] == lines[1..][i - 1]
      {
      }
      assert (forall i :: 0 <= i < |lines| ==> LineEntry(p, lines[i]).Some?) ==>
          forall i :: 0 <= i < |lines[1..]| ==> LineEntry(p, lines[1..][i]).Some?;
    }
  }

  /** A file reads as a ledger exactly if it has a first line of that kind and every
      further line is an entry; the entries are those of the lines, in order. */
  lemma {:induction false} ReadIff(p: Prim, file: Bytes)
    ensures
      var lines, r := Lines(file), Read(p, file);
      && (r == Err(NoHeader) <==> lines == [])
      && (r == Err(NotALedger) <==>
            lines != [] && p.parse(lines[0]).Some? && !p.parse(lines[0]).value.Says(Json.Kind, "effects.ledger.v1"))
      && (r.Ok? <==>
            && lines != [] && p.parse(lines[0]).Some? && p.parse(lines[0]).value.Says(Json.Kind, "effects.ledger.v1")
            && forall i :: 1 <= i < |lines| ==> LineEntry(p, lines[i]).Some?)
      && (r.Ok? ==> |r.value| == |lines| - 1 && forall i :: 1 <= i < |lines| ==> LineEntry(p, lines[i]) == Some(r.value[i - 1]))
  {
    hide LineEntry, Lines;
    var lines := Lines(file);
    if lines != [] {
      ReadEntriesIff(p, lines[1..]);
      var rest := lines[1..];
      assert forall i :: 0 <= i < |rest| ==> rest[i] == lines[i + 1];
      assert (forall i :: 1 <= i < |lines| ==> LineEntry(p, lines[i]).Some?) <==>
          forall i :: 0 <= i < |rest| ==> LineEntry(p, rest[i]).Some? by {
        if forall i :: 0 <= i < |rest| ==> LineEntry(p, rest[i]).Some? {
          forall i | 1 <= i < |lines|
            ensures LineEntry(p, lines[i]).Some?
          {
            assert lines[i] == rest[i - 1];
          }
        }
      }
      if Read(p, file).Ok? {
        forall i | 1 <= i < |lines|
          ensures LineEntry(p, lines[i]) == Some(Read(p, file).value[i - 1])
        {
          assert lines[i] == rest[i - 1];
        }
      }
    }
  }

  lemma {:induction false} ReadRendered(p: Prim, es: seq<Entry>)
    requires Lawful(p) && AllTimed(p, es)
    ensures ReadEntries(p, Rendered(p, es)) == Some(es)
  {
    if es != [] {
      EntryRoundTrip(p, es[0]);
      ReadRendered(p, es[1..]);
      assert es == [es[0]] + es[1..];
      assert Rendered(p, es)[1..] == Rendered(p, es[1..]);
    }
  }

  lemma {:induction false} ReadFileWith(p: Prim, header: Json.Value, es: seq<Entry>)
    requires Lawful(p) && IsHeader(header) && Json.Representable(header) && AllTimed(p, es)
    ensures Read(p, p.render(header) + [NEWLINE] + EntryLines(p, es)) == Ok(es)
  {
    LinesOfFile(p, header, es);
    ReadRendered(p, es);
    assert p.parse(p.render(header)) == Some(header);
    assert ([p.render(header)] + Rendered(p, es))[1..] == Rendered(p, es);
    assert p.parse(p.render(header)) == Some(header);
  }

  // ---------- the header rewrite of `pf snapshot` ----------

  function ExtendedHeader(header: Json.Value, secretHex: string): Json.Value {
    match header
    case Obj(fields) =>
      Json.Obj(fields[Json.SessionSecretHex := Json.Str(secretHex)][Json.VerificationMode := Json.Str("tamper-detection")])
    case _ => header
  }

  /** Replaces the header line by one that carries the session secret. */
  function EmbedSecret(p: Prim, file: Bytes, secretHex: string): Outcome<Bytes> {
    var (line, body) := SplitFirst(file);
    match p.parse(line)
    case Some(header) => Ok(p.render(ExtendedHeader(header, secretHex)) + [NEWLINE] + body)
    case None => Err(BadJson)
  }

  /** The header that `pf snapshot` leaves in a file. */
  function WrittenHeader(secret: Bytes, n: nat, embed: bool): Json.Value {
    if embed then ExtendedHeader(Header(n), HexEncode(secret)) else Header(n)
  }

  /** What the ledger block of `pf snapshot` stores. */
  function SnapshotFile(p: Prim, secret: Bytes, es: seq<Entry>, embed: bool): Bytes {
    p.render(WrittenHeader(secret, |es|, embed)) + [NEWLINE] + EntryLines(p, es)
  }

  const U64_RANGE: nat := 0x1_0000_0000_0000_0000

  /** The number of entries fits the 64 bits of the header's count. */
  predicate Countable(es: seq<Entry>) { |es| < U64_RANGE }

  lemma {:induction false} HeaderRoundTrip(p: Prim, secret: Bytes, n: nat, embed: bool)
    requires Lawful(p) && n < U64_RANGE
    ensures p.parse(p.render(WrittenHeader(secret, n, embed))) == Some(WrittenHeader(secret, n, embed))
    ensures Json.Representable(WrittenHeader(secret, n, embed))
  {
    Json.ObjectRepresentable(WrittenHeader(secret, n, embed).fields);
  }

  /** The header of a written file in terms of its members' names. */
  ghost predicate HeaderReads(v: Json.Value, secret: Bytes, n: nat, embed: bool) {
    && Json.Members(v, if embed then 4 else 2)
    && Json.Reads(v, "kind", Json.Str("effects.ledger.v1")) && Json.Reads(v, "entries", Json.Num(n))
    && (embed ==> exists hex :: Json.Reads(v, "session_secret_hex", Json.Str(hex)) && HexDecode(hex) == Some(secret))
    && (embed ==> Json.Reads(v, "verification_mode", Json.Str("tamper-detection")))
  }

  lemma {:induction false} HeaderJsonReads(secret: Bytes, n: nat, embed: bool)
    ensures HeaderReads(WrittenHeader(secret, n, embed), secret, n, embed)
  {
    Json.HeaderNames();
    hide Json.Reads, Json.KeyText;
    var v := WrittenHeader(secret, n, embed);
    Json.ReadsMember(v, Json.Kind);
    Json.ReadsMember(v, Json.Entries);
    if embed {
      Json.ReadsMember(v, Json.SessionSecretHex);
      Json.ReadsMember(v, Json.VerificationMode);
      MacRoundTrip(HexEncode(secret), secret);
    }
  }

  ghost predicate IsHeaderLine(p: Prim, line: Bytes, secret: Bytes, n: nat, embed: bool) {
    p.parse(line).Some? && HeaderReads(p.parse(line).value, secret, n, embed)
  }

  ghost predicate IsEntryLine(p: Prim, line: Bytes, e: Entry) {
    p.parse(line).Some? && EntryReads(p.parse(line).value, e)
  }

  /** The text of a stored ledger: a header, and then a line for each entry in order.
      For its line feeds see `LedgerLineFeeds`. */
  lemma {:induction false} LedgerText(p: Prim, secret: Bytes, es: seq<Entry>, embed: bool)
    requires Lawful(p) && Countable(es)
    ensures
      var lines := Lines(SnapshotFile(p, secret, es, embed));
      && |lines| == 1 + |es| && IsHeaderLine(p, lines[0], secret, |es|, embed)
      && forall i :: 0 <= i < |es| ==> IsEntryLine(p, lines[i + 1], es[i])
  {
    hide HeaderReads, EntryReads;
    var header := WrittenHeader(secret, |es|, embed);
    LinesOfFile(p, header, es);
    HeaderRoundTrip(p, secret, |es|, embed);
    HeaderJsonReads(secret, |es|, embed);
    RenderedReads(p, es);
  }

  lemma {:induction false} LinesSplit(p: Prim, header: Json.Value, es: seq<Entry>)
    requires Lawful(p)
    ensures Split(p.render(header) + [NEWLINE] + EntryLines(p, es)) == [p.render(header)] + Rendered(p, es) + [[]]
    decreases |es|
  {
    SplitLine(p.render(header), EntryLines(p, es));
    if es != [] {
      LinesSplit(p, EntryJson(es[0]), es[1..]);
      var line := p.render(EntryJson(es[0]));
      assert EntryLines(p, es) == line + [NEWLINE] + EntryLines(p, es[1..]);
    }
  }

  /** Each line of a stored ledger, the last included, ends with one line feed. */
  lemma {:induction false} LedgerLineFeeds(p: Prim, secret: Bytes, es: seq<Entry>, embed: bool)
    requires Lawful(p)
    ensures
      var file := SnapshotFile(p, secret, es, embed);
      Split(file) == Lines(file) + [[]]
  {
    hide WrittenHeader, Split, NonEmpty;
    LinesSplit(p, WrittenHeader(secret, |es|, embed), es);
    LinesOfFile(p, WrittenHeader(secret, |es|, embed), es);
  }

  lemma {:induction false} RenderedReads(p: Prim, es: seq<Entry>)
    requires Lawful(p)
    ensures |Rendered(p, es)| == |es| && forall i :: 0 <= i < |es| ==> IsEntryLine(p, Rendered(p, es)[i], es[i])
  {
    hide EntryReads;
    if es != [] {
      EntryPrints(p, es[0]);
      EntryJsonReads(es[0]);
      RenderedReads(p, es[1..]);
      assert Rendered(p, es)[1..] == Rendered(p, es[1..]);
    }
  }

  method StoreLedger(p: Prim, ledger: Ledger, embed: bool, store: Cas.MemBlobStore) returns (r: Outcome<Digest>)
    requires Lawful(p) && store.Valid(p) && Countable(ledger.entries)
    requires CollisionFree(p, store.inner.Values + {FileBytes(p, ledger.entries)})
    modifies store
    ensures store.Valid(p) && ledger.entries == old(ledger.entries)
    ensures r == Ok(Of(p, SnapshotFile(p, ledger.secret, ledger.entries, embed)))
    ensures
      var plain := Cas.Stored(p, old(store.inner), FileBytes(p, ledger.entries));
      store.inner == if embed then Cas.Stored(p, plain, SnapshotFile(p, ledger.secret, ledger.entries, true)) else plain
  {
    ghost var before := store.inner;
    var raw := Serialize(p, ledger, store);
    if !embed {
      return Ok(raw);
    }
    Cas.PutThenGet(p, before, FileBytes(p, ledger.entries));
    var bytes := store.Get(raw);
    LinesOfFile(p, Header(|ledger.entries|), ledger.entries);
    HeaderRoundTrip(p, ledger.secret, |ledger.entries|, false);
    var extended := EmbedSecret(p, bytes.value, HexEncode(ledger.secret));
    match extended
    case Ok(file) =>
      var d := store.Put(p, file);
      return Ok(d);
    case Err(problem) =>
      return Err(problem);
  }

  /** With or without the embedded secret, the file reads back to the same entries. */
  lemma {:induction false} SnapshotFileRoundTrip(p: Prim, secret: Bytes, es: seq<Entry>, embed: bool)
    requires Lawful(p) && AllTimed(p, es) && Countable(es)
    ensures Read(p, SnapshotFile(p, secret, es, embed)) == Ok(es)
  {
    HeaderRoundTrip(p, secret, |es|, embed);
    ReadFileWith(p, WrittenHeader(secret, |es|, embed), es);
  }

  // ---------- `pf verify`: the verdict on one ledger file ----------

  datatype ChainStatus = ChainOk(usedOperatorSecret: bool) | ChainBad | Skipped

  /** The characters of the Unicode property White_Space, which `str::trim` strips. */
  predicate IsSpace(c: char) {
    var n := c as int;
    || 0x9 <= n <= 0xD || n == 0x20 || n == 0x85 || n == 0xA0 || n == 0x1680 || 0x2000 <= n <= 0x200A
    || n == 0x2028 || n == 0x2029 || n == 0x202F || n == 0x205F || n == 0x3000
  }

  function TrimStart(s: string): string { if s != "" && IsSpace(s[0]) then TrimStart(s[1..]) else s }

  function TrimEnd(s: string): string { if s != "" && IsSpace(s[|s| - 1]) then TrimEnd(s[..|s| - 1]) else s }

  function DeclaredEntries(header: Json.Value): nat {
    if header.Has(Json.Entries) && header.At(Json.Entries).Num? && 0 <= header.At(Json.Entries).n < U64_RANGE
    then header.At(Json.Entries).n
    else 0
  }

  method ValidateLedgerChain(p: Prim, file: Bytes, operatorSecret: Option<Bytes>) returns (r: ChainStatus)
    ensures r == JudgedFile(p, file, operatorSecret)
  {
    var (headerBytes, _) := SplitFirst(file);
    var parsed := p.parse(headerBytes);
    if parsed.None? || !IsHeader(parsed.value) {
      return Skipped;
    }
    var header := parsed.value;
    if DeclaredEntries(header) == 0 {
      return ChainOk(false);
    }
    var secret, used := [], true;
    if operatorSecret.Some? {
      secret := operatorSecret.value;
    } else {
      if !header.HasText(Json.SessionSecretHex) {
        return Skipped;
      }
      var decoded := HexDecode(TrimEnd(TrimStart(header.At(Json.SessionSecretHex).s)));
      if decoded.None? {
        return ChainBad;
      }
      secret, used := decoded.value, false;
    }
    var mem := new Cas.MemBlobStore();
    var d := mem.Put(p, file);
    var ledger := Deserialize(p, mem, d, secret);
    if ledger.Err? {
      return ChainBad;
    }
    var verdict := ledger.value.Verify(p);
    return if verdict == Good then ChainOk(used) else ChainBad;
  }

  /** The secret the chain is judged under: the operator's wins over the one in
      the header; `Err` stands for a verdict reached without one. */
  function SecretFor(header: Json.Value, operatorSecret: Option<Bytes>): Result<(Bytes, bool), ChainStatus> {
    match operatorSecret
    case Some(op) => Success((op, true))
    case None =>
      if !header.HasText(Json.SessionSecretHex) then Failure(Skipped)
      else
        match HexDecode(TrimEnd(TrimStart(header.At(Json.SessionSecretHex).s)))
        case Some(secret) => Success((secret, false))
        case None => Failure(ChainBad)
  }

  function JudgedFile(p: Prim, file: Bytes, operatorSecret: Option<Bytes>): ChainStatus {
    match p.parse(SplitFirst(file).0)
    case None => Skipped
    case Some(header) =>
      if !IsHeader(header) then Skipped
      else if DeclaredEntries(header) == 0 then ChainOk(false)
      else
        match SecretFor(header, operatorSecret)
        case Failure(status) => status
        case Success((secret, used)) =>
          match Read(p, file)
          case Ok(es) => if Verifies(p, secret, es) then ChainOk(used) else ChainBad
          case Err(_) => ChainBad
  }

  lemma {:induction false} WrittenHeaderSays(secret: Bytes, n: nat, embed: bool, operatorSecret: Option<Bytes>)
    requires n < U64_RANGE
    ensures
      var header := WrittenHeader(secret, n, embed);
      && IsHeader(header) && DeclaredEntries(header) == n
      && SecretFor(header, operatorSecret) ==
           if operatorSecret.Some? then Success((operatorSecret.value, true))
           else if embed then Success((secret, false))
           else Failure(Skipped)
  {
    HexTextKeepsTrim(secret);
  }

  /** The verdict on every file `pf snapshot` writes, for every operator secret:
      an operator secret always decides; without one an embedded secret does,
      and a file that embeds none is skipped. */
  lemma {:induction false} VerdictOnWrittenLedger(p: Prim, secret: Bytes, es: seq<Entry>, embed: bool, operatorSecret: Option<Bytes>)
    requires Lawful(p) && Appended(p, secret, es) && Countable(es)
    ensures JudgedFile(p, SnapshotFile(p, secret, es, embed), operatorSecret) ==
      if es == [] then ChainOk(false)
      else if operatorSecret.Some? then
        (if Verifies(p, operatorSecret.value, es) then ChainOk(true) else ChainBad)
      else if embed then ChainOk(false)
      else Skipped
    ensures operatorSecret == Some(secret) && es != [] ==>
      JudgedFile(p, SnapshotFile(p, secret, es, embed), operatorSecret) == ChainOk(true)
  {
    var header := WrittenHeader(secret, |es|, embed);
    WrittenHeaderSays(secret, |es|, embed, operatorSecret);
    LinesOfFile(p, header, es);
    HeaderRoundTrip(p, secret, |es|, embed);
    SnapshotFileRoundTrip(p, secret, es, embed);
    AppendedVerifies(p, secret, es);
  }

  lemma {:induction false} HexTextKeepsTrim(b: Bytes)
    ensures HexDecode(TrimEnd(TrimStart(HexEncode(b)))) == Some(b)
  {
    HexLength(b);
    var s := HexEncode(b);
    assert s != "" ==> !IsSpace(s[0]) && !IsSpace(s[|s| - 1]);
    assert TrimStart(s) == s && TrimEnd(s) == s;
    MacRoundTrip(s, b);
  }

  /** The first line is a ledger's header, and the number it declares. */
  function Declared(p: Prim, file: Bytes): Option<nat> {
    match p.parse(SplitFirst(file).0)
    case None => None
    case Some(header) => if IsHeader(header) then Some(DeclaredEntries(header)) else None
  }

  /** The verdict under an operator's secret, on any bytes: the chain is found good
      exactly if a header declares some entries, the lines read as entries, and
      they verify. A header that declares none is enough for Ok, whatever follows. */
  lemma {:induction false} OperatorVerdict(p: Prim, file: Bytes, secret: Bytes)
    ensures JudgedFile(p, file, Some(secret)) == ChainOk(true) <==>
      && Declared(p, file).Some? && Declared(p, file).value > 0
      && Read(p, file).Ok? && Verifies(p, secret, Read(p, file).value)
    ensures JudgedFile(p, file, Some(secret)) == ChainOk(false) <==> Declared(p, file) == Some(0)
  {
  }

  /** `splitn(2, ..)` cuts at the first line feed, if there is one. */
  lemma {:induction false} SplitFirstIs(b: Bytes)
    ensures
      var (line, rest) := SplitFirst(b);
      NEWLINE !in line && (b == line + [NEWLINE] + rest || (b == line && rest == []))
  {
    if b != [] && b[0] != NEWLINE {
      SplitFirstIs(b[1..]);
      assert b == [b[0]] + b[1..];
    }
  }

  predicate AllSpaces(s: string) { forall i :: 0 <= i < |s| ==> IsSpace(s[i]) }

  /** Trimming takes away spaces at both ends, and all of them. */
  ghost predicate TrimmedTo(s: string, t: string) {
    && (exists before, after :: s == before + t + after && AllSpaces(before) && AllSpaces(after))
    && (t != "" ==> !IsSpace(t[0]) && !IsSpace(t[|t| - 1]))
  }

  lemma {:induction false} TrimStartIs(s: string) returns (before: string)
    ensures s == before + TrimStart(s) && AllSpaces(before)
    ensures TrimStart(s) != "" ==> !IsSpace(TrimStart(s)[0])
  {
    before := "";
    if s != "" && IsSpace(s[0]) {
      before := TrimStartIs(s[1..]);
      before := [s[0]] + before;
    }
  }

  lemma {:induction false} TrimEndIs(s: string) returns (after: string)
    ensures s == TrimEnd(s) + after && AllSpaces(after)
    ensures TrimEnd(s) != "" ==> !IsSpace(TrimEnd(s)[|TrimEnd(s)| - 1]) && TrimEnd(s)[0] == s[0]
  {
    after := "";
    if s != "" && IsSpace(s[|s| - 1]) {
      after := TrimEndIs(s[..|s| - 1]);
      after := after + [s[|s| - 1]];
    }
  }

  lemma {:induction false} TrimIs(s: string)
    ensures TrimmedTo(s, TrimEnd(TrimStart(s)))
  {
    var before := TrimStartIs(s);
    var after := TrimEndIs(TrimStart(s));
    assert s == before + TrimEnd(TrimStart(s)) + after;
  }

  /** The header declares entries, and holds a secret that judges the lines. */
  ghost predicate EmbeddedJudges(p: Prim, file: Bytes, header: Json.Value, good: bool) {
    && header.HasText(Json.SessionSecretHex)
    && exists t :: TrimmedTo(header.At(Json.SessionSecretHex).s, t) && good == ReadsUnder(p, file, t)
  }

  /** The text is the hex of a secret under which the file's entries verify. */
  predicate ReadsUnder(p: Prim, file: Bytes, hex: string) {
    HexDecode(hex).Some? && Read(p, file).Ok? && Verifies(p, HexDecode(hex).value, Read(p, file).value)
  }

  /** The verdict without an operator's secret, on any bytes. */
  lemma {:induction false} EmbeddedVerdict(p: Prim, file: Bytes)
    ensures
      var r, parsed := JudgedFile(p, file, None), p.parse(SplitFirst(file).0);
      if parsed.None? || !parsed.value.Says(Json.Kind, "effects.ledger.v1") then r == Skipped
      else if Declared(p, file) == Some(0) then r == ChainOk(false)
      else if !parsed.value.HasText(Json.SessionSecretHex) then r == Skipped
      else EmbeddedJudges(p, file, parsed.value, r == ChainOk(false)) && (r == ChainOk(false) || r == ChainBad)
  {
    hide TrimmedTo;
    var parsed := p.parse(SplitFirst(file).0);
    if parsed.Some? && parsed.value.HasText(Json.SessionSecretHex) {
      TrimIs(parsed.value.At(Json.SessionSecretHex).s);
    }
  }

  /** Tamper evidence of a file: if the messages its lines ask about are ones the
      ledger signed, the verdict under the ledger's secret is good exactly if the
      lines are a prefix of the ledger and the header declares some entries. */
  lemma {:induction false} VerdictIffPrefix(p: Prim, secret: Bytes, file: Bytes, ledger: seq<Entry>)
    requires Lawful(p) && Appended(p, secret, ledger) && Distinct(ledger)
    requires Read(p, file).Ok? && CollisionFree(p, Bodies(p, Read(p, file).value) + Bodies(p, ledger))
    ensures SignedBy(p, Read(p, file).value, ledger) && JudgedFile(p, file, Some(secret)) == ChainOk(true) <==>
      PrefixOf(Read(p, file).value, ledger) && Declared(p, file).Some? && Declared(p, file).value > 0
  {
    OperatorVerdict(p, file, secret);
    VerifiesIffPrefix(p, secret, Read(p, file).value, ledger);
  }

  /** A header rewritten to declare no entries is found good whatever the lines
      are, under every secret. */
  lemma {:induction false} ZeroHeaderHidesLines(p: Prim, body: Bytes, operatorSecret: Option<Bytes>)
    requires Lawful(p)
    ensures JudgedFile(p, p.render(Header(0)) + [NEWLINE] + body, operatorSecret) == ChainOk(false)
  {
    var line := p.render(Header(0));
    HeaderRoundTrip(p, [], 0, false);
    SplitLine(line, body);
    assert p.parse(line) == Some(Header(0));
  }

  // ---------- counting for a merge ----------

  /** `count_ledger_entries_with_class`: every non-empty line after the header
      counts, and the irreversible ones count twice over. */
  method CountWithClass(p: Prim, store: Cas.MemBlobStore, d: Digest) returns (r: Outcome<(nat, nat)>)
    ensures r == ClassesOf(p, store.inner, d)
  {
    var bytes := store.Get(d);
    if bytes.None? {
      return Err(Missing);
    }
    var segments := Split(bytes.value);
    var total, irreversible, seenHeader := 0, 0, false;
    for i := 0 to |segments|
      invariant Counted(p, segments, false) == Plus(total, irreversible, Counted(p, segments[i..], seenHeader))
    {
      assert segments[i..][0] == segments[i] && segments[i..][1..] == segments[i + 1..];
      var line := segments[i];
      if line == [] {
        continue;
      }
      var v := p.parse(line);
      if v.None? {
        return Err(BadJson);
      }
      if !seenHeader {
        if !IsHeader(v.value) {
          return Err(NotALedger);
        }
        seenHeader := true;
        continue;
      }
      total := total + 1;
      if v.value.Says(Json.SideEffectClass, "irreversible") {
        irreversible := irreversible + 1;
      }
    }
    return Ok((total, irreversible));
  }

  /** `count_ledger_entries` parses the header only. */
  method Count(p: Prim, store: Cas.MemBlobStore, d: Digest) returns (r: Outcome<nat>)
    ensures r == EntriesOf(p, store.inner, d)
  {
    var bytes := store.Get(d);
    if bytes.None? {
      return Err(Missing);
    }
    var segments := Split(bytes.value);
    ghost var lines := Lines(bytes.value);
    var total, seenHeader := 0, false;
    for i := 0 to |segments|
      invariant seenHeader ==> lines != [] && p.parse(lines[0]).Some? && IsHeader(p.parse(lines[0]).value)
      invariant seenHeader ==> |lines| == 1 + total + |NonEmpty(segments[i..])|
      invariant !seenHeader ==> total == 0 && lines == NonEmpty(segments[i..])
    {
      assert segments[i..][0] == segments[i] && segments[i..][1..] == segments[i + 1..];
      var line := segments[i];
      if line == [] {
        continue;
      }
      if !seenHeader {
        var v := p.parse(line);
        if v.None? {
          return Err(BadJson);
        }
        if !IsHeader(v.value) {
          return Err(NotALedger);
        }
        seenHeader := true;
        continue;
      }
      total := total + 1;
    }
    return Ok(total);
  }

  function Plus(total: nat, irreversible: nat, r: Outcome<(nat, nat)>): Outcome<(nat, nat)> {
    match r
    case Ok((t, i)) => Ok((total + t, irreversible + i))
    case Err(problem) => Err(problem)
  }

  function Counted(p: Prim, segments: seq<Bytes>, seenHeader: bool): Outcome<(nat, nat)> {
    if segments == [] then Ok((0, 0))
    else if segments[0] == [] then Counted(p, segments[1..], seenHeader)
    else
      match p.parse(segments[0])
      case None => Err(BadJson)
      case Some(v) =>
        if !seenHeader then
          if IsHeader(v) then Counted(p, segments[1..], true) else Err(NotALedger)
        else
          Plus(1, if v.Says(Json.SideEffectClass, "irreversible") then 1 else 0, Counted(p, segments[1..], true))
  }

  lemma {:induction false} CountedSkipsEmpty(p: Prim, segments: seq<Bytes>, seenHeader: bool)
    ensures Counted(p, segments, seenHeader) == Counted(p, NonEmpty(segments), seenHeader)
  {
    if segments != [] {
      if segments[0] == [] {
        CountedSkipsEmpty(p, segments[1..], seenHeader);
      } else {
        assert NonEmpty(segments)[1..] == NonEmpty(segments[1..]);
        CountedSkipsEmpty(p, segments[1..], true);
      }
    }
  }

  function IrreversibleIn(es: seq<Entry>): nat {
    if es == [] then 0 else (if es[0].class_ == Irreversible then 1 else 0) + IrreversibleIn(es[1..])
  }

  lemma {:induction false} RenderedLength(p: Prim, es: seq<Entry>)
    ensures |Rendered(p, es)| == |es|
  {
    if es != [] {
      RenderedLength(p, es[1..]);
    }
  }

  lemma {:induction false} CountRendered(p: Prim, es: seq<Entry>)
    requires Lawful(p)
    ensures Counted(p, Rendered(p, es), true) == Ok((|es|, IrreversibleIn(es)))
  {
    if es != [] {
      CountRendered(p, es[1..]);
      CountLine(p, es[0], Rendered(p, es[1..]), |es| - 1, IrreversibleIn(es[1..]));
    }
  }

  lemma {:induction false} CountLine(p: Prim, e: Entry, rest: seq<Bytes>, n: nat, k: nat)
    requires Lawful(p) && Counted(p, rest, true) == Ok((n, k))
    ensures Counted(p, [p.render(EntryJson(e))] + rest, true) == Ok((n + 1, k + if e.class_ == Irreversible then 1 else 0))
  {
    EntryPrints(p, e);
    ClassRoundTrip(e.class_);
    assert ([p.render(EntryJson(e))] + rest)[1..] == rest;
    assert EntryJson(e).At(Json.SideEffectClass) == Json.Str(ClassName(e.class_));
  }

  lemma {:induction false} CountWrittenLedger(p: Prim, secret: Bytes, es: seq<Entry>, embed: bool)
    requires Lawful(p) && Countable(es)
    ensures Counted(p, Split(SnapshotFile(p, secret, es, embed)), false) == Ok((|es|, IrreversibleIn(es)))
    ensures |Lines(SnapshotFile(p, secret, es, embed))| == 1 + |es|
  {
    var header := WrittenHeader(secret, |es|, embed);
    LinesOfFile(p, header, es);
    HeaderRoundTrip(p, secret, |es|, embed);
    CountedSkipsEmpty(p, Split(SnapshotFile(p, secret, es, embed)), false);
    CountRendered(p, es);
    RenderedLength(p, es);
    assert ([p.render(header)] + Rendered(p, es))[1..] == Rendered(p, es);
  }

  // ---------- merge_effects ----------

  function MergedJson(a: Digest, b: Digest, ancestor: Digest, replay: seq<Class>, counts: (nat, nat, nat)): Json.Value {
    Json.Obj(map[
      Json.Kind := Json.Str("effects.merged.v1"),
      Json.ParentA := Json.Str(a),
      Json.ParentB := Json.Str(b),
      Json.Ancestor := Json.Str(ancestor),
      Json.ReplayWithNewKey := Json.Arr(seq(|replay|, i requires 0 <= i < |replay| => Json.Str(ClassName(replay[i])))),
      Json.Summary := SummaryJson(counts.0, counts.1, counts.2)])
  }

  function SummaryJson(inA: nat, inB: nat, irreversible: nat): Json.Value {
    Json.Obj(map[
      Json.AEntries := Json.Num(inA),
      Json.BEntries := Json.Num(inB),
      Json.BIrreversibleCached := Json.Num(irreversible)])
  }

  /** The count of entries: every non-empty line after a valid header, readable
      or not. */
  function EntriesOf(p: Prim, m: Cas.Blobs, d: Digest): Outcome<nat> {
    if d !in m then Err(Missing) else LinesAfterHeader(p, Lines(m[d]))
  }

  function LinesAfterHeader(p: Prim, lines: seq<Bytes>): Outcome<nat> {
    if lines == [] then Ok(0)
    else
      match p.parse(lines[0])
      case None => Err(BadJson)
      case Some(v) => if IsHeader(v) then Ok(|lines| - 1) else Err(NotALedger)
  }

  /** The counts of entries and of irreversible entries; here every line is read. */
  function ClassesOf(p: Prim, m: Cas.Blobs, d: Digest): Outcome<(nat, nat)> {
    if d !in m then Err(Missing) else Counted(p, Split(m[d]), false)
  }

  /** What `merge_effects` records, or its first problem. */
  function MergedEffects(p: Prim, m: Cas.Blobs, a: Digest, b: Digest, ancestor: Digest, replay: seq<Class>): Outcome<Bytes> {
    match EntriesOf(p, m, a)
    case Err(problem) => Err(problem)
    case Ok(n) => RecordedWith(p, a, b, ancestor, replay, n, ClassesOf(p, m, b))
  }

  function RecordedWith(p: Prim, a: Digest, b: Digest, ancestor: Digest, replay: seq<Class>,
                        n: nat, counts: Outcome<(nat, nat)>): Outcome<Bytes>
  {
    match counts
    case Err(problem) => Err(problem)
    case Ok(pair) => Ok(p.render(MergedJson(a, b, ancestor, replay, (n, pair.0, pair.1))))
  }

  method MergeEffects(p: Prim, store: Cas.MemBlobStore, a: Digest, b: Digest, ancestor: Digest, replay: seq<Class>)
    returns (r: Outcome<Digest>)
    requires store.Valid(p)
    modifies store
    ensures store.Valid(p)
    ensures
      match MergedEffects(p, old(store.inner), a, b, ancestor, replay)
      case Err(problem) => r == Err(problem) && store.inner == old(store.inner)
      case Ok(bytes) => r == Ok(Of(p, bytes)) && store.inner == Cas.Stored(p, old(store.inner), bytes)
  {
    var aEntries := Count(p, store, a);
    if aEntries.Err? {
      return Err(aEntries.problem);
    }
    var bEntries := CountWithClass(p, store, b);
    if bEntries.Err? {
      return Err(bEntries.problem);
    }
    var counts := (aEntries.value, bEntries.value.0, bEntries.value.1);
    var d := store.Put(p, p.render(MergedJson(a, b, ancestor, replay, counts)));
    return Ok(d);
  }

  /** The merged record in terms of its members' names: the parents and the ancestor,
      the names of the classes to replay, and the three counts. */
  ghost predicate RecordReads(v: Json.Value, a: Digest, b: Digest, ancestor: Digest, replay: seq<Class>,
                              inA: nat, inB: nat, irreversible: nat)
  {
    && Json.Members(v, 6)
    && Json.Reads(v, "kind", Json.Str("effects.merged.v1"))
    && Json.Reads(v, "parent_a", Json.Str(a)) && Json.Reads(v, "parent_b", Json.Str(b))
    && Json.Reads(v, "ancestor", Json.Str(ancestor))
    && (exists names :: Json.Reads(v, "replay_with_new_key", Json.Arr(names)) && Lists(names, replay))
    && exists summary :: Json.Reads(v, "summary", summary) && SummaryReads(summary, inA, inB, irreversible)
  }

  ghost predicate SummaryReads(v: Json.Value, inA: nat, inB: nat, irreversible: nat) {
    && Json.Members(v, 3)
    && Json.Reads(v, "a_entries", Json.Num(inA)) && Json.Reads(v, "b_entries", Json.Num(inB))
    && Json.Reads(v, "b_irreversible_cached", Json.Num(irreversible))
  }

  /** The documents are the names of the classes, in order. */
  predicate Lists(names: seq<Json.Value>, classes: seq<Class>) {
    |names| == |classes| && forall i :: 0 <= i < |names| ==> names[i].Str? && CalledIn(classes[i], names[i].s)
  }

  lemma {:induction false} SummaryJsonReads(inA: nat, inB: nat, irreversible: nat)
    ensures SummaryReads(SummaryJson(inA, inB, irreversible), inA, inB, irreversible)
    ensures inA < U64_RANGE && inB < U64_RANGE && irreversible < U64_RANGE ==>
      Json.Representable(SummaryJson(inA, inB, irreversible))
  {
    Json.SummaryNames();
    hide Json.Reads, Json.KeyText;
    var v := SummaryJson(inA, inB, irreversible);
    Json.ReadsMember(v, Json.AEntries);
    Json.ReadsMember(v, Json.BEntries);
    Json.ReadsMember(v, Json.BIrreversibleCached);
    if inA < U64_RANGE && inB < U64_RANGE && irreversible < U64_RANGE {
      Json.ObjectRepresentable(v.fields);
    }
  }

  lemma {:induction false} MergedJsonReads(a: Digest, b: Digest, ancestor: Digest, replay: seq<Class>,
                                           inA: nat, inB: nat, irreversible: nat)
    ensures RecordReads(MergedJson(a, b, ancestor, replay, (inA, inB, irreversible)), a, b, ancestor, replay, inA, inB, irreversible)
  {
    Json.RecordNames();
    hide Json.Reads, Json.KeyText;
    var v := MergedJson(a, b, ancestor, replay, (inA, inB, irreversible));
    Json.ReadsMember(v, Json.Kind);
    Json.ReadsMember(v, Json.ParentA);
    Json.ReadsMember(v, Json.ParentB);
    Json.ReadsMember(v, Json.Ancestor);
    Json.ReadsMember(v, Json.ReplayWithNewKey);
    Json.ReadsMember(v, Json.Summary);
    SummaryJsonReads(inA, inB, irreversible);
    assert Lists(v.At(Json.ReplayWithNewKey).items, replay);
  }

  lemma {:induction false} MergedRepresentable(a: Digest, b: Digest, ancestor: Digest, replay: seq<Class>,
                                               inA: nat, inB: nat, irreversible: nat)
    requires inA < U64_RANGE && inB < U64_RANGE && irreversible < U64_RANGE
    ensures Json.Representable(MergedJson(a, b, ancestor, replay, (inA, inB, irreversible)))
  {
    hide SummaryReads;
    SummaryJsonReads(inA, inB, irreversible);
    Json.ObjectRepresentable(MergedJson(a, b, ancestor, replay, (inA, inB, irreversible)).fields);
  }

  /** The indices of the irreversible entries. */
  function Irreversibles(es: seq<Entry>): set<nat> { set i: nat | i < |es| && es[i].class_ == Irreversible }

  lemma {:induction false} IrreversibleCount(es: seq<Entry>)
    ensures IrreversibleIn(es) == |Irreversibles(es)| <= |es|
  {
    if es != [] {
      var last := |es| - 1;
      IrreversibleLast(es);
      IrreversibleCount(es[..last]);
      var all, before := Irreversibles(es), Irreversibles(es[..last]);
      assert all == if es[last].class_ == Irreversible then before + {last} else before;
    }
  }

  lemma {:induction false} IrreversibleLast(es: seq<Entry>)
    requires es != []
    ensures IrreversibleIn(es) == IrreversibleIn(es[..|es| - 1]) + if es[|es| - 1].class_ == Irreversible then 1 else 0
  {
    if |es| > 1 {
      IrreversibleLast(es[1..]);
      assert es[..|es| - 1][1..] == es[1..][..|es| - 2];
    }
  }

  lemma {:induction false} RecordOfWritten(p: Prim, m: Cas.Blobs, a: Digest, b: Digest, ancestor: Digest, replay: seq<Class>,
                                           s: Bytes, es: seq<Entry>, x: bool, t: Bytes, fs: seq<Entry>, y: bool)
    requires Lawful(p) && Countable(es) && Countable(fs)
    requires Cas.Lookup(m, a) == Some(SnapshotFile(p, s, es, x)) && Cas.Lookup(m, b) == Some(SnapshotFile(p, t, fs, y))
    ensures MergedEffects(p, m, a, b, ancestor, replay)
         == Ok(p.render(MergedJson(a, b, ancestor, replay, (|es|, |fs|, IrreversibleIn(fs)))))
  {
    CountWrittenLedger(p, s, es, x);
    CountWrittenLedger(p, t, fs, y);
    HeaderRoundTrip(p, s, |es|, x);
    LinesOfFile(p, WrittenHeader(s, |es|, x), es);
  }

  lemma {:induction false} RecordIsRead(p: Prim, a: Digest, b: Digest, ancestor: Digest, replay: seq<Class>,
                                        inA: nat, inB: nat, irreversible: nat)
    requires Lawful(p) && inA < U64_RANGE && inB < U64_RANGE && irreversible < U64_RANGE
    ensures
      var record := p.parse(p.render(MergedJson(a, b, ancestor, replay, (inA, inB, irreversible))));
      record.Some? && RecordReads(record.value, a, b, ancestor, replay, inA, inB, irreversible)
  {
    hide RecordReads, MergedJson, Json.Representable;
    MergedRepresentable(a, b, ancestor, replay, inA, inB, irreversible);
    MergedJsonReads(a, b, ancestor, replay, inA, inB, irreversible);
    var record := MergedJson(a, b, ancestor, replay, (inA, inB, irreversible));
    assert p.parse(p.render(record)) == Some(record);
  }

  /** On two ledgers written by `pf snapshot` the merge leaves bytes that read as a
      record of the parents and the ancestor as given, with the exact number of
      entries of each side and of the irreversible ones of B. */
  lemma {:induction false} MergedEffectsOfWritten(p: Prim, m: Cas.Blobs, a: Digest, b: Digest, ancestor: Digest, replay: seq<Class>,
                                                  s: Bytes, es: seq<Entry>, x: bool, t: Bytes, fs: seq<Entry>, y: bool)
    requires Lawful(p) && Countable(es) && Countable(fs)
    requires Cas.Lookup(m, a) == Some(SnapshotFile(p, s, es, x)) && Cas.Lookup(m, b) == Some(SnapshotFile(p, t, fs, y))
    ensures
      var r := MergedEffects(p, m, a, b, ancestor, replay);
      && r.Ok? && p.parse(r.value).Some?
      && RecordReads(p.parse(r.value).value, a, b, ancestor, replay, |es|, |fs|, |Irreversibles(fs)|)
  {
    hide RecordReads, MergedEffects, MergedJson, SnapshotFile;
    RecordOfWritten(p, m, a, b, ancestor, replay, s, es, x, t, fs, y);
    IrreversibleCount(fs);
    RecordIsRead(p, a, b, ancestor, replay, |es|, |fs|, IrreversibleIn(fs));
  }
}
