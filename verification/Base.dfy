/** Values every layer shares: bytes, digests, and the primitives (hash, MAC,
    compression, JSON text) that stay uninterpreted. */
module Base {

  import opened Bits
  import Json

  datatype Option<+T> = None | Some(value: T)

  datatype Result<+T, +E> = Success(value: T) | Failure(error: E)

  /** The primitives the program takes from libraries. Each is an arbitrary
      total function; `Lawful` says the little that is relied upon. `fraction`
      is the output function of SplitMix64 followed by the conversion of its
      top 53 bits to a fraction; `instant` reads RFC 3339 text and prints the
      instant again, in UTC. */
  datatype Prim = Prim(
    sha: Bytes -> Bytes,
    hmac: (Bytes, Bytes) -> Bytes,
    hmacText: (Bytes, string) -> Bytes,
    zstd: Bytes -> Bytes,
    unzstd: Bytes -> Option<Bytes>,
    render: Json.Value -> Bytes,
    parse: Bytes -> Option<Json.Value>,
    isUtf8: Bytes -> bool,
    fraction: u64 -> real,
    instant: string -> Option<string>)

  const NEWLINE: byte := 10

  /** What is assumed of the libraries: a digest is 32 bytes, decompression
      undoes compression, parsing undoes printing of representable documents, and
      JSON text is neither empty nor contains a raw line feed (section 7 of RFC
      8259). Nothing is assumed about collisions: see `CollisionFree`. */
  ghost predicate Lawful(p: Prim) {
    && (forall b :: |p.sha(b)| == 32)
    && (forall b :: p.unzstd(p.zstd(b)) == Some(b))
    && (forall j :: Json.Representable(j) ==> p.parse(p.render(j)) == Some(j))
    && (forall j :: p.render(j) != [] && NEWLINE !in p.render(j))
  }

  /** No two different members of `inputs` hash alike. A hypothesis about the
      finitely many byte strings in play, never about all byte strings. */
  ghost predicate CollisionFree(p: Prim, inputs: set<Bytes>) {
    forall x, y :: x in inputs && y in inputs && p.sha(x) == p.sha(y) ==> x == y
  }

  // ---------- digests: "sha256:" followed by 64 hex characters ----------

  type Digest = string

  const PREFIX: string := "sha256:"

  function HexDigit(n: int): char
    requires 0 <= n < 16
  {
    if n < 10 then '0' + (n as char) else 'a' + ((n - 10) as char)
  }

  /** Value of a hexadecimal digit of either case. */
  function DigitValue(c: char): (v: Option<int>)
    ensures v.Some? ==> 0 <= v.value < 16
  {
    if '0' <= c <= '9' then Some(c as int - '0' as int)
    else if 'a' <= c <= 'f' then Some(c as int - 'a' as int + 10)
    else if 'A' <= c <= 'F' then Some(c as int - 'A' as int + 10)
    else None
  }

  function HexEncode(b: Bytes): string {
    if b == [] then ""
    else [HexDigit(b[0] as int / 16), HexDigit(b[0] as int % 16)] + HexEncode(b[1..])
  }

  function HexDecode(s: string): Option<Bytes> {
    if s == "" then Some([])
    else if |s| == 1 then None
    else
      match (DigitValue(s[0]), DigitValue(s[1]), HexDecode(s[2..]))
      case (Some(hi), Some(lo), Some(rest)) => Some([(16 * hi + lo) as byte] + rest)
      case _ => None
  }

  function LowerHex(c: char): char {
    if 'A' <= c <= 'F' then 'a' + (c - 'A') else c
  }

  function Lower(s: string): string {
    if s == "" then "" else [LowerHex(s[0])] + Lower(s[1..])
  }

  predicate LowerHexText(s: string) {
    forall i :: 0 <= i < |s| ==> '0' <= s[i] <= '9' || 'a' <= s[i] <= 'f'
  }

  lemma {:induction false} HexLength(b: Bytes)
    ensures |HexEncode(b)| == 2 * |b|
    ensures LowerHexText(HexEncode(b))
  {
    if b != [] {
      HexLength(b[1..]);
    }
  }

  lemma {:induction false} LowerFixed(s: string)
    requires LowerHexText(s)
    ensures Lower(s) == s
  {
    if s != "" {
      LowerFixed(s[1..]);
      assert s == [s[0]] + s[1..];
    }
  }

  lemma {:induction false} DigitLower(c: char, n: int)
    requires 0 <= n < 16
    ensures DigitValue(c) == Some(n) <==> LowerHex(c) == HexDigit(n)
  {
  }

  lemma {:induction false} PairLower(c: char, d: char, x: byte)
    ensures DigitValue(c).Some? && DigitValue(d).Some? && 16 * DigitValue(c).value + DigitValue(d).value == x as int
       <==> LowerHex(c) == HexDigit(x as int / 16) && LowerHex(d) == HexDigit(x as int % 16)
  {
    DigitLower(c, x as int / 16);
    DigitLower(d, x as int % 16);
  }

  /** Decoding accepts exactly the encoding, in either case of its letters. */
  lemma {:induction false} HexRoundTrip(s: string, b: Bytes)
    ensures HexDecode(s) == Some(b) <==> Lower(s) == HexEncode(b)
  {
    HexLength(b);
    LowerLength(s);
    if |s| >= 2 && b != [] {
      HexRoundTrip(s[2..], b[1..]);
      PairLower(s[0], s[1], b[0]);
      LowerTwo(s);
      var l, h, t := Lower(s), HexEncode(b), HexDecode(s);
      assert l[0] == LowerHex(s[0]) && l[1] == LowerHex(s[1]) && l[2..] == Lower(s[2..]);
      assert h[0] == HexDigit(b[0] as int / 16) && h[1] == HexDigit(b[0] as int % 16) && h[2..] == HexEncode(b[1..]);
      assert l == l[..2] + l[2..] && h == h[..2] + h[2..];
      assert b == [b[0]] + b[1..];
      if t.Some? {
        assert t.value[1..] == HexDecode(s[2..]).value;
      }
    }
  }

  lemma {:induction false} LowerLength(s: string)
    ensures |Lower(s)| == |s|
  {
    if s != "" {
      LowerLength(s[1..]);
    }
  }

  lemma {:induction false} LowerTwo(s: string)
    requires |s| >= 2
    ensures Lower(s) == [LowerHex(s[0]), LowerHex(s[1])] + Lower(s[2..])
  {
    assert s[1..][1..] == s[2..];
  }

  lemma {:induction false} HexInjective(x: Bytes, y: Bytes)
    requires HexEncode(x) == HexEncode(y)
    ensures x == y
  {
    HexLength(x);
    LowerFixed(HexEncode(x));
    HexRoundTrip(HexEncode(x), x);
    HexRoundTrip(HexEncode(x), y);
  }

  function Hash(p: Prim, b: Bytes): string { HexEncode(p.sha(b)) }

  /** `Digest256::of` */
  function Of(p: Prim, b: Bytes): Digest { PREFIX + Hash(p, b) }

  /** `Digest256::hex`: everything after the prefix. */
  function HexPart(d: Digest): string {
    if |d| < 7 then "" else d[7..]
  }

  /** `Digest256::parse` accepts the prefix and 64 hex digits of either case. */
  predicate IsDigest(s: string) {
    |s| == 71 && s[..7] == PREFIX && forall i :: 7 <= i < 71 ==> DigitValue(s[i]).Some?
  }

  lemma {:induction false} HashShape(p: Prim, b: Bytes)
    requires Lawful(p)
    ensures |Hash(p, b)| == 64
    ensures LowerHexText(Hash(p, b))
    ensures HexPart(Of(p, b)) == Hash(p, b)
    ensures IsDigest(Of(p, b))
  {
    HexLength(p.sha(b));
    assert |p.sha(b)| == 32;
    var d := Of(p, b);
    assert d[..7] == PREFIX && d[7..] == Hash(p, b);
    forall i | 7 <= i < 71
      ensures DigitValue(d[i]).Some?
    {
      assert d[i] == Hash(p, b)[i - 7];
    }
  }

  lemma {:induction false} OfInjective(p: Prim, inputs: set<Bytes>, x: Bytes, y: Bytes)
    requires CollisionFree(p, inputs) && x in inputs && y in inputs
    requires Of(p, x) == Of(p, y)
    ensures x == y
  {
    assert Of(p, x)[7..] == Hash(p, x) && Of(p, y)[7..] == Hash(p, y);
    HexInjective(p.sha(x), p.sha(y));
  }

  /** `{}` formatting of a natural number. */
  function Decimal(n: nat): string {
    if n < 10 then ['0' + (n as char)] else Decimal(n / 10) + ['0' + ((n % 10) as char)]
  }

  /** The bytes of ASCII text. */
  function Ascii(s: string): Bytes {
    seq(|s|, i requires 0 <= i < |s| => (s[i] as int % 256) as byte)
  }
}
