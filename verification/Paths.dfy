/** Paths as lists of names: their text, their order, the ignore rules on them, and
    the text of permission bits. */
module Paths {

  import opened Base
  import opened Sorting

  /** A path below the captured root. The root itself is `[]`. */
  type Rel = seq<string>

  // ---------- text of a path ----------

  /** Where the first `/` stands, or the length if there is none. */
  function Slash(s: string): (i: nat)
    ensures i <= |s| && '/' !in s[..i] && (i < |s| ==> s[i] == '/')
  {
    if s == "" || s[0] == '/' then 0 else 1 + Slash(s[1..])
  }

  /** The non-empty pieces between the slashes. */
  function Pieces(s: string): seq<string>
    decreases |s|
  {
    var i := Slash(s);
    var first := if i == 0 then [] else [s[..i]];
    if i == |s| then first else first + Pieces(s[i + 1..])
  }

  function WithoutDots(names: seq<string>): seq<string> {
    if names == [] then [] else (if names[0] == "." then [] else [names[0]]) + WithoutDots(names[1..])
  }

  /** `Path::components()` of a relative path: its names and its `..` steps. */
  function Parts(s: string): seq<string> { WithoutDots(Pieces(s)) }

  predicate IsAbsolute(s: string) { s != "" && s[0] == '/' }

  predicate IsName(s: string) { s != "" && s != "." && s != ".." && '/' !in s }

  predicate IsRel(path: Rel) { forall i :: 0 <= i < |path| ==> IsName(path[i]) }

  function Join(path: Rel): string {
    if path == [] then "" else if |path| == 1 then path[0] else path[0] + "/" + Join(path[1..])
  }

  /** `replace('\\', "/")` */
  function ForwardSlashes(s: string): string {
    if s == "" then "" else [if s[0] == '\\' then '/' else s[0]] + ForwardSlashes(s[1..])
  }

  function Render(path: Rel): string { ForwardSlashes(Join(path)) }

  /** The text is the name, with slashes for backslashes. */
  predicate NameText(name: string, text: string) {
    |text| == |name| && forall i :: 0 <= i < |name| ==> text[i] == if name[i] == '\\' then '/' else name[i]
  }

  /** The text is that of each name in turn, with one slash between two. */
  predicate PathText(path: Rel, text: string) {
    if path == [] then text == ""
    else if |path| == 1 then NameText(path[0], text)
    else
      var n := |path[0]|;
      && n < |text| && text[n] == '/'
      && NameText(path[0], text[..n]) && PathText(path[1..], text[n + 1..])
  }

  lemma {:induction false} RenderName(name: string)
    ensures NameText(name, ForwardSlashes(name))
  {
    if name != "" {
      RenderName(name[1..]);
      var text, rest := ForwardSlashes(name), ForwardSlashes(name[1..]);
      forall i | 0 <= i < |name|
        ensures text[i] == if name[i] == '\\' then '/' else name[i]
      {
        assert i > 0 ==> text[i] == rest[i - 1] && name[i] == name[1..][i - 1];
      }
    }
  }

  lemma {:induction false} ForwardSlashesConcat(s: string, t: string)
    ensures ForwardSlashes(s + t) == ForwardSlashes(s) + ForwardSlashes(t)
  {
    if s == "" {
      assert s + t == t;
    } else {
      ForwardSlashesConcat(s[1..], t);
      assert (s + t)[1..] == s[1..] + t;
    }
  }

  lemma {:induction false} RenderText(path: Rel)
    ensures PathText(path, Render(path))
  {
    if |path| == 1 {
      RenderName(path[0]);
    } else if |path| > 1 {
      RenderName(path[0]);
      RenderText(path[1..]);
      ForwardSlashesConcat(path[0] + "/", Join(path[1..]));
      ForwardSlashesConcat(path[0], "/");
      assert ForwardSlashes("/") == "/";
      assert path[0] + "/" + Join(path[1..]) == (path[0] + "/") + Join(path[1..]);
      var text, n := Render(path), |path[0]|;
      assert text == ForwardSlashes(path[0]) + "/" + Render(path[1..]);
      assert text[..n] == ForwardSlashes(path[0]) && text[n + 1..] == Render(path[1..]);
    }
  }

  /** No name holds a backslash. */
  predicate Plain(path: Rel) { forall i :: 0 <= i < |path| ==> '\\' !in path[i] }

  lemma {:induction false} SlashInName(name: string, rest: string)
    requires '/' !in name
    ensures Slash(name + rest) == if rest == "" then |name| else |name| + Slash(rest)
  {
    if name == "" {
      assert name + rest == rest;
    } else {
      assert (name + rest)[1..] == name[1..] + rest;
      SlashInName(name[1..], rest);
    }
  }

  lemma {:induction false} PiecesOfJoin(path: Rel)
    requires IsRel(path)
    ensures Pieces(Join(path)) == path
  {
    if |path| == 1 {
      SlashInName(path[0], "");
      assert path[0] + "" == path[0];
      assert path[0][..|path[0]|] == path[0];
    } else if path != [] {
      var rest := Join(path[1..]);
      var s := path[0] + "/" + rest;
      assert s == path[0] + ("/" + rest);
      SlashInName(path[0], "/" + rest);
      assert s[..|path[0]|] == path[0] && s[|path[0]| + 1..] == rest;
      PiecesOfJoin(path[1..]);
      assert path == [path[0]] + path[1..];
    }
  }

  lemma {:induction false} NoDots(path: Rel)
    requires IsRel(path)
    ensures WithoutDots(path) == path
  {
    if path != [] {
      NoDots(path[1..]);
      assert path == [path[0]] + path[1..];
    }
  }

  lemma {:induction false} PlainJoin(path: Rel)
    requires Plain(path)
    ensures '\\' !in Join(path)
  {
    if |path| > 1 {
      PlainJoin(path[1..]);
    }
  }

  lemma {:induction false} PlainText(s: string)
    ensures '\\' !in s ==> ForwardSlashes(s) == s
    ensures '\\' !in ForwardSlashes(s)
  {
    if s != "" {
      PlainText(s[1..]);
      assert s == [s[0]] + s[1..];
    }
  }

  /** A path without backslashes is read back from its text. */
  lemma {:induction false} PathRoundTrip(path: Rel)
    requires IsRel(path) && Plain(path)
    ensures Parts(Render(path)) == path
    ensures path != [] ==> !IsAbsolute(Render(path))
  {
    PlainJoin(path);
    PlainText(Join(path));
    PiecesOfJoin(path);
    NoDots(path);
    if path != [] {
      assert Join(path)[0] == path[0][0];
      assert path[0][0] in path[0];
    }
  }

  /** What is read from a text without backslashes has none. */
  lemma {:induction false} PiecesPlain(s: string)
    requires '\\' !in s
    ensures Plain(Pieces(s))
    decreases |s|
  {
    var i := Slash(s);
    if i < |s| {
      PiecesPlain(s[i + 1..]);
    }
  }

  lemma {:induction false} DotsPlain(names: seq<string>)
    requires Plain(names)
    ensures Plain(WithoutDots(names))
  {
    if names != [] {
      DotsPlain(names[1..]);
    }
  }

  lemma {:induction false} RenderedPlain(path: Rel)
    ensures Plain(Parts(Render(path)))
  {
    PlainText(Join(path));
    PiecesPlain(Render(path));
    DotsPlain(Pieces(Render(path)));
  }

  // ---------- `..` and the restore root ----------

  /** Following `parts` from the directory `dir`, name by name: `None` when a
      `..` would leave the root. */
  function Follow(dir: Rel, parts: seq<string>): Option<Rel>
    decreases |parts|
  {
    if parts == [] then Some(dir)
    else if parts[0] == ".." then
      if dir == [] then None else Follow(dir[..|dir| - 1], parts[1..])
    else Follow(dir + [parts[0]], parts[1..])
  }

  /** The directory of a path; the root's is the root. */
  function DirOf(path: Rel): Rel { if path == [] then [] else path[..|path| - 1] }

  /** The link's target, followed from the link's directory, stays below the root. */
  predicate StaysInside(link: Rel, target: string) {
    !IsAbsolute(target) && Follow(DirOf(link), Parts(target)).Some?
  }

  /** `check_symlink_target`: a depth counter that must not go negative. */
  method CheckTarget(link: Rel, target: string) returns (ok: bool)
    ensures ok <==> StaysInside(link, target)
  {
    if IsAbsolute(target) {
      return false;
    }
    var parts := Parts(target);
    var depth: int := if link == [] then 0 else |link| - 1;
    ghost var dir := DirOf(link);
    for i := 0 to |parts|
      invariant depth == |dir|
      invariant Follow(dir, parts[i..]) == Follow(DirOf(link), parts)
    {
      assert parts[i..][0] == parts[i] && parts[i..][1..] == parts[i + 1..];
      if parts[i] == ".." {
        depth := depth - 1;
        if depth < 0 {
          return false;
        }
        dir := dir[..|dir| - 1];
      } else {
        depth := depth + 1;
        dir := dir + [parts[i]];
      }
    }
    return true;
  }

  // ---------- order ----------

  /** Paths compare name by name. */
  predicate PathLe(a: Rel, b: Rel) {
    a == [] || (b != [] && (if a[0] == b[0] then PathLe(a[1..], b[1..]) else StrLe(a[0], b[0])))
  }

  lemma {:induction false} PathTotal(a: Rel, b: Rel)
    ensures PathLe(a, b) || PathLe(b, a)
    ensures PathLe(a, b) && PathLe(b, a) ==> a == b
  {
    if a != [] && b != [] {
      StrTotal(a[0], b[0]);
      PathTotal(a[1..], b[1..]);
      assert a == [a[0]] + a[1..] && b == [b[0]] + b[1..];
    }
  }

  lemma {:induction false} PathTransitive(a: Rel, b: Rel, c: Rel)
    requires PathLe(a, b) && PathLe(b, c)
    ensures PathLe(a, c)
  {
    if a != [] {
      if a[0] == b[0] == c[0] {
        PathTransitive(a[1..], b[1..], c[1..]);
      } else if a[0] != b[0] && b[0] != c[0] {
        StrTransitive(a[0], b[0], c[0]);
        StrTotal(a[0], b[0]);
      }
    }
  }

  lemma {:induction false} PathOrder()
    ensures TotalPreorder(PathLe)
    ensures forall a, b :: PathLe(a, b) && PathLe(b, a) ==> a == b
  {
    forall a, b
      ensures PathLe(a, b) || PathLe(b, a)
      ensures PathLe(a, b) && PathLe(b, a) ==> a == b
    {
      PathTotal(a, b);
    }
    forall a, b, c | PathLe(a, b) && PathLe(b, c)
      ensures PathLe(a, c)
    {
      PathTransitive(a, b, c);
    }
  }

  /** Directories come before what is in them. */
  lemma {:induction false} PrefixLe(path: Rel, i: nat)
    requires i <= |path|
    ensures PathLe(path[..i], path)
  {
    if i > 0 {
      assert path[..i][1..] == path[1..][..i - 1];
      PrefixLe(path[1..], i - 1);
    }
  }

  /** The order of paths is not the order of their texts. */
  lemma {:induction false} PathOrderIsNotTextOrder()
    ensures PathLe(["a", "b"], ["a-b"]) && !StrLe(Join(["a", "b"]), Join(["a-b"]))
  {
    assert ["a", "b"][1..] == ["b"];
    assert Join(["b"]) == "b";
    var s, t := Join(["a", "b"]), Join(["a-b"]);
    assert s == "a/b" && t == "a-b";
    assert "a"[1..] == "" && s[1..] == "/b" && t[1..] == "-b";
    assert StrLe("a", "a-b");
  }

  // ---------- ignore rules ----------

  /** `needles` occurs as a run of consecutive names. */
  predicate RunAt(path: seq<string>, needles: seq<string>, i: nat) {
    i + |needles| <= |path| && path[i..i + |needles|] == needles
  }

  predicate HasRun(path: seq<string>, needles: seq<string>) {
    exists i :: 0 <= i <= |path| && RunAt(path, needles, i)
  }

  /** An ignore entry matches a run of names; one without names matches nothing. */
  predicate Matches(path: seq<string>, ignore: string) { Pieces(ignore) != [] && HasRun(path, Pieces(ignore)) }

  predicate AnyIgnore(path: seq<string>, ignores: seq<string>) {
    exists j :: 0 <= j < |ignores| && Matches(path, ignores[j])
  }

  method MatchesAnyIgnore(path: seq<string>, ignores: seq<string>) returns (r: bool)
    ensures r == AnyIgnore(path, ignores)
  {
    for j := 0 to |ignores|
      invariant forall k :: 0 <= k < j ==> !Matches(path, ignores[k])
    {
      var needles := Pieces(ignores[j]);
      if needles == [] {
        continue;
      }
      var i := 0;
      while i + |needles| <= |path|
        invariant 0 <= i <= |path|
        invariant forall k :: 0 <= k < i ==> !RunAt(path, needles, k)
      {
        if path[i..i + |needles|] == needles {
          assert RunAt(path, needles, i);
          assert Matches(path, ignores[j]);
          return true;
        }
        i := i + 1;
      }
      assert forall k :: i <= k <= |path| ==> !RunAt(path, needles, k);
    }
    return false;
  }

  /** Adding names to a path loses no match. */
  lemma {:induction false} IgnoreInherited(path: seq<string>, more: seq<string>, ignores: seq<string>)
    ensures AnyIgnore(path, ignores) ==> AnyIgnore(path + more, ignores)
  {
    if j :| 0 <= j < |ignores| && Matches(path, ignores[j]) {
      var needles := Pieces(ignores[j]);
      var i :| 0 <= i <= |path| && RunAt(path, needles, i);
      assert (path + more)[i..i + |needles|] == path[i..i + |needles|];
      assert RunAt(path + more, needles, i);
      assert Matches(path + more, ignores[j]);
    }
  }

  // ---------- permission bits ----------

  function Octal(n: nat): char
    requires n < 8
  {
    '0' + n as char
  }

  /** `{:04o}` of the low twelve bits. */
  function ModeText(mode: nat): string
    requires mode < 4096
  {
    [Octal(mode / 512), Octal(mode / 64 % 8), Octal(mode / 8 % 8), Octal(mode % 8)]
  }

  function OctalValue(s: string): Option<nat> {
    if s == "" then Some(0)
    else
      var n := |s| - 1;
      if !('0' <= s[n] <= '7') then None
      else
        match OctalValue(s[..n])
        case None => None
        case Some(high) => Some(8 * high + (s[n] as nat - '0' as nat))
  }

  /** `u32::from_str_radix(s, 8)`: an optional sign, at least one digit, no overflow. */
  function ParseOctal(s: string): Option<nat> {
    var digits := if s != "" && s[0] == '+' then s[1..] else s;
    if digits == "" then None
    else
      match OctalValue(digits)
      case None => None
      case Some(n) => if n < 0x1_0000_0000 then Some(n) else None
  }

  /** The bits that a recorded mode sets; 0644 if it cannot be read. */
  function ModeBits(s: string): (mode: nat)
    ensures mode < 4096
  {
    match ParseOctal(s)
    case Some(n) => n % 4096
    case None => 420
  }

  lemma {:induction false} OctalAppend(s: string, d: nat)
    requires d < 8 && OctalValue(s).Some?
    ensures OctalValue(s + [Octal(d)]) == Some(8 * OctalValue(s).value + d)
  {
    var t := s + [Octal(d)];
    assert t[..|t| - 1] == s && t[|t| - 1] == Octal(d);
  }

  lemma {:induction false} FourDigits(a: nat, b: nat, c: nat, d: nat)
    requires a < 8 && b < 8 && c < 8 && d < 8
    ensures OctalValue([Octal(a), Octal(b), Octal(c), Octal(d)]) == Some(512 * a + 64 * b + 8 * c + d)
  {
    var s1 := "" + [Octal(a)];
    var s2 := s1 + [Octal(b)];
    var s3 := s2 + [Octal(c)];
    OctalAppend("", a);
    OctalAppend(s1, b);
    OctalAppend(s2, c);
    OctalAppend(s3, d);
    assert s3 + [Octal(d)] == [Octal(a), Octal(b), Octal(c), Octal(d)];
  }

  lemma {:induction false} DigitSum(mode: nat)
    requires mode < 4096
    ensures 512 * (mode / 512) + 64 * (mode / 64 % 8) + 8 * (mode / 8 % 8) + mode % 8 == mode
  {
    var low, middle := mode / 8, mode / 64;
    assert middle == 8 * (middle / 8) + middle % 8 && middle / 8 == mode / 512;
    assert low == 8 * (low / 8) + low % 8 && low / 8 == middle;
  }

  lemma {:induction false} ModeRoundTrip(mode: nat)
    requires mode < 4096
    ensures ModeBits(ModeText(mode)) == mode
  {
    DigitSum(mode);
    FourDigits(mode / 512, mode / 64 % 8, mode / 8 % 8, mode % 8);
  }

  /** Text with anything but octal digits after an optional sign reads as 0644. */
  lemma {:induction false} UnreadableMode(s: string, i: nat)
    requires i < |s| && !IsOctalDigit(s[i]) && (i > 0 || s[0] != '+')
    ensures OctalValue(s).None? && ModeBits(s) == 6 * 64 + 4 * 8 + 4
  {
    NotOctal(s, i);
    if s[0] == '+' {
      NotOctal(s[1..], i - 1);
    }
  }

  lemma {:induction false} NotOctal(s: string, i: nat)
    requires i < |s| && !IsOctalDigit(s[i])
    ensures OctalValue(s).None?
  {
    var n := |s| - 1;
    if i < n {
      NotOctal(s[..n], i);
    }
  }

  predicate IsOctalDigit(c: char) { '0' <= c <= '7' }

  /** Four octal digits with that value. */
  predicate OctalText(text: string, mode: nat) {
    && |text| == 4 && (forall i :: 0 <= i < 4 ==> IsOctalDigit(text[i]))
    && mode == 512 * (text[0] as int - 48) + 64 * (text[1] as int - 48) + 8 * (text[2] as int - 48) + (text[3] as int - 48)
  }

  lemma {:induction false} ModeTextIsOctal(mode: nat)
    requires mode < 4096
    ensures OctalText(ModeText(mode), mode)
  {
    DigitSum(mode);
  }
}
