/**
 Stable finding identity (src/finding_id.rs): path normalisation and the `path:line:slug` payload.
 The digest is a parameter: any function from payloads to 32 bytes.
 */
module FindingId {
  import opened Wrappers
  import opened Durations
  import opened Text
  import opened Utf8

  // ---- normalize_path ----

  /** `replace('\\', "/")` */
  function ForwardSlashes(s: string): (r: string)
    ensures |r| == |s|
    ensures forall i | 0 <= i < |s| :: r[i] == if s[i] == '\\' then '/' else s[i]
  {
    if s == [] then [] else [if s[0] == '\\' then '/' else s[0]] + ForwardSlashes(s[1..])
  }

  /** Strip every leading `./`. */
  function StripDotSlash(s: string): string {
    if "./" <= s then StripDotSlash(s[2..]) else s
  }

  predicate HasDoubleSlash(s: string) {
    exists i | 0 <= i < |s| - 1 :: s[i] == '/' && s[i + 1] == '/'
  }

  /** `replace("//", "/")`: one left-to-right pass over non-overlapping pairs. */
  function HalveSlashes(s: string): (r: string)
    ensures |r| <= |s|
  {
    if "//" <= s then ['/'] + HalveSlashes(s[2..])
    else if s == [] then []
    else [s[0]] + HalveSlashes(s[1..])
  }

  /** The reference: a single pass that keeps one slash of every run. */
  function CollapseSlashes(s: string): string {
    if s == [] then []
    else if "//" <= s then CollapseSlashes(s[1..])
    else [s[0]] + CollapseSlashes(s[1..])
  }

  function NormalizePath(path: string): string {
    CollapseSlashes(StripDotSlash(ForwardSlashes(path)))
  }

  predicate IsNormal(s: string) {
    '\\' !in s && !("./" <= s) && !HasDoubleSlash(s)
  }

  lemma {:induction false} CollapseAfterHalving(s: string)
    ensures CollapseSlashes(HalveSlashes(s)) == CollapseSlashes(s)
    decreases |s|
  {
    if "//" <= s {
      // both sides drop one slash and are left with a slash followed by the rest
      var rest := s[2..];
      assert s[1..] == ['/'] + rest;
      CollapseAfterHalving(rest);
      SlashInFront(rest);
      SlashInFront(HalveSlashes(rest));
      HalvingKeepsFirst(rest);
    } else if s != [] {
      CollapseAfterHalving(s[1..]);
      HalvingKeepsFirst(s[1..]);
      if s[0] == '/' {
        SlashInFront(HalveSlashes(s[1..]));
        SlashInFront(s[1..]);
        assert s == ['/'] + s[1..];
      } else {
        assert ([s[0]] + HalveSlashes(s[1..]))[1..] == HalveSlashes(s[1..]);
      }
    }
  }

  lemma {:induction false} HalvingKeepsFirst(s: string)
    ensures s == [] <==> HalveSlashes(s) == []
    ensures s != [] ==> HalveSlashes(s)[0] == s[0]
  {
  }

  /** A slash disappears in front of another slash and survives in front of anything else. */
  lemma SlashInFront(s: string)
    ensures CollapseSlashes(['/'] + s)
            == if s != [] && s[0] == '/' then CollapseSlashes(s) else ['/'] + CollapseSlashes(s)
  {
    assert (['/'] + s)[1..] == s;
  }

  lemma {:induction false} HalvingShrinks(s: string)
    requires HasDoubleSlash(s)
    ensures |HalveSlashes(s)| < |s|
    decreases |s|
  {
    if !("//" <= s) {
      var i :| 0 <= i < |s| - 1 && s[i] == '/' && s[i + 1] == '/';
      assert s[1..][i - 1] == '/' && s[1..][i] == '/';
      HalvingShrinks(s[1..]);
    }
  }

  lemma {:induction false} CollapseResult(s: string)
    ensures !HasDoubleSlash(CollapseSlashes(s))
    ensures s == [] <==> CollapseSlashes(s) == []
    ensures s != [] ==> CollapseSlashes(s)[0] == s[0]
    ensures forall c | c in CollapseSlashes(s) :: c in s
    ensures "./" <= CollapseSlashes(s) ==> "./" <= s
  {
    if s != [] {
      CollapseResult(s[1..]);
      var r := CollapseSlashes(s[1..]);
      if !("//" <= s) {
        assert CollapseSlashes(s) == [s[0]] + r;
        forall i | 0 <= i < |r| ensures !(([s[0]] + r)[i] == '/' && ([s[0]] + r)[i + 1] == '/') {
          assert i > 0 ==> !(r[i - 1] == '/' && r[i] == '/');
        }
      }
    }
  }

  lemma DoublePrefix(s: string)
    ensures "//" <= s ==> HasDoubleSlash(s)
  {
    if "//" <= s {
      assert s[0] == '/' && s[1] == '/';
    }
  }

  lemma {:induction false} CollapseFixesNormal(s: string)
    requires !HasDoubleSlash(s)
    ensures CollapseSlashes(s) == s
  {
    if s != [] {
      DoublePrefix(s);
      assert !HasDoubleSlash(s[1..]) by {
        forall i | 0 <= i < |s[1..]| - 1 ensures !(s[1..][i] == '/' && s[1..][i + 1] == '/') {
          assert !(s[i + 1] == '/' && s[i + 2] == '/');
        }
      }
      CollapseFixesNormal(s[1..]);
    }
  }

  lemma {:induction false} StripResult(s: string)
    ensures !("./" <= StripDotSlash(s))
    ensures forall c | c in StripDotSlash(s) :: c in s
    decreases |s|
  {
    if "./" <= s {
      StripResult(s[2..]);
    }
  }

  /** The result is canonical, and canonical paths are exactly the ones left alone. */
  lemma NormalizePathCanonical(path: string)
    ensures IsNormal(NormalizePath(path))
    ensures NormalizePath(path) == path <==> IsNormal(path)
  {
    var forward := ForwardSlashes(path);
    assert '\\' !in forward;
    StripResult(forward);
    CollapseResult(StripDotSlash(forward));
    if IsNormal(path) {
      assert forward == path by {
        assert forall i | 0 <= i < |path| :: path[i] in path;
      }
      CollapseFixesNormal(path);
    }
  }

  lemma NormalizePathIdempotent(path: string)
    ensures NormalizePath(NormalizePath(path)) == NormalizePath(path)
  {
    NormalizePathCanonical(path);
    NormalizePathCanonical(NormalizePath(path));
  }

  lemma {:induction false} CollapseInside(s: string, t: string)
    ensures CollapseSlashes(s + "//" + t) == CollapseSlashes(s + "/" + t)
  {
    if s == [] {
      assert [] + "//" + t == "//" + t && [] + "/" + t == "/" + t;
      assert ("//" + t)[1..] == "/" + t;
    } else {
      var long, short := s + "//" + t, s + "/" + t;
      assert long[1..] == s[1..] + "//" + t && short[1..] == s[1..] + "/" + t;
      assert "//" <= long <==> "//" <= short;
      CollapseInside(s[1..], t);
    }
  }

  lemma ForwardAppend(s: string, t: string)
    ensures ForwardSlashes(s + t) == ForwardSlashes(s) + ForwardSlashes(t)
  {
    hide ForwardSlashes;
    forall i | 0 <= i < |s + t| ensures ForwardSlashes(s + t)[i] == (ForwardSlashes(s) + ForwardSlashes(t))[i] {
      assert (s + t)[i] == if i < |s| then s[i] else t[i - |s|];
    }
  }

  lemma ForwardSymbols()
    ensures ForwardSlashes("\\") == "/" && ForwardSlashes("/") == "/"
    ensures ForwardSlashes("//") == "//" && ForwardSlashes("./") == "./"
  {
    hide ForwardSlashes;
  }

  lemma ForwardOfPieces(s: string, t: string)
    ensures ForwardSlashes(s + "\\" + t) == ForwardSlashes(s) + "/" + ForwardSlashes(t)
    ensures ForwardSlashes(s + "/" + t) == ForwardSlashes(s) + "/" + ForwardSlashes(t)
    ensures ForwardSlashes(s + "//" + t) == ForwardSlashes(s) + "//" + ForwardSlashes(t)
    ensures ForwardSlashes("./" + t) == "./" + ForwardSlashes(t)
  {
    hide ForwardSlashes;
    ForwardSymbols();
    ForwardAppend(s, "\\");
    ForwardAppend(s + "\\", t);
    ForwardAppend(s, "/");
    ForwardAppend(s + "/", t);
    ForwardAppend(s, "//");
    ForwardAppend(s + "//", t);
    ForwardAppend("./", t);
  }

  lemma StripLeadsNowhere(s: string)
    requires s != [] && s[0] != '.'
    ensures StripDotSlash(s) == s
  {
  }

  lemma StripOnce(t: string)
    ensures StripDotSlash("./" + t) == StripDotSlash(t)
  {
    assert ("./" + t)[2..] == t;
  }

  /**
   The three spellings that do not matter: a leading `./`, either kind of slash, and doubled slashes
   anywhere behind a start that is not itself stripped. With the canonical results they leave no choice.
   */
  lemma NormalizePathForgets(s: string, t: string)
    ensures NormalizePath("./" + t) == NormalizePath(t)
    ensures NormalizePath(s + "\\" + t) == NormalizePath(s + "/" + t)
    ensures (s != [] ==> s[0] != '.') ==> NormalizePath(s + "//" + t) == NormalizePath(s + "/" + t)
  {
    hide ForwardSlashes, StripDotSlash, CollapseSlashes;
    ForwardOfPieces(s, t);
    StripOnce(ForwardSlashes(t));
    if s != [] ==> s[0] != '.' {
      var s', t' := ForwardSlashes(s), ForwardSlashes(t);
      assert s' != [] ==> s'[0] != '.';
      StripLeadsNowhere(s' + "//" + t');
      StripLeadsNowhere(s' + "/" + t');
      CollapseInside(s', t');
    }
  }

  /** The two loops of the source: each runs to a fixpoint, and together they reach the reference. */
  method NormalizePathInPlace(path: string) returns (p: string)
    ensures p == NormalizePath(path)
  {
    p := ForwardSlashes(path);
    while "./" <= p
      invariant StripDotSlash(p) == StripDotSlash(ForwardSlashes(path))
      decreases |p|
    {
      p := p[2..];
    }
    while HasDoubleSlash(p)
      invariant CollapseSlashes(p) == NormalizePath(path)
      decreases |p|
    {
      HalvingShrinks(p);
      CollapseAfterHalving(p);
      p := HalveSlashes(p);
    }
    CollapseFixesNormal(p);
  }

  // ---- the payload ----

  datatype Category =
    | BufferOverflow | NullDeref | ResourceLeak | UnvalidatedInput | RaceCondition | ErrorHandling
    | HardcodedSecret | IntegerOverflow | Injection | LogicError | TypeMismatch | DeprecatedApi
    | Performance | Style | Documentation | OtherCategory

  /** The kebab-case name each category serialises to. */
  function Slug(c: Category): string {
    match c
    case BufferOverflow => "buffer-overflow"
    case NullDeref => "null-deref"
    case ResourceLeak => "resource-leak"
    case UnvalidatedInput => "unvalidated-input"
    case RaceCondition => "race-condition"
    case ErrorHandling => "error-handling"
    case HardcodedSecret => "hardcoded-secret"
    case IntegerOverflow => "integer-overflow"
    case Injection => "injection"
    case LogicError => "logic-error"
    case TypeMismatch => "type-mismatch"
    case DeprecatedApi => "deprecated-api"
    case Performance => "performance"
    case Style => "style"
    case Documentation => "documentation"
    case OtherCategory => "other"
  }

  /** Length and first letter of each slug: enough to tell them apart. */
  ghost function SlugShape(c: Category): (shape: (nat, char))
    ensures shape.0 == |Slug(c)| && shape.0 > 0 && shape.1 == Slug(c)[0]
  {
    (|Slug(c)|, Slug(c)[0])
  }

  lemma SlugsDistinct(c: Category, d: Category)
    requires Slug(c) == Slug(d)
    ensures c == d
  {
    assert SlugShape(c) == SlugShape(d);
  }

  predicate IsFlaw(c: Category) {
    || c.BufferOverflow? || c.NullDeref? || c.ResourceLeak? || c.UnvalidatedInput?
    || c.RaceCondition? || c.ErrorHandling? || c.HardcodedSecret? || c.IntegerOverflow?
  }

  /** Lower-case letters and hyphens only. */
  predicate IsKebab(s: string) { forall ch | ch in s :: 'a' <= ch <= 'z' || ch == '-' }

  lemma FlawSlugIsKebab(c: Category)
    requires IsFlaw(c)
    ensures IsKebab(Slug(c))
  {
  }

  lemma OtherSlugIsKebab(c: Category)
    requires !IsFlaw(c)
    ensures IsKebab(Slug(c))
  {
  }

  lemma SlugIsKebab(c: Category)
    ensures IsKebab(Slug(c)) && ':' !in Slug(c)
  {
    hide Slug;
    if IsFlaw(c) {
      FlawSlugIsKebab(c);
    } else {
      OtherSlugIsKebab(c);
    }
  }

  /** Kebab case: the words of the category's name, joined by hyphens. */
  lemma FlawSlugWords()
    ensures Slug(BufferOverflow) == "buffer" + "-" + "overflow" && Slug(NullDeref) == "null" + "-" + "deref"
    ensures Slug(ResourceLeak) == "resource" + "-" + "leak" && Slug(UnvalidatedInput) == "unvalidated" + "-" + "input"
    ensures Slug(RaceCondition) == "race" + "-" + "condition" && Slug(ErrorHandling) == "error" + "-" + "handling"
    ensures Slug(HardcodedSecret) == "hardcoded" + "-" + "secret"
    ensures Slug(IntegerOverflow) == "integer" + "-" + "overflow"
  {
  }

  lemma OtherSlugWords()
    ensures Slug(LogicError) == "logic" + "-" + "error" && Slug(TypeMismatch) == "type" + "-" + "mismatch"
    ensures Slug(DeprecatedApi) == "deprecated" + "-" + "api" && Slug(Injection) == "injection"
    ensures Slug(Performance) == "performance" && Slug(Style) == "style"
    ensures Slug(Documentation) == "documentation" && Slug(OtherCategory) == "other"
  {
  }

  function Payload(file: string, line: u32, category: Category): string {
    NormalizePath(file) + ":" + Decimal(line) + ":" + Slug(category)
  }

  /** The last separator splits a string in only one way. */
  lemma LastColonUnique(a: string, b: string, c: string, d: string)
    requires a + ":" + b == c + ":" + d
    requires ':' !in b && ':' !in d
    ensures a == c && b == d
  {
    var s := a + ":" + b;
    assert s[|a|] == ':' && s[|c|] == ':';
    assert forall i | |a| < i < |s| :: s[i] == b[i - |a| - 1];
    assert forall i | |c| < i < |s| :: s[i] == d[i - |c| - 1];
    assert |a| == |c|;
    assert a == s[..|a|] == c;
    assert b == s[|a| + 1..] == d;
  }

  /** Payloads agree exactly when normalised path, line and category do, although paths may hold colons. */
  lemma PayloadInjective(file: string, line: u32, category: Category,
                         file': string, line': u32, category': Category)
    ensures Payload(file, line, category) == Payload(file', line', category')
            <==> NormalizePath(file) == NormalizePath(file') && line == line' && category == category'
  {
    if Payload(file, line, category) == Payload(file', line', category') {
      SlugIsKebab(category);
      SlugIsKebab(category');
      LastColonUnique(NormalizePath(file) + ":" + Decimal(line), Slug(category),
                      NormalizePath(file') + ":" + Decimal(line'), Slug(category'));
      DecimalRoundTrip(line);
      DecimalRoundTrip(line');
      LastColonUnique(NormalizePath(file), Decimal(line), NormalizePath(file'), Decimal(line'));
      DecimalInjective(line, line');
      SlugsDistinct(category, category');
    }
  }

  lemma PayloadOfNormal(file: string, line: u32, category: Category)
    requires IsNormal(file)
    ensures Payload(file, line, category) == file + ":" + Decimal(line) + ":" + Slug(category)
  {
    NormalizePathCanonical(file);
  }

  /** The payloads behind the vectors the original pins: three spellings of one path agree. */
  lemma GoldenPayloads()
    ensures Payload("src/x.rs", 42, LogicError) == "src/x.rs:42:logic-error"
    ensures Payload("./src/x.rs", 42, LogicError) == Payload("src\\x.rs", 42, LogicError) == "src/x.rs:42:logic-error"
  {
    hide NormalizePath, Decimal, IsNormal;
    PrintedLines();
    PlainPaths();
    PayloadOfNormal("src/x.rs", 42, LogicError);
    NormalizePathForgets("src", "src/x.rs");
    NormalizePathForgets("src", "x.rs");
    assert "./" + "src/x.rs" == "./src/x.rs";
    assert "src" + "\\" + "x.rs" == "src\\x.rs" && "src" + "/" + "x.rs" == "src/x.rs";
  }

  lemma MoreGoldenPayloads()
    ensures Payload("src/x.rs", 42, Injection) == "src/x.rs:42:injection"
    ensures Payload("src/main.rs", 1, OtherCategory) == "src/main.rs:1:other"
  {
    hide NormalizePath, Decimal, IsNormal;
    PrintedLines();
    PlainPaths();
    PayloadOfNormal("src/x.rs", 42, Injection);
    PayloadOfNormal("src/main.rs", 1, OtherCategory);
  }

  lemma PlainPaths()
    ensures IsNormal("src/x.rs") && IsNormal("src/main.rs")
  {
    assert "src/x.rs"[0] == 's' && "src/main.rs"[0] == 's';
  }

  lemma PrintedLines()
    ensures Decimal(42) == "42" && Decimal(1) == "1"
  {
  }

  // ---- the identifier ----

  const FINDING_ID_HEX_LEN := 16

  ghost predicate Is32Bytes(digest: string -> seq<Byte>) {
    forall payload :: |digest(payload)| == 32
  }

  type Digest = digest: string -> seq<Byte> | Is32Bytes(digest)
    witness (payload: string) => seq(32, i => 0 as Byte)

  function HexDigit(n: nat): char
    requires n < 16
  {
    if n < 10 then ('0' as int + n) as char else ('a' as int + n - 10) as char
  }

  function Hex(bytes: seq<Byte>): (hex: string)
    ensures |hex| == 2 * |bytes|
  {
    if bytes == [] then []
    else Hex(bytes[..|bytes| - 1]) + [HexDigit(bytes[|bytes| - 1] / 16), HexDigit(bytes[|bytes| - 1] % 16)]
  }

  /** The value of a lower-case hexadecimal digit, and nothing for any other character. */
  function HexValue(c: char): Option<nat> {
    if '0' <= c <= '9' then Some(c as int - '0' as int)
    else if 'a' <= c <= 'f' then Some(10 + c as int - 'a' as int)
    else None
  }

  /** `{:02x}` for every byte: two lower-case digits each, the high half first. */
  lemma {:induction false} HexMeaning(bytes: seq<Byte>, i: nat)
    requires i < |bytes|
    ensures HexValue(Hex(bytes)[2 * i]) == Some(bytes[i] / 16)
    ensures HexValue(Hex(bytes)[2 * i + 1]) == Some(bytes[i] % 16)
  {
    var front := bytes[..|bytes| - 1];
    if i < |front| {
      HexMeaning(front, i);
      assert Hex(bytes)[2 * i] == Hex(front)[2 * i] && Hex(bytes)[2 * i + 1] == Hex(front)[2 * i + 1];
    }
  }

  lemma HexInjective(a: seq<Byte>, b: seq<Byte>)
    requires Hex(a) == Hex(b)
    ensures a == b
  {
    hide Hex, HexValue;
    assert |a| == |b|;
    forall i | 0 <= i < |a| ensures a[i] == b[i] {
      HexMeaning(a, i);
      HexMeaning(b, i);
    }
  }

  function FindingIdOf(digest: Digest, file: string, line: u32, category: Category): (id: string)
    ensures |id| == FINDING_ID_HEX_LEN
  {
    Hex(digest(Payload(file, line, category))[..FINDING_ID_HEX_LEN / 2])
  }

  method GenerateFindingId(digest: Digest, file: string, line: u32, category: Category) returns (hex: string)
    ensures hex == FindingIdOf(digest, file, line, category)
  {
    var path := NormalizePathInPlace(file);
    var bytes := digest(path + ":" + Decimal(line) + ":" + Slug(category));
    hex := "";
    for k := 0 to FINDING_ID_HEX_LEN / 2
      invariant hex == Hex(bytes[..k])
    {
      assert bytes[..k + 1][..k] == bytes[..k];
      hex := hex + [HexDigit(bytes[k] / 16), HexDigit(bytes[k] % 16)];
    }
  }

  /**
   Two locations share an identifier exactly when the first eight digest bytes of their payloads
   agree; with a digest that does not collide on them, exactly when the locations agree.
   */
  lemma IdentifierMeaning(digest: Digest, file: string, line: u32, category: Category,
                          file': string, line': u32, category': Category)
    ensures var same := FindingIdOf(digest, file, line, category) == FindingIdOf(digest, file', line', category');
            var payload := Payload(file, line, category);
            var payload' := Payload(file', line', category');
            && (same <==> digest(payload)[..8] == digest(payload')[..8])
            && (payload == payload' ==> same)
            && ((digest(payload)[..8] == digest(payload')[..8] ==> payload == payload') ==>
                  (same <==> NormalizePath(file) == NormalizePath(file') && line == line' && category == category'))
  {
    PayloadInjective(file, line, category, file', line', category');
    if FindingIdOf(digest, file, line, category) == FindingIdOf(digest, file', line', category') {
      HexInjective(digest(Payload(file, line, category))[..8], digest(Payload(file', line', category'))[..8]);
    }
  }
}
