/** What a package policy accepts, as a grammar: versions, integrities, platforms and texts. */
module PolicyGrammar {
  import opened Bytes
  import opened Numerals
  import opened Options
  import opened PackagePolicy
  import opened Splitting
  import ReleaseName

  // ----- Characters -----

  predicate LetterOrDigit(c: char) {
    c in "ABCDEFGHIJKLMNOPQRSTUVWXYZ" || c in "abcdefghijklmnopqrstuvwxyz" || c in "0123456789"
  }

  lemma UpperIs(c: char)
    ensures 'A' <= c <= 'Z' <==> c in "ABCDEFGHIJKLMNOPQRSTUVWXYZ"
  {
  }

  lemma LowerIs(c: char)
    ensures 'a' <= c <= 'z' <==> c in "abcdefghijklmnopqrstuvwxyz"
  {
  }

  lemma DigitIs(c: char)
    ensures Digit(c) <==> c in "0123456789"
  {
  }

  lemma AlphanumericIs(c: char)
    ensures Alphanumeric(c) <==> LetterOrDigit(c)
  {
    hide Digit;
    UpperIs(c);
    LowerIs(c);
    DigitIs(c);
  }

  // ----- Versions -----

  function Pow10(k: nat): (r: nat)
    ensures r > 0
  {
    if k == 0 then 1 else 10 * Pow10(k - 1)
  }

  lemma {:induction false} DecLength(n: nat, k: nat)
    requires k > 0
    ensures |Dec(n)| <= k <==> n < Pow10(k)
  {
    if k == 1 {
      assert Pow10(1) == 10;
      if n >= 10 {
        assert |Dec(n / 10)| >= 1;
      }
    } else {
      assert Pow10(k) == 10 * Pow10(k - 1);
      if n >= 10 {
        DecLength(n / 10, k - 1);
      } else {
        assert Pow10(k - 1) >= 1;
      }
    }
  }

  lemma TenDigits()
    ensures Pow10(10) == 10000000000
  {
    assert Pow10(5) == 100000;
  }

  /** A numeric component is a printed number of at most ten digits. */
  lemma NumericIs(s: string)
    ensures ValidNumeric(s) <==> exists n: nat :: n < 10000000000 && s == Dec(n)
  {
    TenDigits();
    if ValidNumeric(s) {
      NumberIs(s);
      var k := NumeralIs(s);
      var n := ReleaseName.DecimalValue(s);
      assert k == 0;
      assert Zeros(0) + Dec(n) == Dec(n);
      DecLength(n, 10);
    }
    if n: nat :| n < 10000000000 && s == Dec(n) {
      DecLength(n, 10);
      DecIsNumber(n);
      NumberIs(s);
      DecSmall(n);
    }
  }

  lemma DecSmall(n: nat)
    ensures n == 0 ==> Dec(n) == "0"
  {
  }

  lemma NumberIs(s: string)
    ensures ReleaseName.Number(s) <==> s != "" && forall i :: 0 <= i < |s| ==> Digit(s[i])
  {
  }

  /** Letters, digits, dots and dashes, 128 of them at most. */
  predicate Prerelease(s: string) {
    && s != "" && |s| <= 128
    && forall i :: 0 <= i < |s| ==> LetterOrDigit(s[i]) || s[i] in ".-"
  }

  function Core(a: nat, b: nat, c: nat): string {
    Dec(a) + "." + Dec(b) + "." + Dec(c)
  }

  ghost predicate Versioned(s: string, a: nat, b: nat, c: nat) {
    && a < 10000000000 && b < 10000000000 && c < 10000000000
    && (s == Core(a, b, c) || exists suffix :: Prerelease(suffix) && s == Core(a, b, c) + "-" + suffix)
  }

  lemma PrereleaseIs(s: string)
    ensures Prerelease(s) <==>
      s != "" && |s| <= 128
      && forall k :: 0 <= k < |s| ==> Alphanumeric(s[k]) || s[k] == '.' || s[k] == '-'
  {
    forall c: char
      ensures Alphanumeric(c) <==> LetterOrDigit(c)
    {
      AlphanumericIs(c);
    }
    hide Alphanumeric, LetterOrDigit;
  }

  /** The first dash is where the numbers end. */
  lemma {:induction false} DashIs(core: string, rest: string)
    requires '-' !in core && (rest == "" || rest[0] == '-')
    ensures Dash(core + rest) == |core|
  {
    var s := core + rest;
    if core != "" {
      assert s[1..] == core[1..] + rest;
      DashIs(core[1..], rest);
    }
  }

  lemma {:induction false} DashFirst(s: string)
    ensures '-' !in s[..Dash(s)]
  {
    if s != "" && s[0] != '-' {
      DashFirst(s[1..]);
      assert s[..Dash(s)] == [s[0]] + s[1..][..Dash(s[1..])];
    }
  }

  lemma CoreParts(a: nat, b: nat, c: nat)
    ensures Split(Core(a, b, c), '.') == [Dec(a), Dec(b), Dec(c)] && '-' !in Core(a, b, c)
  {
    DecPlain(a);
    DecPlain(b);
    DecPlain(c);
    hide Dec;
    assert Core(a, b, c) == Dec(a) + ['.'] + (Dec(b) + ['.'] + Dec(c));
    SplitFirst(Dec(a), '.', Dec(b) + ['.'] + Dec(c));
    SplitFirst(Dec(b), '.', Dec(c));
    SplitOne(Dec(c), '.');
  }

  lemma DecPlain(n: nat)
    ensures '.' !in Dec(n) && '-' !in Dec(n)
  {
    DecIsNumber(n);
    assert forall i :: 0 <= i < |Dec(n)| ==> ReleaseName.IsDigit(Dec(n)[i]);
  }

  /** A version is accepted exactly when it is three numbers of at most ten digits, without leading zeros, and
      possibly a dash and a suffix. */
  lemma VersionExactly(s: string)
    ensures ValidVersion(s) <==> exists a: nat, b: nat, c: nat :: Versioned(s, a, b, c)
  {
    hide ValidNumeric, Prerelease, Dec;
    if ValidVersion(s) {
      VersionParsed(s);
    }
    if a: nat, b: nat, c: nat :| Versioned(s, a, b, c) {
      VersionPrintedOk(s, a, b, c);
    }
  }

  lemma VersionParsed(s: string)
    requires ValidVersion(s)
    ensures exists a: nat, b: nat, c: nat :: Versioned(s, a, b, c)
  {
    hide Alphanumeric, Prerelease, ValidNumeric, Dec, Split;
    var i := Dash(s);
    var core := s[..i];
    var parts := Split(core, '.');
    NumericIs(parts[0]);
    NumericIs(parts[1]);
    NumericIs(parts[2]);
    var a: nat :| a < 10000000000 && parts[0] == Dec(a);
    var b: nat :| b < 10000000000 && parts[1] == Dec(b);
    var c: nat :| c < 10000000000 && parts[2] == Dec(c);
    JoinSplit(core, '.');
    assert parts == [Dec(a), Dec(b), Dec(c)];
    JoinThree(a, b, c);
    assert core == Core(a, b, c);
    if i < |s| {
      var suffix := s[i + 1..];
      PrereleaseIs(suffix);
      assert s == core + "-" + suffix;
    } else {
      assert s == core;
    }
    assert Versioned(s, a, b, c);
  }

  lemma JoinThree(a: nat, b: nat, c: nat)
    ensures JoinWith([Dec(a), Dec(b), Dec(c)], '.') == Core(a, b, c)
  {
    hide Dec;
    assert [Dec(a), Dec(b), Dec(c)][1..] == [Dec(b), Dec(c)] && [Dec(b), Dec(c)][1..] == [Dec(c)];
    assert JoinWith([Dec(c)], '.') == Dec(c);
    assert JoinWith([Dec(b), Dec(c)], '.') == Dec(b) + ['.'] + Dec(c);
    assert Dec(a) + ['.'] + (Dec(b) + ['.'] + Dec(c)) == Core(a, b, c);
  }

  lemma VersionPrintedOk(s: string, a: nat, b: nat, c: nat)
    requires Versioned(s, a, b, c)
    ensures ValidVersion(s)
  {
    hide Alphanumeric, Prerelease, ValidNumeric, Dec, Core, Split, Dash;
    CoreParts(a, b, c);
    NumericIs(Dec(a));
    NumericIs(Dec(b));
    NumericIs(Dec(c));
    var core := Core(a, b, c);
    if s == core {
      DashIs(core, "");
      assert core + "" == core && s[..|core|] == core;
    } else {
      var suffix :| Prerelease(suffix) && s == core + "-" + suffix;
      DashIs(core, "-" + suffix);
      assert s == core + ("-" + suffix);
      assert s[..|core|] == core && s[|core| + 1..] == suffix;
      PrereleaseIs(suffix);
    }
  }

  // ----- Packages and platforms -----

  /** Which packages a platform accepts. */
  lemma AcceptsExactly(npm: string, provider: string, packageName: string, version: string)
    ensures Accepts(npm, provider, packageName, version) <==>
      || (provider == "claude" && packageName == "@anthropic-ai/claude-code-" + npm)
      || (provider == "codex" && packageName == "@openai/codex"
          && exists head :: head != "" && version == head + "-" + npm)
  {
    if provider == "codex" {
      if Accepts(npm, provider, packageName, version) {
        var core := version[..|version| - |npm|];
        var head := core[..|core| - 1];
        assert core == head + "-" && version == core + npm;
        assert head != "" && version == head + "-" + npm;
      }
      if packageName == "@openai/codex" && exists head :: head != "" && version == head + "-" + npm {
        var head :| head != "" && version == head + "-" + npm;
        assert version[|version| - |npm|..] == npm && version[..|version| - |npm|] == head + "-";
      }
    }
  }

  lemma PlatformsAre(npm: string)
    ensures npm in PLATFORMS <==>
      npm in {"darwin-arm64", "darwin-x64", "linux-arm64", "linux-x64", "win32-arm64", "win32-x64"}
  {
    assert PLATFORMS[0] == "darwin-arm64" && PLATFORMS[1] == "darwin-x64" && PLATFORMS[2] == "linux-arm64";
    assert PLATFORMS[3] == "linux-x64" && PLATFORMS[4] == "win32-arm64" && PLATFORMS[5] == "win32-x64";
  }

  // ----- Integrities -----

  /** The base64 digits, section 4 of RFC 4648. */
  function Digit64(v: nat): char
    requires v < 64
  {
    if v < 26 then ('A' as int + v) as char
    else if v < 52 then ('a' as int + v - 26) as char
    else if v < 62 then ('0' as int + v - 52) as char
    else if v == 62 then '+' else '/'
  }

  function Value64(c: char): (v: nat)
    requires Base64(c)
    ensures v < 64 && Digit64(v) == c
  {
    var n := c as int;
    if 'A' <= c <= 'Z' then n - 'A' as int
    else if 'a' <= c <= 'z' then n - 'a' as int + 26
    else if '0' <= c <= '9' then n - '0' as int + 52
    else if c == '+' then 62 else 63
  }

  /** Three bytes as four digits. */
  function Group(a: nat, b: nat, c: nat): string
    requires a < 256 && b < 256 && c < 256
  {
    [Digit64(a / 4), Digit64(a % 4 * 16 + b / 16), Digit64(b % 16 * 4 + c / 64), Digit64(c % 64)]
  }

  /** Base64 with padding. */
  function Encode64(d: Bytes): string {
    if d == [] then ""
    else if |d| == 1 then [Digit64(d[0] as nat / 4), Digit64(d[0] as nat % 4 * 16), '=', '=']
    else if |d| == 2 then
      Group(d[0] as nat, d[1] as nat, 0)[..3] + "="
    else Group(d[0] as nat, d[1] as nat, d[2] as nat) + Encode64(d[3..])
  }

  lemma DigitIs64(v: nat)
    requires v < 64
    ensures Base64(Digit64(v))
    ensures v % 16 == 0 ==> Digit64(v) in {'A', 'Q', 'g', 'w'}
  {
  }

  lemma LastValue(c: char)
    requires c in {'A', 'Q', 'g', 'w'}
    ensures Base64(c) && Value64(c) % 16 == 0
  {
  }

  /** What the encoding of whole groups and one more byte looks like. */
  lemma {:induction false} EncodedShape(d: Bytes, n: nat)
    requires |d| == 3 * n + 1
    ensures var t := Encode64(d);
            && |t| == 4 * n + 4 && t[4 * n + 2..] == "==" && t[4 * n + 1] in {'A', 'Q', 'g', 'w'}
            && forall i :: 0 <= i < 4 * n + 2 ==> Base64(t[i])
    decreases n
  {
    if n == 0 {
      var v := d[0] as nat;
      DigitIs64(v / 4);
      DigitIs64(v % 4 * 16);
      assert Encode64(d)[2..] == "==";
    } else {
      EncodedShape(d[3..], n - 1);
      GroupShape(d[0] as nat, d[1] as nat, d[2] as nat);
      hide Group, Base64;
      var head, rest := Group(d[0] as nat, d[1] as nat, d[2] as nat), Encode64(d[3..]);
      assert Encode64(d) == head + rest;
      assert (head + rest)[4 * n + 2..] == rest[4 * (n - 1) + 2..];
    }
  }

  lemma GroupShape(a: nat, b: nat, c: nat)
    requires a < 256 && b < 256 && c < 256
    ensures |Group(a, b, c)| == 4 && forall i :: 0 <= i < 4 ==> Base64(Group(a, b, c)[i])
  {
    DigitIs64(a / 4);
    DigitIs64(a % 4 * 16 + b / 16);
    DigitIs64(b % 16 * 4 + c / 64);
    DigitIs64(c % 64);
  }

  /** Four digits are those of three bytes. */
  lemma Ungroup(t: string) returns (a: byte, b: byte, c: byte)
    requires |t| == 4 && forall i :: 0 <= i < 4 ==> Base64(t[i])
    ensures Group(a as nat, b as nat, c as nat) == t
  {
    var p, q, r, s := Value64(t[0]), Value64(t[1]), Value64(t[2]), Value64(t[3]);
    a, b, c := (p * 4 + q / 16) as byte, (q % 16 * 16 + r / 4) as byte, (r % 4 * 64 + s) as byte;
    Regrouped(p, q, r, s);
    assert t == [t[0], t[1], t[2], t[3]];
  }

  lemma Regrouped(p: nat, q: nat, r: nat, s: nat)
    requires p < 64 && q < 64 && r < 64 && s < 64
    ensures var a, b, c := p * 4 + q / 16, q % 16 * 16 + r / 4, r % 4 * 64 + s;
            && a / 4 == p && a % 4 * 16 + b / 16 == q && b % 16 * 4 + c / 64 == r && c % 64 == s
  {
  }

  lemma {:induction false} Decoded(t: string, n: nat) returns (d: Bytes)
    requires |t| == 4 * n + 4 && t[4 * n + 2..] == "==" && t[4 * n + 1] in {'A', 'Q', 'g', 'w'}
    requires forall i :: 0 <= i < 4 * n + 2 ==> Base64(t[i])
    ensures |d| == 3 * n + 1 && Encode64(d) == t
    decreases n
  {
    if n == 0 {
      var p, q := Value64(t[0]), Value64(t[1]);
      LastValue(t[1]);
      var v := p * 4 + q / 16;
      d := [v as byte];
      assert v / 4 == p && v % 4 * 16 == q;
      assert t == [t[0], t[1]] + t[2..];
    } else {
      var a, b, c := Ungroup(t[..4]);
      var rest := t[4..];
      assert rest[4 * (n - 1) + 2..] == t[4 * n + 2..] && rest[4 * (n - 1) + 1] == t[4 * n + 1];
      var more := Decoded(rest, n - 1);
      d := [a, b, c] + more;
      assert d[3..] == more;
      assert t == t[..4] + rest;
    }
  }

  /** An integrity is accepted exactly when it is "sha512-" and the base64 of some 64 bytes. */
  lemma IntegrityExactly(s: string)
    ensures ValidSri(s) <==> exists d: Bytes :: |d| == 64 && s == "sha512-" + Encode64(d)
  {
    hide Base64, Encode64;
    if ValidSri(s) {
      var t := s[7..];
      assert t[86..] == s[93..] && t[85] == s[92];
      assert forall i :: 0 <= i < 86 ==> t[i] == s[i + 7];
      var d := Decoded(t, 21);
      assert s == s[..7] + t;
    }
    if d: Bytes :| |d| == 64 && s == "sha512-" + Encode64(d) {
      EncodedShape(d, 21);
      var t := Encode64(d);
      assert |"sha512-"| == 7 && s[..7] == "sha512-" && s[7..] == t;
      assert s[93..] == t[86..] && s[92] == t[85];
      assert forall i :: 7 <= i < 93 ==> s[i] == t[i - 7];
    }
  }

  // ----- Whole policies -----

  predicate Plainly(s: string) {
    s != "" && |s| <= 128 && forall i :: 0 <= i < |s| ==> LetterOrDigit(s[i]) || s[i] in "._-"
  }

  predicate HexDigits(s: string, length: nat) {
    |s| == length && forall i :: 0 <= i < |s| ==> s[i] in "0123456789abcdef"
  }

  lemma TextIs(s: string)
    ensures ValidText(s) <==> Plainly(s)
  {
    forall c: char
      ensures Alphanumeric(c) <==> LetterOrDigit(c)
    {
      AlphanumericIs(c);
    }
    hide Alphanumeric, LetterOrDigit;
  }

  lemma HexDigitIs(c: char)
    ensures (Digit(c) || 'a' <= c <= 'f') <==> c in "0123456789abcdef"
  {
  }

  lemma HexDigitsAre(s: string, length: nat)
    ensures HexOf(s, length) <==> HexDigits(s, length)
  {
    forall c: char
      ensures (Digit(c) || 'a' <= c <= 'f') <==> c in "0123456789abcdef"
    {
      HexDigitIs(c);
    }
    hide Digit;
  }

  ghost predicate PackageOf(provider: string, packageName: string, version: string, npm: string) {
    && npm in {"darwin-arm64", "darwin-x64", "linux-arm64", "linux-x64", "win32-arm64", "win32-x64"}
    && (|| (provider == "claude" && packageName == "@anthropic-ai/claude-code-" + npm)
        || (provider == "codex" && packageName == "@openai/codex"
            && exists head :: head != "" && version == head + "-" + npm))
  }

  /** A proper entry: some platform's package, a proper version and integrity, a Node digest and terms. */
  ghost predicate ProperEntry(e: Entry) {
    && (exists npm :: PackageOf(e.provider, e.packageName, e.version, npm))
    && (exists a: nat, b: nat, c: nat :: Versioned(e.version, a, b, c))
    && (exists d: Bytes :: |d| == 64 && e.integrity == "sha512-" + Encode64(d))
    && HexDigits(e.node, 64) && Plainly(e.termsVersion)
  }

  lemma KnownIs(provider: string, packageName: string, version: string)
    ensures KnownPackage(provider, packageName, version) <==>
      exists npm :: PackageOf(provider, packageName, version, npm)
  {
    hide Accepts;
    forall npm
      ensures npm in PLATFORMS && Accepts(npm, provider, packageName, version) <==>
                PackageOf(provider, packageName, version, npm)
    {
      PlatformsAre(npm);
      AcceptsExactly(npm, provider, packageName, version);
    }
    hide PackageOf;
    if npm :| PackageOf(provider, packageName, version, npm) {
      assert npm in PLATFORMS;
    }
    if KnownPackage(provider, packageName, version) {
      var i :| 0 <= i < |PLATFORMS| && Accepts(PLATFORMS[i], provider, packageName, version);
      assert PLATFORMS[i] in PLATFORMS;
    }
  }

  lemma ProperEntryIs(e: Entry)
    ensures ValidEntry(e) <==> ProperEntry(e)
  {
    hide KnownPackage, PackageOf, ValidVersion, Versioned, ValidSri, Encode64, HexOf, HexDigits, ValidText, Plainly;
    KnownIs(e.provider, e.packageName, e.version);
    VersionExactly(e.version);
    IntegrityExactly(e.integrity);
    HexDigitsAre(e.node, 64);
    TextIs(e.termsVersion);
  }

  /** A policy is accepted exactly when it has a proper key name and signature, is of version 1, has not expired, and
      has one to sixteen proper entries, no two of them for the same provider and Node. */
  lemma PolicyExactly(p: Policy, now: nat)
    ensures Validated(p, now) <==>
      && Plainly(p.keyId) && HexDigits(p.signature, 128) && p.policyVersion == 1 && now <= p.expires
      && 1 <= |p.entries| <= 16
      && (forall i :: 0 <= i < |p.entries| ==> ProperEntry(p.entries[i]))
      && (forall i, j :: 0 <= i < j < |p.entries| ==>
            p.entries[i].provider != p.entries[j].provider || p.entries[i].node != p.entries[j].node)
  {
    hide ValidEntry, ProperEntry, HexOf, HexDigits, ValidText, Plainly;
    TextIs(p.keyId);
    HexDigitsAre(p.signature, 128);
    forall e
      ensures ValidEntry(e) <==> ProperEntry(e)
    {
      ProperEntryIs(e);
    }
  }
}
