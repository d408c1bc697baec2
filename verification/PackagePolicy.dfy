/** Signed package policies, and which platform's package an entry names. */
module PackagePolicy {
  import opened Options
  import opened Splitting

  const CODEX_PACKAGE := "@openai/codex"
  const CLAUDE_PACKAGE_PREFIX := "@anthropic-ai/claude-code-"

  /** The npm name of a platform, in the order of the platform table. */
  const PLATFORMS := ["darwin-arm64", "darwin-x64", "linux-arm64", "linux-x64", "win32-arm64", "win32-x64"]

  const POLICY_VERSION: nat := 1
  const MAX_ENTRIES: nat := 16
  const MAX_TEXT_BYTES: nat := 128

  datatype Entry = Entry(
    provider: string,
    packageName: string,
    version: string,
    integrity: string,
    node: string,
    termsVersion: string,
    revoked: bool)

  datatype Policy = Policy(keyId: string, signature: string, policyVersion: nat, expires: nat, entries: seq<Entry>)

  datatype Outcome<T> = Ok(value: T) | InvalidShape | Expired | Unavailable

  // ----- Platforms -----

  predicate EndsWith(s: string, t: string) {
    |t| <= |s| && s[|s| - |t|..] == t
  }

  /** A claude package is named after its platform; a codex version ends in it, after a dash and something more. */
  predicate Accepts(npm: string, provider: string, packageName: string, version: string) {
    if provider == "claude" then packageName == CLAUDE_PACKAGE_PREFIX + npm
    else if provider == "codex" then
      && packageName == CODEX_PACKAGE && EndsWith(version, npm)
      && var core := version[..|version| - |npm|]; EndsWith(core, "-") && |core| > 1
    else false
  }

  predicate KnownPackage(provider: string, packageName: string, version: string) {
    exists i :: 0 <= i < |PLATFORMS| && Accepts(PLATFORMS[i], provider, packageName, version)
  }

  // ----- Shapes -----

  predicate Digit(c: char) {
    '0' <= c <= '9'
  }

  predicate Alphanumeric(c: char) {
    Digit(c) || 'a' <= c <= 'z' || 'A' <= c <= 'Z'
  }

  predicate HexOf(s: string, length: nat) {
    |s| == length && forall i :: 0 <= i < |s| ==> Digit(s[i]) || 'a' <= s[i] <= 'f'
  }

  predicate ValidText(s: string) {
    s != "" && |s| <= MAX_TEXT_BYTES
    && forall i :: 0 <= i < |s| ==> Alphanumeric(s[i]) || s[i] == '.' || s[i] == '_' || s[i] == '-'
  }

  predicate ValidNumeric(s: string) {
    s != "" && |s| <= 10 && (forall i :: 0 <= i < |s| ==> Digit(s[i])) && (s == "0" || s[0] != '0')
  }

  function Dash(s: string): (i: nat)
    ensures i <= |s| && (i < |s| ==> s[i] == '-')
  {
    if s == "" || s[0] == '-' then 0 else 1 + Dash(s[1..])
  }

  predicate ValidVersion(s: string) {
    var i := Dash(s);
    var parts := Split(s[..i], '.');
    && |parts| == 3 && (forall k :: 0 <= k < 3 ==> ValidNumeric(parts[k]))
    && (i < |s| ==> var suffix := s[i + 1..];
          suffix != "" && |suffix| <= MAX_TEXT_BYTES
          && forall k :: 0 <= k < |suffix| ==> Alphanumeric(suffix[k]) || suffix[k] == '.' || suffix[k] == '-')
  }

  predicate Base64(c: char) {
    Alphanumeric(c) || c == '+' || c == '/'
  }

  /** sha512- and the canonical base64 of 64 bytes: 86 digits, the last of them with no stray bits, and two pads. */
  predicate ValidSri(s: string) {
    && |s| == 7 + 88 && s[..7] == "sha512-" && s[93..] == "=="
    && (forall i :: 7 <= i < 93 ==> Base64(s[i])) && s[92] in {'A', 'Q', 'g', 'w'}
  }

  predicate ValidEntry(e: Entry) {
    KnownPackage(e.provider, e.packageName, e.version) && ValidVersion(e.version) && ValidSri(e.integrity)
    && HexOf(e.node, 64) && ValidText(e.termsVersion)
  }

  // ----- Validation -----

  /** Entries are valid, and no two of them are for the same provider and Node. */
  predicate ValidEntries(entries: seq<Entry>) {
    && (forall i :: 0 <= i < |entries| ==> ValidEntry(entries[i]))
    && (forall i, j :: 0 <= i < j < |entries| ==>
          entries[i].provider != entries[j].provider || entries[i].node != entries[j].node)
  }

  predicate Validated(p: Policy, now: nat) {
    && ValidText(p.keyId) && HexOf(p.signature, 128) && p.policyVersion == POLICY_VERSION && p.expires >= now
    && 0 < |p.entries| <= MAX_ENTRIES && ValidEntries(p.entries)
  }

  method Validate(p: Policy, now: nat) returns (r: Outcome<()>)
    ensures r == Ok(()) <==> Validated(p, now)
    ensures r == Expired <==> ValidText(p.keyId) && HexOf(p.signature, 128) && p.expires < now
    ensures r != Unavailable
  {
    hide ValidText, HexOf, ValidEntry;
    if !ValidText(p.keyId) || !HexOf(p.signature, 128) {
      return InvalidShape;
    }
    if p.policyVersion != POLICY_VERSION || p.expires < now {
      return if p.expires < now then Expired else InvalidShape;
    }
    if |p.entries| == 0 || |p.entries| > MAX_ENTRIES {
      return InvalidShape;
    }
    var identities: set<(string, string)> := {};
    var i := 0;
    while i < |p.entries|
      invariant 0 <= i <= |p.entries|
      invariant ValidEntries(p.entries[..i])
      invariant identities == set j | 0 <= j < i :: (p.entries[j].provider, p.entries[j].node)
    {
      var e := p.entries[i];
      if !ValidEntry(e) || (e.provider, e.node) in identities {
        return InvalidShape;
      }
      identities := identities + {(e.provider, e.node)};
      i := i + 1;
    }
    assert p.entries[..i] == p.entries;
    return Ok(());
  }

  // ----- Selection -----

  predicate Chosen(platform: Option<string>, e: Entry, node: string, provider: string) {
    && e.provider == provider && e.node == node && !e.revoked
    && platform.Some? && Accepts(platform.value, provider, e.packageName, e.version)
  }

  /** The first entry that fits, on a host that may be no known platform. */
  method ApprovedPackage(platform: Option<string>, p: Policy, node: string, provider: string, now: nat)
    returns (r: Outcome<Entry>)
    ensures !r.InvalidShape?
    ensures r.Expired? <==> p.expires < now
    ensures r.Ok? ==> r.value in p.entries && r.value.provider == provider && r.value.node == node && !r.value.revoked
    ensures r.Ok? ==> platform.Some? && Accepts(platform.value, provider, r.value.packageName, r.value.version)
    ensures r.Unavailable? <==> p.expires >= now && forall e :: e in p.entries ==>
              !(e.provider == provider && e.node == node && !e.revoked && platform.Some?
                && Accepts(platform.value, provider, e.packageName, e.version))
    ensures r == Approved(platform, p, node, provider, now)
  {
    hide Accepts;
    if p.expires < now {
      return Expired;
    }
    var i := 0;
    while i < |p.entries|
      invariant 0 <= i <= |p.entries|
      invariant forall j :: 0 <= j < i ==> !Chosen(platform, p.entries[j], node, provider)
      invariant First(platform, p.entries, node, provider) == First(platform, p.entries[i..], node, provider)
    {
      assert p.entries[i..][0] == p.entries[i] && p.entries[i..][1..] == p.entries[i + 1..];
      if Chosen(platform, p.entries[i], node, provider) {
        return Ok(p.entries[i]);
      }
      i := i + 1;
    }
    return Unavailable;
  }

  function First(platform: Option<string>, entries: seq<Entry>, node: string, provider: string): Outcome<Entry> {
    if entries == [] then Unavailable
    else if Chosen(platform, entries[0], node, provider) then Ok(entries[0])
    else First(platform, entries[1..], node, provider)
  }

  function Approved(platform: Option<string>, p: Policy, node: string, provider: string, now: nat): Outcome<Entry> {
    if p.expires < now then Expired else First(platform, p.entries, node, provider)
  }

  lemma {:induction false} FirstIs(platform: Option<string>, entries: seq<Entry>, node: string, provider: string,
                                   e: Entry)
    requires ValidEntries(entries)
    ensures First(platform, entries, node, provider) == Ok(e) <==> e in entries && Chosen(platform, e, node, provider)
    ensures First(platform, entries, node, provider).Ok? || First(platform, entries, node, provider) == Unavailable
  {
    hide Accepts, ValidEntry;
    if entries != [] {
      assert entries == [entries[0]] + entries[1..];
      assert forall j :: 0 <= j < |entries[1..]| ==> entries[1..][j] == entries[j + 1];
      FirstIs(platform, entries[1..], node, provider, e);
    }
  }

  /** The order of a validated policy's entries does not matter. */
  lemma OrderIrrelevant(platform: Option<string>, p: Policy, q: Policy, node: string, provider: string, now: nat)
    requires ValidEntries(p.entries) && ValidEntries(q.entries) && p.expires == q.expires
    requires forall e :: e in p.entries <==> e in q.entries
    ensures Approved(platform, p, node, provider, now) == Approved(platform, q, node, provider, now)
  {
    hide First, Chosen, ValidEntries;
    var a, b := First(platform, p.entries, node, provider), First(platform, q.entries, node, provider);
    forall e
      ensures a == Ok(e) <==> b == Ok(e)
    {
      FirstIs(platform, p.entries, node, provider, e);
      FirstIs(platform, q.entries, node, provider, e);
    }
    var any := Entry("", "", "", "", "", "", true);
    FirstIs(platform, p.entries, node, provider, any);
    FirstIs(platform, q.entries, node, provider, any);
    assert a.Ok? ==> a == Ok(a.value);
    assert b.Ok? ==> b == Ok(b.value);
  }

  /** A revoked entry blocks every approval for its provider and Node. */
  lemma RevokedBlocks(platform: Option<string>, p: Policy, node: string, provider: string, now: nat, e: Entry)
    requires ValidEntries(p.entries) && e in p.entries && e.revoked && e.provider == provider && e.node == node
    ensures !Approved(platform, p, node, provider, now).Ok?
  {
    hide First, Accepts, ValidEntry;
    var a := First(platform, p.entries, node, provider);
    if a.Ok? {
      FirstIs(platform, p.entries, node, provider, a.value);
    }
  }

  // ----- One platform each -----

  /** The character that tells the architectures apart, and the one that tells the systems apart. */
  lemma Marks(i: nat, version: string)
    requires i < |PLATFORMS| && EndsWith(version, "-" + PLATFORMS[i])
    ensures |version| >= 10
    ensures version[|version| - 3] == (if i % 2 == 0 then 'm' else 'x')
    ensures var c := version[|version| - (if i % 2 == 0 then 7 else 5)];
            if i < 2 then c == 'n' else if i < 4 then c == 'x' else c == '2'
  {
    var t := "-" + PLATFORMS[i];
    assert forall k :: 0 <= k < |t| ==> t[k] == version[|version| - |t| + k];
    var a, b := |t| - 3, |t| - (if i % 2 == 0 then 7 else 5);
    assert version[|version| - 3] == t[a];
    assert version[|version| - (if i % 2 == 0 then 7 else 5)] == t[b];
  }

  lemma CodexSuffix(npm: string, version: string)
    requires Accepts(npm, "codex", CODEX_PACKAGE, version)
    ensures EndsWith(version, "-" + npm)
  {
    var core := version[..|version| - |npm|];
    assert core[|core| - 1..] == "-";
    assert version == core + npm;
    assert version[|version| - |npm| - 1..] == core[|core| - 1..] + npm;
  }

  lemma SuffixIsOne(i: nat, j: nat, version: string)
    requires i < |PLATFORMS| && j < |PLATFORMS|
    requires EndsWith(version, "-" + PLATFORMS[i]) && EndsWith(version, "-" + PLATFORMS[j])
    ensures i == j
  {
    Marks(i, version);
    Marks(j, version);
  }

  lemma NamesDiffer(i: nat, j: nat)
    requires i < |PLATFORMS| && j < |PLATFORMS| && PLATFORMS[i] == PLATFORMS[j]
    ensures i == j
  {
    var t := "-" + PLATFORMS[i];
    assert t[|t| - |t|..] == t;
    SuffixIsOne(i, j, t);
  }

  /** Whatever a package is called and whatever its version, no two platforms accept it. */
  lemma AtMostOnePlatform(i: nat, j: nat, provider: string, packageName: string, version: string)
    requires i < |PLATFORMS| && j < |PLATFORMS|
    requires Accepts(PLATFORMS[i], provider, packageName, version)
    requires Accepts(PLATFORMS[j], provider, packageName, version)
    ensures i == j
  {
    hide EndsWith;
    if provider == "claude" {
      var a, b, k := PLATFORMS[i], PLATFORMS[j], |CLAUDE_PACKAGE_PREFIX|;
      assert (CLAUDE_PACKAGE_PREFIX + a)[k..] == a && (CLAUDE_PACKAGE_PREFIX + b)[k..] == b;
      NamesDiffer(i, j);
    } else {
      CodexSuffix(PLATFORMS[i], version);
      CodexSuffix(PLATFORMS[j], version);
      SuffixIsOne(i, j, version);
    }
  }

  /** Every valid entry is for exactly one platform: it can be approved there, and nowhere else. */
  lemma ExactlyOnePlatform(e: Entry) returns (i: nat)
    requires ValidEntry(e)
    ensures i < |PLATFORMS|
    ensures forall j :: 0 <= j < |PLATFORMS| ==>
              (Accepts(PLATFORMS[j], e.provider, e.packageName, e.version) <==> j == i)
  {
    hide Accepts, ValidVersion, ValidSri, HexOf, ValidText;
    i :| 0 <= i < |PLATFORMS| && Accepts(PLATFORMS[i], e.provider, e.packageName, e.version);
    forall j | 0 <= j < |PLATFORMS| && Accepts(PLATFORMS[j], e.provider, e.packageName, e.version)
      ensures j == i
    {
      AtMostOnePlatform(i, j, e.provider, e.packageName, e.version);
    }
  }
}
