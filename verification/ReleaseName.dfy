/** Release names: version, optional generation qualifier, and target, as parsed and printed by the installers. */
module ReleaseName {
  import opened Options
  import opened Splitting

  type Name = string

  datatype Parts = Parts(version: string, target: string)

  predicate IsDigit(c: char) {
    '0' <= c <= '9'
  }

  predicate IsHex(c: char) {
    IsDigit(c) || 'a' <= c <= 'f'
  }

  /** [0-9]+ */
  predicate Number(s: string) {
    s != "" && forall i :: 0 <= i < |s| ==> IsDigit(s[i])
  }

  predicate Hex(s: string) {
    forall i :: 0 <= i < |s| ==> IsHex(s[i])
  }

  // ----- The grammar, as an independent reference -----

  /** v[0-9]+(\.[0-9]+){0,2} */
  ghost predicate Version(s: string) {
    exists parts :: VersionParts(parts) && s == "v" + JoinWith(parts, '.')
  }

  predicate VersionParts(parts: seq<string>) {
    1 <= |parts| <= 3 && forall i :: 0 <= i < |parts| ==> Number(parts[i])
  }

  /** \+[0-9a-f]{16}\.([0-9a-f]{8}|[0-9a-f]{64}) */
  ghost predicate Qualifier(s: string) {
    exists d, u :: |d| == 16 && Hex(d) && (|u| == 8 || |u| == 64) && Hex(u) && s == "+" + d + "." + u
  }

  /** .+ does not cross a newline. */
  predicate Target(s: string) {
    s != "" && '\n' !in s
  }

  ghost predicate Matches(name: Name, p: Parts, qualifier: string) {
    && Version(p.version)
    && (qualifier == "" || Qualifier(qualifier))
    && Target(p.target)
    && name == p.version + qualifier + "-" + p.target
  }

  // ----- The parser -----

  predicate IsVersion(s: string) {
    s != "" && s[0] == 'v' && VersionParts(Split(s[1..], '.'))
  }

  /** The length of the part before the first '+' or '-'. */
  function HeadLength(s: string): (n: nat)
    ensures n <= |s|
    ensures forall i :: 0 <= i < n ==> s[i] != '+' && s[i] != '-'
    ensures n < |s| ==> s[n] == '+' || s[n] == '-'
  {
    if s == "" || s[0] == '+' || s[0] == '-' then 0 else 1 + HeadLength(s[1..])
  }

  /** Does s start with a qualifier whose last part has k digits, and go on with "-"? */
  predicate QualifiedBy(s: string, k: nat) {
    |s| > 18 + k && s[0] == '+' && Hex(s[1..17]) && s[17] == '.' && Hex(s[18..18 + k]) && s[18 + k] == '-'
  }

  function QualifierLength(s: string): Option<nat> {
    if s != "" && s[0] == '-' then Some(0)
    else if QualifiedBy(s, 8) then Some(26)
    else if QualifiedBy(s, 64) then Some(82)
    else None
  }

  function ReleaseParts(name: Name): Option<Parts> {
    var n := HeadLength(name);
    match QualifierLength(name[n..])
    case None => None
    case Some(k) =>
      assert n + k < |name|;
      var p := Parts(name[..n], name[n + k + 1..]);
      if '/' !in name && '\\' !in name && IsVersion(p.version) && Target(p.target) then Some(p) else None
  }

  function DigitValue(c: char): nat
    requires IsDigit(c)
  {
    c as nat - '0' as nat
  }

  function DecimalValue(s: string): nat
    requires forall i :: 0 <= i < |s| ==> IsDigit(s[i])
  {
    if s == "" then 0 else 10 * DecimalValue(s[..|s| - 1]) + DigitValue(s[|s| - 1])
  }

  function Values(parts: seq<string>): (r: seq<nat>)
    requires forall i :: 0 <= i < |parts| ==> Number(parts[i])
    ensures |r| == |parts|
  {
    if parts == [] then [] else assert Number(parts[0]); [DecimalValue(parts[0])] + Values(parts[1..])
  }

  /** The comparison key: the numeric components of the version. */
  function VersionOf(name: Name): (v: seq<nat>)
    requires ReleaseParts(name).Some?
    ensures 1 <= |v| <= 3
  {
    Values(Split(ReleaseParts(name).value.version[1..], '.'))
  }

  /** Tuple comparison: lexicographic, a proper prefix comes first. */
  predicate VersionLe(a: seq<nat>, b: seq<nat>) {
    if a == [] then true
    else if b == [] then false
    else a[0] < b[0] || (a[0] == b[0] && VersionLe(a[1..], b[1..]))
  }

  /** A fresh name for the same version and target; the identifier is the random part. */
  function Generation(name: Name, digest: string, identifier: string): Name
    requires ReleaseParts(name).Some? && |digest| >= 16
  {
    var p := ReleaseParts(name).value;
    p.version + "+" + digest[..16] + "." + identifier + "-" + p.target
  }

  // ----- The parser meets the grammar -----

  lemma NumbersHaveNoDots(parts: seq<string>)
    requires VersionParts(parts)
    ensures forall i :: 0 <= i < |parts| ==> '.' !in parts[i]
  {
    assert forall i :: 0 <= i < |parts| ==> Number(parts[i]);
  }

  lemma VersionMeaning(s: string)
    ensures IsVersion(s) <==> Version(s)
  {
    if IsVersion(s) {
      JoinSplit(s[1..], '.');
      assert s == "v" + s[1..];
    }
    if Version(s) {
      var parts :| VersionParts(parts) && s == "v" + JoinWith(parts, '.');
      NumbersHaveNoDots(parts);
      SplitJoin(parts, '.');
      assert s[1..] == JoinWith(parts, '.');
    }
  }

  lemma {:induction false} NumbersHaveNoMarks(parts: seq<string>)
    requires parts != [] && forall i :: 0 <= i < |parts| ==> Number(parts[i])
    ensures '+' !in JoinWith(parts, '.') && '-' !in JoinWith(parts, '.')
  {
    assert Number(parts[0]);
    if |parts| > 1 {
      NumbersHaveNoMarks(parts[1..]);
    }
  }

  lemma {:induction false} HeadOf(s: string, mark: char, rest: string)
    requires '+' !in s && '-' !in s && (mark == '+' || mark == '-')
    ensures HeadLength(s + [mark] + rest) == |s|
  {
    var whole := s + [mark] + rest;
    if s != "" {
      assert whole[1..] == s[1..] + [mark] + rest;
      HeadOf(s[1..], mark, rest);
    }
  }

  lemma QualifierSplit(s: string)
    requires QualifierLength(s).Some?
    ensures var k := QualifierLength(s).value;
      k < |s| && (s[..k] == "" || Qualifier(s[..k])) && s == s[..k] + "-" + s[k + 1..]
  {
    var k := QualifierLength(s).value;
    if k > 0 {
      var d, u := s[1..17], s[18..k];
      assert Hex(d) && Hex(u) && s[..k] == "+" + d + "." + u;
    }
  }

  lemma Reassemble(name: Name, n: nat, k: nat)
    requires n + k < |name| && name[n + k] == '-'
    ensures name == name[..n] + name[n..][..k] + "-" + name[n + k + 1..]
  {
  }

  lemma ParsedMatches(name: Name)
    requires ReleaseParts(name).Some?
    ensures exists q :: Matches(name, ReleaseParts(name).value, q)
  {
    hide Version, IsVersion, QualifierLength, Qualifier, HeadLength;
    var n := HeadLength(name);
    var s := name[n..];
    var k := QualifierLength(s).value;
    var p := ReleaseParts(name).value;
    VersionMeaning(p.version);
    QualifierSplit(s);
    assert name[n + k] == s[k] == '-';
    Reassemble(name, n, k);
    assert Matches(name, p, s[..k]);
  }

  lemma HeadIsVersion(version: string, tail: string)
    requires Version(version) && tail != "" && (tail[0] == '+' || tail[0] == '-')
    ensures HeadLength(version + tail) == |version|
  {
    hide HeadLength;
    var parts :| VersionParts(parts) && version == "v" + JoinWith(parts, '.');
    NumbersHaveNoMarks(parts);
    HeadOf(version, tail[0], tail[1..]);
    assert version + tail == version + [tail[0]] + tail[1..];
  }

  lemma MatchesParsed(name: Name, p: Parts, q: string)
    requires Matches(name, p, q) && '/' !in name && '\\' !in name
    ensures ReleaseParts(name) == Some(p)
  {
    hide Version, IsVersion, QualifierLength, Qualifier, HeadLength;
    VersionMeaning(p.version);
    var s := q + "-" + p.target;
    if q != "" {
      QualifierParsed(q, p.target);
    } else {
      PlainParsed(p.target);
    }
    HeadIsVersion(p.version, s);
    assert name == p.version + s;
    assert name[|p.version|..] == s;
    assert name[|p.version| + |q| + 1..] == p.target;
  }

  lemma PlainParsed(target: string)
    ensures QualifierLength("" + "-" + target) == Some(0)
  {
  }

  lemma QualifierParsed(q: string, target: string)
    requires Qualifier(q)
    ensures q[0] == '+' && QualifierLength(q + "-" + target) == Some(|q|)
  {
    var d, u :| |d| == 16 && Hex(d) && (|u| == 8 || |u| == 64) && Hex(u) && q == "+" + d + "." + u;
    var s := q + "-" + target;
    assert s[1..17] == d && s[17] == '.' && s[18..18 + |u|] == u && s[18 + |u|] == '-';
    if |u| == 64 {
      assert s[26] == u[8];
    }
  }

  /** The parser accepts a name with parts p exactly when the grammar derives it with some qualifier. */
  lemma PartsExact(name: Name, p: Parts)
    ensures ReleaseParts(name) == Some(p) <==> '/' !in name && '\\' !in name && exists q :: Matches(name, p, q)
  {
    if ReleaseParts(name) == Some(p) {
      ParsedMatches(name);
    }
    if '/' !in name && '\\' !in name && exists q :: Matches(name, p, q) {
      var q :| Matches(name, p, q);
      MatchesParsed(name, p, q);
    }
  }

  /** Regenerating a name, qualified or not, never changes its version or target. */
  lemma GenerationKeepsParts(name: Name, digest: string, identifier: string)
    requires ReleaseParts(name).Some? && |digest| >= 16 && Hex(digest[..16])
    requires |identifier| == 8 && Hex(identifier)
    ensures ReleaseParts(Generation(name, digest, identifier)) == ReleaseParts(name)
    ensures VersionOf(Generation(name, digest, identifier)) == VersionOf(name)
    ensures '+' in Generation(name, digest, identifier)
    ensures Matches(Generation(name, digest, identifier), ReleaseParts(name).value,
                    "+" + digest[..16] + "." + identifier)
  {
    hide ReleaseParts, Version, IsVersion, Hex, Values, Split;
    var p := ReleaseParts(name).value;
    var q := "+" + digest[..16] + "." + identifier;
    var made := Generation(name, digest, identifier);
    PartsInName(name);
    VersionMeaning(p.version);
    QualifierMade(digest[..16], identifier);
    assert made == p.version + q + "-" + p.target;
    HexPlain(digest[..16]);
    HexPlain(identifier);
    assert '/' !in q && '\\' !in q;
    assert made[|p.version|] == '+';
    MatchesParsed(made, p, q);
  }

  lemma PartsInName(name: Name)
    requires ReleaseParts(name).Some?
    ensures var p := ReleaseParts(name).value;
      && '/' !in p.version && '\\' !in p.version && '/' !in p.target && '\\' !in p.target
      && IsVersion(p.version) && Target(p.target)
  {
  }

  lemma QualifierMade(d: string, u: string)
    requires |d| == 16 && Hex(d) && |u| == 8 && Hex(u)
    ensures Qualifier("+" + d + "." + u)
  {
  }

  lemma HexPlain(s: string)
    requires Hex(s)
    ensures '/' !in s && '\\' !in s
  {
  }

  // ----- The version order -----

  lemma {:induction false} VersionTotal(a: seq<nat>, b: seq<nat>)
    ensures VersionLe(a, b) || VersionLe(b, a)
    ensures VersionLe(a, b) && VersionLe(b, a) ==> a == b
  {
    if a != [] && b != [] {
      VersionTotal(a[1..], b[1..]);
      assert a == [a[0]] + a[1..] && b == [b[0]] + b[1..];
    }
  }

  lemma {:induction false} VersionTrans(a: seq<nat>, b: seq<nat>, c: seq<nat>)
    requires VersionLe(a, b) && VersionLe(b, c)
    ensures VersionLe(a, c)
  {
    if a != [] {
      if a[0] == b[0] && b[0] == c[0] {
        VersionTrans(a[1..], b[1..], c[1..]);
      }
    }
  }

  lemma {:induction false} VersionRefl(a: seq<nat>)
    ensures VersionLe(a, a)
  {
    if a != [] {
      VersionRefl(a[1..]);
    }
  }
}
