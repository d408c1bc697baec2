/** Decimal numerals and what release names say about versions: the numbers in a name, and the order of names by
    them. */
module Numerals {
  import opened Options
  import opened ReleaseName
  import opened Splitting

  /** str(n), digit by digit. */
  function Dec(n: nat): (s: string)
    ensures s != ""
  {
    if n < 10 then ["0123456789"[n]] else Dec(n / 10) + ["0123456789"[n % 10]]
  }

  function Zeros(k: nat): string {
    seq(k, _ => '0')
  }

  lemma DigitsAre(c: char)
    ensures IsDigit(c) <==> c in "0123456789"
    ensures IsDigit(c) ==> "0123456789"[DigitValue(c)] == c
    ensures forall d :: 0 <= d < 10 ==> IsDigit("0123456789"[d]) && DigitValue("0123456789"[d]) == d
  {
  }

  /** A printed number is a numeral without a leading zero. */
  lemma {:induction false} DecIsNumber(n: nat)
    ensures Number(Dec(n)) && (n > 0 ==> Dec(n)[0] != '0')
  {
    DigitsAre('0');
    if n >= 10 {
      DecIsNumber(n / 10);
    }
  }

  /** Reading a printed number gives it back. */
  lemma {:induction false} DecimalPrinted(n: nat)
    ensures Number(Dec(n)) && DecimalValue(Dec(n)) == n
  {
    var s := Dec(n);
    DecIsNumber(n);
    DigitsAre(s[|s| - 1]);
    if n >= 10 {
      DecimalPrinted(n / 10);
      assert s[..|s| - 1] == Dec(n / 10);
    } else {
      assert s[..|s| - 1] == "";
    }
  }

  lemma DecMore(w: nat, c: char)
    requires IsDigit(c)
    ensures w > 0 ==> Dec(10 * w + DigitValue(c)) == Dec(w) + [c]
    ensures Dec(DigitValue(c)) == [c]
  {
    DigitsAre(c);
    assert (10 * w + DigitValue(c)) / 10 == w;
  }

  lemma ValueMore(s: string)
    requires Number(s)
    ensures IsDigit(s[|s| - 1])
    ensures DecimalValue(s) == 10 * DecimalValue(s[..|s| - 1]) + DigitValue(s[|s| - 1])
    ensures |s| > 1 ==> Number(s[..|s| - 1])
  {
  }

  lemma ZerosMore(j: nat, c: char)
    ensures Zeros(0) + [c] == [c] && Zeros(j) + "0" + [c] == Zeros(j + 1) + [c]
  {
    assert Zeros(j) + "0" == Zeros(j + 1);
  }

  lemma NumeralMore(j: nat, w: nat, c: char) returns (k: nat)
    requires IsDigit(c)
    ensures Zeros(j) + Dec(w) + [c] == Zeros(k) + Dec(10 * w + DigitValue(c))
  {
    DecMore(w, c);
    hide Dec, DigitValue, IsDigit;
    if w == 0 {
      DecZero();
      ZerosMore(j, c);
      k := j + 1;
    } else {
      AppendMark(Zeros(j), Dec(w), c);
      k := j;
    }
  }

  lemma AppendMark(z: string, d: string, c: char)
    ensures z + d + [c] == z + (d + [c])
  {
  }

  /** Every numeral is the printed number it reads as, after some zeros. */
  lemma {:induction false} NumeralIs(s: string) returns (k: nat)
    requires Number(s)
    ensures s == Zeros(k) + Dec(DecimalValue(s))
    decreases |s|
  {
    var most, c := s[..|s| - 1], s[|s| - 1];
    assert s == most + [c];
    ValueMore(s);
    if most == "" {
      assert DecimalValue(most) == 0;
      DecMore(0, c);
      assert Zeros(0) + [c] == [c];
      k := 0;
    } else {
      hide *;
      var j := NumeralIs(most);
      k := NumeralMore(j, DecimalValue(most), c);
    }
  }

  lemma DecZero()
    ensures Dec(0) == "0"
  {
  }

  // ----- The numbers in a name -----

  function DecAll(numbers: seq<nat>): (parts: seq<string>)
    ensures |parts| == |numbers|
  {
    seq(|numbers|, i requires 0 <= i < |numbers| => Dec(numbers[i]))
  }

  /** v1.2.3-target, with or without a qualifier before the dash. */
  function NameOf(numbers: seq<nat>, qualifier: string, target: string): Name {
    "v" + JoinWith(DecAll(numbers), '.') + qualifier + "-" + target
  }

  ghost predicate Writable(numbers: seq<nat>, qualifier: string, target: string) {
    && 1 <= |numbers| <= 3 && (qualifier == "" || Qualifier(qualifier))
    && Target(target) && '/' !in target && '\\' !in target
  }

  lemma DecAllParts(numbers: seq<nat>)
    requires 1 <= |numbers| <= 3
    ensures VersionParts(DecAll(numbers)) && Values(DecAll(numbers)) == numbers
  {
    forall i | 0 <= i < |numbers|
      ensures Number(DecAll(numbers)[i])
    {
      DecIsNumber(numbers[i]);
    }
    DecAllValues(numbers);
  }

  lemma {:induction false} DecAllValues(numbers: seq<nat>)
    requires forall i :: 0 <= i < |numbers| ==> Number(DecAll(numbers)[i])
    ensures Values(DecAll(numbers)) == numbers
  {
    hide DecimalValue, Dec, Number;
    if numbers != [] {
      var parts := DecAll(numbers);
      assert parts[1..] == DecAll(numbers[1..]);
      DecAllValues(numbers[1..]);
      DecimalPrinted(numbers[0]);
      assert numbers == [numbers[0]] + numbers[1..];
    }
  }

  lemma {:induction false} JoinedPlain(parts: seq<string>)
    requires forall i :: 0 <= i < |parts| ==> Number(parts[i])
    ensures '/' !in JoinWith(parts, '.') && '\\' !in JoinWith(parts, '.')
  {
    if |parts| > 0 {
      assert Number(parts[0]);
      JoinedPlain(parts[1..]);
    }
  }

  lemma QualifierPlain(qualifier: string)
    requires Qualifier(qualifier)
    ensures '/' !in qualifier && '\\' !in qualifier
  {
    var d, u :| |d| == 16 && Hex(d) && (|u| == 8 || |u| == 64) && Hex(u) && qualifier == "+" + d + "." + u;
    HexPlain(d);
    HexPlain(u);
  }

  /** A name's version is the numbers printed in it, one, two or three of them. */
  lemma VersionPrinted(numbers: seq<nat>, qualifier: string, target: string)
    requires Writable(numbers, qualifier, target)
    ensures var name := NameOf(numbers, qualifier, target);
            ReleaseParts(name).Some? && ReleaseParts(name).value.target == target && VersionOf(name) == numbers
  {
    hide Dec, Number, Qualifier, ReleaseParts, Values;
    var parts, name := DecAll(numbers), NameOf(numbers, qualifier, target);
    var version := "v" + JoinWith(parts, '.');
    DecAllParts(numbers);
    JoinedPlain(parts);
    if qualifier != "" {
      QualifierPlain(qualifier);
    }
    assert Version(version);
    assert Matches(name, Parts(version, target), qualifier);
    MatchesParsed(name, Parts(version, target), qualifier);
    NumbersHaveNoDots(parts);
    SplitJoin(parts, '.');
    assert version[1..] == JoinWith(parts, '.');
  }

  // ----- The order of versions -----

  /** The versions agree up to some number, which is smaller in the first. */
  ghost predicate SmallerAt(a: seq<nat>, b: seq<nat>, i: int) {
    0 <= i < |a| && i < |b| && a[..i] == b[..i] && a[i] < b[i]
  }

  /** One version is not after another exactly when it begins it, or is smaller in the first number where they
      differ. */
  lemma {:induction false} VersionLeIs(a: seq<nat>, b: seq<nat>)
    ensures VersionLe(a, b) <==> a <= b || exists i :: SmallerAt(a, b, i)
  {
    if a != [] && b != [] {
      VersionLeIs(a[1..], b[1..]);
      assert a == [a[0]] + a[1..] && b == [b[0]] + b[1..];
      if a[0] < b[0] {
        assert SmallerAt(a, b, 0);
      }
      if a[0] == b[0] {
        SmallerShift(a, b);
      }
    }
  }

  lemma SmallerShift(a: seq<nat>, b: seq<nat>)
    requires a != [] && b != [] && a[0] == b[0]
    ensures (exists i :: SmallerAt(a, b, i)) <==> exists i :: SmallerAt(a[1..], b[1..], i)
    ensures a <= b <==> a[1..] <= b[1..]
  {
    assert a == [a[0]] + a[1..] && b == [b[0]] + b[1..];
    if i :| SmallerAt(a, b, i) {
      assert i > 0;
      assert a[1..][..i - 1] == a[..i][1..] && b[1..][..i - 1] == b[..i][1..];
      assert SmallerAt(a[1..], b[1..], i - 1);
    }
    if i :| SmallerAt(a[1..], b[1..], i) {
      assert a[..i + 1] == [a[0]] + a[1..][..i] && b[..i + 1] == [b[0]] + b[1..][..i];
      assert SmallerAt(a, b, i + 1);
    }
  }
}
