/** Strings in code point order: sorting a set of them, and joining the result with bars. */
module TextOrder {
  import ReleaseName
  import opened Splitting

  function Codes(s: string): seq<nat> {
    seq(|s|, i requires 0 <= i < |s| => s[i] as nat)
  }

  predicate Less(a: string, b: string) {
    a != b && ReleaseName.VersionLe(Codes(a), Codes(b))
  }

  predicate Ascending(r: seq<string>) {
    forall i, j :: 0 <= i < j < |r| ==> Less(r[i], r[j])
  }

  lemma CodesInjective(a: string, b: string)
    requires Codes(a) == Codes(b)
    ensures a == b
  {
    assert forall i :: 0 <= i < |a| ==> Codes(a)[i] == a[i] as nat && Codes(b)[i] == b[i] as nat;
  }

  lemma LessTotal(a: string, b: string)
    ensures a != b ==> Less(a, b) || Less(b, a)
    ensures !(Less(a, b) && Less(b, a))
  {
    ReleaseName.VersionTotal(Codes(a), Codes(b));
    if Less(a, b) && Less(b, a) {
      CodesInjective(a, b);
    }
  }

  lemma LessTrans(a: string, b: string, c: string)
    requires Less(a, b) && Less(b, c)
    ensures Less(a, c)
  {
    ReleaseName.VersionTrans(Codes(a), Codes(b), Codes(c));
    LessTotal(a, b);
  }

  /** Puts a string in its place, once. */
  function Inserted(r: seq<string>, f: string): seq<string> {
    if r == [] then [f]
    else if r[0] == f then r
    else if Less(r[0], f) then [r[0]] + Inserted(r[1..], f)
    else [f] + r
  }

  lemma {:induction false} InsertedAscends(r: seq<string>, f: string)
    requires Ascending(r)
    ensures Ascending(Inserted(r, f)) && forall g :: g in Inserted(r, f) <==> g in r || g == f
  {
    hide Less;
    if r != [] {
      assert r == [r[0]] + r[1..];
      LessTotal(r[0], f);
      if r[0] != f && Less(r[0], f) {
        InsertedAscends(r[1..], f);
        assert forall g :: g in r[1..] ==> Less(r[0], g);
      } else if r[0] != f {
        forall j | 0 < j < |r|
          ensures Less(f, r[j])
        {
          LessTrans(f, r[0], r[j]);
        }
      }
    }
  }

  // ----- Sorted sets -----

  ghost predicate Lists(r: seq<string>, s: set<string>) {
    Ascending(r) && forall x :: x in r <==> x in s
  }

  /** A set of strings is listed in ascending order in only one way. */
  lemma {:induction false} ListsOnce(a: seq<string>, b: seq<string>, s: set<string>)
    requires Lists(a, s) && Lists(b, s)
    ensures a == b
    decreases |a|
  {
    hide Less;
    ListsNone(a, s);
    ListsNone(b, s);
    if s != {} {
      SameHead(a, b, s);
      ListsRest(a, s);
      ListsRest(b, s);
      ListsOnce(a[1..], b[1..], s - {a[0]});
      assert a == [a[0]] + a[1..] && b == [b[0]] + b[1..];
    }
  }

  lemma ListsNone(a: seq<string>, s: set<string>)
    requires Lists(a, s)
    ensures a == [] <==> s == {}
  {
    assert a != [] ==> a[0] in a;
  }

  lemma SameHead(a: seq<string>, b: seq<string>, s: set<string>)
    requires Lists(a, s) && Lists(b, s) && a != [] && b != []
    ensures a[0] == b[0]
  {
    hide Less;
    assert a[0] in a && b[0] in b;
    var i :| 0 <= i < |b| && b[i] == a[0];
    var j :| 0 <= j < |a| && a[j] == b[0];
    LessTotal(a[0], b[0]);
  }

  lemma ListsRest(a: seq<string>, s: set<string>)
    requires Lists(a, s) && a != []
    ensures Lists(a[1..], s - {a[0]})
  {
    hide Less;
    LessTotal(a[0], a[0]);
    assert a == [a[0]] + a[1..];
  }

  lemma {:induction false} Listable(s: set<string>)
    ensures exists r :: Lists(r, s)
    decreases |s|
  {
    hide Ascending;
    if s == {} {
      AscendingNone();
      assert Lists([], s);
    } else {
      var x :| x in s;
      Listable(s - {x});
      var rest :| Lists(rest, s - {x});
      InsertedAscends(rest, x);
      assert Lists(Inserted(rest, x), s);
    }
  }

  /** sorted(s) */
  ghost function Sorted(s: set<string>): (r: seq<string>)
    ensures Lists(r, s)
  {
    Listable(s);
    var r :| Lists(r, s);
    r
  }

  method SortSet(s: set<string>) returns (r: seq<string>)
    ensures r == Sorted(s)
  {
    hide Ascending, Inserted;
    r := [];
    AscendingNone();
    var waiting := s;
    while waiting != {}
      decreases |waiting|
      invariant waiting <= s && Ascending(r)
      invariant forall x :: x in r <==> x in s && x !in waiting
    {
      var x :| x in waiting;
      InsertedAscends(r, x);
      r := Inserted(r, x);
      waiting := waiting - {x};
    }
    ListsOnce(r, Sorted(s), s);
  }

  lemma AscendingNone()
    ensures Ascending([])
  {
  }

  // ----- Bars -----

  predicate BarFree(s: string) {
    '|' !in s
  }

  /** "|".join(sorted(s)) */
  ghost function Line(s: set<string>): string {
    JoinWith(Sorted(s), '|')
  }

  function Pieces(line: string): set<string> {
    set x | x in Split(line, '|')
  }

  /** The line gives the set back exactly when no member contains a bar. */
  lemma LineReadable(s: set<string>)
    requires s != {}
    ensures Pieces(Line(s)) == s <==> forall x :: x in s ==> BarFree(x)
  {
    hide Ascending, Split, JoinWith;
    var r := Sorted(s);
    if forall x :: x in s ==> BarFree(x) {
      assert forall i :: 0 <= i < |r| ==> r[i] in s;
      SplitJoin(r, '|');
      assert forall x :: x in Pieces(Line(s)) <==> x in r;
    } else {
      var x :| x in s && !BarFree(x);
      assert x !in Pieces(Line(s));
    }
  }

  /** Among sets without bars, a line is the line of one set only. */
  lemma LineDetermines(s: set<string>, t: set<string>)
    requires s != {} && t != {} && Line(s) == Line(t)
    requires forall x :: x in s || x in t ==> BarFree(x)
    ensures s == t
  {
    hide Line, BarFree;
    LineReadable(s);
    LineReadable(t);
  }
}
