/** The printed field tree of a reference: one line of joined kinds for every recorded path. */
module FieldTree {
  import opened Options
  import opened SchemaWalk
  import opened SchemaTrails
  import opened Splitting
  import opened TextOrder

  function Root(reference: string): Json {
    Obj(map["$ref" := Str(reference)])
  }

  /** What the walk from a reference records. */
  ghost function Pairs(labels: Labels, document: Json, reference: string): set<Pair> {
    Recorded(labels, document, Root(reference), "", 0, {})
  }

  /** Only strings can be sorted and joined. */
  predicate Printable(pairs: set<Pair>) {
    forall pair :: pair in pairs ==> pair.1.Str?
  }

  function Shown(path: string): string {
    if path == "" then "/" else path
  }

  function KindsAt(pairs: set<Pair>, path: string): set<string> {
    set pair | pair in pairs && pair.0 == path && pair.1.Str? :: pair.1.text
  }

  /** The recorded path a printed path stands for: "/" is the path of a property with an empty name, if there is one,
      and otherwise the root. */
  function Behind(pairs: set<Pair>, shown: string): string {
    if shown == "/" && KindsAt(pairs, "/") == {} then "" else shown
  }

  function Paths(pairs: set<Pair>): set<string> {
    set pair | pair in pairs :: pair.0
  }

  function AllShown(paths: set<string>): set<string> {
    set p | p in paths :: Shown(p)
  }

  ghost function Printed(pairs: set<Pair>): map<string, string> {
    map q | q in AllShown(Paths(pairs)) :: Line(KindsAt(pairs, Behind(pairs, q)))
  }

  // ----- Printing -----

  /** The texts of the kinds at one path, or None if one of them is not a string. */
  method TextsOf(kinds: set<Json>) returns (r: Option<set<string>>)
    ensures r.Some? <==> AllStrings(kinds)
    ensures r.Some? ==> forall x :: x in r.value <==> Str(x) in kinds
  {
    var waiting, texts := kinds, {};
    while waiting != {}
      decreases |waiting|
      invariant waiting <= kinds
      invariant forall k :: k in kinds && k !in waiting ==> k.Str?
      invariant forall x :: x in texts <==> Str(x) in kinds && Str(x) !in waiting
    {
      var k :| k in waiting;
      if !k.Str? {
        return None;
      }
      waiting := waiting - {k};
      texts := texts + {k.text};
    }
    return Some(texts);
  }

  lemma KindsOfTable(fields: map<string, set<Json>>, path: string, texts: set<string>)
    requires forall x :: x in texts <==> path in fields && Str(x) in fields[path]
    ensures KindsAt(PairsOf(fields), path) == texts
  {
    forall x
      ensures x in KindsAt(PairsOf(fields), path) <==> x in texts
    {
      if x in texts {
        assert (path, Str(x)) in PairsOf(fields);
      }
    }
  }

  lemma TablePaths(fields: map<string, set<Json>>)
    requires Solid(fields)
    ensures Paths(PairsOf(fields)) == fields.Keys
  {
    forall p
      ensures p in Paths(PairsOf(fields)) <==> p in fields
    {
      if p in fields {
        var k :| k in fields[p];
        assert (p, k) in PairsOf(fields);
      }
    }
  }

  /** The paths in ascending order, so that a property with an empty name comes after the root and takes its place. */
  method Print(fields: map<string, set<Json>>) returns (r: Option<map<string, string>>)
    requires Solid(fields)
    ensures r.Some? <==> Printable(PairsOf(fields))
    ensures r.Some? ==> r.value == Printed(PairsOf(fields))
  {
    hide Less, Ascending, Printed, PairsOf, KindsAt, AllShown;
    ghost var pairs := PairsOf(fields);
    var paths := SortSet(fields.Keys);
    var table: map<string, string> := map[];
    var i := 0;
    assert SetOf(paths[..0]) == {};
    ShownNone();
    while i < |paths|
      invariant 0 <= i <= |paths|
      invariant forall p :: p in paths[..i] ==> AllStrings(fields[p])
      invariant table.Keys == AllShown(SetOf(paths[..i]))
      invariant forall q :: q in table ==>
        table[q] == Line(KindsAt(pairs, if q == "/" && "/" !in paths[..i] then "" else q))
    {
      var path := paths[i];
      assert path in paths && path in fields;
      var texts := TextsOf(fields[path]);
      if texts.None? {
        NotPrintable(fields, path);
        return None;
      }
      KindsOfTable(fields, path, texts.value);
      var sorted := SortSet(texts.value);
      if path == "" {
        RootFirst(paths, fields.Keys, i);
      }
      assert paths[..i + 1] == paths[..i] + [path];
      assert SetOf(paths[..i + 1]) == SetOf(paths[..i]) + {path};
      ShownMore(SetOf(paths[..i]), path);
      table := table[Shown(path) := JoinWith(sorted, '|')];
      i := i + 1;
    }
    assert paths[..i] == paths;
    assert SetOf(paths) == fields.Keys;
    PrintedIs(fields, table);
    return Some(table);
  }

  predicate AllStrings(kinds: set<Json>) {
    forall k :: k in kinds ==> k.Str?
  }

  lemma ShownNone()
    ensures AllShown({}) == {}
  {
  }

  lemma ShownMore(paths: set<string>, path: string)
    ensures AllShown(paths + {path}) == AllShown(paths) + {Shown(path)}
  {
  }

  lemma NotPrintable(fields: map<string, set<Json>>, path: string)
    requires path in fields && !AllStrings(fields[path])
    ensures !Printable(PairsOf(fields))
  {
    var k :| k in fields[path] && !k.Str?;
    assert (path, k) in PairsOf(fields);
  }

  /** Nothing comes before the empty path. */
  lemma RootFirst(paths: seq<string>, s: set<string>, i: nat)
    requires Lists(paths, s) && i < |paths| && paths[i] == ""
    ensures i == 0
  {
    assert Codes("") == [];
    LessTotal(paths[0], "");
  }

  lemma PrintedIs(fields: map<string, set<Json>>, table: map<string, string>)
    requires Solid(fields) && (forall p :: p in fields ==> AllStrings(fields[p]))
    requires table.Keys == AllShown(fields.Keys)
    requires forall q :: q in table ==>
      table[q] == Line(KindsAt(PairsOf(fields), if q == "/" && "/" !in fields then "" else q))
    ensures Printable(PairsOf(fields)) && table == Printed(PairsOf(fields))
  {
    TablePaths(fields);
    KindsThere(fields, "/");
    hide Line, AllShown, KindsAt, PairsOf, Paths;
    PrintableTable(fields);
  }

  lemma PrintableTable(fields: map<string, set<Json>>)
    requires forall p :: p in fields ==> AllStrings(fields[p])
    ensures Printable(PairsOf(fields))
  {
  }

  lemma KindsThere(fields: map<string, set<Json>>, path: string)
    requires Solid(fields) && (path in fields ==> AllStrings(fields[path]))
    ensures KindsAt(PairsOf(fields), path) != {} <==> path in fields
  {
    if path in fields {
      var k :| k in fields[path];
      assert (path, k) in PairsOf(fields);
      assert k.text in KindsAt(PairsOf(fields), path);
    }
  }

  /** Raises exactly when the walk raises or records a kind that is no string; otherwise prints exactly what the walk
      records. */
  method FieldTree(labels: Labels, document: Json, reference: Option<string>) returns (r: Option<map<string, string>>)
    ensures reference.None? ==> r == Some(map[])
    ensures reference.Some? ==>
              && (r.None? <==> (|| Fails(labels, document, Root(reference.value), 0, {})
                                || !Printable(Pairs(labels, document, reference.value))))
              && (r.Some? ==> r.value == Printed(Pairs(labels, document, reference.value)))
  {
    hide Recorded, Fails, Printed, Printable;
    if reference.None? {
      return Some(map[]);
    }
    var table := new FieldTable();
    var ok := table.Walk(labels, document, Root(reference.value), "", 0, {});
    if !ok {
      return None;
    }
    assert PairsOf(table.fields) == Pairs(labels, document, reference.value);
    r := Print(table.fields);
  }

  // ----- What the printed tree still says -----

  /** What can be read off a printed tree alone: "/" is the root, and a line's pieces are the kinds. */
  function Decode(tree: map<string, string>): set<Pair> {
    set q, x | q in tree && x in Pieces(tree[q]) :: (if q == "/" then "" else q, Str(x))
  }

  predicate AllBarFree(pairs: set<Pair>)
    requires Printable(pairs)
  {
    forall pair :: pair in pairs ==> BarFree(pair.1.text)
  }

  /** A printed tree gives back what was recorded exactly when no kind contains a bar and nothing was recorded for a
      property with an empty name at the root. */
  lemma DecodeExactly(pairs: set<Pair>)
    requires Printable(pairs)
    ensures Decode(Printed(pairs)) == pairs <==> AllBarFree(pairs) && KindsAt(pairs, "/") == {}
  {
    hide Line, KindsAt, Printed, Pieces, BarFree, Decode;
    if Decode(Printed(pairs)) == pairs {
      DecodedPlain(Printed(pairs));
      KindsText(pairs, "/");
    }
    if AllBarFree(pairs) && KindsAt(pairs, "/") == {} {
      forall q, x
        ensures q in Printed(pairs) && x in Pieces(Printed(pairs)[q]) <==>
                  q != "" && (if q == "/" then "" else q, Str(x)) in pairs
      {
        LineAt(pairs, q, x);
      }
      DecodedAll(pairs);
    }
  }

  /** Nothing decoded contains a bar or belongs to "/". */
  lemma DecodedPlain(tree: map<string, string>)
    ensures forall pair :: pair in Decode(tree) ==> pair.1.Str? && BarFree(pair.1.text) && pair.0 != "/"
  {
  }

  lemma DecodedAll(pairs: set<Pair>)
    requires Printable(pairs) && KindsAt(pairs, "/") == {}
    requires forall q, x :: q in Printed(pairs) && x in Pieces(Printed(pairs)[q]) <==>
      q != "" && (if q == "/" then "" else q, Str(x)) in pairs
    ensures Decode(Printed(pairs)) == pairs
  {
    hide Line, Pieces, Printed;
    KindsText(pairs, "/");
    forall pair | pair in pairs
      ensures pair in Decode(Printed(pairs))
    {
      var q, x := Shown(pair.0), pair.1.text;
      assert pair == (if q == "/" then "" else q, Str(x));
      assert q in Printed(pairs) && x in Pieces(Printed(pairs)[q]);
    }
  }

  lemma LineAt(pairs: set<Pair>, q: string, x: string)
    requires Printable(pairs) && AllBarFree(pairs) && KindsAt(pairs, "/") == {}
    ensures q in Printed(pairs) && x in Pieces(Printed(pairs)[q]) <==>
              q != "" && (if q == "/" then "" else q, Str(x)) in pairs
  {
    hide Line, Pieces, BarFree;
    var p := if q == "/" then "" else q;
    KindsText(pairs, p);
    if q != "" {
      ShownExactly(pairs, p);
      if KindsAt(pairs, p) != {} {
        LookedUp(pairs, p);
        LineReadable(KindsAt(pairs, p));
      }
    }
  }

  /** Without a property of an empty name at the root, what is shown is what was recorded. */
  lemma ShownExactly(pairs: set<Pair>, p: string)
    requires Printable(pairs) && KindsAt(pairs, "/") == {} && p != "/"
    ensures Shown(p) in Printed(pairs) <==> KindsAt(pairs, p) != {}
  {
    hide Line;
    KindsText(pairs, "/");
    if Shown(p) in Printed(pairs) {
      var pair :| pair in pairs && Shown(pair.0) == Shown(p);
      assert pair == (pair.0, Str(pair.1.text));
      assert pair.0 == p;
      assert pair.1.text in KindsAt(pairs, p);
    }
    if KindsAt(pairs, p) != {} {
      LookedUp(pairs, p);
    }
  }

  /** A weaker reading, for someone who knows the paths: each recorded path is found in the tree, with a line that
      gives back its kinds. */
  ghost predicate Found(pairs: set<Pair>) {
    forall p :: KindsAt(pairs, p) != {} ==>
      Shown(p) in Printed(pairs) && Pieces(Printed(pairs)[Shown(p)]) == KindsAt(pairs, p)
  }

  /** Exactly without a bar in any kind, and without different kinds for the root and for a property with an empty name
      at the root, is every path found with its own kinds. */
  lemma FoundExactly(pairs: set<Pair>)
    requires Printable(pairs)
    ensures Found(pairs) <==>
              && AllBarFree(pairs)
              && (KindsAt(pairs, "") == {} || KindsAt(pairs, "/") == {} || KindsAt(pairs, "") == KindsAt(pairs, "/"))
  {
    hide Line, BarFree, Pieces, KindsAt, Printed;
    forall p | KindsAt(pairs, p) != {}
      ensures Shown(p) in Printed(pairs)
      ensures Printed(pairs)[Shown(p)] == Line(KindsAt(pairs, if p == "" && KindsAt(pairs, "/") != {} then "/" else p))
      ensures Pieces(Line(KindsAt(pairs, p))) == KindsAt(pairs, p) <==> BarFreeAt(pairs, p)
    {
      LookedUp(pairs, p);
      LineReadable(KindsAt(pairs, p));
    }
    BarsSomewhere(pairs);
  }

  lemma LookedUp(pairs: set<Pair>, p: string)
    requires KindsAt(pairs, p) != {}
    ensures Shown(p) in Printed(pairs)
    ensures Printed(pairs)[Shown(p)] == Line(KindsAt(pairs, if p == "" && KindsAt(pairs, "/") != {} then "/" else p))
  {
    hide Line;
    var x :| x in KindsAt(pairs, p);
    assert p in Paths(pairs);
    assert Shown(p) in AllShown(Paths(pairs));
  }

  lemma BarsSomewhere(pairs: set<Pair>)
    requires Printable(pairs)
    ensures AllBarFree(pairs) <==> forall p :: KindsAt(pairs, p) != {} ==> BarFreeAt(pairs, p)
  {
    forall pair | pair in pairs
      ensures pair.1.text in KindsAt(pairs, pair.0)
    {
    }
  }

  predicate BarFreeAt(pairs: set<Pair>, p: string) {
    forall x :: x in KindsAt(pairs, p) ==> BarFree(x)
  }

  // ----- The same, said of the document -----

  /** Some trail from the reference leads to this kind through exactly these segments. */
  ghost predicate LeadsThrough(labels: Labels, document: Json, reference: string, segments: seq<string>, kind: Json) {
    exists trail :: Segments(trail) == segments && Leads(labels, document, Root(reference), 0, {}, trail, kind)
  }

  lemma {:induction false} JoinedApart(segments: seq<string>)
    ensures Joined(segments) == "" <==> segments == []
    ensures Joined(segments) == "/" <==> segments == [""]
  {
    if segments != [] {
      JoinedApart(segments[1..]);
      assert |Joined(segments)| == 1 + |segments[0]| + |Joined(segments[1..])|;
      if Joined(segments) == "/" {
        assert segments == [segments[0]] + segments[1..];
      }
    }
  }

  /** The root's kinds are those no property leads to; "/" has those behind one property with an empty name. */
  lemma RootTrails(labels: Labels, document: Json, reference: string, kind: Json)
    ensures ("", kind) in Pairs(labels, document, reference) <==> LeadsThrough(labels, document, reference, [], kind)
    ensures ("/", kind) in Pairs(labels, document, reference) <==> LeadsThrough(labels, document, reference, [""], kind)
  {
    hide Leads, Recorded, Suffix;
    var root := Root(reference);
    forall trail | Leads(labels, document, root, 0, {}, trail, kind)
      ensures "" + Suffix(trail) == Joined(Segments(trail))
    {
      LeadsFollows(labels, document, root, trail, kind);
      SuffixIsJoined(document, root, trail);
    }
    RecordedIsReachable(labels, document, root, "", 0, {}, ("", kind));
    RecordedIsReachable(labels, document, root, "", 0, {}, ("/", kind));
    forall trail
      ensures Joined(Segments(trail)) == "" <==> Segments(trail) == []
      ensures Joined(Segments(trail)) == "/" <==> Segments(trail) == [""]
    {
      JoinedApart(Segments(trail));
    }
  }

  lemma LeadsFollows(labels: Labels, document: Json, schema: Json, trail: seq<Hop>, kind: Json)
    requires Leads(labels, document, schema, 0, {}, trail, kind)
    ensures Follow(document, schema, trail).Some?
  {
  }

  ghost predicate NoBars(labels: Labels, document: Json, reference: string) {
    forall trail, kind :: Leads(labels, document, Root(reference), 0, {}, trail, kind) ==>
      kind.Str? && BarFree(kind.text)
  }

  ghost predicate Occurs(labels: Labels, document: Json, reference: string, segments: seq<string>) {
    exists kind :: LeadsThrough(labels, document, reference, segments, kind)
  }

  /** The root and a property of it with an empty name are printed as one path, and have different kinds. */
  ghost predicate Clash(labels: Labels, document: Json, reference: string) {
    && Occurs(labels, document, reference, []) && Occurs(labels, document, reference, [""])
    && exists kind ::
         LeadsThrough(labels, document, reference, [], kind) != LeadsThrough(labels, document, reference, [""], kind)
  }

  /** The printed field tree says what was recorded exactly when no reachable kind contains a bar and no property with
      an empty name at the root has a kind. */
  lemma TreeReadable(labels: Labels, document: Json, reference: string)
    requires Printable(Pairs(labels, document, reference))
    ensures Decode(Printed(Pairs(labels, document, reference))) == Pairs(labels, document, reference) <==>
              NoBars(labels, document, reference) && !Occurs(labels, document, reference, [""])
  {
    hide Pairs, Printed, BarFree, NoBars, KindsAt, Decode, Printable, LeadsThrough;
    var pairs := Pairs(labels, document, reference);
    DecodeExactly(pairs);
    BarsReachable(labels, document, reference);
    KindsSome(pairs, "/");
    forall kind
      ensures ("/", kind) in pairs <==> LeadsThrough(labels, document, reference, [""], kind)
    {
      RootTrails(labels, document, reference, kind);
    }
  }

  /** Every recorded path is found in the printed tree with its own kinds exactly when no reachable kind contains a bar
      and the root does not clash with a property with an empty name. */
  lemma TreeFound(labels: Labels, document: Json, reference: string)
    requires Printable(Pairs(labels, document, reference))
    ensures Found(Pairs(labels, document, reference)) <==>
              NoBars(labels, document, reference) && !Clash(labels, document, reference)
  {
    hide Leads, Pairs, Printed, BarFree, NoBars, Clash, KindsAt;
    FoundExactly(Pairs(labels, document, reference));
    BarsReachable(labels, document, reference);
    ClashExactly(labels, document, reference);
  }

  lemma ClashExactly(labels: Labels, document: Json, reference: string)
    requires Printable(Pairs(labels, document, reference))
    ensures var pairs := Pairs(labels, document, reference);
            Clash(labels, document, reference) <==>
              KindsAt(pairs, "") != {} && KindsAt(pairs, "/") != {} && KindsAt(pairs, "") != KindsAt(pairs, "/")
  {
    hide LeadsThrough, Pairs, KindsAt, Printable;
    var pairs := Pairs(labels, document, reference);
    forall kind
      ensures ("", kind) in pairs <==> LeadsThrough(labels, document, reference, [], kind)
      ensures ("/", kind) in pairs <==> LeadsThrough(labels, document, reference, [""], kind)
    {
      RootTrails(labels, document, reference, kind);
    }
    KindsSome(pairs, "");
    KindsSome(pairs, "/");
    SameKinds(pairs, "", "/");
  }

  lemma BarsReachable(labels: Labels, document: Json, reference: string)
    requires Printable(Pairs(labels, document, reference))
    ensures NoBars(labels, document, reference) <==> AllBarFree(Pairs(labels, document, reference))
  {
    hide Leads, Recorded, BarFree;
    var pairs := Pairs(labels, document, reference);
    forall trail, kind | Leads(labels, document, Root(reference), 0, {}, trail, kind)
      ensures ("" + Suffix(trail), kind) in pairs
    {
      TrailRecorded(labels, document, Root(reference), "", 0, {}, trail, kind);
    }
    forall pair | pair in pairs
      ensures exists trail :: Leads(labels, document, Root(reference), 0, {}, trail, pair.1)
    {
      var trail := RecordedHasTrail(labels, document, Root(reference), "", 0, {}, pair);
    }
  }

  lemma KindsSome(pairs: set<Pair>, p: string)
    requires Printable(pairs)
    ensures KindsAt(pairs, p) != {} <==> exists kind :: (p, kind) in pairs
  {
    if x :| x in KindsAt(pairs, p) {
      var pair :| pair in pairs && pair.0 == p && pair.1.Str? && pair.1.text == x;
      assert (p, pair.1) in pairs;
    }
    if kind :| (p, kind) in pairs {
      assert kind.text in KindsAt(pairs, p);
    }
  }

  lemma SameKinds(pairs: set<Pair>, p: string, q: string)
    requires Printable(pairs)
    ensures KindsAt(pairs, p) == KindsAt(pairs, q) <==> forall kind :: (p, kind) in pairs <==> (q, kind) in pairs
  {
    KindsText(pairs, p);
    KindsText(pairs, q);
    forall r, kind | (r, kind) in pairs
      ensures kind == Str(kind.text)
    {
    }
    if KindsAt(pairs, p) == KindsAt(pairs, q) {
      forall kind
        ensures (p, kind) in pairs <==> (q, kind) in pairs
      {
        if kind.Str? {
          assert kind.text in KindsAt(pairs, p) <==> kind.text in KindsAt(pairs, q);
        }
      }
    }
  }

  lemma KindsText(pairs: set<Pair>, p: string)
    ensures forall x :: x in KindsAt(pairs, p) <==> (p, Str(x)) in pairs
  {
    forall x | x in KindsAt(pairs, p)
      ensures (p, Str(x)) in pairs
    {
      var pair :| pair in pairs && pair.0 == p && pair.1.Str? && pair.1.text == x;
      assert pair == (p, Str(x));
    }
  }

  predicate NonEmpty(name: string) {
    name != ""
  }

  /** Where no property has an empty name, nothing is recorded for one and there is no clash. */
  lemma NamedNoClash(labels: Labels, document: Json, reference: string)
    requires Named(document, NonEmpty)
    ensures !Occurs(labels, document, reference, [""]) && !Clash(labels, document, reference)
  {
    hide Leads, Named;
    var root := Root(reference);
    RootNamed(reference);
    forall trail, kind | Leads(labels, document, root, 0, {}, trail, kind)
      ensures Segments(trail) != [""]
    {
      LeadsFollows(labels, document, root, trail, kind);
      TrailNamed(document, root, trail, NonEmpty);
      assert Segments(trail) == [""] ==> "" in Segments(trail);
    }
  }

  lemma RootNamed(reference: string)
    ensures Named(Root(reference), NonEmpty)
  {
    assert Named(Str(reference), NonEmpty);
  }
}
