/** What a schema walk records, said without the walk: trails of references and subschemas. */
module SchemaTrails {
  import opened Options
  import opened SchemaWalk

  // ----- Trails: what a walk records, without the walk -----

  datatype Hop = Reference | Into(child: Child)

  /** Where a trail of references and subschemas leads, with no regard to depth or to what was seen before. */
  ghost function Follow(document: Json, schema: Json, trail: seq<Hop>): Option<Json>
    decreases |trail|
  {
    if trail == [] then Some(schema)
    else if !schema.Obj? then None
    else
      match trail[0]
      case Reference =>
        if IsRef(schema) && Resolve(document, Target(schema)).Some?
        then Follow(document, Resolve(document, Target(schema)).value, trail[1..]) else None
      case Into(c) => if !IsRef(schema) && c in Children(schema) then Follow(document, c.schema, trail[1..]) else None
  }

  /** The names of the references a trail follows. */
  ghost function Names(document: Json, schema: Json, trail: seq<Hop>): seq<string>
    requires Follow(document, schema, trail).Some?
    decreases |trail|
  {
    if trail == [] then []
    else
      match trail[0]
      case Reference =>
        [RefName(Target(schema))] + Names(document, Resolve(document, Target(schema)).value, trail[1..])
      case Into(c) => Names(document, c.schema, trail[1..])
  }

  ghost function Suffix(trail: seq<Hop>): string {
    if trail == [] then "" else (if trail[0].Into? then trail[0].child.suffix else "") + Suffix(trail[1..])
  }

  ghost function Levels(trail: seq<Hop>): nat {
    if trail == [] then 0 else (if trail[0].Into? && trail[0].child.deeper then 1 else 0) + Levels(trail[1..])
  }

  ghost predicate Fresh(names: seq<string>, stack: set<string>) {
    Distinct(names) && forall n :: n in names ==> n !in stack
  }

  ghost function SetOf(names: seq<string>): set<string> {
    set n | n in names
  }

  /** What a node records at its own path: a repeated reference by its name, anything else by its kinds. */
  ghost function KindsHere(labels: Labels, node: Json, seen: set<string>): set<Json>
    requires node.Obj?
  {
    if !IsRef(node) then LocalKinds(labels, node)
    else if RefName(Target(node)) in seen then {Str("ref:" + RefName(Target(node)))}
    else {}
  }

  /** A trail of at most MAX_DEPTH levels that repeats no reference leads to a node of this kind. */
  ghost predicate Leads(labels: Labels, document: Json, schema: Json, depth: nat, stack: set<string>, trail: seq<Hop>,
                        kind: Json) {
    var end := Follow(document, schema, trail);
    && end.Some? && end.value.Obj?
    && depth + Levels(trail) <= MAX_DEPTH
    && Fresh(Names(document, schema, trail), stack)
    && kind in KindsHere(labels, end.value, stack + SetOf(Names(document, schema, trail)))
  }

  predicate Distinct(names: seq<string>) {
    forall i, j :: 0 <= i < j < |names| ==> names[i] != names[j]
  }

  lemma DistinctCons(name: string, names: seq<string>)
    ensures Distinct([name] + names) <==> name !in names && Distinct(names)
  {
    var all := [name] + names;
    assert all[1..] == names;
    if Distinct(all) {
      forall i | 0 <= i < |names|
        ensures names[i] != name
      {
        assert all[0] == name && all[i + 1] == names[i];
      }
      forall i, j | 0 <= i < j < |names|
        ensures names[i] != names[j]
      {
        assert all[i + 1] == names[i] && all[j + 1] == names[j];
      }
    }
  }

  lemma FreshCons(name: string, names: seq<string>, stack: set<string>)
    ensures Fresh([name] + names, stack) <==> name !in stack && Fresh(names, stack + {name})
    ensures stack + SetOf([name] + names) == stack + {name} + SetOf(names)
  {
    hide Distinct;
    DistinctCons(name, names);
  }

  lemma LeadsCons(labels: Labels, document: Json, schema: Json, depth: nat, stack: set<string>, hop: Hop,
                  rest: seq<Hop>, kind: Json)
    requires schema.Obj?
    ensures Leads(labels, document, schema, depth, stack, [hop] + rest, kind) <==> (
              match hop
              case Reference =>
                && IsRef(schema) && RefName(Target(schema)) !in stack && Resolve(document, Target(schema)).Some?
                && Leads(labels, document, Resolve(document, Target(schema)).value, depth,
                         stack + {RefName(Target(schema))}, rest, kind)
              case Into(c) =>
                && !IsRef(schema) && c in Children(schema)
                && Leads(labels, document, c.schema, Deeper(depth, c), stack, rest, kind))
    ensures Suffix([hop] + rest) == (if hop.Into? then hop.child.suffix else "") + Suffix(rest)
  {
    hide LocalKinds, Children, Resolve, Fresh, SetOf, KindsHere;
    var trail := [hop] + rest;
    assert trail[0] == hop && trail[1..] == rest;
    if hop.Reference? && IsRef(schema) && Resolve(document, Target(schema)).Some?
       && Follow(document, Resolve(document, Target(schema)).value, rest).Some? {
      FreshCons(RefName(Target(schema)), Names(document, Resolve(document, Target(schema)).value, rest), stack);
    }
  }

  lemma {:induction false} RecordedHasTrail(labels: Labels, document: Json, schema: Json, path: string, depth: nat,
                                            stack: set<string>, pair: Pair) returns (trail: seq<Hop>)
    requires pair in Recorded(labels, document, schema, path, depth, stack)
    ensures pair.0 == path + Suffix(trail) && Leads(labels, document, schema, depth, stack, trail, pair.1)
    decreases |Unseen(document, schema, stack)|, schema
  {
    hide LocalKinds, Children, Resolve, Unseen, RefNames, Leads;
    if IsRef(schema) {
      var name := RefName(Target(schema));
      if name in stack {
        trail := [];
        LeadsHere(labels, document, schema, depth, stack, pair.1);
      } else {
        FollowingSpends(document, schema, stack);
        var rest := RecordedHasTrail(labels, document, Resolve(document, Target(schema)).value, path, depth,
                                     stack + {name}, pair);
        LeadsCons(labels, document, schema, depth, stack, Reference, rest, pair.1);
        trail := [Reference] + rest;
      }
    } else {
      RecordedParts(labels, document, schema, path, depth, stack);
      if pair in At(path, LocalKinds(labels, schema)) {
        trail := [];
        LeadsHere(labels, document, schema, depth, stack, pair.1);
      } else {
        var c :| c in Children(schema)
                 && pair in Recorded(labels, document, c.schema, path + c.suffix, Deeper(depth, c), stack);
        Fewer(document, schema, c.schema, stack);
        var rest := RecordedHasTrail(labels, document, c.schema, path + c.suffix, Deeper(depth, c), stack, pair);
        LeadsCons(labels, document, schema, depth, stack, Into(c), rest, pair.1);
        trail := [Into(c)] + rest;
        assert path + c.suffix + Suffix(rest) == path + Suffix(trail);
      }
    }
  }

  lemma LeadsHere(labels: Labels, document: Json, schema: Json, depth: nat, stack: set<string>, kind: Json)
    requires schema.Obj?
    ensures Leads(labels, document, schema, depth, stack, [], kind)
        <==> depth <= MAX_DEPTH && kind in KindsHere(labels, schema, stack)
  {
    assert stack + SetOf([]) == stack;
  }

  lemma {:induction false} TrailRecorded(labels: Labels, document: Json, schema: Json, path: string, depth: nat,
                                         stack: set<string>, trail: seq<Hop>, kind: Json)
    requires Leads(labels, document, schema, depth, stack, trail, kind)
    ensures (path + Suffix(trail), kind) in Recorded(labels, document, schema, path, depth, stack)
    decreases |trail|
  {
    hide LocalKinds, Children, Resolve, Unseen, RefNames;
    if trail == [] {
      LeadsHere(labels, document, schema, depth, stack, kind);
      assert path + "" == path;
    } else {
      var hop, rest := trail[0], trail[1..];
      assert trail == [hop] + rest;
      LeadsCons(labels, document, schema, depth, stack, hop, rest, kind);
      match hop
      case Reference =>
        var name := RefName(Target(schema));
        TrailRecorded(labels, document, Resolve(document, Target(schema)).value, path, depth, stack + {name}, rest,
                      kind);
        assert path + Suffix(trail) == path + Suffix(rest);
      case Into(c) =>
        TrailRecorded(labels, document, c.schema, path + c.suffix, Deeper(depth, c), stack, rest, kind);
        assert path + c.suffix + Suffix(rest) == path + Suffix(trail);
    }
  }

  /** A walk records exactly what some trail leads to: nothing depends on the order in which it explores. */
  lemma RecordedIsReachable(labels: Labels, document: Json, schema: Json, path: string, depth: nat, stack: set<string>,
                            pair: Pair)
    ensures pair in Recorded(labels, document, schema, path, depth, stack)
        <==> exists trail ::
               pair.0 == path + Suffix(trail) && Leads(labels, document, schema, depth, stack, trail, pair.1)
  {
    hide Leads, Recorded, Suffix;
    if pair in Recorded(labels, document, schema, path, depth, stack) {
      var trail := RecordedHasTrail(labels, document, schema, path, depth, stack, pair);
    }
    forall trail | pair.0 == path + Suffix(trail) && Leads(labels, document, schema, depth, stack, trail, pair.1)
      ensures pair in Recorded(labels, document, schema, path, depth, stack)
    {
      TrailRecorded(labels, document, schema, path, depth, stack, trail, pair.1);
    }
  }

  // ----- Depth -----

  ghost function Joined(segments: seq<string>): string {
    if segments == [] then "" else "/" + segments[0] + Joined(segments[1..])
  }

  /** The path segments a trail adds: a property's name, or the marks of items and additional properties. */
  ghost function Segments(trail: seq<Hop>): seq<string> {
    if trail == [] then []
    else
      var rest := Segments(trail[1..]);
      if trail[0].Into? && trail[0].child.deeper && trail[0].child.suffix != "" then [trail[0].child.suffix[1..]] + rest
      else rest
  }

  lemma ChildSuffix(schema: Json, c: Child)
    requires schema.Obj? && c in Children(schema)
    ensures if c.deeper then c.suffix != "" && c.suffix[0] == '/' else c.suffix == ""
  {
    hide VariantsUpTo;
    forall d | d in VariantsUpTo(schema, 3)
      ensures !d.deeper && d.suffix == ""
    {
      VariantSuffix(schema, 3, d);
    }
  }

  lemma {:induction false} VariantSuffix(schema: Json, count: nat, c: Child)
    requires schema.Obj? && count <= 3 && c in VariantsUpTo(schema, count)
    ensures !c.deeper && c.suffix == ""
  {
    if c in VariantsUpTo(schema, count - 1) {
      VariantSuffix(schema, count - 1, c);
    }
  }

  lemma {:induction false} SuffixIsJoined(document: Json, schema: Json, trail: seq<Hop>)
    requires Follow(document, schema, trail).Some?
    ensures Suffix(trail) == Joined(Segments(trail)) && |Segments(trail)| == Levels(trail)
    decreases |trail|
  {
    hide Children, Resolve;
    if trail != [] {
      var rest := trail[1..];
      match trail[0]
      case Reference => SuffixIsJoined(document, Resolve(document, Target(schema)).value, rest);
      case Into(c) =>
        SuffixIsJoined(document, c.schema, rest);
        ChildSuffix(schema, c);
        if c.deeper {
          assert c.suffix == "/" + c.suffix[1..];
          assert ([c.suffix[1..]] + Segments(rest))[1..] == Segments(rest);
        }
    }
  }

  function Slashes(s: string): nat {
    if s == "" then 0 else (if s[0] == '/' then 1 else 0) + Slashes(s[1..])
  }

  function AllSlashes(segments: seq<string>): nat {
    if segments == [] then 0 else Slashes(segments[0]) + AllSlashes(segments[1..])
  }

  lemma {:induction false} SlashesAppend(a: string, b: string)
    ensures Slashes(a + b) == Slashes(a) + Slashes(b)
  {
    if a == "" {
      assert a + b == b;
    } else {
      assert (a + b)[1..] == a[1..] + b;
      SlashesAppend(a[1..], b);
    }
  }

  lemma {:induction false} SlashesJoined(segments: seq<string>)
    ensures Slashes(Joined(segments)) == |segments| + AllSlashes(segments)
  {
    if segments != [] {
      var first, rest := "/" + segments[0], Joined(segments[1..]);
      SlashesJoined(segments[1..]);
      SlashesAppend("/", segments[0]);
      SlashesAppend(first, rest);
      assert "/"[1..] == "";
      assert Slashes("/") == 1;
    }
  }

  /** Every recorded pair comes from a trail, whose segments, never more than MAX_DEPTH in all, are what its path adds;
      so the slashes in that path are one for every level and those inside the names. */
  lemma DepthBound(labels: Labels, document: Json, schema: Json, path: string, depth: nat, stack: set<string>,
                   pair: Pair)
    returns (trail: seq<Hop>)
    requires pair in Recorded(labels, document, schema, path, depth, stack)
    ensures Leads(labels, document, schema, depth, stack, trail, pair.1)
    ensures pair.0 == path + Joined(Segments(trail)) && |Segments(trail)| == Levels(trail) <= MAX_DEPTH - depth
    ensures Slashes(pair.0) == Slashes(path) + Levels(trail) + AllSlashes(Segments(trail))
  {
    hide Recorded, Children, KindsHere, Fresh;
    trail := RecordedHasTrail(labels, document, schema, path, depth, stack, pair);
    SuffixIsJoined(document, schema, trail);
    SlashesJoined(Segments(trail));
    SlashesAppend(path, Joined(Segments(trail)));
  }

  // ----- Property names -----

  /** Every property name anywhere in a value meets a condition. */
  ghost predicate Named(j: Json, ok: string -> bool) {
    match j
    case Arr(items) => forall i :: 0 <= i < |items| ==> Named(items[i], ok)
    case Obj(fields) =>
      && (Properties(j).Some? ==> forall n :: n in Properties(j).value ==> ok(n))
      && (forall k :: k in fields ==> Named(fields[k], ok))
    case _ => true
  }

  lemma {:induction false} DescendNamed(node: Json, parts: seq<string>, ok: string -> bool)
    requires Descend(node, parts).Some? && Named(node, ok)
    ensures Named(Descend(node, parts).value, ok)
    decreases |parts|
  {
    if parts != [] {
      DescendNamed(node.fields[parts[0]], parts[1..], ok);
    }
  }

  lemma FieldNamed(schema: Json, key: string, ok: string -> bool)
    requires schema.Obj? && key in schema.fields && Named(schema, ok)
    ensures Named(schema.fields[key], ok)
  {
  }

  lemma VariantNamed(schema: Json, key: string, c: Child, ok: string -> bool)
    requires schema.Obj? && Named(schema, ok) && c in VariantsOf(schema, key)
    ensures Named(c.schema, ok) && !c.deeper
  {
    FieldNamed(schema, key, ok);
    var list := schema.fields[key];
    assert Named(list, ok);
  }

  predicate Segment(name: string, ok: string -> bool) {
    ok(name) || name == "[]" || name == "{}"
  }

  lemma ChildNamed(schema: Json, c: Child, ok: string -> bool)
    requires schema.Obj? && Named(schema, ok) && c in Children(schema)
    ensures Named(c.schema, ok) && (c.deeper ==> c.suffix != "" && Segment(c.suffix[1..], ok))
  {
    hide VariantsOf;
    if c in VariantsUpTo(schema, 3) {
      VariantsNamed(schema, 3, c, ok);
    } else if c in PropertyChildren(schema) {
      FieldNamed(schema, "properties", ok);
      var n :| n in Properties(schema).value && c == Child(Properties(schema).value[n], "/" + n, true);
      FieldNamed(schema.fields["properties"], n, ok);
      assert c.suffix[1..] == n;
    } else if c in ObjectChild(schema, "items", "/[]") {
      FieldNamed(schema, "items", ok);
      assert c.suffix[1..] == "[]";
    } else {
      FieldNamed(schema, "additionalProperties", ok);
      assert c.suffix[1..] == "{}";
    }
  }

  lemma {:induction false} VariantsNamed(schema: Json, count: nat, c: Child, ok: string -> bool)
    requires schema.Obj? && Named(schema, ok) && count <= 3 && c in VariantsUpTo(schema, count)
    ensures Named(c.schema, ok) && !c.deeper
  {
    if c in VariantsUpTo(schema, count - 1) {
      VariantsNamed(schema, count - 1, c, ok);
    } else {
      VariantNamed(schema, VARIANTS[count - 1], c, ok);
    }
  }

  lemma {:induction false} TrailNamed(document: Json, schema: Json, trail: seq<Hop>, ok: string -> bool)
    requires Follow(document, schema, trail).Some? && Named(document, ok) && Named(schema, ok)
    ensures forall s :: s in Segments(trail) ==> Segment(s, ok)
    decreases |trail|
  {
    hide Children, Named, Segment, ReferenceParts;
    if trail != [] {
      match trail[0]
      case Reference =>
        DescendNamed(document, ReferenceParts(Target(schema)), ok);
        TrailNamed(document, Resolve(document, Target(schema)).value, trail[1..], ok);
      case Into(c) =>
        ChildNamed(schema, c, ok);
        TrailNamed(document, c.schema, trail[1..], ok);
    }
  }

  predicate NoSlash(name: string) {
    Slashes(name) == 0
  }

  lemma {:induction false} NoSlashes(segments: seq<string>)
    requires forall s :: s in segments ==> Segment(s, NoSlash)
    ensures AllSlashes(segments) == 0
  {
    if segments != [] {
      NoSlashes(segments[1..]);
      assert segments[0] in segments;
      assert "[]"[1..] == "]" && "{}"[1..] == "}" && "]"[1..] == "" && "}"[1..] == "";
      assert Slashes("]") == 0 && Slashes("}") == 0;
    }
  }

  /** Where no property name holds a slash, a recorded path has at most MAX_DEPTH slashes below the root. */
  lemma SlashBound(labels: Labels, document: Json, schema: Json, path: string, depth: nat, stack: set<string>,
                   pair: Pair)
    requires pair in Recorded(labels, document, schema, path, depth, stack)
    requires Named(document, NoSlash) && Named(schema, NoSlash)
    ensures Slashes(pair.0) <= Slashes(path) + MAX_DEPTH - depth
  {
    hide Recorded, Named, KindsHere, Fresh;
    var trail := DepthBound(labels, document, schema, path, depth, stack, pair);
    TrailNamed(document, schema, trail, NoSlash);
    NoSlashes(Segments(trail));
  }
}
