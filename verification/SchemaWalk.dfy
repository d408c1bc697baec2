/** Flattening a JSON schema with cyclic references into a table of paths and kinds. */
module SchemaWalk {
  import opened Options
  import opened Splitting

  datatype Json =
    | Null
    | Bool(value: bool)
    | Num(number: real)
    | Str(text: string)
    | Arr(items: seq<Json>)
    | Obj(fields: map<string, Json>)

  /** How enum and const values are printed; an enum that cannot be iterated has no label. */
  datatype Labels = Labels(enumOf: Json -> Option<string>, constOf: Json -> string)

  type Pair = (string, Json)

  const MAX_DEPTH := 6

  const VARIANTS := ["allOf", "anyOf", "oneOf"]

  // ----- References -----

  function ReferenceParts(reference: string): seq<string> {
    Split(if |reference| >= 2 && reference[..2] == "#/" then reference[2..] else reference, '/')
  }

  function RefName(reference: string): string {
    var parts := Split(reference, '/');
    parts[|parts| - 1]
  }

  /** Only an object can be entered by name; anything else raises. */
  function Descend(node: Json, parts: seq<string>): Option<Json> {
    if parts == [] then Some(node)
    else if node.Obj? && parts[0] in node.fields then Descend(node.fields[parts[0]], parts[1..])
    else None
  }

  function Resolve(document: Json, reference: string): Option<Json> {
    Descend(document, ReferenceParts(reference))
  }

  predicate IsRef(schema: Json) {
    schema.Obj? && "$ref" in schema.fields && schema.fields["$ref"].Str?
  }

  function Target(schema: Json): string
    requires IsRef(schema)
  {
    schema.fields["$ref"].text
  }

  /** The names of all references inside a value. */
  ghost function RefNames(j: Json): set<string> {
    match j
    case Arr(items) => set i, n | 0 <= i < |items| && n in RefNames(items[i]) :: n
    case Obj(fields) =>
      (if IsRef(j) then {RefName(Target(j))} else {}) + set k, n | k in fields && n in RefNames(fields[k]) :: n
    case _ => {}
  }

  /** The reference names a walk from here may still put on its stack. */
  ghost function Unseen(document: Json, schema: Json, stack: set<string>): set<string> {
    RefNames(document) + RefNames(schema) - stack
  }

  lemma Fewer(document: Json, schema: Json, child: Json, stack: set<string>)
    requires RefNames(child) <= RefNames(schema)
    ensures |Unseen(document, child, stack)| <= |Unseen(document, schema, stack)|
  {
    Subset(Unseen(document, child, stack), Unseen(document, schema, stack));
  }

  lemma Subset(a: set<string>, b: set<string>)
    requires a <= b
    ensures |a| <= |b|
    ensures a != b ==> |a| < |b|
  {
    assert b == a + (b - a);
    assert |b| == |a| + |b - a|;
  }

  lemma {:induction false} DescendNames(node: Json, parts: seq<string>)
    requires Descend(node, parts).Some?
    ensures RefNames(Descend(node, parts).value) <= RefNames(node)
    decreases |parts|
  {
    if parts != [] {
      DescendNames(node.fields[parts[0]], parts[1..]);
    }
  }

  /** Following a reference spends its name: this is why a walk over cyclic references ends. */
  lemma FollowingSpends(document: Json, schema: Json, stack: set<string>)
    requires IsRef(schema) && RefName(Target(schema)) !in stack && Resolve(document, Target(schema)).Some?
    ensures var target := Resolve(document, Target(schema)).value;
            |Unseen(document, target, stack + {RefName(Target(schema))})| < |Unseen(document, schema, stack)|
  {
    var name := RefName(Target(schema));
    var target := Resolve(document, Target(schema)).value;
    DescendNames(document, ReferenceParts(Target(schema)));
    assert name in Unseen(document, schema, stack);
    Subset(Unseen(document, target, stack + {name}), Unseen(document, schema, stack));
  }

  // ----- One node -----

  /** The subschemas a node leads to, each with the text it adds to the path and the depth it adds. */
  datatype Child = Child(schema: Json, suffix: string, deeper: bool)

  /** What a variant list contributes: items of a list; the keys or characters of an object or a string are not
      schemas; anything else raises. */
  function VariantList(schema: Json, key: string): Option<seq<Json>>
    requires schema.Obj?
  {
    if key !in schema.fields then Some([])
    else
      match schema.fields[key]
      case Arr(items) => Some(items)
      case Obj(_) => Some([])
      case Str(_) => Some([])
      case _ => None
  }

  function Properties(schema: Json): Option<map<string, Json>>
    requires schema.Obj?
  {
    if "properties" !in schema.fields then Some(map[])
    else if schema.fields["properties"].Obj? then Some(schema.fields["properties"].fields)
    else None
  }

  predicate HasObject(schema: Json, key: string)
    requires schema.Obj?
  {
    key in schema.fields && schema.fields[key].Obj?
  }

  predicate Truthy(j: Json) {
    match j
    case Null => false
    case Bool(b) => b
    case Num(n) => n != 0.0
    case Str(s) => s != ""
    case Arr(items) => items != []
    case Obj(fields) => fields != map[]
  }

  predicate Hashable(j: Json) {
    !j.Arr? && !j.Obj?
  }

  function TypeKinds(schema: Json): seq<Json>
    requires schema.Obj?
  {
    if "type" !in schema.fields then []
    else
      var kinds := schema.fields["type"];
      if kinds.Arr? then kinds.items else if Truthy(kinds) then [kinds] else []
  }

  function Enum(labels: Labels, schema: Json): Option<string>
    requires schema.Obj?
  {
    if "enum" in schema.fields then labels.enumOf(schema.fields["enum"]) else Some("")
  }

  /** The kinds a node that is not a reference records at its own path. */
  ghost function LocalKinds(labels: Labels, schema: Json): set<Json>
    requires schema.Obj?
  {
    (if "enum" in schema.fields && Enum(labels, schema).Some? then {Str("enum:" + Enum(labels, schema).value)} else {})
    + (if "const" in schema.fields then {Str("enum:" + labels.constOf(schema.fields["const"]))} else {})
    + (set k | k in TypeKinds(schema) && Hashable(k))
  }

  ghost predicate LocalFails(labels: Labels, schema: Json)
    requires schema.Obj?
  {
    || Enum(labels, schema).None?
    || (exists k :: k in TypeKinds(schema) && !Hashable(k))
    || (exists i :: 0 <= i < |VARIANTS| && VariantList(schema, VARIANTS[i]).None?)
    || Properties(schema).None?
  }

  lemma FieldBelow(schema: Json, key: string)
    requires schema.Obj? && key in schema.fields
    ensures (schema decreases to schema.fields[key]) && RefNames(schema.fields[key]) <= RefNames(schema)
  {
  }

  lemma ItemBelow(list: Json, j: nat)
    requires list.Arr? && j < |list.items|
    ensures (list decreases to list.items[j]) && RefNames(list.items[j]) <= RefNames(list)
  {
  }

  lemma VariantBelow(schema: Json, key: string, j: nat)
    requires schema.Obj? && VariantList(schema, key).Some? && j < |VariantList(schema, key).value|
    ensures var item := VariantList(schema, key).value[j];
            (schema decreases to item) && RefNames(item) <= RefNames(schema)
  {
    hide RefNames;
    FieldBelow(schema, key);
    ItemBelow(schema.fields[key], j);
  }

  lemma PropertyBelow(schema: Json, n: string)
    requires schema.Obj? && Properties(schema).Some? && n in Properties(schema).value
    ensures var item := Properties(schema).value[n]; (schema decreases to item) && RefNames(item) <= RefNames(schema)
  {
    hide RefNames;
    FieldBelow(schema, "properties");
    FieldBelow(schema.fields["properties"], n);
  }

  /** A node's subschemas. */
  ghost function Children(schema: Json): (r: set<Child>)
    requires schema.Obj?
    ensures forall c :: c in r ==> (schema decreases to c.schema) && RefNames(c.schema) <= RefNames(schema)
  {
    VariantsUpTo(schema, 3) + PropertyChildren(schema)
    + ObjectChild(schema, "items", "/[]") + ObjectChild(schema, "additionalProperties", "/{}")
  }

  ghost function ObjectChild(schema: Json, key: string, suffix: string): (r: set<Child>)
    requires schema.Obj?
    ensures forall c :: c in r ==> (schema decreases to c.schema) && RefNames(c.schema) <= RefNames(schema)
  {
    if HasObject(schema, key) then {Child(schema.fields[key], suffix, true)} else {}
  }

  ghost function VariantsOf(schema: Json, key: string): (r: set<Child>)
    requires schema.Obj?
    ensures forall c :: c in r ==> (schema decreases to c.schema) && RefNames(c.schema) <= RefNames(schema)
  {
    var list := VariantList(schema, key);
    assert forall j :: list.Some? && 0 <= j < |list.value| ==>
        (schema decreases to list.value[j]) && RefNames(list.value[j]) <= RefNames(schema) by {
      forall j | list.Some? && 0 <= j < |list.value|
        ensures (schema decreases to list.value[j]) && RefNames(list.value[j]) <= RefNames(schema)
      {
        VariantBelow(schema, key, j);
      }
    }
    if list.None? then {} else set j | 0 <= j < |list.value| :: Child(list.value[j], "", false)
  }

  /** The subschemas of the first few variant lists. */
  ghost function VariantsUpTo(schema: Json, count: nat): (r: set<Child>)
    requires schema.Obj? && count <= |VARIANTS|
    ensures forall c :: c in r ==> (schema decreases to c.schema) && RefNames(c.schema) <= RefNames(schema)
  {
    if count == 0 then {} else VariantsUpTo(schema, count - 1) + VariantsOf(schema, VARIANTS[count - 1])
  }

  ghost function PropertyChildren(schema: Json): (r: set<Child>)
    requires schema.Obj?
    ensures forall c :: c in r ==> (schema decreases to c.schema) && RefNames(c.schema) <= RefNames(schema)
  {
    var table := Properties(schema);
    assert forall n :: table.Some? && n in table.value ==>
        (schema decreases to table.value[n]) && RefNames(table.value[n]) <= RefNames(schema) by {
      forall n | table.Some? && n in table.value
        ensures (schema decreases to table.value[n]) && RefNames(table.value[n]) <= RefNames(schema)
      {
        PropertyBelow(schema, n);
      }
    }
    if table.None? then {} else set n | n in table.value :: Child(table.value[n], "/" + n, true)
  }

  lemma ChildrenFewer(document: Json, schema: Json, stack: set<string>)
    requires schema.Obj?
    ensures forall c :: c in Children(schema) ==>
              |Unseen(document, c.schema, stack)| <= |Unseen(document, schema, stack)|
  {
    forall c | c in Children(schema)
      ensures |Unseen(document, c.schema, stack)| <= |Unseen(document, schema, stack)|
    {
      Fewer(document, schema, c.schema, stack);
    }
  }

  // ----- The whole walk -----

  function Deeper(depth: nat, c: Child): nat {
    if c.deeper then depth + 1 else depth
  }

  /** A walk that goes no further: not a schema, or too deep. */
  predicate Stops(schema: Json, depth: nat) {
    !schema.Obj? || depth > MAX_DEPTH
  }

  /** Exactly when a walk raises. */
  ghost predicate Fails(labels: Labels, document: Json, schema: Json, depth: nat, stack: set<string>)
    decreases |Unseen(document, schema, stack)|, schema
  {
    if Stops(schema, depth) then false
    else if IsRef(schema) then
      var name := RefName(Target(schema));
      if name in stack then false
      else if Resolve(document, Target(schema)).None? then true
      else
        FollowingSpends(document, schema, stack);
        Fails(labels, document, Resolve(document, Target(schema)).value, depth, stack + {name})
    else
      ChildrenFewer(document, schema, stack);
      LocalFails(labels, schema)
      || exists c :: c in Children(schema) && Fails(labels, document, c.schema, Deeper(depth, c), stack)
  }

  /** What a walk adds to the table. */
  ghost function Recorded(labels: Labels, document: Json, schema: Json, path: string, depth: nat,
                          stack: set<string>): set<Pair>
    decreases |Unseen(document, schema, stack)|, schema
  {
    if Stops(schema, depth) then {}
    else if IsRef(schema) then
      var name := RefName(Target(schema));
      if name in stack then {(path, Str("ref:" + name))}
      else if Resolve(document, Target(schema)).None? then {}
      else
        FollowingSpends(document, schema, stack);
        Recorded(labels, document, Resolve(document, Target(schema)).value, path, depth, stack + {name})
    else
      ChildrenFewer(document, schema, stack);
      (set k | k in LocalKinds(labels, schema) :: (path, k))
      + (set c, pair | c in Children(schema)
           && pair in Recorded(labels, document, c.schema, path + c.suffix, Deeper(depth, c), stack) :: pair)
  }

  /** What a set of subschemas adds. */
  ghost function Gathered(labels: Labels, document: Json, cs: set<Child>, path: string, depth: nat,
                          stack: set<string>): set<Pair> {
    set c, pair | c in cs
                  && pair in Recorded(labels, document, c.schema, path + c.suffix, Deeper(depth, c), stack) :: pair
  }

  ghost predicate AnyFails(labels: Labels, document: Json, cs: set<Child>, depth: nat, stack: set<string>) {
    exists c :: c in cs && Fails(labels, document, c.schema, Deeper(depth, c), stack)
  }

  lemma GatheredMore(labels: Labels, document: Json, cs: set<Child>, c: Child, path: string, depth: nat,
                     stack: set<string>)
    ensures Gathered(labels, document, cs + {c}, path, depth, stack)
         == Gathered(labels, document, cs, path, depth, stack)
          + Recorded(labels, document, c.schema, path + c.suffix, Deeper(depth, c), stack)
    ensures AnyFails(labels, document, cs + {c}, depth, stack)
        <==> AnyFails(labels, document, cs, depth, stack) || Fails(labels, document, c.schema, Deeper(depth, c), stack)
  {
    hide Recorded, Fails;
  }

  lemma GatheredUnion(labels: Labels, document: Json, a: set<Child>, b: set<Child>, path: string, depth: nat,
                      stack: set<string>)
    ensures Gathered(labels, document, a + b, path, depth, stack)
         == Gathered(labels, document, a, path, depth, stack) + Gathered(labels, document, b, path, depth, stack)
    ensures AnyFails(labels, document, a + b, depth, stack)
        <==> AnyFails(labels, document, a, depth, stack) || AnyFails(labels, document, b, depth, stack)
  {
    hide Recorded, Fails;
  }

  ghost function At(path: string, kinds: set<Json>): set<Pair> {
    set k | k in kinds :: (path, k)
  }

  /** The properties no longer waiting. */
  ghost function Visited(table: map<string, Json>, waiting: set<string>): set<Child> {
    set n | n in table && n !in waiting :: Child(table[n], "/" + n, true)
  }

  lemma VisitedMore(schema: Json, waiting: set<string>, n: string)
    requires schema.Obj? && Properties(schema).Some? && n in Properties(schema).value && n in waiting
    ensures var table := Properties(schema).value;
            && Visited(table, waiting - {n}) == Visited(table, waiting) + {Child(table[n], "/" + n, true)}
            && Visited(table, waiting - {n}) <= PropertyChildren(schema)
  {
  }

  lemma VisitedEnds(schema: Json)
    requires schema.Obj? && Properties(schema).Some?
    ensures var table := Properties(schema).value;
            Visited(table, table.Keys) == {} && Visited(table, {}) == PropertyChildren(schema)
  {
  }

  // ----- The table -----

  ghost function PairsOf(fields: map<string, set<Json>>): set<Pair> {
    set p, k | p in fields && k in fields[p] :: (p, k)
  }

  /** Every path in the table has a kind. */
  predicate Solid(fields: map<string, set<Json>>) {
    forall p :: p in fields ==> fields[p] != {}
  }

  ghost predicate Between(before: set<Pair>, now: set<Pair>, whole: set<Pair>) {
    before <= now <= before + whole
  }

  class FieldTable {
    var fields: map<string, set<Json>>

    constructor ()
      ensures fields == map[]
    {
      fields := map[];
    }

    /** A list or an object cannot be put into a set: the path is entered and the error raised. */
    method Merge(path: string, kind: Json) returns (ok: bool)
      modifies this
      ensures ok <==> Hashable(kind)
      ensures PairsOf(fields) == PairsOf(old(fields)) + (if ok then {(path, kind)} else {})
      ensures ok && Solid(old(fields)) ==> Solid(fields)
    {
      if path !in fields {
        fields := fields[path := {}];
      }
      assert PairsOf(fields) == PairsOf(old(fields));
      ok := Hashable(kind);
      if ok {
        fields := fields[path := fields[path] + {kind}];
        assert PairsOf(fields) == PairsOf(old(fields)) + {(path, kind)};
      }
    }

    method MergeTypes(schema: Json, path: string) returns (ok: bool)
      requires schema.Obj?
      modifies this
      ensures ok <==> forall k :: k in TypeKinds(schema) ==> Hashable(k)
      ensures ok ==> PairsOf(fields) == PairsOf(old(fields)) + At(path, set k | k in TypeKinds(schema) && Hashable(k))
      ensures Between(PairsOf(old(fields)), PairsOf(fields), At(path, set k | k in TypeKinds(schema) && Hashable(k)))
      ensures ok && Solid(old(fields)) ==> Solid(fields)
    {
      var kinds := TypeKinds(schema);
      var i := 0;
      ok := true;
      while i < |kinds|
        invariant 0 <= i <= |kinds|
        invariant forall k :: k in kinds[..i] ==> Hashable(k)
        invariant PairsOf(fields) == PairsOf(old(fields)) + At(path, set k | k in kinds[..i] && Hashable(k))
        invariant Solid(old(fields)) ==> Solid(fields)
      {
        assert kinds[..i + 1] == kinds[..i] + [kinds[i]];
        ok := Merge(path, kinds[i]);
        if !ok {
          return;
        }
        i := i + 1;
      }
      assert kinds[..i] == kinds;
    }

    /** The variants of one list, in its order. */
    method WalkVariants(labels: Labels, document: Json, schema: Json, key: string, path: string, depth: nat,
                        stack: set<string>)
      returns (ok: bool)
      requires schema.Obj? && VariantList(schema, key).Some?
      modifies this
      decreases |Unseen(document, schema, stack)|, schema, 0
      ensures ok <==> !AnyFails(labels, document, VariantsOf(schema, key), depth, stack)
      ensures var cs := VariantsOf(schema, key);
              ok ==> PairsOf(fields) == PairsOf(old(fields)) + Gathered(labels, document, cs, path, depth, stack)
      ensures Between(PairsOf(old(fields)), PairsOf(fields),
                      Gathered(labels, document, VariantsOf(schema, key), path, depth, stack))
      ensures ok && Solid(old(fields)) ==> Solid(fields)
    {
      hide Recorded, Fails, Unseen, RefNames, PairsOf, Gathered, AnyFails;
      var list := VariantList(schema, key).value;
      ghost var whole := VariantsOf(schema, key);
      ghost var done: set<Child> := {};
      GatheredNone(labels, document, path, depth, stack);
      var i := 0;
      ok := true;
      while i < |list|
        invariant 0 <= i <= |list|
        invariant done == set j | 0 <= j < i :: Child(list[j], "", false)
        invariant !AnyFails(labels, document, done, depth, stack)
        invariant PairsOf(fields) == PairsOf(old(fields)) + Gathered(labels, document, done, path, depth, stack)
        invariant Solid(old(fields)) ==> Solid(fields)
      {
        ghost var c := Child(list[i], "", false);
        VariantBelow(schema, key, i);
        Fewer(document, schema, list[i], stack);
        assert path + c.suffix == path;
        GatheredMore(labels, document, done, c, path, depth, stack);
        GatheredPart(labels, document, done + {c}, whole, path, depth, stack);
        ok := Walk(labels, document, list[i], path, depth, stack);
        if !ok {
          return;
        }
        done := done + {c};
        i := i + 1;
      }
      assert done == whole;
    }

    /** allOf, anyOf and oneOf, in this order. */
    method WalkVariantLists(labels: Labels, document: Json, schema: Json, path: string, depth: nat, stack: set<string>)
      returns (ok: bool)
      requires schema.Obj?
      modifies this
      decreases |Unseen(document, schema, stack)|, schema, 1
      ensures var lists := VariantsUpTo(schema, 3);
              ok <==> (forall j :: 0 <= j < 3 ==> VariantList(schema, VARIANTS[j]).Some?)
                      && !AnyFails(labels, document, lists, depth, stack)
      ensures var all := Gathered(labels, document, VariantsUpTo(schema, 3), path, depth, stack);
              && (ok ==> PairsOf(fields) == PairsOf(old(fields)) + all)
              && Between(PairsOf(old(fields)), PairsOf(fields), all)
      ensures ok && Solid(old(fields)) ==> Solid(fields)
    {
      hide Recorded, Fails, PairsOf, Gathered, AnyFails, Unseen, RefNames, VariantsOf, VariantList;
      GatheredNone(labels, document, path, depth, stack);
      ok := true;
      var i := 0;
      while i < 3
        invariant 0 <= i <= 3
        invariant forall j :: 0 <= j < i ==> VariantList(schema, VARIANTS[j]).Some?
        invariant !AnyFails(labels, document, VariantsUpTo(schema, i), depth, stack)
        invariant PairsOf(fields)
               == PairsOf(old(fields)) + Gathered(labels, document, VariantsUpTo(schema, i), path, depth, stack)
        invariant Solid(old(fields)) ==> Solid(fields)
      {
        var key := VARIANTS[i];
        UpToPart(schema, i);
        GatheredPart(labels, document, VariantsUpTo(schema, i), VariantsUpTo(schema, 3), path, depth, stack);
        if VariantList(schema, key).None? {
          return false;
        }
        UpToPart(schema, i + 1);
        GatheredUnion(labels, document, VariantsUpTo(schema, i), VariantsOf(schema, key), path, depth, stack);
        GatheredPart(labels, document, VariantsUpTo(schema, i + 1), VariantsUpTo(schema, 3), path, depth, stack);
        assert VariantsUpTo(schema, i + 1) == VariantsUpTo(schema, i) + VariantsOf(schema, key);
        ok := WalkVariants(labels, document, schema, key, path, depth, stack);
        if !ok {
          return;
        }
        i := i + 1;
      }
    }

    /** The properties, in any order. */
    method WalkProperties(labels: Labels, document: Json, schema: Json, path: string, depth: nat, stack: set<string>)
      returns (ok: bool)
      requires schema.Obj? && Properties(schema).Some?
      modifies this
      decreases |Unseen(document, schema, stack)|, schema, 0
      ensures ok <==> !AnyFails(labels, document, PropertyChildren(schema), depth, stack)
      ensures var cs := PropertyChildren(schema);
              ok ==> PairsOf(fields) == PairsOf(old(fields)) + Gathered(labels, document, cs, path, depth, stack)
      ensures Between(PairsOf(old(fields)), PairsOf(fields),
                      Gathered(labels, document, PropertyChildren(schema), path, depth, stack))
      ensures ok && Solid(old(fields)) ==> Solid(fields)
    {
      hide Recorded, Fails, Unseen, RefNames, PairsOf, Gathered, AnyFails, Visited, PropertyChildren;
      var table := Properties(schema).value;
      ghost var whole := PropertyChildren(schema);
      ghost var done: set<Child> := {};
      GatheredNone(labels, document, path, depth, stack);
      var names := table.Keys;
      VisitedEnds(schema);
      ok := true;
      while names != {}
        decreases |names|
        invariant names <= table.Keys
        invariant done == Visited(table, names)
        invariant !AnyFails(labels, document, done, depth, stack)
        invariant PairsOf(fields) == PairsOf(old(fields)) + Gathered(labels, document, done, path, depth, stack)
        invariant Solid(old(fields)) ==> Solid(fields)
      {
        var n :| n in names;
        ghost var c := Child(table[n], "/" + n, true);
        PropertyBelow(schema, n);
        Fewer(document, schema, table[n], stack);
        GatheredMore(labels, document, done, c, path, depth, stack);
        VisitedMore(schema, names, n);
        GatheredPart(labels, document, done + {c}, whole, path, depth, stack);
        assert path + "/" + n == path + c.suffix;
        ok := Walk(labels, document, table[n], path + "/" + n, depth + 1, stack);
        if !ok {
          return;
        }
        names := names - {n};
        done := done + {c};
      }
      assert done == whole;
    }

    /** items or additionalProperties, when they are schemas. */
    method WalkObject(labels: Labels, document: Json, schema: Json, key: string, suffix: string,
                      path: string, depth: nat, stack: set<string>)
      returns (ok: bool)
      requires schema.Obj?
      modifies this
      decreases |Unseen(document, schema, stack)|, schema, 0
      ensures ok <==> !AnyFails(labels, document, ObjectChild(schema, key, suffix), depth, stack)
      ensures var cs := ObjectChild(schema, key, suffix);
              ok ==> PairsOf(fields) == PairsOf(old(fields)) + Gathered(labels, document, cs, path, depth, stack)
      ensures var cs := ObjectChild(schema, key, suffix);
              Between(PairsOf(old(fields)), PairsOf(fields), Gathered(labels, document, cs, path, depth, stack))
      ensures ok && Solid(old(fields)) ==> Solid(fields)
    {
      hide Recorded, Fails, Unseen, RefNames, PairsOf, Gathered, AnyFails;
      GatheredNone(labels, document, path, depth, stack);
      ok := true;
      if HasObject(schema, key) {
        FieldBelow(schema, key);
        Fewer(document, schema, schema.fields[key], stack);
        ghost var c := Child(schema.fields[key], suffix, true);
        GatheredMore(labels, document, {}, c, path, depth, stack);
        assert {} + {c} == ObjectChild(schema, key, suffix);
        ok := Walk(labels, document, schema.fields[key], path + suffix, depth + 1, stack);
      }
    }

    /** The kinds of the node itself: its enum, its const and its types. */
    method WalkLocal(labels: Labels, schema: Json, path: string) returns (ok: bool)
      requires schema.Obj?
      modifies this
      ensures ok <==> Enum(labels, schema).Some? && forall k :: k in TypeKinds(schema) ==> Hashable(k)
      ensures ok ==> PairsOf(fields) == PairsOf(old(fields)) + At(path, LocalKinds(labels, schema))
      ensures Between(PairsOf(old(fields)), PairsOf(fields), At(path, LocalKinds(labels, schema)))
      ensures ok && Solid(old(fields)) ==> Solid(fields)
    {
      hide PairsOf;
      if "enum" in schema.fields {
        var word := labels.enumOf(schema.fields["enum"]);
        if word.None? {
          return false;
        }
        ok := Merge(path, Str("enum:" + word.value));
      }
      if "const" in schema.fields {
        ok := Merge(path, Str("enum:" + labels.constOf(schema.fields["const"])));
      }
      ok := MergeTypes(schema, path);
    }

    /** Walks a schema: raises exactly when Fails says so, adds exactly Recorded, and otherwise only part of it. */
    method Walk(labels: Labels, document: Json, schema: Json, path: string, depth: nat, stack: set<string>)
      returns (ok: bool)
      modifies this
      decreases |Unseen(document, schema, stack)|, schema, 3
      ensures ok <==> !Fails(labels, document, schema, depth, stack)
      ensures ok ==> PairsOf(fields) == PairsOf(old(fields)) + Recorded(labels, document, schema, path, depth, stack)
      ensures Between(PairsOf(old(fields)), PairsOf(fields), Recorded(labels, document, schema, path, depth, stack))
      ensures ok && Solid(old(fields)) ==> Solid(fields)
    {
      hide PairsOf, Gathered, AnyFails, Unseen, RefNames;
      if Stops(schema, depth) {
        return true;
      }
      if IsRef(schema) {
        var reference := Target(schema);
        var name := RefName(reference);
        if name in stack {
          ok := Merge(path, Str("ref:" + name));
          return;
        }
        var target := Resolve(document, reference);
        if target.None? {
          return false;
        }
        FollowingSpends(document, schema, stack);
        ok := Walk(labels, document, target.value, path, depth, stack + {name});
        return;
      }
      RecordedParts(labels, document, schema, path, depth, stack);
      ok := WalkNode(labels, document, schema, path, depth, stack);
    }

    method WalkNode(labels: Labels, document: Json, schema: Json, path: string, depth: nat, stack: set<string>)
      returns (ok: bool)
      requires schema.Obj?
      modifies this
      decreases |Unseen(document, schema, stack)|, schema, 2
      ensures ok <==> !LocalFails(labels, schema) && !AnyFails(labels, document, Children(schema), depth, stack)
      ensures ok ==> PairsOf(fields) == PairsOf(old(fields)) + NodePairs(labels, document, schema, path, depth, stack)
      ensures Between(PairsOf(old(fields)), PairsOf(fields), NodePairs(labels, document, schema, path, depth, stack))
      ensures ok && Solid(old(fields)) ==> Solid(fields)
    {
      hide Recorded, Fails, PairsOf, Gathered, AnyFails, Unseen, RefNames, VariantsUpTo, PropertyChildren;
      hide ObjectChild, Children, At;
      hide LocalKinds;
      ChildrenParts(labels, document, schema, path, depth, stack);
      ok := WalkVariantLists(labels, document, schema, path, depth, stack);
      if !ok {
        return;
      }
      ok := WalkLocal(labels, schema, path);
      if !ok {
        return;
      }
      if Properties(schema).None? {
        return false;
      }
      ok := WalkProperties(labels, document, schema, path, depth, stack);
      if !ok {
        return;
      }
      ok := WalkObject(labels, document, schema, "items", "/[]", path, depth, stack);
      if !ok {
        return;
      }
      ok := WalkObject(labels, document, schema, "additionalProperties", "/{}", path, depth, stack);
    }
  }

  lemma GatheredPart(labels: Labels, document: Json, part: set<Child>, whole: set<Child>, path: string, depth: nat,
                     stack: set<string>)
    requires part <= whole
    ensures Gathered(labels, document, part, path, depth, stack)
         <= Gathered(labels, document, whole, path, depth, stack)
    ensures AnyFails(labels, document, part, depth, stack) ==> AnyFails(labels, document, whole, depth, stack)
  {
    hide Recorded, Fails;
  }

  lemma GatheredNone(labels: Labels, document: Json, path: string, depth: nat, stack: set<string>)
    ensures Gathered(labels, document, {}, path, depth, stack) == {} && !AnyFails(labels, document, {}, depth, stack)
  {
    hide Recorded, Fails;
  }

  ghost function NodePairs(labels: Labels, document: Json, schema: Json, path: string, depth: nat,
                           stack: set<string>): set<Pair>
    requires schema.Obj?
  {
    At(path, LocalKinds(labels, schema)) + Gathered(labels, document, Children(schema), path, depth, stack)
  }

  lemma RecordedParts(labels: Labels, document: Json, schema: Json, path: string, depth: nat, stack: set<string>)
    requires !Stops(schema, depth) && !IsRef(schema)
    ensures Recorded(labels, document, schema, path, depth, stack)
         == NodePairs(labels, document, schema, path, depth, stack)
    ensures Fails(labels, document, schema, depth, stack)
        <==> LocalFails(labels, schema) || AnyFails(labels, document, Children(schema), depth, stack)
  {
  }

  lemma {:induction false} UpToPart(schema: Json, i: nat)
    requires schema.Obj? && i <= 3
    ensures VariantsUpTo(schema, i) <= VariantsUpTo(schema, 3)
    decreases 3 - i
  {
    if i < 3 {
      UpToPart(schema, i + 1);
    }
  }

  lemma ChildrenParts(labels: Labels, document: Json, schema: Json, path: string, depth: nat, stack: set<string>)
    requires schema.Obj?
    ensures Gathered(labels, document, Children(schema), path, depth, stack)
         == Gathered(labels, document, VariantsUpTo(schema, 3), path, depth, stack)
          + Gathered(labels, document, PropertyChildren(schema), path, depth, stack)
          + Gathered(labels, document, ObjectChild(schema, "items", "/[]"), path, depth, stack)
          + Gathered(labels, document, ObjectChild(schema, "additionalProperties", "/{}"), path, depth, stack)
    ensures AnyFails(labels, document, Children(schema), depth, stack) <==> (
              || AnyFails(labels, document, VariantsUpTo(schema, 3), depth, stack)
              || AnyFails(labels, document, PropertyChildren(schema), depth, stack)
              || AnyFails(labels, document, ObjectChild(schema, "items", "/[]"), depth, stack)
              || AnyFails(labels, document, ObjectChild(schema, "additionalProperties", "/{}"), depth, stack))
  {
    hide Recorded, Fails, Gathered, AnyFails, VariantsUpTo, PropertyChildren, ObjectChild;
    var a, d := VariantsUpTo(schema, 3), PropertyChildren(schema);
    var e, f := ObjectChild(schema, "items", "/[]"), ObjectChild(schema, "additionalProperties", "/{}");
    GatheredUnion(labels, document, a, d, path, depth, stack);
    GatheredUnion(labels, document, a + d, e, path, depth, stack);
    GatheredUnion(labels, document, a + d + e, f, path, depth, stack);
  }
}
