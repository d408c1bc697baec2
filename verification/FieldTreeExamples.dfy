/** Field trees of particular documents: what each construct of a schema records, and trees that cannot be read back. */
module FieldTreeExamples {
  import opened Options
  import opened SchemaWalk
  import opened SchemaTrails
  import opened SchemaEquations
  import opened Splitting
  import opened TextOrder
  import opened FieldTree

  // ----- Trees that cannot be read back -----

  function OfType(name: string): Json {
    Obj(map["type" := Str(name)])
  }

  /** A string with a property of an empty name, an integer. */
  function Clashing(): Json {
    Obj(map["type" := Str("string"), "properties" := Obj(map["" := OfType("integer")])])
  }

  lemma TypeOnly(labels: Labels, name: string)
    requires name != ""
    ensures Children(OfType(name)) == {} && LocalKinds(labels, OfType(name)) == {Str(name)}
    ensures !LocalFails(labels, OfType(name))
  {
    var schema := OfType(name);
    NoVariants(schema, 3);
    assert TypeKinds(schema) == [Str(name)];
  }

  lemma {:induction false} NoVariants(schema: Json, count: nat)
    requires schema.Obj? && count <= 3
    requires "allOf" !in schema.fields && "anyOf" !in schema.fields && "oneOf" !in schema.fields
    ensures VariantsUpTo(schema, count) == {}
    ensures forall i :: 0 <= i < count ==> VariantList(schema, VARIANTS[i]).Some?
  {
    if count > 0 {
      NoVariants(schema, count - 1);
      assert VARIANTS[count - 1] !in schema.fields;
    }
  }

  lemma ClashingProperties()
    ensures PropertyChildren(Clashing()) == {Child(OfType("integer"), "/", true)}
  {
    assert "/" + "" == "/";
    assert Properties(Clashing()).value == map["" := OfType("integer")];
  }

  lemma ClashingKinds(labels: Labels)
    ensures LocalKinds(labels, Clashing()) == {Str("string")}
  {
    assert TypeKinds(Clashing()) == [Str("string")];
  }

  lemma ClashingParts(labels: Labels)
    ensures Children(Clashing()) == {Child(OfType("integer"), "/", true)} && !LocalFails(labels, Clashing())
  {
    hide PropertyChildren, VariantsUpTo, OfType;
    NoVariants(Clashing(), 3);
    ClashingProperties();
    assert TypeKinds(Clashing()) == [Str("string")];
  }

  lemma OnePart(labels: Labels, document: Json, c: Child, path: string, depth: nat, stack: set<string>)
    ensures Gathered(labels, document, {c}, path, depth, stack)
         == Recorded(labels, document, c.schema, path + c.suffix, Deeper(depth, c), stack)
    ensures AnyFails(labels, document, {c}, depth, stack)
        <==> Fails(labels, document, c.schema, Deeper(depth, c), stack)
  {
    hide Recorded, Fails;
    GatheredNone(labels, document, path, depth, stack);
    GatheredMore(labels, document, {}, c, path, depth, stack);
    assert {} + {c} == {c};
  }

  lemma TypeWalk(labels: Labels, document: Json, name: string, path: string, depth: nat, stack: set<string>)
    requires name != "" && depth <= MAX_DEPTH
    ensures Recorded(labels, document, OfType(name), path, depth, stack) == {(path, Str(name))}
    ensures !Fails(labels, document, OfType(name), depth, stack)
  {
    hide Recorded, Fails, Children, LocalKinds, LocalFails;
    TypeOnly(labels, name);
    RecordedParts(labels, document, OfType(name), path, depth, stack);
    GatheredNone(labels, document, path, depth, stack);
  }

  lemma ClashingWalk(labels: Labels, document: Json)
    ensures Recorded(labels, document, Clashing(), "", 0, {"T"}) == {("", Str("string")), ("/", Str("integer"))}
    ensures !Fails(labels, document, Clashing(), 0, {"T"})
  {
    hide Recorded, Fails, Children, LocalKinds, LocalFails;
    ClashingKinds(labels);
    ClashingParts(labels);
    TypeWalk(labels, document, "integer", "/", 1, {"T"});
    RecordedParts(labels, document, Clashing(), "", 0, {"T"});
    OnePart(labels, document, Child(OfType("integer"), "/", true), "", 0, {"T"});
    assert "" + "/" == "/";
  }

  lemma RootWalk(labels: Labels, schema: Json)
    ensures var document := Obj(map["T" := schema]);
            && Recorded(labels, document, Root("T"), "", 0, {}) == Recorded(labels, document, schema, "", 0, {"T"})
            && (Fails(labels, document, Root("T"), 0, {}) <==> Fails(labels, document, schema, 0, {"T"}))
  {
    var document := Obj(map["T" := schema]);
    SplitOne("T", '/');
    assert ReferenceParts("T") == ["T"];
    assert Descend(schema, ["T"][1..]) == Some(schema);
    assert Resolve(document, "T") == Some(schema);
    assert {} + {"T"} == {"T"};
  }

  /** The walk succeeds, but the root's own kind is not printed: the property with an empty name takes its place. */
  lemma ClashExample(labels: Labels)
    ensures var document := Obj(map["T" := Clashing()]);
            && !Fails(labels, document, Root("T"), 0, {})
            && Pairs(labels, document, "T") == {("", Str("string")), ("/", Str("integer"))}
            && Clash(labels, document, "T") && !Found(Pairs(labels, document, "T"))
            && Decode(Printed(Pairs(labels, document, "T"))) != Pairs(labels, document, "T")
  {
    hide Recorded, Fails, Leads, Found, Clashing, Decode, Printed;
    var document := Obj(map["T" := Clashing()]);
    RootWalk(labels, Clashing());
    ClashingWalk(labels, document);
    RootTrails(labels, document, "T", Str("string"));
    RootTrails(labels, document, "T", Str("integer"));
    TreeFound(labels, document, "T");
    TreeReadable(labels, document, "T");
  }

  /** No kind of its own, and a property with an empty name, a string. */
  function Nested(): Json {
    Obj(map["properties" := Obj(map["" := OfType("string")])])
  }

  lemma NestedParts(labels: Labels)
    ensures Children(Nested()) == {Child(OfType("string"), "/", true)}
    ensures LocalKinds(labels, Nested()) == {} && !LocalFails(labels, Nested())
  {
    hide VariantsUpTo, OfType;
    NoVariants(Nested(), 3);
    assert "/" + "" == "/";
    assert Properties(Nested()).value == map["" := OfType("string")];
    assert TypeKinds(Nested()) == [];
  }

  lemma NestedWalk(labels: Labels, document: Json)
    ensures Recorded(labels, document, Nested(), "", 0, {"T"}) == {("/", Str("string"))}
    ensures !Fails(labels, document, Nested(), 0, {"T"})
  {
    hide Recorded, Fails, Children, LocalKinds, LocalFails;
    NestedParts(labels);
    TypeWalk(labels, document, "string", "/", 1, {"T"});
    RecordedParts(labels, document, Nested(), "", 0, {"T"});
    OnePart(labels, document, Child(OfType("string"), "/", true), "", 0, {"T"});
    assert "" + "/" == "/";
  }

  /** A string, and an object whose one property has an empty name and is a string: both walks succeed and record
      different pairs, and the printed trees are the same. */
  lemma SameTreeExample(labels: Labels)
    ensures var one, two := Obj(map["T" := OfType("string")]), Obj(map["T" := Nested()]);
            && !Fails(labels, one, Root("T"), 0, {}) && !Fails(labels, two, Root("T"), 0, {})
            && Pairs(labels, one, "T") == {("", Str("string"))}
            && Pairs(labels, two, "T") == {("/", Str("string"))}
            && Printed(Pairs(labels, one, "T")) == Printed(Pairs(labels, two, "T")) == map["/" := "string"]
  {
    hide Recorded, Fails, OfType, Nested, Printed;
    var one, two := Obj(map["T" := OfType("string")]), Obj(map["T" := Nested()]);
    RootWalk(labels, OfType("string"));
    RootWalk(labels, Nested());
    TypeWalk(labels, one, "string", "", 0, {"T"});
    NestedWalk(labels, two);
    OneKind("", "string");
    OneKind("/", "string");
  }

  lemma OneKind(path: string, kind: string)
    ensures Printed({(path, Str(kind))}) == map[Shown(path) := kind]
  {
    hide Line, KindsAt, AllShown, Paths;
    var pairs := {(path, Str(kind))};
    OneShown(pairs, path, Str(kind));
    KindsText(pairs, "/");
    KindsText(pairs, path);
    assert KindsAt(pairs, path) == {kind};
    LineOfOne(kind);
  }

  lemma OneShown(pairs: set<Pair>, path: string, kind: Json)
    requires pairs == {(path, kind)}
    ensures AllShown(Paths(pairs)) == {Shown(path)}
  {
    assert Paths(pairs) == {path};
  }

  lemma LineOfOne(kind: string)
    ensures Line({kind}) == kind
  {
    ListsOnce(Sorted({kind}), [kind], {kind});
  }

  /** A constant beside a type, and an enumeration of the two, record different kinds and print the same line. */
  lemma BarExample(labels: Labels)
    requires labels.constOf(Str("a")) == "a" && labels.enumOf(Arr([Str("a"), Str("string")])) == Some("a|string")
    ensures var one := Obj(map["const" := Str("a"), "type" := Str("string")]);
            var other := Obj(map["enum" := Arr([Str("a"), Str("string")])]);
            && LocalKinds(labels, one) == {Str("enum:a"), Str("string")}
            && LocalKinds(labels, other) == {Str("enum:a|string")}
            && Line({"enum:a", "string"}) == Line({"enum:a|string"}) == "enum:a|string"
  {
    hide Line;
    var one := Obj(map["const" := Str("a"), "type" := Str("string")]);
    var other := Obj(map["enum" := Arr([Str("a"), Str("string")])]);
    assert TypeKinds(one) == [Str("string")] && TypeKinds(other) == [];
    assert "enum:" + "a" == "enum:a" && "enum:" + "a|string" == "enum:a|string";
    BarLines();
  }

  lemma BarLines()
    ensures Line({"enum:a", "string"}) == Line({"enum:a|string"}) == "enum:a|string"
  {
    EnumBeforeString();
    LineOfTwo("enum:a", "string");
    LineOfOne("enum:a|string");
    assert "enum:a" + ['|'] + "string" == "enum:a|string";
  }

  lemma LineOfTwo(a: string, b: string)
    requires Less(a, b)
    ensures Line({a, b}) == a + ['|'] + b
  {
    hide Less;
    ListsOnce(Sorted({a, b}), [a, b], {a, b});
    assert [a, b][1..] == [b] && JoinWith([b], '|') == b;
  }

  lemma EnumBeforeString()
    ensures Less("enum:a", "string")
  {
    var a, b := Codes("enum:a"), Codes("string");
    assert a[0] == 'e' as nat && b[0] == 's' as nat;
  }

  // ----- References -----

  /** A reference is named after what follows its last slash. */
  lemma RefNameIs(prefix: string, name: string)
    requires '/' !in name
    ensures RefName(prefix + "/" + name) == name && RefName(name) == name
  {
    SplitLast(prefix, '/', name);
    SplitOne(name, '/');
  }

  /** A reference is resolved part by part, with or without the mark of the document's root. */
  lemma ReferencePartsAre(parts: seq<string>)
    requires parts != [] && forall i :: 0 <= i < |parts| ==> '/' !in parts[i]
    ensures ReferenceParts("#/" + JoinWith(parts, '/')) == parts
    ensures parts[0] != "#" ==> ReferenceParts(JoinWith(parts, '/')) == parts
  {
    hide Split, JoinWith;
    var whole := JoinWith(parts, '/');
    var marked := "#/" + whole;
    SplitJoin(parts, '/');
    assert marked[..2] == "#/" && marked[2..] == whole;
    if parts[0] != "#" {
      Unmarked(parts, whole);
    }
  }

  lemma Unmarked(parts: seq<string>, whole: string)
    requires parts == Split(whole, '/') && parts[0] != "#"
    ensures !(|whole| >= 2 && whole[..2] == "#/")
  {
    hide Split;
    if |whole| >= 2 && whole[..2] == "#/" {
      var rest := whole[2..];
      assert whole == whole[..2] + rest && "#" + ['/'] == "#/";
      assert whole == "#" + ['/'] + rest;
      SplitFirst("#", '/', rest);
    }
  }

  lemma DescendTwo(definitions: map<string, Json>, name: string)
    requires name in definitions
    ensures Descend(Obj(map["definitions" := Obj(definitions)]), ["definitions", name]) == Some(definitions[name])
  {
    var document := Obj(map["definitions" := Obj(definitions)]);
    assert ["definitions", name][1..] == [name] && [name][1..] == [];
    assert Descend(definitions[name], []) == Some(definitions[name]);
    assert Descend(Obj(definitions), [name]) == Some(definitions[name]);
  }

  function DefinitionRef(name: string): string {
    "#/definitions/" + name
  }

  lemma DefinitionResolves(definitions: map<string, Json>, name: string)
    requires '/' !in name && name in definitions
    ensures Resolve(Obj(map["definitions" := Obj(definitions)]), DefinitionRef(name)) == Some(definitions[name])
    ensures RefName(DefinitionRef(name)) == name
  {
    var parts := ["definitions", name];
    assert parts[1..] == [name] && [name][1..] == [];
    assert JoinWith([name], '/') == name;
    assert JoinWith(parts, '/') == "definitions" + ['/'] + name;
    assert "#/" + JoinWith(parts, '/') == DefinitionRef(name);
    hide Split, JoinWith, ReferenceParts, RefName;
    ReferencePartsAre(parts);
    DescendTwo(definitions, name);
    RefNameIs("#/definitions", name);
    assert "#/definitions" + "/" + name == DefinitionRef(name);
  }

  // ----- Properties -----

  /** An object with one property. */
  function Holder(name: string, child: Json): Json {
    Obj(map["properties" := Obj(map[name := child])])
  }

  lemma HolderParts(labels: Labels, name: string, child: Json)
    ensures Children(Holder(name, child)) == {Child(child, "/" + name, true)}
    ensures LocalKinds(labels, Holder(name, child)) == {} && !LocalFails(labels, Holder(name, child))
  {
    hide VariantsUpTo;
    var schema := Holder(name, child);
    NoVariants(schema, 3);
    assert Properties(schema).value == map[name := child];
    assert PropertyChildren(schema) == {Child(child, "/" + name, true)};
    assert TypeKinds(schema) == [];
  }

  lemma HolderWalk(labels: Labels, document: Json, name: string, child: Json, path: string, depth: nat,
                   stack: set<string>)
    requires depth <= MAX_DEPTH
    ensures Recorded(labels, document, Holder(name, child), path, depth, stack)
         == Recorded(labels, document, child, path + "/" + name, depth + 1, stack)
    ensures Fails(labels, document, Holder(name, child), depth, stack)
        <==> Fails(labels, document, child, depth + 1, stack)
  {
    hide Recorded, Fails, Children, LocalKinds, LocalFails;
    var c := Child(child, "/" + name, true);
    HolderParts(labels, name, child);
    RecordedParts(labels, document, Holder(name, child), path, depth, stack);
    OnePart(labels, document, c, path, depth, stack);
    assert path + c.suffix == path + "/" + name;
  }

  /** A definition whose one property refers to another definition, a plain type: its field tree says so, whatever the
      names are. */
  lemma DefinitionsExample(labels: Labels, a: string, b: string, property: string, kind: string)
    requires '/' !in a && '/' !in b && a != b && kind != ""
    ensures var document := Obj(map["definitions" := Obj(map[
                a := Holder(property, Root(DefinitionRef(b))), b := OfType(kind)])]);
            && !Fails(labels, document, Root(DefinitionRef(a)), 0, {})
            && Pairs(labels, document, DefinitionRef(a)) == {("/" + property, Str(kind))}
            && Printed(Pairs(labels, document, DefinitionRef(a))) == map["/" + property := kind]
  {
    hide Recorded, Fails, RefName, Resolve, Printed, OfType, Holder, DefinitionRef;
    var definitions := map[a := Holder(property, Root(DefinitionRef(b))), b := OfType(kind)];
    var document := Obj(map["definitions" := Obj(definitions)]);
    DefinitionResolves(definitions, a);
    DefinitionResolves(definitions, b);
    ReferenceRecords(labels, document, Root(DefinitionRef(a)), "", 0, {});
    assert {} + {a} == {a};
    HolderWalk(labels, document, property, Root(DefinitionRef(b)), "", 0, {a});
    assert "" + "/" + property == "/" + property;
    ReferenceRecords(labels, document, Root(DefinitionRef(b)), "/" + property, 1, {a});
    TypeWalk(labels, document, kind, "/" + property, 1, {a} + {b});
    OneKind("/" + property, kind);
  }

  /** Two definitions that refer to each other: the walk goes round once and records the name it comes back to. */
  lemma CycleExample(labels: Labels, a: string, b: string, m: string, n: string)
    requires '/' !in a && '/' !in b && a != b
    ensures var document := Obj(map["definitions" := Obj(map[
                a := Holder(m, Root(DefinitionRef(b))), b := Holder(n, Root(DefinitionRef(a)))])]);
            && !Fails(labels, document, Root(DefinitionRef(a)), 0, {})
            && Pairs(labels, document, DefinitionRef(a)) == {("/" + m + "/" + n, Str("ref:" + a))}
  {
    hide Recorded, Fails, RefName, Resolve, Holder, DefinitionRef;
    var definitions := map[a := Holder(m, Root(DefinitionRef(b))), b := Holder(n, Root(DefinitionRef(a)))];
    var document := Obj(map["definitions" := Obj(definitions)]);
    DefinitionResolves(definitions, a);
    DefinitionResolves(definitions, b);
    ReferenceRecords(labels, document, Root(DefinitionRef(a)), "", 0, {});
    assert {} + {a} == {a};
    HolderWalk(labels, document, m, Root(DefinitionRef(b)), "", 0, {a});
    assert "" + "/" + m == "/" + m;
    ReferenceRecords(labels, document, Root(DefinitionRef(b)), "/" + m, 1, {a});
    HolderWalk(labels, document, n, Root(DefinitionRef(a)), "/" + m, 1, {a} + {b});
    ReferenceRecords(labels, document, Root(DefinitionRef(a)), "/" + m + "/" + n, 2, {a} + {b});
  }

  // ----- Depth -----

  /** Properties inside properties, down to a plain type. */
  function Nest(names: seq<string>, kind: string): Json {
    if names == [] then OfType(kind) else Holder(names[0], Nest(names[1..], kind))
  }

  lemma {:induction false} NestWalk(labels: Labels, document: Json, names: seq<string>, kind: string, path: string,
                                    depth: nat, stack: set<string>)
    requires kind != ""
    ensures Recorded(labels, document, Nest(names, kind), path, depth, stack)
         == if depth + |names| <= 6 then {(path + Joined(names), Str(kind))} else {}
    ensures !Fails(labels, document, Nest(names, kind), depth, stack)
    decreases |names|
  {
    hide Recorded, Fails, Holder, OfType;
    if depth > MAX_DEPTH {
      StopsWalk(labels, document, Nest(names, kind), path, depth, stack);
    } else if names == [] {
      TypeWalk(labels, document, kind, path, depth, stack);
      assert path + "" == path;
    } else {
      HolderWalk(labels, document, names[0], Nest(names[1..], kind), path, depth, stack);
      NestWalk(labels, document, names[1..], kind, path + "/" + names[0], depth + 1, stack);
      assert path + "/" + names[0] + Joined(names[1..]) == path + Joined(names);
    }
  }

  lemma StopsWalk(labels: Labels, document: Json, schema: Json, path: string, depth: nat, stack: set<string>)
    requires depth > MAX_DEPTH
    ensures Recorded(labels, document, schema, path, depth, stack) == {}
    ensures !Fails(labels, document, schema, depth, stack)
  {
  }
}
