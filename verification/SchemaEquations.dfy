/** The equations of a schema walk, in terms of the JSON alone: what each construct of one node records, and when it
    raises. */
module SchemaEquations {
  import opened Options
  import opened SchemaWalk

  /** Python's false values. */
  lemma FalsyExactly(j: Json)
    ensures Truthy(j) <==> j !in {Null, Bool(false), Num(0.0), Str(""), Arr([]), Obj(map[])}
  {
  }

  predicate Unhashable(j: Json) {
    j.Arr? || j.Obj?
  }

  /** The kinds a node records at its own path: the labels of an enumeration and of a constant, and the types listed, or
      the one type there is. */
  ghost predicate OwnKind(labels: Labels, fields: map<string, Json>, kind: Json) {
    || ("enum" in fields && labels.enumOf(fields["enum"]).Some?
        && kind == Str("enum:" + labels.enumOf(fields["enum"]).value))
    || ("const" in fields && kind == Str("enum:" + labels.constOf(fields["const"])))
    || ("type" in fields && !Unhashable(kind)
        && if fields["type"].Arr? then kind in fields["type"].items
           else kind == fields["type"] && kind !in {Null, Bool(false), Num(0.0), Str("")})
  }

  /** A subschema of a node, with what it adds to the path and how much deeper it is. */
  ghost predicate Subschema(fields: map<string, Json>, child: Json, suffix: string, levels: nat) {
    || (exists key, i :: VariantAt(fields, key, i, child) && suffix == "" && levels == 0)
    || (exists n :: PropertyAt(fields, n, child) && suffix == "/" + n && levels == 1)
    || ("items" in fields && fields["items"] == child && child.Obj? && suffix == "/[]" && levels == 1)
    || ("additionalProperties" in fields && fields["additionalProperties"] == child && child.Obj? && suffix == "/{}"
        && levels == 1)
  }

  ghost predicate VariantAt(fields: map<string, Json>, key: string, i: int, child: Json) {
    && (key == "allOf" || key == "anyOf" || key == "oneOf")
    && key in fields && fields[key].Arr? && 0 <= i < |fields[key].items| && fields[key].items[i] == child
  }

  ghost predicate PropertyAt(fields: map<string, Json>, n: string, child: Json) {
    && "properties" in fields && fields["properties"].Obj?
    && n in fields["properties"].fields && fields["properties"].fields[n] == child
  }

  predicate BadVariants(fields: map<string, Json>, key: string) {
    key in fields && !fields[key].Arr? && !fields[key].Obj? && !fields[key].Str?
  }

  /** What makes a node raise by itself. */
  ghost predicate Malformed(labels: Labels, fields: map<string, Json>) {
    || ("enum" in fields && labels.enumOf(fields["enum"]).None?)
    || ("type" in fields && fields["type"].Arr? && exists k :: k in fields["type"].items && Unhashable(k))
    || ("type" in fields && fields["type"].Obj? && fields["type"] != Obj(map[]))
    || BadVariants(fields, "allOf") || BadVariants(fields, "anyOf") || BadVariants(fields, "oneOf")
    || ("properties" in fields && !fields["properties"].Obj?)
  }

  lemma OwnKindIs(labels: Labels, schema: Json, kind: Json)
    requires schema.Obj?
    ensures OwnKind(labels, schema.fields, kind) <==> kind in LocalKinds(labels, schema)
  {
    if "type" in schema.fields {
      FalsyExactly(schema.fields["type"]);
    }
  }

  lemma VariantIs(schema: Json, key: string, c: Child)
    requires schema.Obj?
    ensures c in VariantsOf(schema, key) <==>
      c.suffix == "" && !c.deeper
      && key in schema.fields && schema.fields[key].Arr? && exists i ::
        0 <= i < |schema.fields[key].items| && schema.fields[key].items[i] == c.schema
  {
    if key in schema.fields && schema.fields[key].Arr? && c.suffix == "" && !c.deeper {
      if i :| 0 <= i < |schema.fields[key].items| && schema.fields[key].items[i] == c.schema {
        assert c == Child(VariantList(schema, key).value[i], "", false);
      }
    }
  }

  lemma ThreeVariants(schema: Json)
    requires schema.Obj?
    ensures VariantsUpTo(schema, 3)
         == VariantsOf(schema, "allOf") + VariantsOf(schema, "anyOf") + VariantsOf(schema, "oneOf")
  {
    hide VariantsOf;
    assert VariantsUpTo(schema, 0) == {};
    assert VariantsUpTo(schema, 1) == VariantsUpTo(schema, 0) + VariantsOf(schema, VARIANTS[0]);
    assert VariantsUpTo(schema, 2) == VariantsUpTo(schema, 1) + VariantsOf(schema, VARIANTS[1]);
    assert VariantsUpTo(schema, 3) == VariantsUpTo(schema, 2) + VariantsOf(schema, VARIANTS[2]);
  }

  lemma VariantChildIs(schema: Json, c: Child)
    requires schema.Obj?
    ensures c in VariantsUpTo(schema, 3) <==>
      (exists key, i :: VariantAt(schema.fields, key, i, c.schema)) && c.suffix == "" && !c.deeper
  {
    hide VariantsUpTo, VariantsOf;
    ThreeVariants(schema);
    VariantIs(schema, "allOf", c);
    VariantIs(schema, "anyOf", c);
    VariantIs(schema, "oneOf", c);
    var f := schema.fields;
    if c in VariantsUpTo(schema, 3) {
      var key :| (key == "allOf" || key == "anyOf" || key == "oneOf") && c in VariantsOf(schema, key);
      var i :| 0 <= i < |f[key].items| && f[key].items[i] == c.schema;
      assert VariantAt(f, key, i, c.schema);
    }
  }

  lemma PropertyChildIs(schema: Json, c: Child)
    requires schema.Obj?
    ensures c in PropertyChildren(schema) <==>
      c.deeper && exists n :: PropertyAt(schema.fields, n, c.schema) && c.suffix == "/" + n
  {
    if c in PropertyChildren(schema) {
      var n :| n in Properties(schema).value && c == Child(Properties(schema).value[n], "/" + n, true);
      assert PropertyAt(schema.fields, n, c.schema);
    }
    if n :| PropertyAt(schema.fields, n, c.schema) && c.suffix == "/" + n && c.deeper {
      assert c == Child(Properties(schema).value[n], "/" + n, true);
    }
  }

  /** The subschemas of a node. */
  lemma ChildIs(schema: Json, c: Child)
    requires schema.Obj?
    ensures c in Children(schema) <==> Subschema(schema.fields, c.schema, c.suffix, if c.deeper then 1 else 0)
  {
    hide VariantsUpTo, PropertyChildren, VariantAt, PropertyAt;
    VariantChildIs(schema, c);
    PropertyChildIs(schema, c);
  }

  /** A node that is no reference records its own kinds, and what its subschemas record below it. */
  lemma NodeRecords(labels: Labels, document: Json, schema: Json, path: string, depth: nat, stack: set<string>,
                    pair: Pair)
    requires schema.Obj? && depth <= 6 && !("$ref" in schema.fields && schema.fields["$ref"].Str?)
    ensures pair in Recorded(labels, document, schema, path, depth, stack) <==>
      || (pair.0 == path && OwnKind(labels, schema.fields, pair.1))
      || exists child, suffix, levels: nat ::
           Subschema(schema.fields, child, suffix, levels)
           && pair in Recorded(labels, document, child, path + suffix, depth + levels, stack)
  {
    hide Recorded, LocalKinds, Children, OwnKind, Subschema;
    RecordedParts(labels, document, schema, path, depth, stack);
    OwnKindIs(labels, schema, pair.1);
    forall c
      ensures c in Children(schema) <==> Subschema(schema.fields, c.schema, c.suffix, if c.deeper then 1 else 0)
    {
      ChildIs(schema, c);
    }
    if child, suffix, levels: nat :|
         Subschema(schema.fields, child, suffix, levels)
         && pair in Recorded(labels, document, child, path + suffix, depth + levels, stack) {
      LevelsAre(schema.fields, child, suffix, levels);
      var c := Child(child, suffix, levels == 1);
      assert c in Children(schema) && Deeper(depth, c) == depth + levels;
    }
    if c :| c in Children(schema)
            && pair in Recorded(labels, document, c.schema, path + c.suffix, Deeper(depth, c), stack) {
      var levels: nat := if c.deeper then 1 else 0;
      assert Subschema(schema.fields, c.schema, c.suffix, levels) && Deeper(depth, c) == depth + levels;
    }
  }

  lemma LevelsAre(fields: map<string, Json>, child: Json, suffix: string, levels: nat)
    requires Subschema(fields, child, suffix, levels)
    ensures levels == 0 || levels == 1
  {
  }

  lemma MalformedIs(labels: Labels, schema: Json)
    requires schema.Obj?
    ensures Malformed(labels, schema.fields) <==> LocalFails(labels, schema)
  {
    hide VariantList;
    BadVariantsAre(schema);
    TypesBad(schema);
    hide TypeKinds;
  }

  lemma BadVariantsAre(schema: Json)
    requires schema.Obj?
    ensures (exists i :: 0 <= i < |VARIANTS| && VariantList(schema, VARIANTS[i]).None?) <==>
      BadVariants(schema.fields, "allOf") || BadVariants(schema.fields, "anyOf") || BadVariants(schema.fields, "oneOf")
  {
    assert VARIANTS[0] == "allOf" && VARIANTS[1] == "anyOf" && VARIANTS[2] == "oneOf";
    forall key
      ensures VariantList(schema, key).None? <==> BadVariants(schema.fields, key)
    {
    }
    hide VariantList, BadVariants;
  }

  lemma TypesBad(schema: Json)
    requires schema.Obj?
    ensures (exists k :: k in TypeKinds(schema) && !Hashable(k)) <==>
      || ("type" in schema.fields && schema.fields["type"].Arr?
          && exists k :: k in schema.fields["type"].items && Unhashable(k))
      || ("type" in schema.fields && schema.fields["type"].Obj? && schema.fields["type"] != Obj(map[]))
  {
    forall k
      ensures Hashable(k) <==> !Unhashable(k)
    {
    }
    if "type" in schema.fields {
      var t := schema.fields["type"];
      if !t.Arr? {
        FalsyExactly(t);
        assert forall k :: k in TypeKinds(schema) <==> k == t && Truthy(t);
        if t.Obj? && t != Obj(map[]) {
          assert t in TypeKinds(schema) && !Hashable(t);
        }
      }
    }
  }

  /** Such a node raises exactly when it is malformed or one of its subschemas raises. */
  lemma NodeFails(labels: Labels, document: Json, schema: Json, path: string, depth: nat, stack: set<string>)
    requires schema.Obj? && depth <= 6 && !("$ref" in schema.fields && schema.fields["$ref"].Str?)
    ensures Fails(labels, document, schema, depth, stack) <==>
      || Malformed(labels, schema.fields)
      || exists child, suffix, levels: nat ::
           Subschema(schema.fields, child, suffix, levels) && Fails(labels, document, child, depth + levels, stack)
  {
    hide Fails, LocalFails, Children, Malformed, Subschema;
    RecordedParts(labels, document, schema, path, depth, stack);
    MalformedIs(labels, schema);
    forall c
      ensures c in Children(schema) <==> Subschema(schema.fields, c.schema, c.suffix, if c.deeper then 1 else 0)
    {
      ChildIs(schema, c);
    }
    if child, suffix, levels: nat :|
         Subschema(schema.fields, child, suffix, levels)
         && Fails(labels, document, child, depth + levels, stack) {
      LevelsAre(schema.fields, child, suffix, levels);
      var c := Child(child, suffix, levels == 1);
      assert c in Children(schema) && Deeper(depth, c) == depth + levels;
    }
    if c :| c in Children(schema) && Fails(labels, document, c.schema, Deeper(depth, c), stack) {
      var levels: nat := if c.deeper then 1 else 0;
      assert Subschema(schema.fields, c.schema, c.suffix, levels) && Deeper(depth, c) == depth + levels;
    }
  }

  /** A node with a textual reference, whatever else it holds: recorded by name if that reference is being followed, and
      otherwise as what it refers to, if there is anything. */
  lemma ReferenceRecords(labels: Labels, document: Json, schema: Json, path: string, depth: nat, stack: set<string>)
    requires schema.Obj? && depth <= 6 && "$ref" in schema.fields && schema.fields["$ref"].Str?
    ensures var reference := schema.fields["$ref"].text;
            var name, target := RefName(reference), Resolve(document, reference);
            if name in stack then
              && Recorded(labels, document, schema, path, depth, stack) == {(path, Str("ref:" + name))}
              && !Fails(labels, document, schema, depth, stack)
            else if target.None? then Fails(labels, document, schema, depth, stack)
            else
              && Recorded(labels, document, schema, path, depth, stack)
                 == Recorded(labels, document, target.value, path, depth, stack + {name})
              && (Fails(labels, document, schema, depth, stack)
                  <==> Fails(labels, document, target.value, depth, stack + {name}))
  {
    hide RefName, Resolve;
  }

  /** Anything but an object, or more than six levels down, records nothing and raises nothing. */
  lemma NothingRecorded(labels: Labels, document: Json, schema: Json, path: string, depth: nat, stack: set<string>)
    requires !schema.Obj? || depth > 6
    ensures Recorded(labels, document, schema, path, depth, stack) == {}
    ensures !Fails(labels, document, schema, depth, stack)
  {
  }
}
