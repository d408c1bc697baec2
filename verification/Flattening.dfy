/** Flattening a JSON value into a table of leaves, and when two values flatten alike. */
module Flattening {
  import opened Options
  import opened SchemaWalk

  type Path = seq<string>

  type Table = map<Path, Json>

  predicate Strings(items: seq<Json>) {
    forall i :: 0 <= i < |items| ==> items[i].Str?
  }

  /** A value as a table from paths to leaves. */
  function Leaves(value: Json, path: Path): (r: Table)
    ensures forall p :: p in r ==> path <= p
    decreases value
  {
    if value.Obj? then
      if value.fields == map[] then map[path := value]
      else
        var keys := set k, p | k in value.fields && p in Leaves(value.fields[k], path + [k]).Keys :: p;
        assert forall k, p :: k in value.fields && p in Leaves(value.fields[k], path + [k]).Keys ==>
            path + [k] <= p && |path| < |p| && p[|path|] == k && path <= p;
        map p | p in keys :: Leaves(value.fields[p[|path|]], path + [p[|path|]])[p]
    else if value.Arr? && Strings(value.items) then
      if value.items == [] then map[path := value]
      else
        var keys := set i | 0 <= i < |value.items| :: path + [value.items[i].text];
        map p | p in keys :: Bool(true)
    else map[path := value]
  }

  /** Flattening as a fill of one table: no entry of a dictionary overwrites another's leaves, in whatever order they
      come. */
  method Flatten(value: Json, path: Path) returns (r: Table)
    ensures r == Leaves(value, path)
    decreases value
  {
    hide Leaves;
    if value.Obj? && value.fields != map[] {
      r := map[];
      var waiting := value.fields.Keys;
      while waiting != {}
        decreases |waiting|
        invariant waiting <= value.fields.Keys
        invariant forall p :: p in r <==> Under(value, path, p) && p[|path|] !in waiting
        invariant forall p :: p in r ==> r[p] == Leaves(value.fields[p[|path|]], path + [p[|path|]])[p]
      {
        var k :| k in waiting;
        var part := Flatten(value.fields[k], path + [k]);
        assert forall p :: p in part <==> Under(value, path, p) && p[|path|] == k;
        r := r + part;
        waiting := waiting - {k};
      }
      LeavesUnder(value, path);
    } else if value.Arr? && Strings(value.items) && value.items != [] {
      r := FlattenList(value.items, path);
    } else {
      LeafLeaves(value, path);
      r := map[path := value];
    }
  }

  /** A dictionary's leaves are those of its entries. */
  lemma LeavesUnder(value: Json, path: Path)
    requires value.Obj? && value.fields != map[]
    ensures forall p :: p in Leaves(value, path) <==> Under(value, path, p)
    ensures forall p :: Under(value, path, p) ==>
      Leaves(value, path)[p] == Leaves(value.fields[p[|path|]], path + [p[|path|]])[p]
  {
  }

  method FlattenList(items: seq<Json>, path: Path) returns (r: Table)
    requires Strings(items) && items != []
    ensures r == Leaves(Arr(items), path)
  {
    r := map[];
    var i := 0;
    while i < |items|
      invariant 0 <= i <= |items|
      invariant r.Keys == set j | 0 <= j < i :: path + [items[j].text]
      invariant forall p :: p in r ==> r[p] == Bool(true)
    {
      r := r[path + [items[i].text] := Bool(true)];
      i := i + 1;
    }
  }

  predicate Under(value: Json, path: Path, p: Path)
    requires value.Obj?
  {
    path <= p && |path| < |p| && p[|path|] in value.fields && p in Leaves(value.fields[p[|path|]], path + [p[|path|]])
  }

  // ----- What flattening keeps -----

  /** A value that is its own leaf. */
  predicate IsLeaf(value: Json) {
    !(value.Obj? && value.fields != map[]) && !(value.Arr? && Strings(value.items) && value.items != [])
  }

  function Texts(items: seq<Json>): set<string>
    requires Strings(items)
  {
    set i | 0 <= i < |items| :: items[i].text
  }

  /** What flattening keeps of a value: a list of strings is the dictionary of its items, each true. */
  function Normal(value: Json): Json
    decreases value
  {
    if IsLeaf(value) then value
    else if value.Obj? then Obj(map k | k in value.fields :: Normal(value.fields[k]))
    else Obj(map t | t in Texts(value.items) :: Bool(true))
  }

  /** The leaves below one key of a table. */
  function Below(table: Table, path: Path, k: string): Table {
    map p | p in table && path + [k] <= p :: table[p]
  }

  lemma {:induction false} LeavesSome(value: Json, path: Path)
    ensures Leaves(value, path) != map[]
    decreases value
  {
    if value.Obj? && value.fields != map[] {
      var k :| k in value.fields;
      LeavesSome(value.fields[k], path + [k]);
      var p :| p in Leaves(value.fields[k], path + [k]);
      assert p[|path|] == k;
      assert p in Leaves(value, path);
    } else if value.Arr? && Strings(value.items) && value.items != [] {
      assert path + [value.items[0].text] in Leaves(value, path);
    } else {
      assert path in Leaves(value, path);
    }
  }

  /** A dictionary's leaves below a key are those of its entry. */
  lemma LeavesBelow(value: Json, path: Path, k: string)
    requires value.Obj? && value.fields != map[]
    ensures Below(Leaves(value, path), path, k)
         == if k in value.fields then Leaves(value.fields[k], path + [k]) else map[]
    ensures path !in Leaves(value, path)
  {
    forall p
      ensures p in Leaves(value, path) && path + [k] <= p <==>
        k in value.fields && p in Leaves(value.fields[k], path + [k])
    {
      if p in Leaves(value, path) {
        assert Under(value, path, p);
        assert path + [k] <= p ==> p[|path|] == k;
      }
      if k in value.fields && p in Leaves(value.fields[k], path + [k]) {
        assert p[|path|] == k;
      }
    }
  }

  /** Two dictionaries flatten alike exactly when they have the same keys, with entries that flatten alike. */
  lemma DictionariesAlike(v: Json, w: Json, path: Path)
    requires v.Obj? && w.Obj? && v.fields != map[] && w.fields != map[]
    ensures Leaves(v, path) == Leaves(w, path) <==>
              && v.fields.Keys == w.fields.Keys
              && forall k :: k in v.fields ==> Leaves(v.fields[k], path + [k]) == Leaves(w.fields[k], path + [k])
  {
    hide Leaves;
    if Leaves(v, path) == Leaves(w, path) {
      forall k
        ensures k in v.fields <==> k in w.fields
        ensures k in v.fields ==> Leaves(v.fields[k], path + [k]) == Leaves(w.fields[k], path + [k])
      {
        LeavesBelow(v, path, k);
        LeavesBelow(w, path, k);
        if k in v.fields {
          LeavesSome(v.fields[k], path + [k]);
        }
        if k in w.fields {
          LeavesSome(w.fields[k], path + [k]);
        }
      }
    } else if v.fields.Keys == w.fields.Keys
              && forall k :: k in v.fields ==> Leaves(v.fields[k], path + [k]) == Leaves(w.fields[k], path + [k]) {
      SameLeaves(v, w, path);
    }
  }

  lemma SameLeaves(v: Json, w: Json, path: Path)
    requires v.Obj? && w.Obj? && v.fields != map[] && w.fields != map[] && v.fields.Keys == w.fields.Keys
    requires forall k :: k in v.fields ==> Leaves(v.fields[k], path + [k]) == Leaves(w.fields[k], path + [k])
    ensures Leaves(v, path) == Leaves(w, path)
  {
    hide Leaves;
    LeavesUnder(v, path);
    LeavesUnder(w, path);
    assert forall p :: Under(v, path, p) <==> Under(w, path, p);
  }

  /** A list of strings flattens like the dictionary of its items. */
  lemma ListAsDictionary(items: seq<Json>, path: Path)
    requires Strings(items) && items != []
    ensures Leaves(Arr(items), path) == Leaves(Normal(Arr(items)), path)
  {
    var dict := Normal(Arr(items));
    assert items[0].text in Texts(items);
    forall p
      ensures p in Leaves(Arr(items), path) <==> exists t :: t in Texts(items) && p == path + [t]
    {
      if p in Leaves(Arr(items), path) {
        var i :| 0 <= i < |items| && p == path + [items[i].text];
        assert items[i].text in Texts(items);
      }
    }
    forall t | t in Texts(items)
      ensures Leaves(dict.fields[t], path + [t]) == map[path + [t] := Bool(true)]
    {
    }
    forall p
      ensures p in Leaves(dict, path) <==> exists t :: t in Texts(items) && p == path + [t]
    {
      assert p in Leaves(dict, path) <==> Under(dict, path, p);
      if p in Leaves(dict, path) {
        assert p == path + [p[|path|]];
      }
      if t :| t in Texts(items) && p == path + [t] {
        assert p[|path|] == t && p in Leaves(dict.fields[t], path + [t]);
      }
    }
  }

  /** Flattening forgets whether names came from a list or from a dictionary of true, and how often and in what order a
      list repeats them; of two lists it keeps exactly the set of their items. */
  lemma LeavesForget(items: seq<Json>, other: seq<Json>, path: Path)
    requires Strings(items) && items != [] && Strings(other) && other != []
    ensures Leaves(Arr(items), path) == Leaves(Obj(map t | t in Texts(items) :: Bool(true)), path)
    ensures Leaves(Arr(items), path) == Leaves(Arr(other), path) <==> Texts(items) == Texts(other)
  {
    hide Leaves;
    ListAsDictionary(items, path);
    FlattenExactly(Arr(items), Arr(other), path);
    var one, two := Normal(Arr(items)), Normal(Arr(other));
    assert one.fields.Keys == Texts(items) && two.fields.Keys == Texts(other);
  }

  lemma {:induction false} LeavesNormal(value: Json, path: Path)
    ensures Leaves(Normal(value), path) == Leaves(value, path)
    decreases value
  {
    hide Leaves;
    if !IsLeaf(value) {
      if value.Obj? {
        forall k | k in value.fields
          ensures Leaves(Normal(value.fields[k]), path + [k]) == Leaves(value.fields[k], path + [k])
        {
          LeavesNormal(value.fields[k], path + [k]);
        }
        assert Normal(value).fields.Keys == value.fields.Keys;
        DictionariesAlike(Normal(value), value, path);
      } else {
        ListAsDictionary(value.items, path);
      }
    }
  }

  lemma LeafLeaves(value: Json, path: Path)
    ensures IsLeaf(value) ==> Leaves(value, path) == map[path := value]
    ensures !IsLeaf(value) ==> path !in Leaves(value, path)
  {
  }

  /** A value already in normal form all the way down. */
  predicate IsNormal(value: Json)
    decreases value
  {
    IsLeaf(value) || (value.Obj? && forall k :: k in value.fields ==> IsNormal(value.fields[k]))
  }

  lemma {:induction false} NormalIsNormal(value: Json)
    ensures IsNormal(Normal(value))
    decreases value
  {
    if !IsLeaf(value) && value.Obj? {
      forall k | k in value.fields
        ensures IsNormal(Normal(value.fields[k]))
      {
        NormalIsNormal(value.fields[k]);
      }
    }
  }

  lemma {:induction false} NormalsApart(v: Json, w: Json, path: Path)
    requires IsNormal(v) && IsNormal(w) && Leaves(v, path) == Leaves(w, path)
    ensures v == w
    decreases v
  {
    hide Leaves;
    LeafLeaves(v, path);
    LeafLeaves(w, path);
    if IsLeaf(v) || IsLeaf(w) {
      assert path in Leaves(v, path);
    } else {
      DictionariesAlike(v, w, path);
      forall k | k in v.fields
        ensures v.fields[k] == w.fields[k]
      {
        NormalsApart(v.fields[k], w.fields[k], path + [k]);
      }
    }
  }

  /** Two values flatten alike exactly when they have the same normal form. */
  lemma FlattenExactly(v: Json, w: Json, path: Path)
    ensures Leaves(v, path) == Leaves(w, path) <==> Normal(v) == Normal(w)
  {
    hide Leaves, Normal, IsNormal;
    LeavesNormal(v, path);
    LeavesNormal(w, path);
    NormalIsNormal(v);
    NormalIsNormal(w);
    if Leaves(v, path) == Leaves(w, path) {
      NormalsApart(Normal(v), Normal(w), path);
    }
  }

  // ----- The table, entry by entry -----

  /** Entering dictionaries by these keys ends at this leaf: a value that is neither a dictionary with entries nor a
      list of names, or, in a list of names, the mark of one of them. */
  predicate Reaches(value: Json, keys: Path, leaf: Json) {
    || (Descend(value, keys) == Some(leaf)
        && !(leaf.Obj? && leaf.fields != map[])
        && !(leaf.Arr? && leaf.items != [] && forall i :: 0 <= i < |leaf.items| ==> leaf.items[i].Str?))
    || (keys != [] && leaf == Bool(true) && ListsName(Descend(value, keys[..|keys| - 1]), keys[|keys| - 1]))
  }

  predicate ListsName(list: Option<Json>, name: string) {
    && list.Some? && list.value.Arr? && Str(name) in list.value.items
    && forall i :: 0 <= i < |list.value.items| ==> list.value.items[i].Str?
  }

  /** The table holds exactly the leaves that can be reached, each at the keys that lead to it. */
  lemma {:induction false} LeavesAre(value: Json, path: Path, keys: Path, leaf: Json)
    ensures path + keys in Leaves(value, path) && Leaves(value, path)[path + keys] == leaf <==>
      Reaches(value, keys, leaf)
    decreases value
  {
    if value.Obj? && value.fields != map[] {
      hide Leaves;
      LeafLeaves(value, path);
      if keys == [] {
        assert path + keys == path;
      } else {
        EntryLeaves(value, path, keys);
        EntryReaches(value, keys, leaf);
        if keys[0] in value.fields {
          LeavesAre(value.fields[keys[0]], path + [keys[0]], keys[1..], leaf);
        }
      }
    } else if value.Arr? && Strings(value.items) && value.items != [] {
      NameLeaves(value, path, keys, leaf);
    } else {
      assert path + keys == path <==> keys == [];
    }
  }

  lemma EntryLeaves(value: Json, path: Path, keys: Path)
    requires value.Obj? && value.fields != map[] && keys != []
    ensures path + keys == path + [keys[0]] + keys[1..]
    ensures path + keys in Leaves(value, path) <==>
      keys[0] in value.fields && path + keys in Leaves(value.fields[keys[0]], path + [keys[0]])
    ensures path + keys in Leaves(value, path) ==>
      Leaves(value, path)[path + keys] == Leaves(value.fields[keys[0]], path + [keys[0]])[path + keys]
  {
    hide Leaves;
    LeavesUnder(value, path);
    assert (path + keys)[|path|] == keys[0];
  }

  lemma EntryReaches(value: Json, keys: Path, leaf: Json)
    requires value.Obj? && value.fields != map[] && keys != []
    ensures Reaches(value, keys, leaf) <==>
      keys[0] in value.fields && Reaches(value.fields[keys[0]], keys[1..], leaf)
  {
    var most, more := keys[..|keys| - 1], keys[1..];
    if more == [] {
      assert most == [];
    } else {
      assert most[1..] == more[..|more| - 1] && most[0] == keys[0];
    }
  }

  lemma NameLeaves(value: Json, path: Path, keys: Path, leaf: Json)
    requires value.Arr? && Strings(value.items) && value.items != []
    ensures path + keys in Leaves(value, path) && Leaves(value, path)[path + keys] == leaf <==>
      Reaches(value, keys, leaf)
  {
    if |keys| == 1 {
      assert keys == [keys[0]] && keys[..0] == [];
      if Str(keys[0]) in value.items {
        var i :| 0 <= i < |value.items| && value.items[i] == Str(keys[0]);
        assert path + [value.items[i].text] == path + keys;
      }
      if path + keys in Leaves(value, path) {
        var i :| 0 <= i < |value.items| && path + keys == path + [value.items[i].text];
        assert (path + keys)[|path|] == value.items[i].text;
        assert value.items[i] == Str(keys[0]);
      }
    } else {
      assert |path + keys| == |path| + |keys|;
    }
  }

  // ----- Leaves that count as equal -----

  /** What equality sees of a value: true is 1 and false is 0, here and inside lists and dictionaries. */
  function Untyped(value: Json): Json
    decreases value
  {
    match value
    case Bool(b) => Num(if b then 1.0 else 0.0)
    case Arr(items) => Arr(seq(|items|, i requires 0 <= i < |items| => Untyped(items[i])))
    case Obj(fields) => Obj(map k | k in fields :: Untyped(fields[k]))
    case _ => value
  }

  /** A table, as far as equality sees it. */
  function UntypedTable(table: Table): (r: Table)
    ensures r.Keys == table.Keys
  {
    map p | p in table :: Untyped(table[p])
  }

  lemma UntypedShape(value: Json)
    ensures IsLeaf(Untyped(value)) <==> IsLeaf(value)
    ensures value.Obj? <==> Untyped(value).Obj?
    ensures value.Obj? ==> Untyped(value).fields.Keys == value.fields.Keys
  {
    if value.Arr? {
      assert forall i :: 0 <= i < |value.items| ==> (Untyped(value).items[i].Str? <==> value.items[i].Str?);
      assert Strings(Untyped(value).items) <==> Strings(value.items);
    } else if value.Obj? {
      assert value.fields == map[] <==> value.fields.Keys == {};
      assert Untyped(value).fields == map[] <==> Untyped(value).fields.Keys == {};
    }
  }

  lemma {:induction false} UntypedIsNormal(n: Json)
    requires IsNormal(n)
    ensures IsNormal(Untyped(n))
    decreases n
  {
    UntypedShape(n);
    if !IsLeaf(n) {
      forall k | k in n.fields
        ensures IsNormal(Untyped(n).fields[k])
      {
        UntypedIsNormal(n.fields[k]);
      }
    }
  }

  /** A normal form may be read without its types before or after it is flattened. */
  lemma {:induction false} LeavesUntyped(n: Json, path: Path)
    requires IsNormal(n)
    ensures Leaves(Untyped(n), path) == UntypedTable(Leaves(n, path))
    decreases n
  {
    hide Leaves;
    UntypedShape(n);
    LeafLeaves(n, path);
    LeafLeaves(Untyped(n), path);
    if !IsLeaf(n) {
      forall k | k in n.fields
        ensures Leaves(Untyped(n).fields[k], path + [k]) == UntypedTable(Leaves(n.fields[k], path + [k]))
      {
        LeavesUntyped(n.fields[k], path + [k]);
      }
      UntypedEntries(n, path);
    }
  }

  lemma UntypedEntries(n: Json, path: Path)
    requires n.Obj? && !IsLeaf(n) && Untyped(n).Obj? && !IsLeaf(Untyped(n)) && Untyped(n).fields.Keys == n.fields.Keys
    requires forall k :: k in n.fields ==>
      Leaves(Untyped(n).fields[k], path + [k]) == UntypedTable(Leaves(n.fields[k], path + [k]))
    ensures Leaves(Untyped(n), path) == UntypedTable(Leaves(n, path))
  {
    hide Untyped, Leaves;
    LeavesUnder(n, path);
    LeavesUnder(Untyped(n), path);
    assert forall p :: Under(Untyped(n), path, p) <==> Under(n, path, p);
    forall p | p in Leaves(n, path)
      ensures Leaves(Untyped(n), path)[p] == Untyped(Leaves(n, path)[p])
    {
      var k := p[|path|];
      assert UntypedTable(Leaves(n.fields[k], path + [k]))[p] == Untyped(Leaves(n.fields[k], path + [k])[p]);
    }
  }

  /** Two values flatten to equal leaves exactly when their normal forms agree as far as equality sees. */
  lemma AlikeExactly(v: Json, w: Json, path: Path)
    ensures UntypedTable(Leaves(v, path)) == UntypedTable(Leaves(w, path)) <==> Untyped(Normal(v)) == Untyped(Normal(w))
  {
    hide Leaves, Normal, IsNormal, Untyped, UntypedTable;
    forall u | u == v || u == w
      ensures IsNormal(Untyped(Normal(u))) && Leaves(Untyped(Normal(u)), path) == UntypedTable(Leaves(u, path))
    {
      LeavesNormal(u, path);
      NormalIsNormal(u);
      UntypedIsNormal(Normal(u));
      LeavesUntyped(Normal(u), path);
    }
    if UntypedTable(Leaves(v, path)) == UntypedTable(Leaves(w, path)) {
      NormalsApart(Untyped(Normal(v)), Untyped(Normal(w)), path);
    }
  }

  lemma NormalEntries(value: Json)
    requires value.Obj? && forall k :: k in value.fields ==> value.fields[k].Num?
    ensures Normal(value) == value
  {
    if !IsLeaf(value) {
      assert Normal(value).fields == value.fields;
    }
  }

  /** A list of names, the dictionary of true and the dictionary of 1 flatten to equal leaves. */
  lemma NamesAlike(items: seq<Json>, path: Path)
    requires Strings(items) && items != []
    ensures var ones := Obj(map t | t in Texts(items) :: Num(1.0));
            UntypedTable(Leaves(Arr(items), path)) == UntypedTable(Leaves(ones, path))
  {
    hide Leaves, UntypedTable;
    assert items[0].text in Texts(items);
    hide Strings;
    var ones := Obj(map t | t in Texts(items) :: Num(1.0));
    AlikeExactly(Arr(items), ones, path);
    assert ones.fields.Keys == Texts(items) != {};
    NormalEntries(ones);
    assert Untyped(ones).fields == Untyped(Normal(Arr(items))).fields;
  }
}
