/** Merging a release's normal members with the pinned members of its sandbox. */
module MergeComponents {
  import opened Options

  type Source = string

  type Digest = string

  /** A file to package, under a member name. */
  datatype Item = Item(source: Source, name: string)

  /** A list of members that carries the digests pinned for some names. */
  datatype Components = Components(files: seq<Item>, expected: map<string, Digest>)

  /** str.casefold, and the digest of an ordinary file; a file that is not ordinary raises. */
  datatype Host = Host(fold: string -> string, sha: Source -> Option<Digest>)

  function Key(host: Host, item: Item): string {
    host.fold(item.name)
  }

  function Sha(host: Host, item: Item): Option<Digest> {
    host.sha(item.source)
  }

  /** Every file can be read; names equal up to case folding always are one name with one digest; no file contradicts a
      pinned digest. */
  predicate Compatible(host: Host, items: seq<Item>, pinned: map<string, Digest>) {
    && (forall x :: x in items ==> Sha(host, x).Some?)
    && (forall x, y :: x in items && y in items && Key(host, x) == Key(host, y) ==>
          x.name == y.name && Sha(host, x) == Sha(host, y))
    && (forall x :: x in items && x.name in pinned ==> Sha(host, x) == Some(pinned[x.name]))
  }

  function Keys(host: Host, items: seq<Item>): set<string> {
    set x | x in items :: Key(host, x)
  }

  function Names(items: seq<Item>): set<string> {
    set x | x in items :: x.name
  }

  /** One member for every folded name, and only from the inputs. */
  predicate OnePerName(host: Host, items: seq<Item>, files: seq<Item>) {
    && (forall f :: f in files ==> f in items)
    && Keys(host, files) == Keys(host, items)
    && (forall i, j :: 0 <= i < j < |files| ==> Key(host, files[i]) != Key(host, files[j]))
  }

  /** The first item under each folded name, in order. */
  function Firsts(host: Host, items: seq<Item>): seq<Item>
    decreases |items|
  {
    if items == [] then []
    else
      var most, last := items[..|items| - 1], items[|items| - 1];
      Firsts(host, most) + if Key(host, last) in Keys(host, most) then [] else [last]
  }

  lemma FirstsMore(host: Host, items: seq<Item>, item: Item)
    ensures Firsts(host, items + [item])
         == Firsts(host, items) + if Key(host, item) in Keys(host, items) then [] else [item]
  {
    hide Key, Keys;
    var all := items + [item];
    assert all[..|all| - 1] == items && all[|all| - 1] == item;
  }

  /** The pinned digests, and those of all inputs. */
  predicate PinsAll(host: Host, items: seq<Item>, pinned: map<string, Digest>, expected: map<string, Digest>) {
    && (forall n :: n in pinned ==> n in expected && expected[n] == pinned[n])
    && (forall x :: x in items ==> x.name in expected && Sha(host, x) == Some(expected[x.name]))
    && expected.Keys == pinned.Keys + Names(items)
  }

  // ----- The loop -----

  /** What the table of folded names seen so far says. */
  predicate SeenIs(host: Host, items: seq<Item>, seen: map<string, (string, Digest)>) {
    && seen.Keys == Keys(host, items)
    && (forall x :: x in items ==>
          Key(host, x) in seen && seen[Key(host, x)].0 == x.name && Some(seen[Key(host, x)].1) == Sha(host, x))
  }

  predicate Progress(host: Host, items: seq<Item>, pinned: map<string, Digest>, files: seq<Item>,
                     seen: map<string, (string, Digest)>, expected: map<string, Digest>) {
    && Compatible(host, items, pinned) && OnePerName(host, items, files) && PinsAll(host, items, pinned, expected)
    && SeenIs(host, items, seen) && files == Firsts(host, items)
  }

  lemma KeysMore(host: Host, items: seq<Item>, item: Item)
    ensures Keys(host, items + [item]) == Keys(host, items) + {Key(host, item)}
    ensures Names(items + [item]) == Names(items) + {item.name}
    ensures forall x :: x in items + [item] <==> x in items || x == item
  {
    hide Key;
    assert forall x :: x in items + [item] <==> x in items || x == item;
  }

  /** What the next item adds to the inputs' compatibility, in terms of what has been seen. */
  lemma CompatibleMore(host: Host, items: seq<Item>, item: Item, pinned: map<string, Digest>, seen: map<string,
                       (string, Digest)>)
    requires Compatible(host, items, pinned) && SeenIs(host, items, seen)
    ensures Compatible(host, items + [item], pinned) <==>
              && Sha(host, item).Some?
              && (item.name in pinned ==> Sha(host, item) == Some(pinned[item.name]))
              && (Key(host, item) in seen ==> seen[Key(host, item)] == (item.name, Sha(host, item).value))
  {
    hide Key, Sha;
    KeysMore(host, items, item);
    if Key(host, item) in seen {
      assert Key(host, item) in Keys(host, items);
      var twin :| twin in items && Key(host, twin) == Key(host, item);
      assert twin in items + [item] && item in items + [item];
    }
    assert item in items + [item];
  }

  /** The digest already expected for a name that was not seen is a pinned one. */
  lemma ExpectedIsPinned(host: Host, items: seq<Item>, item: Item, pinned: map<string, Digest>,
                         seen: map<string, (string, Digest)>, expected: map<string, Digest>)
    requires PinsAll(host, items, pinned, expected) && SeenIs(host, items, seen)
    requires Key(host, item) !in seen && item.name in expected
    ensures item.name in pinned && pinned[item.name] == expected[item.name]
  {
    forall x | x in items
      ensures x.name != item.name
    {
      assert Key(host, x) in seen;
    }
  }

  lemma SkipStep(host: Host, items: seq<Item>, item: Item, pinned: map<string, Digest>, files: seq<Item>,
                 seen: map<string, (string, Digest)>, expected: map<string, Digest>)
    requires Progress(host, items, pinned, files, seen, expected)
    requires Sha(host, item).Some? && Key(host, item) in seen
    requires seen[Key(host, item)] == (item.name, Sha(host, item).value)
    ensures Progress(host, items + [item], pinned, files, seen, expected)
  {
    var twin := Twin(host, items, item, seen);
    KeysMore(host, items, item);
    CompatibleMore(host, items, item, pinned, seen);
    SkipSeen(host, items, item, seen);
    SkipPins(host, items, item, twin, pinned, expected);
    FirstsMore(host, items, item);
    assert files + [] == files;
    hide Compatible, SeenIs, PinsAll, Key, Sha, Firsts;
    assert Keys(host, items + [item]) == Keys(host, items) by {
      SeenKeys(host, items, seen);
    }
  }

  lemma Twin(host: Host, items: seq<Item>, item: Item, seen: map<string, (string, Digest)>) returns (twin: Item)
    requires SeenIs(host, items, seen) && Sha(host, item).Some?
    requires Key(host, item) in seen && seen[Key(host, item)] == (item.name, Sha(host, item).value)
    ensures twin in items && twin.name == item.name && Sha(host, twin) == Sha(host, item)
  {
    assert Key(host, item) in Keys(host, items);
    hide Key, Sha;
    twin :| twin in items && Key(host, twin) == Key(host, item);
  }

  lemma SkipSeen(host: Host, items: seq<Item>, item: Item, seen: map<string, (string, Digest)>)
    requires SeenIs(host, items, seen) && Sha(host, item).Some?
    requires Key(host, item) in seen && seen[Key(host, item)] == (item.name, Sha(host, item).value)
    ensures SeenIs(host, items + [item], seen)
  {
    hide Key, Sha;
    KeysMore(host, items, item);
  }

  lemma SkipPins(host: Host, items: seq<Item>, item: Item, twin: Item, pinned: map<string, Digest>,
                 expected: map<string, Digest>)
    requires PinsAll(host, items, pinned, expected) && twin in items
    requires twin.name == item.name && Sha(host, twin) == Sha(host, item)
    ensures PinsAll(host, items + [item], pinned, expected)
  {
    hide Key, Sha;
    KeysMore(host, items, item);
    assert twin.name in Names(items);
  }

  lemma AddStep(host: Host, items: seq<Item>, item: Item, pinned: map<string, Digest>, files: seq<Item>,
                seen: map<string, (string, Digest)>, expected: map<string, Digest>)
    requires Progress(host, items, pinned, files, seen, expected)
    requires Sha(host, item).Some? && Key(host, item) !in seen
    requires item.name in expected ==> expected[item.name] == Sha(host, item).value
    ensures var value := Sha(host, item).value;
            Progress(host, items + [item], pinned, files + [item], seen[Key(host, item) := (item.name, value)],
                     expected[item.name := value])
  {
    if item.name in expected {
      ExpectedIsPinned(host, items, item, pinned, seen, expected);
    }
    CompatibleMore(host, items, item, pinned, seen);
    AddSeen(host, items, item, seen);
    AddPins(host, items, item, pinned, seen, expected);
    FirstsMore(host, items, item);
    SeenKeys(host, items, seen);
    hide Compatible, SeenIs, PinsAll, OnePerName, Key, Sha, Keys, Firsts;
    AddFile(host, items, item, files);
  }

  lemma AddFile(host: Host, items: seq<Item>, item: Item, files: seq<Item>)
    requires OnePerName(host, items, files) && Key(host, item) !in Keys(host, items)
    ensures OnePerName(host, items + [item], files + [item])
  {
    KeysMore(host, items, item);
    KeysMore(host, files, item);
    hide Key;
    forall f | f in files
      ensures Key(host, f) != Key(host, item)
    {
      assert Key(host, f) in Keys(host, files);
    }
  }

  lemma SeenKeys(host: Host, items: seq<Item>, seen: map<string, (string, Digest)>)
    requires SeenIs(host, items, seen)
    ensures seen.Keys == Keys(host, items)
  {
  }

  lemma AddSeen(host: Host, items: seq<Item>, item: Item, seen: map<string, (string, Digest)>)
    requires SeenIs(host, items, seen) && Sha(host, item).Some? && Key(host, item) !in seen
    ensures SeenIs(host, items + [item], seen[Key(host, item) := (item.name, Sha(host, item).value)])
  {
    hide Key, Sha;
    KeysMore(host, items, item);
  }

  lemma AddPins(host: Host, items: seq<Item>, item: Item, pinned: map<string, Digest>,
                seen: map<string, (string, Digest)>, expected: map<string, Digest>)
    requires PinsAll(host, items, pinned, expected) && Sha(host, item).Some?
    requires item.name in expected ==> expected[item.name] == Sha(host, item).value
    ensures PinsAll(host, items + [item], pinned, expected[item.name := Sha(host, item).value])
  {
    hide Key, Sha;
    KeysMore(host, items, item);
  }

  /** Where the loop raises, the inputs up to there are not compatible. */
  lemma RefuseStep(host: Host, items: seq<Item>, item: Item, pinned: map<string, Digest>, files: seq<Item>,
                   seen: map<string, (string, Digest)>, expected: map<string, Digest>)
    requires Progress(host, items, pinned, files, seen, expected)
    requires || Sha(host, item).None?
             || (Key(host, item) in seen && seen[Key(host, item)] != (item.name, Sha(host, item).value))
             || (Key(host, item) !in seen && item.name in expected && expected[item.name] != Sha(host, item).value)
    ensures !Compatible(host, items + [item], pinned)
  {
    CompatibleMore(host, items, item, pinned, seen);
    if Key(host, item) !in seen && item.name in expected {
      ExpectedIsPinned(host, items, item, pinned, seen, expected);
    }
  }

  lemma CompatiblePart(host: Host, items: seq<Item>, k: nat, pinned: map<string, Digest>)
    requires k <= |items| && Compatible(host, items, pinned)
    ensures Compatible(host, items[..k], pinned)
  {
  }

  lemma NothingYet(host: Host, pinned: map<string, Digest>)
    ensures Progress(host, [], pinned, [], map[], pinned)
  {
  }

  // ----- In terms of the host -----

  /** Every file has a digest; names that fold alike are one name, and its files have one digest; no file contradicts a
      pinned digest. */
  predicate Agree(host: Host, items: seq<Item>, pinned: map<string, Digest>) {
    && (forall x :: x in items ==> host.sha(x.source).Some?)
    && (forall x, y :: x in items && y in items && host.fold(x.name) == host.fold(y.name) ==>
          x.name == y.name && host.sha(x.source) == host.sha(y.source))
    && (forall x :: x in items && x.name in pinned ==> host.sha(x.source) == Some(pinned[x.name]))
  }

  lemma AgreeIs(host: Host, items: seq<Item>, pinned: map<string, Digest>)
    ensures Agree(host, items, pinned) <==> Compatible(host, items, pinned)
  {
  }

  /** No earlier item has a name that folds like this one's. */
  predicate FirstAt(host: Host, items: seq<Item>, i: int) {
    0 <= i < |items| && forall j :: 0 <= j < i ==> host.fold(items[j].name) != host.fold(items[i].name)
  }

  /** The files are the items at these places, in order: exactly the first under each folded name. */
  ghost predicate AreFirsts(host: Host, items: seq<Item>, files: seq<Item>, places: seq<int>) {
    && |places| == |files|
    && (forall k :: 0 <= k < |files| ==> 0 <= places[k] < |items| && files[k] == items[places[k]])
    && (forall k, l :: 0 <= k < l < |places| ==> places[k] < places[l])
    && (forall i :: i in places <==> FirstAt(host, items, i))
  }

  lemma {:induction false} FirstsAre(host: Host, items: seq<Item>) returns (places: seq<int>)
    ensures AreFirsts(host, items, Firsts(host, items), places)
    decreases |items|
  {
    if items == [] {
      places := [];
    } else {
      var most, n := items[..|items| - 1], |items| - 1;
      places := FirstsAre(host, most);
      assert forall i :: 0 <= i < n ==> (FirstAt(host, items, i) <==> FirstAt(host, most, i));
      LastFirst(host, items);
      if FirstAt(host, items, n) {
        FirstsGrow(host, items, Firsts(host, most), places);
        places := places + [n];
      } else {
        assert Firsts(host, most) + [] == Firsts(host, most);
        FirstsStay(host, items, Firsts(host, most), places);
      }
    }
  }

  lemma FirstsStay(host: Host, items: seq<Item>, files: seq<Item>, places: seq<int>)
    requires items != [] && AreFirsts(host, items[..|items| - 1], files, places) && !FirstAt(host, items, |items| - 1)
    requires forall i :: 0 <= i < |items| - 1 ==> (FirstAt(host, items, i) <==> FirstAt(host, items[..|items| - 1], i))
    ensures AreFirsts(host, items, files, places)
  {
    hide FirstAt;
    forall i
      ensures i in places <==> FirstAt(host, items, i)
    {
      FirstInside(host, items, i);
      FirstInside(host, items[..|items| - 1], i);
    }
  }

  lemma FirstInside(host: Host, items: seq<Item>, i: int)
    ensures FirstAt(host, items, i) ==> 0 <= i < |items|
  {
  }

  lemma FirstsGrow(host: Host, items: seq<Item>, files: seq<Item>, places: seq<int>)
    requires items != [] && AreFirsts(host, items[..|items| - 1], files, places) && FirstAt(host, items, |items| - 1)
    requires forall i :: 0 <= i < |items| - 1 ==> (FirstAt(host, items, i) <==> FirstAt(host, items[..|items| - 1], i))
    ensures AreFirsts(host, items, files + [items[|items| - 1]], places + [|items| - 1])
  {
    hide FirstAt;
    var n := |items| - 1;
    forall k | 0 <= k < |places|
      ensures 0 <= places[k] < n
    {
      assert places[k] in places;
    }
    forall i
      ensures i in places + [n] <==> FirstAt(host, items, i)
    {
      FirstInside(host, items, i);
      FirstInside(host, items[..n], i);
      assert i in places + [n] <==> i in places || i == n;
    }
  }

  lemma LastFirst(host: Host, items: seq<Item>)
    requires items != []
    ensures FirstAt(host, items, |items| - 1) <==> Key(host, items[|items| - 1]) !in Keys(host, items[..|items| - 1])
  {
    var most, last := items[..|items| - 1], items[|items| - 1];
    if FirstAt(host, items, |items| - 1) {
      forall x | x in most
        ensures Key(host, x) != Key(host, last)
      {
        var j :| 0 <= j < |most| && most[j] == x;
        assert items[j] == x;
      }
    } else {
      var j :| 0 <= j < |most| && host.fold(items[j].name) == host.fold(last.name);
      assert items[j] == most[j] && most[j] in most;
    }
  }

  /** Exactly the pinned names and the items' names have a digest: the pinned one, or the file's. */
  ghost predicate PinsExactly(host: Host, items: seq<Item>, pinned: map<string, Digest>,
                              expected: map<string, Digest>) {
    && (forall n :: n in expected <==> n in pinned || exists x :: x in items && x.name == n)
    && (forall n :: n in pinned ==> n in expected && expected[n] == pinned[n])
    && (forall x :: x in items ==> x.name in expected && host.sha(x.source) == Some(expected[x.name]))
  }

  lemma PinsAre(host: Host, items: seq<Item>, pinned: map<string, Digest>, expected: map<string, Digest>)
    ensures PinsExactly(host, items, pinned, expected) <==> PinsAll(host, items, pinned, expected)
  {
    assert forall n :: n in Names(items) <==> exists x :: x in items && x.name == n;
    if PinsExactly(host, items, pinned, expected) {
      assert expected.Keys == pinned.Keys + Names(items);
    }
  }

  /** Succeeds exactly where the inputs agree. Then the members are the first inputs under each folded name, in
      order, and all digests are pinned. */
  method Merge(host: Host, normal: seq<Item>, components: Components) returns (r: Option<Components>)
    ensures r.Some? <==> Agree(host, normal + components.files, components.expected)
    ensures r.Some? ==>
              && (exists places :: AreFirsts(host, normal + components.files, r.value.files, places))
              && OnePerName(host, normal + components.files, r.value.files)
              && PinsExactly(host, normal + components.files, components.expected, r.value.expected)
  {
    hide Compatible, Agree, OnePerName, PinsAll, PinsExactly, SeenIs, Key, Sha, Firsts, AreFirsts;
    AgreeIs(host, normal + components.files, components.expected);
    var items := normal + components.files;
    var files: seq<Item> := [];
    var seen: map<string, (string, Digest)> := map[];
    var expected := components.expected;
    NothingYet(host, expected);
    var i := 0;
    while i < |items|
      invariant 0 <= i <= |items|
      invariant Progress(host, items[..i], components.expected, files, seen, expected)
    {
      var item := items[i];
      assert items[..i + 1] == items[..i] + [item];
      var value := Sha(host, item);
      var key := Key(host, item);
      if value.None? || (key in seen && seen[key] != (item.name, value.value))
         || (key !in seen && item.name in expected && expected[item.name] != value.value) {
        RefuseStep(host, items[..i], item, components.expected, files, seen, expected);
        if Compatible(host, items, components.expected) {
          CompatiblePart(host, items, i + 1, components.expected);
        }
        return None;
      }
      if key in seen {
        SkipStep(host, items[..i], item, components.expected, files, seen, expected);
        i := i + 1;
        continue;
      }
      AddStep(host, items[..i], item, components.expected, files, seen, expected);
      files := files + [item];
      seen := seen[key := (item.name, value.value)];
      expected := expected[item.name := value.value];
      i := i + 1;
    }
    assert items[..i] == items;
    ghost var places := FirstsAre(host, items);
    PinsAre(host, items, components.expected, expected);
    r := Some(Components(files, expected));
  }

  /** In a merged result every input is there under its own name, with its own digest. */
  lemma Represented(host: Host, items: seq<Item>, pinned: map<string, Digest>, files: seq<Item>, x: Item)
    returns (f: Item)
    requires Agree(host, items, pinned) && OnePerName(host, items, files) && x in items
    ensures f in files && f.name == x.name && host.sha(f.source) == host.sha(x.source)
  {
    AgreeIs(host, items, pinned);
    hide Agree, Key;
    assert Key(host, x) in Keys(host, items);
    f :| f in files && Key(host, f) == Key(host, x);
  }
}
