/** The identity of a runtime tree: a hash over length-framed, sorted entries of its regular files. */
module TreeDigest {
  import opened Bits
  import opened Bytes
  import ModArith
  import opened Options
  import opened ReleaseName

  /** What an entry of the tree can be; modes are the permission bits including the special ones. */
  datatype Node = Regular(content: Bytes, mode: nat) | Directory(mode: nat) | Symlink | Special

  type Path = s: Bytes | |s| < Pow256(8) witness []

  type Hash = s: Bytes | |s| == 32 witness seq(32, _ => 0)

  /** Everything below the root, by relative path. */
  type Tree = map<Path, Node>

  type Mode = m: nat | m < 512

  datatype Entry = Entry(path: Path, digest: Hash, mode: Mode)

  const PREFIX: Bytes := [103, 101, 110, 116, 45, 114, 117, 110, 116, 105, 109, 101, 45, 116, 114, 101, 101, 45, 118,
                          49, 0]
  const MAX_FILES: nat := 20000
  const MAX_BYTES: nat := 8 * 1024 * 1024 * 1024

  /** mode & 0o777 */
  function Permissions(mode: nat): Mode {
    mode % 512
  }

  /** A real file or directory without set-id or sticky bits (mode & 0o7000). */
  predicate Plain(node: Node) {
    (node.Regular? || node.Directory?) && node.mode / 512 % 8 == 0
  }

  /** The paths of a tree, each once, in some order: what walking the directory yields. */
  ghost predicate Enumerates(order: seq<Path>, keys: set<Path>) {
    && (forall p :: p in order <==> p in keys)
    && (forall i, j :: 0 <= i < j < |order| ==> order[i] != order[j])
  }

  // ----- The digest -----

  function EntriesOf(sha: Bytes -> Hash, tree: Tree, order: seq<Path>): (entries: seq<Entry>)
    requires forall p :: p in order ==> p in tree
    ensures |entries| <= |order|
  {
    if order == [] then []
    else
      var rest := EntriesOf(sha, tree, order[..|order| - 1]);
      var path := order[|order| - 1];
      match tree[path]
      case Regular(content, mode) => rest + [Entry(path, sha(content), Permissions(mode))]
      case _ => rest
  }

  function TotalSize(tree: Tree, order: seq<Path>): nat
    requires forall p :: p in order ==> p in tree
  {
    if order == [] then 0
    else
      var path := order[|order| - 1];
      TotalSize(tree, order[..|order| - 1]) + (if tree[path].Regular? then |tree[path].content| else 0)
  }

  /** Unsigned lexicographic order on byte strings. */
  predicate Less(a: Bytes, b: Bytes) {
    b != [] && (a == [] || a[0] < b[0] || (a[0] == b[0] && Less(a[1..], b[1..])))
  }

  function Insert(e: Entry, sorted: seq<Entry>): seq<Entry> {
    if sorted == [] || Less(e.path, sorted[0].path) then [e] + sorted
    else [sorted[0]] + Insert(e, sorted[1..])
  }

  function Sort(entries: seq<Entry>): seq<Entry> {
    if entries == [] then [] else Insert(entries[|entries| - 1], Sort(entries[..|entries| - 1]))
  }

  function Frame(e: Entry): Bytes {
    assert Pow256(4) == 0x1_0000_0000;
    BigEndian(|e.path|, 8) + e.path + e.digest + BigEndian(e.mode, 4)
  }

  function Frames(entries: seq<Entry>): Bytes {
    if entries == [] then [] else Frame(entries[0]) + Frames(entries[1..])
  }

  predicate Acceptable(sha: Bytes -> Hash, tree: Tree, order: seq<Path>)
    requires forall p :: p in order ==> p in tree
  {
    && (forall i :: 0 <= i < |order| ==> Plain(tree[order[i]]))
    && |EntriesOf(sha, tree, order)| <= MAX_FILES
    && TotalSize(tree, order) <= MAX_BYTES
  }

  /** The byte string that is hashed. */
  function Preimage(sha: Bytes -> Hash, tree: Tree, order: seq<Path>): Bytes
    requires forall p :: p in order ==> p in tree
  {
    PREFIX + Frames(Sort(EntriesOf(sha, tree, order)))
  }

  function DigestOf(sha: Bytes -> Hash, tree: Tree, order: seq<Path>): Option<Hash>
    requires forall p :: p in order ==> p in tree
  {
    if Acceptable(sha, tree, order) then Some(sha(Preimage(sha, tree, order))) else None
  }

  /** First half of the digest: walk the tree, refusing what is not a plain file or directory. */
  method WalkEntries(sha: Bytes -> Hash, tree: Tree, order: seq<Path>) returns (result: Option<seq<Entry>>)
    requires forall p :: p in order ==> p in tree
    ensures result == if Acceptable(sha, tree, order) then Some(EntriesOf(sha, tree, order)) else None
  {
    hide Plain, EntriesOf, TotalSize;
    WalkStart(sha, tree);
    var entries: seq<Entry> := [];
    var total := 0;
    for i := 0 to |order|
      invariant entries == EntriesOf(sha, tree, order[..i])
      invariant total == TotalSize(tree, order[..i])
      invariant |entries| <= MAX_FILES && total <= MAX_BYTES
      invariant forall j :: 0 <= j < i ==> Plain(tree[order[j]])
    {
      var node := tree[order[i]];
      WalkStep(sha, tree, order[..i], order[i]);
      assert order[..i + 1] == order[..i] + [order[i]];
      if !Plain(node) {
        return None;
      }
      if node.Regular? {
        total := total + |node.content|;
        entries := entries + [Entry(order[i], sha(node.content), Permissions(node.mode))];
      }
      if |entries| > MAX_FILES || total > MAX_BYTES {
        GrowsWithOrder(sha, tree, order, i + 1);
        return None;
      }
    }
    assert order[..|order|] == order;
    result := Some(entries);
  }

  method TreeDigest(sha: Bytes -> Hash, tree: Tree, order: seq<Path>) returns (digest: Option<Hash>)
    requires forall p :: p in order ==> p in tree
    ensures digest == DigestOf(sha, tree, order)
  {
    hide Frame, EntriesOf, Sort, Acceptable;
    var entries := WalkEntries(sha, tree, order);
    if entries.None? {
      return None;
    }
    var sorted := Sort(entries.value);
    var stream := PREFIX;
    for i := 0 to |sorted|
      invariant stream == PREFIX + Frames(sorted[..i])
    {
      var e := sorted[i];
      FramesSnoc(sorted[..i], e);
      assert sorted[..i + 1] == sorted[..i] + [e];
      stream := stream + Frame(e);
    }
    assert sorted[..|sorted|] == sorted;
    digest := Some(sha(stream));
  }

  lemma WalkStart(sha: Bytes -> Hash, tree: Tree)
    ensures EntriesOf(sha, tree, []) == [] && TotalSize(tree, []) == 0
  {
  }

  lemma WalkStep(sha: Bytes -> Hash, tree: Tree, seen: seq<Path>, path: Path)
    requires path in tree && forall p :: p in seen ==> p in tree
    ensures var node := tree[path];
      && EntriesOf(sha, tree, seen + [path]) == EntriesOf(sha, tree, seen) +
           (if node.Regular? then [Entry(path, sha(node.content), Permissions(node.mode))] else [])
      && TotalSize(tree, seen + [path]) == TotalSize(tree, seen) + if node.Regular? then |node.content| else 0
  {
    assert (seen + [path])[..|seen|] == seen;
  }

  lemma {:induction false} GrowsWithOrder(sha: Bytes -> Hash, tree: Tree, order: seq<Path>, i: nat)
    requires i <= |order| && forall p :: p in order ==> p in tree
    ensures |EntriesOf(sha, tree, order[..i])| <= |EntriesOf(sha, tree, order)|
    ensures TotalSize(tree, order[..i]) <= TotalSize(tree, order)
  {
    if i < |order| {
      var shorter := order[..|order| - 1];
      GrowsWithOrder(sha, tree, shorter, i);
      assert shorter[..i] == order[..i];
    } else {
      assert order[..i] == order;
    }
  }

  lemma {:induction false} FramesSnoc(entries: seq<Entry>, last: Entry)
    ensures Frames(entries + [last]) == Frames(entries) + Frame(last)
  {
    var whole := entries + [last];
    if entries == [] {
      assert whole[1..] == [];
    } else {
      assert whole[1..] == entries[1..] + [last];
      FramesSnoc(entries[1..], last);
    }
  }

  // ----- Sorting -----

  ghost predicate Sorted(entries: seq<Entry>) {
    forall i, j :: 0 <= i < j < |entries| ==> Less(entries[i].path, entries[j].path)
  }

  ghost predicate DistinctPaths(entries: seq<Entry>) {
    forall i, j :: 0 <= i < j < |entries| ==> entries[i].path != entries[j].path
  }

  lemma {:induction false} LessTrans(a: Bytes, b: Bytes, c: Bytes)
    requires Less(a, b) && Less(b, c)
    ensures Less(a, c)
  {
    if a != [] && a[0] == b[0] && b[0] == c[0] {
      LessTrans(a[1..], b[1..], c[1..]);
    }
  }

  lemma {:induction false} LessTotal(a: Bytes, b: Bytes)
    ensures a == b || Less(a, b) || Less(b, a)
    ensures !(Less(a, b) && Less(b, a)) && !Less(a, a)
  {
    if a != [] && b != [] {
      LessTotal(a[1..], b[1..]);
      assert a == [a[0]] + a[1..] && b == [b[0]] + b[1..];
    }
    if a != [] {
      LessIrreflexive(a);
    }
  }

  lemma {:induction false} LessIrreflexive(a: Bytes)
    ensures !Less(a, a)
  {
    if a != [] {
      LessIrreflexive(a[1..]);
    }
  }

  lemma {:induction false} InsertKeeps(e: Entry, sorted: seq<Entry>)
    requires Sorted(sorted) && forall i :: 0 <= i < |sorted| ==> sorted[i].path != e.path
    ensures Sorted(Insert(e, sorted))
    ensures forall x :: x in Insert(e, sorted) <==> x == e || x in sorted
  {
    if sorted == [] {
    } else if Less(e.path, sorted[0].path) {
      forall j | 0 <= j < |sorted| ensures Less(e.path, sorted[j].path) {
        if j > 0 {
          LessTrans(e.path, sorted[0].path, sorted[j].path);
        }
      }
    } else {
      LessTotal(e.path, sorted[0].path);
      var rest := sorted[1..];
      InsertKeeps(e, rest);
      var result := Insert(e, rest);
      forall j | 0 <= j < |result| ensures Less(sorted[0].path, result[j].path) {
        assert result[j] in result;
        if result[j] != e {
          assert result[j] in rest;
        }
      }
      assert sorted == [sorted[0]] + rest;
    }
  }

  lemma {:induction false} SortSorts(entries: seq<Entry>)
    requires DistinctPaths(entries)
    ensures Sorted(Sort(entries))
    ensures forall x :: x in Sort(entries) <==> x in entries
  {
    if entries != [] {
      var init, last := entries[..|entries| - 1], entries[|entries| - 1];
      SortSorts(init);
      forall i | 0 <= i < |Sort(init)| ensures Sort(init)[i].path != last.path {
        assert Sort(init)[i] in init;
      }
      InsertKeeps(last, Sort(init));
      assert entries == init + [last];
    }
  }

  /** A strictly sorted list is determined by what it contains. */
  lemma {:induction false} SortedUnique(s: seq<Entry>, t: seq<Entry>)
    requires Sorted(s) && Sorted(t) && forall x :: x in s <==> x in t
    ensures s == t
  {
    assert t == [] || t[0] in s;
    if s != [] {
      assert s[0] in t;
      assert t[0] in s;
      SameHead(s, t);
      SameTail(s, t);
      SortedUnique(s[1..], t[1..]);
      assert s == [s[0]] + s[1..] && t == [t[0]] + t[1..];
    }
  }

  lemma SameHead(s: seq<Entry>, t: seq<Entry>)
    requires Sorted(s) && Sorted(t) && s != [] && t != [] && s[0] in t && t[0] in s
    ensures s[0] == t[0]
  {
    LessTotal(s[0].path, t[0].path);
  }

  lemma SameTail(s: seq<Entry>, t: seq<Entry>)
    requires Sorted(s) && Sorted(t) && s != [] && t != [] && s[0] == t[0]
    requires forall x :: x in s <==> x in t
    ensures forall x :: x in s[1..] <==> x in t[1..]
  {
    forall x ensures x in s[1..] <==> x in t[1..] {
      LessIrreflexive(s[0].path);
      if x in s[1..] {
        assert x in t;
      }
      if x in t[1..] {
        assert x in s;
      }
    }
  }

  // ----- The digest does not depend on the order of the walk -----

  lemma {:induction false} EntriesContents(sha: Bytes -> Hash, tree: Tree, order: seq<Path>)
    requires forall p :: p in order ==> p in tree
    ensures forall e :: e in EntriesOf(sha, tree, order) <==>
      e.path in order && tree[e.path].Regular?
      && e == Entry(e.path, sha(tree[e.path].content), Permissions(tree[e.path].mode))
  {
    if order != [] {
      var init, path := order[..|order| - 1], order[|order| - 1];
      EntriesContents(sha, tree, init);
      assert forall p :: p in order <==> p in init || p == path;
    }
  }

  lemma {:induction false} EntriesDistinct(sha: Bytes -> Hash, tree: Tree, order: seq<Path>)
    requires forall p :: p in order ==> p in tree
    requires forall i, j :: 0 <= i < j < |order| ==> order[i] != order[j]
    ensures DistinctPaths(EntriesOf(sha, tree, order))
  {
    if order != [] {
      var init, path := order[..|order| - 1], order[|order| - 1];
      EntriesDistinct(sha, tree, init);
      EntriesContents(sha, tree, init);
      var entries := EntriesOf(sha, tree, init);
      forall i | 0 <= i < |entries| ensures entries[i].path != path {
        assert entries[i] in entries;
      }
    }
  }

  lemma {:induction false} SizeWithout(tree: Tree, order: seq<Path>, k: nat)
    requires k < |order| && forall p :: p in order ==> p in tree
    ensures var rest := order[..k] + order[k + 1..];
      && (forall p :: p in rest ==> p in tree)
      && TotalSize(tree, order)
         == TotalSize(tree, rest) + (if tree[order[k]].Regular? then |tree[order[k]].content| else 0)
  {
    var rest := order[..k] + order[k + 1..];
    if k == |order| - 1 {
      assert rest == order[..k];
    } else {
      var init := order[..|order| - 1];
      SizeWithout(tree, init, k);
      assert init[..k] + init[k + 1..] == rest[..|rest| - 1];
      assert rest[|rest| - 1] == order[|order| - 1];
    }
  }

  lemma RemovedEnumerates(order: seq<Path>, keys: set<Path>, k: nat)
    requires Enumerates(order, keys) && k < |order|
    ensures Enumerates(order[..k] + order[k + 1..], keys - {order[k]})
  {
    var rest := order[..k] + order[k + 1..];
    assert forall i :: 0 <= i < |rest| ==> rest[i] == if i < k then order[i] else order[i + 1];
    forall p ensures p in rest <==> p in keys - {order[k]} {
      if p in keys - {order[k]} {
        assert p in order;
        var i :| 0 <= i < |order| && order[i] == p;
        assert rest[if i < k then i else i - 1] == p;
      }
    }
  }

  lemma {:induction false} SizeOfKeys(tree: Tree, a: seq<Path>, b: seq<Path>, keys: set<Path>)
    requires Enumerates(a, keys) && Enumerates(b, keys) && keys <= tree.Keys
    ensures |a| == |b| && TotalSize(tree, a) == TotalSize(tree, b)
    decreases |a|
  {
    assert b == [] || b[0] in a;
    if a != [] {
      var k := |a| - 1;
      assert a[k] in b;
      var j :| 0 <= j < |b| && b[j] == a[k];
      RemovedEnumerates(a, keys, k);
      RemovedEnumerates(b, keys, j);
      SizeWithout(tree, a, k);
      SizeWithout(tree, b, j);
      SizeOfKeys(tree, a[..k] + a[k + 1..], b[..j] + b[j + 1..], keys - {a[k]});
    }
  }

  lemma SortKeepsLength(entries: seq<Entry>)
    ensures |Sort(entries)| == |entries|
  {
    if entries != [] {
      var init := entries[..|entries| - 1];
      SortKeepsLength(init);
      InsertLength(entries[|entries| - 1], Sort(init));
    }
  }

  lemma InsertLength(e: Entry, sorted: seq<Entry>)
    ensures |Insert(e, sorted)| == |sorted| + 1
  {
  }

  lemma SortedEntriesAgree(sha: Bytes -> Hash, tree: Tree, a: seq<Path>, b: seq<Path>)
    requires Enumerates(a, tree.Keys) && Enumerates(b, tree.Keys)
    ensures Sort(EntriesOf(sha, tree, a)) == Sort(EntriesOf(sha, tree, b))
  {
    EntriesContents(sha, tree, a);
    EntriesContents(sha, tree, b);
    EntriesDistinct(sha, tree, a);
    EntriesDistinct(sha, tree, b);
    SortSorts(EntriesOf(sha, tree, a));
    SortSorts(EntriesOf(sha, tree, b));
    SortedUnique(Sort(EntriesOf(sha, tree, a)), Sort(EntriesOf(sha, tree, b)));
  }

  /** Every enumeration of the same tree gives the same digest, or the same refusal. */
  lemma OrderIrrelevant(sha: Bytes -> Hash, tree: Tree, a: seq<Path>, b: seq<Path>)
    requires Enumerates(a, tree.Keys) && Enumerates(b, tree.Keys)
    ensures DigestOf(sha, tree, a) == DigestOf(sha, tree, b)
  {
    SortedEntriesAgree(sha, tree, a, b);
    SortKeepsLength(EntriesOf(sha, tree, a));
    SortKeepsLength(EntriesOf(sha, tree, b));
    SizeOfKeys(tree, a, b, tree.Keys);
    assert Acceptable(sha, tree, a) == Acceptable(sha, tree, b) by {
      PlainEverywhere(tree, a);
      PlainEverywhere(tree, b);
    }
  }

  lemma PlainEverywhere(tree: Tree, order: seq<Path>)
    requires Enumerates(order, tree.Keys)
    ensures (forall i :: 0 <= i < |order| ==> Plain(tree[order[i]])) <==> (forall p :: p in tree ==> Plain(tree[p]))
  {
    if forall i :: 0 <= i < |order| ==> Plain(tree[order[i]]) {
      forall p | p in tree ensures Plain(tree[p]) {
        assert p in order;
      }
    }
    forall i | 0 <= i < |order| && (forall p :: p in tree ==> Plain(tree[p])) ensures Plain(tree[order[i]]) {
      assert order[i] in order;
    }
  }

  // ----- The framing is uniquely decodable -----

  /** Read one frame back; the reader knows only the framing, not where the entry came from. */
  function ReadFrame(s: Bytes): Option<(Entry, Bytes)> {
    if |s| < 8 then None
    else
      var n := FromBigEndian(s[..8]);
      if n >= Pow256(8) || |s| < 44 + n then None
      else
        var mode := FromBigEndian(s[40 + n..44 + n]);
        if mode >= 512 then None
        else Some((Entry(s[8..8 + n], s[8 + n..40 + n], mode), s[44 + n..]))
  }

  function ReadFrames(s: Bytes): Option<seq<Entry>>
    decreases |s|
  {
    if s == [] then Some([])
    else
      match ReadFrame(s)
      case None => None
      case Some((e, rest)) =>
        match ReadFrames(rest)
        case None => None
        case Some(entries) => Some([e] + entries)
  }

  lemma ReadOneFrame(e: Entry, rest: Bytes)
    ensures ReadFrame(Frame(e) + rest) == Some((e, rest))
  {
    assert Pow256(4) == 0x1_0000_0000;
    var n := |e.path|;
    var head, tail := BigEndian(n, 8), BigEndian(e.mode, 4);
    var s := Frame(e) + rest;
    BigEndianRoundTrip(n, 8);
    BigEndianRoundTrip(e.mode, 4);
    assert s == head + e.path + e.digest + tail + rest;
    assert s[..8] == head;
    assert s[8..8 + n] == e.path;
    assert s[8 + n..40 + n] == e.digest;
    assert s[40 + n..44 + n] == tail;
    assert s[44 + n..] == rest;
  }

  /** The hashed stream determines the list of entries. */
  lemma {:induction false} FramesRoundTrip(entries: seq<Entry>)
    ensures ReadFrames(Frames(entries)) == Some(entries)
  {
    if entries != [] {
      ReadOneFrame(entries[0], Frames(entries[1..]));
      FramesRoundTrip(entries[1..]);
      assert entries == [entries[0]] + entries[1..];
    }
  }

  // ----- What the digest identifies -----

  datatype File = File(content: Bytes, mode: Mode)

  /** The regular files of a tree; empty directories are not part of its identity. */
  function Files(tree: Tree): map<Path, File> {
    map p | p in tree && tree[p].Regular? :: File(tree[p].content, Permissions(tree[p].mode))
  }

  predicate Collision(sha: Bytes -> Hash, a: Bytes, b: Bytes) {
    a != b && sha(a) == sha(b)
  }

  lemma PreimageEntries(sha: Bytes -> Hash, t: Tree, a: seq<Path>, u: Tree, b: seq<Path>)
    requires Enumerates(a, t.Keys) && Enumerates(b, u.Keys)
    requires Preimage(sha, t, a) == Preimage(sha, u, b)
    ensures forall e :: e in EntriesOf(sha, t, a) <==> e in EntriesOf(sha, u, b)
  {
    var s, r := Sort(EntriesOf(sha, t, a)), Sort(EntriesOf(sha, u, b));
    assert Preimage(sha, t, a)[|PREFIX|..] == Frames(s);
    assert Preimage(sha, u, b)[|PREFIX|..] == Frames(r);
    FramesRoundTrip(s);
    FramesRoundTrip(r);
    EntriesDistinct(sha, t, a);
    EntriesDistinct(sha, u, b);
    SortSorts(EntriesOf(sha, t, a));
    SortSorts(EntriesOf(sha, u, b));
  }

  // ----- In terms of the nodes themselves -----

  /** The permission bits are the nine lowest of the mode. */
  lemma PermissionBits(mode: nat, j: nat)
    ensures Bit(Permissions(mode), j) <==> j < 9 && Bit(mode, j)
  {
    assert Pow2(9) == 512;
    BitOfLow(mode, 9, j);
  }

  ghost predicate LowBitsAgree(m: nat, n: nat) {
    forall j: nat :: j < 9 ==> (Bit(m, j) <==> Bit(n, j))
  }

  lemma SamePermissions(m: nat, n: nat)
    ensures Permissions(m) == Permissions(n) <==> LowBitsAgree(m, n)
  {
    hide Bit, Permissions;
    forall j: nat
      ensures Bit(Permissions(m), j) <==> j < 9 && Bit(m, j)
      ensures Bit(Permissions(n), j) <==> j < 9 && Bit(n, j)
    {
      PermissionBits(m, j);
      PermissionBits(n, j);
    }
    if Permissions(m) == Permissions(n) {
      forall j: nat | j < 9
        ensures Bit(m, j) <==> Bit(n, j)
      {
        assert Bit(Permissions(m), j) <==> Bit(Permissions(n), j);
      }
      assert LowBitsAgree(m, n);
    }
    if LowBitsAgree(m, n) {
      forall j: nat
        ensures Bit(Permissions(m), j) <==> Bit(Permissions(n), j)
      {
        assert j < 9 ==> (Bit(m, j) <==> Bit(n, j));
      }
      BitsDetermine(Permissions(m), Permissions(n));
    }
  }

  predicate IsFile(tree: Tree, p: Path) {
    p in tree && tree[p].Regular?
  }

  /** The same regular files: the same paths, with the same contents and the same nine permission bits. */
  ghost predicate SameFiles(t: Tree, u: Tree) {
    && (forall p :: IsFile(t, p) <==> IsFile(u, p))
    && (forall p :: IsFile(t, p) && IsFile(u, p) ==> t[p].content == u[p].content)
    && (forall p :: IsFile(t, p) && IsFile(u, p) ==> LowBitsAgree(t[p].mode, u[p].mode))
  }

  lemma FilesSame(t: Tree, u: Tree)
    ensures Files(t) == Files(u) <==> SameFiles(t, u)
  {
    hide Permissions, LowBitsAgree;
    forall p | IsFile(t, p) && IsFile(u, p)
      ensures Permissions(t[p].mode) == Permissions(u[p].mode) <==> LowBitsAgree(t[p].mode, u[p].mode)
    {
      SamePermissions(t[p].mode, u[p].mode);
    }
    FilesAre(t);
    FilesAre(u);
    hide Files;
    if Files(t) == Files(u) {
      forall p | IsFile(t, p) && IsFile(u, p)
        ensures t[p].content == u[p].content && Permissions(t[p].mode) == Permissions(u[p].mode)
      {
        assert Files(t)[p] == Files(u)[p];
      }
    }
  }

  lemma FilesAre(t: Tree)
    ensures forall p :: p in Files(t) <==> IsFile(t, p)
    ensures forall p :: p in Files(t) ==> Files(t)[p] == File(t[p].content, Permissions(t[p].mode))
  {
  }

  /** Equal digests mean the same regular files, unless the hash collides on the two streams or on the contents of
      one file. */
  lemma DigestIdentifies(sha: Bytes -> Hash, t: Tree, a: seq<Path>, u: Tree, b: seq<Path>)
    requires Enumerates(a, t.Keys) && Enumerates(b, u.Keys)
    requires DigestOf(sha, t, a).Some? && DigestOf(sha, t, a) == DigestOf(sha, u, b)
    ensures || SameFiles(t, u)
            || Collision(sha, Preimage(sha, t, a), Preimage(sha, u, b))
            || exists p :: IsFile(t, p) && IsFile(u, p) && Collision(sha, t[p].content, u[p].content)
  {
    hide Permissions, Bit;
    FilesSame(t, u);
    hide SameFiles;
    if Preimage(sha, t, a) == Preimage(sha, u, b) {
      PreimageEntries(sha, t, a, u, b);
      EntriesContents(sha, t, a);
      EntriesContents(sha, u, b);
      EntryOfFile(sha, t, a);
      EntryOfFile(sha, u, b);
      assert Files(t).Keys == Files(u).Keys;
    }
  }

  lemma EntryOfFile(sha: Bytes -> Hash, tree: Tree, order: seq<Path>)
    requires Enumerates(order, tree.Keys)
    ensures forall p {:trigger p in Files(tree)} :: p in Files(tree) <==>
      p in tree && tree[p].Regular?
      && Entry(p, sha(tree[p].content), Permissions(tree[p].mode)) in EntriesOf(sha, tree, order)
  {
    EntriesContents(sha, tree, order);
  }

  /** The same regular files give equal digests, whatever directories surround them. */
  lemma FilesDetermineDigest(sha: Bytes -> Hash, t: Tree, a: seq<Path>, u: Tree, b: seq<Path>)
    requires Enumerates(a, t.Keys) && Enumerates(b, u.Keys)
    requires DigestOf(sha, t, a).Some? && DigestOf(sha, u, b).Some? && SameFiles(t, u)
    ensures DigestOf(sha, t, a) == DigestOf(sha, u, b)
  {
    FilesSame(t, u);
    hide SameFiles, Permissions, Bit;
    EntriesContents(sha, t, a);
    EntriesContents(sha, u, b);
    EntriesDistinct(sha, t, a);
    EntriesDistinct(sha, u, b);
    SortSorts(EntriesOf(sha, t, a));
    SortSorts(EntriesOf(sha, u, b));
    forall e ensures e in EntriesOf(sha, t, a) <==> e in EntriesOf(sha, u, b) {
      assert e.path in Files(t) <==> e.path in Files(u);
    }
    SortedUnique(Sort(EntriesOf(sha, t, a)), Sort(EntriesOf(sha, u, b)));
  }

  // ----- What is hashed, and what is refused -----

  /** A regular file or a directory whose mode has no set-user, set-group or sticky bit. */
  ghost predicate Ordinary(node: Node) {
    (node.Regular? || node.Directory?) && !Bit(node.mode, 9) && !Bit(node.mode, 10) && !Bit(node.mode, 11)
  }

  lemma PlainIsOrdinary(node: Node)
    ensures Plain(node) <==> Ordinary(node)
  {
    if node.Regular? || node.Directory? {
      assert Pow2(9) == 512;
      BitShift(node.mode, 9, node.mode / 512, 0);
      BitShift(node.mode, 9, node.mode / 512, 1);
      BitShift(node.mode, 9, node.mode / 512, 2);
      ThreeBits(node.mode / 512);
    }
  }

  lemma ThreeBits(h: nat)
    ensures h % 8 == 0 <==> !Bit(h, 0) && !Bit(h, 1) && !Bit(h, 2)
  {
    assert Bit(h, 1) == Bit(h / 2, 0);
    assert Bit(h, 2) == Bit(h / 2, 1) == Bit(h / 2 / 2, 0);
    var k := h / 2;
    var l := k / 2;
    Eighths(h, l / 2, h % 2, k % 2, l % 2);
  }

  lemma Eighths(h: nat, m: nat, a: nat, b: nat, c: nat)
    requires h == 8 * m + 4 * c + 2 * b + a && a < 2 && b < 2 && c < 2
    ensures h % 8 == 0 <==> a == 0 && b == 0 && c == 0
  {
    ModArith.Remainder(8, h, m, 4 * c + 2 * b + a);
  }

  /** All contents, one after the other. */
  function Contents(tree: Tree, order: seq<Path>): Bytes
    requires forall p :: p in order ==> p in tree
  {
    if order == [] then []
    else
      var path := order[|order| - 1];
      Contents(tree, order[..|order| - 1]) + (if tree[path].Regular? then tree[path].content else [])
  }

  lemma {:induction false} SizeIs(tree: Tree, order: seq<Path>)
    requires forall p :: p in order ==> p in tree
    ensures TotalSize(tree, order) == |Contents(tree, order)|
  {
    if order != [] {
      SizeIs(tree, order[..|order| - 1]);
    }
  }

  function FilesAmong(tree: Tree, paths: set<Path>): set<Path> {
    set p | p in paths && IsFile(tree, p)
  }

  function PathSet(order: seq<Path>): set<Path> {
    set p | p in order
  }

  lemma {:induction false} EntryCount(sha: Bytes -> Hash, tree: Tree, order: seq<Path>)
    requires forall p :: p in order ==> p in tree
    requires forall i, j :: 0 <= i < j < |order| ==> order[i] != order[j]
    ensures |EntriesOf(sha, tree, order)| == |FilesAmong(tree, PathSet(order))|
  {
    if order == [] {
      assert FilesAmong(tree, PathSet(order)) == {};
    } else {
      var init, path := order[..|order| - 1], order[|order| - 1];
      EntryCount(sha, tree, init);
      assert order == init + [path];
      WalkStep(sha, tree, init, path);
      hide EntriesOf;
      AmongMore(tree, init, path);
    }
  }

  lemma AmongMore(tree: Tree, init: seq<Path>, path: Path)
    requires path !in init
    ensures |FilesAmong(tree, PathSet(init + [path]))|
         == |FilesAmong(tree, PathSet(init))| + if IsFile(tree, path) then 1 else 0
  {
    var before, now := FilesAmong(tree, PathSet(init)), FilesAmong(tree, PathSet(init + [path]));
    assert now == before + if IsFile(tree, path) then {path} else {};
  }

  /** A tree has a digest exactly when all it holds is ordinary, with at most 20000 files and 8 GiB of contents. */
  lemma DigestedExactly(sha: Bytes -> Hash, tree: Tree, order: seq<Path>)
    requires Enumerates(order, tree.Keys)
    ensures DigestOf(sha, tree, order).Some? <==>
              && (forall p :: p in tree ==> Ordinary(tree[p]))
              && |FilesAmong(tree, tree.Keys)| <= 20000 && |Contents(tree, order)| <= 8589934592
  {
    hide Plain, Ordinary, Preimage, Contents, EntriesOf;
    PlainEverywhere(tree, order);
    forall p | p in tree
      ensures Plain(tree[p]) <==> Ordinary(tree[p])
    {
      PlainIsOrdinary(tree[p]);
    }
    SizeIs(tree, order);
    EntryCount(sha, tree, order);
    assert PathSet(order) == tree.Keys;
  }

  /** Byte strings agree up to some place, where the first has the smaller byte. */
  ghost predicate EarlierAt(a: Bytes, b: Bytes, i: int) {
    0 <= i < |a| && i < |b| && a[..i] == b[..i] && a[i] < b[i]
  }

  /** The order of paths: a beginning comes first, and otherwise the first byte that differs decides. */
  lemma {:induction false} LessIs(a: Bytes, b: Bytes)
    ensures Less(a, b) <==> a < b || exists i :: EarlierAt(a, b, i)
  {
    if a != [] && b != [] {
      LessIs(a[1..], b[1..]);
      assert a == [a[0]] + a[1..] && b == [b[0]] + b[1..];
      if a[0] < b[0] {
        assert EarlierAt(a, b, 0);
      }
      if a[0] == b[0] {
        EarlierShift(a, b);
      }
    }
  }

  lemma EarlierShift(a: Bytes, b: Bytes)
    requires a != [] && b != [] && a[0] == b[0]
    ensures (exists i :: EarlierAt(a, b, i)) <==> exists i :: EarlierAt(a[1..], b[1..], i)
    ensures a < b <==> a[1..] < b[1..]
  {
    assert a == [a[0]] + a[1..] && b == [b[0]] + b[1..];
    if i :| EarlierAt(a, b, i) {
      assert i > 0;
      assert a[1..][..i - 1] == a[..i][1..] && b[1..][..i - 1] == b[..i][1..];
      assert EarlierAt(a[1..], b[1..], i - 1);
    }
    if i :| EarlierAt(a[1..], b[1..], i) {
      assert a[..i + 1] == [a[0]] + a[1..][..i] && b[..i + 1] == [b[0]] + b[1..][..i];
      assert EarlierAt(a, b, i + 1);
    }
  }

  /** The entry of a regular file: its path, the hash of its content, its nine permission bits. */
  ghost predicate EntryOf(sha: Bytes -> Hash, tree: Tree, e: Entry) {
    && IsFile(tree, e.path) && e.digest == sha(tree[e.path].content)
    && forall j: nat :: Bit(e.mode, j) <==> j < 9 && Bit(tree[e.path].mode, j)
  }

  lemma EntryIs(sha: Bytes -> Hash, tree: Tree, e: Entry)
    ensures EntryOf(sha, tree, e) <==>
              IsFile(tree, e.path) && e == Entry(e.path, sha(tree[e.path].content), Permissions(tree[e.path].mode))
  {
    hide Bit, Permissions;
    if IsFile(tree, e.path) {
      var m := tree[e.path].mode;
      forall j: nat
        ensures Bit(Permissions(m), j) <==> j < 9 && Bit(m, j)
      {
        PermissionBits(m, j);
      }
      if forall j: nat :: Bit(e.mode, j) <==> j < 9 && Bit(m, j) {
        BitsDetermine(e.mode, Permissions(m));
      }
    }
  }

  /** What is hashed: the format's name and a zero byte, then frames that read back as the entries of exactly the
      regular files, in ascending order of their paths. */
  lemma StreamExactly(sha: Bytes -> Hash, tree: Tree, order: seq<Path>) returns (entries: seq<Entry>)
    requires Enumerates(order, tree.Keys)
    ensures DigestOf(sha, tree, order).Some? ==>
              DigestOf(sha, tree, order).value == sha(Preimage(sha, tree, order))
    ensures var stream := Preimage(sha, tree, order);
            && |stream| >= 21 && (forall i :: 0 <= i < 20 ==> stream[i] as int == "gent-runtime-tree-v1"[i] as int)
            && stream[20] == 0 && ReadFrames(stream[21..]) == Some(entries)
    ensures forall e :: e in entries <==> EntryOf(sha, tree, e)
    ensures forall i, j :: 0 <= i < j < |entries| ==>
              entries[i].path < entries[j].path || exists k :: EarlierAt(entries[i].path, entries[j].path, k)
  {
    hide Permissions, Bit, EntryOf, Less, EarlierAt, Frames, EntriesOf, Sort, Acceptable, ReadFrames;
    entries := Sort(EntriesOf(sha, tree, order));
    FramesRoundTrip(entries);
    PrefixText();
    assert Preimage(sha, tree, order)[21..] == Frames(entries);
    EntriesContents(sha, tree, order);
    EntriesDistinct(sha, tree, order);
    SortSorts(EntriesOf(sha, tree, order));
    forall e
      ensures EntryOf(sha, tree, e) <==>
                IsFile(tree, e.path) && e == Entry(e.path, sha(tree[e.path].content), Permissions(tree[e.path].mode))
    {
      EntryIs(sha, tree, e);
    }
    forall i, j | 0 <= i < j < |entries|
      ensures entries[i].path < entries[j].path || exists k :: EarlierAt(entries[i].path, entries[j].path, k)
    {
      LessIs(entries[i].path, entries[j].path);
    }
  }

  lemma PrefixText()
    ensures |PREFIX| == 21 && PREFIX[20] == 0
    ensures forall i :: 0 <= i < 20 ==> PREFIX[i] as int == "gent-runtime-tree-v1"[i] as int
  {
  }
}
