/** Comparing two snapshots of a provider's contract. */
module ContractDiff {
  import opened Options
  import opened Flattening
  import opened SchemaWalk
  import opened Splitting
  import opened TextOrder

  /** A snapshot directory: the files it holds, parsed. */
  type Snapshot = map<string, Json>

  /** Python's str. */
  type Printer = Json -> string

  datatype Change = Added | Removed | Changed

  datatype Finding = Finding(kind: string, detail: string)

  const COMPARED := ["cli.json", "protocol.json", "commands.json", "models.json", "frames.json", "launch-probe.json"]

  /** A file that is not there flattens to nothing; a leaf at the very top is dropped. */
  function Load(snapshot: Snapshot, name: string): (r: Table)
    ensures [] !in r
  {
    if name !in snapshot then map[]
    else
      var all := Leaves(snapshot[name], []);
      map p | p in all && p != [] :: all[p]
  }

  // ----- Classifying one difference -----

  function Word(change: Change): string {
    match change
    case Added => "added"
    case Removed => "removed"
    case Changed => "changed"
  }

  function Or(text: string, other: string): string {
    if text == "" then other else text
  }

  function Direction(text: Printer, called: string, before: Table, after: Table): string {
    var key := ["methods", called, "direction"];
    if key in after && Truthy(after[key]) then text(after[key])
    else if key in before && Truthy(before[key]) then text(before[key])
    else ""
  }

  function Classify(text: Printer, name: string, path: Path, change: Change, before: Table,
                    after: Table): Option<Finding>
    requires path != []
  {
    if name == "cli.json" && |path| >= 3 && path[1] == "options" then
      var command := Or(path[0], "<root>");
      if path[3..] == ["arg"] then
        var kind := if change == Added then "flag-added" else if change == Removed then "flag-removed"
                    else "flag-shape-changed";
        Some(Finding(kind, command + " " + path[2]))
      else
        var detail := command + " " + path[2] + " " + JoinWith(path[3..], '/') + " " + Word(change);
        Some(Finding("flag-shape-changed", detail))
    else if name == "cli.json" && |path| >= 3 && path[1] == "subcommands" then
      Some(Finding("subcommand-" + Word(change), Or(path[0], "<root>") + " " + path[2]))
    else if name == "cli.json" then Some(Finding("cli-" + Word(change), JoinWith(path, '/')))
    else if name == "protocol.json" && path[0] == "methods" && |path| >= 2 then
      var direction := Direction(text, path[1], before, after);
      if |path| == 3 && path[2] == "direction" && change != Changed then
        if change == Removed then Some(Finding("method-removed", direction + " " + path[1]))
        else
          var kind := if direction == "serverRequest" then "server-request-new"
                      else if direction == "serverNotification" then "notification-new" else "request-new";
          Some(Finding(kind, path[1]))
      else if |path| >= 4 then
        Some(Finding("field-" + Word(change), direction + " " + path[1] + " " + path[2] + " " + path[3]))
      else Some(Finding("method-" + Word(change), direction + " " + path[1] + " " + JoinWith(path[2..], '/')))
    else if name == "protocol.json" then Some(Finding("protocol-" + Word(change), JoinWith(path, '/')))
    else if name == "commands.json" && path[1..] == ["argumentHint"] && change != Changed then
      Some(Finding(if change == Added then "command-builtin-new" else "command-builtin-removed", path[0]))
    else if name == "commands.json" then
      Some(Finding("command-builtin-changed", path[0] + " " + JoinWith(path[1..], '/') + " " + Word(change)))
    else if name == "frames.json" && path[0] == "subtypes" && |path| == 2 then
      Some(Finding(if change == Added then "frame-subtype-new" else "frame-subtype-removed", path[1]))
    else if name == "models.json" then Some(Finding("models-shape-changed", JoinWith(path, '/') + " " + Word(change)))
    else if name == "launch-probe.json" then
      if path[|path| - 1] == "stderr" then
        if path in after && Truthy(after[path]) then Some(Finding("stderr-warning", JoinWith(path[..|path| - 1], '/')))
        else None
      else Some(Finding("launch-probe-changed", JoinWith(path, '/') + " " + Word(change)))
    else None
  }

  /** The path that stands for a whole flag, method or command. */
  function Anchor(name: string, path: Path): Option<Path>
    requires path != []
  {
    if name == "cli.json" && |path| >= 3 && path[1] == "options" then Some(path[..3] + ["arg"])
    else if name == "protocol.json" && |path| >= 2 && path[0] == "methods" then Some(["methods", path[1], "direction"])
    else if name == "commands.json" then Some([path[0], "argumentHint"])
    else None
  }

  // ----- One file -----

  /** Python's == on leaves: true is 1. */
  predicate EqualValues(v: Json, w: Json) {
    Untyped(v) == Untyped(w)
  }

  predicate Differs(path: Path, before: Table, after: Table) {
    (path in before) != (path in after) || (path in before && path in after && !EqualValues(before[path], after[path]))
  }

  function ChangeAt(path: Path, before: Table, after: Table): Change
    requires Differs(path, before, after)
  {
    if path in before && path in after then Changed else if path in after then Added else Removed
  }

  /** Left to the finding at its anchor, which is there on one side only. */
  predicate Suppressed(name: string, path: Path, before: Table, after: Table)
    requires path != []
  {
    var key := Anchor(name, path);
    key.Some? && key.value != path && (key.value in before) != (key.value in after)
  }

  function Report(text: Printer, name: string, path: Path, before: Table, after: Table): Option<string>
    requires path != []
  {
    if !Differs(path, before, after) || Suppressed(name, path, before, after) then None
    else
      var finding := Classify(text, name, path, ChangeAt(path, before, after), before, after);
      if finding.None? then None else Some(finding.value.kind + " " + finding.value.detail)
  }

  function FileReports(text: Printer, name: string, before: Table, after: Table): set<string>
    requires [] !in before && [] !in after
  {
    set p | p in before.Keys + after.Keys && Report(text, name, p, before, after).Some? ::
      Report(text, name, p, before, after).value
  }

  /** The two kinds of difference the comparison lets pass: anything in frames.json but a subtype, and a launch probe
      whose error output is gone or empty. */
  predicate LetPass(name: string, path: Path, after: Table)
    requires path != []
  {
    || (name == "frames.json" && !(path[0] == "subtypes" && |path| == 2))
    || (name == "launch-probe.json" && path[|path| - 1] == "stderr" && !(path in after && Truthy(after[path])))
  }

  /** Nothing is lost: every difference is reported, or let pass, or its anchor is itself a reported difference. */
  lemma NothingLost(text: Printer, name: string, path: Path, before: Table, after: Table)
    requires name in COMPARED && path != [] && Differs(path, before, after)
    ensures Report(text, name, path, before, after).Some? || LetPass(name, path, after)
      || (Suppressed(name, path, before, after)
          && var key := Anchor(name, path).value;
             key != [] && Anchor(name, key) == Some(key) && Differs(key, before, after)
             && Report(text, name, key, before, after).Some?)
    ensures LetPass(name, path, after) ==> Report(text, name, path, before, after).None? && Anchor(name, path).None?
  {
    hide JoinWith, Word, Direction, Or, Truthy;
    if Suppressed(name, path, before, after) {
      var key := Anchor(name, path).value;
      AnchorFixed(name, path);
      assert Differs(key, before, after);
      assert !Suppressed(name, key, before, after);
      AnchorClassified(text, name, path, ChangeAt(key, before, after), before, after);
    }
  }

  lemma AnchorFixed(name: string, path: Path)
    requires path != [] && Anchor(name, path).Some?
    ensures Anchor(name, path).value != [] && Anchor(name, Anchor(name, path).value) == Anchor(name, path)
  {
    if name == "cli.json" {
      assert (path[..3] + ["arg"])[..3] == path[..3];
    }
  }

  lemma AnchorClassified(text: Printer, name: string, path: Path, change: Change, before: Table, after: Table)
    requires path != [] && Anchor(name, path).Some? && Anchor(name, path).value != []
    ensures Classify(text, name, Anchor(name, path).value, change, before, after).Some?
  {
    hide JoinWith, Word, Direction, Or, Truthy;
  }

  // ----- Whole snapshots -----

  /** The findings of a comparison, as a set. */
  function AllReports(text: Printer, before: Snapshot, after: Snapshot): set<string> {
    set name, f | name in COMPARED && f in FileReports(text, name, Load(before, name), Load(after, name)) :: f
  }

  /** Nothing is reported exactly when the compared files flatten to the same tables, up to what is let pass. */
  lemma EmptyTables(text: Printer, before: Snapshot, after: Snapshot)
    ensures AllReports(text, before, after) == {} <==>
      forall name, path :: name in COMPARED && path != [] && Differs(path, Load(before, name), Load(after, name)) ==>
        LetPass(name, path, Load(after, name))
  {
    hide Load, LetPass, Report, Anchor, Suppressed;
    forall name | name in COMPARED
      ensures FileReports(text, name, Load(before, name), Load(after, name)) == {} <==>
        forall path :: path != [] && Differs(path, Load(before, name), Load(after, name)) ==>
          LetPass(name, path, Load(after, name))
    {
      FileEmptyExactly(text, name, Load(before, name), Load(after, name));
    }
    if AllReports(text, before, after) == {} {
      forall name | name in COMPARED
        ensures FileReports(text, name, Load(before, name), Load(after, name)) == {}
      {
        assert forall f :: f in FileReports(text, name, Load(before, name), Load(after, name)) ==>
            f in AllReports(text, before, after);
      }
    }
  }

  lemma FileEmptyExactly(text: Printer, name: string, before: Table, after: Table)
    requires name in COMPARED && [] !in before && [] !in after
    ensures FileReports(text, name, before, after) == {} <==>
      forall path :: path != [] && Differs(path, before, after) ==> LetPass(name, path, after)
  {
    hide LetPass, Report, Anchor;
    forall path | path != [] && Differs(path, before, after)
      ensures Report(text, name, path, before, after).Some? ==> !LetPass(name, path, after)
      ensures !LetPass(name, path, after) ==> FileReports(text, name, before, after) != {}
    {
      NothingLost(text, name, path, before, after);
      if !LetPass(name, path, after) {
        var key := if Report(text, name, path, before, after).Some? then path else Anchor(name, path).value;
        assert Report(text, name, key, before, after).value in FileReports(text, name, before, after);
      }
    }
    forall path | path in before.Keys + after.Keys && Report(text, name, path, before, after).Some?
      ensures Differs(path, before, after)
    {
      ReportDiffers(text, name, path, before, after);
    }
  }

  lemma ReportDiffers(text: Printer, name: string, path: Path, before: Table, after: Table)
    requires path != [] && Report(text, name, path, before, after).Some?
    ensures Differs(path, before, after)
  {
    hide Classify, Anchor;
  }

  // ----- What a snapshot may change unseen -----

  /** Nothing to compare: no file, or a file that is one leaf at the very top, such as a list of objects. */
  predicate Blank(snapshot: Snapshot, name: string) {
    name !in snapshot || IsLeaf(snapshot[name])
  }

  lemma LoadBlank(snapshot: Snapshot, name: string)
    ensures Load(snapshot, name) == map[] <==> Blank(snapshot, name)
    ensures !Blank(snapshot, name) ==> Load(snapshot, name) == Leaves(snapshot[name], [])
  {
    hide Leaves;
    if name in snapshot {
      LeafLeaves(snapshot[name], []);
      LeavesSome(snapshot[name], []);
    }
  }

  predicate SameContent(before: Snapshot, after: Snapshot, name: string) {
    if Blank(before, name) || Blank(after, name) then Blank(before, name) && Blank(after, name)
    else Normal(before[name]) == Normal(after[name])
  }

  predicate EqualContent(before: Snapshot, after: Snapshot, name: string) {
    if Blank(before, name) || Blank(after, name) then Blank(before, name) && Blank(after, name)
    else EqualValues(Normal(before[name]), Normal(after[name]))
  }

  /** Two files load the same table exactly when there is nothing to compare in either, or their normal forms are the
      same; and load equal tables exactly when their normal forms are equal, true being 1. */
  lemma LoadExactly(before: Snapshot, after: Snapshot, name: string)
    ensures Load(before, name) == Load(after, name) <==> SameContent(before, after, name)
    ensures UntypedTable(Load(before, name)) == UntypedTable(Load(after, name)) <==> EqualContent(before, after, name)
  {
    hide Leaves, Load, Untyped, UntypedTable;
    LoadBlank(before, name);
    LoadBlank(after, name);
    UntypedNone(Load(before, name));
    UntypedNone(Load(after, name));
    if !Blank(before, name) && !Blank(after, name) {
      FlattenExactly(before[name], after[name], []);
      AlikeExactly(before[name], after[name], []);
    }
  }

  lemma UntypedNone(table: Table)
    ensures UntypedTable(table) == map[] <==> table == map[]
  {
    assert table == map[] <==> table.Keys == {};
    assert UntypedTable(table) == map[] <==> UntypedTable(table).Keys == {};
  }

  /** The leaves that name a frame subtype. */
  function Subtypes(table: Table): Table {
    map p | p in table && |p| == 2 && p[0] == "subtypes" :: table[p]
  }

  predicate IsError(path: Path) {
    path != [] && path[|path| - 1] == "stderr"
  }

  /** The leaves of a launch probe but for its error outputs. */
  function Outcomes(table: Table): Table {
    map p | p in table && !IsError(p) :: table[p]
  }

  /** What it takes for a compared file to go unreported. */
  predicate Unreported(before: Snapshot, after: Snapshot, name: string) {
    var one, two := Load(before, name), Load(after, name);
    if name == "frames.json" then UntypedTable(Subtypes(one)) == UntypedTable(Subtypes(two))
    else if name == "launch-probe.json" then
      && UntypedTable(Outcomes(one)) == UntypedTable(Outcomes(two))
      && forall p :: p in two && IsError(p) && Truthy(two[p]) ==> p in one && EqualValues(one[p], two[p])
    else EqualContent(before, after, name)
  }

  /** Nothing is reported exactly when, file by file: the frame subtypes are equal; the launch probes are equal but for
      error outputs that are gone, empty or equal; and all other files have equal normal forms, or nothing to compare on
      either side. */
  lemma EmptyExactly(text: Printer, before: Snapshot, after: Snapshot)
    ensures AllReports(text, before, after) == {} <==>
      forall name :: name in COMPARED ==> Unreported(before, after, name)
  {
    hide AllReports, Load, LetPass, Unreported, Differs;
    EmptyTables(text, before, after);
    forall name | name in COMPARED
      ensures Unreported(before, after, name) <==>
        forall path :: path != [] && Differs(path, Load(before, name), Load(after, name)) ==>
          LetPass(name, path, Load(after, name))
    {
      UnreportedExactly(before, after, name);
    }
  }

  lemma UnreportedExactly(before: Snapshot, after: Snapshot, name: string)
    requires name in COMPARED
    ensures Unreported(before, after, name) <==>
      forall path :: path != [] && Differs(path, Load(before, name), Load(after, name)) ==>
        LetPass(name, path, Load(after, name))
  {
    hide Load, EqualValues;
    LoadExactly(before, after, name);
    hide EqualContent;
    var one, two := Load(before, name), Load(after, name);
    if name == "frames.json" {
      SubtypesExactly(one, two);
    } else if name == "launch-probe.json" {
      OutcomesExactly(one, two);
    } else {
      TablesExactly(one, two);
      assert forall path :: path != [] ==> !LetPass(name, path, two);
    }
  }

  lemma TablesExactly(one: Table, two: Table)
    requires [] !in one && [] !in two
    ensures UntypedTable(one) == UntypedTable(two) <==> forall path :: path != [] ==> !Differs(path, one, two)
  {
    hide Untyped;
    TablesAlike(one, two);
    if forall path :: path != [] ==> !Differs(path, one, two) {
      forall path
        ensures !Differs(path, one, two)
      {
        assert path != [] ==> !Differs(path, one, two);
      }
    }
  }

  /** Tables are equal exactly when they differ nowhere. */
  lemma TablesAlike(one: Table, two: Table)
    ensures UntypedTable(one) == UntypedTable(two) <==> forall path :: !Differs(path, one, two)
  {
    hide Untyped;
    if UntypedTable(one) == UntypedTable(two) {
      forall path
        ensures !Differs(path, one, two)
      {
        assert path in one <==> path in UntypedTable(one);
        assert path in two <==> path in UntypedTable(two);
      }
    }
    if forall path :: !Differs(path, one, two) {
      forall path
        ensures path in one <==> path in two
        ensures path in one ==> Untyped(one[path]) == Untyped(two[path])
      {
        assert !Differs(path, one, two);
      }
    }
  }

  lemma SubtypesExactly(one: Table, two: Table)
    ensures UntypedTable(Subtypes(one)) == UntypedTable(Subtypes(two)) <==>
      forall path :: path != [] && Differs(path, one, two) ==> LetPass("frames.json", path, two)
  {
    hide EqualValues, UntypedTable;
    var a, b := Subtypes(one), Subtypes(two);
    TablesAlike(a, b);
    forall path
      ensures Differs(path, a, b) <==> |path| == 2 && path[0] == "subtypes" && Differs(path, one, two)
    {
    }
  }

  lemma OutcomesExactly(one: Table, two: Table)
    requires [] !in one && [] !in two
    ensures UntypedTable(Outcomes(one)) == UntypedTable(Outcomes(two))
        && (forall p :: p in two && IsError(p) && Truthy(two[p]) ==> p in one && EqualValues(one[p], two[p]))
       <==> forall path :: path != [] && Differs(path, one, two) ==> LetPass("launch-probe.json", path, two)
  {
    hide Truthy, EqualValues, UntypedTable;
    var a, b := Outcomes(one), Outcomes(two);
    TablesAlike(a, b);
    forall path
      ensures Differs(path, a, b) <==> !IsError(path) && Differs(path, one, two)
    {
    }
    if forall path :: path != [] && Differs(path, one, two) ==> LetPass("launch-probe.json", path, two) {
      forall path
        ensures !Differs(path, a, b)
      {
        assert path != [] && Differs(path, one, two) ==> LetPass("launch-probe.json", path, two);
      }
      forall p | p in two && IsError(p) && Truthy(two[p])
        ensures p in one && EqualValues(one[p], two[p])
      {
        assert !Differs(p, one, two);
      }
    }
  }

  /** A file that is a list of objects is not compared with another such file, or with none at all. */
  lemma TopLevelUnseen(text: Printer, before: Snapshot, after: Snapshot, name: string)
    requires name in COMPARED && Blank(before, name) && Blank(after, name)
    ensures FileReports(text, name, Load(before, name), Load(after, name)) == {}
  {
    LoadExactly(before, after, name);
    FileEmptyExactly(text, name, Load(before, name), Load(after, name));
  }

  /** A list of names may become a dictionary that gives each of them 1, and nothing is reported. */
  lemma OneForTrueUnseen(text: Printer, items: seq<Json>)
    requires Strings(items) && items != []
    ensures var ones := Obj(map t | t in Texts(items) :: Num(1.0));
            AllReports(text, map["models.json" := Arr(items)], map["models.json" := ones]) == {}
  {
    hide AllReports, Leaves, Normal, UntypedTable, Untyped;
    var ones := Obj(map t | t in Texts(items) :: Num(1.0));
    var before, after := map["models.json" := Arr(items)], map["models.json" := ones];
    assert items[0].text in Texts(items);
    assert items[0].text in ones.fields;
    NamesAlike(items, []);
    AlikeExactly(Arr(items), ones, []);
    forall name | name in COMPARED
      ensures Unreported(before, after, name)
    {
      if name != "models.json" {
        assert name !in before && name !in after;
      }
    }
    EmptyExactly(text, before, after);
  }

  // ----- The sorted list -----

  /** The findings of all compared files, each once, in ascending order. */
  method DiffSnapshots(text: Printer, before: Snapshot, after: Snapshot) returns (r: seq<string>)
    ensures Ascending(r)
    ensures forall f :: f in r <==> f in AllReports(text, before, after)
  {
    hide Report, Load, Less, Ascending;
    r := [];
    AscendingNone();
    var i := 0;
    while i < |COMPARED|
      invariant 0 <= i <= |COMPARED|
      invariant Ascending(r)
      invariant forall f :: f in r <==>
        exists name :: name in COMPARED[..i] && f in FileReports(text, name, Load(before, name), Load(after, name))
    {
      assert COMPARED[..i + 1] == COMPARED[..i] + [COMPARED[i]];
      r := DiffFile(text, COMPARED[i], Load(before, COMPARED[i]), Load(after, COMPARED[i]), r);
      i := i + 1;
    }
    assert COMPARED[..i] == COMPARED;
  }

  method DiffFile(text: Printer, name: string, before: Table, after: Table, found: seq<string>) returns (r: seq<string>)
    requires [] !in before && [] !in after && Ascending(found)
    ensures Ascending(r)
    ensures forall f :: f in r <==> f in found || f in FileReports(text, name, before, after)
  {
    hide Report, Less, Ascending, Inserted;
    r := found;
    var waiting := before.Keys + after.Keys;
    ghost var whole := waiting;
    while waiting != {}
      decreases |waiting|
      invariant waiting <= whole && Ascending(r)
      invariant forall f :: f in r <==>
        f in found || exists p :: p in whole - waiting && Report(text, name, p, before, after) == Some(f)
    {
      var path :| path in waiting;
      waiting := waiting - {path};
      var report := Report(text, name, path, before, after);
      if report.Some? {
        InsertedAscends(r, report.value);
        r := Inserted(r, report.value);
      }
    }
  }
}
