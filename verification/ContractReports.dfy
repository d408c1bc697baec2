/** What a comparison of snapshots reports, finding by finding: which leaves have to come, go or change for each line to
    be listed. */
module ContractReports {
  import opened Options
  import opened Flattening
  import opened SchemaWalk
  import opened Splitting
  import opened ContractDiff

  // ----- What happened to a leaf -----

  predicate Gained(before: Table, after: Table, p: Path) {
    p !in before && p in after
  }

  predicate Lost(before: Table, after: Table, p: Path) {
    p in before && p !in after
  }

  predicate Altered(before: Table, after: Table, p: Path) {
    p in before && p in after && !EqualValues(before[p], after[p])
  }

  predicate Moved(before: Table, after: Table, p: Path, word: string) {
    || (word == "added" && Gained(before, after, p))
    || (word == "removed" && Lost(before, after, p))
    || (word == "changed" && Altered(before, after, p))
  }

  /** There on both sides, or on neither. */
  predicate Steady(before: Table, after: Table, p: Path) {
    p in before <==> p in after
  }

  function Told(kind: string, detail: string): string {
    kind + " " + detail
  }

  lemma MovedIs(before: Table, after: Table, p: Path)
    requires Differs(p, before, after)
    ensures Moved(before, after, p, Word(ChangeAt(p, before, after)))
    ensures ChangeAt(p, before, after) == Added <==> Gained(before, after, p)
    ensures ChangeAt(p, before, after) == Removed <==> Lost(before, after, p)
    ensures ChangeAt(p, before, after) == Changed <==> Altered(before, after, p)
  {
    hide EqualValues;
  }

  lemma MovedDiffers(before: Table, after: Table, p: Path, word: string)
    requires Moved(before, after, p, word)
    ensures Differs(p, before, after) && Word(ChangeAt(p, before, after)) == word
  {
    hide EqualValues;
  }

  // ----- The command line -----

  function Called(command: string): string {
    if command == "" then "<root>" else command
  }

  /** A flag that comes, goes or changes. */
  ghost predicate FlagTold(before: Table, after: Table, command: string, option: string, f: string) {
    var arg, detail := [command, "options", option, "arg"], Called(command) + " " + option;
    || (Gained(before, after, arg) && f == Told("flag-added", detail))
    || (Lost(before, after, arg) && f == Told("flag-removed", detail))
    || (Altered(before, after, arg) && f == Told("flag-shape-changed", detail))
  }

  /** Anything else about a flag that neither comes nor goes. */
  ghost predicate ShapeTold(before: Table, after: Table, command: string, option: string, rest: Path, word: string,
                            f: string) {
    && rest != ["arg"] && Moved(before, after, [command, "options", option] + rest, word)
    && Steady(before, after, [command, "options", option, "arg"])
    && f == Told("flag-shape-changed", Called(command) + " " + option + " " + JoinWith(rest, '/') + " " + word)
  }

  ghost predicate SubcommandTold(before: Table, after: Table, command: string, called: string, rest: Path, word: string,
                                 f: string) {
    && Moved(before, after, [command, "subcommands", called] + rest, word)
    && f == Told("subcommand-" + word, Called(command) + " " + called)
  }

  ghost predicate CliOtherTold(before: Table, after: Table, path: Path, word: string, f: string) {
    && !(|path| >= 3 && (path[1] == "options" || path[1] == "subcommands")) && Moved(before, after, path, word)
    && f == Told("cli-" + word, JoinWith(path, '/'))
  }

  ghost predicate CliTold(before: Table, after: Table, f: string) {
    || (exists c, o :: FlagTold(before, after, c, o, f))
    || (exists c, o, rest, word :: ShapeTold(before, after, c, o, rest, word, f))
    || (exists c, s, rest, word :: SubcommandTold(before, after, c, s, rest, word, f))
    || (exists path, word :: CliOtherTold(before, after, path, word, f))
  }

  lemma ThreeAndRest(path: Path)
    requires |path| >= 3
    ensures path == [path[0], path[1], path[2]] + path[3..]
    ensures path[3..] == ["arg"] ==> path == [path[0], path[1], path[2], "arg"]
    ensures path[..3] + ["arg"] == [path[0], path[1], path[2], "arg"]
  {
  }

  lemma CliReported(text: Printer, path: Path, before: Table, after: Table, f: string)
    requires path != [] && Report(text, "cli.json", path, before, after) == Some(f)
    ensures CliTold(before, after, f)
  {
    hide EqualValues, JoinWith, Direction, CliTold;
    MovedIs(before, after, path);
    var word := Word(ChangeAt(path, before, after));
    if |path| >= 3 && path[1] == "options" {
      ThreeAndRest(path);
      if path[3..] == ["arg"] {
        assert FlagTold(before, after, path[0], path[2], f);
        CliIs(before, after, f, path[0], path[2], [], "");
      } else {
        assert ShapeTold(before, after, path[0], path[2], path[3..], word, f);
        CliIs(before, after, f, path[0], path[2], path[3..], word);
      }
    } else if |path| >= 3 && path[1] == "subcommands" {
      ThreeAndRest(path);
      assert SubcommandTold(before, after, path[0], path[2], path[3..], word, f);
      CliIs(before, after, f, path[0], path[2], path[3..], word);
    } else {
      assert CliOtherTold(before, after, path, word, f);
      CliIs(before, after, f, "", "", path, word);
    }
  }

  lemma CliIs(before: Table, after: Table, f: string, a: string, b: string, rest: Path, word: string)
    requires || FlagTold(before, after, a, b, f) || ShapeTold(before, after, a, b, rest, word, f)
             || SubcommandTold(before, after, a, b, rest, word, f) || CliOtherTold(before, after, rest, word, f)
    ensures CliTold(before, after, f)
  {
    hide FlagTold, ShapeTold, SubcommandTold, CliOtherTold;
  }

  lemma FlagReported(text: Printer, before: Table, after: Table, c: string, o: string, f: string)
    requires FlagTold(before, after, c, o, f)
    ensures Report(text, "cli.json", [c, "options", o, "arg"], before, after) == Some(f)
  {
    hide EqualValues, JoinWith, Direction;
    var path := [c, "options", o, "arg"];
    ThreeAndRest(path);
    assert path[3..] == ["arg"];
  }

  lemma ShapeReported(text: Printer, before: Table, after: Table, c: string, o: string, rest: Path, word: string,
                      f: string)
    requires ShapeTold(before, after, c, o, rest, word, f)
    ensures Report(text, "cli.json", [c, "options", o] + rest, before, after) == Some(f)
  {
    hide EqualValues, JoinWith, Direction;
    var path := [c, "options", o] + rest;
    ThreeAndRest(path);
    assert path[3..] == rest;
    MovedDiffers(before, after, path, word);
  }

  lemma SubcommandReported(text: Printer, before: Table, after: Table, c: string, s: string, rest: Path, word: string,
                           f: string)
    requires SubcommandTold(before, after, c, s, rest, word, f)
    ensures Report(text, "cli.json", [c, "subcommands", s] + rest, before, after) == Some(f)
  {
    hide EqualValues, JoinWith, Direction;
    MovedDiffers(before, after, [c, "subcommands", s] + rest, word);
  }

  lemma CliOtherReported(text: Printer, before: Table, after: Table, path: Path, word: string, f: string)
    requires path != [] && CliOtherTold(before, after, path, word, f)
    ensures Report(text, "cli.json", path, before, after) == Some(f)
  {
    hide EqualValues, JoinWith, Direction;
    MovedDiffers(before, after, path, word);
  }

  lemma Reported(text: Printer, name: string, before: Table, after: Table, path: Path, f: string)
    requires [] !in before && [] !in after && path != [] && Report(text, name, path, before, after) == Some(f)
    ensures f in FileReports(text, name, before, after)
  {
    ReportDiffers(text, name, path, before, after);
    hide Report;
  }

  lemma CliExactly(text: Printer, before: Table, after: Table, f: string)
    requires [] !in before && [] !in after
    ensures f in FileReports(text, "cli.json", before, after) <==> CliTold(before, after, f)
  {
    hide Report, FlagTold, ShapeTold, SubcommandTold;
    if f in FileReports(text, "cli.json", before, after) {
      var p :| p in before.Keys + after.Keys && Report(text, "cli.json", p, before, after) == Some(f);
      CliReported(text, p, before, after, f);
    }
    if c, o :| FlagTold(before, after, c, o, f) {
      FlagReported(text, before, after, c, o, f);
      Reported(text, "cli.json", before, after, [c, "options", o, "arg"], f);
    }
    if c, o, rest, word :| ShapeTold(before, after, c, o, rest, word, f) {
      ShapeReported(text, before, after, c, o, rest, word, f);
      Reported(text, "cli.json", before, after, [c, "options", o] + rest, f);
    }
    if c, s, rest, word :| SubcommandTold(before, after, c, s, rest, word, f) {
      SubcommandReported(text, before, after, c, s, rest, word, f);
      Reported(text, "cli.json", before, after, [c, "subcommands", s] + rest, f);
    }
    if path, word :| CliOtherTold(before, after, path, word, f) {
      CliOtherReported(text, before, after, path, word, f);
      Reported(text, "cli.json", before, after, path, f);
    }
  }

  // ----- The protocol -----

  /** A method's direction as its text: what the new snapshot says, or else the old one, or else nothing. */
  ghost predicate Directed(text: Printer, before: Table, after: Table, called: string, direction: string) {
    var p := ["methods", called, "direction"];
    if p in after && after[p] !in {Null, Bool(false), Num(0.0), Str(""), Arr([]), Obj(map[])} then
      direction == text(after[p])
    else if p in before && before[p] !in {Null, Bool(false), Num(0.0), Str(""), Arr([]), Obj(map[])} then
      direction == text(before[p])
    else direction == ""
  }

  /** A method that comes or goes. */
  ghost predicate MethodTold(text: Printer, before: Table, after: Table, called: string, d: string, f: string) {
    var p := ["methods", called, "direction"];
    && Directed(text, before, after, called, d)
    && (|| (Gained(before, after, p) && d == "serverRequest" && f == Told("server-request-new", called))
        || (Gained(before, after, p) && d == "serverNotification" && f == Told("notification-new", called))
        || (Gained(before, after, p) && d != "serverRequest" && d != "serverNotification"
            && f == Told("request-new", called))
        || (Lost(before, after, p) && f == Told("method-removed", d + " " + called))
        || (Altered(before, after, p) && f == Told("method-changed", d + " " + called + " " + "direction")))
  }

  /** A field of a method that neither comes nor goes. */
  ghost predicate FieldTold(text: Printer, before: Table, after: Table, called: string, d: string, part: string,
                            field: string, rest: Path, word: string, f: string) {
    && Directed(text, before, after, called, d)
    && Moved(before, after, ["methods", called, part, field] + rest, word)
    && Steady(before, after, ["methods", called, "direction"])
    && f == Told("field-" + word, d + " " + called + " " + part + " " + field)
  }

  /** Anything else about such a method. */
  ghost predicate MethodOtherTold(text: Printer, before: Table, after: Table, called: string, d: string, rest: Path,
                                  word: string, f: string) {
    && Directed(text, before, after, called, d)
    && |rest| <= 1 && rest != ["direction"] && Moved(before, after, ["methods", called] + rest, word)
    && Steady(before, after, ["methods", called, "direction"])
    && f == Told("method-" + word, d + " " + called + " " + JoinWith(rest, '/'))
  }

  ghost predicate ProtocolOtherTold(before: Table, after: Table, path: Path, word: string, f: string) {
    && path != [] && !(path[0] == "methods" && |path| >= 2) && Moved(before, after, path, word)
    && f == Told("protocol-" + word, JoinWith(path, '/'))
  }

  ghost predicate ProtocolTold(text: Printer, before: Table, after: Table, f: string) {
    || (exists m, d :: MethodTold(text, before, after, m, d, f))
    || (exists m, d, part, field, rest, word :: FieldTold(text, before, after, m, d, part, field, rest, word, f))
    || (exists m, d, rest, word :: MethodOtherTold(text, before, after, m, d, rest, word, f))
    || (exists path, word :: ProtocolOtherTold(before, after, path, word, f))
  }

  lemma DirectedIs(text: Printer, before: Table, after: Table, called: string, direction: string)
    ensures Directed(text, before, after, called, direction) <==> direction == Direction(text, called, before, after)
  {
    var p := ["methods", called, "direction"];
    if p in after {
      FalsyIs(after[p]);
    }
    if p in before {
      FalsyIs(before[p]);
    }
  }

  lemma FalsyIs(j: Json)
    ensures Truthy(j) <==> j !in {Null, Bool(false), Num(0.0), Str(""), Arr([]), Obj(map[])}
  {
  }

  lemma ProtocolReported(text: Printer, path: Path, before: Table, after: Table, f: string)
    requires path != [] && Report(text, "protocol.json", path, before, after) == Some(f)
    ensures ProtocolTold(text, before, after, f)
  {
    hide EqualValues, JoinWith, Direction, ProtocolTold, Directed;
    MovedIs(before, after, path);
    var word := Word(ChangeAt(path, before, after));
    if path[0] == "methods" && |path| >= 2 {
      var m := path[1];
      var d := Direction(text, m, before, after);
      DirectedIs(text, before, after, m, d);
      if path == ["methods", m, "direction"] {
        assert JoinWith(path[2..], '/') == "direction" by {
          assert path[2..] == ["direction"];
          JoinedOne("direction");
        }
        assert MethodTold(text, before, after, m, d, f);
        ProtocolIs(text, before, after, f, m, d, "", "", [], "");
      } else if |path| >= 4 {
        assert path == ["methods", m, path[2], path[3]] + path[4..];
        assert FieldTold(text, before, after, m, d, path[2], path[3], path[4..], word, f);
        ProtocolIs(text, before, after, f, m, d, path[2], path[3], path[4..], word);
      } else {
        assert path == ["methods", m] + path[2..];
        assert MethodOtherTold(text, before, after, m, d, path[2..], word, f);
        ProtocolIs(text, before, after, f, m, d, "", "", path[2..], word);
      }
    } else {
      assert ProtocolOtherTold(before, after, path, word, f);
      ProtocolIs(text, before, after, f, "", "", "", "", path, word);
    }
  }

  lemma JoinedOne(part: string)
    ensures JoinWith([part], '/') == part
  {
  }

  lemma ProtocolIs(text: Printer, before: Table, after: Table, f: string, m: string, d: string, part: string,
                   field: string, rest: Path, word: string)
    requires || MethodTold(text, before, after, m, d, f)
             || FieldTold(text, before, after, m, d, part, field, rest, word, f)
             || MethodOtherTold(text, before, after, m, d, rest, word, f)
             || ProtocolOtherTold(before, after, rest, word, f)
    ensures ProtocolTold(text, before, after, f)
  {
    hide MethodTold, FieldTold, MethodOtherTold, ProtocolOtherTold;
  }

  lemma MethodReported(text: Printer, before: Table, after: Table, m: string, d: string, f: string)
    requires MethodTold(text, before, after, m, d, f)
    ensures Report(text, "protocol.json", ["methods", m, "direction"], before, after) == Some(f)
  {
    hide EqualValues, JoinWith, Direction, Directed;
    DirectedIs(text, before, after, m, d);
    var path := ["methods", m, "direction"];
    assert path[2..] == ["direction"];
    JoinedOne("direction");
    assert "method-" + "changed" == "method-changed";
  }

  lemma FieldReported(text: Printer, before: Table, after: Table, m: string, d: string, part: string, field: string,
                      rest: Path, word: string, f: string)
    requires FieldTold(text, before, after, m, d, part, field, rest, word, f)
    ensures Report(text, "protocol.json", ["methods", m, part, field] + rest, before, after) == Some(f)
  {
    hide EqualValues, JoinWith, Direction, Directed;
    DirectedIs(text, before, after, m, d);
    MovedDiffers(before, after, ["methods", m, part, field] + rest, word);
  }

  lemma MethodOtherReported(text: Printer, before: Table, after: Table, m: string, d: string, rest: Path, word: string,
                            f: string)
    requires MethodOtherTold(text, before, after, m, d, rest, word, f)
    ensures Report(text, "protocol.json", ["methods", m] + rest, before, after) == Some(f)
  {
    hide EqualValues, JoinWith, Direction, Directed;
    DirectedIs(text, before, after, m, d);
    var path := ["methods", m] + rest;
    assert path[2..] == rest;
    MovedDiffers(before, after, path, word);
  }

  lemma ProtocolOtherReported(text: Printer, before: Table, after: Table, path: Path, word: string, f: string)
    requires path != [] && ProtocolOtherTold(before, after, path, word, f)
    ensures Report(text, "protocol.json", path, before, after) == Some(f)
  {
    hide EqualValues, JoinWith, Direction;
    MovedDiffers(before, after, path, word);
  }

  lemma ProtocolExactly(text: Printer, before: Table, after: Table, f: string)
    requires [] !in before && [] !in after
    ensures f in FileReports(text, "protocol.json", before, after) <==> ProtocolTold(text, before, after, f)
  {
    hide Report, MethodTold, FieldTold, MethodOtherTold;
    if f in FileReports(text, "protocol.json", before, after) {
      var p :| p in before.Keys + after.Keys && Report(text, "protocol.json", p, before, after) == Some(f);
      ProtocolReported(text, p, before, after, f);
    }
    if m, d :| MethodTold(text, before, after, m, d, f) {
      MethodReported(text, before, after, m, d, f);
      Reported(text, "protocol.json", before, after, ["methods", m, "direction"], f);
    }
    if m, d, part, field, rest, word :| FieldTold(text, before, after, m, d, part, field, rest, word, f) {
      FieldReported(text, before, after, m, d, part, field, rest, word, f);
      Reported(text, "protocol.json", before, after, ["methods", m, part, field] + rest, f);
    }
    if m, d, rest, word :| MethodOtherTold(text, before, after, m, d, rest, word, f) {
      MethodOtherReported(text, before, after, m, d, rest, word, f);
      Reported(text, "protocol.json", before, after, ["methods", m] + rest, f);
    }
    if path, word :| ProtocolOtherTold(before, after, path, word, f) {
      ProtocolOtherReported(text, before, after, path, word, f);
      Reported(text, "protocol.json", before, after, path, f);
    }
  }

  // ----- Commands, models, frames and launch probes -----

  /** A built-in command that comes or goes, or whose hint changes. */
  ghost predicate CommandTold(before: Table, after: Table, called: string, f: string) {
    var hint := [called, "argumentHint"];
    || (Gained(before, after, hint) && f == Told("command-builtin-new", called))
    || (Lost(before, after, hint) && f == Told("command-builtin-removed", called))
    || (Altered(before, after, hint)
        && f == Told("command-builtin-changed", called + " " + "argumentHint" + " " + "changed"))
  }

  /** Anything else about a command that neither comes nor goes. */
  ghost predicate CommandOtherTold(before: Table, after: Table, called: string, rest: Path, word: string, f: string) {
    && rest != ["argumentHint"] && Moved(before, after, [called] + rest, word)
    && Steady(before, after, [called, "argumentHint"])
    && f == Told("command-builtin-changed", called + " " + JoinWith(rest, '/') + " " + word)
  }

  ghost predicate CommandsTold(before: Table, after: Table, f: string) {
    || (exists n :: CommandTold(before, after, n, f))
    || (exists n, rest, word :: CommandOtherTold(before, after, n, rest, word, f))
  }

  lemma CommandsReported(text: Printer, path: Path, before: Table, after: Table, f: string)
    requires path != [] && Report(text, "commands.json", path, before, after) == Some(f)
    ensures CommandsTold(before, after, f)
  {
    hide EqualValues, JoinWith, Direction;
    MovedIs(before, after, path);
    var word := Word(ChangeAt(path, before, after));
    assert path == [path[0]] + path[1..];
    if path[1..] == ["argumentHint"] {
      assert path == [path[0], "argumentHint"];
      JoinedOne("argumentHint");
      assert CommandTold(before, after, path[0], f);
    } else {
      assert CommandOtherTold(before, after, path[0], path[1..], word, f);
    }
  }

  lemma CommandReported(text: Printer, before: Table, after: Table, n: string, f: string)
    requires CommandTold(before, after, n, f)
    ensures Report(text, "commands.json", [n, "argumentHint"], before, after) == Some(f)
  {
    hide EqualValues, JoinWith, Direction;
    assert [n, "argumentHint"][1..] == ["argumentHint"];
    JoinedOne("argumentHint");
  }

  lemma CommandOtherReported(text: Printer, before: Table, after: Table, n: string, rest: Path, word: string, f: string)
    requires CommandOtherTold(before, after, n, rest, word, f)
    ensures Report(text, "commands.json", [n] + rest, before, after) == Some(f)
  {
    hide EqualValues, JoinWith, Direction;
    var path := [n] + rest;
    assert path[1..] == rest;
    MovedDiffers(before, after, path, word);
  }

  lemma CommandsExactly(text: Printer, before: Table, after: Table, f: string)
    requires [] !in before && [] !in after
    ensures f in FileReports(text, "commands.json", before, after) <==> CommandsTold(before, after, f)
  {
    hide Report, CommandTold, CommandOtherTold;
    if f in FileReports(text, "commands.json", before, after) {
      var p :| p in before.Keys + after.Keys && Report(text, "commands.json", p, before, after) == Some(f);
      CommandsReported(text, p, before, after, f);
    }
    if n :| CommandTold(before, after, n, f) {
      CommandReported(text, before, after, n, f);
      Reported(text, "commands.json", before, after, [n, "argumentHint"], f);
    }
    if n, rest, word :| CommandOtherTold(before, after, n, rest, word, f) {
      CommandOtherReported(text, before, after, n, rest, word, f);
      Reported(text, "commands.json", before, after, [n] + rest, f);
    }
  }

  /** A frame subtype that comes; or one that goes, as which a change counts too. */
  ghost predicate SubtypeTold(before: Table, after: Table, called: string, f: string) {
    var p := ["subtypes", called];
    || (Gained(before, after, p) && f == Told("frame-subtype-new", called))
    || ((Lost(before, after, p) || Altered(before, after, p)) && f == Told("frame-subtype-removed", called))
  }

  lemma SubtypeReported(text: Printer, path: Path, before: Table, after: Table, f: string)
    requires path != [] && Report(text, "frames.json", path, before, after) == Some(f)
    ensures |path| == 2 && path == ["subtypes", path[1]] && SubtypeTold(before, after, path[1], f)
  {
    hide EqualValues, JoinWith, Direction;
    MovedIs(before, after, path);
    assert path == ["subtypes", path[1]];
  }

  lemma SubtypeReports(text: Printer, before: Table, after: Table, s: string, f: string)
    requires SubtypeTold(before, after, s, f)
    ensures Report(text, "frames.json", ["subtypes", s], before, after) == Some(f)
  {
    hide EqualValues, JoinWith, Direction;
  }

  lemma FramesExactly(text: Printer, before: Table, after: Table, f: string)
    requires [] !in before && [] !in after
    ensures f in FileReports(text, "frames.json", before, after) <==> exists s :: SubtypeTold(before, after, s, f)
  {
    hide Report, SubtypeTold;
    if f in FileReports(text, "frames.json", before, after) {
      var p :| p in before.Keys + after.Keys && Report(text, "frames.json", p, before, after) == Some(f);
      SubtypeReported(text, p, before, after, f);
    }
    if s :| SubtypeTold(before, after, s, f) {
      SubtypeReports(text, before, after, s, f);
      Reported(text, "frames.json", before, after, ["subtypes", s], f);
    }
  }

  ghost predicate ModelTold(before: Table, after: Table, path: Path, word: string, f: string) {
    Moved(before, after, path, word) && f == Told("models-shape-changed", JoinWith(path, '/') + " " + word)
  }

  lemma ModelsExactly(text: Printer, before: Table, after: Table, f: string)
    requires [] !in before && [] !in after
    ensures f in FileReports(text, "models.json", before, after) <==>
      exists path, word :: ModelTold(before, after, path, word, f)
  {
    hide EqualValues, JoinWith, Direction;
    if f in FileReports(text, "models.json", before, after) {
      var p :| p in before.Keys + after.Keys && Report(text, "models.json", p, before, after) == Some(f);
      MovedIs(before, after, p);
      assert ModelTold(before, after, p, Word(ChangeAt(p, before, after)), f);
    }
    if path, word :| ModelTold(before, after, path, word, f) {
      MovedDiffers(before, after, path, word);
      Reported(text, "models.json", before, after, path, f);
    }
  }

  /** Error output that the new probe has, and anything else that differs. */
  ghost predicate ProbeTold(before: Table, after: Table, path: Path, word: string, f: string) {
    && path != [] && Moved(before, after, path, word)
    && if path[|path| - 1] == "stderr" then
         && path in after && after[path] !in {Null, Bool(false), Num(0.0), Str(""), Arr([]), Obj(map[])}
         && f == Told("stderr-warning", JoinWith(path[..|path| - 1], '/'))
       else f == Told("launch-probe-changed", JoinWith(path, '/') + " " + word)
  }

  lemma ProbeReported(text: Printer, path: Path, before: Table, after: Table, f: string)
    requires path != [] && Differs(path, before, after)
    requires Report(text, "launch-probe.json", path, before, after) == Some(f)
    ensures ProbeTold(before, after, path, Word(ChangeAt(path, before, after)), f)
  {
    hide EqualValues, JoinWith, Direction;
    MovedIs(before, after, path);
    if path in after {
      FalsyIs(after[path]);
    }
  }

  lemma ProbeReports(text: Printer, before: Table, after: Table, path: Path, word: string, f: string)
    requires path != [] && ProbeTold(before, after, path, word, f)
    ensures Report(text, "launch-probe.json", path, before, after) == Some(f)
  {
    hide EqualValues, JoinWith, Direction;
    MovedDiffers(before, after, path, word);
    if path in after {
      FalsyIs(after[path]);
    }
  }

  lemma ProbesExactly(text: Printer, before: Table, after: Table, f: string)
    requires [] !in before && [] !in after
    ensures f in FileReports(text, "launch-probe.json", before, after) <==>
      exists path, word :: ProbeTold(before, after, path, word, f)
  {
    hide Report;
    if f in FileReports(text, "launch-probe.json", before, after) {
      var p :| p in before.Keys + after.Keys && Report(text, "launch-probe.json", p, before, after) == Some(f);
      ReportDiffers(text, "launch-probe.json", p, before, after);
      ProbeReported(text, p, before, after, f);
    }
    hide ProbeTold;
    if path, word :| ProbeTold(before, after, path, word, f) {
      ProbeHasPath(before, after, path, word, f);
      ProbeReports(text, before, after, path, word, f);
      Reported(text, "launch-probe.json", before, after, path, f);
    }
  }

  lemma ProbeHasPath(before: Table, after: Table, path: Path, word: string, f: string)
    requires ProbeTold(before, after, path, word, f)
    ensures path != []
  {
  }

  // ----- The whole comparison -----

  /** A line is listed exactly when something in one of the six files calls for it. */
  lemma ReportsExactly(text: Printer, before: Snapshot, after: Snapshot, f: string)
    ensures f in AllReports(text, before, after) <==>
      || CliTold(Load(before, "cli.json"), Load(after, "cli.json"), f)
      || ProtocolTold(text, Load(before, "protocol.json"), Load(after, "protocol.json"), f)
      || CommandsTold(Load(before, "commands.json"), Load(after, "commands.json"), f)
      || (exists path, word :: ModelTold(Load(before, "models.json"), Load(after, "models.json"), path, word, f))
      || (exists s :: SubtypeTold(Load(before, "frames.json"), Load(after, "frames.json"), s, f))
      || (exists path, word ::
            ProbeTold(Load(before, "launch-probe.json"), Load(after, "launch-probe.json"), path, word, f))
  {
    hide Load, FileReports, CliTold, ProtocolTold, CommandsTold, ModelTold, SubtypeTold, ProbeTold;
    CliExactly(text, Load(before, "cli.json"), Load(after, "cli.json"), f);
    ProtocolExactly(text, Load(before, "protocol.json"), Load(after, "protocol.json"), f);
    CommandsExactly(text, Load(before, "commands.json"), Load(after, "commands.json"), f);
    ModelsExactly(text, Load(before, "models.json"), Load(after, "models.json"), f);
    FramesExactly(text, Load(before, "frames.json"), Load(after, "frames.json"), f);
    ProbesExactly(text, Load(before, "launch-probe.json"), Load(after, "launch-probe.json"), f);
    FilesOf(text, before, after, f);
  }

  lemma FilesOf(text: Printer, before: Snapshot, after: Snapshot, f: string)
    ensures f in AllReports(text, before, after) <==>
      exists name :: name in {"cli.json", "protocol.json", "commands.json", "models.json", "frames.json",
                              "launch-probe.json"}
                     && f in FileReports(text, name, Load(before, name), Load(after, name))
  {
    hide Load, FileReports;
    assert COMPARED[0] == "cli.json" && COMPARED[1] == "protocol.json" && COMPARED[2] == "commands.json";
    assert COMPARED[3] == "models.json" && COMPARED[4] == "frames.json" && COMPARED[5] == "launch-probe.json";
    assert forall name :: name in COMPARED <==>
        name in {"cli.json", "protocol.json", "commands.json", "models.json", "frames.json", "launch-probe.json"};
  }

  // ----- Which side a finding is about -----

  const ARRIVALS := {"flag-added", "subcommand-added", "cli-added", "server-request-new", "notification-new",
                     "request-new", "field-added", "method-added", "protocol-added", "command-builtin-new",
                     "frame-subtype-new"}
  const DEPARTURES := {"flag-removed", "subcommand-removed", "cli-removed", "method-removed", "field-removed",
                       "protocol-removed", "command-builtin-removed", "frame-subtype-removed"}
  const CHANGES := {"flag-shape-changed", "subcommand-changed", "cli-changed", "method-changed", "field-changed",
                    "protocol-changed", "command-builtin-changed", "models-shape-changed", "launch-probe-changed",
                    "stderr-warning"}

  lemma WordsJoined()
    ensures "subcommand-" + "added" == "subcommand-added" && "subcommand-" + "removed" == "subcommand-removed"
    ensures "subcommand-" + "changed" == "subcommand-changed" && "cli-" + "added" == "cli-added"
    ensures "cli-" + "removed" == "cli-removed" && "cli-" + "changed" == "cli-changed"
    ensures "method-" + "added" == "method-added" && "method-" + "removed" == "method-removed"
    ensures "method-" + "changed" == "method-changed" && "field-" + "added" == "field-added"
    ensures "field-" + "removed" == "field-removed" && "field-" + "changed" == "field-changed"
    ensures "protocol-" + "added" == "protocol-added" && "protocol-" + "removed" == "protocol-removed"
    ensures "protocol-" + "changed" == "protocol-changed"
  {
  }

  lemma KindsApart()
    ensures ARRIVALS !! DEPARTURES !! CHANGES
  {
  }

  /** An arrival is only found for a leaf of the new table alone, and a departure only for one of the old table alone
      or, of a frame subtype, for one that differs; a leaf on one side alone is found as such or as a change of
      shape. */
  lemma SidesTold(text: Printer, name: string, path: Path, before: Table, after: Table)
    requires path != [] && name in COMPARED && Report(text, name, path, before, after).Some?
    ensures Differs(path, before, after)
    ensures var kind := Classify(text, name, path, ChangeAt(path, before, after), before, after).value.kind;
            && (kind in ARRIVALS ==> Gained(before, after, path))
            && (kind in DEPARTURES ==>
                  Lost(before, after, path) || (name == "frames.json" && Altered(before, after, path)))
            && (Gained(before, after, path) ==> kind in ARRIVALS + CHANGES)
            && (Lost(before, after, path) ==> kind in DEPARTURES + CHANGES)
  {
    hide EqualValues, JoinWith, Direction, Suppressed;
    MovedIs(before, after, path);
    WordsJoined();
    KindsApart();
    KindOf(text, name, path, ChangeAt(path, before, after), before, after);
  }

  lemma KindOf(text: Printer, name: string, path: Path, change: Change, before: Table, after: Table)
    requires path != [] && Classify(text, name, path, change, before, after).Some?
    ensures var kind := Classify(text, name, path, change, before, after).value.kind;
            if change == Added then kind in ARRIVALS + CHANGES
            else if change == Removed then kind in DEPARTURES + CHANGES
            else kind in CHANGES || (name == "frames.json" && kind in DEPARTURES)
  {
    hide JoinWith, Direction, Truthy;
    WordsJoined();
  }
}
