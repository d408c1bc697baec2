/** Which provider events the captures react to, said of the bytes and the JSON in them. */
module CaptureEvents {
  import opened Bytes
  import opened Options
  import opened LineReader
  import opened Compaction
  import opened Chunking
  import Schema = SchemaWalk

  // ----- Lines -----

  /** Every line with its newline, byte 10, and what is left over. */
  function Written(lines: seq<Bytes>, rest: Bytes): Bytes {
    if lines == [] then rest else lines[0] + [10] + Written(lines[1..], rest)
  }

  lemma {:induction false} WrittenLines(lines: seq<Bytes>, rest: Bytes)
    requires (forall i :: 0 <= i < |lines| ==> 10 !in lines[i]) && 10 !in rest
    ensures Lines(Written(lines, rest)) == lines && Tail(Written(lines, rest)) == rest
    decreases |lines|
  {
    hide Lines, Tail, Break;
    var b := Written(lines, rest);
    LinesUnfold(b);
    if lines == [] {
      BreakIs(rest, []);
      assert rest + [] == rest;
    } else {
      var more := Written(lines[1..], rest);
      WrittenLines(lines[1..], rest);
      assert b == lines[0] + ([10] + more);
      BreakIs(lines[0], [10] + more);
      assert b[..|lines[0]|] == lines[0] && b[|lines[0]| + 1..] == more;
      assert lines == [lines[0]] + lines[1..];
    }
  }

  lemma {:induction false} BreakIs(a: Bytes, b: Bytes)
    requires 10 !in a && (b != [] ==> b[0] == 10)
    ensures Break(a + b) == |a|
  {
    var i := Break(a + b);
    assert forall j :: 0 <= j < |a| ==> (a + b)[j] == a[j];
    if b != [] {
      assert (a + b)[|a|] == 10;
    }
  }

  lemma {:induction false} LinesWritten(b: Bytes)
    ensures b == Written(Lines(b), Tail(b)) && 10 !in Tail(b)
    ensures forall i :: 0 <= i < |Lines(b)| ==> 10 !in Lines(b)[i]
    decreases |b|
  {
    hide Lines, Tail;
    var i := Break(b);
    LinesUnfold(b);
    if i < |b| {
      var rest := b[i + 1..];
      LinesWritten(rest);
      assert b == b[..i] + [10] + rest;
      assert ([b[..i]] + Lines(rest))[1..] == Lines(rest);
    }
  }

  /** A stream's lines and tail are the only way to write it as newline-free pieces, all but the last ended by byte
      10. */
  lemma LinesExactly(b: Bytes, lines: seq<Bytes>, rest: Bytes)
    ensures Lines(b) == lines && Tail(b) == rest <==>
      b == Written(lines, rest) && 10 !in rest && forall i :: 0 <= i < |lines| ==> 10 !in lines[i]
  {
    hide Lines, Tail, Written;
    LinesWritten(b);
    if 10 !in rest && forall i :: 0 <= i < |lines| ==> 10 !in lines[i] {
      WrittenLines(lines, rest);
    }
  }

  // ----- Events of an interrupt capture -----

  function Content(event: Json): Option<Json> {
    Schema.Descend(event, ["message", "content"])
  }

  /** Something in the message's list of content is of type "tool_use". */
  ghost predicate UsesTool(event: Json) {
    exists i :: BlockUses(event, i)
  }

  predicate BlockUses(event: Json, i: int) {
    && Content(event).Some? && Content(event).value.Arr? && 0 <= i < |Content(event).value.items|
    && Schema.Descend(Content(event).value.items[i], ["type"]) == Some(Schema.Str("tool_use"))
  }

  predicate Cancels(event: Json) {
    && Schema.Descend(event, ["type"]) == Some(Schema.Str("result"))
    && Schema.Descend(event, ["subtype"]) == Some(Schema.Str("error_during_execution"))
    && Schema.Descend(event, ["is_error"]) == Some(Schema.Bool(true))
  }

  /** JSON that is no object, or whose message has a content that is no list, text or object. */
  predicate Unreadable(event: Json) {
    || !event.Obj?
    || (Content(event).Some? && !Content(event).value.Arr? && !Content(event).value.Str? && !Content(event).value.Obj?)
  }

  lemma InsideOne(event: Json, key: string)
    requires event.Obj?
    ensures Schema.Descend(event, [key]) == if key in event.fields then Some(event.fields[key]) else None
  {
    assert [key][1..] == [];
  }

  lemma InsideTwo(event: Json, key: string, other: string)
    requires event.Obj?
    ensures Schema.Descend(event, [key, other])
         == if key in event.fields && event.fields[key].Obj? && other in event.fields[key].fields
            then Some(event.fields[key].fields[other]) else None
  {
    assert [key, other][1..] == [other];
    if key in event.fields && event.fields[key].Obj? {
      InsideOne(event.fields[key], other);
    }
  }

  lemma BlockIs(block: Json)
    ensures ToolUse(block) <==> Schema.Descend(block, ["type"]) == Some(Schema.Str("tool_use"))
  {
    if block.Obj? {
      InsideOne(block, "type");
    }
  }

  lemma InterpretIs(parsed: Option<Json>)
    ensures Interpret(parsed)
         == if parsed.None? then Skip else if Unreadable(parsed.value) then Raise
            else Seen(UsesTool(parsed.value), Cancels(parsed.value))
  {
    hide ToolUse;
    if parsed.Some? && parsed.value.Obj? {
      var event := parsed.value;
      InsideTwo(event, "message", "content");
      InsideOne(event, "type");
      InsideOne(event, "subtype");
      InsideOne(event, "is_error");
      hide Schema.Descend;
      if Blocks(event).Some? {
        UsesIs(event);
      }
    }
  }

  lemma UsesIs(event: Json)
    requires event.Obj? && Blocks(event).Some?
    ensures UsesTool(event) <==> exists i :: 0 <= i < |Blocks(event).value| && ToolUse(Blocks(event).value[i])
  {
    hide ToolUse;
    InsideTwo(event, "message", "content");
    forall block
      ensures ToolUse(block) <==> Schema.Descend(block, ["type"]) == Some(Schema.Str("tool_use"))
    {
      BlockIs(block);
    }
    hide Schema.Descend;
    var blocks := Blocks(event).value;
    if i :| BlockUses(event, i) {
      assert ToolUse(blocks[i]);
    }
    if i :| 0 <= i < |blocks| && ToolUse(blocks[i]) {
      assert BlockUses(event, i);
    }
  }

  ghost predicate RaisesAt(parse: Bytes -> Option<Json>, lines: seq<Bytes>, i: int) {
    0 <= i < |lines| && parse(lines[i]).Some? && Unreadable(parse(lines[i]).value)
  }

  /** A line that parses, with no line up to it that raises. */
  ghost predicate HeardAt(parse: Bytes -> Option<Json>, lines: seq<Bytes>, i: int) {
    0 <= i < |lines| && parse(lines[i]).Some? && forall j :: j <= i ==> !RaisesAt(parse, lines, j)
  }

  /** A capture has seen a tool use when some line before the first that raises is such an event, has seen the
      cancellation when one is that result, and has raised when a line cannot be looked into. */
  lemma CaptureMeans(parse: Bytes -> Option<Json>, meaning: Bytes -> Meaning, lines: seq<Bytes>)
    requires forall line :: meaning(line) == Interpret(parse(line))
    ensures var g := Fold(meaning, CLEAR, lines);
            && (g.raised <==> exists i :: RaisesAt(parse, lines, i))
            && (g.tool <==> exists i :: HeardAt(parse, lines, i) && UsesTool(parse(lines[i]).value))
            && (g.cancelled <==> exists i :: HeardAt(parse, lines, i) && Cancels(parse(lines[i]).value))
  {
    hide Fold, Interpret, UsesTool, Cancels, Unreadable;
    forall line
      ensures meaning(line)
           == if parse(line).None? then Skip else if Unreadable(parse(line).value) then Raise
              else Seen(UsesTool(parse(line).value), Cancels(parse(line).value))
    {
      InterpretIs(parse(line));
    }
    FoldMeans(meaning, CLEAR, lines);
    forall i
      ensures RaisesAt(parse, lines, i) <==> 0 <= i < |lines| && meaning(lines[i]).Raise?
    {
    }
    forall i
      ensures HeardAt(parse, lines, i) <==> Counts(meaning, lines, i)
    {
      HeardCounts(parse, meaning, lines, i);
    }
  }

  lemma HeardCounts(parse: Bytes -> Option<Json>, meaning: Bytes -> Meaning, lines: seq<Bytes>, i: int)
    requires forall line :: meaning(line)
                         == if parse(line).None? then Skip else if Unreadable(parse(line).value) then Raise
                            else Seen(UsesTool(parse(line).value), Cancels(parse(line).value))
    ensures HeardAt(parse, lines, i) <==> Counts(meaning, lines, i)
  {
    hide UsesTool, Cancels, Unreadable;
    if HeardAt(parse, lines, i) {
      assert !RaisesAt(parse, lines, i);
      forall j | 0 <= j < i
        ensures !meaning(lines[j]).Raise?
      {
        assert !RaisesAt(parse, lines, j);
      }
    }
    if Counts(meaning, lines, i) {
      forall j | j <= i
        ensures !RaisesAt(parse, lines, j)
      {
        assert 0 <= j < i ==> !meaning(lines[j]).Raise?;
      }
    }
  }

  // ----- Events of a compaction -----

  predicate IsSystem(event: Json, subtype: string) {
    && Schema.Descend(event, ["type"]) == Some(Schema.Str("system"))
    && Schema.Descend(event, ["subtype"]) == Some(Schema.Str(subtype))
  }

  predicate IsResult(event: Json) {
    Schema.Descend(event, ["type"]) == Some(Schema.Str("result"))
  }

  predicate StartsCompacting(event: Json) {
    IsSystem(event, "status") && Schema.Descend(event, ["status"]) == Some(Schema.Str("compacting"))
  }

  predicate IsBoundary(event: Json) {
    IsSystem(event, "compact_boundary")
  }

  /** A status whose result is there, not null and no success, or a result that is an error. */
  predicate GoesWrong(event: Json) {
    || (IsSystem(event, "status") && Schema.Descend(event, ["compact_result"])
          !in {None, Some(Schema.Null), Some(Schema.Str("success"))})
    || (IsResult(event) && Schema.Descend(event, ["is_error"]) == Some(Schema.Bool(true)))
  }

  /** A session that starts with something under "tools" that Python takes for true. */
  predicate OffersTools(event: Json) {
    IsSystem(event, "init") && Schema.Descend(event, ["tools"])
      !in {None, Some(Schema.Null), Some(Schema.Bool(false)), Some(Schema.Num(0.0)), Some(Schema.Str("")),
           Some(Schema.Arr([])), Some(Schema.Obj(map[]))}
  }

  lemma Descends(event: Json)
    requires event.Obj?
    ensures forall key :: Schema.Descend(event, [key]) == if key in event.fields then Some(event.fields[key]) else None
  {
    forall key
      ensures Schema.Descend(event, [key]) == if key in event.fields then Some(event.fields[key]) else None
    {
      InsideOne(event, key);
    }
  }

  lemma SignifyIs(event: Json)
    requires event.Obj?
    ensures var s := Signify(Some(event));
            && !s.Broken?
            && (Settles(s) <==> IsResult(event)) && (Begins(s) <==> StartsCompacting(event))
            && (Ends(s) <==> IsBoundary(event)) && (Bad(s) <==> GoesWrong(event)) && (Offers(s) <==> OffersTools(event))
  {
    Descends(event);
    hide Schema.Descend;
  }

  ghost predicate Event(parse: Bytes -> Option<Json>, lines: seq<Bytes>, p: Json -> bool, i: int) {
    0 <= i < |lines| && parse(lines[i]).Some? && parse(lines[i]).value.Obj? && p(parse(lines[i]).value)
  }

  lemma EventIs(parse: Bytes -> Option<Json>, meaning: Bytes -> Signal, lines: seq<Bytes>, i: int)
    requires 0 <= i < |lines| && meaning(lines[i]) == Signify(parse(lines[i]))
    ensures Event(parse, lines, IsResult, i) <==> Settles(meaning(lines[i]))
    ensures Event(parse, lines, StartsCompacting, i) <==> Begins(meaning(lines[i]))
    ensures Event(parse, lines, IsBoundary, i) <==> Ends(meaning(lines[i]))
    ensures Event(parse, lines, GoesWrong, i) <==> Bad(meaning(lines[i]))
    ensures Event(parse, lines, OffersTools, i) <==> Offers(meaning(lines[i]))
    ensures meaning(lines[i]).Broken? <==> parse(lines[i]).Some? && !parse(lines[i]).value.Obj?
  {
    var parsed := parse(lines[i]);
    if parsed.Some? && parsed.value.Obj? {
      SignifyIs(parsed.value);
      hide IsResult, StartsCompacting, IsBoundary, GoesWrong, OffersTools;
    } else {
      assert Signify(parsed).Ignored? || Signify(parsed).Broken?;
    }
  }

  /** Following a compaction, of all lines at once: a turn settled; a later one settled too; compacting began; a
      boundary came after that; something went wrong; no session offered tools. */
  lemma CompactionMeans(parse: Bytes -> Option<Json>, meaning: Bytes -> Signal, lines: seq<Bytes>)
    requires forall line :: meaning(line) == Signify(parse(line))
    ensures var w := Watched(meaning, lines);
            && (w.seeded <==> exists i :: Event(parse, lines, IsResult, i))
            && (w.terminal <==> exists i, j :: i < j && Event(parse, lines, IsResult, i)
                                               && Event(parse, lines, IsResult, j))
            && (w.compacting <==> exists i :: Event(parse, lines, StartsCompacting, i))
            && (w.boundary <==> exists i, j :: i < j && Event(parse, lines, StartsCompacting, i)
                                               && Event(parse, lines, IsBoundary, j))
            && (w.failed <==> exists i :: Event(parse, lines, GoesWrong, i))
            && (w.toolFree <==> !exists i :: Event(parse, lines, OffersTools, i))
  {
    hide Watched, Signify, Settles, Begins, Ends, Bad, Offers;
    WatchMeans(meaning, lines);
    forall i | 0 <= i < |lines|
      ensures Event(parse, lines, IsResult, i) <==> Settles(meaning(lines[i]))
      ensures Event(parse, lines, StartsCompacting, i) <==> Begins(meaning(lines[i]))
      ensures Event(parse, lines, IsBoundary, i) <==> Ends(meaning(lines[i]))
      ensures Event(parse, lines, GoesWrong, i) <==> Bad(meaning(lines[i]))
      ensures Event(parse, lines, OffersTools, i) <==> Offers(meaning(lines[i]))
    {
      EventIs(parse, meaning, lines, i);
    }
    forall i, p | Event(parse, lines, p, i)
      ensures 0 <= i < |lines|
    {
    }
    hide Event;
  }
}
