/** Following one compaction in a provider's output, line by line. */
module Compaction {
  import opened Bytes
  import opened Options
  import opened LineReader
  import opened Chunking
  import Schema = SchemaWalk

  /** What one line means: nothing here, JSON that cannot be looked into, a session start, a status, the boundary, or a
      turn's result. */
  datatype Signal =
    | Ignored
    | Broken
    | Init(tools: bool)
    | Status(compacting: bool, bad: bool)
    | Boundary
    | Result(isError: bool)

  /** A compaction that reports anything but success, or nothing, went wrong. */
  predicate BadResult(event: Json)
    requires event.Obj?
  {
    "compact_result" in event.fields && event.fields["compact_result"] != Schema.Null
    && event.fields["compact_result"] != Schema.Str("success")
  }

  function Signify(parsed: Option<Json>): Signal {
    if parsed.None? then Ignored
    else
      var event := parsed.value;
      if !event.Obj? then Broken
      else if Says(event, "type", "system") && Says(event, "subtype", "init") then
        Init("tools" in event.fields && Schema.Truthy(event.fields["tools"]))
      else if Says(event, "type", "system") && Says(event, "subtype", "status") then
        Status(Says(event, "status", "compacting"), BadResult(event))
      else if Says(event, "type", "system") && Says(event, "subtype", "compact_boundary") then Boundary
      else if Says(event, "type", "result") then Result(IsTrue(event, "is_error"))
      else Ignored
  }

  datatype Watch = Watch(toolFree: bool, failed: bool, seeded: bool, compacting: bool, boundary: bool, terminal: bool)

  const START := Watch(true, false, false, false, false, false)

  function Next(w: Watch, s: Signal): Watch {
    match s
    case Ignored => w
    case Broken => w
    case Init(tools) => w.(toolFree := w.toolFree && !tools)
    case Status(compacting, bad) => w.(compacting := w.compacting || compacting, failed := w.failed || bad)
    case Boundary => w.(boundary := w.boundary || w.compacting)
    case Result(isError) => w.(failed := w.failed || isError, terminal := w.terminal || w.seeded, seeded := true)
  }

  function Watched(meaning: Bytes -> Signal, lines: seq<Bytes>): Watch
    decreases |lines|
  {
    if lines == [] then START else Next(Watched(meaning, lines[..|lines| - 1]), meaning(lines[|lines| - 1]))
  }

  predicate Settles(s: Signal) {
    s.Result?
  }

  predicate Begins(s: Signal) {
    s.Status? && s.compacting
  }

  predicate Ends(s: Signal) {
    s.Boundary?
  }

  predicate Bad(s: Signal) {
    (s.Status? && s.bad) || (s.Result? && s.isError)
  }

  predicate Offers(s: Signal) {
    s.Init? && s.tools
  }

  ghost predicate Any(meaning: Bytes -> Signal, lines: seq<Bytes>, p: Signal -> bool) {
    exists i :: 0 <= i < |lines| && p(meaning(lines[i]))
  }

  ghost predicate AnyThen(meaning: Bytes -> Signal, lines: seq<Bytes>, p: Signal -> bool, q: Signal -> bool) {
    exists i, j :: 0 <= i < j < |lines| && p(meaning(lines[i])) && q(meaning(lines[j]))
  }

  lemma AnyMore(meaning: Bytes -> Signal, lines: seq<Bytes>, p: Signal -> bool)
    requires lines != []
    ensures Any(meaning, lines, p) <==> Any(meaning, lines[..|lines| - 1], p) || p(meaning(lines[|lines| - 1]))
  {
    var most := lines[..|lines| - 1];
    assert forall i :: 0 <= i < |most| ==> lines[i] == most[i];
  }

  lemma AnyThenMore(meaning: Bytes -> Signal, lines: seq<Bytes>, p: Signal -> bool, q: Signal -> bool)
    requires lines != []
    ensures AnyThen(meaning, lines, p, q) <==>
      AnyThen(meaning, lines[..|lines| - 1], p, q)
      || (Any(meaning, lines[..|lines| - 1], p) && q(meaning(lines[|lines| - 1])))
  {
    var most := lines[..|lines| - 1];
    assert forall i :: 0 <= i < |most| ==> lines[i] == most[i];
  }

  /** What each flag stands for, of all lines at once: the seed turn settled, a later turn settled too, a boundary came
      after compacting had begun, something failed, no session offered tools. */
  ghost predicate Tells(w: Watch, meaning: Bytes -> Signal, lines: seq<Bytes>) {
    && (w.seeded <==> Any(meaning, lines, Settles))
    && (w.terminal <==> AnyThen(meaning, lines, Settles, Settles))
    && (w.compacting <==> Any(meaning, lines, Begins))
    && (w.boundary <==> AnyThen(meaning, lines, Begins, Ends))
    && (w.failed <==> Any(meaning, lines, Bad))
    && (w.toolFree <==> !Any(meaning, lines, Offers))
  }

  lemma TellsMore(w: Watch, meaning: Bytes -> Signal, lines: seq<Bytes>)
    requires lines != [] && Tells(w, meaning, lines[..|lines| - 1])
    ensures Tells(Next(w, meaning(lines[|lines| - 1])), meaning, lines)
  {
    hide Any, AnyThen;
    AnyMore(meaning, lines, Settles);
    AnyMore(meaning, lines, Begins);
    AnyMore(meaning, lines, Bad);
    AnyMore(meaning, lines, Offers);
    AnyThenMore(meaning, lines, Settles, Settles);
    AnyThenMore(meaning, lines, Begins, Ends);
  }

  lemma {:induction false} WatchMeans(meaning: Bytes -> Signal, lines: seq<Bytes>)
    ensures Tells(Watched(meaning, lines), meaning, lines)
    decreases |lines|
  {
    if lines != [] {
      hide Tells, Next;
      WatchMeans(meaning, lines[..|lines| - 1]);
      TellsMore(Watched(meaning, lines[..|lines| - 1]), meaning, lines);
    }
  }

  // ----- Lines as they are read -----

  /** One line of a stream, with its newline if it has one. */
  function ReadLine(b: Bytes): (line: Bytes)
    ensures line <= b && (b != [] ==> line != [])
  {
    var i := Break(b);
    if i == |b| then b else b[..i + 1]
  }

  /** iter(stream.readline, b"") */
  function ReadLines(b: Bytes): seq<Bytes>
    decreases |b|
  {
    if b == [] then [] else [ReadLine(b)] + ReadLines(b[|ReadLine(b)|..])
  }

  function Terminated(lines: seq<Bytes>): seq<Bytes> {
    seq(|lines|, i requires 0 <= i < |lines| => lines[i] + [NEWLINE])
  }

  /** The lines read are the stream's lines with their newlines, and its unterminated tail if there is one; joined they
      are the stream. */
  lemma {:induction false} ReadLinesAre(b: Bytes)
    ensures ReadLines(b) == Terminated(Lines(b)) + if Tail(b) == [] then [] else [Tail(b)]
    ensures Join(ReadLines(b)) == b
    decreases |b|
  {
    hide Break, Join, Lines, Tail;
    Nothing(l => Skip);
    LinesUnfold(b);
    if b == [] {
      BreakNone();
    } else {
      var i, line := Break(b), ReadLine(b);
      var rest := b[|line|..];
      ReadLinesAre(rest);
      JoinAppend([line], ReadLines(rest));
      JoinOne(line);
      assert b == line + rest;
      if i < |b| {
        assert line == b[..i] + [NEWLINE];
        assert Lines(b) == [b[..i]] + Lines(rest);
        assert Terminated(Lines(b)) == [line] + Terminated(Lines(rest));
      } else {
        assert rest == [] && Lines(b) == [] && ReadLines(rest) == [];
      }
    }
  }

  lemma BreakNone()
    ensures Break([]) == 0
  {
  }

  class CompactionReader {
    const reader: BoundedReader
    const meaning: Bytes -> Signal
    var toolFree: bool
    var failed: bool
    var seeded: bool
    var compacting: bool
    var boundary: bool
    var terminal: bool

    constructor (limit: nat, parse: Bytes -> Option<Json>)
      ensures fresh(reader) && reader.limit == limit && reader.Holds([]) && View() == START
      ensures forall line :: meaning(line) == Signify(parse(line))
    {
      reader := new BoundedReader(limit);
      meaning := line => Signify(parse(line));
      toolFree, failed, seeded, compacting, boundary, terminal := true, false, false, false, false, false;
    }

    function View(): Watch
      reads this
    {
      Watch(toolFree, failed, seeded, compacting, boundary, terminal)
    }

    method Consume(line: Bytes) returns (ok: bool)
      modifies this
      ensures ok <==> !meaning(line).Broken?
      ensures View() == Next(old(View()), meaning(line))
    {
      ok := true;
      match meaning(line) {
        case Ignored =>
        case Broken => ok := false;
        case Init(tools) =>
          if tools {
            toolFree := false;
          }
        case Status(begins, bad) =>
          if begins {
            compacting := true;
          }
          if bad {
            failed := true;
          }
        case Boundary =>
          if compacting {
            boundary := true;
          }
        case Result(isError) =>
          failed := failed || isError;
          if seeded {
            terminal := true;
          } else {
            seeded := true;
          }
      }
    }

    /** Reads a stream line by line, and follows the lines that fit the limit all in all. */
    method Drain(stream: Bytes) returns (ok: bool, k: nat)
      requires reader.Holds([]) && View() == START
      modifies this, reader
      ensures k <= Fitting(reader.limit, ReadLines(stream)) && View() == Watched(meaning, ReadLines(stream)[..k])
      ensures if ok then k == Fitting(reader.limit, ReadLines(stream)) && reader.Holds(stream)
              else k < Fitting(reader.limit, ReadLines(stream)) && meaning(ReadLines(stream)[k]).Broken?
    {
      hide Join, Kept, Break, ReadLine;
      Nothing(l => Skip);
      ghost var lines := ReadLines(stream);
      ghost var fit := Fitting(reader.limit, lines);
      var i := 0;
      var rest := stream;
      k := 0;
      while rest != []
        decreases |rest|
        invariant 0 <= i <= |lines| && ReadLines(rest) == lines[i..]
        invariant reader.Holds(Join(lines[..i]))
        invariant k == Least(i, fit)
        invariant View() == Watched(meaning, lines[..k])
      {
        var line := ReadLine(rest);
        assert lines[i..][0] == line && lines[i..][1..] == lines[i + 1..];
        JoinMore(lines, i);
        reader.Record(line, Join(lines[..i]));
        FittingAt(reader.limit, lines, i + 1);
        if reader.total <= reader.limit {
          assert lines[..i + 1][..i] == lines[..i] && lines[..i + 1][i] == line;
          ok := Consume(line);
          if !ok {
            return;
          }
          k := i + 1;
        }
        rest := rest[|line|..];
        i := i + 1;
      }
      assert lines[i..] == [];
      assert lines[..i] == lines;
      ReadLinesAre(stream);
      ok := true;
    }
  }
}
