/** Bounded capture of a byte stream, and the reassembly of its lines from chunks. */
module LineReader {
  import opened Bytes
  import opened Options
  import Schema = SchemaWalk

  const NEWLINE: byte := 10

  /** What one line of output means to the interrupt capture: not JSON, JSON the reader cannot look into, or an event
      that may be a tool use and may be the cancelled result. */
  datatype Meaning = Skip | Raise | Seen(tool: bool, cancelled: bool)

  type Json = Schema.Json

  /** event.get(key) == text */
  predicate Says(event: Json, key: string, text: string)
    requires event.Obj?
  {
    key in event.fields && event.fields[key] == Schema.Str(text)
  }

  predicate IsTrue(event: Json, key: string)
    requires event.Obj?
  {
    key in event.fields && event.fields[key] == Schema.Bool(true)
  }

  /** The content blocks of an event's message. Iterating an object or a string gives strings, which are no blocks; any
      other content raises. */
  function Blocks(event: Json): Option<seq<Json>>
    requires event.Obj?
  {
    if "message" !in event.fields || !event.fields["message"].Obj? then Some([])
    else
      var message := event.fields["message"].fields;
      if "content" !in message then Some([])
      else
        match message["content"]
        case Arr(items) => Some(items)
        case Str(_) => Some([])
        case Obj(_) => Some([])
        case _ => None
  }

  predicate ToolUse(block: Json) {
    block.Obj? && Says(block, "type", "tool_use")
  }

  /** A line that is not JSON is skipped; JSON that is not an object, or whose content cannot be iterated, raises. */
  function Interpret(parsed: Option<Json>): Meaning {
    if parsed.None? then Skip
    else
      var event := parsed.value;
      if !event.Obj? || Blocks(event).None? then Raise
      else
        var blocks := Blocks(event).value;
        Seen(exists i :: 0 <= i < |blocks| && ToolUse(blocks[i]),
             Says(event, "type", "result") && Says(event, "subtype", "error_during_execution")
             && IsTrue(event, "is_error"))
  }

  // ----- Lines -----

  function Break(b: Bytes): (i: nat)
    ensures i <= |b|
    ensures forall j :: 0 <= j < i ==> b[j] != NEWLINE
    ensures i < |b| ==> b[i] == NEWLINE
  {
    if b == [] || b[0] == NEWLINE then 0 else 1 + Break(b[1..])
  }

  /** The newline-terminated lines of a stream, without their newlines. */
  function Lines(b: Bytes): seq<Bytes>
    decreases |b|
  {
    var i := Break(b);
    if i == |b| then [] else [b[..i]] + Lines(b[i + 1..])
  }

  /** What follows the last newline. */
  function Tail(b: Bytes): Bytes
    decreases |b|
  {
    var i := Break(b);
    if i == |b| then b else Tail(b[i + 1..])
  }

  function Join(chunks: seq<Bytes>): Bytes {
    if chunks == [] then [] else Join(chunks[..|chunks| - 1]) + chunks[|chunks| - 1]
  }

  lemma BreakPrefix(a: Bytes, b: Bytes)
    ensures Break(a) < |a| ==> Break(a + b) == Break(a)
    ensures Break(a) == |a| ==> Break(a + b) == |a| + Break(b)
  {
    var i := Break(a);
    var j := Break(a + b);
    if i < |a| {
      assert (a + b)[i] == NEWLINE;
      forall k | 0 <= k < i
        ensures (a + b)[k] != NEWLINE
      {
        assert (a + b)[k] == a[k];
      }
    } else {
      forall k | 0 <= k < |a|
        ensures (a + b)[k] != NEWLINE
      {
        assert (a + b)[k] == a[k];
      }
      if j < |a + b| {
        assert (a + b)[j] == b[j - |a|];
      }
      if Break(b) < |b| {
        assert (a + b)[|a| + Break(b)] == b[Break(b)];
      }
    }
  }

  lemma LinesUnfold(b: Bytes)
    ensures Break(b) == |b| ==> Lines(b) == [] && Tail(b) == b
    ensures Break(b) < |b| ==> Lines(b) == [b[..Break(b)]] + Lines(b[Break(b) + 1..])
    ensures Break(b) < |b| ==> Tail(b) == Tail(b[Break(b) + 1..])
  {
    hide Break;
    var i := Break(b);
    if i < |b| {
      var first, rest := b[..i], b[i + 1..];
      LinesNext(b, i, first, rest);
    }
  }

  lemma LinesNext(b: Bytes, i: nat, first: Bytes, rest: Bytes)
    requires i == Break(b) < |b| && first == b[..i] && rest == b[i + 1..]
    ensures Lines(b) == [first] + Lines(rest) && Tail(b) == Tail(rest)
  {
    hide Break;
  }

  /** Feeding more bytes after the tail of what came before loses nothing and repeats nothing. */
  lemma {:induction false} LinesAppend(a: Bytes, b: Bytes)
    ensures Lines(a + b) == Lines(a) + Lines(Tail(a) + b)
    ensures Tail(a + b) == Tail(Tail(a) + b)
    decreases |a|
  {
    hide Lines, Tail, Break;
    var i := Break(a);
    BreakPrefix(a, b);
    LinesUnfold(a);
    LinesUnfold(a + b);
    if i < |a| {
      assert (a + b)[..i] == a[..i];
      assert (a + b)[i + 1..] == a[i + 1..] + b;
      LinesAppend(a[i + 1..], b);
    } else {
      assert [] + Lines(a + b) == Lines(a + b);
    }
  }

  lemma {:induction false} TailHasNoBreak(b: Bytes)
    ensures Break(Tail(b)) == |Tail(b)| && Lines(Tail(b)) == []
    decreases |b|
  {
    if Break(b) < |b| {
      TailHasNoBreak(b[Break(b) + 1..]);
    }
  }

  // ----- What the lines of a stream set -----

  datatype Flags = Flags(tool: bool, cancelled: bool, raised: bool)

  const CLEAR := Flags(false, false, false)

  function After(f: Flags, m: Meaning): Flags {
    if f.raised then f
    else
      match m
      case Skip => f
      case Raise => f.(raised := true)
      case Seen(tool, cancelled) => f.(tool := f.tool || tool, cancelled := f.cancelled || cancelled)
  }

  lemma AfterIs(f: Flags, m: Meaning)
    requires !f.raised
    ensures m.Skip? ==> After(f, m) == f
    ensures m.Raise? ==> After(f, m) == Flags(f.tool, f.cancelled, true)
    ensures m.Seen? ==> After(f, m) == Flags(f.tool || m.tool, f.cancelled || m.cancelled, false)
  {
  }

  /** The flags after a sequence of lines; nothing after a line that raises counts. */
  function Fold(meaning: Bytes -> Meaning, f: Flags, lines: seq<Bytes>): Flags
    decreases |lines|
  {
    if lines == [] then f else Fold(meaning, After(f, meaning(lines[0])), lines[1..])
  }

  lemma {:induction false} FoldAppend(meaning: Bytes -> Meaning, f: Flags, a: seq<Bytes>, b: seq<Bytes>)
    ensures Fold(meaning, f, a + b) == Fold(meaning, Fold(meaning, f, a), b)
    decreases |a|
  {
    if a == [] {
      assert a + b == b;
    } else {
      assert (a + b)[1..] == a[1..] + b;
      FoldAppend(meaning, After(f, meaning(a[0])), a[1..], b);
    }
  }

  lemma FoldOne(meaning: Bytes -> Meaning, f: Flags, line: Bytes)
    ensures Fold(meaning, f, [line]) == After(f, meaning(line)) && Fold(meaning, f, []) == f
  {
    assert [line][1..] == [];
  }

  lemma {:induction false} RaisedStays(meaning: Bytes -> Meaning, f: Flags, lines: seq<Bytes>)
    requires f.raised
    ensures Fold(meaning, f, lines) == f
    decreases |lines|
  {
    if lines != [] {
      RaisedStays(meaning, f, lines[1..]);
    }
  }

  /** The flags say what they should: some line before the first that raises was a tool use, or the cancelled result. */
  lemma {:induction false} FoldMeans(meaning: Bytes -> Meaning, f: Flags, lines: seq<Bytes>)
    requires !f.raised
    ensures var g := Fold(meaning, f, lines);
            && (g.raised <==> exists i :: 0 <= i < |lines| && meaning(lines[i]).Raise?)
            && (g.tool <==> f.tool || exists i :: Counts(meaning, lines, i) && meaning(lines[i]).tool)
            && (g.cancelled <==> f.cancelled || exists i :: Counts(meaning, lines, i) && meaning(lines[i]).cancelled)
    decreases |lines|
  {
    if lines != [] {
      var rest, g := lines[1..], After(f, meaning(lines[0]));
      assert forall i :: 0 <= i < |rest| ==> lines[i + 1] == rest[i];
      if g.raised {
        RaisedStays(meaning, g, rest);
        assert meaning(lines[0]).Raise?;
      } else {
        FoldMeans(meaning, g, rest);
        CountsRest(meaning, lines);
      }
    }
  }

  /** A line that was read as an event, with no line before it that raised. */
  ghost predicate Counts(meaning: Bytes -> Meaning, lines: seq<Bytes>, i: int) {
    0 <= i < |lines| && meaning(lines[i]).Seen? && forall j :: 0 <= j < i ==> !meaning(lines[j]).Raise?
  }

  lemma CountsRest(meaning: Bytes -> Meaning, lines: seq<Bytes>)
    requires lines != [] && !meaning(lines[0]).Raise?
    ensures forall i {:trigger Counts(meaning, lines[1..], i)} ::
      Counts(meaning, lines[1..], i) <==> i >= 0 && Counts(meaning, lines, i + 1)
    ensures forall i {:trigger Counts(meaning, lines, i)} ::
      i > 0 && Counts(meaning, lines, i) ==> Counts(meaning, lines[1..], i - 1)
  {
    var rest := lines[1..];
    assert forall i :: 0 <= i < |rest| ==> rest[i] == lines[i + 1];
    forall i | Counts(meaning, rest, i)
      ensures Counts(meaning, lines, i + 1)
    {
      forall j | 0 <= j < i + 1
        ensures !meaning(lines[j]).Raise?
      {
        assert j > 0 ==> lines[j] == rest[j - 1];
      }
    }
    forall i | i >= 0 && Counts(meaning, lines, i + 1)
      ensures Counts(meaning, rest, i)
    {
      assert rest[i] == lines[i + 1];
      forall j | 0 <= j < i
        ensures !meaning(rest[j]).Raise?
      {
        assert rest[j] == lines[j + 1];
      }
    }
    forall i | i > 0 && Counts(meaning, lines, i)
      ensures Counts(meaning, rest, i - 1)
    {
      assert i == (i - 1) + 1;
    }
  }

  // ----- Bounded capture -----

  function Kept(limit: nat, b: Bytes): Bytes {
    if |b| <= limit then b else b[..limit]
  }

  class BoundedReader {
    const limit: nat
    var data: Bytes
    var total: nat

    constructor (limit: nat)
      ensures this.limit == limit && data == [] && total == 0
    {
      this.limit := limit;
      data, total := [], 0;
    }

    /** The capture of everything seen so far. */
    ghost predicate Holds(seen: Bytes)
      reads this
    {
      total == |seen| && data == Kept(limit, seen)
    }

    method Record(chunk: Bytes, ghost seen: Bytes)
      requires Holds(seen)
      modifies this
      ensures Holds(seen + chunk)
    {
      total := total + |chunk|;
      if |data| < limit {
        var room := limit - |data|;
        data := data + (if |chunk| <= room then chunk else chunk[..room]);
      }
      assert data == Kept(limit, seen + chunk);
    }

    /** Whatever the chunks, the data is the first bytes of the stream, up to the limit. */
    method Drain(chunks: seq<Bytes>)
      requires Holds([])
      modifies this
      ensures Holds(Join(chunks))
    {
      var i := 0;
      while i < |chunks|
        invariant 0 <= i <= |chunks|
        invariant Holds(Join(chunks[..i]))
      {
        Record(chunks[i], Join(chunks[..i]));
        assert chunks[..i + 1][..i] == chunks[..i] && chunks[..i + 1][i] == chunks[i];
        i := i + 1;
      }
      assert chunks[..i] == chunks;
    }
  }

  /** How many chunks fit the limit, all in all. */
  function Fitting(limit: nat, chunks: seq<Bytes>): (k: nat)
    ensures k <= |chunks|
    ensures |Join(chunks[..k])| <= limit
    ensures k < |chunks| ==> |Join(chunks[..k + 1])| > limit
  {
    if |Join(chunks)| <= limit then
      assert chunks[..|chunks|] == chunks;
      |chunks|
    else
      var most := chunks[..|chunks| - 1];
      var k := Fitting(limit, most);
      assert most[..k] == chunks[..k];
      assert k < |most| ==> most[..k + 1] == chunks[..k + 1];
      assert k == |most| ==> chunks[..k + 1] == chunks;
      k
  }

  class InterruptReader {
    const reader: BoundedReader
    const meaning: Bytes -> Meaning
    var pending: Bytes
    var toolStarted: bool
    var interrupted: bool

    constructor (limit: nat, parse: Bytes -> Option<Json>)
      ensures fresh(reader) && reader.limit == limit && forall line :: meaning(line) == Interpret(parse(line))
      ensures reader.Holds([]) && pending == [] && !toolStarted && !interrupted
    {
      reader := new BoundedReader(limit);
      meaning := line => Interpret(parse(line));
      pending, toolStarted, interrupted := [], false, false;
    }

    function View(raised: bool): Flags
      reads this
    {
      Flags(toolStarted, interrupted, raised)
    }

    /** Takes every complete line out of the pending bytes. A line the reader cannot look into ends it. */
    method ConsumeLines() returns (ok: bool)
      modifies this
      ensures View(!ok) == Fold(meaning, old(View(false)), Lines(old(pending)))
      ensures ok ==> pending == Tail(old(pending))
    {
      hide Lines, Tail, Break, Fold, After;
      ghost var done: seq<Bytes> := [];
      assert [] + Lines(pending) == Lines(pending);
      FoldOne(meaning, View(false), []);
      while Break(pending) < |pending|
        decreases |pending|
        invariant Lines(old(pending)) == done + Lines(pending)
        invariant Tail(old(pending)) == Tail(pending)
        invariant View(false) == Fold(meaning, old(View(false)), done)
      {
        var i := Break(pending);
        var line := pending[..i];
        LinesUnfold(pending);
        assert done + ([line] + Lines(pending[i + 1..])) == done + [line] + Lines(pending[i + 1..]);
        FoldAppend(meaning, old(View(false)), done, [line]);
        FoldOne(meaning, View(false), line);
        AfterIs(View(false), meaning(line));
        FoldAppend(meaning, old(View(false)), done + [line], Lines(pending[i + 1..]));
        done := done + [line];
        pending := pending[i + 1..];
        match meaning(line) {
          case Skip =>
          case Raise =>
            RaisedStays(meaning, View(true), Lines(pending));
            return false;
          case Seen(tool, cancelled) =>
            if tool {
              toolStarted := true;
            }
            if cancelled {
              interrupted := true;
            }
        }
      }
      LinesUnfold(pending);
      assert done + [] == done;
      return true;
    }

    /** Reads a stream in chunks. As long as the stream fits the limit, the flags are those of the lines of the whole
        stream and the pending bytes its unterminated tail; past the limit, those of the chunks that fitted. */
    method Drain(chunks: seq<Bytes>) returns (ok: bool)
      requires reader.Holds([]) && pending == [] && !toolStarted && !interrupted
      modifies this, reader
      ensures var read := Join(chunks[..Fitting(reader.limit, chunks)]);
              && View(!ok) == Fold(meaning, CLEAR, Lines(read))
              && (ok ==> pending == Tail(read) && reader.Holds(Join(chunks)))
    {
      hide Fold, Lines, Tail, Kept, Break, Join;
      var i := 0;
      ghost var k := Fitting(reader.limit, chunks);
      Nothing(meaning);
      while i < |chunks|
        invariant 0 <= i <= |chunks|
        invariant reader.Holds(Join(chunks[..i]))
        invariant var read := Join(chunks[..Least(i, k)]);
          View(false) == Fold(meaning, CLEAR, Lines(read)) && pending == Tail(read)
      {
        var chunk := chunks[i];
        ghost var seen := Join(chunks[..i]);
        JoinMore(chunks, i);
        reader.Record(chunk, seen);
        FittingAt(reader.limit, chunks, i + 1);
        if reader.total <= reader.limit {
          pending := pending + chunk;
          LinesAppend(seen, chunk);
          FoldAppend(meaning, CLEAR, Lines(seen), Lines(Tail(seen) + chunk));
          ok := ConsumeLines();
          if !ok {
            LaterIgnored(meaning, chunks, i + 1, k);
            return;
          }
        }
        i := i + 1;
      }
      assert chunks[..i] == chunks;
      return true;
    }
  }

  lemma JoinMore(chunks: seq<Bytes>, i: nat)
    requires i < |chunks|
    ensures Join(chunks[..i + 1]) == Join(chunks[..i]) + chunks[i]
  {
    assert chunks[..i + 1][..i] == chunks[..i] && chunks[..i + 1][i] == chunks[i];
  }

  function Least(i: nat, k: nat): nat {
    if i <= k then i else k
  }

  lemma Nothing(meaning: Bytes -> Meaning)
    ensures Join([]) == [] && Lines([]) == [] && Tail([]) == [] && Fold(meaning, CLEAR, []) == CLEAR
  {
  }

  lemma {:induction false} JoinGrows(chunks: seq<Bytes>, i: nat, j: nat)
    requires i <= j <= |chunks|
    ensures Join(chunks[..i]) <= Join(chunks[..j])
    decreases j
  {
    if i < j {
      JoinGrows(chunks, i, j - 1);
      assert chunks[..j][..j - 1] == chunks[..j - 1];
    }
  }

  lemma FittingAt(limit: nat, chunks: seq<Bytes>, i: nat)
    requires i <= |chunks|
    ensures |Join(chunks[..i])| <= limit ==> i <= Fitting(limit, chunks)
    ensures |Join(chunks[..i])| > limit ==> i > Fitting(limit, chunks)
  {
    var k := Fitting(limit, chunks);
    if i > k {
      JoinGrows(chunks, k + 1, i);
    } else {
      JoinGrows(chunks, i, k);
    }
  }

  /** Once a line has raised, nothing read later changes the flags. */
  lemma LaterIgnored(meaning: Bytes -> Meaning, chunks: seq<Bytes>, i: nat, k: nat)
    requires i <= k <= |chunks| && Fold(meaning, CLEAR, Lines(Join(chunks[..i]))).raised
    ensures Fold(meaning, CLEAR, Lines(Join(chunks[..k]))) == Fold(meaning, CLEAR, Lines(Join(chunks[..i])))
  {
    hide Fold, Lines, Tail;
    JoinGrows(chunks, i, k);
    var a := Join(chunks[..i]);
    var b := Join(chunks[..k])[|a|..];
    assert a + b == Join(chunks[..k]);
    LinesAppend(a, b);
    FoldAppend(meaning, CLEAR, Lines(a), Lines(Tail(a) + b));
    RaisedStays(meaning, Fold(meaning, CLEAR, Lines(a)), Lines(Tail(a) + b));
  }
}
