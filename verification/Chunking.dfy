/** When the flags of an interrupt capture depend on how the stream was cut into chunks. */
module Chunking {
  import opened Bytes
  import opened LineReader

  /** The most one read returns. */
  const CHUNK: nat := 8192

  predicate Sized(chunks: seq<Bytes>) {
    forall i :: 0 <= i < |chunks| ==> 1 <= |chunks[i]| <= CHUNK
  }

  /** One way a stream may come in. */
  predicate Cuts(chunks: seq<Bytes>, stream: Bytes) {
    Join(chunks) == stream && Sized(chunks)
  }

  /** The bytes a capture looks into: the chunks that fit the limit, all in all. */
  function Read(limit: nat, chunks: seq<Bytes>): Bytes {
    Join(chunks[..Fitting(limit, chunks)])
  }

  /** The flags a capture ends with. */
  function FlagsOf(meaning: Bytes -> Meaning, limit: nat, chunks: seq<Bytes>): Flags {
    Fold(meaning, CLEAR, Lines(Read(limit, chunks)))
  }

  function FlagsAfter(meaning: Bytes -> Meaning, stream: Bytes, n: nat): Flags
    requires n <= |stream|
  {
    Fold(meaning, CLEAR, Lines(stream[..n]))
  }

  /** Past the limit, at least this much is still looked into. */
  function Sure(limit: nat): (n: nat)
    ensures n <= limit && n == if limit < 8192 then 0 else limit - 8191
  {
    if limit < CHUNK then 0 else limit + 1 - CHUNK
  }

  // ----- How much is looked into -----

  lemma ReadRange(limit: nat, chunks: seq<Bytes>, stream: Bytes)
    requires Cuts(chunks, stream)
    ensures Read(limit, chunks) <= stream
    ensures |stream| <= limit ==> Read(limit, chunks) == stream
    ensures |stream| > limit ==> Sure(limit) <= |Read(limit, chunks)| <= limit
  {
    hide Join;
    var k := Fitting(limit, chunks);
    assert chunks[..|chunks|] == chunks;
    JoinGrows(chunks, k, |chunks|);
    FittingAt(limit, chunks, |chunks|);
    if |stream| > limit {
      JoinMore(chunks, k);
    }
  }

  predicate Below(f: Flags, g: Flags) {
    (f.tool ==> g.tool) && (f.cancelled ==> g.cancelled) && (f.raised ==> g.raised)
  }

  lemma {:induction false} FoldGrows(meaning: Bytes -> Meaning, f: Flags, lines: seq<Bytes>)
    ensures Below(f, Fold(meaning, f, lines))
    decreases |lines|
  {
    if lines != [] {
      FoldGrows(meaning, After(f, meaning(lines[0])), lines[1..]);
    }
  }

  /** Looking further into a stream only sets more flags. */
  lemma LongerSetsMore(meaning: Bytes -> Meaning, stream: Bytes, m: nat, n: nat)
    requires m <= n <= |stream|
    ensures Below(FlagsAfter(meaning, stream, m), FlagsAfter(meaning, stream, n))
  {
    hide Fold, Lines, Tail;
    var a, b := stream[..m], stream[m..n];
    assert a + b == stream[..n];
    LinesAppend(a, b);
    FoldAppend(meaning, CLEAR, Lines(a), Lines(Tail(a) + b));
    FoldGrows(meaning, Fold(meaning, CLEAR, Lines(a)), Lines(Tail(a) + b));
  }

  // ----- The two extremes -----

  /** Every byte on its own. */
  function Singles(b: Bytes): (r: seq<Bytes>)
    ensures |r| == |b| && Sized(r)
  {
    seq(|b|, i requires 0 <= i < |b| => [b[i]])
  }

  lemma {:induction false} JoinSingles(b: Bytes)
    ensures Join(Singles(b)) == b
    decreases |b|
  {
    if b != [] {
      var most := b[..|b| - 1];
      JoinSingles(most);
      assert Singles(b)[..|b| - 1] == Singles(most);
    }
  }

  lemma {:induction false} JoinAppend(a: seq<Bytes>, b: seq<Bytes>)
    ensures Join(a + b) == Join(a) + Join(b)
    decreases |b|
  {
    if b == [] {
      assert a + b == a;
    } else {
      var most := b[..|b| - 1];
      JoinAppend(a, most);
      assert (a + b)[..|a + b| - 1] == a + most;
    }
  }

  /** Single bytes up to a point, then one chunk that goes past the limit, then single bytes again. */
  function Lumped(stream: Bytes, from: nat, limit: nat): seq<Bytes>
    requires from <= limit < |stream|
  {
    Singles(stream[..from]) + [stream[from..limit + 1]] + Singles(stream[limit + 1..])
  }

  lemma LumpedReads(stream: Bytes, from: nat, limit: nat)
    requires from <= limit < |stream| && limit + 1 - from <= CHUNK
    ensures Cuts(Lumped(stream, from, limit), stream) && Read(limit, Lumped(stream, from, limit)) == stream[..from]
  {
    hide Join;
    var first, lump, last := Singles(stream[..from]), stream[from..limit + 1], Singles(stream[limit + 1..]);
    var chunks := Lumped(stream, from, limit);
    JoinSingles(stream[..from]);
    JoinSingles(stream[limit + 1..]);
    JoinOne(lump);
    JoinAppend(first, [lump]);
    JoinAppend(first + [lump], last);
    assert stream == stream[..from] + lump + stream[limit + 1..];
    assert chunks[..from] == first && chunks[..from + 1] == first + [lump];
    FittingAt(limit, chunks, from);
    FittingAt(limit, chunks, from + 1);
  }

  lemma JoinOne(b: Bytes)
    ensures Join([b]) == b
  {
    assert [b][..0] == [];
  }

  // ----- When every read but the last is full -----

  /** What a buffered pipe hands out: reads return less than was asked for only at the end of the stream. */
  predicate FullReads(chunks: seq<Bytes>) {
    forall i :: 0 <= i < |chunks| - 1 ==> |chunks[i]| == CHUNK
  }

  lemma {:induction false} FullLength(chunks: seq<Bytes>, i: nat)
    requires FullReads(chunks) && i < |chunks|
    ensures |Join(chunks[..i])| == i * CHUNK
    decreases i
  {
    if i > 0 {
      FullLength(chunks, i - 1);
      JoinMore(chunks, i - 1);
    }
  }

  /** Past the limit, as many bytes are looked into as make whole chunks within the limit. */
  lemma FullReadsRead(limit: nat, chunks: seq<Bytes>, stream: Bytes)
    requires Cuts(chunks, stream) && FullReads(chunks) && |stream| > limit
    ensures limit / 8192 * 8192 <= limit && Read(limit, chunks) == stream[..limit / 8192 * 8192]
  {
    hide Join;
    var k := limit / CHUNK;
    assert k * CHUNK <= limit < (k + 1) * CHUNK;
    assert chunks[..|chunks|] == chunks;
    if |chunks| == 0 {
      JoinNone();
    } else {
      FullLength(chunks, |chunks| - 1);
      JoinMore(chunks, |chunks| - 1);
    }
    FullLength(chunks, k);
    FittingAt(limit, chunks, k);
    if k + 1 < |chunks| {
      FullLength(chunks, k + 1);
    }
    FittingAt(limit, chunks, k + 1);
    ReadRange(limit, chunks, stream);
  }

  /** So the flags depend on the stream alone: they are those of its whole chunks within the limit. */
  lemma FullReadsFlags(meaning: Bytes -> Meaning, limit: nat, chunks: seq<Bytes>, stream: Bytes)
    requires Cuts(chunks, stream) && FullReads(chunks)
    ensures var n := if |stream| <= limit then |stream| else limit / 8192 * 8192;
            n <= |stream| && FlagsOf(meaning, limit, chunks) == FlagsAfter(meaning, stream, n)
  {
    hide Fold, Lines, Join, Read;
    ReadRange(limit, chunks, stream);
    if |stream| > limit {
      FullReadsRead(limit, chunks, stream);
    } else {
      assert stream[..|stream|] == stream;
    }
  }

  lemma JoinNone()
    ensures Join([]) == []
  {
  }

  // ----- When the cut matters -----

  /** Within the limit, however a stream is cut, the flags and the tail are those of the whole stream. */
  lemma ChunkingIrrelevant(meaning: Bytes -> Meaning, limit: nat, one: seq<Bytes>, other: seq<Bytes>, stream: Bytes)
    requires Cuts(one, stream) && Cuts(other, stream) && |stream| <= limit
    ensures FlagsOf(meaning, limit, one) == FlagsOf(meaning, limit, other) == Fold(meaning, CLEAR, Lines(stream))
    ensures Tail(Read(limit, one)) == Tail(Read(limit, other)) == Tail(stream)
  {
    hide Fold, Lines, Tail, Read;
    ReadRange(limit, one, stream);
    ReadRange(limit, other, stream);
  }

  /** However it is cut, the same flags: exactly for streams within the limit, and for longer ones whose last chunk's
      worth of bytes before the limit sets no further flag. */
  lemma ChunkingExactly(meaning: Bytes -> Meaning, limit: nat, stream: Bytes)
    ensures (forall one, other :: Cuts(one, stream) && Cuts(other, stream) ==>
               FlagsOf(meaning, limit, one) == FlagsOf(meaning, limit, other))
       <==> |stream| <= limit || FlagsAfter(meaning, stream, Sure(limit)) == FlagsAfter(meaning, stream, limit)
  {
    hide Fold, Lines, Tail, Join, Cuts, Read;
    var same := |stream| <= limit || FlagsAfter(meaning, stream, Sure(limit)) == FlagsAfter(meaning, stream, limit);
    if same {
      forall one, other | Cuts(one, stream) && Cuts(other, stream)
        ensures FlagsOf(meaning, limit, one) == FlagsOf(meaning, limit, other)
      {
        FlagsPinned(meaning, limit, one, stream);
        FlagsPinned(meaning, limit, other, stream);
      }
    } else {
      LumpedReads(stream, Sure(limit), limit);
      LumpedReads(stream, limit, limit);
      var least, most := Lumped(stream, Sure(limit), limit), Lumped(stream, limit, limit);
      assert FlagsOf(meaning, limit, least) != FlagsOf(meaning, limit, most);
    }
  }

  lemma FlagsPinned(meaning: Bytes -> Meaning, limit: nat, chunks: seq<Bytes>, stream: Bytes)
    requires Cuts(chunks, stream)
    requires |stream| <= limit || FlagsAfter(meaning, stream, Sure(limit)) == FlagsAfter(meaning, stream, limit)
    ensures FlagsOf(meaning, limit, chunks)
         == FlagsAfter(meaning, stream, if |stream| <= limit then |stream| else limit)
  {
    hide Fold, Lines, Tail, Cuts, Read;
    ReadRange(limit, chunks, stream);
    var m := |Read(limit, chunks)|;
    assert stream[..m] == Read(limit, chunks);
    if |stream| > limit {
      LongerSetsMore(meaning, stream, Sure(limit), m);
      LongerSetsMore(meaning, stream, m, limit);
    }
  }
}
