/** Properties of whole runs: chunked fetching of any stream, and what the stream of an ordinary server is. */
module ResultRuns {
  import opened Base
  import opened Libpq
  import opened ResultFuture
  import opened ResultImpl

  // ----- Any sequence of fetches -----

  /** The outcomes of fetching `ns[0]`, then `ns[1]`, and so on up to the first failure, and what is left. */
  function FetchAll(f: Future, ns: seq<int>): (seq<Result<Chunk, Error>>, Future)
    requires Settled(f)
    decreases |ns|
  {
    if ns == [] then ([], f)
    else
      var (out, next) := Fetched(f, ns[0]);
      if out.Err? then ([out], next)
      else
        var (outs, last) := FetchAll(next, ns[1..]);
        ([out] + outs, last)
  }

  /** The rows of all the chunks, in order. */
  function Delivered(outs: seq<Result<Chunk, Error>>): Chunk {
    if outs == [] then []
    else (if outs[0].Ok? then outs[0].value else []) + Delivered(outs[1..])
  }

  /** What one fetch does, apart from which rows it takes. */
  lemma FetchedParts(f: Future, n: int)
    requires Settled(f)
    ensures var (out, next) := Fetched(f, n);
      && AsPromised(f.end, n, |f.rows|, out)
      && (out.Ok? ==> f.rows == out.value + next.rows && next.end == f.end && Settled(next))
  {
  }

  /** However a run is cut into chunks, the rows are delivered in order, none twice and none lost. */
  lemma {:induction false} ChunksAreTheRows(f: Future, ns: seq<int>)
    requires Settled(f)
    ensures var (outs, last) := FetchAll(f, ns);
      && |outs| <= |ns|
      && Delivered(outs) <= f.rows
      && (outs == [] || outs[|outs| - 1].Ok? ==> |outs| == |ns| && Delivered(outs) + last.rows == f.rows)
    decreases |ns|
  {
    hide Fetched;
    if ns != [] {
      FetchedParts(f, ns[0]);
      var (out, next) := Fetched(f, ns[0]);
      var (outs, last) := FetchAll(f, ns);
      if out.Ok? {
        ChunksAreTheRows(next, ns[1..]);
        var (outs', _) := FetchAll(next, ns[1..]);
        assert outs == [out] + outs' && outs[1..] == outs';
        assert out.value + (Delivered(outs') + last.rows) == (out.value + Delivered(outs')) + last.rows;
      }
    }
  }

  /** Does a fetch of `n` rows, with `left` rows to come, run into the end of the stream? */
  predicate Exhausts(n: int, left: int) {
    n < 0 || (n > 0 && left <= n)
  }

  /** What one fetch is promised, with `left` rows to come: the number of rows asked for or what is
      left, or the failure of the stream if it would run into it. */
  predicate AsPromised(end: End, n: int, left: int, out: Result<Chunk, Error>) {
    if end.Failed? && Exhausts(n, left) then out == Err(end.error)
    else out.Ok? && |out.value| == if n < 0 then left else Min(n, left)
  }

  /** Every fetch of a run keeps its promise. */
  lemma {:induction false} ChunkSizes(f: Future, ns: seq<int>, i: nat)
    requires Settled(f) && i < |FetchAll(f, ns).0|
    ensures i < |ns|
    ensures var outs := FetchAll(f, ns).0;
      AsPromised(f.end, ns[i], |f.rows| - |Delivered(outs[..i])|, outs[i])
    decreases |ns|
  {
    hide Fetched;
    FetchedParts(f, ns[0]);
    var (out, next) := Fetched(f, ns[0]);
    var outs := FetchAll(f, ns).0;
    if i == 0 {
      assert outs[..0] == [];
    } else {
      var outs' := FetchAll(next, ns[1..]).0;
      ChunkSizes(next, ns[1..], i - 1);
      assert outs[..i] == [out] + outs'[..i - 1];
      assert outs[..i][1..] == outs'[..i - 1];
    }
  }

  /** The loop "while not complete, fetch n". */
  function Drain(f: Future, n: int): seq<Chunk>
    requires Settled(f) && f.end.Finished? && n > 0
    decreases |f.rows|
  {
    if f.rows == [] then []
    else
      var (out, next) := Fetched(f, n);
      [out.value] + Drain(next, n)
  }

  lemma MulStep(c: nat, n: nat)
    ensures (1 + c) * n == n + c * n
  {
  }

  /** The loop ends after as many rounds as it must, never sees an empty chunk, and sees a short one
      only at the end. */
  lemma {:induction false} DrainCoversAll(f: Future, n: int)
    requires Settled(f) && f.end.Finished? && n > 0
    ensures var chunks := Drain(f, n);
      && Concat(chunks) == f.rows
      && |f.rows| <= |chunks| * n < |f.rows| + n
      && (chunks == [] <==> f.rows == [])
      && (forall i :: 0 <= i < |chunks| ==> 0 < |chunks[i]| <= n)
      && (forall i :: 0 <= i < |chunks| - 1 ==> |chunks[i]| == n)
    decreases |f.rows|
  {
    hide Fetched;
    if f.rows != [] {
      FetchedParts(f, n);
      var (out, next) := Fetched(f, n);
      DrainCoversAll(next, n);
      var rest := Drain(next, n);
      ConcatAppend([out.value], rest);
      assert [out.value][..0] == [];
      assert Concat([out.value]) == out.value;
      MulStep(|rest|, n);
    }
  }

  // ----- The same runs on the result object -----

  /** What a caller sees of a chunk, with the schema known when it was fetched. */
  function Framed(schema: Cache, out: Result<Chunk, Error>): Result<Frame, Error>
    requires CacheOk(schema)
  {
    if out.Err? then Err(out.error) else Ok(FrameOf(schema, out.value))
  }

  /** The outcomes of a run are its chunks as frames; a schema known from the start is that of all frames. */
  predicate AreOutcomes(outs: seq<Result<Frame, Error>>, chunks: seq<Result<Chunk, Error>>, schemas: seq<Cache>, schema: Cache) {
    && |outs| == |chunks| == |schemas|
    && (forall i :: 0 <= i < |outs| ==> CacheOk(schemas[i]) && outs[i] == Framed(schemas[i], chunks[i]))
    && (schema.initialized ==> forall i :: 0 <= i < |outs| ==> schemas[i] == schema)
  }

  /** One fetch after another, up to the first failure. */
  method FetchInChunks(impl: PqResultImpl, ns: seq<int>) returns (outs: seq<Result<Frame, Error>>, ghost schemas: seq<Cache>)
    requires impl.Valid() && impl.conn.Valid() && impl.ready && Settled(impl.Remaining())
    modifies impl, impl.conn
    ensures impl.Valid() && impl.conn.Valid() && impl.Continues()
    ensures var (chunks, last) := FetchAll(old(impl.Remaining()), ns);
      impl.Remaining() == last && AreOutcomes(outs, chunks, schemas, old(impl.cache))
  {
    hide PqResultImpl.Remaining, PqResultImpl.ThePlan, PqResultImpl.LookedAhead, FrameOf, Fetched, FetchAll, AreOutcomes, Settled,
      CacheOk, Extends;
    NoOutcomes(impl.cache);
    ExtendsSelf(impl.conn.log);
    outs, schemas := [], [];
    ghost var f, chunks := impl.Remaining(), [];
    assert ns[0..] == ns && chunks + FetchAll(f, ns).0 == FetchAll(f, ns).0;
    for i := 0 to |ns|
      invariant impl.Valid() && impl.conn.Valid() && impl.Continues() && Settled(impl.Remaining())
      invariant FetchAll(f, ns) == (chunks + FetchAll(impl.Remaining(), ns[i..]).0, FetchAll(impl.Remaining(), ns[i..]).1)
      invariant AreOutcomes(outs, chunks, schemas, old(impl.cache)) && |outs| == |chunks| == i
    {
      FetchAllStep(impl.Remaining(), ns, i);
      ghost var schema, out, log := impl.cache, Fetched(impl.Remaining(), ns[i]).0, impl.conn.log;
      var frame := impl.Fetch(ns[i]);
      ExtendsOn(old(impl.conn.log), log, impl.conn.log);
      AreOutcomesOn(outs, chunks, schemas, old(impl.cache), frame, out, schema);
      outs, schemas := outs + [frame], schemas + [schema];
      chunks := chunks + [out];
      if frame.Err? {
        return;
      }
      impl.RemainingIsSettled();
      ghost var rest := FetchAll(impl.Remaining(), ns[i + 1..]).0;
      assert chunks[..i] + ([out] + rest) == chunks + rest;
    }
    FetchAllNone(impl.Remaining(), ns);
    assert chunks + [] == chunks;
  }

  lemma NoOutcomes(schema: Cache)
    ensures AreOutcomes([], [], [], schema)
  {
  }

  lemma AreOutcomesOn(outs: seq<Result<Frame, Error>>, chunks: seq<Result<Chunk, Error>>, schemas: seq<Cache>, schema: Cache,
                frame: Result<Frame, Error>, chunk: Result<Chunk, Error>, now: Cache)
    requires AreOutcomes(outs, chunks, schemas, schema)
    requires CacheOk(now) && frame == Framed(now, chunk) && (schema.initialized ==> now == schema)
    ensures AreOutcomes(outs + [frame], chunks + [chunk], schemas + [now], schema)
  {
    hide CacheOk, Framed;
  }

  lemma FetchAllNone(f: Future, ns: seq<int>)
    requires Settled(f)
    ensures FetchAll(f, ns[|ns|..]) == ([], f)
  {
  }

  lemma FetchAllStep(f: Future, ns: seq<int>, i: nat)
    requires Settled(f) && i < |ns|
    ensures var (out, next) := Fetched(f, ns[i]);
      FetchAll(f, ns[i..]) == if out.Err? then ([out], next)
                              else ([out] + FetchAll(next, ns[i + 1..]).0, FetchAll(next, ns[i + 1..]).1)
  {
    assert ns[i..][1..] == ns[i + 1..];
  }

  /** "While not complete, fetch n": the frames are the chunks of the cursor, one for one, and all rows are
      counted; a run into a failure ends with its error. */
  method FetchUntilComplete(impl: PqResultImpl, n: int)
    returns (r: Result<seq<Frame>, Error>, ghost schemas: seq<Cache>)
    requires n > 0 && impl.Valid() && impl.conn.Valid() && impl.ready && Settled(impl.Remaining())
    modifies impl, impl.conn
    ensures impl.Valid() && impl.conn.Valid() && impl.Continues()
    ensures var f := old(impl.Remaining());
      && (f.end.Failed? ==> r == Err(f.end.error) && impl.Remaining() == f.end.resume)
      && (f.end.Finished? ==>
            && r.Ok? && impl.complete && impl.conn.log == f.log && impl.nrows == old(impl.nrows) + |f.rows|
            && AreFrames(r.value, Drain(f, n), schemas, old(impl.cache)))
  {
    hide PqResultImpl.Remaining, PqResultImpl.ThePlan, PqResultImpl.LookedAhead, FrameOf, Fetched, Drain, CacheOk, Extends,
      AreFrames;
    ExtendsSelf(impl.conn.log);
    NoFrames(impl.cache);
    schemas := [];
    var frames := [];
    ghost var f, chunks := impl.Remaining(), [];
    impl.RemainingIsSettled();
    while !impl.complete
      invariant impl.Valid() && impl.conn.Valid() && impl.Continues() && Settled(impl.Remaining())
      invariant impl.complete <==> impl.Remaining().rows == []
      invariant impl.Remaining().log == f.log && impl.Remaining().end == f.end && impl.nrows == old(impl.nrows) + |f.rows| - |impl.Remaining().rows|
      invariant f.end.Finished? ==> Drain(f, n) == chunks + Drain(impl.Remaining(), n)
      invariant AreFrames(frames, chunks, schemas, old(impl.cache))
      decreases |impl.Remaining().rows|
    {
      DrainStep(impl.Remaining(), n);
      ghost var schema, out, log := impl.cache, Fetched(impl.Remaining(), n).0, impl.conn.log;
      var frame := impl.Fetch(n);
      ExtendsOn(old(impl.conn.log), log, impl.conn.log);
      if frame.Err? {
        return Err(frame.error), schemas;
      }
      AreFramesOn(frames, chunks, schemas, old(impl.cache), frame.value, out.value, schema);
      frames, schemas, chunks := frames + [frame.value], schemas + [schema], chunks + [out.value];
      impl.RemainingIsSettled();
    }
    DrainStep(impl.Remaining(), n);
    assert chunks + [] == chunks;
    AllSent(impl);
    r := Ok(frames);
  }

  lemma AllSent(impl: PqResultImpl)
    requires impl.complete
    ensures impl.conn.log == impl.Remaining().log
  {
  }

  /** The frames are those of the chunks; a schema known from the start is that of all frames. */
  predicate AreFrames(frames: seq<Frame>, chunks: seq<Chunk>, schemas: seq<Cache>, schema: Cache) {
    && |frames| == |chunks| == |schemas|
    && (forall i :: 0 <= i < |frames| ==> CacheOk(schemas[i]) && frames[i] == FrameOf(schemas[i], chunks[i]))
    && (schema.initialized ==> forall i :: 0 <= i < |frames| ==> schemas[i] == schema)
  }

  lemma NoFrames(schema: Cache)
    ensures AreFrames([], [], [], schema)
  {
  }

  lemma AreFramesOn(frames: seq<Frame>, chunks: seq<Chunk>, schemas: seq<Cache>, schema: Cache,
                    frame: Frame, chunk: Chunk, now: Cache)
    requires AreFrames(frames, chunks, schemas, schema)
    requires CacheOk(now) && frame == FrameOf(now, chunk) && (schema.initialized ==> now == schema)
    ensures AreFrames(frames + [frame], chunks + [chunk], schemas + [now], schema)
  {
    hide CacheOk, FrameOf;
  }

  /** A fetch that succeeds takes rows off the list; one that fails leaves what the end says. */
  lemma DrainStep(f: Future, n: int)
    requires n > 0 && Settled(f)
    ensures var (out, next) := Fetched(f, n);
      && (f.end.Finished? ==> out.Ok?)
      && (out.Err? ==> out.error == f.end.error && next == f.end.resume)
      && (out.Ok? ==>
            && next.log == f.log && next.end == f.end && |next.rows| == |f.rows| - |out.value| && Settled(next)
            && (f.rows != [] ==> |next.rows| < |f.rows|)
            && (f.end.Finished? ==> Drain(f, n) == if f.rows == [] then [] else [out.value] + Drain(next, n)))
  {
  }
}
