/** The result state machine (src/PqResultImpl.cpp), proved to deliver exactly its ResultFuture. */
module ResultImpl {
  import opened Base
  import opened DataTypes
  import opened Libpq
  import opened ResultFuture
  import opened StreamFacts
  import opened ColumnChain
  import opened DataFrame
  import opened PqColumnDataSource
  import opened ServerValues

  /** A finished data frame: names, columns and number of rows. */
  datatype Frame = Frame(names: seq<string>, columns: seq<seq<Value>>, nrow: nat)

  /** The cells a row contributes to columns of the given types. */
  function CellsOf(row: Option<PGresult>, types: seq<DataType>): (cells: seq<Cell>)
    ensures |cells| == |types|
    ensures TypesKnown(types) ==> AllKnown(cells)
  {
    seq(|types|, j requires 0 <= j < |types| => CellOf(row, j, types[j]))
  }

  /** The frame for a list of rows, cell by cell: the missing value for NULL, else the decoded text. */
  function FrameOf(cache: Cache, rows: seq<Option<PGresult>>): Frame
    requires CacheOk(cache)
  {
    Frame(cache.names,
          seq(|cache.types|, j requires 0 <= j < |cache.types| =>
            seq(|rows|, k requires 0 <= k < |rows| => Stored(CellOf(rows[k], j, cache.types[j]), cache.types[j]))),
          |rows|)
  }

  /** The field in column `j` of a row; a row without that column, or no row at all, has none. */
  function FieldAt(row: Option<PGresult>, j: nat): Option<string> {
    if row.Some? && row.value.SingleTuple? && j < |row.value.row| then row.value.row[j] else None
  }

  /** A frame shows a list of rows: each column under its name, each cell what its type demands. */
  ghost predicate Faithful(names: seq<string>, oids: seq<nat>, rows: Chunk, frame: Frame) {
    && frame.names == names && frame.nrow == |rows| && |frame.columns| == |names| == |oids|
    && (forall j :: 0 <= j < |oids| ==> |frame.columns[j]| == |rows|)
    && (forall j, k :: 0 <= j < |oids| && 0 <= k < |rows| ==> Shows(oids[j], FieldAt(rows[k], j), frame.columns[j][k]))
  }

  lemma FrameIsFaithful(cache: Cache, rows: Chunk)
    requires CacheOk(cache)
    ensures Faithful(cache.names, cache.oids, rows, FrameOf(cache, rows))
  {
    hide Shows, Read;
    forall j, k | 0 <= j < |cache.oids| && 0 <= k < |rows|
      ensures Shows(cache.oids[j], FieldAt(rows[k], j), FrameOf(cache, rows).columns[j][k])
    {
      ReadShows(cache.oids[j], FieldAt(rows[k], j));
      CellIsRead(rows[k], j, cache.types[j]);
    }
  }

  lemma CellIsRead(row: Option<PGresult>, j: nat, dt: DataType)
    requires dt != Unknown
    ensures Stored(CellOf(row, j, dt), dt) == Read(FieldAt(row, j), dt)
  {
  }

  /** src/DbDataFrame.cpp and src/DbColumn.cpp flatten fixed-type columns to exactly the stored cells. */
  lemma FrameColumnOf(dt: DataType, rows: seq<Option<PGresult>>, j: nat, n: nat)
    requires dt != Unknown && n <= |rows|
    ensures var cells := seq(|rows|, k requires 0 <= k < |rows| => CellOf(rows[k], j, dt));
      && AllKnown(cells)
      && FrameColumn(dt, cells, n) == seq(n, k requires 0 <= k < n => Stored(CellOf(rows[k], j, dt), dt))
  {
    var cells := seq(|rows|, k requires 0 <= k < |rows| => CellOf(rows[k], j, dt));
    FixedTypeColumn(dt, cells);
  }

  /** A row read from no result at all shows every column as missing, whatever its type. */
  lemma PhantomRowIsMissing(cache: Cache)
    requires CacheOk(cache)
    ensures FrameOf(cache, [None]).nrow == 1
    ensures forall j :: 0 <= j < |cache.types| ==> FrameOf(cache, [None]).columns[j] == [NaOf(cache.types[j])]
  {
  }

  /** Nothing that was sent is ever taken back. */
  predicate Extends(before: seq<Sent>, after: seq<Sent>) {
    before <= after
  }

  lemma ExtendsSelf(a: seq<Sent>)
    ensures Extends(a, a)
  {
  }

  lemma ExtendsOn(a: seq<Sent>, b: seq<Sent>, c: seq<Sent>)
    requires Extends(a, b) && Extends(b, c)
    ensures Extends(a, c) && (a == c ==> a == b)
  {
  }

  class PqResultImpl {
    const conn: PGconn
    const sql: string
    const immediate: bool
    ghost const owner: object  // the result object this implements
    var cache: Cache
    var complete: bool
    var ready: bool
    var dataReady: bool
    var nrows: nat
    var rowsAffected: nat
    var params: Params
    var group: nat
    var groups: nat
    var pRes: Option<PGresult>

    constructor (conn: PGconn, sql: string, immediate: bool, ghost owner: object)
      ensures this.owner == owner
      ensures this.conn == conn && this.sql == sql && this.immediate == immediate
      ensures Valid() && !ready && !complete && cache == EMPTY_CACHE
    {
      this.conn, this.sql, this.immediate, this.owner := conn, sql, immediate, owner;
      cache := EMPTY_CACHE;
      complete, ready, dataReady := false, false, false;
      nrows, rowsAffected, group, groups := 0, 0, 0, 0;
      params, pRes := [], None;
    }

    /** src/PqResultImpl.cpp:221-243. The server prepares and describes the statement, or refuses to. */
    method Prepare(preparation: Preparation) returns (r: Result<(), Error>)
      requires Valid() && conn.Valid() && cache == EMPTY_CACHE
      modifies `cache, conn`statement, conn`pending, conn`busy
      ensures Valid() && conn.Valid() && if immediate then unchanged(conn) else !conn.busy
      ensures r == if PrepareError(immediate, preparation).Some? then Err(PrepareError(immediate, preparation).value) else Ok(())
      ensures r.Ok? ==> cache == FirstCache(immediate, preparation) && (!immediate ==> conn.statement == Some(sql))
    {
      if immediate {
        return Ok(());
      }
      conn.Prepare(sql, !preparation.Refused?);
      if preparation.Refused? {
        return Err(PrepareFailed);
      }
      if preparation.Undescribed? {
        return Err(DescribeFailed);
      }
      SetCacheOk(cache, preparation.fields, preparation.nparams);
      cache := SetCache(cache, preparation.fields, preparation.nparams).value;
      r := Ok(());
    }

    /** What holds of a result between calls, whatever happens on its connection meanwhile. */
    ghost predicate Valid()
      reads this
    {
      && CacheOk(cache)
      && (immediate ==> params == [] && (ready ==> groups == 1))
      && (forall i :: 0 <= i < |params| ==> groups <= |params[i]|)
    }

    /** The plan for some parameters. What a prepared query executes is up to the connection. */
    ghost function PlanFor(params: Params, groups: nat): Plan
      reads conn
    {
      Plan(immediate, sql, if immediate then None else conn.statement, params, groups, conn.respond, conn.interrupts)
    }

    ghost function ThePlan(): Plan
      reads this, conn
    {
      PlanFor(params, groups)
    }

    ghost function TheStream(): Stream
      reads this, conn
    {
      Stream(conn.log, group, conn.pending, !dataReady, cache, conn.waits, rowsAffected, conn.busy)
    }

    /** What no step of a result changes: the plan, what was sent, whose results are waiting, and the
        schema once it is known. */
    twostate predicate Continues()
      reads this, conn
    {
      && ThePlan() == old(ThePlan())
      && ready == old(ready)
      && Extends(old(conn.log), conn.log)
      && (conn.busy ==>
            if conn.log == old(conn.log) then old(conn.busy) && conn.sender == old(conn.sender) else conn.sender == owner)
      && cache.nparams == old(cache.nparams)
      && (old(cache).initialized ==> cache == old(cache))
    }

    /** What the results not yet read from the connection amount to. */
    ghost function Ahead(): Future
      reads this, conn
    {
      if complete then Closing(ThePlan(), TheStream()) else FutureOf(ThePlan(), TheStream())
    }

    /** The rows this result will still deliver: the one already looked at, then those ahead. */
    ghost function Remaining(): Future
      reads this, conn
    {
      if complete then Ended(TheStream()) else Prepend(pRes, Ahead())
    }

    lemma RemainingIsSettled()
      ensures Settled(Remaining())
      ensures complete <==> Remaining().rows == []
    {
    }

    /** src/PqResultImpl.cpp:353-413; true if there is more to read. Only the first send of a result can
        be refused: before any other the connection is drained. */
    method BindRow() returns (more: Result<bool, Error>)
      requires Valid() && conn.Valid()
      modifies `dataReady, conn
      ensures Valid() && conn.Valid()
      ensures groups <= group ==> more == Ok(immediate) && unchanged(conn) && dataReady == old(dataReady)
      ensures var refused := !ready && group == 0 && old(conn.busy);
        group < groups ==>
          && !dataReady
          && (refused ==> more == Err(SendRefused) && unchanged(conn))
          && (!refused ==>
                && more == Ok(true) && conn.sender == owner && ThePlan() == old(ThePlan())
                && TheStream() == SendNext(ThePlan(), old(TheStream())))
    {
      if groups <= group {
        return Ok(immediate);
      }
      if ready || group > 0 {
        conn.FinishQuery();
      }
      dataReady := false;
      var success;
      if immediate {
        success := conn.SendQuery(sql, owner);
      } else {
        success := conn.SendQueryPrepared(GroupValues(params, group), owner);
      }
      more := if success then Ok(true) else Err(SendRefused);
    }

    /** src/PqResultImpl.cpp:510-524. */
    method StepDone() returns (more: bool)
      requires Valid() && conn.Valid() && pRes.Some?
      modifies this, conn
      ensures Valid() && conn.Valid() && pRes == old(pRes) && cache == old(cache)
      ensures Continues() && nrows == old(nrows) && !dataReady
      ensures var s := Counted(old(TheStream()), pRes.value);
        && more == (immediate || s.group < groups)
        && complete == (old(complete) || !more)
        && TheStream() == if s.group < groups then SendNext(ThePlan(), s) else s
    {
      hide FutureOf, Closing, CacheOk, SetCache;
      rowsAffected := rowsAffected + pRes.value.CmdTuples();
      group := group + 1;
      dataReady := false;
      var bound := BindRow();
      more := bound.value;
      if !more {
        complete := true;
      }
    }

    /** All groups are sent and answered: only the closing results are left to read. */
    ghost predicate PastLastGroup()
      reads this
    {
      !immediate && groups <= group && !dataReady
    }

    /** The branches of `step_run` that end in `step_done`. */
    method CommandDone(ghost s: Stream) returns (more: bool)
      requires Valid() && conn.Valid() && ready && (complete ==> !immediate && groups <= group && s.first)
      requires !(s.first && ThePlan().interrupts(s.waits)) && s.pending != [] && TheStream() == Taken(s)
      requires pRes == Some(s.pending[0]) && !pRes.value.FatalError? && !pRes.value.SingleTuple?
      modifies this, conn
      ensures Valid() && conn.Valid() && Continues() && nrows == old(nrows)
      ensures s.busy ==> conn.busy
      ensures var was := if old(complete) then Closing(ThePlan(), s) else FutureOf(ThePlan(), s);
        if more then (complete ==> PastLastGroup()) && Ahead() == was else complete && Remaining() == was
      ensures GroupsLeft(ThePlan(), TheStream()) <= GroupsLeft(ThePlan(), s)
      ensures GroupsLeft(ThePlan(), TheStream()) == GroupsLeft(ThePlan(), s) ==> |conn.pending| < |s.pending|
    {
      hide FutureOf, Closing, CacheOk;
      FutureAtCommand(ThePlan(), s);
      if complete {
        ClosingAtCommand(ThePlan(), s);
      }
      var tuples := pRes.value.TuplesOk?;
      more := StepDone();
      more := more || tuples;
    }

    /** The first half of `step_run`, src/PqResultImpl.cpp:454-478: wait if need be, then take one result.
        Says whether it is the first of its statement. */
    method NextResult() returns (r: Result<bool, Error>)
      requires Valid() && conn.Valid()
      modifies `pRes, `dataReady, `complete, conn
      ensures Valid() && conn.Valid() && Continues() && conn.sender == old(conn.sender) && (conn.busy ==> old(conn.busy))
      ensures var s := old(TheStream());
        if s.first && ThePlan().interrupts(s.waits) then
          r == Err(Interrupted) && complete && conn.log == old(conn.log) && conn.busy == old(conn.busy)
        else
          && r == Ok(s.first) && complete == old(complete)
          && TheStream() == Taken(s) && pRes == if s.pending == [] then None else Some(s.pending[0])
    {
      hide FutureOf, Closing, CacheOk, SetCache;
      pRes := None;
      var needCacheReset := false;
      if !dataReady {
        var proceed := conn.WaitForData();
        dataReady := true;
        if !proceed {
          conn.CancelQuery();
          complete := true;
          return Err(Interrupted);
        }
        needCacheReset := true;
      }
      pRes := conn.GetResult();
      r := Ok(needCacheReset);
    }

    /** `_cache::set` on a result: a schema already known never changes. */
    method SetSchema(fields: seq<Field>) returns (r: Result<(), Error>)
      requires Valid()
      modifies `cache
      ensures Valid() && (old(cache).initialized ==> cache == old(cache)) && cache.nparams == old(cache.nparams)
      ensures r.Ok? ==> SetCache(old(cache), fields, 0) == Ok(cache)
      ensures r.Err? ==> SetCache(old(cache), fields, 0) == Err(r.error) && cache == old(cache)
    {
      SetCacheOk(cache, fields, 0);
      var set_ := SetCache(cache, fields, 0);
      if set_.Err? {
        return Err(set_.error);
      }
      cache := set_.value;
      r := Ok(());
    }

    /** src/PqResultImpl.cpp:454-508; true if `step` has to go round again. */
    method StepRun() returns (r: Result<bool, Error>)
      requires Valid() && conn.Valid() && ready && (complete ==> PastLastGroup())
      modifies this, conn
      ensures Valid() && conn.Valid() && Continues() && nrows == old(nrows)
      ensures old(conn.busy) && r != Ok(false) ==> conn.busy
      ensures r == Ok(true) ==>
        && (complete ==> PastLastGroup()) && Ahead() == old(Ahead())
        && (GroupsLeft(ThePlan(), TheStream()) < old(GroupsLeft(ThePlan(), TheStream()))
            || (GroupsLeft(ThePlan(), TheStream()) == old(GroupsLeft(ThePlan(), TheStream()))
                && |conn.pending| < old(|conn.pending|)))
      ensures r == Ok(false) ==> Remaining() == old(Ahead()) && LookedAhead()
      ensures r.Err? ==>
        && old(Ahead()).rows == [] && old(Ahead()).end == Failed(r.error, Remaining())
    {
      hide FutureOf, Closing, AfterCommand, SetCache, CacheOk, PlanFor;
      ghost var p, s := ThePlan(), TheStream();
      var next := NextResult();
      if next.Err? {
        FutureAtInterrupt(p, s);
        return Err(next.error);
      }
      if pRes == None {
        FutureAtEnd(p, s);
        complete := true;
        return Ok(false);
      }
      var status := pRes.value;
      if status.FatalError? {
        FutureAtError(p, s);
        pRes := None;
        return Err(ServerError(status.message));
      }
      if next.value && !status.TuplesOk? {
        SetNothing(cache);
        var schema := SetSchema(status.Fields());
        if schema.Err? {
          FutureAtRow(p, s);
          return Err(schema.error);
        }
      }
      if status.SingleTuple? {
        FutureAtRow(p, s);
        return Ok(false);
      }
      var more := CommandDone(s);
      r := Ok(more);
    }

    method Step() returns (r: Result<(), Error>)
      requires Valid() && conn.Valid() && ready && !complete
      modifies this, conn
      ensures Valid() && conn.Valid() && Continues() && nrows == old(nrows)
      ensures r.Ok? ==> Remaining() == old(Ahead()) && LookedAhead()
      ensures old(conn.busy) && r.Err? ==> conn.busy
      ensures r.Err? ==>
        && old(Ahead()).rows == [] && old(Ahead()).end == Failed(r.error, Remaining())
    {
      var more := true;
      while more
        invariant Valid() && conn.Valid() && Continues() && nrows == old(nrows)
        invariant more ==> (complete ==> PastLastGroup()) && Ahead() == old(Ahead()) && (old(conn.busy) ==> conn.busy)
        invariant !more ==> Remaining() == old(Ahead()) && LookedAhead()
        decreases more, GroupsLeft(ThePlan(), TheStream()), |conn.pending|
      {
        var run := StepRun();
        if run.Err? {
          return Err(run.error);
        }
        more := run.value;
      }
      r := Ok(());
    }

    /** Why a bind would be turned down. A first send needs a connection with nothing left to read. */
    ghost function Refusal(params: Params): Option<Error>
      reads this, conn
    {
      var refused := BindRefused(immediate, params, cache.nparams, ready);
      if refused.Some? then refused
      else if !ready && conn.busy && GroupCount(params) > 0 then Some(SendRefused)
      else None
    }

    /** What a bind to some parameters would deliver. */
    ghost function Prospect(params: Params): Future
      reads this, conn
    {
      BindFuture(PlanFor(params, GroupCount(params)), conn.log, cache, conn.waits, conn.busy)
    }

    /** What was sent since `before`: the query itself if immediate, else a command for each element of the
        parameter vectors, in order, that carries those elements. */
    ghost predicate SentFor(before: seq<Sent>, log: seq<Sent>, statement: Option<string>, params: Params) {
      if immediate then log == before + [Simple(sql)] else CarriesInOrder(before, log, statement, params)
    }

    /** The log at hand is part of the one that the stream will end with. */
    lemma LogIsPart()
      ensures conn.log <= Remaining().log
    {
      hide FutureOf, Closing;
      if !complete {
        PhantomRow(ThePlan(), TheStream());
      }
    }

    /** What a bind to `params` sends, the log at hand being part of `whole`, that of its future or what follows a failure. */
    lemma BindLog(p: Plan, before: seq<Sent>, log: seq<Sent>, whole: seq<Sent>, f: Future, cache: Cache, waits: nat, busy: bool)
      requires p.groups == (if p.params == [] then 1 else |p.params[0]|) && p.immediate == immediate && p.sql == sql
      requires immediate ==> p.params == []
      requires f == BindFuture(p, before, cache, waits, busy) && before <= log <= whole && (p.groups > 0 ==> |before| < |log|)
      requires whole == f.log || (f.end.Failed? && whole == f.end.resume.log)
      ensures SentFor(before, log, p.statement, p.params) && SentFor(before, whole, p.statement, p.params)
    {
      hide BindFuture, CarriesInOrder, Carries;
      if immediate {
        var sent, resumed := BindSendsInOrder(p, before, cache, waits, busy);
        assert |log| == |whole| == |before| + 1;
        assert whole[|before|] == Simple(sql);
      } else {
        BindCarries(p, before, cache, waits, busy);
        PartCarries(before, whole, log, p.statement, p.params);
      }
    }

    /** src/PqResultImpl.cpp:271-302. */
    method Bind(params: Params) returns (r: Result<(), Error>)
      requires Valid() && conn.Valid() && Rectangular(params)
      modifies this, conn
      ensures Valid() && conn.Valid() && (!immediate ==> conn.statement == old(conn.statement))
      ensures cache.nparams == old(cache.nparams) && ready == (old(ready) || old(Refusal(params)) == None)
      ensures old(Refusal(params)).Some? ==>
        r == Err(old(Refusal(params)).value) && ready == old(ready) && cache == old(cache) && unchanged(conn)
      ensures old(Refusal(params)) == None ==>
        var f := old(Prospect(params));
        && ready && nrows == 0 && (old(cache).initialized ==> cache == old(cache))
        && (if GroupCount(params) == 0 then unchanged(conn)
            else
              && (conn.busy ==> conn.sender == owner) && conn.busy == Leaves(f)
              && old(conn.log) < conn.log)
        && groups == (if params == [] then 1 else |params[0]|)
        && SentFor(old(conn.log), conn.log, old(conn.statement), params)
        && SentFor(old(conn.log), Remaining().log, old(conn.statement), params)
        && (r.Ok? ==> Remaining() == f && Settled(f) && LookedAhead())
        && (r.Err? ==> f.rows == [] && f.end == Failed(r.error, Remaining()))
    {
      hide FutureOf, Closing, CacheOk, SetCache, Leaves, LookedAhead, Remaining, Settled, CarriesInOrder;
      if immediate && params != [] {
        return Err(ImmediateParams);
      }
      if |params| != cache.nparams {
        return Err(WrongParamCount(cache.nparams, |params|));
      }
      if params == [] && ready {
        return Err(NoParamsNeeded);
      }
      this.params := params;
      groups := if params != [] then |params[0]| else 1;
      group := 0;
      rowsAffected := 0;
      var hasParams := BindRow();
      if hasParams.Err? {
        return Err(hasParams.error);
      }
      r := AfterBind(hasParams.value);
      RemainingIsSettled();
      LogIsPart();
      ghost var p, f := old(PlanFor(params, GroupCount(params))), old(Prospect(params));
      BindLog(p, old(conn.log), conn.log, Remaining().log, f, old(cache), old(conn.waits), old(conn.busy));
    }

    /** src/PqResultImpl.cpp:245-249, 415-420. */
    method AfterBind(paramsHaveRows: bool) returns (r: Result<(), Error>)
      requires Valid() && conn.Valid() && (immediate ==> groups == 1)
      modifies this, conn
      ensures Valid() && conn.Valid() && ready && nrows == 0 && ThePlan() == old(ThePlan())
      ensures old(conn.log) <= conn.log && (old(cache).initialized ==> cache == old(cache))
      ensures cache.nparams == old(cache.nparams)
      ensures conn.busy ==> conn.sender == owner || (old(conn.busy) && conn.sender == old(conn.sender))
      ensures !paramsHaveRows ==> unchanged(conn)
      ensures var f := if paramsHaveRows then FutureOf(old(ThePlan()), old(TheStream())) else Ended(old(TheStream()));
        && (r.Ok? ==> Remaining() == f && LookedAhead())
        && (r.Err? ==> f.rows == [] && f.end == Failed(r.error, Remaining()))
        && (old(conn.busy) && paramsHaveRows ==> conn.busy == Leaves(f))
    {
      hide FutureOf, Closing;
      ready, nrows, complete := true, 0, !paramsHaveRows;
      r := Ok(());
      if paramsHaveRows {
        r := Step();
      }
    }

    /** Not complete means that the next row is at hand. */
    ghost predicate LookedAhead()
      reads this, conn
    {
      !complete ==> pRes.Some? && pRes.value.SingleTuple? && conn.busy
    }

    /** src/PqResultImpl.cpp:304-319. */
    method Fetch(nMax: int) returns (r: Result<Frame, Error>)
      requires Valid() && conn.Valid()
      modifies this, conn
      ensures Valid() && conn.Valid() && Continues()
      ensures !ready ==> r == Err(NotBound) && unchanged(this) && unchanged(conn)
      ensures complete <==> Remaining().rows == []
      ensures ready ==>
        var (out, next) := Fetched(old(Remaining()), nMax);
        && Remaining() == next
        && (old(LookedAhead()) && out.Ok? ==> LookedAhead())
        && r == (if out.Err? then Err(out.error) else Ok(FrameOf(old(cache), out.value)))
        && (out.Ok? ==> Faithful(old(cache).names, old(cache).oids, out.value, r.value))
        && nrows == old(nrows) + (if out.Err? then |old(Remaining()).rows| - 1 else |out.value|)
    {
      hide FutureOf, Closing, Faithful;
      ghost var out := if ready then Fetched(Remaining(), nMax).0 else Ok([]);
      if out.Ok? {
        FrameIsFaithful(cache, out.value);
      }
      if !ready {
        return Err(NotBound);
      }
      if nMax != 0 {
        r := FetchRows(nMax);
      } else {
        var frame := PeekFirstRow();
        r := Ok(frame);
      }
    }

    /** src/PqResultImpl.cpp:526-537: a frame without rows. */
    method PeekFirstRow() returns (frame: Frame)
      requires Valid()
      ensures frame == FrameOf(cache, [])
    {
      var data := new DbDataFrame(cache.types, 1);
      ghost var seen := [];
      if !complete {
        data.SetColValues(CellsOf(pRes, cache.types));
        seen := [pRes];
      }
      assert seen[..0] == [];
      frame := GetFrame(data, cache, seen);
    }

    /** src/PqResultImpl.cpp:261-269; `None` is R's missing value. Once complete, the count is the
        total announced by `Remaining()` ever since the bind. */
    method NRowsAffected() returns (n: Option<nat>)
      ensures n == if !ready then None else if cache.names != [] then Some(0) else Some(rowsAffected)
      ensures ready && complete && cache.names == [] ==> n == Some(Remaining().affected)
    {
      n := if !ready then None else if |cache.names| > 0 then Some(0) else Some(rowsAffected);
    }

    /** src/PqResultImpl.cpp:422-447. */
    method FetchRows(nMax: int) returns (r: Result<Frame, Error>)
      requires Valid() && conn.Valid() && ready && nMax != 0
      modifies this, conn
      ensures Valid() && conn.Valid() && Continues()
      ensures var (out, next) := Fetched(old(Remaining()), nMax);
        && Remaining() == next
        && (old(LookedAhead()) && out.Ok? ==> LookedAhead())
        && r == (if out.Err? then Err(out.error) else Ok(FrameOf(old(cache), out.value)))
        && nrows == old(nrows) + (if out.Err? then |old(Remaining()).rows| - 1 else |out.value|)
    {
      hide FutureOf, Closing, Fetched, DbDataFrame.Valid, Rows, FrameOf, TypesKnown;
      var schema := cache;
      var data := new DbDataFrame(schema.types, nMax);
      ghost var rows;
      var read;
      read, rows := ReadRows(data, schema.types);
      if read.Err? {
        return Err(read.error);
      }
      var frame := GetFrame(data, schema, rows);
      assert rows[..|rows|] == rows;
      r := Ok(frame);
    }

    /** The loop of `fetch_rows`: rows go into `data` until none is left or the limit is reached. */
    method ReadRows(data: DbDataFrame, types: seq<DataType>) returns (r: Result<(), Error>, ghost rows: seq<Option<PGresult>>)
      requires Valid() && conn.Valid() && ready && data.nMax != 0
      requires data.Valid() && this !in data.Repr && conn !in data.Repr && data.types == types
      requires data.rows == [] && data.i == 0 && TypesKnown(data.types)
      modifies this, conn, data.Repr
      ensures Valid() && conn.Valid() && Continues()
      ensures r.Ok? ==> data.Valid() && fresh(data.Repr - old(data.Repr))
      ensures r.Ok? ==> data.i == |rows| && data.rows == Rows(rows, data.types)
      ensures var (out, next) := Fetched(old(Remaining()), data.nMax);
        && Remaining() == next
        && (old(LookedAhead()) && out.Ok? ==> LookedAhead())
        && r == (if out.Err? then Err(out.error) else Ok(()))
        && nrows == old(nrows) + (if out.Err? then |old(Remaining()).rows| - 1 else |out.value|)
        && (out.Err? || rows == out.value)
    {
      hide Remaining, Ahead, ThePlan, TheStream, LookedAhead, Extends, Fetched, Dropped, DbDataFrame.Valid, CellsOf, CacheOk,
        Rows, TypesKnown;
      ghost var f := Remaining();
      rows := [];
      DroppedNone(f);
      RemainingIsSettled();
      ExtendsSelf(conn.log);
      while !complete
        invariant Valid() && conn.Valid() && Continues()
        invariant data.Valid() && fresh(data.Repr - old(data.Repr)) && this !in data.Repr && conn !in data.Repr
        invariant |rows| <= |f.rows| && rows == f.rows[..|rows|] && Remaining() == Dropped(f, |rows|)
        invariant data.rows == Rows(rows, types) && data.i == |rows| && nrows == old(nrows) + |rows|
        invariant data.nMax < 0 || |rows| < data.nMax
        invariant old(LookedAhead()) ==> LookedAhead()
        decreases |f.rows| - |rows|
      {
        DroppedOne(f, |rows|);
        RemainingIsSettled();
        RowsAppend(rows, f.rows[|rows|], types);
        ghost var log := conn.log;
        var more := ReadRow(data, types);
        ExtendsOn(old(conn.log), log, conn.log);
        if more.Err? {
          FetchedFailure(f, data.nMax);
          return Err(more.error), rows;
        }
        rows := rows + [f.rows[|rows|]];
        if !more.value {
          break;
        }
      }
      DroppedOne(f, |rows|);
      RemainingIsSettled();
      FetchedChunk(f, data.nMax, |rows|);
      r := Ok(());
    }

    /** One round of the loop of `fetch_rows`; true if the row limit is not reached yet. */
    method ReadRow(data: DbDataFrame, types: seq<DataType>) returns (more: Result<bool, Error>)
      requires Valid() && conn.Valid() && ready && !complete
      requires data.Valid() && this !in data.Repr && conn !in data.Repr && data.types == types && TypesKnown(types)
      modifies this, conn, data.Repr
      ensures Valid() && conn.Valid() && Continues()
      ensures data.Valid() && fresh(data.Repr - old(data.Repr)) && this !in data.Repr && conn !in data.Repr
      ensures var f := old(Remaining());
        && f.rows != []
        && (more.Err? ==> |f.rows| == 1 && f.end == Failed(more.error, Remaining()) && nrows == old(nrows))
        && (more.Ok? ==>
            && Remaining() == f.(rows := f.rows[1..]) && LookedAhead() && nrows == old(nrows) + 1
            && data.rows == old(data.rows) + [CellsOf(f.rows[0], types)] && data.i == old(data.i) + 1
            && more.value == (data.nMax < 0 || data.i < data.nMax))
    {
      hide FutureOf, Closing, DbDataFrame.Valid, CacheOk;
      data.SetColValues(CellsOf(pRes, types));
      var step := Step();
      if step.Err? {
        return Err(step.error);
      }
      nrows := nrows + 1;
      var below := data.Advance();
      more := Ok(below);
    }
  }

  /** The rows handed to a data frame. */
  function Rows(rows: seq<Option<PGresult>>, types: seq<DataType>): (cells: seq<seq<Cell>>)
    ensures |cells| == |rows|
  {
    seq(|rows|, k requires 0 <= k < |rows| => CellsOf(rows[k], types))
  }

  lemma RowsAppend(rows: seq<Option<PGresult>>, row: Option<PGresult>, types: seq<DataType>)
    ensures Rows(rows + [row], types) == Rows(rows, types) + [CellsOf(row, types)]
  {
  }

  /** `get_data`: what the column buffers hold is the frame of the rows that went in. */
  method GetFrame(data: DbDataFrame, schema: Cache, ghost rows: seq<Option<PGresult>>) returns (frame: Frame)
    requires data.Valid() && CacheOk(schema) && data.types == schema.types
    requires data.rows == Rows(rows, schema.types) && data.i <= |rows|
    modifies data.Repr
    ensures frame == FrameOf(schema, rows[..old(data.i)])
  {
    var out := data.GetData();
    forall j | 0 <= j < |out|
      ensures out[j] == FrameOf(schema, rows[..data.i]).columns[j]
    {
      FrameColumnOf(schema.types[j], rows, j, data.i);
      assert ColumnOf(data.rows, j) == seq(|rows|, k requires 0 <= k < |rows| => CellOf(rows[k], j, schema.types[j]));
    }
    frame := Frame(schema.names, out, data.i);
  }
}
