/** Connections and result objects (src/DbConnection.cpp, src/DbResult.cpp, src/PqResult.cpp). */
module Connection {
  import opened Base
  import opened Libpq
  import opened ResultFuture
  import opened ResultImpl
  import opened Statements
  import opened StreamFacts
  import Ownership

  class DbConnection {
    const pConn: PGconn
    var current: DbResult?

    /** What the server holds as its prepared statement is that of the current result. That the results still to
        be read are those of the current result is not part of this: see `Own`. */
    ghost predicate Valid()
      reads this, pConn, current, if current == null then {} else {current.impl}
    {
      && pConn.Valid()
      && (current != null ==>
          && current.conn == this
          && (current.impl != null ==>
              && current.impl.conn == pConn && current.impl.owner == current && current.impl.Valid()
              && (!current.impl.immediate ==> pConn.statement == Some(current.impl.sql))))
    }

    /** The current result, and whose results are still to be read. */
    ghost function Own(): Ownership.Own<object?>
      reads this, pConn
    {
      Ownership.Own(if current == null then None else Some(current),
                    if pConn.busy then Some(pConn.sender) else None)
    }

    /** Results are still to be read although no result is current: binds of inactive results can do that. */
    ghost predicate Blocked()
      reads this, pConn
    {
      current == null && pConn.busy
    }

    constructor (pConn: PGconn)
      requires pConn.Valid() && !pConn.busy
      ensures Valid() && Ownership.Owned(Own()) && current == null && this.pConn == pConn
    {
      this.pConn := pConn;
      current := null;
    }

    method CleanupQuery()
      requires pConn.Valid()
      modifies pConn
      ensures pConn.Valid() && !pConn.busy && pConn.log == old(pConn.log) && pConn.waits == old(pConn.waits)
      ensures pConn.cancels == old(pConn.cancels) + if current != null && !current.Complete() then 1 else 0
    {
      if current != null && !current.Complete() {
        pConn.CancelQuery();
      }
      pConn.FinishQuery();
    }

    method SetCurrentResult(result: DbResult?)
      requires Valid()
      requires result != null && result != current ==> result.conn == this && result.impl == null
      modifies this, pConn
      ensures Valid() && current == result && pConn.log == old(pConn.log) && pConn.waits == old(pConn.waits)
      ensures if result == old(current) then unchanged(this) && unchanged(pConn)
              else if old(current) == null then unchanged(pConn)
              else !pConn.busy
    {
      if result == current {
        return;
      }
      if current != null {
        CleanupQuery();
      }
      current := result;
    }

    method ResetCurrentResult(result: DbResult)
      requires Valid()
      modifies this, pConn
      ensures Valid() && pConn.log == old(pConn.log)
      ensures if result == old(current) then current == null && !pConn.busy else unchanged(this) && unchanged(pConn)
    {
      if result != current {
        return;
      }
      CleanupQuery();
      current := null;
    }
  }

  class DbResult {
    const conn: DbConnection
    var impl: PqResultImpl?

    function Complete(): bool
      reads this, impl
    {
      impl == null || impl.complete
    }

    /** A result that is bound is complete if and only if no row is left to be delivered. */
    lemma CompleteMeansNothingLeft()
      requires impl != null && impl.ready
      ensures Complete() <==> impl.Remaining().rows == []
    {
      impl.RemainingIsSettled();
    }

    predicate IsActive()
      reads this, conn
    {
      conn.current == this
    }

    /** A result object as callers hold it: constructed, implemented on its own connection, and bound if immediate. */
    ghost predicate Valid()
      reads this, conn, conn.pConn, conn.current, if conn.current == null then {} else {conn.current.impl}, impl
    {
      conn.Valid() && Implemented()
    }

    ghost predicate Implemented()
      reads this, impl
    {
      impl != null && impl.Valid() && impl.conn == conn.pConn && impl.owner == this && (impl.immediate ==> impl.ready)
    }

    constructor (conn: DbConnection)
      requires conn.Valid()
      modifies conn, conn.pConn
      ensures this.conn == conn && impl == null
      ensures conn.Valid() && conn.current == this && conn.pConn.busy == old(conn.Blocked())
      ensures conn.pConn.log == old(conn.pConn.log) && conn.pConn.waits == old(conn.pConn.waits)
    {
      this.conn := conn;
      impl := null;
      new;
      conn.SetCurrentResult(this);
    }

    /** The destructor. */
    method Destroy()
      requires conn.Valid()
      modifies conn, conn.pConn
      ensures conn.Valid() && conn.pConn.log == old(conn.pConn.log)
      ensures conn.Own() == Ownership.Next(old(conn.Own()), Ownership.Destroy(this))
      ensures conn.current != this
      ensures !old(IsActive()) ==> unchanged(conn) && unchanged(conn.pConn)
    {
      if IsActive() {
        conn.ResetCurrentResult(this);
      }
    }

    /** The constructor of the implementation: prepare, and bind at once if there is nothing to bind. */
    static method Implement(result: DbResult, sql: string, immediate: bool, preparation: Preparation)
      returns (r: Result<(), Error>, impl: PqResultImpl)
      requires result.conn.Valid() && result.IsActive() && result.impl == null
      modifies result.conn.pConn
      ensures result.conn.Valid() && fresh(impl) && impl.Valid() && impl.conn == result.conn.pConn && impl.owner == result
      ensures var conn := result.conn.pConn;
        var failure := CreateError(old(conn.log), old(conn.waits), conn.respond, conn.interrupts, sql, immediate, preparation, old(conn.busy));
        && r.Err? == failure.Some?
        && (r.Err? ==> r.error == failure.value)
        && old(conn.log) <= conn.log
        && (r.Ok? ==>
              && (conn.busy ==> conn.sender == result) && (!immediate ==> conn.statement == Some(sql))
              && Begun(impl, sql, immediate, preparation, old(conn.log), old(conn.waits)))
    {
      hide BindFuture, PqResultImpl.Ahead, SetCache, Leaves;
      impl := new PqResultImpl(result.conn.pConn, sql, immediate, result);
      r := impl.Prepare(preparation);
      if r.Ok? && impl.cache.nparams == 0 {
        r := impl.Bind([]);
      }
    }

    /** What a query without parameters delivers once it is created, over a drained connection. */
    static function Unparameterized(log: seq<Sent>, waits: nat, respond: seq<Sent> -> seq<PGresult>, interrupts: nat -> bool,
                                    sql: string, immediate: bool, preparation: Preparation): Future
      requires PrepareError(immediate, preparation) == None
    {
      BindFuture(Plan(immediate, sql, if immediate then None else Some(sql), [], 1, respond, interrupts), log,
                 FirstCache(immediate, preparation), waits, false)
    }

    /** Why creating a result would fail: it cannot be prepared, is immediate but the connection blocked, or takes no
        parameters and fails before its first row. */
    static function CreateError(log: seq<Sent>, waits: nat, respond: seq<Sent> -> seq<PGresult>, interrupts: nat -> bool,
                                sql: string, immediate: bool, preparation: Preparation, blocked: bool): Option<Error> {
      if immediate && blocked then Some(SendRefused)
      else if PrepareError(immediate, preparation).Some? then PrepareError(immediate, preparation)
      else if FirstCache(immediate, preparation).nparams > 0 then None
      else
        var f := Unparameterized(log, waits, respond, interrupts, sql, immediate, preparation);
        if f.rows == [] && f.end.Failed? then Some(f.end.error) else None
    }

    /** Why creating a result on a connection would fail. */
    static ghost function CreationError(conn: DbConnection, sql: string, immediate: bool, preparation: Preparation): Option<Error>
      reads conn, conn.pConn
    {
      CreateError(conn.pConn.log, conn.pConn.waits, conn.pConn.respond, conn.pConn.interrupts, sql, immediate, preparation,
                  conn.Blocked())
    }

    /** A query without parameters has begun to deliver its rows; one with parameters has sent nothing yet. */
    static ghost predicate Begun(impl: PqResultImpl, sql: string, immediate: bool, preparation: Preparation, log: seq<Sent>, waits: nat)
      requires PrepareError(immediate, preparation) == None
      reads impl, impl.conn
    {
      var cache := FirstCache(immediate, preparation);
      && impl.sql == sql && impl.immediate == immediate && impl.cache.nparams == cache.nparams
      && (cache.initialized ==> impl.cache == cache)
      && if cache.nparams > 0 then
           !impl.ready && !impl.conn.busy && impl.conn.log == log && impl.cache == cache
         else
           && impl.ready && impl.LookedAhead() && log < impl.conn.log
           && impl.Remaining() ==
                Unparameterized(log, waits, impl.conn.respond, impl.conn.interrupts, sql, immediate, preparation)
    }

    /** `PqResult`'s constructor. If the implementation cannot be built, the destructor of this base
        class runs before the error reaches the caller. */
    static method Create(conn: DbConnection, sql: string, immediate: bool, preparation: Preparation)
      returns (r: Result<DbResult, Error>)
      requires conn.Valid()
      modifies conn, conn.pConn
      ensures conn.Valid()
      ensures var pConn := conn.pConn;
        var failure := old(CreationError(conn, sql, immediate, preparation));
        && r.Err? == failure.Some?
        && (r.Err? ==>
              r.error == failure.value && conn.Own() == Ownership.Next(old(conn.Own()), Ownership.FailedCreate))
        && old(pConn.log) <= pConn.log
        && (r.Ok? ==>
              && fresh(r.value) && fresh(r.value.impl) && r.value.Valid() && r.value.conn == conn && r.value.IsActive()
              && conn.Own() == Ownership.Next(old(conn.Own()), Ownership.Create(r.value, pConn.busy))
              && r.value.impl.cache.nparams == (if immediate then 0 else preparation.nparams)
              && (!immediate && preparation.fields != [] ==> Describes(r.value.impl.cache, preparation.fields))
              && Begun(r.value.impl, sql, immediate, preparation, old(pConn.log), old(pConn.waits)))
    {
      hide Begun, BindFuture, SetCache;
      var result := new DbResult(conn);
      var begun, impl := Implement(result, sql, immediate, preparation);
      if begun.Err? {
        result.Destroy();
        return Err(begun.error);
      }
      BegunIsReady(impl, sql, immediate, preparation, old(conn.pConn.log), old(conn.pConn.waits));
      result.impl := impl;
      r := Ok(result);
    }

    static lemma BegunIsReady(impl: PqResultImpl, sql: string, immediate: bool, preparation: Preparation, log: seq<Sent>, waits: nat)
      requires PrepareError(immediate, preparation) == None && Begun(impl, sql, immediate, preparation, log, waits)
      ensures impl.sql == sql && impl.immediate == immediate && (immediate ==> impl.ready)
      ensures impl.cache.nparams == (if immediate then 0 else preparation.nparams)
      ensures !immediate && preparation.fields != [] ==> Describes(impl.cache, preparation.fields)
    {
      if !immediate {
        SetCacheOk(EMPTY_CACHE, preparation.fields, preparation.nparams);
      }
    }

    /** Why a bind would be turned down, whether the result is active or not. */
    ghost function Refusal(params: Params): Option<Error>
      requires impl != null
      reads this, impl, impl.conn
    {
      BindError(StatusOf(), params, impl.conn.busy)
    }

    ghost function StatusOf(): Status
      requires impl != null
      reads this, impl
    {
      Status(impl.immediate, impl.cache.nparams, impl.ready)
    }

    /** Would a bind get as far as sending anything? */
    ghost predicate Sends(params: Params)
      requires impl != null
      reads this, impl, impl.conn
    {
      Refusal(params) == None && GroupCount(params) > 0
    }

    /** Unlike `Fetch`, this does not check that the result is active. A bind that sends something leaves the
        queue owned by the current result if and only if its own result is active, or nothing is left to read.
        What an inactive result executes is the statement prepared last, which is another's. */
    method Bind(params: Params) returns (r: Result<(), Error>)
      requires Valid()
      modifies impl, conn.pConn
      ensures Valid() && conn.pConn.statement == old(conn.pConn.statement)
      ensures StatusOf() == old(StatusOf()).(ready := old(impl.ready) || old(Refusal(params)) == None)
      ensures var sent := old(Sends(params)); var f := old(impl.Prospect(params));
        && conn.Own() == Ownership.Next(old(conn.Own()), Ownership.Bind(this, sent, conn.pConn.busy))
        && (!sent ==> unchanged(conn.pConn))
        && (sent ==> conn.pConn.busy == Leaves(f))
        && (sent ==>
              && old(conn.pConn.log) < conn.pConn.log
              && CarriesInOrder(old(conn.pConn.log), conn.pConn.log, conn.pConn.statement, params)
              && CarriesInOrder(old(conn.pConn.log), impl.Remaining().log, conn.pConn.statement, params))
        && (old(Ownership.Owned(conn.Own())) ==> (Ownership.Owned(conn.Own()) <==> IsActive() || !sent || !Leaves(f)))
      ensures old(Refusal(params)).Some? ==> r == Err(old(Refusal(params)).value) && unchanged(conn.pConn)
      ensures old(Refusal(params)) == None ==>
        var f := old(impl.Prospect(params));
        && r.Err? == (f.rows == [] && f.end.Failed?)
        && (r.Err? ==> r.error == f.end.error && impl.Remaining() == f.end.resume)
        && (r.Ok? ==> impl.LookedAhead() && impl.Remaining() == f)
    {
      hide BindFuture, PqResultImpl.Ahead, PqResultImpl.Remaining, Leaves, BindRefused, CarriesInOrder;
      var valid := ValidateParams(params);
      if !valid {
        return Err(RaggedParams);
      }
      if impl.immediate {
        ImmediateIsRefused(params);
      }
      r := impl.Bind(params);
    }

    /** An immediate result is never bound again. */
    lemma ImmediateIsRefused(params: Params)
      requires Implemented() && impl.immediate
      ensures impl.Refusal(params).Some?
    {
    }

    /** src/DbResult.cpp:73-86. */
    method ValidateParams(params: Params) returns (valid: bool)
      ensures valid == Rectangular(params)
    {
      if params != [] {
        var n := |params[0]|;
        for j := 1 to |params|
          invariant forall i :: 0 <= i < j ==> |params[i]| == n
        {
          if |params[j]| != n {
            return false;
          }
        }
      }
      valid := true;
    }

    method Fetch(nMax: int) returns (r: Result<Frame, Error>)
      requires Valid()
      modifies impl, conn.pConn
      ensures Valid() && conn.current == old(conn.current)
      ensures StatusOf() == old(StatusOf()) && old(conn.pConn.log) <= conn.pConn.log
      ensures var sent := conn.pConn.log != old(conn.pConn.log);
        conn.Own() == Ownership.Next(old(conn.Own()), Ownership.Fetch(this, sent, conn.pConn.busy))
      ensures !IsActive() ==> r == Err(Inactive) && unchanged(impl) && unchanged(conn.pConn)
      ensures IsActive() && !impl.ready ==> r == Err(NotBound) && unchanged(impl) && unchanged(conn.pConn)
      ensures IsActive() && impl.ready ==>
        var (out, next) := Fetched(old(impl.Remaining()), nMax);
        && impl.Remaining() == next
        && r == (if out.Err? then Err(out.error) else Ok(FrameOf(old(impl.cache), out.value)))
        && (out.Ok? ==> Faithful(old(impl.cache).names, old(impl.cache).oids, out.value, r.value))
    {
      hide FutureOf, PqResultImpl.Ahead, Fetched, FrameOf;
      if !IsActive() {
        return Err(Inactive);
      }
      r := impl.Fetch(nMax);
    }
  }

  /** What matters of a result when it is to be bound. */
  datatype Status = Status(immediate: bool, nparams: nat, ready: bool)

  /** Why a bind is turned down. */
  function BindError(status: Status, params: Params, busy: bool): Option<Error> {
    var refused := BindRefused(status.immediate, params, status.nparams, status.ready);
    if !Rectangular(params) then Some(RaggedParams)
    else if refused.Some? then refused
    else if !status.ready && busy && GroupCount(params) > 0 then Some(SendRefused)
    else None
  }

  /** Which binds are accepted, by the lengths of the parameter vectors, and why the others are not. */
  lemma AcceptedBinds(status: Status, params: Params, busy: bool)
    ensures var ragged := exists i :: 0 <= i < |params| && |params[i]| != |params[0]|;
      BindError(status, params, busy) ==
        if ragged then Some(RaggedParams)
        else if status.immediate && |params| > 0 then Some(ImmediateParams)
        else if |params| != status.nparams then Some(WrongParamCount(status.nparams, |params|))
        else if status.nparams == 0 && status.ready then Some(NoParamsNeeded)
        else if !status.ready && busy && (|params| == 0 || |params[0]| > 0) then Some(SendRefused)
        else None
  {
  }

  // ----- Runs of calls on many results -----

  /** The calls a user can make; `k` picks one of the results still alive. */
  datatype Call =
    | Creating(sql: string, immediate: bool, preparation: Preparation)
    | Binding(k: nat, params: Params)
    | Fetching(k: nat, nMax: int)
    | Destroying(k: nat)

  /** The results that are alive on a connection. */
  ghost predicate Alive(conn: DbConnection, results: seq<DbResult>)
    reads results, set r | r in results :: r.impl
  {
    forall r :: r in results ==> r.conn == conn && r.Implemented()
  }

  /** A connection and the results alive on it, between two calls. */
  datatype Stage = Stage(alive: seq<DbResult>, statuses: seq<Status>, own: Ownership.Own<object?>, log: seq<Sent>, waits: nat)

  ghost function Statuses(results: seq<DbResult>): (statuses: seq<Status>)
    requires forall r :: r in results ==> r.impl != null
    reads results, set r | r in results :: r.impl
    ensures |statuses| == |results|
    ensures forall k :: 0 <= k < |results| ==> results[k] in results && statuses[k] == results[k].StatusOf()
  {
    if results == [] then []
    else
      var k := |results| - 1;
      assert results[k] in results;
      Statuses(results[..k]) + [results[k].StatusOf()]
  }

  ghost function Now(conn: DbConnection, alive: seq<DbResult>): Stage
    requires Alive(conn, alive)
    reads conn, conn.pConn, alive, set r | r in alive :: r.impl
  {
    Stage(alive, Statuses(alive), conn.Own(), conn.pConn.log, conn.pConn.waits)
  }

  /** What a call amounts to, as one step of the ownership and of everything a caller can tell. Only what the
      server leaves to be read, and whether a fetch sends the next group, is left open. A call that picks no
      result is not made, and with a guard neither is a bind of an inactive result. */
  ghost predicate Made(server: PGconn, a: Stage, call: Call, guarded: bool, op: Ownership.Op<object?>, b: Stage)
    requires |a.alive| == |a.statuses|
  {
    && b.own == Ownership.Next(a.own, op)
    && match call
       case Creating(sql, immediate, preparation) => MadeCreate(server, a, sql, immediate, preparation, op, b)
       case Binding(k, params) => MadeBind(a, k, params, guarded, op, b)
       case Fetching(k, _) => MadeFetch(a, k, op, b)
       case Destroying(k) => MadeDestroy(a, k, op, b)
  }

  ghost predicate MadeCreate(server: PGconn, a: Stage, sql: string, immediate: bool, preparation: Preparation,
                             op: Ownership.Op<object?>, b: Stage) {
    var blocked := a.own.current == None && a.own.owner.Some?;
    var failure := DbResult.CreateError(a.log, a.waits, server.respond, server.interrupts, sql, immediate, preparation, blocked);
    if failure.Some? then
      op.FailedCreate? && b.alive == a.alive && b.statuses == a.statuses && a.log <= b.log
    else
      var n := FirstCache(immediate, preparation).nparams;
      && op.Create? && |b.alive| == |a.alive| + 1 && b.alive[..|a.alive|] == a.alive && op.id == b.alive[|a.alive|]
      && b.statuses == a.statuses + [Status(immediate, n, n == 0)]
      && if n > 0 then b.log == a.log else a.log < b.log
  }

  ghost predicate MadeBind(a: Stage, k: nat, params: Params, guarded: bool, op: Ownership.Op<object?>, b: Stage)
    requires |a.alive| == |a.statuses|
  {
    b.alive == a.alive &&
    if k < |a.alive| && (guarded ==> a.own.current == Some(a.alive[k])) then
      var status := a.statuses[k];
      var failure := BindError(status, params, a.own.owner.Some?);
      && op.Bind? && op.id == a.alive[k] && op.sent == (failure == None && GroupCount(params) > 0)
      && b.statuses == a.statuses[k := status.(ready := status.ready || failure == None)]
      && if op.sent then a.log < b.log else b.log == a.log
    else
      op.NoCall? && b.statuses == a.statuses && b.log == a.log
  }

  ghost predicate MadeFetch(a: Stage, k: nat, op: Ownership.Op<object?>, b: Stage) {
    && b.alive == a.alive && b.statuses == a.statuses
    && if k < |a.alive| then op.Fetch? && op.id == a.alive[k] && a.log <= b.log && op.sent == (b.log != a.log)
       else op.NoCall? && b.log == a.log
  }

  ghost predicate MadeDestroy(a: Stage, k: nat, op: Ownership.Op<object?>, b: Stage)
    requires |a.alive| == |a.statuses|
  {
    && b.log == a.log
    && if k < |a.alive| then
         && op.Destroy? && op.id == a.alive[k]
         && b.alive == Without(a.alive, k) && b.statuses == Without(a.statuses, k)
       else
         op.NoCall? && b.alive == a.alive && b.statuses == a.statuses
  }

  method RunCall(conn: DbConnection, before: seq<DbResult>, call: Call, guarded: bool)
    returns (after: seq<DbResult>, ghost op: Ownership.Op<object?>)
    requires conn.Valid() && Alive(conn, before) && Distinct(before)
    modifies conn, conn.pConn, set r | r in before :: r.impl
    ensures conn.Valid() && Alive(conn, after) && Distinct(after) && Kept(before, after)
    ensures Made(conn.pConn, old(Now(conn, before)), call, guarded, op, Now(conn, after))
  {
    hide MadeCreate, MadeBind, MadeFetch, MadeDestroy, Ownership.Next, DbResult.Implemented, DbConnection.Valid, Statuses;
    match call {
      case Creating(sql, immediate, preparation) =>
        after, op := RunCreate(conn, before, sql, immediate, preparation);
      case Binding(k, params) =>
        after := before;
        op := RunBind(conn, before, k, params, guarded);
      case Fetching(k, nMax) =>
        after := before;
        op := RunFetch(conn, before, k, nMax);
      case Destroying(k) =>
        after, op := RunDestroy(conn, before, k);
    }
  }

  method RunCreate(conn: DbConnection, before: seq<DbResult>, sql: string, immediate: bool, preparation: Preparation)
    returns (after: seq<DbResult>, ghost op: Ownership.Op<object?>)
    requires conn.Valid() && Alive(conn, before) && Distinct(before)
    modifies conn, conn.pConn
    ensures conn.Valid() && Alive(conn, after) && Distinct(after) && Kept(before, after)
    ensures conn.Own() == Ownership.Next(old(conn.Own()), op)
    ensures MadeCreate(conn.pConn, old(Now(conn, before)), sql, immediate, preparation, op, Now(conn, after))
  {
    hide DbResult.Unparameterized, SetCache, PqResultImpl.Remaining, PqResultImpl.LookedAhead, DbConnection.Valid,
      PqResultImpl.Valid, Statuses, Describes;
    var created := DbResult.Create(conn, sql, immediate, preparation);
    after := before;
    op := Ownership.FailedCreate;
    if created.Ok? {
      after := before + [created.value];
      op := Ownership.Create(created.value, conn.pConn.busy);
      StatusesOn(before, created.value);
    }
  }

  method RunBind(conn: DbConnection, alive: seq<DbResult>, k: nat, params: Params, guarded: bool)
    returns (ghost op: Ownership.Op<object?>)
    requires conn.Valid() && Alive(conn, alive) && Distinct(alive)
    modifies conn.pConn, set r | r in alive :: r.impl
    ensures conn.Valid() && Alive(conn, alive)
    ensures conn.Own() == Ownership.Next(old(conn.Own()), op)
    ensures MadeBind(old(Now(conn, alive)), k, params, guarded, op, Now(conn, alive))
  {
    hide PqResultImpl.Refusal, PqResultImpl.Prospect, Leaves, BindError, Statuses, DbConnection.Valid, DbResult.Implemented,
      Ownership.Owned, GroupCount, CarriesInOrder, PqResultImpl.PlanFor, PqResultImpl.Remaining, PqResultImpl.LookedAhead;
    op := Ownership.NoCall;
    if k < |alive| && (guarded ==> alive[k].IsActive()) {
      OthersStay(conn, alive, k);
      ghost var sent, was := alive[k].Sends(params), Statuses(alive);
      var _ := alive[k].Bind(params);
      op := Ownership.Bind(alive[k], sent, conn.pConn.busy);
      assert Statuses(alive) == was[k := alive[k].StatusOf()];
    }
  }

  method RunFetch(conn: DbConnection, alive: seq<DbResult>, k: nat, nMax: int) returns (ghost op: Ownership.Op<object?>)
    requires conn.Valid() && Alive(conn, alive) && Distinct(alive)
    modifies conn.pConn, set r | r in alive :: r.impl
    ensures conn.Valid() && Alive(conn, alive)
    ensures conn.Own() == Ownership.Next(old(conn.Own()), op)
    ensures MadeFetch(old(Now(conn, alive)), k, op, Now(conn, alive))
  {
    hide PqResultImpl.Remaining, Fetched, Statuses, DbConnection.Valid, DbResult.Implemented;
    op := Ownership.NoCall;
    if k < |alive| {
      OthersStay(conn, alive, k);
      ghost var was := Statuses(alive);
      var _ := alive[k].Fetch(nMax);
      op := Ownership.Fetch(alive[k], conn.pConn.log != old(conn.pConn.log), conn.pConn.busy);
      assert Statuses(alive) == was;
    }
  }

  method RunDestroy(conn: DbConnection, before: seq<DbResult>, k: nat)
    returns (after: seq<DbResult>, ghost op: Ownership.Op<object?>)
    requires conn.Valid() && Alive(conn, before) && Distinct(before)
    modifies conn, conn.pConn
    ensures conn.Valid() && Alive(conn, after) && Distinct(after) && Kept(before, after)
    ensures conn.Own() == Ownership.Next(old(conn.Own()), op)
    ensures MadeDestroy(old(Now(conn, before)), k, op, Now(conn, after))
  {
    hide Statuses, DbConnection.Valid, DbResult.Implemented, Distinct, Without;
    after, op := before, Ownership.NoCall;
    if k < |before| {
      OthersStay(conn, before, k);
      before[k].Destroy();
      after := Without(before, k);
      op := Ownership.Destroy(before[k]);
      WithoutDistinct(before, k);
      StatusesWithout(before, k);
    }
  }

  lemma StatusesOn(before: seq<DbResult>, r: DbResult)
    requires r.impl != null && forall r :: r in before ==> r.impl != null
    ensures Statuses(before + [r]) == Statuses(before) + [r.StatusOf()]
  {
    hide Statuses;
  }

  function Without<T>(s: seq<T>, k: nat): (r: seq<T>)
    requires k < |s|
    ensures |r| == |s| - 1 && forall i :: 0 <= i < |r| ==> r[i] == s[if i < k then i else i + 1]
  {
    s[..k] + s[k + 1..]
  }

  lemma WithoutDistinct(before: seq<DbResult>, k: nat)
    requires k < |before| && Distinct(before)
    ensures Distinct(Without(before, k)) && forall r :: r in Without(before, k) ==> r in before
  {
  }

  lemma StatusesWithout(before: seq<DbResult>, k: nat)
    requires k < |before| && forall r :: r in before ==> r.impl != null
    requires forall r :: r in Without(before, k) ==> r in before
    ensures Statuses(Without(before, k)) == Without(Statuses(before), k)
  {
    hide Statuses, Without;
    var after, statuses := Without(before, k), Statuses(before);
    forall i | 0 <= i < |after|
      ensures Statuses(after)[i] == Without(statuses, k)[i]
    {
      assert after[i] == before[if i < k then i else i + 1];
    }
  }

  /** No two results share an implementation. */
  lemma OthersStay(conn: DbConnection, alive: seq<DbResult>, k: nat)
    requires Alive(conn, alive) && Distinct(alive) && k < |alive|
    ensures alive[k].Implemented() && alive[k].conn == conn
    ensures forall r :: r in alive ==> r.impl != null
    ensures forall i :: 0 <= i < |alive| && i != k ==> alive[i].impl != alive[k].impl
  {
    forall i | 0 <= i < |alive| && i != k
      ensures alive[i].impl != alive[k].impl
    {
      assert alive[i] in alive && alive[k] in alive && alive[i] != alive[k];
    }
  }

  /** A result still alive is as it was, or new. */
  twostate predicate Kept(before: seq<DbResult>, new after: seq<DbResult>)
    reads after
  {
    forall r :: r in after ==> (r in before && r.impl == old(r.impl)) || (fresh(r) && r.impl != null && fresh(r.impl))
  }

  predicate Distinct(results: seq<DbResult>) {
    forall i, j :: 0 <= i < j < |results| ==> results[i] != results[j]
  }

  /** Any calls in any order, on any server: each makes the step that `Made` says. The queue is owned by the
      current result all the time if and only if no bind intrudes, and so it is if binds are guarded as
      fetches are. */
  method RunCalls(conn: DbConnection, calls: seq<Call>, guarded: bool)
    returns (alive: seq<DbResult>, ghost stages: seq<Stage>, ghost ops: seq<Ownership.Op<object?>>)
    requires conn.Valid() && Ownership.Owned(conn.Own())
    modifies conn, conn.pConn
    ensures conn.Valid() && Alive(conn, alive)
    ensures |ops| == |calls| && |stages| == |calls| + 1
    ensures stages[0] == old(Now(conn, [])) && stages[|calls|] == Now(conn, alive)
    ensures forall i :: 0 <= i < |calls| ==>
      |stages[i].alive| == |stages[i].statuses| && Made(conn.pConn, stages[i], calls[i], guarded, ops[i], stages[i + 1])
    ensures conn.Own() == Ownership.Run(old(conn.Own()), ops)
    ensures Ownership.AlwaysOwned(old(conn.Own()), ops) <==> Ownership.NeverIntrudes(old(conn.Own()), ops)
    ensures guarded ==> Ownership.AlwaysOwned(old(conn.Own()), ops)
  {
    hide Ownership.Next, Ownership.Run, Ownership.Guarded, Ownership.AlwaysOwned, Ownership.NeverIntrudes, Ownership.Owned,
      Made, DbResult.Implemented, DbConnection.Valid, DbConnection.Own, Now, Alive, Distinct;
    ghost var own := conn.Own();
    NoneAlive(conn);
    Ownership.RunOn(own, [], Ownership.NoCall);
    alive, stages, ops := [], [Now(conn, [])], [];
    for i := 0 to |calls|
      invariant conn.Valid() && Alive(conn, alive) && Distinct(alive)
      invariant forall r :: r in alive ==> fresh(r) && r.impl != null && fresh(r.impl)
      invariant |ops| == i && |stages| == i + 1 && stages[0] == old(Now(conn, [])) && stages[i] == Now(conn, alive)
      invariant forall j :: 0 <= j < i ==>
        |stages[j].alive| == |stages[j].statuses| && Made(conn.pConn, stages[j], calls[j], guarded, ops[j], stages[j + 1])
      invariant conn.Own() == Ownership.Run(own, ops)
      invariant guarded ==> Ownership.Guarded(own, ops)
    {
      ghost var was, op := ops, Ownership.NoCall;
      NowIs(conn, alive);
      alive, op := RunCall(conn, alive, calls[i], guarded);
      NowIs(conn, alive);
      MadeStep(conn.pConn, stages[i], calls[i], guarded, op, Now(conn, alive));
      Ownership.RunOn(own, was, op);
      ops, stages := was + [op], stages + [Now(conn, alive)];
    }
    Ownership.RunOwned(own, ops);
    if guarded {
      Ownership.GuardedNeverIntrudes(own, ops);
    }
  }

  lemma NoneAlive(conn: DbConnection)
    ensures Alive(conn, []) && Distinct([])
  {
  }

  lemma NowIs(conn: DbConnection, alive: seq<DbResult>)
    requires Alive(conn, alive)
    ensures var stage := Now(conn, alive); stage.alive == alive && |stage.statuses| == |alive| && stage.own == conn.Own()
  {
  }

  lemma MadeStep(server: PGconn, a: Stage, call: Call, guarded: bool, op: Ownership.Op<object?>, b: Stage)
    requires |a.alive| == |a.statuses| && Made(server, a, call, guarded, op, b)
    ensures b.own == Ownership.Next(a.own, op)
    ensures guarded && op.Bind? ==> a.own.current == Some(op.id)
  {
  }

  // ----- A run in which an inactive result is bound -----

  const ONE_COLUMN := [Field("x", 23)]

  /** A server that answers every command with one row. */
  function OneRow(log: seq<Sent>): seq<PGresult> {
    [SingleTuple(ONE_COLUMN, [Some("1")]), TuplesOk(1)]
  }

  /** A bind to one value leaves its row to be read. */
  lemma OneRowLeaves(p: Plan, log: seq<Sent>, cache: Cache, waits: nat, busy: bool, value: Option<string>)
    requires p.groups == 1 && p.respond == OneRow && !p.interrupts(waits) && !p.immediate && p.params == [[value]]
    ensures Leaves(BindFuture(p, log, cache, waits, busy))
  {
    var s := SendNext(p, Stream(log, 0, [], true, cache, waits, 0, busy));
    FutureAtRow(p, s);
  }

  /** A result for a query with one parameter, still to be bound. */
  ghost predicate ToBeBound(result: DbResult, sql: string)
    reads result, result.impl
  {
    result.Implemented() && !result.impl.ready && !result.impl.immediate && result.impl.sql == sql && result.impl.cache.nparams == 1
  }

  /** Two results created one after the other: the second is current, and its statement is the one prepared. */
  method CreateTwo(conn: DbConnection, a: string, b: string) returns (first: DbResult, second: DbResult)
    requires conn.Valid() && Ownership.Owned(conn.Own())
    modifies conn, conn.pConn
    ensures conn.Valid() && conn.current == second && !conn.pConn.busy && conn.pConn.statement == Some(b)
    ensures fresh(first) && fresh(second) && fresh(first.impl) && first != second && first.conn == second.conn == conn
    ensures ToBeBound(first, a) && ToBeBound(second, b) && conn.pConn.log == old(conn.pConn.log)
  {
    hide BindFuture, FutureOf;
    var one := DbResult.Create(conn, a, false, Described(1, ONE_COLUMN));
    first := one.value;
    var two := DbResult.Create(conn, b, false, Described(1, ONE_COLUMN));
    second := two.value;
  }

  /** Create a first result, then a second, and bind the first: the queue belongs to the first although the
      second is the current result, and what the server was asked to execute is the statement of the second. */
  method BindTheInactive(a: string, b: string, value: Option<string>) returns (conn: DbConnection, first: DbResult, second: DbResult)
    ensures first.impl != null && first.impl.sql == a && second.impl != null && second.impl.sql == b
    ensures conn.current == second && conn.Own() == Ownership.Own(Some(second as object?), Some(first as object?))
    ensures !Ownership.Owned(conn.Own())
    ensures [Prepared(Some(b), [value])] <= conn.pConn.log
    ensures conn.Valid()
  {
    hide BindFuture, FutureOf, Leaves;
    var pConn := new PGconn(OneRow, _ => false, rest => rest);
    conn := new DbConnection(pConn);
    first, second := CreateTwo(conn, a, b);
    var params := [[value]];
    ghost var p := first.impl.PlanFor(params, 1);
    OneRowLeaves(p, pConn.log, first.impl.cache, pConn.waits, pConn.busy, value);
    var _ := first.Bind(params);
    assert Carries(pConn.log[0], Some(b), params, 0);
    assert pConn.log[0].values == [value];
  }

  /** What the current result delivers after that: whatever rows are waiting on the connection, whoever sent
      the command they answer, come after the row it already holds. */
  lemma DeliversWhatIsWaiting(result: DbResult, fields: seq<Field>, rows: seq<Row>, tuples: nat)
    requires result.Valid() && !result.impl.complete && result.impl.dataReady
    requires result.conn.pConn.pending == Singles(fields, rows) + [TuplesOk(tuples)]
    ensures [result.impl.pRes] + Somes(Singles(fields, rows)) <= result.impl.Remaining().rows
  {
    var st := Query(fields, rows, tuples);
    assert [TuplesOk(tuples)] + [] == [TuplesOk(tuples)];
    RestOfQuery(result.impl.ThePlan(), result.impl.TheStream(), st, []);
  }
}
