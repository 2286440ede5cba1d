/** What a result will still deliver, as a value: the rows to come, in order, and how the stream ends.
    This is the list cursor that PqResultImpl is proved to implement. It is defined for every server,
    including one that reports errors or answers out of order. */
module ResultFuture {
  import opened Base
  import opened DataTypes
  import opened Libpq

  datatype Error =
    | ImmediateParams
    | WrongParamCount(needed: nat, supplied: nat)
    | NoParamsNeeded
    | RaggedParams
    | NotBound
    | Inactive
    | PrepareFailed
    | DescribeFailed
    | SendRefused
    | Interrupted
    | ServerError(message: string)
    | NamesDiffer
    | TypesDiffer

  // ----- The schema cache, src/PqResultImpl.cpp:65-219 -----

  datatype Cache = Cache(
    initialized: bool,
    names: seq<string>,
    oids: seq<nat>,
    types: seq<DataType>,
    nparams: nat)

  const EMPTY_CACHE := Cache(false, [], [], [], 0)

  function TypeOfOid(oid: nat): DataType {
    if oid == 20 then Int64
    else if oid in {21, 23, 26} then Int
    else if oid in {1700, 701, 700, 790} then Real
    else if oid in {18, 19, 25, 1042, 1043, 1186, 2950, 705} then Str
    else if oid == 1082 then Date
    else if oid in {1083, 1266} then Time
    else if oid == 1114 then Datetime
    else if oid == 1184 then DatetimeTz
    else if oid == 16 then Bool
    else if oid in {17, 2278} then Blob
    else Unknown
  }

  function ColumnType(oid: nat): DataType {
    if TypeOfOid(oid) == Unknown then Str else TypeOfOid(oid)
  }

  function Names(fields: seq<Field>): seq<string> {
    seq(|fields|, i requires 0 <= i < |fields| => fields[i].name)
  }

  function Oids(fields: seq<Field>): seq<nat> {
    seq(|fields|, i requires 0 <= i < |fields| => fields[i].oid)
  }

  /** `_cache::set` for a result with the given columns and parameter count. */
  function SetCache(c: Cache, fields: seq<Field>, nparams: nat): Result<Cache, Error> {
    var c1 := if c.nparams == 0 then c.(nparams := nparams) else c;
    if c.initialized || fields == [] then
      if c.names != [] && fields != [] && c.names != Names(fields) then Err(NamesDiffer)
      else if c.oids != [] && fields != [] && c.oids != Oids(fields) then Err(TypesDiffer)
      else Ok(c1)
    else
      Ok(Cache(true, Names(fields), Oids(fields),
               seq(|fields|, i requires 0 <= i < |fields| => ColumnType(fields[i].oid)), c1.nparams))
  }

  /** What becomes of preparing a statement and asking for its description. */
  datatype Preparation = Refused | Undescribed | Described(nparams: nat, fields: seq<Field>)

  /** Why a query cannot be prepared. */
  function PrepareError(immediate: bool, preparation: Preparation): Option<Error> {
    if immediate || preparation.Described? then None
    else Some(if preparation.Refused? then PrepareFailed else DescribeFailed)
  }

  /** The schema cache a result starts with. */
  function FirstCache(immediate: bool, preparation: Preparation): Cache
    requires PrepareError(immediate, preparation) == None
  {
    if immediate then EMPTY_CACHE
    else SetCache(EMPTY_CACHE, preparation.fields, preparation.nparams).value
  }

  predicate TypesKnown(types: seq<DataType>) {
    forall j :: 0 <= j < |types| ==> types[j] != Unknown
  }

  predicate CacheOk(c: Cache) {
    && |c.names| == |c.oids| == |c.types|
    && TypesKnown(c.types)
    && (forall j :: 0 <= j < |c.types| ==> c.types[j] == ColumnType(c.oids[j]))
    && (!c.initialized <==> c.names == [])
  }

  predicate NamesAre(names: seq<string>, fields: seq<Field>) {
    |names| == |fields| && forall j :: 0 <= j < |fields| ==> names[j] == fields[j].name
  }

  predicate OidsAre(oids: seq<nat>, fields: seq<Field>) {
    |oids| == |fields| && forall j :: 0 <= j < |fields| ==> oids[j] == fields[j].oid
  }

  /** The cache holds the names and types of these columns, in order. */
  predicate Describes(c: Cache, fields: seq<Field>) {
    NamesAre(c.names, fields) && OidsAre(c.oids, fields)
  }

  /** The first columns shown are remembered; later ones, if there are any, have to be the same. */
  lemma SetCacheOk(c: Cache, fields: seq<Field>, nparams: nat)
    requires CacheOk(c)
    ensures var r := SetCache(c, fields, nparams);
      && (r.Err? <==> c.initialized && fields != [] && !Describes(c, fields))
      && (r.Err? ==> r.error == if NamesAre(c.names, fields) then TypesDiffer else NamesDiffer)
      && (r.Ok? ==>
            && CacheOk(r.value) && r.value.nparams == (if c.nparams == 0 then nparams else c.nparams)
            && (if c.initialized || fields == [] then r.value.initialized == c.initialized && r.value.names == c.names && r.value.oids == c.oids
                else r.value.initialized && Describes(r.value, fields)))
  {
  }

  lemma SetNothing(c: Cache)
    ensures SetCache(c, [], 0) == Ok(c)
  {
  }

  // ----- The parameters of one bind -----

  type Params = seq<seq<Option<string>>>

  /** Everything about a bind that does not change while its rows are read. */
  datatype Plan = Plan(
    immediate: bool,
    sql: string,                // what an immediate query executes
    statement: Option<string>,  // what a prepared query executes
    params: Params,
    groups: nat,
    respond: seq<Sent> -> seq<PGresult>,
    interrupts: nat -> bool)

  /** The values of parameter group `g`: one element of each parameter vector. */
  function GroupValues(params: Params, g: nat): seq<Option<string>> {
    seq(|params|, i requires 0 <= i < |params| => if g < |params[i]| then params[i][g] else None)
  }

  /** All parameter vectors have the length of the first, src/DbResult.cpp:73-86. */
  predicate Rectangular(params: Params) {
    forall i :: 0 <= i < |params| ==> |params[i]| == |params[0]|
  }

  function GroupCount(params: Params): nat {
    if params == [] then 1 else |params[0]|
  }

  /** The reasons to turn a bind down before anything is sent, src/PqResultImpl.cpp:272-286. */
  function BindRefused(immediate: bool, params: Params, nparams: nat, ready: bool): Option<Error> {
    if immediate && params != [] then Some(ImmediateParams)
    else if |params| != nparams then Some(WrongParamCount(nparams, |params|))
    else if params == [] && ready then Some(NoParamsNeeded)
    else None
  }

  function Command(p: Plan, g: nat): Sent {
    if p.immediate then Simple(p.sql) else Prepared(p.statement, GroupValues(p.params, g))
  }

  // ----- The stream of results and what it amounts to -----

  /** Where the driver is in the stream: `first` when the next result is the first of its statement. */
  datatype Stream = Stream(
    log: seq<Sent>,
    group: nat,
    pending: seq<PGresult>,
    first: bool,
    cache: Cache,
    waits: nat,
    affected: nat,
    busy: bool)

  type Chunk = seq<Option<PGresult>>

  /** A row to come is the result that holds it; `None` stands for a row read from no result at all.
      At the end `busy` says whether the connection is left with something to read. */
  datatype Future = Future(rows: seq<Option<PGresult>>, end: End, log: seq<Sent>, affected: nat, busy: bool)

  /** After a failure the result object can still be asked for rows: `resume` is what it will say. */
  datatype End = Finished | Failed(error: Error, resume: Future)

  function Ended(s: Stream): Future {
    Future([], Finished, s.log, s.affected, s.busy)
  }

  function Broken(s: Stream, error: Error, resume: Future): Future {
    Future([], Failed(error, resume), s.log, s.affected, s.busy)
  }

  function Prepend(row: Option<PGresult>, f: Future): Future {
    f.(rows := [row] + f.rows)
  }

  /** The stream after a command completed with `r`. */
  function Counted(s: Stream, r: PGresult): Stream {
    s.(group := s.group + 1, first := true, affected := s.affected + r.CmdTuples())
  }

  /** The stream after the next group of parameters was sent; whatever was still unread is discarded. */
  function SendNext(p: Plan, s: Stream): Stream {
    var log := s.log + [Command(p, s.group)];
    s.(log := log, pending := p.respond(log), first := true, busy := true)
  }

  function GroupsLeft(p: Plan, s: Stream): nat {
    if p.immediate || p.groups <= s.group then 0 else p.groups - s.group
  }

  function FutureOf(p: Plan, s: Stream): Future
    decreases GroupsLeft(p, s), |s.pending|, 0
  {
    if s.first && p.interrupts(s.waits) then
      Broken(s, Interrupted, Ended(s))
    else
      var s := if s.first then s.(waits := s.waits + 1) else s;
      if s.pending == [] then Ended(s.(busy := false))
      else
        var r, s' := s.pending[0], s.(pending := s.pending[1..], first := false);
        match r
        case FatalError(message) =>
          Broken(s', ServerError(message), Prepend(None, FutureOf(p, s')))
        case SingleTuple(fields, _) =>
          var set_ := if s.first then SetCache(s.cache, fields, 0) else Ok(s.cache);
          if set_.Err? then Broken(s', set_.error, Prepend(Some(r), FutureOf(p, s')))
          else Prepend(Some(r), FutureOf(p, s'.(cache := set_.value)))
        case _ =>
          AfterCommand(p, s', r)  // a result without columns leaves the cache as it is
  }

  /** A statement is complete: go on to the next statement, the next group, or the end. */
  function AfterCommand(p: Plan, s: Stream, r: PGresult): Future
    decreases GroupsLeft(p, s), |s.pending|, 1
  {
    var s := Counted(s, r);
    if p.immediate then FutureOf(p, s)
    else if s.group < p.groups then FutureOf(p, SendNext(p, s))
    else if r.TuplesOk? then Closing(p, s)
    else Ended(s)
  }

  /** After the tuples of the last group the driver reads on, up to the next result that stops it. */
  function Closing(p: Plan, s: Stream): Future
    decreases |s.pending|
  {
    if p.interrupts(s.waits) then Broken(s, Interrupted, Ended(s))
    else
      var s := s.(waits := s.waits + 1);
      if s.pending == [] then Ended(s.(busy := false))
      else
        var r, s' := s.pending[0], s.(pending := s.pending[1..]);
        match r
        case FatalError(message) => Broken(s', ServerError(message), Ended(s'))
        case TuplesOk(_) => Closing(p, Counted(s', r))
        case SingleTuple(fields, _) =>
          var set_ := SetCache(s'.cache, fields, 0);
          if set_.Err? then Broken(s', set_.error, Ended(s')) else Ended(s')
        case _ => Ended(Counted(s', r))
  }

  /** The stream with its first result taken, or the NULL that ends it. */
  function Taken(s: Stream): Stream {
    s.(pending := if s.pending == [] then [] else s.pending[1..], first := false,
       waits := if s.first then s.waits + 1 else s.waits, busy := s.busy && s.pending != [])
  }

  lemma FutureAtEnd(p: Plan, s: Stream)
    requires !(s.first && p.interrupts(s.waits)) && s.pending == []
    ensures FutureOf(p, s) == Ended(Taken(s))
    ensures s.first ==> Closing(p, s) == Ended(Taken(s))
  {
  }

  lemma FutureAtInterrupt(p: Plan, s: Stream)
    requires s.first && p.interrupts(s.waits)
    ensures FutureOf(p, s) == Closing(p, s) == Broken(s, Interrupted, Ended(s))
  {
  }

  lemma FutureAtError(p: Plan, s: Stream)
    requires !(s.first && p.interrupts(s.waits)) && s.pending != [] && s.pending[0].FatalError?
    ensures FutureOf(p, s) ==
      Broken(s, ServerError(s.pending[0].message), Prepend(None, FutureOf(p, Taken(s))))
    ensures s.first ==> Closing(p, s) == Broken(s, ServerError(s.pending[0].message), Ended(s))
  {
  }

  lemma FutureAtRow(p: Plan, s: Stream)
    requires !(s.first && p.interrupts(s.waits)) && s.pending != [] && s.pending[0].SingleTuple?
    ensures var r := s.pending[0];
      var set_ := if s.first then SetCache(s.cache, r.fields, 0) else Ok(s.cache);
      && (FutureOf(p, s) ==
          if set_.Err? then Broken(s, set_.error, Prepend(Some(r), FutureOf(p, Taken(s))))
          else Prepend(Some(r), FutureOf(p, Taken(s).(cache := set_.value))))
      && (s.first ==> Closing(p, s) == if set_.Err? then Broken(s, set_.error, Ended(s)) else Ended(s))
  {
  }

  lemma FutureAtCommand(p: Plan, s: Stream)
    requires !(s.first && p.interrupts(s.waits))
    requires s.pending != [] && !s.pending[0].FatalError? && !s.pending[0].SingleTuple?
    ensures FutureOf(p, s) == AfterCommand(p, Taken(s), s.pending[0])
  {
  }

  lemma ClosingAtCommand(p: Plan, s: Stream)
    requires s.first && !p.interrupts(s.waits)
    requires s.pending != [] && !s.pending[0].FatalError? && !s.pending[0].SingleTuple?
    ensures var s' := Counted(Taken(s), s.pending[0]);
      Closing(p, s) == if s.pending[0].TuplesOk? then Closing(p, s') else Ended(s')
  {
    hide SetCache, FutureOf, AfterCommand;
  }

  /** What a whole bind will deliver, starting from the log of commands sent before it. */
  function BindFuture(p: Plan, log: seq<Sent>, cache: Cache, waits: nat, busy: bool): Future {
    var s := Stream(log, 0, [], true, cache, waits, 0, busy);
    if p.groups == 0 then Ended(s) else FutureOf(p, SendNext(p, s))
  }

  /** Once the driver has looked for the first row, is there anything left to read? */
  predicate Leaves(f: Future) {
    f.rows != [] || f.end.Failed? || f.busy
  }

  // ----- The list cursor -----

  /** Between calls a failure is never next: the driver has already looked at the row before it. */
  predicate Settled(f: Future) {
    f.rows == [] ==> f.end.Finished?
  }

  /** What is left after the first `k` rows. */
  function Dropped(f: Future, k: nat): Future
    requires k <= |f.rows|
  {
    f.(rows := f.rows[k..])
  }

  /** Fetching `n` rows, all of them if `n` is negative. A chunk that would run into a failure, or
      end right before one, is lost: the error is reported in its place. */
  function Fetched(f: Future, n: int): (Result<seq<Option<PGresult>>, Error>, Future)
    requires Settled(f)
  {
    if n == 0 then
      (Ok([]), f)
    else if f.end.Failed? && (n < 0 || |f.rows| <= n) then
      (Err(f.end.error), f.end.resume)
    else
      var k := if n < 0 then |f.rows| else Min(n, |f.rows|);
      (Ok(f.rows[..k]), Dropped(f, k))
  }

  lemma DroppedNone(f: Future)
    ensures Dropped(f, 0) == f
  {
  }

  lemma DroppedOne(f: Future, k: nat)
    requires k <= |f.rows|
    ensures var d := Dropped(f, k);
      && |d.rows| == |f.rows| - k && d.end == f.end
      && (k < |f.rows| ==>
            && d.rows[0] == f.rows[k] && f.rows[..k + 1] == f.rows[..k] + [f.rows[k]]
            && d.(rows := d.rows[1..]) == Dropped(f, k + 1))
  {
    if k < |f.rows| {
      assert f.rows[k..][1..] == f.rows[k + 1..];
    }
  }

  lemma FetchedFailure(f: Future, n: int)
    requires Settled(f) && f.end.Failed? && n != 0 && (n < 0 || |f.rows| <= n)
    ensures Fetched(f, n) == (Err(f.end.error), f.end.resume)
  {
  }

  lemma FetchedChunk(f: Future, n: int, k: nat)
    requires Settled(f) && n != 0 && k <= |f.rows| && (n > 0 ==> k <= n)
    requires k == n || (k == |f.rows| && f.end.Finished?)
    requires k == |f.rows| ==> f.end.Finished?
    ensures Fetched(f, n) == (Ok(f.rows[..k]), Dropped(f, k))
  {
  }
}
