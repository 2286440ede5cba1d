/** The reference the stream is compared with: the statements a server executes, and their rows. */
module Statements {
  import opened Base
  import opened Libpq
  import opened ResultFuture
  import opened ResultImpl
  import opened ResultRuns
  import opened ServerValues
  import opened StreamFacts

  /** One executed statement: a query with its rows, a command without any, or an empty query. */
  datatype Statement =
    | Query(fields: seq<Field>, rows: seq<Row>, tuples: nat)
    | Action(tuples: nat)
    | Nothing

  /** The results of a query's rows in single-row mode. */
  function Singles(fields: seq<Field>, rows: seq<Row>): (rs: seq<PGresult>)
    ensures |rs| == |rows|
  {
    seq(|rows|, k requires 0 <= k < |rows| => SingleTuple(fields, rows[k]))
  }

  /** How the server reports a statement. */
  function Wire(st: Statement): seq<PGresult> {
    match st
    case Query(fields, rows, tuples) => Singles(fields, rows) + [TuplesOk(tuples)]
    case Action(tuples) => [CommandOk(tuples)]
    case Nothing => [EmptyQuery]
  }

  function WireAll(sts: seq<Statement>): seq<PGresult> {
    if sts == [] then [] else Wire(sts[0]) + WireAll(sts[1..])
  }

  function Somes(rs: seq<PGresult>): Chunk {
    seq(|rs|, k requires 0 <= k < |rs| => Some(rs[k]))
  }

  function RowsOf(st: Statement): Chunk {
    if st.Query? then Somes(Singles(st.fields, st.rows)) else []
  }

  /** The rows of all statements, in order. */
  function AllRows(sts: seq<Statement>): Chunk {
    if sts == [] then [] else RowsOf(sts[0]) + AllRows(sts[1..])
  }

  function TuplesOf(st: Statement): nat {
    if st.Nothing? then 0 else st.tuples
  }

  function AllTuplesOf(sts: seq<Statement>): nat {
    if sts == [] then 0 else TuplesOf(sts[0]) + AllTuplesOf(sts[1..])
  }

  /** Only a query with at least one row and one column shows its schema to the driver. */
  predicate Shown(st: Statement) {
    st.Query? && st.rows != [] && st.fields != []
  }

  predicate SameFields(a: seq<Field>, b: seq<Field>) {
    Names(a) == Names(b) && Oids(a) == Oids(b)
  }

  predicate Matches(c: Cache, st: Statement) {
    Shown(st) && c.initialized ==> c.names == Names(st.fields) && c.oids == Oids(st.fields)
  }

  function CacheAfter(c: Cache, st: Statement): Cache {
    if Shown(st) && SetCache(c, st.fields, 0).Ok? then SetCache(c, st.fields, 0).value else c
  }

  /** Statement after statement, the schema shown is the one of the cache. */
  predicate AllMatch(c: Cache, sts: seq<Statement>)
    decreases |sts|
  {
    sts == [] || (Matches(c, sts[0]) && AllMatch(CacheAfter(c, sts[0]), sts[1..]))
  }

  // ----- One statement -----

  /** Rows of a statement whose first row was already checked. */
  lemma {:induction false} MoreRows(p: Plan, s: Stream, fields: seq<Field>, rows: seq<Row>, rest: seq<PGresult>)
    requires !s.first && s.pending == Singles(fields, rows) + rest
    ensures var f := FutureOf(p, s.(pending := rest));
      FutureOf(p, s) == f.(rows := Somes(Singles(fields, rows)) + f.rows)
    decreases |rows|
  {
    if rows == [] {
      assert s.pending == rest;
      var f := FutureOf(p, s.(pending := rest));
      assert Somes(Singles(fields, rows)) + f.rows == f.rows;
    } else {
      FutureAtRow(p, s);
      assert s.pending[1..] == Singles(fields, rows[1..]) + rest;
      MoreRows(p, Taken(s), fields, rows[1..], rest);
      assert Taken(s).(pending := rest) == s.(pending := rest);
      assert Somes(Singles(fields, rows)) == [Some(s.pending[0])] + Somes(Singles(fields, rows[1..]));
    }
  }

  function Terminal(st: Statement): PGresult {
    match st
    case Query(_, _, tuples) => TuplesOk(tuples)
    case Action(tuples) => CommandOk(tuples)
    case Nothing => EmptyQuery
  }

  /** The stream when only the end of the statement is left to act on. */
  function AtTerminal(s: Stream, st: Statement, rest: seq<PGresult>): Stream {
    s.(pending := rest, first := false, waits := s.waits + 1, cache := CacheAfter(s.cache, st))
  }

  /** A statement whose schema matches contributes exactly its rows; one whose schema does not, fails at once. */
  lemma OneStatement(p: Plan, s: Stream, st: Statement, rest: seq<PGresult>)
    requires s.first && !p.interrupts(s.waits) && CacheOk(s.cache) && s.pending == Wire(st) + rest
    ensures Matches(s.cache, st) ==>
      var f := AfterCommand(p, AtTerminal(s, st, rest), Terminal(st));
      FutureOf(p, s) == f.(rows := RowsOf(st) + f.rows)
    ensures !Matches(s.cache, st) ==>
      var f := FutureOf(p, s);
      f.rows == [] && f.end.Failed? && f.end.error in {NamesDiffer, TypesDiffer} && f.log == s.log
  {
    if st.Query? && st.rows != [] {
      QueryWithRows(p, s, st, rest);
    } else {
      assert Wire(st) == [Terminal(st)];
      assert s.pending[1..] == rest;
      FutureAtCommand(p, s);
      assert RowsOf(st) == [];
      var f := FutureOf(p, s);
      assert [] + f.rows == f.rows;
    }
  }

  lemma QueryWithRows(p: Plan, s: Stream, st: Statement, rest: seq<PGresult>)
    requires s.first && !p.interrupts(s.waits) && CacheOk(s.cache) && s.pending == Wire(st) + rest
    requires st.Query? && st.rows != []
    ensures Matches(s.cache, st) ==>
      var f := AfterCommand(p, AtTerminal(s, st, rest), Terminal(st));
      FutureOf(p, s) == f.(rows := RowsOf(st) + f.rows)
    ensures !Matches(s.cache, st) ==>
      var f := FutureOf(p, s);
      f.rows == [] && f.end.Failed? && f.end.error in {NamesDiffer, TypesDiffer} && f.log == s.log
  {
    hide FutureOf, AfterCommand, SetCache, Matches, CacheAfter, CacheOk;
    var more := st.rows[1..];
    assert s.pending[0] == SingleTuple(st.fields, st.rows[0]);
    assert s.pending[1..] == Singles(st.fields, more) + ([TuplesOk(st.tuples)] + rest);
    FutureAtRow(p, s);
    FirstRowSets(s.cache, st);
    if Matches(s.cache, st) {
      RestOfQuery(p, Taken(s).(cache := CacheAfter(s.cache, st)), st.(rows := more), rest);
      var f := AfterCommand(p, AtTerminal(s, st, rest), Terminal(st));
      var x, xs := [Some(s.pending[0])], Somes(Singles(st.fields, more));
      assert RowsOf(st) == x + xs;
      assert (x + xs) + f.rows == x + (xs + f.rows);
    }
  }

  lemma RestOfQuery(p: Plan, s: Stream, st: Statement, rest: seq<PGresult>)
    requires st.Query? && !s.first && s.pending == Singles(st.fields, st.rows) + ([TuplesOk(st.tuples)] + rest)
    ensures var f := AfterCommand(p, s.(pending := rest), TuplesOk(st.tuples));
      FutureOf(p, s) == f.(rows := RowsOf(st) + f.rows)
  {
    var end := [TuplesOk(st.tuples)] + rest;
    MoreRows(p, s, st.fields, st.rows, end);
    FutureAtCommand(p, s.(pending := end));
    assert Taken(s.(pending := end)) == s.(pending := rest);
  }

  lemma FirstRowSets(c: Cache, st: Statement)
    requires CacheOk(c) && st.Query? && st.rows != []
    ensures var set_ := SetCache(c, st.fields, 0);
      if Matches(c, st) then set_ == Ok(CacheAfter(c, st)) else set_.Err? && set_.error in {NamesDiffer, TypesDiffer}
  {
    SetCacheOk(c, st.fields, 0);
  }

  /** The future of a statement that fails with an error of the server after some rows: the rows, the error,
      and one phantom row should the caller ask for more. Nothing further is sent. */
  function FailedAfter(s: Stream, rows: Chunk, message: string): Future {
    Future(rows, Failed(ServerError(message), Future([None], Finished, s.log, s.affected, false)), s.log, s.affected, s.busy)
  }

  /** An error while rows are read, or before the first: whatever rows came before it are delivered. */
  lemma FailingStatement(p: Plan, s: Stream, fields: seq<Field>, rows: seq<Row>, message: string)
    requires s.first && !p.interrupts(s.waits) && CacheOk(s.cache)
    requires s.pending == Singles(fields, rows) + [FatalError(message)]
    ensures Matches(s.cache, Query(fields, rows, 0)) ==>
      FutureOf(p, s) == FailedAfter(s, Somes(Singles(fields, rows)), message)
    ensures !Matches(s.cache, Query(fields, rows, 0)) ==>
      FutureOf(p, s).end.Failed? && FutureOf(p, s).end.error in {NamesDiffer, TypesDiffer}
  {
    hide FutureOf, SetCache, CacheAfter, CacheOk;
    var end := [FatalError(message)];
    if rows == [] {
      assert s.pending == end;
      ErrorAtEnd(p, s, message);
    } else {
      var st := Query(fields, rows, 0);
      assert s.pending[0] == SingleTuple(fields, rows[0]);
      assert s.pending[1..] == Singles(fields, rows[1..]) + end;
      FutureAtRow(p, s);
      FirstRowSets(s.cache, st);
      if Matches(s.cache, st) {
        var t := Taken(s).(cache := CacheAfter(s.cache, st));
        MoreRows(p, t, fields, rows[1..], end);
        ErrorAtEnd(p, t.(pending := end), message);
        assert Somes(Singles(fields, rows)) == [Some(s.pending[0])] + (Somes(Singles(fields, rows[1..])) + []);
      }
    }
  }

  lemma ErrorAtEnd(p: Plan, s: Stream, message: string)
    requires !(s.first && p.interrupts(s.waits)) && s.pending == [FatalError(message)]
    ensures FutureOf(p, s) == FailedAfter(s, [], message)
  {
    hide FutureOf;
    FutureAtError(p, s);
    FutureAtEnd(p, Taken(s));
    assert [None] + Ended(Taken(Taken(s))).rows == [None];
  }

  // ----- Immediate queries: several statements in one stream -----

  function AfterAll(s: Stream, sts: seq<Statement>, tail: seq<PGresult>): Stream
    decreases |sts|
  {
    if sts == [] then s.(pending := tail)
    else AfterAll(Counted(AtTerminal(s, sts[0], tail), Terminal(sts[0])), sts[1..], tail)
  }

  ghost predicate Uninterrupted(p: Plan) {
    forall w :: !p.interrupts(w)
  }

  /** A list of statements contributes the rows of all of them, in order, as long as their schemas agree. */
  lemma {:induction false} ImmediateStatements(p: Plan, s: Stream, sts: seq<Statement>, tail: seq<PGresult>)
    requires p.immediate && Uninterrupted(p) && s.first && CacheOk(s.cache) && s.pending == WireAll(sts) + tail
    ensures AllMatch(s.cache, sts) ==>
      var f := FutureOf(p, AfterAll(s, sts, tail));
      FutureOf(p, s) == f.(rows := AllRows(sts) + f.rows)
    ensures !AllMatch(s.cache, sts) ==>
      FutureOf(p, s).end.Failed? && FutureOf(p, s).end.error in {NamesDiffer, TypesDiffer}
    decreases |sts|
  {
    hide FutureOf, CacheOk, CacheAfter, Matches, Wire, RowsOf;
    if sts == [] {
      assert s.pending == tail;
      var f := FutureOf(p, AfterAll(s, sts, tail));
      assert AllRows(sts) + f.rows == f.rows;
    } else {
      var st, rest := sts[0], WireAll(sts[1..]) + tail;
      assert s.pending == Wire(st) + rest;
      OneStatement(p, s, st, rest);
      if Matches(s.cache, st) {
        CacheAfterOk(s.cache, st);
        var s' := Counted(AtTerminal(s, st, rest), Terminal(st));
        ImmediateStatements(p, s', sts[1..], tail);
        AfterAllPending(s', Counted(AtTerminal(s, st, tail), Terminal(st)), sts[1..], tail);
        if AllMatch(s.cache, sts) {
          var f := FutureOf(p, AfterAll(s, sts, tail));
          assert RowsOf(st) + (AllRows(sts[1..]) + f.rows) == (RowsOf(st) + AllRows(sts[1..])) + f.rows;
        }
      }
    }
  }

  lemma CacheAfterOk(c: Cache, st: Statement)
    requires CacheOk(c)
    ensures CacheOk(CacheAfter(c, st))
  {
    if Shown(st) {
      SetCacheOk(c, st.fields, 0);
    }
  }

  lemma {:induction false} AfterAllPending(a: Stream, b: Stream, sts: seq<Statement>, tail: seq<PGresult>)
    requires a.(pending := tail) == b.(pending := tail)
    ensures AfterAll(a, sts, tail) == AfterAll(b, sts, tail)
    decreases |sts|
  {
  }

  /** All the schemas shown are the same. */
  predicate OneSchema(sts: seq<Statement>) {
    forall i, j :: 0 <= i < |sts| && 0 <= j < |sts| && Shown(sts[i]) && Shown(sts[j]) ==>
      SameFields(sts[i].fields, sts[j].fields)
  }

  predicate AllLike(c: Cache, sts: seq<Statement>) {
    forall i :: 0 <= i < |sts| && Shown(sts[i]) ==> c.names == Names(sts[i].fields) && c.oids == Oids(sts[i].fields)
  }

  lemma {:induction false} MatchingIsAllLike(c: Cache, sts: seq<Statement>)
    requires c.initialized
    ensures AllMatch(c, sts) <==> AllLike(c, sts)
    decreases |sts|
  {
    if sts != [] {
      assert sts == [sts[0]] + sts[1..];
      if Matches(c, sts[0]) {
        assert CacheAfter(c, sts[0]).names == c.names && CacheAfter(c, sts[0]).oids == c.oids;
        assert CacheAfter(c, sts[0]).initialized;
        MatchingIsAllLike(CacheAfter(c, sts[0]), sts[1..]);
      }
    }
  }

  /** Starting from nothing, the check that goes row by row amounts to comparing every pair of schemas. */
  lemma {:induction false} MatchingIsOneSchema(nparams: nat, sts: seq<Statement>)
    ensures AllMatch(EMPTY_CACHE.(nparams := nparams), sts) <==> OneSchema(sts)
    decreases |sts|
  {
    var c := EMPTY_CACHE.(nparams := nparams);
    if sts != [] {
      assert sts == [sts[0]] + sts[1..];
      if Shown(sts[0]) {
        var c' := CacheAfter(c, sts[0]);
        assert c'.initialized && c'.names == Names(sts[0].fields) && c'.oids == Oids(sts[0].fields);
        MatchingIsAllLike(c', sts[1..]);
      } else {
        MatchingIsOneSchema(nparams, sts[1..]);
      }
    }
  }

  lemma {:induction false} AfterAllTotals(s: Stream, sts: seq<Statement>, tail: seq<PGresult>)
    requires s.first
    ensures var t := AfterAll(s, sts, tail);
      t.pending == tail && t.first && t.log == s.log && t.affected == s.affected + AllTuplesOf(sts)
    decreases |sts|
  {
    if sts != [] {
      AfterAllTotals(Counted(AtTerminal(s, sts[0], tail), Terminal(sts[0])), sts[1..], tail);
    }
  }

  /** An immediate query, sent over a connection that was drained. */
  predicate ImmediatePlan(p: Plan, log: seq<Sent>, response: seq<PGresult>) {
    p.immediate && p.groups == 1 && p.respond(log + [Simple(p.sql)]) == response
  }

  /** An immediate query of several statements delivers the rows of all of them, in order, as one list,
      if and only if all schemas shown agree; a query without rows never shows its schema. */
  lemma ImmediateQuery(p: Plan, log: seq<Sent>, sts: seq<Statement>, waits: nat, busy: bool)
    requires ImmediatePlan(p, log, WireAll(sts)) && Uninterrupted(p)
    ensures var f := BindFuture(p, log, EMPTY_CACHE, waits, busy);
      && (f.end.Finished? <==> OneSchema(sts))
      && (f.end.Finished? ==> f == Future(AllRows(sts), Finished, log + [Simple(p.sql)], AllTuplesOf(sts), false))
      && (f.end.Failed? ==> f.end.error in {NamesDiffer, TypesDiffer})
  {
    var s := SendNext(p, Stream(log, 0, [], true, EMPTY_CACHE, waits, 0, busy));
    assert s.pending == WireAll(sts) + [];
    ImmediateStatements(p, s, sts, []);
    AfterAllTotals(s, sts, []);
    FutureAtEnd(p, AfterAll(s, sts, []));
    MatchingIsOneSchema(0, sts);
  }

  /** When a statement fails, before its first row or after any number of rows, the rows before the error are
      announced and the error follows them, provided the schemas shown up to there agree. Asking on after the
      error yields one phantom row in which every column is missing, then the end. */
  lemma ImmediateFailure(p: Plan, log: seq<Sent>, sts: seq<Statement>, fields: seq<Field>, rows: seq<Row>,
                         message: string, waits: nat, busy: bool)
    requires ImmediatePlan(p, log, WireAll(sts) + (Singles(fields, rows) + [FatalError(message)])) && Uninterrupted(p)
    ensures var f := BindFuture(p, log, EMPTY_CACHE, waits, busy); var seen := sts + [Query(fields, rows, 0)];
      && f.end.Failed?
      && (f.end.error == ServerError(message) <==> OneSchema(seen))
      && (f.end.error != ServerError(message) ==> f.end.error in {NamesDiffer, TypesDiffer})
      && (OneSchema(seen) ==>
            && f.rows == AllRows(sts) + Somes(Singles(fields, rows)) && f.log == log + [Simple(p.sql)]
            && f.end.resume == Future([None], Finished, f.log, AllTuplesOf(sts), false))
  {
    hide FutureOf, OneSchema, AllMatch, Matches, SetCache, AllRows, WireAll;
    var s := SendNext(p, Stream(log, 0, [], true, EMPTY_CACHE, waits, 0, busy));
    var q, tail := Query(fields, rows, 0), Singles(fields, rows) + [FatalError(message)];
    ImmediateStatements(p, s, sts, tail);
    AfterAllTotals(s, sts, tail);
    AllMatchAppend(s, sts, q, tail);
    MatchingIsOneSchema(0, sts + [q]);
    FailingStatement(p, AfterAll(s, sts, tail), fields, rows, message);
  }

  lemma {:induction false} AllMatchAppend(s: Stream, sts: seq<Statement>, st: Statement, tail: seq<PGresult>)
    requires CacheOk(s.cache)
    ensures var c := AfterAll(s, sts, tail).cache;
      CacheOk(c) && (AllMatch(s.cache, sts + [st]) <==> AllMatch(s.cache, sts) && Matches(c, st))
    decreases |sts|
  {
    hide SetCache, Matches, CacheAfter, CacheOk;
    if sts == [] {
      assert [st][1..] == [];
      assert AllMatch(CacheAfter(s.cache, st), [st][1..]);
    } else {
      CacheAfterOk(s.cache, sts[0]);
      assert (sts + [st])[1..] == sts[1..] + [st];
      AllMatchAppend(Counted(AtTerminal(s, sts[0], tail), Terminal(sts[0])), sts[1..], st, tail);
    }
  }

  // ----- Prepared queries: one statement for each group of parameters -----

  /** What the server answers to group `g`, having seen `log` before the first. */
  function Response(p: Plan, log: seq<Sent>, g: nat): seq<PGresult> {
    p.respond(log + Commands(p, 0, g + 1))
  }

  /** The server completes `sts[g]` for parameter group `g`, whatever it sends afterwards. */
  ghost predicate Completes(p: Plan, log: seq<Sent>, sts: seq<Statement>) {
    !p.immediate && forall g :: 0 <= g < |sts| ==> Wire(sts[g]) <= Response(p, log, g)
  }

  /** It does so for all groups, and sends nothing afterwards. */
  ghost predicate Executes(p: Plan, log: seq<Sent>, sts: seq<Statement>) {
    !p.immediate && p.groups == |sts| && forall g :: 0 <= g < |sts| ==> Response(p, log, g) == Wire(sts[g])
  }

  /** Each statement shows the schema the server described when it prepared the query. */
  predicate AsDescribed(c: Cache, sts: seq<Statement>) {
    CacheOk(c) && forall g :: 0 <= g < |sts| && Shown(sts[g]) ==>
      c.initialized && c.names == Names(sts[g].fields) && c.oids == Oids(sts[g].fields)
  }

  lemma {:induction false} AllAppend(sts: seq<Statement>, st: Statement)
    ensures AllRows(sts + [st]) == AllRows(sts) + RowsOf(st)
    ensures AllTuplesOf(sts + [st]) == AllTuplesOf(sts) + TuplesOf(st)
    decreases |sts|
  {
    hide RowsOf, TuplesOf;
    if sts == [] {
      assert [st][1..] == [];
      assert AllRows([st]) == RowsOf(st) + AllRows([st][1..]);
    } else {
      assert (sts + [st])[1..] == sts[1..] + [st];
      AllAppend(sts[1..], st);
    }
  }

  /** The stream when group `|sts|` was just sent, the groups before it having executed `sts`. */
  function AtGroup(p: Plan, log: seq<Sent>, sts: seq<Statement>, cache: Cache, waits: nat): Stream {
    Stream(log + Commands(p, 0, |sts| + 1), |sts|, Response(p, log, |sts|), true, cache, waits + |sts|, AllTuplesOf(sts), true)
  }

  /** Groups that complete contribute their rows in order, up to any group with a successor. What the server
      sends after completing them, even an error, is discarded before the next group is sent. */
  lemma {:induction false} PreparedGroups(p: Plan, log: seq<Sent>, sts: seq<Statement>, cache: Cache, waits: nat, busy: bool)
    requires Completes(p, log, sts) && |sts| < p.groups && Uninterrupted(p) && AsDescribed(cache, sts)
    ensures var f := FutureOf(p, AtGroup(p, log, sts, cache, waits));
      BindFuture(p, log, cache, waits, busy) == f.(rows := AllRows(sts) + f.rows)
    decreases |sts|
  {
    hide FutureOf, RowsOf, Wire, Shown, CacheOk, SetCache, AllRows, AllTuplesOf, Response;
    if sts == [] {
      BindStarts(p, log, cache, waits, busy);
    } else {
      var k := |sts| - 1;
      var front, st := sts[..k], sts[k];
      PreparedGroups(p, log, front, cache, waits, busy);
      GroupStep(p, log, front, st, cache, waits);
      AllAppend(front, st);
      assert front + [st] == sts;
      var f := FutureOf(p, AtGroup(p, log, sts, cache, waits));
      assert AllRows(front) + (RowsOf(st) + f.rows) == (AllRows(front) + RowsOf(st)) + f.rows;
    }
  }

  lemma BindStarts(p: Plan, log: seq<Sent>, cache: Cache, waits: nat, busy: bool)
    requires p.groups > 0
    ensures var f := FutureOf(p, AtGroup(p, log, [], cache, waits));
      BindFuture(p, log, cache, waits, busy) == f && f.(rows := AllRows([]) + f.rows) == f
  {
    assert log + Commands(p, 0, 1) == log + [Command(p, 0)];
    var f := BindFuture(p, log, cache, waits, busy);
    assert [] + f.rows == f.rows;
  }

  lemma GroupStep(p: Plan, log: seq<Sent>, sts: seq<Statement>, st: Statement, cache: Cache, waits: nat)
    requires !p.immediate && |sts| + 1 < p.groups && Uninterrupted(p) && AsDescribed(cache, [st])
    requires Wire(st) <= Response(p, log, |sts|)
    ensures var f := FutureOf(p, AtGroup(p, log, sts + [st], cache, waits));
      FutureOf(p, AtGroup(p, log, sts, cache, waits)) == f.(rows := RowsOf(st) + f.rows)
  {
    hide FutureOf, RowsOf, Wire, CacheOk, SetCache;
    var s := AtGroup(p, log, sts, cache, waits);
    var rest := s.pending[|Wire(st)|..];
    assert s.pending == Wire(st) + rest && [st][0] == st;
    OneStatement(p, s, st, rest);
    DescribedStays(cache, st);
    AllAppend(sts, st);
    NextLog(p, log, |sts|);
    var t := Counted(AtTerminal(s, st, rest), Terminal(st));
    assert SendNext(p, t) == AtGroup(p, log, sts + [st], cache, waits);
  }

  lemma NextLog(p: Plan, log: seq<Sent>, g: nat)
    ensures log + Commands(p, 0, g + 2) == log + Commands(p, 0, g + 1) + [Command(p, g + 1)]
  {
  }

  lemma DescribedStays(c: Cache, st: Statement)
    requires CacheOk(c) && (Shown(st) ==> c.initialized && c.names == Names(st.fields) && c.oids == Oids(st.fields))
    ensures Matches(c, st) && CacheAfter(c, st) == c
  {
  }

  /** A bind delivers the rows of all parameter groups, in order, and sends each group exactly once. */
  lemma PreparedQuery(p: Plan, log: seq<Sent>, sts: seq<Statement>, cache: Cache, waits: nat, busy: bool)
    requires Executes(p, log, sts) && Uninterrupted(p) && AsDescribed(cache, sts)
    ensures BindFuture(p, log, cache, waits, busy) ==
      Future(AllRows(sts), Finished, log + Commands(p, 0, p.groups), AllTuplesOf(sts),
             if sts == [] then busy else !sts[|sts| - 1].Query?)
    ensures var sent := BindFuture(p, log, cache, waits, busy).log;
      |sent| == |log| + |sts| && forall k :: |log| <= k < |sent| ==> Carries(sent[k], p.statement, p.params, k - |log|)
  {
    hide FutureOf, BindFuture, SetCache, Response, AllRows, AllTuplesOf, RowsOf, TuplesOf, Wire, CacheOk, Shown, Commands;
    CommandsOfAll(p, log);
    if p.groups == 0 {
      NothingToSend(p, log, cache, waits, busy);
    } else {
      var k := |sts| - 1;
      PreparedGroups(p, log, sts[..k], cache, waits, busy);
      LastGroup(p, AtGroup(p, log, sts[..k], cache, waits), sts[k]);
      AllAppend(sts[..k], sts[k]);
      assert sts[..k] + [sts[k]] == sts;
    }
  }

  lemma CommandsOfAll(p: Plan, log: seq<Sent>)
    requires !p.immediate
    ensures var sent := log + Commands(p, 0, p.groups);
      |sent| == |log| + p.groups && forall k :: |log| <= k < |sent| ==> Carries(sent[k], p.statement, p.params, k - |log|)
  {
    hide Carries, Command;
    var sent := log + Commands(p, 0, p.groups);
    forall k | |log| <= k < |sent|
      ensures Carries(sent[k], p.statement, p.params, k - |log|)
    {
      assert sent[k] == Command(p, k - |log|);
      CommandCarries(p, k - |log|);
    }
  }

  lemma NothingToSend(p: Plan, log: seq<Sent>, cache: Cache, waits: nat, busy: bool)
    requires p.groups == 0
    ensures BindFuture(p, log, cache, waits, busy) ==
      Future(AllRows([]), Finished, log + Commands(p, 0, 0), AllTuplesOf([]), busy)
  {
    assert log + Commands(p, 0, 0) == log;
  }

  lemma LastGroup(p: Plan, s: Stream, st: Statement)
    requires !p.immediate && s.group + 1 == p.groups && Uninterrupted(p) && s.first && s.busy && AsDescribed(s.cache, [st])
    requires s.pending == Wire(st)
    ensures FutureOf(p, s) == Future(RowsOf(st), Finished, s.log, s.affected + TuplesOf(st), !st.Query?)
  {
    hide FutureOf, Closing, SetCache;
    assert s.pending == Wire(st) + [] && [st][0] == st;
    OneStatement(p, s, st, []);
    DescribedStays(s.cache, st);
    FutureAtEnd(p, Counted(AtTerminal(s, st, []), Terminal(st)));
    assert RowsOf(st) + [] == RowsOf(st);
  }

  /** The whole of it: a prepared query bound to any number of parameter groups and fetched in chunks of any
      sizes delivers the rows of the groups, in order, as one list. */
  lemma PreparedInChunks(p: Plan, log: seq<Sent>, sts: seq<Statement>, cache: Cache, waits: nat, busy: bool, ns: seq<int>)
    requires Executes(p, log, sts) && Uninterrupted(p) && AsDescribed(cache, sts)
    ensures Settled(BindFuture(p, log, cache, waits, busy))
    ensures var (outs, last) := FetchAll(BindFuture(p, log, cache, waits, busy), ns);
      && |outs| == |ns|
      && Delivered(outs) + last.rows == AllRows(sts)
      && (forall i :: 0 <= i < |ns| ==>
            AsPromised(Finished, ns[i], |AllRows(sts)| - |Delivered(outs[..i])|, outs[i]))
  {
    hide BindFuture, Executes, AsDescribed, AllRows, AllTuplesOf, FetchAll, Delivered, AsPromised, Commands, Uninterrupted;
    PreparedQuery(p, log, sts, cache, waits, busy);
    InChunks(BindFuture(p, log, cache, waits, busy), ns);
  }

  /** A run over a stream that does not fail never stops early. */
  lemma InChunks(f: Future, ns: seq<int>)
    requires f.end.Finished?
    ensures var (outs, last) := FetchAll(f, ns);
      && |outs| == |ns|
      && Delivered(outs) + last.rows == f.rows
      && (forall i :: 0 <= i < |ns| ==> AsPromised(Finished, ns[i], |f.rows| - |Delivered(outs[..i])|, outs[i]))
  {
    hide FetchAll, Delivered;
    ChunksAreTheRows(f, ns);
    var outs := FetchAll(f, ns).0;
    forall i | 0 <= i < |outs|
      ensures AsPromised(Finished, ns[i], |f.rows| - |Delivered(outs[..i])|, outs[i])
    {
      ChunkSizes(f, ns, i);
    }
  }

  // ----- Prepared queries: errors -----

  /** An error of the server in any group, before its first row or after any number of rows, follows the rows of
      the groups before it and the rows of its own. No later group is sent, and asking on yields one phantom row. */
  lemma PreparedFailure(p: Plan, log: seq<Sent>, sts: seq<Statement>, fields: seq<Field>, rows: seq<Row>,
                        message: string, cache: Cache, waits: nat, busy: bool)
    requires Completes(p, log, sts) && |sts| < p.groups && Uninterrupted(p)
    requires AsDescribed(cache, sts) && AsDescribed(cache, [Query(fields, rows, 0)])
    requires Response(p, log, |sts|) == Singles(fields, rows) + [FatalError(message)]
    ensures var sent := log + Commands(p, 0, |sts| + 1);
      BindFuture(p, log, cache, waits, busy) ==
        Future(AllRows(sts) + Somes(Singles(fields, rows)),
               Failed(ServerError(message), Future([None], Finished, sent, AllTuplesOf(sts), false)),
               sent, AllTuplesOf(sts), true)
  {
    hide FutureOf, BindFuture, SetCache, Response, AllRows, AllTuplesOf;
    PreparedGroups(p, log, sts, cache, waits, busy);
    assert [Query(fields, rows, 0)][0] == Query(fields, rows, 0);
    DescribedStays(cache, Query(fields, rows, 0));
    FailingStatement(p, AtGroup(p, log, sts, cache, waits), fields, rows, message);
  }

  /** An error the server reports after a statement completed, as for a constraint checked at commit, makes a
      difference to the caller of a prepared query if and only if the statement is a query and its group the last. */
  lemma LateError(p: Plan, s: Stream, st: Statement, message: string)
    requires !p.immediate && s.group < p.groups && Uninterrupted(p) && s.first && AsDescribed(s.cache, [st])
    requires s.pending == Wire(st) + [FatalError(message)]
    ensures FutureOf(p, s) != FutureOf(p, s.(pending := Wire(st))) <==> st.Query? && s.group + 1 == p.groups
    ensures st.Query? && s.group + 1 == p.groups ==>
      var f := FutureOf(p, s);
      && f.rows == RowsOf(st) && f.log == s.log && f.affected == s.affected + TuplesOf(st)
      && f.end.Failed? && f.end.error == ServerError(message)
      && f.end.resume.rows == [] && f.end.resume.end.Finished?
  {
    hide FutureOf, Closing, SetCache, RowsOf;
    var tail, s0 := [FatalError(message)], s.(pending := Wire(st));
    assert s0.pending == Wire(st) + [] && [st][0] == st;
    OneStatement(p, s, st, tail);
    OneStatement(p, s0, st, []);
    DescribedStays(s.cache, st);
    var t, t0 := Counted(AtTerminal(s, st, tail), Terminal(st)), Counted(AtTerminal(s0, st, []), Terminal(st));
    FutureAtError(p, t);
    FutureAtEnd(p, t0);
    assert SendNext(p, t) == SendNext(p, t0);
    assert RowsOf(st) + [] == RowsOf(st);
  }

  /** Whole binds: of all the errors the server may report after the groups' statements completed, the caller
      sees the one after the last group, if that is a query, and no other. */
  lemma PreparedLateErrors(p: Plan, log: seq<Sent>, sts: seq<Statement>, errors: seq<Option<string>>,
                           cache: Cache, waits: nat, busy: bool)
    requires !p.immediate && p.groups == |sts| == |errors| > 0 && Uninterrupted(p) && AsDescribed(cache, sts)
    requires forall g :: 0 <= g < |sts| ==>
      Response(p, log, g) == Wire(sts[g]) + if errors[g].Some? then [FatalError(errors[g].value)] else []
    ensures var f := BindFuture(p, log, cache, waits, busy); var k := |sts| - 1;
      && f.rows == AllRows(sts) && f.log == log + Commands(p, 0, p.groups) && f.affected == AllTuplesOf(sts)
      && (f.end.Failed? <==> sts[k].Query? && errors[k].Some?)
      && (f.end.Failed? ==> f.end.error == ServerError(errors[k].value) && f.end.resume.rows == [])
  {
    hide FutureOf, BindFuture, SetCache, Response, AllRows, AllTuplesOf, RowsOf, CacheOk, Shown, Wire;
    var k := |sts| - 1;
    var s, st := AtGroup(p, log, sts[..k], cache, waits), sts[k];
    PreparedGroups(p, log, sts[..k], cache, waits, busy);
    assert s.(pending := Wire(st)).pending == Wire(st) + [];
    LastGroup(p, s.(pending := Wire(st)), st);
    if errors[k].Some? {
      LateError(p, s, st, errors[k].value);
    } else {
      assert s.pending == Wire(st);
    }
    AllAppend(sts[..k], st);
    assert sts[..k] + [st] == sts;
  }

  // ----- What the caller sees -----

  /** The frame of a query's rows: the columns have the names the server gave them, in order, and each cell shows
      the field of its own row and column as the type of that column demands. */
  lemma QueryIsShown(cache: Cache, fields: seq<Field>, rows: seq<Row>)
    requires CacheOk(cache) && Describes(cache, fields)
    requires forall k :: 0 <= k < |rows| ==> |rows[k]| == |fields|
    ensures var frame := FrameOf(cache, Somes(Singles(fields, rows)));
      && frame.nrow == |rows| && |frame.columns| == |frame.names| == |fields|
      && (forall j :: 0 <= j < |fields| ==> frame.names[j] == fields[j].name && |frame.columns[j]| == |rows|)
      && (forall j, k :: 0 <= j < |fields| && 0 <= k < |rows| ==>
            Shows(fields[j].oid, rows[k][j], frame.columns[j][k]))
  {
    hide Shows, FrameOf;
    var all := Somes(Singles(fields, rows));
    FrameIsFaithful(cache, all);
    forall j, k | 0 <= j < |fields| && 0 <= k < |rows|
      ensures Shows(fields[j].oid, rows[k][j], FrameOf(cache, all).columns[j][k])
    {
      assert FieldAt(all[k], j) == rows[k][j] && cache.oids[j] == fields[j].oid;
    }
  }
}
