/** Facts about every stream of results, whatever the server does: which rows are announced, and what is sent. */
module StreamFacts {
  import opened Base
  import opened Libpq
  import opened ResultFuture

  predicate AllTuples(rows: Chunk) {
    forall k :: 0 <= k < |rows| ==> rows[k].Some? && rows[k].value.SingleTuple?
  }

  /** The commands for groups `a` up to but not including `b`. */
  function Commands(p: Plan, a: nat, b: nat): seq<Sent>
    requires a <= b
  {
    seq(b - a, i requires 0 <= i < b - a => Command(p, a + i))
  }

  /** Every row announced is a real tuple of the server; only an error of the server can leave a phantom, a row
      read from no result, and at most one. */
  lemma {:induction false} RowsAreTuples(p: Plan, s: Stream)
    ensures AllTuples(FutureOf(p, s).rows)
    ensures var end := FutureOf(p, s).end;
      end.Failed? && end.error.ServerError? && end.resume.rows != [] ==>
        end.resume.rows[0] == None && AllTuples(end.resume.rows[1..])
    ensures var end := FutureOf(p, s).end;
      end.Failed? && !end.error.ServerError? ==> AllTuples(end.resume.rows)
    decreases GroupsLeft(p, s), |s.pending|
  {
    if s.first && p.interrupts(s.waits) {
      FutureAtInterrupt(p, s);
    } else if s.pending == [] {
      FutureAtEnd(p, s);
    } else if s.pending[0].FatalError? {
      FutureAtError(p, s);
      RowsAreTuples(p, Taken(s));
    } else if s.pending[0].SingleTuple? {
      FutureAtRow(p, s);
      RowsAreTuples(p, Taken(s));
      var set_ := if s.first then SetCache(s.cache, s.pending[0].fields, 0) else Ok(s.cache);
      if set_.Ok? {
        RowsAreTuples(p, Taken(s).(cache := set_.value));
      }
    } else {
      FutureAtCommand(p, s);
      var s' := Counted(Taken(s), s.pending[0]);
      if p.immediate {
        RowsAreTuples(p, s');
      } else if s'.group < p.groups {
        RowsAreTuples(p, SendNext(p, s'));
      } else {
        ClosingHasNoRows(p, s');
      }
    }
  }

  lemma {:induction false} ClosingHasNoRows(p: Plan, s: Stream)
    ensures Closing(p, s).rows == [] && Closing(p, s).log == s.log
    ensures Closing(p, s).end.Failed? ==> Closing(p, s).end.resume.rows == [] && Closing(p, s).end.resume.log == s.log
    decreases |s.pending|
  {
    if !p.interrupts(s.waits) && s.pending != [] && s.pending[0].TuplesOk? {
      ClosingHasNoRows(p, Counted(s.(waits := s.waits + 1, pending := s.pending[1..]), s.pending[0]));
    }
  }

  /** The first result that is not a row is an error: the command fails before it completes. */
  predicate ErrsFirst(rs: seq<PGresult>)
    decreases |rs|
  {
    rs != [] && (rs[0].FatalError? || (rs[0].SingleTuple? && ErrsFirst(rs[1..])))
  }

  /** The results in which the stream comes to its end: those of the last command sent. */
  function LastResponse(p: Plan, s: Stream): seq<PGresult> {
    var log := FutureOf(p, s).log;
    if log == s.log then s.pending else p.respond(log)
  }

  /** When the phantom exists, for every server: after an error of the server, unless the query was prepared
      and the error came after the completion of its last group. */
  lemma {:induction false} PhantomRow(p: Plan, s: Stream)
    ensures s.log <= FutureOf(p, s).log
    ensures var end := FutureOf(p, s).end;
      end.Failed? && end.error.ServerError? ==>
        (end.resume.rows != [] <==> p.immediate || ErrsFirst(LastResponse(p, s)))
    decreases GroupsLeft(p, s), |s.pending|
  {
    hide FutureOf, Closing;
    if s.first && p.interrupts(s.waits) {
      FutureAtInterrupt(p, s);
    } else if s.pending == [] {
      FutureAtEnd(p, s);
    } else if s.pending[0].FatalError? {
      FutureAtError(p, s);
    } else if s.pending[0].SingleTuple? {
      FutureAtRow(p, s);
      var set_ := if s.first then SetCache(s.cache, s.pending[0].fields, 0) else Ok(s.cache);
      if set_.Ok? {
        PhantomRow(p, Taken(s).(cache := set_.value));
      }
    } else {
      FutureAtCommand(p, s);
      var s' := Counted(Taken(s), s.pending[0]);
      if p.immediate {
        PhantomRow(p, s');
      } else if s'.group < p.groups {
        PhantomRow(p, SendNext(p, s'));
      } else {
        ClosingHasNoRows(p, s');
      }
    }
  }

  lemma CommandsFirst(p: Plan, a: nat, b: nat)
    requires a < b
    ensures Commands(p, a, b) == [Command(p, a)] + Commands(p, a + 1, b)
    ensures Commands(p, a, a) == []
  {
  }

  /** Whatever the server answers, each parameter group from the current one on is sent at most once and
      in order, and an immediate query is never sent again; nor does asking on after a failure change that. That no
      send is refused, and so every send finds the earlier results drained, is part of the contract of
      PqResultImpl.BindRow. */
  lemma {:induction false} SentInOrder(p: Plan, s: Stream) returns (sent: nat, resumed: nat)
    requires p.immediate || s.group < p.groups
    ensures !p.immediate ==> s.group < sent <= p.groups && s.group < resumed <= p.groups
    ensures FutureOf(p, s).log == s.log + After(p, s.group, sent)
    ensures var end := FutureOf(p, s).end; end.Failed? ==> end.resume.log == s.log + After(p, s.group, resumed)
    decreases GroupsLeft(p, s), |s.pending|
  {
    hide FutureOf, Closing, SetCache, After;
    sent, resumed := s.group + 1, s.group + 1;
    AfterNothing(p, s.group);
    assert s.log + [] == s.log;
    if s.first && p.interrupts(s.waits) {
      FutureAtInterrupt(p, s);
    } else if s.pending == [] {
      FutureAtEnd(p, s);
    } else if s.pending[0].FatalError? {
      FutureAtError(p, s);
      var onwards, _ := SentInOrder(p, Taken(s));
      resumed := onwards;
    } else if s.pending[0].SingleTuple? {
      FutureAtRow(p, s);
      var set_ := if s.first then SetCache(s.cache, s.pending[0].fields, 0) else Ok(s.cache);
      if set_.Ok? {
        sent, resumed := SentInOrder(p, Taken(s).(cache := set_.value));
      } else {
        var onwards, _ := SentInOrder(p, Taken(s));
        resumed := onwards;
      }
    } else {
      FutureAtCommand(p, s);
      var s' := Counted(Taken(s), s.pending[0]);
      if p.immediate {
        sent, resumed := SentInOrder(p, s');
        AfterImmediate(p, s.group, s'.group, sent);
        AfterImmediate(p, s.group, s'.group, resumed);
      } else if s'.group < p.groups {
        sent, resumed := SentInOrder(p, SendNext(p, s'));
        AfterOn(p, s.log, s'.group, sent);
        AfterOn(p, s.log, s'.group, resumed);
      } else {
        ClosingHasNoRows(p, s');
      }
    }
  }

  /** The commands for the groups after `g`, up to but not including `b`. */
  function After(p: Plan, g: nat, b: nat): seq<Sent> {
    if p.immediate || b <= g then [] else Commands(p, g + 1, b)
  }

  lemma AfterNothing(p: Plan, g: nat)
    ensures After(p, g, g + 1) == []
  {
  }

  lemma AfterImmediate(p: Plan, g: nat, h: nat, b: nat)
    requires p.immediate
    ensures After(p, g, b) == After(p, h, b) == []
  {
  }

  lemma AfterOn(p: Plan, log: seq<Sent>, g: nat, b: nat)
    requires !p.immediate && 0 < g < b
    ensures log + [Command(p, g)] + After(p, g, b) == log + After(p, g - 1, b)
  {
    CommandsFirst(p, g, b);
  }

  lemma BindSendsInOrder(p: Plan, log: seq<Sent>, cache: Cache, waits: nat, busy: bool) returns (sent: nat, resumed: nat)
    requires p.immediate ==> p.groups == 1
    ensures sent <= p.groups && resumed <= p.groups
    ensures BindFuture(p, log, cache, waits, busy).log == log + Commands(p, 0, sent)
    ensures var end := BindFuture(p, log, cache, waits, busy).end; end.Failed? ==> end.resume.log == log + Commands(p, 0, resumed)
  {
    hide FutureOf, Command;
    sent, resumed := 0, 0;
    if p.groups > 0 {
      var s := SendNext(p, Stream(log, 0, [], true, cache, waits, 0, busy));
      sent, resumed := SentInOrder(p, s);
      sent, resumed := if p.immediate then 1 else sent, if p.immediate then 1 else resumed;
      FirstAndAfter(p, log, sent);
      FirstAndAfter(p, log, resumed);
    } else {
      assert log + Commands(p, 0, 0) == log;
    }
  }

  lemma FirstAndAfter(p: Plan, log: seq<Sent>, b: nat)
    requires 0 < b && (p.immediate ==> b == 1)
    ensures log + [Command(p, 0)] + After(p, 0, if p.immediate then 0 else b) == log + Commands(p, 0, b)
    ensures p.immediate ==> forall c :: After(p, 0, c) == []
  {
    CommandsFirst(p, 0, b);
  }

  // ----- What the commands carry -----

  /** A prepared command that executes `statement` with the `g`-th element of each parameter vector. */
  predicate Carries(c: Sent, statement: Option<string>, params: Params, g: nat) {
    && c.Prepared? && c.statement == statement && |c.values| == |params|
    && forall i :: 0 <= i < |params| && g < |params[i]| ==> c.values[i] == params[i][g]
  }

  /** What was sent beyond `before` is one command for each of the first elements of the parameter vectors, in
      order, and at most as many as there are. */
  predicate CarriesInOrder(before: seq<Sent>, log: seq<Sent>, statement: Option<string>, params: Params) {
    && before <= log
    && |log| - |before| <= (if params == [] then 1 else |params[0]|)
    && forall k :: |before| <= k < |log| ==> Carries(log[k], statement, params, k - |before|)
  }

  lemma CommandsCarry(p: Plan, before: seq<Sent>, sent: nat)
    requires !p.immediate && sent <= p.groups == if p.params == [] then 1 else |p.params[0]|
    ensures CarriesInOrder(before, before + Commands(p, 0, sent), p.statement, p.params)
  {
    hide Carries, Command;
    var log := before + Commands(p, 0, sent);
    forall k | |before| <= k < |log|
      ensures Carries(log[k], p.statement, p.params, k - |before|)
    {
      assert log[k] == Command(p, k - |before|);
      CommandCarries(p, k - |before|);
    }
  }

  lemma CommandCarries(p: Plan, g: nat)
    requires !p.immediate
    ensures Carries(Command(p, g), p.statement, p.params, g)
  {
  }

  /** A part of the log carries what the whole does. */
  lemma PartCarries(before: seq<Sent>, log: seq<Sent>, part: seq<Sent>, statement: Option<string>, params: Params)
    requires CarriesInOrder(before, log, statement, params) && before <= part <= log
    ensures CarriesInOrder(before, part, statement, params)
  {
    hide Carries;
  }

  /** Whatever the server answers, the log of a prepared bind carries the groups in order, and so it does if the
      caller asks on after a failure. */
  lemma BindCarries(p: Plan, log: seq<Sent>, cache: Cache, waits: nat, busy: bool)
    requires !p.immediate && p.groups == if p.params == [] then 1 else |p.params[0]|
    ensures var f := BindFuture(p, log, cache, waits, busy);
      && CarriesInOrder(log, f.log, p.statement, p.params)
      && (f.end.Failed? ==> CarriesInOrder(log, f.end.resume.log, p.statement, p.params))
  {
    hide BindFuture, CarriesInOrder, Commands;
    var sent, resumed := BindSendsInOrder(p, log, cache, waits, busy);
    CommandsCarry(p, log, sent);
    CommandsCarry(p, log, resumed);
  }
}
