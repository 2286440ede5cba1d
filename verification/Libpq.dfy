/** The client library as the driver sees it: one connection with a queue of results still to be read.
    The server is an arbitrary function of everything sent so far, so that a statement about this
    model is a statement about every server. Follows the libpq chapter of the PostgreSQL manual,
    sections "Asynchronous Command Processing" and "Retrieving Query Results Row-by-Row". */
module Libpq {
  import opened Base

  datatype Field = Field(name: string, oid: nat)

  /** One row in text format; `None` is SQL NULL. */
  type Row = seq<Option<string>>

  /** The results single-row mode produces for ordinary commands. Column descriptions come with tuples. */
  datatype PGresult =
    | SingleTuple(fields: seq<Field>, row: Row)
    | TuplesOk(tuples: nat)
    | CommandOk(tuples: nat)
    | EmptyQuery
    | FatalError(message: string)
  {
    /** PQcmdTuples, as a number. */
    function CmdTuples(): nat {
      if TuplesOk? || CommandOk? then tuples else 0
    }

    /** PQfname and PQftype; commands have no columns. */
    function Fields(): seq<Field> {
      if SingleTuple? then fields else []
    }
  }

  /** A command on its way; a prepared one executes whatever the server holds as the unnamed statement. */
  datatype Sent = Simple(sql: string) | Prepared(statement: Option<string>, values: seq<Option<string>>)

  class PGconn {
    var pending: seq<PGresult>  // results not yet fetched
    var busy: bool              // a command was sent and the final NULL not yet fetched
    var log: seq<Sent>          // every command sent asynchronously
    ghost var sender: object?   // who sent the last command
    var statement: Option<string>  // the unnamed prepared statement; there is one for each connection
    var waits: nat              // how often the driver has waited for data
    var cancels: nat            // how often it has asked the server to cancel
    const respond: seq<Sent> -> seq<PGresult>           // the answer to the last command of a log
    const interrupts: nat -> bool                        // whether the user interrupts the n-th wait
    const canceled: seq<PGresult> -> seq<PGresult>       // what is left to read after a cancel request

    ghost predicate Valid()
      reads this
    {
      !busy ==> pending == []
    }

    constructor (respond: seq<Sent> -> seq<PGresult>, interrupts: nat -> bool, canceled: seq<PGresult> -> seq<PGresult>)
      ensures Valid() && !busy && sender == null && log == [] && waits == 0 && statement == None
      ensures this.respond == respond && this.interrupts == interrupts && this.canceled == canceled
    {
      pending, busy, log, waits, cancels := [], false, [], 0, 0;
      sender, statement := null, None;
      this.respond, this.interrupts, this.canceled := respond, interrupts, canceled;
    }

    /** PQgetResult. */
    method GetResult() returns (r: Option<PGresult>)
      requires Valid()
      modifies `pending, `busy
      ensures Valid()
      ensures old(pending) == [] ==> r == None && !busy && pending == []
      ensures old(pending) != [] ==> r == Some(old(pending)[0]) && pending == old(pending)[1..] && busy == old(busy)
    {
      if pending == [] {
        busy := false;
        r := None;
      } else {
        r := Some(pending[0]);
        pending := pending[1..];
      }
    }

    /** PQprepare with the empty name: it discards results still to be read, and replaces the unnamed statement
        even if the server refuses the new one. */
    method Prepare(sql: string, accepted: bool)
      requires Valid()
      modifies `statement, `pending, `busy
      ensures Valid() && !busy && statement == if accepted then Some(sql) else None
    {
      FinishQuery();
      statement := if accepted then Some(sql) else None;
    }

    /** PQsendQuery: refused while an earlier command is still being read. It drops the unnamed statement. */
    method SendQuery(sql: string, ghost who: object) returns (success: bool)
      requires Valid()
      modifies this
      ensures Valid() && waits == old(waits) && success == old(!busy)
      ensures if success then Delivers(Simple(sql), old(log), who) && statement == None else unchanged(this)
    {
      success := !busy;
      if success {
        log, statement := log + [Simple(sql)], None;
        pending, busy, sender := respond(log), true, who;
      }
    }

    /** PQsendQueryPrepared, for the unnamed statement. */
    method SendQueryPrepared(values: seq<Option<string>>, ghost who: object) returns (success: bool)
      requires Valid()
      modifies this
      ensures Valid() && waits == old(waits) && statement == old(statement) && success == old(!busy)
      ensures if success then Delivers(Prepared(statement, values), old(log), who) else unchanged(this)
    {
      success := !busy;
      if success {
        log := log + [Prepared(statement, values)];
        pending, busy, sender := respond(log), true, who;
      }
    }

    /** The command was sent after those of `before`, and its answer is there to be read. */
    ghost predicate Delivers(command: Sent, before: seq<Sent>, who: object)
      reads this
    {
      busy && log == before + [command] && pending == respond(log) && sender == who
    }

    /** DbConnection::finish_query, src/DbConnection.cpp:116-122. */
    method FinishQuery()
      requires Valid()
      modifies `pending, `busy
      ensures Valid() && !busy
    {
      var result := GetResult();
      while result != None
        invariant Valid() && (result == None ==> !busy)
        decreases |pending|, if result == None then 0 else 1
      {
        result := GetResult();
      }
    }

    /** PqResultImpl::wait_for_data: false if the user interrupted. */
    method WaitForData() returns (proceed: bool)
      requires Valid()
      modifies `waits
      ensures Valid() && waits == old(waits) + 1 && proceed == !interrupts(old(waits))
    {
      proceed := !interrupts(waits);
      waits := waits + 1;
    }

    /** DbConnection::cancel_query, src/DbConnection.cpp:94-114. */
    method CancelQuery()
      requires Valid()
      modifies `pending, `cancels
      ensures Valid() && cancels == old(cancels) + 1
    {
      cancels := cancels + 1;
      if busy {
        pending := canceled(pending);
      }
    }
  }
}
