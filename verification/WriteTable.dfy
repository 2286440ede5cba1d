/** `dbWriteTable` (R/dbWriteTable_PqConnection_character_data.frame.R): a table written inside a savepoint,
    inside a transaction, with handlers that roll back when anything fails. */
module WriteTable {
  import opened Base
  import opened Transactions

  const SAVEPOINT := "dbWriteTable"

  datatype Frame = Frame(names: seq<string>, rows: seq<Row>)

  /** The statements on data, any of which the server may refuse for reasons of its own. */
  datatype Statement = DropTable | TableExists | CreateTable | Append

  /** Arguments and circumstances. The checks on row names and field types happen on the client. */
  datatype Call = Call(
    name: string,
    value: Frame,
    overwrite: bool,
    append: bool,
    fieldTypes: bool,         // `field.types` is given
    fieldTypesMatch: bool,    // and names columns of the data only
    scalarsOk: bool,          // the other arguments have the right type and length
    rowNamesOk: bool,         // row names can be turned into a column
    refused: Statement -> bool,
    deferredOk: bool)         // constraints checked at commit hold

  /** The checks before anything is sent. */
  predicate Permitted(c: Call) {
    c.scalarsOk && !(c.overwrite && c.append) && !(c.append && c.fieldTypes)
  }

  // ----- What the body does to the data, whatever transaction it runs in -----

  datatype Status = Done | ClientError | ServerError

  function Drop(c: Call, db: Database): Option<Database> {
    if c.refused(DropTable) then None else Some(db - {c.name})
  }

  function Look(c: Call, db: Database): Option<Database> {
    if c.refused(TableExists) then None else Some(db)
  }

  function Create(c: Call, db: Database): Option<Database> {
    if c.refused(CreateTable) || c.name in db then None else Some(db[c.name := Table(c.value.names, [])])
  }

  function AppendRows(c: Call, db: Database): Option<Database> {
    if c.refused(Append) || c.name !in db || (exists k :: 0 <= k < |c.value.names| && c.value.names[k] !in db[c.name].fields) then None
    else Some(db[c.name := db[c.name].(rows := db[c.name].rows + c.value.rows)])
  }

  function CreateAndFill(c: Call, db: Database, found: bool): (Database, Status) {
    if !c.rowNamesOk then (db, ClientError)
    else if !found && c.fieldTypes && !c.fieldTypesMatch then (db, ClientError)
    else
      var created := if found then Some(db) else Create(c, db);
      if created == None then (db, ServerError)
      else if c.value.rows == [] then (created.value, Done)
      else
        var filled := AppendRows(c, created.value);
        if filled == None then (created.value, ServerError) else (filled.value, Done)
  }

  function Body(c: Call, db: Database): (Database, Status) {
    if c.overwrite then
      var dropped := Drop(c, db);
      if dropped == None then (db, ServerError) else CreateAndFill(c, dropped.value, false)
    else if Look(c, db) == None then (db, ServerError)
    else if c.name in db && !c.append then (db, ClientError)
    else CreateAndFill(c, db, c.name in db)
  }

  /** The body inside a transaction; an aborted one refuses the first statement. */
  function Outcome(c: Call, t: Txn): (Database, Status) {
    if t.aborted then (t.db, ServerError) else Body(c, t.db)
  }

  /** The table a successful call leaves behind. */
  function Written(c: Call, db: Database): Table {
    if c.append && c.name in db then db[c.name].(rows := db[c.name].rows + c.value.rows)
    else Table(c.value.names, c.value.rows)
  }

  /** Success writes exactly the rows given, after the rows that were there if appending to an existing
      table, and touches no other table. */
  lemma BodyWrites(c: Call, db: Database)
    requires Permitted(c) && Body(c, db).1 == Done
    ensures Body(c, db).0 == db[c.name := Written(c, db)]
    ensures !c.overwrite && !c.append ==> c.name !in db
  {
    assert forall rows: seq<Row> :: [] + rows == rows && rows + [] == rows;
    if c.overwrite {
      var t := Written(c, db);
      assert (db - {c.name})[c.name := t] == db[c.name := t];
    }
    if c.name in db {
      assert db == db[c.name := db[c.name]];
    }
  }

  /** The data before the call, as the session sees it. */
  function View(s: Session): Database {
    if s.server.txn.Some? then s.server.txn.value.db else s.server.committed
  }

  /** The session after the data it sees became `db`. */
  function WithView(s: Session, db: Database): Session {
    if s.server.txn.Some? then s.(server := s.server.(txn := Some(s.server.txn.value.(db := db))))
    else s.(server := s.server.(committed := db))
  }

  datatype Handler = NoHandler | RollbackSavepoint | RollbackTransaction

  /** Inside the savepoint, with the body done or failed. */
  function InSavepoint(s: Session, db: Database, aborted: bool): Session
    requires s.server.txn.Some?
  {
    var t := s.server.txn.value;
    s.(server := s.server.(txn := Some(Txn(db, aborted, t.stack + [Savepoint(SAVEPOINT, t.db)]))))
  }

  /** The savepoint can be released or rolled back to, whatever outer savepoints are called. */
  lemma SavepointBrackets(s: Session, db: Database, aborted: bool)
    requires s.transacting && s.server.txn.Some? && !s.server.txn.value.aborted
    ensures Begun(s, Some("dbWriteTable")) == (InSavepoint(s, s.server.txn.value.db, false), true)
    ensures RolledBack(InSavepoint(s, db, aborted), Some(SAVEPOINT)) == (s, true)
    ensures Committed(InSavepoint(s, db, false), Some(SAVEPOINT), true) == (WithView(s, db), true)
    ensures Committed(InSavepoint(s, db, false), Some(SAVEPOINT), false) == (WithView(s, db), true)
  {
    var t := s.server.txn.value;
    var stack := t.stack + [Savepoint(SAVEPOINT, t.db)];
    assert stack[..|t.stack| + 1] == stack && stack[..|t.stack|] == t.stack && stack[|t.stack| + 1..] == [];
    LatestOfLast(stack, SAVEPOINT);
    RollbackAt(InSavepoint(s, db, aborted), SAVEPOINT, t);
  }

  lemma AbortedRefuses(s: Session)
    requires s.transacting && s.server.txn.Some? && s.server.txn.value.aborted
    ensures Begun(s, Some(SAVEPOINT)) == (s, false)
  {
  }

  lemma TransactionBegins(s: Session)
    requires Consistent(s) && !s.transacting
    ensures Begun(s, None) == (Session(Server(s.server.committed, Some(Txn(s.server.committed, false, []))), true), true)
  {
  }

  /** The end of the call's own transaction, `u` being the session just before. */
  lemma TransactionEnds(u: Session)
    requires u.transacting
    ensures RolledBack(u, None) == (Session(Server(u.server.committed, None), false), true)
    ensures u.server.txn.Some? && !u.server.txn.value.aborted ==>
      && Committed(u, None, true) == (Session(Server(u.server.txn.value.db, None), false), true)
      && Committed(u, None, false) == (u.(server := u.server.(txn := None)), false)
  {
  }

  // ----- The function -----

  /** The arguments are in order and nothing is refused. */
  predicate NothingWrong(c: Call) {
    && c.scalarsOk && c.rowNamesOk && (c.fieldTypes ==> c.fieldTypesMatch) && c.deferredOk
    && !c.refused(DropTable) && !c.refused(TableExists) && !c.refused(CreateTable) && !c.refused(Append)
  }

  predicate HasColumns(t: Table, names: seq<string>) {
    forall k :: 0 <= k < |names| ==> names[k] in t.fields
  }

  /** The connection is outside a transaction, with this data committed. */
  predicate Leaves(conn: PqConnection, db: Database)
    reads conn
  {
    !conn.transacting && conn.server == Server(db, None)
  }

  /** When a call succeeds, and all or nothing: a call that succeeds writes the table and changes nothing else, neither other tables,
      nor savepoints, nor the flag; a call that fails, for whatever reason and wherever, changes nothing at
      all. On Redshift, where there is no savepoint, this needs the transaction to be the call's own. */
  method DbWriteTable(conn: PqConnection, c: Call) returns (ok: bool)
    requires Consistent(conn.TheSession())
    modifies conn
    ensures !(conn.redshift && old(conn.transacting)) ==>
      (ok <==>
        && c.scalarsOk && !(c.overwrite && c.append) && !(c.append && c.fieldTypes)
        && (old(conn.transacting) ==> !old(conn.server.txn.value.aborted))
        && Succeeds(c, View(old(conn.TheSession())))
        && (old(conn.transacting) || c.deferredOk))
    ensures conn.sent == old(conn.sent) <==> !c.scalarsOk || (c.overwrite && c.append) || (c.append && c.fieldTypes)
    ensures conn.sent == old(conn.sent) ==> !ok
    ensures ok ==>
      conn.TheSession() == old(var s := conn.TheSession(); WithView(s, View(s)[c.name := Written(c, View(s))]))
    ensures !ok && !(conn.redshift && old(conn.transacting)) ==> conn.TheSession() == old(conn.TheSession())
    ensures Permitted(c) && conn.redshift && old(conn.transacting) ==>
      var t := old(conn.server.txn.value);
      var (db, status) := Outcome(c, t);
      && ok == (status == Done)
      && (ok || conn.TheSession() == old(conn.TheSession()) <==>
            t.aborted || Succeeds(c, t.db) || StoppedInTime(c, t.db))
      && conn.TheSession() == old(conn.TheSession()).(server := old(conn.server).(txn := Some(Txn(db, t.aborted || status == ServerError, t.stack))))
  {
    hide Body, Begun, Committed, RolledBack, Succeeds, StoppedInTime, Written;
    if !Permitted(c) {
      return false;
    }
    var handler := NoHandler;
    var needTransaction := !conn.transacting;
    if needTransaction {
      TransactionBegins(conn.TheSession());
      ok := conn.DbBegin(None);
      if !ok {
        return;
      }
    }
    ghost var s := conn.TheSession();
    ghost var t := s.server.txn.value;
    ghost var (db, status) := Outcome(c, t);
    if t.aborted {
      AbortedRefuses(s);
    } else {
      FailureLeavesTrace(c, t);
      if status == Done {
        BodyWrites(c, t.db);
      }
      SavepointBrackets(s, db, status == ServerError);
    }
    if !conn.redshift {
      ok := conn.DbBegin(Some(SAVEPOINT));
      if !ok {
        return;
      }
      handler := RollbackSavepoint;
    }
    if needTransaction {
      handler := RollbackTransaction;
    }
    ok := WriteBody(conn, c);
    if ok && !conn.redshift {
      ok := conn.DbCommit(Some(SAVEPOINT), c.deferredOk);
    }
    if ok && needTransaction {
      TransactionEnds(conn.TheSession());
      ok := conn.DbCommit(None, c.deferredOk);
    }
    if ok {
      handler := NoHandler;
    }
    if handler == RollbackTransaction {
      TransactionEnds(conn.TheSession());
    }
    OnExit(conn, handler);
  }

  /** Calls whose arguments are in order, outside a transaction, on a server that refuses nothing: overwriting,
      writing a new table and appending do what their names say, whichever server it is. */
  method WriteInOrder(conn: PqConnection, c: Call) returns (ok: bool)
    requires Consistent(conn.TheSession()) && !conn.transacting && NothingWrong(c)
    modifies conn
    ensures var db := old(conn.server.committed); var written := db[c.name := Table(c.value.names, c.value.rows)];
      && (c.overwrite && !c.append ==> ok && Leaves(conn, written))
      && (!c.overwrite && !c.append ==> ok == (c.name !in db) && Leaves(conn, if ok then written else db))
      && (!c.overwrite && c.append && !c.fieldTypes && c.name !in db ==> ok && Leaves(conn, written))
      && (!c.overwrite && c.append && !c.fieldTypes && c.name in db && HasColumns(db[c.name], c.value.names) ==>
            ok && Leaves(conn, db[c.name := Table(db[c.name].fields, db[c.name].rows + c.value.rows)]))
  {
    hide NothingWrong, HasColumns, Succeeds, StoppedInTime, Written;
    CallsInOrder(c, conn.server.committed);
    ok := DbWriteTable(conn, c);
  }

  /** When a call in order succeeds, and what it writes. */
  lemma CallsInOrder(c: Call, db: Database)
    requires NothingWrong(c)
    ensures c.scalarsOk && c.deferredOk
    ensures c.overwrite && !c.append ==> Succeeds(c, db) && Written(c, db) == Table(c.value.names, c.value.rows)
    ensures !c.overwrite && !c.append ==>
      (Succeeds(c, db) <==> c.name !in db) && Written(c, db) == Table(c.value.names, c.value.rows)
    ensures !c.overwrite && c.append && c.name !in db ==> Succeeds(c, db) && Written(c, db) == Table(c.value.names, c.value.rows)
    ensures !c.overwrite && c.append && c.name in db && HasColumns(db[c.name], c.value.names) ==>
      Succeeds(c, db) && Written(c, db) == Table(db[c.name].fields, db[c.name].rows + c.value.rows)
  {
  }

  /** The handlers that R runs when the function is left. */
  method OnExit(conn: PqConnection, handler: Handler)
    modifies conn
    ensures match handler
      case NoHandler => conn.TheSession() == old(conn.TheSession())
      case RollbackSavepoint => conn.TheSession() == RolledBack(old(conn.TheSession()), Some(SAVEPOINT)).0
      case RollbackTransaction => conn.TheSession() == RolledBack(old(conn.TheSession()), None).0
    ensures old(conn.sent) <= conn.sent
    ensures handler.RollbackTransaction? && old(conn.transacting) ==>
      conn.TheSession() == Session(Server(old(conn.server.committed), None), false)
    ensures handler.RollbackSavepoint? && old(conn.server.txn.Some? && Latest(conn.server.txn.value.stack, SAVEPOINT) >= 0) ==>
      var stack := old(conn.server.txn.value.stack); var i := Latest(stack, SAVEPOINT);
      && conn.transacting == old(conn.transacting) && conn.server.committed == old(conn.server.committed)
      && conn.server.txn == Some(Txn(stack[i].db, false, stack[..i]))
  {
    match handler {
      case NoHandler =>
      case RollbackSavepoint =>
        if conn.server.txn.Some? && Latest(conn.server.txn.value.stack, SAVEPOINT) >= 0 {
          RolledBackTo(conn.TheSession(), SAVEPOINT);
        }
        var _ := conn.DbRollback(Some(SAVEPOINT));
      case RollbackTransaction =>
        var _ := conn.DbRollback(None);
    }
  }

  /** One statement inside a transaction. */
  method DataStatement(conn: PqConnection, effect: Database -> Option<Database>) returns (ok: bool)
    requires conn.server.txn.Some?
    modifies conn
    ensures conn.transacting == old(conn.transacting) && conn.server.committed == old(conn.server.committed)
    ensures old(conn.sent) < conn.sent
    ensures var t := old(conn.server.txn.value); var db := effect(t.db);
      && ok == (!t.aborted && db.Some?)
      && conn.server.txn == Some(if ok then t.(db := db.value) else t.(aborted := true))
  {
    ok := conn.DbExecute(Data(effect));
  }

  /** Lines 69-117: everything between the handlers and the commit, inside an open transaction. */
  method WriteBody(conn: PqConnection, c: Call) returns (ok: bool)
    requires conn.server.txn.Some?
    modifies conn
    ensures conn.transacting == old(conn.transacting) && conn.server.committed == old(conn.server.committed)
    ensures old(conn.sent) < conn.sent
    ensures var t := old(conn.server.txn.value); var (db, status) := Outcome(c, t);
      && ok == (status == Done)
      && conn.server.txn == Some(Txn(db, t.aborted || status == ServerError, t.stack))
  {
    hide Drop, Create, AppendRows;
    var found;
    if c.overwrite {
      ok := DataStatement(conn, db => Drop(c, db));
      if !ok {
        return;
      }
      found := false;
    } else {
      ok := DataStatement(conn, db => Look(c, db));
      if !ok {
        return;
      }
      found := c.name in conn.server.txn.value.db;
      if found && !c.append {
        return false;
      }
    }
    if !c.rowNamesOk {
      return false;
    }
    if !found {
      if c.fieldTypes && !c.fieldTypesMatch {
        return false;
      }
      ok := DataStatement(conn, db => Create(c, db));
      if !ok {
        return;
      }
    }
    if |c.value.rows| > 0 {
      ok := DataStatement(conn, db => AppendRows(c, db));
    }
  }

  // ----- Without a savepoint: Redshift inside an outer transaction -----

  /** The call creates the table: it is not there, or is dropped first. */
  predicate Creates(c: Call, db: Database) {
    c.overwrite || c.name !in db
  }

  /** No check and no statement of the body fails. */
  predicate Succeeds(c: Call, db: Database) {
    && !c.refused(if c.overwrite then DropTable else TableExists)
    && c.rowNamesOk
    && (Creates(c, db) ==> (c.fieldTypes ==> c.fieldTypesMatch) && !c.refused(CreateTable))
    && (!Creates(c, db) ==> c.append)
    && (c.value.rows != [] ==> !c.refused(Append) && (!Creates(c, db) ==> HasColumns(db[c.name], c.value.names)))
  }

  /** A check on the client stops the call before it changes anything: no table was dropped, and the table
      is there and may not be, or the row names or field types are wrong. */
  predicate StoppedInTime(c: Call, db: Database) {
    && !c.refused(if c.overwrite then DropTable else TableExists)
    && !(c.overwrite && c.name in db)
    && (|| (!Creates(c, db) && !c.append)
        || !c.rowNamesOk
        || (Creates(c, db) && c.fieldTypes && !c.fieldTypesMatch))
  }

  /** Without a savepoint a call is all or nothing if and only if it meets no obstacle at all or is stopped by
      a check before it changes anything; any other failure leaves the transaction aborted or the table gone. */
  lemma FailureLeavesTrace(c: Call, t: Txn)
    requires !t.aborted
    ensures var (db, status) := Outcome(c, t);
      && (status == Done <==> Succeeds(c, t.db))
      && (Txn(db, status == ServerError, t.stack) == t || status == Done <==> Succeeds(c, t.db) || StoppedInTime(c, t.db))
  {
    if c.overwrite {
      if c.name in t.db {
        assert c.name !in t.db - {c.name};
      } else {
        assert t.db - {c.name} == t.db;
      }
    }
  }

  /** For instance, a first append of rows that the server refuses: the table stays behind, and the outer
      transaction is aborted. */
  lemma RefusedAppendLeavesTrace(row: Row, t: Txn)
    requires !t.aborted && "t" !in t.db
    ensures var c := Call("t", Frame(["x"], [row]), false, true, false, false, true, true, s => s == Append, true);
      && Permitted(c) && !Succeeds(c, t.db) && !StoppedInTime(c, t.db)
      && Outcome(c, t) == (t.db["t" := Table(["x"], [])], ServerError)
      && Outcome(c, t).0 != t.db
  {
    assert "t" in t.db["t" := Table(["x"], [])];
  }
}
