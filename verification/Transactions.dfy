/** Transactions and savepoints: a model of the server, and the methods that drive it
    (R/dbBegin_PqConnection.R, R/dbCommit_PqConnection.R, R/dbRollback_PqConnection.R). The server
    follows the PostgreSQL manual, section 3.4 and the pages on SAVEPOINT, RELEASE SAVEPOINT and
    ROLLBACK TO SAVEPOINT. */
module Transactions {
  import opened Base

  type Row = map<string, string>
  datatype Table = Table(fields: seq<string>, rows: seq<Row>)
  type Database = map<string, Table>

  datatype Savepoint = Savepoint(name: string, db: Database)

  /** An open transaction; once a statement has failed it is aborted and refuses all but the way back. */
  datatype Txn = Txn(db: Database, aborted: bool, stack: seq<Savepoint>)

  datatype Server = Server(committed: Database, txn: Option<Txn>)

  /** A data statement is any partial function on the database: it fails where it has no result. */
  datatype Command =
    | Begin
    | Commit(deferredOk: bool)
    | Rollback
    | SetSavepoint(name: string)
    | RollbackTo(name: string)
    | Release(name: string)
    | Data(effect: Database -> Option<Database>)

  /** Position of the latest savepoint of a name, or -1. */
  function Latest(stack: seq<Savepoint>, name: string): (i: int)
    ensures -1 <= i < |stack|
    ensures i >= 0 ==> stack[i].name == name
    ensures forall k :: i < k < |stack| ==> stack[k].name != name
  {
    if stack == [] then -1
    else if stack[|stack| - 1].name == name then |stack| - 1
    else Latest(stack[..|stack| - 1], name)
  }

  /** The server after a command, and whether the command succeeded. */
  function Exec(s: Server, c: Command): (Server, bool) {
    if s.txn.Some? then ExecInside(s, s.txn.value, c)
    else
      match c
      case Begin => (s.(txn := Some(Txn(s.committed, false, []))), true)
      case Commit(_) => (s, true)  // a warning only
      case Rollback => (s, true)
      case SetSavepoint(_) => (s, false)
      case RollbackTo(_) => (s, false)
      case Release(_) => (s, false)
      case Data(effect) =>
        var db := effect(s.committed);
        if db.Some? then (s.(committed := db.value), true) else (s, false)
  }

  function ExecInside(s: Server, t: Txn, c: Command): (Server, bool) {
    match c
    case Commit(deferredOk) =>
      if t.aborted then (s.(txn := None), true)  // reported as ROLLBACK
      else if deferredOk then (Server(t.db, None), true)
      else (s.(txn := None), false)
    case Rollback => (s.(txn := None), true)
    case RollbackTo(name) =>
      var i := Latest(t.stack, name);
      if i < 0 then (Abort(s, t), false)
      else (s.(txn := Some(Txn(t.stack[i].db, false, t.stack[..i + 1]))), true)
    case Begin =>
      if t.aborted then (s, false) else (s, true)  // a warning only
    case SetSavepoint(name) =>
      if t.aborted then (s, false)
      else (s.(txn := Some(t.(stack := t.stack + [Savepoint(name, t.db)]))), true)
    case Release(name) =>
      var i := Latest(t.stack, name);
      if t.aborted || i < 0 then (Abort(s, t), false)
      else (s.(txn := Some(t.(stack := t.stack[..i]))), true)
    case Data(effect) =>
      var db := effect(t.db);
      if t.aborted || db == None then (Abort(s, t), false) else (s.(txn := Some(t.(db := db.value))), true)
  }

  function Abort(s: Server, t: Txn): Server {
    s.(txn := Some(t.(aborted := true)))
  }

  /** A run of commands, whether they succeed or not. */
  function Run(s: Server, cs: seq<Command>): Server {
    if cs == [] then s else Exec(Run(s, cs[..|cs| - 1]), cs[|cs| - 1]).0
  }

  // ----- The connection -----

  /** The server and the flag the connection keeps. */
  datatype Session = Session(server: Server, transacting: bool)

  function Sent(s: Session, c: Command): (Session, bool) {
    var (server, ok) := Exec(s.server, c);
    (s.(server := server), ok)
  }

  function Begun(s: Session, name: Option<string>): (Session, bool) {
    match name
    case None =>
      if s.transacting then (s, false)
      else
        var (s1, ok) := Sent(s, Begin);
        if ok then (s1.(transacting := true), true) else (s1, false)
    case Some(n) =>
      if !s.transacting then (s, false) else Sent(s, SetSavepoint(n))
  }

  function Committed(s: Session, name: Option<string>, deferredOk: bool): (Session, bool) {
    match name
    case None =>
      if !s.transacting then (s, false)
      else
        var (s1, ok) := Sent(s, Commit(deferredOk));
        if ok then (s1.(transacting := false), true) else (s1, false)
    case Some(n) => Sent(s, Release(n))
  }

  function RolledBack(s: Session, name: Option<string>): (Session, bool) {
    match name
    case None =>
      if !s.transacting then (s, false)
      else
        var (s1, ok) := Sent(s, Rollback);
        if ok then (s1.(transacting := false), true) else (s1, false)
    case Some(n) =>
      var (s1, ok) := Sent(s, RollbackTo(n));
      if ok then Sent(s1, Release(n)) else (s1, false)
  }

  /** The flag tells the truth. */
  predicate Consistent(s: Session) {
    s.transacting == s.server.txn.Some?
  }

  class PqConnection {
    var server: Server
    var transacting: bool
    var sent: nat  // how many commands were sent to the server
    const redshift: bool

    constructor (server: Server, transacting: bool, redshift: bool)
      ensures TheSession() == Session(server, transacting) && this.redshift == redshift && sent == 0
    {
      this.server, this.transacting, this.redshift, sent := server, transacting, redshift, 0;
    }

    function TheSession(): Session
      reads this
    {
      Session(server, transacting)
    }

    method DbExecute(c: Command) returns (ok: bool)
      modifies `server, `sent
      ensures (TheSession(), ok) == Sent(old(TheSession()), c) && sent == old(sent) + 1
      ensures c.Data? && old(server).txn == None ==>
        var db := c.effect(old(server).committed);
        ok == db.Some? && server == Server(if ok then db.value else old(server).committed, None)
    {
      sent := sent + 1;
      var (s, success) := Exec(server, c);
      server, ok := s, success;
    }

    method DbBegin(name: Option<string>) returns (ok: bool)
      modifies this
      ensures (TheSession(), ok) == Begun(old(TheSession()), name) && old(sent) <= sent
      ensures old(transacting) == name.Some? ==> old(sent) < sent
      ensures transacting == (old(transacting) || (name == None && ok))
      ensures old(transacting) == name.None? ==> !ok && unchanged(this)
      ensures old(Consistent(TheSession())) ==> Consistent(TheSession()) && (name == None ==> ok == !old(transacting))
    {
      if name == None {
        if transacting {
          return false;
        }
        ok := DbExecute(Begin);
        if !ok {
          return;
        }
        transacting := true;
      } else {
        if !transacting {
          return false;
        }
        ok := DbExecute(SetSavepoint(name.value));
      }
    }

    /** A commit that fails because of a deferred constraint ends the transaction on the server, but the flag
        stays: that is the one way the flag comes to tell a lie. */
    method DbCommit(name: Option<string>, deferredOk: bool) returns (ok: bool)
      modifies this
      ensures (TheSession(), ok) == Committed(old(TheSession()), name, deferredOk) && old(sent) <= sent
      ensures transacting == (old(transacting) && !(name == None && ok))
      ensures old(Consistent(TheSession())) ==>
        (Consistent(TheSession()) <==>
          !(name == None && old(transacting) && !old(server.txn.value.aborted) && !deferredOk))
    {
      if name == None {
        if !transacting {
          return false;
        }
        ok := DbExecute(Commit(deferredOk));
        if !ok {
          return;
        }
        transacting := false;
      } else {
        ok := DbExecute(Release(name.value));
      }
    }

    method DbRollback(name: Option<string>) returns (ok: bool)
      modifies this
      ensures (TheSession(), ok) == RolledBack(old(TheSession()), name) && old(sent) <= sent
      ensures transacting == (old(transacting) && !(name == None && ok))
      ensures old(Consistent(TheSession())) ==> Consistent(TheSession()) && (name == None ==> ok == old(transacting))
      ensures server.committed == old(server.committed)
    {
      if name == None {
        if !transacting {
          return false;
        }
        ok := DbExecute(Rollback);
        if !ok {
          return;
        }
        transacting := false;
      } else {
        ok := DbExecute(RollbackTo(name.value));
        if !ok {
          return;
        }
        ok := DbExecute(Release(name.value));
      }
    }
  }

  // ----- Rolling back to a savepoint undoes everything since -----

  /** The run neither ends the transaction nor drops below its first `base` savepoints. */
  predicate StaysAbove(s: Server, cs: seq<Command>, base: nat) {
    && s.txn.Some? && base <= |s.txn.value.stack|
    && (cs != [] ==>
        && !cs[|cs| - 1].Commit? && !cs[|cs| - 1].Rollback?
        && StaysAbove(s, cs[..|cs| - 1], base)
        && (var t := Run(s, cs); t.txn.Some? && base <= |t.txn.value.stack|))
  }

  lemma {:induction false} BaseIsKept(s: Server, cs: seq<Command>, base: nat)
    requires StaysAbove(s, cs, base)
    ensures var t := Run(s, cs);
      && t.committed == s.committed && t.txn.Some? && base <= |t.txn.value.stack|
      && t.txn.value.stack[..base] == s.txn.value.stack[..base]
  {
    if cs != [] {
      BaseIsKept(s, cs[..|cs| - 1], base);
    }
  }

  /** Whatever a balanced run did, failures included, and whatever outer savepoints are called: rolling
      back to the savepoint and releasing it restores the server exactly, unless the run left a savepoint
      of the same name open. */
  lemma RollbackUndoes(s: Session, name: string, cs: seq<Command>)
    requires s.transacting && s.server.txn.Some? && !s.server.txn.value.aborted
    requires var base := |s.server.txn.value.stack| + 1;
      StaysAbove(Begun(s, Some(name)).0.server, cs, base)
    ensures var s1 := Begun(s, Some(name)).0;
      var s2 := s1.(server := Run(s1.server, cs));
      var inner := s2.server.txn.value.stack[|s.server.txn.value.stack| + 1..];
      && (RolledBack(s2, Some(name)).0 == s <==> Latest(inner, name) < 0)
      && (Latest(inner, name) < 0 ==> RolledBack(s2, Some(name)).1)
  {
    var s1 := Begun(s, Some(name)).0;
    var t, n := s.server.txn.value, |s.server.txn.value.stack|;
    assert s1.server.txn.value.stack[..n + 1] == t.stack + [Savepoint(name, t.db)];
    BaseIsKept(s1.server, cs, n + 1);
    hide Run, StaysAbove;
    RollbackAt(s1.(server := Run(s1.server, cs)), name, t);
  }

  lemma RollbackAt(s: Session, name: string, t: Txn)
    requires s.server.txn.Some? && |t.stack| < |s.server.txn.value.stack| && !t.aborted && s.transacting
    requires s.server.txn.value.stack[..|t.stack| + 1] == t.stack + [Savepoint(name, t.db)]
    ensures var inner := s.server.txn.value.stack[|t.stack| + 1..];
      && (RolledBack(s, Some(name)).0 == s.(server := s.server.(txn := Some(t))) <==> Latest(inner, name) < 0)
      && (Latest(inner, name) < 0 ==> RolledBack(s, Some(name)).1)
  {
    hide Latest, RolledBack;
    var stack, n := s.server.txn.value.stack, |t.stack|;
    var i, inner := Latest(stack, name), stack[|t.stack| + 1..];
    var base := t.stack + [Savepoint(name, t.db)];
    assert stack[n] == stack[..n + 1][n] == base[n];
    assert i >= n;
    RolledBackTo(s, name);
    if Latest(inner, name) < 0 {
      assert forall k :: n < k < |stack| ==> stack[k] == inner[k - n - 1];
      assert i == n;
      assert stack[..n] == base[..n] == t.stack;
    } else {
      assert stack[n + 1 + Latest(inner, name)].name == name;
      assert i > n;
    }
  }

  lemma RolledBackTo(s: Session, name: string)
    requires s.server.txn.Some? && Latest(s.server.txn.value.stack, name) >= 0
    ensures var stack := s.server.txn.value.stack; var i := Latest(stack, name);
      RolledBack(s, Some(name)) == (s.(server := s.server.(txn := Some(Txn(stack[i].db, false, stack[..i])))), true)
  {
    var stack := s.server.txn.value.stack;
    var i := Latest(stack, name);
    LatestOfLast(stack[..i + 1], name);
    assert stack[..i + 1][..i] == stack[..i];
  }

  lemma LatestOfLast(stack: seq<Savepoint>, name: string)
    requires stack != [] && stack[|stack| - 1].name == name
    ensures Latest(stack, name) == |stack| - 1
  {
  }

  /** Nothing but a commit reaches the committed data, and rolling back ends where BEGIN started. */
  lemma RollbackAllUndoes(s: Session, cs: seq<Command>)
    requires Consistent(s) && !s.transacting
    requires StaysAbove(Begun(s, None).0.server, cs, 0)
    ensures var s1 := Begun(s, None).0;
      RolledBack(s1.(server := Run(s1.server, cs)), None) == (s, true)
  {
    BaseIsKept(Begun(s, None).0.server, cs, 0);
  }
}
