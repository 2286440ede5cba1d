/** Who may use a connection: the current result, and whose results are still waiting to be read. */
module Ownership {
  import opened Base

  datatype Own<Id> = Own(current: Option<Id>, owner: Option<Id>)

  /** The calls on result objects. `left` says whether results are left to read when the call returns,
      `sent` whether a bind or a fetch sent anything. `NoCall` stands for a call that was not made. */
  datatype Op<Id> =
    | Create(id: Id, left: bool)
    | FailedCreate
    | Bind(id: Id, sent: bool, left: bool)
    | Fetch(id: Id, sent: bool, left: bool)
    | Destroy(id: Id)
    | NoCall

  /** Results waiting to be read belong to the current result; without one nothing is waiting. */
  predicate Owned<Id(==)>(s: Own<Id>) {
    s.owner == None || s.owner == s.current
  }

  function Pending<Id>(id: Id, left: bool): Option<Id> {
    if left then Some(id) else None
  }

  function Next<Id(==)>(s: Own<Id>, op: Op<Id>): Own<Id> {
    match op
    case Create(id, left) => Own(Some(id), Pending(id, left))
    case FailedCreate => Own(None, None)
    case Bind(id, sent, left) => if sent then Own(s.current, Pending(id, left)) else s
    case Fetch(id, sent, left) =>
      if s.current != Some(id) then s
      else Own(s.current, if sent then Pending(id, left) else if left then s.owner else None)
    case Destroy(id) => if s.current == Some(id) then Own(None, None) else s
    case NoCall => s
  }

  /** `DbResult::bind` is the one call that does not ask whether its result is active. */
  predicate Intrudes<Id(==)>(s: Own<Id>, op: Op<Id>) {
    op.Bind? && op.sent && op.left && s.current != Some(op.id)
  }

  function Run<Id(==)>(s: Own<Id>, ops: seq<Op<Id>>): Own<Id> {
    if ops == [] then s else Next(Run(s, ops[..|ops| - 1]), ops[|ops| - 1])
  }

  /** Each call keeps the ownership of the queue, except a bind of an inactive result that leaves results behind. */
  lemma OwnedKept<Id>(s: Own<Id>, op: Op<Id>)
    requires Owned(s)
    ensures Owned(Next(s, op)) <==> !Intrudes(s, op)
  {
  }

  /** The queue is owned after every step of the run. */
  predicate AlwaysOwned<Id(==)>(s: Own<Id>, ops: seq<Op<Id>>) {
    Owned(Run(s, ops)) && (ops == [] || AlwaysOwned(s, ops[..|ops| - 1]))
  }

  /** No bind of the run intrudes. */
  predicate NeverIntrudes<Id(==)>(s: Own<Id>, ops: seq<Op<Id>>) {
    ops == [] || (NeverIntrudes(s, ops[..|ops| - 1]) && !Intrudes(Run(s, ops[..|ops| - 1]), ops[|ops| - 1]))
  }

  /** All interleavings: a run keeps the queue owned throughout if and only if no bind in it intrudes. */
  lemma {:induction false} RunOwned<Id>(s: Own<Id>, ops: seq<Op<Id>>)
    requires Owned(s)
    ensures AlwaysOwned(s, ops) <==> NeverIntrudes(s, ops)
  {
    if ops != [] {
      var front := ops[..|ops| - 1];
      RunOwned(s, front);
      if AlwaysOwned(s, front) {
        OwnedKept(Run(s, front), ops[|ops| - 1]);
      }
    }
  }

  predicate Concerns<Id(==)>(op: Op<Id>, id: Id) {
    op.Create? || op.FailedCreate? || (!op.NoCall? && op.id == id) || (op.Bind? && op.sent)
  }

  /** Fetching from or destroying other results, however often, changes nothing for the current one. */
  lemma {:induction false} OthersDoNotInterfere<Id>(s: Own<Id>, ops: seq<Op<Id>>, id: Id)
    requires s.current == Some(id)
    requires forall k :: 0 <= k < |ops| ==> !Concerns(ops[k], id)
    ensures Run(s, ops) == s
  {
    if ops != [] {
      OthersDoNotInterfere(s, ops[..|ops| - 1], id);
    }
  }

  // ----- The guard a caller can check -----

  /** The same calls with the same sends, whatever the server leaves to be read. */
  predicate SameCall<Id(==)>(a: Op<Id>, b: Op<Id>) {
    match a
    case Create(id, _) => b.Create? && b.id == id
    case FailedCreate => b.FailedCreate?
    case Bind(id, sent, _) => b.Bind? && b.id == id && b.sent == sent
    case Fetch(id, sent, _) => b.Fetch? && b.id == id && b.sent == sent
    case Destroy(id) => b == Destroy(id)
    case NoCall => b.NoCall?
  }

  predicate SameCalls<Id(==)>(a: seq<Op<Id>>, b: seq<Op<Id>>) {
    |a| == |b| && forall k :: 0 <= k < |a| ==> SameCall(a[k], b[k])
  }

  /** Every bind of the run that sends anything is on the active result. */
  predicate Guarded<Id(==)>(s: Own<Id>, ops: seq<Op<Id>>) {
    ops == [] ||
      var front, last := ops[..|ops| - 1], ops[|ops| - 1];
      Guarded(s, front) && (last.Bind? && last.sent ==> Run(s, front).current == Some(last.id))
  }

  lemma RunOn<Id>(s: Own<Id>, ops: seq<Op<Id>>, op: Op<Id>)
    ensures Run(s, ops + [op]) == Next(Run(s, ops), op)
    ensures Guarded(s, ops + [op]) <==> Guarded(s, ops) && (op.Bind? && op.sent ==> Run(s, ops).current == Some(op.id))
    ensures Run(s, []) == s && Guarded(s, [])
  {
    assert (ops + [op])[..|ops|] == ops;
  }

  /** Which result is current does not depend on what is left to be read. */
  lemma {:induction false} SameCurrent<Id>(s: Own<Id>, a: seq<Op<Id>>, b: seq<Op<Id>>)
    requires SameCalls(a, b)
    ensures Run(s, a).current == Run(s, b).current && (Guarded(s, a) <==> Guarded(s, b))
  {
    if a != [] {
      assert SameCall(a[|a| - 1], b[|b| - 1]);
      SameCurrent(s, a[..|a| - 1], b[..|b| - 1]);
    }
  }

  lemma {:induction false} GuardedNeverIntrudes<Id>(s: Own<Id>, ops: seq<Op<Id>>)
    requires Guarded(s, ops)
    ensures NeverIntrudes(s, ops)
  {
    if ops != [] {
      GuardedNeverIntrudes(s, ops[..|ops| - 1]);
    }
  }

  /** The call with a server that leaves something to be read after a bind. */
  function Loud<Id>(op: Op<Id>): Op<Id> {
    match op
    case Bind(id, sent, _) => Bind(id, sent, true)
    case _ => op
  }

  lemma {:induction false} UnguardedIntrudes<Id>(s: Own<Id>, ops: seq<Op<Id>>)
    requires !Guarded(s, ops)
    requires forall k :: 0 <= k < |ops| ==> ops[k] == Loud(ops[k])
    ensures !NeverIntrudes(s, ops)
  {
    var front, last := ops[..|ops| - 1], ops[|ops| - 1];
    if !Guarded(s, front) {
      UnguardedIntrudes(s, front);
    } else {
      assert last == Loud(last) && last.Bind? && last.sent;
    }
  }

  /** The queue stays owned whatever the server leaves to be read if and only if every bind that sends anything
      is on the active result. */
  lemma GuardIsExact<Id>(s: Own<Id>, ops: seq<Op<Id>>)
    requires Owned(s)
    ensures Guarded(s, ops) <==> forall run :: SameCalls(ops, run) ==> AlwaysOwned(s, run)
  {
    if Guarded(s, ops) {
      forall run | SameCalls(ops, run)
        ensures AlwaysOwned(s, run)
      {
        SameCurrent(s, ops, run);
        GuardedNeverIntrudes(s, run);
        RunOwned(s, run);
      }
    } else {
      var run := seq(|ops|, k requires 0 <= k < |ops| => Loud(ops[k]));
      assert SameCalls(ops, run);
      SameCurrent(s, ops, run);
      UnguardedIntrudes(s, run);
      RunOwned(s, run);
    }
  }
}
