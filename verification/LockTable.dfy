/**
 The lock table both servers implement: named locks with at most one holder and a first-in
 first-out queue of waiting clients.
 */
module LockTable {
  import opened Sequences
  import opened Wrappers
  import Protocol

  type ClientId = Protocol.ClientId
  type Name = Protocol.Name

  datatype Lock = Lock(holder: Option<ClientId>, queue: seq<ClientId>)

  type Table = map<Name, Lock>

  /** What a server does to its table, one atomic operation each. */
  datatype Op =
    | Acquire(client: ClientId, name: Name)
    | TryAcquire(client: ClientId, name: Name)
    | Release(client: ClientId, name: Name)
    | Status(name: Name)
    | Disconnect(client: ClientId)

  /** A name nobody has used yet is a free lock. */
  function Get(t: Table, n: Name): Lock {
    if n in t then t[n] else Lock(None, [])
  }

  /** Hand the lock to the oldest waiter, or free it. */
  function Promote(l: Lock): Lock {
    if l.queue == [] then Lock(None, []) else Lock(Some(l.queue[0]), l.queue[1..])
  }

  function AcquireLock(l: Lock, c: ClientId): Lock {
    if l.holder == Some(c) || c in l.queue then l
    else if l.holder.None? then l.(holder := Some(c))
    else l.(queue := l.queue + [c])
  }

  function TryAcquireLock(l: Lock, c: ClientId): Lock {
    if l.holder.None? then l.(holder := Some(c)) else l
  }

  function ReleaseLock(l: Lock, c: ClientId): Lock {
    if l.holder == Some(c) then Promote(l) else l
  }

  function DisconnectLock(l: Lock, c: ClientId): Lock {
    ReleaseLock(l.(queue := Without(l.queue, c)), c)
  }

  function Apply(t: Table, op: Op): Table {
    match op
    case Acquire(c, n) => t[n := AcquireLock(Get(t, n), c)]
    case TryAcquire(c, n) => t[n := TryAcquireLock(Get(t, n), c)]
    case Release(c, n) => t[n := ReleaseLock(Get(t, n), c)]
    case Status(n) => t[n := Get(t, n)]
    case Disconnect(c) => map n | n in t :: DisconnectLock(t[n], c)
  }

  function Run(t: Table, ops: seq<Op>): Table
    decreases |ops|
  {
    if ops == [] then t else Run(Apply(t, ops[0]), ops[1..])
  }

  lemma RunOne(t: Table, op: Op)
    ensures Run(t, [op]) == Apply(t, op)
  {
    assert [op][1..] == [];
  }

  // ---------------------------------------------------------------------------
  // Invariant
  // ---------------------------------------------------------------------------

  /** Nobody waits twice or while holding, and nobody waits for a free lock. */
  ghost predicate LockInv(l: Lock) {
    && NoDup(l.queue)
    && (l.holder.Some? ==> l.holder.value !in l.queue)
    && (l.queue != [] ==> l.holder.Some?)
  }

  ghost predicate TableInv(t: Table) {
    forall n :: n in t ==> LockInv(t[n])
  }

  lemma LockOpsKeepInv(l: Lock, c: ClientId)
    requires LockInv(l)
    ensures LockInv(AcquireLock(l, c)) && LockInv(TryAcquireLock(l, c))
    ensures LockInv(ReleaseLock(l, c)) && LockInv(DisconnectLock(l, c))
  {
    WithoutMembers(l.queue, c);
  }

  lemma ApplyKeepsInv(t: Table, op: Op)
    requires TableInv(t)
    ensures TableInv(Apply(t, op))
  {
    forall n | n in Apply(t, op)
      ensures LockInv(Apply(t, op)[n])
    {
      assert LockInv(Get(t, n));
      if !op.Status? {
        LockOpsKeepInv(Get(t, n), op.client);
      }
    }
  }

  lemma {:induction false} RunKeepsInv(t: Table, ops: seq<Op>)
    requires TableInv(t)
    ensures TableInv(Run(t, ops))
    decreases |ops|
  {
    if ops != [] {
      ApplyKeepsInv(t, ops[0]);
      RunKeepsInv(Apply(t, ops[0]), ops[1..]);
    }
  }

  lemma {:induction false} RunConcat(t: Table, ops: seq<Op>, more: seq<Op>)
    ensures Run(t, ops + more) == Run(Run(t, ops), more)
    decreases |ops|
  {
    if ops == [] {
      assert ops + more == more;
    } else {
      assert (ops + more)[0] == ops[0] && (ops + more)[1..] == ops[1..] + more;
      RunConcat(Apply(t, ops[0]), ops[1..], more);
    }
  }

  // ---------------------------------------------------------------------------
  // Fairness
  // ---------------------------------------------------------------------------

  /** How many clients are ahead of `c`. */
  function Ahead(q: seq<ClientId>, c: ClientId): nat
    requires c in q
  {
    if q[0] == c then 0 else 1 + Ahead(q[1..], c)
  }

  /** The operation makes the current holder of `n` give it up. */
  predicate GivesUp(t: Table, op: Op, n: Name) {
    match op
    case Release(c, m) => m == n && Get(t, n).holder == Some(c)
    case Disconnect(c) => Get(t, n).holder == Some(c)
    case _ => false
  }

  /** How often `n` is handed on during a run. */
  function HandOffs(t: Table, ops: seq<Op>, n: Name): nat
    decreases |ops|
  {
    if ops == [] then 0
    else (if GivesUp(t, ops[0], n) then 1 else 0) + HandOffs(Apply(t, ops[0]), ops[1..], n)
  }

  lemma {:induction false} WithoutAhead(q: seq<ClientId>, d: ClientId, a: ClientId)
    requires a in q && a != d
    ensures a in Without(q, d) && Ahead(Without(q, d), a) <= Ahead(q, a)
  {
    WithoutMembers(q, d);
    if q[0] != a {
      WithoutAhead(q[1..], d, a);
      assert q[0] != d ==> Without(q, d)[1..] == Without(q[1..], d);
    }
  }

  lemma {:induction false} WithoutKeepsOrder(q: seq<ClientId>, d: ClientId, a: ClientId, b: ClientId)
    requires a in q && b in q && a != d && b != d && Ahead(q, a) < Ahead(q, b)
    ensures a in Without(q, d) && b in Without(q, d)
    ensures Ahead(Without(q, d), a) < Ahead(Without(q, d), b)
  {
    WithoutMembers(q, d);
    if q[0] == a {
      assert a != b;
    } else {
      WithoutKeepsOrder(q[1..], d, a, b);
      assert q[0] != d ==> Without(q, d)[1..] == Without(q[1..], d);
    }
  }

  lemma {:induction false} AppendKeepsAhead(q: seq<ClientId>, a: ClientId, c: ClientId)
    requires a in q
    ensures Ahead(q + [c], a) == Ahead(q, a)
  {
    if q[0] != a {
      assert (q + [c])[1..] == q[1..] + [c];
      AppendKeepsAhead(q[1..], a, c);
    }
  }

  /** One operation moves a waiter forward at least by one per hand-off, and never back. */
  lemma WaiterAdvances(t: Table, op: Op, n: Name, c: ClientId)
    requires TableInv(t) && c in Get(t, n).queue && op != Disconnect(c)
    ensures var l, l' := Get(t, n), Get(Apply(t, op), n);
      if GivesUp(t, op, n) then
        || l'.holder == Some(c)
        || (c in l'.queue && Ahead(l'.queue, c) < Ahead(l.queue, c))
      else
        c in l'.queue && Ahead(l'.queue, c) <= Ahead(l.queue, c)
  {
    var q := Get(t, n).queue;
    match op
    case Acquire(d, m) =>
      if m == n && d !in q {
        AppendKeepsAhead(q, c, d);
      }
    case Disconnect(d) =>
      WithoutAhead(q, d, c);
    case _ =>
  }

  /** `c` holds `n` after the first `i` operations. */
  predicate HoldsAfter(t: Table, ops: seq<Op>, i: nat, n: Name, c: ClientId) {
    i <= |ops| && Get(Run(t, ops[..i]), n).holder == Some(c)
  }

  lemma HoldsAfterFirst(t: Table, ops: seq<Op>, j: nat, n: Name, c: ClientId)
    requires ops != []
    ensures HoldsAfter(Apply(t, ops[0]), ops[1..], j, n, c) <==> HoldsAfter(t, ops, j + 1, n, c)
    ensures j < |ops| ==>
      HandOffs(t, ops[..j + 1], n)
        == (if GivesUp(t, ops[0], n) then 1 else 0) + HandOffs(Apply(t, ops[0]), ops[1..][..j], n)
  {
    if j < |ops| {
      assert ops[..j + 1][0] == ops[0] && ops[..j + 1][1..] == ops[1..][..j];
    }
  }

  /**
   Bounded waiting: a client with `k` others ahead of it that stays connected has held the lock
   by the time the lock was handed on `k + 1` times.
   */
  lemma {:induction false} WaiterServed(t: Table, ops: seq<Op>, n: Name, c: ClientId)
    requires TableInv(t) && c in Get(t, n).queue && Disconnect(c) !in ops
    requires HandOffs(t, ops, n) > Ahead(Get(t, n).queue, c)
    ensures exists i: nat :: HoldsAfter(t, ops, i, n, c) && HandOffs(t, ops[..i], n) <= Ahead(Get(t, n).queue, c) + 1
    decreases |ops|
  {
    var op, t' := ops[0], Apply(t, ops[0]);
    WaiterAdvances(t, op, n, c);
    ApplyKeepsInv(t, op);
    if Get(t', n).holder == Some(c) {
      assert HoldsAfter(t', ops[1..], 0, n, c);
      HoldsAfterFirst(t, ops, 0, n, c);
    } else {
      WaiterServed(t', ops[1..], n, c);
      var j: nat :| HoldsAfter(t', ops[1..], j, n, c)
                  && HandOffs(t', ops[1..][..j], n) <= Ahead(Get(t', n).queue, c) + 1;
      HoldsAfterFirst(t, ops, j, n, c);
    }
  }

  /** The queue order of two waiters never changes while both wait. */
  lemma OrderKept(t: Table, op: Op, n: Name, a: ClientId, b: ClientId)
    requires TableInv(t) && op != Disconnect(a)
    requires var q := Get(t, n).queue; a in q && b in q && Ahead(q, a) < Ahead(q, b)
    ensures var l' := Get(Apply(t, op), n);
      || l'.holder == Some(a)
      || (l'.holder != Some(b) && a in l'.queue && (b in l'.queue ==> Ahead(l'.queue, a) < Ahead(l'.queue, b)))
    ensures op != Disconnect(b) ==> b in Get(Apply(t, op), n).queue
  {
    var q := Get(t, n).queue;
    assert LockInv(Get(t, n));
    match op
    case Acquire(d, m) =>
      if m == n && d !in q {
        AppendKeepsAhead(q, a, d);
        AppendKeepsAhead(q, b, d);
      }
    case Disconnect(d) =>
      WithoutMembers(q, d);
      WithoutAhead(q, d, a);
      if d != b {
        WithoutKeepsOrder(q, d, a, b);
      }
    case _ =>
  }

  /** No overtaking: if the later of two waiters is served, the earlier one was served or left before. */
  lemma {:induction false} NoOvertaking(t: Table, ops: seq<Op>, n: Name, a: ClientId, b: ClientId)
    requires TableInv(t) && Disconnect(b) !in ops
    requires var q := Get(t, n).queue; a in q && b in q && Ahead(q, a) < Ahead(q, b)
    requires Get(Run(t, ops), n).holder == Some(b)
    ensures Disconnect(a) in ops || exists i: nat :: HoldsAfter(t, ops, i, n, a)
    decreases |ops|
  {
    assert LockInv(Get(t, n));
    var op, t' := ops[0], Apply(t, ops[0]);
    if Get(t', n).holder == Some(a) {
      assert HoldsAfter(t', ops[1..], 0, n, a);
      HoldsAfterFirst(t, ops, 0, n, a);
    } else if op != Disconnect(a) {
      OrderKept(t, op, n, a, b);
      ApplyKeepsInv(t, op);
      NoOvertaking(t', ops[1..], n, a, b);
      if Disconnect(a) !in ops {
        var j: nat :| HoldsAfter(t', ops[1..], j, n, a);
        HoldsAfterFirst(t, ops, j, n, a);
      }
    }
  }

  /** A request is granted on the spot only when nobody holds or waits for the lock. */
  lemma GrantOnlyWhenIdle(t: Table, op: Op, n: Name)
    requires TableInv(t) && (op.Acquire? || op.TryAcquire?) && op.name == n
    ensures Get(t, n).holder != Some(op.client) && Get(Apply(t, op), n).holder == Some(op.client)
      <==> Get(t, n) == Lock(None, [])
  {
    assert LockInv(Get(t, n));
  }

  /**
   A disconnect hands every lock the client held to its oldest other waiter and takes no other lock
   from its holder.
   */
  lemma DisconnectHandsOver(t: Table, c: ClientId, n: Name)
    requires TableInv(t)
    ensures var l, l' := Get(t, n), Get(Apply(t, Disconnect(c)), n);
      && l'.holder != Some(c) && c !in l'.queue
      && (l.holder != Some(c) ==> l'.holder == l.holder && l'.queue == Without(l.queue, c))
      && (l.holder == Some(c) ==>
            if l.queue == [] then l' == Lock(None, []) else l'.holder == Some(l.queue[0]) && l'.queue == l.queue[1..])
  {
    WithoutMembers(Get(t, n).queue, c);
    assert LockInv(Get(t, n));
    if Get(t, n).holder == Some(c) {
      WithoutAbsent(Get(t, n).queue, c);
    }
  }
}
