/** What the thread server's invariant gives its clients, and its refinement of the lock table. */
module ThreadTheorems {
  import opened Sequences
  import opened Wrappers
  import opened LockTable
  import Protocol
  import opened ThreadProtocol
  import opened ThreadInvariant

  // ---------------------------------------------------------------------------
  // Ownership and wake-ups
  // ---------------------------------------------------------------------------

  /** A client is in no queue but that of the lock its thread waits for. */
  lemma OneQueue(s: Server, c: ClientId, n: Name)
    requires Inv(s) && c in s.threads && n in s.locks && Queued(s.locks[n].waiters, c)
    ensures WaitsFor(s.threads[c], n)
  {
    var waiters := s.locks[n].waiters;
    assert EntryOk(s, n, s.locks[n]);
    var i :| 0 <= i < |waiters| && waiters[i].client == c;
    assert WaiterOk(s, n, waiters[i]);
  }

  /**
   A client holds a lock iff its thread answers for it: the lock is in the thread's `held` set
   outside the windows in which that set lags behind, or the thread was popped and not woken yet.
   */
  lemma Ownership(s: Server, c: ClientId, n: Name)
    requires Inv(s) && c in s.threads && n in s.locks
    ensures s.locks[n].holder == Some(c)
      <==> n in Owned(s.threads[c]) || (WaitsFor(s.threads[c], n) && !Queued(s.locks[n].waiters, c))
  {
    assert ThreadOk(s, c, s.threads[c]) && EntryOk(s, n, s.locks[n]);
    if WaitsFor(s.threads[c], n) && s.locks[n].holder != Some(c) {
      var waiters, w := s.locks[n].waiters, s.threads[c].pc.wake;
      var i :| 0 <= i < |waiters| && waiters[i] == Waiter(c, w);
      assert Queued(waiters, c);
    }
  }

  /** Between requests, `held` is exactly the set of locks the client holds, and it waits for none. */
  lemma QuietThread(s: Server, c: ClientId)
    requires Inv(s) && c in s.threads && s.threads[c].pc.Ready?
    ensures s.threads[c].held == set n | n in s.locks && s.locks[n].holder == Some(c)
    ensures forall n :: n in s.locks ==> !Queued(s.locks[n].waiters, c)
  {
    assert ThreadOk(s, c, s.threads[c]);
    forall n | n in s.locks
      ensures s.locks[n].holder == Some(c) <==> n in s.threads[c].held
      ensures !Queued(s.locks[n].waiters, c)
    {
      Ownership(s, c, n);
      NotQueuedAnywhere(s, c, n);
    }
  }

  /** After its cleanup a client holds nothing and waits for nothing. */
  lemma CleanupComplete(s: Server, c: ClientId)
    requires Inv(s) && c in s.threads && s.threads[c].pc.Done?
    ensures forall n :: n in s.locks ==> s.locks[n].holder != Some(c) && !Queued(s.locks[n].waiters, c)
  {
    forall n | n in s.locks
      ensures s.locks[n].holder != Some(c) && !Queued(s.locks[n].waiters, c)
    {
      Ownership(s, c, n);
      NotQueuedAnywhere(s, c, n);
    }
  }

  /** The thread about to be granted a lock is already its holder. */
  lemma NotifiedHolds(s: Server, c: ClientId)
    requires Inv(s) && c in s.threads && (s.threads[c].pc.Parking? || s.threads[c].pc.Asleep?)
    requires BeingNotified(s, s.threads[c].pc.wake)
    ensures s.threads[c].pc.name in s.locks && s.locks[s.threads[c].pc.name].holder == Some(c)
  {
    var m := s.mutex.value;
    assert ThreadOk(s, m, s.threads[m]) && ThreadOk(s, c, s.threads[c]);
    NotifyTarget(s, m);
  }

  /**
   No lost wake-up. A thread whose wake state is `Waiting` is either in exactly one queue, once,
   on a lock held by another client that has not been cleaned up; or it was just popped and the
   thread holding the store mutex is about to grant it. A granted thread that sleeps has been
   notified. Nobody ever sees `Evicted`.
   */
  lemma NoLostWakeup(s: Server, c: ClientId)
    requires Inv(s) && c in s.threads && (s.threads[c].pc.Parking? || s.threads[c].pc.Asleep?)
    ensures var pc := s.threads[c].pc;
      && pc.name in s.locks && pc.wake in s.wakes
      && (forall m :: m in s.locks && m != pc.name ==> !Queued(s.locks[m].waiters, c))
      && (if s.wakes[pc.wake].Waiting? && !BeingNotified(s, pc.wake) then
            var e := s.locks[pc.name];
            && (exists i :: 0 <= i < |e.waiters| && e.waiters[i] == Waiter(c, pc.wake))
            && (forall i, j :: 0 <= i < j < |e.waiters| ==> e.waiters[i].client != e.waiters[j].client)
            && e.holder.Some? && e.holder != Some(c)
            && e.holder.value in s.threads && !s.threads[e.holder.value].pc.Done?
          else
            && s.locks[pc.name].holder == Some(c) && !Queued(s.locks[pc.name].waiters, c)
            && (s.wakes[pc.wake].Granted? || s.wakes[pc.wake].Waiting?)
            && (s.wakes[pc.wake].Granted? && pc.Asleep? ==> pc.notified))
  {
    var t := s.threads[c];
    assert ThreadOk(s, c, t) && EntryOk(s, t.pc.name, s.locks[t.pc.name]);
    forall m | m in s.locks && m != t.pc.name
      ensures !Queued(s.locks[m].waiters, c)
    {
      if Queued(s.locks[m].waiters, c) {
        OneQueue(s, c, m);
      }
    }
    var waiters := s.locks[t.pc.name].waiters;
    if s.locks[t.pc.name].holder != Some(c) {
      var i :| 0 <= i < |waiters| && waiters[i] == Waiter(c, t.pc.wake);
      assert WaiterOk(s, t.pc.name, waiters[i]);
      assert Queued(waiters, c);
    }
    if BeingNotified(s, t.pc.wake) {
      NotifiedHolds(s, c);
    }
  }

  /**
   A popped thread gets on, whichever side reaches the wake state first: if the promoter was
   first the thread's next look lets it go, and if the thread was first the promoter's next step
   grants and notifies it.
   */
  lemma PoppedProceeds(s: Server, c: ClientId, pick: Name)
    requires Inv(s) && c in s.threads && (s.threads[c].pc.Parking? || s.threads[c].pc.Asleep?)
    requires s.threads[c].pc.name in s.locks && s.locks[s.threads[c].pc.name].holder == Some(c)
    ensures var pc := s.threads[c].pc;
      if pc.wake in s.wakes && s.wakes[pc.wake].Granted? then
        AdvanceThread(s, c, pick).threads[c] == s.threads[c].(pc := Woken(pc.name, Granted))
      else
        && BeingNotified(s, pc.wake) && s.mutex != Some(c)
        && var s' := NotifyThread(s, s.mutex.value);
           && s'.wakes[pc.wake].Granted? && WaitsOn(s'.threads[c], pc.name, pc.wake)
           && (pc.Asleep? ==> s'.threads[c].pc.notified)
  {
    assert ThreadOk(s, c, s.threads[c]);
    NeverStuck(s, c, pick);
  }

  /**
   In every schedule: whoever holds a lock answers for it, a client between requests has exactly
   its locks on record, and a client that was cleaned up has nothing left in the table.
   */
  lemma OwnershipAlways(states: seq<Server>, actions: seq<Action>, i: nat, c: ClientId, n: Name)
    requires IsRun(states, actions) && states[0] == INIT && i < |states|
    requires c in states[i].threads && n in states[i].locks
    ensures var s, t := states[i], states[i].threads[c];
      && (s.locks[n].holder == Some(c)
          <==> n in Owned(t) || (WaitsFor(t, n) && !Queued(s.locks[n].waiters, c)))
      && (t.pc.Ready? ==> (n in t.held <==> s.locks[n].holder == Some(c)) && !Queued(s.locks[n].waiters, c))
      && (t.pc.Done? ==> s.locks[n].holder != Some(c) && !Queued(s.locks[n].waiters, c))
  {
    ThreadInvariant.RunKeepsInv(states, actions, i);
    var s := states[i];
    Ownership(s, c, n);
    if s.threads[c].pc.Ready? {
      QuietThread(s, c);
    } else if s.threads[c].pc.Done? {
      CleanupComplete(s, c);
    }
  }

  /** In every schedule: no step of any thread ever finds, or leads to, the wake state `Evicted`. */
  lemma NeverEvicted(states: seq<Server>, actions: seq<Action>, i: nat, c: ClientId)
    requires IsRun(states, actions) && states[0] == INIT && i < |states| && c in states[i].threads
    ensures var s, pc := states[i], states[i].threads[c].pc;
      && !pc.EvictNotifying? && (pc.Woken? ==> pc.state.Granted?)
      && ((pc.Parking? || pc.Asleep?) ==> pc.wake in s.wakes && !s.wakes[pc.wake].Evicted?)
  {
    ThreadInvariant.RunKeepsInv(states, actions, i);
    assert ThreadOk(states[i], c, states[i].threads[c]);
    if states[i].threads[c].pc.Parking? || states[i].threads[c].pc.Asleep? {
      NoLostWakeup(states[i], c);
    }
  }

  // ---------------------------------------------------------------------------
  // The store mutex is always given back
  // ---------------------------------------------------------------------------

  /** Steps the owner of the store mutex may still take before unlocking it. */
  function Remaining(t: Thread): nat {
    match t.pc
    case Promoting(_, Reply) => 2
    case Notifying(_, _, Reply) => 1
    case Evicting(todo) => 2 + |todo| + 3 * |t.held|
    case EvictNotifying(_, todo) => 3 + |todo| + 3 * |t.held|
    case Freeing(todo) => 1 + 3 * |todo|
    case Promoting(_, Cleanup(todo)) => 3 + 3 * |todo|
    case Notifying(_, _, Cleanup(todo)) => 2 + 3 * |todo|
    case _ => 0
  }

  lemma OwnerStep(s: Server, c: ClientId, pick: Name)
    requires c in s.threads && Locks(s.threads[c]) && s.mutex == Some(c)
    requires Enabled(s, Advance(c, pick)) && CanAdvance(s, c, pick)
    requires s.threads[c].pc.Evicting? && pick in s.threads[c].pc.todo ==> !Queued(s.locks[pick].waiters, c)
    ensures var s' := AdvanceThread(s, c, pick);
      s'.mutex.None? || (s'.mutex == Some(c) && Remaining(s'.threads[c]) < Remaining(s.threads[c]))
  {
    var pc := s.threads[c].pc;
    if (pc.Evicting? || pc.Freeing?) && pick in pc.todo {
      assert |pc.todo - {pick}| == |pc.todo| - 1;
    }
  }

  /** The owner never waits for anything: each of its steps unlocks or brings the unlock nearer. */
  lemma MutexReleased(s: Server, c: ClientId, pick: Name)
    requires Inv(s) && s.mutex == Some(c) && Enabled(s, Advance(c, pick))
    ensures CanAdvance(s, c, pick)
    ensures var s' := AdvanceThread(s, c, pick);
      s'.mutex.None? || (s'.mutex == Some(c) && Remaining(s'.threads[c]) < Remaining(s.threads[c]))
  {
    assert ThreadOk(s, c, s.threads[c]);
    NeverStuck(s, c, pick);
    if s.threads[c].pc.Evicting? && pick in s.threads[c].pc.todo {
      NotQueuedAnywhere(s, c, pick);
    }
    OwnerStep(s, c, pick);
  }

  // ---------------------------------------------------------------------------
  // Refinement of the abstract lock table
  // ---------------------------------------------------------------------------

  /** The table operation an action performs, if any: a promotion is the moment the waiter is popped. */
  function OpsOf(s: Server, a: Action): seq<Op>
    requires Enabled(s, a)
  {
    match a
    case Accept => []
    case Receive(c, Acquire(n)) => [LockTable.Acquire(c, n)]
    case Receive(c, TryAcquire(n)) => [LockTable.TryAcquire(c, n)]
    case Receive(c, Release(n)) => if GetEntry(s, n).holder == Some(c) then [] else [LockTable.Release(c, n)]
    case Receive(c, Status(n)) => [Status(n)]
    case Receive(c, List) => []
    case Hangup(c) => []
    case Advance(c, pick) =>
      var pc := s.threads[c].pc;
      if pc.Promoting? then [LockTable.Release(c, pc.name)]
      else if pc.Freeing? && pick !in pc.todo then [Disconnect(c)]
      else []
  }

  lemma AbsGet(s: Server, n: Name)
    ensures Get(Abs(s), n) == Lock(GetEntry(s, n).holder, Clients(GetEntry(s, n).waiters))
    ensures forall c :: c in Get(Abs(s), n).queue <==> Queued(GetEntry(s, n).waiters, c)
  {
    var waiters := GetEntry(s, n).waiters;
    assert n !in s.locks ==> Clients([]) == [];
    forall c
      ensures c in Clients(waiters) <==> Queued(waiters, c)
    {
      if Queued(waiters, c) {
        var i :| 0 <= i < |waiters| && waiters[i].client == c;
        assert Clients(waiters)[i] == c;
      }
    }
  }

  /** If only one lock changed, the table changed only there. */
  lemma AbsOfOne(s: Server, s': Server, n: Name)
    requires n in s'.locks && s'.locks == s.locks[n := s'.locks[n]]
    ensures Abs(s') == Abs(s)[n := Lock(s'.locks[n].holder, Clients(s'.locks[n].waiters))]
  {}

  lemma ClientsAppend(waiters: seq<Waiter>, x: Waiter)
    ensures Clients(waiters + [x]) == Clients(waiters) + [x.client]
  {}

  lemma ReceiveRefines(s: Server, c: ClientId, r: Protocol.Request)
    requires Enabled(s, Receive(c, r)) && !r.List?
    ensures Abs(Step(s, Receive(c, r))) == Run(Abs(s), OpsOf(s, Receive(c, r)))
  {
    var n := r.name;
    var e, s', ops := GetEntry(s, n), Step(s, Receive(c, r)), OpsOf(s, Receive(c, r));
    AbsGet(s, n);
    AbsOfOne(s, s', n);
    if ops == [] {
      assert n in s.locks && s'.locks[n] == s.locks[n];
    } else {
      RunOne(Abs(s), ops[0]);
      ClientsAppend(e.waiters, Waiter(c, s.nextWake));
    }
  }

  lemma PopRefines(s: Server, c: ClientId)
    requires c in s.threads && s.threads[c].pc.Promoting?
    requires s.threads[c].pc.name in s.locks && s.locks[s.threads[c].pc.name].holder == Some(c)
    ensures Abs(PopThread(s, c)) == Apply(Abs(s), LockTable.Release(c, s.threads[c].pc.name))
  {
    var n, s' := s.threads[c].pc.name, PopThread(s, c);
    var waiters := s.locks[n].waiters;
    assert waiters != [] ==> Clients(waiters[1..]) == Clients(waiters)[1..];
    assert Clients([]) == [];
    assert Abs(s') == Abs(s)[n := Abs(s')[n]];
  }

  lemma UnrelatedLock(s: Server, c: ClientId, n: Name)
    requires n in s.locks && s.locks[n].holder != Some(c) && !Queued(s.locks[n].waiters, c)
    ensures DisconnectLock(Abs(s)[n], c) == Abs(s)[n]
  {
    AbsGet(s, n);
    WithoutAbsent(Abs(s)[n].queue, c);
  }

  lemma CleanedLock(s: Server, c: ClientId, n: Name)
    requires Inv(s) && c in s.threads && s.threads[c].pc.Freeing? && s.threads[c].pc.todo == {} && n in s.locks
    ensures DisconnectLock(Abs(s)[n], c) == Abs(s)[n]
  {
    Ownership(s, c, n);
    assert EntryOk(s, n, s.locks[n]);
    NotQueuedAnywhere(s, c, n);
    UnrelatedLock(s, c, n);
  }

  /** Once a client is cleaned up, disconnecting it changes nothing in the table. */
  lemma DisconnectIsNoOp(s: Server, c: ClientId)
    requires Inv(s) && c in s.threads && s.threads[c].pc.Freeing? && s.threads[c].pc.todo == {}
    ensures Apply(Abs(s), Disconnect(c)) == Abs(s)
  {
    forall n | n in s.locks
      ensures DisconnectLock(Abs(s)[n], c) == Abs(s)[n]
    {
      CleanedLock(s, c, n);
    }
  }

  lemma AdvanceRefines(s: Server, c: ClientId, pick: Name)
    requires Inv(s) && Enabled(s, Advance(c, pick)) && CanAdvance(s, c, pick)
    ensures Abs(AdvanceThread(s, c, pick)) == Run(Abs(s), OpsOf(s, Advance(c, pick)))
  {
    var pc := s.threads[c].pc;
    assert ThreadOk(s, c, s.threads[c]);
    if pc.Evicting? && pick in pc.todo {
      NotQueuedAnywhere(s, c, pick);
    }
    AdvanceShape(s, c, pick);
    if pc.Promoting? {
      PopHolds(s, c);
      PopRefines(s, c);
      RunOne(Abs(s), LockTable.Release(c, pc.name));
    } else if pc.Freeing? && pick !in pc.todo {
      DisconnectIsNoOp(s, c);
      RunOne(Abs(s), Disconnect(c));
    }
  }

  lemma StepRefines(s: Server, a: Action)
    requires Inv(s) && Enabled(s, a)
    ensures a.Advance? ==> CanAdvance(s, a.client, a.pick)
    ensures Abs(Step(s, a)) == Run(Abs(s), OpsOf(s, a))
  {
    StepKeepsInv(s, a);
    match a
    case Receive(c, r) =>
      if !r.List? {
        ReceiveRefines(s, c, r);
      }
    case Advance(c, pick) => AdvanceRefines(s, c, pick);
    case _ => assert Step(s, a).locks == s.locks;
  }

  /** The table operations between two states of a run. */
  ghost function History(states: seq<Server>, actions: seq<Action>, i: nat, j: nat): seq<Op>
    requires IsRun(states, actions) && i <= j < |states|
    decreases j - i
  {
    if i == j then [] else OpsOf(states[i], actions[i]) + History(states, actions, i + 1, j)
  }

  /** The server refines the lock table: any stretch of any run is a run of the table. */
  lemma {:induction false} RunRefines(states: seq<Server>, actions: seq<Action>, i: nat, j: nat)
    requires IsRun(states, actions) && states[0] == INIT && i <= j < |states|
    ensures Abs(states[j]) == Run(Abs(states[i]), History(states, actions, i, j))
    decreases j - i
  {
    if i < j {
      ThreadInvariant.RunKeepsInv(states, actions, i);
      StepRefines(states[i], actions[i]);
      RunRefines(states, actions, i + 1, j);
      RunConcat(Abs(states[i]), OpsOf(states[i], actions[i]), History(states, actions, i + 1, j));
    }
  }

  lemma AbsInv(s: Server)
    requires Inv(s)
    ensures TableInv(Abs(s))
  {
    forall n | n in s.locks
      ensures LockInv(Abs(s)[n])
    {
      assert EntryOk(s, n, s.locks[n]);
      AbsGet(s, n);
    }
  }

  /** Every prefix of a history is the table of some state on the way. */
  lemma {:induction false} PrefixIsState(states: seq<Server>, actions: seq<Action>, i: nat, j: nat, p: nat)
    requires IsRun(states, actions) && states[0] == INIT && i <= j < |states|
    requires p <= |History(states, actions, i, j)|
    ensures exists k :: i <= k <= j && Abs(states[k]) == Run(Abs(states[i]), History(states, actions, i, j)[..p])
    decreases j - i
  {
    if p == 0 {
      assert Abs(states[i]) == Run(Abs(states[i]), History(states, actions, i, j)[..p]);
    } else {
      var first, rest := OpsOf(states[i], actions[i]), History(states, actions, i + 1, j);
      ThreadInvariant.RunKeepsInv(states, actions, i);
      StepRefines(states[i], actions[i]);
      assert |first| <= 1;
      PrefixIsState(states, actions, i + 1, j, p - |first|);
      assert (first + rest)[..p] == first + rest[..p - |first|];
      RunConcat(Abs(states[i]), first, rest[..p - |first|]);
    }
  }

  /**
   Bounded waiting in the server: a waiter with `k` others ahead of it that stays connected is
   the holder in some state before the lock was handed on more than `k + 1` times.
   */
  lemma ThreadWaiterServed(states: seq<Server>, actions: seq<Action>, i: nat, j: nat, n: Name, c: ClientId)
    requires IsRun(states, actions) && states[0] == INIT && i <= j < |states|
    requires c in Get(Abs(states[i]), n).queue && Disconnect(c) !in History(states, actions, i, j)
    requires HandOffs(Abs(states[i]), History(states, actions, i, j), n) > Ahead(Get(Abs(states[i]), n).queue, c)
    ensures exists k :: i <= k <= j && n in states[k].locks && states[k].locks[n].holder == Some(c)
  {
    var ops := History(states, actions, i, j);
    ThreadInvariant.RunKeepsInv(states, actions, i);
    AbsInv(states[i]);
    WaiterServed(Abs(states[i]), ops, n, c);
    var p: nat :| HoldsAfter(Abs(states[i]), ops, p, n, c);
    PrefixIsState(states, actions, i, j, p);
    var k :| i <= k <= j && Abs(states[k]) == Run(Abs(states[i]), ops[..p]);
    AbsGet(states[k], n);
  }
}
