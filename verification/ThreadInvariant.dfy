/** Every step of the thread server keeps its invariant. */
module ThreadInvariant {
  import opened Wrappers
  import opened LockTable
  import opened ThreadProtocol

  function SetThread(s: Server, c: ClientId, t: Thread, mutex: Option<ClientId>): Server {
    s.(threads := s.threads[c := t], mutex := mutex)
  }

  function Touch(s: Server, n: Name): Server {
    s.(locks := s.locks[n := GetEntry(s, n)])
  }

  lemma TouchKeepsInv(s: Server, n: Name)
    requires Inv(s)
    ensures Inv(Touch(s, n))
  {
    var s' := Touch(s, n);
    forall m | m in s'.locks
      ensures EntryOk(s', m, s'.locks[m])
    {
      assert m in s.locks ==> EntryOk(s, m, s.locks[m]);
    }
    forall d | d in s'.threads
      ensures ThreadOk(s', d, s'.threads[d])
    {
      assert ThreadOk(s, d, s.threads[d]);
    }
  }

  /**
   A step that only moves thread `c` on: it still answers for every lock it holds, and it still
   waits wherever it is queued.
   */
  ghost predicate MovesOn(s: Server, c: ClientId, t: Thread, mutex: Option<ClientId>)
    requires c in s.threads
  {
    var u := s.threads[c];
    && ThreadOk(SetThread(s, c, t, mutex), c, t)
    && !u.pc.Notifying?
    && (mutex == s.mutex || (s.mutex in {None, Some(c)} && mutex in {None, Some(c)}))
    && (forall n :: n in Owned(u) ==> n in Owned(t))
    && (u.pc.Parking? || u.pc.Asleep? ==>
          var n, w := u.pc.name, u.pc.wake;
          WaitsOn(t, n, w) || (n in Owned(t) && w in s.wakes && !s.wakes[w].Waiting?))
    && (t.pc.Parking? || t.pc.Asleep? ==> WaitsOn(u, t.pc.name, t.pc.wake))
  }

  lemma MovesOnEntry(s: Server, c: ClientId, t: Thread, mutex: Option<ClientId>, m: Name)
    requires Inv(s) && c in s.threads && MovesOn(s, c, t, mutex) && m in s.locks
    ensures EntryOk(SetThread(s, c, t, mutex), m, s.locks[m])
  {
    var s', e := SetThread(s, c, t, mutex), s.locks[m];
    assert EntryOk(s, m, e);
    forall i | 0 <= i < |e.waiters|
      ensures WaiterOk(s', m, e.waiters[i])
    {
      assert WaiterOk(s, m, e.waiters[i]);
    }
  }

  lemma MovesOnThread(s: Server, c: ClientId, t: Thread, mutex: Option<ClientId>, d: ClientId)
    requires Inv(s) && c in s.threads && MovesOn(s, c, t, mutex) && d in s.threads && d != c
    ensures ThreadOk(SetThread(s, c, t, mutex), d, s.threads[d])
  {
    assert ThreadOk(s, d, s.threads[d]) && ThreadOk(s, c, s.threads[c]);
    var pc := s.threads[d].pc;
    if pc.Notifying? {
      assert EntryOk(s, pc.name, s.locks[pc.name]);
    }
  }

  lemma MovesOnKeepsInv(s: Server, c: ClientId, t: Thread, mutex: Option<ClientId>)
    requires Inv(s) && c in s.threads && MovesOn(s, c, t, mutex)
    ensures Inv(SetThread(s, c, t, mutex))
  {
    var s' := SetThread(s, c, t, mutex);
    forall m | m in s'.locks
      ensures EntryOk(s', m, s'.locks[m])
    {
      MovesOnEntry(s, c, t, mutex, m);
    }
    forall d | d in s'.threads
      ensures ThreadOk(s', d, s'.threads[d])
    {
      if d != c {
        MovesOnThread(s, c, t, mutex, d);
      }
    }
    forall d, d' | d in s'.threads && d' in s'.threads && d != d'
      ensures DistinctWakes(s'.threads[d], s'.threads[d'])
    {
      assert DistinctWakes(s.threads[d], s.threads[d']);
    }
  }

  // ---------------------------------------------------------------------------
  // Requests
  // ---------------------------------------------------------------------------

  /** A free lock without waiters is given to `c`. */
  function Grant(s: Server, c: ClientId, n: Name, t: Thread): Server {
    s.(locks := s.locks[n := Entry(Some(c), [])], threads := s.threads[c := t])
  }

  ghost predicate CanGrant(s: Server, c: ClientId, n: Name, t: Thread) {
    && Inv(s) && c in s.threads && s.threads[c].pc.Ready? && s.mutex.None?
    && n in s.locks && s.locks[n] == Entry(None, [])
    && (t == Thread(Ready, s.threads[c].held + {n}) || t == Thread(Inserting(n), s.threads[c].held))
  }

  lemma GrantEntry(s: Server, c: ClientId, n: Name, t: Thread, m: Name)
    requires CanGrant(s, c, n, t) && m in s.locks
    ensures EntryOk(Grant(s, c, n, t), m, Grant(s, c, n, t).locks[m])
  {
    assert EntryOk(s, m, s.locks[m]);
    forall i | 0 <= i < |s.locks[m].waiters|
      ensures WaiterOk(Grant(s, c, n, t), m, s.locks[m].waiters[i])
    {
      assert WaiterOk(s, m, s.locks[m].waiters[i]);
    }
  }

  lemma GrantThread(s: Server, c: ClientId, n: Name, t: Thread, d: ClientId)
    requires CanGrant(s, c, n, t) && d in s.threads
    ensures ThreadOk(Grant(s, c, n, t), d, Grant(s, c, n, t).threads[d])
  {
    assert ThreadOk(s, d, s.threads[d]) && ThreadOk(s, c, s.threads[c]);
  }

  lemma GrantKeepsInv(s: Server, c: ClientId, n: Name, t: Thread)
    requires CanGrant(s, c, n, t)
    ensures Inv(Grant(s, c, n, t))
  {
    var s' := Grant(s, c, n, t);
    forall m | m in s'.locks
      ensures EntryOk(s', m, s'.locks[m])
    {
      GrantEntry(s, c, n, t, m);
    }
    forall d | d in s'.threads
      ensures ThreadOk(s', d, s'.threads[d])
    {
      GrantThread(s, c, n, t, d);
    }
    forall d, d' | d in s'.threads && d' in s'.threads && d != d'
      ensures DistinctWakes(s'.threads[d], s'.threads[d'])
    {
      assert DistinctWakes(s.threads[d], s.threads[d']);
    }
  }

  /** A held lock gets `c` as its newest waiter, with a fresh wake state. */
  function Enqueue(s: Server, c: ClientId, n: Name): Server
    requires c in s.threads && n in s.locks
  {
    var w := s.nextWake;
    WithPc(s.(locks := s.locks[n := s.locks[n].(waiters := s.locks[n].waiters + [Waiter(c, w)])],
              wakes := s.wakes[w := Waiting], nextWake := w + 1),
           c, Parking(n, w))
  }

  ghost predicate CanEnqueue(s: Server, c: ClientId, n: Name) {
    && c in s.threads && s.threads[c].pc.Ready? && s.mutex.None? && ThreadOk(s, c, s.threads[c])
    && n in s.locks && s.locks[n].holder.Some? && s.locks[n].holder != Some(c) && !Queued(s.locks[n].waiters, c)
    && s.nextWake !in s.wakes
  }

  lemma EnqueueEntry(s: Server, c: ClientId, n: Name, m: Name)
    requires CanEnqueue(s, c, n) && m in s.locks && EntryOk(s, m, s.locks[m])
    ensures EntryOk(Enqueue(s, c, n), m, Enqueue(s, c, n).locks[m])
  {
    var s', e := Enqueue(s, c, n), s.locks[m];
    forall i | 0 <= i < |e.waiters|
      ensures WaiterOk(s', m, e.waiters[i])
    {
      assert WaiterOk(s, m, e.waiters[i]);
    }
    assert WaiterOk(s', n, Waiter(c, s.nextWake));
  }

  lemma EnqueueThread(s: Server, c: ClientId, n: Name, d: ClientId)
    requires CanEnqueue(s, c, n) && d in s.threads && ThreadOk(s, d, s.threads[d])
    ensures ThreadOk(Enqueue(s, c, n), d, Enqueue(s, c, n).threads[d])
  {
    var s', waiters := Enqueue(s, c, n), s.locks[n].waiters;
    assert s'.locks[n].waiters[|waiters|] == Waiter(c, s.nextWake);
    assert forall x :: x in waiters ==> x in s'.locks[n].waiters;
  }

  lemma EnqueueKeepsInv(s: Server, c: ClientId, n: Name)
    requires Inv(s) && CanEnqueue(s, c, n)
    ensures Inv(Enqueue(s, c, n))
  {
    var s' := Enqueue(s, c, n);
    forall m | m in s'.locks
      ensures EntryOk(s', m, s'.locks[m])
    {
      EnqueueEntry(s, c, n, m);
    }
    forall d | d in s'.threads
      ensures ThreadOk(s', d, s'.threads[d])
    {
      EnqueueThread(s, c, n, d);
    }
    forall d, d' | d in s'.threads && d' in s'.threads && d != d'
      ensures DistinctWakes(s'.threads[d], s'.threads[d'])
    {
      assert DistinctWakes(s.threads[d], s.threads[d']);
      assert d != c ==> ThreadOk(s, d, s.threads[d]);
      assert d' != c ==> ThreadOk(s, d', s.threads[d']);
    }
  }

  /** The three requests that change a lock, after the entry was created if it was missing. */
  lemma RequestShapes(s: Server, c: ClientId, n: Name)
    requires c in s.threads
    ensures var s1, e, t := Touch(s, n), GetEntry(s, n), s.threads[c];
      && ThreadProtocol.Acquire(s, c, n)
           == (if e.holder == Some(c) || Queued(e.waiters, c) then s1
               else if e == Entry(None, []) then Grant(s1, c, n, Thread(t.pc, t.held + {n}))
               else if e.holder.None? then ThreadProtocol.Acquire(s, c, n)
               else Enqueue(s1, c, n))
      && ThreadProtocol.TryAcquire(s, c, n)
           == (if e == Entry(None, []) then Grant(s1, c, n, Thread(Inserting(n), t.held))
               else if e.holder.None? then ThreadProtocol.TryAcquire(s, c, n)
               else s1)
      && ThreadProtocol.Release(s, c, n)
           == (if e.holder == Some(c) then SetThread(s1, c, t.(pc := Promoting(n, Reply)), Some(c)) else s1)
  {}

  /** A free lock has no waiters. */
  lemma FreeIsIdle(s: Server, n: Name)
    requires Inv(s) && n in s.locks && s.locks[n].holder.None?
    ensures s.locks[n] == Entry(None, [])
  {
    assert EntryOk(s, n, s.locks[n]);
  }

  lemma AcquireKeepsInv(s: Server, c: ClientId, n: Name)
    requires Inv(s) && c in s.threads && s.threads[c].pc.Ready? && s.mutex.None?
    ensures Inv(ThreadProtocol.Acquire(s, c, n))
  {
    var s1, e := Touch(s, n), GetEntry(s, n);
    RequestShapes(s, c, n);
    TouchKeepsInv(s, n);
    if e.holder == Some(c) || Queued(e.waiters, c) {
    } else if e.holder.None? {
      FreeIsIdle(s1, n);
      GrantKeepsInv(s1, c, n, Thread(Ready, s.threads[c].held + {n}));
    } else {
      EnqueueKeepsInv(s1, c, n);
    }
  }

  lemma TryAcquireKeepsInv(s: Server, c: ClientId, n: Name)
    requires Inv(s) && c in s.threads && s.threads[c].pc.Ready? && s.mutex.None?
    ensures Inv(ThreadProtocol.TryAcquire(s, c, n))
  {
    RequestShapes(s, c, n);
    TouchKeepsInv(s, n);
    if GetEntry(s, n).holder.None? {
      FreeIsIdle(Touch(s, n), n);
      GrantKeepsInv(Touch(s, n), c, n, Thread(Inserting(n), s.threads[c].held));
    }
  }

  lemma ReleaseMoves(s: Server, c: ClientId, n: Name)
    requires Inv(s) && c in s.threads && s.threads[c].pc.Ready? && s.mutex.None?
    requires n in s.locks && s.locks[n].holder == Some(c)
    ensures MovesOn(s, c, s.threads[c].(pc := Promoting(n, Reply)), Some(c))
  {
    assert EntryOk(s, n, s.locks[n]) && ThreadOk(s, c, s.threads[c]);
  }

  lemma ReleaseKeepsInv(s: Server, c: ClientId, n: Name)
    requires Inv(s) && c in s.threads && s.threads[c].pc.Ready? && s.mutex.None?
    ensures Inv(ThreadProtocol.Release(s, c, n))
  {
    RequestShapes(s, c, n);
    TouchKeepsInv(s, n);
    if GetEntry(s, n).holder == Some(c) {
      ReleaseMoves(Touch(s, n), c, n);
      MovesOnKeepsInv(Touch(s, n), c, s.threads[c].(pc := Promoting(n, Reply)), Some(c));
    }
  }

  /** The next connection's id is nobody's. */
  lemma NextIdIsFresh(s: Server)
    requires Inv(s)
    ensures s.nextId !in s.threads
  {
    assert forall c :: c in s.threads ==> ThreadOk(s, c, s.threads[c]);
  }

  lemma AcceptKeepsInv(s: Server)
    requires Inv(s) && s.mutex.None?
    ensures Inv(Step(s, Accept))
  {
    var s' := Step(s, Accept);
    forall m | m in s'.locks
      ensures EntryOk(s', m, s'.locks[m])
    {
      assert EntryOk(s, m, s.locks[m]);
    }
    forall d | d in s'.threads
      ensures ThreadOk(s', d, s'.threads[d])
    {
      assert d in s.threads ==> ThreadOk(s, d, s.threads[d]);
    }
    forall d, d' | d in s'.threads && d' in s'.threads && d != d'
      ensures DistinctWakes(s'.threads[d], s'.threads[d'])
    {
      assert d in s.threads && d' in s.threads ==> DistinctWakes(s.threads[d], s.threads[d']);
    }
  }

  // ---------------------------------------------------------------------------
  // Promotion
  // ---------------------------------------------------------------------------

  ghost predicate Popping(s: Server, c: ClientId) {
    Inv(s) && c in s.threads && s.threads[c].pc.Promoting?
  }

  function PopThread(s: Server, c: ClientId): Server
    requires c in s.threads && s.threads[c].pc.Promoting? && s.threads[c].pc.name in s.locks
  {
    Pop(s, c, s.threads[c].pc.name, s.threads[c].pc.after)
  }

  lemma PopHolds(s: Server, c: ClientId)
    requires Popping(s, c)
    ensures var n := s.threads[c].pc.name; n in s.locks && s.locks[n].holder == Some(c) && s.mutex == Some(c)
  {
    assert ThreadOk(s, c, s.threads[c]);
  }

  lemma PopOtherEntry(s: Server, c: ClientId, m: Name)
    requires c in s.threads && s.threads[c].pc.Promoting? && ThreadOk(s, c, s.threads[c])
    requires s.threads[c].pc.name in s.locks && m in s.locks && m != s.threads[c].pc.name && EntryOk(s, m, s.locks[m])
    ensures EntryOk(PopThread(s, c), m, s.locks[m])
  {
    var s', e := PopThread(s, c), s.locks[m];
    forall i | 0 <= i < |e.waiters|
      ensures WaiterOk(s', m, e.waiters[i])
    {
      assert WaiterOk(s, m, e.waiters[i]);
    }
  }

  lemma PopOwnEntry(s: Server, c: ClientId)
    requires c in s.threads && s.threads[c].pc.Promoting?
    requires s.threads[c].pc.name in s.locks && EntryOk(s, s.threads[c].pc.name, s.locks[s.threads[c].pc.name])
    ensures EntryOk(PopThread(s, c), s.threads[c].pc.name, PopThread(s, c).locks[s.threads[c].pc.name])
  {
    var s', n := PopThread(s, c), s.threads[c].pc.name;
    var waiters := s.locks[n].waiters;
    forall i | 0 <= i < |waiters|
      ensures WaiterOk(s', n, waiters[i])
    {
      assert WaiterOk(s, n, waiters[i]);
    }
    if waiters != [] {
      assert s'.locks[n] == Entry(Some(waiters[0].client), waiters[1..]);
      assert WaiterOk(s', n, waiters[0]);
    }
  }

  lemma PopOther(s: Server, c: ClientId, d: ClientId)
    requires c in s.threads && s.threads[c].pc.Promoting? && d in s.threads && d != c
    requires ThreadOk(s, c, s.threads[c]) && ThreadOk(s, d, s.threads[d])
    requires s.threads[c].pc.name in s.locks && EntryOk(s, s.threads[c].pc.name, s.locks[s.threads[c].pc.name])
    ensures ThreadOk(PopThread(s, c), d, PopThread(s, c).threads[d])
  {
    var n, t := s.threads[c].pc.name, s.threads[d];
    if WaitsFor(t, n) {
      var waiters := s.locks[n].waiters;
      assert Waiter(d, t.pc.wake) in waiters;
      assert WaiterOk(s, n, waiters[0]);
      assert forall x :: x in waiters ==> x == waiters[0] || x in waiters[1..];
    }
  }

  lemma PopSelf(s: Server, c: ClientId)
    requires c in s.threads && s.threads[c].pc.Promoting? && ThreadOk(s, c, s.threads[c])
    requires s.threads[c].pc.name in s.locks && EntryOk(s, s.threads[c].pc.name, s.locks[s.threads[c].pc.name])
    ensures ThreadOk(PopThread(s, c), c, PopThread(s, c).threads[c])
  {
    var n := s.threads[c].pc.name;
    if s.locks[n].waiters != [] {
      assert WaiterOk(s, n, s.locks[n].waiters[0]);
    }
  }

  lemma PopKeepsInv(s: Server, c: ClientId)
    requires Popping(s, c)
    ensures s.threads[c].pc.name in s.locks && Inv(PopThread(s, c))
  {
    PopHolds(s, c);
    var s' := PopThread(s, c);
    forall m | m in s'.locks
      ensures EntryOk(s', m, s'.locks[m])
    {
      if m == s.threads[c].pc.name {
        PopOwnEntry(s, c);
      } else {
        PopOtherEntry(s, c, m);
      }
    }
    forall d | d in s'.threads
      ensures ThreadOk(s', d, s'.threads[d])
    {
      if d == c {
        PopSelf(s, c);
      } else {
        PopOther(s, c, d);
      }
    }
    forall d, d' | d in s'.threads && d' in s'.threads && d != d'
      ensures DistinctWakes(s'.threads[d], s'.threads[d'])
    {
      assert DistinctWakes(s.threads[d], s.threads[d']);
    }
  }

  ghost predicate Waking(s: Server, c: ClientId) {
    Inv(s) && c in s.threads && s.threads[c].pc.Notifying?
  }

  function NotifyThread(s: Server, c: ClientId): Server
    requires c in s.threads && s.threads[c].pc.Notifying?
  {
    Leave(Notify(s, s.threads[c].pc.wake, Granted), c, s.threads[c].pc.name, s.threads[c].pc.after)
  }

  /** The thread being notified is the only one waiting with this wake state. */
  ghost predicate OnlyWaiter(s: Server, w: WakeId, h: ClientId) {
    forall d :: d in s.threads && d != h && (s.threads[d].pc.Parking? || s.threads[d].pc.Asleep?) ==>
      s.threads[d].pc.wake != w
  }

  lemma NotifyTarget(s: Server, c: ClientId)
    requires Waking(s, c)
    ensures var pc := s.threads[c].pc;
      && pc.name in s.locks && s.locks[pc.name].holder.Some? && OnlyWaiter(s, pc.wake, s.locks[pc.name].holder.value)
  {
    var pc := s.threads[c].pc;
    assert ThreadOk(s, c, s.threads[c]);
    var h := s.locks[pc.name].holder.value;
    forall d | d in s.threads && d != h
      ensures DistinctWakes(s.threads[d], s.threads[h])
    {}
  }

  lemma NotifyEntry(s: Server, c: ClientId, m: Name)
    requires c in s.threads && s.threads[c].pc.Notifying? && ThreadOk(s, c, s.threads[c])
    requires m in s.locks && EntryOk(s, m, s.locks[m])
    requires EntryOk(s, s.threads[c].pc.name, s.locks[s.threads[c].pc.name])
    requires OnlyWaiter(s, s.threads[c].pc.wake, s.locks[s.threads[c].pc.name].holder.value)
    ensures EntryOk(NotifyThread(s, c), m, s.locks[m])
  {
    var s', e := NotifyThread(s, c), s.locks[m];
    forall i | 0 <= i < |e.waiters|
      ensures WaiterOk(s', m, e.waiters[i])
    {
      assert WaiterOk(s, m, e.waiters[i]);
    }
  }

  lemma NotifyOther(s: Server, c: ClientId, d: ClientId)
    requires c in s.threads && s.threads[c].pc.Notifying? && d in s.threads && d != c
    requires ThreadOk(s, c, s.threads[c]) && ThreadOk(s, d, s.threads[d])
    requires OnlyWaiter(s, s.threads[c].pc.wake, s.locks[s.threads[c].pc.name].holder.value)
    ensures ThreadOk(NotifyThread(s, c), d, NotifyThread(s, c).threads[d])
  {}

  lemma NotifySelf(s: Server, c: ClientId)
    requires c in s.threads && s.threads[c].pc.Notifying? && ThreadOk(s, c, s.threads[c])
    ensures ThreadOk(NotifyThread(s, c), c, NotifyThread(s, c).threads[c])
    ensures s.threads[c].pc.wake in s.wakes && NotifyThread(s, c).mutex in {None, Some(c)}
  {}

  lemma NotifyKeepsEntries(s: Server, c: ClientId)
    requires Waking(s, c)
    ensures var s' := NotifyThread(s, c); forall m :: m in s'.locks ==> EntryOk(s', m, s'.locks[m])
  {
    var s' := NotifyThread(s, c);
    forall m | m in s'.locks
      ensures EntryOk(s', m, s'.locks[m])
    {
      NotifyEntry(s, c, m);
    }
  }

  lemma NotifyKeepsThreads(s: Server, c: ClientId)
    requires Waking(s, c)
    ensures var s' := NotifyThread(s, c); forall d :: d in s'.threads ==> ThreadOk(s', d, s'.threads[d])
  {
    var s' := NotifyThread(s, c);
    NotifySelf(s, c);
    forall d | d in s'.threads && d != c
      ensures ThreadOk(s', d, s'.threads[d])
    {
      NotifyOther(s, c, d);
    }
  }

  /** Nobody starts to wait, or for something else. */
  lemma NotifySameWake(s: Server, c: ClientId, d: ClientId)
    requires c in s.threads && s.threads[c].pc.Notifying? && d in s.threads
    ensures var pc, pc' := s.threads[d].pc, NotifyThread(s, c).threads[d].pc;
      pc'.Parking? || pc'.Asleep? ==> (pc.Parking? || pc.Asleep?) && pc'.wake == pc.wake
  {}

  lemma NotifyKeepsWakes(s: Server, c: ClientId)
    requires Waking(s, c)
    ensures var s' := NotifyThread(s, c);
      && (forall w :: w in s'.wakes ==> w < s'.nextWake) && (s'.mutex.Some? ==> s'.mutex.value in s'.threads)
      && forall d, d' :: d in s'.threads && d' in s'.threads && d != d' ==> DistinctWakes(s'.threads[d], s'.threads[d'])
  {
    var s' := NotifyThread(s, c);
    NotifyTarget(s, c);
    forall d, d' | d in s'.threads && d' in s'.threads && d != d'
      ensures DistinctWakes(s'.threads[d], s'.threads[d'])
    {
      assert DistinctWakes(s.threads[d], s.threads[d']);
      NotifySameWake(s, c, d);
      NotifySameWake(s, c, d');
    }
  }

  lemma NotifyKeepsInv(s: Server, c: ClientId)
    requires Waking(s, c)
    ensures Inv(NotifyThread(s, c))
  {
    NotifyKeepsEntries(s, c);
    NotifyKeepsThreads(s, c);
    NotifyKeepsWakes(s, c);
  }

  // ---------------------------------------------------------------------------
  // Steps of a single thread
  // ---------------------------------------------------------------------------

  /** Looking at the wake state: either back to sleep, or on with the lock in hand. */
  lemma CheckMoves(s: Server, c: ClientId)
    requires c in s.threads && ThreadOk(s, c, s.threads[c]) && (s.threads[c].pc.Parking? || s.threads[c].pc.Asleep?)
    requires s.threads[c].pc.name in s.locks && EntryOk(s, s.threads[c].pc.name, s.locks[s.threads[c].pc.name])
    ensures var pc := s.threads[c].pc;
      && pc.wake in s.wakes
      && MovesOn(s, c, s.threads[c].(pc := if s.wakes[pc.wake].Waiting? then Asleep(pc.name, pc.wake, false)
                                           else Woken(pc.name, s.wakes[pc.wake])), s.mutex)
  {
    var pc := s.threads[c].pc;
    var waiters := s.locks[pc.name].waiters;
    if s.locks[pc.name].holder != Some(c) {
      var i :| 0 <= i < |waiters| && waiters[i] == Waiter(c, pc.wake);
      assert WaiterOk(s, pc.name, waiters[i]);
    }
  }

  /** The thread and mutex after a step that changes nothing else. */
  function Moved(s: Server, c: ClientId, pick: Name): (Thread, Option<ClientId>)
    requires c in s.threads && CanAdvance(s, c, pick)
  {
    var t := s.threads[c];
    match t.pc
    case Parking(n, w) => (t.(pc := if s.wakes[w].Waiting? then Asleep(n, w, false) else Woken(n, s.wakes[w])), s.mutex)
    case Asleep(n, w, _) =>
      (t.(pc := if s.wakes[w].Waiting? then Asleep(n, w, false) else Woken(n, s.wakes[w])), s.mutex)
    case Woken(n, state) => (Thread(Ready, if state.Granted? then t.held + {n} else t.held), s.mutex)
    case Inserting(n) => (Thread(Ready, t.held + {n}), s.mutex)
    case Removing(n) => (Thread(Ready, t.held - {n}), s.mutex)
    case Evicting(todo) => (t.(pc := if pick in todo then Evicting(todo - {pick}) else Freeing(t.held)), s.mutex)
    case Freeing(todo) =>
      if pick in todo then (t.(pc := Promoting(pick, Cleanup(todo - {pick}))), s.mutex) else (t.(pc := Done), None)
    case _ => (t, s.mutex)
  }

  lemma LocalMoves(s: Server, c: ClientId, pick: Name)
    requires c in s.threads && ThreadOk(s, c, s.threads[c]) && CanAdvance(s, c, pick) && Enabled(s, Advance(c, pick))
    requires var pc := s.threads[c].pc; !pc.Parking? && !pc.Asleep? && !pc.Promoting? && !pc.Notifying?
    ensures MovesOn(s, c, Moved(s, c, pick).0, Moved(s, c, pick).1)
  {}

  lemma NotQueuedAnywhere(s: Server, c: ClientId, n: Name)
    requires c in s.threads && n in s.locks && EntryOk(s, n, s.locks[n])
    requires !s.threads[c].pc.Parking? && !s.threads[c].pc.Asleep?
    ensures !Queued(s.locks[n].waiters, c)
  {
    var waiters := s.locks[n].waiters;
    forall i | 0 <= i < |waiters|
      ensures waiters[i].client != c
    {
      assert WaiterOk(s, n, waiters[i]);
    }
  }

  /** What a thread's next step does, case by case: the impossible cases are gone. */
  lemma AdvanceShape(s: Server, c: ClientId, pick: Name)
    requires c in s.threads && ThreadOk(s, c, s.threads[c]) && CanAdvance(s, c, pick) && Enabled(s, Advance(c, pick))
    requires s.threads[c].pc.Evicting? && pick in s.threads[c].pc.todo ==> !Queued(s.locks[pick].waiters, c)
    ensures var pc := s.threads[c].pc;
      AdvanceThread(s, c, pick)
        == (if pc.Promoting? then PopThread(s, c)
            else if pc.Notifying? then NotifyThread(s, c)
            else SetThread(s, c, Moved(s, c, pick).0, Moved(s, c, pick).1))
  {}

  /** The invariant rules out every stuck step. */
  lemma NeverStuck(s: Server, c: ClientId, pick: Name)
    requires c in s.threads && ThreadOk(s, c, s.threads[c])
    requires s.threads[c].pc.Promoting? ==> s.threads[c].pc.name in Owned(s.threads[c])
    ensures CanAdvance(s, c, pick)
  {}

  lemma AdvanceKeepsInv(s: Server, c: ClientId, pick: Name)
    requires Inv(s) && Enabled(s, Advance(c, pick))
    ensures CanAdvance(s, c, pick) && Inv(AdvanceThread(s, c, pick))
  {
    var t := s.threads[c];
    assert ThreadOk(s, c, t);
    NeverStuck(s, c, pick);
    if t.pc.Evicting? && pick in t.pc.todo {
      NotQueuedAnywhere(s, c, pick);
    }
    AdvanceShape(s, c, pick);
    if t.pc.Promoting? {
      PopKeepsInv(s, c);
    } else if t.pc.Notifying? {
      NotifyKeepsInv(s, c);
    } else {
      if t.pc.Parking? || t.pc.Asleep? {
        CheckMoves(s, c);
      } else {
        LocalMoves(s, c, pick);
      }
      MovesOnKeepsInv(s, c, Moved(s, c, pick).0, Moved(s, c, pick).1);
    }
  }

  lemma HangupKeepsInv(s: Server, c: ClientId)
    requires Inv(s) && Enabled(s, Hangup(c))
    ensures Inv(Step(s, Hangup(c)))
  {
    var t := s.threads[c].(pc := Evicting(s.locks.Keys));
    assert ThreadOk(s, c, s.threads[c]);
    MovesOnKeepsInv(s, c, t, Some(c));
    assert Step(s, Hangup(c)) == SetThread(s, c, t, Some(c));
  }

  lemma StepKeepsInv(s: Server, a: Action)
    requires Inv(s) && Enabled(s, a)
    ensures a.Advance? ==> CanAdvance(s, a.client, a.pick)
    ensures Inv(Step(s, a))
  {
    match a
    case Accept => AcceptKeepsInv(s);
    case Receive(c, r) =>
      match r {
        case Acquire(n) => AcquireKeepsInv(s, c, n);
        case TryAcquire(n) => TryAcquireKeepsInv(s, c, n);
        case Release(n) => ReleaseKeepsInv(s, c, n);
        case Status(n) => TouchKeepsInv(s, n);
        case List =>
      }
    case Hangup(c) => HangupKeepsInv(s, c);
    case Advance(c, pick) => AdvanceKeepsInv(s, c, pick);
  }

  /** The invariant holds in every reachable state. */
  lemma {:induction false} RunKeepsInv(states: seq<Server>, actions: seq<Action>, i: nat)
    requires IsRun(states, actions) && states[0] == INIT && i < |states|
    ensures Inv(states[i])
  {
    if i > 0 {
      RunKeepsInv(states, actions, i - 1);
      StepKeepsInv(states[i - 1], actions[i - 1]);
    }
  }
}
