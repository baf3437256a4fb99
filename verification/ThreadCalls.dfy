/** What each request of the thread server comes to when its thread is let run, step by step and word for word. */
module ThreadCalls {
  import opened Wrappers
  import opened LockTable
  import Protocol
  import opened ThreadProtocol
  import opened ThreadInvariant

  /** The thread takes `k` steps on its own; a step it cannot take changes nothing. */
  function Alone(s: Server, c: ClientId, k: nat): Server {
    if k == 0 then s
    else
      var s' := Alone(s, c, k - 1);
      if Enabled(s', Advance(c, "")) && CanAdvance(s', c, "") then Step(s', Advance(c, "")) else s'
  }

  lemma OneStep(s: Server, c: ClientId)
    requires Enabled(s, Advance(c, "")) && CanAdvance(s, c, "")
    ensures Alone(s, c, 1) == Step(s, Advance(c, ""))
  {
    assert Alone(s, c, 0) == s;
  }

  lemma NextStep(s: Server, c: ClientId, k: nat)
    requires var s' := Alone(s, c, k); Enabled(s', Advance(c, "")) && CanAdvance(s', c, "")
    ensures Alone(s, c, k + 1) == Step(Alone(s, c, k), Advance(c, ""))
  {}

  /** ACQUIRE: refused to the holder and to a waiter, granted if the lock is free, and otherwise the thread waits. */
  lemma AcquireStarts(s: Server, c: ClientId, n: Name)
    requires Inv(s) && Enabled(s, Receive(c, Protocol.Acquire(n)))
    ensures var e, t, s' := GetEntry(s, n), s.threads[c], Step(s, Receive(c, Protocol.Acquire(n)));
      if e.holder == Some(c) || (exists x :: x in e.waiters && x.client == c) then
        s' == s.(locks := s.locks[n := e])
      else if e.holder.None? then
        s' == s.(locks := s.locks[n := Entry(Some(c), [])], threads := s.threads[c := Thread(Ready, t.held + {n})])
      else
        && s.nextWake !in s.wakes
        && s' == s.(locks := s.locks[n := Entry(e.holder, e.waiters + [Waiter(c, s.nextWake)])],
                    wakes := s.wakes[s.nextWake := Waiting], nextWake := s.nextWake + 1,
                    threads := s.threads[c := Thread(Parking(n, s.nextWake), t.held)])
  {
    var e := GetEntry(s, n);
    assert n in s.locks ==> EntryOk(s, n, e);
    assert Queued(e.waiters, c) <==> exists x :: x in e.waiters && x.client == c;
  }

  /** A waiting thread sleeps while it is not served, and is told and lists the lock once it is. */
  lemma WaitEnds(s: Server, c: ClientId)
    requires Inv(s) && c in s.threads && (s.threads[c].pc.Parking? || s.threads[c].pc.Asleep?)
    ensures var t := s.threads[c];
      && t.pc.wake in s.wakes
      && if s.wakes[t.pc.wake].Waiting? then
           Alone(s, c, 1) == s.(threads := s.threads[c := Thread(Asleep(t.pc.name, t.pc.wake, false), t.held)])
         else
           Alone(s, c, 2) == s.(threads := s.threads[c := Thread(Ready, t.held + {t.pc.name})])
  {
    assert ThreadOk(s, c, s.threads[c]);
    var n, w := s.threads[c].pc.name, s.threads[c].pc.wake;
    LookStep(s, c, n, w);
    OneStep(s, c);
    GrantedOnly(s, c);
    if s.wakes[w].Granted? {
      WokenStep(Alone(s, c, 1), c, n);
      NextStep(s, c, 1);
    }
  }

  /** A wake state is never set to anything else but granted. */
  lemma GrantedOnly(s: Server, c: ClientId)
    requires Inv(s) && c in s.threads && (s.threads[c].pc.Parking? || s.threads[c].pc.Asleep?)
    ensures s.threads[c].pc.wake in s.wakes && !s.wakes[s.threads[c].pc.wake].Evicted?
  {
    assert ThreadOk(s, c, s.threads[c]);
    var n := s.threads[c].pc.name;
    if s.locks[n].holder != Some(c) {
      assert EntryOk(s, n, s.locks[n]) && WaiterOk(s, n, Waiter(c, s.threads[c].pc.wake));
    }
  }

  /** One look at the wake state. */
  lemma LookStep(s: Server, c: ClientId, n: Name, w: WakeId)
    requires c in s.threads && WaitsOn(s.threads[c], n, w) && w in s.wakes
    ensures Enabled(s, Advance(c, "")) && CanAdvance(s, c, "")
    ensures Step(s, Advance(c, ""))
         == s.(threads := s.threads[c := Thread(if s.wakes[w].Waiting? then Asleep(n, w, false)
                                                else Woken(n, s.wakes[w]), s.threads[c].held)])
  {}

  lemma WokenStep(s: Server, c: ClientId, n: Name)
    requires c in s.threads && s.threads[c].pc == Woken(n, Granted)
    ensures Enabled(s, Advance(c, "")) && CanAdvance(s, c, "")
    ensures Step(s, Advance(c, "")) == s.(threads := s.threads[c := Thread(Ready, s.threads[c].held + {n})])
  {}

  /** A thread that was woken lists the lock, and takes requests again. */
  lemma WokenEnds(s: Server, c: ClientId)
    requires Inv(s) && c in s.threads && s.threads[c].pc.Woken?
    ensures Alone(s, c, 1)
         == s.(threads := s.threads[c := Thread(Ready, s.threads[c].held + {s.threads[c].pc.name})])
  {
    assert ThreadOk(s, c, s.threads[c]);
    OneStep(s, c);
  }

  /** TRY_ACQUIRE: granted exactly if nobody holds or awaits the lock. */
  lemma TryAcquireEnds(s: Server, c: ClientId, n: Name)
    requires Inv(s) && Enabled(s, Receive(c, Protocol.TryAcquire(n)))
    ensures var e, t, s' := GetEntry(s, n), s.threads[c], Step(s, Receive(c, Protocol.TryAcquire(n)));
      if e == Entry(None, []) then
        && s'.locks == s.locks[n := Entry(Some(c), [])]
        && Alone(s', c, 1)
           == s.(locks := s'.locks, threads := s.threads[c := Thread(Ready, t.held + {n})])
      else
        s' == s.(locks := s.locks[n := e])
  {
    var s' := Step(s, Receive(c, Protocol.TryAcquire(n)));
    assert n in s.locks ==> EntryOk(s, n, s.locks[n]);
    if s'.threads[c].pc.Inserting? {
      OneStep(s', c);
    }
  }

  /** The last step of a RELEASE. */
  lemma RemovingStep(s: Server, c: ClientId, n: Name)
    requires c in s.threads && s.threads[c].pc == Removing(n)
    ensures Enabled(s, Advance(c, "")) && CanAdvance(s, c, "")
    ensures Step(s, Advance(c, "")) == s.(threads := s.threads[c := Thread(Ready, s.threads[c].held - {n})])
  {}

  /** Popping the oldest waiter, or freeing the lock. */
  lemma PromotingStep(s: Server, c: ClientId, n: Name)
    requires c in s.threads && s.threads[c].pc == Promoting(n, Reply) && n in s.locks
    ensures Enabled(s, Advance(c, "")) && CanAdvance(s, c, "")
    ensures var ws, held, s' := s.locks[n].waiters, s.threads[c].held, Step(s, Advance(c, ""));
      if ws == [] then
        s' == s.(locks := s.locks[n := Entry(None, [])], mutex := None,
                 threads := s.threads[c := Thread(Removing(n), held)])
      else
        s' == s.(locks := s.locks[n := Entry(Some(ws[0].client), ws[1..])],
                 threads := s.threads[c := Thread(Notifying(n, ws[0].wake, Reply), held)])
  {}

  /** Waking whoever sleeps on the wake state, and unlocking the store. */
  lemma NotifyingStep(s: Server, c: ClientId, n: Name, w: WakeId)
    requires c in s.threads && s.threads[c].pc == Notifying(n, w, Reply)
    ensures Enabled(s, Advance(c, "")) && CanAdvance(s, c, "")
    ensures Step(s, Advance(c, ""))
         == s.(wakes := s.wakes[w := Granted], mutex := None,
               threads := Roused(s.threads, w)[c := Thread(Removing(n), s.threads[c].held)])
  {}

  /** The threads after those that sleep on a wake state were notified. */
  function Roused(threads: map<ClientId, Thread>, w: WakeId): map<ClientId, Thread> {
    map d | d in threads ::
      if threads[d].pc.Asleep? && threads[d].pc.wake == w
      then threads[d].(pc := threads[d].pc.(notified := true)) else threads[d]
  }

  /** There is only one of them. */
  lemma RousedIsNotified(s: Server, n: Name, x: Waiter, c: ClientId, t: Thread)
    requires Inv(s) && x.client in s.threads && x.client != c
    requires WaitsOn(s.threads[x.client], n, x.wake) && !t.pc.Asleep?
    ensures Roused(s.threads[c := t], x.wake) == Notified(s.threads, x)[c := t]
  {
    forall d | d in s.threads && d != x.client
      ensures !(s.threads[d].pc.Asleep? && s.threads[d].pc.wake == x.wake)
    {
      assert DistinctWakes(s.threads[d], s.threads[x.client]);
    }
  }

  lemma ReleaseStarts(s: Server, c: ClientId, n: Name)
    requires Enabled(s, Receive(c, Protocol.Release(n))) && n in s.locks && s.locks[n].holder == Some(c)
    ensures Step(s, Receive(c, Protocol.Release(n)))
         == s.(mutex := Some(c), threads := s.threads[c := Thread(Promoting(n, Reply), s.threads[c].held)])
  {
    assert s.locks[n := s.locks[n]] == s.locks;
  }

  /** RELEASE by another than the holder changes nothing. */
  lemma ReleaseRefused(s: Server, c: ClientId, n: Name)
    requires Inv(s) && Enabled(s, Receive(c, Protocol.Release(n))) && GetEntry(s, n).holder != Some(c)
    ensures Step(s, Receive(c, Protocol.Release(n))) == s.(locks := s.locks[n := GetEntry(s, n)])
  {}

  /** RELEASE of a lock nobody waits for: it is free in the end, and the store unlocked. */
  lemma ReleaseFrees(s: Server, c: ClientId, n: Name)
    requires Inv(s) && Enabled(s, Receive(c, Protocol.Release(n))) && GetEntry(s, n) == Entry(Some(c), [])
    ensures Alone(Step(s, Receive(c, Protocol.Release(n))), c, 2)
         == s.(locks := s.locks[n := Entry(None, [])],
               threads := s.threads[c := Thread(Ready, s.threads[c].held - {n})])
  {
    var s1 := Step(s, Receive(c, Protocol.Release(n)));
    ReleaseStarts(s, c, n);
    PromotingStep(s1, c, n);
    OneStep(s1, c);
    RemovingStep(Alone(s1, c, 1), c, n);
    NextStep(s1, c, 1);
  }

  /** The threads after one of them was notified: asleep or not, it is not overlooked. */
  function Notified(threads: map<ClientId, Thread>, x: Waiter): map<ClientId, Thread>
    requires x.client in threads
  {
    var t := threads[x.client];
    if t.pc.Asleep? then threads[x.client := Thread(Asleep(t.pc.name, t.pc.wake, true), t.held)] else threads
  }

  /** RELEASE of a lock somebody waits for: in the end the oldest waiter holds it, and finds that out when it looks. */
  lemma ReleaseServes(s: Server, c: ClientId, n: Name)
    requires Inv(s) && Enabled(s, Receive(c, Protocol.Release(n)))
    requires var e := GetEntry(s, n); e.holder == Some(c) && e.waiters != []
    ensures var e := GetEntry(s, n);
      && e.waiters[0].client in s.threads && e.waiters[0].client != c
      && Alone(Step(s, Receive(c, Protocol.Release(n))), c, 3)
         == s.(locks := s.locks[n := Entry(Some(e.waiters[0].client), e.waiters[1..])],
               wakes := s.wakes[e.waiters[0].wake := Granted],
               threads := Notified(s.threads, e.waiters[0])[c := Thread(Ready, s.threads[c].held - {n})])
  {
    var s1 := Step(s, Receive(c, Protocol.Release(n)));
    var x := s.locks[n].waiters[0];
    ReleaseStarts(s, c, n);
    OldestWaits(s, c, n);
    PromotingStep(s1, c, n);
    OneStep(s1, c);
    var s2 := Alone(s1, c, 1);
    NotifyingStep(s2, c, n, x.wake);
    RousedIsNotified(s, n, x, c, s2.threads[c]);
    NextStep(s1, c, 1);
    RemovingStep(Alone(s1, c, 2), c, n);
    NextStep(s1, c, 2);
  }

  lemma OldestWaits(s: Server, c: ClientId, n: Name)
    requires Inv(s) && n in s.locks && s.locks[n].holder == Some(c) && s.locks[n].waiters != []
    ensures var x := s.locks[n].waiters[0];
      x.client in s.threads && x.client != c && WaitsOn(s.threads[x.client], n, x.wake)
  {
    assert EntryOk(s, n, s.locks[n]) && WaiterOk(s, n, s.locks[n].waiters[0]);
  }

  /** STATUS and LIST change no lock and no thread. */
  lemma QueriesChangeNothing(s: Server, c: ClientId, n: Name)
    requires Inv(s)
    ensures Enabled(s, Receive(c, Protocol.List)) ==> Step(s, Receive(c, Protocol.List)) == s
    ensures Enabled(s, Receive(c, Protocol.Status(n))) ==>
      Step(s, Receive(c, Protocol.Status(n))) == s.(locks := s.locks[n := GetEntry(s, n)])
  {}
}
