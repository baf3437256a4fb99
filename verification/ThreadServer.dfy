/**
 The thread server as the object its threads share, changed in place one protocol step at a
 time. Every method is one step of one thread and keeps the invariant, so any schedule of calls
 is a run of the protocol.
 */
module ThreadServer {
  import opened Sequences
  import opened Wrappers
  import opened Protocol
  import opened ThreadProtocol
  import opened ThreadInvariant
  import ThreadTheorems

  class Monitor {
    var locks: map<Name, Entry>
    var nextId: ClientId
    var mutex: Option<ClientId>
    var wakes: map<WakeId, Wake>
    var nextWake: WakeId
    var threads: map<ClientId, Thread>

    ghost function State(): Server
      reads this
    {
      Server(locks, nextId, mutex, wakes, nextWake, threads)
    }

    ghost predicate Valid()
      reads this
    {
      Inv(State())
    }

    constructor ()
      ensures Valid() && State() == INIT
    {
      locks, nextId, mutex, wakes, nextWake, threads := map[], 1, None, map[], 0, map[];
    }

    /** A new connection gets an id never used before. */
    method AllocId() returns (id: ClientId)
      requires Valid() && mutex.None?
      modifies this
      ensures Valid() && State() == Step(old(State()), Accept)
      ensures id !in old(threads) && id in threads
    {
      ghost var after := Step(State(), Accept);
      AcceptKeepsInv(State());
      NextIdIsFresh(State());
      id := nextId;
      nextId := nextId + 1;
      threads := threads[id := Thread(Ready, {})];
      assert State() == after;
    }

    method Lookup(name: Name) returns (e: Entry)
      ensures e == GetEntry(State(), name)
    {
      if name in locks {
        e := locks[name];
      } else {
        e := Entry(None, []);
      }
    }

    method IsQueued(waiters: seq<Waiter>, c: ClientId) returns (found: bool)
      ensures found <==> Queued(waiters, c)
    {
      found := false;
      for i := 0 to |waiters|
        invariant !found && forall j :: 0 <= j < i ==> waiters[j].client != c
      {
        if waiters[i].client == c {
          return true;
        }
      }
    }

    /** ACQUIRE, phase 1: no answer means the thread queued up and is about to park. */
    method Acquire(c: ClientId, name: Name) returns (answer: Option<Response>)
      requires Valid() && Enabled(State(), Receive(c, Request.Acquire(name)))
      modifies this
      ensures Valid() && State() == Step(old(State()), Receive(c, Request.Acquire(name)))
      ensures var e := old(GetEntry(State(), name));
        answer == if e.holder == Some(c) || Queued(e.waiters, c) then Some(ALREADY_HELD)
                  else if e.holder.None? then Some(Response.Granted(name)) else None
      ensures answer.None? <==> threads[c].pc.Parking?
    {
      ghost var after := ThreadProtocol.Acquire(State(), c, name);
      AcquireKeepsInv(State(), c, name);
      var e := Lookup(name);
      var queued := IsQueued(e.waiters, c);
      if e.holder == Some(c) || queued {
        locks := locks[name := e];
        answer := Some(ALREADY_HELD);
      } else if e.holder.None? {
        locks := locks[name := e.(holder := Some(c))];
        threads := threads[c := threads[c].(held := threads[c].held + {name})];
        answer := Some(Response.Granted(name));
      } else {
        var wake := nextWake;
        nextWake := nextWake + 1;
        wakes := wakes[wake := Waiting];
        locks := locks[name := e.(waiters := e.waiters + [Waiter(c, wake)])];
        threads := threads[c := threads[c].(pc := Parking(name, wake))];
        answer := None;
      }
      assert State() == after;
    }

    lemma FreshIsIdle(name: Name)
      requires Valid()
      ensures GetEntry(State(), name).holder.None? ==> GetEntry(State(), name) == Entry(None, [])
    {
      if name in locks && locks[name].holder.None? {
        FreeIsIdle(State(), name);
      }
    }

    /** ACQUIRE, phase 2: one look at the wake state, on arrival or after any wake-up. */
    method CheckWake(c: ClientId)
      requires Valid() && c in threads && (threads[c].pc.Parking? || threads[c].pc.Asleep?)
      modifies this
      ensures CanAdvance(old(State()), c, "")
      ensures Valid() && State() == Step(old(State()), Advance(c, ""))
    {
      AdvanceKeepsInv(State(), c, "");
      var pc := threads[c].pc;
      if wakes[pc.wake].Waiting? {
        threads := threads[c := threads[c].(pc := Asleep(pc.name, pc.wake, false))];
      } else {
        threads := threads[c := threads[c].(pc := Woken(pc.name, wakes[pc.wake]))];
      }
    }

    /** ACQUIRE, phase 3: the answer is always GRANTED, and the client does hold the lock. */
    method FinishAcquire(c: ClientId) returns (answer: Option<Response>)
      requires Valid() && c in threads && threads[c].pc.Woken?
      modifies this
      ensures Valid() && State() == Step(old(State()), Advance(c, ""))
      ensures var n := old(threads[c].pc.name);
        answer == Some(Response.Granted(n)) && n in locks && locks[n].holder == Some(c) && n in threads[c].held
    {
      AdvanceKeepsInv(State(), c, "");
      assert ThreadOk(State(), c, threads[c]);
      var t := threads[c];
      answer := None;
      if t.pc.state.Granted? {
        answer := Some(Response.Granted(t.pc.name));
        t := t.(held := t.held + {t.pc.name});
      }
      threads := threads[c := t.(pc := Ready)];
    }

    method TryAcquire(c: ClientId, name: Name) returns (answer: Option<Response>)
      requires Valid() && Enabled(State(), Receive(c, Request.TryAcquire(name)))
      modifies this
      ensures Valid() && State() == Step(old(State()), Receive(c, Request.TryAcquire(name)))
      ensures answer.None? <==> old(GetEntry(State(), name)) == Entry(None, [])
      ensures answer.Some? ==> answer.value == Denied(name)
    {
      TryAcquireKeepsInv(State(), c, name);
      var e := Lookup(name);
      FreshIsIdle(name);
      if e.holder.None? {
        locks := locks[name := e.(holder := Some(c))];
        threads := threads[c := threads[c].(pc := Inserting(name))];
        answer := None;
      } else {
        locks := locks[name := e];
        answer := Some(Denied(name));
      }
    }

    /** The second half of a granted TRY_ACQUIRE, after the store was unlocked. */
    method InsertHeld(c: ClientId) returns (answer: Response)
      requires Valid() && c in threads && threads[c].pc.Inserting?
      modifies this
      ensures Valid() && State() == Step(old(State()), Advance(c, ""))
      ensures var n := old(threads[c].pc.name);
        answer == Response.Granted(n) && n in locks && locks[n].holder == Some(c)
    {
      AdvanceKeepsInv(State(), c, "");
      assert ThreadOk(State(), c, threads[c]);
      var t := threads[c];
      threads := threads[c := Thread(Ready, t.held + {t.pc.name})];
      answer := Response.Granted(t.pc.name);
    }

    /** RELEASE up to the promotion: only the holder gets there. */
    method Release(c: ClientId, name: Name) returns (answer: Option<Response>)
      requires Valid() && Enabled(State(), Receive(c, Request.Release(name)))
      modifies this
      ensures Valid() && State() == Step(old(State()), Receive(c, Request.Release(name)))
      ensures answer == if old(GetEntry(State(), name)).holder == Some(c) then None else Some(NOT_HELD)
    {
      ReleaseKeepsInv(State(), c, name);
      var e := Lookup(name);
      locks := locks[name := e];
      if e.holder == Some(c) {
        mutex := Some(c);
        threads := threads[c := threads[c].(pc := Promoting(name, Reply))];
        answer := None;
      } else {
        answer := Some(NOT_HELD);
      }
    }

    /** The first half of `promote_next`: pop a waiter and make it the holder, or free the lock. */
    method PopWaiter(c: ClientId)
      requires Valid() && c in threads && threads[c].pc.Promoting?
      modifies this
      ensures CanAdvance(old(State()), c, "")
      ensures Valid() && State() == Step(old(State()), Advance(c, ""))
    {
      AdvanceKeepsInv(State(), c, "");
      var pc := threads[c].pc;
      var e := locks[pc.name];
      if e.waiters == [] {
        locks := locks[pc.name := e.(holder := None)];
        LeavePromotion(c, pc.name, pc.after);
      } else {
        locks := locks[pc.name := Entry(Some(e.waiters[0].client), e.waiters[1..])];
        threads := threads[c := threads[c].(pc := Notifying(pc.name, e.waiters[0].wake, pc.after))];
      }
    }

    /** The second half of `promote_next`: set the wake state and notify. */
    method NotifyWaiter(c: ClientId)
      requires Valid() && c in threads && threads[c].pc.Notifying?
      modifies this
      ensures Valid() && State() == Step(old(State()), Advance(c, ""))
    {
      AdvanceKeepsInv(State(), c, "");
      var pc := threads[c].pc;
      wakes := wakes[pc.wake := Wake.Granted];
      threads := map d | d in threads ::
        if threads[d].pc.Asleep? && threads[d].pc.wake == pc.wake
        then threads[d].(pc := threads[d].pc.(notified := true)) else threads[d];
      LeavePromotion(c, pc.name, pc.after);
    }

    method LeavePromotion(c: ClientId, name: Name, after: After)
      requires c in threads
      modifies this`mutex, this`threads
      ensures State() == Leave(old(State()), c, name, after)
    {
      match after
      case Reply =>
        mutex := None;
        threads := threads[c := threads[c].(pc := Removing(name))];
      case Cleanup(todo) =>
        threads := threads[c := threads[c].(pc := Freeing(todo))];
    }

    /** The end of RELEASE: the client's own record follows the table. */
    method RemoveHeld(c: ClientId) returns (answer: Response)
      requires Valid() && c in threads && threads[c].pc.Removing?
      modifies this
      ensures Valid() && State() == Step(old(State()), Advance(c, "")) && answer == Ok
      ensures threads[c].held == set n | n in locks && locks[n].holder == Some(c)
    {
      AdvanceKeepsInv(State(), c, "");
      var t := threads[c];
      threads := threads[c := Thread(Ready, t.held - {t.pc.name})];
      answer := Ok;
      ThreadTheorems.QuietThread(State(), c);
    }

    method GetStatus(c: ClientId, name: Name) returns (answer: Response)
      requires Valid() && Enabled(State(), Receive(c, Request.Status(name)))
      modifies this
      ensures Valid() && State() == Step(old(State()), Receive(c, Request.Status(name)))
      ensures answer == if locks[name].holder.None? then StatusFree(name, 0)
                        else StatusHeld(name, locks[name].holder.value, |locks[name].waiters|)
    {
      TouchKeepsInv(State(), name);
      var e := Lookup(name);
      FreshIsIdle(name);
      locks := locks[name := e];
      match e.holder
      case None => answer := StatusFree(name, |e.waiters|);
      case Some(holder) => answer := StatusHeld(name, holder, |e.waiters|);
    }

    /** The names of the held locks as the store has them, each once, framed by the list markers. */
    method List(c: ClientId) returns (answer: seq<Response>, ghost names: seq<Name>)
      requires Valid() && Enabled(State(), Receive(c, Request.List))
      ensures State() == Step(State(), Receive(c, Request.List))
      ensures NoDup(names) && forall n :: n in names <==> n in locks && locks[n].holder.Some?
      ensures |answer| == |names| + 2 && answer[0] == ListBegin && answer[|names| + 1] == ListEnd
      ensures forall k :: 0 <= k < |names| ==> answer[k + 1] == ListEntry(names[k])
    {
      var held := HeldNames();
      answer := [ListBegin];
      for i := 0 to |held|
        invariant |answer| == i + 1 && answer[0] == ListBegin
        invariant forall k :: 0 <= k < i ==> answer[k + 1] == ListEntry(held[k])
      {
        answer := answer + [ListEntry(held[i])];
      }
      answer := answer + [ListEnd];
      names := held;
    }

    method HeldNames() returns (names: seq<Name>)
      ensures NoDup(names) && forall n :: n in names <==> n in locks && locks[n].holder.Some?
    {
      names := [];
      var todo := locks.Keys;
      while todo != {}
        invariant todo <= locks.Keys && NoDup(names)
        invariant forall n :: n in names <==> n in locks && n !in todo && locks[n].holder.Some?
        decreases todo
      {
        var n :| n in todo;
        todo := todo - {n};
        if locks[n].holder.Some? {
          names := names + [n];
        }
      }
    }

    /** The connection is gone: lock the store and start the cleanup. */
    method BeginCleanup(c: ClientId)
      requires Valid() && Enabled(State(), Hangup(c))
      modifies this
      ensures Valid() && State() == Step(old(State()), Hangup(c))
    {
      HangupKeepsInv(State(), c);
      mutex := Some(c);
      threads := threads[c := threads[c].(pc := Evicting(locks.Keys))];
    }

    /** Cleanup step 1 for one lock, or the passage to step 2: there is never anything to evict. */
    method EvictNext(c: ClientId, name: Name)
      requires Valid() && Enabled(State(), Advance(c, name)) && threads[c].pc.Evicting?
      modifies this
      ensures CanAdvance(old(State()), c, name)
      ensures Valid() && State() == Step(old(State()), Advance(c, name))
      ensures locks == old(locks) && wakes == old(wakes)
    {
      AdvanceKeepsInv(State(), c, name);
      var t := threads[c];
      if name in t.pc.todo {
        assert EntryOk(State(), name, locks[name]);
        NotQueuedAnywhere(State(), c, name);
        threads := threads[c := t.(pc := Evicting(t.pc.todo - {name}))];
      } else {
        threads := threads[c := t.(pc := Freeing(t.held))];
      }
    }

    /** Cleanup step 2 for one held lock, or its end, which leaves nothing behind. */
    method FreeNext(c: ClientId, name: Name) returns (done: bool)
      requires Valid() && Enabled(State(), Advance(c, name)) && threads[c].pc.Freeing?
      modifies this
      ensures Valid() && State() == Step(old(State()), Advance(c, name))
      ensures done ==>
        mutex.None? && forall n :: n in locks ==> locks[n].holder != Some(c) && !Queued(locks[n].waiters, c)
    {
      AdvanceKeepsInv(State(), c, name);
      assert ThreadOk(State(), c, threads[c]);
      var t := threads[c];
      done := name !in t.pc.todo;
      if done {
        mutex := None;
        threads := threads[c := t.(pc := Done)];
        ThreadTheorems.CleanupComplete(State(), c);
      } else {
        // The test of the holder that guards the promotion never fails.
        assert name in locks && locks[name].holder == Some(c);
        threads := threads[c := t.(pc := Promoting(name, Cleanup(t.pc.todo - {name})))];
      }
    }
  }
}
