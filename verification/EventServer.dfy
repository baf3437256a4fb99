/** The single-threaded event-loop server: its lock table and client slab, changed request by request. */
module EventServer {
  import opened Sequences
  import opened Wrappers
  import opened Protocol
  import opened L = LockTable
  import opened EventAgreement

  class Server {
    var locks: Table
    var slots: Slab
    var nextId: ClientId

    ghost predicate Valid()
      reads this
    {
      && Agree(locks, slots)
      && forall i: nat :: Occupied(slots, i) ==> slots[i].value.id < nextId
    }

    constructor ()
      ensures Valid() && locks == map[] && slots == []
    {
      locks, slots, nextId := map[], [], 1;
    }

    /** A new connection goes into the first free slot, under an id never used before. */
    method Accept() returns (slot: nat)
      requires Valid()
      modifies this
      ensures Valid() && locks == old(locks) && nextId == old(nextId) + 1
      ensures slot <= |old(slots)| && !Occupied(old(slots), slot)
      ensures forall i :: 0 <= i < slot ==> Occupied(old(slots), i)
      ensures slots == old(slots)[..slot] + [Some(Client(old(nextId), [], []))]
                     + if slot < |old(slots)| then old(slots)[slot + 1..] else []
    {
      slot := 0;
      while slot < |slots| && slots[slot].Some?
        invariant slot <= |slots| && forall i :: 0 <= i < slot ==> Occupied(slots, i)
      {
        slot := slot + 1;
      }
      var client := Some(Client(nextId, [], []));
      ghost var before := slots;
      if slot < |slots| {
        slots := slots[slot := client];
      } else {
        slots := slots + [client];
      }
      InsertKeepsAgree(locks, before, slots, slot, nextId);
      nextId := nextId + 1;
    }

    /** Append a response to a client's write buffer. */
    method Enqueue(slot: nat, response: Response)
      requires Occupied(slots, slot)
      modifies this`slots
      ensures var c := old(slots[slot].value);
        slots == old(slots)[slot := Some(c.(outbox := c.outbox + [response]))]
      ensures SameOwners(old(slots), slots)
    {
      var c := slots[slot].value;
      slots := slots[slot := Some(c.(outbox := c.outbox + [response]))];
    }

    /** Answer a client; that changes no owner. */
    method Respond(slot: nat, response: Response)
      requires Valid() && Occupied(slots, slot)
      modifies this`slots
      ensures Valid()
      ensures var c := old(slots[slot].value);
        slots == old(slots)[slot := Some(c.(outbox := c.outbox + [response]))]
    {
      Enqueue(slot, response);
      OutboxKeepsAgree(locks, old(slots), slots);
    }

    static function Reply(c: Client, response: Response): Client {
      c.(outbox := c.outbox + [response])
    }

    /** The entry of `name`, created free if absent. */
    method Entry(name: Name) returns (l: Lock)
      modifies this`locks
      ensures l == Get(old(locks), name) && locks == old(locks)[name := l]
    {
      if name !in locks {
        locks := locks[name := Lock(None, [])];
      }
      l := locks[name];
    }

    method Acquire(slot: nat, name: Name)
      requires Valid() && Occupied(slots, slot)
      modifies this
      ensures Valid() && nextId == old(nextId)
      ensures var c, l := old(slots[slot].value), Get(old(locks), name);
        && locks == Apply(old(locks), L.Acquire(c.id, name))
        && slots == old(slots)[slot := Some(
             if l.holder == Some(c.id) || c.id in l.queue then c.(outbox := c.outbox + [Err("already held")])
             else if l == Lock(None, []) then c.(held := c.held + [name], outbox := c.outbox + [Granted(name)])
             else c)]
    {
      var id := slots[slot].value.id;
      TouchKeepsAgree(locks, slots, name);
      var l := Entry(name);
      if l.holder == Some(id) || id in l.queue {
        Respond(slot, ALREADY_HELD);
        assert locks == Apply(old(locks), L.Acquire(id, name));
      } else if l.holder.None? {
        GrantNow(slot, name);
      } else {
        JoinQueue(slot, name);
      }
    }

    /** The client waits behind everybody who waits already. */
    method JoinQueue(slot: nat, name: Name)
      requires Valid() && Occupied(slots, slot) && name in locks
      requires var l, id := locks[name], slots[slot].value.id;
        l.holder.Some? && l.holder != Some(id) && id !in l.queue
      modifies this`locks
      ensures Valid()
      ensures var l := old(locks[name]);
        locks == old(locks)[name := Lock(l.holder, l.queue + [slots[slot].value.id])]
    {
      var l, id := locks[name], slots[slot].value.id;
      assert At(slots, slot, id);
      EnqueueKeepsAgree(locks, slots, name, id);
      locks := locks[name := l.(queue := l.queue + [id])];
    }

    /** A free lock goes to the client, which lists it and is told. */
    method GrantNow(slot: nat, name: Name)
      requires Valid() && Occupied(slots, slot) && name in locks && locks[name] == Lock(None, [])
      modifies this`locks, this`slots
      ensures Valid()
      ensures locks == old(locks)[name := Lock(Some(old(slots[slot].value.id)), [])]
      ensures var c := old(slots[slot].value);
        slots == old(slots)[slot := Some(c.(held := c.held + [name], outbox := c.outbox + [Granted(name)]))]
    {
      var c := slots[slot].value;
      forall j: nat | Occupied(slots, j)
        ensures name !in slots[j].value.held
      {
        assert SlotOk(locks, slots, {}, j);
      }
      AwardKeepsAgree(locks, slots, {}, name, Lock(Some(c.id), []), slot);
      var none: set<Name> := {};
      assert none - {name} == none;
      locks := locks[name := locks[name].(holder := Some(c.id))];
      slots := slots[slot := Some(c.(held := c.held + [name]))];
      Enqueue(slot, Granted(name));
      assert c.outbox + [Granted(name)] == Award(c, [name]).outbox;
      assert slots == old(slots)[slot := Some(Award(c, [name]))];
    }

    method TryAcquire(slot: nat, name: Name)
      requires Valid() && Occupied(slots, slot)
      modifies this
      ensures Valid() && nextId == old(nextId)
      ensures var c, l := old(slots[slot].value), Get(old(locks), name);
        && locks == Apply(old(locks), L.TryAcquire(c.id, name))
        && slots == old(slots)[slot := Some(
             if l == Lock(None, []) then c.(held := c.held + [name], outbox := c.outbox + [Granted(name)])
             else c.(outbox := c.outbox + [Denied(name)]))]
    {
      TouchKeepsAgree(locks, slots, name);
      var l := Entry(name);
      if l.holder.None? {
        GrantNow(slot, name);
      } else {
        Respond(slot, Denied(name));
      }
    }

    /** Only the holder may release; the oldest waiter gets the lock and is told. */
    method Release(slot: nat, name: Name)
      requires Valid() && Occupied(slots, slot)
      modifies this
      ensures Valid() && nextId == old(nextId)
      ensures var c, l := old(slots[slot].value), Get(old(locks), name);
        && locks == Apply(old(locks), L.Release(c.id, name))
        && slots == if l.holder != Some(c.id) then old(slots)[slot := Some(c.(outbox := c.outbox + [Err("not held")]))]
                    else GiveTo(old(slots)[slot := Some(Client(c.id, Without(c.held, name), c.outbox + [Ok]))],
                                Promote(l).holder, name)
    {
      var c := slots[slot].value;
      TouchKeepsAgree(locks, slots, name);
      var l := Entry(name);
      if l.holder != Some(c.id) {
        Respond(slot, NOT_HELD);
      } else {
        GiveUp(slot, name);
      }
    }

    /** The holder stops listing the lock, is told so, and the lock is handed over. */
    method GiveUp(slot: nat, name: Name)
      requires Valid() && Occupied(slots, slot) && name in locks && locks[name].holder == Some(slots[slot].value.id)
      modifies this`locks, this`slots
      ensures Valid()
      ensures var c, l := old(slots[slot].value), Promote(old(locks[name]));
        && locks == old(locks)[name := l]
        && slots == GiveTo(old(slots)[slot := Some(Client(c.id, Without(c.held, name), c.outbox + [Ok]))],
                           l.holder, name)
    {
      ghost var s := slots;
      var c := slots[slot].value;
      GiveUpKeepsAgree(locks, slots, slot, name, c.outbox + [Ok]);
      var held := Retain(c.held, name);
      slots := slots[slot := Some(c.(held := held))];
      Enqueue(slot, Ok);
      assert slots == s[slot := Some(Client(c.id, Without(c.held, name), c.outbox + [Ok]))];
      HandOverKeepsAgree(locks, slots, {name}, name);
      assert {name} - {name} == {};
      PromoteAndNotify(name);
    }

    /** The items other than `x`, in order. */
    static method Retain<T(==)>(items: seq<T>, x: T) returns (r: seq<T>)
      ensures r == Without(items, x)
    {
      r := [];
      var i := |items|;
      while i > 0
        invariant 0 <= i <= |items| && r == Without(items[i..], x)
      {
        i := i - 1;
        assert items[i..][1..] == items[i + 1..];
        if items[i] != x {
          r := [items[i]] + r;
        }
      }
    }

    /** Pop waiters until one is found that still has a slot; it is the new holder and is told. */
    method PromoteAndNotify(name: Name)
      modifies this`locks, this`slots
      ensures name !in old(locks) ==> locks == old(locks) && slots == old(slots)
      ensures name in old(locks) ==>
        var l := PromoteLive(old(locks[name]), old(slots));
        locks == old(locks)[name := l] && slots == GiveTo(old(slots), l.holder, name)
    {
      var searching := name in locks;
      while searching
        invariant name in old(locks) <==> name in locks
        invariant searching ==> name in locks
        invariant locks.Keys == old(locks).Keys && forall n :: n in locks && n != name ==> locks[n] == old(locks[n])
        invariant searching ==>
          slots == old(slots) && PromoteLive(locks[name], slots) == PromoteLive(old(locks[name]), slots)
        invariant !searching && name in locks ==>
          && locks[name] == PromoteLive(old(locks[name]), old(slots))
          && slots == GiveTo(old(slots), locks[name].holder, name)
        invariant !searching && name !in locks ==> slots == old(slots)
        decreases searching, if name in locks then |locks[name].queue| else 0
      {
        var l := locks[name];
        if l.queue == [] {
          locks := locks[name := l.(holder := None)];
          searching := false;
        } else {
          locks := locks[name := Lock(Some(l.queue[0]), l.queue[1..])];
          var slot := FindSlot(slots, l.queue[0]);
          if slot < |slots| {
            var c := slots[slot].value;
            slots := slots[slot := Some(c.(held := c.held + [name]))];
            Enqueue(slot, Granted(name));
            assert c.outbox + [Granted(name)] == Award(c, [name]).outbox;
            searching := false;
          }
        }
      }
    }

    method Status(slot: nat, name: Name)
      requires Valid() && Occupied(slots, slot)
      modifies this
      ensures Valid() && nextId == old(nextId) && locks == Apply(old(locks), L.Status(name))
      ensures var c, l := old(slots[slot].value), Get(old(locks), name);
        slots == old(slots)[slot := Some(c.(outbox := c.outbox
          + [if l.holder.None? then StatusFree(name, 0) else StatusHeld(name, l.holder.value, |l.queue|)]))]
    {
      TouchKeepsAgree(locks, slots, name);
      var l := Entry(name);
      match l.holder {
        case None => Respond(slot, StatusFree(name, |l.queue|));
        case Some(holder) => Respond(slot, StatusHeld(name, holder, |l.queue|));
      }
    }

    /** The names of all held locks, each once, framed by the list markers. */
    method List(slot: nat) returns (ghost names: seq<Name>)
      requires Valid() && Occupied(slots, slot)
      modifies this
      ensures Valid() && nextId == old(nextId) && locks == old(locks)
      ensures NoDup(names) && forall n :: n in names <==> n in locks && locks[n].holder.Some?
      ensures Occupied(slots, slot)
      ensures var c, now := old(slots[slot].value), slots[slot].value.outbox;
        && |now| == |c.outbox| + |names| + 2 && now[..|c.outbox|] == c.outbox
        && now[|c.outbox|] == ListBegin && now[|now| - 1] == ListEnd
        && (forall k :: 0 <= k < |names| ==> now[|c.outbox| + 1 + k] == ListEntry(names[k]))
        && slots == old(slots)[slot := Some(c.(outbox := now))]
    {
      ghost var c := slots[slot].value;
      var held := HeldNames();
      names := held;
      Enqueue(slot, ListBegin);
      for i := 0 to |held|
        invariant locks == old(locks) && nextId == old(nextId)
        invariant Occupied(slots, slot) && SameOwners(old(slots), slots)
        invariant slots == old(slots)[slot := Some(c.(outbox := slots[slot].value.outbox))]
        invariant IsListing(c.outbox, slots[slot].value.outbox, held[..i])
      {
        Enqueue(slot, ListEntry(held[i]));
      }
      Enqueue(slot, ListEnd);
      OutboxKeepsAgree(locks, old(slots), slots);
    }

    /** A list reply without its end. */
    ghost static predicate IsListing(was: seq<Response>, now: seq<Response>, names: seq<Name>) {
      && |now| == |was| + 1 + |names| && now[..|was|] == was && now[|was|] == ListBegin
      && forall k :: 0 <= k < |names| ==> now[|was| + 1 + k] == ListEntry(names[k])
    }

    method HeldNames() returns (names: seq<Name>)
      ensures NoDup(names) && forall n :: n in names <==> n in locks && locks[n].holder.Some?
    {
      names := [];
      var todo := locks.Keys;
      while todo != {}
        invariant todo <= locks.Keys && NoDup(names)
        invariant forall n :: n in names <==> n in locks && n !in todo && locks[n].holder.Some?
        decreases todo
      {
        var n :| n in todo;
        todo := todo - {n};
        if locks[n].holder.Some? {
          names := names + [n];
        }
      }
    }

    /** Everybody's records and replies after a request. */
    static function SlabAfter(t: Table, slots: Slab, slot: nat, request: Request): Slab
      requires Occupied(slots, slot) && !request.List?
    {
      var c, n := slots[slot].value, request.name;
      var l := Get(t, n);
      match request
      case Acquire(_) =>
        if l.holder == Some(c.id) || c.id in l.queue then slots[slot := Some(Reply(c, ALREADY_HELD))]
        else if l == Lock(None, []) then slots[slot := Some(Award(c, [n]))]
        else slots
      case TryAcquire(_) => slots[slot := Some(if l == Lock(None, []) then Award(c, [n]) else Reply(c, Denied(n)))]
      case Release(_) =>
        if l.holder != Some(c.id) then slots[slot := Some(Reply(c, NOT_HELD))]
        else GiveTo(slots[slot := Some(Reply(c.(held := Without(c.held, n)), Ok))], Promote(l).holder, n)
      case Status(_) =>
        var status := if l.holder.None? then StatusFree(n, 0) else StatusHeld(n, l.holder.value, |l.queue|);
        slots[slot := Some(Reply(c, status))]
    }

    /** One complete request line. */
    method Process(slot: nat, request: Request) returns (ghost names: seq<Name>)
      requires Valid() && Occupied(slots, slot)
      modifies this
      ensures Valid() && nextId == old(nextId)
      ensures locks == if request.List? then old(locks)
                       else Apply(old(locks), RequestOp(old(slots[slot].value.id), request))
      ensures !request.List? ==> slots == SlabAfter(old(locks), old(slots), slot, request)
      ensures Occupied(slots, slot)
      ensures request.List? ==>
        var c, now := old(slots[slot].value), slots[slot].value.outbox;
        && NoDup(names) && (forall n :: n in names <==> n in locks && locks[n].holder.Some?)
        && |now| == |c.outbox| + |names| + 2 && now[..|c.outbox|] == c.outbox
        && now[|c.outbox|] == ListBegin && now[|now| - 1] == ListEnd
        && (forall k :: 0 <= k < |names| ==> now[|c.outbox| + 1 + k] == ListEntry(names[k]))
        && slots == old(slots)[slot := Some(c.(outbox := now))]
    {
      names := [];
      if request.List? {
        names := List(slot);
      } else {
        ProcessNamed(slot, request);
      }
    }

    /** A request for one lock. */
    method ProcessNamed(slot: nat, request: Request)
      requires Valid() && Occupied(slots, slot) && !request.List?
      modifies this
      ensures Valid() && nextId == old(nextId)
      ensures locks == Apply(old(locks), RequestOp(old(slots[slot].value.id), request))
      ensures slots == SlabAfter(old(locks), old(slots), slot, request)
    {
      AwardOne(slots[slot].value, request.name);
      match request
      case Acquire(n) => Acquire(slot, n);
      case TryAcquire(n) => TryAcquire(slot, n);
      case Release(n) => Release(slot, n);
      case Status(n) => Status(slot, n);
    }

    static function RequestOp(id: ClientId, request: Request): Op
      requires !request.List?
    {
      match request
      case Acquire(n) => L.Acquire(id, n)
      case TryAcquire(n) => L.TryAcquire(id, n)
      case Release(n) => L.Release(id, n)
      case Status(n) => L.Status(n)
    }

    /**
     Forget a client, whatever it was doing: it leaves every queue, and each lock it held goes to
     the oldest other waiter, who lists it and is told. Every other client keeps what it had.
     */
    method Disconnect(slot: nat)
      requires Valid()
      modifies this
      ensures Valid() && nextId == old(nextId)
      ensures !Occupied(old(slots), slot) ==> locks == old(locks) && slots == old(slots)
      ensures Occupied(old(slots), slot) ==>
        var c := old(slots[slot].value);
        && locks == Apply(old(locks), L.Disconnect(c.id))
        && slots == Awarded(old(slots)[slot := None], c.held, locks)
    {
      if slot >= |slots| || slots[slot].None? {
        return;
      }
      var c := slots[slot].value;
      ListIsComplete(locks, slots, slot);
      AgreeTableInv(locks, slots);
      RemoveKeepsAgree(locks, slots, slot);
      slots := slots[slot := None];
      LeaveQueues(c.id);
      ReleaseHeld(c.id, c.held, old(locks));
    }

    /** Remove the client from every queue it is in. */
    method LeaveQueues(id: ClientId)
      modifies this`locks
      ensures locks == CutOut(old(locks), id)
    {
      var todo := locks.Keys;
      while todo != {}
        invariant todo <= locks.Keys == old(locks).Keys
        invariant forall n :: n in locks ==>
          locks[n] == if n in todo then old(locks[n]) else CutOut(old(locks), id)[n]
        decreases todo
      {
        var n :| n in todo;
        todo := todo - {n};
        var queue := Retain(locks[n].queue, id);
        locks := locks[n := locks[n].(queue := queue)];
      }
    }

    /** Hand over every lock of a client that is gone. */
    method ReleaseHeld(id: ClientId, held: seq<Name>, ghost before: Table)
      requires TableInv(before) && locks == CutOut(before, id) && NoDup(held)
      requires forall n :: n in held <==> n in before && before[n].holder == Some(id)
      requires AgreeBut(locks, slots, Names(held))
      modifies this`locks, this`slots
      ensures Agree(locks, slots) && locks == Apply(before, L.Disconnect(id))
      ensures slots == Awarded(old(slots), held, locks)
    {
      ghost var start := slots;
      NothingReleased(before, slots, id, held);
      var k := 0;
      while k < |held|
        invariant k <= |held| && PartlyReleased(before, start, id, held, k, locks, slots)
      {
        ReleaseNext(id, held, k, before, start);
        k := k + 1;
      }
      AllReleased(before, start, id, held, locks, slots);
    }

    /** One turn of the loop over `held`. */
    method ReleaseNext(id: ClientId, held: seq<Name>, k: nat, ghost before: Table, ghost start: Slab)
      requires NoDup(held) && k < |held| && held[k] in before && before[held[k]].holder == Some(id)
      requires UniqueIds(start) && PartlyReleased(before, start, id, held, k, locks, slots)
      modifies this`locks, this`slots
      ensures PartlyReleased(before, start, id, held, k + 1, locks, slots)
    {
      NamesNext(held, k);
      NewHolderLive(locks, slots, Names(held[k..]), held[k]);
      AwardedNext(start, held, k, Apply(before, L.Disconnect(id)));
      HalfwayNext(before, id, held, k);
      ReleaseOne(id, held[k], Names(held[k..]));
    }

    /** Hand over one lock of a client that is gone. */
    method ReleaseOne(id: ClientId, name: Name, ghost orphans: set<Name>)
      requires AgreeBut(locks, slots, orphans) && name in orphans && name in locks
      modifies this`locks, this`slots
      ensures AgreeBut(locks, slots, orphans - {name})
      ensures var l := Promote(old(locks[name]));
        locks == old(locks)[name := l] && slots == GiveTo(old(slots), l.holder, name)
    {
      ghost var t := locks;
      HandOverKeepsAgree(locks, slots, orphans, name);
      if locks[name].holder == Some(id) {
        PromoteIgnoresHolder(locks[name], slots);
        locks := locks[name := locks[name].(holder := None)];
      }
      PromoteAndNotify(name);
      assert locks == t[name := Promote(t[name])];
    }
  }

  /** The table when the named locks of a gone client have not been handed over yet. */
  ghost function Halfway(before: Table, id: ClientId, rest: seq<Name>): Table {
    map n | n in before :: if n in rest then CutOut(before, id)[n] else DisconnectLock(before[n], id)
  }

  /** The first `k` locks of a gone client are handed over, and nothing else changed. */
  ghost predicate PartlyReleased(before: Table, start: Slab, id: ClientId, held: seq<Name>, k: nat,
                                 locks: Table, slots: Slab)
    requires k <= |held|
  {
    && locks == Halfway(before, id, held[k..]) && AgreeBut(locks, slots, Names(held[k..]))
    && slots == Awarded(start, held[..k], Apply(before, L.Disconnect(id)))
  }

  lemma NothingReleased(before: Table, slots: Slab, id: ClientId, held: seq<Name>)
    requires TableInv(before) && AgreeBut(CutOut(before, id), slots, Names(held))
    requires forall n :: n in held <==> n in before && before[n].holder == Some(id)
    ensures PartlyReleased(before, slots, id, held, 0, CutOut(before, id), slots)
  {
    assert held[..0] == [] && held[0..] == held;
    AwardedNone(slots, Apply(before, L.Disconnect(id)));
    assert Halfway(before, id, held) == CutOut(before, id);
  }

  lemma AllReleased(before: Table, start: Slab, id: ClientId, held: seq<Name>, locks: Table, slots: Slab)
    requires PartlyReleased(before, start, id, held, |held|, locks, slots)
    ensures Agree(locks, slots) && locks == Apply(before, L.Disconnect(id))
    ensures slots == Awarded(start, held, Apply(before, L.Disconnect(id)))
  {
    assert held[..|held|] == held && held[|held|..] == [] && Names([]) == {};
    assert locks == Apply(before, L.Disconnect(id));
  }

  lemma HalfwayNext(before: Table, id: ClientId, held: seq<Name>, k: nat)
    requires NoDup(held) && k < |held| && held[k] in before && before[held[k]].holder == Some(id)
    ensures var t := Halfway(before, id, held[k..]);
      && held[k] in t && Promote(t[held[k]]) == Get(Apply(before, L.Disconnect(id)), held[k])
      && t[held[k] := Promote(t[held[k]])] == Halfway(before, id, held[k + 1..])
  {
    NamesNext(held, k);
  }

  lemma PromoteIgnoresHolder(l: Lock, slots: Slab)
    ensures PromoteLive(l.(holder := None), slots) == PromoteLive(l, slots)
  {}

  /** Whoever is promoted has a slot. */
  lemma NewHolderLive(locks: Table, slots: Slab, orphans: set<Name>, n: Name)
    requires AgreeBut(locks, slots, orphans) && n in locks
    ensures Promote(locks[n]).holder.Some? ==> IsLive(slots, Promote(locks[n]).holder.value)
  {
    assert LockOk(locks, slots, orphans, n);
  }

  lemma AwardedNone(slots: Slab, t: Table)
    ensures Awarded(slots, [], t) == slots
  {
    forall i | 0 <= i < |slots|
      ensures Awarded(slots, [], t)[i] == slots[i]
    {
      if slots[i].Some? {
        AwardMore(slots[i].value, [], []);
      }
    }
  }
}
