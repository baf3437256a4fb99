/** The event server's lock table and client slab, and what it means that they agree. */
module EventAgreement {
  import opened Sequences
  import opened Wrappers
  import opened Protocol
  import opened L = LockTable

  /** One live connection: its id, the locks it holds, and the responses queued for it. */
  datatype Client = Client(id: ClientId, held: seq<Name>, outbox: seq<Response>)

  type Slab = seq<Option<Client>>

  /** Slot `i` is occupied by client `id`. */
  predicate At(slots: Slab, i: nat, id: ClientId) {
    i < |slots| && slots[i].Some? && slots[i].value.id == id
  }

  ghost predicate IsLive(slots: Slab, id: ClientId) {
    exists i: nat :: At(slots, i, id)
  }

  predicate Occupied(slots: Slab, i: nat) {
    i < |slots| && slots[i].Some?
  }

  ghost predicate Owns(slots: Slab, i: nat, id: ClientId, n: Name) {
    At(slots, i, id) && n in slots[i].value.held
  }

  /** No two live clients share an id. */
  ghost predicate UniqueIds(slots: Slab) {
    forall i: nat, j: nat :: Occupied(slots, i) && Occupied(slots, j) && i != j ==>
      slots[i].value.id != slots[j].value.id
  }

  /** The slab side of one slot: each held lock is in the table with this client as its holder. */
  ghost predicate SlotOk(locks: Table, slots: Slab, orphans: set<Name>, i: nat) {
    Occupied(slots, i) ==>
      && NoDup(slots[i].value.held)
      && forall n :: n in slots[i].value.held ==>
           n in locks && n !in orphans && locks[n].holder == Some(slots[i].value.id)
  }

  /** The table side of one lock: its holder is live and lists it, and only live clients wait for it. */
  ghost predicate LockOk(locks: Table, slots: Slab, orphans: set<Name>, n: Name)
    requires n in locks
  {
    && NoDup(locks[n].queue)
    && (forall id :: id in locks[n].queue ==> IsLive(slots, id))
    && (n !in orphans ==> LockInv(locks[n]))
    && (n !in orphans && locks[n].holder.Some? ==> exists i: nat :: Owns(slots, i, locks[n].holder.value, n))
  }

  /** Table and slab agree, but for the locks that are being taken from their holder. */
  ghost predicate AgreeBut(locks: Table, slots: Slab, orphans: set<Name>) {
    && UniqueIds(slots)
    && (forall i: nat :: SlotOk(locks, slots, orphans, i))
    && (forall n :: n in locks ==> LockOk(locks, slots, orphans, n))
  }

  /**
   The lock `n` is held by client `id` exactly if the one live entry of that id lists it, and
   then once; queues have no duplicates, hold only live clients and never the holder; and a
   lock somebody waits for has a holder.
   */
  ghost predicate Agree(locks: Table, slots: Slab) {
    AgreeBut(locks, slots, {})
  }

  lemma AgreeTableInv(locks: Table, slots: Slab)
    requires Agree(locks, slots)
    ensures TableInv(locks)
  {
    assert forall n :: n in locks ==> LockOk(locks, slots, {}, n);
  }

  /** The agreement as the two sides see it. */
  lemma HolderIffListed(locks: Table, slots: Slab, i: nat, n: Name)
    requires Agree(locks, slots) && Occupied(slots, i)
    ensures n in slots[i].value.held <==> Get(locks, n).holder == Some(slots[i].value.id)
    ensures multiset(slots[i].value.held)[n] <= 1
  {
    assert SlotOk(locks, slots, {}, i);
    if n in locks {
      assert LockOk(locks, slots, {}, n);
    }
    OnlyOnce(slots[i].value.held, n);
  }

  /** All of a client's locks are in its list. */
  lemma ListIsComplete(locks: Table, slots: Slab, i: nat)
    requires Agree(locks, slots) && Occupied(slots, i)
    ensures NoDup(slots[i].value.held)
    ensures forall n :: n in slots[i].value.held <==> n in locks && locks[n].holder == Some(slots[i].value.id)
  {
    assert SlotOk(locks, slots, {}, i);
    forall n
      ensures n in slots[i].value.held <==> n in locks && locks[n].holder == Some(slots[i].value.id)
    {
      HolderIffListed(locks, slots, i, n);
    }
  }

  lemma {:induction false} OnlyOnce<T>(q: seq<T>, x: T)
    requires NoDup(q)
    ensures multiset(q)[x] <= 1
  {
    if q != [] {
      OnlyOnce(q[1..], x);
      assert q == [q[0]] + q[1..];
      if x == q[0] {
        assert x !in q[1..];
      }
    }
  }

  /** The slot of a client, as the server finds it: the first one with its id. */
  function FindSlot(slots: Slab, id: ClientId): (i: nat)
    ensures i <= |slots|
    ensures i < |slots| ==> At(slots, i, id)
    ensures IsLive(slots, id) ==> i < |slots|
  {
    if slots == [] then 0
    else if slots[0].Some? && slots[0].value.id == id then 0
    else
      assert IsLive(slots, id) ==> IsLive(slots[1..], id) by {
        if IsLive(slots, id) {
          var i: nat :| At(slots, i, id);
          assert At(slots[1..], i - 1, id);
        }
      }
      1 + FindSlot(slots[1..], id)
  }

  function Award(c: Client, names: seq<Name>): Client {
    c.(held := c.held + names, outbox := c.outbox + Grants(names))
  }

  lemma AwardOne(c: Client, n: Name)
    ensures Award(c, [n]) == c.(held := c.held + [n], outbox := c.outbox + [Granted(n)])
  {
    assert Grants([n]) == [Granted(n)];
  }

  function Grants(names: seq<Name>): (r: seq<Response>)
    ensures |r| == |names| && forall i :: 0 <= i < |r| ==> r[i] == Granted(names[i])
  {
    seq(|names|, i requires 0 <= i < |names| => Granted(names[i]))
  }

  /** The new holder, if there is one, lists the lock and is told. */
  function GiveTo(slots: Slab, holder: Option<ClientId>, n: Name): Slab {
    match holder
    case None => slots
    case Some(id) =>
      var i := FindSlot(slots, id);
      if i < |slots| then slots[i := Some(Award(slots[i].value, [n]))] else slots
  }

  /** Promotion as the server does it: waiters without a slot are skipped. */
  function PromoteLive(l: Lock, slots: Slab): Lock
    decreases |l.queue|
  {
    var l' := Promote(l);
    if l'.holder.Some? && FindSlot(slots, l'.holder.value) == |slots| then PromoteLive(l', slots) else l'
  }

  /** When everyone waiting is live nobody is skipped. */
  lemma PromoteAllLive(l: Lock, slots: Slab)
    requires forall id :: id in l.queue ==> IsLive(slots, id)
    ensures PromoteLive(l, slots) == Promote(l)
  {}

  // ---------------------------------------------------------------------------
  // Changes that keep the agreement
  // ---------------------------------------------------------------------------

  /** Same clients, same held locks; only outboxes differ. */
  ghost predicate SameOwners(slots: Slab, slots': Slab) {
    && |slots| == |slots'|
    && forall i: nat :: i < |slots| ==>
         && slots[i].Some? == slots'[i].Some?
         && (slots[i].Some? ==> slots[i].value.id == slots'[i].value.id && slots[i].value.held == slots'[i].value.held)
  }

  lemma LiveKept(slots: Slab, slots': Slab, id: ClientId)
    requires |slots| == |slots'|
    requires forall i: nat :: i < |slots| && slots[i].Some? ==>
      slots'[i].Some? && slots'[i].value.id == slots[i].value.id
    ensures IsLive(slots, id) ==> IsLive(slots', id)
  {
    if IsLive(slots, id) {
      var i: nat :| At(slots, i, id);
      assert At(slots', i, id);
    }
  }

  lemma OutboxKeepsAgree(locks: Table, slots: Slab, slots': Slab)
    requires Agree(locks, slots) && SameOwners(slots, slots')
    ensures Agree(locks, slots')
  {
    forall n | n in locks
      ensures LockOk(locks, slots', {}, n)
    {
      assert LockOk(locks, slots, {}, n);
      forall id | id in locks[n].queue
        ensures IsLive(slots', id)
      {
        LiveKept(slots, slots', id);
      }
      if locks[n].holder.Some? {
        var i: nat :| Owns(slots, i, locks[n].holder.value, n);
        assert Owns(slots', i, locks[n].holder.value, n);
      }
    }
    forall i: nat
      ensures SlotOk(locks, slots', {}, i)
    {
      assert SlotOk(locks, slots, {}, i);
    }
  }

  /** Creating the entry of a name nobody used before. */
  lemma TouchKeepsAgree(locks: Table, slots: Slab, n: Name)
    requires Agree(locks, slots)
    ensures Agree(locks[n := Get(locks, n)], slots) && LockInv(Get(locks, n))
  {
    var locks' := locks[n := Get(locks, n)];
    forall m | m in locks'
      ensures LockOk(locks', slots, {}, m)
    {
      assert m in locks ==> LockOk(locks, slots, {}, m);
    }
    forall i: nat
      ensures SlotOk(locks', slots, {}, i)
    {
      assert SlotOk(locks, slots, {}, i);
    }
  }

  /** A held lock gets a live client that is new to it as its last waiter. */
  lemma EnqueueKeepsAgree(locks: Table, slots: Slab, n: Name, id: ClientId)
    requires Agree(locks, slots) && n in locks && IsLive(slots, id)
    requires locks[n].holder.Some? && locks[n].holder != Some(id) && id !in locks[n].queue
    ensures Agree(locks[n := AcquireLock(locks[n], id)], slots)
  {
    var locks' := locks[n := AcquireLock(locks[n], id)];
    forall m | m in locks'
      ensures LockOk(locks', slots, {}, m)
    {
      assert LockOk(locks, slots, {}, m);
      LockOpsKeepInv(locks[m], id);
    }
    forall i: nat
      ensures SlotOk(locks', slots, {}, i)
    {
      assert SlotOk(locks, slots, {}, i);
    }
  }

  /** A live client is made the holder of a lock that no live client holds. */
  ghost predicate CanAward(locks: Table, slots: Slab, orphans: set<Name>, n: Name, l: Lock, i: nat) {
    && AgreeBut(locks, slots, orphans) && n in locks && Occupied(slots, i)
    && l.holder == Some(slots[i].value.id) && LockInv(l)
    && (forall id :: id in l.queue ==> id in locks[n].queue)
    && (forall j: nat :: Occupied(slots, j) ==> n !in slots[j].value.held)
  }

  lemma AwardLock(locks: Table, slots: Slab, orphans: set<Name>, n: Name, l: Lock, i: nat, m: Name)
    requires CanAward(locks, slots, orphans, n, l, i) && m in locks
    ensures LockOk(locks[n := l], slots[i := Some(Award(slots[i].value, [n]))], orphans - {n}, m)
  {
    var slots' := slots[i := Some(Award(slots[i].value, [n]))];
    assert LockOk(locks, slots, orphans, m);
    assert At(slots', i, slots[i].value.id) && Owns(slots', i, slots[i].value.id, n);
    forall id | id in locks[m].queue
      ensures IsLive(slots', id)
    {
      LiveKept(slots, slots', id);
    }
    if m != n && m !in orphans && locks[m].holder.Some? {
      var j: nat :| Owns(slots, j, locks[m].holder.value, m);
      assert Owns(slots', j, locks[m].holder.value, m);
    }
  }

  lemma AwardKeepsAgree(locks: Table, slots: Slab, orphans: set<Name>, n: Name, l: Lock, i: nat)
    requires CanAward(locks, slots, orphans, n, l, i)
    ensures AgreeBut(locks[n := l], slots[i := Some(Award(slots[i].value, [n]))], orphans - {n})
  {
    var locks', slots' := locks[n := l], slots[i := Some(Award(slots[i].value, [n]))];
    forall m | m in locks'
      ensures LockOk(locks', slots', orphans - {n}, m)
    {
      AwardLock(locks, slots, orphans, n, l, i, m);
    }
    forall j: nat
      ensures SlotOk(locks', slots', orphans - {n}, j)
    {
      assert SlotOk(locks, slots, orphans, j);
    }
  }

  /** A lock that no live client holds is freed. */
  lemma FreeKeepsAgree(locks: Table, slots: Slab, orphans: set<Name>, n: Name)
    requires AgreeBut(locks, slots, orphans) && n in locks
    requires forall j: nat :: Occupied(slots, j) ==> n !in slots[j].value.held
    ensures AgreeBut(locks[n := Lock(None, [])], slots, orphans - {n})
  {
    var locks' := locks[n := Lock(None, [])];
    forall m | m in locks'
      ensures LockOk(locks', slots, orphans - {n}, m)
    {
      assert LockOk(locks, slots, orphans, m);
    }
    forall j: nat
      ensures SlotOk(locks', slots, orphans - {n}, j)
    {
      assert SlotOk(locks, slots, orphans, j);
    }
  }

  /** Handing over a lock that was taken from its holder restores the agreement for it. */
  lemma HandOverKeepsAgree(locks: Table, slots: Slab, orphans: set<Name>, n: Name)
    requires AgreeBut(locks, slots, orphans) && n in locks && n in orphans
    ensures var l := Promote(locks[n]);
      && PromoteLive(locks[n], slots) == l
      && AgreeBut(locks[n := l], GiveTo(slots, l.holder, n), orphans - {n})
  {
    var q := locks[n].queue;
    assert LockOk(locks, slots, orphans, n);
    PromoteAllLive(locks[n], slots);
    forall j: nat | Occupied(slots, j)
      ensures n !in slots[j].value.held
    {
      assert SlotOk(locks, slots, orphans, j);
    }
    if q == [] {
      FreeKeepsAgree(locks, slots, orphans, n);
    } else {
      assert q[0] in q && q[0] !in q[1..];
      AwardKeepsAgree(locks, slots, orphans, n, Promote(locks[n]), FindSlot(slots, q[0]));
    }
  }

  /** Giving up one lock leaves only that lock without an owner. */
  lemma GiveUpKeepsAgree(locks: Table, slots: Slab, i: nat, n: Name, outbox: seq<Response>)
    requires Agree(locks, slots) && Occupied(slots, i) && n in locks && locks[n].holder == Some(slots[i].value.id)
    ensures AgreeBut(locks, slots[i := Some(Client(slots[i].value.id, Without(slots[i].value.held, n), outbox))], {n})
  {
    var c := slots[i].value;
    var slots' := slots[i := Some(Client(c.id, Without(c.held, n), outbox))];
    WithoutMembers(c.held, n);
    forall m | m in locks
      ensures LockOk(locks, slots', {n}, m)
    {
      assert LockOk(locks, slots, {}, m);
      forall id | id in locks[m].queue
        ensures IsLive(slots', id)
      {
        LiveKept(slots, slots', id);
      }
      if m != n && locks[m].holder.Some? {
        var j: nat :| Owns(slots, j, locks[m].holder.value, m);
        assert Owns(slots', j, locks[m].holder.value, m);
      }
    }
    forall j: nat
      ensures SlotOk(locks, slots', {n}, j)
    {
      assert SlotOk(locks, slots, {}, j);
      assert j != i && Occupied(slots, j) ==> c.id != slots[j].value.id;
    }
  }

  /** A new connection in a free slot, or one appended. */
  lemma InsertKeepsAgree(locks: Table, slots: Slab, slots': Slab, i: nat, id: ClientId)
    requires Agree(locks, slots) && !IsLive(slots, id)
    requires (i < |slots| && slots[i].None? && slots' == slots[i := Some(Client(id, [], []))])
          || (i == |slots| && slots' == slots + [Some(Client(id, [], []))])
    ensures Agree(locks, slots') && At(slots', i, id)
  {
    assert forall j: nat :: Occupied(slots, j) ==> At(slots, j, slots[j].value.id);
    forall n | n in locks
      ensures LockOk(locks, slots', {}, n)
    {
      assert LockOk(locks, slots, {}, n);
      forall id' | id' in locks[n].queue
        ensures IsLive(slots', id')
      {
        var j: nat :| At(slots, j, id');
        assert At(slots', j, id');
      }
      if locks[n].holder.Some? {
        var j: nat :| Owns(slots, j, locks[n].holder.value, n);
        assert Owns(slots', j, locks[n].holder.value, n);
      }
    }
    forall j: nat
      ensures SlotOk(locks, slots', {}, j)
    {
      assert SlotOk(locks, slots, {}, j);
    }
  }

  // ---------------------------------------------------------------------------
  // Disconnecting
  // ---------------------------------------------------------------------------

  /** The table after the client was cut out of every queue. */
  function CutOut(locks: Table, id: ClientId): Table {
    map n | n in locks :: locks[n].(queue := Without(locks[n].queue, id))
  }

  function Names(held: seq<Name>): set<Name> {
    set n | n in held
  }

  lemma NamesNext(held: seq<Name>, k: nat)
    requires NoDup(held) && k < |held|
    ensures held[k] !in held[k + 1..]
    ensures forall n :: n in held[k..] <==> n == held[k] || n in held[k + 1..]
    ensures Names(held[k..]) - {held[k]} == Names(held[k + 1..])
  {
    assert held[k..] == [held[k]] + held[k + 1..];
  }

  /** Taking a client out of the slab leaves exactly its locks without an owner. */
  lemma RemoveKeepsAgree(locks: Table, slots: Slab, i: nat)
    requires Agree(locks, slots) && Occupied(slots, i)
    ensures var c := slots[i].value;
      AgreeBut(CutOut(locks, c.id), slots[i := None], Names(c.held))
  {
    var c := slots[i].value;
    var locks', slots', orphans := CutOut(locks, c.id), slots[i := None], Names(c.held);
    forall n | n in locks'
      ensures LockOk(locks', slots', orphans, n)
    {
      RemoveLock(locks, slots, i, n);
    }
    forall j: nat
      ensures SlotOk(locks', slots', orphans, j)
    {
      assert SlotOk(locks, slots, {}, j) && SlotOk(locks, slots, {}, i);
      assert j != i && Occupied(slots, j) ==> c.id != slots[j].value.id;
    }
  }

  lemma RemoveLock(locks: Table, slots: Slab, i: nat, n: Name)
    requires Agree(locks, slots) && Occupied(slots, i) && n in locks
    ensures var c := slots[i].value;
      LockOk(CutOut(locks, c.id), slots[i := None], Names(c.held), n)
  {
    var c := slots[i].value;
    assert LockOk(locks, slots, {}, n);
    WithoutMembers(locks[n].queue, c.id);
    forall id | id in locks[n].queue && id != c.id
      ensures IsLive(slots[i := None], id)
    {
      var j: nat :| At(slots, j, id);
      assert At(slots[i := None], j, id);
    }
    if n !in c.held && locks[n].holder.Some? {
      var j: nat :| Owns(slots, j, locks[n].holder.value, n);
      assert Owns(slots[i := None], j, locks[n].holder.value, n);
    }
  }

  /** Those of `names` whose holder in `t` is the client, in order. */
  function Won(names: seq<Name>, t: Table, id: ClientId): seq<Name> {
    if names == [] then []
    else
      var k := |names| - 1;
      Won(names[..k], t, id) + if Get(t, names[k]).holder == Some(id) then [names[k]] else []
  }

  /** Every client after it was awarded its share of the named locks. */
  function Awarded(slots: Slab, names: seq<Name>, t: Table): (r: Slab)
    ensures |r| == |slots|
  {
    seq(|slots|, i requires 0 <= i < |slots| =>
      if slots[i].Some? then Some(Award(slots[i].value, Won(names, t, slots[i].value.id))) else None)
  }

  lemma AwardMore(c: Client, names: seq<Name>, more: seq<Name>)
    ensures Award(Award(c, names), more) == Award(c, names + more)
    ensures Award(c, []) == c
  {
    assert Grants(names) + Grants(more) == Grants(names + more);
    assert c.outbox + Grants([]) == c.outbox;
  }

  /** Awarding one more lock is giving it to its new holder. */
  lemma AwardedNext(slots: Slab, names: seq<Name>, k: nat, t: Table)
    requires k < |names| && UniqueIds(slots)
    requires Get(t, names[k]).holder.Some? ==> IsLive(Awarded(slots, names[..k], t), Get(t, names[k]).holder.value)
    ensures Awarded(slots, names[..k + 1], t)
         == GiveTo(Awarded(slots, names[..k], t), Get(t, names[k]).holder, names[k])
  {
    var before, after := Awarded(slots, names[..k], t), Awarded(slots, names[..k + 1], t);
    var holder := Get(t, names[k]).holder;
    assert names[..k + 1][..k] == names[..k];
    forall i | 0 <= i < |slots|
      ensures after[i] == GiveTo(before, holder, names[k])[i]
    {
      if slots[i].Some? {
        var c := slots[i].value;
        AwardMore(c, Won(names[..k], t, c.id), [names[k]]);
        assert Won(names[..k], t, c.id) + [] == Won(names[..k], t, c.id);
        if holder == Some(c.id) {
          var f := FindSlot(before, c.id);
          assert Occupied(slots, f) && Occupied(slots, i);
        }
      }
    }
  }
}
