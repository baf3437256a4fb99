/** Whole runs of the event server: they are runs of the lock table, and no waiter is kept waiting for ever. */
module EventRun {
  import opened Sequences
  import opened Wrappers
  import opened Protocol
  import opened L = LockTable
  import opened EventAgreement
  import opened EventServer

  /** What the event loop reacts to; an event for a slot that is free by then is ignored. */
  datatype Event = Connect | Line(slot: nat, request: Request) | Hangup(slot: nat)

  function RequestOps(id: ClientId, r: Request): seq<Op> {
    if r.List? then [] else [Server.RequestOp(id, r)]
  }

  /** The table operation an event amounts to, if any. */
  function EventOps(slots: Slab, e: Event): (ops: seq<Op>)
    ensures |ops| <= 1
  {
    if e.Connect? || !Occupied(slots, e.slot) then []
    else if e.Hangup? then [L.Disconnect(slots[e.slot].value.id)]
    else RequestOps(slots[e.slot].value.id, e.request)
  }

  /** A client new to the slab is in its first free slot; everything else is as it was. */
  ghost predicate Inserted(slots: Slab, slots': Slab, slot: nat, id: ClientId) {
    && slot <= |slots| && (forall i :: 0 <= i < slot ==> Occupied(slots, i)) && !Occupied(slots, slot)
    && !IsLive(slots, id)
    && slots' == slots[..slot] + [Some(Client(id, [], []))] + if slot < |slots| then slots[slot + 1..] else []
  }

  /** The outbox grew by the held names, in some order, between the list markers. */
  ghost predicate ListReply(t: Table, was: seq<Response>, now: seq<Response>, names: seq<Name>) {
    && NoDup(names) && (forall n :: n in names <==> n in t && t[n].holder.Some?)
    && |now| == |was| + |names| + 2 && now[..|was|] == was
    && now[|was|] == ListBegin && now[|now| - 1] == ListEnd
    && (forall k :: 0 <= k < |names| ==> now[|was| + 1 + k] == ListEntry(names[k]))
  }

  /** The client at `slot` is sent the held names, each once, and nobody else's record changes. */
  ghost predicate SentList(t: Table, slots: Slab, slots': Slab, slot: nat)
    requires Occupied(slots, slot) && Occupied(slots', slot)
  {
    var c, now := slots[slot].value, slots'[slot].value.outbox;
    slots' == slots[slot := Some(c.(outbox := now))] && exists names :: ListReply(t, c.outbox, now, names)
  }

  /** The slab before and after an event. */
  ghost predicate SlabStep(t: Table, slots: Slab, e: Event, t': Table, slots': Slab) {
    if e.Connect? then exists slot, id :: Inserted(slots, slots', slot, id)
    else if !Occupied(slots, e.slot) then slots' == slots
    else if e.Hangup? then slots' == Awarded(slots[e.slot := None], slots[e.slot].value.held, t')
    else if e.request.List? then Occupied(slots', e.slot) && SentList(t, slots, slots', e.slot)
    else slots' == Server.SlabAfter(t, slots, e.slot, e.request)
  }

  /** One event is handled: table and slab agree before and after, and both change as they should. */
  ghost predicate Handled(t: Table, slots: Slab, e: Event, t': Table, slots': Slab) {
    && Agree(t, slots) && Agree(t', slots')
    && t' == Run(t, EventOps(slots, e)) && SlabStep(t, slots, e, t', slots')
  }

  /** The tables and slabs of a run, one pair after each event. */
  ghost predicate IsTrace(events: seq<Event>, tables: seq<Table>, slabs: seq<Slab>) {
    && |tables| == |slabs| == |events| + 1 && Agree(tables[0], slabs[0])
    && forall k: nat :: k < |events| ==> HandledAt(events, tables, slabs, k)
  }

  ghost predicate HandledAt(events: seq<Event>, tables: seq<Table>, slabs: seq<Slab>, k: nat)
    requires |tables| == |slabs| == |events| + 1 && k < |events|
  {
    Handled(tables[k], slabs[k], events[k], tables[k + 1], slabs[k + 1])
  }

  // ---------------------------------------------------------------------------
  // The server makes such runs
  // ---------------------------------------------------------------------------

  method Handle(server: Server, e: Event)
    requires server.Valid()
    modifies server
    ensures server.Valid()
    ensures Handled(old(server.locks), old(server.slots), e, server.locks, server.slots)
  {
    ghost var t, slots := server.locks, server.slots;
    match e {
      case Connect =>
        ghost var id := server.nextId;
        assert !IsLive(slots, id);
        var slot := server.Accept();
        assert Inserted(slots, server.slots, slot, id);
      case Line(slot, request) =>
        if slot < |server.slots| && server.slots[slot].Some? {
          HandleLine(server, slot, request);
        }
      case Hangup(slot) =>
        server.Disconnect(slot);
    }
    if !e.Line? && EventOps(slots, e) != [] {
      RunOne(t, EventOps(slots, e)[0]);
    }
  }

  method HandleLine(server: Server, slot: nat, request: Request)
    requires server.Valid() && Occupied(server.slots, slot)
    modifies server
    ensures server.Valid()
    ensures Handled(old(server.locks), old(server.slots), Line(slot, request), server.locks, server.slots)
  {
    ghost var t, slots := server.locks, server.slots;
    ghost var ops := RequestOps(slots[slot].value.id, request);
    if ops != [] {
      RunOne(t, ops[0]);
    }
    ghost var names := server.Process(slot, request);
    assert server.locks == Run(t, ops);
    if request.List? {
      assert ListReply(t, slots[slot].value.outbox, server.slots[slot].value.outbox, names);
      assert SentList(t, slots, server.slots, slot);
    }
    assert SlabStep(t, slots, Line(slot, request), server.locks, server.slots);
  }

  lemma TraceGrows(events: seq<Event>, i: nat, tables: seq<Table>, slabs: seq<Slab>, t: Table, slots: Slab)
    requires i < |events| && IsTrace(events[..i], tables, slabs)
    requires Handled(tables[i], slabs[i], events[i], t, slots)
    ensures IsTrace(events[..i + 1], tables + [t], slabs + [slots])
  {
    var es, ts, ss := events[..i + 1], tables + [t], slabs + [slots];
    forall k: nat | k < i + 1
      ensures HandledAt(es, ts, ss, k)
    {
      if k < i {
        assert HandledAt(events[..i], tables, slabs, k);
      }
    }
  }

  // ---------------------------------------------------------------------------
  // Runs of the lock table
  // ---------------------------------------------------------------------------

  /** The table operations of the events from `i` on and before `j`. */
  ghost function History(events: seq<Event>, slabs: seq<Slab>, i: nat, j: nat): seq<Op>
    requires i <= j <= |events| <= |slabs|
    decreases j - i
  {
    if i == j then [] else EventOps(slabs[i], events[i]) + History(events, slabs, i + 1, j)
  }

  lemma TraceAgrees(events: seq<Event>, tables: seq<Table>, slabs: seq<Slab>, k: nat)
    requires IsTrace(events, tables, slabs) && k <= |events|
    ensures Agree(tables[k], slabs[k])
  {
    assert k > 0 ==> HandledAt(events, tables, slabs, k - 1);
  }

  lemma TraceStep(events: seq<Event>, tables: seq<Table>, slabs: seq<Slab>, k: nat)
    requires IsTrace(events, tables, slabs) && k < |events|
    ensures tables[k + 1] == Run(tables[k], EventOps(slabs[k], events[k]))
  {
    assert HandledAt(events, tables, slabs, k);
  }

  /** Any stretch of any run of the event server is a run of the lock table. */
  lemma {:induction false} TraceRefines(events: seq<Event>, tables: seq<Table>, slabs: seq<Slab>, i: nat, j: nat)
    requires IsTrace(events, tables, slabs) && i <= j <= |events|
    ensures tables[j] == Run(tables[i], History(events, slabs, i, j))
    decreases j - i
  {
    if i < j {
      TraceStep(events, tables, slabs, i);
      TraceRefines(events, tables, slabs, i + 1, j);
      RunConcat(tables[i], EventOps(slabs[i], events[i]), History(events, slabs, i + 1, j));
    }
  }

  /** Every prefix of a history is the history up to some state on the way. */
  lemma {:induction false} PrefixIsState(events: seq<Event>, slabs: seq<Slab>, i: nat, j: nat, p: nat)
    requires i <= j <= |events| <= |slabs| && p <= |History(events, slabs, i, j)|
    ensures exists k :: i <= k <= j && History(events, slabs, i, k) == History(events, slabs, i, j)[..p]
    decreases j - i
  {
    if p == 0 {
      assert History(events, slabs, i, i) == History(events, slabs, i, j)[..p];
    } else {
      var first, rest := EventOps(slabs[i], events[i]), History(events, slabs, i + 1, j);
      PrefixIsState(events, slabs, i + 1, j, p - |first|);
      var k :| i + 1 <= k <= j && History(events, slabs, i + 1, k) == rest[..p - |first|];
      assert (first + rest)[..p] == first + rest[..p - |first|];
      assert History(events, slabs, i, k) == History(events, slabs, i, j)[..p];
    }
  }

  // ---------------------------------------------------------------------------
  // Clients stay until they hang up
  // ---------------------------------------------------------------------------

  lemma GiveToKeepsIds(slots: Slab, holder: Option<ClientId>, n: Name, i: nat)
    requires Occupied(slots, i)
    ensures At(GiveTo(slots, holder, n), i, slots[i].value.id)
  {}

  lemma SlabAfterKeepsIds(t: Table, slots: Slab, slot: nat, r: Request, i: nat)
    requires Occupied(slots, slot) && !r.List? && Occupied(slots, i)
    ensures At(Server.SlabAfter(t, slots, slot, r), i, slots[i].value.id)
  {
    if r.Release? {
      var c := slots[slot].value;
      var slots' := slots[slot := Some(Server.Reply(c.(held := Without(c.held, r.name)), Ok))];
      GiveToKeepsIds(slots', Promote(Get(t, r.name)).holder, r.name, i);
    }
  }

  /** An event moves no client to another slot, and removes none but the one that hangs up. */
  lemma ClientStays(t: Table, slots: Slab, e: Event, t': Table, slots': Slab, i: nat)
    requires Handled(t, slots, e, t', slots') && Occupied(slots, i) && e != Hangup(i)
    ensures At(slots', i, slots[i].value.id)
  {
    if e.Connect? {
      var slot: nat, id :| Inserted(slots, slots', slot, id);
      assert i != slot;
    } else if e.Line? && Occupied(slots, e.slot) && !e.request.List? {
      SlabAfterKeepsIds(t, slots, e.slot, e.request, i);
    }
  }

  lemma {:induction false} ClientLasts(events: seq<Event>, tables: seq<Table>, slabs: seq<Slab>,
                                       i: nat, j: nat, slot: nat)
    requires IsTrace(events, tables, slabs) && i <= j <= |events|
    requires Occupied(slabs[i], slot) && Hangup(slot) !in events[i..j]
    ensures At(slabs[j], slot, slabs[i][slot].value.id)
    decreases j
  {
    if i < j {
      assert events[i..j] == events[i..j - 1] + [events[j - 1]];
      ClientLasts(events, tables, slabs, i, j - 1, slot);
      assert HandledAt(events, tables, slabs, j - 1);
      ClientStays(tables[j - 1], slabs[j - 1], events[j - 1], tables[j], slabs[j], slot);
    }
  }

  /** As long as a client does not hang up, no operation disconnects it. */
  lemma {:induction false} NotDisconnected(events: seq<Event>, tables: seq<Table>, slabs: seq<Slab>,
                                           i: nat, j: nat, slot: nat)
    requires IsTrace(events, tables, slabs) && i <= j <= |events|
    requires Occupied(slabs[i], slot) && Hangup(slot) !in events[i..j]
    ensures Disconnect(slabs[i][slot].value.id) !in History(events, slabs, i, j)
    decreases j - i
  {
    if i < j {
      assert events[i..j] == [events[i]] + events[i + 1..j];
      var e := events[i];
      assert HandledAt(events, tables, slabs, i);
      ClientStays(tables[i], slabs[i], e, tables[i + 1], slabs[i + 1], slot);
      NotDisconnected(events, tables, slabs, i + 1, j, slot);
      if e.Hangup? && Occupied(slabs[i], e.slot) {
        assert e.slot != slot && slabs[i][e.slot].value.id != slabs[i][slot].value.id;
      }
    }
  }

  // ---------------------------------------------------------------------------
  // Bounded waiting
  // ---------------------------------------------------------------------------

  /**
   The client at `slot` waits for `n` in state `i` and does not hang up before state `j`, while the lock
   is handed on more often than there are others ahead of it.
   */
  ghost predicate Due(events: seq<Event>, tables: seq<Table>, slabs: seq<Slab>, i: nat, j: nat, slot: nat, n: Name)
    requires |tables| == |slabs| == |events| + 1 && i <= j <= |events|
  {
    && Occupied(slabs[i], slot) && Hangup(slot) !in events[i..j]
    && var c := slabs[i][slot].value.id;
       c in Get(tables[i], n).queue
       && HandOffs(tables[i], History(events, slabs, i, j), n) > Ahead(Get(tables[i], n).queue, c)
  }

  /**
   A client that waits for `n` with `k` others ahead of it and does not hang up is the holder in some
   later state of the run, if the lock is handed on more than `k` times; and it was handed on at most
   `k + 1` times by then.
   */
  lemma ClientServed(events: seq<Event>, tables: seq<Table>, slabs: seq<Slab>, i: nat, j: nat, slot: nat, n: Name)
    requires IsTrace(events, tables, slabs) && i <= j <= |events|
    requires Due(events, tables, slabs, i, j, slot, n)
    ensures var c := slabs[i][slot].value.id;
      exists k :: i <= k <= j && ServedAt(events, tables, slabs, i, k, n, c)
  {
    var c, ops := slabs[i][slot].value.id, History(events, slabs, i, j);
    TraceAgrees(events, tables, slabs, i);
    AgreeTableInv(tables[i], slabs[i]);
    NotDisconnected(events, tables, slabs, i, j, slot);
    WaiterServed(tables[i], ops, n, c);
    var p: nat :| HoldsAfter(tables[i], ops, p, n, c)
                && HandOffs(tables[i], ops[..p], n) <= Ahead(Get(tables[i], n).queue, c) + 1;
    PrefixIsState(events, slabs, i, j, p);
    var k :| i <= k <= j && History(events, slabs, i, k) == ops[..p];
    TraceRefines(events, tables, slabs, i, k);
    assert ServedAt(events, tables, slabs, i, k, n, c);
  }

  /** In state `k` the client, which waited in state `i`, is the holder, as soon as its place allows. */
  ghost predicate ServedAt(events: seq<Event>, tables: seq<Table>, slabs: seq<Slab>,
                           i: nat, k: nat, n: Name, c: ClientId)
    requires |tables| == |slabs| == |events| + 1 && i <= k <= |events| && c in Get(tables[i], n).queue
  {
    && Get(tables[k], n).holder == Some(c)
    && HandOffs(tables[i], History(events, slabs, i, k), n) <= Ahead(Get(tables[i], n).queue, c) + 1
  }

  // ---------------------------------------------------------------------------
  // The event loop
  // ---------------------------------------------------------------------------

  /**
   The event loop over any events, from whatever state: each event is handled in turn, with table and
   slab in agreement after each, and so every waiter that is due is served.
   */
  method Serve(server: Server, events: seq<Event>) returns (ghost tables: seq<Table>, ghost slabs: seq<Slab>)
    requires server.Valid()
    modifies server
    ensures server.Valid() && IsTrace(events, tables, slabs)
    ensures tables[0] == old(server.locks) && slabs[0] == old(server.slots)
    ensures tables[|events|] == server.locks && slabs[|events|] == server.slots
    ensures forall slot: nat, n :: Due(events, tables, slabs, 0, |events|, slot, n) ==>
      exists k :: 0 <= k <= |events| && ServedAt(events, tables, slabs, 0, k, n, slabs[0][slot].value.id)
  {
    tables, slabs := [server.locks], [server.slots];
    for i := 0 to |events|
      invariant server.Valid() && IsTrace(events[..i], tables, slabs)
      invariant tables[0] == old(server.locks) && slabs[0] == old(server.slots)
      invariant tables[i] == server.locks && slabs[i] == server.slots
    {
      Handle(server, events[i]);
      TraceGrows(events, i, tables, slabs, server.locks, server.slots);
      tables, slabs := tables + [server.locks], slabs + [server.slots];
    }
    assert events[..|events|] == events;
    forall slot: nat, n | Due(events, tables, slabs, 0, |events|, slot, n)
      ensures exists k :: 0 <= k <= |events| && ServedAt(events, tables, slabs, 0, k, n, slabs[0][slot].value.id)
    {
      ClientServed(events, tables, slabs, 0, |events|, slot, n);
    }
  }
}
