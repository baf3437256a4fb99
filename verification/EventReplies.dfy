/**
 What each event does to the locks and to every client's outbox, reply by reply, and what a client has
 been sent by the end of a run.
 */
module EventReplies {
  import opened Sequences
  import opened Wrappers
  import opened Protocol
  import opened L = LockTable
  import opened EventAgreement
  import opened EventServer
  import opened EventRun

  // ---------------------------------------------------------------------------
  // Handing over
  // ---------------------------------------------------------------------------

  /** The lock goes to the first waiter that still has a slot; those before it are dropped. */
  lemma {:induction false} PromoteLiveEffect(l: Lock, slots: Slab) returns (k: nat)
    ensures k <= |l.queue| && forall j :: 0 <= j < k ==> !IsLive(slots, l.queue[j])
    ensures if k == |l.queue| then PromoteLive(l, slots) == Lock(None, [])
            else IsLive(slots, l.queue[k]) && PromoteLive(l, slots) == Lock(Some(l.queue[k]), l.queue[k + 1..])
    decreases |l.queue|
  {
    if l.queue == [] {
      k := 0;
    } else {
      var i := FindSlot(slots, l.queue[0]);
      if i < |slots| {
        assert At(slots, i, l.queue[0]);
        k := 0;
      } else {
        k := PromoteLiveEffect(Promote(l), slots);
        k := k + 1;
      }
    }
  }

  /** The new holder lists the lock and is told; nobody else's record changes. */
  lemma GiveToEffect(slots: Slab, holder: Option<ClientId>, n: Name, i: nat)
    requires UniqueIds(slots) && i < |slots|
    ensures var slots' := GiveTo(slots, holder, n);
      && |slots'| == |slots|
      && if Occupied(slots, i) && holder == Some(slots[i].value.id) then
           var c := slots[i].value;
           slots'[i] == Some(Client(c.id, c.held + [n], c.outbox + [Granted(n)]))
         else slots'[i] == slots[i]
  {
    if holder.Some? {
      var f := FindSlot(slots, holder.value);
      if f < |slots| {
        AwardOne(slots[f].value, n);
        assert Occupied(slots, f);
      } else if Occupied(slots, i) {
        assert At(slots, i, slots[i].value.id);
      }
    }
  }

  lemma {:induction false} WonCount(names: seq<Name>, t: Table, id: ClientId, n: Name)
    ensures multiset(Won(names, t, id))[n] == if Get(t, n).holder == Some(id) then multiset(names)[n] else 0
  {
    if names != [] {
      var k := |names| - 1;
      WonCount(names[..k], t, id, n);
      assert names == names[..k] + [names[k]];
      assert multiset(names) == multiset(names[..k]) + multiset{names[k]};
      assert multiset(Won(names, t, id)) == multiset(Won(names[..k], t, id))
          + if Get(t, names[k]).holder == Some(id) then multiset{names[k]} else multiset{};
    }
  }

  /** Two sequences that match at each index have as many of the one as of the other. */
  lemma {:induction false} SameCount<A, B>(xs: seq<A>, ys: seq<B>, x: A, y: B)
    requires |xs| == |ys| && forall i :: 0 <= i < |xs| ==> (xs[i] == x <==> ys[i] == y)
    ensures multiset(xs)[x] == multiset(ys)[y]
  {
    if xs != [] {
      SameCount(xs[1..], ys[1..], x, y);
      assert xs == [xs[0]] + xs[1..] && ys == [ys[0]] + ys[1..];
    }
  }

  /** A client's list and outbox grow alike, by the named locks it holds in `t`, as often as they are named. */
  lemma AwardedEffect(slots: Slab, names: seq<Name>, t: Table, i: nat)
    requires i < |slots|
    ensures var slots' := Awarded(slots, names, t);
      && |slots'| == |slots|
      && if !Occupied(slots, i) then !Occupied(slots', i)
         else
           var c, c' := slots[i].value, slots'[i].value;
           && Occupied(slots', i) && c'.id == c.id && |c'.held| - |c.held| == |c'.outbox| - |c.outbox| >= 0
           && c'.held[..|c.held|] == c.held && c'.outbox[..|c.outbox|] == c.outbox
           && (forall k :: |c.outbox| <= k < |c'.outbox| ==>
                 c'.outbox[k] == Granted(c'.held[k - |c.outbox| + |c.held|]))
           && forall n :: multiset(c'.held[|c.held|..])[n]
                       == if Get(t, n).holder == Some(c.id) then multiset(names)[n] else 0
  {
    if Occupied(slots, i) {
      var c, c' := slots[i].value, Awarded(slots, names, t)[i].value;
      assert c'.held[|c.held|..] == Won(names, t, c.id);
      forall n
        ensures multiset(c'.held[|c.held|..])[n]
             == if Get(t, n).holder == Some(c.id) then multiset(names)[n] else 0
      {
        WonCount(names, t, c.id, n);
      }
    }
  }

  // ---------------------------------------------------------------------------
  // Every event
  // ---------------------------------------------------------------------------

  /** Refused if the client has or awaits the lock, granted if it is free, and otherwise left waiting. */
  lemma AcquireAnswered(t: Table, slots: Slab, slot: nat, n: Name, t': Table, slots': Slab)
    requires Occupied(slots, slot) && Handled(t, slots, Line(slot, Protocol.Acquire(n)), t', slots')
    ensures var c, l := slots[slot].value, Get(t, n);
      if l.holder == Some(c.id) || c.id in l.queue then
        t' == t[n := l] && slots' == slots[slot := Some(c.(outbox := c.outbox + [Err("already held")]))]
      else if l.holder.None? then
        && t' == t[n := Lock(Some(c.id), [])]
        && slots' == slots[slot := Some(Client(c.id, c.held + [n], c.outbox + [Granted(n)]))]
      else
        t' == t[n := Lock(l.holder, l.queue + [c.id])] && slots' == slots
  {
    TouchKeepsAgree(t, slots, n);
    AwardOne(slots[slot].value, n);
    RunOne(t, L.Acquire(slots[slot].value.id, n));
  }

  lemma TryAcquireAnswered(t: Table, slots: Slab, slot: nat, n: Name, t': Table, slots': Slab)
    requires Occupied(slots, slot) && Handled(t, slots, Line(slot, Protocol.TryAcquire(n)), t', slots')
    ensures var c, l := slots[slot].value, Get(t, n);
      if l.holder.None? then
        && t' == t[n := Lock(Some(c.id), [])]
        && slots' == slots[slot := Some(Client(c.id, c.held + [n], c.outbox + [Granted(n)]))]
      else
        t' == t[n := l] && slots' == slots[slot := Some(c.(outbox := c.outbox + [Denied(n)]))]
  {
    TouchKeepsAgree(t, slots, n);
    AwardOne(slots[slot].value, n);
    RunOne(t, L.TryAcquire(slots[slot].value.id, n));
  }

  /** The releaser is answered, and the oldest waiter is told that it holds the lock now. */
  lemma ReleaseAnswered(t: Table, slots: Slab, slot: nat, n: Name, t': Table, slots': Slab, i: nat)
    requires Occupied(slots, slot) && Handled(t, slots, Line(slot, Protocol.Release(n)), t', slots')
    requires i < |slots|
    ensures |slots'| == |slots|
    ensures var c, l := slots[slot].value, Get(t, n);
      if l.holder != Some(c.id) then
        t' == t[n := l] && slots' == slots[slot := Some(c.(outbox := c.outbox + [Err("not held")]))]
      else
        && t' == t[n := if l.queue == [] then Lock(None, []) else Lock(Some(l.queue[0]), l.queue[1..])]
        && if i == slot then slots'[i] == Some(Client(c.id, Without(c.held, n), c.outbox + [Ok]))
           else if Occupied(slots, i) && l.queue != [] && l.queue[0] == slots[i].value.id then
             slots'[i] == Some(Client(slots[i].value.id, slots[i].value.held + [n],
                                      slots[i].value.outbox + [Granted(n)]))
           else slots'[i] == slots[i]
  {
    var c, l := slots[slot].value, Get(t, n);
    TouchKeepsAgree(t, slots, n);
    RunOne(t, L.Release(c.id, n));
    var slots1 := slots[slot := Some(Client(c.id, Without(c.held, n), c.outbox + [Ok]))];
    assert forall j: nat :: Occupied(slots1, j) ==> Occupied(slots, j) && slots1[j].value.id == slots[j].value.id;
    GiveToEffect(slots1, Promote(l).holder, n, i);
    assert l.queue != [] ==> l.queue[0] in l.queue;
  }

  lemma StatusAnswered(t: Table, slots: Slab, slot: nat, n: Name, t': Table, slots': Slab)
    requires Occupied(slots, slot) && Handled(t, slots, Line(slot, Protocol.Status(n)), t', slots')
    ensures var c, l := slots[slot].value, Get(t, n);
      && t' == t[n := l]
      && slots' == slots[slot := Some(c.(outbox := c.outbox
           + [if l.holder.None? then StatusFree(n, 0) else StatusHeld(n, l.holder.value, |l.queue|)]))]
  {
    RunOne(t, L.Status(n));
  }

  lemma ListCount(reply: seq<Response>, names: seq<Name>, n: Name)
    requires NoDup(names) && |reply| == |names| + 2 && reply[0] == ListBegin && reply[|names| + 1] == ListEnd
    requires forall k :: 0 <= k < |names| ==> reply[1 + k] == ListEntry(names[k])
    ensures ListEntry(n) in reply <==> n in names
    ensures multiset(reply)[ListEntry(n)] <= 1
  {
    var entries := reply[1..|names| + 1];
    assert reply == [ListBegin] + entries + [ListEnd];
    assert forall k :: 0 <= k < |names| ==> entries[k] == ListEntry(names[k]);
    SameCount(names, entries, n, ListEntry(n));
    OnlyOnce(names, n);
    assert n in names <==> multiset(names)[n] > 0;
    assert ListEntry(n) in entries <==> multiset(entries)[ListEntry(n)] > 0;
  }

  /** The list goes out between its markers, one entry a held lock; nobody else is sent anything. */
  lemma ListAnswered(t: Table, slots: Slab, slot: nat, t': Table, slots': Slab) returns (names: seq<Name>)
    requires Occupied(slots, slot) && Handled(t, slots, Line(slot, List), t', slots')
    ensures NoDup(names) && forall n :: n in names <==> n in t && t[n].holder.Some?
    ensures t' == t && Occupied(slots', slot)
    ensures var c, now := slots[slot].value, slots'[slot].value.outbox;
      && slots' == slots[slot := Some(c.(outbox := now))] && now[..|c.outbox|] == c.outbox
      && |now| == |c.outbox| + |names| + 2 && now[|c.outbox|] == ListBegin && now[|now| - 1] == ListEnd
      && (forall k :: 0 <= k < |names| ==> now[|c.outbox| + 1 + k] == ListEntry(names[k]))
  {
    assert SentList(t, slots, slots', slot);
    names :| ListReply(t, slots[slot].value.outbox, slots'[slot].value.outbox, names);
  }

  lemma ListKinds(o: nat, now: seq<Response>, names: seq<Name>)
    requires |now| == o + |names| + 2
    requires forall k :: 0 <= k < |names| ==> now[o + 1 + k] == ListEntry(names[k])
    ensures forall k :: o < k < |now| - 1 ==> now[k].ListEntry?
  {
    forall k | o < k < |now| - 1
      ensures now[k].ListEntry?
    {
      assert now[o + 1 + (k - o - 1)] == ListEntry(names[k - o - 1]);
    }
  }

  /** So a lock is listed exactly if it is held, and then once. */
  lemma ListedIffHeld(t: Table, slots: Slab, slot: nat, t': Table, slots': Slab, n: Name)
    requires Occupied(slots, slot) && Handled(t, slots, Line(slot, List), t', slots')
    ensures Grown(slots, slots', slot)
    ensures ListEntry(n) in News(slots, slots', slot) <==> Get(t, n).holder.Some?
    ensures multiset(News(slots, slots', slot))[ListEntry(n)] <= 1
  {
    var names := ListAnswered(t, slots, slot, t', slots');
    ListCount(News(slots, slots', slot), names, n);
  }

  /** The client's id is in no queue, and what it held goes to the oldest waiter, who is told. */
  lemma HangupAnswered(t: Table, slots: Slab, slot: nat, t': Table, slots': Slab, i: nat, n: Name)
    requires Occupied(slots, slot) && Handled(t, slots, Hangup(slot), t', slots') && i < |slots|
    ensures |slots'| == |slots| && (Occupied(slots', i) <==> Occupied(slots, i) && i != slot)
    ensures var d, l := slots[slot].value.id, Get(t, n);
      && Get(t', n) == (if l.holder != Some(d) then Lock(l.holder, Without(l.queue, d))
                        else if l.queue == [] then Lock(None, []) else Lock(Some(l.queue[0]), l.queue[1..]))
      && (Occupied(slots', i) ==>
            var c, c' := slots[i].value, slots'[i].value;
            && c'.id == c.id && |c'.outbox| - |c.outbox| == |c'.held| - |c.held| >= 0
            && c'.outbox[..|c.outbox|] == c.outbox && c'.held[..|c.held|] == c.held
            && (forall r :: r in c'.outbox[|c.outbox|..] ==> r.Granted?)
            && multiset(c'.outbox[|c.outbox|..])[Granted(n)] == multiset(c'.held[|c.held|..])[n]
            && multiset(c'.held[|c.held|..])[n]
               == if l.holder == Some(d) && l.queue != [] && l.queue[0] == c.id then 1 else 0)
  {
    var d := slots[slot].value;
    RunOne(t, L.Disconnect(d.id));
    AgreeTableInv(t, slots);
    DisconnectHandsOver(t, d.id, n);
    AwardedEffect(slots[slot := None], d.held, t', i);
    HolderIffListed(t, slots, slot, n);
    assert n in d.held <==> multiset(d.held)[n] > 0;
    if Occupied(slots', i) {
      var c, c' := slots[i].value, slots'[i].value;
      SameCount(c'.held[|c.held|..], c'.outbox[|c.outbox|..], n, Granted(n));
    }
  }

  /** A new client holds nothing and was sent nothing, in the place of nobody. */
  lemma ConnectAnswered(t: Table, slots: Slab, t': Table, slots': Slab)
    requires Handled(t, slots, Connect, t', slots')
    ensures t' == t
    ensures exists slot: nat :: !Occupied(slots, slot) && Occupied(slots', slot)
              && slots'[slot].value.held == [] && slots'[slot].value.outbox == []
              && !IsLive(slots, slots'[slot].value.id)
              && (forall i: nat :: i < |slots| && i != slot ==> i < |slots'| && slots'[i] == slots[i])
  {
    var slot: nat, id :| Inserted(slots, slots', slot, id);
    assert !Occupied(slots, slot) && Occupied(slots', slot);
  }

  // ---------------------------------------------------------------------------
  // Whole runs
  // ---------------------------------------------------------------------------

  /** The client at `i` stays, and nothing it was sent is taken back. */
  ghost predicate Grown(slots: Slab, slots': Slab, i: nat)
    requires Occupied(slots, i)
  {
    && At(slots', i, slots[i].value.id)
    && slots[i].value.outbox <= slots'[i].value.outbox
  }

  /** What the client at `i` was sent in between. */
  function News(slots: Slab, slots': Slab, i: nat): seq<Response>
    requires Occupied(slots, i) && Occupied(slots', i) && |slots[i].value.outbox| <= |slots'[i].value.outbox|
  {
    slots'[i].value.outbox[|slots[i].value.outbox|..]
  }

  predicate Becomes(t: Table, t': Table, n: Name, c: ClientId) {
    Get(t, n).holder != Some(c) && Get(t', n).holder == Some(c)
  }

  lemma NewsAre(slots: Slab, slots': Slab, i: nat, more: seq<Response>)
    requires Occupied(slots, i) && At(slots', i, slots[i].value.id)
    requires slots'[i].value.outbox == slots[i].value.outbox + more
    ensures Grown(slots, slots', i) && News(slots, slots', i) == more
  {}

  /** What the client at `i` is sent when the one at `slot` asks for something about one lock. */
  function Answer(t: Table, slots: Slab, slot: nat, r: Request, i: nat): (more: seq<Response>)
    requires Occupied(slots, slot) && Occupied(slots, i) && !r.List?
    ensures |more| <= 1
  {
    var c, l := slots[slot].value, Get(t, r.name);
    if i == slot then
      match r
      case Acquire(n) =>
        if l.holder == Some(c.id) || c.id in l.queue then [ALREADY_HELD]
        else if l.holder.None? then [Granted(n)] else []
      case TryAcquire(n) => if l.holder.None? then [Granted(n)] else [Denied(n)]
      case Release(n) => if l.holder == Some(c.id) then [Ok] else [NOT_HELD]
      case Status(n) => [if l.holder.None? then StatusFree(n, 0) else StatusHeld(n, l.holder.value, |l.queue|)]
    else if r.Release? && l.holder == Some(c.id) && l.queue != [] && l.queue[0] == slots[i].value.id then
      [Granted(r.name)]
    else []
  }

  lemma LineSends(t: Table, slots: Slab, slot: nat, r: Request, t': Table, slots': Slab, i: nat)
    requires Handled(t, slots, Line(slot, r), t', slots') && Occupied(slots, slot) && Occupied(slots, i) && !r.List?
    ensures Grown(slots, slots', i) && News(slots, slots', i) == Answer(t, slots, slot, r, i)
  {
    match r {
      case Acquire(m) => AcquireAnswered(t, slots, slot, m, t', slots');
      case TryAcquire(m) => TryAcquireAnswered(t, slots, slot, m, t', slots');
      case Release(m) => ReleaseAnswered(t, slots, slot, m, t', slots', i);
      case Status(m) => StatusAnswered(t, slots, slot, m, t', slots');
    }
    NewsAre(slots, slots', i, Answer(t, slots, slot, r, i));
  }

  /** A request makes a client the holder of `n` exactly if it has that client told. */
  lemma AnswerGrants(t: Table, slots: Slab, slot: nat, r: Request, i: nat, n: Name)
    requires Agree(t, slots) && Occupied(slots, slot) && Occupied(slots, i) && !r.List?
    ensures Answer(t, slots, slot, r, i) == [Granted(n)]
       <==> Becomes(t, Apply(t, Server.RequestOp(slots[slot].value.id, r)), n, slots[i].value.id)
  {
    TouchKeepsAgree(t, slots, r.name);
    assert i != slot ==> slots[i].value.id != slots[slot].value.id;
  }

  lemma AtMostOne(more: seq<Response>, r: Response)
    requires |more| <= 1
    ensures multiset(more)[r] == if more == [r] then 1 else 0
  {
    if |more| == 1 {
      assert more == [more[0]];
    }
  }

  lemma ListGrantsNothing(t: Table, slots: Slab, slot: nat, t': Table, slots': Slab, i: nat, n: Name)
    requires Handled(t, slots, Line(slot, List), t', slots') && Occupied(slots, slot) && Occupied(slots, i)
    ensures Grown(slots, slots', i) && t' == t && Granted(n) !in News(slots, slots', i)
  {
    var names := ListAnswered(t, slots, slot, t', slots');
    if i == slot {
      ListKinds(|slots[i].value.outbox|, slots'[i].value.outbox, names);
    } else {
      NewsAre(slots, slots', i, []);
    }
  }

  lemma EventGrants(t: Table, slots: Slab, e: Event, t': Table, slots': Slab, i: nat, n: Name)
    requires Handled(t, slots, e, t', slots') && Occupied(slots, i) && e != Hangup(i)
    ensures Grown(slots, slots', i)
    ensures multiset(News(slots, slots', i))[Granted(n)] == if Becomes(t, t', n, slots[i].value.id) then 1 else 0
  {
    if e.Connect? {
      ConnectAnswered(t, slots, t', slots');
      NewsAre(slots, slots', i, []);
    } else if !Occupied(slots, e.slot) {
      NewsAre(slots, slots', i, []);
    } else if e.Hangup? {
      HangupAnswered(t, slots, e.slot, t', slots', i, n);
    } else if e.request.List? {
      ListGrantsNothing(t, slots, e.slot, t', slots', i, n);
    } else {
      LineSends(t, slots, e.slot, e.request, t', slots', i);
      RunOne(t, Server.RequestOp(slots[e.slot].value.id, e.request));
      AnswerGrants(t, slots, e.slot, e.request, i, n);
      AtMostOne(Answer(t, slots, e.slot, e.request, i), Granted(n));
    }
  }

  predicate GainedAt(tables: seq<Table>, k: nat, n: Name, c: ClientId) {
    k + 1 < |tables| && Becomes(tables[k], tables[k + 1], n, c)
  }

  /** When the client becomes the holder of `n` between `i` and `j`. */
  ghost function Gains(tables: seq<Table>, i: nat, j: nat, n: Name, c: ClientId): set<nat>
    requires i <= j < |tables|
  {
    set k: nat | i <= k < j && GainedAt(tables, k, n, c)
  }

  lemma NewsAddUp(slots0: Slab, slots1: Slab, slots2: Slab, i: nat)
    requires Occupied(slots0, i) && Grown(slots0, slots1, i) && Grown(slots1, slots2, i)
    ensures Grown(slots0, slots2, i)
    ensures News(slots0, slots2, i) == News(slots0, slots1, i) + News(slots1, slots2, i)
  {}

  lemma GainsNext(tables: seq<Table>, i: nat, j: nat, n: Name, c: ClientId)
    requires i <= j && j + 1 < |tables|
    ensures |Gains(tables, i, j + 1, n, c)|
         == |Gains(tables, i, j, n, c)| + if Becomes(tables[j], tables[j + 1], n, c) then 1 else 0
  {
    assert Gains(tables, i, j + 1, n, c)
        == Gains(tables, i, j, n, c) + if GainedAt(tables, j, n, c) then {j} else {};
  }

  /** From state `i` to state `j` the client at `slot` was told of `n` as often as it gained it. */
  ghost predicate Told(tables: seq<Table>, slabs: seq<Slab>, i: nat, j: nat, slot: nat, n: Name)
    requires i <= j < |tables| == |slabs| && Occupied(slabs[i], slot)
  {
    && Grown(slabs[i], slabs[j], slot)
    && multiset(News(slabs[i], slabs[j], slot))[Granted(n)] == |Gains(tables, i, j, n, slabs[i][slot].value.id)|
  }

  lemma ToldNothing(tables: seq<Table>, slabs: seq<Slab>, i: nat, slot: nat, n: Name)
    requires i < |tables| == |slabs| && Occupied(slabs[i], slot)
    ensures Told(tables, slabs, i, i, slot, n)
  {
    assert News(slabs[i], slabs[i], slot) == [];
    assert Gains(tables, i, i, n, slabs[i][slot].value.id) == {};
  }

  lemma ToldNext(events: seq<Event>, tables: seq<Table>, slabs: seq<Slab>, i: nat, j: nat, slot: nat, n: Name)
    requires IsTrace(events, tables, slabs) && i <= j < |events| && events[j] != Hangup(slot)
    requires Occupied(slabs[i], slot) && Told(tables, slabs, i, j, slot, n)
    ensures Told(tables, slabs, i, j + 1, slot, n)
  {
    assert HandledAt(events, tables, slabs, j);
    EventGrants(tables[j], slabs[j], events[j], tables[j + 1], slabs[j + 1], slot, n);
    NewsAddUp(slabs[i], slabs[j], slabs[j + 1], slot);
    GainsNext(tables, i, j, n, slabs[i][slot].value.id);
  }

  lemma TraceTold(events: seq<Event>, tables: seq<Table>, slabs: seq<Slab>, i: nat, j: nat, slot: nat, n: Name)
    requires IsTrace(events, tables, slabs) && i <= j <= |events|
    requires Occupied(slabs[i], slot) && Hangup(slot) !in events[i..j]
    ensures Told(tables, slabs, i, j, slot, n)
  {
    ToldNothing(tables, slabs, i, slot, n);
    for k := i to j
      invariant Told(tables, slabs, i, k, slot, n)
    {
      assert events[i..j][k - i] == events[k];
      ToldNext(events, tables, slabs, i, k, slot, n);
    }
  }

  /**
   Over any stretch of a run, a client that does not hang up is sent that it was granted `n` exactly as
   often as it becomes its holder, and nothing it was sent before is lost.
   */
  lemma GrantsCounted(events: seq<Event>, tables: seq<Table>, slabs: seq<Slab>, i: nat, j: nat, slot: nat, n: Name)
    requires IsTrace(events, tables, slabs) && i <= j <= |events|
    requires Occupied(slabs[i], slot) && Hangup(slot) !in events[i..j]
    ensures At(slabs[j], slot, slabs[i][slot].value.id)
    ensures var c, before, after := slabs[i][slot].value.id, slabs[i][slot].value.outbox, slabs[j][slot].value.outbox;
      && before <= after
      && multiset(after[|before|..])[Granted(n)] == |Gains(tables, i, j, n, c)|
  {
    TraceTold(events, tables, slabs, i, j, slot, n);
  }

  // ---------------------------------------------------------------------------
  // Every request is answered once
  // ---------------------------------------------------------------------------

  /** The locks a client waits for. */
  ghost function WaitsFor(t: Table, c: ClientId): set<Name> {
    set n | n in t && c in t[n].queue
  }

  /** The responses that end an answer: all but the first parts of a list. */
  function Answers(rs: seq<Response>): nat {
    if rs == [] then 0
    else
      var k := |rs| - 1;
      Answers(rs[..k]) + if rs[k].ListBegin? || rs[k].ListEntry? then 0 else 1
  }

  lemma {:induction false} AnswersAddUp(rs: seq<Response>, more: seq<Response>)
    ensures Answers(rs + more) == Answers(rs) + Answers(more)
  {
    if more == [] {
      assert rs + more == rs;
    } else {
      var k := |more| - 1;
      assert (rs + more)[..|rs| + k] == rs + more[..k];
      AnswersAddUp(rs, more[..k]);
    }
  }

  lemma {:induction false} OnlyEnds(rs: seq<Response>)
    requires forall k :: 0 <= k < |rs| ==> !rs[k].ListBegin? && !rs[k].ListEntry?
    ensures Answers(rs) == |rs|
  {
    if rs != [] {
      OnlyEnds(rs[..|rs| - 1]);
    }
  }

  lemma {:induction false} NoEnds(rs: seq<Response>)
    requires forall k :: 0 <= k < |rs| ==> rs[k].ListBegin? || rs[k].ListEntry?
    ensures Answers(rs) == 0
  {
    if rs != [] {
      NoEnds(rs[..|rs| - 1]);
    }
  }

  lemma SizeWithout<T>(s: set<T>, x: T)
    ensures |s| == |s - {x}| + if x in s then 1 else 0
  {
    assert s == s - {x} + if x in s then {x} else {};
  }

  lemma SameOthers<T>(was: set<T>, now: set<T>, x: T)
    requires forall y :: y != x ==> (y in was <==> y in now)
    ensures |now| + (if x in was then 1 else 0) == |was| + (if x in now then 1 else 0)
  {
    SizeWithout(was, x);
    SizeWithout(now, x);
    assert was - {x} == now - {x};
  }

  lemma WaitsNext(t: Table, t': Table, n: Name, c: ClientId)
    requires forall m :: m != n ==> Get(t', m) == Get(t, m)
    ensures |WaitsFor(t', c)| + (if c in Get(t, n).queue then 1 else 0)
         == |WaitsFor(t, c)| + (if c in Get(t', n).queue then 1 else 0)
  {
    forall m
      ensures m in WaitsFor(t, c) <==> c in Get(t, m).queue
      ensures m in WaitsFor(t', c) <==> c in Get(t', m).queue
    {}
    SameOthers(WaitsFor(t, c), WaitsFor(t', c), n);
  }

  /** A request about one lock: an answer now, or one more lock to wait for. */
  lemma AnswerBalance(t: Table, slots: Slab, slot: nat, r: Request, i: nat)
    requires Agree(t, slots) && Occupied(slots, slot) && Occupied(slots, i) && !r.List?
    ensures var c, t' := slots[i].value.id, Apply(t, Server.RequestOp(slots[slot].value.id, r));
      |Answer(t, slots, slot, r, i)| + |WaitsFor(t', c)| == |WaitsFor(t, c)| + if i == slot then 1 else 0
  {
    var c, n := slots[i].value.id, r.name;
    var t' := Apply(t, Server.RequestOp(slots[slot].value.id, r));
    TouchKeepsAgree(t, slots, n);
    assert i != slot ==> c != slots[slot].value.id;
    WaitsNext(t, t', n, c);
  }

  lemma {:induction false} NoDupSize<T>(q: seq<T>)
    requires forall x :: multiset(q)[x] <= 1
    ensures |q| == |set x | x in q|
  {
    if q != [] {
      var s, s' := set x | x in q, set x | x in q[1..];
      assert q == [q[0]] + q[1..];
      forall x
        ensures multiset(q[1..])[x] <= 1
      {
        assert multiset(q)[x] <= 1;
      }
      NoDupSize(q[1..]);
      assert q[0] !in q[1..] by {
        assert multiset(q)[q[0]] <= 1;
      }
      assert s == {q[0]} + s';
    }
  }

  lemma Moved<T>(before: set<T>, after: set<T>, moved: seq<T>)
    requires after <= before
    requires forall x :: multiset(moved)[x] <= 1 && (x in moved <==> x in before && x !in after)
    ensures |moved| + |after| == |before|
  {
    NoDupSize(moved);
    assert before == after + set x | x in moved;
  }

  /** Whoever hangs up, a client waits for as many locks less as it is told it was granted. */
  lemma HangupBalance(t: Table, slots: Slab, slot: nat, t': Table, slots': Slab, i: nat)
    requires Handled(t, slots, Hangup(slot), t', slots') && Occupied(slots, slot) && Occupied(slots, i) && i != slot
    ensures Grown(slots, slots', i)
    ensures Answers(News(slots, slots', i)) + |WaitsFor(t', slots[i].value.id)| == |WaitsFor(t, slots[i].value.id)|
  {
    HangupAnswered(t, slots, slot, t', slots', i, "");
    OnlyEnds(News(slots, slots', i));
    var c, gained := slots[i].value.id, slots'[i].value.held[|slots[i].value.held|..];
    forall n
      ensures multiset(gained)[n] <= 1
      ensures n in gained <==> n in WaitsFor(t, c) && n !in WaitsFor(t', c)
      ensures n in WaitsFor(t', c) ==> n in WaitsFor(t, c)
    {
      HangupMoves(t, slots, slot, t', slots', i, n);
    }
    Moved(WaitsFor(t, c), WaitsFor(t', c), gained);
  }

  lemma HangupMoves(t: Table, slots: Slab, slot: nat, t': Table, slots': Slab, i: nat, n: Name)
    requires Handled(t, slots, Hangup(slot), t', slots') && Occupied(slots, slot) && Occupied(slots, i) && i != slot
    requires Occupied(slots', i) && |slots[i].value.held| <= |slots'[i].value.held|
    ensures var c, gained := slots[i].value.id, slots'[i].value.held[|slots[i].value.held|..];
      && multiset(gained)[n] <= 1
      && (n in gained <==> n in WaitsFor(t, c) && n !in WaitsFor(t', c))
      && (n in WaitsFor(t', c) ==> n in WaitsFor(t, c))
  {
    HangupAnswered(t, slots, slot, t', slots', i, n);
    HangupWaits(t, slots, slot, n, slots[i].value.id);
    RunOne(t, L.Disconnect(slots[slot].value.id));
    var gained := slots'[i].value.held[|slots[i].value.held|..];
    assert n in gained <==> multiset(gained)[n] > 0;
  }

  lemma HangupWaits(t: Table, slots: Slab, slot: nat, n: Name, c: ClientId)
    requires Agree(t, slots) && Occupied(slots, slot) && c != slots[slot].value.id
    ensures var d, l := slots[slot].value.id, Get(t, n);
      c in Get(Apply(t, L.Disconnect(d)), n).queue <==> c in l.queue && !(l.holder == Some(d) && l.queue[0] == c)
  {
    var d, l := slots[slot].value.id, Get(t, n);
    AgreeTableInv(t, slots);
    DisconnectHandsOver(t, d, n);
    WithoutMembers(l.queue, d);
    TouchKeepsAgree(t, slots, n);
  }

  lemma ListEnds(o: nat, now: seq<Response>)
    requires |now| >= o + 2 && now[o].ListBegin? && now[|now| - 1].ListEnd?
    requires forall k :: o < k < |now| - 1 ==> now[k].ListEntry?
    ensures Answers(now[o..]) == 1
  {
    var parts := now[o..|now| - 1];
    assert now[o..][..|now| - 1 - o] == parts;
    NoEnds(parts);
  }

  lemma ListBalance(t: Table, slots: Slab, slot: nat, t': Table, slots': Slab, i: nat)
    requires Handled(t, slots, Line(slot, List), t', slots') && Occupied(slots, slot) && Occupied(slots, i)
    ensures Grown(slots, slots', i) && t' == t
    ensures Answers(News(slots, slots', i)) == if i == slot then 1 else 0
  {
    var names := ListAnswered(t, slots, slot, t', slots');
    if i == slot {
      ListKinds(|slots[i].value.outbox|, slots'[i].value.outbox, names);
      ListEnds(|slots[i].value.outbox|, slots'[i].value.outbox);
    } else {
      NewsAre(slots, slots', i, []);
    }
  }

  lemma EventBalance(t: Table, slots: Slab, e: Event, t': Table, slots': Slab, i: nat)
    requires Handled(t, slots, e, t', slots') && Occupied(slots, i) && e != Hangup(i)
    ensures Grown(slots, slots', i)
    ensures var c := slots[i].value.id;
      Answers(News(slots, slots', i)) + |WaitsFor(t', c)|
        == |WaitsFor(t, c)| + if e.Line? && e.slot == i then 1 else 0
  {
    if e.Connect? {
      ConnectAnswered(t, slots, t', slots');
      NewsAre(slots, slots', i, []);
    } else if !Occupied(slots, e.slot) {
      NewsAre(slots, slots', i, []);
    } else if e.Hangup? {
      HangupBalance(t, slots, e.slot, t', slots', i);
    } else if e.request.List? {
      ListBalance(t, slots, e.slot, t', slots', i);
    } else {
      LineSends(t, slots, e.slot, e.request, t', slots', i);
      RunOne(t, Server.RequestOp(slots[e.slot].value.id, e.request));
      AnswerBalance(t, slots, e.slot, e.request, i);
      AnswerEnds(t, slots, e.slot, e.request, i);
    }
  }

  lemma AnswerEnds(t: Table, slots: Slab, slot: nat, r: Request, i: nat)
    requires Occupied(slots, slot) && Occupied(slots, i) && !r.List?
    ensures Answers(Answer(t, slots, slot, r, i)) == |Answer(t, slots, slot, r, i)|
  {
    OnlyEnds(Answer(t, slots, slot, r, i));
  }

  predicate AsksAt(events: seq<Event>, k: nat, slot: nat) {
    k < |events| && events[k].Line? && events[k].slot == slot
  }

  /** When the client at `slot` sends a request. */
  ghost function Requests(events: seq<Event>, i: nat, j: nat, slot: nat): set<nat> {
    set k: nat | i <= k < j && AsksAt(events, k, slot)
  }

  /** The answers sent and the locks still waited for are the requests made and the locks waited for before. */
  ghost predicate Balanced(events: seq<Event>, tables: seq<Table>, slabs: seq<Slab>, i: nat, j: nat, slot: nat)
    requires i <= j < |tables| == |slabs| && Occupied(slabs[i], slot)
  {
    && Grown(slabs[i], slabs[j], slot)
    && var c := slabs[i][slot].value.id;
       Answers(News(slabs[i], slabs[j], slot)) + |WaitsFor(tables[j], c)|
         == |Requests(events, i, j, slot)| + |WaitsFor(tables[i], c)|
  }

  lemma BalancedAtFirst(events: seq<Event>, tables: seq<Table>, slabs: seq<Slab>, i: nat, slot: nat)
    requires i < |tables| == |slabs| && Occupied(slabs[i], slot)
    ensures Balanced(events, tables, slabs, i, i, slot)
  {
    assert News(slabs[i], slabs[i], slot) == [];
    assert Requests(events, i, i, slot) == {};
  }

  lemma RequestsNext(events: seq<Event>, i: nat, j: nat, slot: nat)
    requires i <= j < |events|
    ensures |Requests(events, i, j + 1, slot)|
         == |Requests(events, i, j, slot)| + if events[j].Line? && events[j].slot == slot then 1 else 0
  {
    assert Requests(events, i, j + 1, slot)
        == Requests(events, i, j, slot) + if AsksAt(events, j, slot) then {j} else {};
  }

  lemma BalancedNext(events: seq<Event>, tables: seq<Table>, slabs: seq<Slab>, i: nat, j: nat, slot: nat)
    requires IsTrace(events, tables, slabs) && i <= j < |events| && events[j] != Hangup(slot)
    requires Occupied(slabs[i], slot) && Balanced(events, tables, slabs, i, j, slot)
    ensures Balanced(events, tables, slabs, i, j + 1, slot)
  {
    assert HandledAt(events, tables, slabs, j);
    EventBalance(tables[j], slabs[j], events[j], tables[j + 1], slabs[j + 1], slot);
    NewsAddUp(slabs[i], slabs[j], slabs[j + 1], slot);
    AnswersAddUp(News(slabs[i], slabs[j], slot), News(slabs[j], slabs[j + 1], slot));
    RequestsNext(events, i, j, slot);
  }

  lemma TraceBalanced(events: seq<Event>, tables: seq<Table>, slabs: seq<Slab>, i: nat, j: nat, slot: nat)
    requires IsTrace(events, tables, slabs) && i <= j <= |events|
    requires Occupied(slabs[i], slot) && Hangup(slot) !in events[i..j]
    ensures Balanced(events, tables, slabs, i, j, slot)
  {
    BalancedAtFirst(events, tables, slabs, i, slot);
    for k := i to j
      invariant Balanced(events, tables, slabs, i, k, slot)
    {
      assert events[i..j][k - i] == events[k];
      BalancedNext(events, tables, slabs, i, k, slot);
    }
  }

  /**
   Over any stretch of a run, the answers a client is sent and the locks it waits for at the end are as
   many as its requests and the locks it waited for at the start: every request is answered once, at
   once or by the grant it waits for, and nothing else is.
   */
  lemma EveryRequestAnswered(events: seq<Event>, tables: seq<Table>, slabs: seq<Slab>, i: nat, j: nat, slot: nat)
    requires IsTrace(events, tables, slabs) && i <= j <= |events|
    requires Occupied(slabs[i], slot) && Hangup(slot) !in events[i..j]
    ensures At(slabs[j], slot, slabs[i][slot].value.id)
    ensures var c, before, after := slabs[i][slot].value.id, slabs[i][slot].value.outbox, slabs[j][slot].value.outbox;
      && before <= after
      && Answers(after[|before|..]) + |WaitsFor(tables[j], c)|
         == |Requests(events, i, j, slot)| + |WaitsFor(tables[i], c)|
  {
    TraceBalanced(events, tables, slabs, i, j, slot);
  }
}
