/**
 The thread-per-client lock server as a protocol.

 The lock table is only touched while the store mutex is held, so a critical section that takes
 no other lock is one step; a promotion is not, because it also takes the wake mutex of the
 thread it serves. A thread's own `held` set is updated outside the store mutex, in a step of
 its own. Each access to a wake state (under its wake mutex) is one step, and falling asleep is
 part of the step that finds `Waiting`, as `Condvar::wait` releases the wake mutex atomically.
 */
module ThreadProtocol {
  import opened Wrappers
  import opened LockTable
  import Protocol

  type WakeId = nat

  datatype Wake = Waiting | Granted | Evicted

  datatype Waiter = Waiter(client: ClientId, wake: WakeId)

  datatype Entry = Entry(holder: Option<ClientId>, waiters: seq<Waiter>)

  /** Where a promotion came from: a RELEASE, or a cleanup with these names still to free. */
  datatype After = Reply | Cleanup(todo: set<Name>)

  datatype Pc =
    | Ready                                           // top of the request loop
    | Parking(name: Name, wake: WakeId)               // queued; next: look at the wake state
    | Asleep(name: Name, wake: WakeId, notified: bool) // inside `Condvar::wait`
    | Woken(name: Name, state: Wake)                  // next: act on the wake state
    | Inserting(name: Name)                           // TRY_ACQUIRE granted; next: insert into `held`
    | Promoting(name: Name, after: After)             // store locked, holder checked; next: pop a waiter
    | Notifying(name: Name, wake: WakeId, after: After) // popped, holder set; next: set the wake state
    | Removing(name: Name)                            // store unlocked; next: remove from `held`
    | Evicting(todo: set<Name>)                       // cleanup step 1, store locked
    | EvictNotifying(wake: WakeId, todo: set<Name>)   // cut out of a queue; next: set the wake state
    | Freeing(todo: set<Name>)                        // cleanup step 2, store locked
    | Done

  datatype Thread = Thread(pc: Pc, held: set<Name>)

  datatype Server = Server(
    locks: map<Name, Entry>,
    nextId: ClientId,
    mutex: Option<ClientId>,      // who holds the store mutex between steps
    wakes: map<WakeId, Wake>,
    nextWake: WakeId,
    threads: map<ClientId, Thread>)

  datatype Action =
    | Accept
    | Receive(client: ClientId, request: Protocol.Request)
    | Hangup(client: ClientId)
    | Advance(client: ClientId, pick: Name)  // `pick` is the next name of a cleanup loop

  const INIT := Server(map[], 1, None, map[], 0, map[])

  function GetEntry(s: Server, n: Name): Entry {
    if n in s.locks then s.locks[n] else Entry(None, [])
  }

  function WithPc(s: Server, c: ClientId, pc: Pc): Server
    requires c in s.threads
  {
    s.(threads := s.threads[c := s.threads[c].(pc := pc)])
  }

  predicate Queued(waiters: seq<Waiter>, c: ClientId) {
    exists i :: 0 <= i < |waiters| && waiters[i].client == c
  }

  predicate Enabled(s: Server, a: Action) {
    match a
    case Accept => s.mutex.None?
    case Receive(c, _) => c in s.threads && s.threads[c].pc.Ready? && s.mutex.None?
    case Hangup(c) => c in s.threads && s.threads[c].pc.Ready? && s.mutex.None?
    case Advance(c, pick) =>
      && c in s.threads && !s.threads[c].pc.Ready? && !s.threads[c].pc.Done?
      && (s.threads[c].pc.Evicting? && s.threads[c].pc.todo != {} ==> pick in s.threads[c].pc.todo)
      && (s.threads[c].pc.Freeing? && s.threads[c].pc.todo != {} ==> pick in s.threads[c].pc.todo)
  }

  /** ACQUIRE, phase 1. A wake id never used before stands for the freshly created pair. */
  function Acquire(s: Server, c: ClientId, n: Name): Server
    requires c in s.threads
  {
    var e := GetEntry(s, n);
    if e.holder == Some(c) || Queued(e.waiters, c) then s.(locks := s.locks[n := e])
    else if e.holder.None? then
      s.(locks := s.locks[n := e.(holder := Some(c))],
         threads := s.threads[c := s.threads[c].(held := s.threads[c].held + {n})])
    else
      var w := s.nextWake;
      WithPc(s.(locks := s.locks[n := e.(waiters := e.waiters + [Waiter(c, w)])],
                wakes := s.wakes[w := Waiting], nextWake := w + 1),
             c, Parking(n, w))
  }

  function TryAcquire(s: Server, c: ClientId, n: Name): Server
    requires c in s.threads
  {
    var e := GetEntry(s, n);
    if e.holder.None? then WithPc(s.(locks := s.locks[n := e.(holder := Some(c))]), c, Inserting(n))
    else s.(locks := s.locks[n := e])
  }

  function Release(s: Server, c: ClientId, n: Name): Server
    requires c in s.threads
  {
    var e := GetEntry(s, n);
    if e.holder == Some(c) then
      WithPc(s.(locks := s.locks[n := e], mutex := Some(c)), c, Promoting(n, Reply))
    else s.(locks := s.locks[n := e])
  }

  /** Look at the wake state: sleep (again) while it is `Waiting`. */
  function Check(s: Server, c: ClientId, n: Name, w: WakeId): Server
    requires c in s.threads && w in s.wakes
  {
    WithPc(s, c, if s.wakes[w].Waiting? then Asleep(n, w, false) else Woken(n, s.wakes[w]))
  }

  /** Leave a promotion: a RELEASE unlocks the store, a cleanup goes on. */
  function Leave(s: Server, c: ClientId, n: Name, after: After): Server
    requires c in s.threads
  {
    match after
    case Reply => WithPc(s.(mutex := None), c, Removing(n))
    case Cleanup(todo) => WithPc(s, c, Freeing(todo))
  }

  /** Pop the oldest waiter and make it the holder, or free the lock. */
  function Pop(s: Server, c: ClientId, n: Name, after: After): Server
    requires c in s.threads && n in s.locks
  {
    var e := s.locks[n];
    if e.waiters == [] then Leave(s.(locks := s.locks[n := e.(holder := None)]), c, n, after)
    else
      WithPc(s.(locks := s.locks[n := Entry(Some(e.waiters[0].client), e.waiters[1..])]),
             c, Notifying(n, e.waiters[0].wake, after))
  }

  /** Set a wake state and notify the thread sleeping on it. */
  function Notify(s: Server, w: WakeId, state: Wake): Server {
    s.(wakes := s.wakes[w := state],
       threads := map d | d in s.threads ::
         if s.threads[d].pc.Asleep? && s.threads[d].pc.wake == w
         then s.threads[d].(pc := s.threads[d].pc.(notified := true))
         else s.threads[d])
  }

  function Position(waiters: seq<Waiter>, c: ClientId): nat
    requires Queued(waiters, c)
    ensures Position(waiters, c) < |waiters| && waiters[Position(waiters, c)].client == c
  {
    if waiters[0].client == c then 0
    else
      assert Queued(waiters[1..], c) by {
        var i :| 0 <= i < |waiters| && waiters[i].client == c;
        assert waiters[1..][i - 1].client == c;
      }
      1 + Position(waiters[1..], c)
  }

  /** Cut the client out of one queue. */
  function Evict(s: Server, c: ClientId, n: Name, todo: set<Name>): Server
    requires c in s.threads && n in s.locks
  {
    var e := s.locks[n];
    if Queued(e.waiters, c) then
      var i := Position(e.waiters, c);
      WithPc(s.(locks := s.locks[n := e.(waiters := e.waiters[..i] + e.waiters[i + 1..])]),
             c, EvictNotifying(e.waiters[i].wake, todo))
    else WithPc(s, c, Evicting(todo))
  }

  function Step(s: Server, a: Action): Server
    requires Enabled(s, a)
    requires a.Advance? ==> CanAdvance(s, a.client, a.pick)
  {
    match a
    case Accept => s.(nextId := s.nextId + 1, threads := s.threads[s.nextId := Thread(Ready, {})])
    case Receive(c, Acquire(n)) => Acquire(s, c, n)
    case Receive(c, TryAcquire(n)) => TryAcquire(s, c, n)
    case Receive(c, Release(n)) => Release(s, c, n)
    case Receive(c, Status(n)) => s.(locks := s.locks[n := GetEntry(s, n)])
    case Receive(c, List) => s
    case Hangup(c) => WithPc(s.(mutex := Some(c)), c, Evicting(s.locks.Keys))
    case Advance(c, pick) => AdvanceThread(s, c, pick)
  }

  /** The wake states and locks a thread's next step looks at exist. */
  predicate CanAdvance(s: Server, c: ClientId, pick: Name)
    requires c in s.threads
  {
    match s.threads[c].pc
    case Parking(_, w) => w in s.wakes
    case Asleep(_, w, _) => w in s.wakes
    case Promoting(n, _) => n in s.locks
    case Evicting(todo) => pick in todo ==> pick in s.locks
    case _ => true
  }

  function AdvanceThread(s: Server, c: ClientId, pick: Name): Server
    requires c in s.threads && CanAdvance(s, c, pick)
  {
    var t := s.threads[c];
    match t.pc
    case Parking(n, w) => Check(s, c, n, w)
    case Asleep(n, w, _) => Check(s, c, n, w)
    case Woken(n, state) =>
      s.(threads := s.threads[c := Thread(Ready, if state.Granted? then t.held + {n} else t.held)])
    case Inserting(n) => s.(threads := s.threads[c := Thread(Ready, t.held + {n})])
    case Promoting(n, after) => Pop(s, c, n, after)
    case Notifying(n, w, after) =>
      var s' := Notify(s, w, Granted);
      Leave(s', c, n, after)
    case Removing(n) => s.(threads := s.threads[c := Thread(Ready, t.held - {n})])
    case Evicting(todo) =>
      if pick in todo then Evict(s, c, pick, todo - {pick}) else WithPc(s, c, Freeing(t.held))
    case EvictNotifying(w, todo) => WithPc(Notify(s, w, Evicted), c, Evicting(todo))
    case Freeing(todo) =>
      if pick in todo then
        if pick in s.locks && s.locks[pick].holder == Some(c)
        then WithPc(s, c, Promoting(pick, Cleanup(todo - {pick})))
        else WithPc(s, c, Freeing(todo - {pick}))
      else WithPc(s.(mutex := None), c, Done)
    case Ready => s
    case Done => s
  }

  ghost predicate IsRun(states: seq<Server>, actions: seq<Action>) {
    && |states| == |actions| + 1
    && forall i :: 0 <= i < |actions| ==>
         && Enabled(states[i], actions[i])
         && (actions[i].Advance? ==> CanAdvance(states[i], actions[i].client, actions[i].pick))
         && states[i + 1] == Step(states[i], actions[i])
  }

  // ---------------------------------------------------------------------------
  // The invariant
  // ---------------------------------------------------------------------------

  /** The thread is waiting for `n` with this wake state. */
  predicate WaitsOn(t: Thread, n: Name, w: WakeId) {
    (t.pc.Parking? || t.pc.Asleep?) && t.pc.name == n && t.pc.wake == w
  }

  predicate WaitsFor(t: Thread, n: Name) {
    (t.pc.Parking? || t.pc.Asleep?) && t.pc.name == n
  }

  /**
   The locks a thread answers for: its `held` set, corrected in the windows where a grant is not
   in it yet or a released lock not out of it yet.
   */
  function Owned(t: Thread): set<Name> {
    match t.pc
    case Woken(n, _) => t.held + {n}
    case Inserting(n) => t.held + {n}
    case Promoting(n, Cleanup(todo)) => todo + {n}
    case Notifying(n, _, Reply) => t.held - {n}
    case Notifying(n, _, Cleanup(todo)) => todo
    case Removing(n) => t.held - {n}
    case Freeing(todo) => todo
    case Done => {}
    case _ => t.held
  }

  /** The thread holds the store mutex between steps. */
  predicate Locks(t: Thread) {
    t.pc.Promoting? || t.pc.Notifying? || t.pc.Evicting? || t.pc.EvictNotifying? || t.pc.Freeing?
  }

  /** The holder of the store mutex is about to set this wake state to `Granted`. */
  predicate BeingNotified(s: Server, w: WakeId) {
    && s.mutex.Some? && s.mutex.value in s.threads
    && s.threads[s.mutex.value].pc.Notifying? && s.threads[s.mutex.value].pc.wake == w
  }

  ghost predicate EntryOk(s: Server, n: Name, e: Entry) {
    && (forall i, j :: 0 <= i < j < |e.waiters| ==> e.waiters[i].client != e.waiters[j].client)
    && (e.holder.Some? ==> !Queued(e.waiters, e.holder.value))
    && (e.waiters != [] ==> e.holder.Some?)
    && (e.holder.Some? ==> e.holder.value in s.threads)
    && (e.holder.Some? ==> n in Owned(s.threads[e.holder.value]) || WaitsFor(s.threads[e.holder.value], n))
    && (forall i :: 0 <= i < |e.waiters| ==> WaiterOk(s, n, e.waiters[i]))
  }

  ghost predicate WaiterOk(s: Server, n: Name, x: Waiter) {
    && x.client in s.threads && WaitsOn(s.threads[x.client], n, x.wake)
    && x.wake in s.wakes && s.wakes[x.wake].Waiting?
  }

  ghost predicate WaitingOk(s: Server, c: ClientId, t: Thread)
    requires t.pc.Parking? || t.pc.Asleep?
  {
    var n, w := t.pc.name, t.pc.wake;
    && n in s.locks && w in s.wakes && w < s.nextWake
    && (if s.locks[n].holder == Some(c) then
          || (s.wakes[w].Granted? && (t.pc.Asleep? ==> t.pc.notified))
          || (s.wakes[w].Waiting? && BeingNotified(s, w))
        else Waiter(c, w) in s.locks[n].waiters)
  }

  ghost predicate ThreadOk(s: Server, c: ClientId, t: Thread) {
    && c < s.nextId
    && (forall n :: n in Owned(t) ==> n in s.locks && s.locks[n].holder == Some(c))
    && (Locks(t) <==> s.mutex == Some(c))
    && match t.pc
       case Parking(_, _) => WaitingOk(s, c, t)
       case Asleep(_, _, _) => WaitingOk(s, c, t)
       case Woken(n, state) => state.Granted?
       case Promoting(n, after) => if after.Reply? then n in t.held else n !in after.todo
       case Notifying(n, w, after) =>
         && (after.Cleanup? ==> n !in after.todo)
         && n in s.locks && s.locks[n].holder.Some? && s.locks[n].holder.value in s.threads
         && WaitsOn(s.threads[s.locks[n].holder.value], n, w) && w in s.wakes && s.wakes[w].Waiting?
       case Evicting(todo) => todo <= s.locks.Keys
       case EvictNotifying(_, _) => false
       case _ => true
  }

  ghost predicate Inv(s: Server) {
    && (forall n :: n in s.locks ==> EntryOk(s, n, s.locks[n]))
    && (forall c :: c in s.threads ==> ThreadOk(s, c, s.threads[c]))
    && (forall w :: w in s.wakes ==> w < s.nextWake)
    && (s.mutex.Some? ==> s.mutex.value in s.threads)
    && (forall c, d :: c in s.threads && d in s.threads && c != d ==> DistinctWakes(s.threads[c], s.threads[d]))
  }

  ghost predicate DistinctWakes(t: Thread, u: Thread) {
    (t.pc.Parking? || t.pc.Asleep?) && (u.pc.Parking? || u.pc.Asleep?) ==> t.pc.wake != u.pc.wake
  }

  function Abs(s: Server): Table {
    map n | n in s.locks :: Lock(s.locks[n].holder, Clients(s.locks[n].waiters))
  }

  function Clients(waiters: seq<Waiter>): (q: seq<ClientId>)
    ensures |q| == |waiters| && forall i :: 0 <= i < |q| ==> q[i] == waiters[i].client
  {
    seq(|waiters|, i requires 0 <= i < |waiters| => waiters[i].client)
  }
}
