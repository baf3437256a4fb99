/**
 The single-producer single-consumer channel as a protocol of atomic steps.

 Every load, store, slot write and slot read of `send` and `recv` is one step, so the two
 sides interleave freely and each works with whatever stale copy of the other side's counter
 it loaded last. Counters are naturals, memory is sequentially consistent, and each side has
 at most one call in flight.
 */
module SpscChannel {
  import opened Arithmetic

  /** `Moved` is a slot whose value was taken out by `recv` or destroyed. */
  datatype Slot<+T> = Empty | Full(value: T) | Moved

  /** Where the producer stands inside `send`, with its local variables. */
  datatype ProducerPc<+T> =
    | PIdle
    | PStart(value: T)                     // next: load `head`
    | PSpin(value: T, head: nat)           // next: load `consumer_alive`
    | PProbe(value: T, head: nat)          // next: load `tail` and compare
    | PRoom(value: T, head: nat, seen: nat) // room seen with a possibly stale `tail`; next: write the slot
    | PWritten(value: T, head: nat)        // slot written; next: store `head + 1`
    | PGone

  /** Where the consumer stands inside `recv`, with its local variables. */
  datatype ConsumerPc<+T> =
    | CIdle
    | CStart                               // next: load `tail`
    | CSpin(tail: nat)                     // next: load `head` and compare
    | CEmpty(tail: nat)                    // looked empty; next: load `producer_alive`
    | CLast(tail: nat)                     // producer gone; next: load `head` once more
    | CReady(tail: nat, seen: nat)         // value seen with a possibly stale `head`; next: read the slot
    | CTook(tail: nat, value: T)           // value moved out; next: store `tail + 1`
    | CGone

  /** Shared memory, both threads, and the history of the calls so far. */
  datatype Channel<T> = Channel(
    slots: seq<Slot<T>>,
    head: nat,
    tail: nat,
    producerAlive: bool,
    consumerAlive: bool,
    producer: ProducerPc<T>,
    consumer: ConsumerPc<T>,
    given: seq<T>,       // arguments of `send`, in call order
    outcomes: seq<bool>, // of the finished calls: true for `Ok`, false for `SendError`
    sent: seq<T>,        // the values published, in order
    returned: seq<T>,    // the values handed back inside `SendError`, in order
    received: seq<T>,    // results of `recv`
    ended: nat,          // how often `recv` returned `RecvError`
    fault: bool)         // a slot was overwritten, read while not full, or a counter underflowed

  datatype Action<+T> =
    | SendCall(value: T)
    | DropProducer
    | ProducerStep
    | RecvCall
    | DropConsumer
    | ConsumerStep

  function Init<T>(cap: nat): Channel<T>
    requires cap > 0
  {
    Channel(seq(cap, _ => Empty), 0, 0, true, true, PIdle, CIdle, [], [], [], [], [], 0, false)
  }

  predicate Enabled<T>(s: Channel<T>, a: Action<T>) {
    match a
    case SendCall(_) => s.producer.PIdle?
    case DropProducer => s.producer.PIdle?
    case ProducerStep => !s.producer.PIdle? && !s.producer.PGone?
    case RecvCall => s.consumer.CIdle?
    case DropConsumer => s.consumer.CIdle?
    case ConsumerStep => !s.consumer.CIdle? && !s.consumer.CGone?
  }

  /** One atomic step of `send`. */
  function ProducerNext<T>(s: Channel<T>): Channel<T>
    requires |s.slots| > 0
  {
    var cap := |s.slots|;
    match s.producer
    case PIdle => s
    case PStart(v) => s.(producer := PSpin(v, s.head))
    case PSpin(v, h) =>
      if s.consumerAlive then s.(producer := PProbe(v, h))
      else s.(producer := PIdle, returned := s.returned + [v], outcomes := s.outcomes + [false])
    case PProbe(v, h) =>
      if h < s.tail then s.(fault := true)
      else if h - s.tail < cap then s.(producer := PRoom(v, h, s.tail))
      else s.(producer := PSpin(v, h))
    case PRoom(v, h, _) =>
      s.(slots := s.slots[h % cap := Full(v)],
         producer := PWritten(v, h),
         fault := s.fault || s.slots[h % cap].Full?)
    case PWritten(v, h) => s.(head := h + 1, producer := PIdle, sent := s.sent + [v], outcomes := s.outcomes + [true])
    case PGone => s
  }

  /** One atomic step of `recv`. */
  function ConsumerNext<T>(s: Channel<T>): Channel<T>
    requires |s.slots| > 0
  {
    var cap := |s.slots|;
    match s.consumer
    case CIdle => s
    case CStart => s.(consumer := CSpin(s.tail))
    case CSpin(t) =>
      s.(consumer := if s.head != t then CReady(t, s.head) else CEmpty(t))
    case CEmpty(t) =>
      s.(consumer := if s.producerAlive then CSpin(t) else CLast(t))
    case CLast(t) =>
      if s.head != t then s.(consumer := CReady(t, s.head))
      else s.(consumer := CIdle, ended := s.ended + 1)
    case CReady(t, _) =>
      if s.slots[t % cap].Full?
      then s.(slots := s.slots[t % cap := Moved], consumer := CTook(t, s.slots[t % cap].value))
      else s.(fault := true)
    case CTook(t, v) => s.(tail := t + 1, consumer := CIdle, received := s.received + [v])
    case CGone => s
  }

  function Step<T>(s: Channel<T>, a: Action<T>): Channel<T>
    requires |s.slots| > 0
  {
    match a
    case SendCall(v) => s.(producer := PStart(v), given := s.given + [v])
    case DropProducer => s.(producer := PGone, producerAlive := false)
    case ProducerStep => ProducerNext(s)
    case RecvCall => s.(consumer := CStart)
    case DropConsumer => s.(consumer := CGone, consumerAlive := false)
    case ConsumerStep => ConsumerNext(s)
  }

  ghost predicate IsRun<T>(states: seq<Channel<T>>, actions: seq<Action<T>>) {
    && |states| == |actions| + 1
    && forall i :: 0 <= i < |actions| ==>
         |states[i].slots| > 0 && Enabled(states[i], actions[i]) && states[i + 1] == Step(states[i], actions[i])
  }

  // ---------------------------------------------------------------------------
  // The invariant
  // ---------------------------------------------------------------------------

  ghost predicate ProducerOk<T>(s: Channel<T>) {
    && (s.producerAlive <==> !s.producer.PGone?)
    && match s.producer
       case PSpin(_, h) => h == s.head
       case PProbe(_, h) => h == s.head
       case PRoom(_, h, seen) => h == s.head && seen <= s.tail && h - seen < |s.slots|
       case PWritten(_, h) => h == s.head && s.head - s.tail < |s.slots|
       case _ => true
  }

  ghost predicate ConsumerOk<T>(s: Channel<T>)
    requires |s.sent| == s.head
  {
    && (s.consumerAlive <==> !s.consumer.CGone?)
    && match s.consumer
       case CSpin(t) => t == s.tail
       case CEmpty(t) => t == s.tail
       case CLast(t) => t == s.tail && !s.producerAlive
       case CReady(t, seen) => t == s.tail && t < seen <= s.head
       case CTook(t, v) => t == s.tail && t < s.head && v == s.sent[t]
       case _ => true
  }

  /** What the slot of counter value `i` must hold, for `i` in the window `[tail, tail + cap)`. */
  ghost predicate SlotOk<T>(s: Channel<T>, i: nat, slot: Slot<T>)
    requires |s.sent| == s.head
  {
    if i < s.head then
      if i == s.tail && s.consumer.CTook? then slot.Moved? else slot == Full(s.sent[i])
    else if i == s.head && s.producer.PWritten? then slot == Full(s.producer.value)
    else !slot.Full?
  }

  ghost predicate SlotsOk<T>(s: Channel<T>)
    requires |s.slots| > 0 && |s.sent| == s.head
  {
    forall i: nat {:trigger SlotOk(s, i, s.slots[i % |s.slots|])} ::
      s.tail <= i < s.tail + |s.slots| ==> SlotOk(s, i, s.slots[i % |s.slots|])
  }

  /** The argument of the `send` in flight, if any: it is in nobody else's hands. */
  function InFlight<T>(s: Channel<T>): seq<T> {
    match s.producer
    case PStart(v) => [v]
    case PSpin(v, _) => [v]
    case PProbe(v, _) => [v]
    case PRoom(v, _, _) => [v]
    case PWritten(v, _) => [v]
    case _ => []
  }

  /** The arguments of the calls that finished with the given outcome, in order. */
  function Pick<T>(values: seq<T>, outcomes: seq<bool>, which: bool): seq<T>
    requires |values| == |outcomes|
  {
    var n := |values| - 1;
    if n < 0 then []
    else Pick(values[..n], outcomes[..n], which) + if outcomes[n] == which then [values[n]] else []
  }

  /** Every argument of `send` was published, handed back, or is still in the call in flight. */
  ghost predicate Accounted<T>(s: Channel<T>) {
    && |s.outcomes| <= |s.given|
    && s.given[|s.outcomes|..] == InFlight(s)
    && s.sent == Pick(s.given[..|s.outcomes|], s.outcomes, true)
    && s.returned == Pick(s.given[..|s.outcomes|], s.outcomes, false)
  }

  ghost predicate Inv<T>(s: Channel<T>) {
    && |s.slots| > 0
    && |s.sent| == s.head
    && s.tail <= s.head <= s.tail + |s.slots|
    && s.received == s.sent[..s.tail]
    && ProducerOk(s)
    && ConsumerOk(s)
    && SlotsOk(s)
    && Accounted(s)
    && (s.ended > 0 ==> !s.producerAlive && s.tail == s.head)
    && !s.fault
  }

  // ---------------------------------------------------------------------------
  // Every step keeps the invariant
  // ---------------------------------------------------------------------------

  lemma InitInv<T>(cap: nat)
    requires cap > 0
    ensures Inv(Init<T>(cap))
  {}

  /** A step that touches no slot, counter or window flag leaves the slots right. */
  lemma FrameSlots<T>(s: Channel<T>, s': Channel<T>)
    requires |s.slots| > 0 && |s.sent| == s.head && SlotsOk(s)
    requires s'.slots == s.slots && s'.head == s.head && s'.tail == s.tail && s'.sent == s.sent
    requires s'.consumer.CTook? == s.consumer.CTook?
    requires (!s.producer.PWritten? && !s'.producer.PWritten?) || s.producer == s'.producer
    ensures SlotsOk(s')
  {
    forall i: nat | s.tail <= i < s.tail + |s.slots|
      ensures SlotOk(s', i, s'.slots[i % |s.slots|])
    {
      assert SlotOk(s, i, s.slots[i % |s.slots|]);
    }
  }

  /** A step that writes the slot of counter `j` disturbs no other slot of the window. */
  lemma WriteKeepsOthers<T>(s: Channel<T>, i: nat, j: nat, slot: Slot<T>)
    requires |s.slots| > 0 && |s.sent| == s.head && SlotsOk(s)
    requires s.tail <= i < s.tail + |s.slots| && s.tail <= j < s.tail + |s.slots|
    ensures i != j ==> SlotOk(s, i, s.slots[j % |s.slots| := slot][i % |s.slots|])
  {
    assert SlotOk(s, i, s.slots[i % |s.slots|]);
    if i < j {
      DistinctSlots(i, j, |s.slots|);
    } else if j < i {
      DistinctSlots(j, i, |s.slots|);
    }
  }

  /** Writing the slot at `head`: it was not full, and every other slot is untouched. */
  lemma WriteStep<T>(s: Channel<T>)
    requires Inv(s) && s.producer.PRoom?
    ensures SlotsOk(ProducerNext(s)) && !ProducerNext(s).fault
  {
    var s', h := ProducerNext(s), s.head;
    assert SlotOk(s, h, s.slots[h % |s.slots|]);
    forall i: nat | s.tail <= i < s.tail + |s.slots|
      ensures SlotOk(s', i, s'.slots[i % |s.slots|])
    {
      WriteKeepsOthers(s, i, h, Full(s.producer.value));
    }
  }

  /** Publishing: the slot at the old `head` already holds the value. */
  lemma PublishStep<T>(s: Channel<T>)
    requires Inv(s) && s.producer.PWritten?
    ensures |ProducerNext(s).sent| == ProducerNext(s).head && SlotsOk(ProducerNext(s))
  {
    var s' := ProducerNext(s);
    forall i: nat | s.tail <= i < s.tail + |s.slots|
      ensures SlotOk(s', i, s'.slots[i % |s.slots|])
    {
      assert SlotOk(s, i, s.slots[i % |s.slots|]);
    }
  }

  /** Reading the slot at `tail`: it holds the oldest value not yet received. */
  lemma ReadStep<T>(s: Channel<T>)
    requires Inv(s) && s.consumer.CReady?
    ensures SlotsOk(ConsumerNext(s)) && !ConsumerNext(s).fault
    ensures ConsumerNext(s).consumer == CTook(s.tail, s.sent[s.tail])
  {
    var s', t := ConsumerNext(s), s.tail;
    assert SlotOk(s, t, s.slots[t % |s.slots|]);
    forall i: nat | s.tail <= i < s.tail + |s.slots|
      ensures SlotOk(s', i, s'.slots[i % |s.slots|])
    {
      WriteKeepsOthers(s, i, t, Moved);
    }
  }

  /** Releasing the slot at the old `tail`: it becomes the last slot of the window. */
  lemma ReleaseStep<T>(s: Channel<T>)
    requires Inv(s) && s.consumer.CTook?
    ensures SlotsOk(ConsumerNext(s))
  {
    var s', cap := ConsumerNext(s), |s.slots|;
    forall i: nat | s'.tail <= i < s'.tail + cap
      ensures SlotOk(s', i, s'.slots[i % cap])
    {
      if i == s.tail + cap {
        SameSlot(s.tail, cap);
        assert SlotOk(s, s.tail, s.slots[s.tail % cap]);
      } else {
        assert SlotOk(s, i, s.slots[i % cap]);
      }
    }
  }

  /** Finishing the call in flight adds its argument to the side its outcome says. */
  lemma FinishCall<T>(given: seq<T>, outcomes: seq<bool>, value: T, outcome: bool, which: bool)
    requires |outcomes| <= |given| && given[|outcomes|..] == [value]
    ensures |given| == |outcomes| + 1
    ensures Pick(given[..|outcomes| + 1], outcomes + [outcome], which)
         == Pick(given[..|outcomes|], outcomes, which) + if outcome == which then [value] else []
  {
    var n := |outcomes|;
    assert given[n] == given[n..][0];
    assert given[..n + 1][..n] == given[..n] && (outcomes + [outcome])[..n] == outcomes;
  }

  lemma PublishAccounts<T>(s: Channel<T>)
    requires |s.slots| > 0 && Accounted(s) && s.producer.PWritten?
    ensures Accounted(ProducerNext(s))
  {
    FinishCall(s.given, s.outcomes, s.producer.value, true, true);
    FinishCall(s.given, s.outcomes, s.producer.value, true, false);
  }

  lemma ReturnAccounts<T>(s: Channel<T>)
    requires |s.slots| > 0 && Accounted(s) && s.producer.PSpin? && !s.consumerAlive
    ensures Accounted(ProducerNext(s))
  {
    FinishCall(s.given, s.outcomes, s.producer.value, false, true);
    FinishCall(s.given, s.outcomes, s.producer.value, false, false);
  }

  lemma ProducerAccounts<T>(s: Channel<T>)
    requires |s.slots| > 0 && Accounted(s)
    ensures Accounted(ProducerNext(s))
  {
    if s.producer.PWritten? {
      PublishAccounts(s);
    } else if s.producer.PSpin? && !s.consumerAlive {
      ReturnAccounts(s);
    } else {
      var s' := ProducerNext(s);
      assert s'.given == s.given && s'.outcomes == s.outcomes && s'.sent == s.sent && s'.returned == s.returned;
      assert InFlight(s') == InFlight(s);
    }
  }

  lemma ProducerKeepsSlots<T>(s: Channel<T>)
    requires Inv(s)
    ensures |ProducerNext(s).sent| == ProducerNext(s).head
    ensures SlotsOk(ProducerNext(s)) && !ProducerNext(s).fault
  {
    match s.producer
    case PRoom(_, _, _) => WriteStep(s);
    case PWritten(_, _) => PublishStep(s);
    case _ => FrameSlots(s, ProducerNext(s));
  }

  lemma ProducerKeepsThreads<T>(s: Channel<T>)
    requires Inv(s)
    ensures |ProducerNext(s).sent| == ProducerNext(s).head
    ensures ProducerOk(ProducerNext(s)) && ConsumerOk(ProducerNext(s))
    ensures ProducerNext(s).received == ProducerNext(s).sent[..s.tail]
    ensures s.tail <= ProducerNext(s).head <= s.tail + |s.slots|
  {}

  lemma ProducerKeepsInv<T>(s: Channel<T>)
    requires Inv(s)
    ensures Inv(ProducerNext(s))
  {
    ProducerAccounts(s);
    ProducerKeepsSlots(s);
    ProducerKeepsThreads(s);
  }

  lemma ConsumerKeepsSlots<T>(s: Channel<T>)
    requires Inv(s)
    ensures SlotsOk(ConsumerNext(s)) && !ConsumerNext(s).fault
  {
    match s.consumer
    case CReady(_, _) => ReadStep(s);
    case CTook(_, _) => ReleaseStep(s);
    case _ => FrameSlots(s, ConsumerNext(s));
  }

  lemma ConsumerKeepsThreads<T>(s: Channel<T>)
    requires Inv(s)
    ensures ProducerOk(ConsumerNext(s)) && ConsumerOk(ConsumerNext(s))
    ensures s.tail <= ConsumerNext(s).tail <= s.head
    ensures ConsumerNext(s).received == s.sent[..ConsumerNext(s).tail]
    ensures ConsumerNext(s).ended > 0 ==> !s.producerAlive && ConsumerNext(s).tail == s.head
  {
    if s.consumer.CReady? {
      ReadStep(s);
    }
  }

  lemma ConsumerKeepsInv<T>(s: Channel<T>)
    requires Inv(s)
    ensures Inv(ConsumerNext(s))
  {
    var s' := ConsumerNext(s);
    assert s'.given == s.given && s'.outcomes == s.outcomes && s'.sent == s.sent && s'.returned == s.returned;
    ConsumerKeepsSlots(s);
    ConsumerKeepsThreads(s);
  }

  lemma StepKeepsInv<T>(s: Channel<T>, a: Action<T>)
    requires Inv(s) && Enabled(s, a)
    ensures Inv(Step(s, a))
  {
    match a
    case ProducerStep => ProducerKeepsInv(s);
    case ConsumerStep => ConsumerKeepsInv(s);
    case SendCall(v) =>
      FrameSlots(s, Step(s, a));
      assert (s.given + [v])[..|s.outcomes|] == s.given[..|s.outcomes|];
    case _ => FrameSlots(s, Step(s, a));
  }

  lemma StepKeepsSize<T>(s: Channel<T>, a: Action<T>)
    requires |s.slots| > 0
    ensures |Step(s, a).slots| == |s.slots|
  {}

  // ---------------------------------------------------------------------------
  // Whole runs
  // ---------------------------------------------------------------------------

  /** Safety of every interleaving. */
  lemma {:induction false} RunKeepsInv<T>(cap: nat, states: seq<Channel<T>>, actions: seq<Action<T>>, i: nat)
    requires cap > 0 && IsRun(states, actions) && states[0] == Init(cap) && i < |states|
    ensures Inv(states[i]) && |states[i].slots| == cap
  {
    if i == 0 {
      InitInv<T>(cap);
    } else {
      RunKeepsInv(cap, states, actions, i - 1);
      StepKeepsInv(states[i - 1], actions[i - 1]);
      StepKeepsSize(states[i - 1], actions[i - 1]);
    }
  }

  /** The value moved out of its slot by a `recv` that has not stored `tail + 1` yet. */
  function InHand<T>(s: Channel<T>): seq<T> {
    if s.consumer.CTook? then [s.consumer.value] else []
  }

  /** The values in the slots from counter value `i` up to `head`. */
  function Buffered<T>(s: Channel<T>, i: nat): seq<T>
    requires |s.slots| > 0 && i <= s.head
    requires forall j: nat :: i <= j < s.head ==> s.slots[j % |s.slots|].Full?
    decreases s.head - i
  {
    if i == s.head then [] else [s.slots[i % |s.slots|].value] + Buffered(s, i + 1)
  }

  lemma {:induction false} BufferedIsSent<T>(s: Channel<T>, i: nat)
    requires Inv(s) && s.tail + |InHand(s)| <= i <= s.head
    ensures forall j: nat :: i <= j < s.head ==> s.slots[j % |s.slots|].Full?
    ensures Buffered(s, i) == s.sent[i..]
    decreases s.head - i
  {
    forall j: nat | i <= j < s.head
      ensures s.slots[j % |s.slots|] == Full(s.sent[j])
    {
      assert SlotOk(s, j, s.slots[j % |s.slots|]);
    }
    if i < s.head {
      BufferedIsSent(s, i + 1);
      assert s.sent[i..] == [s.sent[i]] + s.sent[i + 1..];
    }
  }

  /**
   First in, first out, in every reachable state: what was received, what `recv` has in hand
   and what lies in the slots between `tail` and `head` are together exactly the published
   values in order; the buffer never overflows and no step faulted.
   */
  lemma Fifo<T>(cap: nat, states: seq<Channel<T>>, actions: seq<Action<T>>, i: nat)
    requires cap > 0 && IsRun(states, actions) && states[0] == Init(cap) && i < |states|
    ensures var s := states[i];
      && !s.fault
      && 0 <= s.head - s.tail <= cap
      && s.tail + |InHand(s)| <= s.head
      && |s.slots| == cap
      && (forall j: nat :: s.tail + |InHand(s)| <= j < s.head ==> s.slots[j % cap].Full?)
      && s.received + InHand(s) + Buffered(s, s.tail + |InHand(s)|) == s.sent
  {
    RunKeepsInv(cap, states, actions, i);
    var s := states[i];
    var from := s.tail + |InHand(s)|;
    BufferedIsSent(s, from);
    assert s.sent == s.sent[..s.tail] + s.sent[s.tail..from] + s.sent[from..];
    assert s.sent[s.tail..from] == InHand(s);
  }

  // ---------------------------------------------------------------------------
  // Conservation
  // ---------------------------------------------------------------------------

  lemma AddOnEitherSide<T>(a: multiset<T>, b: multiset<T>, x: T, left: bool)
    ensures (a + (if left then multiset{x} else multiset{})) + (b + (if left then multiset{} else multiset{x}))
         == (a + b) + multiset{x}
  {}

  lemma SplitLast<T>(values: seq<T>)
    requires |values| > 0
    ensures multiset(values) == multiset(values[..|values| - 1]) + multiset{values[|values| - 1]}
  {
    assert values == values[..|values| - 1] + [values[|values| - 1]];
  }

  lemma SplitAt<T>(values: seq<T>, k: nat)
    requires k <= |values|
    ensures multiset(values) == multiset(values[..k]) + multiset(values[k..])
  {
    assert values == values[..k] + values[k..];
  }

  lemma PickLast<T>(values: seq<T>, outcomes: seq<bool>, which: bool)
    requires |values| == |outcomes| > 0
    ensures var n := |values| - 1;
      multiset(Pick(values, outcomes, which))
        == multiset(Pick(values[..n], outcomes[..n], which))
         + (if outcomes[n] == which then multiset{values[n]} else multiset{})
  {}

  lemma {:induction false} PickPartitions<T>(values: seq<T>, outcomes: seq<bool>)
    requires |values| == |outcomes|
    ensures multiset(Pick(values, outcomes, true)) + multiset(Pick(values, outcomes, false)) == multiset(values)
  {
    var n := |values| - 1;
    if n < 0 {
      assert values == [];
    } else {
      PickPartitions(values[..n], outcomes[..n]);
      PickLast(values, outcomes, true);
      PickLast(values, outcomes, false);
      SplitLast(values);
      var accepted := multiset(Pick(values[..n], outcomes[..n], true));
      var refused := multiset(Pick(values[..n], outcomes[..n], false));
      if outcomes[n] {
        AddOnEitherSide(accepted, refused, values[n], true);
      } else {
        AddOnEitherSide(accepted, refused, values[n], false);
      }
    }
  }

  /**
   Every value given to `send` is in exactly one place: received, in the consumer's hand, in
   the buffer, handed back in `SendError`, or still with the `send` in flight.
   */
  lemma Conservation<T>(s: Channel<T>)
    requires Inv(s)
    ensures multiset(s.given) == multiset(s.received) + multiset(s.sent[s.tail..])
                               + multiset(s.returned) + multiset(InFlight(s))
  {
    var n := |s.outcomes|;
    PickPartitions(s.given[..n], s.outcomes);
    SplitAt(s.given, n);
    SplitAt(s.sent, s.tail);
  }

  // ---------------------------------------------------------------------------
  // End of stream
  // ---------------------------------------------------------------------------

  /** `recv` fails only once the producer is gone and everything accepted was received. */
  lemma RecvErrorMeansDrained<T>(s: Channel<T>, a: Action<T>)
    requires Inv(s) && Enabled(s, a) && Step(s, a).ended > s.ended
    ensures s.producer.PGone? && s.received == s.sent && |s.outcomes| == |s.given|
  {
    assert s.consumer.CLast? && s.tail == s.head;
    assert s.sent[..s.head] == s.sent;
    assert |s.given[|s.outcomes|..]| == 0;
  }

  /** After the first `RecvError` nothing is ever received again. */
  lemma {:induction false} EndedForever<T>(states: seq<Channel<T>>, actions: seq<Action<T>>, i: nat)
    requires IsRun(states, actions) && Inv(states[0]) && states[0].ended > 0 && i < |states|
    requires states[0].consumer.CIdle?
    ensures Inv(states[i]) && states[i].ended >= states[0].ended
    ensures states[i].received == states[0].received && states[i].given == states[0].given
    ensures !states[i].consumer.CReady? && !states[i].consumer.CTook?
  {
    if i > 0 {
      EndedForever(states, actions, i - 1);
      StepKeepsInv(states[i - 1], actions[i - 1]);
    }
  }

  /** The consumer running alone for `n` steps. */
  function ConsumerSteps<T>(s: Channel<T>, n: nat): Channel<T>
    requires |s.slots| > 0
    decreases n
  {
    if n == 0 then s else ConsumerSteps(ConsumerNext(s), n - 1)
  }

  /** The producer running alone for `n` steps. */
  function ProducerSteps<T>(s: Channel<T>, n: nat): Channel<T>
    requires |s.slots| > 0
    decreases n
  {
    if n == 0 then s else ProducerSteps(ProducerNext(s), n - 1)
  }

  /**
   A `recv` on its own: four steps to an error once the stream ended, and if a value is
   available four steps to the oldest one.
   */
  lemma RecvOutcome<T>(s: Channel<T>)
    requires Inv(s) && s.consumer.CIdle?
    ensures !s.producerAlive && s.tail == s.head ==>
      ConsumerSteps(Step(s, RecvCall), 4) == s.(ended := s.ended + 1)
    ensures s.tail < s.head ==>
      ConsumerSteps(Step(s, RecvCall), 4)
        == s.(tail := s.tail + 1, received := s.received + [s.sent[s.tail]],
              slots := s.slots[s.tail % |s.slots| := Moved])
  {
    var s0 := Step(s, RecvCall);
    var s1 := ConsumerNext(s0);
    var s2 := ConsumerNext(s1);
    var s3 := ConsumerNext(s2);
    var s4 := ConsumerNext(s3);
    assert ConsumerSteps(s0, 4) == ConsumerSteps(s1, 3) == ConsumerSteps(s2, 2) == ConsumerSteps(s3, 1) == s4;
    if s.tail < s.head {
      assert SlotOk(s, s.tail, s.slots[s.tail % |s.slots|]);
    }
  }

  /**
   A `send` on its own: it publishes in five steps when there is room and the consumer is
   there, and gives the value back in two when the consumer is gone, room or no room.
   */
  lemma SendOutcome<T>(s: Channel<T>, v: T)
    requires Inv(s) && s.producer.PIdle?
    ensures !s.consumerAlive ==>
      ProducerSteps(Step(s, SendCall(v)), 2)
        == s.(given := s.given + [v], outcomes := s.outcomes + [false], returned := s.returned + [v])
    ensures s.consumerAlive && s.head - s.tail < |s.slots| ==>
      ProducerSteps(Step(s, SendCall(v)), 5)
        == s.(given := s.given + [v], outcomes := s.outcomes + [true], sent := s.sent + [v], head := s.head + 1,
              slots := s.slots[s.head % |s.slots| := Full(v)])
  {
    var s0 := Step(s, SendCall(v));
    var s1 := ProducerNext(s0);
    var s2 := ProducerNext(s1);
    assert ProducerSteps(s0, 2) == ProducerSteps(s1, 1) == s2;
    var s3 := ProducerNext(s2);
    var s4 := ProducerNext(s3);
    var s5 := ProducerNext(s4);
    assert ProducerSteps(s0, 5) == ProducerSteps(s1, 4) == ProducerSteps(s2, 3)
        == ProducerSteps(s3, 2) == ProducerSteps(s4, 1) == s5;
    if s.consumerAlive && s.head - s.tail < |s.slots| {
      assert SlotOk(s, s.head, s.slots[s.head % |s.slots|]);
    }
  }
}
