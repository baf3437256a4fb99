/** What a call of `send` or `recv` that is under way comes to, from wherever it stands. */
module SpscCalls {
  import opened SpscChannel

  // ---------------------------------------------------------------------------
  // send
  // ---------------------------------------------------------------------------

  predicate Sending<T>(s: Channel<T>) {
    !s.producer.PIdle? && !s.producer.PGone?
  }

  predicate HasRoom<T>(s: Channel<T>) {
    s.head - s.tail < |s.slots|
  }

  /** Steps to the end of a `send` that publishes. */
  function SendSteps<T>(pc: ProducerPc<T>): nat {
    match pc
    case PStart(_) => 5
    case PSpin(_, _) => 4
    case PProbe(_, _) => 3
    case PRoom(_, _, _) => 2
    case PWritten(_, _) => 1
    case _ => 0
  }

  /** It has seen room, or there is room and the consumer is there or was already looked for. */
  predicate WillPublish<T>(s: Channel<T>) {
    || s.producer.PRoom? || s.producer.PWritten?
    || (HasRoom(s) && (s.producer.PProbe? || (s.consumerAlive && (s.producer.PStart? || s.producer.PSpin?))))
  }

  /** Left alone, such a `send` publishes its argument, into the slot at `head` and with `Ok`. */
  lemma {:induction false} SendPublishes<T>(s: Channel<T>)
    requires Inv(s) && Sending(s) && WillPublish(s)
    ensures var v := s.producer.value;
      ProducerSteps(s, SendSteps(s.producer))
        == s.(producer := PIdle, head := s.head + 1, sent := s.sent + [v], outcomes := s.outcomes + [true],
              slots := s.slots[s.head % |s.slots| := Full(v)])
    decreases SendSteps(s.producer)
  {
    var s' := ProducerNext(s);
    ProducerKeepsInv(s);
    if s.producer.PWritten? {
      assert SlotOk(s, s.head, s.slots[s.head % |s.slots|]);
      assert ProducerSteps(s, 1) == ProducerSteps(s', 0);
    } else {
      assert SendSteps(s'.producer) == SendSteps(s.producer) - 1;
      SendPublishes(s');
    }
  }

  /** Steps to the end of a `send` that is refused. */
  function RefusalSteps<T>(pc: ProducerPc<T>): nat {
    match pc
    case PStart(_) => 2
    case PProbe(_, _) => 2
    case PSpin(_, _) => 1
    case _ => 0
  }

  /**
   With the consumer gone, a `send` that has not seen room yet gives its argument back, also when it
   was already spinning on a full buffer.
   */
  lemma SendRefused<T>(s: Channel<T>)
    requires Inv(s) && !s.consumerAlive
    requires s.producer.PStart? || s.producer.PSpin? || (s.producer.PProbe? && !HasRoom(s))
    ensures var v := s.producer.value;
      ProducerSteps(s, RefusalSteps(s.producer))
        == s.(producer := PIdle, returned := s.returned + [v], outcomes := s.outcomes + [false])
  {
    var s' := ProducerNext(s);
    if s.producer.PSpin? {
      assert ProducerSteps(s, 1) == ProducerSteps(s', 0);
    } else {
      assert ProducerSteps(s, 2) == ProducerSteps(s', 1) == ProducerSteps(ProducerNext(s'), 0);
    }
  }

  function WaitSteps<T>(pc: ProducerPc<T>): nat {
    match pc
    case PStart(_) => 3
    case PSpin(_, _) => 2
    case PProbe(_, _) => 1
    case _ => 0
  }

  /** With the buffer full and the consumer there, it comes round to its look at the consumer, and has done nothing. */
  lemma SendWaits<T>(s: Channel<T>)
    requires Inv(s) && s.consumerAlive && !HasRoom(s)
    requires s.producer.PStart? || s.producer.PSpin? || s.producer.PProbe?
    ensures ProducerSteps(s, WaitSteps(s.producer)) == s.(producer := PSpin(s.producer.value, s.head))
  {
    var s1 := ProducerNext(s);
    var s2 := ProducerNext(s1);
    var s3 := ProducerNext(s2);
    assert ProducerSteps(s, 1) == ProducerSteps(s1, 0) == s1;
    assert ProducerSteps(s, 2) == ProducerSteps(s1, 1) == ProducerSteps(s2, 0) == s2;
    assert ProducerSteps(s, 3) == ProducerSteps(s1, 2) == ProducerSteps(s2, 1) == ProducerSteps(s3, 0) == s3;
  }

  /** Step `k` is a look of the producer at `consumer_alive`, and it sees true. */
  predicate SeesConsumer<T>(states: seq<Channel<T>>, actions: seq<Action<T>>, k: nat) {
    && k < |actions| && k < |states|
    && actions[k].ProducerStep? && states[k].producer.PSpin? && states[k].consumerAlive
  }

  lemma ProbeEntered<T>(s: Channel<T>, a: Action<T>)
    requires Inv(s) && Enabled(s, a) && Step(s, a).producer.PProbe?
    ensures a.ProducerStep? ==> s.producer.PSpin? && s.consumerAlive
    ensures !a.ProducerStep? ==> s.producer.PProbe?
  {}

  lemma ProbeInRun<T>(cap: nat, states: seq<Channel<T>>, actions: seq<Action<T>>, j: nat)
    requires cap > 0 && IsRun(states, actions) && states[0] == Init(cap)
    requires 0 < j < |states| && states[j].producer.PProbe?
    ensures if actions[j - 1].ProducerStep? then SeesConsumer(states, actions, j - 1)
            else states[j - 1].producer.PProbe?
  {
    RunKeepsInv(cap, states, actions, j - 1);
    ProbeEntered(states[j - 1], actions[j - 1]);
  }

  /**
   In every interleaving, between two looks at `tail` by the producer there is a look at
   `consumer_alive` that sees true: a spinning `send` never stops noticing that the consumer left.
   */
  lemma {:induction false} LooksAtConsumer<T>(cap: nat, states: seq<Channel<T>>, actions: seq<Action<T>>,
                                              i: nat, j: nat)
    requires cap > 0 && IsRun(states, actions) && states[0] == Init(cap) && i < j < |states|
    requires actions[i].ProducerStep? && states[i].producer.PProbe? && states[j].producer.PProbe?
    ensures exists k :: i < k < j && SeesConsumer(states, actions, k)
    decreases j
  {
    ProbeInRun(cap, states, actions, j);
    if actions[j - 1].ProducerStep? {
      assert SeesConsumer(states, actions, j - 1);
    } else {
      LooksAtConsumer(cap, states, actions, i, j - 1);
    }
  }

  // ---------------------------------------------------------------------------
  // recv
  // ---------------------------------------------------------------------------

  predicate Receiving<T>(s: Channel<T>) {
    !s.consumer.CIdle? && !s.consumer.CGone?
  }

  /** Steps to the end of a `recv` that finds a value. */
  function RecvSteps<T>(pc: ConsumerPc<T>): nat {
    match pc
    case CStart => 4
    case CEmpty(_) => 4
    case CSpin(_) => 3
    case CLast(_) => 3
    case CReady(_, _) => 2
    case CTook(_, _) => 1
    case _ => 0
  }

  /**
   Left alone, a `recv` under way takes out the oldest published value if there is one, also when
   it has already found the buffer empty.
   */
  lemma {:induction false} RecvReceives<T>(s: Channel<T>)
    requires Inv(s) && Receiving(s) && s.tail < s.head
    ensures ConsumerSteps(s, RecvSteps(s.consumer))
         == s.(consumer := CIdle, tail := s.tail + 1, received := s.received + [s.sent[s.tail]],
               slots := s.slots[s.tail % |s.slots| := Moved])
    decreases RecvSteps(s.consumer)
  {
    var s' := ConsumerNext(s);
    ConsumerKeepsInv(s);
    assert SlotOk(s, s.tail, s.slots[s.tail % |s.slots|]);
    if s.consumer.CTook? {
      assert ConsumerSteps(s, 1) == ConsumerSteps(s', 0);
    } else {
      assert RecvSteps(s'.consumer) == RecvSteps(s.consumer) - 1;
      RecvReceives(s');
    }
  }

  function EndSteps<T>(pc: ConsumerPc<T>): nat {
    match pc
    case CStart => 4
    case CSpin(_) => 3
    case CEmpty(_) => 2
    case CLast(_) => 1
    case _ => 0
  }

  /** With the producer gone and nothing left, it ends in an error. */
  lemma {:induction false} RecvEnds<T>(s: Channel<T>)
    requires Inv(s) && Receiving(s) && s.tail == s.head && !s.producerAlive
    ensures ConsumerSteps(s, EndSteps(s.consumer)) == s.(consumer := CIdle, ended := s.ended + 1)
    decreases EndSteps(s.consumer)
  {
    var s' := ConsumerNext(s);
    ConsumerKeepsInv(s);
    if s.consumer.CLast? {
      assert ConsumerSteps(s, 1) == ConsumerSteps(s', 0);
    } else {
      assert EndSteps(s'.consumer) == EndSteps(s.consumer) - 1;
      RecvEnds(s');
    }
  }

  function LookSteps<T>(pc: ConsumerPc<T>): nat {
    if pc.CSpin? then 2 else 1
  }

  /** With the producer there and nothing published, it comes round to its look at `head`, and has done nothing. */
  lemma RecvWaits<T>(s: Channel<T>)
    requires Inv(s) && Receiving(s) && s.tail == s.head && s.producerAlive
    ensures ConsumerSteps(s, LookSteps(s.consumer)) == s.(consumer := CSpin(s.tail))
  {
    var s1 := ConsumerNext(s);
    var s2 := ConsumerNext(s1);
    assert ConsumerSteps(s, 1) == ConsumerSteps(s1, 0) == s1;
    assert ConsumerSteps(s, 2) == ConsumerSteps(s1, 1) == ConsumerSteps(s2, 0) == s2;
  }

  /** Step `k` is a look of the consumer at `head`, and it sees nothing new. */
  predicate SeesEmpty<T>(states: seq<Channel<T>>, actions: seq<Action<T>>, k: nat) {
    && k < |actions| && k < |states|
    && actions[k].ConsumerStep? && states[k].consumer.CSpin? && states[k].head == states[k].tail
  }

  lemma EmptyEntered<T>(s: Channel<T>, a: Action<T>)
    requires Inv(s) && Enabled(s, a) && Step(s, a).consumer.CEmpty?
    ensures a.ConsumerStep? ==> s.consumer.CSpin? && s.head == s.tail
    ensures !a.ConsumerStep? ==> s.consumer.CEmpty?
  {}

  lemma EmptyInRun<T>(cap: nat, states: seq<Channel<T>>, actions: seq<Action<T>>, j: nat)
    requires cap > 0 && IsRun(states, actions) && states[0] == Init(cap)
    requires 0 < j < |states| && states[j].consumer.CEmpty?
    ensures if actions[j - 1].ConsumerStep? then SeesEmpty(states, actions, j - 1) else states[j - 1].consumer.CEmpty?
  {
    RunKeepsInv(cap, states, actions, j - 1);
    EmptyEntered(states[j - 1], actions[j - 1]);
  }

  /** In every interleaving, between two looks at `producer_alive` in the spin loop there is a fresh look at `head`. */
  lemma {:induction false} LooksAtHead<T>(cap: nat, states: seq<Channel<T>>, actions: seq<Action<T>>, i: nat, j: nat)
    requires cap > 0 && IsRun(states, actions) && states[0] == Init(cap) && i < j < |states|
    requires actions[i].ConsumerStep? && states[i].consumer.CEmpty? && states[j].consumer.CEmpty?
    ensures exists k :: i < k < j && SeesEmpty(states, actions, k)
    decreases j
  {
    EmptyInRun(cap, states, actions, j);
    if actions[j - 1].ConsumerStep? {
      assert SeesEmpty(states, actions, j - 1);
    } else {
      LooksAtHead(cap, states, actions, i, j - 1);
    }
  }
}
