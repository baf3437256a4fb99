/**
 The channel's ring buffer as the object its two handles share, changed in
 place one atomic step at a time, and the destructor that empties it.
 */
module SpscRing {
  import opened Wrappers
  import opened Arithmetic
  import opened SpscChannel

  /** How the buffer's destructor ends: a second panic while unwinding aborts the process. */
  datatype DropOutcome = Clean | Unwound | Aborted

  /** How many of the elements panic when destroyed. */
  function Count(panics: seq<bool>): nat {
    if panics == [] then 0 else Count(panics[..|panics| - 1]) + if panics[|panics| - 1] then 1 else 0
  }

  /** The first `i` elements have no more panics among them than all elements. */
  lemma {:induction false} CountPrefix(panics: seq<bool>, i: nat)
    requires i <= |panics|
    ensures Count(panics[..i]) <= Count(panics)
    ensures i < |panics| ==> Count(panics[..i + 1]) == Count(panics[..i]) + if panics[i] then 1 else 0
    decreases |panics| - i
  {
    if i < |panics| {
      CountPrefix(panics, i + 1);
      assert panics[..i + 1][..i] == panics[..i];
    } else {
      assert panics[..i] == panics;
    }
  }

  /** The slots seen from counter `t`: full up to `h`, free for the rest of the lap. */
  ghost predicate Window<T>(slots: seq<Slot<T>>, sent: seq<T>, t: nat, h: nat)
    requires |slots| > 0 && |sent| == h
  {
    forall i: nat {:trigger slots[i % |slots|]} :: t <= i < t + |slots| ==>
      if i < h then slots[i % |slots|] == Full(sent[i]) else !slots[i % |slots|].Full?
  }

  lemma WindowAdvance<T>(slots: seq<Slot<T>>, sent: seq<T>, t: nat, h: nat)
    requires |slots| > 0 && |sent| == h && t < h <= t + |slots| && Window(slots, sent, t, h)
    ensures Window(slots[t % |slots| := Moved], sent, t + 1, h)
  {
    var cap := |slots|;
    var slots' := slots[t % cap := Moved];
    forall i: nat | t + 1 <= i < t + 1 + cap
      ensures if i < h then slots'[i % cap] == Full(sent[i]) else !slots'[i % cap].Full?
    {
      if i == t + cap {
        SameSlot(t, cap);
        assert slots[t % cap] == Full(sent[t]);
      } else {
        DistinctSlots(t, i, cap);
        assert slots'[i % cap] == slots[i % cap];
      }
    }
  }

  /** Once the window is empty, every slot of the buffer is. */
  lemma WindowEmpty<T>(slots: seq<Slot<T>>, sent: seq<T>, t: nat)
    requires |slots| > 0 && |sent| == t && Window(slots, sent, t, t)
    ensures forall k :: 0 <= k < |slots| ==> !slots[k].Full?
  {
    var cap := |slots|;
    forall k | 0 <= k < cap
      ensures !slots[k].Full?
    {
      var q, r := t / cap, t % cap;
      var i := if k >= r then t + (k - r) else t + (k - r) + cap;
      assert t == q * cap + r;
      Scale(q, q, cap);
      RemainderUnique(i, cap, if k >= r then q else q + 1, k);
      assert !slots[i % cap].Full?;
    }
  }

  lemma InvWindow<T>(s: Channel<T>)
    requires Inv(s) && s.producer.PGone? && s.consumer.CGone?
    ensures Window(s.slots, s.sent, s.tail, s.head)
  {
    forall i: nat | s.tail <= i < s.tail + |s.slots|
      ensures if i < s.head then s.slots[i % |s.slots|] == Full(s.sent[i]) else !s.slots[i % |s.slots|].Full?
    {
      assert SlotOk(s, i, s.slots[i % |s.slots|]);
    }
  }

  /**
   When both handles are gone, every value ever given to `send` was received, handed back, or
   is among those the destructor finds in the buffer, each exactly once.
   */
  lemma NothingLost<T>(s: Channel<T>)
    requires Inv(s) && s.producer.PGone? && s.consumer.CGone?
    ensures multiset(s.given) == multiset(s.received) + multiset(s.returned) + multiset(s.sent[s.tail..])
  {
    Conservation(s);
    assert InFlight(s) == [];
  }

  class RingBuffer<T> {
    const slots: array<Slot<T>>
    var head: nat
    var tail: nat
    var producerAlive: bool
    var consumerAlive: bool

    // The two threads' stacks, and what has happened so far.
    var producer: ProducerPc<T>
    var consumer: ConsumerPc<T>
    ghost var given: seq<T>
    ghost var outcomes: seq<bool>
    ghost var sent: seq<T>
    ghost var returned: seq<T>
    ghost var received: seq<T>
    ghost var ended: nat

    ghost function State(): Channel<T>
      reads this, slots
    {
      Channel(slots[..], head, tail, producerAlive, consumerAlive, producer, consumer,
              given, outcomes, sent, returned, received, ended, false)
    }

    ghost predicate Valid()
      reads this, slots
    {
      Inv(State())
    }

    /** A capacity of zero is raised to one. */
    constructor (capacity: nat)
      ensures Valid() && fresh(slots)
      ensures State() == Init(if capacity == 0 then 1 else capacity)
    {
      var cap := if capacity == 0 then 1 else capacity;
      slots := new Slot<T>[cap](_ => Empty);
      head, tail := 0, 0;
      producerAlive, consumerAlive := true, true;
      producer, consumer := PIdle, CIdle;
      given, outcomes, sent, returned, received, ended := [], [], [], [], [], 0;
      new;
      assert slots[..] == seq(cap, _ => Empty);
      InitInv<T>(cap);
    }

    /** The caller must ensure that the slot is currently empty. */
    method Write(idx: nat, value: T)
      requires slots.Length > 0 && !slots[idx % slots.Length].Full?
      modifies slots
      ensures slots[..] == old(slots[..])[idx % slots.Length := Full(value)]
    {
      slots[idx % slots.Length] := Full(value);
    }

    /** The caller must ensure that the slot has been written to. */
    method Read(idx: nat) returns (value: T)
      requires slots.Length > 0 && slots[idx % slots.Length].Full?
      modifies slots
      ensures Full(value) == old(slots[idx % slots.Length])
      ensures slots[..] == old(slots[..])[idx % slots.Length := Moved]
    {
      value := slots[idx % slots.Length].value;
      slots[idx % slots.Length] := Moved;
    }

    // The atomic operations of `send`, in program order.

    method StartSend(value: T)
      requires Valid() && producer.PIdle?
      modifies this
      ensures Valid() && State() == Step(old(State()), SendCall(value))
    {
      StepKeepsInv(State(), SendCall(value));
      producer := PStart(value);
      given := given + [value];
    }

    method SendLoadHead()
      requires Valid() && producer.PStart?
      modifies this`producer
      ensures Valid() && State() == Step(old(State()), ProducerStep)
    {
      StepKeepsInv(State(), ProducerStep);
      producer := PSpin(producer.value, head);
    }

    /** Returns the value to the caller if the consumer is gone. */
    method SendCheckConsumer() returns (refused: Option<T>)
      requires Valid() && producer.PSpin?
      modifies this`producer, this`returned, this`outcomes
      ensures Valid() && State() == Step(old(State()), ProducerStep)
      ensures refused == if consumerAlive then None else Some(given[|given| - 1])
      ensures refused.Some? ==> returned == old(returned) + [refused.value]
    {
      StepKeepsInv(State(), ProducerStep);
      assert given[|outcomes|..] == InFlight(State()) == [producer.value];
      assert given[|given| - 1] == producer.value;
      if !consumerAlive {
        refused := Some(producer.value);
        returned, outcomes := returned + [producer.value], outcomes + [false];
        producer := PIdle;
      } else {
        refused := None;
        producer := PProbe(producer.value, producer.head);
      }
    }

    /** Loads `tail`: on to the write if there is room, else once more round the spin loop. */
    method SendLoadTail()
      requires Valid() && producer.PProbe?
      modifies this`producer
      ensures Valid() && State() == Step(old(State()), ProducerStep)
    {
      StepKeepsInv(State(), ProducerStep);
      if producer.head - tail < slots.Length {
        producer := PRoom(producer.value, producer.head, tail);
      } else {
        producer := PSpin(producer.value, producer.head);
      }
    }

    method SendWriteSlot()
      requires Valid() && producer.PRoom?
      modifies this`producer, slots
      ensures Valid() && State() == Step(old(State()), ProducerStep)
    {
      StepKeepsInv(State(), ProducerStep);
      Write(producer.head, producer.value);
      producer := PWritten(producer.value, producer.head);
    }

    method SendStoreHead()
      requires Valid() && producer.PWritten?
      modifies this`producer, this`head, this`sent, this`outcomes
      ensures Valid() && State() == Step(old(State()), ProducerStep)
      ensures sent == old(sent) + [given[|given| - 1]]
    {
      StepKeepsInv(State(), ProducerStep);
      assert given[|outcomes|..] == InFlight(State()) == [producer.value];
      assert given[|given| - 1] == producer.value;
      head := producer.head + 1;
      sent, outcomes := sent + [producer.value], outcomes + [true];
      producer := PIdle;
    }

    // The atomic operations of `recv`, in program order.

    method StartRecv()
      requires Valid() && consumer.CIdle?
      modifies this`consumer
      ensures Valid() && State() == Step(old(State()), RecvCall)
    {
      StepKeepsInv(State(), RecvCall);
      consumer := CStart;
    }

    method RecvLoadTail()
      requires Valid() && consumer.CStart?
      modifies this`consumer
      ensures Valid() && State() == Step(old(State()), ConsumerStep)
    {
      StepKeepsInv(State(), ConsumerStep);
      consumer := CSpin(tail);
    }

    method RecvLoadHead()
      requires Valid() && consumer.CSpin?
      modifies this`consumer
      ensures Valid() && State() == Step(old(State()), ConsumerStep)
    {
      StepKeepsInv(State(), ConsumerStep);
      if head != consumer.tail {
        consumer := CReady(consumer.tail, head);
      } else {
        consumer := CEmpty(consumer.tail);
      }
    }

    method RecvCheckProducer()
      requires Valid() && consumer.CEmpty?
      modifies this`consumer
      ensures Valid() && State() == Step(old(State()), ConsumerStep)
    {
      StepKeepsInv(State(), ConsumerStep);
      if producerAlive {
        consumer := CSpin(consumer.tail);
      } else {
        consumer := CLast(consumer.tail);
      }
    }

    /** The last look at `head`; `failed` reports `RecvError`, and then nothing was left behind. */
    method RecvReloadHead() returns (failed: bool)
      requires Valid() && consumer.CLast?
      modifies this`consumer, this`ended
      ensures Valid() && State() == Step(old(State()), ConsumerStep)
      ensures failed <==> consumer.CIdle?
      ensures failed ==> producer.PGone? && received == sent
    {
      StepKeepsInv(State(), ConsumerStep);
      failed := head == consumer.tail;
      if failed {
        RecvErrorMeansDrained(State(), ConsumerStep);
        consumer := CIdle;
        ended := ended + 1;
      } else {
        consumer := CReady(consumer.tail, head);
      }
    }

    method RecvReadSlot()
      requires Valid() && consumer.CReady?
      modifies this`consumer, slots
      ensures Valid() && State() == Step(old(State()), ConsumerStep)
    {
      StepKeepsInv(State(), ConsumerStep);
      assert SlotOk(State(), tail, slots[..][tail % slots.Length]);
      var v := Read(consumer.tail);
      consumer := CTook(consumer.tail, v);
    }

    /** Returns the oldest published value not received before. */
    method RecvStoreTail() returns (value: T)
      requires Valid() && consumer.CTook?
      modifies this`consumer, this`tail, this`received
      ensures Valid() && State() == Step(old(State()), ConsumerStep)
      ensures |old(received)| < |sent| && value == sent[|old(received)|]
      ensures received == old(received) + [value]
    {
      StepKeepsInv(State(), ConsumerStep);
      value := consumer.value;
      tail := consumer.tail + 1;
      received := received + [value];
      consumer := CIdle;
    }

    method DropProducer()
      requires Valid() && producer.PIdle?
      modifies this
      ensures Valid() && State() == Step(old(State()), SpscChannel.DropProducer)
    {
      StepKeepsInv(State(), SpscChannel.DropProducer);
      producerAlive := false;
      producer := PGone;
    }

    method DropConsumer()
      requires Valid() && consumer.CIdle?
      modifies this
      ensures Valid() && State() == Step(old(State()), SpscChannel.DropConsumer)
    {
      StepKeepsInv(State(), SpscChannel.DropConsumer);
      consumerAlive := false;
      consumer := CGone;
    }

    /**
     Destroys the values still in the buffer. `panics[k]` says whether destroying the `k`-th of
     them panics. With at most one panic each is destroyed exactly once; with a second panic
     the process aborts right there.
     */
    method Drop(panics: seq<bool>) returns (outcome: DropOutcome, dropped: seq<T>)
      requires Valid() && producer.PGone? && consumer.CGone? && |panics| == head - tail
      modifies this, slots
      ensures outcome.Clean? <==> Count(panics) == 0
      ensures outcome.Unwound? <==> Count(panics) == 1
      ensures !outcome.Aborted? ==> dropped == old(sent[tail..])
      ensures !outcome.Aborted? ==> tail == head && forall k :: 0 <= k < slots.Length ==> !slots[k].Full?
      ensures outcome.Aborted? ==> exists j ::
        0 <= j < |panics| && panics[j] && Count(panics[..j]) == 1 && dropped == old(sent[tail..])[..j + 1]
    {
      InvWindow(State());
      outcome, dropped := Drain(panics);
    }

    /** The destructor's own loop: each destruction runs under a guard that is forgotten on success. */
    method Drain(panics: seq<bool>) returns (outcome: DropOutcome, dropped: seq<T>)
      requires slots.Length > 0 && |sent| == head && tail <= head <= tail + slots.Length
      requires Window(slots[..], sent, tail, head) && |panics| == head - tail
      modifies this`tail, slots
      ensures outcome == if Count(panics) == 0 then Clean else if Count(panics) == 1 then Unwound else Aborted
      ensures !outcome.Aborted? ==> dropped == sent[old(tail)..]
      ensures !outcome.Aborted? ==> tail == head && forall k :: 0 <= k < slots.Length ==> !slots[k].Full?
      ensures outcome.Aborted? ==> exists j ::
        0 <= j < |panics| && panics[j] && Count(panics[..j]) == 1 && dropped == sent[old(tail)..][..j + 1]
    {
      var h, t := head, tail;
      var done := 0;
      dropped := [];
      while t != h
        invariant old(tail) <= t <= h <= t + slots.Length && h == head && tail == t && done == t - old(tail)
        invariant Window(slots[..], sent, t, h)
        invariant dropped == sent[old(tail)..][..done] && Count(panics[..done]) == 0
        decreases h - t
      {
        var value := TakeNext(h);
        dropped := dropped + [value];
        CountPrefix(panics, done);
        if panics[done] {
          outcome, dropped := Unwind(panics, dropped, old(tail));
          return;
        }
        t, done := t + 1, done + 1;
      }
      assert panics[..done] == panics;
      WindowEmpty(slots[..], sent, t);
      outcome := Clean;
    }

    /** Move `tail` past the oldest element, then destroy it. */
    method TakeNext(h: nat) returns (value: T)
      requires slots.Length > 0 && |sent| == h && tail < h <= tail + slots.Length && Window(slots[..], sent, tail, h)
      modifies this`tail, slots
      ensures tail == old(tail) + 1 && value == sent[old(tail)] && Window(slots[..], sent, tail, h)
    {
      var t := tail;
      tail := t + 1;
      WindowAdvance(slots[..], sent, t, h);
      assert slots[..][t % slots.Length] == Full(sent[t]);
      value := Read(t);
    }

    /** The guard's destructor: runs while the first panic unwinds and drains the rest. */
    method Unwind(panics: seq<bool>, before: seq<T>, ghost t0: nat) returns (outcome: DropOutcome, dropped: seq<T>)
      requires slots.Length > 0 && |sent| == head && t0 < tail <= head <= tail + slots.Length && |panics| == head - t0
      requires Window(slots[..], sent, tail, head)
      requires before == sent[t0..][..tail - t0] && Count(panics[..tail - t0]) == 1
      modifies this`tail, slots
      ensures outcome == if Count(panics) == 1 then Unwound else Aborted
      ensures Count(panics) >= 1
      ensures outcome.Unwound? ==> dropped == sent[t0..]
      ensures outcome.Unwound? ==> tail == head && forall k :: 0 <= k < slots.Length ==> !slots[k].Full?
      ensures outcome.Aborted? ==> exists j ::
        0 <= j < |panics| && panics[j] && Count(panics[..j]) == 1 && dropped == sent[t0..][..j + 1]
    {
      var h, t := head, tail;
      dropped := before;
      var done := |panics| - (h - t);
      CountPrefix(panics, done);
      while t != h
        invariant t0 < t <= h <= t + slots.Length && h == head == |sent| && tail == t && done == t - t0
        invariant Window(slots[..], sent, t, h)
        invariant dropped == sent[t0..][..done] && Count(panics[..done]) == 1
        decreases h - t
      {
        var value := TakeNext(h);
        dropped := dropped + [value];
        CountPrefix(panics, done);
        if panics[done] {
          CountPrefix(panics, done + 1);
          outcome := Aborted;
          return;
        }
        t, done := t + 1, done + 1;
      }
      assert panics[..done] == panics;
      WindowEmpty(slots[..], sent, t);
      outcome := Unwound;
    }
  }
}
