/** The single-producer single-consumer ring (02_LOB_Engine/include/LockFreeQueue.hpp).

    Every load, slot access and store of `emplace` and `pop` is a step of its own, so a list of
    steps is an interleaving. A load of the other thread's counter may return any value between
    the last one seen and the current one (acquire and release, [atomics.order] of ISO C++20).
    The real counters are 64-bit words; `pushed` and `popped` count without bound. */
module SpscRing {
  import opened MachineWords
  import opened Masking

  /** A slot as the threads find it: `Torn` while an assignment to it is under way. */
  datatype Cell<T> = Raw | Torn | Full(value: T) | MovedFrom

  /** Where the producer is inside `emplace(v)`, with its locals. */
  datatype Producer<T> =
    | Resting
    | HasTail(v: T, t: u64)
    | MayWrite(v: T, t: u64)
    | Writing(v: T, t: u64)
    | Written(v: T, t: u64)

  /** Where the consumer is inside `pop(item)`, with its locals. */
  datatype Consumer<T> =
    | Waiting
    | HasHead(h: u64)
    | MayRead(h: u64)
    | Reading(h: u64)
    | HasItem(h: u64, item: Cell<T>)

  datatype Step<T> =
    | LoadOwnTail(v: T)
    | LoadHead(n: nat)
    | StartWrite
    | FinishWrite
    | StoreTail
    | LoadOwnHead
    | LoadTail(n: nat)
    | StartRead
    | FinishRead
    | StoreHead

  /** `seenHead` and `seenTail` are the latest counter values the other thread has loaded;
      `wild` records an access outside the buffer. */
  datatype State<T> = State(
    capacity: u64,
    buffer: seq<Cell<T>>,
    head: u64,
    tail: u64,
    producer: Producer<T>,
    consumer: Consumer<T>,
    wild: bool,
    pushed: seq<T>,
    popped: seq<Cell<T>>,
    seenHead: nat,
    seenTail: nat)

  /** The masked index of both threads. */
  function Slot(counter: u64, capacity: u64): nat {
    BitAnd(counter, (capacity - 1) % U64)
  }

  predicate IsFull(t: u64, h: u64, capacity: u64) {
    (t - h) % U64 >= capacity
  }

  function Put<T>(s: State<T>, slot: nat, c: Cell<T>): State<T> {
    if slot < |s.buffer| then s.(buffer := s.buffer[slot := c]) else s.(wild := true)
  }

  function Get<T>(buffer: seq<Cell<T>>, slot: nat): Cell<T> {
    if slot < |buffer| then buffer[slot] else Raw
  }

  function Start<T>(capacity: u64): State<T> {
    State(capacity, seq(capacity, _ => Raw), 0, 0, Resting, Waiting, false, [], [], 0, 0)
  }

  predicate Enabled<T>(s: State<T>, step: Step<T>) {
    match step
    case LoadOwnTail(_) => s.producer.Resting?
    case LoadHead(n) => s.producer.HasTail? && s.seenHead <= n <= |s.popped|
    case StartWrite => s.producer.MayWrite?
    case FinishWrite => s.producer.Writing?
    case StoreTail => s.producer.Written?
    case LoadOwnHead => s.consumer.Waiting?
    case LoadTail(n) => s.consumer.HasHead? && s.seenTail <= n <= |s.pushed|
    case StartRead => s.consumer.MayRead?
    case FinishRead => s.consumer.Reading?
    case StoreHead => s.consumer.HasItem?
  }

  function Next<T>(s: State<T>, step: Step<T>): State<T>
    requires Enabled(s, step)
  {
    match step
    case LoadOwnTail(v) =>
      s.(producer := HasTail(v, s.tail))
    case LoadHead(n) =>
      var p := s.producer;
      s.(seenHead := n, producer := if IsFull(p.t, n % U64, s.capacity) then Resting else MayWrite(p.v, p.t))
    case StartWrite =>
      Put(s, Slot(s.producer.t, s.capacity), Torn).(producer := Writing(s.producer.v, s.producer.t))
    case FinishWrite =>
      var p := s.producer;
      Put(s, Slot(p.t, s.capacity), Full(p.v)).(producer := Written(p.v, p.t))
    case StoreTail =>
      s.(tail := (s.producer.t + 1) % U64, pushed := s.pushed + [s.producer.v], producer := Resting)
    case LoadOwnHead =>
      s.(consumer := HasHead(s.head))
    case LoadTail(n) =>
      s.(seenTail := n, consumer := if s.consumer.h == n % U64 then Waiting else MayRead(s.consumer.h))
    case StartRead =>
      s.(consumer := Reading(s.consumer.h))
    case FinishRead =>
      var k := Slot(s.consumer.h, s.capacity);
      Put(s, k, MovedFrom).(consumer := HasItem(s.consumer.h, Get(s.buffer, k)))
    case StoreHead =>
      s.(head := (s.consumer.h + 1) % U64, popped := s.popped + [s.consumer.item], consumer := Waiting)
  }

  /** The state after an interleaving; a step that the schedule cannot take is skipped. */
  function Run<T>(capacity: u64, steps: seq<Step<T>>): State<T> {
    if steps == [] then Start(capacity)
    else
      var s := Run(capacity, steps[..|steps| - 1]);
      if Enabled(s, steps[|steps| - 1]) then Next(s, steps[|steps| - 1]) else s
  }

  /** The producer has passed its test and not yet published. */
  predicate OwnsSlot<T>(p: Producer<T>) {
    p.MayWrite? || p.Writing? || p.Written?
  }

  /** The consumer has passed its test and not yet published. */
  predicate OwnsHead<T>(c: Consumer<T>) {
    c.MayRead? || c.Reading? || c.HasItem?
  }

  ghost predicate CountersOk<T>(s: State<T>) {
    && s.head == |s.popped| % U64
    && s.tail == |s.pushed| % U64
    && s.seenHead <= |s.popped| <= s.seenTail <= |s.pushed| <= s.seenHead + s.capacity
  }

  /** The slot of the `i`-th value. */
  function At(i: nat, capacity: u64): nat {
    Slot(i % U64, capacity)
  }

  ghost predicate ProducerOk<T>(s: State<T>) {
    && (!s.producer.Resting? ==> s.producer.t == |s.pushed| % U64)
    && (OwnsSlot(s.producer) ==> |s.pushed| < s.seenHead + s.capacity)
    && (s.producer.Written? ==> Get(s.buffer, At(|s.pushed|, s.capacity)) == Full(s.producer.v))
  }

  ghost predicate ConsumerOk<T>(s: State<T>) {
    && (!s.consumer.Waiting? ==> s.consumer.h == |s.popped| % U64)
    && (OwnsHead(s.consumer) ==> |s.popped| < s.seenTail)
    && (s.consumer.HasItem? && |s.popped| < |s.pushed| ==> s.consumer.item == Full(s.pushed[|s.popped|]))
  }

  /** The values from `lo` on are exactly the buffer window, but that the first may have been
      moved out. */
  ghost predicate WindowOk<T>(buffer: seq<Cell<T>>, capacity: u64, pushed: seq<T>, lo: nat, moved: bool) {
    forall i {:trigger pushed[i]} | lo <= i < |pushed| ::
      Get(buffer, At(i, capacity)) == if moved && i == lo then MovedFrom else Full(pushed[i])
  }

  ghost predicate PoppedOk<T>(s: State<T>)
    requires |s.popped| <= |s.pushed|
  {
    forall i {:trigger s.popped[i]} | 0 <= i < |s.popped| :: s.popped[i] == Full(s.pushed[i])
  }

  ghost predicate Inv<T>(s: State<T>) {
    && AssertHolds(s.capacity) && |s.buffer| == s.capacity && !s.wild
    && CountersOk(s) && ProducerOk(s) && ConsumerOk(s)
    && WindowOk(s.buffer, s.capacity, s.pushed, |s.popped|, s.consumer.HasItem?) && PoppedOk(s)
  }

  lemma {:induction false} BigPowers(k: nat)
    ensures k >= 64 ==> Pow2(k) >= U64
  {
    if k >= 64 {
      WordIsPow2();
      Pow2Adds(64, k - 64);
      AtLeastOnce(U64, Pow2(k - 64));
    }
  }

  /** The masked wrapped counter is the true counter's slot. */
  lemma SlotOfCounter(i: nat, capacity: u64)
    requires AssertHolds(capacity) && capacity > 0
    ensures Slot(i % U64, capacity) == i % capacity
  {
    hide BitAnd, Pow2;
    AssertMeansPowerOfTwo(capacity);
    var k: nat :| capacity == Pow2(k);
    BigPowers(k);
    assert (capacity - 1) % U64 == capacity - 1;
    MaskedWrapIsSlot(i, k);
  }

  lemma NextCounter(n: nat)
    ensures (n % U64 + 1) % U64 == (n + 1) % U64
  {
  }

  /** The two wrapped tests decide exactly, for the value loaded, whatever the counters have
      wrapped to: full means that `capacity` values lie between the loaded head and the tail,
      and a fresh load decides the queue itself. */
  lemma TestsAreExact<T>(s: State<T>, n: nat)
    requires Inv(s)
    ensures Enabled(s, LoadHead(n)) ==>
              (Next(s, LoadHead(n)).producer.Resting? <==> |s.pushed| == n + s.capacity)
    ensures Enabled(s, LoadTail(n)) ==>
              (Next(s, LoadTail(n)).consumer.Waiting? <==> n == |s.popped|)
  {
    if Enabled(s, LoadHead(n)) {
      if |s.pushed| < n {
        assert false;
      }
      WrappedDifference(|s.pushed|, n);
    }
    if Enabled(s, LoadTail(n)) {
      WrappedDifference(n, |s.popped|);
    }
  }

  /** Values that can be in the queue together have slots of their own, inside the buffer. */
  lemma SlotsAreDistinct(i: nat, j: nat, capacity: u64)
    requires AssertHolds(capacity) && i < j < i + capacity
    ensures At(i, capacity) != At(j, capacity)
    ensures At(i, capacity) < capacity && At(j, capacity) < capacity
  {
    SlotOfCounter(i, capacity);
    SlotOfCounter(j, capacity);
    CloseCountersDiffer(i, j, capacity);
  }

  lemma SlotIsInside(i: nat, capacity: u64)
    requires AssertHolds(capacity) && capacity > 0
    ensures At(i, capacity) == i % capacity < capacity
  {
    SlotOfCounter(i, capacity);
  }

  /** Whenever each thread holds the right to a slot, the two masked indices differ and lie in
      the buffer: there is no data race, in any interleaving, at any counter value. */
  lemma SlotsNeverCollide<T>(s: State<T>)
    requires Inv(s)
    ensures OwnsSlot(s.producer) ==> Slot(s.producer.t, s.capacity) == At(|s.pushed|, s.capacity) < |s.buffer|
    ensures OwnsHead(s.consumer) ==> Slot(s.consumer.h, s.capacity) == At(|s.popped|, s.capacity) < |s.buffer|
    ensures OwnsSlot(s.producer) && OwnsHead(s.consumer) ==>
              Slot(s.producer.t, s.capacity) != Slot(s.consumer.h, s.capacity)
  {
    hide BitAnd, AssertHolds;
    if OwnsSlot(s.producer) || OwnsHead(s.consumer) {
      SlotIsInside(|s.pushed|, s.capacity);
      SlotIsInside(|s.popped|, s.capacity);
      if OwnsSlot(s.producer) && OwnsHead(s.consumer) {
        SlotsAreDistinct(|s.popped|, |s.pushed|, s.capacity);
      }
    }
  }

  lemma WriteKeepsInv<T>(s: State<T>, step: Step<T>)
    requires Inv(s) && Enabled(s, step) && (step.StartWrite? || step.FinishWrite?)
    ensures Inv(Next(s, step))
  {
    SlotsNeverCollide(s);
    hide At, Slot, AssertHolds;
    forall i | |s.popped| <= i < |s.pushed| ensures At(i, s.capacity) != At(|s.pushed|, s.capacity) {
      SlotsAreDistinct(i, |s.pushed|, s.capacity);
    }
  }

  lemma ReadKeepsInv<T>(s: State<T>)
    requires Inv(s) && Enabled(s, FinishRead)
    ensures Inv(Next(s, FinishRead))
  {
    SlotsNeverCollide(s);
    hide At, Slot, AssertHolds;
    assert Get(s.buffer, At(|s.popped|, s.capacity)) == Full(s.pushed[|s.popped|]);
    forall i | |s.popped| < i < |s.pushed| ensures At(i, s.capacity) != At(|s.popped|, s.capacity) {
      SlotsAreDistinct(|s.popped|, i, s.capacity);
    }
    if s.producer.Written? {
      SlotsAreDistinct(|s.popped|, |s.pushed|, s.capacity);
    }
  }

  lemma StoreTailKeepsInv<T>(s: State<T>)
    requires Inv(s) && Enabled(s, StoreTail)
    ensures Inv(Next(s, StoreTail))
  {
    hide At, Slot, AssertHolds;
    var s' := Next(s, StoreTail);
    NextCounter(|s.pushed|);
    assert CountersOk(s');
    forall i | |s.popped| <= i < |s'.pushed|
      ensures Get(s.buffer, At(i, s.capacity))
           == if s.consumer.HasItem? && i == |s.popped| then MovedFrom else Full(s'.pushed[i])
    {
      assert i < |s.pushed| ==> s'.pushed[i] == s.pushed[i];
    }
  }

  lemma StoreHeadKeepsInv<T>(s: State<T>)
    requires Inv(s) && Enabled(s, StoreHead)
    ensures Inv(Next(s, StoreHead))
  {
    hide At, Slot, AssertHolds;
    var s' := Next(s, StoreHead);
    NextCounter(|s.popped|);
    assert CountersOk(s');
    assert forall i {:trigger s'.popped[i]} | 0 <= i < |s.popped| :: s'.popped[i] == s.popped[i];
  }

  lemma LoadKeepsInv<T>(s: State<T>, step: Step<T>)
    requires Inv(s) && Enabled(s, step)
    requires step.LoadOwnTail? || step.LoadHead? || step.LoadOwnHead? || step.LoadTail? || step.StartRead?
    ensures Inv(Next(s, step))
  {
    hide At, Slot, AssertHolds;
    if step.LoadHead? || step.LoadTail? {
      TestsAreExact(s, step.n);
    }
  }

  lemma StepKeepsInv<T>(s: State<T>, step: Step<T>)
    requires Inv(s) && Enabled(s, step)
    ensures Inv(Next(s, step))
  {
    hide Inv, Next;
    match step
    case LoadOwnTail(_) => LoadKeepsInv(s, step);
    case LoadHead(_) => LoadKeepsInv(s, step);
    case LoadOwnHead => LoadKeepsInv(s, step);
    case LoadTail(_) => LoadKeepsInv(s, step);
    case StartRead => LoadKeepsInv(s, step);
    case StartWrite => WriteKeepsInv(s, step);
    case FinishWrite => WriteKeepsInv(s, step);
    case FinishRead => ReadKeepsInv(s);
    case StoreTail => StoreTailKeepsInv(s);
    case StoreHead => StoreHeadKeepsInv(s);
  }

  lemma {:induction false} RunKeepsInv<T>(capacity: u64, steps: seq<Step<T>>)
    requires AssertHolds(capacity)
    ensures Inv(Run(capacity, steps))
  {
    if steps != [] {
      var last := |steps| - 1;
      RunKeepsInv(capacity, steps[..last]);
      var s := Run(capacity, steps[..last]);
      if Enabled(s, steps[last]) {
        StepKeepsInv(s, steps[last]);
      }
    }
  }

  /** The queue the two threads believe in. */
  function Contents<T>(s: State<T>): seq<T>
    requires |s.popped| <= |s.pushed|
  {
    s.pushed[|s.popped|..]
  }

  /** In every interleaving the popped values are a prefix of the pushed ones, and the rest is
      in the buffer, at most `capacity` of it: nothing is lost, duplicated or reordered. */
  lemma {:induction false} NothingLostOrReordered<T>(capacity: u64, steps: seq<Step<T>>)
    requires AssertHolds(capacity)
    ensures var s := Run(capacity, steps);
            && |s.popped| <= |s.pushed| <= |s.popped| + capacity
            && (forall i | 0 <= i < |s.popped| :: s.popped[i] == Full(s.pushed[i]))
            && (forall i | |s.popped| <= i < |s.pushed| ::
                  && capacity > 0 && |s.buffer| == capacity
                  && s.buffer[i % capacity]
                     == if s.consumer.HasItem? && i == |s.popped| then MovedFrom else Full(s.pushed[i]))
  {
    hide Run, At, Slot, AssertHolds;
    RunKeepsInv(capacity, steps);
    RunCapacity(capacity, steps);
    var s := Run(capacity, steps);
    forall i | |s.popped| <= i < |s.pushed|
      ensures capacity > 0 && |s.buffer| == capacity
      ensures s.buffer[i % capacity]
           == if s.consumer.HasItem? && i == |s.popped| then MovedFrom else Full(s.pushed[i])
    {
      SlotIsInside(i, s.capacity);
      var _ := s.pushed[i];
    }
  }

  lemma {:induction false} RunCapacity<T>(capacity: u64, steps: seq<Step<T>>)
    ensures Run(capacity, steps).capacity == capacity
  {
    if steps != [] {
      RunCapacity(capacity, steps[..|steps| - 1]);
    }
  }

  /** No interleaving makes the threads touch the same slot, or any slot outside the buffer. */
  lemma {:induction false} NoRaces<T>(capacity: u64, steps: seq<Step<T>>)
    requires AssertHolds(capacity)
    ensures var s := Run(capacity, steps);
            && !s.wild
            && (OwnsSlot(s.producer) && OwnsHead(s.consumer) ==>
                  Slot(s.producer.t, capacity) != Slot(s.consumer.h, capacity))
  {
    hide Run;
    RunKeepsInv(capacity, steps);
    RunCapacity(capacity, steps);
    SlotsNeverCollide(Run(capacity, steps));
  }

  /** What the consumer is about to read was completely written, and published before the tail
      it loaded; what the producer is about to overwrite was read, and given back before the
      head it loaded. */
  lemma {:induction false} AccessesAreOrdered<T>(capacity: u64, steps: seq<Step<T>>)
    requires AssertHolds(capacity)
    ensures var s := Run(capacity, steps);
            && (s.consumer.MayRead? || s.consumer.Reading? ==>
                  && |s.popped| < s.seenTail <= |s.pushed|
                  && Get(s.buffer, Slot(s.consumer.h, capacity)) == Full(s.pushed[|s.popped|]))
            && (OwnsSlot(s.producer) ==>
                  |s.pushed| - capacity < s.seenHead <= |s.popped|)
  {
    hide Run;
    RunKeepsInv(capacity, steps);
    RunCapacity(capacity, steps);
    SlotsNeverCollide(Run(capacity, steps));
  }

  lemma CountersBound<T>(s: State<T>)
    requires Inv(s)
    ensures s.seenHead <= |s.popped| <= s.seenTail <= |s.pushed| <= s.seenHead + s.capacity
  {
  }

  /** Each step is a step of a bounded queue, which changes only at the two stores: the tail's
      adds at the back while there is room, the head's takes the value at the front. */
  lemma StepIsQueueStep<T>(s: State<T>, step: Step<T>)
    requires Inv(s) && Enabled(s, step)
    ensures Inv(Next(s, step)) && |Contents(s)| <= s.capacity
    ensures step.StoreTail? ==>
              |Contents(s)| < s.capacity && Contents(Next(s, step)) == Contents(s) + [s.producer.v]
    ensures step.StoreHead? ==>
              && Contents(s) != [] && s.consumer.item == Full(Contents(s)[0])
              && Contents(Next(s, step)) == Contents(s)[1..]
    ensures !step.StoreTail? && !step.StoreHead? ==> Contents(Next(s, step)) == Contents(s)
  {
    hide BitAnd, AssertHolds;
    StepKeepsInv(s, step);
    if step.StoreTail? {
      assert (s.pushed + [s.producer.v])[|s.popped|..] == s.pushed[|s.popped|..] + [s.producer.v];
    }
  }

  /** `size()` on a quiet queue. */
  function Size(head: u64, tail: u64): u64 {
    if tail >= head then tail - head else 0
  }

  /** It counts the queue exactly until the tail alone has wrapped, when it reports 0 (and
      `empty()` reports true) for a queue that holds values. */
  lemma SizeIsExactUntilTheTailWraps<T>(s: State<T>)
    requires Inv(s)
    ensures Size(s.head, s.tail) == |Contents(s)| <==> s.head <= s.tail
    ensures s.tail < s.head ==> Size(s.head, s.tail) == 0 && Contents(s) != []
  {
    WrappedDifference(|s.pushed|, |s.popped|);
  }

  /** Neither thread is inside a call. */
  predicate AtRest<T>(s: State<T>) {
    s.producer.Resting? && s.consumer.Waiting?
  }

  /** The steps of one uninterrupted `emplace(v)` that loads the newest head. */
  function PushSteps<T>(v: T, n: nat): seq<Step<T>> {
    [LoadOwnTail(v)] + [LoadHead(n)] + [StartWrite] + [FinishWrite] + [StoreTail]
  }

  /** The steps of one uninterrupted `pop` that loads the newest tail. */
  function PopSteps<T>(n: nat): seq<Step<T>> {
    [LoadOwnHead] + [LoadTail(n)] + [StartRead] + [FinishRead] + [StoreHead]
  }

  lemma {:induction false} RunOneMore<T>(capacity: u64, steps: seq<Step<T>>, step: Step<T>)
    ensures var s := Run(capacity, steps);
            Run(capacity, steps + [step]) == if Enabled(s, step) then Next(s, step) else s
  {
    assert (steps + [step])[..|steps|] == steps;
    hide Enabled, Next;
  }

  lemma {:induction false} RunFiveMore<T>(capacity: u64, steps: seq<Step<T>>, a: Step<T>, b: Step<T>, c: Step<T>,
                                          d: Step<T>, e: Step<T>)
    ensures var t := Run(capacity, steps + [a] + [b] + [c] + [d]);
            Run(capacity, steps + ([a] + [b] + [c] + [d] + [e])) == if Enabled(t, e) then Next(t, e) else t
  {
    hide Run, Enabled, Next;
    assert steps + ([a] + [b] + [c] + [d] + [e]) == (steps + [a] + [b] + [c] + [d]) + [e];
    RunOneMore(capacity, steps + [a] + [b] + [c] + [d], e);
  }

  lemma {:induction false} OnePush<T>(capacity: u64, steps: seq<Step<T>>, v: T)
    requires AssertHolds(capacity)
    requires var s := Run(capacity, steps); AtRest(s) && |s.pushed| < |s.popped| + capacity
    ensures var s := Run(capacity, steps);
            var t := Run(capacity, steps + PushSteps(v, |s.popped|));
            AtRest(t) && t.pushed == s.pushed + [v] && t.popped == s.popped && t.seenTail == s.seenTail
  {
    hide Run, Inv, Slot, IsFull, Get, AssertHolds;
    var s := Run(capacity, steps);
    var n := |s.popped|;
    RunKeepsInv(capacity, steps);
    RunCapacity(capacity, steps);
    CountersBound(s);
    var one := steps + [LoadOwnTail(v)];
    RunOneMore(capacity, steps, LoadOwnTail(v));
    RunKeepsInv(capacity, one);
    TestsAreExact(Run(capacity, one), n);
    RunOneMore(capacity, one, LoadHead(n));
    RunOneMore(capacity, one + [LoadHead(n)], StartWrite);
    RunOneMore(capacity, one + [LoadHead(n)] + [StartWrite], FinishWrite);
    RunFiveMore(capacity, steps, LoadOwnTail(v), LoadHead(n), StartWrite, FinishWrite, StoreTail);
  }

  lemma {:induction false} OnePop<T>(capacity: u64, steps: seq<Step<T>>)
    requires AssertHolds(capacity)
    requires var s := Run(capacity, steps); AtRest(s) && |s.popped| < |s.pushed|
    ensures var s := Run(capacity, steps);
            var t := Run(capacity, steps + PopSteps(|s.pushed|));
            AtRest(t) && t.pushed == s.pushed && |t.popped| == |s.popped| + 1 && t.seenHead == s.seenHead
  {
    hide Run, Inv, Slot, IsFull, Get, AssertHolds;
    var s := Run(capacity, steps);
    var n := |s.pushed|;
    RunKeepsInv(capacity, steps);
    CountersBound(s);
    var one := steps + [LoadOwnHead];
    RunOneMore(capacity, steps, LoadOwnHead);
    RunKeepsInv(capacity, one);
    TestsAreExact(Run(capacity, one), n);
    RunOneMore(capacity, one, LoadTail(n));
    RunOneMore(capacity, one + [LoadTail(n)], StartRead);
    RunOneMore(capacity, one + [LoadTail(n)] + [StartRead], FinishRead);
    RunFiveMore(capacity, steps, LoadOwnHead, LoadTail(n), StartRead, FinishRead, StoreHead);
  }

  /** `n` values go through an otherwise empty queue, one at a time. */
  lemma {:induction false} Cycles<T>(capacity: u64, v: T, n: nat) returns (steps: seq<Step<T>>)
    requires AssertHolds(capacity) && capacity > 0
    ensures var s := Run(capacity, steps); AtRest(s) && |s.pushed| == |s.popped| == n
  {
    if n == 0 {
      steps := [];
    } else {
      var before := Cycles(capacity, v, n - 1);
      var s := Run(capacity, before);
      hide Run, AssertHolds;
      OnePush(capacity, before, v);
      var pushed := before + PushSteps(v, |s.popped|);
      OnePop(capacity, pushed);
      steps := pushed + PopSteps(|Run(capacity, pushed).pushed|);
    }
  }

  /** Every queue that can hold anything gets there: after 2^64 - 1 values have gone through, one more
      wraps the tail alone, and `size()` reports 0 over it. */
  lemma TailWrapsAlone<T>(capacity: u64, v: T) returns (steps: seq<Step<T>>)
    requires AssertHolds(capacity) && capacity > 0
    ensures var s := Run(capacity, steps);
            AtRest(s) && s.tail < s.head && Size(s.head, s.tail) == 0 && |s.pushed| == |s.popped| + 1
  {
    hide Run, AssertHolds, BitAnd;
    var before := Cycles(capacity, v, U64 - 1);
    var s := Run(capacity, before);
    OnePush(capacity, before, v);
    steps := before + PushSteps(v, |s.popped|);
    RunKeepsInv(capacity, steps);
  }

  /** `n` pushes with no pop between them. */
  lemma {:induction false} Fills<T>(capacity: u64, v: T, n: nat) returns (steps: seq<Step<T>>)
    requires AssertHolds(capacity) && n <= capacity
    ensures var s := Run(capacity, steps); AtRest(s) && |s.pushed| == n && |s.popped| == 0 && s.seenTail == 0
  {
    if n == 0 {
      steps := [];
    } else {
      var before := Fills(capacity, v, n - 1);
      hide Run, AssertHolds;
      OnePush(capacity, before, v);
      steps := before + PushSteps(v, 0);
    }
  }

  /** A stale load of the head refuses a value though the queue has room for it. */
  lemma {:induction false} StaleHeadHidesRoom<T>(capacity: u64, v: T) returns (steps: seq<Step<T>>)
    requires AssertHolds(capacity) && capacity > 0
    ensures var s := Run(capacity, steps);
            AtRest(s) && |s.pushed| == capacity && |s.popped| == 1
    ensures Run(capacity, steps + [LoadOwnTail(v)]).producer.HasTail?
    ensures Run(capacity, steps + [LoadOwnTail(v)] + [LoadHead(0)]) == Run(capacity, steps)
  {
    hide Run, AssertHolds, BitAnd, Slot;
    var before := Fills(capacity, v, capacity);
    OnePop(capacity, before);
    RunKeepsInv(capacity, before);
    steps := before + PopSteps(capacity);
    var one := steps + [LoadOwnTail(v)];
    RunKeepsInv(capacity, steps);
    RunOneMore(capacity, steps, LoadOwnTail(v));
    RunCapacity(capacity, one);
    RunKeepsInv(capacity, one);
    TestsAreExact(Run(capacity, one), 0);
    RunOneMore(capacity, one, LoadHead(0));
  }

  /** A stale load of the tail finds no value though the queue is full. */
  lemma {:induction false} StaleTailHidesValues<T>(capacity: u64, v: T) returns (steps: seq<Step<T>>)
    requires AssertHolds(capacity) && capacity > 0
    ensures var s := Run(capacity, steps);
            AtRest(s) && |s.pushed| == capacity && |s.popped| == 0
    ensures Run(capacity, steps + [LoadOwnHead]).consumer.HasHead?
    ensures Run(capacity, steps + [LoadOwnHead] + [LoadTail(0)]) == Run(capacity, steps)
  {
    hide Run, AssertHolds, BitAnd, Slot;
    steps := Fills(capacity, v, capacity);
    var one := steps + [LoadOwnHead];
    RunOneMore(capacity, steps, LoadOwnHead);
    RunKeepsInv(capacity, one);
    TestsAreExact(Run(capacity, one), 0);
    RunOneMore(capacity, one, LoadTail(0));
  }
}
