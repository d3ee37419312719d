/** The ring as the object of 02_LOB_Engine/include/LockFreeQueue.hpp: a buffer updated in place,
    two counters, and the locals of the call each thread is in. Each access is a method that
    takes exactly one step of the protocol. */
module SpscQueue {
  import opened MachineWords
  import opened Masking
  import opened SpscRing

  class LockFreeSPSCQueue<T> {
    const capacity: u64
    const buffer: array<Cell<T>>
    var head: u64
    var tail: u64
    var producer: Producer<T>
    var consumer: Consumer<T>
    ghost var pushed: seq<T>
    ghost var popped: seq<Cell<T>>
    ghost var seenHead: nat
    ghost var seenTail: nat

    ghost function Now(): State<T>
      reads this, buffer
    {
      State(capacity, buffer[..], head, tail, producer, consumer, false, pushed, popped, seenHead, seenTail)
    }

    ghost predicate Valid()
      reads this, buffer
    {
      Inv(Now())
    }

    constructor (capacity: u64)
      requires AssertHolds(capacity)
      ensures Valid() && fresh(buffer) && Now() == Start<T>(capacity)
    {
      this.capacity := capacity;
      buffer := new Cell<T>[capacity](_ => Raw);
      head, tail := 0, 0;
      producer, consumer := Resting, Waiting;
      pushed, popped, seenHead, seenTail := [], [], 0, 0;
      new;
      assert buffer[..] == seq(capacity, _ => Raw);
      RunKeepsInv<T>(capacity, []);
    }

    method LoadTailForPush(v: T)
      requires Valid() && producer.Resting?
      modifies this`producer
      ensures Now() == Next(old(Now()), LoadOwnTail(v))
    {
      producer := HasTail(v, tail);
    }

    /** The acquiring load, which returned `h`, the value of the head when it had counted `n`, and
        the test for room. */
    method LoadHeadForPush(h: u64, ghost n: nat)
      requires Valid() && producer.HasTail? && seenHead <= n <= |popped| && h == n % U64
      modifies this`producer, this`seenHead
      ensures Now() == Next(old(Now()), LoadHead(n))
    {
      seenHead := n;
      producer := if IsFull(producer.t, h, capacity) then Resting else MayWrite(producer.v, producer.t);
    }

    method BeginWrite()
      requires Valid() && producer.MayWrite?
      modifies this`producer, buffer
      ensures Now() == Next(old(Now()), StartWrite)
    {
      SlotsNeverCollide(Now());
      buffer[Slot(producer.t, capacity)] := Torn;
      producer := Writing(producer.v, producer.t);
    }

    method EndWrite()
      requires Valid() && producer.Writing?
      modifies this`producer, buffer
      ensures Now() == Next(old(Now()), FinishWrite)
    {
      SlotsNeverCollide(Now());
      buffer[Slot(producer.t, capacity)] := Full(producer.v);
      producer := Written(producer.v, producer.t);
    }

    method PublishTail()
      requires Valid() && producer.Written?
      modifies this`producer, this`tail, this`pushed
      ensures Now() == Next(old(Now()), StoreTail)
    {
      tail := (producer.t + 1) % U64;
      pushed := pushed + [producer.v];
      producer := Resting;
    }

    method LoadHeadForPop()
      requires Valid() && consumer.Waiting?
      modifies this`consumer
      ensures Now() == Next(old(Now()), LoadOwnHead)
    {
      consumer := HasHead(head);
    }

    /** The acquiring load, which returned `t`, the value of the tail when it had counted `n`, and
        the test for values. */
    method LoadTailForPop(t: u64, ghost n: nat)
      requires Valid() && consumer.HasHead? && seenTail <= n <= |pushed| && t == n % U64
      modifies this`consumer, this`seenTail
      ensures Now() == Next(old(Now()), LoadTail(n))
    {
      seenTail := n;
      consumer := if consumer.h == t then Waiting else MayRead(consumer.h);
    }

    method BeginRead()
      requires Valid() && consumer.MayRead?
      modifies this`consumer
      ensures Now() == Next(old(Now()), StartRead)
    {
      consumer := Reading(consumer.h);
    }

    method EndRead()
      requires Valid() && consumer.Reading?
      modifies this`consumer, buffer
      ensures Now() == Next(old(Now()), FinishRead)
    {
      SlotsNeverCollide(Now());
      var k := Slot(consumer.h, capacity);
      var item := buffer[k];
      buffer[k] := MovedFrom;
      consumer := HasItem(consumer.h, item);
    }

    method PublishHead()
      requires Valid() && consumer.HasItem?
      modifies this`consumer, this`head, this`popped
      ensures Now() == Next(old(Now()), StoreHead)
    {
      head := (consumer.h + 1) % U64;
      popped := popped + [consumer.item];
      consumer := Waiting;
    }

    /** `emplace` while the consumer is stopped anywhere inside its own call, when the load of the
        head returns `h`, its value at count `n`: the call succeeds exactly when fewer than
        `capacity` values lie between that count and the tail, and then adds `v` at the back. */
    method Emplace(v: T, h: u64, ghost n: nat) returns (ok: bool)
      requires Valid() && producer.Resting? && seenHead <= n <= |popped| && h == n % U64
      modifies this`producer, this`tail, this`pushed, this`seenHead, buffer
      ensures Valid() && producer.Resting?
      ensures ok <==> |old(pushed)| < n + capacity
      ensures n == |popped| ==> (ok <==> |old(Contents(Now()))| < capacity)
      ensures Contents(Now()) == if ok then old(Contents(Now())) + [v] else old(Contents(Now()))
    {
      hide Inv, Slot, IsFull, Put, Get;
      ghost var s0 := Now();
      CountersBound(s0);
      LoadTailForPush(v);
      StepIsQueueStep(s0, LoadOwnTail(v));
      ghost var s1 := Now();
      LoadHeadForPush(h, n);
      StepIsQueueStep(s1, LoadHead(n));
      TestsAreExact(s1, n);
      if producer.Resting? {
        return false;
      }
      ghost var s2 := Now();
      BeginWrite();
      StepIsQueueStep(s2, StartWrite);
      ghost var s3 := Now();
      EndWrite();
      StepIsQueueStep(s3, FinishWrite);
      ghost var s4 := Now();
      PublishTail();
      StepIsQueueStep(s4, StoreTail);
      ok := true;
    }

    /** Both loads of `pop`, the second of which returns `t`, the tail's value at count `n`. */
    method LookForValue(t: u64, ghost n: nat) returns (found: bool)
      requires Valid() && consumer.Waiting? && seenTail <= n <= |pushed| && t == n % U64
      modifies this`consumer, this`seenTail
      ensures Valid() && Contents(Now()) == old(Contents(Now()))
      ensures found <==> n != |popped|
      ensures n == |pushed| ==> (found <==> Contents(Now()) != [])
      ensures if found then consumer.MayRead? else consumer.Waiting?
    {
      hide Inv, Slot, IsFull, Put, Get;
      ghost var s0 := Now();
      CountersBound(s0);
      LoadHeadForPop();
      StepIsQueueStep(s0, LoadOwnHead);
      ghost var s1 := Now();
      LoadTailForPop(t, n);
      StepIsQueueStep(s1, LoadTail(n));
      TestsAreExact(s1, n);
      found := consumer.MayRead?;
    }

    /** The move out of the slot and the store of the head. */
    method TakeValue() returns (item: Cell<T>)
      requires Valid() && consumer.MayRead?
      modifies this`consumer, this`head, this`popped, buffer
      ensures Valid() && consumer.Waiting?
      ensures old(Contents(Now())) != [] && item == Full(old(Contents(Now()))[0])
      ensures Contents(Now()) == old(Contents(Now()))[1..]
    {
      hide Inv, Slot, IsFull, Put, Get;
      ghost var s2 := Now();
      BeginRead();
      StepIsQueueStep(s2, StartRead);
      ghost var s3 := Now();
      EndRead();
      StepIsQueueStep(s3, FinishRead);
      ghost var s4 := Now();
      item := consumer.item;
      PublishHead();
      StepIsQueueStep(s4, StoreHead);
    }

    /** `pop` while the producer is stopped anywhere inside its own call, when the load of the tail
        returns `t`, its value at count `n`: the call succeeds exactly when that count is past the
        head, and then takes the oldest value. */
    method Pop(t: u64, ghost n: nat) returns (item: Cell<T>, ok: bool)
      requires Valid() && consumer.Waiting? && seenTail <= n <= |pushed| && t == n % U64
      modifies this`consumer, this`head, this`popped, this`seenTail, buffer
      ensures Valid() && consumer.Waiting?
      ensures ok <==> n != |old(popped)|
      ensures n == |pushed| ==> (ok <==> old(Contents(Now())) != [])
      ensures ok ==> old(Contents(Now())) != [] && item == Full(old(Contents(Now()))[0])
      ensures Contents(Now()) == if ok then old(Contents(Now()))[1..] else old(Contents(Now()))
    {
      hide Inv;
      item := Raw;
      ok := LookForValue(t, n);
      if ok {
        item := TakeValue();
      }
    }
  }
}
