/** What holds over whole runs of the engine: any sequence of submissions and cancellations, from any good
    state, exhausted calls included. */
module Runs {
  import opened MachineWords
  import opened MatchingTypes
  import opened PriorityBook
  import opened FlatBook
  import opened BookLaws
  import opened LevelBook
  import opened Engine
  import opened Volumes

  function Run(e: State, ops: seq<Op>): State
    decreases |ops|
  {
    if ops == [] then e else Run(Step(e, ops[0]).0, ops[1..])
  }

  /** All trades of a run, in order. */
  function Tape(e: State, ops: seq<Op>): seq<Trade>
    decreases |ops|
  {
    if ops == [] then [] else TradesOf(Step(e, ops[0]).1) + Tape(Step(e, ops[0]).0, ops[1..])
  }

  lemma {:induction false} RunKeepsOk(e: State, ops: seq<Op>)
    requires Ok(e)
    ensures Ok(Run(e, ops))
    decreases |ops|
  {
    if ops != [] {
      StepKeepsOk(e, ops[0]);
      RunKeepsOk(Step(e, ops[0]).0, ops[1..]);
    }
  }

  // ---------------------------------------------------------------------------------------------
  // Never crossed
  // ---------------------------------------------------------------------------------------------

  /** In every reachable state each bid is priced strictly below each ask. */
  lemma {:induction false} NeverCrossed(orderCap: nat, levelCap: nat, ops: seq<Op>, i: nat, j: nat)
    requires var e := Run(Empty(orderCap, levelCap), ops); i < |e.bids| && j < |e.asks|
    ensures var e := Run(Empty(orderCap, levelCap), ops); e.bids[i].price < e.asks[j].price
  {
    EmptyIsOk(orderCap, levelCap);
    RunKeepsOk(Empty(orderCap, levelCap), ops);
    LevelsUncrossed(Run(Empty(orderCap, levelCap), ops), i, j);
  }

  // ---------------------------------------------------------------------------------------------
  // Conservation
  // ---------------------------------------------------------------------------------------------

  /** Quantity an operation brings into the engine, takes out by cancelling, or drops. */
  function Accepted(e: State, op: Op): nat {
    match op
    case Add(t, qty) => if Step(e, op).1.Done? && !Live(e.Flattened(), t.id) then qty else 0
    case Cancel(_) => 0
  }

  function Cancelled(e: State, op: Op): nat {
    match op
    case Add(_, _) => 0
    case Cancel(id) => QtyOf(id, Flat(e.bids)) + QtyOf(id, Flat(e.asks))
  }

  function Dropped(e: State, op: Op): nat {
    match op
    case Add(t, qty) =>
      if qty > 0 && Step(e, op).1.Done? && !Live(e.Flattened(), t.id) then Discarded(e.Flattened(), t, qty) else 0
    case Cancel(_) => 0
  }

  function Total(e: State, ops: seq<Op>, f: (State, Op) -> nat): nat
    decreases |ops|
  {
    if ops == [] then 0 else f(e, ops[0]) + Total(Step(e, ops[0]).0, ops[1..], f)
  }

  lemma StepConserves(e: State, op: Op)
    requires Ok(e)
    ensures TotalResting(e.Flattened()) + Accepted(e, op)
            == TotalResting(Step(e, op).0.Flattened()) + 2 * Volume(TradesOf(Step(e, op).1))
               + Cancelled(e, op) + Dropped(e, op)
  {
    match op
    case Add(t, qty) =>
      AddRefines(e, t, qty);
      if qty > 0 && !Live(e.Flattened(), t.id) {
        SubmitConserves(e.Flattened(), t, qty);
      }
    case Cancel(id) =>
      CancelRefines(e, id);
      WithdrawConserves(e.Flattened(), id);
  }

  /** Over any run: what came in is what still rests, twice what traded, what was cancelled and what was
      dropped from orders that may not rest. */
  lemma {:induction false} RunConserves(e: State, ops: seq<Op>)
    requires Ok(e)
    ensures TotalResting(e.Flattened()) + Total(e, ops, Accepted)
            == TotalResting(Run(e, ops).Flattened()) + 2 * Volume(Tape(e, ops))
               + Total(e, ops, Cancelled) + Total(e, ops, Dropped)
    decreases |ops|
  {
    if ops != [] {
      var e' := Step(e, ops[0]).0;
      StepConserves(e, ops[0]);
      StepKeepsOk(e, ops[0]);
      RunConserves(e', ops[1..]);
      VolumeOfConcat(TradesOf(Step(e, ops[0]).1), Tape(e', ops[1..]));
    }
  }

  /** The statistics counters are the number and the volume of all returned trades, modulo 2^64. */
  lemma {:induction false} CountersFollowTheTape(e: State, ops: seq<Op>)
    requires Ok(e)
    ensures SameCounters(Run(e, ops), Counted(e, Tape(e, ops)))
    decreases |ops|
  {
    if ops != [] {
      var (e', out) := Step(e, ops[0]);
      StepCounts(e, ops[0]);
      StepKeepsOk(e, ops[0]);
      CountersFollowTheTape(e', ops[1..]);
      CountedAlike(e', Counted(e, TradesOf(out)), Tape(e', ops[1..]));
      CountedTwice(e, TradesOf(out), Tape(e', ops[1..]));
    } else {
      NothingCounted(e);
    }
  }

  // ---------------------------------------------------------------------------------------------
  // Price-time priority
  // ---------------------------------------------------------------------------------------------

  lemma StepKeepsPriority(e: State, op: Op, side: Side, x: u64, y: u64)
    requires Ok(e) && Ahead(e.Flattened().On(side), x, y)
    requires Live(Step(e, op).0.Flattened(), x)
    ensures !NamesMaker(TradesOf(Step(e, op).1), y)
    ensures Live(Step(e, op).0.Flattened(), y) ==> Ahead(Step(e, op).0.Flattened().On(side), x, y)
  {
    match op
    case Add(t, qty) =>
      AddRefines(e, t, qty);
      if AddOrder(e, t, qty).1.Done? {
        SubmitKeepsPriority(e.Flattened(), t, qty, side, x, y);
      }
    case Cancel(id) =>
      CancelRefines(e, id);
      WithdrawKeepsBookOk(e.Flattened(), id);
      if id != x && id != y {
        RemoveKeepsAhead(id, e.Flattened().On(side), x, y);
      }
  }

  /** `id` rests in the book after every operation of the run. */
  predicate LiveThroughout(e: State, ops: seq<Op>, id: u64)
    decreases |ops|
  {
    ops != [] ==>
      Live(Step(e, ops[0]).0.Flattened(), id) && LiveThroughout(Step(e, ops[0]).0, ops[1..], id)
  }

  /** Safety over whole runs: while `x` is ahead of `y` and stays in the book, nobody trades with `y`,
      whatever partial fills, cancels and arrivals happen in between -- up to the operation that removes `y`. */
  lemma {:induction false} PriceTimePriority(e: State, ops: seq<Op>, side: Side, x: u64, y: u64)
    requires Ok(e) && Ahead(e.Flattened().On(side), x, y)
    requires LiveThroughout(e, ops, x)
    requires ops != [] ==> LiveThroughout(e, ops[..|ops|-1], y)
    ensures !NamesMaker(Tape(e, ops), y)
    ensures Live(Run(e, ops).Flattened(), y) ==> Ahead(Run(e, ops).Flattened().On(side), x, y)
    decreases |ops|
  {
    if ops != [] {
      var (e', out) := Step(e, ops[0]);
      StepKeepsPriority(e, ops[0], side, x, y);
      StepKeepsOk(e, ops[0]);
      var rest := ops[1..];
      if rest == [] {
        assert Run(e', rest) == e' && Tape(e', rest) == [];
      } else {
        var most := ops[..|ops|-1];
        assert most[0] == ops[0] && most[1..] == rest[..|rest|-1];
        PriceTimePriority(e', rest, side, x, y);
      }
      NoMakerInEither(TradesOf(out), Tape(e', rest), y);
    }
  }

  /** `trade` is one that the submission `op` may make: in its name, for no more than it asked, and if it is a
      limit order, at no worse a price than its limit. */
  predicate MadeBy(trade: Trade, op: Op) {
    && op.Add? && op.t.id == trade.taker && trade.qty <= op.qty
    && (op.t.kind == Limit ==> if op.t.side == Buy then trade.price <= op.t.price else trade.price >= op.t.price)
  }

  /** Every trade on the tape of a run goes back to one submission, and keeps to its limit. */
  lemma {:induction false} TapeKeepsLimits(e: State, ops: seq<Op>, n: nat) returns (k: nat)
    requires Ok(e) && n < |Tape(e, ops)|
    ensures k < |ops| && MadeBy(Tape(e, ops)[n], ops[k])
    decreases |ops|
  {
    StepKeepsOk(e, ops[0]);
    TapeStartsWith(e, ops);
    hide Ok, Step, Tape, MadeBy;
    var now := TradesOf(Step(e, ops[0]).1);
    if n < |now| {
      k := 0;
      StepKeepsLimit(e, ops[0], n);
    } else {
      k := TapeKeepsLimits(Step(e, ops[0]).0, ops[1..], n - |now|);
      k := k + 1;
    }
  }

  lemma {:induction false} StepKeepsLimit(e: State, op: Op, n: nat)
    requires Ok(e) && n < |TradesOf(Step(e, op).1)|
    ensures MadeBy(TradesOf(Step(e, op).1)[n], op)
  {
    OnlyAddsTrade(e, op);
    hide Ok, Step;
    AddAnswers(e, op.t, op.qty);
    TradesNameTheirTaker(e, op.t, op.qty, n);
  }

  lemma {:induction false} TapeStartsWith(e: State, ops: seq<Op>)
    requires ops != []
    ensures Tape(e, ops) == TradesOf(Step(e, ops[0]).1) + Tape(Step(e, ops[0]).0, ops[1..])
  {
  }

  lemma OnlyAddsTrade(e: State, op: Op)
    ensures TradesOf(Step(e, op).1) != [] ==>
              op.Add? && AddOrder(e, op.t, op.qty) == Step(e, op) && Step(e, op).1.Done?
  {
    hide AddOrder;
  }

  lemma {:induction false} TradesNameTheirTaker(e: State, t: Taker, qty: u32, n: nat)
    requires Ok(e) && AddOrder(e, t, qty).1.Done? && n < |AddOrder(e, t, qty).1.trades|
    ensures var trade := AddOrder(e, t, qty).1.trades[n]; trade.taker == t.id && trade.qty <= qty
  {
    AddRefines(e, t, qty);
    var b := e.Flattened();
    hide AddOrder, Match;
    TradesAreFills(b, t, qty);
    AtMostTheVolume(Submit(b, t, qty).1, n);
    var opp := b.On(t.side.Opposite());
    MatchConserves(t, qty, opp);
  }

  lemma {:induction false} AtMostTheVolume(trades: seq<Trade>, n: nat)
    requires n < |trades|
    ensures trades[n].qty <= Volume(trades)
  {
    if n > 0 {
      AtMostTheVolume(trades[1..], n - 1);
    }
  }

  /** `e` after `ops`, in which `x` is never gone and `y` only at the end, has not traded with `y`. */
  ghost predicate NeverOvertaken(e: State, ops: seq<Op>, x: u64, y: u64) {
    LiveThroughout(e, ops, x) && (ops != [] ==> LiveThroughout(e, ops[..|ops|-1], y)) ==> !NamesMaker(Tape(e, ops), y)
  }

  /** Price first: a resting order is never traded with while one of a strictly better price stays. */
  lemma BetterPriceGoesFirst(e: State, ops: seq<Op>, side: Side, i: nat, j: nat)
    requires Ok(e)
    requires var s := e.Flattened().On(side); i < |s| && j < |s| && Better(side, s[i].price, s[j].price)
    ensures var s := e.Flattened().On(side); NeverOvertaken(e, ops, s[i].id, s[j].id)
  {
    var s := e.Flattened().On(side);
    BetterPriceIsAhead(side, s, i, j);
    if LiveThroughout(e, ops, s[i].id) && (ops != [] ==> LiveThroughout(e, ops[..|ops|-1], s[j].id)) {
      PriceTimePriority(e, ops, side, s[i].id, s[j].id);
    }
  }

  /** Then time: an order that comes to rest behind earlier ones of at least its price is never traded
      with while one of them stays. */
  lemma EarlierGoesFirst(e: State, t: Taker, qty: u32, ops: seq<Op>, i: nat)
    requires Ok(e) && AddOrder(e, t, qty).1.Done? && qty > 0 && !Live(e.Flattened(), t.id)
    requires var s := e.Flattened().On(t.side); i < |s| && !Better(t.side, t.price, s[i].price)
    requires Has(AddOrder(e, t, qty).0.Flattened().On(t.side), t.id)
    ensures NeverOvertaken(AddOrder(e, t, qty).0, ops, e.Flattened().On(t.side)[i].id, t.id)
  {
    var e1, x := AddOrder(e, t, qty).0, e.Flattened().On(t.side)[i].id;
    AddRefines(e, t, qty);
    AddKeepsOk(e, t, qty);
    NewcomerIsBehind(e.Flattened(), t, qty, i);
    hide AddOrder, Submit;
    if LiveThroughout(e1, ops, x) && (ops != [] ==> LiveThroughout(e1, ops[..|ops|-1], t.id)) {
      PriceTimePriority(e1, ops, t.side, x, t.id);
    }
  }

  lemma NoMakerInEither(a: seq<Trade>, b: seq<Trade>, id: u64)
    requires !NamesMaker(a, id) && !NamesMaker(b, id)
    ensures !NamesMaker(a + b, id)
  {
  }

  // ---------------------------------------------------------------------------------------------
  // Slots and volumes
  // ---------------------------------------------------------------------------------------------

  function Exhaustions(e: State, ops: seq<Op>): nat {
    Total(e, ops, (s: State, op: Op) => if Step(s, op).1.LevelPoolExhausted? then 1 else 0)
  }

  /** An order slot is lost exactly by each call that runs out of price levels, and by nothing else. */
  lemma {:induction false} SlotsAreLostOnlyByExhaustion(e: State, ops: seq<Op>)
    requires Ok(e)
    ensures Run(e, ops).leaked == e.leaked + Exhaustions(e, ops)
    decreases |ops|
  {
    if ops != [] {
      if ops[0].Add? {
        AddRefines(e, ops[0].t, ops[0].qty);
      }
      StepKeepsOk(e, ops[0]);
      SlotsAreLostOnlyByExhaustion(Step(e, ops[0]).0, ops[1..]);
    }
  }

  /** After no operation of the run does some level's true sum reach 2^32. */
  predicate NeverOverflows(e: State, ops: seq<Op>)
    decreases |ops|
  {
    ops != [] ==> NoLevelOverflows(Step(e, ops[0]).0) && NeverOverflows(Step(e, ops[0]).0, ops[1..])
  }

  /** Every cached volume is exact throughout a run in which no level's true sum reaches 2^32. */
  lemma {:induction false} RunKeepsExact(e: State, ops: seq<Op>)
    requires Exact(e) && NeverOverflows(e, ops)
    ensures Exact(Run(e, ops))
    decreases |ops|
  {
    if ops != [] {
      StepKeepsExact(e, ops[0]);
      RunKeepsExact(Step(e, ops[0]).0, ops[1..]);
    }
  }

  /** Every cached volume is exact after each operation of the run. */
  predicate ExactThroughout(e: State, ops: seq<Op>)
    decreases |ops|
  {
    ops != [] ==> Exact(Step(e, ops[0]).0) && ExactThroughout(Step(e, ops[0]).0, ops[1..])
  }

  /** Before each operation of the run there is room at the price of the order that will rest. */
  predicate RoomThroughout(e: State, ops: seq<Op>)
    decreases |ops|
  {
    ops != [] ==> HasRoom(e, ops[0]) && RoomThroughout(Step(e, ops[0]).0, ops[1..])
  }

  /** The caches stay exact through a run exactly when no order comes to rest where it takes the true
      volume to 2^32. */
  lemma {:induction false} ExactThroughoutWhen(e: State, ops: seq<Op>)
    requires Ok(e) && Exact(e)
    ensures ExactThroughout(e, ops) <==> RoomThroughout(e, ops)
    decreases |ops|
  {
    if ops != [] {
      var e' := Step(e, ops[0]).0;
      StepKeepsExactWhen(e, ops[0]);
      StepKeepsOk(e, ops[0]);
      if Exact(e') {
        ExactThroughoutWhen(e', ops[1..]);
      }
    }
  }

  /** A sell of `qty` at `price` into a book without bids. */
  lemma SellRests(e: State, id: u64, price: u64, qty: u32)
    requires e.bids == [] && qty > 0 && !Live(e.Flattened(), id) && e.FreeOrders() > 0
    requires HasLevel(Sell, e.asks, price) || e.FreeLevels() > 0
    ensures AddOrder(e, Taker(id, Sell, price, Limit), qty)
            == (e.(asks := RestAt(Sell, e.asks, Rest(id, price, qty))), Done([]))
  {
    NothingCounted(e);
  }

  /** The level of `VolumeDrifts` after each of its calls. */
  lemma DriftingLevel(price: u64)
    ensures var first := Append(Level(price, 0, []), Rest(1, price, 0xFFFF_FFFF));
            var both := Append(first, Rest(2, price, 2));
            && first == Level(price, 0xFFFF_FFFF, [Rest(1, price, 0xFFFF_FFFF)])
            && both == Level(price, 1, [Rest(1, price, 0xFFFF_FFFF), Rest(2, price, 2)])
            && CancelIn([both], 1) == [Level(price, 0, [Rest(2, price, 2)])]
  {
    var both := Level(price, 1, [Rest(1, price, 0xFFFF_FFFF), Rest(2, price, 2)]);
    assert Append(Level(price, 0xFFFF_FFFF, [Rest(1, price, 0xFFFF_FFFF)]), Rest(2, price, 2)) == both;
    assert both.orders[0].id == 1 && Find(1, both.orders) == 0;
    CancelInFirst([both], 1);
    assert Splice(both.orders, 0, [], 1) == [Rest(2, price, 2)];
  }

  lemma OneLevel(l: Level)
    ensures Flat([l]) == l.orders
  {
    assert [l][1..] == [];
  }

  /** A run of three calls from an empty engine after which a level holds two live units and its cached
      volume is 0. */
  lemma VolumeDrifts(orderCap: nat, levelCap: nat, price: u64)
    requires orderCap >= 2 && levelCap >= 1
    ensures var a := Add(Taker(1, Sell, price, Limit), 0xFFFF_FFFF);
            var b := Add(Taker(2, Sell, price, Limit), 2);
            Run(Empty(orderCap, levelCap), [a, b, Op.Cancel(1)]).asks == [Level(price, 0, [Rest(2, price, 2)])]
  {
    var a, b := Add(Taker(1, Sell, price, Limit), 0xFFFF_FFFF), Add(Taker(2, Sell, price, Limit), 2);
    var c := Op.Cancel(1);
    var e0 := Empty(orderCap, levelCap);
    SellRests(e0, 1, price, 0xFFFF_FFFF);
    var e1 := Step(e0, a).0;
    DriftingLevel(price);
    hide AddOrder, CancelIn, Append, MatchLevels;
    var first := Append(Level(price, 0, []), Rest(1, price, 0xFFFF_FFFF));
    RestAtFront(Sell, [], Rest(1, price, 0xFFFF_FFFF));
    assert e1.asks == [first];
    OneLevel(first);
    RestAtFirst(Sell, [first], Rest(2, price, 2));
    SellRests(e1, 2, price, 2);
    var e2 := Step(e1, b).0;
    var both := Append(first, Rest(2, price, 2));
    assert e2.asks == [both];
    OneLevel(both);
    assert both.orders[0].id == 1;
    var e3 := Step(e2, c).0;
    assert [a, b, c][1..] == [b, c] && [b, c][1..] == [c] && [c][1..] == [];
    assert Run(e0, [a, b, c]) == Run(e1, [b, c]) == Run(e2, [c]) == Run(e3, []);
  }
}
