/** The matching engine as a state machine on values: the two sides of price levels, the capacities of the
    two object pools, the order slots lost to a failed call, and the two 64-bit statistics counters. */
module Engine {
  import opened MachineWords
  import opened MatchingTypes
  import opened PriorityBook
  import opened FlatBook
  import opened LevelBook
  import opened BookLaws

  datatype State = State(
    bids: seq<Level>, asks: seq<Level>,
    orderCap: nat, levelCap: nat, leaked: nat,
    tradeCount: u64, volumeTraded: u64)
  {
    function On(side: Side): seq<Level> {
      if side.Buy? then bids else asks
    }

    function With(side: Side, ls: seq<Level>): State {
      if side.Buy? then this.(bids := ls) else this.(asks := ls)
    }

    /** The same orders as two priority sequences. */
    function Flattened(): Book {
      Book(Flat(bids), Flat(asks))
    }

    function FreeOrders(): int {
      orderCap - |Flat(bids)| - |Flat(asks)| - leaked
    }

    function FreeLevels(): int {
      levelCap - |bids| - |asks|
    }
  }

  function Empty(orderCap: nat, levelCap: nat): State {
    State([], [], orderCap, levelCap, 0, 0, 0)
  }

  datatype Outcome =
    | Done(trades: seq<Trade>)     // `addOrder` returned these matches
    | OrderPoolExhausted           // `addOrder` threw before it changed anything
    | LevelPoolExhausted           // `addOrder` threw when it had to create a price level
    | Found(found: bool)           // `cancelOrder` returned this

  datatype Op = Add(t: Taker, qty: u32) | Cancel(id: u64)

  /** The statistics counters after `trades`. */
  function Counted(e: State, trades: seq<Trade>): State {
    e.(tradeCount := (e.tradeCount + |trades|) % U64,
       volumeTraded := (e.volumeTraded + Volume(trades)) % U64)
  }

  lemma NothingCounted(e: State)
    ensures Counted(e, []) == e
  {
    assert Volume([]) == 0;
  }

  lemma WrapUp(a: nat, b: nat, c: nat)
    ensures ((a + b) % U64 + c) % U64 == (a + (b + c)) % U64
  {
  }

  lemma CountedAlike(e: State, e': State, trades: seq<Trade>)
    requires SameCounters(e, e')
    ensures SameCounters(Counted(e, trades), Counted(e', trades))
  {
  }

  /** Counting in two steps is counting at once. */
  lemma CountedTwice(e: State, a: seq<Trade>, b: seq<Trade>)
    ensures Counted(Counted(e, a), b) == Counted(e, a + b)
  {
    VolumeOfConcat(a, b);
    WrapUp(e.tradeCount, |a|, |b|);
    WrapUp(e.volumeTraded, Volume(a), Volume(b));
  }

  /** The state after the matching loops have run for `t`. */
  function AfterMatch(e: State, t: Taker, m: SideFill): State {
    Counted(e.With(t.side.Opposite(), m.levels), m.trades)
  }

  /** `addOrder`.  When no level can be created the taker's slot stays allocated but is in no list. */
  function AddOrder(e: State, t: Taker, qty: u32): (State, Outcome) {
    if qty == 0 || Live(e.Flattened(), t.id) then (e, Done([]))
    else if e.FreeOrders() <= 0 then (e, OrderPoolExhausted)
    else
      var m := MatchLevels(t, qty, e.On(t.side.Opposite()));
      var e1 := AfterMatch(e, t, m);
      if m.left == 0 || !t.kind.Limit? then (e1, Done(m.trades))
      else if !HasLevel(t.side, e.On(t.side), t.price) && e1.FreeLevels() <= 0 then
        (e1.(leaked := e1.leaked + 1), LevelPoolExhausted)
      else
        (e1.With(t.side, RestAt(t.side, e.On(t.side), Rest(t.id, t.price, m.left))), Done(m.trades))
  }

  /** `cancelOrder`. */
  function CancelOrder(e: State, id: u64): (State, Outcome) {
    if Live(e.Flattened(), id) then
      (e.(bids := CancelIn(e.bids, id), asks := CancelIn(e.asks, id)), Found(true))
    else (e, Found(false))
  }

  function TradesOf(out: Outcome): seq<Trade> {
    if out.Done? then out.trades else []
  }

  predicate SameCounters(e: State, e': State) {
    e.tradeCount == e'.tradeCount && e.volumeTraded == e'.volumeTraded
  }

  function Step(e: State, op: Op): (State, Outcome) {
    match op
    case Add(t, qty) => AddOrder(e, t, qty)
    case Cancel(id) => CancelOrder(e, id)
  }

  predicate LevelsAndSlotsOk(e: State) {
    LevelsOk(Buy, e.bids) && LevelsOk(Sell, e.asks) && e.FreeOrders() >= 0 && e.FreeLevels() >= 0
  }

  /** What every reachable state satisfies. */
  predicate Ok(e: State) {
    LevelsAndSlotsOk(e) && BookOk(e.Flattened())
  }

  lemma EmptyIsOk(orderCap: nat, levelCap: nat)
    ensures Ok(Empty(orderCap, levelCap))
  {
  }

  // ---------------------------------------------------------------------------------------------
  // Agreement with the flat book
  // ---------------------------------------------------------------------------------------------

  /** The matching loops of one call do what the flat matcher does, and free what they empty. */
  lemma {:induction false} MatchPhase(e: State, t: Taker, qty: u32)
    requires Ok(e)
    ensures var ls := e.On(t.side.Opposite());
            var m := MatchLevels(t, qty, ls);
            var e1 := AfterMatch(e, t, m);
            && Match(t, qty, Flat(ls)) == Fill(Flat(m.levels), m.left, m.trades)
            && LevelsAndSlotsOk(e1) && e1.On(t.side) == e.On(t.side)
            && e1.Flattened() == Book.From(t.side, Flat(e.On(t.side)), Flat(m.levels))
            && e1.FreeOrders() >= e.FreeOrders() && e1.FreeLevels() == e.FreeLevels() + |ls| - |m.levels|
            && |m.levels| <= |ls|
            && (|ls| > |m.levels| ==> Crosses(t, ls[0].price))
            && (|ls| == |m.levels| > 0 ==> m.levels[0].price == ls[0].price)
            && (m.left > 0 && m.levels != [] ==> !Crosses(t, m.levels[0].price))
  {
    var ls := e.On(t.side.Opposite());
    MatchLevelsIsMatch(t, qty, ls);
    MatchLeavesATail(t, qty, Flat(ls));
  }

  /** Matching brings no new id into the book. */
  lemma {:induction false} MatchPhaseAddsNoId(e: State, t: Taker, qty: u32, id: u64)
    requires Ok(e) && !Live(e.Flattened(), id)
    ensures !Live(AfterMatch(e, t, MatchLevels(t, qty, e.On(t.side.Opposite()))).Flattened(), id)
  {
    SideIsPositive(e, t.side.Opposite());
    hide LevelsAndSlotsOk, BookOk, Match, MatchLevels;
    var opp := e.On(t.side.Opposite());
    MatchPhase(e, t, qty);
    TailHasNoMore(t, qty, Flat(opp), id);
  }

  /** The calls that `addOrder` turns away before it looks at the book. */
  lemma AddTurnsAway(e: State, t: Taker, qty: u32)
    ensures qty == 0 || Live(e.Flattened(), t.id) ==> AddOrder(e, t, qty) == (e, Done([]))
    ensures !(qty == 0 || Live(e.Flattened(), t.id)) && e.FreeOrders() <= 0 ==>
              AddOrder(e, t, qty) == (e, OrderPoolExhausted)
  {
  }

  /** What `addOrder` makes of an order it does not turn away. */
  lemma {:induction false} AddSettles(e: State, t: Taker, qty: u32)
    requires !(qty == 0 || Live(e.Flattened(), t.id)) && e.FreeOrders() > 0
    ensures var m := MatchLevels(t, qty, e.On(t.side.Opposite()));
            var e1 := AfterMatch(e, t, m);
            AddOrder(e, t, qty)
            == if m.left == 0 || !t.kind.Limit? then (e1, Done(m.trades))
               else if !HasLevel(t.side, e.On(t.side), t.price) && e1.FreeLevels() <= 0 then
                 (e1.(leaked := e1.leaked + 1), LevelPoolExhausted)
               else
                 (e1.With(t.side, RestAt(t.side, e.On(t.side), Rest(t.id, t.price, m.left))), Done(m.trades))
  {
  }

  lemma LevelsAreOk(e: State)
    requires Ok(e)
    ensures LevelsOk(Buy, e.bids) && LevelsOk(Sell, e.asks)
  {
  }

  lemma SideIsPositive(e: State, side: Side)
    requires Ok(e)
    ensures Positive(Flat(e.On(side)))
  {
  }

  lemma {:induction false} TailHasNoMore(t: Taker, qty: u32, opp: seq<Rest>, id: u64)
    requires Positive(opp) && !Has(opp, id)
    ensures !Has(Match(t, qty, opp).rest, id)
  {
    hide Match;
    var rest := Match(t, qty, opp).rest;
    MatchLeavesATail(t, qty, opp);
    forall i | 0 <= i < |rest| ensures rest[i].id != id {
      assert rest[i].id == opp[i + |opp| - |rest|].id;
    }
  }

  /** Every call that returns does to the flat book what `Submit` does, with the same trades; every call that
      throws leaves the flat book, the levels, the cached volumes and the counters as they were. */
  lemma AddRefines(e: State, t: Taker, qty: u32)
    requires Ok(e)
    ensures var (e', out) := AddOrder(e, t, qty);
            match out
            case Done(trades) => (e'.Flattened(), trades) == Submit(e.Flattened(), t, qty) && e'.leaked == e.leaked
            case OrderPoolExhausted => e' == e
            case LevelPoolExhausted => e' == e.(leaked := e.leaked + 1)
            case Found(_) => false
  {
    if !(qty == 0 || Live(e.Flattened(), t.id)) && e.FreeOrders() > 0 {
      MatchPhase(e, t, qty);
      var m := MatchLevels(t, qty, e.On(t.side.Opposite()));
      if m.left > 0 && t.kind.Limit? {
        if AddOrder(e, t, qty).1 == LevelPoolExhausted {
          OutOfLevelsMeansNoMatch(e, t, qty);
        } else {
          RestAtIsInsert(t.side, e.On(t.side), Rest(t.id, t.price, m.left));
        }
      }
    }
  }

  /** Exactly when the order pool refuses a call. */
  lemma {:induction false} OrderPoolExhaustedWhen(e: State, t: Taker, qty: u32)
    requires Ok(e)
    ensures AddOrder(e, t, qty).1 == OrderPoolExhausted
            <==> qty > 0 && !Live(e.Flattened(), t.id) && |Flat(e.bids)| + |Flat(e.asks)| + e.leaked == e.orderCap
  {
    AddTurnsAway(e, t, qty);
    if !(qty == 0 || Live(e.Flattened(), t.id)) && e.FreeOrders() > 0 {
      AddSettles(e, t, qty);
    }
  }

  /** What a call returns to its caller: nothing for a zero quantity or a live id; for a limit order only
      trades within its limit, and all there are; for any other order all that rests. */
  lemma {:induction false} AddAnswers(e: State, t: Taker, qty: u32)
    requires Ok(e) && AddOrder(e, t, qty).1.Done?
    ensures var trades := AddOrder(e, t, qty).1.trades;
            var opp := Flat(if t.side == Buy then e.asks else e.bids);
            && (qty == 0 || Live(e.Flattened(), t.id) ==> AddOrder(e, t, qty) == (e, Done([])))
            && (t.kind == Limit ==> forall i | 0 <= i < |trades| ::
                  if t.side == Buy then trades[i].price <= t.price else trades[i].price >= t.price)
            && (qty > 0 && !Live(e.Flattened(), t.id) ==>
                  var offered := if t.kind == Limit then QtyWithin(t.side, t.price, opp) else RestingQty(opp);
                  Volume(trades) == if qty < offered then qty else offered)
  {
    AddRefines(e, t, qty);
    var b := e.Flattened();
    hide AddOrder, Match;
    if !(qty == 0 || Live(b, t.id)) {
      if t.kind == Limit {
        LimitFillsAllWithin(b, t, qty);
        SubmitKeepsLimit(b, t, qty);
      } else {
        MarketFillsAll(b, t, qty);
      }
    }
  }

  lemma AddLeaks(e: State, t: Taker, qty: u32)
    requires Ok(e)
    ensures var (e', out) := AddOrder(e, t, qty);
            && e'.leaked == e.leaked + (if out.LevelPoolExhausted? then 1 else 0) && !out.Found?
            && e'.orderCap == e.orderCap && e'.levelCap == e.levelCap
  {
    AddRefines(e, t, qty);
  }

  lemma {:induction false} OutOfLevelsMeansNoMatch(e: State, t: Taker, qty: u32)
    requires Ok(e) && qty > 0
    requires var m := MatchLevels(t, qty, e.On(t.side.Opposite()));
             m.left > 0 && AfterMatch(e, t, m).FreeLevels() <= 0
    ensures var ls := e.On(t.side.Opposite());
            MatchLevels(t, qty, ls) == SideFill(ls, qty, []) && (ls != [] ==> !Crosses(t, ls[0].price))
    ensures AfterMatch(e, t, MatchLevels(t, qty, e.On(t.side.Opposite()))) == e
  {
    MatchPhase(e, t, qty);
    NothingCounted(e);
  }

  /** Exactly when the level pool runs dry, in terms of the state before the call. */
  lemma LevelPoolExhaustedWhen(e: State, t: Taker, qty: u32)
    requires Ok(e)
    ensures AddOrder(e, t, qty).1 == LevelPoolExhausted
            <==> && qty > 0 && !Live(e.Flattened(), t.id) && e.FreeOrders() > 0 && t.kind.Limit?
                 && e.FreeLevels() == 0 && !HasLevel(t.side, e.On(t.side), t.price)
                 && (var ls := e.On(t.side.Opposite()); ls != [] ==> !Crosses(t, ls[0].price))
  {
    if !(qty == 0 || Live(e.Flattened(), t.id)) && e.FreeOrders() > 0 {
      MatchPhase(e, t, qty);
      if AddOrder(e, t, qty).1 == LevelPoolExhausted {
        OutOfLevelsMeansNoMatch(e, t, qty);
      }
    }
  }

  lemma CancelRefines(e: State, id: u64)
    ensures CancelOrder(e, id).0.Flattened() == Withdraw(e.Flattened(), id)
    ensures CancelOrder(e, id).1 == Found(Live(e.Flattened(), id))
  {
    CancelInIsRemove(e.bids, id);
    CancelInIsRemove(e.asks, id);
    RemoveDrops(id, Flat(e.bids));
    RemoveDrops(id, Flat(e.asks));
  }

  lemma AddCounts(e: State, t: Taker, qty: u32)
    requires Ok(e)
    ensures var (e', out) := AddOrder(e, t, qty);
            SameCounters(e', Counted(e, TradesOf(out)))
  {
    NothingCounted(e);
    var (e', out) := AddOrder(e, t, qty);
    var m := MatchLevels(t, qty, e.On(t.side.Opposite()));
    CountedAlike(e.With(t.side.Opposite(), m.levels), e, m.trades);
    if !out.Done? {
      AddRefines(e, t, qty);
    }
  }

  lemma StepCounts(e: State, op: Op)
    requires Ok(e)
    ensures SameCounters(Step(e, op).0, Counted(e, TradesOf(Step(e, op).1)))
  {
    NothingCounted(e);
    if op.Add? {
      AddCounts(e, op.t, op.qty);
    }
  }

  // ---------------------------------------------------------------------------------------------
  // The invariant
  // ---------------------------------------------------------------------------------------------

  lemma InsertLength(side: Side, r: Rest, s: seq<Rest>)
    ensures |Insert(side, r, s)| == |s| + 1
  {
  }

  lemma RemoveLength(id: u64, s: seq<Rest>)
    ensures |Remove(id, s)| == |s| - if Has(s, id) then 1 else 0
  {
    var k := Find(id, s);
    assert Has(s, id) <==> k < |s|;
  }

  lemma RestPhase(e: State, side: Side, r: Rest)
    requires LevelsAndSlotsOk(e) && e.FreeOrders() > 0
    requires HasLevel(side, e.On(side), r.price) || e.FreeLevels() > 0
    ensures LevelsAndSlotsOk(e.With(side, RestAt(side, e.On(side), r)))
  {
    var ls := e.On(side);
    RestAtKeepsLevelsOk(side, ls, r);
    RestAtIsInsert(side, ls, r);
    InsertLength(side, r, Flat(ls));
  }

  lemma AddKeepsLevelsAndSlots(e: State, t: Taker, qty: u32)
    requires Ok(e)
    ensures LevelsAndSlotsOk(AddOrder(e, t, qty).0)
  {
    if !(qty == 0 || Live(e.Flattened(), t.id)) && e.FreeOrders() > 0 {
      MatchPhase(e, t, qty);
      var m := MatchLevels(t, qty, e.On(t.side.Opposite()));
      var e1 := AfterMatch(e, t, m);
      if m.left > 0 && t.kind.Limit? && (HasLevel(t.side, e.On(t.side), t.price) || e1.FreeLevels() > 0) {
        RestPhase(e1, t.side, Rest(t.id, t.price, m.left));
      }
    }
  }

  lemma AddKeepsOk(e: State, t: Taker, qty: u32)
    requires Ok(e)
    ensures Ok(AddOrder(e, t, qty).0)
  {
    AddRefines(e, t, qty);
    SubmitKeepsBookOk(e.Flattened(), t, qty);
    AddKeepsLevelsAndSlots(e, t, qty);
  }

  lemma CancelKeepsOk(e: State, id: u64)
    requires Ok(e)
    ensures Ok(CancelOrder(e, id).0)
  {
    CancelRefines(e, id);
    WithdrawKeepsBookOk(e.Flattened(), id);
    CancelInKeepsLevelsOk(Buy, e.bids, id);
    CancelInKeepsLevelsOk(Sell, e.asks, id);
    RemoveLength(id, Flat(e.bids));
    RemoveLength(id, Flat(e.asks));
  }

  lemma StepKeepsOk(e: State, op: Op)
    requires Ok(e)
    ensures Ok(Step(e, op).0)
  {
    match op
    case Add(t, qty) => AddKeepsOk(e, t, qty);
    case Cancel(id) => CancelKeepsOk(e, id);
  }

  lemma LevelsUncrossed(e: State, i: nat, j: nat)
    requires Ok(e) && i < |e.bids| && j < |e.asks|
    ensures e.bids[i].price < e.asks[j].price
  {
    var a := PlaceOf(e.bids, i);
    var b := PlaceOf(e.asks, j);
    assert LevelOk(e.bids[i]) && LevelOk(e.asks[j]);
  }

  /** Where the first order of level `i` sits in the priority sequence. */
  lemma {:induction false} PlaceOf(ls: seq<Level>, i: nat) returns (k: nat)
    requires i < |ls| && ls[i].orders != []
    ensures k < |Flat(ls)| && Flat(ls)[k] == ls[i].orders[0]
  {
    if i == 0 {
      k := 0;
    } else {
      k := PlaceOf(ls[1..], i - 1);
      k := k + |ls[0].orders|;
    }
  }

  // ---------------------------------------------------------------------------------------------
  // Undo
  // ---------------------------------------------------------------------------------------------

  /** Cancelling an order that just rested without trading. */
  lemma CancelAfterAdd(e: State, t: Taker, qty: u32)
    requires Ok(e) && qty > 0 && !Live(e.Flattened(), t.id) && t.kind.Limit?
    requires AddOrder(e, t, qty).1 == Done([])
    ensures CancelOrder(AddOrder(e, t, qty).0, t.id)
            == (e.With(t.side, AfterUndo(t.side, e.On(t.side), Rest(t.id, t.price, qty))), Found(true))
  {
    hide AddOrder, CancelIn, RestAt, AfterUndo;
    var own, opp := e.On(t.side), e.On(t.side.Opposite());
    var r := Rest(t.id, t.price, qty);
    AddWithoutTrades(e, t, qty);
    HeldMeansHas(own, t.id);
    HeldMeansHas(opp, t.id);
    CancelInAfterRestAt(t.side, own, r);
    HeldMeansHas(RestAt(t.side, own, r), t.id);
    NotHeldNotCancelled(opp, t.id);
  }

  lemma {:induction false} NotHeldNotCancelled(ls: seq<Level>, id: u64)
    requires Holder(ls, id) == |ls|
    ensures CancelIn(ls, id) == ls
  {
  }

  /** It gives back the exact old state -- every level, every cached volume, the free slots -- if and only if
      the append did not wrap the cached volume. */
  lemma CancelUndoesAdd(e: State, t: Taker, qty: u32)
    requires Ok(e) && qty > 0 && !Live(e.Flattened(), t.id) && t.kind.Limit?
    requires AddOrder(e, t, qty).1 == Done([])
    ensures CancelOrder(AddOrder(e, t, qty).0, t.id).0 == e
            <==> (HasLevel(t.side, e.On(t.side), t.price) ==>
                    e.On(t.side)[LowerBound(t.side, e.On(t.side), t.price)].volume + qty < U32)
  {
    CancelAfterAdd(e, t, qty);
    var k := LowerBound(t.side, e.On(t.side), t.price);
    assert HasLevel(t.side, e.On(t.side), t.price) ==>
        AfterUndo(t.side, e.On(t.side), Rest(t.id, t.price, qty))[k]
        == Undone(e.On(t.side)[k], Rest(t.id, t.price, qty));
  }

  lemma AddWithoutTrades(e: State, t: Taker, qty: u32)
    requires Ok(e) && qty > 0 && !Live(e.Flattened(), t.id) && t.kind.Limit?
    requires AddOrder(e, t, qty).1 == Done([])
    ensures AddOrder(e, t, qty).0 == e.With(t.side, RestAt(t.side, e.On(t.side), Rest(t.id, t.price, qty)))
  {
    var ls := e.On(t.side.Opposite());
    assert ls != [] ==> LevelOk(ls[0]);
    assert MatchLevels(t, qty, ls) == SideFill(ls, qty, []);
    NothingCounted(e);
  }

  /** The level after an append and the unlink of that same order. */
  function Undone(l: Level, r: Rest): Level {
    if l.volume + r.qty < U32 then l else l.(volume := 0)
  }

  /** A side after an order came to rest on it and was cancelled. */
  function AfterUndo(side: Side, ls: seq<Level>, r: Rest): seq<Level> {
    var k := LowerBound(side, ls, r.price);
    if HasLevel(side, ls, r.price) then ls[k := Undone(ls[k], r)] else ls
  }

  lemma AfterUndoKeepsOrders(side: Side, ls: seq<Level>, r: Rest)
    ensures |AfterUndo(side, ls, r)| == |ls|
    ensures forall i {:trigger AfterUndo(side, ls, r)[i]} | 0 <= i < |ls| ::
              AfterUndo(side, ls, r)[i].orders == ls[i].orders
  {
  }

  lemma AfterUndoSkips(side: Side, ls: seq<Level>, r: Rest)
    requires ls != [] && Better(side, ls[0].price, r.price)
    ensures AfterUndo(side, ls, r) == [ls[0]] + AfterUndo(side, ls[1..], r)
  {
    RestAtSkips(side, ls, r);
  }

  lemma {:induction false} CancelInAfterRestAt(side: Side, ls: seq<Level>, r: Rest)
    requires LevelsOk(side, ls) && Holder(ls, r.id) == |ls|
    ensures CancelIn(RestAt(side, ls, r), r.id) == AfterUndo(side, ls, r)
    ensures Holder(RestAt(side, ls, r), r.id) < |RestAt(side, ls, r)|
  {
    if ls != [] && Better(side, ls[0].price, r.price) {
      assert LevelsOk(side, ls[1..]);
      CancelInAfterRestAt(side, ls[1..], r);
      AfterUndoSkips(side, ls, r);
      RestAtSkips(side, ls, r);
      CancelInSkips(RestAt(side, ls, r), r.id);
    } else {
      CancelInAfterRestAtFirst(side, ls, r);
    }
  }

  lemma CancelInAfterRestAtFirst(side: Side, ls: seq<Level>, r: Rest)
    requires ls == [] || (!Better(side, ls[0].price, r.price) && LevelOk(ls[0]) && !Has(ls[0].orders, r.id))
    ensures CancelIn(RestAt(side, ls, r), r.id) == AfterUndo(side, ls, r)
    ensures Holder(RestAt(side, ls, r), r.id) == 0
  {
    if ls == [] || Better(side, r.price, ls[0].price) {
      RestAtFront(side, ls, r);
      CancelAtFirst(Level(r.price, 0, []), ls, r);
    } else {
      RestAtFirst(side, ls, r);
      CancelAtFirst(ls[0], ls[1..], r);
    }
  }

  lemma CancelAtFirst(l: Level, tail: seq<Level>, r: Rest)
    requires !Has(l.orders, r.id)
    ensures var ls := [Append(l, r)] + tail;
            Holder(ls, r.id) == 0 && CancelIn(ls, r.id) == (if l.orders == [] then [] else [Undone(l, r)]) + tail
  {
    UnlinkAfterAppend(l, r);
    CancelInFirst([Append(l, r)] + tail, r.id);
  }

  lemma UnlinkAfterAppend(l: Level, r: Rest)
    requires !Has(l.orders, r.id)
    ensures var l' := Append(l, r);
            Has(l'.orders, r.id) && Find(r.id, l'.orders) == |l.orders| && Unlink(l', |l.orders|) == Undone(l, r)
  {
    var l' := Append(l, r);
    assert l'.orders[|l.orders|] == r;
    assert forall i | 0 <= i < |l.orders| :: l'.orders[i] == l.orders[i];
    assert Splice(l'.orders, |l.orders|, [], |l.orders| + 1) == l.orders;
  }
}
