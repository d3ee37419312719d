/** Two calls on a book, as in testOrderCancellation of 02_LOB_Engine/tests/TestOrderBook.cpp. */
module OrderBookClient {
  import opened MachineWords
  import opened MatchingTypes
  import FB = FlatBook
  import LB = LevelBook
  import E = Engine
  import MS = MatchSteps
  import R = Runs
  import opened ObjectPools
  import opened BookSides
  import opened OrderBooks

  lemma ChainsAreSpelledOut(book: OrderBook)
    requires book.Valid()
    ensures |book.bids| == |book.model.bids| && |book.asks| == |book.model.asks|
    ensures forall i {:trigger book.bids[i]} | 0 <= i < |book.bids| ::
              SpelledOut(book.bids[i], book.model.bids[i], book.orderMap)
    ensures forall i {:trigger book.asks[i]} | 0 <= i < |book.asks| ::
              SpelledOut(book.asks[i], book.model.asks[i], book.orderMap)
  {
    hide Represents, E.Ok, SpelledOut, OrderBook.Tidy;
    forall i | 0 <= i < |book.bids| ensures SpelledOut(book.bids[i], book.model.bids[i], book.orderMap) {
      ChainIsSpelledOut(Buy, book.bids[i], book.model.bids[i], book.orderMap);
    }
    forall i | 0 <= i < |book.asks| ensures SpelledOut(book.asks[i], book.model.asks[i], book.orderMap) {
      ChainIsSpelledOut(Sell, book.asks[i], book.model.asks[i], book.orderMap);
    }
  }

  /** The maps, the index, the free lists and the model after the two calls. */
  method AddThenCancelMaps(book: OrderBook, id: u64, side: Side, price: u64, qty: u32) returns (found: bool)
    requires book.Valid() && qty > 0 && id !in book.orderMap
    requires E.AddOrder(book.model, Taker(id, side, price, Limit), qty).1 == E.Done([])
    modifies book, book.orderPool, book.levelPool, book.orderPool.storage, book.levelPool.storage
    ensures book.Valid() && found
    ensures book.bids == old(book.bids) && book.asks == old(book.asks) && book.orderMap == old(book.orderMap)
    ensures book.orderPool.freeList == old(book.orderPool.freeList)
    ensures book.levelPool.freeList == old(book.levelPool.freeList)
    ensures book.model == old(book.model).With(side,
              E.AfterUndo(side, old(book.model).On(side), Rest(id, price, qty)))
  {
    hide OrderBook.Valid, E.AddOrder, E.CancelOrder, E.AfterUndo, LevelJoined, LevelLeft, LB.HasLevel, LB.LowerBound;
    hide FB.Live;
    ghost var e, r := book.model, Rest(id, price, qty);
    ghost var k, existed := LB.LowerBound(side, e.On(side), price), LB.HasLevel(side, e.On(side), price);
    Prepare(book, id, side, price, qty);
    var out := book.AddOrder(id, side, price, qty, Limit);
    ghost var nodes, free := book.Nodes(side), book.levelPool.freeList;
    found := book.CancelOrder(id);
    LeavingUndoesJoining(old(book.Nodes(side)), old(book.levelPool.freeList), nodes, free,
                         book.Nodes(side), book.levelPool.freeList, k, existed);
  }

  lemma {:induction false} Prepare(book: OrderBook, id: u64, side: Side, price: u64, qty: u32)
    requires book.Valid() && qty > 0 && id !in book.orderMap
    requires E.AddOrder(book.model, Taker(id, side, price, Limit), qty).1 == E.Done([])
    ensures var e, t, r := book.model, Taker(id, side, price, Limit), Rest(id, price, qty);
            var e1 := E.AddOrder(e, t, qty).0;
            && e1.On(side) == LB.RestAt(side, e.On(side), r)
            && LB.LowerBound(side, e1.On(side), price) == LB.LowerBound(side, e.On(side), price)
            && E.CancelOrder(e1, id) == (e.With(side, E.AfterUndo(side, e.On(side), r)), E.Found(true))
            && |e1.On(side)| == |e.On(side)| + (if LB.HasLevel(side, e.On(side), price) then 0 else 1)
            && |E.AfterUndo(side, e.On(side), r)| == |e.On(side)|
  {
    hide OrderBook.Stands, E.Ok, E.AddOrder, E.CancelOrder, LB.RestAt, E.AfterUndo;
    var e, t, r := book.model, Taker(id, side, price, Limit), Rest(id, price, qty);
    book.CountsAgree(e, book.leaked);
    E.CancelAfterAdd(e, t, qty);
    E.AddWithoutTrades(e, t, qty);
    E.LevelsAreOk(e);
    MS.RestAtBound(side, e.On(side), r);
  }

  /** Adding a limit order that meets no counterpart and cancelling it restores both maps, every chain, the
      index and both free lists element for element; every cached volume too, unless the append wrapped one. */
  method AddThenCancel(book: OrderBook, id: u64, side: Side, price: u64, qty: u32) returns (found: bool)
    requires book.Valid() && qty > 0 && id !in book.orderMap
    requires E.AddOrder(book.model, Taker(id, side, price, Limit), qty).1 == E.Done([])
    modifies book, book.orderPool, book.levelPool, book.orderPool.storage, book.levelPool.storage
    ensures book.Valid() && found
    ensures book.bids == old(book.bids) && book.asks == old(book.asks) && book.orderMap == old(book.orderMap)
    ensures book.orderPool.freeList == old(book.orderPool.freeList)
    ensures book.levelPool.freeList == old(book.levelPool.freeList)
    ensures forall i | 0 <= i < |book.bids| :: book.bids[i].level.chain == old(book.bids[i].level.chain)
    ensures forall i | 0 <= i < |book.asks| :: book.asks[i].level.chain == old(book.asks[i].level.chain)
    ensures book.model == old(book.model)
            <==> var own := old(book.model).On(side);
                 LB.HasLevel(side, own, price) ==> own[LB.LowerBound(side, own, price)].volume + qty < U32
  {
    hide OrderBook.Stands, OrderBook.Tidy, E.Ok, E.AddOrder, E.CancelOrder, LB.HasLevel, LB.LowerBound, FB.Live;
    hide E.AfterUndo;
    ghost var t, e := Taker(id, side, price, Limit), book.model;
    book.CountsAgree(e, book.leaked);
    ChainsAreSpelledOut(book);
    E.CancelAfterAdd(e, t, qty);
    E.CancelUndoesAdd(e, t, qty);
    E.AfterUndoKeepsOrders(side, e.On(side), Rest(id, price, qty));
    found := AddThenCancelMaps(book, id, side, price, qty);
    ChainsAreSpelledOut(book);
    forall i | 0 <= i < |book.bids| ensures book.bids[i].level.chain == old(book.bids[i].level.chain) {
      assert old(SpelledOut(book.bids[i], e.bids[i], book.orderMap));
    }
    forall i | 0 <= i < |book.asks| ensures book.asks[i].level.chain == old(book.asks[i].level.chain) {
      assert old(SpelledOut(book.asks[i], e.asks[i], book.orderMap));
    }
  }

  /** One operation on the book. */
  method Perform(book: OrderBook, op: E.Op) returns (out: E.Outcome)
    requires book.Valid()
    modifies book, book.orderPool, book.levelPool, book.orderPool.storage, book.levelPool.storage
    ensures book.Valid() && (book.model, out) == E.Step(old(book.model), op)
  {
    hide OrderBook.Valid, E.AddOrder, E.CancelOrder;
    match op
    case Add(t, qty) => out := book.AddOrder(t.id, t.side, t.price, qty, t.kind);
    case Cancel(id) =>
      var found := book.CancelOrder(id);
      out := E.Found(found);
  }

  lemma {:induction false} OneOfTheRun(e: E.State, ops: seq<E.Op>, k: nat)
    requires k < |ops|
    ensures var (e', out) := E.Step(e, ops[k]);
            && R.Run(e, ops[k..]) == R.Run(e', ops[k + 1..])
            && R.Tape(e, ops[k..]) == E.TradesOf(out) + R.Tape(e', ops[k + 1..])
  {
    hide E.Step;
    assert ops[k..][0] == ops[k] && ops[k..][1..] == ops[k + 1..];
  }

  /** A book taken through any operations is in the state of the engine's run and has returned its trades;
      so all that holds of runs holds of the book. */
  method PerformAll(book: OrderBook, ops: seq<E.Op>) returns (trades: seq<Trade>)
    requires book.Valid()
    modifies book, book.orderPool, book.levelPool, book.orderPool.storage, book.levelPool.storage
    ensures book.Valid()
    ensures book.model == R.Run(old(book.model), ops) && trades == R.Tape(old(book.model), ops)
  {
    hide OrderBook.Valid, E.Step, E.TradesOf;
    trades := [];
    assert ops[0..] == ops;
    for k := 0 to |ops|
      invariant book.Valid()
      invariant R.Run(book.model, ops[k..]) == R.Run(old(book.model), ops)
      invariant trades + R.Tape(book.model, ops[k..]) == R.Tape(old(book.model), ops)
    {
      hide R.Run, R.Tape;
      OneOfTheRun(book.model, ops, k);
      var out := Perform(book, ops[k]);
      LB.ConcatIsAssociative(trades, E.TradesOf(out), R.Tape(book.model, ops[k + 1..]));
      trades := trades + E.TradesOf(out);
    }
  }
}
