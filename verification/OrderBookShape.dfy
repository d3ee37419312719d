/** What a book's invariant says of its objects, in the terms of the C++ structures alone. */
module OrderBookShape {
  import opened MachineWords
  import opened MatchingTypes
  import PB = PriorityBook
  import FB = FlatBook
  import LB = LevelBook
  import E = Engine
  import MS = MatchSteps
  import opened PriceLevels
  import opened ObjectPools
  import opened BookSides
  import opened OrderBooks

  lemma {:induction false} LevelOrdersArePositive(ls: seq<LB.Level>, k: nat, p: nat)
    requires PB.Positive(LB.Flat(ls)) && k < |ls| && p < |ls[k].orders|
    ensures ls[k].orders[p].qty > 0
  {
    var flat, rest := LB.Flat(ls), LB.Flat(ls[1..]);
    if k == 0 {
      assert flat[p] == ls[0].orders[p];
    } else {
      forall i | 0 <= i < |rest| ensures rest[i].qty > 0 {
        assert flat[|ls[0].orders| + i] == rest[i];
      }
      LevelOrdersArePositive(ls[1..], k - 1, p);
    }
  }

  lemma PositiveThere(e: E.State, side: Side, k: nat, p: nat)
    requires E.Ok(e) && k < |e.On(side)| && p < |e.On(side)[k].orders|
    ensures e.On(side)[k].orders[p].qty > 0
  {
    E.SideIsPositive(e, side);
    LevelOrdersArePositive(e.On(side), k, p);
  }

  /** Entry `n` is level `level` of a map, holding `o`. */
  ghost predicate Holds(n: MapNode, o: Order, p: nat)
    reads n.level, o
  {
    p < |n.level.chain| && n.level.chain[p] == o && o.priceLevelPtr == n.level && o.price == n.level.price == n.key
  }

  lemma SeatOf(book: OrderBook, id: u64) returns (k: nat, p: nat)
    requires book.Valid() && id in book.orderMap
    ensures var o := book.orderMap[id];
            o.id == id && o.remainingQty > 0 && k < |book.Nodes(o.side)| && Holds(book.Nodes(o.side)[k], o, p)
  {
    hide OrderBook.Tidy, E.Ok, OrderBook.Stands, MS.SitsAt, FB.Live;
    var e, side := book.model, Buy;
    book.CountsAgree(e, book.leaked);
    side, k, p := MS.FindSeat(e, id);
    SeatHolds(book, id, side, k, p);
  }

  lemma SeatHolds(book: OrderBook, id: u64, side: Side, k: nat, p: nat)
    requires book.Stands(book.model, book.orderMap) && E.Ok(book.model)
    requires id in book.orderMap && MS.SitsAt(book.model, id, side, k, p)
    ensures var o := book.orderMap[id];
            o.id == id && o.remainingQty > 0 && k < |book.Nodes(o.side)| && Holds(book.Nodes(o.side)[k], o, p)
  {
    hide E.CancelOrder, LB.Flat, E.Ok, PriceLevel.Spells, LB.UnlinkAt, LB.LowerBound;
    book.Locate(id, book.model, side, k, p);
    PositiveThere(book.model, side, k, p);
    var n, v := book.Nodes(side)[k], book.model.On(side)[k];
    assert Represents(side, n, v, book.orderMap);
    assert Stores(side, n.level.chain[p], v.orders[p], book.orderMap);
  }

  /** Every indexed order is live, sits in a level of its side's map at the level's price, and points
      back to that level. */
  lemma IndexedOrdersAreChained(book: OrderBook, id: u64)
    requires book.Valid() && id in book.orderMap
    ensures var o := book.orderMap[id];
            && o.id == id && o.remainingQty > 0
            && exists k, p :: 0 <= k < |book.Nodes(o.side)| && Holds(book.Nodes(o.side)[k], o, p)
  {
    hide OrderBook.Valid, Holds;
    var k, p := SeatOf(book, id);
  }

  /** Every level in a map is non-empty and well linked, its count is the length of its list, and each
      order in it is the one its id is indexed under. */
  lemma ChainedOrdersAreIndexed(book: OrderBook, side: Side, k: nat)
    requires book.Valid() && k < |book.Nodes(side)|
    ensures var n := book.Nodes(side)[k];
            && n.level.Shape() && n.level.chain != [] && n.level.orderCount == |n.level.chain| && n.key == n.level.price
            && forall p {:trigger n.level.chain[p]} | 0 <= p < |n.level.chain| ::
                 var o := n.level.chain[p];
                 o.side == side && o.price == n.key && o.id in book.orderMap && book.orderMap[o.id] == o
  {
    hide OrderBook.Tidy, FB.BookOk;
    var n, v := book.Nodes(side)[k], book.model.On(side)[k];
    assert Represents(side, n, v, book.orderMap);
    E.LevelsAreOk(book.model);
    LevelIsOk(book.model, side, k);
    forall p | 0 <= p < |n.level.chain|
      ensures var o := n.level.chain[p];
              o.side == side && o.price == n.key && o.id in book.orderMap && book.orderMap[o.id] == o
    {
      assert Stores(side, n.level.chain[p], v.orders[p], book.orderMap);
    }
  }

  lemma LevelIsOk(e: E.State, side: Side, k: nat)
    requires E.Ok(e) && k < |e.On(side)|
    ensures LB.LevelOk(e.On(side)[k])
  {
  }

  /** Each order sits in one place only: no two positions of the two maps hold the same object. */
  lemma OrdersSitOnce(book: OrderBook, side: Side, k: nat, p: nat, side': Side, k': nat, p': nat)
    requires book.Valid()
    requires k < |book.Nodes(side)| && p < |book.Nodes(side)[k].level.chain|
    requires k' < |book.Nodes(side')| && p' < |book.Nodes(side')[k'].level.chain|
    requires book.Nodes(side)[k].level.chain[p] == book.Nodes(side')[k'].level.chain[p']
    ensures side == side' && k == k' && p == p'
  {
    hide OrderBook.Valid, PriceLevel.Spells;
    ChainedOrdersAreIndexed(book, side, k);
    ChainedOrdersAreIndexed(book, side', k');
    var l, l' := book.Nodes(side)[k].level, book.Nodes(side')[k'].level;
    l.MembersPointHere();
    l'.MembersPointHere();
    l.Ends();
    LevelsAreSeparate(book);
  }

  lemma LevelsAreSeparate(book: OrderBook)
    requires book.Valid()
    ensures Separate(book.bids, book.asks)
  {
    hide OrderBook.Stands, E.Ok, OrderSlots;
  }
}
