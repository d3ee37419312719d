/** The limit order book on the heap (02_LOB_Engine/include/OrderBook.hpp, src/OrderBook.cpp). */
module OrderBooks {
  import opened MachineWords
  import opened MatchingTypes
  import PB = PriorityBook
  import FB = FlatBook
  import LB = LevelBook
  import E = Engine
  import MS = MatchSteps
  import opened PriceLevels
  import opened ObjectPools
  import opened BookSides
  import opened TopOfBook

  class OrderBook {
    var bids: seq<MapNode>
    var asks: seq<MapNode>
    var orderMap: map<u64, Order>
    const orderPool: ObjectPool<Order>
    const levelPool: ObjectPool<PriceLevel>
    var totalTradesCount: u64
    var totalVolumeTraded: u64

    /** The engine state this heap stands for, and the order slots that failed calls never gave back. */
    ghost var model: E.State
    ghost var leaked: set<Order>

    function Nodes(side: Side): seq<MapNode>
      reads this`bids, this`asks
    {
      if side.Buy? then bids else asks
    }

    ghost function Levels(): set<PriceLevel>
      reads this`bids, this`asks
    {
      LevelSet(bids) + LevelSet(asks)
    }

    ghost function Orders(): set<Order>
      reads this`bids, this`asks, LevelSet(bids)`chain, LevelSet(asks)`chain
    {
      OrderSet(bids) + OrderSet(asks)
    }

    /** Both maps stand for the levels of `e`, through the index `idx`. */
    ghost predicate Stands(e: E.State, idx: map<u64, Order>)
      reads this`bids, this`asks
      reads Levels()`price, Levels()`totalVolume, Levels()`orderCount, Levels()`head, Levels()`tail, Levels()`chain
      reads Orders()`priceLevelPtr, Orders()`prev, Orders()`next
      reads Orders()`id, Orders()`price, Orders()`remainingQty, Orders()`side
    {
      && |bids| == |e.bids| && |asks| == |e.asks|
      && SideStands(Buy, bids, e.bids, idx) && SideStands(Sell, asks, e.asks, idx)
    }

    /** Index, pools and counters agree with `e`; `limbo` are the used order slots that do not rest. */
    ghost predicate Tidy(e: E.State, limbo: set<Order>)
      reads this`bids, this`asks, this`orderMap, this`totalTradesCount, this`totalVolumeTraded
      reads orderPool, levelPool
    {
      && orderPool.Valid() && OrderSlots(orderMap, orderPool.used, |orderPool.freeList|, e, limbo)
      && levelPool.Valid() && LevelSlots(bids, asks, levelPool.used, |levelPool.freeList|, e)
      && CountersAre(e)
    }

    constructor (orderCap: nat, levelCap: nat)
      ensures Valid() && model == E.Empty(orderCap, levelCap)
      ensures fresh(orderPool) && fresh(levelPool)
      ensures forall i | 0 <= i < |orderPool.storage| :: fresh(orderPool.storage[i])
      ensures forall i | 0 <= i < |levelPool.storage| :: fresh(levelPool.storage[i])
    {
      bids, asks, orderMap := [], [], map[];
      totalTradesCount, totalVolumeTraded := 0, 0;
      model, leaked := E.Empty(orderCap, levelCap), {};
      var orders := NewOrders(orderCap);
      var levels := NewLevels(levelCap);
      orderPool := new ObjectPool(orders);
      levelPool := new ObjectPool(levels);
      new;
      E.EmptyIsOk(orderCap, levelCap);
      hide E.Ok, OrderSlots, LevelSlots;
      EmptyHoldsNothing(orderCap, levelCap);
    }

    ghost predicate CountersAre(e: E.State)
      reads this`totalTradesCount, this`totalVolumeTraded
    {
      totalTradesCount == e.tradeCount && totalVolumeTraded == e.volumeTraded
    }

    /** The statistics of one trade. */
    method Record(trade: Trade, ghost e: E.State)
      requires Stands(e, orderMap) && CountersAre(e)
      modifies this`totalTradesCount, this`totalVolumeTraded
      ensures Stands(E.Counted(e, [trade]), orderMap) && CountersAre(E.Counted(e, [trade]))
    {
      hide SideStands;
      ghost var levels, orders := Levels(), Orders();
      totalTradesCount := (totalTradesCount + 1) % U64;
      totalVolumeTraded := (totalVolumeTraded + trade.qty) % U64;
      MS.CountOne(e, trade);
    }

    /** The quantities of one fill. */
    method FillFirst(side: Side, level: PriceLevel, maker: Order, taker: Order, ghost e: E.State) returns (fillQty: u32)
      requires Stands(e, orderMap) && Separate(bids, asks)
      requires Nodes(side) != [] && Nodes(side)[0].level == level && level.head == maker && taker.priceLevelPtr == null
      modifies maker`remainingQty, taker`remainingQty, level`totalVolume
      ensures var ls := e.On(side);
              && ls != [] && ls[0].orders != [] && level.price == ls[0].price
              && fillQty == Min(old(taker.remainingQty), ls[0].orders[0].qty)
              && taker.remainingQty == old(taker.remainingQty) - fillQty
              && maker.id == ls[0].orders[0].id && maker.remainingQty == ls[0].orders[0].qty - fillQty
              && Stands(e.With(side, MS.Filled(ls, fillQty)), orderMap)
    {
      hide SideStands, Represents, Separate, LB.FillHead;
      ghost var other := side.Opposite();
      SeparateSwaps(bids, asks);
      fillQty := FillAt(side, level, Nodes(side), e.On(side), Nodes(other), e.On(other), orderMap, maker, taker, 0);
    }

    /** One fill of the matching loops: quantities, cached volume, event, statistics. */
    method FillHead(side: Side, level: PriceLevel, maker: Order, taker: Order, ghost e: E.State,
                    ghost limbo: set<Order>)
      returns (trade: Trade)
      requires Stands(e, orderMap) && Tidy(e, limbo)
      requires Nodes(side) != [] && Nodes(side)[0].level == level && level.head == maker && taker.priceLevelPtr == null
      modifies maker`remainingQty, taker`remainingQty, level`totalVolume
      modifies this`totalTradesCount, this`totalVolumeTraded
      ensures var ls := e.On(side);
              && ls != [] && ls[0].orders != []
              && trade == Trade(ls[0].orders[0].id, taker.id, ls[0].price,
                                Min(old(taker.remainingQty), ls[0].orders[0].qty))
              && taker.remainingQty == old(taker.remainingQty) - trade.qty
              && maker.id == ls[0].orders[0].id && maker.remainingQty == ls[0].orders[0].qty - trade.qty
              && var e' := E.Counted(e.With(side, MS.Filled(ls, trade.qty)), [trade]);
                 Stands(e', orderMap) && Tidy(e', limbo)
    {
      hide Stands, OrderSlots, LB.FillHead, ObjectPool.Valid, LevelSet, Separate;
      var fillQty := FillFirst(side, level, maker, taker, e);
      trade := Trade(maker.id, taker.id, level.price, fillQty);
      FillKeepsOrderSlots(orderMap, orderPool.used, |orderPool.freeList|, e, limbo, side, fillQty, trade);
      Record(trade, e.With(side, MS.Filled(e.On(side), fillQty)));
    }

    /** What the head of level `k` says about the model. */
    lemma HeadIs(side: Side, k: nat, e: E.State, idx: map<u64, Order>)
      requires Stands(e, idx) && k < |Nodes(side)|
      ensures |Nodes(side)| == |e.On(side)|
      ensures var level := Nodes(side)[k].level; var v := e.On(side)[k];
              && level.price == v.price && |level.chain| == |v.orders|
              && (level.head == null <==> v.orders == [])
              && (level.head != null ==>
                    && level.chain[0] == level.head && level.head.priceLevelPtr == level
                    && level.head.id == v.orders[0].id && level.head.id in idx && idx[level.head.id] == level.head)
    {
      var level := Nodes(side)[k].level;
      assert Represents(side, Nodes(side)[k], e.On(side)[k], idx);
      level.Ends();
      level.MembersPointHere();
      if level.chain != [] {
        assert Stores(side, level.chain[0], e.On(side)[k].orders[0], idx);
      }
    }

    lemma HeadIsNull(side: Side, e: E.State, idx: map<u64, Order>)
      requires Stands(e, idx) && Nodes(side) != []
      ensures e.On(side) != [] && (Nodes(side)[0].level.head == null <==> e.On(side)[0].orders == [])
    {
      HeadIs(side, 0, e, idx);
    }

    /** `PriceLevel::remove` on order `p` of level `k`. */
    method UnlinkOrder(side: Side, ghost k: nat, level: PriceLevel, order: Order, ghost p: nat, ghost e: E.State,
                       ghost idx: map<u64, Order>)
      requires Stands(e, idx) && Separate(bids, asks)
      requires k < |Nodes(side)| && Nodes(side)[k].level == level && p < |level.chain| && level.chain[p] == order
      modifies level`head, level`tail, level`totalVolume
      modifies level`orderCount, level`chain
      modifies order`priceLevelPtr, level.chain`prev, level.chain`next
      ensures order.priceLevelPtr == null
      ensures p == 0 ==> level.head == old(order.next)
      ensures var ls := e.On(side);
              && p < |ls[k].orders| && Stands(e.With(side, ls[k := LB.Unlink(ls[k], p)]), idx)
    {
      hide SideStands, Represents, Separate, LB.Unlink;
      ghost var other := side.Opposite();
      SeparateSwaps(bids, asks);
      RemoveAt(side, level, Nodes(side), e.On(side), Nodes(other), e.On(other), idx, order, k, p);
    }

    /** `ObjectPool::deallocate` on an order. */
    method Release(order: Order, ghost e: E.State)
      requires Stands(e, orderMap) && orderPool.Valid() && order in orderPool.used
      modifies orderPool
      ensures Stands(e, orderMap) && orderPool.Valid()
      ensures orderPool.freeList == old(orderPool.freeList) + [order] && orderPool.used == old(orderPool.used) - {order}
    {
      hide Stands, ObjectPool.Valid;
      ghost var levels, orders := Levels(), Orders();
      orderPool.Deallocate(order);
    }

    lemma Forgotten(e: E.State, idx: map<u64, Order>, id: u64)
      requires Stands(e, idx) && !PB.Has(LB.Flat(e.bids), id) && !PB.Has(LB.Flat(e.asks), id)
      ensures Stands(e, idx - {id})
    {
      hide SideStands;
      SideForgets(Buy, bids, e.bids, idx, id);
      SideForgets(Sell, asks, e.asks, idx, id);
    }

    /** A filled maker leaves the index, its level and its slot. */
    method DropHead(side: Side, level: PriceLevel, maker: Order, ghost e: E.State, ghost limbo: set<Order>)
      requires Stands(e, orderMap) && Tidy(e, limbo)
      requires Nodes(side) != [] && Nodes(side)[0].level == level && level.head == maker
      modifies this`orderMap, orderPool
      modifies level`head, level`tail, level`totalVolume
      modifies level`orderCount, level`chain
      modifies maker`priceLevelPtr, level.chain`prev, level.chain`next
      ensures level.head == old(maker.next)
      ensures var ls := e.On(side);
              && ls != [] && ls[0].orders != []
              && var e' := e.With(side, ls[0 := LB.Unlink(ls[0], 0)]);
                 Stands(e', orderMap) && Tidy(e', limbo)
    {
      hide Stands, OrderSlots, LB.Unlink, ObjectPool.Valid, LevelSet, Separate;
      HeadIs(side, 0, e, orderMap);
      ghost var idx, ls := orderMap, e.On(side);
      ghost var e' := e.With(side, ls[0 := LB.Unlink(ls[0], 0)]);
      DropKeepsOrderSlots(orderMap, orderPool.used, |orderPool.freeList|, e, limbo, side);
      orderMap := orderMap - {maker.id};
      UnlinkOrder(side, 0, level, maker, 0, e, idx);
      Forgotten(e', idx, maker.id);
      Release(maker, e');
    }

    lemma InStorage(side: Side, k: nat, e: E.State, limbo: set<Order>)
      requires Stands(e, orderMap) && Tidy(e, limbo) && k < |Nodes(side)|
      ensures Nodes(side)[k].level in levelPool.storage
      ensures forall o {:trigger o in Nodes(side)[k].level.chain} | o in Nodes(side)[k].level.chain ::
                o in orderPool.storage
      ensures forall j {:trigger Nodes(side)[k].level.chain[j]} | 0 <= j < |Nodes(side)[k].level.chain| ::
                Nodes(side)[k].level.chain[j] in orderPool.storage
      ensures forall o | o in limbo :: o in orderPool.storage
    {
      hide OrderSlots, LevelSlots, Represents;
      LevelsAreUsed(bids, asks, levelPool.used, |levelPool.freeList|, e);
      RestingOrdersAreUsed(orderMap, orderPool.used, |orderPool.freeList|, e, limbo,
                           side, Nodes(side)[k], e.On(side)[k]);
      LimboIsUsed(orderMap, orderPool.used, |orderPool.freeList|, e, limbo);
    }

    /** One pass of the inner loop: fill the first maker, and let it go when nothing is left of it. */
    method MatchMaker(side: Side, level: PriceLevel, maker: Order, taker: Order, ghost e: E.State,
                      ghost limbo: set<Order>)
      returns (trade: Trade)
      requires Stands(e, orderMap) && Tidy(e, limbo)
      requires Nodes(side) != [] && Nodes(side)[0].level == level && level.head == maker
      requires taker in limbo && taker.priceLevelPtr == null
      modifies this`orderMap, this`totalTradesCount, this`totalVolumeTraded, orderPool
      modifies orderPool.storage`remainingQty, orderPool.storage`priceLevelPtr
      modifies orderPool.storage`prev, orderPool.storage`next
      modifies levelPool.storage`head, levelPool.storage`tail, levelPool.storage`totalVolume
      modifies levelPool.storage`orderCount, levelPool.storage`chain
      ensures taker.priceLevelPtr == null
      ensures old(taker.remainingQty) > 0 && taker.remainingQty > 0 ==> level.head == old(maker.next)
      ensures e.On(side) != [] && e.On(side)[0].orders != []
      ensures trade == MS.MakerTrade(TakerOf(taker), old(taker.remainingQty), e, side)
      ensures taker.remainingQty == old(taker.remainingQty) - trade.qty
      ensures Stands(MS.AfterMaker(TakerOf(taker), old(taker.remainingQty), e, side), orderMap)
      ensures Tidy(MS.AfterMaker(TakerOf(taker), old(taker.remainingQty), e, side), limbo)
    {
      hide Stands, Tidy, MS.InLevel, LB.Unlink, LB.FillHead, MS.AfterFill, E.Counted, MS.Filled;
      HeadIs(side, 0, e, orderMap);
      InStorage(side, 0, e, limbo);
      assert maker in level.chain;
      trade := FillHead(side, level, maker, taker, e, limbo);
      MS.FillThenUnlink(e, side, trade.qty, trade);
      ghost var e1 := E.Counted(e.With(side, MS.Filled(e.On(side), trade.qty)), [trade]);
      if maker.remainingQty == 0 {
        InStorage(side, 0, e1, limbo);
        HeadIs(side, 0, e1, orderMap);
        DropHead(side, level, maker, e1, limbo);
      }
    }

    /** The inner matching loop, the same for both sides: `taker` against the first level of `side`. */
    method MatchLevel(side: Side, taker: Order, ghost e0: E.State, ghost limbo: set<Order>) returns (trades: seq<Trade>)
      requires Stands(e0, orderMap) && Tidy(e0, limbo) && Nodes(side) != []
      requires taker in limbo && taker.priceLevelPtr == null
      modifies this`orderMap, this`totalTradesCount, this`totalVolumeTraded, orderPool
      modifies orderPool.storage`remainingQty, orderPool.storage`priceLevelPtr
      modifies orderPool.storage`prev, orderPool.storage`next
      modifies levelPool.storage`head, levelPool.storage`tail, levelPool.storage`totalVolume
      modifies levelPool.storage`orderCount, levelPool.storage`chain
      ensures e0.On(side) != [] && taker.priceLevelPtr == null
      ensures var r := LB.MatchLevel(TakerOf(taker), old(taker.remainingQty), e0.On(side)[0]);
              && trades == r.trades && taker.remainingQty == r.left
              && var e := MS.InLevel(e0, side, r.level, trades); Stands(e, orderMap) && Tidy(e, limbo)
    {
      hide Stands, Tidy, MS.InLevel, LB.MatchLevel, MS.LevelRest, MS.AfterFill, MS.AfterMaker, MS.MakerTrade, E.Counted;
      HeadIsNull(side, e0, orderMap);
      ghost var t := TakerOf(taker);
      ghost var whole := LB.MatchLevel(t, taker.remainingQty, e0.On(side)[0]);
      ghost var l := e0.On(side)[0];
      ghost var e := e0;
      trades := [];
      MS.InLevelStarts(e0, side);
      MS.LevelStarts(t, taker.remainingQty, l);
      var level := Nodes(side)[0].level;
      var maker := level.head;
      while maker != null && taker.remainingQty > 0
        invariant Stands(e, orderMap) && Tidy(e, limbo)
        invariant e == MS.InLevel(e0, side, l, trades) && MS.LevelRest(t, whole, taker.remainingQty, l, trades)
        invariant taker.remainingQty > 0 ==> maker == level.head
        invariant taker.priceLevelPtr == null
        decreases |l.orders|, taker.remainingQty
      {
        HeadIsNull(side, e, orderMap);
        MS.InLevelIsThere(e0, side, l, trades);
        MS.InnerStep(e0, side, t, whole, taker.remainingQty, l, trades);
        var next := maker.next;
        var trade := MatchMaker(side, level, maker, taker, e, limbo);
        l, trades := MS.AfterFill(l, trade.qty), trades + [trade];
        e := MS.InLevel(e0, side, l, trades);
        maker := next;
      }
      HeadIsNull(side, e, orderMap);
      MS.InLevelIsThere(e0, side, l, trades);
      MS.LevelDone(t, whole, taker.remainingQty, l, trades);
    }

    /** `ObjectPool::deallocate` on a level. */
    method ReleaseLevel(level: PriceLevel, ghost e: E.State)
      requires Stands(e, orderMap) && levelPool.Valid() && level in levelPool.used
      modifies levelPool
      ensures Stands(e, orderMap) && levelPool.Valid()
      ensures levelPool.freeList == old(levelPool.freeList) + [level] && levelPool.used == old(levelPool.used) - {level}
    {
      hide Stands, ObjectPool.Valid;
      ghost var levels, orders := Levels(), Orders();
      levelPool.Deallocate(level);
    }

    /** An emptied level goes back to its pool and leaves its map. */
    method DropLevel(side: Side, k: nat, ghost e: E.State, ghost limbo: set<Order>)
      requires Stands(e, orderMap) && Tidy(e, limbo)
      requires k < |Nodes(side)| && k < |e.On(side)| && e.On(side)[k].orders == []
      modifies this`bids, this`asks, levelPool
      ensures Nodes(side) == Splice(old(Nodes(side)), k, [], k + 1) && |Nodes(side)| == |old(Nodes(side))| - 1
      ensures Nodes(side.Opposite()) == old(Nodes(side.Opposite()))
      ensures levelPool.freeList == old(levelPool.freeList) + [old(Nodes(side)[k].level)]
      ensures var e' := e.With(side, Splice(e.On(side), k, [], k + 1));
              Stands(e', orderMap) && Tidy(e', limbo)
    {
      hide SideStands, OrderSlots, LevelSlots, ObjectPool.Valid;
      ghost var other := side.Opposite();
      var nodes := Nodes(side);
      EraseKeepsSlots(side, nodes, Nodes(other), levelPool.used, |levelPool.freeList|,
                      orderMap, orderPool.used, |orderPool.freeList|, e, limbo, k);
      ReleaseLevel(nodes[k].level, e);
      SideWithout(side, nodes, e.On(side), orderMap, k);
      if side.Buy? {
        bids := Splice(bids, k, [], k + 1);
      } else {
        asks := Splice(asks, k, [], k + 1);
      }
    }

    lemma Lengths(side: Side, e: E.State)
      requires Stands(e, orderMap)
      ensures |Nodes(side)| == |e.On(side)|
    {
    }

    lemma HeadPrice(side: Side, e: E.State)
      requires Stands(e, orderMap) && Nodes(side) != []
      ensures e.On(side) != [] && Nodes(side)[0].level.price == e.On(side)[0].price
    {
      HeadIs(side, 0, e, orderMap);
    }

    /** Half way through the outer loop: `ls` and `matches` are what is left of side `side` and what has been
        traded, and matching the rest completes `whole`. */
    ghost predicate Sweeping(side: Side, taker: Order, e0: E.State, limbo: set<Order>,
                             whole: LB.SideFill, ls: seq<LB.Level>, matches: seq<Trade>)
      reads *
    {
      && Stands(MS.InSide(e0, side, ls, matches), orderMap) && Tidy(MS.InSide(e0, side, ls, matches), limbo)
      && MS.SideRest(TakerOf(taker), whole, taker.remainingQty, ls, matches)
      && |Nodes(side)| == |ls| && taker.priceLevelPtr == null
    }

    lemma StartsSweeping(side: Side, taker: Order, e0: E.State, limbo: set<Order>)
      requires Stands(e0, orderMap) && Tidy(e0, limbo) && taker.priceLevelPtr == null
      ensures Sweeping(side, taker, e0, limbo, LB.MatchLevels(TakerOf(taker), taker.remainingQty, e0.On(side)),
                       e0.On(side), [])
      ensures |Nodes(side)| == |e0.On(side)|
    {
      hide Stands, Tidy, LB.MatchLevels, MS.InSide, MS.SideRest;
      MS.InSideStarts(e0, side);
      MS.SideStarts(TakerOf(taker), taker.remainingQty, e0.On(side));
      Lengths(side, e0);
    }

    lemma SweepingLevel(side: Side, taker: Order, e0: E.State, limbo: set<Order>,
                        whole: LB.SideFill, ls: seq<LB.Level>, matches: seq<Trade>)
      requires Sweeping(side, taker, e0, limbo, whole, ls, matches) && Nodes(side) != []
      ensures Nodes(side)[0].level.price == ls[0].price
    {
      hide Stands, Tidy, MS.InSide, MS.SideRest;
      MS.InSideIsThere(e0, side, ls, matches);
      HeadPrice(side, MS.InSide(e0, side, ls, matches));
    }

    lemma Swept(side: Side, taker: Order, e0: E.State, limbo: set<Order>,
                whole: LB.SideFill, ls: seq<LB.Level>, matches: seq<Trade>)
      requires Sweeping(side, taker, e0, limbo, whole, ls, matches) && side == taker.side.Opposite()
      requires taker.remainingQty == 0 || ls == [] || !Crosses(TakerOf(taker), ls[0].price)
      ensures matches == whole.trades && taker.remainingQty == whole.left
      ensures var e := E.AfterMatch(e0, TakerOf(taker), whole); Stands(e, orderMap) && Tidy(e, limbo)
    {
      hide Stands, Tidy, MS.InSide, MS.SideRest, E.AfterMatch;
      MS.SideDone(TakerOf(taker), whole, taker.remainingQty, ls, matches);
      MS.InSideIsAfterMatch(e0, TakerOf(taker), whole);
    }

    /** One pass of the outer loops once the price is acceptable: match the level, erase it when that empties
        it, and step on when it does not. */
    method SweepLevel(side: Side, it: nat, level: PriceLevel, taker: Order, matches0: seq<Trade>, ghost e0: E.State,
                      ghost limbo: set<Order>, ghost whole: LB.SideFill, ghost ls: seq<LB.Level>)
      returns (matches: seq<Trade>, it': nat, ghost ls': seq<LB.Level>)
      requires Sweeping(side, taker, e0, limbo, whole, ls, matches0) && taker in limbo && taker.remainingQty > 0
      requires it == 0 < |Nodes(side)| && Nodes(side)[0].level == level && Crosses(TakerOf(taker), ls[0].price)
      modifies this`bids, this`asks, this`orderMap, this`totalTradesCount, this`totalVolumeTraded
      modifies orderPool, levelPool
      modifies orderPool.storage`remainingQty, orderPool.storage`priceLevelPtr
      modifies orderPool.storage`prev, orderPool.storage`next
      modifies levelPool.storage`head, levelPool.storage`tail, levelPool.storage`totalVolume
      modifies levelPool.storage`orderCount, levelPool.storage`chain
      ensures Sweeping(side, taker, e0, limbo, whole, ls', matches)
      ensures Nodes(side.Opposite()) == old(Nodes(side.Opposite()))
      ensures (it' == 0 || taker.remainingQty == 0) && taker.priceLevelPtr == null && |Nodes(side)| == |ls'|
      ensures matches0 == [] && ls[0].orders != [] ==> matches != []
      ensures matches0 != [] ==> matches != []
      ensures |ls'| < |ls| || (|ls'| == |ls| && taker.remainingQty < old(taker.remainingQty))
    {
      hide Stands, Tidy, LB.MatchLevel, MS.InSide, MS.InLevel, MS.SideRest, MS.AfterLevel, Splice;
      ghost var t, q, e := TakerOf(taker), taker.remainingQty, MS.InSide(e0, side, ls, matches0);
      ghost var r := LB.MatchLevel(t, q, ls[0]);
      MS.InSideIsThere(e0, side, ls, matches0);
      MS.OuterStep(t, whole, q, ls, matches0);
      MS.LevelThenErase(e0, side, ls, matches0, r.level, r.trades);
      if ls[0].orders != [] {
        MS.SomethingTrades(t, q, ls[0]);
      }
      var trades := MatchLevel(side, taker, e, limbo);
      matches := matches0 + trades;
      ghost var e1 := MS.InLevel(e, side, r.level, trades);
      HeadIsNull(side, e1, orderMap);
      it' := it;
      if level.IsEmpty() {
        DropLevel(side, it, e1, limbo);
      } else {
        it' := it + 1;
      }
      ls' := MS.AfterLevel(ls, r.level);
    }

    /** Buy against the asks, lowest price first. */
    method MatchBuyOrder(buyOrder: Order, ghost e0: E.State, ghost limbo: set<Order>) returns (matches: seq<Trade>)
      requires Stands(e0, orderMap) && Tidy(e0, limbo)
      requires buyOrder in limbo && buyOrder.priceLevelPtr == null && buyOrder.side.Buy?
      requires LB.LevelsOk(Sell, e0.On(Sell))
      modifies this`bids, this`asks, this`orderMap, this`totalTradesCount, this`totalVolumeTraded
      modifies orderPool, levelPool
      modifies orderPool.storage`remainingQty, orderPool.storage`priceLevelPtr
      modifies orderPool.storage`prev, orderPool.storage`next
      modifies levelPool.storage`head, levelPool.storage`tail, levelPool.storage`totalVolume
      modifies levelPool.storage`orderCount, levelPool.storage`chain
      ensures buyOrder.priceLevelPtr == null && bids == old(bids)
      ensures matches == [] ==> asks == old(asks) && orderMap == old(orderMap)
      ensures matches == [] ==>
                orderPool.freeList == old(orderPool.freeList) && levelPool.freeList == old(levelPool.freeList)
      ensures buyOrder.kind == Limit ==> forall i | 0 <= i < |matches| :: matches[i].price <= buyOrder.price
      ensures var r := LB.MatchLevels(TakerOf(buyOrder), old(buyOrder.remainingQty), e0.On(Sell));
              && matches == r.trades && buyOrder.remainingQty == r.left
              && var e := E.AfterMatch(e0, TakerOf(buyOrder), r); Stands(e, orderMap) && Tidy(e, limbo)
    {
      hide Sweeping, Stands, Tidy, LB.MatchLevels, E.AfterMatch;
      ghost var whole := LB.MatchLevels(TakerOf(buyOrder), buyOrder.remainingQty, e0.On(Sell));
      ghost var ls := e0.On(Sell);
      StartsSweeping(Sell, buyOrder, e0, limbo);
      matches := [];
      var askIt := 0;
      while askIt < |asks| && buyOrder.remainingQty > 0
        invariant Sweeping(Sell, buyOrder, e0, limbo, whole, ls, matches)
        invariant askIt == 0 || buyOrder.remainingQty == 0
        invariant buyOrder.priceLevelPtr == null && bids == old(bids) && |asks| == |ls|
        invariant matches == [] ==> ls == e0.On(Sell) && asks == old(asks) && orderMap == old(orderMap)
        invariant matches == [] ==>
                    orderPool.freeList == old(orderPool.freeList) && levelPool.freeList == old(levelPool.freeList)
        decreases |ls|, buyOrder.remainingQty
      {
        var askLevel := asks[askIt].level;
        SweepingLevel(Sell, buyOrder, e0, limbo, whole, ls, matches);
        if buyOrder.kind.Limit? && askLevel.price > buyOrder.price {
          break;
        }
        assert matches == [] ==> LB.LevelOk(ls[0]);
        matches, askIt, ls := SweepLevel(Sell, askIt, askLevel, buyOrder, matches, e0, limbo, whole, ls);
      }
      Swept(Sell, buyOrder, e0, limbo, whole, ls, matches);
      if buyOrder.kind == Limit {
        LB.LevelsKeepLimit(TakerOf(buyOrder), old(buyOrder.remainingQty), e0.On(Sell));
      }
    }

    /** Sell against the bids, highest price first. */
    method MatchSellOrder(sellOrder: Order, ghost e0: E.State, ghost limbo: set<Order>) returns (matches: seq<Trade>)
      requires Stands(e0, orderMap) && Tidy(e0, limbo)
      requires sellOrder in limbo && sellOrder.priceLevelPtr == null && sellOrder.side.Sell?
      requires LB.LevelsOk(Buy, e0.On(Buy))
      modifies this`bids, this`asks, this`orderMap, this`totalTradesCount, this`totalVolumeTraded
      modifies orderPool, levelPool
      modifies orderPool.storage`remainingQty, orderPool.storage`priceLevelPtr
      modifies orderPool.storage`prev, orderPool.storage`next
      modifies levelPool.storage`head, levelPool.storage`tail, levelPool.storage`totalVolume
      modifies levelPool.storage`orderCount, levelPool.storage`chain
      ensures sellOrder.priceLevelPtr == null && asks == old(asks)
      ensures matches == [] ==> bids == old(bids) && orderMap == old(orderMap)
      ensures matches == [] ==>
                orderPool.freeList == old(orderPool.freeList) && levelPool.freeList == old(levelPool.freeList)
      ensures sellOrder.kind == Limit ==> forall i | 0 <= i < |matches| :: matches[i].price >= sellOrder.price
      ensures var r := LB.MatchLevels(TakerOf(sellOrder), old(sellOrder.remainingQty), e0.On(Buy));
              && matches == r.trades && sellOrder.remainingQty == r.left
              && var e := E.AfterMatch(e0, TakerOf(sellOrder), r); Stands(e, orderMap) && Tidy(e, limbo)
    {
      hide Sweeping, Stands, Tidy, LB.MatchLevels, E.AfterMatch;
      ghost var whole := LB.MatchLevels(TakerOf(sellOrder), sellOrder.remainingQty, e0.On(Buy));
      ghost var ls := e0.On(Buy);
      StartsSweeping(Buy, sellOrder, e0, limbo);
      matches := [];
      var bidIt := 0;
      while bidIt < |bids| && sellOrder.remainingQty > 0
        invariant Sweeping(Buy, sellOrder, e0, limbo, whole, ls, matches)
        invariant bidIt == 0 || sellOrder.remainingQty == 0
        invariant sellOrder.priceLevelPtr == null && asks == old(asks) && |bids| == |ls|
        invariant matches == [] ==> ls == e0.On(Buy) && bids == old(bids) && orderMap == old(orderMap)
        invariant matches == [] ==>
                    orderPool.freeList == old(orderPool.freeList) && levelPool.freeList == old(levelPool.freeList)
        decreases |ls|, sellOrder.remainingQty
      {
        var bidLevel := bids[bidIt].level;
        SweepingLevel(Buy, sellOrder, e0, limbo, whole, ls, matches);
        if sellOrder.kind.Limit? && bidLevel.price < sellOrder.price {
          break;
        }
        assert matches == [] ==> LB.LevelOk(ls[0]);
        matches, bidIt, ls := SweepLevel(Buy, bidIt, bidLevel, sellOrder, matches, e0, limbo, whole, ls);
      }
      Swept(Buy, sellOrder, e0, limbo, whole, ls, matches);
      if sellOrder.kind == Limit {
        LB.LevelsKeepLimit(TakerOf(sellOrder), old(sellOrder.remainingQty), e0.On(Buy));
      }
    }

    lemma RestingAreUsed(e: E.State, limbo: set<Order>)
      requires Stands(e, orderMap) && Tidy(e, limbo)
      ensures Orders() <= orderPool.used && Levels() <= levelPool.used
    {
      hide OrderSlots, LevelSlots, Represents;
      LevelsAreUsed(bids, asks, levelPool.used, |levelPool.freeList|, e);
      forall i | 0 <= i < |bids|
        ensures forall j | 0 <= j < |bids[i].level.chain| :: bids[i].level.chain[j] in orderPool.used
      {
        RestingOrdersAreUsed(orderMap, orderPool.used, |orderPool.freeList|, e, limbo, Buy, bids[i], e.bids[i]);
      }
      forall i | 0 <= i < |asks|
        ensures forall j | 0 <= j < |asks[i].level.chain| :: asks[i].level.chain[j] in orderPool.used
      {
        RestingOrdersAreUsed(orderMap, orderPool.used, |orderPool.freeList|, e, limbo, Sell, asks[i], e.asks[i]);
      }
    }

    /** `orderPool_.allocate(id, price, qty, side, type, 0)`. */
    method Admit(t: Taker, qty: u32, ghost e: E.State, ghost limbo: set<Order>) returns (taker: Order?)
      requires Stands(e, orderMap) && Tidy(e, limbo)
      modifies orderPool, orderPool.storage
      ensures taker == null <==> old(orderPool.freeList) == []
      ensures taker == null ==> orderPool.freeList == old(orderPool.freeList) && Tidy(e, limbo)
      ensures taker != null ==>
                && TakerOf(taker) == t && taker.remainingQty == qty && taker.priceLevelPtr == null
                && taker !in limbo && Tidy(e, limbo + {taker})
                && old(orderPool.freeList) == orderPool.freeList + [taker]
      ensures Stands(e, orderMap)
    {
      hide Stands, OrderSlots, LevelSlots;
      RestingAreUsed(e, limbo);
      LimboIsUsed(orderMap, orderPool.used, |orderPool.freeList|, e, limbo);
      var slot := orderPool.Allocate();
      if slot.None? {
        return null;
      }
      taker := slot.value;
      AdmitKeepsOrderSlots(orderMap, old(orderPool.used), |old(orderPool.freeList)|, e, limbo, taker);
      taker.Reset(t.id, t.price, qty, t.side, t.kind);
    }

    method GetOrCreatePriceLevel(side: Side, price: u64, ghost e: E.State, ghost limbo: set<Order>)
      returns (level: PriceLevel?)
      requires Stands(e, orderMap) && Tidy(e, limbo)
      modifies this`bids, this`asks, levelPool, levelPool.storage
      ensures Nodes(side.Opposite()) == old(Nodes(side.Opposite()))
      ensures level == null <==> !LB.HasLevel(side, e.On(side), price) && old(levelPool.freeList) == []
      ensures level == null ==> levelPool.freeList == old(levelPool.freeList) && Stands(e, orderMap) && Tidy(e, limbo)
      ensures level != null ==>
                var k := LB.LowerBound(side, e.On(side), price);
                && k < |Nodes(side)| && Nodes(side)[k].level == level
                && LevelJoined(old(Nodes(side)), old(levelPool.freeList), Nodes(side), levelPool.freeList, k,
                               LB.HasLevel(side, e.On(side), price))
      ensures level != null ==>
                var e' := e.With(side, MS.WithLevel(side, e.On(side), price));
                Stands(e', orderMap) && Tidy(e', limbo)
    {
      hide SideStands, OrderSlots, LevelSlots, Represents, ObjectPool.Valid, Splice, LB.LowerBound, NodeBound;
      var nodes := Nodes(side);
      KeysArePrices(side, nodes, e.On(side), orderMap, price);
      var k := NodeBound(side, nodes, price);
      if k < |nodes| && nodes[k].key == price {
        return nodes[k].level;
      }
      level := CreateLevel(side, k, price, e, limbo);
    }

    /** A new level at position `k` of a map. */
    method CreateLevel(side: Side, k: nat, price: u64, ghost e: E.State, ghost limbo: set<Order>)
      returns (level: PriceLevel?)
      requires Stands(e, orderMap) && Tidy(e, limbo) && k <= |Nodes(side)| == |e.On(side)|
      modifies this`bids, this`asks, levelPool, levelPool.storage
      ensures Nodes(side.Opposite()) == old(Nodes(side.Opposite()))
      ensures level == null <==> old(levelPool.freeList) == []
      ensures level == null ==> levelPool.freeList == old(levelPool.freeList) && Stands(e, orderMap) && Tidy(e, limbo)
      ensures level != null ==>
                && Nodes(side) == Splice(old(Nodes(side)), k, [MapNode(price, level)], k)
                && k < |Nodes(side)| && Nodes(side)[k] == MapNode(price, level)
                && old(levelPool.freeList) == levelPool.freeList + [level]
      ensures level != null ==>
                var e' := e.With(side, Splice(e.On(side), k, [LB.Level(price, 0, [])], k));
                Stands(e', orderMap) && Tidy(e', limbo)
    {
      hide SideStands, OrderSlots, LevelSlots, Represents, ObjectPool.Valid, Splice, LB.Flat;
      ghost var other := side.Opposite();
      var nodes := Nodes(side);
      var slot := AllocateLevel(price, e, limbo);
      if slot == null {
        return null;
      }
      level := slot;
      ghost var v := LB.Level(price, 0, []);
      var n := MapNode(price, level);
      FreshLevelRepresents(side, level, price, orderMap);
      SideWith(side, nodes, e.On(side), orderMap, k, n, v);
      CreateKeepsSlots(side, nodes, Nodes(other), old(levelPool.used), |old(levelPool.freeList)|, e, k, n, v);
      MS.NewLevelAddsNothing(e.On(side), k, price);
      SameOrdersKeepOrderSlots(orderMap, orderPool.used, |orderPool.freeList|, e,
                               e.With(side, Splice(e.On(side), k, [v], k)), limbo);
      SpliceAt(nodes, k, [n], k);
      SpliceAt(e.On(side), k, [v], k);
      if side.Buy? {
        bids := Splice(bids, k, [n], k);
      } else {
        asks := Splice(asks, k, [n], k);
      }
    }

    /** `levelPool_.allocate(price)`. */
    method AllocateLevel(price: u64, ghost e: E.State, ghost limbo: set<Order>) returns (level: PriceLevel?)
      requires Stands(e, orderMap) && Tidy(e, limbo)
      modifies levelPool, levelPool.storage
      ensures Stands(e, orderMap) && levelPool.Valid()
      ensures level == null <==> old(levelPool.freeList) == []
      ensures level == null ==> levelPool.freeList == old(levelPool.freeList) && levelPool.used == old(levelPool.used)
      ensures level != null ==>
                && level.price == price && level.totalVolume == 0 && level.chain == [] && level.Shape()
                && level !in old(levelPool.used) && levelPool.used == old(levelPool.used) + {level}
                && old(levelPool.freeList) == levelPool.freeList + [level]
    {
      hide Stands, OrderSlots, LevelSlots, PriceLevel.Spells;
      RestingAreUsed(e, limbo);
      var slot := levelPool.Allocate();
      if slot.None? {
        return null;
      }
      level := slot.value;
      level.Reset(price);
    }

    /** `level->append(order)` on level `k`, through an index that already knows the order. */
    method AppendOrder(side: Side, ghost k: nat, level: PriceLevel, order: Order, ghost e: E.State,
                       ghost idx: map<u64, Order>)
      requires Stands(e, idx) && Separate(bids, asks) && k < |Nodes(side)| && Nodes(side)[k].level == level
      requires order.priceLevelPtr == null && order.side == side && order.id !in idx
      modifies level`head, level`tail, level`totalVolume
      modifies level`orderCount, level`chain
      modifies order`priceLevelPtr, order`prev, order`next, level.chain`next
      ensures |Nodes(side)| == |e.On(side)|
      ensures var ls := e.On(side);
              var r := Rest(order.id, order.price, order.remainingQty);
              Stands(e.With(side, ls[k := LB.Append(ls[k], r)]), idx[order.id := order])
    {
      hide SideStands, Represents, Separate, LB.Append;
      ghost var other := side.Opposite();
      SeparateSwaps(bids, asks);
      SideLearns(Buy, bids, e.bids, idx, order.id, order);
      SideLearns(Sell, asks, e.asks, idx, order.id, order);
      AppendAt(side, level, Nodes(side), e.On(side), Nodes(other), e.On(other), idx[order.id := order], order, k);
    }

    /** The remainder of a limit order joins level `k` and the index. */
    method RestOrder(side: Side, ghost k: nat, level: PriceLevel, order: Order, ghost e: E.State,
                     ghost limbo: set<Order>)
      requires var e1 := e.With(side, MS.WithLevel(side, e.On(side), order.price));
               Stands(e1, orderMap) && Tidy(e1, limbo)
      requires k < |Nodes(side)| && Nodes(side)[k].level == level && k == LB.LowerBound(side, e.On(side), order.price)
      requires LB.LevelsOk(side, e.On(side))
      requires order in limbo && order.priceLevelPtr == null && order.side == side && order.id !in orderMap
      modifies this`orderMap
      modifies level`head, level`tail, level`totalVolume
      modifies level`orderCount, level`chain
      modifies order`priceLevelPtr, order`prev, order`next, level.chain`next
      ensures orderMap == old(orderMap)[order.id := order]
      ensures var r := Rest(order.id, order.price, order.remainingQty);
              var e' := e.With(side, LB.RestAt(side, e.On(side), r));
              Stands(e', orderMap) && Tidy(e', limbo - {order})
    {
      hide Stands, OrderSlots, Separate, LB.Append, LB.RestAt, LB.Flat, MS.WithLevel, LB.LowerBound, LB.HasLevel;
      hide LB.LevelsOk, ObjectPool.Valid, LevelSet;
      ghost var r := Rest(order.id, order.price, order.remainingQty);
      ghost var ls := MS.WithLevel(side, e.On(side), order.price);
      ghost var e1 := e.With(side, ls);
      MS.WithLevelThenAppend(side, e.On(side), r);
      SameOrdersKeepOrderSlots(orderMap, orderPool.used, |orderPool.freeList|, e1, e, limbo);
      RestKeepsOrderSlots(orderMap, orderPool.used, |orderPool.freeList|, e, limbo, side, r, order);
      AppendOrder(side, k, level, order, e1, orderMap);
      orderMap := orderMap[order.id := order];
    }

    /** Everything a caller of this class may touch. */
    ghost predicate Valid()
      reads *
    {
      && Stands(model, orderMap) && Tidy(model, leaked) && E.Ok(model) && |leaked| == model.leaked
      && |orderPool.storage| == model.orderCap && |levelPool.storage| == model.levelCap
    }

    /** The heap has come to stand for `e`. */
    ghost method Become(e: E.State, limbo: set<Order>)
      requires Stands(e, orderMap) && Tidy(e, limbo) && E.Ok(e) && |limbo| == e.leaked
      requires |orderPool.storage| == e.orderCap && |levelPool.storage| == e.levelCap
      modifies this`model, this`leaked
      ensures Valid() && model == e && leaked == limbo
    {
      hide Stands, Tidy, E.Ok;
      ghost var levels, orders := Levels(), Orders();
      model, leaked := e, limbo;
    }

    /** A taker that does not rest gives its slot back. */
    method Dismiss(taker: Order, ghost e: E.State, ghost limbo: set<Order>)
      requires Stands(e, orderMap) && Tidy(e, limbo) && taker in limbo
      modifies orderPool
      ensures Stands(e, orderMap) && Tidy(e, limbo - {taker})
      ensures orderPool.freeList == old(orderPool.freeList) + [taker]
    {
      hide Stands, OrderSlots, LevelSlots, ObjectPool.Valid;
      DismissKeepsOrderSlots(orderMap, orderPool.used, |orderPool.freeList|, e, limbo, taker);
      Release(taker, e);
    }

    /** What `addOrder` does with a taker after matching; false when no price level could be created, in which
        case the taker's slot stays in limbo. */
    method Settle(taker: Order, ghost e: E.State, ghost limbo: set<Order>) returns (ok: bool)
      requires Stands(e, orderMap) && Tidy(e, limbo)
      requires taker in limbo && taker.priceLevelPtr == null && taker.id !in orderMap
      requires LB.LevelsOk(taker.side, e.On(taker.side))
      modifies this`bids, this`asks, this`orderMap, orderPool, levelPool, levelPool.storage
      modifies orderPool.storage`priceLevelPtr, orderPool.storage`prev, orderPool.storage`next
      ensures var rests := taker.remainingQty > 0 && taker.kind.Limit?;
              && (ok <==> !(rests && !LB.HasLevel(taker.side, e.On(taker.side), taker.price) && e.FreeLevels() <= 0))
              && (!ok ==> Stands(e, orderMap) && Tidy(e, limbo))
              && (ok && !rests ==> Stands(e, orderMap) && Tidy(e, limbo - {taker}))
              && (ok && rests ==>
                    && orderMap == old(orderMap)[taker.id := taker] && orderPool.freeList == old(orderPool.freeList)
                    && Nodes(taker.side.Opposite()) == old(Nodes(taker.side.Opposite()))
                    && LevelJoined(old(Nodes(taker.side)), old(levelPool.freeList), Nodes(taker.side),
                                   levelPool.freeList,
                                   LB.LowerBound(taker.side, e.On(taker.side), taker.price),
                                   LB.HasLevel(taker.side, e.On(taker.side), taker.price)))
              && (ok && rests ==>
                    var r := Rest(taker.id, taker.price, taker.remainingQty);
                    var e' := e.With(taker.side, LB.RestAt(taker.side, e.On(taker.side), r));
                    Stands(e', orderMap) && Tidy(e', limbo - {taker}))
    {
      hide Stands, OrderSlots, LB.RestAt, MS.WithLevel, LB.LowerBound, LB.HasLevel, LB.LevelsOk, LevelSet, Separate;
      hide ObjectPool.Valid, LevelJoined;
      if taker.remainingQty > 0 && taker.kind.Limit? {
        var side := taker.side;
        ghost var k := LB.LowerBound(side, e.On(side), taker.price);
        var level := GetOrCreatePriceLevel(side, taker.price, e, limbo);
        if level == null {
          return false;
        }
        InStorage(side, k, e.With(side, MS.WithLevel(side, e.On(side), taker.price)), limbo);
        RestOrder(side, k, level, taker, e, limbo);
      } else {
        Dismiss(taker, e, limbo);
      }
      ok := true;
    }

    /** What the bookkeeping says about the model's counts and ids. */
    lemma CountsAgree(e: E.State, limbo: set<Order>)
      requires Tidy(e, limbo)
      ensures |orderPool.freeList| == e.FreeOrders() + e.leaked - |limbo|
      ensures |levelPool.freeList| == e.FreeLevels()
      ensures forall id {:trigger id in orderMap} :: id in orderMap <==> FB.Live(e.Flattened(), id)
    {
      hide ObjectPool.Valid, Separate, Injective;
      assert forall id :: id in orderMap <==> id in orderMap.Keys;
    }

    /** Counting a slot as leaked changes neither the levels nor the bookkeeping. */
    lemma LeakIsTidy(e: E.State, limbo: set<Order>)
      requires Stands(e, orderMap) && Tidy(e, limbo)
      ensures var e' := e.(leaked := e.leaked + 1); Stands(e', orderMap) && Tidy(e', limbo)
    {
      hide SideStands, MS.IndexOk, Separate, Injective, ObjectPool.Valid;
    }

    /** What a limit order that met no counterpart has changed, against the earlier maps, index and free lists. */
    ghost predicate RestedAlone(e: E.State, o: Order, bids0: seq<MapNode>, asks0: seq<MapNode>,
                                idx0: map<u64, Order>, orders0: seq<Order>, levels0: seq<PriceLevel>)
      reads this`bids, this`asks, this`orderMap, orderPool`freeList, levelPool`freeList, o`id, o`side, o`price
    {
      && orderMap == idx0[o.id := o] && orderPool.freeList == orders0
      && Nodes(o.side.Opposite()) == (if o.side.Buy? then asks0 else bids0)
      && LevelJoined(if o.side.Buy? then bids0 else asks0, levels0, Nodes(o.side), levelPool.freeList,
                     LB.LowerBound(o.side, e.On(o.side), o.price), LB.HasLevel(o.side, e.On(o.side), o.price))
    }

    /** The rest of `addOrder` once the taker has its slot: match it, then settle it. */
    method Execute(taker: Order, ghost e: E.State, ghost limbo: set<Order>) returns (out: E.Outcome)
      requires Stands(e, orderMap) && Tidy(e, limbo) && E.Ok(e) && e.FreeOrders() > 0
      requires taker in limbo && taker.priceLevelPtr == null && taker.remainingQty > 0 && taker.id !in orderMap
      modifies this`bids, this`asks, this`orderMap, this`totalTradesCount, this`totalVolumeTraded
      modifies orderPool, levelPool, levelPool.storage
      modifies orderPool.storage`remainingQty, orderPool.storage`priceLevelPtr
      modifies orderPool.storage`prev, orderPool.storage`next
      ensures out.Done? || out.LevelPoolExhausted?
      ensures out == E.AddOrder(e, TakerOf(taker), old(taker.remainingQty)).1
      ensures var e' := E.AddOrder(e, TakerOf(taker), old(taker.remainingQty)).0;
              Stands(e', orderMap) && Tidy(e', if out.Done? then limbo - {taker} else limbo)
      ensures out == E.Done([]) && taker.kind.Limit? ==>
                && taker.id in orderMap && orderMap[taker.id] == taker
                && RestedAlone(e, taker, old(bids), old(asks), old(orderMap), old(orderPool.freeList),
                               old(levelPool.freeList))
                && orderPool.freeList == old(orderPool.freeList)
    {
      hide Stands, Tidy, E.Ok, E.AfterMatch, LB.RestAt, LB.HasLevel, LB.MatchLevels, FB.Live, LevelJoined;
      hide LB.LowerBound;
      hide E.AddOrder, LB.LevelsOk, LB.Flat;
      ghost var t, qty := TakerOf(taker), taker.remainingQty;
      ghost var m := LB.MatchLevels(t, qty, e.On(t.side.Opposite()));
      ghost var e1 := E.AfterMatch(e, t, m);
      CountsAgree(e, limbo);
      E.LevelsAreOk(e);
      E.MatchPhase(e, t, qty);
      E.MatchPhaseAddsNoId(e, t, qty, t.id);
      var matches;
      if taker.side.Buy? {
        matches := MatchBuyOrder(taker, e, limbo);
      } else {
        matches := MatchSellOrder(taker, e, limbo);
      }
      CountsAgree(e1, limbo);
      E.AddSettles(e, t, qty);
      var ok := Settle(taker, e1, limbo);
      if ok {
        out := E.Done(matches);
      } else {
        LeakIsTidy(e1, limbo);
        out := E.LevelPoolExhausted;
      }
    }

    method AddOrder(id: u64, side: Side, price: u64, qty: u32, kind: OrderType) returns (out: E.Outcome)
      requires Valid()
      modifies this, orderPool, levelPool, orderPool.storage, levelPool.storage
      ensures Valid()
      ensures (model, out) == E.AddOrder(old(model), Taker(id, side, price, kind), qty)
      ensures out.Done? && kind == Limit ==>
                forall i | 0 <= i < |out.trades| ::
                  if side == Buy then out.trades[i].price <= price else out.trades[i].price >= price
      ensures out.Done? && qty > 0 && id !in old(orderMap) ==>
                var opp := LB.Flat(if side == Buy then old(model).asks else old(model).bids);
                var offered := if kind == Limit then PB.QtyWithin(side, price, opp) else RestingQty(opp);
                Volume(out.trades) == if qty < offered then qty else offered
      ensures out == E.Done([]) && qty > 0 && id !in old(orderMap) && kind.Limit? ==>
                && id in orderMap && TakerOf(orderMap[id]) == Taker(id, side, price, kind)
                && RestedAlone(old(model), orderMap[id], old(bids), old(asks), old(orderMap),
                               orderPool.freeList, old(levelPool.freeList))
                && old(orderPool.freeList) == orderPool.freeList + [orderMap[id]]
    {
      hide Stands, OrderSlots, LevelSlots, ObjectPool.Valid, E.Ok, E.AddOrder, FB.Live, RestedAlone;
      CountsAgree(model, leaked);
      E.AddTurnsAway(model, Taker(id, side, price, kind), qty);
      if qty == 0 || id in orderMap {
        return E.Done([]);
      }
      ghost var e := model;
      out := AddFresh(Taker(id, side, price, kind), qty);
      if out.Done? {
        E.AddAnswers(e, Taker(id, side, price, kind), qty);
      }
    }

    /** `addOrder` for an order that is not turned away. */
    method AddFresh(t: Taker, qty: u32) returns (out: E.Outcome)
      requires Valid() && qty > 0 && t.id !in orderMap
      modifies this, orderPool, levelPool, orderPool.storage, levelPool.storage
      ensures Valid()
      ensures (model, out) == E.AddOrder(old(model), t, qty)
      ensures out == E.Done([]) && t.kind.Limit? ==>
                && t.id in orderMap && TakerOf(orderMap[t.id]) == t
                && RestedAlone(old(model), orderMap[t.id], old(bids), old(asks), old(orderMap),
                               orderPool.freeList, old(levelPool.freeList))
                && old(orderPool.freeList) == orderPool.freeList + [orderMap[t.id]]
    {
      hide Stands, Tidy, E.Ok, E.AfterMatch, LB.HasLevel, FB.Live, LevelJoined, LB.LowerBound, E.AddOrder, RestedAlone;
      ghost var e := model;
      CountsAgree(e, leaked);
      E.AddKeepsOk(e, t, qty);
      E.AddLeaks(e, t, qty);
      E.AddTurnsAway(e, t, qty);
      var taker := Admit(t, qty, e, leaked);
      if taker == null {
        return E.OrderPoolExhausted;
      }
      ghost var limbo := leaked + {taker};
      out := Execute(taker, e, limbo);
      PlusOne(leaked, taker);
      Become(E.AddOrder(e, t, qty).0, if out.Done? then leaked else limbo);
    }

    ghost predicate LevelsTidy(e: E.State)
      reads this`bids, this`asks, levelPool
    {
      levelPool.Valid() && LevelSlots(bids, asks, levelPool.used, |levelPool.freeList|, e)
    }

    /** The object and the level that the index leads to. */
    lemma Locate(id: u64, e: E.State, side: Side, k: nat, p: nat)
      requires Stands(e, orderMap) && id in orderMap && MS.SitsAt(e, id, side, k, p)
      ensures k < |Nodes(side)| == |e.On(side)|
      ensures var order, level := orderMap[id], Nodes(side)[k].level;
              && p < |level.chain| && level.chain[p] == order && order.priceLevelPtr == level
              && order.id == id && order.side == side && order.price == e.On(side)[k].price
    {
      hide LB.Flat, E.CancelOrder, LB.UnlinkAt, LB.LowerBound, PriceLevel.Spells;
      var n, v := Nodes(side)[k], e.On(side)[k];
      assert Represents(side, n, v, orderMap);
      assert Stores(side, n.level.chain[p], v.orders[p], orderMap);
      n.level.MembersPointHere();
    }

    /** `level` is empty or not; if it is, it leaves its map and goes back to its pool.  `k` is where it sits
        and `v` what `remove` made of it. */
    method RemovePriceLevelIfEmpty(side: Side, price: u64, level: PriceLevel, ghost e: E.State, ghost k: nat,
                                   ghost v: LB.Level)
      requires k < |Nodes(side)| == |e.On(side)| && Nodes(side)[k].level == level
      requires Stands(e.With(side, e.On(side)[k := v]), orderMap) && LevelsTidy(e)
      requires v.price == e.On(side)[k].price == price && LB.LowerBound(side, e.On(side), price) == k
      modifies this`bids, this`asks, levelPool
      ensures Nodes(side.Opposite()) == old(Nodes(side.Opposite()))
      ensures LevelLeft(old(Nodes(side)), old(levelPool.freeList), Nodes(side), levelPool.freeList, k, v.orders == [])
      ensures var e' := e.With(side, Splice(e.On(side), k, if v.orders == [] then [] else [v], k + 1));
              Stands(e', orderMap) && LevelsTidy(e')
    {
      hide SideStands, LevelSlots, ObjectPool.Valid, LB.LowerBound, NodeBound;
      ghost var ls, ls' := e.On(side), e.On(side)[k := v];
      ghost var other := side.Opposite();
      var nodes := Nodes(side);
      HeadIs(side, k, e.With(side, ls'), orderMap);
      SetIsSplice(ls, k, v);
      LevelSlotsFollow(side, nodes, Nodes(other), levelPool.used, |levelPool.freeList|, e, k,
                       if v.orders == [] then [] else [v]);
      if !level.IsEmpty() {
        return;
      }
      LB.LowerBoundSeesPrices(side, ls, k, v, price);
      KeysArePrices(side, nodes, ls', orderMap, price);
      SideWithout(side, nodes, ls', orderMap, k);
      assert Splice(ls', k, [], k + 1) == Splice(ls, k, [], k + 1);
      var j := NodeBound(side, nodes, price);
      if side.Buy? {
        if j < |bids| && bids[j].key == price {
          bids := Splice(bids, j, [], j + 1);
        }
      } else {
        if j < |asks| && asks[j].key == price {
          asks := Splice(asks, j, [], j + 1);
        }
      }
      ReleaseLevel(level, e.With(side, Splice(ls, k, [], k + 1)));
    }

    /** `level->remove(order)` and what follows from it for the level. */
    method Detach(order: Order, level: PriceLevel, ghost e: E.State, ghost k: nat, ghost p: nat)
      requires Stands(e, orderMap) && LevelsTidy(e)
      requires k < |Nodes(order.side)| == |e.On(order.side)| && Nodes(order.side)[k].level == level
      requires p < |level.chain| && level.chain[p] == order && order.price == e.On(order.side)[k].price
      requires LB.LowerBound(order.side, e.On(order.side), order.price) == k
      modifies this`bids, this`asks, levelPool
      modifies level`head, level`tail, level`totalVolume, level`orderCount, level`chain
      modifies order`priceLevelPtr, level.chain`prev, level.chain`next
      ensures Nodes(order.side.Opposite()) == old(Nodes(order.side.Opposite()))
      ensures p < |e.On(order.side)[k].orders|
      ensures LevelLeft(old(Nodes(order.side)), old(levelPool.freeList), Nodes(order.side), levelPool.freeList, k,
                        LB.Unlink(e.On(order.side)[k], p).orders == [])
      ensures var e' := e.With(order.side, LB.UnlinkAt(e.On(order.side), k, p));
              Stands(e', orderMap) && LevelsTidy(e')
    {
      hide Stands, Separate, LevelSet, ObjectPool.Valid, LB.LowerBound, Splice, LevelLeft;
      UnlinkOrder(order.side, k, level, order, p, e, orderMap);
      RemovePriceLevelIfEmpty(order.side, order.price, level, e, k, LB.Unlink(e.On(order.side)[k], p));
    }

    /** `orderMap_.erase(it); orderPool_.deallocate(order)`. */
    method Unindex(order: Order, ghost e: E.State)
      requires Stands(e, orderMap) && orderPool.Valid() && order in orderPool.used
      requires !PB.Has(LB.Flat(e.bids), order.id) && !PB.Has(LB.Flat(e.asks), order.id)
      modifies this`orderMap, orderPool
      ensures orderMap == old(orderMap) - {order.id}
      ensures Stands(e, orderMap) && orderPool.Valid()
      ensures orderPool.freeList == old(orderPool.freeList) + [order] && orderPool.used == old(orderPool.used) - {order}
    {
      hide Stands, ObjectPool.Valid;
      Forgotten(e, orderMap, order.id);
      orderMap := orderMap - {order.id};
      Release(order, e);
    }

    method CancelOrder(id: u64) returns (found: bool)
      requires Valid()
      modifies this, orderPool, levelPool
      modifies orderPool.storage`priceLevelPtr, orderPool.storage`prev, orderPool.storage`next
      modifies levelPool.storage`head, levelPool.storage`tail, levelPool.storage`totalVolume
      modifies levelPool.storage`orderCount, levelPool.storage`chain
      ensures Valid()
      ensures (model, E.Found(found)) == E.CancelOrder(old(model), id)
      ensures found ==>
                && id in old(orderMap)
                && Vacated(old(model), old(orderMap[id]), old(bids), old(asks), old(orderMap),
                           old(orderPool.freeList), old(levelPool.freeList))
    {
      hide Stands, OrderSlots, Separate, LevelSet, ObjectPool.Valid, E.Ok, FB.Live, LB.CancelIn, LB.LowerBound;
      hide LB.UnlinkAt;
      hide LevelLeft, LB.Unlink;
      ghost var e := model;
      CountsAgree(e, leaked);
      E.CancelKeepsOk(e, id);
      if id !in orderMap {
        return false;
      }
      ghost var seat, k, p := MS.FindSeat(e, id);
      Locate(id, e, seat, k, p);
      InStorage(seat, k, e, leaked);
      CancelKeepsOrderSlots(orderMap, orderPool.used, |orderPool.freeList|, e, leaked, id);
      ghost var e' := E.CancelOrder(e, id).0;
      MS.UnlinkShortens(e.On(seat), k, p);
      var order := orderMap[id];
      var level := order.priceLevelPtr;
      if level != null {
        Detach(order, level, e, k, p);
      }
      Unindex(order, e');
      Become(e', leaked);
      found := true;
    }

    /** What a cancel has changed, against the earlier maps, index and free lists. */
    ghost predicate Vacated(e: E.State, o: Order, bids0: seq<MapNode>, asks0: seq<MapNode>,
                            idx0: map<u64, Order>, orders0: seq<Order>, levels0: seq<PriceLevel>)
      reads this`bids, this`asks, this`orderMap, this`model, orderPool`freeList, levelPool`freeList, o`id, o`side,
               o`price
    {
      && orderMap == idx0 - {o.id} && orderPool.freeList == orders0 + [o]
      && Nodes(o.side.Opposite()) == (if o.side.Buy? then asks0 else bids0)
      && LevelLeft(if o.side.Buy? then bids0 else asks0, levels0, Nodes(o.side), levelPool.freeList,
                   LB.LowerBound(o.side, e.On(o.side), o.price), |model.On(o.side)| < |e.On(o.side)|)
    }

    method GetBestBid() returns (found: bool, price: u64, qty: u32)
      requires Valid()
      ensures IsTop(Buy, model, found, price, qty)
      ensures found <==> model.bids != []
      ensures found ==> price == model.bids[0].price && qty == model.bids[0].volume
    {
      hide OrderSlots, LevelSlots, E.Ok, IsTop;
      TopIsTop(Buy, model);
      price, qty := 0, 0;
      found := bids != [];
      if found {
        assert Represents(Buy, bids[0], model.bids[0], orderMap);
        price, qty := bids[0].key, bids[0].level.totalVolume;
      }
    }

    method GetBestAsk() returns (found: bool, price: u64, qty: u32)
      requires Valid()
      ensures IsTop(Sell, model, found, price, qty)
      ensures found <==> model.asks != []
      ensures found ==> price == model.asks[0].price && qty == model.asks[0].volume
    {
      hide OrderSlots, LevelSlots, E.Ok, IsTop;
      TopIsTop(Sell, model);
      price, qty := 0, 0;
      found := asks != [];
      if found {
        assert Represents(Sell, asks[0], model.asks[0], orderMap);
        price, qty := asks[0].key, asks[0].level.totalVolume;
      }
    }

    /** Succeeds exactly when both sides have orders, and then the spread is positive. */
    method GetSpread() returns (found: bool, spread: u64)
      requires Valid()
      ensures found <==> model.bids != [] && model.asks != []
      ensures found ==> 0 < spread == model.asks[0].price - model.bids[0].price
      ensures found ==> BestPrice(Buy, model.bids[0].price, model.Flattened().bids)
      ensures found ==> BestPrice(Sell, model.asks[0].price, model.Flattened().asks)
    {
      hide OrderSlots, LevelSlots, FB.BookOk;
      TopIsTop(Buy, model);
      TopIsTop(Sell, model);
      spread := 0;
      if bids == [] || asks == [] {
        return false, spread;
      }
      assert Represents(Buy, bids[0], model.bids[0], orderMap);
      assert Represents(Sell, asks[0], model.asks[0], orderMap);
      E.LevelsUncrossed(model, 0, 0);
      var bestBid, bestAsk := bids[0].key, asks[0].key;
      if bestAsk >= bestBid {
        return true, bestAsk - bestBid;
      }
      found := false;
    }

    /** No slot is lost or handed out twice: each pool's storage splits into the free list, the objects in
        the book and the leaked slots. */
    lemma PoolPartition()
      requires Valid()
      ensures forall o {:trigger o in orderPool.storage} :: o in orderPool.storage <==>
                o in orderPool.freeList || o in orderMap.Values || o in leaked
      ensures forall o | o in orderPool.freeList :: o !in orderMap.Values && o !in leaked
      ensures orderMap.Values !! leaked
      ensures |orderPool.freeList| + |orderMap| + |leaked| == |orderPool.storage|
      ensures forall l {:trigger l in levelPool.storage} :: l in levelPool.storage <==>
                l in levelPool.freeList || l in LevelSet(bids) || l in LevelSet(asks)
      ensures forall l | l in levelPool.freeList :: l !in LevelSet(bids) && l !in LevelSet(asks)
      ensures |levelPool.freeList| + |bids| + |asks| == |levelPool.storage|
    {
      hide SideStands, MS.IndexOk, E.Ok, Separate;
      InjectiveSize(orderMap);
    }
  }

  method NewOrders(n: nat) returns (s: seq<Order>)
    ensures |s| == n && Distinct(s) && forall i | 0 <= i < n :: fresh(s[i])
  {
    s := [];
    for i := 0 to n
      invariant |s| == i && Distinct(s) && forall j | 0 <= j < i :: fresh(s[j])
    {
      var o := new Order();
      s := s + [o];
    }
  }

  method NewLevels(n: nat) returns (s: seq<PriceLevel>)
    ensures |s| == n && Distinct(s) && forall i | 0 <= i < n :: fresh(s[i])
  {
    s := [];
    for i := 0 to n
      invariant |s| == i && Distinct(s) && forall j | 0 <= j < i :: fresh(s[j])
    {
      var l := new PriceLevel();
      s := s + [l];
    }
  }
}
