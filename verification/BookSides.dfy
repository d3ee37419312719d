/** The two price maps over the heap: what it means that their linked levels stand for the levels of a
    LevelBook side, and how touching one level leaves every other one alone. */
module BookSides {
  import opened MachineWords
  import opened MatchingTypes
  import PB = PriorityBook
  import E = Engine
  import MS = MatchSteps
  import LB = LevelBook
  import opened PriceLevels

  /** One entry of the price maps. */
  datatype MapNode = MapNode(key: u64, level: PriceLevel)

  function TakerOf(o: Order): Taker
    reads o`id, o`side, o`price, o`kind
  {
    Taker(o.id, o.side, o.price, o.kind)
  }

  /** The order object `o` is the resting order `r`, and the index leads to it. */
  ghost predicate Stores(side: Side, o: Order, r: Rest, idx: map<u64, Order>)
    reads o`id, o`price, o`remainingQty, o`side
  {
    o.id == r.id && o.price == r.price && o.remainingQty == r.qty && o.side == side && r.id in idx && idx[r.id] == o
  }

  /** The map entry `n` is the level `v`: its list is well linked and holds exactly these orders. */
  ghost predicate Represents(side: Side, n: MapNode, v: LB.Level, idx: map<u64, Order>)
    reads n.level`price, n.level`totalVolume
    reads n.level`orderCount, n.level`head, n.level`tail, n.level`chain
    reads n.level.chain`priceLevelPtr, n.level.chain`prev, n.level.chain`next
    reads n.level.chain`id, n.level.chain`price, n.level.chain`remainingQty, n.level.chain`side
  {
    var l := n.level;
    && n.key == l.price == v.price && l.totalVolume == v.volume
    && l.Shape() && |l.chain| == |v.orders|
    && forall j {:trigger l.chain[j]} {:trigger v.orders[j]} | 0 <= j < |l.chain| ::
         Stores(side, l.chain[j], v.orders[j], idx)
  }

  ghost function LevelSet(nodes: seq<MapNode>): set<PriceLevel> {
    set i | 0 <= i < |nodes| :: nodes[i].level
  }

  ghost function OrderSet(nodes: seq<MapNode>): set<Order>
    reads LevelSet(nodes)`chain
  {
    set i, j | 0 <= i < |nodes| && 0 <= j < |nodes[i].level.chain| :: nodes[i].level.chain[j]
  }

  /** The map `nodes` is the side `view`. */
  ghost predicate SideStands(side: Side, nodes: seq<MapNode>, view: seq<LB.Level>, idx: map<u64, Order>)
    reads LevelSet(nodes)`price, LevelSet(nodes)`totalVolume
    reads LevelSet(nodes)`orderCount, LevelSet(nodes)`head, LevelSet(nodes)`tail, LevelSet(nodes)`chain
    reads OrderSet(nodes)`priceLevelPtr, OrderSet(nodes)`prev, OrderSet(nodes)`next
    reads OrderSet(nodes)`id, OrderSet(nodes)`price, OrderSet(nodes)`remainingQty, OrderSet(nodes)`side
  {
    && |nodes| == |view|
    && forall i {:trigger nodes[i]} {:trigger view[i]} | 0 <= i < |nodes| :: Represents(side, nodes[i], view[i], idx)
  }

  /** No level object sits in two places. */
  ghost predicate Separate(a: seq<MapNode>, b: seq<MapNode>) {
    && (forall i, j {:trigger a[i], a[j]} | 0 <= i < j < |a| :: a[i].level != a[j].level)
    && (forall i, j {:trigger b[i], b[j]} | 0 <= i < j < |b| :: b[i].level != b[j].level)
    && (forall i, j {:trigger a[i], b[j]} | 0 <= i < |a| && 0 <= j < |b| :: a[i].level != b[j].level)
  }

  lemma SeparateSwaps(a: seq<MapNode>, b: seq<MapNode>)
    requires Separate(a, b)
    ensures Separate(b, a)
  {
  }

  /** `l` shares no order with `level` and holds none of `extra`. */
  ghost predicate Apart(l: PriceLevel, level: PriceLevel, extra: set<Order>)
    reads l`chain, level`chain
  {
    && l != level
    && forall j {:trigger l.chain[j]} | 0 <= j < |l.chain| :: l.chain[j] !in level.chain && l.chain[j] !in extra
  }

  lemma OtherLevelIsApart(side: Side, n: MapNode, v: LB.Level, side': Side, n': MapNode, v': LB.Level,
                          idx: map<u64, Order>, extra: set<Order>)
    requires Represents(side, n, v, idx) && Represents(side', n', v', idx) && n.level != n'.level
    requires forall o | o in extra :: o.priceLevelPtr == null
    ensures Apart(n.level, n'.level, extra)
  {
    n.level.MembersPointHere();
    n'.level.MembersPointHere();
  }

  /** Seen from level `k` of `side`, every other level is apart. */
  lemma OthersAreApart(side: Side, own: seq<MapNode>, ownView: seq<LB.Level>, opp: seq<MapNode>, oppView: seq<LB.Level>,
                       idx: map<u64, Order>, k: nat, extra: set<Order>)
    requires SideStands(side, own, ownView, idx) && SideStands(side.Opposite(), opp, oppView, idx)
    requires Separate(own, opp) && k < |own|
    requires forall o | o in extra :: o.priceLevelPtr == null
    ensures forall i {:trigger own[i]} | 0 <= i < |own| && i != k :: Apart(own[i].level, own[k].level, extra)
    ensures forall i {:trigger opp[i]} | 0 <= i < |opp| :: Apart(opp[i].level, own[k].level, extra)
  {
    hide Represents;
    forall i | 0 <= i < |own| && i != k ensures Apart(own[i].level, own[k].level, extra) {
      OtherLevelIsApart(side, own[i], ownView[i], side, own[k], ownView[k], idx, extra);
    }
    forall i | 0 <= i < |opp| ensures Apart(opp[i].level, own[k].level, extra) {
      OtherLevelIsApart(side.Opposite(), opp[i], oppView[i], side, own[k], ownView[k], idx, extra);
    }
  }

  // -- one level

  method FillOne(side: Side, level: PriceLevel, maker: Order, taker: Order, ghost n: MapNode, ghost v: LB.Level,
                 ghost idx: map<u64, Order>)
    returns (fill: u32)
    requires Represents(side, n, v, idx) && n.level == level && level.head == maker && taker.priceLevelPtr == null
    modifies maker`remainingQty, taker`remainingQty, level`totalVolume
    ensures fill == Min(old(taker.remainingQty), old(maker.remainingQty))
    ensures taker.remainingQty == old(taker.remainingQty) - fill
    ensures v.orders != [] && fill == Min(old(taker.remainingQty), v.orders[0].qty)
    ensures maker.id == v.orders[0].id && maker.remainingQty == v.orders[0].qty - fill
    ensures maker in level.chain && level.price == v.price
    ensures Represents(side, n, LB.FillHead(v, fill), idx)
  {
    hide PriceLevel.Spells;
    level.Ends();
    level.MembersPointHere();
    fill := Min(taker.remainingQty, maker.remainingQty);
    taker.remainingQty := taker.remainingQty - fill;
    maker.remainingQty := maker.remainingQty - fill;
    level.totalVolume := (level.totalVolume - fill) % U32;
  }

  method RemoveOne(side: Side, level: PriceLevel, order: Order, ghost k: nat,
                   ghost n: MapNode, ghost v: LB.Level, ghost idx: map<u64, Order>)
    requires Represents(side, n, v, idx) && n.level == level && k < |level.chain| && level.chain[k] == order
    modifies level`head, level`tail, level`totalVolume, level`orderCount, level`chain
    modifies order`priceLevelPtr, level.chain`prev, level.chain`next
    ensures k < |v.orders| && Represents(side, n, LB.Unlink(v, k), idx)
    ensures order.priceLevelPtr == null
    ensures level.chain == Splice(old(level.chain), k, [], k + 1)
    ensures k == 0 ==> level.head == old(order.next)
    ensures level.head == null <==> LB.Unlink(v, k).orders == []
  {
    hide PriceLevel.Spells;
    SpliceAt(level.chain, k, [], k + 1);
    SpliceAt(v.orders, k, [], k + 1);
    assert Stores(side, level.chain[k], v.orders[k], idx);
    level.Ends();
    level.Remove(order, k);
    level.Ends();
  }

  method AppendOne(side: Side, level: PriceLevel, order: Order,
                   ghost n: MapNode, ghost v: LB.Level, ghost idx: map<u64, Order>)
    requires Represents(side, n, v, idx) && n.level == level && order.priceLevelPtr == null
    requires order.side == side && order.id in idx && idx[order.id] == order
    modifies level`head, level`tail, level`totalVolume, level`orderCount, level`chain
    modifies order`priceLevelPtr, order`prev, order`next, level.chain`next
    ensures Represents(side, n, LB.Append(v, Rest(order.id, order.price, order.remainingQty)), idx)
    ensures level.chain == old(level.chain) + [order]
  {
    level.MembersPointHere();
    level.Append(order);
  }

  // -- one level among all: the others are untouched

  method FillAt(side: Side, level: PriceLevel, ghost own: seq<MapNode>, ghost ownView: seq<LB.Level>,
                ghost opp: seq<MapNode>, ghost oppView: seq<LB.Level>, ghost idx: map<u64, Order>,
                maker: Order, taker: Order, ghost k: nat) returns (fill: u32)
    requires SideStands(side, own, ownView, idx) && SideStands(side.Opposite(), opp, oppView, idx)
    requires Separate(own, opp) && k < |own| && own[k].level == level && level.head == maker
             && taker.priceLevelPtr == null
    modifies maker`remainingQty, taker`remainingQty, level`totalVolume
    ensures taker.remainingQty == old(taker.remainingQty) - fill
    ensures var v := ownView[k];
            && level.price == v.price && v.orders != [] && fill == Min(old(taker.remainingQty), v.orders[0].qty)
            && maker.id == v.orders[0].id && maker.remainingQty == v.orders[0].qty - fill
            && SideStands(side, own, ownView[k := LB.FillHead(v, fill)], idx)
    ensures SideStands(side.Opposite(), opp, oppView, idx)
  {
    hide Represents;
    OthersAreApart(side, own, ownView, opp, oppView, idx, k, {taker});
    fill := FillOne(side, level, maker, taker, own[k], ownView[k], idx);
    ghost var view := ownView[k := LB.FillHead(ownView[k], fill)];
    forall i | 0 <= i < |own| && i != k ensures Represents(side, own[i], view[i], idx) {
      assert Apart(own[i].level, own[k].level, {taker});
      assert old(Represents(side, own[i], ownView[i], idx));
    }
    forall i | 0 <= i < |opp| ensures Represents(side.Opposite(), opp[i], oppView[i], idx) {
      assert Apart(opp[i].level, own[k].level, {taker});
      assert old(Represents(side.Opposite(), opp[i], oppView[i], idx));
    }
  }

  method RemoveAt(side: Side, level: PriceLevel, ghost own: seq<MapNode>, ghost ownView: seq<LB.Level>,
                  ghost opp: seq<MapNode>, ghost oppView: seq<LB.Level>, ghost idx: map<u64, Order>,
                  order: Order, ghost k: nat, ghost p: nat)
    requires SideStands(side, own, ownView, idx) && SideStands(side.Opposite(), opp, oppView, idx)
    requires Separate(own, opp) && k < |own| && own[k].level == level && p < |level.chain| && level.chain[p] == order
    modifies level`head, level`tail, level`totalVolume, level`orderCount, level`chain
    modifies order`priceLevelPtr, level.chain`prev, level.chain`next
    ensures order.priceLevelPtr == null
    ensures p == 0 ==> level.head == old(order.next)
    ensures p < |ownView[k].orders| && (level.head == null <==> LB.Unlink(ownView[k], p).orders == [])
    ensures p < |ownView[k].orders| && SideStands(side, own, ownView[k := LB.Unlink(ownView[k], p)], idx)
    ensures SideStands(side.Opposite(), opp, oppView, idx)
  {
    hide Represents;
    OthersAreApart(side, own, ownView, opp, oppView, idx, k, {});
    RemoveOne(side, level, order, p, own[k], ownView[k], idx);
    ghost var view := ownView[k := LB.Unlink(ownView[k], p)];
    forall i | 0 <= i < |own| && i != k ensures Represents(side, own[i], view[i], idx) {
      assert old(Apart(own[i].level, own[k].level, {}));
      assert old(Represents(side, own[i], ownView[i], idx));
    }
    forall i | 0 <= i < |opp| ensures Represents(side.Opposite(), opp[i], oppView[i], idx) {
      assert old(Apart(opp[i].level, own[k].level, {}));
      assert old(Represents(side.Opposite(), opp[i], oppView[i], idx));
    }
  }

  method AppendAt(side: Side, level: PriceLevel, ghost own: seq<MapNode>, ghost ownView: seq<LB.Level>,
                  ghost opp: seq<MapNode>, ghost oppView: seq<LB.Level>, ghost idx: map<u64, Order>,
                  order: Order, ghost k: nat)
    requires SideStands(side, own, ownView, idx) && SideStands(side.Opposite(), opp, oppView, idx)
    requires Separate(own, opp) && k < |own| && own[k].level == level && order.priceLevelPtr == null
    requires order.side == side && order.id in idx && idx[order.id] == order
    modifies level`head, level`tail, level`totalVolume, level`orderCount, level`chain
    modifies order`priceLevelPtr, order`prev, order`next, level.chain`next
    ensures SideStands(side, own,
              ownView[k := LB.Append(ownView[k], Rest(order.id, order.price, order.remainingQty))], idx)
    ensures SideStands(side.Opposite(), opp, oppView, idx)
  {
    hide Represents;
    OthersAreApart(side, own, ownView, opp, oppView, idx, k, {order});
    AppendOne(side, level, order, own[k], ownView[k], idx);
    ghost var view := ownView[k := LB.Append(ownView[k], Rest(order.id, order.price, order.remainingQty))];
    forall i | 0 <= i < |own| && i != k ensures Represents(side, own[i], view[i], idx) {
      assert old(Apart(own[i].level, own[k].level, {order}));
      assert old(Represents(side, own[i], ownView[i], idx));
    }
    forall i | 0 <= i < |opp| ensures Represents(side.Opposite(), opp[i], oppView[i], idx) {
      assert old(Apart(opp[i].level, own[k].level, {order}));
      assert old(Represents(side.Opposite(), opp[i], oppView[i], idx));
    }
  }

  // -- the index changes while the levels do not

  lemma {:induction false} SideForgets(side: Side, nodes: seq<MapNode>, view: seq<LB.Level>, idx: map<u64, Order>,
                                       id: u64)
    requires SideStands(side, nodes, view, idx) && !PB.Has(LB.Flat(view), id)
    ensures SideStands(side, nodes, view, idx - {id})
  {
    LB.HeldMeansHas(view, id);
    forall i | 0 <= i < |nodes| ensures Represents(side, nodes[i], view[i], idx - {id}) {
      assert !PB.Has(view[i].orders, id);
    }
  }

  lemma SideLearns(side: Side, nodes: seq<MapNode>, view: seq<LB.Level>, idx: map<u64, Order>, id: u64, o: Order)
    requires SideStands(side, nodes, view, idx) && id !in idx
    ensures SideStands(side, nodes, view, idx[id := o])
  {
  }

  // -- a level leaves or joins a map

  lemma SideWithout(side: Side, nodes: seq<MapNode>, view: seq<LB.Level>, idx: map<u64, Order>, k: nat)
    requires SideStands(side, nodes, view, idx) && k < |nodes|
    ensures SideStands(side, Splice(nodes, k, [], k + 1), Splice(view, k, [], k + 1), idx)
  {
    hide Represents;
    SpliceAt(nodes, k, [], k + 1);
    SpliceAt(view, k, [], k + 1);
  }

  lemma SideWith(side: Side, nodes: seq<MapNode>, view: seq<LB.Level>, idx: map<u64, Order>, k: nat,
                 n: MapNode, v: LB.Level)
    requires SideStands(side, nodes, view, idx) && k <= |nodes| && Represents(side, n, v, idx)
    ensures SideStands(side, Splice(nodes, k, [n], k), Splice(view, k, [v], k), idx)
  {
    hide Represents;
    SpliceAt(nodes, k, [n], k);
    SpliceAt(view, k, [v], k);
  }

  lemma SeparateWithout(own: seq<MapNode>, opp: seq<MapNode>, k: nat)
    requires Separate(own, opp) && k < |own|
    ensures var own' := Splice(own, k, [], k + 1);
            Separate(own', opp) && LevelSet(own') == LevelSet(own) - {own[k].level}
            && own[k].level !in LevelSet(opp)
  {
    var own' := Splice(own, k, [], k + 1);
    SpliceAt(own, k, [], k + 1);
    forall i | 0 <= i < |own| && i != k ensures own[i].level in LevelSet(own') {
      var j := if i < k then i else i - 1;
      assert own'[j] == own[i];
    }
  }

  lemma SeparateWith(own: seq<MapNode>, opp: seq<MapNode>, k: nat, n: MapNode)
    requires Separate(own, opp) && k <= |own| && n.level !in LevelSet(own) && n.level !in LevelSet(opp)
    ensures var own' := Splice(own, k, [n], k);
            Separate(own', opp) && LevelSet(own') == LevelSet(own) + {n.level}
  {
    var own' := Splice(own, k, [n], k);
    SpliceAt(own, k, [n], k);
    assert own'[k] == n;
    forall i | 0 <= i < |own| ensures own[i].level in LevelSet(own') && own[i].level in LevelSet(own) {
      var j := if i < k then i else i + 1;
      assert own'[j] == own[i];
    }
  }

  // -- the order index

  ghost predicate Injective(idx: map<u64, Order>) {
    forall a, b {:trigger idx[a], idx[b]} | a in idx && b in idx && a != b :: idx[a] != idx[b]
  }

  lemma ForgetValue(idx: map<u64, Order>, id: u64)
    requires Injective(idx) && id in idx
    ensures Injective(idx - {id}) && (idx - {id}).Values == idx.Values - {idx[id]}
  {
    var idx' := idx - {id};
    forall o | o in idx.Values && o != idx[id] ensures o in idx'.Values {
      var a :| a in idx && idx[a] == o;
      assert idx'[a] == o;
    }
  }

  lemma LearnValue(idx: map<u64, Order>, id: u64, o: Order)
    requires Injective(idx) && id !in idx && o !in idx.Values
    ensures Injective(idx[id := o]) && idx[id := o].Values == idx.Values + {o}
  {
    var idx' := idx[id := o];
    assert idx'[id] == o;
    forall p | p in idx.Values ensures p in idx'.Values {
      var a :| a in idx && idx[a] == p;
      assert idx'[a] == p;
    }
  }

  // -- the pools

  /** The index holds exactly the resting orders of `e`; the used order slots are those and `limbo`. */
  ghost predicate OrderSlots(idx: map<u64, Order>, used: set<Order>, free: nat, e: E.State, limbo: set<Order>) {
    && MS.IndexOk(idx.Keys, e.Flattened()) && Injective(idx)
    && used == idx.Values + limbo && idx.Values !! limbo
    && free + |LB.Flat(e.bids)| + |LB.Flat(e.asks)| + |limbo| == e.orderCap
  }

  /** The used level slots are exactly the levels in the two maps. */
  ghost predicate LevelSlots(bids: seq<MapNode>, asks: seq<MapNode>, used: set<PriceLevel>, free: nat, e: E.State) {
    && Separate(bids, asks) && used == LevelSet(bids) + LevelSet(asks)
    && free + |e.bids| + |e.asks| == e.levelCap
  }

  ghost predicate LevelSlotsOf(side: Side, own: seq<MapNode>, opp: seq<MapNode>, used: set<PriceLevel>, free: nat,
                               e: E.State) {
    if side.Buy? then LevelSlots(own, opp, used, free, e) else LevelSlots(opp, own, used, free, e)
  }

  /** An empty book uses no slot. */
  lemma EmptyHoldsNothing(orderCap: nat, levelCap: nat)
    ensures var e := E.Empty(orderCap, levelCap);
            OrderSlots(map[], {}, orderCap, e, {}) && LevelSlots([], [], {}, levelCap, e)
  {
  }

  lemma FillKeepsOrderSlots(idx: map<u64, Order>, used: set<Order>, free: nat, e: E.State, limbo: set<Order>,
                            side: Side, f: u32, trade: Trade)
    requires OrderSlots(idx, used, free, e, limbo)
    requires var ls := e.On(side); ls != [] && ls[0].orders != [] && f <= ls[0].orders[0].qty
    ensures OrderSlots(idx, used, free, E.Counted(e.With(side, MS.Filled(e.On(side), f)), [trade]), limbo)
  {
    hide MS.IndexOk, Injective;
    MS.FillKeepsIndex(idx.Keys, e, side, f);
  }

  lemma DropKeepsOrderSlots(idx: map<u64, Order>, used: set<Order>, free: nat, e: E.State, limbo: set<Order>,
                            side: Side)
    requires OrderSlots(idx, used, free, e, limbo)
    requires e.On(side) != [] && e.On(side)[0].orders != []
    ensures var ls := e.On(side);
            var e' := e.With(side, ls[0 := LB.Unlink(ls[0], 0)]);
            var id := ls[0].orders[0].id;
            && id in idx && idx[id] in used
            && OrderSlots(idx - {id}, used - {idx[id]}, free + 1, e', limbo)
            && !PB.Has(LB.Flat(e'.bids), id) && !PB.Has(LB.Flat(e'.asks), id)
  {
    hide MS.IndexOk, Injective;
    var id := e.On(side)[0].orders[0].id;
    MS.DropKeepsIndex(idx.Keys, e, side);
    ForgetValue(idx, id);
    assert (idx - {id}).Keys == idx.Keys - {id};
  }

  lemma RestingOrdersAreUsed(idx: map<u64, Order>, used: set<Order>, free: nat, e: E.State, limbo: set<Order>,
                             side: Side, n: MapNode, v: LB.Level)
    requires OrderSlots(idx, used, free, e, limbo) && Represents(side, n, v, idx)
    ensures forall o {:trigger o in n.level.chain} | o in n.level.chain :: o in used
    ensures forall j {:trigger n.level.chain[j]} | 0 <= j < |n.level.chain| :: n.level.chain[j] in used
  {
    hide MS.IndexOk, Injective, PriceLevel.Spells;
    forall o | o in n.level.chain ensures o in used {
      var j :| 0 <= j < |n.level.chain| && n.level.chain[j] == o;
      assert Stores(side, n.level.chain[j], v.orders[j], idx);
    }
  }

  lemma LimboIsUsed(idx: map<u64, Order>, used: set<Order>, free: nat, e: E.State, limbo: set<Order>)
    requires OrderSlots(idx, used, free, e, limbo)
    ensures limbo <= used
  {
  }

  lemma LevelsAreUsed(bids: seq<MapNode>, asks: seq<MapNode>, used: set<PriceLevel>, free: nat, e: E.State)
    requires LevelSlots(bids, asks, used, free, e)
    ensures forall i {:trigger bids[i]} | 0 <= i < |bids| :: bids[i].level in used
    ensures forall i {:trigger asks[i]} | 0 <= i < |asks| :: asks[i].level in used
  {
    hide Separate;
  }

  /** Erasing an empty level. */
  lemma EraseKeepsSlots(side: Side, own: seq<MapNode>, opp: seq<MapNode>, usedLevels: set<PriceLevel>, freeLevels: nat,
                        idx: map<u64, Order>, used: set<Order>, free: nat, e: E.State, limbo: set<Order>, k: nat)
    requires LevelSlotsOf(side, own, opp, usedLevels, freeLevels, e) && OrderSlots(idx, used, free, e, limbo)
    requires k < |own| && k < |e.On(side)| && e.On(side)[k].orders == []
    ensures var e' := e.With(side, Splice(e.On(side), k, [], k + 1));
            && own[k].level in usedLevels
            && LevelSlotsOf(side, Splice(own, k, [], k + 1), opp, usedLevels - {own[k].level}, freeLevels + 1, e')
            && OrderSlots(idx, used, free, e', limbo)
  {
    hide MS.IndexOk, Injective, Separate;
    SpliceAt(e.On(side), k, [], k + 1);
    MS.EmptyLevelAddsNothing(e.On(side), k);
    if side.Sell? {
      SeparateSwaps(opp, own);
    }
    SeparateWithout(own, opp, k);
    if side.Sell? {
      SeparateSwaps(Splice(own, k, [], k + 1), opp);
    }
  }

  // -- a taker comes in, rests or goes

  lemma AdmitKeepsOrderSlots(idx: map<u64, Order>, used: set<Order>, free: nat, e: E.State, limbo: set<Order>, o: Order)
    requires OrderSlots(idx, used, free, e, limbo) && o !in used && free > 0
    ensures OrderSlots(idx, used + {o}, free - 1, e, limbo + {o})
  {
    hide MS.IndexOk, Injective;
  }

  lemma PlusOne<T>(s: set<T>, x: T)
    requires x !in s
    ensures |s + {x}| == |s| + 1 && s + {x} - {x} == s
  {
  }

  lemma WithoutOne<T>(s: set<T>, x: T)
    requires x in s
    ensures |s - {x}| == |s| - 1
  {
  }

  lemma MoveOne<T>(a: set<T>, b: set<T>, x: T)
    requires a !! b && x in b
    ensures (a + {x}) !! (b - {x}) && (a + {x}) + (b - {x}) == a + b
  {
  }

  lemma DismissKeepsOrderSlots(idx: map<u64, Order>, used: set<Order>, free: nat, e: E.State, limbo: set<Order>,
                               o: Order)
    requires OrderSlots(idx, used, free, e, limbo) && o in limbo
    ensures o in used && OrderSlots(idx, used - {o}, free + 1, e, limbo - {o})
  {
    hide MS.IndexOk, Injective;
    WithoutOne(limbo, o);
  }

  lemma SlotMoves(idx: map<u64, Order>, used: set<Order>, limbo: set<Order>, id: u64, o: Order)
    requires Injective(idx) && used == idx.Values + limbo && idx.Values !! limbo && o in limbo && id !in idx
    ensures var idx', limbo' := idx[id := o], limbo - {o};
            && Injective(idx') && used == idx'.Values + limbo' && idx'.Values !! limbo'
            && idx'.Keys == idx.Keys + {id} && |limbo'| == |limbo| - 1
  {
    hide Injective;
    LearnValue(idx, id, o);
    WithoutOne(limbo, o);
    MoveOne(idx.Values, limbo, o);
  }

  /** The order `o` moves from limbo into the index. */
  lemma RestKeepsOrderSlots(idx: map<u64, Order>, used: set<Order>, free: nat, e: E.State, limbo: set<Order>,
                            side: Side, r: Rest, o: Order)
    requires OrderSlots(idx, used, free, e, limbo) && o in limbo && r.id !in idx
    requires LB.LevelsOk(side, e.On(side))
    ensures OrderSlots(idx[r.id := o], used, free, e.With(side, LB.RestAt(side, e.On(side), r)), limbo - {o})
  {
    SlotMoves(idx, used, limbo, r.id, o);
    hide MS.IndexOk, Injective, LB.RestAt, LB.Flat, LB.LevelsOk;
    MS.RestKeepsIndex(idx.Keys, e, side, r);
  }

  lemma SameOrdersKeepOrderSlots(idx: map<u64, Order>, used: set<Order>, free: nat, e: E.State, e': E.State,
                                 limbo: set<Order>)
    requires OrderSlots(idx, used, free, e, limbo)
    requires LB.Flat(e'.bids) == LB.Flat(e.bids) && LB.Flat(e'.asks) == LB.Flat(e.asks) && e'.orderCap == e.orderCap
    ensures OrderSlots(idx, used, free, e', limbo)
  {
  }

  /** `std::map::lower_bound` on the map entries. */
  function NodeBound(side: Side, nodes: seq<MapNode>, p: u64): (k: nat)
    ensures k <= |nodes|
  {
    if nodes == [] || !Better(side, nodes[0].key, p) then 0 else 1 + NodeBound(side, nodes[1..], p)
  }

  lemma {:induction false} NodeBoundIsLowerBound(side: Side, nodes: seq<MapNode>, view: seq<LB.Level>, p: u64)
    requires |nodes| == |view| && forall i | 0 <= i < |nodes| :: nodes[i].key == view[i].price
    ensures NodeBound(side, nodes, p) == LB.LowerBound(side, view, p)
  {
    if nodes != [] && Better(side, nodes[0].key, p) {
      NodeBoundIsLowerBound(side, nodes[1..], view[1..], p);
    }
  }

  lemma {:induction false} KeysArePrices(side: Side, nodes: seq<MapNode>, view: seq<LB.Level>, idx: map<u64, Order>,
                                         p: u64)
    requires SideStands(side, nodes, view, idx)
    ensures |nodes| == |view| && NodeBound(side, nodes, p) == LB.LowerBound(side, view, p)
    ensures forall i {:trigger nodes[i]} | 0 <= i < |nodes| :: nodes[i].key == view[i].price
  {
    forall i | 0 <= i < |nodes| ensures nodes[i].key == view[i].price {
      assert Represents(side, nodes[i], view[i], idx);
    }
    NodeBoundIsLowerBound(side, nodes, view, p);
  }

  /** Inserting a fresh level. */
  lemma CreateKeepsSlots(side: Side, own: seq<MapNode>, opp: seq<MapNode>, used: set<PriceLevel>, free: nat,
                         e: E.State, k: nat, n: MapNode, v: LB.Level)
    requires LevelSlotsOf(side, own, opp, used, free, e) && k <= |own| == |e.On(side)|
    requires n.level !in used && free > 0
    ensures LevelSlotsOf(side, Splice(own, k, [n], k), opp, used + {n.level}, free - 1,
                         e.With(side, Splice(e.On(side), k, [v], k)))
  {
    hide Separate;
    SpliceAt(e.On(side), k, [v], k);
    if side.Sell? {
      SeparateSwaps(opp, own);
    }
    SeparateWith(own, opp, k, n);
    if side.Sell? {
      SeparateSwaps(Splice(own, k, [n], k), opp);
    }
  }

  lemma FreshLevelRepresents(side: Side, l: PriceLevel, p: u64, idx: map<u64, Order>)
    requires l.price == p && l.totalVolume == 0 && l.chain == [] && l.Shape()
    ensures Represents(side, MapNode(p, l), LB.Level(p, 0, []), idx)
  {
  }

  /** The order of `id` leaves book, index and slot. */
  lemma CancelKeepsOrderSlots(idx: map<u64, Order>, used: set<Order>, free: nat, e: E.State, limbo: set<Order>, id: u64)
    requires OrderSlots(idx, used, free, e, limbo) && E.Ok(e) && id in idx
    ensures var e' := E.CancelOrder(e, id).0;
            && idx[id] in used
            && OrderSlots(idx - {id}, used - {idx[id]}, free + 1, e', limbo)
            && !PB.Has(LB.Flat(e'.bids), id) && !PB.Has(LB.Flat(e'.asks), id)
  {
    hide MS.IndexOk, Injective, E.Ok, LB.CancelIn;
    MS.CancelKeepsIndex(idx.Keys, e, id);
    ForgetValue(idx, id);
    assert (idx - {id}).Keys == idx.Keys - {id};
  }

  lemma LevelSlotsFollow(side: Side, own: seq<MapNode>, opp: seq<MapNode>, used: set<PriceLevel>, free: nat,
                         e: E.State, k: nat, r: seq<LB.Level>)
    requires LevelSlotsOf(side, own, opp, used, free, e) && k < |own| == |e.On(side)| && |r| <= 1
    ensures |r| == 1 ==> LevelSlotsOf(side, own, opp, used, free, e.With(side, Splice(e.On(side), k, r, k + 1)))
    ensures r == [] ==>
              && own[k].level in used
              && LevelSlotsOf(side, Splice(own, k, [], k + 1), opp, used - {own[k].level}, free + 1,
                              e.With(side, Splice(e.On(side), k, [], k + 1)))
  {
    hide Separate;
    SpliceAt(e.On(side), k, r, k + 1);
    if r == [] {
      if side.Sell? {
        SeparateSwaps(opp, own);
      }
      SeparateWithout(own, opp, k);
      if side.Sell? {
        SeparateSwaps(Splice(own, k, [], k + 1), opp);
      }
    }
  }

  /** An injective index has as many orders as ids. */
  lemma {:induction false} InjectiveSize(idx: map<u64, Order>)
    requires Injective(idx)
    ensures |idx.Values| == |idx|
    decreases |idx|
  {
    if idx == map[] {
      assert idx.Values == {};
    } else {
      var id :| id in idx;
      ForgetValue(idx, id);
      InjectiveSize(idx - {id});
      assert idx[id] in idx.Values;
      assert (idx - {id}).Keys == idx.Keys - {id};
    }
  }

  /** A map and the level pool's free list after `getOrCreatePriceLevel` for position `k`. */
  ghost predicate LevelJoined(nodes: seq<MapNode>, free: seq<PriceLevel>, nodes': seq<MapNode>, free': seq<PriceLevel>,
                              k: nat, existed: bool) {
    if existed then nodes' == nodes && free' == free
    else
      && k < |nodes'| && k <= |nodes| && nodes' == Splice(nodes, k, [nodes'[k]], k)
      && free == free' + [nodes'[k].level]
  }

  /** A map and the level pool's free list after `removePriceLevelIfEmpty` at position `k`. */
  ghost predicate LevelLeft(nodes: seq<MapNode>, free: seq<PriceLevel>, nodes': seq<MapNode>, free': seq<PriceLevel>,
                            k: nat, emptied: bool) {
    if !emptied then nodes' == nodes && free' == free
    else k < |nodes| && nodes' == Splice(nodes, k, [], k + 1) && free' == free + [nodes[k].level]
  }

  lemma LeavingUndoesJoining(nodes: seq<MapNode>, free: seq<PriceLevel>, nodes1: seq<MapNode>, free1: seq<PriceLevel>,
                             nodes2: seq<MapNode>, free2: seq<PriceLevel>, k: nat, existed: bool)
    requires LevelJoined(nodes, free, nodes1, free1, k, existed)
    requires LevelLeft(nodes1, free1, nodes2, free2, k, !existed)
    ensures nodes2 == nodes && free2 == free
  {
    if !existed {
      SpliceAt(nodes, k, [nodes1[k]], k);
      SpliceAt(nodes1, k, [], k + 1);
      assert |nodes2| == |nodes|;
      assert forall i | 0 <= i < |nodes| :: nodes2[i] == nodes[i];
    }
  }

  /** The chain of a level is spelled by the index: it needs no memory of its own. */
  ghost predicate SpelledOut(n: MapNode, v: LB.Level, idx: map<u64, Order>)
    reads n.level`chain
  {
    && |n.level.chain| == |v.orders|
    && forall j {:trigger n.level.chain[j]} | 0 <= j < |v.orders| ::
         v.orders[j].id in idx && n.level.chain[j] == idx[v.orders[j].id]
  }

  lemma ChainIsSpelledOut(side: Side, n: MapNode, v: LB.Level, idx: map<u64, Order>)
    requires Represents(side, n, v, idx)
    ensures SpelledOut(n, v, idx)
  {
    assert forall j {:trigger n.level.chain[j]} | 0 <= j < |n.level.chain| ::
        Stores(side, n.level.chain[j], v.orders[j], idx);
  }

}
