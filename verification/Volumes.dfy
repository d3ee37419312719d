/** The cached 32-bit volume of a price level against the true sum of its orders. */
module Volumes {
  import opened MachineWords
  import opened MatchingTypes
  import opened PriorityBook
  import opened FlatBook
  import opened BookLaws
  import opened LevelBook
  import opened Engine

  /** The cache agrees with the true sum modulo 2^32. */
  predicate Congruent(l: Level) {
    l.volume == RestingQty(l.orders) % U32
  }

  predicate Fits(l: Level) {
    RestingQty(l.orders) < U32
  }

  predicate AllCongruent(ls: seq<Level>) {
    forall i | 0 <= i < |ls| :: Congruent(ls[i])
  }

  predicate AllFit(ls: seq<Level>) {
    forall i | 0 <= i < |ls| :: Fits(ls[i])
  }

  /** Every cached volume is the true sum. */
  predicate Exact(e: State) {
    && (forall i | 0 <= i < |e.bids| :: e.bids[i].volume == RestingQty(e.bids[i].orders))
    && (forall i | 0 <= i < |e.asks| :: e.asks[i].volume == RestingQty(e.asks[i].orders))
  }

  predicate NoLevelOverflows(e: State) {
    AllFit(e.bids) && AllFit(e.asks)
  }

  lemma ExactMeans(e: State)
    ensures Exact(e) ==> NoLevelOverflows(e) && AllCongruent(e.bids) && AllCongruent(e.asks)
    ensures NoLevelOverflows(e) && AllCongruent(e.bids) && AllCongruent(e.asks) ==> Exact(e)
  {
  }

  lemma WrapDown(sum: nat, f: nat)
    requires f <= sum
    ensures (sum % U32 - f) % U32 == (sum - f) % U32
  {
  }

  lemma FillHeadCongruent(l: Level, f: u32)
    requires Congruent(l) && l.orders != [] && f <= l.orders[0].qty
    ensures Congruent(FillHead(l, f))
    ensures FillHead(l, f).orders[0].qty == 0 ==> Congruent(Unlink(FillHead(l, f), 0))
  {
    var l' := FillHead(l, f);
    assert l'.orders[1..] == l.orders[1..];
    WrapDown(RestingQty(l.orders), f);
    CutTakesQty(l'.orders, 0);
  }

  /** Matching keeps every cache congruent, whatever has wrapped before. */
  lemma {:induction false} MatchLevelCongruent(t: Taker, q: u32, l: Level)
    requires Congruent(l)
    ensures Congruent(MatchLevel(t, q, l).level)
    decreases |l.orders|
  {
    if q == 0 || l.orders == [] {
    } else {
      var f := Min(q, l.orders[0].qty);
      FillHeadCongruent(l, f);
      var l' := FillHead(l, f);
      if l'.orders[0].qty == 0 {
        MatchLevelCongruent(t, q - f, Unlink(l', 0));
      }
    }
  }

  lemma {:induction false} MatchLevelsCongruent(t: Taker, q: u32, ls: seq<Level>)
    requires AllCongruent(ls)
    ensures AllCongruent(MatchLevels(t, q, ls).levels)
    decreases |ls|
  {
    if q == 0 || ls == [] || !Crosses(t, ls[0].price) {
    } else {
      var r := MatchLevel(t, q, ls[0]);
      MatchLevelCongruent(t, q, ls[0]);
      if r.level.orders == [] {
        MatchLevelsCongruent(t, r.left, ls[1..]);
      }
    }
  }

  lemma AppendCongruent(l: Level, r: Rest)
    requires Congruent(l)
    ensures Congruent(Append(l, r))
  {
    RestingQtyOfConcat(l.orders, [r]);
  }

  lemma RestAtCongruent(side: Side, ls: seq<Level>, r: Rest)
    requires AllCongruent(ls)
    ensures AllCongruent(RestAt(side, ls, r))
  {
    var k := LowerBound(side, ls, r.price);
    if HasLevel(side, ls, r.price) {
      AppendCongruent(ls[k], r);
      SpliceAt(ls, k, [Append(ls[k], r)], k + 1);
    } else {
      AppendCongruent(Level(r.price, 0, []), r);
      SpliceAt(ls, k, [Append(Level(r.price, 0, []), r)], k);
    }
  }

  /** Adding an order, matching included, never loses congruence: the wrap-arounds cancel out. */
  lemma AddKeepsCongruence(e: State, t: Taker, qty: u32)
    requires AllCongruent(e.bids) && AllCongruent(e.asks)
    ensures AllCongruent(AddOrder(e, t, qty).0.bids) && AllCongruent(AddOrder(e, t, qty).0.asks)
  {
    var m := MatchLevels(t, qty, e.On(t.side.Opposite()));
    MatchLevelsCongruent(t, qty, e.On(t.side.Opposite()));
    RestAtCongruent(t.side, e.On(t.side), Rest(t.id, t.price, m.left));
  }

  /** A cancel keeps the cache of its level congruent exactly when the saturating guard does not bite. */
  lemma UnlinkCongruentWhen(l: Level, k: nat)
    requires Congruent(l) && k < |l.orders|
    ensures Congruent(Unlink(l, k)) <==> l.volume >= l.orders[k].qty
  {
    CutTakesQty(l.orders, k);
  }

  /** The guard bites on a level whose true sum passed 2^32: the cache then reads 0 over two live units. */
  lemma SaturationLosesVolume()
    ensures var l := Append(Append(Level(100, 0, []), Rest(1, 100, 0xFFFF_FFFF)), Rest(2, 100, 2));
            && Congruent(l) && !Fits(l)
            && Unlink(l, 0).volume == 0 && RestingQty(Unlink(l, 0).orders) == 2
  {
    var l := Append(Append(Level(100, 0, []), Rest(1, 100, 0xFFFF_FFFF)), Rest(2, 100, 2));
    assert l.orders == [Rest(1, 100, 0xFFFF_FFFF), Rest(2, 100, 2)];
    assert RestingQty(l.orders[1..]) == 2 by {
      assert l.orders[1..] == [Rest(2, 100, 2)];
    }
    assert Unlink(l, 0).orders == [Rest(2, 100, 2)];
  }

  lemma CancelInCongruent(ls: seq<Level>, id: u64)
    requires AllCongruent(ls) && AllFit(ls)
    ensures AllCongruent(CancelIn(ls, id))
  {
    var i := Holder(ls, id);
    if i < |ls| {
      var k := Find(id, ls[i].orders);
      assert Congruent(ls[i]) && Fits(ls[i]);
      CutTakesQty(ls[i].orders, k);
      UnlinkCongruentWhen(ls[i], k);
      var l := Unlink(ls[i], k);
      SpliceCongruent(ls, i, if l.orders == [] then [] else [l]);
    }
  }

  lemma SpliceCongruent(ls: seq<Level>, i: nat, r: seq<Level>)
    requires AllCongruent(ls) && i < |ls| && AllCongruent(r)
    ensures AllCongruent(Splice(ls, i, r, i + 1))
  {
    SpliceAt(ls, i, r, i + 1);
  }

  // ---------------------------------------------------------------------------------------------
  // Exactly when an operation keeps the caches exact, told before the call
  // ---------------------------------------------------------------------------------------------

  predicate AllExact(ls: seq<Level>) {
    forall i | 0 <= i < |ls| :: ls[i].volume == RestingQty(ls[i].orders)
  }

  /** The true volume resting at price `p` of a side. */
  function DepthAt(side: Side, ls: seq<Level>, p: u64): nat {
    if HasLevel(side, ls, p) then RestingQty(ls[LowerBound(side, ls, p)].orders) else 0
  }

  lemma {:induction false} MatchLevelExact(t: Taker, q: u32, l: Level)
    requires l.volume == RestingQty(l.orders)
    ensures var l' := MatchLevel(t, q, l).level; l'.volume == RestingQty(l'.orders)
    decreases |l.orders|
  {
    if q == 0 || l.orders == [] {
    } else {
      var f := Min(q, l.orders[0].qty);
      FillHeadExact(l, f);
      var l' := FillHead(l, f);
      if l'.orders[0].qty == 0 {
        MatchLevelExact(t, q - f, Unlink(l', 0));
      }
    }
  }

  lemma FillHeadExact(l: Level, f: u32)
    requires l.volume == RestingQty(l.orders) && l.orders != [] && f <= l.orders[0].qty
    ensures var l' := FillHead(l, f);
            && l'.volume == RestingQty(l'.orders)
            && (l'.orders[0].qty == 0 ==> Unlink(l', 0).volume == RestingQty(Unlink(l', 0).orders))
  {
    var l' := FillHead(l, f);
    assert l'.orders[1..] == l.orders[1..];
    CutTakesQty(l'.orders, 0);
  }

  lemma {:induction false} MatchLevelsExact(t: Taker, q: u32, ls: seq<Level>)
    requires AllExact(ls)
    ensures AllExact(MatchLevels(t, q, ls).levels)
    decreases |ls|
  {
    if q == 0 || ls == [] || !Crosses(t, ls[0].price) {
    } else {
      var r := MatchLevel(t, q, ls[0]);
      MatchLevelExact(t, q, ls[0]);
      if r.level.orders == [] {
        MatchLevelsExact(t, r.left, ls[1..]);
      }
    }
  }

  lemma RestAtExactWhen(side: Side, ls: seq<Level>, r: Rest)
    requires AllExact(ls)
    ensures AllExact(RestAt(side, ls, r)) <==> DepthAt(side, ls, r.price) + r.qty < U32
  {
    var k := LowerBound(side, ls, r.price);
    var l := if HasLevel(side, ls, r.price) then ls[k] else Level(r.price, 0, []);
    RestingQtyOfConcat(l.orders, [r]);
    assert RestingQty(l.orders + [r]) == DepthAt(side, ls, r.price) + r.qty;
    SpliceAt(ls, k, [Append(l, r)], if HasLevel(side, ls, r.price) then k + 1 else k);
    assert RestAt(side, ls, r)[k] == Append(l, r);
  }

  lemma UnlinkExact(l: Level, k: nat)
    requires l.volume == RestingQty(l.orders) && k < |l.orders|
    ensures Unlink(l, k).volume == RestingQty(Unlink(l, k).orders)
  {
    CutTakesQty(l.orders, k);
  }

  lemma CancelInExact(ls: seq<Level>, id: u64)
    requires AllExact(ls)
    ensures AllExact(CancelIn(ls, id))
  {
    var i := Holder(ls, id);
    if i < |ls| {
      var k := Find(id, ls[i].orders);
      UnlinkExact(ls[i], k);
      var l := Unlink(ls[i], k);
      hide Unlink, RestingQty;
      SpliceAt(ls, i, if l.orders == [] then [] else [l], i + 1);
    }
  }

  /** A cancel never disturbs an exact cache. */
  lemma CancelKeepsExact(e: State, id: u64)
    requires Exact(e)
    ensures Exact(CancelOrder(e, id).0)
  {
    CancelInExact(e.bids, id);
    CancelInExact(e.asks, id);
  }

  /** What a fresh order has left when it has met everything it accepts. */
  function Remainder(e: State, t: Taker, qty: u32): nat {
    var eligible := EligibleQty(t, Flat(e.On(t.side.Opposite())));
    if qty < eligible then 0 else qty - eligible
  }

  /** An order that `addOrder` lets in comes to rest: it is a limit order with a remainder, and there is
      a level for it, or a free slot, or one that matching empties. */
  predicate ComesToRest(e: State, t: Taker, qty: u32) {
    && qty > 0 && !Live(e.Flattened(), t.id) && e.FreeOrders() > 0 && t.kind.Limit? && Remainder(e, t, qty) > 0
    && var opp := e.On(t.side.Opposite());
       HasLevel(t.side, e.On(t.side), t.price) || e.FreeLevels() > 0 || (opp != [] && Crosses(t, opp[0].price))
  }

  lemma {:induction false} RemainderIsLeft(e: State, t: Taker, qty: u32)
    requires Ok(e)
    ensures MatchLevels(t, qty, e.On(t.side.Opposite())).left == Remainder(e, t, qty)
  {
    var opp := Flat(e.On(t.side.Opposite()));
    MatchPhase(e, t, qty);
    assert Sorted(t.side.Opposite(), opp);
    MatchIsMaximal(t, qty, opp);
    MatchConserves(t, qty, opp);
  }

  lemma {:induction false} RestsWhen(e: State, t: Taker, qty: u32)
    requires Ok(e)
    ensures var m := MatchLevels(t, qty, e.On(t.side.Opposite()));
            var e1 := AfterMatch(e, t, m);
            var r := Rest(t.id, t.price, m.left);
            && m.left == Remainder(e, t, qty)
            && var e' := AddOrder(e, t, qty).0;
               if ComesToRest(e, t, qty) then e' == e1.With(t.side, RestAt(t.side, e.On(t.side), r))
               else e' == e || e' == e1 || e' == e.(leaked := e.leaked + 1)
  {
    RemainderIsLeft(e, t, qty);
    AddTurnsAway(e, t, qty);
    LevelPoolExhaustedWhen(e, t, qty);
    AddRefines(e, t, qty);
    hide AddOrder, Ok, MatchLevels, HasLevel, RestAt, AfterMatch, Live, Flat, Submit;
    if !(qty == 0 || Live(e.Flattened(), t.id)) && e.FreeOrders() > 0 {
      AddSettles(e, t, qty);
    }
  }

  /** An add disturbs an exact cache exactly when its order comes to rest and its remainder takes the true
      volume at its price to 2^32; all of that can be told before the call. */
  lemma AddKeepsExactWhen(e: State, t: Taker, qty: u32)
    requires Ok(e) && Exact(e)
    ensures Exact(AddOrder(e, t, qty).0)
            <==> (ComesToRest(e, t, qty) ==> DepthAt(t.side, e.On(t.side), t.price) + Remainder(e, t, qty) < U32)
  {
    RestsWhen(e, t, qty);
    hide Ok, AddOrder, MatchLevels, RestAt, DepthAt, ComesToRest, Remainder;
    var ls := e.On(t.side.Opposite());
    MatchLevelsExact(t, qty, ls);
    var m := MatchLevels(t, qty, ls);
    if ComesToRest(e, t, qty) {
      RestAtExactWhen(t.side, e.On(t.side), Rest(t.id, t.price, m.left));
    }
  }

  /** The condition of the two lemmas above, by operation. */
  predicate HasRoom(e: State, op: Op) {
    op.Add? && ComesToRest(e, op.t, op.qty) ==>
      DepthAt(op.t.side, e.On(op.t.side), op.t.price) + Remainder(e, op.t, op.qty) < U32
  }

  lemma StepKeepsExactWhen(e: State, op: Op)
    requires Ok(e) && Exact(e)
    ensures Exact(Step(e, op).0) <==> HasRoom(e, op)
  {
    match op
    case Add(t, qty) => AddKeepsExactWhen(e, t, qty);
    case Cancel(id) => CancelKeepsExact(e, id);
  }

  /** Every cache stays exact through any operation after which no level's true sum overflows. */
  lemma StepKeepsExact(e: State, op: Op)
    requires Exact(e) && NoLevelOverflows(Step(e, op).0)
    ensures Exact(Step(e, op).0)
  {
    ExactMeans(e);
    ExactMeans(Step(e, op).0);
    match op
    case Add(t, qty) => AddKeepsCongruence(e, t, qty);
    case Cancel(id) =>
      CancelInCongruent(e.bids, id);
      CancelInCongruent(e.asks, id);
  }
}
