/** The engine state between two statements of the matching loops. */
module MatchSteps {
  import opened MachineWords
  import opened MatchingTypes
  import opened PriorityBook
  import opened FlatBook
  import opened LevelBook
  import opened Engine

  /** `keys` are exactly the ids resting in `b`, each resting once. */
  ghost predicate IndexOk(keys: set<u64>, b: Book) {
    && UniqueIds(b.bids) && UniqueIds(b.asks) && NoSharedId(b.bids, b.asks)
    && forall id {:trigger id in keys} :: id in keys <==> Live(b, id)
  }

  /** Same orders but for quantities. */
  ghost predicate SameIds(s: seq<Rest>, s': seq<Rest>) {
    |s| == |s'| && forall i {:trigger s[i]} {:trigger s'[i]} | 0 <= i < |s| :: s[i].id == s'[i].id
  }

  lemma {:induction false} SameIdsMeansSameIndex(keys: set<u64>, e: State, side: Side, ls: seq<Level>)
    requires IndexOk(keys, e.Flattened()) && SameIds(Flat(e.On(side)), Flat(ls))
    ensures IndexOk(keys, e.With(side, ls).Flattened())
  {
    var s, s' := Flat(e.On(side)), Flat(ls);
    forall id ensures Has(s, id) == Has(s', id) {
      if Has(s, id) {
        var i :| 0 <= i < |s| && s[i].id == id;
        assert s'[i].id == id;
      }
      if Has(s', id) {
        var i :| 0 <= i < |s'| && s'[i].id == id;
        assert s[i].id == id;
      }
    }
  }

  lemma CountOne(e: State, trade: Trade)
    ensures var c := Counted(e, [trade]);
            && c == e.(tradeCount := (e.tradeCount + 1) % U64, volumeTraded := (e.volumeTraded + trade.qty) % U64)
  {
    assert Volume([trade]) == trade.qty;
  }

  /** The first level of `side` with its first order filled by `f`. */
  function Filled(ls: seq<Level>, f: u32): seq<Level>
    requires ls != [] && ls[0].orders != [] && f <= ls[0].orders[0].qty
  {
    ls[0 := FillHead(ls[0], f)]
  }

  lemma FillKeepsIndex(keys: set<u64>, e: State, side: Side, f: u32)
    requires IndexOk(keys, e.Flattened())
    requires var ls := e.On(side); ls != [] && ls[0].orders != [] && f <= ls[0].orders[0].qty
    ensures IndexOk(keys, e.With(side, Filled(e.On(side), f)).Flattened())
    ensures |Flat(Filled(e.On(side), f))| == |Flat(e.On(side))|
  {
    var ls := e.On(side);
    var l' := FillHead(ls[0], f);
    assert Filled(ls, f)[1..] == ls[1..];
    SameIdsMeansSameIndex(keys, e, side, Filled(ls, f));
  }

  /** Unlinking the first order of the first level takes the first order off the priority sequence. */
  lemma {:induction false} DropIsTail(ls: seq<Level>)
    requires ls != [] && ls[0].orders != []
    ensures Flat(ls) != [] && Flat(ls[0 := Unlink(ls[0], 0)]) == Flat(ls)[1..] && Flat(ls)[0] == ls[0].orders[0]
  {
    UnlinkFirst(ls[0]);
    TailOfConcat(ls[0].orders, Flat(ls[1..]));
    assert ls[0 := Unlink(ls[0], 0)][1..] == ls[1..];
  }

  lemma UnlinkFirst(l: Level)
    requires l.orders != []
    ensures Unlink(l, 0).orders == l.orders[1..]
  {
  }

  lemma TailOfConcat<T>(a: seq<T>, b: seq<T>)
    requires a != []
    ensures (a + b)[1..] == a[1..] + b && (a + b)[0] == a[0]
  {
  }

  lemma DropKeepsIndex(keys: set<u64>, e: State, side: Side)
    requires IndexOk(keys, e.Flattened()) && e.On(side) != [] && e.On(side)[0].orders != []
    ensures var ls := e.On(side);
            var e' := e.With(side, ls[0 := Unlink(ls[0], 0)]);
            var id := ls[0].orders[0].id;
            && id in keys && IndexOk(keys - {id}, e'.Flattened())
            && |Flat(e'.On(side))| == |Flat(ls)| - 1
            && !Has(Flat(e'.bids), id) && !Has(Flat(e'.asks), id)
  {
    var ls := e.On(side);
    DropIsTail(ls);
    OneFewerId(keys, Flat(ls), Flat(e.On(side.Opposite())));
  }

  lemma OneFewerId(keys: set<u64>, s: seq<Rest>, opp: seq<Rest>)
    requires s != [] && UniqueIds(s) && NoSharedId(s, opp)
    ensures UniqueIds(s[1..]) && NoSharedId(s[1..], opp)
    ensures !Has(s[1..], s[0].id) && !Has(opp, s[0].id) && Has(s, s[0].id)
    ensures forall id :: Has(s[1..], id) <==> Has(s, id) && id != s[0].id
  {
    var t := s[1..];
    assert forall i {:trigger t[i]} | 0 <= i < |t| :: t[i] == s[i+1];
    forall id | Has(s, id) && id != s[0].id ensures Has(t, id) {
      var i :| 0 <= i < |s| && s[i].id == id;
      assert t[i-1].id == id;
    }
  }

  /** A level without orders adds nothing to the priority sequence. */
  lemma {:induction false} EmptyLevelAddsNothing(ls: seq<Level>, k: nat)
    requires k < |ls| && ls[k].orders == []
    ensures Flat(Splice(ls, k, [], k + 1)) == Flat(ls)
  {
    if k == 0 {
      assert Splice(ls, 0, [], 1) == ls[1..];
    } else {
      SpliceCons(ls, k, [], k + 1);
      EmptyLevelAddsNothing(ls[1..], k - 1);
    }
  }

  // ---------------------------------------------------------------------------------------------
  // The inner loop
  // ---------------------------------------------------------------------------------------------

  /** `trades` followed by what is left to do is the whole of `whole`. */
  predicate LevelRest(t: Taker, whole: LevelFill, q: u32, l: Level, trades: seq<Trade>) {
    var r := MatchLevel(t, q, l);
    whole == r.(trades := trades + r.trades)
  }

  function HeadTrade(t: Taker, l: Level, f: u32): Trade
    requires l.orders != []
  {
    Trade(l.orders[0].id, t.id, l.price, f)
  }

  /** The state when the inner loop, started in `e0`, has reached level `l` and made `trades`. */
  function InLevel(e0: State, side: Side, l: Level, trades: seq<Trade>): State
    requires e0.On(side) != []
  {
    Counted(e0.With(side, e0.On(side)[0 := l]), trades)
  }

  lemma InLevelStarts(e0: State, side: Side)
    requires e0.On(side) != []
    ensures InLevel(e0, side, e0.On(side)[0], []) == e0
  {
    assert e0.On(side)[0 := e0.On(side)[0]] == e0.On(side);
    NothingCounted(e0);
  }

  lemma InLevelIsThere(e0: State, side: Side, l: Level, trades: seq<Trade>)
    requires e0.On(side) != []
    ensures InLevel(e0, side, l, trades).On(side) != [] && InLevel(e0, side, l, trades).On(side)[0] == l
  {
  }

  lemma InLevelTwice(e0: State, side: Side, l: Level, trades: seq<Trade>, l': Level, trade: Trade)
    requires e0.On(side) != []
    ensures InLevel(e0, side, l, trades).On(side) != []
    ensures InLevel(InLevel(e0, side, l, trades), side, l', [trade]) == InLevel(e0, side, l', trades + [trade])
  {
    var ls := e0.On(side);
    assert ls[0 := l][0 := l'] == ls[0 := l'];
    CountedTwice(e0.With(side, ls[0 := l']), trades, [trade]);
  }

  /** A level after a fill of `f` with its first order, which leaves when that empties it. */
  function AfterFill(l: Level, f: u32): (l': Level)
    requires l.orders != [] && f <= l.orders[0].qty
    ensures |l'.orders| == |l.orders| - if f == l.orders[0].qty then 1 else 0
  {
    var l' := FillHead(l, f);
    if l'.orders[0].qty == 0 then Unlink(l', 0) else l'
  }

  /** What one pass of the inner loop trades, and the state it leaves. */
  function MakerTrade(t: Taker, q: u32, e: State, side: Side): Trade
    requires e.On(side) != [] && e.On(side)[0].orders != []
  {
    HeadTrade(t, e.On(side)[0], Min(q, e.On(side)[0].orders[0].qty))
  }

  function AfterMaker(t: Taker, q: u32, e: State, side: Side): State
    requires e.On(side) != [] && e.On(side)[0].orders != []
  {
    var trade := MakerTrade(t, q, e, side);
    InLevel(e, side, AfterFill(e.On(side)[0], trade.qty), [trade])
  }

  /** The two statements that make up `AfterFill`. */
  lemma FillThenUnlink(e: State, side: Side, f: u32, trade: Trade)
    requires e.On(side) != [] && e.On(side)[0].orders != [] && f <= e.On(side)[0].orders[0].qty
    ensures var l := e.On(side)[0];
            var e1 := Counted(e.With(side, Filled(e.On(side), f)), [trade]);
            && e1.On(side) != [] && e1.On(side)[0] == FillHead(l, f)
            && InLevel(e, side, AfterFill(l, f), [trade])
               == if f == l.orders[0].qty then e1.With(side, e1.On(side)[0 := Unlink(e1.On(side)[0], 0)]) else e1
  {
    var ls := e.On(side);
    assert ls[0 := FillHead(ls[0], f)][0 := AfterFill(ls[0], f)] == ls[0 := AfterFill(ls[0], f)];
  }

  lemma LevelStep(t: Taker, whole: LevelFill, q: u32, l: Level, trades: seq<Trade>)
    requires LevelRest(t, whole, q, l, trades) && q > 0 && l.orders != []
    ensures var f := Min(q, l.orders[0].qty);
            LevelRest(t, whole, q - f, AfterFill(l, f), trades + [HeadTrade(t, l, f)])
  {
    var f := Min(q, l.orders[0].qty);
    var l' := FillHead(l, f);
    var trade := HeadTrade(t, l, f);
    if l'.orders[0].qty == 0 {
      var r := MatchLevel(t, q - f, Unlink(l', 0));
      assert trades + ([trade] + r.trades) == (trades + [trade]) + r.trades;
    } else {
      assert MatchLevel(t, q - f, l') == LevelFill(l', 0, []);
      assert (trades + [trade]) + [] == trades + [trade];
    }
  }

  /** One pass of the inner loop, seen from its start. */
  lemma InnerStep(e0: State, side: Side, t: Taker, whole: LevelFill, q: u32, l: Level, trades: seq<Trade>)
    requires e0.On(side) != [] && LevelRest(t, whole, q, l, trades) && q > 0 && l.orders != []
    ensures var e := InLevel(e0, side, l, trades);
            && e.On(side) != [] && e.On(side)[0] == l
            && var trade := MakerTrade(t, q, e, side);
               && trade.qty <= l.orders[0].qty
               && var l' := AfterFill(l, trade.qty);
               && AfterMaker(t, q, e, side) == InLevel(e0, side, l', trades + [trade])
               && LevelRest(t, whole, q - trade.qty, l', trades + [trade])
               && (|l'.orders| < |l.orders| || (|l'.orders| == |l.orders| && trade.qty == q))
  {
    LevelStep(t, whole, q, l, trades);
    var trade := MakerTrade(t, q, InLevel(e0, side, l, trades), side);
    InLevelTwice(e0, side, l, trades, AfterFill(l, trade.qty), trade);
  }

  lemma {:induction false} LevelStarts(t: Taker, q: u32, l: Level)
    ensures LevelRest(t, MatchLevel(t, q, l), q, l, [])
  {
    var r := MatchLevel(t, q, l);
    assert [] + r.trades == r.trades;
  }

  lemma LevelDone(t: Taker, whole: LevelFill, q: u32, l: Level, trades: seq<Trade>)
    requires LevelRest(t, whole, q, l, trades) && (q == 0 || l.orders == [])
    ensures whole == LevelFill(l, q, trades)
  {
    assert trades + [] == trades;
  }

  // ---------------------------------------------------------------------------------------------
  // The outer loop
  // ---------------------------------------------------------------------------------------------

  predicate SideRest(t: Taker, whole: SideFill, q: u32, ls: seq<Level>, trades: seq<Trade>) {
    var r := MatchLevels(t, q, ls);
    whole == r.(trades := trades + r.trades)
  }

  lemma {:induction false} SideStep(t: Taker, whole: SideFill, q: u32, ls: seq<Level>, trades: seq<Trade>)
    requires SideRest(t, whole, q, ls, trades) && q > 0 && ls != [] && Crosses(t, ls[0].price)
    ensures var r := MatchLevel(t, q, ls[0]);
            if r.level.orders == [] then SideRest(t, whole, r.left, ls[1..], trades + r.trades)
            else r.left == 0 && SideRest(t, whole, 0, ls[0 := r.level], trades + r.trades)
  {
    var r := MatchLevel(t, q, ls[0]);
    LevelLeavesNothing(t, q, ls[0]);
    if r.level.orders == [] {
      var s := MatchLevels(t, r.left, ls[1..]);
      assert trades + (r.trades + s.trades) == (trades + r.trades) + s.trades;
    } else {
      assert [r.level] + ls[1..] == ls[0 := r.level];
      assert (trades + r.trades) + [] == trades + r.trades;
    }
  }

  /** The state when the outer loop, started in `e0`, has left levels `ls` and made `trades`. */
  function InSide(e0: State, side: Side, ls: seq<Level>, trades: seq<Trade>): State {
    Counted(e0.With(side, ls), trades)
  }

  lemma InSideStarts(e0: State, side: Side)
    ensures InSide(e0, side, e0.On(side), []) == e0
  {
    NothingCounted(e0);
  }

  lemma InSideIsThere(e0: State, side: Side, ls: seq<Level>, trades: seq<Trade>)
    ensures InSide(e0, side, ls, trades).On(side) == ls
  {
  }

  lemma {:induction false} SideStarts(t: Taker, q: u32, ls: seq<Level>)
    ensures SideRest(t, MatchLevels(t, q, ls), q, ls, [])
  {
    var r := MatchLevels(t, q, ls);
    assert [] + r.trades == r.trades;
  }

  lemma SideDone(t: Taker, whole: SideFill, q: u32, ls: seq<Level>, trades: seq<Trade>)
    requires SideRest(t, whole, q, ls, trades) && (q == 0 || ls == [] || !Crosses(t, ls[0].price))
    ensures whole == SideFill(ls, q, trades)
  {
    assert trades + [] == trades;
  }

  lemma {:induction false} SomethingTrades(t: Taker, q: u32, l: Level)
    requires q > 0 && l.orders != []
    ensures MatchLevel(t, q, l).trades != []
  {
  }

  /** What one pass of the outer loop leaves of the levels. */
  function AfterLevel(ls: seq<Level>, l: Level): seq<Level>
    requires ls != []
  {
    if l.orders == [] then Splice(ls, 0, [], 1) else ls[0 := l]
  }

  lemma InSideIsAfterMatch(e0: State, t: Taker, m: SideFill)
    ensures InSide(e0, t.side.Opposite(), m.levels, m.trades) == AfterMatch(e0, t, m)
  {
  }

  lemma SpliceForgetsFirst(ls: seq<Level>, l: Level)
    requires ls != []
    ensures Splice(ls[0 := l], 0, [], 1) == Splice(ls, 0, [], 1) && ls[0 := l][0 := l] == ls[0 := l]
  {
    assert ls[0 := l][1..] == ls[1..];
  }

  /** The inner loop and then perhaps the erasure, on the engine state. */
  lemma LevelThenErase(e0: State, side: Side, ls: seq<Level>, trades: seq<Trade>, l: Level, more: seq<Trade>)
    requires ls != []
    ensures var e := InSide(e0, side, ls, trades);
            && e.On(side) == ls
            && InLevel(e, side, l, more).On(side) == ls[0 := l]
            && InSide(e0, side, AfterLevel(ls, l), trades + more)
               == (if l.orders == [] then InLevel(e, side, l, more).With(side, Splice(ls[0 := l], 0, [], 1))
                   else InLevel(e, side, l, more))
  {
    hide Splice, Volume;
    SpliceForgetsFirst(ls, l);
    if l.orders == [] {
      CountedTwice(e0.With(side, Splice(ls[0 := l], 0, [], 1)), trades, more);
    } else {
      CountedTwice(e0.With(side, ls[0 := l]), trades, more);
    }
  }

  /** One pass of the outer loop, seen from its start. */
  lemma {:induction false} OuterStep(t: Taker, whole: SideFill, q: u32, ls: seq<Level>, trades: seq<Trade>)
    requires SideRest(t, whole, q, ls, trades) && q > 0 && ls != [] && Crosses(t, ls[0].price)
    ensures var r := MatchLevel(t, q, ls[0]);
            && SideRest(t, whole, r.left, AfterLevel(ls, r.level), trades + r.trades)
            && (if r.level.orders == [] then |AfterLevel(ls, r.level)| == |ls| - 1
                else r.left == 0 && |AfterLevel(ls, r.level)| == |ls|)
  {
    SideStep(t, whole, q, ls, trades);
    assert Splice(ls, 0, [], 1) == ls[1..];
  }

  /** The inner loop stops with orders left only when the taker is done. */
  lemma {:induction false} LevelLeavesNothing(t: Taker, q: u32, l: Level)
    ensures MatchLevel(t, q, l).level.orders != [] ==> MatchLevel(t, q, l).left == 0
    ensures MatchLevel(t, q, l).level.price == l.price
    decreases |l.orders|
  {
    if q > 0 && l.orders != [] {
      var f := Min(q, l.orders[0].qty);
      var l' := FillHead(l, f);
      if l'.orders[0].qty == 0 {
        LevelLeavesNothing(t, q - f, Unlink(l', 0));
      }
    }
  }

  // ---------------------------------------------------------------------------------------------
  // Resting
  // ---------------------------------------------------------------------------------------------

  lemma InsertKeepsIds(side: Side, r: Rest, s: seq<Rest>, opp: seq<Rest>)
    requires UniqueIds(s) && NoSharedId(s, opp) && !Has(s, r.id) && !Has(opp, r.id)
    ensures var s' := Insert(side, r, s);
            && UniqueIds(s') && NoSharedId(s', opp) && |s'| == |s| + 1
            && forall id {:trigger Has(s', id)} :: Has(s', id) <==> Has(s, id) || id == r.id
  {
    var k := Slot(side, r.price, s);
    var s' := Insert(side, r, s);
    SpliceAt(s, k, [r], k);
    assert s'[k] == r;
    forall id | Has(s, id) ensures Has(s', id) {
      var i :| 0 <= i < |s| && s[i].id == id;
      assert s'[if i < k then i else i + 1] == s[i];
    }
  }

  lemma RestKeepsIndex(keys: set<u64>, e: State, side: Side, r: Rest)
    requires IndexOk(keys, e.Flattened()) && r.id !in keys && LevelsOk(side, e.On(side))
    ensures var ls' := RestAt(side, e.On(side), r);
            IndexOk(keys + {r.id}, e.With(side, ls').Flattened()) && |Flat(ls')| == |Flat(e.On(side))| + 1
  {
    hide Insert, RestAt, UniqueIds, NoSharedId, Has, LevelsOk;
    assert !Live(e.Flattened(), r.id);
    RestAtIsInsert(side, e.On(side), r);
    NoSharedSwaps(Flat(e.bids), Flat(e.asks));
    InsertKeepsIds(side, r, Flat(e.On(side)), Flat(e.On(side.Opposite())));
    NoSharedSwaps(Flat(RestAt(side, e.On(side), r)), Flat(e.On(side.Opposite())));
  }

  lemma NoSharedSwaps(a: seq<Rest>, b: seq<Rest>)
    ensures NoSharedId(a, b) == NoSharedId(b, a)
  {
  }

  lemma {:induction false} NewLevelAddsNothing(ls: seq<Level>, k: nat, p: u64)
    requires k <= |ls|
    ensures Flat(Splice(ls, k, [Level(p, 0, [])], k)) == Flat(ls)
  {
    if k == 0 {
      assert Splice(ls, 0, [Level(p, 0, [])], 0) == [Level(p, 0, [])] + ls;
    } else {
      SpliceCons(ls, k, [Level(p, 0, [])], k);
      NewLevelAddsNothing(ls[1..], k - 1, p);
    }
  }

  /** The levels between `getOrCreatePriceLevel` and `append`. */
  function WithLevel(side: Side, ls: seq<Level>, p: u64): seq<Level> {
    var k := LowerBound(side, ls, p);
    if HasLevel(side, ls, p) then ls else Splice(ls, k, [Level(p, 0, [])], k)
  }

  lemma {:induction false} WithLevelThenAppend(side: Side, ls: seq<Level>, r: Rest)
    ensures var k := LowerBound(side, ls, r.price);
            var ls' := WithLevel(side, ls, r.price);
            && k < |ls'| && RestAt(side, ls, r) == ls'[k := Append(ls'[k], r)]
            && Flat(ls') == Flat(ls)
            && |ls'| == |ls| + (if HasLevel(side, ls, r.price) then 0 else 1)
  {
    var k := LowerBound(side, ls, r.price);
    hide Splice, Flat, Append;
    if HasLevel(side, ls, r.price) {
      SetIsSplice(ls, k, Append(ls[k], r));
    } else {
      var empty := Level(r.price, 0, []);
      SpliceAt(ls, k, [empty], k);
      SpliceThenSet(ls, k, empty, k, Append(empty, r));
      NewLevelAddsNothing(ls, k, r.price);
    }
  }

  lemma {:induction false} RestAtBound(side: Side, ls: seq<Level>, r: Rest)
    requires LevelsOk(side, ls)
    ensures LowerBound(side, RestAt(side, ls, r), r.price) == LowerBound(side, ls, r.price)
    ensures |RestAt(side, ls, r)| == |ls| + (if HasLevel(side, ls, r.price) then 0 else 1)
    ensures |AfterUndo(side, ls, r)| == |ls|
  {
    var k := LowerBound(side, ls, r.price);
    WithLevelThenAppend(side, ls, r);
    RestAtKeepsLevelsOk(side, ls, r);
    var ls' := RestAt(side, ls, r);
    assert ls'[k].price == r.price by {
      if !HasLevel(side, ls, r.price) {
        SpliceAt(ls, k, [Append(Level(r.price, 0, []), r)], k);
      }
    }
    BoundOfLevel(side, ls', k);
  }

  // ---------------------------------------------------------------------------------------------
  // Cancelling
  // ---------------------------------------------------------------------------------------------

  lemma RemoveKeepsOthers(id: u64, s: seq<Rest>, x: u64)
    requires Has(s, x) && x != id
    ensures Has(Remove(id, s), x)
  {
    var k := Find(id, s);
    if k < |s| {
      SpliceAt(s, k, [], k + 1);
      var i :| 0 <= i < |s| && s[i].id == x;
      assert Remove(id, s)[if i < k then i else i - 1] == s[i];
    }
  }

  lemma WithdrawKeepsIndex(keys: set<u64>, b: Book, id: u64)
    requires IndexOk(keys, b) && BookOk(b)
    ensures IndexOk(keys - {id}, Withdraw(b, id))
  {
    var b' := Withdraw(b, id);
    WithdrawKeepsBookOk(b, id);
    forall x ensures Live(b', x) <==> Live(b, x) && x != id {
      RemoveDrops(id, b.bids);
      RemoveDrops(id, b.asks);
      if Has(b.bids, x) && x != id {
        RemoveKeepsOthers(id, b.bids, x);
      }
      if Has(b.asks, x) && x != id {
        RemoveKeepsOthers(id, b.asks, x);
      }
    }
  }

  lemma CancelKeepsIndex(keys: set<u64>, e: State, id: u64)
    requires IndexOk(keys, e.Flattened()) && Ok(e) && id in keys
    ensures var e' := CancelOrder(e, id).0;
            && IndexOk(keys - {id}, e'.Flattened())
            && !Has(Flat(e'.bids), id) && !Has(Flat(e'.asks), id)
            && |Flat(e'.bids)| + |Flat(e'.asks)| == |Flat(e.bids)| + |Flat(e.asks)| - 1
  {
    hide LevelsAndSlotsOk, UniqueIds, CancelIn, Remove, Sorted, Positive, Uncrossed;
    CancelRefines(e, id);
    WithdrawKeepsIndex(keys, e.Flattened(), id);
    WithdrawKeepsBookOk(e.Flattened(), id);
    RemoveLength(id, Flat(e.bids));
    RemoveLength(id, Flat(e.asks));
    assert !(Has(Flat(e.bids), id) && Has(Flat(e.asks), id));
  }

  /** Where `id` sits: level `k` of `side`, order `p` of that level. */
  ghost predicate SitsAt(e: State, id: u64, side: Side, k: nat, p: nat) {
    && k < |e.On(side)| && p < |e.On(side)[k].orders| && e.On(side)[k].orders[p].id == id
    && CancelOrder(e, id) == (e.With(side, UnlinkAt(e.On(side), k, p)), Found(true))
    && e.On(side)[k].price == e.On(side)[k].orders[p].price
    && LowerBound(side, e.On(side), e.On(side)[k].price) == k
  }

  lemma FindSeat(e: State, id: u64) returns (side: Side, k: nat, p: nat)
    requires Ok(e) && Live(e.Flattened(), id)
    ensures SitsAt(e, id, side, k, p)
  {
    HeldMeansHas(e.bids, id);
    HeldMeansHas(e.asks, id);
    assert !(Has(Flat(e.bids), id) && Has(Flat(e.asks), id));
    side := if Has(Flat(e.bids), id) then Buy else Sell;
    k := Holder(e.On(side), id);
    p := Find(id, e.On(side)[k].orders);
    assert LevelsOk(side, e.On(side));
    BoundOfLevel(side, e.On(side), k);
  }

  lemma UnlinkShortens(ls: seq<Level>, k: nat, p: nat)
    requires k < |ls| && p < |ls[k].orders|
    ensures |UnlinkAt(ls, k, p)| == |ls| - (if Unlink(ls[k], p).orders == [] then 1 else 0)
  {
  }

  lemma {:induction false} BoundOfLevel(side: Side, ls: seq<Level>, k: nat)
    requires LevelsOk(side, ls) && k < |ls|
    ensures LowerBound(side, ls, ls[k].price) == k
  {
  }
}
