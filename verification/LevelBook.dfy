/** The book as the program keeps it: each side a run of price levels, each level a FIFO of orders with a
    cached 32-bit volume.  The operations are those of OrderBook.cpp on values instead of pointers, and
    each is proved to agree with the flat priority book. */
module LevelBook {
  import opened MachineWords
  import opened MatchingTypes
  import opened PriorityBook
  import opened FlatBook

  /** `volume` is the cached `totalVolume`, arithmetic modulo 2^32. */
  datatype Level = Level(price: u64, volume: u32, orders: seq<Rest>)

  /** The orders of a side, best level first, oldest order first. */
  function Flat(ls: seq<Level>): seq<Rest> {
    if ls == [] then [] else ls[0].orders + Flat(ls[1..])
  }

  predicate LevelOk(l: Level) {
    l.orders != [] && forall i | 0 <= i < |l.orders| :: l.orders[i].price == l.price
  }

  /** Non-empty levels, strictly ordered by priority. */
  predicate LevelsOk(side: Side, ls: seq<Level>) {
    && (forall i | 0 <= i < |ls| :: LevelOk(ls[i]))
    && (forall i, j | 0 <= i < j < |ls| :: Better(side, ls[i].price, ls[j].price))
  }

  // ---------------------------------------------------------------------------------------------
  // Matching
  // ---------------------------------------------------------------------------------------------

  datatype LevelFill = LevelFill(level: Level, left: u32, trades: seq<Trade>)
  datatype SideFill = SideFill(levels: seq<Level>, left: u32, trades: seq<Trade>)

  /** `head` of the level after a fill of `f`: the quantity and the cached volume both drop. */
  function FillHead(l: Level, f: u32): Level
    requires l.orders != [] && f <= l.orders[0].qty
  {
    Level(l.price, (l.volume - f) % U32, [l.orders[0].(qty := l.orders[0].qty - f)] + l.orders[1..])
  }

  /** `PriceLevel::remove`: the cached volume saturates at zero instead of wrapping. */
  function Unlink(l: Level, k: nat): Level
    requires k < |l.orders|
  {
    var q := l.orders[k].qty;
    Level(l.price, if l.volume >= q then l.volume - q else 0, Splice(l.orders, k, [], k + 1))
  }

  /** The inner matching loop. */
  function MatchLevel(t: Taker, q: u32, l: Level): LevelFill
    decreases |l.orders|
  {
    if q == 0 || l.orders == [] then
      LevelFill(l, q, [])
    else
      var f := Min(q, l.orders[0].qty);
      var trade := Trade(l.orders[0].id, t.id, l.price, f);
      var l' := FillHead(l, f);
      var l'' := if l'.orders[0].qty == 0 then Unlink(l', 0) else l';
      if l'.orders[0].qty == 0 then
        var r := MatchLevel(t, q - f, l'');
        r.(trades := [trade] + r.trades)
      else
        LevelFill(l'', q - f, [trade])
  }

  /** The outer matching loop. */
  function MatchLevels(t: Taker, q: u32, ls: seq<Level>): SideFill
    decreases |ls|
  {
    if q == 0 || ls == [] || !Crosses(t, ls[0].price) then
      SideFill(ls, q, [])
    else
      var r := MatchLevel(t, q, ls[0]);
      if r.level.orders == [] then
        var s := MatchLevels(t, r.left, ls[1..]);
        s.(trades := r.trades + s.trades)
      else
        SideFill([r.level] + ls[1..], r.left, r.trades)
  }

  lemma {:induction false} MatchLevelIsMatch(t: Taker, q: u32, l: Level, tail: seq<Rest>)
    requires forall i | 0 <= i < |l.orders| :: l.orders[i].price == l.price
    requires Crosses(t, l.price)
    ensures var r := MatchLevel(t, q, l);
            && r.level.price == l.price
            && (forall i | 0 <= i < |r.level.orders| :: r.level.orders[i].price == l.price)
            && (r.level.orders != [] ==> r.left == 0)
            && Match(t, q, l.orders + tail)
               == if r.level.orders == []
                  then var m := Match(t, r.left, tail); m.(trades := r.trades + m.trades)
                  else Fill(r.level.orders + tail, 0, r.trades)
    decreases |l.orders|
  {
    if q == 0 || l.orders == [] {
      assert l.orders == [] ==> l.orders + tail == tail;
      var m := Match(t, q, tail);
      assert [] + m.trades == m.trades;
    } else {
      hide Match;
      var f := Min(q, l.orders[0].qty);
      var l' := FillHead(l, f);
      assert l'.orders[0].qty == 0 <==> f == l.orders[0].qty;
      if f == l.orders[0].qty {
        var l'' := Unlink(l', 0);
        assert l''.orders == l.orders[1..];
        MatchLevelIsMatch(t, q - f, l'', tail);
        FirstLevelOrder(t, q, l, tail);
      } else {
        FirstLevelOrder(t, q, l, tail);
      }
    }
  }

  lemma {:induction false} FirstLevelOrder(t: Taker, q: u32, l: Level, tail: seq<Rest>)
    requires l.orders != [] && q > 0 && l.orders[0].price == l.price && Crosses(t, l.price)
    ensures var f := Min(q, l.orders[0].qty);
            var trade := Trade(l.orders[0].id, t.id, l.price, f);
            Match(t, q, l.orders + tail)
            == if f == l.orders[0].qty
               then var m := Match(t, q - f, l.orders[1..] + tail); m.(trades := [trade] + m.trades)
               else Fill(FillHead(l, f).orders + tail, 0, [trade])
  {
    assert (l.orders + tail)[1..] == l.orders[1..] + tail;
    assert (l.orders + tail)[0] == l.orders[0];
    var f := Min(q, l.orders[0].qty);
    var cut := [l.orders[0].(qty := l.orders[0].qty - f)];
    assert (cut + l.orders[1..]) + tail == cut + (l.orders[1..] + tail);
  }

  /** Matching level by level is matching the flat sequence. */
  lemma {:induction false} MatchLevelsIsMatch(t: Taker, q: u32, ls: seq<Level>)
    requires LevelsOk(t.side.Opposite(), ls)
    ensures var r := MatchLevels(t, q, ls);
            && Match(t, q, Flat(ls)) == Fill(Flat(r.levels), r.left, r.trades)
            && LevelsOk(t.side.Opposite(), r.levels)
            && |r.levels| <= |ls|
            && (|ls| > |r.levels| ==> Crosses(t, ls[0].price))
            && (|ls| == |r.levels| > 0 ==> r.levels[0].price == ls[0].price)
            && (r.left > 0 && r.levels != [] ==> !Crosses(t, r.levels[0].price))
    decreases |ls|
  {
    if q == 0 || ls == [] || !Crosses(t, ls[0].price) {
      assert ls != [] ==> Flat(ls) != [] && Flat(ls)[0] == ls[0].orders[0];
    } else {
      var r := MatchLevel(t, q, ls[0]);
      MatchLevelIsMatch(t, q, ls[0], Flat(ls[1..]));
      if r.level.orders == [] {
        MatchLevelsIsMatch(t, r.left, ls[1..]);
      } else {
        assert ([r.level] + ls[1..])[1..] == ls[1..];
      }
    }
  }

  lemma AllPricedConcat(a: seq<Trade>, b: seq<Trade>, p: u64)
    requires (forall i | 0 <= i < |a| :: a[i].price == p) && (forall i | 0 <= i < |b| :: b[i].price == p)
    ensures forall i | 0 <= i < |a + b| :: (a + b)[i].price == p
  {
  }

  lemma WithinConcat(side: Side, limit: u64, a: seq<Trade>, b: seq<Trade>)
    requires forall i | 0 <= i < |a| :: if side == Buy then a[i].price <= limit else a[i].price >= limit
    requires forall i | 0 <= i < |b| :: if side == Buy then b[i].price <= limit else b[i].price >= limit
    ensures forall i | 0 <= i < |a + b| :: if side == Buy then (a + b)[i].price <= limit else (a + b)[i].price >= limit
  {
  }

  lemma {:induction false} LevelTradesAtItsPrice(t: Taker, q: u32, l: Level)
    ensures forall i | 0 <= i < |MatchLevel(t, q, l).trades| :: MatchLevel(t, q, l).trades[i].price == l.price
    decreases |l.orders|
  {
    if q == 0 || l.orders == [] {
    } else {
      var f := Min(q, l.orders[0].qty);
      var l' := FillHead(l, f);
      if l'.orders[0].qty == 0 {
        assert Unlink(l', 0).price == l.price;
        LevelTradesAtItsPrice(t, q - f, Unlink(l', 0));
        AllPricedConcat([Trade(l.orders[0].id, t.id, l.price, f)], MatchLevel(t, q - f, Unlink(l', 0)).trades, l.price);
      }
    }
  }

  /** Whatever the levels, a limit order trades with none priced worse than its limit. */
  lemma {:induction false} LevelsKeepLimit(t: Taker, q: u32, ls: seq<Level>)
    requires t.kind == Limit
    ensures forall i | 0 <= i < |MatchLevels(t, q, ls).trades| ::
              if t.side == Buy then MatchLevels(t, q, ls).trades[i].price <= t.price
              else MatchLevels(t, q, ls).trades[i].price >= t.price
    decreases |ls|
  {
    if q == 0 || ls == [] || !Crosses(t, ls[0].price) {
    } else {
      LevelTradesAtItsPrice(t, q, ls[0]);
      var r := MatchLevel(t, q, ls[0]);
      if r.level.orders == [] {
        LevelsKeepLimit(t, r.left, ls[1..]);
        WithinConcat(t.side, t.price, r.trades, MatchLevels(t, r.left, ls[1..]).trades);
      }
    }
  }

  // ---------------------------------------------------------------------------------------------
  // Resting
  // ---------------------------------------------------------------------------------------------

  /** `PriceLevel::append`: the cached volume wraps. */
  function Append(l: Level, r: Rest): Level {
    Level(l.price, (l.volume + r.qty) % U32, l.orders + [r])
  }

  /** `std::map::lower_bound` under the side's comparator. */
  function LowerBound(side: Side, ls: seq<Level>, p: u64): (k: nat)
    ensures k <= |ls|
    ensures forall i | 0 <= i < k :: Better(side, ls[i].price, p)
    ensures k < |ls| ==> !Better(side, ls[k].price, p)
  {
    if ls == [] || !Better(side, ls[0].price, p) then 0 else 1 + LowerBound(side, ls[1..], p)
  }

  lemma {:induction false} LowerBoundSeesPrices(side: Side, ls: seq<Level>, k: nat, v: Level, p: u64)
    requires k < |ls| && v.price == ls[k].price
    ensures LowerBound(side, ls[k := v], p) == LowerBound(side, ls, p)
  {
    if k == 0 {
      assert ls[0 := v][1..] == ls[1..];
    } else {
      assert ls[k := v][1..] == ls[1..][k-1 := v];
      LowerBoundSeesPrices(side, ls[1..], k - 1, v, p);
    }
  }

  predicate HasLevel(side: Side, ls: seq<Level>, p: u64) {
    var k := LowerBound(side, ls, p);
    k < |ls| && ls[k].price == p
  }

  /** `getOrCreatePriceLevel` followed by `append`. */
  function RestAt(side: Side, ls: seq<Level>, r: Rest): seq<Level> {
    var k := LowerBound(side, ls, r.price);
    if k < |ls| && ls[k].price == r.price then Splice(ls, k, [Append(ls[k], r)], k + 1)
    else Splice(ls, k, [Append(Level(r.price, 0, []), r)], k)
  }

  lemma RestAtKeepsLevelsOk(side: Side, ls: seq<Level>, r: Rest)
    requires LevelsOk(side, ls)
    ensures LevelsOk(side, RestAt(side, ls, r))
    ensures |RestAt(side, ls, r)| == |ls| + if HasLevel(side, ls, r.price) then 0 else 1
  {
    var k := LowerBound(side, ls, r.price);
    if HasLevel(side, ls, r.price) {
      SpliceKeepsLevelsOk(side, ls, k, [Append(ls[k], r)]);
    } else {
      var l := Append(Level(r.price, 0, []), r);
      assert l.orders == [r];
      NewLevelKeepsLevelsOk(side, ls, k, l);
    }
  }

  lemma NewLevelKeepsLevelsOk(side: Side, ls: seq<Level>, k: nat, l: Level)
    requires LevelsOk(side, ls) && LevelOk(l) && k <= |ls|
    requires forall i | 0 <= i < k :: Better(side, ls[i].price, l.price)
    requires forall i | k <= i < |ls| :: Better(side, l.price, ls[i].price)
    ensures LevelsOk(side, Splice(ls, k, [l], k))
  {
    SpliceAt(ls, k, [l], k);
  }

  /** Replacing level `i` by nothing, or by another level at its price. */
  lemma SpliceKeepsLevelsOk(side: Side, ls: seq<Level>, i: nat, r: seq<Level>)
    requires LevelsOk(side, ls) && i < |ls|
    requires r == [] || (|r| == 1 && LevelOk(r[0]) && r[0].price == ls[i].price)
    ensures LevelsOk(side, Splice(ls, i, r, i + 1))
  {
    SpliceAt(ls, i, r, i + 1);
  }

  /** Resting in a level is inserting in the priority sequence. */
  lemma {:induction false} RestAtIsInsert(side: Side, ls: seq<Level>, r: Rest)
    requires LevelsOk(side, ls)
    ensures Flat(RestAt(side, ls, r)) == Insert(side, r, Flat(ls))
  {
    if ls == [] {
      RestAtFront(side, ls, r);
    } else {
      var l, rest := ls[0], ls[1..];
      if Better(side, l.price, r.price) {
        RestAtIsInsert(side, rest, r);
        RestAtSkips(side, ls, r);
        InsertSkips(side, r, l.orders, Flat(rest));
      } else if l.price == r.price {
        RestAtFirst(side, ls, r);
        LaterLevelsAreWorse(side, ls, r.price);
        InsertAfter(side, r, l.orders, Flat(rest));
      } else {
        RestAtFront(side, ls, r);
        assert Flat(ls)[0] == l.orders[0];
      }
    }
  }

  lemma RestAtFront(side: Side, ls: seq<Level>, r: Rest)
    requires ls == [] || Better(side, r.price, ls[0].price)
    ensures RestAt(side, ls, r) == [Append(Level(r.price, 0, []), r)] + ls
  {
  }

  lemma {:induction false} RestAtFirst(side: Side, ls: seq<Level>, r: Rest)
    requires ls != [] && ls[0].price == r.price
    ensures RestAt(side, ls, r) == [Append(ls[0], r)] + ls[1..]
    ensures HasLevel(side, ls, r.price) && LowerBound(side, ls, r.price) == 0
  {
  }

  lemma {:induction false} RestAtSkips(side: Side, ls: seq<Level>, r: Rest)
    requires ls != [] && Better(side, ls[0].price, r.price)
    ensures HasLevel(side, ls, r.price) == HasLevel(side, ls[1..], r.price)
    ensures LowerBound(side, ls, r.price) == 1 + LowerBound(side, ls[1..], r.price)
    ensures RestAt(side, ls, r) == [ls[0]] + RestAt(side, ls[1..], r)
    ensures RestAt(side, ls, r)[1..] == RestAt(side, ls[1..], r)
  {
    var k := LowerBound(side, ls[1..], r.price);
    assert LowerBound(side, ls, r.price) == k + 1;
    if HasLevel(side, ls, r.price) {
      SpliceCons(ls, k + 1, [Append(ls[k+1], r)], k + 2);
    } else {
      SpliceCons(ls, k + 1, [Append(Level(r.price, 0, []), r)], k + 1);
    }
  }

  lemma {:induction false} InsertSkips(side: Side, r: Rest, a: seq<Rest>, b: seq<Rest>)
    requires forall i | 0 <= i < |a| :: !Better(side, r.price, a[i].price)
    ensures Insert(side, r, a + b) == a + Insert(side, r, b)
  {
    if a == [] {
      assert a + b == b && a + Insert(side, r, b) == Insert(side, r, b);
    } else {
      InsertSkips(side, r, a[1..], b);
      assert (a + b)[1..] == a[1..] + b;
      InsertCons(side, r, a + b);
      assert [a[0]] + (a[1..] + Insert(side, r, b)) == a + Insert(side, r, b);
    }
  }

  lemma InsertAfter(side: Side, r: Rest, a: seq<Rest>, b: seq<Rest>)
    requires forall i | 0 <= i < |a| :: !Better(side, r.price, a[i].price)
    requires b != [] ==> Better(side, r.price, b[0].price)
    ensures Insert(side, r, a + b) == (a + [r]) + b
  {
    InsertSkips(side, r, a, b);
    assert Slot(side, r.price, b) == 0;
    assert Insert(side, r, b) == [r] + b;
    assert a + ([r] + b) == (a + [r]) + b;
  }

  lemma LaterLevelsAreWorse(side: Side, ls: seq<Level>, p: u64)
    requires LevelsOk(side, ls) && ls != [] && ls[0].price == p
    ensures Flat(ls[1..]) != [] ==> Better(side, p, Flat(ls[1..])[0].price)
  {
    if ls[1..] != [] {
      assert Flat(ls[1..])[0] == ls[1].orders[0];
    }
  }

  // ---------------------------------------------------------------------------------------------
  // Cancelling
  // ---------------------------------------------------------------------------------------------

  /** The level that holds `id`, |ls| when none does. */
  function Holder(ls: seq<Level>, id: u64): (i: nat)
    ensures i <= |ls|
    ensures i < |ls| ==> Has(ls[i].orders, id)
    ensures forall j | 0 <= j < i :: !Has(ls[j].orders, id)
  {
    if ls == [] || Has(ls[0].orders, id) then 0 else 1 + Holder(ls[1..], id)
  }

  /** Unlink order `k` of level `i`, and drop the level if that empties it. */
  function UnlinkAt(ls: seq<Level>, i: nat, k: nat): seq<Level>
    requires i < |ls| && k < |ls[i].orders|
  {
    var l := Unlink(ls[i], k);
    Splice(ls, i, if l.orders == [] then [] else [l], i + 1)
  }

  function CancelIn(ls: seq<Level>, id: u64): seq<Level> {
    var i := Holder(ls, id);
    if i < |ls| then UnlinkAt(ls, i, Find(id, ls[i].orders)) else ls
  }

  lemma CancelInKeepsLevelsOk(side: Side, ls: seq<Level>, id: u64)
    requires LevelsOk(side, ls)
    ensures LevelsOk(side, CancelIn(ls, id)) && |CancelIn(ls, id)| <= |ls|
  {
    var i := Holder(ls, id);
    if i < |ls| {
      var k := Find(id, ls[i].orders);
      var l := Unlink(ls[i], k);
      UnlinkKeepsPrices(ls[i], k);
      SpliceKeepsLevelsOk(side, ls, i, if l.orders == [] then [] else [l]);
    }
  }

  lemma UnlinkKeepsPrices(l: Level, k: nat)
    requires LevelOk(l) && k < |l.orders|
    ensures Unlink(l, k).orders != [] ==> LevelOk(Unlink(l, k))
  {
    SpliceAt(l.orders, k, [], k + 1);
  }

  lemma {:induction false} RemoveSkips(id: u64, a: seq<Rest>, b: seq<Rest>)
    requires !Has(a, id)
    ensures Remove(id, a + b) == a + Remove(id, b)
  {
    if a == [] {
      assert a + b == b && a + Remove(id, b) == Remove(id, b);
    } else {
      TailLacks(a, id);
      RemoveSkips(id, a[1..], b);
      var ab := a + b;
      assert ab[0] == a[0] && ab[1..] == a[1..] + b;
      RemoveCons(id, ab);
      ConcatIsAssociative([a[0]], a[1..], Remove(id, b));
      assert [a[0]] + a[1..] == a;
    }
  }

  lemma {:induction false} RemoveStops(id: u64, a: seq<Rest>, b: seq<Rest>)
    requires Has(a, id)
    ensures Remove(id, a + b) == Remove(id, a) + b
  {
    var ab := a + b;
    assert ab[0] == a[0] && ab[1..] == a[1..] + b;
    if a[0].id == id {
      RemoveHead(id, a);
      RemoveHead(id, ab);
    } else {
      var i :| 0 <= i < |a| && a[i].id == id;
      assert a[1..][i-1].id == id;
      RemoveStops(id, a[1..], b);
      RemoveCons(id, ab);
      RemoveCons(id, a);
      ConcatIsAssociative([a[0]], Remove(id, a[1..]), b);
    }
  }

  lemma ConcatIsAssociative<T>(a: seq<T>, b: seq<T>, c: seq<T>)
    ensures (a + b) + c == a + (b + c)
  {
  }

  lemma {:induction false} HeldMeansHas(ls: seq<Level>, id: u64)
    ensures Has(Flat(ls), id) <==> Holder(ls, id) < |ls|
  {
    if ls != [] {
      HeldMeansHas(ls[1..], id);
      HasConcat(ls[0].orders, Flat(ls[1..]), id);
    }
  }

  lemma HasConcat(a: seq<Rest>, b: seq<Rest>, id: u64)
    ensures Has(a + b, id) <==> Has(a, id) || Has(b, id)
  {
    if Has(a, id) {
      var i :| 0 <= i < |a| && a[i].id == id;
      assert (a + b)[i].id == id;
    }
    if Has(b, id) {
      var i :| 0 <= i < |b| && b[i].id == id;
      assert (a + b)[|a| + i].id == id;
    }
  }

  /** Cancelling through the level is removing from the priority sequence. */
  lemma {:induction false} CancelInIsRemove(ls: seq<Level>, id: u64)
    ensures Flat(CancelIn(ls, id)) == Remove(id, Flat(ls))
  {
    if ls == [] {
    } else if Has(ls[0].orders, id) {
      RemoveStops(id, ls[0].orders, Flat(ls[1..]));
      RemoveStops(id, ls[0].orders, []);
      var l := Unlink(ls[0], Find(id, ls[0].orders));
      assert l.orders == Remove(id, ls[0].orders);
      if l.orders == [] {
        assert CancelIn(ls, id) == ls[1..];
      } else {
        assert CancelIn(ls, id)[0] == l && CancelIn(ls, id)[1..] == ls[1..];
      }
    } else {
      CancelInIsRemove(ls[1..], id);
      RemoveSkips(id, ls[0].orders, Flat(ls[1..]));
      CancelInSkips(ls, id);
    }
  }

  lemma {:induction false} CancelInFirst(ls: seq<Level>, id: u64)
    requires ls != [] && Has(ls[0].orders, id)
    ensures Holder(ls, id) == 0
    ensures var l := Unlink(ls[0], Find(id, ls[0].orders));
            CancelIn(ls, id) == (if l.orders == [] then [] else [l]) + ls[1..]
  {
  }

  lemma {:induction false} CancelInSkips(ls: seq<Level>, id: u64)
    requires ls != [] && !Has(ls[0].orders, id)
    ensures Holder(ls, id) == 1 + Holder(ls[1..], id)
    ensures CancelIn(ls, id) == [ls[0]] + CancelIn(ls[1..], id)
  {
    hide Has, UnlinkAt;
    var i := Holder(ls[1..], id);
    if i < |ls[1..]| {
      FindsWhatItHas(id, ls[i+1].orders);
      UnlinkAtCons(ls, i + 1, Find(id, ls[i+1].orders));
    }
  }

  lemma UnlinkAtCons(ls: seq<Level>, i: nat, k: nat)
    requires 0 < i < |ls| && k < |ls[i].orders|
    ensures UnlinkAt(ls, i, k) == [ls[0]] + UnlinkAt(ls[1..], i - 1, k)
  {
    var l := Unlink(ls[i], k);
    SpliceCons(ls, i, if l.orders == [] then [] else [l], i + 1);
  }
}
