/** What the top-of-book queries mean for the orders themselves. */
module TopOfBook {
  import opened MachineWords
  import opened MatchingTypes
  import opened PriorityBook
  import opened FlatBook
  import opened LevelBook
  import opened Engine
  import opened Volumes

  /** All that rests at price `p`. */
  function QtyAt(p: u64, s: seq<Rest>): nat {
    if s == [] then 0 else (if s[0].price == p then s[0].qty else 0) + QtyAt(p, s[1..])
  }

  /** Some order of `s` is priced at `p` and none is priced better: higher among bids, lower among asks. */
  predicate BestPrice(side: Side, p: u64, s: seq<Rest>) {
    && (exists i :: 0 <= i < |s| && s[i].price == p)
    && (forall i | 0 <= i < |s| :: if side == Buy then s[i].price <= p else s[i].price >= p)
  }

  lemma {:induction false} QtyAtConcat(p: u64, a: seq<Rest>, b: seq<Rest>)
    ensures QtyAt(p, a + b) == QtyAt(p, a) + QtyAt(p, b)
  {
    if a == [] {
      assert a + b == b;
    } else {
      QtyAtConcat(p, a[1..], b);
      assert (a + b)[1..] == a[1..] + b;
    }
  }

  lemma {:induction false} AllAtPrice(p: u64, s: seq<Rest>)
    requires forall i | 0 <= i < |s| :: s[i].price == p
    ensures QtyAt(p, s) == RestingQty(s)
  {
    if s != [] {
      AllAtPrice(p, s[1..]);
    }
  }

  lemma {:induction false} NoneAtPrice(p: u64, s: seq<Rest>)
    requires forall i | 0 <= i < |s| :: s[i].price != p
    ensures QtyAt(p, s) == 0
  {
    if s != [] {
      NoneAtPrice(p, s[1..]);
    }
  }

  lemma {:induction false} LaterOrdersAreWorse(side: Side, p: u64, ls: seq<Level>)
    requires forall i | 0 <= i < |ls| :: LevelOk(ls[i]) && Better(side, p, ls[i].price)
    ensures forall i | 0 <= i < |Flat(ls)| :: Better(side, p, Flat(ls)[i].price)
  {
    if ls != [] {
      LaterOrdersAreWorse(side, p, ls[1..]);
      assert LevelOk(ls[0]);
    }
  }

  /** The first level of a side has the best price of all its orders, and its true volume is all that
      rests at that price. */
  lemma {:induction false} FirstLevelIsTop(side: Side, ls: seq<Level>)
    requires LevelsOk(side, ls) && ls != []
    ensures BestPrice(side, ls[0].price, Flat(ls))
    ensures QtyAt(ls[0].price, Flat(ls)) == RestingQty(ls[0].orders)
  {
    var p, own, later := ls[0].price, ls[0].orders, Flat(ls[1..]);
    LaterOrdersAreWorse(side, p, ls[1..]);
    assert Flat(ls)[0] == own[0] && LevelOk(ls[0]);
    AllAtPrice(p, own);
    NoneAtPrice(p, later);
    QtyAtConcat(p, own, later);
  }

  /** What `getBestBid` and `getBestAsk` report: the best price, and the true depth there while the
      cached volumes are exact. */
  predicate IsTop(side: Side, e: State, found: bool, price: u64, qty: u32) {
    var s := e.Flattened().On(side);
    && (found <==> s != [])
    && (found ==> BestPrice(side, price, s) && (Exact(e) ==> qty == QtyAt(price, s)))
  }

  lemma {:induction false} TopIsTop(side: Side, e: State)
    requires Ok(e)
    ensures var ls := e.On(side);
            if ls == [] then IsTop(side, e, false, 0, 0) else IsTop(side, e, true, ls[0].price, ls[0].volume)
  {
    hide BookOk;
    var ls := e.On(side);
    if ls != [] {
      FirstLevelIsTop(side, ls);
    }
  }
}
