/** Price-time-priority matching in its simplest form: each side of the book is one sequence of resting
    orders, best first, and a taker consumes a prefix of the opposite side.  Nothing here knows of price
    levels, pointers or pools. */
module PriorityBook {
  import opened MachineWords
  import opened MatchingTypes

  /** What one taker leaves behind: the opposite side, its own unfilled quantity, and the trades in order. */
  datatype Fill = Fill(rest: seq<Rest>, left: u32, trades: seq<Trade>)

  function Match(t: Taker, q: u32, opp: seq<Rest>): Fill {
    if q == 0 || opp == [] || !Crosses(t, opp[0].price) then
      Fill(opp, q, [])
    else
      var f := Min(q, opp[0].qty);
      var trade := Trade(opp[0].id, t.id, opp[0].price, f);
      if f == opp[0].qty then
        var r := Match(t, q - f, opp[1..]);
        r.(trades := [trade] + r.trades)
      else
        Fill([opp[0].(qty := opp[0].qty - f)] + opp[1..], 0, [trade])
  }

  /** Orders are in priority order: no later order has a better price. */
  predicate Sorted(side: Side, s: seq<Rest>) {
    forall i, j | 0 <= i < j < |s| :: !Better(side, s[j].price, s[i].price)
  }

  predicate UniqueIds(s: seq<Rest>) {
    forall i, j | 0 <= i < j < |s| :: s[i].id != s[j].id
  }

  predicate Positive(s: seq<Rest>) {
    forall i | 0 <= i < |s| :: s[i].qty > 0
  }

  predicate Has(s: seq<Rest>, id: u64) {
    exists i :: 0 <= i < |s| && s[i].id == id
  }

  /** How much of a side a taker would accept, wherever in the sequence it sits. */
  function EligibleQty(t: Taker, s: seq<Rest>): nat {
    if s == [] then 0 else (if Crosses(t, s[0].price) then s[0].qty else 0) + EligibleQty(t, s[1..])
  }

  // ---------------------------------------------------------------------------------------------
  // What one match does
  // ---------------------------------------------------------------------------------------------

  /** `trade` is a positive fill of the resting order `r`; a partial one only if `lastAndDone`. */
  predicate Hits(t: Taker, trade: Trade, r: Rest, lastAndDone: bool) {
    && trade.maker == r.id && trade.taker == t.id && trade.price == r.price && Crosses(t, r.price)
    && 0 < trade.qty <= r.qty
    && (trade.qty < r.qty ==> lastAndDone)
  }

  /** `opp` after its first |trades| orders took part in `trades`. */
  function CutPrefix(trades: seq<Trade>, opp: seq<Rest>): seq<Rest>
    requires |trades| <= |opp|
    requires trades != [] ==> trades[|trades|-1].qty <= opp[|trades|-1].qty
  {
    var n := |trades|;
    if n > 0 && trades[n-1].qty < opp[n-1].qty
    then [opp[n-1].(qty := opp[n-1].qty - trades[n-1].qty)] + opp[n..]
    else opp[n..]
  }

  /** `m` uses up a prefix of `opp`: its makers are exactly the first |trades| orders, in order, each filled
      to zero except possibly the last; what remains is that prefix cut off; and the taker stops only when
      it is done or nothing acceptable is left. */
  predicate ConsumesPrefix(t: Taker, opp: seq<Rest>, m: Fill) {
    && |m.trades| <= |opp|
    && (forall i | 0 <= i < |m.trades| ::
          Hits(t, m.trades[i], opp[i], i == |m.trades| - 1 && m.left == 0))
    && m.rest == CutPrefix(m.trades, opp)
    && (m.left > 0 && m.rest != [] ==> !Crosses(t, m.rest[0].price))
  }

  lemma {:induction false} MatchConsumesAPrefix(t: Taker, q: u32, opp: seq<Rest>)
    requires Positive(opp)
    ensures ConsumesPrefix(t, opp, Match(t, q, opp))
  {
    if q == 0 || opp == [] || !Crosses(t, opp[0].price) {
    } else if opp[0].qty <= q {
      HeadIsFilled(t, q, opp);
      MatchConsumesAPrefix(t, q - opp[0].qty, opp[1..]);
      PrefixGrows(t, opp, Match(t, q - opp[0].qty, opp[1..]));
    } else {
      HeadIsCut(t, q, opp);
    }
  }

  lemma {:induction false} HeadIsCut(t: Taker, q: u32, opp: seq<Rest>)
    requires opp != [] && 0 < q < opp[0].qty && Crosses(t, opp[0].price)
    ensures Match(t, q, opp)
            == Fill([opp[0].(qty := opp[0].qty - q)] + opp[1..], 0, [Trade(opp[0].id, t.id, opp[0].price, q)])
    ensures ConsumesPrefix(t, opp, Match(t, q, opp))
  {
    var m := Match(t, q, opp);
    assert m.trades == [Trade(opp[0].id, t.id, opp[0].price, q)];
  }

  lemma PrefixGrows(t: Taker, opp: seq<Rest>, r: Fill)
    requires opp != [] && 0 < opp[0].qty && Crosses(t, opp[0].price)
    requires ConsumesPrefix(t, opp[1..], r)
    ensures ConsumesPrefix(t, opp,
                           r.(trades := [Trade(opp[0].id, t.id, opp[0].price, opp[0].qty)] + r.trades))
  {
    var trades := [Trade(opp[0].id, t.id, opp[0].price, opp[0].qty)] + r.trades;
    forall i | 0 <= i < |trades|
      ensures Hits(t, trades[i], opp[i], i == |trades| - 1 && r.left == 0)
    {
      if i > 0 {
        assert trades[i] == r.trades[i-1] && opp[i] == opp[1..][i-1];
      }
    }
    assert opp[1..][|r.trades|..] == opp[|trades|..];
  }

  /** Nothing is created or lost: the taker's quantity and the side's quantity both split into traded and left. */
  lemma {:induction false} MatchConserves(t: Taker, q: u32, opp: seq<Rest>)
    ensures var m := Match(t, q, opp);
            m.left + Volume(m.trades) == q && RestingQty(m.rest) + Volume(m.trades) == RestingQty(opp)
  {
    if q == 0 || opp == [] || !Crosses(t, opp[0].price) {
    } else {
      var f := Min(q, opp[0].qty);
      var trade := Trade(opp[0].id, t.id, opp[0].price, f);
      if f == opp[0].qty {
        MatchConserves(t, q - f, opp[1..]);
        VolumeOfConcat([trade], Match(t, q - f, opp[1..]).trades);
      } else {
        assert ([opp[0].(qty := opp[0].qty - f)] + opp[1..])[1..] == opp[1..];
      }
      assert Volume([trade]) == f;
    }
  }

  lemma {:induction false} NothingEligible(t: Taker, s: seq<Rest>)
    requires forall i | 0 <= i < |s| :: !Crosses(t, s[i].price)
    ensures EligibleQty(t, s) == 0
  {
    if s != [] {
      NothingEligible(t, s[1..]);
    }
  }

  /** The fill is maximal: it is the smaller of what the taker wants and everything it would accept. */
  lemma {:induction false} MatchIsMaximal(t: Taker, q: u32, opp: seq<Rest>)
    requires Sorted(t.side.Opposite(), opp)
    ensures var e := EligibleQty(t, opp);
            Volume(Match(t, q, opp).trades) == if q < e then q else e
  {
    if q == 0 || opp == [] {
    } else if !Crosses(t, opp[0].price) {
      NothingEligible(t, opp);
    } else {
      var f := Min(q, opp[0].qty);
      var trade := Trade(opp[0].id, t.id, opp[0].price, f);
      assert Volume([trade]) == f;
      if f == opp[0].qty {
        MatchIsMaximal(t, q - f, opp[1..]);
        VolumeOfConcat([trade], Match(t, q - f, opp[1..]).trades);
      }
    }
  }

  /** What rests on the side opposite to `side` at a price no worse than `limit`. */
  function QtyWithin(side: Side, limit: u64, s: seq<Rest>): nat {
    if s == [] then 0
    else (if (if side.Buy? then s[0].price <= limit else s[0].price >= limit) then s[0].qty else 0)
         + QtyWithin(side, limit, s[1..])
  }

  lemma {:induction false} LimitDecidesEligible(t: Taker, s: seq<Rest>)
    requires t.kind == Limit
    ensures EligibleQty(t, s) == QtyWithin(t.side, t.price, s)
  {
    if s != [] {
      LimitDecidesEligible(t, s[1..]);
    }
  }

  lemma {:induction false} AllIsEligible(t: Taker, s: seq<Rest>)
    requires t.kind != Limit
    ensures EligibleQty(t, s) == RestingQty(s)
  {
    if s != [] {
      AllIsEligible(t, s[1..]);
    }
  }

  /** A limit order never trades above, as a buy, or below, as a sell, its limit. */
  lemma {:induction false} MatchKeepsLimit(t: Taker, q: u32, opp: seq<Rest>)
    requires t.kind == Limit && Positive(opp)
    ensures forall i | 0 <= i < |Match(t, q, opp).trades| ::
              if t.side == Buy then Match(t, q, opp).trades[i].price <= t.price
              else Match(t, q, opp).trades[i].price >= t.price
  {
    MatchConsumesAPrefix(t, q, opp);
    hide Match;
    var trades := Match(t, q, opp).trades;
    forall i | 0 <= i < |trades|
      ensures if t.side == Buy then trades[i].price <= t.price else trades[i].price >= t.price
    {
      assert Hits(t, trades[i], opp[i], i == |trades| - 1 && Match(t, q, opp).left == 0);
    }
  }

  /** What `maker` sold or bought in a list of trades. */
  function FilledBy(maker: u64, trades: seq<Trade>): nat {
    if trades == [] then 0
    else (if trades[0].maker == maker then trades[0].qty else 0) + FilledBy(maker, trades[1..])
  }

  /** A taker for `a + b` does to the opposite side, and to each maker, what takers for `a` and `b` do. */
  ghost predicate SplitsAt(t: Taker, a: u32, b: u32, opp: seq<Rest>)
    requires a + b < U32
  {
    var whole := Match(t, a + b, opp);
    var first := Match(t, a, opp);
    var second := Match(t, b, first.rest);
    && whole.rest == second.rest
    && whole.left == first.left + second.left
    && forall maker :: FilledBy(maker, whole.trades)
                       == FilledBy(maker, first.trades) + FilledBy(maker, second.trades)
  }

  /** Splitting a taker in two changes neither the opposite side nor what any maker is filled for. */
  lemma {:induction false} MatchSplits(t: Taker, a: u32, b: u32, opp: seq<Rest>)
    requires a + b < U32 && Positive(opp)
    ensures SplitsAt(t, a, b, opp)
  {
    if a == 0 || opp == [] || !Crosses(t, opp[0].price) {
    } else {
      if opp[0].qty <= a {
        MatchSplits(t, a - opp[0].qty, b, opp[1..]);
        TailSplits(t, a, b, opp);
      } else {
        HeadSplits(t, a, b, opp);
      }
    }
  }

  lemma TailSplits(t: Taker, a: u32, b: u32, opp: seq<Rest>)
    requires a + b < U32 && opp != [] && 0 < opp[0].qty <= a && Crosses(t, opp[0].price)
    requires SplitsAt(t, a - opp[0].qty, b, opp[1..])
    ensures SplitsAt(t, a, b, opp)
  {
    HeadIsFilled(t, a + b, opp);
    HeadIsFilled(t, a, opp);
    assert a + b - opp[0].qty == (a - opp[0].qty) + b;
  }

  lemma HeadSplits(t: Taker, a: u32, b: u32, opp: seq<Rest>)
    requires a + b < U32 && opp != [] && 0 < a < opp[0].qty && Crosses(t, opp[0].price)
    ensures SplitsAt(t, a, b, opp)
  {
    HeadIsCut(t, a, opp);
    var head, cut := opp[0], Match(t, a, opp).rest;
    assert cut[1..] == opp[1..];
    if b == 0 {
    } else if head.qty <= a + b {
      HeadIsFilled(t, a + b, opp);
      HeadIsFilled(t, b, cut);
    } else {
      HeadIsCut(t, a + b, opp);
      HeadIsCut(t, b, cut);
    }
  }

  lemma HeadIsFilled(t: Taker, q: u32, opp: seq<Rest>)
    requires opp != [] && 0 < opp[0].qty <= q && Crosses(t, opp[0].price)
    ensures var m := Match(t, q, opp); var r := Match(t, q - opp[0].qty, opp[1..]);
            && m == r.(trades := [Trade(opp[0].id, t.id, opp[0].price, opp[0].qty)] + r.trades)
            && forall maker :: FilledBy(maker, m.trades)
                  == (if maker == opp[0].id then opp[0].qty else 0) + FilledBy(maker, r.trades)
  {
    var m := Match(t, q, opp);
    assert m.trades[1..] == Match(t, q - opp[0].qty, opp[1..]).trades;
  }
}
