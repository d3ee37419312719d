/** Laws of the two operations: priority, conservation, undo and the price mirror. */
module BookLaws {
  import opened MachineWords
  import opened MatchingTypes
  import opened PriorityBook
  import opened FlatBook

  // ---------------------------------------------------------------------------------------------
  // Price-time priority
  // ---------------------------------------------------------------------------------------------

  /** Order `a` comes before order `b` in the priority sequence `s`. */
  ghost predicate Ahead(s: seq<Rest>, a: u64, b: u64) {
    exists i, j :: 0 <= i < j < |s| && s[i].id == a && s[j].id == b
  }

  predicate NamesMaker(trades: seq<Trade>, id: u64) {
    exists n :: 0 <= n < |trades| && trades[n].maker == id
  }

  lemma TailKeepsAhead(s': seq<Rest>, s: seq<Rest>, a: u64, b: u64)
    requires TailOf(s', s) && UniqueIds(s) && Ahead(s, a, b) && Has(s', a)
    ensures Ahead(s', a, b)
  {
    var d := |s| - |s'|;
    var i, j :| 0 <= i < j < |s| && s[i].id == a && s[j].id == b;
    var i' :| 0 <= i' < |s'| && s'[i'].id == a;
    assert s[i' + d].id == a;
    assert s'[j - d].id == b;
  }

  /** Position `j` is a maker only if everything before it is gone. */
  lemma {:induction false} EarlierMakersAreGone(t: Taker, q: u32, opp: seq<Rest>, i: nat, j: nat)
    requires Positive(opp) && UniqueIds(opp) && i < j < |opp|
    requires NamesMaker(Match(t, q, opp).trades, opp[j].id)
    ensures !Has(Match(t, q, opp).rest, opp[i].id)
  {
    hide Match;
    MatchConsumesAPrefix(t, q, opp);
    MatchLeavesATail(t, q, opp);
    var m := Match(t, q, opp);
    var n :| 0 <= n < |m.trades| && m.trades[n].maker == opp[j].id;
    assert Hits(t, m.trades[n], opp[n], n == |m.trades| - 1 && m.left == 0);
    assert n == j;
    var d := |opp| - |m.rest|;
    forall k | 0 <= k < |m.rest|
      ensures m.rest[k].id != opp[i].id
    {
      assert m.rest[k].id == opp[k + d].id;
    }
  }

  lemma {:induction false} MatchKeepsPriority(t: Taker, q: u32, opp: seq<Rest>, a: u64, b: u64)
    requires Positive(opp) && UniqueIds(opp) && Ahead(opp, a, b)
    requires Has(Match(t, q, opp).rest, a)
    ensures Ahead(Match(t, q, opp).rest, a, b)
    ensures !NamesMaker(Match(t, q, opp).trades, b)
  {
    var i, j :| 0 <= i < j < |opp| && opp[i].id == a && opp[j].id == b;
    if NamesMaker(Match(t, q, opp).trades, b) {
      EarlierMakersAreGone(t, q, opp, i, j);
      assert false;
    }
    MatchLeavesATail(t, q, opp);
    TailKeepsAhead(Match(t, q, opp).rest, opp, a, b);
  }

  lemma InsertKeepsAhead(side: Side, r: Rest, s: seq<Rest>, a: u64, b: u64)
    requires Ahead(s, a, b)
    ensures Ahead(Insert(side, r, s), a, b)
  {
    var k := Slot(side, r.price, s);
    var s' := Insert(side, r, s);
    SpliceAt(s, k, [r], k);
    var i, j :| 0 <= i < j < |s| && s[i].id == a && s[j].id == b;
    var i', j' := if i < k then i else i + 1, if j < k then j else j + 1;
    assert s'[i'] == s[i] && s'[j'] == s[j];
  }

  lemma RemoveKeepsAhead(id: u64, s: seq<Rest>, a: u64, b: u64)
    requires Ahead(s, a, b) && id != a && id != b
    ensures Ahead(Remove(id, s), a, b)
  {
    var k := Find(id, s);
    var s' := Remove(id, s);
    if k < |s| {
      var i, j :| 0 <= i < j < |s| && s[i].id == a && s[j].id == b;
      var i', j' := if i < k then i else i - 1, if j < k then j else j - 1;
      assert s'[i'] == s[i] && s'[j'] == s[j];
    }
  }

  lemma {:induction false} MakersComeFrom(t: Taker, q: u32, opp: seq<Rest>, id: u64)
    requires Positive(opp) && NamesMaker(Match(t, q, opp).trades, id)
    ensures Has(opp, id)
  {
    MatchConsumesAPrefix(t, q, opp);
  }

  /** One submission never trades with an order while another that is ahead of it stays in the book. */
  lemma SubmitKeepsPriority(b: Book, t: Taker, qty: u32, side: Side, x: u64, y: u64)
    requires BookOk(b) && Ahead(b.On(side), x, y)
    requires Live(Submit(b, t, qty).0, x)
    ensures !NamesMaker(Submit(b, t, qty).1, y)
    ensures Ahead(Submit(b, t, qty).0.On(side), x, y)
  {
    if !(qty == 0 || Live(b, t.id)) {
      var own, opp := b.On(t.side), b.On(t.side.Opposite());
      var m := Match(t, qty, opp);
      assert Has(b.On(side), x) && Has(b.On(side), y);
      MatchLeavesATail(t, qty, opp);
      if side == t.side {
        if m.left > 0 && t.kind.Limit? {
          InsertKeepsAhead(side, Rest(t.id, t.price, m.left), own, x, y);
        }
        if NamesMaker(m.trades, y) {
          MakersComeFrom(t, qty, opp, y);
          assert false;
        }
      } else {
        SurvivorStaysOnItsSide(b, t, qty, x);
        MatchKeepsPriority(t, qty, opp, x, y);
      }
    }
  }

  /** An opposite order that is live after the call is still among the opposite orders. */
  lemma {:induction false} SurvivorStaysOnItsSide(b: Book, t: Taker, qty: u32, x: u64)
    requires BookOk(b) && qty > 0 && !Live(b, t.id)
    requires Has(b.On(t.side.Opposite()), x) && Live(Submit(b, t, qty).0, x)
    ensures Has(Match(t, qty, b.On(t.side.Opposite())).rest, x)
  {
    var own, opp := b.On(t.side), b.On(t.side.Opposite());
    var m := Match(t, qty, opp);
    assert !Has(own, x);
    assert x != t.id;
    if m.left > 0 && t.kind.Limit? {
      var r := Rest(t.id, t.price, m.left);
      var k := Slot(t.side, t.price, own);
      var own' := Insert(t.side, r, own);
      SpliceAt(own, k, [r], k);
      assert !Has(own', x);
    }
  }

  /** An order comes to rest behind every order on its side that is priced at least as well. */
  lemma NewcomerIsBehind(b: Book, t: Taker, qty: u32, i: nat)
    requires BookOk(b) && qty > 0 && !Live(b, t.id)
    requires i < |b.On(t.side)| && !Better(t.side, t.price, b.On(t.side)[i].price)
    requires Has(Submit(b, t, qty).0.On(t.side), t.id)
    ensures Ahead(Submit(b, t, qty).0.On(t.side), b.On(t.side)[i].id, t.id)
  {
    var own := b.On(t.side);
    var m := Match(t, qty, b.On(t.side.Opposite()));
    if m.left > 0 && t.kind.Limit? {
      var k := Slot(t.side, t.price, own);
      var own' := Insert(t.side, Rest(t.id, t.price, m.left), own);
      assert k < i ==> !Better(t.side, own[i].price, own[k].price);
      assert own'[i] == own[i] && own'[k].id == t.id;
    }
  }

  /** Among orders on one side, a strictly better price is ahead whatever the arrival. */
  lemma BetterPriceIsAhead(side: Side, s: seq<Rest>, i: nat, j: nat)
    requires Sorted(side, s) && i < |s| && j < |s| && Better(side, s[i].price, s[j].price)
    ensures Ahead(s, s[i].id, s[j].id)
  {
    assert i < j;
  }

  // ---------------------------------------------------------------------------------------------
  // The trades of one call
  // ---------------------------------------------------------------------------------------------

  /** Every trade of a call has a positive quantity and a maker of its own, different from the taker;
      there are no more trades than orders on the other side; and of the makers only the last may
      survive, and only if the taker is done. */
  lemma TradesAreFills(b: Book, t: Taker, qty: u32)
    requires BookOk(b) && qty > 0 && !Live(b, t.id)
    ensures var (b', trades) := Submit(b, t, qty);
            var opp := b.On(t.side.Opposite());
            && |trades| <= |opp|
            && (forall i | 0 <= i < |trades| ::
                  trades[i].qty > 0 && trades[i].taker == t.id && trades[i].maker == opp[i].id != t.id)
            && (forall i, j | 0 <= i < j < |trades| :: trades[i].maker != trades[j].maker)
            && (forall i | 0 <= i < |trades| && Has(b'.On(t.side.Opposite()), trades[i].maker) ::
                  i == |trades| - 1 && Volume(trades) == qty)
  {
    var opp := b.On(t.side.Opposite());
    var m := Match(t, qty, opp);
    MatchConsumesAPrefix(t, qty, opp);
    MatchConserves(t, qty, opp);
    forall i | 0 <= i < |m.trades|
      ensures Hits(t, m.trades[i], opp[i], i == |m.trades| - 1 && m.left == 0) && opp[i].id != t.id
    {}
    forall i | 0 <= i < |m.trades| && Has(m.rest, m.trades[i].maker)
      ensures i == |m.trades| - 1 && m.left == 0
    {
      OnlyTheLastSurvives(t, opp, m, i);
    }
  }

  lemma OnlyTheLastSurvives(t: Taker, opp: seq<Rest>, m: Fill, i: nat)
    requires ConsumesPrefix(t, opp, m) && UniqueIds(opp) && i < |m.trades| && Has(m.rest, m.trades[i].maker)
    ensures i == |m.trades| - 1 && m.left == 0
  {
    var n := |m.trades|;
    assert Hits(t, m.trades[i], opp[i], i == n - 1 && m.left == 0);
    var k :| 0 <= k < |m.rest| && m.rest[k].id == opp[i].id;
    assert Hits(t, m.trades[n-1], opp[n-1], m.left == 0);
    assert m.rest[k].id == opp[if m.trades[n-1].qty < opp[n-1].qty then n - 1 + k else n + k].id;
  }

  /** No trade of a limit order is worse than its limit. */
  lemma {:induction false} SubmitKeepsLimit(b: Book, t: Taker, qty: u32)
    requires BookOk(b) && t.kind == Limit
    ensures var trades := Submit(b, t, qty).1;
            forall i | 0 <= i < |trades| ::
              if t.side == Buy then trades[i].price <= t.price else trades[i].price >= t.price
  {
    MatchKeepsLimit(t, qty, b.On(t.side.Opposite()));
  }

  /** A limit order fills the smaller of what it wants and what rests within its limit. */
  lemma {:induction false} LimitFillsAllWithin(b: Book, t: Taker, qty: u32)
    requires BookOk(b) && qty > 0 && !Live(b, t.id) && t.kind == Limit
    ensures var within := QtyWithin(t.side, t.price, b.On(t.side.Opposite()));
            Volume(Submit(b, t, qty).1) == if qty < within then qty else within
  {
    var opp := b.On(t.side.Opposite());
    LimitDecidesEligible(t, opp);
    MatchIsMaximal(t, qty, opp);
  }

  /** Any other order fills the smaller of what it wants and all that rests, whatever its price. */
  lemma {:induction false} MarketFillsAll(b: Book, t: Taker, qty: u32)
    requires BookOk(b) && qty > 0 && !Live(b, t.id) && t.kind != Limit
    ensures var all := RestingQty(b.On(t.side.Opposite()));
            Volume(Submit(b, t, qty).1) == if qty < all then qty else all
  {
    var opp := b.On(t.side.Opposite());
    AllIsEligible(t, opp);
    MatchIsMaximal(t, qty, opp);
  }

  /** A fresh order ends up in the book exactly when it is a limit order that wants more than rests within
      its limit, and then with just the difference at its own price; the rest of its side is as it was. */
  lemma {:induction false} RestsWithTheDifference(b: Book, t: Taker, qty: u32)
    requires BookOk(b) && qty > 0 && !Live(b, t.id)
    ensures var within := QtyWithin(t.side, t.price, b.On(t.side.Opposite()));
            var b' := Submit(b, t, qty).0;
            && Remove(t.id, b'.On(t.side)) == b.On(t.side)
            && (Live(b', t.id) <==> t.kind == Limit && qty > within)
            && (t.kind == Limit && qty > within ==> Rest(t.id, t.price, qty - within) in b'.On(t.side))
  {
    var own, opp := b.On(t.side), b.On(t.side.Opposite());
    var m := Match(t, qty, opp);
    MatchConserves(t, qty, opp);
    NoNewId(t, qty, opp);
    RemoveDrops(t.id, own);
    hide Match, Insert, Remove, QtyWithin, Volume, RestingQty;
    if t.kind == Limit {
      LimitDecides(t, qty, opp);
      if m.left > 0 {
        var r := Rest(t.id, t.price, m.left);
        RemoveUndoesInsert(t.side, r, own);
        InsertHolds(t.side, r, own);
      }
    }
  }

  lemma InsertHolds(side: Side, r: Rest, s: seq<Rest>)
    ensures r in Insert(side, r, s) && Has(Insert(side, r, s), r.id)
  {
    var k := Slot(side, r.price, s);
    SpliceAt(s, k, [r], k);
    assert Insert(side, r, s)[k] == r;
  }

  lemma {:induction false} LimitDecides(t: Taker, qty: u32, opp: seq<Rest>)
    requires Sorted(t.side.Opposite(), opp) && t.kind == Limit
    ensures var within := QtyWithin(t.side, t.price, opp);
            Volume(Match(t, qty, opp).trades) == if qty < within then qty else within
  {
    LimitDecidesEligible(t, opp);
    MatchIsMaximal(t, qty, opp);
  }

  lemma {:induction false} NoNewId(t: Taker, qty: u32, opp: seq<Rest>)
    requires Positive(opp) && !Has(opp, t.id)
    ensures !Has(Match(t, qty, opp).rest, t.id)
  {
    var rest := Match(t, qty, opp).rest;
    MatchLeavesATail(t, qty, opp);
    forall i | 0 <= i < |rest| ensures rest[i].id != t.id {
      assert rest[i].id == opp[i + |opp| - |rest|].id;
    }
  }

  /** A cancel takes out the one order of that id, and nothing if there is none. */
  lemma {:induction false} WithdrawTakesJustOne(b: Book, id: u64, side: Side)
    ensures var s, s' := b.On(side), Withdraw(b, id).On(side);
            && ((forall i | 0 <= i < |s| :: s[i].id != id) ==> s' == s)
            && (forall k | 0 <= k < |s| && s[k].id == id && (forall i | 0 <= i < k :: s[i].id != id) ::
                  s' == s[..k] + s[k + 1..])
  {
    var s := b.On(side);
    RemoveDrops(id, s);
    forall k | 0 <= k < |s| && s[k].id == id && (forall i | 0 <= i < k :: s[i].id != id)
      ensures Withdraw(b, id).On(side) == s[..k] + s[k + 1..]
    {
      assert Find(id, s) == k;
      assert s[..k] + [] == s[..k];
    }
  }

  // ---------------------------------------------------------------------------------------------
  // Conservation
  // ---------------------------------------------------------------------------------------------

  function TotalResting(b: Book): nat {
    RestingQty(b.bids) + RestingQty(b.asks)
  }

  lemma {:induction false} InsertAddsQty(side: Side, r: Rest, s: seq<Rest>)
    ensures RestingQty(Insert(side, r, s)) == RestingQty(s) + r.qty
  {
    var k := Slot(side, r.price, s);
    assert s == s[..k] + s[k..];
    RestingQtyOfConcat(s[..k], s[k..]);
    RestingQtyOfConcat(s[..k] + [r], s[k..]);
    RestingQtyOfConcat(s[..k], [r]);
  }

  /** The remaining quantity of `id`, 0 when it is not in `s`. */
  function QtyOf(id: u64, s: seq<Rest>): u32 {
    var k := Find(id, s);
    if k < |s| then s[k].qty else 0
  }

  lemma CutTakesQty(s: seq<Rest>, k: nat)
    requires k < |s|
    ensures RestingQty(s) == RestingQty(Splice(s, k, [], k + 1)) + s[k].qty
  {
    assert s == (s[..k] + [s[k]]) + s[k+1..];
    assert Splice(s, k, [], k + 1) == s[..k] + s[k+1..];
    RestingQtyOfConcat(s[..k] + [s[k]], s[k+1..]);
    RestingQtyOfConcat(s[..k], [s[k]]);
    RestingQtyOfConcat(s[..k], s[k+1..]);
  }

  lemma {:induction false} RemoveTakesQty(id: u64, s: seq<Rest>)
    ensures RestingQty(s) == RestingQty(Remove(id, s)) + QtyOf(id, s)
  {
    var k := Find(id, s);
    if k < |s| {
      CutTakesQty(s, k);
    }
  }

  /** What of a fresh order neither traded nor came to rest. */
  function Discarded(b: Book, t: Taker, qty: u32): u32 {
    if t.kind.Limit? then 0 else Match(t, qty, b.On(t.side.Opposite())).left
  }

  /** Each traded unit uses one unit of the newcomer and one unit that rested. */
  lemma SubmitConserves(b: Book, t: Taker, qty: u32)
    requires qty > 0 && !Live(b, t.id)
    ensures TotalResting(b) + qty
            == TotalResting(Submit(b, t, qty).0) + 2 * Volume(Submit(b, t, qty).1) + Discarded(b, t, qty)
  {
    var own, opp := b.On(t.side), b.On(t.side.Opposite());
    MatchConserves(t, qty, opp);
    var m := Match(t, qty, opp);
    InsertAddsQty(t.side, Rest(t.id, t.price, m.left), own);
  }

  lemma WithdrawConserves(b: Book, id: u64)
    ensures TotalResting(b) == TotalResting(Withdraw(b, id)) + QtyOf(id, b.bids) + QtyOf(id, b.asks)
  {
    RemoveTakesQty(id, b.bids);
    RemoveTakesQty(id, b.asks);
  }

  // ---------------------------------------------------------------------------------------------
  // Undo
  // ---------------------------------------------------------------------------------------------

  lemma InsertFirst(side: Side, r: Rest, s: seq<Rest>)
    requires s == [] || Better(side, r.price, s[0].price)
    ensures Insert(side, r, s) == [r] + s
  {
  }

  lemma {:induction false} RemoveUndoesInsert(side: Side, r: Rest, s: seq<Rest>)
    requires !Has(s, r.id)
    ensures Remove(r.id, Insert(side, r, s)) == s
  {
    hide Insert, Remove, Has;
    if s == [] || Better(side, r.price, s[0].price) {
      InsertFirst(side, r, s);
      RemoveHead(r.id, [r] + s);
    } else {
      InsertCons(side, r, s);
      TailLacks(s, r.id);
      RemoveUndoesInsert(side, r, s[1..]);
      RemoveCons(r.id, Insert(side, r, s));
      assert Insert(side, r, s)[1..] == Insert(side, r, s[1..]);
    }
  }

  /** Withdrawing an order that rested without trading gives the old book back, whatever else is in it. */
  lemma WithdrawUndoesSubmit(b: Book, t: Taker, qty: u32)
    requires BookOk(b) && qty > 0 && !Live(b, t.id) && t.kind.Limit?
    requires Submit(b, t, qty).1 == []
    ensures Withdraw(Submit(b, t, qty).0, t.id) == b
  {
    var own, opp := b.On(t.side), b.On(t.side.Opposite());
    assert !Has(own, t.id) && !Has(opp, t.id);
    assert Match(t, qty, opp) == Fill(opp, qty, []);
    RemoveUndoesInsert(t.side, Rest(t.id, t.price, qty), own);
    RemoveDrops(t.id, opp);
  }

  // ---------------------------------------------------------------------------------------------
  // The price mirror
  // ---------------------------------------------------------------------------------------------

  function Flip(p: u64): u64 {
    U64 - 1 - p
  }

  function FlipRest(s: seq<Rest>): (s': seq<Rest>)
    ensures |s'| == |s|
    ensures forall i | 0 <= i < |s| :: s'[i] == s[i].(price := Flip(s[i].price))
  {
    if s == [] then [] else [s[0].(price := Flip(s[0].price))] + FlipRest(s[1..])
  }

  function FlipTrades(s: seq<Trade>): (s': seq<Trade>)
    ensures |s'| == |s|
    ensures forall i | 0 <= i < |s| :: s'[i] == s[i].(price := Flip(s[i].price))
  {
    if s == [] then [] else [s[0].(price := Flip(s[0].price))] + FlipTrades(s[1..])
  }

  function FlipTaker(t: Taker): Taker {
    t.(side := t.side.Opposite(), price := Flip(t.price))
  }

  /** The same book with buyers and sellers exchanged and the price axis reversed. */
  function FlipBook(b: Book): Book {
    Book(FlipRest(b.asks), FlipRest(b.bids))
  }

  lemma {:induction false} MatchMirrors(t: Taker, q: u32, opp: seq<Rest>)
    requires Positive(opp)
    ensures var m := Match(t, q, opp);
            Match(FlipTaker(t), q, FlipRest(opp)) == Fill(FlipRest(m.rest), m.left, FlipTrades(m.trades))
  {
    if q == 0 || opp == [] || !Crosses(t, opp[0].price) {
    } else {
      assert FlipRest(opp)[1..] == FlipRest(opp[1..]);
      if opp[0].qty <= q {
        MatchMirrors(t, q - opp[0].qty, opp[1..]);
        HeadIsFilled(t, q, opp);
        HeadIsFilled(FlipTaker(t), q, FlipRest(opp));
      } else {
        HeadIsCut(t, q, opp);
        HeadIsCut(FlipTaker(t), q, FlipRest(opp));
      }
    }
  }

  lemma {:induction false} SlotMirrors(side: Side, p: u64, s: seq<Rest>)
    ensures Slot(side.Opposite(), Flip(p), FlipRest(s)) == Slot(side, p, s)
  {
    if s == [] || Better(side, p, s[0].price) {
    } else {
      SlotMirrors(side, p, s[1..]);
      assert FlipRest(s)[1..] == FlipRest(s[1..]);
    }
  }

  lemma SameElements(a: seq<Rest>, b: seq<Rest>)
    requires |a| == |b| && forall i | 0 <= i < |a| :: a[i] == b[i]
    ensures a == b
  {
  }

  lemma {:induction false} InsertMirrors(side: Side, r: Rest, s: seq<Rest>)
    ensures FlipRest(Insert(side, r, s)) == Insert(side.Opposite(), r.(price := Flip(r.price)), FlipRest(s))
  {
    SlotMirrors(side, r.price, s);
    var k := Slot(side, r.price, s);
    var r' := r.(price := Flip(r.price));
    SpliceAt(s, k, [r], k);
    SpliceAt(FlipRest(s), k, [r'], k);
    SameElements(FlipRest(Insert(side, r, s)), Insert(side.Opposite(), r', FlipRest(s)));
  }

  lemma {:induction false} FlipKeepsIds(s: seq<Rest>, id: u64)
    ensures Has(FlipRest(s), id) == Has(s, id)
  {
    if Has(s, id) {
      var i :| 0 <= i < |s| && s[i].id == id;
      assert FlipRest(s)[i].id == id;
    }
  }

  /** Selling is buying in the mirror: one submission commutes with the price mirror. */
  lemma SubmitMirrors(b: Book, t: Taker, qty: u32)
    requires BookOk(b)
    ensures Submit(FlipBook(b), FlipTaker(t), qty)
            == (FlipBook(Submit(b, t, qty).0), FlipTrades(Submit(b, t, qty).1))
  {
    FlipKeepsIds(b.bids, t.id);
    FlipKeepsIds(b.asks, t.id);
    if !(qty == 0 || Live(b, t.id)) {
      var own, opp := b.On(t.side), b.On(t.side.Opposite());
      MatchMirrors(t, qty, opp);
      var m := Match(t, qty, opp);
      if m.left > 0 && t.kind.Limit? {
        InsertMirrors(t.side, Rest(t.id, t.price, m.left), own);
      }
    }
  }
}
