/** The whole book as two priority sequences, and the two operations on it. */
module FlatBook {
  import opened MachineWords
  import opened MatchingTypes
  import opened PriorityBook

  datatype Book = Book(bids: seq<Rest>, asks: seq<Rest>) {
    function On(side: Side): seq<Rest> {
      if side.Buy? then bids else asks
    }

    /** The book seen from `side`: its own orders and the opposite ones. */
    static function From(side: Side, own: seq<Rest>, opp: seq<Rest>): Book {
      if side.Buy? then Book(own, opp) else Book(opp, own)
    }
  }

  /** Where an order priced `p` goes: behind every order whose price is at least as good. */
  function Slot(side: Side, p: u64, s: seq<Rest>): (k: nat)
    ensures k <= |s|
    ensures forall i | 0 <= i < k :: !Better(side, p, s[i].price)
    ensures k < |s| ==> Better(side, p, s[k].price)
  {
    if s == [] || Better(side, p, s[0].price) then 0 else 1 + Slot(side, p, s[1..])
  }

  function Insert(side: Side, r: Rest, s: seq<Rest>): seq<Rest> {
    var k := Slot(side, r.price, s);
    Splice(s, k, [r], k)
  }

  function Find(id: u64, s: seq<Rest>): (k: nat)
    ensures k <= |s|
    ensures k < |s| ==> s[k].id == id
    ensures forall i | 0 <= i < k :: s[i].id != id
  {
    if s == [] || s[0].id == id then 0 else 1 + Find(id, s[1..])
  }

  lemma {:induction false} FindsWhatItHas(id: u64, s: seq<Rest>)
    ensures Has(s, id) <==> Find(id, s) < |s|
  {
  }

  function Remove(id: u64, s: seq<Rest>): seq<Rest> {
    var k := Find(id, s);
    if k < |s| then Splice(s, k, [], k + 1) else s
  }

  lemma InsertCons(side: Side, r: Rest, s: seq<Rest>)
    requires s != [] && !Better(side, r.price, s[0].price)
    ensures Insert(side, r, s) == [s[0]] + Insert(side, r, s[1..])
  {
    var k := Slot(side, r.price, s[1..]);
    SpliceCons(s, k + 1, [r], k + 1);
  }

  lemma TailLacks(s: seq<Rest>, id: u64)
    requires s != [] && !Has(s, id)
    ensures s[0].id != id && !Has(s[1..], id)
  {
    assert forall i | 0 <= i < |s[1..]| :: s[1..][i] == s[i+1];
  }

  lemma RemoveHead(id: u64, s: seq<Rest>)
    requires s != [] && s[0].id == id
    ensures Remove(id, s) == s[1..]
  {
    assert Find(id, s) == 0;
  }

  lemma RemoveCons(id: u64, s: seq<Rest>)
    requires s != [] && s[0].id != id
    ensures Remove(id, s) == [s[0]] + Remove(id, s[1..])
  {
    var k := Find(id, s[1..]);
    if k < |s[1..]| {
      SpliceCons(s, k + 1, [], k + 2);
    }
  }

  predicate Live(b: Book, id: u64) {
    Has(b.bids, id) || Has(b.asks, id)
  }

  /** Submitting an order: match it, then rest what is left of a limit order. */
  function Submit(b: Book, t: Taker, qty: u32): (Book, seq<Trade>) {
    if qty == 0 || Live(b, t.id) then (b, [])
    else
      var m := Match(t, qty, b.On(t.side.Opposite()));
      var own := if m.left > 0 && t.kind.Limit?
                 then Insert(t.side, Rest(t.id, t.price, m.left), b.On(t.side))
                 else b.On(t.side);
      (Book.From(t.side, own, m.rest), m.trades)
  }

  function Withdraw(b: Book, id: u64): Book {
    Book(Remove(id, b.bids), Remove(id, b.asks))
  }

  // ---------------------------------------------------------------------------------------------
  // The book invariant
  // ---------------------------------------------------------------------------------------------

  predicate SideOk(side: Side, s: seq<Rest>) {
    Sorted(side, s) && UniqueIds(s) && Positive(s)
  }

  predicate NoSharedId(a: seq<Rest>, b: seq<Rest>) {
    forall i, j | 0 <= i < |a| && 0 <= j < |b| :: a[i].id != b[j].id
  }

  /** Every own price is strictly on its side of every opposite price: neither crossed nor locked. */
  predicate Uncrossed(side: Side, own: seq<Rest>, opp: seq<Rest>) {
    forall i, j | 0 <= i < |own| && 0 <= j < |opp| ::
      if side.Buy? then own[i].price < opp[j].price else own[i].price > opp[j].price
  }

  predicate BookOk(b: Book) {
    SideOk(Buy, b.bids) && SideOk(Sell, b.asks) && NoSharedId(b.bids, b.asks) && Uncrossed(Buy, b.bids, b.asks)
  }

  /** `s'` is a tail of `s` whose first order may have shrunk. */
  predicate TailOf(s': seq<Rest>, s: seq<Rest>) {
    && |s'| <= |s|
    && forall i {:trigger s'[i]} | 0 <= i < |s'| ::
         var r := s[i + |s| - |s'|];
         s'[i].id == r.id && s'[i].price == r.price && 0 < s'[i].qty <= r.qty
  }

  lemma {:induction false} MatchLeavesATail(t: Taker, q: u32, opp: seq<Rest>)
    requires Positive(opp)
    ensures var m := Match(t, q, opp);
            && TailOf(m.rest, opp)
            && |opp| - |m.rest| <= |m.trades| <= |opp| - |m.rest| + 1
            && (|m.trades| > |opp| - |m.rest| ==> m.left == 0)
  {
    MatchConsumesAPrefix(t, q, opp);
  }

  lemma TailKeepsSideOk(side: Side, s': seq<Rest>, s: seq<Rest>)
    requires SideOk(side, s) && TailOf(s', s)
    ensures SideOk(side, s')
  {
    var d := |s| - |s'|;
    forall i, j | 0 <= i < j < |s'|
      ensures !Better(side, s'[j].price, s'[i].price) && s'[i].id != s'[j].id
    {
      assert s'[i].id == s[i + d].id && s'[j].id == s[j + d].id;
    }
  }

  lemma OneMoreKeepsSorted(side: Side, r: Rest, s: seq<Rest>, k: nat, s': seq<Rest>)
    requires Sorted(side, s) && k <= |s| && |s'| == |s| + 1
    requires forall i | 0 <= i < k :: !Better(side, r.price, s[i].price)
    requires forall i | k <= i < |s| :: Better(side, r.price, s[i].price)
    requires forall i {:trigger s'[i]} | 0 <= i < |s'| :: s'[i] == if i < k then s[i] else if i == k then r else s[i-1]
    ensures Sorted(side, s')
  {
  }

  lemma InsertKeepsSorted(side: Side, r: Rest, s: seq<Rest>)
    requires Sorted(side, s)
    ensures Sorted(side, Insert(side, r, s))
  {
    var k := Slot(side, r.price, s);
    SpliceAt(s, k, [r], k);
    OneMoreKeepsSorted(side, r, s, k, Insert(side, r, s));
  }

  lemma InsertKeepsSideOk(side: Side, r: Rest, s: seq<Rest>)
    requires SideOk(side, s) && r.qty > 0 && !Has(s, r.id)
    ensures SideOk(side, Insert(side, r, s))
  {
    InsertKeepsSorted(side, r, s);
    SpliceAt(s, Slot(side, r.price, s), [r], Slot(side, r.price, s));
  }

  lemma RemoveKeepsSideOk(side: Side, id: u64, s: seq<Rest>)
    requires SideOk(side, s)
    ensures SideOk(side, Remove(id, s)) && !Has(Remove(id, s), id)
  {
    var k := Find(id, s);
    var s' := Remove(id, s);
    if k < |s| {
      SpliceAt(s, k, [], k + 1);
    }
  }

  lemma SubmitKeepsBookOk(b: Book, t: Taker, qty: u32)
    requires BookOk(b)
    ensures BookOk(Submit(b, t, qty).0)
  {
    if !(qty == 0 || Live(b, t.id)) {
      var own, opp := b.On(t.side), b.On(t.side.Opposite());
      var m := Match(t, qty, opp);
      MatchConsumesAPrefix(t, qty, opp);
      MatchLeavesATail(t, qty, opp);
      TailKeepsSideOk(t.side.Opposite(), m.rest, opp);
      assert Uncrossed(t.side, own, opp) && NoSharedId(own, opp);
      TailStaysApart(t.side, own, m.rest, opp);
      if m.left > 0 && t.kind.Limit? {
        InsertKeepsSideOk(t.side, Rest(t.id, t.price, m.left), own);
        NewcomerIsApart(t, m.left, own, m.rest, opp);
      }
    }
  }

  lemma TailStaysApart(side: Side, own: seq<Rest>, opp': seq<Rest>, opp: seq<Rest>)
    requires Uncrossed(side, own, opp) && NoSharedId(own, opp) && TailOf(opp', opp)
    ensures Uncrossed(side, own, opp') && NoSharedId(own, opp')
  {
    var d := |opp| - |opp'|;
    forall j | 0 <= j < |opp'|
      ensures opp'[j].id == opp[j + d].id && opp'[j].price == opp[j + d].price
    {}
  }

  lemma NewcomerIsApart(t: Taker, left: u32, own: seq<Rest>, rest: seq<Rest>, opp: seq<Rest>)
    requires t.kind.Limit? && left > 0
    requires Uncrossed(t.side, own, rest) && NoSharedId(own, rest) && TailOf(rest, opp) && !Has(opp, t.id)
    requires Sorted(t.side.Opposite(), rest) && (rest != [] ==> !Crosses(t, rest[0].price))
    ensures var own' := Insert(t.side, Rest(t.id, t.price, left), own);
            Uncrossed(t.side, own', rest) && NoSharedId(own', rest)
  {
    var k := Slot(t.side, t.price, own);
    var r := Rest(t.id, t.price, left);
    var own' := Insert(t.side, r, own);
    SpliceAt(own, k, [r], k);
    forall j | 0 <= j < |rest|
      ensures !Crosses(t, rest[j].price) && rest[j].id != t.id
    {
      assert rest[j].id == opp[j + |opp| - |rest|].id;
    }
  }

  lemma WithdrawKeepsBookOk(b: Book, id: u64)
    requires BookOk(b)
    ensures BookOk(Withdraw(b, id)) && !Live(Withdraw(b, id), id)
  {
    RemoveKeepsSideOk(Buy, id, b.bids);
    RemoveKeepsSideOk(Sell, id, b.asks);
    RemoveDrops(id, b.bids);
    RemoveDrops(id, b.asks);
  }

  /** Every order that `Remove` keeps was there before. */
  lemma RemoveDrops(id: u64, s: seq<Rest>)
    ensures forall i | 0 <= i < |Remove(id, s)| :: Remove(id, s)[i] in s
    ensures !Has(s, id) ==> Remove(id, s) == s
  {
    var k := Find(id, s);
    var s' := Remove(id, s);
    if k < |s| {
      SpliceAt(s, k, [], k + 1);
    }
  }
}
