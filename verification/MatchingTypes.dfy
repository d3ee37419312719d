/** Vocabulary of the limit order book (02_LOB_Engine/include/Types.hpp). */
module MatchingTypes {
  import opened MachineWords

  datatype Side = Buy | Sell {
    function Opposite(): Side {
      if Buy? then Sell else Buy
    }
  }

  /** Only `Limit` orders look at prices and may rest; the other two take the market path. */
  datatype OrderType = Limit | Market | Cancel

  /** What an incoming order is, apart from the quantity it still wants. */
  datatype Taker = Taker(id: u64, side: Side, price: u64, kind: OrderType)

  /** A `MatchEvent` without its clock reading. */
  datatype Trade = Trade(maker: u64, taker: u64, price: u64, qty: u32)

  /** A resting order: what is left of it, under its id and limit price. */
  datatype Rest = Rest(id: u64, price: u64, qty: u32)

  datatype Option<+T> = None | Some(value: T)

  /** `p` has strictly higher priority than `q` among orders resting on `side`. */
  predicate Better(side: Side, p: u64, q: u64) {
    if side.Buy? then p > q else p < q
  }

  /** The taker accepts a resting order priced at `p`. */
  predicate Crosses(t: Taker, p: u64) {
    t.kind.Limit? ==> if t.side.Buy? then p <= t.price else p >= t.price
  }

  function Min(a: u32, b: u32): u32 {
    if a < b then a else b
  }

  /** `s` with its elements `k` up to `j` replaced by `r`. */
  function Splice<T>(s: seq<T>, k: nat, r: seq<T>, j: nat): seq<T>
    requires k <= j <= |s|
  {
    s[..k] + r + s[j..]
  }

  lemma SpliceAt<T>(s: seq<T>, k: nat, r: seq<T>, j: nat)
    requires k <= j <= |s|
    ensures var s' := Splice(s, k, r, j);
            && |s'| == k + |r| + |s| - j
            && forall i {:trigger s'[i]} | 0 <= i < |s'| ::
                 s'[i] == if i < k then s[i] else if i < k + |r| then r[i - k] else s[i - k - |r| + j]
  {
  }

  lemma SpliceThenSet<T>(s: seq<T>, k: nat, x: T, j: nat, y: T)
    requires k <= j <= |s|
    ensures |Splice(s, k, [x], j)| == |s| + 1 + k - j
    ensures Splice(s, k, [x], j)[k := y] == Splice(s, k, [y], j)
  {
    assert s[..k] + [y] == (s[..k] + [x])[k := y];
  }

  lemma SetIsSplice<T>(s: seq<T>, k: nat, y: T)
    requires k < |s|
    ensures s[k := y] == Splice(s, k, [y], k + 1)
  {
  }

  lemma SpliceCons<T>(s: seq<T>, k: nat, r: seq<T>, j: nat)
    requires 0 < k <= j <= |s|
    ensures Splice(s, k, r, j) == [s[0]] + Splice(s[1..], k - 1, r, j - 1)
  {
    assert s[..k] == [s[0]] + s[1..][..k-1];
    assert s[j..] == s[1..][j-1..];
  }

  predicate Distinct<T(==)>(s: seq<T>) {
    forall i, j {:trigger s[i], s[j]} | 0 <= i < j < |s| :: s[i] != s[j]
  }

  lemma DistinctWithout<T>(s: seq<T>, k: nat)
    requires Distinct(s) && k < |s|
    ensures Distinct(Splice(s, k, [], k + 1))
    ensures s[k] !in Splice(s, k, [], k + 1)
  {
    SpliceAt(s, k, [], k + 1);
  }

  function Volume(trades: seq<Trade>): nat {
    if trades == [] then 0 else trades[0].qty + Volume(trades[1..])
  }

  function RestingQty(s: seq<Rest>): nat {
    if s == [] then 0 else s[0].qty + RestingQty(s[1..])
  }

  lemma {:induction false} VolumeOfConcat(a: seq<Trade>, b: seq<Trade>)
    ensures Volume(a + b) == Volume(a) + Volume(b)
  {
    if a == [] {
      assert a + b == b;
    } else {
      VolumeOfConcat(a[1..], b);
      assert (a + b)[1..] == a[1..] + b;
    }
  }

  lemma {:induction false} RestingQtyOfConcat(a: seq<Rest>, b: seq<Rest>)
    ensures RestingQty(a + b) == RestingQty(a) + RestingQty(b)
  {
    if a == [] {
      assert a + b == b;
    } else {
      RestingQtyOfConcat(a[1..], b);
      assert (a + b)[1..] == a[1..] + b;
    }
  }
}
