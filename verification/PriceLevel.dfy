/** The intrusive FIFO of one price level (02_LOB_Engine/include/Order.hpp, PriceLevel.hpp). */
module PriceLevels {
  import opened MachineWords
  import opened MatchingTypes

  class Order {
    var id: u64
    var price: u64
    var quantity: u32
    var remainingQty: u32
    var side: Side
    var kind: OrderType
    var priceLevelPtr: PriceLevel?
    var prev: Order?
    var next: Order?

    constructor ()
    {
      id, price, quantity, remainingQty := 0, 0, 0, 0;
      side, kind := Buy, Limit;
      priceLevelPtr, prev, next := null, null, null;
    }

    /** Placement new: every field of the slot is set again. */
    method Reset(id: u64, price: u64, quantity: u32, side: Side, kind: OrderType)
      modifies this
      ensures this.id == id && this.price == price && this.quantity == quantity && remainingQty == quantity
      ensures this.side == side && this.kind == kind
      ensures priceLevelPtr == null && prev == null && next == null
    {
      this.id, this.price, this.quantity, remainingQty := id, price, quantity, quantity;
      this.side, this.kind := side, kind;
      priceLevelPtr, prev, next := null, null, null;
    }
  }

  class PriceLevel {
    var price: u64
    var totalVolume: u32
    var orderCount: nat
    var head: Order?
    var tail: Order?

    /** The orders from head to tail. */
    ghost var chain: seq<Order>

    /** The links spell out `s`: acyclic, `prev` the inverse of `next`, every order pointing back here. */
    ghost predicate Spells(s: seq<Order>)
      reads this`orderCount, this`head, this`tail, s`priceLevelPtr, s`prev, s`next
    {
      && orderCount == |s|
      && head == (if s == [] then null else s[0])
      && tail == (if s == [] then null else s[|s|-1])
      && (forall i {:trigger s[i].priceLevelPtr} | 0 <= i < |s| :: s[i].priceLevelPtr == this)
      && (forall i {:trigger s[i].prev} | 0 <= i < |s| :: s[i].prev == (if i == 0 then null else s[i-1]))
      && (forall i {:trigger s[i].next} | 0 <= i < |s| :: s[i].next == (if i == |s| - 1 then null else s[i+1]))
      && Distinct(s)
    }

    ghost predicate Shape()
      reads this`orderCount, this`head, this`tail, this`chain, chain`priceLevelPtr, chain`prev, chain`next
    {
      Spells(chain)
    }

    lemma Ends()
      requires Shape()
      ensures head == if chain == [] then null else chain[0]
      ensures chain != [] ==> chain[0].next == if |chain| == 1 then null else chain[1]
      ensures Distinct(chain)
    {
    }

    lemma MembersPointHere()
      requires Shape()
      ensures forall o {:trigger o in chain} | o in chain :: o.priceLevelPtr == this
      ensures forall i {:trigger chain[i]} | 0 <= i < |chain| :: chain[i].priceLevelPtr == this
    {
      forall o | o in chain
        ensures o.priceLevelPtr == this
      {
        var i :| 0 <= i < |chain| && chain[i] == o;
        assert chain[i].priceLevelPtr == this;
      }
    }

    /** Every link of `s` steps over position `k`. */
    ghost predicate Skips(s: seq<Order>, k: nat)
      requires k < |s|
      reads this`head, this`tail, s`priceLevelPtr, s`prev, s`next
    {
      && head == (if k > 0 then s[0] else if |s| == 1 then null else s[1])
      && tail == (if k < |s| - 1 then s[|s|-1] else if |s| == 1 then null else s[|s|-2])
      && (forall i {:trigger s[i].priceLevelPtr} | 0 <= i < |s| && i != k :: s[i].priceLevelPtr == this)
      && (forall i {:trigger s[i].prev} | 0 <= i < |s| && i != k ::
            s[i].prev == (if i == (if k == 0 then 1 else 0) then null else if i == k + 1 then s[i-2] else s[i-1]))
      && (forall i {:trigger s[i].next} | 0 <= i < |s| && i != k ::
            s[i].next == (if i == |s| - (if k == |s| - 1 then 2 else 1) then null
                          else if i == k - 1 then s[i+2] else s[i+1]))
      && Distinct(s)
    }

    lemma SkippingSpells(s: seq<Order>, k: nat)
      requires k < |s| && Skips(s, k) && orderCount == |s| - 1
      ensures Spells(Splice(s, k, [], k + 1))
    {
      SpliceAt(s, k, [], k + 1);
      DistinctWithout(s, k);
    }

    constructor ()
      ensures chain == [] && Shape()
    {
      price, totalVolume, orderCount := 0, 0, 0;
      head, tail := null, null;
      chain := [];
    }

    /** Placement new. */
    method Reset(price: u64)
      modifies this
      ensures this.price == price && totalVolume == 0 && chain == [] && Shape()
    {
      this.price, totalVolume, orderCount := price, 0, 0;
      head, tail := null, null;
      chain := [];
    }

    method Append(order: Order)
      requires Shape() && order !in chain
      modifies this`head, this`tail, this`totalVolume, this`orderCount, this`chain
      modifies order`priceLevelPtr, order`prev, order`next, chain`next
      ensures Shape() && chain == old(chain) + [order]
      ensures totalVolume == (old(totalVolume) + order.remainingQty) % U32
    {
      order.priceLevelPtr := this;
      order.next := null;
      order.prev := tail;
      if tail != null {
        assert tail == chain[|chain|-1];
        tail.next := order;
      } else {
        head := order;
      }
      tail := order;
      totalVolume := (totalVolume + order.remainingQty) % U32;
      orderCount := orderCount + 1;
      chain := chain + [order];
    }

    ghost method Rechain(k: nat)
      requires k < |chain| && Skips(chain, k) && orderCount == |chain| - 1
      modifies this`chain
      ensures Shape() && chain == Splice(old(chain), k, [], k + 1) && old(chain)[k] !in chain
    {
      SkippingSpells(chain, k);
      DistinctWithout(chain, k);
      chain := Splice(chain, k, [], k + 1);
    }

    /** First half of `Remove`: the neighbours, or the ends, step over `order`. */
    method StepOver(order: Order, ghost k: nat)
      requires Shape() && k < |chain| && chain[k] == order
      modifies this`head, this`tail, chain`prev, chain`next
      ensures Skips(chain, k)
    {
      if order.prev != null {
        order.prev.next := order.next;
      } else {
        head := order.next;
      }
      if order.next != null {
        order.next.prev := order.prev;
      } else {
        tail := order.prev;
      }
    }

    /** `k` is where `order` sits; the cached volume saturates at zero. */
    method Remove(order: Order, ghost k: nat)
      requires Shape() && k < |chain| && chain[k] == order
      modifies this`head, this`tail, this`totalVolume, this`orderCount, this`chain
      modifies order`priceLevelPtr, chain`prev, chain`next
      ensures Shape() && chain == Splice(old(chain), k, [], k + 1)
      ensures totalVolume == if old(totalVolume) >= order.remainingQty
                             then old(totalVolume) - order.remainingQty else 0
      ensures order.priceLevelPtr == null && order.prev == null && order.next == null
    {
      StepOver(order, k);
      totalVolume := totalVolume - if totalVolume >= order.remainingQty then order.remainingQty else totalVolume;
      if orderCount > 0 {
        orderCount := orderCount - 1;
      }
      Rechain(k);
      order.next := null;
      order.prev := null;
      order.priceLevelPtr := null;
    }

    predicate IsEmpty()
      reads this
    {
      head == null
    }
  }
}
