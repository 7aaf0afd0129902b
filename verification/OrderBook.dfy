/** The order book as the program holds it: two slices of shared entries and an
    index, changed in place. Each method computes the function of BookSpec or
    DepthSpec with its name. */
module OrderBooks {
  import opened Entities
  import opened StableSort
  import opened BookSpec
  import opened DepthSpec

  class OrderEntry {
    const order: Order
    var remaining: int

    constructor (order: Order, remaining: int)
      ensures this.order == order && this.remaining == remaining
    {
      this.order, this.remaining := order, remaining;
    }

    function View(): Resting
      reads this, order
    {
      Resting(order.View(), remaining)
    }
  }

  function OrdersOf(es: seq<OrderEntry>): set<Order> {
    set e | e in es :: e.order
  }

  function Views(es: seq<OrderEntry>): (vs: seq<Resting>)
    reads es, OrdersOf(es)
    ensures |vs| == |es| && forall i :: 0 <= i < |es| ==> vs[i] == es[i].View()
  {
    seq(|es|, i requires 0 <= i < |es| reads es, OrdersOf(es) => es[i].View())
  }

  function EntryBidKey(e: OrderEntry): int {
    -e.order.price
  }

  function EntryAskKey(e: OrderEntry): int {
    e.order.price
  }

  lemma {:induction false} InsertedViews(es: seq<OrderEntry>, e: OrderEntry, p: nat)
    requires p <= |es|
    ensures Views(es[..p] + [e] + es[p..]) == Views(es)[..p] + [e.View()] + Views(es)[p..]
  {
    var r, vs := es[..p] + [e] + es[p..], Views(es);
    var ws := vs[..p] + [e.View()] + vs[p..];
    forall i | 0 <= i < |r| ensures Views(r)[i] == ws[i] {
      assert Views(r)[i] == r[i].View();
    }
  }

  /** Entries and their values split at the same place. */
  lemma SamePlace(es: seq<OrderEntry>, e: OrderEntry, key: OrderEntry -> int, viewKey: Resting -> int, p: nat, q: nat)
    requires forall i :: 0 <= i < |es| ==> viewKey(es[i].View()) == key(es[i])
    requires viewKey(e.View()) == key(e) && p <= |es| && q <= |es|
    requires forall i :: 0 <= i < p ==> key(es[i]) <= key(e)
    requires forall i :: p <= i < |es| ==> key(e) < key(es[i])
    requires forall i :: 0 <= i < q ==> viewKey(Views(es)[i]) <= viewKey(e.View())
    requires forall i :: q <= i < |es| ==> viewKey(e.View()) < viewKey(Views(es)[i])
    ensures p == q
  {
    var least := if p < q then p else q;
    assert least < |es| ==> viewKey(Views(es)[least]) == key(es[least]);
  }

  lemma SortedKeys(es: seq<OrderEntry>, key: OrderEntry -> int, viewKey: Resting -> int)
    requires Sorted(Views(es), viewKey)
    requires forall i :: 0 <= i < |es| ==> viewKey(es[i].View()) == key(es[i])
    ensures Sorted(es, key)
  {
    forall i, j | 0 <= i < j < |es| ensures key(es[i]) <= key(es[j]) {
      assert viewKey(Views(es)[i]) <= viewKey(Views(es)[j]);
    }
  }

  /** Sorting entries after an append sorts their values the same way. */
  lemma SortedViews(es: seq<OrderEntry>, e: OrderEntry, key: OrderEntry -> int, viewKey: Resting -> int) returns (p: nat)
    requires Sorted(Views(es), viewKey)
    requires forall i :: 0 <= i < |es| ==> viewKey(es[i].View()) == key(es[i])
    requires viewKey(e.View()) == key(e)
    ensures p <= |es| && SliceStable(es + [e], key) == es[..p] + [e] + es[p..]
    ensures Views(es[..p] + [e] + es[p..]) == SliceStable(Views(es) + [e.View()], viewKey)
  {
    SortedKeys(es, key, viewKey);
    assert SliceStable(es + [e], key) == Insert(es, e, key) by { AppendThenSort(es, e, key); }
    assert SliceStable(Views(es) + [e.View()], viewKey) == Insert(Views(es), e.View(), viewKey) by {
      AppendThenSort(Views(es), e.View(), viewKey);
    }
    p := InsertSplits(es, e, key);
    var q := InsertSplits(Views(es), e.View(), viewKey);
    SamePlace(es, e, key, viewKey, p, q);
    InsertedViews(es, e, p);
  }

  /** The first entry with the ID is the one removed. */
  lemma {:induction false} RemoveFirst(vs: seq<Resting>, id: string, i: nat)
    requires i <= |vs| && forall j :: 0 <= j < i ==> vs[j].order.id != id
    requires i < |vs| ==> vs[i].order.id == id
    ensures RemoveEntry(vs, id) == if i < |vs| then vs[..i] + vs[i + 1..] else vs
  {
    if i > 0 {
      RemoveFirst(vs[1..], id, i - 1);
      assert vs == [vs[0]] + vs[1..];
      if i < |vs| {
        assert vs[1..][..i - 1] == vs[1..i] && vs[1..][i..] == vs[i + 1..];
        assert vs[..i] == [vs[0]] + vs[1..i];
      }
    }
  }

  class OrderBook {
    var bids: seq<OrderEntry>
    var asks: seq<OrderEntry>
    var index: set<string>
    /** The orders that are through with this book, as they were then. */
    ghost var gone: seq<OrderVal>

    constructor ()
      ensures View() == EMPTY_BOOK && bids == [] && asks == [] && gone == []
    {
      bids, asks, index, gone := [], [], {}, [];
    }

    function View(): Book
      reads this, bids, asks, OrdersOf(bids), OrdersOf(asks)
    {
      Book(Views(bids), Views(asks), index)
    }

    method AddOrder(o: Order)
      requires Sorted(View().bids, BidKey) && Sorted(View().asks, AskKey)
      modifies `bids, `asks, `index
      ensures View() == BookSpec.AddOrder(old(View()), o.View())
      ensures forall e :: e in bids ==> e in old(bids) || (fresh(e) && e.order == o)
      ensures forall e :: e in asks ==> e in old(asks) || (fresh(e) && e.order == o)
    {
      if o.id in index {
        return;
      }
      index := index + {o.id};
      var entry := new OrderEntry(o, o.RemainingQuantity());
      assert Views(bids) == old(Views(bids)) && Views(asks) == old(Views(asks));
      match o.side {
        case Buy =>
          AddBid(entry);
        case Sell =>
          AddAsk(entry);
      }
    }

    method AddBid(entry: OrderEntry)
      requires Sorted(Views(bids), BidKey)
      modifies this`bids
      ensures Views(bids) == SliceStable(old(Views(bids)) + [old(entry.View())], BidKey)
      ensures Views(asks) == old(Views(asks))
      ensures forall e :: e in bids ==> e in old(bids) || e == entry
    {
      ghost var p := SortedViews(bids, entry, EntryBidKey, BidKey);
      ghost var sorted := Views(bids[..p] + [entry] + bids[p..]);
      bids := SliceStable(bids + [entry], EntryBidKey);
      assert Views(bids) == sorted;
    }

    method AddAsk(entry: OrderEntry)
      requires Sorted(Views(asks), AskKey)
      modifies this`asks
      ensures Views(asks) == SliceStable(old(Views(asks)) + [old(entry.View())], AskKey)
      ensures Views(bids) == old(Views(bids))
      ensures forall e :: e in asks ==> e in old(asks) || e == entry
    {
      ghost var p := SortedViews(asks, entry, EntryAskKey, AskKey);
      ghost var sorted := Views(asks[..p] + [entry] + asks[p..]);
      asks := SliceStable(asks + [entry], EntryAskKey);
      assert Views(asks) == sorted;
    }

    static method RemoveEntry(entries: seq<OrderEntry>, id: string) returns (r: seq<OrderEntry>)
      ensures Views(r) == BookSpec.RemoveEntry(Views(entries), id)
      ensures forall e :: e in r ==> e in entries
    {
      var i := 0;
      while i < |entries|
        invariant 0 <= i <= |entries|
        invariant forall j :: 0 <= j < i ==> Views(entries)[j].order.id != id
      {
        if entries[i].order.id == id {
          RemoveFirst(Views(entries), id, i);
          r := entries[..i] + entries[i + 1..];
          assert Views(r) == Views(entries)[..i] + Views(entries)[i + 1..];
          return;
        }
        i := i + 1;
      }
      RemoveFirst(Views(entries), id, i);
      r := entries;
    }

    method RemoveOrder(id: string)
      modifies `bids, `asks, `index
      ensures View() == BookSpec.RemoveOrder(old(View()), id)
      ensures forall e :: e in bids ==> e in old(bids)
      ensures forall e :: e in asks ==> e in old(asks)
    {
      index := index - {id};
      assert Views(bids) == old(Views(bids)) && Views(asks) == old(Views(asks));
      var b := RemoveEntry(bids, id);
      assert Views(bids) == old(Views(bids)) && Views(asks) == old(Views(asks));
      ghost var newBids := Views(b);
      var a := RemoveEntry(asks, id);
      assert Views(asks) == old(Views(asks)) && Views(b) == newBids;
      ghost var newAsks := Views(a);
      bids, asks := b, a;
      assert Views(bids) == newBids && Views(asks) == newAsks;
    }

    function BestBid(): OrderEntry?
      reads this
    {
      if |bids| == 0 then null else bids[0]
    }

    function BestAsk(): OrderEntry?
      reads this
    {
      if |asks| == 0 then null else asks[0]
    }

    static method AggregateLevels(entries: seq<OrderEntry>, maxLevels: int) returns (levels: seq<PriceLevel>)
      ensures levels == Levels(Views(entries), maxLevels)
    {
      levels := [];
      ghost var vs := Views(entries);
      var i := 0;
      while i < |entries|
        invariant 0 <= i <= |entries|
        invariant Aggregate(vs[i..], maxLevels, levels) == Levels(vs, maxLevels)
      {
        var e := entries[i];
        assert vs[i..][0] == e.View() && vs[i..][1..] == vs[i + 1..];
        i := i + 1;
        if e.remaining <= 0 {
          continue;
        }
        var n := |levels|;
        if n > 0 && levels[n - 1].price == e.order.price {
          levels := levels[n - 1 := PriceLevel(levels[n - 1].price, levels[n - 1].quantity + e.remaining, levels[n - 1].count + 1)];
        } else {
          if maxLevels > 0 && n >= maxLevels {
            break;
          }
          levels := levels + [PriceLevel(e.order.price, e.remaining, 1)];
        }
      }
    }

    method GetDepth(levels: int) returns (depth: Depth)
      ensures depth == DepthOf(old(View()), levels)
    {
      var b := AggregateLevels(bids, levels);
      assert Views(bids) == old(Views(bids));
      var a := AggregateLevels(asks, levels);
      assert Views(bids) == old(Views(bids)) && Views(asks) == old(Views(asks));
      depth := Depth(b, a);
    }
  }
}
