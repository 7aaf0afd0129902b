/** The order book of one stock as a value: what the methods of class OrderBook
    compute, and the invariant every reachable book satisfies. */
module BookSpec {
  import opened Entities
  import opened StableSort

  /** A resting order and the part of it not matched yet. */
  datatype Resting = Resting(order: OrderVal, remaining: int)

  datatype Book = Book(bids: seq<Resting>, asks: seq<Resting>, index: set<string>)

  const EMPTY_BOOK := Book([], [], {})

  // Ascending key order is the order of the slice: highest bid, lowest ask first.
  function BidKey(e: Resting): int {
    -e.order.price
  }

  function AskKey(e: Resting): int {
    e.order.price
  }

  function AddOrder(b: Book, o: OrderVal): Book {
    if o.id in b.index then b
    else
      var e := Resting(o, o.Remaining());
      match o.side
      case Buy => b.(bids := SliceStable(b.bids + [e], BidKey), index := b.index + {o.id})
      case Sell => b.(asks := SliceStable(b.asks + [e], AskKey), index := b.index + {o.id})
  }

  /** Drops the first entry with this ID, if there is one. */
  function RemoveEntry(es: seq<Resting>, id: string): seq<Resting> {
    if es == [] then []
    else if es[0].order.id == id then es[1..]
    else [es[0]] + RemoveEntry(es[1..], id)
  }

  function RemoveOrder(b: Book, id: string): Book {
    Book(RemoveEntry(b.bids, id), RemoveEntry(b.asks, id), b.index - {id})
  }

  ghost function Ids(es: seq<Resting>): set<string> {
    set i | 0 <= i < |es| :: es[i].order.id
  }

  ghost predicate UniqueIds(es: seq<Resting>) {
    forall i, j :: 0 <= i < j < |es| ==> es[i].order.id != es[j].order.id
  }

  ghost predicate OneSide(es: seq<Resting>, side: Side) {
    forall i :: 0 <= i < |es| ==> es[i].order.side == side && es[i].remaining > 0
  }

  ghost predicate Uncrossed(b: Book) {
    forall i, j :: 0 <= i < |b.bids| && 0 <= j < |b.asks| ==> b.bids[i].order.price < b.asks[j].order.price
  }

  /** Both sides sorted, every entry with something left, each ID once and
      exactly the IDs of the index, and no bid at or above an ask. */
  ghost predicate BookInv(b: Book) {
    && OneSide(b.bids, Buy) && OneSide(b.asks, Sell)
    && Sorted(b.bids, BidKey) && Sorted(b.asks, AskKey)
    && UniqueIds(b.bids) && UniqueIds(b.asks) && Ids(b.bids) !! Ids(b.asks)
    && b.index == Ids(b.bids) + Ids(b.asks)
    && Uncrossed(b)
  }

  function Total(es: seq<Resting>): int {
    if es == [] then 0 else es[0].remaining + Total(es[1..])
  }

  lemma {:induction false} TotalAppend(a: seq<Resting>, b: seq<Resting>)
    ensures Total(a + b) == Total(a) + Total(b)
  {
    if a == [] {
      assert a + b == b;
    } else {
      assert (a + b)[1..] == a[1..] + b;
      TotalAppend(a[1..], b);
    }
  }

  lemma RemoveAbsent(es: seq<Resting>, id: string)
    requires id !in Ids(es)
    ensures RemoveEntry(es, id) == es
  {
    if es != [] {
      assert es[0].order.id in Ids(es);
      forall x | x in Ids(es[1..]) ensures x in Ids(es) {
        var i :| 0 <= i < |es[1..]| && es[1..][i].order.id == x;
        assert es[i + 1].order.id == x;
      }
      RemoveAbsent(es[1..], id);
    }
  }

  /** Removing the best ask by its ID drops the head of the asks and nothing else. */
  lemma RemoveBestAsk(b: Book)
    requires b.asks != [] && b.asks[0].order.id !in Ids(b.bids)
    ensures RemoveOrder(b, b.asks[0].order.id) == Book(b.bids, b.asks[1..], b.index - {b.asks[0].order.id})
  {
    RemoveAbsent(b.bids, b.asks[0].order.id);
  }

  /** A new order goes behind every resting order that is not worse in price,
      so behind every earlier one at its own price. */
  lemma AddOrderSplits(b: Book, o: OrderVal) returns (p: nat)
    requires Sorted(b.bids, BidKey) && Sorted(b.asks, AskKey) && o.id !in b.index
    ensures o.side == Buy ==>
      && p <= |b.bids| && AddOrder(b, o).asks == b.asks
      && AddOrder(b, o).bids == b.bids[..p] + [Resting(o, o.Remaining())] + b.bids[p..]
      && (forall i :: 0 <= i < p ==> b.bids[i].order.price >= o.price)
      && (forall i :: p <= i < |b.bids| ==> b.bids[i].order.price < o.price)
    ensures o.side == Sell ==>
      && p <= |b.asks| && AddOrder(b, o).bids == b.bids
      && AddOrder(b, o).asks == b.asks[..p] + [Resting(o, o.Remaining())] + b.asks[p..]
      && (forall i :: 0 <= i < p ==> b.asks[i].order.price <= o.price)
      && (forall i :: p <= i < |b.asks| ==> b.asks[i].order.price > o.price)
  {
    var e := Resting(o, o.Remaining());
    match o.side
    case Buy =>
      AppendThenSort(b.bids, e, BidKey);
      p := InsertSplits(b.bids, e, BidKey);
      forall i | 0 <= i < |b.bids| ensures (i < p ==> b.bids[i].order.price >= o.price) && (p <= i ==> b.bids[i].order.price < o.price) {
        assert BidKey(b.bids[i]) == -b.bids[i].order.price;
      }
    case Sell =>
      AppendThenSort(b.asks, e, AskKey);
      p := InsertSplits(b.asks, e, AskKey);
      forall i | 0 <= i < |b.asks| ensures (i < p ==> b.asks[i].order.price <= o.price) && (p <= i ==> b.asks[i].order.price > o.price) {
        assert AskKey(b.asks[i]) == b.asks[i].order.price;
      }
  }
}
