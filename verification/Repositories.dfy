/** The in-memory repositories: several indexes of the same records, changed
    together, that must agree with a plain scan. */
module Repositories {
  import opened Entities
  import opened StableSort
  import opened Matching
  import opened Pagination

  // ------------------------------------------------------------- trades

  function OfStock(stock: string): Trade -> bool {
    (t: Trade) => t.stock == stock
  }

  /** An empty field of a filter matches everything. */
  datatype TradeFilter = TradeFilter(stock: string, userId: string, page: int, perPage: int)

  function TradeMatches(f: TradeFilter): Trade -> bool {
    (t: Trade) => (f.stock == "" || t.stock == f.stock) && (f.userId == "" || t.buyerId == f.userId || t.sellerId == f.userId)
  }

  ghost function KeptAt<T>(s: seq<T>, keep: T -> bool): set<int> {
    set i | 0 <= i < |s| && keep(s[i])
  }

  /** How many elements of a list a filter keeps. */
  lemma {:induction false} FilterSize<T>(s: seq<T>, keep: T -> bool)
    ensures |Filter(s, keep)| == |KeptAt(s, keep)|
  {
    if s == [] {
      assert KeptAt(s, keep) == {};
    } else {
      var n := |s| - 1;
      FilterSize(s[..n], keep);
      assert KeptAt(s, keep) == KeptAt(s[..n], keep) + if keep(s[n]) then {n} else {};
    }
  }

  /** A stock and a party, each only if it is given. */
  ghost predicate Selects(f: TradeFilter, t: Trade) {
    (f.stock != "" ==> t.stock == f.stock) && (f.userId != "" ==> f.userId in {t.buyerId, t.sellerId})
  }

  ghost function SelectedAt(all: seq<Trade>, f: TradeFilter): set<int> {
    set i | 0 <= i < |all| && Selects(f, all[i])
  }

  /** What FindAll finds among these trades, and how many it counts. */
  lemma TradesSelected(all: seq<Trade>, f: TradeFilter)
    ensures forall t :: t in Filter(all, TradeMatches(f)) <==> t in all && Selects(f, t)
    ensures |Filter(all, TradeMatches(f))| == |SelectedAt(all, f)|
  {
    forall t ensures t in Filter(all, TradeMatches(f)) <==> t in all && Selects(f, t) {
      FilterMember(all, TradeMatches(f), t);
    }
    FilterSize(all, TradeMatches(f));
    assert KeptAt(all, TradeMatches(f)) == SelectedAt(all, f);
  }

  function Reversed<T>(s: seq<T>): (r: seq<T>)
    ensures |r| == |s| && forall i :: 0 <= i < |s| ==> r[i] == s[|s| - 1 - i]
  {
    if s == [] then [] else [s[|s| - 1]] + Reversed(s[..|s| - 1])
  }

  /** The last `limit` elements, or all of them when the limit is not a smaller
      positive number. */
  function LastOf<T>(s: seq<T>, limit: int): seq<T> {
    if 0 < limit < |s| then s[|s| - limit..] else s
  }

  lemma ReversedEnd<T>(s: seq<T>, limit: int, r: seq<T>)
    requires |r| == if 0 < limit < |s| then limit else |s|
    requires forall k :: 0 <= k < |r| ==> r[k] == s[|s| - 1 - k]
    ensures r == Reversed(LastOf(s, limit))
  {
    assert LastOf(s, limit) == s[|s| - |r|..];
  }

  lemma FilterStep<T>(s: seq<T>, i: nat, keep: T -> bool)
    requires i < |s|
    ensures Filter(s[..i + 1], keep) == if keep(s[i]) then Filter(s[..i], keep) + [s[i]] else Filter(s[..i], keep)
  {
    assert s[..i + 1][..i] == s[..i];
  }

  /** No trade of the list has this ID. */
  predicate FreshId(all: seq<Trade>, id: nat) {
    forall i :: 0 <= i < |all| ==> all[i].id != id
  }

  function StockList(byStock: map<string, seq<Trade>>, stock: string): seq<Trade> {
    if stock in byStock then byStock[stock] else []
  }

  /** The ID index holds the trades of the list, each ID once. */
  ghost predicate ByIdOf(byID: map<nat, Trade>, all: seq<Trade>) {
    && (forall id :: id in byID ==> byID[id].id == id && byID[id] in all)
    && (forall i :: 0 <= i < |all| ==> all[i].id in byID && byID[all[i].id] == all[i])
    && (forall i, j :: 0 <= i < j < |all| ==> all[i].id != all[j].id)
  }

  /** The stock index is the list filtered by stock. */
  ghost predicate ByStockOf(byStock: map<string, seq<Trade>>, all: seq<Trade>) {
    forall stock :: StockList(byStock, stock) == Filter(all, OfStock(stock))
  }

  lemma ByIdGrows(byID: map<nat, Trade>, all: seq<Trade>, t: Trade)
    requires ByIdOf(byID, all) && t.id !in byID
    ensures ByIdOf(byID[t.id := t], all + [t])
  {
    var ids, more := byID[t.id := t], all + [t];
    forall id | id in ids ensures ids[id].id == id && ids[id] in more {
      assert id == t.id ==> more[|all|] == t;
    }
  }

  lemma ByStockGrows(byStock: map<string, seq<Trade>>, all: seq<Trade>, t: Trade)
    requires ByStockOf(byStock, all)
    ensures ByStockOf(byStock[t.stock := StockList(byStock, t.stock) + [t]], all + [t])
  {
    var lists := byStock[t.stock := StockList(byStock, t.stock) + [t]];
    assert (all + [t])[..|all|] == all;
    forall stock ensures StockList(lists, stock) == Filter(all + [t], OfStock(stock)) {
      assert StockList(byStock, stock) == Filter(all, OfStock(stock));
    }
  }

  class TradeRepo {
    var byID: map<nat, Trade>
    var byStock: map<string, seq<Trade>>
    var all: seq<Trade>

    /** Both indexes are views of the one insertion-ordered list. */
    ghost predicate Valid()
      reads this
    {
      ByIdOf(byID, all) && ByStockOf(byStock, all)
    }

    function ByStock(stock: string): seq<Trade>
      reads this
    {
      StockList(byStock, stock)
    }

    constructor ()
      ensures Valid() && all == []
    {
      byID, byStock, all := map[], map[], [];
    }

    /** Fails exactly on a repeated ID, so never with fresh ones. */
    method Save(trade: Trade) returns (saved: bool)
      requires Valid()
      modifies this
      ensures Valid()
      ensures saved <==> FreshId(old(all), trade.id)
      ensures all == if saved then old(all) + [trade] else old(all)
    {
      if trade.id in byID {
        return false;
      }
      ByIdGrows(byID, all, trade);
      ByStockGrows(byStock, all, trade);
      byID := byID[trade.id := trade];
      byStock := byStock[trade.stock := ByStock(trade.stock) + [trade]];
      all := all + [trade];
      saved := true;
    }

    /** The most recent trades of a stock, newest first, at most `limit` if positive. */
    method FindByStockCode(stock: string, limit: int) returns (r: seq<Trade>)
      requires Valid()
      ensures r == Reversed(LastOf(Filter(all, OfStock(stock)), limit))
      ensures var own := Filter(all, OfStock(stock));
        && |r| == (if 0 < limit < |own| then limit else |own|)
        && forall k :: 0 <= k < |r| ==> r[k] == own[|own| - 1 - k]
    {
      var src := ByStock(stock);
      assert src == Filter(all, OfStock(stock));
      if |src| == 0 {
        return [];
      }
      var n := |src|;
      if limit > 0 && limit < n {
        n := limit;
      }
      r := [];
      var i := 0;
      while i < n
        invariant 0 <= i <= n && |r| == i
        invariant forall k :: 0 <= k < i ==> r[k] == src[|src| - 1 - k]
      {
        r := r + [src[|src| - 1 - i]];
        i := i + 1;
      }
      ReversedEnd(src, limit, r);
    }

    method FindAll(f: TradeFilter) returns (r: seq<Trade>, total: nat)
      requires Valid()
      ensures r == PageOf(Filter(all, TradeMatches(f)), f.page, f.perPage)
      ensures total == |Filter(all, TradeMatches(f))|
    {
      var matched := [];
      var i := 0;
      while i < |all|
        invariant 0 <= i <= |all|
        invariant matched == Filter(all[..i], TradeMatches(f))
      {
        var t := all[i];
        FilterStep(all, i, TradeMatches(f));
        i := i + 1;
        if f.stock != "" && t.stock != f.stock {
          continue;
        }
        if f.userId != "" && t.buyerId != f.userId && t.sellerId != f.userId {
          continue;
        }
        matched := matched + [t];
      }
      assert all[..|all|] == all;
      total := |matched|;
      r := Paginate(matched, f.page, f.perPage);
    }
  }

  // ------------------------------------------------------------- orders

  datatype OrderFilter = OrderFilter(stock: string, status: Option<Status>, userId: string, page: int, perPage: int)

  function OrderMatches(f: OrderFilter): OrderVal -> bool {
    (o: OrderVal) => (f.stock == "" || o.stock == f.stock) && (f.status.None? || o.status == f.status.value) && (f.userId == "" || o.userId == f.userId)
  }

  /** A stock, a status and an owner, each only if it is given. */
  ghost predicate SelectsOrder(f: OrderFilter, o: OrderVal) {
    (f.stock != "" ==> o.stock == f.stock) && (f.status.Some? ==> o.status == f.status.value) && (f.userId != "" ==> o.userId == f.userId)
  }

  ghost function SelectedOrdersAt(all: seq<OrderVal>, f: OrderFilter): set<int> {
    set i | 0 <= i < |all| && SelectsOrder(f, all[i])
  }

  lemma OrdersSelected(all: seq<OrderVal>, f: OrderFilter)
    ensures forall o :: o in Filter(all, OrderMatches(f)) <==> o in all && SelectsOrder(f, o)
    ensures |Filter(all, OrderMatches(f))| == |SelectedOrdersAt(all, f)|
  {
    forall o ensures o in Filter(all, OrderMatches(f)) <==> o in all && SelectsOrder(f, o) {
      FilterMember(all, OrderMatches(f), o);
    }
    FilterSize(all, OrderMatches(f));
    assert KeptAt(all, OrderMatches(f)) == SelectedOrdersAt(all, f);
  }

  /** The map and the list hold the same objects, each under its own ID. */
  ghost predicate HoldSame(byID: map<string, Order>, ordered: seq<Order>) {
    && (forall id :: id in byID ==> byID[id].id == id && byID[id] in ordered)
    && (forall i :: 0 <= i < |ordered| ==> ordered[i].id in byID && byID[ordered[i].id] == ordered[i])
    && (forall i, j :: 0 <= i < j < |ordered| ==> ordered[i].id != ordered[j].id)
  }

  lemma HoldSameGrows(byID: map<string, Order>, ordered: seq<Order>, o: Order)
    requires HoldSame(byID, ordered) && o.id !in byID
    ensures HoldSame(byID[o.id := o], ordered + [o])
  {
    var ids, more := byID[o.id := o], ordered + [o];
    forall id | id in ids ensures ids[id].id == id && ids[id] in more {
      assert id == o.id ==> more[|ordered|] == o;
    }
  }

  ghost function ValuesById(byID: map<string, Order>): map<string, OrderVal>
    reads byID.Values
  {
    map id | id in byID :: byID[id].View()
  }

  ghost function ValuesOf(ordered: seq<Order>): (vs: seq<OrderVal>)
    reads set o | o in ordered
    ensures |vs| == |ordered| && forall i :: 0 <= i < |vs| ==> vs[i] == ordered[i].View()
  {
    seq(|ordered|, i requires 0 <= i < |ordered| reads set o | o in ordered => ordered[i].View())
  }

  lemma ValuesGrow(byID: map<string, Order>, ordered: seq<Order>, o: Order)
    requires o.id !in byID
    ensures ValuesById(byID[o.id := o]) == ValuesById(byID)[o.id := o.View()]
    ensures ValuesOf(ordered + [o]) == ValuesOf(ordered) + [o.View()]
  {
    var r := ValuesOf(ordered + [o]);
    forall i | 0 <= i < |r| ensures r[i] == (ValuesOf(ordered) + [o.View()])[i] {}
  }

  class OrderRepo {
    var byID: map<string, Order>
    var ordered: seq<Order>

    ghost predicate Valid()
      reads this
    {
      HoldSame(byID, ordered)
    }

    /** The stored copies; nobody outside holds them. */
    ghost function Stored(): set<Order>
      reads this
    {
      set o | o in ordered
    }

    /** The stored values by ID. */
    ghost function View(): map<string, OrderVal>
      requires Valid()
      reads this, Stored()
    {
      ValuesById(byID)
    }

    /** The stored values in insertion order. */
    ghost function List(): (vs: seq<OrderVal>)
      reads this, Stored()
      ensures |vs| == |ordered| && forall i :: 0 <= i < |vs| ==> vs[i] == ordered[i].View()
    {
      ValuesOf(ordered)
    }

    constructor ()
      ensures Valid() && View() == map[] && ordered == []
    {
      byID, ordered := map[], [];
    }

    method Save(order: Order) returns (saved: bool)
      requires Valid()
      modifies this
      ensures Valid() && fresh(Stored() - old(Stored()))
      ensures saved <==> order.id !in old(View())
      ensures View() == if saved then old(View())[order.id := order.View()] else old(View())
      ensures List() == if saved then old(List()) + [order.View()] else old(List())
    {
      if order.id in byID {
        return false;
      }
      ghost var view, list := View(), List();
      assert forall i :: 0 <= i < |ordered| ==> ordered[i].id != order.id;
      var cp := new Order(order.View());
      assert List() == list && View() == view;
      Insert(cp);
      saved := true;
    }

    method Insert(cp: Order)
      requires Valid() && cp.id !in byID
      modifies this
      ensures Valid() && ordered == old(ordered) + [cp]
      ensures View() == old(View())[cp.id := old(cp.View())]
      ensures List() == old(List()) + [old(cp.View())]
    {
      HoldSameGrows(byID, ordered, cp);
      ValuesGrow(byID, ordered, cp);
      byID := byID[cp.id := cp];
      ordered := ordered + [cp];
    }

    method FindByID(id: string) returns (r: Option<OrderVal>)
      requires Valid()
      ensures r == if id in View() then Some(View()[id]) else None
    {
      if id !in byID {
        return None;
      }
      r := Some(byID[id].View());
    }

    /** Overwrites the mutable fields of the stored object, seen by both views. */
    method Update(order: Order) returns (found: bool)
      requires Valid()
      modifies Stored()
      ensures Valid() && byID == old(byID) && ordered == old(ordered)
      ensures found <==> order.id in byID
      ensures View() == UpdateStore(old(View()), old(order.View()))
      ensures forall i :: 0 <= i < |ordered| ==>
        List()[i] == if ordered[i].id == order.id then old(List())[i].(filled := old(order.filled), status := old(order.status)) else old(List())[i]
    {
      if order.id !in byID {
        return false;
      }
      var existing := byID[order.id];
      var status, filled := order.status, order.filled;
      existing.status := status;
      existing.filled := filled;
      found := true;
    }

    method FindAll(f: OrderFilter) returns (r: seq<OrderVal>, total: nat)
      requires Valid()
      ensures r == PageOf(Filter(List(), OrderMatches(f)), f.page, f.perPage)
      ensures total == |Filter(List(), OrderMatches(f))|
    {
      var matched := [];
      ghost var vs := List();
      var i := 0;
      while i < |ordered|
        invariant 0 <= i <= |ordered|
        invariant matched == Filter(vs[..i], OrderMatches(f))
      {
        var o := ordered[i].View();
        FilterStep(vs, i, OrderMatches(f));
        i := i + 1;
        if f.stock != "" && o.stock != f.stock {
          continue;
        }
        if f.status.Some? && o.status != f.status.value {
          continue;
        }
        if f.userId != "" && o.userId != f.userId {
          continue;
        }
        matched := matched + [o];
      }
      assert vs[..|ordered|] == vs;
      total := |matched|;
      r := Paginate(matched, f.page, f.perPage);
      assert List() == vs;
    }
  }

  // ------------------------------------------------------------- market

  class MarketRepo {
    var tickers: map<string, Ticker>
    var books: map<string, Depth>

    ghost function TickerOf(stock: string): Option<TickerVal>
      reads this`tickers, tickers.Values
    {
      if stock in tickers then Some(tickers[stock].View()) else None
    }

    constructor ()
      ensures tickers == map[] && books == map[]
    {
      tickers, books := map[], map[];
    }

    /** Creates what is missing and leaves alone what is there. */
    method InitStock(stock: string)
      modifies this
      ensures TickerOf(stock) == if old(TickerOf(stock)).None? then Some(ZERO_TICKER) else old(TickerOf(stock))
      ensures books == if stock in old(books) then old(books) else old(books)[stock := Depth([], [])]
      ensures forall s :: s != stock ==> TickerOf(s) == old(TickerOf(s))
    {
      if stock !in tickers {
        var t := new Ticker(ZERO_TICKER);
        tickers := tickers[stock := t];
      }
      if stock !in books {
        books := books[stock := Depth([], [])];
      }
    }

    /** Copies the ticker, applies the trade to the copy, and swaps it in. */
    method UpdateTickerFromTrade(stock: string, price: int, qty: int) returns (r: Option<TickerVal>)
      modifies this`tickers
      ensures r == TickerOf(stock)
      ensures TickerOf(stock) == match old(TickerOf(stock)) case None => None case Some(t) => Some(t.AfterTrade(price, qty))
      ensures forall s :: s != stock ==> TickerOf(s) == old(TickerOf(s))
    {
      if stock !in tickers {
        return None;
      }
      var updated := new Ticker(tickers[stock].View());
      updated.UpdateFromTrade(price, qty);
      tickers := tickers[stock := updated];
      r := Some(updated.View());
    }

    /** Replaces the snapshot of an initialised stock only. */
    method UpdateOrderBook(stock: string, depth: Depth) returns (found: bool)
      modifies this`books
      ensures found <==> stock in old(books)
      ensures books == if found then old(books)[stock := depth] else old(books)
    {
      if stock !in books {
        return false;
      }
      books := books[stock := depth];
      found := true;
    }

    method GetOrderBook(stock: string) returns (r: Option<Depth>)
      ensures r == if stock in books then Some(books[stock]) else None
    {
      if stock !in books {
        return None;
      }
      r := Some(books[stock]);
    }
  }
}
