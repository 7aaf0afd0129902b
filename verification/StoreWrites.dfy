/** The single writes an iteration makes to the shared stores, each under a lock of its
    own. However the writes of matchers of two stocks fall between one another, the
    stores end as if one matcher had gone first: this is why module Exchange may take
    an iteration as one step. */
module StoreWrites {
  import opened Entities
  import opened StableSort
  import opened DepthSpec
  import opened Matching
  import opened BookInvariant
  import opened Ledger
  import opened Repositories
  import opened Exchange
  import opened SharedTrades
  import opened SharedOrders

  datatype Write =
    | TradeWrite(trade: Trade)
    | OrderWrite(order: OrderVal)
    | TickerWrite(stock: string, price: int, quantity: int)
    | BookWrite(stock: string, depth: Depth)

  datatype Stores = Stores(trades: seq<Trade>, orders: map<string, OrderVal>, tickers: map<string, TickerVal>, books: map<string, Depth>)

  function Put(s: Stores, x: Write): Stores {
    match x
    case TradeWrite(t) => if FreshId(s.trades, t.id) then s.(trades := s.trades + [t]) else s
    case OrderWrite(o) => s.(orders := UpdateStore(s.orders, o))
    case TickerWrite(k, p, q) => if k in s.tickers then s.(tickers := s.tickers[k := s.tickers[k].AfterTrade(p, q)]) else s
    case BookWrite(k, d) => if k in s.books then s.(books := s.books[k := d]) else s
  }

  function PutAll(s: Stores, xs: seq<Write>): Stores {
    if xs == [] then s else Put(PutAll(s, xs[..|xs| - 1]), xs[|xs| - 1])
  }

  /** Writes of matchers of different stocks: other trades, orders, tickers, snapshots. */
  predicate Independent(x: Write, y: Write) {
    && (x.TradeWrite? && y.TradeWrite? ==> x.trade.id != y.trade.id && x.trade.stock != y.trade.stock)
    && (x.OrderWrite? && y.OrderWrite? ==> x.order.id != y.order.id)
    && (x.TickerWrite? && y.TickerWrite? ==> x.stock != y.stock)
    && (x.BookWrite? && y.BookWrite? ==> x.stock != y.stock)
  }

  /** The same stores, up to how the trades of different stocks lie among one another. */
  ghost predicate Alike(s: Stores, r: Stores) {
    && r.orders == s.orders && r.tickers == s.tickers && r.books == s.books
    && (forall id :: FreshId(r.trades, id) <==> FreshId(s.trades, id))
    && (forall k :: Filter(r.trades, OfStock(k)) == Filter(s.trades, OfStock(k)))
  }

  // ------------------------------------------------------------- commuting

  lemma FreshAppend(ts: seq<Trade>, t: Trade, id: nat)
    ensures FreshId(ts + [t], id) <==> FreshId(ts, id) && t.id != id
  {
    if FreshId(ts + [t], id) {
      forall i | 0 <= i < |ts| ensures ts[i].id != id { assert (ts + [t])[i] == ts[i]; }
      assert (ts + [t])[|ts|] == t;
    }
  }

  lemma TradesCommute(ts: seq<Trade>, t: Trade, u: Trade)
    requires t.stock != u.stock
    ensures forall k :: Filter(ts + [t] + [u], OfStock(k)) == Filter(ts + [u] + [t], OfStock(k))
    ensures forall id :: FreshId(ts + [t] + [u], id) <==> FreshId(ts + [u] + [t], id)
  {
    forall k ensures Filter(ts + [t] + [u], OfStock(k)) == Filter(ts + [u] + [t], OfStock(k)) {
      ListGrows(ts, [t], k);
      ListGrows(ts, [u], k);
      ListGrows(ts + [t], [u], k);
      ListGrows(ts + [u], [t], k);
    }
    forall id ensures FreshId(ts + [t] + [u], id) <==> FreshId(ts + [u] + [t], id) {
      FreshAppend(ts, t, id);
      FreshAppend(ts, u, id);
      FreshAppend(ts + [t], u, id);
      FreshAppend(ts + [u], t, id);
    }
  }

  lemma UpdatesCommute(store: map<string, OrderVal>, a: OrderVal, b: OrderVal)
    requires a.id != b.id
    ensures UpdateStore(UpdateStore(store, a), b) == UpdateStore(UpdateStore(store, b), a)
  {
  }

  lemma TradeWritesCommute(s: Stores, x: Write, y: Write)
    requires x.TradeWrite? && y.TradeWrite? && Independent(x, y)
    ensures Alike(Put(Put(s, x), y), Put(Put(s, y), x))
  {
    FreshAppend(s.trades, x.trade, y.trade.id);
    FreshAppend(s.trades, y.trade, x.trade.id);
    TradesCommute(s.trades, x.trade, y.trade);
  }

  lemma TickersCommute(s: Stores, x: Write, y: Write)
    requires x.TickerWrite? && y.TickerWrite? && x.stock != y.stock
    ensures Put(Put(s, x), y) == Put(Put(s, y), x)
  {
    assert Put(Put(s, x), y).tickers == Put(Put(s, y), x).tickers;
  }

  lemma BooksCommute(s: Stores, x: Write, y: Write)
    requires x.BookWrite? && y.BookWrite? && x.stock != y.stock
    ensures Put(Put(s, x), y) == Put(Put(s, y), x)
  {
    assert Put(Put(s, x), y).books == Put(Put(s, y), x).books;
  }

  /** Writes to different stores do not meet. */
  lemma KindsCommute(s: Stores, x: Write, y: Write)
    requires !(x.TradeWrite? && y.TradeWrite?) && !(x.OrderWrite? && y.OrderWrite?)
    requires !(x.TickerWrite? && y.TickerWrite?) && !(x.BookWrite? && y.BookWrite?)
    ensures Put(Put(s, x), y) == Put(Put(s, y), x)
  {
  }

  /** Writes other than of two trades lead to the very same stores. */
  lemma OtherWritesCommute(s: Stores, x: Write, y: Write)
    requires !(x.TradeWrite? && y.TradeWrite?) && Independent(x, y)
    ensures Put(Put(s, x), y) == Put(Put(s, y), x)
  {
    if x.OrderWrite? && y.OrderWrite? {
      UpdatesCommute(s.orders, x.order, y.order);
    } else if x.TickerWrite? && y.TickerWrite? {
      TickersCommute(s, x, y);
    } else if x.BookWrite? && y.BookWrite? {
      BooksCommute(s, x, y);
    } else {
      KindsCommute(s, x, y);
    }
  }

  /** Two writes of different stocks may change places. */
  lemma WritesCommute(s: Stores, x: Write, y: Write)
    requires Independent(x, y)
    ensures Alike(Put(Put(s, x), y), Put(Put(s, y), x))
  {
    if x.TradeWrite? && y.TradeWrite? {
      TradeWritesCommute(s, x, y);
    } else {
      OtherWritesCommute(s, x, y);
    }
  }

  lemma PutAlike(s: Stores, r: Stores, x: Write)
    requires Alike(s, r)
    ensures Alike(Put(s, x), Put(r, x))
  {
    if x.TradeWrite? {
      assert FreshId(r.trades, x.trade.id) <==> FreshId(s.trades, x.trade.id);
      forall id ensures FreshId(r.trades + [x.trade], id) <==> FreshId(s.trades + [x.trade], id) {
        FreshAppend(r.trades, x.trade, id);
        FreshAppend(s.trades, x.trade, id);
      }
      forall k ensures Filter(r.trades + [x.trade], OfStock(k)) == Filter(s.trades + [x.trade], OfStock(k)) {
        ListGrows(r.trades, [x.trade], k);
        ListGrows(s.trades, [x.trade], k);
      }
    }
  }

  lemma AlikeTransitive(s: Stores, r: Stores, q: Stores)
    requires Alike(s, r) && Alike(r, q)
    ensures Alike(s, q)
  {
    forall id ensures FreshId(q.trades, id) <==> FreshId(s.trades, id) { assert FreshId(r.trades, id) <==> FreshId(s.trades, id); }
    forall k ensures Filter(q.trades, OfStock(k)) == Filter(s.trades, OfStock(k)) { assert Filter(r.trades, OfStock(k)) == Filter(s.trades, OfStock(k)); }
  }

  ghost predicate AllIndependent(xs: seq<Write>, ys: seq<Write>) {
    forall i, j :: 0 <= i < |xs| && 0 <= j < |ys| ==> Independent(xs[i], ys[j])
  }

  /** A write may go before all those it is independent of. */
  lemma {:induction false} MoveBefore(s: Stores, ys: seq<Write>, x: Write)
    requires forall j :: 0 <= j < |ys| ==> Independent(x, ys[j])
    ensures Alike(PutAll(Put(s, x), ys), Put(PutAll(s, ys), x))
  {
    if ys != [] {
      var front, y := ys[..|ys| - 1], ys[|ys| - 1];
      MoveBefore(s, front, x);
      PutAlike(PutAll(Put(s, x), front), Put(PutAll(s, front), x), y);
      WritesCommute(PutAll(s, front), x, y);
      AlikeTransitive(PutAll(Put(s, x), ys), Put(Put(PutAll(s, front), x), y), Put(PutAll(s, ys), x));
    }
  }

  /** The writes of two matchers as they fell, each matcher's in its own order. */
  ghost predicate Mixed(xs: seq<Write>, ys: seq<Write>, mix: seq<Write>)
    decreases |mix|
  {
    if mix == [] then xs == [] && ys == []
    else
      || (xs != [] && xs[|xs| - 1] == mix[|mix| - 1] && Mixed(xs[..|xs| - 1], ys, mix[..|mix| - 1]))
      || (ys != [] && ys[|ys| - 1] == mix[|mix| - 1] && Mixed(xs, ys[..|ys| - 1], mix[..|mix| - 1]))
  }

  /** However they fell, the stores are as if one matcher had written first. */
  lemma {:induction false} MixingDoesNotMatter(s: Stores, xs: seq<Write>, ys: seq<Write>, mix: seq<Write>)
    requires Mixed(xs, ys, mix) && AllIndependent(xs, ys)
    ensures Alike(PutAll(PutAll(s, xs), ys), PutAll(s, mix))
    decreases |mix|
  {
    if mix != [] {
      var front, z := mix[..|mix| - 1], mix[|mix| - 1];
      if ys != [] && ys[|ys| - 1] == z && Mixed(xs, ys[..|ys| - 1], front) {
        MixingDoesNotMatter(s, xs, ys[..|ys| - 1], front);
        PutAlike(PutAll(PutAll(s, xs), ys[..|ys| - 1]), PutAll(s, front), z);
      } else {
        var xs' := xs[..|xs| - 1];
        MixingDoesNotMatter(s, xs', ys, front);
        MoveBefore(PutAll(s, xs'), ys, z);
        PutAlike(PutAll(PutAll(s, xs'), ys), PutAll(s, front), z);
        AlikeTransitive(PutAll(PutAll(s, xs), ys), Put(PutAll(PutAll(s, xs'), ys), z), PutAll(s, mix));
      }
    }
  }

  // ------------------------------------------------ an iteration as writes

  function StoresOf(w: World): Stores {
    Stores(w.trades, w.orders, w.tickers, w.books)
  }

  function QtyOf(s: Sweep): int
    requires CanMatch(s)
  {
    Min(s.incoming.Remaining(), (if s.incoming.side == Buy then s.desk.book.asks[0] else s.desk.book.bids[0]).remaining)
  }

  function PassivePrice(s: Sweep): int
    requires CanMatch(s)
  {
    (if s.incoming.side == Buy then s.desk.book.asks[0] else s.desk.book.bids[0]).order.price
  }

  /** A saved trade, both orders, the ticker; or the snapshot when an order is done. */
  function WritesOf(c: Config, w: World, k: string): seq<Write>
    requires k in w.lines
  {
    var m := w.lines[k];
    if m.cur.None? then []
    else
      var s := Sweep(m.desk, m.cur.value);
      if !CanMatch(s) then [BookWrite(k, DepthOf(Finish(s).book, DEPTH_LEVELS))]
      else if !Saves(c, w) then []
      else
        var (buy, sell) := Parties(s);
        [TradeWrite(MakeTrade(w.issued, m.desk.stock, buy, sell, QtyOf(s), PassivePrice(s))),
         OrderWrite(buy.AfterFill(QtyOf(s))), OrderWrite(sell.AfterFill(QtyOf(s))),
         TickerWrite(k, PassivePrice(s), QtyOf(s))]
  }

  lemma PutMore(s: Stores, xs: seq<Write>, x: Write)
    ensures PutAll(s, xs + [x]) == Put(PutAll(s, xs), x)
  {
    assert (xs + [x])[..|xs|] == xs;
  }

  lemma PutFour(s: Stores, a: Write, b: Write, x: Write, y: Write)
    ensures PutAll(s, [a, b, x, y]) == Put(Put(Put(Put(s, a), b), x), y)
  {
    assert [a, b, x, y] == [a, b, x] + [y] && [a, b, x] == [a, b] + [x] && [a, b] == [a] + [b];
    PutMore(s, [a, b, x], y);
    PutMore(s, [a, b], x);
    PutMore(s, [a], b);
    PutOne(s, a);
  }

  lemma PutOne(s: Stores, a: Write)
    ensures PutAll(s, [a]) == Put(s, a)
  {
    assert [a][..0] == [];
  }

  /** What a match leaves in the stores. */
  lemma MatchWrites(ok: nat -> bool, s: Sweep)
    requires CanMatch(s)
    ensures var r, (buy, sell), n := StepMatch(ok, s), Parties(s), |s.desk.log|;
      && r.desk.store == (if ok(n) then UpdateStore(UpdateStore(s.desk.store, buy.AfterFill(QtyOf(s))), sell.AfterFill(QtyOf(s))) else s.desk.store)
      && |r.desk.log| == n + 1 && r.desk.log[n].saved == ok(n)
      && r.desk.log[n].trade == MakeTrade(n, s.desk.stock, buy, sell, QtyOf(s), PassivePrice(s))
  {
  }

  /** A turn leaves the stores its writes leave. */
  lemma TurnIsWrites(c: Config, w: World, k: string)
    requires k in w.lines
    ensures StoresOf(TurnOf(c, w, k)) == PutAll(StoresOf(w), WritesOf(c, w, k))
  {
    var m := w.lines[k];
    if m.cur.None? {
      IdleTurn(c, w, k);
    } else if !CanMatch(Sweep(m.desk, m.cur.value)) {
      FinishedTurn(c, w, k);
    } else if Saves(c, w) {
      MatchedTurn(c, w, k);
    } else {
      RefusedTurn(c, w, k);
    }
  }

  lemma IdleTurn(c: Config, w: World, k: string)
    requires k in w.lines && w.lines[k].cur.None?
    ensures StoresOf(TurnOf(c, w, k)) == StoresOf(w)
  {
    assert w.trades + [] == w.trades;
  }

  lemma FinishedTurn(c: Config, w: World, k: string)
    requires k in w.lines && w.lines[k].cur.Some? && !CanMatch(Sweep(w.lines[k].desk, w.lines[k].cur.value))
    ensures StoresOf(TurnOf(c, w, k)) == PutAll(StoresOf(w), WritesOf(c, w, k))
  {
    var m := w.lines[k];
    PutOne(StoresOf(w), BookWrite(k, DepthOf(Finish(Sweep(m.desk, m.cur.value)).book, DEPTH_LEVELS)));
    assert w.trades + [] == w.trades;
  }

  /** The attempt of a match, as the exchange sees it. */
  lemma MatchNews(c: Config, w: World, k: string) returns (s: Sweep)
    requires k in w.lines && w.lines[k].cur.Some? && CanMatch(Sweep(w.lines[k].desk, w.lines[k].cur.value))
    ensures s == Sweep(w.lines[k].desk, w.lines[k].cur.value)
    ensures var (buy, sell), saved, r := Parties(s), Saves(c, w), Moved(c, w, k);
      && r.cur.Some?
      && r.desk.store == (if saved then UpdateStore(UpdateStore(w.orders, buy.AfterFill(QtyOf(s))), sell.AfterFill(QtyOf(s))) else w.orders)
      && Exchange.Booked(News(w.lines[k], r), w.issued)
         == if saved then [MakeTrade(w.issued, s.desk.stock, buy, sell, QtyOf(s), PassivePrice(s))] else []
  {
    var m := w.lines[k];
    s := Sweep(m.desk, m.cur.value);
    MatchWrites(Constantly(Saves(c, w)), Sweep(Lend(m, w.orders).desk, m.cur.value));
  }

  lemma RefusedTurn(c: Config, w: World, k: string)
    requires k in w.lines && w.lines[k].cur.Some? && CanMatch(Sweep(w.lines[k].desk, w.lines[k].cur.value)) && !Saves(c, w)
    ensures StoresOf(TurnOf(c, w, k)) == StoresOf(w)
  {
    var s := MatchNews(c, w, k);
    assert w.trades + [] == w.trades;
  }

  lemma MatchedTurn(c: Config, w: World, k: string)
    requires k in w.lines && w.lines[k].cur.Some? && CanMatch(Sweep(w.lines[k].desk, w.lines[k].cur.value)) && Saves(c, w)
    ensures StoresOf(TurnOf(c, w, k)) == PutAll(StoresOf(w), WritesOf(c, w, k))
  {
    var s := MatchNews(c, w, k);
    var (buy, sell) := Parties(s);
    var t := MakeTrade(w.issued, s.desk.stock, buy, sell, QtyOf(s), PassivePrice(s));
    PutFour(StoresOf(w), TradeWrite(t), OrderWrite(buy.AfterFill(QtyOf(s))), OrderWrite(sell.AfterFill(QtyOf(s))), TickerWrite(k, PassivePrice(s), QtyOf(s)));
  }

  // ---------------------------------------------------- overlapping turns

  /** A write of this matcher: its stock, its orders, and this trade ID. */
  ghost predicate OwnWrite(x: Write, k: string, m: Micro, id: nat) {
    match x
    case TradeWrite(t) => t.stock == m.desk.stock && t.id == id
    case OrderWrite(o) => o.id in Places(m)
    case TickerWrite(l, _, _) => l == k
    case BookWrite(l, _) => l == k
  }

  lemma PartiesPlaced(m: Micro, s: Sweep)
    requires m.cur.Some? && s == Sweep(m.desk, m.cur.value) && CanMatch(s)
    ensures Parties(s).0.id in Places(m) && Parties(s).1.id in Places(m)
  {
    PlacesHave(m);
  }

  lemma WritesAreOwn(c: Config, w: World, k: string)
    requires k in w.lines
    ensures forall i :: 0 <= i < |WritesOf(c, w, k)| ==> OwnWrite(WritesOf(c, w, k)[i], k, w.lines[k], w.issued)
  {
    var m := w.lines[k];
    if m.cur.Some? && CanMatch(Sweep(m.desk, m.cur.value)) {
      PartiesPlaced(m, Sweep(m.desk, m.cur.value));
    }
  }

  lemma TradeDrawsId(c: Config, w: World, k: string, i: nat)
    requires k in w.lines && i < |WritesOf(c, w, k)| && WritesOf(c, w, k)[i].TradeWrite?
    ensures TurnOf(c, w, k).issued == w.issued + 1
  {
    var s := MatchNews(c, w, k);
  }

  lemma OwnApart(x: Write, y: Write, j: string, k: string, l: Micro, m: Micro, id: nat, other: nat)
    requires OwnWrite(x, j, l, id) && OwnWrite(y, k, m, other) && j != k && l.desk.stock != m.desk.stock
    requires x.TradeWrite? ==> id != other
    requires forall o :: o in Places(l) ==> o !in Places(m)
    ensures Independent(x, y)
  {
  }

  /** The writes of two matchers concern other trades, orders, tickers and snapshots. */
  lemma TurnsIndependent(c: Config, evs: seq<Event>, j: string, k: string)
    requires Protocol(evs) && j in c.stocks && k in c.stocks && j != k
    ensures var w := After(c, evs);
      && j in w.lines && k in TurnOf(c, w, j).lines
      && AllIndependent(WritesOf(c, w, j), WritesOf(c, TurnOf(c, w, j), k))
  {
    var w := After(c, evs);
    var l := LineLedger(c, evs, j);
    var m := LineLedger(c, evs, k);
    LinesAlways(c, evs, j);
    LinesAlways(c, evs, k);
    var r := TurnOf(c, w, j);
    assert r.lines[k] == m;
    forall id | id in Places(l) ensures id !in Places(m) { PlacesApart(c, evs, j, k, id); }
    IndependentWrites(c, w, r, j, k, l, m);
  }

  lemma IndependentWrites(c: Config, w: World, r: World, j: string, k: string, l: Micro, m: Micro)
    requires j in w.lines && k in r.lines && r == TurnOf(c, w, j) && w.lines[j] == l && r.lines[k] == m
    requires j != k && l.desk.stock != m.desk.stock && forall o :: o in Places(l) ==> o !in Places(m)
    ensures AllIndependent(WritesOf(c, w, j), WritesOf(c, r, k))
  {
    WritesAreOwn(c, w, j);
    WritesAreOwn(c, r, k);
    var xs, ys := WritesOf(c, w, j), WritesOf(c, r, k);
    forall i, n | 0 <= i < |xs| && 0 <= n < |ys| ensures Independent(xs[i], ys[n]) {
      if xs[i].TradeWrite? {
        TradeDrawsId(c, w, j, i);
      }
      OwnApart(xs[i], ys[n], j, k, l, m, w.issued, r.issued);
    }
  }

  /** Two iterations of different stocks whose writes to the shared stores overlap, write
      by write in any way, leave the stores the two iterations leave one after the
      other. */
  lemma OverlapDoesNotMatter(c: Config, evs: seq<Event>, j: string, k: string, mix: seq<Write>)
    requires Protocol(evs) && j in c.stocks && k in c.stocks && j != k
    requires j in After(c, evs).lines && k in TurnOf(c, After(c, evs), j).lines
    requires Mixed(WritesOf(c, After(c, evs), j), WritesOf(c, TurnOf(c, After(c, evs), j), k), mix)
    ensures Alike(StoresOf(TurnOf(c, TurnOf(c, After(c, evs), j), k)), PutAll(StoresOf(After(c, evs)), mix))
  {
    var w := After(c, evs);
    var r := TurnOf(c, w, j);
    TurnsIndependent(c, evs, j, k);
    TurnIsWrites(c, w, j);
    TurnIsWrites(c, r, k);
    MixingDoesNotMatter(StoresOf(w), WritesOf(c, w, j), WritesOf(c, r, k), mix);
  }
}
