/** The per-stock matcher as the program runs it: order objects shared between
    the caller and the book entries, repositories written as it goes. Its two
    loops are proved to compute the sweep of module Matching. */
module Matchers {
  import opened Entities
  import opened StableSort
  import opened BookSpec
  import opened DepthSpec
  import opened Matching
  import opened BookInvariant
  import opened OrderBooks
  import opened Repositories
  import opened TradeFacts

  /** Trade storage behind its interface: the n-th Save succeeds when `ok(n)`. */
  class TradeStore {
    const ok: nat -> bool
    var attempts: nat
    var trades: seq<Trade>

    constructor (ok: nat -> bool)
      ensures this.ok == ok && attempts == 0 && trades == []
    {
      this.ok, attempts, trades := ok, 0, [];
    }

    method Save(t: Trade) returns (saved: bool)
      modifies this
      ensures saved == ok(old(attempts)) && attempts == old(attempts) + 1
      ensures trades == if saved then old(trades) + [t] else old(trades)
    {
      saved := ok(attempts);
      attempts := attempts + 1;
      if saved {
        trades := trades + [t];
      }
    }
  }

  /** The repository in memory does as a store that never fails: saved there too, an
      attempt under the next ID gives the same answer and the same list. */
  method SaveInMemory(store: TradeStore, repo: TradeRepo, t: Trade) returns (saved: bool)
    requires repo.Valid() && repo.all == store.trades && store.ok(store.attempts)
    requires t.id == store.attempts && forall i :: 0 <= i < |repo.all| ==> repo.all[i].id < store.attempts
    modifies store, repo
    ensures saved && store.trades == old(store.trades) + [t] && store.attempts == old(store.attempts) + 1
    ensures repo.Valid() && repo.all == store.trades
    ensures forall i :: 0 <= i < |repo.all| ==> repo.all[i].id < store.attempts
  {
    var inStore := store.Save(t);
    saved := repo.Save(t);
  }

  class Matcher {
    const stock: string
    const book: OrderBook
    const orderRepo: OrderRepo
    const tradeRepo: TradeStore
    const marketRepo: MarketRepo
    ghost var log: seq<Attempt>
    ghost const ticker0: Option<TickerVal>

    constructor (stock: string, orderRepo: OrderRepo, tradeRepo: TradeStore, marketRepo: MarketRepo)
      requires orderRepo.Valid() && tradeRepo.attempts == 0 && tradeRepo.trades == []
      ensures Valid() && this.orderRepo == orderRepo && this.tradeRepo == tradeRepo && this.marketRepo == marketRepo
      ensures State() == NewDesk(stock, orderRepo.View()) && fresh(book)
    {
      this.stock := stock;
      book := new OrderBook();
      this.orderRepo, this.tradeRepo, this.marketRepo := orderRepo, tradeRepo, marketRepo;
      log, ticker0 := [], marketRepo.TickerOf(stock);
    }

    /** The desk of module Matching this matcher stands for. */
    ghost function State(): Desk
      requires orderRepo.Valid()
      reads this, book, book.bids, book.asks, OrdersOf(book.bids), OrdersOf(book.asks), orderRepo, orderRepo.Stored()
    {
      Desk(stock, book.View(), log, book.gone, orderRepo.View())
    }

    /** The stores hold what the log says, and the ticker sums it up. */
    ghost predicate StoresAgree()
      reads this`log, orderRepo, tradeRepo, marketRepo`tickers, marketRepo.tickers.Values
    {
      && orderRepo.Valid()
      && tradeRepo.attempts == |log| && tradeRepo.trades == Saved(log)
      && marketRepo.TickerOf(stock) == match ticker0 case None => None case Some(t) => Some(TickerAfter(t, Saved(log)))
    }

    ghost predicate Apart()
      reads book, orderRepo
    {
      && (forall e :: e in book.bids ==> e.order !in orderRepo.Stored())
      && (forall e :: e in book.asks ==> e.order !in orderRepo.Stored())
    }

    ghost predicate Valid()
      reads this, book, book.bids, book.asks, OrdersOf(book.bids), OrdersOf(book.asks)
      reads orderRepo, tradeRepo, marketRepo`tickers, marketRepo.tickers.Values
    {
      StoresAgree() && Apart() && BookInv(book.View())
    }

    /** Fills both orders and brings their stored copies up to date. */
    method FillBoth(buy: Order, sell: Order, qty: int)
      requires orderRepo.Valid() && buy != sell && {buy, sell} !! orderRepo.Stored()
      modifies buy, sell, orderRepo.Stored()
      ensures orderRepo.Valid() && orderRepo.ordered == old(orderRepo.ordered) && orderRepo.byID == old(orderRepo.byID)
      ensures buy.View() == old(buy.View()).AfterFill(qty)
      ensures sell.View() == old(sell.View()).AfterFill(qty)
      ensures orderRepo.View() == UpdateStore(UpdateStore(old(orderRepo.View()), buy.View()), sell.View())
    {
      ghost var stored := orderRepo.View();
      buy.Fill(qty);
      sell.Fill(qty);
      assert orderRepo.View() == stored;
      ghost var buyVal, sellVal := buy.View(), sell.View();
      var found := orderRepo.Update(buy);
      found := orderRepo.Update(sell);
      assert buy.View() == buyVal && sell.View() == sellVal;
    }

    method SaveTrade(trade: Trade, ghost aggressor: Side) returns (saved: bool)
      requires StoresAgree()
      modifies tradeRepo, this`log
      ensures tradeRepo.attempts == |log| && tradeRepo.trades == Saved(log)
      ensures saved == tradeRepo.ok(|old(log)|) && log == old(log) + [Attempt(trade, saved, aggressor)]
      ensures Saved(log) == if saved then Saved(old(log)) + [trade] else Saved(old(log))
    {
      saved := tradeRepo.Save(trade);
      log := log + [Attempt(trade, saved, aggressor)];
      assert log[..|log| - 1] == old(log);
    }

    method UpdateTicker(trade: Trade, ghost before: seq<Trade>)
      requires marketRepo.TickerOf(stock) == match ticker0 case None => None case Some(t) => Some(TickerAfter(t, before))
      modifies marketRepo`tickers
      ensures marketRepo.TickerOf(stock) == match ticker0 case None => None case Some(t) => Some(TickerAfter(t, before + [trade]))
    {
      var ticker := marketRepo.UpdateTickerFromTrade(stock, trade.price, trade.quantity);
      assert (before + [trade])[..|before|] == before;
    }

    /** What a saved trade does to the orders, their stored copies and the ticker. */
    method Settle(buy: Order, sell: Order, trade: Trade, ghost before: seq<Trade>)
      requires orderRepo.Valid() && buy != sell && {buy, sell} !! orderRepo.Stored()
      requires marketRepo.TickerOf(stock) == match ticker0 case None => None case Some(t) => Some(TickerAfter(t, before))
      modifies buy, sell, orderRepo.Stored(), marketRepo`tickers
      ensures orderRepo.Valid() && orderRepo.ordered == old(orderRepo.ordered) && orderRepo.byID == old(orderRepo.byID)
      ensures buy.View() == old(buy.View()).AfterFill(trade.quantity)
      ensures sell.View() == old(sell.View()).AfterFill(trade.quantity)
      ensures orderRepo.View() == UpdateStore(UpdateStore(old(orderRepo.View()), buy.View()), sell.View())
      ensures marketRepo.TickerOf(stock) == match ticker0 case None => None case Some(t) => Some(TickerAfter(t, before + [trade]))
    {
      FillBoth(buy, sell, trade.quantity);
      ghost var stored, buyVal, sellVal := orderRepo.View(), buy.View(), sell.View();
      UpdateTicker(trade, before);
      assert orderRepo.View() == stored && buy.View() == buyVal && sell.View() == sellVal;
    }

    /** Records the trade and, if that worked, fills both orders and updates their
        stored copies and the ticker. If it did not, nothing else happens. */
    method ExecuteTrade(buy: Order, sell: Order, qty: int, price: int, ghost aggressor: Side)
      requires StoresAgree() && buy != sell && {buy, sell} !! orderRepo.Stored()
      modifies buy, sell, orderRepo.Stored(), tradeRepo, marketRepo`tickers, this`log
      ensures StoresAgree() && orderRepo.ordered == old(orderRepo.ordered) && orderRepo.byID == old(orderRepo.byID)
      ensures Traded(Attempt(MakeTrade(|old(log)|, stock, old(buy.View()), old(sell.View()), qty, price), tradeRepo.ok(|old(log)|), aggressor),
                     old(log), log, old(buy.View()), buy.View(), old(sell.View()), sell.View(), old(orderRepo.View()), orderRepo.View())
    {
      var trade := Trade(tradeRepo.attempts, stock, buy.id, sell.id, buy.userId, sell.userId, price, qty);
      ghost var stored, buyVal, sellVal := orderRepo.View(), buy.View(), sell.View();
      var saved := SaveTrade(trade, aggressor);
      assert orderRepo.View() == stored && buy.View() == buyVal && sell.View() == sellVal;
      if !saved {
        return;
      }
      Settle(buy, sell, trade, Saved(old(log)));
    }

    /** The best ask shares no object with another entry, and `buy` rests nowhere. */
    ghost predicate AskAlone(buy: Order)
      reads book
    {
      && book.asks != []
      && (forall i :: 0 <= i < |book.bids| ==>
            book.bids[i] != book.asks[0] && book.bids[i].order != book.asks[0].order && book.bids[i].order != buy)
      && (forall i :: 0 <= i < |book.asks| ==> book.asks[i].order != buy)
      && (forall i :: 1 <= i < |book.asks| ==> book.asks[i] != book.asks[0] && book.asks[i].order != book.asks[0].order)
    }

    /** IDs are unique, so the best ask stands alone, and so does a buy order that
        reaches it: were it resting, the book would be crossed. */
    lemma BestAskAlone(buy: Order)
      requires BookInv(book.View()) && book.asks != [] && buy.side == Buy && book.asks[0].order.price <= buy.price
      ensures AskAlone(buy)
    {
      var b := book.View();
      assert b.asks[0].order.id in Ids(b.asks);
      forall i | 0 <= i < |book.bids|
        ensures book.bids[i] != book.asks[0] && book.bids[i].order != book.asks[0].order && book.bids[i].order != buy {
        assert b.bids[i].order.id in Ids(b.bids);
        assert b.bids[i].order.price < b.asks[0].order.price;
      }
      forall i | 0 <= i < |book.asks| ensures book.asks[i].order != buy {
        assert b.asks[i].order.side == Sell;
      }
      forall i | 1 <= i < |book.asks| ensures book.asks[i] != book.asks[0] && book.asks[i].order != book.asks[0].order {
        assert b.asks[0].order.id != b.asks[i].order.id;
      }
    }

    method TakeOff(best: OrderEntry, qty: int)
      requires StoresAgree()
      modifies best`remaining
      ensures StoresAgree() && orderRepo.View() == old(orderRepo.View())
      ensures best.remaining == old(best.remaining) - qty
    {
      ghost var stored := orderRepo.View();
      best.remaining := best.remaining - qty;
      assert orderRepo.View() == stored;
    }

    /** An order that is done leaves no trace in the book. */
    method Retire(o: Order)
      requires StoresAgree()
      modifies book`gone
      ensures StoresAgree() && orderRepo.View() == old(orderRepo.View())
      ensures book.View() == old(book.View()) && book.gone == old(book.gone) + [o.View()]
    {
      ghost var b, stored := book.View(), orderRepo.View();
      book.gone := book.gone + [o.View()];
      assert book.View() == b;
      assert orderRepo.View() == stored;
    }

    method RemoveFromBook(id: string)
      requires StoresAgree()
      modifies book`bids, book`asks, book`index
      ensures StoresAgree() && orderRepo.View() == old(orderRepo.View())
      ensures book.View() == RemoveOrder(old(book.View()), id)
      ensures forall e :: e in book.bids ==> e in old(book.bids)
      ensures forall e :: e in book.asks ==> e in old(book.asks)
    {
      ghost var stored := orderRepo.View();
      book.RemoveOrder(id);
      assert orderRepo.View() == stored;
    }

    /** Removes an order with nothing left from the book. */
    method Drop(o: Order)
      requires StoresAgree()
      modifies book
      ensures StoresAgree() && orderRepo.View() == old(orderRepo.View())
      ensures book.View() == RemoveOrder(old(book.View()), o.id) && book.gone == old(book.gone) + [o.View()]
      ensures forall e :: e in book.bids ==> e in old(book.bids)
      ensures forall e :: e in book.asks ==> e in old(book.asks)
    {
      Retire(o);
      RemoveFromBook(o.id);
    }

    ghost predicate LeadsAsk(best: OrderEntry)
      reads book
    {
      && book.asks != [] && best == book.asks[0]
      && (forall i :: 0 <= i < |book.bids| ==> book.bids[i] != best)
      && (forall i :: 1 <= i < |book.asks| ==> book.asks[i] != best)
    }

    /** Takes qty off the best ask and drops it when nothing is left. `b` is the
        book before the trade that changed its order. */
    method ChargeBestAsk(best: OrderEntry, qty: int, ghost b: Book, ghost left: int)
      requires StoresAgree() && left == best.remaining - qty && LeadsAsk(best)
      requires b.asks != [] && book.View() == b.(asks := b.asks[0 := best.View()])
      modifies book, best`remaining
      ensures StoresAgree()
      ensures book.View() == ChargeAsk(b, best.order.View(), left)
      ensures book.gone == if left <= 0 then old(book.gone) + [best.order.View()] else old(book.gone)
      ensures best.order.View() == old(best.order.View()) && orderRepo.View() == old(orderRepo.View())
      ensures forall e :: e in book.bids ==> e in old(book.bids)
      ensures forall e :: e in book.asks ==> e in old(book.asks)
    {
      ghost var bids, asks, sell := Views(book.bids), Views(book.asks), best.order.View();
      ChargeOverwrites(b, best.View(), sell, left);
      TakeOff(best, qty);
      assert Views(book.bids) == bids;
      assert Views(book.asks) == asks[0 := Resting(sell, best.remaining)];
      if best.remaining <= 0 {
        Drop(best.order);
      }
    }

    /** The trade reaches the book through the shared order object alone. */
    method ExecuteAtAsk(buy: Order, best: OrderEntry, qty: int)
      requires StoresAgree() && Apart() && AskAlone(buy) && buy !in orderRepo.Stored() && best == book.asks[0]
      modifies buy, best.order, orderRepo.Stored(), tradeRepo, marketRepo`tickers, this`log
      ensures StoresAgree() && orderRepo.ordered == old(orderRepo.ordered) && orderRepo.byID == old(orderRepo.byID)
      ensures Traded(Attempt(MakeTrade(|old(log)|, stock, old(buy.View()), old(best.order.View()), qty, best.order.price), tradeRepo.ok(|old(log)|), Buy),
                     old(log), log, old(buy.View()), buy.View(), old(best.order.View()), best.order.View(), old(orderRepo.View()), orderRepo.View())
      ensures book.View() == old(book.View()).(asks := old(book.View()).asks[0 := Resting(best.order.View(), best.remaining)])
    {
      ghost var b := book.View();
      ExecuteTrade(buy, best.order, qty, best.order.price, Buy);
      assert book.View().bids == b.bids;
      assert book.View().asks == b.asks[0 := Resting(best.order.View(), best.remaining)];
    }

    /** One trade with the best ask, told by its effects. */
    method TradeWithAsk(buy: Order, best: OrderEntry, qty: int, ghost b: Book, ghost left: int)
      requires b == book.View() && left == best.remaining - qty
      requires StoresAgree() && Apart() && AskAlone(buy) && buy !in orderRepo.Stored() && best == book.asks[0]
      modifies this`log, book, best, best.order, buy, orderRepo.Stored(), tradeRepo, marketRepo`tickers
      ensures StoresAgree() && orderRepo.ordered == old(orderRepo.ordered)
      ensures Traded(Attempt(MakeTrade(|old(log)|, stock, old(buy.View()), old(best.order.View()), qty, best.order.price), tradeRepo.ok(|old(log)|), Buy),
                     old(log), log, old(buy.View()), buy.View(), old(best.order.View()), best.order.View(), old(orderRepo.View()), orderRepo.View())
      ensures book.View() == ChargeAsk(b, best.order.View(), left)
      ensures book.gone == if left <= 0 then old(book.gone) + [best.order.View()] else old(book.gone)
      ensures forall e :: e in book.bids ==> e in old(book.bids)
      ensures forall e :: e in book.asks ==> e in old(book.asks)
    {
      assert LeadsAsk(best);
      ExecuteAtAsk(buy, best, qty);
      ghost var now, attempts, stored, passive := buy.View(), log, orderRepo.View(), best.order.View();
      ChargeBestAsk(best, qty, b, left);
      assert log == attempts && buy.View() == now && orderRepo.View() == stored && best.order.View() == passive;
    }

    /** The body of the buy loop. */
    method HitAsk(buy: Order, best: OrderEntry)
      requires StoresAgree() && Apart() && AskAlone(buy) && buy !in orderRepo.Stored()
      requires CanBuy(Sweep(State(), buy.View())) && best == book.asks[0]
      modifies this`log, book, best, best.order, buy, orderRepo.Stored(), tradeRepo, marketRepo`tickers
      ensures StoresAgree() && Apart() && orderRepo.ordered == old(orderRepo.ordered)
      ensures Sweep(State(), buy.View()) == StepBuy(tradeRepo.ok, old(Sweep(State(), buy.View())))
      ensures forall e :: e in book.bids ==> e in old(book.bids)
      ensures forall e :: e in book.asks ==> e in old(book.asks)
    {
      ghost var s := Sweep(State(), buy.View());
      var qty := Min(buy.RemainingQuantity(), best.remaining);
      ghost var left := best.remaining - qty;
      assert s.desk.book.asks[0].remaining == best.remaining;
      TradeWithAsk(buy, best, qty, s.desk.book, left);
      StepBuyIs(tradeRepo.ok, s, qty, left, Sweep(State(), buy.View()), best.order.View());
    }

    /** One turn of the buy loop, which leaves less to sweep. */
    method BuyOnce(buy: Order, best: OrderEntry, ghost cur: Sweep) returns (ghost next: Sweep)
      requires StoresAgree() && Apart() && buy !in orderRepo.Stored() && best == book.BestAsk()
      requires cur == Sweep(State(), buy.View()) && BookInv(cur.desk.book) && CanBuy(cur) && buy.side == Buy
      modifies this`log, book, best, best.order, buy, orderRepo.Stored(), tradeRepo, marketRepo`tickers
      ensures StoresAgree() && Apart() && orderRepo.ordered == old(orderRepo.ordered)
      ensures next == Sweep(State(), buy.View()) && next == StepBuy(tradeRepo.ok, cur) && BookInv(next.desk.book)
      ensures SweepAll(tradeRepo.ok, next) == SweepAll(tradeRepo.ok, cur) && 0 <= Opposite(next) < Opposite(cur)
      ensures forall e :: e in book.bids ==> e in old(book.bids)
      ensures forall e :: e in book.asks ==> e in old(book.asks)
    {
      assert cur.desk.book.asks[0] == best.View();
      BestAskAlone(buy);
      HitAsk(buy, best);
      next := SweepOneStep(tradeRepo.ok, cur);
    }

    /** Matches a buy order against resting asks. */
    method MatchBuy(buy: Order)
      requires Valid() && buy !in orderRepo.Stored() && buy.side == Buy
      modifies this`log, book, book.asks, OrdersOf(book.asks), buy, orderRepo.Stored(), tradeRepo, marketRepo`tickers
      ensures Valid() && orderRepo.ordered == old(orderRepo.ordered)
      ensures Sweep(State(), buy.View()) == SweepAll(tradeRepo.ok, old(Sweep(State(), buy.View())))
      ensures forall e :: e in book.bids ==> e in old(book.bids)
      ensures forall e :: e in book.asks ==> e in old(book.asks)
    {
      ghost var ok := tradeRepo.ok;
      ghost var cur := Sweep(State(), buy.View());
      ghost var end := SweepAll(ok, cur);
      var best := book.BestAsk();
      while best != null && best.order.price <= buy.price && buy.RemainingQuantity() > 0
        invariant StoresAgree() && Apart() && orderRepo.ordered == old(orderRepo.ordered) && best == book.BestAsk()
        invariant forall e :: e in book.bids ==> e in old(book.bids)
        invariant forall e :: e in book.asks ==> e in old(book.asks)
        invariant cur == Sweep(State(), buy.View()) && cur.incoming.side == Buy
        invariant BookInv(cur.desk.book) && SweepAll(ok, cur) == end
        decreases Opposite(cur)
      {
        assert best in old(book.asks) && best.order in old(OrdersOf(book.asks));
        cur := BuyOnce(buy, best, cur);
        best := book.BestAsk();
      }
    }

    /** The best bid shares no object with another entry, and `sell` rests nowhere. */
    ghost predicate BidAlone(sell: Order)
      reads book
    {
      && book.bids != []
      && (forall i :: 0 <= i < |book.asks| ==>
            book.asks[i] != book.bids[0] && book.asks[i].order != book.bids[0].order && book.asks[i].order != sell)
      && (forall i :: 0 <= i < |book.bids| ==> book.bids[i].order != sell)
      && (forall i :: 1 <= i < |book.bids| ==> book.bids[i] != book.bids[0] && book.bids[i].order != book.bids[0].order)
    }

    /** IDs are unique, so the best bid stands alone, and so does a sell order that
        reaches it: were it resting, the book would be crossed. */
    lemma BestBidAlone(sell: Order)
      requires BookInv(book.View()) && book.bids != [] && sell.side == Sell && book.bids[0].order.price >= sell.price
      ensures BidAlone(sell)
    {
      var b := book.View();
      assert b.bids[0].order.id in Ids(b.bids);
      forall i | 0 <= i < |book.asks|
        ensures book.asks[i] != book.bids[0] && book.asks[i].order != book.bids[0].order && book.asks[i].order != sell {
        assert b.asks[i].order.id in Ids(b.asks);
        assert b.bids[0].order.price < b.asks[i].order.price;
      }
      forall i | 0 <= i < |book.bids| ensures book.bids[i].order != sell {
        assert b.bids[i].order.side == Buy;
      }
      forall i | 1 <= i < |book.bids| ensures book.bids[i] != book.bids[0] && book.bids[i].order != book.bids[0].order {
        assert b.bids[0].order.id != b.bids[i].order.id;
      }
    }

    ghost predicate LeadsBid(best: OrderEntry)
      reads book
    {
      && book.bids != [] && best == book.bids[0]
      && (forall i :: 0 <= i < |book.asks| ==> book.asks[i] != best)
      && (forall i :: 1 <= i < |book.bids| ==> book.bids[i] != best)
    }

    /** Takes qty off the best bid and drops it when nothing is left. `b` is the
        book before the trade that changed its order. */
    method ChargeBestBid(best: OrderEntry, qty: int, ghost b: Book, ghost left: int)
      requires StoresAgree() && left == best.remaining - qty && LeadsBid(best)
      requires b.bids != [] && book.View() == b.(bids := b.bids[0 := best.View()])
      modifies book, best`remaining
      ensures StoresAgree()
      ensures book.View() == ChargeBid(b, best.order.View(), left)
      ensures book.gone == if left <= 0 then old(book.gone) + [best.order.View()] else old(book.gone)
      ensures best.order.View() == old(best.order.View()) && orderRepo.View() == old(orderRepo.View())
      ensures forall e :: e in book.asks ==> e in old(book.asks)
      ensures forall e :: e in book.bids ==> e in old(book.bids)
    {
      ghost var asks, bids, buy := Views(book.asks), Views(book.bids), best.order.View();
      ChargeOverwrites(b, best.View(), buy, left);
      TakeOff(best, qty);
      assert Views(book.asks) == asks;
      assert Views(book.bids) == bids[0 := Resting(buy, best.remaining)];
      if best.remaining <= 0 {
        Drop(best.order);
      }
    }

    /** The trade reaches the book through the shared order object alone. */
    method ExecuteAtBid(sell: Order, best: OrderEntry, qty: int)
      requires StoresAgree() && Apart() && BidAlone(sell) && sell !in orderRepo.Stored() && best == book.bids[0]
      modifies sell, best.order, orderRepo.Stored(), tradeRepo, marketRepo`tickers, this`log
      ensures StoresAgree() && orderRepo.ordered == old(orderRepo.ordered) && orderRepo.byID == old(orderRepo.byID)
      ensures Traded(Attempt(MakeTrade(|old(log)|, stock, old(best.order.View()), old(sell.View()), qty, best.order.price), tradeRepo.ok(|old(log)|), Sell),
                     old(log), log, old(best.order.View()), best.order.View(), old(sell.View()), sell.View(), old(orderRepo.View()), orderRepo.View())
      ensures book.View() == old(book.View()).(bids := old(book.View()).bids[0 := Resting(best.order.View(), best.remaining)])
    {
      ghost var b := book.View();
      ExecuteTrade(best.order, sell, qty, best.order.price, Sell);
      assert book.View().asks == b.asks;
      assert book.View().bids == b.bids[0 := Resting(best.order.View(), best.remaining)];
    }

    /** One trade with the best bid, told by its effects. */
    method TradeWithBid(sell: Order, best: OrderEntry, qty: int, ghost b: Book, ghost left: int)
      requires b == book.View() && left == best.remaining - qty
      requires StoresAgree() && Apart() && BidAlone(sell) && sell !in orderRepo.Stored() && best == book.bids[0]
      modifies this`log, book, best, best.order, sell, orderRepo.Stored(), tradeRepo, marketRepo`tickers
      ensures StoresAgree() && orderRepo.ordered == old(orderRepo.ordered)
      ensures Traded(Attempt(MakeTrade(|old(log)|, stock, old(best.order.View()), old(sell.View()), qty, best.order.price), tradeRepo.ok(|old(log)|), Sell),
                     old(log), log, old(best.order.View()), best.order.View(), old(sell.View()), sell.View(), old(orderRepo.View()), orderRepo.View())
      ensures book.View() == ChargeBid(b, best.order.View(), left)
      ensures book.gone == if left <= 0 then old(book.gone) + [best.order.View()] else old(book.gone)
      ensures forall e :: e in book.asks ==> e in old(book.asks)
      ensures forall e :: e in book.bids ==> e in old(book.bids)
    {
      assert LeadsBid(best);
      ExecuteAtBid(sell, best, qty);
      ghost var now, attempts, stored, passive := sell.View(), log, orderRepo.View(), best.order.View();
      ChargeBestBid(best, qty, b, left);
      assert log == attempts && sell.View() == now && orderRepo.View() == stored && best.order.View() == passive;
    }

    /** The body of the sell loop. */
    method HitBid(sell: Order, best: OrderEntry)
      requires StoresAgree() && Apart() && BidAlone(sell) && sell !in orderRepo.Stored()
      requires CanSell(Sweep(State(), sell.View())) && best == book.bids[0]
      modifies this`log, book, best, best.order, sell, orderRepo.Stored(), tradeRepo, marketRepo`tickers
      ensures StoresAgree() && Apart() && orderRepo.ordered == old(orderRepo.ordered)
      ensures Sweep(State(), sell.View()) == StepSell(tradeRepo.ok, old(Sweep(State(), sell.View())))
      ensures forall e :: e in book.asks ==> e in old(book.asks)
      ensures forall e :: e in book.bids ==> e in old(book.bids)
    {
      ghost var s := Sweep(State(), sell.View());
      var qty := Min(sell.RemainingQuantity(), best.remaining);
      ghost var left := best.remaining - qty;
      assert s.desk.book.bids[0].remaining == best.remaining;
      TradeWithBid(sell, best, qty, s.desk.book, left);
      StepSellIs(tradeRepo.ok, s, qty, left, Sweep(State(), sell.View()), best.order.View());
    }

    /** One turn of the sell loop, which leaves less to sweep. */
    method SellOnce(sell: Order, best: OrderEntry, ghost cur: Sweep) returns (ghost next: Sweep)
      requires StoresAgree() && Apart() && sell !in orderRepo.Stored() && best == book.BestBid()
      requires cur == Sweep(State(), sell.View()) && BookInv(cur.desk.book) && CanSell(cur) && sell.side == Sell
      modifies this`log, book, best, best.order, sell, orderRepo.Stored(), tradeRepo, marketRepo`tickers
      ensures StoresAgree() && Apart() && orderRepo.ordered == old(orderRepo.ordered)
      ensures next == Sweep(State(), sell.View()) && next == StepSell(tradeRepo.ok, cur) && BookInv(next.desk.book)
      ensures SweepAll(tradeRepo.ok, next) == SweepAll(tradeRepo.ok, cur) && 0 <= Opposite(next) < Opposite(cur)
      ensures forall e :: e in book.asks ==> e in old(book.asks)
      ensures forall e :: e in book.bids ==> e in old(book.bids)
    {
      assert cur.desk.book.bids[0] == best.View();
      BestBidAlone(sell);
      HitBid(sell, best);
      next := SweepOneStep(tradeRepo.ok, cur);
    }

    /** Matches a sell order against resting bids. */
    method MatchSell(sell: Order)
      requires Valid() && sell !in orderRepo.Stored() && sell.side == Sell
      modifies this`log, book, book.bids, OrdersOf(book.bids), sell, orderRepo.Stored(), tradeRepo, marketRepo`tickers
      ensures Valid() && orderRepo.ordered == old(orderRepo.ordered)
      ensures Sweep(State(), sell.View()) == SweepAll(tradeRepo.ok, old(Sweep(State(), sell.View())))
      ensures forall e :: e in book.asks ==> e in old(book.asks)
      ensures forall e :: e in book.bids ==> e in old(book.bids)
    {
      ghost var ok := tradeRepo.ok;
      ghost var cur := Sweep(State(), sell.View());
      ghost var end := SweepAll(ok, cur);
      var best := book.BestBid();
      while best != null && best.order.price >= sell.price && sell.RemainingQuantity() > 0
        invariant StoresAgree() && Apart() && orderRepo.ordered == old(orderRepo.ordered) && best == book.BestBid()
        invariant forall e :: e in book.asks ==> e in old(book.asks)
        invariant forall e :: e in book.bids ==> e in old(book.bids)
        invariant cur == Sweep(State(), sell.View()) && cur.incoming.side == Sell
        invariant BookInv(cur.desk.book) && SweepAll(ok, cur) == end
        decreases Opposite(cur)
      {
        assert best in old(book.bids) && best.order in old(OrdersOf(book.bids));
        cur := SellOnce(sell, best, cur);
        best := book.BestBid();
      }
    }

    method StoreSnapshot(snapshot: Depth)
      requires StoresAgree()
      modifies marketRepo`books
      ensures StoresAgree() && book.View() == old(book.View()) && orderRepo.View() == old(orderRepo.View())
      ensures marketRepo.books == if stock in old(marketRepo.books) then old(marketRepo.books)[stock := snapshot] else old(marketRepo.books)
    {
      ghost var stored, b := orderRepo.View(), book.View();
      var found := marketRepo.UpdateOrderBook(stock, snapshot);
      assert book.View() == b;
      assert orderRepo.View() == stored;
    }

    /** Stores the depth of the live book, if the stock was initialised. */
    method PublishOrderBook()
      requires Valid()
      modifies marketRepo`books
      ensures Valid() && State() == old(State())
      ensures marketRepo.books == if stock in old(marketRepo.books)
        then old(marketRepo.books)[stock := DepthOf(old(book.View()), 10)] else old(marketRepo.books)
    {
      ghost var b, stored := book.View(), orderRepo.View();
      var snapshot := book.GetDepth(DEPTH_LEVELS);
      assert book.View() == b && orderRepo.View() == stored;
      StoreSnapshot(snapshot);
    }

    /** The sweep, by the side of the order. */
    method SweepWith(incoming: Order)
      requires Valid() && incoming !in orderRepo.Stored()
      modifies this`log, book, book.bids, book.asks, OrdersOf(book.bids), OrdersOf(book.asks), incoming, orderRepo.Stored(), tradeRepo, marketRepo`tickers
      ensures Valid() && orderRepo.ordered == old(orderRepo.ordered)
      ensures Sweep(State(), incoming.View()) == SweepAll(tradeRepo.ok, old(Sweep(State(), incoming.View())))
      ensures forall e :: e in book.bids ==> e in old(book.bids)
      ensures forall e :: e in book.asks ==> e in old(book.asks)
    {
      match incoming.side {
        case Buy => MatchBuy(incoming);
        case Sell => MatchSell(incoming);
      }
    }

    method AddToBook(o: Order)
      requires StoresAgree() && Sorted(book.View().bids, BidKey) && Sorted(book.View().asks, AskKey)
      modifies book`bids, book`asks, book`index
      ensures StoresAgree() && orderRepo.View() == old(orderRepo.View())
      ensures book.View() == BookSpec.AddOrder(old(book.View()), o.View())
      ensures forall e :: e in book.bids ==> e in old(book.bids) || (fresh(e) && e.order == o)
      ensures forall e :: e in book.asks ==> e in old(book.asks) || (fresh(e) && e.order == o)
    {
      ghost var stored := orderRepo.View();
      book.AddOrder(o);
      assert orderRepo.View() == stored;
    }

    /** Puts what is left of an order into the book. */
    method Rest(incoming: Order)
      requires StoresAgree() && Apart() && incoming !in orderRepo.Stored()
      requires Sorted(book.View().bids, BidKey) && Sorted(book.View().asks, AskKey)
      modifies book
      ensures StoresAgree() && Apart()
      ensures State() == Finish(old(Sweep(State(), incoming.View())))
      ensures forall e :: e in book.bids ==> e in old(book.bids) || (fresh(e) && e.order == incoming)
      ensures forall e :: e in book.asks ==> e in old(book.asks) || (fresh(e) && e.order == incoming)
    {
      if incoming.IsActive() && incoming.RemainingQuantity() > 0 {
        AddToBook(incoming);
      } else {
        Retire(incoming);
      }
    }

    /** The sweep and the rest of the order, which keep the matcher valid. */
    method SweepAndRest(incoming: Order)
      requires Valid() && incoming !in orderRepo.Stored()
      modifies this`log, book, book.bids, book.asks, OrdersOf(book.bids), OrdersOf(book.asks), incoming, orderRepo.Stored(), tradeRepo, marketRepo`tickers
      ensures Valid() && orderRepo.ordered == old(orderRepo.ordered)
      ensures PositiveBook(old(State()).book) && State() == Matching.MatchOrder(tradeRepo.ok, old(State()), old(incoming.View()))
      ensures incoming.View() == SweepAll(tradeRepo.ok, old(Sweep(State(), incoming.View()))).incoming
      ensures forall e :: e in book.bids ==> e in old(book.bids) || (fresh(e) && e.order == incoming)
      ensures forall e :: e in book.asks ==> e in old(book.asks) || (fresh(e) && e.order == incoming)
    {
      SweepWith(incoming);
      ghost var s := Sweep(State(), incoming.View());
      FinishInv(s);
      Rest(incoming);
    }

    /** Processes one order: the object-sharing program computes the value-level
        MatchOrder, and the stored snapshot is the depth of the new book. */
    method MatchOrder(incoming: Order)
      requires Valid() && incoming !in orderRepo.Stored()
      modifies this`log, book, book.bids, book.asks, OrdersOf(book.bids), OrdersOf(book.asks), incoming
      modifies orderRepo.Stored(), tradeRepo, marketRepo
      ensures Valid() && orderRepo.ordered == old(orderRepo.ordered)
      ensures PositiveBook(old(State()).book) && State() == Matching.MatchOrder(tradeRepo.ok, old(State()), old(incoming.View()))
      ensures incoming.View() == SweepAll(tradeRepo.ok, old(Sweep(State(), incoming.View()))).incoming
      ensures marketRepo.books == if stock in old(marketRepo.books)
        then old(marketRepo.books)[stock := DepthOf(book.View(), 10)] else old(marketRepo.books)
      ensures forall e :: e in book.bids ==> e in old(book.bids) || (fresh(e) && e.order == incoming)
      ensures forall e :: e in book.asks ==> e in old(book.asks) || (fresh(e) && e.order == incoming)
    {
      SweepAndRest(incoming);
      ghost var now := incoming.View();
      PublishOrderBook();
      assert incoming.View() == now;
    }

    /** The order objects of the book. */
    ghost function Met(): set<Order>
      reads book
    {
      OrdersOf(book.bids) + OrdersOf(book.asks)
    }

    static ghost function ValuesOfAll(os: seq<Order>): (vs: seq<OrderVal>)
      reads Objects(os)
      ensures |vs| == |os| && forall i :: 0 <= i < |vs| ==> vs[i] == os[i].View()
    {
      seq(|os|, i requires 0 <= i < |os| reads Objects(os) => os[i].View())
    }

    ghost function Entries(): set<OrderEntry>
      reads book
    {
      (set e | e in book.bids) + (set e | e in book.asks)
    }

    static ghost function Objects(os: seq<Order>): set<Order> {
      set o | o in os
    }

    static ghost predicate Distinct(ch: seq<Order>) {
      forall i, j :: 0 <= i < j < |ch| ==> ch[i] != ch[j]
    }

    /** Processing an order leaves the book no order objects but those it had and the
        new one. */
    method MatchTracked(o: Order)
      requires Valid() && o !in orderRepo.Stored()
      modifies this`log, book, Entries(), Met(), o, orderRepo.Stored(), tradeRepo, marketRepo
      ensures Valid() && orderRepo.ordered == old(orderRepo.ordered)
      ensures PositiveBook(old(State()).book) && State() == Matching.MatchOrder(tradeRepo.ok, old(State()), old(o.View()))
      ensures Met() <= old(Met()) + {o} && forall e :: e in Entries() ==> e in old(Entries()) || fresh(e)
    {
      MatchOrder(o);
    }

    /** One turn of the goroutine leaves the orders still queued as they are. */
    method RunOne(o: Order, ghost rest: seq<Order>)
      requires Valid() && o !in orderRepo.Stored() && Objects(rest) !! Met() + orderRepo.Stored() + {o}
      modifies this`log, book, Entries(), Met(), o, orderRepo.Stored(), tradeRepo, marketRepo
      ensures Valid() && orderRepo.ordered == old(orderRepo.ordered)
      ensures PositiveBook(old(State()).book) && State() == Matching.MatchOrder(tradeRepo.ok, old(State()), old(o.View()))
      ensures Met() <= old(Met()) + {o} && forall e :: e in Entries() ==> e in old(Entries()) || fresh(e)
      ensures ValuesOfAll(rest) == old(ValuesOfAll(rest))
    {
      MatchTracked(o);
    }

    /** The orders still queued after i turns: none met yet, and as they came. */
    ghost predicate Queued(ch: seq<Order>, vs: seq<OrderVal>, i: nat)
      requires i <= |ch| == |vs|
      reads book, orderRepo, Objects(ch[i..])
    {
      Objects(ch[i..]) !! Met() + orderRepo.Stored() && ValuesOfAll(ch[i..]) == vs[i..]
    }

    /** The desk after i turns, from d. */
    ghost predicate RanTo(d: Desk, vs: seq<OrderVal>, i: nat)
      requires orderRepo.Valid() && i <= |vs| && PositiveBook(d.book)
      reads this, book, book.bids, book.asks, OrdersOf(book.bids), OrdersOf(book.asks), orderRepo, orderRepo.Stored()
    {
      State() == Matching.Run(tradeRepo.ok, d, vs[..i])
    }

    static lemma TailValues(ch: seq<Order>, vs: seq<OrderVal>, i: nat)
      requires i < |ch| == |vs| && ValuesOfAll(ch[i..]) == vs[i..]
      ensures ValuesOfAll(ch[i + 1..]) == vs[i + 1..] && ch[i].View() == vs[i]
    {
      assert ch[i..][0] == ch[i] && vs[i..][0] == vs[i];
      assert ch[i + 1..] == ch[i..][1..] && vs[i + 1..] == vs[i..][1..];
    }

    static lemma StillQueued(ch: seq<Order>, i: nat)
      requires i < |ch| && Distinct(ch)
      ensures ch[i] !in Objects(ch[i + 1..]) && Objects(ch[i..]) == Objects(ch[i + 1..]) + {ch[i]}
    {
      assert ch[i..] == [ch[i]] + ch[i + 1..];
    }

    /** The i-th turn. */
    method RunTurn(ch: seq<Order>, i: nat, ghost vs: seq<OrderVal>, ghost d: Desk) returns (next: nat)
      requires i < |ch| == |vs| && Valid() && Queued(ch, vs, i)
      requires Distinct(ch)
      requires PositiveBook(d.book) && RanTo(d, vs, i)
      modifies this`log, book, Entries(), Met(), ch[i], orderRepo.Stored(), tradeRepo, marketRepo
      ensures next == i + 1 && Valid() && orderRepo.Stored() == old(orderRepo.Stored())
      ensures Queued(ch, vs, next) && RanTo(d, vs, next)
      ensures Met() <= old(Met()) + {ch[i]} && forall e :: e in Entries() ==> e in old(Entries()) || fresh(e)
    {
      next := i + 1;
      ghost var rest, left, was := ch[next..], vs[next..], State();
      StillQueued(ch, i);
      TailValues(ch, vs, i);
      RunOneMore(tradeRepo.ok, d, vs, next);
      assert Matching.Run(tradeRepo.ok, d, vs[..next]) == Matching.MatchOrder(tradeRepo.ok, was, ch[i].View());
      RunOne(ch[i], rest);
      assert ValuesOfAll(rest) == left && Objects(rest) !! Met() + orderRepo.Stored();
    }

    /** All the turns. */
    method RunAll(ch: seq<Order>, ghost vs: seq<OrderVal>, ghost d: Desk)
      requires |ch| == |vs| && Valid() && Queued(ch, vs, 0) && PositiveBook(d.book) && RanTo(d, vs, 0)
      requires Distinct(ch)
      modifies this`log, book, Entries(), Met(), ch, orderRepo.Stored(), tradeRepo, marketRepo
      ensures Valid() && RanTo(d, vs, |ch|)
    {
      ghost var met, entries, stored := Met(), Entries(), orderRepo.Stored();
      var i := 0;
      while i < |ch|
        invariant i <= |ch| && Valid() && orderRepo.Stored() == stored && Queued(ch, vs, i) && RanTo(d, vs, i)
        invariant Met() <= met + Objects(ch)
        invariant forall e :: e in Entries() ==> e in entries || fresh(e)
      {
        assert ch[i] in Objects(ch);
        i := RunTurn(ch, i, vs, d);
      }
    }

    /** The goroutine of this matcher: the orders of its channel, one after the other. */
    method RunQueue(ch: seq<Order>)
      requires Valid() && Objects(ch) !! Met() + orderRepo.Stored()
      requires Distinct(ch)
      modifies this`log, book, Entries(), Met(), ch, orderRepo.Stored(), tradeRepo, marketRepo
      ensures Valid() && PositiveBook(old(State()).book)
      ensures State() == Matching.Run(tradeRepo.ok, old(State()), old(ValuesOfAll(ch)))
    {
      ghost var vs, d := ValuesOfAll(ch), State();
      assert ch[0..] == ch && vs[0..] == vs && vs[..0] == [] && vs[..|ch|] == vs;
      RunAll(ch, vs, d);
    }
  }
}
