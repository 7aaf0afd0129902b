/** What the runs of single stocks say about the whole exchange: quantities, the order
    in which things happen not mattering, draining, and best execution, all of it read
    off the shared stores. */
module ExchangeFacts {
  import opened Entities
  import opened BookSpec
  import opened Matching
  import opened BookInvariant
  import opened Ledger
  import opened Conservation
  import opened Optimality
  import opened TradeFacts
  import opened Exchange
  import opened SharedTrades
  import opened SharedOrders

  const ALWAYS := Constantly(true)

  /** Quantities and money do not depend on trade IDs. */
  lemma {:induction false} SameTotals(ts: seq<Trade>, us: seq<Trade>)
    requires Unnumbered(ts) == Unnumbered(us)
    ensures Volume(ts) == Volume(us) && Cost(ts) == Cost(us)
  {
    assert |ts| == |Unnumbered(ts)| == |us|;
    if ts != [] {
      var n := |ts| - 1;
      assert Unnumbered(ts)[n] == Unnumbered(us)[n];
      assert Unnumbered(ts[..n]) == Unnumbered(ts)[..n] == Unnumbered(us)[..n] == Unnumbered(us[..n]);
      SameTotals(ts[..n], us[..n]);
    }
  }

  lemma ListTotals(c: Config, evs: seq<Event>, k: string)
    requires k in c.stocks
    ensures var w := After(c, evs);
      && k in w.lines
      && Volume(TradesOf(w, k)) == Volume(Saved(w.lines[k].desk.log)) && Cost(TradesOf(w, k)) == Cost(Saved(w.lines[k].desk.log))
  {
    StoresAlways(c, evs);
    assert ListInv(After(c, evs), k);
    SameTotals(TradesOf(After(c, evs), k), Saved(After(c, evs).lines[k].desk.log));
  }

  // ------------------------------------------------------------ quantities

  /** Every accepted order is in exactly one place: queued, in hand, resting, done. */
  lemma EveryOrderOnce(c: Config, evs: seq<Event>, k: string)
    requires Protocol(evs) && k in c.stocks
    ensures k in After(c, evs).lines && Places(After(c, evs).lines[k]) == multiset(OrderIds(Accepted(c, evs, k)))
  {
    var m := LineLedger(c, evs, k);
  }

  /** Per stock and side, whatever interleaves and whatever saves fail: accepted =
      queued + in hand + resting + traded + lost to unsaved trades, with what was
      traded read off the shared list; and the book is sound. */
  lemma ExchangeConserves(c: Config, evs: seq<Event>, k: string, side: Side)
    requires Protocol(evs) && k in c.stocks
    ensures var w := After(c, evs);
      && k in w.lines && BookInv(w.lines[k].desk.book)
      && Quantity(Accepted(c, evs, k), side)
         == Quantity(w.lines[k].inbox, side) + CurQty(w.lines[k].cur, side) + RestingQty(w.lines[k].desk.book, side)
            + Volume(TradesOf(w, k)) + LostOn(w.lines[k].desk.log, side)
  {
    AcceptedNew(c, evs, k);
    var m := LineLedger(c, evs, k);
    var n := EveryStockSequential(c, evs, k);
    Conserved(Heard(m.desk.log), k, map[], Accepted(c, evs, k), n, side);
    ListTotals(c, evs, k);
  }

  /** On memory stores, without further assumption: entries never drift from their
      orders, whoever is done is filled in full, and as much was bought as was sold. */
  lemma MemoryExact(c: Config, evs: seq<Event>, k: string)
    requires InMemory(c) && Protocol(evs) && k in c.stocks
    ensures var w, os := After(c, evs), Accepted(c, evs, k);
      && k in w.lines
      && (forall v :: v in w.lines[k].desk.gone ==> v.status == Status.Filled && v.filled == v.quantity)
      && (forall e :: e in w.lines[k].desk.book.bids + w.lines[k].desk.book.asks ==> e.remaining == e.order.Remaining())
      && (forall side :: Quantity(os, side)
            == Quantity(w.lines[k].inbox, side) + CurQty(w.lines[k].cur, side) + RestingQty(w.lines[k].desk.book, side) + Volume(TradesOf(w, k)))
  {
    AcceptedNew(c, evs, k);
    MemoryNeverFails(c, evs);
    var n := EveryStockSequential(c, evs, k);
    var log := After(c, evs).lines[k].desk.log;
    assert AllSaved(log);
    NoFaultExact(Heard(log), k, map[], Accepted(c, evs, k), n);
    forall side { MemoryConserves(c, evs, k, side); }
  }

  lemma MemoryConserves(c: Config, evs: seq<Event>, k: string, side: Side)
    requires InMemory(c) && Protocol(evs) && k in c.stocks
    ensures var w := After(c, evs);
      && k in w.lines
      && Quantity(Accepted(c, evs, k), side)
         == Quantity(w.lines[k].inbox, side) + CurQty(w.lines[k].cur, side) + RestingQty(w.lines[k].desk.book, side) + Volume(TradesOf(w, k))
  {
    ExchangeConserves(c, evs, k, side);
    MemoryNeverFails(c, evs);
    var log := After(c, evs).lines[k].desk.log;
    assert AllSaved(log);
    NothingLost(log, "", side);
  }

  // ------------------------------------------------- the shared trade list

  /** Between an accepted buy and an accepted sell, named with their users, at the limit
      of one of them and within the limit of the other. */
  ghost predicate FairTrade(t: Trade, os: seq<OrderVal>) {
    exists buy, sell :: buy in os && sell in os && FairParties(t, buy, sell)
  }

  ghost predicate FairParties(t: Trade, buy: OrderVal, sell: OrderVal) {
    && buy.side == Buy && sell.side == Sell
    && t.buyOrderId == buy.id && t.sellOrderId == sell.id && t.buyerId == buy.userId && t.sellerId == sell.userId
    && sell.price <= t.price <= buy.price && (t.price == sell.price || t.price == buy.price)
  }

  /** Every trade of k in the one list is fair, whatever interleaves and whatever saves
      fail. */
  lemma ListIsFair(c: Config, evs: seq<Event>, k: string, i: nat)
    requires Protocol(evs) && k in c.stocks && i < |TradesOf(After(c, evs), k)|
    ensures FairTrade(TradesOf(After(c, evs), k)[i], Accepted(c, evs, k))
  {
    var w, os := After(c, evs), Accepted(c, evs, k);
    AcceptedNew(c, evs, k);
    var n := EveryStockSequential(c, evs, k);
    var log := w.lines[k].desk.log;
    TradesAlwaysFair(Heard(log), k, map[], os, n);
    StoresAlways(c, evs);
    assert ListInv(w, k);
    SavedIsFair(log, TradesOf(w, k), os, i);
  }

  lemma SavedIsFair(log: seq<Attempt>, ts: seq<Trade>, os: seq<OrderVal>, i: nat)
    requires AllFair(log, os) && Unnumbered(ts) == Unnumbered(Saved(log)) && i < |ts|
    ensures FairTrade(ts[i], os)
  {
    assert |ts| == |Unnumbered(ts)| == |Saved(log)|;
    var j := SavedComesFromLog(log, i);
    assert Unnumbered(ts)[i] == Unnumbered(Saved(log))[i];
    assert Fair(log[j], os);
    var buy, sell :| buy in os && sell in os && FairBetween(log[j], buy, sell);
    assert FairParties(ts[i], buy, sell);
  }

  /** The ticker of a stock that has one, whatever it was at the start, follows the
      stock's trades in the one list: from a zero ticker it holds their sum, maximum,
      minimum and last. */
  lemma ListTicker(c: Config, evs: seq<Event>, k: string)
    requires Protocol(evs) && k in c.stocks && k in c.tickers
    requires forall i :: 0 <= i < |Accepted(c, evs, k)| ==> Accepted(c, evs, k)[i].price >= 1
    ensures var w := After(c, evs);
      && k in w.tickers
      && var t, ts := w.tickers[k], TradesOf(w, k);
        && Follows(c.tickers[k], ts, t)
        && (c.tickers[k] == ZERO_TICKER ==> t.volume == Volume(ts))
        && (c.tickers[k] == ZERO_TICKER && ts != [] ==> IsMax(t.high, ts) && IsMin(t.low, ts) && t.last == ts[|ts| - 1].price)
  {
    var w := After(c, evs);
    StoresAlways(c, evs);
    assert TickerInv(c, w, k);
    forall i | 0 <= i < |TradesOf(w, k)| ensures TradesOf(w, k)[i].price >= 1 {
      ListIsFair(c, evs, k, i);
    }
    TickerFollows(c.tickers[k], TradesOf(w, k));
  }

  // -------------------------------------- the order of things does not matter

  /** How far the run of these orders is: the queue is their end, and what came before
      has been processed, but for the one in hand. */
  ghost predicate MidRun(ok: nat -> bool, k: string, os: seq<OrderVal>, m: Micro) {
    && |m.inbox| <= |os| && m.inbox == os[|os| - |m.inbox|..]
    && var j, d := |os| - |m.inbox|, NewDesk(k, map[]);
      && (m.cur.None? ==> m.desk == Run(ok, d, os[..j]))
      && (m.cur.Some? ==>
            && j > 0 && PositiveBook(m.desk.book)
            && SweepAll(ok, Sweep(m.desk, m.cur.value)) == SweepAll(ok, Sweep(Run(ok, d, os[..j - 1]), os[j - 1])))
  }

  lemma StepKeepsMidRun(ok: nat -> bool, k: string, os: seq<OrderVal>, m: Micro)
    requires MidRun(ok, k, os, m)
    ensures MidRun(ok, k, os, MicroStep(ok, m))
  {
    var j, d := |os| - |m.inbox|, NewDesk(k, map[]);
    if m.cur.None? {
      if m.inbox != [] {
        assert os[j..][0] == os[j] && os[j..][1..] == os[j + 1..];
      }
    } else if CanMatch(Sweep(m.desk, m.cur.value)) {
      StepProgress(ok, Sweep(m.desk, m.cur.value));
    } else {
      RunOneMore(ok, d, os, j);
    }
  }

  lemma {:induction false} RunIsMidRun(ok: nat -> bool, k: string, os: seq<OrderVal>, n: nat)
    ensures MidRun(ok, k, os, At(ok, Start(k, map[], os), n))
  {
    if n == 0 {
      assert os[0..] == os && os[..0] == [];
    } else {
      RunIsMidRun(ok, k, os, n - 1);
      StepKeepsMidRun(ok, k, os, At(ok, Start(k, map[], os), n - 1));
    }
  }

  lemma MidRunHere(ok: nat -> bool, k: string, os: seq<OrderVal>, n: nat, m: Micro)
    requires m == At(ok, Start(k, map[], os), n)
    ensures MidRun(ok, k, os, m)
  {
    RunIsMidRun(ok, k, os, n);
  }

  /** At every moment a matcher has run exactly the accepted orders it took off its
      queue, one after the other; the last of them may still be in hand. */
  lemma BetweenOrders(c: Config, evs: seq<Event>, k: string)
    requires k in c.stocks
    ensures var w := After(c, evs).lines;
      k in w && MidRun(Heard(w[k].desk.log), k, Accepted(c, evs, k), w[k])
  {
    var n := EveryStockSequential(c, evs, k);
    var m := After(c, evs).lines[k];
    MidRunHere(Heard(m.desk.log), k, Accepted(c, evs, k), n, m);
  }

  /** The same on memory stores, where no oracle is left in it. */
  lemma MemoryBetweenOrders(c: Config, evs: seq<Event>, k: string)
    requires InMemory(c) && k in c.stocks
    ensures k in After(c, evs).lines && MidRun(ALWAYS, k, Accepted(c, evs, k), After(c, evs).lines[k])
  {
    MemoryNeverFails(c, evs);
    var n := EveryStockSequential(c, evs, k);
    var m := After(c, evs).lines[k];
    assert AllSaved(m.desk.log);
    AtAlways(m, k, Accepted(c, evs, k), n);
    MidRunHere(ALWAYS, k, Accepted(c, evs, k), n, m);
  }

  lemma AtAlways(m: Micro, k: string, os: seq<OrderVal>, n: nat)
    requires AllSaved(m.desk.log) && m == At(Heard(m.desk.log), Start(k, map[], os), n)
    ensures m == At(ALWAYS, Start(k, map[], os), n)
  {
    AtHears(Heard(m.desk.log), ALWAYS, Start(k, map[], os), n);
  }

  /** Two runs of the exchange over shared memory stores, with whatever going on at
      other stocks: if they accepted the same orders of k and have as many of them
      queued, then between orders the matcher is in the same state, and the stock's
      part of the trade list, its ticker and its snapshot are the same, trade IDs
      apart. */
  lemma InterleavingDoesNotMatter(c: Config, evs: seq<Event>, fvs: seq<Event>, k: string)
    requires InMemory(c) && k in c.stocks
    requires k in After(c, evs).lines && k in After(c, fvs).lines
    requires After(c, evs).lines[k].cur.None? && After(c, fvs).lines[k].cur.None?
    requires Accepted(c, evs, k) == Accepted(c, fvs, k)
    requires |After(c, evs).lines[k].inbox| == |After(c, fvs).lines[k].inbox|
    ensures var w, v := After(c, evs), After(c, fvs);
      && w.lines[k] == v.lines[k] && Unnumbered(TradesOf(w, k)) == Unnumbered(TradesOf(v, k))
      && (k in c.tickers ==>
            && k in w.tickers && k in v.tickers && w.tickers[k] == v.tickers[k]
            && k in w.books && k in v.books && w.books[k] == v.books[k])
  {
    MemoryBetweenOrders(c, evs, k);
    MemoryBetweenOrders(c, fvs, k);
    SameMidRun(ALWAYS, k, Accepted(c, evs, k), After(c, evs).lines[k], After(c, fvs).lines[k]);
    StoresAlways(c, evs);
    StoresAlways(c, fvs);
    SameStores(c, After(c, evs), After(c, fvs), k);
  }

  lemma SameMidRun(ok: nat -> bool, k: string, os: seq<OrderVal>, m: Micro, r: Micro)
    requires MidRun(ok, k, os, m) && MidRun(ok, k, os, r)
    requires m.cur.None? && r.cur.None? && |m.inbox| == |r.inbox|
    ensures m == r
  {
  }

  lemma SameStores(c: Config, w: World, v: World, k: string)
    requires StoresInv(c, w) && StoresInv(c, v) && k in c.stocks && w.lines[k] == v.lines[k] && w.lines[k].cur.None?
    ensures Unnumbered(TradesOf(w, k)) == Unnumbered(TradesOf(v, k))
    ensures k in c.tickers ==>
      && k in w.tickers && k in v.tickers && w.tickers[k] == v.tickers[k]
      && k in w.books && k in v.books && w.books[k] == v.books[k]
  {
    assert ListInv(w, k) && ListInv(v, k);
    if k in c.tickers {
      assert TickerInv(c, w, k) && TickerInv(c, v, k) && SnapshotInv(w, k) && SnapshotInv(v, k);
      SameTickers(c.tickers[k], TradesOf(w, k), TradesOf(v, k));
    }
  }

  lemma {:induction false} SameTickers(t: TickerVal, ts: seq<Trade>, us: seq<Trade>)
    requires Unnumbered(ts) == Unnumbered(us)
    ensures TickerAfter(t, ts) == TickerAfter(t, us)
  {
    assert |ts| == |Unnumbered(ts)| == |us|;
    if ts != [] {
      var n := |ts| - 1;
      assert Unnumbered(ts)[n] == Unnumbered(us)[n];
      assert Unnumbered(ts[..n]) == Unnumbered(ts)[..n] == Unnumbered(us)[..n] == Unnumbered(us[..n]);
      SameTickers(t, ts[..n], us[..n]);
    }
  }

  // -------------------------------------------------------- best execution

  /** The same sweep at two moments: both head for the same end. */
  ghost predicate SameSweep(s: Sweep, r: Sweep) {
    && PositiveBook(s.desk.book) && PositiveBook(r.desk.book)
    && SweepAll(ALWAYS, r) == SweepAll(ALWAYS, s)
    && r.incoming.Identity() == s.incoming.Identity()
  }

  lemma NextSweeps(c: Config, evs: seq<Event>, ev: Event, k: string)
    requires InMemory(c) && k in c.stocks && InHand(c, evs, k) && InHand(c, evs + [ev], k)
    ensures SameSweep(SweepOf(c, evs, k), SweepOf(c, evs + [ev], k))
  {
    var w := After(c, evs);
    LineIsSound(c, evs, k);
    StoresAlways(c, evs);
    OneEventMore(c, evs, ev);
    EventAtLine(c, w, ev, k);
    StepSweeps(w.lines[k], Step(c, w, ev).lines[k]);
  }

  /** While a matcher keeps the order in hand, its sweep heads for the same end, whatever
      the rest of the exchange does. */
  lemma {:induction false} SweepGoesOn(c: Config, evs: seq<Event>, i: nat, j: nat, k: string)
    requires InMemory(c) && k in c.stocks && i <= j <= |evs|
    requires forall t :: i <= t <= j ==> InHand(c, evs[..t], k)
    ensures SameSweep(SweepOf(c, evs[..i], k), SweepOf(c, evs[..j], k))
    decreases j - i
  {
    if i == j {
      LineIsSound(c, evs[..i], k);
    } else {
      SweepGoesOn(c, evs, i, j - 1, k);
      assert evs[..j] == evs[..j - 1] + [evs[j - 1]];
      assert InHand(c, evs[..j], k) && InHand(c, evs[..j - 1], k);
      NextSweeps(c, evs[..j - 1], evs[j - 1], k);
    }
  }

  ghost predicate InHand(c: Config, evs: seq<Event>, k: string) {
    k in After(c, evs).lines && After(c, evs).lines[k].cur.Some?
  }

  ghost function SweepOf(c: Config, evs: seq<Event>, k: string): Sweep
    requires InHand(c, evs, k)
  {
    Sweep(After(c, evs).lines[k].desk, After(c, evs).lines[k].cur.value)
  }

  lemma LineIsSound(c: Config, evs: seq<Event>, k: string)
    requires k in c.stocks
    ensures k in After(c, evs).lines && BookInv(After(c, evs).lines[k].desk.book)
    ensures NoCopies(After(c, evs))
  {
    var n := EveryStockSequential(c, evs, k);
    BookInvAlways(Heard(After(c, evs).lines[k].desk.log), k, map[], Accepted(c, evs, k), n);
    LinesAlways(c, evs, k);
  }

  /** An event of the exchange is a step of this matcher, or leaves its desk alone. */
  lemma EventAtLine(c: Config, w: World, ev: Event, k: string)
    requires InMemory(c) && NumberInv(w) && k in w.lines
    requires NoCopies(w)
    ensures k in Step(c, w, ev).lines
    ensures var m, r := w.lines[k], Step(c, w, ev).lines[k];
      r == MicroStep(ALWAYS, m) || (r.desk == m.desk && r.cur == m.cur)
  {
    StepAtLine(c, w, ev, k);
    if ev == Turn(k) {
      StepHears(Constantly(Saves(c, w)), ALWAYS, w.lines[k]);
    }
  }

  lemma StepSweeps(m: Micro, r: Micro)
    requires m.cur.Some? && r.cur.Some? && BookInv(m.desk.book)
    requires r == MicroStep(ALWAYS, m) || (r.desk == m.desk && r.cur == m.cur)
    ensures PositiveBook(r.desk.book)
    ensures SweepAll(ALWAYS, Sweep(r.desk, r.cur.value)) == SweepAll(ALWAYS, Sweep(m.desk, m.cur.value))
    ensures r.cur.value.Identity() == m.cur.value.Identity()
  {
    if r == MicroStep(ALWAYS, m) {
      assert CanMatch(Sweep(m.desk, m.cur.value));
      StepProgress(ALWAYS, Sweep(m.desk, m.cur.value));
    }
  }

  /** Best execution on memory stores. A buy in hand at moment i and swept out at moment
      j, with the rest of the exchange at work in between, bought exactly min(its
      remaining, what was offered within its limit), and no other split of that over
      the asks of moment i costs less than what the shared trade list shows for it. */
  lemma BoughtBest(c: Config, evs: seq<Event>, i: nat, j: nat, k: string, a: seq<int>)
    requires InMemory(c) && k in c.stocks && i <= j <= |evs|
    requires forall t :: i <= t <= j ==> InHand(c, evs[..t], k)
    requires SweepOf(c, evs[..i], k).incoming.side == Buy && !CanMatch(SweepOf(c, evs[..j], k))
    ensures var s, r := SweepOf(c, evs[..i], k), SweepOf(c, evs[..j], k);
            var done := r.incoming.filled - s.incoming.filled;
            var before, after := TradesOf(After(c, evs[..i]), k), TradesOf(After(c, evs[..j]), k);
      && done == Min(Max0(s.incoming.Remaining()), WithinAsks(s.desk.book.asks, s.incoming.price))
      && Volume(after) - Volume(before) == done
      && (Allocation(a, s.desk.book.asks) && Sum(a) == done ==> Cost(after) - Cost(before) <= Price(a, s.desk.book.asks))
  {
    SweepGoesOn(c, evs, i, j, k);
    LineIsSound(c, evs[..i], k);
    ListTotals(c, evs[..i], k);
    ListTotals(c, evs[..j], k);
    BuySweepOptimal(ALWAYS, SweepOf(c, evs[..i], k), a);
  }

  lemma SoldBest(c: Config, evs: seq<Event>, i: nat, j: nat, k: string, a: seq<int>)
    requires InMemory(c) && k in c.stocks && i <= j <= |evs|
    requires forall t :: i <= t <= j ==> InHand(c, evs[..t], k)
    requires SweepOf(c, evs[..i], k).incoming.side == Sell && !CanMatch(SweepOf(c, evs[..j], k))
    ensures var s, r := SweepOf(c, evs[..i], k), SweepOf(c, evs[..j], k);
            var done := r.incoming.filled - s.incoming.filled;
            var before, after := TradesOf(After(c, evs[..i]), k), TradesOf(After(c, evs[..j]), k);
      && done == Min(Max0(s.incoming.Remaining()), WithinBids(s.desk.book.bids, s.incoming.price))
      && Volume(after) - Volume(before) == done
      && (Allocation(a, s.desk.book.bids) && Sum(a) == done ==> Cost(after) - Cost(before) >= Price(a, s.desk.book.bids))
  {
    SweepGoesOn(c, evs, i, j, k);
    LineIsSound(c, evs[..i], k);
    ListTotals(c, evs[..i], k);
    ListTotals(c, evs[..j], k);
    SellSweepOptimal(ALWAYS, SweepOf(c, evs[..i], k), a);
  }

  // --------------------------------------------------- queues and draining

  /** A queue never exceeds its capacity. While its channel is open, an order for a
      listed stock is turned down exactly when the queue is full; once the channel has
      been closed the submit panics, full or not. */
  lemma {:induction false} QueuesBounded(c: Config, evs: seq<Event>, o: OrderVal)
    requires o.stock in c.stocks
    ensures var w := After(c, evs);
      && o.stock in w.lines && |w.lines[o.stock].inbox| <= 1000
      && (!w.crashed ==> (Outcome(w, o) == Panics <==> Close(o.stock) in evs))
      && (!w.crashed && Close(o.stock) !in evs ==>
            (Outcome(w, o) == QueueFull <==> |w.lines[o.stock].inbox| == 1000) && (Accepts(w, o) <==> Outcome(w, o) != QueueFull))
  {
    LinesAlways(c, evs, o.stock);
    if evs != [] {
      var front := evs[..|evs| - 1];
      QueuesBounded(c, front, o);
      LinesAlways(c, front, o.stock);
      InboxBounded(c, After(c, front), evs[|evs| - 1], o.stock);
    }
    if !After(c, evs).crashed {
      ClosedSoFar(c, evs, o.stock);
    }
  }

  lemma InboxBounded(c: Config, w: World, ev: Event, k: string)
    requires k in w.lines && NoCopies(w) && |w.lines[k].inbox| <= MATCHER_CHAN_CAP
    ensures k in Step(c, w, ev).lines && |Step(c, w, ev).lines[k].inbox| <= MATCHER_CHAN_CAP
  {
    StepAtLine(c, w, ev, k);
    InboxShrinks(Constantly(Saves(c, w)), w.lines[k]);
  }

  lemma InboxShrinks(ok: nat -> bool, m: Micro)
    ensures |MicroStep(ok, m).inbox| <= |m.inbox|
  {
  }

  predicate Idle(m: Micro) {
    m.cur.None? && m.inbox == []
  }

  /** The units of both sides a matcher still has, queued, in hand or resting. */
  function Units(m: Micro): int {
    Quantity(m.inbox, Buy) + Quantity(m.inbox, Sell) + CurQty(m.cur, Buy) + CurQty(m.cur, Sell)
    + RestingQty(m.desk.book, Buy) + RestingQty(m.desk.book, Sell)
  }

  /** A bound on the turns a matcher needs for what it has: taking up and finishing
      each order, and one iteration per unit at most. */
  function Pending(m: Micro): int {
    2 * |m.inbox| + (if m.cur.Some? then 1 else 0) + Units(m)
  }

  lemma {:induction false} QuantityNotNegative(os: seq<OrderVal>, side: Side)
    requires forall i :: 0 <= i < |os| ==> os[i].quantity >= 0
    ensures Quantity(os, side) >= 0
  {
    if os != [] {
      QuantityNotNegative(os[1..], side);
    }
  }

  lemma UnitsNotNegative(m: Micro, os: seq<OrderVal>)
    requires LedgerInv(m, os)
    ensures Units(m) >= 0
  {
    forall i | 0 <= i < |m.inbox| ensures m.inbox[i].quantity >= 0 { assert CurBooked(m.desk, os, m.inbox[i]); }
    QuantityNotNegative(m.inbox, Buy);
    QuantityNotNegative(m.inbox, Sell);
    TotalNotNegative(m.desk.book.bids);
    TotalNotNegative(m.desk.book.asks);
  }

  /** The units traded on both sides or lost. */
  function Settled(log: seq<Attempt>): int {
    2 * Volume(Saved(log)) + LostOn(log, Buy) + LostOn(log, Sell)
  }

  lemma StepSettles(ok: nat -> bool, m: Micro)
    requires m.cur.Some? && CanMatch(Sweep(m.desk, m.cur.value)) && PositiveBook(m.desk.book)
    ensures Settled(MicroStep(ok, m).desk.log) > Settled(m.desk.log)
  {
    var log, r := m.desk.log, MicroStep(ok, m).desk.log;
    var a := r[|log|];
    var best := if m.cur.value.side == Buy then m.desk.book.asks[0] else m.desk.book.bids[0];
    assert r == log + [a] && a.trade.quantity == Min(m.cur.value.Remaining(), best.remaining) && best.remaining > 0;
    LogTotals(log, a, Buy);
    LogTotals(log, a, Sell);
  }

  lemma PendingFalls(ok: nat -> bool, m: Micro, os: seq<OrderVal>)
    requires LedgerInv(m, os) && !Idle(m)
    ensures Pending(MicroStep(ok, m)) < Pending(m)
  {
    MicroConserves(ok, m, os, Buy);
    MicroConserves(ok, m, os, Sell);
    assert Units(m) + Settled(m.desk.log) == Held(m, Buy) + Held(m, Sell);
    if m.cur.Some? && CanMatch(Sweep(m.desk, m.cur.value)) {
      StepSettles(ok, m);
    }
  }

  function Turns(evs: seq<Event>, k: string): nat {
    if evs == [] then 0 else Turns(evs[..|evs| - 1], k) + if evs[|evs| - 1] == Turn(k) then 1 else 0
  }

  /** One event after the channel of k was closed, without a panic: a turn of k brings
      it nearer its end, and nothing else changes its matcher. */
  lemma ClosedStep(c: Config, evs: seq<Event>, ev: Event, k: string)
    requires Protocol(evs) && k in c.stocks && k in After(c, evs).closed && !Step(c, After(c, evs), ev).crashed
    ensures k in Step(c, After(c, evs), ev).closed && Taken(After(c, evs), ev, k) == []
    ensures var w, r := After(c, evs), Step(c, After(c, evs), ev);
      && k in w.lines && k in r.lines
      && if ev == Turn(k) && !Idle(w.lines[k]) then Pending(r.lines[k]) < Pending(w.lines[k]) else r.lines[k] == w.lines[k]
  {
    var m := LineLedger(c, evs, k);
    LinesAlways(c, evs, k);
    ClosedTurn(c, After(c, evs), ev, k, Accepted(c, evs, k));
  }

  lemma ClosedTurn(c: Config, w: World, ev: Event, k: string, os: seq<OrderVal>)
    requires k in w.closed && k in w.lines && LedgerInv(w.lines[k], os) && !Step(c, w, ev).crashed
    requires NoCopies(w)
    ensures k in Step(c, w, ev).closed && Taken(w, ev, k) == [] && k in Step(c, w, ev).lines
    ensures var m, r := w.lines[k], Step(c, w, ev).lines[k];
      if ev == Turn(k) && !Idle(m) then Pending(r) < Pending(m) else r == m
  {
    StepAtLine(c, w, ev, k);
    StepCloses(c, w, ev);
    if ev == Turn(k) && !Idle(w.lines[k]) {
      PendingFalls(Constantly(Saves(c, w)), w.lines[k], os);
    }
  }

  lemma {:induction false} ClosedOnlyDrains(c: Config, before: seq<Event>, after: seq<Event>, k: string)
    requires Protocol(before + after) && k in c.stocks && k in After(c, before).closed && !After(c, before + after).crashed
    ensures var w, r := After(c, before), After(c, before + after);
      && k in w.lines && k in r.lines && k in r.closed
      && Accepted(c, before + after, k) == Accepted(c, before, k)
      && (Idle(r.lines[k]) || Pending(r.lines[k]) + Turns(after, k) <= Pending(w.lines[k]))
  {
    if after == [] {
      assert before + after == before;
      LinesAlways(c, before, k);
    } else {
      var front, ev := after[..|after| - 1], after[|after| - 1];
      var evs := before + front;
      assert before + after == evs + [ev] && (evs + [ev])[..|evs|] == evs;
      ProtocolBefore(before + after, |evs|);
      OneEventMore(c, evs, ev);
      ClosedOnlyDrains(c, before, front, k);
      ClosedStep(c, evs, ev, k);
    }
  }

  /** Stop closes the channels and waits for the matchers to empty them. In a run that
      does not panic (CrashesExactly says which those are), nothing is accepted for a
      stock after its close, and once it has had the turns its orders need, everything
      accepted for it has been processed exactly once, in the order of acceptance,
      whatever the others do. */
  lemma StopProcessesEverything(c: Config, before: seq<Event>, after: seq<Event>, k: string)
    requires Protocol(before + [Close(k)] + after) && k in c.stocks && k in After(c, before).lines
    requires !LateSubmit(c, before + [Close(k)] + after)
    requires Turns(after, k) >= Pending(After(c, before).lines[k])
    ensures var w, os := After(c, before + [Close(k)] + after).lines, Accepted(c, before, k);
      && k in w && Idle(w[k]) && Accepted(c, before + [Close(k)] + after, k) == os
      && w[k].desk == Run(Heard(w[k].desk.log), NewDesk(k, map[]), os)
  {
    var closed := before + [Close(k)];
    CrashesExactly(c, closed + after);
    if After(c, closed).crashed {
      CrashIsFinal(c, closed, after);
    }
    OneEventMore(c, before, Close(k));
    ClosedOnlyDrains(c, closed, after, k);
    var m := LineLedger(c, closed + after, k);
    UnitsNotNegative(m, Accepted(c, closed + after, k));
    BetweenOrders(c, closed + after, k);
    var os := Accepted(c, before, k);
    assert os[..|os|] == os;
  }

  /** The last steps of such a run, from any world where k is open and idle. */
  lemma TooLate(c: Config, w: World, k: string, a: OrderVal, b: OrderVal)
    requires OpenAndIdle(w, k) && a.stock == b.stock == k
    ensures var r := Step(c, Step(c, Step(c, w, Submit(a)), Close(k)), Submit(b));
      r.crashed && k in r.lines && r.lines[k].inbox == [a]
    ensures Taken(w, Submit(a), k) == [a] && Taken(Step(c, w, Submit(a)), Close(k), k) == []
    ensures Taken(Step(c, Step(c, w, Submit(a)), Close(k)), Submit(b), k) == []
  {
  }

  ghost predicate OpenAndIdle(w: World, k: string) {
    k in w.lines && k !in w.closed && !w.crashed && w.lines[k].inbox == []
  }

  lemma SaveKeepsIdle(c: Config, w: World, o: OrderVal, k: string)
    requires OpenAndIdle(w, k)
    ensures OpenAndIdle(Step(c, w, Save(o)), k)
  {
  }

  lemma TwoSaves(c: Config, k: string, a: OrderVal, b: OrderVal)
    requires k in c.stocks
    ensures OpenAndIdle(After(c, [Save(a)] + [Save(b)]), k) && Accepted(c, [Save(a)] + [Save(b)], k) == []
  {
    assert [] + [Save(a)] == [Save(a)];
    OneEventMore(c, [], Save(a));
    OneEventMore(c, [Save(a)], Save(b));
    SaveKeepsIdle(c, After(c, []), a, k);
    SaveKeepsIdle(c, After(c, [Save(a)]), b, k);
  }

  lemma LateProtocol(a: OrderVal, b: OrderVal, k: string)
    requires a.IsNew() && b.IsNew() && a.id != b.id
    ensures Protocol([Save(a)] + [Save(b)] + [Submit(a)] + [Close(k)] + [Submit(b)])
  {
    var evs := [Save(a)] + [Save(b)] + [Submit(a)] + [Close(k)] + [Submit(b)];
    assert evs[0] == Save(a) && evs[1] == Save(b);
    assert SavedBefore(evs, 2) && SavedBefore(evs, 4);
  }

  /** In a run that does panic orders can stay behind for good: here one is queued, the
      channel is closed, a second order comes too late, and no turn helps any more. */
  lemma LateSubmitStrands(c: Config, k: string, a: OrderVal, b: OrderVal, after: seq<Event>)
    requires k in c.stocks && a.IsNew() && b.IsNew() && a.id != b.id && a.stock == b.stock == k
    ensures var evs := [Save(a)] + [Save(b)] + [Submit(a)] + [Close(k)] + [Submit(b)];
      && Protocol(evs) && Accepted(c, evs, k) == [a] && After(c, evs).crashed
      && k in After(c, evs + after).lines && After(c, evs + after).lines[k].inbox == [a]
  {
    var saved := [Save(a)] + [Save(b)];
    LateProtocol(a, b, k);
    TwoSaves(c, k, a, b);
    TooLate(c, After(c, saved), k, a, b);
    OneEventMore(c, saved, Submit(a));
    OneEventMore(c, saved + [Submit(a)], Close(k));
    OneEventMore(c, saved + [Submit(a)] + [Close(k)], Submit(b));
    CrashIsFinal(c, saved + [Submit(a)] + [Close(k)] + [Submit(b)], after);
  }
}
