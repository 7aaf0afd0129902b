/** Every attempt is a fair trade between two accepted orders, and the ticker is
    the exact summary of the trades saved. */
module TradeFacts {
  import opened Entities
  import opened Matching
  import opened BookInvariant
  import opened Ledger
  import opened Conservation

  /** Between a buy and a sell order of the stream, at the price of the one that
      was resting, within both limits. */
  ghost predicate Fair(t: Attempt, os: seq<OrderVal>) {
    exists buy, sell :: buy in os && sell in os && FairBetween(t, buy, sell)
  }

  ghost predicate FairBetween(t: Attempt, buy: OrderVal, sell: OrderVal) {
    && buy.side == Buy && sell.side == Sell
    && t.trade.buyOrderId == buy.id && t.trade.sellOrderId == sell.id
    && t.trade.buyerId == buy.userId && t.trade.sellerId == sell.userId
    && sell.price <= t.trade.price <= buy.price
    && t.trade.price == (match t.aggressor case Buy => sell.price case Sell => buy.price)
  }

  ghost predicate AllFair(log: seq<Attempt>, os: seq<OrderVal>) {
    forall i :: 0 <= i < |log| ==> Fair(log[i], os)
  }

  lemma StepFair(ok: nat -> bool, m: Micro, os: seq<OrderVal>)
    requires LedgerInv(m, os) && m.cur.Some? && CanMatch(Sweep(m.desk, m.cur.value))
    ensures var r := MicroStep(ok, m).desk.log;
      |r| == |m.desk.log| + 1 && r[..|m.desk.log|] == m.desk.log && Fair(r[|m.desk.log|], os)
  {
    var r, n := MicroStep(ok, m).desk.log, |m.desk.log|;
    assert CurBooked(m.desk, os, m.cur.value);
    if m.cur.value.side == Buy {
      assert RestingBooked(m.desk, os, m.desk.book.asks[0]);
      assert FairBetween(r[n], m.cur.value.Identity(), m.desk.book.asks[0].order.Identity());
    } else {
      assert RestingBooked(m.desk, os, m.desk.book.bids[0]);
      assert FairBetween(r[n], m.desk.book.bids[0].order.Identity(), m.cur.value.Identity());
    }
  }

  lemma OneMoreFair(log: seq<Attempt>, r: seq<Attempt>, os: seq<OrderVal>)
    requires AllFair(log, os) && |r| == |log| + 1 && r[..|log|] == log && Fair(r[|log|], os)
    ensures AllFair(r, os)
  {
    forall i | 0 <= i < |r| ensures Fair(r[i], os) {
      assert i < |log| ==> r[i] == r[..|log|][i];
    }
  }

  lemma StepKeepsFair(ok: nat -> bool, m: Micro, os: seq<OrderVal>)
    requires LedgerInv(m, os) && AllFair(m.desk.log, os)
    ensures AllFair(MicroStep(ok, m).desk.log, os)
  {
    if m.cur.Some? && CanMatch(Sweep(m.desk, m.cur.value)) {
      StepFair(ok, m, os);
      OneMoreFair(m.desk.log, MicroStep(ok, m).desk.log, os);
    }
  }

  /** In every run every attempt is fair. */
  lemma {:induction false} TradesAlwaysFair(ok: nat -> bool, stock: string, store: map<string, OrderVal>, os: seq<OrderVal>, k: nat)
    requires NewOrders(os)
    requires forall i :: 0 <= i < |os| && os[i].id in store ==> store[os[i].id] == os[i]
    ensures AllFair(At(ok, Start(stock, store, os), k).desk.log, os)
    decreases k, 0
  {
    if k > 0 {
      var m := FairSoFar(ok, stock, store, os, k - 1);
      StepKeepsFair(ok, m, os);
    }
  }

  lemma FairSoFar(ok: nat -> bool, stock: string, store: map<string, OrderVal>, os: seq<OrderVal>, k: nat) returns (m: Micro)
    requires NewOrders(os)
    requires forall i :: 0 <= i < |os| && os[i].id in store ==> store[os[i].id] == os[i]
    ensures m == At(ok, Start(stock, store, os), k)
    ensures LedgerInv(m, os) && AllFair(m.desk.log, os)
    decreases k, 1
  {
    TradesAlwaysFair(ok, stock, store, os, k);
    m := LedgerSoFar(ok, stock, store, os, k);
  }

  // ------------------------------------------------------------- the ticker

  function TickerAfter(t: TickerVal, ts: seq<Trade>): TickerVal {
    if ts == [] then t
    else TickerAfter(t, ts[..|ts| - 1]).AfterTrade(ts[|ts| - 1].price, ts[|ts| - 1].quantity)
  }

  ghost predicate IsPrice(x: int, ts: seq<Trade>) {
    exists i :: 0 <= i < |ts| && ts[i].price == x
  }

  ghost predicate IsMax(x: int, ts: seq<Trade>) {
    IsPrice(x, ts) && forall i :: 0 <= i < |ts| ==> ts[i].price <= x
  }

  ghost predicate IsMin(x: int, ts: seq<Trade>) {
    IsPrice(x, ts) && forall i :: 0 <= i < |ts| ==> x <= ts[i].price
  }

  /** The high never falls, covers every price, and is the one before or a price. */
  ghost predicate HighFrom(before: int, high: int, ts: seq<Trade>) {
    && before <= high && (forall i :: 0 <= i < |ts| ==> ts[i].price <= high)
    && (high == before || IsPrice(high, ts))
  }

  /** The same of the low, where a low of 0 says that there is none yet. */
  ghost predicate LowFrom(before: int, low: int, ts: seq<Trade>) {
    && (before != 0 ==> low <= before) && (forall i :: 0 <= i < |ts| ==> low <= ts[i].price)
    && ((low == before && (before != 0 || ts == [])) || IsPrice(low, ts))
  }

  /** What a ticker t has become after these trades. */
  ghost predicate Follows(t: TickerVal, ts: seq<Trade>, r: TickerVal) {
    && r.volume == t.volume + Volume(ts) && r.prevClose == t.prevClose
    && HighFrom(t.high, r.high, ts) && LowFrom(t.low, r.low, ts)
    && r.last == (if ts == [] then t.last else ts[|ts| - 1].price)
    && r.change == (if t.prevClose > 0 && ts != [] then r.last - t.prevClose else t.change)
  }

  /** From any ticker: volume adds up, high and low are the extremes so far, the
      previous close stays, and the change is that of the last price against it.
      Prices from 1 up keep the 0 that marks "no low yet" apart from a real low. */
  lemma {:induction false} TickerFollows(t: TickerVal, ts: seq<Trade>)
    requires forall i :: 0 <= i < |ts| ==> ts[i].price >= 1
    ensures Follows(t, ts, TickerAfter(t, ts))
  {
    if ts != [] {
      TickerFollows(t, ts[..|ts| - 1]);
      OneMoreTrade(t, ts, TickerAfter(t, ts[..|ts| - 1]));
    }
  }

  lemma OneMoreTrade(t: TickerVal, ts: seq<Trade>, r: TickerVal)
    requires ts != [] && (forall i :: 0 <= i < |ts| ==> ts[i].price >= 1) && Follows(t, ts[..|ts| - 1], r)
    ensures Follows(t, ts, r.AfterTrade(ts[|ts| - 1].price, ts[|ts| - 1].quantity))
  {
    var front, next := ts[..|ts| - 1], r.AfterTrade(ts[|ts| - 1].price, ts[|ts| - 1].quantity);
    assert r.low == 0 ==> front == [];
    forall i | 0 <= i < |ts| ensures next.low <= ts[i].price <= next.high {
      assert i < |front| ==> ts[i] == front[i];
    }
    forall x | IsPrice(x, front) ensures IsPrice(x, ts) {
      var i :| 0 <= i < |front| && front[i].price == x;
      assert ts[i].price == x;
    }
    assert IsPrice(ts[|ts| - 1].price, ts);
  }

  /** From a zero ticker, volume, high, low and last are the sum, maximum, minimum
      and last over the trades. */
  lemma TickerSummarises(ts: seq<Trade>)
    requires forall i :: 0 <= i < |ts| ==> ts[i].price >= 1
    ensures var t := TickerAfter(ZERO_TICKER, ts);
      && t.volume == Volume(ts) && t.prevClose == 0 && t.change == 0
      && (ts == [] ==> t == ZERO_TICKER)
      && (ts != [] ==> IsMax(t.high, ts) && IsMin(t.low, ts) && t.last == ts[|ts| - 1].price)
  {
    TickerFollows(ZERO_TICKER, ts);
  }

  lemma {:induction false} SavedComesFromLog(log: seq<Attempt>, i: nat) returns (j: nat)
    requires i < |Saved(log)|
    ensures j < |log| && log[j].saved && log[j].trade == Saved(log)[i]
  {
    if log[|log| - 1].saved && i == |Saved(log)| - 1 {
      j := |log| - 1;
    } else {
      j := SavedComesFromLog(log[..|log| - 1], i);
    }
  }

  lemma FairPrices(log: seq<Attempt>, os: seq<OrderVal>)
    requires forall i :: 0 <= i < |os| ==> os[i].price >= 1
    requires AllFair(log, os)
    ensures forall i :: 0 <= i < |Saved(log)| ==> Saved(log)[i].price >= 1
  {
    forall i | 0 <= i < |Saved(log)| ensures Saved(log)[i].price >= 1 {
      var j := SavedComesFromLog(log, i);
      assert Fair(log[j], os);
    }
  }

  /** Over any run of validated orders the ticker's volume, high and low are the
      sum, maximum and minimum over the saved trades, whatever saves failed. */
  lemma TickerExact(ok: nat -> bool, stock: string, store: map<string, OrderVal>, os: seq<OrderVal>, k: nat)
    requires NewOrders(os) && forall i :: 0 <= i < |os| ==> os[i].price >= 1
    requires forall i :: 0 <= i < |os| && os[i].id in store ==> store[os[i].id] == os[i]
    ensures var ts := Saved(At(ok, Start(stock, store, os), k).desk.log);
            var t := TickerAfter(ZERO_TICKER, ts);
      && t.volume == Volume(ts)
      && (ts != [] ==> IsMax(t.high, ts) && IsMin(t.low, ts) && t.last == ts[|ts| - 1].price)
  {
    var log := At(ok, Start(stock, store, os), k).desk.log;
    TradesAlwaysFair(ok, stock, store, os, k);
    FairPrices(log, os);
    TickerSummarises(Saved(log));
  }
}
