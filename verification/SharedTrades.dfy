/** The trade store, the tickers and the snapshots all matchers share: for each stock
    they hold what a run of that stock by itself would have left there. */
module SharedTrades {
  import opened Entities
  import opened StableSort
  import opened DepthSpec
  import opened Matching
  import opened BookInvariant
  import opened Repositories
  import opened TradeFacts
  import opened Exchange

  /** Trades without their IDs, which depend on what other stocks trade. */
  function Unnumbered(ts: seq<Trade>): seq<Trade> {
    seq(|ts|, i requires 0 <= i < |ts| => ts[i].(id := 0))
  }

  function TradesOf(w: World, k: string): seq<Trade> {
    Filter(w.trades, OfStock(k))
  }

  /** IDs in the store grow, and the next one is beyond them. */
  ghost predicate NumberInv(w: World) {
    && (forall i :: 0 <= i < |w.trades| ==> w.trades[i].id < w.issued)
    && (forall i, j :: 0 <= i < j < |w.trades| ==> w.trades[i].id < w.trades[j].id)
  }

  /** The stock's part of the one trade list is what its matcher saved. */
  ghost predicate ListInv(w: World, k: string) {
    && k in w.lines && w.lines[k].desk.stock == k
    && Unnumbered(TradesOf(w, k)) == Unnumbered(Saved(w.lines[k].desk.log))
  }

  ghost predicate TickerInv(c: Config, w: World, k: string) {
    && k in w.tickers && k in c.tickers && w.tickers[k] == TickerAfter(c.tickers[k], TradesOf(w, k))
  }

  /** Between two orders the snapshot is the depth of the live book. */
  ghost predicate SnapshotInv(w: World, k: string) {
    && k in w.lines && k in w.books
    && (w.lines[k].cur.None? ==> w.books[k] == DepthOf(w.lines[k].desk.book, 10))
  }

  // ------------------------------------------------------------- one turn

  /** What a turn does to the log of its matcher and to the trade store. */
  lemma TurnBooks(c: Config, w: World, k: string) returns (news: seq<Attempt>)
    requires k in w.lines
    ensures var r := TurnOf(c, w, k);
      && |news| <= 1 && r.lines == w.lines[k := r.lines[k]]
      && r.lines[k].desk.log == w.lines[k].desk.log + news && r.lines[k].desk.stock == w.lines[k].desk.stock
      && r.trades == w.trades + Booked(news, w.issued) && r.issued == w.issued + |news|
      && r.tickers == TickersAfter(w.tickers, k, Booked(news, w.issued))
    ensures news != [] ==> news[0].trade.stock == w.lines[k].desk.stock && news[0].saved == Saves(c, w)
  {
    var m, r := Lend(w.lines[k], w.orders), Moved(c, w, k);
    news := News(w.lines[k], r);
    StepLogsOne(Constantly(Saves(c, w)), m);
    StepTradesStock(Constantly(Saves(c, w)), m);
    assert r.desk.log == m.desk.log + news;
  }

  lemma StepTradesStock(ok: nat -> bool, m: Micro)
    ensures var r := MicroStep(ok, m); |r.desk.log| > |m.desk.log| ==> r.desk.log[|m.desk.log|].trade.stock == m.desk.stock
  {
  }

  lemma SavedGrows(log: seq<Attempt>, news: seq<Attempt>, id: nat)
    requires |news| <= 1
    ensures Unnumbered(Saved(log + news)) == Unnumbered(Saved(log)) + Unnumbered(Booked(news, id))
  {
    if news == [] {
      assert log + news == log;
    } else {
      assert (log + news)[..|log|] == log && log + news == log + [news[0]];
    }
  }

  lemma ListGrows(trades: seq<Trade>, booked: seq<Trade>, k: string)
    requires |booked| <= 1
    ensures Filter(trades + booked, OfStock(k))
         == if booked != [] && booked[0].stock == k then Filter(trades, OfStock(k)) + booked else Filter(trades, OfStock(k))
  {
    if booked == [] {
      assert trades + booked == trades;
    } else {
      assert (trades + booked)[..|trades|] == trades && booked == [booked[0]];
    }
  }

  lemma TurnKeepsNumbers(c: Config, w: World, k: string)
    requires NumberInv(w) && k in w.lines
    ensures NumberInv(TurnOf(c, w, k))
  {
    var news := TurnBooks(c, w, k);
  }

  lemma TurnKeepsList(c: Config, w: World, j: string, k: string)
    requires j in w.lines && w.lines[j].desk.stock == j && ListInv(w, k)
    ensures ListInv(TurnOf(c, w, j), k)
  {
    var news := TurnBooks(c, w, j);
    var booked := Booked(news, w.issued);
    ListGrows(w.trades, booked, k);
    SavedGrows(w.lines[j].desk.log, news, w.issued);
    UnnumberedParts(TradesOf(w, k), booked);
  }

  lemma UnnumberedParts(ts: seq<Trade>, us: seq<Trade>)
    ensures Unnumbered(ts + us) == Unnumbered(ts) + Unnumbered(us)
  {
  }

  lemma TurnKeepsTicker(c: Config, w: World, j: string, k: string)
    requires j in w.lines && w.lines[j].desk.stock == j && TickerInv(c, w, k)
    ensures TickerInv(c, TurnOf(c, w, j), k)
  {
    var news := TurnBooks(c, w, j);
    TickersFollow(c.tickers[k], w.tickers, w.trades, j, Booked(news, w.issued), k);
  }

  /** Summing up a trade keeps every ticker the summary of its stock's trades. */
  lemma TickersFollow(t: TickerVal, tickers: map<string, TickerVal>, trades: seq<Trade>, j: string, booked: seq<Trade>, k: string)
    requires |booked| <= 1 && (booked != [] ==> booked[0].stock == j)
    requires k in tickers && tickers[k] == TickerAfter(t, Filter(trades, OfStock(k)))
    ensures TickersAfter(tickers, j, booked)[k] == TickerAfter(t, Filter(trades + booked, OfStock(k)))
  {
    ListGrows(trades, booked, k);
    TickerGrows(t, Filter(trades, OfStock(k)), booked);
  }

  lemma TickerGrows(t: TickerVal, ts: seq<Trade>, booked: seq<Trade>)
    requires |booked| <= 1
    ensures booked == [] ==> TickerAfter(t, ts + booked) == TickerAfter(t, ts)
    ensures booked != [] ==> TickerAfter(t, ts + booked) == TickerAfter(t, ts).AfterTrade(booked[0].price, booked[0].quantity)
  {
    if booked == [] {
      assert ts + booked == ts;
    } else {
      assert (ts + booked)[..|ts|] == ts;
    }
  }

  /** While a matcher has no order in hand it leaves its book alone. */
  lemma IdleKeepsBook(ok: nat -> bool, m: Micro)
    requires m.cur.None?
    ensures MicroStep(ok, m).desk == m.desk
  {
  }

  lemma TurnKeepsSnapshot(c: Config, w: World, j: string, k: string)
    requires j in w.lines && SnapshotInv(w, k)
    ensures SnapshotInv(TurnOf(c, w, j), k)
  {
    if w.lines[j].cur.None? {
      IdleKeepsBook(Constantly(Saves(c, w)), Lend(w.lines[j], w.orders));
    }
  }

  // --------------------------------------------------------------- all runs

  ghost predicate StoresInv(c: Config, w: World) {
    && w.lines.Keys == c.stocks && NumberInv(w)
    && (forall k :: k in c.stocks ==> ListInv(w, k))
    && (forall k :: k in c.tickers ==> TickerInv(c, w, k))
    && (forall k :: k in c.stocks && k in c.tickers ==> SnapshotInv(w, k))
  }

  lemma StepKeepsStores(c: Config, w: World, ev: Event)
    requires StoresInv(c, w)
    ensures StoresInv(c, Step(c, w, ev))
  {
    if ev.Turn? && ev.stock in w.lines && !w.crashed {
      var j := ev.stock;
      assert ListInv(w, j);
      TurnKeepsNumbers(c, w, j);
      forall k | k in c.stocks ensures ListInv(TurnOf(c, w, j), k) { TurnKeepsList(c, w, j, k); }
      forall k | k in c.tickers ensures TickerInv(c, TurnOf(c, w, j), k) { TurnKeepsTicker(c, w, j, k); }
      forall k | k in c.stocks && k in c.tickers ensures SnapshotInv(TurnOf(c, w, j), k) { TurnKeepsSnapshot(c, w, j, k); }
    } else {
      OthersLookAlike(c, w, ev);
      OthersKeepStores(c, w, Step(c, w, ev));
    }
  }

  /** Same stores, and the same desks and orders in hand. */
  ghost predicate LookAlike(w: World, r: World) {
    && r.trades == w.trades && r.issued == w.issued && r.tickers == w.tickers && r.books == w.books
    && r.lines.Keys == w.lines.Keys
    && forall k :: k in w.lines ==> r.lines[k].desk == w.lines[k].desk && r.lines[k].cur == w.lines[k].cur
  }

  lemma OthersLookAlike(c: Config, w: World, ev: Event)
    requires w.crashed || !(ev.Turn? && ev.stock in w.lines)
    ensures LookAlike(w, Step(c, w, ev))
  {
  }

  lemma OthersKeepStores(c: Config, w: World, r: World)
    requires StoresInv(c, w) && LookAlike(w, r)
    ensures StoresInv(c, r)
  {
    forall k | k in c.stocks ensures ListInv(r, k) { assert ListInv(w, k); }
    forall k | k in c.tickers ensures TickerInv(c, r, k) { assert TickerInv(c, w, k); }
    forall k | k in c.stocks && k in c.tickers ensures SnapshotInv(r, k) { assert SnapshotInv(w, k); }
  }

  /** In every reachable state, whatever interleaves and whatever saves fail: each
      stock's part of the one trade list is what its matcher saved, its ticker sums
      those trades up, and between orders its snapshot is the depth of its book. */
  lemma {:induction false} StoresAlways(c: Config, evs: seq<Event>)
    ensures StoresInv(c, After(c, evs))
  {
    if evs == [] {
      assert Unnumbered([]) == [];
    } else {
      StoresAlways(c, evs[..|evs| - 1]);
      StepKeepsStores(c, After(c, evs[..|evs| - 1]), evs[|evs| - 1]);
    }
  }

  // ------------------------------------------------------- memory stores

  /** A store in memory is always there: it refuses repeated IDs only. */
  ghost predicate InMemory(c: Config) {
    forall n :: c.up(n)
  }

  ghost predicate AllSaved(log: seq<Attempt>) {
    forall i :: 0 <= i < |log| ==> log[i].saved
  }

  /** Every attempt so far is in the trade list, the n-th as number n. */
  ghost predicate NothingRefused(w: World) {
    && w.issued == |w.trades| && (forall i :: 0 <= i < |w.trades| ==> w.trades[i].id == i)
    && (forall k :: k in w.lines ==> AllSaved(w.lines[k].desk.log))
  }

  lemma TurnIsSaved(c: Config, w: World, k: string)
    requires InMemory(c) && NothingRefused(w) && k in w.lines
    ensures NothingRefused(TurnOf(c, w, k))
  {
    var news := TurnBooks(c, w, k);
    assert AllSaved(w.lines[k].desk.log);
  }

  /** On memory stores no save ever fails, in any interleaving of any stocks. */
  lemma {:induction false} MemoryNeverFails(c: Config, evs: seq<Event>)
    requires InMemory(c)
    ensures NothingRefused(After(c, evs))
  {
    if evs != [] {
      var w, ev := After(c, evs[..|evs| - 1]), evs[|evs| - 1];
      MemoryNeverFails(c, evs[..|evs| - 1]);
      if ev.Turn? && ev.stock in w.lines && !w.crashed {
        TurnIsSaved(c, w, ev.stock);
      } else {
        OthersLookAlike(c, w, ev);
      }
    }
  }
}
