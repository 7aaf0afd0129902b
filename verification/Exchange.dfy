/** The whole exchange: the matchers of all stocks working on the same stores, one
    loop iteration of any of them at a time. However these steps, the saves and the
    submits interleave, each stock sees a sequential run of the orders accepted for
    it. */
module Exchange {
  import opened Entities
  import opened DepthSpec
  import opened Matching
  import opened BookInvariant
  import opened Repositories

  const MATCHER_CHAN_CAP := 1000

  /** What the exchange starts with: the listed stocks, the initialised tickers, and
      whether the trade store can take the n-th save. */
  datatype Config = Config(stocks: set<string>, tickers: map<string, TickerVal>, up: nat -> bool)

  /** Every matcher between two iterations, the channels closed so far, whether the
      process has panicked, and the stores the matchers share. The copies of orders are
      not with the desks but in `orders`; `issued` counts trade IDs. */
  datatype World = World(
    lines: map<string, Micro>, closed: set<string>, crashed: bool,
    trades: seq<Trade>, issued: nat,
    orders: map<string, OrderVal>,
    tickers: map<string, TickerVal>, books: map<string, Depth>)

  /** The order service saves, then submits; a matcher takes a turn; the engine, told to
      stop, closes the channels one by one. */
  datatype Event = Save(order: OrderVal) | Submit(order: OrderVal) | Turn(stock: string) | Close(stock: string)

  /** What becomes of a submit. */
  datatype SubmitResult = Queued | UnknownStock | QueueFull | Panics

  function Lend(m: Micro, orders: map<string, OrderVal>): Micro {
    m.(desk := m.desk.(store := orders))
  }

  function More(m: Micro, o: OrderVal): Micro {
    m.(inbox := m.inbox + [o])
  }

  function Constantly(b: bool): nat -> bool {
    (n: nat) => b
  }

  // ------------------------------------------------------------ the steps

  /** A send on a closed channel panics, full or not. */
  function Outcome(w: World, o: OrderVal): SubmitResult {
    if o.stock !in w.lines then UnknownStock
    else if o.stock in w.closed then Panics
    else if |w.lines[o.stock].inbox| < MATCHER_CHAN_CAP then Queued
    else QueueFull
  }

  predicate Accepts(w: World, o: OrderVal) {
    !w.crashed && Outcome(w, o) == Queued
  }

  /** The trade store takes a trade if it can and the ID is new. */
  predicate Saves(c: Config, w: World) {
    c.up(w.issued) && FreshId(w.trades, w.issued)
  }

  /** The matcher of k after its next iteration, with the stored orders in its hands. */
  function Moved(c: Config, w: World, k: string): Micro
    requires k in w.lines
  {
    MicroStep(Constantly(Saves(c, w)), Lend(w.lines[k], w.orders))
  }

  /** The attempt an iteration made, if it made one. */
  function News(m: Micro, r: Micro): seq<Attempt> {
    if |m.desk.log| < |r.desk.log| then [r.desk.log[|m.desk.log|]] else []
  }

  /** The trade that went into the store, under the next ID. */
  function Booked(news: seq<Attempt>, id: nat): seq<Trade> {
    if news != [] && news[0].saved then [news[0].trade.(id := id)] else []
  }

  function TickersAfter(tickers: map<string, TickerVal>, k: string, booked: seq<Trade>): map<string, TickerVal> {
    if booked != [] && k in tickers then tickers[k := tickers[k].AfterTrade(booked[0].price, booked[0].quantity)] else tickers
  }

  /** A snapshot goes out when the matcher is done with an order. */
  function BooksAfter(books: map<string, Depth>, k: string, m: Micro, r: Micro): map<string, Depth> {
    if m.cur.Some? && r.cur.None? && k in books then books[k := DepthOf(r.desk.book, DEPTH_LEVELS)] else books
  }

  function TurnOf(c: Config, w: World, k: string): World
    requires k in w.lines
  {
    var m, r := w.lines[k], Moved(c, w, k);
    var booked := Booked(News(m, r), w.issued);
    World(w.lines[k := Lend(r, map[])], w.closed, w.crashed,
      w.trades + booked, w.issued + |News(m, r)|,
      r.desk.store,
      TickersAfter(w.tickers, k, booked), BooksAfter(w.books, k, m, r))
  }

  function SubmitTo(w: World, o: OrderVal): World {
    match Outcome(w, o)
    case Queued => w.(lines := w.lines[o.stock := More(w.lines[o.stock], o)])
    case Panics => w.(crashed := true)
    case UnknownStock => w
    case QueueFull => w
  }

  /** After a panic nothing moves any more. */
  function Step(c: Config, w: World, ev: Event): World {
    if w.crashed then w
    else
      match ev
      case Save(o) => if o.id in w.orders then w else w.(orders := w.orders[o.id := o])
      case Submit(o) => SubmitTo(w, o)
      case Turn(k) => if k in w.lines then TurnOf(c, w, k) else w
      case Close(k) => w.(closed := w.closed + {k})
  }

  function NewWorld(c: Config): World {
    World(map k | k in c.stocks :: Start(k, map[], []), {}, false, [], 0, map[], c.tickers, map k | k in c.tickers :: Depth([], []))
  }

  function After(c: Config, evs: seq<Event>): World {
    if evs == [] then NewWorld(c) else Step(c, After(c, evs[..|evs| - 1]), evs[|evs| - 1])
  }

  /** The orders this event gets accepted for stock k. */
  function Taken(w: World, ev: Event, k: string): seq<OrderVal> {
    if ev.Submit? && ev.order.stock == k && Accepts(w, ev.order) then [ev.order] else []
  }

  /** The orders accepted for stock k, in the order of acceptance. */
  function Accepted(c: Config, evs: seq<Event>, k: string): seq<OrderVal> {
    if evs == [] then []
    else
      var front := evs[..|evs| - 1];
      Accepted(c, front, k) + Taken(After(c, front), evs[|evs| - 1], k)
  }

  // --------------------------------------------- one stock, run by itself

  /** The failures a matcher met, as an oracle. */
  function Heard(log: seq<Attempt>): nat -> bool {
    (n: nat) => n >= |log| || log[n].saved
  }

  /** A state of the run of these orders by themselves, with the saves failing as they
      did for this matcher. */
  ghost predicate Sequential(m: Micro, k: string, os: seq<OrderVal>) {
    exists n: nat :: m == At(Heard(m.desk.log), Start(k, map[], os), n)
  }

  /** What a step does never depends on the stored copies. */
  lemma StepIgnoresStore(ok: nat -> bool, m: Micro, orders: map<string, OrderVal>)
    ensures Lend(MicroStep(ok, Lend(m, orders)), map[]) == MicroStep(ok, Lend(m, map[]))
  {
  }

  lemma StepLogsOne(ok: nat -> bool, m: Micro)
    ensures var r := MicroStep(ok, m);
      && |m.desk.log| <= |r.desk.log| <= |m.desk.log| + 1 && r.desk.log[..|m.desk.log|] == m.desk.log
      && r.desk.stock == m.desk.stock && (|r.desk.log| > |m.desk.log| ==> r.desk.log[|m.desk.log|].saved == ok(|m.desk.log|))
  {
  }

  /** A step asks the oracle once at most, about its own attempt. */
  lemma StepHears(ok: nat -> bool, other: nat -> bool, m: Micro)
    requires |MicroStep(ok, m).desk.log| > |m.desk.log| ==> ok(|m.desk.log|) == other(|m.desk.log|)
    ensures MicroStep(ok, m) == MicroStep(other, m)
  {
  }

  lemma {:induction false} AtHears(ok: nat -> bool, other: nat -> bool, m: Micro, k: nat)
    requires forall n: nat :: n < |At(ok, m, k).desk.log| ==> ok(n) == other(n)
    ensures At(other, m, k) == At(ok, m, k)
  {
    if k > 0 {
      var before := At(ok, m, k - 1);
      StepLogsOne(ok, before);
      AtHears(ok, other, m, k - 1);
      StepHears(ok, other, before);
    }
  }

  /** A matcher with one more order queued does what it would have done, idle turns
      apart. */
  lemma {:induction false} AtWithMore(ok: nat -> bool, m: Micro, o: OrderVal, k: nat) returns (n: nat)
    ensures At(ok, More(m, o), n) == More(At(ok, m, k), o)
  {
    n := 0;
    if k > 0 {
      var j := AtWithMore(ok, m, o, k - 1);
      n := StepWithMore(ok, At(ok, m, k - 1), o, More(m, o), j);
    }
  }

  lemma StepWithMore(ok: nat -> bool, m: Micro, o: OrderVal, start: Micro, j: nat) returns (n: nat)
    requires At(ok, start, j) == More(m, o)
    ensures At(ok, start, n) == More(MicroStep(ok, m), o)
  {
    if m.cur.Some? || m.inbox != [] {
      assert MicroStep(ok, More(m, o)) == More(MicroStep(ok, m), o);
      n := j + 1;
    } else {
      n := j;
    }
  }

  lemma TurnKeepsSequential(m: Micro, b: bool, k: string, os: seq<OrderVal>)
    requires Sequential(m, k, os)
    ensures Sequential(MicroStep(Constantly(b), m), k, os)
  {
    var n: nat :| m == At(Heard(m.desk.log), Start(k, map[], os), n);
    var r := MicroStep(Constantly(b), m);
    StepLogsOne(Constantly(b), m);
    assert forall i: nat :: i < |m.desk.log| ==> r.desk.log[i] == r.desk.log[..|m.desk.log|][i];
    AtHears(Heard(m.desk.log), Heard(r.desk.log), Start(k, map[], os), n);
    StepHears(Constantly(b), Heard(r.desk.log), m);
    assert r == At(Heard(r.desk.log), Start(k, map[], os), n + 1);
  }

  lemma MoreKeepsSequential(m: Micro, k: string, os: seq<OrderVal>, o: OrderVal)
    requires Sequential(m, k, os)
    ensures Sequential(More(m, o), k, os + [o])
  {
    var n: nat :| m == At(Heard(m.desk.log), Start(k, map[], os), n);
    var j := AtWithMore(Heard(m.desk.log), Start(k, map[], os), o, n);
    assert More(Start(k, map[], os), o) == Start(k, map[], os + [o]);
  }

  /** The matcher of k in order: its own stock, no copies of its own, and in a state
      of the run of these orders by themselves. */
  ghost predicate LineInv(w: World, k: string, os: seq<OrderVal>) {
    && k in w.lines && w.lines[k].desk.store == map[] && w.lines[k].desk.stock == k
    && Sequential(w.lines[k], k, os)
  }

  lemma TurnIsStep(c: Config, w: World, k: string)
    requires k in w.lines && w.lines[k].desk.store == map[]
    ensures TurnOf(c, w, k).lines == w.lines[k := MicroStep(Constantly(Saves(c, w)), w.lines[k])]
    ensures MicroStep(Constantly(Saves(c, w)), w.lines[k]).desk.store == map[]
  {
    StepIgnoresStore(Constantly(Saves(c, w)), w.lines[k], w.orders);
    assert Lend(w.lines[k], map[]) == w.lines[k];
  }

  ghost predicate NoCopies(w: World) {
    forall j :: j in w.lines ==> w.lines[j].desk.store == map[]
  }

  /** What an event means for the matcher of k: a step of its own, one more order in its
      queue, or nothing. */
  lemma StepAtLine(c: Config, w: World, ev: Event, k: string)
    requires k in w.lines && NoCopies(w)
    ensures k in Step(c, w, ev).lines
    ensures var m, r := w.lines[k], Step(c, w, ev).lines[k];
      r == if ev == Turn(k) && !w.crashed then MicroStep(Constantly(Saves(c, w)), m)
           else if Taken(w, ev, k) != [] then More(m, ev.order) else m
  {
    if ev.Turn? {
      TurnAtLine(c, w, ev.stock, k);
    } else {
      OtherAtLine(c, w, ev, k);
    }
  }

  lemma TurnAtLine(c: Config, w: World, j: string, k: string)
    requires k in w.lines && NoCopies(w)
    ensures k in Step(c, w, Turn(j)).lines
    ensures Step(c, w, Turn(j)).lines[k] == if j == k && !w.crashed then MicroStep(Constantly(Saves(c, w)), w.lines[k]) else w.lines[k]
  {
    if j in w.lines {
      TurnIsStep(c, w, j);
    }
  }

  lemma OtherAtLine(c: Config, w: World, ev: Event, k: string)
    requires k in w.lines && !ev.Turn?
    ensures k in Step(c, w, ev).lines
    ensures Step(c, w, ev).lines[k] == if Taken(w, ev, k) != [] then More(w.lines[k], ev.order) else w.lines[k]
  {
  }

  lemma StepKeepsNoCopies(c: Config, w: World, ev: Event)
    requires NoCopies(w)
    ensures NoCopies(Step(c, w, ev))
  {
    forall j | j in Step(c, w, ev).lines ensures Step(c, w, ev).lines[j].desk.store == map[] {
      StepAtLine(c, w, ev, j);
      if ev == Turn(j) {
        TurnIsStep(c, w, j);
      }
    }
  }

  lemma StepKeepsLine(c: Config, w: World, ev: Event, k: string, os: seq<OrderVal>)
    requires LineInv(w, k, os) && NoCopies(w)
    ensures LineInv(Step(c, w, ev), k, os + Taken(w, ev, k))
  {
    var m := w.lines[k];
    assert os + [] == os;
    StepAtLine(c, w, ev, k);
    StepKeepsNoCopies(c, w, ev);
    if ev == Turn(k) {
      TurnKeepsSequential(m, Saves(c, w), k, os);
      StepLogsOne(Constantly(Saves(c, w)), m);
    } else if Taken(w, ev, k) != [] {
      MoreKeepsSequential(m, k, os, ev.order);
    }
  }

  lemma {:induction false} LinesAlways(c: Config, evs: seq<Event>, k: string)
    requires k in c.stocks
    ensures LineInv(After(c, evs), k, Accepted(c, evs, k)) && NoCopies(After(c, evs))
  {
    if evs == [] {
      assert Start(k, map[], []) == At(Heard([]), Start(k, map[], []), 0);
    } else {
      var front := evs[..|evs| - 1];
      LinesAlways(c, front, k);
      StepKeepsLine(c, After(c, front), evs[|evs| - 1], k, Accepted(c, front, k));
      StepKeepsNoCopies(c, After(c, front), evs[|evs| - 1]);
    }
  }

  /** For any interleaving of saves, submits, single iterations of all matchers and
      closed channels, and whatever saves fail: each matcher is in a state of the run of the
      orders accepted for its stock by themselves. */
  lemma EveryStockSequential(c: Config, evs: seq<Event>, k: string) returns (n: nat)
    requires k in c.stocks
    ensures var m := After(c, evs).lines;
      k in m && m[k] == At(Heard(m[k].desk.log), Start(k, map[], Accepted(c, evs, k)), n)
  {
    LinesAlways(c, evs, k);
    var m := After(c, evs).lines[k];
    n :| m == At(Heard(m.desk.log), Start(k, map[], Accepted(c, evs, k)), n);
  }

  // ------------------------------------------------------------- the panic

  /** An order was submitted for a listed stock whose channel had been closed. */
  ghost predicate LateSubmit(c: Config, evs: seq<Event>) {
    exists i, j :: 0 <= i < j < |evs| && evs[j].Submit? && evs[j].order.stock in c.stocks && evs[i] == Close(evs[j].order.stock)
  }

  lemma {:induction false} LinesAreListed(c: Config, evs: seq<Event>)
    ensures After(c, evs).lines.Keys == c.stocks
  {
    if evs != [] {
      LinesAreListed(c, evs[..|evs| - 1]);
    }
  }

  lemma StepCloses(c: Config, w: World, ev: Event)
    requires !Step(c, w, ev).crashed
    ensures !w.crashed && Step(c, w, ev).closed == w.closed + if ev.Close? then {ev.stock} else {}
  {
  }

  lemma {:induction false} ClosedSoFar(c: Config, evs: seq<Event>, k: string)
    requires !After(c, evs).crashed
    ensures k in After(c, evs).closed <==> Close(k) in evs
  {
    if evs != [] {
      var front, ev := evs[..|evs| - 1], evs[|evs| - 1];
      assert evs == front + [ev];
      StepCloses(c, After(c, front), ev);
      ClosedSoFar(c, front, k);
    }
  }

  lemma LateSubmitGrows(c: Config, evs: seq<Event>, ev: Event)
    ensures LateSubmit(c, evs + [ev]) <==> LateSubmit(c, evs) || (ev.Submit? && ev.order.stock in c.stocks && Close(ev.order.stock) in evs)
  {
    var all := evs + [ev];
    if LateSubmit(c, evs) {
      var i, j :| 0 <= i < j < |evs| && evs[j].Submit? && evs[j].order.stock in c.stocks && evs[i] == Close(evs[j].order.stock);
      assert all[i] == evs[i] && all[j] == evs[j];
    }
    if ev.Submit? && ev.order.stock in c.stocks && Close(ev.order.stock) in evs {
      var i :| 0 <= i < |evs| && evs[i] == Close(ev.order.stock);
      assert all[i] == evs[i] && all[|evs|] == ev;
    }
    if LateSubmit(c, all) {
      var i, j :| 0 <= i < j < |all| && all[j].Submit? && all[j].order.stock in c.stocks && all[i] == Close(all[j].order.stock);
      assert all[i] == evs[i];
      assert j < |evs| ==> all[j] == evs[j];
    }
  }

  /** The process panics exactly when an order for a listed stock is submitted after its
      channel was closed, whatever else happens. */
  lemma {:induction false} CrashesExactly(c: Config, evs: seq<Event>)
    ensures After(c, evs).crashed <==> LateSubmit(c, evs)
  {
    if evs != [] {
      var front, ev := evs[..|evs| - 1], evs[|evs| - 1];
      assert evs == front + [ev];
      CrashesExactly(c, front);
      LateSubmitGrows(c, front, ev);
      LinesAreListed(c, front);
      if ev.Submit? && !After(c, front).crashed {
        ClosedSoFar(c, front, ev.order.stock);
      }
    }
  }

  /** And then it stands still for good. */
  lemma {:induction false} CrashIsFinal(c: Config, evs: seq<Event>, more: seq<Event>)
    requires After(c, evs).crashed
    ensures After(c, evs + more) == After(c, evs)
  {
    if more == [] {
      assert evs + more == evs;
    } else {
      assert (evs + more)[..|evs + more| - 1] == evs + more[..|more| - 1];
      CrashIsFinal(c, evs, more[..|more| - 1]);
    }
  }
}
