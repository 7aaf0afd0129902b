/** Price-time priority matching as functions on values. `ok` is the fault
    oracle: the n-th attempt to save a trade succeeds exactly when ok(n). */
module Matching {
  import opened Entities
  import opened StableSort
  import opened BookSpec

  /** One executeTrade call: the trade it tried to record, whether the save
      succeeded, and the side of the incoming order. */
  datatype Attempt = Attempt(trade: Trade, saved: bool, aggressor: Side)

  /** What one matcher owns: its stock, the book, every attempt so far, the orders that left
      matching (matched away or removed from the book) with the value they had
      then, and the stored copies of orders. */
  datatype Desk = Desk(stock: string, book: Book, log: seq<Attempt>, gone: seq<OrderVal>, store: map<string, OrderVal>)

  datatype Sweep = Sweep(desk: Desk, incoming: OrderVal)

  function Saved(log: seq<Attempt>): seq<Trade> {
    if log == [] then []
    else
      var front := Saved(log[..|log| - 1]);
      if log[|log| - 1].saved then front + [log[|log| - 1].trade] else front
  }

  /** The order store overwrites the mutable fields of a known order. */
  function UpdateStore(store: map<string, OrderVal>, o: OrderVal): map<string, OrderVal> {
    if o.id in store then store[o.id := store[o.id].(filled := o.filled, status := o.status)] else store
  }

  function MakeTrade(id: nat, stock: string, buy: OrderVal, sell: OrderVal, qty: int, price: int): Trade {
    Trade(id, stock, buy.id, sell.id, buy.userId, sell.userId, price, qty)
  }

  predicate CanBuy(s: Sweep) {
    && s.desk.book.asks != []
    && s.desk.book.asks[0].order.price <= s.incoming.price
    && s.incoming.Remaining() > 0
  }

  predicate CanSell(s: Sweep) {
    && s.desk.book.bids != []
    && s.desk.book.bids[0].order.price >= s.incoming.price
    && s.incoming.Remaining() > 0
  }

  /** Takes the matched quantity off the best ask, now worth `sell`, and drops the
      entry by its ID once nothing of it is left. */
  function ChargeAsk(b: Book, sell: OrderVal, left: int): Book
    requires b.asks != []
  {
    var touched := b.(asks := b.asks[0 := Resting(sell, left)]);
    if left <= 0 then RemoveOrder(touched, sell.id) else touched
  }

  function ChargeBid(b: Book, buy: OrderVal, left: int): Book
    requires b.bids != []
  {
    var touched := b.(bids := b.bids[0 := Resting(buy, left)]);
    if left <= 0 then RemoveOrder(touched, buy.id) else touched
  }

  lemma ChargeOverwrites(b: Book, e: Resting, o: OrderVal, left: int)
    ensures b.asks != [] ==> ChargeAsk(b.(asks := b.asks[0 := e]), o, left) == ChargeAsk(b, o, left)
    ensures b.bids != [] ==> ChargeBid(b.(bids := b.bids[0 := e]), o, left) == ChargeBid(b, o, left)
  {
    if b.asks != [] {
      assert b.asks[0 := e][0 := Resting(o, left)] == b.asks[0 := Resting(o, left)];
    }
    if b.bids != [] {
      assert b.bids[0 := e][0 := Resting(o, left)] == b.bids[0 := Resting(o, left)];
    }
  }

  /** One iteration of the buy sweep. When the trade cannot be saved neither
      order is filled, but the resting entry is charged all the same. */
  function StepBuy(ok: nat -> bool, s: Sweep): Sweep
    requires CanBuy(s)
  {
    var d := s.desk;
    var best := d.book.asks[0];
    var qty := Min(s.incoming.Remaining(), best.remaining);
    var saved := ok(|d.log|);
    var trade := MakeTrade(|d.log|, d.stock, s.incoming, best.order, qty, best.order.price);
    var buy := if saved then s.incoming.AfterFill(qty) else s.incoming;
    var sell := if saved then best.order.AfterFill(qty) else best.order;
    var left := best.remaining - qty;
    Sweep(Desk(
      d.stock,
      ChargeAsk(d.book, sell, left),
      d.log + [Attempt(trade, saved, Buy)],
      if left <= 0 then d.gone + [sell] else d.gone,
      if saved then UpdateStore(UpdateStore(d.store, buy), sell) else d.store), buy)
  }

  function StepSell(ok: nat -> bool, s: Sweep): Sweep
    requires CanSell(s)
  {
    var d := s.desk;
    var best := d.book.bids[0];
    var qty := Min(s.incoming.Remaining(), best.remaining);
    var saved := ok(|d.log|);
    var trade := MakeTrade(|d.log|, d.stock, best.order, s.incoming, qty, best.order.price);
    var buy := if saved then best.order.AfterFill(qty) else best.order;
    var sell := if saved then s.incoming.AfterFill(qty) else s.incoming;
    var left := best.remaining - qty;
    Sweep(Desk(
      d.stock,
      ChargeBid(d.book, buy, left),
      d.log + [Attempt(trade, saved, Sell)],
      if left <= 0 then d.gone + [buy] else d.gone,
      if saved then UpdateStore(UpdateStore(d.store, buy), sell) else d.store), sell)
  }

  /** What an attempt a does to the log, to both orders and to their stored copies. */
  ghost predicate Traded(a: Attempt, log: seq<Attempt>, log': seq<Attempt>, buy: OrderVal, buy': OrderVal, sell: OrderVal, sell': OrderVal,
                         store: map<string, OrderVal>, store': map<string, OrderVal>)
  {
    && log' == log + [a]
    && buy' == (if a.saved then buy.AfterFill(a.trade.quantity) else buy)
    && sell' == (if a.saved then sell.AfterFill(a.trade.quantity) else sell)
    && store' == if a.saved then UpdateStore(UpdateStore(store, buy'), sell') else store
  }

  /** The effects of a buy iteration one by one, `sell` being what becomes of the best ask. */
  ghost predicate BuyEffects(ok: nat -> bool, s: Sweep, qty: int, left: int, r: Sweep, sell: OrderVal)
    requires CanBuy(s)
  {
    var n, best := |s.desk.log|, s.desk.book.asks[0];
    && qty == Min(s.incoming.Remaining(), best.remaining) && left == best.remaining - qty
    && r.desk.stock == s.desk.stock && r.desk.book == ChargeAsk(s.desk.book, sell, left)
    && Traded(Attempt(MakeTrade(n, s.desk.stock, s.incoming, best.order, qty, best.order.price), ok(n), Buy),
              s.desk.log, r.desk.log, s.incoming, r.incoming, best.order, sell, s.desk.store, r.desk.store)
    && r.desk.gone == if left <= 0 then s.desk.gone + [sell] else s.desk.gone
  }

  ghost predicate SellEffects(ok: nat -> bool, s: Sweep, qty: int, left: int, r: Sweep, buy: OrderVal)
    requires CanSell(s)
  {
    var n, best := |s.desk.log|, s.desk.book.bids[0];
    && qty == Min(s.incoming.Remaining(), best.remaining) && left == best.remaining - qty
    && r.desk.stock == s.desk.stock && r.desk.book == ChargeBid(s.desk.book, buy, left)
    && Traded(Attempt(MakeTrade(n, s.desk.stock, best.order, s.incoming, qty, best.order.price), ok(n), Sell),
              s.desk.log, r.desk.log, best.order, buy, s.incoming, r.incoming, s.desk.store, r.desk.store)
    && r.desk.gone == if left <= 0 then s.desk.gone + [buy] else s.desk.gone
  }

  /** They determine it, for a program that has them one by one. */
  lemma StepBuyIs(ok: nat -> bool, s: Sweep, qty: int, left: int, r: Sweep, sell: OrderVal)
    requires CanBuy(s) && BuyEffects(ok, s, qty, left, r, sell)
    ensures r == StepBuy(ok, s)
  {
  }

  lemma StepSellIs(ok: nat -> bool, s: Sweep, qty: int, left: int, r: Sweep, buy: OrderVal)
    requires CanSell(s) && SellEffects(ok, s, qty, left, r, buy)
    ensures r == StepSell(ok, s)
  {
  }

  predicate CanMatch(s: Sweep) {
    match s.incoming.side
    case Buy => CanBuy(s)
    case Sell => CanSell(s)
  }

  function StepMatch(ok: nat -> bool, s: Sweep): Sweep
    requires CanMatch(s)
  {
    match s.incoming.side
    case Buy => StepBuy(ok, s)
    case Sell => StepSell(ok, s)
  }

  /** After the sweep the rest of the order goes into the book. */
  function Finish(s: Sweep): Desk {
    if s.incoming.IsActive() && s.incoming.Remaining() > 0
    then s.desk.(book := AddOrder(s.desk.book, s.incoming))
    else s.desk.(gone := s.desk.gone + [s.incoming])
  }

  ghost predicate Positive(es: seq<Resting>) {
    forall i :: 0 <= i < |es| ==> es[i].remaining > 0
  }

  ghost predicate PositiveBook(b: Book) {
    Positive(b.bids) && Positive(b.asks)
  }

  lemma {:induction false} RemoveKeepsPositive(es: seq<Resting>, id: string)
    requires Positive(es)
    ensures Positive(RemoveEntry(es, id))
  {
    if es != [] && es[0].order.id != id {
      RemoveKeepsPositive(es[1..], id);
    }
  }

  lemma {:induction false} TotalNotNegative(es: seq<Resting>)
    requires Positive(es)
    ensures 0 <= Total(es)
  {
    if es != [] {
      TotalNotNegative(es[1..]);
    }
  }

  /** Every iteration takes at least one unit off the opposite side, even one
      whose trade is lost: this is why the sweep ends. */
  lemma StepProgress(ok: nat -> bool, s: Sweep)
    requires CanMatch(s) && PositiveBook(s.desk.book)
    ensures PositiveBook(StepMatch(ok, s).desk.book)
    ensures s.incoming.side == Buy ==>
      0 <= Total(StepMatch(ok, s).desk.book.asks) < Total(s.desk.book.asks)
    ensures s.incoming.side == Sell ==>
      0 <= Total(StepMatch(ok, s).desk.book.bids) < Total(s.desk.book.bids)
  {
    var b, r := s.desk.book, StepMatch(ok, s).desk.book;
    match s.incoming.side
    case Buy =>
      assert r.asks[..] == b.asks[1..] || r.asks[1..] == b.asks[1..];
      forall id ensures Positive(RemoveEntry(b.bids, id)) { RemoveKeepsPositive(b.bids, id); }
      TotalNotNegative(r.asks);
    case Sell =>
      assert r.bids[..] == b.bids[1..] || r.bids[1..] == b.bids[1..];
      forall id ensures Positive(RemoveEntry(b.asks, id)) { RemoveKeepsPositive(b.asks, id); }
      TotalNotNegative(r.bids);
  }

  function OppositeSide(s: Sweep): seq<Resting> {
    match s.incoming.side case Buy => s.desk.book.asks case Sell => s.desk.book.bids
  }

  /** No iteration stops short: the best opposite entry goes, or all of it goes that the
      incoming order wants; and the incoming order is filled by as much, unless the trade
      is lost. */
  lemma StepExhausts(ok: nat -> bool, s: Sweep)
    requires CanMatch(s)
    ensures var r, es, want := StepMatch(ok, s), OppositeSide(s), s.incoming.Remaining();
      && (if want < es[0].remaining then |OppositeSide(r)| == |es| && OppositeSide(r)[0].remaining == es[0].remaining - want
          else OppositeSide(r) == es[1..])
      && r.incoming.Remaining() == if !ok(|s.desk.log|) then want else if want < es[0].remaining then 0 else want - es[0].remaining
  {
    var es, r := OppositeSide(s), OppositeSide(StepMatch(ok, s));
    assert s.incoming.Remaining() >= es[0].remaining ==> r == es[1..];
  }

  /** What is left of the side an incoming order of this side sweeps. */
  ghost function Opposite(s: Sweep): int {
    match s.incoming.side case Buy => Total(s.desk.book.asks) case Sell => Total(s.desk.book.bids)
  }

  /** The whole sweep: iterate until no iteration is possible. */
  ghost function SweepAll(ok: nat -> bool, s: Sweep): (r: Sweep)
    requires PositiveBook(s.desk.book)
    ensures PositiveBook(r.desk.book) && !CanMatch(r)
    decreases Opposite(s)
  {
    if CanMatch(s) then
      StepProgress(ok, s);
      SweepAll(ok, StepMatch(ok, s))
    else s
  }

  ghost function MatchOrder(ok: nat -> bool, d: Desk, o: OrderVal): (r: Desk)
    requires PositiveBook(d.book)
    ensures PositiveBook(r.book)
  {
    var s := SweepAll(ok, Sweep(d, o));
    AddKeepsPositive(s.desk.book, s.incoming);
    Finish(s)
  }

  lemma AddKeepsPositive(b: Book, o: OrderVal)
    ensures PositiveBook(b) && o.Remaining() > 0 ==> PositiveBook(AddOrder(b, o))
  {
    if PositiveBook(b) && o.Remaining() > 0 {
      forall x | x in AddOrder(b, o).bids + AddOrder(b, o).asks ensures x.remaining > 0 {
        SliceStableMember(b.bids + [Resting(o, o.Remaining())], BidKey, x);
        SliceStableMember(b.asks + [Resting(o, o.Remaining())], AskKey, x);
      }
    }
  }

  /** All the orders of a stream, one after the other. */
  ghost function Run(ok: nat -> bool, d: Desk, os: seq<OrderVal>): (r: Desk)
    requires PositiveBook(d.book)
    ensures PositiveBook(r.book)
  {
    if os == [] then d else MatchOrder(ok, Run(ok, d, os[..|os| - 1]), os[|os| - 1])
  }

  // ---------------------------------------------------------------- mirror

  function Flip(s: Side): Side {
    match s case Buy => Sell case Sell => Buy
  }

  function MirrorOrder(o: OrderVal): OrderVal {
    o.(side := Flip(o.side), price := -o.price)
  }

  function MirrorEntry(e: Resting): Resting {
    e.(order := MirrorOrder(e.order))
  }

  function MirrorEntries(es: seq<Resting>): seq<Resting> {
    seq(|es|, i requires 0 <= i < |es| => MirrorEntry(es[i]))
  }

  function MirrorBook(b: Book): Book {
    Book(MirrorEntries(b.asks), MirrorEntries(b.bids), b.index)
  }

  function MirrorTrade(t: Trade): Trade {
    t.(buyOrderId := t.sellOrderId, sellOrderId := t.buyOrderId,
       buyerId := t.sellerId, sellerId := t.buyerId, price := -t.price)
  }

  function MirrorAttempt(a: Attempt): Attempt {
    Attempt(MirrorTrade(a.trade), a.saved, Flip(a.aggressor))
  }

  function MirrorLog(log: seq<Attempt>): seq<Attempt> {
    seq(|log|, i requires 0 <= i < |log| => MirrorAttempt(log[i]))
  }

  function MirrorOrders(os: seq<OrderVal>): seq<OrderVal> {
    seq(|os|, i requires 0 <= i < |os| => MirrorOrder(os[i]))
  }

  function MirrorStore(store: map<string, OrderVal>): map<string, OrderVal> {
    map id | id in store :: MirrorOrder(store[id])
  }

  /** Sides swapped and prices negated. */
  function Mirror(d: Desk): Desk {
    Desk(d.stock, MirrorBook(d.book), MirrorLog(d.log), MirrorOrders(d.gone), MirrorStore(d.store))
  }

  function MirrorSweep(s: Sweep): Sweep {
    Sweep(Mirror(s.desk), MirrorOrder(s.incoming))
  }
}
