/** Quantity is conserved side by side over every run, and without faults the
    whole of every finished order was traded. */
module Conservation {
  import opened Entities
  import opened BookSpec
  import opened Matching
  import opened MirrorSymmetry
  import opened BookInvariant
  import opened Ledger

  function Volume(ts: seq<Trade>): int {
    if ts == [] then 0 else Volume(ts[..|ts| - 1]) + ts[|ts| - 1].quantity
  }

  /** The quantity unsaved trades charged to resting orders of this side. */
  function LostOn(log: seq<Attempt>, side: Side): int {
    if log == [] then 0
    else
      var a := log[|log| - 1];
      LostOn(log[..|log| - 1], side) + if !a.saved && a.aggressor != side then a.trade.quantity else 0
  }

  function Quantity(os: seq<OrderVal>, side: Side): int {
    if os == [] then 0 else (if os[0].side == side then os[0].quantity else 0) + Quantity(os[1..], side)
  }

  function RestingQty(b: Book, side: Side): int {
    match side case Buy => Total(b.bids) case Sell => Total(b.asks)
  }

  function CurQty(cur: Option<OrderVal>, side: Side): int {
    match cur case None => 0 case Some(o) => if o.side == side then o.Remaining() else 0
  }

  /** Queued, in hand, resting, traded, and lost to unsaved trades. */
  function Held(m: Micro, side: Side): int {
    Quantity(m.inbox, side) + CurQty(m.cur, side) + RestingQty(m.desk.book, side)
    + Volume(Saved(m.desk.log)) + LostOn(m.desk.log, side)
  }

  lemma LogTotals(log: seq<Attempt>, a: Attempt, side: Side)
    ensures Volume(Saved(log + [a])) == Volume(Saved(log)) + if a.saved then a.trade.quantity else 0
    ensures LostOn(log + [a], side) == LostOn(log, side) + if !a.saved && a.aggressor != side then a.trade.quantity else 0
  {
    assert (log + [a])[..|log|] == log;
    if a.saved {
      assert (Saved(log) + [a.trade])[..|Saved(log)|] == Saved(log);
    }
  }

  /** What a buy iteration does to the quantities: qty units leave the asks, and the
      incoming order if the trade a was saved. */
  ghost predicate BuyMoves(m: Micro, r: Micro, qty: int, a: Attempt)
    requires m.cur.Some?
  {
    && r.inbox == m.inbox && r.cur == Some(if a.saved then m.cur.value.AfterFill(qty) else m.cur.value)
    && r.desk.book.bids == m.desk.book.bids && Total(r.desk.book.asks) == Total(m.desk.book.asks) - qty
    && r.desk.log == m.desk.log + [a] && a.trade.quantity == qty && a.aggressor == Buy
  }

  lemma BuyIterationMoves(ok: nat -> bool, m: Micro) returns (qty: int, a: Attempt)
    requires BookInv(m.desk.book) && m.cur.Some? && m.cur.value.side == Buy && CanMatch(Sweep(m.desk, m.cur.value))
    ensures BuyMoves(m, MicroStep(ok, m), qty, a) && qty > 0
  {
    var d, best, sell := m.desk, m.desk.book.asks[0], BestAskAfter(ok, m);
    var r := MicroStep(ok, m);
    qty := Min(m.cur.value.Remaining(), best.remaining);
    a := r.desk.log[|d.log|];
    ChargeAskShape(d.book, sell, best.remaining - qty);
    if best.remaining > qty {
      assert r.desk.book.asks[1..] == d.book.asks[1..];
    }
  }

  lemma MovesConserve(m: Micro, r: Micro, qty: int, a: Attempt, side: Side)
    requires m.cur.Some? && m.cur.value.side == Buy && BuyMoves(m, r, qty, a)
    ensures Held(r, side) == Held(m, side)
  {
    LogTotals(m.desk.log, a, side);
  }

  lemma BuyConserves(ok: nat -> bool, m: Micro, side: Side)
    requires BookInv(m.desk.book) && m.cur.Some? && m.cur.value.side == Buy && CanMatch(Sweep(m.desk, m.cur.value))
    ensures Held(MicroStep(ok, m), side) == Held(m, side)
  {
    var qty, a := BuyIterationMoves(ok, m);
    MovesConserve(m, MicroStep(ok, m), qty, a, side);
  }

  lemma {:induction false} MirrorVolume(log: seq<Attempt>, side: Side)
    ensures Volume(Saved(MirrorLog(log))) == Volume(Saved(log))
    ensures LostOn(MirrorLog(log), Flip(side)) == LostOn(log, side)
  {
    if log != [] {
      var front, a := log[..|log| - 1], log[|log| - 1];
      assert MirrorLog(log) == MirrorLog(front) + [MirrorAttempt(a)] && log == front + [a];
      MirrorVolume(front, side);
      LogTotals(front, a, side);
      LogTotals(MirrorLog(front), MirrorAttempt(a), Flip(side));
    }
  }

  lemma {:induction false} MirrorQuantity(os: seq<OrderVal>, side: Side)
    ensures Quantity(MirrorOrders(os), Flip(side)) == Quantity(os, side)
  {
    if os != [] {
      assert MirrorOrders(os)[1..] == MirrorOrders(os[1..]);
      MirrorQuantity(os[1..], side);
    }
  }

  lemma MirrorHeld(m: Micro, side: Side)
    ensures Held(MirrorMicro(m), Flip(side)) == Held(m, side)
  {
    MirrorQuantity(m.inbox, side);
    MirrorVolume(m.desk.log, side);
    MirrorTotal(m.desk.book.bids);
    MirrorTotal(m.desk.book.asks);
  }

  lemma {:induction false} InsertedTotal(es: seq<Resting>, e: Resting, p: nat)
    requires p <= |es|
    ensures Total(es[..p] + [e] + es[p..]) == Total(es) + e.remaining
  {
    TotalAppend(es[..p] + [e], es[p..]);
    TotalAppend(es[..p], [e]);
    assert es == es[..p] + es[p..];
    TotalAppend(es[..p], es[p..]);
    assert Total([e]) == e.remaining;
  }

  lemma FinishConserves(ok: nat -> bool, m: Micro, os: seq<OrderVal>, side: Side)
    requires LedgerInv(m, os) && m.cur.Some? && !CanMatch(Sweep(m.desk, m.cur.value))
    ensures Held(MicroStep(ok, m), side) == Held(m, side)
  {
    var o, b := m.cur.value, m.desk.book;
    CurNotResting(m);
    if o.IsActive() && o.Remaining() > 0 {
      var p := AddOrderSplits(b, o);
      if o.side == Buy {
        InsertedTotal(b.bids, Resting(o, o.Remaining()), p);
      } else {
        InsertedTotal(b.asks, Resting(o, o.Remaining()), p);
      }
    }
  }

  lemma MicroConserves(ok: nat -> bool, m: Micro, os: seq<OrderVal>, side: Side)
    requires LedgerInv(m, os)
    ensures Held(MicroStep(ok, m), side) == Held(m, side)
  {
    if m.cur.None? {
      assert m.inbox != [] ==> CurBooked(m.desk, os, m.inbox[0]) && m.inbox[0].filled == 0;
    } else if !CanMatch(Sweep(m.desk, m.cur.value)) {
      FinishConserves(ok, m, os, side);
    } else if m.cur.value.side == Buy {
      BuyConserves(ok, m, side);
    } else {
      MirrorCan(Sweep(m.desk, m.cur.value));
      MirrorBookInv(m.desk.book);
      BuyConserves(ok, MirrorMicro(m), Flip(side));
      MirrorSellStep(ok, m);
      MirrorHeld(m, side);
      MirrorHeld(MicroStep(ok, m), side);
    }
  }

  /** On each side, at every moment of every run: accepted = queued + in hand +
      resting + traded + lost to unsaved trades. */
  lemma {:induction false} Conserved(ok: nat -> bool, stock: string, store: map<string, OrderVal>, os: seq<OrderVal>, k: nat, side: Side)
    requires NewOrders(os)
    requires forall i :: 0 <= i < |os| && os[i].id in store ==> store[os[i].id] == os[i]
    ensures Held(At(ok, Start(stock, store, os), k), side) == Quantity(os, side)
    decreases k, 0
  {
    if k > 0 {
      var m := HeldSoFar(ok, stock, store, os, k - 1, side);
      MicroConserves(ok, m, os, side);
    }
  }

  lemma HeldSoFar(ok: nat -> bool, stock: string, store: map<string, OrderVal>, os: seq<OrderVal>, k: nat, side: Side) returns (m: Micro)
    requires NewOrders(os)
    requires forall i :: 0 <= i < |os| && os[i].id in store ==> store[os[i].id] == os[i]
    ensures m == At(ok, Start(stock, store, os), k)
    ensures LedgerInv(m, os) && Held(m, side) == Quantity(os, side)
    decreases k, 1
  {
    Conserved(ok, stock, store, os, k, side);
    m := LedgerSoFar(ok, stock, store, os, k);
  }

  // -------------------------------------------------------- what the log says

  /** Attempts are numbered in order, carry this stock, trade at least one unit,
      and succeed when the oracle says so. */
  ghost predicate LogInv(ok: nat -> bool, stock: string, log: seq<Attempt>) {
    forall i :: 0 <= i < |log| ==>
      log[i].saved == ok(i) && log[i].trade.id == i && log[i].trade.stock == stock && log[i].trade.quantity >= 1
  }

  lemma StepLogs(ok: nat -> bool, s: Sweep)
    requires CanMatch(s) && PositiveBook(s.desk.book) && LogInv(ok, s.desk.stock, s.desk.log)
    ensures LogInv(ok, s.desk.stock, StepMatch(ok, s).desk.log)
    ensures StepMatch(ok, s).desk.stock == s.desk.stock
  {
    var r := StepMatch(ok, s).desk.log;
    var best := if s.incoming.side == Buy then s.desk.book.asks[0] else s.desk.book.bids[0];
    assert best.remaining > 0;
    assert r[..|s.desk.log|] == s.desk.log && |r| == |s.desk.log| + 1;
    forall i | 0 <= i < |r| ensures r[i].saved == ok(i) && r[i].trade.id == i && r[i].trade.stock == s.desk.stock && r[i].trade.quantity >= 1 {
      assert i < |s.desk.log| ==> r[i] == s.desk.log[i];
    }
  }

  lemma {:induction false} LogAlways(ok: nat -> bool, stock: string, store: map<string, OrderVal>, os: seq<OrderVal>, k: nat)
    ensures LogInv(ok, stock, At(ok, Start(stock, store, os), k).desk.log)
    ensures At(ok, Start(stock, store, os), k).desk.stock == stock
  {
    if k > 0 {
      var m := At(ok, Start(stock, store, os), k - 1);
      LogAlways(ok, stock, store, os, k - 1);
      BookInvAlways(ok, stock, store, os, k - 1);
      if m.cur.Some? && CanMatch(Sweep(m.desk, m.cur.value)) {
        StepLogs(ok, Sweep(m.desk, m.cur.value));
      }
    }
  }

  ghost predicate NoFault(ok: nat -> bool) {
    forall n :: ok(n)
  }

  lemma {:induction false} NothingLost(log: seq<Attempt>, id: string, side: Side)
    requires forall i :: 0 <= i < |log| ==> log[i].saved
    ensures LostQty(log, id) == 0 && LostOn(log, side) == 0
  {
    if log != [] {
      NothingLost(log[..|log| - 1], id, side);
    }
  }

  /** Without faults entries and orders never drift apart, whoever is done is
      filled, and as much was bought as was sold. */
  lemma NoFaultExact(ok: nat -> bool, stock: string, store: map<string, OrderVal>, os: seq<OrderVal>, k: nat)
    requires NewOrders(os) && NoFault(ok)
    requires forall i :: 0 <= i < |os| && os[i].id in store ==> store[os[i].id] == os[i]
    ensures var m := At(ok, Start(stock, store, os), k);
      && (forall v :: v in m.desk.gone ==> v.status == Status.Filled && v.filled == v.quantity)
      && (forall e :: e in m.desk.book.bids + m.desk.book.asks ==> e.remaining == e.order.Remaining())
      && Quantity(os, Buy) - Quantity(m.inbox, Buy) - CurQty(m.cur, Buy) - Total(m.desk.book.bids) == Volume(Saved(m.desk.log))
      && Quantity(os, Sell) - Quantity(m.inbox, Sell) - CurQty(m.cur, Sell) - Total(m.desk.book.asks) == Volume(Saved(m.desk.log))
  {
    var m := At(ok, Start(stock, store, os), k);
    LedgerAlways(ok, stock, store, os, k);
    LogAlways(ok, stock, store, os, k);
    Conserved(ok, stock, store, os, k, Buy);
    Conserved(ok, stock, store, os, k, Sell);
    NothingLost(m.desk.log, "", Buy);
    NothingLost(m.desk.log, "", Sell);
    forall v | v in m.desk.gone ensures v.status == Status.Filled && v.filled == v.quantity {
      NothingLost(m.desk.log, v.id, Buy);
    }
    forall e | e in m.desk.book.bids + m.desk.book.asks ensures e.remaining == e.order.Remaining() {
      NothingLost(m.desk.log, e.order.id, Buy);
    }
  }
}
