/** Quantities over whole runs: every order's fill is the sum of the saved trades
    naming it, whatever saves fail, and nothing is lost or found twice. */
module Ledger {
  import opened Entities
  import opened BookSpec
  import opened Matching
  import opened MirrorSymmetry
  import opened BookInvariant

  /** The quantity of saved trades that name this order. */
  function SavedQty(log: seq<Attempt>, id: string): int {
    if log == [] then 0
    else
      var a := log[|log| - 1];
      SavedQty(log[..|log| - 1], id)
      + if a.saved && (a.trade.buyOrderId == id || a.trade.sellOrderId == id) then a.trade.quantity else 0
  }

  function PassiveId(a: Attempt): string {
    match a.aggressor case Buy => a.trade.sellOrderId case Sell => a.trade.buyOrderId
  }

  /** The quantity charged to this order's entry by trades that were never saved. */
  function LostQty(log: seq<Attempt>, id: string): int {
    if log == [] then 0
    else
      var a := log[|log| - 1];
      LostQty(log[..|log| - 1], id) + if !a.saved && PassiveId(a) == id then a.trade.quantity else 0
  }

  /** An order filled by the saved trades naming it, and its stored copy, if it
      has one, up to date. */
  ghost predicate Booked(d: Desk, os: seq<OrderVal>, v: OrderVal) {
    && v.Lifecycle() && v.Identity() in os
    && v.filled == SavedQty(d.log, v.id)
    && (v.id in d.store ==> d.store[v.id] == v)
  }

  /** A resting order: its entry never exceeds the unfilled part of the order, and
      falls short of it by exactly what unsaved trades took. */
  ghost predicate RestingBooked(d: Desk, os: seq<OrderVal>, e: Resting) {
    && Booked(d, os, e.order)
    && 0 < e.remaining <= e.order.Remaining()
    && e.remaining == e.order.Remaining() - LostQty(d.log, e.order.id)
  }

  /** An order out of matching: only unsaved trades keep it from being filled. */
  ghost predicate GoneBooked(d: Desk, os: seq<OrderVal>, v: OrderVal) {
    Booked(d, os, v) && v.Remaining() == LostQty(d.log, v.id)
  }

  ghost predicate CurBooked(d: Desk, os: seq<OrderVal>, v: OrderVal) {
    Booked(d, os, v) && LostQty(d.log, v.id) == 0
  }

  function OrderIds(os: seq<OrderVal>): seq<string> {
    seq(|os|, i requires 0 <= i < |os| => os[i].id)
  }

  function EntryIds(es: seq<Resting>): seq<string> {
    seq(|es|, i requires 0 <= i < |es| => es[i].order.id)
  }

  function CurIds(cur: Option<OrderVal>): seq<string> {
    match cur case None => [] case Some(o) => [o.id]
  }

  /** Where each order is: done, resting, being matched, or still queued. */
  function Places(m: Micro): multiset<string> {
    multiset(OrderIds(m.desk.gone)) + multiset(EntryIds(m.desk.book.bids)) + multiset(EntryIds(m.desk.book.asks))
    + multiset(CurIds(m.cur)) + multiset(OrderIds(m.inbox))
  }

  ghost predicate Once(ids: multiset<string>) {
    forall id :: ids[id] <= 1
  }

  ghost predicate Records(m: Micro, os: seq<OrderVal>) {
    var d := m.desk;
    && (forall i :: 0 <= i < |m.desk.gone| ==> GoneBooked(d, os, m.desk.gone[i]))
    && (forall i :: 0 <= i < |m.desk.book.bids| ==> RestingBooked(d, os, m.desk.book.bids[i]))
    && (forall i :: 0 <= i < |m.desk.book.asks| ==> RestingBooked(d, os, m.desk.book.asks[i]))
    && (m.cur.Some? ==> CurBooked(d, os, m.cur.value))
    && (forall i :: 0 <= i < |m.inbox| ==> CurBooked(d, os, m.inbox[i]) && m.inbox[i].filled == 0)
  }

  ghost predicate LedgerInv(m: Micro, os: seq<OrderVal>) {
    BookInv(m.desk.book) && Once(Places(m)) && Records(m, os)
  }

  /** New orders, no two with the same ID. */
  ghost predicate NewOrders(os: seq<OrderVal>) {
    && (forall i :: 0 <= i < |os| ==> os[i].IsNew())
    && (forall i, j :: 0 <= i < j < |os| ==> os[i].id != os[j].id)
  }

  lemma {:induction false} OnceIds(ids: seq<string>)
    requires forall i, j :: 0 <= i < j < |ids| ==> ids[i] != ids[j]
    ensures Once(multiset(ids))
  {
    if ids != [] {
      var front := ids[..|ids| - 1];
      OnceIds(front);
      assert ids == front + [ids[|ids| - 1]];
      assert ids[|ids| - 1] !in front;
    }
  }

  lemma NowhereElse(stock: string, store: map<string, OrderVal>, os: seq<OrderVal>)
    ensures Places(Start(stock, store, os)) == multiset(OrderIds(os))
  {
    assert OrderIds([]) == [] && EntryIds([]) == [];
  }

  lemma InitLedger(stock: string, store: map<string, OrderVal>, os: seq<OrderVal>)
    requires NewOrders(os)
    requires forall i :: 0 <= i < |os| && os[i].id in store ==> store[os[i].id] == os[i]
    ensures LedgerInv(Start(stock, store, os), os)
    ensures Places(Start(stock, store, os)) == multiset(OrderIds(os))
  {
    OnceIds(OrderIds(os));
    NowhereElse(stock, store, os);
    forall i | 0 <= i < |os| ensures CurBooked(NewDesk(stock, store), os, os[i]) {
      assert os[i].Identity() == os[i] && os[i] in os;
    }
  }

  // --------------------------------------------------- one buy iteration

  lemma LogGrows(log: seq<Attempt>, a: Attempt, id: string)
    ensures SavedQty(log + [a], id) == SavedQty(log, id)
      + if a.saved && (a.trade.buyOrderId == id || a.trade.sellOrderId == id) then a.trade.quantity else 0
    ensures LostQty(log + [a], id) == LostQty(log, id)
      + if !a.saved && PassiveId(a) == id then a.trade.quantity else 0
  {
    assert (log + [a])[..|log|] == log;
  }

  /** The IDs of the incoming order and of the best ask occur nowhere else. */
  lemma OthersDiffer(m: Micro)
    requires Once(Places(m)) && m.cur.Some? && m.desk.book.asks != []
    ensures var x, y := m.cur.value.id, m.desk.book.asks[0].order.id;
      && x != y
      && (forall i :: 0 <= i < |m.desk.gone| ==> m.desk.gone[i].id != x && m.desk.gone[i].id != y)
      && (forall i :: 0 <= i < |m.desk.book.bids| ==> m.desk.book.bids[i].order.id != x && m.desk.book.bids[i].order.id != y)
      && (forall i :: 1 <= i < |m.desk.book.asks| ==> m.desk.book.asks[i].order.id != x && m.desk.book.asks[i].order.id != y)
      && (forall i :: 0 <= i < |m.inbox| ==> m.inbox[i].id != x && m.inbox[i].id != y)
  {
    var asks := m.desk.book.asks;
    var x, y, rest := m.cur.value.id, asks[0].order.id, asks[1..];
    assert EntryIds(asks) == [y] + EntryIds(rest);
    assert Places(m) == multiset(OrderIds(m.desk.gone)) + multiset(EntryIds(m.desk.book.bids)) + (multiset{y} + multiset(EntryIds(rest)))
                        + multiset{x} + multiset(OrderIds(m.inbox));
    assert Places(m)[x] <= 1 && Places(m)[y] <= 1;
    NoneOrdered(m.desk.gone, x, y);
    NoneResting(m.desk.book.bids, x, y);
    NoneResting(rest, x, y);
    NoneOrdered(m.inbox, x, y);
    forall i | 1 <= i < |asks| ensures asks[i] == rest[i - 1] {}
  }

  lemma NoneOrdered(os: seq<OrderVal>, x: string, y: string)
    requires multiset(OrderIds(os))[x] == 0 && multiset(OrderIds(os))[y] == 0
    ensures forall i :: 0 <= i < |os| ==> os[i].id != x && os[i].id != y
  {
    forall i | 0 <= i < |os| ensures os[i].id != x && os[i].id != y {
      assert OrderIds(os)[i] in multiset(OrderIds(os));
    }
  }

  lemma NoneResting(es: seq<Resting>, x: string, y: string)
    requires multiset(EntryIds(es))[x] == 0 && multiset(EntryIds(es))[y] == 0
    ensures forall i :: 0 <= i < |es| ==> es[i].order.id != x && es[i].order.id != y
  {
    forall i | 0 <= i < |es| ensures es[i].order.id != x && es[i].order.id != y {
      assert EntryIds(es)[i] in multiset(EntryIds(es));
    }
  }

  lemma BuyKeepsPlaces(ok: nat -> bool, m: Micro)
    requires BookInv(m.desk.book) && m.cur.Some? && m.cur.value.side == Buy && CanMatch(Sweep(m.desk, m.cur.value))
    ensures Places(MicroStep(ok, m)) == Places(m)
  {
    var best, sell := m.desk.book.asks[0], BestAskAfter(ok, m);
    var qty := Min(m.cur.value.Remaining(), best.remaining);
    ChargeAskShape(m.desk.book, sell, best.remaining - qty);
    PlacesMoved(m, MicroStep(ok, m), Resting(sell, best.remaining - qty));
  }

  /** A charged best ask keeps its place, or goes from the asks to the orders done. */
  lemma PlacesMoved(m: Micro, r: Micro, e: Resting)
    requires m.desk.book.asks != [] && e.order.id == m.desk.book.asks[0].order.id
    requires r.inbox == m.inbox && CurIds(r.cur) == CurIds(m.cur) && r.desk.book.bids == m.desk.book.bids
    requires var rest := m.desk.book.asks[1..];
      || (r.desk.book.asks == [e] + rest && r.desk.gone == m.desk.gone)
      || (r.desk.book.asks == rest && r.desk.gone == m.desk.gone + [e.order])
    ensures Places(r) == Places(m)
  {
    var asks, gone := m.desk.book.asks, m.desk.gone;
    assert EntryIds(asks) == [e.order.id] + EntryIds(asks[1..]);
    assert EntryIds([e] + asks[1..]) == [e.order.id] + EntryIds(asks[1..]);
    assert OrderIds(gone + [e.order]) == OrderIds(gone) + [e.order.id];
  }

  /** The best ask's order after this iteration. */
  function BestAskAfter(ok: nat -> bool, m: Micro): OrderVal
    requires m.cur.Some? && m.desk.book.asks != []
  {
    var best := m.desk.book.asks[0];
    if ok(|m.desk.log|) then best.order.AfterFill(Min(m.cur.value.Remaining(), best.remaining)) else best.order
  }

  /** An attempt between two other orders changes nothing about this one. */
  lemma Bystander(d: Desk, r: Desk, a: Attempt, os: seq<OrderVal>, v: OrderVal)
    requires r.log == d.log + [a] && a.trade.buyOrderId != v.id && a.trade.sellOrderId != v.id
    requires v.id in r.store ==> v.id in d.store && r.store[v.id] == d.store[v.id]
    ensures Booked(d, os, v) ==> Booked(r, os, v)
    ensures LostQty(r.log, v.id) == LostQty(d.log, v.id)
  {
    LogGrows(d.log, a, v.id);
  }

  /** The two orders of an attempt stay booked: both filled if it was saved, the
      resting entry alone charged if it was not. */
  lemma PartiesBooked(ok: nat -> bool, m: Micro, os: seq<OrderVal>)
    requires LedgerInv(m, os) && m.cur.Some? && m.cur.value.side == Buy && CanMatch(Sweep(m.desk, m.cur.value))
    ensures var r := StepBuy(ok, Sweep(m.desk, m.cur.value));
            var best, sell := m.desk.book.asks[0], BestAskAfter(ok, m);
            var left := best.remaining - Min(m.cur.value.Remaining(), best.remaining);
      && CurBooked(r.desk, os, r.incoming)
      && Booked(r.desk, os, sell)
      && left == sell.Remaining() - LostQty(r.desk.log, sell.id) && left <= sell.Remaining()
  {
    var s := Sweep(m.desk, m.cur.value);
    var r := StepBuy(ok, s);
    var best := m.desk.book.asks[0];
    OthersDiffer(m);
    assert RestingBooked(m.desk, os, best);
    var a := r.desk.log[|m.desk.log|];
    assert r.desk.log == m.desk.log + [a];
    LogGrows(m.desk.log, a, s.incoming.id);
    LogGrows(m.desk.log, a, best.order.id);
    assert r.incoming.Identity() == s.incoming.Identity();
    assert BestAskAfter(ok, m).Identity() == best.order.Identity();
  }

  lemma OthersBooked(ok: nat -> bool, m: Micro, os: seq<OrderVal>)
    requires LedgerInv(m, os) && m.cur.Some? && m.cur.value.side == Buy && CanMatch(Sweep(m.desk, m.cur.value))
    ensures var r := StepBuy(ok, Sweep(m.desk, m.cur.value)).desk;
      && (forall i :: 0 <= i < |m.desk.gone| ==> GoneBooked(r, os, m.desk.gone[i]))
      && (forall i :: 0 <= i < |m.desk.book.bids| ==> RestingBooked(r, os, m.desk.book.bids[i]))
      && (forall i :: 1 <= i < |m.desk.book.asks| ==> RestingBooked(r, os, m.desk.book.asks[i]))
      && (forall i :: 0 <= i < |m.inbox| ==> CurBooked(r, os, m.inbox[i]) && m.inbox[i].filled == 0)
  {
    var d, r := m.desk, StepBuy(ok, Sweep(m.desk, m.cur.value)).desk;
    OthersDiffer(m);
    var a := r.log[|d.log|];
    forall i | 0 <= i < |d.gone| ensures GoneBooked(r, os, d.gone[i]) {
      Bystander(d, r, a, os, d.gone[i]);
    }
    forall i | 0 <= i < |d.book.bids| ensures RestingBooked(r, os, d.book.bids[i]) {
      Bystander(d, r, a, os, d.book.bids[i].order);
    }
    forall i | 1 <= i < |d.book.asks| ensures RestingBooked(r, os, d.book.asks[i]) {
      Bystander(d, r, a, os, d.book.asks[i].order);
    }
    forall i | 0 <= i < |m.inbox| ensures CurBooked(r, os, m.inbox[i]) && m.inbox[i].filled == 0 {
      Bystander(d, r, a, os, m.inbox[i]);
    }
  }

  lemma BuyKeepsRecords(ok: nat -> bool, m: Micro, os: seq<OrderVal>)
    requires LedgerInv(m, os) && m.cur.Some? && m.cur.value.side == Buy && CanMatch(Sweep(m.desk, m.cur.value))
    ensures Records(MicroStep(ok, m), os)
  {
    var best, sell := m.desk.book.asks[0], BestAskAfter(ok, m);
    ChargeAskShape(m.desk.book, sell, best.remaining - Min(m.cur.value.Remaining(), best.remaining));
    PartiesBooked(ok, m, os);
    OthersBooked(ok, m, os);
  }

  lemma BuyKeepsLedger(ok: nat -> bool, m: Micro, os: seq<OrderVal>)
    requires LedgerInv(m, os) && m.cur.Some? && m.cur.value.side == Buy && CanMatch(Sweep(m.desk, m.cur.value))
    ensures LedgerInv(MicroStep(ok, m), os) && Places(MicroStep(ok, m)) == Places(m)
  {
    BuyKeepsPlaces(ok, m);
    BuyKeepsRecords(ok, m, os);
    StepInv(ok, Sweep(m.desk, m.cur.value));
  }

  // ------------------------------------------------------- the sell side

  function MirrorMicro(m: Micro): Micro {
    Micro(Mirror(m.desk), match m.cur case None => None case Some(o) => Some(MirrorOrder(o)), MirrorOrders(m.inbox))
  }

  lemma {:induction false} MirrorQty(log: seq<Attempt>, id: string)
    ensures SavedQty(MirrorLog(log), id) == SavedQty(log, id)
    ensures LostQty(MirrorLog(log), id) == LostQty(log, id)
  {
    if log != [] {
      assert MirrorLog(log)[..|log| - 1] == MirrorLog(log[..|log| - 1]);
      MirrorQty(log[..|log| - 1], id);
    }
  }

  lemma MirrorBooked(d: Desk, os: seq<OrderVal>, v: OrderVal)
    requires Booked(d, os, v)
    ensures Booked(Mirror(d), MirrorOrders(os), MirrorOrder(v))
  {
    MirrorQty(d.log, v.id);
    var i :| 0 <= i < |os| && os[i] == v.Identity();
    assert MirrorOrders(os)[i] == MirrorOrder(v).Identity();
  }

  lemma MirrorPlaces(m: Micro)
    ensures Places(MirrorMicro(m)) == Places(m)
  {
    var r := MirrorMicro(m);
    assert OrderIds(r.desk.gone) == OrderIds(m.desk.gone) && OrderIds(r.inbox) == OrderIds(m.inbox);
    assert EntryIds(r.desk.book.bids) == EntryIds(m.desk.book.asks);
    assert EntryIds(r.desk.book.asks) == EntryIds(m.desk.book.bids);
  }

  lemma MirrorLedger(m: Micro, os: seq<OrderVal>)
    requires LedgerInv(m, os)
    ensures LedgerInv(MirrorMicro(m), MirrorOrders(os))
  {
    var r, ps := MirrorMicro(m), MirrorOrders(os);
    MirrorBookInv(m.desk.book);
    MirrorPlaces(m);
    forall i | 0 <= i < |m.desk.gone| ensures GoneBooked(r.desk, ps, r.desk.gone[i]) {
      MirrorBooked(m.desk, os, m.desk.gone[i]);
      MirrorQty(m.desk.log, m.desk.gone[i].id);
    }
    forall i | 0 <= i < |m.desk.book.bids| ensures RestingBooked(r.desk, ps, r.desk.book.asks[i]) {
      MirrorBooked(m.desk, os, m.desk.book.bids[i].order);
      MirrorQty(m.desk.log, m.desk.book.bids[i].order.id);
    }
    forall i | 0 <= i < |m.desk.book.asks| ensures RestingBooked(r.desk, ps, r.desk.book.bids[i]) {
      MirrorBooked(m.desk, os, m.desk.book.asks[i].order);
      MirrorQty(m.desk.log, m.desk.book.asks[i].order.id);
    }
    if m.cur.Some? {
      MirrorBooked(m.desk, os, m.cur.value);
      MirrorQty(m.desk.log, m.cur.value.id);
    }
    forall i | 0 <= i < |m.inbox| ensures CurBooked(r.desk, ps, r.inbox[i]) {
      MirrorBooked(m.desk, os, m.inbox[i]);
      MirrorQty(m.desk.log, m.inbox[i].id);
    }
  }

  lemma MirrorOrdersTwice(os: seq<OrderVal>)
    ensures MirrorOrders(MirrorOrders(os)) == os
  {
  }

  lemma MirrorMicroTwice(m: Micro)
    ensures MirrorMicro(MirrorMicro(m)) == m
  {
    var r := MirrorMicro(MirrorMicro(m));
    assert r.desk == m.desk by {
      MirrorTwice(Sweep(m.desk, OrderVal("", "", "", Buy, 0, 0, 0, Open)));
    }
    assert r.inbox == m.inbox by {
      MirrorOrdersTwice(m.inbox);
    }
    assert r.cur == m.cur;
  }

  lemma MirrorSellStep(ok: nat -> bool, m: Micro)
    requires Once(Places(m)) && m.cur.Some? && m.cur.value.side == Sell && CanMatch(Sweep(m.desk, m.cur.value))
    ensures MicroStep(ok, MirrorMicro(m)) == MirrorMicro(MicroStep(ok, m))
  {
    MirrorPlaces(m);
    OthersDiffer(MirrorMicro(m));
    MirrorStepSell(ok, Sweep(m.desk, m.cur.value));
  }

  lemma SellKeepsLedger(ok: nat -> bool, m: Micro, os: seq<OrderVal>)
    requires LedgerInv(m, os) && m.cur.Some? && m.cur.value.side == Sell && CanMatch(Sweep(m.desk, m.cur.value))
    ensures LedgerInv(MicroStep(ok, m), os) && Places(MicroStep(ok, m)) == Places(m)
  {
    MirrorLedger(m, os);
    MirrorSellStep(ok, m);
    MirrorCan(Sweep(m.desk, m.cur.value));
    BuyKeepsLedger(ok, MirrorMicro(m), MirrorOrders(os));
    MirrorPlaces(m);
    MirrorPlaces(MicroStep(ok, m));
    MirrorLedger(MirrorMicro(MicroStep(ok, m)), MirrorOrders(os));
    MirrorMicroTwice(MicroStep(ok, m));
    MirrorOrdersTwice(os);
  }

  // ------------------------------------------------- taking up and resting

  lemma BeginKeepsPlaces(m: Micro)
    requires m.cur.None? && m.inbox != []
    ensures Places(Micro(m.desk, Some(m.inbox[0]), m.inbox[1..])) == Places(m)
  {
    assert OrderIds(m.inbox) == [m.inbox[0].id] + OrderIds(m.inbox[1..]);
  }

  lemma BeginKeepsLedger(ok: nat -> bool, m: Micro, os: seq<OrderVal>)
    requires LedgerInv(m, os) && m.cur.None? && m.inbox != []
    ensures LedgerInv(MicroStep(ok, m), os) && Places(MicroStep(ok, m)) == Places(m)
  {
    BeginKeepsPlaces(m);
    assert Records(Micro(m.desk, Some(m.inbox[0]), m.inbox[1..]), os);
  }

  /** With unique IDs the duplicate guard never bites: the rest of the order
      really goes into the book. */
  lemma CurNotResting(m: Micro)
    requires BookInv(m.desk.book) && Once(Places(m)) && m.cur.Some?
    ensures m.cur.value.id !in m.desk.book.index
  {
    var id, b, all := m.cur.value.id, m.desk.book, Places(m);
    var bids, asks := EntryIds(b.bids), EntryIds(b.asks);
    assert all[id] <= 1;
    forall i | 0 <= i < |b.bids| ensures b.bids[i].order.id != id { assert bids[i] in multiset(bids); }
    forall i | 0 <= i < |b.asks| ensures b.asks[i].order.id != id { assert asks[i] in multiset(asks); }
  }

  lemma FinishKeepsPlaces(ok: nat -> bool, m: Micro)
    requires BookInv(m.desk.book) && m.cur.Some? && !CanMatch(Sweep(m.desk, m.cur.value)) && m.cur.value.id !in m.desk.book.index
    ensures Places(MicroStep(ok, m)) == Places(m)
  {
    var o, b, r := m.cur.value, m.desk.book, MicroStep(ok, m);
    if o.IsActive() && o.Remaining() > 0 {
      var p := AddOrderSplits(b, o);
      InsertedIds(b.bids, Resting(o, o.Remaining()), if o.side == Buy then p else 0);
      InsertedIds(b.asks, Resting(o, o.Remaining()), if o.side == Sell then p else 0);
    } else {
      assert OrderIds(r.desk.gone) == OrderIds(m.desk.gone) + [o.id];
    }
  }

  lemma InsertedIds(es: seq<Resting>, e: Resting, p: nat)
    requires p <= |es|
    ensures multiset(EntryIds(es[..p] + [e] + es[p..])) == multiset(EntryIds(es)) + multiset{e.order.id}
  {
    assert EntryIds(es[..p] + [e] + es[p..]) == EntryIds(es[..p]) + [e.order.id] + EntryIds(es[p..]);
    assert EntryIds(es) == EntryIds(es[..p]) + EntryIds(es[p..]);
  }

  /** What is booked depends on the log and the stored copies only. */
  lemma SameBooked(d: Desk, r: Desk, os: seq<OrderVal>)
    requires r.log == d.log && r.store == d.store
    ensures forall v :: Booked(r, os, v) <==> Booked(d, os, v)
    ensures forall e :: RestingBooked(r, os, e) <==> RestingBooked(d, os, e)
  {
  }

  ghost predicate AllRestingBooked(d: Desk, os: seq<OrderVal>, es: seq<Resting>) {
    forall i :: 0 <= i < |es| ==> RestingBooked(d, os, es[i])
  }

  lemma InsertedBooked(d: Desk, os: seq<OrderVal>, es: seq<Resting>, e: Resting, p: nat)
    requires p <= |es| && AllRestingBooked(d, os, es) && RestingBooked(d, os, e)
    ensures AllRestingBooked(d, os, es[..p] + [e] + es[p..])
  {
    var r := es[..p] + [e] + es[p..];
    forall i | 0 <= i < |r| ensures RestingBooked(d, os, r[i]) {
      assert r[i] == if i == p then e else es[if i < p then i else i - 1];
    }
  }

  lemma RestedRecords(m: Micro, os: seq<OrderVal>)
    requires LedgerInv(m, os) && m.cur.Some? && m.cur.value.Remaining() > 0 && m.cur.value.id !in m.desk.book.index
    ensures Records(Micro(m.desk.(book := AddOrder(m.desk.book, m.cur.value)), None, m.inbox), os)
  {
    var o, b := m.cur.value, m.desk.book;
    var r := m.desk.(book := AddOrder(b, o));
    var p := AddOrderSplits(b, o);
    var e := Resting(o, o.Remaining());
    assert AllRestingBooked(m.desk, os, if o.side == Buy then b.bids else b.asks);
    InsertedBooked(m.desk, os, if o.side == Buy then b.bids else b.asks, e, p);
    SameBooked(m.desk, r, os);
    assert AllRestingBooked(m.desk, os, r.book.bids) && AllRestingBooked(m.desk, os, r.book.asks);
  }

  lemma RetiredRecords(m: Micro, os: seq<OrderVal>)
    requires Records(m, os) && m.cur.Some? && !(m.cur.value.IsActive() && m.cur.value.Remaining() > 0)
    ensures Records(Micro(m.desk.(gone := m.desk.gone + [m.cur.value]), None, m.inbox), os)
  {
    var o := m.cur.value;
    var r := m.desk.(gone := m.desk.gone + [o]);
    assert CurBooked(m.desk, os, o);
    forall v ensures Booked(m.desk, os, v) ==> Booked(r, os, v) {}
    forall i | 0 <= i < |r.gone| ensures GoneBooked(r, os, r.gone[i]) {
      assert i < |m.desk.gone| ==> GoneBooked(m.desk, os, m.desk.gone[i]);
    }
    forall i | 0 <= i < |r.book.bids| ensures RestingBooked(r, os, r.book.bids[i]) {
      assert RestingBooked(m.desk, os, m.desk.book.bids[i]);
    }
    forall i | 0 <= i < |r.book.asks| ensures RestingBooked(r, os, r.book.asks[i]) {
      assert RestingBooked(m.desk, os, m.desk.book.asks[i]);
    }
  }

  lemma FinishKeepsLedger(ok: nat -> bool, m: Micro, os: seq<OrderVal>)
    requires LedgerInv(m, os) && m.cur.Some? && !CanMatch(Sweep(m.desk, m.cur.value))
    ensures LedgerInv(MicroStep(ok, m), os) && Places(MicroStep(ok, m)) == Places(m)
  {
    CurNotResting(m);
    FinishKeepsPlaces(ok, m);
    FinishInv(Sweep(m.desk, m.cur.value));
    if m.cur.value.IsActive() && m.cur.value.Remaining() > 0 {
      RestedRecords(m, os);
    } else {
      RetiredRecords(m, os);
    }
  }

  // --------------------------------------------------------- whole runs

  lemma MicroKeepsLedger(ok: nat -> bool, m: Micro, os: seq<OrderVal>)
    requires LedgerInv(m, os)
    ensures LedgerInv(MicroStep(ok, m), os) && Places(MicroStep(ok, m)) == Places(m)
  {
    if m.cur.None? {
      if m.inbox != [] {
        BeginKeepsLedger(ok, m, os);
      }
    } else if !CanMatch(Sweep(m.desk, m.cur.value)) {
      FinishKeepsLedger(ok, m, os);
    } else if m.cur.value.side == Buy {
      BuyKeepsLedger(ok, m, os);
    } else {
      SellKeepsLedger(ok, m, os);
    }
  }

  /** At every moment of every run, whatever saves fail, the ledger is exact and
      every order is in exactly one place. */
  lemma {:induction false} LedgerAlways(ok: nat -> bool, stock: string, store: map<string, OrderVal>, os: seq<OrderVal>, k: nat)
    requires NewOrders(os)
    requires forall i :: 0 <= i < |os| && os[i].id in store ==> store[os[i].id] == os[i]
    ensures LedgerInv(At(ok, Start(stock, store, os), k), os)
    ensures Places(At(ok, Start(stock, store, os), k)) == multiset(OrderIds(os))
  {
    if k == 0 {
      InitLedger(stock, store, os);
    } else {
      LedgerAlways(ok, stock, store, os, k - 1);
      MicroKeepsLedger(ok, At(ok, Start(stock, store, os), k - 1), os);
    }
  }

  /** The same, handing over the state. */
  lemma LedgerSoFar(ok: nat -> bool, stock: string, store: map<string, OrderVal>, os: seq<OrderVal>, k: nat) returns (m: Micro)
    requires NewOrders(os)
    requires forall i :: 0 <= i < |os| && os[i].id in store ==> store[os[i].id] == os[i]
    ensures m == At(ok, Start(stock, store, os), k)
    ensures LedgerInv(m, os) && Places(m) == multiset(OrderIds(os))
  {
    LedgerAlways(ok, stock, store, os, k);
    m := At(ok, Start(stock, store, os), k);
  }
}
