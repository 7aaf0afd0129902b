/** The order store all matchers share: every order reads back from it with the status
    and the fill the engine has for it. */
module SharedOrders {
  import opened Entities
  import opened Matching
  import opened BookInvariant
  import opened Ledger
  import opened Exchange

  /** How orders reach the engine: new, saved under an ID of their own, and submitted
      once at most, after the save. */
  ghost predicate Protocol(evs: seq<Event>) {
    && (forall i :: 0 <= i < |evs| && evs[i].Save? ==> evs[i].order.IsNew())
    && (forall i, j :: 0 <= i < j < |evs| && evs[i].Save? && evs[j].Save? ==> evs[i].order.id != evs[j].order.id)
    && (forall i, j :: 0 <= i < j < |evs| && evs[i].Submit? && evs[j].Submit? ==> evs[i].order.id != evs[j].order.id)
    && (forall i :: 0 <= i < |evs| && evs[i].Submit? ==> SavedBefore(evs, i))
  }

  ghost predicate SavedBefore(evs: seq<Event>, i: nat)
    requires i < |evs| && evs[i].Submit?
  {
    exists j :: 0 <= j < i && evs[j] == Save(evs[i].order)
  }

  lemma ProtocolBefore(evs: seq<Event>, n: nat)
    requires Protocol(evs) && n <= |evs|
    ensures Protocol(evs[..n])
  {
    forall i | 0 <= i < n && evs[..n][i].Submit? ensures SavedBefore(evs[..n], i) {
      assert SavedBefore(evs, i);
      var j :| 0 <= j < i && evs[j] == Save(evs[i].order);
      assert evs[..n][j] == evs[j];
    }
  }

  // --------------------------------------------------- the accepted orders

  /** The moment the j-th order of stock k was accepted. */
  lemma {:induction false} AcceptedAt(c: Config, evs: seq<Event>, k: string, j: nat) returns (i: nat)
    requires j < |Accepted(c, evs, k)|
    ensures i < |evs| && evs[i] == Submit(Accepted(c, evs, k)[j]) && evs[i].order.stock == k
    ensures |Accepted(c, evs[..i], k)| == j
  {
    var front := evs[..|evs| - 1];
    if j < |Accepted(c, front, k)| {
      i := AcceptedAt(c, front, k, j);
      assert front[..i] == evs[..i];
    } else {
      i := |evs| - 1;
    }
  }

  /** No two orders accepted, for one stock or for two, share an ID. */
  lemma AcceptedApart(c: Config, evs: seq<Event>, k: string, i: nat, l: string, j: nat)
    requires Protocol(evs) && i < |Accepted(c, evs, k)| && j < |Accepted(c, evs, l)| && (k != l || i != j)
    ensures Accepted(c, evs, k)[i].id != Accepted(c, evs, l)[j].id
  {
    var a := AcceptedAt(c, evs, k, i);
    var b := AcceptedAt(c, evs, l, j);
    assert a != b;
  }

  lemma AcceptedNew(c: Config, evs: seq<Event>, k: string)
    requires Protocol(evs)
    ensures NewOrders(Accepted(c, evs, k))
  {
    var os := Accepted(c, evs, k);
    forall i | 0 <= i < |os| ensures os[i].IsNew() {
      var a := AcceptedAt(c, evs, k, i);
      assert SavedBefore(evs, a);
    }
    forall i, j | 0 <= i < j < |os| ensures os[i].id != os[j].id {
      AcceptedApart(c, evs, k, i, k, j);
    }
  }

  /** The ledger of each matcher, over the shared stores. */
  lemma LineLedger(c: Config, evs: seq<Event>, k: string) returns (m: Micro)
    requires Protocol(evs) && k in c.stocks
    ensures k in After(c, evs).lines && m == After(c, evs).lines[k]
    ensures LedgerInv(m, Accepted(c, evs, k)) && Places(m) == multiset(OrderIds(Accepted(c, evs, k)))
  {
    AcceptedNew(c, evs, k);
    var n := EveryStockSequential(c, evs, k);
    m := LedgerSoFar(Heard(After(c, evs).lines[k].desk.log), k, map[], Accepted(c, evs, k), n);
  }

  /** Nobody has accepted an order of this ID yet. */
  ghost predicate Unaccepted(c: Config, evs: seq<Event>, id: string) {
    forall k :: k in c.stocks ==> id !in OrderIds(Accepted(c, evs, k))
  }

  lemma NotYetAccepted(c: Config, evs: seq<Event>, o: OrderVal)
    requires Protocol(evs + [Submit(o)])
    ensures Unaccepted(c, evs, o.id)
  {
    var all := evs + [Submit(o)];
    forall k | k in c.stocks ensures o.id !in OrderIds(Accepted(c, evs, k)) {
      var os := Accepted(c, evs, k);
      forall j | 0 <= j < |os| ensures os[j].id != o.id {
        var i := AcceptedAt(c, evs, k, j);
        assert all[i] == evs[i] && all[|evs|] == Submit(o);
      }
    }
  }

  // ------------------------------------------------------ the stored copies

  ghost predicate Copy(orders: map<string, OrderVal>, v: OrderVal) {
    v.id in orders && orders[v.id] == v
  }

  /** Every order this matcher has, wherever it is, is stored as it is. */
  ghost predicate Copied(m: Micro, orders: map<string, OrderVal>) {
    && (forall i :: 0 <= i < |m.desk.gone| ==> Copy(orders, m.desk.gone[i]))
    && (forall i :: 0 <= i < |m.desk.book.bids| ==> Copy(orders, m.desk.book.bids[i].order))
    && (forall i :: 0 <= i < |m.desk.book.asks| ==> Copy(orders, m.desk.book.asks[i].order))
    && (m.cur.Some? ==> Copy(orders, m.cur.value))
    && (forall i :: 0 <= i < |m.inbox| ==> Copy(orders, m.inbox[i]))
  }

  lemma PlacesHave(m: Micro)
    ensures forall i :: 0 <= i < |m.desk.gone| ==> m.desk.gone[i].id in Places(m)
    ensures forall i :: 0 <= i < |m.desk.book.bids| ==> m.desk.book.bids[i].order.id in Places(m)
    ensures forall i :: 0 <= i < |m.desk.book.asks| ==> m.desk.book.asks[i].order.id in Places(m)
    ensures m.cur.Some? ==> m.cur.value.id in Places(m)
    ensures forall i :: 0 <= i < |m.inbox| ==> m.inbox[i].id in Places(m)
  {
    var d := m.desk;
    forall i | 0 <= i < |d.gone| ensures d.gone[i].id in Places(m) { assert OrderIds(d.gone)[i] in multiset(OrderIds(d.gone)); }
    forall i | 0 <= i < |d.book.bids| ensures d.book.bids[i].order.id in Places(m) { assert EntryIds(d.book.bids)[i] in multiset(EntryIds(d.book.bids)); }
    forall i | 0 <= i < |d.book.asks| ensures d.book.asks[i].order.id in Places(m) { assert EntryIds(d.book.asks)[i] in multiset(EntryIds(d.book.asks)); }
    forall i | 0 <= i < |m.inbox| ensures m.inbox[i].id in Places(m) { assert OrderIds(m.inbox)[i] in multiset(OrderIds(m.inbox)); }
  }

  lemma LendKeepsLedger(m: Micro, orders: map<string, OrderVal>, os: seq<OrderVal>)
    requires LedgerInv(m, os) && Copied(m, orders)
    ensures LedgerInv(Lend(m, orders), os) && Places(Lend(m, orders)) == Places(m)
  {
    var d := Lend(m, orders).desk;
    forall i | 0 <= i < |d.gone| ensures GoneBooked(d, os, d.gone[i]) { assert GoneBooked(m.desk, os, d.gone[i]); }
    forall i | 0 <= i < |d.book.bids| ensures RestingBooked(d, os, d.book.bids[i]) { assert RestingBooked(m.desk, os, d.book.bids[i]); }
    forall i | 0 <= i < |d.book.asks| ensures RestingBooked(d, os, d.book.asks[i]) { assert RestingBooked(m.desk, os, d.book.asks[i]); }
    forall i | 0 <= i < |m.inbox| ensures CurBooked(d, os, m.inbox[i]) { assert CurBooked(m.desk, os, m.inbox[i]); }
  }

  lemma LedgerIsCopied(m: Micro, os: seq<OrderVal>)
    requires LedgerInv(m, os) && forall id :: id in Places(m) ==> id in m.desk.store
    ensures Copied(m, m.desk.store)
  {
    PlacesHave(m);
    var d := m.desk;
    forall i | 0 <= i < |d.gone| ensures Copy(d.store, d.gone[i]) { assert GoneBooked(d, os, d.gone[i]); }
    forall i | 0 <= i < |d.book.bids| ensures Copy(d.store, d.book.bids[i].order) { assert RestingBooked(d, os, d.book.bids[i]); }
    forall i | 0 <= i < |d.book.asks| ensures Copy(d.store, d.book.asks[i].order) { assert RestingBooked(d, os, d.book.asks[i]); }
    forall i | 0 <= i < |m.inbox| ensures Copy(d.store, m.inbox[i]) { assert CurBooked(d, os, m.inbox[i]); }
  }

  lemma AllStored(m: Micro, orders: map<string, OrderVal>, id: string)
    requires Copied(m, orders) && id in Places(m)
    ensures id in orders
  {
    var d := m.desk;
    if id in multiset(OrderIds(d.gone)) {
      var i :| 0 <= i < |d.gone| && OrderIds(d.gone)[i] == id;
    } else if id in multiset(EntryIds(d.book.bids)) {
      var i :| 0 <= i < |d.book.bids| && EntryIds(d.book.bids)[i] == id;
    } else if id in multiset(EntryIds(d.book.asks)) {
      var i :| 0 <= i < |d.book.asks| && EntryIds(d.book.asks)[i] == id;
    } else if id in multiset(OrderIds(m.inbox)) {
      var i :| 0 <= i < |m.inbox| && OrderIds(m.inbox)[i] == id;
    }
  }

  /** The orders an iteration trades between: the incoming one and the best opposite. */
  function Parties(s: Sweep): (OrderVal, OrderVal)
    requires CanMatch(s)
  {
    match s.incoming.side
    case Buy => (s.incoming, s.desk.book.asks[0].order)
    case Sell => (s.desk.book.bids[0].order, s.incoming)
  }

  lemma MatchUpdates(ok: nat -> bool, s: Sweep) returns (qty: int)
    requires CanMatch(s)
    ensures var r, (buy, sell) := StepMatch(ok, s).desk.store, Parties(s);
      r == s.desk.store || r == UpdateStore(UpdateStore(s.desk.store, buy.AfterFill(qty)), sell.AfterFill(qty))
  {
    var best := if s.incoming.side == Buy then s.desk.book.asks[0] else s.desk.book.bids[0];
    qty := Min(s.incoming.Remaining(), best.remaining);
  }

  lemma UpdateWrites(store: map<string, OrderVal>, o: OrderVal, id: string)
    ensures var r := UpdateStore(store, o);
      && (id in r <==> id in store) && (id != o.id && id in r ==> r[id] == store[id])
  {
  }

  /** A step writes to no other orders than its matcher's, and adds none. */
  lemma StepWritesOwn(ok: nat -> bool, m: Micro, id: string)
    ensures var r := MicroStep(ok, m).desk.store;
      && (id in r <==> id in m.desk.store)
      && (id !in Places(m) && id in r ==> r[id] == m.desk.store[id])
  {
    if m.cur.Some? && CanMatch(Sweep(m.desk, m.cur.value)) {
      var s := Sweep(m.desk, m.cur.value);
      var (buy, sell) := Parties(s);
      var qty := MatchUpdates(ok, s);
      PlacesHave(m);
      UpdateWrites(m.desk.store, buy.AfterFill(qty), id);
      UpdateWrites(UpdateStore(m.desk.store, buy.AfterFill(qty)), sell.AfterFill(qty), id);
    }
  }

  lemma CopiedElsewhere(m: Micro, orders: map<string, OrderVal>, r: map<string, OrderVal>)
    requires Copied(m, orders)
    requires forall id :: id in Places(m) && id in orders ==> id in r && r[id] == orders[id]
    ensures Copied(m, r)
  {
    PlacesHave(m);
  }

  lemma TurnCopies(ok: nat -> bool, m: Micro, orders: map<string, OrderVal>, os: seq<OrderVal>)
    requires LedgerInv(m, os) && Copied(m, orders)
    ensures var r := MicroStep(ok, Lend(m, orders)); Copied(Lend(r, map[]), r.desk.store)
  {
    var lent := Lend(m, orders);
    var r := MicroStep(ok, lent);
    LendKeepsLedger(m, orders, os);
    MicroKeepsLedger(ok, lent, os);
    forall id | id in Places(r) ensures id in r.desk.store {
      AllStored(m, orders, id);
      StepWritesOwn(ok, lent, id);
    }
    LedgerIsCopied(r, os);
  }

  // --------------------------------------------------------------- all runs

  /** The orders the service has saved while the process was running. */
  ghost function SavedBy(c: Config, evs: seq<Event>): set<OrderVal> {
    if evs == [] then {}
    else
      var front, ev := evs[..|evs| - 1], evs[|evs| - 1];
      SavedBy(c, front) + if ev.Save? && !After(c, front).crashed then {ev.order} else {}
  }

  ghost function IdsOf(os: set<OrderVal>): set<string> {
    set o | o in os :: o.id
  }

  /** Orders the engine has are stored as it has them, and orders it never accepted as
      they were saved. */
  ghost predicate OrdersInv(c: Config, evs: seq<Event>) {
    var w := After(c, evs);
    && w.lines.Keys == c.stocks && w.orders.Keys == IdsOf(SavedBy(c, evs))
    && (forall k :: k in c.stocks ==> Copied(w.lines[k], w.orders))
    && (forall o :: o in SavedBy(c, evs) && Unaccepted(c, evs, o.id) ==> Copy(w.orders, o))
  }

  lemma {:induction false} SavedWereEvents(c: Config, evs: seq<Event>, o: OrderVal)
    requires o in SavedBy(c, evs)
    ensures Save(o) in evs
  {
    var front, ev := evs[..|evs| - 1], evs[|evs| - 1];
    assert evs == front + [ev];
    if o in SavedBy(c, front) {
      SavedWereEvents(c, front, o);
    }
  }

  lemma {:induction false} EventsWereSaved(c: Config, evs: seq<Event>, o: OrderVal)
    requires Save(o) in evs && !After(c, evs).crashed
    ensures o in SavedBy(c, evs)
  {
    var front, ev := evs[..|evs| - 1], evs[|evs| - 1];
    assert evs == front + [ev];
    if ev != Save(o) {
      EventsWereSaved(c, front, o);
    }
  }

  lemma PlacesApart(c: Config, evs: seq<Event>, k: string, l: string, id: string)
    requires Protocol(evs) && k != l && id in OrderIds(Accepted(c, evs, k))
    ensures id !in OrderIds(Accepted(c, evs, l))
  {
    var ks, ls := Accepted(c, evs, k), Accepted(c, evs, l);
    var i :| 0 <= i < |ks| && OrderIds(ks)[i] == id;
    forall j | 0 <= j < |ls| ensures OrderIds(ls)[j] != id {
      AcceptedApart(c, evs, k, i, l, j);
    }
  }

  /** A turn of j leaves the copy of an order alone that j has not accepted. */
  lemma TurnKeepsOthers(c: Config, evs: seq<Event>, j: string, id: string)
    requires Protocol(evs) && j in c.stocks && j in After(c, evs).lines && id !in OrderIds(Accepted(c, evs, j))
    ensures var w := After(c, evs);
      id in w.orders ==> id in TurnOf(c, w, j).orders && TurnOf(c, w, j).orders[id] == w.orders[id]
  {
    var w := After(c, evs);
    var m := LineLedger(c, evs, j);
    assert id !in Places(Lend(m, w.orders));
    StepWritesOwn(Constantly(Saves(c, w)), Lend(m, w.orders), id);
  }

  lemma TurnKeepsCopied(c: Config, evs: seq<Event>, j: string, k: string)
    requires Protocol(evs) && OrdersInv(c, evs) && j in c.stocks && k in c.stocks
    ensures var r := TurnOf(c, After(c, evs), j);
      Copied(r.lines[k], r.orders)
  {
    var w := After(c, evs);
    assert Copied(w.lines[k], w.orders);
    if k == j {
      var m := LineLedger(c, evs, j);
      TurnCopies(Constantly(Saves(c, w)), m, w.orders, Accepted(c, evs, j));
    } else {
      TurnCopiesOthers(c, evs, w, j, k);
    }
  }

  lemma TurnCopiesOthers(c: Config, evs: seq<Event>, w: World, j: string, k: string)
    requires Protocol(evs) && w == After(c, evs) && j in c.stocks && k in c.stocks && j != k
    requires j in w.lines && k in w.lines && Copied(w.lines[k], w.orders)
    ensures Copied(w.lines[k], TurnOf(c, w, j).orders)
  {
    var m := LineLedger(c, evs, k);
    var r := TurnOf(c, w, j).orders;
    forall id | id in Places(m) && id in w.orders ensures id in r && r[id] == w.orders[id] {
      PlacesApart(c, evs, k, j, id);
      TurnKeepsOthers(c, evs, j, id);
    }
    CopiedElsewhere(m, w.orders, r);
  }

  lemma TurnKeepsKeys(c: Config, w: World, j: string)
    requires j in w.lines
    ensures TurnOf(c, w, j).orders.Keys == w.orders.Keys
  {
    forall id ensures id in TurnOf(c, w, j).orders <==> id in w.orders {
      StepWritesOwn(Constantly(Saves(c, w)), Lend(w.lines[j], w.orders), id);
    }
  }

  /** One event more: what changes about the accepted orders and the saved ones. */
  lemma OneEventMore(c: Config, evs: seq<Event>, ev: Event)
    ensures After(c, evs + [ev]) == Step(c, After(c, evs), ev)
    ensures forall k :: Accepted(c, evs + [ev], k) == Accepted(c, evs, k) + Taken(After(c, evs), ev, k)
    ensures SavedBy(c, evs + [ev]) == SavedBy(c, evs) + if ev.Save? && !After(c, evs).crashed then {ev.order} else {}
    ensures forall id :: Unaccepted(c, evs + [ev], id) ==> Unaccepted(c, evs, id)
  {
    var all := evs + [ev];
    assert all[..|all| - 1] == evs;
    forall id | Unaccepted(c, all, id) ensures Unaccepted(c, evs, id) {
      forall k | k in c.stocks ensures id !in OrderIds(Accepted(c, evs, k)) {
        var os := Accepted(c, evs, k);
        forall j | 0 <= j < |os| ensures OrderIds(os)[j] != id {
          assert OrderIds(Accepted(c, all, k))[j] == os[j].id;
        }
      }
    }
  }

  lemma TurnKeepsOrders(c: Config, evs: seq<Event>, j: string)
    requires Protocol(evs) && OrdersInv(c, evs) && j in c.stocks && !After(c, evs).crashed
    ensures OrdersInv(c, evs + [Turn(j)])
  {
    var w, all := After(c, evs), evs + [Turn(j)];
    OneEventMore(c, evs, Turn(j));
    TurnKeepsKeys(c, w, j);
    forall k | k in c.stocks ensures Copied(TurnOf(c, w, j).lines[k], TurnOf(c, w, j).orders) {
      TurnKeepsCopied(c, evs, j, k);
    }
    forall o | o in SavedBy(c, evs) && Unaccepted(c, all, o.id) ensures Copy(TurnOf(c, w, j).orders, o) {
      TurnKeepsOthers(c, evs, j, o.id);
    }
  }

  lemma NotYetSaved(c: Config, evs: seq<Event>, o: OrderVal)
    requires Protocol(evs + [Save(o)])
    ensures o.id !in IdsOf(SavedBy(c, evs))
  {
    var all := evs + [Save(o)];
    forall p | p in SavedBy(c, evs) ensures p.id != o.id {
      SavedWereEvents(c, evs, p);
      var i :| 0 <= i < |evs| && evs[i] == Save(p);
      assert all[i] == evs[i] && all[|evs|] == Save(o);
    }
  }

  lemma SaveKeepsOrders(c: Config, evs: seq<Event>, o: OrderVal)
    requires Protocol(evs + [Save(o)]) && OrdersInv(c, evs) && !After(c, evs).crashed
    ensures OrdersInv(c, evs + [Save(o)])
  {
    var w, all := After(c, evs), evs + [Save(o)];
    OneEventMore(c, evs, Save(o));
    NotYetSaved(c, evs, o);
    SaveCopies(w, o);
    SavedIdsGrow(SavedBy(c, evs), o);
    forall p | p in SavedBy(c, evs) && Unaccepted(c, all, p.id) ensures Copy(w.orders[o.id := o], p) {
      assert Copy(w.orders, p);
    }
  }

  lemma SaveCopies(w: World, o: OrderVal)
    requires o.id !in w.orders && forall k :: k in w.lines ==> Copied(w.lines[k], w.orders)
    ensures forall k :: k in w.lines ==> Copied(w.lines[k], w.orders[o.id := o])
  {
    forall k | k in w.lines ensures Copied(w.lines[k], w.orders[o.id := o]) {
      CopiedElsewhere(w.lines[k], w.orders, w.orders[o.id := o]);
    }
  }

  lemma SavedIdsGrow(os: set<OrderVal>, o: OrderVal)
    ensures IdsOf(os + {o}) == IdsOf(os) + {o.id}
  {
    forall id | id in IdsOf(os) ensures id in IdsOf(os + {o}) {
      var p :| p in os && p.id == id;
      assert p in os + {o};
    }
    assert o in os + {o};
  }

  lemma SubmittedIsStored(c: Config, evs: seq<Event>, o: OrderVal)
    requires Protocol(evs + [Submit(o)]) && OrdersInv(c, evs) && !After(c, evs).crashed
    ensures Copy(After(c, evs).orders, o)
  {
    var all := evs + [Submit(o)];
    NotYetAccepted(c, evs, o);
    assert all[|evs|] == Submit(o) && SavedBefore(all, |evs|);
    var j :| 0 <= j < |evs| && all[j] == Save(o);
    assert evs[j] == all[j];
    EventsWereSaved(c, evs, o);
  }

  lemma SubmitKeepsCopied(c: Config, w: World, o: OrderVal)
    requires Copy(w.orders, o) && forall k :: k in w.lines ==> Copied(w.lines[k], w.orders)
    ensures var r := Step(c, w, Submit(o));
      && r.lines.Keys == w.lines.Keys && r.orders == w.orders
      && forall k :: k in r.lines ==> Copied(r.lines[k], w.orders)
  {
    forall k | k in w.lines ensures Copied(Step(c, w, Submit(o)).lines[k], w.orders) {
      SubmitCopiedAt(c, w, o, k);
    }
  }

  lemma SubmitCopiedAt(c: Config, w: World, o: OrderVal, k: string)
    requires k in w.lines && Copy(w.orders, o) && Copied(w.lines[k], w.orders)
    ensures k in Step(c, w, Submit(o)).lines && Copied(Step(c, w, Submit(o)).lines[k], w.orders)
  {
    MoreCopied(w.lines[k], o, w.orders);
  }

  lemma MoreCopied(m: Micro, o: OrderVal, orders: map<string, OrderVal>)
    requires Copied(m, orders) && Copy(orders, o)
    ensures Copied(More(m, o), orders)
  {
  }

  /** An event that saves nothing and writes to no stored copy leaves the orders waiting
      as they are. */
  lemma WaitingStay(c: Config, evs: seq<Event>, ev: Event)
    requires OrdersInv(c, evs) && (After(c, evs).crashed || !ev.Save?) && After(c, evs + [ev]).orders == After(c, evs).orders
    ensures var all := evs + [ev];
      && After(c, all).orders.Keys == IdsOf(SavedBy(c, all))
      && forall o :: o in SavedBy(c, all) && Unaccepted(c, all, o.id) ==> Copy(After(c, all).orders, o)
  {
    OneEventMore(c, evs, ev);
  }

  lemma SubmitKeepsOrders(c: Config, evs: seq<Event>, o: OrderVal)
    requires Protocol(evs + [Submit(o)]) && OrdersInv(c, evs) && !After(c, evs).crashed
    ensures OrdersInv(c, evs + [Submit(o)])
  {
    var w := After(c, evs);
    OneEventMore(c, evs, Submit(o));
    SubmittedIsStored(c, evs, o);
    SubmitKeepsCopied(c, w, o);
    WaitingStay(c, evs, Submit(o));
  }

  lemma IdleEventKeepsOrders(c: Config, evs: seq<Event>, ev: Event)
    requires OrdersInv(c, evs) && (After(c, evs).crashed || ev.Close? || (ev.Turn? && ev.stock !in c.stocks))
    ensures OrdersInv(c, evs + [ev])
  {
    OneEventMore(c, evs, ev);
    WaitingStay(c, evs, ev);
  }

  /** In every reachable state of the exchange, whatever interleaves and whatever saves
      fail: an order the engine has reads back from the shared store as the engine has
      it, and one it never accepted as it was saved. */
  lemma {:induction false} OrdersReadBack(c: Config, evs: seq<Event>)
    requires Protocol(evs)
    ensures OrdersInv(c, evs)
  {
    if evs == [] {
      assert OrderIds([]) == [];
    } else {
      var front, ev := evs[..|evs| - 1], evs[|evs| - 1];
      assert evs == front + [ev];
      ProtocolBefore(evs, |evs| - 1);
      OrdersReadBack(c, front);
      if After(c, front).crashed {
        IdleEventKeepsOrders(c, front, ev);
      } else {
        match ev
        case Save(o) => SaveKeepsOrders(c, front, o);
        case Submit(o) => SubmitKeepsOrders(c, front, o);
        case Turn(j) => if j in c.stocks { TurnKeepsOrders(c, front, j); } else { IdleEventKeepsOrders(c, front, ev); }
        case Close(_) => IdleEventKeepsOrders(c, front, ev);
      }
    }
  }

  // ------------------------------------------------- what saving an order means

  lemma UpdateKeepsIdentity(store: map<string, OrderVal>, o: OrderVal, id: string)
    requires id in store
    ensures id in UpdateStore(store, o) && UpdateStore(store, o)[id].Identity() == store[id].Identity()
  {
  }

  lemma MicroKeepsIdentity(ok: nat -> bool, m: Micro, id: string)
    requires id in m.desk.store
    ensures id in MicroStep(ok, m).desk.store && MicroStep(ok, m).desk.store[id].Identity() == m.desk.store[id].Identity()
  {
    if m.cur.Some? && CanMatch(Sweep(m.desk, m.cur.value)) {
      var s := Sweep(m.desk, m.cur.value);
      var (buy, sell) := Parties(s);
      var qty := MatchUpdates(ok, s);
      UpdateKeepsIdentity(s.desk.store, buy.AfterFill(qty), id);
      UpdateKeepsIdentity(UpdateStore(s.desk.store, buy.AfterFill(qty)), sell.AfterFill(qty), id);
    }
  }

  lemma StepKeepsIdentity(c: Config, w: World, ev: Event, id: string)
    requires id in w.orders
    ensures id in Step(c, w, ev).orders && Step(c, w, ev).orders[id].Identity() == w.orders[id].Identity()
  {
    if ev.Turn? && ev.stock in w.lines {
      MicroKeepsIdentity(Constantly(Saves(c, w)), Lend(w.lines[ev.stock], w.orders), id);
    }
  }

  /** Whatever happens, by the protocol or not: an order that was saved stays, and nothing
      about it but fill and status ever changes. */
  lemma {:induction false} SavedForGood(c: Config, evs: seq<Event>, more: seq<Event>, id: string)
    requires id in After(c, evs).orders
    ensures var now := After(c, evs + more).orders;
      id in now && now[id].Identity() == After(c, evs).orders[id].Identity()
  {
    if more == [] {
      assert evs + more == evs;
    } else {
      assert (evs + more)[..|evs + more| - 1] == evs + more[..|more| - 1];
      SavedForGood(c, evs, more[..|more| - 1], id);
      StepKeepsIdentity(c, After(c, evs + more[..|more| - 1]), more[|more| - 1], id);
    }
  }
}
