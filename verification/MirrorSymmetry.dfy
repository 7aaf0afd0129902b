/** The two sweep loops are one algorithm: each is the other seen in the mirror. */
module MirrorSymmetry {
  import opened Entities
  import opened StableSort
  import opened BookSpec
  import opened Matching

  lemma MirrorTwice(s: Sweep)
    ensures MirrorSweep(MirrorSweep(s)) == s
  {
    var t := MirrorSweep(MirrorSweep(s));
    assert t.desk.book.bids == s.desk.book.bids;
    assert t.desk.book.asks == s.desk.book.asks;
    assert t.desk.log == s.desk.log;
    assert t.desk.gone == s.desk.gone;
    assert t.desk.store == s.desk.store;
  }

  lemma MirrorEntriesTwice(es: seq<Resting>)
    ensures MirrorEntries(MirrorEntries(es)) == es
  {
    forall i | 0 <= i < |es| ensures MirrorEntry(MirrorEntries(es)[i]) == es[i] {}
  }

  lemma MirrorIds(es: seq<Resting>)
    ensures Ids(MirrorEntries(es)) == Ids(es)
  {
    forall i | 0 <= i < |es| ensures MirrorEntries(es)[i].order.id == es[i].order.id {}
    forall x | x in Ids(es) ensures x in Ids(MirrorEntries(es)) {
      var i :| 0 <= i < |es| && es[i].order.id == x;
      assert MirrorEntries(es)[i].order.id == x;
    }
  }

  lemma MirrorBookInv(b: Book)
    requires BookInv(b)
    ensures BookInv(MirrorBook(b))
  {
    MirrorIds(b.bids);
    MirrorIds(b.asks);
    forall i, j | 0 <= i < j < |b.asks| ensures BidKey(MirrorEntries(b.asks)[i]) <= BidKey(MirrorEntries(b.asks)[j]) {
      assert AskKey(b.asks[i]) <= AskKey(b.asks[j]);
    }
    forall i, j | 0 <= i < j < |b.bids| ensures AskKey(MirrorEntries(b.bids)[i]) <= AskKey(MirrorEntries(b.bids)[j]) {
      assert BidKey(b.bids[i]) <= BidKey(b.bids[j]);
    }
  }

  lemma {:induction false} MirrorTotal(es: seq<Resting>)
    ensures Total(MirrorEntries(es)) == Total(es)
  {
    if es != [] {
      assert MirrorEntries(es)[1..] == MirrorEntries(es[1..]);
      MirrorTotal(es[1..]);
    }
  }

  lemma {:induction false} MirrorRemoveEntry(es: seq<Resting>, id: string)
    ensures RemoveEntry(MirrorEntries(es), id) == MirrorEntries(RemoveEntry(es, id))
  {
    if es != [] {
      assert MirrorEntries(es)[1..] == MirrorEntries(es[1..]);
      MirrorRemoveEntry(es[1..], id);
      if es[0].order.id != id {
        assert MirrorEntries([es[0]] + RemoveEntry(es[1..], id)) == [MirrorEntry(es[0])] + MirrorEntries(RemoveEntry(es[1..], id));
      }
    }
  }

  lemma {:induction false} MirrorInsert(es: seq<Resting>, e: Resting)
    ensures Insert(MirrorEntries(es), MirrorEntry(e), AskKey) == MirrorEntries(Insert(es, e, BidKey))
    ensures Insert(MirrorEntries(es), MirrorEntry(e), BidKey) == MirrorEntries(Insert(es, e, AskKey))
  {
    if es == [] {
      assert MirrorEntries([e]) == [MirrorEntry(e)];
      assert [] + [e] == [e] && MirrorEntries(es) + [MirrorEntry(e)] == [MirrorEntry(e)];
    } else {
      var front, last := es[..|es| - 1], es[|es| - 1];
      assert MirrorEntries(es)[..|es| - 1] == MirrorEntries(front);
      MirrorInsert(front, e);
      MirrorAppend(es, e);
      MirrorAppend(Insert(front, e, BidKey), last);
      MirrorAppend(Insert(front, e, AskKey), last);
    }
  }

  lemma MirrorAppend(es: seq<Resting>, e: Resting)
    ensures MirrorEntries(es + [e]) == MirrorEntries(es) + [MirrorEntry(e)]
  {
  }

  lemma {:induction false} MirrorSort(es: seq<Resting>)
    ensures SliceStable(MirrorEntries(es), AskKey) == MirrorEntries(SliceStable(es, BidKey))
    ensures SliceStable(MirrorEntries(es), BidKey) == MirrorEntries(SliceStable(es, AskKey))
  {
    if es != [] {
      var front, last := es[..|es| - 1], es[|es| - 1];
      assert MirrorEntries(es)[..|es| - 1] == MirrorEntries(front);
      MirrorSort(front);
      MirrorInsert(SliceStable(front, BidKey), last);
      MirrorInsert(SliceStable(front, AskKey), last);
    }
  }

  lemma MirrorAddOrder(b: Book, o: OrderVal)
    ensures AddOrder(MirrorBook(b), MirrorOrder(o)) == MirrorBook(AddOrder(b, o))
  {
    var e := Resting(o, o.Remaining());
    assert MirrorEntry(e) == Resting(MirrorOrder(o), MirrorOrder(o).Remaining());
    MirrorAppend(b.bids, e);
    MirrorAppend(b.asks, e);
    MirrorSort(b.bids + [e]);
    MirrorSort(b.asks + [e]);
  }

  lemma MirrorUpdateStore(store: map<string, OrderVal>, o: OrderVal)
    ensures UpdateStore(MirrorStore(store), MirrorOrder(o)) == MirrorStore(UpdateStore(store, o))
  {
  }

  lemma MirrorCharge(b: Book, buy: OrderVal, left: int)
    requires b.bids != []
    ensures ChargeAsk(MirrorBook(b), MirrorOrder(buy), left) == MirrorBook(ChargeBid(b, buy, left))
  {
    var touched := b.(bids := b.bids[0 := Resting(buy, left)]);
    var m := MirrorBook(b);
    assert m.asks[0 := Resting(MirrorOrder(buy), left)] == MirrorEntries(touched.bids);
    MirrorRemoveEntry(touched.bids, buy.id);
    MirrorRemoveEntry(touched.asks, buy.id);
  }

  lemma SellHasEffects(ok: nat -> bool, s: Sweep) returns (qty: int, left: int, passive: OrderVal)
    requires CanSell(s)
    ensures SellEffects(ok, s, qty, left, StepSell(ok, s), passive)
  {
    var best := s.desk.book.bids[0];
    qty := Min(s.incoming.Remaining(), best.remaining);
    left := best.remaining - qty;
    passive := if ok(|s.desk.log|) then best.order.AfterFill(qty) else best.order;
  }

  lemma MirrorEffects(ok: nat -> bool, s: Sweep, qty: int, left: int, t: Sweep, passive: OrderVal)
    requires CanSell(s) && SellEffects(ok, s, qty, left, t, passive)
    ensures CanBuy(MirrorSweep(s))
    ensures var l, r := StepBuy(ok, MirrorSweep(s)), MirrorSweep(t);
            && l.(desk := l.desk.(store := r.desk.store)) == r
            && (s.incoming.id != s.desk.book.bids[0].order.id ==> l == r)
  {
    var d, m, r := s.desk, MirrorSweep(s), MirrorSweep(t);
    var best, saved := d.book.bids[0], ok(|d.log|);
    MirrorCharge(d.book, passive, left);
    MirrorLogGrows(d.log, t.desk.log[|d.log|]);
    MirrorOrdersGrow(d.gone, passive);
    var store := if saved then UpdateStore(UpdateStore(m.desk.store, r.incoming), MirrorOrder(passive)) else m.desk.store;
    StepBuyIs(ok, m, qty, left, r.(desk := r.desk.(store := store)), MirrorOrder(passive));
    if s.incoming.id != best.order.id && saved {
      MirrorTwoUpdates(d.store, passive, t.incoming);
    }
  }

  lemma MirrorLogGrows(log: seq<Attempt>, a: Attempt)
    ensures MirrorLog(log + [a]) == MirrorLog(log) + [MirrorAttempt(a)]
  {
  }

  lemma MirrorOrdersGrow(os: seq<OrderVal>, o: OrderVal)
    ensures MirrorOrders(os + [o]) == MirrorOrders(os) + [MirrorOrder(o)]
  {
  }

  /** One iteration of the sell sweep is one iteration of the buy sweep on the
      mirrored desk. Only the stored copies could tell, since they are written buyer
      first, and only when both orders carry the same ID. */
  lemma MirrorStepSell(ok: nat -> bool, s: Sweep)
    requires CanSell(s)
    ensures CanBuy(MirrorSweep(s))
    ensures var l, r := StepBuy(ok, MirrorSweep(s)), MirrorSweep(StepSell(ok, s));
            && l.(desk := l.desk.(store := r.desk.store)) == r
            && (s.incoming.id != s.desk.book.bids[0].order.id ==> l == r)
  {
    var qty, left, passive := SellHasEffects(ok, s);
    MirrorEffects(ok, s, qty, left, StepSell(ok, s), passive);
  }

  /** Both orders end with the same fill and status. */
  predicate SameFill(a: OrderVal, b: OrderVal, qty: int) {
    && a.filled == b.filled
    && (a.filled + qty >= a.quantity <==> b.filled + qty >= b.quantity)
  }

  /** Two updates under one ID leave the last. */
  lemma LastUpdateWins(store: map<string, OrderVal>, a: OrderVal, b: OrderVal)
    requires a.id == b.id
    ensures UpdateStore(UpdateStore(store, a), b) == UpdateStore(store, b)
  {
  }

  lemma SellWrites(ok: nat -> bool, s: Sweep, qty: int)
    requires CanSell(s) && qty == Min(s.incoming.Remaining(), s.desk.book.bids[0].remaining)
    ensures StepSell(ok, s).desk.store
         == if ok(|s.desk.log|) then UpdateStore(UpdateStore(s.desk.store, s.desk.book.bids[0].order.AfterFill(qty)), s.incoming.AfterFill(qty)) else s.desk.store
  {
  }

  lemma BuyWrites(ok: nat -> bool, s: Sweep, qty: int)
    requires CanBuy(s) && qty == Min(s.incoming.Remaining(), s.desk.book.asks[0].remaining)
    ensures StepBuy(ok, s).desk.store
         == if ok(|s.desk.log|) then UpdateStore(UpdateStore(s.desk.store, s.incoming.AfterFill(qty)), s.desk.book.asks[0].order.AfterFill(qty)) else s.desk.store
  {
  }

  lemma UpdatesAgree(store: map<string, OrderVal>, a: OrderVal, b: OrderVal)
    requires a.id == b.id && a.id in store
    ensures UpdateStore(store, a) == UpdateStore(store, b) <==> a.filled == b.filled && a.status == b.status
  {
    assert UpdateStore(store, a)[a.id] == store[a.id].(filled := a.filled, status := a.status);
    assert UpdateStore(store, b)[a.id] == store[a.id].(filled := b.filled, status := b.status);
  }

  lemma MirrorStoreTwice(store: map<string, OrderVal>)
    ensures MirrorStore(MirrorStore(store)) == store
  {
  }

  /** On equal IDs, whether the stored copy tells the two apart. */
  lemma SameIdStores(ok: nat -> bool, s: Sweep, qty: int)
    requires CanSell(s) && CanBuy(MirrorSweep(s)) && ok(|s.desk.log|)
    requires qty == Min(s.incoming.Remaining(), s.desk.book.bids[0].remaining) && s.incoming.id == s.desk.book.bids[0].order.id
    ensures StepBuy(ok, MirrorSweep(s)).desk.store == MirrorStore(StepSell(ok, s).desk.store)
       <==> s.incoming.id !in s.desk.store || SameFill(s.desk.book.bids[0].order, s.incoming, qty)
  {
    var store, best, m := s.desk.store, s.desk.book.bids[0].order, MirrorSweep(s);
    var a, b := best.AfterFill(qty), s.incoming.AfterFill(qty);
    assert m.desk.book.asks[0] == MirrorEntry(s.desk.book.bids[0]);
    SellWrites(ok, s, qty);
    BuyWrites(ok, m, qty);
    LastUpdateWins(store, a, b);
    LastUpdateWins(m.desk.store, MirrorOrder(b), MirrorOrder(a));
    MirrorUpdateStore(store, a);
    if s.incoming.id in store {
      UpdatesAgree(store, a, b);
      MirrorStoreTwice(UpdateStore(store, a));
      MirrorStoreTwice(UpdateStore(store, b));
    }
  }

  /** Exactly when an iteration of the sell loop is one of the buy loop in the mirror,
      stored copies and all: unless both orders share an ID and a stored copy, the trade
      was saved, and it leaves them with different fills or statuses. */
  lemma MirrorsExactly(ok: nat -> bool, s: Sweep)
    requires CanSell(s)
    ensures CanBuy(MirrorSweep(s))
    ensures var best := s.desk.book.bids[0];
            var qty := Min(s.incoming.Remaining(), best.remaining);
      StepBuy(ok, MirrorSweep(s)) == MirrorSweep(StepSell(ok, s)) <==>
        || s.incoming.id != best.order.id || !ok(|s.desk.log|)
        || s.incoming.id !in s.desk.store || SameFill(best.order, s.incoming, qty)
  {
    var qty := Min(s.incoming.Remaining(), s.desk.book.bids[0].remaining);
    MirrorStepSell(ok, s);
    if s.incoming.id == s.desk.book.bids[0].order.id {
      if ok(|s.desk.log|) {
        SameIdStores(ok, s, qty);
      } else {
        SellWrites(ok, s, qty);
        BuyWrites(ok, MirrorSweep(s), qty);
      }
    }
  }

  /** A desk where it is not. */
  lemma SameIdWitness() returns (s: Sweep)
    ensures CanSell(s) && s.desk.log == []
    ensures s.incoming.id == s.desk.book.bids[0].order.id && s.incoming.id in s.desk.store
    ensures !SameFill(s.desk.book.bids[0].order, s.incoming, Min(s.incoming.Remaining(), s.desk.book.bids[0].remaining))
  {
    var bid := OrderVal("x", "u", "k", Buy, 5, 2, 0, Open);
    s := Sweep(Desk("k", Book([Resting(bid, 2)], [], {"x"}), [], [], map["x" := bid]), OrderVal("x", "v", "k", Sell, 5, 1, 0, Open));
  }

  lemma MirrorTwoUpdates(store: map<string, OrderVal>, buy: OrderVal, sell: OrderVal)
    requires buy.id != sell.id
    ensures UpdateStore(UpdateStore(MirrorStore(store), MirrorOrder(sell)), MirrorOrder(buy))
         == MirrorStore(UpdateStore(UpdateStore(store, buy), sell))
  {
    MirrorUpdateStore(store, sell);
    MirrorUpdateStore(UpdateStore(store, sell), buy);
    assert UpdateStore(UpdateStore(store, buy), sell) == UpdateStore(UpdateStore(store, sell), buy);
  }

  lemma MirrorCan(s: Sweep)
    ensures CanMatch(MirrorSweep(s)) == CanMatch(s)
  {
    MirrorTwice(s);
  }

  lemma MirrorFinish(s: Sweep)
    ensures Finish(MirrorSweep(s)) == Mirror(Finish(s))
  {
    MirrorAddOrder(s.desk.book, s.incoming);
    assert MirrorOrders(s.desk.gone + [s.incoming]) == MirrorOrders(s.desk.gone) + [MirrorOrder(s.incoming)];
  }

  /** A whole sell sweep is a whole buy sweep in the mirror. */
  lemma {:induction false} MirrorSweepAll(ok: nat -> bool, s: Sweep)
    requires PositiveBook(s.desk.book) && s.incoming.side == Sell
    requires s.incoming.id !in Ids(s.desk.book.bids) || s.desk.store == map[]
    ensures PositiveBook(MirrorBook(s.desk.book))
    ensures SweepAll(ok, MirrorSweep(s)) == MirrorSweep(SweepAll(ok, s))
    decreases Opposite(s)
  {
    MirrorCan(s);
    if CanMatch(s) {
      var r := StepSell(ok, s);
      StepProgress(ok, s);
      MirrorStepSell(ok, s);
      assert s.desk.book.bids[0].order.id in Ids(s.desk.book.bids);
      assert MirrorStore(map[]) == map[];
      forall x | x in Ids(r.desk.book.bids) ensures x in Ids(s.desk.book.bids) {
        var i :| 0 <= i < |r.desk.book.bids| && r.desk.book.bids[i].order.id == x;
        var j := if |r.desk.book.bids| < |s.desk.book.bids| then i + 1 else i;
        assert s.desk.book.bids[j].order.id == x;
      }
      MirrorSweepAll(ok, r);
    }
  }

  /** Swapping sides and negating prices commutes with processing an order, for
      every book and every order. The stored copies follow too unless the order
      has the ID of a resting one. */
  lemma MirrorMatchOrder(ok: nat -> bool, d: Desk, o: OrderVal)
    requires PositiveBook(d.book)
    requires o.id !in Ids(d.book.bids) + Ids(d.book.asks) || d.store == map[]
    ensures PositiveBook(MirrorBook(d.book))
    ensures MatchOrder(ok, Mirror(d), MirrorOrder(o)) == Mirror(MatchOrder(ok, d, o))
    decreases o.side == Buy
  {
    var s := Sweep(d, o);
    if o.side == Sell {
      MirrorSweepAll(ok, s);
      MirrorFinish(SweepAll(ok, s));
    } else {
      var m := MirrorSweep(s);
      assert PositiveBook(m.desk.book);
      MirrorTwice(s);
      MirrorIds(d.book.bids);
      MirrorIds(d.book.asks);
      MirrorMatchOrder(ok, m.desk, m.incoming);
      var r := MatchOrder(ok, m.desk, m.incoming);
      MirrorTwice(Sweep(r, o));
    }
  }

  // What a sweep does never depends on the stored copies.
  function Blind(s: Sweep): Sweep {
    s.(desk := s.desk.(store := map[]))
  }

  lemma {:induction false} BlindSweepAll(ok: nat -> bool, s: Sweep)
    requires PositiveBook(s.desk.book)
    ensures SweepAll(ok, Blind(s)) == Blind(SweepAll(ok, s))
    decreases Opposite(s)
  {
    if CanMatch(s) {
      StepProgress(ok, s);
      assert StepMatch(ok, Blind(s)) == Blind(StepMatch(ok, s));
      BlindSweepAll(ok, StepMatch(ok, s));
    }
  }
}
