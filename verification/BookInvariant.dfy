/** The matcher of one stock as a step system, one step per loop iteration, and
    the book invariant in every state it can reach. */
module BookInvariant {
  import opened Entities
  import opened StableSort
  import opened BookSpec
  import opened Matching
  import opened MirrorSymmetry

  /** A matcher between two loop iterations: the order it is sweeping with, if
      any, and the orders not taken off the queue yet. */
  datatype Micro = Micro(desk: Desk, cur: Option<OrderVal>, inbox: seq<OrderVal>)

  function NewDesk(stock: string, store: map<string, OrderVal>): Desk {
    Desk(stock, EMPTY_BOOK, [], [], store)
  }

  function MicroStep(ok: nat -> bool, m: Micro): Micro {
    match m.cur
    case None => if m.inbox == [] then m else Micro(m.desk, Some(m.inbox[0]), m.inbox[1..])
    case Some(o) =>
      var s := Sweep(m.desk, o);
      if CanMatch(s) then
        var r := StepMatch(ok, s);
        Micro(r.desk, Some(r.incoming), m.inbox)
      else Micro(Finish(s), None, m.inbox)
  }

  /** A matcher of a new stock with the order stream `os` ahead of it. */
  function Start(stock: string, store: map<string, OrderVal>, os: seq<OrderVal>): Micro {
    Micro(NewDesk(stock, store), None, os)
  }

  /** The state k steps after `m`. */
  function At(ok: nat -> bool, m: Micro, k: nat): Micro {
    if k == 0 then m else MicroStep(ok, At(ok, m, k - 1))
  }

  // ------------------------------------------------- one buy iteration

  /** On a well-formed book, charging the best ask changes that entry or drops it. */
  lemma ChargeAskShape(b: Book, sell: OrderVal, left: int)
    requires BookInv(b) && b.asks != [] && sell.id == b.asks[0].order.id
    ensures left > 0 ==> ChargeAsk(b, sell, left) == b.(asks := [Resting(sell, left)] + b.asks[1..])
    ensures left <= 0 ==> ChargeAsk(b, sell, left) == Book(b.bids, b.asks[1..], b.index - {sell.id})
  {
    var touched := b.(asks := b.asks[0 := Resting(sell, left)]);
    assert touched.asks == [Resting(sell, left)] + b.asks[1..];
    assert b.asks[0].order.id in Ids(b.asks);
    if left <= 0 {
      RemoveBestAsk(touched);
    }
  }

  lemma SameIds(es: seq<Resting>, fs: seq<Resting>)
    requires |es| == |fs| && forall i :: 0 <= i < |es| ==> es[i].order.id == fs[i].order.id
    ensures Ids(es) == Ids(fs)
  {
    forall x | x in Ids(es) ensures x in Ids(fs) {
      var i :| 0 <= i < |es| && es[i].order.id == x;
      assert fs[i].order.id == x;
    }
    forall x | x in Ids(fs) ensures x in Ids(es) {
      var i :| 0 <= i < |es| && fs[i].order.id == x;
      assert es[i].order.id == x;
    }
  }

  lemma IdsOfTail(es: seq<Resting>)
    requires es != [] && UniqueIds(es)
    ensures Ids(es[1..]) == Ids(es) - {es[0].order.id}
  {
    forall x | x in Ids(es[1..]) ensures x in Ids(es) && x != es[0].order.id {
      var i :| 0 <= i < |es| - 1 && es[1..][i].order.id == x;
      assert es[i + 1].order.id == x;
    }
    forall x | x in Ids(es) && x != es[0].order.id ensures x in Ids(es[1..]) {
      var i :| 0 <= i < |es| && es[i].order.id == x;
      assert es[1..][i - 1].order.id == x;
    }
  }

  lemma ChargeAskInv(b: Book, sell: OrderVal, left: int)
    requires BookInv(b) && b.asks != []
    requires sell.id == b.asks[0].order.id && sell.price == b.asks[0].order.price && sell.side == Sell
    ensures BookInv(ChargeAsk(b, sell, left))
  {
    ChargeAskShape(b, sell, left);
    var r := ChargeAsk(b, sell, left);
    if left > 0 {
      SameIds(r.asks, b.asks);
      forall i, j | 0 <= i < j < |r.asks| ensures AskKey(r.asks[i]) <= AskKey(r.asks[j]) {
        assert AskKey(b.asks[i]) <= AskKey(b.asks[j]);
      }
    } else {
      IdsOfTail(b.asks);
      assert b.asks[0].order.id in Ids(b.asks);
    }
  }

  // ---------------------------------------------------- any iteration

  lemma StepInv(ok: nat -> bool, s: Sweep)
    requires CanMatch(s) && BookInv(s.desk.book)
    ensures BookInv(StepMatch(ok, s).desk.book)
    decreases s.incoming.side == Sell
  {
    match s.incoming.side
    case Buy =>
      var r := StepBuy(ok, s);
      var sell := if ok(|s.desk.log|) then s.desk.book.asks[0].order.AfterFill(Min(s.incoming.Remaining(), s.desk.book.asks[0].remaining)) else s.desk.book.asks[0].order;
      ChargeAskInv(s.desk.book, sell, s.desk.book.asks[0].remaining - Min(s.incoming.Remaining(), s.desk.book.asks[0].remaining));
    case Sell =>
      var m := MirrorSweep(s);
      MirrorStepSell(ok, s);
      MirrorBookInv(s.desk.book);
      assert m.incoming.side == Buy;
      StepInv(ok, m);
      MirrorBookInv(StepBuy(ok, m).desk.book);
      MirrorTwice(StepSell(ok, s));
  }

  lemma AddBidIds(b: Book, o: OrderVal, p: nat)
    requires p <= |b.bids|
    ensures Ids(b.bids[..p] + [Resting(o, o.Remaining())] + b.bids[p..]) == Ids(b.bids) + {o.id}
  {
    var r := b.bids[..p] + [Resting(o, o.Remaining())] + b.bids[p..];
    assert r[p].order.id == o.id;
    forall x | x in Ids(b.bids) ensures x in Ids(r) {
      var i :| 0 <= i < |b.bids| && b.bids[i].order.id == x;
      assert r[if i < p then i else i + 1].order.id == x;
    }
    forall x | x in Ids(r) ensures x in Ids(b.bids) + {o.id} {
      var i :| 0 <= i < |r| && r[i].order.id == x;
      assert i == p || b.bids[if i < p then i else i - 1].order.id == x;
    }
  }

  lemma AddBidSorted(b: Book, o: OrderVal)
    requires BookInv(b) && o.side == Buy && o.id !in b.index
    ensures Sorted(AddOrder(b, o).bids, BidKey) && UniqueIds(AddOrder(b, o).bids)
  {
    var p := AddOrderSplits(b, o);
    var r := AddOrder(b, o).bids;
    forall i | 0 <= i < |b.bids| ensures b.bids[i].order.id in Ids(b.bids) {}
    forall i, j | 0 <= i < j < |r| ensures BidKey(r[i]) <= BidKey(r[j]) && r[i].order.id != r[j].order.id {
      if i < p && j > p {
        assert BidKey(b.bids[i]) <= BidKey(b.bids[j - 1]);
      } else if j < p {
        assert BidKey(b.bids[i]) <= BidKey(b.bids[j]);
      } else if i > p {
        assert BidKey(b.bids[i - 1]) <= BidKey(b.bids[j - 1]);
      }
    }
  }

  lemma AddBidInv(b: Book, o: OrderVal)
    requires BookInv(b) && o.side == Buy && o.Remaining() > 0 && o.id !in b.index
    requires b.asks != [] ==> o.price < b.asks[0].order.price
    ensures BookInv(AddOrder(b, o))
  {
    var p := AddOrderSplits(b, o);
    AddBidIds(b, o, p);
    AddBidSorted(b, o);
    AddBidUncrossed(b, o);
  }

  lemma AddBidUncrossed(b: Book, o: OrderVal)
    requires BookInv(b) && o.side == Buy && o.Remaining() > 0 && o.id !in b.index
    requires b.asks != [] ==> o.price < b.asks[0].order.price
    ensures Uncrossed(AddOrder(b, o)) && OneSide(AddOrder(b, o).bids, Buy)
  {
    var p := AddOrderSplits(b, o);
    var r := AddOrder(b, o).bids;
    forall j | 0 <= j < |b.asks| ensures o.price < b.asks[j].order.price {
      assert AskKey(b.asks[0]) <= AskKey(b.asks[j]) || j == 0;
    }
    forall i | 0 <= i < |r| ensures r[i] == if i == p then Resting(o, o.Remaining()) else b.bids[if i < p then i else i - 1] {}
  }

  /** Resting what the sweep left keeps the book uncrossed because the sweep
      stopped at a price the order does not reach. */
  lemma FinishInv(s: Sweep)
    requires BookInv(s.desk.book) && !CanMatch(s)
    ensures BookInv(Finish(s).book)
    decreases s.incoming.side == Sell
  {
    var b, o := s.desk.book, s.incoming;
    if o.IsActive() && o.Remaining() > 0 && o.id !in b.index {
      match o.side
      case Buy =>
        AddBidInv(b, o);
      case Sell =>
        MirrorCan(s);
        MirrorBookInv(b);
        FinishInv(MirrorSweep(s));
        MirrorFinish(s);
        MirrorBookInv(Mirror(Finish(s)).book);
        MirrorTwice(Sweep(Finish(s), o));
    }
  }

  /** A sweep that can go on ends where the rest of it ends. */
  lemma SweepOneStep(ok: nat -> bool, s: Sweep) returns (r: Sweep)
    requires BookInv(s.desk.book) && CanMatch(s)
    ensures r == StepMatch(ok, s) && BookInv(r.desk.book)
    ensures SweepAll(ok, r) == SweepAll(ok, s) && 0 <= Opposite(r) < Opposite(s)
  {
    StepInv(ok, s);
    StepProgress(ok, s);
    r := StepMatch(ok, s);
  }

  lemma MicroStepInv(ok: nat -> bool, m: Micro)
    requires BookInv(m.desk.book)
    ensures BookInv(MicroStep(ok, m).desk.book)
  {
    match m.cur
    case None =>
    case Some(o) =>
      if CanMatch(Sweep(m.desk, o)) {
        StepInv(ok, Sweep(m.desk, o));
      } else {
        FinishInv(Sweep(m.desk, o));
      }
  }

  /** In every reachable state, whatever orders arrive (also repeated IDs) and
      whatever saves fail, the book invariant holds. */
  lemma {:induction false} BookInvAlways(ok: nat -> bool, stock: string, store: map<string, OrderVal>, os: seq<OrderVal>, k: nat)
    ensures BookInv(At(ok, Start(stock, store, os), k).desk.book)
  {
    if k > 0 {
      BookInvAlways(ok, stock, store, os, k - 1);
      MicroStepInv(ok, At(ok, Start(stock, store, os), k - 1));
    }
  }

  lemma {:induction false} SweepInv(ok: nat -> bool, s: Sweep)
    requires BookInv(s.desk.book)
    ensures BookInv(SweepAll(ok, s).desk.book)
    decreases Opposite(s)
  {
    if CanMatch(s) {
      StepInv(ok, s);
      StepProgress(ok, s);
      SweepInv(ok, StepMatch(ok, s));
    }
  }

  lemma MatchOrderInv(ok: nat -> bool, d: Desk, o: OrderVal)
    requires BookInv(d.book)
    ensures BookInv(MatchOrder(ok, d, o).book)
  {
    SweepInv(ok, Sweep(d, o));
    FinishInv(SweepAll(ok, Sweep(d, o)));
  }

  // ------------------------------- iteration by iteration, order by order

  lemma {:induction false} AtAt(ok: nat -> bool, m: Micro, j: nat, k: nat)
    ensures At(ok, At(ok, m, j), k) == At(ok, m, j + k)
  {
    if k > 0 {
      AtAt(ok, m, j, k - 1);
    }
  }

  lemma AtNext(ok: nat -> bool, m: Micro, k: nat)
    ensures At(ok, m, k + 1) == At(ok, MicroStep(ok, m), k)
  {
    assert At(ok, m, 1) == MicroStep(ok, At(ok, m, 0));
    AtAt(ok, m, 1, k);
  }

  lemma {:induction false} SweepTakes(ok: nat -> bool, m: Micro) returns (n: nat)
    requires PositiveBook(m.desk.book) && m.cur.Some?
    ensures var r := SweepAll(ok, Sweep(m.desk, m.cur.value));
            At(ok, m, n) == Micro(r.desk, Some(r.incoming), m.inbox)
    decreases Opposite(Sweep(m.desk, m.cur.value))
  {
    var s := Sweep(m.desk, m.cur.value);
    n := 0;
    if CanMatch(s) {
      StepProgress(ok, s);
      var r := StepMatch(ok, s);
      var j := SweepTakes(ok, Micro(r.desk, Some(r.incoming), m.inbox));
      AtNext(ok, m, j);
      n := j + 1;
    }
  }

  lemma MatchTakes(ok: nat -> bool, m: Micro) returns (n: nat)
    requires PositiveBook(m.desk.book) && m.cur.None? && m.inbox != []
    ensures At(ok, m, n) == Micro(MatchOrder(ok, m.desk, m.inbox[0]), None, m.inbox[1..])
  {
    var j := SweepTakes(ok, MicroStep(ok, m));
    AtNext(ok, m, j);
    n := j + 2;
  }

  lemma RunOneMore(ok: nat -> bool, d: Desk, os: seq<OrderVal>, n: nat)
    requires PositiveBook(d.book) && 0 < n <= |os|
    ensures Run(ok, d, os[..n]) == MatchOrder(ok, Run(ok, d, os[..n - 1]), os[n - 1])
  {
    assert os[..n][..n - 1] == os[..n - 1];
  }

  /** The steps of one more order, after those that led to m. */
  lemma OneMoreTakes(ok: nat -> bool, start: Micro, i: nat, m: Micro) returns (k: nat)
    requires At(ok, start, i) == m && PositiveBook(m.desk.book) && m.cur.None? && m.inbox != []
    ensures At(ok, start, k) == Micro(MatchOrder(ok, m.desk, m.inbox[0]), None, m.inbox[1..])
  {
    var j := MatchTakes(ok, m);
    k := i + j;
    assert At(ok, start, k) == At(ok, m, j) by {
      AtAt(ok, start, i, j);
    }
  }

  /** Running whole orders is what the single steps add up to. */
  lemma {:induction false} RunTakes(ok: nat -> bool, d: Desk, os: seq<OrderVal>, n: nat) returns (k: nat)
    requires PositiveBook(d.book) && n <= |os|
    ensures At(ok, Micro(d, None, os), k) == Micro(Run(ok, d, os[..n]), None, os[n..])
  {
    if n == 0 {
      k := 0;
      assert os[..0] == [] && os[0..] == os;
    } else {
      var i := RunTakes(ok, d, os, n - 1);
      var m := Micro(Run(ok, d, os[..n - 1]), None, os[n - 1..]);
      k := OneMoreTakes(ok, Micro(d, None, os), i, m);
      assert m.inbox[1..] == os[n..];
      RunOneMore(ok, d, os, n);
    }
  }
}
