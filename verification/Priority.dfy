/** Price-time priority over whole runs, and the book as one stable sort of the
    orders still live. */
module Priority {
  import opened Entities
  import opened StableSort
  import opened BookSpec
  import opened Matching
  import opened MirrorSymmetry
  import opened BookInvariant

  function SideOf(b: Book, side: Side): seq<Resting> {
    match side case Buy => b.bids case Sell => b.asks
  }

  /** Whether a resting price p is at least as good as q for whoever comes to trade. */
  predicate NoWorse(side: Side, p: int, q: int) {
    match side case Buy => p >= q case Sell => p <= q
  }

  /** The next step fills, or tries to fill, the resting order `id` of this side. */
  predicate Hits(m: Micro, side: Side, id: string) {
    && m.cur.Some? && CanMatch(Sweep(m.desk, m.cur.value))
    && m.cur.value.side == Flip(side) && SideOf(m.desk.book, side)[0].order.id == id
  }

  /** Wherever a's price is at least as good as b's, a stands before b. */
  ghost predicate InFront(es: seq<Resting>, side: Side, a: string, b: string) {
    forall p, q ::
      (0 <= p < |es| && 0 <= q < |es| && es[p].order.id == a && es[q].order.id == b
       && NoWorse(side, es[p].order.price, es[q].order.price) && a != b)
      ==> p < q
  }

  lemma ChargeBidShape(b: Book, buy: OrderVal, left: int)
    requires BookInv(b) && b.bids != [] && buy.id == b.bids[0].order.id
    ensures left > 0 ==> ChargeBid(b, buy, left) == b.(bids := [Resting(buy, left)] + b.bids[1..])
    ensures left <= 0 ==> ChargeBid(b, buy, left) == Book(b.bids[1..], b.asks, b.index - {buy.id})
  {
    MirrorBookInv(b);
    MirrorCharge(b, buy, left);
    ChargeAskShape(MirrorBook(b), MirrorOrder(buy), left);
    var r := ChargeBid(b, buy, left);
    MirrorEntriesTwice(r.asks);
    MirrorEntriesTwice(b.asks);
    MirrorEntriesTwice(r.bids);
    var bids := if left > 0 then [Resting(buy, left)] + b.bids[1..] else b.bids[1..];
    MirrorEntriesTwice(bids);
    assert MirrorEntries(r.bids) == MirrorEntries(bids);
  }

  /** The ways one step can change one side of the book. */
  datatype Change = Same | Touched | HeadGone | Grown(at: nat)

  ghost predicate Changed(es: seq<Resting>, fs: seq<Resting>, side: Side, c: Change) {
    match c
    case Same => fs == es
    case Touched =>
      es != [] && fs != [] && fs[1..] == es[1..]
      && fs[0].order.id == es[0].order.id && fs[0].order.price == es[0].order.price
    case HeadGone => es != [] && fs == es[1..]
    case Grown(p) =>
      p <= |es| && |fs| == |es| + 1 && fs == es[..p] + [fs[p]] + es[p..]
      && fs[p].order.id !in Ids(es)
      && (forall i :: 0 <= i < p ==> NoWorse(side, es[i].order.price, fs[p].order.price))
      && (forall i :: p <= i < |es| ==> !NoWorse(side, es[i].order.price, fs[p].order.price))
  }

  lemma MatchChange(ok: nat -> bool, s: Sweep, side: Side) returns (c: Change)
    requires BookInv(s.desk.book) && CanMatch(s)
    ensures Changed(SideOf(s.desk.book, side), SideOf(StepMatch(ok, s).desk.book, side), side, c)
    ensures c.Touched? || c.HeadGone? ==> s.incoming.side == Flip(side)
  {
    var b, o := s.desk.book, s.incoming;
    var best := if o.side == Buy then b.asks[0] else b.bids[0];
    var qty := Min(o.Remaining(), best.remaining);
    var passive := if ok(|s.desk.log|) then best.order.AfterFill(qty) else best.order;
    if o.side == Buy {
      ChargeAskShape(b, passive, best.remaining - qty);
    } else {
      ChargeBidShape(b, passive, best.remaining - qty);
    }
    c := if side == o.side then Same else if best.remaining > qty then Touched else HeadGone;
  }

  lemma RestChange(b: Book, o: OrderVal, side: Side) returns (c: Change)
    requires BookInv(b)
    ensures Changed(SideOf(b, side), SideOf(AddOrder(b, o), side), side, c) && (c.Same? || c.Grown?)
  {
    c := Same;
    if o.id !in b.index {
      var p := AddOrderSplits(b, o);
      var es, fs := SideOf(b, side), SideOf(AddOrder(b, o), side);
      assert o.id !in Ids(es);
      if side == o.side {
        c := Grown(p);
        assert fs == es[..p] + [Resting(o, o.Remaining())] + es[p..];
        assert fs[p] == Resting(o, o.Remaining());
        if side == Buy {
          assert Changed(es, fs, Buy, c);
        } else {
          assert Changed(es, fs, Sell, c);
        }
      }
    }
  }

  lemma StepChange(ok: nat -> bool, m: Micro, side: Side) returns (c: Change)
    requires BookInv(m.desk.book)
    ensures Changed(SideOf(m.desk.book, side), SideOf(MicroStep(ok, m).desk.book, side), side, c)
    ensures c.Touched? || c.HeadGone? ==> Hits(m, side, SideOf(m.desk.book, side)[0].order.id)
  {
    c := Same;
    if m.cur.Some? {
      var o := m.cur.value;
      if CanMatch(Sweep(m.desk, o)) {
        c := MatchChange(ok, Sweep(m.desk, o), side);
      } else if o.IsActive() && o.Remaining() > 0 {
        c := RestChange(m.desk.book, o, side);
      }
    }
  }

  lemma InFrontKept(es: seq<Resting>, fs: seq<Resting>, side: Side, c: Change, a: string, b: string)
    requires Changed(es, fs, side, c) && InFront(es, side, a, b) && a in Ids(es)
    ensures InFront(fs, side, a, b)
  {
    forall p, q | 0 <= p < |fs| && 0 <= q < |fs| && fs[p].order.id == a && fs[q].order.id == b
      && NoWorse(side, fs[p].order.price, fs[q].order.price) && a != b
      ensures p < q
    {
      match c
      case Same =>
      case Touched =>
        assert p > 0 ==> fs[p] == fs[1..][p - 1] && es[p] == es[1..][p - 1];
        assert q > 0 ==> fs[q] == fs[1..][q - 1] && es[q] == es[1..][q - 1];
        assert NoWorse(side, es[p].order.price, es[q].order.price);
      case HeadGone =>
        assert fs[p] == es[p + 1] && fs[q] == es[q + 1];
      case Grown(n) =>
        if q == n {
          assert fs[p] == es[if p < n then p else p - 1];
        } else if p != n {
          var p', q' := if p < n then p else p - 1, if q < n then q else q - 1;
          assert fs[p] == es[p'] && fs[q] == es[q'];
        }
    }
  }

  lemma {:induction false} StaysInFront(ok: nat -> bool, m: Micro, i: nat, j: nat, side: Side, a: string, b: string)
    requires i <= j && BookInv(At(ok, m, i).desk.book)
    requires forall t :: i <= t <= j ==> a in Ids(SideOf(At(ok, m, t).desk.book, side))
    requires b !in Ids(SideOf(At(ok, m, i).desk.book, side))
    ensures BookInv(At(ok, m, j).desk.book) && InFront(SideOf(At(ok, m, j).desk.book, side), side, a, b)
    decreases j - i
  {
    var now := SideOf(At(ok, m, i).desk.book, side);
    if i == j {
      forall q | 0 <= q < |now| ensures now[q].order.id != b { assert now[q].order.id in Ids(now); }
    } else {
      StaysInFront(ok, m, i, j - 1, side, a, b);
      var c := StepChange(ok, At(ok, m, j - 1), side);
      InFrontKept(SideOf(At(ok, m, j - 1).desk.book, side), SideOf(At(ok, m, j).desk.book, side), side, c, a, b);
      MicroStepInv(ok, At(ok, m, j - 1));
    }
  }

  /** Only the entry that is hit changes or leaves: every other resting order keeps
      its place in the book with the same fill and the same remaining. */
  lemma OnlyTheHitChanges(ok: nat -> bool, m: Micro, side: Side, q: nat)
    requires BookInv(m.desk.book) && q < |SideOf(m.desk.book, side)|
    requires !Hits(m, side, SideOf(m.desk.book, side)[q].order.id)
    ensures SideOf(m.desk.book, side)[q] in SideOf(MicroStep(ok, m).desk.book, side)
  {
    var es, fs := SideOf(m.desk.book, side), SideOf(MicroStep(ok, m).desk.book, side);
    var c := StepChange(ok, m, side);
    match c
    case Same =>
    case Touched => assert fs[q] == fs[1..][q - 1] == es[q];
    case HeadGone => assert fs[q - 1] == es[q];
    case Grown(p) => assert fs[if q < p then q else q + 1] == es[q];
  }

  /** Price before time: in any run, while an order rests on a side at a strictly
      better price, a worse one on that side is not hit. */
  lemma BetterPriceFirst(ok: nat -> bool, stock: string, store: map<string, OrderVal>, os: seq<OrderVal>,
                         t: nat, side: Side, p: nat, q: nat)
    requires var es := SideOf(At(ok, Start(stock, store, os), t).desk.book, side);
      p < |es| && q < |es| && !NoWorse(side, es[q].order.price, es[p].order.price)
    ensures var m := At(ok, Start(stock, store, os), t);
      && !Hits(m, side, SideOf(m.desk.book, side)[q].order.id)
      && SideOf(m.desk.book, side)[q] in SideOf(MicroStep(ok, m).desk.book, side)
  {
    BookInvAlways(ok, stock, store, os, t);
    var m := At(ok, Start(stock, store, os), t);
    var es := SideOf(m.desk.book, side);
    assert q == 0 ==> match side case Buy => BidKey(es[0]) <= BidKey(es[p]) case Sell => AskKey(es[0]) <= AskKey(es[p]);
    assert q != 0 ==> es[0].order.id != es[q].order.id;
    OnlyTheHitChanges(ok, m, side, q);
  }

  /** Time within price: in any run, if b was not resting yet at step i, and a has
      rested from step i to step j at a price no worse than b's, then step j
      does not hit b. */
  lemma EarlierFirst(ok: nat -> bool, stock: string, store: map<string, OrderVal>, os: seq<OrderVal>,
                     i: nat, j: nat, side: Side, a: string, b: string)
    requires i <= j && a != b
    requires forall t :: i <= t <= j ==> a in Ids(SideOf(At(ok, Start(stock, store, os), t).desk.book, side))
    requires b !in Ids(SideOf(At(ok, Start(stock, store, os), i).desk.book, side))
    requires var es := SideOf(At(ok, Start(stock, store, os), j).desk.book, side);
      forall p, q :: 0 <= p < |es| && 0 <= q < |es| && es[p].order.id == a && es[q].order.id == b ==>
        NoWorse(side, es[p].order.price, es[q].order.price)
    ensures !Hits(At(ok, Start(stock, store, os), j), side, b)
  {
    var m := Start(stock, store, os);
    BookInvAlways(ok, stock, store, os, i);
    StaysInFront(ok, m, i, j, side, a, b);
    var es := SideOf(At(ok, m, j).desk.book, side);
    assert a in Ids(es);
    var p :| 0 <= p < |es| && es[p].order.id == a;
  }

  // --------------------------------------- the book as one stable sort

  datatype BookOp = Add(order: OrderVal) | Remove(id: string)

  function Operate(b: Book, op: BookOp): Book {
    match op
    case Add(o) => AddOrder(b, o)
    case Remove(id) => RemoveOrder(b, id)
  }

  function Replay(ops: seq<BookOp>): Book {
    if ops == [] then EMPTY_BOOK else Operate(Replay(ops[..|ops| - 1]), ops[|ops| - 1])
  }

  function NotId(id: string): Resting -> bool {
    (e: Resting) => e.order.id != id
  }

  function OnSide(side: Side): Resting -> bool {
    (e: Resting) => e.order.side == side
  }

  /** The orders still live, in the order they came, both sides together. */
  function Live(ops: seq<BookOp>): seq<Resting> {
    if ops == [] then []
    else
      var live := Live(ops[..|ops| - 1]);
      match ops[|ops| - 1]
      case Add(o) => if exists i :: 0 <= i < |live| && live[i].order.id == o.id then live else live + [Resting(o, o.Remaining())]
      case Remove(id) => Filter(live, NotId(id))
  }

  lemma {:induction false} FilterAppend<T>(s: seq<T>, x: T, keep: T -> bool)
    ensures Filter(s + [x], keep) == if keep(x) then Filter(s, keep) + [x] else Filter(s, keep)
  {
    assert (s + [x])[..|s|] == s;
  }

  lemma {:induction false} FilterSwap<T>(s: seq<T>, k1: T -> bool, k2: T -> bool)
    ensures Filter(Filter(s, k1), k2) == Filter(Filter(s, k2), k1)
  {
    if s != [] {
      var front, x := s[..|s| - 1], s[|s| - 1];
      FilterSwap(front, k1, k2);
      if k1(x) { FilterAppend(Filter(front, k1), x, k2); }
      if k2(x) { FilterAppend(Filter(front, k2), x, k1); }
    }
  }

  lemma LastIsUnique(es: seq<Resting>)
    requires es != [] && UniqueIds(es)
    ensures UniqueIds(es[..|es| - 1]) && es[|es| - 1].order.id !in Ids(es[..|es| - 1])
  {
  }

  /** Removing by ID from a side without repeated IDs keeps exactly the others. */
  lemma {:induction false} RemoveIsFilter(es: seq<Resting>, id: string)
    requires UniqueIds(es)
    ensures RemoveEntry(es, id) == Filter(es, NotId(id))
  {
    if es != [] {
      var front, last := es[..|es| - 1], es[|es| - 1];
      LastIsUnique(es);
      RemoveIsFilter(front, id);
      RemoveFromFront(front, last, id);
      assert front + [last] == es;
      if last.order.id == id {
        RemoveAbsent(front, id);
      }
    }
  }

  lemma AmongTheRest(es: seq<Resting>, id: string)
    requires es != [] && es[0].order.id != id
    ensures id in Ids(es) <==> id in Ids(es[1..])
  {
    forall i | 0 <= i < |es| && es[i].order.id == id ensures id in Ids(es[1..]) { assert es[1..][i - 1].order.id == id; }
    forall i | 0 <= i < |es[1..]| && es[1..][i].order.id == id ensures id in Ids(es) { assert es[i + 1].order.id == id; }
  }

  lemma {:induction false} RemoveFromFront(front: seq<Resting>, last: Resting, id: string)
    ensures RemoveEntry(front + [last], id)
         == if id in Ids(front) || last.order.id != id then RemoveEntry(front, id) + [last] else front
  {
    var es := front + [last];
    if front == [] {
      assert es[1..] == [];
    } else {
      assert es[1..] == front[1..] + [last] && es[0] == front[0];
      RemoveFromFront(front[1..], last, id);
      assert front[0].order.id in Ids(front);
      if front[0].order.id != id {
        AmongTheRest(front, id);
        assert [front[0]] + (RemoveEntry(front[1..], id) + [last]) == RemoveEntry(front, id) + [last];
        assert [front[0]] + front[1..] == front;
      }
    }
  }

  lemma {:induction false} FilterUnique(es: seq<Resting>, keep: Resting -> bool)
    requires UniqueIds(es)
    ensures UniqueIds(Filter(es, keep))
  {
    if es != [] {
      var front, last := es[..|es| - 1], es[|es| - 1];
      FilterUnique(front, keep);
      var kept := Filter(front, keep);
      forall i | 0 <= i < |kept| ensures kept[i].order.id != last.order.id {
        FilterMember(front, keep, kept[i]);
        var j :| 0 <= j < |front| && front[j] == kept[i];
        assert es[j] == front[j];
      }
    }
  }

  lemma FilterIds(es: seq<Resting>, id: string)
    ensures Ids(Filter(es, NotId(id))) == Ids(es) - {id}
  {
    var kept := Filter(es, NotId(id));
    forall x | x in Ids(kept) ensures x in Ids(es) - {id} {
      var i :| 0 <= i < |kept| && kept[i].order.id == x;
      FilterMember(es, NotId(id), kept[i]);
      var j :| 0 <= j < |es| && es[j] == kept[i];
    }
    forall x | x in Ids(es) - {id} ensures x in Ids(kept) {
      var i :| 0 <= i < |es| && es[i].order.id == x;
      FilterMember(es, NotId(id), es[i]);
      var j :| 0 <= j < |kept| && kept[j] == es[i];
    }
  }

  ghost predicate SideInv(es: seq<Resting>, index: set<string>, key: Resting -> int) {
    Sorted(es, key) && UniqueIds(es) && Ids(es) <= index
  }

  lemma RemoveKeepsSide(es: seq<Resting>, index: set<string>, key: Resting -> int, id: string)
    requires SideInv(es, index, key)
    ensures RemoveEntry(es, id) == Filter(es, NotId(id)) && SideInv(RemoveEntry(es, id), index - {id}, key)
  {
    RemoveIsFilter(es, id);
    FilterSorted(es, NotId(id), key);
    FilterUnique(es, NotId(id));
    FilterIds(es, id);
  }

  lemma InsertedUnique(es: seq<Resting>, index: set<string>, e: Resting, p: nat)
    requires UniqueIds(es) && Ids(es) <= index && e.order.id !in index && p <= |es|
    ensures UniqueIds(es[..p] + [e] + es[p..]) && Ids(es[..p] + [e] + es[p..]) <= index + {e.order.id}
  {
    var r := es[..p] + [e] + es[p..];
    forall i | 0 <= i < |es| ensures es[i].order.id in Ids(es) {}
    forall i | 0 <= i < |r| ensures r[i] == if i == p then e else es[if i < p then i else i - 1] {}
  }

  lemma AddKeepsSide(es: seq<Resting>, index: set<string>, key: Resting -> int, e: Resting)
    requires SideInv(es, index, key) && e.order.id !in index
    ensures SliceStable(es + [e], key) == Insert(es, e, key)
    ensures SideInv(SliceStable(es + [e], key), index + {e.order.id}, key)
  {
    assert SliceStable(es + [e], key) == Insert(es, e, key) by { AppendThenSort(es, e, key); }
    var p := InsertSplits(es, e, key);
    InsertSorted(es, e, key);
    InsertedUnique(es, index, e, p);
  }

  lemma SameSide(live: seq<Resting>, x: Resting, side: Side)
    ensures Filter(live + [x], OnSide(side)) == if x.order.side == side then Filter(live, OnSide(side)) + [x] else Filter(live, OnSide(side))
  {
    FilterAppend(live, x, OnSide(side));
  }

  lemma {:induction false} ReplayInv(ops: seq<BookOp>)
    ensures var b, live := Replay(ops), Live(ops);
      && SideInv(b.bids, b.index, BidKey) && SideInv(b.asks, b.index, AskKey)
      && b.index == Ids(live)
      && b.bids == SliceStable(Filter(live, OnSide(Buy)), BidKey)
      && b.asks == SliceStable(Filter(live, OnSide(Sell)), AskKey)
  {
    if ops == [] {
      assert Ids([]) == {};
    } else {
      var b, live := Replay(ops[..|ops| - 1]), Live(ops[..|ops| - 1]);
      ReplayInv(ops[..|ops| - 1]);
      match ops[|ops| - 1]
      case Add(o) =>
        assert o.id in Ids(live) <==> exists i :: 0 <= i < |live| && live[i].order.id == o.id;
        if o.id !in b.index {
          AddIsOneSort(b, live, o);
        }
      case Remove(id) =>
        RemoveIsOneSort(b, live, id, Buy, BidKey);
        RemoveIsOneSort(b, live, id, Sell, AskKey);
        RemoveKeepsSide(b.bids, b.index, BidKey, id);
        RemoveKeepsSide(b.asks, b.index, AskKey, id);
        FilterIds(live, id);
    }
  }

  lemma AddIsOneSort(b: Book, live: seq<Resting>, o: OrderVal)
    requires SideInv(b.bids, b.index, BidKey) && SideInv(b.asks, b.index, AskKey)
    requires b.index == Ids(live) && o.id !in b.index
    requires b.bids == SliceStable(Filter(live, OnSide(Buy)), BidKey)
    requires b.asks == SliceStable(Filter(live, OnSide(Sell)), AskKey)
    ensures var r, live' := AddOrder(b, o), live + [Resting(o, o.Remaining())];
      && SideInv(r.bids, r.index, BidKey) && SideInv(r.asks, r.index, AskKey)
      && r.index == Ids(live')
      && r.bids == SliceStable(Filter(live', OnSide(Buy)), BidKey)
      && r.asks == SliceStable(Filter(live', OnSide(Sell)), AskKey)
  {
    var e := Resting(o, o.Remaining());
    SameSide(live, e, Buy);
    SameSide(live, e, Sell);
    var buys, sells := Filter(live, OnSide(Buy)), Filter(live, OnSide(Sell));
    assert (buys + [e])[..|buys|] == buys && (sells + [e])[..|sells|] == sells;
    AddKeepsSide(b.bids, b.index, BidKey, e);
    AddKeepsSide(b.asks, b.index, AskKey, e);
    GrownIds(live, e);
  }

  lemma GrownIds(es: seq<Resting>, e: Resting)
    ensures Ids(es + [e]) == Ids(es) + {e.order.id}
  {
    var r := es + [e];
    assert r[|es|].order.id == e.order.id;
    forall x | x in Ids(es) ensures x in Ids(r) {
      var i :| 0 <= i < |es| && es[i].order.id == x;
      assert r[i].order.id == x;
    }
  }

  lemma RemoveIsOneSort(b: Book, live: seq<Resting>, id: string, side: Side, key: Resting -> int)
    requires SideInv(SideOf(b, side), b.index, key)
    requires SideOf(b, side) == SliceStable(Filter(live, OnSide(side)), key)
    ensures RemoveEntry(SideOf(b, side), id) == SliceStable(Filter(Filter(live, NotId(id)), OnSide(side)), key)
  {
    RemoveIsFilter(SideOf(b, side), id);
    FilterSort(Filter(live, OnSide(side)), NotId(id), key);
    FilterSwap(live, OnSide(side), NotId(id));
  }

  /** After any sequence of adds and removes each side is one stable sort by price
      of the live orders in arrival order, and the index holds exactly their IDs. */
  lemma BookIsStableSortOfSurvivors(ops: seq<BookOp>)
    ensures Replay(ops).bids == SliceStable(Filter(Live(ops), OnSide(Buy)), BidKey)
    ensures Replay(ops).asks == SliceStable(Filter(Live(ops), OnSide(Sell)), AskKey)
    ensures Replay(ops).index == Ids(Live(ops)) && UniqueIds(Replay(ops).bids) && UniqueIds(Replay(ops).asks)
  {
    ReplayInv(ops);
  }

  // ------------------------------- the same of the book of a running matcher

  /** An entry as it was when its order was created: fills forgotten. */
  function AsArrived(e: Resting): Resting {
    Resting(e.order.Identity(), e.order.quantity)
  }

  function AllAsArrived(es: seq<Resting>): seq<Resting> {
    seq(|es|, i requires 0 <= i < |es| => AsArrived(es[i]))
  }

  function BookAsArrived(b: Book): Book {
    Book(AllAsArrived(b.bids), AllAsArrived(b.asks), b.index)
  }

  /** What the next step adds to the book or removes from it, if anything. */
  function NextOp(m: Micro): seq<BookOp> {
    if m.cur.None? then []
    else
      var s := Sweep(m.desk, m.cur.value);
      if CanMatch(s) then
        var best := SideOf(m.desk.book, Flip(s.incoming.side))[0];
        if best.remaining <= s.incoming.Remaining() then [Remove(best.order.id)] else []
      else if s.incoming.IsActive() && s.incoming.Remaining() > 0 then [Add(s.incoming.Identity())]
      else []
  }

  /** The adds and removes of the first k steps. */
  function OpsOf(ok: nat -> bool, m: Micro, k: nat): seq<BookOp> {
    if k == 0 then [] else OpsOf(ok, m, k - 1) + NextOp(At(ok, m, k - 1))
  }

  lemma ArrivedAppend(es: seq<Resting>, e: Resting)
    ensures AllAsArrived(es + [e]) == AllAsArrived(es) + [AsArrived(e)]
  {
  }

  lemma {:induction false} ArrivedInsert(es: seq<Resting>, e: Resting, key: Resting -> int)
    requires forall x :: key(AsArrived(x)) == key(x)
    ensures AllAsArrived(Insert(es, e, key)) == Insert(AllAsArrived(es), AsArrived(e), key)
  {
    if es == [] || key(es[|es| - 1]) <= key(e) {
      ArrivedAppend(es, e);
    } else {
      var front, last := es[..|es| - 1], es[|es| - 1];
      assert AllAsArrived(es)[..|es| - 1] == AllAsArrived(front);
      ArrivedInsert(front, e, key);
      ArrivedAppend(Insert(front, e, key), last);
    }
  }

  lemma {:induction false} ArrivedSort(es: seq<Resting>, key: Resting -> int)
    requires forall x :: key(AsArrived(x)) == key(x)
    ensures AllAsArrived(SliceStable(es, key)) == SliceStable(AllAsArrived(es), key)
  {
    if es != [] {
      var front, last := es[..|es| - 1], es[|es| - 1];
      assert AllAsArrived(es)[..|es| - 1] == AllAsArrived(front);
      ArrivedSort(front, key);
      ArrivedInsert(SliceStable(front, key), last, key);
    }
  }

  lemma ArrivedAdd(b: Book, o: OrderVal)
    ensures BookAsArrived(AddOrder(b, o)) == AddOrder(BookAsArrived(b), o.Identity())
  {
    var e := Resting(o, o.Remaining());
    ArrivedAppend(b.bids, e);
    ArrivedAppend(b.asks, e);
    ArrivedSort(b.bids + [e], BidKey);
    ArrivedSort(b.asks + [e], AskKey);
  }

  lemma {:induction false} ArrivedRemoveEntry(es: seq<Resting>, id: string)
    ensures AllAsArrived(RemoveEntry(es, id)) == RemoveEntry(AllAsArrived(es), id)
  {
    if es != [] {
      assert AllAsArrived(es)[1..] == AllAsArrived(es[1..]);
      ArrivedRemoveEntry(es[1..], id);
      if es[0].order.id != id {
        assert AllAsArrived([es[0]] + RemoveEntry(es[1..], id)) == [AsArrived(es[0])] + AllAsArrived(RemoveEntry(es[1..], id));
      }
    }
  }

  lemma ArrivedRemove(b: Book, id: string)
    ensures BookAsArrived(RemoveOrder(b, id)) == RemoveOrder(BookAsArrived(b), id)
  {
    ArrivedRemoveEntry(b.bids, id);
    ArrivedRemoveEntry(b.asks, id);
  }

  /** Fills do not show in the arrivals. */
  lemma ArrivedTouch(es: seq<Resting>, e: Resting)
    requires es != [] && e.order.Identity() == es[0].order.Identity()
    ensures AllAsArrived(es[0 := e]) == AllAsArrived(es)
  {
  }

  lemma ChargeArrived(b: Book, o: OrderVal, left: int)
    ensures b.asks != [] && o.Identity() == b.asks[0].order.Identity() ==>
      BookAsArrived(ChargeAsk(b, o, left)) == if left <= 0 then RemoveOrder(BookAsArrived(b), o.id) else BookAsArrived(b)
    ensures b.bids != [] && o.Identity() == b.bids[0].order.Identity() ==>
      BookAsArrived(ChargeBid(b, o, left)) == if left <= 0 then RemoveOrder(BookAsArrived(b), o.id) else BookAsArrived(b)
  {
    if b.asks != [] && o.Identity() == b.asks[0].order.Identity() {
      ArrivedTouch(b.asks, Resting(o, left));
      ArrivedRemove(b.(asks := b.asks[0 := Resting(o, left)]), o.id);
    }
    if b.bids != [] && o.Identity() == b.bids[0].order.Identity() {
      ArrivedTouch(b.bids, Resting(o, left));
      ArrivedRemove(b.(bids := b.bids[0 := Resting(o, left)]), o.id);
    }
  }

  lemma MatchOperates(ok: nat -> bool, s: Sweep)
    requires CanMatch(s)
    ensures var best := SideOf(s.desk.book, Flip(s.incoming.side))[0];
      BookAsArrived(StepMatch(ok, s).desk.book)
        == if best.remaining <= s.incoming.Remaining() then RemoveOrder(BookAsArrived(s.desk.book), best.order.id) else BookAsArrived(s.desk.book)
  {
    var b := s.desk.book;
    var best := SideOf(b, Flip(s.incoming.side))[0];
    var qty := Min(s.incoming.Remaining(), best.remaining);
    var passive := if ok(|s.desk.log|) then best.order.AfterFill(qty) else best.order;
    ChargeArrived(b, passive, best.remaining - qty);
  }

  lemma StepOperates(ok: nat -> bool, m: Micro)
    ensures BookAsArrived(MicroStep(ok, m).desk.book)
         == if NextOp(m) == [] then BookAsArrived(m.desk.book) else Operate(BookAsArrived(m.desk.book), NextOp(m)[0])
  {
    if m.cur.Some? {
      if CanMatch(Sweep(m.desk, m.cur.value)) {
        MatchOperates(ok, Sweep(m.desk, m.cur.value));
      } else {
        ArrivedAdd(m.desk.book, m.cur.value);
      }
    }
  }

  lemma ReplayNext(ops: seq<BookOp>, next: seq<BookOp>)
    requires |next| <= 1
    ensures Replay(ops + next) == if next == [] then Replay(ops) else Operate(Replay(ops), next[0])
  {
    if next == [] {
      assert ops + next == ops;
    } else {
      assert (ops + next)[..|ops|] == ops;
    }
  }

  lemma StepReplays(ok: nat -> bool, m: Micro, ops: seq<BookOp>)
    requires BookAsArrived(m.desk.book) == Replay(ops)
    ensures BookAsArrived(MicroStep(ok, m).desk.book) == Replay(ops + NextOp(m))
  {
    StepOperates(ok, m);
    ReplayNext(ops, NextOp(m));
  }

  lemma NothingArrived()
    ensures BookAsArrived(EMPTY_BOOK) == Replay([])
  {
    assert AllAsArrived([]) == [];
  }

  lemma {:induction false} BookIsReplay(ok: nat -> bool, stock: string, store: map<string, OrderVal>, os: seq<OrderVal>, k: nat)
    ensures BookAsArrived(At(ok, Start(stock, store, os), k).desk.book) == Replay(OpsOf(ok, Start(stock, store, os), k))
    decreases k, 0
  {
    if k == 0 {
      NothingArrived();
    } else {
      var m, ops := ReplayedSoFar(ok, stock, store, os, k - 1);
      StepReplays(ok, m, ops);
    }
  }

  lemma ReplayedSoFar(ok: nat -> bool, stock: string, store: map<string, OrderVal>, os: seq<OrderVal>, k: nat) returns (m: Micro, ops: seq<BookOp>)
    ensures m == At(ok, Start(stock, store, os), k) && ops == OpsOf(ok, Start(stock, store, os), k)
    ensures BookAsArrived(m.desk.book) == Replay(ops)
    decreases k, 1
  {
    BookIsReplay(ok, stock, store, os, k);
    m, ops := At(ok, Start(stock, store, os), k), OpsOf(ok, Start(stock, store, os), k);
  }

  /** In every state of every run, partial fills and failed saves included: as they
      arrived, the orders of each side are one stable sort by price of those rested
      and not removed so far, in the order they were rested. */
  lemma RunIsStableSortOfSurvivors(ok: nat -> bool, stock: string, store: map<string, OrderVal>, os: seq<OrderVal>, k: nat)
    ensures var b, live := At(ok, Start(stock, store, os), k).desk.book, Live(OpsOf(ok, Start(stock, store, os), k));
      && AllAsArrived(b.bids) == SliceStable(Filter(live, OnSide(Buy)), BidKey)
      && AllAsArrived(b.asks) == SliceStable(Filter(live, OnSide(Sell)), AskKey)
      && b.index == Ids(live)
  {
    BookIsReplay(ok, stock, store, os, k);
    BookIsStableSortOfSurvivors(OpsOf(ok, Start(stock, store, os), k));
  }
}
