/** A sweep without faults trades exactly as much as the limit allows, at the
    best total price any choice of resting orders could give. */
module Optimality {
  import opened Entities
  import opened StableSort
  import opened BookSpec
  import opened Matching
  import opened MirrorSymmetry
  import opened BookInvariant
  import opened Conservation

  /** What qty units cost at this price: unit by unit, so that the lemmas about it
      stay linear. */
  function Amount(price: int, qty: int): int {
    if qty <= 0 then 0 else price + Amount(price, qty - 1)
  }

  lemma {:induction false} AmountIsProduct(price: int, qty: nat)
    ensures Amount(price, qty) == price * qty
  {
    if qty > 0 {
      AmountIsProduct(price, qty - 1);
      assert price * qty == price * (qty - 1) + price;
    }
  }

  lemma {:induction false} AmountFlips(price: int, qty: int)
    ensures Amount(-price, qty) == -Amount(price, qty)
    decreases if qty < 0 then 0 else qty
  {
    if qty > 0 {
      AmountFlips(price, qty - 1);
    }
  }

  lemma {:induction false} AmountSplits(price: int, m: nat, n: nat)
    ensures Amount(price, m + n) == Amount(price, m) + Amount(price, n)
  {
    if n > 0 {
      AmountSplits(price, m, n - 1);
    }
  }

  lemma {:induction false} AmountGrows(floor: int, price: int, qty: int)
    requires floor <= price
    ensures Amount(floor, qty) <= Amount(price, qty)
    decreases if qty < 0 then 0 else qty
  {
    if qty > 0 {
      AmountGrows(floor, price, qty - 1);
    }
  }

  /** The money that changed hands. */
  function Cost(ts: seq<Trade>): int {
    if ts == [] then 0 else Cost(ts[..|ts| - 1]) + Amount(ts[|ts| - 1].price, ts[|ts| - 1].quantity)
  }

  function WithinAsks(asks: seq<Resting>, limit: int): int {
    if asks == [] then 0
    else (if asks[0].order.price <= limit then asks[0].remaining else 0) + WithinAsks(asks[1..], limit)
  }

  function WithinBids(bids: seq<Resting>, limit: int): int {
    if bids == [] then 0
    else (if bids[0].order.price >= limit then bids[0].remaining else 0) + WithinBids(bids[1..], limit)
  }

  function Max0(n: int): int {
    if n < 0 then 0 else n
  }

  /** A choice of how many units to take from each resting entry. */
  ghost predicate Allocation(a: seq<int>, es: seq<Resting>) {
    |a| == |es| && forall i :: 0 <= i < |es| ==> 0 <= a[i] <= es[i].remaining
  }

  function Sum(a: seq<int>): int {
    if a == [] then 0 else a[0] + Sum(a[1..])
  }

  function Price(a: seq<int>, es: seq<Resting>): int
    requires |a| == |es|
  {
    if a == [] then 0 else Amount(es[0].order.price, a[0]) + Price(a[1..], es[1..])
  }

  /** The cost of n units taken from the front. */
  function Greedy(es: seq<Resting>, n: int): int {
    if es == [] || n <= 0 then 0
    else
      var q := Min(n, es[0].remaining);
      Amount(es[0].order.price, q) + Greedy(es[1..], n - q)
  }

  lemma SumBounds(a: seq<int>, es: seq<Resting>)
    requires Allocation(a, es)
    ensures 0 <= Sum(a) <= Total(es)
  {
    if a != [] {
      assert Allocation(a[1..], es[1..]);
      SumBounds(a[1..], es[1..]);
    }
  }

  /** Each further unit costs at least the lowest price on offer. */
  lemma {:induction false} MoreCostsMore(es: seq<Resting>, n: nat, k: nat, floor: int)
    requires Positive(es) && n + k <= Total(es)
    requires forall i :: 0 <= i < |es| ==> floor <= es[i].order.price
    ensures Greedy(es, n + k) >= Greedy(es, n) + Amount(floor, k)
  {
    if es != [] && k > 0 {
      var p, r, rest := es[0].order.price, es[0].remaining, es[1..];
      if n >= r {
        MoreCostsMore(rest, n - r, k, floor);
      } else {
        var h := Min(k, r - n);
        TotalNotNegative(rest);
        MoreCostsMore(rest, 0, k - h, floor);
        AmountSplits(p, n, h);
        AmountGrows(floor, p, h);
        AmountSplits(floor, h, k - h);
      }
    }
  }

  lemma SortedTail(es: seq<Resting>)
    requires es != [] && Sorted(es, AskKey)
    ensures Sorted(es[1..], AskKey)
    ensures forall i :: 0 <= i < |es[1..]| ==> es[0].order.price <= es[1..][i].order.price
  {
    forall i, j | 0 <= i < j < |es[1..]| ensures AskKey(es[1..][i]) <= AskKey(es[1..][j]) {
      assert AskKey(es[i + 1]) <= AskKey(es[j + 1]);
    }
    forall i | 0 <= i < |es[1..]| ensures es[0].order.price <= es[1..][i].order.price {
      assert AskKey(es[0]) <= AskKey(es[i + 1]);
    }
  }

  /** The exchange argument: moving units to the front of a sorted side never
      makes them dearer. */
  lemma {:induction false} GreedyIsCheapest(es: seq<Resting>, a: seq<int>)
    requires Positive(es) && Sorted(es, AskKey) && Allocation(a, es)
    ensures Greedy(es, Sum(a)) <= Price(a, es)
  {
    if es != [] {
      var n, p, rest := Sum(a), es[0].order.price, es[1..];
      var q := Min(n, es[0].remaining);
      SortedTail(es);
      assert Allocation(a[1..], rest);
      SumBounds(a[1..], rest);
      GreedyIsCheapest(rest, a[1..]);
      MoreCostsMore(rest, n - q, q - a[0], p);
      AmountSplits(p, a[0], q - a[0]);
    }
  }

  lemma {:induction false} NoneWithin(asks: seq<Resting>, limit: int)
    requires forall i :: 0 <= i < |asks| ==> asks[i].order.price > limit
    ensures WithinAsks(asks, limit) == 0
  {
    if asks != [] {
      NoneWithin(asks[1..], limit);
    }
  }

  lemma {:induction false} WithinNotNegative(asks: seq<Resting>, limit: int)
    requires Positive(asks)
    ensures 0 <= WithinAsks(asks, limit)
  {
    if asks != [] {
      WithinNotNegative(asks[1..], limit);
    }
  }

  lemma CostGrows(log: seq<Attempt>, a: Attempt)
    ensures Cost(Saved(log + [a])) == Cost(Saved(log)) + if a.saved then Amount(a.trade.price, a.trade.quantity) else 0
  {
    assert (log + [a])[..|log|] == log;
    if a.saved {
      assert (Saved(log) + [a.trade])[..|Saved(log)|] == Saved(log);
    }
  }

  /** What one successful iteration moves. */
  ghost predicate Moved(s: Sweep, t: Sweep)
    requires s.desk.book.asks != []
  {
    var best := s.desk.book.asks[0];
    var qty := Min(s.incoming.Remaining(), best.remaining);
    && t.incoming == s.incoming.AfterFill(qty)
    && (qty == best.remaining ==> t.desk.book.asks == s.desk.book.asks[1..])
    && Volume(Saved(t.desk.log)) == Volume(Saved(s.desk.log)) + qty
    && Cost(Saved(t.desk.log)) == Cost(Saved(s.desk.log)) + Amount(best.order.price, qty)
  }

  lemma BuyStepMoves(ok: nat -> bool, s: Sweep)
    requires BookInv(s.desk.book) && s.incoming.side == Buy && NoFault(ok) && CanMatch(s)
    ensures Moved(s, StepBuy(ok, s))
  {
    var t, best := StepBuy(ok, s), s.desk.book.asks[0];
    var qty := Min(s.incoming.Remaining(), best.remaining);
    assert ok(|s.desk.log|);
    ChargeAskShape(s.desk.book, best.order.AfterFill(qty), best.remaining - qty);
    var a := t.desk.log[|s.desk.log|];
    assert t.desk.log == s.desk.log + [a];
    CostGrows(s.desk.log, a);
    LogTotals(s.desk.log, a, Buy);
  }

  ghost predicate SweptGreedily(s: Sweep, r: Sweep) {
    var done := s.incoming.Remaining() - r.incoming.Remaining();
    && done == Min(Max0(s.incoming.Remaining()), WithinAsks(s.desk.book.asks, s.incoming.price))
    && r.incoming.filled == s.incoming.filled + done
    && Volume(Saved(r.desk.log)) == Volume(Saved(s.desk.log)) + done
    && Cost(Saved(r.desk.log)) == Cost(Saved(s.desk.log)) + Greedy(s.desk.book.asks, done)
  }

  /** Taking qty off the best ask and the rest off what is then left is taking both
      off the asks as they were. */
  lemma GreedyTakes(asks: seq<Resting>, left: seq<Resting>, limit: int, want: int, qty: int, rest: int)
    requires asks != [] && Positive(asks) && Positive(left) && asks[0].order.price <= limit
    requires want > 0 && qty == Min(want, asks[0].remaining)
    requires qty == asks[0].remaining ==> left == asks[1..]
    requires rest == Min(Max0(want - qty), WithinAsks(left, limit))
    ensures qty + rest == Min(Max0(want), WithinAsks(asks, limit))
    ensures Greedy(asks, qty + rest) == Amount(asks[0].order.price, qty) + Greedy(left, rest)
  {
    WithinNotNegative(asks[1..], limit);
    WithinNotNegative(left, limit);
    assert Min(qty + rest, asks[0].remaining) == qty;
  }

  lemma GreedyStep(s: Sweep, t: Sweep, r: Sweep)
    requires PositiveBook(s.desk.book) && PositiveBook(t.desk.book) && CanBuy(s)
    requires Moved(s, t) && t.incoming.price == s.incoming.price && SweptGreedily(t, r)
    ensures SweptGreedily(s, r)
  {
    var want, rest := s.incoming.Remaining(), t.incoming.Remaining() - r.incoming.Remaining();
    var qty := Min(want, s.desk.book.asks[0].remaining);
    GreedyTakes(s.desk.book.asks, t.desk.book.asks, s.incoming.price, want, qty, rest);
  }

  lemma {:induction false} BuySweepIsGreedy(ok: nat -> bool, s: Sweep)
    requires BookInv(s.desk.book) && s.incoming.side == Buy && NoFault(ok)
    ensures SweptGreedily(s, SweepAll(ok, s))
    decreases Opposite(s)
  {
    var asks, limit := s.desk.book.asks, s.incoming.price;
    if CanMatch(s) {
      StepInv(ok, s);
      StepProgress(ok, s);
      BuyStepMoves(ok, s);
      BuySweepIsGreedy(ok, StepBuy(ok, s));
      GreedyStep(s, StepBuy(ok, s), SweepAll(ok, s));
    } else {
      WithinNotNegative(asks, limit);
      if asks != [] && asks[0].order.price > limit {
        forall i | 0 <= i < |asks| ensures asks[i].order.price > limit {
          assert i == 0 || AskKey(asks[0]) <= AskKey(asks[i]);
        }
        NoneWithin(asks, limit);
      }
    }
  }

  /** No split of what was bought greedily is cheaper. */
  lemma GreedyBeats(s: Sweep, r: Sweep, a: seq<int>)
    requires BookInv(s.desk.book) && SweptGreedily(s, r)
    requires Allocation(a, s.desk.book.asks) && Sum(a) == r.incoming.filled - s.incoming.filled
    ensures Cost(Saved(r.desk.log)) - Cost(Saved(s.desk.log)) <= Price(a, s.desk.book.asks)
  {
    GreedyIsCheapest(s.desk.book.asks, a);
  }

  /** A buy order executes exactly min(its remaining, what is offered within its
      limit), and no other split of that quantity over the resting asks is cheaper. */
  lemma BuySweepOptimal(ok: nat -> bool, s: Sweep, a: seq<int>)
    requires BookInv(s.desk.book) && s.incoming.side == Buy && NoFault(ok)
    ensures var r := SweepAll(ok, s);
            var done := r.incoming.filled - s.incoming.filled;
      && done == Min(Max0(s.incoming.Remaining()), WithinAsks(s.desk.book.asks, s.incoming.price))
      && Volume(Saved(r.desk.log)) - Volume(Saved(s.desk.log)) == done
      && (Allocation(a, s.desk.book.asks) && Sum(a) == done ==>
          Cost(Saved(r.desk.log)) - Cost(Saved(s.desk.log)) <= Price(a, s.desk.book.asks))
  {
    var r := SweepAll(ok, s);
    BuySweepIsGreedy(ok, s);
    if Allocation(a, s.desk.book.asks) && Sum(a) == r.incoming.filled - s.incoming.filled {
      GreedyBeats(s, r, a);
    }
  }

  // ------------------------------------------------------- the sell side

  lemma {:induction false} MirrorCost(log: seq<Attempt>)
    ensures Cost(Saved(MirrorLog(log))) == -Cost(Saved(log))
    ensures Volume(Saved(MirrorLog(log))) == Volume(Saved(log))
  {
    if log != [] {
      var front, a := log[..|log| - 1], log[|log| - 1];
      assert MirrorLog(log) == MirrorLog(front) + [MirrorAttempt(a)] && log == front + [a];
      MirrorCost(front);
      CostGrows(front, a);
      CostGrows(MirrorLog(front), MirrorAttempt(a));
      LogTotals(front, a, Buy);
      LogTotals(MirrorLog(front), MirrorAttempt(a), Buy);
      AmountFlips(a.trade.price, a.trade.quantity);
    }
  }

  lemma {:induction false} MirrorWithin(bids: seq<Resting>, limit: int)
    ensures WithinAsks(MirrorEntries(bids), -limit) == WithinBids(bids, limit)
  {
    if bids != [] {
      assert MirrorEntries(bids)[1..] == MirrorEntries(bids[1..]);
      MirrorWithin(bids[1..], limit);
    }
  }

  lemma {:induction false} MirrorPrice(a: seq<int>, es: seq<Resting>)
    requires |a| == |es|
    ensures Price(a, MirrorEntries(es)) == -Price(a, es)
  {
    if a != [] {
      assert MirrorEntries(es)[1..] == MirrorEntries(es[1..]);
      MirrorPrice(a[1..], es[1..]);
      AmountFlips(es[0].order.price, a[0]);
    }
  }

  /** The sell sweep seen in the mirror, without the stored copies. */
  lemma MirrorSell(ok: nat -> bool, s: Sweep)
    requires BookInv(s.desk.book) && s.incoming.side == Sell
    ensures var m := MirrorSweep(Blind(s));
      && BookInv(m.desk.book)
      && SweepAll(ok, m).incoming.filled == SweepAll(ok, s).incoming.filled
      && SweepAll(ok, m).desk.log == MirrorLog(SweepAll(ok, s).desk.log)
  {
    BlindSweepAll(ok, s);
    MirrorSweepAll(ok, Blind(s));
    MirrorBookInv(s.desk.book);
  }

  /** A sell order executes exactly min(its remaining, what is bid within its
      limit), and no other split of that quantity over the resting bids pays more. */
  lemma SellSweepOptimal(ok: nat -> bool, s: Sweep, a: seq<int>)
    requires BookInv(s.desk.book) && s.incoming.side == Sell && NoFault(ok)
    ensures var r := SweepAll(ok, s);
            var done := r.incoming.filled - s.incoming.filled;
      && done == Min(Max0(s.incoming.Remaining()), WithinBids(s.desk.book.bids, s.incoming.price))
      && Volume(Saved(r.desk.log)) - Volume(Saved(s.desk.log)) == done
      && (Allocation(a, s.desk.book.bids) && Sum(a) == done ==>
          Cost(Saved(r.desk.log)) - Cost(Saved(s.desk.log)) >= Price(a, s.desk.book.bids))
  {
    var bids, r := s.desk.book.bids, SweepAll(ok, s);
    var m := MirrorSweep(Blind(s));
    var rm := SweepAll(ok, m);
    MirrorSell(ok, s);
    BuySweepOptimal(ok, m, a);
    assert WithinAsks(m.desk.book.asks, m.incoming.price) == WithinBids(bids, s.incoming.price) by { MirrorWithin(bids, s.incoming.price); }
    MirrorCost(s.desk.log);
    MirrorCost(r.desk.log);
    if Allocation(a, bids) {
      assert Allocation(a, MirrorEntries(bids));
      MirrorPrice(a, bids);
    }
  }
}
