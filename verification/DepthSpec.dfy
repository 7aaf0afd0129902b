/** Depth snapshots: one level per price, refining the book it was taken from. */
module DepthSpec {
  import opened Entities
  import opened BookSpec

  const DEPTH_LEVELS := 10

  /** The levels after the entries `es`, given the levels before them. A new price
      beyond the cap ends the walk; a known price is always added up. */
  function Aggregate(es: seq<Resting>, maxLevels: int, levels: seq<PriceLevel>): seq<PriceLevel>
    decreases |es|
  {
    if es == [] then levels
    else
      var e, n := es[0], |levels|;
      if e.remaining <= 0 then Aggregate(es[1..], maxLevels, levels)
      else if n > 0 && levels[n - 1].price == e.order.price then
        Aggregate(es[1..], maxLevels,
          levels[n - 1 := PriceLevel(e.order.price, levels[n - 1].quantity + e.remaining, levels[n - 1].count + 1)])
      else if maxLevels > 0 && n >= maxLevels then levels
      else Aggregate(es[1..], maxLevels, levels + [PriceLevel(e.order.price, e.remaining, 1)])
  }

  function Levels(es: seq<Resting>, maxLevels: int): seq<PriceLevel> {
    Aggregate(es, maxLevels, [])
  }

  function DepthOf(b: Book, maxLevels: int): Depth {
    Depth(Levels(b.bids, maxLevels), Levels(b.asks, maxLevels))
  }

  function QuantityAt(es: seq<Resting>, price: int): int {
    if es == [] then 0
    else QuantityAt(es[..|es| - 1], price) + if es[|es| - 1].order.price == price then es[|es| - 1].remaining else 0
  }

  function CountAt(es: seq<Resting>, price: int): nat {
    if es == [] then 0
    else CountAt(es[..|es| - 1], price) + if es[|es| - 1].order.price == price then 1 else 0
  }

  function LevelTotal(levels: seq<PriceLevel>): int {
    if levels == [] then 0 else LevelTotal(levels[..|levels| - 1]) + levels[|levels| - 1].quantity
  }

  predicate StrictlyBefore(side: Side, p: int, q: int) {
    match side case Buy => p > q case Sell => p < q
  }

  ghost predicate InOrder(es: seq<Resting>, side: Side) {
    forall i, j :: 0 <= i < j < |es| ==> !StrictlyBefore(side, es[j].order.price, es[i].order.price)
  }

  ghost predicate StrictlyOrdered(levels: seq<PriceLevel>, side: Side) {
    forall i, j :: 0 <= i < j < |levels| ==> StrictlyBefore(side, levels[i].price, levels[j].price)
  }

  ghost predicate ExactAt(levels: seq<PriceLevel>, es: seq<Resting>) {
    forall i :: 0 <= i < |levels| ==>
      levels[i].quantity == QuantityAt(es, levels[i].price) && levels[i].count == CountAt(es, levels[i].price)
  }

  ghost function LevelPrices(levels: seq<PriceLevel>): set<int> {
    set i | 0 <= i < |levels| :: levels[i].price
  }

  ghost function EntryPrices(es: seq<Resting>): set<int> {
    set i | 0 <= i < |es| :: es[i].order.price
  }

  /** `levels` is the exact per-price summary of `es`: every price once, in the
      order of the side, with all its quantity and all its orders. */
  ghost predicate Summarises(levels: seq<PriceLevel>, es: seq<Resting>, side: Side) {
    && StrictlyOrdered(levels, side) && ExactAt(levels, es)
    && LevelPrices(levels) == EntryPrices(es)
    && LevelTotal(levels) == Total(es)
  }

  lemma {:induction false} NoneAt(es: seq<Resting>, price: int)
    requires price !in EntryPrices(es)
    ensures QuantityAt(es, price) == 0 && CountAt(es, price) == 0
  {
    if es != [] {
      EntryPricesGrow(es[..|es| - 1], es[|es| - 1]);
      assert es == es[..|es| - 1] + [es[|es| - 1]];
      NoneAt(es[..|es| - 1], price);
    }
  }

  lemma AtGrows(es: seq<Resting>, e: Resting, price: int)
    ensures QuantityAt(es + [e], price) == QuantityAt(es, price) + if e.order.price == price then e.remaining else 0
    ensures CountAt(es + [e], price) == CountAt(es, price) + if e.order.price == price then 1 else 0
  {
    assert (es + [e])[..|es|] == es;
  }

  lemma EntryPricesGrow(es: seq<Resting>, e: Resting)
    ensures EntryPrices(es + [e]) == EntryPrices(es) + {e.order.price}
  {
    var fs := es + [e];
    assert fs[|es|] == e;
    forall x | x in EntryPrices(es) ensures x in EntryPrices(fs) {
      var i :| 0 <= i < |es| && es[i].order.price == x;
      assert fs[i] == es[i];
    }
  }

  lemma LevelPricesGrow(levels: seq<PriceLevel>, l: PriceLevel)
    ensures LevelPrices(levels + [l]) == LevelPrices(levels) + {l.price}
  {
    var fs := levels + [l];
    assert fs[|levels|] == l;
    forall x | x in LevelPrices(levels) ensures x in LevelPrices(fs) {
      var i :| 0 <= i < |levels| && levels[i].price == x;
      assert fs[i] == levels[i];
    }
  }

  /** One more entry at the price of the last level. */
  lemma SummaryBumps(levels: seq<PriceLevel>, es: seq<Resting>, e: Resting, side: Side)
    requires Summarises(levels, es, side) && levels != [] && levels[|levels| - 1].price == e.order.price
    ensures var n, last := |levels|, levels[|levels| - 1];
      Summarises(levels[n - 1 := PriceLevel(e.order.price, last.quantity + e.remaining, last.count + 1)], es + [e], side)
  {
    var n, last := |levels|, levels[|levels| - 1];
    var bumped := PriceLevel(e.order.price, last.quantity + e.remaining, last.count + 1);
    var r := levels[n - 1 := bumped];
    assert levels == levels[..n - 1] + [last] && r == levels[..n - 1] + [bumped];
    forall i | 0 <= i < n
      ensures r[i].quantity == QuantityAt(es + [e], r[i].price) && r[i].count == CountAt(es + [e], r[i].price) {
      AtGrows(es, e, r[i].price);
      assert i < n - 1 ==> StrictlyBefore(side, levels[i].price, levels[n - 1].price);
    }
    LevelPricesGrow(levels[..n - 1], last);
    LevelPricesGrow(levels[..n - 1], bumped);
    EntryPricesGrow(es, e);
    TotalAppend(es, [e]);
    assert Total([e]) == e.remaining;
    assert (levels[..n - 1] + [last])[..n - 1] == levels[..n - 1] && (levels[..n - 1] + [bumped])[..n - 1] == levels[..n - 1];
  }

  /** One more entry at a price not seen yet. */
  lemma SummaryExtends(levels: seq<PriceLevel>, es: seq<Resting>, e: Resting, side: Side)
    requires Summarises(levels, es, side) && InOrder(es + [e], side)
    requires levels != [] ==> levels[|levels| - 1].price != e.order.price
    ensures Summarises(levels + [PriceLevel(e.order.price, e.remaining, 1)], es + [e], side)
  {
    var n, p := |levels|, e.order.price;
    var r := levels + [PriceLevel(p, e.remaining, 1)];
    forall j | 0 <= j < n ensures StrictlyBefore(side, levels[j].price, p) {
      assert levels[n - 1].price in LevelPrices(levels);
      var i :| 0 <= i < |es| && es[i].order.price == levels[n - 1].price;
      assert (es + [e])[i] == es[i] && (es + [e])[|es|] == e;
      assert j < n - 1 ==> StrictlyBefore(side, levels[j].price, levels[n - 1].price);
    }
    assert p !in LevelPrices(levels);
    NoneAt(es, p);
    forall i | 0 <= i <= n
      ensures r[i].quantity == QuantityAt(es + [e], r[i].price) && r[i].count == CountAt(es + [e], r[i].price) {
      AtGrows(es, e, r[i].price);
    }
    LevelPricesGrow(levels, PriceLevel(p, e.remaining, 1));
    EntryPricesGrow(es, e);
    TotalAppend(es, [e]);
    assert Total([e]) == e.remaining;
    assert r[..n] == levels;
  }

  lemma InOrderPrefix(es: seq<Resting>, more: seq<Resting>, side: Side)
    requires InOrder(es + more, side)
    ensures InOrder(es, side)
  {
    forall i | 0 <= i < |es| ensures es[i] == (es + more)[i] {}
  }

  /** One more entry. */
  lemma SummaryStep(levels: seq<PriceLevel>, es: seq<Resting>, e: Resting, side: Side) returns (next: seq<PriceLevel>)
    requires Summarises(levels, es, side) && InOrder(es + [e], side)
    ensures Summarises(next, es + [e], side)
    ensures var n := |levels|;
      next == if n > 0 && levels[n - 1].price == e.order.price
              then levels[n - 1 := PriceLevel(e.order.price, levels[n - 1].quantity + e.remaining, levels[n - 1].count + 1)]
              else levels + [PriceLevel(e.order.price, e.remaining, 1)]
  {
    var n := |levels|;
    if n > 0 && levels[n - 1].price == e.order.price {
      next := levels[n - 1 := PriceLevel(e.order.price, levels[n - 1].quantity + e.remaining, levels[n - 1].count + 1)];
      SummaryBumps(levels, es, e, side);
    } else {
      next := levels + [PriceLevel(e.order.price, e.remaining, 1)];
      SummaryExtends(levels, es, e, side);
    }
  }

  lemma {:induction false} AggregateSummarises(es: seq<Resting>, seen: seq<Resting>, levels: seq<PriceLevel>, side: Side)
    requires Summarises(levels, seen, side) && InOrder(seen + es, side)
    requires forall i :: 0 <= i < |es| ==> es[i].remaining > 0
    ensures Summarises(Aggregate(es, 0, levels), seen + es, side)
    decreases |es|
  {
    if es == [] {
      assert seen + es == seen;
    } else {
      var e := es[0];
      assert seen + es == (seen + [e]) + es[1..];
      InOrderPrefix(seen + [e], es[1..], side);
      var next := SummaryStep(levels, seen, e, side);
      assert Aggregate(es, 0, levels) == Aggregate(es[1..], 0, next);
      AggregateSummarises(es[1..], seen + [e], next, side);
    }
  }

  /** Levels already behind the last one are never touched again. */
  lemma {:induction false} AggregateExtends(es: seq<Resting>, levels: seq<PriceLevel>)
    ensures var r := Aggregate(es, 0, levels);
      && |levels| <= |r|
      && (levels != [] ==> r[..|levels| - 1] == levels[..|levels| - 1])
    decreases |es|
  {
    if es != [] {
      var e, n := es[0], |levels|;
      if e.remaining <= 0 {
        AggregateExtends(es[1..], levels);
      } else if n > 0 && levels[n - 1].price == e.order.price {
        AggregateExtends(es[1..], levels[n - 1 := PriceLevel(e.order.price, levels[n - 1].quantity + e.remaining, levels[n - 1].count + 1)]);
      } else {
        var grown := levels + [PriceLevel(e.order.price, e.remaining, 1)];
        AggregateExtends(es[1..], grown);
        var r := Aggregate(es[1..], 0, grown);
        assert r[..n] == levels;
        assert n > 0 ==> r[..n - 1] == r[..n][..n - 1];
      }
    }
  }

  lemma {:induction false} CapIsPrefix(es: seq<Resting>, cap: nat, levels: seq<PriceLevel>)
    requires cap > 0 && |levels| <= cap
    ensures var all := Aggregate(es, 0, levels);
      Aggregate(es, cap, levels) == all[..Min(cap, |all|)]
    decreases |es|
  {
    if es != [] {
      var e, n := es[0], |levels|;
      if e.remaining <= 0 {
        CapIsPrefix(es[1..], cap, levels);
      } else if n > 0 && levels[n - 1].price == e.order.price {
        CapIsPrefix(es[1..], cap, levels[n - 1 := PriceLevel(e.order.price, levels[n - 1].quantity + e.remaining, levels[n - 1].count + 1)]);
      } else {
        var grown := levels + [PriceLevel(e.order.price, e.remaining, 1)];
        if n < cap {
          CapIsPrefix(es[1..], cap, grown);
        } else {
          AggregateExtends(es[1..], grown);
          assert grown[..n] == levels;
        }
      }
    }
  }

  function SideOf(d: Depth, side: Side): seq<PriceLevel> {
    match side case Buy => d.bids case Sell => d.asks
  }

  /** On a well-formed side the uncapped depth is the exact per-price summary, and
      a capped one is its first levels. */
  lemma DepthRefinesSide(b: Book, side: Side, cap: nat)
    requires BookInv(b) && cap > 0
    ensures var es, all := if side == Buy then b.bids else b.asks, SideOf(DepthOf(b, 0), side);
      && Summarises(all, es, side)
      && SideOf(DepthOf(b, cap), side) == all[..Min(cap, |all|)]
  {
    var es := if side == Buy then b.bids else b.asks;
    forall i, j | 0 <= i < j < |es| ensures !StrictlyBefore(side, es[j].order.price, es[i].order.price) {
      assert if side == Buy then BidKey(es[i]) <= BidKey(es[j]) else AskKey(es[i]) <= AskKey(es[j]);
    }
    assert [] + es == es;
    AggregateSummarises(es, [], [], side);
    CapIsPrefix(es, cap, []);
  }

  /** A published snapshot is never crossed. */
  lemma DepthUncrossed(b: Book, cap: nat, i: nat, j: nat)
    requires BookInv(b) && cap > 0 && i < |DepthOf(b, cap).bids| && j < |DepthOf(b, cap).asks|
    ensures DepthOf(b, cap).bids[i].price < DepthOf(b, cap).asks[j].price
  {
    LevelComesFromEntry(b, Buy, cap, i);
    LevelComesFromEntry(b, Sell, cap, j);
  }

  lemma LevelComesFromEntry(b: Book, side: Side, cap: nat, i: nat)
    requires BookInv(b) && cap > 0
    requires i < |Levels(if side == Buy then b.bids else b.asks, cap)|
    ensures var es := if side == Buy then b.bids else b.asks;
      exists p :: 0 <= p < |es| && es[p].order.price == Levels(es, cap)[i].price
  {
    var es := if side == Buy then b.bids else b.asks;
    DepthRefinesSide(b, side, cap);
    assert Levels(es, 0)[i].price in LevelPrices(Levels(es, 0));
    assert Levels(es, cap)[i] == Levels(es, 0)[i];
  }
}
