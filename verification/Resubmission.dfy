/** An order sent in again while it rests trades nothing and moves nothing. */
module Resubmission {
  import opened Entities
  import opened BookSpec
  import opened Matching
  import opened BookInvariant
  import opened Priority

  /** An order with this ID, side and price rests in the book. */
  ghost predicate Rests(b: Book, o: OrderVal) {
    exists i :: 0 <= i < |SideOf(b, o.side)| && SideOf(b, o.side)[i].order.id == o.id && SideOf(b, o.side)[i].order.price == o.price
  }

  /** The same object or any copy of it: uncrossedness stops the sweep before it
      starts, and the index guard stops the second resting. */
  lemma ResubmitIsNoop(ok: nat -> bool, d: Desk, o: OrderVal)
    requires BookInv(d.book) && Rests(d.book, o)
    ensures SweepAll(ok, Sweep(d, o)) == Sweep(d, o)
    ensures MatchOrder(ok, d, o) == if o.IsActive() && o.Remaining() > 0 then d else d.(gone := d.gone + [o])
  {
    var es := SideOf(d.book, o.side);
    var i :| 0 <= i < |es| && es[i].order.id == o.id && es[i].order.price == o.price;
    assert es[i].order.id in Ids(es);
    assert !CanMatch(Sweep(d, o));
  }

  /** What the sweep leaves of an order is the order with more of it filled. */
  lemma {:induction false} SweepKeepsTerms(ok: nat -> bool, s: Sweep)
    requires PositiveBook(s.desk.book)
    ensures SweepAll(ok, s).incoming.Identity() == s.incoming.Identity()
    decreases Opposite(s)
  {
    if CanMatch(s) {
      StepProgress(ok, s);
      SweepKeepsTerms(ok, StepMatch(ok, s));
    }
  }

  /** Processing a new order twice in a row is processing it once, as long as
      something of it rests: sent as a fresh copy or as the object it became. */
  lemma ResubmitAfterResting(ok: nat -> bool, d: Desk, o: OrderVal)
    requires BookInv(d.book) && o.id !in d.book.index && o.IsNew()
    requires var left := SweepAll(ok, Sweep(d, o)).incoming; left.IsActive() && left.Remaining() > 0
    ensures var r := MatchOrder(ok, d, o);
      MatchOrder(ok, r, o) == r && MatchOrder(ok, r, SweepAll(ok, Sweep(d, o)).incoming) == r
  {
    var s := SweepAll(ok, Sweep(d, o));
    var r := MatchOrder(ok, d, o);
    SweepKeepsTerms(ok, Sweep(d, o));
    SweepInv(ok, Sweep(d, o));
    SweepAddsNoIds(ok, Sweep(d, o));
    MatchOrderInv(ok, d, o);
    var p := AddOrderSplits(s.desk.book, s.incoming);
    assert SideOf(r.book, o.side)[p] == Resting(s.incoming, s.incoming.Remaining());
    ResubmitIsNoop(ok, r, o);
    ResubmitIsNoop(ok, r, s.incoming);
  }

  lemma {:induction false} SweepAddsNoIds(ok: nat -> bool, s: Sweep)
    requires PositiveBook(s.desk.book)
    ensures SweepAll(ok, s).desk.book.index <= s.desk.book.index
    decreases Opposite(s)
  {
    if CanMatch(s) {
      StepProgress(ok, s);
      SweepAddsNoIds(ok, StepMatch(ok, s));
    }
  }
}
