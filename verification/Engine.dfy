/** The engine object: a bounded queue for every listed stock. It stands for the queues
    of a World of module Exchange, and its methods for the events there. */
module Engines {
  import opened Entities
  import opened Exchange

  /** A matcher as the engine sees it: its channel. */
  class StockQueue {
    var ch: seq<OrderVal>
    var closed: bool

    constructor ()
      ensures ch == [] && !closed
    {
      ch, closed := [], false;
    }

    /** Never blocks: a full channel refuses the order. On a closed one it panics. */
    method Submit(o: OrderVal) returns (r: SubmitResult)
      modifies `ch
      ensures r == if closed then Panics else if |old(ch)| < MATCHER_CHAN_CAP then Queued else QueueFull
      ensures ch == if r == Queued then old(ch) + [o] else old(ch)
    {
      if closed {
        return Panics;
      }
      if |ch| >= MATCHER_CHAN_CAP {
        return QueueFull;
      }
      ch := ch + [o];
      r := Queued;
    }
  }

  class Engine {
    var matchers: map<string, StockQueue>
    /** Whether Stop has run: its body runs once. */
    var stopped: bool

    ghost predicate Valid()
      reads this, matchers.Values
    {
      && (forall k, l :: k in matchers && l in matchers && k != l ==> matchers[k] != matchers[l])
      && (stopped ==> forall k :: k in matchers ==> matchers[k].closed)
    }

    /** The channels are those of the matchers of w. */
    ghost predicate StandsFor(w: World)
      reads this, matchers.Values
    {
      && Valid() && matchers.Keys == w.lines.Keys
      && forall k :: k in matchers ==> matchers[k].ch == w.lines[k].inbox && (matchers[k].closed <==> k in w.closed)
    }

    /** An empty queue for every listed stock. */
    constructor (stocks: seq<string>, ghost c: Config)
      requires c.stocks == set i | 0 <= i < |stocks| :: stocks[i]
      ensures StandsFor(NewWorld(c)) && !stopped
    {
      matchers, stopped := map[], false;
      new;
      var i := 0;
      while i < |stocks|
        invariant 0 <= i <= |stocks| && !stopped && Valid()
        invariant matchers.Keys == set j | 0 <= j < i :: stocks[j]
        invariant forall k :: k in matchers ==> fresh(matchers[k]) && matchers[k].ch == [] && !matchers[k].closed
      {
        var q := new StockQueue();
        matchers := matchers[stocks[i] := q];
        i := i + 1;
      }
    }

    /** Routes by stock, at any time: once stopped, an order for a listed stock panics
        and one for an unknown stock is still an error. */
    method SubmitOrder(o: OrderVal, ghost c: Config, ghost w: World) returns (r: SubmitResult)
      requires StandsFor(w) && !w.crashed
      modifies matchers.Values
      ensures matchers == old(matchers) && stopped == old(stopped) && StandsFor(Step(c, w, Submit(o)))
      ensures r == Outcome(w, o) && (r == Panics <==> Step(c, w, Submit(o)).crashed)
      ensures (r == UnknownStock <==> o.stock !in matchers) && (stopped ==> (r == Panics <==> o.stock in w.lines))
    {
      if o.stock !in matchers {
        return UnknownStock;
      }
      r := matchers[o.stock].Submit(o);
    }

    /** The goroutine of stock k, done with its last order, takes the oldest one. */
    method Receive(k: string, ghost c: Config, ghost w: World) returns (o: OrderVal)
      requires StandsFor(w) && !w.crashed && k in matchers && matchers[k].ch != [] && w.lines[k].cur.None?
      modifies matchers.Values
      ensures matchers == old(matchers) && StandsFor(Step(c, w, Turn(k)))
      ensures Step(c, w, Turn(k)).lines[k].cur == Some(o)
    {
      var q := matchers[k];
      o := q.ch[0];
      q.ch := q.ch[1..];
    }

    /** One close of the loop in Stop; submits may come before the next. */
    method CloseOne(k: string, ghost c: Config, ghost w: World)
      requires StandsFor(w) && !w.crashed && k in matchers
      modifies matchers[k]
      ensures matchers[k].closed && StandsFor(Step(c, w, Close(k)))
    {
      matchers[k].closed := true;
    }

    static lemma OneMoreClosed(w: World, keys: set<string>, todo: set<string>, k: string)
      requires todo <= keys && k in todo
      ensures w.closed + (keys - todo) + {k} == w.closed + (keys - (todo - {k}))
    {
    }

    /** Closes the channels, in whatever order the map is walked; a second call does
        nothing. */
    method Stop(ghost c: Config, ghost w: World)
      requires StandsFor(w) && !w.crashed
      modifies `stopped, matchers.Values
      ensures stopped && matchers == old(matchers) && StandsFor(w.(closed := w.closed + w.lines.Keys))
    {
      if stopped {
        return;
      }
      var todo := matchers.Keys;
      ghost var cur := w;
      while todo != {}
        invariant todo <= matchers.Keys && matchers == old(matchers) && !stopped
        invariant cur == w.(closed := w.closed + (matchers.Keys - todo)) && StandsFor(cur)
      {
        var k :| k in todo;
        CloseOne(k, c, cur);
        cur := Step(c, cur, Close(k));
        OneMoreClosed(w, matchers.Keys, todo, k);
        todo := todo - {k};
      }
      stopped := true;
    }
  }
}
