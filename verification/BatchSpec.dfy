/** The row semantics of a write batch (orders are inserted or have three columns
    overwritten, trades are inserted or ignored), and why retrying is harmless. */
module BatchSpec {
  import opened Entities

  /** The columns of an order row that an upsert never overwrites, and those it does. */
  datatype Terms = Terms(id: string, userId: string, stock: string, side: Side, price: int, quantity: int, createdAt: int)

  datatype Progress = Progress(filled: int, status: Status, updatedAt: int)

  datatype OrderRow = OrderRow(terms: Terms, progress: Progress)

  datatype WriteOp =
    | OrderSave(row: OrderRow)
    | OrderUpdate(row: OrderRow)
    | TradeSave(trade: Trade)
    | TickerUpdate
    | BadPayload

  datatype Tables = Tables(orders: map<string, OrderRow>, trades: map<nat, Trade>)

  predicate Queues(op: WriteOp) {
    op.OrderSave? || op.OrderUpdate? || op.TradeSave?
  }

  predicate WritesOrder(op: WriteOp, id: string) {
    (op.OrderSave? || op.OrderUpdate?) && op.row.terms.id == id
  }

  /** One statement. */
  function Exec(db: Tables, op: WriteOp): Tables {
    match op
    case OrderSave(row) => Upsert(db, row)
    case OrderUpdate(row) => Upsert(db, row)
    case TradeSave(t) => if t.id in db.trades then db else db.(trades := db.trades[t.id := t])
    case _ => db
  }

  function Upsert(db: Tables, row: OrderRow): Tables {
    var id := row.terms.id;
    db.(orders := db.orders[id := if id in db.orders then db.orders[id].(progress := row.progress) else row])
  }

  function Apply(ops: seq<WriteOp>, db: Tables): Tables {
    if ops == [] then db else Exec(Apply(ops[..|ops| - 1], db), ops[|ops| - 1])
  }

  lemma {:induction false} ApplyParts(a: seq<WriteOp>, b: seq<WriteOp>, db: Tables)
    ensures Apply(a + b, db) == Apply(b, Apply(a, db))
  {
    if b == [] {
      assert a + b == a;
    } else {
      assert (a + b)[..|a + b| - 1] == a + b[..|b| - 1];
      ApplyParts(a, b[..|b| - 1], db);
    }
  }

  /** Earlier attempts, each of which got some way into the batch. */
  function Attempts(ops: seq<WriteOp>, db: Tables, got: seq<nat>): Tables {
    if got == [] then db else Apply(ops[..Min(got[|got| - 1], |ops|)], Attempts(ops, db, got[..|got| - 1]))
  }

  // ------------------------------------------ what a batch does to one key

  function FirstOf(ops: seq<WriteOp>, id: string): Option<OrderRow> {
    if ops == [] then None
    else
      var earlier := FirstOf(ops[..|ops| - 1], id);
      if earlier.Some? then earlier
      else if WritesOrder(ops[|ops| - 1], id) then Some(ops[|ops| - 1].row) else None
  }

  function LastOf(ops: seq<WriteOp>, id: string): Option<OrderRow> {
    if ops == [] then None
    else if WritesOrder(ops[|ops| - 1], id) then Some(ops[|ops| - 1].row) else LastOf(ops[..|ops| - 1], id)
  }

  function FirstTrade(ops: seq<WriteOp>, id: nat): Option<Trade> {
    if ops == [] then None
    else
      var earlier, op := FirstTrade(ops[..|ops| - 1], id), ops[|ops| - 1];
      if earlier.Some? then earlier else if op.TradeSave? && op.trade.id == id then Some(op.trade) else None
  }

  /** The row of an order after a batch: the fixed columns of whoever came first,
      the others of whoever came last. */
  function RowAfter(before: Option<OrderRow>, ops: seq<WriteOp>, id: string): Option<OrderRow> {
    var last := LastOf(ops, id);
    if last.None? then before
    else Some(OrderRow(if before.Some? then before.value.terms else FirstTerms(ops, id), last.value.progress))
  }

  function FirstTerms(ops: seq<WriteOp>, id: string): Terms
    requires LastOf(ops, id).Some?
  {
    LastMeansFirst(ops, id);
    FirstOf(ops, id).value.terms
  }

  lemma {:induction false} LastMeansFirst(ops: seq<WriteOp>, id: string)
    ensures LastOf(ops, id).Some? <==> FirstOf(ops, id).Some?
  {
    if ops != [] {
      LastMeansFirst(ops[..|ops| - 1], id);
    }
  }

  function OrderIn(db: Tables, id: string): Option<OrderRow> {
    if id in db.orders then Some(db.orders[id]) else None
  }

  function TradeIn(db: Tables, id: nat): Option<Trade> {
    if id in db.trades then Some(db.trades[id]) else None
  }

  lemma {:induction false} ApplyOrder(ops: seq<WriteOp>, db: Tables, id: string)
    ensures OrderIn(Apply(ops, db), id) == RowAfter(OrderIn(db, id), ops, id)
  {
    if ops != [] {
      var front := ops[..|ops| - 1];
      ApplyOrder(front, db, id);
      LastMeansFirst(front, id);
    }
  }

  lemma {:induction false} ApplyTrade(ops: seq<WriteOp>, db: Tables, id: nat)
    ensures TradeIn(Apply(ops, db), id) == if id in db.trades then Some(db.trades[id]) else FirstTrade(ops, id)
  {
    if ops != [] {
      ApplyTrade(ops[..|ops| - 1], db, id);
    }
  }

  lemma {:induction false} FirstOfPrefix(ops: seq<WriteOp>, k: nat, id: string)
    requires k <= |ops|
    ensures FirstOf(ops[..k], id).Some? ==> FirstOf(ops, id) == FirstOf(ops[..k], id)
  {
    if k < |ops| {
      FirstOfPrefix(ops[..|ops| - 1], k, id);
      assert ops[..|ops| - 1][..k] == ops[..k];
    } else {
      assert ops[..k] == ops;
    }
  }

  lemma {:induction false} FirstTradeOfPrefix(ops: seq<WriteOp>, k: nat, id: nat)
    requires k <= |ops|
    ensures FirstTrade(ops[..k], id).Some? ==> FirstTrade(ops, id) == FirstTrade(ops[..k], id)
  {
    if k < |ops| {
      FirstTradeOfPrefix(ops[..|ops| - 1], k, id);
      assert ops[..|ops| - 1][..k] == ops[..k];
    } else {
      assert ops[..k] == ops;
    }
  }

  lemma SameTables(a: Tables, b: Tables)
    requires forall id :: OrderIn(a, id) == OrderIn(b, id)
    requires forall id :: TradeIn(a, id) == TradeIn(b, id)
    ensures a == b
  {
    assert a.orders == b.orders by {
      forall id ensures (id in a.orders <==> id in b.orders) && (id in a.orders ==> a.orders[id] == b.orders[id]) {
        assert OrderIn(a, id) == OrderIn(b, id);
      }
    }
    assert a.trades == b.trades by {
      forall id ensures (id in a.trades <==> id in b.trades) && (id in a.trades ==> a.trades[id] == b.trades[id]) {
        assert TradeIn(a, id) == TradeIn(b, id);
      }
    }
  }

  /** A whole batch after part of itself is the batch once. */
  lemma AfterPrefix(ops: seq<WriteOp>, k: nat, db: Tables)
    requires k <= |ops|
    ensures Apply(ops, Apply(ops[..k], db)) == Apply(ops, db)
  {
    var mid := Apply(ops[..k], db);
    forall id ensures OrderIn(Apply(ops, mid), id) == OrderIn(Apply(ops, db), id) {
      ApplyOrder(ops[..k], db, id);
      ApplyOrder(ops, mid, id);
      ApplyOrder(ops, db, id);
      FirstOfPrefix(ops, k, id);
      LastMeansFirst(ops, id);
      LastMeansFirst(ops[..k], id);
    }
    forall id ensures TradeIn(Apply(ops, mid), id) == TradeIn(Apply(ops, db), id) {
      ApplyTrade(ops[..k], db, id);
      ApplyTrade(ops, mid, id);
      ApplyTrade(ops, db, id);
      FirstTradeOfPrefix(ops, k, id);
    }
    SameTables(Apply(ops, mid), Apply(ops, db));
  }

  /** Applying a batch in full after any number of attempts that each got some way
      into it gives the same tables as applying it once. */
  lemma {:induction false} RetryIsIdempotent(ops: seq<WriteOp>, db: Tables, got: seq<nat>)
    ensures Apply(ops, Attempts(ops, db, got)) == Apply(ops, db)
  {
    if got != [] {
      var n := |got| - 1;
      RetryIsIdempotent(ops, db, got[..n]);
      AfterPrefix(ops, Min(got[n], |ops|), Attempts(ops, db, got[..n]));
    }
  }

  /** The statements of a batch: everything but tickers and payloads of the wrong
      type, which change no row anyway. */
  function Statements(ops: seq<WriteOp>): seq<WriteOp> {
    if ops == [] then []
    else Statements(ops[..|ops| - 1]) + if Queues(ops[|ops| - 1]) then [ops[|ops| - 1]] else []
  }

  lemma {:induction false} StatementsSuffice(ops: seq<WriteOp>, db: Tables)
    ensures Apply(Statements(ops), db) == Apply(ops, db)
  {
    if ops != [] {
      var front := Statements(ops[..|ops| - 1]);
      StatementsSuffice(ops[..|ops| - 1], db);
      if Queues(ops[|ops| - 1]) {
        assert (front + [ops[|ops| - 1]])[..|front|] == front;
      } else {
        assert front + [] == front;
      }
    }
  }
}
