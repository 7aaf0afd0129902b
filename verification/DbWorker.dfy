/** The write worker: a channel, a batch under construction, and a loop that hands
    every accepted operation to the database exactly once and in order. */
module DbWorkers {
  import opened Entities
  import opened BatchSpec

  /** How one attempt on the database goes: it works, or it fails after so many
      statements took effect. */
  datatype Outcome = Works | FailsAfter(done: nat)

  class Pool {
    const outcome: nat -> Outcome
    var attempts: nat
    var db: Tables

    constructor (outcome: nat -> Outcome, db: Tables)
      ensures this.outcome == outcome && attempts == 0 && this.db == db
    {
      this.outcome, attempts, this.db := outcome, 0, db;
    }

    method SendBatch(statements: seq<WriteOp>) returns (ok: bool)
      modifies this
      ensures attempts == old(attempts) + 1 && ok == outcome(old(attempts)).Works?
      ensures db == match outcome(old(attempts)) case Works => Apply(statements, old(db)) case FailsAfter(n) => Apply(statements[..Min(n, |statements|)], old(db))
    {
      match outcome(attempts) {
        case Works => db := Apply(statements, db); ok := true;
        case FailsAfter(n) => db := Apply(statements[..Min(n, |statements|)], db); ok := false;
      }
      attempts := attempts + 1;
    }
  }

  function Flatten(batches: seq<seq<WriteOp>>): seq<WriteOp> {
    if batches == [] then [] else Flatten(batches[..|batches| - 1]) + batches[|batches| - 1]
  }

  lemma FlattenAppend(batches: seq<seq<WriteOp>>, b: seq<WriteOp>)
    ensures Flatten(batches + [b]) == Flatten(batches) + b
  {
    assert (batches + [b])[..|batches|] == batches;
  }

  /** What the select of the loop, or another goroutine between two turns, may do. */
  datatype Event =
    | Receive                 // the channel is ready: an operation, or its close
    | Tick                    // the flush interval is over
    | Send(op: WriteOp)       // the second half of an Enqueue that saw no stop
    | MarkStopped             // Stop sets its flag ...
    | CloseChannel            // ... and closes the channel

  // --------------------------------------------------- the loop on values

  /** How far the loop is: what is queued and collected, every batch it handed to
      flushWithRetry, and which of its ends it has seen. */
  datatype Loop = LoopOf(
    queued: seq<WriteOp>, batch: seq<WriteOp>, flushed: seq<seq<WriteOp>>,
    stopped: bool, closed: bool, exited: bool)

  datatype Limits = Limits(channelSize: nat, batchSize: int)

  function HandOn(l: Loop): Loop {
    if l.batch == [] then l else l.(batch := [], flushed := l.flushed + [l.batch])
  }

  function Collected(limits: Limits, l: Loop): Loop
    requires l.queued != []
  {
    var more := l.(queued := l.queued[1..], batch := l.batch + [l.queued[0]]);
    if |more.batch| >= limits.batchSize then HandOn(more) else more
  }

  function Next(limits: Limits, l: Loop, ev: Event): Loop {
    match ev
    case Receive =>
      if l.exited then l
      else if l.queued != [] then Collected(limits, l)
      else if l.closed then HandOn(l).(exited := true)
      else l
    case Tick => if l.exited then l else HandOn(l)
    case Send(op) => if !l.closed && |l.queued| < limits.channelSize then l.(queued := l.queued + [op]) else l
    case MarkStopped => l.(stopped := true)
    case CloseChannel => l.(closed := l.closed || l.stopped)
  }

  function LoopAfter(limits: Limits, l: Loop, evs: seq<Event>): Loop {
    if evs == [] then l else Next(limits, LoopAfter(limits, l, evs[..|evs| - 1]), evs[|evs| - 1])
  }

  function Receives(evs: seq<Event>): nat {
    if evs == [] then 0 else Receives(evs[..|evs| - 1]) + if evs[|evs| - 1].Receive? then 1 else 0
  }

  /** Once closed nothing comes in, and every turn of the channel takes one out. */
  lemma {:induction false} ClosedOnlyDrains(limits: Limits, l: Loop, evs: seq<Event>)
    requires l.closed && !l.exited
    ensures var r := LoopAfter(limits, l, evs);
      && r.closed && |r.queued| == (if Receives(evs) >= |l.queued| then 0 else |l.queued| - Receives(evs))
      && (r.exited <==> Receives(evs) > |l.queued|)
  {
    if evs != [] {
      ClosedOnlyDrains(limits, l, evs[..|evs| - 1]);
    }
  }

  lemma {:induction false} LoopTwice(limits: Limits, l: Loop, evs: seq<Event>, more: seq<Event>)
    ensures LoopAfter(limits, l, evs + more) == LoopAfter(limits, LoopAfter(limits, l, evs), more)
  {
    if more == [] {
      assert evs + more == evs;
    } else {
      assert (evs + more)[..|evs + more| - 1] == evs + more[..|more| - 1];
      LoopTwice(limits, l, evs, more[..|more| - 1]);
    }
  }

  /** The loop ends exactly when, after Stop has set its flag and closed the channel,
      the channel has been ready once for every operation left in it and once more
      for its close; whatever else happens meanwhile. */
  lemma {:induction false} LoopEnds(limits: Limits, l: Loop, before: seq<Event>, after: seq<Event>)
    requires !LoopAfter(limits, l, before).exited
    ensures LoopAfter(limits, l, before + [MarkStopped, CloseChannel] + after).exited
       <==> Receives(after) > |LoopAfter(limits, l, before).queued|
  {
    var q, stop := LoopAfter(limits, l, before), [MarkStopped, CloseChannel];
    LoopTwice(limits, l, before, stop);
    LoopTwice(limits, l, before + stop, after);
    assert stop[..1] == [MarkStopped] && stop[..1][..0] == [];
    assert LoopAfter(limits, q, stop[..1]) == q.(stopped := true);
    ClosedOnlyDrains(limits, q.(stopped := true, closed := true), after);
  }

  /** Up to its last turn the loop hands over everything it has received at every tick,
      and otherwise only batches that are full. */
  ghost predicate HandsOver(batchSize: int, s: Loop, ev: Event, r: Loop) {
    var was, now := Flatten(s.flushed), Flatten(r.flushed);
    match ev
    case Tick => r.batch == [] && now == was + s.batch && r.queued == s.queued
    case Receive =>
      if s.queued == [] then (if s.closed then r.batch == [] && now == was + s.batch else r.batch == s.batch && now == was)
      else
        var more := s.batch + [s.queued[0]];
        && r.queued == s.queued[1..]
        && if |s.batch| + 1 >= batchSize then r.batch == [] && now == was + more else r.batch == more && now == was
    case _ => r.batch == s.batch && now == was
  }

  lemma EveryTurnHandsOver(limits: Limits, l: Loop, evs: seq<Event>, ev: Event)
    requires !LoopAfter(limits, l, evs).exited
    ensures HandsOver(limits.batchSize, LoopAfter(limits, l, evs), ev, LoopAfter(limits, l, evs + [ev]))
  {
    var s := LoopAfter(limits, l, evs);
    assert (evs + [ev])[..|evs|] == evs;
    assert LoopAfter(limits, l, evs + [ev]) == Next(limits, s, ev);
    NextHandsOver(limits, s, ev);
  }

  lemma HandOnFlattens(l: Loop)
    ensures Flatten(HandOn(l).flushed) == Flatten(l.flushed) + l.batch && HandOn(l).batch == []
  {
    FlattenAppend(l.flushed, l.batch);
    assert Flatten(l.flushed) + [] == Flatten(l.flushed);
  }

  lemma NextHandsOver(limits: Limits, s: Loop, ev: Event)
    requires !s.exited
    ensures HandsOver(limits.batchSize, s, ev, Next(limits, s, ev))
  {
    HandOnFlattens(s);
    if ev.Receive? && s.queued != [] {
      HandOnFlattens(s.(queued := s.queued[1..], batch := s.batch + [s.queued[0]]));
    }
  }

  /** A batch goes when it has this many: a size of 0 makes every operation go alone. */
  function FullSize(batchSize: int): int {
    if batchSize < 1 then 1 else batchSize
  }

  /** As long as no tick comes and the loop runs, every batch handed over is full, and
      the one being collected is not. */
  lemma {:induction false} FullBatches(limits: Limits, l: Loop, evs: seq<Event>)
    requires l.batch == [] && l.flushed == [] && Tick !in evs && !LoopAfter(limits, l, evs).exited
    ensures var r := LoopAfter(limits, l, evs);
      && |r.batch| < FullSize(limits.batchSize)
      && forall i :: 0 <= i < |r.flushed| ==> |r.flushed[i]| == FullSize(limits.batchSize)
  {
    if evs != [] {
      var front := evs[..|evs| - 1];
      assert Tick !in front && evs[|evs| - 1] != Tick;
      FullBatches(limits, l, front);
    }
  }

  ghost predicate InStream(flushed: seq<seq<WriteOp>>, handed: seq<WriteOp>, batch: seq<WriteOp>, queued: seq<WriteOp>, accepted: seq<WriteOp>, max: int) {
    && handed == Flatten(flushed) && handed + batch + queued == accepted
    && (forall i :: 0 <= i < |flushed| ==> 1 <= |flushed[i]| <= max)
    && |batch| <= max
  }

  /** Handing over a batch moves it along the stream. */
  lemma HandedOn(flushed: seq<seq<WriteOp>>, handed: seq<WriteOp>, batch: seq<WriteOp>, queued: seq<WriteOp>, accepted: seq<WriteOp>, max: int)
    requires InStream(flushed, handed, batch, queued, accepted, max)
    ensures batch != [] ==> InStream(flushed + [batch], handed + batch, [], queued, accepted, max)
  {
    FlattenAppend(flushed, batch);
    assert handed + batch + [] + queued == handed + batch + queued;
  }

  datatype EnqueueResult = Enqueued | WorkerStopped | QueueFull

  class DBWorker {
    const pool: Pool?
    const batchSize: int
    const channelSize: nat
    const retryMax: int
    var writeCh: seq<WriteOp>
    var closed: bool
    var stopped: bool
    /** The loop's own variables. */
    var batch: seq<WriteOp>
    var exited: bool
    /** Everything ever accepted; every batch handed to flushWithRetry; and the
        operations of those batches in a row. */
    ghost var accepted: seq<WriteOp>
    ghost var flushed: seq<seq<WriteOp>>
    ghost var handed: seq<WriteOp>
    /** The tables at the start, and whether every batch so far got through within its
        retries. */
    ghost const base: Tables
    ghost var through: bool

    /** Nothing accepted is lost, repeated or reordered, and batches are never empty
        nor over the batch size. */
    ghost predicate Conserves()
      reads this
    {
      InStream(flushed, handed, batch, writeCh, accepted, MaxBatch())
    }

    /** Then the tables are those of one long batch. */
    ghost predicate Written()
      reads this, pool
    {
      pool != null && through ==> pool.db == Apply(handed, base)
    }

    /** The database never fails more often in a row than a batch is retried. */
    ghost predicate Recovers() {
      retryMax >= 0 && (pool == null || forall n: nat :: WorksSoon(pool, n))
    }

    ghost predicate WorksSoon(pool: Pool, n: nat) {
      exists j: nat :: n <= j <= n + retryMax && pool.outcome(j).Works?
    }

    function MaxBatch(): int {
      FullSize(batchSize)
    }

    function Bounds(): Limits {
      Limits(channelSize, batchSize)
    }

    ghost function Now(): Loop
      reads this
    {
      LoopOf(writeCh, batch, flushed, stopped, closed, exited)
    }

    /** Between turns a full batch never waits, and the loop ends with nothing left
        over. */
    ghost predicate Valid()
      reads this
    {
      && Conserves() && |batch| < MaxBatch()
      && (closed ==> stopped)
      && (exited ==> closed && writeCh == [] && batch == [])
    }

    constructor (pool: Pool?, batchSize: int, channelSize: nat, retryMax: int)
      requires batchSize >= 0
      ensures Valid() && accepted == [] && flushed == [] && !stopped && !closed && !exited
      ensures this.pool == pool && this.batchSize == batchSize && this.channelSize == channelSize && this.retryMax == retryMax
      ensures through && Written() && (pool != null ==> base == pool.db)
    {
      this.pool, this.batchSize, this.channelSize, this.retryMax := pool, batchSize, channelSize, retryMax;
      writeCh, closed, stopped, batch, exited := [], false, false, [], false;
      accepted, flushed, handed := [], [], [];
      through, base := true, if pool != null then pool.db else Tables(map[], map[]);
    }

    // ------------------------------------------------------- the database

    /** The statements of a batch, in order. */
    method Queue(ops: seq<WriteOp>) returns (statements: seq<WriteOp>)
      ensures statements == Statements(ops)
    {
      statements := [];
      var i := 0;
      while i < |ops|
        invariant 0 <= i <= |ops|
        invariant statements == Statements(ops[..i])
      {
        assert ops[..i + 1][..i] == ops[..i];
        match ops[i] {
          case OrderSave(_) => statements := statements + [ops[i]];
          case OrderUpdate(_) => statements := statements + [ops[i]];
          case TradeSave(_) => statements := statements + [ops[i]];
          case TickerUpdate =>
          case BadPayload =>
        }
        i := i + 1;
      }
      assert ops[..|ops|] == ops;
    }

    /** One attempt. Without a pool, or without statements, there is nothing to do. */
    method Flush(ops: seq<WriteOp>) returns (ok: bool)
      modifies pool
      ensures pool != null && Statements(ops) != [] ==> pool.attempts == old(pool.attempts) + 1 && ok == pool.outcome(old(pool.attempts)).Works?
      ensures pool != null && Statements(ops) == [] ==> pool.attempts == old(pool.attempts) && ok
      ensures pool != null && ok ==> pool.db == Apply(ops, old(pool.db))
      ensures pool != null && !ok ==> exists k: nat :: k <= |Statements(ops)| && pool.db == Apply(Statements(ops)[..k], old(pool.db))
      ensures pool == null ==> ok
    {
      if pool == null {
        return true;
      }
      var statements := Queue(ops);
      StatementsSuffice(ops, pool.db);
      if |statements| == 0 {
        return true;
      }
      ok := pool.SendBatch(statements);
      if !ok {
        assert pool.outcome(old(pool.attempts)).FailsAfter?;
        assert Min(pool.outcome(old(pool.attempts)).done, |statements|) <= |statements|;
      }
    }

    /** Up to 1 + retryMax attempts, stopping at the first that works. When one does, the
        tables are as if it had been the only one; when none does, the batch can still
        be applied to that effect. */
    method FlushWithRetry(ops: seq<WriteOp>) returns (ok: bool)
      modifies pool
      ensures pool != null && ok ==> pool.db == Apply(ops, old(pool.db))
      ensures pool != null ==> Apply(ops, pool.db) == Apply(ops, old(pool.db))
      ensures pool == null || Statements(ops) == [] ==> (ok <==> retryMax >= 0)
      ensures pool != null && Statements(ops) != [] ==>
        var first, tried := old(pool.attempts), pool.attempts - old(pool.attempts);
        && (ok ==> 1 <= tried <= retryMax + 1 && pool.outcome(first + tried - 1).Works?)
        && (!ok ==> tried == if retryMax < 0 then 0 else retryMax + 1)
        && (forall n: nat :: first <= n < first + tried - (if ok then 1 else 0) ==> !pool.outcome(n).Works?)
    {
      var attempt := 0;
      while attempt <= retryMax
        invariant 0 <= attempt && (retryMax >= 0 ==> attempt <= retryMax + 1) && (retryMax < 0 ==> attempt == 0)
        invariant Statements(ops) == [] ==> attempt == 0
        invariant pool != null ==> pool.attempts == old(pool.attempts) + attempt
        invariant pool != null ==> forall n: nat :: old(pool.attempts) <= n < pool.attempts ==> !pool.outcome(n).Works?
        invariant pool != null ==> Apply(ops, pool.db) == Apply(ops, old(pool.db))
        invariant pool == null ==> attempt == 0
        decreases retryMax - attempt
      {
        ghost var before := if pool != null then pool.db else Tables(map[], map[]);
        ok := Flush(ops);
        if ok {
          if pool != null {
            ApplyTwice(ops, before);
          }
          return;
        }
        PartialApply(ops, before, if pool != null then pool.db else before);
        attempt := attempt + 1;
      }
      ok := false;
    }

    static lemma ApplyTwice(ops: seq<WriteOp>, db: Tables)
      ensures Apply(ops, Apply(ops, db)) == Apply(ops, db)
    {
      assert ops[..|ops|] == ops;
      AfterPrefix(ops, |ops|, db);
    }

    static lemma PartialApply(ops: seq<WriteOp>, before: Tables, after: Tables)
      requires after == before || exists k: nat :: k <= |Statements(ops)| && after == Apply(Statements(ops)[..k], before)
      ensures Apply(ops, after) == Apply(ops, before)
    {
      if after != before {
        var k: nat :| k <= |Statements(ops)| && after == Apply(Statements(ops)[..k], before);
        AfterPrefix(Statements(ops), k, before);
        StatementsSuffice(ops, after);
        StatementsSuffice(ops, before);
      }
    }

    // ----------------------------------------------------------- the loop

    /** Hands over the batch, if there is one, and starts the next. */
    method FlushBatch()
      requires Conserves() && Written()
      modifies `batch, `flushed, `handed, `through, pool
      ensures Conserves() && Written() && batch == []
      ensures handed == old(handed) + old(batch) && Now() == HandOn(old(Now()))
      ensures Recovers() && old(through) ==> through
    {
      if |batch| == 0 {
        assert handed + batch == handed;
        return;
      }
      HandOver();
      StartNext();
    }

    /** The tables follow, unless the batch runs out of retries. */
    method HandOver()
      requires Written()
      modifies `through, pool
      ensures pool != null && through ==> pool.db == Apply(handed + batch, base)
      ensures Recovers() && old(through) ==> through
    {
      ghost var first := if pool != null then pool.attempts else 0;
      ApplyParts(handed, batch, base);
      assert Recovers() && pool != null ==> WorksSoon(pool, first);
      var ok := FlushWithRetry(batch);
      through := through && ok;
    }

    method StartNext()
      requires Conserves() && batch != []
      modifies `batch, `flushed, `handed
      ensures Conserves() && Now() == HandOn(old(Now())) && handed == old(handed) + old(batch)
    {
      HandedOn(flushed, handed, batch, writeCh, accepted, MaxBatch());
      flushed, handed, batch := flushed + [batch], handed + batch, [];
    }

    method TakeOne()
      requires Valid() && writeCh != []
      modifies `writeCh, `batch
      ensures batch == old(batch) + [old(writeCh)[0]] && writeCh == old(writeCh)[1..]
      ensures Conserves()
    {
      var op := writeCh[0];
      MoveOne(handed, batch, writeCh);
      writeCh := writeCh[1..];
      batch := batch + [op];
    }

    static lemma MoveOne(a: seq<WriteOp>, b: seq<WriteOp>, c: seq<WriteOp>)
      requires c != []
      ensures a + (b + [c[0]]) + c[1..] == a + b + c
    {
    }

    /** The channel is closed and empty: the last batch goes and the loop ends. */
    method Exit()
      requires Conserves() && Written() && writeCh == [] && closed && stopped
      modifies `batch, `exited, `flushed, `handed, `through, pool
      ensures Valid() && Written() && exited && Flatten(flushed) == accepted && Now() == HandOn(old(Now())).(exited := true)
      ensures Recovers() && old(through) ==> through
    {
      FlushBatch();
      AllHandedOver();
      End();
    }

    /** The loop returns. */
    method End()
      requires Conserves() && Written() && closed && stopped && batch == [] && writeCh == []
      modifies `exited
      ensures Valid() && Written() && exited && Now() == old(Now()).(exited := true)
    {
      exited := true;
    }

    lemma AllHandedOver()
      requires Conserves() && batch == [] && writeCh == []
      ensures handed == Flatten(flushed) == accepted
    {
      assert handed + [] + [] == handed;
    }

    /** The first operation of the channel is in the batch, which goes if that fills it. */
    ghost predicate ReceivedOne(handedWas: seq<WriteOp>, batchWas: seq<WriteOp>, queuedWas: seq<WriteOp>)
      reads this
    {
      && queuedWas != [] && writeCh == queuedWas[1..]
      && var more := batchWas + [queuedWas[0]];
        if |batchWas| + 1 >= batchSize then batch == [] && handed == handedWas + more else batch == more && handed == handedWas
    }

    /** An operation goes into the batch, and the batch to the database when full. */
    method Collect()
      requires Valid() && Written() && !exited && writeCh != []
      modifies `writeCh, `batch, `flushed, `handed, `through, pool
      ensures Valid() && Written() && Now() == Collected(Bounds(), old(Now()))
      ensures Recovers() && old(through) ==> through
      ensures ReceivedOne(old(handed), old(batch), old(writeCh))
    {
      TakeOne();
      ghost var more := Now();
      if |batch| >= batchSize {
        FlushBatch();
        assert Now() == HandOn(more);
      }
    }

    /** The channel is ready. */
    method OnReceive()
      requires Valid() && Written() && !exited && (writeCh != [] || closed)
      modifies `writeCh, `batch, `exited, `flushed, `handed, `through, pool
      ensures Written() && (Recovers() && old(through) ==> through)
      ensures Valid() && (exited <==> old(writeCh) == [])
      ensures Now() == Next(Bounds(), old(Now()), Receive)
      ensures !exited ==> ReceivedOne(old(handed), old(batch), old(writeCh))
      ensures exited ==> Flatten(flushed) == accepted
    {
      if writeCh == [] {
        Exit();
      } else {
        Collect();
      }
    }

    method OnTick()
      requires Valid() && Written() && !exited
      modifies `batch, `flushed, `handed, `through, pool
      ensures Written() && (Recovers() && old(through) ==> through)
      ensures Valid() && batch == [] && handed + writeCh == accepted && Now() == HandOn(old(Now()))
    {
      FlushBatch();
    }

    // ------------------------------------------------------- the senders

    /** The send of an Enqueue: on a channel closed meanwhile it panics, which is
        caught and reported as a stop. */
    method TrySend(op: WriteOp) returns (r: EnqueueResult)
      requires Valid()
      modifies `writeCh, `accepted
      ensures Valid() && writeCh == if r == Enqueued then old(writeCh) + [op] else old(writeCh)
      ensures Now() == Next(Bounds(), old(Now()), Send(op))
      ensures r == if closed then WorkerStopped else if |old(writeCh)| < channelSize then Enqueued else QueueFull
      ensures accepted == if r == Enqueued then old(accepted) + [op] else old(accepted)
    {
      if closed {
        return WorkerStopped;
      }
      if |writeCh| >= channelSize {
        return QueueFull;
      }
      writeCh := writeCh + [op];
      accepted := accepted + [op];
      r := Enqueued;
    }

    /** An operation is queued exactly if the worker was not stopped and its channel has
        room; only a full channel is reported as full. */
    method Enqueue(op: WriteOp) returns (r: EnqueueResult)
      requires Valid()
      modifies `writeCh, `accepted
      ensures Valid() && writeCh == if r == Enqueued then old(writeCh) + [op] else old(writeCh)
      ensures r == Enqueued <==> !stopped && |old(writeCh)| < channelSize
      ensures r == QueueFull <==> !stopped && |old(writeCh)| >= channelSize
      ensures accepted == if r == Enqueued then old(accepted) + [op] else old(accepted)
      ensures Now() == if stopped then old(Now()) else Next(Bounds(), old(Now()), Send(op))
    {
      if stopped {
        return WorkerStopped;
      }
      r := TrySend(op);
    }

    /** One event of the schedule. */
    method Turn(ev: Event)
      requires Valid() && Written()
      modifies this, pool
      ensures Written() && (Recovers() && old(through) ==> through)
      ensures Valid() && Now() == Next(Bounds(), old(Now()), ev)
      ensures ev.Tick? && !exited ==> batch == [] && handed + writeCh == accepted
      ensures ev.Receive? && !exited && old(writeCh) != [] ==> ReceivedOne(old(handed), old(batch), old(writeCh))
    {
      match ev {
        case Receive =>
          if !exited && (writeCh != [] || closed) {
            OnReceive();
          }
        case Tick =>
          if !exited {
            OnTick();
          }
        case Send(op) =>
          var r := TrySend(op);
        case MarkStopped =>
          stopped := true;
        case CloseChannel =>
          if stopped {
            closed := true;
          }
      }
    }

    /** Start, for every schedule: turns of its own select interleaved with sends and
        the two steps of Stop. However that goes, the invariant holds throughout,
        and once the loop has exited everything accepted was handed over exactly
        once, in order, and if every batch got through, which it does when the database
        never fails more often in a row than it is retried, the tables are those of one
        batch of everything accepted. At a tick everything received has been handed over.
        LoopEnds says when the loop exits, FullBatches how large the batches are. */
    method Start(schedule: seq<Event>)
      requires Valid() && Written() && accepted == [] && flushed == []
      modifies this, pool
      ensures exited && through && pool != null ==> pool.db == Apply(accepted, base)
      ensures Recovers() && old(through) ==> through
      ensures Valid() && Now() == LoopAfter(Bounds(), old(Now()), schedule)
      ensures exited ==> Flatten(flushed) == accepted
      ensures schedule != [] && schedule[|schedule| - 1].Tick? && !exited ==> batch == [] && Flatten(flushed) + writeCh == accepted
    {
      var i := 0;
      while i < |schedule|
        invariant 0 <= i <= |schedule| && Valid() && Written()
        invariant Recovers() && old(through) ==> through
        invariant Now() == LoopAfter(Bounds(), old(Now()), schedule[..i])
        invariant i > 0 && schedule[i - 1].Tick? && !exited ==> batch == [] && handed + writeCh == accepted
      {
        assert schedule[..i + 1][..i] == schedule[..i];
        Turn(schedule[i]);
        i := i + 1;
      }
      if exited {
        AllHandedOver();
      }
      assert schedule[..|schedule|] == schedule;
    }
  }
}
