/** The sequential load loop: while rows remain, build one batch, execute it
    and subtract the rows it affected from the `u32` counter. The
    connection's `execute` is an oracle that answers each statement with a
    row count or an error. */
module StLoad {
  import opened MachineInts
  import opened Schema
  import opened TypedGenerator

  /** What `execute` answers: the rows affected, or an error. */
  datatype Exec = Ok(rows: u64) | Err

  /** `rows_affected as u32`: an error counts as 0, a count is truncated to 32 bits. */
  function RowsAffected(e: Exec): (r: u32)
    ensures e.Err? ==> r == 0
    ensures e.Ok? && e.rows < U32_LIMIT ==> r == e.rows
  {
    TruncateToU32(if e.Ok? then e.rows else 0)
  }

  /** How the loop ends after `iterations` rounds: the counter reached zero;
      a round affected more rows than remained, which the `u32` subtraction
      rejects (a panic in a debug build); still running when the rounds
      allowed are used up; or, before the first execute, `gen_range` panics
      on the empty length range of a text column whose modifier is 1 to 4. */
  datatype LoadOutcome =
    | Completed(iterations: nat)
    | Underflow(iterations: nat, remain: u32, affected: u32)
    | Stalled(iterations: nat, remain: u32)
    | GeneratorPanic(iterations: nat)

  /** The loop's course when `remain` rows remain after `done` rounds and the
      next executes answer `results` in order. */
  function Run(remain: u32, results: seq<Exec>, done: nat): (o: LoadOutcome)
    ensures done <= o.iterations <= done + |results|
    ensures o.Completed? && remain > 0 ==> o.iterations > done
    ensures o.Stalled? ==> o.iterations == done + |results| && o.remain > 0
    ensures !o.GeneratorPanic?
    decreases |results|
  {
    if remain == 0 then Completed(done)
    else if results == [] then Stalled(done, remain)
    else
      var a := RowsAffected(results[0]);
      if a > remain then Underflow(done + 1, remain, a)
      else Run(remain - a, results[1..], done + 1)
  }

  /** A run still going after `trace` continues with the next answers from
      where it stands. */
  lemma {:induction false} RunAppend(remain: u32, trace: seq<Exec>, more: seq<Exec>, done: nat, m: u32)
    requires Run(remain, trace, done) == Stalled(done + |trace|, m)
    ensures Run(remain, trace + more, done) == Run(m, more, done + |trace|)
    decreases |trace|
  {
    if trace == [] {
      assert trace + more == more;
    } else {
      var a := RowsAffected(trace[0]);
      assert (trace + more)[1..] == trace[1..] + more;
      RunAppend(remain - a, trace[1..], more, done + 1, m);
    }
  }

  /** Without progress, every answer is used up and the counter stays put:
      when no execute affects a row (every one fails, say), the loop never ends. */
  lemma {:induction false} NoProgressStalls(remain: u32, results: seq<Exec>, done: nat)
    requires remain > 0
    requires forall i :: 0 <= i < |results| ==> RowsAffected(results[i]) == 0
    ensures Run(remain, results, done) == Stalled(done + |results|, remain)
    decreases |results|
  {
    if results != [] {
      NoProgressStalls(remain, results[1..], done + 1);
    }
  }

  /** `q` batches of `b` rows, counted by repeated addition. */
  function Times(q: nat, b: nat): nat
  {
    if q == 0 then 0 else Times(q - 1, b) + b
  }

  lemma {:induction false} TimesIsProduct(q: nat, b: nat)
    ensures Times(q, b) == q * b
  {
    if q > 0 {
      TimesIsProduct(q - 1, b);
      assert q * b == (q - 1) * b + b;
    }
  }

  lemma {:induction false} ExactBatchesByAddition(remain: u32, b: u32, q: nat, results: seq<Exec>, done: nat)
    requires 0 < b && remain == Times(q, b)
    requires |results| >= q
    requires forall i :: 0 <= i < q ==> results[i] == Ok(b)
    ensures Run(remain, results, done) == Completed(done + q)
    decreases q
  {
    if q > 0 {
      assert RowsAffected(results[0]) == b;
      ExactBatchesByAddition(remain - b, b, q - 1, results[1..], done + 1);
    }
  }

  /** The first `q` executes answering `Ok(b)`, and the rows `q * b`: the
      loop ends after exactly `q` rounds, that is rows / b. */
  lemma ExactBatchesComplete(remain: u32, b: u32, q: nat, results: seq<Exec>, done: nat)
    requires 0 < b && remain as int == q * b
    requires |results| >= q
    requires forall i :: 0 <= i < q ==> results[i] == Ok(b)
    ensures Run(remain, results, done) == Completed(done + q)
  {
    TimesIsProduct(q, b);
    ExactBatchesByAddition(remain, b, q, results, done);
  }

  /** Fewer than `q` answers of `Ok(b)` for `q * b` rows: the rows are not
      all inserted when the answers end. */
  lemma {:induction false} ExactBatchesPending(remain: u32, b: u32, q: nat, results: seq<Exec>, done: nat)
    requires 0 < b && remain == Times(q, b)
    requires |results| < q
    requires forall i :: 0 <= i < |results| ==> results[i] == Ok(b)
    ensures Run(remain, results, done).Stalled? && Run(remain, results, done).iterations == done + |results|
    decreases |results|
  {
    if results != [] {
      assert RowsAffected(results[0]) == b;
      ExactBatchesPending(remain - b, b, q - 1, results[1..], done + 1);
    }
  }

  lemma {:induction false} OvershootByAddition(remain: u32, b: u32, q: nat, r: nat, results: seq<Exec>, done: nat)
    requires 0 < r < b && remain == Times(q, b) + r
    requires |results| > q
    requires forall i :: 0 <= i <= q ==> results[i] == Ok(b)
    ensures Run(remain, results, done) == Underflow(done + q + 1, r as u32, b)
    decreases q
  {
    assert RowsAffected(results[0]) == b;
    if q > 0 {
      OvershootByAddition(remain - b, b, q - 1, r, results[1..], done + 1);
    }
  }

  /** The first `q + 1` executes answering `Ok(b)`, and the rows `q * b + r`
      with `0 < r < b`: after `q` full rounds the next one affects `b` rows of
      the `r` left and the subtraction underflows. */
  lemma OvershootUnderflows(remain: u32, b: u32, q: nat, r: nat, results: seq<Exec>, done: nat)
    requires 0 < r < b && remain as int == q * b + r
    requires |results| > q
    requires forall i :: 0 <= i <= q ==> results[i] == Ok(b)
    ensures Run(remain, results, done) == Underflow(done + q + 1, r as u32, b)
  {
    TimesIsProduct(q, b);
    OvershootByAddition(remain, b, q, r, results, done);
  }

  /** The database connection as the loop sees it: each statement sent is
      recorded, and the answers come from `pending`, an error once it is empty. */
  class Connection {
    ghost var executed: seq<string>
    var pending: seq<Exec>

    constructor (answers: seq<Exec>)
      ensures executed == [] && pending == answers
    {
      executed := [];
      pending := answers;
    }

    method Execute(stmt: string) returns (e: Exec)
      modifies this
      ensures executed == old(executed) + [stmt]
      ensures old(pending) != [] ==> e == old(pending)[0] && pending == old(pending)[1..]
      ensures old(pending) == [] ==> e == Err && pending == []
    {
      executed := executed + [stmt];
      if pending != [] {
        e := pending[0];
        pending := pending[1..];
      } else {
        e := Err;
      }
    }
  }

  /** The statements built for `batches`, one per round. */
  function Statements(tablename: string, tids: seq<AttrInfo>, batches: seq<seq<seq<Drawn>>>): (r: seq<string>)
    requires forall k :: 0 <= k < |batches| ==> AllRowsFit(tids, batches[k])
    ensures |r| == |batches|
  {
    seq(|batches|, k requires 0 <= k < |batches| => InsertStatement(tablename, TupleTexts(tids, batches[k])))
  }

  /** One more round sends one more statement, for the rows it drew. */
  lemma StatementsSnoc(tablename: string, tids: seq<AttrInfo>, batches: seq<seq<seq<Drawn>>>, rows: seq<seq<Drawn>>)
    requires forall k :: 0 <= k < |batches| ==> AllRowsFit(tids, batches[k])
    requires AllRowsFit(tids, rows)
    ensures forall k :: 0 <= k < |batches + [rows]| ==> AllRowsFit(tids, (batches + [rows])[k])
    ensures Statements(tablename, tids, batches + [rows])
         == Statements(tablename, tids, batches) + [InsertStatement(tablename, TupleTexts(tids, rows))]
  {
    var more := batches + [rows];
    assert forall k :: 0 <= k < |more| ==> AllRowsFit(tids, more[k]) by {
      forall k | 0 <= k < |more|
        ensures AllRowsFit(tids, more[k])
      {
        if k < |batches| { assert more[k] == batches[k]; }
      }
    }
  }

  /** The first `k` answers a connection gives when it holds `pending`:
      those pending, then errors. */
  function Answers(pending: seq<Exec>, k: nat): (r: seq<Exec>)
    ensures |r| == k
  {
    seq(k, i requires 0 <= i < k => if i < |pending| then pending[i] else Err)
  }

  /** What a connection holding `pending` still has to answer after `k` executes. */
  function Unanswered(pending: seq<Exec>, k: nat): seq<Exec>
  {
    if k <= |pending| then pending[k..] else []
  }

  /** `st_load::load` after connecting, for at most `fuel` rounds. `trace` is
      what `execute` answered and `batches` the rows drawn for each statement.
      The first batch panics before any execute when a text column has no
      valid length bound. */
  method Load(rows: u32, batch: u32, table: Table, conn: Connection, fuel: nat)
    returns (outcome: LoadOutcome, ghost trace: seq<Exec>, ghost batches: seq<seq<seq<Drawn>>>)
    requires table.Valid()
    modifies table.generator.rng, table.generator.clock, conn
    ensures table.Valid()
    ensures trace == Answers(old(conn.pending), |trace|)
    ensures outcome.GeneratorPanic? <==> rows > 0 && batch > 0 && !Generable(table.tids)
    ensures outcome.GeneratorPanic? ==> trace == []
    ensures !outcome.GeneratorPanic? ==> outcome == Run(rows, trace, 0)
    ensures outcome.iterations == |trace| <= fuel
    ensures outcome.Stalled? ==> |trace| == fuel
    ensures conn.pending == Unanswered(old(conn.pending), |trace|)
    ensures rows == 0 ==> trace == []
    ensures |batches| == |trace|
    ensures forall k :: 0 <= k < |batches| ==> |batches[k]| == batch && AllRowsFit(table.tids, batches[k])
    ensures conn.executed == old(conn.executed) + Statements(table.tablename, table.tids, batches)
  {
    if rows > 0 && batch > 0 && !Generable(table.tids) {
      return GeneratorPanic(0), [], [];
    }
    outcome, trace, batches := Rounds(rows, batch, table, conn, fuel);
  }

  /** The `remain_rows` loop itself, for a table every batch can be built for. */
  method Rounds(rows: u32, batch: u32, table: Table, conn: Connection, fuel: nat)
    returns (outcome: LoadOutcome, ghost trace: seq<Exec>, ghost batches: seq<seq<seq<Drawn>>>)
    requires table.Valid()
    requires rows > 0 && batch > 0 ==> Generable(table.tids)
    modifies table.generator.rng, table.generator.clock, conn
    ensures table.Valid()
    ensures trace == Answers(old(conn.pending), |trace|)
    ensures outcome == Run(rows, trace, 0)
    ensures outcome.iterations == |trace| <= fuel
    ensures outcome.Stalled? ==> |trace| == fuel
    ensures conn.pending == Unanswered(old(conn.pending), |trace|)
    ensures |batches| == |trace|
    ensures forall k :: 0 <= k < |batches| ==> |batches[k]| == batch && AllRowsFit(table.tids, batches[k])
    ensures conn.executed == old(conn.executed) + Statements(table.tablename, table.tids, batches)
  {
    var remain := rows;
    var iterations := 0;
    trace := [];
    batches := [];
    ghost var sent := old(conn.executed);
    ghost var pending := old(conn.pending);
    ghost var name, tids := table.tablename, table.tids;
    while remain > 0 && iterations < fuel
      invariant iterations == |trace| <= fuel && |batches| == |trace|
      invariant table.Valid() && table.tablename == name && table.tids == tids
      invariant trace == Answers(pending, |trace|)
      invariant conn.pending == Unanswered(pending, |trace|)
      invariant Run(rows, trace, 0) == (if remain == 0 then Completed(|trace|) else Stalled(|trace|, remain))
      invariant forall k :: 0 <= k < |batches| ==> |batches[k]| == batch && AllRowsFit(tids, batches[k])
      invariant conn.executed == sent + Statements(name, tids, batches)
    {
      var e, drawn := Round(batch, table, conn, pending, |trace|);
      var affected := RowsAffected(e);
      RunAppend(rows, trace, [e], 0, remain);
      StatementsSnoc(name, tids, batches, drawn);
      trace := trace + [e];
      batches := batches + [drawn];
      iterations := iterations + 1;
      if affected > remain {
        return Underflow(iterations, remain, affected), trace, batches;
      }
      remain := remain - affected;
    }
    outcome := if remain == 0 then Completed(iterations) else Stalled(iterations, remain);
  }

  /** One round's batch and execute: the statement for `batch` fresh rows is
      sent, and the answer is the next one pending. */
  method Round(batch: u32, table: Table, conn: Connection, ghost pending: seq<Exec>, ghost k: nat)
    returns (e: Exec, ghost drawn: seq<seq<Drawn>>)
    requires table.Valid() && (batch > 0 ==> Generable(table.tids))
    requires conn.pending == Unanswered(pending, k)
    modifies table.generator.rng, table.generator.clock, conn
    ensures table.Valid() && table.tablename == old(table.tablename) && table.tids == old(table.tids)
    ensures |drawn| == batch && AllRowsFit(table.tids, drawn)
    ensures conn.executed == old(conn.executed) + [InsertStatement(table.tablename, TupleTexts(table.tids, drawn))]
    ensures e == if k < |pending| then pending[k] else Err
    ensures conn.pending == Unanswered(pending, k + 1)
    ensures Answers(pending, k + 1) == Answers(pending, k) + [e]
  {
    var stmt;
    stmt, drawn := table.GenerateInsertBatch(batch);
    ghost var before := conn.pending;
    e := conn.Execute(stmt);
    PendingStep(pending, k, before, e, conn.pending);
  }

  /** After `k` executes, the next one answers the next pending answer, or an
      error past the end, and the answers so far grow by that one. */
  lemma PendingStep(pending: seq<Exec>, k: nat, before: seq<Exec>, e: Exec, after: seq<Exec>)
    requires before == Unanswered(pending, k)
    requires before != [] ==> e == before[0] && after == before[1..]
    requires before == [] ==> e == Err && after == []
    ensures e == if k < |pending| then pending[k] else Err
    ensures after == Unanswered(pending, k + 1)
    ensures Answers(pending, k + 1) == Answers(pending, k) + [e]
  {
    if k < |pending| {
      assert before[0] == pending[k];
      assert before[1..] == pending[k + 1..];
    }
  }

  /** A connection whose first `q` answers are `Ok(batch)`, for `q * batch`
      rows and at least `q` rounds allowed: the load completes in exactly `q`
      rounds. */
  method LoadExactBatches(rows: u32, batch: u32, q: nat, table: Table, conn: Connection, fuel: nat)
    returns (outcome: LoadOutcome)
    requires table.Valid() && Generable(table.tids)
    requires 0 < batch && rows as int == q * batch && q <= fuel
    requires |conn.pending| >= q && forall i :: 0 <= i < q ==> conn.pending[i] == Ok(batch as u64)
    modifies table.generator.rng, table.generator.clock, conn
    ensures outcome == Completed(q)
    ensures |conn.executed| == |old(conn.executed)| + q
  {
    ghost var trace, batches;
    outcome, trace, batches := Load(rows, batch, table, conn, fuel);
    TimesIsProduct(q, batch);
    if |trace| >= q {
      ExactBatchesComplete(rows, batch, q, trace, 0);
    } else {
      ExactBatchesPending(rows, batch, q, trace, 0);
    }
  }

  /** A connection that answers every execute with an error, and rows to
      insert into a table a batch can be built for: the counter never moves,
      and the load is still running when the rounds allowed are used up. */
  method LoadAllErrors(rows: u32, batch: u32, table: Table, conn: Connection, fuel: nat)
    returns (outcome: LoadOutcome)
    requires table.Valid() && (batch > 0 ==> Generable(table.tids))
    requires rows > 0
    requires forall i :: 0 <= i < |conn.pending| ==> conn.pending[i] == Err
    modifies table.generator.rng, table.generator.clock, conn
    ensures outcome == Stalled(fuel, rows)
    ensures |conn.executed| == |old(conn.executed)| + fuel
  {
    ghost var trace, batches;
    outcome, trace, batches := Load(rows, batch, table, conn, fuel);
    NoProgressStalls(rows, trace, 0);
  }
}
