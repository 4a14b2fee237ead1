/**
 * The batch recording and audit queries of app/repositories/ledger.py over the
 * immutable transaction-log table.  The table is a sequence of rows in insertion
 * order; the database's autoincrement id of a row is its position plus one.
 * Amounts are DECIMAL(14, 4) in the schema and are kept here as whole numbers
 * of the smallest unit.
 */
module Ledger {
  import opened Common

  /** A row of `transaction_logs` (app/models/ledger.py:130-188). */
  datatype TransactionLog = TransactionLog(
    id: nat,
    batchId: int,
    debitEntityId: nat,
    creditEntityId: nat,
    amount: int,
    counterpartyEntityId: Option<nat>,
    expenseCatalogId: Option<nat>,
    narrative: Option<string>)

  // ---------------------------------------------------------------------------
  // get_next_batch_id (ledger.py:20-28)
  // ---------------------------------------------------------------------------

  /** `MAX(transaction_batch_id)` of a non-empty table. */
  function MaxBatchId(logs: seq<TransactionLog>): (m: int)
    requires logs != []
    ensures forall l :: l in logs ==> l.batchId <= m
    ensures exists l :: l in logs && l.batchId == m
  {
    if |logs| == 1 then logs[0].batchId
    else
      var rest := MaxBatchId(logs[..|logs| - 1]);
      assert forall l :: l in logs ==> l in logs[..|logs| - 1] || l == logs[|logs| - 1];
      assert logs[..|logs| - 1][0] in logs;
      Max(rest, logs[|logs| - 1].batchId)
  }

  /** `(max_id or 0) + 1`: SQL's MAX is NULL on an empty table, and both NULL and 0 give 1. */
  function NextBatchId(logs: seq<TransactionLog>): (b: int)
    ensures logs == [] ==> b == 1
    ensures forall l :: l in logs ==> l.batchId < b
    ensures logs != [] ==> exists l :: l in logs && l.batchId == b - 1
    ensures (forall l :: l in logs ==> l.batchId >= 0) ==> b >= 1
  {
    var maxId := if logs == [] then None else Some(MaxBatchId(logs));
    (if maxId.None? || maxId.value == 0 then 0 else maxId.value) + 1
  }

  /** The rows written by one call of `record_batch`: the given rows, all under one batch id, numbered after the table. */
  function Stamped(entries: seq<TransactionLog>, batchId: int, base: nat): (r: seq<TransactionLog>)
    ensures |r| == |entries|
    ensures forall i :: 0 <= i < |r| ==> r[i] == entries[i].(id := base + i + 1, batchId := batchId)
  {
    seq(|entries|, i requires 0 <= i < |entries| => entries[i].(id := base + i + 1, batchId := batchId))
  }

  /** Stamping one more row appends that row. */
  lemma StampedStep(entries: seq<TransactionLog>, i: nat, batchId: int, base: nat)
    requires i < |entries|
    ensures Stamped(entries[..i + 1], batchId, base)
            == Stamped(entries[..i], batchId, base) + [entries[i].(batchId := batchId).(id := base + i + 1)]
  {
    assert entries[..i + 1][..i] == entries[..i];
  }

  // ---------------------------------------------------------------------------
  // get_logs_by_batch_id and get_logs_for_entity (ledger.py:53-77)
  // ---------------------------------------------------------------------------

  /** `get_logs_by_batch_id`: the rows of one batch, in table order. */
  function LogsInBatch(logs: seq<TransactionLog>, batchId: int): (r: seq<TransactionLog>)
    ensures forall l :: l in r <==> l in logs && l.batchId == batchId
    ensures |r| <= |logs|
  {
    if logs == [] then []
    else
      var rest := LogsInBatch(logs[..|logs| - 1], batchId);
      var last := logs[|logs| - 1];
      assert forall l :: l in logs <==> l in logs[..|logs| - 1] || l == last;
      if last.batchId == batchId then rest + [last] else rest
  }

  /** The entity is the debit or the credit party of the row. */
  predicate Involves(l: TransactionLog, entityId: int)
  {
    l.debitEntityId == entityId || l.creditEntityId == entityId
  }

  /**
   * `get_logs_for_entity`: the rows involving the entity, newest (highest id)
   * first, at most `limit` of them.  Ids grow with the position, so the newest
   * rows are the last ones.
   */
  function RecentLogsFor(logs: seq<TransactionLog>, entityId: int, limit: nat): (r: seq<TransactionLog>)
    ensures |r| <= limit
    ensures forall l :: l in r ==> l in logs && Involves(l, entityId)
  {
    if logs == [] || limit == 0 then []
    else
      var last := logs[|logs| - 1];
      assert forall l :: l in logs[..|logs| - 1] ==> l in logs;
      if Involves(last, entityId) then [last] + RecentLogsFor(logs[..|logs| - 1], entityId, limit - 1)
      else RecentLogsFor(logs[..|logs| - 1], entityId, limit)
  }

  /** Row ids strictly increase along the table. */
  ghost predicate IdsIncreasing(logs: seq<TransactionLog>)
  {
    forall i, j :: 0 <= i < j < |logs| ==> logs[i].id < logs[j].id
  }

  /** The result of `get_logs_for_entity` is in strictly descending id order. */
  lemma {:induction false} RecentLogsDescending(logs: seq<TransactionLog>, entityId: int, limit: nat)
    requires IdsIncreasing(logs)
    ensures forall i, j :: 0 <= i < j < |RecentLogsFor(logs, entityId, limit)| ==>
      RecentLogsFor(logs, entityId, limit)[i].id > RecentLogsFor(logs, entityId, limit)[j].id
  {
    if logs != [] && limit != 0 {
      var init := logs[..|logs| - 1];
      var last := logs[|logs| - 1];
      RecentLogsDescending(init, entityId, limit - 1);
      RecentLogsDescending(init, entityId, limit);
      forall l | l in init ensures l.id < last.id {
        var k :| 0 <= k < |init| && init[k] == l;
        assert logs[k] == l;
      }
    }
  }

  /** When fewer than `limit` rows come back, every row involving the entity is among them. */
  lemma {:induction false} RecentLogsCompleteWhenShort(logs: seq<TransactionLog>, entityId: int, limit: nat)
    ensures |RecentLogsFor(logs, entityId, limit)| < limit ==>
      forall l :: l in logs && Involves(l, entityId) ==> l in RecentLogsFor(logs, entityId, limit)
  {
    if logs != [] && limit != 0 {
      var init := logs[..|logs| - 1];
      RecentLogsCompleteWhenShort(init, entityId, limit - 1);
      RecentLogsCompleteWhenShort(init, entityId, limit);
      assert forall l :: l in logs ==> l in init || l == logs[|logs| - 1];
    }
  }

  /** Nothing newer is left out: a row involving the entity that is not returned is older than every row returned. */
  lemma {:induction false} RecentLogsAreNewest(logs: seq<TransactionLog>, entityId: int, limit: nat, l: TransactionLog, x: TransactionLog)
    requires IdsIncreasing(logs)
    requires l in logs && Involves(l, entityId) && l !in RecentLogsFor(logs, entityId, limit)
    requires x in RecentLogsFor(logs, entityId, limit)
    ensures l.id < x.id
  {
    var init := logs[..|logs| - 1];
    var last := logs[|logs| - 1];
    var lim := if Involves(last, entityId) then limit - 1 else limit;
    assert logs == init + [last];
    assert l != last && l in init;
    if x != last {
      assert IdsIncreasing(init);
      RecentLogsAreNewest(init, entityId, lim, l, x);
    } else {
      var k :| 0 <= k < |init| && init[k] == l;
      assert logs[k] == l;
    }
  }

  // ---------------------------------------------------------------------------
  // The repository (ledger.py:9-77)
  // ---------------------------------------------------------------------------

  class LedgerRepository {
    /** The `transaction_logs` table in insertion order. */
    var logs: seq<TransactionLog>

    ghost predicate Valid()
      reads this
    {
      forall i :: 0 <= i < |logs| ==> logs[i].id == i + 1
    }

    constructor ()
      ensures Valid() && logs == []
    {
      logs := [];
    }

    /** `get_next_batch_id`: one past the largest batch id on file, 1 on an empty table. */
    method GetNextBatchId() returns (batchId: int)
      ensures batchId == NextBatchId(logs)
      ensures forall l :: l in logs ==> l.batchId < batchId
    {
      if logs == [] {
        batchId := 1;
      } else {
        var maxId := MaxBatchId(logs);
        batchId := (if maxId == 0 then 0 else maxId) + 1;
      }
    }

    /**
     * `record_batch`: every given row is filed under one new batch id and
     * appended; the rows already on file are untouched.
     */
    method RecordBatch(entries: seq<TransactionLog>) returns (batchId: int)
      requires Valid()
      modifies this
      ensures Valid()
      ensures batchId == NextBatchId(old(logs))
      ensures logs == old(logs) + Stamped(entries, batchId, |old(logs)|)
    {
      batchId := GetNextBatchId();
      var i := 0;
      while i < |entries|
        invariant 0 <= i <= |entries|
        invariant |logs| == |old(logs)| + i
        invariant logs == old(logs) + Stamped(entries[..i], batchId, |old(logs)|)
      {
        var log := entries[i].(batchId := batchId);
        StampedStep(entries, i, batchId, |old(logs)|);
        logs := logs + [log.(id := |logs| + 1)];
        i := i + 1;
      }
      assert entries[..i] == entries;
    }

    /** `get_logs_by_batch_id`. */
    method GetLogsByBatchId(batchId: int) returns (r: seq<TransactionLog>)
      ensures r == LogsInBatch(logs, batchId)
    {
      r := LogsInBatch(logs, batchId);
    }

    /** `get_logs_for_entity`, with the source's default limit of 50. */
    method GetLogsForEntity(entityId: int, limit: nat := 50) returns (r: seq<TransactionLog>)
      ensures r == RecentLogsFor(logs, entityId, limit)
    {
      r := RecentLogsFor(logs, entityId, limit);
    }
  }

  /** A recorded batch reads back as exactly the rows recorded, in order: no earlier row carries its id. */
  lemma {:induction false} RecordedBatchReadsBack(old_logs: seq<TransactionLog>, entries: seq<TransactionLog>)
    ensures LogsInBatch(old_logs + Stamped(entries, NextBatchId(old_logs), |old_logs|), NextBatchId(old_logs))
            == Stamped(entries, NextBatchId(old_logs), |old_logs|)
  {
    var b := NextBatchId(old_logs);
    LogsInBatchNone(old_logs, b);
    LogsInBatchAllMatch(old_logs, Stamped(entries, b, |old_logs|), b);
  }

  /** A batch id no row carries selects nothing. */
  lemma {:induction false} LogsInBatchNone(logs: seq<TransactionLog>, b: int)
    requires forall l :: l in logs ==> l.batchId != b
    ensures LogsInBatch(logs, b) == []
  {
    if logs != [] {
      assert forall l :: l in logs[..|logs| - 1] ==> l in logs;
      LogsInBatchNone(logs[..|logs| - 1], b);
    }
  }

  /** Filtering an appended block whose every row is in the batch keeps the whole block. */
  lemma {:induction false} LogsInBatchAllMatch(prefix: seq<TransactionLog>, block: seq<TransactionLog>, b: int)
    requires forall l :: l in block ==> l.batchId == b
    ensures LogsInBatch(prefix + block, b) == LogsInBatch(prefix, b) + block
    decreases |block|
  {
    if block == [] {
      assert prefix + block == prefix;
    } else {
      var init := block[..|block| - 1];
      assert (prefix + block)[..|prefix + block| - 1] == prefix + init;
      assert block[|block| - 1] in block;
      LogsInBatchAllMatch(prefix, init, b);
      assert init + [block[|block| - 1]] == block;
    }
  }

  /** After `record_batch`, the table still has its ids in order. */
  lemma RecordedIdsIncrease(old_logs: seq<TransactionLog>, entries: seq<TransactionLog>, b: int)
    requires forall i :: 0 <= i < |old_logs| ==> old_logs[i].id == i + 1
    ensures IdsIncreasing(old_logs + Stamped(entries, b, |old_logs|))
  {
  }
}
