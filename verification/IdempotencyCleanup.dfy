/** The batched expiry of stored idempotency keys. */
module IdempotencyCleanup {
  import opened Outcomes

  const MS_PER_HOUR := 3_600_000
  const MAX_BATCH_SIZE := 50_000

  datatype CleanupOptions = CleanupOptions(retentionHours: int, batchSize: int, maxBatches: int)

  datatype CleanupResult = CleanupResult(deleted: nat, batches: nat, cutoff: int, truncated: bool)

  datatype CleanupConfigError = BadRetention | BadBatchSize | BadMaxBatches

  function Validate(o: CleanupOptions): Option<CleanupConfigError> {
    if o.retentionHours <= 0 then Some(BadRetention)
    else if o.batchSize <= 0 || o.batchSize > MAX_BATCH_SIZE then Some(BadBatchSize)
    else if o.maxBatches <= 0 then Some(BadMaxBatches)
    else None
  }

  type Rows = map<string, int>

  function Expired(rows: Rows, cutoff: int): set<string> { set k | k in rows && rows[k] < cutoff }

  function Min(a: int, b: int): int { if a <= b then a else b }

  /** The oldest expired rows, up to the limit. Rows of one age may be taken in any order. */
  predicate IsBatch(rows: Rows, cutoff: int, limit: nat, batch: set<string>) {
    && batch <= Expired(rows, cutoff)
    && |batch| == Min(limit, |Expired(rows, cutoff)|)
    && forall k, j :: k in batch && j in Expired(rows, cutoff) - batch ==> rows[k] <= rows[j]
  }

  lemma OldestExists(rows: Rows, keys: set<string>) returns (oldest: string)
    requires keys != {} && keys <= rows.Keys
    ensures oldest in keys && forall k :: k in keys ==> rows[oldest] <= rows[k]
  {
    var first :| first in keys;
    oldest := first;
    var rest := keys - {first};
    if rest != {} {
      var other := OldestExists(rows, rest);
      if rows[other] < rows[first] { oldest := other; }
    }
    forall k | k in keys
      ensures rows[oldest] <= rows[k]
    {
      assert k == first || k in rest;
    }
  }

  lemma BatchExists(rows: Rows, cutoff: int, limit: nat) returns (batch: set<string>)
    ensures IsBatch(rows, cutoff, limit, batch)
  {
    batch := {};
    while |batch| < Min(limit, |Expired(rows, cutoff)|)
      invariant batch <= Expired(rows, cutoff) && |batch| <= Min(limit, |Expired(rows, cutoff)|)
      invariant forall k, j :: k in batch && j in Expired(rows, cutoff) - batch ==> rows[k] <= rows[j]
    {
      assert Expired(rows, cutoff) - batch != {} by { assert batch != Expired(rows, cutoff); }
      var next := OldestExists(rows, Expired(rows, cutoff) - batch);
      batch := batch + {next};
    }
  }

  class KeyTable {
    /** Key to creation time. */
    var rows: Rows

    constructor (rows: Rows)
      ensures this.rows == rows
    {
      this.rows := rows;
    }

    /** One DELETE statement, and so one transaction. */
    method DeleteBatch(cutoff: int, limit: nat) returns (removed: nat)
      modifies this
      ensures exists batch :: IsBatch(old(rows), cutoff, limit, batch) && rows == old(rows) - batch
      ensures removed == Min(limit, |Expired(old(rows), cutoff)|)
      ensures Expired(rows, cutoff) <= Expired(old(rows), cutoff)
      ensures |Expired(rows, cutoff)| == |Expired(old(rows), cutoff)| - removed
    {
      ghost var some := BatchExists(rows, cutoff, limit);
      var batch :| batch <= rows.Keys && IsBatch(rows, cutoff, limit, batch);
      removed := |batch|;
      assert Expired(rows - batch, cutoff) == Expired(rows, cutoff) - batch;
      rows := rows - batch;
    }
  }

  /** `rows'` is `rows` without some expired rows, none of them newer than an expired row it keeps. */
  ghost predicate OnlyOldestGone(rows: Rows, rows': Rows, cutoff: int) {
    && (forall k :: k in rows' ==> k in rows && rows'[k] == rows[k])
    && (forall k :: k in rows && k !in rows' ==> rows[k] < cutoff)
    && (forall k, j :: k in rows && k !in rows' && j in rows' && rows'[j] < cutoff ==> rows[k] <= rows'[j])
  }

  lemma NothingGone(rows: Rows, cutoff: int)
    ensures OnlyOldestGone(rows, rows, cutoff)
  {
  }

  /** Exactly the rows created before the cutoff are gone. */
  predicate ExpiredAreGone(rows: Rows, rows': Rows, cutoff: int) {
    forall k :: k in rows ==> (k in rows' <==> rows[k] >= cutoff)
  }

  lemma NoneExpiredIsGone(rows: Rows, rows': Rows, cutoff: int)
    requires OnlyOldestGone(rows, rows', cutoff) && |Expired(rows', cutoff)| == 0
    ensures ExpiredAreGone(rows, rows', cutoff) && Expired(rows', cutoff) == {}
  {
    forall k | k in rows'
      ensures rows'[k] >= cutoff
    {
      assert k !in Expired(rows', cutoff);
    }
  }

  lemma BatchTakesOldest(rows: Rows, rows': Rows, batch: set<string>, cutoff: int, limit: nat)
    requires OnlyOldestGone(rows, rows', cutoff) && IsBatch(rows', cutoff, limit, batch)
    ensures OnlyOldestGone(rows, rows' - batch, cutoff)
  {
    var after := rows' - batch;
    forall k, j | k in rows && k !in after && j in after && after[j] < cutoff
      ensures rows[k] <= after[j]
    {
      assert j in Expired(rows', cutoff) - batch;
    }
  }

  /** All batches allowed, or one empty batch after just enough to take every expired row. */
  predicate BatchesFit(batches: nat, truncated: bool, expired: nat, o: CleanupOptions) {
    if truncated then batches == o.maxBatches
    else
      1 <= batches <= o.maxBatches && expired <= (batches - 1) * o.batchSize
      && (batches > 1 ==> expired > (batches - 2) * o.batchSize)
  }

  /** A run on its own, with N keys expired, batches of B and at most M of them: exactly min(N, M * B) keys
      go, oldest first and never one younger than the retention; it is reported truncated exactly when
      N > (M - 1) * B, so a run that is not truncated leaves nothing expired. */
  method PurgeExpiredKeys(table: KeyTable, now: int, options: CleanupOptions)
    returns (r: Result<CleanupResult, CleanupConfigError>)
    modifies table
    ensures r.Failure? <==> Validate(options).Some?
    ensures r.Failure? ==> Validate(options) == Some(r.error) && table.rows == old(table.rows)
    ensures r.Success? <==>
      options.retentionHours > 0 && 1 <= options.batchSize <= 50_000 && options.maxBatches > 0
    ensures r.Success? ==> r.value.cutoff == now - options.retentionHours * 3_600_000
    ensures r.Success? && !r.value.truncated ==> ExpiredAreGone(old(table.rows), table.rows, r.value.cutoff)
    ensures r.Success? ==>
      var cutoff := now - options.retentionHours * MS_PER_HOUR;
      var expired := |Expired(old(table.rows), cutoff)|;
      r.value.cutoff == cutoff
      && OnlyOldestGone(old(table.rows), table.rows, cutoff)
      && r.value.deleted == Min(expired, options.maxBatches * options.batchSize)
      && r.value.deleted == expired - |Expired(table.rows, cutoff)|
      && (r.value.truncated <==> expired > (options.maxBatches - 1) * options.batchSize)
      && (!r.value.truncated ==> Expired(table.rows, cutoff) == {})
      && BatchesFit(r.value.batches, r.value.truncated, expired, options)
  {
    var invalid := Validate(options);
    if invalid.Some? {
      return Failure(invalid.value);
    }
    var size, cap := options.batchSize, options.maxBatches;
    var cutoff := now - options.retentionHours * MS_PER_HOUR;
    hide OnlyOldestGone, ExpiredAreGone, IsBatch, Expired, Validate, Capacity;
    ghost var expired := |Expired(table.rows, cutoff)|;
    var deleted, batches, truncated := PurgeInBatches(table, cutoff, size, cap);
    if !truncated {
      NoneExpiredIsGone(old(table.rows), table.rows, cutoff);
    }
    CapacityIs(cap, size);
    CapacityIs(cap - 1, size);
    CapacityIs(batches - 1, size);
    if batches > 1 { CapacityIs(batches - 2, size); }
    return Success(CleanupResult(deleted, batches, cutoff, truncated));
  }

  /** What so many full batches take. */
  function Capacity(batches: int, size: int): int { batches * size }

  lemma CapacityIs(batches: int, size: int)
    ensures Capacity(batches, size) == batches * size
  {
  }

  /** The batch loop: it ends with an empty batch, or with the last one it may make. */
  method PurgeInBatches(table: KeyTable, cutoff: int, size: nat, cap: nat)
    returns (deleted: nat, batches: nat, truncated: bool)
    requires size > 0 && cap > 0
    modifies table
    ensures OnlyOldestGone(old(table.rows), table.rows, cutoff)
    ensures |Expired(table.rows, cutoff)| == |Expired(old(table.rows), cutoff)| - deleted
    ensures var expired := |Expired(old(table.rows), cutoff)|;
      deleted == Min(expired, Capacity(cap, size))
      && (truncated <==> expired > Capacity(cap - 1, size))
      && (!truncated ==> deleted == expired)
      && (truncated ==> batches == cap)
      && (!truncated ==>
            1 <= batches <= cap && expired <= Capacity(batches - 1, size)
            && (batches > 1 ==> expired > Capacity(batches - 2, size)))
  {
    hide OnlyOldestGone, IsBatch, Expired, Capacity;
    NothingGone(table.rows, cutoff);
    ghost var expired := |Expired(table.rows, cutoff)|;
    NoBatch(size);
    deleted, batches, truncated := 0, 0, false;
    var batch := 0;
    while batch < cap
      invariant 0 <= batch <= cap && batches == batch
      invariant truncated <==> batch == cap
      invariant OnlyOldestGone(old(table.rows), table.rows, cutoff)
      invariant |Expired(table.rows, cutoff)| == expired - deleted
      invariant deleted == Min(expired, Capacity(batch, size))
      invariant batch > 0 ==> expired > Capacity(batch - 1, size)
    {
      ghost var before := table.rows;
      var removed := table.DeleteBatch(cutoff, size);
      ghost var gone :| IsBatch(before, cutoff, size, gone) && table.rows == before - gone;
      BatchTakesOldest(old(table.rows), before, gone, cutoff, size);
      NextBatch(expired, batch, size, removed);
      batches := batches + 1;
      deleted := deleted + removed;
      if removed == 0 {
        MoreBatchesCover(expired, batch, cap, size);
        break;
      }
      if batch == cap - 1 {
        truncated := true;
      }
      batch := batch + 1;
    }
  }

  lemma NoBatch(size: nat)
    ensures Capacity(0, size) == 0
  {
  }

  lemma NextBatch(expired: nat, batch: nat, size: nat, removed: nat)
    requires size > 0 && removed == Min(size, expired - Min(expired, Capacity(batch, size)))
    ensures Min(expired, Capacity(batch, size)) + removed == Min(expired, Capacity(batch + 1, size))
    ensures removed > 0 <==> expired > Capacity(batch, size)
  {
    assert (batch + 1) * size == batch * size + size;
  }

  lemma MoreBatchesCover(expired: nat, batch: nat, cap: nat, size: nat)
    requires batch < cap && expired <= Capacity(batch, size)
    ensures expired <= Capacity(cap - 1, size) && expired <= Capacity(cap, size)
  {
    Scaled(batch, cap - 1, size);
    Scaled(batch, cap, size);
  }

  lemma Scaled(a: nat, b: nat, size: nat)
    requires a <= b
    ensures a * size <= b * size
  {
  }

  /** A run can report itself truncated, and so warn that expired rows remain, when none do. */
  method TruncatedWithNothingLeft() returns (table: KeyTable, r: Result<CleanupResult, CleanupConfigError>)
    ensures r.Success? && r.value.truncated && r.value.deleted == 1 && Expired(table.rows, r.value.cutoff) == {}
  {
    table := new KeyTable(map["k" := 0]);
    var now := 2 * MS_PER_HOUR;
    assert Expired(table.rows, now - MS_PER_HOUR) == {"k"};
    r := PurgeExpiredKeys(table, now, CleanupOptions(1, 1, 1));
  }
}
