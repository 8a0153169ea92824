/** The drain itself, against a table and a broker that change in place and can fail in the middle of it. */
module OutboxPublishing {
  import opened Outcomes
  import opened Publication

  function OneMore(attempts: map<nat, nat>, id: nat): map<nat, nat> {
    if id in attempts then attempts[id := attempts[id] + 1] else attempts
  }

  /** `rate_publication_outbox`, reached through its three functions. The connection answers `statements` more
      statements and then throws; one that throws may still have taken effect. */
  class OutboxTable {
    var rows: map<nat, Row>
    var delivered: set<nat>
    var attempts: map<nat, nat>
    var statements: nat
    var lossy: bool

    ghost predicate Valid()
      reads this
    {
      delivered <= rows.Keys && attempts.Keys == rows.Keys && forall i :: i in rows ==> rows[i].id == i
    }

    /** Sends one statement; false when it throws. */
    method Send() returns (ok: bool)
      modifies this`statements
      ensures ok == (old(statements) > 0)
      ensures statements == if ok then old(statements) - 1 else 0
    {
      ok := statements > 0;
      if ok { statements := statements - 1; }
    }

    method PendingPublications(limit: int) returns (batch: Option<seq<Row>>)
      requires Valid()
      modifies this`statements
      ensures Valid() && batch == if old(statements) > 0 then Some(PendingRows(rows, delivered, limit)) else None
      ensures statements == if batch.Some? then old(statements) - 1 else 0
    {
      var ok := Send();
      batch := if ok then Some(PendingRows(rows, delivered, limit)) else None;
    }

    method MarkDelivered(ids: set<nat>) returns (ok: bool)
      requires Valid() && ids <= rows.Keys
      modifies this`delivered, this`statements
      ensures Valid() && ok == (old(statements) > 0)
      ensures statements == if ok then old(statements) - 1 else 0
      ensures delivered == if ok || lossy then old(delivered) + ids else old(delivered)
    {
      ok := Send();
      if ok || lossy { delivered := delivered + ids; }
    }

    method RecordFailure(id: nat) returns (ok: bool)
      requires Valid() && id in rows
      modifies this`attempts, this`statements
      ensures Valid() && ok == (old(statements) > 0)
      ensures statements == if ok then old(statements) - 1 else 0
      ensures attempts == if (ok || lossy) && id !in delivered then OneMore(old(attempts), id) else old(attempts)
    {
      ok := Send();
      if (ok || lossy) && id !in delivered {
        attempts := OneMore(attempts, id);
      }
    }
  }

  /** Redis pub/sub: answers for `capacity` more publishes, then fails; a failing publish may still land. */
  class Broker {
    var log: seq<Row>
    var capacity: nat
    var lossy: bool

    method Publish(row: Row) returns (ok: bool)
      modifies this
      ensures ok == (old(capacity) > 0) && lossy == old(lossy)
      ensures capacity == if ok then old(capacity) - 1 else 0
      ensures log == if ok || lossy then old(log) + [row] else old(log)
    {
      ok := capacity > 0;
      if ok { capacity := capacity - 1; }
      if ok || lossy { log := log + [row]; }
    }
  }

  /** The statements a pass makes after its read: one if anything was published, one if a publish failed. */
  function StatementsAfterRead(count: nat, size: nat): nat {
    (if count > 0 then 1 else 0) + (if count < size then 1 else 0)
  }

  class OutboxPublisher {
    const batchSize: int
    var delivered: nat
    var failed: nat
    var backlog: nat

    constructor (batchSize: int)
      ensures this.batchSize == batchSize && delivered == 0 && failed == 0 && backlog == 0
    {
      this.batchSize := batchSize;
      delivered, failed, backlog := 0, 0, 0;
    }

    /** One pass: publish the batch in id order, stop at the first failure, then mark what was published
        and count one attempt against the row that failed, and only that row. None when a statement throws:
        before the read nothing has happened; before the mark the published rows stay pending, unless the
        mark took effect, and are counted by nobody; before the failure is recorded all else is done. */
    method Drain(db: OutboxTable, redis: Broker) returns (r: Option<nat>)
      requires db.Valid()
      modifies this, db`delivered, db`attempts, db`statements, redis
      ensures db.Valid()
      ensures old(db.statements) == 0 ==>
        r == None && redis.log == old(redis.log) && db.delivered == old(db.delivered)
        && db.attempts == old(db.attempts)
        && delivered == old(delivered) && failed == old(failed) && backlog == old(backlog)
      ensures old(db.statements) > 0 ==>
        var batch := PendingRows(old(db.rows), old(db.delivered), batchSize);
        var count := Sent(|batch|, old(redis.capacity));
        var answered := old(db.statements) - 1 >= StatementsAfterRead(count, |batch|);
        var marked := count == 0 || old(db.statements) > 1;
        r == (if answered then Some(count) else None)
        && redis.log == old(redis.log) + batch[..count]
             + (if count < |batch| && old(redis.lossy) then [batch[count]] else [])
        && db.delivered == (if marked || db.lossy then old(db.delivered) + IdsOf(batch[..count]) else old(db.delivered))
        && db.attempts == (if count < |batch| && marked && (answered || db.lossy)
                           then OneMore(old(db.attempts), batch[count].id) else old(db.attempts))
        && delivered == old(delivered) + (if marked then count else 0)
        && failed == old(failed) + (if count < |batch| && marked then 1 else 0)
        && backlog == |batch|
    {
      BatchIsSound(db.rows, db.delivered, batchSize);
      var pending := db.PendingPublications(batchSize);
      if pending.None? { return None; }
      backlog := |pending.value|;
      assert IdsOf([]) == {};
      if |pending.value| == 0 { return Some(0); }
      var count := PublishInOrder(pending.value, redis);
      var ok := Settle(db, pending.value, count);
      return if ok then Some(count) else None;
    }

    /** After the loop: what was published is marked, and a failed row is counted. */
    method Settle(db: OutboxTable, batch: seq<Row>, count: nat) returns (ok: bool)
      requires db.Valid() && BatchSound(db.rows, db.delivered, batch) && count <= |batch|
      modifies this`delivered, this`failed, db`delivered, db`attempts, db`statements
      ensures db.Valid()
      ensures ok == (old(db.statements) >= StatementsAfterRead(count, |batch|))
      ensures var marked := count == 0 || old(db.statements) > 0;
        db.delivered == (if marked || db.lossy then old(db.delivered) + IdsOf(batch[..count]) else old(db.delivered))
        && db.attempts == (if count < |batch| && marked && (ok || db.lossy)
                           then OneMore(old(db.attempts), batch[count].id) else old(db.attempts))
        && delivered == old(delivered) + (if marked then count else 0)
        && failed == old(failed) + (if count < |batch| && marked then 1 else 0)
    {
      assert count == 0 ==> IdsOf(batch[..count]) == {};
      ok := true;
      if count > 0 {
        assert IdsOf(batch[..count]) <= db.rows.Keys;
        ok := db.MarkDelivered(IdsOf(batch[..count]));
        if !ok { return; }
        delivered := delivered + count;
      }
      if count < |batch| {
        failed := failed + 1;
        UnsentIsUnmarked(batch, count);
        ok := db.RecordFailure(batch[count].id);
      }
    }

    /** The publishing loop: in order, one at a time, stopping at the first failure. */
    method PublishInOrder(pending: seq<Row>, redis: Broker) returns (count: nat)
      modifies redis
      ensures count == Sent(|pending|, old(redis.capacity))
      ensures redis.log == old(redis.log) + pending[..count]
                + (if count < |pending| && old(redis.lossy) then [pending[count]] else [])
    {
      count := 0;
      while count < |pending|
        invariant count <= |pending| && count <= old(redis.capacity)
        invariant redis.capacity == old(redis.capacity) - count && redis.lossy == old(redis.lossy)
        invariant redis.log == old(redis.log) + pending[..count]
      {
        var ok := redis.Publish(pending[count]);
        if !ok { break; }
        assert pending[..count + 1] == pending[..count] + [pending[count]];
        count := count + 1;
      }
    }
  }

  lemma UnsentIsUnmarked(pending: seq<Row>, count: nat)
    requires count < |pending| && forall j, k :: 0 <= j < k < |pending| ==> pending[j].id < pending[k].id
    ensures pending[count].id !in IdsOf(pending[..count])
  {
  }

  /** A recorded failure is one more attempt of that row and of no other. */
  lemma FailureIsOneAttempt(attempts: map<nat, nat>, id: nat, other: nat)
    requires id in attempts
    ensures OneMore(attempts, id).Keys == attempts.Keys && OneMore(attempts, id)[id] == attempts[id] + 1
    ensures other in attempts && other != id ==> OneMore(attempts, id)[other] == attempts[other]
  {
  }
}
