/**
 * The publication protocol: rates and outbox rows committed together, drained to Redis, applied by the
 * browser.
 *
 * Every statement and every await is a step of its own, so transactions interleave with each other and
 * with a drain, a drain can die anywhere, and a PUBLISH can reach Redis although its caller saw an error.
 * An id is taken from the sequence when a row is inserted, not when it commits; the only thing that orders
 * the rows of one product is the row lock the upsert of its current rate takes first.
 */
module Publication {
  import opened Outcomes
  import opened NatSets

  /** A product as its customers see it: a tenant and the key the browser stores rates under. */
  datatype Slot = Slot(tenant: string, productKey: string)

  datatype Rate = Rate(paise: int, unit: string)

  datatype Row = Row(id: nat, slot: Slot, rate: Rate)

  /** An open drain: its batch, how much of it is on Redis, and whether a publish failed. */
  datatype Drain = Drain(batch: seq<Row>, sent: nat, stopped: bool)

  datatype State = State(
    published: map<Slot, Rate>,
    outbox: map<nat, Row>,
    delivered: set<nat>,
    nextId: nat,
    open: map<nat, seq<Row>>,
    drains: map<nat, Drain>,
    log: seq<Row>)

  const INITIAL := State(map[], map[], {}, 0, map[], map[], [])

  datatype Step =
    | Begin(txn: nat)
    | PublishOne(txn: nat, slot: Slot, rate: Rate)
    | Commit(txn: nat)
    | Rollback(txn: nat)
    | Select(drain: nat, limit: int)
    | Send(drain: nat)
    | SendFails(drain: nat, reachedRedis: bool)
    | Mark(drain: nat)
    | Crash(drain: nat)

  function Pending(s: State): set<nat> { s.outbox.Keys - s.delivered }

  /** The lock on a product's current rate is held by another open transaction. */
  predicate LockedByOther(s: State, txn: nat, slot: Slot) {
    exists t, k :: t in s.open && t != txn && 0 <= k < |s.open[t]| && s.open[t][k].slot == slot
  }

  /** `ORDER BY id LIMIT n` over a set of ids. */
  function Lowest(ids: set<nat>, n: nat): seq<nat> {
    if n == 0 || ids == {} then [] else [Min(ids)] + Lowest(ids - {Min(ids)}, n - 1)
  }

  /** The limit as the database function clamps it. */
  function Clamp(limit: int): nat { if limit < 1 then 1 else if limit > 5000 then 5000 else limit }

  function RowsOf(outbox: map<nat, Row>, ids: seq<nat>): seq<Row>
    requires forall k :: 0 <= k < |ids| ==> ids[k] in outbox
  {
    seq(|ids|, k requires 0 <= k < |ids| => outbox[ids[k]])
  }

  function IdsOf(rows: seq<Row>): set<nat> { set k | 0 <= k < |rows| :: rows[k].id }

  predicate Enabled(s: State, step: Step) {
    match step
    case Begin(t) => t !in s.open
    case PublishOne(t, slot, _) => t in s.open && !LockedByOther(s, t, slot)
    case Commit(t) => t in s.open
    case Rollback(t) => t in s.open
    case Select(d, _) => d !in s.drains
    case Send(d) => d in s.drains && !s.drains[d].stopped && s.drains[d].sent < |s.drains[d].batch|
    case SendFails(d, _) => d in s.drains && !s.drains[d].stopped && s.drains[d].sent < |s.drains[d].batch|
    case Mark(d) =>
      d in s.drains && s.drains[d].sent <= |s.drains[d].batch|
      && (s.drains[d].stopped || s.drains[d].sent == |s.drains[d].batch|)
    case Crash(d) => d in s.drains
  }

  /** One row of a transaction becomes visible: the current rate and the outbox row together. */
  function CommitRow(s: State, t: nat): State
    requires t in s.open && s.open[t] != []
  {
    var row := s.open[t][0];
    s.(published := s.published[row.slot := row.rate],
       outbox := s.outbox[row.id := row],
       open := s.open[t := s.open[t][1..]])
  }

  function CommitAll(s: State, t: nat): State
    requires t in s.open
    decreases |s.open[t]|
  {
    if s.open[t] == [] then s.(open := s.open - {t}) else CommitAll(CommitRow(s, t), t)
  }

  lemma LowestAreMembers(ids: set<nat>, n: nat)
    ensures forall k :: 0 <= k < |Lowest(ids, n)| ==> Lowest(ids, n)[k] in ids
  {
  }

  /** The undelivered rows with the lowest ids, up to the clamped limit. */
  function PendingRows(outbox: map<nat, Row>, delivered: set<nat>, limit: int): seq<Row> {
    LowestAreMembers(outbox.Keys - delivered, Clamp(limit));
    RowsOf(outbox, Lowest(outbox.Keys - delivered, Clamp(limit)))
  }

  function SelectBatch(s: State, limit: int): seq<Row> { PendingRows(s.outbox, s.delivered, limit) }

  function Apply(s: State, step: Step): State
    requires Enabled(s, step)
  {
    match step
    case Begin(t) => s.(open := s.open[t := []])
    case PublishOne(t, slot, rate) =>
      s.(open := s.open[t := s.open[t] + [Row(s.nextId, slot, rate)]], nextId := s.nextId + 1)
    case Commit(t) => CommitAll(s, t)
    case Rollback(t) => s.(open := s.open - {t})
    case Select(d, limit) => s.(drains := s.drains[d := Drain(SelectBatch(s, limit), 0, false)])
    case Send(d) =>
      var drain := s.drains[d];
      s.(log := s.log + [drain.batch[drain.sent]], drains := s.drains[d := drain.(sent := drain.sent + 1)])
    case SendFails(d, reached) =>
      var drain := s.drains[d];
      s.(log := if reached then s.log + [drain.batch[drain.sent]] else s.log,
         drains := s.drains[d := drain.(stopped := true)])
    case Mark(d) =>
      var drain := s.drains[d];
      s.(delivered := s.delivered + IdsOf(drain.batch[..drain.sent]), drains := s.drains - {d})
    case Crash(d) => s.(drains := s.drains - {d})
  }

  /** The state after a run, if every step was possible. With `exclusive`, a drain starts only when no
      other is open. */
  function After(steps: seq<Step>, exclusive: bool): Option<State> {
    if steps == [] then Some(INITIAL)
    else
      var n := |steps| - 1;
      match After(steps[..n], exclusive)
      case None => None
      case Some(s) =>
        if Enabled(s, steps[n]) && (exclusive && steps[n].Select? ==> s.drains == map[])
        then Some(Apply(s, steps[n])) else None
  }

  // ----- What every reachable state keeps -----

  type Outbox = map<nat, Row>

  /** The row a product's customers should end up with. */
  predicate IsLatest(outbox: Outbox, slot: Slot, id: nat) {
    id in outbox && outbox[id].slot == slot
    && forall j :: j in outbox && outbox[j].slot == slot ==> j <= id
  }

  function LastEvent(log: seq<Row>, slot: Slot): Option<Row> {
    if log == [] then None
    else if log[|log| - 1].slot == slot then Some(log[|log| - 1])
    else LastEvent(log[..|log| - 1], slot)
  }

  ghost predicate RowsKnown(outbox: Outbox, nextId: nat, delivered: set<nat>, log: seq<Row>) {
    && (forall i :: i in outbox ==> outbox[i].id == i < nextId)
    && delivered <= outbox.Keys
    && (forall e :: e in log ==> e.id in outbox && outbox[e.id] == e)
  }

  /** What the row locks buy: an uncommitted row is newer than every committed or earlier row of its
      product, and no two transactions hold rows of one product. */
  ghost predicate TxnNewer(outbox: Outbox, nextId: nat, writes: seq<Row>) {
    && (forall k :: 0 <= k < |writes| ==> writes[k].id < nextId && writes[k].id !in outbox)
    && (forall j, k :: 0 <= j < k < |writes| ==> writes[j].id < writes[k].id)
    && (forall k, i :: 0 <= k < |writes| && i in outbox && outbox[i].slot == writes[k].slot ==> i < writes[k].id)
  }

  ghost predicate Apart(v: seq<Row>, w: seq<Row>) {
    forall j, k :: 0 <= j < |v| && 0 <= k < |w| ==> v[j].slot != w[k].slot && v[j].id != w[k].id
  }

  ghost predicate Locks(open: map<nat, seq<Row>>, outbox: Outbox, nextId: nat) {
    && (forall t :: t in open ==> TxnNewer(outbox, nextId, open[t]))
    && (forall t, u :: t in open && u in open && t != u ==> Apart(open[t], open[u]))
  }

  /** The highest-id row of a product carries its current rate. */
  ghost predicate CarriesCurrent(published: map<Slot, Rate>, outbox: Outbox, slot: Slot)
    requires slot in published
  {
    exists i :: IsLatest(outbox, slot, i) && outbox[i].rate == published[slot]
  }

  ghost predicate Current(published: map<Slot, Rate>, outbox: Outbox) {
    forall slot :: slot in published ==> CarriesCurrent(published, outbox, slot)
  }

  /** Delivered rows of a product form a prefix of its rows. */
  ghost predicate Prefix(outbox: Outbox, delivered: set<nat>) {
    forall i, j :: i in delivered && j !in delivered && i in outbox && j in outbox && outbox[i].slot == outbox[j].slot
      ==> i < j
  }

  ghost predicate BatchSound(outbox: Outbox, delivered: set<nat>, batch: seq<Row>) {
    && (forall a :: 0 <= a < |batch| ==>
          batch[a].id !in delivered && batch[a].id in outbox && outbox[batch[a].id] == batch[a])
    && (forall a, b :: 0 <= a < b < |batch| ==> batch[a].id < batch[b].id)
    && (forall a, j ::
          0 <= a < |batch| && j in outbox && j !in delivered && outbox[j].slot == batch[a].slot && outbox[j] !in batch
          ==> batch[a].id < j)
  }

  /** A row of the part already sent, with no later row of its product in that part. */
  ghost predicate LastSent(drain: Drain, a: int) {
    0 <= a < drain.sent <= |drain.batch|
    && forall b :: a < b < drain.sent ==> drain.batch[b].slot != drain.batch[a].slot
  }

  /** What the drain has put on Redis is still the last word, unless its failed publish got through. */
  ghost predicate Heard(log: seq<Row>, drain: Drain) {
    && drain.sent <= |drain.batch|
    && (drain.stopped ==> drain.sent < |drain.batch|)
    && forall a :: LastSent(drain, a) ==>
         LastEvent(log, drain.batch[a].slot) == Some(drain.batch[a])
         || (drain.stopped && drain.batch[drain.sent].slot == drain.batch[a].slot)
  }

  ghost predicate NothingPending(outbox: Outbox, delivered: set<nat>, slot: Slot) {
    forall i :: i in outbox && outbox[i].slot == slot ==> i in delivered
  }

  ghost predicate ConvergedAt(outbox: Outbox, delivered: set<nat>, log: seq<Row>, slot: Slot) {
    NothingPending(outbox, delivered, slot) ==>
      forall i :: IsLatest(outbox, slot, i) ==> LastEvent(log, slot) == Some(outbox[i])
  }

  ghost predicate Converged(outbox: Outbox, delivered: set<nat>, log: seq<Row>) {
    forall slot :: ConvergedAt(outbox, delivered, log, slot)
  }

  ghost predicate OneDrain(drains: map<nat, Drain>) {
    forall d, e :: d in drains && e in drains ==> d == e
  }

  ghost predicate Inv(s: State) {
    && RowsKnown(s.outbox, s.nextId, s.delivered, s.log)
    && Locks(s.open, s.outbox, s.nextId)
    && Current(s.published, s.outbox)
    && Prefix(s.outbox, s.delivered)
    && OneDrain(s.drains)
    && (forall d :: d in s.drains ==>
          BatchSound(s.outbox, s.delivered, s.drains[d].batch) && Heard(s.log, s.drains[d]))
    && Converged(s.outbox, s.delivered, s.log)
  }

  // ----- Each step keeps it -----

  lemma TransactionStepKeeps(s: State, step: Step)
    requires Inv(s) && Enabled(s, step) && (step.Begin? || step.PublishOne? || step.Rollback?)
    ensures Inv(Apply(s, step))
  {
    hide Converged, Current, Prefix, BatchSound, Heard, TxnNewer, Apart;
    var s' := Apply(s, step);
    match step
    case Begin(t) => assert s'.open[t] == []; FreshIsTrivial(s);
    case Rollback(t) =>
    case PublishOne(t, slot, rate) => AppendKeepsLocks(s, t, Row(s.nextId, slot, rate));
  }

  lemma FreshIsTrivial(s: State)
    ensures TxnNewer(s.outbox, s.nextId, [])
    ensures forall w :: Apart([], w) && Apart(w, [])
  {
  }

  lemma AppendKeepsLocks(s: State, t: nat, row: Row)
    requires RowsKnown(s.outbox, s.nextId, s.delivered, s.log) && Locks(s.open, s.outbox, s.nextId)
    requires t in s.open && row.id == s.nextId && !LockedByOther(s, t, row.slot)
    ensures Locks(s.open[t := s.open[t] + [row]], s.outbox, s.nextId + 1)
  {
    var open := s.open[t := s.open[t] + [row]];
    forall u | u in open
      ensures TxnNewer(s.outbox, s.nextId + 1, open[u])
    {
      AppendKeepsNewer(s.outbox, s.nextId, s.open[u], row);
    }
    forall u, v | u in open && v in open && u != v
      ensures Apart(open[u], open[v])
    {
      if u == t {
        AppendKeepsApart(s, t, v, row);
      } else if v == t {
        AppendKeepsApart(s, t, u, row);
      }
    }
  }

  lemma AppendKeepsNewer(outbox: Outbox, nextId: nat, writes: seq<Row>, row: Row)
    requires TxnNewer(outbox, nextId, writes) && row.id == nextId
    requires forall i :: i in outbox ==> i < nextId
    ensures TxnNewer(outbox, nextId + 1, writes) && TxnNewer(outbox, nextId + 1, writes + [row])
  {
  }

  lemma AppendKeepsApart(s: State, t: nat, u: nat, row: Row)
    requires Locks(s.open, s.outbox, s.nextId) && t in s.open && u in s.open && u != t
    requires row.id == s.nextId && !LockedByOther(s, t, row.slot)
    ensures Apart(s.open[t] + [row], s.open[u]) && Apart(s.open[u], s.open[t] + [row])
  {
    assert Apart(s.open[t], s.open[u]) && TxnNewer(s.outbox, s.nextId, s.open[u]);
    assert forall k :: 0 <= k < |s.open[u]| ==> s.open[u][k].slot != row.slot;
  }

  /** A row whose id is new, and above every committed row of its product. */
  ghost predicate Newest(outbox: Outbox, row: Row) {
    row.id !in outbox && forall i :: i in outbox && outbox[i].slot == row.slot ==> i < row.id
  }

  lemma NewestKeepsCurrent(published: map<Slot, Rate>, outbox: Outbox, row: Row)
    requires Current(published, outbox) && Newest(outbox, row)
    ensures Current(published[row.slot := row.rate], outbox[row.id := row])
  {
    var published', outbox' := published[row.slot := row.rate], outbox[row.id := row];
    forall slot | slot in published'
      ensures CarriesCurrent(published', outbox', slot)
    {
      if slot == row.slot {
        assert IsLatest(outbox', slot, row.id);
      } else {
        assert CarriesCurrent(published, outbox, slot);
        var i :| IsLatest(outbox, slot, i) && outbox[i].rate == published[slot];
        assert IsLatest(outbox', slot, i);
      }
    }
  }

  /** A newly committed row leaves its own product pending and no other product's last row changed. */
  lemma NewestKeepsConverged(outbox: Outbox, delivered: set<nat>, log: seq<Row>, row: Row)
    requires Converged(outbox, delivered, log) && Newest(outbox, row) && row.id !in delivered
    ensures Converged(outbox[row.id := row], delivered, log)
  {
    var outbox' := outbox[row.id := row];
    forall slot
      ensures ConvergedAt(outbox', delivered, log, slot)
    {
      assert ConvergedAt(outbox, delivered, log, slot);
      if slot == row.slot {
        assert !NothingPending(outbox', delivered, slot) by { assert outbox'[row.id].slot == slot; }
      } else {
        assert forall i :: i in outbox ==> outbox'[i] == outbox[i];
        assert NothingPending(outbox', delivered, slot) ==> NothingPending(outbox, delivered, slot);
        assert forall i :: IsLatest(outbox', slot, i) ==> IsLatest(outbox, slot, i);
      }
    }
  }

  lemma NewestKeepsLocks(s: State, t: nat)
    requires Locks(s.open, s.outbox, s.nextId) && t in s.open && s.open[t] != []
    ensures Locks(CommitRow(s, t).open, CommitRow(s, t).outbox, s.nextId)
  {
    var s' := CommitRow(s, t);
    forall u | u in s'.open
      ensures TxnNewer(s'.outbox, s'.nextId, s'.open[u])
    {
      if u == t {
        HeadCommits(s.outbox, s.nextId, s.open[t]);
      } else {
        OtherCommits(s.outbox, s.nextId, s.open[t], s.open[u]);
      }
    }
    forall u, v | u in s'.open && v in s'.open && u != v
      ensures Apart(s'.open[u], s'.open[v])
    {
      ApartShrinks(s.open[u], s.open[v], s'.open[u], s'.open[v]);
    }
  }

  lemma ApartShrinks(v: seq<Row>, w: seq<Row>, v': seq<Row>, w': seq<Row>)
    requires Apart(v, w)
    requires (v' == v || (v != [] && v' == v[1..])) && (w' == w || (w != [] && w' == w[1..]))
    ensures Apart(v', w')
  {
  }

  lemma OtherCommits(outbox: Outbox, nextId: nat, writes: seq<Row>, other: seq<Row>)
    requires TxnNewer(outbox, nextId, other) && Apart(writes, other) && writes != []
    ensures TxnNewer(outbox[writes[0].id := writes[0]], nextId, other)
  {
  }

  lemma HeadCommits(outbox: Outbox, nextId: nat, writes: seq<Row>)
    requires TxnNewer(outbox, nextId, writes) && writes != []
    ensures TxnNewer(outbox[writes[0].id := writes[0]], nextId, writes[1..])
  {
  }

  lemma CommitRowKeeps(s: State, t: nat)
    requires Inv(s) && t in s.open && s.open[t] != []
    ensures Inv(CommitRow(s, t))
  {
    hide Converged, Current, Locks;
    var row := s.open[t][0];
    assert TxnNewer(s.outbox, s.nextId, s.open[t]) by { LocksGive(s, t); }
    NewestKeepsLocks(s, t);
    NewestKeepsCurrent(s.published, s.outbox, row);
    NewestKeepsConverged(s.outbox, s.delivered, s.log, row);
  }

  lemma LocksGive(s: State, t: nat)
    requires Locks(s.open, s.outbox, s.nextId) && t in s.open
    ensures TxnNewer(s.outbox, s.nextId, s.open[t])
  {
  }

  lemma {:induction false} CommitKeeps(s: State, t: nat)
    requires Inv(s) && t in s.open
    ensures Inv(CommitAll(s, t))
    decreases |s.open[t]|
  {
    if s.open[t] != [] {
      CommitRowKeeps(s, t);
      CommitKeeps(CommitRow(s, t), t);
    }
  }

  /** The batch is ascending, is made of pending ids, and everything it leaves out is higher. */
  lemma {:induction false} LowestIsPrefix(ids: set<nat>, n: nat)
    ensures var low := Lowest(ids, n);
      (forall k :: 0 <= k < |low| ==> low[k] in ids)
      && (forall j, k :: 0 <= j < k < |low| ==> low[j] < low[k])
      && (forall k, i :: 0 <= k < |low| && i in ids && i !in low ==> low[k] < i)
      && |low| == if n < |ids| then n else |ids|
  {
    if n > 0 && ids != {} {
      var least := Min(ids);
      LowestIsPrefix(ids - {least}, n - 1);
    }
  }

  lemma BatchIsSound(outbox: Outbox, delivered: set<nat>, limit: int)
    requires forall i :: i in outbox ==> outbox[i].id == i
    ensures BatchSound(outbox, delivered, PendingRows(outbox, delivered, limit))
  {
    var low := Lowest(outbox.Keys - delivered, Clamp(limit));
    LowestIsPrefix(outbox.Keys - delivered, Clamp(limit));
    var batch := PendingRows(outbox, delivered, limit);
    forall j | j in low
      ensures outbox[j] in batch
    {
      var k :| 0 <= k < |low| && low[k] == j;
      assert batch[k] == outbox[j];
    }
  }

  lemma SelectKeeps(s: State, d: nat, limit: int)
    requires Inv(s) && s.drains == map[]
    ensures Inv(Apply(s, Select(d, limit)))
  {
    hide Converged, Current, Locks, Prefix, BatchSound;
    BatchIsSound(s.outbox, s.delivered, limit);
  }

  lemma SendKeeps(s: State, d: nat)
    requires Inv(s) && Enabled(s, Send(d))
    ensures Inv(Apply(s, Send(d)))
  {
    hide Converged, Current, Locks, Prefix, Heard;
    var drain := s.drains[d];
    SendKeepsHeard(s.log, drain);
    PendingSlotConverges(s, drain.batch[drain.sent]);
  }

  lemma SendKeepsHeard(log: seq<Row>, drain: Drain)
    requires Heard(log, drain) && !drain.stopped && drain.sent < |drain.batch|
    ensures Heard(log + [drain.batch[drain.sent]], drain.(sent := drain.sent + 1))
  {
    var drain' := drain.(sent := drain.sent + 1);
    var row := drain.batch[drain.sent];
    LogGrows(log, row);
    forall a | LastSent(drain', a)
      ensures LastEvent(log + [row], drain'.batch[a].slot) == Some(drain'.batch[a])
    {
      if a < drain.sent {
        assert LastSent(drain, a);
      }
    }
  }

  lemma SendFailsKeeps(s: State, d: nat, reached: bool)
    requires Inv(s) && Enabled(s, SendFails(d, reached))
    ensures Inv(Apply(s, SendFails(d, reached)))
  {
    var s' := Apply(s, SendFails(d, reached));
    var drain := s.drains[d];
    var row := drain.batch[drain.sent];
    LogGrows(s.log, row);
    forall a | LastSent(s'.drains[d], a)
      ensures LastEvent(s'.log, drain.batch[a].slot) == Some(drain.batch[a]) || row.slot == drain.batch[a].slot
    {
      assert LastSent(drain, a);
    }
    PendingSlotConverges(s, row);
  }

  lemma LogGrows(log: seq<Row>, row: Row)
    ensures forall slot :: LastEvent(log + [row], slot) == if slot == row.slot then Some(row) else LastEvent(log, slot)
  {
    assert (log + [row])[..|log|] == log;
  }

  /** Publishing a row of a pending product cannot disturb a product with nothing pending. */
  lemma PendingSlotConverges(s: State, row: Row)
    requires Inv(s) && row.id in s.outbox && s.outbox[row.id] == row && row.id !in s.delivered
    ensures Converged(s.outbox, s.delivered, s.log + [row])
  {
    LogGrows(s.log, row);
    forall slot
      ensures ConvergedAt(s.outbox, s.delivered, s.log + [row], slot)
    {
      assert ConvergedAt(s.outbox, s.delivered, s.log, slot);
    }
  }

  lemma MarkKeeps(s: State, d: nat)
    requires Inv(s) && Enabled(s, Mark(d))
    ensures Inv(Apply(s, Mark(d)))
  {
    var s' := Apply(s, Mark(d));
    var drain := s.drains[d];
    var sent := drain.batch[..drain.sent];
    assert BatchSound(s.outbox, s.delivered, drain.batch);
    MarkKeepsPrefix(s.outbox, s.delivered, drain);
    forall slot
      ensures ConvergedAt(s'.outbox, s'.delivered, s'.log, slot)
    {
      MarkConverges(s, d, slot);
    }
    assert IdsOf(sent) <= s.outbox.Keys;
  }

  lemma MarkKeepsPrefix(outbox: Outbox, delivered: set<nat>, drain: Drain)
    requires Prefix(outbox, delivered) && BatchSound(outbox, delivered, drain.batch) && drain.sent <= |drain.batch|
    requires forall i :: i in outbox ==> outbox[i].id == i
    ensures Prefix(outbox, delivered + IdsOf(drain.batch[..drain.sent]))
  {
    var marked := IdsOf(drain.batch[..drain.sent]);
    forall i, j | i in marked && j in outbox && j !in delivered + marked && outbox[i].slot == outbox[j].slot
      ensures i < j
    {
      var a :| 0 <= a < drain.sent && drain.batch[a].id == i;
      if outbox[j] in drain.batch {
        var b :| 0 <= b < |drain.batch| && drain.batch[b] == outbox[j];
        SentIsMarked(drain, b);
      }
    }
  }

  lemma SentIsMarked(drain: Drain, b: nat)
    requires b < |drain.batch| && drain.sent <= |drain.batch|
    ensures b < drain.sent ==> drain.batch[b].id in IdsOf(drain.batch[..drain.sent])
  {
    if b < drain.sent {
      assert drain.batch[..drain.sent][b].id == drain.batch[b].id;
    }
  }

  /** A product with nothing left pending: either the drain sent its last row, or nothing changed for it. */
  lemma MarkConverges(s: State, d: nat, slot: Slot)
    requires Inv(s) && Enabled(s, Mark(d))
    ensures ConvergedAt(s.outbox, s.delivered + IdsOf(s.drains[d].batch[..s.drains[d].sent]), s.log, slot)
  {
    var drain := s.drains[d];
    var marked := IdsOf(drain.batch[..drain.sent]);
    assert ConvergedAt(s.outbox, s.delivered, s.log, slot);
    if NothingPending(s.outbox, s.delivered + marked, slot) && !NothingPending(s.outbox, s.delivered, slot) {
      var a := LastOfSlot(drain, slot, s.outbox, s.delivered);
      SettledRowIsLatest(s.outbox, s.delivered, drain, slot, a);
      if drain.stopped { UnsentStaysPending(s.outbox, s.delivered, drain); }
      assert LastEvent(s.log, slot) == Some(drain.batch[a]);
    }
  }

  lemma SettledRowIsLatest(outbox: Outbox, delivered: set<nat>, drain: Drain, slot: Slot, a: nat)
    requires BatchSound(outbox, delivered, drain.batch) && Prefix(outbox, delivered)
    requires LastSent(drain, a) && drain.batch[a].slot == slot
    requires NothingPending(outbox, delivered + IdsOf(drain.batch[..drain.sent]), slot)
    ensures forall i :: IsLatest(outbox, slot, i) ==> outbox[i] == drain.batch[a]
  {
    forall i: nat | IsLatest(outbox, slot, i)
      ensures outbox[i] == drain.batch[a]
    {
      assert i >= drain.batch[a].id;
      if i !in delivered {
        var b :| 0 <= b < drain.sent && drain.batch[b].id == i;
        assert b <= a;
      }
    }
  }

  lemma UnsentStaysPending(outbox: Outbox, delivered: set<nat>, drain: Drain)
    requires BatchSound(outbox, delivered, drain.batch) && drain.sent < |drain.batch|
    ensures !NothingPending(outbox, delivered + IdsOf(drain.batch[..drain.sent]), drain.batch[drain.sent].slot)
  {
    var id := drain.batch[drain.sent].id;
    assert id !in IdsOf(drain.batch[..drain.sent]);
    assert outbox[id].slot == drain.batch[drain.sent].slot;
  }

  /** The last row of a product in the part already sent, when that part settles the product. */
  lemma LastOfSlot(drain: Drain, slot: Slot, outbox: Outbox, delivered: set<nat>) returns (a: nat)
    requires drain.sent <= |drain.batch| && BatchSound(outbox, delivered, drain.batch)
    requires NothingPending(outbox, delivered + IdsOf(drain.batch[..drain.sent]), slot)
    requires !NothingPending(outbox, delivered, slot)
    ensures LastSent(drain, a) && drain.batch[a].slot == slot
  {
    var i :| i in outbox && outbox[i].slot == slot && i !in delivered;
    var k :| 0 <= k < drain.sent && drain.batch[k].id == i;
    a := LastFrom(drain, slot, k);
  }

  lemma LastFrom(drain: Drain, slot: Slot, k: nat) returns (a: nat)
    requires k < drain.sent <= |drain.batch| && drain.batch[k].slot == slot
    ensures LastSent(drain, a) && drain.batch[a].slot == slot
  {
    a := k;
    var b := k + 1;
    while b < drain.sent
      invariant a < b <= drain.sent && drain.batch[a].slot == slot
      invariant forall c :: a < c < b ==> drain.batch[c].slot != slot
    {
      if drain.batch[b].slot == slot { a := b; }
      b := b + 1;
    }
  }

  lemma StepKeeps(s: State, step: Step)
    requires Inv(s) && Enabled(s, step) && (step.Select? ==> s.drains == map[])
    ensures Inv(Apply(s, step))
  {
    match step
    case Commit(t) => CommitKeeps(s, t);
    case Select(d, limit) => SelectKeeps(s, d, limit);
    case Send(d) => SendKeeps(s, d);
    case SendFails(d, reached) => SendFailsKeeps(s, d, reached);
    case Mark(d) => MarkKeeps(s, d);
    case Crash(d) =>
    case _ => TransactionStepKeeps(s, step);
  }

  lemma {:induction false} RunKeeps(steps: seq<Step>)
    requires After(steps, true).Some?
    ensures Inv(After(steps, true).value)
  {
    if steps != [] {
      var n := |steps| - 1;
      RunKeeps(steps[..n]);
      StepKeeps(After(steps[..n], true).value, steps[n]);
    }
  }

  // ----- What a transaction leaves -----

  lemma {:induction false} LastEventOfCons(row: Row, rows: seq<Row>, slot: Slot)
    ensures LastEvent([row] + rows, slot)
         == if LastEvent(rows, slot).Some? then LastEvent(rows, slot) else if row.slot == slot then Some(row) else None
  {
    var all := [row] + rows;
    if rows != [] {
      var n := |rows| - 1;
      assert all[..n + 1] == [row] + rows[..n];
      LastEventOfCons(row, rows[..n], slot);
    } else {
      assert all[..0] == [] && all[|all| - 1] == row;
    }
  }

  /** The current rates after writes, in order: the last of each product. */
  ghost predicate Overwritten(before: map<Slot, Rate>, after: map<Slot, Rate>, writes: seq<Row>) {
    forall slot ::
      if LastEvent(writes, slot).Some? then slot in after && after[slot] == LastEvent(writes, slot).value.rate
      else (slot in after <==> slot in before) && (slot in before ==> after[slot] == before[slot])
  }

  /** The outbox after writes: their rows, and all it had. */
  ghost predicate Inserted(before: Outbox, after: Outbox, writes: seq<Row>) {
    && (forall i :: i in after <==> i in before || i in IdsOf(writes))
    && (forall k :: 0 <= k < |writes| && writes[k].id in after ==> after[writes[k].id] == writes[k])
    && (forall i :: i in before && i in after ==> after[i] == before[i])
  }

  lemma OverwrittenFrom(before: map<Slot, Rate>, after: map<Slot, Rate>, row: Row, rest: seq<Row>)
    requires Overwritten(before[row.slot := row.rate], after, rest)
    ensures Overwritten(before, after, [row] + rest)
  {
    forall slot
      ensures if LastEvent([row] + rest, slot).Some?
        then slot in after && after[slot] == LastEvent([row] + rest, slot).value.rate
        else (slot in after <==> slot in before) && (slot in before ==> after[slot] == before[slot])
    {
      LastEventOfCons(row, rest, slot);
    }
  }

  lemma InsertedFrom(before: Outbox, after: Outbox, row: Row, rest: seq<Row>)
    requires Inserted(before[row.id := row], after, rest) && row.id !in before && row.id !in IdsOf(rest)
    requires forall k :: 0 <= k < |rest| ==> rest[k].id !in before
    ensures Inserted(before, after, [row] + rest)
  {
    var writes := [row] + rest;
    forall i
      ensures i in IdsOf(writes) <==> i == row.id || i in IdsOf(rest)
    {
      if i in IdsOf(rest) {
        var k :| 0 <= k < |rest| && rest[k].id == i;
        assert writes[k + 1].id == i;
      }
      assert writes[0].id == row.id;
    }
    forall k | 0 <= k < |writes| && writes[k].id in after
      ensures after[writes[k].id] == writes[k]
    {
      if k > 0 { assert writes[k] == rest[k - 1]; }
    }
  }

  /** A commit makes exactly the transaction's writes visible: each of its rows is in the outbox, and the current
      rate of every product it wrote is the last one it wrote. */
  lemma {:induction false} CommitLeaves(s: State, t: nat)
    requires t in s.open && TxnNewer(s.outbox, s.nextId, s.open[t])
    ensures var s' := Apply(s, Commit(t));
      Overwritten(s.published, s'.published, s.open[t]) && Inserted(s.outbox, s'.outbox, s.open[t])
      && s'.open == s.open - {t} && s'.delivered == s.delivered && s'.log == s.log && s'.drains == s.drains
    decreases if t in s.open then |s.open[t]| else 0
  {
    if s.open[t] != [] {
      hide Overwritten, Inserted, LastEvent;
      var writes := s.open[t];
      var row, rest := writes[0], writes[1..];
      assert writes == [row] + rest;
      HeadCommits(s.outbox, s.nextId, writes);
      CommitLeaves(CommitRow(s, t), t);
      var s' := Apply(s, Commit(t));
      assert s'.open == s.open - {t};
      OverwrittenFrom(s.published, s'.published, row, rest);
      IdNotLater(writes, row, rest);
      InsertedFrom(s.outbox, s'.outbox, row, rest);
    }
  }

  lemma IdNotLater(writes: seq<Row>, row: Row, rest: seq<Row>)
    requires writes == [row] + rest && forall j, k :: 0 <= j < k < |writes| ==> writes[j].id < writes[k].id
    ensures row.id !in IdsOf(rest)
  {
    assert forall k :: 0 <= k < |rest| ==> rest[k] == writes[k + 1] && writes[0].id < writes[k + 1].id;
  }

  /** Nothing but a commit changes a current rate or the outbox; a rollback leaves no trace but a gap in the ids. */
  lemma OnlyCommitsPublish(s: State, step: Step)
    requires Enabled(s, step) && !step.Commit?
    ensures var s' := Apply(s, step);
      s'.published == s.published && s'.outbox == s.outbox
      && (step.Rollback? ==> s' == s.(open := s.open - {step.txn}))
  {
  }

  /** Whatever is under way can fail at any point: a transaction can roll back, a drain can die, and a publish can
      fail whether or not it reached Redis. */
  lemma AnythingMayFail(s: State, t: nat, d: nat, reached: bool)
    ensures t in s.open ==> Enabled(s, Rollback(t))
    ensures d in s.drains ==> Enabled(s, Crash(d))
    ensures Enabled(s, Send(d)) ==> Enabled(s, SendFails(d, reached))
    ensures t !in s.open ==> Enabled(s, Begin(t))
  {
  }

  /** A pass reads as many pending rows as its limit allows, the limit held between 1 and 5000. */
  lemma PassSize(s: State, limit: int)
    ensures |SelectBatch(s, limit)| ==
      var most := if limit <= 1 then 1 else if limit >= 5000 then 5000 else limit;
      if most < |Pending(s)| then most else |Pending(s)|
  {
    LowestIsPrefix(Pending(s), Clamp(limit));
  }

  // ----- What customers see -----

  /** The browser's map: every rate event of one tenant's channel, last write wins per product. */
  function BrowserMap(events: seq<Row>, tenant: string): map<string, Rate> {
    if events == [] then map[]
    else
      var earlier := BrowserMap(events[..|events| - 1], tenant);
      var event := events[|events| - 1];
      if event.slot.tenant == tenant then earlier[event.slot.productKey := event.rate] else earlier
  }

  /** An event of the product came over the channel since the browser joined. */
  predicate HeardSince(log: seq<Row>, joined: nat, slot: Slot) {
    exists k :: joined <= k < |log| && log[k].slot == slot
  }

  lemma HeardSinceSplits(log: seq<Row>, joined: nat, slot: Slot)
    requires joined < |log|
    ensures HeardSince(log, joined, slot) <==>
      log[|log| - 1].slot == slot || HeardSince(log[..|log| - 1], joined, slot)
  {
    var n := |log| - 1;
    if HeardSince(log, joined, slot) {
      var k :| joined <= k < |log| && log[k].slot == slot;
      assert k < n ==> log[..n][k] == log[k];
    }
    if HeardSince(log[..n], joined, slot) {
      var k :| joined <= k < n && log[..n][k].slot == slot;
      assert log[k].slot == slot;
    }
  }

  /** A browser holds a rate for exactly the products it heard of since it joined, and each is the rate of the
      last event of the whole log. */
  lemma {:induction false} BrowserShowsLastEvent(log: seq<Row>, joined: nat, tenant: string, key: string)
    requires joined <= |log|
    ensures key in BrowserMap(log[joined..], tenant) <==> HeardSince(log, joined, Slot(tenant, key))
    ensures HeardSince(log, joined, Slot(tenant, key)) ==>
      LastEvent(log, Slot(tenant, key)).Some?
      && BrowserMap(log[joined..], tenant)[key] == LastEvent(log, Slot(tenant, key)).value.rate
  {
    var slot := Slot(tenant, key);
    if joined == |log| {
      assert BrowserMap(log[joined..], tenant) == map[] && !HeardSince(log, joined, slot);
    } else {
      var n := |log| - 1;
      assert log[joined..][..|log[joined..]| - 1] == log[..n][joined..];
      assert log[joined..][|log[joined..]| - 1] == log[n];
      BrowserShowsLastEvent(log[..n], joined, tenant, key);
      HeardSinceSplits(log, joined, slot);
      hide HeardSince;
    }
  }

  /** Convergence, product by product: over every run with crashes, failed publishes and interleaved
      commits, as long as drains do not overlap, a product with no row waiting was last announced at its
      current rate, and every browser that an event of it reached since joining shows it, at that rate. */
  lemma Convergence(steps: seq<Step>, slot: Slot, joined: nat)
    requires After(steps, true).Some?
    requires var s := After(steps, true).value;
      slot in s.published && NothingPending(s.outbox, s.delivered, slot) && joined <= |s.log|
    ensures var s := After(steps, true).value;
      LastEvent(s.log, slot).Some? && LastEvent(s.log, slot).value.rate == s.published[slot]
      && (HeardSince(s.log, joined, slot) <==> slot.productKey in BrowserMap(s.log[joined..], slot.tenant))
      && (HeardSince(s.log, joined, slot) ==>
            BrowserMap(s.log[joined..], slot.tenant)[slot.productKey] == s.published[slot])
  {
    RunKeeps(steps);
    var s := After(steps, true).value;
    assert CarriesCurrent(s.published, s.outbox, slot);
    var i :| IsLatest(s.outbox, slot, i) && s.outbox[i].rate == s.published[slot];
    assert ConvergedAt(s.outbox, s.delivered, s.log, slot);
    BrowserShowsLastEvent(s.log, joined, slot.tenant, slot.productKey);
  }

  /** Nothing is announced that was not committed, and rows are marked in order, product by product. */
  lemma OnlyCommittedInOrder(steps: seq<Step>)
    requires After(steps, true).Some?
    ensures var s := After(steps, true).value;
      (forall e :: e in s.log ==> e.id in s.outbox && s.outbox[e.id] == e)
      && s.delivered <= s.outbox.Keys
      && (forall i, j :: i in s.delivered && j in Pending(s) && s.outbox[i].slot == s.outbox[j].slot ==> i < j)
  {
    RunKeeps(steps);
  }

  // ----- Any number of drains at once -----

  /** Every delivered row has been announced. */
  ghost predicate DeliveredHeard(outbox: Outbox, delivered: set<nat>, log: seq<Row>) {
    forall i :: i in delivered && i in outbox ==> outbox[i] in log
  }

  /** A drain's batch is made of committed rows, and what it sent has been announced. */
  ghost predicate DrainHeard(outbox: Outbox, log: seq<Row>, drain: Drain) {
    && drain.sent <= |drain.batch|
    && (forall k :: 0 <= k < |drain.batch| ==> drain.batch[k].id in outbox && outbox[drain.batch[k].id] == drain.batch[k])
    && (forall k :: 0 <= k < drain.sent ==> drain.batch[k] in log)
  }

  /** What holds however many drains are open. */
  ghost predicate AnyInv(s: State) {
    && RowsKnown(s.outbox, s.nextId, s.delivered, s.log)
    && Locks(s.open, s.outbox, s.nextId)
    && Current(s.published, s.outbox)
    && DeliveredHeard(s.outbox, s.delivered, s.log)
    && (forall d :: d in s.drains ==> DrainHeard(s.outbox, s.log, s.drains[d]))
  }

  lemma AnyTransactionStepKeeps(s: State, step: Step)
    requires AnyInv(s) && Enabled(s, step) && (step.Begin? || step.PublishOne? || step.Rollback?)
    ensures AnyInv(Apply(s, step))
  {
    hide Current, DeliveredHeard, DrainHeard, TxnNewer, Apart;
    var s' := Apply(s, step);
    match step
    case Begin(t) => assert s'.open[t] == []; FreshIsTrivial(s);
    case Rollback(t) =>
    case PublishOne(t, slot, rate) => AppendKeepsLocks(s, t, Row(s.nextId, slot, rate));
  }

  lemma AnyCommitRowKeeps(s: State, t: nat)
    requires AnyInv(s) && t in s.open && s.open[t] != []
    ensures AnyInv(CommitRow(s, t))
  {
    hide Current, Locks;
    assert TxnNewer(s.outbox, s.nextId, s.open[t]) by { LocksGive(s, t); }
    NewestKeepsLocks(s, t);
    NewestKeepsCurrent(s.published, s.outbox, s.open[t][0]);
  }

  lemma {:induction false} AnyCommitKeeps(s: State, t: nat)
    requires AnyInv(s) && t in s.open
    ensures AnyInv(CommitAll(s, t))
    decreases |s.open[t]|
  {
    if s.open[t] != [] {
      hide AnyInv;
      AnyCommitRowKeeps(s, t);
      AnyCommitKeeps(CommitRow(s, t), t);
    }
  }

  lemma AnyDrainStepKeeps(s: State, step: Step)
    requires AnyInv(s) && Enabled(s, step)
    requires step.Select? || step.Send? || step.SendFails? || step.Mark? || step.Crash?
    ensures AnyInv(Apply(s, step))
  {
    hide Current, Locks, PendingRows;
    match step
    case Select(d, limit) => BatchIsSound(s.outbox, s.delivered, limit);
    case Send(d) => assert DrainHeard(s.outbox, s.log, s.drains[d]);
    case SendFails(d, reached) => assert DrainHeard(s.outbox, s.log, s.drains[d]);
    case Mark(d) => assert DrainHeard(s.outbox, s.log, s.drains[d]);
    case Crash(d) =>
  }

  lemma {:induction false} AnyRunKeeps(steps: seq<Step>)
    requires After(steps, false).Some?
    ensures AnyInv(After(steps, false).value)
  {
    if steps != [] {
      var n := |steps| - 1;
      AnyRunKeeps(steps[..n]);
      hide AnyInv, Apply;
      AnyStepKeeps(After(steps[..n], false).value, steps[n]);
    }
  }

  lemma AnyStepKeeps(s: State, step: Step)
    requires AnyInv(s) && Enabled(s, step)
    ensures AnyInv(Apply(s, step))
  {
    hide AnyInv;
    match step
    case Commit(t) => AnyCommitKeeps(s, t);
    case Begin(_) => AnyTransactionStepKeeps(s, step);
    case PublishOne(_, _, _) => AnyTransactionStepKeeps(s, step);
    case Rollback(_) => AnyTransactionStepKeeps(s, step);
    case _ => AnyDrainStepKeeps(s, step);
  }

  lemma {:induction false} LastEventIsIn(log: seq<Row>, slot: Slot)
    ensures LastEvent(log, slot).Some? ==> LastEvent(log, slot).value in log && LastEvent(log, slot).value.slot == slot
    ensures LastEvent(log, slot).None? ==> forall e :: e in log ==> e.slot != slot
  {
    if log != [] {
      LastEventIsIn(log[..|log| - 1], slot);
    }
  }

  /** A product's last announcement came after one of a later row. */
  ghost predicate EndsLate(log: seq<Row>, slot: Slot) {
    LastEvent(log, slot).Some? && exists e :: e in log && e.slot == slot && e.id > LastEvent(log, slot).value.id
  }

  /** Over every run, with any number of drains at once: a product with no row waiting was last announced at its
      newest row, and so at its current rate, exactly when its last announcement did not come after one of a
      later row. */
  lemma ConvergesExactlyWhen(steps: seq<Step>, slot: Slot)
    requires After(steps, false).Some?
    requires var s := After(steps, false).value; slot in s.published && NothingPending(s.outbox, s.delivered, slot)
    ensures var s := After(steps, false).value;
      LastEvent(s.log, slot).Some?
      && (IsLatest(s.outbox, slot, LastEvent(s.log, slot).value.id) <==> !EndsLate(s.log, slot))
      && (!EndsLate(s.log, slot) ==> LastEvent(s.log, slot).value.rate == s.published[slot])
  {
    hide After, Locks, EndsLate, LastEvent;
    AnyRunKeeps(steps);
    var s := After(steps, false).value;
    assert CarriesCurrent(s.published, s.outbox, slot);
    LastIsLatestExactlyWhen(s.outbox, s.nextId, s.delivered, s.log, slot, s.published[slot]);
  }

  lemma LastIsLatestExactlyWhen(outbox: Outbox, nextId: nat, delivered: set<nat>, log: seq<Row>, slot: Slot, rate: Rate)
    requires RowsKnown(outbox, nextId, delivered, log) && DeliveredHeard(outbox, delivered, log)
    requires NothingPending(outbox, delivered, slot)
    requires exists i: nat :: IsLatest(outbox, slot, i) && outbox[i].rate == rate
    ensures LastEvent(log, slot).Some?
    ensures IsLatest(outbox, slot, LastEvent(log, slot).value.id) <==> !EndsLate(log, slot)
    ensures !EndsLate(log, slot) ==> LastEvent(log, slot).value.rate == rate
  {
    hide LastEvent;
    var i: nat :| IsLatest(outbox, slot, i) && outbox[i].rate == rate;
    assert outbox[i] in log;
    LastEventIsIn(log, slot);
    var last := LastEvent(log, slot).value;
    assert last.id in outbox && outbox[last.id] == last;
    if !EndsLate(log, slot) {
      forall j | j in outbox && outbox[j].slot == slot
        ensures j <= last.id
      {
        assert outbox[j] in log && outbox[j].id == j;
      }
      assert i <= last.id && last.id <= i;
    }
  }

  // ----- Overlapping drains -----

  lemma AfterStep(steps: seq<Step>, step: Step, s: State, s': State)
    requires After(steps, false) == Some(s) && Enabled(s, step) && Apply(s, step) == s'
    ensures After(steps + [step], false) == Some(s')
  {
    hide Apply, Enabled;
    assert (steps + [step])[..|steps|] == steps;
  }

  lemma OneRowCommits(s: State, t: nat, row: Row)
    requires s.open == map[t := [row]]
    ensures CommitAll(s, t)
         == s.(published := s.published[row.slot := row.rate], outbox := s.outbox[row.id := row], open := map[])
  {
    var s' := CommitRow(s, t);
    assert s'.open == map[t := []];
    assert CommitAll(s', t).open == map[];
  }

  /** One rate priced and committed by a transaction of its own. */
  lemma AfterPriced(steps: seq<Step>, t: nat, slot: Slot, rate: Rate, s: State)
    requires After(steps, false) == Some(s) && s.open == map[]
    ensures After(steps + [Begin(t)] + [PublishOne(t, slot, rate)] + [Commit(t)], false)
         == Some(s.(published := s.published[slot := rate],
                    outbox := s.outbox[s.nextId := Row(s.nextId, slot, rate)],
                    nextId := s.nextId + 1))
  {
    hide After, CommitAll;
    var row := Row(s.nextId, slot, rate);
    var s1 := s.(open := map[t := []]);
    AfterStep(steps, Begin(t), s, s1);
    var s2 := s.(open := map[t := [row]], nextId := s.nextId + 1);
    assert s1.open[t] + [row] == [row];
    assert Apply(s1, PublishOne(t, slot, rate)).open == map[t := [row]];
    AfterStep(steps + [Begin(t)], PublishOne(t, slot, rate), s1, s2);
    OneRowCommits(s2, t, row);
    AfterStep(steps + [Begin(t)] + [PublishOne(t, slot, rate)], Commit(t), s2, CommitAll(s2, t));
  }

  /** Two publishers are not harmless: a second drain may announce and mark a newer rate between the first
      one's read and its publish. Nothing is pending afterwards, and every browser shows the old rate. */
  lemma OverlappingDrainsCanLeaveAnOldRate(slot: Slot, earlier: Rate, later: Rate)
    returns (steps: seq<Step>, s: State)
    ensures After(steps, false) == Some(s)
    ensures Pending(s) == {} && s.drains == map[] && s.open == map[]
    ensures slot in s.published && s.published[slot] == later
    ensures LastEvent(s.log, slot) == Some(Row(0, slot, earlier))
  {
    steps := BothDrainsRead(slot, earlier, later);
    var row0, row1 := Row(0, slot, earlier), Row(1, slot, later);
    var batch0, batch1 := [row0], [row0, row1];
    s := BothRead(slot, earlier, later);

    var s' := s.(log := [row0], drains := map[0 := Drain(batch0, 0, false), 1 := Drain(batch1, 1, false)]);
    AfterStep(steps, Send(1), s, s');
    steps, s := steps + [Send(1)], s';
    s' := s.(log := [row0, row1], drains := map[0 := Drain(batch0, 0, false), 1 := Drain(batch1, 2, false)]);
    AfterStep(steps, Send(1), s, s');
    steps, s := steps + [Send(1)], s';
    assert batch1[..2] == batch1;
    assert IdsOf(batch1) == {0, 1} by { assert batch1[0].id == 0 && batch1[1].id == 1; }
    s' := s.(delivered := {0, 1}, drains := map[0 := Drain(batch0, 0, false)]);
    AfterStep(steps, Mark(1), s, s');
    steps, s := steps + [Mark(1)], s';
    steps, s := SlowDrainFinishes(steps, s, row0);
  }

  lemma SlowDrainFinishes(before: seq<Step>, s0: State, row: Row) returns (steps: seq<Step>, s: State)
    requires After(before, false) == Some(s0) && s0.drains == map[0 := Drain([row], 0, false)]
    requires row.id in s0.delivered
    ensures After(steps, false) == Some(s) && s == s0.(log := s0.log + [row], drains := map[])
  {
    var s1 := s0.(log := s0.log + [row], drains := map[0 := Drain([row], 1, false)]);
    AfterStep(before, Send(0), s0, s1);
    s := s1.(drains := map[]);
    assert s1.delivered + IdsOf([row][..1]) == s1.delivered;
    AfterStep(before + [Send(0)], Mark(0), s1, s);
    steps := before + [Send(0)] + [Mark(0)];
  }

  /** Two rates committed; one drain has read only the first, the other both. */
  function BothRead(slot: Slot, earlier: Rate, later: Rate): State {
    var row0, row1 := Row(0, slot, earlier), Row(1, slot, later);
    State(map[slot := later], map[0 := row0, 1 := row1], {}, 2, map[],
      map[0 := Drain([row0], 0, false), 1 := Drain([row0, row1], 0, false)], [])
  }

  lemma BothDrainsRead(slot: Slot, earlier: Rate, later: Rate) returns (steps: seq<Step>)
    ensures After(steps, false) == Some(BothRead(slot, earlier, later))
  {
    var row0, row1 := Row(0, slot, earlier), Row(1, slot, later);
    AfterPriced([], 0, slot, earlier, INITIAL);
    steps := [] + [Begin(0)] + [PublishOne(0, slot, earlier)] + [Commit(0)];
    var s := State(map[slot := earlier], map[0 := row0], {}, 1, map[], map[], []);

    assert SelectBatch(s, 200) == [row0] by { assert Pending(s) == {0}; LowestOfOne(0, 200); }
    var s' := s.(drains := map[0 := Drain([row0], 0, false)]);
    AfterStep(steps, Select(0, 200), s, s');
    steps, s := steps + [Select(0, 200)], s';

    AfterPriced(steps, 1, slot, later, s);
    steps := steps + [Begin(1)] + [PublishOne(1, slot, later)] + [Commit(1)];
    assert s.published[slot := later] == map[slot := later] && s.outbox[1 := row1] == map[0 := row0, 1 := row1];
    s := s.(published := map[slot := later], outbox := map[0 := row0, 1 := row1], nextId := 2);

    assert SelectBatch(s, 200) == [row0, row1] by { assert Pending(s) == {0, 1}; LowestOfTwo(0, 1, 200); }
    AfterStep(steps, Select(1, 200), s, BothRead(slot, earlier, later));
    steps := steps + [Select(1, 200)];
  }

  lemma LowestOfOne(i: nat, n: nat)
    requires n > 0
    ensures Lowest({i}, n) == [i]
  {
    assert Min({i}) == i;
    assert {i} - {i} == {};
  }

  lemma LowestOfTwo(i: nat, j: nat, n: nat)
    requires n > 1 && i < j
    ensures Lowest({i, j}, n) == [i, j]
  {
    assert Min({i, j}) == i;
    assert {i, j} - {i} == {j};
    LowestOfOne(j, n - 1);
  }

  // ----- A drain that is not interrupted -----

  /** How many of `available` rows are published before Redis goes away after `capacity` publishes. */
  function Sent(available: nat, capacity: nat): nat { if capacity < available then capacity else available }

  /** One whole pass: the batch up to the first failure is announced in order and marked. */
  function DrainOnce(s: State, limit: int, capacity: nat, reachedRedis: bool): State {
    var batch := SelectBatch(s, limit);
    var sent := Sent(|batch|, capacity);
    s.(log := s.log + batch[..sent] + (if sent < |batch| && reachedRedis then [batch[sent]] else []),
       delivered := s.delivered + IdsOf(batch[..sent]))
  }

  lemma ExclusiveStep(steps: seq<Step>, step: Step, s: State)
    requires After(steps, true) == Some(s) && Enabled(s, step) && (step.Select? ==> s.drains == map[])
    ensures After(steps + [step], true) == Some(Apply(s, step))
  {
    assert (steps + [step])[..|steps|] == steps;
  }

  lemma {:induction false} SendsRun(before: seq<Step>, s: State, batch: seq<Row>, from: nat, to: nat)
    returns (steps: seq<Step>)
    requires from <= to <= |batch| && s.drains == map[0 := Drain(batch, from, false)]
    requires After(before, true) == Some(s)
    ensures After(steps, true)
         == Some(s.(log := s.log + batch[from..to], drains := map[0 := Drain(batch, to, false)]))
    decreases |batch| - from
  {
    hide After, PendingRows, CommitAll;
    if from == to {
      steps := before;
      assert s.log + batch[from..to] == s.log;
    } else {
      ExclusiveStep(before, Send(0), s);
      var s' := s.(log := s.log + [batch[from]], drains := map[0 := Drain(batch, from + 1, false)]);
      assert Apply(s, Send(0)) == s';
      steps := SendsRun(before + [Send(0)], s', batch, from + 1, to);
      assert s.log + [batch[from]] + batch[from + 1..to] == s.log + batch[from..to];
    }
  }

  /** The uninterrupted pass is one of the protocol's runs, so everything proved of runs holds of it. */
  lemma DrainOnceIsARun(before: seq<Step>, s: State, limit: int, capacity: nat, reached: bool)
    returns (steps: seq<Step>)
    requires After(before, true) == Some(s) && s.drains == map[]
    ensures After(steps, true) == Some(DrainOnce(s, limit, capacity, reached))
  {
    hide PendingRows;
    var batch := SelectBatch(s, limit);
    var sent := Sent(|batch|, capacity);
    ExclusiveStep(before, Select(0, limit), s);
    var s1 := s.(drains := map[0 := Drain(batch, 0, false)]);
    assert Apply(s, Select(0, limit)) == s1;
    steps := SendsRun(before + [Select(0, limit)], s1, batch, 0, sent);
    assert batch[0..sent] == batch[..sent];
    steps := PassEnds(steps, s.(log := s.log + batch[..sent]), batch, sent, reached);
  }

  lemma PassEnds(before: seq<Step>, s: State, batch: seq<Row>, sent: nat, reached: bool) returns (steps: seq<Step>)
    requires s.drains == map[] && sent <= |batch|
    requires After(before, true) == Some(s.(drains := map[0 := Drain(batch, sent, false)]))
    ensures After(steps, true)
         == Some(s.(log := s.log + (if sent < |batch| && reached then [batch[sent]] else []),
                    delivered := s.delivered + IdsOf(batch[..sent])))
  {
    hide After, IdsOf;
    steps := before;
    var s1 := s.(drains := map[0 := Drain(batch, sent, false)]);
    assert s.log + [] == s.log;
    if sent < |batch| {
      ExclusiveStep(steps, SendFails(0, reached), s1);
      steps := steps + [SendFails(0, reached)];
      s1 := Apply(s1, SendFails(0, reached));
      assert s1.drains == map[0 := Drain(batch, sent, true)];
    }
    ExclusiveStep(steps, Mark(0), s1);
    steps := steps + [Mark(0)];
    assert Apply(s1, Mark(0)).drains == map[];
  }

  function Drains(s: State, limit: int, passes: nat): State {
    if passes == 0 then s else DrainOnce(Drains(s, limit, passes - 1), limit, Clamp(limit), false)
  }

  /** While Redis answers, passes empty any backlog: each takes a full batch or everything there is. */
  lemma {:induction false} PassesEmptyTheBacklog(s: State, limit: int, passes: nat)
    requires s.delivered <= s.outbox.Keys && forall i :: i in s.outbox ==> s.outbox[i].id == i
    ensures Drains(s, limit, passes).outbox == s.outbox
    ensures Drains(s, limit, passes).delivered <= s.outbox.Keys
    ensures |Pending(Drains(s, limit, passes))|
         == if passes * Clamp(limit) >= |Pending(s)| then 0 else |Pending(s)| - passes * Clamp(limit)
  {
    hide DrainOnce, Pending, Clamp;
    if passes > 0 {
      PassesEmptyTheBacklog(s, limit, passes - 1);
      PassTakesABatch(Drains(s, limit, passes - 1), limit);
      OneMorePass(passes, Clamp(limit));
    }
  }

  lemma OneMorePass(passes: nat, size: nat)
    requires passes > 0
    ensures passes * size == (passes - 1) * size + size
  {
  }

  lemma PassTakesABatch(s: State, limit: int)
    requires s.delivered <= s.outbox.Keys && forall i :: i in s.outbox ==> s.outbox[i].id == i
    ensures var s' := DrainOnce(s, limit, Clamp(limit), false);
      s'.outbox == s.outbox && s'.delivered <= s.outbox.Keys
      && |Pending(s')| == if Clamp(limit) >= |Pending(s)| then 0 else |Pending(s)| - Clamp(limit)
  {
    var low := Lowest(Pending(s), Clamp(limit));
    LowestIsPrefix(Pending(s), Clamp(limit));
    var batch := SelectBatch(s, limit);
    assert batch[..|batch|] == batch;
    forall k | 0 <= k < |batch|
      ensures batch[k].id == low[k]
    {
    }
    DistinctIds(batch, low);
    var s' := DrainOnce(s, limit, Clamp(limit), false);
    assert s'.delivered == s.delivered + IdsOf(batch);
    assert Pending(s') == Pending(s) - IdsOf(batch);
  }

  lemma {:induction false} DistinctIds(batch: seq<Row>, ids: seq<nat>)
    requires |batch| == |ids| && forall k :: 0 <= k < |ids| ==> batch[k].id == ids[k]
    requires forall j, k :: 0 <= j < k < |ids| ==> ids[j] < ids[k]
    ensures |IdsOf(batch)| == |ids|
  {
    if batch == [] {
      assert IdsOf(batch) == {};
    } else {
      var n := |batch| - 1;
      DistinctIds(batch[..n], ids[..n]);
      assert ids[n] !in IdsOf(batch[..n]);
      forall i | i in IdsOf(batch)
        ensures i in IdsOf(batch[..n]) + {ids[n]}
      {
        var k :| 0 <= k < |batch| && batch[k].id == i;
        if k < n { assert batch[..n][k].id == i; }
      }
      forall i | i in IdsOf(batch[..n])
        ensures i in IdsOf(batch)
      {
        var k :| 0 <= k < n && batch[..n][k].id == i;
        assert batch[k].id == i;
      }
      assert IdsOf(batch) == IdsOf(batch[..n]) + {ids[n]};
    }
  }
}
