/** Idempotency keys: what the stored responses guarantee about the transactions of `PricingRules`. */
module ExactlyOnce {
  import opened Outcomes
  import opened PricingRules
  import opened PricingEngine

  /** Commit `i` was made under the key. */
  predicate Under(log: seq<Commitment>, i: int, key: string) {
    0 <= i < |log| && log[i].idem.Some? && log[i].idem.value.key == key
  }

  /** The commit's stored response may have been purged by `now`. */
  predicate Lapsed(c: Commitment, now: int, retention: nat) { c.createdAt + retention < now }

  /** Commits under one key are more than the retention apart: the earlier response had lapsed before the
      later one was stored. */
  ghost predicate Spaced(log: seq<Commitment>, retention: nat) {
    forall i, j, key :: 0 <= i < j && Under(log, i, key) && Under(log, j, key) ==> Lapsed(log[i], log[j].at, retention)
  }

  ghost predicate Latest(log: seq<Commitment>, i: int, key: string) {
    Under(log, i, key) && forall j :: Under(log, j, key) ==> j <= i
  }

  function StoredBy(c: Commitment): Stored
    requires c.idem.Some?
  {
    Stored(c.idem.value.fingerprint, BodyOf(c.change), c.createdAt)
  }

  /** Every commit made under the key has lapsed. */
  ghost predicate AllLapsed(log: seq<Commitment>, key: string, now: int, retention: nat) {
    forall i :: Under(log, i, key) ==> Lapsed(log[i], now, retention)
  }

  ghost predicate KeyIsLatest(keys: map<string, Stored>, log: seq<Commitment>, key: string)
    requires key in keys
  {
    exists i :: Latest(log, i, key) && keys[key] == StoredBy(log[i])
  }

  /** A stored response is that of the key's latest commit; a key that is not stored was never used or has
      lapsed. */
  ghost predicate KeyAccounted(keys: map<string, Stored>, log: seq<Commitment>, key: string, now: int,
      retention: nat) {
    if key in keys then KeyIsLatest(keys, log, key) else AllLapsed(log, key, now, retention)
  }

  ghost predicate KeysAccounted(keys: map<string, Stored>, log: seq<Commitment>, now: int, retention: nat) {
    forall key :: KeyAccounted(keys, log, key, now, retention)
  }

  /** A transaction that has stored its response, uncommitted. */
  ghost predicate TxnStores(keys: map<string, Stored>, log: seq<Commitment>, now: int, txn: Txn, retention: nat) {
    txn.progress.Kept? ==>
      txn.idem.Some? && txn.idem.value.key !in keys && txn.progress.at <= now
      && AllLapsed(log, txn.idem.value.key, txn.progress.at, retention)
  }

  ghost predicate TxnsStore(keys: map<string, Stored>, log: seq<Commitment>, now: int, open: map<nat, Txn>,
      retention: nat) {
    forall t :: t in open ==> TxnStores(keys, log, now, open[t], retention)
  }

  ghost predicate KeysApart(open: map<nat, Txn>) {
    forall t, u :: t in open && u in open && t != u && StoresKey(open[t]) && StoresKey(open[u]) ==>
      open[t].idem.value.key != open[u].idem.value.key
  }

  predicate StoresKey(txn: Txn) { txn.progress.Kept? && txn.idem.Some? }

  ghost predicate Stamped(log: seq<Commitment>, now: int) {
    forall i :: 0 <= i < |log| ==> log[i].at <= now
  }

  /** A replayed answer repeats the body of the key's latest commit so far, made with the same fingerprint. */
  ghost predicate Repeats(log: seq<Commitment>, a: Answer) {
    a.commits <= |log|
    && (a.outcome.Replayed? ==>
          a.idem.Some?
          && exists i :: Latest(log[..a.commits], i, a.idem.value.key) && log[i].idem == a.idem
               && BodyOf(log[i].change) == a.outcome.body)
  }

  ghost predicate AllRepeat(log: seq<Commitment>, answers: seq<Answer>) {
    forall a :: a in answers ==> Repeats(log, a)
  }

  ghost predicate KeyInv(s: State, retention: nat) {
    && Spaced(s.log, retention) && Stamped(s.log, s.now)
    && KeysAccounted(s.keys, s.log, s.now, retention)
    && TxnsStore(s.keys, s.log, s.now, s.open, retention)
    && KeysApart(s.open)
    && AllRepeat(s.log, s.answers)
  }

  // ----- Time and purging -----

  lemma AdvanceKeeps(s: State, ms: nat, retention: nat)
    requires KeyInv(s, retention)
    ensures KeyInv(s.(now := s.now + ms), retention)
  {
    hide Spaced, KeysApart, AllRepeat;
    var later := s.now + ms;
    forall key
      ensures KeyAccounted(s.keys, s.log, key, later, retention)
    {
      assert KeyAccounted(s.keys, s.log, key, s.now, retention);
    }
    forall t | t in s.open
      ensures TxnStores(s.keys, s.log, later, s.open[t], retention)
    {
      assert TxnStores(s.keys, s.log, s.now, s.open[t], retention);
    }
  }

  /** A response that may be purged is that of a key all of whose commits have lapsed. */
  lemma PurgeableHasLapsed(s: State, key: string, cutoff: int, retention: nat)
    requires Spaced(s.log, retention) && Stamped(s.log, s.now)
    requires key in s.keys && KeyIsLatest(s.keys, s.log, key)
    requires cutoff + retention <= s.now && s.keys[key].createdAt < cutoff
    ensures AllLapsed(s.log, key, s.now, retention)
  {
    var i :| Latest(s.log, i, key) && s.keys[key] == StoredBy(s.log[i]);
    forall j | Under(s.log, j, key)
      ensures Lapsed(s.log[j], s.now, retention)
    {
      if j < i {
        assert Lapsed(s.log[j], s.log[i].at, retention);
      }
    }
  }

  lemma PurgeKeeps(s: State, cutoff: int, victims: set<string>, retention: nat)
    requires KeyInv(s, retention) && Enabled(s, Purge(cutoff, victims), retention)
    ensures KeyInv(s.(keys := s.keys - victims), retention)
  {
    hide Spaced, Stamped, KeysApart, AllRepeat, AllLapsed, KeyIsLatest;
    var keys := s.keys - victims;
    forall key
      ensures KeyAccounted(keys, s.log, key, s.now, retention)
    {
      assert KeyAccounted(s.keys, s.log, key, s.now, retention);
      if key in victims {
        PurgeableHasLapsed(s, key, cutoff, retention);
      } else if key in keys {
        StillLatest(s.keys, keys, s.log, key);
      }
    }
    forall t | t in s.open
      ensures TxnStores(keys, s.log, s.now, s.open[t], retention)
    {
      assert TxnStores(s.keys, s.log, s.now, s.open[t], retention);
    }
  }

  lemma StillLatest(keys: map<string, Stored>, keys': map<string, Stored>, log: seq<Commitment>, key: string)
    requires key in keys && key in keys' && keys'[key] == keys[key] && KeyIsLatest(keys, log, key)
    ensures KeyIsLatest(keys', log, key)
  {
  }

  // ----- Lookups and stores -----

  lemma LookupKeeps(s: State, t: nat, retention: nat)
    requires KeyInv(s, retention) && t in s.open && s.open[t].progress.Started?
    ensures KeyInv(LookUp(s, t), retention)
  {
    hide Spaced, Stamped, KeysAccounted, KeyIsLatest, AllLapsed, Repeats;
    var s' := LookUp(s, t);
    if |s'.answers| > |s.answers| {
      var a := Answer(s.open[t].idem, s'.answers[|s.answers|].outcome, |s.log|);
      assert s'.answers == s.answers + [a];
      ReplayRepeats(s, t, a, retention);
    }
  }

  lemma ReplayRepeats(s: State, t: nat, a: Answer, retention: nat)
    requires KeysAccounted(s.keys, s.log, s.now, retention) && t in s.open
    requires LookUp(s, t).answers == s.answers + [a]
    ensures Repeats(s.log, a)
  {
    assert s.log[..|s.log|] == s.log;
    assert a == LookUp(s, t).answers[|s.answers|];
    if a.outcome.Replayed? {
      var key := s.open[t].idem.value.key;
      assert KeyAccounted(s.keys, s.log, key, s.now, retention);
      var i :| Latest(s.log, i, key) && s.keys[key] == StoredBy(s.log[i]);
    }
  }

  lemma StoreKeeps(s: State, t: nat, createdAt: nat, retention: nat)
    requires KeyInv(s, retention) && Enabled(s, Store(t, createdAt), retention)
    ensures KeyInv(StoreResponse(s, t, createdAt), retention)
  {
    hide Spaced, Stamped, KeyIsLatest, AllLapsed;
    var key := s.open[t].idem.value.key;
    assert KeyAccounted(s.keys, s.log, key, s.now, retention);
    assert !KeyContested(s, t, key);
  }

  // ----- Commits -----

  lemma UnderAppend(log: seq<Commitment>, c: Commitment, i: int, key: string)
    ensures Under(log + [c], i, key) <==>
      Under(log, i, key) || (i == |log| && c.idem.Some? && c.idem.value.key == key)
  {
  }

  lemma AppendKeepsSpaced(log: seq<Commitment>, c: Commitment, retention: nat)
    requires Spaced(log, retention) && (c.idem.Some? ==> AllLapsed(log, c.idem.value.key, c.at, retention))
    ensures Spaced(log + [c], retention)
  {
    forall i, j, key | i < j && Under(log + [c], i, key) && Under(log + [c], j, key)
      ensures Lapsed((log + [c])[i], (log + [c])[j].at, retention)
    {
      UnderAppend(log, c, i, key);
      UnderAppend(log, c, j, key);
    }
  }

  lemma AppendKeepsOthers(keys: map<string, Stored>, log: seq<Commitment>, c: Commitment, key: string, now: int,
      retention: nat)
    requires KeyAccounted(keys, log, key, now, retention) && (c.idem.Some? ==> c.idem.value.key != key)
    ensures KeyAccounted(keys, log + [c], key, now, retention)
  {
    assert forall i :: Under(log + [c], i, key) <==> Under(log, i, key);
    if key in keys {
      var i :| Latest(log, i, key) && keys[key] == StoredBy(log[i]);
      assert Latest(log + [c], i, key);
    }
  }

  lemma CommitAccounts(s: State, c: Commitment, retention: nat)
    requires KeysAccounted(s.keys, s.log, s.now, retention)
    ensures KeysAccounted(Installed(s.keys, c), s.log + [c], s.now, retention)
  {
    hide KeyAccounted;
    forall key
      ensures KeyAccounted(Installed(s.keys, c), s.log + [c], key, s.now, retention)
    {
      assert KeyAccounted(s.keys, s.log, key, s.now, retention);
      if c.idem.Some? && key == c.idem.value.key {
        OwnKeyIsLatest(s.keys, s.log, c, s.now, retention);
      } else {
        AppendKeepsOthers(s.keys, s.log, c, key, s.now, retention);
        SameEntryAccounted(s.keys, Installed(s.keys, c), s.log + [c], key, s.now, retention);
      }
    }
  }

  lemma SameEntryAccounted(keys: map<string, Stored>, keys': map<string, Stored>, log: seq<Commitment>, key: string,
      now: int, retention: nat)
    requires KeyAccounted(keys, log, key, now, retention)
    requires (key in keys) == (key in keys') && (key in keys ==> keys[key] == keys'[key])
    ensures KeyAccounted(keys', log, key, now, retention)
  {
  }

  /** The stored responses once the commit is visible. */
  function Installed(keys: map<string, Stored>, c: Commitment): map<string, Stored> {
    if c.idem.None? then keys else keys[c.idem.value.key := StoredBy(c)]
  }

  lemma OwnKeyIsLatest(keys: map<string, Stored>, log: seq<Commitment>, c: Commitment, now: int, retention: nat)
    requires c.idem.Some?
    ensures KeyAccounted(Installed(keys, c), log + [c], c.idem.value.key, now, retention)
  {
    assert Latest(log + [c], |log|, c.idem.value.key);
  }

  lemma OtherTxnStores(s: State, c: Commitment, txn: Txn, retention: nat)
    requires TxnStores(s.keys, s.log, s.now, txn, retention)
    requires StoresKey(txn) && c.idem.Some? ==> txn.idem.value.key != c.idem.value.key
    ensures TxnStores(Installed(s.keys, c), s.log + [c], s.now, txn, retention)
  {
    if txn.progress.Kept? {
      var key := txn.idem.value.key;
      forall i | Under(s.log + [c], i, key)
        ensures Lapsed((s.log + [c])[i], txn.progress.at, retention)
      {
        UnderAppend(s.log, c, i, key);
      }
    }
  }

  lemma AppendKeepsAnswers(log: seq<Commitment>, c: Commitment, answers: seq<Answer>)
    requires AllRepeat(log, answers)
    ensures AllRepeat(log + [c], answers)
  {
    forall a | a in answers
      ensures Repeats(log + [c], a)
    {
      assert Repeats(log, a);
      assert (log + [c])[..a.commits] == log[..a.commits];
      if a.outcome.Replayed? {
        var i :| Latest(log[..a.commits], i, a.idem.value.key) && log[i].idem == a.idem
          && BodyOf(log[i].change) == a.outcome.body;
        assert (log + [c])[i] == log[i];
      }
    }
  }

  lemma CommitKeeps(s: State, t: nat, retention: nat)
    requires KeyInv(s, retention) && Enabled(s, Commit(t), retention)
    ensures KeyInv(Install(s, t, ToCommitment(s.open[t])), retention)
  {
    hide Spaced, AllLapsed, KeysAccounted, AllRepeat, TxnStores;
    var c := ToCommitment(s.open[t]);
    var s' := Install(s, t, c);
    assert TxnStores(s.keys, s.log, s.now, s.open[t], retention);
    CommittedKey(s, t, retention);
    assert s'.keys == Installed(s.keys, c);
    AppendKeepsSpaced(s.log, c, retention);
    CommitAccounts(s, c, retention);
    AppendKeepsAnswers(s.log, c, s.answers);
    forall u | u in s'.open
      ensures TxnStores(s'.keys, s'.log, s'.now, s'.open[u], retention)
    {
      assert TxnStores(s.keys, s.log, s.now, s.open[u], retention);
      OtherTxnStores(s, c, s.open[u], retention);
    }
  }

  lemma CommittedKey(s: State, t: nat, retention: nat)
    requires Enabled(s, Commit(t), retention) && TxnStores(s.keys, s.log, s.now, s.open[t], retention)
    ensures var c := ToCommitment(s.open[t]);
      c.at <= s.now
      && (c.idem.Some? ==>
            StoresKey(s.open[t]) && c.idem == s.open[t].idem && AllLapsed(s.log, c.idem.value.key, c.at, retention))
  {
  }

  // ----- Over whole runs -----

  /** A step that stores no response and commits nothing leaves keys, log and answers to replays alone. */
  lemma OtherStepKeeps(s: State, step: Step, retention: nat)
    requires KeyInv(s, retention) && Enabled(s, step, retention)
    requires step.Begin? || step.Load? || step.Write? || step.Audit? || step.Abort?
    ensures KeyInv(Apply(s, step, retention), retention)
  {
    hide Spaced, Stamped, KeysAccounted, KeyInv, Apply, AllRepeat;
    OtherStepShape(s, step, retention);
    SameShapeKeeps(s, Apply(s, step, retention), retention);
  }

  /** The transactions that have stored a response are among those that had, and no answer is a replay. */
  ghost predicate SameShape(s: State, s': State) {
    && s'.now == s.now && s'.keys == s.keys && s'.log == s.log
    && (forall t :: t in s'.open && s'.open[t].progress.Kept? ==> t in s.open && s.open[t] == s'.open[t])
    && |s'.answers| >= |s.answers| && s'.answers[..|s.answers|] == s.answers
    && (forall i :: |s.answers| <= i < |s'.answers| ==>
          !s'.answers[i].outcome.Replayed? && s'.answers[i].commits == |s.log|)
  }

  lemma OtherStepShape(s: State, step: Step, retention: nat)
    requires Enabled(s, step, retention)
    requires step.Begin? || step.Load? || step.Write? || step.Audit? || step.Abort?
    ensures SameShape(s, Apply(s, step, retention))
  {
    hide HasActive, CanWrite, WriteRow;
    if step.Write? {
      WriteShape(s, step.t, step.freshId);
    }
  }

  lemma WriteShape(s: State, t: nat, freshId: nat)
    requires t in s.open && s.open[t].progress.Loaded? && CanWrite(s, t, freshId)
    ensures SameShape(s, WriteRow(s, t, freshId))
  {
    hide HasActive, RowLocked, ProductContested, Matches;
  }

  lemma SameShapeKeeps(s: State, s': State, retention: nat)
    requires KeyInv(s, retention) && SameShape(s, s')
    ensures KeyInv(s', retention)
  {
    hide Spaced, Stamped, KeysAccounted, AllLapsed;
    forall a | a in s'.answers
      ensures Repeats(s'.log, a)
    {
      var i :| 0 <= i < |s'.answers| && s'.answers[i] == a;
      if i < |s.answers| {
        assert s'.answers[..|s.answers|][i] == s.answers[i] && s.answers[i] in s.answers;
      }
    }
    forall t | t in s'.open
      ensures TxnStores(s'.keys, s'.log, s'.now, s'.open[t], retention)
    {
      if s'.open[t].progress.Kept? {
        assert TxnStores(s.keys, s.log, s.now, s.open[t], retention);
      }
    }
  }

  lemma StepKeepsKeys(s: State, step: Step, retention: nat)
    requires KeyInv(s, retention) && Enabled(s, step, retention)
    ensures KeyInv(Apply(s, step, retention), retention)
  {
    hide KeyInv, LookUp, StoreResponse, Install, ToCommitment, LoadBefore, WriteRow;
    match step
    case Advance(ms) => AdvanceKeeps(s, ms, retention);
    case Lookup(t) => LookupKeeps(s, t, retention);
    case Store(t, createdAt) => StoreKeeps(s, t, createdAt, retention);
    case Commit(t) => CommitKeeps(s, t, retention);
    case Purge(cutoff, victims) => PurgeKeeps(s, cutoff, victims, retention);
    case _ => OtherStepKeeps(s, step, retention);
  }

  lemma InitiallyKept(retention: nat)
    ensures KeyInv(INITIAL, retention)
  {
    assert forall key :: KeyAccounted(INITIAL.keys, INITIAL.log, key, INITIAL.now, retention);
  }

  lemma {:induction false} RunKeepsKeys(steps: seq<Step>, retention: nat)
    requires After(steps, retention).Some?
    ensures KeyInv(After(steps, retention).value, retention)
  {
    hide KeyInv, Apply;
    if steps == [] {
      InitiallyKept(retention);
    } else {
      var n := |steps| - 1;
      RunKeepsKeys(steps[..n], retention);
      StepKeepsKeys(After(steps[..n], retention).value, steps[n], retention);
    }
  }

  /** Over every run of any number of racing or repeated requests and purges: a second commit under one key
      stored its response only after the first one's retention had passed, and every replay repeated the
      body of the key's latest commit, which was made for the same request. */
  lemma AtMostOncePerRetention(steps: seq<Step>, retention: nat)
    requires After(steps, retention).Some?
    ensures var s := After(steps, retention).value;
      (forall i, j, key :: i < j && Under(s.log, i, key) && Under(s.log, j, key) ==>
         s.log[i].createdAt + retention < s.log[j].at <= s.now)
      && (forall a :: a in s.answers && a.outcome.Replayed? ==>
            a.idem.Some? && a.commits <= |s.log|
            && exists i :: Latest(s.log[..a.commits], i, a.idem.value.key) && s.log[i].idem == a.idem
                 && BodyOf(s.log[i].change) == a.outcome.body)
  {
    hide Apply, KeysAccounted, TxnsStore, KeysApart;
    RunKeepsKeys(steps, retention);
    var s := After(steps, retention).value;
    forall i, j, key | i < j && Under(s.log, i, key) && Under(s.log, j, key)
      ensures s.log[i].createdAt + retention < s.log[j].at <= s.now
    {
      assert Lapsed(s.log[i], s.log[j].at, retention);
    }
  }

  /** While a commit's retention lasts its key is stored, whatever was purged, and a retry is answered from
      it: the same request with the first body, a different one with a refusal. Nothing else changes. */
  lemma RetriesAreAnswered(steps: seq<Step>, retention: nat, t: nat, i: int, key: string)
    requires After(steps, retention).Some?
    requires var s := After(steps, retention).value;
      t in s.open && s.open[t].progress.Started? && s.open[t].idem.Some? && s.open[t].idem.value.key == key
      && Under(s.log, i, key) && s.now <= s.log[i].createdAt + retention
    ensures var s := After(steps, retention).value;
      var outcome :=
        if s.open[t].idem == s.log[i].idem then Replayed(BodyOf(s.log[i].change)) else Refused(KeyReused);
      Apply(s, Lookup(t), retention)
        == s.(open := s.open - {t}, answers := s.answers + [Answer(s.open[t].idem, outcome, |s.log|)])
  {
    hide Spaced, Stamped, TxnsStore, KeysApart, AllRepeat;
    RunKeepsKeys(steps, retention);
    RetainedIsStored(After(steps, retention).value, i, key, retention);
  }

  lemma RetainedIsStored(s: State, i: int, key: string, retention: nat)
    requires KeyInv(s, retention) && Under(s.log, i, key) && s.now <= s.log[i].createdAt + retention
    ensures key in s.keys && s.keys[key] == StoredBy(s.log[i])
  {
    assert !Lapsed(s.log[i], s.now, retention);
    assert KeyAccounted(s.keys, s.log, key, s.now, retention);
    var j :| Latest(s.log, j, key) && s.keys[key] == StoredBy(s.log[j]);
    assert s.log[j].at <= s.now && !Lapsed(s.log[i], s.log[j].at, retention);
  }

  // ----- A keyed request and its retry -----

  /** A request on its own, up to its audit row. */
  lemma Mutates(before: seq<Step>, s0: State, t: nat, op: Op, idem: Idem, freshId: nat, retention: nat)
    returns (steps: seq<Step>, s: State)
    requires After(before, retention) == Some(s0) && s0.open == map[] && ValidOp(op) && op.Create?
    requires ValidAdjustment(Requested(op.pricing.amount)) && idem.key !in s0.keys && freshId !in s0.rules
    requires forall id :: id in s0.rules && s0.rules[id].active ==> s0.rules[id].product != op.product
    ensures After(steps, retention) == Some(s) && s.open.Keys == {t} && s.keys == s0.keys && s.now == s0.now
    ensures s.log == s0.log && s.rules == s0.rules
    ensures s.open[t].idem == Some(idem) && s.open[t].startedAt == s0.now && s.open[t].progress.Audited?
    ensures var c := s.open[t].progress.change;
      c.id == freshId && Applies(c.newValue, op.pricing) && c.newValue.product == op.product && c.newValue.active
  {
    hide After, RowLocked, ProductContested;
    steps, s := before, s0;
    StepTaken(steps, Begin(t, op, Some(idem)), s, retention);
    steps, s := steps + [Begin(t, op, Some(idem))], Apply(s, Begin(t, op, Some(idem)), retention);
    StepTaken(steps, Lookup(t), s, retention);
    steps, s := steps + [Lookup(t)], Apply(s, Lookup(t), retention);
    LoadOutcome(s, t);
    StepTaken(steps, Load(t), s, retention);
    steps, s := steps + [Load(t)], Apply(s, Load(t), retention);
    AloneNothingBlocks(s, t, freshId, s.now, retention);
    WriteOutcome(s, t, freshId);
    StepTaken(steps, Write(t, freshId), s, retention);
    steps, s := steps + [Write(t, freshId)], Apply(s, Write(t, freshId), retention);
    StepTaken(steps, Audit(t), s, retention);
    steps, s := steps + [Audit(t)], Apply(s, Audit(t), retention);
  }

  /** It stores its response and commits. */
  lemma Commits(before: seq<Step>, s0: State, t: nat, idem: Idem, retention: nat) returns (steps: seq<Step>, s: State)
    requires After(before, retention) == Some(s0) && s0.open.Keys == {t} && s0.open[t].progress.Audited?
    requires s0.open[t].idem == Some(idem) && s0.open[t].startedAt == s0.now && idem.key !in s0.keys
    ensures After(steps, retention) == Some(s) && s.open == map[] && |s.log| == |s0.log| + 1
    ensures var c := s0.open[t].progress.change;
      s.rules == s0.rules[c.id := c.newValue]
      && s.keys == s0.keys[idem.key := Stored(idem.fingerprint, Body(c.id, c.newValue), s0.now)]
  {
    hide After;
    steps, s := before, s0;
    AloneNothingBlocks(s, t, 0, s.now, retention);
    StoreOutcome(s, t, s.now);
    StepTaken(steps, Store(t, s.now), s, retention);
    steps, s := steps + [Store(t, s0.now)], Apply(s, Store(t, s0.now), retention);
    CommitShows(s, t, retention);
    StepTaken(steps, Commit(t), s, retention);
    steps, s := steps + [Commit(t)], Apply(s, Commit(t), retention);
  }

  /** The same request again, while its response is stored. */
  lemma Retried(before: seq<Step>, s0: State, t: nat, op: Op, idem: Idem, retention: nat)
    returns (steps: seq<Step>, s: State)
    requires After(before, retention) == Some(s0) && s0.open == map[] && ValidOp(op)
    requires idem.key in s0.keys && s0.keys[idem.key].fingerprint == idem.fingerprint
    ensures After(steps, retention) == Some(s) && s.open == map[] && s.log == s0.log && s.rules == s0.rules
    ensures LastAnswer(s0, s, Replayed(s0.keys[idem.key].body))
  {
    hide After;
    var begin := Begin(t, op, Some(idem));
    StepTaken(before, begin, s0, retention);
    steps, s := before + [begin], Apply(s0, begin, retention);
    LookupOutcome(s, t);
    StepTaken(steps, Lookup(t), s, retention);
    steps, s := steps + [Lookup(t)], Apply(s, Lookup(t), retention);
  }

  /** From any quiet moment of any run: a valid keyed create under an unused key goes through, and the same
      request sent again is answered with the body of the first, without a second commit. */
  lemma ARetryGetsTheFirstBody(before: seq<Step>, s0: State, op: Op, idem: Idem, freshId: nat, retention: nat)
    returns (steps: seq<Step>, s: State)
    requires After(before, retention) == Some(s0) && s0.open == map[] && ValidOp(op) && op.Create?
    requires ValidAdjustment(Requested(op.pricing.amount)) && idem.key !in s0.keys && freshId !in s0.rules
    requires forall id :: id in s0.rules && s0.rules[id].active ==> s0.rules[id].product != op.product
    ensures After(steps, retention) == Some(s) && s.open == map[] && |s.log| == |s0.log| + 1
    ensures freshId in s.rules && Applies(s.rules[freshId], op.pricing) && s.rules[freshId].product == op.product
    ensures |s.answers| > 0 && s.answers[|s.answers| - 1].outcome == Replayed(Body(freshId, s.rules[freshId]))
  {
    hide After, Applies;
    steps, s := Mutates(before, s0, 0, op, idem, freshId, retention);
    steps, s := Commits(steps, s, 0, idem, retention);
    steps, s := Retried(steps, s, 1, op, idem, retention);
  }
}
