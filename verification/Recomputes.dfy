/**
 * Recomputes of one product's rate, interleaved statement by statement.
 *
 * A market tick reads the live rule, prices it, reads the previous rate without a lock, and upserts the
 * current rate, which takes the row's lock. A rule change holds the rule's row from its update on, and
 * recomputes from its own new version. The change log gets the previous rate as it was read.
 */
module Recomputes {
  import opened Outcomes

  /** An event of the change log; beside it, the rate its upsert really replaced and the rule it priced. */
  datatype Event = Event(oldRate: Option<int>, newRate: int, replaced: Option<int>, ruleVersion: nat)

  datatype Row = Row(rate: int, ruleVersion: nat)

  datatype Progress =
    | Begun
    | RuleRead(version: nat)
    | PreviousRead(version: nat, previous: Option<int>)
    | Wrote(event: Event)

  datatype Txn = Txn(changesRule: bool, progress: Progress)

  /** The committed rule version, current rate and change log, and the open transactions. */
  datatype State = State(version: nat, row: Option<Row>, events: seq<Event>, open: map<nat, Txn>)

  const INITIAL := State(1, None, [], map[])

  datatype Step =
    | Begin(t: nat)
    | BeginChange(t: nat)
    | ReadRule(t: nat)
    | ReadPrevious(t: nat)
    | Upsert(t: nat, rate: int)
    | Commit(t: nat)
    | Rollback(t: nat)

  function RateOf(row: Option<Row>): Option<int> { if row.None? then None else Some(row.value.rate) }

  predicate RuleLocked(open: map<nat, Txn>) { exists t :: t in open && open[t].changesRule }

  predicate RateLocked(open: map<nat, Txn>) { exists t :: t in open && open[t].progress.Wrote? }

  predicate Enabled(s: State, step: Step) {
    match step
    case Begin(t) => t !in s.open
    case BeginChange(t) => t !in s.open && !RuleLocked(s.open)
    case ReadRule(t) => t in s.open && s.open[t].progress.Begun?
    case ReadPrevious(t) => t in s.open && s.open[t].progress.RuleRead?
    case Upsert(t, _) => t in s.open && s.open[t].progress.PreviousRead? && !RateLocked(s.open)
    case Commit(t) => t in s.open
    case Rollback(t) => t in s.open
  }

  function Advanced(s: State, t: nat, p: Progress): State
    requires t in s.open
  {
    s.(open := s.open[t := s.open[t].(progress := p)])
  }

  /** A transaction may commit without having published: there is no usable quote, or the rule is skipped. */
  function Committed(s: State, t: nat): State
    requires t in s.open
  {
    var txn := s.open[t];
    var ruled := s.(open := s.open - {t}, version := if txn.changesRule then s.version + 1 else s.version);
    match txn.progress
    case Wrote(e) => ruled.(row := Some(Row(e.newRate, e.ruleVersion)), events := s.events + [e])
    case _ => ruled
  }

  function Apply(s: State, step: Step): State
    requires Enabled(s, step)
  {
    match step
    case Begin(t) => s.(open := s.open[t := Txn(false, Begun)])
    case BeginChange(t) => s.(open := s.open[t := Txn(true, Begun)])
    case ReadRule(t) => Advanced(s, t, RuleRead(if s.open[t].changesRule then s.version + 1 else s.version))
    case ReadPrevious(t) => Advanced(s, t, PreviousRead(s.open[t].progress.version, RateOf(s.row)))
    case Upsert(t, rate) =>
      var p := s.open[t].progress;
      Advanced(s, t, Wrote(Event(p.previous, rate, RateOf(s.row), p.version)))
    case Commit(t) => Committed(s, t)
    case Rollback(t) => s.(open := s.open - {t})
  }

  function After(steps: seq<Step>): Option<State> {
    if steps == [] then Some(INITIAL)
    else
      var n := |steps| - 1;
      match After(steps[..n])
      case None => None
      case Some(s) => if Enabled(s, steps[n]) then Some(Apply(s, steps[n])) else None
  }

  // ----- What every interleaving keeps -----

  /** The rate a log of changes ends with. */
  function Latest(events: seq<Event>): Option<int> { if events == [] then None else Some(events[|events| - 1].newRate) }

  /** Each upsert replaced the rate of the one committed before it. */
  ghost predicate Serial(events: seq<Event>) {
    forall k :: 0 <= k < |events| ==> events[k].replaced == Latest(events[..k])
  }

  /** The rule version a transaction works from is the live one or an earlier one; a rule change's is the next. */
  predicate VersionFits(s: State, txn: Txn, version: nat) {
    if txn.changesRule then version == s.version + 1 else version <= s.version
  }

  predicate TxnFits(s: State, txn: Txn) {
    match txn.progress
    case Begun => true
    case RuleRead(version) => VersionFits(s, txn, version)
    case PreviousRead(version, _) => VersionFits(s, txn, version)
    case Wrote(e) => VersionFits(s, txn, e.ruleVersion) && e.replaced == RateOf(s.row)
  }

  ghost predicate Locks(open: map<nat, Txn>) {
    && (forall t, u :: t in open && u in open && open[t].changesRule && open[u].changesRule ==> t == u)
    && (forall t, u :: t in open && u in open && open[t].progress.Wrote? && open[u].progress.Wrote? ==> t == u)
  }

  ghost predicate Inv(s: State) {
    && Serial(s.events) && RateOf(s.row) == Latest(s.events)
    && (s.row.Some? ==> s.row.value.ruleVersion <= s.version)
    && Locks(s.open) && forall t :: t in s.open ==> TxnFits(s, s.open[t])
  }

  lemma SerialAppends(events: seq<Event>, e: Event)
    requires Serial(events) && e.replaced == Latest(events)
    ensures Serial(events + [e]) && Latest(events + [e]) == Some(e.newRate)
  {
    var longer := events + [e];
    forall k | 0 <= k < |longer|
      ensures longer[k].replaced == Latest(longer[..k])
    {
      assert longer[..k] == if k < |events| then events[..k] else events;
    }
  }

  lemma CommitKeeps(s: State, t: nat)
    requires Inv(s) && t in s.open
    ensures Inv(Committed(s, t))
  {
    assert TxnFits(s, s.open[t]);
    if s.open[t].progress.Wrote? {
      SerialAppends(s.events, s.open[t].progress.event);
    }
    hide Serial;
    var s' := Committed(s, t);
    forall u | u in s'.open
      ensures TxnFits(s', s'.open[u])
    {
      assert TxnFits(s, s.open[u]);
    }
  }

  lemma StepKeeps(s: State, step: Step)
    requires Inv(s) && Enabled(s, step)
    ensures Inv(Apply(s, step))
  {
    hide Serial;
    match step
    case Commit(t) =>
      hide Committed, Inv;
      CommitKeeps(s, t);
    case Upsert(t, _) => assert TxnFits(s, s.open[t]);
    case ReadPrevious(t) => assert TxnFits(s, s.open[t]);
    case _ =>
  }

  lemma {:induction false} RunKeeps(steps: seq<Step>)
    requires After(steps).Some?
    ensures Inv(After(steps).value)
  {
    if steps != [] {
      hide Inv, Apply;
      var n := |steps| - 1;
      RunKeeps(steps[..n]);
      StepKeeps(After(steps[..n]).value, steps[n]);
    }
  }

  // ----- The change log -----

  /** Each event starts from the rate the one before it ended with. */
  ghost predicate Chained(events: seq<Event>) {
    forall k :: 0 <= k < |events| ==> events[k].oldRate == Latest(events[..k])
  }

  /** Over every interleaving: the current rate is the last event's, and the log is chained exactly when every
      upsert replaced the rate its transaction had read before. */
  lemma ChainedExactlyWhen(steps: seq<Step>)
    requires After(steps).Some?
    ensures var s := After(steps).value;
      RateOf(s.row) == Latest(s.events)
      && (Chained(s.events) <==> forall k :: 0 <= k < |s.events| ==> s.events[k].oldRate == s.events[k].replaced)
  {
    RunKeeps(steps);
    var events := After(steps).value.events;
    if Chained(events) {
      forall k | 0 <= k < |events|
        ensures events[k].oldRate == events[k].replaced
      {
        assert events[k].oldRate == Latest(events[..k]) && events[k].replaced == Latest(events[..k]);
      }
    }
  }

  // ----- The rule a rate shows -----

  /** The current rate was priced from the live rule. */
  predicate ShowsLiveRule(s: State) { s.row.Some? ==> s.row.value.ruleVersion == s.version }

  /** The commit changes the rule or the rate. */
  predicate Touches(txn: Txn) { txn.changesRule || txn.progress.Wrote? }

  /** The commit is of a rule change that published, of a tick that priced the live rule, or of a rule change
      before anything was published. */
  predicate Timely(s: State, txn: Txn) {
    if txn.progress.Wrote? then txn.changesRule || txn.progress.event.ruleVersion == s.version
    else s.row.None?
  }

  /** The last commit that touched rule or rate was timely. */
  predicate KeptUp(steps: seq<Step>) {
    if steps == [] then true
    else
      var n := |steps| - 1;
      if steps[n].Commit? && After(steps[..n]).Some? && steps[n].t in After(steps[..n]).value.open
         && Touches(After(steps[..n]).value.open[steps[n].t])
      then Timely(After(steps[..n]).value, After(steps[..n]).value.open[steps[n].t])
      else KeptUp(steps[..n])
  }

  lemma CommitShowsExactlyWhen(s: State, t: nat)
    requires Inv(s) && t in s.open
    ensures ShowsLiveRule(Committed(s, t)) <==>
      if Touches(s.open[t]) then Timely(s, s.open[t]) else ShowsLiveRule(s)
  {
    hide Serial, Locks;
    assert TxnFits(s, s.open[t]);
  }

  lemma OthersShowAlike(s: State, step: Step)
    requires Enabled(s, step) && !step.Commit?
    ensures ShowsLiveRule(Apply(s, step)) <==> ShowsLiveRule(s)
  {
  }

  /** Over every interleaving: the rate customers see was priced from the live rule exactly when the last commit
      that touched either was timely. A tick that read the rule before a change of it committed is not. */
  lemma {:induction false} ShowsLiveRuleExactlyWhen(steps: seq<Step>)
    requires After(steps).Some?
    ensures ShowsLiveRule(After(steps).value) <==> KeptUp(steps)
  {
    if steps != [] {
      hide Inv, Apply, Enabled, Touches, Timely, ShowsLiveRule;
      var n := |steps| - 1;
      var s := After(steps[..n]).value;
      ShowsLiveRuleExactlyWhen(steps[..n]);
      RunKeeps(steps[..n]);
      if steps[n].Commit? {
        CommitIsAStep(s, steps[n]);
        CommitShowsExactlyWhen(s, steps[n].t);
      } else {
        OthersShowAlike(s, steps[n]);
      }
    } else {
      NothingShown();
    }
  }

  lemma CommitIsAStep(s: State, step: Step)
    requires Enabled(s, step) && step.Commit?
    ensures step.t in s.open && Apply(s, step) == Committed(s, step.t)
  {
  }

  lemma NothingShown()
    ensures ShowsLiveRule(INITIAL)
  {
  }

  /** Transactions overlap freely but for two locks, and any can roll back. */
  lemma OnlyLocksMakeWait(s: State, t: nat, rate: int)
    ensures t !in s.open ==> Enabled(s, Begin(t))
    ensures t !in s.open && (forall u :: u in s.open ==> !s.open[u].changesRule) ==> Enabled(s, BeginChange(t))
    ensures t in s.open ==> Enabled(s, Rollback(t)) && Enabled(s, Commit(t))
    ensures t in s.open && s.open[t].progress.PreviousRead? && (forall u :: u in s.open ==> !s.open[u].progress.Wrote?) ==>
      Enabled(s, Upsert(t, rate))
  {
  }

  // ----- Interleavings that fail -----

  lemma StepTaken(steps: seq<Step>, s: State, step: Step)
    requires After(steps) == Some(s) && Enabled(s, step)
    ensures After(steps + [step]) == Some(Apply(s, step))
  {
    assert (steps + [step])[..|steps|] == steps;
  }

  /** A tick up to its read of the previous rate. */
  lemma TickReads(before: seq<Step>, s0: State, t: nat) returns (steps: seq<Step>, s: State)
    requires After(before) == Some(s0) && t !in s0.open
    ensures After(steps) == Some(s)
    ensures s == s0.(open := s0.open[t := Txn(false, PreviousRead(s0.version, RateOf(s0.row)))])
  {
    steps, s := before, s0;
    StepTaken(steps, s, Begin(t));
    steps, s := steps + [Begin(t)], Apply(s, Begin(t));
    StepTaken(steps, s, ReadRule(t));
    steps, s := steps + [ReadRule(t)], Apply(s, ReadRule(t));
    StepTaken(steps, s, ReadPrevious(t));
    steps, s := steps + [ReadPrevious(t)], Apply(s, ReadPrevious(t));
  }

  /** A transaction that has read the previous rate publishes and commits. */
  lemma Publishes(before: seq<Step>, s0: State, t: nat, rate: int) returns (steps: seq<Step>, s: State)
    requires After(before) == Some(s0) && t in s0.open && s0.open[t].progress.PreviousRead? && !RateLocked(s0.open)
    ensures After(steps) == Some(s)
    ensures var txn := s0.open[t];
      var e := Event(txn.progress.previous, rate, RateOf(s0.row), txn.progress.version);
      s == State(if txn.changesRule then s0.version + 1 else s0.version,
                 Some(Row(rate, txn.progress.version)), s0.events + [e], s0.open - {t})
  {
    steps, s := before, s0;
    StepTaken(steps, s, Upsert(t, rate));
    steps, s := steps + [Upsert(t, rate)], Apply(s, Upsert(t, rate));
    StepTaken(steps, s, Commit(t));
    steps, s := steps + [Commit(t)], Apply(s, Commit(t));
  }

  /** A rule change commits with its new rate between a tick's reads and its upsert: the tick then shows
      customers the old rule again, and its event starts from a rate already replaced. */
  lemma AStaleTickUndoesARuleChange(oldRate: int, newRate: int) returns (steps: seq<Step>, s: State)
    ensures After(steps) == Some(s) && s.open == map[]
    ensures s.version == 2 && s.row == Some(Row(oldRate, 1)) && !ShowsLiveRule(s)
    ensures |s.events| == 2 && s.events[0].newRate == newRate && s.events[1].oldRate == None && !Chained(s.events)
  {
    steps, s := TickReads([], INITIAL, 0);
    StepTaken(steps, s, BeginChange(1));
    steps, s := steps + [BeginChange(1)], Apply(s, BeginChange(1));
    StepTaken(steps, s, ReadRule(1));
    steps, s := steps + [ReadRule(1)], Apply(s, ReadRule(1));
    StepTaken(steps, s, ReadPrevious(1));
    steps, s := steps + [ReadPrevious(1)], Apply(s, ReadPrevious(1));
    steps, s := Publishes(steps, s, 1, newRate);
    steps, s := Publishes(steps, s, 0, oldRate);
    assert s.events[1].oldRate != Latest(s.events[..1]);
  }

  // ----- One transaction at a time -----

  /** A transaction begins only when no other is open, and a rule change publishes before it commits. */
  ghost predicate OneAtATime(steps: seq<Step>) {
    forall k :: 0 <= k < |steps| && After(steps[..k]).Some? ==> Alone(After(steps[..k]).value, steps[k])
  }

  predicate Alone(s: State, step: Step) {
    match step
    case Begin(_) => s.open == map[]
    case BeginChange(_) => s.open == map[]
    case Commit(t) => t in s.open && s.open[t].changesRule ==> s.open[t].progress.Wrote?
    case _ => true
  }

  /** What one transaction at a time has read is still so. */
  predicate StillSo(s: State, txn: Txn) {
    var version := if txn.changesRule then s.version + 1 else s.version;
    match txn.progress
    case Begun => true
    case RuleRead(v) => v == version
    case PreviousRead(v, previous) => v == version && previous == RateOf(s.row)
    case Wrote(e) => e.ruleVersion == version && e.oldRate == e.replaced
  }

  ghost predicate Serialised(s: State) {
    && (forall t, u :: t in s.open && u in s.open ==> t == u)
    && (forall t :: t in s.open ==> StillSo(s, s.open[t]))
    && (forall k :: 0 <= k < |s.events| ==> s.events[k].oldRate == s.events[k].replaced)
    && ShowsLiveRule(s)
  }

  lemma AloneKeepsSerialised(s: State, step: Step)
    requires Serialised(s) && Enabled(s, step) && Alone(s, step)
    ensures Serialised(Apply(s, step))
  {
  }

  /** One at a time, recomputes leave nothing to be desired: the change log is linked, and the rate on show was
      priced from the live rule. */
  lemma {:induction false} OneAtATimeIsSound(steps: seq<Step>)
    requires After(steps).Some? && OneAtATime(steps)
    ensures var s := After(steps).value; Serialised(s) && Chained(s.events) && ShowsLiveRule(s)
  {
    if steps != [] {
      var n := |steps| - 1;
      assert OneAtATime(steps[..n]) by {
        assert forall k :: 0 <= k < n ==> steps[..n][..k] == steps[..k] && steps[..n][k] == steps[k];
      }
      hide Apply, Serialised, Alone, Chained;
      OneAtATimeIsSound(steps[..n]);
      AloneKeepsSerialised(After(steps[..n]).value, steps[n]);
    }
    ChainedExactlyWhen(steps);
    SerialisedIsChained(After(steps).value);
  }

  lemma SerialisedIsChained(s: State)
    requires Chained(s.events) <==> forall k :: 0 <= k < |s.events| ==> s.events[k].oldRate == s.events[k].replaced
    ensures Serialised(s) ==> Chained(s.events) && ShowsLiveRule(s)
  {
  }
}
