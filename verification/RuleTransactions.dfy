/**
 * Pricing-rule mutations as interleaved database transactions.
 *
 * Every statement of `run_mutation` and of the work inside it is a step of its own, at READ COMMITTED: a
 * read sees the latest committed rows, a conditional update waits for the row's lock and re-checks its
 * WHERE clause afterwards, and an insert waits for an open insert of the same unique key. Anything may
 * abort at any point. The tables are one tenant's: every statement filters on the tenant.
 */
module PricingRules {
  import opened Outcomes
  import opened Rounding
  import opened PricingEngine

  /** The pricing part of a request, once its rupee string is parsed to paise. */
  datatype Amount = RupeeAmount(paise: int) | BasisPoints(bps: int)

  datatype Columns = Columns(isAbsolute: bool, value: int, bps: int)

  datatype Terms = Terms(columns: Columns, step: int, mode: RoundingMode, precision: int)

  /** A row of the rule table, and equally the snapshot of one that the audit trail keeps. */
  datatype Rule = Rule(product: string, terms: Terms, active: bool, version: int)

  datatype Pricing = Pricing(amount: Amount, step: int, mode: RoundingMode, precision: int)

  datatype Op =
    | Create(product: string, pricing: Pricing)
    | Update(id: nat, quoted: int, pricing: Pricing)
    | Deactivate(id: nat, quoted: int)

  /** What the request schemas let through. */
  predicate ValidPricing(p: Pricing) {
    p.step > 0 && p.precision > 0 && (p.amount.BasisPoints? ==> Abs(p.amount.bps) <= MAX_ADJUSTMENT_BPS)
  }

  predicate ValidOp(op: Op) { op.Deactivate? || ValidPricing(op.pricing) }

  /** The unused column is zeroed; an absolute amount out of range is refused. */
  function ToAdjustmentColumns(amount: Amount): Option<Columns> {
    match amount
    case RupeeAmount(paise) =>
      var value := paise * 1000;
      if value > MAX_ABSOLUTE_ADJUSTMENT || value < -MAX_ABSOLUTE_ADJUSTMENT then None
      else Some(Columns(true, value, 0))
    case BasisPoints(bps) => Some(Columns(false, 0, bps))
  }

  /** The stored columns as the pricing engine reads them. */
  function ToAdjustment(c: Columns): Adjustment { if c.isAbsolute then Absolute(c.value) else Percentage(c.bps) }

  /** One change of one rule: the snapshots its audit row will carry, the row it really overwrote, and the
      version the client quoted. */
  datatype Change = Change(id: nat, oldValue: Option<Rule>, newValue: Rule, overwrote: Option<Rule>,
      quoted: Option<int>)

  datatype Idem = Idem(key: string, fingerprint: string)

  datatype Stored = Stored(fingerprint: string, body: Body, createdAt: nat)

  /** A response names the rule and shows its row. */
  datatype Body = Body(id: nat, rule: Rule)

  datatype Progress =
    | Started
    | Missed
    | Loaded(before: Option<Rule>)
    | Wrote(change: Change)
    | Audited(change: Change, auditId: nat)
    | Kept(change: Change, auditId: nat, createdAt: nat, at: nat)

  datatype Txn = Txn(op: Op, idem: Option<Idem>, startedAt: nat, progress: Progress)

  /** A committed mutation: its rule change, its audit row's id and its stored response. */
  datatype Commitment = Commitment(change: Change, auditId: nat, idem: Option<Idem>, createdAt: nat, at: nat)

  datatype Refusal = KeyReused | Forbidden | Duplicate | OutOfRange | VersionMoved | AlreadyInactive | InProgress

  datatype Outcome = Replayed(body: Body) | Refused(why: Refusal)

  /** What a client was told without anything being committed, and how many commits preceded it. */
  datatype Answer = Answer(idem: Option<Idem>, outcome: Outcome, commits: nat)

  datatype State = State(
    now: nat,
    rules: map<nat, Rule>,
    keys: map<string, Stored>,
    nextAuditId: nat,
    open: map<nat, Txn>,
    log: seq<Commitment>,
    answers: seq<Answer>)

  const INITIAL := State(0, map[], map[], 0, map[], [], [])

  datatype Step =
    | Advance(ms: nat)
    | Begin(t: nat, op: Op, idem: Option<Idem>)
    | Lookup(t: nat)
    | Load(t: nat)
    | Write(t: nat, freshId: nat)
    | Audit(t: nat)
    | Store(t: nat, createdAt: nat)
    | Commit(t: nat)
    | Abort(t: nat)
    | Purge(cutoff: int, victims: set<string>)

  /** The uncommitted change a transaction holds a row lock for. */
  function Held(p: Progress): Option<Change> {
    if p.Wrote? || p.Audited? || p.Kept? then Some(p.change) else None
  }

  predicate RowLocked(s: State, t: nat, id: nat) {
    exists u :: u in s.open && u != t && Held(s.open[u].progress).Some? && Held(s.open[u].progress).value.id == id
  }

  /** The change leaves, or found, an active rule for the product: its index entry is in doubt. */
  predicate Claims(c: Change, product: string) {
    (c.newValue.active && c.newValue.product == product)
    || (c.overwrote.Some? && c.overwrote.value.active && c.overwrote.value.product == product)
  }

  predicate ProductContested(s: State, t: nat, product: string) {
    exists u :: u in s.open && u != t && Held(s.open[u].progress).Some?
      && Claims(Held(s.open[u].progress).value, product)
  }

  predicate HasActive(rules: map<nat, Rule>, product: string) {
    exists id :: id in rules && rules[id].active && rules[id].product == product
  }

  predicate KeyContested(s: State, t: nat, key: string) {
    exists u :: u in s.open && u != t && s.open[u].progress.Kept? && s.open[u].idem.Some?
      && s.open[u].idem.value.key == key
  }

  /** The WHERE clause of the conditional update. */
  predicate Matches(op: Op, row: Rule)
    requires !op.Create?
  {
    row.version == op.quoted && (op.Deactivate? ==> row.active)
  }

  predicate CanWrite(s: State, t: nat, freshId: nat)
    requires t in s.open
  {
    var op := s.open[t].op;
    if op.Create? then
      freshId !in s.rules && !RowLocked(s, t, freshId) && !ProductContested(s, t, op.product)
    else
      op.id in s.rules && (Matches(op, s.rules[op.id]) ==> !RowLocked(s, t, op.id))
  }

  predicate Enabled(s: State, step: Step, retention: nat) {
    match step
    case Advance(_) => true
    case Begin(t, op, _) => t !in s.open && ValidOp(op)
    case Lookup(t) => t in s.open && s.open[t].progress.Started?
    case Load(t) => t in s.open && s.open[t].progress.Missed?
    case Write(t, freshId) => t in s.open && s.open[t].progress.Loaded? && CanWrite(s, t, freshId)
    case Audit(t) => t in s.open && s.open[t].progress.Wrote?
    case Store(t, createdAt) =>
      t in s.open && s.open[t].progress.Audited? && s.open[t].idem.Some?
      && s.open[t].startedAt <= createdAt <= s.now && !KeyContested(s, t, s.open[t].idem.value.key)
    case Commit(t) =>
      t in s.open && (s.open[t].progress.Kept? || (s.open[t].progress.Audited? && s.open[t].idem.None?))
    case Abort(t) => t in s.open
    case Purge(cutoff, victims) =>
      cutoff + retention <= s.now && forall k :: k in victims ==> k in s.keys && s.keys[k].createdAt < cutoff
  }

  function Advanced(s: State, t: nat, p: Progress): State
    requires t in s.open
  {
    s.(open := s.open[t := s.open[t].(progress := p)])
  }

  /** The transaction ends without a commit and the client is told why. */
  function Answered(s: State, t: nat, outcome: Outcome): State
    requires t in s.open
  {
    s.(open := s.open - {t}, answers := s.answers + [Answer(s.open[t].idem, outcome, |s.log|)])
  }

  function LookUp(s: State, t: nat): State
    requires t in s.open
  {
    match s.open[t].idem
    case None => Advanced(s, t, Missed)
    case Some(idem) =>
      if idem.key !in s.keys then Advanced(s, t, Missed)
      else if s.keys[idem.key].fingerprint != idem.fingerprint then Answered(s, t, Refused(KeyReused))
      else Answered(s, t, Replayed(s.keys[idem.key].body))
  }

  function LoadBefore(s: State, t: nat): State
    requires t in s.open
  {
    var op := s.open[t].op;
    if op.Create? then
      if HasActive(s.rules, op.product) then Answered(s, t, Refused(Duplicate)) else Advanced(s, t, Loaded(None))
    else if op.id !in s.rules then Answered(s, t, Refused(Forbidden))
    else Advanced(s, t, Loaded(Some(s.rules[op.id])))
  }

  function NewTerms(p: Pricing, columns: Columns): Terms { Terms(columns, p.step, p.mode, p.precision) }

  function WriteRow(s: State, t: nat, freshId: nat): State
    requires t in s.open && s.open[t].progress.Loaded? && CanWrite(s, t, freshId)
  {
    var before := s.open[t].progress.before;
    match s.open[t].op
    case Create(product, pricing) =>
      (match ToAdjustmentColumns(pricing.amount)
       case None => Answered(s, t, Refused(OutOfRange))
       case Some(columns) =>
         if HasActive(s.rules, product) then Answered(s, t, Refused(Duplicate))
         else
           Advanced(s, t, Wrote(Change(freshId, None, Rule(product, NewTerms(pricing, columns), true, 1), None, None))))
    case Update(id, quoted, pricing) =>
      (match ToAdjustmentColumns(pricing.amount)
       case None => Answered(s, t, Refused(OutOfRange))
       case Some(columns) =>
         var row := s.rules[id];
         if !Matches(s.open[t].op, row) then Answered(s, t, Refused(VersionMoved))
         else
           var changed := row.(terms := NewTerms(pricing, columns), version := row.version + 1);
           Advanced(s, t, Wrote(Change(id, before, changed, Some(row), Some(quoted)))))
    case Deactivate(id, quoted) =>
      var row := s.rules[id];
      if !Matches(s.open[t].op, row) then
        Answered(s, t, Refused(if before.Some? && !before.value.active then AlreadyInactive else VersionMoved))
      else
        var changed := row.(active := false, version := row.version + 1);
        Advanced(s, t, Wrote(Change(id, before, changed, Some(row), Some(quoted))))
  }

  function BodyOf(c: Change): Body { Body(c.id, c.newValue) }

  function StoreResponse(s: State, t: nat, createdAt: nat): State
    requires t in s.open && s.open[t].progress.Audited? && s.open[t].idem.Some?
  {
    var p := s.open[t].progress;
    if s.open[t].idem.value.key in s.keys then Answered(s, t, Refused(InProgress))
    else Advanced(s, t, Kept(p.change, p.auditId, createdAt, s.now))
  }

  function ToCommitment(txn: Txn): Commitment
    requires txn.progress.Kept? || txn.progress.Audited?
  {
    var p := txn.progress;
    if p.Kept? then Commitment(p.change, p.auditId, txn.idem, p.createdAt, p.at)
    else Commitment(p.change, p.auditId, None, 0, 0)
  }

  /** The rule, its audit row and the stored response become visible together. */
  function Install(s: State, t: nat, c: Commitment): State {
    s.(rules := s.rules[c.change.id := c.change.newValue],
       keys := if c.idem.None? then s.keys
               else s.keys[c.idem.value.key := Stored(c.idem.value.fingerprint, BodyOf(c.change), c.createdAt)],
       open := s.open - {t},
       log := s.log + [c])
  }

  function Apply(s: State, step: Step, retention: nat): State
    requires Enabled(s, step, retention)
  {
    match step
    case Advance(ms) => s.(now := s.now + ms)
    case Begin(t, op, idem) => s.(open := s.open[t := Txn(op, idem, s.now, Started)])
    case Lookup(t) => LookUp(s, t)
    case Load(t) => LoadBefore(s, t)
    case Write(t, freshId) => WriteRow(s, t, freshId)
    case Audit(t) =>
      Advanced(s, t, Audited(s.open[t].progress.change, s.nextAuditId)).(nextAuditId := s.nextAuditId + 1)
    case Store(t, createdAt) => StoreResponse(s, t, createdAt)
    case Commit(t) => Install(s, t, ToCommitment(s.open[t]))
    case Abort(t) => s.(open := s.open - {t})
    case Purge(_, victims) => s.(keys := s.keys - victims)
  }

  function After(steps: seq<Step>, retention: nat): Option<State> {
    if steps == [] then Some(INITIAL)
    else
      var n := |steps| - 1;
      match After(steps[..n], retention)
      case None => None
      case Some(s) => if Enabled(s, steps[n], retention) then Some(Apply(s, steps[n], retention)) else None
  }

  // ----- The audit trail of a rule -----

  /** The committed changes of a rule, oldest first: its audit rows. */
  function Trail(log: seq<Commitment>, id: nat): seq<Change> {
    if log == [] then []
    else
      var c := log[|log| - 1].change;
      Trail(log[..|log| - 1], id) + if c.id == id then [c] else []
  }

  lemma TrailOfAppend(log: seq<Commitment>, c: Commitment, id: nat)
    ensures Trail(log + [c], id) == Trail(log, id) + if c.change.id == id then [c.change] else []
  {
    assert (log + [c])[..|log|] == log;
  }

  /** The row is one of the rule's committed versions. */
  predicate IsVersion(trail: seq<Change>, row: Rule) {
    1 <= row.version <= |trail| && trail[row.version - 1].newValue == row
  }

  /** Change `k` of a trail overwrites exactly the row that change `k - 1` left, and quoted its version; the
      snapshot taken before it is that row or an earlier version. */
  predicate Continues(trail: seq<Change>, k: nat)
    requires k < |trail|
  {
    var c := trail[k];
    c.newValue.version == k + 1
    && if k == 0 then c.oldValue == None && c.overwrote == None && c.quoted == None && c.newValue.active
       else
         var row := trail[k - 1].newValue;
         c.overwrote == Some(row) && c.quoted == Some(row.version)
         && c.newValue.product == row.product && (c.newValue.active ==> row.active)
         && c.oldValue.Some? && IsVersion(trail[..k], c.oldValue.value)
  }

  ghost predicate Chain(trail: seq<Change>) { forall k :: 0 <= k < |trail| ==> Continues(trail, k) }

  lemma ChainExtends(trail: seq<Change>, c: Change)
    requires Chain(trail) && Continues(trail + [c], |trail|)
    ensures Chain(trail + [c])
  {
    var longer := trail + [c];
    forall k | 0 <= k < |longer|
      ensures Continues(longer, k)
    {
      if k < |trail| {
        assert Continues(trail, k) && longer[..k] == trail[..k];
      }
    }
  }

  predicate LiveAt(rules: map<nat, Rule>, trail: seq<Change>, id: nat) {
    && (id in rules <==> trail != [])
    && (id in rules ==> rules[id] == trail[|trail| - 1].newValue)
  }

  ghost predicate Live(rules: map<nat, Rule>, log: seq<Commitment>) {
    forall id :: LiveAt(rules, Trail(log, id), id)
  }

  ghost predicate Chains(log: seq<Commitment>) { forall id :: Chain(Trail(log, id)) }

  /** What a transaction read is some committed version; what it wrote continues the rule's trail. */
  ghost predicate TxnSound(log: seq<Commitment>, txn: Txn) {
    (match txn.progress
     case Loaded(before) =>
       if txn.op.Create? then before == None
       else before.Some? && IsVersion(Trail(log, txn.op.id), before.value)
     case _ => true)
    && (match Held(txn.progress)
        case None => true
        case Some(c) => Continues(Trail(log, c.id) + [c], |Trail(log, c.id)|))
  }

  ghost predicate TxnsSound(log: seq<Commitment>, open: map<nat, Txn>) {
    forall t :: t in open ==> TxnSound(log, open[t])
  }

  /** No two transactions hold the same row. */
  ghost predicate RowsApart(open: map<nat, Txn>) {
    forall t, u :: t in open && u in open && t != u
      && Held(open[t].progress).Some? && Held(open[u].progress).Some?
      ==> Held(open[t].progress).value.id != Held(open[u].progress).value.id
  }

  ghost predicate TrailInv(s: State) {
    Live(s.rules, s.log) && Chains(s.log) && TxnsSound(s.log, s.open) && RowsApart(s.open)
  }

  /** What a successful write did to the row it found. */
  predicate Overwrites(c: Change, row: Rule, before: Option<Rule>) {
    c.overwrote == Some(row) && c.quoted == Some(row.version) && c.oldValue == before
    && c.newValue.version == row.version + 1 && c.newValue.product == row.product
    && (c.newValue.active ==> row.active)
  }

  lemma WriteOverwrites(s: State, t: nat, freshId: nat)
    requires t in s.open && s.open[t].progress.Loaded? && CanWrite(s, t, freshId)
    requires s.open[t].op.Create? ==> s.open[t].progress.before == None
    ensures var s' := WriteRow(s, t, freshId);
      s'.rules == s.rules && s'.log == s.log
      && (t in s'.open ==>
            s'.open[t].progress.Wrote?
            && var c := s'.open[t].progress.change;
               if s.open[t].op.Create? then
                 c.id !in s.rules && c.oldValue == None && c.overwrote == None && c.quoted == None
                 && c.newValue.version == 1 && c.newValue.active
               else c.id == s.open[t].op.id && Overwrites(c, s.rules[c.id], s.open[t].progress.before))
  {
    hide HasActive, RowLocked, ProductContested;
  }

  lemma OverwriteContinues(trail: seq<Change>, c: Change, before: Option<Rule>)
    requires Chain(trail) && trail != [] && before.Some? && IsVersion(trail, before.value)
    requires Overwrites(c, trail[|trail| - 1].newValue, before)
    ensures Continues(trail + [c], |trail|)
  {
    assert Continues(trail, |trail| - 1);
    assert (trail + [c])[..|trail|] == trail;
  }

  lemma WriteContinues(s: State, t: nat, freshId: nat)
    requires TrailInv(s) && t in s.open && s.open[t].progress.Loaded? && CanWrite(s, t, freshId)
    ensures var s' := WriteRow(s, t, freshId);
      s'.rules == s.rules && s'.log == s.log
      && (t in s'.open ==> TxnSound(s.log, s'.open[t]) && Held(s'.open[t].progress).Some?)
  {
    hide WriteRow, IsVersion;
    assert TxnSound(s.log, s.open[t]);
    WriteOverwrites(s, t, freshId);
    var s' := WriteRow(s, t, freshId);
    if t in s'.open {
      var c := s'.open[t].progress.change;
      var trail := Trail(s.log, c.id);
      assert LiveAt(s.rules, trail, c.id) && Chain(trail);
      if !s.open[t].op.Create? {
        hide Continues, Overwrites;
        OverwriteContinues(trail, c, s.open[t].progress.before);
      }
    }
  }

  lemma WriteKeepsApart(s: State, t: nat, freshId: nat)
    requires RowsApart(s.open) && t in s.open && s.open[t].progress.Loaded? && CanWrite(s, t, freshId)
    ensures RowsApart(WriteRow(s, t, freshId).open)
  {
    var s' := WriteRow(s, t, freshId);
    if t in s'.open {
      var c := Held(s'.open[t].progress).value;
      assert !RowLocked(s, t, c.id);
      forall u | u in s.open && u != t && Held(s.open[u].progress).Some?
        ensures Held(s.open[u].progress).value.id != c.id
      {
      }
    }
  }

  lemma CommitExtends(rules: map<nat, Rule>, log: seq<Commitment>, c: Commitment, id: nat)
    requires var trail := Trail(log, id); Chain(trail) && LiveAt(rules, trail, id)
    requires var trail := Trail(log, c.change.id); Continues(trail + [c.change], |trail|)
    ensures var trail := Trail(log + [c], id);
      Chain(trail) && LiveAt(rules[c.change.id := c.change.newValue], trail, id)
  {
    hide Continues;
    TrailOfAppend(log, c, id);
    if id == c.change.id {
      ChainExtends(Trail(log, id), c.change);
    } else {
      assert Trail(log + [c], id) == Trail(log, id);
    }
  }

  lemma CommitKeepsTrails(s: State, t: nat)
    requires TrailInv(s) && t in s.open && (s.open[t].progress.Kept? || s.open[t].progress.Audited?)
    ensures TrailInv(Install(s, t, ToCommitment(s.open[t])))
  {
    var c := ToCommitment(s.open[t]);
    var s' := Install(s, t, c);
    assert TxnSound(s.log, s.open[t]);
    forall id
      ensures Chain(Trail(s'.log, id)) && LiveAt(s'.rules, Trail(s'.log, id), id)
    {
      assert LiveAt(s.rules, Trail(s.log, id), id) && Chain(Trail(s.log, id));
      CommitExtends(s.rules, s.log, c, id);
    }
    forall u | u in s'.open
      ensures TxnSound(s'.log, s'.open[u])
    {
      assert TxnSound(s.log, s.open[u]);
      OtherCommitKeepsSound(s.log, c, s.open[u]);
    }
  }

  lemma OtherCommitKeepsSound(log: seq<Commitment>, c: Commitment, txn: Txn)
    requires TxnSound(log, txn)
    requires Held(txn.progress).Some? ==> Held(txn.progress).value.id != c.change.id
    ensures TxnSound(log + [c], txn)
  {
    if Held(txn.progress).Some? {
      TrailOfAppend(log, c, Held(txn.progress).value.id);
    } else if txn.progress.Loaded? && !txn.op.Create? {
      TrailOfAppend(log, c, txn.op.id);
    }
  }

  lemma WriteKeepsTrails(s: State, t: nat, freshId: nat)
    requires TrailInv(s) && t in s.open && s.open[t].progress.Loaded? && CanWrite(s, t, freshId)
    ensures TrailInv(WriteRow(s, t, freshId))
  {
    hide TxnSound, WriteRow, CanWrite, RowsApart, Live, Chains;
    WriteContinues(s, t, freshId);
    WriteKeepsApart(s, t, freshId);
    WriteTouchesOwn(s, t, freshId);
  }

  lemma LoadKeepsTrails(s: State, t: nat)
    requires TrailInv(s) && t in s.open
    ensures TrailInv(LoadBefore(s, t))
  {
    hide Live, Chains, HasActive, IsVersion;
    var op := s.open[t].op;
    if !op.Create? && op.id in s.rules { LoadIsVersion(s, t); }
  }

  lemma StepKeepsTrails(s: State, step: Step, retention: nat)
    requires TrailInv(s) && Enabled(s, step, retention)
    ensures TrailInv(Apply(s, step, retention))
  {
    hide TrailInv, LoadBefore, WriteRow, Install, ToCommitment, LookUp, StoreResponse;
    match step
    case Write(t, freshId) =>
      WriteKeepsTrails(s, t, freshId);
    case Commit(t) => CommitKeepsTrails(s, t);
    case Load(t) => LoadKeepsTrails(s, t);
    case _ => BookkeepingKeepsTrails(s, step, retention);
  }

  lemma BookkeepingKeepsTrails(s: State, step: Step, retention: nat)
    requires TrailInv(s) && Enabled(s, step, retention)
    requires !step.Write? && !step.Commit? && !step.Load?
    ensures TrailInv(Apply(s, step, retention))
  {
    hide Live, Chains, Continues, IsVersion, Trail;
  }

  lemma LoadIsVersion(s: State, t: nat)
    requires Live(s.rules, s.log) && Chains(s.log) && t in s.open
    requires !s.open[t].op.Create? && s.open[t].op.id in s.rules
    ensures IsVersion(Trail(s.log, s.open[t].op.id), s.rules[s.open[t].op.id])
  {
    var trail := Trail(s.log, s.open[t].op.id);
    assert Chain(trail) && Continues(trail, |trail| - 1);
  }

  lemma WriteTouchesOwn(s: State, t: nat, freshId: nat)
    requires t in s.open && s.open[t].progress.Loaded? && CanWrite(s, t, freshId)
    ensures var s' := WriteRow(s, t, freshId);
      s'.open.Keys <= s.open.Keys && forall u :: u in s'.open && u != t ==> s'.open[u] == s.open[u]
  {
  }

  lemma {:induction false} RunKeepsTrails(steps: seq<Step>, retention: nat)
    requires After(steps, retention).Some?
    ensures TrailInv(After(steps, retention).value)
  {
    if steps != [] {
      var n := |steps| - 1;
      RunKeepsTrails(steps[..n], retention);
      StepKeepsTrails(After(steps[..n], retention).value, steps[n], retention);
    }
  }

  /** Over every run, whatever clients quote: a rule's version is one plus its committed updates and
      deactivations, the live row is what the last audit row shows, and every change overwrote exactly the
      row the previous one left, which is the version its client quoted. */
  lemma VersionsCountChanges(steps: seq<Step>, retention: nat, id: nat)
    requires After(steps, retention).Some? && id in After(steps, retention).value.rules
    ensures var s := After(steps, retention).value;
      var trail := Trail(s.log, id);
      |trail| > 0
      && s.rules[id].version == 1 + (|trail| - 1)
      && trail[|trail| - 1].newValue == s.rules[id]
      && trail[0].oldValue == None
      && (forall k :: 0 < k < |trail| ==>
            trail[k].overwrote == Some(trail[k - 1].newValue) && trail[k].quoted == Some(trail[k - 1].newValue.version))
      && (forall k :: 0 < k < |trail| ==>
            trail[k].newValue.product == trail[0].newValue.product && (trail[k].newValue.active ==> trail[k - 1].newValue.active))
  {
    RunKeepsTrails(steps, retention);
    var trail := Trail(After(steps, retention).value.log, id);
    assert Chain(trail) && Continues(trail, 0) && Continues(trail, |trail| - 1);
    ProductIsFixed(trail, |trail|);
  }

  lemma {:induction false} ProductIsFixed(trail: seq<Change>, n: nat)
    requires Chain(trail) && 0 < n <= |trail|
    ensures forall k :: 0 <= k < n ==> trail[k].newValue.product == trail[0].newValue.product
    ensures forall k :: 0 < k < n ==>
      trail[k].overwrote == Some(trail[k - 1].newValue) && trail[k].quoted == Some(trail[k - 1].newValue.version)
      && (trail[k].newValue.active ==> trail[k - 1].newValue.active)
  {
    if n > 1 {
      ProductIsFixed(trail, n - 1);
      assert Continues(trail, n - 1);
    }
  }

  /** Each audit row starts from the snapshot the previous one ended with. */
  predicate Linked(trail: seq<Change>) {
    forall k :: 0 < k < |trail| ==> trail[k].oldValue == Some(trail[k - 1].newValue)
  }

  /** When the client's row was read, the version it quoted had already been committed. */
  predicate QuotedCommitted(c: Change) { c.quoted.Some? ==> c.oldValue.Some? && c.quoted.value <= c.oldValue.value.version }

  lemma LinkExactlyWhen(trail: seq<Change>, k: nat)
    requires Chain(trail) && 0 < k < |trail|
    ensures trail[k].oldValue == Some(trail[k - 1].newValue) <==> QuotedCommitted(trail[k])
  {
    assert Continues(trail, k) && Continues(trail, k - 1);
  }

  /** Over every run: the audit trail of a rule is linked exactly when every change of it quoted a version
      that was already committed when its transaction read the rule. */
  lemma LinkedExactlyWhen(steps: seq<Step>, retention: nat, id: nat)
    requires After(steps, retention).Some?
    ensures var trail := Trail(After(steps, retention).value.log, id);
      Linked(trail) <==> forall k :: 0 < k < |trail| ==> QuotedCommitted(trail[k])
  {
    RunKeepsTrails(steps, retention);
    var trail := Trail(After(steps, retention).value.log, id);
    assert Chain(trail);
    ChainLinksExactlyWhen(trail);
  }

  lemma ChainLinksExactlyWhen(trail: seq<Change>)
    requires Chain(trail)
    ensures Linked(trail) <==> forall k :: 0 < k < |trail| ==> QuotedCommitted(trail[k])
  {
    hide Chain, QuotedCommitted;
    forall k | 0 < k < |trail|
      ensures (trail[k].oldValue == Some(trail[k - 1].newValue)) == QuotedCommitted(trail[k])
    {
      LinkExactlyWhen(trail, k);
    }
    if Linked(trail) {
      forall k | 0 < k < |trail|
        ensures QuotedCommitted(trail[k])
      {
        LinkExactlyWhen(trail, k);
      }
    }
  }

  /** The client quotes a version some committed row already had. */
  predicate Honest(s: State, step: Step) {
    step.Load? && step.t in s.open && !s.open[step.t].op.Create? && s.open[step.t].op.id in s.rules ==>
      s.open[step.t].op.quoted <= s.rules[s.open[step.t].op.id].version
  }

  ghost predicate HonestTxn(txn: Txn) {
    && (txn.progress.Loaded? && !txn.op.Create? && txn.progress.before.Some? ==>
          txn.op.quoted <= txn.progress.before.value.version)
    && (Held(txn.progress).Some? ==> QuotedCommitted(Held(txn.progress).value))
  }

  ghost predicate AllHonest(s: State) {
    (forall t :: t in s.open ==> HonestTxn(s.open[t])) && (forall c :: c in s.log ==> QuotedCommitted(c.change))
  }

  ghost predicate HonestRun(steps: seq<Step>, retention: nat) {
    forall k :: 0 <= k < |steps| && After(steps[..k], retention).Some? ==>
      Honest(After(steps[..k], retention).value, steps[k])
  }

  lemma WriteIsHonest(s: State, t: nat, freshId: nat)
    requires t in s.open && s.open[t].progress.Loaded? && CanWrite(s, t, freshId)
    requires TxnSound(s.log, s.open[t]) && HonestTxn(s.open[t])
    ensures var s' := WriteRow(s, t, freshId); s'.log == s.log && (t in s'.open ==> HonestTxn(s'.open[t]))
  {
    hide Trail, Continues, IsVersion, WriteRow, CanWrite;
    WriteOverwrites(s, t, freshId);
    WriteLeavesOp(s, t, freshId);
  }

  lemma WriteLeavesOp(s: State, t: nat, freshId: nat)
    requires t in s.open && s.open[t].progress.Loaded? && CanWrite(s, t, freshId)
    ensures var s' := WriteRow(s, t, freshId);
      t in s'.open ==>
        s'.open[t].op == s.open[t].op
        && (!s.open[t].op.Create? ==> s'.open[t].progress.Wrote? && s'.open[t].progress.change.quoted == Some(s.open[t].op.quoted))
  {
    hide HasActive, RowLocked, ProductContested, Matches;
  }

  lemma StepKeepsHonest(s: State, step: Step, retention: nat)
    requires TxnsSound(s.log, s.open) && AllHonest(s) && Enabled(s, step, retention) && Honest(s, step)
    ensures AllHonest(Apply(s, step, retention))
  {
    hide Trail, Continues, IsVersion, WriteRow, CanWrite, HasActive;
    if step.Write? {
      hide TxnSound, HonestTxn;
      WriteIsHonest(s, step.t, step.freshId);
      WriteTouchesOwn(s, step.t, step.freshId);
    }
  }

  lemma InitiallyHonest()
    ensures AllHonest(INITIAL)
  {
  }

  lemma {:induction false} HonestRunKeeps(steps: seq<Step>, retention: nat)
    requires After(steps, retention).Some? && HonestRun(steps, retention)
    ensures AllHonest(After(steps, retention).value)
  {
    hide Apply, Honest, AllHonest;
    if steps == [] {
      InitiallyHonest();
    } else {
      var n := |steps| - 1;
      forall k | 0 <= k < n && After(steps[..n][..k], retention).Some?
        ensures Honest(After(steps[..n][..k], retention).value, steps[..n][k])
      {
        assert steps[..n][..k] == steps[..k];
      }
      HonestRunKeeps(steps[..n], retention);
      RunKeepsTrails(steps[..n], retention);
      StepKeepsHonest(After(steps[..n], retention).value, steps[n], retention);
    }
  }

  lemma TrailIsFromLog(log: seq<Commitment>, id: nat, k: nat)
    requires k < |Trail(log, id)|
    ensures exists c :: c in log && c.change == Trail(log, id)[k]
  {
    var n := |log| - 1;
    if k < |Trail(log[..n], id)| {
      TrailIsFromLog(log[..n], id, k);
      var c :| c in log[..n] && c.change == Trail(log[..n], id)[k];
      assert c in log && c.change == Trail(log, id)[k];
    } else {
      assert log[n] in log && log[n].change == Trail(log, id)[k];
    }
  }

  /** If clients quote only versions that were already committed, every rule's audit trail is linked. */
  lemma HonestTrailsAreLinked(steps: seq<Step>, retention: nat, id: nat)
    requires After(steps, retention).Some? && HonestRun(steps, retention)
    ensures Linked(Trail(After(steps, retention).value.log, id))
  {
    HonestRunKeeps(steps, retention);
    LinkedExactlyWhen(steps, retention, id);
    var log := After(steps, retention).value.log;
    forall k | 0 < k < |Trail(log, id)|
      ensures QuotedCommitted(Trail(log, id)[k])
    {
      TrailIsFromLog(log, id, k);
    }
  }

  // ----- What one write does -----

  /** The adjustment a request asks for, in the engine's unit. */
  function Requested(amount: Amount): Adjustment {
    match amount
    case RupeeAmount(paise) => Absolute(paise * 1000)
    case BasisPoints(bps) => Percentage(bps)
  }

  predicate Applies(row: Rule, p: Pricing) {
    ToAdjustment(row.terms.columns) == Requested(p.amount)
    && row.terms.step == p.step && row.terms.mode == p.mode && row.terms.precision == p.precision
  }

  /** When a write goes through, and what the engine will then read from the row. */
  lemma WriteOutcome(s: State, t: nat, freshId: nat)
    requires t in s.open && s.open[t].progress.Loaded? && CanWrite(s, t, freshId) && ValidOp(s.open[t].op)
    ensures var s' := WriteRow(s, t, freshId);
      var op := s.open[t].op;
      match op
      case Create(product, p) =>
        (t in s'.open <==>
           ValidAdjustment(Requested(p.amount))
           && forall id :: id in s.rules && s.rules[id].active ==> s.rules[id].product != product)
        && (t !in s'.open && ValidAdjustment(Requested(p.amount)) ==> LastAnswer(s, s', Refused(Duplicate)))
        && (t !in s'.open && !ValidAdjustment(Requested(p.amount)) ==> LastAnswer(s, s', Refused(OutOfRange)))
        && (t in s'.open ==>
              var row := s'.open[t].progress.change.newValue;
              Applies(row, p) && row.product == product && row.active)
      case Update(id, quoted, p) =>
        (t in s'.open <==> ValidAdjustment(Requested(p.amount)) && s.rules[id].version == quoted)
        && (t in s'.open ==>
              var row := s'.open[t].progress.change.newValue;
              Applies(row, p) && row.active == s.rules[id].active)
      case Deactivate(id, quoted) =>
        (t in s'.open <==> s.rules[id].active && s.rules[id].version == quoted)
        && (t in s'.open ==>
              var row := s'.open[t].progress.change.newValue;
              row.terms == s.rules[id].terms && !row.active)
  {
    hide RowLocked, ProductContested;
  }

  /** The step told the client this, and nothing else was said. */
  predicate LastAnswer(s: State, s': State, outcome: Outcome) {
    |s'.answers| == |s.answers| + 1 && s'.answers[..|s.answers|] == s.answers
    && s'.answers[|s.answers|].outcome == outcome
  }

  /** What a request finds before it writes anything. A create is refused as a duplicate exactly when an active
      rule of the product is committed; a change of a rule that does not exist is forbidden; otherwise a change
      has read the committed row. */
  lemma LoadOutcome(s: State, t: nat)
    requires t in s.open && s.open[t].progress.Missed?
    ensures var s' := LoadBefore(s, t);
      var op := s.open[t].op;
      s'.rules == s.rules && s'.keys == s.keys && s'.log == s.log
      && match op
         case Create(product, _) =>
           if exists id :: id in s.rules && s.rules[id].active && s.rules[id].product == product
           then t !in s'.open && LastAnswer(s, s', Refused(Duplicate))
           else t in s'.open && s'.open[t].progress == Loaded(None) && s'.answers == s.answers
         case _ =>
           if op.id !in s.rules then t !in s'.open && LastAnswer(s, s', Refused(Forbidden))
           else t in s'.open && s'.open[t].progress == Loaded(Some(s.rules[op.id])) && s'.answers == s.answers
  {
  }

  /** What a request is told of its key: nothing if it has none or the key is not stored, the stored body if it
      was stored for the same request, a refusal otherwise. */
  lemma LookupOutcome(s: State, t: nat)
    requires t in s.open && s.open[t].progress.Started?
    ensures var s' := LookUp(s, t);
      var idem := s.open[t].idem;
      s'.rules == s.rules && s'.keys == s.keys && s'.log == s.log
      && if idem.None? || idem.value.key !in s.keys then
           t in s'.open && s'.open[t] == s.open[t].(progress := Missed) && s'.answers == s.answers
         else
           t !in s'.open
           && LastAnswer(s, s',
                if s.keys[idem.value.key].fingerprint == idem.value.fingerprint
                then Replayed(s.keys[idem.value.key].body) else Refused(KeyReused))
  {
  }

  /** A response is stored unless a committed one has the key by then; then the whole mutation is refused. */
  lemma StoreOutcome(s: State, t: nat, createdAt: nat)
    requires t in s.open && s.open[t].progress.Audited? && s.open[t].idem.Some?
    ensures var s' := StoreResponse(s, t, createdAt);
      if s.open[t].idem.value.key in s.keys then t !in s'.open && LastAnswer(s, s', Refused(InProgress))
      else
        t in s'.open && s'.answers == s.answers && s'.open[t].progress.Kept?
        && s'.open[t].progress.change == s.open[t].progress.change
        && s'.open[t].progress.createdAt == createdAt && s'.open[t].progress.at == s.now
  {
  }

  /** Only other transactions make one wait: alone, a write and the storing of a response can run at once. */
  lemma AloneNothingBlocks(s: State, t: nat, freshId: nat, createdAt: nat, retention: nat)
    requires s.open.Keys == {t}
    ensures s.open[t].progress.Loaded? && s.open[t].op.Create? && freshId !in s.rules ==>
      Enabled(s, Write(t, freshId), retention)
    ensures s.open[t].progress.Loaded? && !s.open[t].op.Create? && s.open[t].op.id in s.rules ==>
      Enabled(s, Write(t, freshId), retention)
    ensures s.open[t].progress.Audited? && s.open[t].idem.Some? && s.open[t].startedAt <= createdAt <= s.now ==>
      Enabled(s, Store(t, createdAt), retention)
  {
  }

  /** Whatever is open can abort at any point, and any set of keys older than the retention can be purged. */
  lemma AnythingMayAbort(s: State, t: nat, victims: set<string>, retention: nat)
    ensures t in s.open ==> Enabled(s, Abort(t), retention)
    ensures victims <= s.keys.Keys && (forall k :: k in victims ==> s.keys[k].createdAt + retention < s.now) ==>
      Enabled(s, Purge(s.now - retention, victims), retention)
  {
  }

  /** Nothing but a commit shows a rule change, an audit row or a stored response; an abort leaves no trace. */
  lemma OnlyCommitsShow(s: State, step: Step, retention: nat)
    requires Enabled(s, step, retention) && !step.Commit?
    ensures var s' := Apply(s, step, retention);
      s'.rules == s.rules && s'.log == s.log && (!step.Purge? ==> s'.keys == s.keys)
      && (step.Purge? ==> s'.keys == s.keys - step.victims)
      && (step.Abort? ==> s' == s.(open := s.open - {step.t}))
  {
    hide HasActive, CanWrite, WriteRow;
    if step.Write? {
      WriteHides(s, step.t, step.freshId);
    }
  }

  lemma WriteHides(s: State, t: nat, freshId: nat)
    requires t in s.open && s.open[t].progress.Loaded? && CanWrite(s, t, freshId)
    ensures var s' := WriteRow(s, t, freshId); s'.rules == s.rules && s'.log == s.log && s'.keys == s.keys
  {
    hide HasActive, RowLocked, ProductContested, Matches;
  }

  /** A commit shows the rule, its audit row and, for a keyed request, its stored response, all at once. */
  lemma CommitShows(s: State, t: nat, retention: nat)
    requires Enabled(s, Commit(t), retention)
    ensures var s' := Apply(s, Commit(t), retention);
      var txn := s.open[t];
      var c := txn.progress.change;
      s'.rules == s.rules[c.id := c.newValue] && s'.open == s.open - {t} && s'.answers == s.answers
      && |s'.log| == |s.log| + 1 && s'.log[..|s.log|] == s.log
      && s'.log[|s.log|].change == c && s'.log[|s.log|].auditId == txn.progress.auditId
      && s'.log[|s.log|].idem == txn.idem
      && s'.keys == if txn.idem.None? then s.keys
                    else s.keys[txn.idem.value.key :=
                           Stored(txn.idem.value.fingerprint, Body(c.id, c.newValue), txn.progress.createdAt)]
  {
  }

  lemma {:induction false} InactiveStays(trail: seq<Change>, i: nat, j: nat)
    requires Chain(trail) && i <= j < |trail| && !trail[i].newValue.active
    ensures !trail[j].newValue.active
  {
    if i < j {
      InactiveStays(trail, i, j - 1);
      assert Continues(trail, j);
    }
  }

  /** A refusal tells the truth to a client that quoted a committed version: told that the rule moved on,
      someone else has committed a change that quoted the same version; told that it is inactive, it is. */
  lemma RefusalIsTrue(s: State, t: nat, freshId: nat)
    requires TrailInv(s) && t in s.open && s.open[t].progress.Loaded? && CanWrite(s, t, freshId)
    requires !s.open[t].op.Create? && HonestTxn(s.open[t]) && s.open[t].op.quoted > 0
    requires t !in WriteRow(s, t, freshId).open
    ensures var id, quoted := s.open[t].op.id, s.open[t].op.quoted;
      var answers := WriteRow(s, t, freshId).answers;
      |answers| == |s.answers| + 1
      && match answers[|s.answers|].outcome
         case Refused(VersionMoved) =>
           quoted < |Trail(s.log, id)| && Trail(s.log, id)[quoted].quoted == Some(quoted)
         case Refused(AlreadyInactive) => id in s.rules && !s.rules[id].active
         case Refused(OutOfRange) => s.open[t].op.Update?
         case _ => false
  {
    hide HasActive, RowLocked, ProductContested, ToAdjustmentColumns, Trail;
    var op := s.open[t].op;
    var trail := Trail(s.log, op.id);
    assert TxnSound(s.log, s.open[t]) && LiveAt(s.rules, trail, op.id) && Chain(trail);
    hide Chains, Live, TxnSound;
    PassedBy(trail, s.open[t].progress.before.value, op.quoted);
  }

  /** What a trail says of a version read earlier and of one quoted. */
  lemma PassedBy(trail: seq<Change>, before: Rule, quoted: int)
    requires Chain(trail) && IsVersion(trail, before) && 0 < quoted <= before.version
    ensures var row := trail[|trail| - 1].newValue;
      row.version == |trail| && quoted <= row.version
      && (quoted < row.version ==> trail[quoted].quoted == Some(quoted))
      && (quoted == row.version ==> before == row)
      && (!before.active ==> !row.active)
  {
    assert Continues(trail, |trail| - 1);
    if quoted < |trail| {
      assert Continues(trail, quoted) && Continues(trail, quoted - 1);
    }
    if !before.active {
      InactiveStays(trail, before.version - 1, |trail| - 1);
    }
  }

  // ----- A guessed version breaks the link -----

  lemma StepTaken(steps: seq<Step>, step: Step, s: State, retention: nat)
    requires After(steps, retention) == Some(s) && Enabled(s, step, retention)
    ensures After(steps + [step], retention) == Some(Apply(s, step, retention))
  {
    assert (steps + [step])[..|steps|] == steps;
  }

  /** A transaction without an idempotency key runs up to its read of the rule. */
  lemma Opened(steps: seq<Step>, s: State, t: nat, op: Op, retention: nat) returns (steps': seq<Step>, s': State)
    requires After(steps, retention) == Some(s) && t !in s.open && ValidOp(op)
    requires if op.Create? then !HasActive(s.rules, op.product) else op.id in s.rules
    ensures After(steps', retention) == Some(s')
    ensures var before := if op.Create? then None else Some(s.rules[op.id]);
      s' == s.(open := s.open[t := Txn(op, None, s.now, Loaded(before))])
  {
    StepTaken(steps, Begin(t, op, None), s, retention);
    steps', s' := steps + [Begin(t, op, None)], Apply(s, Begin(t, op, None), retention);
    StepTaken(steps', Lookup(t), s', retention);
    steps', s' := steps' + [Lookup(t)], Apply(s', Lookup(t), retention);
    StepTaken(steps', Load(t), s', retention);
    steps', s' := steps' + [Load(t)], Apply(s', Load(t), retention);
  }

  /** It writes the rule and its audit row, and commits. */
  lemma Finished(steps: seq<Step>, s: State, t: nat, freshId: nat, c: Change, retention: nat)
    returns (steps': seq<Step>, s': State)
    requires After(steps, retention) == Some(s) && t in s.open && s.open[t].progress.Loaded?
    requires CanWrite(s, t, freshId) && WriteRow(s, t, freshId) == Advanced(s, t, Wrote(c)) && s.open[t].idem == None
    ensures After(steps', retention) == Some(s')
    ensures s'.log == s.log + [Commitment(c, s.nextAuditId, None, 0, 0)] && s'.open == s.open - {t}
    ensures s'.rules == s.rules[c.id := c.newValue]
  {
    StepTaken(steps, Write(t, freshId), s, retention);
    steps', s' := steps + [Write(t, freshId)], Apply(s, Write(t, freshId), retention);
    StepTaken(steps', Audit(t), s', retention);
    steps', s' := steps' + [Audit(t)], Apply(s', Audit(t), retention);
    StepTaken(steps', Commit(t), s', retention);
    steps', s' := steps' + [Commit(t)], Apply(s', Commit(t), retention);
  }

  const PLAIN := Pricing(BasisPoints(100), 1, HalfUp, 1)
  const PLAIN_TERMS := Terms(Columns(false, 0, 100), 1, HalfUp, 1)

  function Plain(version: int): Rule { Rule("p", PLAIN_TERMS, true, version) }

  /** One rule, and two updates of it that have both read its first version. */
  lemma TwoReaders(retention: nat) returns (steps: seq<Step>, s: State)
    ensures After(steps, retention) == Some(s) && s.rules == map[0 := Plain(1)]
    ensures s.log == [Commitment(Change(0, None, Plain(1), None, None), 0, None, 0, 0)]
    ensures s.open == map[1 := Txn(Update(0, 1, PLAIN), None, s.now, Loaded(Some(Plain(1)))),
                          2 := Txn(Update(0, 2, PLAIN), None, s.now, Loaded(Some(Plain(1))))]
  {
    steps, s := Opened([], INITIAL, 0, Create("p", PLAIN), retention);
    steps, s := Finished(steps, s, 0, 0, Change(0, None, Plain(1), None, None), retention);
    hide CanWrite;
    steps, s := Opened(steps, s, 1, Update(0, 1, PLAIN), retention);
    steps, s := Opened(steps, s, 2, Update(0, 2, PLAIN), retention);
  }

  /** A client that guesses the version a racing update is about to commit is accepted, and its audit row
      starts from the row before that update. */
  lemma GuessedVersionBreaksTheLink(retention: nat) returns (steps: seq<Step>, s: State)
    ensures After(steps, retention) == Some(s) && !Linked(Trail(s.log, 0))
    ensures Trail(s.log, 0) == [
      Change(0, None, Plain(1), None, None),
      Change(0, Some(Plain(1)), Plain(2), Some(Plain(1)), Some(1)),
      Change(0, Some(Plain(1)), Plain(3), Some(Plain(2)), Some(2))]
  {
    hide After, HasActive;
    var update := Change(0, Some(Plain(1)), Plain(2), Some(Plain(1)), Some(1));
    var guess := Change(0, Some(Plain(1)), Plain(3), Some(Plain(2)), Some(2));
    steps, s := TwoReaders(retention);
    var log := s.log;
    TrailOfAppend([], log[0], 0);
    assert log == [] + [log[0]];
    steps, s := Finished(steps, s, 1, 0, update, retention);
    TrailOfAppend(log, s.log[1], 0);
    log := s.log;
    steps, s := Finished(steps, s, 2, 0, guess, retention);
    TrailOfAppend(log, s.log[2], 0);
    assert Trail(s.log, 0)[2].oldValue != Some(Trail(s.log, 0)[1].newValue);
  }

  // ----- One active rule per product -----

  ghost predicate ActiveApart(rules: map<nat, Rule>, open: map<nat, Txn>) {
    && (forall i, j :: i in rules && j in rules && i != j && rules[i].active && rules[j].active ==>
          rules[i].product != rules[j].product)
    && (forall t :: t in open && Held(open[t].progress).Some? ==> ApartFromRules(rules, Held(open[t].progress).value))
    && (forall t, u :: t in open && u in open && t != u && Held(open[t].progress).Some? && Held(open[u].progress).Some? ==>
          RowsDiffer(Held(open[t].progress).value.newValue, Held(open[u].progress).value.newValue))
  }

  predicate ApartFromRules(rules: map<nat, Rule>, c: Change) {
    forall i :: i in rules && i != c.id ==> RowsDiffer(rules[i], c.newValue)
  }

  predicate RowsDiffer(a: Rule, b: Rule) { a.active && b.active ==> a.product != b.product }

  /** A row newly written is apart from every live row, committed or held. */
  lemma WrittenIsApart(s: State, t: nat, freshId: nat)
    requires ActiveApart(s.rules, s.open) && RowsApart(s.open)
    requires t in s.open && s.open[t].progress.Loaded? && CanWrite(s, t, freshId) && t in WriteRow(s, t, freshId).open
    ensures var p := WriteRow(s, t, freshId).open[t].progress;
      p.Wrote? && ApartFromRules(s.rules, p.change)
      && (if s.open[t].op.Create? then p.change.newValue.product == s.open[t].op.product
          else
            p.change.id == s.open[t].op.id && p.change.id in s.rules && !RowLocked(s, t, p.change.id)
            && p.change.newValue.product == s.rules[p.change.id].product
            && (p.change.newValue.active ==> s.rules[p.change.id].active))
  {
    hide RowLocked, ProductContested, RowsApart;
  }

  lemma HeldIsApart(s: State, t: nat, freshId: nat, u: nat, c: Change)
    requires ActiveApart(s.rules, s.open) && u in s.open && u != t && Held(s.open[u].progress).Some?
    requires t in s.open && s.open[t].progress.Loaded? && CanWrite(s, t, freshId)
    requires if s.open[t].op.Create? then c.newValue.product == s.open[t].op.product
      else
        c.id in s.rules && !RowLocked(s, t, c.id) && c.newValue.product == s.rules[c.id].product
        && (c.newValue.active ==> s.rules[c.id].active)
    ensures RowsDiffer(Held(s.open[u].progress).value.newValue, c.newValue)
  {
    var other := Held(s.open[u].progress).value;
    assert ApartFromRules(s.rules, other);
    if s.open[t].op.Create? {
      assert !Claims(other, s.open[t].op.product);
    } else {
      assert other.id != c.id && RowsDiffer(s.rules[c.id], other.newValue);
    }
  }

  lemma WriteKeepsActiveApart(s: State, t: nat, freshId: nat)
    requires ActiveApart(s.rules, s.open) && RowsApart(s.open)
    requires t in s.open && s.open[t].progress.Loaded? && CanWrite(s, t, freshId)
    ensures ActiveApart(s.rules, WriteRow(s, t, freshId).open)
  {
    var s' := WriteRow(s, t, freshId);
    WriteTouchesOwn(s, t, freshId);
    hide WriteRow, CanWrite, ApartFromRules, RowLocked;
    if t in s'.open {
      WrittenIsApart(s, t, freshId);
      forall u | u in s.open && u != t && Held(s.open[u].progress).Some?
        ensures RowsDiffer(Held(s.open[u].progress).value.newValue, s'.open[t].progress.change.newValue)
      {
        HeldIsApart(s, t, freshId, u, s'.open[t].progress.change);
      }
    }
  }

  /** No transaction of the second table holds a change it did not hold in the first. */
  ghost predicate HoldsNoMore(open: map<nat, Txn>, open': map<nat, Txn>) {
    forall t :: t in open' && Held(open'[t].progress).Some? ==>
      t in open && Held(open[t].progress) == Held(open'[t].progress)
  }

  lemma FewerHeldKeepsActiveApart(rules: map<nat, Rule>, open: map<nat, Txn>, open': map<nat, Txn>)
    requires ActiveApart(rules, open) && HoldsNoMore(open, open')
    ensures ActiveApart(rules, open')
  {
    hide RowsDiffer, ApartFromRules;
  }

  lemma BookkeepingHoldsNoMore(s: State, step: Step, retention: nat)
    requires Enabled(s, step, retention) && !step.Write? && !step.Commit?
    ensures var s' := Apply(s, step, retention); s'.rules == s.rules && HoldsNoMore(s.open, s'.open)
  {
    hide HasActive;
  }

  lemma StepKeepsActiveApart(s: State, step: Step, retention: nat)
    requires ActiveApart(s.rules, s.open) && RowsApart(s.open) && Enabled(s, step, retention)
    ensures var s' := Apply(s, step, retention); ActiveApart(s'.rules, s'.open)
  {
    hide WriteRow, ActiveApart, RowsApart, HoldsNoMore, Install;
    if step.Write? {
      WriteKeepsActiveApart(s, step.t, step.freshId);
      WriteTouchesNoRule(s, step.t, step.freshId);
    } else if step.Commit? {
      CommitKeepsActiveApart(s, step.t);
    } else {
      hide Apply, Enabled;
      BookkeepingHoldsNoMore(s, step, retention);
      FewerHeldKeepsActiveApart(s.rules, s.open, Apply(s, step, retention).open);
    }
  }

  lemma WriteTouchesNoRule(s: State, t: nat, freshId: nat)
    requires t in s.open && s.open[t].progress.Loaded? && CanWrite(s, t, freshId)
    ensures WriteRow(s, t, freshId).rules == s.rules
  {
  }

  lemma CommitKeepsActiveApart(s: State, t: nat)
    requires ActiveApart(s.rules, s.open) && RowsApart(s.open)
    requires t in s.open && (s.open[t].progress.Kept? || s.open[t].progress.Audited?)
    ensures var s' := Install(s, t, ToCommitment(s.open[t])); ActiveApart(s'.rules, s'.open)
  {
    var c := s.open[t].progress.change;
    var s' := Install(s, t, ToCommitment(s.open[t]));
    assert Held(s.open[t].progress) == Some(c) && ApartFromRules(s.rules, c);
    assert s'.rules == s.rules[c.id := c.newValue];
    forall u | u in s'.open && Held(s'.open[u].progress).Some?
      ensures ApartFromRules(s'.rules, Held(s'.open[u].progress).value)
    {
      assert ApartFromRules(s.rules, Held(s.open[u].progress).value);
      assert RowsDiffer(c.newValue, Held(s.open[u].progress).value.newValue);
    }
    forall i, j | i in s'.rules && j in s'.rules && i != j
      ensures RowsDiffer(s'.rules[i], s'.rules[j])
    {
      if i == c.id || j == c.id {
        var other := if i == c.id then j else i;
        assert RowsDiffer(s.rules[other], c.newValue);
      }
    }
  }

  // ----- Audit ids -----

  ghost predicate AuditBelow(log: seq<Commitment>, id: nat, auditId: nat) {
    forall i :: 0 <= i < |log| && log[i].change.id == id ==> log[i].auditId < auditId
  }

  /** A rule's audit ids increase in the order its changes committed. */
  ghost predicate AuditInOrder(log: seq<Commitment>) {
    forall i, j :: 0 <= i < j < |log| && log[i].change.id == log[j].change.id ==> log[i].auditId < log[j].auditId
  }

  /** A transaction's audit id is above those of the rule's committed changes. */
  ghost predicate AuditAbove(log: seq<Commitment>, next: nat, p: Progress) {
    p.Audited? || p.Kept? ==> p.auditId < next && AuditBelow(log, p.change.id, p.auditId)
  }

  ghost predicate AuditInv(s: State) {
    && AuditInOrder(s.log)
    && (forall c :: c in s.log ==> c.auditId < s.nextAuditId)
    && (forall t :: t in s.open ==> AuditAbove(s.log, s.nextAuditId, s.open[t].progress))
  }

  lemma CommitKeepsAudit(s: State, t: nat)
    requires AuditInv(s) && RowsApart(s.open)
    requires t in s.open && (s.open[t].progress.Kept? || s.open[t].progress.Audited?)
    ensures AuditInv(Install(s, t, ToCommitment(s.open[t])))
  {
    var p := s.open[t].progress;
    assert AuditAbove(s.log, s.nextAuditId, p) && Held(p) == Some(p.change);
    forall u | u in s.open && u != t
      ensures AuditAbove(s.log + [ToCommitment(s.open[t])], s.nextAuditId, s.open[u].progress)
    {
      assert AuditAbove(s.log, s.nextAuditId, s.open[u].progress);
      assert Held(s.open[u].progress).Some? ==> Held(s.open[u].progress).value.id != p.change.id;
    }
  }

  /** No transaction of the second table holds an audit id it did not hold in the first. */
  ghost predicate AuditsNoMore(open: map<nat, Txn>, open': map<nat, Txn>) {
    forall t :: t in open' && (open'[t].progress.Audited? || open'[t].progress.Kept?) ==>
      t in open && (open[t].progress.Audited? || open[t].progress.Kept?)
      && open[t].progress.auditId == open'[t].progress.auditId && open[t].progress.change == open'[t].progress.change
  }

  lemma OthersAuditNoMore(s: State, step: Step, retention: nat)
    requires Enabled(s, step, retention) && !step.Audit? && !step.Commit?
    ensures var s' := Apply(s, step, retention);
      s'.log == s.log && s'.nextAuditId == s.nextAuditId && AuditsNoMore(s.open, s'.open)
  {
    hide HasActive, CanWrite, WriteRow, Held;
    if step.Write? {
      WriteAuditsNoMore(s, step.t, step.freshId);
    }
  }

  lemma WriteAuditsNoMore(s: State, t: nat, freshId: nat)
    requires t in s.open && s.open[t].progress.Loaded? && CanWrite(s, t, freshId)
    ensures var s' := WriteRow(s, t, freshId);
      s'.log == s.log && s'.nextAuditId == s.nextAuditId && AuditsNoMore(s.open, s'.open)
  {
    hide HasActive, RowLocked, ProductContested, Matches;
  }

  lemma AuditsNoMoreKeeps(s: State, s': State)
    requires AuditInv(s) && AuditsNoMore(s.open, s'.open) && s'.log == s.log && s'.nextAuditId == s.nextAuditId
    ensures AuditInv(s')
  {
    hide AuditBelow, AuditInOrder;
    forall t | t in s'.open
      ensures AuditAbove(s.log, s.nextAuditId, s'.open[t].progress)
    {
      assert t in s.open ==> AuditAbove(s.log, s.nextAuditId, s.open[t].progress);
    }
  }

  lemma AuditKeepsAudit(s: State, t: nat)
    requires AuditInv(s) && t in s.open && s.open[t].progress.Wrote?
    ensures AuditInv(Advanced(s, t, Audited(s.open[t].progress.change, s.nextAuditId)).(nextAuditId := s.nextAuditId + 1))
  {
    hide AuditInOrder;
  }

  lemma StepKeepsAudit(s: State, step: Step, retention: nat)
    requires AuditInv(s) && RowsApart(s.open) && Enabled(s, step, retention)
    ensures AuditInv(Apply(s, step, retention))
  {
    hide Install, RowsApart, AuditInv, AuditsNoMore;
    if step.Commit? {
      CommitKeepsAudit(s, step.t);
    } else if step.Audit? {
      AuditKeepsAudit(s, step.t);
    } else {
      hide Apply, Enabled;
      OthersAuditNoMore(s, step, retention);
      AuditsNoMoreKeeps(s, Apply(s, step, retention));
    }
  }

  // ----- The stored terms -----

  /** What every stored rule satisfies: the engine accepts it, the unused column is zero, and an absolute
      amount is a whole number of paise. */
  predicate TermsSound(terms: Terms) {
    && terms.step > 0 && terms.precision > 0
    && ValidAdjustment(ToAdjustment(terms.columns))
    && (if terms.columns.isAbsolute then terms.columns.bps == 0 && terms.columns.value % 1000 == 0
        else terms.columns.value == 0)
  }

  lemma AcceptedTermsAreSound(p: Pricing)
    requires ValidPricing(p)
    ensures ToAdjustmentColumns(p.amount).Some? ==> TermsSound(NewTerms(p, ToAdjustmentColumns(p.amount).value))
    ensures ToAdjustmentColumns(p.amount).None? <==>
      p.amount.RupeeAmount? && Abs(p.amount.paise) * 1000 > MAX_ABSOLUTE_ADJUSTMENT
  {
  }

  ghost predicate TermsInv(s: State) {
    && (forall id :: id in s.rules ==> TermsSound(s.rules[id].terms))
    && (forall t :: t in s.open ==> ValidOp(s.open[t].op))
    && (forall t :: t in s.open && Held(s.open[t].progress).Some? ==>
          TermsSound(Held(s.open[t].progress).value.newValue.terms))
  }

  lemma WriteTermsSound(s: State, t: nat, freshId: nat)
    requires TermsInv(s) && t in s.open && s.open[t].progress.Loaded? && CanWrite(s, t, freshId)
    ensures var s' := WriteRow(s, t, freshId);
      t in s'.open ==>
        s'.open[t].op == s.open[t].op && s'.open[t].progress.Wrote?
        && TermsSound(s'.open[t].progress.change.newValue.terms)
  {
    hide HasActive, TermsSound, ValidPricing, RowLocked, ProductContested, Matches;
    if !s.open[t].op.Deactivate? {
      AcceptedTermsAreSound(s.open[t].op.pricing);
    }
  }

  lemma StepKeepsTerms(s: State, step: Step, retention: nat)
    requires TermsInv(s) && Enabled(s, step, retention)
    ensures TermsInv(Apply(s, step, retention))
  {
    hide HasActive, TermsSound, ValidOp, WriteRow, CanWrite;
    if step.Write? {
      WriteTermsSound(s, step.t, step.freshId);
      WriteTouchesOwn(s, step.t, step.freshId);
      WriteTouchesNoRule(s, step.t, step.freshId);
    }
  }

  lemma {:induction false} RunKeepsRules(steps: seq<Step>, retention: nat)
    requires After(steps, retention).Some?
    ensures var s := After(steps, retention).value; ActiveApart(s.rules, s.open) && AuditInv(s) && TermsInv(s)
  {
    hide Apply, ActiveApart, AuditInv, TermsInv;
    if steps == [] {
      NoRulesYet();
    } else {
      var n := |steps| - 1;
      var s := After(steps[..n], retention).value;
      RunKeepsRules(steps[..n], retention);
      RunKeepsTrails(steps[..n], retention);
      StepKeepsActiveApart(s, steps[n], retention);
      StepKeepsAudit(s, steps[n], retention);
      StepKeepsTerms(s, steps[n], retention);
    }
  }

  lemma NoRulesYet()
    ensures ActiveApart(INITIAL.rules, INITIAL.open) && AuditInv(INITIAL) && TermsInv(INITIAL)
  {
  }

  /** Over every run: no two live rules price one product, a rule's audit rows read in id order are its
      changes in commit order, and the engine accepts the adjustment of every live rule. */
  lemma LiveRulesAreSound(steps: seq<Step>, retention: nat)
    requires After(steps, retention).Some?
    ensures var s := After(steps, retention).value;
      (forall i, j :: i in s.rules && j in s.rules && i != j && s.rules[i].active && s.rules[j].active ==>
         s.rules[i].product != s.rules[j].product)
      && AuditInOrder(s.log)
      && (forall id :: id in s.rules ==> TermsSound(s.rules[id].terms))
  {
    RunKeepsRules(steps, retention);
  }
}
