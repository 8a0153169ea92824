/**
 * Recomputing and publishing a tenant's rates.
 *
 * Tables are one tenant's, and a transaction works on a copy that is kept only if nothing throws. What
 * other transactions may do meanwhile is the subject of `Publication`.
 */
module PublicationService {
  import opened Outcomes
  import opened Rounding
  import opened Money
  import opened Purities
  import opened PricingEngine
  import opened PricingRules

  datatype Freshness = FreshQuote | StaleQuote | ExpiredQuote

  datatype Snapshot = Snapshot(metal: string, mid: int, purity: Purity, freshness: Freshness, at: int)

  datatype Product = Product(metal: string, purity: Purity, basis: PurityBasis, active: bool)

  datatype RuleRow = RuleRow(id: nat, productId: string, terms: Terms, active: bool, product: Product)

  datatype Trigger = MarketTick | RuleChange | ManualRecompute

  datatype PublishedRow = PublishedRow(result: PricingResult, unit: DisplayUnit, ruleId: nat, at: int)

  type Published = map<string, PublishedRow>
  type Units = map<string, DisplayUnit>

  datatype Direction = Up | Down | Unchanged

  datatype ChangeEvent = ChangeEvent(productId: string, oldRate: Option<int>, newRate: int, direction: Direction,
      trigger: Trigger)

  datatype OutboxRow = OutboxRow(productId: string, rate: int, unit: DisplayUnit, at: int, trigger: Trigger)

  datatype Tables = Tables(published: Published, events: seq<ChangeEvent>, outbox: seq<OutboxRow>)

  datatype TenantData = TenantData(rules: seq<RuleRow>, units: Units, tables: Tables)

  /** What aborts the transaction: an error the loop does not treat as the rule's, or a table check. */
  datatype Abort = Thrown(failure: PricingFailure) | CheckViolated

  datatype Counts = Counts(published: nat, skipped: nat)

  function InputFor(rule: RuleRow, unit: DisplayUnit, s: Snapshot): PricingInput {
    PricingInput(s.mid, s.purity, rule.product.purity, rule.product.basis, ToAdjustment(rule.terms.columns), unit,
                 rule.terms.step, rule.terms.mode, rule.terms.precision)
  }

  /** The table check on stored amounts; the checks on displayed lines always hold of a priced row. */
  predicate Balanced(r: PricingResult) { r.rawBaseRate + r.rawAdjustment == r.rawCustomerRate }

  function DirectionOf(old_: Option<int>, rate: int): Direction {
    if old_.None? || old_.value == rate then Unchanged else if rate > old_.value then Up else Down
  }

  function RateOf(published: Published, productId: string): Option<int> {
    if productId in published then Some(published[productId].result.rateDisplay) else None
  }

  /** The three rows of one published rate. */
  function Written(t: Tables, rule: RuleRow, unit: DisplayUnit, s: Snapshot, trigger: Trigger,
      r: PricingResult): Tables {
    var before := RateOf(t.published, rule.productId);
    Tables(
      t.published[rule.productId := PublishedRow(r, unit, rule.id, s.at)],
      t.events + [ChangeEvent(rule.productId, before, r.rateDisplay, DirectionOf(before, r.rateDisplay), trigger)],
      t.outbox + [OutboxRow(rule.productId, r.rateDisplay, unit, s.at, trigger)])
  }

  datatype Outcome = Outcome(tables: Tables, counts: Counts)

  /** One rule of the loop. */
  function PublishRule(o: Outcome, rule: RuleRow, units: Units, s: Snapshot, trigger: Trigger): Result<Outcome,
      Abort> {
    var skipped := Outcome(o.tables, o.counts.(skipped := o.counts.skipped + 1));
    if rule.productId !in units then Success(skipped)
    else
      match ComputeCustomerRate(InputFor(rule, units[rule.productId], s))
      case Failure(e) => if e.IsPricingError() then Success(skipped) else Failure(Thrown(e))
      case Success(r) =>
        if !Balanced(r) then Failure(CheckViolated)
        else Success(Outcome(Written(o.tables, rule, units[rule.productId], s, trigger, r),
                             o.counts.(published := o.counts.published + 1)))
  }

  function PublishAll(o: Outcome, rules: seq<RuleRow>, units: Units, s: Snapshot, trigger: Trigger): Result<Outcome,
      Abort> {
    if rules == [] then Success(o)
    else
      var earlier :- PublishAll(o, rules[..|rules| - 1], units, s, trigger);
      PublishRule(earlier, rules[|rules| - 1], units, s, trigger)
  }

  /** The live rules for the quote's metal. */
  function Selected(rules: seq<RuleRow>, metal: string): seq<RuleRow> {
    if rules == [] then []
    else
      var r := rules[|rules| - 1];
      Selected(rules[..|rules| - 1], metal) + if r.active && r.product.active && r.product.metal == metal then [r] else []
  }

  /** The transaction for one tenant: its new tables, or an abort. */
  function Recomputed(d: TenantData, s: Snapshot, trigger: Trigger): Result<Outcome, Abort> {
    var nothing := Outcome(d.tables, Counts(0, 0));
    if s.freshness.ExpiredQuote? then Success(nothing)
    else PublishAll(nothing, Selected(d.rules, s.metal), d.units, s, trigger)
  }

  /** The live rule with this id. */
  function FindActive(rules: seq<RuleRow>, id: nat): Option<RuleRow> {
    if rules == [] then None
    else if rules[0].id == id && rules[0].active then Some(rules[0])
    else FindActive(rules[1..], id)
  }

  /** The recompute inside a rule mutation's transaction, from the quote its resolver finds for the rule's
      metal, if any. Unlike a tick it does not ask whether the product has been retired. */
  function RecomputedRule(d: TenantData, ruleId: nat, quote: Option<Snapshot>): Result<Outcome, Abort> {
    var nothing := Outcome(d.tables, Counts(0, 0));
    match FindActive(d.rules, ruleId)
    case None => Success(nothing)
    case Some(rule) =>
      if quote.None? || quote.value.freshness.ExpiredQuote? || rule.productId !in d.units then Success(nothing)
      else PublishRule(nothing, rule, d.units, quote.value, RuleChange)
  }

  datatype QuoteOutcome = QuoteOutcome(tenants: nat, published: nat, skipped: nat, failed: nat)

  // ----- As it runs -----

  /** The loop over the rules, inside the transaction. */
  method PublishEach(start: Outcome, rules: seq<RuleRow>, units: Units, s: Snapshot, trigger: Trigger)
    returns (r: Result<Outcome, Abort>)
    ensures r == PublishAll(start, rules, units, s, trigger)
  {
    hide ComputeCustomerRate, Written, Balanced, InputFor, PublishAll;
    var tables, published, skipped := start.tables, start.counts.published, start.counts.skipped;
    NothingPublished(start, rules, units, s, trigger);
    for i := 0 to |rules|
      invariant PublishAll(start, rules[..i], units, s, trigger) == Success(Outcome(tables, Counts(published, skipped)))
    {
      OneMoreRule(start, rules, i, units, s, trigger);
      var rule := rules[i];
      if rule.productId !in units {
        skipped := skipped + 1;
        continue;
      }
      var unit := units[rule.productId];
      match ComputeCustomerRate(InputFor(rule, unit, s))
      case Failure(e) =>
        if !e.IsPricingError() {
          AbortIsFinal(start, rules, i + 1, units, s, trigger);
          return Failure(Thrown(e));
        }
        skipped := skipped + 1;
      case Success(result) =>
        if !Balanced(result) {
          AbortIsFinal(start, rules, i + 1, units, s, trigger);
          return Failure(CheckViolated);
        }
        tables := Written(tables, rule, unit, s, trigger, result);
        published := published + 1;
    }
    assert rules[..|rules|] == rules;
    return Success(Outcome(tables, Counts(published, skipped)));
  }

  class Database {
    var tenants: map<string, TenantData>

    constructor (tenants: map<string, TenantData>)
      ensures this.tenants == tenants
    {
      this.tenants := tenants;
    }

    method PublishForTenant(tenant: string, s: Snapshot, trigger: Trigger) returns (r: Result<Counts, Abort>)
      requires tenant in tenants
      modifies this
      ensures match Recomputed(old(tenants)[tenant], s, trigger)
        case Success(o) =>
          r == Success(o.counts) && tenants == old(tenants)[tenant := old(tenants)[tenant].(tables := o.tables)]
        case Failure(e) => r == Failure(e) && tenants == old(tenants)
    {
      var data := tenants[tenant];
      if s.freshness.ExpiredQuote? {
        assert data.(tables := data.tables) == data && tenants[tenant := data] == tenants;
        return Success(Counts(0, 0));
      }
      var nothing := Outcome(data.tables, Counts(0, 0));
      hide PublishAll;
      var outcome := PublishEach(nothing, Selected(data.rules, s.metal), data.units, s, trigger);
      match outcome
      case Failure(e) => return Failure(e);
      case Success(o) =>
        tenants := tenants[tenant := data.(tables := o.tables)];
        return Success(o.counts);
    }

    /** The recompute a rule mutation runs in its own transaction; true when a rate was published. */
    method RecomputeRule(tenant: string, ruleId: nat, quote: Option<Snapshot>) returns (r: Result<bool, Abort>)
      requires tenant in tenants
      modifies this
      ensures match RecomputedRule(old(tenants)[tenant], ruleId, quote)
        case Success(o) =>
          r == Success(o.counts.published == 1)
          && tenants == old(tenants)[tenant := old(tenants)[tenant].(tables := o.tables)]
        case Failure(e) => r == Failure(e) && tenants == old(tenants)
    {
      var data := tenants[tenant];
      assert data.(tables := data.tables) == data && tenants[tenant := data] == tenants;
      var found := FindActive(data.rules, ruleId);
      hide ComputeCustomerRate, Written, Balanced, InputFor, FindActive;
      if found.None? || quote.None? || quote.value.freshness.ExpiredQuote? { return Success(false); }
      var rule, s := found.value, quote.value;
      if rule.productId !in data.units { return Success(false); }
      var unit := data.units[rule.productId];
      match ComputeCustomerRate(InputFor(rule, unit, s))
      case Failure(e) =>
        if !e.IsPricingError() { return Failure(Thrown(e)); }
        return Success(false);
      case Success(result) =>
        if !Balanced(result) { return Failure(CheckViolated); }
        tenants := tenants[tenant := data.(tables := Written(data.tables, rule, unit, s, RuleChange, result))];
        return Success(true);
    }

    /** Each affected tenant in its own transaction; one that aborts keeps its tables and stops nobody else. */
    method PublishForQuote(affected: seq<string>, s: Snapshot) returns (r: QuoteOutcome)
      requires forall i :: 0 <= i < |affected| ==> affected[i] in tenants
      requires forall i, j :: 0 <= i < j < |affected| ==> affected[i] != affected[j]
      modifies this
      ensures tenants.Keys == old(tenants).Keys
      ensures TickedThrough(old(tenants), tenants, if s.freshness.ExpiredQuote? then [] else affected, s)
      ensures !s.freshness.ExpiredQuote? ==>
        r == Totals(Ticked(old(tenants), affected, s))
    {
      if s.freshness.ExpiredQuote? {
        NoneTicked(tenants, s);
        return QuoteOutcome(0, 0, 0, 0);
      }
      var published: nat, skipped: nat, failed: nat := 0, 0, 0;
      ghost var results := Ticked(old(tenants), affected, s);
      hide Recomputed, Totals, TickedThrough;
      NoTotals(results);
      NoneTicked(tenants, s);
      for i := 0 to |affected|
        invariant tenants.Keys == old(tenants).Keys
        invariant TickedThrough(old(tenants), tenants, affected[..i], s)
        invariant QuoteOutcome(i, published, skipped, failed) == Totals(results[..i])
      {
        assert affected[..i + 1] == affected[..i] + [affected[i]] && affected[i] !in affected[..i];
        OneMoreTotal(results, i);
        TickedOneMore(old(tenants), tenants, affected[..i], affected[i], s);
        ghost var before := tenants;
        var outcome := PublishForTenant(affected[i], s, MarketTick);
        assert tenants == before[affected[i] := AfterTick(before[affected[i]], s)];
        match outcome
        case Success(counts) =>
          published := published + counts.published;
          skipped := skipped + counts.skipped;
        case Failure(_) => failed := failed + 1;
      }
      assert affected[..|affected|] == affected && results[..|affected|] == results;
      return QuoteOutcome(|affected|, published, skipped, failed);
    }
  }

  /** The listed tenants are as a tick leaves them, and the others as they were. */
  ghost predicate TickedThrough(before: map<string, TenantData>, after: map<string, TenantData>, done: seq<string>,
      s: Snapshot) {
    after.Keys == before.Keys
    && forall t :: t in before ==> after[t] == if t in done then AfterTick(before[t], s) else before[t]
  }

  lemma NoneTicked(tenants: map<string, TenantData>, s: Snapshot)
    ensures TickedThrough(tenants, tenants, [], s)
  {
  }

  lemma TickedOneMore(before: map<string, TenantData>, mid: map<string, TenantData>, done: seq<string>, t: string,
      s: Snapshot)
    requires TickedThrough(before, mid, done, s) && t in before && t !in done
    ensures TickedThrough(before, mid[t := AfterTick(mid[t], s)], done + [t], s)
  {
    hide AfterTick;
  }

  /** What a market tick does to each affected tenant, as each was before. */
  function Ticked(tenants: map<string, TenantData>, affected: seq<string>, s: Snapshot): seq<Result<Outcome, Abort>>
    requires forall i :: 0 <= i < |affected| ==> affected[i] in tenants
  {
    seq(|affected|, i requires 0 <= i < |affected| => Recomputed(tenants[affected[i]], s, MarketTick))
  }

  /** A tenant after a market tick. */
  function AfterTick(d: TenantData, s: Snapshot): TenantData {
    match Recomputed(d, s, MarketTick)
    case Success(o) => d.(tables := o.tables)
    case Failure(_) => d
  }

  function Totals(results: seq<Result<Outcome, Abort>>): QuoteOutcome {
    if results == [] then QuoteOutcome(0, 0, 0, 0)
    else
      var earlier := Totals(results[..|results| - 1]);
      match results[|results| - 1]
      case Success(o) =>
        QuoteOutcome(earlier.tenants + 1, earlier.published + o.counts.published,
                     earlier.skipped + o.counts.skipped, earlier.failed)
      case Failure(_) => earlier.(tenants := earlier.tenants + 1, failed := earlier.failed + 1)
  }

  lemma NoTotals(results: seq<Result<Outcome, Abort>>)
    ensures Totals(results[..0]) == QuoteOutcome(0, 0, 0, 0)
  {
  }

  lemma OneMoreTotal(results: seq<Result<Outcome, Abort>>, i: nat)
    requires i < |results|
    ensures var t, t' := Totals(results[..i]), Totals(results[..i + 1]);
      match results[i]
      case Success(o) =>
        t' == QuoteOutcome(t.tenants + 1, t.published + o.counts.published, t.skipped + o.counts.skipped, t.failed)
      case Failure(_) => t' == t.(tenants := t.tenants + 1, failed := t.failed + 1)
  {
    assert results[..i + 1][..i] == results[..i];
  }

  lemma NothingPublished(o: Outcome, rules: seq<RuleRow>, units: Units, s: Snapshot, trigger: Trigger)
    ensures PublishAll(o, rules[..0], units, s, trigger) == Success(o)
  {
  }

  lemma OneMoreRule(o: Outcome, rules: seq<RuleRow>, i: nat, units: Units, s: Snapshot, trigger: Trigger)
    requires i < |rules| && PublishAll(o, rules[..i], units, s, trigger).Success?
    ensures PublishAll(o, rules[..i + 1], units, s, trigger)
         == PublishRule(PublishAll(o, rules[..i], units, s, trigger).value, rules[i], units, s, trigger)
  {
    hide PublishRule;
    assert rules[..i + 1][..i] == rules[..i];
  }

  /** The totals of two lists of outcomes are those of both. */
  lemma {:induction false} TotalsAdd(a: seq<Result<Outcome, Abort>>, b: seq<Result<Outcome, Abort>>)
    ensures var t, u, v := Totals(a), Totals(b), Totals(a + b);
      v == QuoteOutcome(t.tenants + u.tenants, t.published + u.published, t.skipped + u.skipped, t.failed + u.failed)
  {
    if b == [] {
      assert a + b == a;
    } else {
      var n := |b| - 1;
      TotalsAdd(a, b[..n]);
      assert (a + b)[..|a + b| - 1] == a + b[..n];
    }
  }

  /** One committed tenant counts with what it published and skipped, one that aborted as failed. */
  lemma TotalsOfOne(r: Result<Outcome, Abort>)
    ensures Totals([r]) == match r
      case Success(o) => QuoteOutcome(1, o.counts.published, o.counts.skipped, 0)
      case Failure(_) => QuoteOutcome(1, 0, 0, 1)
  {
    assert [r][..0] == [];
  }

  lemma {:induction false} AbortIsFinal(o: Outcome, rules: seq<RuleRow>, n: nat, units: Units, s: Snapshot,
      trigger: Trigger)
    requires n <= |rules| && PublishAll(o, rules[..n], units, s, trigger).Failure?
    ensures PublishAll(o, rules, units, s, trigger) == PublishAll(o, rules[..n], units, s, trigger)
  {
    if n == |rules| {
      assert rules[..n] == rules;
    } else {
      var m := |rules| - 1;
      assert rules[..m][..n] == rules[..n];
      AbortIsFinal(o, rules[..m], n, units, s, trigger);
    }
  }

  // ----- What a recompute leaves -----

  predicate DistinctProducts(rules: seq<RuleRow>) {
    forall i, j :: 0 <= i < j < |rules| ==> rules[i].productId != rules[j].productId
  }

  /** The rule's product shows the engine's result for it, or what it showed before if it has none. */
  predicate ShowsRule(published: Published, before: Published, rule: RuleRow, units: Units, s: Snapshot) {
    var id := rule.productId;
    if id in units && ComputeCustomerRate(InputFor(rule, units[id], s)).Success? then
      id in published
      && published[id] == PublishedRow(ComputeCustomerRate(InputFor(rule, units[id], s)).value, units[id], rule.id, s.at)
    else
      (id in published <==> id in before) && (id in before ==> published[id] == before[id])
  }

  lemma RuleShows(o: Outcome, rule: RuleRow, units: Units, s: Snapshot, trigger: Trigger)
    requires PublishRule(o, rule, units, s, trigger).Success?
    ensures var o' := PublishRule(o, rule, units, s, trigger).value;
      ShowsRule(o'.tables.published, o.tables.published, rule, units, s)
      && (forall id :: id in o'.tables.published.Keys + o.tables.published.Keys && id != rule.productId ==>
            id in o'.tables.published && id in o.tables.published
            && o'.tables.published[id] == o.tables.published[id])
      && |o'.tables.events| - |o.tables.events| == |o'.tables.outbox| - |o.tables.outbox|
         == o'.counts.published - o.counts.published
      && o'.counts.published + o'.counts.skipped == o.counts.published + o.counts.skipped + 1
  {
    hide ComputeCustomerRate;
  }

  predicate Untouched(published: Published, before: Published, rules: seq<RuleRow>) {
    forall id :: id in published.Keys + before.Keys && (forall k :: 0 <= k < |rules| ==> rules[k].productId != id) ==>
      id in published && id in before && published[id] == before[id]
  }

  /** A committed recompute shows, for every rule of an enabled product, exactly the engine's result; a rule
      that cannot be priced keeps its old row, and so does every other product. Every rule is counted once,
      and each published one adds one event and one outbox row. */
  lemma {:induction false} RecomputeShowsTheEngine(o: Outcome, rules: seq<RuleRow>, units: Units, s: Snapshot,
      trigger: Trigger)
    requires DistinctProducts(rules) && PublishAll(o, rules, units, s, trigger).Success?
    ensures var o' := PublishAll(o, rules, units, s, trigger).value;
      (forall k :: 0 <= k < |rules| ==>
         ShowsRule(o'.tables.published, o.tables.published, rules[k], units, s))
      && Untouched(o'.tables.published, o.tables.published, rules)
      && |o'.tables.events| - |o.tables.events| == |o'.tables.outbox| - |o.tables.outbox|
         == o'.counts.published - o.counts.published
      && o'.counts.published + o'.counts.skipped == o.counts.published + o.counts.skipped + |rules|
  {
    if rules != [] {
      var n := |rules| - 1;
      var earlier := rules[..n];
      RecomputeShowsTheEngine(o, earlier, units, s, trigger);
      var m := PublishAll(o, earlier, units, s, trigger).value;
      RuleShows(m, rules[n], units, s, trigger);
      var o' := PublishAll(o, rules, units, s, trigger).value;
      hide PublishAll, PublishRule, ComputeCustomerRate;
      assert rules == earlier + [rules[n]];
      ShownStays(o.tables.published, m.tables.published, o'.tables.published, earlier, rules[n], units, s);
    }
  }

  /** Publishing a rule leaves what the earlier ones show. */
  lemma ShownStays(before: Published, mid: Published, published: Published, earlier: seq<RuleRow>, last: RuleRow,
      units: Units, s: Snapshot)
    requires DistinctProducts(earlier + [last])
    requires forall k :: 0 <= k < |earlier| ==> ShowsRule(mid, before, earlier[k], units, s)
    requires Untouched(mid, before, earlier) && ShowsRule(published, mid, last, units, s)
    requires forall id :: id in published.Keys + mid.Keys && id != last.productId ==>
      id in published && id in mid && published[id] == mid[id]
    ensures forall k :: 0 <= k < |earlier + [last]| ==> ShowsRule(published, before, (earlier + [last])[k], units, s)
    ensures Untouched(published, before, earlier + [last])
  {
    hide ShowsRule, Untouched;
    var rules, n := earlier + [last], |earlier|;
    assert forall k :: 0 <= k < n ==> rules[k] == earlier[k] && rules[k].productId != rules[n].productId;
    forall k | 0 <= k < n
      ensures ShowsRule(published, before, rules[k], units, s)
    {
      SameRowShows(before, mid, published, earlier[k], units, s);
    }
    LastShows(before, mid, published, earlier, last, units, s);
    MoreUntouched(before, mid, published, earlier, last, units, s);
  }

  lemma SameRowShows(before: Published, mid: Published, published: Published, rule: RuleRow, units: Units,
      s: Snapshot)
    requires ShowsRule(mid, before, rule, units, s)
    requires rule.productId in published.Keys + mid.Keys ==>
      rule.productId in published && rule.productId in mid && published[rule.productId] == mid[rule.productId]
    ensures ShowsRule(published, before, rule, units, s)
  {
    hide ComputeCustomerRate, InputFor;
  }

  lemma LastShows(before: Published, mid: Published, published: Published, earlier: seq<RuleRow>, last: RuleRow,
      units: Units, s: Snapshot)
    requires forall k :: 0 <= k < |earlier| ==> earlier[k].productId != last.productId
    requires Untouched(mid, before, earlier) && ShowsRule(published, mid, last, units, s)
    ensures ShowsRule(published, before, last, units, s)
  {
    hide ComputeCustomerRate, InputFor;
  }

  lemma MoreUntouched(before: Published, mid: Published, published: Published, earlier: seq<RuleRow>, last: RuleRow,
      units: Units, s: Snapshot)
    requires Untouched(mid, before, earlier)
    requires forall id :: id in published.Keys + mid.Keys && id != last.productId ==>
      id in published && id in mid && published[id] == mid[id]
    ensures Untouched(published, before, earlier + [last])
  {
    var rules := earlier + [last];
    forall id | id in published.Keys + before.Keys && forall k :: 0 <= k < |rules| ==> rules[k].productId != id
      ensures id in published && id in before && published[id] == before[id]
    {
      assert rules[|earlier|].productId != id;
      assert forall k :: 0 <= k < |earlier| ==> rules[k] == earlier[k] && earlier[k].productId != id;
    }
  }

  // ----- A tenant's own rules -----

  predicate IsLive(r: RuleRow, metal: string) { r.active && r.product.active && r.product.metal == metal }

  /** The selection is every live rule of the metal, as often and in the order the tenant has them. */
  lemma {:induction false} SelectedIsFilter(rules: seq<RuleRow>, more: seq<RuleRow>, metal: string)
    ensures forall r :: r in Selected(rules, metal) <==> r in rules && IsLive(r, metal)
    ensures forall r :: IsLive(r, metal) ==> multiset(Selected(rules, metal))[r] == multiset(rules)[r]
    ensures Selected(rules + more, metal) == Selected(rules, metal) + Selected(more, metal)
  {
    SelectedMembers(rules, metal);
    SelectedJoins(rules, more, metal);
  }

  lemma {:induction false} SelectedMembers(rules: seq<RuleRow>, metal: string)
    ensures forall r :: r in Selected(rules, metal) <==> r in rules && IsLive(r, metal)
    ensures forall r :: IsLive(r, metal) ==> multiset(Selected(rules, metal))[r] == multiset(rules)[r]
  {
    if rules != [] {
      var n := |rules| - 1;
      SelectedMembers(rules[..n], metal);
      assert rules == rules[..n] + [rules[n]];
    }
  }

  lemma {:induction false} SelectedJoins(rules: seq<RuleRow>, more: seq<RuleRow>, metal: string)
    ensures Selected(rules + more, metal) == Selected(rules, metal) + Selected(more, metal)
  {
    if more == [] {
      assert rules + more == rules;
    } else {
      var n := |more| - 1;
      SelectedJoins(rules, more[..n], metal);
      assert (rules + more)[..|rules + more| - 1] == rules + more[..n];
    }
  }

  /** No two live rules of the metal price one product. */
  predicate OneRulePerProduct(rules: seq<RuleRow>, metal: string) {
    forall i, j :: 0 <= i < j < |rules| && IsLive(rules[i], metal) && IsLive(rules[j], metal) ==>
      rules[i].productId != rules[j].productId
  }

  lemma {:induction false} SelectedAreDistinct(rules: seq<RuleRow>, metal: string)
    requires OneRulePerProduct(rules, metal)
    ensures DistinctProducts(Selected(rules, metal))
  {
    if rules != [] {
      var n := |rules| - 1;
      SelectedAreDistinct(rules[..n], metal);
      SelectedMembers(rules[..n], metal);
      var earlier := Selected(rules[..n], metal);
      forall i | 0 <= i < |earlier| && IsLive(rules[n], metal)
        ensures earlier[i].productId != rules[n].productId
      {
        assert earlier[i] in earlier;
        var k :| 0 <= k < n && rules[..n][k] == earlier[i];
      }
    }
  }

  /** The engine's answer for a rule's own market, product and terms. */
  function PriceOf(r: RuleRow, unit: DisplayUnit, s: Snapshot): Result<PricingResult, PricingFailure> {
    ComputeCustomerRate(PricingInput(
      baseRate := s.mid, basePurity := s.purity, targetPurity := r.product.purity, basis := r.product.basis,
      adjustment := if r.terms.columns.isAbsolute then Absolute(r.terms.columns.value) else Percentage(r.terms.columns.bps),
      unit := unit, step := r.terms.step, mode := r.terms.mode, precision := r.terms.precision))
  }

  /** The products whose rule gets a price. */
  function PricedProducts(rules: seq<RuleRow>, units: Units, s: Snapshot): set<string> {
    set r | r in rules && r.productId in units && PriceOf(r, units[r.productId], s).Success? :: r.productId
  }

  lemma {:induction false} PublishedAreThePriced(o: Outcome, rules: seq<RuleRow>, units: Units, s: Snapshot, trigger: Trigger)
    requires DistinctProducts(rules) && PublishAll(o, rules, units, s, trigger).Success?
    ensures PublishAll(o, rules, units, s, trigger).value.counts.published
         == o.counts.published + |PricedProducts(rules, units, s)|
  {
    hide ComputeCustomerRate;
    if rules == [] {
      assert PricedProducts(rules, units, s) == {};
    } else {
      var n := |rules| - 1;
      PublishedAreThePriced(o, rules[..n], units, s, trigger);
      PricedGrows(rules, units, s);
    }
  }

  lemma PricedGrows(rules: seq<RuleRow>, units: Units, s: Snapshot)
    requires rules != [] && DistinctProducts(rules)
    ensures var n := |rules| - 1;
      var r := rules[n];
      |PricedProducts(rules, units, s)| == |PricedProducts(rules[..n], units, s)|
        + if r.productId in units && PriceOf(r, units[r.productId], s).Success? then 1 else 0
  {
    hide ComputeCustomerRate, PriceOf;
    var n := |rules| - 1;
    var r := rules[n];
    var earlier := PricedProducts(rules[..n], units, s);
    assert rules == rules[..n] + [r];
    assert r.productId !in earlier by {
      assert forall q :: q in rules[..n] ==> q.productId != r.productId;
    }
    assert PricedProducts(rules, units, s)
      == earlier + if r.productId in units && PriceOf(r, units[r.productId], s).Success? then {r.productId} else {};
  }

  /** The product shows the engine's result for the rule if it is enabled and the engine prices it, and otherwise
      what it showed before. */
  predicate ShowsPrice(after: Published, before: Published, r: RuleRow, units: Units, s: Snapshot) {
    if r.productId in units && PriceOf(r, units[r.productId], s).Success?
    then r.productId in after
      && after[r.productId] == PublishedRow(PriceOf(r, units[r.productId], s).value, units[r.productId], r.id, s.at)
    else RateRow(after, r.productId) == RateRow(before, r.productId)
  }

  /** A committed tick of a usable quote leaves, for every live rule of the metal among the tenant's own: the
      engine's result, if the product is enabled and the engine prices it, and the old row otherwise. No other
      product changes, and the counts are of exactly those rules. */
  lemma TickShowsTheEngine(d: TenantData, s: Snapshot, trigger: Trigger)
    requires !s.freshness.ExpiredQuote? && OneRulePerProduct(d.rules, s.metal) && Recomputed(d, s, trigger).Success?
    ensures var o := Recomputed(d, s, trigger).value;
      var before, after := d.tables.published, o.tables.published;
      (forall r :: r in d.rules && IsLive(r, s.metal) ==> ShowsPrice(after, before, r, d.units, s))
      && (forall id :: (forall r :: r in d.rules && IsLive(r, s.metal) ==> r.productId != id) ==>
            RateRow(after, id) == RateRow(before, id))
      && o.counts.published == |PricedProducts(Selected(d.rules, s.metal), d.units, s)|
      && o.counts.published + o.counts.skipped == |Selected(d.rules, s.metal)|
  {
    hide ComputeCustomerRate, PublishAll, ShowsRule, Untouched, ShowsPrice, PricedProducts, RateRow, IsLive;
    var rules, nothing := Selected(d.rules, s.metal), Outcome(d.tables, Counts(0, 0));
    SelectedAreDistinct(d.rules, s.metal);
    RecomputeShowsTheEngine(nothing, rules, d.units, s, trigger);
    PublishedAreThePriced(nothing, rules, d.units, s, trigger);
    ShownAreAll(d.rules, s, d.units, d.tables.published, Recomputed(d, s, trigger).value.tables.published);
  }

  lemma ShownAreAll(own: seq<RuleRow>, s: Snapshot, units: Units, before: Published, after: Published)
    requires var rules := Selected(own, s.metal);
      Untouched(after, before, rules)
      && forall k :: 0 <= k < |rules| ==> ShowsRule(after, before, rules[k], units, s)
    ensures forall r :: r in own && IsLive(r, s.metal) ==> ShowsPrice(after, before, r, units, s)
    ensures forall id :: (forall r :: r in own && IsLive(r, s.metal) ==> r.productId != id) ==>
      RateRow(after, id) == RateRow(before, id)
  {
    hide ShowsRule, Untouched, ShowsPrice, RateRow, IsLive;
    var rules := Selected(own, s.metal);
    SelectedMembers(own, s.metal);
    hide Selected;
    forall r | r in own && IsLive(r, s.metal)
      ensures ShowsPrice(after, before, r, units, s)
    {
      assert r in rules;
      var k :| 0 <= k < |rules| && rules[k] == r;
      ShownIsPriced(after, before, rules[k], units, s);
    }
    forall id | forall r :: r in own && IsLive(r, s.metal) ==> r.productId != id
      ensures RateRow(after, id) == RateRow(before, id)
    {
      assert forall k :: 0 <= k < |rules| ==> rules[k] in rules && rules[k].productId != id;
      UntouchedRow(after, before, rules, id);
    }
  }

  lemma ShownIsPriced(after: Published, before: Published, r: RuleRow, units: Units, s: Snapshot)
    requires ShowsRule(after, before, r, units, s)
    ensures ShowsPrice(after, before, r, units, s)
  {
    hide ComputeCustomerRate;
  }

  lemma UntouchedRow(after: Published, before: Published, rules: seq<RuleRow>, id: string)
    requires Untouched(after, before, rules) && forall k :: 0 <= k < |rules| ==> rules[k].productId != id
    ensures RateRow(after, id) == RateRow(before, id)
  {
  }

  function RateRow(published: Published, id: string): Option<PublishedRow> {
    if id in published then Some(published[id]) else None
  }

  /** An expired quote publishes nothing and counts nothing. */
  lemma ExpiredQuoteLeavesAll(d: TenantData, s: Snapshot, trigger: Trigger)
    requires s.freshness.ExpiredQuote?
    ensures Recomputed(d, s, trigger) == Success(Outcome(d.tables, Counts(0, 0)))
  {
  }

  /** The exact worth of a rule's product: the quote at the product's fineness, plus the rule's margin. */
  ghost function Worth(r: RuleRow, s: Snapshot): real
    requires ValidPurity(r.product.purity) && ValidPurity(s.purity)
  {
    var fine := r.product.purity.num as real / r.product.purity.den as real;
    var source := s.purity.num as real / s.purity.den as real;
    var base := s.mid as real * (if r.product.basis.FineRatio? then fine / source else fine);
    if r.terms.columns.isAbsolute then base + r.terms.columns.value as real
    else base + base * (r.terms.columns.bps as real / 10_000.0)
  }

  /** What an authored rule publishes: its worth in the display unit, rounded once to the rule's step. */
  lemma AuthoredRulePublishesItsWorth(r: RuleRow, unit: DisplayUnit, s: Snapshot)
    requires Authored(r, s)
    ensures var rate := Quantised(InUnit(Worth(r, s), unit), r.terms.step, r.terms.mode);
      (PriceOf(r, unit, s).Success? <==> rate > 0)
      && (PriceOf(r, unit, s).Success? ==> PriceOf(r, unit, s).value.rateDisplay == rate)
  {
    var i := InputFor(r, unit, s);
    AcceptableInput(r, unit, s);
    PriceIsOneRounding(i);
    WorthIsCustomerValue(r, unit, s);
    hide ComputeCustomerRate, Quantised, InUnit, Worth, CustomerValue;
  }

  lemma WorthIsCustomerValue(r: RuleRow, unit: DisplayUnit, s: Snapshot)
    requires Authored(r, s) && Acceptable(InputFor(r, unit, s))
    ensures CustomerValue(InputFor(r, unit, s)) == Worth(r, s)
  {
  }

  // ----- When a tenant's transaction commits -----

  /** The rule does not abort its tenant's transaction. */
  predicate Harmless(rule: RuleRow, units: Units, s: Snapshot) {
    rule.productId in units ==>
      match ComputeCustomerRate(InputFor(rule, units[rule.productId], s))
      case Failure(e) => e.IsPricingError()
      case Success(r) => Balanced(r)
  }

  /** One rule that is not harmless costs the tenant the whole recompute. */
  lemma {:induction false} CommitsExactlyWhen(o: Outcome, rules: seq<RuleRow>, units: Units, s: Snapshot,
      trigger: Trigger)
    ensures PublishAll(o, rules, units, s, trigger).Success? <==>
      forall k :: 0 <= k < |rules| ==> Harmless(rules[k], units, s)
  {
    hide ComputeCustomerRate;
    if rules != [] {
      var n := |rules| - 1;
      CommitsExactlyWhen(o, rules[..n], units, s, trigger);
      assert forall k :: 0 <= k < n ==> rules[..n][k] == rules[k];
    }
  }

  /** A rule as the pricing API stores it, for a product and a quote that pass their own checks. */
  predicate Authored(rule: RuleRow, s: Snapshot) {
    TermsSound(rule.terms) && ValidPurity(rule.product.purity) && ValidPurity(s.purity) && s.mid > 0
  }

  /** For authored rules: an absolute rule is always harmless; a percentage rule is harmless exactly when it
      has no positive price or the fractions its stored amounts drop cancel. */
  lemma AuthoredRuleIsHarmlessExactlyWhen(rule: RuleRow, units: Units, s: Snapshot)
    requires Authored(rule, s) && rule.productId in units
    ensures var i := InputFor(rule, units[rule.productId], s);
      Acceptable(i)
      && (rule.terms.columns.isAbsolute ==> Harmless(rule, units, s))
      && (Harmless(rule, units, s)
          == (CustomerPrice(i) <= 0 || FractionsCancel(BaseValue(i), AdjustmentValue(i), HalfEven)))
  {
    var i := InputFor(rule, units[rule.productId], s);
    AcceptableInput(rule, units[rule.productId], s);
    hide ComputeCustomerRate, CustomerPrice, BaseValue, AdjustmentValue, FractionsCancel, InputFor, TermsSound, Acceptable;
    PricedExactlyWhen(i);
    if ComputeCustomerRate(i).Success? {
      StoredSumBalancesExactlyWhen(i);
      if rule.terms.columns.isAbsolute {
        AbsoluteBalances(i);
      }
    }
  }

  lemma AcceptableInput(rule: RuleRow, unit: DisplayUnit, s: Snapshot)
    requires Authored(rule, s)
    ensures var i := InputFor(rule, unit, s);
      Acceptable(i) && (rule.terms.columns.isAbsolute ==> i.adjustment.Absolute? && i.adjustment.milliPaisePerGram % 1000 == 0)
  {
  }

  lemma PricedExactlyWhen(i: PricingInput)
    requires Acceptable(i)
    ensures ComputeCustomerRate(i).Success? == (CustomerPrice(i) > 0)
    ensures ComputeCustomerRate(i).Failure? ==> ComputeCustomerRate(i).error.IsPricingError()
  {
    hide ComputeCustomerRate;
    PriceIsOneRounding(i);
  }

  lemma AbsoluteBalances(i: PricingInput)
    requires ComputeCustomerRate(i).Success? && i.adjustment.Absolute? && i.adjustment.milliPaisePerGram % 1000 == 0
    ensures Balanced(ComputeCustomerRate(i).value)
  {
    hide ComputeCustomerRate, BaseValue, Residue;
    AbsoluteMarginBalances(i);
    ThousandsAreEven(i.adjustment.milliPaisePerGram);
  }

  lemma ThousandsAreEven(n: int)
    requires n % 1000 == 0
    ensures n % 2 == 0
  {
    var k := n / 1000 * 500;
    assert n == 2 * k;
    DoubleIsEven(k);
  }

  lemma DoubleIsEven(k: int)
    ensures 2 * k % 2 == 0
  {
  }

  /** There is a percentage rule and a quote, each acceptable by itself, with which no tenant that sells the
      product gets any rate of the metal published. */
  lemma APercentageRuleCanFreezeATenant(rules: seq<RuleRow>, units: Units, o: Outcome, trigger: Trigger)
    returns (rule: RuleRow, unit: DisplayUnit, s: Snapshot)
    ensures Authored(rule, s)
    ensures PublishAll(o, rules + [rule], units[rule.productId := unit], s, trigger).Failure?
  {
    var i := PercentageMarginCanFailTheCheck();
    unit := i.unit;
    rule := RuleRow(0, "p", Terms(Columns(false, 0, i.adjustment.bps), i.step, i.mode, i.precision), true,
                    Product("gold", i.targetPurity, i.basis, true));
    s := Snapshot("gold", i.baseRate, i.basePurity, FreshQuote, 0);
    AcceptableIfPriced(i);
    hide ComputeCustomerRate;
    assert InputFor(rule, unit, s) == i;
    var all, enabled := rules + [rule], units[rule.productId := unit];
    assert all[|rules|] == rule && !Harmless(rule, enabled, s);
    CommitsExactlyWhen(o, all, enabled, s, trigger);
  }

  lemma AcceptableIfPriced(i: PricingInput)
    ensures ComputeCustomerRate(i).Success? ==> Acceptable(i)
  {
    hide ComputeCustomerRate;
    PriceIsOneRounding(i);
  }

  // ----- The change log and the outbox -----

  function LastRate(events: seq<ChangeEvent>, productId: string): Option<int> {
    if events == [] then None
    else
      var e := events[|events| - 1];
      if e.productId == productId then Some(e.newRate) else LastRate(events[..|events| - 1], productId)
  }

  function LastAnnounced(outbox: seq<OutboxRow>, productId: string): Option<OutboxRow> {
    if outbox == [] then None
    else
      var o := outbox[|outbox| - 1];
      if o.productId == productId then Some(o) else LastAnnounced(outbox[..|outbox| - 1], productId)
  }

  /** Each event starts from the rate the product's previous event ended with. */
  ghost predicate Chained(events: seq<ChangeEvent>) {
    forall k :: 0 <= k < |events| ==> events[k].oldRate == LastRate(events[..k], events[k].productId)
  }

  /** A product's last event and last outbox row carry its current rate, and the outbox row its unit. */
  predicate InStep(t: Tables, productId: string) {
    LastRate(t.events, productId) == RateOf(t.published, productId)
    && match LastAnnounced(t.outbox, productId)
       case None => productId !in t.published
       case Some(row) =>
         productId in t.published && row.rate == t.published[productId].result.rateDisplay
         && row.unit == t.published[productId].unit
  }

  /** Each event points the way the rate went; a first rate, or an equal one, is unchanged. */
  predicate Pointed(events: seq<ChangeEvent>) {
    forall e :: e in events ==>
      (e.direction.Up? <==> e.oldRate.Some? && e.newRate > e.oldRate.value)
      && (e.direction.Down? <==> e.oldRate.Some? && e.newRate < e.oldRate.value)
  }

  ghost predicate Consistent(t: Tables) { Chained(t.events) && Pointed(t.events) && forall id :: InStep(t, id) }

  lemma ChainGrows(events: seq<ChangeEvent>, e: ChangeEvent)
    requires Chained(events) && e.oldRate == LastRate(events, e.productId)
    ensures Chained(events + [e])
  {
    var longer := events + [e];
    forall k | 0 <= k < |longer|
      ensures longer[k].oldRate == LastRate(longer[..k], longer[k].productId)
    {
      assert longer[..k] == if k < |events| then events[..k] else events;
    }
  }

  lemma WrittenKeepsInStep(t: Tables, rule: RuleRow, unit: DisplayUnit, s: Snapshot, trigger: Trigger,
      r: PricingResult, id: string)
    requires InStep(t, id)
    ensures InStep(Written(t, rule, unit, s, trigger, r), id)
  {
    var t' := Written(t, rule, unit, s, trigger, r);
    assert t'.events[..|t.events|] == t.events && t'.outbox[..|t.outbox|] == t.outbox;
  }

  lemma WrittenKeepsLog(t: Tables, rule: RuleRow, unit: DisplayUnit, s: Snapshot, trigger: Trigger, r: PricingResult)
    requires Chained(t.events) && InStep(t, rule.productId)
    ensures Chained(Written(t, rule, unit, s, trigger, r).events)
  {
    hide Chained;
    ChainGrows(t.events, Written(t, rule, unit, s, trigger, r).events[|t.events|]);
  }

  lemma WrittenKeepsPointed(t: Tables, rule: RuleRow, unit: DisplayUnit, s: Snapshot, trigger: Trigger,
      r: PricingResult)
    requires Pointed(t.events)
    ensures Pointed(Written(t, rule, unit, s, trigger, r).events)
  {
  }

  lemma WrittenKeepsConsistent(t: Tables, rule: RuleRow, unit: DisplayUnit, s: Snapshot, trigger: Trigger,
      r: PricingResult)
    requires Consistent(t)
    ensures Consistent(Written(t, rule, unit, s, trigger, r))
  {
    hide Chained, Pointed, Written, InStep;
    assert InStep(t, rule.productId);
    WrittenKeepsLog(t, rule, unit, s, trigger, r);
    WrittenKeepsPointed(t, rule, unit, s, trigger, r);
    forall id
      ensures InStep(Written(t, rule, unit, s, trigger, r), id)
    {
      assert InStep(t, id);
      WrittenKeepsInStep(t, rule, unit, s, trigger, r, id);
    }
  }

  /** Recomputes, one after another, keep the change log linked and both logs in step with the rates. */
  lemma {:induction false} RecomputeKeepsConsistent(o: Outcome, rules: seq<RuleRow>, units: Units, s: Snapshot,
      trigger: Trigger)
    requires Consistent(o.tables) && PublishAll(o, rules, units, s, trigger).Success?
    ensures Consistent(PublishAll(o, rules, units, s, trigger).value.tables)
  {
    hide ComputeCustomerRate, Consistent, Written;
    if rules != [] {
      var n := |rules| - 1;
      RecomputeKeepsConsistent(o, rules[..n], units, s, trigger);
      var m := PublishAll(o, rules[..n], units, s, trigger).value;
      var rule := rules[n];
      if rule.productId in units && ComputeCustomerRate(InputFor(rule, units[rule.productId], s)).Success? {
        WrittenKeepsConsistent(m.tables, rule, units[rule.productId], s, trigger,
          ComputeCustomerRate(InputFor(rule, units[rule.productId], s)).value);
      }
    }
  }

  /** Recomputing again from the same quote changes no published row. */
  lemma RecomputeConverges(o: Outcome, o': Outcome, rules: seq<RuleRow>, units: Units, s: Snapshot, trigger: Trigger)
    requires DistinctProducts(rules) && PublishAll(o, rules, units, s, trigger).Success?
    requires o'.tables == PublishAll(o, rules, units, s, trigger).value.tables
    ensures PublishAll(o', rules, units, s, trigger).Success?
    ensures PublishAll(o', rules, units, s, trigger).value.tables.published == o'.tables.published
  {
    hide PublishAll, ComputeCustomerRate;
    CommitsExactlyWhen(o, rules, units, s, trigger);
    CommitsExactlyWhen(o', rules, units, s, trigger);
    RecomputeShowsTheEngine(o, rules, units, s, trigger);
    RecomputeShowsTheEngine(o', rules, units, s, trigger);
    var once := o'.tables.published;
    var twice := PublishAll(o', rules, units, s, trigger).value.tables.published;
    forall id
      ensures id in twice <==> id in once
      ensures id in once ==> twice[id] == once[id]
    {
      if k :| 0 <= k < |rules| && rules[k].productId == id {
        assert ShowsRule(once, o.tables.published, rules[k], units, s) && ShowsRule(twice, once, rules[k], units, s);
      }
    }
  }

  // ----- Rule changes -----

  lemma SelectedIsLive(rules: seq<RuleRow>, metal: string, rule: RuleRow)
    requires rule in Selected(rules, metal)
    ensures rule in rules && IsLive(rule, metal)
  {
  }

  /** The recompute takes the live rule with the id, if the tenant has one. */
  lemma {:induction false} FindActiveFinds(rules: seq<RuleRow>, id: nat)
    ensures match FindActive(rules, id)
      case Some(r) => r in rules && r.id == id && r.active
      case None => forall r :: r in rules && r.id == id ==> !r.active
  {
    if rules != [] {
      FindActiveFinds(rules[1..], id);
      assert forall r :: r in rules <==> r == rules[0] || r in rules[1..];
    }
  }

  predicate DistinctIds(rules: seq<RuleRow>) { forall i, j :: 0 <= i < j < |rules| ==> rules[i].id != rules[j].id }

  /** What the recompute inside a rule change leaves: the engine's result for that very rule, if it is live, its
      product enabled, and there is a usable quote from which the engine prices it; otherwise every row as it was.
      No other product changes. */
  lemma RuleChangeShowsTheEngine(d: TenantData, rule: RuleRow, quote: Option<Snapshot>)
    requires DistinctIds(d.rules) && rule in d.rules && RecomputedRule(d, rule.id, quote).Success?
    ensures var o := RecomputedRule(d, rule.id, quote).value;
      var before, after := d.tables.published, o.tables.published;
      if rule.active && quote.Some? && !quote.value.freshness.ExpiredQuote? && rule.productId in d.units
         && PriceOf(rule, d.units[rule.productId], quote.value).Success?
      then
        after == before[rule.productId :=
                   PublishedRow(PriceOf(rule, d.units[rule.productId], quote.value).value, d.units[rule.productId],
                                rule.id, quote.value.at)]
        && o.counts.published == 1
      else o.tables == d.tables && o.counts.published == 0
  {
    FindActiveFinds(d.rules, rule.id);
    hide ComputeCustomerRate, FindActive;
    var found := FindActive(d.rules, rule.id);
    if found.Some? {
      var i :| 0 <= i < |d.rules| && d.rules[i] == found.value;
      var j :| 0 <= j < |d.rules| && d.rules[j] == rule;
      assert i == j;
    }
  }

  /** The three rows one published rate writes. */
  lemma PublishedRuleWrites(o: Outcome, rule: RuleRow, units: Units, s: Snapshot, trigger: Trigger)
    requires PublishRule(o, rule, units, s, trigger).Success? && rule.productId in units
    requires PriceOf(rule, units[rule.productId], s).Success?
    ensures var t, t' := o.tables, PublishRule(o, rule, units, s, trigger).value.tables;
      var unit, r := units[rule.productId], PriceOf(rule, units[rule.productId], s).value;
      t'.published == t.published[rule.productId := PublishedRow(r, unit, rule.id, s.at)]
      && t'.outbox == t.outbox + [OutboxRow(rule.productId, r.rateDisplay, unit, s.at, trigger)]
      && |t'.events| == |t.events| + 1 && t'.events[..|t.events|] == t.events
      && var e := t'.events[|t.events|];
         e.productId == rule.productId && e.newRate == r.rateDisplay && e.trigger == trigger
         && e.oldRate == (if rule.productId in t.published
                          then Some(t.published[rule.productId].result.rateDisplay) else None)
  {
    hide ComputeCustomerRate;
  }

  /** A rule change leaves the same row for its product that a market tick would: if the tick commits, so does
      the rule's own recompute from the same quote, and the two rows are equal. */
  lemma RuleChangeAgreesWithTick(d: TenantData, ruleId: nat, s: Snapshot)
    requires !s.freshness.ExpiredQuote? && DistinctProducts(Selected(d.rules, s.metal))
    requires FindActive(d.rules, ruleId).Some? && FindActive(d.rules, ruleId).value in Selected(d.rules, s.metal)
    requires Recomputed(d, s, MarketTick).Success?
    ensures RecomputedRule(d, ruleId, Some(s)).Success?
    ensures var id := FindActive(d.rules, ruleId).value.productId;
      var changed, ticked := RecomputedRule(d, ruleId, Some(s)).value.tables.published, Recomputed(d, s, MarketTick).value.tables.published;
      (id in changed <==> id in ticked) && (id in changed ==> changed[id] == ticked[id])
  {
    var rules, rule := Selected(d.rules, s.metal), FindActive(d.rules, ruleId).value;
    var nothing := Outcome(d.tables, Counts(0, 0));
    var k :| 0 <= k < |rules| && rules[k] == rule;
    hide ComputeCustomerRate, Selected, FindActive, PublishAll;
    CommitsExactlyWhen(nothing, rules, d.units, s, MarketTick);
    RecomputeShowsTheEngine(nothing, rules, d.units, s, MarketTick);
    assert Harmless(rules[k], d.units, s);
    assert ShowsRule(Recomputed(d, s, MarketTick).value.tables.published, d.tables.published, rules[k], d.units, s);
    HarmlessPublishes(nothing, rule, d.units, s, RuleChange);
    if rule.productId in d.units {
      RuleShows(nothing, rule, d.units, s, RuleChange);
    }
  }

  lemma HarmlessPublishes(o: Outcome, rule: RuleRow, units: Units, s: Snapshot, trigger: Trigger)
    ensures PublishRule(o, rule, units, s, trigger).Success? <==> Harmless(rule, units, s)
  {
    hide ComputeCustomerRate;
  }

  /** A rule of a retired product is still published when the rule changes, though no tick touches it. */
  lemma RuleChangeRevivesARetiredProduct(d: TenantData, ruleId: nat, s: Snapshot)
    requires FindActive(d.rules, ruleId).Some? && !FindActive(d.rules, ruleId).value.product.active
    requires !s.freshness.ExpiredQuote? && FindActive(d.rules, ruleId).value.productId in d.units
    requires var rule := FindActive(d.rules, ruleId).value;
      Harmless(rule, d.units, s) && ComputeCustomerRate(InputFor(rule, d.units[rule.productId], s)).Success?
    ensures var rule := FindActive(d.rules, ruleId).value;
      RecomputedRule(d, ruleId, Some(s)).Success? && RecomputedRule(d, ruleId, Some(s)).value.counts == Counts(1, 0)
      && rule !in Selected(d.rules, s.metal)
  {
    var rule := FindActive(d.rules, ruleId).value;
    if rule in Selected(d.rules, s.metal) {
      SelectedIsLive(d.rules, s.metal, rule);
    }
    hide ComputeCustomerRate;
  }
}
