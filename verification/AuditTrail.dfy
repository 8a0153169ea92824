/** Audit snapshots: what a row's history keeps of it, how it is stored, and what a reader gets back. */
module AuditTrail {
  import opened Outcomes
  import opened Rounding
  import opened DecimalText
  import opened MoneyText
  import opened PricingRules

  /** A column value, or the list of changed fields stored beside them. */
  datatype Value = Text(text: string) | Number(n: int) | Big(big: int) | Flag(flag: bool) | Fields(names: set<Field>)

  /** A key of a row or a snapshot; `Changed` is the marker stored beside the new values. */
  datatype Field =
    | ProductId | AdjustmentKind | AdjustmentValue | AdjustmentBps | RoundingStepPaise | RoundingModeName
    | ComponentPrecisionPaise | IsActive | Version
    | Changed
    | Other(name: string)

  type Record = map<Field, Value>

  const AUDITABLE_FIELDS: seq<Field> := [
    ProductId, AdjustmentKind, AdjustmentValue, AdjustmentBps, RoundingStepPaise, RoundingModeName,
    ComponentPrecisionPaise, IsActive, Version]

  function ModeName(m: RoundingMode): string {
    match m
    case HalfUp => "half_up"
    case HalfEven => "half_even"
    case Ceil => "ceil"
    case Floor => "floor"
  }

  /** The columns of a rule row, with others the history must not keep. */
  function RowOf(r: Rule, others: Record): Record {
    others + map[
      ProductId := Text(r.product),
      AdjustmentKind := Text(if r.terms.columns.isAbsolute then "absolute" else "percentage"),
      AdjustmentValue := Big(r.terms.columns.value),
      AdjustmentBps := Number(r.terms.columns.bps),
      RoundingStepPaise := Number(r.terms.step),
      RoundingModeName := Text(ModeName(r.terms.mode)),
      ComponentPrecisionPaise := Number(r.terms.precision),
      IsActive := Flag(r.active),
      Version := Number(r.version)]
  }

  /** A big integer has no JSON form, so its digits are kept. */
  function Stringified(v: Value): Value { if v.Big? then Text(Decimal(v.big)) else v }

  function Snapshot(row: Record): Record {
    map field | field in AUDITABLE_FIELDS && field in row :: Stringified(row[field])
  }

  method ToAuditSnapshot(row: Record) returns (snapshot: Record)
    ensures snapshot == Snapshot(row)
  {
    snapshot := map[];
    for i := 0 to |AUDITABLE_FIELDS|
      invariant snapshot == map field | field in AUDITABLE_FIELDS[..i] && field in row :: Stringified(row[field])
    {
      var field := AUDITABLE_FIELDS[i];
      assert AUDITABLE_FIELDS[..i + 1] == AUDITABLE_FIELDS[..i] + [field];
      if field !in row { continue; }
      snapshot := snapshot[field := Stringified(row[field])];
    }
    assert AUDITABLE_FIELDS[..|AUDITABLE_FIELDS|] == AUDITABLE_FIELDS;
  }

  lemma DecimalIsInjective(a: int, b: int)
    requires Decimal(a) == Decimal(b)
    ensures a == b
  {
    DigitsRoundTrip(Abs(a));
    DigitsRoundTrip(Abs(b));
    var s, t := Decimal(a), Decimal(b);
    assert s[0] == (if a < 0 then '-' else Digits(Abs(a))[0]) && t[0] == (if b < 0 then '-' else Digits(Abs(b))[0]);
    if a < 0 {
      assert s[1..] == Digits(Abs(a)) && t[1..] == Digits(Abs(b));
    } else {
      assert s == Digits(Abs(a)) && t == Digits(Abs(b));
    }
  }

  /** What the history keeps of a rule. */
  function Kept(r: Rule): Record {
    map[
      ProductId := Text(r.product),
      AdjustmentKind := Text(if r.terms.columns.isAbsolute then "absolute" else "percentage"),
      AdjustmentValue := Text(Decimal(r.terms.columns.value)),
      AdjustmentBps := Number(r.terms.columns.bps),
      RoundingStepPaise := Number(r.terms.step),
      RoundingModeName := Text(ModeName(r.terms.mode)),
      ComponentPrecisionPaise := Number(r.terms.precision),
      IsActive := Flag(r.active),
      Version := Number(r.version)]
  }

  lemma AuditableIsKept(r: Rule, field: Field)
    ensures field in AUDITABLE_FIELDS <==> field in Kept(r)
  {
  }

  lemma AuditableShows(r: Rule, others: Record, field: Field)
    ensures field in AUDITABLE_FIELDS ==>
      field in RowOf(r, others) && field in Kept(r) && Kept(r)[field] == Stringified(RowOf(r, others)[field])
  {
    hide Decimal;
  }

  lemma SnapshotOfRow(r: Rule, others: Record)
    ensures Snapshot(RowOf(r, others)) == Kept(r)
  {
    var s := Snapshot(RowOf(r, others));
    hide Decimal, RowOf, Kept, Stringified;
    forall field
      ensures field in s <==> field in Kept(r)
      ensures field in s ==> s[field] == Kept(r)[field]
    {
      AuditableIsKept(r, field);
      AuditableShows(r, others, field);
    }
  }

  lemma KeptParts(r: Rule, version: int)
    ensures ProductId in Kept(r) && Kept(r)[ProductId] == Text(r.product)
    ensures Version in Kept(r) && Kept(r)[Version] == Number(r.version)
    ensures Kept(r.(version := version)) == Kept(r)[Version := Number(version)]
  {
    hide Decimal;
  }

  /** Two rows leave the same snapshot exactly when they are the same rule, whatever their other columns: the
      history loses nothing of a rule and keeps nothing else. */
  lemma SnapshotIsFaithful(a: Rule, b: Rule, others: Record, others': Record)
    ensures Snapshot(RowOf(a, others)) == Snapshot(RowOf(b, others')) <==> a == b
  {
    SnapshotOfRow(a, others);
    SnapshotOfRow(b, others');
    KeptIsFaithful(a, b);
  }

  lemma KeptIsFaithful(a: Rule, b: Rule)
    ensures Kept(a) == Kept(b) <==> a == b
  {
    hide Decimal;
    var s, t := Kept(a), Kept(b);
    if s == t {
      assert s[ProductId] == t[ProductId] && s[AdjustmentKind] == t[AdjustmentKind];
      assert s[AdjustmentValue] == t[AdjustmentValue] && s[AdjustmentBps] == t[AdjustmentBps];
      assert s[RoundingStepPaise] == t[RoundingStepPaise] && s[RoundingModeName] == t[RoundingModeName];
      assert s[ComponentPrecisionPaise] == t[ComponentPrecisionPaise];
      assert s[IsActive] == t[IsActive] && s[Version] == t[Version];
      DecimalIsInjective(a.terms.columns.value, b.terms.columns.value);
      NamesDiffer(a, b);
    }
  }

  lemma NamesDiffer(a: Rule, b: Rule)
    ensures ModeName(a.terms.mode) == ModeName(b.terms.mode) ==> a.terms.mode == b.terms.mode
    ensures (if a.terms.columns.isAbsolute then "absolute" else "percentage")
         == (if b.terms.columns.isAbsolute then "absolute" else "percentage")
         ==> a.terms.columns.isAbsolute == b.terms.columns.isAbsolute
  {
    assert |"absolute"| != |"percentage"|;
    assert |"half_up"| == 7 && |"half_even"| == 9 && |"ceil"| == 4 && |"floor"| == 5;
  }

  function Get(r: Record, key: Field): Option<Value> { if key in r then Some(r[key]) else None }

  /** The keys whose values differ; none for a creation or a deletion. */
  function ChangedFields(before: Option<Record>, after: Option<Record>): set<Field> {
    if before.None? || after.None? then {}
    else
      set key | key in before.value.Keys + after.value.Keys && Get(before.value, key) != Get(after.value, key)
  }

  datatype AuditRow = AuditRow(oldValue: Option<Record>, newValue: Option<Record>)

  function WriteAudit(before: Option<Record>, after: Option<Record>): AuditRow {
    var changed := ChangedFields(before, after);
    AuditRow(before,
           if after.None? then None
           else if changed != {} then Some(after.value[Changed := Fields(changed)]) else after)
  }

  datatype View = View(changed: set<Field>, oldValue: Option<Record>, newValue: Option<Record>)

  function ToAuditView(row: AuditRow): View {
    var changed :=
      if row.newValue.Some? && Changed in row.newValue.value && row.newValue.value[Changed].Fields?
      then row.newValue.value[Changed].names else {};
    View(changed, row.oldValue, if row.newValue.None? then None else Some(row.newValue.value - {Changed}))
  }

  /** A reader gets back both snapshots as written and exactly the keys on which they differ. */
  lemma AuditRoundTrip(before: Option<Record>, after: Option<Record>)
    requires after.Some? ==> Changed !in after.value
    ensures var view := ToAuditView(WriteAudit(before, after));
      view.oldValue == before && view.newValue == after
      && (before.Some? && after.Some? ==>
            forall key :: key in view.changed <==> Get(before.value, key) != Get(after.value, key))
      && (before.None? || after.None? ==> view.changed == {})
  {
    if after.Some? {
      assert after.value[Changed := Fields(ChangedFields(before, after))] - {Changed} == after.value;
      assert after.value - {Changed} == after.value;
    }
  }

  lemma SnapshotHasNoMarker(row: Record)
    ensures Changed !in Snapshot(row)
  {
  }

  /** What a reader of the audit row from one rule row to another sees as changed. */
  function ShownChanges(before: Rule, after: Rule, others: Record, others': Record): set<Field> {
    ToAuditView(WriteAudit(Some(Snapshot(RowOf(before, others))), Some(Snapshot(RowOf(after, others'))))).changed
  }

  /** The audit row of any update or deactivation, whatever version its client quoted: it lists the version
      as changed and never the product, and nothing else exactly when the terms and the activity are those of
      the snapshot it starts from. */
  lemma UpdateListsItsChanges(trail: seq<Change>, k: nat, others: Record, others': Record)
    requires Chain(trail) && 0 < k < |trail|
    ensures trail[k].oldValue.Some?
    ensures var before, after := trail[k].oldValue.value, trail[k].newValue;
      var changed := ShownChanges(before, after, others, others');
      Version in changed && ProductId !in changed
      && (changed == {Version} <==> after.terms == before.terms && after.active == before.active)
  {
    assert Continues(trail, k);
    var before := trail[k].oldValue.value;
    assert before == trail[before.version - 1].newValue && before.version <= k;
    ProductIsFixed(trail, |trail|);
    ListsChanges(before, trail[k].newValue, others, others');
  }

  lemma ListsChanges(a: Rule, b: Rule, others: Record, others': Record)
    requires b.version > a.version && a.product == b.product
    ensures var changed := ShownChanges(a, b, others, others');
      Version in changed && ProductId !in changed
      && (changed == {Version} <==> b.terms == a.terms && b.active == a.active)
  {
    hide Snapshot, RowOf, Kept, ChangedFields, ToAuditView, WriteAudit;
    SnapshotHasNoMarker(RowOf(b, others'));
    SnapshotOfRow(a, others);
    SnapshotOfRow(b, others');
    ViewShowsChanges(Kept(a), Kept(b));
    KeptParts(a, b.version);
    KeptParts(b, b.version);
    OnlyDiffersAt(Kept(a), Kept(b), Version, ProductId);
    KeptIsFaithful(a.(version := b.version), b);
  }

  lemma ViewShowsChanges(s: Record, t: Record)
    requires Changed !in t
    ensures ToAuditView(WriteAudit(Some(s), Some(t))).changed == ChangedFields(Some(s), Some(t))
  {
    hide ChangedFields;
  }

  lemma OnlyDiffersAt(s: Record, t: Record, at: Field, same: Field)
    requires at in s && at in t && s[at] != t[at] && same in s && same in t && s[same] == t[same]
    ensures var changed := ChangedFields(Some(s), Some(t));
      at in changed && same !in changed && (changed == {at} <==> s[at := t[at]] == t)
  {
    var changed, lifted := ChangedFields(Some(s), Some(t)), s[at := t[at]];
    forall key
      ensures key in changed <==> Get(s, key) != Get(t, key)
    {
    }
    if changed == {at} {
      assert forall key :: key != at ==> Get(s, key) == Get(t, key);
      assert lifted == t by {
        assert lifted.Keys == t.Keys by {
          forall key
            ensures key in lifted <==> key in t
          {
            assert key != at ==> Get(s, key) == Get(t, key);
          }
        }
        forall key | key in t
          ensures lifted[key] == t[key]
        {
          assert key != at ==> Get(s, key) == Get(t, key);
        }
      }
    }
    if lifted == t {
      forall key
        ensures key in changed <==> key == at
      {
        assert key != at ==> Get(s, key) == Get(lifted, key);
      }
      assert changed == {at};
    }
  }
}
