/**
 * Caching of a token issuer's key set.
 *
 * A request either is answered at once or joins the one outstanding fetch and is answered when that
 * settles. Each stretch of code between two awaits is one step; keys and the fetcher are abstract.
 */
module JwksCaching {
  import opened Outcomes

  datatype Key = Key(kid: Option<string>, material: string)

  datatype CacheOptions = CacheOptions(maxAge: nat, cooldown: nat, staleGrace: nat)

  /** Why a request waits for the fetch; an unknown key id remembers how many keys there were. */
  datatype Waiter = Aged | Unknown(kid: string, before: nat) | Warming

  datatype Stats = Stats(fetches: nat, failures: nat, hits: nat, rotations: nat, staleServes: nat,
      cooldownRejections: nat)

  datatype Cache = Cache(
    keys: seq<Key>,
    fetchedAt: Option<int>,
    lastAttemptAt: Option<int>,
    inFlight: bool,
    waiters: seq<Waiter>,
    stats: Stats)

  datatype Answer = Served(keys: seq<Key>, at: int) | UnknownKey | Unavailable | Warmed

  /** An answer, and how many fetches had succeeded by then. */
  datatype Record = Record(answer: Answer, sets: nat)

  datatype Start = Start(at: int, cause: Waiter)

  datatype FetchedSet = FetchedSet(keys: seq<Key>, at: int)

  /** The cache, then the history of the run. */
  datatype State = State(now: int, cache: Cache, starts: seq<Start>, fetched: seq<FetchedSet>, answers: seq<Record>,
      requests: nat)

  const EMPTY := Cache([], None, None, false, [], Stats(0, 0, 0, 0, 0, 0))

  datatype FetchResult = Keys(keys: seq<Key>) | Failed

  datatype Step = Advance(ms: nat) | Request(kid: Option<string>) | Warm | Settle(result: FetchResult)

  predicate HasKid(keys: seq<Key>, kid: string) { exists i :: 0 <= i < |keys| && keys[i].kid == Some(kid) }

  predicate Fresh(o: CacheOptions, c: Cache, now: int) { c.fetchedAt.Some? && now - c.fetchedAt.value <= o.maxAge }

  predicate WithinCooldown(o: CacheOptions, c: Cache, now: int) {
    c.lastAttemptAt.Some? && now - c.lastAttemptAt.value < o.cooldown
  }

  predicate UsableStale(o: CacheOptions, c: Cache, now: int) {
    c.fetchedAt.Some? && c.keys != [] && now - c.fetchedAt.value <= o.staleGrace
  }

  /** Joins the outstanding fetch, or starts one. */
  function Join(s: State, w: Waiter): State {
    var c := s.cache;
    if c.inFlight then s.(cache := c.(waiters := c.waiters + [w]))
    else
      s.(cache := c.(lastAttemptAt := Some(s.now), inFlight := true, waiters := c.waiters + [w],
                     stats := c.stats.(fetches := c.stats.fetches + 1)),
         starts := s.starts + [Start(s.now, w)])
  }

  function Reply(s: State, a: Answer): State { s.(answers := s.answers + [Record(a, |s.fetched|)]) }

  function ServeKeys(s: State): Answer { Served(s.cache.keys, s.now) }

  function KeysFor(o: CacheOptions, s: State, kid: Option<string>): State {
    var c := s.cache;
    if !Fresh(o, c, s.now) then Join(s, Aged)
    else if kid.Some? && !HasKid(c.keys, kid.value) then
      if WithinCooldown(o, c, s.now) then
        Reply(s.(cache := c.(stats := c.stats.(cooldownRejections := c.stats.cooldownRejections + 1))), UnknownKey)
      else Join(s, Unknown(kid.value, |c.keys|))
    else Reply(s.(cache := c.(stats := c.stats.(hits := c.stats.hits + 1))), ServeKeys(s))
  }

  /** A waiting request goes on once the fetch has settled. */
  function Resume(o: CacheOptions, s: State, w: Waiter, ok: bool): State {
    var stats := s.cache.stats;
    if w.Warming? then Reply(s, if ok then Warmed else Unavailable)
    else if !ok && !UsableStale(o, s.cache, s.now) then Reply(s, Unavailable)
    else
      var stale := if ok then stats else stats.(staleServes := stats.staleServes + 1);
      var counted :=
        if w.Unknown? && (|s.cache.keys| != w.before || !HasKid(s.cache.keys, w.kid))
        then stale.(rotations := stale.rotations + 1) else stale;
      Reply(s.(cache := s.cache.(stats := counted)), ServeKeys(s))
  }

  function ResumeAll(o: CacheOptions, s: State, waiters: seq<Waiter>, ok: bool): State {
    if waiters == [] then s
    else Resume(o, ResumeAll(o, s, waiters[..|waiters| - 1], ok), waiters[|waiters| - 1], ok)
  }

  predicate Succeeds(result: FetchResult) { result.Keys? && result.keys != [] }

  /** The fetch ends: the set is replaced as a whole, or left alone. */
  function Landed(s: State, result: FetchResult): State {
    var c := s.cache.(inFlight := false, waiters := []);
    if Succeeds(result) then
      s.(cache := c.(keys := result.keys, fetchedAt := Some(s.now)),
         fetched := s.fetched + [FetchedSet(result.keys, s.now)])
    else s.(cache := c.(stats := c.stats.(failures := c.stats.failures + 1)))
  }

  predicate Enabled(s: State, step: Step) { step.Settle? ==> s.cache.inFlight }

  function Apply(o: CacheOptions, s: State, step: Step): State
    requires Enabled(s, step)
  {
    match step
    case Advance(ms) => s.(now := s.now + ms)
    case Request(kid) => KeysFor(o, s.(requests := s.requests + 1), kid)
    case Warm => Join(s.(requests := s.requests + 1), Warming)
    case Settle(result) => ResumeAll(o, Landed(s, result), s.cache.waiters, Succeeds(result))
  }

  function After(o: CacheOptions, steps: seq<Step>): Option<State> {
    if steps == [] then Some(State(0, EMPTY, [], [], [], 0))
    else
      var n := |steps| - 1;
      match After(o, steps[..n])
      case None => None
      case Some(s) => if Enabled(s, steps[n]) then Some(Apply(o, s, steps[n])) else None
  }

  // ----- What every run keeps -----

  /** The cached set is the last one fetched, and none is empty. */
  ghost predicate SetKnown(c: Cache, fetched: seq<FetchedSet>, now: int) {
    && (forall k :: 0 <= k < |fetched| ==> fetched[k].keys != [] && fetched[k].at <= now)
    && (if fetched == [] then c.keys == [] && c.fetchedAt == None
        else var last := fetched[|fetched| - 1]; c.keys == last.keys && c.fetchedAt == Some(last.at))
  }

  function Oldest(o: CacheOptions): nat { if o.maxAge < o.staleGrace then o.staleGrace else o.maxAge }

  /** Served keys were the last set fetched before, and were no older than either limit allows. */
  ghost predicate Sourced(o: CacheOptions, fetched: seq<FetchedSet>, r: Record) {
    r.answer.Served? ==>
      0 < r.sets <= |fetched| && r.answer.keys != [] && r.answer.keys == fetched[r.sets - 1].keys
      && r.answer.at - fetched[r.sets - 1].at <= Oldest(o)
  }

  ghost predicate AllSourced(o: CacheOptions, fetched: seq<FetchedSet>, answers: seq<Record>) {
    forall r :: r in answers ==> Sourced(o, fetched, r)
  }

  /** Fetches started because of an unknown key id keep their distance from the start before. */
  ghost predicate Spaced(o: CacheOptions, starts: seq<Start>) {
    forall k :: 0 < k < |starts| && starts[k].cause.Unknown? ==> starts[k].at - starts[k - 1].at >= o.cooldown
  }

  ghost predicate Timed(c: Cache, starts: seq<Start>, now: int) {
    && (forall k :: 0 <= k < |starts| ==> starts[k].at <= now)
    && (forall k :: 0 < k < |starts| ==> starts[k - 1].at <= starts[k].at)
    && c.lastAttemptAt == (if starts == [] then None else Some(starts[|starts| - 1].at))
  }

  /** One fetch at a time, each counted; every request is answered or waits for the outstanding fetch. */
  ghost predicate Counted(s: State, requests: int) {
    && s.cache.stats.fetches == |s.starts| == s.cache.stats.failures + |s.fetched| + (if s.cache.inFlight then 1 else 0)
    && requests == |s.answers| + |s.cache.waiters|
    && (s.cache.waiters != [] ==> s.cache.inFlight)
  }

  ghost predicate Inv(o: CacheOptions, s: State) {
    && SetKnown(s.cache, s.fetched, s.now)
    && AllSourced(o, s.fetched, s.answers)
    && Spaced(o, s.starts) && Timed(s.cache, s.starts, s.now)
    && Counted(s, s.requests)
  }

  lemma JoinKeeps(o: CacheOptions, s: State, w: Waiter)
    requires SetKnown(s.cache, s.fetched, s.now) && AllSourced(o, s.fetched, s.answers)
    requires Spaced(o, s.starts) && Timed(s.cache, s.starts, s.now)
    requires Counted(s, s.requests - 1)
    requires w.Unknown? ==> !WithinCooldown(o, s.cache, s.now)
    ensures Inv(o, Join(s, w))
  {
    hide AllSourced;
  }

  lemma ServedIsSourced(o: CacheOptions, s: State)
    requires SetKnown(s.cache, s.fetched, s.now) && s.fetched != []
    requires Fresh(o, s.cache, s.now) || UsableStale(o, s.cache, s.now)
    ensures Sourced(o, s.fetched, Record(ServeKeys(s), |s.fetched|))
  {
  }

  /** A request answered at once adds its answer and touches only the statistics. */
  lemma AnswerKeeps(o: CacheOptions, s: State, stats: Stats, a: Answer)
    requires Inv(o, s) && stats.fetches == s.cache.stats.fetches && stats.failures == s.cache.stats.failures
    requires Sourced(o, s.fetched, Record(a, |s.fetched|))
    ensures Inv(o, Reply(s.(cache := s.cache.(stats := stats), requests := s.requests + 1), a))
  {
    hide Sourced, Spaced;
  }

  lemma RequestKeeps(o: CacheOptions, s: State, kid: Option<string>)
    requires Inv(o, s)
    ensures Inv(o, Apply(o, s, Request(kid)))
  {
    var t := s.(requests := s.requests + 1);
    var stats := s.cache.stats;
    if !Fresh(o, s.cache, s.now) {
      JoinKeeps(o, t, Aged);
    } else if kid.Some? && !HasKid(s.cache.keys, kid.value) {
      if WithinCooldown(o, s.cache, s.now) {
        hide Inv;
        AnswerKeeps(o, s, stats.(cooldownRejections := stats.cooldownRejections + 1), UnknownKey);
      } else {
        JoinKeeps(o, t, Unknown(kid.value, |s.cache.keys|));
      }
    } else {
      ServedIsSourced(o, s);
      hide Inv, Sourced;
      AnswerKeeps(o, s, stats.(hits := stats.hits + 1), ServeKeys(s));
    }
  }

  /** What a settled fetch leaves before anyone resumes; a success is fresh. */
  lemma LandedKeeps(o: CacheOptions, s: State, result: FetchResult)
    requires Inv(o, s) && s.cache.inFlight
    ensures var t := Landed(s, result);
      SetKnown(t.cache, t.fetched, t.now) && AllSourced(o, t.fetched, t.answers)
      && (Succeeds(result) ==> t.fetched != [] && Fresh(o, t.cache, t.now))
  {
    var t := Landed(s, result);
    forall a | a in t.answers
      ensures Sourced(o, t.fetched, a)
    {
      assert Sourced(o, s.fetched, a);
    }
  }

  /** Resuming touches only the statistics and the answers. */
  ghost predicate OnlyAnswers(s: State, t: State, n: nat) {
    t == s.(cache := t.cache, answers := t.answers)
    && t.cache == s.cache.(stats := t.cache.stats)
    && t.cache.stats.fetches == s.cache.stats.fetches && t.cache.stats.failures == s.cache.stats.failures
    && |t.answers| == |s.answers| + n
  }

  lemma ResumeKeeps(o: CacheOptions, s: State, w: Waiter, ok: bool)
    requires SetKnown(s.cache, s.fetched, s.now) && AllSourced(o, s.fetched, s.answers)
    requires ok ==> s.fetched != [] && Fresh(o, s.cache, s.now)
    ensures var t := Resume(o, s, w, ok); OnlyAnswers(s, t, 1) && AllSourced(o, t.fetched, t.answers)
  {
    if !w.Warming? && (ok || UsableStale(o, s.cache, s.now)) {
      ServedIsSourced(o, s);
    }
  }

  lemma {:induction false} ResumeAllKeeps(o: CacheOptions, s: State, waiters: seq<Waiter>, ok: bool)
    requires SetKnown(s.cache, s.fetched, s.now) && AllSourced(o, s.fetched, s.answers)
    requires ok ==> s.fetched != [] && Fresh(o, s.cache, s.now)
    ensures var t := ResumeAll(o, s, waiters, ok); OnlyAnswers(s, t, |waiters|) && AllSourced(o, t.fetched, t.answers)
  {
    hide AllSourced, Resume;
    if waiters != [] {
      var n := |waiters| - 1;
      ResumeAllKeeps(o, s, waiters[..n], ok);
      ResumeKeeps(o, ResumeAll(o, s, waiters[..n], ok), waiters[n], ok);
    }
  }

  lemma StepKeeps(o: CacheOptions, s: State, step: Step)
    requires Inv(o, s) && Enabled(s, step)
    ensures Inv(o, Apply(o, s, step))
  {
    match step
    case Advance(_) =>
    case Request(kid) => RequestKeeps(o, s, kid);
    case Warm => JoinKeeps(o, s.(requests := s.requests + 1), Warming);
    case Settle(result) =>
      hide AllSourced, ResumeAll;
      LandedKeeps(o, s, result);
      ResumeAllKeeps(o, Landed(s, result), s.cache.waiters, Succeeds(result));
  }

  lemma {:induction false} RunKeeps(o: CacheOptions, steps: seq<Step>)
    requires After(o, steps).Some?
    ensures Inv(o, After(o, steps).value)
  {
    if steps != [] {
      hide Inv, Apply;
      var n := |steps| - 1;
      RunKeeps(o, steps[..n]);
      StepKeeps(o, After(o, steps[..n]).value, steps[n]);
    }
  }

  // ----- The guarantees -----

  /** Over every run: a key set served to a request is non-empty, is the last one successfully fetched by
      then, and is no older than the larger of the two limits. */
  lemma ServedKeysAreGenuine(o: CacheOptions, steps: seq<Step>)
    requires After(o, steps).Some?
    ensures var s := After(o, steps).value;
      forall r :: r in s.answers && r.answer.Served? ==>
        0 < r.sets <= |s.fetched| && r.answer.keys != [] && r.answer.keys == s.fetched[r.sets - 1].keys
        && r.answer.at - s.fetched[r.sets - 1].at <= Oldest(o)
  {
    RunKeeps(o, steps);
    var s := After(o, steps).value;
    forall r | r in s.answers && r.answer.Served?
      ensures Sourced(o, s.fetched, r)
    {
    }
  }

  /** Over every run: at most one fetch is outstanding, no request is left without an answer once none is,
      and a fetch that failed or came back empty changed nothing. */
  lemma FetchesAreSingleFlight(o: CacheOptions, steps: seq<Step>, result: FetchResult)
    requires After(o, steps).Some?
    ensures var s := After(o, steps).value;
      |s.starts| == s.cache.stats.failures + |s.fetched| + (if s.cache.inFlight then 1 else 0)
      && (!s.cache.inFlight ==> s.requests == |s.answers|)
      && (s.cache.inFlight && !Succeeds(result) ==>
            var t := Apply(o, s, Settle(result));
            t.cache.keys == s.cache.keys && t.cache.fetchedAt == s.cache.fetchedAt && t.fetched == s.fetched)
  {
    hide Inv, Apply;
    RunKeeps(o, steps);
    var s := After(o, steps).value;
    SingleFlight(o, s, result);
  }

  lemma SingleFlight(o: CacheOptions, s: State, result: FetchResult)
    requires Inv(o, s)
    ensures |s.starts| == s.cache.stats.failures + |s.fetched| + (if s.cache.inFlight then 1 else 0)
    ensures !s.cache.inFlight ==> s.requests == |s.answers|
    ensures s.cache.inFlight && !Succeeds(result) ==>
      var t := Apply(o, s, Settle(result));
      t.cache.keys == s.cache.keys && t.cache.fetchedAt == s.cache.fetchedAt && t.fetched == s.fetched
  {
    if s.cache.inFlight {
      LandedKeeps(o, s, result);
      ResumeAllKeeps(o, Landed(s, result), s.cache.waiters, Succeeds(result));
    }
  }

  /** Some key of the set has this id. */
  predicate Holds(set_: FetchedSet, kid: string) { exists k :: k in set_.keys && k.kid == Some(kid) }

  /** The request is answered at once. */
  predicate AnsweredAtOnce(s: State, t: State, a: Answer) {
    t.answers == s.answers + [Record(a, |s.fetched|)] && t.cache.waiters == s.cache.waiters && t.starts == s.starts
  }

  /** The request joins the one outstanding fetch. */
  predicate Waits(s: State, t: State) {
    t.answers == s.answers && t.cache.inFlight && |t.cache.waiters| == |s.cache.waiters| + 1
    && t.cache.waiters[..|s.cache.waiters|] == s.cache.waiters
    && t.cache.stats == s.cache.stats.(fetches := s.cache.stats.fetches + if s.cache.inFlight then 0 else 1)
  }

  /** Over every run, what a request gets. With a set fetched no longer ago than allowed: exactly that set at once,
      if it names no key or one of the set; a refusal at once, if it names another within the cooldown of the
      last fetch begun; a place in the queue otherwise. Without such a set: a place in the queue. */
  lemma RequestIsAnswered(o: CacheOptions, steps: seq<Step>, kid: Option<string>)
    requires After(o, steps).Some?
    ensures var s := After(o, steps).value;
      var t := Apply(o, s, Request(kid));
      t.cache.keys == s.cache.keys && t.fetched == s.fetched
      && if s.fetched != [] && s.now - s.fetched[|s.fetched| - 1].at <= o.maxAge then
           var last := s.fetched[|s.fetched| - 1];
           var stats := s.cache.stats;
           if kid.None? || Holds(last, kid.value) then
             AnsweredAtOnce(s, t, Served(last.keys, s.now)) && t.cache.stats == stats.(hits := stats.hits + 1)
           else if s.starts != [] && s.now - s.starts[|s.starts| - 1].at < o.cooldown then
             AnsweredAtOnce(s, t, UnknownKey)
             && t.cache.stats == stats.(cooldownRejections := stats.cooldownRejections + 1)
           else Waits(s, t)
         else Waits(s, t)
  {
    RunKeeps(o, steps);
    var s := After(o, steps).value;
    hide AllSourced, Spaced, Counted;
    if s.fetched != [] && kid.Some? {
      SameHolds(s.fetched[|s.fetched| - 1], kid.value);
    }
  }

  lemma SameHolds(set_: FetchedSet, kid: string)
    ensures Holds(set_, kid) <==> HasKid(set_.keys, kid)
  {
    if Holds(set_, kid) {
      var k :| k in set_.keys && k.kid == Some(kid);
      var i :| 0 <= i < |set_.keys| && set_.keys[i] == k;
    }
    if i :| 0 <= i < |set_.keys| && set_.keys[i].kid == Some(kid) {
      assert set_.keys[i] in set_.keys;
    }
  }

  /** What a request that waited is told: the new set if the fetch brought one, the old set if it did not and that
      set is no older than the stale grace, and that no keys are available otherwise. */
  function Told(o: CacheOptions, s: State, w: Waiter, result: FetchResult): Answer {
    if result.Keys? && result.keys != [] then
      if w.Warming? then Warmed else Served(result.keys, s.now)
    else if !w.Warming? && s.fetched != [] && s.now - s.fetched[|s.fetched| - 1].at <= o.staleGrace then
      Served(s.fetched[|s.fetched| - 1].keys, s.now)
    else Unavailable
  }

  function ToldAll(o: CacheOptions, s: State, waiters: seq<Waiter>, result: FetchResult, sets: nat): seq<Record> {
    seq(|waiters|, i requires 0 <= i < |waiters| => Record(Told(o, s, waiters[i], result), sets))
  }

  lemma ToldOneMore(o: CacheOptions, s: State, waiters: seq<Waiter>, result: FetchResult, sets: nat)
    requires waiters != []
    ensures var n := |waiters| - 1;
      ToldAll(o, s, waiters, result, sets)
      == ToldAll(o, s, waiters[..n], result, sets) + [Record(Told(o, s, waiters[n], result), sets)]
  {
    hide Told;
  }

  lemma {:induction false} ResumedAreTold(o: CacheOptions, s: State, landed: State, waiters: seq<Waiter>, result: FetchResult)
    requires SetKnown(s.cache, s.fetched, s.now) && landed == Landed(s, result)
    ensures var t := ResumeAll(o, landed, waiters, Succeeds(result));
      OnlyAnswers(landed, t, |waiters|)
      && t.answers == s.answers + ToldAll(o, s, waiters, result, |landed.fetched|)
  {
    if waiters != [] {
      hide Resume, Told, Landed, SetKnown, ToldAll;
      var n := |waiters| - 1;
      ResumedAreTold(o, s, landed, waiters[..n], result);
      ToldOneMore(o, s, waiters, result, |landed.fetched|);
      ResumedIsTold(o, s, landed, ResumeAll(o, landed, waiters[..n], Succeeds(result)), waiters[n], n, result);
    }
  }

  lemma ResumedIsTold(o: CacheOptions, s: State, landed: State, m: State, w: Waiter, n: nat, result: FetchResult)
    requires SetKnown(s.cache, s.fetched, s.now) && landed == Landed(s, result) && OnlyAnswers(landed, m, n)
    ensures var t := Resume(o, m, w, Succeeds(result));
      OnlyAnswers(landed, t, n + 1) && t.answers == m.answers + [Record(Told(o, s, w, result), |landed.fetched|)]
  {
    hide HasKid;
  }

  /** How many of the requests that waited are told keys. */
  function Fed(o: CacheOptions, s: State, waiters: seq<Waiter>, result: FetchResult): nat {
    if waiters == [] then 0
    else
      var n := |waiters| - 1;
      Fed(o, s, waiters[..n], result) + if Told(o, s, waiters[n], result).Served? then 1 else 0
  }

  /** Of those, how many had named an unknown key id, and find the set of another size or still without it. */
  function Rotated(o: CacheOptions, s: State, waiters: seq<Waiter>, result: FetchResult): nat {
    if waiters == [] then 0
    else
      var n := |waiters| - 1;
      var w, told := waiters[n], Told(o, s, waiters[n], result);
      Rotated(o, s, waiters[..n], result)
      + if told.Served? && w.Unknown? && (|told.keys| != w.before || !HasKid(told.keys, w.kid)) then 1 else 0
  }

  lemma {:induction false} ResumedAreTallied(o: CacheOptions, s: State, landed: State, waiters: seq<Waiter>, result: FetchResult)
    requires SetKnown(s.cache, s.fetched, s.now) && landed == Landed(s, result)
    ensures var stats := ResumeAll(o, landed, waiters, Succeeds(result)).cache.stats;
      stats.hits == s.cache.stats.hits && stats.cooldownRejections == s.cache.stats.cooldownRejections
      && stats.staleServes
         == s.cache.stats.staleServes + (if Succeeds(result) then 0 else Fed(o, s, waiters, result))
      && stats.rotations == s.cache.stats.rotations + Rotated(o, s, waiters, result)
  {
    if waiters != [] {
      var n := |waiters| - 1;
      ResumedAreTallied(o, s, landed, waiters[..n], result);
      ResumedAreTold(o, s, landed, waiters[..n], result);
      var m := ResumeAll(o, landed, waiters[..n], Succeeds(result));
      hide ResumeAll, HasKid;
      OneIsTallied(o, s, landed, m, waiters[n], n, result);
    }
  }

  lemma OneIsTallied(o: CacheOptions, s: State, landed: State, m: State, w: Waiter, n: nat, result: FetchResult)
    requires SetKnown(s.cache, s.fetched, s.now) && landed == Landed(s, result) && OnlyAnswers(landed, m, n)
    ensures var stats, told := Resume(o, m, w, Succeeds(result)).cache.stats, Told(o, s, w, result);
      stats.hits == m.cache.stats.hits && stats.cooldownRejections == m.cache.stats.cooldownRejections
      && stats.staleServes == m.cache.stats.staleServes + (if !Succeeds(result) && told.Served? then 1 else 0)
      && stats.rotations == m.cache.stats.rotations
           + if told.Served? && w.Unknown? && (|told.keys| != w.before || !HasKid(told.keys, w.kid)) then 1 else 0
  {
    hide HasKid;
  }

  /** A settled fetch counts one failure unless it brought a set, a stale serve for each request then told the old
      set, and a rotation for each that had named an unknown key id and finds the set changed, or still without it. */
  lemma SettlingIsTallied(o: CacheOptions, steps: seq<Step>, result: FetchResult)
    requires After(o, steps).Some? && After(o, steps).value.cache.inFlight
    ensures var s := After(o, steps).value;
      var before, after := s.cache.stats, Apply(o, s, Settle(result)).cache.stats;
      var brought := result.Keys? && result.keys != [];
      after == Stats(
        before.fetches, before.failures + (if brought then 0 else 1), before.hits,
        before.rotations + Rotated(o, s, s.cache.waiters, result),
        before.staleServes + (if brought then 0 else Fed(o, s, s.cache.waiters, result)),
        before.cooldownRejections)
  {
    hide Told, ResumeAll, AllSourced, Spaced, Timed, Counted, After, Fed, Rotated;
    RunKeeps(o, steps);
    var s := After(o, steps).value;
    ResumedAreTold(o, s, Landed(s, result), s.cache.waiters, result);
    ResumedAreTallied(o, s, Landed(s, result), s.cache.waiters, result);
  }

  /** Over every run, when the outstanding fetch settles, each request that waited is told, in the order they
      came, and a new set is kept. */
  lemma WaitersAreTold(o: CacheOptions, steps: seq<Step>, result: FetchResult)
    requires After(o, steps).Some? && After(o, steps).value.cache.inFlight
    ensures var s := After(o, steps).value;
      var t := Apply(o, s, Settle(result));
      t.cache.waiters == [] && !t.cache.inFlight
      && t.fetched == (if result.Keys? && result.keys != [] then s.fetched + [FetchedSet(result.keys, s.now)] else s.fetched)
      && |t.answers| == |s.answers| + |s.cache.waiters| && t.answers[..|s.answers|] == s.answers
      && forall i :: 0 <= i < |s.cache.waiters| ==>
           t.answers[|s.answers| + i].answer == Told(o, s, s.cache.waiters[i], result)
  {
    hide Told, ResumeAll, AllSourced, Spaced, Timed, Counted, After;
    RunKeeps(o, steps);
    var s := After(o, steps).value;
    ResumedAreTold(o, s, Landed(s, result), s.cache.waiters, result);
  }

  /** How many of the starts from `i` to `j` were caused by an unknown key id. */
  function ProbeCount(starts: seq<Start>, i: nat, j: nat): nat
    requires i <= j < |starts|
    decreases j
  {
    (if starts[j].cause.Unknown? then 1 else 0) + if i == j then 0 else ProbeCount(starts, i, j - 1)
  }

  lemma {:induction false} ProbesAreSpaced(o: CacheOptions, starts: seq<Start>, i: nat, j: nat)
    requires i <= j < |starts| && Spaced(o, starts)
    requires forall k :: 0 < k < |starts| ==> starts[k - 1].at <= starts[k].at
    ensures starts[i].at <= starts[j].at
    ensures ProbeCount(starts, i, j) > 0 ==>
      (ProbeCount(starts, i, j) - 1) * o.cooldown <= starts[j].at - starts[i].at
    decreases j
  {
    if i < j {
      ProbesAreSpaced(o, starts, i, j - 1);
      OneMoreGap(ProbeCount(starts, i, j - 1), o.cooldown);
    }
  }

  lemma OneMoreGap(count: int, gap: nat)
    ensures count * gap == (count - 1) * gap + gap
  {
  }

  lemma ScaleKeepsOrder(a: int, b: int, c: nat)
    ensures a >= b ==> a * c >= b * c
  {
  }

  lemma CountFromSpan(n: nat, cooldown: nat, span: nat)
    requires cooldown > 0 && n > 0 && (n - 1) * cooldown <= span
    ensures n <= span / cooldown + 1
  {
    var q := span / cooldown;
    assert span < (q + 1) * cooldown;
    ScaleKeepsOrder(n - 1, q + 1, cooldown);
  }

  lemma StartsAreSpaced(o: CacheOptions, steps: seq<Step>)
    requires After(o, steps).Some?
    ensures var starts := After(o, steps).value.starts;
      Spaced(o, starts) && forall k :: 0 < k < |starts| ==> starts[k - 1].at <= starts[k].at
  {
    hide Spaced;
    RunKeeps(o, steps);
  }

  /** Over every run: however many unknown key ids arrive, and whatever else causes fetches meanwhile, the
      fetches they start in a stretch of length `span` number at most span / cooldown + 1. */
  lemma ProbesAreRateLimited(o: CacheOptions, steps: seq<Step>, i: nat, j: nat, span: nat)
    requires After(o, steps).Some? && o.cooldown > 0 && i <= j < |After(o, steps).value.starts|
    requires After(o, steps).value.starts[j].at - After(o, steps).value.starts[i].at <= span
    ensures ProbeCount(After(o, steps).value.starts, i, j) <= span / o.cooldown + 1
  {
    hide After, ProbeCount;
    StartsAreSpaced(o, steps);
    var starts := After(o, steps).value.starts;
    ProbesAreSpaced(o, starts, i, j);
    if ProbeCount(starts, i, j) > 0 {
      CountFromSpan(ProbeCount(starts, i, j), o.cooldown, span);
    }
  }

  ghost predicate FreshAfter(o: CacheOptions, steps: seq<Step>) {
    After(o, steps).Some? && Fresh(o, After(o, steps).value.cache, After(o, steps).value.now)
  }

  /** From step `m` to the end the cached set is fresh at every moment, and no step warms the cache. */
  ghost predicate FreshStretch(o: CacheOptions, steps: seq<Step>, m: nat) {
    && m <= |steps| && FreshAfter(o, steps)
    && (forall k :: m <= k < |steps| ==> FreshAfter(o, steps[..k]))
    && (forall k :: m <= k < |steps| ==> !steps[k].Warm?)
  }

  lemma StretchBegins(o: CacheOptions, steps: seq<Step>, m: nat)
    requires FreshStretch(o, steps, m)
    ensures FreshAfter(o, steps[..m])
    ensures m == |steps| ==> steps[..m] == steps
  {
    assert m == |steps| ==> steps[..m] == steps;
  }

  lemma StretchShrinks(o: CacheOptions, steps: seq<Step>, m: nat)
    requires FreshStretch(o, steps, m) && m < |steps|
    ensures var earlier := steps[..|steps| - 1];
      FreshStretch(o, earlier, m) && earlier[..m] == steps[..m] && !steps[|steps| - 1].Warm?
  {
    hide FreshAfter;
    var n := |steps| - 1;
    forall k | m <= k < n
      ensures FreshAfter(o, steps[..n][..k])
    {
      assert steps[..n][..k] == steps[..k];
    }
    assert steps[..n][..m] == steps[..m];
  }

  lemma FreshStepStarts(o: CacheOptions, s: State, step: Step)
    requires Inv(o, s) && Enabled(s, step) && Fresh(o, s.cache, s.now) && !step.Warm?
    ensures var t := Apply(o, s, step);
      t.now >= s.now
      && (t.starts == s.starts
          || (|t.starts| == |s.starts| + 1 && t.starts[..|s.starts|] == s.starts && t.starts[|s.starts|].cause.Unknown?
              && t.starts[|s.starts|].at == s.now))
  {
    if step.Settle? {
      LandedKeeps(o, s, step.result);
      ResumeAllKeeps(o, Landed(s, step.result), s.cache.waiters, Succeeds(step.result));
    }
  }

  /** `t` is later than `s`, and every fetch started in between was started by an unknown key id. */
  ghost predicate OnlyProbes(s: State, t: State) {
    && |s.starts| <= |t.starts| && t.starts[..|s.starts|] == s.starts && s.now <= t.now
    && forall k :: |s.starts| <= k < |t.starts| ==> t.starts[k].cause.Unknown? && s.now <= t.starts[k].at <= t.now
  }

  lemma OnlyProbesExtends(o: CacheOptions, s: State, t: State, step: Step)
    requires OnlyProbes(s, t) && Inv(o, t) && Enabled(t, step) && Fresh(o, t.cache, t.now) && !step.Warm?
    ensures OnlyProbes(s, Apply(o, t, step))
  {
    hide Inv, Apply, Fresh, Enabled;
    FreshStepStarts(o, t, step);
  }

  lemma AfterLast(o: CacheOptions, steps: seq<Step>)
    requires steps != [] && After(o, steps).Some?
    ensures var n := |steps| - 1;
      After(o, steps[..n]).Some? && Enabled(After(o, steps[..n]).value, steps[n])
      && After(o, steps).value == Apply(o, After(o, steps[..n]).value, steps[n])
  {
  }

  /** While the cached set stays fresh, every fetch is started by an unknown key id. */
  lemma {:induction false} FreshStartsAreProbes(o: CacheOptions, steps: seq<Step>, m: nat)
    requires FreshStretch(o, steps, m)
    ensures FreshAfter(o, steps[..m]) && OnlyProbes(After(o, steps[..m]).value, After(o, steps).value)
  {
    StretchBegins(o, steps, m);
    if m < |steps| {
      hide Inv, Apply, Enabled, After, OnlyProbes;
      var n := |steps| - 1;
      StretchShrinks(o, steps, m);
      FreshStartsAreProbes(o, steps[..n], m);
      RunKeeps(o, steps[..n]);
      AfterLast(o, steps);
      OnlyProbesExtends(o, After(o, steps[..m]).value, After(o, steps[..n]).value, steps[n]);
    }
  }

  lemma {:induction false} AllProbes(starts: seq<Start>, i: nat, j: nat)
    requires i <= j < |starts| && forall k :: i <= k <= j ==> starts[k].cause.Unknown?
    ensures ProbeCount(starts, i, j) == j - i + 1
    decreases j
  {
    if i < j {
      AllProbes(starts, i, j - 1);
    }
  }

  /** While the cached set stays fresh, any stretch of the run starts at most length / cooldown + 1 fetches,
      with any number of unknown key ids. */
  lemma FreshStretchIsRateLimited(o: CacheOptions, steps: seq<Step>, m: nat)
    requires FreshStretch(o, steps, m) && o.cooldown > 0
    ensures FreshAfter(o, steps[..m])
    ensures var s, t := After(o, steps[..m]).value, After(o, steps).value;
      s.now <= t.now && |t.starts| - |s.starts| <= (t.now - s.now) / o.cooldown + 1
  {
    hide Inv, Apply, Fresh, After;
    FreshStartsAreProbes(o, steps, m);
    var s, t := After(o, steps[..m]).value, After(o, steps).value;
    if |t.starts| > |s.starts| {
      ProbesAreRateLimited(o, steps, |s.starts|, |t.starts| - 1, t.now - s.now);
      AllProbes(t.starts, |s.starts|, |t.starts| - 1);
    } else {
      QuotientIsNatural(t.now - s.now, o.cooldown);
    }
  }

  lemma QuotientIsNatural(n: nat, d: nat)
    requires d > 0
    ensures n / d >= 0
  {
  }

  /** The request starts a fetch. */
  predicate Starts(o: CacheOptions, s: State, kid: Option<string>) {
    |Apply(o, s, Request(kid)).starts| > |s.starts|
  }

  /** With no fetch outstanding: a request starts one exactly when the set is missing or aged out, or the key
      id is unknown and the cooldown is over. So within the cooldown the documented limit holds of a request
      exactly while the set is fresh, and otherwise of none. */
  lemma RequestStartsExactlyWhen(o: CacheOptions, s: State, kid: Option<string>)
    requires !s.cache.inFlight
    ensures Starts(o, s, kid) <==>
      !Fresh(o, s.cache, s.now)
      || (kid.Some? && !HasKid(s.cache.keys, kid.value) && !WithinCooldown(o, s.cache, s.now))
    ensures WithinCooldown(o, s.cache, s.now) ==> (Starts(o, s, kid) <==> !Fresh(o, s.cache, s.now))
  {
  }

  predicate Extends(steps: seq<Step>, before: seq<Step>) {
    |before| <= |steps| && steps[..|before|] == before
  }

  /** One more request, and one more fetch that fails. */
  lemma FailedRound(o: CacheOptions, steps: seq<Step>, s: State) returns (steps': seq<Step>, s': State)
    requires After(o, steps) == Some(s) && !s.cache.inFlight && !Fresh(o, s.cache, s.now)
    ensures After(o, steps') == Some(s') && Extends(steps', steps)
    ensures !s'.cache.inFlight && s'.now == s.now && s'.cache.fetchedAt == s.cache.fetchedAt
    ensures s'.cache.keys == s.cache.keys && s'.starts == s.starts + [Start(s.now, Aged)]
  {
    RunKeeps(o, steps);
    RequestKeeps(o, s, None);
    hide Inv;
    StepTaken(o, steps, s, Request(None));
    var asked := Apply(o, s, Request(None));
    StepTaken(o, steps + [Request(None)], asked, Settle(Failed));
    steps', s' := steps + [Request(None)] + [Settle(Failed)], Apply(o, asked, Settle(Failed));
    FailureLeaves(o, asked);
  }

  lemma FailureLeaves(o: CacheOptions, s: State)
    requires Inv(o, s) && s.cache.inFlight
    ensures var t := Apply(o, s, Settle(Failed));
      !t.cache.inFlight && t.now == s.now && t.cache.fetchedAt == s.cache.fetchedAt && t.cache.keys == s.cache.keys
      && t.starts == s.starts
  {
    LandedKeeps(o, s, Failed);
    ResumeAllKeeps(o, Landed(s, Failed), s.cache.waiters, false);
  }

  /** From any moment of any run at which the set is missing or has aged out and no fetch is outstanding, any
      number of fetches can start at that one instant, while they fail; the aged-out set stays. */
  lemma {:induction false} AgedOutFetchesAreNotLimited(o: CacheOptions, before: seq<Step>, s0: State, n: nat)
    returns (steps: seq<Step>, s: State)
    requires After(o, before) == Some(s0) && !s0.cache.inFlight && !Fresh(o, s0.cache, s0.now)
    ensures After(o, steps) == Some(s) && Extends(steps, before)
    ensures |s.starts| == |s0.starts| + n && forall k :: |s0.starts| <= k < |s.starts| ==> s.starts[k].at == s0.now
    ensures s.now == s0.now && !s.cache.inFlight
    ensures s.cache.fetchedAt == s0.cache.fetchedAt && s.cache.keys == s0.cache.keys
  {
    hide After;
    if n == 0 {
      steps, s := before, s0;
    } else {
      var earlier, t := AgedOutFetchesAreNotLimited(o, before, s0, n - 1);
      steps, s := FailedRound(o, earlier, t);
    }
  }

  /** Such a moment comes after a set has been fetched, once it is older than allowed. */
  lemma AFetchedSetAgesOut(o: CacheOptions, keys: seq<Key>) returns (steps: seq<Step>, s: State)
    requires keys != []
    ensures After(o, steps) == Some(s) && !s.cache.inFlight && !Fresh(o, s.cache, s.now)
    ensures s.cache.keys == keys && s.cache.fetchedAt == Some(0) && s.now == o.maxAge + 1
  {
    steps, s := [], State(0, EMPTY, [], [], [], 0);
    StepTaken(o, steps, s, Warm);
    steps, s := steps + [Warm], Apply(o, s, Warm);
    assert s.cache.waiters == [Warming];
    StepTaken(o, steps, s, Settle(Keys(keys)));
    var landed := Landed(s, Keys(keys));
    assert [Warming][..0] == [] && ResumeAll(o, landed, [], true) == landed;
    steps, s := steps + [Settle(Keys(keys))], Apply(o, s, Settle(Keys(keys)));
    StepTaken(o, steps, s, Advance(o.maxAge + 1));
    steps, s := steps + [Advance(o.maxAge + 1)], Apply(o, s, Advance(o.maxAge + 1));
  }

  lemma StepTaken(o: CacheOptions, steps: seq<Step>, s: State, step: Step)
    requires After(o, steps) == Some(s) && Enabled(s, step)
    ensures After(o, steps + [step]) == Some(Apply(o, s, step))
  {
    assert (steps + [step])[..|steps|] == steps;
  }

  // ----- The cache as it runs -----

  function Records(answers: seq<Answer>, sets: nat): seq<Record> {
    seq(|answers|, i requires 0 <= i < |answers| => Record(answers[i], sets))
  }

  class JwksCache {
    const options: CacheOptions
    var keys: seq<Key>
    var fetchedAt: Option<int>
    var lastAttemptAt: Option<int>
    var inFlight: bool
    var waiters: seq<Waiter>
    var stats: Stats
    ghost var run: State

    ghost predicate Valid()
      reads this
    {
      run.cache == Cache(keys, fetchedAt, lastAttemptAt, inFlight, waiters, stats)
    }

    constructor (options: CacheOptions)
      ensures Valid() && this.options == options && run == State(0, EMPTY, [], [], [], 0)
    {
      this.options := options;
      keys, fetchedAt, lastAttemptAt, inFlight, waiters := [], None, None, false, [];
      stats := Stats(0, 0, 0, 0, 0, 0);
      run := State(0, EMPTY, [], [], [], 0);
    }

    method Refresh(now: int, waiter: Waiter)
      requires Valid() && run.now == now
      modifies this
      ensures Valid() && run == Join(old(run), waiter)
    {
      run := Join(run, waiter);
      waiters := waiters + [waiter];
      if inFlight { return; }
      lastAttemptAt := Some(now);
      inFlight := true;
      stats := stats.(fetches := stats.fetches + 1);
    }

    /** The answer, unless the request has to wait for a fetch. */
    method RequestKeys(now: int, kid: Option<string>) returns (answer: Option<Answer>)
      requires Valid() && run.now == now
      modifies this
      ensures Valid() && run == Apply(options, old(run), Request(kid))
      ensures run.answers
        == old(run).answers + if answer.Some? then [Record(answer.value, |old(run).fetched|)] else []
    {
      run := run.(requests := run.requests + 1);
      if fetchedAt.None? || now - fetchedAt.value > options.maxAge {
        Refresh(now, Aged);
        return None;
      }
      if kid.Some? && !HasKid(keys, kid.value) {
        if lastAttemptAt.Some? && now - lastAttemptAt.value < options.cooldown {
          stats := stats.(cooldownRejections := stats.cooldownRejections + 1);
          run := Reply(run.(cache := Cache(keys, fetchedAt, lastAttemptAt, inFlight, waiters, stats)), UnknownKey);
          return Some(UnknownKey);
        }
        Refresh(now, Unknown(kid.value, |keys|));
        return None;
      }
      answer := Some(Served(keys, now));
      stats := stats.(hits := stats.hits + 1);
      run := Reply(run.(cache := Cache(keys, fetchedAt, lastAttemptAt, inFlight, waiters, stats)), answer.value);
    }

    /** One waiting request, after the fetch. */
    method ResumeOne(now: int, waiter: Waiter, ok: bool) returns (answer: Answer)
      requires Valid() && run.now == now
      modifies this
      ensures Valid() && run == Resume(options, old(run), waiter, ok)
      ensures run.answers == old(run).answers + [Record(answer, |old(run).fetched|)]
      ensures run.fetched == old(run).fetched && run.now == old(run).now
    {
      ghost var before := run;
      if waiter.Warming? {
        answer := if ok then Warmed else Unavailable;
      } else if !ok && !(fetchedAt.Some? && keys != [] && now - fetchedAt.value <= options.staleGrace) {
        answer := Unavailable;
      } else {
        if !ok { stats := stats.(staleServes := stats.staleServes + 1); }
        if waiter.Unknown? && (|keys| != waiter.before || !HasKid(keys, waiter.kid)) {
          stats := stats.(rotations := stats.rotations + 1);
        }
        answer := Served(keys, now);
      }
      run := Reply(run.(cache := run.cache.(stats := stats)), answer);
    }

    /** The outstanding fetch ends, and every request that waited for it goes on. */
    method FetchSettled(now: int, result: FetchResult) returns (answers: seq<Answer>)
      requires Valid() && run.now == now && inFlight
      modifies this
      ensures Valid() && run == Apply(options, old(run), Settle(result))
      ensures run.answers == old(run).answers + Records(answers, |run.fetched|)
    {
      hide ResumeAll;
      var waiting := waiters;
      var ok := result.Keys? && result.keys != [];
      run := Landed(run, result);
      if ok {
        keys := result.keys;
        fetchedAt := Some(now);
      } else {
        stats := stats.(failures := stats.failures + 1);
      }
      inFlight, waiters := false, [];
      answers := ResumeEach(now, waiting, ok);
    }

    /** The waiting requests, in the order they came. */
    method ResumeEach(now: int, waiting: seq<Waiter>, ok: bool) returns (answers: seq<Answer>)
      requires Valid() && run.now == now
      modifies this
      ensures Valid() && run == ResumeAll(options, old(run), waiting, ok)
      ensures run.answers == old(run).answers + Records(answers, |run.fetched|)
      ensures run.fetched == old(run).fetched
    {
      hide ResumeAll, Resume, Records;
      ghost var landed := run;
      answers := [];
      NoneResumed(options, landed, waiting, ok);
      for i := 0 to |waiting|
        invariant Valid() && run.now == now && run == ResumeAll(options, landed, waiting[..i], ok)
        invariant run.fetched == landed.fetched && run.answers == landed.answers + Records(answers, |landed.fetched|)
      {
        OneMoreResumed(options, landed, waiting, i, ok);
        var answer := ResumeOne(now, waiting[i], ok);
        OneMoreRecord(answers, answer, |landed.fetched|);
        answers := answers + [answer];
      }
      assert waiting[..|waiting|] == waiting;
    }
  }

  lemma NoneResumed(o: CacheOptions, s: State, waiting: seq<Waiter>, ok: bool)
    ensures ResumeAll(o, s, waiting[..0], ok) == s
    ensures s.answers == s.answers + Records([], |s.fetched|)
  {
  }

  lemma OneMoreResumed(o: CacheOptions, s: State, waiting: seq<Waiter>, i: nat, ok: bool)
    requires i < |waiting|
    ensures ResumeAll(o, s, waiting[..i + 1], ok) == Resume(o, ResumeAll(o, s, waiting[..i], ok), waiting[i], ok)
  {
    hide Resume;
    assert waiting[..i + 1][..i] == waiting[..i];
  }

  lemma OneMoreRecord(answers: seq<Answer>, answer: Answer, sets: nat)
    ensures Records(answers + [answer], sets) == Records(answers, sets) + [Record(answer, sets)]
  {
  }
}
