/**
 * The hand-over of accepted quotes from ingestion to publication.
 *
 * A provider may push quotes at any moment and also answer the poller's pull. Both paths meet in one
 * ingestion, whose listener queues each accepted quote; a poll takes the whole queue and publishes it one
 * quote at a time, with an await in between. Every stretch of code between two awaits is one step.
 */
module MarketFeed {
  import opened Outcomes
  import opened QuoteStream

  /** A raw payload, as schema validation finds it. */
  datatype Payload = Missing | Malformed | Valid(quote: Quote)

  datatype Poll = Idle | Pulling | Publishing(batch: seq<Quote>, done: nat)

  /** The poller's own state, then the history of the run: what the stream was offered and accepted, what
      was published, what a failed poll dropped, and what was accepted with no listener attached. */
  datatype State = State(
    memory: Memory,
    started: bool,           // the poller takes the service to be started, and does not attach again
    listening: bool,
    stopping: bool,          // the service is stopping and will drop its listeners
    queue: seq<Quote>,
    poll: Poll,
    offered: seq<Quote>,
    log: seq<Quote>,
    published: seq<Quote>,
    lost: seq<Quote>,
    unheard: seq<Quote>)

  const INITIAL := State(EMPTY, false, false, false, [], Idle, [], [], [], [], [])

  datatype Step =
    | Push(payload: Payload)
    | Attach
    | Unsubscribe
    | StopService
    | ListenersCleared
    | BeginPoll
    | Pulled(payloads: seq<Payload>)
    | PullThrows
    | PublishNext
    | PublishThrows
    | EndPoll

  /** One validated quote is offered to the stream, and an accepted one shown to the listener. */
  function Ingest(o: StreamOptions, s: State, p: Payload): State {
    if !p.Valid? then s
    else
      var q := p.quote;
      var t := s.(memory := Offered(o, s.memory, q), offered := s.offered + [q]);
      if Objection(o, s.memory.states, q).Some? then t
      else if s.listening then t.(log := s.log + [q], queue := s.queue + [q])
      else t.(log := s.log + [q], unheard := s.unheard + [q])
  }

  function IngestMany(o: StreamOptions, s: State, payloads: seq<Payload>): State {
    if payloads == [] then s
    else Ingest(o, IngestMany(o, s, payloads[..|payloads| - 1]), payloads[|payloads| - 1])
  }

  /** Attaches the listener and starts the service, unless that is taken to be done already. */
  function Started(s: State): State { if s.started then s else s.(started := true, listening := true) }

  predicate Enabled(s: State, step: Step) {
    match step
    case StopService => s.started
    case ListenersCleared => s.stopping
    case BeginPoll => s.poll.Idle?
    case Pulled(_) => s.poll.Pulling?
    case PullThrows => s.poll.Pulling?
    case PublishNext => s.poll.Publishing? && s.poll.done < |s.poll.batch|
    case PublishThrows => s.poll.Publishing? && s.poll.done < |s.poll.batch|
    case EndPoll => s.poll.Publishing? && s.poll.done == |s.poll.batch|
    case _ => true
  }

  function Apply(o: StreamOptions, s: State, step: Step): State
    requires Enabled(s, step)
  {
    match step
    case Push(payload) => Ingest(o, s, payload)
    case Attach => Started(s)
    case Unsubscribe => s.(listening := false)
    case StopService => s.(started := false, stopping := true)
    case ListenersCleared => s.(stopping := false, listening := false)
    case BeginPoll => Started(s).(poll := Pulling)
    case Pulled(payloads) =>
      var t := IngestMany(o, s, payloads);
      t.(poll := Publishing(t.queue, 0), queue := [])
    case PullThrows => s.(poll := Idle)
    case PublishNext =>
      s.(published := s.published + [s.poll.batch[s.poll.done]], poll := s.poll.(done := s.poll.done + 1))
    case PublishThrows => s.(lost := s.lost + s.poll.batch[s.poll.done..], poll := Idle)
    case EndPoll => s.(poll := Idle)
  }

  function After(o: StreamOptions, steps: seq<Step>): Option<State> {
    if steps == [] then Some(INITIAL)
    else
      var n := |steps| - 1;
      match After(o, steps[..n])
      case None => None
      case Some(s) => if Enabled(s, steps[n]) then Some(Apply(o, s, steps[n])) else None
  }

  function InFlight(poll: Poll): seq<Quote> {
    if poll.Publishing? && poll.done <= |poll.batch| then poll.batch[poll.done..] else []
  }

  /** What was handed over, what is being handed over, and what waits. */
  function HandedOver(s: State): seq<Quote> { s.published + InFlight(s.poll) + s.queue }

  // ----- The accepted log is the stream's -----

  /** The quotes of one symbol, in order. */
  function Of(quotes: seq<Quote>, symbol: string): seq<Quote> {
    if quotes == [] then []
    else
      var q := quotes[|quotes| - 1];
      Of(quotes[..|quotes| - 1], symbol) + if q.symbol == symbol then [q] else []
  }

  lemma OfAppend(quotes: seq<Quote>, q: Quote, symbol: string)
    ensures Of(quotes + [q], symbol) == Of(quotes, symbol) + if q.symbol == symbol then [q] else []
  {
    assert (quotes + [q])[..|quotes|] == quotes;
  }

  /** The stream has seen exactly the offered quotes, and the log is what it accepted of them. */
  ghost predicate LogIsAccepted(o: StreamOptions, s: State) {
    s.memory == QuoteStream.After(o, s.offered) && s.memory.accepted == |s.log|
    && forall symbol :: Of(s.log, symbol) == History(o, s.offered, symbol)
  }

  lemma OfferAdds(o: StreamOptions, offered: seq<Quote>, q: Quote, symbol: string)
    ensures QuoteStream.After(o, offered + [q]) == Offered(o, QuoteStream.After(o, offered), q)
    ensures History(o, offered + [q], symbol) == History(o, offered, symbol)
      + if q.symbol == symbol && Objection(o, QuoteStream.After(o, offered).states, q).None? then [q] else []
  {
    hide Objection, Offered;
    assert (offered + [q])[..|offered|] == offered;
  }

  lemma IngestKeepsLog(o: StreamOptions, s: State, p: Payload)
    requires LogIsAccepted(o, s)
    ensures LogIsAccepted(o, Ingest(o, s, p))
  {
    if p.Valid? {
      var s' := Ingest(o, s, p);
      OfferAdds(o, s.offered, p.quote, p.quote.symbol);
      hide Objection, Remembered, Of, History, QuoteStream.After;
      forall symbol
        ensures Of(s'.log, symbol) == History(o, s'.offered, symbol)
      {
        OfAppend(s.log, p.quote, symbol);
        OfferAdds(o, s.offered, p.quote, symbol);
        assert Of(s.log, symbol) == History(o, s.offered, symbol);
      }
    }
  }

  lemma {:induction false} IngestManyKeepsLog(o: StreamOptions, s: State, payloads: seq<Payload>)
    requires LogIsAccepted(o, s)
    ensures LogIsAccepted(o, IngestMany(o, s, payloads))
  {
    hide LogIsAccepted;
    if payloads != [] {
      var n := |payloads| - 1;
      IngestManyKeepsLog(o, s, payloads[..n]);
      IngestKeepsLog(o, IngestMany(o, s, payloads[..n]), payloads[n]);
    }
  }

  // ----- Nothing is dropped or repeated on the way -----

  /** Every accepted quote is handed over, dropped or unheard; with none of the last two, in order. */
  ghost predicate Conserved(s: State) {
    && (s.poll.Publishing? ==> s.poll.done <= |s.poll.batch|)
    && |s.log| == |HandedOver(s)| + |s.lost| + |s.unheard|
    && (s.lost == [] && s.unheard == [] ==> HandedOver(s) == s.log)
  }

  lemma IngestKeeps(o: StreamOptions, s: State, p: Payload)
    requires Conserved(s)
    ensures var s' := Ingest(o, s, p);
      Conserved(s') && s'.poll == s.poll && s'.lost == s.lost && s'.published == s.published
      && s'.listening == s.listening
      && (s.listening ==> s'.unheard == s.unheard)
  {
    hide Objection, Offered, InFlight;
    var s' := Ingest(o, s, p);
    if |s'.queue| > |s.queue| {
      assert HandedOver(s') == HandedOver(s) + [p.quote];
    }
  }

  lemma {:induction false} IngestManyKeeps(o: StreamOptions, s: State, payloads: seq<Payload>)
    requires Conserved(s)
    ensures var s' := IngestMany(o, s, payloads);
      Conserved(s') && s'.poll == s.poll && s'.lost == s.lost && s'.published == s.published
      && s'.listening == s.listening
      && (s.listening ==> s'.unheard == s.unheard)
  {
    hide Conserved, Ingest;
    if payloads != [] {
      var n := |payloads| - 1;
      IngestManyKeeps(o, s, payloads[..n]);
      IngestKeeps(o, IngestMany(o, s, payloads[..n]), payloads[n]);
    }
  }

  lemma PulledConserves(s: State)
    requires Conserved(s) && s.poll.Pulling?
    ensures Conserved(s.(poll := Publishing(s.queue, 0), queue := []))
  {
    assert HandedOver(s.(poll := Publishing(s.queue, 0), queue := [])) == HandedOver(s);
  }

  lemma PublishConserves(s: State)
    requires Conserved(s) && s.poll.Publishing? && s.poll.done < |s.poll.batch|
    ensures Conserved(s.(published := s.published + [s.poll.batch[s.poll.done]], poll := s.poll.(done := s.poll.done + 1)))
  {
    var s' := s.(published := s.published + [s.poll.batch[s.poll.done]], poll := s.poll.(done := s.poll.done + 1));
    assert InFlight(s.poll) == [s.poll.batch[s.poll.done]] + InFlight(s'.poll);
    assert HandedOver(s') == HandedOver(s);
  }

  lemma ThrowConserves(s: State)
    requires Conserved(s) && s.poll.Publishing? && s.poll.done < |s.poll.batch|
    ensures Conserved(s.(lost := s.lost + s.poll.batch[s.poll.done..], poll := Idle))
  {
  }

  lemma EndConserves(s: State)
    requires Conserved(s) && InFlight(s.poll) == []
    ensures Conserved(s.(poll := Idle))
    ensures Conserved(Started(s).(poll := Pulling))
  {
  }

  lemma ListeningConserves(s: State, s': State)
    requires Conserved(s) && s' == s.(started := s'.started, listening := s'.listening, stopping := s'.stopping)
    ensures Conserved(s')
  {
  }

  lemma StepConserves(o: StreamOptions, s: State, step: Step)
    requires Conserved(s) && Enabled(s, step)
    ensures var s' := Apply(o, s, step); Conserved(s') && (s'.lost == [] <==> s.lost == [] && !step.PublishThrows?)
  {
    hide Conserved, IngestMany, Ingest;
    match step
    case Push(p) => IngestKeeps(o, s, p);
    case Pulled(payloads) =>
      IngestManyKeeps(o, s, payloads);
      PulledConserves(IngestMany(o, s, payloads));
    case PublishNext => PublishConserves(s);
    case PublishThrows => ThrowConserves(s);
    case BeginPoll => EndConserves(s);
    case EndPoll => EndConserves(s);
    case PullThrows => EndConserves(s);
    case _ => ListeningConserves(s, Apply(o, s, step));
  }

  lemma StepKeepsLog(o: StreamOptions, s: State, step: Step)
    requires LogIsAccepted(o, s) && Enabled(s, step)
    ensures LogIsAccepted(o, Apply(o, s, step))
  {
    hide LogIsAccepted, IngestMany, Ingest;
    match step
    case Push(p) => IngestKeepsLog(o, s, p);
    case Pulled(payloads) =>
      IngestManyKeepsLog(o, s, payloads);
      LogOnly(o, IngestMany(o, s, payloads), Apply(o, s, step));
    case _ => LogOnly(o, s, Apply(o, s, step));
  }

  lemma LogOnly(o: StreamOptions, s: State, s': State)
    requires s'.memory == s.memory && s'.offered == s.offered && s'.log == s.log
    ensures LogIsAccepted(o, s) ==> LogIsAccepted(o, s')
  {
  }

  ghost predicate NoPublishThrows(steps: seq<Step>) { forall k :: 0 <= k < |steps| ==> !steps[k].PublishThrows? }

  lemma {:induction false} RunKeeps(o: StreamOptions, steps: seq<Step>)
    requires After(o, steps).Some?
    ensures var s := After(o, steps).value;
      Conserved(s) && LogIsAccepted(o, s) && (s.lost == [] <==> NoPublishThrows(steps))
  {
    hide Conserved, LogIsAccepted, Apply;
    if steps == [] {
      NothingYet(o);
    } else {
      var n := |steps| - 1;
      RunKeeps(o, steps[..n]);
      StepConserves(o, After(o, steps[..n]).value, steps[n]);
      StepKeepsLog(o, After(o, steps[..n]).value, steps[n]);
      assert NoPublishThrows(steps) <==> NoPublishThrows(steps[..n]) && !steps[n].PublishThrows? by {
        assert forall k :: 0 <= k < n ==> steps[..n][k] == steps[k];
      }
    }
  }

  lemma NothingYet(o: StreamOptions)
    ensures Conserved(INITIAL) && LogIsAccepted(o, INITIAL)
  {
  }

  /** Over every run of pushes, pulls and failures: the quotes handed to publication, those in flight and
      those queued are the stream's accepted log, in order, exactly when no publication threw and every
      quote was accepted while the poller was listening. */
  lemma HandOverIsExactExactlyWhen(o: StreamOptions, steps: seq<Step>)
    requires After(o, steps).Some?
    ensures var s := After(o, steps).value;
      HandedOver(s) == s.log <==> NoPublishThrows(steps) && s.unheard == []
    ensures var s := After(o, steps).value;
      s.memory == QuoteStream.After(o, s.offered)
      && forall symbol :: Of(s.log, symbol) == History(o, s.offered, symbol)
  {
    RunKeeps(o, steps);
  }

  /** A push can come, and the poller be stopped, at any moment; a pull and a publication can always throw. */
  lemma AnythingMayFail(s: State, p: Payload)
    ensures Enabled(s, Push(p)) && Enabled(s, Unsubscribe) && (s.started ==> Enabled(s, StopService))
    ensures s.poll.Pulling? ==> Enabled(s, PullThrows)
    ensures Enabled(s, PublishNext) ==> Enabled(s, PublishThrows)
  {
  }

  // ----- What reaches the stream -----

  /** The valid quotes of a list of payloads, in order. */
  function QuotesOf(payloads: seq<Payload>): seq<Quote> {
    if payloads == [] then []
    else
      var p := payloads[|payloads| - 1];
      QuotesOf(payloads[..|payloads| - 1]) + if p.Valid? then [p.quote] else []
  }

  /** Everything a provider pushed or answered during a run, in order. */
  function Provided(steps: seq<Step>): seq<Quote> {
    if steps == [] then []
    else
      var n := |steps| - 1;
      Provided(steps[..n]) + ProvidedBy(steps[n])
  }

  lemma {:induction false} IngestManyOffers(o: StreamOptions, s: State, payloads: seq<Payload>)
    ensures IngestMany(o, s, payloads).offered == s.offered + QuotesOf(payloads)
  {
    hide Objection, Offered;
    if payloads != [] {
      IngestManyOffers(o, s, payloads[..|payloads| - 1]);
    }
  }

  function ProvidedBy(step: Step): seq<Quote> {
    match step
    case Push(p) => if p.Valid? then [p.quote] else []
    case Pulled(payloads) => QuotesOf(payloads)
    case _ => []
  }

  lemma StepOffers(o: StreamOptions, s: State, step: Step)
    requires Enabled(s, step)
    ensures Apply(o, s, step).offered == s.offered + ProvidedBy(step)
  {
    hide IngestMany, Objection, Offered, QuotesOf;
    if step.Pulled? {
      IngestManyOffers(o, s, step.payloads);
    }
  }

  /** Over every run, the stream is offered every valid quote the provider pushed or answered, in order, and
      nothing else; so the log is what it accepts of them. */
  lemma {:induction false} EveryQuoteIsOffered(o: StreamOptions, steps: seq<Step>)
    requires After(o, steps).Some?
    ensures After(o, steps).value.offered == Provided(steps)
  {
    if steps != [] {
      hide Apply, ProvidedBy;
      var n := |steps| - 1;
      EveryQuoteIsOffered(o, steps[..n]);
      StepOffers(o, After(o, steps[..n]).value, steps[n]);
    }
  }

  /** A batch whose publications do not throw goes out whole and in order. */
  lemma {:induction false} BatchGoesOut(o: StreamOptions, before: seq<Step>, s0: State) returns (steps: seq<Step>, s: State)
    requires After(o, before) == Some(s0) && s0.poll.Publishing? && s0.poll.done <= |s0.poll.batch|
    ensures After(o, steps) == Some(s) && s.poll.Idle? && s.queue == s0.queue && s.lost == s0.lost
    ensures s.published == s0.published + s0.poll.batch[s0.poll.done..]
    decreases |s0.poll.batch| - s0.poll.done
  {
    hide After;
    if s0.poll.done == |s0.poll.batch| {
      StepTaken(o, before, s0, EndPoll);
      steps, s := before + [EndPoll], Apply(o, s0, EndPoll);
      assert s0.published + s0.poll.batch[s0.poll.done..] == s0.published;
    } else {
      StepTaken(o, before, s0, PublishNext);
      var t := Apply(o, s0, PublishNext);
      steps, s := BatchGoesOut(o, before + [PublishNext], t);
      assert t.published + s0.poll.batch[t.poll.done..] == s0.published + s0.poll.batch[s0.poll.done..];
    }
  }

  // ----- No quote twice -----

  predicate OneKind(history: seq<Quote>) { AllSequenced(history) || NoneSequenced(history) }

  lemma OfMember(quotes: seq<Quote>, i: nat, symbol: string) returns (k: nat)
    requires i < |quotes| && quotes[i].symbol == symbol
    ensures k < |Of(quotes, symbol)| && Of(quotes, symbol)[k] == quotes[i]
  {
    var n := |quotes| - 1;
    if i == n {
      k := |Of(quotes[..n], symbol)|;
    } else {
      assert quotes[..n][i] == quotes[i];
      k := OfMember(quotes[..n], i, symbol);
    }
  }

  lemma LastRanksHighest(o: StreamOptions, quotes: seq<Quote>, i: nat)
    requires i < |quotes| - 1 && quotes[i].symbol == quotes[|quotes| - 1].symbol
    requires var mine := Of(quotes, quotes[i].symbol); Follows(o, mine) && OneKind(mine)
    ensures Rank(quotes[i]) < Rank(quotes[|quotes| - 1])
  {
    hide Follows, Rank;
    var n, symbol := |quotes| - 1, quotes[i].symbol;
    var mine, earlier := Of(quotes, symbol), Of(quotes[..n], symbol);
    assert mine == earlier + [quotes[n]];
    var k := OfMember(quotes[..n], i, symbol);
    RanksIncrease(o, mine, k, |mine| - 1);
  }

  lemma OfShortens(quotes: seq<Quote>, symbol: string)
    requires quotes != []
    ensures var mine, earlier := Of(quotes, symbol), Of(quotes[..|quotes| - 1], symbol);
      |earlier| <= |mine| && forall k :: 0 <= k < |earlier| ==> mine[k] == earlier[k]
  {
  }

  lemma {:induction false} LaterRanksHigher(o: StreamOptions, quotes: seq<Quote>, i: nat, j: nat)
    requires i < j < |quotes| && quotes[i].symbol == quotes[j].symbol
    requires var mine := Of(quotes, quotes[j].symbol); Follows(o, mine) && OneKind(mine)
    ensures Rank(quotes[i]) < Rank(quotes[j])
  {
    hide Follows, OneKind, Rank, Of;
    var n, symbol := |quotes| - 1, quotes[j].symbol;
    if j == n {
      LastRanksHighest(o, quotes, i);
    } else {
      var shorter := quotes[..n];
      assert shorter[i] == quotes[i] && shorter[j] == quotes[j];
      OfShortens(quotes, symbol);
      EarlierFollows(o, Of(quotes, symbol), Of(shorter, symbol));
      LaterRanksHigher(o, shorter, i, j);
    }
  }

  lemma EarlierFollows(o: StreamOptions, mine: seq<Quote>, earlier: seq<Quote>)
    requires Follows(o, mine) && OneKind(mine)
    requires |earlier| <= |mine| && forall k :: 0 <= k < |earlier| ==> mine[k] == earlier[k]
    ensures Follows(o, earlier) && OneKind(earlier)
  {
    assert forall q :: q in earlier ==> q in mine;
  }

  /** If each symbol's accepted quotes all carry sequences or all lack them, no quote is handed over twice. */
  lemma NoQuoteTwice(o: StreamOptions, steps: seq<Step>, i: nat, j: nat)
    requires After(o, steps).Some? && NoPublishThrows(steps) && After(o, steps).value.unheard == []
    requires forall symbol :: OneKind(Of(After(o, steps).value.log, symbol))
    requires i < j < |HandedOver(After(o, steps).value)|
    ensures var handed := HandedOver(After(o, steps).value); handed[i] != handed[j]
  {
    RunKeeps(o, steps);
    var s := After(o, steps).value;
    if s.log[i].symbol == s.log[j].symbol {
      HistoryIsTracked(o, s.offered, s.log[j].symbol);
      LaterRanksHigher(o, s.log, i, j);
    }
  }

  // ----- Where it fails -----

  lemma StepTaken(o: StreamOptions, steps: seq<Step>, s: State, step: Step)
    requires After(o, steps) == Some(s) && Enabled(s, step)
    ensures After(o, steps + [step]) == Some(Apply(o, s, step))
  {
    assert (steps + [step])[..|steps|] == steps;
  }

  const ANY := StreamOptions(500, 256, [])
  const GOLD := Quote("XAU", "g", Some(1), 1, 100)
  const SILVER := Quote("XAG", "s", Some(1), 1, 100)

  /** A publication that throws drops the rest of its batch: the quotes were taken off the queue, and the
      stream will turn them away as duplicates if they are offered again. */
  lemma AThrowDropsTheRest() returns (steps: seq<Step>, s: State)
    ensures After(ANY, steps) == Some(s)
    ensures s.poll.Idle? && s.queue == [] && s.published == [] && s.log == [GOLD, SILVER] && s.lost == [GOLD, SILVER]
    ensures Objection(ANY, s.memory.states, SILVER) == Some(Duplicate)
  {
    steps, s := [], INITIAL;
    StepTaken(ANY, steps, s, BeginPoll);
    steps, s := steps + [BeginPoll], Apply(ANY, s, BeginPoll);
    var pulled := Pulled([Valid(GOLD), Valid(SILVER)]);
    PullOfTwo(s);
    StepTaken(ANY, steps, s, pulled);
    steps, s := steps + [pulled], Apply(ANY, s, pulled);
    StepTaken(ANY, steps, s, PublishThrows);
    steps, s := steps + [PublishThrows], Apply(ANY, s, PublishThrows);
  }

  lemma PullOfTwo(s: State)
    requires s == INITIAL.(poll := Pulling, started := true, listening := true)
    ensures var t := IngestMany(ANY, s, [Valid(GOLD), Valid(SILVER)]);
      t.queue == [GOLD, SILVER] && t.log == [GOLD, SILVER] && t.lost == [] && t.published == []
      && Objection(ANY, t.memory.states, SILVER) == Some(Duplicate)
  {
    var both := [Valid(GOLD), Valid(SILVER)];
    assert both[..1] == [Valid(GOLD)] && both[..1][..0] == [];
    assert IngestMany(ANY, s, []) == s;
    var t := IngestMany(ANY, s, [Valid(GOLD)]);
    assert t == Ingest(ANY, s, Valid(GOLD));
    assert t.log == [GOLD] && t.queue == [GOLD];
    assert IngestMany(ANY, s, both) == Ingest(ANY, t, Valid(SILVER));
    FirstIsRemembered(t.memory, SILVER);
  }

  lemma FirstIsRemembered(m: Memory, q: Quote)
    requires q.symbol !in m.states
    ensures Objection(ANY, m.states, q).None? && Objection(ANY, Offered(ANY, m, q).states, q) == Some(Duplicate)
  {
    assert [] + [q.id] == [q.id];
  }

  /** Stopping during a pull detaches the listener: what the pull then accepts is never handed over. */
  lemma StopDuringAPullLosesIt() returns (steps: seq<Step>, s: State)
    ensures After(ANY, steps) == Some(s)
    ensures s.log == [GOLD] && s.queue == [] && s.poll == Publishing([], 0) && s.published == [] && s.unheard == [GOLD]
  {
    steps, s := [], INITIAL;
    StepTaken(ANY, steps, s, BeginPoll);
    steps, s := steps + [BeginPoll], Apply(ANY, s, BeginPoll);
    StepTaken(ANY, steps, s, Unsubscribe);
    steps, s := steps + [Unsubscribe], Apply(ANY, s, Unsubscribe);
    steps, s := PullUnheard(steps, s);
  }

  /** A poll that begins between the detaching of the listener and the end of the service, while the lease is
      being released, does not attach again, and loses what it accepts. */
  lemma PollWhileStoppingLosesIt() returns (steps: seq<Step>, s: State)
    ensures After(ANY, steps) == Some(s)
    ensures s.log == [GOLD] && s.queue == [] && s.poll == Publishing([], 0) && s.published == [] && s.unheard == [GOLD]
  {
    steps, s := [], INITIAL;
    StepTaken(ANY, steps, s, Attach);
    steps, s := steps + [Attach], Apply(ANY, s, Attach);
    StepTaken(ANY, steps, s, Unsubscribe);
    steps, s := steps + [Unsubscribe], Apply(ANY, s, Unsubscribe);
    StepTaken(ANY, steps, s, BeginPoll);
    steps, s := steps + [BeginPoll], Apply(ANY, s, BeginPoll);
    steps, s := PullUnheard(steps, s);
  }

  lemma PullUnheard(before: seq<Step>, s0: State) returns (steps: seq<Step>, s: State)
    requires After(ANY, before) == Some(s0) && s0.poll.Pulling? && !s0.listening && s0.memory == EMPTY
    ensures After(ANY, steps) == Some(s)
    ensures s.log == s0.log + [GOLD] && s.unheard == s0.unheard + [GOLD] && s.published == s0.published
    ensures s.queue == [] && s.poll == Publishing(s0.queue, 0)
  {
    var pulled := Pulled([Valid(GOLD)]);
    assert [Valid(GOLD)][..0] == [] && IngestMany(ANY, s0, []) == s0;
    FirstIsRemembered(s0.memory, GOLD);
    StepTaken(ANY, before, s0, pulled);
    steps, s := before + [pulled], Apply(ANY, s0, pulled);
  }

  // ----- The poller and the service, as they run -----

  /** The poller with the service and stream it owns; the history is kept beside the real fields. */
  class MarketPoller {
    const stream: Stream
    var started: bool
    var listening: bool
    var stopping: bool
    var accepted: seq<Quote>
    var poll: Poll
    ghost var feed: State

    ghost predicate Valid()
      reads this, stream
    {
      feed.memory == stream.Remembers() && feed.started == started && feed.listening == listening
      && feed.stopping == stopping && feed.queue == accepted && feed.poll == poll
    }

    constructor (options: StreamOptions)
      ensures Valid() && fresh(stream) && stream.options == options && feed == INITIAL
    {
      stream := new Stream(options);
      started, listening, stopping := false, false, false;
      accepted, poll, feed := [], Idle, INITIAL;
    }

    /** The one ingestion path. */
    method Accept(payload: Payload) returns (quote: Option<Quote>)
      requires Valid()
      modifies this, stream
      ensures Valid() && feed == Ingest(stream.options, old(feed), payload)
      ensures feed.log == old(feed.log) + if quote.Some? then [quote.value] else []
    {
      feed := Ingest(stream.options, feed, payload);
      match payload
      case Valid(q) =>
        var result := stream.Accept(q);
        match result {
          case Rejected(_) => quote := None;
          case Accepted(accepted_) =>
            if listening { accepted := accepted + [accepted_]; }
            quote := Some(accepted_);
        }
      case _ => quote := None;
    }

    method AcceptMany(payloads: seq<Payload>) returns (quotes: seq<Quote>)
      requires Valid()
      modifies this, stream
      ensures Valid() && feed == IngestMany(stream.options, old(feed), payloads)
      ensures feed.log == old(feed.log) + quotes
    {
      quotes := [];
      for i := 0 to |payloads|
        invariant Valid() && feed == IngestMany(stream.options, old(feed), payloads[..i])
        invariant feed.log == old(feed.log) + quotes
      {
        assert payloads[..i + 1][..i] == payloads[..i];
        if !payloads[i].Missing? {
          var quote := Accept(payloads[i]);
          if quote.Some? { quotes := quotes + [quote.value]; }
        }
      }
      assert payloads[..|payloads|] == payloads;
    }

    /** `poll_once` up to its first await; false when a poll is already running. */
    method BeginPoll() returns (began: bool)
      requires Valid()
      modifies this
      ensures Valid() && began == old(poll).Idle?
      ensures feed == if began then Apply(stream.options, old(feed), Step.BeginPoll) else old(feed)
    {
      if !poll.Idle? { return false; }
      EnsureServiceStarted();
      poll := Pulling;
      feed := feed.(poll := Pulling);
      return true;
    }

    /** The provider has answered: ingest, then take the whole queue. */
    method Pulled(payloads: seq<Payload>)
      requires Valid() && poll.Pulling?
      modifies this, stream
      ensures Valid() && feed == Apply(stream.options, old(feed), Step.Pulled(payloads))
    {
      ghost var next := Apply(stream.options, feed, Step.Pulled(payloads));
      var _ := AcceptMany(payloads);
      var batch := accepted;
      accepted := [];
      poll := Publishing(batch, 0);
      feed := next;
    }

    /** The provider failed, or the whole batch is out. */
    method EndPoll()
      requires Valid() && (poll.Pulling? || (poll.Publishing? && poll.done == |poll.batch|))
      modifies this
      ensures Valid()
      ensures feed == Apply(stream.options, old(feed), if old(poll).Pulling? then PullThrows else Step.EndPoll)
    {
      feed := Apply(stream.options, feed, if poll.Pulling? then PullThrows else Step.EndPoll);
      poll := Idle;
    }

    /** Attaches the listener once, until the service has been stopped. */
    method EnsureServiceStarted()
      requires Valid()
      modifies this`started, this`listening, this`feed
      ensures Valid() && feed == Started(old(feed))
    {
      feed := Started(feed);
      if started { return; }
      started := true;
      listening := true;
    }

    /** `stop` before its first await: the listener is detached; a poll under way goes on. */
    method BeginStop()
      requires Valid()
      modifies this
      ensures Valid() && feed == Apply(stream.options, old(feed), Unsubscribe)
    {
      feed := Apply(stream.options, feed, Unsubscribe);
      listening := false;
    }

    /** The lease is released: the service begins to stop, if it was started. */
    method ServiceStops()
      requires Valid()
      modifies this
      ensures Valid() && feed == if old(started) then Apply(stream.options, old(feed), StopService) else old(feed)
    {
      if !started { return; }
      feed := Apply(stream.options, feed, StopService);
      started, stopping := false, true;
    }

    /** The provider has stopped: the service drops every listener. */
    method ServiceStopped()
      requires Valid() && stopping
      modifies this
      ensures Valid() && feed == Apply(stream.options, old(feed), ListenersCleared)
    {
      feed := Apply(stream.options, feed, ListenersCleared);
      stopping, listening := false, false;
    }

    /** The next quote of the batch has been published, or its publication threw. */
    method Published(threw: bool)
      requires Valid() && poll.Publishing? && poll.done < |poll.batch|
      modifies this
      ensures Valid()
      ensures feed == Apply(stream.options, old(feed), if threw then PublishThrows else PublishNext)
    {
      feed := Apply(stream.options, feed, if threw then PublishThrows else PublishNext);
      poll := if threw then Idle else poll.(done := poll.done + 1);
    }
  }
}
