/** Quote ingestion: duplicates, order and plausibility of a provider's feed. */
module QuoteStream {
  import opened Outcomes
  import opened Rounding

  const BPS := 10_000

  datatype Quote = Quote(symbol: string, id: string, sequence: Option<int>, at: int, mid: int)

  datatype StreamOptions = StreamOptions(maxMoveBps: int, dedupeWindow: int, knownSymbols: seq<string>)

  datatype Reason = InvalidSchema | Duplicate | OutOfOrder | ImplausibleMove | UnknownSymbol

  datatype IngestResult = Accepted(quote: Quote) | Rejected(reason: Reason)

  /** What is remembered of one symbol; the ids in the order they were added. */
  datatype SymbolState = SymbolState(last: Quote, recentIds: seq<string>)

  datatype Memory = Memory(states: map<string, SymbolState>, accepted: nat, rejected: map<Reason, nat>)

  const NONE_REJECTED: map<Reason, nat> :=
    map[InvalidSchema := 0, Duplicate := 0, OutOfOrder := 0, ImplausibleMove := 0, UnknownSymbol := 0]

  const EMPTY := Memory(map[], 0, NONE_REJECTED)

  datatype Ordering = Newer | Older | Same

  function Compare(a: int, b: int): Ordering { if a > b then Newer else if a < b then Older else Same }

  function CompareOrdering(candidate: Quote, last: Quote): Ordering {
    if candidate.sequence.Some? && last.sequence.Some? then Compare(candidate.sequence.value, last.sequence.value)
    else Compare(candidate.at, last.at)
  }

  /** The move in basis points of the previous value; none stands for infinity. */
  function MoveInBps(previous: int, next: int): Option<int> {
    if previous == 0 then None else Some(TruncDiv(Abs(next - previous) * BPS, previous))
  }

  predicate Plausible(o: StreamOptions, previous: int, next: int) {
    match MoveInBps(previous, next)
    case None => false
    case Some(move) => move <= o.maxMoveBps
  }

  /** The newest `window` ids. */
  function Newest(ids: seq<string>, window: int): seq<string> {
    if window <= 0 then [] else if |ids| <= window then ids else ids[|ids| - window..]
  }

  /** Why a quote is turned away, if it is. */
  function Objection(o: StreamOptions, states: map<string, SymbolState>, q: Quote): Option<Reason> {
    if o.knownSymbols != [] && q.symbol !in o.knownSymbols then Some(UnknownSymbol)
    else if q.symbol !in states then None
    else
      var state := states[q.symbol];
      if q.id in state.recentIds then Some(Duplicate)
      else match CompareOrdering(q, state.last)
        case Same => Some(Duplicate)
        case Older => Some(OutOfOrder)
        case Newer => if Plausible(o, state.last.mid, q.mid) then None else Some(ImplausibleMove)
  }

  function Remembered(o: StreamOptions, states: map<string, SymbolState>, q: Quote): map<string, SymbolState> {
    var ids := if q.symbol in states then states[q.symbol].recentIds else [];
    states[q.symbol := SymbolState(q, Newest(ids + [q.id], o.dedupeWindow))]
  }

  function Counted(rejected: map<Reason, nat>, reason: Reason): map<Reason, nat> {
    rejected[reason := (if reason in rejected then rejected[reason] else 0) + 1]
  }

  function Offered(o: StreamOptions, m: Memory, q: Quote): Memory {
    match Objection(o, m.states, q)
    case Some(reason) => m.(rejected := Counted(m.rejected, reason))
    case None => m.(states := Remembered(o, m.states, q), accepted := m.accepted + 1)
  }

  predicate IsSuffix(all: seq<string>, ids: seq<string>) {
    |ids| <= |all| && ids == all[|all| - |ids|..]
  }

  lemma SuffixOfItself(all: seq<string>)
    ensures IsSuffix(all, all)
  {
  }

  lemma SuffixShrinks(all: seq<string>, ids: seq<string>)
    requires IsSuffix(all, ids) && ids != []
    ensures IsSuffix(all, ids[1..])
  {
  }

  lemma SuffixIsNewest(all: seq<string>, ids: seq<string>, window: int)
    requires IsSuffix(all, ids) && (ids == all || |ids| >= window) && (|ids| <= window || ids == [])
    ensures ids == Newest(all, window)
  {
  }

  /** Drops the oldest ids until no more than the window are left. */
  method Evict(ids: seq<string>, window: int) returns (kept: seq<string>)
    ensures kept == Newest(ids, window)
  {
    hide IsSuffix, Newest;
    kept := ids;
    SuffixOfItself(ids);
    while |kept| > window
      invariant IsSuffix(ids, kept) && (kept == ids || |kept| >= window)
      decreases |kept|
    {
      if kept == [] { break; }
      SuffixShrinks(ids, kept);
      kept := kept[1..];
    }
    SuffixIsNewest(ids, kept, window);
  }

  class Stream {
    const options: StreamOptions
    var states: map<string, SymbolState>
    var accepted: nat
    var rejected: map<Reason, nat>

    function Remembers(): Memory
      reads this
    {
      Memory(states, accepted, rejected)
    }

    constructor (options: StreamOptions)
      ensures Remembers() == EMPTY && this.options == options
    {
      this.options := options;
      states, accepted, rejected := map[], 0, NONE_REJECTED;
    }

    method Accept(quote: Quote) returns (result: IngestResult)
      modifies this
      ensures Remembers() == Offered(options, old(Remembers()), quote)
      ensures result == match Objection(options, old(states), quote)
                        case None => Accepted(quote)
                        case Some(reason) => Rejected(reason)
    {
      if options.knownSymbols != [] && quote.symbol !in options.knownSymbols {
        result := Reject(UnknownSymbol);
        return;
      }
      if quote.symbol !in states {
        Remember(quote);
        accepted := accepted + 1;
        return Accepted(quote);
      }
      var state := states[quote.symbol];
      if quote.id in state.recentIds {
        result := Reject(Duplicate);
        return;
      }
      var ordering := CompareOrdering(quote, state.last);
      if ordering == Same {
        result := Reject(Duplicate);
        return;
      }
      if ordering == Older {
        result := Reject(OutOfOrder);
        return;
      }
      if !Plausible(options, state.last.mid, quote.mid) {
        result := Reject(ImplausibleMove);
        return;
      }
      Remember(quote);
      accepted := accepted + 1;
      return Accepted(quote);
    }

    method Remember(quote: Quote)
      modifies this`states
      ensures states == Remembered(options, old(states), quote)
    {
      var recentIds := if quote.symbol in states then states[quote.symbol].recentIds else [];
      recentIds := Evict(recentIds + [quote.id], options.dedupeWindow);
      states := states[quote.symbol := SymbolState(quote, recentIds)];
    }

    method Reject(reason: Reason) returns (result: IngestResult)
      modifies this`rejected
      ensures rejected == Counted(old(rejected), reason) && result == Rejected(reason)
    {
      rejected := Counted(rejected, reason);
      return Rejected(reason);
    }

    method Reset()
      modifies this
      ensures Remembers() == EMPTY
    {
      states, accepted, rejected := map[], 0, NONE_REJECTED;
    }
  }

  // ----- Over whole runs -----

  function After(o: StreamOptions, quotes: seq<Quote>): Memory {
    if quotes == [] then EMPTY
    else Offered(o, After(o, quotes[..|quotes| - 1]), quotes[|quotes| - 1])
  }

  /** The accepted quotes of a symbol, oldest first. */
  function History(o: StreamOptions, quotes: seq<Quote>, symbol: string): seq<Quote> {
    if quotes == [] then []
    else
      var earlier, q := quotes[..|quotes| - 1], quotes[|quotes| - 1];
      History(o, earlier, symbol)
      + if q.symbol == symbol && Objection(o, After(o, earlier).states, q).None? then [q] else []
  }

  function IdsOf(quotes: seq<Quote>): (ids: seq<string>)
    ensures |ids| == |quotes| && forall i :: 0 <= i < |ids| ==> ids[i] == quotes[i].id
  {
    seq(|quotes|, i requires 0 <= i < |quotes| => quotes[i].id)
  }

  /** Each quote of a history is newer than the one before it, and a plausible move from it. */
  ghost predicate Follows(o: StreamOptions, history: seq<Quote>) {
    forall i :: 0 < i < |history| ==>
      CompareOrdering(history[i], history[i - 1]).Newer? && Plausible(o, history[i - 1].mid, history[i].mid)
  }

  /** What is remembered of a symbol: its last accepted quote and the newest ids of its history. */
  predicate Tracks(o: StreamOptions, states: map<string, SymbolState>, symbol: string, history: seq<Quote>) {
    if symbol in states then
      history != [] && states[symbol].last == history[|history| - 1]
      && states[symbol].recentIds == Newest(IdsOf(history), o.dedupeWindow)
    else history == []
  }

  lemma NewestOfNewest(ids: seq<string>, id: string, window: int)
    ensures Newest(Newest(ids, window) + [id], window) == Newest(ids + [id], window)
  {
  }

  lemma RememberedIsTracked(o: StreamOptions, states: map<string, SymbolState>, q: Quote, history: seq<Quote>)
    requires Tracks(o, states, q.symbol, history)
    ensures Tracks(o, Remembered(o, states, q), q.symbol, history + [q])
  {
    hide Newest;
    NewestOfNewest(IdsOf(history), q.id, o.dedupeWindow);
    NothingNewest(o.dedupeWindow);
    assert IdsOf(history + [q]) == IdsOf(history) + [q.id];
  }

  lemma NothingNewest(window: int)
    ensures Newest([], window) == []
  {
  }

  lemma AcceptedFollows(o: StreamOptions, states: map<string, SymbolState>, q: Quote, history: seq<Quote>)
    requires Tracks(o, states, q.symbol, history) && Follows(o, history) && Objection(o, states, q).None?
    ensures Follows(o, history + [q])
  {
    hide Newest, CompareOrdering, Plausible;
  }

  lemma {:induction false} HistoryIsTracked(o: StreamOptions, quotes: seq<Quote>, symbol: string)
    ensures var history := History(o, quotes, symbol);
      Tracks(o, After(o, quotes).states, symbol, history) && Follows(o, history)
  {
    if quotes != [] {
      var earlier, q := quotes[..|quotes| - 1], quotes[|quotes| - 1];
      HistoryIsTracked(o, earlier, symbol);
      var history := History(o, earlier, symbol);
      var states := After(o, earlier).states;
      if q.symbol == symbol && Objection(o, states, q).None? {
        hide Tracks, Follows, Objection, Remembered;
        RememberedIsTracked(o, states, q, history);
        AcceptedFollows(o, states, q, history);
      } else {
        hide Follows, Objection;
        assert History(o, quotes, symbol) == history;
      }
    }
  }

  /** After any run of offers, a symbol's remembered ids are exactly those of its last
      min(window, n) accepted quotes, in order, and its last quote is the last accepted one. */
  lemma RecentIdsAreTheLatest(o: StreamOptions, quotes: seq<Quote>, symbol: string)
    requires symbol in After(o, quotes).states
    ensures var history := History(o, quotes, symbol);
      var state := After(o, quotes).states[symbol];
      var n := if o.dedupeWindow < 0 then 0 else if o.dedupeWindow < |history| then o.dedupeWindow else |history|;
      |history| > 0 && state.last == history[|history| - 1] && |state.recentIds| == n
      && forall i :: 0 <= i < n ==> state.recentIds[i] == history[|history| - n + i].id
  {
    hide After, History, Newest, IdsOf;
    HistoryIsTracked(o, quotes, symbol);
    NewestAre(IdsOf(History(o, quotes, symbol)), o.dedupeWindow);
  }

  lemma NewestAre(ids: seq<string>, window: int)
    ensures var n := if window < 0 then 0 else if window < |ids| then window else |ids|;
      |Newest(ids, window)| == n
      && forall i :: 0 <= i < n ==> Newest(ids, window)[i] == ids[|ids| - n + i]
  {
  }

  // ----- Order -----

  predicate AllSequenced(history: seq<Quote>) { forall q :: q in history ==> q.sequence.Some? }
  predicate NoneSequenced(history: seq<Quote>) { forall q :: q in history ==> q.sequence.None? }

  /** What the feed is ordered by. */
  function Rank(q: Quote): int { if q.sequence.Some? then q.sequence.value else q.at }

  lemma {:induction false} RanksIncrease(o: StreamOptions, history: seq<Quote>, i: nat, j: nat)
    requires Follows(o, history) && (AllSequenced(history) || NoneSequenced(history)) && i < j < |history|
    ensures Rank(history[i]) < Rank(history[j])
  {
    assert history[j] in history && history[j - 1] in history;
    if i < j - 1 {
      RanksIncrease(o, history, i, j - 1);
    }
  }

  /** If a symbol's accepted quotes all carry sequences, the sequences strictly increase; if none does, the
      timestamps do. An accepted quote offered again is turned away, however long ago its id was evicted. */
  lemma OrderedFeedRejectsReplays(o: StreamOptions, quotes: seq<Quote>, symbol: string, i: nat)
    requires var history := History(o, quotes, symbol); AllSequenced(history) || NoneSequenced(history)
    requires i < |History(o, quotes, symbol)|
    ensures var history := History(o, quotes, symbol);
      (forall j :: i < j < |history| ==> Rank(history[i]) < Rank(history[j]))
      && var objection := Objection(o, After(o, quotes).states, history[i]);
         objection.Some? && objection.value in {Duplicate, OutOfOrder, UnknownSymbol}
  {
    hide After, History;
    var history := History(o, quotes, symbol);
    HistoryIsTracked(o, quotes, symbol);
    HistoryIsOfSymbol(o, quotes, symbol);
    forall j | i < j < |history|
      ensures Rank(history[i]) < Rank(history[j])
    {
      RanksIncrease(o, history, i, j);
    }
    NotNewerIsRejected(o, After(o, quotes).states, history, i);
  }

  lemma NotNewerIsRejected(o: StreamOptions, states: map<string, SymbolState>, history: seq<Quote>, i: nat)
    requires i < |history| && Tracks(o, states, history[i].symbol, history)
    requires AllSequenced(history) || NoneSequenced(history)
    requires i < |history| - 1 ==> Rank(history[i]) < Rank(history[|history| - 1])
    ensures var objection := Objection(o, states, history[i]);
      objection.Some? && objection.value in {Duplicate, OutOfOrder, UnknownSymbol}
  {
    hide Newest, Plausible;
    var last := |history| - 1;
    assert history[i] in history && history[last] in history;
  }

  lemma {:induction false} HistoryIsOfSymbol(o: StreamOptions, quotes: seq<Quote>, symbol: string)
    ensures forall q :: q in History(o, quotes, symbol) ==> q.symbol == symbol
  {
    if quotes != [] {
      HistoryIsOfSymbol(o, quotes[..|quotes| - 1], symbol);
    }
  }

  lemma {:induction false} HistoryIsKnown(o: StreamOptions, quotes: seq<Quote>, symbol: string)
    ensures History(o, quotes, symbol) != [] ==> o.knownSymbols == [] || symbol in o.knownSymbols
  {
    if quotes != [] {
      HistoryIsKnown(o, quotes[..|quotes| - 1], symbol);
    }
  }

  lemma AcceptedExactlyWhen(o: StreamOptions, states: map<string, SymbolState>, history: seq<Quote>, q: Quote)
    requires history != [] && Tracks(o, states, q.symbol, history)
    requires o.knownSymbols == [] || q.symbol in o.knownSymbols
    ensures var last := history[|history| - 1];
      Objection(o, states, q).None? <==>
        q.id !in Newest(IdsOf(history), o.dedupeWindow) && CompareOrdering(q, last).Newer? && Plausible(o, last.mid, q.mid)
  {
    hide Newest, IdsOf, CompareOrdering, Plausible;
  }

  /** Over every run and for any feed, mixed ones included: an accepted quote offered again is accepted exactly
      when its id has left the window, it counts as newer than the last accepted quote, and the move between
      the two is plausible. */
  lemma ReplayIsAcceptedExactlyWhen(o: StreamOptions, quotes: seq<Quote>, symbol: string, i: nat)
    requires i < |History(o, quotes, symbol)|
    ensures var history := History(o, quotes, symbol);
      var last := history[|history| - 1];
      Objection(o, After(o, quotes).states, history[i]).None? <==>
        history[i].id !in Newest(IdsOf(history), o.dedupeWindow)
        && CompareOrdering(history[i], last).Newer? && Plausible(o, last.mid, history[i].mid)
  {
    hide After, History, Objection;
    HistoryIsTracked(o, quotes, symbol);
    HistoryIsOfSymbol(o, quotes, symbol);
    HistoryIsKnown(o, quotes, symbol);
    AcceptedExactlyWhen(o, After(o, quotes).states, History(o, quotes, symbol), History(o, quotes, symbol)[i]);
  }

  const MIXED := StreamOptions(500, 2, [])
  const QA := Quote("XAU", "a", Some(5), 1, 100)
  const QB := Quote("XAU", "b", None, 2, 100)
  const QC := Quote("XAU", "c", Some(3), 3, 100)

  lemma OfferAccepted(o: StreamOptions, quotes: seq<Quote>, q: Quote, history: seq<Quote>)
    requires History(o, quotes, q.symbol) == history && Objection(o, After(o, quotes).states, q).None?
    ensures History(o, quotes + [q], q.symbol) == history + [q]
    ensures After(o, quotes + [q]).states == Remembered(o, After(o, quotes).states, q)
  {
    hide Objection, Remembered;
    assert (quotes + [q])[..|quotes|] == quotes;
  }

  /** A feed that sometimes omits the sequence can go back in sequence, and accept a replay. */
  lemma MixedFeedAcceptsAReplay()
    ensures History(MIXED, [QA, QB, QC, QA], "XAU") == [QA, QB, QC, QA]
    ensures Rank(QC) < Rank(QA)
  {
    hide History, After, Objection, Remembered;
    MixedFeed();
    NextIsAccepted(After(MIXED, [QA, QB, QC]).states, QC, ["b", "c"], QA);
    OfferAccepted(MIXED, [QA, QB, QC], QA, [QA, QB, QC]);
    assert [QA, QB, QC] + [QA] == [QA, QB, QC, QA];
  }

  lemma MixedFeed()
    ensures History(MIXED, [QA, QB, QC], "XAU") == [QA, QB, QC]
    ensures "XAU" in After(MIXED, [QA, QB, QC]).states
    ensures After(MIXED, [QA, QB, QC]).states["XAU"] == SymbolState(QC, ["b", "c"])
  {
    NothingOffered(MIXED);
    hide History, After, Objection, Remembered;
    FirstIsAccepted(QA);
    OfferAccepted(MIXED, [], QA, []);
    assert [] + [QA] == [QA] && [QA] + [QB] == [QA, QB] && [QA, QB] + [QC] == [QA, QB, QC];
    NextIsAccepted(After(MIXED, [QA]).states, QA, ["a"], QB);
    OfferAccepted(MIXED, [QA], QB, [QA]);
    assert ["a"] + ["b"] == ["a", "b"] && ["a", "b"] + ["c"] == ["a", "b", "c"];
    NextIsAccepted(After(MIXED, [QA, QB]).states, QB, ["a", "b"], QC);
    OfferAccepted(MIXED, [QA, QB], QC, [QA, QB]);
  }

  lemma NothingOffered(o: StreamOptions)
    ensures History(o, [], "XAU") == [] && After(o, []) == EMPTY
  {
  }

  lemma FirstIsAccepted(q: Quote)
    ensures Objection(MIXED, map[], q).None?
    ensures q.symbol in Remembered(MIXED, map[], q)
    ensures Remembered(MIXED, map[], q)[q.symbol] == SymbolState(q, [q.id])
  {
    assert [] + [q.id] == [q.id];
  }

  lemma NextIsAccepted(states: map<string, SymbolState>, last: Quote, ids: seq<string>, q: Quote)
    requires q.symbol in states && states[q.symbol] == SymbolState(last, ids) && q.id !in ids
    requires CompareOrdering(q, last).Newer? && last.mid == q.mid == 100
    ensures Objection(MIXED, states, q).None?
    ensures q.symbol in Remembered(MIXED, states, q)
    ensures Remembered(MIXED, states, q)[q.symbol] == SymbolState(q, Newest(ids + [q.id], 2))
  {
  }

  // ----- Why a quote is turned away -----

  /** A move from a positive mid is plausible exactly when its whole basis points are within the limit: when the
      difference is less than limit + 1 of them. A move from zero never is. */
  lemma PlausibleExactlyWhen(o: StreamOptions, previous: int, next: int)
    requires previous >= 0
    ensures Plausible(o, previous, next) <==>
      previous > 0 && (if next > previous then next - previous else previous - next) * 10_000 < (o.maxMoveBps + 1) * previous
  {
    if previous > 0 {
      var scaled := Abs(next - previous) * BPS;
      QuotientWithin(scaled, previous, o.maxMoveBps);
    }
  }

  lemma QuotientWithin(n: nat, d: int, limit: int)
    requires d > 0
    ensures n / d <= limit <==> n < (limit + 1) * d
  {
    var q := n / d;
    assert q * d <= n < q * d + d;
    Scaled(q + 1, limit + 1, d);
    Scaled(limit + 1, q, d);
  }

  lemma Scaled(a: int, b: int, d: int)
    requires d > 0
    ensures a <= b ==> a * d <= b * d
  {
    if a <= b {
      assert (b - a) * d >= 0;
    }
  }

  /** The candidate's place against the last accepted quote: by sequence when both carry one, by time otherwise. */
  function Gap(candidate: Quote, last: Quote): int {
    if candidate.sequence.Some? && last.sequence.Some? then candidate.sequence.value - last.sequence.value
    else candidate.at - last.at
  }

  /** Over every run, exactly why an offer is turned away: its symbol is not subscribed; its id is among those of
      the last accepted quotes or it is level with the last one; it is behind it; or it moves too far from it. A
      symbol's first quote is always accepted. */
  lemma ReasonsAreExact(o: StreamOptions, quotes: seq<Quote>, q: Quote)
    ensures var objection := Objection(o, After(o, quotes).states, q);
      var history := History(o, quotes, q.symbol);
      var n := if o.dedupeWindow < 0 then 0 else if o.dedupeWindow < |history| then o.dedupeWindow else |history|;
      if o.knownSymbols != [] && q.symbol !in o.knownSymbols then objection == Some(UnknownSymbol)
      else if history == [] then objection == None
      else
        var last := history[|history| - 1];
        if (exists i :: |history| - n <= i < |history| && history[i].id == q.id) || Gap(q, last) == 0
        then objection == Some(Duplicate)
        else if Gap(q, last) < 0 then objection == Some(OutOfOrder)
        else if !Plausible(o, last.mid, q.mid) then objection == Some(ImplausibleMove)
        else objection == None
  {
    hide After, History;
    HistoryIsTracked(o, quotes, q.symbol);
    ReasonsAgainst(o, After(o, quotes).states, History(o, quotes, q.symbol), q);
  }

  lemma ReasonsAgainst(o: StreamOptions, states: map<string, SymbolState>, history: seq<Quote>, q: Quote)
    requires Tracks(o, states, q.symbol, history)
    ensures var objection := Objection(o, states, q);
      var n := if o.dedupeWindow < 0 then 0 else if o.dedupeWindow < |history| then o.dedupeWindow else |history|;
      if o.knownSymbols != [] && q.symbol !in o.knownSymbols then objection == Some(UnknownSymbol)
      else if history == [] then objection == None
      else
        var last := history[|history| - 1];
        if (exists i :: |history| - n <= i < |history| && history[i].id == q.id) || Gap(q, last) == 0
        then objection == Some(Duplicate)
        else if Gap(q, last) < 0 then objection == Some(OutOfOrder)
        else if !Plausible(o, last.mid, q.mid) then objection == Some(ImplausibleMove)
        else objection == None
  {
    if history != [] {
      RecentIs(history, o.dedupeWindow, q.id);
    }
    hide Newest, IdsOf, Plausible;
  }

  lemma RecentIs(history: seq<Quote>, window: int, id: string)
    ensures var n := if window < 0 then 0 else if window < |history| then window else |history|;
      id in Newest(IdsOf(history), window) <==> exists i :: |history| - n <= i < |history| && history[i].id == id
  {
    var ids := IdsOf(history);
    var n := if window < 0 then 0 else if window < |history| then window else |history|;
    NewestAre(ids, window);
    hide Newest, IdsOf;
    if id in Newest(ids, window) {
      var k :| 0 <= k < n && Newest(ids, window)[k] == id;
      assert history[|history| - n + k].id == id;
    }
    if i :| |history| - n <= i < |history| && history[i].id == id {
      assert Newest(ids, window)[i - (|history| - n)] == id;
    }
  }

  // ----- Counting -----

  const REASONS: set<Reason> := {InvalidSchema, Duplicate, OutOfOrder, ImplausibleMove, UnknownSymbol}

  function RejectedTotal(rejected: map<Reason, nat>): nat
    requires rejected.Keys == REASONS
  {
    rejected[InvalidSchema] + rejected[Duplicate] + rejected[OutOfOrder] + rejected[ImplausibleMove]
    + rejected[UnknownSymbol]
  }

  /** Every offer is counted once; a payload that failed validation never reaches the stream. */
  lemma {:induction false} EveryOfferIsCounted(o: StreamOptions, quotes: seq<Quote>)
    ensures var m := After(o, quotes);
      m.rejected.Keys == REASONS && m.accepted + RejectedTotal(m.rejected) == |quotes| && m.rejected[InvalidSchema] == 0
  {
    if quotes != [] {
      EveryOfferIsCounted(o, quotes[..|quotes| - 1]);
    }
  }

  /** How many of the offers were turned away for the reason. */
  function TurnedAway(o: StreamOptions, quotes: seq<Quote>, reason: Reason): nat {
    if quotes == [] then 0
    else
      var earlier, q := quotes[..|quotes| - 1], quotes[|quotes| - 1];
      TurnedAway(o, earlier, reason) + if Objection(o, After(o, earlier).states, q) == Some(reason) then 1 else 0
  }

  /** Each rejection is counted under its own reason, and an acceptance under none. */
  lemma {:induction false} RejectionsAreCountedByReason(o: StreamOptions, quotes: seq<Quote>, reason: Reason)
    ensures var rejected := After(o, quotes).rejected;
      reason in rejected && rejected[reason] == TurnedAway(o, quotes, reason)
  {
    if quotes != [] {
      hide Objection, Remembered;
      RejectionsAreCountedByReason(o, quotes[..|quotes| - 1], reason);
    }
  }

  // ----- Compounded plausibility -----

  function Pow(b: int, k: nat): int { if k == 0 then 1 else b * Pow(b, k - 1) }

  lemma PowIsPositive(b: int, k: nat)
    requires b >= 0
    ensures Pow(b, k) >= 0
  {
  }

  lemma QuotientAtMost(n: nat, d: nat, m: int)
    requires d > 0 && n / d <= m
    ensures n < (m + 1) * d
  {
    assert n < (n / d + 1) * d;
    assert (n / d + 1) * d <= (m + 1) * d;
  }

  /** One accepted move, despite the truncating division. */
  lemma PlausibleMove(o: StreamOptions, previous: int, next: int)
    requires previous > 0 && Plausible(o, previous, next)
    ensures previous * (9999 - o.maxMoveBps) <= next * BPS <= previous * (10001 + o.maxMoveBps)
  {
    QuotientAtMost(Abs(next - previous) * BPS, previous, o.maxMoveBps);
    assert Abs(next - previous) * BPS < previous * (o.maxMoveBps + 1);
    assert previous * (9999 - o.maxMoveBps) == previous * BPS - previous * (o.maxMoveBps + 1);
    assert previous * (10001 + o.maxMoveBps) == previous * BPS + previous * (o.maxMoveBps + 1);
  }

  lemma BelowCompounds(first: int, mid: int, next: int, low: int, p: int, q: int)
    requires first * p <= mid * q && mid * low <= next * BPS && low >= 0 && q >= 0
    ensures first * (low * p) <= next * (BPS * q)
  {
    assert first * (low * p) == low * (first * p) <= low * (mid * q) == (mid * low) * q;
    assert (mid * low) * q <= (next * BPS) * q;
  }

  lemma AboveCompounds(first: int, mid: int, next: int, high: int, p: int, q: int)
    requires mid * q <= first * p && next * BPS <= mid * high && high >= 0 && q >= 0
    ensures next * (BPS * q) <= first * (high * p)
  {
    assert (next * BPS) * q <= (mid * high) * q == high * (mid * q) <= high * (first * p);
  }

  /** After `k` further accepted quotes a positive mid has moved by at most the compounded limit. */
  lemma {:induction false} CompoundedMove(o: StreamOptions, history: seq<Quote>, k: nat)
    requires 0 <= o.maxMoveBps <= 9999 && Follows(o, history) && k < |history|
    requires forall q :: q in history ==> q.mid > 0
    ensures history[0].mid * Pow(9999 - o.maxMoveBps, k) <= history[k].mid * Pow(BPS, k)
    ensures history[k].mid * Pow(BPS, k) <= history[0].mid * Pow(10001 + o.maxMoveBps, k)
  {
    if k > 0 {
      CompoundedMove(o, history, k - 1);
      assert history[k - 1] in history;
      PlausibleMove(o, history[k - 1].mid, history[k].mid);
      PowIsPositive(BPS, k - 1);
      BelowCompounds(history[0].mid, history[k - 1].mid, history[k].mid, 9999 - o.maxMoveBps,
        Pow(9999 - o.maxMoveBps, k - 1), Pow(BPS, k - 1));
      AboveCompounds(history[0].mid, history[k - 1].mid, history[k].mid, 10001 + o.maxMoveBps,
        Pow(10001 + o.maxMoveBps, k - 1), Pow(BPS, k - 1));
    }
  }

  /** The bound over every run of offers with positive mids. */
  lemma MovesCompound(o: StreamOptions, quotes: seq<Quote>, symbol: string, k: nat)
    requires 0 <= o.maxMoveBps <= 9999 && k < |History(o, quotes, symbol)|
    requires forall q :: q in quotes ==> q.mid > 0
    ensures var history := History(o, quotes, symbol);
      history[0].mid * Pow(9999 - o.maxMoveBps, k) <= history[k].mid * Pow(BPS, k)
      <= history[0].mid * Pow(10001 + o.maxMoveBps, k)
  {
    HistoryIsTracked(o, quotes, symbol);
    HistoryIsOffered(o, quotes, symbol);
    CompoundedMove(o, History(o, quotes, symbol), k);
  }

  lemma {:induction false} HistoryIsOffered(o: StreamOptions, quotes: seq<Quote>, symbol: string)
    ensures forall q :: q in History(o, quotes, symbol) ==> q in quotes
  {
    if quotes != [] {
      HistoryIsOffered(o, quotes[..|quotes| - 1], symbol);
    }
  }
}
