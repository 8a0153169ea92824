/** One replica's lock object, cut at its awaits: what each continuation does to its own fields. */
module LeaderLocks {
  import opened Outcomes

  /** Which Redis call the running tick is waiting for. */
  datatype Await = Nothing | Renew | Acquire | Fence

  datatype Local = Local(running: bool, leads: bool, token: Option<nat>, tick: Await, releasing: bool)

  const FOLLOWER := Local(false, false, None, Nothing, false)

  function Lose(l: Local): Local { l.(leads := false, token := None) }

  function BeginTick(l: Local): Local { l.(tick := if l.leads then Renew else Acquire) }

  function OnReply(l: Local, reply: nat): Local {
    match l.tick
    case Nothing => l
    case Renew => (if reply == 1 then l else Lose(l)).(tick := Nothing)
    case Acquire => l.(tick := if reply == 1 then Fence else Nothing)
    case Fence => l.(leads := true, token := Some(reply), tick := Nothing)
  }

  function OnError(l: Local): Local { Lose(l).(tick := Nothing) }

  function BeginStop(l: Local): Local { l.(running := false, releasing := l.leads) }

  function EndStop(l: Local): Local { Lose(l).(releasing := false) }

  /** Every announcement differs from the one before it, and the first announces leadership. */
  ghost predicate Alternates(announced: seq<bool>) {
    forall k :: 0 <= k < |announced| ==> announced[k] == (k % 2 == 0)
  }

  class LeaderLock {
    var running: bool
    var isLeader: bool
    var fencingToken: Option<nat>
    var tick: Await
    var releasing: bool
    /** What the listeners have been told, in order. */
    var announced: seq<bool>

    function State(): Local
      reads this
    {
      Local(running, isLeader, fencingToken, tick, releasing)
    }

    ghost predicate Valid()
      reads this
    {
      && (isLeader <==> fencingToken.Some?)
      && Alternates(announced) && isLeader == (|announced| % 2 == 1)
      && (tick == Fence || tick == Acquire ==> !isLeader)
    }

    constructor ()
      ensures Valid() && State() == FOLLOWER && announced == []
    {
      running, isLeader, releasing := false, false, false;
      fencingToken, tick, announced := None, Nothing, [];
    }

    method SetLeadership(leads: bool)
      requires Alternates(announced) && isLeader == (|announced| % 2 == 1)
      modifies this`isLeader, this`fencingToken, this`announced
      ensures isLeader == leads
      ensures Alternates(announced) && isLeader == (|announced| % 2 == 1)
      ensures fencingToken == if leads || !old(isLeader) then old(fencingToken) else None
      ensures announced == if leads == old(isLeader) then old(announced) else old(announced) + [leads]
    {
      if isLeader == leads { return; }
      isLeader := leads;
      if !leads { fencingToken := None; }
      announced := announced + [leads];
    }

    /** `start()`, and every firing of the timer: one call goes out. */
    method Tick()
      requires Valid() && tick == Nothing
      modifies this`running, this`tick
      ensures Valid() && State() == BeginTick(old(State())).(running := true)
    {
      running := true;
      tick := if isLeader then Renew else Acquire;
    }

    /** A call of the tick came back. A token is held before leadership is announced. */
    method Reply(reply: nat)
      requires Valid() && tick != Nothing
      modifies this
      ensures Valid() && State() == OnReply(old(State()), reply)
      ensures old(tick) == Renew ==> isLeader == (old(isLeader) && reply == 1)
      ensures old(tick) == Renew && reply == 1 ==> fencingToken == old(fencingToken)
      ensures old(tick) == Fence ==> isLeader && fencingToken == Some(reply)
      ensures !isLeader ==> fencingToken == None
    {
      match tick {
        case Renew =>
          if reply != 1 { SetLeadership(false); }
          tick := Nothing;
        case Acquire =>
          tick := if reply == 1 then Fence else Nothing;
        case Fence =>
          fencingToken := Some(reply);
          SetLeadership(true);
          tick := Nothing;
      }
    }

    /** A call of the tick threw: a leader assumes it has lost. */
    method Error()
      requires Valid() && tick != Nothing
      modifies this
      ensures Valid() && State() == OnError(old(State()))
      ensures !isLeader && fencingToken == None
    {
      if isLeader { SetLeadership(false); }
      tick := Nothing;
    }

    method Stop()
      requires Valid() && running
      modifies this`running, this`releasing
      ensures Valid() && State() == BeginStop(old(State()))
    {
      running := false;
      releasing := isLeader;
    }

    /** The release answered, or failed: leadership is given up either way. */
    method Stopped()
      requires Valid() && releasing
      modifies this
      ensures Valid() && State() == EndStop(old(State()))
    {
      SetLeadership(false);
      releasing := false;
    }
  }
}

/**
 * The lease across replicas: one Redis key with an expiry, one counter, and calls that take time.
 *
 * Sending a call, running it on the server and receiving its reply are separate steps, and time may pass
 * between any two. A call whose caller has given up may still run, any number of times later on.
 */
module LeaderLease {
  import opened Outcomes
  import opened LeaderLocks

  datatype Call = Sent | Reply(n: nat)

  /** One acquisition, in server order, with the fencing token issued for it. */
  datatype Grant = Grant(replica: nat, at: nat, token: Option<nat>)

  datatype Node = Node(
    local: Local,
    call: Call,
    grant: nat,              // the acquisition its INCR is for
    since: Option<nat>,      // when the server last ran a successful acquire or renew of its
    releaseSent: bool,
    late: set<Await>)        // calls it gave up on that may still run

  const NEW := Node(FOLLOWER, Sent, 0, None, false, {})

  datatype State = State(
    now: nat,
    holder: Option<nat>,
    expires: nat,
    fence: nat,
    nodes: map<nat, Node>,
    grants: seq<Grant>,
    inOrder: bool)           // no INCR so far ran after one of a later acquisition

  datatype Step =
    | Advance(ms: nat)
    | Join(r: nat)
    | TickBegins(r: nat)
    | ServerRuns(r: nat)
    | ReplyArrives(r: nat)
    | CallFails(r: nat)
    | LateRuns(r: nat, kind: Await)
    | StopBegins(r: nat)
    | ReleaseRuns(r: nat)
    | StopEnds(r: nat)

  const INITIAL := State(0, None, 0, 0, map[], [], true)

  /** Redis answers GET with the token only until the expiry. */
  predicate Live(s: State) { s.holder.Some? && s.now < s.expires }

  predicate HeldBy(s: State, r: nat) { Live(s) && s.holder == Some(r) }

  function SetNx(s: State, r: nat, ttl: nat): State
    requires r in s.nodes
  {
    if Live(s) then s
    else s.(holder := Some(r), expires := s.now + ttl, grants := s.grants + [Grant(r, s.now, None)],
            nodes := s.nodes[r := s.nodes[r].(since := Some(s.now))])
  }

  function RenewScript(s: State, r: nat, ttl: nat): State
    requires r in s.nodes
  {
    if HeldBy(s, r) then s.(expires := s.now + ttl, nodes := s.nodes[r := s.nodes[r].(since := Some(s.now))]) else s
  }

  function ReleaseScript(s: State, r: nat): State {
    if HeldBy(s, r) then s.(holder := None) else s
  }

  function Incr(s: State): State { s.(fence := s.fence + 1) }

  function Called(s: State, r: nat, reply: nat): State
    requires r in s.nodes
  {
    s.(nodes := s.nodes[r := s.nodes[r].(call := Reply(reply))])
  }

  /** INCR on behalf of an acquisition: the token is recorded against it. */
  function IncrFor(s: State, g: nat): State
    requires g < |s.grants|
  {
    s.(fence := s.fence + 1,
       grants := s.grants[g := s.grants[g].(token := Some(s.fence + 1))],
       inOrder := s.inOrder && forall j :: g < j < |s.grants| ==> s.grants[j].token.None?)
  }

  predicate Enabled(s: State, step: Step) {
    match step
    case Advance(_) => true
    case Join(r) => r !in s.nodes
    case TickBegins(r) => r in s.nodes && s.nodes[r].local.running && s.nodes[r].local.tick == Nothing
    case ServerRuns(r) =>
      r in s.nodes && s.nodes[r].local.tick != Nothing && s.nodes[r].call == Sent
      && (s.nodes[r].local.tick == Fence ==> s.nodes[r].grant < |s.grants|)
    case ReplyArrives(r) => r in s.nodes && s.nodes[r].local.tick != Nothing && s.nodes[r].call.Reply?
    case CallFails(r) => r in s.nodes && s.nodes[r].local.tick != Nothing
    case LateRuns(r, kind) => r in s.nodes && kind in s.nodes[r].late
    case StopBegins(r) => r in s.nodes && s.nodes[r].local.running
    case ReleaseRuns(r) => r in s.nodes && s.nodes[r].releaseSent
    case StopEnds(r) => r in s.nodes && s.nodes[r].local.releasing
  }

  function Apply(s: State, step: Step, ttl: nat): State
    requires Enabled(s, step)
  {
    match step
    case Advance(ms) => s.(now := s.now + ms)
    case Join(r) => s.(nodes := s.nodes[r := NEW.(local := BeginTick(FOLLOWER).(running := true))])
    case TickBegins(r) => s.(nodes := s.nodes[r := s.nodes[r].(local := BeginTick(s.nodes[r].local), call := Sent)])
    case ServerRuns(r) => (
      match s.nodes[r].local.tick
      case Renew => Called(RenewScript(s, r, ttl), r, if HeldBy(s, r) then 1 else 0)
      case Acquire =>
        Called(SetNx(s, r, ttl).(nodes := SetNx(s, r, ttl).nodes[r := SetNx(s, r, ttl).nodes[r].(grant := |s.grants|)]),
               r, if Live(s) then 0 else 1)
      case Fence => Called(IncrFor(s, s.nodes[r].grant), r, s.fence + 1)
      case Nothing => s)
    case ReplyArrives(r) =>
      var node := s.nodes[r];
      s.(nodes := s.nodes[r := node.(local := OnReply(node.local, node.call.n), call := Sent)])
    case CallFails(r) =>
      var node := s.nodes[r];
      s.(nodes := s.nodes[r := node.(local := OnError(node.local), late := node.late + {node.local.tick})])
    case LateRuns(r, kind) => (
      match kind
      case Renew => RenewScript(s, r, ttl)
      case Acquire => SetNx(s, r, ttl)
      case Fence => Incr(s)
      case Nothing => s)
    case StopBegins(r) =>
      var node := s.nodes[r];
      s.(nodes := s.nodes[r := node.(local := BeginStop(node.local), releaseSent := node.releaseSent || node.local.leads)])
    case ReleaseRuns(r) => ReleaseScript(s, r)
    case StopEnds(r) => s.(nodes := s.nodes[r := s.nodes[r].(local := EndStop(s.nodes[r].local))])
  }

  function After(steps: seq<Step>, ttl: nat): Option<State> {
    if steps == [] then Some(INITIAL)
    else
      var n := |steps| - 1;
      match After(steps[..n], ttl)
      case None => None
      case Some(s) => if Enabled(s, steps[n]) then Some(Apply(s, steps[n], ttl)) else None
  }

  // ----- Mutual exclusion, in server time -----

  /** The replica was granted or renewed the lease less than a lease-length ago and has sent no release. */
  predicate Covered(s: State, r: nat, ttl: nat) {
    r in s.nodes && s.nodes[r].since.Some? && s.now < s.nodes[r].since.value + ttl && !s.nodes[r].releaseSent
  }

  /** It believes it leads, on a lease it was given less than a lease-length ago. */
  predicate Leads(s: State, r: nat, ttl: nat) { Covered(s, r, ttl) && s.nodes[r].local.leads }

  ghost predicate Exclusive(s: State, ttl: nat) {
    forall r :: Covered(s, r, ttl) ==> s.holder == Some(r) && s.expires == s.nodes[r].since.value + ttl
  }

  ghost predicate HoldsToken(l: Local) {
    && (l.leads <==> l.token.Some?)
    && (l.tick == Acquire || l.tick == Fence ==> !l.leads)
  }

  ghost predicate TokensHeld(s: State) {
    forall r :: r in s.nodes ==> HoldsToken(s.nodes[r].local)
  }

  /** No replica's cover grows, and the server's record stays, or the record was nobody's cover. */
  ghost predicate CoversNoMore(s: State, s': State, ttl: nat) {
    && (forall r :: Covered(s', r, ttl) ==> Covered(s, r, ttl) && s'.nodes[r].since == s.nodes[r].since)
    && (forall r :: Covered(s', r, ttl) ==> s'.holder == s.holder && s'.expires == s.expires)
  }

  lemma CoversNoMoreKeeps(s: State, s': State, ttl: nat)
    requires Exclusive(s, ttl) && CoversNoMore(s, s', ttl)
    ensures Exclusive(s', ttl)
  {
  }

  lemma SetNxKeepsExclusive(s: State, r: nat, ttl: nat)
    requires Exclusive(s, ttl) && r in s.nodes
    ensures Exclusive(SetNx(s, r, ttl), ttl)
  {
    var s' := SetNx(s, r, ttl);
    forall q | Covered(s', q, ttl)
      ensures s'.holder == Some(q) && s'.expires == s'.nodes[q].since.value + ttl
    {
      assert q == r || Covered(s, q, ttl);
    }
  }

  lemma RenewKeepsExclusive(s: State, r: nat, ttl: nat)
    requires Exclusive(s, ttl) && r in s.nodes
    ensures Exclusive(RenewScript(s, r, ttl), ttl)
  {
    var s' := RenewScript(s, r, ttl);
    forall q | Covered(s', q, ttl)
      ensures s'.holder == Some(q) && s'.expires == s'.nodes[q].since.value + ttl
    {
      assert q == r || Covered(s, q, ttl);
    }
  }

  /** Recording a reply, or which acquisition an INCR is for, covers nobody anew. */
  lemma RecordingKeepsExclusive(s: State, s': State, r: nat, ttl: nat)
    requires Exclusive(s, ttl) && r in s.nodes
    requires r in s'.nodes && s' == s.(nodes := s.nodes[r := s'.nodes[r]])
    requires s'.nodes[r].since == s.nodes[r].since && s'.nodes[r].releaseSent == s.nodes[r].releaseSent
    ensures Exclusive(s', ttl)
  {
    CoversNoMoreKeeps(s, s', ttl);
  }

  lemma ServerKeepsExclusive(s: State, r: nat, ttl: nat)
    requires Exclusive(s, ttl) && Enabled(s, ServerRuns(r))
    ensures Exclusive(Apply(s, ServerRuns(r), ttl), ttl)
  {
    hide Exclusive;
    var s' := Apply(s, ServerRuns(r), ttl);
    match s.nodes[r].local.tick
    case Renew =>
      RenewKeepsExclusive(s, r, ttl);
      RecordingKeepsExclusive(RenewScript(s, r, ttl), s', r, ttl);
    case Acquire =>
      SetNxKeepsExclusive(s, r, ttl);
      RecordingKeepsExclusive(SetNx(s, r, ttl), s', r, ttl);
    case Fence =>
      CoversNoMoreKeeps(s, s', ttl);
  }

  lemma StepKeepsExclusive(s: State, step: Step, ttl: nat)
    requires Exclusive(s, ttl) && Enabled(s, step)
    ensures Exclusive(Apply(s, step, ttl), ttl)
  {
    hide Exclusive;
    match step
    case ServerRuns(r) => ServerKeepsExclusive(s, r, ttl);
    case LateRuns(r, kind) =>
      SetNxKeepsExclusive(s, r, ttl);
      RenewKeepsExclusive(s, r, ttl);
      if kind == Fence { CoversNoMoreKeeps(s, Incr(s), ttl); }
    case ReleaseRuns(r) => ReleaseKeepsExclusive(s, r, ttl);
    case _ => CoversNoMoreKeeps(s, Apply(s, step, ttl), ttl);
  }

  lemma ReleaseKeepsExclusive(s: State, r: nat, ttl: nat)
    requires Exclusive(s, ttl) && r in s.nodes && s.nodes[r].releaseSent
    ensures Exclusive(ReleaseScript(s, r), ttl)
  {
    var s' := ReleaseScript(s, r);
    forall q | Covered(s', q, ttl)
      ensures s'.holder == Some(q) && s'.expires == s'.nodes[q].since.value + ttl
    {
      assert Covered(s, q, ttl);
    }
  }

  lemma StepKeepsTokens(s: State, step: Step, ttl: nat)
    requires TokensHeld(s) && Enabled(s, step)
    ensures TokensHeld(Apply(s, step, ttl))
  {
    var s' := Apply(s, step, ttl);
    forall r | r in s'.nodes
      ensures HoldsToken(s'.nodes[r].local)
    {
      if r in s.nodes {
        assert HoldsToken(s.nodes[r].local);
      }
    }
  }

  /** Over every run: two replicas never both lead on a lease that has not run out, and a replica that
      believes it leads always holds a fencing token. */
  lemma {:induction false} MutualExclusion(steps: seq<Step>, ttl: nat)
    requires After(steps, ttl).Some?
    ensures var s := After(steps, ttl).value;
      Exclusive(s, ttl) && TokensHeld(s)
      && forall r, q :: Leads(s, r, ttl) && Leads(s, q, ttl) ==> r == q
  {
    if steps != [] {
      var n := |steps| - 1;
      MutualExclusion(steps[..n], ttl);
      StepKeepsExclusive(After(steps[..n], ttl).value, steps[n], ttl);
      StepKeepsTokens(After(steps[..n], ttl).value, steps[n], ttl);
    }
  }

  function Actor(step: Step): Option<nat> {
    match step
    case Advance(_) => None
    case LateRuns(r, _) => Some(r)
    case Join(r) => Some(r)
    case TickBegins(r) => Some(r)
    case ServerRuns(r) => Some(r)
    case ReplyArrives(r) => Some(r)
    case CallFails(r) => Some(r)
    case StopBegins(r) => Some(r)
    case ReleaseRuns(r) => Some(r)
    case StopEnds(r) => Some(r)
  }

  /** No step of one replica, late calls and releases included, extends or deletes another's lease. */
  lemma OnlyTheHolderTouchesItsLease(s: State, step: Step, ttl: nat, h: nat)
    requires Enabled(s, step) && HeldBy(s, h) && Actor(step) != Some(h)
    ensures Apply(s, step, ttl).holder == Some(h) && Apply(s, step, ttl).expires == s.expires
  {
  }

  /** A lease that has lapsed can be taken while its last holder still believes it leads: the belief, not
      the lease, is what can be double. */
  lemma StalledLeaderOverlaps(ttl: nat) returns (steps: seq<Step>, s: State)
    ensures After(steps, ttl) == Some(s)
    ensures 0 in s.nodes && 1 in s.nodes && s.nodes[0].local.leads && s.nodes[1].local.leads
    ensures s.nodes[0].since.Some? && s.now >= s.nodes[0].since.value + ttl
  {
    steps, s := Acquired([], INITIAL, 0, ttl);
    steps, s := Issued(steps, s, 0, ttl);
    StepTaken(steps, Advance(ttl), s, ttl);
    steps, s := steps + [Advance(ttl)], Apply(s, Advance(ttl), ttl);
    steps, s := Acquired(steps, s, 1, ttl);
    steps, s := Issued(steps, s, 1, ttl);
  }

  lemma StepTaken(steps: seq<Step>, step: Step, s: State, ttl: nat)
    requires After(steps, ttl) == Some(s) && Enabled(s, step)
    ensures After(steps + [step], ttl) == Some(Apply(s, step, ttl))
  {
    assert (steps + [step])[..|steps|] == steps;
  }

  /** A new replica finds no live lease and takes it; its INCR is on the way. */
  lemma Acquired(before: seq<Step>, s0: State, r: nat, ttl: nat) returns (steps: seq<Step>, s: State)
    requires After(before, ttl) == Some(s0) && !Live(s0) && r !in s0.nodes
    ensures After(steps, ttl) == Some(s)
    ensures s == s0.(holder := Some(r), expires := s0.now + ttl, grants := s0.grants + [Grant(r, s0.now, None)],
      nodes := s0.nodes[r := Node(FOLLOWER.(running := true, tick := Fence), Sent, |s0.grants|, Some(s0.now), false, {})])
  {
    steps, s := before, s0;
    StepTaken(steps, Join(r), s, ttl);
    steps, s := steps + [Join(r)], Apply(s, Join(r), ttl);
    StepTaken(steps, ServerRuns(r), s, ttl);
    steps, s := steps + [ServerRuns(r)], Apply(s, ServerRuns(r), ttl);
    StepTaken(steps, ReplyArrives(r), s, ttl);
    steps, s := steps + [ReplyArrives(r)], Apply(s, ReplyArrives(r), ttl);
  }

  /** The INCR runs and its reply arrives: the replica leads, whatever happened meanwhile. */
  lemma Issued(before: seq<Step>, s0: State, r: nat, ttl: nat) returns (steps: seq<Step>, s: State)
    requires After(before, ttl) == Some(s0) && r in s0.nodes && s0.nodes[r].local.tick == Fence
    requires s0.nodes[r].call == Sent && s0.nodes[r].grant < |s0.grants|
    ensures After(steps, ttl) == Some(s)
    ensures r in s.nodes && s.fence == s0.fence + 1
    ensures s == s0.(fence := s.fence, inOrder := s.inOrder, nodes := s0.nodes[r := s.nodes[r]],
      grants := s0.grants[s0.nodes[r].grant := s0.grants[s0.nodes[r].grant].(token := Some(s.fence))])
    ensures s.nodes[r].local == s0.nodes[r].local.(leads := true, token := Some(s.fence), tick := Nothing)
    ensures s.nodes[r].since == s0.nodes[r].since
  {
    hide After, Live, SetNx, RenewScript, ReleaseScript;
    steps, s := before, s0;
    StepTaken(steps, ServerRuns(r), s, ttl);
    steps, s := steps + [ServerRuns(r)], Apply(s, ServerRuns(r), ttl);
    StepTaken(steps, ReplyArrives(r), s, ttl);
    steps, s := steps + [ReplyArrives(r)], Apply(s, ReplyArrives(r), ttl);
  }

  // ----- Fencing -----

  ghost predicate Ordered(grants: seq<Grant>) {
    forall i, j :: 0 <= i < j < |grants| && grants[i].token.Some? && grants[j].token.Some? ==>
      grants[i].token.value < grants[j].token.value
  }

  ghost predicate TokensDistinct(grants: seq<Grant>, fence: nat) {
    && (forall i :: 0 <= i < |grants| && grants[i].token.Some? ==> 0 < grants[i].token.value <= fence)
    && (forall i, j :: 0 <= i < j < |grants| && grants[i].token.Some? && grants[j].token.Some? ==>
          grants[i].token.value != grants[j].token.value)
  }

  /** A replica's own acquisition, and the token it was issued for it, if that has happened. */
  ghost predicate GrantOf(grants: seq<Grant>, r: nat, node: Node, token: Option<nat>) {
    node.grant < |grants| && grants[node.grant].replica == r && grants[node.grant].token == token
  }

  ghost predicate NodeFenced(grants: seq<Grant>, r: nat, node: Node) {
    && (node.local.leads ==> GrantOf(grants, r, node, node.local.token))
    && (node.local.tick == Acquire && node.call == Reply(1) ==> GrantOf(grants, r, node, None))
    && (node.local.tick == Fence ==> GrantOf(grants, r, node, if node.call.Sent? then None else Some(node.call.n)))
  }

  ghost predicate Fenced(s: State) {
    TokensDistinct(s.grants, s.fence) && (s.inOrder <==> Ordered(s.grants))
    && TokensHeld(s) && forall r :: r in s.nodes ==> NodeFenced(s.grants, r, s.nodes[r])
  }

  lemma GrantKeeps(s: State, r: nat)
    requires Fenced(s)
    ensures TokensDistinct(s.grants + [Grant(r, s.now, None)], s.fence)
    ensures Ordered(s.grants + [Grant(r, s.now, None)]) == Ordered(s.grants)
    ensures forall q :: q in s.nodes ==> NodeFenced(s.grants + [Grant(r, s.now, None)], q, s.nodes[q])
  {
    var grants := s.grants + [Grant(r, s.now, None)];
    assert forall i :: 0 <= i < |s.grants| ==> grants[i] == s.grants[i];
    if Ordered(grants) {
      forall i, j | 0 <= i < j < |s.grants| && s.grants[i].token.Some? && s.grants[j].token.Some?
        ensures s.grants[i].token.value < s.grants[j].token.value
      {
        assert grants[i] == s.grants[i] && grants[j] == s.grants[j];
      }
    }
  }

  /** Issuing a token keeps the order exactly when no later acquisition already holds one. */
  lemma IncrKeepsOrderExactlyWhen(grants: seq<Grant>, fence: nat, g: nat)
    requires TokensDistinct(grants, fence) && g < |grants| && grants[g].token.None?
    ensures var grants' := grants[g := grants[g].(token := Some(fence + 1))];
      TokensDistinct(grants', fence + 1)
      && Ordered(grants') == (Ordered(grants) && forall j :: g < j < |grants| ==> grants[j].token.None?)
  {
    var grants' := grants[g := grants[g].(token := Some(fence + 1))];
    if Ordered(grants') {
      forall j | g < j < |grants|
        ensures grants[j].token.None?
      {
        assert grants'[j] == grants[j] && grants'[g].token.value == fence + 1;
      }
      forall i, j | 0 <= i < j < |grants| && grants[i].token.Some? && grants[j].token.Some?
        ensures grants[i].token.value < grants[j].token.value
      {
        assert grants'[i] == grants[i] && grants'[j] == grants[j];
      }
    }
  }

  lemma IncrKeepsNodes(s: State, r: nat)
    requires Fenced(s) && Enabled(s, ServerRuns(r)) && s.nodes[r].local.tick == Fence
    ensures var s' := Called(IncrFor(s, s.nodes[r].grant), r, s.fence + 1);
      forall q :: q in s'.nodes ==> NodeFenced(s'.grants, q, s'.nodes[q])
  {
    var s' := Called(IncrFor(s, s.nodes[r].grant), r, s.fence + 1);
    assert NodeFenced(s.grants, r, s.nodes[r]);
    assert s.grants[s.nodes[r].grant].replica == r;
    forall q | q in s'.nodes
      ensures NodeFenced(s'.grants, q, s'.nodes[q])
    {
      assert NodeFenced(s.grants, q, s.nodes[q]);
      if q == r {
        assert !s.nodes[r].local.leads;
        assert GrantOf(s'.grants, r, s'.nodes[r], Some(s.fence + 1));
      } else {
        OtherGrantsUntouched(s.grants, s.nodes[r].grant, s.fence, q, s.nodes[q]);
      }
    }
  }

  lemma OtherGrantsUntouched(grants: seq<Grant>, g: nat, fence: nat, q: nat, node: Node)
    requires g < |grants| && grants[g].replica != q && NodeFenced(grants, q, node)
    ensures NodeFenced(grants[g := grants[g].(token := Some(fence + 1))], q, node)
  {
  }

  lemma AcquireKeepsFenced(s: State, r: nat, ttl: nat)
    requires Fenced(s) && r in s.nodes
    ensures Fenced(SetNx(s, r, ttl))
    ensures s.nodes[r].local.tick == Acquire && s.nodes[r].call == Sent ==>
      Fenced(Apply(s, ServerRuns(r), ttl))
  {
    hide Ordered, TokensDistinct;
    GrantKeeps(s, r);
    assert Fenced(SetNx(s, r, ttl));
    if s.nodes[r].local.tick == Acquire && s.nodes[r].call == Sent {
      var s' := Apply(s, ServerRuns(r), ttl);
      assert !s.nodes[r].local.leads;
      assert NodeFenced(s'.grants, r, s'.nodes[r]);
    }
  }

  lemma StepKeepsFenced(s: State, step: Step, ttl: nat)
    requires Fenced(s) && Enabled(s, step)
    ensures Fenced(Apply(s, step, ttl))
  {
    hide Ordered, TokensDistinct;
    StepKeepsTokens(s, step, ttl);
    match step {
      case ServerRuns(r) => ServerKeepsFenced(s, r, ttl);
      case LateRuns(r, kind) =>
        if kind == Acquire { AcquireKeepsFenced(s, r, ttl); }
        if kind == Fence { SkippedToken(s); }
      case _ =>
    }
  }

  lemma ServerKeepsFenced(s: State, r: nat, ttl: nat)
    requires Fenced(s) && Enabled(s, ServerRuns(r))
    ensures Fenced(Apply(s, ServerRuns(r), ttl))
  {
    hide Ordered, TokensDistinct;
    StepKeepsTokens(s, ServerRuns(r), ttl);
    match s.nodes[r].local.tick
    case Fence =>
      IncrKeepsOrderExactlyWhen(s.grants, s.fence, s.nodes[r].grant);
      IncrKeepsNodes(s, r);
    case Acquire => AcquireKeepsFenced(s, r, ttl);
    case _ =>
  }

  lemma SkippedToken(s: State)
    requires Fenced(s)
    ensures Fenced(Incr(s))
  {
  }

  /** Over every run: tokens are distinct, a leader holds the token issued for its own acquisition, and
      token order is acquisition order exactly when no INCR ran after that of a later acquisition. */
  lemma {:induction false} FencingTokens(steps: seq<Step>, ttl: nat)
    requires After(steps, ttl).Some?
    ensures var s := After(steps, ttl).value;
      TokensDistinct(s.grants, s.fence)
      && (s.inOrder <==> Ordered(s.grants))
      && (forall r :: r in s.nodes && s.nodes[r].local.leads ==>
            s.nodes[r].grant < |s.grants| && s.grants[s.nodes[r].grant].replica == r && s.grants[s.nodes[r].grant].token == s.nodes[r].local.token)
      && Fenced(s)
  {
    if steps != [] {
      var n := |steps| - 1;
      FencingTokens(steps[..n], ttl);
      StepKeepsFenced(After(steps[..n], ttl).value, steps[n], ttl);
    }
  }

  /** An INCR that runs after its lease has lapsed can be overtaken: the older acquisition gets the higher
      token. */
  lemma LateIncrBreaksOrder(ttl: nat) returns (steps: seq<Step>, s: State)
    ensures After(steps, ttl) == Some(s) && !Ordered(s.grants)
    ensures |s.grants| == 2 && s.grants[0].token == Some(2) && s.grants[1].token == Some(1)
  {
    steps, s := Acquired([], INITIAL, 0, ttl);
    StepTaken(steps, Advance(ttl), s, ttl);
    steps, s := steps + [Advance(ttl)], Apply(s, Advance(ttl), ttl);
    steps, s := Acquired(steps, s, 1, ttl);
    steps, s := Issued(steps, s, 1, ttl);
    steps, s := Issued(steps, s, 0, ttl);
    assert s.grants[0].token.value == 2 && s.grants[1].token.value == 1;
  }

  /** Given up, or past the end of the lease the acquisition was first granted. */
  predicate Over(s: State, g: Grant, ttl: nat)
    requires g.replica in s.nodes
  {
    s.nodes[g.replica].releaseSent || s.now >= g.at + ttl
  }

  ghost predicate LeasesInTurn(s: State, ttl: nat) {
    && s.expires <= s.now + ttl
    && (forall g :: g in s.grants ==> g.replica in s.nodes && g.at <= s.now)
    && (forall i :: 0 <= i < |s.grants| - 1 ==> Over(s, s.grants[i], ttl))
    && (s.grants != [] ==>
          var last := s.grants[|s.grants| - 1];
          Over(s, last, ttl) || (s.holder == Some(last.replica) && s.expires >= last.at + ttl))
  }

  /** Time passes, tokens are issued, releases are sent, and the current lease is held on to or given up. */
  ghost predicate Outlasts(s: State, s': State, ttl: nat) {
    && s'.now >= s.now && |s'.grants| == |s.grants| && s'.expires <= s'.now + ttl
    && (forall i :: 0 <= i < |s.grants| ==>
          s'.grants[i].replica == s.grants[i].replica && s'.grants[i].at == s.grants[i].at)
    && (forall r :: r in s.nodes ==> r in s'.nodes && (s.nodes[r].releaseSent ==> s'.nodes[r].releaseSent))
    && ((s'.holder == s.holder && s'.expires >= s.expires)
        || (s.holder.Some? && s.holder.value in s.nodes && s.nodes[s.holder.value].releaseSent))
  }

  lemma OverLasts(s: State, s': State, i: nat, ttl: nat)
    requires Outlasts(s, s', ttl) && i < |s.grants| && s.grants[i].replica in s.nodes
    ensures s'.grants[i].replica in s'.nodes && (Over(s, s.grants[i], ttl) ==> Over(s', s'.grants[i], ttl))
  {
  }

  lemma LastTurnOutlasts(s: State, s': State, ttl: nat)
    requires LeasesInTurn(s, ttl) && Outlasts(s, s', ttl) && s.grants != []
    ensures var last := s'.grants[|s'.grants| - 1];
      last.replica in s'.nodes
      && (Over(s', last, ttl) || (s'.holder == Some(last.replica) && s'.expires >= last.at + ttl))
  {
    var n := |s.grants| - 1;
    assert s.grants[n] in s.grants;
    OverLasts(s, s', n, ttl);
  }

  lemma TurnsOutlast(s: State, s': State, ttl: nat)
    requires LeasesInTurn(s, ttl) && Outlasts(s, s', ttl)
    ensures LeasesInTurn(s', ttl)
  {
    hide Over;
    forall i | 0 <= i < |s'.grants|
      ensures s'.grants[i].replica in s'.nodes && s'.grants[i].at <= s'.now
      ensures i < |s'.grants| - 1 ==> Over(s', s'.grants[i], ttl)
    {
      assert s.grants[i] in s.grants;
      OverLasts(s, s', i, ttl);
    }
    if s.grants != [] {
      LastTurnOutlasts(s, s', ttl);
    }
  }

  lemma StepOutlasts(s: State, step: Step, ttl: nat)
    requires s.expires <= s.now + ttl && Enabled(s, step)
    requires step.ServerRuns? ==> s.nodes[step.r].local.tick != Acquire
    requires step.LateRuns? ==> step.kind != Acquire
    ensures Outlasts(s, Apply(s, step, ttl), ttl)
  {
  }

  lemma SetNxKeepsTurns(s: State, r: nat, ttl: nat)
    requires LeasesInTurn(s, ttl) && r in s.nodes
    ensures LeasesInTurn(SetNx(s, r, ttl), ttl)
  {
    if !Live(s) {
      var s' := SetNx(s, r, ttl);
      forall i | 0 <= i < |s'.grants| - 1
        ensures Over(s', s'.grants[i], ttl)
      {
        assert s.grants[i] in s.grants && Over(s, s.grants[i], ttl);
      }
    }
  }

  lemma AcquireKeepsTurns(s: State, r: nat, ttl: nat)
    requires LeasesInTurn(s, ttl) && Enabled(s, ServerRuns(r)) && s.nodes[r].local.tick == Acquire
    ensures LeasesInTurn(Apply(s, ServerRuns(r), ttl), ttl)
  {
    SetNxKeepsTurns(s, r, ttl);
    TurnsOutlast(SetNx(s, r, ttl), Apply(s, ServerRuns(r), ttl), ttl);
  }

  lemma StepKeepsTurns(s: State, step: Step, ttl: nat)
    requires LeasesInTurn(s, ttl) && Enabled(s, step)
    ensures LeasesInTurn(Apply(s, step, ttl), ttl)
  {
    if step.ServerRuns? && s.nodes[step.r].local.tick == Acquire {
      AcquireKeepsTurns(s, step.r, ttl);
    } else if step.LateRuns? && step.kind == Acquire {
      SetNxKeepsTurns(s, step.r, ttl);
    } else {
      hide Apply;
      StepOutlasts(s, step, ttl);
      TurnsOutlast(s, Apply(s, step, ttl), ttl);
    }
  }

  /** The step runs no INCR, or runs it while the lease it was sent for has not lapsed. */
  ghost predicate OnTime(s: State, step: Step, ttl: nat) {
    step.ServerRuns? && step.r in s.nodes && s.nodes[step.r].local.tick == Fence && s.nodes[step.r].grant < |s.grants| ==>
      !s.nodes[step.r].releaseSent && s.now < s.grants[s.nodes[step.r].grant].at + ttl
  }

  /** If every INCR runs before the lease it was sent for lapses, tokens increase with acquisitions. */
  lemma {:induction false} PromptIncrsAreOrdered(steps: seq<Step>, ttl: nat)
    requires After(steps, ttl).Some?
    requires forall k :: 0 <= k < |steps| && After(steps[..k], ttl).Some? ==>
      OnTime(After(steps[..k], ttl).value, steps[k], ttl)
    ensures var s := After(steps, ttl).value; LeasesInTurn(s, ttl) && s.inOrder && Ordered(s.grants)
  {
    hide Apply, Fenced, Ordered, OnTime;
    FencingTokens(steps, ttl);
    if steps == [] {
      assert LeasesInTurn(INITIAL, ttl);
    } else {
      var n := |steps| - 1;
      forall k | 0 <= k < n && After(steps[..n][..k], ttl).Some?
        ensures OnTime(After(steps[..n][..k], ttl).value, steps[..n][k], ttl)
      {
        assert steps[..n][..k] == steps[..k];
      }
      PromptIncrsAreOrdered(steps[..n], ttl);
      FencingTokens(steps[..n], ttl);
      var s := After(steps[..n], ttl).value;
      StepKeepsTurns(s, steps[n], ttl);
      OnTimeKeepsOrder(s, steps[n], ttl);
    }
  }

  lemma OnTimeKeepsOrder(s: State, step: Step, ttl: nat)
    requires LeasesInTurn(s, ttl) && Fenced(s) && s.inOrder && Enabled(s, step) && OnTime(s, step, ttl)
    ensures Apply(s, step, ttl).inOrder
  {
    if step.ServerRuns? && s.nodes[step.r].local.tick == Fence {
      assert NodeFenced(s.grants, step.r, s.nodes[step.r]);
      CurrentGrantIsLast(s, s.nodes[step.r].grant, ttl);
    }
  }

  lemma CurrentGrantIsLast(s: State, g: nat, ttl: nat)
    requires LeasesInTurn(s, ttl) && g < |s.grants| && s.grants[g].replica in s.nodes && !Over(s, s.grants[g], ttl)
    ensures g == |s.grants| - 1
  {
  }

  // ----- When belief begins and ends -----

  /** The token a replica last heard it was issued, unless it has since heard of a refused renewal, seen a call
      fail, or finished stopping. */
  function Heard(steps: seq<Step>, r: nat, ttl: nat): Option<nat> {
    if steps == [] then None
    else
      var n := |steps| - 1;
      var earlier := Heard(steps[..n], r, ttl);
      match After(steps[..n], ttl)
      case None => None
      case Some(s) =>
        if steps[n] == CallFails(r) || steps[n] == StopEnds(r) then None
        else if steps[n] == ReplyArrives(r) && r in s.nodes && s.nodes[r].call.Reply? then
          if s.nodes[r].local.tick == Fence then Some(s.nodes[r].call.n)
          else if s.nodes[r].local.tick == Renew && s.nodes[r].call.n != 1 then None
          else earlier
        else earlier
  }

  lemma NodesGrow(s: State, step: Step, ttl: nat)
    requires Enabled(s, step)
    ensures s.nodes.Keys <= Apply(s, step, ttl).nodes.Keys
  {
  }

  lemma {:induction false} JoinsFresh(steps: seq<Step>, r: nat, ttl: nat)
    requires After(steps, ttl).Some? && r !in After(steps, ttl).value.nodes
    ensures Heard(steps, r, ttl) == None
  {
    if steps != [] {
      hide Apply;
      var n := |steps| - 1;
      NodesGrow(After(steps[..n], ttl).value, steps[n], ttl);
      JoinsFresh(steps[..n], r, ttl);
    }
  }

  /** The steps that can change what a replica believes. */
  predicate Tells(step: Step, r: nat) { step == ReplyArrives(r) || step == CallFails(r) || step == StopEnds(r) }

  lemma OtherStepsTellNothing(s: State, step: Step, r: nat, ttl: nat)
    requires Enabled(s, step) && !Tells(step, r) && r in Apply(s, step, ttl).nodes
    ensures var l := Apply(s, step, ttl).nodes[r].local;
      if r in s.nodes then l.token == s.nodes[r].local.token && l.leads == s.nodes[r].local.leads
      else l.token == None && !l.leads
  {
  }

  /** What a reply, a failure or the end of a stop makes a replica believe: a refused renewal and any failure
      end its leadership, a granted renewal leaves it as it was, and an INCR's reply begins it. */
  lemma TellingSteps(s: State, step: Step, r: nat, ttl: nat)
    requires Enabled(s, step) && Tells(step, r)
    ensures r in s.nodes && r in Apply(s, step, ttl).nodes
    ensures var l := Apply(s, step, ttl).nodes[r].local;
      if step != ReplyArrives(r) then l.token == None && !l.leads
      else match s.nodes[r].local.tick
        case Fence => l.token == Some(s.nodes[r].call.n) && l.leads
        case Renew =>
          if s.nodes[r].call.n == 1 then l.token == s.nodes[r].local.token && l.leads == s.nodes[r].local.leads
          else l.token == None && !l.leads
        case _ => l.token == s.nodes[r].local.token && l.leads == s.nodes[r].local.leads
  {
    hide RenewScript, ReleaseScript, SetNx, HeldBy;
  }

  /** Over every run: a replica leads, and on which token, exactly as its replies say. It has heard its token,
      and since then nothing but renewals that were granted. */
  lemma {:induction false} BeliefIsWhatWasHeard(steps: seq<Step>, r: nat, ttl: nat)
    requires After(steps, ttl).Some? && r in After(steps, ttl).value.nodes
    ensures var l := After(steps, ttl).value.nodes[r].local;
      l.token == Heard(steps, r, ttl) && (l.leads <==> Heard(steps, r, ttl).Some?)
  {
    if steps != [] {
      hide Apply;
      var n := |steps| - 1;
      var s := After(steps[..n], ttl).value;
      MutualExclusion(steps[..n], ttl);
      MutualExclusion(steps, ttl);
      assert HoldsToken(After(steps, ttl).value.nodes[r].local);
      if Tells(steps[n], r) {
        TellingSteps(s, steps[n], r, ttl);
      } else {
        OtherStepsTellNothing(s, steps[n], r, ttl);
      }
      if r in s.nodes {
        BeliefIsWhatWasHeard(steps[..n], r, ttl);
      } else {
        JoinsFresh(steps[..n], r, ttl);
      }
    }
  }

  /** What the server does for each call it runs: an acquire takes a free lease for a full length and no other,
      a renewal lengthens its caller's live lease to a full length and no other, and the reply says which. */
  lemma ServerAnswers(s: State, r: nat, ttl: nat)
    requires Enabled(s, ServerRuns(r))
    ensures var t := Apply(s, ServerRuns(r), ttl);
      var free := s.holder == None || s.now >= s.expires;
      var mine := s.holder == Some(r) && s.now < s.expires;
      r in t.nodes
      && match s.nodes[r].local.tick
         case Acquire =>
           t.nodes[r].call == Reply(if free then 1 else 0)
           && (if free then t.holder == Some(r) && t.expires == s.now + ttl
               else t.holder == s.holder && t.expires == s.expires)
         case Renew =>
           t.nodes[r].call == Reply(if mine then 1 else 0)
           && t.holder == s.holder && t.expires == if mine then s.now + ttl else s.expires
         case Fence => t.nodes[r].call == Reply(s.fence + 1) && t.fence == s.fence + 1 && t.holder == s.holder
         case Nothing => false
  {
  }

  /** A release frees the lease at once if it is its sender's, and touches no other. */
  lemma ReleaseFrees(s: State, r: nat, ttl: nat)
    requires Enabled(s, ReleaseRuns(r))
    ensures var t := Apply(s, ReleaseRuns(r), ttl);
      if s.holder == Some(r) && s.now < s.expires then t.holder == None
      else t.holder == s.holder && t.expires == s.expires
  {
  }

  /** From any moment of any run: a leader holding its lease that stops can send its release, and once that runs
      and answers, it leads no more and the lease is free for the next replica, before its time. */
  lemma StoppingFreesTheLease(before: seq<Step>, s0: State, r: nat, ttl: nat) returns (steps: seq<Step>, s: State)
    requires After(before, ttl) == Some(s0) && Enabled(s0, StopBegins(r)) && s0.nodes[r].local.leads && HeldBy(s0, r)
    ensures After(steps, ttl) == Some(s) && s.now == s0.now && s.holder == None
    ensures r in s.nodes && !s.nodes[r].local.leads && !s.nodes[r].local.running && !s.nodes[r].local.releasing
  {
    StepTaken(before, StopBegins(r), s0, ttl);
    steps, s := before + [StopBegins(r)], Apply(s0, StopBegins(r), ttl);
    StepTaken(steps, ReleaseRuns(r), s, ttl);
    steps, s := steps + [ReleaseRuns(r)], Apply(s, ReleaseRuns(r), ttl);
    StepTaken(steps, StopEnds(r), s, ttl);
    steps, s := steps + [StopEnds(r)], Apply(s, StopEnds(r), ttl);
  }

  /** Only a leader that stops sends a release. */
  lemma OnlyStoppingLeadersRelease(s: State, step: Step, r: nat, ttl: nat)
    requires Enabled(s, step) && r in s.nodes
    ensures r in Apply(s, step, ttl).nodes
    ensures Apply(s, step, ttl).nodes[r].releaseSent <==>
      s.nodes[r].releaseSent || (step == StopBegins(r) && s.nodes[r].local.leads)
  {
  }

  /** Any call under way can fail, and any replica campaigning can stop, at any moment. */
  lemma AnythingMayFail(s: State, r: nat, ms: nat)
    ensures r in s.nodes && s.nodes[r].local.tick != Nothing ==> Enabled(s, CallFails(r))
    ensures r in s.nodes && s.nodes[r].local.running ==> Enabled(s, StopBegins(r))
    ensures r in s.nodes && s.nodes[r].releaseSent ==> Enabled(s, ReleaseRuns(r))
    ensures Enabled(s, Advance(ms))
  {
  }

  /** A call given up on can still run, and run again. */
  lemma FailedCallsMayRunLate(s: State, r: nat, ttl: nat)
    requires Enabled(s, CallFails(r))
    ensures var t := Apply(s, CallFails(r), ttl);
      Enabled(t, LateRuns(r, s.nodes[r].local.tick))
      && forall kind :: Enabled(s, LateRuns(r, kind)) ==> Enabled(t, LateRuns(r, kind))
  {
  }

  lemma LateCallsStay(s: State, r: nat, kind: Await, ttl: nat)
    requires Enabled(s, LateRuns(r, kind))
    ensures Enabled(Apply(s, LateRuns(r, kind), ttl), LateRuns(r, kind))
  {
  }

  /** An acquire that was given up on and runs late takes the lease for a replica that does not know it: nobody
      leads, and nobody else can acquire until it lapses. */
  lemma ALateAcquireLeadsNobody(ttl: nat) returns (steps: seq<Step>, s: State)
    requires ttl > 0
    ensures After(steps, ttl) == Some(s) && s.nodes.Keys == {0} && HeldBy(s, 0) && !s.nodes[0].local.leads
    ensures s.nodes[0].local.tick == Nothing
  {
    steps, s := [], INITIAL;
    StepTaken(steps, Join(0), s, ttl);
    steps, s := steps + [Join(0)], Apply(s, Join(0), ttl);
    StepTaken(steps, CallFails(0), s, ttl);
    steps, s := steps + [CallFails(0)], Apply(s, CallFails(0), ttl);
    StepTaken(steps, LateRuns(0, Acquire), s, ttl);
    steps, s := steps + [LateRuns(0, Acquire)], Apply(s, LateRuns(0, Acquire), ttl);
  }

  /** The steps in which no time passes beyond the current lease before a renewal of it runs. */
  ghost predicate RenewedInTime(steps: seq<Step>, from: nat, ttl: nat) {
    forall k :: from <= k < |steps| && steps[k].Advance? && After(steps[..k], ttl).Some? ==>
      After(steps[..k], ttl).value.now + steps[k].ms < After(steps[..k], ttl).value.expires
  }

  lemma HeldStep(s: State, step: Step, r: nat, ttl: nat)
    requires Enabled(s, step) && r in s.nodes && HeldBy(s, r) && ttl > 0
    requires step.Advance? ==> s.now + step.ms < s.expires
    ensures var t := Apply(s, step, ttl);
      r in t.nodes && (s.nodes[r].releaseSent ==> t.nodes[r].releaseSent)
      && (!t.nodes[r].releaseSent ==> HeldBy(t, r))
  {
  }

  lemma NodesStay(s: State, step: Step, r: nat, ttl: nat)
    requires Enabled(s, step) && r in s.nodes
    ensures r in Apply(s, step, ttl).nodes
    ensures s.nodes[r].releaseSent ==> Apply(s, step, ttl).nodes[r].releaseSent
  {
  }

  /** The holder of a live lease keeps it while it is renewed in time and it sends no release. */
  lemma {:induction false} PromptRenewalsKeepTheLease(before: seq<Step>, steps: seq<Step>, r: nat, ttl: nat)
    requires Extends(steps, before) && After(steps, ttl).Some? && RenewedInTime(steps, |before|, ttl) && ttl > 0
    requires After(before, ttl).Some? && r in After(before, ttl).value.nodes && HeldBy(After(before, ttl).value, r)
    ensures var s := After(steps, ttl).value;
      r in s.nodes && (!s.nodes[r].releaseSent ==> HeldBy(s, r))
  {
    hide Apply, HeldBy, Enabled;
    if |steps| == |before| {
      assert steps == before;
    } else {
      var n := |steps| - 1;
      assert steps[..n][..|before|] == before;
      assert RenewedInTime(steps[..n], |before|, ttl) by {
        assert forall k :: 0 <= k < n ==> steps[..n][..k] == steps[..k] && steps[..n][k] == steps[k];
      }
      var s := After(steps[..n], ttl).value;
      PromptRenewalsKeepTheLease(before, steps[..n], r, ttl);
      NodesStay(s, steps[n], r, ttl);
      if HeldBy(s, r) {
        HeldStep(s, steps[n], r, ttl);
      }
    }
  }

  // ----- Stopping -----

  /** An acquisition is on its way: sent, granted, or waiting for its token. */
  predicate Acquiring(node: Node) {
    node.local.tick == Fence || (node.local.tick == Acquire && (node.call == Sent || node.call == Reply(1)))
  }

  /** Stopped, with no release under way, and still set as the leader. */
  predicate StuckLeader(s: State, r: nat) {
    r in s.nodes && !s.nodes[r].local.running && !s.nodes[r].local.releasing && s.nodes[r].local.leads
  }

  predicate Extends(steps: seq<Step>, before: seq<Step>) {
    |before| <= |steps| && steps[..|before|] == before
  }

  /** Stopped with nothing on the way that could set leadership. */
  predicate Settling(s: State, r: nat) {
    r in s.nodes && !Acquiring(s.nodes[r])
    && !s.nodes[r].local.running && (s.nodes[r].local.leads ==> s.nodes[r].local.releasing)
  }

  lemma StepKeepsSettling(s: State, step: Step, r: nat, ttl: nat)
    requires Settling(s, r) && Enabled(s, step)
    ensures Settling(Apply(s, step, ttl), r)
  {
  }

  lemma {:induction false} StaysSettled(before: seq<Step>, steps: seq<Step>, r: nat, ttl: nat)
    requires Extends(steps, before) && After(steps, ttl).Some?
    requires After(before, ttl).Some? && Settling(After(before, ttl).value, r)
    ensures Settling(After(steps, ttl).value, r)
  {
    hide Settling, Apply;
    if |steps| == |before| {
      assert steps == before;
    } else {
      var n := |steps| - 1;
      assert steps[..n][..|before|] == before;
      StaysSettled(before, steps[..n], r, ttl);
      StepKeepsSettling(After(steps[..n], ttl).value, steps[n], r, ttl);
    }
  }

  lemma ExtendsOnce(steps: seq<Step>, before: seq<Step>, step: Step)
    requires Extends(steps, before)
    ensures Extends(steps + [step], before)
  {
    assert (steps + [step])[..|before|] == steps[..|before|];
  }

  /** A sent acquire is granted once the lease is free. */
  lemma GetsGrant(before: seq<Step>, s0: State, r: nat, ttl: nat) returns (steps: seq<Step>, s: State)
    requires After(before, ttl) == Some(s0) && r in s0.nodes
    requires s0.nodes[r].local.tick == Acquire && s0.nodes[r].call == Sent
    ensures After(steps, ttl) == Some(s) && Extends(steps, before)
    ensures r in s.nodes && s.nodes[r].local == s0.nodes[r].local.(tick := Fence)
    ensures s.nodes[r].call == Sent && s.nodes[r].grant < |s.grants|
  {
    steps, s := before, s0;
    if Live(s) {
      var wait := Advance(s.expires - s.now);
      StepTaken(steps, wait, s, ttl);
      ExtendsOnce(steps, before, wait);
      steps, s := steps + [wait], Apply(s, wait, ttl);
    }
    StepTaken(steps, ServerRuns(r), s, ttl);
    ExtendsOnce(steps, before, ServerRuns(r));
    steps, s := steps + [ServerRuns(r)], Apply(s, ServerRuns(r), ttl);
    StepTaken(steps, ReplyArrives(r), s, ttl);
    ExtendsOnce(steps, before, ReplyArrives(r));
    steps, s := steps + [ReplyArrives(r)], Apply(s, ReplyArrives(r), ttl);
  }

  /** A stopped replica whose acquisition is on its way can still come to lead. */
  lemma ComesToLead(before: seq<Step>, s0: State, r: nat, ttl: nat) returns (steps: seq<Step>, s: State)
    requires After(before, ttl) == Some(s0) && r in s0.nodes && NodeFenced(s0.grants, r, s0.nodes[r])
    requires Acquiring(s0.nodes[r]) && !s0.nodes[r].local.running && !s0.nodes[r].local.releasing
    ensures After(steps, ttl) == Some(s) && Extends(steps, before) && StuckLeader(s, r)
  {
    steps, s := before, s0;
    if s.nodes[r].local.tick == Acquire {
      if s.nodes[r].call == Sent {
        steps, s := GetsGrant(steps, s, r, ttl);
      } else {
        StepTaken(steps, ReplyArrives(r), s, ttl);
        ExtendsOnce(steps, before, ReplyArrives(r));
        steps, s := steps + [ReplyArrives(r)], Apply(s, ReplyArrives(r), ttl);
      }
    }
    if s.nodes[r].call == Sent {
      StepTaken(steps, ServerRuns(r), s, ttl);
      ExtendsOnce(steps, before, ServerRuns(r));
      steps, s := steps + [ServerRuns(r)], Apply(s, ServerRuns(r), ttl);
    }
    StepTaken(steps, ReplyArrives(r), s, ttl);
    ExtendsOnce(steps, before, ReplyArrives(r));
    steps, s := steps + [ReplyArrives(r)], Apply(s, ReplyArrives(r), ttl);
  }

  /** However the run goes on, the replica is never left a stopped leader. */
  ghost predicate NeverStuck(before: seq<Step>, r: nat, ttl: nat) {
    forall steps :: Extends(steps, before) && After(steps, ttl).Some? ==> !StuckLeader(After(steps, ttl).value, r)
  }

  /** After any run, a `stop` is followed by no moment at which the stopped lock still leads without releasing,
      however the run goes on, exactly when no acquisition was on its way when it began: the tick then waits
      for nothing, for a renewal, or for an acquire the server has already refused. */
  lemma StopClearsLeadershipExactlyWhen(before: seq<Step>, r: nat, ttl: nat)
    requires After(before, ttl).Some? && Enabled(After(before, ttl).value, StopBegins(r))
    ensures NeverStuck(before + [StopBegins(r)], r, ttl) <==> !Acquiring(After(before, ttl).value.nodes[r])
  {
    var s, stopped := After(before, ttl).value, before + [StopBegins(r)];
    FencingTokens(before, ttl);
    StepTaken(before, StopBegins(r), s, ttl);
    var s' := Apply(s, StopBegins(r), ttl);
    if Acquiring(s.nodes[r]) {
      assert HoldsToken(s.nodes[r].local) && NodeFenced(s.grants, r, s.nodes[r]);
      var steps, t := ComesToLead(stopped, s', r, ttl);
    } else {
      forall steps | Extends(steps, stopped) && After(steps, ttl).Some?
        ensures !StuckLeader(After(steps, ttl).value, r)
      {
        StaysSettled(stopped, steps, r, ttl);
      }
    }
  }

  /** Stopping while an acquire is under way leaves leadership set on a lock that no longer renews. */
  lemma StopCanLeaveLeadershipSet(ttl: nat) returns (steps: seq<Step>, s: State)
    ensures After(steps, ttl) == Some(s)
    ensures 0 in s.nodes && !s.nodes[0].local.running && !s.nodes[0].local.releasing && s.nodes[0].local.leads
  {
    steps, s := Acquired([], INITIAL, 0, ttl);
    StepTaken(steps, StopBegins(0), s, ttl);
    steps, s := steps + [StopBegins(0)], Apply(s, StopBegins(0), ttl);
    steps, s := Issued(steps, s, 0, ttl);
  }
}
