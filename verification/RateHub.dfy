/**
 * Per-replica fan-out of tenant rate events.
 *
 * Attaching awaits a subscription, so calls interleave: a channel can be torn down or the hub closed while
 * an attach is waiting. Each stretch of code between two awaits is one step.
 */
module RateHub {
  import opened Outcomes
  import opened NatSets

  datatype Context = PlatformAdmin | TenantContext(tenantId: string)

  datatype RateEvent = RateEvent(tenantId: string, productKey: string, paise: string)

  datatype Message = Malformed | NotAnObject | Event(event: RateEvent)

  function LowerChar(c: char): char { if 'A' <= c <= 'Z' then c + ' ' else c }

  function Lower(s: string): string { seq(|s|, i requires 0 <= i < |s| => LowerChar(s[i])) }

  predicate Authorized(context: Context, requested: string) {
    context.TenantContext? && requested != "" && Lower(context.tenantId) == Lower(requested)
  }

  /** What `channel_for` accepts. */
  predicate IsUuidShaped(s: string) {
    |s| == 36 && forall i :: 0 <= i < |s| ==> '0' <= s[i] <= '9' || 'a' <= LowerChar(s[i]) <= 'f' || s[i] == '-'
  }

  datatype Status = Pending | Ready | Failed

  /** A channel object: its listeners in the order they were added. */
  datatype Channel = Channel(tenant: string, listeners: seq<nat>, status: Status)

  /** An attach waiting for its channel's subscription. */
  datatype Attach = Attach(context: Context, tenant: string, listener: nat, channel: nat)

  datatype Handle = Handle(tenant: string, listener: nat, detached: bool)

  datatype Delivery = Delivery(listener: nat, event: RateEvent)

  /** Who attached what, once authorised. */
  datatype Grant = Grant(listener: nat, context: Context, tenant: string)

  /** The hub: every channel object ever made, the current one of each tenant, the count, the channels whose
      handler Redis calls, the waiting attaches and the handles given out; then the run's history. */
  datatype State = State(
    objects: map<nat, Channel>,
    channels: map<string, nat>,
    total: int,
    subscribed: set<nat>,
    waiting: map<nat, Attach>,
    handles: map<nat, Handle>,
    granted: set<Grant>,
    received: seq<Delivery>)

  const INITIAL := State(map[], map[], 0, {}, map[], map[], {}, [])

  datatype Step =
    | BeginAttach(call: nat, context: Context, tenant: string, listener: nat, newId: nat)
    | Subscribed(channel: nat, ok: bool)
    | FinishAttach(call: nat)
    | Detach(call: nat)
    | Unsubscribed(gone: set<nat>)
    | Close
    | Receive(channelName: string, message: Message)

  function Begin(s: State, call: nat, context: Context, tenant: string, listener: nat, newId: nat, max: int): State {
    if !Authorized(context, tenant) || s.total >= max then s
    else
      var granted := s.granted + {Grant(listener, context, tenant)};
      if tenant in s.channels then
        s.(waiting := s.waiting[call := Attach(context, tenant, listener, s.channels[tenant])], granted := granted)
      else
        s.(objects := s.objects[newId := Channel(tenant, [], Pending)],
           channels := s.channels[tenant := newId],
           waiting := s.waiting[call := Attach(context, tenant, listener, newId)],
           granted := granted)
  }

  function Settled(s: State, channel: nat, ok: bool): State
    requires channel in s.objects
  {
    var c := s.objects[channel];
    if ok then s.(objects := s.objects[channel := c.(status := Ready)], subscribed := s.subscribed + {channel})
    else s.(objects := s.objects[channel := c.(status := Failed)], channels := s.channels - {c.tenant})
  }

  function Added(listeners: seq<nat>, l: nat): seq<nat> { if l in listeners then listeners else listeners + [l] }

  function Without(listeners: seq<nat>, l: nat): seq<nat> {
    if listeners == [] then []
    else (if listeners[0] == l then [] else [listeners[0]]) + Without(listeners[1..], l)
  }

  function Finish(s: State, call: nat): State
    requires call in s.waiting && s.waiting[call].channel in s.objects
  {
    var a := s.waiting[call];
    var c := s.objects[a.channel];
    var t := s.(waiting := s.waiting - {call});
    if c.status.Failed? then t
    else
      t.(objects := s.objects[a.channel := c.(listeners := Added(c.listeners, a.listener))],
         total := s.total + 1,
         handles := s.handles[call := Handle(a.tenant, a.listener, false)])
  }

  function DetachOne(s: State, call: nat): State
    requires call in s.handles && forall t :: t in s.channels ==> s.channels[t] in s.objects
  {
    var h := s.handles[call];
    if h.detached then s
    else
      var t := s.(handles := s.handles[call := h.(detached := true)]);
      if h.tenant !in s.channels then t
      else
        var id := s.channels[h.tenant];
        var c := s.objects[id];
        var left := Without(c.listeners, h.listener);
        t.(objects := s.objects[id := c.(listeners := left)],
           total := if h.listener in c.listeners then s.total - 1 else s.total,
           channels := if left == [] then s.channels - {h.tenant} else s.channels)
  }

  function CloseAll(s: State): State {
    s.(objects := map id | id in s.objects ::
         if id in s.channels.Values then s.objects[id].(listeners := []) else s.objects[id],
       channels := map[], total := 0)
  }

  function DeliverTo(listeners: seq<nat>, e: RateEvent): seq<Delivery> {
    seq(|listeners|, i requires 0 <= i < |listeners| => Delivery(listeners[i], e))
  }

  /** The message handler of one channel object. */
  function Handled(c: Channel, channelName: string, message: Message): seq<Delivery> {
    if c.tenant == channelName && message.Event? && message.event.tenantId == c.tenant
    then DeliverTo(c.listeners, message.event) else []
  }

  /** Redis calls the handlers of the channel one after another. */
  function HandledByAll(objects: map<nat, Channel>, ids: set<nat>, channelName: string,
      message: Message): seq<Delivery>
    requires ids <= objects.Keys
  {
    if ids == {} then []
    else
      var id := Min(ids);
      Handled(objects[id], channelName, message) + HandledByAll(objects, ids - {id}, channelName, message)
  }

  predicate Enabled(s: State, step: Step) {
    match step
    case BeginAttach(call, _, _, _, newId) => call !in s.waiting && call !in s.handles && newId !in s.objects
    case Subscribed(channel, ok) =>
      channel in s.objects && s.objects[channel].status.Pending? && (ok ==> IsUuidShaped(s.objects[channel].tenant))
    case FinishAttach(call) =>
      call in s.waiting && s.waiting[call].channel in s.objects && !s.objects[s.waiting[call].channel].status.Pending?
    case Detach(call) => call in s.handles && forall t :: t in s.channels ==> s.channels[t] in s.objects
    case Unsubscribed(_) => true
    case Close => true
    case Receive(_, _) => s.subscribed <= s.objects.Keys
  }

  function Apply(s: State, step: Step, max: int): State
    requires Enabled(s, step)
  {
    match step
    case BeginAttach(call, context, tenant, listener, newId) => Begin(s, call, context, tenant, listener, newId, max)
    case Subscribed(channel, ok) => Settled(s, channel, ok)
    case FinishAttach(call) => Finish(s, call)
    case Detach(call) => DetachOne(s, call)
    case Unsubscribed(gone) => s.(subscribed := s.subscribed - gone)
    case Close => CloseAll(s)
    case Receive(name, message) => s.(received := s.received + HandledByAll(s.objects, s.subscribed, name, message))
  }

  function After(steps: seq<Step>, max: int): Option<State> {
    if steps == [] then Some(INITIAL)
    else
      var n := |steps| - 1;
      match After(steps[..n], max)
      case None => None
      case Some(s) => if Enabled(s, steps[n]) then Some(Apply(s, steps[n], max)) else None
  }

  // ----- Isolation, under any interleaving -----

  /** The listener attached under this tenant id, in a context that owns the tenant. */
  ghost predicate Entitled(granted: set<Grant>, listener: nat, tenant: string) {
    exists g :: g in granted && g.listener == listener && g.tenant == tenant && Authorized(g.context, tenant)
  }

  ghost predicate ChannelEntitled(granted: set<Grant>, c: Channel) {
    forall l :: l in c.listeners ==> Entitled(granted, l, c.tenant)
  }

  ghost predicate AttachEntitled(objects: map<nat, Channel>, granted: set<Grant>, a: Attach) {
    Entitled(granted, a.listener, a.tenant) && a.channel in objects && objects[a.channel].tenant == a.tenant
  }

  ghost predicate Isolated(s: State) {
    && (forall id :: id in s.objects ==> ChannelEntitled(s.granted, s.objects[id]))
    && (forall call :: call in s.waiting ==> AttachEntitled(s.objects, s.granted, s.waiting[call]))
    && (forall d :: d in s.received ==> Entitled(s.granted, d.listener, d.event.tenantId))
    && (forall t :: t in s.channels ==> s.channels[t] in s.objects && s.objects[s.channels[t]].tenant == t)
    && s.subscribed <= s.objects.Keys
  }

  lemma WithoutIsFewer(listeners: seq<nat>, l: nat)
    ensures forall x :: x in Without(listeners, l) <==> x in listeners && x != l
  {
  }

  /** Granting more and keeping each channel's tenant keeps entitlement. */
  lemma EntitledGrows(granted: set<Grant>, granted': set<Grant>, l: nat, tenant: string)
    requires Entitled(granted, l, tenant) && granted <= granted'
    ensures Entitled(granted', l, tenant)
  {
  }

  /** Granting more, letting an attach in and perhaps making it an empty channel keep what was entitled. */
  lemma LetInKeepsIsolated(s: State, s': State)
    requires Isolated(s)
    requires forall l, t :: Entitled(s.granted, l, t) ==> Entitled(s'.granted, l, t)
    requires forall id :: id in s.objects ==> id in s'.objects && s'.objects[id] == s.objects[id]
    requires forall id :: id in s'.objects && id !in s.objects ==> s'.objects[id].listeners == []
    requires forall c :: c in s'.waiting ==>
      (c in s.waiting && s'.waiting[c] == s.waiting[c]) || AttachEntitled(s'.objects, s'.granted, s'.waiting[c])
    requires forall t :: t in s'.channels ==> s'.channels[t] in s'.objects && s'.objects[s'.channels[t]].tenant == t
    requires s'.received == s.received && s'.subscribed == s.subscribed
    ensures Isolated(s')
  {
    hide Entitled;
    forall id | id in s'.objects
      ensures ChannelEntitled(s'.granted, s'.objects[id])
    {
      assert id in s.objects ==> ChannelEntitled(s.granted, s.objects[id]);
    }
    forall c | c in s'.waiting
      ensures AttachEntitled(s'.objects, s'.granted, s'.waiting[c])
    {
      assert c in s.waiting ==> AttachEntitled(s.objects, s.granted, s.waiting[c]);
    }
  }

  lemma BeginKeepsIsolated(s: State, call: nat, context: Context, tenant: string, listener: nat, newId: nat, max: int)
    requires Isolated(s) && newId !in s.objects
    ensures Isolated(Begin(s, call, context, tenant, listener, newId, max))
  {
    var s' := Begin(s, call, context, tenant, listener, newId, max);
    hide Authorized;
    if s' != s {
      var g := Grant(listener, context, tenant);
      assert g in s'.granted && Authorized(context, tenant);
      assert Entitled(s'.granted, listener, tenant);
      forall l, t | Entitled(s.granted, l, t)
        ensures Entitled(s'.granted, l, t)
      {
        EntitledGrows(s.granted, s'.granted, l, t);
      }
      hide Entitled, ChannelEntitled;
      LetInKeepsIsolated(s, s');
    }
  }

  lemma HandledIsEntitled(granted: set<Grant>, c: Channel, name: string, message: Message)
    requires ChannelEntitled(granted, c)
    ensures forall d :: d in Handled(c, name, message) ==> Entitled(granted, d.listener, d.event.tenantId)
  {
  }

  lemma {:induction false} AllHandledAreEntitled(s: State, ids: set<nat>, name: string, message: Message)
    requires Isolated(s) && ids <= s.objects.Keys
    ensures forall d :: d in HandledByAll(s.objects, ids, name, message) ==>
      Entitled(s.granted, d.listener, d.event.tenantId)
  {
    hide Handled, Entitled;
    if ids != {} {
      var id := Min(ids);
      HandledIsEntitled(s.granted, s.objects[id], name, message);
      AllHandledAreEntitled(s, ids - {id}, name, message);
    }
  }

  lemma DetachKeepsIsolated(s: State, call: nat)
    requires Isolated(s) && call in s.handles
    ensures Isolated(DetachOne(s, call))
  {
    hide Entitled, Without;
    var h := s.handles[call];
    if h.tenant in s.channels {
      WithoutIsFewer(s.objects[s.channels[h.tenant]].listeners, h.listener);
    }
  }

  lemma SettledKeepsIsolated(s: State, id: nat, ok: bool)
    requires Isolated(s) && id in s.objects
    ensures Isolated(Settled(s, id, ok))
  {
    hide Entitled;
  }

  lemma FinishKeepsIsolated(s: State, call: nat)
    requires Isolated(s) && call in s.waiting && s.waiting[call].channel in s.objects
    ensures Isolated(Finish(s, call))
  {
    hide Entitled;
    assert AttachEntitled(s.objects, s.granted, s.waiting[call]);
  }

  lemma CloseKeepsIsolated(s: State)
    requires Isolated(s)
    ensures Isolated(CloseAll(s))
  {
    hide Entitled;
  }

  lemma StepKeepsIsolated(s: State, step: Step, max: int)
    requires Isolated(s) && Enabled(s, step)
    ensures Isolated(Apply(s, step, max))
  {
    hide Entitled, HandledByAll, Begin, Settled, Finish, DetachOne, CloseAll, ChannelEntitled, AttachEntitled;
    match step
    case BeginAttach(call, context, tenant, listener, newId) =>
      BeginKeepsIsolated(s, call, context, tenant, listener, newId, max);
    case Subscribed(id, ok) => SettledKeepsIsolated(s, id, ok);
    case FinishAttach(call) => FinishKeepsIsolated(s, call);
    case Detach(call) => DetachKeepsIsolated(s, call);
    case Close => CloseKeepsIsolated(s);
    case Receive(name, message) => AllHandledAreEntitled(s, s.subscribed, name, message);
    case Unsubscribed(_) =>
  }

  lemma {:induction false} RunIsIsolated(steps: seq<Step>, max: int)
    requires After(steps, max).Some?
    ensures Isolated(After(steps, max).value)
  {
    if steps != [] {
      hide Isolated, Apply;
      var n := |steps| - 1;
      RunIsIsolated(steps[..n], max);
      StepKeepsIsolated(After(steps[..n], max).value, steps[n], max);
    }
  }

  /** Under any interleaving of attaches, subscriptions, detaches, closes and messages, even misrouted ones:
      whatever a listener receives carries a tenant id it attached under, in a context that owns that tenant. */
  lemma ListenersHearOnlyTheirTenant(steps: seq<Step>, max: int, d: Delivery)
    requires After(steps, max).Some? && d in After(steps, max).value.received
    ensures exists g ::
      g in After(steps, max).value.granted && g.listener == d.listener && g.tenant == d.event.tenantId
      && g.context.TenantContext? && Lower(g.context.tenantId) == Lower(d.event.tenantId)
  {
    RunIsIsolated(steps, max);
    var s := After(steps, max).value;
    assert Entitled(s.granted, d.listener, d.event.tenantId);
  }

  // ----- What each call does -----

  /** The two characters are the same, or one ASCII letter in different case. */
  predicate SameLetter(c: char, d: char) {
    c == d || ('a' <= c <= 'z' && d as int == c as int - 32) || ('a' <= d <= 'z' && c as int == d as int - 32)
  }

  lemma LowerIsSame(c: char, d: char)
    ensures LowerChar(c) == LowerChar(d) <==> SameLetter(c, d)
  {
  }

  /** A tenant's context owns a requested id exactly when they are the same text up to case; a platform
      administrator's owns none. */
  lemma AuthorizedExactlyWhen(context: Context, requested: string)
    ensures Authorized(context, requested) <==>
      context.TenantContext? && requested != "" && |context.tenantId| == |requested|
      && forall i :: 0 <= i < |requested| ==> SameLetter(context.tenantId[i], requested[i])
  {
    if context.TenantContext? {
      var id := context.tenantId;
      forall i | 0 <= i < |id| && i < |requested|
        ensures LowerChar(id[i]) == LowerChar(requested[i]) <==> SameLetter(id[i], requested[i])
      {
        LowerIsSame(id[i], requested[i]);
      }
      hide LowerChar, SameLetter;
      if Lower(id) == Lower(requested) {
        assert |Lower(id)| == |id| && |Lower(requested)| == |requested|;
        forall i | 0 <= i < |requested|
          ensures SameLetter(id[i], requested[i])
        {
          assert Lower(id)[i] == Lower(requested)[i];
        }
      }
    }
  }

  /** A call is let in exactly when it is authorised and the count is below the limit; it then waits on its tenant's
      channel, a new one with no listeners if there was none. Otherwise nothing changes. */
  lemma BeginOutcome(s: State, step: Step, max: int)
    requires Enabled(s, step) && step.BeginAttach?
    ensures var s' := Apply(s, step, max);
      if Authorized(step.context, step.tenant) && s.total < max then
        step.call in s'.waiting && s'.waiting[step.call].tenant == step.tenant
        && s'.waiting[step.call].listener == step.listener
        && step.tenant in s'.channels && s'.waiting[step.call].channel == s'.channels[step.tenant]
        && (step.tenant in s.channels ==> s'.channels == s.channels && s'.objects == s.objects)
        && (step.tenant !in s.channels ==>
              s'.channels[step.tenant] in s'.objects
              && s'.objects[s'.channels[step.tenant]] == Channel(step.tenant, [], Pending))
      else s' == s
  {
    hide Authorized;
  }

  /** A subscription that stands makes its channel ready and its handler called; one that fails takes the tenant's
      channel away. */
  lemma SettledOutcome(s: State, id: nat, ok: bool, max: int)
    requires Enabled(s, Subscribed(id, ok))
    ensures var s' := Apply(s, Subscribed(id, ok), max);
      var c := s.objects[id];
      s'.waiting == s.waiting && s'.total == s.total && s'.objects.Keys == s.objects.Keys
      && s'.objects[id] == c.(status := if ok then Ready else Failed)
      && (forall i :: i in s.objects && i != id ==> s'.objects[i] == s.objects[i])
      && (if ok then id in s'.subscribed && s'.channels == s.channels
          else s'.subscribed == s.subscribed && s'.channels == s.channels - {c.tenant})
  {
  }

  /** A channel whose handler was removed hears nothing more, and the others all they did. */
  lemma UnsubscribeSilences(s: State, gone: set<nat>, max: int)
    ensures forall id :: id in Apply(s, Unsubscribed(gone), max).subscribed <==> id in s.subscribed && id !in gone
  {
  }

  const HEX := "0123456789abcdefABCDEF"

  lemma HexAt(k: int)
    requires 0 <= k < 22
    ensures HEX[k] == if k < 10 then '0' + k as char else if k < 16 then 'a' + (k - 10) as char else 'A' + (k - 16) as char
  {
  }

  lemma HexDigits(c: char)
    ensures c in HEX <==> '0' <= c <= '9' || 'a' <= c <= 'f' || 'A' <= c <= 'F'
  {
    if '0' <= c <= '9' {
      HexAt(c as int - '0' as int);
    } else if 'a' <= c <= 'f' {
      HexAt(10 + c as int - 'a' as int);
    } else if 'A' <= c <= 'F' {
      HexAt(16 + c as int - 'A' as int);
    }
    forall k | 0 <= k < 22
      ensures '0' <= HEX[k] <= '9' || 'a' <= HEX[k] <= 'f' || 'A' <= HEX[k] <= 'F'
    {
      HexAt(k);
    }
  }

  /** A tenant has a channel exactly when its id is 36 hexadecimal digits, in either case, or hyphens. */
  lemma ChannelExactlyFor(tenant: string)
    ensures IsUuidShaped(tenant) <==> |tenant| == 36 && forall i :: 0 <= i < |tenant| ==> tenant[i] in HEX || tenant[i] == '-'
  {
    forall i | 0 <= i < |tenant|
      ensures tenant[i] in HEX <==> '0' <= tenant[i] <= '9' || 'a' <= LowerChar(tenant[i]) <= 'f'
    {
      HexDigits(tenant[i]);
    }
  }

  /** A listener whose channel subscribed is on it from then on, and can detach. */
  lemma FinishOutcome(s: State, call: nat, max: int)
    requires Enabled(s, FinishAttach(call))
    ensures var s' := Apply(s, FinishAttach(call), max);
      var a := s.waiting[call];
      call !in s'.waiting
      && if s.objects[a.channel].status.Failed? then s'.objects == s.objects && s'.total == s.total
         else
           s'.total == s.total + 1 && call in s'.handles && s'.handles[call] == Handle(a.tenant, a.listener, false)
           && (forall l :: l in s'.objects[a.channel].listeners <==> l in s.objects[a.channel].listeners || l == a.listener)
  {
  }

  /** After its first detach a listener is on no current channel of its tenant, and no other listener has moved. */
  lemma DetachRemoves(s: State, call: nat, max: int)
    requires Isolated(s) && Enabled(s, Detach(call)) && !s.handles[call].detached
    ensures Isolated(Apply(s, Detach(call), max))
    ensures var s' := Apply(s, Detach(call), max);
      var h := s.handles[call];
      s'.handles == s.handles[call := h.(detached := true)]
      && forall t, l :: (t, l) in Attached(s') <==> (t, l) in Attached(s) && (t, l) != (h.tenant, h.listener)
  {
    StepKeepsIsolated(s, Detach(call), max);
    var h, s' := s.handles[call], DetachOne(s, call);
    if h.tenant in s.channels {
      assert Removed(s, s', h.tenant, h.listener);
      forall t, l: nat
        ensures (t, l) in Attached(s') <==> (t, l) in Attached(s) && (t, l) != (h.tenant, h.listener)
      {
        StillAttached(s, s', h.tenant, h.listener, t, l);
      }
    }
  }

  /** Detaching again does nothing. */
  lemma DetachIsOnce(s: State, call: nat, max: int)
    requires Enabled(s, Detach(call)) && s.handles[call].detached
    ensures Apply(s, Detach(call), max) == s
  {
  }

  /** Closing leaves no channel, no count, and nobody listening on what were the channels. */
  lemma CloseEmpties(s: State, max: int)
    ensures var s' := Apply(s, Close, max);
      s'.channels == map[] && s'.total == 0 && s'.objects.Keys == s.objects.Keys
      && forall t :: t in s.channels && s.channels[t] in s.objects ==> s'.objects[s.channels[t]].listeners == []
  {
  }

  lemma {:induction false} AllHandled(objects: map<nat, Channel>, ids: set<nat>, name: string, message: Message)
    requires ids <= objects.Keys
    ensures forall d :: d in HandledByAll(objects, ids, name, message) <==>
      exists id :: id in ids && d in Handled(objects[id], name, message)
  {
    hide Handled;
    if ids != {} {
      var least := Min(ids);
      AllHandled(objects, ids - {least}, name, message);
      assert forall id :: id in ids <==> id == least || id in ids - {least};
    }
  }

  lemma HandledExactly(c: Channel, name: string, e: RateEvent, d: Delivery)
    ensures d in Handled(c, name, Event(e)) <==>
      c.tenant == name && e.tenantId == name && d.event == e && d.listener in c.listeners
  {
    if c.tenant == name && e.tenantId == name && d.event == e && d.listener in c.listeners {
      var i :| 0 <= i < |c.listeners| && c.listeners[i] == d.listener;
      assert DeliverTo(c.listeners, e)[i] == d;
    }
  }

  /** An event reaches every listener of every subscribed channel of its own tenant, and nobody else. */
  lemma EventsReachEveryListener(s: State, name: string, e: RateEvent, max: int)
    requires Enabled(s, Receive(name, Event(e)))
    ensures var s' := Apply(s, Receive(name, Event(e)), max);
      |s'.received| >= |s.received| && s'.received[..|s.received|] == s.received
      && forall d :: d in s'.received[|s.received|..] <==>
           d.event == e && e.tenantId == name
           && exists id :: id in s.subscribed && s.objects[id].tenant == name && d.listener in s.objects[id].listeners
  {
    AllHandled(s.objects, s.subscribed, name, Event(e));
    var news := HandledByAll(s.objects, s.subscribed, name, Event(e));
    var s' := Apply(s, Receive(name, Event(e)), max);
    assert s'.received[|s.received|..] == news;
    hide Handled, HandledByAll;
    forall d
      ensures d in news <==>
        d.event == e && e.tenantId == name
        && exists id :: id in s.subscribed && s.objects[id].tenant == name && d.listener in s.objects[id].listeners
    {
      forall id | id in s.subscribed
        ensures d in Handled(s.objects[id], name, Event(e)) <==>
          s.objects[id].tenant == name && e.tenantId == name && d.event == e && d.listener in s.objects[id].listeners
      {
        HandledExactly(s.objects[id], name, e, d);
      }
    }
  }

  /** A subscription can fail, a viewer leave, the hub close and any message come in at any moment of a run. */
  lemma AnythingMayHappen(s: State, id: nat, call: nat, name: string, message: Message)
    requires Isolated(s)
    ensures id in s.objects && s.objects[id].status.Pending? ==> Enabled(s, Subscribed(id, false))
    ensures call in s.handles ==> Enabled(s, Detach(call))
    ensures Enabled(s, Close) && Enabled(s, Receive(name, message))
  {
  }

  // ----- The count -----

  /** Tenant and listener of every listener of a current channel. */
  function Attached(s: State): set<(string, nat)>
    requires forall t :: t in s.channels ==> s.channels[t] in s.objects
  {
    set t, l | t in s.channels && l in s.objects[s.channels[t]].listeners :: (t, l)
  }

  /** The channel is its tenant's current one. */
  predicate IsCurrent(s: State, id: nat) {
    id in s.objects && s.objects[id].tenant in s.channels && s.channels[s.objects[id].tenant] == id
  }

  /** A listener is counted that its hub does not show, or shown listeners are lost without being counted off:
      an attach finishes on a channel no longer current, or a listener attaches twice to one channel, or a
      subscription fails whose tenant has another channel by now, with listeners on it. */
  predicate Drifts(s: State, step: Step) {
    match step
    case FinishAttach(call) =>
      call in s.waiting && s.waiting[call].channel in s.objects
      && !s.objects[s.waiting[call].channel].status.Failed?
      && !(IsCurrent(s, s.waiting[call].channel)
           && s.waiting[call].listener !in s.objects[s.waiting[call].channel].listeners)
    case Subscribed(id, ok) =>
      !ok && id in s.objects && s.objects[id].tenant in s.channels && s.channels[s.objects[id].tenant] in s.objects
      && s.objects[s.channels[s.objects[id].tenant]].listeners != []
    case _ => false
  }

  lemma SameAttached(s: State, s': State)
    requires forall t :: t in s.channels ==> s.channels[t] in s.objects
    requires forall t :: t in s'.channels ==> s'.channels[t] in s'.objects
    requires forall t :: t in s.channels && s.objects[s.channels[t]].listeners != [] ==> t in s'.channels
    requires forall t :: t in s'.channels ==>
      s'.objects[s'.channels[t]].listeners == if t in s.channels then s.objects[s.channels[t]].listeners else []
    ensures Attached(s') == Attached(s)
  {
  }

  lemma BeginKeepsAttached(s: State, call: nat, context: Context, tenant: string, listener: nat, newId: nat, max: int)
    requires Isolated(s) && newId !in s.objects
    ensures var s' := Begin(s, call, context, tenant, listener, newId, max);
      Isolated(s') && s'.total == s.total && Attached(s') == Attached(s)
  {
    BeginKeepsIsolated(s, call, context, tenant, listener, newId, max);
    hide Authorized, Entitled, Attached;
    SameAttached(s, Begin(s, call, context, tenant, listener, newId, max));
  }

  lemma LostAttached(s: State, s': State, tenant: string)
    requires forall t :: t in s.channels ==> s.channels[t] in s.objects
    requires s'.channels == s.channels - {tenant} && tenant in s.channels
    requires forall t :: t in s'.channels ==> s'.channels[t] in s'.objects
    requires forall t :: t in s'.channels ==> s'.objects[s'.channels[t]].listeners == s.objects[s.channels[t]].listeners
    requires s.objects[s.channels[tenant]].listeners != []
    ensures |Attached(s')| < |Attached(s)|
  {
    var l := s.objects[s.channels[tenant]].listeners[0];
    assert (tenant, l) in Attached(s) && (tenant, l) !in Attached(s');
    Smaller(Attached(s'), Attached(s), (tenant, l));
  }

  lemma Smaller(a: set<(string, nat)>, b: set<(string, nat)>, x: (string, nat))
    requires a <= b && x in b && x !in a
    ensures |a| < |b|
  {
    assert a <= b - {x};
    NoLarger(a, b - {x});
  }

  lemma {:induction false} NoLarger(a: set<(string, nat)>, b: set<(string, nat)>)
    requires a <= b
    ensures |a| <= |b|
  {
    if x :| x in a {
      NoLarger(a - {x}, b - {x});
    }
  }

  lemma SettledDrifts(s: State, id: nat, ok: bool)
    requires Isolated(s) && id in s.objects
    ensures var s' := Settled(s, id, ok);
      s'.total == s.total
      && (forall t :: t in s'.channels ==> s'.channels[t] in s'.objects)
      && (Drifts(s, Subscribed(id, ok)) ==> |Attached(s')| < |Attached(s)|)
      && (!Drifts(s, Subscribed(id, ok)) ==> Attached(s') == Attached(s))
  {
    hide Attached, Entitled;
    var s' := Settled(s, id, ok);
    if Drifts(s, Subscribed(id, ok)) {
      LostAttached(s, s', s.objects[id].tenant);
    } else {
      SameAttached(s, s');
    }
  }

  lemma OneMoreAttached(s: State, s': State, tenant: string, listener: nat)
    requires forall t :: t in s.channels ==> s.channels[t] in s.objects
    requires s'.channels == s.channels && tenant in s.channels
    requires forall t :: t in s'.channels ==> s'.channels[t] in s'.objects
    requires forall t :: t in s.channels && t != tenant ==>
      s'.objects[s.channels[t]].listeners == s.objects[s.channels[t]].listeners
    requires listener !in s.objects[s.channels[tenant]].listeners
    requires s'.objects[s.channels[tenant]].listeners == s.objects[s.channels[tenant]].listeners + [listener]
    ensures |Attached(s')| == |Attached(s)| + 1
  {
    assert Attached(s') == Attached(s) + {(tenant, listener)};
  }

  lemma FinishDrifts(s: State, call: nat)
    requires Isolated(s) && Enabled(s, FinishAttach(call))
    ensures var s' := Finish(s, call);
      (forall t :: t in s'.channels ==> s'.channels[t] in s'.objects)
      && (Drifts(s, FinishAttach(call)) ==> s'.total == s.total + 1 && Attached(s') == Attached(s))
      && (!Drifts(s, FinishAttach(call)) ==> s'.total - |Attached(s')| == s.total - |Attached(s)|)
  {
    hide Attached, Entitled;
    var a, s' := s.waiting[call], Finish(s, call);
    if s.objects[a.channel].status.Failed? || Drifts(s, FinishAttach(call)) {
      SameAttached(s, s');
    } else {
      OneMoreAttached(s, s', a.tenant, a.listener);
    }
  }

  /** The listener is gone from its tenant's channel, or the channel with its last listener. */
  predicate Removed(s: State, s': State, tenant: string, listener: nat) {
    (forall t :: t in s.channels ==> s.channels[t] in s.objects)
    && (forall t :: t in s'.channels ==> s'.channels[t] in s'.objects && t in s.channels)
    && (forall t :: t in s.channels && t != tenant ==>
          t in s'.channels && s'.objects[s'.channels[t]].listeners == s.objects[s.channels[t]].listeners)
    && tenant in s.channels
    && var left := Without(s.objects[s.channels[tenant]].listeners, listener);
       if left == [] then tenant !in s'.channels
       else tenant in s'.channels && s'.objects[s'.channels[tenant]].listeners == left
  }

  lemma StillAttached(s: State, s': State, tenant: string, listener: nat, t: string, l: nat)
    requires Removed(s, s', tenant, listener)
    ensures (t, l) in Attached(s') <==> (t, l) in Attached(s) && (t, l) != (tenant, listener)
  {
    if t == tenant {
      WithoutIsFewer(s.objects[s.channels[tenant]].listeners, listener);
      hide Without;
      assert l in Without(s.objects[s.channels[tenant]].listeners, listener)
        <==> l in s.objects[s.channels[tenant]].listeners && l != listener;
    }
  }

  lemma OneFewerAttached(s: State, s': State, tenant: string, listener: nat)
    requires Removed(s, s', tenant, listener)
    ensures |Attached(s')|
      == |Attached(s)| - (if listener in s.objects[s.channels[tenant]].listeners then 1 else 0)
  {
    assert (tenant, listener) in Attached(s) <==> listener in s.objects[s.channels[tenant]].listeners;
    hide Attached;
    forall t, l: nat
      ensures (t, l) in Attached(s') <==> (t, l) in Attached(s) && (t, l) != (tenant, listener)
    {
      StillAttached(s, s', tenant, listener, t, l);
    }
    assert Attached(s') == Attached(s) - {(tenant, listener)};
  }

  lemma DetachDriftsNot(s: State, call: nat)
    requires Isolated(s) && call in s.handles
    ensures var s' := DetachOne(s, call);
      (forall t :: t in s'.channels ==> s'.channels[t] in s'.objects)
      && s'.total - |Attached(s')| == s.total - |Attached(s)|
  {
    hide Attached, Without, Entitled;
    var h, s' := s.handles[call], DetachOne(s, call);
    if !h.detached && h.tenant in s.channels {
      OneFewerAttached(s, s', h.tenant, h.listener);
    } else {
      SameAttached(s, s');
    }
  }

  /** What each step does to the gap between the count and the listeners shown: closing clears it, a drifting
      step widens it, and every other step leaves it. */
  lemma StepDriftsExactlyWhen(s: State, step: Step, max: int)
    requires Isolated(s) && Enabled(s, step)
    ensures Isolated(Apply(s, step, max))
    ensures var s' := Apply(s, step, max);
      var gap, gap' := s.total - |Attached(s)|, s'.total - |Attached(s')|;
      if step.Close? then gap' == 0 else if Drifts(s, step) then gap' > gap else gap' == gap
  {
    hide Isolated, Begin, Settled, Finish, DetachOne, HandledByAll, Attached;
    StepKeepsIsolated(s, step, max);
    match step
    case BeginAttach(call, context, tenant, listener, newId) =>
      BeginKeepsAttached(s, call, context, tenant, listener, newId, max);
    case Subscribed(id, ok) => SettledDrifts(s, id, ok);
    case FinishAttach(call) => FinishDrifts(s, call);
    case Detach(call) => DetachDriftsNot(s, call);
    case Close => NothingShown(CloseAll(s));
    case _ => QuietStep(s, step, max);
  }

  lemma NothingShown(s: State)
    requires s.channels == map[]
    ensures Attached(s) == {}
  {
  }

  lemma QuietStep(s: State, step: Step, max: int)
    requires Isolated(s) && Enabled(s, step) && (step.Unsubscribed? || step.Receive?)
    ensures var s' := Apply(s, step, max);
      s'.total == s.total && s'.channels == s.channels && s'.objects == s.objects && !Drifts(s, step)
      && Attached(s') == Attached(s)
  {
    hide Attached, HandledByAll;
    SameAttached(s, Apply(s, step, max));
  }

  /** No step since the hub was last closed, or made, has drifted. */
  predicate DriftFree(steps: seq<Step>, max: int) {
    if steps == [] then true
    else
      var n := |steps| - 1;
      steps[n].Close?
      || (DriftFree(steps[..n], max) && After(steps[..n], max).Some? && !Drifts(After(steps[..n], max).value, steps[n]))
  }

  /** Over every run, overlapping calls and all: the count is never below the number of listeners in current
      channels, and equals it exactly when no step since the last close has drifted. */
  lemma {:induction false} CountIsExactExactlyWhen(steps: seq<Step>, max: int)
    requires After(steps, max).Some?
    ensures Isolated(After(steps, max).value)
    ensures var s := After(steps, max).value;
      |Attached(s)| <= s.total && (s.total == |Attached(s)| <==> DriftFree(steps, max))
  {
    hide Isolated, Apply, Attached, Drifts;
    RunIsIsolated(steps, max);
    if steps == [] {
      NothingShown(INITIAL);
    } else {
      var n := |steps| - 1;
      CountIsExactExactlyWhen(steps[..n], max);
      StepDriftsExactlyWhen(After(steps[..n], max).value, steps[n], max);
    }
  }

  // ----- A condition on calls under which nothing drifts -----

  predicate AwaitedOn(s: State, id: nat) { exists call :: call in s.waiting && s.waiting[call].channel == id }

  /** No call tears a channel down while an attach waits on it, and no listener attaches twice to one channel. */
  predicate Orderly(s: State, step: Step) {
    match step
    case BeginAttach(_, _, tenant, listener, _) =>
      tenant in s.channels ==>
        (s.channels[tenant] in s.objects ==> listener !in s.objects[s.channels[tenant]].listeners)
        && forall c :: c in s.waiting && s.waiting[c].channel == s.channels[tenant] ==> s.waiting[c].listener != listener
    case Detach(call) =>
      call in s.handles && !s.handles[call].detached && s.handles[call].tenant in s.channels
      && s.channels[s.handles[call].tenant] in s.objects
      && Without(s.objects[s.channels[s.handles[call].tenant]].listeners, s.handles[call].listener) == []
      ==> !AwaitedOn(s, s.channels[s.handles[call].tenant])
    case Close => forall t :: t in s.channels ==> !AwaitedOn(s, s.channels[t])
    case _ => true
  }

  /** A waiting attach will join its tenant's current channel, unless its subscription has failed. */
  ghost predicate WaitsWell(s: State, a: Attach) {
    a.channel in s.objects && s.objects[a.channel].tenant == a.tenant
    && (!s.objects[a.channel].status.Failed? ==>
          IsCurrent(s, a.channel) && a.listener !in s.objects[a.channel].listeners)
  }

  ghost predicate ChannelsOwn(s: State) {
    forall t :: t in s.channels ==> s.channels[t] in s.objects && s.objects[s.channels[t]].tenant == t
  }

  ghost predicate PendingAwaited(s: State) {
    forall id :: id in s.objects && s.objects[id].status.Pending? ==> s.objects[id].listeners == [] && AwaitedOn(s, id)
  }

  ghost predicate AllWaitWell(s: State) { forall call :: call in s.waiting ==> WaitsWell(s, s.waiting[call]) }

  ghost predicate WaitersDiffer(waiting: map<nat, Attach>) {
    forall b, c :: b in waiting && c in waiting && b != c && waiting[b].channel == waiting[c].channel ==>
      waiting[b].listener != waiting[c].listener
  }

  predicate LiveChannel(s: State, id: nat)
    requires id in s.objects
  {
    !s.objects[id].status.Failed? && (s.objects[id].listeners != [] || AwaitedOn(s, id))
  }

  ghost predicate Steady(s: State) {
    && ChannelsOwn(s) && PendingAwaited(s) && AllWaitWell(s) && WaitersDiffer(s.waiting)
    && (forall t :: t in s.channels ==> LiveChannel(s, s.channels[t]))
  }

  lemma SteadyDoesNotDrift(s: State, step: Step)
    requires Steady(s) && Enabled(s, step)
    ensures !Drifts(s, step)
  {
    match step
    case Subscribed(id, ok) =>
      assert AwaitedOn(s, id);
    case FinishAttach(call) =>
      assert WaitsWell(s, s.waiting[call]);
    case _ =>
  }

  /** What letting an attach in changes. */
  predicate LetIn(s: State, s': State, call: nat, a: Attach) {
    && s'.total == s.total && s'.waiting == s.waiting[call := a]
    && if a.tenant in s.channels
       then a.channel == s.channels[a.tenant] && s'.objects == s.objects && s'.channels == s.channels
       else
         a.channel !in s.objects && s'.objects == s.objects[a.channel := Channel(a.tenant, [], Pending)]
         && s'.channels == s.channels[a.tenant := a.channel]
  }

  lemma BeginLetsIn(s: State, call: nat, context: Context, tenant: string, listener: nat, newId: nat, max: int)
    requires newId !in s.objects
    ensures var s' := Begin(s, call, context, tenant, listener, newId, max);
      var a := Attach(context, tenant, listener, if tenant in s.channels then s.channels[tenant] else newId);
      if Authorized(context, tenant) && s.total < max then LetIn(s, s', call, a) else s' == s
  {
    hide Authorized;
  }

  lemma StillAwaited(s: State, s': State, call: nat, a: Attach)
    requires s'.waiting == s.waiting[call := a] && call !in s.waiting
    ensures AwaitedOn(s', a.channel) && forall id :: AwaitedOn(s, id) ==> AwaitedOn(s', id)
  {
    assert call in s'.waiting && s'.waiting[call].channel == a.channel;
    forall id | AwaitedOn(s, id)
      ensures AwaitedOn(s', id)
    {
      var c :| c in s.waiting && s.waiting[c].channel == id;
      assert c in s'.waiting && s'.waiting[c] == s.waiting[c];
    }
  }

  lemma LetInWaitsWell(s: State, s': State, call: nat, a: Attach)
    requires ChannelsOwn(s) && AllWaitWell(s) && call !in s.waiting && LetIn(s, s', call, a)
    requires a.tenant in s.channels ==> a.listener !in s.objects[a.channel].listeners
    ensures ChannelsOwn(s') && AllWaitWell(s')
  {
    forall c | c in s'.waiting
      ensures WaitsWell(s', s'.waiting[c])
    {
      assert c in s.waiting ==> WaitsWell(s, s.waiting[c]);
    }
  }

  lemma LetInPending(s: State, s': State, call: nat, a: Attach)
    requires PendingAwaited(s) && LetIn(s, s', call, a)
    requires AwaitedOn(s', a.channel) && forall id :: AwaitedOn(s, id) ==> AwaitedOn(s', id)
    ensures PendingAwaited(s')
  {
    hide AwaitedOn;
  }

  lemma LetInLive(s: State, s': State, call: nat, a: Attach, t: string)
    requires ChannelsOwn(s) && ChannelsOwn(s') && LetIn(s, s', call, a) && t in s'.channels
    requires t in s.channels ==> LiveChannel(s, s.channels[t])
    requires AwaitedOn(s', a.channel) && forall id :: AwaitedOn(s, id) ==> AwaitedOn(s', id)
    ensures LiveChannel(s', s'.channels[t])
  {
    hide AwaitedOn;
  }

  lemma LetInKeepsSteady(s: State, s': State, call: nat, a: Attach)
    requires Steady(s) && call !in s.waiting && LetIn(s, s', call, a)
    requires a.tenant in s.channels ==> a.listener !in s.objects[a.channel].listeners
    requires forall c :: c in s.waiting && s.waiting[c].channel == a.channel ==> s.waiting[c].listener != a.listener
    ensures Steady(s')
  {
    LetInWaitsWell(s, s', call, a);
    StillAwaited(s, s', call, a);
    LetInPending(s, s', call, a);
    assert WaitersDiffer(s'.waiting);
    hide AllWaitWell, AwaitedOn, PendingAwaited, LiveChannel, WaitersDiffer;
    forall t | t in s'.channels
      ensures LiveChannel(s', s'.channels[t])
    {
      LetInLive(s, s', call, a, t);
    }
  }

  lemma BeginKeepsSteady(s: State, call: nat, context: Context, tenant: string, listener: nat, newId: nat, max: int)
    requires Steady(s) && Enabled(s, BeginAttach(call, context, tenant, listener, newId))
    requires Orderly(s, BeginAttach(call, context, tenant, listener, newId))
    ensures Steady(Begin(s, call, context, tenant, listener, newId, max))
  {
    BeginLetsIn(s, call, context, tenant, listener, newId, max);
    var s' := Begin(s, call, context, tenant, listener, newId, max);
    hide Begin, Authorized, LetIn, LiveChannel, PendingAwaited, WaitersDiffer, AwaitedOn;
    if s' != s {
      var a := Attach(context, tenant, listener, if tenant in s.channels then s.channels[tenant] else newId);
      assert forall c :: c in s.waiting ==> WaitsWell(s, s.waiting[c]);
      LetInKeepsSteady(s, s', call, a);
    }
  }

  lemma SettledWaitsWell(s: State, id: nat, ok: bool)
    requires ChannelsOwn(s) && AllWaitWell(s) && id in s.objects && s.objects[id].status.Pending?
    requires AwaitedOn(s, id)
    ensures IsCurrent(s, id) && ChannelsOwn(Settled(s, id, ok)) && AllWaitWell(Settled(s, id, ok))
  {
    var s' := Settled(s, id, ok);
    var c :| c in s.waiting && s.waiting[c].channel == id;
    assert WaitsWell(s, s.waiting[c]);
    forall b | b in s'.waiting
      ensures WaitsWell(s', s'.waiting[b])
    {
      assert WaitsWell(s, s.waiting[b]);
    }
  }

  lemma SettledKeepsSteady(s: State, id: nat, ok: bool)
    requires Steady(s) && Enabled(s, Subscribed(id, ok))
    ensures Steady(Settled(s, id, ok))
  {
    var s' := Settled(s, id, ok);
    assert AwaitedOn(s, id) && forall i :: AwaitedOn(s, i) <==> AwaitedOn(s', i);
    SettledWaitsWell(s, id, ok);
    hide AllWaitWell, AwaitedOn, IsUuidShaped;
  }

  /** What finishing an attach on a channel that subscribed, or that did not, changes. */
  predicate Joined(s: State, s': State, call: nat) {
    call in s.waiting && s.waiting[call].channel in s.objects
    && s'.waiting == s.waiting - {call} && s'.channels == s.channels
    && var a := s.waiting[call];
       var c := s.objects[a.channel];
       !c.status.Pending?
       && s'.objects == if c.status.Failed? then s.objects
                        else s.objects[a.channel := c.(listeners := Added(c.listeners, a.listener))]
  }

  lemma JoinedAwaits(s: State, s': State, call: nat)
    requires Joined(s, s', call)
    ensures forall id :: AwaitedOn(s, id) && id != s.waiting[call].channel ==> AwaitedOn(s', id)
  {
    forall id | AwaitedOn(s, id) && id != s.waiting[call].channel
      ensures AwaitedOn(s', id)
    {
      var c :| c in s.waiting && s.waiting[c].channel == id;
      assert c in s'.waiting && s'.waiting[c] == s.waiting[c];
    }
  }

  lemma JoinedWaitsWell(s: State, s': State, call: nat)
    requires ChannelsOwn(s) && AllWaitWell(s) && WaitersDiffer(s.waiting) && Joined(s, s', call)
    ensures ChannelsOwn(s') && AllWaitWell(s') && WaitersDiffer(s'.waiting)
  {
    forall b | b in s'.waiting
      ensures WaitsWell(s', s'.waiting[b])
    {
      assert WaitsWell(s, s.waiting[b]) && s'.waiting[b] == s.waiting[b];
    }
  }

  lemma JoinedLive(s: State, s': State, call: nat, t: string)
    requires ChannelsOwn(s) && ChannelsOwn(s') && Joined(s, s', call) && t in s.channels
    requires LiveChannel(s, s.channels[t])
    requires forall id :: AwaitedOn(s, id) && id != s.waiting[call].channel ==> AwaitedOn(s', id)
    ensures LiveChannel(s', s'.channels[t])
  {
    hide AwaitedOn;
  }

  lemma FinishKeepsSteady(s: State, call: nat)
    requires Steady(s) && Enabled(s, FinishAttach(call))
    ensures Steady(Finish(s, call))
  {
    var s' := Finish(s, call);
    assert Joined(s, s', call);
    JoinedAwaits(s, s', call);
    JoinedWaitsWell(s, s', call);
    hide AllWaitWell, AwaitedOn, LiveChannel, WaitersDiffer, Finish, ChannelsOwn;
    assert PendingAwaited(s');
    forall t | t in s'.channels
      ensures LiveChannel(s', s'.channels[t])
    {
      JoinedLive(s, s', call, t);
    }
  }

  /** What detaching a listener of a current channel changes. */
  predicate Left(s: State, s': State, tenant: string, left: seq<nat>) {
    tenant in s.channels && s.channels[tenant] in s.objects && s'.waiting == s.waiting
    && s'.objects == s.objects[s.channels[tenant] := s.objects[s.channels[tenant]].(listeners := left)]
    && s'.channels == if left == [] then s.channels - {tenant} else s.channels
  }

  lemma LeftWaitsWell(s: State, s': State, tenant: string, left: seq<nat>)
    requires ChannelsOwn(s) && AllWaitWell(s) && Left(s, s', tenant, left)
    requires forall l :: l in left ==> l in s.objects[s.channels[tenant]].listeners
    requires left == [] ==> !AwaitedOn(s, s.channels[tenant])
    ensures ChannelsOwn(s') && AllWaitWell(s')
  {
    forall b | b in s'.waiting
      ensures WaitsWell(s', s'.waiting[b])
    {
      assert WaitsWell(s, s.waiting[b]) && AwaitedOn(s, s.waiting[b].channel);
    }
  }

  lemma LeftKeepsSteady(s: State, s': State, tenant: string, left: seq<nat>)
    requires Steady(s) && Left(s, s', tenant, left)
    requires forall l :: l in left ==> l in s.objects[s.channels[tenant]].listeners
    requires left == [] ==> !AwaitedOn(s, s.channels[tenant])
    requires s.objects[s.channels[tenant]].listeners == [] ==> left == []
    ensures Steady(s')
  {
    LeftWaitsWell(s, s', tenant, left);
    assert forall id :: AwaitedOn(s, id) <==> AwaitedOn(s', id);
    hide AllWaitWell, AwaitedOn;
  }

  lemma DetachKeepsSteady(s: State, call: nat)
    requires Steady(s) && Enabled(s, Detach(call)) && Orderly(s, Detach(call))
    ensures Steady(DetachOne(s, call))
  {
    var h, s' := s.handles[call], DetachOne(s, call);
    if !h.detached && h.tenant in s.channels {
      var listeners := s.objects[s.channels[h.tenant]].listeners;
      WithoutIsFewer(listeners, h.listener);
      NoneWithoutNone(h.listener);
      hide Without, PendingAwaited, AllWaitWell, WaitersDiffer, LiveChannel, AwaitedOn;
      LeftKeepsSteady(s, s', h.tenant, Without(listeners, h.listener));
    } else {
      QuietKeepsSteady(s, s');
    }
  }

  lemma QuietKeepsSteady(s: State, s': State)
    requires Steady(s) && s'.objects == s.objects && s'.channels == s.channels && s'.waiting == s.waiting
    ensures Steady(s')
  {
    assert forall id :: AwaitedOn(s, id) <==> AwaitedOn(s', id);
    assert forall b :: b in s.waiting ==> WaitsWell(s, s.waiting[b]);
  }

  lemma NoneWithoutNone(l: nat)
    ensures Without([], l) == []
  {
  }

  lemma CloseKeepsSteady(s: State)
    requires Steady(s) && Orderly(s, Close)
    ensures Steady(CloseAll(s))
  {
    var s' := CloseAll(s);
    assert forall id :: AwaitedOn(s, id) <==> AwaitedOn(s', id);
    forall b | b in s.waiting
      ensures s.objects[s.waiting[b].channel].status.Failed? && WaitsWell(s', s'.waiting[b])
    {
      assert WaitsWell(s, s.waiting[b]) && AwaitedOn(s, s.waiting[b].channel);
    }
  }

  lemma StepKeepsSteady(s: State, step: Step, max: int)
    requires Steady(s) && Enabled(s, step) && Orderly(s, step)
    ensures Steady(Apply(s, step, max))
  {
    match step
    case BeginAttach(call, context, tenant, listener, newId) =>
      hide Steady, Begin, Orderly, Enabled;
      BeginKeepsSteady(s, call, context, tenant, listener, newId, max);
    case Subscribed(id, ok) =>
      hide Steady, Settled, Enabled;
      SettledKeepsSteady(s, id, ok);
    case FinishAttach(call) =>
      hide Steady, Finish, Enabled;
      FinishKeepsSteady(s, call);
    case Detach(call) =>
      hide Steady, DetachOne, Orderly, Enabled;
      DetachKeepsSteady(s, call);
    case Close =>
      hide Steady, Orderly;
      CloseKeepsSteady(s);
    case _ =>
      hide HandledByAll, Steady;
      QuietKeepsSteady(s, Apply(s, step, max));
  }

  ghost predicate OrderlyRun(steps: seq<Step>, max: int) {
    forall k :: 0 <= k < |steps| && After(steps[..k], max).Some? ==> Orderly(After(steps[..k], max).value, steps[k])
  }

  lemma OrderlyShrinks(steps: seq<Step>, max: int)
    requires OrderlyRun(steps, max) && steps != []
    ensures OrderlyRun(steps[..|steps| - 1], max)
  {
    hide Orderly, After;
    var n := |steps| - 1;
    forall k | 0 <= k < n && After(steps[..n][..k], max).Some?
      ensures Orderly(After(steps[..n][..k], max).value, steps[..n][k])
    {
      assert steps[..n][..k] == steps[..k];
    }
  }

  lemma InitiallySteady()
    ensures Steady(INITIAL)
  {
  }

  lemma {:induction false} OrderlyRunsStaySteady(steps: seq<Step>, max: int)
    requires After(steps, max).Some? && OrderlyRun(steps, max)
    ensures Steady(After(steps, max).value) && DriftFree(steps, max)
  {
    hide Steady, Apply, Orderly, Drifts, Enabled;
    if steps == [] {
      InitiallySteady();
    } else {
      var n := |steps| - 1;
      OrderlyShrinks(steps, max);
      OrderlyRunsStaySteady(steps[..n], max);
      SteadyDoesNotDrift(After(steps[..n], max).value, steps[n]);
      StepKeepsSteady(After(steps[..n], max).value, steps[n], max);
    }
  }

  /** However calls overlap: if no channel is torn down while an attach waits on it, and no listener attaches
      twice to one channel, the count is the number of listeners in current channels, and no channel is empty
      unless an attach waits on it. */
  lemma CountsAreExact(steps: seq<Step>, max: int)
    requires After(steps, max).Some? && OrderlyRun(steps, max)
    ensures var s := After(steps, max).value;
      (forall t :: t in s.channels ==> s.channels[t] in s.objects)
      && s.total == |Attached(s)|
      && forall t :: t in s.channels ==> s.objects[s.channels[t]].listeners != [] || AwaitedOn(s, s.channels[t])
  {
    hide Isolated, Attached, AwaitedOn;
    CountIsExactExactlyWhen(steps, max);
    OrderlyRunsStaySteady(steps, max);
    assert Steady(After(steps, max).value);
  }

  // ----- The limit -----

  /** The attach can still be counted: its channel is subscribed, or can be. */
  predicate CanFinish(objects: map<nat, Channel>, a: Attach) {
    a.channel in objects
    && (objects[a.channel].status.Ready?
        || (objects[a.channel].status.Pending? && IsUuidShaped(objects[a.channel].tenant)))
  }

  function Addable(s: State): set<nat> { set call | call in s.waiting && CanFinish(s.objects, s.waiting[call]) }

  /** The listeners counted, and those that may yet be without another call. */
  function Demand(s: State): int { s.total + |Addable(s)| }

  /** The call is let in, and the listener it brings can be counted. */
  predicate Admits(s: State, step: Step, max: int) {
    step.BeginAttach? && Authorized(step.context, step.tenant) && s.total < max
    && if step.tenant in s.channels
       then CanFinish(s.objects, Attach(step.context, step.tenant, step.listener, s.channels[step.tenant]))
       else IsUuidShaped(step.tenant)
  }

  lemma FewerAddable(s: State, s': State)
    requires Addable(s') <= Addable(s)
    ensures |Addable(s')| <= |Addable(s)|
  {
    hide Addable;
    FewerCalls(Addable(s'), Addable(s));
  }

  lemma {:induction false} FewerCalls(a: set<nat>, b: set<nat>)
    requires a <= b
    ensures |a| <= |b|
  {
    if x :| x in a {
      FewerCalls(a - {x}, b - {x});
    }
  }

  lemma LetInFinishesAlike(s: State, s': State, call: nat, a: Attach)
    requires Isolated(s) && call !in s.waiting && LetIn(s, s', call, a)
    ensures forall c :: c in s.waiting ==>
      c in s'.waiting && CanFinish(s'.objects, s'.waiting[c]) == CanFinish(s.objects, s.waiting[c])
  {
    hide Entitled, IsUuidShaped, ChannelEntitled;
    forall c | c in s.waiting
      ensures CanFinish(s'.objects, s'.waiting[c]) == CanFinish(s.objects, s.waiting[c])
    {
      assert AttachEntitled(s.objects, s.granted, s.waiting[c]);
    }
  }

  lemma LetInAdds(s: State, s': State, call: nat, a: Attach)
    requires Isolated(s) && call !in s.waiting && LetIn(s, s', call, a)
    ensures call !in Addable(s)
    ensures Addable(s') == Addable(s) + if CanFinish(s'.objects, a) then {call} else {}
  {
    LetInFinishesAlike(s, s', call, a);
    hide Isolated, CanFinish;
    forall c
      ensures c in Addable(s') <==> c in Addable(s) || (c == call && CanFinish(s'.objects, a))
    {
      assert c != call ==> (c in s'.waiting <==> c in s.waiting);
    }
  }

  lemma LetInDemands(s: State, s': State, call: nat, a: Attach)
    requires Isolated(s) && call !in s.waiting && LetIn(s, s', call, a)
    ensures Demand(s') == Demand(s) + if CanFinish(s'.objects, a) then 1 else 0
  {
    LetInAdds(s, s', call, a);
    hide Isolated, CanFinish, Addable;
  }

  lemma BeginDemands(s: State, step: Step, max: int)
    requires Isolated(s) && Enabled(s, step) && step.BeginAttach?
    ensures Demand(Apply(s, step, max)) == Demand(s) + if Admits(s, step, max) then 1 else 0
  {
    var BeginAttach(call, context, tenant, listener, newId) := step;
    BeginLetsIn(s, call, context, tenant, listener, newId, max);
    hide Isolated, IsUuidShaped, Authorized, Demand, Begin;
    if Authorized(context, tenant) && s.total < max {
      var a := Attach(context, tenant, listener, if tenant in s.channels then s.channels[tenant] else newId);
      LetInDemands(s, Apply(s, step, max), call, a);
    }
  }

  lemma FinishDemands(s: State, call: nat)
    requires Enabled(s, FinishAttach(call))
    ensures Demand(Finish(s, call)) == Demand(s)
    ensures Addable(Finish(s, call)) == Addable(s) - {call}
  {
    hide IsUuidShaped;
    var s' := Finish(s, call);
    assert forall c :: c in s'.waiting ==> CanFinish(s.objects, s.waiting[c]) == CanFinish(s'.objects, s'.waiting[c]);
    assert Addable(s') == Addable(s) - {call};
    assert call in Addable(s) <==> !s.objects[s.waiting[call].channel].status.Failed?;
  }

  lemma OthersDemandNoMore(s: State, step: Step, max: int)
    requires Isolated(s) && Enabled(s, step) && !step.BeginAttach? && !step.FinishAttach? && s.total >= 0
    ensures Demand(Apply(s, step, max)) <= Demand(s)
    ensures step.Subscribed? && step.ok ==> Addable(Apply(s, step, max)) == Addable(s)
  {
    hide IsUuidShaped, HandledByAll, Without, Entitled;
    var s' := Apply(s, step, max);
    assert s'.waiting == s.waiting;
    assert Addable(s') <= Addable(s);
    FewerAddable(s, s');
  }

  /** Every attach let in found room for those still waiting as well. */
  ghost predicate GuardedRun(steps: seq<Step>, max: int) {
    forall k :: 0 <= k < |steps| && After(steps[..k], max).Some? ==>
      Guarded(After(steps[..k], max).value, steps[k], max)
  }

  predicate Guarded(s: State, step: Step, max: int) { Admits(s, step, max) ==> Demand(s) < max }

  lemma GuardedStepKeepsTheLimit(s: State, step: Step, max: int)
    requires Isolated(s) && Enabled(s, step) && s.total >= 0 && Demand(s) <= max && Guarded(s, step, max)
    ensures Demand(Apply(s, step, max)) <= max
  {
    hide Isolated, Apply, Admits, Demand, Enabled, Finish;
    if step.BeginAttach? {
      BeginDemands(s, step, max);
    } else if step.FinishAttach? {
      FinishIsAStep(s, step, max);
      FinishDemands(s, step.call);
    } else {
      OthersDemandNoMore(s, step, max);
    }
  }

  lemma FinishIsAStep(s: State, step: Step, max: int)
    requires Enabled(s, step) && step.FinishAttach?
    ensures Enabled(s, FinishAttach(step.call)) && step.call in s.waiting && s.waiting[step.call].channel in s.objects
    ensures Apply(s, step, max) == Finish(s, step.call)
  {
  }

  lemma TotalIsNatural(steps: seq<Step>, max: int)
    requires After(steps, max).Some?
    ensures After(steps, max).value.total >= 0
  {
    hide After, Isolated, Attached;
    CountIsExactExactlyWhen(steps, max);
  }

  lemma GuardedShrinks(steps: seq<Step>, max: int)
    requires GuardedRun(steps, max) && steps != []
    ensures GuardedRun(steps[..|steps| - 1], max)
  {
    hide Guarded, After;
    var n := |steps| - 1;
    forall k | 0 <= k < n && After(steps[..n][..k], max).Some?
      ensures Guarded(After(steps[..n][..k], max).value, steps[..n][k], max)
    {
      assert steps[..n][..k] == steps[..k];
    }
  }

  lemma NothingDemanded()
    ensures Demand(INITIAL) == 0
  {
    assert Addable(INITIAL) == {};
  }

  lemma {:induction false} GuardedRunsStayLow(steps: seq<Step>, max: nat)
    requires After(steps, max).Some? && GuardedRun(steps, max)
    ensures Demand(After(steps, max).value) <= max
  {
    hide Isolated, Apply, Guarded, Enabled, Demand;
    if steps == [] {
      NothingDemanded();
    } else {
      var n := |steps| - 1;
      GuardedShrinks(steps, max);
      GuardedRunsStayLow(steps[..n], max);
      RunIsIsolated(steps[..n], max);
      TotalIsNatural(steps[..n], max);
      GuardedStepKeepsTheLimit(After(steps[..n], max).value, steps[n], max);
    }
  }

  /** However calls overlap: if every attach let in found the count and the attaches still waiting below the
      limit together, the count and the listeners shown never pass it. */
  lemma GuardedAttachesKeepTheLimit(steps: seq<Step>, max: nat)
    requires After(steps, max).Some? && GuardedRun(steps, max)
    ensures var s := After(steps, max).value;
      (forall t :: t in s.channels ==> s.channels[t] in s.objects)
      && |Attached(s)| <= s.total <= s.total + |Addable(s)| <= max
  {
    hide After, Attached, Addable, Guarded;
    CountIsExactExactlyWhen(steps, max);
    GuardedRunsStayLow(steps, max);
  }

  /** A call made while no attach waits needs no more than the hub's own check. */
  lemma LoneAttachIsGuarded(s: State, step: Step, max: int)
    requires s.waiting == map[]
    ensures Guarded(s, step, max)
  {
    assert Addable(s) == {};
  }

  predicate Extends(steps: seq<Step>, before: seq<Step>) {
    |before| <= |steps| && steps[..|before|] == before
  }

  /** No attach begins from step `n` on. */
  predicate NoneBegin(steps: seq<Step>, n: nat) { forall k :: n <= k < |steps| ==> !steps[k].BeginAttach? }

  /** However the run goes on without further attaches, the count stays within the limit. */
  ghost predicate KeepsLimit(before: seq<Step>, max: int) {
    forall steps :: Extends(steps, before) && NoneBegin(steps, |before|) && After(steps, max).Some? ==>
      After(steps, max).value.total <= max
  }

  lemma LaterDemandsNoMore(s: State, step: Step, max: int)
    requires Isolated(s) && Enabled(s, step) && s.total >= 0 && !step.BeginAttach?
    ensures Demand(Apply(s, step, max)) <= Demand(s)
  {
    hide Isolated, Apply, Demand, Enabled, Finish;
    if step.FinishAttach? {
      FinishIsAStep(s, step, max);
      FinishDemands(s, step.call);
    } else {
      OthersDemandNoMore(s, step, max);
    }
  }

  lemma {:induction false} DemandOnlyFalls(before: seq<Step>, steps: seq<Step>, max: int)
    requires Extends(steps, before) && NoneBegin(steps, |before|) && After(steps, max).Some?
    ensures After(before, max).Some? && Demand(After(steps, max).value) <= Demand(After(before, max).value)
  {
    hide Isolated, Apply, Demand, Enabled;
    if |steps| == |before| {
      assert steps == before;
    } else {
      var n := |steps| - 1;
      assert steps[..n][..|before|] == before;
      DemandOnlyFalls(before, steps[..n], max);
      RunIsIsolated(steps[..n], max);
      TotalIsNatural(steps[..n], max);
      LaterDemandsNoMore(After(steps[..n], max).value, steps[n], max);
    }
  }

  lemma StepTaken(steps: seq<Step>, s: State, step: Step, max: int)
    requires After(steps, max) == Some(s) && Enabled(s, step)
    ensures After(steps + [step], max) == Some(Apply(s, step, max))
  {
    assert (steps + [step])[..|steps|] == steps;
  }

  lemma ExtendsOnce(steps: seq<Step>, before: seq<Step>, step: Step)
    requires Extends(steps, before) && NoneBegin(steps, |before|) && !step.BeginAttach?
    ensures Extends(steps + [step], before) && NoneBegin(steps + [step], |before|)
  {
    assert (steps + [step])[..|before|] == steps[..|before|];
  }

  /** A waiting attach that can still be counted: its channel is ready, once it has subscribed. */
  lemma ChannelReady(before: seq<Step>, steps: seq<Step>, s: State, call: nat, max: int)
    returns (steps': seq<Step>, s': State)
    requires Extends(steps, before) && NoneBegin(steps, |before|) && After(steps, max) == Some(s) && call in Addable(s)
    ensures Extends(steps', before) && NoneBegin(steps', |before|) && After(steps', max) == Some(s')
    ensures s'.total == s.total && Addable(s') == Addable(s) && Enabled(s', FinishAttach(call))
    ensures !s'.objects[s'.waiting[call].channel].status.Failed?
  {
    hide IsUuidShaped, After;
    steps', s' := steps, s;
    var id := s.waiting[call].channel;
    if s.objects[id].status.Pending? {
      StepTaken(steps, s, Subscribed(id, true), max);
      ExtendsOnce(steps, before, Subscribed(id, true));
      steps', s' := steps + [Subscribed(id, true)], Apply(s, Subscribed(id, true), max);
      assert forall c :: c in s.waiting ==> CanFinish(s'.objects, s'.waiting[c]) == CanFinish(s.objects, s.waiting[c]);
    }
  }

  /** All of them can finish, and then the count is the whole demand. */
  lemma {:induction false} AllFinish(before: seq<Step>, steps: seq<Step>, s: State, max: int)
    returns (steps': seq<Step>, s': State)
    requires Extends(steps, before) && NoneBegin(steps, |before|) && After(steps, max) == Some(s)
    ensures Extends(steps', before) && NoneBegin(steps', |before|) && After(steps', max) == Some(s')
    ensures s'.total == Demand(s)
    decreases |Addable(s)|
  {
    hide After, Addable, Finish, Enabled, Extends, NoneBegin;
    if Addable(s) == {} {
      steps', s' := steps, s;
    } else {
      var call :| call in Addable(s);
      steps', s' := ChannelReady(before, steps, s, call, max);
      FinishIsAStep(s', FinishAttach(call), max);
      FinishDemands(s', call);
      StepTaken(steps', s', FinishAttach(call), max);
      ExtendsOnce(steps', before, FinishAttach(call));
      steps', s' := AllFinish(before, steps' + [FinishAttach(call)], Apply(s', FinishAttach(call), max), max);
    }
  }

  /** After any run: the count stays within the limit however the waiting attaches finish, exactly when it and
      the attaches that can still be counted are within the limit together. */
  lemma LimitHoldsExactlyWhen(before: seq<Step>, max: int)
    requires After(before, max).Some?
    ensures KeepsLimit(before, max) <==> Demand(After(before, max).value) <= max
  {
    var s := After(before, max).value;
    hide After, Addable;
    assert Extends(before, before) && NoneBegin(before, |before|);
    if Demand(s) <= max {
      forall steps | Extends(steps, before) && NoneBegin(steps, |before|) && After(steps, max).Some?
        ensures After(steps, max).value.total <= max
      {
        DemandOnlyFalls(before, steps, max);
      }
    } else {
      var steps, t := AllFinish(before, before, s, max);
      assert After(steps, max).value.total > max;
    }
  }

  /** So letting one more attach in is safe exactly when the count and the waiting attaches are below the
      limit together; the hub compares the count alone. */
  lemma AdmittingIsSafeExactlyWhen(before: seq<Step>, step: Step, max: int)
    requires After(before, max).Some?
    requires Enabled(After(before, max).value, step) && Admits(After(before, max).value, step, max)
    ensures KeepsLimit(before + [step], max) <==> Demand(After(before, max).value) < max
  {
    var s := After(before, max).value;
    RunIsIsolated(before, max);
    StepTaken(before, s, step, max);
    BeginDemands(s, step, max);
    hide After, Apply, Demand, Isolated, Enabled, KeepsLimit;
    LimitHoldsExactlyWhen(before + [step], max);
  }

  // ----- Overlapping calls -----

  const TENANT: string := "00000000-0000-0000-0000-000000000000"
  const OWNER := TenantContext(TENANT)

  lemma OwnerMayAttach()
    ensures Authorized(OWNER, TENANT) && IsUuidShaped(TENANT)
  {
  }

  lemma NothingYet(max: int)
    ensures After([], max) == Some(INITIAL)
  {
  }

  /** Two attaches that overlap can both pass the capacity check. */
  lemma OverlappingAttachesPassTheLimit() returns (steps: seq<Step>, s: State)
    ensures After(steps, 1) == Some(s) && s.total == 2
  {
    steps, s := [], INITIAL;
    var first, second := BeginAttach(0, OWNER, TENANT, 0, 0), BeginAttach(1, OWNER, TENANT, 1, 1);
    OwnerMayAttach();
    NothingYet(1);
    hide After, Authorized, IsUuidShaped, HandledByAll, Without, Added;
    StepTaken(steps, s, first, 1);
    steps, s := steps + [first], Apply(s, first, 1);
    StepTaken(steps, s, second, 1);
    steps, s := steps + [second], Apply(s, second, 1);
    StepTaken(steps, s, Subscribed(0, true), 1);
    steps, s := steps + [Subscribed(0, true)], Apply(s, Subscribed(0, true), 1);
    StepTaken(steps, s, FinishAttach(0), 1);
    steps, s := steps + [FinishAttach(0)], Apply(s, FinishAttach(0), 1);
    StepTaken(steps, s, FinishAttach(1), 1);
    steps, s := steps + [FinishAttach(1)], Apply(s, FinishAttach(1), 1);
  }

  lemma OneViewer(max: int) returns (steps: seq<Step>, s: State)
    requires max > 0
    ensures After(steps, max) == Some(s)
    ensures s.objects == map[0 := Channel(TENANT, [0], Ready)] && s.channels == map[TENANT := 0] && s.total == 1
    ensures s.waiting == map[] && s.handles == map[0 := Handle(TENANT, 0, false)]
  {
    steps, s := [], INITIAL;
    var first := BeginAttach(0, OWNER, TENANT, 0, 0);
    OwnerMayAttach();
    NothingYet(max);
    assert Added([], 0) == [0];
    hide After, Authorized, IsUuidShaped, HandledByAll, Without, Added;
    StepTaken(steps, s, first, max);
    steps, s := steps + [first], Apply(s, first, max);
    StepTaken(steps, s, Subscribed(0, true), max);
    steps, s := steps + [Subscribed(0, true)], Apply(s, Subscribed(0, true), max);
    StepTaken(steps, s, FinishAttach(0), max);
    steps, s := steps + [FinishAttach(0)], Apply(s, FinishAttach(0), max);
  }

  lemma LeavesNobody()
    ensures Without([0], 0) == []
  {
    assert [0][1..] == [] && Without([], 0) == [];
  }

  /** If the last viewer leaves while another attaches, the newcomer joins a channel no longer in the hub:
      it is counted for good, although the hub has no channel. */
  lemma LeavingDuringAnAttachStrandsIt(max: int) returns (steps: seq<Step>, s: State)
    requires max > 1
    ensures After(steps, max) == Some(s) && s.channels == map[] && s.total == 1
    ensures 1 in s.handles && DetachOne(s, 1).total == 1
  {
    hide After, Without;
    steps, s := OneViewer(max);
    LeavesNobody();
    var second := BeginAttach(1, OWNER, TENANT, 1, 1);
    StepTaken(steps, s, second, max);
    steps, s := steps + [second], Apply(s, second, max);
    StepTaken(steps, s, Detach(0), max);
    steps, s := steps + [Detach(0)], Apply(s, Detach(0), max);
    StepTaken(steps, s, FinishAttach(1), max);
    steps, s := steps + [FinishAttach(1)], Apply(s, FinishAttach(1), max);
  }

  // ----- The hub as it runs -----

  datatype Begun = NotAuthorized | AtCapacity | Waiting

  class Hub {
    const maxListeners: int
    var objects: map<nat, Channel>
    var channels: map<string, nat>
    var total: int
    var waiting: map<nat, Attach>
    var handles: map<nat, Handle>
    ghost var run: State

    ghost predicate Valid()
      reads this
    {
      && run.objects == objects && run.channels == channels && run.total == total
      && run.waiting == waiting && run.handles == handles && Isolated(run)
    }

    constructor (maxListeners: int)
      ensures Valid() && this.maxListeners == maxListeners && run == INITIAL
    {
      this.maxListeners := maxListeners;
      objects, channels, total, waiting, handles := map[], map[], 0, map[], map[];
      run := INITIAL;
    }

    /** `attach` up to its await. */
    method Begin(call: nat, context: Context, tenant: string, listener: nat, newId: nat) returns (r: Begun)
      requires Valid() && call !in waiting && call !in handles && newId !in objects
      modifies this
      ensures Valid()
      ensures run == Apply(old(run), BeginAttach(call, context, tenant, listener, newId), maxListeners)
      ensures r.NotAuthorized? <==> !Authorized(context, tenant)
      ensures r.AtCapacity? <==> Authorized(context, tenant) && old(total) >= maxListeners
    {
      ghost var step := BeginAttach(call, context, tenant, listener, newId);
      StepKeepsIsolated(run, step, maxListeners);
      run := Apply(run, step, maxListeners);
      if !Authorized(context, tenant) { return NotAuthorized; }
      if total >= maxListeners { return AtCapacity; }
      var channel := newId;
      if tenant in channels {
        channel := channels[tenant];
      } else {
        objects := objects[newId := Channel(tenant, [], Pending)];
        channels := channels[tenant := newId];
      }
      waiting := waiting[call := Attach(context, tenant, listener, channel)];
      return Waiting;
    }

    /** The subscription of a channel has settled; a failed one takes its channel with it. */
    method SubscriptionSettled(channel: nat, ok: bool)
      requires Valid() && Enabled(run, Subscribed(channel, ok))
      modifies this
      ensures Valid() && run == Apply(old(run), Subscribed(channel, ok), maxListeners)
    {
      StepKeepsIsolated(run, Subscribed(channel, ok), maxListeners);
      run := Apply(run, Subscribed(channel, ok), maxListeners);
      var c := objects[channel];
      objects := objects[channel := c.(status := if ok then Ready else Failed)];
      if !ok { channels := channels - {c.tenant}; }
    }

    /** `attach` after its await: false when the subscription failed. */
    method Resume(call: nat) returns (attached: bool)
      requires Valid() && Enabled(run, FinishAttach(call))
      modifies this
      ensures Valid() && run == Apply(old(run), FinishAttach(call), maxListeners)
      ensures attached <==> !old(objects)[old(waiting)[call].channel].status.Failed?
    {
      StepKeepsIsolated(run, FinishAttach(call), maxListeners);
      run := Apply(run, FinishAttach(call), maxListeners);
      var a := waiting[call];
      var c := objects[a.channel];
      waiting := waiting - {call};
      if c.status.Failed? { return false; }
      objects := objects[a.channel := c.(listeners := Added(c.listeners, a.listener))];
      total := total + 1;
      handles := handles[call := Handle(a.tenant, a.listener, false)];
      return true;
    }

    /** The detach function an attach returned; the channel to unsubscribe, if it was left empty. */
    method Leave(call: nat) returns (emptied: Option<nat>)
      requires Valid() && call in handles
      modifies this
      ensures Valid() && run == Apply(old(run), Detach(call), maxListeners)
      ensures emptied.Some? <==> channels != old(channels)
    {
      StepKeepsIsolated(run, Detach(call), maxListeners);
      run := Apply(run, Detach(call), maxListeners);
      var h := handles[call];
      if h.detached { return None; }
      handles := handles[call := h.(detached := true)];
      if h.tenant !in channels { return None; }
      var id := channels[h.tenant];
      var c := objects[id];
      var left := Without(c.listeners, h.listener);
      objects := objects[id := c.(listeners := left)];
      if h.listener in c.listeners { total := total - 1; }
      if left == [] {
        channels := channels - {h.tenant};
        return Some(id);
      }
      return None;
    }

    /** One message reaching one channel's handler: every listener of a snapshot gets the event, unless the
        message is not an event of the channel's own tenant. */
    method Deliver(channel: nat, name: string, message: Message) returns (sent: seq<Delivery>)
      requires Valid() && channel in objects
      ensures sent == Handled(objects[channel], name, message)
      ensures forall d :: d in sent ==> Entitled(run.granted, d.listener, d.event.tenantId)
    {
      HandledIsEntitled(run.granted, objects[channel], name, message);
      var c := objects[channel];
      sent := [];
      if c.tenant != name || !message.Event? || message.event.tenantId != c.tenant { return; }
      for i := 0 to |c.listeners|
        invariant sent == DeliverTo(c.listeners[..i], message.event)
      {
        assert c.listeners[..i + 1] == c.listeners[..i] + [c.listeners[i]];
        sent := sent + [Delivery(c.listeners[i], message.event)];
      }
      assert c.listeners[..|c.listeners|] == c.listeners;
    }
  }
}
