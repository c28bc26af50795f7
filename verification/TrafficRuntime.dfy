/** The traffic agent's control operations, interleaved with its scheduler. */
module TrafficRuntime {
  import opened Numbers
  import opened TokenBucket
  import opened TrafficFlow

  datatype ClientPlan = ClientPlan(listeners: seq<(Transport, nat)>, flows: seq<FlowPlan>)

  datatype LoadPayload = LoadPayload(generation: nat, planDigest: string, plan: ClientPlan)

  datatype ControlError = MissingIdentity | DigestMismatch | GenerationMismatch | NoPlan | BindFailed

  datatype Event =
    | LoadEvent(payload: LoadPayload, bindOk: nat -> bool)
    | EnableEvent(generation: nat, planDigest: string, at: real)
    | DisableEvent(generation: nat, planDigest: string)
    | ResetEvent
    | TickEvent(now: real, env: nat -> ServiceEnv)

  /** The service histories of the flows, as a value. */
  ghost function Histories(flows: seq<ScheduledFlow>): (histories: seq<seq<Service>>)
    reads flows
    ensures |histories| == |flows| && forall i :: 0 <= i < |flows| ==> histories[i] == flows[i].history
  {
    seq(|flows|, i requires 0 <= i < |flows| reads flows => flows[i].history)
  }

  ghost function AllBytes(histories: seq<seq<Service>>): nat {
    if histories == [] then 0 else AllBytes(histories[..|histories| - 1]) + TotalBytes(histories[|histories| - 1])
  }

  function TotalPackets(history: seq<Service>): nat {
    if history == [] then 0 else TotalPackets(history[..|history| - 1]) + history[|history| - 1].packets
  }

  ghost function AllPackets(histories: seq<seq<Service>>): nat {
    if histories == [] then 0 else AllPackets(histories[..|histories| - 1]) + TotalPackets(histories[|histories| - 1])
  }

  ghost function Pacers(flows: seq<ScheduledFlow>): (pacers: seq<Bucket>)
    ensures |pacers| == |flows| && forall i :: 0 <= i < |flows| ==> pacers[i] == flows[i].PacerBucket()
  {
    seq(|flows|, i requires 0 <= i < |flows| => flows[i].PacerBucket())
  }

  /** What each flow's rate earns from its start to its last service, summed. */
  ghost function AllEarned(pacers: seq<Bucket>, histories: seq<seq<Service>>): real
    requires |pacers| == |histories|
  {
    if pacers == [] then 0.0
    else
      var n := |pacers| - 1;
      AllEarned(pacers[..n], histories[..n]) + pacers[n].Earned(pacers[n].LastTime(histories[n]) - pacers[n].start)
  }

  lemma {:induction false} AllWithinRates(pacers: seq<Bucket>, histories: seq<seq<Service>>)
    requires |pacers| == |histories|
    requires forall k :: 0 <= k < |pacers| ==> pacers[k].Valid() && pacers[k].Conforming(histories[k])
    ensures AllBytes(histories) as real <= AllEarned(pacers, histories)
  {
    if pacers != [] {
      var n := |pacers| - 1;
      AllWithinRates(pacers[..n], histories[..n]);
      StartBound(pacers[n], histories[n]);
      hide Bucket.Conforming;
      hide Bucket.Earned;
      hide Bucket.LastTime;
      hide Bucket.TokensAfter;
    }
  }

  /** What the flows' rates allow up to a point in time, summed. */
  ghost function Allowed(pacers: seq<Bucket>, now: real): real {
    if pacers == [] then 0.0
    else Allowed(pacers[..|pacers| - 1], now) + pacers[|pacers| - 1].Earned(now - pacers[|pacers| - 1].start)
  }

  lemma {:induction false} EarnedWithinAllowed(pacers: seq<Bucket>, histories: seq<seq<Service>>, now: real)
    requires |pacers| == |histories|
    requires forall k :: 0 <= k < |pacers| ==> pacers[k].Valid() && pacers[k].LastTime(histories[k]) <= now
    ensures AllEarned(pacers, histories) <= Allowed(pacers, now)
  {
    hide Bucket.Earned;
    hide Bucket.LastTime;
    if pacers != [] {
      var n := |pacers| - 1;
      EarnedWithinAllowed(pacers[..n], histories[..n], now);
      var last := pacers[n].LastTime(histories[n]);
      EarnedSplits(pacers[n], last - pacers[n].start, now - last);
      EarnedGrows(pacers[n], now - last);
    }
  }

  /** The bandwidths of all flows together, in bits per second. */
  function Bandwidth(flows: seq<FlowPlan>): nat {
    if flows == [] then 0 else Bandwidth(flows[..|flows| - 1]) + flows[|flows| - 1].bandwidthBps
  }

  /** The bytes that all flows together may send in a time: eight bits make a byte. */
  function Allowance(flows: seq<FlowPlan>, elapsed: real): real { Bandwidth(flows) as real * elapsed / 8.0 }

  /** What the rates allow is the bandwidth times the time. */
  lemma {:induction false} AllowedByBandwidth(plans: seq<FlowPlan>, pacers: seq<Bucket>, from: real, now: real)
    requires |pacers| == |plans|
    requires forall k :: 0 <= k < |plans| ==> pacers[k].start == from && pacers[k].rate * 8.0 == plans[k].bandwidthBps as real
    ensures Allowed(pacers, now) == Allowance(plans, now - from)
  {
    if plans != [] {
      var n := |plans| - 1;
      AllowedByBandwidth(plans[..n], pacers[..n], from, now);
      var rate, bits, elapsed := pacers[n].rate, plans[n].bandwidthBps as real, now - from;
      assert pacers[n].Earned(elapsed) == rate * elapsed == bits * elapsed / 8.0;
      assert (Bandwidth(plans[..n]) as real + bits) * elapsed == Bandwidth(plans[..n]) as real * elapsed + bits * elapsed;
    }
  }

  ghost function FlowViews(flows: seq<ScheduledFlow>): (views: seq<FlowView>)
    reads flows
    ensures |views| == |flows| && forall i :: 0 <= i < |flows| ==> views[i] == flows[i].View()
  {
    seq(|flows|, i requires 0 <= i < |flows| reads flows => flows[i].View())
  }

  /** The flows and their services, as values. */
  datatype Fleet = Fleet(flows: seq<FlowView>, histories: seq<seq<Service>>)

  /** The first `n` flows have made the service call that was due, each in a world of its own, and the
      others none. */
  ghost predicate Serviced(before: Fleet, after: Fleet, n: nat, now: real, env: nat -> ServiceEnv) {
    && |after.flows| == |before.flows| == |after.histories| == |before.histories|
    && forall k :: 0 <= k < |before.flows| ==>
         if k < n then
           && after.flows[k] == before.flows[k].After(now, env(k))
           && after.histories[k] == before.histories[k] + [before.flows[k].Due(now, env(k))]
         else after.flows[k] == before.flows[k] && after.histories[k] == before.histories[k]
  }

  lemma ServicedPush(before: Fleet, middle: Fleet, after: Fleet, i: nat, now: real, env: nat -> ServiceEnv)
    requires Serviced(before, middle, i, now, env) && i < |middle.flows|
    requires after.flows == middle.flows[i := middle.flows[i].After(now, env(i))]
    requires after.histories == middle.histories[i := middle.histories[i] + [middle.flows[i].Due(now, env(i))]]
    ensures Serviced(before, after, i + 1, now, env)
  {
    hide FlowView.After;
    hide FlowView.Due;
  }

  lemma NotYetServiced(before: Fleet, middle: Fleet, i: nat, now: real, env: nat -> ServiceEnv)
    requires Serviced(before, middle, i, now, env) && i < |before.flows|
    ensures |middle.flows| == |before.flows| && middle.flows[i] == before.flows[i]
  {
    hide FlowView.After;
    hide FlowView.Due;
  }

  lemma NoneServiced(fleet: Fleet, now: real, env: nat -> ServiceEnv)
    requires |fleet.flows| == |fleet.histories|
    ensures Serviced(fleet, fleet, 0, now, env)
  {
  }

  lemma {:induction false} NothingSent(histories: seq<seq<Service>>)
    requires forall k :: 0 <= k < |histories| ==> histories[k] == []
    ensures AllBytes(histories) == 0 && AllPackets(histories) == 0
  {
    if histories != [] { NothingSent(histories[..|histories| - 1]); }
  }

  lemma {:induction false} AllBytesUpdate(histories: seq<seq<Service>>, i: nat, s: Service)
    requires i < |histories|
    ensures AllBytes(histories[i := histories[i] + [s]]) == AllBytes(histories) + s.bytes
    ensures AllPackets(histories[i := histories[i] + [s]]) == AllPackets(histories) + s.packets
  {
    var front := histories[..|histories| - 1];
    var now := histories[i := histories[i] + [s]];
    if i < |front| {
      AllBytesUpdate(front, i, s);
      assert now[..|front|] == front[i := front[i] + [s]];
    } else {
      assert now[..|front|] == front;
      assert (histories[i] + [s])[..|histories[i]|] == histories[i];
    }
  }

  /** The active flags of the flows, as a value. */
  ghost function Flags(flows: seq<ScheduledFlow>): (flags: seq<bool>)
    reads flows
    ensures |flags| == |flows| && forall i :: 0 <= i < |flows| ==> flags[i] == flows[i].active
  {
    seq(|flows|, i requires 0 <= i < |flows| reads flows => flows[i].active)
  }

  ghost function Count(flags: seq<bool>): nat {
    if flags == [] then 0
    else Count(flags[..|flags| - 1]) + (if flags[|flags| - 1] then 1 else 0)
  }

  ghost predicate Distinct(flows: seq<ScheduledFlow>) {
    forall i, j :: 0 <= i < j < |flows| ==> flows[i] != flows[j]
  }

  lemma {:induction false} CountUpdate(flags: seq<bool>, i: nat, value: bool)
    requires i < |flags|
    ensures Count(flags[i := value]) == Count(flags) - (if flags[i] then 1 else 0) + (if value then 1 else 0)
    ensures flags[i] ==> Count(flags) > 0
  {
    var front := flags[..|flags| - 1];
    if i < |front| {
      CountUpdate(front, i, value);
      assert flags[i := value][..|front|] == front[i := value];
    } else {
      assert flags[i := value][..|front|] == front;
    }
  }

  lemma {:induction false} CountAll(flags: seq<bool>)
    ensures Count(flags) <= |flags|
    ensures Count(flags) == |flags| <==> forall k :: 0 <= k < |flags| ==> flags[k]
    ensures Count(flags) == 0 <==> forall k :: 0 <= k < |flags| ==> !flags[k]
  {
    if flags != [] { CountAll(flags[..|flags| - 1]); }
  }

  /** A runtime as a value: the plan, the services of its flows, and what it publishes. */
  datatype RuntimeView = RuntimeView(
    plan: Option<ClientPlan>, sending: bool, fleet: Fleet, lastTick: real, status: StatusView)
  {
    predicate Matches(generation: nat, planDigest: string) {
      status.generation == generation && status.planDigest == planDigest
    }
  }

  const DEFAULT_STATUS := StatusView(false, false, 0, "", 0, 0, 0, 0, 0, 0, 0, false)

  /** Nothing is sent any more; ready is whether the listeners are there. */
  function Disabled(before: StatusView): StatusView {
    before.(enabled := false, activeFlows := 0, ready := before.activeListeners == before.expectedListeners)
  }

  /** The status of a plan that has just been loaded: its listeners are all there and nothing is sent. */
  function Announced(before: StatusView, payload: LoadPayload): StatusView {
    var listeners := |payload.plan.listeners|;
    StatusView(true, false, payload.generation, payload.planDigest, |payload.plan.flows|, 0, listeners, listeners,
               before.packetsSent, before.bytesSent, before.reconnects, false)
  }

  /** The status once sending has been asked for: with no flows there is nothing to wait for. */
  function Starting(before: StatusView, plan: ClientPlan): StatusView {
    before.(enabled := true, activeFlows := 0,
            ready := plan.flows == [] && before.activeListeners == before.expectedListeners)
  }

  const NO_FLEET := Fleet([], [])

  /** A flow as it is created. */
  function NewFlow(plan: FlowPlan, at: real): FlowView { FlowView(plan, at, 0.0, at, false, false, false, at, MIN_RECONNECT) }

  /** One new flow for each plan. */
  function NewFleet(plans: seq<FlowPlan>, at: real): Fleet {
    Fleet(seq(|plans|, i requires 0 <= i < |plans| => NewFlow(plans[i], at)), seq(|plans|, i => []))
  }

  function Cleared(before: RuntimeView): RuntimeView { RuntimeView(None, false, NO_FLEET, before.lastTick, DEFAULT_STATUS) }

  ghost function Loaded(before: RuntimeView, payload: LoadPayload, bindOk: nat -> bool): RuntimeView {
    if forall i :: 0 <= i < |payload.plan.listeners| ==> bindOk(i)
      then RuntimeView(Some(payload.plan), false, NO_FLEET, before.lastTick, Announced(before.status, payload))
    else Cleared(before)
  }

  function Enabled(before: RuntimeView, at: real): RuntimeView {
    if before.plan.None? || before.sending then before
    else
      var flows := before.plan.value.flows;
      RuntimeView(before.plan, flows != [], NewFleet(flows, at), if flows == [] then before.lastTick else at,
                  Starting(before.status, before.plan.value))
  }

  function Stopped(before: RuntimeView): RuntimeView {
    RuntimeView(before.plan, false, NO_FLEET, before.lastTick, Disabled(before.status))
  }

  function Latest(a: real, b: real): real { if a >= b then a else b }

  /** How many streams fail in a pass. */
  ghost function LostStreams(flows: seq<FlowView>, now: real, env: nat -> ServiceEnv): nat {
    if flows == [] then 0
    else
      var n := |flows| - 1;
      LostStreams(flows[..n], now, env)
      + if flows[n].plan.protocol.Tcp? && flows[n].Refill(now).Fails(now, env(n)) then 1 else 0
  }

  lemma NoStreamLost(flows: seq<FlowView>, now: real, env: nat -> ServiceEnv)
    ensures LostStreams(flows[..0], now, env) == 0
  {
  }

  lemma LostStreamsPush(flows: seq<FlowView>, i: nat, now: real, env: nat -> ServiceEnv)
    requires i < |flows|
    ensures LostStreams([], now, env) == 0
    ensures LostStreams(flows[..i + 1], now, env) == LostStreams(flows[..i], now, env)
      + if flows[i].plan.protocol.Tcp? && flows[i].Refill(now).Fails(now, env(i)) then 1 else 0
  {
    assert flows[..i + 1][..i] == flows[..i];
  }

  /** A pass of the scheduler: the plan stays, every flow makes its service call, and what they send is
      counted. */
  ghost predicate Ticked(before: RuntimeView, after: RuntimeView, now: real, env: nat -> ServiceEnv) {
    && after.plan == before.plan && after.sending == before.sending && after.lastTick == now
    && Serviced(before.fleet, after.fleet, |before.fleet.flows|, now, env)
    && after.status.Identity() == before.status.Identity()
    && after.status.reconnects == before.status.reconnects + LostStreams(before.fleet.flows, now, env)
    && after.status.packetsSent - before.status.packetsSent == AllPackets(after.fleet.histories) - AllPackets(before.fleet.histories)
    && after.status.bytesSent - before.status.bytesSent == AllBytes(after.fleet.histories) - AllBytes(before.fleet.histories)
  }

  class TrafficRuntime {
    /** The digest the agent computes of a plan. */
    const digestOf: ClientPlan -> string
    const status: AgentStatus
    var plan: Option<ClientPlan>
    var listenerTasks: nat
    /** The sender task: whether it runs, its flows and its last tick. */
    var sending: bool
    var flows: seq<ScheduledFlow>
    var lastTick: real

    /** When the plan was last enabled, and the counters then. */
    ghost var enabledAt: real
    ghost var packetsAtEnable: nat
    ghost var bytesAtEnable: nat

    /** Whether a disable request has been accepted since the last load or reset. */
    ghost var disableAccepted: bool

    /** What holds at any time, also in the middle of a scheduler pass. */
    ghost predicate Consistent()
      reads this, status, flows
    {
      && FlowsValid()
      && StatusValid()
      && status.activeFlows == Count(Flags(flows))
    }

    /** Between passes the published counters account for everything the flows sent. */
    ghost predicate Valid()
      reads this, status, flows
    {
      && Consistent()
      && (sending ==>
            && status.packetsSent == packetsAtEnable + AllPackets(Histories(flows))
            && status.bytesSent == bytesAtEnable + AllBytes(Histories(flows)))
    }

    /** What the control fields and the published status say about each other. */
    ghost predicate StatusValid()
      reads this, status
    {
      && (!sending ==> flows == [])
      && (status.enabled ==> plan.Some?)
      && (sending ==> status.enabled)
      && (status.enabled && plan.Some? && plan.value.flows != [] ==> sending)
      && (plan.Some? ==>
            && ValidPlan(plan.value)
            && status.generation != 0 && status.planDigest == digestOf(plan.value) && status.planDigest != ""
            && status.expectedFlows == |plan.value.flows|
            && status.expectedListeners == |plan.value.listeners|
            && status.activeListeners == listenerTasks == |plan.value.listeners|
            && status.ready == status.ShouldBeReady()
            && (sending ==> |flows| == |plan.value.flows|)
            && (sending ==> forall k :: 0 <= k < |flows| ==> flows[k].plan == plan.value.flows[k]))
      && (plan.None? ==>
            && !sending && listenerTasks == 0 && status.generation == 0 && status.planDigest == ""
            && status.expectedFlows == 0 && status.expectedListeners == 0 && status.activeListeners == 0
            && status.ready == disableAccepted)
    }

    ghost predicate FlowsValid()
      reads this, flows
    {
      && Distinct(flows)
      && forall k :: 0 <= k < |flows| ==> flows[k].Valid() && flows[k].start == enabledAt && flows[k].previous <= lastTick
    }

    constructor (digestOf: ClientPlan -> string)
      ensures Valid() && plan.None? && !disableAccepted && fresh(status)
    {
      this.digestOf := digestOf;
      status := new AgentStatus();
      plan, listenerTasks, sending, flows, lastTick := None, 0, false, [], 0.0;
      enabledAt, packetsAtEnable, bytesAtEnable, disableAccepted := 0.0, 0, 0, false;
    }

    /** Since the plan was enabled, no more bytes have been published than the rates of all flows
        together allow in the time each has been serviced, and so in the time up to the last pass. */
    lemma PublishedWithinRates()
      requires Valid() && sending
      ensures (status.bytesSent - bytesAtEnable) as real <= AllEarned(Pacers(flows), Histories(flows))
                <= Allowed(Pacers(flows), lastTick)
                == Allowance(plan.value.flows, lastTick - enabledAt)
    {
      hide ScheduledFlow.Valid;
      hide Allowance;
      hide Count;
      forall k | 0 <= k < |flows|
        ensures Pacers(flows)[k].Valid() && Pacers(flows)[k].Conforming(Histories(flows)[k])
        ensures Pacers(flows)[k].LastTime(Histories(flows)[k]) <= lastTick
      {
        assert flows[k].Valid();
        FlowFollowsPacer(k);
      }
      AllWithinRates(Pacers(flows), Histories(flows));
      EarnedWithinAllowed(Pacers(flows), Histories(flows), lastTick);
      AllowedByBandwidth(plan.value.flows, Pacers(flows), enabledAt, lastTick);
    }

    lemma FlowFollowsPacer(k: nat)
      requires k < |flows| && flows[k].Valid()
      ensures flows[k].PacerBucket().Conforming(flows[k].history)
      ensures flows[k].PacerBucket().LastTime(flows[k].history) == flows[k].previous
    {
    }

    /** While a plan is loaded, the agent is ready exactly when its listeners match and, if enabled,
        every flow is active. */
    lemma ReadyMeans()
      requires Valid() && plan.Some?
      ensures status.ready <==>
        status.activeListeners == status.expectedListeners
        && (!status.enabled || plan.value.flows == [] || (sending && forall k :: 0 <= k < |flows| ==> flows[k].active))
    {
      CountAll(Flags(flows));
    }

    method Disable()
      requires Valid()
      modifies this`sending, this`flows, this`disableAccepted, status
      ensures Valid() && !sending && !status.enabled && disableAccepted
      ensures plan == old(plan) && flows == []
      ensures status.ready == (status.activeListeners == status.expectedListeners)
      ensures status.View() == Disabled(old(status.View())) && lastTick == old(lastTick)
    {
      hide ScheduledFlow.Valid;
      hide ValidPlan;
      hide AllBytes;
      hide AllPackets;
      hide Count;
      sending, flows, disableAccepted := false, [], true;
      CountAll(Flags(flows));
      status.enabled, status.activeFlows := false, 0;
      status.ready := status.ListenersMatch();
    }

    method ClearStatus()
      modifies status
      ensures status.IsDefault()
    {
      status.ready, status.enabled, status.hasError := false, false, false;
      status.generation, status.planDigest := 0, "";
      status.expectedFlows, status.activeFlows := 0, 0;
      status.expectedListeners, status.activeListeners := 0, 0;
      status.packetsSent, status.bytesSent, status.reconnects := 0, 0, 0;
    }

    method Reset()
      requires Valid()
      modifies this, status
      ensures Valid() && plan.None? && status.IsDefault() && lastTick == old(lastTick) && flows == []
      ensures !disableAccepted
    {
      Disable();
      listenerTasks, plan, disableAccepted := 0, None, false;
      ClearStatus();
    }

    predicate Accepts(payload: LoadPayload)
    {
      payload.generation != 0 && payload.planDigest != "" && digestOf(payload.plan) == payload.planDigest
    }

    /** Replaces the plan, or leaves no plan at all when a listener cannot be bound. */
    method Load(payload: LoadPayload, bindOk: nat -> bool) returns (result: Option<ControlError>)
      requires Valid() && ValidPlan(payload.plan)
      modifies this, status
      ensures Valid() && lastTick == old(lastTick) && (flows == old(flows) || flows == [])
      ensures !Accepts(payload) ==> result.Some? && unchanged(this) && unchanged(status)
      ensures Accepts(payload) ==>
                (result.None? <==> forall i :: 0 <= i < |payload.plan.listeners| ==> bindOk(i))
      ensures result.None? ==> status.View() == Announced(old(status.View()), payload)
      ensures result.None? ==> plan == Some(payload.plan) && status.generation == payload.generation && !status.enabled
      ensures Accepts(payload) && result.Some? ==> plan.None? && status.IsDefault()
      ensures Accepts(payload) ==> !disableAccepted
      ensures Accepts(payload) && result.None? ==> !sending && flows == []
      ensures Accepts(payload) && result.Some? ==> !sending && flows == []
    {
      hide ScheduledFlow.Valid;
      if payload.generation == 0 || payload.planDigest == "" { return Some(MissingIdentity); }
      if digestOf(payload.plan) != payload.planDigest { return Some(DigestMismatch); }
      Disable();
      listenerTasks := 0;
      var bound := BindListeners(|payload.plan.listeners|, bindOk);
      if !bound {
        plan, disableAccepted := None, false;
        ClearStatus();
        return Some(BindFailed);
      }
      Install(payload);
      result := None;
    }

    method Install(payload: LoadPayload)
      requires ValidPlan(payload.plan) && Accepts(payload) && flows == [] && !sending
      modifies this`listenerTasks, this`plan, this`disableAccepted, status
      ensures !disableAccepted
      ensures Valid() && plan == Some(payload.plan) && status.generation == payload.generation && !status.enabled
      ensures status.View() == Announced(old(status.View()), payload)
    {
      hide Count;
      hide AllBytes;
      hide AllPackets;
      listenerTasks, plan, disableAccepted := |payload.plan.listeners|, Some(payload.plan), false;
      Announce(payload, listenerTasks);
      CountAll(Flags(flows));
    }

    /** Publishes the status of the plan. */
    method Announce(payload: LoadPayload, listeners: nat)
      modifies status
      ensures status.generation == payload.generation && status.planDigest == payload.planDigest && !status.enabled
      ensures status.expectedFlows == |payload.plan.flows| && status.activeFlows == 0
      ensures status.expectedListeners == |payload.plan.listeners| && status.activeListeners == listeners
      ensures status.ready == status.ListenersMatch() && !status.hasError
      ensures listeners == |payload.plan.listeners| ==> status.View() == Announced(old(status.View()), payload)
    {
      status.generation, status.planDigest, status.enabled := payload.generation, payload.planDigest, false;
      status.expectedFlows, status.activeFlows := |payload.plan.flows|, 0;
      status.expectedListeners, status.activeListeners := |payload.plan.listeners|, listeners;
      status.ready := status.ListenersMatch();
      status.hasError := false;
    }

    /** Binds the listeners in order; the first failure releases the earlier ones. */
    method BindListeners(count: nat, bindOk: nat -> bool) returns (bound: bool)
      ensures bound <==> forall i :: 0 <= i < count ==> bindOk(i)
    {
      for n := 0 to count
        invariant forall i :: 0 <= i < n ==> bindOk(i)
      {
        if !bindOk(n) { return false; }
      }
      bound := true;
    }

    predicate Matches(generation: nat, planDigest: string)
      reads status
    {
      status.generation == generation && status.planDigest == planDigest
    }

    /** Distinct new flows, one for each plan, that start at `at`. */
    static ghost predicate AllNew(flows: seq<ScheduledFlow>, plans: seq<FlowPlan>, at: real)
      reads flows
    {
      && Distinct(flows)
      && |flows| == |plans| && (forall k :: 0 <= k < |flows| ==> flows[k].plan == plans[k])
      && forall k :: 0 <= k < |flows| ==>
        flows[k].Valid() && flows[k].start == at && flows[k].IsNew(at) && flows[k].history == []
    }

    method StartFlows(plan: ClientPlan, at: real) returns (started: seq<ScheduledFlow>)
      requires ValidPlan(plan)
      ensures fresh(started) && AllNew(started, plan.flows, at)
    {
      hide ScheduledFlow.Valid;
      started := [];
      for i := 0 to |plan.flows|
        invariant fresh(started) && AllNew(started, plan.flows[..i], at)
      {
        var f := new ScheduledFlow(plan.flows[i], at);
        started := started + [f];
      }
    }

    static lemma NewFlows(flows: seq<ScheduledFlow>, plans: seq<FlowPlan>, at: real)
      requires AllNew(flows, plans, at)
      ensures |flows| == |plans| && forall k :: 0 <= k < |flows| ==> flows[k].plan == plans[k] && flows[k].start == at
      ensures Distinct(flows) && forall k :: 0 <= k < |flows| ==> flows[k].Valid() && flows[k].previous == at
      ensures Count(Flags(flows)) == 0 && AllBytes(Histories(flows)) == 0 && AllPackets(Histories(flows)) == 0
    {
      CountAll(Flags(flows));
      NothingSent(Histories(flows));
    }

    method Enable(generation: nat, planDigest: string, at: real) returns (result: Option<ControlError>)
      requires Valid() && at >= lastTick
      modifies this`sending, this`flows, this`lastTick, this`enabledAt, this`packetsAtEnable, this`bytesAtEnable, status
      ensures Valid() && plan == old(plan) && (flows == old(flows) || fresh(flows))
      ensures result.Some? <==> !old(Matches(generation, planDigest)) || plan.None?
      ensures result.Some? || old(sending) ==> unchanged(this) && unchanged(status)
      ensures result.None? ==> status.enabled
      ensures result.None? && !old(sending) ==> status.View() == Starting(old(status.View()), plan.value)
      ensures lastTick == if sending && !old(sending) then at else old(lastTick)
      ensures sending && !old(sending) ==> bytesAtEnable == status.bytesSent
      ensures sending && !old(sending) ==> AllNew(flows, plan.value.flows, at) && enabledAt == at
      ensures result.None? && !old(sending) ==> (sending <==> plan.value.flows != [])
    {
      hide ScheduledFlow.Valid;
      hide FlowsValid;
      if !Matches(generation, planDigest) { return Some(GenerationMismatch); }
      if sending { return None; }
      if plan.None? { return Some(NoPlan); }
      StartSending(at);
      result := None;
    }

    /** Enables the loaded plan; with no flows there is nothing to run. */
    method StartSending(at: real)
      requires Valid() && !sending && plan.Some? && at >= lastTick
      modifies this`sending, this`flows, this`lastTick, this`enabledAt, this`packetsAtEnable, this`bytesAtEnable, status
      ensures Valid() && status.enabled && (flows == old(flows) || fresh(flows))
      ensures lastTick == if sending then at else old(lastTick)
      ensures sending ==> bytesAtEnable == status.bytesSent
      ensures sending ==> AllNew(flows, plan.value.flows, at) && enabledAt == at
      ensures plan == old(plan) && (sending <==> plan.value.flows != [])
      ensures status.View() == Starting(old(status.View()), plan.value)
    {
      hide ScheduledFlow.Valid;
      hide FlowsValid;
      hide Histories;
      hide AllBytes;
      hide AllPackets;
      hide Flags;
      hide Count;
      hide AllNew;
      if plan.value.flows == [] {
        EnableNothing();
      } else {
        var started := StartFlows(plan.value, at);
        Launch(started, at);
      }
    }

    method EnableNothing()
      requires Valid() && !sending && plan.Some? && plan.value.flows == []
      modifies status
      ensures Valid() && status.enabled
      ensures status.View() == Starting(old(status.View()), plan.value)
    {
      hide ScheduledFlow.Valid;
      hide Count;
      hide AllBytes;
      hide AllPackets;
      status.enabled, status.activeFlows, status.ready := true, 0, status.ListenersMatch();
      CountAll(Flags(flows));
    }

    method ExpectFlows()
      requires plan.Some? && plan.value.flows != []
      modifies status
      ensures status.View() == Starting(old(status.View()), plan.value)
      ensures status.enabled && !status.ready && status.activeFlows == 0
      ensures status.generation == old(status.generation) && status.planDigest == old(status.planDigest)
      ensures status.expectedFlows == old(status.expectedFlows)
      ensures status.expectedListeners == old(status.expectedListeners) && status.activeListeners == old(status.activeListeners)
    {
      status.enabled, status.ready, status.activeFlows := true, false, 0;
    }

    method Launch(started: seq<ScheduledFlow>, at: real)
      requires Valid() && !sending && plan.Some? && plan.value.flows != [] && at >= lastTick
      requires AllNew(started, plan.value.flows, at)
      modifies this`sending, this`flows, this`lastTick, this`enabledAt, this`packetsAtEnable, this`bytesAtEnable, status
      ensures Valid() && status.enabled && sending && flows == started
      ensures status.View() == Starting(old(status.View()), plan.value)
      ensures lastTick == at == enabledAt && bytesAtEnable == status.bytesSent && AllNew(flows, plan.value.flows, at)
    {
      hide ScheduledFlow.Valid;
      hide Count;
      hide AllBytes;
      hide AllPackets;
      hide AllNew;
      hide Flags;
      hide Histories;
      hide ValidPlan;
      hide AgentStatus.View;
      hide Starting;
      NewFlows(started, plan.value.flows, at);
      ExpectFlows();
      assert AllNew(started, plan.value.flows, at);
      sending, flows, lastTick, enabledAt := true, started, at, at;
      packetsAtEnable, bytesAtEnable := status.packetsSent, status.bytesSent;
      assert FlowsValid();
      hide FlowsValid;
      assert StatusValid();
      hide StatusValid;
    }

    /** Without a plan the identity (0, "") matches, and disabling then reports ready although nothing
        is loaded: readiness means something only while a plan is. */
    method DisableRequest(generation: nat, planDigest: string) returns (result: Option<ControlError>)
      requires Valid()
      modifies this`sending, this`flows, this`disableAccepted, status
      ensures Valid() && plan == old(plan) && (flows == old(flows) || flows == [])
      ensures result.Some? <==> !old(Matches(generation, planDigest))
      ensures result.Some? ==> unchanged(this) && unchanged(status)
      ensures result.None? ==> !status.enabled && !sending && disableAccepted
      ensures result.None? && plan.None? ==> status.ready
      ensures result.None? ==> flows == [] && status.View() == Disabled(old(status.View()))
    {
      if !Matches(generation, planDigest) { return Some(GenerationMismatch); }
      Disable();
      result := None;
    }

    /** One pass of the scheduler: each flow makes the service call that is due at the time of the pass,
        and the published counters grow by exactly what the services sent. */
    method Tick(now: real, env: nat -> ServiceEnv)
      requires Valid() && now >= lastTick
      modifies this`lastTick, status, flows
      ensures plan == old(plan) && flows == old(flows) && disableAccepted == old(disableAccepted)
      ensures !sending ==> unchanged(this) && unchanged(status) && flows == []
      ensures sending ==> lastTick == now && Ticked(old(View()), View(), now, env)
      ensures ServicedNow(now)
      ensures Valid()
    {
      hide Consistent;
      hide AllBytes;
      hide AllPackets;
      hide Serviced;
      hide FleetView;
      hide View;
      hide Ticked;
      hide AgentStatus.View;
      ViewParts();
      ghost var before := View();
      if !sending {
        NoFlows();
        return;
      }
      Advance(now);
      var packets, bytes := ServiceAll(now, env);
      RecordTick(packets, bytes);
      ServicedAt(before.fleet, now, env);
      ViewParts();
      TickedBy(before, View(), now, env);
    }

    lemma NoFlows()
      requires Valid() && !sending
      ensures flows == []
    {
    }

    /** Every flow was last serviced at `now`. */
    ghost predicate ServicedNow(now: real)
      reads this`flows, flows
    {
      forall k :: 0 <= k < |flows| ==> flows[k].previous == now
    }

    lemma ServicedAt(before: Fleet, now: real, env: nat -> ServiceEnv)
      requires Consistent() && Serviced(before, FleetView(), |flows|, now, env)
      ensures ServicedNow(now)
    {
      forall k | 0 <= k < |flows| ensures flows[k].previous == now {
        assert flows[k].View() == FleetView().flows[k] == before.flows[k].After(now, env(k));
      }
    }

    method Advance(now: real)
      requires Valid() && now >= lastTick
      modifies this`lastTick
      ensures Valid() && lastTick == now
    {
      hide ScheduledFlow.Valid;
      hide AllBytes;
      hide AllPackets;
      hide Count;
      lastTick := now;
    }

    method ServiceAll(now: real, env: nat -> ServiceEnv) returns (packets: nat, bytes: nat)
      requires Consistent() && sending && now == lastTick
      modifies status, flows
      ensures Consistent()
      ensures status.packetsSent == old(status.packetsSent) && status.bytesSent == old(status.bytesSent)
      ensures AllBytes(Histories(flows)) == old(AllBytes(Histories(flows))) + bytes
      ensures AllPackets(Histories(flows)) == old(AllPackets(Histories(flows))) + packets
      ensures Serviced(old(FleetView()), FleetView(), |flows|, now, env)
      ensures status.Identity() == old(status.Identity())
      ensures status.reconnects == old(status.reconnects) + LostStreams(old(FleetView()).flows, now, env)
    {
      hide *;
      packets, bytes := 0, 0;
      FleetParts();
      NoneServiced(FleetView(), now, env);
      NoStreamLost(FleetView().flows, now, env);
      for i := 0 to |flows|
        invariant Consistent()
        invariant Serviced(old(FleetView()), FleetView(), i, now, env)
        invariant |old(FleetView()).flows| == |flows| && status.Identity() == old(status.Identity())
        invariant status.reconnects == old(status.reconnects) + LostStreams(old(FleetView()).flows[..i], now, env)
        invariant status.packetsSent == old(status.packetsSent) && status.bytesSent == old(status.bytesSent)
        invariant AllBytes(Histories(flows)) == old(AllBytes(Histories(flows))) + bytes
        invariant AllPackets(Histories(flows)) == old(AllPackets(Histories(flows))) + packets
      {
        ghost var middle := FleetView();
        FleetParts();
        NotYetServiced(old(FleetView()), middle, i, now, env);
        LostStreamsPush(old(FleetView()).flows, i, now, env);
        var p, b := ServiceOne(i, now, env(i));
        ServicedPush(old(FleetView()), middle, FleetView(), i, now, env);
        packets, bytes := packets + p, bytes + b;
      }
      assert old(FleetView()).flows[..|flows|] == old(FleetView()).flows;
    }

    method RecordTick(packets: nat, bytes: nat)
      requires Consistent() && sending
      requires status.packetsSent + packets == packetsAtEnable + AllPackets(Histories(flows))
      requires status.bytesSent + bytes == bytesAtEnable + AllBytes(Histories(flows))
      modifies status`packetsSent, status`bytesSent
      ensures Valid()
      ensures status.packetsSent == old(status.packetsSent) + packets
      ensures status.bytesSent == old(status.bytesSent) + bytes
    {
      hide ScheduledFlow.Valid;
      hide AllBytes;
      hide AllPackets;
      hide Count;
      status.packetsSent, status.bytesSent := status.packetsSent + packets, status.bytesSent + bytes;
    }

    method ServiceOne(i: nat, now: real, env: ServiceEnv) returns (packets: nat, bytes: nat)
      requires Consistent() && sending && i < |flows| && now == lastTick
      modifies status, flows[i]
      ensures Consistent()
      ensures status.packetsSent == old(status.packetsSent) && status.bytesSent == old(status.bytesSent)
      ensures AllBytes(Histories(flows)) == old(AllBytes(Histories(flows))) + bytes
      ensures AllPackets(Histories(flows)) == old(AllPackets(Histories(flows))) + packets
      ensures var before := old(FleetView());
        && |before.flows| == |before.histories| == |flows|
        && FleetView().flows == before.flows[i := before.flows[i].After(now, env)]
        && FleetView().histories == before.histories[i := before.histories[i] + [before.flows[i].Due(now, env)]]
        && status.reconnects == old(status.reconnects)
             + if before.flows[i].plan.protocol.Tcp? && before.flows[i].Refill(now).Fails(now, env) then 1 else 0
      ensures status.Identity() == old(status.Identity())
    {
      hide ScheduledFlow.Valid;
      hide AllBytes;
      hide AllPackets;
      hide Count;
      hide ValidPlan;
      hide Histories;
      hide Flags;
      ghost var histories := Histories(flows);
      ghost var before := Flags(flows);
      CountUpdate(before, i, true);
      ghost var s := flows[i].View().Due(now, env);
      hide ScheduledFlow.View;
      hide FlowView.Due;
      hide FlowView.After;
      hide FlowView.Fails;
      hide FlowView.Refill;
      hide FlowsValid;
      hide StatusValid;
      hide FlowViews;
      packets, bytes := ServiceAt(i, now, env);
      AllBytesUpdate(histories, i, s);
      CountUpdate(before, i, flows[i].active);
    }

    /** The service call of one flow: the other flows stay as they are. */
    method ServiceAt(i: nat, now: real, env: ServiceEnv) returns (packets: nat, bytes: nat)
      requires FlowsValid() && StatusValid() && sending && i < |flows| && now == lastTick
      requires flows[i].active ==> status.activeFlows > 0
      modifies status, flows[i]
      ensures FlowsValid() && StatusValid()
      ensures var before := old(flows[i].View());
        && Histories(flows) == old(Histories(flows))[i := old(Histories(flows))[i] + [before.Due(now, env)]]
        && FlowViews(flows) == old(FlowViews(flows))[i := before.After(now, env)]
        && packets == before.Due(now, env).packets && bytes == before.Due(now, env).bytes
        && status.reconnects == old(status.reconnects)
             + if before.plan.protocol.Tcp? && before.Refill(now).Fails(now, env) then 1 else 0
      ensures old(FlowViews(flows))[i] == old(flows[i].View())
      ensures Flags(flows) == old(Flags(flows))[i := flows[i].active]
      ensures status.activeFlows - (if flows[i].active then 1 else 0)
           == old(status.activeFlows) - (if old(flows[i].active) then 1 else 0)
      ensures status.packetsSent == old(status.packetsSent) && status.bytesSent == old(status.bytesSent)
      ensures status.Identity() == old(status.Identity())
    {
      hide ScheduledFlow.Valid;
      hide AllBytes;
      hide AllPackets;
      hide Count;
      hide ValidPlan;
      hide FlowView.Due;
      hide FlowView.After;
      hide FlowView.Reply;
      hide FlowView.Fails;
      hide FlowView.Errs;
      hide ScheduledFlow.View;
      hide ScheduledFlow.CanSend;
      hide SomeSendHalts;
      hide SomeSendBlocks;
      hide SomeSendBreaks;
      hide Histories;
      hide FlowViews;
      hide Flags;
      ghost var histories, views, flags := Histories(flows), FlowViews(flows), Flags(flows);
      ghost var s, stopped := flows[i].View().Due(now, env), false;
      packets, bytes, stopped := flows[i].ServiceFlow(now, env, status);
      assert Histories(flows) == histories[i := histories[i] + [s]];
      assert FlowViews(flows) == views[i := views[i].After(now, env)];
      assert Flags(flows) == flags[i := flows[i].active];
    }

    ghost function FleetView(): Fleet
      reads this`flows, flows
    {
      Fleet(FlowViews(flows), Histories(flows))
    }

    lemma FleetParts()
      ensures var v := FleetView();
        v.flows == FlowViews(flows) && v.histories == Histories(flows) && |v.flows| == |v.histories| == |flows|
    {
    }

    ghost function View(): RuntimeView
      reads this, status, flows
    {
      RuntimeView(plan, sending, FleetView(), lastTick, status.View())
    }

    /** What each request and each scheduler pass does. */
    ghost predicate Steps(event: Event, before: RuntimeView, after: RuntimeView) {
      match event
      case LoadEvent(payload, bindOk) => after == if Accepts(payload) then Loaded(before, payload, bindOk) else before
      case EnableEvent(generation, planDigest, at) =>
        after == if before.Matches(generation, planDigest) then Enabled(before, Latest(at, before.lastTick)) else before
      case DisableEvent(generation, planDigest) =>
        after == if before.Matches(generation, planDigest) then Stopped(before) else before
      case ResetEvent => after == Cleared(before)
      case TickEvent(now, env) =>
        if before.sending then Ticked(before, after, Latest(now, before.lastTick), env) else after == before
    }

    /** Whether a disable request will have been accepted since the last load or reset. */
    predicate AcceptedAfter(event: Event, accepted: bool)
      reads status
    {
      match event
      case LoadEvent(payload, _) => accepted && !Accepts(payload)
      case DisableEvent(generation, planDigest) => accepted || Matches(generation, planDigest)
      case ResetEvent => false
      case _ => accepted
    }

    method Handle(event: Event)
      requires Valid() && (event.LoadEvent? ==> ValidPlan(event.payload.plan))
      modifies this, status, flows
      ensures Valid() && (flows == old(flows) || flows == [] || fresh(flows))
      ensures lastTick >= old(lastTick)
      ensures Steps(event, old(View()), View())
      ensures disableAccepted == old(AcceptedAfter(event, disableAccepted))
    {
      hide ScheduledFlow.Valid;
      hide FlowsValid;
      hide View;
      hide Steps;
      match event {
        case LoadEvent(payload, bindOk) => HandleLoad(payload, bindOk);
        case EnableEvent(generation, planDigest, at) => HandleEnable(generation, planDigest, at);
        case DisableEvent(generation, planDigest) => HandleDisable(generation, planDigest);
        case ResetEvent => HandleReset();
        case TickEvent(now, env) => HandleTick(now, env);
      }
    }

    method HandleLoad(payload: LoadPayload, bindOk: nat -> bool)
      requires Valid() && ValidPlan(payload.plan)
      modifies this, status
      ensures Valid() && (flows == old(flows) || flows == []) && lastTick == old(lastTick)
      ensures Steps(LoadEvent(payload, bindOk), old(View()), View())
      ensures disableAccepted == (old(disableAccepted) && !Accepts(payload))
    {
      hide ScheduledFlow.Valid;
      hide FlowsValid;
      hide StatusValid;
      hide AllBytes;
      hide AllPackets;
      hide Count;
      var result := Load(payload, bindOk);
      if Accepts(payload) { NoFleet(); }
      if status.IsDefault() { DefaultIsDefault(); }
    }

    lemma DefaultIsDefault()
      requires status.IsDefault()
      ensures status.View() == DEFAULT_STATUS
    {
    }

    method HandleEnable(generation: nat, planDigest: string, at: real)
      requires Valid()
      modifies this, status
      ensures Valid() && (flows == old(flows) || fresh(flows)) && lastTick >= old(lastTick)
      ensures Steps(EnableEvent(generation, planDigest, at), old(View()), View())
      ensures disableAccepted == old(disableAccepted)
    {
      hide ScheduledFlow.Valid;
      hide FlowsValid;
      hide AllBytes;
      hide AllPackets;
      hide Count;
      hide AgentStatus.View;
      hide Starting;
      MatchesView(generation, planDigest);
      NoFlowsNoFleet();
      var result := Enable(generation, planDigest, Latest(at, lastTick));
      NoFlowsNoFleet();
      if sending && !old(sending) { NewFlowViews(plan.value.flows, lastTick); }
    }

    method HandleDisable(generation: nat, planDigest: string)
      requires Valid()
      modifies this`sending, this`flows, this`disableAccepted, status
      ensures Valid() && (flows == old(flows) || flows == [])
      ensures Steps(DisableEvent(generation, planDigest), old(View()), View())
      ensures disableAccepted == (old(disableAccepted) || old(Matches(generation, planDigest)))
    {
      hide ScheduledFlow.Valid;
      hide FlowsValid;
      hide StatusValid;
      hide AllBytes;
      hide AllPackets;
      hide Count;
      MatchesView(generation, planDigest);
      hide AgentStatus.View;
      hide Disabled;
      var result := DisableRequest(generation, planDigest);
      if result.None? { NoFleet(); }
    }

    method HandleReset()
      requires Valid()
      modifies this, status
      ensures Valid() && flows == [] && lastTick == old(lastTick)
      ensures Steps(ResetEvent, old(View()), View()) && !disableAccepted
    {
      hide ScheduledFlow.Valid;
      hide FlowsValid;
      hide AllBytes;
      hide AllPackets;
      hide Count;
      Reset();
      NoFleet();
      DefaultIsDefault();
    }

    method HandleTick(now: real, env: nat -> ServiceEnv)
      requires Valid()
      modifies this`lastTick, status, flows
      ensures flows == old(flows) && lastTick >= old(lastTick) && disableAccepted == old(disableAccepted)
      ensures Steps(TickEvent(now, env), old(View()), View())
      ensures Valid()
    {
      hide ScheduledFlow.Valid;
      hide Valid;
      hide FleetView;
      hide AgentStatus.View;
      hide Steps;
      hide View;
      hide Ticked;
      ghost var view := View();
      ViewParts();
      Tick(Latest(now, lastTick), env);
      ViewParts();
      TickSteps(now, env, view, View());
    }

    lemma ViewParts()
      ensures var v := View();
        && v.plan == plan && v.sending == sending && v.fleet == FleetView() && v.lastTick == lastTick
        && v.fleet.histories == Histories(flows) && |v.fleet.flows| == |flows|
        && v.status == status.View() && v.status.Identity() == status.Identity()
        && v.status.packetsSent == status.packetsSent && v.status.bytesSent == status.bytesSent
        && v.status.reconnects == status.reconnects
      ensures flows == [] ==> FleetView() == NO_FLEET
    {
    }

    static lemma TickedBy(before: RuntimeView, after: RuntimeView, now: real, env: nat -> ServiceEnv)
      requires after.plan == before.plan && after.sending == before.sending && after.lastTick == now
      requires Serviced(before.fleet, after.fleet, |before.fleet.flows|, now, env)
      requires after.status.Identity() == before.status.Identity()
      requires after.status.reconnects == before.status.reconnects + LostStreams(before.fleet.flows, now, env)
      requires after.status.packetsSent - before.status.packetsSent == AllPackets(after.fleet.histories) - AllPackets(before.fleet.histories)
      requires after.status.bytesSent - before.status.bytesSent == AllBytes(after.fleet.histories) - AllBytes(before.fleet.histories)
      ensures Ticked(before, after, now, env)
    {
      hide Serviced;
      hide LostStreams;
      hide AllPackets;
      hide AllBytes;
    }

    lemma TickSteps(now: real, env: nat -> ServiceEnv, before: RuntimeView, after: RuntimeView)
      requires if before.sending then Ticked(before, after, Latest(now, before.lastTick), env) else after == before
      ensures Steps(TickEvent(now, env), before, after)
    {
      hide Ticked;
    }

    lemma MatchesView(generation: nat, planDigest: string)
      ensures View().Matches(generation, planDigest) <==> Matches(generation, planDigest)
    {
    }

    lemma NoFlowsNoFleet()
      requires Valid()
      ensures !sending ==> FleetView() == NO_FLEET
    {
    }

    lemma NoFleet()
      requires flows == []
      ensures FleetView() == NO_FLEET
    {
    }

    lemma NewFlowViews(plans: seq<FlowPlan>, at: real)
      requires AllNew(flows, plans, at)
      ensures FleetView() == NewFleet(plans, at)
    {
    }

    /** Over every interleaving of control operations and scheduler passes the invariant holds, a flow
        set that is sending has published no more than its rates allow up to the last pass, and without a
        plan the agent says ready exactly when a disable request came after the last load or reset. */
    method Run(events: seq<Event>) returns (ghost trace: seq<RuntimeView>)
      requires Valid()
      requires forall e :: e in events && e.LoadEvent? ==> ValidPlan(e.payload.plan)
      modifies this, status, flows
      ensures Valid()
      ensures |trace| == |events| + 1 && trace[0] == old(View()) && trace[|events|] == View()
      ensures forall i :: 0 <= i < |events| ==> Steps(events[i], trace[i], trace[i + 1])
      ensures plan.Some? ==> (status.ready <==> status.ShouldBeReady())
      ensures plan.None? ==> (status.ready <==> disableAccepted)
      ensures sending ==> (status.bytesSent - bytesAtEnable) as real <= Allowance(plan.value.flows, lastTick - enabledAt)
    {
      hide *;
      trace := [View()];
      for i := 0 to |events|
        invariant Valid()
        invariant |trace| == i + 1 && trace[0] == old(View()) && trace[i] == View()
        invariant forall k :: 0 <= k < i ==> Steps(events[k], trace[k], trace[k + 1])
        invariant flows == old(flows) || flows == [] || fresh(flows)
      {
        Handle(events[i]);
        trace := trace + [View()];
      }
      WhatHoldsAlways();
    }

    lemma WhatHoldsAlways()
      requires Valid()
      ensures plan.Some? ==> (status.ready <==> status.ShouldBeReady())
      ensures plan.None? ==> (status.ready <==> disableAccepted)
      ensures sending ==> plan.Some?
      ensures sending ==> (status.bytesSent - bytesAtEnable) as real <= Allowance(plan.value.flows, lastTick - enabledAt)
    {
      hide ScheduledFlow.Valid;
      hide Allowance;
      hide Allowed;
      hide AllEarned;
      hide Count;
      if sending { PublishedWithinRates(); }
    }
  }

  predicate ValidPlan(plan: ClientPlan) {
    forall i :: 0 <= i < |plan.flows| ==> 0.0 <= plan.flows[i].jitter <= 1.0
  }
}
