/** One scheduled traffic flow: pacing, and the state machine that keeps its transport connected. */
module TrafficFlow {
  import opened Numbers
  import opened TokenBucket

  const MIN_RECONNECT := 0.5
  const MAX_RECONNECT := 5.0
  const MAX_TCP_WRITE_BYTES := 65536

  datatype Transport = Tcp | Udp

  /** `jitter` is the fixed hash of the flow id that spreads reconnects, in [0, 1]. */
  datatype FlowPlan = FlowPlan(flowId: string, protocol: Transport, bandwidthBps: nat, payloadBytes: nat, jitter: real)

  datatype SendResult = Wrote(bytes: nat) | WouldBlock | SendFailed

  /** The send stops the flow for this call: the socket is full or broken, or the stream takes nothing. */
  predicate Halts(r: SendResult) { r.WouldBlock? || r.SendFailed? || r == Wrote(0) }

  ghost predicate SomeSendHalts(env: ServiceEnv) { exists n :: Halts(env.send(n)) }

  ghost predicate SomeSendBlocks(env: ServiceEnv) { exists n :: env.send(n) == WouldBlock }

  /** Some send ends a stream. */
  ghost predicate SomeSendBreaks(env: ServiceEnv) { exists n :: Halts(env.send(n)) && !env.send(n).WouldBlock? }

  /** What the world does during one service call: whether a UDP socket can be set up, whether a
      pending connect has finished and how, and the outcome of the n-th send. */
  datatype ServiceEnv = ServiceEnv(udpSetupOk: bool, connectFinished: Option<bool>, send: nat -> SendResult)

  /** What goes out over a transport in one service call, and what stopped it short, if anything. */
  datatype Sending = Sending(packets: nat, bytes: nat, halt: Option<SendResult>)
  {
    /** A stream is given up when a write fails or nothing is taken, but not when it would block. */
    predicate Breaks() { halt.Some? && !halt.value.WouldBlock? }

    /** The tokens last, or some send is the one that halts. */
    ghost predicate Explains(env: ServiceEnv, tokens: real, payload: nat) {
      && bytes as real <= tokens
      && (halt.None? <==> tokens - bytes as real < payload as real)
      && (halt.Some? ==> Halts(halt.value) && exists n :: env.send(n) == halt.value)
    }
  }

  /** Datagrams go out whole or not at all. */
  ghost function SendAll(env: ServiceEnv, n: nat, tokens: real, payload: nat): (s: Sending)
    requires payload >= 1
    ensures tokens >= 0.0 ==> s.Explains(env, tokens, payload)
    ensures s.bytes == s.packets * payload
    decreases tokens.Floor
  {
    if tokens < payload as real then Sending(0, 0, None)
    else if env.send(n).Wrote? then
      var rest := SendAll(env, n + 1, tokens - payload as real, payload);
      Sending(1 + rest.packets, payload + rest.bytes, rest.halt)
    else
      assert env.send(n) == env.send(n);
      Sending(0, 0, Some(env.send(n)))
  }

  lemma SendAllStep(env: ServiceEnv, n: nat, tokens: real, payload: nat)
    requires payload >= 1
    ensures SendAll(env, n, tokens, payload) ==
      if tokens < payload as real then Sending(0, 0, None)
      else if env.send(n).Wrote? then
        var rest := SendAll(env, n + 1, tokens - payload as real, payload);
        Sending(1 + rest.packets, payload + rest.bytes, rest.halt)
      else Sending(0, 0, Some(env.send(n)))
  {
    hide Sending.Explains;
  }

  /** The size of a write: as many whole payloads as the tokens pay for, but not more than fits. */
  function WriteSize(tokens: real, payload: nat): (size: nat)
    requires payload >= 1 && tokens >= payload as real
    ensures 1 <= size <= MAX_TCP_WRITE_BYTES && size as real <= tokens
    ensures size == MAX_TCP_WRITE_BYTES || (IsWhole(size, payload) && tokens < size as real + payload as real)
  {
    WholePayloadsFit(tokens, payload);
    assert WholePayloads(tokens, payload) * payload >= 1;
    hide WholePayloads;
    Min(WholePayloads(tokens, payload) * payload, MAX_TCP_WRITE_BYTES)
  }

  /** A stream takes part of a write, or all of it; a started payload counts as a packet. */
  ghost function WriteAll(env: ServiceEnv, n: nat, tokens: real, payload: nat): (s: Sending)
    requires payload >= 1
    ensures tokens >= 0.0 ==> s.Explains(env, tokens, payload)
    ensures Covers(s.packets, payload, s.bytes)
    decreases tokens.Floor
  {
    NoPackets(payload);
    if tokens < payload as real then Sending(0, 0, None)
    else
      var wrote := if env.send(n).Wrote? then Min(env.send(n).bytes, WriteSize(tokens, payload)) else 0;
      if wrote == 0 then
        assert env.send(n) == env.send(n);
        Sending(0, 0, Some(env.send(n)))
      else
        var rest := WriteAll(env, n + 1, tokens - wrote as real, payload);
        MorePackets(rest.packets, payload, rest.bytes, wrote);
        hide Covers;
        hide CeilDiv;
        hide WriteSize;
        Sending(rest.packets + CeilDiv(wrote, payload), rest.bytes + wrote, rest.halt)
  }

  lemma WriteAllStep(env: ServiceEnv, n: nat, tokens: real, payload: nat)
    requires payload >= 1
    ensures tokens < payload as real ==> WriteAll(env, n, tokens, payload) == Sending(0, 0, None)
    ensures tokens >= payload as real ==>
      var wrote := if env.send(n).Wrote? then Min(env.send(n).bytes, WriteSize(tokens, payload)) else 0;
      WriteAll(env, n, tokens, payload) ==
        if wrote == 0 then Sending(0, 0, Some(env.send(n)))
        else
          var rest := WriteAll(env, n + 1, tokens - wrote as real, payload);
          Sending(rest.packets + CeilDiv(wrote, payload), rest.bytes + wrote, rest.halt)
  {
    hide Sending.Explains;
    hide WriteSize;
    hide CeilDiv;
    hide Covers;
  }

  function ReconnectDelayFor(jitter: real, base: real): real {
    RealMin(base * JitterFactor(jitter), MAX_RECONNECT)
  }

  function JitterFactor(jitter: real): real { 0.9 + jitter * 0.2 }

  /** The published status as a value. */
  datatype StatusView = StatusView(
    ready: bool, enabled: bool, generation: nat, planDigest: string, expectedFlows: nat, activeFlows: nat,
    expectedListeners: nat, activeListeners: nat, packetsSent: nat, bytesSent: nat, reconnects: nat, hasError: bool)
  {
    /** What only requests change. */
    function Identity(): (bool, nat, string, nat, nat, nat) {
      (enabled, generation, planDigest, expectedFlows, expectedListeners, activeListeners)
    }
  }

  /** The status the agent publishes; shared by the control server and the sender. */
  class AgentStatus {
    var ready: bool
    var enabled: bool
    var generation: nat
    var planDigest: string
    var expectedFlows: nat
    var activeFlows: nat
    var expectedListeners: nat
    var activeListeners: nat
    var packetsSent: nat
    var bytesSent: nat
    var reconnects: nat
    var hasError: bool

    constructor ()
      ensures IsDefault()
    {
      ready, enabled, hasError := false, false, false;
      generation, planDigest := 0, "";
      expectedFlows, activeFlows, expectedListeners, activeListeners := 0, 0, 0, 0;
      packetsSent, bytesSent, reconnects := 0, 0, 0;
    }

    ghost function View(): StatusView
      reads this
    {
      StatusView(ready, enabled, generation, planDigest, expectedFlows, activeFlows, expectedListeners, activeListeners,
                 packetsSent, bytesSent, reconnects, hasError)
    }

    /** What only requests change. */
    function Identity(): (bool, nat, string, nat, nat, nat)
      reads this
    {
      (enabled, generation, planDigest, expectedFlows, expectedListeners, activeListeners)
    }

    predicate IsDefault()
      reads this
    {
      && !ready && !enabled && !hasError && generation == 0 && planDigest == ""
      && expectedFlows == 0 && activeFlows == 0 && expectedListeners == 0 && activeListeners == 0
      && packetsSent == 0 && bytesSent == 0 && reconnects == 0
    }

    predicate ListenersMatch()
      reads this
    {
      activeListeners == expectedListeners
    }

    /** Counts a reconnect for a stream that fails, and records an error when there is one. */
    twostate predicate Notes(v: FlowView, now: real, env: ServiceEnv)
      reads this
    {
      && reconnects == old(reconnects) + (if v.plan.protocol.Tcp? && v.Fails(now, env) then 1 else 0)
      && (v.Errs(now, env) ==> hasError)
      && (hasError ==> old(hasError) || v.Errs(now, env))
    }

    /** Readiness as a function of the other fields. */
    predicate ShouldBeReady()
      reads this
    {
      ListenersMatch() && (!enabled || activeFlows == expectedFlows)
    }
  }

  /** A flow as a value. */
  datatype FlowView = FlowView(
    plan: FlowPlan, start: real, tokens: real, previous: real, active: bool,
    connected: bool, connecting: bool, nextRetry: real, retryDelay: real)
  {
    function PayloadBytes(): nat { Max(plan.payloadBytes, 1) }

    function Pacer(): (b: Bucket)
      ensures b.Valid()
    {
      Bucket(plan.bandwidthBps as real / 8.0, PayloadBytes(), start)
    }

    function Refilled(now: real): real { Pacer().Replenish(tokens, now - previous) }

    /** A TCP flow is active exactly when it has a stream, and never has both a stream and a pending
        connect.  A UDP flow never connects, and is active only with a socket. */
    predicate Sound() {
      && 0.0 <= plan.jitter <= 1.0 && MIN_RECONNECT <= retryDelay <= MAX_RECONNECT
      && if plan.protocol.Tcp? then !(connected && connecting) && active == connected
         else !connecting && (active ==> connected)
    }

    /** There is something to send from in a service call: it was there, or the call gets it. */
    predicate CanSend(now: real, env: ServiceEnv) {
      || connected
      || (if plan.protocol.Tcp? then connecting && env.connectFinished == Some(true) else now >= nextRetry && env.udpSetupOk)
    }

    /** No transport can be opened in a service call. */
    predicate FailsToOpen(now: real, env: ServiceEnv) {
      if plan.protocol.Tcp? then connecting && env.connectFinished == Some(false)
      else !connected && now >= nextRetry && !env.udpSetupOk
    }

    /** What goes out in a service call, given the tokens after the refill. */
    ghost function Outcome(now: real, env: ServiceEnv, tokens: real): Sending {
      if !CanSend(now, env) then Sending(0, 0, None)
      else if plan.protocol.Tcp? then WriteAll(env, 0, tokens, PayloadBytes())
      else SendAll(env, 0, tokens, PayloadBytes())
    }

    /** The service call that is due: what it sends, and whether anything but the tokens stops it. */
    ghost function Due(now: real, env: ServiceEnv): Service {
      var outcome := Outcome(now, env, Refilled(now));
      Service(now, outcome.packets, outcome.bytes, !CanSend(now, env) || outcome.halt.Some?)
    }

    function Refill(now: real): FlowView { this.(tokens := Refilled(now), previous := now) }

    /** The flow after that service call. */
    ghost function After(now: real, env: ServiceEnv): FlowView { Refill(now).Served(now, env) }

    /** Packets and bytes of a service call that has refilled its tokens, and whether it stops short. */
    ghost function Reply(now: real, env: ServiceEnv): (nat, nat, bool) {
      var outcome := Outcome(now, env, tokens);
      (outcome.packets, outcome.bytes, !CanSend(now, env) || outcome.halt.Some?)
    }

    /** Opening the transport or keeping the stream fails. */
    ghost predicate Fails(now: real, env: ServiceEnv) { FailsToOpen(now, env) || Loses(now, env) }

    /** Opening the transport or sending ends with an error. */
    ghost predicate Errs(now: real, env: ServiceEnv) {
      FailsToOpen(now, env) || Outcome(now, env, tokens).halt == Some(SendFailed)
    }

    /** Whether a stream is given up in this service call. */
    ghost predicate Loses(now: real, env: ServiceEnv) {
      plan.protocol.Tcp? && CanSend(now, env) && Outcome(now, env, tokens).Breaks()
    }

    /** A TCP flow once a finished connect has been taken in and a new one started. */
    function Polled(now: real, env: ServiceEnv): FlowView {
      var canSend, failed := CanSend(now, env), FailsToOpen(now, env);
      this.(active := canSend, connected := canSend,
            connecting := if connecting then env.connectFinished.None? else !connected && now >= nextRetry,
            nextRetry := if failed then now + ReconnectDelayFor(plan.jitter, retryDelay) else nextRetry,
            retryDelay := if canSend && !connected then MIN_RECONNECT
                          else if failed then RealMin(retryDelay * 2.0, MAX_RECONNECT) else retryDelay)
    }

    /** A TCP flow that has lost its stream. */
    function Dropped(now: real): FlowView {
      this.(active := false, connected := false,
            nextRetry := now + ReconnectDelayFor(plan.jitter, retryDelay), retryDelay := RealMin(retryDelay * 2.0, MAX_RECONNECT))
    }

    /** The flow after a service call that has refilled its tokens. */
    ghost function Served(now: real, env: ServiceEnv): FlowView {
      var outcome, anew := Outcome(now, env, tokens), CanSend(now, env) && !connected;
      var lost, failed := Loses(now, env), Fails(now, env);
      var delay := if anew then MIN_RECONNECT else retryDelay;
      FlowView(
        plan, start, tokens - outcome.bytes as real, previous,
        if plan.protocol.Tcp? then CanSend(now, env) && !lost
        else outcome.halt != Some(SendFailed) && (active || anew || outcome.packets > 0),
        CanSend(now, env) && !lost,
        plan.protocol.Tcp? && (if connecting then env.connectFinished.None? else !connected && now >= nextRetry),
        if failed then now + ReconnectDelayFor(plan.jitter, delay) else nextRetry,
        if failed then RealMin(delay * 2.0, MAX_RECONNECT) else delay)
    }
  }

  /** A service call keeps the flow sound and spends no more than it has; what stops it is the lack of
      tokens, of a transport, or a send that halts. */
  lemma ServedFacts(v: FlowView, now: real, env: ServiceEnv)
    requires v.Sound() && v.tokens >= 0.0
    ensures var w, (packets, bytes, stopped) := v.Served(now, env), v.Reply(now, env);
      && w.Sound() && w.tokens == v.tokens - bytes as real && w.tokens >= 0.0
      && (!stopped ==> w.tokens < v.PayloadBytes() as real)
      && (stopped ==> !v.CanSend(now, env) || SomeSendHalts(env))
      && (w.connected ==> v.CanSend(now, env))
      && (v.CanSend(now, env) && (v.plan.protocol.Udp? || !SomeSendHalts(env)) ==> w.connected)
      && (w.connected && !v.connected ==> w.retryDelay == MIN_RECONNECT)
      && (w.nextRetry == v.nextRetry || now + 0.45 <= w.nextRetry <= now + MAX_RECONNECT)
  {
    RetryDelayRange(v.plan.jitter, v.retryDelay);
    RetryDelayRange(v.plan.jitter, MIN_RECONNECT);
    hide WriteAll;
    hide SendAll;
    hide ReconnectDelayFor;
  }

  /** The base delay after so many failures in a row. */
  function DelayAfter(failures: nat): real {
    if failures == 0 then MIN_RECONNECT else RealMin(DelayAfter(failures - 1) * 2.0, MAX_RECONNECT)
  }

  lemma {:induction false} DelaysInTurn(failures: nat)
    ensures DelayAfter(failures) ==
      if failures == 0 then 0.5 else if failures == 1 then 1.0 else if failures == 2 then 2.0
      else if failures == 3 then 4.0 else 5.0
  {
    if failures > 0 { DelaysInTurn(failures - 1); }
  }

  /** A flow that fails, or loses a stream it had, waits about as long as that many failures ask for, and
      one more failure is counted. */
  lemma FailuresBackOff(v: FlowView, now: real, env: ServiceEnv, failures: nat)
    requires v.Sound() && v.Fails(now, env) && (v.CanSend(now, env) ==> v.connected)
    requires v.retryDelay == DelayAfter(failures)
    ensures var w := v.Served(now, env);
      && !w.connected && w.retryDelay == DelayAfter(failures + 1)
      && now + 0.9 * DelayAfter(failures) <= w.nextRetry <= now + RealMin(1.1 * DelayAfter(failures), 5.0)
  {
    RetryDelayRange(v.plan.jitter, v.retryDelay);
    hide WriteAll;
    hide SendAll;
    hide ReconnectDelayFor;
  }

  /** A stream that stops short without a write that would block is dropped, one is dropped only if a
      write breaks it, and the next attempt is then one delay ahead. */
  lemma BrokenStreamsAreDropped(v: FlowView, now: real, env: ServiceEnv)
    requires v.Sound() && v.plan.protocol.Tcp? && v.CanSend(now, env) && v.tokens >= 0.0
    ensures var w, stopped := v.Served(now, env), v.Reply(now, env).2;
      && (stopped && !SomeSendBlocks(env) ==> !w.connected && !w.active)
      && (w.connected ==> w.nextRetry == v.nextRetry)
      && (!w.connected ==>
            && stopped && SomeSendBreaks(env) && now + 0.45 <= w.nextRetry
            && w.retryDelay >= if v.connected then v.retryDelay else 2.0 * MIN_RECONNECT)
  {
    RetryDelayRange(v.plan.jitter, v.retryDelay);
    RetryDelayRange(v.plan.jitter, MIN_RECONNECT);
    var outcome := v.Outcome(now, env, v.tokens);
    assert outcome.Explains(env, v.tokens, v.PayloadBytes());
    if outcome.halt.Some? {
      var n :| env.send(n) == outcome.halt.value;
    }
    hide WriteAll;
    hide ReconnectDelayFor;
  }

  /** A service call of a stream: take in the connect, write, and drop the stream when it breaks. */
  lemma ServedByStream(v: FlowView, now: real, env: ServiceEnv)
    requires v.Sound() && v.plan.protocol.Tcp?
    ensures var w := v.Polled(now, env).(tokens := v.tokens - v.Outcome(now, env, v.tokens).bytes as real);
      v.Served(now, env) == if v.Loses(now, env) then w.Dropped(now) else w
    ensures v.Polled(now, env).Sound() && v.Polled(now, env).connected == v.CanSend(now, env)
  {
    RetryDelayRange(v.plan.jitter, v.retryDelay);
    hide WriteAll;
    hide SendAll;
    hide ReconnectDelayFor;
  }

  /** Refilling changes tokens and time only. */
  lemma RefillFacts(v: FlowView, now: real, env: ServiceEnv)
    requires now >= v.previous && v.tokens >= 0.0
    ensures var w := v.Refill(now);
      && w.tokens == v.Pacer().Replenish(v.tokens, now - v.previous) && w.tokens >= 0.0
      && (w.Sound() <==> v.Sound()) && (w.CanSend(now, env) <==> v.CanSend(now, env))
      && w.connected == v.connected && w.nextRetry == v.nextRetry && w.PayloadBytes() == v.PayloadBytes()
      && v.Due(now, env) == Service(now, w.Reply(now, env).0, w.Reply(now, env).1, w.Reply(now, env).2)
    ensures var w := v.After(now, env);
      && w.plan == v.plan && w.start == v.start && w.previous == now
      && (v.plan.protocol.Tcp? ==>
            w.connecting == if v.connecting then env.connectFinished.None? else !v.connected && now >= v.nextRetry)
  {
    EarnedGrows(v.Pacer(), now - v.previous);
    hide Bucket.Earned;
    hide WriteAll;
    hide SendAll;
  }

  class ScheduledFlow {
    const plan: FlowPlan
    const start: real
    var tokens: real
    var previous: real
    var active: bool
    /** The UDP socket, or the connected TCP stream. */
    var connected: bool
    var connecting: bool
    var nextRetry: real
    var retryDelay: real
    ghost var history: seq<Service>

    function PayloadBytes(): nat { Max(plan.payloadBytes, 1) }

    function PacerBucket(): (b: Bucket)
      ensures b.Valid()
    {
      Bucket(plan.bandwidthBps as real / 8.0, PayloadBytes(), start)
    }

    function View(): (v: FlowView)
      reads this
      ensures v.Pacer() == PacerBucket() && v.PayloadBytes() == PayloadBytes()
    {
      FlowView(plan, start, tokens, previous, active, connected, connecting, nextRetry, retryDelay)
    }

    ghost predicate Valid()
      reads this
    {
      && View().Sound()
      && PacerBucket().Conforming(history)
      && tokens == PacerBucket().TokensAfter(history)
      && previous == PacerBucket().LastTime(history)
      && 0.0 <= tokens <= PacerBucket().Burst()
    }

    /** Nothing sent and nothing opened yet; the first attempt may be made at once. */
    predicate IsNew(now: real)
      reads this
    {
      && !active && !connected && !connecting
      && tokens == 0.0 && previous == nextRetry == now && retryDelay == MIN_RECONNECT
    }

    /** There is something to send from in this service call: it was there, or the call gets it. */
    predicate CanSend(now: real, env: ServiceEnv)
      reads this
    {
      View().CanSend(now, env)
    }

    constructor (plan: FlowPlan, now: real)
      requires 0.0 <= plan.jitter <= 1.0
      ensures Valid() && this.plan == plan && history == [] && start == now && IsNew(now)
    {
      this.plan, start := plan, now;
      tokens, previous, active := 0.0, now, false;
      connected, connecting, nextRetry, retryDelay := false, false, now, MIN_RECONNECT;
      history := [];
    }

    /** The status counters follow this flow's active flag. */
    twostate predicate Tracks(status: AgentStatus)
      reads this`active, status
    {
      && status.activeFlows - (if active then 1 else 0) == old(status.activeFlows) - (if old(active) then 1 else 0)
      && (active != old(active) ==> status.ready == status.ShouldBeReady())
      && (active == old(active) ==> status.ready == old(status.ready) || status.ready == status.ShouldBeReady())
      && status.enabled == old(status.enabled) && status.expectedFlows == old(status.expectedFlows)
      && status.expectedListeners == old(status.expectedListeners)
      && status.activeListeners == old(status.activeListeners)
      && status.generation == old(status.generation) && status.planDigest == old(status.planDigest)
      && status.packetsSent == old(status.packetsSent) && status.bytesSent == old(status.bytesSent)
    }

    /** The service call that is due: what it sends, and whether anything but the tokens stops it. */
    ghost function Next(now: real, env: ServiceEnv): Service
      reads this
    {
      View().Due(now, env)
    }

    /** The decrement saturates at zero in the source; an active flow has been counted, so it never
        does. */
    method SetFlowActive(status: AgentStatus, value: bool)
      requires active ==> status.activeFlows > 0
      modifies this`active, status
      ensures active == value && Tracks(status)
      ensures old(active) == value ==> unchanged(status)
      ensures old(active) != value ==> status.hasError == (old(status.hasError) && !status.ready)
      ensures status.reconnects == old(status.reconnects)
    {
      if active == value { return; }
      active := value;
      if value {
        status.activeFlows := status.activeFlows + 1;
      } else {
        status.activeFlows := SaturatingSub(status.activeFlows, 1);
      }
      status.ready := status.ListenersMatch() && (!status.enabled || status.activeFlows == status.expectedFlows);
      if status.ready { status.hasError := false; }
    }

    method ScheduleRetry(now: real)
      requires MIN_RECONNECT <= retryDelay <= MAX_RECONNECT
      modifies this`nextRetry, this`retryDelay
      ensures nextRetry == now + ReconnectDelayFor(plan.jitter, old(retryDelay))
      ensures retryDelay == RealMin(old(retryDelay) * 2.0, MAX_RECONNECT)
      ensures old(retryDelay) <= retryDelay <= MAX_RECONNECT
    {
      nextRetry := now + ReconnectDelayFor(plan.jitter, retryDelay);
      retryDelay := RealMin(retryDelay * 2.0, MAX_RECONNECT);
    }

    /** Sends whole payloads while the tokens last. The flow is active after the first datagram, until
        one fails. */
    method SendDatagrams(env: ServiceEnv, status: AgentStatus)
      returns (packets: nat, bytes: nat, ghost stopped: bool)
      requires tokens >= 0.0 && (active ==> status.activeFlows > 0)
      modifies this`tokens, this`active, status
      ensures Tracks(status) && status.reconnects == old(status.reconnects)
      ensures tokens == old(tokens) - bytes as real && tokens >= 0.0
      ensures var sending := SendAll(env, 0, old(tokens), PayloadBytes());
        && packets == sending.packets && bytes == sending.bytes && stopped == sending.halt.Some?
        && active == (sending.halt != Some(SendFailed) && (old(active) || packets > 0))
        && (sending.halt == Some(SendFailed) ==> status.hasError)
        && (sending.halt != Some(SendFailed) ==> (status.hasError ==> old(status.hasError)))
    {
      hide SendAll;
      hide Sending.Explains;
      packets, bytes, stopped := 0, 0, false;
      ghost var all := SendAll(env, 0, tokens, PayloadBytes());
      while tokens >= PayloadBytes() as real
        invariant Tracks(status) && status.reconnects == old(status.reconnects)
        invariant tokens == old(tokens) - bytes as real && tokens >= 0.0
        invariant var rest := SendAll(env, packets, tokens, PayloadBytes());
          all.packets == packets + rest.packets && all.bytes == bytes + rest.bytes && all.halt == rest.halt
        invariant active == (old(active) || packets > 0)
        invariant status.hasError ==> old(status.hasError)
        decreases tokens.Floor
      {
        SendAllStep(env, packets, tokens, PayloadBytes());
        match env.send(packets) {
          case Wrote(_) =>
            SetFlowActive(status, true);
            tokens := tokens - PayloadBytes() as real;
            packets, bytes := packets + 1, bytes + PayloadBytes();
          case WouldBlock =>
            stopped := true;
            break;
          case SendFailed =>
            SetFlowActive(status, false);
            status.hasError := true;
            stopped := true;
            break;
        }
      }
      SendAllStep(env, packets, tokens, PayloadBytes());
    }

    /** Writes to the stream while the tokens last. */
    method WriteStream(env: ServiceEnv)
      returns (packets: nat, bytes: nat, ghost stopped: bool, disconnected: bool, error: bool)
      requires tokens >= 0.0
      modifies this`tokens
      ensures tokens == old(tokens) - bytes as real && tokens >= 0.0
      ensures var sending := WriteAll(env, 0, old(tokens), PayloadBytes());
        && packets == sending.packets && bytes == sending.bytes && stopped == sending.halt.Some?
        && disconnected == sending.Breaks() && error == (sending.halt == Some(SendFailed))
    {
      hide Covers;
      hide CeilDiv;
      hide WholePayloads;
      hide WriteAll;
      hide Sending.Explains;
      packets, bytes, stopped, disconnected, error := 0, 0, false, false, false;
      ghost var all := WriteAll(env, 0, tokens, PayloadBytes());
      var n := 0;
      while tokens >= PayloadBytes() as real
        invariant tokens == old(tokens) - bytes as real && tokens >= 0.0
        invariant var rest := WriteAll(env, n, tokens, PayloadBytes());
          all.packets == packets + rest.packets && all.bytes == bytes + rest.bytes && all.halt == rest.halt
        decreases tokens.Floor
      {
        var logical := WholePayloads(tokens, PayloadBytes());
        WholePayloadsFit(tokens, PayloadBytes());
        var size := Min(logical * PayloadBytes(), MAX_TCP_WRITE_BYTES);
        assert size == WriteSize(tokens, PayloadBytes());
        hide WriteSize;
        WriteAllStep(env, n, tokens, PayloadBytes());
        match env.send(n) {
          case Wrote(count) =>
            var wrote := Min(count, size);
            if wrote == 0 {
              stopped, disconnected := true, true;
              break;
            }
            tokens := tokens - wrote as real;
            packets, bytes := packets + CeilDiv(wrote, PayloadBytes()), bytes + wrote;
          case WouldBlock =>
            stopped := true;
            break;
          case SendFailed =>
            stopped, disconnected, error := true, true, true;
            break;
        }
        n := n + 1;
      }
      WriteAllStep(env, n, tokens, PayloadBytes());
    }

    /** The UDP half of a service call. */
    method ServiceSocket(now: real, env: ServiceEnv, status: AgentStatus)
      returns (packets: nat, bytes: nat, ghost stopped: bool)
      requires plan.protocol.Udp? && View().Sound() && tokens >= 0.0 && (active ==> status.activeFlows > 0)
      modifies this`tokens, this`active, this`connected, this`nextRetry, this`retryDelay, status
      ensures Tracks(status) && status.Notes(old(View()), now, env)
      ensures View() == old(View()).Served(now, env) && (packets, bytes, stopped) == old(View()).Reply(now, env)
    {
      hide WriteAll;
      hide SendAll;
      packets, bytes, stopped := 0, 0, true;
      if !connected && now >= nextRetry {
        if env.udpSetupOk {
          connected, retryDelay := true, MIN_RECONNECT;
          SetFlowActive(status, true);
        } else {
          RetryDelayRange(plan.jitter, retryDelay);
          status.hasError := true;
          ScheduleRetry(now);
        }
      }
      if connected { packets, bytes, stopped := SendDatagrams(env, status); }
    }

    /** The TCP half of a service call. */
    method ServiceStream(now: real, env: ServiceEnv, status: AgentStatus)
      returns (packets: nat, bytes: nat, ghost stopped: bool)
      requires plan.protocol.Tcp? && View().Sound() && tokens >= 0.0 && (active ==> status.activeFlows > 0)
      modifies this`tokens, this`active, this`connected, this`connecting, this`nextRetry, this`retryDelay, status
      ensures Tracks(status) && status.Notes(old(View()), now, env)
      ensures View() == old(View()).Served(now, env) && (packets, bytes, stopped) == old(View()).Reply(now, env)
    {
      hide WriteAll;
      hide SendAll;
      ServedByStream(View(), now, env);
      hide FlowView.Served;
      hide FlowView.Polled;
      hide FlowView.FailsToOpen;
      hide ReconnectDelayFor;
      packets, bytes, stopped := 0, 0, true;
      var disconnected, error := false, false;
      PollConnect(now, env, status);
      if connected { packets, bytes, stopped, disconnected, error := WriteStream(env); }
      if disconnected {
        connected := false;
        SetFlowActive(status, false);
        FailConnection(now, status, error);
      }
    }

    /** Takes the result of a finished connect, and starts one when there is none and it is time. */
    method PollConnect(now: real, env: ServiceEnv, status: AgentStatus)
      requires plan.protocol.Tcp? && View().Sound()
      modifies this`active, this`connected, this`connecting, this`nextRetry, this`retryDelay, status
      ensures View().Sound() && Tracks(status) && View() == old(View()).Polled(now, env)
      ensures active ==> old(active) || status.activeFlows > 0
      ensures old(active) ==> active && status.activeFlows == old(status.activeFlows)
      ensures nextRetry == old(nextRetry) || now + 0.45 <= nextRetry <= now + MAX_RECONNECT
      ensures connecting == (if old(connecting) then env.connectFinished.None? else !old(connected) && now >= old(nextRetry))
      ensures connected == old(CanSend(now, env))
      ensures connected && !old(connected) ==> retryDelay == MIN_RECONNECT
      ensures !old(connected) && old(connecting) && env.connectFinished == Some(false) ==>
        && retryDelay == RealMin(old(retryDelay) * 2.0, MAX_RECONNECT)
        && nextRetry == now + ReconnectDelayFor(plan.jitter, old(retryDelay))
      ensures !(old(connecting) && env.connectFinished == Some(false)) ==>
        && retryDelay == (if connected && !old(connected) then MIN_RECONNECT else old(retryDelay))
        && nextRetry == old(nextRetry)
      ensures old(connecting) && env.connectFinished == Some(false) ==> status.hasError
      ensures status.hasError ==> old(status.hasError) || (old(connecting) && env.connectFinished == Some(false))
      ensures status.reconnects
           == old(status.reconnects) + if old(connecting) && env.connectFinished == Some(false) then 1 else 0
    {
      if connecting && env.connectFinished.Some? {
        connecting := false;
        if env.connectFinished.value {
          connected, retryDelay := true, MIN_RECONNECT;
          SetFlowActive(status, true);
        } else {
          FailConnection(now, status, true);
        }
      }
      if !connected && !connecting && now >= nextRetry { connecting := true; }
    }

    /** A stream that takes nothing any more is gone without an error. */
    method FailConnection(now: real, status: AgentStatus, error: bool)
      requires MIN_RECONNECT <= retryDelay <= MAX_RECONNECT && 0.0 <= plan.jitter <= 1.0
      modifies this`nextRetry, this`retryDelay, status`hasError, status`reconnects
      ensures now + 0.45 <= nextRetry <= now + MAX_RECONNECT
      ensures nextRetry == now + ReconnectDelayFor(plan.jitter, old(retryDelay))
      ensures retryDelay == RealMin(old(retryDelay) * 2.0, MAX_RECONNECT)
      ensures status.reconnects == old(status.reconnects) + 1 && status.hasError == (old(status.hasError) || error)
    {
      RetryDelayRange(plan.jitter, retryDelay);
      if error { status.hasError := true; }
      status.reconnects := status.reconnects + 1;
      ScheduleRetry(now);
    }

    /** Refills the bucket and sends over the flow's transport. */
    method Serve(now: real, env: ServiceEnv, status: AgentStatus) returns (packets: nat, bytes: nat, ghost stopped: bool)
      requires View().Sound() && tokens >= 0.0 && now >= previous && (active ==> status.activeFlows > 0)
      modifies this`tokens, this`previous, this`active, this`connected, this`connecting, this`nextRetry, this`retryDelay, status
      ensures Tracks(status) && status.Notes(old(View()).Refill(now), now, env)
      ensures View() == old(View()).After(now, env)
      ensures (packets, bytes, stopped) == old(View()).Refill(now).Reply(now, env)
    {
      EarnedGrows(PacerBucket(), now - previous);
      hide Bucket.Earned;
      ghost var before := View();
      tokens := PacerBucket().Replenish(tokens, now - previous);
      previous := now;
      assert View() == before.Refill(now) && View().Sound() && tokens >= 0.0;
      hide Bucket.Replenish;
      hide FlowView.Served;
      hide FlowView.Reply;
      hide FlowView.Sound;
      hide Tracks;
      if plan.protocol.Udp? {
        packets, bytes, stopped := ServiceSocket(now, env, status);
      } else {
        packets, bytes, stopped := ServiceStream(now, env, status);
      }
    }

    /** One service call.  It spends only tokens it has, keeps the transport state machine valid and
        reports every change of the active flag to the status. When it can send and no send halts, it
        sends until less than one payload is left. */
    method ServiceFlow(now: real, env: ServiceEnv, status: AgentStatus)
      returns (packets: nat, bytes: nat, ghost stopped: bool)
      requires Valid() && now >= previous && (active ==> status.activeFlows > 0)
      modifies this, status
      ensures Valid() && Tracks(status)
      ensures history == old(history) + [old(Next(now, env))] && previous == now
      ensures old(Next(now, env)) == Service(now, packets, bytes, stopped)
      ensures View() == old(View()).After(now, env)
      ensures !stopped ==> tokens < PayloadBytes() as real
      ensures nextRetry == old(nextRetry) || now + 0.45 <= nextRetry <= now + MAX_RECONNECT
      ensures plan.protocol.Tcp? ==>
                connecting == (if old(connecting) then env.connectFinished.None?
                               else !old(connected) && now >= old(nextRetry))
      ensures status.Notes(old(View()).Refill(now), now, env)
      ensures connected ==> old(CanSend(now, env))
      ensures stopped ==> !old(CanSend(now, env)) || SomeSendHalts(env)
      ensures old(CanSend(now, env)) && (plan.protocol.Udp? || !SomeSendHalts(env)) ==> connected
      ensures connected && !old(connected) ==> retryDelay == MIN_RECONNECT
      ensures plan.protocol.Tcp? && old(CanSend(now, env)) ==>
        && (stopped && !SomeSendBlocks(env) ==> !connected)
        && (!connected ==> stopped && SomeSendBreaks(env) && now + 0.45 <= nextRetry)
    {
      hide Bucket.Replenish;
      hide Bucket.TokensAfter;
      hide Bucket.Conforming;
      hide Bucket.LastTime;
      hide Bucket.Burst;
      hide FlowView.Served;
      hide FlowView.Reply;
      hide FlowView.CanSend;
      hide Tracks;
      hide SomeSendHalts;
      hide SomeSendBlocks;
      hide SomeSendBreaks;
      ghost var before := View();
      RefillFacts(before, now, env);
      ServedFacts(before.Refill(now), now, env);
      if plan.protocol.Tcp? && CanSend(now, env) { BrokenStreamsAreDropped(before.Refill(now), now, env); }
      packets, bytes, stopped := Serve(now, env, status);
      Extended(PacerBucket(), history, Service(now, packets, bytes, stopped), before.tokens, tokens);
      history := history + [Service(now, packets, bytes, stopped)];
    }

    /** Each call comes within a tick of the one before. */
    static ghost predicate OnTime(from: real, times: seq<real>) {
      forall i :: 0 <= i < |times| ==> 0.0 <= times[i] - Before(from, times, i) <= SCHEDULER_TICK
    }

    static function Before(from: real, times: seq<real>, i: nat): real
      requires i <= |times|
    {
      if i == 0 then from else times[i - 1]
    }

    /** A flow that can send from the first call on, whose sends never halt and whose calls are punctual,
        stays within one payload of its rate over any run, when a payload is at most 2.5 % of the
        per-second rate. */
    method ServiceSteadily(times: seq<real>, envs: seq<ServiceEnv>, status: AgentStatus)
      requires Valid() && OnTime(previous, times) && |envs| == |times| && (active ==> status.activeFlows > 0)
      requires |times| > 0 ==> CanSend(times[0], envs[0])
      requires forall i :: 0 <= i < |envs| ==> !SomeSendHalts(envs[i])
      requires tokens < PayloadBytes() as real <= 0.025 * PacerBucket().rate
      modifies this, status
      ensures Valid() && old(history) <= history && |history| == |old(history)| + |times|
      ensures var sent, earned := TotalBytes(history[|old(history)|..]), PacerBucket().Earned(previous - old(previous));
        earned - PayloadBytes() as real < sent as real < earned + PayloadBytes() as real
    {
      ghost var bucket, before := PacerBucket(), history;
      ghost var start := |before|;
      hide Bucket.Replenish;
      hide Bucket.Earned;
      hide Bucket.Burst;
      hide Bucket.TokensAfter;
      hide Bucket.LastTime;
      hide Bucket.Conforming;
      hide FlowView.Sound;
      hide SomeSendHalts;
      hide Next;
      for i := 0 to |times|
        invariant Valid() && (active ==> status.activeFlows > 0)
        invariant if i > 0 then connected else |times| > 0 ==> CanSend(times[0], envs[0])
        invariant before <= history && |history| == start + i
        invariant previous == Before(old(previous), times, i)
        invariant bucket.Exhaustive(history, start) && bucket.Punctual(history, start)
      {
        ghost var last := history;
        ghost var packets, bytes, stopped;
        packets, bytes, stopped := ServiceFlow(times[i], envs[i], status);
        NextSteadyCall(bucket, last, Service(times[i], packets, bytes, stopped), start);
        hide Bucket.Exhaustive;
        hide Bucket.Punctual;
      }
      assert history[..start] == before;
      RateIsReached(bucket, history, start);
    }
  }

  /** The packets counted are enough for the bytes, a started payload counting as one. */
  predicate Covers(packets: nat, payload: nat, bytes: nat) { bytes <= packets * payload }

  lemma NoPackets(payload: nat)
    ensures Covers(0, payload, 0)
  {
  }

  lemma MorePackets(packets: nat, payload: nat, bytes: nat, wrote: nat)
    requires payload >= 1 && Covers(packets, payload, bytes)
    ensures Covers(packets + CeilDiv(wrote, payload), payload, bytes + wrote)
  {
    var more := CeilDiv(wrote, payload);
    CeilDivBounds(wrote, payload);
    hide CeilDiv;
    assert (packets + more) * payload == packets * payload + more * payload;
  }

  /** A retry is scheduled between 450 ms and 5 s ahead. */
  lemma RetryDelayRange(jitter: real, base: real)
    requires 0.0 <= jitter <= 1.0 && MIN_RECONNECT <= base <= MAX_RECONNECT
    ensures 0.45 <= ReconnectDelayFor(jitter, base) <= MAX_RECONNECT
    ensures 0.9 * base <= ReconnectDelayFor(jitter, base) <= 1.1 * base
  {
    var factor := JitterFactor(jitter);
    ScaledRange(base, factor);
    Shortened(base * factor, base);
  }

  lemma Shortened(delay: real, base: real)
    requires MIN_RECONNECT <= base <= MAX_RECONNECT && 0.9 * base <= delay <= 1.1 * base
    ensures 0.45 <= RealMin(delay, MAX_RECONNECT) <= MAX_RECONNECT
    ensures 0.9 * base <= RealMin(delay, MAX_RECONNECT) <= 1.1 * base
  {
  }

  lemma ScaledRange(base: real, factor: real)
    requires 0.9 <= factor <= 1.1 && base >= 0.0
    ensures 0.9 * base <= base * factor <= 1.1 * base
  {
    var up, down := factor - 0.9, 1.1 - factor;
    assert base * up >= 0.0 && base * down >= 0.0;
    assert base * factor == base * up + 0.9 * base;
    assert base * factor == 1.1 * base - base * down;
  }
}
