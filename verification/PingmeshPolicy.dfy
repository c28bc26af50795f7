/** The Pingmesh rotation policy as the Python models state it, and the native agent's own
    validation of the configuration generated from it. */
module PingmeshPolicy {
  import opened Numbers

  // ---------------------------------------------------------------- Python side

  datatype Policy = Policy(
    destinationBatchSize: Option<nat>,
    rttPortPoolSize: nat,
    rttPortsPerCycle: nat,
    cycleIntervalSeconds: nat)
  {
    /** The declared field bounds. */
    predicate WellFormed() {
      && (destinationBatchSize.Some? ==> destinationBatchSize.value >= 1)
      && rttPortPoolSize >= 1 && rttPortsPerCycle >= 1 && cycleIntervalSeconds >= 1
    }

    function BatchSize(clientCount: int): nat {
      var destinations := Max(0, clientCount - 1);
      if destinationBatchSize.Some? && destinationBatchSize.value != 0 then destinationBatchSize.value
      else Max(1, destinations)
    }

    function DestinationBatchCount(clientCount: int): nat {
      Max(1, CeilDiv(Max(0, clientCount - 1), BatchSize(clientCount)))
    }

    function PortBatchCount(): nat
      requires rttPortsPerCycle > 0
    {
      Max(1, CeilDiv(rttPortPoolSize, rttPortsPerCycle))
    }

    function CoverageEpochCycles(clientCount: int): nat
      requires rttPortsPerCycle > 0
    {
      DestinationBatchCount(clientCount) * PortBatchCount()
    }

    function CoverageEpochSeconds(clientCount: int): nat
      requires rttPortsPerCycle > 0
    {
      CoverageEpochCycles(clientCount) * cycleIntervalSeconds
    }

    function CoverageGraceSeconds(): nat {
      Max(5, 2 * cycleIntervalSeconds)
    }

    function CompleteWindowSeconds(clientCount: int): nat
      requires rttPortsPerCycle > 0
    {
      CoverageEpochSeconds(clientCount) + CoverageGraceSeconds()
    }
  }

  // ---------------------------------------------------------------- native agent side

  const CONFIG_SCHEMA_VERSION := 1

  datatype AgentPolicy = AgentPolicy(
    destinationBatchSize: Option<nat>,
    rttPortPoolSize: nat,
    rttPortsPerCycle: nat,
    cycleIntervalSeconds: real,
    destinationBatchCount: nat,
    portBatchCount: nat,
    coverageEpochCycles: nat,
    coverageEpochSeconds: nat)

  datatype AgentConfig = AgentConfig(schemaVersion: int, clientCount: nat, policy: AgentPolicy)

  datatype ConfigError =
    | UnsupportedSchema
    | TooFewClients
    | InvalidSourcePorts
    | StaleCoveragePolicy
    | NonPositiveInterval
    | StaleCoverageDuration

  /** `Option::unwrap_or(..).clamp(1, destinations)`. */
  function ClampedBatchSize(configured: Option<nat>, destinations: nat): (size: nat)
    requires destinations >= 1
    ensures 1 <= size <= destinations
  {
    var wanted := if configured.Some? then configured.value else destinations;
    Min(Max(wanted, 1), destinations)
  }

  function Validate(config: AgentConfig): Result<(), ConfigError> {
    var p := config.policy;
    if config.schemaVersion != CONFIG_SCHEMA_VERSION then Err(UnsupportedSchema)
    else if config.clientCount < 2 then Err(TooFewClients)
    else
      var destinations := config.clientCount - 1;
      var batches := CeilDiv(destinations, ClampedBatchSize(p.destinationBatchSize, destinations));
      if p.rttPortPoolSize == 0 || p.rttPortsPerCycle == 0 || p.rttPortsPerCycle > p.rttPortPoolSize then
        Err(InvalidSourcePorts)
      else
        var portBatches := CeilDiv(p.rttPortPoolSize, p.rttPortsPerCycle);
        if batches != p.destinationBatchCount || portBatches != p.portBatchCount
           || batches * portBatches != p.coverageEpochCycles then
          Err(StaleCoveragePolicy)
        else if p.cycleIntervalSeconds <= 0.0 then Err(NonPositiveInterval)
        else if p.coverageEpochSeconds
                != RealCeil(p.coverageEpochCycles as real * p.cycleIntervalSeconds) then
          Err(StaleCoverageDuration)
        else Ok(())
  }

  /** The configuration file written for the agents of a topology. */
  function BuildAgentConfig(policy: Policy, clientCount: nat): AgentConfig
    requires policy.WellFormed()
  {
    AgentConfig(CONFIG_SCHEMA_VERSION, clientCount, AgentPolicy(
      policy.destinationBatchSize, policy.rttPortPoolSize, policy.rttPortsPerCycle,
      policy.cycleIntervalSeconds as real,
      policy.DestinationBatchCount(clientCount), policy.PortBatchCount(),
      policy.CoverageEpochCycles(clientCount), policy.CoverageEpochSeconds(clientCount)))
  }

  // ---------------------------------------------------------------- agreement

  /** Every field may be as small as one, and the batch size may be missing. */
  lemma LeastPolicies()
    ensures Policy(Some(1), 1, 1, 1).WellFormed() && Policy(None, 1, 1, 1).WellFormed()
    ensures forall p: Policy :: p.WellFormed() ==>
      p.destinationBatchSize != Some(0) && p.rttPortPoolSize > 0 && p.rttPortsPerCycle > 0 && p.cycleIntervalSeconds > 0
  {
  }

  /** Without a configured size there is a single batch, of all other clients; and one batch is the least
      there can be. */
  lemma DefaultIsOneBatch(policy: Policy, clientCount: nat)
    requires policy.WellFormed() && policy.destinationBatchSize.None?
    ensures policy.DestinationBatchCount(clientCount) == 1
    ensures clientCount >= 2 ==> policy.BatchSize(clientCount) == clientCount - 1
    ensures clientCount < 2 ==> policy.BatchSize(clientCount) == 1
  {
    if clientCount >= 2 { CeilDivUnique(clientCount - 1, clientCount - 1, 1); }
  }

  /** With no other client there is one batch, whatever the size. */
  lemma NobodyToProbe(policy: Policy, clientCount: nat)
    requires clientCount <= 1
    ensures policy.DestinationBatchCount(clientCount) == 1
  {
  }

  /** The grace is two intervals, and five seconds at the least. */
  lemma GraceIsTwoIntervals(policy: Policy)
    ensures policy.cycleIntervalSeconds >= 3 ==> policy.CoverageGraceSeconds() == policy.cycleIntervalSeconds + policy.cycleIntervalSeconds
    ensures policy.cycleIntervalSeconds < 3 ==> policy.CoverageGraceSeconds() == 5
  {
  }

  /** What the agent accepts, for any configuration. */
  lemma AcceptedConfigs(config: AgentConfig)
    ensures Validate(config).Ok? <==>
      var p := config.policy;
      && config.schemaVersion == 1 && config.clientCount >= 2
      && 1 <= p.rttPortsPerCycle <= p.rttPortPoolSize
      && p.destinationBatchCount == CeilDiv(config.clientCount - 1, ClampedBatchSize(p.destinationBatchSize, config.clientCount - 1))
      && p.portBatchCount == CeilDiv(p.rttPortPoolSize, p.rttPortsPerCycle)
      && p.coverageEpochCycles == p.destinationBatchCount * p.portBatchCount
      && p.cycleIntervalSeconds > 0.0
      && p.coverageEpochSeconds as real >= p.coverageEpochCycles as real * p.cycleIntervalSeconds > p.coverageEpochSeconds as real - 1.0
  {
    hide CeilDiv;
    hide ClampedBatchSize;
  }

  /** Clamping a batch size to the number of destinations does not change the batch count. */
  lemma ClampKeepsBatchCount(policy: Policy, clientCount: nat)
    requires policy.WellFormed() && clientCount >= 2
    ensures CeilDiv(clientCount - 1, ClampedBatchSize(policy.destinationBatchSize, clientCount - 1))
         == policy.DestinationBatchCount(clientCount)
  {
    var t := clientCount - 1;
    var wanted := policy.BatchSize(clientCount);
    if wanted > t {
      CeilDivUnique(t, wanted, 1);
      CeilDivUnique(t, t, 1);
    }
  }

  /** Both sides of the wire compute the same rotation: the agent accepts the configuration
      generated from a well-formed policy exactly when there are two clients to probe between and
      the per-cycle port slice fits the pool.  The Python model does not check the second. */
  lemma AgentAcceptsGeneratedConfig(policy: Policy, clientCount: nat)
    requires policy.WellFormed()
    ensures Validate(BuildAgentConfig(policy, clientCount)).Ok?
       <==> clientCount >= 2 && policy.rttPortsPerCycle <= policy.rttPortPoolSize
  {
    if clientCount >= 2 {
      ClampKeepsBatchCount(policy, clientCount);
      var cycles := policy.CoverageEpochCycles(clientCount);
      var seconds := policy.CoverageEpochSeconds(clientCount);
      assert cycles as real * policy.cycleIntervalSeconds as real == seconds as real;
      assert RealCeil(seconds as real) == seconds;
    }
  }

  /** A destination batch count never exceeds the destinations, and batches of that many strides
      respect the configured size. */
  lemma BatchCountBounds(policy: Policy, clientCount: nat)
    requires policy.WellFormed() && clientCount >= 2
    ensures 1 <= policy.DestinationBatchCount(clientCount) <= clientCount - 1
    ensures CeilDiv(clientCount - 1, policy.DestinationBatchCount(clientCount))
         <= policy.BatchSize(clientCount)
  {
    var t, size := clientCount - 1, policy.BatchSize(clientCount);
    CeilDivAtMost(t, size);
    StrideAtMost(t, CeilDiv(t, size), 0, size);
  }
}
