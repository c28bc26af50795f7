/** Agent, policy and auditor together: any window of the advertised length is complete. */
module CoverageWindow {
  import opened Numbers
  import opened PingmeshPolicy
  import opened ProbeSchedule
  import opened CoverageAudit

  /** One client's agent: when its cycle 0 ticks, and the stable hash of its name. */
  datatype Agent = Agent(firstTick: real, hostSeed: nat)

  /** A row with the time it is stored under, the agent and cycle that emitted it. */
  datatype Sample = Sample(time: real, agent: nat, cycle: nat, row: Row)

  datatype Fleet = Fleet(policy: Policy, clients: seq<Client>, agents: seq<Agent>)
  {
    /** A topology whose generated configuration the agents accept. */
    ghost predicate Valid() {
      && policy.WellFormed() && |clients| == |agents| && DistinctNames(clients)
      && (forall c :: c in clients ==> c.name != "")
      && Validate(BuildAgentConfig(policy, |clients|)).Ok?
    }

    function Interval(): nat { policy.cycleIntervalSeconds }

    /** The inputs of client `i`'s probe loop; the accepted configuration makes them valid. */
    function SourceOf(i: nat): (s: Source)
      requires Valid() && i < |clients|
      ensures s.Valid()
    {
      AgentAcceptsGeneratedConfig(policy, |clients|);
      ClampKeepsBatchCount(policy, |clients|);
      Source(clients, i, ClampedBatchSize(policy.destinationBatchSize, |clients| - 1),
             policy.DestinationBatchCount(|clients|), policy.rttPortPoolSize, policy.rttPortsPerCycle,
             policy.PortBatchCount(), agents[i].hostSeed)
    }

    /** No tick is missed: cycle `c` ticks exactly `c` intervals after cycle 0. */
    function Tick(i: nat, cycle: nat): real
      requires i < |agents|
    {
      agents[i].firstTick + (cycle * Interval()) as real
    }

    function Names(): (names: seq<string>)
      ensures |names| == |clients| && forall i :: 0 <= i < |clients| ==> names[i] == clients[i].name
    {
      seq(|clients|, i requires 0 <= i < |clients| => clients[i].name)
    }

    /** The policy as the topology projection hands it to the detector. */
    function DetectorPolicy(): AuditPolicy
      requires Valid()
    {
      AuditPolicy(Some(policy.destinationBatchSize), Some(policy.rttPortPoolSize), Some(policy.rttPortsPerCycle),
                  Some(policy.CoverageEpochCycles(|clients|)))
    }

    /** The end of a window of one epoch and `grace` that opens at `from`. */
    function WindowEnd(from: real, grace: nat): real
      requires Valid()
    {
      from + (policy.CoverageEpochSeconds(|clients|) + grace) as real
    }

    /** The end of the advertised complete window that opens at `from`. */
    function CompleteWindowEnd(from: real): real
      requires Valid()
    {
      from + policy.CompleteWindowSeconds(|clients|) as real
    }

    /** Every agent has started by the end of the window's grace. */
    ghost predicate StartedFor(from: real, grace: nat) {
      forall a :: a in agents ==> a.firstTick <= from + grace as real
    }

    function TallyOf(rows: seq<Row>): Coverage
      requires Valid()
    {
      Tally(|clients|, policy.DestinationBatchCount(|clients|), policy.rttPortPoolSize, policy.rttPortsPerCycle,
            policy.PortBatchCount(), rows)
    }

    /** The row agent `i` writes about `target` in `cycle`, when no probe failed locally. */
    ghost predicate Emits(i: nat, cycle: nat, target: Client, row: Row)
      requires Valid()
    {
      && i < |clients|
      && var s := SourceOf(i);
      && IsActive(s.ActiveTargets(cycle), target)
      && row.srcName == Some(clients[i].name) && row.dstName == Some(target.name)
      && row.probeCycle == Some(cycle)
      && row.destinationBatch == Some(s.CycleSlot(cycle).0) && row.portBatch == Some(s.CycleSlot(cycle).1)
      && row.portsTotal == Some(s.portPool) && row.portsActive == Some(s.PortEnd(cycle) - s.PortStart(cycle))
      && row.localErrors == Some(0)
    }

    /** The stored samples are exactly what the agents emitted, as far as the window can see: every
        sample comes from a cycle of its agent and is stored within that cycle, and a cycle that is
        over by `horizon` has stored a row for each of its active targets. */
    ghost predicate Stored(log: seq<Sample>, horizon: real)
      requires Valid()
    {
      && (forall x :: x in log ==>
            && x.agent < |clients| && Tick(x.agent, x.cycle) <= x.time < Tick(x.agent, x.cycle + 1)
            && exists target :: Emits(x.agent, x.cycle, target, x.row))
      && (forall i, cycle, target ::
            0 <= i < |clients| && 0 <= cycle && Tick(i, cycle + 1) <= horizon
            && IsActiveTarget(this, i, cycle, target) ==>
              HasSample(this, log, i, cycle, target))
    }
  }

  ghost predicate IsActiveTarget(f: Fleet, i: nat, cycle: nat, target: Client)
    requires f.Valid() && i < |f.clients|
  {
    IsActive(f.SourceOf(i).ActiveTargets(cycle), target)
  }

  ghost predicate HasSample(f: Fleet, log: seq<Sample>, i: nat, cycle: nat, target: Client)
    requires f.Valid()
  {
    exists x :: x in log && x.agent == i && x.cycle == cycle && f.Emits(i, cycle, target, x.row)
  }

  /** The rows a query for the half-open window `[from, to)` returns. */
  function WindowRows(log: seq<Sample>, from: real, to: real): (rows: seq<Row>)
    ensures forall row :: row in rows <==> exists x :: x in log && from <= x.time < to && x.row == row
  {
    if log == [] then []
    else
      var last := log[|log| - 1];
      assert log == log[..|log| - 1] + [last];
      WindowRows(log[..|log| - 1], from, to) + (if from <= last.time < to then [last.row] else [])
  }

  // ---------------------------------------------------------------- window alignment

  /** A window of one epoch plus `grace` contains an epoch's worth of whole cycles of every agent
      that had started by the end of the grace, whatever its tick phase, once the grace is at least
      one interval. */
  lemma WholeEpochInside(f: Fleet, i: nat, epoch: nat, grace: nat, from: real) returns (first: nat)
    requires i < |f.agents| && f.Interval() > 0 && grace >= f.Interval()
    requires f.agents[i].firstTick <= from + grace as real
    ensures from <= f.Tick(i, first)
    ensures f.Tick(i, first + epoch) <= from + (epoch * f.Interval() + grace) as real
  {
    var late := from - f.agents[i].firstTick;
    if late <= 0.0 {
      first := 0;
    } else {
      var ticks := RealCeil(late);
      first := CeilDiv(ticks, f.Interval());
      CeilDivBounds(ticks, f.Interval());
    }
    MulDistributes(first, epoch, f.Interval());
  }

  lemma MulDistributes(a: int, b: int, c: int)
    ensures (a + b) * c == a * c + b * c
  {
  }

  // ---------------------------------------------------------------- rows inside the window

  /** Inside the window, some whole cycle of agent `i` is on any given slot. */
  lemma SlotSeenInside(f: Fleet, i: nat, slot: (nat, nat), from: real, grace: nat) returns (cycle: nat)
    requires f.Valid() && i < |f.clients| && grace >= f.Interval()
    requires f.agents[i].firstTick <= from + grace as real
    requires slot.0 < f.SourceOf(i).batchCount && slot.1 < f.SourceOf(i).portBatchCount
    ensures from <= f.Tick(i, cycle)
    ensures f.Tick(i, cycle + 1) <= f.WindowEnd(from, grace)
    ensures f.SourceOf(i).CycleSlot(cycle) == slot
  {
    var s := f.SourceOf(i);
    var epoch := s.batchCount * s.portBatchCount;
    var first := WholeEpochInside(f, i, epoch, grace, from);
    cycle := SlotOnAir(s, first, slot);
    MulLe(first, cycle, f.Interval());
    MulLe(cycle + 1, first + epoch, f.Interval());
  }

  /** Every emitted row passes the auditor's socket-batch test. */
  lemma EmittedRowIsValid(f: Fleet, i: nat, cycle: nat, target: Client, row: Row, rows: seq<Row>)
    requires f.Valid() && f.Emits(i, cycle, target, row)
    ensures ValidSocketBatch(row, f.policy.rttPortPoolSize, f.policy.rttPortsPerCycle, f.policy.PortBatchCount(), rows)
  {
    var s := f.SourceOf(i);
    PortSliceFits(s, cycle);
  }

  /** ... and names two distinct clients. */
  lemma EmittedRowNamesPair(f: Fleet, i: nat, cycle: nat, target: Client, row: Row)
    requires f.Valid() && f.Emits(i, cycle, target, row)
    ensures Truthy(row.srcName) && Truthy(row.dstName)
    ensures row.srcName.value in f.Names() && row.dstName.value in f.Names()
    ensures row.srcName.value != row.dstName.value
  {
    ActiveClient(f.SourceOf(i), cycle, target);
    hide Source.ActiveTargets;
    hide Source.CycleSlot;
    hide Source.DestinationBatchOf;
    hide Source.PortStart;
    hide Source.PortEnd;
    var j :| 0 <= j < |f.clients| && f.clients[j] == target;
    assert f.Names()[j] == target.name && f.Names()[i] == f.clients[i].name;
  }

  lemma EmittedRowsNameKnownPairs(f: Fleet, log: seq<Sample>, horizon: real, from: real)
    requires f.Valid() && f.Stored(log, horizon)
    ensures NamesKnownPairs(f.Names(), WindowRows(log, from, horizon))
    ensures EveryCycleRowValid(f.policy.rttPortPoolSize, f.policy.rttPortsPerCycle, f.policy.PortBatchCount(),
                               WindowRows(log, from, horizon))
  {
    var rows := WindowRows(log, from, horizon);
    forall row | row in rows
      ensures EmittedBySome(f, row)
    {
      var x :| x in log && from <= x.time < horizon && x.row == row;
      var target :| f.Emits(x.agent, x.cycle, target, row);
    }
    hide Fleet.Stored;
    hide WindowRows;
    forall row | row in rows
      ensures Truthy(row.srcName) && Truthy(row.dstName)
      ensures row.srcName.value in f.Names() && row.dstName.value in f.Names()
      ensures row.srcName.value != row.dstName.value
      ensures ValidSocketBatch(row, f.policy.rttPortPoolSize, f.policy.rttPortsPerCycle, f.policy.PortBatchCount(),
                               CycleRows(rows))
    {
      var i, cycle, target :| f.Emits(i, cycle, target, row);
      hide Fleet.Emits;
      EmittedRowIsValid(f, i, cycle, target, row, CycleRows(rows));
      EmittedRowNamesPair(f, i, cycle, target, row);
      hide ValidSocketBatch;
    }
  }

  ghost predicate EmittedBySome(f: Fleet, row: Row)
    requires f.Valid()
  {
    exists i, cycle, target :: f.Emits(i, cycle, target, row)
  }

  /** Some row inside the window reports on `target` from agent `i` with the given port batch. */
  lemma CombinationSeen(f: Fleet, log: seq<Sample>, from: real, grace: nat, i: nat, j: nat, port: nat)
    requires f.Valid() && i < |f.clients| && j < |f.clients| && i != j && port < f.policy.PortBatchCount()
    requires grace >= f.Interval() && f.agents[i].firstTick <= from + grace as real
    requires f.Stored(log, f.WindowEnd(from, grace))
    ensures var rows := WindowRows(log, from, f.WindowEnd(from, grace));
      && Seen(rows, f.clients[i].name, f.clients[j].name, port)
      && f.SourceOf(i).DestinationBatchOf(f.clients[j]) in DestinationBatches(rows)
  {
    var s, target := f.SourceOf(i), f.clients[j];
    var to := f.WindowEnd(from, grace);
    var slot := (s.DestinationBatchOf(target), port);
    var cycle := SlotSeenInside(f, i, slot, from, grace);
    ActiveClient(s, cycle, target);
    assert IsActiveTarget(f, i, cycle, target);
    hide Source.ActiveTargets;
    hide Source.CycleSlot;
    hide Source.DestinationBatchOf;
    var row := RowInWindow(f, log, from, to, i, cycle, target);
  }

  lemma RowInWindow(f: Fleet, log: seq<Sample>, from: real, to: real, i: nat, cycle: nat, target: Client)
    returns (row: Row)
    requires f.Valid() && i < |f.clients| && f.Stored(log, to) && IsActiveTarget(f, i, cycle, target)
    requires from <= f.Tick(i, cycle) && f.Tick(i, cycle + 1) <= to
    ensures row in WindowRows(log, from, to) && f.Emits(i, cycle, target, row)
  {
    hide Source.ActiveTargets;
    hide Source.CycleSlot;
    hide Fleet.Emits;
    assert HasSample(f, log, i, cycle, target);
    var x :| x in log && x.agent == i && x.cycle == cycle && f.Emits(i, cycle, target, x.row);
    row := x.row;
  }

  // ---------------------------------------------------------------- the end-to-end theorem

  /** The window is audited, and found complete. */
  ghost predicate AuditedComplete(f: Fleet, log: seq<Sample>, from: real, to: real)
    requires f.Valid()
  {
    var summary := SummarizeCoverage(f.Names(), f.DetectorPolicy(), WindowRows(log, from, to));
    summary.Ok? && summary.value.complete
  }

  /** Any half-open window of an epoch and at least one interval of grace is audited complete: for
      every accepted policy, every tick phase and start of every agent up to the end of the grace, and
      every host seed, provided no tick is missed, each row is stored within its own cycle and no probe
      failed locally. */
  lemma AnyLongWindowIsComplete(f: Fleet, log: seq<Sample>, from: real, grace: nat)
    requires f.Valid() && grace >= f.Interval()
    requires f.StartedFor(from, grace)
    requires f.Stored(log, f.WindowEnd(from, grace))
    ensures AuditedComplete(f, log, from, f.WindowEnd(from, grace))
  {
    var rows := WindowRows(log, from, f.WindowEnd(from, grace));
    assert AuditedComplete(f, log, from, f.WindowEnd(from, grace)) <==>
      SummarizeCoverage(f.Names(), f.DetectorPolicy(), rows).Ok?
      && SummarizeCoverage(f.Names(), f.DetectorPolicy(), rows).value.complete;
    hide *;
    SummaryIsTally(f, rows);
    EmittedRowsNameKnownPairs(f, log, f.WindowEnd(from, grace), from);
    AllCombinationsSeen(f, log, from, grace);
    AllDestinationBatchesSeen(f, log, from, grace);
    TallyComplete(f, rows);
  }

  /** So is any window of `complete_window_seconds`. */
  lemma AnyFullWindowIsComplete(f: Fleet, log: seq<Sample>, from: real)
    requires f.Valid()
    requires f.StartedFor(from, f.policy.CoverageGraceSeconds())
    requires f.Stored(log, f.CompleteWindowEnd(from))
    ensures AuditedComplete(f, log, from, f.CompleteWindowEnd(from))
  {
    hide *;
    FullWindowEnd(f, from);
    AnyLongWindowIsComplete(f, log, from, f.policy.CoverageGraceSeconds());
  }

  lemma FullWindowEnd(f: Fleet, from: real)
    requires f.Valid()
    ensures f.policy.CoverageGraceSeconds() >= f.Interval()
    ensures f.CompleteWindowEnd(from) == f.WindowEnd(from, f.policy.CoverageGraceSeconds())
  {
  }

  lemma TallyComplete(f: Fleet, rows: seq<Row>)
    requires f.Valid() && NamesKnownPairs(f.Names(), rows)
    requires EveryCombinationSeen(f.Names(), f.policy.PortBatchCount(), rows)
    requires EveryDestinationBatchSeen(f.policy.DestinationBatchCount(|f.clients|), rows)
    requires EveryCycleRowValid(f.policy.rttPortPoolSize, f.policy.rttPortsPerCycle, f.policy.PortBatchCount(), rows)
    ensures f.TallyOf(rows).complete
  {
    SummaryIsTally(f, rows);
    hide Tally;
    hide EveryCombinationSeen;
    hide EveryDestinationBatchSeen;
    hide EveryCycleRowValid;
    hide NamesKnownPairs;
    hide SummarizeCoverage;
    CompleteMeansEverythingSeen(f.Names(), f.policy.DestinationBatchCount(|f.clients|), f.policy.rttPortPoolSize,
                                f.policy.rttPortsPerCycle, f.policy.PortBatchCount(), rows);
  }

  /** The detector recomputes the batch counts of the topology. */
  lemma SummaryIsTally(f: Fleet, rows: seq<Row>)
    requires f.Valid()
    ensures f.policy.PortBatchCount() >= 1
    ensures |f.Names()| >= 2 && DistinctStrings(f.Names()) && "" !in f.Names()
    ensures SummarizeCoverage(f.Names(), f.DetectorPolicy(), rows) == Ok(f.TallyOf(rows))
  {
    hide Tally;
  }

  lemma AllCombinationsSeen(f: Fleet, log: seq<Sample>, from: real, grace: nat)
    requires f.Valid() && grace >= f.Interval()
    requires f.StartedFor(from, grace)
    requires f.Stored(log, f.WindowEnd(from, grace))
    ensures EveryCombinationSeen(f.Names(), f.policy.PortBatchCount(),
              WindowRows(log, from, f.WindowEnd(from, grace)))
  {
    var rows := WindowRows(log, from, f.WindowEnd(from, grace));
    forall source, destination, port |
      source in f.Names() && destination in f.Names() && source != destination
      && 0 <= port < f.policy.PortBatchCount()
      ensures Seen(rows, source, destination, port)
    {
      var i :| 0 <= i < |f.clients| && f.Names()[i] == source;
      var j :| 0 <= j < |f.clients| && f.Names()[j] == destination;
      assert f.agents[i] in f.agents;
      CombinationSeen(f, log, from, grace, i, j, port);
    }
  }

  lemma AllDestinationBatchesSeen(f: Fleet, log: seq<Sample>, from: real, grace: nat)
    requires f.Valid() && grace >= f.Interval()
    requires f.StartedFor(from, grace)
    requires f.Stored(log, f.WindowEnd(from, grace))
    ensures EveryDestinationBatchSeen(f.policy.DestinationBatchCount(|f.clients|),
              WindowRows(log, from, f.WindowEnd(from, grace)))
  {
    var rows := WindowRows(log, from, f.WindowEnd(from, grace));
    var s := f.SourceOf(0);
    forall b | 0 <= b < s.batchCount ensures b in DestinationBatches(rows) {
      var j := ClientOfBatch(s, b);
      assert f.agents[0] in f.agents;
      CombinationSeen(f, log, from, grace, 0, j, 0);
    }
  }

  /** Every destination batch has a client in it. */
  lemma ClientOfBatch(s: Source, b: nat) returns (j: nat)
    requires s.Valid() && b < s.batchCount
    ensures j < |s.clients| && j != s.at && s.DestinationBatchOf(s.clients[j]) == b
  {
    var cycle := SlotOnAir(s, 0, (b, 0));
    PortSliceFits(s, cycle);
    CeilDivAtMost(|s.clients| - 1, s.batchSize);
    BatchSizesEven(s.Targets(), s.batchSize, b, s.at);
    var c := s.ActiveTargets(cycle)[0].client;
    assert IsActive(s.ActiveTargets(cycle), c);
    ActiveClient(s, cycle, c);
    j := s.IndexOf(c);
  }
}
