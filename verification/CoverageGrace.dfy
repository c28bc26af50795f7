/** Why a complete window needs an interval of grace: with less, some run of valid agents is audited
    incomplete. */
module CoverageGrace {
  import opened Numbers
  import opened PingmeshPolicy
  import opened ProbeSchedule
  import opened CoverageAudit
  import opened CoverageWindow

  // ---------------------------------------------------------------- a log of prompt agents

  /** The row agent `i` writes about `target` in `cycle`, when every probe comes back. */
  function RowOf(f: Fleet, i: nat, cycle: nat, target: Client): Row
    requires f.Valid() && i < |f.clients|
  {
    var s := f.SourceOf(i);
    var ports := s.PortEnd(cycle) - s.PortStart(cycle);
    Row(Some(f.clients[i].name), Some(target.name), None, None, Some(cycle),
        Some(s.CycleSlot(cycle).0), Some(s.CycleSlot(cycle).1), Some(s.portPool), Some(ports),
        Some(ports), Some(0), Some(0), Some(0))
  }

  /** The samples of one cycle, stored at its tick. */
  function CycleLog(f: Fleet, i: nat, cycle: nat): seq<Sample>
    requires f.Valid() && i < |f.clients|
  {
    var active := f.SourceOf(i).ActiveTargets(cycle);
    seq(|active|, k requires 0 <= k < |active| => Sample(f.Tick(i, cycle), i, cycle, RowOf(f, i, cycle, active[k].client)))
  }

  function AgentLog(f: Fleet, i: nat, cycles: nat): seq<Sample>
    requires f.Valid() && i < |f.clients|
  {
    if cycles == 0 then [] else AgentLog(f, i, cycles - 1) + CycleLog(f, i, cycles - 1)
  }

  /** The first `cycles` cycles of the first `n` agents. */
  function FleetLog(f: Fleet, n: nat, cycles: nat): seq<Sample>
    requires f.Valid() && n <= |f.clients|
  {
    if n == 0 then [] else FleetLog(f, n - 1, cycles) + AgentLog(f, n - 1, cycles)
  }

  ghost predicate IsPrompt(f: Fleet, x: Sample)
    requires f.Valid()
  {
    && x.agent < |f.clients| && x.time == f.Tick(x.agent, x.cycle)
    && exists target :: IsActiveTarget(f, x.agent, x.cycle, target) && x.row == RowOf(f, x.agent, x.cycle, target)
  }

  lemma CycleLogHas(f: Fleet, i: nat, cycle: nat)
    requires f.Valid() && i < |f.clients|
    ensures forall x :: x in CycleLog(f, i, cycle) ==> x.agent == i && x.cycle == cycle && IsPrompt(f, x)
    ensures forall target :: IsActiveTarget(f, i, cycle, target) ==>
              Sample(f.Tick(i, cycle), i, cycle, RowOf(f, i, cycle, target)) in CycleLog(f, i, cycle)
  {
    var active, log := f.SourceOf(i).ActiveTargets(cycle), CycleLog(f, i, cycle);
    hide Source.ActiveTargets;
    hide RowOf;
    hide Fleet.Tick;
    forall x | x in log ensures x.agent == i && x.cycle == cycle && IsPrompt(f, x) {
      var k :| 0 <= k < |log| && log[k] == x;
      assert IsActiveTarget(f, i, cycle, active[k].client);
    }
    forall target | IsActiveTarget(f, i, cycle, target)
      ensures Sample(f.Tick(i, cycle), i, cycle, RowOf(f, i, cycle, target)) in log
    {
      var k :| 0 <= k < |active| && active[k].client == target;
      assert log[k] == Sample(f.Tick(i, cycle), i, cycle, RowOf(f, i, cycle, target));
    }
  }

  lemma {:induction false} AgentLogHas(f: Fleet, i: nat, cycles: nat)
    requires f.Valid() && i < |f.clients|
    ensures forall x :: x in AgentLog(f, i, cycles) ==> x.agent == i && x.cycle < cycles && IsPrompt(f, x)
    ensures forall cycle: nat, target :: cycle < cycles && IsActiveTarget(f, i, cycle, target) ==>
              Sample(f.Tick(i, cycle), i, cycle, RowOf(f, i, cycle, target)) in AgentLog(f, i, cycles)
  {
    hide CycleLog;
    hide IsPrompt;
    hide IsActiveTarget;
    hide RowOf;
    hide Fleet.Tick;
    if cycles > 0 {
      AgentLogHas(f, i, cycles - 1);
      CycleLogHas(f, i, cycles - 1);
    }
  }

  lemma {:induction false} FleetLogHas(f: Fleet, n: nat, cycles: nat)
    requires f.Valid() && n <= |f.clients|
    ensures forall x :: x in FleetLog(f, n, cycles) ==> x.cycle < cycles && IsPrompt(f, x)
    ensures forall i: nat, cycle: nat, target :: i < n && cycle < cycles && IsActiveTarget(f, i, cycle, target) ==>
              Sample(f.Tick(i, cycle), i, cycle, RowOf(f, i, cycle, target)) in FleetLog(f, n, cycles)
  {
    hide AgentLog;
    hide IsPrompt;
    hide IsActiveTarget;
    hide RowOf;
    hide Fleet.Tick;
    if n > 0 {
      FleetLogHas(f, n - 1, cycles);
      AgentLogHas(f, n - 1, cycles);
    }
  }

  lemma RowOfIsEmitted(f: Fleet, i: nat, cycle: nat, target: Client)
    requires f.Valid() && i < |f.clients| && IsActiveTarget(f, i, cycle, target)
    ensures f.Emits(i, cycle, target, RowOf(f, i, cycle, target))
  {
    hide Source.ActiveTargets;
    hide Source.CycleSlot;
    hide Source.PortStart;
    hide Source.PortEnd;
  }

  lemma OneTickLater(f: Fleet, i: nat, cycle: nat)
    requires i < |f.agents|
    ensures f.Tick(i, cycle + 1) == f.Tick(i, cycle) + f.Interval() as real
  {
    MulDistributes(cycle, 1, f.Interval());
  }

  /** Rows stored at the tick of their cycle are what a window sees that closes before cycle `cycles`
      of any agent is over. */
  lemma PromptLogIsStored(f: Fleet, cycles: nat, horizon: real)
    requires f.Valid()
    requires forall i: nat, cycle: nat :: i < |f.agents| && IsOver(f, i, cycle, horizon) ==> cycle < cycles
    ensures f.Stored(FleetLog(f, |f.clients|, cycles), horizon)
  {
    hide FleetLog;
    hide RowOf;
    hide Fleet.Emits;
    hide Fleet.Tick;
    hide IsPrompt;
    hide IsActiveTarget;
    hide HasSample;
    var log := FleetLog(f, |f.clients|, cycles);
    FleetLogHas(f, |f.clients|, cycles);
    forall x | x in log
      ensures x.agent < |f.clients| && f.Tick(x.agent, x.cycle) <= x.time < f.Tick(x.agent, x.cycle + 1)
      ensures exists target :: f.Emits(x.agent, x.cycle, target, x.row)
    {
      PromptIsEmitted(f, x);
    }
    forall i: nat, cycle: nat, target |
      i < |f.clients| && IsOver(f, i, cycle, horizon) && IsActiveTarget(f, i, cycle, target)
      ensures HasSample(f, log, i, cycle, target)
    {
      PromptIsSample(f, log, i, cycle, target);
    }
    assert forall i: nat, cycle: nat :: i < |f.clients| && f.Tick(i, cycle + 1) <= horizon ==> IsOver(f, i, cycle, horizon);
  }

  ghost predicate IsOver(f: Fleet, i: nat, cycle: nat, horizon: real)
    requires i < |f.agents|
  {
    f.Tick(i, cycle + 1) <= horizon
  }

  lemma PromptIsEmitted(f: Fleet, x: Sample)
    requires f.Valid() && IsPrompt(f, x)
    ensures x.agent < |f.clients| && f.Tick(x.agent, x.cycle) <= x.time < f.Tick(x.agent, x.cycle + 1)
    ensures exists target :: f.Emits(x.agent, x.cycle, target, x.row)
  {
    hide Fleet.Emits;
    hide Fleet.Tick;
    hide IsActiveTarget;
    OneTickLater(f, x.agent, x.cycle);
    var target :| IsActiveTarget(f, x.agent, x.cycle, target) && x.row == RowOf(f, x.agent, x.cycle, target);
    RowOfIsEmitted(f, x.agent, x.cycle, target);
  }

  lemma PromptIsSample(f: Fleet, log: seq<Sample>, i: nat, cycle: nat, target: Client)
    requires f.Valid() && i < |f.clients| && IsActiveTarget(f, i, cycle, target)
    requires Sample(f.Tick(i, cycle), i, cycle, RowOf(f, i, cycle, target)) in log
    ensures HasSample(f, log, i, cycle, target)
  {
    hide Fleet.Emits;
    hide IsActiveTarget;
    hide RowOf;
    RowOfIsEmitted(f, i, cycle, target);
  }

  // ---------------------------------------------------------------- a cycle that falls outside

  /** Within the first epoch, the slot of cycle 0 does not come back. */
  lemma SlotOnlyOnce(s: Source, cycle: nat)
    requires s.Valid() && 0 < cycle < s.batchCount * s.portBatchCount
    ensures s.CycleSlot(cycle) != s.CycleSlot(0)
  {
    CeilDivAtMost(|s.clients| - 1, s.batchSize);
    CeilDivAtMost(s.portPool, s.portsPerCycle);
    hide CeilDiv;
    hide Slot;
    if s.CycleSlot(cycle) == s.CycleSlot(0) {
      SlotInjective(0, s.batchCount, s.portBatchCount, s.PortPhase(), 0, cycle);
    }
  }

  /** A row about two given clients comes from the first, in a cycle of the slot of the second. */
  lemma SlotOfRow(f: Fleet, i: nat, cycle: nat, target: Client, row: Row, at: nat, j: nat)
    requires f.Valid() && f.Emits(i, cycle, target, row) && at < |f.clients| && j < |f.clients|
    requires row.srcName == Some(f.clients[at].name) && row.dstName == Some(f.clients[j].name)
    ensures i == at && j != at && row.portBatch == Some(f.SourceOf(at).CycleSlot(cycle).1)
    ensures f.SourceOf(at).DestinationBatchOf(f.clients[j]) == f.SourceOf(at).CycleSlot(cycle).0
  {
    hide Source.ActiveTargets;
    hide Source.CycleSlot;
    hide Source.DestinationBatchOf;
    hide Source.PortStart;
    hide Source.PortEnd;
    ActiveClient(f.SourceOf(i), cycle, target);
    var k :| 0 <= k < |f.clients| && f.clients[k] == target;
    assert f.clients[k].name == f.clients[j].name;
    assert k == j && i == at;
  }

  /** When the window has only rows of cycles strictly inside one epoch, the slot that a whole epoch
      would begin with is missing, and with it a combination. */
  lemma MissingCycleIsMissed(f: Fleet, log: seq<Sample>, from: real, to: real)
    requires f.Valid() && f.Stored(log, to)
    requires forall x :: x in log && from <= x.time < to ==> 0 < x.cycle < f.policy.CoverageEpochCycles(|f.clients|)
    ensures !EveryCombinationSeen(f.Names(), f.policy.PortBatchCount(), WindowRows(log, from, to))
  {
    hide Source.CycleSlot;
    hide Source.DestinationBatchOf;
    hide Source.ActiveTargets;
    hide Fleet.Emits;
    var s := f.SourceOf(0);
    var slot := s.CycleSlot(0);
    SlotInRange(s, 0);
    var j := ClientOfBatch(s, slot.0);
    var rows := WindowRows(log, from, to);
    forall row | row in rows && row.srcName == Some(f.clients[0].name) && row.dstName == Some(f.clients[j].name)
      ensures row.portBatch != Some(slot.1)
    {
      var x :| x in log && from <= x.time < to && x.row == row;
      var target :| f.Emits(x.agent, x.cycle, target, row);
      SlotOfRow(f, x.agent, x.cycle, target, row, 0, j);
      SlotOnlyOnce(s, x.cycle);
    }
    assert !Seen(rows, f.clients[0].name, f.clients[j].name, slot.1);
    assert f.Names()[0] == f.clients[0].name && f.Names()[j] == f.clients[j].name;
  }

  lemma SlotInRange(s: Source, cycle: nat)
    requires s.Valid()
    ensures s.CycleSlot(cycle).0 < s.batchCount && s.CycleSlot(cycle).1 < s.portBatchCount
  {
    CeilDivAtMost(|s.clients| - 1, s.batchSize);
    CeilDivAtMost(s.portPool, s.portsPerCycle);
  }

  lemma AuditFindsTheGap(f: Fleet, log: seq<Sample>, from: real, to: real)
    requires f.Valid() && f.Stored(log, to)
    requires !EveryCombinationSeen(f.Names(), f.policy.PortBatchCount(), WindowRows(log, from, to))
    ensures !AuditedComplete(f, log, from, to)
  {
    var rows := WindowRows(log, from, to);
    SummaryIsTally(f, rows);
    EmittedRowsNameKnownPairs(f, log, to, from);
    hide Fleet.Stored;
    hide Tally;
    hide EveryCombinationSeen;
    hide EveryDestinationBatchSeen;
    hide EveryCycleRowValid;
    hide NamesKnownPairs;
    hide SummarizeCoverage;
    CompleteMeansEverythingSeen(f.Names(), f.policy.DestinationBatchCount(|f.clients|), f.policy.rttPortPoolSize,
                                f.policy.rttPortsPerCycle, f.policy.PortBatchCount(), rows);
  }

  // ---------------------------------------------------------------- how much grace is needed

  /** Agents that tick a little before the window opens. */
  function EarlyFleet(policy: Policy, clients: seq<Client>, hostSeeds: seq<nat>, firstTick: real): (f: Fleet)
    requires |hostSeeds| == |clients|
    ensures f.policy == policy && f.clients == clients && |f.agents| == |clients|
    ensures forall i :: 0 <= i < |clients| ==> f.agents[i] == Agent(firstTick, hostSeeds[i])
  {
    Fleet(policy, clients, seq(|clients|, i requires 0 <= i < |clients| => Agent(firstTick, hostSeeds[i])))
  }

  /** A topology that the agents accept. */
  ghost predicate Acceptable(policy: Policy, clients: seq<Client>) {
    && policy.WellFormed() && policy.rttPortsPerCycle <= policy.rttPortPoolSize
    && |clients| >= 2 && DistinctNames(clients) && forall c :: c in clients ==> c.name != ""
  }

  lemma AcceptableIsValid(f: Fleet)
    requires f.policy.WellFormed()
    ensures Acceptable(f.policy, f.clients) && |f.agents| == |f.clients| <==> f.Valid()
  {
    AgentAcceptsGeneratedConfig(f.policy, |f.clients|);
  }

  /** With less than one interval of grace, some tick phase leaves no whole epoch in the window, and the
      audit of what the agents have stored is incomplete: for any acceptable topology, any host seeds
      and any window start. */
  lemma LessGraceIsNotEnough(policy: Policy, clients: seq<Client>, hostSeeds: seq<nat>, from: real, grace: nat)
    returns (f: Fleet, log: seq<Sample>)
    requires Acceptable(policy, clients) && |hostSeeds| == |clients| && grace < policy.cycleIntervalSeconds
    ensures f.Valid() && f.policy == policy && f.clients == clients && f.StartedFor(from, grace)
    ensures forall i :: 0 <= i < |clients| ==> f.agents[i].hostSeed == hostSeeds[i]
    ensures forall i, first: nat :: 0 <= i < |clients| && from <= f.Tick(i, first) ==>
              f.Tick(i, first + policy.CoverageEpochCycles(|clients|)) > f.WindowEnd(from, grace)
    ensures f.Stored(log, f.WindowEnd(from, grace))
    ensures !AuditedComplete(f, log, from, f.WindowEnd(from, grace))
  {
    f := EarlyFleet(policy, clients, hostSeeds, from - 0.5);
    AcceptableIsValid(f);
    log := FleetLog(f, |clients|, policy.CoverageEpochCycles(|clients|));
    EarlyLogHasAGap(f, grace, from);
    hide Fleet.Stored;
    hide FleetLog;
    hide EarlyFleet;
    AuditFindsTheGap(f, log, from, f.WindowEnd(from, grace));
  }

  lemma EarlyLogHasAGap(f: Fleet, grace: nat, from: real)
    requires f.Valid() && grace < f.Interval()
    requires forall i :: 0 <= i < |f.agents| ==> f.agents[i].firstTick == from - 0.5
    ensures var end, log := f.WindowEnd(from, grace), FleetLog(f, |f.clients|, f.policy.CoverageEpochCycles(|f.clients|));
      f.Stored(log, end)
      && !EveryCombinationSeen(f.Names(), f.policy.PortBatchCount(), WindowRows(log, from, end))
    ensures forall i, first: nat :: 0 <= i < |f.clients| && from <= f.Tick(i, first) ==>
              f.Tick(i, first + f.policy.CoverageEpochCycles(|f.clients|)) > f.WindowEnd(from, grace)
  {
    hide FleetLog;
    hide Fleet.Stored;
    hide Fleet.Tick;
    hide EveryCombinationSeen;
    hide IsOver;
    hide IsPrompt;
    hide RowOf;
    hide IsActiveTarget;
    var epoch, end := f.policy.CoverageEpochCycles(|f.clients|), f.WindowEnd(from, grace);
    hide Fleet.WindowEnd;
    EarlyRun(f, epoch, grace, from, end);
    FleetLogHas(f, |f.clients|, epoch);
    PromptLogIsStored(f, epoch, end);
    InsideIsLater(f, FleetLog(f, |f.clients|, epoch), from, end);
    MissingCycleIsMissed(f, FleetLog(f, |f.clients|, epoch), from, end);
  }

  lemma InsideIsLater(f: Fleet, log: seq<Sample>, from: real, to: real)
    requires f.Valid()
    requires forall x :: x in log ==> IsPrompt(f, x)
    requires forall i: nat, cycle: nat :: i < |f.agents| && from <= f.Tick(i, cycle) ==> cycle > 0
    ensures forall x :: x in log && from <= x.time < to ==> x.cycle > 0
  {
    hide IsActiveTarget;
    hide RowOf;
    hide Fleet.Tick;
  }

  lemma EarlyRun(f: Fleet, epoch: nat, grace: nat, from: real, end: real)
    requires grace < f.Interval() && end == from + (epoch * f.Interval() + grace) as real
    requires forall i :: 0 <= i < |f.agents| ==> f.agents[i].firstTick == from - 0.5
    ensures forall i: nat, cycle: nat :: i < |f.agents| && IsOver(f, i, cycle, end) ==> cycle < epoch
    ensures forall i: nat, cycle: nat :: i < |f.agents| && from <= f.Tick(i, cycle) ==>
              cycle > 0 && f.Tick(i, cycle + epoch) > end
  {
    forall i: nat, cycle: nat | i < |f.agents|
      ensures IsOver(f, i, cycle, end) ==> cycle < epoch
      ensures from <= f.Tick(i, cycle) ==> cycle > 0 && f.Tick(i, cycle + epoch) > end
    {
      EarlyTicks(f, i, cycle, epoch, grace, from, end);
    }
    hide *;
  }

  lemma EarlyTicks(f: Fleet, i: nat, cycle: nat, epoch: nat, grace: nat, from: real, end: real)
    requires i < |f.agents| && f.agents[i].firstTick == from - 0.5 && grace < f.Interval()
    requires end == from + (epoch * f.Interval() + grace) as real
    ensures IsOver(f, i, cycle, end) ==> cycle < epoch
    ensures from <= f.Tick(i, cycle) ==> cycle > 0 && f.Tick(i, cycle + epoch) > end
  {
    var n := f.Interval();
    MulDistributes(cycle, 1, n);
    MulDistributes(cycle, epoch, n);
    if cycle >= epoch { MulLe(epoch, cycle, n); }
    if cycle == 0 { assert cycle * n == 0; } else { MulLe(1, cycle, n); }
  }

  /** Some interval of grace is exactly what a complete window needs. */
  lemma GraceNeededIff(policy: Policy, clients: seq<Client>, grace: nat)
    requires Acceptable(policy, clients)
    ensures grace >= policy.cycleIntervalSeconds <==> AlwaysComplete(policy, clients, grace)
  {
    if grace >= policy.cycleIntervalSeconds {
      forall f: Fleet, log, from | f.policy == policy && f.clients == clients && f.Valid()
        && f.StartedFor(from, grace) && f.Stored(log, f.WindowEnd(from, grace))
        ensures AuditedComplete(f, log, from, f.WindowEnd(from, grace))
      {
        hide *;
        AnyLongWindowIsComplete(f, log, from, grace);
      }
    } else {
      var f, log := LessGraceIsNotEnough(policy, clients, seq(|clients|, i => 0), 0.0, grace);
      hide Acceptable;
      hide Fleet.Valid;
      hide Fleet.Stored;
      hide Fleet.StartedFor;
      hide Fleet.WindowEnd;
      hide AuditedComplete;
    }
  }

  /** Every run of any agents for the topology, whatever window it is looked at through. */
  ghost predicate AlwaysComplete(policy: Policy, clients: seq<Client>, grace: nat) {
    forall f: Fleet, log, from ::
      f.policy == policy && f.clients == clients && f.Valid()
      && f.StartedFor(from, grace) && f.Stored(log, f.WindowEnd(from, grace)) ==>
        AuditedComplete(f, log, from, f.WindowEnd(from, grace))
  }
}
