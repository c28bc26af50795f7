/** The native agent's rotation through destination batches and source-port batches, and the
    probe queue of one cycle. */
module ProbeSchedule {
  import opened Numbers

  datatype Client = Client(name: string, rack: string)

  datatype PathType = SameRack | CrossRack

  datatype Target = Target(client: Client, pathType: PathType)

  datatype ProbeKind = Rtt | Df

  /** A queued probe; indices are relative to the cycle's active targets and active sockets. */
  datatype Queued = Queued(kind: ProbeKind, target: nat, socket: nat)

  /** An RTT probe to a client from one source port of the pool. */
  datatype Probe = Probe(destination: Client, port: nat)

  // ---------------------------------------------------------------- targets

  function Position(clients: seq<Client>, name: string): Option<nat> {
    PositionFrom(clients, name, 0)
  }

  function PositionFrom(clients: seq<Client>, name: string, i: nat): Option<nat>
    requires i <= |clients|
    decreases |clients| - i
  {
    if i == |clients| then None
    else if clients[i].name == name then Some(i)
    else PositionFrom(clients, name, i + 1)
  }

  lemma {:induction false} PositionFound(clients: seq<Client>, k: nat, i: nat)
    requires i <= k < |clients| && DistinctNames(clients)
    ensures PositionFrom(clients, clients[k].name, i) == Some(k)
    decreases k - i
  {
    if i < k { PositionFound(clients, k, i + 1); }
  }

  ghost predicate DistinctNames(clients: seq<Client>) {
    forall i, j :: 0 <= i < j < |clients| ==> clients[i].name != clients[j].name
  }

  /** Every other client, in ring order from the local one. */
  function BuildTargets(clients: seq<Client>, local: Client): (targets: seq<Target>)
    requires Position(clients, local.name).Some?
    ensures clients != [] ==> |targets| == |clients| - 1
  {
    var at := Position(clients, local.name).value;
    if clients == [] then []
    else seq(|clients| - 1, k requires 0 <= k < |clients| - 1 =>
           var c := clients[(at + 1 + k) % |clients|];
           Target(c, if c.rack == local.rack then SameRack else CrossRack))
  }

  /** Where client `j` stands in the target list of client `i`. */
  function TargetIndex(n: nat, i: nat, j: nat): nat
    requires i < n && j < n && i != j
  {
    (if j > i then j - i else j - i + n) - 1
  }

  /** The target list is a bijection onto the other clients. */
  lemma TargetsAreTheOthers(clients: seq<Client>, i: nat)
    requires i < |clients| && DistinctNames(clients)
    ensures Position(clients, clients[i].name) == Some(i)
    ensures forall j :: 0 <= j < |clients| && j != i ==>
              && TargetIndex(|clients|, i, j) < |clients| - 1
              && BuildTargets(clients, clients[i])[TargetIndex(|clients|, i, j)].client == clients[j]
    ensures forall k :: 0 <= k < |clients| - 1 ==>
              BuildTargets(clients, clients[i])[k].client in clients
              && BuildTargets(clients, clients[i])[k].client.name != clients[i].name
    ensures forall k, l :: 0 <= k < l < |clients| - 1 ==>
              BuildTargets(clients, clients[i])[k].client != BuildTargets(clients, clients[i])[l].client
  {
    hide BuildTargets;
    TargetsAlongRing(clients, i);
    var n, targets := |clients|, BuildTargets(clients, clients[i]);
    forall j | 0 <= j < n && j != i
      ensures TargetIndex(n, i, j) < n - 1 && targets[TargetIndex(n, i, j)].client == clients[j]
    {
      assert RingIndex(n, i, TargetIndex(n, i, j)) == j;
    }
    forall k | 0 <= k < n - 1
      ensures targets[k].client in clients && targets[k].client.name != clients[i].name
    {
      assert RingIndex(n, i, k) != i;
    }
    forall k, l | 0 <= k < l < n - 1 ensures targets[k].client != targets[l].client {
      assert RingIndex(n, i, k) != RingIndex(n, i, l);
    }
  }

  /** The path type tells clients of the local rack from the others. */
  lemma PathTypes(clients: seq<Client>, i: nat)
    requires i < |clients| && DistinctNames(clients)
    ensures Position(clients, clients[i].name) == Some(i)
    ensures forall t :: t in BuildTargets(clients, clients[i]) ==>
              (t.pathType == SameRack <==> t.client.rack == clients[i].rack)
  {
    PositionFound(clients, i, 0);
  }

  lemma TargetsAlongRing(clients: seq<Client>, i: nat)
    requires i < |clients| && DistinctNames(clients)
    ensures Position(clients, clients[i].name) == Some(i)
    ensures |BuildTargets(clients, clients[i])| == |clients| - 1
    ensures forall k :: 0 <= k < |clients| - 1 ==>
              BuildTargets(clients, clients[i])[k].client == clients[RingIndex(|clients|, i, k)]
  {
    PositionFound(clients, i, 0);
    forall k | 0 <= k < |clients| - 1
      ensures BuildTargets(clients, clients[i])[k].client == clients[RingIndex(|clients|, i, k)]
    {
      RingIndexIsMod(|clients|, i, k);
    }
  }

  function RingIndex(n: nat, i: nat, k: nat): nat
    requires i < n && k < n - 1
  {
    if i + 1 + k < n then i + 1 + k else i + 1 + k - n
  }

  lemma RingIndexIsMod(n: nat, i: nat, k: nat)
    requires i < n && k < n - 1
    ensures RingIndex(n, i, k) == (i + 1 + k) % n
  {
    DivModUnique(i + 1 + k, n, if i + 1 + k < n then 0 else 1, RingIndex(n, i, k));
  }

  // ---------------------------------------------------------------- destination batches

  /** `iter().skip(skip).step_by(step)`. */
  function StepBy<T>(s: seq<T>, skip: nat, step: nat): (r: seq<T>)
    requires step > 0
    ensures |r| == if skip < |s| then CeilDiv(|s| - skip, step) else 0
    decreases if skip < |s| then |s| - skip else 0
  {
    if skip >= |s| then [] else [s[skip]] + StepBy(s, skip + step, step)
  }

  ghost predicate Takes(skip: nat, step: nat, p: nat)
    requires step > 0
  {
    p >= skip && (p - skip) % step == 0
  }

  lemma TakesStep(skip: nat, step: nat, p: nat)
    requires step > 0
    ensures Takes(skip, step, p) <==> p == skip || Takes(skip + step, step, p)
  {
    ModShift(p - skip, step);
    if 0 <= p - skip < step { DivModUnique(p - skip, step, 0, p - skip); }
  }

  /** `step_by` takes exactly the positions congruent to the first one taken. */
  lemma {:induction false} StepByTakes<T>(s: seq<T>, skip: nat, step: nat)
    requires NoDuplicates(s) && step > 0
    ensures NoDuplicates(StepBy(s, skip, step))
    ensures forall p :: 0 <= p < |s| ==> (s[p] in StepBy(s, skip, step) <==> Takes(skip, step, p))
    ensures forall x :: x in StepBy(s, skip, step) ==> x in s
    decreases if skip < |s| then |s| - skip else 0
  {
    hide Takes;
    hide CeilDiv;
    forall p: nat ensures Takes(skip, step, p) <==> p == skip || Takes(skip + step, step, p) {
      TakesStep(skip, step, p);
    }
    if skip < |s| {
      StepByTakes(s, skip + step, step);
      assert StepBy(s, skip, step) == [s[skip]] + StepBy(s, skip + step, step);
      TakenAreNotBefore(skip + step, step);
    } else {
      TakenAreNotBefore(skip, step);
    }
  }

  lemma TakenAreNotBefore(skip: nat, step: nat)
    requires step > 0
    ensures forall p: nat :: Takes(skip, step, p) ==> p >= skip
  {
  }

  function RotatingDestinationBatch<T>(targets: seq<T>, batchSize: nat, batchIndex: nat, phaseOffset: nat): seq<T>
  {
    if targets == [] then []
    else
      var size := Min(Max(batchSize, 1), |targets|);
      var batchCount := CeilDiv(|targets|, size);
      StepBy(PhaseOrder(targets, phaseOffset), batchIndex % batchCount, batchCount)
  }

  function PhaseOrder<T>(targets: seq<T>, phaseOffset: nat): seq<T>
    requires targets != []
  {
    var phase := phaseOffset % |targets|;
    targets[phase..] + targets[..phase]
  }

  /** Position of target `m` in the phase-rotated order. */
  function RotatedPosition(t: nat, phaseOffset: nat, m: nat): (p: nat)
    requires m < t
    ensures p < t
  {
    var phase := phaseOffset % t;
    if m >= phase then m - phase else m + t - phase
  }

  /** The batch that target `m` belongs to. */
  function BatchOf(t: nat, batchCount: nat, phaseOffset: nat, m: nat): (b: nat)
    requires m < t && batchCount > 0
    ensures b < batchCount
  {
    RotatedPosition(t, phaseOffset, m) % batchCount
  }

  /** Batches partition the targets: target `m` stands at one place of batch `BatchOf(m)` and
      nowhere in another. */
  lemma BatchesPartitionTargets<T>(targets: seq<T>, batchSize: nat, b: nat, phaseOffset: nat)
    requires NoDuplicates(targets) && 1 <= batchSize <= |targets| && b < CeilDiv(|targets|, batchSize)
    ensures NoDuplicates(RotatingDestinationBatch(targets, batchSize, b, phaseOffset))
    ensures forall x :: x in RotatingDestinationBatch(targets, batchSize, b, phaseOffset) ==> x in targets
    ensures forall m :: 0 <= m < |targets| ==>
      (targets[m] in RotatingDestinationBatch(targets, batchSize, b, phaseOffset)
       <==> BatchOf(|targets|, CeilDiv(|targets|, batchSize), phaseOffset, m) == b)
  {
    var t, d, ordered := |targets|, CeilDiv(|targets|, batchSize), PhaseOrder(targets, phaseOffset);
    RotatingBatchIsStride(targets, batchSize, b, phaseOffset);
    hide RotatingDestinationBatch;
    hide CeilDiv;
    hide StepBy;
    hide PhaseOrder;
    hide Takes;
    PhaseOrderPositions(targets, phaseOffset);
    StepByTakes(ordered, b, d);
    forall m | 0 <= m < t
      ensures targets[m] in StepBy(ordered, b, d) <==> BatchOf(t, d, phaseOffset, m) == b
    {
      SameResidue(RotatedPosition(t, phaseOffset, m), b, d);
    }
  }

  /** Batches never exceed the configured size and are as even as they can be. */
  lemma BatchSizesEven<T>(targets: seq<T>, batchSize: nat, b: nat, phaseOffset: nat)
    requires 1 <= batchSize <= |targets| && b < CeilDiv(|targets|, batchSize)
    ensures 1 <= |RotatingDestinationBatch(targets, batchSize, b, phaseOffset)| <= batchSize
    ensures var n, d := |RotatingDestinationBatch(targets, batchSize, b, phaseOffset)|, CeilDiv(|targets|, batchSize);
      |targets| / d <= n <= |targets| / d + 1
  {
    hide *;
    CeilDivAtMost(|targets|, batchSize);
    BatchSizeIs(targets, batchSize, b, phaseOffset);
    StrideSizes(|targets|, batchSize, b);
  }

  lemma StrideSizes(t: nat, size: nat, b: nat)
    requires 1 <= size && b < CeilDiv(t, size) <= t
    ensures 1 <= CeilDiv(t - b, CeilDiv(t, size)) <= size
    ensures t / CeilDiv(t, size) <= CeilDiv(t - b, CeilDiv(t, size)) <= t / CeilDiv(t, size) + 1
  {
    hide *;
    StrideAtMost(t, CeilDiv(t, size), b, size);
    BatchEven(t, CeilDiv(t, size), b);
  }

  lemma BatchSizeIs<T>(targets: seq<T>, batchSize: nat, b: nat, phaseOffset: nat)
    requires 1 <= batchSize <= |targets| && b < CeilDiv(|targets|, batchSize) <= |targets|
    ensures |RotatingDestinationBatch(targets, batchSize, b, phaseOffset)|
         == CeilDiv(|targets| - b, CeilDiv(|targets|, batchSize))
  {
    hide RotatingDestinationBatch;
    hide CeilDiv;
    RotatingBatchIsStride(targets, batchSize, b, phaseOffset);
    hide StepBy;
  }

  lemma RotatingBatchIsStride<T>(targets: seq<T>, batchSize: nat, b: nat, phaseOffset: nat)
    requires 1 <= batchSize <= |targets| && b < CeilDiv(|targets|, batchSize)
    ensures RotatingDestinationBatch(targets, batchSize, b, phaseOffset)
         == StepBy(PhaseOrder(targets, phaseOffset), b, CeilDiv(|targets|, batchSize))
  {
    hide CeilDiv;
    hide PhaseOrder;
    hide StepBy;
    DivModUnique(b, CeilDiv(|targets|, batchSize), 0, b);
  }

  lemma PhaseOrderPositions<T>(targets: seq<T>, phaseOffset: nat)
    requires NoDuplicates(targets) && targets != []
    ensures var ordered := PhaseOrder(targets, phaseOffset);
      && NoDuplicates(ordered) && |ordered| == |targets|
      && (forall x :: x in ordered ==> x in targets)
      && (forall m :: 0 <= m < |targets| ==> ordered[RotatedPosition(|targets|, phaseOffset, m)] == targets[m])
  {
  }

  lemma SameResidue(p: nat, b: nat, d: nat)
    requires b < d
    ensures p % d == b <==> Takes(b, d, p)
  {
    var q := p / d;
    assert p == q * d + p % d;
    if p % d == b {
      DivModUnique(p - b, d, q, 0);
      MulLe(0, q, d);
    }
    if p >= b && (p - b) % d == 0 {
      var k := (p - b) / d;
      assert p - b == k * d;
      DivModUnique(p, d, k, b);
    }
  }

  lemma BatchEven(t: nat, d: nat, b: nat)
    requires b < d <= t
    ensures t / d <= CeilDiv(t - b, d) <= t / d + 1
  {
    var c, q, r := CeilDiv(t - b, d), t / d, t % d;
    assert t == q * d + r;
    CeilDivBounds(t - b, d);
    hide CeilDiv;
    if c < q { MulGap(c, q, d); }
    if c > q + 1 {
      MulGap(q + 1, c, d);
      MulGap(q, q + 1, d);
    }
  }

  // ---------------------------------------------------------------- cycle numbering

  function ProbeBatchIndices(cycle: nat, destinationBatchCount: nat, portBatchCount: nat, portPhase: nat): (nat, nat)
  {
    var destinationCount := Max(destinationBatchCount, 1);
    var portCount := Max(portBatchCount, 1);
    Slot(cycle, destinationCount, portCount, portPhase)
  }

  function Slot(cycle: nat, d: nat, p: nat, portPhase: nat): (slot: (nat, nat))
    requires d > 0 && p > 0
    ensures slot.0 < d && slot.1 < p
  {
    assert d * p > 0;
    var epochCycle := cycle % (d * p);
    (epochCycle % d, (epochCycle / d + portPhase) % p)
  }

  /** Two cycles of one epoch-long window never use the same slot. */
  lemma SlotInjective(start: nat, d: nat, p: nat, portPhase: nat, a: nat, b: nat)
    requires d > 0 && p > 0
    requires start <= a < start + d * p && start <= b < start + d * p
    requires Slot(a, d, p, portPhase) == Slot(b, d, p, portPhase)
    ensures a == b
  {
    var m := d * p;
    var ea, eb := a % m, b % m;
    SlotFixesResidue(ea, ea / d, eb, eb / d, d, p, portPhase);
    ResidueUniqueInWindow(start, m, a, b);
  }

  lemma SlotFixesResidue(ea: nat, qa: nat, eb: nat, qb: nat, d: nat, p: nat, portPhase: nat)
    requires d > 0 && p > 0 && ea < d * p && eb < d * p
    requires qa == ea / d && qb == eb / d
    requires ea % d == eb % d && (qa + portPhase) % p == (qb + portPhase) % p
    ensures ea == eb
  {
    assert qa == qb by {
      QuotientBelow(ea, d, p);
      QuotientBelow(eb, d, p);
      ShiftedEqual(qa, qb, portPhase, p);
    }
    SameDivMod(ea, eb, d);
  }

  lemma ShiftedEqual(x: nat, y: nat, shift: nat, p: nat)
    requires x < p && y < p && (x + shift) % p == (y + shift) % p
    ensures x == y
  {
    ResidueUniqueInWindow(shift, p, x + shift, y + shift);
  }

  /** Every slot occurs in every epoch-long window of cycles. */
  lemma SlotInWindow(start: nat, d: nat, p: nat, portPhase: nat, destination: nat, port: nat) returns (cycle: nat)
    requires destination < d && port < p
    ensures d * p > 0 && start <= cycle < start + d * p
    ensures Slot(cycle, d, p, portPhase) == (destination, port)
  {
    var shifted := ResidueInWindow(portPhase, p, port);
    var round := shifted - portPhase;
    var e := round * d + destination;
    MulGap(round, p, d);
    DivModUnique(e, d, round, destination);
    cycle := ResidueInWindow(start, d * p, e);
  }

  // ---------------------------------------------------------------- one cycle's queue

  function SocketProbes(target: nat, sockets: nat): (q: seq<Queued>)
    ensures |q| == sockets
    ensures forall i :: 0 <= i < sockets ==> q[i] == Queued(Rtt, target, i)
  {
    seq(sockets, i requires 0 <= i => Queued(Rtt, target, i))
  }

  /** The socket of a target's DF probe. */
  function DfSocket(target: nat, sockets: nat): (s: nat)
    requires sockets > 0
    ensures s < sockets
  {
    target % sockets
  }

  /** The queue before rotation: per target, one RTT probe on every socket, then one DF probe. */
  function ProbeQueue(targets: nat, sockets: nat): seq<Queued> {
    if targets == 0 then []
    else
      ProbeQueue(targets - 1, sockets) + SocketProbes(targets - 1, sockets)
      + (if sockets > 0 then [Queued(Df, targets - 1, DfSocket(targets - 1, sockets))] else [])
  }

  method BuildProbeSchedule(targetCount: nat, socketCount: nat) returns (schedule: seq<Queued>)
    ensures schedule == ProbeQueue(targetCount, socketCount)
  {
    schedule := [];
    for t := 0 to targetCount
      invariant schedule == ProbeQueue(t, socketCount)
    {
      for s := 0 to socketCount
        invariant schedule == ProbeQueue(t, socketCount) + SocketProbes(t, socketCount)[..s]
      {
        schedule := schedule + [Queued(Rtt, t, s)];
      }
      if socketCount > 0 {
        schedule := schedule + [Queued(Df, t, DfSocket(t, socketCount))];
      }
    }
  }

  /** `slice::rotate_left(phase % len)`. */
  function RotateProbeSchedule<T>(queue: seq<T>, phase: nat): (r: seq<T>)
    ensures |r| == |queue|
  {
    if queue == [] then [] else queue[phase % |queue|..] + queue[..phase % |queue|]
  }

  lemma RotationIsPermutation<T>(queue: seq<T>, phase: nat)
    ensures multiset(RotateProbeSchedule(queue, phase)) == multiset(queue)
    ensures forall x :: x in RotateProbeSchedule(queue, phase) <==> x in queue
    ensures NoDuplicates(queue) ==> NoDuplicates(RotateProbeSchedule(queue, phase))
  {
    if queue != [] {
      var k := phase % |queue|;
      SwapHalves(queue[..k], queue[k..]);
      assert queue == queue[..k] + queue[k..];
    }
  }

  /** The rotated queue starts at the phase and goes round. */
  lemma RotatedAt<T>(queue: seq<T>, phase: nat, i: nat)
    requires i < |queue|
    ensures RotateProbeSchedule(queue, phase)[i] == queue[(phase + i) % |queue|]
  {
    var n := |queue|;
    var k := phase % n;
    assert phase == (phase / n) * n + k;
    if k + i < n {
      DivModUnique(phase + i, n, phase / n, k + i);
    } else {
      assert (phase / n + 1) * n == (phase / n) * n + n;
      DivModUnique(phase + i, n, phase / n + 1, k + i - n);
    }
  }

  /** Consecutive targets take turns on the sockets for their DF probes: any socket serves exactly one
      of as many consecutive targets as there are sockets. */
  lemma DfSocketsTakeTurns(start: nat, sockets: nat, s: nat) returns (t: nat)
    requires s < sockets
    ensures start <= t < start + sockets && DfSocket(t, sockets) == s
    ensures forall u :: start <= u < start + sockets && DfSocket(u, sockets) == s ==> u == t
  {
    t := ResidueInWindow(start, sockets, s);
    forall u | start <= u < start + sockets && DfSocket(u, sockets) == s ensures u == t {
      ResidueUniqueInWindow(start, sockets, u, t);
    }
  }

  lemma SwapHalves<T>(a: seq<T>, b: seq<T>)
    ensures multiset(b + a) == multiset(a + b)
    ensures forall x :: x in b + a <==> x in a + b
    ensures NoDuplicates(a + b) ==> NoDuplicates(b + a)
  {
    if NoDuplicates(a + b) {
      assert forall i :: 0 <= i < |a| ==> a[i] == (a + b)[i];
      assert forall i :: 0 <= i < |b| ==> b[i] == (a + b)[|a| + i];
      NoDuplicatesConcat(b, a);
    }
  }

  ghost predicate InQueue(x: Queued, targets: nat, sockets: nat) {
    && x.target < targets && x.socket < sockets
    && (x.kind.Df? ==> x.socket == DfSocket(x.target, sockets))
  }

  /** The queue holds exactly one RTT probe per target and socket and one DF probe per target. */
  lemma {:induction false} QueueContents(targets: nat, sockets: nat)
    requires sockets > 0
    ensures NoDuplicates(ProbeQueue(targets, sockets))
    ensures forall x :: x in ProbeQueue(targets, sockets) <==> InQueue(x, targets, sockets)
  {
    hide DfSocket;
    if targets > 0 {
      QueueContents(targets - 1, sockets);
      var front, row := ProbeQueue(targets - 1, sockets), SocketProbes(targets - 1, sockets);
      var df := Queued(Df, targets - 1, DfSocket(targets - 1, sockets));
      assert NoDuplicates(row);
      hide SocketProbes;
      NoDuplicatesConcat(front, row);
      NoDuplicatesConcat(front + row, [df]);
      assert ProbeQueue(targets, sockets) == front + row + [df];
      forall x ensures x in front + row + [df] <==> InQueue(x, targets, sockets) {
        if InQueue(x, targets, sockets) && x.target == targets - 1 && x.kind.Rtt? {
          assert row[x.socket] == x;
        }
      }
    }
  }

  // ---------------------------------------------------------------- what one source sends

  /** A source's fixed inputs to its probe loop.  `hostSeed` is the stable hash of its name. */
  datatype Source = Source(
    clients: seq<Client>,
    at: nat,
    batchSize: nat,
    batchCount: nat,
    portPool: nat,
    portsPerCycle: nat,
    portBatchCount: nat,
    hostSeed: nat)
  {
    /** What the accepted configuration guarantees of the loop's inputs. */
    ghost predicate Valid() {
      && DistinctNames(clients) && at < |clients| && |clients| >= 2
      && 1 <= batchSize <= |clients| - 1 && batchCount == CeilDiv(|clients| - 1, batchSize)
      && 1 <= portsPerCycle <= portPool && portBatchCount == CeilDiv(portPool, portsPerCycle)
    }

    function Targets(): seq<Target>
      requires Valid()
    {
      PositionFound(clients, at, 0);
      BuildTargets(clients, clients[at])
    }

    function PortPhase(): nat
      requires Valid()
    {
      hostSeed % portBatchCount
    }

    function CycleSlot(cycle: nat): (nat, nat)
      requires Valid()
    {
      ProbeBatchIndices(cycle, batchCount, portBatchCount, PortPhase())
    }

    function ActiveTargets(cycle: nat): seq<Target>
      requires Valid()
    {
      RotatingDestinationBatch(Targets(), batchSize, CycleSlot(cycle).0, at)
    }

    function PortStart(cycle: nat): nat
      requires Valid()
    {
      CycleSlot(cycle).1 * portsPerCycle
    }

    function PortEnd(cycle: nat): nat
      requires Valid()
    {
      Min(PortStart(cycle) + portsPerCycle, portPool)
    }

    /** Where the queue of a cycle starts; the phase wraps around as a 64-bit word. */
    function SchedulePhase(cycle: nat): nat { (hostSeed + cycle * 0x9e37_79b9_7f4a_7c15) % 0x1_0000_0000_0000_0000 }

    /** The rotated queue of the cycle. */
    function Queue(cycle: nat): seq<Queued>
      requires Valid()
    {
      PortSliceFits(this, cycle);
      RotateProbeSchedule(ProbeQueue(|ActiveTargets(cycle)|, PortEnd(cycle) - PortStart(cycle)), SchedulePhase(cycle))
    }

    /** The RTT probes of the cycle, by destination client and pool port. */
    ghost function RttProbes(cycle: nat): seq<Probe>
      requires Valid()
    {
      PortSliceFits(this, cycle);
      Resolve(Queue(cycle), ActiveTargets(cycle), PortStart(cycle))
    }

    ghost function EpochProbes(start: nat, cycles: nat): seq<Probe>
      requires Valid()
    {
      if cycles == 0 then [] else EpochProbes(start, cycles - 1) + RttProbes(start + cycles - 1)
    }

    /** Which (destination batch, port batch) must be on air for this probe to be sent. */
    ghost function SlotOf(probe: Probe): (nat, nat)
      requires Valid() && Schedulable(probe)
    {
      (DestinationBatchOf(probe.destination), probe.port / portsPerCycle)
    }

    ghost function DestinationBatchOf(client: Client): nat
      requires Valid() && client in clients && client != clients[at]
    {
      BatchOf(|clients| - 1, batchCount, at, TargetIndex(|clients|, at, IndexOf(client)))
    }

    ghost predicate Schedulable(probe: Probe) {
      probe.destination in clients && at < |clients| && probe.destination != clients[at] && probe.port < portPool
    }

    ghost function IndexOf(client: Client): (j: nat)
      requires client in clients
      ensures j < |clients| && clients[j] == client
    {
      var j :| 0 <= j < |clients| && clients[j] == client;
      j
    }
  }

  /** The queue of a cycle is that of its targets and ports, taken from the cycle's phase on and round. */
  lemma QueueStartsAtPhase(s: Source, cycle: nat, i: nat)
    requires s.Valid() && i < |s.Queue(cycle)|
    ensures var queue := ProbeQueue(|s.ActiveTargets(cycle)|, s.PortEnd(cycle) - s.PortStart(cycle));
      |s.Queue(cycle)| == |queue| && s.Queue(cycle)[i] == queue[(s.SchedulePhase(cycle) + i) % |queue|]
  {
    hide ProbeQueue;
    hide RotateProbeSchedule;
    PortSliceFits(s, cycle);
    RotatedAt(ProbeQueue(|s.ActiveTargets(cycle)|, s.PortEnd(cycle) - s.PortStart(cycle)), s.SchedulePhase(cycle), i);
  }

  /** The queue of the first cycle starts at the host's seed, and each cycle moves the start on by the
      same 64-bit step. */
  lemma SchedulePhaseMovesOn(s: Source, cycle: nat)
    requires s.hostSeed < 0x1_0000_0000_0000_0000
    ensures s.SchedulePhase(0) == s.hostSeed
    ensures s.SchedulePhase(cycle + 1) ==
      var next := s.SchedulePhase(cycle) + 0x9e37_79b9_7f4a_7c15;
      if next < 0x1_0000_0000_0000_0000 then next else next - 0x1_0000_0000_0000_0000
  {
    var word, step := 0x1_0000_0000_0000_0000, 0x9e37_79b9_7f4a_7c15;
    var now := s.hostSeed + cycle * step;
    var q, r := now / word, now % word;
    assert now == q * word + r && (cycle + 1) * step == cycle * step + step;
    if r + step < word {
      DivModUnique(now + step, word, q, r + step);
    } else {
      DivModUnique(now + step, word, q + 1, r + step - word);
    }
  }

  /** Neighbouring host seeds start with different port batches: any port batch is the first one of
      exactly one of as many consecutive seeds as there are port batches. */
  lemma PortPhasesTakeTurns(s: Source, seed: nat, batch: nat) returns (own: nat)
    requires s.Valid() && batch < s.portBatchCount
    ensures seed <= own < seed + s.portBatchCount && s.(hostSeed := own).PortPhase() == batch
    ensures forall other :: seed <= other < seed + s.portBatchCount && s.(hostSeed := other).PortPhase() == batch ==> other == own
  {
    own := ResidueInWindow(seed, s.portBatchCount, batch);
    forall other | seed <= other < seed + s.portBatchCount && s.(hostSeed := other).PortPhase() == batch ensures other == own {
      ResidueUniqueInWindow(seed, s.portBatchCount, other, own);
    }
  }

  lemma SliceStartsInPool(pool: nat, perCycle: nat, batch: nat)
    requires perCycle > 0 && batch < CeilDiv(pool, perCycle)
    ensures batch * perCycle < pool
  {
    CeilDivBounds(pool, perCycle);
    MulGap(batch, CeilDiv(pool, perCycle), perCycle);
  }

  /** The active port slice is never empty and stays inside the pool. */
  lemma PortSliceFits(s: Source, cycle: nat)
    requires s.Valid()
    ensures s.PortStart(cycle) < s.PortEnd(cycle) <= s.portPool
  {
    SliceStartsInPool(s.portPool, s.portsPerCycle, s.CycleSlot(cycle).1);
  }

  ghost function Resolve(queue: seq<Queued>, active: seq<Target>, portStart: nat): seq<Probe>
  {
    if queue == [] then []
    else
      var x := queue[|queue| - 1];
      Resolve(queue[..|queue| - 1], active, portStart)
      + (if x.kind.Rtt? && x.target < |active| then [Probe(active[x.target].client, portStart + x.socket)] else [])
  }

  lemma {:induction false} ResolveMembers(queue: seq<Queued>, active: seq<Target>, portStart: nat)
    ensures forall y :: y in Resolve(queue, active, portStart) <==>
      exists x :: x in queue && x.kind.Rtt? && x.target < |active|
                  && y == Probe(active[x.target].client, portStart + x.socket)
  {
    if queue != [] {
      ResolveMembers(queue[..|queue| - 1], active, portStart);
      assert queue == queue[..|queue| - 1] + [queue[|queue| - 1]];
    }
  }

  /** Distinct queue entries for distinct clients resolve to distinct probes. */
  lemma {:induction false} ResolveNoDuplicates(queue: seq<Queued>, active: seq<Target>, portStart: nat)
    requires NoDuplicates(queue)
    requires forall i, j :: 0 <= i < j < |active| ==> active[i].client != active[j].client
    ensures NoDuplicates(Resolve(queue, active, portStart))
  {
    if queue != [] {
      var front, last := queue[..|queue| - 1], queue[|queue| - 1];
      ResolveNoDuplicates(front, active, portStart);
      ResolveMembers(front, active, portStart);
      if last.kind.Rtt? && last.target < |active| {
        assert Probe(active[last.target].client, portStart + last.socket) !in Resolve(front, active, portStart);
      }
    }
  }

  // ---------------------------------------------------------------- exact cover

  ghost predicate IsActive(active: seq<Target>, client: Client) {
    exists k :: 0 <= k < |active| && active[k].client == client
  }

  /** The active targets of a cycle are the other clients of its destination batch, each once. */
  lemma ActiveClients(s: Source, cycle: nat)
    requires s.Valid()
    ensures forall k, l :: 0 <= k < l < |s.ActiveTargets(cycle)| ==>
              s.ActiveTargets(cycle)[k].client != s.ActiveTargets(cycle)[l].client
    ensures forall c :: IsActive(s.ActiveTargets(cycle), c) <==>
              c in s.clients && c != s.clients[s.at] && s.DestinationBatchOf(c) == s.CycleSlot(cycle).0
  {
    hide RotatingDestinationBatch;
    hide BatchOf;
    hide CeilDiv;
    hide ProbeBatchIndices;
    hide BuildTargets;
    SlotOnOffer(s, cycle);
    var targets, active, b := s.Targets(), s.ActiveTargets(cycle), s.CycleSlot(cycle).0;
    CeilDivAtMost(|s.clients| - 1, s.batchSize);
    TargetsAreTheOthers(s.clients, s.at);
    BatchesPartitionTargets(targets, s.batchSize, b, s.at);
    forall k, l | 0 <= k < l < |active| ensures active[k].client != active[l].client {
      assert active[k] in targets && active[l] in targets && active[k] != active[l];
    }
    forall c
      ensures IsActive(active, c) <==> c in s.clients && c != s.clients[s.at] && s.DestinationBatchOf(c) == b
    {
      ActiveClient(s, cycle, c);
    }
  }

  lemma SlotOnOffer(s: Source, cycle: nat)
    requires s.Valid()
    ensures s.CycleSlot(cycle).0 < CeilDiv(|s.clients| - 1, s.batchSize)
  {
    CeilDivAtMost(|s.clients| - 1, s.batchSize);
  }

  lemma ActiveClient(s: Source, cycle: nat, c: Client)
    requires s.Valid()
    ensures IsActive(s.ActiveTargets(cycle), c) <==>
              c in s.clients && c != s.clients[s.at] && s.DestinationBatchOf(c) == s.CycleSlot(cycle).0
  {
    hide RotatingDestinationBatch;
    hide BatchOf;
    hide CeilDiv;
    hide ProbeBatchIndices;
    hide Position;
    hide BuildTargets;
    SlotOnOffer(s, cycle);
    var targets, active, b := s.Targets(), s.ActiveTargets(cycle), s.CycleSlot(cycle).0;
    CeilDivAtMost(|s.clients| - 1, s.batchSize);
    TargetsAreTheOthers(s.clients, s.at);
    BatchesPartitionTargets(targets, s.batchSize, b, s.at);
    if c in s.clients && c != s.clients[s.at] {
      ClientInBatch(targets, active, TargetIndex(|s.clients|, s.at, s.IndexOf(c)), c);
    } else {
      ClientNotInBatch(targets, active, c);
    }
  }

  lemma ClientInBatch(targets: seq<Target>, active: seq<Target>, m: nat, c: Client)
    requires m < |targets| && targets[m].client == c
    requires forall k, l :: 0 <= k < l < |targets| ==> targets[k].client != targets[l].client
    requires forall x :: x in active ==> x in targets
    ensures IsActive(active, c) <==> targets[m] in active
  {
    if IsActive(active, c) {
      var k :| 0 <= k < |active| && active[k].client == c;
      assert active[k] in targets;
    }
  }

  lemma ClientNotInBatch(targets: seq<Target>, active: seq<Target>, c: Client)
    requires forall k :: 0 <= k < |targets| ==> targets[k].client != c
    requires forall x :: x in active ==> x in targets
    ensures !IsActive(active, c)
  {
    forall k | 0 <= k < |active| ensures active[k].client != c {
      assert active[k] in targets;
    }
  }

  lemma PortSlice(s: Source, cycle: nat, port: nat)
    requires s.Valid() && port < s.portPool
    ensures s.PortStart(cycle) <= port < s.PortEnd(cycle) <==> port / s.portsPerCycle == s.CycleSlot(cycle).1
  {
    var w, b := s.portsPerCycle, s.CycleSlot(cycle).1;
    assert port == (port / w) * w + port % w;
    if b * w <= port < b * w + w { DivModUnique(port, w, b, port - b * w); }
  }

  lemma ResolveAll(queue: seq<Queued>, active: seq<Target>, portStart: nat, sockets: nat, y: Probe)
    requires forall x :: x in queue <==> InQueue(x, |active|, sockets)
    ensures y in Resolve(queue, active, portStart) <==>
              IsActive(active, y.destination) && portStart <= y.port < portStart + sockets
  {
    ResolveMembers(queue, active, portStart);
    if IsActive(active, y.destination) && portStart <= y.port < portStart + sockets {
      var k :| 0 <= k < |active| && active[k].client == y.destination;
      assert Queued(Rtt, k, y.port - portStart) in queue;
    }
  }

  /** One cycle sends exactly the probes of its slot, each once. */
  lemma CycleIsItsSlot(s: Source, cycle: nat)
    requires s.Valid()
    ensures NoDuplicates(s.RttProbes(cycle))
    ensures forall y :: y in s.RttProbes(cycle) <==> s.Schedulable(y) && s.SlotOf(y) == s.CycleSlot(cycle)
  {
    hide Source.ActiveTargets;
    hide Source.DestinationBatchOf;
    hide ProbeQueue;
    hide CeilDiv;
    hide Resolve;
    hide IsActive;
    hide InQueue;
    PortSliceFits(s, cycle);
    var active, sockets := s.ActiveTargets(cycle), s.PortEnd(cycle) - s.PortStart(cycle);
    var queue := ProbeQueue(|active|, sockets);
    ActiveClients(s, cycle);
    QueueContents(|active|, sockets);
    RotationIsPermutation(queue, s.SchedulePhase(cycle));
    hide RotateProbeSchedule;
    ResolveNoDuplicates(s.Queue(cycle), active, s.PortStart(cycle));
    forall y ensures y in s.RttProbes(cycle) <==> s.Schedulable(y) && s.SlotOf(y) == s.CycleSlot(cycle) {
      ResolveAll(s.Queue(cycle), active, s.PortStart(cycle), sockets, y);
      if y.port < s.portPool { PortSlice(s, cycle, y.port); }
    }
  }

  /** Exact cover: over any `batchCount * portBatchCount` consecutive cycles, from any first cycle
      and whatever the host seed, a source sends exactly one RTT probe to every other client from
      every port of the pool, and no other RTT probe. */
  lemma EpochCoversExactlyOnce(s: Source, start: nat)
    requires s.Valid()
    ensures NoDuplicates(s.EpochProbes(start, s.batchCount * s.portBatchCount))
    ensures forall y :: y in s.EpochProbes(start, s.batchCount * s.portBatchCount) <==> s.Schedulable(y)
  {
    var cycles := s.batchCount * s.portBatchCount;
    EpochPrefix(s, start, cycles);
    hide Source.EpochProbes;
    hide Source.RttProbes;
    hide Source.CycleSlot;
    hide CeilDiv;
    forall y | s.Schedulable(y) ensures y in s.EpochProbes(start, cycles) {
      SlotOfInRange(s, y);
      hide Source.SlotOf;
      var cycle := SlotOnAir(s, start, s.SlotOf(y));
      CycleIsItsSlot(s, cycle);
    }
    forall y | y in s.EpochProbes(start, cycles) ensures s.Schedulable(y) {
      var c :| start <= c < start + cycles && y in s.RttProbes(c);
      CycleIsItsSlot(s, c);
    }
  }

  lemma SlotOfInRange(s: Source, y: Probe)
    requires s.Valid() && s.Schedulable(y)
    ensures s.SlotOf(y).0 < s.batchCount && s.SlotOf(y).1 < s.portBatchCount
  {
    CeilDivAtMost(|s.clients| - 1, s.batchSize);
    CeilDivBounds(s.portPool, s.portsPerCycle);
    QuotientBelow(y.port, s.portsPerCycle, s.portBatchCount);
  }

  lemma SlotOnAir(s: Source, start: nat, slot: (nat, nat)) returns (cycle: nat)
    requires s.Valid() && slot.0 < s.batchCount && slot.1 < s.portBatchCount
    ensures start <= cycle < start + s.batchCount * s.portBatchCount
    ensures s.CycleSlot(cycle) == slot
  {
    cycle := SlotInWindow(start, s.batchCount, s.portBatchCount, s.PortPhase(), slot.0, slot.1);
  }

  ghost predicate SentWithin(s: Source, start: nat, cycles: nat, y: Probe)
    requires s.Valid()
  {
    exists c :: start <= c < start + cycles && y in s.RttProbes(c)
  }

  /** Any prefix of an epoch sends distinct probes. */
  lemma {:induction false} EpochPrefix(s: Source, start: nat, cycles: nat)
    requires s.Valid() && cycles <= s.batchCount * s.portBatchCount
    ensures NoDuplicates(s.EpochProbes(start, cycles))
    ensures forall y :: y in s.EpochProbes(start, cycles) <==> SentWithin(s, start, cycles, y)
  {
    hide Source.Valid;
    hide Source.RttProbes;
    if cycles > 0 {
      hide SentWithin;
      var before, last := cycles - 1, start + cycles - 1;
      EpochPrefix(s, start, before);
      CycleIsItsSlot(s, last);
      EpochStep(s, start, before, last);
      assert s.EpochProbes(start, cycles) == s.EpochProbes(start, before) + s.RttProbes(last);
      hide Source.EpochProbes;
      NoDuplicatesConcat(s.EpochProbes(start, before), s.RttProbes(last));
      hide NoDuplicates;
    }
  }

  lemma EpochStep(s: Source, start: nat, before: nat, last: nat)
    requires s.Valid() && before < s.batchCount * s.portBatchCount && last == start + before
    ensures forall y :: SentWithin(s, start, before + 1, y) <==>
              SentWithin(s, start, before, y) || y in s.RttProbes(last)
    ensures forall y :: y in s.RttProbes(last) ==> !SentWithin(s, start, before, y)
  {
    hide Source.RttProbes;
    forall y | SentWithin(s, start, before, y) ensures y !in s.RttProbes(last) {
      var c :| start <= c < start + before && y in s.RttProbes(c);
      CyclesDisjoint(s, start, c, last, y);
    }
  }

  lemma CyclesDisjoint(s: Source, start: nat, c: nat, last: nat, y: Probe)
    requires s.Valid() && start <= c < last < start + s.batchCount * s.portBatchCount
    requires y in s.RttProbes(c)
    ensures y !in s.RttProbes(last)
  {
    CycleIsItsSlot(s, c);
    CycleIsItsSlot(s, last);
    hide Source.RttProbes;
    if s.CycleSlot(c) == s.CycleSlot(last) {
      SlotInjective(start, s.batchCount, s.portBatchCount, s.PortPhase(), c, last);
    }
  }
}
