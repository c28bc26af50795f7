/** One probe cycle: what is sent, what comes back, and the numbers reported about it.  The network
    is an arbitrary environment: any send outcome, any stream of replies. */
module ProbeAccounting {
  import opened Numbers
  import opened ProbeSchedule

  const DF_CONFIRMATION_PROBES := 15
  const REPLY_DRAIN_INTERVAL_MS := 10

  datatype Pending = Pending(kind: ProbeKind, target: nat, socket: nat, sentNs: nat)

  datatype Stats = Stats(
    sent: nat, received: nat, rttsMs: seq<real>, mtuDrops: nat, invalidSent: nat, localErrors: nat)

  const NO_STATS := Stats(0, 0, [], 0, 0, 0)

  datatype SendOutcome =
    | Sent(sentNs: nat)
    | MessageTooBig      // EMSGSIZE
    | TransientLocal     // would block, no buffers
    | PathError          // unreachable, refused, denied
    | FatalSend

  /** A received datagram: its decoded header, if it is one, and its kernel timestamp, if any. */
  datatype Reply =
    | Packet(header: Option<(nat, nat)>, receivedNs: Option<nat>)
    | ReceiveFailed

  /** What the world does: the outcome of the send with a given sequence number, the datagrams
      waiting at the n-th drain, and the clock at the n-th reading (ms). */
  datatype Environment = Environment(
    outcome: nat -> SendOutcome, replies: nat -> seq<Reply>, clock: nat -> nat)
  {
    /** The datagrams waiting at the n-th drain after the confirmations. */
    function LateReplies(n: nat): seq<Reply> { replies(n + 2) }

    /** A sleep advances the clock by at least its length. */
    ghost predicate Valid() {
      forall i: nat :: clock(i) + REPLY_DRAIN_INTERVAL_MS <= clock(i + 1)
    }
  }

  datatype ProbeResult = ProbeResult(
    packetsSent: nat, packetsLost: nat, packetLoss: real, portsActive: nat,
    dfPacketsSent: nat, dfPacketsLost: nat, dfMtuDrops: nat, localProbeErrors: nat)

  function AdjustedRttNs(sentNs: nat, receivedNs: nat, responderNs: nat): nat {
    SaturatingSub(SaturatingSub(receivedNs, sentNs), responderNs)
  }

  /** Sending, the responder's time and the round trip add up to the arrival; what would be negative
      counts as no time at all. */
  lemma RoundTripAddsUp(sentNs: nat, receivedNs: nat, responderNs: nat)
    ensures var rtt := AdjustedRttNs(sentNs, receivedNs, responderNs);
      if receivedNs >= sentNs + responderNs then sentNs + responderNs + rtt == receivedNs else rtt == 0
  {
  }

  function ValidSent(s: Stats): nat { SaturatingSub(s.sent, s.invalidSent) }

  function PercentageLost(s: Stats): real {
    if ValidSent(s) == 0 then 100.0
    else SaturatingSub(ValidSent(s), s.received) as real / ValidSent(s) as real * 100.0
  }

  function BuildResult(rtt: Stats, df: Stats, activePorts: nat): ProbeResult {
    ProbeResult(ValidSent(rtt), SaturatingSub(ValidSent(rtt), rtt.received), PercentageLost(rtt), activePorts,
                ValidSent(df), SaturatingSub(ValidSent(df), df.received), df.mtuDrops,
                rtt.localErrors + df.localErrors)
  }

  // ---------------------------------------------------------------- counting

  /** Probes of one kind to one target that are still unanswered. */
  ghost function InFlight(pending: map<nat, Pending>, kind: ProbeKind, target: nat): nat {
    |Waiting(pending, kind, target)|
  }

  ghost function Waiting(pending: map<nat, Pending>, kind: ProbeKind, target: nat): set<nat> {
    set q | q in pending && pending[q].kind == kind && pending[q].target == target
  }

  ghost predicate NonePending(pending: map<nat, Pending>, kind: ProbeKind, target: nat) {
    forall q :: q in pending ==> pending[q].kind != kind || pending[q].target != target
  }

  lemma NoneInFlight(pending: map<nat, Pending>, kind: ProbeKind, target: nat)
    ensures InFlight(pending, kind, target) == 0 <==> NonePending(pending, kind, target)
  {
    if InFlight(pending, kind, target) == 0 {
      assert Waiting(pending, kind, target) == {};
      forall q | q in pending ensures pending[q].kind != kind || pending[q].target != target {
        assert q !in Waiting(pending, kind, target);
      }
    }
  }

  lemma RemoveWaiting(pending: map<nat, Pending>, q: nat, kind: ProbeKind, target: nat)
    requires q in pending
    ensures InFlight(pending, kind, target)
         == InFlight(pending - {q}, kind, target)
            + (if pending[q].kind == kind && pending[q].target == target then 1 else 0)
  {
    assert Waiting(pending - {q}, kind, target) == Waiting(pending, kind, target) - {q};
    assert q in Waiting(pending, kind, target) <==> pending[q].kind == kind && pending[q].target == target;
    hide Waiting;
  }

  lemma InsertWaiting(pending: map<nat, Pending>, q: nat, item: Pending, kind: ProbeKind, target: nat)
    requires q !in pending
    ensures InFlight(pending[q := item], kind, target)
         == InFlight(pending, kind, target) + (if item.kind == kind && item.target == target then 1 else 0)
  {
    RemoveWaiting(pending[q := item], q, kind, target);
    assert pending[q := item] - {q} == pending;
  }

  /** How often probes of one kind to one target occur in a queue. */
  ghost function Attempts(queue: seq<Queued>, kind: ProbeKind, target: nat): nat {
    if queue == [] then 0
    else
      var last := queue[|queue| - 1];
      Attempts(queue[..|queue| - 1], kind, target) + (if last.kind == kind && last.target == target then 1 else 0)
  }

  lemma AttemptsPush(queue: seq<Queued>, x: Queued, kind: ProbeKind, target: nat)
    ensures Attempts(queue + [x], kind, target)
         == Attempts(queue, kind, target) + (if x.kind == kind && x.target == target then 1 else 0)
  {
    assert (queue + [x])[..|queue|] == queue;
  }

  /** The ways a send can fail without ending the cycle. */
  datatype Failure = OnPath | TooBig | LocalOnly

  predicate FailsBy(outcome: SendOutcome, f: Failure) {
    match f
    case OnPath => outcome.PathError?
    case TooBig => outcome.MessageTooBig?
    case LocalOnly => outcome.TransientLocal?
  }

  /** How many of the attempts of one kind and target failed in one way. */
  ghost function Failures(attempted: seq<Queued>, outcomes: seq<SendOutcome>, kind: ProbeKind, target: nat, f: Failure): nat {
    if attempted == [] || outcomes == [] then 0
    else
      var x, o := attempted[|attempted| - 1], outcomes[|outcomes| - 1];
      Failures(attempted[..|attempted| - 1], outcomes[..|outcomes| - 1], kind, target, f)
      + (if x.kind == kind && x.target == target && FailsBy(o, f) then 1 else 0)
  }

  lemma FailuresPush(attempted: seq<Queued>, outcomes: seq<SendOutcome>, x: Queued, o: SendOutcome,
                     kind: ProbeKind, target: nat, f: Failure)
    ensures Failures(attempted + [x], outcomes + [o], kind, target, f)
         == Failures(attempted, outcomes, kind, target, f)
            + (if x.kind == kind && x.target == target && FailsBy(o, f) then 1 else 0)
  {
    assert (attempted + [x])[..|attempted|] == attempted && (outcomes + [o])[..|outcomes|] == outcomes;
  }

  lemma {:induction false} AttemptsConcat(a: seq<Queued>, b: seq<Queued>, kind: ProbeKind, target: nat)
    ensures Attempts(a + b, kind, target) == Attempts(a, kind, target) + Attempts(b, kind, target)
  {
    if b == [] {
      assert a + b == a;
    } else {
      AttemptsConcat(a, b[..|b| - 1], kind, target);
      assert (a + b)[..|a + b| - 1] == a + b[..|b| - 1];
    }
  }

  lemma {:induction false} AttemptsInRow(row: nat, sockets: nat, kind: ProbeKind, target: nat)
    ensures Attempts(SocketProbes(row, sockets), kind, target) == if kind.Rtt? && row == target then sockets else 0
  {
    if sockets > 0 {
      AttemptsInRow(row, sockets - 1, kind, target);
      assert SocketProbes(row, sockets)[..sockets - 1] == SocketProbes(row, sockets - 1);
    }
  }

  function FirstDfProbes(sockets: nat): nat { if sockets == 0 then 0 else 1 }

  /** The queue attempts one RTT probe per socket and one DF probe per target. */
  lemma {:induction false} AttemptsInQueue(targets: nat, sockets: nat, kind: ProbeKind, target: nat)
    ensures Attempts(ProbeQueue(targets, sockets), kind, target)
         == if target >= targets then 0 else if kind.Rtt? then sockets else FirstDfProbes(sockets)
  {
    if sockets == 0 {
      EmptyQueue(targets);
    } else if targets > 0 {
      var row := targets - 1;
      var last := Queued(Df, row, DfSocket(row, sockets));
      AttemptsInQueue(row, sockets, kind, target);
      AttemptsInRow(row, sockets, kind, target);
      hide SocketProbes;
      hide DfSocket;
      AttemptsConcat(ProbeQueue(row, sockets), SocketProbes(row, sockets), kind, target);
      AttemptsPush(ProbeQueue(row, sockets) + SocketProbes(row, sockets), last, kind, target);
      assert ProbeQueue(targets, sockets) == ProbeQueue(row, sockets) + SocketProbes(row, sockets) + [last];
      hide Attempts;
      hide ProbeQueue;
    } else {
      assert ProbeQueue(0, sockets) == [];
    }
  }

  lemma AttemptsRotated(queue: seq<Queued>, phase: nat, kind: ProbeKind, target: nat)
    ensures Attempts(RotateProbeSchedule(queue, phase), kind, target) == Attempts(queue, kind, target)
  {
    if queue != [] {
      var k := phase % |queue|;
      AttemptsConcat(queue[..k], queue[k..], kind, target);
      AttemptsConcat(queue[k..], queue[..k], kind, target);
      assert queue == queue[..k] + queue[k..];
    }
  }

  // ---------------------------------------------------------------- the cycle

  /** An oversized datagram was sent as far as loss is concerned, but is neither valid nor answerable;
      a busy local socket is no attempt at all; an unreachable path is a loss. */
  function AfterSend(s: Stats, outcome: SendOutcome): Stats {
    match outcome
    case Sent(_) => s.(sent := s.sent + 1)
    case PathError => s.(sent := s.sent + 1)
    case MessageTooBig =>
      s.(sent := s.sent + 1, mtuDrops := s.mtuDrops + 1, invalidSent := s.invalidSent + 1, localErrors := s.localErrors + 1)
    case TransientLocal => s.(localErrors := s.localErrors + 1)
    case FatalSend => s
  }

  /** A reply without a kernel timestamp invalidates its probe; any other one is a sample. */
  function AfterReply(s: Stats, item: Pending, responderNs: nat, receivedNs: Option<nat>): Stats {
    if receivedNs.None? then s.(invalidSent := s.invalidSent + 1, localErrors := s.localErrors + 1)
    else
      var adjusted := AdjustedRttNs(item.sentNs, receivedNs.value, responderNs);
      s.(received := s.received + 1, rttsMs := s.rttsMs + [adjusted as real / 1000000.0])
  }

  /** A probe whose first reply has been taken into account, and that reply. */
  datatype Settled = Settled(sequence: nat, item: Pending, responderNs: nat, receivedNs: Option<nat>)

  predicate About(item: Pending, kind: ProbeKind, target: nat) { item.kind == kind && item.target == target }

  /** The round-trip times of the timestamped replies about one kind and target, in order. */
  ghost function Samples(settled: seq<Settled>, kind: ProbeKind, target: nat): seq<real> {
    if settled == [] then []
    else
      var e := settled[|settled| - 1];
      Samples(settled[..|settled| - 1], kind, target)
      + (if About(e.item, kind, target) && e.receivedNs.Some?
         then [AdjustedRttNs(e.item.sentNs, e.receivedNs.value, e.responderNs) as real / 1000000.0] else [])
  }

  /** How many replies about one kind and target had no timestamp. */
  ghost function Untimed(settled: seq<Settled>, kind: ProbeKind, target: nat): nat {
    if settled == [] then 0
    else
      var e := settled[|settled| - 1];
      Untimed(settled[..|settled| - 1], kind, target) + (if About(e.item, kind, target) && e.receivedNs.None? then 1 else 0)
  }

  /** The unanswered probes and the settled ones. */
  datatype Books = Books(pending: map<nat, Pending>, settled: seq<Settled>)

  /** One datagram: only the first one with the number of a pending probe counts. */
  function Take(b: Books, r: Reply): Books {
    if r.Packet? && r.header.Some? && r.header.value.0 in b.pending then
      var (q, responderNs) := r.header.value;
      Books(b.pending - {q}, b.settled + [Settled(q, b.pending[q], responderNs, r.receivedNs)])
    else b
  }

  function TakeAll(b: Books, replies: seq<Reply>): Books {
    if replies == [] then b else Take(TakeAll(b, replies[..|replies| - 1]), replies[|replies| - 1])
  }

  /** The sends of a queue, from number `first` on. */
  ghost function SendBooks(b: Books, first: nat, queue: seq<Queued>, env: Environment): Books {
    if queue == [] then b
    else
      var n := |queue| - 1;
      var before := SendBooks(b, first, queue[..n], env);
      Books(WithSend(before.pending, first + n, queue[n], env.outcome(first + n)), before.settled)
  }

  lemma SendAdds(pending: map<nat, Pending>, sequence: nat, x: Queued, outcome: SendOutcome)
    ensures var now := WithSend(pending, sequence, x, outcome);
      forall q :: q in now ==>
        (q in pending && now[q] == pending[q]) || (q == sequence && now[q].target == x.target)
  {
  }

  lemma SendBooksPush(b: Books, first: nat, queue: seq<Queued>, x: Queued, env: Environment)
    ensures var before, q := SendBooks(b, first, queue, env), first + |queue|;
      SendBooks(b, first, queue + [x], env) == Books(WithSend(before.pending, q, x, env.outcome(q)), before.settled)
  {
    assert (queue + [x])[..|queue|] == queue;
  }

  lemma {:induction false} SendBooksConcat(b: Books, first: nat, queue: seq<Queued>, more: seq<Queued>, env: Environment)
    ensures SendBooks(b, first, queue + more, env) == SendBooks(SendBooks(b, first, queue, env), first + |queue|, more, env)
  {
    if more == [] {
      assert queue + more == queue;
    } else {
      var n := |more| - 1;
      SendBooksConcat(b, first, queue, more[..n], env);
      assert (queue + more)[..|queue + more| - 1] == queue + more[..n];
    }
  }

  /** The first `n` drains after the confirmations. */
  ghost function LateBooks(b: Books, env: Environment, n: nat): Books {
    if n == 0 then b else TakeAll(LateBooks(b, env, n - 1), env.LateReplies(n - 1))
  }

  /** Before each of the first `n` late drains there was time, something was pending, and none failed. */
  ghost predicate KeepsDraining(b: Books, env: Environment, deadline: nat, n: nat) {
    forall k :: 0 <= k < n ==>
      env.clock(k) < deadline && LateBooks(b, env, k).pending != map[] && ReceiveFailed !in env.LateReplies(k)
  }

  lemma DrainsOn(b: Books, env: Environment, deadline: nat, n: nat)
    ensures LateBooks(b, env, 0) == b && KeepsDraining(b, env, deadline, 0)
    ensures LateBooks(b, env, n + 1) == TakeAll(LateBooks(b, env, n), env.LateReplies(n))
    ensures KeepsDraining(b, env, deadline, n + 1) <==>
      && KeepsDraining(b, env, deadline, n)
      && env.clock(n) < deadline && LateBooks(b, env, n).pending != map[] && ReceiveFailed !in env.LateReplies(n)
  {
    hide LateBooks;
    hide TakeAll;
    LateStep(b, env, n);
  }

  lemma LateStep(b: Books, env: Environment, n: nat)
    ensures LateBooks(b, env, 0) == b
    ensures LateBooks(b, env, n + 1) == TakeAll(LateBooks(b, env, n), env.LateReplies(n))
  {
  }

  /** The first round: a queue is sent, and two drains follow. */
  ghost function EarlyBooks(b: Books, first: nat, queue: seq<Queued>, env: Environment): Books {
    TakeAll(TakeAll(SendBooks(b, first, queue, env), env.replies(0)), env.replies(1))
  }

  /** Some datagram of the batch carries this sequence number. */
  ghost predicate Answers(replies: seq<Reply>, sequenceNumber: nat) {
    exists r :: r in replies && r.Packet? && r.header.Some? && r.header.value.0 == sequenceNumber
  }

  /** The entry was made from a datagram of the batch. */
  ghost predicate Came(replies: seq<Reply>, e: Settled) {
    Packet(Some((e.sequence, e.responderNs)), e.receivedNs) in replies
  }

  /** The answered probes are settled, from datagrams of the batch; the others are as they were. */
  ghost predicate Drained(b: Books, now: Books, replies: seq<Reply>) {
    && (forall q :: q in now.pending <==> q in b.pending && !Answers(replies, q))
    && (forall q :: q in now.pending ==> now.pending[q] == b.pending[q])
    && b.settled <= now.settled
    && (forall i :: |b.settled| <= i < |now.settled| ==> Came(replies, now.settled[i]))
  }

  lemma {:induction false} TakeAllDrains(b: Books, replies: seq<Reply>)
    ensures Drained(b, TakeAll(b, replies), replies)
  {
    if replies != [] {
      var front, r := replies[..|replies| - 1], replies[|replies| - 1];
      TakeAllDrains(b, front);
      assert replies == front + [r];
      forall q: nat ensures Answers(replies, q) <==> Answers(front, q) || (r.Packet? && r.header.Some? && r.header.value.0 == q) {
        if Answers(front, q) {
          var x :| x in front && x.Packet? && x.header.Some? && x.header.value.0 == q;
          assert x in replies;
        }
        assert r in replies;
      }
      hide Answers;
    }
  }

  /** ... of the first `n` drains after the confirmations. */
  ghost predicate DrainedLate(b: Books, now: Books, env: Environment, n: nat) {
    && (forall q :: q in now.pending ==> q in b.pending && now.pending[q] == b.pending[q])
    && (forall k, q :: 0 <= k < n && q in now.pending ==> !Answers(env.LateReplies(k), q))
    && b.settled <= now.settled
    && (forall i :: |b.settled| <= i < |now.settled| ==> CameBy(env, n + 2, now.settled[i]))
  }

  ghost predicate CameBy(env: Environment, n: nat, e: Settled) {
    exists k :: 0 <= k < n && Came(env.replies(k), e)
  }

  lemma NothingLate(b: Books, env: Environment)
    ensures DrainedLate(b, b, env, 0)
  {
  }

  lemma CameLater(env: Environment, m: nat, n: nat, e: Settled)
    requires CameBy(env, m, e) && m <= n
    ensures CameBy(env, n, e)
  {
    var k :| 0 <= k < m && Came(env.replies(k), e);
    assert Came(env.replies(k), e);
  }

  lemma OneDrainMore(b: Books, before: Books, now: Books, env: Environment, n: nat)
    requires DrainedLate(b, before, env, n) && Drained(before, now, env.LateReplies(n))
    ensures DrainedLate(b, now, env, n + 1)
  {
    hide Answers;
    hide Came;
    forall i | |b.settled| <= i < |now.settled| ensures CameBy(env, n + 3, now.settled[i]) {
      if i < |before.settled| {
        assert now.settled[i] == before.settled[i];
        CameLater(env, n + 2, n + 3, now.settled[i]);
      } else {
        assert Came(env.replies(n + 2), now.settled[i]);
      }
    }
  }

  /** After the two drains of the first round. */
  ghost predicate EarlyHeard(b: Books, env: Environment) {
    && (forall i :: 0 <= i < |b.settled| ==> CameBy(env, 2, b.settled[i]))
    && (forall q :: q in b.pending ==> !Answers(env.replies(0), q) && !Answers(env.replies(1), q))
  }

  lemma EarlyDrains(b: Books, middle: Books, now: Books, env: Environment)
    requires b.settled == [] && Drained(b, middle, env.replies(0)) && Drained(middle, now, env.replies(1))
    ensures EarlyHeard(now, env)
  {
    hide Answers;
    hide Came;
    forall i | 0 <= i < |now.settled| ensures CameBy(env, 2, now.settled[i]) {
      if i < |middle.settled| {
        assert Came(env.replies(0), now.settled[i]);
      } else {
        assert Came(env.replies(1), now.settled[i]);
      }
    }
  }

  /** What counts as an answer in a whole cycle with `n` late drains: every settled probe was settled by
      a datagram that was received, and no probe is left pending that a datagram received after its
      round of sends would answer. The first round ends before probe number `second`. */
  ghost predicate AllHeard(b: Books, env: Environment, n: nat, second: nat) {
    && (forall i :: 0 <= i < |b.settled| ==> CameBy(env, n + 2, b.settled[i]))
    && (forall k, q :: 0 <= k < n && q in b.pending ==> !Answers(env.LateReplies(k), q))
    && (forall q :: q in b.pending && q < second ==> !Answers(env.replies(0), q) && !Answers(env.replies(1), q))
  }

  lemma EarlyAndLate(early: Books, sent: Books, now: Books, env: Environment, n: nat, second: nat)
    requires EarlyHeard(early, env) && sent.settled == early.settled && DrainedLate(sent, now, env, n)
    requires forall q :: q in sent.pending && q < second ==> q in early.pending
    ensures AllHeard(now, env, n, second)
  {
    hide Answers;
    hide Came;
    forall i | 0 <= i < |now.settled| ensures CameBy(env, n + 2, now.settled[i]) {
      if i < |sent.settled| {
        assert now.settled[i] == early.settled[i];
        CameLater(env, 2, n + 2, now.settled[i]);
      }
    }
  }

  lemma NothingPending(b: Books, now: Books, replies: seq<Reply>)
    requires Drained(b, now, replies)
    ensures b.pending == map[] ==> now.pending == map[]
  {
    if b.pending == map[] { assert forall q :: q !in now.pending; }
  }

  /** Probe number `q` went out, and is the one described. */
  ghost predicate WentOut(first: nat, attempted: seq<Queued>, outcomes: seq<SendOutcome>, q: nat, item: Pending) {
    && first <= q < first + |attempted| && |outcomes| == |attempted|
    && outcomes[q - first] == Sent(item.sentNs)
    && attempted[q - first] == Queued(item.kind, item.target, item.socket)
  }

  ghost predicate IsSettled(settled: seq<Settled>, q: nat) {
    exists i :: 0 <= i < |settled| && settled[i].sequence == q
  }

  /** Every probe that went out is either unanswered or settled, by one reply; nothing else is. */
  ghost predicate Kept(first: nat, attempted: seq<Queued>, outcomes: seq<SendOutcome>, b: Books) {
    && |outcomes| == |attempted|
    && (forall q :: q in b.pending ==> WentOut(first, attempted, outcomes, q, b.pending[q]))
    && (forall i :: 0 <= i < |b.settled| ==>
          && WentOut(first, attempted, outcomes, b.settled[i].sequence, b.settled[i].item)
          && b.settled[i].sequence !in b.pending)
    && (forall i, j :: 0 <= i < j < |b.settled| ==> b.settled[i].sequence != b.settled[j].sequence)
    && (forall k :: 0 <= k < |outcomes| && outcomes[k].Sent? ==> first + k in b.pending || IsSettled(b.settled, first + k))
  }

  lemma SettledWereSent(first: nat, attempted: seq<Queued>, outcomes: seq<SendOutcome>, b: Books)
    requires Kept(first, attempted, outcomes, b)
    ensures b.settled != [] ==> attempted != []
  {
    if b.settled != [] {
      assert WentOut(first, attempted, outcomes, b.settled[0].sequence, b.settled[0].item);
    }
  }

  lemma KeptBySend(first: nat, attempted: seq<Queued>, outcomes: seq<SendOutcome>, b: Books, x: Queued, o: SendOutcome)
    requires Kept(first, attempted, outcomes, b)
    ensures Kept(first, attempted + [x], outcomes + [o], b.(pending := WithSend(b.pending, first + |attempted|, x, o)))
    ensures first + |attempted| !in b.pending
  {
    var pending := WithSend(b.pending, first + |attempted|, x, o);
    forall q | q in pending ensures WentOut(first, attempted + [x], outcomes + [o], q, pending[q]) {
      if q in b.pending { assert WentOut(first, attempted, outcomes, q, b.pending[q]); }
    }
  }

  lemma KeptByReply(first: nat, attempted: seq<Queued>, outcomes: seq<SendOutcome>, b: Books, r: Reply)
    requires Kept(first, attempted, outcomes, b)
    ensures Kept(first, attempted, outcomes, Take(b, r))
  {
    hide WentOut;
    var now := Take(b, r);
    if now != b {
      var n := |b.settled|;
      assert now.settled[n].sequence == r.header.value.0;
      forall k | 0 <= k < |outcomes| && outcomes[k].Sent?
        ensures first + k in now.pending || IsSettled(now.settled, first + k)
      {
        if IsSettled(b.settled, first + k) {
          var i :| 0 <= i < n && b.settled[i].sequence == first + k;
          assert now.settled[i].sequence == first + k;
        }
      }
    }
  }

  /** Everything sent was received, invalidated, is still unanswered or failed on the path; there is
      one sample per reception; oversized datagrams are invalid; every attempt was sent or failed
      locally, and local errors are these failures and the invalid packets. */
  ghost predicate Balances(s: Stats, inFlight: nat, onPath: nat, tooBig: nat, local: nat, attempts: nat) {
    && s.sent == s.received + s.invalidSent + inFlight + onPath
    && |s.rttsMs| == s.received
    && s.mtuDrops == tooBig <= s.invalidSent
    && s.localErrors == s.invalidSent + local
    && attempts == s.sent + local
  }

  /** The law of one kind and target, over the history of sends. */
  ghost predicate Accounts(s: Stats, pending: map<nat, Pending>, attempted: seq<Queued>, outcomes: seq<SendOutcome>,
                           settled: seq<Settled>, k: ProbeKind, t: nat) {
    && s.rttsMs == Samples(settled, k, t)
    && s.invalidSent == Failures(attempted, outcomes, k, t, TooBig) + Untimed(settled, k, t)
    && Balances(s, InFlight(pending, k, t), Failures(attempted, outcomes, k, t, OnPath),
                Failures(attempted, outcomes, k, t, TooBig), Failures(attempted, outcomes, k, t, LocalOnly),
                Attempts(attempted, k, t))
  }

  lemma SendBalances(s: Stats, outcome: SendOutcome, inFlight: nat, onPath: nat, tooBig: nat, local: nat, attempts: nat)
    requires Balances(s, inFlight, onPath, tooBig, local, attempts) && !outcome.FatalSend?
    ensures Balances(AfterSend(s, outcome), inFlight + (if outcome.Sent? then 1 else 0),
                     onPath + (if FailsBy(outcome, OnPath) then 1 else 0), tooBig + (if FailsBy(outcome, TooBig) then 1 else 0),
                     local + (if FailsBy(outcome, LocalOnly) then 1 else 0), attempts + 1)
  {
  }

  function WithSend(pending: map<nat, Pending>, sequence: nat, x: Queued, outcome: SendOutcome): map<nat, Pending> {
    if outcome.Sent? then pending[sequence := Pending(x.kind, x.target, x.socket, outcome.sentNs)] else pending
  }

  /** A send keeps the law of every kind and target, its own and the others. */
  lemma SendKeeps(x: Queued, outcome: SendOutcome, k: ProbeKind, t: nat, s: Stats, pending: map<nat, Pending>,
                  sequence: nat, attempted: seq<Queued>, outcomes: seq<SendOutcome>, settled: seq<Settled>)
    requires Accounts(s, pending, attempted, outcomes, settled, k, t) && !outcome.FatalSend? && sequence !in pending
    ensures Accounts(if x.kind == k && x.target == t then AfterSend(s, outcome) else s,
                     WithSend(pending, sequence, x, outcome), attempted + [x], outcomes + [outcome], settled, k, t)
  {
    hide InFlight;
    hide Attempts;
    hide Failures;
    hide Balances;
    hide AfterSend;
    hide Samples;
    hide Untimed;
    AttemptsPush(attempted, x, k, t);
    FailuresPush(attempted, outcomes, x, outcome, k, t, OnPath);
    FailuresPush(attempted, outcomes, x, outcome, k, t, TooBig);
    FailuresPush(attempted, outcomes, x, outcome, k, t, LocalOnly);
    if outcome.Sent? {
      InsertWaiting(pending, sequence, Pending(x.kind, x.target, x.socket, outcome.sentNs), k, t);
    }
    SendBalances(s, outcome, InFlight(pending, k, t), Failures(attempted, outcomes, k, t, OnPath),
                 Failures(attempted, outcomes, k, t, TooBig), Failures(attempted, outcomes, k, t, LocalOnly),
                 Attempts(attempted, k, t));
    SendFails(s, outcome);
  }

  /** Which of the counts that a row is built from a send moves. */
  lemma SendFails(s: Stats, outcome: SendOutcome)
    requires !outcome.FatalSend?
    ensures var now := AfterSend(s, outcome);
      now.rttsMs == s.rttsMs && now.invalidSent == s.invalidSent + if FailsBy(outcome, TooBig) then 1 else 0
  {
  }

  /** A reply keeps the law of every kind and target. */
  lemma ReplyKeeps(r: Reply, k: ProbeKind, t: nat, s: Stats, b: Books, attempted: seq<Queued>, outcomes: seq<SendOutcome>)
    requires Accounts(s, b.pending, attempted, outcomes, b.settled, k, t)
    requires r.Packet? && r.header.Some? && r.header.value.0 in b.pending
    ensures var (q, responderNs) := r.header.value;
      var item, now := b.pending[q], Take(b, r);
      Accounts(if About(item, k, t) then AfterReply(s, item, responderNs, r.receivedNs) else s,
               now.pending, attempted, outcomes, now.settled, k, t)
  {
    var (q, responderNs) := r.header.value;
    RemoveWaiting(b.pending, q, k, t);
    assert Take(b, r).settled[..|b.settled|] == b.settled;
    hide InFlight;
    hide Attempts;
    hide Failures;
  }

  class ProbeCycle {
    const targets: nat
    const sockets: nat
    var sequence: nat
    var pending: map<nat, Pending>
    var rtt: seq<Stats>
    var df: seq<Stats>
    /** Every probe sent or tried, in order, what became of each send, and the number of the first. */
    ghost var attempted: seq<Queued>
    ghost var outcomes: seq<SendOutcome>
    ghost const first: nat
    /** Every probe that a reply has settled, in order. */
    ghost var settled: seq<Settled>

    function StatsOf(kind: ProbeKind): seq<Stats>
      reads this
    {
      if kind.Rtt? then rtt else df
    }

    /** The conservation law of one kind and target. */
    ghost predicate Conserved(kind: ProbeKind, target: nat)
      requires target < |StatsOf(kind)|
      reads this
    {
      Accounts(StatsOf(kind)[target], pending, attempted, outcomes, settled, kind, target)
    }

    ghost predicate Valid()
      reads this
    {
      && |rtt| == |df| == targets
      && |outcomes| == |attempted| && sequence == first + |attempted|
      && Kept(first, attempted, outcomes, Now())
      && (forall i :: 0 <= i < |attempted| ==> attempted[i].target < targets && attempted[i].socket < sockets)
      && (forall kind, target :: 0 <= target < targets ==> Conserved(kind, target))
    }

    /** The network has decided every send so far. */
    ghost predicate Follows(env: Environment)
      reads this
    {
      forall i :: 0 <= i < |outcomes| ==> outcomes[i] == env.outcome(first + i)
    }

    ghost function Now(): Books
      reads this`pending, this`settled
    {
      Books(pending, settled)
    }

    /** Nothing has been sent since. */
    ghost predicate SameSends(attempted: seq<Queued>, outcomes: seq<SendOutcome>)
      reads this
    {
      this.attempted == attempted && this.outcomes == outcomes
    }

    /** The numbers of one kind and target are now `s`; all others are as before. */
    predicate OnlyChanged(kind: ProbeKind, target: nat, rttBefore: seq<Stats>, dfBefore: seq<Stats>, s: Stats)
      reads this
    {
      && target < |rttBefore| && target < |dfBefore|
      && rtt == (if kind.Rtt? then rttBefore[target := s] else rttBefore)
      && df == (if kind.Rtt? then dfBefore else dfBefore[target := s])
    }

    lemma StatsNow(kind: ProbeKind, target: nat, rttBefore: seq<Stats>, dfBefore: seq<Stats>, s: Stats, k: ProbeKind, t: nat)
      requires OnlyChanged(kind, target, rttBefore, dfBefore, s) && t < |rttBefore| && t < |dfBefore|
      ensures t < |StatsOf(k)|
      ensures StatsOf(k)[t] == if k == kind && t == target then s else if k.Rtt? then rttBefore[t] else dfBefore[t]
    {
    }

    lemma InRangeOf(q: nat)
      requires Valid() && q in pending
      ensures pending[q].target < targets && pending[q].socket < sockets
    {
      assert WentOut(first, attempted, outcomes, q, pending[q]);
    }

    constructor (targets: nat, sockets: nat, sequence: nat)
      ensures Valid() && this.targets == targets && this.sockets == sockets && this.sequence == sequence
      ensures pending == map[] && attempted == [] && outcomes == [] && settled == []
    {
      this.targets, this.sockets, this.sequence, first := targets, sockets, sequence, sequence;
      pending := map[];
      rtt := seq(targets, _ => NO_STATS);
      df := seq(targets, _ => NO_STATS);
      attempted, outcomes, settled := [], [], [];
      new;
      forall kind, t | 0 <= t < targets ensures Conserved(kind, t) {
        assert Waiting(pending, kind, t) == {};
        assert StatsOf(kind)[t] == NO_STATS;
      }
    }

    /** The bookkeeping of one send that was not fatal. */
    method RecordSend(kind: ProbeKind, target: nat, socket: nat, outcome: SendOutcome)
      requires |rtt| == |df| == targets && target < targets && !outcome.FatalSend?
      modifies this
      ensures |rtt| == |df| == targets
      ensures SameSends(old(attempted) + [Queued(kind, target, socket)], old(outcomes) + [outcome])
      ensures sequence == old(sequence) + 1
      ensures settled == old(settled)
      ensures pending == WithSend(old(pending), old(sequence), Queued(kind, target, socket), outcome)
      ensures OnlyChanged(kind, target, old(rtt), old(df), AfterSend(old(StatsOf(kind)[target]), outcome))
    {
      var s := StatsOf(kind)[target];
      match outcome {
        case Sent(sentNs) =>
          s := s.(sent := s.sent + 1);
          pending := pending[sequence := Pending(kind, target, socket, sentNs)];
        case MessageTooBig =>
          s := s.(sent := s.sent + 1, mtuDrops := s.mtuDrops + 1, invalidSent := s.invalidSent + 1,
                  localErrors := s.localErrors + 1);
        case TransientLocal =>
          s := s.(localErrors := s.localErrors + 1);
        case PathError =>
          s := s.(sent := s.sent + 1);
      }
      if kind.Rtt? { rtt := rtt[target := s]; } else { df := df[target := s]; }
      attempted, outcomes := attempted + [Queued(kind, target, socket)], outcomes + [outcome];
      sequence := sequence + 1;
    }

    method SendProbe(kind: ProbeKind, target: nat, socket: nat, outcome: SendOutcome) returns (ok: bool)
      requires Valid() && target < targets && socket < sockets
      modifies this
      ensures Valid() && ok == !outcome.FatalSend?
      ensures !ok ==> unchanged(this)
      ensures ok ==> SameSends(old(attempted) + [Queued(kind, target, socket)], old(outcomes) + [outcome])
      ensures ok ==> sequence == old(sequence) + 1
      ensures settled == old(settled)
      ensures ok ==> pending == WithSend(old(pending), old(sequence), Queued(kind, target, socket), outcome)
      ensures ok ==> OnlyChanged(kind, target, old(rtt), old(df), AfterSend(old(StatsOf(kind)[target]), outcome))
    {
      if outcome.FatalSend? { return false; }
      hide Accounts;
      hide AfterSend;
      hide OnlyChanged;
      hide Kept;
      hide WithSend;
      KeptBySend(first, attempted, outcomes, Now(), Queued(kind, target, socket), outcome);
      RecordSend(kind, target, socket, outcome);
      ok := true;
      forall k, t | 0 <= t < targets ensures Conserved(k, t) {
        assert old(Conserved(k, t));
        SendKeeps(Queued(kind, target, socket), outcome, k, t, old(StatsOf(k)[t]), old(pending), old(sequence),
                  old(attempted), old(outcomes), settled);
        StatsNow(kind, target, old(rtt), old(df), AfterSend(old(StatsOf(kind)[target]), outcome), k, t);
      }
    }

    /** The bookkeeping of one reply to a pending probe. */
    method RecordReply(sequenceNumber: nat, responderNs: nat, receivedNs: Option<nat>)
      requires |rtt| == |df| == targets && sequenceNumber in pending && pending[sequenceNumber].target < targets
      modifies this`pending, this`settled, this`rtt, this`df
      ensures |rtt| == |df| == targets
      ensures Now()
           == Take(old(Now()), Packet(Some((sequenceNumber, responderNs)), receivedNs))
      ensures OnlyChanged(old(pending[sequenceNumber].kind), old(pending[sequenceNumber].target), old(rtt), old(df),
                AfterReply(old(StatsOf(pending[sequenceNumber].kind)[pending[sequenceNumber].target]),
                           old(pending[sequenceNumber]), responderNs, receivedNs))
    {
      var item := pending[sequenceNumber];
      var s := StatsOf(item.kind)[item.target];
      if receivedNs.None? {
        s := s.(invalidSent := s.invalidSent + 1, localErrors := s.localErrors + 1);
      } else {
        var adjusted := AdjustedRttNs(item.sentNs, receivedNs.value, responderNs);
        s := s.(received := s.received + 1, rttsMs := s.rttsMs + [adjusted as real / 1000000.0]);
      }
      pending := pending - {sequenceNumber};
      settled := settled + [Settled(sequenceNumber, item, responderNs, receivedNs)];
      if item.kind.Rtt? { rtt := rtt[item.target := s]; } else { df := df[item.target := s]; }
    }

    /** The first reply to a pending probe settles it. */
    method SettleProbe(sequenceNumber: nat, responderNs: nat, receivedNs: Option<nat>)
      requires Valid() && sequenceNumber in pending
      modifies this`pending, this`settled, this`rtt, this`df
      ensures Valid()
      ensures Now()
           == Take(old(Now()), Packet(Some((sequenceNumber, responderNs)), receivedNs))
      ensures OnlyChanged(old(pending[sequenceNumber].kind), old(pending[sequenceNumber].target), old(rtt), old(df),
                AfterReply(old(StatsOf(pending[sequenceNumber].kind)[pending[sequenceNumber].target]),
                           old(pending[sequenceNumber]), responderNs, receivedNs))
    {
      hide Accounts;
      hide AfterReply;
      hide Kept;
      hide OnlyChanged;
      InRangeOf(sequenceNumber);
      ghost var item, rttBefore, dfBefore := pending[sequenceNumber], rtt, df;
      ghost var settledStats := AfterReply(StatsOf(item.kind)[item.target], item, responderNs, receivedNs);
      ghost var books, reply := Now(), Packet(Some((sequenceNumber, responderNs)), receivedNs);
      KeptByReply(first, attempted, outcomes, books, reply);
      RecordReply(sequenceNumber, responderNs, receivedNs);
      hide Take;
      ghost var now := Take(books, reply);
      assert now.pending == pending && now.settled == settled;
      forall k, t | 0 <= t < targets ensures Conserved(k, t) {
        assert old(Conserved(k, t));
        ReplyKeeps(reply, k, t, old(StatsOf(k)[t]), books, attempted, outcomes);
        StatsNow(item.kind, item.target, rttBefore, dfBefore, settledStats, k, t);
      }
    }

    /** Takes one received datagram into account. */
    method TakeReply(sequenceNumber: nat, responderNs: nat, receivedNs: Option<nat>)
      requires Valid()
      modifies this`pending, this`settled, this`rtt, this`df
      ensures Valid()
      ensures Now()
           == Take(old(Now()), Packet(Some((sequenceNumber, responderNs)), receivedNs))
      ensures sequenceNumber !in old(pending) ==> unchanged(this)
      ensures sequenceNumber in old(pending) ==>
        OnlyChanged(old(pending[sequenceNumber].kind), old(pending[sequenceNumber].target), old(rtt), old(df),
          AfterReply(old(StatsOf(pending[sequenceNumber].kind)[pending[sequenceNumber].target]),
                     old(pending[sequenceNumber]), responderNs, receivedNs))
    {
      hide Kept;
      hide Conserved;
      hide OnlyChanged;
      hide AfterReply;
      if sequenceNumber in pending { SettleProbe(sequenceNumber, responderNs, receivedNs); }
    }

    lemma NothingSentYet(b: Books, first: nat, env: Environment)
      ensures SendBooks(b, first, [], env) == b && Confirmations([]) == []
    {
    }

    /** Drains every datagram waiting on the sockets.  Datagrams without a header, duplicates and
        stale sequence numbers leave no trace. */
    method DrainReplies(replies: seq<Reply>) returns (ok: bool)
      requires Valid()
      modifies this
      ensures Valid() && SameSends(old(attempted), old(outcomes))
      ensures ok == (ReceiveFailed !in replies)
      ensures ok ==> Now() == TakeAll(old(Now()), replies)
      ensures ok ==> Drained(old(Now()), Now(), replies)
    {
      hide Kept;
      hide Conserved;
      ghost var books := Now();
      assert replies[..0] == [];
      for i := 0 to |replies|
        invariant Valid() && SameSends(old(attempted), old(outcomes))
        invariant ReceiveFailed !in replies[..i]
        invariant Now() == TakeAll(books, replies[..i])
      {
        assert replies[..i + 1] == replies[..i] + [replies[i]];
        assert replies[..i + 1][..i] == replies[..i];
        match replies[i] {
          case ReceiveFailed => return false;
          case Packet(header, receivedNs) =>
            if header.Some? { TakeReply(header.value.0, header.value.1, receivedNs); }
        }
      }
      assert replies[..|replies|] == replies;
      TakeAllDrains(books, replies);
      ok := true;
    }

    /** The unanswered DF probes, in the map's arbitrary iteration order. */
    method UnansweredDfTargets() returns (unanswered: seq<(nat, nat)>)
      requires Valid()
      ensures forall x :: x in unanswered ==> IsUnanswered(pending, x) && x.0 < targets && x.1 < sockets
      ensures forall t :: CountTarget(unanswered, t) == InFlight(pending, Df, t)
    {
      unanswered := [];
      InRange();
      hide Kept;
      hide Conserved;
      var left := pending;
      assert forall t :: InFlight(pending, Df, t) == InFlight(left, Df, t);
      while left.Keys != {}
        invariant left.Keys <= pending.Keys && forall q :: q in left ==> left[q] == pending[q]
        invariant forall x :: x in unanswered ==> IsUnanswered(pending, x) && x.0 < targets && x.1 < sockets
        invariant forall t :: CountTarget(unanswered, t) + InFlight(left, Df, t) == InFlight(pending, Df, t)
        decreases left.Keys
      {
        var q :| q in left.Keys;
        var item := left[q];
        forall t ensures InFlight(left, Df, t) == InFlight(left - {q}, Df, t)
                           + (if item.kind.Df? && item.target == t then 1 else 0) {
          RemoveWaiting(left, q, Df, t);
        }
        left := left - {q};
        if item.kind.Df? { unanswered := unanswered + [(item.target, item.socket)]; }
      }
      assert forall t :: Waiting(left, Df, t) == {};
    }

    lemma InRange()
      requires Valid()
      ensures forall q :: q in pending ==> pending[q].target < targets && pending[q].socket < sockets
    {
      forall q | q in pending ensures pending[q].target < targets && pending[q].socket < sockets { InRangeOf(q); }
    }

    /** The probes of the first round. */
    function Schedule(phase: nat): seq<Queued> { RotateProbeSchedule(ProbeQueue(targets, sockets), phase) }

    /** Sends the rotated queue of the cycle. */
    method SendQueue(phase: nat, env: Environment) returns (ok: bool)
      requires Valid() && attempted == []
      modifies this
      ensures Valid() && Follows(env) && settled == old(settled)
      ensures attempted <= Schedule(phase) && (ok ==> attempted == Schedule(phase))
      ensures !ok ==> env.outcome(sequence).FatalSend?
      ensures ok ==> Now() == SendBooks(old(Now()), first, Schedule(phase), env)
      ensures ok ==> forall k, t :: 0 <= t < targets ==>
                Attempts(attempted, k, t) == if k.Rtt? then sockets else FirstDfProbes(sockets)
    {
      hide Kept;
      hide Conserved;
      hide Attempts;
      var queue := RotateProbeSchedule(ProbeQueue(targets, sockets), phase);
      RotatedQueueInRange(targets, sockets, phase);
      hide WithSend;
      hide SendBooks;
      hide RotateProbeSchedule;
      NothingSentYet(Now(), sequence, env);
      for i := 0 to |queue|
        invariant Valid() && Follows(env) && attempted == queue[..i] && settled == old(settled)
        invariant Now() == SendBooks(old(Now()), first, queue[..i], env)
      {
        SendBooksPush(old(Now()), first, queue[..i], queue[i], env);
        ok := SendProbe(queue[i].kind, queue[i].target, queue[i].socket, env.outcome(sequence));
        if !ok { return; }
        assert queue[..i + 1] == queue[..i] + [queue[i]];
      }
      ok := true;
      assert attempted == queue;
      forall k, t | 0 <= t < targets
        ensures Attempts(attempted, k, t) == if k.Rtt? then sockets else FirstDfProbes(sockets)
      {
        AttemptsRotated(ProbeQueue(targets, sockets), phase, k, t);
        AttemptsInQueue(targets, sockets, k, t);
      }
    }

    /** Repeats each unanswered DF probe, to its target from its socket. */
    method ConfirmUnanswered(unanswered: seq<(nat, nat)>, env: Environment) returns (ok: bool)
      requires Valid() && Follows(env) && forall x :: x in unanswered ==> x.0 < targets && x.1 < sockets
      modifies this
      ensures Valid() && Follows(env) && old(attempted) <= attempted
      ensures !ok ==> env.outcome(sequence).FatalSend?
      ensures ok ==> attempted == old(attempted) + Confirmations(unanswered)
      ensures ok ==> Now() == SendBooks(old(Now()), old(sequence), Confirmations(unanswered), env)
      ensures ok ==> forall t :: Attempts(attempted, Rtt, t) == old(Attempts(attempted, Rtt, t))
      ensures ok ==> (forall t :: Attempts(attempted, Df, t) == old(Attempts(attempted, Df, t))
                                    + DF_CONFIRMATION_PROBES * CountTarget(unanswered, t))
      ensures settled == old(settled)
      ensures forall q :: q in pending ==>
                || (q in old(pending) && pending[q] == old(pending)[q])
                || (q >= old(sequence) && IsTargetOf(unanswered, pending[q].target))
    {
      hide Attempts;
      hide CountTarget;
      hide Conserved;
      hide Kept;
      hide SendBooks;
      ghost var before := attempted;
      NothingSentYet(Now(), sequence, env);
      CountNone(unanswered);
      for i := 0 to |unanswered|
        invariant Valid() && Follows(env) && attempted == before + Confirmations(unanswered[..i])
        invariant Now() == SendBooks(old(Now()), old(sequence), Confirmations(unanswered[..i]), env)
        invariant forall t :: Attempts(attempted, Rtt, t) == Attempts(before, Rtt, t)
        invariant forall t :: Attempts(attempted, Df, t) == Attempts(before, Df, t)
                                + DF_CONFIRMATION_PROBES * CountTarget(unanswered[..i], t)
        invariant settled == old(settled) && sequence >= old(sequence)
        invariant forall q :: q in pending ==>
          || (q in old(pending) && pending[q] == old(pending)[q])
          || (q >= old(sequence) && IsTargetOf(unanswered, pending[q].target))
      {
        var (target, socket) := unanswered[i];
        assert unanswered[i].0 == target && IsTargetOf(unanswered, target);
        SendBooksConcat(old(Now()), old(sequence), Confirmations(unanswered[..i]),
                        Copies(Queued(Df, target, socket), DF_CONFIRMATION_PROBES), env);
        ok := RepeatProbe(target, socket, env);
        if !ok { return; }
        CountPush(unanswered, i);
        ConfirmationsPush(unanswered, i);
      }
      assert unanswered[..|unanswered|] == unanswered;
      ok := true;
    }

    /** Fifteen more DF probes to a target from a socket. */
    method RepeatProbe(target: nat, socket: nat, env: Environment) returns (ok: bool)
      requires Valid() && Follows(env) && target < targets && socket < sockets
      modifies this
      ensures Valid() && Follows(env) && old(attempted) <= attempted
      ensures settled == old(settled) && sequence >= old(sequence)
      ensures !ok ==> env.outcome(sequence).FatalSend?
      ensures ok ==> attempted == old(attempted) + Copies(Queued(Df, target, socket), DF_CONFIRMATION_PROBES)
      ensures ok ==>
        Now() == SendBooks(old(Now()), old(sequence), Copies(Queued(Df, target, socket), DF_CONFIRMATION_PROBES), env)
      ensures ok ==> forall t :: Attempts(attempted, Rtt, t) == old(Attempts(attempted, Rtt, t))
      ensures ok ==> forall t :: Attempts(attempted, Df, t) == old(Attempts(attempted, Df, t))
                                   + (if t == target then DF_CONFIRMATION_PROBES else 0)
      ensures forall q :: q in pending ==>
                || (q in old(pending) && pending[q] == old(pending)[q])
                || (q >= old(sequence) && pending[q].target == target)
    {
      hide Attempts;
      hide Conserved;
      hide Kept;
      hide WithSend;
      hide SendBooks;
      NothingSentYet(Now(), sequence, env);
      ghost var start := attempted;
      for n := 0 to DF_CONFIRMATION_PROBES
        invariant Valid() && Follows(env) && attempted == start + Copies(Queued(Df, target, socket), n)
        invariant Now() == SendBooks(old(Now()), old(sequence), Copies(Queued(Df, target, socket), n), env)
        invariant forall t :: Attempts(attempted, Rtt, t) == Attempts(start, Rtt, t)
        invariant forall t :: Attempts(attempted, Df, t) == Attempts(start, Df, t) + (if t == target then n else 0)
        invariant settled == old(settled) && sequence >= old(sequence)
        invariant forall q :: q in pending ==>
          || (q in old(pending) && pending[q] == old(pending)[q])
          || (q >= old(sequence) && pending[q].target == target)
      {
        ghost var last := attempted;
        SendBooksPush(old(Now()), old(sequence), Copies(Queued(Df, target, socket), n), Queued(Df, target, socket), env);
        assert Copies(Queued(Df, target, socket), n + 1) == Copies(Queued(Df, target, socket), n) + [Queued(Df, target, socket)];
        SendAdds(pending, sequence, Queued(Df, target, socket), env.outcome(sequence));
        ok := SendProbe(Df, target, socket, env.outcome(sequence));
        if !ok { return; }
        forall k, t ensures Attempts(attempted, k, t)
                         == Attempts(last, k, t) + (if k.Df? && t == target then 1 else 0) {
          AttemptsPush(last, Queued(Df, target, socket), k, t);
        }
      }
      ok := true;
    }

    /** Drains until the deadline or until nothing is pending, and once more. */
    method DrainUntil(deadline: nat, env: Environment) returns (ok: bool, ghost last: nat)
      requires Valid() && env.Valid()
      modifies this
      ensures Valid() && SameSends(old(attempted), old(outcomes))
      ensures ok ==> DrainedLate(old(Now()), Now(), env, last + 1)
      ensures ok ==> env.clock(last) >= deadline || pending == map[]
      ensures ok <==> ReceiveFailed !in env.LateReplies(last)
      ensures ok ==> Now() == LateBooks(old(Now()), env, last + 1)
      ensures ok ==> env.clock(last) >= deadline || LateBooks(old(Now()), env, last).pending == map[]
      ensures KeepsDraining(old(Now()), env, deadline, last)
    {
      hide Kept;
      hide Conserved;
      hide Drained;
      hide DrainedLate;
      hide TakeAll;
      hide LateBooks;
      hide KeepsDraining;
      hide Answers;
      hide NonePending;
      ghost var books := Now();
      NothingLate(books, env);
      DrainsOn(books, env, deadline, 0);
      var n := 0;
      last := 0;
      while env.clock(n) < deadline && pending != map[]
        invariant Valid() && SameSends(old(attempted), old(outcomes))
        invariant DrainedLate(books, Now(), env, n)
        invariant Now() == LateBooks(books, env, n)
        invariant KeepsDraining(books, env, deadline, n)
        decreases deadline - env.clock(n)
      {
        ghost var before := Now();
        ok := DrainReplies(env.LateReplies(n));
        if !ok {
          last := n;
          return;
        }
        OneDrainMore(books, before, Now(), env, n);
        DrainsOn(books, env, deadline, n);
        n := n + 1;
      }
      last := n;
      LateStep(books, env, n);
      ghost var before := Now();
      ok := DrainReplies(env.LateReplies(n));
      if ok {
        OneDrainMore(books, before, Now(), env, n);
        NothingPending(before, Now(), env.LateReplies(n));
      }
    }

    /** The first round: send the queue and drain twice. */
    method FirstRound(phase: nat, env: Environment) returns (ok: bool)
      requires Valid() && attempted == []
      modifies this
      ensures Valid() && Follows(env)
      ensures attempted <= Schedule(phase)
      ensures !ok ==> env.outcome(sequence).FatalSend? || ReceiveFailed in env.replies(0) || ReceiveFailed in env.replies(1)
      ensures ok ==> ReceiveFailed !in env.replies(0) && ReceiveFailed !in env.replies(1)
      ensures ok ==> attempted == Schedule(phase) && EarlyHeard(Now(), env)
      ensures ok ==> Now() == EarlyBooks(old(Now()), first, Schedule(phase), env)
      ensures ok ==> forall k, t :: 0 <= t < targets ==>
                Attempts(attempted, k, t) == if k.Rtt? then sockets else FirstDfProbes(sockets)
    {
      hide SendBooks;
      hide Schedule;
      hide Answers;
      hide InFlight;
      SettledWereSent(first, attempted, outcomes, Now());
      hide Kept;
      hide Conserved;
      hide Drained;
      hide TakeAll;
      hide EarlyHeard;
      hide Attempts;
      ok := SendQueue(phase, env);
      if !ok { return; }
      ghost var sent := Now();
      ok := DrainReplies(env.replies(0));
      if !ok { return; }
      ghost var middle := Now();
      ok := DrainReplies(env.replies(1));
      if !ok { return; }
      EarlyDrains(sent, middle, Now(), env);
    }

    /** Which targets have an unanswered DF probe after the first round. */
    method Unconfirmed() returns (unanswered: seq<(nat, nat)>, confirmed: set<nat>)
      requires Valid()
      requires forall k, t :: 0 <= t < targets ==>
                Attempts(attempted, k, t) == if k.Rtt? then sockets else FirstDfProbes(sockets)
      ensures forall x :: x in unanswered ==> IsUnanswered(pending, x) && x.0 < targets && x.1 < sockets
      ensures forall t :: 0 <= t < targets ==> CountTarget(unanswered, t) == if t in confirmed then 1 else 0
      ensures forall t :: 0 <= t < targets ==> (t in confirmed <==> !NonePending(pending, Df, t))
      ensures forall t :: t in confirmed ==> t < targets
      ensures forall t :: IsTargetOf(unanswered, t) ==> t in confirmed
      ensures forall x :: x in unanswered ==> x.0 in confirmed
      ensures sockets == 0 ==> confirmed == {}
    {
      hide Kept;
      hide Attempts;
      hide Failures;
      unanswered := UnansweredDfTargets();
      confirmed := set x | x in unanswered :: x.0;
      forall t | 0 <= t < targets ensures CountTarget(unanswered, t) == if t in confirmed then 1 else 0 {
        assert Conserved(Df, t);
        CountIsMembership(unanswered, t);
      }
      forall t | 0 <= t < targets && t !in confirmed ensures NonePending(pending, Df, t) {
        NoneInFlight(pending, Df, t);
      }
    }

    /** The confirmed targets are those with a DF probe unanswered after the first round, and the books are
        those of repeating these probes and draining. */
    ghost predicate Finished(early: Books, phase: nat, deadline: nat, env: Environment, confirmed: set<nat>, repeated: seq<(nat, nat)>, last: nat)
      reads this`pending, this`settled
    {
      && (forall t: nat :: t in confirmed <==> t < targets && !NonePending(early.pending, Df, t))
      && (forall x :: x in repeated ==> IsUnanswered(early.pending, x))
      && SecondRoundIs(SendBooks(early, first + |Schedule(phase)|, Confirmations(repeated), env), deadline, env, last)
    }

    /** In the first round every DF probe leaves from the socket that the schedule gives its target. */
    lemma UnansweredAsScheduled(phase: nat, x: (nat, nat))
      requires Valid() && attempted == Schedule(phase) && IsUnanswered(pending, x) && sockets > 0
      ensures x.1 == DfSocket(x.0, sockets)
    {
      hide Conserved;
      hide RotateProbeSchedule;
      hide ProbeQueue;
      var q :| q in pending && pending[q] == Pending(Df, x.0, x.1, pending[q].sentNs);
      assert WentOut(first, attempted, outcomes, q, pending[q]);
      assert Queued(Df, x.0, x.1) in attempted;
      RotationIsPermutation(ProbeQueue(targets, sockets), phase);
      QueueContents(targets, sockets);
    }

    /** The second round: repeat the unanswered DF probes and drain. */
    method SecondRound(unanswered: seq<(nat, nat)>, deadline: nat, env: Environment) returns (ok: bool, ghost last: nat)
      requires Valid() && Follows(env) && env.Valid() && EarlyHeard(Now(), env)
      requires forall x :: x in unanswered ==> x.0 < targets && x.1 < sockets
      modifies this
      ensures Valid() && Follows(env) && old(attempted) <= attempted
      ensures !ok ==> env.outcome(sequence).FatalSend? || exists k :: ReceiveFailed in env.replies(k)
      ensures ok ==> attempted == old(attempted) + Confirmations(unanswered)
      ensures ok ==> forall t :: Attempts(attempted, Rtt, t) == old(Attempts(attempted, Rtt, t))
      ensures ok ==> (forall t :: Attempts(attempted, Df, t) == old(Attempts(attempted, Df, t))
                                    + DF_CONFIRMATION_PROBES * CountTarget(unanswered, t))
      ensures ok ==> forall t :: !IsTargetOf(unanswered, t) && old(NonePending(pending, Df, t)) ==> NonePending(pending, Df, t)
      ensures ok ==> AllHeard(Now(), env, last + 1, old(sequence))
      ensures ok ==> SecondRoundIs(SendBooks(old(Now()), old(sequence), Confirmations(unanswered), env), deadline, env, last)
      ensures ok ==> env.clock(last) >= deadline || pending == map[]
    {
      hide Kept;
      hide Conserved;
      hide Attempts;
      hide CountTarget;
      hide EarlyHeard;
      hide DrainedLate;
      hide AllHeard;
      hide Confirmations;
      hide SendBooks;
      hide LateBooks;
      hide KeepsDraining;
      hide TakeAll;
      hide IsTargetOf;
      ghost var early := Now();
      last := 0;
      ok := ConfirmUnanswered(unanswered, env);
      if !ok { return; }
      ghost var sent := Now();
      assert forall t :: !IsTargetOf(unanswered, t) && NonePending(early.pending, Df, t) ==> NonePending(sent.pending, Df, t);
      ok, last := DrainUntil(deadline, env);
      if !ok {
        assert ReceiveFailed in env.replies(last + 2);
        return;
      }
      EarlyAndLate(early, sent, Now(), env, last + 1, old(sequence));
      LateKeepsNone(sent, Now(), env, last + 1);
    }

    /** After the confirmations the books are those of draining until the deadline or until nothing is
        pending, and once more. */
    ghost predicate SecondRoundIs(sent: Books, deadline: nat, env: Environment, last: nat)
      reads this`pending, this`settled
    {
      && Now() == LateBooks(sent, env, last + 1)
      && KeepsDraining(sent, env, deadline, last) && ReceiveFailed !in env.LateReplies(last)
      && (env.clock(last) >= deadline || LateBooks(sent, env, last).pending == map[])
    }

    /** The whole cycle: send, drain twice, repeat the unanswered DF probes, drain until the deadline
        or until nothing is pending, drain once more, report. */
    method Run(phase: nat, deadline: nat, env: Environment)
      returns (report: Option<seq<ProbeResult>>, confirmed: set<nat>, ghost repeated: seq<(nat, nat)>, ghost last: nat)
      requires Valid() && attempted == [] && env.Valid()
      modifies this
      ensures Valid() && Follows(env)
      ensures report.Some? ==> |report.value| == targets
      ensures report.Some? ==> forall t :: 0 <= t < targets ==>
                report.value[t] == BuildResult(rtt[t], df[t], sockets)
                && Attempts(attempted, Rtt, t) == sockets
                && Attempts(attempted, Df, t) == DfProbes(sockets, t in confirmed)
                && (t !in confirmed ==> NonePending(pending, Df, t))
      ensures attempted <= Schedule(phase) || Schedule(phase) <= attempted
      ensures report.None? ==> env.outcome(sequence).FatalSend? || exists k :: ReceiveFailed in env.replies(k)
      ensures report.Some? ==> forall k :: 0 <= k < last + 3 ==> ReceiveFailed !in env.replies(k)
      ensures report.Some? ==> attempted == Schedule(phase) + Confirmations(repeated)
      ensures report.Some? ==> forall x :: x in repeated ==>
                x.0 in confirmed && x.0 < targets && x.1 < sockets && x.1 == DfSocket(x.0, sockets)
      ensures report.Some? ==>
        Finished(EarlyBooks(old(Now()), first, Schedule(phase), env), phase, deadline, env, confirmed, repeated, last)
      ensures report.Some? ==> AllHeard(Now(), env, last + 1, first + |Schedule(phase)|)
      ensures report.Some? ==> env.clock(last) >= deadline || pending == map[]
    {
      hide Kept;
      hide Conserved;
      hide Attempts;
      hide CountTarget;
      hide EarlyHeard;
      hide AllHeard;
      hide Schedule;
      hide Confirmations;
      hide SendBooks;
      hide LateBooks;
      hide EarlyBooks;
      hide KeepsDraining;
      hide TakeAll;
      hide Drained;
      hide WithSend;
      hide IsUnanswered;
      hide IsTargetOf;
      hide DfSocket;
      report, confirmed, repeated, last := None, {}, [], 0;
      var ok := FirstRound(phase, env);
      if !ok { return; }
      ghost var early := Now();
      var unanswered;
      unanswered, confirmed := Unconfirmed();
      repeated := unanswered;
      forall x | x in unanswered ensures x.1 == DfSocket(x.0, sockets) { UnansweredAsScheduled(phase, x); }
      ok, last := SecondRound(unanswered, deadline, env);
      if !ok { return; }
      NoneFailed(SendBooks(early, first + |Schedule(phase)|, Confirmations(repeated), env), env, deadline, last);
      report := Some(seq(targets, t requires 0 <= t < targets && |rtt| == |df| == targets reads this =>
                           BuildResult(rtt[t], df[t], sockets)));
    }
  }

  lemma NoneFailed(b: Books, env: Environment, deadline: nat, last: nat)
    requires KeepsDraining(b, env, deadline, last) && ReceiveFailed !in env.LateReplies(last)
    requires ReceiveFailed !in env.replies(0) && ReceiveFailed !in env.replies(1)
    ensures forall k :: 0 <= k < last + 3 ==> ReceiveFailed !in env.replies(k)
  {
    forall k | 2 <= k < last + 3 ensures ReceiveFailed !in env.replies(k) {
      assert k - 2 < last ==> ReceiveFailed !in env.LateReplies(k - 2);
    }
  }

  lemma LateKeepsNone(b: Books, now: Books, env: Environment, n: nat)
    requires DrainedLate(b, now, env, n)
    ensures forall t :: NonePending(b.pending, Df, t) ==> NonePending(now.pending, Df, t)
  {
  }

  /** Some unanswered DF probe went to this target from this socket. */
  ghost predicate IsUnanswered(pending: map<nat, Pending>, x: (nat, nat)) {
    exists q :: q in pending && pending[q] == Pending(Df, x.0, x.1, pending[q].sentNs)
  }

  ghost function Copies(x: Queued, n: nat): seq<Queued> { seq(n, i => x) }

  /** Fifteen more DF probes for each target and socket listed. */
  ghost function Confirmations(unanswered: seq<(nat, nat)>): seq<Queued> {
    if unanswered == [] then []
    else
      var last := unanswered[|unanswered| - 1];
      Confirmations(unanswered[..|unanswered| - 1]) + Copies(Queued(Df, last.0, last.1), DF_CONFIRMATION_PROBES)
  }

  lemma ConfirmationsPush(unanswered: seq<(nat, nat)>, i: nat)
    requires i < |unanswered|
    ensures Confirmations(unanswered[..i + 1])
         == Confirmations(unanswered[..i]) + Copies(Queued(Df, unanswered[i].0, unanswered[i].1), DF_CONFIRMATION_PROBES)
  {
    assert unanswered[..i + 1][..i] == unanswered[..i];
  }

  ghost predicate IsTargetOf(list: seq<(nat, nat)>, target: nat) {
    exists i :: 0 <= i < |list| && list[i].0 == target
  }

  function DfProbes(sockets: nat, confirmed: bool): nat {
    if sockets == 0 then 0 else if confirmed then 1 + DF_CONFIRMATION_PROBES else 1
  }

  /** A confirmed target has sixteen DF probes, and any other one. */
  lemma DfProbesOf(sockets: nat)
    ensures sockets > 0 ==> DfProbes(sockets, true) == 16 && DfProbes(sockets, false) == 1
  {
  }

  lemma {:induction false} CountIsMembership(list: seq<(nat, nat)>, target: nat)
    ensures CountTarget(list, target) > 0 <==> exists x :: x in list && x.0 == target
  {
    if list != [] {
      CountIsMembership(list[..|list| - 1], target);
      assert list == list[..|list| - 1] + [list[|list| - 1]];
    }
  }

  /** Oversized datagrams, busy sockets and replies without a timestamp. */
  ghost function LocalErrors(c: ProbeCycle, kind: ProbeKind, target: nat): nat
    reads c
  {
    Failures(c.attempted, c.outcomes, kind, target, TooBig) + Failures(c.attempted, c.outcomes, kind, target, LocalOnly)
    + Untimed(c.settled, kind, target)
  }

  /** Where no send fails in some way, no such failure is counted. */
  lemma {:induction false} NoFailures(attempted: seq<Queued>, outcomes: seq<SendOutcome>, kind: ProbeKind, target: nat, f: Failure)
    requires forall i :: 0 <= i < |outcomes| ==> !FailsBy(outcomes[i], f)
    ensures Failures(attempted, outcomes, kind, target, f) == 0
  {
    if attempted != [] && outcomes != [] {
      NoFailures(attempted[..|attempted| - 1], outcomes[..|outcomes| - 1], kind, target, f);
    }
  }

  /** What a reported row says.  For any send outcomes and any stream of replies (duplicated, stale,
      headerless, without a timestamp, or never arriving), every probe attempted for a target is
      counted once: as a valid packet or as a local error.  Losses are exactly the packets still
      unanswered and the sends that failed on the path, so no subtraction saturates, and a loss
      percentage is the true fraction. */
  lemma ReportIsExact(c: ProbeCycle, t: nat, confirmed: bool)
    requires c.Valid() && t < c.targets
    requires Attempts(c.attempted, Rtt, t) == c.sockets
    requires Attempts(c.attempted, Df, t) == DfProbes(c.sockets, confirmed)
    ensures var r := BuildResult(c.rtt[t], c.df[t], c.sockets);
      && r.packetsSent + r.dfPacketsSent + r.localProbeErrors == r.portsActive + DfProbes(c.sockets, confirmed)
      && r.packetsSent <= r.portsActive
      && r.packetsLost == InFlight(c.pending, Rtt, t) + Failures(c.attempted, c.outcomes, Rtt, t, OnPath)
      && r.dfPacketsLost == InFlight(c.pending, Df, t) + Failures(c.attempted, c.outcomes, Df, t, OnPath)
      && r.packetsSent == |Samples(c.settled, Rtt, t)| + r.packetsLost
      && r.dfPacketsSent == |Samples(c.settled, Df, t)| + r.dfPacketsLost
      && r.localProbeErrors == LocalErrors(c, Rtt, t) + LocalErrors(c, Df, t)
      && r.dfMtuDrops == Failures(c.attempted, c.outcomes, Df, t, TooBig)
      && r.dfMtuDrops + r.dfPacketsSent <= DfProbes(c.sockets, confirmed)
      && 0.0 <= r.packetLoss <= 100.0
      && (r.packetsSent > 0 ==> r.packetLoss * r.packetsSent as real == 100.0 * r.packetsLost as real)
      && (r.packetsSent == 0 ==> r.packetLoss == 100.0)
  {
    hide Attempts;
    hide InFlight;
    hide Failures;
    hide Samples;
    hide Untimed;
    assert c.Conserved(Rtt, t) && c.Conserved(Df, t);
    LossFraction(ValidSent(c.rtt[t]), SaturatingSub(ValidSent(c.rtt[t]), c.rtt[t].received));
  }

  lemma LossFraction(sent: nat, lost: nat)
    requires lost <= sent
    ensures sent > 0 ==> var f := lost as real / sent as real * 100.0;
              0.0 <= f <= 100.0 && f * sent as real == 100.0 * lost as real
  {
    if sent > 0 {
      var q := lost as real / sent as real;
      assert q * sent as real == lost as real;
      assert 0.0 <= q <= 1.0;
    }
  }

  lemma CountNone(list: seq<(nat, nat)>)
    ensures forall t :: CountTarget(list[..0], t) == 0
  {
  }

  lemma CountPush(list: seq<(nat, nat)>, i: nat)
    requires i < |list|
    ensures forall t :: CountTarget(list[..i + 1], t) == CountTarget(list[..i], t) + (if list[i].0 == t then 1 else 0)
  {
    assert list[..i + 1][..i] == list[..i];
  }

  lemma RotatedQueueInRange(targets: nat, sockets: nat, phase: nat)
    ensures forall x :: x in RotateProbeSchedule(ProbeQueue(targets, sockets), phase) ==>
              x.target < targets && x.socket < sockets
  {
    RotationIsPermutation(ProbeQueue(targets, sockets), phase);
    if sockets > 0 { QueueContents(targets, sockets); } else { EmptyQueue(targets); }
  }

  lemma {:induction false} EmptyQueue(targets: nat)
    ensures ProbeQueue(targets, 0) == []
  {
    if targets > 0 { EmptyQueue(targets - 1); }
  }

  ghost function CountTarget(list: seq<(nat, nat)>, target: nat): nat {
    if list == [] then 0
    else CountTarget(list[..|list| - 1], target) + (if list[|list| - 1].0 == target then 1 else 0)
  }
}
