/** The detector's audit of the Pingmesh rows of one window. */
module CoverageAudit {
  import opened Numbers

  /** A queried row; a field is `None` when the row lacks it or its value is no integer. */
  datatype Row = Row(
    srcName: Option<string>,
    dstName: Option<string>,
    srcIp: Option<string>,
    dstIp: Option<string>,
    probeCycle: Option<int>,
    destinationBatch: Option<int>,
    portBatch: Option<int>,
    portsTotal: Option<int>,
    portsActive: Option<int>,
    packetsSent: Option<int>,
    packetsLost: Option<int>,
    dfMtuDrops: Option<int>,
    localErrors: Option<int>)

  /** The policy dictionary; a field is `None` when the key is missing.  The batch size may be
      present and null. */
  datatype AuditPolicy = AuditPolicy(
    destinationBatchSize: Option<Option<nat>>,
    portPoolSize: Option<nat>,
    portsPerCycle: Option<nat>,
    epochCycles: Option<nat>)

  datatype AuditError = MissingFields | DivisionByZero | StalePolicy

  datatype Coverage = Coverage(
    complete: bool,
    sourcesObserved: nat,
    pairsObserved: nat,
    combinationsObserved: nat,
    missingSources: nat,
    missingDestinationBatches: set<int>,
    missingPortBatches: set<int>,
    invalidSocketRows: nat)

  type Key = (string, string, int)

  // ---------------------------------------------------------------- row fields

  predicate Truthy(text: Option<string>) { text.Some? && text.value != "" }

  /** A row that counts toward a pair: it has a cycle and names both ends. */
  predicate NamesPair(row: Row) {
    row.probeCycle.Some? && Truthy(row.srcName) && Truthy(row.dstName)
  }

  function FirstTruthy(a: Option<string>, b: Option<string>): string {
    if Truthy(a) then a.value else if Truthy(b) then b.value else ""
  }

  function SocketBatchKey(row: Row): Option<Key> {
    var source, destination := FirstTruthy(row.srcName, row.srcIp), FirstTruthy(row.dstName, row.dstIp);
    if source == "" || destination == "" then None
    else Some((source, destination, if row.portBatch.Some? then row.portBatch.value else -1))
  }

  /** Rows belong together by what they say of each end, its name or else its address, and by their port
      batch; rows without a port batch belong to none, and rows that say nothing of an end nowhere. */
  lemma SocketBatchOf(row: Row)
    requires row.portBatch.Some? ==> row.portBatch.value >= 0
    ensures SocketBatchKey(row).Some? <==> (Truthy(row.srcName) || Truthy(row.srcIp)) && (Truthy(row.dstName) || Truthy(row.dstIp))
    ensures SocketBatchKey(row).Some? ==>
      var key := SocketBatchKey(row).value;
      && key.0 != "" && key.1 != ""
      && Some(key.0) == (if Truthy(row.srcName) then row.srcName else row.srcIp)
      && Some(key.1) == (if Truthy(row.dstName) then row.dstName else row.dstIp)
      && row.portBatch == (if key.2 == -1 then None else Some(key.2))
  {
  }

  // ---------------------------------------------------------------- regular loss per socket batch

  predicate CountsAsLoss(row: Row) {
    && SocketBatchKey(row).Some?
    && row.packetsSent.Some? && row.packetsSent.value > 0
    && row.packetsLost.Some? && 0 <= row.packetsLost.value <= row.packetsSent.value
  }

  /** The loss attributed to one socket batch: the sum over its well-formed rows. */
  function LossOf(rows: seq<Row>, key: Key): nat {
    if rows == [] then 0
    else
      var last := rows[|rows| - 1];
      LossOf(rows[..|rows| - 1], key)
      + (if CountsAsLoss(last) && SocketBatchKey(last) == Some(key) then last.packetsLost.value else 0)
  }

  function LossIn(losses: map<Key, nat>, key: Key): nat {
    if key in losses then losses[key] else 0
  }

  method RegularLossBySocketBatch(rows: seq<Row>) returns (losses: map<Key, nat>)
    ensures forall key :: LossIn(losses, key) == LossOf(rows, key)
    ensures forall key :: key in losses <==> exists row :: row in rows && CountsAsLoss(row) && SocketBatchKey(row) == Some(key)
  {
    losses := map[];
    for i := 0 to |rows|
      invariant forall key :: LossIn(losses, key) == LossOf(rows[..i], key)
      invariant forall key :: key in losses <==>
        exists row :: row in rows[..i] && CountsAsLoss(row) && SocketBatchKey(row) == Some(key)
    {
      var row := rows[i];
      assert rows[..i + 1] == rows[..i] + [row];
      assert rows[..i + 1][..i] == rows[..i];
      if CountsAsLoss(row) {
        var key := SocketBatchKey(row).value;
        losses := losses[key := LossIn(losses, key) + row.packetsLost.value];
      }
    }
    assert rows[..|rows|] == rows;
  }

  /** A DF-only send error is explained when RTT probes of the same socket batch lost three
      packets or more over the window. */
  predicate ExplainedDfSendError(row: Row, rows: seq<Row>) {
    && row.localErrors.Some? && row.localErrors.value != 0
    && row.localErrors == row.dfMtuDrops
    && SocketBatchKey(row).Some?
    && LossOf(rows, SocketBatchKey(row).value) >= 3
  }

  /** One packet lost in each of `n` rows of the same socket batch explains the error from the third. */
  lemma {:induction false} ThirdLossExplains(row: Row, loss: Row, n: nat)
    requires row.localErrors.Some? && row.localErrors.value != 0 && row.dfMtuDrops == row.localErrors
    requires SocketBatchKey(row).Some? && SocketBatchKey(loss) == SocketBatchKey(row)
    requires loss.packetsSent == Some(1) && loss.packetsLost == Some(1)
    ensures LossOf(seq(n, i => loss), SocketBatchKey(row).value) == n
    ensures ExplainedDfSendError(row, seq(n, i => loss)) <==> n >= 3
  {
    hide SocketBatchKey;
    if n > 0 {
      ThirdLossExplains(row, loss, n - 1);
      assert seq(n, i => loss)[..n - 1] == seq(n - 1, i => loss);
    }
  }

  predicate ValidSocketBatch(row: Row, pool: nat, perCycle: nat, portBatches: nat, rows: seq<Row>) {
    && row.portBatch.Some? && 0 <= row.portBatch.value < portBatches
    && row.portsTotal == Some(pool)
    && row.portsActive == Some(Min(perCycle, pool - row.portBatch.value * perCycle))
    && (row.localErrors == Some(0) || ExplainedDfSendError(row, rows))
  }

  // ---------------------------------------------------------------- the audit

  function CycleRows(rows: seq<Row>): (r: seq<Row>)
    ensures forall row :: row in r <==> row in rows && row.probeCycle.Some?
  {
    if rows == [] then []
    else
      CycleRows(rows[..|rows| - 1])
      + (if rows[|rows| - 1].probeCycle.Some? then [rows[|rows| - 1]] else [])
  }

  function Sources(rows: seq<Row>): set<string> {
    set row | row in rows && row.probeCycle.Some? && Truthy(row.srcName) :: row.srcName.value
  }

  function Pairs(rows: seq<Row>): set<(string, string)> {
    set row | row in rows && NamesPair(row) :: (row.srcName.value, row.dstName.value)
  }

  function Combinations(rows: seq<Row>): set<((string, string), int)> {
    set row | row in rows && NamesPair(row) && row.portBatch.Some? ::
      ((row.srcName.value, row.dstName.value), row.portBatch.value)
  }

  function DestinationBatches(rows: seq<Row>): set<int> {
    set row | row in rows && row.destinationBatch.Some? :: row.destinationBatch.value
  }

  function PortBatches(rows: seq<Row>): set<int> {
    set row | row in rows && row.portBatch.Some? :: row.portBatch.value
  }

  function InvalidRows(rows: seq<Row>, pool: nat, perCycle: nat, portBatches: nat, window: seq<Row>): (n: nat)
    ensures n == 0 <==> forall row :: row in rows ==> ValidSocketBatch(row, pool, perCycle, portBatches, window)
  {
    if rows == [] then 0
    else
      InvalidRows(rows[..|rows| - 1], pool, perCycle, portBatches, window)
      + (if ValidSocketBatch(rows[|rows| - 1], pool, perCycle, portBatches, window) then 0 else 1)
  }

  function SummarizeCoverage(clients: seq<string>, policy: AuditPolicy, rows: seq<Row>): Result<Coverage, AuditError>
  {
    if policy.destinationBatchSize.None? || policy.portPoolSize.None?
       || policy.portsPerCycle.None? || policy.epochCycles.None? then Err(MissingFields)
    else if policy.portsPerCycle.value == 0 then Err(DivisionByZero)
    else
      var n := |clients|;
      var destinationCount := Max(0, n - 1);
      var configured := policy.destinationBatchSize.value;
      var batchSize := if configured.Some? && configured.value != 0 then configured.value else Max(1, destinationCount);
      var pool, perCycle := policy.portPoolSize.value, policy.portsPerCycle.value;
      var destinationBatches := Max(1, CeilDiv(destinationCount, batchSize));
      var portBatches := Max(1, CeilDiv(pool, perCycle));
      if policy.epochCycles.value != destinationBatches * portBatches then Err(StalePolicy)
      else Ok(Tally(n, destinationBatches, pool, perCycle, portBatches, rows))
  }

  function Tally(n: nat, destinationBatches: nat, pool: nat, perCycle: nat, portBatches: nat, rows: seq<Row>): Coverage
  {
    var cycleRows := CycleRows(rows);
    var sources, pairs, combinations := |Sources(rows)|, |Pairs(rows)|, |Combinations(rows)|;
    var missingDestinations := Below(destinationBatches) - DestinationBatches(rows);
    var missingPorts := Below(portBatches) - PortBatches(rows);
    var missingSources := Max(0, n - sources);
    var invalid := InvalidRows(cycleRows, pool, perCycle, portBatches, cycleRows);
    var expectedPairs := n * Max(0, n - 1);
    Coverage(
      missingDestinations == {} && missingPorts == {} && missingSources == 0
        && pairs == expectedPairs && combinations == expectedPairs * portBatches && invalid == 0,
      sources, pairs, combinations, missingSources, missingDestinations, missingPorts, invalid)
  }

  // ---------------------------------------------------------------- what the counts mean

  /** The invalid rows of a window, by position. */
  ghost function InvalidAt(rows: seq<Row>, pool: nat, perCycle: nat, portBatches: nat, window: seq<Row>): set<int> {
    set i | 0 <= i < |rows| && !ValidSocketBatch(rows[i], pool, perCycle, portBatches, window)
  }

  lemma {:induction false} InvalidRowsAreCounted(rows: seq<Row>, pool: nat, perCycle: nat, portBatches: nat, window: seq<Row>)
    ensures InvalidRows(rows, pool, perCycle, portBatches, window) == |InvalidAt(rows, pool, perCycle, portBatches, window)|
  {
    hide ValidSocketBatch;
    if rows != [] {
      var n := |rows| - 1;
      InvalidRowsAreCounted(rows[..n], pool, perCycle, portBatches, window);
      assert InvalidAt(rows, pool, perCycle, portBatches, window)
          == InvalidAt(rows[..n], pool, perCycle, portBatches, window)
             + if ValidSocketBatch(rows[n], pool, perCycle, portBatches, window) then {} else {n};
    }
  }

  /** The summary reports how many clients wrote rows, how many pairs and combinations were seen, how
      many clients are missing and how many rows are invalid. */
  lemma SummaryCounts(clients: seq<string>, d: nat, pool: nat, perCycle: nat, portBatches: nat, rows: seq<Row>)
    requires DistinctStrings(clients) && NamesKnownPairs(clients, rows)
    ensures var t := Tally(|clients|, d, pool, perCycle, portBatches, rows);
      && t.sourcesObserved + t.missingSources == |clients|
      && t.sourcesObserved == |Sources(rows)| && t.missingSources == |ToSet(clients) - Sources(rows)|
      && t.pairsObserved == |Pairs(rows)| && t.combinationsObserved == |Combinations(rows)|
      && t.invalidSocketRows == |InvalidAt(CycleRows(rows), pool, perCycle, portBatches, CycleRows(rows))|
  {
    InvalidRowsAreCounted(CycleRows(rows), pool, perCycle, portBatches, CycleRows(rows));
    hide InvalidRows;
    hide InvalidAt;
    hide CycleRows;
    var all, seen := ToSet(clients), Sources(rows);
    NoDuplicatesCard(clients);
    assert seen <= all;
    SubsetCard(seen, all);
    assert all == seen + (all - seen);
    assert |all| == |seen| + |all - seen|;
  }

  /** A single client, or none, has one destination batch, and no pair to be seen. */
  lemma FewClients(clients: seq<string>, size: Option<nat>, pool: nat, perCycle: nat, epoch: nat, rows: seq<Row>)
    requires |clients| <= 1 && perCycle > 0
    ensures var policy := AuditPolicy(Some(size), Some(pool), Some(perCycle), Some(epoch));
      var summary := SummarizeCoverage(clients, policy, rows);
      && (summary.Ok? <==> epoch == Max(1, CeilDiv(pool, perCycle)))
      && (summary.Ok? && summary.value.complete ==> Pairs(rows) == {})
  {
    hide InvalidRows;
    hide CycleRows;
  }

  // ---------------------------------------------------------------- what "complete" means

  ghost predicate DistinctStrings(names: seq<string>) {
    forall i, j :: 0 <= i < j < |names| ==> names[i] != names[j]
  }

  /** The rows the audit is meant for: each cycle row that names a pair names two distinct clients. */
  ghost predicate NamesKnownPairs(clients: seq<string>, rows: seq<Row>) {
    forall row :: row in rows && row.probeCycle.Some? ==>
      && Truthy(row.srcName) && Truthy(row.dstName)
      && row.srcName.value in clients && row.dstName.value in clients
      && row.srcName.value != row.dstName.value
  }

  ghost predicate Seen(rows: seq<Row>, source: string, destination: string, port: int) {
    exists row :: row in rows && row.probeCycle.Some? && row.srcName == Some(source)
                  && row.dstName == Some(destination) && row.portBatch == Some(port)
  }

  /** Every ordered pair of distinct clients has a row for every port batch. */
  ghost predicate EveryCombinationSeen(clients: seq<string>, portBatches: nat, rows: seq<Row>) {
    forall source, destination, port ::
      source in clients && destination in clients && source != destination && 0 <= port < portBatches ==>
        Seen(rows, source, destination, port)
  }

  ghost predicate EveryDestinationBatchSeen(destinationBatches: nat, rows: seq<Row>) {
    forall b :: 0 <= b < destinationBatches ==> b in DestinationBatches(rows)
  }

  ghost predicate EveryCycleRowValid(pool: nat, perCycle: nat, portBatches: nat, rows: seq<Row>) {
    forall row :: row in rows && row.probeCycle.Some? ==>
      ValidSocketBatch(row, pool, perCycle, portBatches, CycleRows(rows))
  }

  ghost function OrderedPairs(clients: set<string>): set<(string, string)> {
    set p | p in Product(clients, clients) && p.0 != p.1
  }

  lemma {:induction false} OrderedPairsCard(clients: set<string>)
    ensures |OrderedPairs(clients)| == |clients| * (|clients| - 1)
  {
    var diagonal := set c | c in clients :: (c, c);
    DiagonalCard(clients);
    ProductCard(clients, clients);
    assert Product(clients, clients) == OrderedPairs(clients) + diagonal;
    assert OrderedPairs(clients) !! diagonal;
    hide Product;
    MulSuccessor(|clients| - 1, |clients|);
    MulCommutes(|clients|, |clients| - 1);
  }

  lemma {:induction false} DiagonalCard(clients: set<string>)
    ensures |set c | c in clients :: (c, c)| == |clients|
  {
    if clients != {} {
      var c :| c in clients;
      DiagonalCard(clients - {c});
      assert (set x | x in clients :: (x, x)) == (set x | x in clients - {c} :: (x, x)) + {(c, c)};
    }
  }

  ghost function AllCombinations(clients: seq<string>, portBatches: nat): set<((string, string), int)> {
    Product(OrderedPairs(ToSet(clients)), Below(portBatches))
  }

  lemma AllCombinationsCard(clients: seq<string>, portBatches: nat)
    requires DistinctStrings(clients)
    ensures |ToSet(clients)| == |clients|
    ensures |OrderedPairs(ToSet(clients))| == |clients| * (|clients| - 1)
    ensures |AllCombinations(clients, portBatches)| == |clients| * (|clients| - 1) * portBatches
  {
    NoDuplicatesCard(clients);
    OrderedPairsCard(ToSet(clients));
    BelowCard(portBatches);
    ProductCard(OrderedPairs(ToSet(clients)), Below(portBatches));
  }

  /** Rows that name known pairs and carry in-range port batches never exceed the expected sets. */
  lemma ObservedWithinExpected(clients: seq<string>, portBatches: nat, rows: seq<Row>)
    requires NamesKnownPairs(clients, rows)
    requires forall row :: row in rows && row.probeCycle.Some? ==>
               row.portBatch.Some? && 0 <= row.portBatch.value < portBatches
    ensures Sources(rows) <= ToSet(clients)
    ensures Pairs(rows) <= OrderedPairs(ToSet(clients))
    ensures Combinations(rows) <= AllCombinations(clients, portBatches)
  {
  }

  /** Pigeonhole: the combinations fill the expected set exactly when every one was seen. */
  lemma CombinationsFull(clients: seq<string>, portBatches: nat, rows: seq<Row>)
    requires Combinations(rows) <= AllCombinations(clients, portBatches)
    requires "" !in clients
    ensures Combinations(rows) == AllCombinations(clients, portBatches)
       <==> EveryCombinationSeen(clients, portBatches, rows)
  {
    if Combinations(rows) == AllCombinations(clients, portBatches) {
      forall source, destination, port |
        source in clients && destination in clients && source != destination && 0 <= port < portBatches
        ensures Seen(rows, source, destination, port)
      {
        assert ((source, destination), port) in AllCombinations(clients, portBatches);
      }
    }
    if EveryCombinationSeen(clients, portBatches, rows) {
      forall x | x in AllCombinations(clients, portBatches) ensures x in Combinations(rows) {
        assert Seen(rows, x.0.0, x.0.1, x.1);
      }
    }
  }

  lemma SourcesFollow(clients: seq<string>, rows: seq<Row>)
    requires DistinctStrings(clients) && |clients| >= 2 && Sources(rows) <= ToSet(clients)
    requires EveryCombinationSeen(clients, 1, rows) && "" !in clients
    ensures |Sources(rows)| == |clients|
  {
    NoDuplicatesCard(clients);
    forall c | c in clients ensures c in Sources(rows) {
      var other := if c == clients[0] then clients[1] else clients[0];
      assert Seen(rows, c, other, 0);
    }
    assert Sources(rows) == ToSet(clients);
  }

  lemma PairsFollow(clients: seq<string>, rows: seq<Row>)
    requires Pairs(rows) <= OrderedPairs(ToSet(clients))
    requires EveryCombinationSeen(clients, 1, rows) && "" !in clients
    ensures Pairs(rows) == OrderedPairs(ToSet(clients))
  {
    forall p | p in OrderedPairs(ToSet(clients)) ensures p in Pairs(rows) {
      assert Seen(rows, p.0, p.1, 0);
    }
  }

  /** What "complete" means.  For rows that name two distinct known clients, the audit, which only
      compares cardinalities, says complete exactly when every ordered pair of clients has a row for
      every port batch, every destination batch occurs and every row carries the socket slice its
      port batch calls for without unexplained local errors. */
  lemma CompleteMeansEverythingSeen(
      clients: seq<string>, d: nat, pool: nat, perCycle: nat, portBatches: nat, rows: seq<Row>)
    requires DistinctStrings(clients) && |clients| >= 2 && "" !in clients && portBatches >= 1
    requires NamesKnownPairs(clients, rows)
    ensures Tally(|clients|, d, pool, perCycle, portBatches, rows).complete
       <==> EveryCombinationSeen(clients, portBatches, rows)
            && EveryDestinationBatchSeen(d, rows)
            && EveryCycleRowValid(pool, perCycle, portBatches, rows)
  {
    var t := Tally(|clients|, d, pool, perCycle, portBatches, rows);
    assert t.invalidSocketRows == 0 <==> EveryCycleRowValid(pool, perCycle, portBatches, rows);
    assert t.missingDestinationBatches == {} <==> EveryDestinationBatchSeen(d, rows) by {
      DestinationsMissing(d, rows);
    }
    if EveryCycleRowValid(pool, perCycle, portBatches, rows) {
      ObservedWithinExpected(clients, portBatches, rows);
      CombinationsFull(clients, portBatches, rows);
      AllCombinationsCard(clients, portBatches);
      SubsetCard(Combinations(rows), AllCombinations(clients, portBatches));
      if EveryCombinationSeen(clients, portBatches, rows) {
        assert EveryCombinationSeen(clients, 1, rows);
        SourcesFollow(clients, rows);
        PairsFollow(clients, rows);
        PortBatchesFollow(clients, portBatches, rows);
      }
    }
  }

  lemma DestinationsMissing(d: nat, rows: seq<Row>)
    ensures Below(d) - DestinationBatches(rows) == {} <==> EveryDestinationBatchSeen(d, rows)
  {
    if Below(d) - DestinationBatches(rows) == {} {
      forall b | 0 <= b < d ensures b in DestinationBatches(rows) {
        assert b !in Below(d) - DestinationBatches(rows) && b in Below(d);
      }
    }
  }

  lemma PortBatchesFollow(clients: seq<string>, portBatches: nat, rows: seq<Row>)
    requires DistinctStrings(clients) && |clients| >= 2
    requires EveryCombinationSeen(clients, portBatches, rows)
    ensures Below(portBatches) - PortBatches(rows) == {}
  {
    forall p | p in Below(portBatches) ensures p in PortBatches(rows) {
      assert Seen(rows, clients[0], clients[1], p);
    }
  }

  // ---------------------------------------------------------------- where comparing sizes misleads

  function PlainRow(source: string, destination: string): Row {
    Row(Some(source), Some(destination), None, None, Some(0), Some(0), Some(0),
        Some(1), Some(1), Some(1), Some(0), Some(0), Some(0))
  }

  /** Without that condition the audit can say complete with a pair unobserved: between two clients,
      a row from the second to itself takes the place of the missing reverse direction. */
  lemma SizesAloneMislead(a: string, b: string)
    requires a != b && a != "" && b != ""
    ensures Tally(2, 1, 1, 1, 1, [PlainRow(a, b), PlainRow(b, b)]).complete
    ensures !Seen([PlainRow(a, b), PlainRow(b, b)], b, a, 0)
  {
    hide Tally;
    hide InvalidRows;
    hide CycleRows;
    hide Sources;
    hide Pairs;
    hide Combinations;
    hide DestinationBatches;
    hide PortBatches;
    var rows := [PlainRow(a, b), PlainRow(b, b)];
    MisleadingSets(a, b);
    MisleadingRowsAreValid(a, b);
    MisleadingSizes(a, b);
    MisleadingTally(rows, {a, b}, {(a, b), (b, b)}, {((a, b), 0), ((b, b), 0)});
  }

  lemma MisleadingSizes(a: string, b: string)
    requires a != b
    ensures |{a, b}| == 2 && |{(a, b), (b, b)}| == 2 && |{((a, b), 0), ((b, b), 0)}| == 2
  {
  }

  lemma MisleadingTally(rows: seq<Row>, sources: set<string>, pairs: set<(string, string)>,
                        combinations: set<((string, string), int)>)
    requires Sources(rows) == sources && Pairs(rows) == pairs && Combinations(rows) == combinations
    requires |sources| == 2 && |pairs| == 2 && |combinations| == 2
    requires DestinationBatches(rows) == {0} && PortBatches(rows) == {0}
    requires CycleRows(rows) == rows && InvalidRows(rows, 1, 1, 1, rows) == 0
    ensures Tally(2, 1, 1, 1, 1, rows).complete
  {
    assert Below(1) == {0};
  }

  lemma MisleadingSets(a: string, b: string)
    requires a != b && a != "" && b != ""
    ensures var rows := [PlainRow(a, b), PlainRow(b, b)];
      && Sources(rows) == {a, b} && Pairs(rows) == {(a, b), (b, b)}
      && Combinations(rows) == {((a, b), 0), ((b, b), 0)}
      && DestinationBatches(rows) == {0} && PortBatches(rows) == {0}
  {
    var ab, bb := PlainRow(a, b), PlainRow(b, b);
    var rows := [ab, bb];
    assert ab in rows && bb in rows;
  }

  lemma MisleadingRowsAreValid(a: string, b: string)
    requires a != b && a != "" && b != ""
    ensures var rows := [PlainRow(a, b), PlainRow(b, b)];
      CycleRows(rows) == rows && InvalidRows(rows, 1, 1, 1, rows) == 0
  {
    hide InvalidRows;
    hide CycleRows;
    hide ValidSocketBatch;
    var rows := [PlainRow(a, b), PlainRow(b, b)];
    forall row | row in rows ensures row.probeCycle.Some? && ValidSocketBatch(row, 1, 1, 1, rows) {
      PlainRowIsValid(a, b, rows);
      PlainRowIsValid(b, b, rows);
    }
    AllCycleRows(rows);
  }

  lemma PlainRowIsValid(source: string, destination: string, rows: seq<Row>)
    ensures ValidSocketBatch(PlainRow(source, destination), 1, 1, 1, rows)
  {
    hide ExplainedDfSendError;
  }

  lemma {:induction false} AllCycleRows(rows: seq<Row>)
    requires forall row :: row in rows ==> row.probeCycle.Some?
    ensures CycleRows(rows) == rows
  {
    hide CycleRows;
    if rows == [] {
      NoCycleRows();
    } else {
      var front, last := rows[..|rows| - 1], rows[|rows| - 1];
      forall row | row in front ensures row.probeCycle.Some? { assert row in rows; }
      AllCycleRows(front);
      CycleRowsPush(front, last);
      assert last in rows && rows == front + [last];
    }
  }

  lemma NoCycleRows()
    ensures CycleRows([]) == []
  {
  }

  lemma CycleRowsPush(rows: seq<Row>, row: Row)
    ensures CycleRows(rows + [row]) == CycleRows(rows) + if row.probeCycle.Some? then [row] else []
  {
    assert (rows + [row])[..|rows|] == rows;
  }
}
