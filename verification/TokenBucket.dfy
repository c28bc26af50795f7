/** The pacer of one traffic flow, as arithmetic over its service calls.  Tokens are bytes and time is
    in seconds, both real numbers. */
module TokenBucket {
  import opened Numbers

  const SCHEDULER_TICK := 0.1

  /** One service call: when, how many packets and bytes went out, and whether something other than the
      lack of tokens stopped the sending. */
  datatype Service = Service(now: real, packets: nat, bytes: nat, stopped: bool)

  datatype Bucket = Bucket(rate: real, payload: nat, start: real)
  {
    ghost predicate Valid() { rate >= 0.0 && payload >= 1 }

    function Burst(): real {
      var tick := rate * SCHEDULER_TICK * 1.25;
      if tick >= payload as real then tick else payload as real
    }

    /** What the rate allows in `elapsed` seconds. */
    function Earned(elapsed: real): real { rate * elapsed }

    function Replenish(current: real, elapsed: real): real {
      var filled := current + Earned(elapsed);
      if filled <= Burst() then filled else Burst()
    }

    function LastTime(history: seq<Service>): real {
      if history == [] then start else history[|history| - 1].now
    }

    /** The tokens of service call `k` before it sends. */
    function Available(history: seq<Service>, now: real): real
      decreases |history|, 1
    {
      Replenish(TokensAfter(history), now - LastTime(history))
    }

    function TokensAfter(history: seq<Service>): real
      decreases |history|, 0
    {
      if history == [] then 0.0
      else
        var last := history[|history| - 1];
        Available(history[..|history| - 1], last.now) - last.bytes as real
    }

    /** Time does not run backwards and no call spends tokens it does not have. */
    ghost predicate Conforming(history: seq<Service>) {
      history == [] || (
        var front, last := history[..|history| - 1], history[|history| - 1];
        && Conforming(front)
        && last.now >= LastTime(front)
        && last.bytes as real <= Available(front, last.now))
    }

    /** From call `i` on nothing stops a send, so each call leaves less than one payload. */
    ghost predicate Exhaustive(history: seq<Service>, i: nat) {
      |history| <= i || (
        Exhaustive(history[..|history| - 1], i) && !history[|history| - 1].stopped && TokensAfter(history) < payload as real)
    }

    /** From call `i` on, service calls come at least once per scheduler tick. */
    ghost predicate Punctual(history: seq<Service>, i: nat) {
      |history| <= i || (
        var front, last := history[..|history| - 1], history[|history| - 1];
        Punctual(front, i) && last.now - LastTime(front) <= SCHEDULER_TICK)
    }
  }

  function TotalBytes(history: seq<Service>): nat {
    if history == [] then 0 else TotalBytes(history[..|history| - 1]) + history[|history| - 1].bytes
  }

  lemma EarnedGrows(b: Bucket, elapsed: real)
    requires b.Valid() && elapsed >= 0.0
    ensures b.Earned(elapsed) >= 0.0
  {
  }

  lemma EarnedSplits(b: Bucket, x: real, y: real)
    ensures b.Earned(x + y) == b.Earned(x) + b.Earned(y)
  {
  }

  /** One more service call at the end of a history. */
  lemma NextCall(b: Bucket, history: seq<Service>, s: Service)
    ensures b.LastTime(history + [s]) == s.now
    ensures b.TokensAfter(history + [s]) == b.Available(history, s.now) - s.bytes as real
    ensures TotalBytes(history + [s]) == TotalBytes(history) + s.bytes
    ensures b.Conforming(history + [s]) <==>
      b.Conforming(history) && s.now >= b.LastTime(history) && s.bytes as real <= b.Available(history, s.now)
  {
    assert (history + [s])[..|history|] == history;
  }

  /** A call that spends what it has extends the history. */
  lemma Extended(b: Bucket, history: seq<Service>, s: Service, before: real, after: real)
    requires b.Valid() && b.Conforming(history) && before == b.TokensAfter(history) && s.now >= b.LastTime(history)
    requires after == b.Replenish(before, s.now - b.LastTime(history)) - s.bytes as real && after >= 0.0
    ensures b.Conforming(history + [s]) && b.TokensAfter(history + [s]) == after
    ensures b.LastTime(history + [s]) == s.now && after <= b.Burst()
  {
    NextCall(b, history, s);
    TokensInRange(b, history + [s]);
  }

  lemma NextSteadyCall(b: Bucket, history: seq<Service>, s: Service, i: nat)
    requires i <= |history|
    ensures b.Exhaustive(history + [s], i) <==>
      b.Exhaustive(history, i) && !s.stopped && b.TokensAfter(history + [s]) < b.payload as real
    ensures b.Punctual(history + [s], i) <==> b.Punctual(history, i) && s.now - b.LastTime(history) <= SCHEDULER_TICK
  {
    assert (history + [s])[..|history|] == history;
    hide Bucket.TokensAfter;
  }

  /** Tokens never go negative and never exceed the burst. */
  lemma {:induction false} TokensInRange(b: Bucket, history: seq<Service>)
    requires b.Valid() && b.Conforming(history)
    ensures 0.0 <= b.TokensAfter(history) <= b.Burst()
    ensures b.LastTime(history) >= b.start
  {
    if history != [] {
      var front, last := history[..|history| - 1], history[|history| - 1];
      TokensInRange(b, front);
      EarnedGrows(b, last.now - b.LastTime(front));
    }
  }

  /** The bytes from call `i` to the last one, with what is left in the bucket taken into account. */
  lemma {:induction false} IntervalBound(b: Bucket, history: seq<Service>, i: nat)
    requires b.Valid() && b.Conforming(history) && i < |history|
    ensures TotalBytes(history[i..]) as real
         <= b.Burst() + b.Earned(b.LastTime(history) - history[i].now) - b.TokensAfter(history)
    ensures TotalBytes(history[i..]) as real <= b.Burst() + b.Earned(b.LastTime(history) - history[i].now)
  {
    var front, last := history[..|history| - 1], history[|history| - 1];
    TokensInRange(b, history);
    assert b.Earned(0.0) == 0.0;
    hide Bucket.Earned;
    hide Bucket.Burst;
    assert history[i..][..|history[i..]| - 1] == front[i..];
    if i < |front| {
      IntervalBound(b, front, i);
      assert front[i] == history[i];
      EarnedSplits(b, b.LastTime(front) - history[i].now, last.now - b.LastTime(front));
    }
  }

  lemma {:induction false} ConformingPrefix(b: Bucket, history: seq<Service>, j: nat)
    requires b.Conforming(history) && j <= |history|
    ensures b.Conforming(history[..j])
  {
    if j < |history| {
      ConformingPrefix(b, history[..|history| - 1], j);
      assert history[..|history| - 1][..j] == history[..j];
    } else {
      assert history[..j] == history;
    }
  }

  /** The rate bound between any two service calls of any run: the bytes of calls `i .. j` are at
      most one burst plus what the rate allows in between. */
  lemma BoundBetween(b: Bucket, history: seq<Service>, i: nat, j: nat)
    requires b.Valid() && b.Conforming(history) && i <= j < |history|
    ensures TotalBytes(history[i..j + 1]) as real <= b.Burst() + b.Earned(history[j].now - history[i].now)
  {
    ConformingPrefix(b, history, j + 1);
    IntervalBound(b, history[..j + 1], i);
    assert history[..j + 1][i..] == history[i..j + 1];
  }

  /** From the start of the run there is no burst to draw on: the total is at most the rate times
      the elapsed time. */
  lemma {:induction false} StartBound(b: Bucket, history: seq<Service>)
    requires b.Valid() && b.Conforming(history)
    ensures TotalBytes(history) as real + b.TokensAfter(history) <= b.Earned(b.LastTime(history) - b.start)
    ensures TotalBytes(history) as real <= b.Earned(b.LastTime(history) - b.start)
  {
    TokensInRange(b, history);
    assert b.Earned(0.0) == 0.0;
    hide Bucket.Earned;
    if history != [] {
      var front, last := history[..|history| - 1], history[|history| - 1];
      StartBound(b, front);
      EarnedSplits(b, b.LastTime(front) - b.start, last.now - b.LastTime(front));
    }
  }

  /** When a payload is at most 2.5 % of the per-second rate, calls are punctual and no send stops
      short, the bucket never overflows. So from any point with less than one payload in the bucket
      (in particular from the start) the bytes stay within one payload of what the rate earns. */
  lemma {:induction false} RateIsReached(b: Bucket, history: seq<Service>, i: nat)
    requires b.Valid() && b.Conforming(history) && i <= |history|
    requires b.Exhaustive(history, i) && b.Punctual(history, i) && b.TokensAfter(history[..i]) < b.payload as real
    requires b.payload as real <= 0.025 * b.rate
    ensures var earned := b.Earned(b.LastTime(history) - b.LastTime(history[..i]));
      && TotalBytes(history[i..]) as real == b.TokensAfter(history[..i]) + earned - b.TokensAfter(history)
      && earned - b.payload as real < TotalBytes(history[i..]) as real < earned + b.payload as real
    ensures b.TokensAfter(history) < b.payload as real
  {
    hide Bucket.Conforming;
    hide Bucket.Exhaustive;
    hide Bucket.Punctual;
    hide Bucket.TokensAfter;
    hide Bucket.LastTime;
    hide Bucket.Earned;
    hide Bucket.Replenish;
    hide TotalBytes;
    ConformingPrefix(b, history, i);
    TokensInRange(b, history[..i]);
    TokensInRange(b, history);
    if |history| == i {
      assert history[..i] == history && history[i..] == [];
      assert b.LastTime(history) - b.LastTime(history[..i]) == 0.0;
      NothingYet(b);
    } else {
      var front, last := history[..|history| - 1], history[|history| - 1];
      assert history == front + [last] && front[..i] == history[..i] && history[i..] == front[i..] + [last];
      NextCall(b, front, last);
      NextSteadyCall(b, front, last, i);
      TokensInRange(b, front);
      RateIsReached(b, front, i);
      var gap := last.now - b.LastTime(front);
      NoOverflow(b, b.TokensAfter(front), gap);
      EarnedSplits(b, b.LastTime(front) - b.LastTime(history[..i]), gap);
      TotalPush(front[i..], last);
    }
  }

  lemma NothingYet(b: Bucket)
    ensures b.Earned(0.0) == 0.0 && TotalBytes([]) == 0
  {
  }

  lemma TotalPush(history: seq<Service>, s: Service)
    ensures TotalBytes(history + [s]) == TotalBytes(history) + s.bytes
  {
    assert (history + [s])[..|history|] == history;
  }

  /** Less than one small payload and one tick's worth of tokens fit in the bucket. */
  lemma NoOverflow(b: Bucket, tokens: real, gap: real)
    requires b.Valid() && tokens < b.payload as real <= 0.025 * b.rate && 0.0 <= gap <= SCHEDULER_TICK
    ensures b.Replenish(tokens, gap) == tokens + b.Earned(gap)
  {
    EarnedGrows(b, SCHEDULER_TICK - gap);
    EarnedSplits(b, gap, SCHEDULER_TICK - gap);
    assert b.Earned(SCHEDULER_TICK) == b.rate * 0.1;
  }

  // ---------------------------------------------------------------- larger payloads

  /** Whole payloads go out punctually whenever there are tokens for one; less than one is left. */
  ghost predicate SteadyRun(b: Bucket, history: seq<Service>) {
    && b.Conforming(history) && b.Exhaustive(history, 0) && b.Punctual(history, 0)
    && b.TokensAfter(history) < b.payload as real
    && forall k :: 0 <= k < |history| ==> IsWhole(history[k].bytes, b.payload)
  }

  ghost predicate IsWhole(bytes: nat, payload: nat) { exists n: nat :: bytes == n * payload }

  /** What the rate has earned and a full bucket has turned away. */
  ghost function Overflowed(b: Bucket, history: seq<Service>): real {
    b.Earned(b.LastTime(history) - b.start) - TotalBytes(history) as real - b.TokensAfter(history)
  }

  /** How full the bucket must be for a tick to overflow it, with a margin: half-way between what
      fills up exactly in one tick and a payload. Payloads above 2.5 % of the rate leave room for it. */
  function HighMark(b: Bucket): real { (b.Burst() - b.Earned(SCHEDULER_TICK) + b.payload as real) / 2.0 }

  function Margin(b: Bucket): real { HighMark(b) + b.Earned(SCHEDULER_TICK) - b.Burst() }

  /** The 2.5 % is exact: with any larger payload, steady runs fall behind by any amount. */
  lemma LargerPayloadsLoseRate(b: Bucket, deficit: real) returns (history: seq<Service>)
    requires b.Valid() && b.rate > 0.0 && b.payload as real > 0.025 * b.rate
    ensures SteadyRun(b, history)
    ensures TotalBytes(history) as real + deficit < b.Earned(b.LastTime(history) - b.start)
  {
    MarginIsPositive(b);
    var n := RoundsFor(Margin(b), deficit);
    history := LoseRepeatedly(b, n);
    TokensInRange(b, history);
    hide *;
  }

  /** Not more than a payload behind what the rate has earned. */
  ghost predicate KeepsUp(b: Bucket, history: seq<Service>) {
    b.Earned(b.LastTime(history) - b.start) < TotalBytes(history) as real + b.payload as real
  }

  /** The pacer delivers its rate in every steady run exactly up to that payload. */
  lemma RateIsKeptIff(b: Bucket)
    requires b.Valid() && b.rate > 0.0
    ensures b.payload as real <= 0.025 * b.rate <==> forall history :: SteadyRun(b, history) ==> KeepsUp(b, history)
  {
    if b.payload as real <= 0.025 * b.rate {
      forall history | SteadyRun(b, history) ensures KeepsUp(b, history) {
        assert history[..0] == [] && history[0..] == history;
        NothingLost(b);
        RateIsReached(b, history, 0);
      }
    } else {
      var history := LargerPayloadsLoseRate(b, b.payload as real);
      assert !KeepsUp(b, history);
    }
  }

  lemma MarginIsPositive(b: Bucket)
    requires b.Valid() && b.rate > 0.0 && b.payload as real > 0.025 * b.rate
    ensures Margin(b) > 0.0 && HighMark(b) < b.payload as real <= b.Burst() && b.Earned(SCHEDULER_TICK) > 0.0
  {
  }

  lemma RoundsFor(margin: real, deficit: real) returns (n: nat)
    requires margin > 0.0
    ensures Times(n as real, margin) > deficit
  {
    if deficit < 0.0 { return 0; }
    var q := Quotient(deficit, margin);
    assert q >= 0.0 by { if q < 0.0 { ScaledOrder(q, 0.0, margin); } }
    n := q.Floor + 1;
    ScaledOrder(q, n as real, margin);
  }

  lemma {:induction false} LoseRepeatedly(b: Bucket, n: nat) returns (history: seq<Service>)
    requires b.Valid() && b.rate > 0.0 && b.payload as real > 0.025 * b.rate
    ensures SteadyRun(b, history) && Overflowed(b, history) >= Times(n as real, Margin(b))
  {
    hide SteadyRun;
    hide Overflowed;
    hide Margin;
    hide Bucket.Burst;
    if n == 0 {
      NothingLost(b);
      history := [];
    } else {
      history := LoseRepeatedly(b, n - 1);
      MarginIsPositive(b);
      history := FillUp(b, history);
      history := SpillOver(b, history);
      assert Times(n as real, Margin(b)) == Times((n - 1) as real, Margin(b)) + Margin(b);
    }
  }

  lemma NothingLost(b: Bucket)
    requires b.Valid()
    ensures SteadyRun(b, []) && Overflowed(b, []) == 0.0 == Times(0.0, Margin(b))
  {
  }

  /** Calls that come before there is a payload to send fill the bucket up and lose nothing. */
  lemma {:induction false} FillUp(b: Bucket, history: seq<Service>) returns (fuller: seq<Service>)
    requires b.Valid() && b.rate > 0.0 && HighMark(b) < b.payload as real && SteadyRun(b, history)
    ensures SteadyRun(b, fuller) && Overflowed(b, fuller) == Overflowed(b, history)
    ensures b.TokensAfter(fuller) >= HighMark(b)
    decreases TicksBelow(b, HighMark(b) - b.TokensAfter(history))
  {
    fuller := history;
    if b.TokensAfter(history) < HighMark(b) {
      var short := HighMark(b) - b.TokensAfter(history);
      hide SteadyRun;
      hide Overflowed;
      hide HighMark;
      hide Bucket.TokensAfter;
      var gap := GapFor(b, RealMin(short, b.Earned(SCHEDULER_TICK)));
      fuller := Wait(b, history, gap);
      if short > b.Earned(SCHEDULER_TICK) {
        TickLess(b, short);
        fuller := FillUp(b, fuller);
      }
    }
  }

  /** How many ticks it takes to earn `short`. */
  function TicksBelow(b: Bucket, short: real): int {
    if b.rate > 0.0 then (short / (0.1 * b.rate)).Floor else 0
  }

  lemma TickLess(b: Bucket, short: real)
    requires b.rate > 0.0 && short > b.Earned(SCHEDULER_TICK)
    ensures 0 <= TicksBelow(b, short - b.Earned(SCHEDULER_TICK)) < TicksBelow(b, short)
  {
    var tick := 0.1 * b.rate;
    assert b.Earned(SCHEDULER_TICK) == tick;
    hide Times;
    var q := Quotient(short, tick);
    var r := Quotient(short - tick, tick);
    assert Times(r + 1.0, tick) == Times(r, tick) + tick by { AddOne(r, tick); }
    if q < r + 1.0 { ScaledOrder(q, r + 1.0, tick); }
    if q > r + 1.0 { ScaledOrder(r + 1.0, q, tick); }
    if r < 0.0 {
      ScaledOrder(r, 0.0, tick);
      AddOne(-1.0, tick);
    }
  }

  lemma AddOne(x: real, p: real)
    ensures Times(x + 1.0, p) == Times(x, p) + p && Times(0.0, p) == 0.0
  {
  }

  /** One more call of a steady run. */
  lemma OneMoreCall(b: Bucket, history: seq<Service>, gap: real, packets: nat, bytes: nat) returns (longer: seq<Service>)
    requires b.Valid() && SteadyRun(b, history) && 0.0 <= gap <= SCHEDULER_TICK && IsWhole(bytes, b.payload)
    requires 0.0 <= b.Replenish(b.TokensAfter(history), gap) - bytes as real < b.payload as real
    ensures SteadyRun(b, longer)
    ensures b.TokensAfter(longer) == b.Replenish(b.TokensAfter(history), gap) - bytes as real
    ensures Overflowed(b, longer) == Overflowed(b, history)
      + b.TokensAfter(history) + b.Earned(gap) - b.Replenish(b.TokensAfter(history), gap)
  {
    hide IsWhole;
    hide Bucket.Conforming;
    hide Bucket.Exhaustive;
    hide Bucket.Punctual;
    hide Bucket.TokensAfter;
    hide Bucket.LastTime;
    hide Bucket.Replenish;
    hide Bucket.Earned;
    hide TotalBytes;
    var s := Service(b.LastTime(history) + gap, packets, bytes, false);
    NextCall(b, history, s);
    NextSteadyCall(b, history, s, 0);
    EarnedSplits(b, b.LastTime(history) - b.start, gap);
    longer := history + [s];
  }

  lemma Wait(b: Bucket, history: seq<Service>, gap: real) returns (longer: seq<Service>)
    requires b.Valid() && SteadyRun(b, history) && 0.0 <= gap <= SCHEDULER_TICK
    requires b.TokensAfter(history) + b.Earned(gap) < b.payload as real
    ensures SteadyRun(b, longer) && Overflowed(b, longer) == Overflowed(b, history)
    ensures b.TokensAfter(longer) == b.TokensAfter(history) + b.Earned(gap)
  {
    TokensInRange(b, history);
    EarnedGrows(b, gap);
    assert IsWhole(0, b.payload) by { assert 0 == 0 * b.payload; }
    hide Bucket.TokensAfter;
    hide Bucket.Earned;
    hide Overflowed;
    longer := OneMoreCall(b, history, gap, 0, 0);
  }

  /** A tick after the high mark: the bucket is full, sends what it can, and has lost the margin. */
  lemma SpillOver(b: Bucket, history: seq<Service>) returns (longer: seq<Service>)
    requires b.Valid() && SteadyRun(b, history) && b.TokensAfter(history) >= HighMark(b) && Margin(b) > 0.0
    ensures SteadyRun(b, longer) && Overflowed(b, longer) >= Overflowed(b, history) + Margin(b)
  {
    hide Bucket.TokensAfter;
    hide Bucket.Earned;
    hide HighMark;
    hide SteadyRun;
    hide Overflowed;
    hide WholePayloads;
    var full := b.Burst();
    assert b.Replenish(b.TokensAfter(history), SCHEDULER_TICK) == full;
    assert full >= b.payload as real;
    hide Bucket.Burst;
    hide Bucket.Replenish;
    WholePayloadsFit(full, b.payload);
    var n: nat := WholePayloads(full, b.payload);
    MulLe(0, n, b.payload);
    assert IsWhole(n * b.payload, b.payload);
    longer := OneMoreCall(b, history, SCHEDULER_TICK, n, n * b.payload);
  }

  /** The number of whole payloads the tokens pay for. */
  function WholePayloads(tokens: real, payload: nat): int
    requires payload >= 1
  {
    (tokens / payload as real).Floor
  }

  lemma WholePayloadsFit(tokens: real, payload: nat)
    requires payload >= 1 && tokens >= payload as real
    ensures WholePayloads(tokens, payload) >= 1
    ensures (WholePayloads(tokens, payload) * payload) as real <= tokens
    ensures tokens < (WholePayloads(tokens, payload) * payload) as real + payload as real
  {
    var p, n := payload as real, WholePayloads(tokens, payload);
    var q := Quotient(tokens, p);
    assert n == q.Floor;
    ProductAsReal(n, payload);
    hide WholePayloads;
    hide Times;
    AtLeastOne(q, p);
    FloorScaled(q, p, n);
  }

  /** A product the solver need not look into. */
  function Times(x: real, p: real): real { x * p }

  lemma Quotient(t: real, p: real) returns (q: real)
    requires p > 0.0
    ensures q == t / p && Times(q, p) == t
  {
    q := t / p;
  }

  lemma ProductAsReal(n: int, payload: nat)
    ensures (n * payload) as real == Times(n as real, payload as real)
  {
  }

  lemma AtLeastOne(q: real, p: real)
    requires p > 0.0 && Times(q, p) >= p
    ensures q >= 1.0
  {
    if q < 1.0 { ScaledOrder(q, 1.0, p); }
  }

  lemma FloorScaled(q: real, p: real, n: int)
    requires p > 0.0 && n as real <= q < n as real + 1.0
    ensures Times(n as real, p) <= Times(q, p) < Times(n as real, p) + p
    ensures q >= 1.0 ==> n >= 1
  {
    ScaledOrder(n as real, q, p);
    ScaledOrder(q, n as real + 1.0, p);
    assert Times(n as real + 1.0, p) == Times(n as real, p) + p;
  }

  lemma ScaledOrder(x: real, y: real, p: real)
    requires x <= y && p > 0.0
    ensures Times(x, p) <= Times(y, p) && (x < y ==> Times(x, p) < Times(y, p))
  {
    var d := y - x;
    assert d * p >= 0.0 && (d > 0.0 ==> d * p > 0.0);
    assert y * p == x * p + d * p;
  }

  lemma GapFor(b: Bucket, left: real) returns (gap: real)
    requires b.rate > 0.0 && 0.0 <= left <= 0.1 * b.rate
    ensures 0.0 <= gap <= 0.1 && b.Earned(gap) == left
  {
    gap := left / b.rate;
    assert gap * b.rate == left;
  }
}
