/** The BGP collector's transition tracker: polls of neighbor tables in, transition events out. */
module BgpTracker {
  import opened Numbers

  datatype Row = Row(neighbor: Option<string>, state: Option<string>, asn: Option<int>, prefixes: Option<int>)

  datatype EventType = SessionDown | SessionRecovered | SessionStateChanged

  datatype Event = Event(
    device: string, neighbor: string, kind: EventType, previousState: string, latestState: string,
    asn: Option<int>, prefixesBefore: Option<int>, prefixesAfter: Option<int>)

  type Key = (string, string)

  // ---------------------------------------------------------------- states

  predicate IsSpace(c: char) { c == ' ' || '\t' <= c <= '\r' || 28 <= c as int < 32 }

  function StripLeft(s: string): string {
    if s != "" && IsSpace(s[0]) then StripLeft(s[1..]) else s
  }

  function StripRight(s: string): string {
    if s != "" && IsSpace(s[|s| - 1]) then StripRight(s[..|s| - 1]) else s
  }

  function UpperChar(c: char): char {
    if 'a' <= c <= 'z' then (c as int - 32) as char else c
  }

  function Upper(s: string): string {
    seq(|s|, i requires 0 <= i < |s| => UpperChar(s[i]))
  }

  function NormalizeState(value: Option<string>): string {
    if value.None? || value.value == "" then "UNKNOWN" else Upper(StripRight(StripLeft(value.value)))
  }

  predicate IsBlank(s: string) { forall c :: c in s ==> IsSpace(c) }

  /** A state is reported without the blanks around it and in capitals; no state, or an empty one, is
      reported as unknown. */
  lemma NormalizedState(value: Option<string>) returns (before: string, core: string, after: string)
    ensures NormalizeState(None) == NormalizeState(Some("")) == "UNKNOWN"
    ensures value.Some? && value.value != "" ==>
      && value.value == before + core + after && IsBlank(before) && IsBlank(after)
      && (core != "" ==> !IsSpace(core[0]) && !IsSpace(core[|core| - 1]))
      && var state := NormalizeState(value);
      && |state| == |core|
      && forall i :: 0 <= i < |core| ==>
           state[i] == if 'a' <= core[i] <= 'z' then 'A' + (core[i] - 'a') else core[i]
  {
    before, core, after := "", "", "";
    if value.Some? && value.value != "" {
      var s := value.value;
      before := StrippedLeft(s);
      var rest := StripLeft(s);
      after := StrippedRight(rest);
      core := StripRight(rest);
      if core != "" { assert core[0] == rest[0]; }
      assert s == before + (core + after) == before + core + after;
    }
  }

  lemma {:induction false} StrippedLeft(s: string) returns (before: string)
    ensures s == before + StripLeft(s) && IsBlank(before)
    ensures StripLeft(s) != "" ==> !IsSpace(StripLeft(s)[0])
  {
    before := "";
    if s != "" && IsSpace(s[0]) {
      var rest := StrippedLeft(s[1..]);
      before := [s[0]] + rest;
      assert s == [s[0]] + s[1..];
    }
  }

  lemma {:induction false} StrippedRight(s: string) returns (after: string)
    ensures s == StripRight(s) + after && IsBlank(after)
    ensures StripRight(s) != "" ==> !IsSpace(StripRight(s)[|StripRight(s)| - 1])
  {
    after := "";
    if s != "" && IsSpace(s[|s| - 1]) {
      var rest := StrippedRight(s[..|s| - 1]);
      after := rest + [s[|s| - 1]];
      assert s == s[..|s| - 1] + [s[|s| - 1]];
    }
  }

  lemma BlanksAround(before: char, core: string, after: char)
    requires IsSpace(before) && IsSpace(after) && core != "" && !IsSpace(core[0]) && !IsSpace(core[|core| - 1])
    ensures NormalizeState(Some([before] + core + [after])) == Upper(core)
  {
    var s := [before] + core + [after];
    assert s[1..] == core + [after];
    assert StripLeft(s) == StripLeft(core + [after]) == core + [after];
    assert (core + [after])[..|core|] == core;
    assert StripRight(core + [after]) == StripRight(core) == core;
    hide Upper;
  }

  lemma EstablishedHoweverWritten(before: char, after: char)
    requires IsSpace(before) && IsSpace(after)
    ensures NormalizeState(Some([before] + "Established" + [after])) == "ESTABLISHED" == ESTABLISHED
  {
    BlanksAround(before, "Established", after);
    hide NormalizeState;
  }

  /** What counts as a blank, among the first 128 characters. */
  lemma Blanks()
    ensures IsSpace(' ') && IsSpace('\t') && IsSpace('\n') && IsSpace('\r')
    ensures forall c: char :: 32 < c as int < 128 ==> !IsSpace(c)
  {
  }

  const ESTABLISHED := "ESTABLISHED"
  const MISSING := "MISSING"

  lemma MissingIsNormal()
    ensures NormalizeState(Some(MISSING)) == MISSING
  {
    assert StripLeft(MISSING) == MISSING && StripRight(MISSING) == MISSING;
    assert Upper(MISSING) == MISSING;
  }

  function StateOf(row: Row): string { NormalizeState(row.state) }

  // ---------------------------------------------------------------- one transition

  function Classify(previous: string, latest: string): EventType {
    if previous == ESTABLISHED && latest != ESTABLISHED then SessionDown
    else if previous != ESTABLISHED && latest == ESTABLISHED then SessionRecovered
    else SessionStateChanged
  }

  function Transition(device: string, neighbor: string, previous: Row, current: Row): Event {
    Event(device, neighbor, Classify(StateOf(previous), StateOf(current)), StateOf(previous), StateOf(current),
          if current.asn.Some? then current.asn else previous.asn, previous.prefixes, current.prefixes)
  }

  predicate Named(row: Row) { row.neighbor.Some? && row.neighbor.value != "" }

  /** The rows of a poll by neighbor; a later row for a neighbor replaces an earlier one. */
  function CurrentRows(rows: seq<Row>): map<string, Row> {
    if rows == [] then map[]
    else
      var last := rows[|rows| - 1];
      var front := CurrentRows(rows[..|rows| - 1]);
      if Named(last) then front[last.neighbor.value := last] else front
  }

  /** A poll is read by its named rows: for each neighbor, the last row that names it. */
  lemma {:induction false} CurrentRowIsLast(rows: seq<Row>, neighbor: string, i: nat)
    requires IsLastRowOf(rows, i, neighbor)
    ensures neighbor in CurrentRows(rows) && CurrentRows(rows)[neighbor] == rows[i]
  {
    var front := rows[..|rows| - 1];
    if i < |front| {
      forall j | i < j < |front| ensures !IsRowOf(front[j], neighbor) { assert front[j] == rows[j]; }
      CurrentRowIsLast(front, neighbor, i);
      assert !IsRowOf(rows[|rows| - 1], neighbor);
    }
  }

  /** ... and no other neighbor is read. */
  lemma {:induction false} CurrentRowIsNamed(rows: seq<Row>, neighbor: string) returns (i: nat)
    requires neighbor in CurrentRows(rows)
    ensures IsLastRowOf(rows, i, neighbor)
  {
    var front, last := rows[..|rows| - 1], rows[|rows| - 1];
    if IsRowOf(last, neighbor) {
      i := |front|;
    } else {
      i := CurrentRowIsNamed(front, neighbor);
      forall j | i < j < |rows| ensures !IsRowOf(rows[j], neighbor) {
        if j < |front| { assert rows[j] == front[j]; }
      }
    }
  }

  ghost predicate IsLastRowOf(rows: seq<Row>, i: int, neighbor: string) {
    0 <= i < |rows| && IsRowOf(rows[i], neighbor) && forall j :: i < j < |rows| ==> !IsRowOf(rows[j], neighbor)
  }

  ghost predicate IsRowOf(row: Row, neighbor: string) { row.neighbor == Some(neighbor) && neighbor != "" }

  function Missing(previous: Row): Row { previous.(state := Some(MISSING), prefixes := None) }

  // ---------------------------------------------------------------- one neighbor's life

  datatype Poll = Poll(rows: map<string, Row>, ok: bool)

  /** What one poll of a device does to one of its neighbors. */
  function Step(device: string, neighbor: string, tracked: Option<Row>, poll: Poll): (Option<Row>, seq<Event>) {
    if !poll.ok then (tracked, [])
    else if neighbor in poll.rows then
      var current := poll.rows[neighbor];
      (Some(current),
       if tracked.Some? && StateOf(tracked.value) != StateOf(current)
       then [Transition(device, neighbor, tracked.value, current)] else [])
    else if tracked.Some? && StateOf(tracked.value) != MISSING then
      (Some(Missing(tracked.value)), [Transition(device, neighbor, tracked.value, Missing(tracked.value))])
    else (tracked, [])
  }

  datatype Life = Life(tracked: Option<Row>, events: seq<Event>)

  /** One neighbor's tracked row and events after a sequence of polls of its device. */
  function LifeOf(device: string, neighbor: string, polls: seq<Poll>): Life {
    if polls == [] then Life(None, [])
    else
      var before := LifeOf(device, neighbor, polls[..|polls| - 1]);
      var (tracked, events) := Step(device, neighbor, before.tracked, polls[|polls| - 1]);
      Life(tracked, before.events + events)
  }

  /** The state a neighbor was first seen in. */
  function FirstState(neighbor: string, polls: seq<Poll>): Option<string> {
    if polls == [] then None
    else
      var before := FirstState(neighbor, polls[..|polls| - 1]);
      var poll := polls[|polls| - 1];
      if before.Some? then before
      else if poll.ok && neighbor in poll.rows then Some(StateOf(poll.rows[neighbor]))
      else None
  }

  /** What polling says a neighbor's state is, without any tracking: the state in the last
      successful poll, or MISSING when that poll no longer lists a neighbor seen before. */
  function PolledState(neighbor: string, polls: seq<Poll>): Option<string> {
    if polls == [] then None
    else
      var front, poll := polls[..|polls| - 1], polls[|polls| - 1];
      if !poll.ok then PolledState(neighbor, front)
      else if neighbor in poll.rows then Some(StateOf(poll.rows[neighbor]))
      else if FirstState(neighbor, front).Some? then Some(MISSING)
      else None
  }

  /** The prefixes polling reports: those of the last successful poll, and none of a neighbor that has
      gone missing since. */
  function PolledPrefixes(neighbor: string, polls: seq<Poll>): Option<int> {
    if polls == [] then None
    else
      var front, poll := polls[..|polls| - 1], polls[|polls| - 1];
      if !poll.ok then PolledPrefixes(neighbor, front)
      else if neighbor in poll.rows then poll.rows[neighbor].prefixes
      else if PolledState(neighbor, front) == Some(MISSING) then PolledPrefixes(neighbor, front)
      else None
  }

  /** The AS number in the last successful poll that lists the neighbor. */
  function PolledAsn(neighbor: string, polls: seq<Poll>): Option<int> {
    if polls == [] then None
    else
      var front, poll := polls[..|polls| - 1], polls[|polls| - 1];
      if poll.ok && neighbor in poll.rows then poll.rows[neighbor].asn else PolledAsn(neighbor, front)
  }

  /** What there is to report of a neighbor: an event for each poll after which polling says something
      else than before, with what it says before and after. */
  function Report(device: string, neighbor: string, polls: seq<Poll>): seq<Event> {
    if polls == [] then []
    else
      var front := polls[..|polls| - 1];
      var was, now := PolledState(neighbor, front), PolledState(neighbor, polls);
      Report(device, neighbor, front)
      + if was.None? || now.None? || was == now then []
        else
          var kind := if was == Some(ESTABLISHED) then SessionDown
                      else if now == Some(ESTABLISHED) then SessionRecovered else SessionStateChanged;
          var asn := PolledAsn(neighbor, polls);
          [Event(device, neighbor, kind, was.value, now.value,
                 if asn.Some? then asn else PolledAsn(neighbor, front),
                 PolledPrefixes(neighbor, front), PolledPrefixes(neighbor, polls))]
  }

  /** The event log is the report. */
  lemma {:induction false} LogIsTheReport(device: string, neighbor: string, polls: seq<Poll>)
    ensures LifeOf(device, neighbor, polls).events == Report(device, neighbor, polls)
  {
    if polls != [] {
      var front := polls[..|polls| - 1];
      LogIsTheReport(device, neighbor, front);
      TrackedIsPolled(device, neighbor, front);
      TrackedIsPolled(device, neighbor, polls);
      MissingIsNormal();
      hide NormalizeState;
      hide PolledState;
      hide PolledPrefixes;
      hide PolledAsn;
    }
  }

  /** What is tracked is what polling says. */
  lemma {:induction false} TrackedIsPolled(device: string, neighbor: string, polls: seq<Poll>)
    ensures var tracked := LifeOf(device, neighbor, polls).tracked;
      && PolledState(neighbor, polls) == (if tracked.Some? then Some(StateOf(tracked.value)) else None)
      && PolledPrefixes(neighbor, polls) == (if tracked.Some? then tracked.value.prefixes else None)
      && PolledAsn(neighbor, polls) == (if tracked.Some? then tracked.value.asn else None)
  {
    if polls != [] {
      TrackedIsPolled(device, neighbor, polls[..|polls| - 1]);
      LogRefinesPolling(device, neighbor, polls[..|polls| - 1]);
      MissingIsNormal();
      hide NormalizeState;
    }
  }

  /** The events lead from `first` to `last`, each starting where the previous one ended. */
  ghost predicate Chain(first: string, events: seq<Event>, last: string) {
    if events == [] then first == last
    else
      var e := events[|events| - 1];
      && e.latestState == last && e.previousState != e.latestState
      && e.kind == Classify(e.previousState, e.latestState)
      && Chain(first, events[..|events| - 1], e.previousState)
  }

  /** The tracked state is the polled state, and the event log replays from the first state seen to
      it through a chain of real changes. */
  lemma {:induction false} LogRefinesPolling(device: string, neighbor: string, polls: seq<Poll>)
    ensures var life := LifeOf(device, neighbor, polls);
      && (life.tracked.Some? <==> FirstState(neighbor, polls).Some?)
      && (life.tracked.Some? ==> PolledState(neighbor, polls) == Some(StateOf(life.tracked.value)))
      && (life.tracked.None? ==> PolledState(neighbor, polls) == None && life.events == [])
      && (life.tracked.Some? ==>
            Chain(FirstState(neighbor, polls).value, life.events, StateOf(life.tracked.value)))
  {
    if polls != [] {
      LogRefinesPolling(device, neighbor, polls[..|polls| - 1]);
      var before := LifeOf(device, neighbor, polls[..|polls| - 1]);
      MissingIsNormal();
      hide NormalizeState;
      var (tracked, events) := Step(device, neighbor, before.tracked, polls[|polls| - 1]);
      if events != [] {
        assert (before.events + events)[..|before.events|] == before.events;
      } else {
        assert before.events + events == before.events;
      }
    }
  }

  /** Failed polls change nothing: only the successful ones matter. */
  lemma {:induction false} FailedPollsAreInvisible(device: string, neighbor: string, polls: seq<Poll>)
    ensures LifeOf(device, neighbor, polls) == LifeOf(device, neighbor, Successful(polls))
  {
    if polls != [] {
      var front, last := polls[..|polls| - 1], polls[|polls| - 1];
      FailedPollsAreInvisible(device, neighbor, front);
      hide Step;
      assert polls == front + [last];
      LifePush(device, neighbor, front, last);
      if last.ok {
        LifePush(device, neighbor, Successful(front), last);
      } else {
        StepFailed(device, neighbor, LifeOf(device, neighbor, front), last);
        assert Successful(polls) == Successful(front);
      }
    }
  }

  lemma LifePush(device: string, neighbor: string, polls: seq<Poll>, poll: Poll)
    ensures var before := LifeOf(device, neighbor, polls);
      var step := Step(device, neighbor, before.tracked, poll);
      LifeOf(device, neighbor, polls + [poll]) == Life(step.0, before.events + step.1)
  {
    assert (polls + [poll])[..|polls|] == polls;
  }

  lemma StepFailed(device: string, neighbor: string, before: Life, poll: Poll)
    requires !poll.ok
    ensures Step(device, neighbor, before.tracked, poll) == (before.tracked, [])
    ensures Life(before.tracked, before.events + []) == before
  {
    assert before.events + [] == before.events;
  }

  function Successful(polls: seq<Poll>): seq<Poll> {
    if polls == [] then []
    else Successful(polls[..|polls| - 1]) + (if polls[|polls| - 1].ok then [polls[|polls| - 1]] else [])
  }

  // ---------------------------------------------------------------- downs and recoveries

  function CountKind(events: seq<Event>, kind: EventType): nat {
    if events == [] then 0
    else CountKind(events[..|events| - 1], kind) + (if events[|events| - 1].kind == kind then 1 else 0)
  }

  function Up(state: string): int { if state == ESTABLISHED then 1 else 0 }

  /** Sessions lost minus sessions recovered is the change of the established flag. */
  lemma {:induction false} DownsBalanceRecoveries(first: string, events: seq<Event>, last: string)
    requires Chain(first, events, last)
    ensures CountKind(events, SessionDown) - CountKind(events, SessionRecovered) == Up(first) - Up(last)
  {
    if events != [] {
      DownsBalanceRecoveries(first, events[..|events| - 1], events[|events| - 1].previousState);
    }
  }

  /** ... and the two strictly alternate: between two losses there is a recovery and between two
      recoveries a loss. */
  lemma DownsAndRecoveriesAlternate(first: string, events: seq<Event>, last: string, i: nat, j: nat)
    requires Chain(first, events, last) && i < j < |events|
    requires events[i].kind == events[j].kind && events[i].kind != SessionStateChanged
    ensures exists k :: i < k < j && events[k].kind != SessionStateChanged && events[k].kind != events[i].kind
  {
    ChainAt(first, events, last, i);
    ChainAt(first, events, last, j);
    var k := FlipBetween(first, events, last, i, j);
  }

  lemma {:induction false} ChainAt(first: string, events: seq<Event>, last: string, i: nat)
    requires Chain(first, events, last) && i < |events|
    ensures events[i].kind == Classify(events[i].previousState, events[i].latestState)
    ensures i + 1 < |events| ==> events[i + 1].previousState == events[i].latestState
  {
    var front := events[..|events| - 1];
    if i < |front| { ChainAt(first, front, events[|events| - 1].previousState, i); }
  }

  /** When the established flag differs between the end of event `i` and the start of event `j`,
      some event strictly between them flips it. */
  lemma {:induction false} FlipBetween(first: string, events: seq<Event>, last: string, i: nat, j: nat)
    returns (k: nat)
    requires Chain(first, events, last) && i < j < |events|
    requires Up(events[i].latestState) != Up(events[j].previousState)
    ensures i < k < j && Up(events[k].previousState) == Up(events[i].latestState)
    ensures Up(events[k].latestState) != Up(events[k].previousState)
    ensures events[k].kind == Classify(events[k].previousState, events[k].latestState)
    decreases j - i
  {
    ChainAt(first, events, last, i);
    ChainAt(first, events, last, i + 1);
    if Up(events[i + 1].latestState) != Up(events[i + 1].previousState) {
      k := i + 1;
    } else {
      k := FlipBetween(first, events, last, i + 1, j);
    }
  }

  // ---------------------------------------------------------------- the tracker

  function EventsOf(events: seq<Event>, device: string, neighbor: string): seq<Event> {
    if events == [] then []
    else
      var last := events[|events| - 1];
      EventsOf(events[..|events| - 1], device, neighbor)
      + (if last.device == device && last.neighbor == neighbor then [last] else [])
  }

  lemma {:induction false} EventsOfConcat(a: seq<Event>, b: seq<Event>, device: string, neighbor: string)
    ensures EventsOf(a + b, device, neighbor) == EventsOf(a, device, neighbor) + EventsOf(b, device, neighbor)
  {
    if b == [] {
      assert a + b == a;
    } else {
      EventsOfConcat(a, b[..|b| - 1], device, neighbor);
      assert (a + b)[..|a + b| - 1] == a + b[..|b| - 1];
    }
  }

  lemma EventsOfPush(events: seq<Event>, e: Event, device: string, neighbor: string)
    ensures EventsOf(events + [e], device, neighbor)
         == EventsOf(events, device, neighbor) + (if e.device == device && e.neighbor == neighbor then [e] else [])
  {
    assert (events + [e])[..|events|] == events;
  }

  function Lookup(m: map<Key, Row>, key: Key): Option<Row> { if key in m then Some(m[key]) else None }

  /** The polls of one device, in order. */
  function PollsOf(polls: seq<(string, Poll)>, device: string): seq<Poll> {
    if polls == [] then []
    else
      var last := polls[|polls| - 1];
      PollsOf(polls[..|polls| - 1], device) + (if last.0 == device then [last.1] else [])
  }

  /** Neighbor `n` of device `d` is as before and has no event. */
  ghost predicate Untouched(before: map<Key, Row>, after: map<Key, Row>, events: seq<Event>, d: string, n: string) {
    Lookup(after, (d, n)) == Lookup(before, (d, n)) && EventsOf(events, d, n) == []
  }

  /** Neighbor `n` of device `d` has taken the step the poll calls for. */
  ghost predicate Stepped(before: map<Key, Row>, after: map<Key, Row>, events: seq<Event>, d: string, n: string, poll: Poll) {
    var step := Step(d, n, Lookup(before, (d, n)), poll);
    Lookup(after, (d, n)) == step.0 && EventsOf(events, d, n) == step.1
  }

  lemma NoEvents()
    ensures forall d, n :: EventsOf([], d, n) == []
  {
  }

  /** Replacing the row of one key, with at most one event about it, touches no other key. */
  lemma OtherKey(m: map<Key, Row>, events: seq<Event>, key: Key, row: Row, e: seq<Event>, d: string, n: string)
    requires |e| <= 1 && forall x :: x in e ==> x.device == key.0 && x.neighbor == key.1
    ensures EventsOf(events + e, d, n) == if (d, n) == key then EventsOf(events, d, n) + e else EventsOf(events, d, n)
    ensures Lookup(m[key := row], (d, n)) == if (d, n) == key then Some(row) else Lookup(m, (d, n))
  {
    if e == [] {
      assert events + e == events;
    } else {
      assert e == [e[0]];
      EventsOfPush(events, e[0], d, n);
    }
  }

  class BgpTransitionTracker {
    var previous: map<Key, Row>
    /** Everything this tracker was given and everything it emitted, in order. */
    ghost var polls: seq<(string, Poll)>
    ghost var log: seq<Event>

    /** Every neighbor's tracked row and events are those of its own life. */
    ghost predicate Valid()
      reads this
    {
      forall device, neighbor ::
        && Lookup(previous, (device, neighbor)) == LifeOf(device, neighbor, PollsOf(polls, device)).tracked
        && EventsOf(log, device, neighbor) == LifeOf(device, neighbor, PollsOf(polls, device)).events
    }

    constructor ()
      ensures Valid() && previous == map[] && polls == [] && log == []
    {
      previous, polls, log := map[], [], [];
    }

    /** The effect of one poll on the table and the events, neighbor by neighbor. */
    method Process(device: string, rows: seq<Row>, collectionOk: bool) returns (events: seq<Event>)
      modifies this`previous
      ensures forall d, n :: d != device ==> Untouched(old(previous), previous, events, d, n)
      ensures forall n :: Stepped(old(previous), previous, events, device, n, Poll(CurrentRows(rows), collectionOk))
    {
      events := [];
      if !collectionOk { return; }
      var current := CurrentRows(rows);
      var listed := TakeListed(device, current);
      ghost var middle := previous;
      var missing := TakeMissing(device, current);
      events := listed + missing;
      hide Step;
      hide CurrentRows;
      forall d, n | d != device ensures Untouched(old(previous), previous, events, d, n) {
        EventsOfConcat(listed, missing, d, n);
        assert Untouched(old(previous), middle, listed, d, n) && Untouched(middle, previous, missing, d, n);
      }
      forall n ensures Stepped(old(previous), previous, events, device, n, Poll(current, true)) {
        EventsOfConcat(listed, missing, device, n);
        assert [] + EventsOf(missing, device, n) == EventsOf(missing, device, n);
        if n in current {
          assert Stepped(old(previous), middle, listed, device, n, Poll(current, true));
          assert Untouched(middle, previous, missing, device, n);
        } else {
          assert Untouched(old(previous), middle, listed, device, n);
          assert Stepped(middle, previous, missing, device, n, Poll(current, true));
        }
      }
    }

    /** Neighbors the poll lists. */
    method TakeListed(device: string, current: map<string, Row>) returns (events: seq<Event>)
      modifies this`previous
      ensures forall d, n :: d != device || n !in current ==> Untouched(old(previous), previous, events, d, n)
      ensures forall n :: n in current ==> Stepped(old(previous), previous, events, device, n, Poll(current, true))
    {
      hide NormalizeState;
      hide EventsOf;
      ghost var before := previous;
      ghost var poll := Poll(current, true);
      events := [];
      NoEvents();
      var left := current.Keys;
      while left != {}
        invariant left <= current.Keys
        invariant forall d, n :: d != device || n !in current || n in left ==> Untouched(before, previous, events, d, n)
        invariant forall n :: n in current && n !in left ==> Stepped(before, previous, events, device, n, poll)
        decreases left
      {
        var neighbor :| neighbor in left;
        var key, row := (device, neighbor), current[neighbor];
        var e := [];
        if key in previous && StateOf(previous[key]) != StateOf(row) {
          e := [Transition(device, neighbor, previous[key], row)];
        }
        assert Untouched(before, previous, events, device, neighbor);
        forall d, n ensures EventsOf(events + e, d, n) == if (d, n) == key then EventsOf(events, d, n) + e else EventsOf(events, d, n) {
          OtherKey(previous, events, key, row, e, d, n);
        }
        ghost var m, es := previous, events;
        events := events + e;
        previous := previous[key := row];
        assert EventsOf(events, device, neighbor) == e;
        assert Stepped(before, previous, events, device, neighbor, poll);
        hide Step;
        forall d, n | (d, n) != key && Untouched(before, m, es, d, n) ensures Untouched(before, previous, events, d, n) {
        }
        forall n | n != neighbor && Stepped(before, m, es, device, n, poll)
          ensures Stepped(before, previous, events, device, n, poll)
        {
        }
        left := left - {neighbor};
      }
    }

    /** Neighbors of the device that were tracked and that the poll no longer lists. */
    method TakeMissing(device: string, current: map<string, Row>) returns (events: seq<Event>)
      modifies this`previous
      ensures forall d, n :: d != device || n in current ==> Untouched(old(previous), previous, events, d, n)
      ensures forall n :: n !in current ==> Stepped(old(previous), previous, events, device, n, Poll(current, true))
    {
      hide NormalizeState;
      hide EventsOf;
      ghost var before := previous;
      ghost var poll := Poll(current, true);
      events := [];
      NoEvents();
      var left := set key | key in previous && key.0 == device && key.1 !in current;
      while left != {}
        invariant forall key :: key in left ==> key.0 == device && key.1 !in current && key in previous
        invariant forall d, n :: d != device || n in current || (d, n) in left ==> Untouched(before, previous, events, d, n)
        invariant forall n :: n !in current && (device, n) !in left ==> Stepped(before, previous, events, device, n, poll)
        decreases left
      {
        var key :| key in left;
        assert Untouched(before, previous, events, device, key.1);
        ghost var m, es := previous, events;
        if StateOf(previous[key]) != MISSING {
          var row := Missing(previous[key]);
          var e := [Transition(device, key.1, previous[key], row)];
          forall d, n ensures EventsOf(events + e, d, n) == if (d, n) == key then EventsOf(events, d, n) + e else EventsOf(events, d, n) {
            OtherKey(previous, events, key, row, e, d, n);
          }
          events := events + e;
          previous := previous[key := row];
          assert EventsOf(events, device, key.1) == e;
        }
        assert Stepped(before, previous, events, device, key.1, poll);
        hide Step;
        forall d, n | (d, n) != key && Untouched(before, m, es, d, n) ensures Untouched(before, previous, events, d, n) {
        }
        forall n | n != key.1 && Stepped(before, m, es, device, n, poll)
          ensures Stepped(before, previous, events, device, n, poll)
        {
        }
        left := left - {key};
      }
    }

    /** One poll of the run. */
    method Take(device: string, rows: seq<Row>, collectionOk: bool) returns (events: seq<Event>)
      requires Valid()
      modifies this
      ensures Valid() && log == old(log) + events
      ensures polls == old(polls) + [(device, Poll(CurrentRows(rows), collectionOk))]
    {
      hide LifeOf;
      hide Step;
      hide CurrentRows;
      ghost var before := previous;
      events := Process(device, rows, collectionOk);
      var poll := Poll(CurrentRows(rows), collectionOk);
      forall d, n
        ensures EventsOf(log + events, d, n) == EventsOf(log, d, n) + EventsOf(events, d, n)
        ensures PollsOf(polls + [(device, poll)], d) == PollsOf(polls, d) + (if d == device then [poll] else [])
        ensures var before := LifeOf(d, n, PollsOf(polls, d));
          var step := Step(d, n, before.tracked, poll);
          LifeOf(d, n, PollsOf(polls, d) + [poll]) == Life(step.0, before.events + step.1)
      {
        EventsOfConcat(log, events, d, n);
        assert (polls + [(device, poll)])[..|polls|] == polls;
        LifePush(d, n, PollsOf(polls, d), poll);
      }
      forall d, n
        ensures Lookup(previous, (d, n)) == LifeOf(d, n, PollsOf(polls + [(device, poll)], d)).tracked
        ensures EventsOf(log + events, d, n) == LifeOf(d, n, PollsOf(polls + [(device, poll)], d)).events
      {
        assert Lookup(before, (d, n)) == LifeOf(d, n, PollsOf(polls, d)).tracked;
        if d == device {
          assert Stepped(before, previous, events, device, n, poll);
        } else {
          assert Untouched(before, previous, events, d, n);
          assert PollsOf(polls, d) + [] == PollsOf(polls, d);
        }
      }
      log := log + events;
      polls := polls + [(device, poll)];
    }

    /** After any run, each neighbor's slice of the event log replays from the state it was first
        seen in to the state the last successful poll of its device reported, and sessions lost and
        recovered balance. */
    lemma LogReplays(device: string, neighbor: string)
      requires Valid()
      ensures var own := PollsOf(polls, device);
        && ((device, neighbor) in previous <==> FirstState(neighbor, own).Some?)
        && ((device, neighbor) in previous ==>
              && PolledState(neighbor, own) == Some(StateOf(previous[(device, neighbor)]))
              && Chain(FirstState(neighbor, own).value, EventsOf(log, device, neighbor),
                       StateOf(previous[(device, neighbor)]))
              && CountKind(EventsOf(log, device, neighbor), SessionDown)
                 - CountKind(EventsOf(log, device, neighbor), SessionRecovered)
                 == Up(FirstState(neighbor, own).value) - Up(StateOf(previous[(device, neighbor)])))
    {
      var own := PollsOf(polls, device);
      assert Lookup(previous, (device, neighbor)) == LifeOf(device, neighbor, own).tracked;
      LogRefinesPolling(device, neighbor, own);
      if (device, neighbor) in previous {
        DownsBalanceRecoveries(FirstState(neighbor, own).value, EventsOf(log, device, neighbor),
                               StateOf(previous[(device, neighbor)]));
      }
    }
  }
}
