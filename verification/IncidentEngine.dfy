/** One physical incident and the diagnostic sessions run against it, over any sequence of calls. */
module IncidentEngine {
  import opened Numbers

  datatype IncidentState = Created | Preparing | Active | Closing | Closed | Broken

  datatype CleanupStatus = NotStarted | Succeeded | Failed

  /** The limits a session runs under; both at least 1. */
  datatype Config = Config(maxToolCalls: nat, maxSeconds: nat)

  /** Strictly fewer calls than allowed, and still in time. */
  predicate Within(limits: Config, calls: nat, elapsed: real) {
    elapsed <= limits.maxSeconds as real && calls < limits.maxToolCalls
  }

  /** What reaches the backend, the evaluator or the owner of the incident, with the answer. An
      evaluation also notes for how many calls, after what time and under which limits, and a refresh for
      how long the lease has to last at least. */
  datatype Effect =
    | Prepare(ok: bool)
    | Refresh(ok: bool, seconds: nat)
    | Query(ok: bool)
    | Evaluate(ok: bool, calls: nat, elapsed: real, limits: Config)
    | Finish(broken: bool, ok: bool)
    | Notify

  predicate IsUse(e: Effect) { e.Refresh? || e.Query? || e.Evaluate? }

  /** At most one preparation, first; uses only of a prepared incident. */
  ghost predicate Work(effects: seq<Effect>) {
    effects != [] ==>
      && effects[0].Prepare?
      && (!effects[0].ok ==> |effects| == 1)
      && forall i :: 1 <= i < |effects| ==> IsUse(effects[i])
  }

  lemma WorkGoesOn(effects: seq<Effect>, more: seq<Effect>)
    requires Work(effects) && effects != [] && effects[0].ok
    requires forall i :: 0 <= i < |more| ==> IsUse(more[i])
    ensures Work(effects + more)
  {
    var all := effects + more;
    forall i | 1 <= i < |all| ensures IsUse(all[i]) {
      if i >= |effects| { assert all[i] == more[i - |effects|]; }
    }
  }

  /** An evaluation is preceded by a refresh of the lease, and does not happen when that fails. */
  ghost function EvaluationEffects(refreshOk: bool, reward: Option<real>, calls: nat, elapsed: real, limits: Config): seq<Effect> {
    [Refresh(refreshOk, 0)] + if refreshOk then [Evaluate(reward.Some?, calls, elapsed, limits)] else []
  }

  /** The lease is refreshed before a query and after it; what fails stops the rest. */
  ghost function QueryEffects(before: bool, ok: bool, after: bool): seq<Effect> {
    [Refresh(before, 0)] + (if !before then [] else [Query(ok)] + if ok then [Refresh(after, 0)] else [])
  }

  /** Every evaluation from effect `i` on was asked for within the limits of its session. */
  ghost predicate EvaluatedWithin(effects: seq<Effect>, i: nat) {
    forall k :: i <= k < |effects| && effects[k].Evaluate? ==>
      Within(effects[k].limits, effects[k].calls, effects[k].elapsed)
  }

  // ---------------------------------------------------------------- an incident as a value

  datatype IncidentView = IncidentView(state: IncidentState, cleanup: CleanupStatus, work: seq<Effect>, ending: seq<Effect>)

  datatype SessionView = SessionView(config: Config, state: SessionState, records: seq<Action>, transitions: seq<Transition>)

  /** The limits asked for, or else the default ones. */
  function Resolved(config: Option<Config>, default: Option<Config>): Option<Config> {
    if config.Some? then config else default
  }

  ghost function NewSession(config: Config): SessionView { SessionView(config, Running, [], []) }

  ghost function Ended(i: IncidentView, hasListener: bool, broken: bool, ok: bool): IncidentView {
    i.(cleanup := if ok then Succeeded else Failed, state := if ok && !broken then Closed else Broken,
       ending := [Finish(broken, ok)] + if hasListener then [Notify] else [])
  }

  ghost function AfterPrepare(i: IncidentView, hasListener: bool, ok: bool, finishOk: bool): IncidentView {
    if i.state != Created then i
    else if ok then i.(state := Active, work := [Effect.Prepare(true)])
    else Ended(i.(work := [Effect.Prepare(false)]), hasListener, true, finishOk)
  }

  ghost function AfterClose(i: IncidentView, hasListener: bool, finishOk: bool): IncidentView {
    if i.cleanup != NotStarted then i else Ended(i, hasListener, false, finishOk)
  }

  /** The lease has to last for the time limit of the session that is opened. */
  ghost function AfterOpen(i: IncidentView, resolved: Option<Config>, refreshOk: bool): IncidentView {
    if i.state != Active || resolved.None? then i
    else i.(work := i.work + [Refresh(refreshOk, resolved.value.maxSeconds)])
  }

  /** Neither over, nor of an incident that is. */
  ghost predicate Usable(i: IncidentView, s: SessionView) { s.state == Running && i.state == Active }

  ghost function Saying(s: SessionView, t: Transition): SessionView {
    s.(transitions := s.transitions + [t], state := if t.Rewarded? then Terminal else s.state)
  }

  ghost function AfterTool(i: IncidentView, s: SessionView, action: Action, elapsed: real, before: bool, ok: bool, after: bool)
    : (IncidentView, SessionView)
  {
    if !Usable(i, s) then (i, s)
    else if !Within(s.config, |s.records|, elapsed) then (i, Saying(s, Rewarded(0.0, LimitExhausted)))
    else
      var answered := Saying(s.(records := s.records + [action]), Answer(!(action.valid && before && ok && after)));
      (if action.valid then i.(work := i.work + QueryEffects(before, ok, after)) else i, answered)
  }

  ghost function AfterSubmission(i: IncidentView, s: SessionView, elapsed: real, refreshOk: bool, reward: Option<real>)
    : (IncidentView, SessionView)
  {
    if !Usable(i, s) then (i, s)
    else if !Within(s.config, |s.records|, elapsed) then (i, Saying(s, Rewarded(0.0, LimitExhausted)))
    else
      (i.(work := i.work + EvaluationEffects(refreshOk, reward, |s.records|, elapsed, s.config)),
       if refreshOk && reward.Some? then Saying(s, Rewarded(reward.value, Submitted)) else s)
  }

  ghost function AfterFailure(i: IncidentView, s: SessionView, reason: Reason): SessionView {
    if Usable(i, s) then Saying(s, Rewarded(0.0, reason)) else s
  }

  ghost function AfterCall(i: IncidentView, ss: seq<SessionView>, hasListener: bool, default: Option<Config>, call: Call)
    : (IncidentView, seq<SessionView>)
  {
    match call
    case PrepareIncident(ok, finishOk) => (AfterPrepare(i, hasListener, ok, finishOk), ss)
    case CloseIncident(finishOk) => (AfterClose(i, hasListener, finishOk), ss)
    case Open(config, refreshOk) =>
      var resolved := Resolved(config, default);
      (AfterOpen(i, resolved, refreshOk),
       if i.state == Active && resolved.Some? && refreshOk then ss + [NewSession(resolved.value)] else ss)
    case _ =>
      if call.session >= |ss| then (i, ss)
      else var r := AfterSessionCall(i, ss[call.session], call); (r.0, ss[call.session := r.1])
  }

  predicate OnSession(call: Call) { call.Tool? || call.SubmitDiagnosis? || call.Fail? }

  ghost function AfterSessionCall(i: IncidentView, s: SessionView, call: Call): (IncidentView, SessionView)
    requires OnSession(call)
  {
    match call
    case Tool(_, action, elapsed, before, ok, after) => AfterTool(i, s, action, elapsed, before, ok, after)
    case SubmitDiagnosis(_, elapsed, refreshOk, reward) => AfterSubmission(i, s, elapsed, refreshOk, reward)
    case Fail(_, reason) => (i, AfterFailure(i, s, reason))
  }

  ghost function AfterCalls(i: IncidentView, ss: seq<SessionView>, hasListener: bool, default: Option<Config>, calls: seq<Call>)
    : (IncidentView, seq<SessionView>)
  {
    if calls == [] then (i, ss)
    else
      var before := AfterCalls(i, ss, hasListener, default, calls[..|calls| - 1]);
      AfterCall(before.0, before.1, hasListener, default, calls[|calls| - 1])
  }

  /** These limits were asked for when some session was opened. */
  ghost predicate AskedFor(limits: Config, default: Option<Config>, calls: seq<Call>) {
    exists k :: 0 <= k < |calls| && calls[k].Open? && Resolved(calls[k].config, default) == Some(limits)
  }

  lemma AskedForLater(limits: Config, default: Option<Config>, calls: seq<Call>)
    requires calls != [] && AskedFor(limits, default, calls[..|calls| - 1])
    ensures AskedFor(limits, default, calls)
  {
    var k :| 0 <= k < |calls| - 1 && calls[k].Open? && Resolved(calls[k].config, default) == Some(limits);
  }

  ghost predicate SessionsAskedFor(ss: seq<SessionView>, default: Option<Config>, calls: seq<Call>) {
    forall k :: 0 <= k < |ss| ==> AskedFor(ss[k].config, default, calls)
  }

  ghost predicate EvaluationsAskedFor(work: seq<Effect>, default: Option<Config>, calls: seq<Call>) {
    forall k :: 0 <= k < |work| && work[k].Evaluate? ==>
      AskedFor(work[k].limits, default, calls) && Within(work[k].limits, work[k].calls, work[k].elapsed)
  }

  /** Over any calls from the start, every session has limits that were asked for when one was opened,
      and every evaluation was made within such limits. */
  lemma {:induction false} LimitsAsAskedFor(i: IncidentView, hasListener: bool, default: Option<Config>, calls: seq<Call>)
    requires i.work == []
    ensures SessionsAskedFor(AfterCalls(i, [], hasListener, default, calls).1, default, calls)
    ensures EvaluationsAskedFor(AfterCalls(i, [], hasListener, default, calls).0.work, default, calls)
  {
    hide AfterCall;
    hide SessionsAskedFor;
    hide EvaluationsAskedFor;
    if calls == [] {
      NothingAskedFor(default);
    } else {
      var front := calls[..|calls| - 1];
      LimitsAsAskedFor(i, hasListener, default, front);
      var (before, ss) := AfterCalls(i, [], hasListener, default, front);
      StillAskedFor(before.work, ss, default, calls);
      OneCallAskedFor(before, ss, hasListener, default, calls);
    }
  }

  lemma NothingAskedFor(default: Option<Config>)
    ensures SessionsAskedFor([], default, []) && EvaluationsAskedFor([], default, [])
  {
  }

  lemma StillAskedFor(work: seq<Effect>, ss: seq<SessionView>, default: Option<Config>, calls: seq<Call>)
    requires calls != []
    requires SessionsAskedFor(ss, default, calls[..|calls| - 1]) && EvaluationsAskedFor(work, default, calls[..|calls| - 1])
    ensures SessionsAskedFor(ss, default, calls) && EvaluationsAskedFor(work, default, calls)
  {
    forall limits | AskedFor(limits, default, calls[..|calls| - 1]) ensures AskedFor(limits, default, calls) {
      AskedForLater(limits, default, calls);
    }
    hide AskedFor;
  }

  lemma OneCallAskedFor(i: IncidentView, ss: seq<SessionView>, hasListener: bool, default: Option<Config>, calls: seq<Call>)
    requires calls != [] && SessionsAskedFor(ss, default, calls) && EvaluationsAskedFor(i.work, default, calls)
    ensures var r := AfterCall(i, ss, hasListener, default, calls[|calls| - 1]);
      SessionsAskedFor(r.1, default, calls) && EvaluationsAskedFor(r.0.work, default, calls)
  {
    var call := calls[|calls| - 1];
    hide SessionsAskedFor;
    hide EvaluationsAskedFor;
    match call
    case PrepareIncident(_, _) => PrepareAskedFor(i.work, default, calls);
    case CloseIncident(_) =>
    case Open(config, refreshOk) => OpenAskedFor(i, ss, default, calls, refreshOk);
    case _ => if call.session < |ss| { SessionCallAskedFor(i, ss, default, calls, call); }
  }

  lemma PrepareAskedFor(work: seq<Effect>, default: Option<Config>, calls: seq<Call>)
    ensures forall ok :: EvaluationsAskedFor([Effect.Prepare(ok)], default, calls)
  {
  }

  lemma OpenAskedFor(i: IncidentView, ss: seq<SessionView>, default: Option<Config>, calls: seq<Call>, refreshOk: bool)
    requires calls != [] && calls[|calls| - 1].Open? && calls[|calls| - 1].refreshOk == refreshOk
    requires SessionsAskedFor(ss, default, calls) && EvaluationsAskedFor(i.work, default, calls)
    ensures var resolved := Resolved(calls[|calls| - 1].config, default);
      && EvaluationsAskedFor(AfterOpen(i, resolved, refreshOk).work, default, calls)
      && (resolved.Some? ==> SessionsAskedFor(ss + [NewSession(resolved.value)], default, calls))
  {
    var resolved := Resolved(calls[|calls| - 1].config, default);
    assert resolved.Some? ==> AskedFor(resolved.value, default, calls);
    hide AskedFor;
  }

  lemma SessionCallAskedFor(i: IncidentView, ss: seq<SessionView>, default: Option<Config>, calls: seq<Call>, call: Call)
    requires OnSession(call) && call.session < |ss|
    requires SessionsAskedFor(ss, default, calls) && EvaluationsAskedFor(i.work, default, calls)
    ensures var r := AfterSessionCall(i, ss[call.session], call);
      && SessionsAskedFor(ss[call.session := r.1], default, calls)
      && EvaluationsAskedFor(r.0.work, default, calls)
  {
    hide AskedFor;
    var s := ss[call.session];
    assert AskedFor(s.config, default, calls);
    assert AfterSessionCall(i, s, call).1.config == s.config;
    match call
    case Tool(_, action, elapsed, before, ok, after) => QueriesOnly(before, ok, after);
    case SubmitDiagnosis(_, elapsed, refreshOk, reward) =>
    case Fail(_, reason) =>
  }

  lemma QueriesOnly(before: bool, ok: bool, after: bool)
    ensures forall k :: 0 <= k < |QueryEffects(before, ok, after)| ==> !QueryEffects(before, ok, after)[k].Evaluate?
  {
  }

  class PreparedIncident {
    /** Whether somebody wants to hear about the end of the incident. */
    const hasListener: bool
    const defaultConfig: Option<Config>

    var state: IncidentState
    var cleanup: CleanupStatus
    var notified: bool

    /** Everything that happened up to the cleanup, and the cleanup. */
    ghost var work: seq<Effect>
    ghost var ending: seq<Effect>

    ghost predicate Valid()
      reads this
    {
      && Work(work)
      && (state == Created <==> work == [] && cleanup == NotStarted)
      && (state == Active <==> work != [] && work[0].ok && cleanup == NotStarted)
      && state != Preparing && state != Closing && (PrepareFailed() ==> cleanup != NotStarted)
      && EndingIs(cleanup)
      && (state == Closed <==> cleanup == Succeeded && !PrepareFailed())
      && notified == (hasListener && cleanup != NotStarted)
    }

    ghost function View(): IncidentView
      reads this
    {
      IncidentView(state, cleanup, work, ending)
    }

    ghost predicate PrepareFailed()
      reads this
      requires Work(work)
    {
      work != [] && !work[0].ok
    }

    /** The backend is released exactly once, as soon as the cleanup status is decided, as broken
        exactly when the preparation failed; the listener hears of it right after. */
    ghost predicate EndingIs(status: CleanupStatus)
      reads this
      requires Work(work)
    {
      ending ==
        if status == NotStarted then []
        else [Finish(PrepareFailed(), status == Succeeded)] + if hasListener then [Notify] else []
    }

    constructor (hasListener: bool, defaultConfig: Option<Config>)
      ensures Valid() && state == Created && work == [] && ending == []
      ensures this.hasListener == hasListener && this.defaultConfig == defaultConfig
    {
      this.hasListener, this.defaultConfig := hasListener, defaultConfig;
      state, cleanup, notified, work, ending := Created, NotStarted, false, [], [];
    }

    /** Raises unless the incident is new. `ok` and `finishOk` say how the backend answers. */
    method Prepare(ok: bool, finishOk: bool) returns (raised: bool)
      requires Valid()
      modifies this
      ensures Valid() && raised == (old(state) != Created)
      ensures raised ==> Same(old(state), old(cleanup), old(work), old(ending))
      ensures !raised ==> old(work) == [] && work == [Effect.Prepare(ok)] && state == if ok then Active else Broken
      ensures old(cleanup) != NotStarted ==> raised
      ensures !raised && !ok ==> cleanup == if finishOk then Succeeded else Failed
      ensures View() == AfterPrepare(old(View()), hasListener, ok, finishOk)
    {
      if state != Created { return true; }
      raised := false;
      state := Preparing;
      work := [Effect.Prepare(ok)];
      if ok {
        state := Active;
      } else {
        state := Broken;
        FinishBackend(true, finishOk);
      }
    }

    ghost predicate Same(state: IncidentState, cleanup: CleanupStatus, work: seq<Effect>, ending: seq<Effect>)
      reads this
    {
      this.state == state && this.cleanup == cleanup && this.work == work && this.ending == ending
    }

    method FinishBackend(broken: bool, ok: bool)
      requires Work(work) && EndingIs(NotStarted) && cleanup == NotStarted && !notified
      requires state == (if broken then Broken else Closing) && broken == PrepareFailed()
      modifies this
      ensures Valid() && work == old(work)
      ensures cleanup == if ok then Succeeded else Failed
      ensures state == if ok && !broken then Closed else Broken
    {
      ending := ending + [Finish(broken, ok)];
      if !ok {
        cleanup := Failed;
        state := Broken;
      } else {
        cleanup := Succeeded;
        state := if broken then Broken else Closed;
      }
      if !notified && hasListener {
        notified := true;
        ending := ending + [Notify];
      }
    }

    /** Ends the incident, once; later calls only report how it ended. */
    method Close(finishOk: bool) returns (status: CleanupStatus)
      requires Valid()
      modifies this
      ensures Valid() && status == cleanup && cleanup != NotStarted && work == old(work)
      ensures old(cleanup) != NotStarted ==> Same(old(state), old(cleanup), old(work), old(ending))
      ensures old(cleanup) == NotStarted ==>
        cleanup == (if finishOk then Succeeded else Failed) && state == if finishOk then Closed else Broken
      ensures View() == AfterClose(old(View()), hasListener, finishOk)
    {
      if state == Closed { return cleanup; }
      if cleanup != NotStarted { return cleanup; }
      var broken := state == Broken;
      if !broken { state := Closing; }
      FinishBackend(broken, finishOk);
      return cleanup;
    }

    /** The lease is refreshed before and after a query; the first failure stops the rest. */
    method CallTool(valid: bool, before: bool, ok: bool, after: bool) returns (raised: bool)
      requires Valid()
      modifies this`work
      ensures Valid() && ending == old(ending)
      ensures raised == !(old(state) == Active && valid && before && ok && after)
      ensures old(state) != Active || !valid ==> work == old(work)
      ensures old(state) == Active && valid ==> work == old(work) + QueryEffects(before, ok, after)
    {
      if state != Active { return true; }
      if !valid { return true; }
      WorkGoesOn(work, QueryEffects(before, ok, after));
      work := work + QueryEffects(before, ok, after);
      return !(before && ok && after);
    }

    /** `reward` is what the evaluator answers, if it answers. */
    method EvaluateDiagnosis(refreshOk: bool, reward: Option<real>, ghost calls: nat, ghost elapsed: real, ghost limits: Config)
      returns (answer: Option<real>)
      requires Valid()
      modifies this`work
      ensures Valid() && ending == old(ending)
      ensures answer == if old(state) == Active && refreshOk then reward else None
      ensures work == old(work) + if old(state) == Active then EvaluationEffects(refreshOk, reward, calls, elapsed, limits) else []
    {
      if state != Active {
        assert work + [] == work;
        return None;
      }
      WorkGoesOn(work, EvaluationEffects(refreshOk, reward, calls, elapsed, limits));
      work := work + EvaluationEffects(refreshOk, reward, calls, elapsed, limits);
      return if refreshOk then reward else None;
    }

    method OpenSession(config: Option<Config>, refreshOk: bool) returns (session: Option<DiagnosticSession>)
      requires Valid()
      modifies this`work
      ensures Valid() && ending == old(ending)
      ensures session.Some? <==> old(state) == Active && (config.Some? || defaultConfig.Some?) && refreshOk
      ensures session.Some? ==> fresh(session.value) && session.value.Valid() && session.value.incident == this
      ensures session.Some? ==> session.value.transitions == []
      ensures session.Some? ==> session.value.View() == NewSession(Resolved(config, defaultConfig).value)
      ensures cleanup != NotStarted ==> session.None? && work == old(work)
      ensures View() == AfterOpen(old(View()), Resolved(config, defaultConfig), refreshOk)
    {
      if state != Active { return None; }
      var resolved := if config.Some? then config else defaultConfig;
      if resolved.None? { return None; }
      WorkGoesOn(work, [Refresh(refreshOk, resolved.value.maxSeconds)]);
      work := work + [Refresh(refreshOk, resolved.value.maxSeconds)];
      if !refreshOk { return None; }
      var created := new DiagnosticSession(this, resolved.value);
      return Some(created);
    }

    /** Over the whole life of an incident: it is prepared at most once, and first; only a prepared
        incident is used; the backend is released at most once, and nothing but one notification
        follows; nobody is notified otherwise. */
    lemma WholeLife()
      requires Valid()
      ensures var life := work + ending;
        && (forall i :: 0 <= i < |life| && life[i].Prepare? ==> i == 0)
        && (forall i :: 0 <= i < |life| && IsUse(life[i]) ==> life[0] == Effect.Prepare(true))
        && (forall i, j :: 0 <= i < j < |life| && life[i].Finish? ==> life[j] == Notify && j == i + 1)
        && (forall j :: 0 <= j < |life| && life[j].Notify? ==> j > 0 && life[j - 1].Finish? && j == |life| - 1)
    {
      var life := work + ending;
      forall j | 0 <= j < |life|
        ensures j < |work| ==> life[j] == work[j] && (j == 0 || IsUse(life[j])) && (j == 0 ==> life[j].Prepare?)
        ensures j >= |work| ==> life[j] == ending[j - |work|] && (life[j].Finish? || life[j].Notify?)
      {
      }
    }
  }

  // ---------------------------------------------------------------- sessions

  datatype SessionState = Running | Terminal

  /** `valid` is whether the tool registry accepts the call. */
  datatype Action = Action(name: string, valid: bool)

  datatype Reason = Submitted | AgentError | ProtocolError | LimitExhausted

  datatype Transition =
    | Answer(failed: bool)
    | Rewarded(reward: real, reason: Reason)

  class DiagnosticSession {
    const incident: PreparedIncident
    const config: Config

    var state: SessionState
    var toolCalls: nat
    var records: seq<Action>

    /** Everything returned to the agent, and how many calls had been made, after what time, whenever
        a diagnosis was put to the evaluator. */
    ghost var transitions: seq<Transition>
    ghost var evaluations: seq<(nat, real)>

    ghost function View(): SessionView
      reads this
    {
      SessionView(config, state, records, transitions)
    }

    /** Each recorded call got one unrewarded answer; the reward, if any, came last and ended the
        session, and is zero unless a diagnosis was evaluated; nothing was evaluated at or beyond a
        limit. */
    ghost predicate Valid()
      reads this
    {
      && toolCalls == |records| <= config.maxToolCalls
      && |transitions| == |records| + (if state == Terminal then 1 else 0)
      && (forall i :: 0 <= i < |records| ==> transitions[i].Answer? && (!records[i].valid ==> transitions[i].failed))
      && (state == Terminal ==> transitions[|records|].Rewarded?)
      && (state == Terminal && transitions[|records|].reward != 0.0 ==>
            && transitions[|records|].reason == Submitted
            && evaluations != [] && evaluations[|evaluations| - 1].0 == |records|)
      && (forall i :: 0 <= i < |evaluations| ==> WithinLimits(evaluations[i].0, evaluations[i].1))
    }

    predicate WithinLimits(calls: nat, elapsed: real) {
      Within(config, calls, elapsed)
    }

    constructor (incident: PreparedIncident, config: Config)
      ensures Valid() && this.incident == incident && this.config == config
      ensures state == Running && records == [] && transitions == [] && evaluations == []
    {
      this.incident, this.config := incident, config;
      state, toolCalls, records, transitions, evaluations := Running, 0, [], [], [];
    }

    /** Ends a session whose time or calls are used up. */
    method LimitTransition(elapsed: real) returns (limit: Option<Transition>)
      requires Valid() && state == Running
      modifies this
      ensures Valid() && records == old(records) && evaluations == old(evaluations)
      ensures limit.None? <==> WithinLimits(|records|, elapsed)
      ensures limit.None? ==> state == Running && transitions == old(transitions)
      ensures limit.Some? ==> limit.value == Rewarded(0.0, LimitExhausted) && state == Terminal
      ensures limit.Some? ==> transitions == old(transitions) + [limit.value]
    {
      if elapsed > config.maxSeconds as real || toolCalls >= config.maxToolCalls {
        state := Terminal;
        limit := Some(Rewarded(0.0, LimitExhausted));
        transitions := transitions + [limit.value];
      } else {
        limit := None;
      }
    }

    /** None stands for a raised error: the session or the incident is not active. */
    method CallTool(action: Action, elapsed: real, before: bool, ok: bool, after: bool)
      returns (result: Option<Transition>)
      requires Valid() && incident.Valid()
      modifies this, incident`work
      ensures Valid() && incident.Valid() && evaluations == old(evaluations)
      ensures result.None? <==> old(state) == Terminal || incident.state != Active
      ensures result.None? ==> state == old(state) && records == old(records) && transitions == old(transitions)
      ensures incident.cleanup != NotStarted ==> result.None? && incident.work == old(incident.work)
      ensures result.Some? ==> transitions == old(transitions) + [result.value]
      ensures result.Some? && !WithinLimits(|old(records)|, elapsed) ==>
        result.value == Rewarded(0.0, LimitExhausted) && records == old(records) && incident.work == old(incident.work)
      ensures result.Some? && WithinLimits(|old(records)|, elapsed) ==>
        && result.value == Answer(!(action.valid && before && ok && after))
        && records == old(records) + [action] && state == Running
        && (!action.valid ==> incident.work == old(incident.work))
      ensures old(incident.work) <= incident.work && EvaluatedWithin(incident.work, |old(incident.work)|)
      ensures (incident.View(), View()) == AfterTool(old(incident.View()), old(View()), action, elapsed, before, ok, after)
    {
      if state != Running || incident.state != Active { return None; }
      var limit := LimitTransition(elapsed);
      if limit.Some? { return limit; }
      toolCalls := toolCalls + 1;
      records := records + [action];
      if !action.valid {
        result := Some(Answer(true));
      } else {
        var raised := incident.CallTool(action.valid, before, ok, after);
        result := Some(Answer(raised));
      }
      transitions := transitions + [result.value];
    }

    /** An evaluation that raises leaves the session open and pays no reward. The evaluator is reached
        only by a running session of an active incident within its limits, once. */
    method Submit(elapsed: real, refreshOk: bool, reward: Option<real>) returns (result: Option<Transition>)
      requires Valid() && incident.Valid()
      modifies this, incident`work
      ensures Valid() && incident.Valid() && records == old(records)
      ensures result.Some? <==> old(state) == Running && incident.state == Active
                                && (WithinLimits(|records|, elapsed) ==> refreshOk && reward.Some?)
      ensures result.None? ==> state == old(state) && transitions == old(transitions)
      ensures incident.cleanup != NotStarted ==> result.None?
      ensures result.Some? ==> state == Terminal && transitions == old(transitions) + [result.value]
      ensures result.Some? ==>
        result.value == if WithinLimits(|records|, elapsed) then Rewarded(reward.value, Submitted) else Rewarded(0.0, LimitExhausted)
      ensures !(old(state) == Running && incident.state == Active && WithinLimits(|records|, elapsed)) ==>
        evaluations == old(evaluations) && incident.work == old(incident.work)
      ensures old(state) == Running && incident.state == Active && WithinLimits(|records|, elapsed) ==>
        && evaluations == old(evaluations) + [(|records|, elapsed)]
        && incident.work == old(incident.work) + EvaluationEffects(refreshOk, reward, |records|, elapsed, config)
      ensures (incident.View(), View()) == AfterSubmission(old(incident.View()), old(View()), elapsed, refreshOk, reward)
    {
      if state != Running || incident.state != Active { return None; }
      var limit := LimitTransition(elapsed);
      if limit.Some? { return limit; }
      evaluations := evaluations + [(toolCalls, elapsed)];
      var answer := incident.EvaluateDiagnosis(refreshOk, reward, toolCalls, elapsed, config);
      if answer.None? { return None; }
      state := Terminal;
      result := Some(Rewarded(answer.value, Submitted));
      transitions := transitions + [result.value];
    }

    method TerminateFailure(reason: Reason) returns (result: Option<Transition>)
      requires Valid() && incident.Valid()
      modifies this
      ensures incident.cleanup != NotStarted ==> result.None?
      ensures Valid() && records == old(records) && evaluations == old(evaluations)
      ensures result.Some? <==> old(state) == Running && incident.state == Active
      ensures result.None? ==> state == old(state) && transitions == old(transitions)
      ensures result.Some? ==> state == Terminal && result.value == Rewarded(0.0, reason)
      ensures View() == AfterFailure(incident.View(), old(View()), reason)
      ensures result.Some? ==> transitions == old(transitions) + [result.value]
    {
      if state != Running || incident.state != Active { return None; }
      state := Terminal;
      result := Some(Rewarded(0.0, reason));
      transitions := transitions + [result.value];
    }

    /** At most one transition carries a reward, and nothing follows it. */
    lemma OneReward(i: nat)
      requires Valid() && i < |transitions| && transitions[i].Rewarded?
      ensures i == |transitions| - 1 && state == Terminal && i == toolCalls
      ensures forall j :: 0 <= j < i ==> transitions[j].Answer?
    {
    }
  }

  // ---------------------------------------------------------------- any sequence of calls

  datatype Call =
    | PrepareIncident(ok: bool, finishOk: bool)
    | CloseIncident(finishOk: bool)
    | Open(config: Option<Config>, refreshOk: bool)
    | Tool(session: nat, action: Action, elapsed: real, before: bool, ok: bool, after: bool)
    | SubmitDiagnosis(session: nat, elapsed: real, refreshOk: bool, reward: Option<real>)
    | Fail(session: nat, reason: Reason)

  ghost function Views(sessions: seq<DiagnosticSession>): (views: seq<SessionView>)
    reads sessions
    ensures |views| == |sessions| && forall k :: 0 <= k < |sessions| ==> views[k] == sessions[k].View()
  {
    seq(|sessions|, k requires 0 <= k < |sessions| reads sessions => sessions[k].View())
  }

  ghost predicate AllOf(sessions: seq<DiagnosticSession>, incident: PreparedIncident)
    reads sessions
  {
    forall s :: s in sessions ==> s.Valid() && s.incident == incident
  }

  /** What a session said before stays said; a session that has ended says no more. */
  twostate predicate OnlyGrows(s: DiagnosticSession)
    reads s
  {
    && old(s.transitions) <= s.transitions
    && (old(s.state) == Terminal ==> s.state == Terminal && s.transitions == old(s.transitions))
  }

  twostate predicate Quiet(s: DiagnosticSession)
    reads s
  {
    s.transitions == old(s.transitions) && s.records == old(s.records) && s.state == old(s.state)
  }

  method DriveOne(incident: PreparedIncident, sessions: seq<DiagnosticSession>, call: Call)
    returns (created: Option<DiagnosticSession>)
    requires incident.Valid() && AllOf(sessions, incident)
    modifies incident, sessions
    ensures incident.Valid() && AllOf(sessions, incident)
    ensures created.Some? ==> fresh(created.value) && created.value.Valid() && created.value.incident == incident
    ensures forall s :: s in sessions ==> OnlyGrows(s)
    ensures old(incident.work) <= incident.work && EvaluatedWithin(incident.work, |old(incident.work)|)
    ensures NoDuplicates(sessions) ==>
      (incident.View(), Views(if created.Some? then sessions + [created.value] else sessions))
        == AfterCall(old(incident.View()), old(Views(sessions)), incident.hasListener, incident.defaultConfig, call)
    ensures old(incident.cleanup) != NotStarted ==>
      && created.None? && (forall s :: s in sessions ==> Quiet(s))
      && incident.Same(old(incident.state), old(incident.cleanup), old(incident.work), old(incident.ending))
  {
    hide PreparedIncident.Valid;
    hide DiagnosticSession.Valid;
    hide PreparedIncident.View;
    hide DiagnosticSession.View;
    hide AfterSessionCall;
    hide EvaluatedWithin;
    created := None;
    ghost var views := Views(sessions);
    if OnSession(call) {
      NothingEvaluated(incident.work);
      if call.session < |sessions| { DriveSession(incident, sessions, call); }
    } else {
      IncidentCall(incident.View(), views, incident.hasListener, incident.defaultConfig, call);
      created := CallIncident(incident, call);
      assert views + [] == views;
      assert Views(sessions) == views;
      if created.Some? { assert Views(sessions + [created.value]) == Views(sessions) + [created.value.View()]; }
    }
  }

  /** A call on the incident itself leaves the sessions alone. */
  method CallIncident(incident: PreparedIncident, call: Call) returns (created: Option<DiagnosticSession>)
    requires incident.Valid() && !OnSession(call)
    modifies incident
    ensures incident.Valid()
    ensures created.Some? ==> fresh(created.value) && created.value.Valid() && created.value.incident == incident
    ensures old(incident.work) <= incident.work && EvaluatedWithin(incident.work, |old(incident.work)|)
    ensures (incident.View(), if created.Some? then [created.value.View()] else [])
      == AfterCall(old(incident.View()), [], incident.hasListener, incident.defaultConfig, call)
    ensures old(incident.cleanup) != NotStarted ==>
      && created.None?
      && incident.Same(old(incident.state), old(incident.cleanup), old(incident.work), old(incident.ending))
  {
    hide PreparedIncident.Valid;
    hide DiagnosticSession.Valid;
    hide DiagnosticSession.View;
    hide AfterPrepare;
    hide AfterClose;
    hide EvaluatedWithin;
    created := None;
    NothingEvaluated(incident.work);
    match call
    case PrepareIncident(ok, finishOk) => var _ := incident.Prepare(ok, finishOk);
    case CloseIncident(finishOk) => var _ := incident.Close(finishOk);
    case Open(config, refreshOk) =>
      created := incident.OpenSession(config, refreshOk);
      if created.Some? { assert [] + [created.value.View()] == [created.value.View()]; }
  }

  lemma IncidentCall(i: IncidentView, ss: seq<SessionView>, hasListener: bool, default: Option<Config>, call: Call)
    requires !OnSession(call)
    ensures var r := AfterCall(i, [], hasListener, default, call);
      AfterCall(i, ss, hasListener, default, call) == (r.0, ss + r.1)
  {
    hide AfterPrepare;
    hide AfterClose;
    hide AfterOpen;
    assert ss + [] == ss;
    if call.Open? && Resolved(call.config, default).Some? {
      var session := NewSession(Resolved(call.config, default).value);
      assert [] + [session] == [session];
    }
  }

  lemma NothingEvaluated(work: seq<Effect>)
    ensures EvaluatedWithin(work, |work|)
    ensures forall e: Effect :: !e.Evaluate? ==> EvaluatedWithin(work + [e], |work|)
    ensures work == [] ==> forall e: Effect :: !e.Evaluate? ==> EvaluatedWithin([e], |work|)
  {
  }

  /** A call on one session leaves the others alone. */
  method DriveSession(incident: PreparedIncident, sessions: seq<DiagnosticSession>, call: Call)
    requires incident.Valid() && AllOf(sessions, incident) && OnSession(call) && call.session < |sessions|
    modifies incident`work, sessions[call.session]
    ensures incident.Valid() && AllOf(sessions, incident)
    ensures forall s :: s in sessions ==> OnlyGrows(s)
    ensures old(incident.work) <= incident.work && EvaluatedWithin(incident.work, |old(incident.work)|)
    ensures NoDuplicates(sessions) ==>
      var (i, s) := AfterSessionCall(old(incident.View()), old(sessions[call.session].View()), call);
      incident.View() == i && Views(sessions) == old(Views(sessions))[call.session := s]
    ensures old(incident.cleanup) != NotStarted ==>
      (forall s :: s in sessions ==> Quiet(s)) && incident.work == old(incident.work)
  {
    hide PreparedIncident.Valid;
    hide DiagnosticSession.Valid;
    hide PreparedIncident.View;
    hide DiagnosticSession.View;
    hide AfterSessionCall;
    hide EvaluatedWithin;
    var k := call.session;
    ghost var views := Views(sessions);
    CallOn(incident, sessions[k], call);
    if NoDuplicates(sessions) {
      forall i | 0 <= i < |sessions| && i != k ensures Views(sessions)[i] == views[i] {
        assert sessions[i] != sessions[k];
      }
      assert Views(sessions) == views[k := sessions[k].View()];
    }
  }

  method CallOn(incident: PreparedIncident, session: DiagnosticSession, call: Call)
    requires incident.Valid() && session.Valid() && session.incident == incident && OnSession(call)
    modifies incident`work, session
    ensures incident.Valid() && session.Valid() && OnlyGrows(session)
    ensures old(incident.work) <= incident.work && EvaluatedWithin(incident.work, |old(incident.work)|)
    ensures (incident.View(), session.View()) == AfterSessionCall(old(incident.View()), old(session.View()), call)
    ensures old(incident.cleanup) != NotStarted ==> Quiet(session) && incident.work == old(incident.work)
  {
    hide PreparedIncident.Valid;
    hide AfterTool;
    hide AfterSubmission;
    hide AfterFailure;
    match call
    case Tool(_, action, elapsed, before, ok, after) => var _ := session.CallTool(action, elapsed, before, ok, after);
    case SubmitDiagnosis(_, elapsed, refreshOk, reward) => var _ := session.Submit(elapsed, refreshOk, reward);
    case Fail(_, reason) => var _ := session.TerminateFailure(reason);
  }

  /** Any calls in any order, on one incident and all its sessions: every invariant above is kept, and
      from the moment the cleanup status is decided nothing changes any more. */
  method Drive(incident: PreparedIncident, initial: seq<DiagnosticSession>, calls: seq<Call>)
    returns (sessions: seq<DiagnosticSession>)
    requires incident.Valid() && AllOf(initial, incident)
    modifies incident, initial
    ensures incident.Valid() && AllOf(sessions, incident)
    ensures initial <= sessions && fresh(set s | s in sessions && s !in initial)
    ensures forall s :: s in initial ==> OnlyGrows(s)
    ensures old(incident.work) <= incident.work && EvaluatedWithin(incident.work, |old(incident.work)|)
    ensures NoDuplicates(initial) ==>
      (incident.View(), Views(sessions))
        == AfterCalls(old(incident.View()), old(Views(initial)), incident.hasListener, incident.defaultConfig, calls)
    ensures old(incident.cleanup) != NotStarted ==>
      && sessions == initial && (forall s :: s in sessions ==> Quiet(s))
      && incident.Same(old(incident.state), old(incident.cleanup), old(incident.work), old(incident.ending))
  {
    hide PreparedIncident.Valid;
    hide DiagnosticSession.Valid;
    hide PreparedIncident.View;
    hide DiagnosticSession.View;
    hide AfterCall;
    sessions := initial;
    for i := 0 to |calls|
      invariant incident.Valid() && AllOf(sessions, incident)
      invariant initial <= sessions && fresh(set s | s in sessions && s !in initial)
      invariant forall s :: s in initial ==> OnlyGrows(s)
      invariant old(incident.work) <= incident.work && EvaluatedWithin(incident.work, |old(incident.work)|)
      invariant NoDuplicates(initial) ==> NoDuplicates(sessions)
      invariant NoDuplicates(initial) ==>
        (incident.View(), Views(sessions))
          == AfterCalls(old(incident.View()), old(Views(initial)), incident.hasListener, incident.defaultConfig, calls[..i])
      invariant old(incident.cleanup) != NotStarted ==>
        && sessions == initial && (forall s :: s in sessions ==> Quiet(s))
        && incident.Same(old(incident.state), old(incident.cleanup), old(incident.work), old(incident.ending))
    {
      assert calls[..i + 1][..i] == calls[..i];
      label L:
      var created := DriveOne(incident, sessions, calls[i]);
      forall s | s in initial ensures OnlyGrows(s) {
        assert s in sessions && OnlyGrows@L(s);
      }
      if created.Some? { sessions := sessions + [created.value]; }
    }
    assert calls[..|calls|] == calls;
  }
}
