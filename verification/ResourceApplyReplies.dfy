/** What the apply handler sends and what it answers, read off the provider calls it made. */
module ResourceApplyReplies {
  import opened Common
  import opened ResourceApply
  import opened ResourceApplyLaws

  // ---------------------------------------------------------------- reading a trace

  predicate Failed(call: Call) {
    match call
    case ReadCall(_, _, read) => read.CallFailed?
    case PlanCall(_, _, _, _, plan) => plan.CallFailed?
    case ApplyCall(_, _, _, _, applied) => applied.CallFailed?
  }

  predicate LastFailed(trace: Trace) {
    trace != [] && Failed(trace[|trace| - 1])
  }

  /** The diagnostics of all answered applies, in order. */
  function ApplyDiagnostics(trace: Trace): seq<Diagnostic> {
    if trace == [] then []
    else
      var last := trace[|trace| - 1];
      ApplyDiagnostics(trace[..|trace| - 1])
      + (if last.ApplyCall? && last.applied.Answered? then last.applied.value.diagnostics else [])
  }

  /** A destroy or create that was planned, or a destroy that was applied, only to bring back a fatal
      diagnostic; the plan a stored plan is compared with is not one of them. */
  predicate StoppedByDiagnostics(trace: Trace) {
    && Replaces(trace)
    && var last := trace[|trace| - 1];
       if last.PlanCall? then last.plan.Answered? && HasFatal(last.plan.value.diagnostics)
       else |trace| == 4 && last.ApplyCall? && last.applied.Answered? && HasFatal(last.applied.value.diagnostics)
  }

  /** The run ended with an answered apply that is not the destroy of a replacement. */
  predicate EndsApplied(trace: Trace) {
    && trace != [] && trace[|trace| - 1].ApplyCall? && trace[|trace| - 1].applied.Answered?
    && !(Replaces(trace) && |trace| == 4)
  }

  function LastApplied(trace: Trace): ApplyResponse
    requires EndsApplied(trace)
  {
    trace[|trace| - 1].applied.value
  }

  /** The reply says what the provider's last answers were. */
  ghost predicate Says(world: World, reply: Reply, trace: Trace) {
    && (reply.BadRequest? ==> trace == [])
    && (reply.ProviderFailed? <==> LastFailed(trace))
    && (reply.Diagnosed? <==> StoppedByDiagnostics(trace))
    && (reply.Diagnosed? ==>
          var last := trace[|trace| - 1];
          reply.diagnostics == ApplyDiagnostics(trace) + if last.PlanCall? then last.plan.value.diagnostics else [])
    && (reply.Applied? <==> EndsApplied(trace) && world.decode(LastApplied(trace).newState).Some?)
    && (reply.Applied? ==>
          && world.decode(LastApplied(trace).newState) == Some(reply.newState)
          && reply.private == LastApplied(trace).private
          && reply.diagnostics == ApplyDiagnostics(trace))
    && (reply.Undecodable? ==>
          || (EndsApplied(trace) && world.decode(LastApplied(trace).newState).None?)
          || (AsksToReplace(trace) && world.encode("null").None?))
  }

  /** The run ended with a re-plan that asks for replacement. */
  predicate AsksToReplace(trace: Trace) {
    |trace| == 2 && Refreshed(trace) && RePlan(trace).requiresReplace != []
  }

  lemma DiagnosticsPush(trace: Trace, call: Call)
    ensures ApplyDiagnostics(trace + [call]) == ApplyDiagnostics(trace)
      + (if call.ApplyCall? && call.applied.Answered? then call.applied.value.diagnostics else [])
  {
    assert (trace + [call])[..|trace|] == trace;
  }

  // ---------------------------------------------------------------- what is sent

  /** Each answer in the trace is what the provider gave when called with those arguments, having seen
      the calls before. */
  ghost predicate IsAnswered(world: World, trace: Trace) {
    forall i :: 0 <= i < |trace| ==> AnsweredAt(world, trace, i)
  }

  predicate AnsweredAt(world: World, trace: Trace, i: nat)
    requires i < |trace|
  {
    match trace[i]
    case ReadCall(current, private, read) => read == world.read(trace[..i], current, private)
    case PlanCall(prior, proposed, config, private, plan) =>
      plan == world.plan(trace[..i], prior, proposed, config, private)
    case ApplyCall(prior, planned, config, private, applied) =>
      applied == world.apply(trace[..i], prior, planned, config, private)
  }

  /** What a call is made with; the answer is another matter. */
  predicate Reads(call: Call, current: State, private: Private) {
    call.ReadCall? && call.current == current && call.private == private
  }

  predicate Plans(call: Call, prior: State, proposed: State, config: State, private: Private) {
    && call.PlanCall?
    && call.prior == prior && call.proposed == proposed && call.config == config && call.private == private
  }

  predicate DoesApply(call: Call, prior: State, planned: State, config: State, private: Private) {
    && call.ApplyCall?
    && call.prior == prior && call.planned == planned && call.config == config && call.private == private
  }

  /** From n on: destroy, then create, each applied as it was planned. The destroy carries the private bytes
      of the object, the create none; the null configuration goes with the destroy. */
  predicate SendsReplacement(trace: Trace, n: nat, prior: State, nil: State, config: State, private: Private) {
    && (|trace| > n ==> Plans(trace[n], prior, nil, nil, private))
    && (|trace| > n + 1 ==>
          && trace[n].PlanCall? && trace[n].plan.Answered?
          && DoesApply(trace[n + 1], prior, trace[n].plan.value.planned, nil, trace[n].plan.value.plannedPrivate))
    && (|trace| > n + 2 ==> Plans(trace[n + 2], nil, config, config, []))
    && (|trace| > n + 3 ==>
          && trace[n + 2].PlanCall? && trace[n + 2].plan.Answered?
          && DoesApply(trace[n + 3], nil, trace[n + 2].plan.value.planned, config, trace[n + 2].plan.value.plannedPrivate))
    && |trace| <= n + 4
  }

  /** What every call of a request is sent. */
  ghost predicate Sends(world: World, req: Request, trace: Trace) {
    var prior, planned, config := world.encode(req.priorState), world.encode(req.plannedState), world.encode(req.config);
    if prior.None? || planned.None? || config.None? then trace == []
    else if IsNullJson(req.priorState) then
      |trace| == 1 && DoesApply(trace[0], prior, planned, config, req.plannedPrivate)
    else
      && |trace| >= 1 && Reads(trace[0], prior, req.plannedPrivate)
      && (|trace| > 1 ==>
            && trace[0].read.Answered?
            && Plans(trace[1], trace[0].read.value.newState, planned, config, trace[0].read.value.private))
      && (|trace| > 2 ==>
            && trace[1].plan.Answered?
            && var (read, plan) := (trace[0].read.value, trace[1].plan.value);
               if plan.requiresReplace != [] then
                 SendsReplacement(trace, 2, read.newState, world.encode("null"), config, read.private)
               else
                 && |trace| == 3
                 && DoesApply(trace[2], read.newState, plan.planned, config, plan.plannedPrivate))
  }

  // ---------------------------------------------------------------- following the handler

  lemma AnsweredPush(world: World, trace: Trace, call: Call)
    requires IsAnswered(world, trace) && AnsweredAt(world, trace + [call], |trace|)
    ensures IsAnswered(world, trace + [call])
  {
    forall i | 0 <= i < |trace + [call]| ensures AnsweredAt(world, trace + [call], i) {
      assert (trace + [call])[..i] == if i < |trace| then trace[..i] else trace;
      if i < |trace| { assert AnsweredAt(world, trace, i); }
    }
  }

  lemma ApplySays(world: World, trace: Trace, prior: State, planned: State, config: State, private: Private)
    requires IsAnswered(world, trace) && ApplyDiagnostics(trace) == [] && |trace| in {0, 2}
    ensures
      var (reply, after) := ApplyAndRespond(world, trace, prior, planned, config, private);
      && Says(world, reply, after) && IsAnswered(world, after)
      && |after| == |trace| + 1 && trace < after && DoesApply(after[|trace|], prior, planned, config, private)
  {
    hide IsAnswered, AnsweredAt, ApplyDiagnostics, HasFatal, Says;
    var applied := world.apply(trace, prior, planned, config, private);
    var call := ApplyCall(prior, planned, config, private, applied);
    IsAnswer(world, trace, call);
    AnsweredPush(world, trace, call);
    OnlyApplySays(world, trace, call);
  }

  lemma OnlyApplySays(world: World, trace: Trace, call: Call)
    requires ApplyDiagnostics(trace) == [] && |trace| in {0, 2} && call.ApplyCall?
    ensures
      var applied := call.applied;
      Says(world, if applied.CallFailed? then ProviderFailed
        else Finish(world, applied.value.newState, applied.value.private, applied.value.diagnostics), trace + [call])
  {
    hide ApplyDiagnostics, HasFatal, AsksToReplace;
    var after := trace + [call];
    DiagnosticsPush(trace, call);
    assert after[|after| - 1] == call;
    assert !Replaces(after);
  }

  lemma IsAnswer(world: World, trace: Trace, call: Call)
    requires match call
      case ReadCall(current, private, read) => read == world.read(trace, current, private)
      case PlanCall(prior, proposed, config, private, plan) => plan == world.plan(trace, prior, proposed, config, private)
      case ApplyCall(prior, planned, config, private, applied) => applied == world.apply(trace, prior, planned, config, private)
    ensures AnsweredAt(world, trace + [call], |trace|)
  {
    assert (trace + [call])[..|trace|] == trace;
  }

  lemma CreateSays(world: World, trace: Trace, nil: State, config: State, earlier: seq<Diagnostic>)
    requires |trace| == 4 && trace[2].PlanCall? && IsAnswered(world, trace) && ApplyDiagnostics(trace) == earlier
    ensures
      var (reply, after) := CreateAndRespond(world, trace, nil, config, earlier);
      && Says(world, reply, after) && IsAnswered(world, after) && trace < after && |after| <= 6
      && Plans(after[4], nil, config, config, [])
      && (|after| == 6 ==>
           && after[4].plan.Answered?
           && DoesApply(after[5], nil, after[4].plan.value.planned, config, after[4].plan.value.plannedPrivate))
  {
    hide IsAnswered, AnsweredAt, ApplyDiagnostics, HasFatal;
    var plan := world.plan(trace, nil, config, config, []);
    var call := PlanCall(nil, config, config, [], plan);
    DiagnosticsPush(trace, call);
    IsAnswer(world, trace, call);
    AnsweredPush(world, trace, call);
    if plan.Answered? {
      var trace1 := trace + [call];
      var created := world.apply(trace1, nil, plan.value.planned, config, plan.value.plannedPrivate);
      var call1 := ApplyCall(nil, plan.value.planned, config, plan.value.plannedPrivate, created);
      DiagnosticsPush(trace1, call1);
      IsAnswer(world, trace1, call1);
      AnsweredPush(world, trace1, call1);
    }
  }

  lemma DestroySays(world: World, trace: Trace, prior: State, plan: PlanResponse, nil: State, config: State)
    requires |trace| == 3 && trace[2].PlanCall? && IsAnswered(world, trace) && ApplyDiagnostics(trace) == []
    ensures
      var (reply, after) := DestroyAndRespond(world, trace, prior, plan, nil, config);
      && Says(world, reply, after) && IsAnswered(world, after) && trace < after && |after| <= 6
      && DoesApply(after[3], prior, plan.planned, nil, plan.plannedPrivate)
      && (|after| > 4 ==> Plans(after[4], nil, config, config, []))
      && (|after| > 5 ==>
           && after[4].plan.Answered?
           && DoesApply(after[5], nil, after[4].plan.value.planned, config, after[4].plan.value.plannedPrivate))
  {
    hide IsAnswered, AnsweredAt, ApplyDiagnostics, HasFatal, CreateAndRespond;
    var destroyed := world.apply(trace, prior, plan.planned, nil, plan.plannedPrivate);
    var call := ApplyCall(prior, plan.planned, nil, plan.plannedPrivate, destroyed);
    DiagnosticsPush(trace, call);
    IsAnswer(world, trace, call);
    AnsweredPush(world, trace, call);
    if destroyed.Answered? && !HasFatal(destroyed.value.diagnostics) {
      hide Says;
      CreateSays(world, trace + [call], nil, config, destroyed.value.diagnostics);
    }
  }

  lemma ReplaceSays(world: World, trace: Trace, prior: State, config: State, private: Private)
    requires |trace| == 2 && IsAnswered(world, trace) && ApplyDiagnostics(trace) == []
    requires AsksToReplace(trace)
    ensures
      var (reply, after) := ReplaceAndRespond(world, trace, prior, config, private);
      && Says(world, reply, after) && IsAnswered(world, after) && trace <= after
      && SendsReplacement(after, 2, prior, world.encode("null"), config, private)
  {
    hide IsAnswered, AnsweredAt, ApplyDiagnostics, HasFatal, DestroyAndRespond;
    if world.encode("null").Some? {
      var nil := world.encode("null");
      var plan := world.plan(trace, prior, nil, nil, private);
      var call := PlanCall(prior, nil, nil, private, plan);
      DiagnosticsPush(trace, call);
      IsAnswer(world, trace, call);
      AnsweredPush(world, trace, call);
      if plan.Answered? && !HasFatal(plan.value.diagnostics) {
        hide Says;
        DestroySays(world, trace + [call], prior, plan.value, nil, config);
      }
    }
  }

  /** The reply, the answers and the arguments of every call, for every provider and every request. */
  lemma ReplySaysWhatHappened(world: World, req: Request)
    ensures
      var (reply, trace) := Handle(world, req);
      Says(world, reply, trace) && IsAnswered(world, trace) && Sends(world, req, trace)
  {
    hide ApplyAndRespond, RefreshAndApply, IsAnswered, AnsweredAt, Says, DoesApply, Sends;
    match (world.encode(req.priorState), world.encode(req.plannedState), world.encode(req.config))
    case (Some(prior), Some(planned), Some(config)) =>
      if IsNullJson(req.priorState) {
        NothingSaid(world);
        ApplySays(world, [], Some(prior), Some(planned), Some(config), req.plannedPrivate);
        CreateIsSent(world, req, ApplyAndRespond(world, [], Some(prior), Some(planned), Some(config), req.plannedPrivate).1);
      } else {
        RefreshSays(world, req, Some(prior), Some(planned), Some(config));
      }
    case _ =>
      NothingSaid(world);
      NothingSent(world, req);
  }

  lemma NothingSaid(world: World)
    ensures IsAnswered(world, []) && ApplyDiagnostics([]) == [] && Says(world, BadRequest, [])
  {}

  lemma NothingSent(world: World, req: Request)
    requires world.encode(req.priorState).None? || world.encode(req.plannedState).None? || world.encode(req.config).None?
    ensures Sends(world, req, [])
  {}

  lemma CreateIsSent(world: World, req: Request, trace: Trace)
    requires world.encode(req.priorState).Some? && world.encode(req.plannedState).Some? && world.encode(req.config).Some?
    requires IsNullJson(req.priorState) && |trace| == 1
    requires DoesApply(trace[0], world.encode(req.priorState), world.encode(req.plannedState), world.encode(req.config),
      req.plannedPrivate)
    ensures Sends(world, req, trace)
  {}

  lemma RefreshSays(world: World, req: Request, prior: State, planned: State, config: State)
    requires world.encode(req.priorState) == prior && world.encode(req.plannedState) == planned
    requires world.encode(req.config) == config && prior.Some? && planned.Some? && config.Some?
    requires !IsNullJson(req.priorState)
    ensures
      var (reply, trace) := RefreshAndApply(world, req, prior, planned, config);
      Says(world, reply, trace) && IsAnswered(world, trace) && Sends(world, req, trace)
  {
    hide IsAnswered, AnsweredAt, ApplyDiagnostics, HasFatal, ReplaceAndRespond, ApplyAndRespond, Diverged, StoredAction,
      DeriveActionFromStates, SendsReplacement;
    NothingSaid(world);
    var read := world.read([], prior, req.plannedPrivate);
    var call1 := ReadCall(prior, req.plannedPrivate, read);
    DiagnosticsPush([], call1);
    IsAnswer(world, [], call1);
    AnsweredPush(world, [], call1);
    assert [] + [call1] == [call1];
    if read.Answered? {
      var current := read.value.newState;
      var plan := world.plan([call1], current, planned, config, read.value.private);
      var call2 := PlanCall(current, planned, config, read.value.private, plan);
      DiagnosticsPush([call1], call2);
      IsAnswer(world, [call1], call2);
      AnsweredPush(world, [call1], call2);
      var trace2 := [call1] + [call2];
      if plan.Answered? {
        if plan.value.requiresReplace != [] {
          ReplaceSays(world, trace2, current, config, read.value.private);
        } else {
          ApplySays(world, trace2, current, plan.value.planned, config, plan.value.plannedPrivate);
        }
      }
    }
  }

  // ---------------------------------------------------------------- what counts as stale

  /** The refreshed plan still does what the stored one did: a delete still turns an object into nothing, a
      replace still replaces an object by an object, and an update still updates one without replacing it
      or has nothing left to do. */
  predicate StillDoes(req: Request, current: State, plan: PlanResponse) {
    if IsNullJson(req.plannedState) then !IsNull(current) && IsNull(plan.planned)
    else if req.requiresReplace != [] then !IsNull(current) && !IsNull(plan.planned) && plan.requiresReplace != []
    else
      || (!IsNull(current) && !IsNull(plan.planned) && plan.requiresReplace == [])
      || (IsNull(current) && IsNull(plan.planned))
  }

  /** A plan is reported stale exactly when the refreshed one no longer does that. */
  lemma StaleExactly(world: World, req: Request)
    ensures
      var (reply, trace) := Handle(world, req);
      reply.StalePlan? <==>
        !IsNullJson(req.priorState) && Refreshed(trace) && !StillDoes(req, Current(trace), RePlan(trace))
  {
    StaleAppliesNothing(world, req);
    hide Handle, IsNull;
  }
}
