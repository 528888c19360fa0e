/** bridge/handler/resource_apply.go with bridge/internal/staleplan: applying a stored plan
    through an arbitrary provider. The provider is a World whose answers may depend on every
    earlier call, so a law for every world is a law for every provider. */
module ResourceApply {
  import opened Common

  type Byte = b: int | 0 <= b < 256

  datatype DynamicValue = DynamicValue(msgPack: seq<Byte>, json: seq<Byte>)

  /** A dynamic value pointer as the provider protocol passes it. */
  type State = Option<DynamicValue>

  type Private = seq<Byte>

  /** A raw JSON payload; empty when the request left it out. */
  type Raw = string

  datatype Diagnostic = Diagnostic(fatal: bool, summary: string)

  datatype Answer<+T> = CallFailed | Answered(value: T)

  datatype ReadResponse = ReadResponse(newState: State, private: Private)

  datatype PlanResponse = PlanResponse(
    planned: State, plannedPrivate: Private, requiresReplace: seq<string>, diagnostics: seq<Diagnostic>)

  datatype ApplyResponse = ApplyResponse(newState: State, private: Private, diagnostics: seq<Diagnostic>)

  /** The provider calls of one request, with their answers. */
  datatype Call =
    | ReadCall(current: State, private: Private, read: Answer<ReadResponse>)
    | PlanCall(prior: State, proposed: State, config: State, private: Private, plan: Answer<PlanResponse>)
    | ApplyCall(prior: State, planned: State, config: State, private: Private, applied: Answer<ApplyResponse>)

  type Trace = seq<Call>

  /** The provider and the codec as one oracle: every answer may depend on all earlier calls. */
  datatype World = World(
    encode: Raw -> Option<DynamicValue>,
    decode: State -> Option<string>,
    read: (Trace, State, Private) -> Answer<ReadResponse>,
    plan: (Trace, State, State, State, Private) -> Answer<PlanResponse>,
    apply: (Trace, State, State, State, Private) -> Answer<ApplyResponse>)

  datatype Request = Request(
    priorState: Raw, plannedState: Raw, config: Raw, plannedPrivate: Private, requiresReplace: seq<string>)

  datatype Action = Noop | Create | Update | Delete | Replace

  datatype Reply =
    | BadRequest
    | ProviderFailed
    | StalePlan(stored: Action, rePlanned: Action)
    | Diagnosed(diagnostics: seq<Diagnostic>)
    | Undecodable
    | Applied(newState: string, private: Private, diagnostics: seq<Diagnostic>)

  // ---------------------------------------------------------------- staleplan

  predicate IsNullJson(raw: Raw) {
    raw == "" || raw == "null"
  }

  /** No pointer, no bytes, or a lone msgpack nil. */
  predicate IsNull(s: State) {
    s.None? || (s.value.msgPack == [] && s.value.json == []) || s.value.msgPack == [0xc0]
  }

  function ActionOf(priorNull: bool, plannedNull: bool): Action {
    if priorNull && plannedNull then Noop
    else if priorNull then Create
    else if plannedNull then Delete
    else Update
  }

  function DeriveAction(prior: Raw, planned: Raw): Action {
    ActionOf(IsNullJson(prior), IsNullJson(planned))
  }

  function DeriveActionFromStates(prior: State, planned: State, requiresReplace: seq<string>): Action {
    var action := ActionOf(IsNull(prior), IsNull(planned));
    if action == Update && requiresReplace != [] then Replace else action
  }

  predicate Diverged(stored: Action, rePlanned: Action) {
    stored != rePlanned && !(stored == Update && rePlanned == Noop)
  }

  /** A stored update that requires replacement counts as a replace. */
  function StoredAction(req: Request): Action {
    var action := DeriveAction(req.priorState, req.plannedState);
    if action == Update && req.requiresReplace != [] then Replace else action
  }

  predicate HasFatal(diagnostics: seq<Diagnostic>) {
    exists d :: d in diagnostics && d.fatal
  }

  // ---------------------------------------------------------------- meaning of the handler

  function Finish(world: World, newState: State, private: Private, diagnostics: seq<Diagnostic>): Reply {
    match world.decode(newState)
    case None => Undecodable
    case Some(json) => Applied(json, private, diagnostics)
  }

  function ApplyAndRespond(world: World, trace: Trace, prior: State, planned: State, config: State, private: Private): (Reply, Trace) {
    var applied := world.apply(trace, prior, planned, config, private);
    var trace1 := trace + [ApplyCall(prior, planned, config, private, applied)];
    if applied.CallFailed? then (ProviderFailed, trace1)
    else (Finish(world, applied.value.newState, applied.value.private, applied.value.diagnostics), trace1)
  }

  /** Destroy, then create, each with its own plan. */
  function ReplaceAndRespond(world: World, trace: Trace, prior: State, config: State, private: Private): (Reply, Trace) {
    match world.encode("null")
    case None => (Undecodable, trace)
    case Some(nullDv) =>
      var nil := Some(nullDv);
      var plan := world.plan(trace, prior, nil, nil, private);
      var trace1 := trace + [PlanCall(prior, nil, nil, private, plan)];
      if plan.CallFailed? then (ProviderFailed, trace1)
      else if HasFatal(plan.value.diagnostics) then (Diagnosed(plan.value.diagnostics), trace1)
      else DestroyAndRespond(world, trace1, prior, plan.value, nil, config)
  }

  function DestroyAndRespond(
    world: World, trace: Trace, prior: State, plan: PlanResponse, nil: State, config: State): (Reply, Trace)
  {
    var destroyed := world.apply(trace, prior, plan.planned, nil, plan.plannedPrivate);
    var trace1 := trace + [ApplyCall(prior, plan.planned, nil, plan.plannedPrivate, destroyed)];
    if destroyed.CallFailed? then (ProviderFailed, trace1)
    else if HasFatal(destroyed.value.diagnostics) then (Diagnosed(destroyed.value.diagnostics), trace1)
    else CreateAndRespond(world, trace1, nil, config, destroyed.value.diagnostics)
  }

  function CreateAndRespond(world: World, trace: Trace, nil: State, config: State, earlier: seq<Diagnostic>): (Reply, Trace) {
    var plan := world.plan(trace, nil, config, config, []);
    var trace1 := trace + [PlanCall(nil, config, config, [], plan)];
    if plan.CallFailed? then (ProviderFailed, trace1)
    else if HasFatal(plan.value.diagnostics) then (Diagnosed(earlier + plan.value.diagnostics), trace1)
    else
      var created := world.apply(trace1, nil, plan.value.planned, config, plan.value.plannedPrivate);
      var trace2 := trace1 + [ApplyCall(nil, plan.value.planned, config, plan.value.plannedPrivate, created)];
      if created.CallFailed? then (ProviderFailed, trace2)
      else (Finish(world, created.value.newState, created.value.private, earlier + created.value.diagnostics), trace2)
  }

  function Handle(world: World, req: Request): (Reply, Trace) {
    match (world.encode(req.priorState), world.encode(req.plannedState), world.encode(req.config))
    case (Some(prior), Some(planned), Some(config)) =>
      if IsNullJson(req.priorState) then
        ApplyAndRespond(world, [], Some(prior), Some(planned), Some(config), req.plannedPrivate)
      else RefreshAndApply(world, req, Some(prior), Some(planned), Some(config))
    case _ => (BadRequest, [])
  }

  /** Read, re-plan, compare with the stored plan, and only then change anything. */
  function RefreshAndApply(world: World, req: Request, prior: State, planned: State, config: State): (Reply, Trace) {
    var read := world.read([], prior, req.plannedPrivate);
    var trace1: Trace := [ReadCall(prior, req.plannedPrivate, read)];
    if read.CallFailed? then (ProviderFailed, trace1)
    else
      var current := read.value.newState;
      var plan := world.plan(trace1, current, planned, config, read.value.private);
      var trace2 := trace1 + [PlanCall(current, planned, config, read.value.private, plan)];
      if plan.CallFailed? then (ProviderFailed, trace2)
      else
        var rePlanned := DeriveActionFromStates(current, plan.value.planned, plan.value.requiresReplace);
        if Diverged(StoredAction(req), rePlanned) then (StalePlan(StoredAction(req), rePlanned), trace2)
        else if plan.value.requiresReplace != [] then ReplaceAndRespond(world, trace2, current, config, read.value.private)
        else ApplyAndRespond(world, trace2, current, plan.value.planned, config, plan.value.plannedPrivate)
  }

  // ---------------------------------------------------------------- the handler as it runs

  method Apply(world: World, trace: Trace, prior: State, planned: State, config: State, private: Private)
    returns (reply: Reply, calls: Trace)
    ensures (reply, calls) == ApplyAndRespond(world, trace, prior, planned, config, private)
  {
    var applied := world.apply(trace, prior, planned, config, private);
    calls := trace + [ApplyCall(prior, planned, config, private, applied)];
    if applied.CallFailed? {
      return ProviderFailed, calls;
    }
    reply := Finish(world, applied.value.newState, applied.value.private, applied.value.diagnostics);
  }

  method ApplyReplace(world: World, trace: Trace, prior: State, config: State, private: Private)
    returns (reply: Reply, calls: Trace)
    ensures (reply, calls) == ReplaceAndRespond(world, trace, prior, config, private)
  {
    calls := trace;
    var encoded := world.encode("null");
    if encoded.None? {
      return Undecodable, calls;
    }
    var nullDv: State := Some(encoded.value);
    var destroyPlan := world.plan(calls, prior, nullDv, nullDv, private);
    calls := calls + [PlanCall(prior, nullDv, nullDv, private, destroyPlan)];
    if destroyPlan.CallFailed? {
      return ProviderFailed, calls;
    }
    if HasFatal(destroyPlan.value.diagnostics) {
      return Diagnosed(destroyPlan.value.diagnostics), calls;
    }
    var destroyed := world.apply(calls, prior, destroyPlan.value.planned, nullDv, destroyPlan.value.plannedPrivate);
    calls := calls + [ApplyCall(prior, destroyPlan.value.planned, nullDv, destroyPlan.value.plannedPrivate, destroyed)];
    if destroyed.CallFailed? {
      return ProviderFailed, calls;
    }
    if HasFatal(destroyed.value.diagnostics) {
      return Diagnosed(destroyed.value.diagnostics), calls;
    }
    var createPlan := world.plan(calls, nullDv, config, config, []);
    calls := calls + [PlanCall(nullDv, config, config, [], createPlan)];
    if createPlan.CallFailed? {
      return ProviderFailed, calls;
    }
    if HasFatal(createPlan.value.diagnostics) {
      return Diagnosed(destroyed.value.diagnostics + createPlan.value.diagnostics), calls;
    }
    var created := world.apply(calls, nullDv, createPlan.value.planned, config, createPlan.value.plannedPrivate);
    calls := calls + [ApplyCall(nullDv, createPlan.value.planned, config, createPlan.value.plannedPrivate, created)];
    if created.CallFailed? {
      return ProviderFailed, calls;
    }
    reply := Finish(world, created.value.newState, created.value.private,
      destroyed.value.diagnostics + created.value.diagnostics);
  }

  method Serve(world: World, req: Request) returns (reply: Reply, calls: Trace)
    ensures (reply, calls) == Handle(world, req)
  {
    calls := [];
    var prior := world.encode(req.priorState);
    if prior.None? { return BadRequest, calls; }
    var planned := world.encode(req.plannedState);
    if planned.None? { return BadRequest, calls; }
    var config := world.encode(req.config);
    if config.None? { return BadRequest, calls; }
    if IsNullJson(req.priorState) {
      reply, calls := Apply(world, calls, Some(prior.value), Some(planned.value), Some(config.value), req.plannedPrivate);
      return;
    }
    var read := world.read(calls, Some(prior.value), req.plannedPrivate);
    calls := [ReadCall(Some(prior.value), req.plannedPrivate, read)];
    if read.CallFailed? {
      return ProviderFailed, calls;
    }
    var current := read.value.newState;
    var rePlan := world.plan(calls, current, Some(planned.value), Some(config.value), read.value.private);
    calls := calls + [PlanCall(current, Some(planned.value), Some(config.value), read.value.private, rePlan)];
    if rePlan.CallFailed? {
      return ProviderFailed, calls;
    }
    var storedAction := DeriveAction(req.priorState, req.plannedState);
    if storedAction == Update && req.requiresReplace != [] {
      storedAction := Replace;
    }
    var rePlanAction := DeriveActionFromStates(current, rePlan.value.planned, rePlan.value.requiresReplace);
    if Diverged(storedAction, rePlanAction) {
      return StalePlan(storedAction, rePlanAction), calls;
    }
    if rePlan.value.requiresReplace != [] {
      reply, calls := ApplyReplace(world, calls, current, Some(config.value), read.value.private);
      return;
    }
    reply, calls := Apply(world, calls, current, rePlan.value.planned, Some(config.value), rePlan.value.plannedPrivate);
  }
}
