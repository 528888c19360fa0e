/** What the apply handler guarantees against an arbitrary provider. */
module ResourceApplyLaws {
  import opened Common
  import opened ResourceApply
  import Codec
  import TfTypes

  /** The applies of a trace, in order. */
  function Applies(trace: Trace): (applies: Trace)
    ensures forall call :: call in applies ==> call.ApplyCall?
    ensures trace == [] ==> applies == []
  {
    if trace == [] then []
    else
      var last := trace[|trace| - 1];
      Applies(trace[..|trace| - 1]) + (if last.ApplyCall? then [last] else [])
  }

  lemma AppliesPush(trace: Trace, call: Call)
    ensures Applies(trace + [call]) == Applies(trace) + (if call.ApplyCall? then [call] else [])
  {
    assert (trace + [call])[..|trace|] == trace;
  }

  predicate Clean(applied: Answer<ApplyResponse>) {
    applied.Answered? && !HasFatal(applied.value.diagnostics)
  }

  /** The encoder writes null exactly for null. */
  ghost predicate EncodesNullness(world: World) {
    forall raw :: world.encode(raw).Some? ==> (IsNull(world.encode(raw)) <==> IsNullJson(raw))
  }

  /** bridge/codec/dynamic_value.go:18-37 over a parser of raw payloads and a packer of values. */
  function EncodeWith(
    st: Codec.SchemaType, parse: Raw -> Option<Codec.Json>, pack: TfTypes.Value -> DynamicValue, raw: Raw): State
  {
    if IsNullJson(raw) then Some(pack(TfTypes.Value(st.typ, TfTypes.Null)))
    else match parse(raw)
      case None => None
      case Some(j) =>
        match Codec.Decode(j, st)
        case None => None
        case Some(v) => Some(pack(v))
  }

  /** A raw payload has no white space around it, and packing keeps null-ness. */
  ghost predicate KeepNullness(parse: Raw -> Option<Codec.Json>, pack: TfTypes.Value -> DynamicValue) {
    && (forall raw :: parse(raw) == Some(Codec.JNull) ==> IsNullJson(raw))
    && (forall v :: IsNull(Some(pack(v))) <==> v.body.Null?)
  }

  /** At a compiled resource schema the codec writes null exactly for null. */
  lemma CodecEncodesNullness(
    world: World, block: TfTypes.SchemaBlock, parse: Raw -> Option<Codec.Json>, pack: TfTypes.Value -> DynamicValue)
    requires Codec.Complete(block) && KeepNullness(parse, pack)
    requires forall raw :: world.encode(raw) == EncodeWith(Codec.BlockToSchemaType(block), parse, pack, raw)
    ensures EncodesNullness(world)
  {
    var st := Codec.BlockToSchemaType(block);
    forall raw | world.encode(raw).Some? ensures IsNull(world.encode(raw)) <==> IsNullJson(raw) {
      if !IsNullJson(raw) {
        assert parse(raw).Some? && !parse(raw).value.JNull?;
        assert !Codec.Decode(parse(raw).value, st).value.body.Null?;
      }
    }
  }

  /** A value carried as JSON is never taken for null, the text null included. */
  lemma JsonIsNeverNull(json: seq<Byte>)
    requires json != []
    ensures !IsNull(Some(DynamicValue([], json)))
    ensures !IsNull(Some(DynamicValue([], [110, 117, 108, 108])))
  {}

  /** The provider asks for replacement only between two objects. */
  ghost predicate ReplacesOnlyObjects(world: World) {
    forall trace, prior, proposed, config, private :: ReplaceIsBetweenObjects(prior, world.plan(trace, prior, proposed, config, private))
  }

  predicate ReplaceIsBetweenObjects(prior: State, plan: Answer<PlanResponse>) {
    plan.Answered? && plan.value.requiresReplace != [] ==> !IsNull(prior) && !IsNull(plan.value.planned)
  }

  /** The provider plans a null proposal as a null result. */
  ghost predicate PlansDestroys(world: World) {
    forall trace, prior, proposed, config, private :: DestroyIsPlanned(proposed, world.plan(trace, prior, proposed, config, private))
  }

  predicate DestroyIsPlanned(proposed: State, plan: Answer<PlanResponse>) {
    plan.Answered? && IsNull(proposed) && !HasFatal(plan.value.diagnostics) ==> IsNull(plan.value.planned)
  }

  /** The trace starts with an answered read and an answered re-plan of what was read. */
  predicate Refreshed(trace: Trace) {
    && |trace| >= 2
    && trace[0].ReadCall? && trace[0].read.Answered?
    && trace[1].PlanCall? && trace[1].plan.Answered? && trace[1].prior == Current(trace)
  }

  function Current(trace: Trace): State
    requires |trace| >= 2 && trace[0].ReadCall? && trace[0].read.Answered?
  {
    trace[0].read.value.newState
  }

  function RePlan(trace: Trace): PlanResponse
    requires Refreshed(trace)
  {
    trace[1].plan.value
  }

  function RePlannedAction(trace: Trace): Action
    requires Refreshed(trace)
  {
    DeriveActionFromStates(Current(trace), RePlan(trace).planned, RePlan(trace).requiresReplace)
  }

  /** The handler went on to plan a destroy. */
  predicate Replaces(trace: Trace) {
    |trace| > 2 && trace[2].PlanCall?
  }

  // ---------------------------------------------------------------- shape of every run

  lemma ApplyShape(world: World, trace: Trace, prior: State, planned: State, config: State, private: Private)
    requires Applies(trace) == []
    ensures
      var (reply, after) := ApplyAndRespond(world, trace, prior, planned, config, private);
      && !reply.StalePlan? && trace < after && |after| == |trace| + 1 && after[|trace|].ApplyCall?
      && Applies(after) == [after[|trace|]]
      && after[|trace|].prior == prior && after[|trace|].planned == planned
  {
    hide Applies;
    var call := ApplyCall(prior, planned, config, private, world.apply(trace, prior, planned, config, private));
    AppliesPush(trace, call);
    assert [] + [call] == [call];
  }

  /** From position n on: a create from nil is planned, and if it is applied, as it was planned. */
  predicate IsCreation(n: nat, nil: State, trace: Trace) {
    && n < |trace| <= n + 2
    && trace[n].PlanCall? && trace[n].prior == nil
    && (|trace| == n + 2 ==>
         && trace[n].plan.Answered? && trace[n + 1].ApplyCall?
         && trace[n + 1].prior == nil && trace[n + 1].planned == trace[n].plan.value.planned)
  }

  lemma CreateShape(world: World, trace: Trace, nil: State, config: State, earlier: seq<Diagnostic>)
    ensures
      var (reply, after) := CreateAndRespond(world, trace, nil, config, earlier);
      !reply.StalePlan? && trace <= after && IsCreation(|trace|, nil, after)
  {
    hide HasFatal;
  }

  /** From position n on: an apply of what was planned, and after a clean one only, a creation. */
  predicate IsDestruction(n: nat, prior: State, planned: State, nil: State, trace: Trace) {
    && n < |trace|
    && trace[n].ApplyCall? && trace[n].prior == prior && trace[n].planned == planned
    && (|trace| > n + 1 ==> Clean(trace[n].applied) && IsCreation(n + 1, nil, trace))
  }

  lemma DestroyShape(world: World, trace: Trace, prior: State, plan: PlanResponse, nil: State, config: State)
    ensures
      var (reply, after) := DestroyAndRespond(world, trace, prior, plan, nil, config);
      !reply.StalePlan? && trace <= after && IsDestruction(|trace|, prior, plan.planned, nil, after)
  {
    hide HasFatal, CreateAndRespond, IsCreation;
    var destroyed := world.apply(trace, prior, plan.planned, nil, plan.plannedPrivate);
    var call := ApplyCall(prior, plan.planned, nil, plan.plannedPrivate, destroyed);
    if Clean(destroyed) {
      CreateShape(world, trace + [call], nil, config, destroyed.value.diagnostics);
    }
  }

  /** From position n on: a destroy of the prior object is planned from a null proposal, and then applied
      as it was planned. */
  ghost predicate IsReplacement(world: World, n: nat, prior: State, trace: Trace) {
    var nil := world.encode("null");
    && n <= |trace|
    && (|trace| > n ==> nil.Some? && trace[n].PlanCall? && trace[n].prior == prior && trace[n].proposed == nil)
    && (|trace| > n + 1 ==>
         && trace[n].plan.Answered? && IsDestroy(world, trace[n].plan.value.planned)
         && IsDestruction(n + 1, prior, trace[n].plan.value.planned, nil, trace))
  }

  ghost predicate IsDestroy(world: World, planned: State) {
    PlansDestroys(world) && EncodesNullness(world) ==> IsNull(planned)
  }

  lemma DestroyPlan(world: World, trace: Trace, prior: State, private: Private)
    requires world.encode("null").Some?
    ensures
      var nil := world.encode("null");
      var plan := world.plan(trace, prior, nil, nil, private);
      plan.Answered? && !HasFatal(plan.value.diagnostics) ==> IsDestroy(world, plan.value.planned)
  {
    var nil := world.encode("null");
    var plan := world.plan(trace, prior, nil, nil, private);
    assert PlansDestroys(world) ==> DestroyIsPlanned(nil, plan);
  }

  lemma ReplaceShape(world: World, trace: Trace, prior: State, config: State, private: Private)
    ensures
      var (reply, after) := ReplaceAndRespond(world, trace, prior, config, private);
      && !reply.StalePlan? && trace <= after && IsReplacement(world, |trace|, prior, after)
      && (after == trace <==> world.encode("null").None?)
  {
    hide HasFatal, IsDestroy, DestroyAndRespond, IsDestruction;
    if world.encode("null").Some? {
      var nil := Some(world.encode("null").value);
      var plan := world.plan(trace, prior, nil, nil, private);
      var call := PlanCall(prior, nil, nil, private, plan);
      if plan.Answered? && !HasFatal(plan.value.diagnostics) {
        DestroyPlan(world, trace, prior, private);
        DestroyShape(world, trace + [call], prior, plan.value, nil, config);
      }
    }
  }

  /** The applies of a replacement that starts at the third call. */
  lemma ReplacementApplies(world: World, prior: State, trace: Trace)
    requires |trace| >= 2 && !trace[0].ApplyCall? && !trace[1].ApplyCall? && IsReplacement(world, 2, prior, trace)
    ensures |trace| <= 6
    ensures Applies(trace) ==
      if |trace| <= 3 then [] else if |trace| <= 5 then [trace[3]] else [trace[3], trace[5]]
  {
    hide Applies, IsDestroy, Clean;
    SixCalls(trace);
  }

  lemma SixCalls(trace: Trace)
    requires 2 <= |trace| <= 6 && forall i :: 0 <= i < |trace| ==> (trace[i].ApplyCall? <==> i == 3 || i == 5)
    ensures Applies(trace) ==
      if |trace| <= 3 then [] else if |trace| <= 5 then [trace[3]] else [trace[3], trace[5]]
  {
    hide Applies;
    assert trace[..|trace|] == trace;
    if |trace| <= 3 {
      NoApplies(trace, |trace|);
    } else {
      NoApplies(trace, 3);
      AppliesOfPush(trace, 3);
      assert Applies(trace[..4]) == [trace[3]];
      if |trace| > 4 {
        AppliesOfPush(trace, 4);
        assert Applies(trace[..5]) == [trace[3]];
      }
      if |trace| > 5 {
        AppliesOfPush(trace, 5);
      }
    }
  }

  lemma {:induction false} NoApplies(trace: Trace, n: nat)
    requires n <= |trace| && forall i :: 0 <= i < n ==> !trace[i].ApplyCall?
    ensures Applies(trace[..n]) == []
  {
    hide Applies;
    if n == 0 {
      assert trace[..0] == [];
    } else {
      NoApplies(trace, n - 1);
      AppliesOfPush(trace, n - 1);
    }
  }

  lemma AppliesOfPush(trace: Trace, n: nat)
    requires n < |trace|
    ensures Applies(trace[..n + 1]) == Applies(trace[..n]) + (if trace[n].ApplyCall? then [trace[n]] else [])
  {
    AppliesPush(trace[..n], trace[n]);
    assert trace[..n] + [trace[n]] == trace[..n + 1];
  }

  /** Everything a run that got past the read and the re-plan does. */
  ghost predicate IsRefreshedRun(world: World, req: Request, trace: Trace) {
    && Refreshed(trace)
    && (exists t, proposed, config, private ::
          world.plan(t, Current(trace), proposed, config, private) == Answered(RePlan(trace)))
    && if Diverged(StoredAction(req), RePlannedAction(trace)) then |trace| == 2 && Applies(trace) == []
       else if RePlan(trace).requiresReplace != [] then
         && IsReplacement(world, 2, Current(trace), trace)
         && (Replaces(trace) <==> world.encode("null").Some?)
       else
         && |trace| == 3 && !Replaces(trace) && Applies(trace) == [trace[2]]
         && trace[2].prior == Current(trace) && trace[2].planned == RePlan(trace).planned
  }

  lemma RefreshShape(world: World, req: Request, prior: State, planned: State, config: State)
    ensures
      var (reply, trace) := RefreshAndApply(world, req, prior, planned, config);
      && (if Refreshed(trace) then IsRefreshedRun(world, req, trace) else Applies(trace) == [] && |trace| <= 2)
      && (reply.StalePlan? <==> Refreshed(trace) && Diverged(StoredAction(req), RePlannedAction(trace)))
      && (reply.StalePlan? ==> reply.stored == StoredAction(req) && reply.rePlanned == RePlannedAction(trace))
  {
    hide HasFatal, IsDestruction, IsDestroy, Applies, ReplaceAndRespond, ApplyAndRespond, Diverged, DeriveActionFromStates, StoredAction;
    var read := world.read([], prior, req.plannedPrivate);
    var call1 := ReadCall(prior, req.plannedPrivate, read);
    AppliesPush([], call1);
    assert [] + [call1] == [call1];
    if read.Answered? {
      var current := read.value.newState;
      var plan := world.plan([call1], current, planned, config, read.value.private);
      var call2 := PlanCall(current, planned, config, read.value.private, plan);
      AppliesPush([call1], call2);
      var trace2 := [call1] + [call2];
      if plan.Answered? {
        if plan.value.requiresReplace != [] {
          ReplaceShape(world, trace2, current, config, read.value.private);
        } else {
          ApplyShape(world, trace2, current, plan.value.planned, config, plan.value.plannedPrivate);
        }
      }
    }
  }

  /** Every run either touches no stored object (a create), or goes through the refresh. */
  lemma HandleShape(world: World, req: Request)
    ensures
      var (reply, trace) := Handle(world, req);
      && (!IsNullJson(req.priorState) && Refreshed(trace) ==> IsRefreshedRun(world, req, trace))
      && (!IsNullJson(req.priorState) && !Refreshed(trace) ==> Applies(trace) == [] && |trace| <= 2)
      && (IsNullJson(req.priorState) ==> !Refreshed(trace) && !Replaces(trace) && |trace| <= 1)
      && (IsNullJson(req.priorState) && Applies(trace) != [] ==>
           |Applies(trace)| == 1
           && world.encode(req.priorState) == Applies(trace)[0].prior && Applies(trace)[0].prior.Some?
           && world.encode(req.plannedState) == Applies(trace)[0].planned && Applies(trace)[0].planned.Some?)
      && (reply.StalePlan? <==>
           !IsNullJson(req.priorState) && Refreshed(trace) && Diverged(StoredAction(req), RePlannedAction(trace)))
      && (reply.StalePlan? ==> reply.stored == StoredAction(req) && reply.rePlanned == RePlannedAction(trace))
  {
    hide Diverged, StoredAction, IsRefreshedRun, Refreshed, RefreshAndApply, RePlannedAction;
    match (world.encode(req.priorState), world.encode(req.plannedState), world.encode(req.config))
    case (Some(prior), Some(planned), Some(config)) =>
      if IsNullJson(req.priorState) {
        ApplyShape(world, [], Some(prior), Some(planned), Some(config), req.plannedPrivate);
        NotRefreshed(ApplyAndRespond(world, [], Some(prior), Some(planned), Some(config), req.plannedPrivate).1);
      } else {
        RefreshShape(world, req, Some(prior), Some(planned), Some(config));
      }
    case _ =>
      assert Applies([]) == [];
      NotRefreshed([]);
  }

  lemma NotRefreshed(trace: Trace)
    requires |trace| <= 1
    ensures !Refreshed(trace)
  {}

  // ---------------------------------------------------------------- main results

  /** A plan is reported stale exactly when the refreshed re-plan diverges, and then nothing is applied. */
  lemma StaleAppliesNothing(world: World, req: Request)
    ensures
      var (reply, trace) := Handle(world, req);
      && (reply.StalePlan? <==>
           !IsNullJson(req.priorState) && Refreshed(trace) && Diverged(StoredAction(req), RePlannedAction(trace)))
      && (reply.StalePlan? ==> Applies(trace) == [])
  {
    HandleShape(world, req);
  }

  /** A second apply happens only in a replacement. The first apply then is of the object just read, as
      its destroy was planned from a null proposal, and came back without a fatal diagnostic; the
      second creates from nothing, as its create was planned. */
  lemma CreateFollowsCleanDestroy(world: World, req: Request)
    ensures
      var trace := Handle(world, req).1;
      && |Applies(trace)| <= 2
      && (|Applies(trace)| == 2 <==> |trace| == 6)
      && (|trace| == 6 ==>
           && Applies(trace) == [trace[3], trace[5]]
           && Refreshed(trace) && RePlan(trace).requiresReplace != []
           && trace[2].PlanCall? && trace[2].plan.Answered? && trace[2].proposed == world.encode("null")
           && trace[3].ApplyCall? && trace[3].prior == Current(trace)
           && trace[3].planned == trace[2].plan.value.planned && Clean(trace[3].applied)
           && trace[4].PlanCall? && trace[4].plan.Answered?
           && trace[5].ApplyCall? && trace[5].prior == world.encode("null")
           && trace[5].planned == trace[4].plan.value.planned)
  {
    hide Handle, Diverged, IsDestroy, Clean, Applies;
    HandleShape(world, req);
    var trace := Handle(world, req).1;
    if !IsNullJson(req.priorState) && Refreshed(trace) && IsReplacement(world, 2, Current(trace), trace) {
      ReplacementApplies(world, Current(trace), trace);
    }
  }

  /** Destroy-then-create runs exactly when a re-plan that has not diverged asks for replacement. It is
      what was stored exactly when the object read and the one re-planned both exist, which is what the
      handler does not look at; and a stored replace is never applied in any other way. */
  lemma ReplacesExactly(world: World, req: Request)
    ensures
      var trace := Handle(world, req).1;
      && (Replaces(trace) <==>
           && !IsNullJson(req.priorState) && Refreshed(trace) && world.encode("null").Some?
           && !Diverged(StoredAction(req), RePlannedAction(trace)) && RePlan(trace).requiresReplace != [])
      && (Replaces(trace) ==>
           (StoredAction(req) == Replace <==> !IsNull(Current(trace)) && !IsNull(RePlan(trace).planned)))
      && (Applies(trace) != [] && StoredAction(req) == Replace ==> Replaces(trace))
  {
    hide Handle, IsNull, Applies;
    HandleShape(world, req);
    var trace := Handle(world, req).1;
    if !IsNullJson(req.priorState) && Refreshed(trace) && IsReplacement(world, 2, Current(trace), trace) {
      ReplacementApplies(world, Current(trace), trace);
    }
  }

  /** So only a stored replace is replaced, if the provider asks to replace only objects by objects. */
  lemma OnlyReplaceDestroysAndCreates(world: World, req: Request)
    requires ReplacesOnlyObjects(world)
    ensures
      var trace := Handle(world, req).1;
      && (Replaces(trace) ==> StoredAction(req) == Replace)
      && (Applies(trace) != [] && StoredAction(req) == Replace ==> Replaces(trace))
  {
    hide Handle, IsNull, StoredAction, Diverged;
    ReplacesExactly(world, req);
    HandleShape(world, req);
    var trace := Handle(world, req).1;
    if Replaces(trace) {
      var t, proposed, config, private :|
        world.plan(t, Current(trace), proposed, config, private) == Answered(RePlan(trace));
      assert ReplaceIsBetweenObjects(Current(trace), world.plan(t, Current(trace), proposed, config, private));
    }
  }

  /** Otherwise the one apply moves between null and object as the stored plan did, or an update has
      become a no-op. */
  lemma SingleApplyKeepsAction(world: World, req: Request)
    requires EncodesNullness(world)
    ensures
      var trace := Handle(world, req).1;
      Applies(trace) != [] && !Replaces(trace) ==>
        var apply := Applies(trace)[0];
        var done := ActionOf(IsNull(apply.prior), IsNull(apply.planned));
        && |Applies(trace)| == 1 && StoredAction(req) != Replace
        && (done == StoredAction(req) || (StoredAction(req) == Update && done == Noop))
  {
    HandleShape(world, req);
    var trace := Handle(world, req).1;
    if IsNullJson(req.priorState) && Applies(trace) != [] {
      var apply := Applies(trace)[0];
      assert IsNull(apply.prior) <==> IsNullJson(req.priorState) by { assert world.encode(req.priorState).Some?; }
      assert IsNull(apply.planned) <==> IsNullJson(req.plannedState) by { assert world.encode(req.plannedState).Some?; }
    }
  }

  /** How many objects may be live after the calls of a trace: an apply from nothing may add one even
      when it fails, and an apply to nothing removes one only when it is clean. */
  function LiveAfter(start: int, trace: Trace): int {
    if trace == [] then start
    else LiveAfter(start, trace[..|trace| - 1]) + Effect(trace[|trace| - 1])
  }

  function Effect(call: Call): int {
    if !call.ApplyCall? then 0
    else match ActionOf(IsNull(call.prior), IsNull(call.planned))
      case Create => 1
      case Delete => if Clean(call.applied) then -1 else 0
      case _ => 0
  }

  /** What the handler knows to exist when it starts to change things. */
  function LiveAtStart(trace: Trace): int {
    if Refreshed(trace) && !IsNull(Current(trace)) then 1 else 0
  }

  lemma {:induction false} LiveCountsApplies(start: int, trace: Trace)
    ensures LiveAfter(start, trace) == LiveAfter(start, Applies(trace))
  {
    hide Applies, LiveAfter, Effect;
    if trace == [] {
    } else {
      var init := trace[..|trace| - 1];
      var last := trace[|trace| - 1];
      LiveCountsApplies(start, init);
      AppliesPush(init, last);
      assert trace == init + [last];
      LivePush(start, init, last);
      if last.ApplyCall? {
        LivePush(start, Applies(init), last);
      } else {
        OnlyAppliesCount(last);
        assert Applies(trace) == Applies(init);
      }
    }
  }

  lemma OnlyAppliesCount(call: Call)
    requires !call.ApplyCall?
    ensures Effect(call) == 0
  {}

  lemma LivePush(start: int, trace: Trace, last: Call)
    ensures LiveAfter(start, trace + [last]) == LiveAfter(start, trace) + Effect(last)
  {
    assert (trace + [last])[..|trace|] == trace;
  }

  lemma {:induction false} AppliesOfPrefix(trace: Trace, n: nat)
    requires n <= |trace|
    ensures Applies(trace[..n]) <= Applies(trace)
  {
    if n < |trace| {
      var init := trace[..|trace| - 1];
      AppliesOfPrefix(init, n);
      assert init[..n] == trace[..n];
    } else {
      assert trace[..n] == trace;
    }
  }

  /** A replacement ran to its end though its destroy was planned to leave an object and its create to
      make one: the two plans the handler applies without a look at what they plan. */
  predicate DestroyLeavesObject(trace: Trace) {
    && |trace| == 6
    && trace[2].PlanCall? && trace[2].plan.Answered? && !IsNull(trace[2].plan.value.planned)
    && trace[4].PlanCall? && trace[4].plan.Answered? && !IsNull(trace[4].plan.value.planned)
  }

  predicate BothLeaveObjects(applies: Trace) {
    && |applies| == 2
    && (forall call :: call in applies ==> call.ApplyCall?)
    && !IsNull(applies[0].planned) && !IsNull(applies[1].planned)
  }

  lemma LeavesObject(world: World, req: Request)
    ensures var trace := Handle(world, req).1; DestroyLeavesObject(trace) <==> BothLeaveObjects(Applies(trace))
  {
    hide Handle, IsNull, Applies, Clean;
    CreateFollowsCleanDestroy(world, req);
  }

  lemma FewApplies(start: int, some: Trace, all: Trace)
    requires some <= all && |all| <= 2
    ensures LiveAfter(start, some) ==
      start + (if |some| >= 1 then Effect(all[0]) else 0) + (if |some| == 2 then Effect(all[1]) else 0)
  {
    if |some| == 2 {
      assert some[..1] == [all[0]] && some[..1][..0] == [];
    } else if |some| == 1 {
      assert some[..0] == [];
    }
  }

  /** What the applies of a run know about each other. */
  predicate StartsFrom(start: int, applies: Trace) {
    && 0 <= start <= 1 && |applies| <= 2
    && (forall call :: call in applies ==> call.ApplyCall?)
    && (|applies| >= 1 ==> (start == 1 <==> !IsNull(applies[0].prior)))
    && (|applies| == 2 ==> Clean(applies[0].applied) && IsNull(applies[1].prior))
  }

  lemma LiveFromStart(start: int, some: Trace, all: Trace)
    requires some <= all && StartsFrom(start, all)
    ensures LiveAfter(start, some) > 1 ==> BothLeaveObjects(all)
    ensures BothLeaveObjects(all) ==> LiveAfter(start, all) == 2
  {
    hide IsNull, Clean, LiveAfter;
    FewApplies(start, some, all);
    FewApplies(start, all, all);
    if |all| >= 1 { assert all[0] in all; }
    if |all| == 2 { assert all[1] in all; }
  }

  lemma RunStartsFrom(world: World, req: Request)
    requires EncodesNullness(world)
    ensures var trace := Handle(world, req).1; StartsFrom(LiveAtStart(trace), Applies(trace))
  {
    assert IsNull(None);
    hide Handle, IsNull, Clean, Applies, Diverged, IsDestroy;
    var trace := Handle(world, req).1;
    HandleShape(world, req);
    if !IsNullJson(req.priorState) && Refreshed(trace) && IsReplacement(world, 2, Current(trace), trace) {
      ReplacementApplies(world, Current(trace), trace);
    }
    if IsNullJson(req.priorState) && Applies(trace) != [] {
      assert world.encode(req.priorState).Some?;
    }
    assert world.encode("null").Some? ==> IsNull(world.encode("null"));
  }

  /** Two objects can be live at some point of a run exactly when a replacement's destroy was planned to
      leave an object and the create that followed was planned to make one. */
  lemma TwoLiveExactly(world: World, req: Request, n: nat)
    requires EncodesNullness(world)
    requires n <= |Handle(world, req).1|
    ensures
      var trace := Handle(world, req).1;
      && (LiveAfter(LiveAtStart(trace), trace[..n]) > 1 ==> DestroyLeavesObject(trace))
      && (DestroyLeavesObject(trace) ==> LiveAfter(LiveAtStart(trace), trace) == 2)
  {
    hide Handle, LiveAfter, StartsFrom, DestroyLeavesObject, BothLeaveObjects, Applies, LiveAtStart, EncodesNullness;
    var trace := Handle(world, req).1;
    RunStartsFrom(world, req);
    AppliesOfPrefix(trace, n);
    LiveCountsApplies(LiveAtStart(trace), trace[..n]);
    LiveCountsApplies(LiveAtStart(trace), trace);
    LeavesObject(world, req);
    LiveFromStart(LiveAtStart(trace), Applies(trace[..n]), Applies(trace));
  }

  /** So never, for a provider that plans destroys. */
  lemma NeverTwoLive(world: World, req: Request, n: nat)
    requires EncodesNullness(world) && PlansDestroys(world)
    requires n <= |Handle(world, req).1|
    ensures
      var trace := Handle(world, req).1;
      LiveAfter(LiveAtStart(trace), trace[..n]) <= 1
  {
    TwoLiveExactly(world, req, n);
    HandleShape(world, req);
  }

  // ---------------------------------------------------------------- why the provider has to cooperate

  const AN_OBJECT: DynamicValue := DynamicValue([0x80], [])
  const NOTHING: DynamicValue := DynamicValue([0xc0], [])

  /** A provider that answers every read with an object and every plan with the given response. */
  function Stubborn(plan: PlanResponse): World {
    World(
      raw => Some(if IsNullJson(raw) then NOTHING else AN_OBJECT),
      state => Some("{}"),
      (trace, current, private) => Answered(ReadResponse(Some(AN_OBJECT), [])),
      (trace, prior, proposed, config, private) => Answered(plan),
      (trace, prior, planned, config, private) => Answered(ApplyResponse(planned, [], [])))
  }

  /** A stored delete becomes destroy-then-create when the provider asks to replace what it deletes. */
  lemma DeleteMayReplace()
    ensures
      var req := Request("{}", "null", "{}", [], []);
      var trace := Handle(Stubborn(PlanResponse(Some(NOTHING), [], ["name"], [])), req).1;
      StoredAction(req) == Delete && Replaces(trace) && |Applies(trace)| == 2
  {
    var world := Stubborn(PlanResponse(Some(NOTHING), [], ["name"], []));
    TwoAppliesOfStubborn(world, PlanResponse(Some(NOTHING), [], ["name"], []), Request("{}", "null", "{}", [], []));
  }

  /** Two live objects when the provider plans an update where a destroy was proposed. */
  lemma DestroyMayLeaveObject()
    ensures
      var req := Request("{}", "{}", "{}", [], ["name"]);
      var world := Stubborn(PlanResponse(Some(AN_OBJECT), [], ["name"], []));
      var trace := Handle(world, req).1;
      EncodesNullness(world) && StoredAction(req) == Replace && LiveAfter(LiveAtStart(trace), trace) == 2
  {
    var plan := PlanResponse(Some(AN_OBJECT), [], ["name"], []);
    var req := Request("{}", "{}", "{}", [], ["name"]);
    var world := Stubborn(plan);
    TwoAppliesOfStubborn(world, plan, req);
    assert EncodesNullness(world);
    TwoLiveExactly(world, req, 0);
  }

  lemma TwoAppliesOfStubborn(world: World, plan: PlanResponse, req: Request)
    requires world == Stubborn(plan) && plan.requiresReplace != [] && plan.diagnostics == []
    requires !IsNullJson(req.priorState)
    requires !Diverged(StoredAction(req), DeriveActionFromStates(Some(AN_OBJECT), plan.planned, plan.requiresReplace))
    ensures
      var trace := Handle(world, req).1;
      && Replaces(trace) && |Applies(trace)| == 2
      && Applies(trace)[0].planned == plan.planned && Applies(trace)[1].planned == plan.planned
  {
    hide Diverged, StoredAction, DeriveActionFromStates, IsNull;
    var trace := Handle(world, req).1;
    assert !HasFatal([]);
    assert |trace| == 6;
    assert trace[3].ApplyCall? && trace[3].planned == plan.planned;
    assert trace[5].ApplyCall? && trace[5].planned == plan.planned;
    HandleShape(world, req);
    ReplacementApplies(world, Current(trace), trace);
  }
}
