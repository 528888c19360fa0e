/** One run of a thinking block: generate, validate, retry with feedback. Everything outside the
    run - agent, validators, call builders - is a World whose answers may depend on all that
    happened before, so a law for every world is a law for every behaviour of theirs. */
module Attempts {
  import opened Common

  type Output = string

  type Feedback = Option<string>

  datatype Answer<+T> = Threw | Gave(value: T)

  /** A prepared call must carry exactly one of a prompt and messages. */
  datatype Call = Call(prompt: Option<string>, messages: Option<string>)

  datatype Role = Generate | Judge

  /** How many steps the agent reported, in sequence, and how the call ended. */
  datatype Generation = Generation(steps: nat, result: Answer<Output>)

  datatype Verdict = Pass | Fail(feedback: Feedback)

  datatype Validator = Check(id: string) | Model(id: string)

  datatype Entry =
    | Prepared(attempt: nat, feedback: Feedback)
    | ModelCall(stepIndex: nat, attempt: nat, role: Role, ok: bool, validator: Option<string>)
    | Generated(attempt: nat, output: Output)
    | Validated(attempt: nat, id: string, verdict: Verdict)

  type Log = seq<Entry>

  datatype World = World(
    prepareCall: (Log, nat, Feedback) -> Answer<Call>,
    generate: (Log, Role, nat, Call) -> Generation,
    check: (Log, string, Output, nat) -> Answer<Verdict>,
    prepareJudge: (Log, string, Output, nat) -> Answer<Call>,
    judge: (Log, string, Output, Output, nat) -> Answer<Verdict>)

  /** What has happened, and the next step index of the run. */
  datatype State = State(log: Log, stepIndex: nat)

  datatype AttemptRecord = AttemptRecord(attempt: nat, ok: bool, feedback: Feedback)

  datatype Outcome =
    | Succeeded(output: Output)
    | Refused(lastOutput: Option<Output>, feedback: Feedback, attempts: seq<AttemptRecord>)
    | Failed

  const DEFAULT_ATTEMPTS: nat := 3

  // ---------------------------------------------------------------- meaning

  function MaxAttempts(run: Option<int>, block: Option<int>): Answer<nat> {
    var max := if run.Some? then run.value else if block.Some? then block.value else DEFAULT_ATTEMPTS;
    if max < 1 then Threw else Gave(max)
  }

  predicate WellFormedCall(call: Call) {
    call.prompt.Some? != call.messages.Some?
  }

  function Append(st: State, entry: Entry): State {
    State(st.log + [entry], st.stepIndex)
  }

  function RecordCall(st: State, attempt: nat, role: Role, ok: bool, validator: Option<string>): State {
    State(st.log + [ModelCall(st.stepIndex, attempt, role, ok, validator)], st.stepIndex + 1)
  }

  function RecordSteps(st: State, n: nat, attempt: nat, role: Role, validator: Option<string>): State
    decreases n
  {
    if n == 0 then st else RecordCall(RecordSteps(st, n - 1, attempt, role, validator), attempt, role, true, validator)
  }

  /** One model call: each reported step is recorded, then a throw is recorded as an error. */
  function CallModel(world: World, st: State, attempt: nat, role: Role, call: Call, validator: Option<string>): (Answer<Output>, State) {
    var g := world.generate(st.log, role, attempt, call);
    var st1 := RecordSteps(st, g.steps, attempt, role, validator);
    if g.result.Threw? then (Threw, RecordCall(st1, attempt, role, false, validator)) else (g.result, st1)
  }

  function RunValidator(world: World, st: State, v: Validator, output: Output, attempt: nat): (Answer<Verdict>, State) {
    match v
    case Check(id) => (world.check(st.log, id, output, attempt), st)
    case Model(id) =>
      var call := world.prepareJudge(st.log, id, output, attempt);
      if call.Threw? || !WellFormedCall(call.value) then (Threw, st)
      else
        var (raw, st1) := CallModel(world, st, attempt, Judge, call.value, Some(id));
        if raw.Threw? then (Threw, st1) else (world.judge(st1.log, id, output, raw.value, attempt), st1)
  }

  /** Validators run in order and stop at the first failure. */
  function Validate(world: World, st: State, validators: seq<Validator>, output: Output, attempt: nat): (Answer<Verdict>, State)
    decreases |validators|
  {
    if validators == [] then (Gave(Pass), st)
    else
      var (answer, st1) := RunValidator(world, st, validators[0], output, attempt);
      if answer.Threw? then (Threw, st1)
      else
        var st2 := Append(st1, Validated(attempt, validators[0].id, answer.value));
        if answer.value.Fail? then (answer, st2) else Validate(world, st2, validators[1..], output, attempt)
  }

  /** One attempt: prepare with the feedback of the previous one, generate, validate. */
  function TryOnce(world: World, st: State, validators: seq<Validator>, attempt: nat, feedback: Feedback):
    (Answer<(Output, Verdict)>, State)
  {
    var call := world.prepareCall(st.log, attempt, feedback);
    var st0 := Append(st, Prepared(attempt, feedback));
    if call.Threw? || !WellFormedCall(call.value) then (Threw, st0)
    else
      var (raw, st1) := CallModel(world, st0, attempt, Generate, call.value, None);
      if raw.Threw? then (Threw, st1)
      else
        var (verdict, st2) := Validate(world, Append(st1, Generated(attempt, raw.value)), validators, raw.value, attempt);
        if verdict.Threw? then (Threw, st2) else (Gave((raw.value, verdict.value)), st2)
  }

  /** Attempts first to max, given what the earlier ones left behind. */
  function TryUpTo(world: World, st: State, validators: seq<Validator>, first: nat, max: nat,
                   last: Option<Output>, feedback: Feedback, attempts: seq<AttemptRecord>): (Outcome, State)
    requires first <= max + 1
    decreases max + 1 - first
  {
    if first > max then (Refused(last, feedback, attempts), st)
    else
      var (answer, st1) := TryOnce(world, st, validators, first, feedback);
      match answer
      case Threw => (Failed, st1)
      case Gave((output, Pass)) => (Succeeded(output), st1)
      case Gave((output, Fail(why))) =>
        TryUpTo(world, st1, validators, first + 1, max, Some(output), why, attempts + [AttemptRecord(first, false, why)])
  }

  function Run(world: World, validators: seq<Validator>, runMax: Option<int>, blockMax: Option<int>): (Outcome, State) {
    match MaxAttempts(runMax, blockMax)
    case Threw => (Failed, State([], 0))
    case Gave(max) => TryUpTo(world, State([], 0), validators, 1, max, None, None, [])
  }

  // ---------------------------------------------------------------- the loops

  method GenerateOnce(world: World, st: State, attempt: nat, role: Role, call: Call, validator: Option<string>)
    returns (raw: Answer<Output>, st': State)
    ensures (raw, st') == CallModel(world, st, attempt, role, call, validator)
  {
    var g := world.generate(st.log, role, attempt, call);
    st' := st;
    for step := 0 to g.steps
      invariant st' == RecordSteps(st, step, attempt, role, validator)
    {
      st' := RecordCall(st', attempt, role, true, validator);
    }
    raw := g.result;
    if raw.Threw? {
      st' := RecordCall(st', attempt, role, false, validator);
    }
  }

  method RunModelValidation(world: World, st: State, id: string, output: Output, attempt: nat)
    returns (answer: Answer<Verdict>, st': State)
    ensures (answer, st') == RunValidator(world, st, Model(id), output, attempt)
  {
    var call := world.prepareJudge(st.log, id, output, attempt);
    if call.Threw? || !WellFormedCall(call.value) {
      return Threw, st;
    }
    var raw;
    raw, st' := GenerateOnce(world, st, attempt, Judge, call.value, Some(id));
    if raw.Threw? {
      return Threw, st';
    }
    answer := world.judge(st'.log, id, output, raw.value, attempt);
  }

  method ValidateOutput(world: World, st: State, validators: seq<Validator>, output: Output, attempt: nat)
    returns (answer: Answer<Verdict>, st': State)
    ensures (answer, st') == Validate(world, st, validators, output, attempt)
  {
    st' := st;
    for i := 0 to |validators|
      invariant Validate(world, st, validators, output, attempt) == Validate(world, st', validators[i..], output, attempt)
    {
      assert validators[i..][1..] == validators[i + 1..];
      match validators[i] {
        case Check(id) => answer := world.check(st'.log, id, output, attempt);
        case Model(id) => answer, st' := RunModelValidation(world, st', id, output, attempt);
      }
      if answer.Threw? {
        return;
      }
      st' := Append(st', Validated(attempt, validators[i].id, answer.value));
      if answer.value.Fail? {
        return;
      }
    }
    answer := Gave(Pass);
  }

  method RunAttempts(world: World, validators: seq<Validator>, runMax: Option<int>, blockMax: Option<int>)
    returns (outcome: Outcome, st: State)
    ensures (outcome, st) == Run(world, validators, runMax, blockMax)
  {
    st := State([], 0);
    var max := MaxAttempts(runMax, blockMax);
    if max.Threw? {
      return Failed, st;
    }
    var attempts: seq<AttemptRecord> := [];
    var feedback: Feedback := None;
    var lastOutput: Option<Output> := None;
    var attemptIndex := 0;
    while attemptIndex < max.value
      invariant 0 <= attemptIndex <= max.value
      invariant Run(world, validators, runMax, blockMax) ==
        TryUpTo(world, st, validators, attemptIndex + 1, max.value, lastOutput, feedback, attempts)
    {
      var attempt := attemptIndex + 1;
      var call := world.prepareCall(st.log, attempt, feedback);
      st := Append(st, Prepared(attempt, feedback));
      if call.Threw? || !WellFormedCall(call.value) {
        return Failed, st;
      }
      var raw;
      raw, st := GenerateOnce(world, st, attempt, Generate, call.value, None);
      if raw.Threw? {
        return Failed, st;
      }
      st := Append(st, Generated(attempt, raw.value));
      lastOutput := Some(raw.value);
      var verdict;
      verdict, st := ValidateOutput(world, st, validators, raw.value, attempt);
      if verdict.Threw? {
        return Failed, st;
      }
      if verdict.value.Pass? {
        return Succeeded(raw.value), st;
      }
      attempts := attempts + [AttemptRecord(attempt, false, verdict.value.feedback)];
      feedback := verdict.value.feedback;
      attemptIndex := attemptIndex + 1;
    }
    outcome := Refused(lastOutput, feedback, attempts);
  }

  // ---------------------------------------------------------------- numbering of model calls

  function StepIndices(log: Log): (indices: seq<nat>) {
    if log == [] then []
    else
      var last := log[|log| - 1];
      StepIndices(log[..|log| - 1]) + (if last.ModelCall? then [last.stepIndex] else [])
  }

  /** The recorded model calls are numbered 0, 1, 2, ... and the next number is next in line. */
  ghost predicate Numbered(st: State) {
    |StepIndices(st.log)| == st.stepIndex && forall k :: 0 <= k < st.stepIndex ==> StepIndices(st.log)[k] == k
  }

  lemma AppendNumbered(st: State, entry: Entry)
    requires Numbered(st) && !entry.ModelCall?
    ensures Numbered(Append(st, entry))
  {
    assert (st.log + [entry])[..|st.log|] == st.log;
  }

  lemma RecordCallNumbered(st: State, attempt: nat, role: Role, ok: bool, validator: Option<string>)
    requires Numbered(st)
    ensures Numbered(RecordCall(st, attempt, role, ok, validator))
  {
    var log := RecordCall(st, attempt, role, ok, validator).log;
    assert log[..|st.log|] == st.log;
  }

  lemma {:induction false} RecordStepsNumbered(st: State, n: nat, attempt: nat, role: Role, validator: Option<string>)
    requires Numbered(st)
    ensures Numbered(RecordSteps(st, n, attempt, role, validator))
    decreases n
  {
    hide Numbered;
    if n == 0 {
    } else {
      RecordStepsNumbered(st, n - 1, attempt, role, validator);
      RecordCallNumbered(RecordSteps(st, n - 1, attempt, role, validator), attempt, role, true, validator);
    }
  }

  lemma CallModelNumbered(world: World, st: State, attempt: nat, role: Role, call: Call, validator: Option<string>)
    requires Numbered(st)
    ensures Numbered(CallModel(world, st, attempt, role, call, validator).1)
  {
    hide Numbered;
    var g := world.generate(st.log, role, attempt, call);
    RecordStepsNumbered(st, g.steps, attempt, role, validator);
    RecordCallNumbered(RecordSteps(st, g.steps, attempt, role, validator), attempt, role, false, validator);
  }

  lemma RunValidatorNumbered(world: World, st: State, v: Validator, output: Output, attempt: nat)
    requires Numbered(st)
    ensures Numbered(RunValidator(world, st, v, output, attempt).1)
  {
    hide Numbered;
    if v.Model? {
      var call := world.prepareJudge(st.log, v.id, output, attempt);
      if call.Gave? { CallModelNumbered(world, st, attempt, Judge, call.value, Some(v.id)); }
    }
  }

  lemma {:induction false} ValidateNumbered(world: World, st: State, validators: seq<Validator>, output: Output, attempt: nat)
    requires Numbered(st)
    ensures Numbered(Validate(world, st, validators, output, attempt).1)
    decreases |validators|
  {
    hide Numbered;
    if validators == [] {
    } else {
      RunValidatorNumbered(world, st, validators[0], output, attempt);
      var (answer, st1) := RunValidator(world, st, validators[0], output, attempt);
      if answer.Gave? {
        var entry := Validated(attempt, validators[0].id, answer.value);
        AppendNumbered(st1, entry);
        ValidateNumbered(world, Append(st1, entry), validators[1..], output, attempt);
      }
    }
  }

  lemma TryOnceNumbered(world: World, st: State, validators: seq<Validator>, attempt: nat, feedback: Feedback)
    requires Numbered(st)
    ensures Numbered(TryOnce(world, st, validators, attempt, feedback).1)
  {
    hide Numbered, Validate, CallModel;
    var call := world.prepareCall(st.log, attempt, feedback);
    var st0 := Append(st, Prepared(attempt, feedback));
    AppendNumbered(st, Prepared(attempt, feedback));
    if call.Gave? {
      CallModelNumbered(world, st0, attempt, Generate, call.value, None);
      var (raw, st1) := CallModel(world, st0, attempt, Generate, call.value, None);
      if raw.Gave? {
        AppendNumbered(st1, Generated(attempt, raw.value));
        ValidateNumbered(world, Append(st1, Generated(attempt, raw.value)), validators, raw.value, attempt);
      }
    }
  }

  lemma {:induction false} TryUpToNumbered(world: World, st: State, validators: seq<Validator>, first: nat, max: nat,
                                           last: Option<Output>, feedback: Feedback, attempts: seq<AttemptRecord>)
    requires Numbered(st) && first <= max + 1
    ensures Numbered(TryUpTo(world, st, validators, first, max, last, feedback, attempts).1)
    decreases max + 1 - first
  {
    hide Numbered, TryOnce;
    if first <= max {
      TryOnceNumbered(world, st, validators, first, feedback);
      var (answer, st1) := TryOnce(world, st, validators, first, feedback);
      if answer.Gave? && answer.value.1.Fail? {
        var why := answer.value.1.feedback;
        TryUpToNumbered(world, st1, validators, first + 1, max, Some(answer.value.0), why,
          attempts + [AttemptRecord(first, false, why)]);
      }
    }
  }

  /** Across attempts, judges and errors, the model calls a run records are numbered 0 to n-1. */
  lemma ModelCallsAreNumbered(world: World, validators: seq<Validator>, runMax: Option<int>, blockMax: Option<int>)
    ensures
      var st := Run(world, validators, runMax, blockMax).1;
      forall k :: 0 <= k < |StepIndices(st.log)| ==> StepIndices(st.log)[k] == k
  {
    hide TryUpTo;
    var max := MaxAttempts(runMax, blockMax);
    if max.Gave? { TryUpToNumbered(world, State([], 0), validators, 1, max.value, None, None, []); }
  }

  // ---------------------------------------------------------------- what the log shows

  /** A completed attempt as the log shows it. */
  datatype Round = Round(attempt: nat, feedback: Feedback, output: Output, verdicts: seq<Verdict>)

  /** Everything but the model calls. */
  function Milestones(log: Log): Log {
    if log == [] then []
    else
      var last := log[|log| - 1];
      Milestones(log[..|log| - 1]) + (if last.ModelCall? then [] else [last])
  }

  function Validations(attempt: nat, validators: seq<Validator>, verdicts: seq<Verdict>): (entries: Log)
    requires |verdicts| <= |validators|
  {
    seq(|verdicts|, k requires 0 <= k < |verdicts| => Validated(attempt, validators[k].id, verdicts[k]))
  }

  function RoundMilestones(validators: seq<Validator>, r: Round): (entries: Log)
    requires |r.verdicts| <= |validators|
  {
    [Prepared(r.attempt, r.feedback), Generated(r.attempt, r.output)] + Validations(r.attempt, validators, r.verdicts)
  }

  /** All validators ran, in order, and passed. */
  ghost predicate Accepts(validators: seq<Validator>, verdicts: seq<Verdict>) {
    |verdicts| == |validators| && forall k :: 0 <= k < |verdicts| ==> verdicts[k] == Pass
  }

  /** Validators ran in order up to the first failure, whose feedback is why. */
  ghost predicate FailsWith(validators: seq<Validator>, verdicts: seq<Verdict>, why: Feedback) {
    && 0 < |verdicts| <= |validators|
    && (forall k :: 0 <= k < |verdicts| - 1 ==> verdicts[k] == Pass)
    && verdicts[|verdicts| - 1] == Fail(why)
  }

  /** The verdict of a whole validation is explained by the verdicts along the way. */
  ghost predicate Explains(validators: seq<Validator>, verdicts: seq<Verdict>, verdict: Verdict) {
    match verdict
    case Pass => Accepts(validators, verdicts)
    case Fail(why) => FailsWith(validators, verdicts, why)
  }

  lemma MilestonesPush(log: Log, entry: Entry)
    ensures Milestones(log + [entry]) == Milestones(log) + (if entry.ModelCall? then [] else [entry])
  {
    assert (log + [entry])[..|log|] == log;
  }

  lemma {:induction false} CallModelMilestones(world: World, st: State, attempt: nat, role: Role, call: Call, validator: Option<string>)
    ensures Milestones(CallModel(world, st, attempt, role, call, validator).1.log) == Milestones(st.log)
  {
    var g := world.generate(st.log, role, attempt, call);
    StepsMilestones(st, g.steps, attempt, role, validator);
    var st1 := RecordSteps(st, g.steps, attempt, role, validator);
    MilestonesPush(st1.log, ModelCall(st1.stepIndex, attempt, role, false, validator));
  }

  lemma {:induction false} StepsMilestones(st: State, n: nat, attempt: nat, role: Role, validator: Option<string>)
    ensures Milestones(RecordSteps(st, n, attempt, role, validator).log) == Milestones(st.log)
    decreases n
  {
    if n == 0 {
    } else {
      StepsMilestones(st, n - 1, attempt, role, validator);
      var before := RecordSteps(st, n - 1, attempt, role, validator);
      MilestonesPush(before.log, ModelCall(before.stepIndex, attempt, role, true, validator));
    }
  }

  lemma RunValidatorMilestones(world: World, st: State, v: Validator, output: Output, attempt: nat)
    ensures Milestones(RunValidator(world, st, v, output, attempt).1.log) == Milestones(st.log)
  {
    hide Milestones, CallModel;
    if v.Model? {
      var call := world.prepareJudge(st.log, v.id, output, attempt);
      if call.Gave? { CallModelMilestones(world, st, attempt, Judge, call.value, Some(v.id)); }
    }
  }

  lemma {:induction false} ValidateShows(world: World, st: State, validators: seq<Validator>, output: Output, attempt: nat)
    returns (verdicts: seq<Verdict>)
    requires Validate(world, st, validators, output, attempt).0.Gave?
    ensures Explains(validators, verdicts, Validate(world, st, validators, output, attempt).0.value)
    ensures |verdicts| <= |validators|
    ensures Milestones(Validate(world, st, validators, output, attempt).1.log) ==
      Milestones(st.log) + Validations(attempt, validators, verdicts)
    decreases |validators|
  {
    hide Milestones, RunValidator;
    if validators == [] {
      verdicts := [];
      assert Validations(attempt, validators, verdicts) == [];
    } else {
      RunValidatorMilestones(world, st, validators[0], output, attempt);
      var (answer, st1) := RunValidator(world, st, validators[0], output, attempt);
      var entry := Validated(attempt, validators[0].id, answer.value);
      MilestonesPush(st1.log, entry);
      if answer.value.Fail? {
        verdicts := [answer.value];
        assert Validations(attempt, validators, verdicts) == [entry];
      } else {
        var rest := ValidateShows(world, Append(st1, entry), validators[1..], output, attempt);
        verdicts := [answer.value] + rest;
        assert Validations(attempt, validators, verdicts) == [entry] + Validations(attempt, validators[1..], rest);
      }
    }
  }

  lemma TryOnceShows(world: World, st: State, validators: seq<Validator>, attempt: nat, feedback: Feedback)
    returns (r: Round)
    requires TryOnce(world, st, validators, attempt, feedback).0.Gave?
    ensures
      var (answer, st1) := TryOnce(world, st, validators, attempt, feedback);
      && r.attempt == attempt && r.feedback == feedback && r.output == answer.value.0
      && |r.verdicts| <= |validators| && Explains(validators, r.verdicts, answer.value.1)
      && Milestones(st1.log) == Milestones(st.log) + RoundMilestones(validators, r)
  {
    hide Milestones, CallModel, Validate, Explains, Validations;
    var call := world.prepareCall(st.log, attempt, feedback);
    var st0 := Append(st, Prepared(attempt, feedback));
    MilestonesPush(st.log, Prepared(attempt, feedback));
    CallModelMilestones(world, st0, attempt, Generate, call.value, None);
    var (raw, st1) := CallModel(world, st0, attempt, Generate, call.value, None);
    MilestonesPush(st1.log, Generated(attempt, raw.value));
    var verdicts := ValidateShows(world, Append(st1, Generated(attempt, raw.value)), validators, raw.value, attempt);
    r := Round(attempt, feedback, raw.value, verdicts);
  }

  /** Attempts first, first + 1, ... that all failed, each given the feedback of the one before. */
  ghost predicate FailedRounds(validators: seq<Validator>, rounds: seq<Round>, first: nat, feedback: Feedback, after: Feedback)
    decreases |rounds|
  {
    if rounds == [] then after == feedback
    else
      var r := rounds[0];
      && r.attempt == first && r.feedback == feedback
      && |r.verdicts| > 0 && r.verdicts[|r.verdicts| - 1].Fail?
      && FailsWith(validators, r.verdicts, r.verdicts[|r.verdicts| - 1].feedback)
      && FailedRounds(validators, rounds[1..], first + 1, r.verdicts[|r.verdicts| - 1].feedback, after)
  }

  function AllMilestones(validators: seq<Validator>, rounds: seq<Round>): (entries: Log)
    requires forall k :: 0 <= k < |rounds| ==> |rounds[k].verdicts| <= |validators|
  {
    if rounds == [] then [] else RoundMilestones(validators, rounds[0]) + AllMilestones(validators, rounds[1..])
  }

  function Records(rounds: seq<Round>): (records: seq<AttemptRecord>) {
    seq(|rounds|, k requires 0 <= k < |rounds| => AttemptRecord(rounds[k].attempt, false, Why(rounds[k])))
  }

  function Why(r: Round): Feedback {
    if r.verdicts != [] && r.verdicts[|r.verdicts| - 1].Fail? then r.verdicts[|r.verdicts| - 1].feedback else None
  }

  /** How the run ended, read off the failed rounds and, on success, the accepted one. */
  ghost predicate EndsAs(validators: seq<Validator>, outcome: Outcome, failed: seq<Round>, accepted: Option<Round>,
                         first: nat, max: nat, last: Option<Output>, feedback: Feedback, after: Feedback, attempts: seq<AttemptRecord>) {
    match outcome
    case Succeeded(output) =>
      && accepted.Some? && first + |failed| <= max
      && accepted.value.attempt == first + |failed| && accepted.value.feedback == after
      && accepted.value.output == output && Accepts(validators, accepted.value.verdicts)
    case Refused(lastOutput, finalFeedback, history) =>
      && accepted.None? && first + |failed| == max + 1
      && finalFeedback == after && history == attempts + Records(failed)
      && lastOutput == if failed == [] then last else Some(failed[|failed| - 1].output)
    case Failed => accepted.None? && first + |failed| <= max
  }

  lemma {:induction false} TryUpToShows(world: World, st: State, validators: seq<Validator>, first: nat, max: nat,
                                        last: Option<Output>, feedback: Feedback, attempts: seq<AttemptRecord>)
    returns (failed: seq<Round>, accepted: Option<Round>, after: Feedback)
    requires first <= max + 1
    ensures FailedRounds(validators, failed, first, feedback, after)
    ensures forall k :: 0 <= k < |failed| ==> |failed[k].verdicts| <= |validators|
    ensures
      var (outcome, st') := TryUpTo(world, st, validators, first, max, last, feedback, attempts);
      && EndsAs(validators, outcome, failed, accepted, first, max, last, feedback, after, attempts)
      && (!outcome.Failed? ==>
           Milestones(st'.log) == Milestones(st.log) + AllMilestones(validators, failed)
             + (if accepted.Some? then RoundMilestones(validators, accepted.value) else []))
    decreases max + 1 - first
  {
    hide Milestones, TryOnce, RoundMilestones;
    failed, accepted, after := [], None, feedback;
    if first <= max {
      var (answer, st1) := TryOnce(world, st, validators, first, feedback);
      if answer.Gave? {
        var r := TryOnceShows(world, st, validators, first, feedback);
        if answer.value.1.Pass? {
          accepted := Some(r);
        } else {
          var why := answer.value.1.feedback;
          var rest;
          rest, accepted, after := TryUpToShows(world, st1, validators, first + 1, max, Some(r.output), why,
            attempts + [AttemptRecord(first, false, why)]);
          failed := [r] + rest;
          assert failed[1..] == rest;
          OneMoreFailure(validators, TryUpTo(world, st, validators, first, max, last, feedback, attempts).0,
            r, rest, accepted, first, max, last, feedback, after, attempts);
        }
      }
    }
  }

  /** A failed attempt before a run that ends some way makes a longer run that ends that way. */
  lemma OneMoreFailure(validators: seq<Validator>, outcome: Outcome, r: Round, rest: seq<Round>, accepted: Option<Round>,
                       first: nat, max: nat, last: Option<Output>, feedback: Feedback, after: Feedback, attempts: seq<AttemptRecord>)
    requires r.attempt == first && r.verdicts != [] && r.verdicts[|r.verdicts| - 1].Fail?
    requires EndsAs(validators, outcome, rest, accepted, first + 1, max, Some(r.output),
      Why(r), after, attempts + [AttemptRecord(first, false, Why(r))])
    ensures EndsAs(validators, outcome, [r] + rest, accepted, first, max, last, feedback, after, attempts)
  {
    hide Accepts;
    assert Records([r] + rest) == [AttemptRecord(first, false, Why(r))] + Records(rest);
  }

  /** The run as its log shows it: failed attempts 1, 2, ..., each prepared with the first failing
      feedback of the one before; success exactly with the first output all validators pass;
      refusal exactly when every allowed attempt failed. */
  lemma RunShows(world: World, validators: seq<Validator>, runMax: Option<int>, blockMax: Option<int>)
    returns (failed: seq<Round>, accepted: Option<Round>, after: Feedback)
    requires MaxAttempts(runMax, blockMax).Gave?
    ensures FailedRounds(validators, failed, 1, None, after)
    ensures forall k :: 0 <= k < |failed| ==> |failed[k].verdicts| <= |validators|
    ensures
      var max := MaxAttempts(runMax, blockMax).value;
      var (outcome, st) := Run(world, validators, runMax, blockMax);
      && (outcome.Refused? <==> |failed| == max)
      && (outcome.Succeeded? <==> accepted.Some?)
      && EndsAs(validators, outcome, failed, accepted, 1, max, None, None, after, [])
      && (!outcome.Failed? ==>
           Milestones(st.log) == AllMilestones(validators, failed)
             + (if accepted.Some? then RoundMilestones(validators, accepted.value) else []))
  {
    hide TryUpTo, RoundMilestones, AllMilestones;
    var max := MaxAttempts(runMax, blockMax).value;
    failed, accepted, after := TryUpToShows(world, State([], 0), validators, 1, max, None, None, []);
  }
}
