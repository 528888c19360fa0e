/** Nothing in a run's log is made up: each output and each verdict is what the agent and the validators
    answered at that point, and a run fails only where one of them threw. */
module AttemptsTrace {
  import opened Common
  import opened Attempts

  /** A run sets the number of attempts, or else its block, or else it is 3; less than one throws. */
  lemma MaximumExactly(run: Option<int>, block: Option<int>)
    ensures
      var max := match (run, block) { case (Some(n), _) => n case (None, Some(n)) => n case (None, None) => 3 };
      MaxAttempts(run, block) == if max < 1 then Threw else Gave(max)
  {}

  // ---------------------------------------------------------------- what justifies an entry

  /** Successful model calls of one role. */
  predicate AreSteps(entries: Log, attempt: nat, role: Role, validator: Option<string>) {
    forall k :: 0 <= k < |entries| ==>
      && entries[k].ModelCall? && entries[k].attempt == attempt && entries[k].role == role
      && entries[k].ok && entries[k].validator == validator
  }

  /** The output under validation. */
  function LatestOutput(log: Log): Option<(nat, Output)> {
    if log == [] then None
    else
      var last := log[|log| - 1];
      if last.Generated? then Some((last.attempt, last.output)) else LatestOutput(log[..|log| - 1])
  }

  predicate IsGiven(answer: Answer<Call>) {
    answer.Gave? && (answer.value.prompt.Some? != answer.value.messages.Some?)
  }

  /** The call prepared at p with that feedback made the agent report as many steps as were recorded since,
      and then give an output, or throw. */
  ghost predicate GeneratedFrom(world: World, before: Log, attempt: nat, result: Answer<Output>, p: nat, feedback: Feedback) {
    && p < |before| && before[p] == Prepared(attempt, feedback)
    && AreSteps(before[p + 1..], attempt, Generate, None)
    && IsGiven(world.prepareCall(before[..p], attempt, feedback))
    && world.generate(before[..p + 1], Generate, attempt, world.prepareCall(before[..p], attempt, feedback).value)
       == Generation(|before| - p - 1, result)
  }

  /** The judge call prepared at m about the latest output made the agent report as many steps as were
      recorded since, and then give a judgement, or throw. */
  ghost predicate JudgedFrom(world: World, before: Log, id: string, attempt: nat, result: Answer<Output>, m: nat) {
    && m <= |before| && AreSteps(before[m..], attempt, Judge, Some(id))
    && LatestOutput(before).Some? && LatestOutput(before).value.0 == attempt
    && var call := world.prepareJudge(before[..m], id, LatestOutput(before).value.1, attempt);
       IsGiven(call) && world.generate(before[..m], Judge, attempt, call.value) == Generation(|before| - m, result)
  }

  /** Asked about the latest output, the validator answered so: a check by itself, a model validator by what
      it makes of a judgement. */
  ghost predicate Answers(world: World, before: Log, v: Validator, attempt: nat, answer: Answer<Verdict>) {
    && LatestOutput(before).Some? && LatestOutput(before).value.0 == attempt
    && var output := LatestOutput(before).value.1;
       match v
       case Check(id) => answer == world.check(before, id, output, attempt)
       case Model(id) =>
         exists raw, m: nat ::
           JudgedFrom(world, before, id, attempt, Gave(raw), m) && answer == world.judge(before, id, output, raw, attempt)
  }

  ghost predicate IsJustified(world: World, validators: seq<Validator>, before: Log, entry: Entry) {
    match entry
    case Generated(attempt, output) => exists p: nat, feedback :: GeneratedFrom(world, before, attempt, Gave(output), p, feedback)
    case Validated(attempt, id, verdict) =>
      exists v :: v in validators && v.id == id && Answers(world, before, v, attempt, Gave(verdict))
    case _ => true
  }

  ghost predicate Justified(world: World, validators: seq<Validator>, log: Log) {
    forall k :: 0 <= k < |log| ==> IsJustified(world, validators, log[..k], log[k])
  }

  lemma JustifiedPush(world: World, validators: seq<Validator>, log: Log, entry: Entry)
    requires Justified(world, validators, log) && IsJustified(world, validators, log, entry)
    ensures Justified(world, validators, log + [entry])
  {
    hide IsJustified;
    forall k | 0 <= k < |log| + 1 ensures IsJustified(world, validators, (log + [entry])[..k], (log + [entry])[k]) {
      assert (log + [entry])[..k] == log[..k];
      if k == |log| { assert log[..k] == log; }
    }
  }

  // ---------------------------------------------------------------- what a failure is

  /** Preparing the last attempt threw or gave a call that is neither a prompt nor messages, or both. */
  ghost predicate PreparationBroke(world: World, log: Log) {
    && log != [] && log[|log| - 1].Prepared?
    && !IsGiven(world.prepareCall(log[..|log| - 1], log[|log| - 1].attempt, log[|log| - 1].feedback))
  }

  /** The last model call, of the agent or of a judge, threw, and was recorded as such. */
  ghost predicate ModelCallBroke(world: World, validators: seq<Validator>, log: Log) {
    && log != [] && log[|log| - 1].ModelCall? && !log[|log| - 1].ok
    && var (before, last) := (log[..|log| - 1], log[|log| - 1]);
       match last.validator
       case None => last.role == Generate && exists p: nat, feedback :: GeneratedFrom(world, before, last.attempt, Threw, p, feedback)
       case Some(id) =>
         && last.role == Judge && Model(id) in validators
         && exists m: nat :: JudgedFrom(world, before, id, last.attempt, Threw, m)
  }

  /** A validator threw: a check or a judge when asked, or a model validator while its call was prepared. */
  ghost predicate ValidatorBroke(world: World, validators: seq<Validator>, log: Log) {
    || (exists v, attempt :: v in validators && Answers(world, log, v, attempt, Threw))
    || (exists v, attempt, output ::
          && v in validators && v.Model? && LatestOutput(log) == Some((attempt, output))
          && !IsGiven(world.prepareJudge(log, v.id, output, attempt)))
  }

  ghost predicate Broke(world: World, validators: seq<Validator>, log: Log) {
    PreparationBroke(world, log) || ModelCallBroke(world, validators, log) || ValidatorBroke(world, validators, log)
  }

  // ---------------------------------------------------------------- following the run

  lemma LatestPush(log: Log, entry: Entry)
    ensures LatestOutput(log + [entry]) ==
      if entry.Generated? then Some((entry.attempt, entry.output)) else LatestOutput(log)
  {
    assert (log + [entry])[..|log|] == log;
  }

  lemma {:induction false} StepsAppended(world: World, validators: seq<Validator>, st: State, n: nat, attempt: nat, role: Role,
                                         validator: Option<string>)
    requires Justified(world, validators, st.log)
    ensures
      var log := RecordSteps(st, n, attempt, role, validator).log;
      && |log| == |st.log| + n && log[..|st.log|] == st.log && AreSteps(log[|st.log|..], attempt, role, validator)
      && LatestOutput(log) == LatestOutput(st.log) && Justified(world, validators, log)
    decreases n
  {
    hide Justified, LatestOutput;
    if n == 0 {
      assert st.log[|st.log|..] == [];
    } else {
      StepsAppended(world, validators, st, n - 1, attempt, role, validator);
      var before := RecordSteps(st, n - 1, attempt, role, validator);
      var entry := ModelCall(before.stepIndex, attempt, role, true, validator);
      LatestPush(before.log, entry);
      JustifiedPush(world, validators, before.log, entry);
    }
  }

  lemma CallModelAppends(world: World, validators: seq<Validator>, st: State, attempt: nat, role: Role, call: Call,
                         validator: Option<string>)
    requires Justified(world, validators, st.log)
    ensures
      var (raw, st1) := CallModel(world, st, attempt, role, call, validator);
      && Justified(world, validators, st1.log) && LatestOutput(st1.log) == LatestOutput(st.log)
      && var n := world.generate(st.log, role, attempt, call).steps;
         && world.generate(st.log, role, attempt, call) == Generation(n, raw)
         && |st1.log| == |st.log| + n + (if raw.Threw? then 1 else 0)
         && st1.log[..|st.log|] == st.log && AreSteps(st1.log[|st.log|..|st.log| + n], attempt, role, validator)
         && LatestOutput(st1.log[..|st.log| + n]) == LatestOutput(st.log)
         && (raw.Threw? ==>
              var last := st1.log[|st1.log| - 1];
              && last.ModelCall? && !last.ok && last.role == role && last.attempt == attempt
              && last.validator == validator)
  {
    hide Justified, LatestOutput;
    var g := world.generate(st.log, role, attempt, call);
    StepsAppended(world, validators, st, g.steps, attempt, role, validator);
    var st1 := RecordSteps(st, g.steps, attempt, role, validator);
    var entry := ModelCall(st1.stepIndex, attempt, role, false, validator);
    LatestPush(st1.log, entry);
    JustifiedPush(world, validators, st1.log, entry);
    assert st1.log[..|st1.log|] == st1.log && (st1.log + [entry])[..|st1.log|] == st1.log;
    assert (st1.log + [entry])[..|st.log|] == st1.log[..|st.log|];
    assert (st1.log + [entry])[|st.log|..|st1.log|] == st1.log[|st.log|..];
  }

  lemma RunValidatorJustified(world: World, validators: seq<Validator>, st: State, v: Validator, output: Output, attempt: nat)
    requires Justified(world, validators, st.log) && v in validators && LatestOutput(st.log) == Some((attempt, output))
    ensures
      var (answer, st1) := RunValidator(world, st, v, output, attempt);
      && Justified(world, validators, st1.log) && LatestOutput(st1.log) == Some((attempt, output))
      && (answer.Gave? ==> IsJustified(world, validators, st1.log, Validated(attempt, v.id, answer.value)))
      && (answer.Threw? ==> Broke(world, validators, st1.log))
  {
    hide Justified, LatestOutput, CallModel;
    var (answer, st1) := RunValidator(world, st, v, output, attempt);
    match v
    case Check(id) =>
      assert Answers(world, st.log, v, attempt, answer);
    case Model(id) =>
      var call := world.prepareJudge(st.log, id, output, attempt);
      if IsGiven(call) {
        CallModelAppends(world, validators, st, attempt, Judge, call.value, Some(id));
        var (raw, st2) := CallModel(world, st, attempt, Judge, call.value, Some(id));
        if raw.Gave? {
          assert st2.log[|st.log|..] == st2.log[|st.log|..|st2.log|];
          assert JudgedFrom(world, st2.log, id, attempt, raw, |st.log|);
          assert Answers(world, st2.log, v, attempt, answer);
        } else {
          JudgeThrew(world, st2.log, id, attempt, |st.log|);
        }
      }
  }

  lemma JudgeThrew(world: World, log: Log, id: string, attempt: nat, m: nat)
    requires m < |log| && LatestOutput(log[..|log| - 1]).Some? && LatestOutput(log[..|log| - 1]).value.0 == attempt
    requires AreSteps(log[m..|log| - 1], attempt, Judge, Some(id))
    requires
      var call := world.prepareJudge(log[..m], id, LatestOutput(log[..|log| - 1]).value.1, attempt);
      IsGiven(call) && world.generate(log[..m], Judge, attempt, call.value) == Generation(|log| - 1 - m, Threw)
    ensures JudgedFrom(world, log[..|log| - 1], id, attempt, Threw, m)
  {
    hide LatestOutput;
    var before := log[..|log| - 1];
    assert before[m..] == log[m..|log| - 1] && before[..m] == log[..m];
  }

  lemma {:induction false} ValidateJustified(world: World, all: seq<Validator>, st: State, validators: seq<Validator>,
                                             output: Output, attempt: nat)
    requires Justified(world, all, st.log) && LatestOutput(st.log) == Some((attempt, output))
    requires forall v :: v in validators ==> v in all
    ensures
      var (answer, st1) := Validate(world, st, validators, output, attempt);
      Justified(world, all, st1.log) && (answer.Threw? ==> Broke(world, all, st1.log))
    decreases |validators|
  {
    hide Justified, LatestOutput, RunValidator, IsJustified, Broke;
    if validators == [] {
    } else {
      RunValidatorJustified(world, all, st, validators[0], output, attempt);
      var (answer, st1) := RunValidator(world, st, validators[0], output, attempt);
      if answer.Gave? {
        var entry := Validated(attempt, validators[0].id, answer.value);
        JustifiedPush(world, all, st1.log, entry);
        LatestPush(st1.log, entry);
        ValidateJustified(world, all, Append(st1, entry), validators[1..], output, attempt);
      }
    }
  }

  lemma TryOnceJustified(world: World, st: State, validators: seq<Validator>, attempt: nat, feedback: Feedback)
    requires Justified(world, validators, st.log)
    ensures
      var (answer, st1) := TryOnce(world, st, validators, attempt, feedback);
      Justified(world, validators, st1.log) && (answer.Threw? ==> Broke(world, validators, st1.log))
  {
    hide Justified, LatestOutput, CallModel, Validate, ValidatorBroke, AreSteps;
    var call := world.prepareCall(st.log, attempt, feedback);
    var st0 := Append(st, Prepared(attempt, feedback));
    JustifiedPush(world, validators, st.log, Prepared(attempt, feedback));
    assert st0.log[..|st.log|] == st.log;
    if IsGiven(call) {
      CallModelAppends(world, validators, st0, attempt, Generate, call.value, None);
      var (raw, st1) := CallModel(world, st0, attempt, Generate, call.value, None);
      var n := |st0.log| + world.generate(st0.log, Generate, attempt, call.value).steps;
      GeneratedAt(world, st.log, st1.log[..n], attempt, feedback, raw);
      if raw.Gave? {
        assert st1.log[..n] == st1.log;
        JustifiedPush(world, validators, st1.log, Generated(attempt, raw.value));
        LatestPush(st1.log, Generated(attempt, raw.value));
        ValidateJustified(world, validators, Append(st1, Generated(attempt, raw.value)), validators, raw.value, attempt);
      }
    }
  }

  lemma GeneratedAt(world: World, start: Log, before: Log, attempt: nat, feedback: Feedback, raw: Answer<Output>)
    requires IsGiven(world.prepareCall(start, attempt, feedback))
    requires |start| < |before| && before[..|start| + 1] == start + [Prepared(attempt, feedback)]
    requires AreSteps(before[|start| + 1..], attempt, Generate, None)
    requires world.generate(start + [Prepared(attempt, feedback)], Generate, attempt,
      world.prepareCall(start, attempt, feedback).value) == Generation(|before| - |start| - 1, raw)
    ensures GeneratedFrom(world, before, attempt, raw, |start|, feedback)
  {
    assert before[..|start|] == before[..|start| + 1][..|start|] == start;
    assert before[|start|] == before[..|start| + 1][|start|];
  }

  lemma {:induction false} TryUpToJustified(world: World, st: State, validators: seq<Validator>, first: nat, max: nat,
                                            last: Option<Output>, feedback: Feedback, attempts: seq<AttemptRecord>)
    requires first <= max + 1 && Justified(world, validators, st.log)
    ensures
      var (outcome, st1) := TryUpTo(world, st, validators, first, max, last, feedback, attempts);
      Justified(world, validators, st1.log) && (outcome.Failed? ==> Broke(world, validators, st1.log))
    decreases max + 1 - first
  {
    hide Justified, TryOnce, Broke;
    if first <= max {
      TryOnceJustified(world, st, validators, first, feedback);
      var (answer, st1) := TryOnce(world, st, validators, first, feedback);
      if answer.Gave? && answer.value.1.Fail? {
        var why := answer.value.1.feedback;
        TryUpToJustified(world, st1, validators, first + 1, max, Some(answer.value.0), why,
          attempts + [AttemptRecord(first, false, why)]);
      }
    }
  }

  /** Every output and verdict a run logs is the answer given at that point, to what had happened until
      then; and a run fails only if its number of attempts is less than one or something it asked threw. */
  lemma RunIsJustified(world: World, validators: seq<Validator>, runMax: Option<int>, blockMax: Option<int>)
    ensures
      var (outcome, st) := Run(world, validators, runMax, blockMax);
      && Justified(world, validators, st.log)
      && (outcome.Failed? ==> MaxAttempts(runMax, blockMax).Threw? || Broke(world, validators, st.log))
  {
    hide TryUpTo, Broke;
    var max := MaxAttempts(runMax, blockMax);
    if max.Gave? { TryUpToJustified(world, State([], 0), validators, 1, max.value, None, None, []); }
  }
}
