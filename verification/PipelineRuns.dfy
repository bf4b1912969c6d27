/** What every run of a loaded pipeline guarantees, whatever the dispatcher answers. The reference is
    the trace of calls: who answered, and what the answers add up to, is read off the trace alone. */
module PipelineRuns {
  import opened Prelude
  import opened Text
  import opened PipelineLoader
  import opened TieredPipeline

  /** What the dispatcher replied to the last call of a trace. */
  function LastReply(env: Env, calls: seq<Call>): Reply
    requires calls != []
  {
    env.dispatch(calls[..|calls| - 1], calls[|calls| - 1])
  }

  /** How many calls were answered: the number of stages behind us. */
  function Answers(env: Env, calls: seq<Call>): nat {
    if calls == [] then 0
    else Answers(env, calls[..|calls| - 1]) + if LastReply(env, calls).Answer? then 1 else 0
  }

  /** How many calls were made since the last answer. */
  function Trailing(env: Env, calls: seq<Call>): nat {
    if calls == [] || LastReply(env, calls).Answer? then 0 else Trailing(env, calls[..|calls| - 1]) + 1
  }

  /** The bookkeeping that a trace calls for. */
  function Account(env: Env, calls: seq<Call>): Progress {
    if calls == [] then Start()
    else
      var p := Account(env, calls[..|calls| - 1]);
      var call := calls[|calls| - 1];
      match LastReply(env, calls)
      case Answer(text, tokens, cost) =>
        Progress(calls, p.outputs[call.stageName := text], p.modelsUsed[call.stageName := call.model],
                 p.requestedTokens + call.maxTokens, AddTokens(p.totalTokens, tokens), AddCost(p.totalCostUsd, cost))
      case _ => p.(calls := calls)
  }

  /** The candidates a stage may use, in order. */
  function Scoped(env: Env, models: seq<string>): seq<string> {
    if models == [] then []
    else (if InScope(env, models[0]) then [models[0]] else []) + Scoped(env, models[1..])
  }

  /** A reply after which the run may call another model. */
  predicate Continues(reply: Reply) {
    match reply
    case Answer(text, _, _) => !Blank(text)
    case Unavailable(fallbackSafe) => fallbackSafe
    case Crash => false
  }

  /** `call` is the one and only call that may follow the trace `before`: the next in-scope candidate
      of the stage after the answered ones, with that stage's cap, and with a prompt built from the
      answers so far that fits the input limit; and the trace did not end in a failure. */
  ghost predicate Follows(env: Env, original: string, recipe: Recipe, before: seq<Call>, call: Call) {
    var s, t := Answers(env, before), Trailing(env, before);
    && s < |recipe.stages|
    && t < |Scoped(env, recipe.stages[s].models)| && call.model == Scoped(env, recipe.stages[s].models)[t]
    && call.stageName == recipe.stages[s].name && call.maxTokens == recipe.stages[s].maxTokens
    && Some(call.prompt) == StagePrompt(original, recipe.stages[s], Account(env, before).outputs)
    && Utf8Length(call.prompt) <= recipe.maxInputTokens
    && (before != [] ==> Continues(LastReply(env, before)))
  }

  /** No call may follow: the run must stop here. */
  ghost predicate Complete(env: Env, original: string, recipe: Recipe, calls: seq<Call>) {
    forall call :: !Follows(env, original, recipe, calls, call)
  }

  ghost predicate Disciplined(env: Env, original: string, recipe: Recipe, calls: seq<Call>) {
    forall k :: 0 <= k < |calls| ==> Follows(env, original, recipe, calls[..k], calls[k])
  }

  lemma OneMoreCall(env: Env, original: string, recipe: Recipe, calls: seq<Call>, call: Call)
    requires Disciplined(env, original, recipe, calls) && Follows(env, original, recipe, calls, call)
    ensures Disciplined(env, original, recipe, calls + [call])
  {
    hide Follows;
    var longer := calls + [call];
    forall k | 0 <= k < |longer|
      ensures Follows(env, original, recipe, longer[..k], longer[k])
    {
      assert k < |calls| ==> longer[..k] == calls[..k];
      assert k == |calls| ==> longer[..k] == calls;
    }
  }

  lemma AfterCall(env: Env, calls: seq<Call>, call: Call)
    ensures
      var longer, reply := calls + [call], env.dispatch(calls, call);
      && LastReply(env, longer) == reply
      && Answers(env, longer) == Answers(env, calls) + (if reply.Answer? then 1 else 0)
      && Trailing(env, longer) == (if reply.Answer? then 0 else Trailing(env, calls) + 1)
      && (!reply.Answer? ==> Account(env, longer) == Account(env, calls).(calls := longer))
  {
    assert (calls + [call])[..|calls|] == calls;
  }

  lemma AfterAnswer(env: Env, calls: seq<Call>, call: Call)
    requires env.dispatch(calls, call).Answer?
    ensures
      var reply, p := env.dispatch(calls, call), Account(env, calls);
      Account(env, calls + [call]) ==
        Progress(calls + [call], p.outputs[call.stageName := reply.text], p.modelsUsed[call.stageName := call.model],
                 p.requestedTokens + call.maxTokens, AddTokens(p.totalTokens, reply.totalTokens), AddCost(p.totalCostUsd, reply.costUsd))
  {
    assert (calls + [call])[..|calls|] == calls;
  }

  /** In the middle of stage k: `models` are the candidates not yet considered. */
  ghost predicate InStage(env: Env, original: string, recipe: Recipe, k: nat, prompt: string, models: seq<string>, calls: seq<Call>) {
    && k < |recipe.stages| && Answers(env, calls) == k
    && Trailing(env, calls) <= |Scoped(env, recipe.stages[k].models)|
    && Scoped(env, recipe.stages[k].models)[Trailing(env, calls)..] == Scoped(env, models)
    && Some(prompt) == StagePrompt(original, recipe.stages[k], Account(env, calls).outputs)
    && Utf8Length(prompt) <= recipe.maxInputTokens
    && Disciplined(env, original, recipe, calls)
    && (calls != [] ==> Continues(LastReply(env, calls)))
  }

  /** How stage k leaves the trace. */
  ghost predicate StageDone(env: Env, original: string, recipe: Recipe, k: nat, p: Progress, tried: Tried) {
    && k < |recipe.stages|
    && Disciplined(env, original, recipe, tried.calls)
    && (tried.Answered? ==>
          var stage := recipe.stages[k];
          && tried.calls != [] && tried.reply == LastReply(env, tried.calls) && tried.reply.Answer?
          && Answers(env, tried.calls) == k + 1 && Trailing(env, tried.calls) == 0
          && Account(env, tried.calls) ==
               Progress(tried.calls, p.outputs[stage.name := tried.reply.text], p.modelsUsed[stage.name := tried.model],
                        p.requestedTokens + stage.maxTokens,
                        AddTokens(p.totalTokens, tried.reply.totalTokens), AddCost(p.totalCostUsd, tried.reply.costUsd)))
    && (tried.Aborted? ==>
          && tried.error != ConfigError && tried.error != MissingOutput
          && tried.calls != [] && !Continues(LastReply(env, tried.calls)) && !LastReply(env, tried.calls).Answer?
          && tried.error == if LastReply(env, tried.calls).Crash? then DispatcherError else CandidateUnavailable)
    && (tried.Exhausted? ==>
          && Answers(env, tried.calls) == k && Trailing(env, tried.calls) == |Scoped(env, recipe.stages[k].models)|
          && (tried.anyInScope <==> Trailing(env, tried.calls) > 0)
          && (tried.calls != [] ==> Continues(LastReply(env, tried.calls)))
          && Account(env, tried.calls).outputs == p.outputs)
  }

  ghost predicate AllRegistered(env: Env, models: seq<string>) {
    forall i :: 0 <= i < |models| ==> HasBackend(env, models[i])
  }

  /** The next in-scope candidate is the call that may follow. */
  lemma NextFollows(env: Env, original: string, recipe: Recipe, k: nat, prompt: string, models: seq<string>, calls: seq<Call>)
    requires InStage(env, original, recipe, k, prompt, models, calls) && models != [] && InScope(env, models[0])
    ensures Follows(env, original, recipe, calls, Call(models[0], prompt, recipe.stages[k].maxTokens, recipe.stages[k].name))
    ensures Trailing(env, calls) + 1 <= |Scoped(env, recipe.stages[k].models)|
    ensures Scoped(env, recipe.stages[k].models)[Trailing(env, calls) + 1..] == Scoped(env, models[1..])
  {
    hide Disciplined;
    hide StagePrompt;
    hide InScope;
    hide Answers;
    hide Trailing;
    hide Account;
    hide LastReply;
    ScopedSteps(env, models, Scoped(env, recipe.stages[k].models), Trailing(env, calls));
  }

  lemma ScopedSteps(env: Env, models: seq<string>, scoped: seq<string>, t: nat)
    requires models != [] && InScope(env, models[0]) && t <= |scoped| && scoped[t..] == Scoped(env, models)
    ensures t < |scoped| && scoped[t] == models[0] && scoped[t + 1..] == Scoped(env, models[1..])
  {
    hide InScope;
    var rest := Scoped(env, models[1..]);
    assert scoped[t..] == [models[0]] + rest;
    assert scoped[t..][0] == models[0];
    assert scoped[t + 1..] == scoped[t..][1..];
  }

  lemma NextCandidate(env: Env, original: string, recipe: Recipe, k: nat, prompt: string, models: seq<string>, calls: seq<Call>)
    requires InStage(env, original, recipe, k, prompt, models, calls) && models != [] && InScope(env, models[0])
    ensures
      var call := Call(models[0], prompt, recipe.stages[k].maxTokens, recipe.stages[k].name);
      && Disciplined(env, original, recipe, calls + [call])
      && (env.dispatch(calls, call) == Unavailable(true) ==>
            InStage(env, original, recipe, k, prompt, models[1..], calls + [call]))
  {
    hide Disciplined;
    hide StagePrompt;
    hide InScope;
    hide Follows;
    hide Scoped;
    hide Answers;
    hide Trailing;
    hide Account;
    hide LastReply;
    hide Utf8Length;
    var call := Call(models[0], prompt, recipe.stages[k].maxTokens, recipe.stages[k].name);
    NextFollows(env, original, recipe, k, prompt, models, calls);
    OneMoreCall(env, original, recipe, calls, call);
    AfterCall(env, calls, call);
  }

  lemma SkippedCandidate(env: Env, original: string, recipe: Recipe, k: nat, prompt: string, models: seq<string>, calls: seq<Call>)
    requires InStage(env, original, recipe, k, prompt, models, calls) && models != [] && !InScope(env, models[0])
    ensures InStage(env, original, recipe, k, prompt, models[1..], calls)
  {
  }

  lemma NoneLeft(env: Env, original: string, recipe: Recipe, k: nat, prompt: string, calls: seq<Call>)
    requires InStage(env, original, recipe, k, prompt, [], calls)
    ensures Trailing(env, calls) == |Scoped(env, recipe.stages[k].models)|
  {
    assert Scoped(env, []) == [];
  }

  lemma {:induction false} TryIsDisciplined(env: Env, original: string, recipe: Recipe, k: nat, prompt: string,
                                            models: seq<string>, calls: seq<Call>, anyInScope: bool, p: Progress)
    requires InStage(env, original, recipe, k, prompt, models, calls) && AllRegistered(env, models)
    requires p.(calls := calls) == Account(env, calls) && (anyInScope <==> Trailing(env, calls) > 0)
    ensures StageDone(env, original, recipe, k, p, TryModels(env, models, prompt, recipe.stages[k], calls, anyInScope))
    decreases |models|
  {
    hide InScope;
    hide Disciplined;
    hide Answers;
    hide Trailing;
    hide Account;
    hide StagePrompt;
    hide Scoped;
    if models == [] {
      NoneLeft(env, original, recipe, k, prompt, calls);
    } else {
      if !InScope(env, models[0]) {
        SkippedCandidate(env, original, recipe, k, prompt, models, calls);
        TryIsDisciplined(env, original, recipe, k, prompt, models[1..], calls, anyInScope, p);
      } else {
        var call := Call(models[0], prompt, recipe.stages[k].maxTokens, recipe.stages[k].name);
        NextCandidate(env, original, recipe, k, prompt, models, calls);
        AfterCall(env, calls, call);
        if env.dispatch(calls, call) == Unavailable(true) {
          TryIsDisciplined(env, original, recipe, k, prompt, models[1..], calls + [call], true, p);
        } else if env.dispatch(calls, call).Answer? {
          AfterAnswer(env, calls, call);
        }
      }
    }
  }

  /** Between stages k - 1 and k. */
  ghost predicate BetweenStages(env: Env, original: string, recipe: Recipe, k: nat, p: Progress) {
    && k <= |recipe.stages| && p == Account(env, p.calls)
    && Answers(env, p.calls) == k && Trailing(env, p.calls) == 0
    && Disciplined(env, original, recipe, p.calls)
    && (p.calls != [] ==> Continues(LastReply(env, p.calls)))
    && p.outputs.Keys == Names(recipe.stages[..k])
    && p.requestedTokens == RequestedTokens(recipe.stages[..k])
  }

  lemma UpstreamIsThere(recipe: Recipe, k: nat, p: Progress)
    requires k < |recipe.stages| && StageOk(recipe.stages, k) && p.outputs.Keys == Names(recipe.stages[..k])
    ensures recipe.stages[k].inputFrom.Some? ==> recipe.stages[k].inputFrom.value in p.outputs
  {
    if recipe.stages[k].inputFrom.Some? {
      var j :| 0 <= j < k && recipe.stages[j].name == recipe.stages[k].inputFrom.value;
      assert recipe.stages[..k][j] in recipe.stages[..k];
    }
  }

  lemma OneMoreStage(recipe: Recipe, k: nat)
    requires k < |recipe.stages|
    ensures Names(recipe.stages[..k + 1]) == Names(recipe.stages[..k]) + {recipe.stages[k].name}
    ensures RequestedTokens(recipe.stages[..k + 1]) == RequestedTokens(recipe.stages[..k]) + recipe.stages[k].maxTokens
  {
    assert recipe.stages[..k + 1] == recipe.stages[..k] + [recipe.stages[k]];
    assert recipe.stages[..k + 1][..k] == recipe.stages[..k];
  }

  /** The error a stopped run answers, by its trace: the failure of its last call, or else what kept the
      current stage from making one. */
  ghost predicate ErrorFits(env: Env, original: string, recipe: Recipe, calls: seq<Call>, error: PipelineError) {
    if calls != [] && !Continues(LastReply(env, calls)) then
      match LastReply(env, calls)
      case Unavailable(_) => error == CandidateUnavailable
      case Crash => error == DispatcherError
      case Answer(_, _, _) => error == ExecutionError
    else
      var s, t := Answers(env, calls), Trailing(env, calls);
      && s < |recipe.stages|
      && var prompt := StagePrompt(original, recipe.stages[s], Account(env, calls).outputs);
      && prompt.Some?
      && error ==
           if t == 0 && Utf8Length(prompt.value) > recipe.maxInputTokens then PolicyError
           else if Scoped(env, recipe.stages[s].models) == [] then ApprovalError
           else ExecutionError
  }

  ghost predicate StatusOk(env: Env, original: string, recipe: Recipe, k: nat, status: Status) {
    match status
    case Going(p) => BetweenStages(env, original, recipe, k, p)
    case Stopped(calls, error) =>
      && Disciplined(env, original, recipe, calls) && Complete(env, original, recipe, calls)
      && error != MissingOutput && error != ConfigError && ErrorFits(env, original, recipe, calls, error)
  }

  lemma StageIsDisciplined(env: Env, original: string, recipe: Recipe, k: nat, p: Progress)
    requires k < |recipe.stages| && StageOk(recipe.stages, k) && AllRegistered(env, recipe.stages[k].models)
    requires BetweenStages(env, original, recipe, k, p)
    ensures StatusOk(env, original, recipe, k + 1, RunStage(env, original, recipe.maxInputTokens, recipe.stages[k], p))
  {
    hide TryModels;
    hide Disciplined;
    hide Answers;
    hide Trailing;
    hide Account;
    hide Scoped;
    hide RequestedTokens;
    hide Names;
    hide Utf8Length;
    var stage := recipe.stages[k];
    UpstreamIsThere(recipe, k, p);
    OneMoreStage(recipe, k);
    var prompt := StagePrompt(original, stage, p.outputs);
    if prompt.Some? && Utf8Length(prompt.value) <= recipe.maxInputTokens {
      assert Scoped(env, stage.models)[0..] == Scoped(env, stage.models);
      TryIsDisciplined(env, original, recipe, k, prompt.value, stage.models, p.calls, false, p);
    }
  }

  lemma {:induction false} StagesAreDisciplined(env: Env, original: string, recipe: Recipe, k: nat, p: Progress)
    requires k <= |recipe.stages| && BetweenStages(env, original, recipe, k, p)
    requires forall i :: k <= i < |recipe.stages| ==> StageOk(recipe.stages, i) && AllRegistered(env, recipe.stages[i].models)
    ensures StatusOk(env, original, recipe, |recipe.stages|, RunStages(env, original, recipe.maxInputTokens, recipe.stages[k..], p))
    decreases |recipe.stages| - k
  {
    hide RunStage;
    hide BetweenStages;
    hide StageOk;
    hide AllRegistered;
    if k < |recipe.stages| {
      StageIsDisciplined(env, original, recipe, k, p);
      assert recipe.stages[k..][1..] == recipe.stages[k + 1..];
      var status := RunStage(env, original, recipe.maxInputTokens, recipe.stages[k], p);
      if status.Going? {
        StagesAreDisciplined(env, original, recipe, k + 1, status.progress);
      }
    }
  }

  lemma StartIsBetween(env: Env, original: string, recipe: Recipe)
    ensures BetweenStages(env, original, recipe, 0, Start())
  {
    assert Names(recipe.stages[..0]) == {};
  }

  lemma LoadedCandidates(models: Aliases, runner: Runner, name: string, env: Env)
    requires RunnerOk(models, runner) && name in runner.recipes && env.backends == runner.backends
    ensures
      var recipe := runner.recipes[name];
      forall i :: 0 <= i < |recipe.stages| ==> StageOk(recipe.stages, i) && AllRegistered(env, recipe.stages[i].models)
  {
    hide StageOk;
    var recipe := runner.recipes[name];
    assert WellFormed(models, recipe);
    forall i | 0 <= i < |recipe.stages|
      ensures AllRegistered(env, recipe.stages[i].models)
    {
      assert FromAlias(models, recipe.stages[i].models);
      var alias :| alias in models && models[alias] == recipe.stages[i].models;
      assert forall j :: 0 <= j < |models[alias]| ==> models[alias][j] in models[alias];
    }
  }

  /** The approval as the source asks for it. */
  ghost predicate Authorizes(a: Option<Approval>, revoked: set<string>, now: real, recipe: Recipe) {
    && a.Some? && a.value.traceId !in revoked && a.value.expiresAt.At? && a.value.expiresAt.time > now
    && Strip(a.value.traceId) != "" && Strip(a.value.approvedBy) != "" && Strip(a.value.purpose) != ""
    && a.value.recipe == recipe.name && a.value.routeTier == 5 && a.value.scope != []
    && a.value.maxTokens >= recipe.maxTotalTokens && a.value.maxCostUsd >= recipe.costReservationUsd
  }

  /** Why a run is refused before its first stage: the first check that fails says so. */
  lemma RefusalsInOrder(runner: Runner, r: RunRequest, dispatch: (seq<Call>, Call) -> Reply)
    ensures
      var refused := RunPipeline(runner, r, dispatch);
      if !r.enabled then refused == (Err(DisabledError), [])
      else if Strip(r.prompt) == "" then refused == (Err(EmptyPrompt), [])
      else if r.recipeName !in runner.recipes then refused == (Err(ConfigError), [])
      else if !Authorizes(r.approval, r.revoked, r.now, runner.recipes[r.recipeName]) then refused == (Err(ApprovalError), [])
      else !r.gatePermits ==> refused == (Err(PolicyError), [])
  {
    hide RunStages;
    hide Strip;
    hide Blank;
    StripBlank(r.prompt);
    if r.approval.Some? {
      StripBlank(r.approval.value.traceId);
      StripBlank(r.approval.value.approvedBy);
      StripBlank(r.approval.value.purpose);
    }
  }

  /** The request got past the checks that precede the stage loop. */
  predicate Admitted(runner: Runner, r: RunRequest) {
    && r.enabled && !Blank(r.prompt) && r.recipeName in runner.recipes
    && ApprovalValid(r.approval, r.revoked, r.now, runner.recipes[r.recipeName]) && r.gatePermits
  }

  /** The calls and the result of a run: nothing is called unless the request was admitted; every call is
      the one its trace allows; the run stops only when no call may follow; no upstream or backend lookup
      fails; an error says what stopped the trace; and a result is exactly the account of its trace. */
  ghost predicate SafeRun(runner: Runner, r: RunRequest, dispatch: (seq<Call>, Call) -> Reply,
                          res: Result<PipelineResult, PipelineError>, calls: seq<Call>) {
    && (!Admitted(runner, r) ==> calls == [] && res.Err?)
    && (Admitted(runner, r) ==>
          var recipe, env := runner.recipes[r.recipeName], EnvOf(runner, r.approval.value, dispatch);
          && Disciplined(env, r.prompt, recipe, calls) && Complete(env, r.prompt, recipe, calls)
          && (res.Err? ==> res.error != MissingOutput && res.error != ConfigError && ErrorFits(env, r.prompt, recipe, calls, res.error))
          && (res.Ok? ==>
                var p := Account(env, calls);
                && Answers(env, calls) == |recipe.stages|
                && res.value.requestedTokens == RequestedTokens(recipe.stages)
                && res.value == PipelineResult(res.value.output, p.outputs, p.requestedTokens, p.totalTokens,
                                               p.totalCostUsd, p.modelsUsed)
                && p.outputs.Keys == Names(recipe.stages)
                && recipe.stages != [] && recipe.stages[|recipe.stages| - 1].name in p.outputs
                && res.value.output == p.outputs[recipe.stages[|recipe.stages| - 1].name]))
  }

  /** Loader validation makes the run safe, with any loaded configuration and any dispatcher. */
  lemma LoadedRunsAreDisciplined(models: Aliases, runner: Runner, r: RunRequest, dispatch: (seq<Call>, Call) -> Reply)
    requires RunnerOk(models, runner)
    ensures
      var (res, calls) := RunPipeline(runner, r, dispatch);
      SafeRun(runner, r, dispatch, res, calls)
  {
    hide RunStages;
    hide Disciplined;
    hide Answers;
    hide Trailing;
    hide Account;
    hide Blank;
    if Admitted(runner, r) {
      var recipe, env := runner.recipes[r.recipeName], EnvOf(runner, r.approval.value, dispatch);
      LoadedCandidates(models, runner, r.recipeName, env);
      StartIsBetween(env, r.prompt, recipe);
      assert recipe.stages[0..] == recipe.stages && recipe.stages[..|recipe.stages|] == recipe.stages;
      StagesAreDisciplined(env, r.prompt, recipe, 0, Start());
      assert recipe.stages[|recipe.stages| - 1] in recipe.stages;
    }
  }

  /** The run itself: the checks before the loops, then the loops. */
  method Run(ghost models: Aliases, runner: Runner, r: RunRequest, dispatch: (seq<Call>, Call) -> Reply)
    returns (res: Result<PipelineResult, PipelineError>, calls: seq<Call>)
    ensures (res, calls) == RunPipeline(runner, r, dispatch)
    ensures RunnerOk(models, runner) ==> SafeRun(runner, r, dispatch, res, calls)
  {
    hide SafeRun;
    hide RunnerOk;
    hide Blank;
    if RunnerOk(models, runner) {
      LoadedRunsAreDisciplined(models, runner, r, dispatch);
    }
    hide RunStages;
    calls := [];
    if !r.enabled {
      return Err(DisabledError), calls;
    }
    if Blank(r.prompt) {
      return Err(EmptyPrompt), calls;
    }
    if r.recipeName !in runner.recipes {
      return Err(ConfigError), calls;
    }
    var recipe := runner.recipes[r.recipeName];
    if !ApprovalValid(r.approval, r.revoked, r.now, recipe) {
      return Err(ApprovalError), calls;
    }
    if !r.gatePermits {
      return Err(PolicyError), calls;
    }
    var status := RunAllStages(EnvOf(runner, r.approval.value, dispatch), r.prompt, recipe);
    match status {
      case Stopped(made, error) => return Err(error), made;
      case Going(p) =>
        if recipe.stages == [] || recipe.stages[|recipe.stages| - 1].name !in p.outputs {
          return Err(MissingOutput), p.calls;
        }
        var last := recipe.stages[|recipe.stages| - 1].name;
        return Ok(PipelineResult(p.outputs[last], p.outputs, p.requestedTokens, p.totalTokens, p.totalCostUsd, p.modelsUsed)),
               p.calls;
    }
  }

  // ---- consequences ----

  /** The token caps of the answered calls of a trace. */
  function AnsweredTokens(env: Env, calls: seq<Call>): int {
    if calls == [] then 0
    else AnsweredTokens(env, calls[..|calls| - 1]) + if LastReply(env, calls).Answer? then calls[|calls| - 1].maxTokens else 0
  }

  lemma DisciplinedPrefix(env: Env, original: string, recipe: Recipe, calls: seq<Call>, n: nat)
    requires Disciplined(env, original, recipe, calls) && n <= |calls|
    ensures Disciplined(env, original, recipe, calls[..n])
  {
    hide Follows;
    forall k | 0 <= k < n
      ensures Follows(env, original, recipe, calls[..n][..k], calls[..n][k])
    {
      assert calls[..n][..k] == calls[..k];
    }
  }

  lemma NoTokens(recipe: Recipe)
    ensures RequestedTokens(recipe.stages[..0]) == 0
  {
  }

  /** The last call is for the stage after the ones answered before it. */
  lemma LastCallsStage(env: Env, original: string, recipe: Recipe, calls: seq<Call>)
    requires Disciplined(env, original, recipe, calls) && calls != []
    ensures
      var n := |calls| - 1;
      var s := Answers(env, calls[..n]);
      s < |recipe.stages| && calls[n].maxTokens == recipe.stages[s].maxTokens
  {
    hide StagePrompt;
    hide Account;
    hide Scoped;
    hide Answers;
    assert Follows(env, original, recipe, calls[..|calls| - 1], calls[|calls| - 1]);
  }

  lemma {:induction false} AnsweredTokensAreRequested(env: Env, original: string, recipe: Recipe, calls: seq<Call>)
    requires Disciplined(env, original, recipe, calls)
    ensures Answers(env, calls) <= |recipe.stages|
    ensures AnsweredTokens(env, calls) == RequestedTokens(recipe.stages[..Answers(env, calls)])
    decreases |calls|
  {
    hide Disciplined;
    hide LastReply;
    hide RequestedTokens;
    hide Names;
    if calls == [] {
      NoTokens(recipe);
    } else {
      var n := |calls| - 1;
      DisciplinedPrefix(env, original, recipe, calls, n);
      AnsweredTokensAreRequested(env, original, recipe, calls[..n]);
      LastCallsStage(env, original, recipe, calls);
      OneMoreStage(recipe, Answers(env, calls[..n]));
    }
  }

  lemma {:induction false} RequestedTokensGrow(stages: seq<Stage>, n: nat)
    requires n <= |stages| && forall i :: 0 <= i < |stages| ==> stages[i].maxTokens > 0
    ensures 0 <= RequestedTokens(stages[..n]) <= RequestedTokens(stages)
    decreases |stages|
  {
    if n == |stages| {
      assert stages[..n] == stages;
      if n > 0 {
        RequestedTokensGrow(stages[..n - 1], n - 1);
        assert stages[..n - 1][..n - 1] == stages[..n - 1];
      }
    } else {
      var front := stages[..|stages| - 1];
      RequestedTokensGrow(front, n);
      assert front[..n] == stages[..n];
    }
  }

  /** At no point of any run, failed ones included, do the answered calls ask for more tokens than the
      recipe's cap or the approval's. */
  lemma TokensStayWithinCaps(models: Aliases, runner: Runner, r: RunRequest, dispatch: (seq<Call>, Call) -> Reply, n: nat)
    requires RunnerOk(models, runner) && Admitted(runner, r) && n <= |RunPipeline(runner, r, dispatch).1|
    ensures
      var env := EnvOf(runner, r.approval.value, dispatch);
      var asked := AnsweredTokens(env, RunPipeline(runner, r, dispatch).1[..n]);
      asked <= runner.recipes[r.recipeName].maxTotalTokens <= r.approval.value.maxTokens
  {
    hide RunPipeline;
    hide Disciplined;
    var recipe, env := runner.recipes[r.recipeName], EnvOf(runner, r.approval.value, dispatch);
    var calls := RunPipeline(runner, r, dispatch).1;
    LoadedRunsAreDisciplined(models, runner, r, dispatch);
    DisciplinedPrefix(env, r.prompt, recipe, calls, n);
    AnsweredTokensAreRequested(env, r.prompt, recipe, calls[..n]);
    assert WellFormed(models, recipe);
    forall i | 0 <= i < |recipe.stages|
      ensures recipe.stages[i].maxTokens > 0
    {
      assert StageOk(recipe.stages, i);
    }
    RequestedTokensGrow(recipe.stages, Answers(env, calls[..n]));
  }

  lemma {:induction false} ScopedAreInScope(env: Env, models: seq<string>, t: nat)
    requires t < |Scoped(env, models)|
    ensures InScope(env, Scoped(env, models)[t]) && Scoped(env, models)[t] in models
  {
    if InScope(env, models[0]) {
      if t > 0 {
        ScopedAreInScope(env, models[1..], t - 1);
      }
    } else {
      ScopedAreInScope(env, models[1..], t);
    }
  }

  /** Only candidates whose backend is in the approval's scope are ever called, and no model is called
      after a reply that was neither an answer with text nor a failure that is safe to fall back from. */
  lemma CallsAreScopedAndFailStop(models: Aliases, runner: Runner, r: RunRequest, dispatch: (seq<Call>, Call) -> Reply, k: nat)
    requires RunnerOk(models, runner) && Admitted(runner, r) && k < |RunPipeline(runner, r, dispatch).1|
    ensures
      var env := EnvOf(runner, r.approval.value, dispatch);
      var calls := RunPipeline(runner, r, dispatch).1;
      && InScope(env, calls[k].model)
      && (k + 1 < |calls| ==> Continues(dispatch(calls[..k], calls[k])))
  {
    hide RunPipeline;
    hide Account;
    hide StagePrompt;
    hide InScope;
    hide Continues;
    var recipe, env := runner.recipes[r.recipeName], EnvOf(runner, r.approval.value, dispatch);
    var calls := RunPipeline(runner, r, dispatch).1;
    LoadedRunsAreDisciplined(models, runner, r, dispatch);
    assert Follows(env, r.prompt, recipe, calls[..k], calls[k]);
    var s := Answers(env, calls[..k]);
    ScopedAreInScope(env, recipe.stages[s].models, Trailing(env, calls[..k]));
    if k + 1 < |calls| {
      assert Follows(env, r.prompt, recipe, calls[..k + 1], calls[k + 1]);
      assert calls[..k + 1][..k] == calls[..k];
    }
  }

  // ---- approvals, prompts and totals, in the request's own terms ----

  /** Some item of the approval's scope names the backend that the registry gives for the model. */
  ghost predicate Approved(runner: Runner, registry: Registry, scope: seq<string>, model: string) {
    model in registry.backends &&
    exists i :: 0 <= i < |scope| && Strip(scope[i]) != "" && runner.lower(Strip(scope[i])) == runner.lower(Strip(registry.backends[model]))
  }

  /** The runner's backends are the registry's. */
  ghost predicate BackendsFrom(registry: Registry, runner: Runner) {
    forall m :: m in runner.backends ==> m in registry.backends && runner.backends[m] == Strip(registry.backends[m])
  }

  lemma ScopeMeansApproved(runner: Runner, registry: Registry, approval: Approval, dispatch: (seq<Call>, Call) -> Reply, model: string)
    requires BackendsFrom(registry, runner) && model in runner.backends
    ensures InScope(EnvOf(runner, approval, dispatch), model) <==> Approved(runner, registry, approval.scope, model)
  {
    hide Strip;
    var env := EnvOf(runner, approval, dispatch);
    if InScope(env, model) {
      var item :| item in env.scope && Strip(item) != "" && env.lower(Strip(item)) == env.lower(env.backends[model]);
      var i :| 0 <= i < |approval.scope| && approval.scope[i] == item;
      assert runner.lower(Strip(approval.scope[i])) == runner.lower(Strip(registry.backends[model]));
    }
  }

  /** Every call of every run goes to a model whose backend in the registry, with case folded, is an item
      of the approval's scope. */
  lemma CallsAreApproved(models: Aliases, registry: Registry, runner: Runner, r: RunRequest,
                         dispatch: (seq<Call>, Call) -> Reply, k: nat)
    requires RunnerOk(models, runner) && BackendsFrom(registry, runner) && k < |RunPipeline(runner, r, dispatch).1|
    ensures r.approval.Some? && Approved(runner, registry, r.approval.value.scope, RunPipeline(runner, r, dispatch).1[k].model)
  {
    hide RunPipeline;
    hide RunnerOk;
    hide BackendsFrom;
    hide Approved;
    LoadedRunsAreDisciplined(models, runner, r, dispatch);
    CallsAreScopedAndFailStop(models, runner, r, dispatch, k);
    var model := RunPipeline(runner, r, dispatch).1[k].model;
    ScopeMeansApproved(runner, registry, r.approval.value, dispatch, model);
  }

  lemma {:induction false} NoneScoped(env: Env, models: seq<string>, prompt: string, stage: Stage, calls: seq<Call>)
    requires AllRegistered(env, models) && forall i :: 0 <= i < |models| ==> !InScope(env, models[i])
    ensures TryModels(env, models, prompt, stage, calls, false) == Exhausted(calls, false)
    decreases |models|
  {
    hide InScope;
    if models != [] {
      assert HasBackend(env, models[0]);
      NoneScoped(env, models[1..], prompt, stage, calls);
    }
  }

  /** The prompt of a recipe's first stage. */
  function FirstPrompt(original: string, stage: Stage): string {
    (if stage.instruction != "" then stage.instruction + "\n\n" else "") + "Original request:\n" + original
  }

  lemma FirstPromptIs(stages: seq<Stage>, original: string)
    requires stages != [] && StageOk(stages, 0)
    ensures StagePrompt(original, stages[0], map[]) == Some(FirstPrompt(original, stages[0]))
  {
    assert stages[0].inputFrom.None?;
    var p := "Original request:\n" + original;
    if stages[0].instruction != "" {
      assert (stages[0].instruction + "\n\n") + "Original request:\n" + original == stages[0].instruction + "\n\n" + p;
    } else {
      assert "" + "Original request:\n" + original == p;
    }
  }

  /** When no candidate of the first stage is approved, and its prompt fits, an admitted run makes no call
      and is refused for its approval. */
  lemma UnapprovedRunsMakeNoCall(models: Aliases, registry: Registry, runner: Runner, r: RunRequest,
                                 dispatch: (seq<Call>, Call) -> Reply)
    requires RunnerOk(models, runner) && BackendsFrom(registry, runner) && Admitted(runner, r)
    requires
      var recipe := runner.recipes[r.recipeName];
      && recipe.stages != [] && Utf8Length(FirstPrompt(r.prompt, recipe.stages[0])) <= recipe.maxInputTokens
      && (forall i :: 0 <= i < |recipe.stages[0].models| ==>
            !Approved(runner, registry, r.approval.value.scope, recipe.stages[0].models[i]))
    ensures RunPipeline(runner, r, dispatch) == (Err(ApprovalError), [])
  {
    hide TryModels;
    hide InScope;
    hide Approved;
    hide Utf8Length;
    hide StagePrompt;
    hide FirstPrompt;
    var recipe, env := runner.recipes[r.recipeName], EnvOf(runner, r.approval.value, dispatch);
    var stage := recipe.stages[0];
    LoadedCandidates(models, runner, r.recipeName, env);
    FirstPromptIs(recipe.stages, r.prompt);
    forall i | 0 <= i < |stage.models|
      ensures !InScope(env, stage.models[i])
    {
      assert AllRegistered(env, stage.models) && HasBackend(env, stage.models[i]);
      ScopeMeansApproved(runner, registry, r.approval.value, dispatch, stage.models[i]);
    }
    NoneScoped(env, stage.models, FirstPrompt(r.prompt, stage), stage, []);
    assert RunStage(env, r.prompt, recipe.maxInputTokens, stage, Start()) == Stopped([], ApprovalError);
  }

  lemma FirstCallFollows(env: Env, original: string, recipe: Recipe, i: nat)
    requires recipe.stages != [] && StageOk(recipe.stages, 0) && i < |recipe.stages[0].models|
    requires InScope(env, recipe.stages[0].models[i]) && Utf8Length(FirstPrompt(original, recipe.stages[0])) <= recipe.maxInputTokens
    ensures !Complete(env, original, recipe, [])
  {
    hide InScope;
    hide StagePrompt;
    hide FirstPrompt;
    hide Utf8Length;
    var stage := recipe.stages[0];
    SomeScoped(env, stage.models, i);
    FirstPromptIs(recipe.stages, original);
    var call := Call(Scoped(env, stage.models)[0], FirstPrompt(original, stage), stage.maxTokens, stage.name);
    assert Follows(env, original, recipe, [], call);
  }

  lemma {:induction false} SomeScoped(env: Env, models: seq<string>, i: nat)
    requires i < |models| && InScope(env, models[i])
    ensures Scoped(env, models) != []
  {
    hide InScope;
    if i > 0 {
      SomeScoped(env, models[1..], i - 1);
    }
  }

  /** Who may run: given a recipe whose first stage has an approved candidate and a prompt that fits, some
      model is called if and only if the pipeline is enabled, the prompt is not blank, the frugality gate
      agrees, and the approval is present, not revoked, not expired, complete, made for this recipe and
      for tier 5, and covers the recipe's tokens and cost. */
  lemma CallsNeedAValidApproval(models: Aliases, registry: Registry, runner: Runner, r: RunRequest,
                                dispatch: (seq<Call>, Call) -> Reply, i: nat)
    requires RunnerOk(models, runner) && BackendsFrom(registry, runner) && r.recipeName in runner.recipes
    requires
      var recipe := runner.recipes[r.recipeName];
      && recipe.stages != [] && Utf8Length(FirstPrompt(r.prompt, recipe.stages[0])) <= recipe.maxInputTokens
      && i < |recipe.stages[0].models|
      && (r.approval.Some? ==> Approved(runner, registry, r.approval.value.scope, recipe.stages[0].models[i]))
    ensures
      var recipe := runner.recipes[r.recipeName];
      RunPipeline(runner, r, dispatch).1 != [] <==>
        && r.enabled && Strip(r.prompt) != "" && r.gatePermits && r.approval.Some?
        && r.approval.value.traceId !in r.revoked
        && r.approval.value.expiresAt.At? && r.approval.value.expiresAt.time > r.now
        && Strip(r.approval.value.traceId) != "" && Strip(r.approval.value.approvedBy) != "" && Strip(r.approval.value.purpose) != ""
        && r.approval.value.recipe == r.recipeName && r.approval.value.routeTier == 5
        && r.approval.value.maxTokens >= recipe.maxTotalTokens && r.approval.value.maxCostUsd >= recipe.costReservationUsd
  {
    hide RunPipeline;
    hide Utf8Length;
    hide FirstPrompt;
    hide Strip;
    hide Blank;
    hide Disciplined;
    hide Complete;
    StripBlank(r.prompt);
    LoadedRunsAreDisciplined(models, runner, r, dispatch);
    if r.approval.Some? {
      StripBlank(r.approval.value.traceId);
      StripBlank(r.approval.value.approvedBy);
      StripBlank(r.approval.value.purpose);
      var recipe, env := runner.recipes[r.recipeName], EnvOf(runner, r.approval.value, dispatch);
      LoadedCandidates(models, runner, r.recipeName, env);
      assert AllRegistered(env, recipe.stages[0].models) && HasBackend(env, recipe.stages[0].models[i]);
      ScopeMeansApproved(runner, registry, r.approval.value, dispatch, recipe.stages[0].models[i]);
      FirstCallFollows(env, r.prompt, recipe, i);
    }
  }

  lemma {:induction false} OutputsAreAnswers(env: Env, calls: seq<Call>, name: string) returns (j: nat)
    requires name in Account(env, calls).outputs
    ensures j < |calls| && calls[j].stageName == name
    ensures env.dispatch(calls[..j], calls[j]).Answer?
    ensures env.dispatch(calls[..j], calls[j]).text == Account(env, calls).outputs[name]
  {
    var n := |calls| - 1;
    if LastReply(env, calls).Answer? && calls[n].stageName == name {
      j := n;
    } else {
      j := OutputsAreAnswers(env, calls[..n], name);
      assert calls[..n][..j] == calls[..j];
    }
  }

  /** What a stage sends: its instruction, the original request, and the text that the named upstream stage
      answered. */
  function PromptText(original: string, stage: Stage, upstream: string): string {
    (if stage.instruction != "" then stage.instruction + "\n\n" else "")
    + "Original request:\n" + original
    + (if stage.inputFrom.Some? then "\n\nOutput from stage " + stage.inputFrom.value + ":\n" + upstream else "")
  }

  lemma PromptTextIs(original: string, stage: Stage, outputs: map<string, string>)
    requires stage.inputFrom.Some? ==> stage.inputFrom.value in outputs
    ensures StagePrompt(original, stage, outputs)
         == Some(PromptText(original, stage, if stage.inputFrom.Some? then outputs[stage.inputFrom.value] else ""))
  {
    var tail := if stage.inputFrom.Some? then "\n\nOutput from stage " + stage.inputFrom.value + ":\n" + outputs[stage.inputFrom.value] else "";
    var head := if stage.instruction != "" then stage.instruction + "\n\n" else "";
    var request := "Original request:\n" + original;
    assert head + "Original request:\n" + original + tail == head + (request + tail);
    if stage.inputFrom.Some? {
      assert request + "\n\nOutput from stage " + stage.inputFrom.value + ":\n" + outputs[stage.inputFrom.value] == request + tail;
    } else {
      assert request + "" == request;
    }
    assert "" + (request + tail) == request + tail;
  }

  /** Every call of every loaded run carries the original request and, for a stage with an upstream one, the
      text with which an earlier call of that stage was answered. */
  lemma PromptsCarryAnswers(models: Aliases, runner: Runner, r: RunRequest, dispatch: (seq<Call>, Call) -> Reply, k: nat)
    returns (s: nat, j: nat)
    requires RunnerOk(models, runner) && k < |RunPipeline(runner, r, dispatch).1|
    ensures r.recipeName in runner.recipes && s < |runner.recipes[r.recipeName].stages|
    ensures
      var calls, stage := RunPipeline(runner, r, dispatch).1, runner.recipes[r.recipeName].stages[s];
      && calls[k].stageName == stage.name
      && if stage.inputFrom.None? then calls[k].prompt == PromptText(r.prompt, stage, "")
         else
           && j < k && calls[j].stageName == stage.inputFrom.value && dispatch(calls[..j], calls[j]).Answer?
           && calls[k].prompt == PromptText(r.prompt, stage, dispatch(calls[..j], calls[j]).text)
  {
    hide RunPipeline;
    hide RunnerOk;
    hide Account;
    hide Scoped;
    hide Utf8Length;
    hide PromptText;
    LoadedRunsAreDisciplined(models, runner, r, dispatch);
    var recipe, env := runner.recipes[r.recipeName], EnvOf(runner, r.approval.value, dispatch);
    var calls := RunPipeline(runner, r, dispatch).1;
    assert Follows(env, r.prompt, recipe, calls[..k], calls[k]);
    s, j := Answers(env, calls[..k]), 0;
    var stage := recipe.stages[s];
    PromptTextIs(r.prompt, stage, Account(env, calls[..k]).outputs);
    if stage.inputFrom.Some? {
      j := OutputsAreAnswers(env, calls[..k], stage.inputFrom.value);
      assert calls[..k][..j] == calls[..j];
    }
  }

  /** Every answer of a trace reports its tokens; what they add up to. */
  predicate AllReportTokens(env: Env, calls: seq<Call>) {
    forall k :: 0 <= k < |calls| ==> env.dispatch(calls[..k], calls[k]).Answer? ==> env.dispatch(calls[..k], calls[k]).totalTokens.Some?
  }

  predicate AllReportCost(env: Env, calls: seq<Call>) {
    forall k :: 0 <= k < |calls| ==> env.dispatch(calls[..k], calls[k]).Answer? ==> env.dispatch(calls[..k], calls[k]).costUsd.Some?
  }

  function TokensReported(env: Env, calls: seq<Call>): int {
    if calls == [] then 0
    else
      TokensReported(env, calls[..|calls| - 1])
      + if LastReply(env, calls).Answer? && LastReply(env, calls).totalTokens.Some? then LastReply(env, calls).totalTokens.value else 0
  }

  function CostReported(env: Env, calls: seq<Call>): real {
    if calls == [] then 0.0
    else
      CostReported(env, calls[..|calls| - 1])
      + if LastReply(env, calls).Answer? && LastReply(env, calls).costUsd.Some? then LastReply(env, calls).costUsd.value else 0.0
  }

  lemma ReportsSnoc(env: Env, calls: seq<Call>)
    requires calls != []
    ensures AllReportTokens(env, calls) <==>
      AllReportTokens(env, calls[..|calls| - 1]) && (LastReply(env, calls).Answer? ==> LastReply(env, calls).totalTokens.Some?)
    ensures AllReportCost(env, calls) <==>
      AllReportCost(env, calls[..|calls| - 1]) && (LastReply(env, calls).Answer? ==> LastReply(env, calls).costUsd.Some?)
  {
    var n := |calls| - 1;
    var front := calls[..n];
    assert forall k :: 0 <= k < n ==> front[..k] == calls[..k] && front[k] == calls[k];
  }

  lemma {:induction false} TotalsAreReported(env: Env, calls: seq<Call>)
    ensures Account(env, calls).totalTokens == if AllReportTokens(env, calls) then Some(TokensReported(env, calls)) else None
    ensures Account(env, calls).totalCostUsd == if AllReportCost(env, calls) then Some(CostReported(env, calls)) else None
  {
    hide AllReportTokens;
    hide AllReportCost;
    if calls == [] {
      NothingToReport(env);
    } else {
      TotalsAreReported(env, calls[..|calls| - 1]);
      ReportsSnoc(env, calls);
    }
  }

  lemma NothingToReport(env: Env)
    ensures AllReportTokens(env, []) && AllReportCost(env, [])
  {
  }

  /** The totals of a result are the sums of what its answers reported, and missing as soon as one answer
      did not report. */
  lemma ResultTotalsAreExact(models: Aliases, runner: Runner, r: RunRequest, dispatch: (seq<Call>, Call) -> Reply)
    requires RunnerOk(models, runner) && RunPipeline(runner, r, dispatch).0.Ok?
    ensures
      var (res, calls) := RunPipeline(runner, r, dispatch);
      && r.approval.Some?
      && var env := EnvOf(runner, r.approval.value, dispatch);
      && res.value.totalTokens == (if AllReportTokens(env, calls) then Some(TokensReported(env, calls)) else None)
      && res.value.totalCostUsd == (if AllReportCost(env, calls) then Some(CostReported(env, calls)) else None)
  {
    hide RunPipeline;
    hide RunnerOk;
    hide Account;
    hide AllReportTokens;
    hide AllReportCost;
    LoadedRunsAreDisciplined(models, runner, r, dispatch);
    TotalsAreReported(EnvOf(runner, r.approval.value, dispatch), RunPipeline(runner, r, dispatch).1);
  }
}
