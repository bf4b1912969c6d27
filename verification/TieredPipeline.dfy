/** The stage and candidate loops of the tiered pipeline (orchestrator/tiered_pipeline.py:612-888). The
    dispatcher is an oracle that may answer from the whole history of calls. */
module TieredPipeline {
  import opened Prelude
  import opened Text
  import opened PipelineLoader

  datatype Call = Call(model: string, prompt: string, maxTokens: int, stageName: string)

  datatype Reply =
    | Answer(text: string, totalTokens: Option<int>, costUsd: Option<real>)
    | Unavailable(fallbackSafe: bool)
    | Crash

  datatype Expiry = Naive | At(time: real)

  datatype Approval = Approval(
    traceId: string,
    approvedBy: string,
    purpose: string,
    recipe: string,
    routeTier: int,
    maxTokens: int,
    maxCostUsd: real,
    expiresAt: Expiry,
    scope: seq<string>)

  /** What a run depends on besides the recipe: the registry's backends, the approval's scope, case
      folding, and the dispatcher. */
  datatype Env = Env(
    backends: map<string, string>,
    lower: string -> string,
    scope: seq<string>,
    dispatch: (seq<Call>, Call) -> Reply)

  /** The approval checks, in order. */
  predicate ApprovalValid(approval: Option<Approval>, revoked: set<string>, now: real, recipe: Recipe) {
    && approval.Some? && approval.value.traceId !in revoked
    && approval.value.expiresAt.At? && approval.value.expiresAt.time > now
    && !Blank(approval.value.traceId) && !Blank(approval.value.approvedBy) && !Blank(approval.value.purpose)
    && approval.value.recipe == recipe.name && approval.value.routeTier == PIPELINE_TIER && approval.value.scope != []
    && approval.value.maxTokens >= recipe.maxTotalTokens && approval.value.maxCostUsd >= recipe.costReservationUsd
  }

  /** None when the upstream output is missing. */
  function StagePrompt(original: string, stage: Stage, outputs: map<string, string>): Option<string> {
    if stage.inputFrom.Some? && stage.inputFrom.value !in outputs then None
    else
      var context :=
        if stage.inputFrom.None? then "Original request:\n" + original
        else "Original request:\n" + original + "\n\nOutput from stage " + stage.inputFrom.value + ":\n"
             + outputs[stage.inputFrom.value];
      Some(if stage.instruction != "" then stage.instruction + "\n\n" + context else context)
  }

  predicate HasBackend(env: Env, model: string) {
    model in env.backends && env.backends[model] != ""
  }

  predicate InScope(env: Env, model: string) {
    model in env.backends &&
    exists item :: item in env.scope && Strip(item) != "" && env.lower(Strip(item)) == env.lower(env.backends[model])
  }

  /** How the candidate loop of one stage ends. */
  datatype Tried =
    | Answered(calls: seq<Call>, model: string, reply: Reply)
    | Exhausted(calls: seq<Call>, anyInScope: bool)
    | Aborted(calls: seq<Call>, error: PipelineError)

  function TryModels(env: Env, models: seq<string>, prompt: string, stage: Stage, calls: seq<Call>, anyInScope: bool): Tried
    decreases |models|
  {
    if models == [] then Exhausted(calls, anyInScope)
    else if !HasBackend(env, models[0]) then Aborted(calls, ConfigError)
    else if !InScope(env, models[0]) then TryModels(env, models[1..], prompt, stage, calls, anyInScope)
    else
      var call := Call(models[0], prompt, stage.maxTokens, stage.name);
      match env.dispatch(calls, call)
      case Unavailable(true) => TryModels(env, models[1..], prompt, stage, calls + [call], true)
      case Unavailable(false) => Aborted(calls + [call], CandidateUnavailable)
      case Crash => Aborted(calls + [call], DispatcherError)
      case Answer(text, tokens, cost) => Answered(calls + [call], models[0], Answer(text, tokens, cost))
  }

  /** The running state of a run. */
  datatype Progress = Progress(
    calls: seq<Call>,
    outputs: map<string, string>,
    modelsUsed: map<string, string>,
    requestedTokens: int,
    totalTokens: Option<int>,
    totalCostUsd: Option<real>)

  datatype Status = Going(progress: Progress) | Stopped(calls: seq<Call>, error: PipelineError)

  function AddTokens(total: Option<int>, part: Option<int>): Option<int> {
    if part.None? || total.None? then None else Some(total.value + part.value)
  }

  function AddCost(total: Option<real>, part: Option<real>): Option<real> {
    if part.None? || total.None? then None else Some(total.value + part.value)
  }

  function RunStage(env: Env, original: string, maxInputTokens: int, stage: Stage, p: Progress): Status {
    var prompt := StagePrompt(original, stage, p.outputs);
    if prompt.None? then Stopped(p.calls, MissingOutput)
    else if Utf8Length(prompt.value) > maxInputTokens then Stopped(p.calls, PolicyError)
    else
      match TryModels(env, stage.models, prompt.value, stage, p.calls, false)
      case Aborted(calls, error) => Stopped(calls, error)
      case Exhausted(calls, anyInScope) => Stopped(calls, if anyInScope then ExecutionError else ApprovalError)
      case Answered(calls, model, reply) =>
        if !reply.Answer? || Blank(reply.text) then Stopped(calls, ExecutionError)
        else
          Going(Progress(calls, p.outputs[stage.name := reply.text], p.modelsUsed[stage.name := model],
                         p.requestedTokens + stage.maxTokens,
                         AddTokens(p.totalTokens, reply.totalTokens), AddCost(p.totalCostUsd, reply.costUsd)))
  }

  function RunStages(env: Env, original: string, maxInputTokens: int, stages: seq<Stage>, p: Progress): Status
    decreases |stages|
  {
    if stages == [] then Going(p)
    else
      match RunStage(env, original, maxInputTokens, stages[0], p)
      case Stopped(calls, error) => Stopped(calls, error)
      case Going(next) => RunStages(env, original, maxInputTokens, stages[1..], next)
  }

  function Start(): Progress {
    Progress([], map[], map[], 0, Some(0), Some(0.0))
  }

  datatype PipelineResult = PipelineResult(
    output: string,
    stageOutputs: map<string, string>,
    requestedTokens: int,
    totalTokens: Option<int>,
    totalCostUsd: Option<real>,
    modelsUsed: map<string, string>)

  // ---- the loops ----

  /** The candidate loop of one stage. */
  method TryCandidates(env: Env, stage: Stage, prompt: string, before: seq<Call>) returns (tried: Tried)
    ensures tried == TryModels(env, stage.models, prompt, stage, before, false)
  {
    var calls := before;
    var anyInScope := false;
    for i := 0 to |stage.models|
      invariant TryModels(env, stage.models, prompt, stage, before, false)
             == TryModels(env, stage.models[i..], prompt, stage, calls, anyInScope)
    {
      var model := stage.models[i];
      assert stage.models[i..][1..] == stage.models[i + 1..];
      if !HasBackend(env, model) {
        return Aborted(calls, ConfigError);
      }
      if !InScope(env, model) {
        continue;
      }
      anyInScope := true;
      var call := Call(model, prompt, stage.maxTokens, stage.name);
      var reply := env.dispatch(calls, call);
      calls := calls + [call];
      match reply {
        case Unavailable(fallbackSafe) =>
          if !fallbackSafe {
            return Aborted(calls, CandidateUnavailable);
          }
        case Crash => return Aborted(calls, DispatcherError);
        case Answer(_, _, _) => return Answered(calls, model, reply);
      }
    }
    return Exhausted(calls, anyInScope);
  }

  /** One turn of the stage loop. */
  method RunOneStage(env: Env, original: string, maxInputTokens: int, stage: Stage, p: Progress) returns (status: Status)
    ensures status == RunStage(env, original, maxInputTokens, stage, p)
  {
    hide TryModels;
    var prompt := StagePrompt(original, stage, p.outputs);
    if prompt.None? {
      return Stopped(p.calls, MissingOutput);
    }
    if Utf8Length(prompt.value) > maxInputTokens {
      return Stopped(p.calls, PolicyError);
    }
    var tried := TryCandidates(env, stage, prompt.value, p.calls);
    match tried {
      case Aborted(calls, error) => return Stopped(calls, error);
      case Exhausted(calls, anyInScope) =>
        if !anyInScope {
          return Stopped(calls, ApprovalError);
        }
        return Stopped(calls, ExecutionError);
      case Answered(calls, model, reply) =>
        if !reply.Answer? || Blank(reply.text) {
          return Stopped(calls, ExecutionError);
        }
        var outputs := p.outputs[stage.name := reply.text];
        var modelsUsed := p.modelsUsed[stage.name := model];
        return Going(Progress(calls, outputs, modelsUsed, p.requestedTokens + stage.maxTokens,
                              AddTokens(p.totalTokens, reply.totalTokens), AddCost(p.totalCostUsd, reply.costUsd)));
    }
  }

  /** The stage loop. */
  method RunAllStages(env: Env, original: string, recipe: Recipe) returns (status: Status)
    ensures status == RunStages(env, original, recipe.maxInputTokens, recipe.stages, Start())
  {
    hide RunStage;
    var p := Start();
    for i := 0 to |recipe.stages|
      invariant RunStages(env, original, recipe.maxInputTokens, recipe.stages, Start())
             == RunStages(env, original, recipe.maxInputTokens, recipe.stages[i..], p)
    {
      assert recipe.stages[i..][1..] == recipe.stages[i + 1..];
      var status := RunOneStage(env, original, recipe.maxInputTokens, recipe.stages[i], p);
      if status.Stopped? {
        return status;
      }
      p := status.progress;
    }
    return Going(p);
  }

  // ---- a whole run ----

  /** The loaded configuration. */
  datatype Runner = Runner(recipes: map<string, Recipe>, backends: map<string, string>, lower: string -> string)

  datatype RunRequest = RunRequest(
    enabled: bool,
    recipeName: string,
    prompt: string,
    approval: Option<Approval>,
    revoked: set<string>,
    now: real,
    gatePermits: bool)

  function EnvOf(runner: Runner, approval: Approval, dispatch: (seq<Call>, Call) -> Reply): Env {
    Env(runner.backends, runner.lower, approval.scope, dispatch)
  }

  /** The result and the calls made on the way. */
  function RunPipeline(runner: Runner, r: RunRequest, dispatch: (seq<Call>, Call) -> Reply)
    : (Result<PipelineResult, PipelineError>, seq<Call>)
  {
    if !r.enabled then (Err(DisabledError), [])
    else if Blank(r.prompt) then (Err(EmptyPrompt), [])
    else if r.recipeName !in runner.recipes then (Err(ConfigError), [])
    else
      var recipe := runner.recipes[r.recipeName];
      if !ApprovalValid(r.approval, r.revoked, r.now, recipe) then (Err(ApprovalError), [])
      else if !r.gatePermits then (Err(PolicyError), [])
      else
        match RunStages(EnvOf(runner, r.approval.value, dispatch), r.prompt, recipe.maxInputTokens, recipe.stages, Start())
        case Stopped(calls, error) => (Err(error), calls)
        case Going(p) =>
          if recipe.stages == [] || recipe.stages[|recipe.stages| - 1].name !in p.outputs then (Err(MissingOutput), p.calls)
          else
            (Ok(PipelineResult(p.outputs[recipe.stages[|recipe.stages| - 1].name], p.outputs, p.requestedTokens,
                               p.totalTokens, p.totalCostUsd, p.modelsUsed)), p.calls)
  }

  /** Loading: the runner exists exactly when there are models and recipes, every model is registered and
      every recipe acceptable. */
  method Load(models: Aliases, registry: Registry, raws: map<string, RawRecipe>, lower: string -> string)
    returns (res: Result<Runner, PipelineError>)
    ensures res.Ok? <==>
      && models != map[] && raws != map[]
      && Registered(models, registry) && (forall name :: name in raws ==> Acceptable(models, raws[name]))
    ensures res.Ok? ==> RunnerOk(models, res.value) && res.value.recipes.Keys == raws.Keys
    ensures res.Ok? ==> forall name :: name in raws ==> LoadedFrom(models, raws[name], res.value.recipes[name])
    ensures res.Ok? ==> forall m :: m in res.value.backends ==>
                          m in registry.backends && res.value.backends[m] == Strip(registry.backends[m])
  {
    hide WellFormed;
    hide Acceptable;
    hide LoadedFrom;
    hide Strip;
    if models == map[] || raws == map[] {
      return Err(ConfigError);
    }
    var backends := LoadBackends(models, registry);
    if backends.Err? {
      return Err(ConfigError);
    }
    var recipes: map<string, Recipe> := map[];
    var todo := raws.Keys;
    while todo != {}
      invariant todo <= raws.Keys && recipes.Keys == raws.Keys - todo
      invariant forall name :: name in recipes ==> Acceptable(models, raws[name])
      invariant forall name :: name in recipes ==> WellFormed(models, recipes[name]) && recipes[name].name == name
      invariant forall name :: name in recipes ==> LoadedFrom(models, raws[name], recipes[name])
    {
      var name :| name in todo;
      var recipe := LoadRecipe(models, name, raws[name]);
      if recipe.Err? {
        return Err(ConfigError);
      }
      recipes := recipes[name := recipe.value];
      todo := todo - {name};
    }
    return Ok(Runner(recipes, backends.value, lower));
  }

  ghost predicate RunnerOk(models: Aliases, runner: Runner) {
    && BackendsCover(models, runner.backends)
    && (forall name :: name in runner.recipes ==> WellFormed(models, runner.recipes[name]) && runner.recipes[name].name == name)
  }
}
