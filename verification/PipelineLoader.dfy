/** Recipe validation of the tiered pipeline (orchestrator/tiered_pipeline.py:488-610). The YAML has
    already been read: fields are text, and a number may be absent or malformed. */
module PipelineLoader {
  import opened Prelude
  import opened Text

  const MAX_STAGES := 3
  const PIPELINE_TIER := 5

  datatype Number<+T> = Absent | Given(value: T) | Malformed

  datatype RawStage = RawStage(
    name: string,
    alias: string,
    maxTokens: Number<int>,
    inputFrom: Option<string>,
    instruction: string)

  datatype RawRecipe = RawRecipe(
    rows: seq<RawStage>,
    maxTotalTokens: Number<int>,
    maxInputTokens: Number<int>,
    costReservationUsd: Number<real>)

  datatype Stage = Stage(
    name: string,
    models: seq<string>,
    maxTokens: int,
    inputFrom: Option<string>,
    instruction: string)

  datatype Recipe = Recipe(
    name: string,
    stages: seq<Stage>,
    maxTotalTokens: int,
    maxInputTokens: int,
    costReservationUsd: real)

  datatype PipelineError =
    | ConfigError | DisabledError | EmptyPrompt | ApprovalError | PolicyError
    | ExecutionError | CandidateUnavailable | DispatcherError | MissingOutput

  type Aliases = map<string, seq<string>>

  function Names(stages: seq<Stage>): set<string> {
    set s | s in stages :: s.name
  }

  function RequestedTokens(stages: seq<Stage>): int {
    if stages == [] then 0 else RequestedTokens(stages[..|stages| - 1]) + stages[|stages| - 1].maxTokens
  }

  // ---- what the loader accepts ----

  ghost predicate RowOk(models: Aliases, rows: seq<RawStage>, i: nat)
    requires i < |rows|
  {
    && !Blank(rows[i].name)
    && (forall j :: 0 <= j < i ==> Strip(rows[j].name) != Strip(rows[i].name))
    && Strip(rows[i].alias) in models
    && rows[i].maxTokens.Given? && rows[i].maxTokens.value > 0
    && (rows[i].inputFrom.Some? ==> exists j :: 0 <= j < i && Strip(rows[j].name) == Strip(rows[i].inputFrom.value))
  }

  function StageOf(models: Aliases, row: RawStage): Stage
    requires Strip(row.alias) in models && row.maxTokens.Given?
  {
    Stage(Strip(row.name), models[Strip(row.alias)], row.maxTokens.value,
          if row.inputFrom.Some? then Some(Strip(row.inputFrom.value)) else None, Strip(row.instruction))
  }

  function RowTokens(rows: seq<RawStage>): int {
    if rows == [] then 0
    else RowTokens(rows[..|rows| - 1]) + if rows[|rows| - 1].maxTokens.Given? then rows[|rows| - 1].maxTokens.value else 0
  }

  function OrElse(n: Number<int>, default: int): int {
    if n.Given? then n.value else default
  }

  /** The whole acceptance condition of a recipe, without the order in which it is checked. */
  ghost predicate Acceptable(models: Aliases, raw: RawRecipe) {
    var total := match raw.maxTotalTokens case Given(n) => n case _ => RowTokens(raw.rows);
    var input := match raw.maxInputTokens case Given(n) => n case _ => total;
    && 0 < |raw.rows| <= 3
    && (forall i :: 0 <= i < |raw.rows| ==> RowOk(models, raw.rows, i))
    && !raw.maxTotalTokens.Malformed? && !raw.maxInputTokens.Malformed?
    && total > 0 && input > 0 && RowTokens(raw.rows) <= total
    && raw.costReservationUsd.Given? && raw.costReservationUsd.value > 0.0
  }

  /** What the run loop needs of a recipe. */
  ghost predicate StageOk(stages: seq<Stage>, i: nat)
    requires i < |stages|
  {
    && stages[i].maxTokens > 0
    && (forall j :: 0 <= j < i ==> stages[j].name != stages[i].name)
    && (stages[i].inputFrom.Some? ==> exists j :: 0 <= j < i && stages[j].name == stages[i].inputFrom.value)
  }

  ghost predicate FromAlias(models: Aliases, candidates: seq<string>) {
    exists alias :: alias in models && models[alias] == candidates
  }

  ghost predicate WellFormed(models: Aliases, recipe: Recipe) {
    && 0 < |recipe.stages| <= 3
    && (forall i :: 0 <= i < |recipe.stages| ==> StageOk(recipe.stages, i))
    && (forall i :: 0 <= i < |recipe.stages| ==> FromAlias(models, recipe.stages[i].models))
    && RequestedTokens(recipe.stages) <= recipe.maxTotalTokens
    && recipe.maxInputTokens > 0 && recipe.costReservationUsd > 0.0
  }

  /** Stages correspond to rows, one to one. */
  ghost predicate Built(models: Aliases, rows: seq<RawStage>, stages: seq<Stage>) {
    && |stages| == |rows|
    && (forall i :: 0 <= i < |rows| ==> RowOk(models, rows, i) && stages[i] == StageOf(models, rows[i]))
  }

  lemma RowOkInPrefix(models: Aliases, rows: seq<RawStage>, n: nat, i: nat)
    requires i < n <= |rows| && RowOk(models, rows, i)
    ensures RowOk(models, rows[..n], i)
  {
    hide Strip;
    hide Blank;
    var front := rows[..n];
    assert forall j :: 0 <= j <= i ==> front[j] == rows[j];
    if rows[i].inputFrom.Some? {
      var j :| 0 <= j < i && Strip(rows[j].name) == Strip(rows[i].inputFrom.value);
      assert Strip(front[j].name) == Strip(front[i].inputFrom.value);
    }
  }

  lemma BuiltPrefix(models: Aliases, rows: seq<RawStage>, stages: seq<Stage>, n: nat)
    requires Built(models, rows, stages) && n <= |rows|
    ensures Built(models, rows[..n], stages[..n])
  {
    hide RowOk;
    hide StageOf;
    forall i | 0 <= i < n
      ensures RowOk(models, rows[..n], i)
    {
      RowOkInPrefix(models, rows, n, i);
    }
  }

  lemma BuiltLast(models: Aliases, rows: seq<RawStage>, stages: seq<Stage>)
    requires Built(models, rows, stages) && rows != []
    ensures rows[|rows| - 1].maxTokens == Given(stages[|rows| - 1].maxTokens)
  {
    hide Strip;
    hide Blank;
    assert RowOk(models, rows, |rows| - 1);
  }

  lemma {:induction false} BuiltTokens(models: Aliases, rows: seq<RawStage>, stages: seq<Stage>)
    requires Built(models, rows, stages)
    ensures RequestedTokens(stages) == RowTokens(rows)
  {
    hide RowOk;
    hide StageOf;
    if rows != [] {
      var n := |rows| - 1;
      BuiltPrefix(models, rows, stages, n);
      BuiltTokens(models, rows[..n], stages[..n]);
      BuiltLast(models, rows, stages);
    }
  }

  lemma BuiltStageOk(models: Aliases, rows: seq<RawStage>, stages: seq<Stage>, i: nat)
    requires Built(models, rows, stages) && i < |rows|
    ensures StageOk(stages, i) && FromAlias(models, stages[i].models)
  {
    assert RowOk(models, rows, i);
    assert models[Strip(rows[i].alias)] == stages[i].models;
    if rows[i].inputFrom.Some? {
      var j :| 0 <= j < i && Strip(rows[j].name) == Strip(rows[i].inputFrom.value);
      assert RowOk(models, rows, j);
      assert stages[j].name == stages[i].inputFrom.value;
    }
    forall j | 0 <= j < i
      ensures stages[j].name != stages[i].name
    {
      assert RowOk(models, rows, j);
    }
  }

  lemma RowTokensFrom(rows: seq<RawStage>, n: nat)
    requires n <= |rows|
    ensures n == 0 ==> RowTokens(rows[..n]) == 0
    ensures n > 0 && rows[n - 1].maxTokens.Given? ==>
              RowTokens(rows[..n]) == RowTokens(rows[..n - 1]) + rows[n - 1].maxTokens.value
  {
    if n > 0 {
      assert rows[..n][..n - 1] == rows[..n - 1];
    }
  }

  /** The stage loop: it stops at the first bad row, with `seen` the names so far. */
  method LoadStages(models: Aliases, rows: seq<RawStage>)
    returns (res: Result<seq<Stage>, PipelineError>, requested: int)
    ensures res.Ok? <==> forall i :: 0 <= i < |rows| ==> RowOk(models, rows, i)
    ensures res.Ok? ==> Built(models, rows, res.value) && requested == RowTokens(rows)
    ensures res.Err? ==> res.error == ConfigError
  {
    hide RowTokens;
    hide Strip;
    hide Blank;
    RowTokensFrom(rows, 0);
    var seen: set<string> := {};
    var stages: seq<Stage> := [];
    requested := 0;
    for n := 0 to |rows|
      invariant |stages| == n && requested == RowTokens(rows[..n])
      invariant forall i :: 0 <= i < n ==> RowOk(models, rows, i) && stages[i] == StageOf(models, rows[i])
      invariant forall x :: x in seen <==> exists i :: 0 <= i < n && Strip(rows[i].name) == x
    {
      var row := rows[n];
      var name, alias := Strip(row.name), Strip(row.alias);
      StripBlank(row.name);
      if name == "" || name in seen || alias !in models || !row.maxTokens.Given? || row.maxTokens.value <= 0 {
        assert !RowOk(models, rows, n);
        return Err(ConfigError), requested;
      }
      if row.inputFrom.Some? && Strip(row.inputFrom.value) !in seen {
        assert !RowOk(models, rows, n);
        return Err(ConfigError), requested;
      }
      assert RowOk(models, rows, n);
      stages := stages + [StageOf(models, row)];
      seen := seen + {name};
      requested := requested + row.maxTokens.value;
      RowTokensFrom(rows, n + 1);
    }
    assert rows[..|rows|] == rows;
    return Ok(stages), requested;
  }

  /** The recipe says what its rows and settings say, with the defaults filled in. */
  ghost predicate LoadedFrom(models: Aliases, raw: RawRecipe, recipe: Recipe) {
    && Built(models, raw.rows, recipe.stages)
    && raw.costReservationUsd == Given(recipe.costReservationUsd)
    && recipe.maxTotalTokens == (match raw.maxTotalTokens case Given(n) => n case _ => RequestedTokens(recipe.stages))
    && recipe.maxInputTokens == (match raw.maxInputTokens case Given(n) => n case _ => recipe.maxTotalTokens)
  }

  /** One recipe: accepted exactly when acceptable, and then well formed for the run loop. */
  method LoadRecipe(models: Aliases, name: string, raw: RawRecipe) returns (res: Result<Recipe, PipelineError>)
    ensures res.Ok? <==> Acceptable(models, raw)
    ensures res.Ok? ==> LoadedFrom(models, raw, res.value) && WellFormed(models, res.value) && res.value.name == name
    ensures res.Err? ==> res.error == ConfigError
  {
    hide RowOk;
    hide StageOk;
    if raw.rows == [] || |raw.rows| > MAX_STAGES {
      return Err(ConfigError);
    }
    var loaded, requested := LoadStages(models, raw.rows);
    if loaded.Err? {
      return Err(ConfigError);
    }
    var stages := loaded.value;
    BuiltTokens(models, raw.rows, stages);
    forall i | 0 <= i < |stages|
      ensures StageOk(stages, i) && FromAlias(models, stages[i].models)
    {
      BuiltStageOk(models, raw.rows, stages, i);
    }
    if raw.maxTotalTokens.Malformed? || raw.maxInputTokens.Malformed? {
      return Err(ConfigError);
    }
    var total := OrElse(raw.maxTotalTokens, requested);
    var input := OrElse(raw.maxInputTokens, total);
    if total <= 0 || input <= 0 || requested > total {
      return Err(ConfigError);
    }
    if !raw.costReservationUsd.Given? || raw.costReservationUsd.value <= 0.0 {
      return Err(ConfigError);
    }
    return Ok(Recipe(name, stages, total, input, raw.costReservationUsd.value));
  }

  // ---- the model registry ----

  datatype Registry = Registry(tiers: map<string, int>, backends: map<string, string>, allowList: set<string>)

  predicate ModelOk(registry: Registry, model: string) {
    && ((model in registry.tiers && registry.tiers[model] == PIPELINE_TIER) || model in registry.allowList)
    && model in registry.backends && !Blank(registry.backends[model])
  }

  ghost predicate Registered(models: Aliases, registry: Registry) {
    forall alias, model :: alias in models && model in models[alias] ==>
      && ((model in registry.tiers && registry.tiers[model] == 5) || model in registry.allowList)
      && model in registry.backends && Strip(registry.backends[model]) != ""
  }

  lemma RegisteredExactly(models: Aliases, registry: Registry)
    ensures Registered(models, registry) <==> forall alias, model :: alias in models && model in models[alias] ==> ModelOk(registry, model)
  {
    hide Strip;
    hide Blank;
    forall model
      ensures ModelOk(registry, model) <==>
        && ((model in registry.tiers && registry.tiers[model] == 5) || model in registry.allowList)
        && model in registry.backends && Strip(registry.backends[model]) != ""
    {
      if model in registry.backends {
        StripBlank(registry.backends[model]);
      }
    }
  }

  /** Every candidate of every alias has a backend that is not empty. */
  ghost predicate BackendsCover(models: Aliases, backends: map<string, string>) {
    forall alias, model :: alias in models && model in models[alias] ==> model in backends && backends[model] != ""
  }

  /** The backend of every candidate, or an error when some candidate is not eligible. */
  method LoadBackends(models: Aliases, registry: Registry) returns (res: Result<map<string, string>, PipelineError>)
    ensures res.Ok? <==> Registered(models, registry)
    ensures res.Ok? ==> BackendsCover(models, res.value)
    ensures res.Ok? ==> forall m :: m in res.value ==> m in registry.backends && res.value[m] == Strip(registry.backends[m])
  {
    hide Strip;
    hide Blank;
    hide Registered;
    RegisteredExactly(models, registry);
    var found: map<string, string> := map[];
    var todo := models.Keys;
    while todo != {}
      invariant todo <= models.Keys
      invariant forall alias, m :: alias in models.Keys - todo && m in models[alias] ==>
                  ModelOk(registry, m) && m in found && found[m] != ""
      invariant forall m :: m in found ==> m in registry.backends && found[m] == Strip(registry.backends[m])
    {
      var alias :| alias in todo;
      var candidates := models[alias];
      for i := 0 to |candidates|
        invariant forall j :: 0 <= j < i ==> ModelOk(registry, candidates[j]) && candidates[j] in found && found[candidates[j]] != ""
        invariant forall alias, m :: alias in models.Keys - todo && m in models[alias] ==>
                    ModelOk(registry, m) && m in found && found[m] != ""
        invariant forall m :: m in found ==> m in registry.backends && found[m] == Strip(registry.backends[m])
      {
        var model := candidates[i];
        if !ModelOk(registry, model) {
          assert alias in models && model in models[alias];
          return Err(ConfigError);
        }
        StripBlank(registry.backends[model]);
        found := found[model := Strip(registry.backends[model])];
      }
      todo := todo - {alias};
    }
    return Ok(found);
  }
}
