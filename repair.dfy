// The automated repair flow: two repair tasks built from the smoke-check
// failures, a minimal input map, and a kickoff that falls back to a run
// without inputs when interpolation fails.
module Repair {
  import opened Base
  import opened Text
  import opened Template
  import opened Artifacts
  import opened RepairTexts

  // ---------------------------------------------------------------------------
  // Records handed to the crew framework
  // ---------------------------------------------------------------------------

  datatype Agent = BackendEngineer | IntegrationEngineer

  datatype Task = Task(description: string, expectedOutput: string, agent: Agent,
                       outputFile: string, context: seq<Task>)

  /** A sequential crew: its agents and its tasks, run in order. */
  datatype RepairCrew = RepairCrew(agents: seq<Agent>, tasks: seq<Task>)

  /**
   * What a kickoff or a callback can raise: a `ValueError`, any other
   * `Exception`, or a `BaseException` that is not an `Exception` (which no
   * `except Exception` clause catches).
   */
  datatype Exc = ValueError(msg: string) | OtherError(msg: string) | NonException(msg: string)

  /** The outcome of one kickoff of the repair crew, decided by the framework. */
  datatype Kickoff = Completed | Raises(exc: Exc)

  /** A line the repair flow prints: the interpolation failure, then the retry notice. */
  datatype FlowLine = InterpolationFailure(msg: string) | RetryWithoutInputs

  /**
   * One run of the repair flow's kickoffs: the inputs of each kickoff in
   * order (`None` for a kickoff without inputs), the lines it printed, and
   * the exception it let out.
   */
  datatype FlowResult = FlowResult(kickoffs: seq<Option<map<string, string>>>, printed: seq<FlowLine>,
                                   raised: Option<Exc>)

  /** The text a flow line shows. */
  function FlowLineText(line: FlowLine): string
  {
    match line
    case InterpolationFailure(msg) => InterpolationFailed + msg
    case RetryWithoutInputs => RetryingLine
  }

  function BackendDescription(moduleName: string, safeErrors: seq<string>): string
  {
    BackendIntro + moduleName + BackendPurpose + BackendFixLine + Join(safeErrors, Bullet)
  }

  function IntegrationDescription(safeRequirements: string, safeOutput: string, safeErrors: seq<string>): string
  {
    IntegrationHead() + safeRequirements + IntegrationMid() + safeOutput + FailuresLine + Join(safeErrors, Bullet)
  }

  // ---------------------------------------------------------------------------
  // Building the crew and its inputs
  // ---------------------------------------------------------------------------

  /** The backend repair task: it rewrites `output/<module_name>`, with the module name as given. */
  function BackendRepairTask(moduleName: string, safeErrors: seq<string>): Task
  {
    Task(BackendDescription(moduleName, safeErrors), ExpectedIntro + moduleName + ExpectedOutro,
         BackendEngineer, "output/" + moduleName, [])
  }

  /** The integration repair task, which sees the backend task's result as context. */
  function IntegrationRepairTask(safeRequirements: string, safeOutput: string, safeErrors: seq<string>,
                                 backendTask: Task): Task
  {
    Task(IntegrationDescription(safeRequirements, safeOutput, safeErrors), IntegrationExpected,
         IntegrationEngineer, "output/main.py", [backendTask])
  }

  /**
   * The crew the flow builds. The requirements, the integration output and
   * every smoke error are escaped; the module name is embedded as given.
   */
  function RepairCrewFor(kickoffInputs: map<string, string>, smokeErrors: seq<string>,
                         integrationOutput: string): (c: RepairCrew)
    ensures |c.tasks| == 2 && c.agents == [BackendEngineer, IntegrationEngineer]
    ensures c.tasks[0].agent == BackendEngineer && c.tasks[1].agent == IntegrationEngineer
    ensures c.tasks[0].context == [] && c.tasks[1].context == [c.tasks[0]]
    ensures c.tasks[0].outputFile == "output/" + ModuleName(kickoffInputs)
    ensures c.tasks[1].outputFile == MainFile
  {
    var safeErrors := EscapeAll(smokeErrors);
    var backendTask := BackendRepairTask(ModuleName(kickoffInputs), safeErrors);
    var integrationTask := IntegrationRepairTask(Escape(Requirements(kickoffInputs)), Escape(integrationOutput),
                                                 safeErrors, backendTask);
    RepairCrew([BackendEngineer, IntegrationEngineer], [backendTask, integrationTask])
  }

  /** Only the two scalar inputs the repair tasks may name, never the parent's whole payload. */
  function RepairInputs(kickoffInputs: map<string, string>): map<string, string>
  {
    map["requirements" := Escape(Requirements(kickoffInputs)), "module_name" := BackendFileName(kickoffInputs)]
  }

  /**
   * The repair inputs hold exactly the two keys; the requirements render
   * back to the raw text, and the module name is the backend's file name.
   */
  lemma RepairInputsMeaning(kickoffInputs: map<string, string>)
    ensures var m := RepairInputs(kickoffInputs);
            && m.Keys == {"requirements", "module_name"}
            && Render(m["requirements"], map[]) == Some(Requirements(kickoffInputs))
            && m["module_name"] == BackendFileName(kickoffInputs)
  {
    RenderEscaped(Requirements(kickoffInputs), map[]);
  }

  /** The exception a kickoff lets out, if any. */
  function Raised(k: Kickoff): Option<Exc>
  {
    match k
    case Completed => None
    case Raises(e) => Some(e)
  }

  /**
   * The kickoffs of the repair flow, whose crew is `RepairCrewFor` of the
   * same kickoff inputs, smoke errors and integration output, under the
   * framework's kickoff outcomes `first` and `retry`.
   */
  function RunRepairFlow(kickoffInputs: map<string, string>, first: Kickoff, retry: Kickoff): FlowResult
  {
    var inputs := RepairInputs(kickoffInputs);
    match first
    case Raises(ValueError(m)) =>
      FlowResult([Some(inputs), None], [InterpolationFailure(m), RetryWithoutInputs], Raised(retry))
    case _ =>
      FlowResult([Some(inputs)], [], Raised(first))
  }

  /**
   * The flow kicks off the repair crew once with the escaped inputs; only a
   * `ValueError` from that kickoff is reported and followed by exactly one
   * kickoff without inputs, whose outcome is the flow's; any other outcome
   * of the first kickoff is the flow's.
   */
  lemma RepairFlowOutcome(kickoffInputs: map<string, string>, first: Kickoff, retry: Kickoff)
    ensures var r := RunRepairFlow(kickoffInputs, first, retry);
            && 1 <= |r.kickoffs| <= 2 && r.kickoffs[0] == Some(RepairInputs(kickoffInputs))
            && (|r.kickoffs| == 2 <==> first.Raises? && first.exc.ValueError?)
            && (|r.kickoffs| == 1 ==> r.printed == [] && r.raised == Raised(first))
            && (|r.kickoffs| == 2 ==>
                  && r.kickoffs[1] == None
                  && r.printed == [InterpolationFailure(first.exc.msg), RetryWithoutInputs]
                  && r.raised == Raised(retry))
  {
  }

  /**
   * Every line the flow prints carries the guardrail prefix; the first
   * ends with the message of the `ValueError` that made it print.
   */
  lemma FlowLinesText(kickoffInputs: map<string, string>, first: Kickoff, retry: Kickoff)
    ensures var r := RunRepairFlow(kickoffInputs, first, retry);
            && (forall i :: 0 <= i < |r.printed| ==> GuardrailPrefix <= FlowLineText(r.printed[i]))
            && (r.printed != [] ==>
                  var text := FlowLineText(r.printed[0]);
                  |first.exc.msg| <= |text| && text[|text| - |first.exc.msg|..] == first.exc.msg)
  {
    FlowTextsBraceFree();
    var r := RunRepairFlow(kickoffInputs, first, retry);
    if r.printed != [] {
      assert FlowLineText(r.printed[0]) == InterpolationFailed + first.exc.msg;
    }
  }

  // ---------------------------------------------------------------------------
  // What the escaping buys
  // ---------------------------------------------------------------------------

  /**
   * The integration repair description renders, under any input map, to the
   * text with the raw requirements, integration output and smoke errors:
   * nothing taken from them can act as a placeholder.
   */
  lemma IntegrationDescriptionLiteral(kickoffInputs: map<string, string>, smokeErrors: seq<string>,
                                      integrationOutput: string, vars: map<string, string>)
    ensures Render(RepairCrewFor(kickoffInputs, smokeErrors, integrationOutput).tasks[1].description, vars)
            == Some(IntegrationDescription(Requirements(kickoffInputs), integrationOutput, smokeErrors))
  {
    var req := Requirements(kickoffInputs);
    var head := IntegrationHead();
    var mid := IntegrationMid();
    var raw := IntegrationDescription(req, integrationOutput, smokeErrors);
    IntegrationHeadBraceFree();
    IntegrationMidBraceFree();
    FailuresLineBraceFree();
    BulletBraceFree();
    EscapeBraceFree(head);
    EscapeBraceFree(mid);
    EscapeBraceFree(FailuresLine);
    EscapeJoin(smokeErrors, Bullet);
    EscapeConcat(head, req);
    EscapeConcat(head + req, mid);
    EscapeConcat(head + req + mid, integrationOutput);
    EscapeConcat(head + req + mid + integrationOutput, FailuresLine);
    EscapeConcat(head + req + mid + integrationOutput + FailuresLine, Join(smokeErrors, Bullet));
    assert Escape(raw) == IntegrationDescription(Escape(req), Escape(integrationOutput), EscapeAll(smokeErrors));
    RenderEscaped(raw, vars);
  }

  /**
   * The backend repair description renders literally too, as long as the
   * module name itself holds no brace.
   */
  lemma BackendDescriptionLiteral(kickoffInputs: map<string, string>, smokeErrors: seq<string>,
                                  integrationOutput: string, vars: map<string, string>)
    requires BraceFree(ModuleName(kickoffInputs))
    ensures Render(RepairCrewFor(kickoffInputs, smokeErrors, integrationOutput).tasks[0].description, vars)
            == Some(BackendDescription(ModuleName(kickoffInputs), smokeErrors))
  {
    var m := ModuleName(kickoffInputs);
    var head := BackendIntro + m + BackendPurpose + BackendFixLine;
    BackendTextsBraceFree();
    BulletBraceFree();
    BraceFreeConcat(BackendIntro, m);
    BraceFreeConcat(BackendIntro + m, BackendPurpose);
    BraceFreeConcat(BackendIntro + m + BackendPurpose, BackendFixLine);
    EscapeJoin(smokeErrors, Bullet);
    RenderBraceFreePrefix(head, Escape(Join(smokeErrors, Bullet)), vars);
    RenderEscaped(Join(smokeErrors, Bullet), vars);
  }

  /** The integration task's expected output holds no placeholder: it renders as written. */
  lemma IntegrationExpectedLiteral(kickoffInputs: map<string, string>, smokeErrors: seq<string>,
                                   integrationOutput: string, vars: map<string, string>)
    ensures Render(RepairCrewFor(kickoffInputs, smokeErrors, integrationOutput).tasks[1].expectedOutput, vars)
            == Some(IntegrationExpected)
  {
    IntegrationExpectedBraceFree();
    EscapeBraceFree(IntegrationExpected);
    RenderEscaped(IntegrationExpected, vars);
  }

  /** The backend task's expected output renders as written when the module name has no brace. */
  lemma BackendExpectedLiteral(kickoffInputs: map<string, string>, smokeErrors: seq<string>,
                               integrationOutput: string, vars: map<string, string>)
    requires BraceFree(ModuleName(kickoffInputs))
    ensures Render(RepairCrewFor(kickoffInputs, smokeErrors, integrationOutput).tasks[0].expectedOutput, vars)
            == Some(ExpectedIntro + ModuleName(kickoffInputs) + ExpectedOutro)
  {
    var text := ExpectedIntro + ModuleName(kickoffInputs) + ExpectedOutro;
    ExpectedOutroBraceFree();
    BraceFreeConcat(ExpectedIntro, ModuleName(kickoffInputs));
    BraceFreeConcat(ExpectedIntro + ModuleName(kickoffInputs), ExpectedOutro);
    EscapeBraceFree(text);
    RenderEscaped(text, vars);
  }

  lemma Regroup(a: string, b: string, c: string, d: string, e: string)
    ensures a + b + c + d + e == a + (b + (c + d + e))
    ensures a + b + c + d + e == a + b + c + (d + e)
  {
  }

  /**
   * The module name is not escaped: a name starting with a placeholder for
   * an identifier other than the two repair inputs makes the backend
   * description fail to render under the repair inputs.
   */
  lemma UnescapedModuleNameBreaksRendering(kickoffInputs: map<string, string>, smokeErrors: seq<string>,
                                           integrationOutput: string, key: string, rest: string)
    requires Identifier(key) && key != "requirements" && key != "module_name"
    requires ModuleName(kickoffInputs) == "{" + key + "}" + rest
    ensures Render(RepairCrewFor(kickoffInputs, smokeErrors, integrationOutput).tasks[0].description,
                   RepairInputs(kickoffInputs)) == None
  {
    var m := ModuleName(kickoffInputs);
    var vars := RepairInputs(kickoffInputs);
    var after := BackendPurpose + BackendFixLine + Join(EscapeAll(smokeErrors), Bullet);
    BackendTextsBraceFree();
    Regroup(BackendIntro, m, BackendPurpose, BackendFixLine, Join(EscapeAll(smokeErrors), Bullet));
    Regroup("{", key, "}", rest, after);
    RepairInputsMeaning(kickoffInputs);
    assert key !in vars;
    RenderUnknownPlaceholder(BackendIntro, key, rest + after, vars);
  }

  /** The same module name makes the backend task's expected output fail to render too. */
  lemma UnescapedModuleNameBreaksExpectedOutput(kickoffInputs: map<string, string>, smokeErrors: seq<string>,
                                                integrationOutput: string, key: string, rest: string)
    requires Identifier(key) && key != "requirements" && key != "module_name"
    requires ModuleName(kickoffInputs) == "{" + key + "}" + rest
    ensures Render(RepairCrewFor(kickoffInputs, smokeErrors, integrationOutput).tasks[0].expectedOutput,
                   RepairInputs(kickoffInputs)) == None
  {
    var m := ModuleName(kickoffInputs);
    var vars := RepairInputs(kickoffInputs);
    ExpectedOutroBraceFree();
    assert ExpectedIntro + m + ExpectedOutro == ExpectedIntro + ("{" + key + "}" + (rest + ExpectedOutro));
    RepairInputsMeaning(kickoffInputs);
    assert key !in vars;
    RenderUnknownPlaceholder(ExpectedIntro, key, rest + ExpectedOutro, vars);
  }

  /**
   * The backend repair task writes the file the smoke check reads exactly
   * when the module name is a plain, non-empty file name; a name with a
   * directory part sends the repair elsewhere.
   */
  lemma RepairTargetIsCheckedArtifact(kickoffInputs: map<string, string>, smokeErrors: seq<string>,
                                      integrationOutput: string)
    ensures RepairCrewFor(kickoffInputs, smokeErrors, integrationOutput).tasks[0].outputFile
              == RequiredFiles(BackendFileName(kickoffInputs))[0]
            <==> ModuleName(kickoffInputs) == BackendFileName(kickoffInputs) && ModuleName(kickoffInputs) != ""
  {
    var m := ModuleName(kickoffInputs);
    var n := BackendFileName(kickoffInputs);
    assert |"output/" + m| == 7 + |m| && |"output"| == 6;
    if n != "" {
      assert ("output/" + m)[7..] == m && ("output/" + n)[7..] == n;
    }
  }

  /** For example, `pkg/backend.py` is repaired at `output/pkg/backend.py` but checked at `output/backend.py`. */
  lemma NestedModuleRepairedElsewhere(kickoffInputs: map<string, string>, smokeErrors: seq<string>,
                                      integrationOutput: string, dir: string, file: string)
    requires file != "" && file != "." && '/' !in file
    requires ModuleName(kickoffInputs) == dir + "/" + file
    ensures RequiredFiles(BackendFileName(kickoffInputs))[0] == "output/" + file
    ensures RepairCrewFor(kickoffInputs, smokeErrors, integrationOutput).tasks[0].outputFile
            != RequiredFiles(BackendFileName(kickoffInputs))[0]
  {
    PathNameOfJoin(dir, file);
    RepairTargetIsCheckedArtifact(kickoffInputs, smokeErrors, integrationOutput);
    assert |ModuleName(kickoffInputs)| > |file|;
  }
}
