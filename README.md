# Validation-gated self-repair of the engineering crew

This project models the self-repair guardrails of the `EngineeringTeam2` crew
(`3_crew/engineering_team_2/src/engineering_team_2/crew.py`) and proves
properties of the model in Dafny. When the integration task finishes, its
callback runs a smoke check over the generated artifacts. The check has three
gated phases:

- presence and compilation of the backend module, `output/app.py` and
  `output/main.py`;
- an import probe in a subprocess;
- a symbol contract between what the consumers import from the backend and
  what the backend defines.

If the check fails, the callback runs a repair crew once per kickoff. The
crew has two tasks, and its kickoff falls back to a run without inputs when
template interpolation fails. A re-entrancy flag guards the repair, and the
callback suppresses every `Exception` the repair raises.

Modules:

- `Base`: `Option`.
- `Text`: the Python string and path helpers the code relies on:
  - `str.strip`;
  - `", ".join`;
  - code-point order and `sorted` of a set;
  - `PurePosixPath.name` and `.stem`.
- `Template`: `_escape_template_tokens` (`Escape`), its inverse (`Unescape`),
  and a `str.format`-style renderer (`Render`). The renderer states what the
  escaping protects against.
- `Artifacts`: the inputs the host runtime supplies, the smoke error kinds and
  their messages, and two layers:
  - specification functions (`PresenceErrors`, `ContractErrors`,
    `SmokeErrors`, and `SmokeCheck`, whose outcome is either the errors or
    the exception a compile raises);
  - the imperative methods `ValidateBackendSymbolContract` and
    `SmokeCheckArtifacts`, proved equal to those functions.
- `RepairTexts`: the fixed texts of the repair tasks and of the repair
  flow's log lines, each proved free of braces.
- `Repair`: the two repair tasks, the repair crew, the minimal kickoff inputs
  and the kickoff-with-fallback policy of `_run_repair_flow`.
- `Guardrails`:
  - the callback as a specification function (`Steps`, `Hook`);
  - the class `EngineeringTeam`, with the `_kickoff_inputs`,
    `_repair_attempted` and `_repair_in_progress` fields, a ghost count of
    repair runs and a ghost trace of what the callback observably does;
  - `SetupGuardrails` and `OnIntegrationDone`, proved against those functions.

The host runtime is modelled as inputs:

- The filesystem, `py_compile` and `ast.parse` form one snapshot: a map from
  path to `Missing | Present(compile, parse)`. A compile either succeeds,
  raises `PyCompileError`, or raises another exception (as it does on a
  directory).
- The import probe is a `(returncode, stdout, stderr)` record.
- Loading the backend gives `NoSpec | ExecFails(msg) | Loaded(attributes)`.
- Each kickoff of the repair crew gives `Completed | Raises(exc)`.

A callback invocation (`HookCall`) carries the smoke-check environment before
and after the repair, the two kickoff outcomes and the integration task's raw
output.

## Model

| member | source | states |
|---|---|---|
| Template.Escape | 3_crew/engineering_team_2/src/engineering_team_2/crew.py:250-254 | `_escape_template_tokens`: both `replace` passes. Its properties are the lemmas below. |
| Template.EscapeIsDoubled | 3_crew/engineering_team_2/src/engineering_team_2/crew.py:250-254 | The two chained `replace` passes equal the per-character map that turns `{` into `{{`, `}` into `}}` and keeps every other character in order. |
| Template.EscapeLength | 3_crew/engineering_team_2/src/engineering_team_2/crew.py:250-254 | The escaped text is as long as the input plus its number of braces. |
| Template.EscapeWellEscaped | 3_crew/engineering_team_2/src/engineering_team_2/crew.py:250-254 | Every brace in the escaped text belongs to a doubled pair. |
| Template.UnescapeEscape | 3_crew/engineering_team_2/src/engineering_team_2/crew.py:250-254 | Collapsing the doubled braces of the escaped text gives back the input. |
| Template.EscapeUnescape | 3_crew/engineering_team_2/src/engineering_team_2/crew.py:250-254 | Conversely, any text whose braces are all doubled is the escape of its collapse, so escaping is a bijection onto well-escaped text. |
| Template.EscapeBraceFree | 3_crew/engineering_team_2/src/engineering_team_2/crew.py:250-254 | Text without braces is left unchanged. |
| Template.EscapeConcat | 3_crew/engineering_team_2/src/engineering_team_2/crew.py:250-254 | Escaping distributes over concatenation. |
| Template.EscapeAll | 3_crew/engineering_team_2/src/engineering_team_2/crew.py:264 | The list comprehension escapes every smoke error, one per input, in order. |
| Template.EscapeJoin | 3_crew/engineering_team_2/src/engineering_team_2/crew.py:264-270 | Joining escaped errors with a brace-free separator equals escaping the joined errors. |
| Template.RenderEscaped | 3_crew/engineering_team_2/src/engineering_team_2/crew.py:252-254 | An escaped text renders back to exactly the original text under any variables, so it cannot form a placeholder. |
| Template.RenderEscapedPrefix | 3_crew/engineering_team_2/src/engineering_team_2/crew.py:252-254 | An escaped piece renders to itself followed by the rendering of whatever follows it. |
| Template.PlaceholderTextStaysLiteral | 3_crew/engineering_team_2/src/engineering_team_2/crew.py:252-254 | The text `{name}` escapes to `{{name}}`, which renders back to the literal `{name}` and not to a lookup. |
| Template.RenderUnknownPlaceholder | 3_crew/engineering_team_2/src/engineering_team_2/crew.py:252-253 | Unescaped text that holds `{name}`, for an identifier `name` that is not supplied, makes rendering fail. |
| Text.PathName | 3_crew/engineering_team_2/src/engineering_team_2/crew.py:139-140 | `PurePosixPath.name`: the last path component that is neither empty nor `.`. `PathNameIsLastPart` states this. |
| Text.PathStem | 3_crew/engineering_team_2/src/engineering_team_2/crew.py:141 | `PurePosixPath.stem`. `PathStemMeaning` states its meaning. |
| Text.Strip | 3_crew/engineering_team_2/src/engineering_team_2/crew.py:174-175 | `strip` removes exactly the leading and trailing whitespace: the result is a slice of the input with only whitespace outside it. It is empty iff the input is all whitespace, and otherwise it starts and ends with non-whitespace. |
| Text.SortedStrings | 3_crew/engineering_team_2/src/engineering_team_2/crew.py:239-241 | `sorted` of a set of names is strictly increasing in code-point order and holds exactly the set's elements. |
| Text.SortedUnique | 3_crew/engineering_team_2/src/engineering_team_2/crew.py:239-241 | Two strictly sorted sequences with the same elements are equal, so the sorted list is determined by the set. |
| Text.StrLessTransitive | 3_crew/engineering_team_2/src/engineering_team_2/crew.py:239-241 | The code-point order `sorted` uses is transitive. |
| Text.StrLessTotal | 3_crew/engineering_team_2/src/engineering_team_2/crew.py:239-241 | The order is total: any two distinct strings are comparable. |
| Text.LeastExists | 3_crew/engineering_team_2/src/engineering_team_2/crew.py:239-241 | Every non-empty set of strings has a least element. |
| Text.PathNameShape | 3_crew/engineering_team_2/src/engineering_team_2/crew.py:139-140 | `Path(module_name).name` contains no `/` and is never `.`. |
| Text.ComponentsJoin | 3_crew/engineering_team_2/src/engineering_team_2/crew.py:139-140 | Joining the `/`-separated components with `/` gives back the path. |
| Text.ComponentsHaveNoSlash | 3_crew/engineering_team_2/src/engineering_team_2/crew.py:139-140 | No component holds a `/`. |
| Text.SignificantParts | 3_crew/engineering_team_2/src/engineering_team_2/crew.py:139-140 | The components that are neither empty nor `.`, taken in order from the input, at most as many as the input. |
| Text.PathNameIsLastPart | 3_crew/engineering_team_2/src/engineering_team_2/crew.py:139-140 | `name` is the last component that is neither empty nor `.`, and it is empty iff every component is empty or `.`. |
| Text.PathNameOfJoin | 3_crew/engineering_team_2/src/engineering_team_2/crew.py:139-140 | The name of `dir/file` is `file`, and a plain file name is its own name. |
| Text.LastIndexOfMeaning | 3_crew/engineering_team_2/src/engineering_team_2/crew.py:141 | The last-occurrence search finds the final `.` of the name, with no `.` after it. |
| Text.PathStemMeaning | 3_crew/engineering_team_2/src/engineering_team_2/crew.py:141 | `stem` is a prefix of the name. It drops a non-empty final suffix that starts at a `.` past the first character. It equals the name iff there is no such suffix. |
| Text.PathStemOfExtension | 3_crew/engineering_team_2/src/engineering_team_2/crew.py:141 | The stem of `base.ext` is `base`. |
| Artifacts.ModuleName | 3_crew/engineering_team_2/src/engineering_team_2/crew.py:138 | `module_name` defaults to `backend.py` when the kickoff inputs lack it. |
| Artifacts.Requirements | 3_crew/engineering_team_2/src/engineering_team_2/crew.py:261 | `requirements` defaults to the empty text. |
| Artifacts.DefaultBackendStem | 3_crew/engineering_team_2/src/engineering_team_2/crew.py:138-141 | The default module `backend.py` is imported as `backend`. |
| Artifacts.RequiredArtifacts | 3_crew/engineering_team_2/src/engineering_team_2/crew.py:137-146 | Without `module_name`, the required files are `output/backend.py`, `output/app.py` and `output/main.py`. With `module_name` equal to `dir/file` or `file`, the first required file is `output/file`. |
| Artifacts.PresenceCounts | 3_crew/engineering_team_2/src/engineering_team_2/crew.py:148-155 | Each absent required file gives exactly one "Missing required artifact" error per time it is listed. Each present file that fails to compile gives exactly one "Syntax error" error with its message. |
| Artifacts.PresenceErrorCount | 3_crew/engineering_team_2/src/engineering_team_2/crew.py:148-155 | The general count behind `PresenceCounts`: a presence error occurs once per listing of its path if that file produces it, and never otherwise. |
| Artifacts.PresenceErrorsMeaning | 3_crew/engineering_team_2/src/engineering_team_2/crew.py:148-155 | Presence errors name only listed paths. There are none iff every required file exists and compiles. |
| Artifacts.MissingArtifactReportedOnce | 3_crew/engineering_team_2/src/engineering_team_2/crew.py:148-155 | In the whole smoke check, an absent file is reported missing exactly once per listing and is never reported with a syntax error (it is not compiled). |
| Artifacts.PhaseGating | 3_crew/engineering_team_2/src/engineering_team_2/crew.py:158-187 | Any presence error skips the probe and the contract, and the result is exactly those errors. A failing probe gives exactly one import error. Contract errors occur only when presence passed and the probe returned 0. An import error occurs only when presence passed and the probe failed. |
| Artifacts.AfterPresence | 3_crew/engineering_team_2/src/engineering_team_2/crew.py:148-158 | When the presence phase is clean, no required file failed to compile with a syntax error. Without a compile fault, every required file exists and compiles. No later error is a presence error. |
| Artifacts.FileSymbolsMeaning | 3_crew/engineering_team_2/src/engineering_team_2/crew.py:211-218 | A name is required by a file's nodes iff some `ImportFrom` node of that file imports it from the backend stem and the name is not `*`. |
| Artifacts.RequiredSymbolsMeaning | 3_crew/engineering_team_2/src/engineering_team_2/crew.py:201-218 | A name is required iff some consumer exists, parses, and imports it from the backend stem. Missing and unparsable consumers contribute nothing. |
| Artifacts.ParseErrorsKinds | 3_crew/engineering_team_2/src/engineering_team_2/crew.py:202-209 | The consumer phase only reports "Unable to parse" errors, each for a listed consumer. |
| Artifacts.ParseErrorsCount | 3_crew/engineering_team_2/src/engineering_team_2/crew.py:202-209 | Each consumer that exists but fails to parse gives exactly one "Unable to parse" error per listing. Missing consumers are skipped without error. |
| Artifacts.LoadVerdict | 3_crew/engineering_team_2/src/engineering_team_2/crew.py:223-246 | After the load, at most one error is added. A failed load gives exactly one load error and never a mismatch. A loaded module gives no error iff every required name is an attribute. Otherwise it gives one mismatch listing exactly the missing names in sorted order. |
| Artifacts.ContractOutcome | 3_crew/engineering_team_2/src/engineering_team_2/crew.py:220-246 | With no required names, the result is the parse errors whatever the backend load is, so the backend is not consulted. Otherwise the result is the parse errors followed by the load verdict. |
| Artifacts.ContractErrorKinds | 3_crew/engineering_team_2/src/engineering_team_2/crew.py:197-248 | The contract check only reports contract-kind errors. |
| Artifacts.AddImportedNames | 3_crew/engineering_team_2/src/engineering_team_2/crew.py:212-218 | The alias loop adds exactly the node's required names to the set. |
| Artifacts.AddFileSymbols | 3_crew/engineering_team_2/src/engineering_team_2/crew.py:211-218 | The walk over a file's `ImportFrom` nodes adds exactly the file's required names. |
| Artifacts.CheckLoad | 3_crew/engineering_team_2/src/engineering_team_2/crew.py:223-246 | The load-and-compare steps return the load verdict. |
| Artifacts.ValidateBackendSymbolContract | 3_crew/engineering_team_2/src/engineering_team_2/crew.py:191-248 | The imperative contract check returns exactly the specified contract errors. |
| Artifacts.CheckPresence | 3_crew/engineering_team_2/src/engineering_team_2/crew.py:148-155 | The presence loop stops at the first required file whose compile raises something other than `PyCompileError`, and returns that exception's message as the compile fault. Otherwise it returns exactly the specified presence errors. |
| Artifacts.SmokeCheckArtifacts | 3_crew/engineering_team_2/src/engineering_team_2/crew.py:135-189 | The imperative smoke check returns exactly the specified outcome: the exception of a compile fault, or else the specified smoke errors. |
| Artifacts.CompileFaultMeaning | 3_crew/engineering_team_2/src/engineering_team_2/crew.py:148-155 | No compile fault occurs iff no listed file that exists raises on compile. Otherwise the fault is the message of the first listed file that does. |
| Artifacts.NamelessModuleChecksOutputDirectory | 3_crew/engineering_team_2/src/engineering_team_2/crew.py:139-155 | A `module_name` of `""`, `.` or `/` has an empty name, so the first required path is `output` itself. When compiling that raises, the smoke check raises that exception. |
| Artifacts.Messages | 3_crew/engineering_team_2/src/engineering_team_2/crew.py:150-246 | Each error gives one message. |
| Artifacts.MessagesMeaning | 3_crew/engineering_team_2/src/engineering_team_2/crew.py:150-246 | The messages are the errors' texts, in the same order. |
| Artifacts.ExampleVerdict | 3_crew/engineering_team_2/src/engineering_team_2/crew.py:239-246 | Requiring `foo` and `baz` from a backend that defines `foo` and `bar` gives one mismatch that lists `baz`. |
| Artifacts.ContractMismatchExample | 3_crew/engineering_team_2/src/engineering_team_2/crew.py:158-187 | With clean presence and probe, consumers importing `foo` and `baz`, and a backend defining `foo` and `bar`, the whole smoke check reports only that mismatch. |
| Artifacts.PresenceErrors | 3_crew/engineering_team_2/src/engineering_team_2/crew.py:148-155 | The presence phase's errors, for a check that returns. `PresenceErrorsMeaning` and `PresenceCounts` state what they are. |
| Artifacts.ProbeDetails | 3_crew/engineering_team_2/src/engineering_team_2/crew.py:174-176 | The probe's stripped stderr, or its stripped stdout when stderr is blank. |
| Artifacts.ContractErrors | 3_crew/engineering_team_2/src/engineering_team_2/crew.py:191-248 | The contract check's errors. `ContractOutcome`, `LoadVerdict` and `ParseErrorsCount` state what they are. |
| Artifacts.SmokeErrors | 3_crew/engineering_team_2/src/engineering_team_2/crew.py:135-189 | The smoke check's errors when it returns. `PhaseGating` states how the phases combine. |
| Artifacts.SmokeCheck | 3_crew/engineering_team_2/src/engineering_team_2/crew.py:135-189 | The smoke check's outcome: the first compile fault of a required file, or else `SmokeErrors`. |
| Artifacts.Message | 3_crew/engineering_team_2/src/engineering_team_2/crew.py:150-246 | The text of each smoke error, as each `append` writes it. `MessagesMeaning` states the list. |
| Repair.RepairInputs | 3_crew/engineering_team_2/src/engineering_team_2/crew.py:307-310 | The minimal kickoff inputs: the escaped requirements and the module's file name. `RepairInputsMeaning` states their keys and values. |
| Repair.BackendRepairTask | 3_crew/engineering_team_2/src/engineering_team_2/crew.py:266-278 | The backend repair task: its description, expected output, agent and output file. `RepairCrewFor` and the render lemmas state its properties. |
| Repair.IntegrationRepairTask | 3_crew/engineering_team_2/src/engineering_team_2/crew.py:280-297 | The integration repair task, with the backend task as its context. `RepairCrewFor` states its properties. |
| Repair.RunRepairFlow | 3_crew/engineering_team_2/src/engineering_team_2/crew.py:311-318 | The kickoff with its fallback. `RepairFlowOutcome` states what it does. |
| Repair.RepairCrewFor | 3_crew/engineering_team_2/src/engineering_team_2/crew.py:266-304 | The crew holds exactly two tasks, backend repair then integration repair, run by the backend and integration engineers. The integration task's context is exactly the backend task. The output files are `output/{module_name}` and `output/main.py`. |
| Repair.IntegrationDescriptionLiteral | 3_crew/engineering_team_2/src/engineering_team_2/crew.py:280-289 | The integration description renders under any variables to the text built from the raw requirements, integration output and smoke errors, because all three were escaped. |
| Repair.BackendDescriptionLiteral | 3_crew/engineering_team_2/src/engineering_team_2/crew.py:266-271 | The backend description renders to its raw text whenever `module_name` holds no brace. |
| Repair.BackendExpectedLiteral | 3_crew/engineering_team_2/src/engineering_team_2/crew.py:272-275 | The backend task's expected output renders to its raw text whenever `module_name` holds no brace. |
| Repair.IntegrationExpectedLiteral | 3_crew/engineering_team_2/src/engineering_team_2/crew.py:290-293 | The integration task's expected output renders to its raw text under any variables. |
| Repair.UnescapedModuleNameBreaksRendering | 3_crew/engineering_team_2/src/engineering_team_2/crew.py:259-268 | `module_name` is embedded unescaped. A `module_name` starting with `{key}`, for an identifier `key` other than the two repair inputs, makes the backend description fail to render with the repair inputs. |
| Repair.UnescapedModuleNameBreaksExpectedOutput | 3_crew/engineering_team_2/src/engineering_team_2/crew.py:272-275 | The same `module_name` (`{key}` for an identifier `key` other than the two repair inputs) makes the backend task's expected output fail to render too, because it is embedded unescaped there as well. |
| Repair.RepairInputsMeaning | 3_crew/engineering_team_2/src/engineering_team_2/crew.py:259-262 | The repair inputs have exactly the keys `requirements` and `module_name`. The first renders back to the raw requirements. The second is the name of `module_name`. |
| Repair.RepairFlowOutcome | 3_crew/engineering_team_2/src/engineering_team_2/crew.py:307-318 | The first kickoff always uses the repair inputs. A `ValueError` from it triggers exactly one retry without inputs, after the two guardrail lines, and the flow then raises what the retry raises. Any other outcome of the first kickoff is final and propagates unchanged. |
| Repair.FlowLinesText | 3_crew/engineering_team_2/src/engineering_team_2/crew.py:316-317 | Both lines the fallback prints start with `[Guardrail] `, and the first ends with the message of the `ValueError`. |
| Repair.RepairTargetIsCheckedArtifact | 3_crew/engineering_team_2/src/engineering_team_2/crew.py:143 | The backend repair writes the file the smoke check reads iff `module_name` is non-empty and already its own name. |
| Repair.NestedModuleRepairedElsewhere | 3_crew/engineering_team_2/src/engineering_team_2/crew.py:277 | For `module_name` of the form `dir/file`, the smoke check reads `output/file` but the repair writes a different path. |
| RepairTexts.BackendTextsBraceFree | 3_crew/engineering_team_2/src/engineering_team_2/crew.py:266-271 | The fixed pieces of the backend description hold no brace. |
| RepairTexts.ExpectedOutroBraceFree | 3_crew/engineering_team_2/src/engineering_team_2/crew.py:272-275 | The fixed pieces of the backend expected output hold no brace. |
| RepairTexts.IntegrationHeadBraceFree | 3_crew/engineering_team_2/src/engineering_team_2/crew.py:282-284 | The integration description's fixed text before the requirements holds no brace. |
| RepairTexts.IntegrationMidBraceFree | 3_crew/engineering_team_2/src/engineering_team_2/crew.py:285-286 | The integration description's fixed text between the requirements and the observed output holds no brace. |
| RepairTexts.IntegrationExpectedBraceFree | 3_crew/engineering_team_2/src/engineering_team_2/crew.py:290-293 | The integration task's expected output holds no brace. |
| RepairTexts.FlowTextsBraceFree | 3_crew/engineering_team_2/src/engineering_team_2/crew.py:316-317 | The fallback's two log texts hold no brace and start with `[Guardrail] `. |
| Guardrails.Observe | 3_crew/engineering_team_2/src/engineering_team_2/crew.py:325 | What the callback sees of a smoke check: the messages of its errors, or the `Exception` it raised. |
| Guardrails.LineTexts | 3_crew/engineering_team_2/src/engineering_team_2/crew.py:331-358 | Every printed line except the repair banner starts with `[Guardrail] `. The error and suppression lines end with their detail. |
| Guardrails.ErrorLinesMeaning | 3_crew/engineering_team_2/src/engineering_team_2/crew.py:335-336 | Each smoke error is logged as one guardrail line, in order. |
| Guardrails.Suppress | 3_crew/engineering_team_2/src/engineering_team_2/crew.py:356-358 | `except Exception`: an `Exception` is logged and goes no further; anything else escapes. |
| Guardrails.AfterFlow | 3_crew/engineering_team_2/src/engineering_team_2/crew.py:345-358 | After the repair flow: the post-repair check only if the flow returned. An exception from the flow or from that check goes through `Suppress`. |
| Guardrails.Respond | 3_crew/engineering_team_2/src/engineering_team_2/crew.py:329-360 | After a failing check: the skip report when a repair was attempted, or else the banner, the repair and `AfterFlow`. |
| Guardrails.Steps | 3_crew/engineering_team_2/src/engineering_team_2/crew.py:320-360 | The callback's control flow on the flags and the observed outcomes. `StepsGuards`, `StepsRepairs` and `RepairEvents` state its properties. |
| Guardrails.Hook | 3_crew/engineering_team_2/src/engineering_team_2/crew.py:320-360 | `Steps` applied to the smoke checks of the environments before and after the repair, and to the repair flow of the stored inputs. |
| Guardrails.StepsGuards | 3_crew/engineering_team_2/src/engineering_team_2/crew.py:320-337 | While a repair is in progress, the callback does nothing, not even the smoke check. Otherwise it first runs the smoke check. If that check raises, its exception leaves the callback with nothing else done and the flag unchanged. A clean check returns with the flag unchanged. After an earlier attempt, a failing check only prints the skip notice and the errors. |
| Guardrails.StepsRepairs | 3_crew/engineering_team_2/src/engineering_team_2/crew.py:320-360 | One callback runs the repair flow at most once. It runs it iff no repair is in progress, none was attempted, and the check returned failures. The attempted flag is set iff a repair ran or it was already set. Without a repair there is one smoke check (none when re-entered), and only that check's own exception escapes. |
| Guardrails.RepairFault | 3_crew/engineering_team_2/src/engineering_team_2/crew.py:345-358 | The first exception of a repair: the flow's own, or else the one the post-repair check raised. |
| Guardrails.RepairEvents | 3_crew/engineering_team_2/src/engineering_team_2/crew.py:339-360 | On the repair path, the repair runs with the in-progress flag set. The post-repair check runs exactly once, and only if the flow returned. An `Exception` from the flow or that check is suppressed and logged as the last line. Only a non-`Exception` escapes. |
| Guardrails.HookRepairInputs | 3_crew/engineering_team_2/src/engineering_team_2/crew.py:346-348 | The repair is built from the failing check's messages and the raw integration output. Its first kickoff uses the minimal repair inputs of the stored kickoff inputs. |
| Guardrails.NamelessModuleEscapes | 3_crew/engineering_team_2/src/engineering_team_2/crew.py:320-325 | With a `module_name` of `""`, `.` or `/`, a compile of `output` that raises makes the callback raise before any repair, with the attempted flag unchanged. |
| Guardrails.AtMostOneRepairPerKickoff | 3_crew/engineering_team_2/src/engineering_team_2/crew.py:29-35 | Over any sequence of callbacks after a kickoff, the repair flow runs at most once, and `_repair_attempted` ends set iff it ran. |
| Guardrails.EngineeringTeam.SetupGuardrails | 3_crew/engineering_team_2/src/engineering_team_2/crew.py:29-35 | Stores the kickoff inputs, clears both flags and returns the inputs unchanged. |
| Guardrails.EngineeringTeam.LogErrors | 3_crew/engineering_team_2/src/engineering_team_2/crew.py:335-336 | The print loop appends one guardrail line per error and changes nothing else. |
| Guardrails.EngineeringTeam.ReportSkip | 3_crew/engineering_team_2/src/engineering_team_2/crew.py:331-337 | Appends the skip notice and one line per error, and changes nothing else. |
| Guardrails.EngineeringTeam.ReportPostCheck | 3_crew/engineering_team_2/src/engineering_team_2/crew.py:349-355 | Records the post-repair check, and if it failed, the still-fails notice and one line per error. |
| Guardrails.EngineeringTeam.HandleFault | 3_crew/engineering_team_2/src/engineering_team_2/crew.py:356-358 | Logs an `Exception` as suppressed and returns nothing, or lets a non-`Exception` out. It changes nothing else. |
| Guardrails.EngineeringTeam.FinishRepair | 3_crew/engineering_team_2/src/engineering_team_2/crew.py:345-358 | The inner `try` does exactly what `AfterFlow` specifies for the flow and the post-repair environment. |
| Guardrails.EngineeringTeam.GuardedRepair | 3_crew/engineering_team_2/src/engineering_team_2/crew.py:342-358 | With the in-progress flag set, it prints the banner, runs the flow and finishes as `Respond` specifies for a first attempt. |
| Guardrails.EngineeringTeam.RespondToFailures | 3_crew/engineering_team_2/src/engineering_team_2/crew.py:329-360 | After a failed check, the callback either skips (already attempted) or sets both flags, repairs and clears the in-progress flag in the `finally`. The repair count grows by one only in the second case. |
| Guardrails.EngineeringTeam.CheckAndRespond | 3_crew/engineering_team_2/src/engineering_team_2/crew.py:325-360 | Past the re-entrancy guard, it does exactly what `Steps` specifies. An exception from the first smoke check leaves with both flags unchanged. The repair count grows by one iff the attempted flag becomes set. |
| Guardrails.EngineeringTeam.OnIntegrationDone | 3_crew/engineering_team_2/src/engineering_team_2/crew.py:320-360 | The callback does exactly what `Hook` specifies for the stored inputs and flags. `_repair_in_progress` is back to its old value on every exit, including an escaping exception. The class invariant, at most one repair run per kickoff, is preserved. |

## Left out

- The CrewAI framework is not part of this model: agents, task and crew decorators, YAML configuration, and what `Crew.kickoff` does. A kickoff is an outcome given as input, and `Render` models interpolation as the `str.format` convention (`{{`/`}}` stand for braces, `{name}` looks up a variable).
- `py_compile`, `subprocess.run`, `ast.parse`/`ast.walk` and `importlib` are not executed. Their results are inputs: the file snapshot, the probe record and the backend load.
- The text of the import probe script, and the command line that runs it, are not modelled. Only its result record is.
- `Artifacts.SmokeCheck`: models one exception from the smoke check itself, a compile that raises an `Exception` other than `PyCompileError`. It escapes the callback from the first check and is suppressed from the post-repair check. Other exceptions the check can raise are not modelled. These include errors from `exists`, `subprocess.run`, `spec_from_file_location` and `module_from_spec` (crew.py:230, outside any `try`). They also include a non-`Exception` from `exec_module`, such as the `SystemExit` of a backend that calls `sys.exit` at import, which `except Exception` (crew.py:233) does not catch. An `Exception` among these takes the same two routes. A non-`Exception` escapes the callback from either check, because `except Exception` (crew.py:356) does not catch it.
- A compile fault is given as the message of an `Exception`. A compile that raises a non-`Exception` is not modelled.
- `str()` of non-string kickoff inputs is not modelled: inputs are a map of strings.
- `_kickoff_inputs` is unset before the first `setup_guardrails`. The constructor gives it an empty map.
- `Template.Render`, `Template.RenderUnknownPlaceholder`, `Repair.UnescapedModuleNameBreaksRendering`, `Repair.UnescapedModuleNameBreaksExpectedOutput`: `Render` looks up the whole text between braces as one variable name. It does not parse the conversions (`!r`), format specs (`:>3`), attribute access (`.upper`) or index access (`[0]`) that `str.format` allows after the name. The failure lemmas are therefore stated only for identifier names, where both agree.
- `Text.PathStem`, `Text.PathName`: follow POSIX path parsing on code points; Windows paths and Unicode subtleties of `pathlib` are not modelled.
- Printing is a ghost trace of events, not console text. `LineText` and `FlowLineText` give the text each event shows, and `LineTexts` and `FlowLinesText` state their form.
- Interpolation of a task's `output_file` by the framework is not modelled. `Repair.RepairTargetIsCheckedArtifact` compares the path as written.
- A `BaseException` that is not an `Exception` (such as `KeyboardInterrupt`) is the single case `NonException`.
- `Repair.RunRepairFlow`: its result records the kickoffs, their inputs and the flow's printed lines, but not the crew object. `Repair.RepairCrewFor` states what that crew is, and the callback's event records the values it is built from.
- `Artifacts.Message`: the text of an exception (`{exc}`, `exc.msg`) is an input string, not derived from a Python exception object.
