/**
 * The artifact smoke check (`_smoke_check_artifacts`) and the backend symbol
 * contract (`_validate_backend_symbol_contract`).
 *
 * The host runtime is an input: a snapshot of the files under `output/`
 * (whether each exists, whether `py_compile` accepts it, what `ast.parse`
 * makes of it), the result of the import-probe subprocess, and the outcome
 * of loading the backend module through `importlib`.
 */
module Artifacts {
  import opened Base
  import opened Text

  // ---------------------------------------------------------------------------
  // Inputs from the host runtime
  // ---------------------------------------------------------------------------

  /** An `ast.ImportFrom` node: `from <module> import <names>`; `fromModule` (the node's `module`) is None for `from . import x`. */
  datatype ImportFrom = ImportFrom(fromModule: Option<string>, names: seq<string>)

  /**
   * What `py_compile.compile(path, doraise=True)` does with a path that
   * exists: it compiles, it raises `PyCompileError`, or it raises another
   * exception, which no handler of the smoke check catches (an `OSError`
   * when the path is a directory or cannot be read).
   */
  datatype Compile = Compiles | SyntaxErr(msg: string) | CompileRaises(msg: string)

  /**
   * What reading a file as UTF-8 and `ast.parse` give: the failure's text, or
   * the file's `ImportFrom` nodes in `ast.walk` order.
   */
  datatype Parse = ParseErr(msg: string) | Parsed(importFroms: seq<ImportFrom>)

  /** One path of the snapshot. */
  datatype FileState = Missing | Present(compile: Compile, parse: Parse)

  /** The import probe's `(returncode, stdout, stderr)`. */
  datatype Probe = Probe(returncode: int, stdout: string, stderr: string)

  /**
   * Loading the backend with `spec_from_file_location` and `exec_module`:
   * no spec or loader, `exec_module` raised, or the module's attribute names.
   */
  datatype BackendLoad = NoSpec | ExecFails(msg: string) | Loaded(attributes: set<string>)

  /** Everything one smoke check observes. */
  datatype Environment = Environment(files: map<string, FileState>, probe: Probe, load: BackendLoad)

  /** A path not in the snapshot does not exist. */
  function FileAt(files: map<string, FileState>, path: string): FileState
  {
    if path in files then files[path] else Missing
  }

  // ---------------------------------------------------------------------------
  // Errors and their messages
  // ---------------------------------------------------------------------------

  datatype SmokeError =
    | MissingArtifact(path: string)
    | SyntaxError(path: string, msg: string)
    | ImportFailure(details: string)
    | UnparsableConsumer(path: string, msg: string)
    | BackendUnloadable(path: string)
    | BackendLoadFailed(msg: string)
    | ContractMismatch(missing: seq<string>)
  {
    /** Raised by the presence-and-compile phase. */
    predicate IsPresenceError() { MissingArtifact? || SyntaxError? }

    /** Raised by the symbol-contract phase. */
    predicate IsContractError() { UnparsableConsumer? || BackendUnloadable? || BackendLoadFailed? || ContractMismatch? }
  }

  /** The text the source appends to its error list. */
  function Message(e: SmokeError): string
  {
    match e
    case MissingArtifact(p) => "Missing required artifact: " + p
    case SyntaxError(p, m) => "Syntax error in " + p + ": " + m
    case ImportFailure(d) => "Import smoke check failed for output modules: " + d
    case UnparsableConsumer(p, m) => "Unable to parse " + p + ": " + m
    case BackendUnloadable(p) => "Unable to load backend module for contract check: " + p
    case BackendLoadFailed(m) => "Backend module failed to load for contract check: " + m
    case ContractMismatch(ms) => "Backend import contract mismatch. Missing exported symbols: " + Join(ms, ", ")
  }

  function Messages(errors: seq<SmokeError>): (r: seq<string>)
    ensures |r| == |errors|
  {
    if errors == [] then [] else [Message(errors[0])] + Messages(errors[1..])
  }

  /** One message per error, in the same order. */
  lemma {:induction false} MessagesMeaning(errors: seq<SmokeError>)
    ensures forall i :: 0 <= i < |errors| ==> Messages(errors)[i] == Message(errors[i])
  {
    if errors != [] {
      MessagesMeaning(errors[1..]);
    }
  }

  // ---------------------------------------------------------------------------
  // Kickoff inputs and the artifact layout
  // ---------------------------------------------------------------------------

  /** `str(inputs.get("module_name", "backend.py"))`. */
  function ModuleName(inputs: map<string, string>): string
  {
    if "module_name" in inputs then inputs["module_name"] else "backend.py"
  }

  /** `str(inputs.get("requirements", ""))`. */
  function Requirements(inputs: map<string, string>): string
  {
    if "requirements" in inputs then inputs["requirements"] else ""
  }

  /** `Path(module_name).name`: the backend's file name under `output/`. */
  function BackendFileName(inputs: map<string, string>): string
  {
    PathName(ModuleName(inputs))
  }

  /** `str(Path("output") / fileName)`. */
  function ArtifactPath(fileName: string): string
  {
    if fileName == "" then "output" else "output/" + fileName
  }

  const AppFile := "output/app.py"
  const MainFile := "output/main.py"

  /** The files the smoke check requires, in the order it checks them. */
  function RequiredFiles(backendFileName: string): seq<string>
  {
    [ArtifactPath(backendFileName), AppFile, MainFile]
  }

  /** The files whose imports state the backend's symbol contract. */
  const ConsumerFiles := [AppFile, MainFile]

  // ---------------------------------------------------------------------------
  // The symbol contract, specified
  // ---------------------------------------------------------------------------

  /** Names one node requires: its aliases other than `*`, if it imports from the backend. */
  function NodeSymbols(node: ImportFrom, stem: string): set<string>
  {
    if node.fromModule == Some(stem) then set n | n in node.names && n != "*" else {}
  }

  function FileSymbols(nodes: seq<ImportFrom>, stem: string): set<string>
  {
    if nodes == [] then {}
    else FileSymbols(nodes[..|nodes| - 1], stem) + NodeSymbols(nodes[|nodes| - 1], stem)
  }

  /** What one consumer file contributes to the required symbols. */
  function ConsumerSymbols(state: FileState, stem: string): set<string>
  {
    if state.Present? && state.parse.Parsed? then FileSymbols(state.parse.importFroms, stem) else {}
  }

  /** `required_symbols`: the union over all consumers. */
  function RequiredSymbols(files: map<string, FileState>, consumers: seq<string>, stem: string): set<string>
  {
    if consumers == [] then {}
    else
      RequiredSymbols(files, consumers[..|consumers| - 1], stem)
      + ConsumerSymbols(FileAt(files, consumers[|consumers| - 1]), stem)
  }

  /** The error one consumer adds while its imports are collected. */
  function ConsumerErrors(path: string, state: FileState): seq<SmokeError>
  {
    if state.Present? && state.parse.ParseErr? then [UnparsableConsumer(path, state.parse.msg)] else []
  }

  function ParseErrors(files: map<string, FileState>, consumers: seq<string>): seq<SmokeError>
  {
    if consumers == [] then []
    else
      var last := consumers[|consumers| - 1];
      ParseErrors(files, consumers[..|consumers| - 1]) + ConsumerErrors(last, FileAt(files, last))
  }

  /** How the contract check ends once some symbol is required. */
  function LoadVerdict(load: BackendLoad, backendPath: string, required: set<string>): (r: seq<SmokeError>)
    ensures |r| <= 1
    ensures forall e :: e in r ==> e.IsContractError()
    ensures !load.Loaded? ==> |r| == 1 && !r[0].ContractMismatch?
    ensures load.Loaded? ==> (r == [] <==> required <= load.attributes)
    ensures load.Loaded? && r != [] ==>
              r[0].ContractMismatch? && StrictlySorted(r[0].missing)
              && forall x :: x in r[0].missing <==> x in required && x !in load.attributes
  {
    match load
    case NoSpec => [BackendUnloadable(backendPath)]
    case ExecFails(m) => [BackendLoadFailed(m)]
    case Loaded(attributes) =>
      DifferenceEmpty(required, attributes);
      if required - attributes == {} then [] else [ContractMismatch(SortedStrings(required - attributes))]
  }

  lemma DifferenceEmpty(a: set<string>, b: set<string>)
    ensures a - b == {} <==> a <= b
  {
    if a - b == {} {
      forall x | x in a ensures x in b { assert x !in a - b; }
    }
  }

  /** The list `_validate_backend_symbol_contract` returns. */
  function ContractErrors(files: map<string, FileState>, load: BackendLoad, backendFileName: string,
                          stem: string, consumers: seq<string>): seq<SmokeError>
  {
    var required := RequiredSymbols(files, consumers, stem);
    ParseErrors(files, consumers)
    + (if required == {} then [] else LoadVerdict(load, ArtifactPath(backendFileName), required))
  }

  // ---------------------------------------------------------------------------
  // The smoke check, specified
  // ---------------------------------------------------------------------------

  /** The error one required file gives in the first phase: missing, or failing to compile. */
  function FileErrors(path: string, state: FileState): seq<SmokeError>
  {
    match state
    case Missing => [MissingArtifact(path)]
    case Present(SyntaxErr(m), _) => [SyntaxError(path, m)]
    case Present(Compiles, _) => []
    case Present(CompileRaises(_), _) => []
  }

  /**
   * The exception the first phase lets out: that of the first path, in
   * order, whose compilation raises something other than `PyCompileError`.
   */
  function CompileFault(files: map<string, FileState>, paths: seq<string>): Option<string>
  {
    if paths == [] then None
    else
      var earlier := CompileFault(files, paths[..|paths| - 1]);
      var last := FileAt(files, paths[|paths| - 1]);
      if earlier.Some? then earlier
      else if last.Present? && last.compile.CompileRaises? then Some(last.compile.msg)
      else None
  }

  function PresenceErrors(files: map<string, FileState>, paths: seq<string>): seq<SmokeError>
  {
    if paths == [] then []
    else
      var last := paths[|paths| - 1];
      PresenceErrors(files, paths[..|paths| - 1]) + FileErrors(last, FileAt(files, last))
  }

  /** The probe's diagnostic: stripped stderr, or stripped stdout when that is empty. */
  function ProbeDetails(probe: Probe): string
  {
    var err := Strip(probe.stderr);
    if err != "" then err else Strip(probe.stdout)
  }

  /** The list `_smoke_check_artifacts` returns when it returns at all. */
  function SmokeErrors(inputs: map<string, string>, env: Environment): seq<SmokeError>
  {
    var fileName := BackendFileName(inputs);
    var presence := PresenceErrors(env.files, RequiredFiles(fileName));
    if presence != [] then presence
    else if env.probe.returncode != 0 then [ImportFailure(ProbeDetails(env.probe))]
    else ContractErrors(env.files, env.load, fileName, PathStem(fileName), ConsumerFiles)
  }

  /** How a smoke check ends: with its list of errors, or with an exception. */
  datatype SmokeOutcome = Checked(errors: seq<SmokeError>) | CheckRaised(msg: string)

  /** `_smoke_check_artifacts`: a compile fault aborts it; otherwise it returns its errors. */
  function SmokeCheck(inputs: map<string, string>, env: Environment): SmokeOutcome
  {
    match CompileFault(env.files, RequiredFiles(BackendFileName(inputs)))
    case Some(m) => CheckRaised(m)
    case None => Checked(SmokeErrors(inputs, env))
  }

  // ---------------------------------------------------------------------------
  // The two methods as the source runs them
  // ---------------------------------------------------------------------------

  /** The inner loop of `_validate_backend_symbol_contract`: the names one import node takes from the backend. */
  method AddImportedNames(node: ImportFrom, importName: string, required: set<string>) returns (r: set<string>)
    ensures r == required + NodeSymbols(node, importName)
  {
    r := required;
    if node.fromModule == Some(importName) {
      var k := 0;
      while k < |node.names|
        invariant 0 <= k <= |node.names|
        invariant r == required + set n | n in node.names[..k] && n != "*"
      {
        assert node.names[..k + 1] == node.names[..k] + [node.names[k]];
        if node.names[k] != "*" {
          r := r + {node.names[k]};
        }
        k := k + 1;
      }
      assert node.names[..k] == node.names;
    }
  }

  /** The walk over one parsed consumer's import nodes. */
  method AddFileSymbols(nodes: seq<ImportFrom>, importName: string, required: set<string>) returns (r: set<string>)
    ensures r == required + FileSymbols(nodes, importName)
  {
    r := required;
    var j := 0;
    while j < |nodes|
      invariant 0 <= j <= |nodes|
      invariant r == required + FileSymbols(nodes[..j], importName)
    {
      assert nodes[..j + 1][..j] == nodes[..j];
      r := AddImportedNames(nodes[j], importName, r);
      j := j + 1;
    }
    assert nodes[..j] == nodes;
  }

  /** The load step, reached only when some symbol is required. */
  method CheckLoad(load: BackendLoad, backendPath: string, required: set<string>) returns (errors: seq<SmokeError>)
    ensures errors == LoadVerdict(load, backendPath, required)
  {
    match load
    case NoSpec =>
      errors := [BackendUnloadable(backendPath)];
    case ExecFails(m) =>
      errors := [BackendLoadFailed(m)];
    case Loaded(attributes) =>
      var missing := SortedStrings(set s | s in required && s !in attributes);
      assert (set s | s in required && s !in attributes) == required - attributes;
      errors := [];
      if missing != [] {
        errors := [ContractMismatch(missing)];
      }
  }

  /** `_validate_backend_symbol_contract`. */
  method ValidateBackendSymbolContract(files: map<string, FileState>, load: BackendLoad,
                                       backendFileName: string, importName: string,
                                       consumers: seq<string>)
    returns (contractErrors: seq<SmokeError>)
    ensures contractErrors == ContractErrors(files, load, backendFileName, importName, consumers)
  {
    contractErrors := [];
    var backendPath := ArtifactPath(backendFileName);
    var required: set<string> := {};
    var i := 0;
    while i < |consumers|
      invariant 0 <= i <= |consumers|
      invariant required == RequiredSymbols(files, consumers[..i], importName)
      invariant contractErrors == ParseErrors(files, consumers[..i])
    {
      var consumer := consumers[i];
      assert consumers[..i + 1][..i] == consumers[..i];
      ghost var state := FileAt(files, consumer);
      assert RequiredSymbols(files, consumers[..i + 1], importName)
             == RequiredSymbols(files, consumers[..i], importName) + ConsumerSymbols(state, importName);
      assert ParseErrors(files, consumers[..i + 1]) == ParseErrors(files, consumers[..i]) + ConsumerErrors(consumer, state);
      match FileAt(files, consumer) {
        case Missing =>
        case Present(_, ParseErr(m)) =>
          contractErrors := contractErrors + [UnparsableConsumer(consumer, m)];
        case Present(_, Parsed(nodes)) =>
          required := AddFileSymbols(nodes, importName, required);
      }
      i := i + 1;
    }
    assert consumers[..i] == consumers;
    if required == {} {
      return;
    }
    var verdict := CheckLoad(load, backendPath, required);
    contractErrors := contractErrors + verdict;
  }

  /** The first phase of `_smoke_check_artifacts`: presence, then compilation, of each path in order. */
  method CheckPresence(files: map<string, FileState>, paths: seq<string>)
    returns (errors: seq<SmokeError>, fault: Option<string>)
    ensures fault == CompileFault(files, paths)
    ensures fault.None? ==> errors == PresenceErrors(files, paths)
  {
    errors := [];
    var i := 0;
    while i < |paths|
      invariant 0 <= i <= |paths|
      invariant CompileFault(files, paths[..i]) == None
      invariant errors == PresenceErrors(files, paths[..i])
    {
      var path := paths[i];
      assert paths[..i + 1][..i] == paths[..i];
      match FileAt(files, path) {
        case Missing =>
          errors := errors + [MissingArtifact(path)];
        case Present(SyntaxErr(m), _) =>
          errors := errors + [SyntaxError(path, m)];
        case Present(Compiles, _) =>
        case Present(CompileRaises(m), _) =>
          FaultOfPrefix(files, paths, i + 1);
          return errors, Some(m);
      }
      i := i + 1;
    }
    assert paths[..i] == paths;
    fault := None;
  }

  /** `_smoke_check_artifacts`, with `self._kickoff_inputs` passed in. */
  method SmokeCheckArtifacts(kickoffInputs: map<string, string>, env: Environment)
    returns (outcome: SmokeOutcome)
    ensures outcome == SmokeCheck(kickoffInputs, env)
  {
    var moduleName := ModuleName(kickoffInputs);
    var backendFileName := PathName(moduleName);
    var backendImportName := PathStem(backendFileName);
    ghost var spec := SmokeErrors(kickoffInputs, env);
    var errors, fault := CheckPresence(env.files, RequiredFiles(backendFileName));
    if fault.Some? {
      return CheckRaised(fault.value);
    }
    if errors == [] {
      if env.probe.returncode != 0 {
        var stderr := Strip(env.probe.stderr);
        var stdout := Strip(env.probe.stdout);
        var details := if stderr != "" then stderr else stdout;
        assert details == ProbeDetails(env.probe);
        errors := [ImportFailure(details)];
      } else {
        errors := ValidateBackendSymbolContract(env.files, env.load, backendFileName,
                                                backendImportName, ConsumerFiles);
      }
    }
    assert errors == spec;
    outcome := Checked(errors);
  }

  // ---------------------------------------------------------------------------
  // Properties of the specification
  // ---------------------------------------------------------------------------

  lemma DefaultBackendStem()
    ensures PathStem("backend.py") == "backend"
  {
    PathStemOfExtension("backend", "py");
    assert "backend" + "." + "py" == "backend.py";
  }

  /** The backend artifact defaults to `output/backend.py` and is always `output/<name>`. */
  lemma RequiredArtifacts(inputs: map<string, string>, dir: string, file: string)
    requires file != "" && file != "." && '/' !in file
    ensures "module_name" !in inputs ==> RequiredFiles(BackendFileName(inputs)) == ["output/backend.py", AppFile, MainFile]
    ensures ModuleName(inputs) == dir + "/" + file ==> RequiredFiles(BackendFileName(inputs))[0] == "output/" + file
    ensures ModuleName(inputs) == file ==> RequiredFiles(BackendFileName(inputs))[0] == "output/" + file
  {
    PathNameOfJoin(dir, file);
    DefaultBackendFile();
  }

  lemma DefaultBackendFile()
    ensures PathName("backend.py") == "backend.py"
    ensures ArtifactPath("backend.py") == "output/backend.py"
  {
    PathNameOfPlain("backend.py");
  }

  /** A file's own errors are about that file, each at most once. */
  lemma FileErrorsCount(path: string, state: FileState, e: SmokeError)
    requires e.IsPresenceError()
    ensures multiset(FileErrors(path, state))[e] == if path == e.path && e in FileErrors(path, state) then 1 else 0
  {
  }

  lemma ErrorCountAppend(a: seq<SmokeError>, b: seq<SmokeError>, e: SmokeError)
    ensures multiset(a + b)[e] == multiset(a)[e] + multiset(b)[e]
  {
  }

  lemma PathCountAppend(paths: seq<string>, last: string, p: string)
    ensures multiset(paths + [last])[p] == multiset(paths)[p] + if last == p then 1 else 0
  {
  }

  /** Each presence error is reported once for every time its path is listed. */
  lemma {:induction false} PresenceErrorCount(files: map<string, FileState>, paths: seq<string>, e: SmokeError)
    requires e.IsPresenceError()
    ensures multiset(PresenceErrors(files, paths))[e]
            == if e in FileErrors(e.path, FileAt(files, e.path)) then multiset(paths)[e.path] else 0
  {
    if paths != [] {
      var init := paths[..|paths| - 1];
      var last := paths[|paths| - 1];
      PresenceErrorCount(files, init, e);
      ErrorCountAppend(PresenceErrors(files, init), FileErrors(last, FileAt(files, last)), e);
      FileErrorsCount(last, FileAt(files, last), e);
      assert paths == init + [last];
      PathCountAppend(init, last, e.path);
    }
  }

  /**
   * The first phase reports a missing file once for each time the file is
   * listed, and never compiles it; a present file that fails to compile is
   * reported the same way, with the compiler's message.
   */
  lemma PresenceCounts(files: map<string, FileState>, paths: seq<string>, p: string, m: string)
    ensures multiset(PresenceErrors(files, paths))[MissingArtifact(p)]
            == if FileAt(files, p).Missing? then multiset(paths)[p] else 0
    ensures multiset(PresenceErrors(files, paths))[SyntaxError(p, m)]
            == if FileAt(files, p).Present? && FileAt(files, p).compile == SyntaxErr(m) then multiset(paths)[p] else 0
  {
    PresenceErrorCount(files, paths, MissingArtifact(p));
    PresenceErrorCount(files, paths, SyntaxError(p, m));
  }

  /** The first phase reports only about listed paths, and nothing exactly when every path compiles. */
  lemma {:induction false} PresenceErrorsMeaning(files: map<string, FileState>, paths: seq<string>)
    ensures forall e :: e in PresenceErrors(files, paths) ==> e.IsPresenceError() && e.path in paths
    ensures PresenceErrors(files, paths) == [] <==>
              forall q :: q in paths ==> FileAt(files, q).Present? && !FileAt(files, q).compile.SyntaxErr?
  {
    if paths != [] {
      var init := paths[..|paths| - 1];
      var last := paths[|paths| - 1];
      var before := PresenceErrors(files, init);
      var added := FileErrors(last, FileAt(files, last));
      PresenceErrorsMeaning(files, init);
      assert PresenceErrors(files, paths) == before + added;
      assert forall e :: e in before + added <==> e in before || e in added;
      assert added == [] <==> FileAt(files, last).Present? && !FileAt(files, last).compile.SyntaxErr?;
      assert forall e :: e in added ==> e.IsPresenceError() && e.path == last;
      assert paths == init + [last];
      assert forall q :: q in paths <==> q in init || q == last;
    }
  }

  /** A fault found in a prefix of the paths is the fault of all of them: the loop stops there. */
  lemma {:induction false} FaultOfPrefix(files: map<string, FileState>, paths: seq<string>, k: nat)
    requires k <= |paths| && CompileFault(files, paths[..k]).Some?
    ensures CompileFault(files, paths) == CompileFault(files, paths[..k])
    decreases |paths|
  {
    if k < |paths| {
      var init := paths[..|paths| - 1];
      assert init[..k] == paths[..k];
      FaultOfPrefix(files, init, k);
    } else {
      assert paths[..k] == paths;
    }
  }

  /**
   * The first phase raises exactly when some listed path exists and its
   * compilation raises, and then with the message of the first such path.
   */
  lemma {:induction false} CompileFaultMeaning(files: map<string, FileState>, paths: seq<string>)
    ensures CompileFault(files, paths) == None <==>
              forall q :: q in paths ==> !(FileAt(files, q).Present? && FileAt(files, q).compile.CompileRaises?)
    ensures CompileFault(files, paths).Some? ==>
              exists k :: 0 <= k < |paths| && FileAt(files, paths[k]).Present?
                          && FileAt(files, paths[k]).compile == CompileRaises(CompileFault(files, paths).value)
                          && forall j :: 0 <= j < k ==> !(FileAt(files, paths[j]).Present? && FileAt(files, paths[j]).compile.CompileRaises?)
  {
    if paths != [] {
      var init := paths[..|paths| - 1];
      var last := paths[|paths| - 1];
      CompileFaultMeaning(files, init);
      assert paths == init + [last];
      assert forall q :: q in paths <==> q in init || q == last;
      if CompileFault(files, init).Some? {
        var k :| 0 <= k < |init| && FileAt(files, init[k]).Present?
                 && FileAt(files, init[k]).compile == CompileRaises(CompileFault(files, init).value)
                 && forall j :: 0 <= j < k ==> !(FileAt(files, init[j]).Present? && FileAt(files, init[j]).compile.CompileRaises?);
        assert paths[k] == init[k];
        assert forall j :: 0 <= j < k ==> paths[j] == init[j];
      } else if CompileFault(files, paths).Some? {
        assert forall j :: 0 <= j < |init| ==> paths[j] == init[j] && paths[j] in init;
      }
    }
  }

  /**
   * A `module_name` of "", "." or "/" has no file name, so the first
   * required path is the directory `output` itself; when compiling it
   * raises, the whole smoke check raises.
   */
  lemma NamelessModuleChecksOutputDirectory(inputs: map<string, string>, env: Environment, msg: string)
    requires ModuleName(inputs) in {"", ".", "/"}
    ensures BackendFileName(inputs) == "" && RequiredFiles(BackendFileName(inputs))[0] == "output"
    ensures FileAt(env.files, "output").Present? && FileAt(env.files, "output").compile == CompileRaises(msg) ==>
              SmokeCheck(inputs, env) == CheckRaised(msg)
  {
    var m := ModuleName(inputs);
    PathNameIsLastPart(m);
    if m == "/" {
      assert LastSegment("/") == "" && "/"[..0] == "";
    }
    assert BackendFileName(inputs) == "";
    var paths := RequiredFiles("");
    assert paths[..1] == ["output"] && ["output"][..0] == [];
    if FileAt(env.files, "output").Present? && FileAt(env.files, "output").compile == CompileRaises(msg) {
      FaultOfPrefix(env.files, paths, 1);
    }
  }

  /** A required file that is missing is reported once per time it is listed, and never as a syntax error. */
  lemma MissingArtifactReportedOnce(inputs: map<string, string>, env: Environment, p: string, m: string)
    ensures multiset(SmokeErrors(inputs, env))[MissingArtifact(p)]
            == if FileAt(env.files, p).Missing? then multiset(RequiredFiles(BackendFileName(inputs)))[p] else 0
    ensures FileAt(env.files, p).Missing? ==> SyntaxError(p, m) !in SmokeErrors(inputs, env)
  {
    var fileName := BackendFileName(inputs);
    var paths := RequiredFiles(fileName);
    var presence := PresenceErrors(env.files, paths);
    var result := SmokeErrors(inputs, env);
    PresenceCounts(env.files, paths, p, m);
    if presence == [] {
      AfterPresence(inputs, env);
      assert MissingArtifact(p) !in result && SyntaxError(p, m) !in result;
      assert multiset(result)[MissingArtifact(p)] == 0;
      if FileAt(env.files, p).Missing? {
        assert p !in paths;
        assert multiset(paths)[p] == 0;
      }
    } else {
      assert result == presence;
    }
  }

  /**
   * Once the first phase reports nothing, every required path exists and
   * none has a syntax error; when it raised nothing either, every required
   * path compiles; and no later error is a presence error.
   */
  lemma AfterPresence(inputs: map<string, string>, env: Environment)
    requires PresenceErrors(env.files, RequiredFiles(BackendFileName(inputs))) == []
    ensures forall q :: q in RequiredFiles(BackendFileName(inputs)) ==>
              FileAt(env.files, q).Present? && !FileAt(env.files, q).compile.SyntaxErr?
    ensures CompileFault(env.files, RequiredFiles(BackendFileName(inputs))) == None ==>
              forall q :: q in RequiredFiles(BackendFileName(inputs)) ==>
                FileAt(env.files, q).Present? && FileAt(env.files, q).compile.Compiles?
    ensures forall e :: e in SmokeErrors(inputs, env) ==> !e.IsPresenceError()
  {
    var fileName := BackendFileName(inputs);
    PresenceErrorsMeaning(env.files, RequiredFiles(fileName));
    CompileFaultMeaning(env.files, RequiredFiles(fileName));
    ContractErrorKinds(env.files, env.load, fileName, PathStem(fileName), ConsumerFiles);
  }

  lemma {:induction false} ParseErrorsKinds(files: map<string, FileState>, consumers: seq<string>)
    ensures forall e :: e in ParseErrors(files, consumers) ==> e.UnparsableConsumer? && e.path in consumers
  {
    if consumers != [] {
      ParseErrorsKinds(files, consumers[..|consumers| - 1]);
    }
  }

  lemma ContractErrorKinds(files: map<string, FileState>, load: BackendLoad, backendFileName: string,
                           stem: string, consumers: seq<string>)
    ensures forall e :: e in ContractErrors(files, load, backendFileName, stem, consumers) ==> e.IsContractError()
  {
    ParseErrorsKinds(files, consumers);
  }

  /**
   * Phase gating: a presence or syntax error ends the check; a failing probe
   * gives exactly one import error carrying its diagnostic; the contract
   * phase reports only after a clean probe.
   */
  lemma PhaseGating(inputs: map<string, string>, env: Environment)
    ensures var presence := PresenceErrors(env.files, RequiredFiles(BackendFileName(inputs)));
            && (presence != [] ==> SmokeErrors(inputs, env) == presence
                                   && forall e :: e in SmokeErrors(inputs, env) ==> e.IsPresenceError())
            && (presence == [] && env.probe.returncode != 0 ==>
                  SmokeErrors(inputs, env) == [ImportFailure(ProbeDetails(env.probe))])
            && (forall e :: e in SmokeErrors(inputs, env) && e.IsContractError() ==>
                  presence == [] && env.probe.returncode == 0)
            && (forall e :: e in SmokeErrors(inputs, env) && e.ImportFailure? ==>
                  presence == [] && env.probe.returncode != 0)
  {
    var fileName := BackendFileName(inputs);
    PresenceErrorsMeaning(env.files, RequiredFiles(fileName));
    ContractErrorKinds(env.files, env.load, fileName, PathStem(fileName), ConsumerFiles);
  }

  /** `node` is an `ImportFrom` of the backend that names `s`. */
  predicate ImportsName(node: ImportFrom, stem: string, s: string)
  {
    node.fromModule == Some(stem) && s in node.names && s != "*"
  }

  lemma {:induction false} FileSymbolsMeaning(nodes: seq<ImportFrom>, stem: string, s: string)
    ensures s in FileSymbols(nodes, stem) <==> exists node :: node in nodes && ImportsName(node, stem, s)
  {
    if nodes != [] {
      var init := nodes[..|nodes| - 1];
      var last := nodes[|nodes| - 1];
      FileSymbolsMeaning(init, stem, s);
      assert s in NodeSymbols(last, stem) <==> ImportsName(last, stem, s);
      assert nodes == init + [last];
      assert forall node :: node in nodes <==> node in init || node == nodes[|nodes| - 1];
    }
  }

  /** The consumer `state` parsed and one of its nodes imports `s` from the backend. */
  predicate RequiresName(state: FileState, stem: string, s: string)
  {
    state.Present? && state.parse.Parsed?
    && exists node :: node in state.parse.importFroms && ImportsName(node, stem, s)
  }

  /**
   * The required symbols are exactly the names, other than `*`, that some
   * parsed consumer imports from the backend's import name; a missing or
   * unparsable consumer contributes none.
   */
  lemma {:induction false} RequiredSymbolsMeaning(files: map<string, FileState>, consumers: seq<string>,
                                                  stem: string, s: string)
    ensures s in RequiredSymbols(files, consumers, stem) <==>
              exists c :: c in consumers && RequiresName(FileAt(files, c), stem, s)
  {
    if consumers != [] {
      var init := consumers[..|consumers| - 1];
      var last := consumers[|consumers| - 1];
      RequiredSymbolsMeaning(files, init, stem, s);
      var state := FileAt(files, last);
      if state.Present? && state.parse.Parsed? {
        FileSymbolsMeaning(state.parse.importFroms, stem, s);
      }
      assert consumers == init + [last];
      assert forall c :: c in consumers <==> c in init || c == last;
    }
  }

  /** Each unparsable consumer adds one "Unable to parse" error per listing; missing consumers add none. */
  lemma {:induction false} ParseErrorsCount(files: map<string, FileState>, consumers: seq<string>, c: string, m: string)
    ensures multiset(ParseErrors(files, consumers))[UnparsableConsumer(c, m)]
            == if FileAt(files, c).Present? && FileAt(files, c).parse == ParseErr(m) then multiset(consumers)[c] else 0
  {
    if consumers != [] {
      var init := consumers[..|consumers| - 1];
      var last := consumers[|consumers| - 1];
      ParseErrorsCount(files, init, c, m);
      ErrorCountAppend(ParseErrors(files, init), ConsumerErrors(last, FileAt(files, last)), UnparsableConsumer(c, m));
      assert consumers == init + [last];
      PathCountAppend(init, last, c);
    }
  }

  /**
   * With no required symbol the backend is never loaded: the result is the
   * parse errors, whatever loading would have given. Otherwise the parse
   * errors are followed by the verdict of loading the backend.
   */
  lemma ContractOutcome(files: map<string, FileState>, load: BackendLoad, other: BackendLoad,
                        backendFileName: string, stem: string, consumers: seq<string>)
    ensures RequiredSymbols(files, consumers, stem) == {} ==>
              ContractErrors(files, load, backendFileName, stem, consumers) == ParseErrors(files, consumers)
              && ContractErrors(files, other, backendFileName, stem, consumers) == ParseErrors(files, consumers)
    ensures RequiredSymbols(files, consumers, stem) != {} ==>
              ContractErrors(files, load, backendFileName, stem, consumers)
              == ParseErrors(files, consumers)
                 + LoadVerdict(load, ArtifactPath(backendFileName), RequiredSymbols(files, consumers, stem))
  {
  }

  /** The consumers of the example: `app.py` imports `foo` and `baz`, `main.py` imports nothing. */
  predicate ExampleConsumers(files: map<string, FileState>, stem: string)
  {
    && FileAt(files, AppFile) == Present(Compiles, Parsed([ImportFrom(Some(stem), ["foo", "baz"])]))
    && FileAt(files, MainFile) == Present(Compiles, Parsed([]))
  }

  lemma ExampleRequired(files: map<string, FileState>, stem: string)
    requires ExampleConsumers(files, stem)
    ensures RequiredSymbols(files, ConsumerFiles, stem) == {"foo", "baz"}
    ensures ParseErrors(files, ConsumerFiles) == []
  {
    var node := ImportFrom(Some(stem), ["foo", "baz"]);
    var cs := ConsumerFiles;
    assert NodeSymbols(node, stem) == {"foo", "baz"};
    assert FileSymbols([node], stem) == {"foo", "baz"} by {
      assert [node][..0] == [];
    }
    assert cs[..1] == [AppFile] && [AppFile][..0] == [];
    assert RequiredSymbols(files, [AppFile], stem) == {"foo", "baz"};
    assert ParseErrors(files, [AppFile]) == [];
  }

  lemma ExampleVerdict(path: string)
    ensures LoadVerdict(Loaded({"foo", "bar"}), path, {"foo", "baz"}) == [ContractMismatch(["baz"])]
  {
    assert {"foo", "baz"} - {"foo", "bar"} == {"baz"};
    var sorted := SortedStrings({"baz"});
    assert sorted == ["baz"] by {
      assert "baz" in sorted;
    }
  }

  /**
   * The example of a consumer importing `foo` and `baz` from a backend that
   * defines `foo` and `bar`, once the first three phases pass: exactly one
   * mismatch error, listing `baz` alone.
   */
  lemma ContractMismatchExample(inputs: map<string, string>, env: Environment)
    requires PresenceErrors(env.files, RequiredFiles(BackendFileName(inputs))) == []
    requires env.probe.returncode == 0
    requires ExampleConsumers(env.files, PathStem(BackendFileName(inputs)))
    requires env.load == Loaded({"foo", "bar"})
    ensures SmokeErrors(inputs, env) == [ContractMismatch(["baz"])]
  {
    var name := BackendFileName(inputs);
    ExampleRequired(env.files, PathStem(name));
    ExampleVerdict(ArtifactPath(name));
  }
}
