// The guardrails around the integration task's completion callback: a
// re-entrancy flag, a single automated repair per kickoff, and suppression
// of the repair's exceptions, with the in-progress flag released on every
// exit.

module Guardrails {
  import opened Base
  import opened Artifacts
  import opened Repair
  import opened RepairTexts

  // ---------------------------------------------------------------------------
  // What one callback observes and does
  // ---------------------------------------------------------------------------

  /**
   * The outcomes the callback depends on but does not decide: the integration task's raw
   * output, the artifacts before and after the repair flow, and the two
   * kickoff outcomes of the repair crew.
   */
  datatype HookCall = HookCall(raw: Option<string>, before: Environment, after: Environment,
                               first: Kickoff, retry: Kickoff)

  /** What the callback sees of one smoke check: the messages of its errors, or the exception it raised. */
  datatype Check = Reported(errors: seq<string>) | CheckFailed(exc: Exc)

  /** Which of the callback's messages a printed line is; `detail` completes it. */
  datatype Notice = SkipNotice | RepairNotice | StillFailsNotice | SuppressedNotice | ErrorNotice

  /**
   * The observable steps of a callback, in order. A repair run records the
   * smoke errors and the integration output its crew was built from
   * (`RepairCrewFor`), and the flow's kickoffs and printed lines.
   */
  datatype Event =
    | SmokeChecked(check: Check)
    | RepairRan(whileInProgress: bool, smokeErrors: seq<string>, integrationOutput: string, flow: FlowResult)
    | Printed(notice: Notice, detail: string)

  /** The `repair attempted` flag after a callback, its events, and the exception it lets out. */
  datatype HookResult = HookResult(attempted: bool, events: seq<Event>, escaped: Option<Exc>)

  const SkipHeader := GuardrailPrefix + "Integration smoke check failed after repair attempt; skipping further automatic retries."
  const CallbackPrefix := "[Callback] "
  const RepairHeader := CallbackPrefix + "Integration smoke check failed. Running one automated repair flow."
  const StillFailsHeader := GuardrailPrefix + "Repair flow completed but smoke check still fails:"
  const SuppressedPrefix := GuardrailPrefix + "Repair callback failed and was suppressed: "

  /** The text a printed line shows. */
  function LineText(notice: Notice, detail: string): string
  {
    match notice
    case SkipNotice => SkipHeader
    case RepairNotice => RepairHeader
    case StillFailsNotice => StillFailsHeader
    case SuppressedNotice => SuppressedPrefix + detail
    case ErrorNotice => GuardrailPrefix + detail
  }

  /** `output.raw or ""`. */
  function RawText(raw: Option<string>): string
  {
    match raw
    case None => ""
    case Some(text) => text
  }

  /**
   * A smoke check as the callback sees it: the messages of the errors it
   * returned, or the `Exception` it raised.
   */
  function Observe(outcome: SmokeOutcome): Check
  {
    match outcome
    case Checked(errors) => Reported(Messages(errors))
    case CheckRaised(m) => CheckFailed(OtherError(m))
  }

  /** One `[Guardrail] <error>` line per smoke error, in order. */
  function ErrorLines(errors: seq<string>): (r: seq<Event>)
    ensures |r| == |errors|
  {
    if errors == [] then [] else ErrorLines(errors[..|errors| - 1]) + [Printed(ErrorNotice, errors[|errors| - 1])]
  }

  function RepairCount(events: seq<Event>): nat
  {
    if events == [] then 0
    else RepairCount(events[..|events| - 1]) + if events[|events| - 1].RepairRan? then 1 else 0
  }

  function CheckCount(events: seq<Event>): nat
  {
    if events == [] then 0
    else CheckCount(events[..|events| - 1]) + if events[|events| - 1].SmokeChecked? then 1 else 0
  }

  /** What follows a repair flow whose second smoke check returned: the check, and its failures if any. */
  function PostCheck(errors: seq<string>): seq<Event>
  {
    [SmokeChecked(Reported(errors))] + if errors == [] then [] else [Printed(StillFailsNotice, "")] + ErrorLines(errors)
  }

  /**
   * The `except Exception` clause after `events`: an `Exception` is logged
   * and goes no further; anything else escapes.
   */
  function Suppress(e: Exc, events: seq<Event>): HookResult
  {
    if e.NonException? then HookResult(true, events, Some(e))
    else HookResult(true, events + [Printed(SuppressedNotice, e.msg)], None)
  }

  /**
   * After the repair flow: the second smoke check when the flow returned,
   * and the handling of whatever the flow or that check raised.
   */
  function AfterFlow(flow: FlowResult, post: Check): HookResult
  {
    match flow.raised
    case Some(e) => Suppress(e, [])
    case None =>
      match post
      case Reported(errors) => HookResult(true, PostCheck(errors), None)
      case CheckFailed(e) => Suppress(e, [SmokeChecked(post)])
  }

  /** What a callback does once its smoke check has failed with `errors`. */
  function Respond(attempted: bool, errors: seq<string>, output: string, flow: FlowResult, post: Check): HookResult
  {
    if attempted then HookResult(true, [Printed(SkipNotice, "")] + ErrorLines(errors), None)
    else
      var after := AfterFlow(flow, post);
      HookResult(true, [Printed(RepairNotice, ""), RepairRan(true, errors, output, flow)] + after.events, after.escaped)
  }

  /**
   * The control flow of `on_integration_done` on the flags `attempted` and
   * `inProgress`, given what the first smoke check shows (`check`), the
   * integration task's output, what the repair flow does (`flow`) and what
   * the second smoke check shows (`post`). Each is consulted only on the
   * path where the callback runs it. The first check runs outside any
   * `try`, so an exception from it leaves the callback.
   */
  function Steps(attempted: bool, inProgress: bool, check: Check, output: string, flow: FlowResult,
                 post: Check): HookResult
  {
    if inProgress then HookResult(attempted, [], None)
    else
      match check
      case CheckFailed(e) => HookResult(attempted, [SmokeChecked(check)], Some(e))
      case Reported(errors) =>
        if errors == [] then HookResult(attempted, [SmokeChecked(check)], None)
        else
          var t := Respond(attempted, errors, output, flow, post);
          HookResult(t.attempted, [SmokeChecked(check)] + t.events, t.escaped)
  }

  /**
   * `on_integration_done` on the flags and the stored kickoff inputs: the
   * smoke check on the artifacts before the repair, the repair flow built
   * from its failures and the integration task's raw output, and the smoke check after it.
   */
  function Hook(attempted: bool, inProgress: bool, inputs: map<string, string>, call: HookCall): HookResult
  {
    Steps(attempted, inProgress, Observe(SmokeCheck(inputs, call.before)), RawText(call.raw),
          RunRepairFlow(inputs, call.first, call.retry), Observe(SmokeCheck(inputs, call.after)))
  }

  /** Every line but the repair banner carries the guardrail prefix; a line with a detail ends with it. */
  lemma LineTexts(notice: Notice, detail: string)
    ensures notice != RepairNotice <==> GuardrailPrefix <= LineText(notice, detail)
    ensures notice == SuppressedNotice || notice == ErrorNotice ==>
              var text := LineText(notice, detail);
              |detail| <= |text| && text[|text| - |detail|..] == detail
  {
    var text := LineText(notice, detail);
    if notice == RepairNotice {
      assert text[1] == CallbackPrefix[1] == 'C' != 'G' == GuardrailPrefix[1];
    }
    if notice == SuppressedNotice {
      assert text == SuppressedPrefix + detail;
    }
  }

  // ---------------------------------------------------------------------------
  // Counting events
  // ---------------------------------------------------------------------------

  lemma AppendAssoc(a: seq<Event>, b: seq<Event>, c: seq<Event>)
    ensures a + b + c == a + (b + c)
  {
  }

  lemma SingleCounts(e: Event)
    ensures RepairCount([e]) == (if e.RepairRan? then 1 else 0)
    ensures CheckCount([e]) == (if e.SmokeChecked? then 1 else 0)
  {
    assert [e][..0] == [];
  }

  lemma {:induction false} CountsAppend(a: seq<Event>, b: seq<Event>)
    ensures RepairCount(a + b) == RepairCount(a) + RepairCount(b)
    ensures CheckCount(a + b) == CheckCount(a) + CheckCount(b)
    decreases |b|
  {
    if b == [] {
      assert a + b == a;
    } else {
      var init := b[..|b| - 1];
      CountsAppend(a, init);
      assert (a + b)[..|a + b| - 1] == a + init;
      assert (a + b)[|a + b| - 1] == b[|b| - 1];
    }
  }

  lemma {:induction false} ErrorLinesCounts(errors: seq<string>)
    ensures RepairCount(ErrorLines(errors)) == 0 && CheckCount(ErrorLines(errors)) == 0
  {
    if errors != [] {
      ErrorLinesCounts(errors[..|errors| - 1]);
      CountsAppend(ErrorLines(errors[..|errors| - 1]), [Printed(ErrorNotice, errors[|errors| - 1])]);
    }
  }

  /** Every line a failing check prints, in the order of the failures. */
  lemma {:induction false} ErrorLinesMeaning(errors: seq<string>)
    ensures forall i :: 0 <= i < |errors| ==> ErrorLines(errors)[i] == Printed(ErrorNotice, errors[i])
  {
    if errors != [] {
      ErrorLinesMeaning(errors[..|errors| - 1]);
    }
  }

  lemma PostCheckCounts(errors: seq<string>)
    ensures RepairCount(PostCheck(errors)) == 0 && CheckCount(PostCheck(errors)) == 1
  {
    ErrorLinesCounts(errors);
    SingleCounts(SmokeChecked(Reported(errors)));
    SingleCounts(Printed(StillFailsNotice, ""));
    CountsAppend([Printed(StillFailsNotice, "")], ErrorLines(errors));
    var tail := if errors == [] then [] else [Printed(StillFailsNotice, "")] + ErrorLines(errors);
    CountsAppend([SmokeChecked(Reported(errors))], tail);
  }

  lemma SuppressCounts(e: Exc, events: seq<Event>)
    ensures RepairCount(Suppress(e, events).events) == RepairCount(events)
    ensures CheckCount(Suppress(e, events).events) == CheckCount(events)
  {
    SingleCounts(Printed(SuppressedNotice, e.msg));
    CountsAppend(events, [Printed(SuppressedNotice, e.msg)]);
  }

  lemma AfterFlowCounts(flow: FlowResult, post: Check)
    ensures var a := AfterFlow(flow, post);
            && RepairCount(a.events) == 0
            && CheckCount(a.events) == (if flow.raised.None? then 1 else 0)
  {
    match flow.raised {
      case Some(e) =>
        SuppressCounts(e, []);
      case None =>
        match post {
          case Reported(errors) =>
            PostCheckCounts(errors);
          case CheckFailed(e) =>
            SingleCounts(SmokeChecked(post));
            SuppressCounts(e, [SmokeChecked(post)]);
        }
    }
  }

  lemma RespondCounts(attempted: bool, errors: seq<string>, output: string, flow: FlowResult, post: Check)
    ensures var t := Respond(attempted, errors, output, flow, post);
            && RepairCount(t.events) == (if attempted then 0 else 1)
            && CheckCount(t.events) == (if !attempted && flow.raised.None? then 1 else 0)
  {
    if attempted {
      SingleCounts(Printed(SkipNotice, ""));
      ErrorLinesCounts(errors);
      CountsAppend([Printed(SkipNotice, "")], ErrorLines(errors));
    } else {
      var start := [Printed(RepairNotice, ""), RepairRan(true, errors, output, flow)];
      SingleCounts(Printed(RepairNotice, ""));
      SingleCounts(RepairRan(true, errors, output, flow));
      CountsAppend([Printed(RepairNotice, "")], [RepairRan(true, errors, output, flow)]);
      assert start == [Printed(RepairNotice, "")] + [RepairRan(true, errors, output, flow)];
      AfterFlowCounts(flow, post);
      CountsAppend(start, AfterFlow(flow, post).events);
    }
  }

  // ---------------------------------------------------------------------------
  // The guarantees of one callback
  // ---------------------------------------------------------------------------

  /**
   * A callback while a repair is in progress does nothing; otherwise it runs
   * the smoke check first. An exception from that check leaves the callback
   * with nothing else done, a clean check changes nothing else, and a
   * failing check after an earlier repair only reports the failures.
   */
  lemma StepsGuards(attempted: bool, inProgress: bool, check: Check, output: string, flow: FlowResult, post: Check)
    ensures inProgress ==> Steps(attempted, inProgress, check, output, flow, post) == HookResult(attempted, [], None)
    ensures var r := Steps(attempted, inProgress, check, output, flow, post);
            && (!inProgress ==> |r.events| >= 1 && r.events[0] == SmokeChecked(check))
            && (!inProgress && check.CheckFailed? ==> r == HookResult(attempted, [SmokeChecked(check)], Some(check.exc)))
            && (!inProgress && check == Reported([]) ==> r == HookResult(attempted, [SmokeChecked(check)], None))
            && (!inProgress && check.Reported? && check.errors != [] && attempted ==>
                  r == HookResult(true, [SmokeChecked(check), Printed(SkipNotice, "")] + ErrorLines(check.errors), None))
  {
  }

  /**
   * At most one repair flow per callback, exactly when the smoke check
   * reports failures and no repair was attempted yet, and the flag records
   * it; without a repair the callback runs at most one smoke check and lets
   * out only what that check raised.
   */
  lemma {:induction false} StepsRepairs(attempted: bool, inProgress: bool, check: Check, output: string,
                                        flow: FlowResult, post: Check)
    ensures var r := Steps(attempted, inProgress, check, output, flow, post);
            && RepairCount(r.events) <= 1
            && (RepairCount(r.events) == 1 <==> !inProgress && !attempted && check.Reported? && check.errors != [])
            && r.attempted == (attempted || RepairCount(r.events) == 1)
            && (RepairCount(r.events) == 0 ==>
                  && CheckCount(r.events) == (if inProgress then 0 else 1)
                  && r.escaped == (if !inProgress && check.CheckFailed? then Some(check.exc) else None))
  {
    SingleCounts(SmokeChecked(check));
    if !inProgress && check.Reported? && check.errors != [] {
      RespondCounts(attempted, check.errors, output, flow, post);
      CountsAppend([SmokeChecked(check)], Respond(attempted, check.errors, output, flow, post).events);
    }
  }

  /** The first exception of a repair: the flow's own, or else the one the second smoke check raised. */
  function RepairFault(flow: FlowResult, post: Check): Option<Exc>
  {
    if flow.raised.Some? then flow.raised
    else if post.CheckFailed? then Some(post.exc)
    else None
  }

  /**
   * A callback that repairs runs the flow while the in-progress flag is set,
   * on the check's failures and the integration task's output; the second
   * smoke check runs once, and only when the flow returned. Of what the flow
   * or that check raises, only a non-`Exception` escapes; an `Exception` is
   * logged as the callback's last line instead.
   */
  lemma {:induction false} RepairEvents(errors: seq<string>, output: string, flow: FlowResult, post: Check)
    requires errors != []
    ensures var r := Steps(false, false, Reported(errors), output, flow, post);
            var fault := RepairFault(flow, post);
            && r.attempted
            && RepairCount(r.events) == 1
            && |r.events| >= 3 && r.events[2] == RepairRan(true, errors, output, flow)
            && CheckCount(r.events) == (if flow.raised.None? then 2 else 1)
            && r.escaped == (if fault.Some? && fault.value.NonException? then fault else None)
            && (fault.Some? && !fault.value.NonException? ==>
                  r.events[|r.events| - 1] == Printed(SuppressedNotice, fault.value.msg))
            && (fault.None? ==> r.events[3] == SmokeChecked(post))
  {
    var t := Respond(false, errors, output, flow, post);
    SingleCounts(SmokeChecked(Reported(errors)));
    RespondCounts(false, errors, output, flow, post);
    CountsAppend([SmokeChecked(Reported(errors))], t.events);
  }

  /**
   * The repair a callback runs is built from the first smoke check's
   * failures and the integration task's raw output, or the empty text when it has none,
   * and kicked off with the repair inputs of the stored kickoff inputs.
   */
  lemma HookRepairInputs(inputs: map<string, string>, call: HookCall, errors: seq<string>)
    requires Observe(SmokeCheck(inputs, call.before)) == Reported(errors) && errors != []
    ensures var flow := RunRepairFlow(inputs, call.first, call.retry);
            && Hook(false, false, inputs, call).events[2] == RepairRan(true, errors, RawText(call.raw), flow)
            && flow.kickoffs[0] == Some(RepairInputs(inputs))
  {
    RepairEvents(errors, RawText(call.raw), RunRepairFlow(inputs, call.first, call.retry),
                 Observe(SmokeCheck(inputs, call.after)));
    RepairFlowOutcome(inputs, call.first, call.retry);
  }

  /**
   * A module name that names no file makes the first smoke check compile
   * the `output` directory; when that raises, the exception leaves the
   * callback before any repair.
   */
  lemma NamelessModuleEscapes(attempted: bool, inputs: map<string, string>, call: HookCall, msg: string)
    requires ModuleName(inputs) in {"", ".", "/"}
    requires FileAt(call.before.files, "output").Present?
    requires FileAt(call.before.files, "output").compile == CompileRaises(msg)
    ensures var r := Hook(attempted, false, inputs, call);
            && r.escaped == Some(OtherError(msg))
            && r.attempted == attempted && RepairCount(r.events) == 0
  {
    NamelessModuleChecksOutputDirectory(inputs, call.before, msg);
    SingleCounts(SmokeChecked(CheckFailed(OtherError(msg))));
  }

  // ---------------------------------------------------------------------------
  // Callbacks in sequence, between two kickoffs
  // ---------------------------------------------------------------------------

  /**
   * Callbacks one after another, each returning before the next (so none
   * sees the in-progress flag set), from the flag `attempted`.
   */
  function RunHooks(attempted: bool, inputs: map<string, string>, calls: seq<HookCall>): HookResult
  {
    if calls == [] then HookResult(attempted, [], None)
    else
      var r := RunHooks(attempted, inputs, calls[..|calls| - 1]);
      var h := Hook(r.attempted, false, inputs, calls[|calls| - 1]);
      HookResult(h.attempted, r.events + h.events, h.escaped)
  }

  /** However many callbacks follow a kickoff, the repair flow runs at most once. */
  lemma {:induction false} AtMostOneRepairPerKickoff(attempted: bool, inputs: map<string, string>, calls: seq<HookCall>)
    ensures RepairCount(RunHooks(attempted, inputs, calls).events) <= (if attempted then 0 else 1)
    ensures RunHooks(attempted, inputs, calls).attempted
            == (attempted || RepairCount(RunHooks(attempted, inputs, calls).events) == 1)
  {
    if calls != [] {
      var r := RunHooks(attempted, inputs, calls[..|calls| - 1]);
      AtMostOneRepairPerKickoff(attempted, inputs, calls[..|calls| - 1]);
      var call := calls[|calls| - 1];
      StepsRepairs(r.attempted, false, Observe(SmokeCheck(inputs, call.before)), RawText(call.raw),
                   RunRepairFlow(inputs, call.first, call.retry), Observe(SmokeCheck(inputs, call.after)));
      CountsAppend(r.events, Hook(r.attempted, false, inputs, call).events);
    }
  }

  // ---------------------------------------------------------------------------
  // The crew object
  // ---------------------------------------------------------------------------

  /** The crew's guardrail state, with a ghost count of repair flows and a ghost log. */
  class EngineeringTeam {
    var kickoffInputs: map<string, string>
    var repairAttempted: bool
    var repairInProgress: bool
    ghost var repairRuns: nat
    ghost var trace: seq<Event>

    /** Repair flows since the last kickoff: one once a repair was attempted, none before. */
    ghost predicate Valid()
      reads this
    {
      repairRuns == (if repairAttempted then 1 else 0) && RepairCount(trace) == repairRuns
    }

    /** Before any kickoff: both flags false and no inputs stored. */
    constructor ()
      ensures Valid()
      ensures kickoffInputs == map[] && !repairAttempted && !repairInProgress && trace == []
    {
      kickoffInputs := map[];
      repairAttempted := false;
      repairInProgress := false;
      repairRuns := 0;
      trace := [];
    }

    /** `setup_guardrails`: store the kickoff inputs, clear both flags, and pass the inputs on. */
    method SetupGuardrails(inputs: map<string, string>) returns (r: map<string, string>)
      modifies this
      ensures r == inputs && kickoffInputs == inputs
      ensures !repairAttempted && !repairInProgress
      ensures repairRuns == 0 && trace == [] && Valid()
    {
      kickoffInputs := inputs;
      repairAttempted := false;
      repairInProgress := false;
      repairRuns := 0;
      trace := [];
      r := inputs;
    }

    /** The `for err in ...: print(f"[Guardrail] {err}")` loops. */
    method LogErrors(errors: seq<string>)
      modifies this
      ensures trace == old(trace) + ErrorLines(errors)
      ensures kickoffInputs == old(kickoffInputs) && repairAttempted == old(repairAttempted)
      ensures repairInProgress == old(repairInProgress) && repairRuns == old(repairRuns)
    {
      for i := 0 to |errors|
        invariant trace == old(trace) + ErrorLines(errors[..i])
        invariant kickoffInputs == old(kickoffInputs) && repairAttempted == old(repairAttempted)
        invariant repairInProgress == old(repairInProgress) && repairRuns == old(repairRuns)
      {
        assert errors[..i + 1][..i] == errors[..i];
        trace := trace + [Printed(ErrorNotice, errors[i])];
      }
      assert errors[..|errors|] == errors;
    }

    /** The report of the check after a repair flow that returned. */
    method ReportPostCheck(postErrors: seq<string>)
      modifies this
      ensures trace == old(trace) + PostCheck(postErrors)
      ensures kickoffInputs == old(kickoffInputs) && repairAttempted == old(repairAttempted)
      ensures repairInProgress == old(repairInProgress) && repairRuns == old(repairRuns)
    {
      trace := trace + [SmokeChecked(Reported(postErrors))];
      if postErrors != [] {
        trace := trace + [Printed(StillFailsNotice, "")];
        LogErrors(postErrors);
      }
    }

    /** The `except Exception as exc` clause: log an `Exception`, let anything else out. */
    method HandleFault(e: Exc) returns (escaped: Option<Exc>)
      modifies this
      ensures trace == old(trace) + Suppress(e, []).events && escaped == Suppress(e, []).escaped
      ensures kickoffInputs == old(kickoffInputs) && repairAttempted == old(repairAttempted)
      ensures repairInProgress == old(repairInProgress) && repairRuns == old(repairRuns)
    {
      if e.NonException? {
        escaped := Some(e);
      } else {
        trace := trace + [Printed(SuppressedNotice, e.msg)];
        escaped := None;
      }
    }

    /**
     * The inner `try` after the flow: the second smoke check, or the handling
     * of what the flow or that check raised.
     */
    method FinishRepair(inputs: map<string, string>, flow: FlowResult, env: Environment) returns (escaped: Option<Exc>)
      modifies this
      ensures var a := AfterFlow(flow, Observe(SmokeCheck(inputs, env)));
              trace == old(trace) + a.events && escaped == a.escaped
      ensures kickoffInputs == old(kickoffInputs) && repairAttempted == old(repairAttempted)
      ensures repairInProgress == old(repairInProgress) && repairRuns == old(repairRuns)
    {
      match flow.raised {
        case Some(e) =>
          escaped := HandleFault(e);
        case None =>
          var outcome := SmokeCheckArtifacts(inputs, env);
          var post := Observe(outcome);
          match post {
            case Reported(postErrors) =>
              ReportPostCheck(postErrors);
              escaped := None;
            case CheckFailed(e) =>
              trace := trace + [SmokeChecked(post)];
              escaped := HandleFault(e);
          }
      }
    }

    /** The outer `try`: the repair flow and what follows it, with the in-progress flag set. */
    method GuardedRepair(inputs: map<string, string>, errors: seq<string>, call: HookCall) returns (escaped: Option<Exc>)
      requires repairInProgress
      modifies this
      ensures var t := Respond(false, errors, RawText(call.raw), RunRepairFlow(inputs, call.first, call.retry),
                               Observe(SmokeCheck(inputs, call.after)));
              trace == old(trace) + t.events && escaped == t.escaped
      ensures kickoffInputs == old(kickoffInputs) && repairAttempted == old(repairAttempted)
      ensures repairInProgress && repairRuns == old(repairRuns)
    {
      var flow := RunRepairFlow(inputs, call.first, call.retry);
      ghost var start := [Printed(RepairNotice, ""), RepairRan(true, errors, RawText(call.raw), flow)];
      trace := trace + [Printed(RepairNotice, "")];
      trace := trace + [RepairRan(repairInProgress, errors, RawText(call.raw), flow)];
      assert trace == old(trace) + start;
      escaped := FinishRepair(inputs, flow, call.after);
      AppendAssoc(old(trace), start, AfterFlow(flow, Observe(SmokeCheck(inputs, call.after))).events);
    }

    /** The report when a repair was already attempted. */
    method ReportSkip(errors: seq<string>)
      modifies this
      ensures trace == old(trace) + ([Printed(SkipNotice, "")] + ErrorLines(errors))
      ensures kickoffInputs == old(kickoffInputs) && repairAttempted == old(repairAttempted)
      ensures repairInProgress == old(repairInProgress) && repairRuns == old(repairRuns)
    {
      trace := trace + [Printed(SkipNotice, "")];
      LogErrors(errors);
    }

    /**
     * The rest of the callback once its smoke check failed: the report when
     * a repair was already attempted, or else one repair inside `try ...
     * finally`, which clears the in-progress flag on every exit.
     */
    method RespondToFailures(inputs: map<string, string>, errors: seq<string>, call: HookCall)
      returns (escaped: Option<Exc>)
      requires !repairInProgress
      modifies this
      ensures var t := Respond(old(repairAttempted), errors, RawText(call.raw),
                               RunRepairFlow(inputs, call.first, call.retry), Observe(SmokeCheck(inputs, call.after)));
              repairAttempted == t.attempted && trace == old(trace) + t.events && escaped == t.escaped
      ensures repairRuns == old(repairRuns) + (if old(repairAttempted) then 0 else 1)
      ensures !repairInProgress && kickoffInputs == old(kickoffInputs)
    {
      if repairAttempted {
        ReportSkip(errors);
        return None;
      }
      repairAttempted := true;
      repairInProgress := true;
      repairRuns := repairRuns + 1;
      escaped := GuardedRepair(inputs, errors, call);
      repairInProgress := false;
    }

    /**
     * The callback past the in-progress guard: the first smoke check, whose
     * exception leaves the callback, and the response to its failures.
     */
    method CheckAndRespond(inputs: map<string, string>, call: HookCall) returns (escaped: Option<Exc>)
      requires !repairInProgress
      modifies this
      ensures var h := Steps(old(repairAttempted), false, Observe(SmokeCheck(inputs, call.before)), RawText(call.raw),
                             RunRepairFlow(inputs, call.first, call.retry), Observe(SmokeCheck(inputs, call.after)));
              repairAttempted == h.attempted && trace == old(trace) + h.events && escaped == h.escaped
      ensures repairRuns == old(repairRuns) + (if repairAttempted && !old(repairAttempted) then 1 else 0)
      ensures !repairInProgress && kickoffInputs == old(kickoffInputs)
    {
      var outcome := SmokeCheckArtifacts(inputs, call.before);
      var check := Observe(outcome);
      trace := trace + [SmokeChecked(check)];
      match check {
        case CheckFailed(e) =>
          escaped := Some(e);
        case Reported(errors) =>
          if errors == [] {
            escaped := None;
          } else {
            escaped := RespondToFailures(inputs, errors, call);
            AppendAssoc(old(trace), [SmokeChecked(check)],
                        Respond(old(repairAttempted), errors, RawText(call.raw),
                                RunRepairFlow(inputs, call.first, call.retry),
                                Observe(SmokeCheck(inputs, call.after))).events);
          }
      }
    }

    /**
     * `on_integration_done`. The callback's effect is `Hook` on the flags as
     * they were; the in-progress flag is back to its old value on every
     * exit, including the one an escaping exception takes.
     */
    method OnIntegrationDone(call: HookCall) returns (escaped: Option<Exc>)
      requires Valid()
      modifies this
      ensures Valid()
      ensures var h := Hook(old(repairAttempted), old(repairInProgress), old(kickoffInputs), call);
              repairAttempted == h.attempted && trace == old(trace) + h.events && escaped == h.escaped
      ensures repairInProgress == old(repairInProgress) && kickoffInputs == old(kickoffInputs)
      ensures repairRuns <= 1
    {
      if repairInProgress {
        return None;
      }
      var inputs := kickoffInputs;
      ghost var h := Hook(repairAttempted, false, inputs, call);
      StepsRepairs(repairAttempted, false, Observe(SmokeCheck(inputs, call.before)), RawText(call.raw),
                   RunRepairFlow(inputs, call.first, call.retry), Observe(SmokeCheck(inputs, call.after)));
      CountsAppend(trace, h.events);
      escaped := CheckAndRespond(inputs, call);
    }
  }
}
