// The fixed texts of the repair tasks and of the repair flow's log lines.
//
// The verifier checks a string literal for braces one character at a time,
// so every text is assembled from short pieces and each piece is checked in
// a lemma of its own.

module RepairTexts {
  import opened Template

  const BackendIntro := "Repair the backend module "
  const BackendPurpose := " so it matches the architecture" + " and integration needs.\n"
  const BackendFixLine := "Fix issues discovered" + " by smoke checks:\n- "
  const Bullet := "\n- "
  const ExpectedIntro := "Valid Python code for "
  const ExpectedOutro := ". Output ONLY raw Python code" + " without markdown" + " or code fences."

  const IntegrationTitle := "Repair output/main.py and its" + " wiring with output/app.py" + " and backend module.\n"
  const ConstraintsLine := "Use these constraints:\n"
  const RequirementsLabel := "- Requirements: "
  const KeepRunnableLine := "\n- Keep imports and startup" + " flow runnable from" + " output/main.py.\n"
  const ObservedLine := "Observed integration output:\n"
  const FailuresLine := "\nSmoke-check failures:\n- "
  const IntegrationExpected := ExpectedIntro + "output/main.py" + " that correctly wires the app" + ExpectedOutro

  /** The prefix of the guardrail's log lines. */
  const GuardrailPrefix := "[Guardrail] "
  const InterpolationFailed := GuardrailPrefix + "Repair kickoff" + " interpolation failed: "
  const RetryingLine := GuardrailPrefix + "Retrying repair kickoff" + " without inputs."

  /** The fixed text before the requirements. */
  function IntegrationHead(): string
  {
    IntegrationTitle + ConstraintsLine + RequirementsLabel
  }

  /** The fixed text between the requirements and the observed output. */
  function IntegrationMid(): string
  {
    KeepRunnableLine + ObservedLine
  }

  // ---------------------------------------------------------------------------
  // No fixed text holds a brace
  // ---------------------------------------------------------------------------

  lemma BackendIntroBraceFree() ensures BraceFree(BackendIntro) { NoBraceCharacter(BackendIntro); }
  lemma BulletBraceFree() ensures BraceFree(Bullet) { NoBraceCharacter(Bullet); }
  lemma PurposeStartBraceFree() ensures BraceFree(" so it matches the architecture")
  {
    NoBraceCharacter(" so it matches the architecture");
  }
  lemma PurposeEndBraceFree() ensures BraceFree(" and integration needs.\n")
  {
    NoBraceCharacter(" and integration needs.\n");
  }
  lemma FixStartBraceFree() ensures BraceFree("Fix issues discovered") { NoBraceCharacter("Fix issues discovered"); }
  lemma FixEndBraceFree() ensures BraceFree(" by smoke checks:\n- ") { NoBraceCharacter(" by smoke checks:\n- "); }
  lemma TitleStartBraceFree() ensures BraceFree("Repair output/main.py and its")
  {
    NoBraceCharacter("Repair output/main.py and its");
  }
  lemma TitleMiddleBraceFree() ensures BraceFree(" wiring with output/app.py")
  {
    NoBraceCharacter(" wiring with output/app.py");
  }
  lemma TitleEndBraceFree() ensures BraceFree(" and backend module.\n") { NoBraceCharacter(" and backend module.\n"); }
  lemma ConstraintsBraceFree() ensures BraceFree(ConstraintsLine) { NoBraceCharacter(ConstraintsLine); }
  lemma LabelBraceFree() ensures BraceFree(RequirementsLabel) { NoBraceCharacter(RequirementsLabel); }
  lemma KeepStartBraceFree() ensures BraceFree("\n- Keep imports and startup")
  {
    NoBraceCharacter("\n- Keep imports and startup");
  }
  lemma KeepMiddleBraceFree() ensures BraceFree(" flow runnable from") { NoBraceCharacter(" flow runnable from"); }
  lemma KeepEndBraceFree() ensures BraceFree(" output/main.py.\n") { NoBraceCharacter(" output/main.py.\n"); }
  lemma ObservedBraceFree() ensures BraceFree(ObservedLine) { NoBraceCharacter(ObservedLine); }
  lemma FailuresLineBraceFree() ensures BraceFree(FailuresLine) { NoBraceCharacter(FailuresLine); }

  lemma ExpectedIntroBraceFree() ensures BraceFree(ExpectedIntro) { NoBraceCharacter(ExpectedIntro); }
  lemma OutroStartBraceFree() ensures BraceFree(". Output ONLY raw Python code")
  {
    NoBraceCharacter(". Output ONLY raw Python code");
  }
  lemma OutroMiddleBraceFree() ensures BraceFree(" without markdown") { NoBraceCharacter(" without markdown"); }
  lemma OutroEndBraceFree() ensures BraceFree(" or code fences.") { NoBraceCharacter(" or code fences."); }
  lemma MainFileBraceFree() ensures BraceFree("output/main.py") { NoBraceCharacter("output/main.py"); }
  lemma WiresBraceFree() ensures BraceFree(" that correctly wires the app")
  {
    NoBraceCharacter(" that correctly wires the app");
  }
  lemma PrefixBraceFree() ensures BraceFree(GuardrailPrefix) { NoBraceCharacter(GuardrailPrefix); }
  lemma KickoffBraceFree() ensures BraceFree("Repair kickoff") { NoBraceCharacter("Repair kickoff"); }
  lemma InterpolationBraceFree() ensures BraceFree(" interpolation failed: ")
  {
    NoBraceCharacter(" interpolation failed: ");
  }
  lemma RetryingBraceFree() ensures BraceFree("Retrying repair kickoff") { NoBraceCharacter("Retrying repair kickoff"); }
  lemma WithoutInputsBraceFree() ensures BraceFree(" without inputs.") { NoBraceCharacter(" without inputs."); }

  lemma ExpectedOutroBraceFree()
    ensures BraceFree(ExpectedIntro) && BraceFree(ExpectedOutro)
  {
    ExpectedIntroBraceFree();
    OutroStartBraceFree();
    OutroMiddleBraceFree();
    OutroEndBraceFree();
    BraceFreeConcat(". Output ONLY raw Python code", " without markdown");
    BraceFreeConcat(". Output ONLY raw Python code" + " without markdown", " or code fences.");
  }

  lemma IntegrationExpectedBraceFree()
    ensures BraceFree(IntegrationExpected)
  {
    ExpectedOutroBraceFree();
    MainFileBraceFree();
    WiresBraceFree();
    BraceFreeConcat(ExpectedIntro, "output/main.py");
    BraceFreeConcat(ExpectedIntro + "output/main.py", " that correctly wires the app");
    BraceFreeConcat(ExpectedIntro + "output/main.py" + " that correctly wires the app", ExpectedOutro);
  }

  /** The flow's log lines hold no brace, and each starts with the guardrail prefix. */
  lemma FlowTextsBraceFree()
    ensures BraceFree(InterpolationFailed) && BraceFree(RetryingLine)
    ensures GuardrailPrefix <= InterpolationFailed && GuardrailPrefix <= RetryingLine
  {
    PrefixBraceFree();
    KickoffBraceFree();
    InterpolationBraceFree();
    RetryingBraceFree();
    WithoutInputsBraceFree();
    BraceFreeConcat(GuardrailPrefix, "Repair kickoff");
    BraceFreeConcat(GuardrailPrefix + "Repair kickoff", " interpolation failed: ");
    BraceFreeConcat(GuardrailPrefix, "Retrying repair kickoff");
    BraceFreeConcat(GuardrailPrefix + "Retrying repair kickoff", " without inputs.");
  }

  lemma BackendTextsBraceFree()
    ensures BraceFree(BackendIntro) && BraceFree(BackendPurpose) && BraceFree(BackendFixLine) && BraceFree(Bullet)
  {
    BackendIntroBraceFree();
    BulletBraceFree();
    PurposeStartBraceFree();
    PurposeEndBraceFree();
    BraceFreeConcat(" so it matches the architecture", " and integration needs.\n");
    FixStartBraceFree();
    FixEndBraceFree();
    BraceFreeConcat("Fix issues discovered", " by smoke checks:\n- ");
  }

  lemma IntegrationHeadBraceFree()
    ensures BraceFree(IntegrationHead())
  {
    TitleStartBraceFree();
    TitleMiddleBraceFree();
    TitleEndBraceFree();
    BraceFreeConcat("Repair output/main.py and its", " wiring with output/app.py");
    BraceFreeConcat("Repair output/main.py and its" + " wiring with output/app.py", " and backend module.\n");
    ConstraintsBraceFree();
    LabelBraceFree();
    BraceFreeConcat(IntegrationTitle, ConstraintsLine);
    BraceFreeConcat(IntegrationTitle + ConstraintsLine, RequirementsLabel);
  }

  lemma IntegrationMidBraceFree()
    ensures BraceFree(IntegrationMid())
  {
    KeepStartBraceFree();
    KeepMiddleBraceFree();
    KeepEndBraceFree();
    BraceFreeConcat("\n- Keep imports and startup", " flow runnable from");
    BraceFreeConcat("\n- Keep imports and startup" + " flow runnable from", " output/main.py.\n");
    ObservedBraceFree();
    BraceFreeConcat(KeepRunnableLine, ObservedLine);
  }
}
