/** The part of the browser executor that needs no browser: the numbered
    natural-language instructions a plan is turned into for the hosted agent, and
    the mock execution used in development. */
module Executor {
  import opened Wrappers
  import opened Strings
  import opened Types

  const Header := "Execute the following browser automation steps:\n\n"
  const Trailer := "\n\nPlease complete each step carefully and take screenshots when requested."

  /** A template literal prints an absent field as "undefined". */
  function Show(v: Option<string>): string {
    match v
    case None => "undefined"
    case Some(s) => s
  }

  /** `field || fallback`: an absent or empty field falls back. */
  function OrElse(v: Option<string>, fallback: string): (r: string)
    ensures r == fallback || (v.Some? && r == v.value)
    ensures r == "" ==> fallback == ""
  {
    if v.Some? && v.value != "" then v.value else fallback
  }

  /** The kind of step a sentence describes, read back from its opening words. */
  function SentenceKind(line: string): Option<StepKind> {
    if OccursAt(line, "Navigate to ", 0) then Some(Navigate)
    else if OccursAt(line, "Click on ", 0) then Some(Click)
    else if OccursAt(line, "Type \"", 0) then Some(Type)
    else if OccursAt(line, "Wait for ", 0) then Some(Wait)
    else if OccursAt(line, "Verify that ", 0) then Some(AssertText)
    else if line == "Take a screenshot" then Some(Capture)
    else if OccursAt(line, "Execute ", 0) then Some(Other(line[8..]))
    else None
  }

  /** The sentence describing one step, without its number. */
  function Describe(step: PlanStep): string {
    match step.kind
    case Navigate => "Navigate to " + Show(step.value)
    case Click => "Click on " + OrElse(step.selector, "the specified element")
    case Type => "Type \"" + Show(step.value) + "\" into " + OrElse(step.selector, "the input field")
    case Wait =>
      var t := if step.timeout.Some? && step.timeout.value != 0 then step.timeout.value else 2000;
      "Wait for " + IntToString(t) + "ms"
    case AssertText =>
      "Verify that " + OrElse(step.selector, "the element") + " contains the text \"" + Show(step.text) + "\""
    case Capture => "Take a screenshot"
    case Other(tag) => "Execute " + tag
  }

  /** The line of the step at index `i`: its one-based number, a dot and a space, and
      the description. */
  function StepLine(i: nat, step: PlanStep): (line: string)
    ensures |line| > |NatToString(i + 1)| + 2
    ensures line[..|NatToString(i + 1)|] == NatToString(i + 1)
    ensures line[|NatToString(i + 1)|..|NatToString(i + 1)| + 2] == ". "
  {
    var n := NatToString(i + 1);
    var d := Describe(step);
    assert |d| > 0;
    var line := n + ". " + d;
    assert line[..|n|] == n;
    assert line[|n|..|n| + 2] == ". ";
    line
  }

  function StepLines(steps: seq<PlanStep>): (lines: seq<string>)
    ensures |lines| == |steps|
    ensures forall i :: 0 <= i < |steps| ==> lines[i] == StepLine(i, steps[i])
  {
    seq(|steps|, i requires 0 <= i < |steps| => StepLine(i, steps[i]))
  }

  /** `convertPlanToInstructions`: the numbered step lines joined by line breaks,
      between a fixed header and a fixed closing request. */
  function ConvertPlanToInstructions(plan: Plan): (text: string)
    ensures |text| >= |Header| + |Trailer|
    ensures text[..|Header|] == Header
    ensures text[|text| - |Trailer|..] == Trailer
  {
    var body := Join(StepLines(plan.steps), "\n");
    var text := Header + body + Trailer;
    assert text[..|Header|] == Header;
    assert text[|text| - |Trailer|..] == Trailer;
    text
  }

  /** The text between the header and the closing request. */
  function Body(text: string): string
    requires |text| >= |Header| + |Trailer|
  {
    text[|Header|..|text| - |Trailer|]
  }

  /** No field a step's line prints holds a line break. */
  predicate SingleLine(step: PlanStep) {
    (step.selector.Some? ==> '\n' !in step.selector.value)
    && (step.value.Some? ==> '\n' !in step.value.value)
    && (step.text.Some? ==> '\n' !in step.text.value)
    && (step.kind.Other? ==> '\n' !in step.kind.tag)
  }

  lemma NumeralHasNoBreak(n: nat)
    ensures '\n' !in NatToString(n)
  {
    var s := NatToString(n);
    assert forall k :: 0 <= k < |s| ==> s[k] != '\n';
  }

  lemma IntegerHasNoBreak(i: int)
    ensures '\n' !in IntToString(i)
  {
    if i < 0 {
      NumeralHasNoBreak(-i);
    } else {
      NumeralHasNoBreak(i);
    }
  }

  lemma DescribeHasNoBreak(step: PlanStep)
    requires SingleLine(step)
    ensures '\n' !in Describe(step)
  {
    match step.kind
    case Navigate => NavigateLineHasNoBreak(step);
    case Click => ClickLineHasNoBreak(step);
    case Type => TypeLineHasNoBreak(step);
    case Wait => WaitLineHasNoBreak(step);
    case AssertText => AssertLineHasNoBreak(step);
    case Capture => CaptureLineHasNoBreak(step);
    case Other(_) => OtherLineHasNoBreak(step);
  }

  lemma NavigateLineHasNoBreak(step: PlanStep)
    requires SingleLine(step) && step.kind == Navigate
    ensures '\n' !in Describe(step)
  {
  }

  lemma ClickLineHasNoBreak(step: PlanStep)
    requires SingleLine(step) && step.kind == Click
    ensures '\n' !in Describe(step)
  {
  }

  lemma TypeLineHasNoBreak(step: PlanStep)
    requires SingleLine(step) && step.kind == Type
    ensures '\n' !in Describe(step)
  {
  }

  lemma WaitLineHasNoBreak(step: PlanStep)
    requires step.kind == Wait
    ensures '\n' !in Describe(step)
  {
    IntegerHasNoBreak(if step.timeout.Some? && step.timeout.value != 0 then step.timeout.value else 2000);
  }

  lemma CaptureLineHasNoBreak(step: PlanStep)
    requires step.kind == Capture
    ensures '\n' !in Describe(step)
  {
  }

  lemma OtherLineHasNoBreak(step: PlanStep)
    requires SingleLine(step) && step.kind.Other?
    ensures '\n' !in Describe(step)
  {
  }

  lemma AssertLineHasNoBreak(step: PlanStep)
    requires SingleLine(step) && step.kind == AssertText
    ensures '\n' !in Describe(step)
  {
  }

  lemma StepLineHasNoBreak(i: nat, step: PlanStep)
    requires SingleLine(step)
    ensures '\n' !in StepLine(i, step)
  {
    NumeralHasNoBreak(i + 1);
    DescribeHasNoBreak(step);
    assert StepLine(i, step) == NatToString(i + 1) + ". " + Describe(step);
  }

  /** The number a step's line starts with reads back as its position plus one. */
  lemma LineNumber(i: nat, step: PlanStep)
    ensures var n := |NatToString(i + 1)|;
            IsDigits(StepLine(i, step)[..n]) && ParseNat(StepLine(i, step)[..n]) == i + 1
  {
    ParseNatToString(i + 1);
  }

  /** The instructions hold one line per step, in plan order: cutting the body at its
      line breaks gives back the step lines. */
  lemma {:induction false} OneLinePerStep(plan: Plan)
    requires |plan.steps| >= 1
    requires forall k :: 0 <= k < |plan.steps| ==> SingleLine(plan.steps[k])
    ensures Split(Body(ConvertPlanToInstructions(plan)), "\n") == StepLines(plan.steps)
  {
    var lines := StepLines(plan.steps);
    forall k | 0 <= k < |lines|
      ensures "\n"[0] !in lines[k]
    {
      StepLineHasNoBreak(k, plan.steps[k]);
    }
    var text := ConvertPlanToInstructions(plan);
    assert Body(text) == Join(lines, "\n");
    SplitJoin(lines, "\n");
  }

  /** A step's line names what the step does. */
  lemma DescribeKinds(step: PlanStep)
    ensures step.kind == Capture ==> Describe(step) == "Take a screenshot"
    ensures step.kind == Click && (step.selector.None? || step.selector == Some("")) ==>
              Describe(step) == "Click on the specified element"
    ensures step.kind == Click && step.selector.Some? && step.selector.value != "" ==>
              Describe(step) == "Click on " + step.selector.value
    ensures step.kind == Navigate && step.value.None? ==> Describe(step) == "Navigate to undefined"
    ensures step.kind == Navigate && step.value.Some? ==> Describe(step) == "Navigate to " + step.value.value
    ensures step.kind == Type && (step.selector.None? || step.selector == Some("")) ==>
              Describe(step) == "Type \"" + Show(step.value) + "\" into the input field"
    ensures step.kind == AssertText && (step.selector.None? || step.selector == Some("")) ==>
              Describe(step) == "Verify that the element contains the text \"" + Show(step.text) + "\""
    ensures step.kind == Wait && step.timeout.Some? && step.timeout.value != 0 ==>
              Describe(step) == "Wait for " + IntToString(step.timeout.value) + "ms"
    ensures step.kind == Type && step.selector.Some? && step.selector.value != "" ==>
              Describe(step) == "Type \"" + Show(step.value) + "\" into " + step.selector.value
    ensures step.kind == AssertText && step.selector.Some? && step.selector.value != "" ==>
              Describe(step) == "Verify that " + step.selector.value + " contains the text \"" + Show(step.text) + "\""
    ensures step.kind.Other? ==> Describe(step) == "Execute " + step.kind.tag
  {
    match step.kind
    case Capture =>
    case Click =>
    case Navigate =>
    case Type =>
      if step.selector.None? || step.selector == Some("") {
        DescribeUntargetedType(step);
      } else {
        assert OrElse(step.selector, "the input field") == step.selector.value;
      }
    case AssertText =>
      if step.selector.None? || step.selector == Some("") {
        DescribeUntargetedAssert(step);
      } else {
        assert OrElse(step.selector, "the element") == step.selector.value;
      }
    case Wait =>
    case Other(_) =>
  }

  lemma DescribeUntargetedType(step: PlanStep)
    requires step.kind == Type && (step.selector.None? || step.selector == Some(""))
    ensures Describe(step) == "Type \"" + Show(step.value) + "\" into the input field"
  {
    AppendAssoc("Type \"" + Show(step.value), "\" into ", "the input field");
  }

  lemma DescribeUntargetedAssert(step: PlanStep)
    requires step.kind == AssertText && (step.selector.None? || step.selector == Some(""))
    ensures Describe(step) == "Verify that the element contains the text \"" + Show(step.text) + "\""
  {
    assert OrElse(step.selector, "the element") == "the element";
    assert "Verify that " + "the element" + " contains the text \"" == "Verify that the element contains the text \"";
  }

  /** A sentence opening with `lead` starts with it. */
  lemma Opens(lead: string, x: string)
    ensures OccursAt(lead + x, lead, 0)
  {
    assert (lead + x)[..|lead|] == lead;
  }

  /** A sentence whose `i`-th character is not that of `p` does not open with `p`. */
  lemma Differs(s: string, p: string, i: nat)
    requires i < |s| && i < |p| && s[i] != p[i]
    ensures !OccursAt(s, p, 0)
  {
    if |p| <= |s| {
      assert s[..|p|][i] == s[i];
    }
  }

  /** The kind of a step can be read back from its sentence: the seven openings are
      told apart by their first words. */
  lemma DescribeReadsBack(step: PlanStep)
    ensures SentenceKind(Describe(step)) == Some(step.kind)
  {
    match step.kind
    case Navigate => ReadNavigate(Show(step.value));
    case Click => ReadClick(OrElse(step.selector, "the specified element"));
    case Type =>
      var v, o := Show(step.value), OrElse(step.selector, "the input field");
      AppendAssoc("Type \"", v, "\" into ");
      AppendAssoc("Type \"", v + "\" into ", o);
      ReadType(v + "\" into " + o);
    case Wait =>
      var t := if step.timeout.Some? && step.timeout.value != 0 then step.timeout.value else 2000;
      AppendAssoc("Wait for ", IntToString(t), "ms");
      ReadWait(IntToString(t) + "ms");
    case AssertText =>
      var o, t := OrElse(step.selector, "the element"), Show(step.text);
      AppendAssoc("Verify that ", o, " contains the text \"");
      AppendAssoc("Verify that ", o + " contains the text \"", t);
      AppendAssoc("Verify that ", o + " contains the text \"" + t, "\"");
      ReadAssert(o + " contains the text \"" + t + "\"");
    case Capture => ReadCapture();
    case Other(tag) => ReadOther(tag);
  }

  lemma ReadNavigate(x: string)
    ensures SentenceKind("Navigate to " + x) == Some(Navigate)
  {
    Opens("Navigate to ", x);
  }

  lemma ReadClick(x: string)
    ensures SentenceKind("Click on " + x) == Some(Click)
  {
    var line := "Click on " + x;
    Opens("Click on ", x);
    Differs(line, "Navigate to ", 0);
  }

  lemma ReadType(x: string)
    ensures SentenceKind("Type \"" + x) == Some(Type)
  {
    var line := "Type \"" + x;
    Opens("Type \"", x);
    Differs(line, "Navigate to ", 0);
    Differs(line, "Click on ", 0);
  }

  lemma ReadWait(x: string)
    ensures SentenceKind("Wait for " + x) == Some(Wait)
  {
    var line := "Wait for " + x;
    Opens("Wait for ", x);
    Differs(line, "Navigate to ", 0);
    Differs(line, "Click on ", 0);
    Differs(line, "Type \"", 0);
  }

  lemma ReadAssert(x: string)
    ensures SentenceKind("Verify that " + x) == Some(AssertText)
  {
    var line := "Verify that " + x;
    Opens("Verify that ", x);
    Differs(line, "Navigate to ", 0);
    Differs(line, "Click on ", 0);
    Differs(line, "Type \"", 0);
    Differs(line, "Wait for ", 0);
  }

  lemma ReadCapture()
    ensures SentenceKind("Take a screenshot") == Some(Capture)
  {
    var line := "Take a screenshot";
    Differs(line, "Navigate to ", 0);
    Differs(line, "Click on ", 0);
    Differs(line, "Type \"", 1);
    Differs(line, "Wait for ", 0);
    Differs(line, "Verify that ", 0);
  }

  lemma ReadOther(tag: string)
    ensures SentenceKind("Execute " + tag) == Some(Other(tag))
  {
    var line := "Execute " + tag;
    Opens("Execute ", tag);
    Differs(line, "Navigate to ", 0);
    Differs(line, "Click on ", 0);
    Differs(line, "Type \"", 0);
    Differs(line, "Wait for ", 0);
    Differs(line, "Verify that ", 0);
    assert line[0] == 'E';
    assert line[8..] == tag;
  }

  /** A wait without a usable timeout, absent or zero, waits the default two seconds. */
  lemma DescribeDefaultWait(step: PlanStep)
    requires step.kind == Wait && (step.timeout.None? || step.timeout == Some(0))
    ensures Describe(step) == "Wait for 2000ms"
  {
    DefaultWait();
  }

  lemma DefaultWait()
    ensures IntToString(2000) == "2000"
  {
    assert NatToString(2) == "2";
    assert NatToString(20) == NatToString(2) + "0";
    assert NatToString(200) == NatToString(20) + "0";
    assert NatToString(2000) == NatToString(200) + "0";
  }

  /** A one-by-one transparent PNG, the screenshot of every mock run. */
  const MockScreenshot := "data:image/png;base64,iVBORw0KGgoAAAANSUhEUgAAAAEAAAABCAYAAAAfFcSJAAAADUlEQVR42mP8/5+hHgAHggJ/PchI7wAAAABJRU5ErkJggg=="

  const MockLogs := ["Mock: Navigated to website", "Mock: Executed automation steps",
                     "Mock: Captured screenshot", "Mock: Task completed successfully"]

  /** A result says the same thing in both of its ways: it succeeded exactly when it
      carries no error. */
  predicate Consistent(r: ExecutionResult) {
    r.success <==> r.error.None?
  }

  /** `executePlanMock`: whatever the plan, a success that carries the plan back, one
      screenshot and the four fixed log lines. */
  function ExecutePlanMock(plan: Plan): (r: ExecutionResult)
    ensures Consistent(r) && r.success
    ensures r.plan == plan
    ensures r.screenshots.Some? && |r.screenshots.value| == 1
    ensures |r.logs| == 4 && r.logs[0] == "Mock: Navigated to website" && r.logs[1] == "Mock: Executed automation steps"
            && r.logs[2] == "Mock: Captured screenshot" && r.logs[3] == "Mock: Task completed successfully"
  {
    ExecutionResult(true, plan, Some([MockScreenshot]), None, MockLogs)
  }

  /** The mock run does not look at the plan beyond handing it back. */
  lemma MockRunIgnoresPlan(p: Plan, q: Plan)
    ensures ExecutePlanMock(p).(plan := q) == ExecutePlanMock(q)
  {
  }
}
