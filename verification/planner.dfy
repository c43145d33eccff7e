/** Plan generation: the planning prompt, the keyword-driven mock planner, and the
    decision between the mock planner and a language model. The model itself is an
    oracle: given the provider, the prompt and the API key it answers with a plan or
    fails. */
module Planner {
  import opened Wrappers
  import opened Strings
  import opened Types
  import opened Config
  import opened Substitution
  import opened Json
  import JsReplace

  const PromptHead := "You are a browser " + "automation planner. " + "Given a task, " + "generate a deterministic "
    + "JSON plan.\n\n" + "Task Details:\n" + "- Website: "
  const PromptMid1 := "\n- Instructions: "
  const PromptMid2 := "\n- Parameters: "
  const PromptTail := "\n\nGenerate a plan with these step types:\n"
    + "1. navigate: {type: \"navigate\", value: \"https://...\"}\n"
    + "2. click: {type: \"click\", selector: \"button#submit\"}\n"
    + "3. type: {type: \"type\", selector: \"input[name='email']\", value: \"text\"}\n"
    + "4. wait: {type: \"wait\", timeout: 2000}\n"
    + "5. assertText: {type: \"assertText\", selector: \".message\", text: \"Success\"}\n"
    + "6. capture: {type: \"capture\"}\n\n"
    + "Return ONLY valid JSON:\n{\n  \"steps\": [...],\n  \"estimatedDuration\": 15\n}"

  const WebsiteSlot := "{website}"
  const InstructionsSlot := "{instructions}"
  const ParamsSlot := "{params}"

  /** The planning prompt template with its three slots. */
  const PlanningPrompt := PromptHead + WebsiteSlot + PromptMid1 + InstructionsSlot + PromptMid2 + ParamsSlot + PromptTail

  /** The prompt sent to a language model: the first occurrence of each slot is
      filled in turn with the website, the substituted instructions and the JSON of
      the parameter list. */
  function BuildPlanningPrompt(task: Task, bindings: Bindings): string
    requires PlainParams(task.params)
  {
    var instructions := Substitute(task.instructions, task.params, bindings);
    var p1 := ReplaceFirst(PlanningPrompt, WebsiteSlot, task.website);
    var p2 := ReplaceFirst(p1, InstructionsSlot, instructions);
    ReplaceFirst(p2, ParamsSlot, ParamsJson(task.params))
  }

  /** The prompt as the runtime builds it, every replacement read as a template. */
  function BuildPlanningPromptAsWritten(task: Task, bindings: Bindings): string
    requires PlainParams(task.params)
  {
    var instructions := SubstituteAsWritten(task.instructions, task.params, bindings);
    var p1 := JsReplace.ReplaceFirst(PlanningPrompt, WebsiteSlot, task.website);
    var p2 := JsReplace.ReplaceFirst(p1, InstructionsSlot, instructions);
    JsReplace.ReplaceFirst(p2, ParamsSlot, ParamsJson(task.params))
  }

  /** No occurrence of `pat` can start inside `a`, whatever follows it. */
  predicate Clear(a: string, pat: string) {
    forall k :: 0 <= k < |a| ==> !Agrees(a[k..], pat)
  }

  /** `u` and `p` agree on their common length. */
  predicate Agrees(u: string, p: string) {
    var n := if |u| < |p| then |u| else |p|;
    u[..n] == p[..n]
  }

  lemma ClearHasNoOccurrence(a: string, b: string, pat: string, k: nat)
    requires Clear(a, pat) && k < |a|
    ensures !OccursAt(a + b, pat, k)
  {
    var n := if |a| - k < |pat| then |a| - k else |pat|;
    if k + |pat| <= |a + b| {
      assert a[k..][..n] == (a + b)[k..k + |pat|][..n];
    }
  }

  /** Text free of opening braces is clear of any pattern that starts with one. */
  lemma ClearWithoutBrace(a: string, pat: string)
    requires '{' !in a && |pat| > 0 && pat[0] == '{'
    ensures Clear(a, pat)
  {
    forall k | 0 <= k < |a|
      ensures !Agrees(a[k..], pat)
    {
      assert a[k..][0] == a[k];
    }
  }

  /** Agreement with a pattern survives cutting the text short. */
  lemma AgreesPrefix(a: string, rest: string, pat: string, k: nat)
    requires k < |a|
    ensures Agrees((a + rest)[k..], pat) ==> Agrees(a[k..], pat)
  {
    var s := a + rest;
    var na := if |a| - k < |pat| then |a| - k else |pat|;
    var ns := if |s| - k < |pat| then |s| - k else |pat|;
    assert s[k..][..ns][..na] == s[k..][..na] == a[k..][..na];
    assert pat[..ns][..na] == pat[..na];
  }

  /** An occurrence starting in `w` either lies inside `w` or runs into `m`, which
      holds no closing brace to end it. */
  lemma MiddleStart(a: string, w: string, m: string, pat: string, k: nat)
    requires !Contains(w, pat)
    requires '}' !in m && |m| >= |pat| > 0 && pat[|pat| - 1] == '}'
    requires |a| <= k < |a| + |w|
    ensures !Agrees((a + w + m)[k..], pat)
  {
    var s := a + w + m;
    var j := k - |a|;
    assert s[k..][..|pat|] == s[k..k + |pat|];
    if j + |pat| <= |w| {
      assert w[j..j + |pat|] == s[k..k + |pat|];
      assert !OccursAt(w, pat, j);
    } else {
      assert s[k..k + |pat|][|pat| - 1] == m[k + |pat| - 1 - |a| - |w|];
    }
  }

  /** Clear text, then text without an occurrence, then brace-free text at least as
      long as the pattern is still clear of a pattern that starts with `{` and ends
      with `}`: an occurrence starting in the middle part would have to end in the
      brace-free one. */
  lemma ClearExtend(a: string, w: string, m: string, pat: string)
    requires Clear(a, pat) && !Contains(w, pat)
    requires '{' !in m && '}' !in m && |m| >= |pat| > 0
    requires pat[0] == '{' && pat[|pat| - 1] == '}'
    ensures Clear(a + w + m, pat)
  {
    var s := a + w + m;
    forall k | 0 <= k < |s|
      ensures !Agrees(s[k..], pat)
    {
      if k < |a| {
        AgreesPrefix(a, w + m, pat, k);
        assert a + (w + m) == s;
      } else if k < |a| + |w| {
        MiddleStart(a, w, m, pat, k);
      } else {
        assert s[k..][0] == m[k - |a| - |w|];
      }
    }
  }

  /** With nothing before it, the slot is the first occurrence and is replaced. */
  lemma FillSlot(a: string, pat: string, rest: string, v: string)
    requires Clear(a, pat)
    ensures ReplaceFirst(a + pat + rest, pat, v) == a + v + rest
  {
    var s := a + pat + rest;
    assert s[|a|..|a| + |pat|] == pat;
    forall j | 0 <= j < |a|
      ensures !OccursAt(s, pat, j)
    {
      ClearHasNoOccurrence(a, pat + rest, pat, j);
      assert a + (pat + rest) == s;
    }
    IndexOfIsFirst(s, pat, |a|);
    assert s[..|a|] == a;
    assert s[|a| + |pat|..] == rest;
  }

  lemma HeadBraces()
    ensures '{' !in PromptHead
  {
    var a := "You are a browser " + "automation planner. ";
    var b := "Given a task, " + "generate a deterministic ";
    var c := "JSON plan.\n\n" + "Task Details:\n" + "- Website: ";
    HeadPiece1();
    HeadPiece2();
    HeadPiece3();
    NotInJoin('{', a, b);
    NotInJoin('{', a + b, c);
    assert PromptHead == a + b + c;
  }

  lemma HeadPiece1() ensures '{' !in "You are a browser " + "automation planner. " { }
  lemma HeadPiece2() ensures '{' !in "Given a task, " + "generate a deterministic " { }
  lemma HeadPiece3() ensures '{' !in "JSON plan.\n\n" + "Task Details:\n" + "- Website: " { }

  lemma NotInJoin(x: char, a: string, b: string)
    requires x !in a && x !in b
    ensures x !in a + b
  {
  }

  lemma MidBraces()
    ensures '{' !in PromptMid1 && '}' !in PromptMid1 && |PromptMid1| >= |InstructionsSlot|
    ensures '{' !in PromptMid2 && '}' !in PromptMid2 && |PromptMid2| >= |ParamsSlot|
  {
  }

  /** The prompt's layout: when the website does not itself contain a later slot
      name, and the instructions do not contain the parameters slot, each value lands
      in its own slot and the template text around them is kept. */
  lemma PromptLayout(task: Task, bindings: Bindings)
    requires PlainParams(task.params)
    requires !Contains(task.website, InstructionsSlot) && !Contains(task.website, ParamsSlot)
    requires !Contains(Substitute(task.instructions, task.params, bindings), ParamsSlot)
    ensures BuildPlanningPrompt(task, bindings)
         == PromptHead + task.website + PromptMid1 + Substitute(task.instructions, task.params, bindings)
            + PromptMid2 + ParamsJson(task.params) + PromptTail
  {
    HeadBraces();
    MidBraces();
    FillSlots(PromptHead, PromptMid1, PromptMid2, PromptTail, task.website,
              Substitute(task.instructions, task.params, bindings), ParamsJson(task.params));
  }

  /** Filling the three slots of any template of the planning prompt's shape. */
  lemma FillSlots(h: string, m1: string, m2: string, t: string, w: string, x: string, j: string)
    requires '{' !in h
    requires '{' !in m1 && '}' !in m1 && |m1| >= |InstructionsSlot|
    requires '{' !in m2 && '}' !in m2 && |m2| >= |ParamsSlot|
    requires !Contains(w, InstructionsSlot) && !Contains(w, ParamsSlot) && !Contains(x, ParamsSlot)
    ensures ReplaceFirst(ReplaceFirst(ReplaceFirst(
              h + WebsiteSlot + m1 + InstructionsSlot + m2 + ParamsSlot + t,
              WebsiteSlot, w), InstructionsSlot, x), ParamsSlot, j)
         == h + w + m1 + x + m2 + j + t
  {
    FillFirst(h, m1, m2, t, w);
    FillSecond(h, m1, m2, t, w, x);
    FillThird(h, m1, m2, t, w, x, j);
  }

  lemma FillFirst(h: string, m1: string, m2: string, t: string, w: string)
    requires '{' !in h
    ensures ReplaceFirst(h + WebsiteSlot + m1 + InstructionsSlot + m2 + ParamsSlot + t, WebsiteSlot, w)
         == (h + w + m1) + InstructionsSlot + (m2 + ParamsSlot + t)
  {
    ClearWithoutBrace(h, WebsiteSlot);
    var r1 := m1 + InstructionsSlot + m2 + ParamsSlot + t;
    Assoc7(h, WebsiteSlot, m1, InstructionsSlot, m2, ParamsSlot, t);
    FillSlot(h, WebsiteSlot, r1, w);
    Assoc7(h, w, m1, InstructionsSlot, m2, ParamsSlot, t);
  }

  lemma Assoc7(a: string, b: string, c: string, d: string, e: string, f: string, g: string)
    ensures a + b + c + d + e + f + g == a + b + (c + d + e + f + g)
    ensures a + b + (c + d + e + f + g) == (a + b + c) + d + (e + f + g)
  {
  }

  lemma FillSecond(h: string, m1: string, m2: string, t: string, w: string, x: string)
    requires '{' !in h && '{' !in m1 && '}' !in m1 && |m1| >= |InstructionsSlot|
    requires !Contains(w, InstructionsSlot)
    ensures ReplaceFirst((h + w + m1) + InstructionsSlot + (m2 + ParamsSlot + t), InstructionsSlot, x)
         == (h + w + m1 + x + m2) + ParamsSlot + t
  {
    ClearWithoutBrace(h, InstructionsSlot);
    ClearExtend(h, w, m1, InstructionsSlot);
    FillSlot(h + w + m1, InstructionsSlot, m2 + ParamsSlot + t, x);
  }

  lemma FillThird(h: string, m1: string, m2: string, t: string, w: string, x: string, j: string)
    requires '{' !in h && '{' !in m1 && '}' !in m1 && |m1| >= |ParamsSlot|
    requires '{' !in m2 && '}' !in m2 && |m2| >= |ParamsSlot|
    requires !Contains(w, ParamsSlot) && !Contains(x, ParamsSlot)
    ensures ReplaceFirst((h + w + m1 + x + m2) + ParamsSlot + t, ParamsSlot, j)
         == h + w + m1 + x + m2 + j + t
  {
    ClearWithoutBrace(h, ParamsSlot);
    ClearExtend(h, w, m1, ParamsSlot);
    ClearExtend(h + w + m1, x, m2, ParamsSlot);
    FillSlot(h + w + m1 + x + m2, ParamsSlot, t, j);
  }

  /** The slot is found where it stands when nothing before it could start one. */
  lemma SlotFound(a: string, pat: string, rest: string)
    requires Clear(a, pat)
    ensures IndexOf(a + pat + rest, pat) == Some(|a|)
  {
    var s := a + pat + rest;
    assert s[|a|..|a| + |pat|] == pat;
    forall j | 0 <= j < |a|
      ensures !OccursAt(s, pat, j)
    {
      ClearHasNoOccurrence(a, pat + rest, pat, j);
      assert a + (pat + rest) == s;
    }
    IndexOfIsFirst(s, pat, |a|);
  }

  /** A website of "$&" is read by the runtime as "the match": the `{website}` slot
      is put back unchanged, where the literal replacement inserts the text. */
  lemma WebsiteTemplateExpanded()
    ensures JsReplace.ReplaceFirst(PlanningPrompt, WebsiteSlot, "$&") == PlanningPrompt
    ensures ReplaceFirst(PlanningPrompt, WebsiteSlot, "$&")
         == PromptHead + "$&" + PromptMid1 + InstructionsSlot + PromptMid2 + ParamsSlot + PromptTail
    ensures ReplaceFirst(PlanningPrompt, WebsiteSlot, "$&") != PlanningPrompt
  {
    HeadBraces();
    var r := PromptMid1 + InstructionsSlot + PromptMid2 + ParamsSlot + PromptTail;
    Assoc7(PromptHead, WebsiteSlot, PromptMid1, InstructionsSlot, PromptMid2, ParamsSlot, PromptTail);
    Assoc7(PromptHead, "$&", PromptMid1, InstructionsSlot, PromptMid2, ParamsSlot, PromptTail);
    MatchTemplateInSlot(PromptHead, r);
  }

  /** The same for any brace-free text in front of the slot. */
  lemma MatchTemplateInSlot(h: string, r: string)
    requires '{' !in h
    ensures JsReplace.ReplaceFirst(h + WebsiteSlot + r, WebsiteSlot, "$&") == h + WebsiteSlot + r
    ensures ReplaceFirst(h + WebsiteSlot + r, WebsiteSlot, "$&") == h + "$&" + r
    ensures h + "$&" + r != h + WebsiteSlot + r
  {
    ClearWithoutBrace(h, WebsiteSlot);
    MatchKeepsText(h, WebsiteSlot, r);
    FillSlot(h, WebsiteSlot, r, "$&");
    var lit := h + "$&" + r;
    assert lit[|h|] == '$' && (h + WebsiteSlot + r)[|h|] == '{';
  }

  /** Replacing a slot by the match template "$&" gives the text back. */
  lemma MatchKeepsText(a: string, pat: string, rest: string)
    requires Clear(a, pat)
    ensures JsReplace.ReplaceFirst(a + pat + rest, pat, "$&") == a + pat + rest
  {
    var s := a + pat + rest;
    SlotFound(a, pat, rest);
    assert JsReplace.Expand("$&", s, |a|, |pat|) == s[|a|..|a| + |pat|] + JsReplace.Expand("", s, |a|, |pat|);
    assert s[..|a|] + s[|a|..|a| + |pat|] + s[|a| + |pat|..] == s;
  }

  /** When no inserted text holds a dollar sign, the prompt the runtime builds is the
      prompt of the model. */
  lemma AsWrittenPromptAgrees(task: Task, bindings: Bindings)
    requires PlainParams(task.params)
    requires forall k :: 0 <= k < |task.params| ==> '$' !in ResolveValue(task.params[k], bindings)
    requires '$' !in task.website && '$' !in ParamsJson(task.params)
    requires '$' !in Substitute(task.instructions, task.params, bindings)
    ensures BuildPlanningPromptAsWritten(task, bindings) == BuildPlanningPrompt(task, bindings)
  {
    AsWrittenAgreesWithoutDollar(task.instructions, task.params, bindings);
    var x := Substitute(task.instructions, task.params, bindings);
    JsReplace.ReplaceFirstPlain(PlanningPrompt, WebsiteSlot, task.website);
    var p1 := ReplaceFirst(PlanningPrompt, WebsiteSlot, task.website);
    JsReplace.ReplaceFirstPlain(p1, InstructionsSlot, x);
    var p2 := ReplaceFirst(p1, InstructionsSlot, x);
    JsReplace.ReplaceFirstPlain(p2, ParamsSlot, ParamsJson(task.params));
  }

  // ---- The mock planner ----

  function NavigateStep(url: string): PlanStep {
    PlanStep(Navigate, None, Some(url), None, None)
  }

  const WaitStep := PlanStep(Wait, None, None, None, Some(2000))
  const ClickStep := PlanStep(Click, Some("button"), None, None, None)
  const TypeStep := PlanStep(Type, Some("input"), Some("sample text"), None, None)
  const CaptureStep := PlanStep(Capture, None, None, None, None)

  predicate WantsClick(instructions: string) { Contains(ToLower(instructions), "click") }
  predicate WantsType(instructions: string) {
    Contains(ToLower(instructions), "type") || Contains(ToLower(instructions), "paste")
  }
  predicate WantsCapture(instructions: string) { Contains(ToLower(instructions), "capture") }

  /** Where a step of the mock planner stands in its plans. */
  function Rank(k: StepKind): nat {
    match k
    case Navigate => 0
    case Wait => 1
    case Click => 2
    case Type => 3
    case Capture => 4
    case AssertText => 5
    case Other(_) => 6
  }

  /** `[step]` when `b` holds, `[]` otherwise: a step pushed under a condition. */
  function Opt(b: bool, step: PlanStep): (r: seq<PlanStep>)
    ensures step in r <==> b
    ensures |r| <= 1 && forall x :: x in r ==> x == step
  {
    if b then [step] else []
  }

  /** Each step of `s` ranks below every step after it. */
  predicate Increasing(s: seq<PlanStep>) {
    forall i, j :: 0 <= i < j < |s| ==> Rank(s[i].kind) < Rank(s[j].kind)
  }

  lemma IncreasingAppend(s: seq<PlanStep>, b: bool, step: PlanStep)
    requires Increasing(s) && forall x :: x in s ==> Rank(x.kind) < Rank(step.kind)
    ensures Increasing(s + Opt(b, step))
    ensures forall x :: x in s + Opt(b, step) ==> Rank(x.kind) <= Rank(step.kind)
  {
    var r := s + Opt(b, step);
    forall i, j | 0 <= i < j < |r|
      ensures Rank(r[i].kind) < Rank(r[j].kind)
    {
      if j >= |s| {
        assert r[i] in s;
      }
    }
  }

  /** The steps of the mock planner for the three keyword tests. */
  function MockSteps(website: string, click: bool, typing: bool, capture: bool): (steps: seq<PlanStep>)
    ensures 2 <= |steps| <= 5 && |steps| == 2 + (if click then 1 else 0) + (if typing then 1 else 0) + (if capture then 1 else 0)
    ensures steps[0] == NavigateStep(website) && steps[1] == WaitStep
    ensures ClickStep in steps <==> click
    ensures TypeStep in steps <==> typing
    ensures CaptureStep in steps <==> capture
    ensures Increasing(steps)
  {
    var s0 := [NavigateStep(website), WaitStep];
    IncreasingAppend(s0, click, ClickStep);
    var s1 := s0 + Opt(click, ClickStep);
    IncreasingAppend(s1, typing, TypeStep);
    var s2 := s1 + Opt(typing, TypeStep);
    IncreasingAppend(s2, capture, CaptureStep);
    var s3 := s2 + Opt(capture, CaptureStep);
    OptMember(s0, click, ClickStep, TypeStep);
    OptMember(s0, click, ClickStep, CaptureStep);
    OptMember(s0, click, ClickStep, ClickStep);
    OptMember(s1, typing, TypeStep, ClickStep);
    OptMember(s1, typing, TypeStep, CaptureStep);
    OptMember(s1, typing, TypeStep, TypeStep);
    OptMember(s2, capture, CaptureStep, ClickStep);
    OptMember(s2, capture, CaptureStep, TypeStep);
    OptMember(s2, capture, CaptureStep, CaptureStep);
    s3
  }

  /** A step is in a list with a conditional step appended exactly when it was in the
      list or is that step, appended. */
  lemma OptMember(s: seq<PlanStep>, b: bool, step: PlanStep, x: PlanStep)
    ensures x in s + Opt(b, step) <==> x in s || (b && x == step)
  {
  }

  /** The keyword-driven plan: open the website, wait two seconds, then a click, a
      typing and a capture step for each keyword the lower-cased instructions
      contain, and three seconds a step. The parameter values play no part. */
  function GenerateMockPlan(task: Task): (plan: Plan)
    ensures 2 <= |plan.steps| <= 5
    ensures |plan.steps| == 2 + (if WantsClick(task.instructions) then 1 else 0)
                              + (if WantsType(task.instructions) then 1 else 0)
                              + (if WantsCapture(task.instructions) then 1 else 0)
    ensures plan.steps[0] == NavigateStep(task.website) && plan.steps[1] == WaitStep
    ensures ClickStep in plan.steps <==> WantsClick(task.instructions)
    ensures TypeStep in plan.steps <==> WantsType(task.instructions)
    ensures CaptureStep in plan.steps <==> WantsCapture(task.instructions)
    ensures Increasing(plan.steps)
    ensures plan.estimatedDuration == 3 * |plan.steps|
  {
    var steps := MockSteps(task.website, WantsClick(task.instructions), WantsType(task.instructions), WantsCapture(task.instructions));
    Plan(steps, if 5 < |steps| * 3 then |steps| * 3 else 5)
  }

  /** Instructions without any keyword give the two-step plan of six seconds. */
  lemma MockPlanMinimal(task: Task)
    requires !WantsClick(task.instructions) && !WantsType(task.instructions) && !WantsCapture(task.instructions)
    ensures GenerateMockPlan(task) == Plan([NavigateStep(task.website), WaitStep], 6)
  {
    var plan := GenerateMockPlan(task);
    assert plan.steps == plan.steps[..2];
  }

  /** Lower-casing twice changes nothing more. */
  lemma ToLowerIdempotent(s: string)
    ensures ToLower(ToLower(s)) == ToLower(s)
  {
  }

  /** The mock planner does not see the case of the instructions. */
  lemma MockPlanIgnoresCase(task: Task)
    ensures GenerateMockPlan(task.(instructions := ToLower(task.instructions))) == GenerateMockPlan(task)
  {
    ToLowerIdempotent(task.instructions);
  }

  /** Only the website and the instructions shape the mock plan. */
  lemma MockPlanDependsOnWebsiteAndInstructions(t1: Task, t2: Task)
    requires t1.website == t2.website && t1.instructions == t2.instructions
    ensures GenerateMockPlan(t1) == GenerateMockPlan(t2)
  {
  }

  // ---- Choosing between the mock planner and a language model ----

  datatype Provider = OpenAi | Anthropic | Groq

  /** The provider `callLlmApi` dispatches a model name to. */
  function ProviderFor(llm: string): (p: Option<Provider>)
    ensures p.Some? <==> IsLlmChoice(llm)
  {
    if llm == GptMini then Some(OpenAi)
    else if llm == ClaudeHaiku then Some(Anthropic)
    else if llm == Llama then Some(Groq)
    else None
  }

  /** Each provider serves exactly one model name. */
  lemma ProviderForInjective(a: string, b: string)
    requires ProviderFor(a).Some? && ProviderFor(a) == ProviderFor(b)
    ensures a == b
  {
  }

  /** A language model behind a provider: given the prompt and the API key it returns
      a plan, or None when the call or the parsing of its answer fails. */
  type Oracle = (Provider, string, string) -> Option<Plan>

  /** `callLlmApi`: the provider's answer, or a failure for an unsupported name. */
  function CallLlmApi(llm: string, prompt: string, key: string, ask: Oracle): (r: Option<Plan>)
    ensures !IsLlmChoice(llm) ==> r.None?
    ensures r.Some? ==> ask(ProviderFor(llm).value, prompt, key) == r
  {
    match ProviderFor(llm)
    case None => None
    case Some(p) => ask(p, prompt, key)
  }

  /** `generatePlan`: the mock plan when the model has no API key or real automation
      is off; otherwise the model's plan, falling back to the mock plan when the call
      fails. */
  function GeneratePlan(task: Task, bindings: Bindings, env: Env, ask: Oracle): (plan: Plan)
    requires PlainParams(task.params)
    ensures plan != GenerateMockPlan(task) ==>
              ShouldUseRealAutomation(env) && GetApiKey(env, task.llm) != "" && IsLlmChoice(task.llm)
              && ask(ProviderFor(task.llm).value, BuildPlanningPrompt(task, bindings), GetApiKey(env, task.llm)) == Some(plan)
  {
    var prompt := BuildPlanningPrompt(task, bindings);
    var key := GetApiKey(env, task.llm);
    if key == "" || !ShouldUseRealAutomation(env) then GenerateMockPlan(task)
    else match CallLlmApi(task.llm, prompt, key, ask)
      case Some(p) => p
      case None => GenerateMockPlan(task)
  }

  /** `generatePlan` as the runtime runs it: the model is asked with the prompt built
      by `String.prototype.replace`, every replacement read as a template. */
  function GeneratePlanAsWritten(task: Task, bindings: Bindings, env: Env, ask: Oracle): (plan: Plan)
    requires PlainParams(task.params)
    ensures plan != GenerateMockPlan(task) ==>
              ShouldUseRealAutomation(env) && GetApiKey(env, task.llm) != "" && IsLlmChoice(task.llm)
              && ask(ProviderFor(task.llm).value, BuildPlanningPromptAsWritten(task, bindings), GetApiKey(env, task.llm)) == Some(plan)
  {
    var prompt := BuildPlanningPromptAsWritten(task, bindings);
    var key := GetApiKey(env, task.llm);
    if key == "" || !ShouldUseRealAutomation(env) then GenerateMockPlan(task)
    else match CallLlmApi(task.llm, prompt, key, ask)
      case Some(p) => p
      case None => GenerateMockPlan(task)
  }

  /** When none of the text put into the prompt holds a `$`, the runtime's planner
      and the corrected one ask the same question and so return the same plan,
      whatever the model answers. */
  lemma GeneratePlanAgrees(task: Task, bindings: Bindings, env: Env, ask: Oracle)
    requires PlainParams(task.params)
    requires forall k :: 0 <= k < |task.params| ==> '$' !in ResolveValue(task.params[k], bindings)
    requires '$' !in task.website && '$' !in ParamsJson(task.params)
    requires '$' !in Substitute(task.instructions, task.params, bindings)
    ensures GeneratePlanAsWritten(task, bindings, env, ask) == GeneratePlan(task, bindings, env, ask)
  {
    AsWrittenPromptAgrees(task, bindings);
  }

  /** With a key and real automation on, the runtime's planner returns the model's
      answer to the prompt it builds, or the mock plan when the model fails. */
  lemma ModelDecidesAsWritten(task: Task, bindings: Bindings, env: Env, ask: Oracle)
    requires PlainParams(task.params) && IsLlmChoice(task.llm)
    requires GetApiKey(env, task.llm) != "" && ShouldUseRealAutomation(env)
    ensures var answer := ask(ProviderFor(task.llm).value, BuildPlanningPromptAsWritten(task, bindings), GetApiKey(env, task.llm));
            GeneratePlanAsWritten(task, bindings, env, ask) == (if answer.Some? then answer.value else GenerateMockPlan(task))
  {
    var prompt, key := BuildPlanningPromptAsWritten(task, bindings), GetApiKey(env, task.llm);
    assert CallLlmApi(task.llm, prompt, key, ask) == ask(ProviderFor(task.llm).value, prompt, key);
  }

  /** Without an API key for the task's model, or with real automation off, the
      model is never asked, whatever it would answer. */
  lemma MockWithoutKeyOrSwitch(task: Task, bindings: Bindings, env: Env, ask: Oracle)
    requires PlainParams(task.params)
    requires GetApiKey(env, task.llm) == "" || !ShouldUseRealAutomation(env)
    ensures GeneratePlan(task, bindings, env, ask) == GenerateMockPlan(task)
  {
  }

  /** A model name outside `LlmChoice` always gets the mock plan. */
  lemma UnknownModelMock(task: Task, bindings: Bindings, env: Env, ask: Oracle)
    requires PlainParams(task.params) && !IsLlmChoice(task.llm)
    ensures GeneratePlan(task, bindings, env, ask) == GenerateMockPlan(task)
  {
  }

  /** With a key and real automation on, a model that answers decides the plan, and
      one that fails leaves the mock plan. */
  lemma ModelDecides(task: Task, bindings: Bindings, env: Env, ask: Oracle)
    requires PlainParams(task.params) && IsLlmChoice(task.llm)
    requires GetApiKey(env, task.llm) != "" && ShouldUseRealAutomation(env)
    ensures var answer := ask(ProviderFor(task.llm).value, BuildPlanningPrompt(task, bindings), GetApiKey(env, task.llm));
            GeneratePlan(task, bindings, env, ask) == (if answer.Some? then answer.value else GenerateMockPlan(task))
  {
    var prompt, key := BuildPlanningPrompt(task, bindings), GetApiKey(env, task.llm);
    assert CallLlmApi(task.llm, prompt, key, ask) == ask(ProviderFor(task.llm).value, prompt, key);
  }
}
