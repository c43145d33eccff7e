/** The records the task marketplace passes between its parts: tasks and their
    parameters, plans and their steps, execution results, and the request shapes the
    task repository accepts. */
module Types {
  import opened Wrappers

  const GptMini := "gpt-4o-mini"
  const ClaudeHaiku := "claude-haiku"
  const Llama := "llama-3.1-8b"

  /** The language-model names of `LlmChoice`. A stored task's `llm` is a plain
      string: nothing checks it against this set. */
  predicate IsLlmChoice(llm: string) {
    llm == GptMini || llm == ClaudeHaiku || llm == Llama
  }

  const Draft := "draft"
  const Published := "published"

  /** A named placeholder of a task, with an optional default value. */
  datatype TaskParam = TaskParam(name: string, value: Option<string>, required: Option<bool>)

  /** A stored automation definition. An absent `params` list is the empty list and
      an absent `status` is the empty string; `createdAt` is a millisecond timestamp. */
  datatype Task = Task(
    id: string,
    name: string,
    website: string,
    llm: string,
    instructions: string,
    params: seq<TaskParam>,
    status: string,
    createdAt: int)

  /** The `type` tag of a plan step; a plan returned by a language model may carry
      any other tag. `Other` holds only tags outside the six known names: a step
      tagged `click` is `Click`, never `Other("click")` (see `KindOfTag`). */
  datatype StepKind = Navigate | Click | Type | Wait | AssertText | Capture | Other(tag: string)

  /** The kind a `type` tag names: one of the six known names, or any other tag. */
  function KindOfTag(tag: string): (k: StepKind)
    ensures k.Other? ==> k.tag == tag
    ensures k.Other? <==> tag !in ["navigate", "click", "type", "wait", "assertText", "capture"]
  {
    if tag == "navigate" then Navigate
    else if tag == "click" then Click
    else if tag == "type" then Type
    else if tag == "wait" then Wait
    else if tag == "assertText" then AssertText
    else if tag == "capture" then Capture
    else Other(tag)
  }

  /** One browser action. Which of the optional fields matter depends on the kind. */
  datatype PlanStep = PlanStep(
    kind: StepKind,
    selector: Option<string>,
    value: Option<string>,
    text: Option<string>,
    timeout: Option<int>)

  /** An ordered list of steps and an estimated duration in seconds. */
  datatype Plan = Plan(steps: seq<PlanStep>, estimatedDuration: int)

  datatype ExecutionResult = ExecutionResult(
    success: bool,
    plan: Plan,
    screenshots: Option<seq<string>>,
    error: Option<string>,
    logs: seq<string>)

  /** The fields the repository copies into a new task. `id` is present only when a
      request body carries one: it is spread after the generated id and so wins. */
  datatype CreateTaskRequest = CreateTaskRequest(
    name: string,
    website: string,
    llm: string,
    instructions: string,
    params: seq<TaskParam>,
    status: string,
    id: Option<string>)

  /** A partial task: each present field replaces the stored one. */
  datatype TaskPatch = TaskPatch(
    id: Option<string>,
    name: Option<string>,
    website: Option<string>,
    llm: Option<string>,
    instructions: Option<string>,
    params: Option<seq<TaskParam>>,
    status: Option<string>,
    createdAt: Option<int>)
}
