/** The `/api/tasks` endpoint: POST validates a request body, creates a task and
    answers with a share link and an embed snippet for it; GET lists the stored
    tasks. The repository is passed in and the new one handed back. */
module TasksRoute {
  import opened Wrappers
  import opened Strings
  import opened Types
  import opened Store

  /** A decoded JSON request body. The four validated fields may be absent; an absent
      `params` is the empty list and an absent `status` the empty string. */
  datatype RequestBody = RequestBody(
    name: Option<string>,
    website: Option<string>,
    llm: Option<string>,
    instructions: Option<string>,
    params: seq<TaskParam>,
    status: string,
    id: Option<string>)

  /** `!body.field`: absent or the empty string, both falsy. */
  predicate Missing(v: Option<string>) {
    v.None? || v.value == ""
  }

  predicate HasRequiredFields(body: RequestBody) {
    !Missing(body.name) && !Missing(body.website) && !Missing(body.llm) && !Missing(body.instructions)
  }

  const MissingFieldsError := "Missing required fields: name, website, llm, instructions"

  datatype PostResponse =
    | BadRequest(error: string, status: int)
    | Created(task: Task, shareLink: string, embedCode: string)

  const SharePath := "/r/"
  const EmbedOpen := "<script src=\""
  const EmbedPath := "/cdn/button.js?task="
  const EmbedClose := "\"></script>"

  /** The public page of a task on the site at `origin`. */
  function ShareLink(origin: string, id: string): string {
    origin + SharePath + id
  }

  /** The script tag that puts a task's run button on another page. */
  function EmbedCode(origin: string, id: string): string {
    EmbedOpen + origin + EmbedPath + id + EmbedClose
  }

  /** The task id a share link of the site at `origin` names, if it is one. */
  function ParseShareLink(origin: string, link: string): (id: Option<string>)
    ensures id.Some? ==> ShareLink(origin, id.value) == link
  {
    var p := origin + SharePath;
    if |p| <= |link| && link[..|p|] == p then
      assert link == link[..|p|] + link[|p|..];
      Some(link[|p|..])
    else None
  }

  /** The task id an embed snippet of the site at `origin` names, if it is one. */
  function ParseEmbedCode(origin: string, code: string): (id: Option<string>)
    ensures id.Some? ==> EmbedCode(origin, id.value) == code
  {
    var p := EmbedOpen + origin + EmbedPath;
    if |p| + |EmbedClose| <= |code| && code[..|p|] == p && code[|code| - |EmbedClose|..] == EmbedClose then
      var id := code[|p|..|code| - |EmbedClose|];
      assert code == code[..|p|] + id + code[|code| - |EmbedClose|..];
      Some(id)
    else None
  }

  lemma ShareLinkRoundTrip(origin: string, id: string)
    ensures ParseShareLink(origin, ShareLink(origin, id)) == Some(id)
  {
    var link := ShareLink(origin, id);
    assert link[..|origin + SharePath|] == origin + SharePath;
    assert link[|origin + SharePath|..] == id;
  }

  lemma EmbedCodeRoundTrip(origin: string, id: string)
    ensures ParseEmbedCode(origin, EmbedCode(origin, id)) == Some(id)
  {
    var p := EmbedOpen + origin + EmbedPath;
    var code := EmbedCode(origin, id);
    assert code == p + id + EmbedClose;
    assert code[..|p|] == p;
    assert code[|code| - |EmbedClose|..] == EmbedClose;
    assert code[|p|..|code| - |EmbedClose|] == id;
  }

  /** The request the repository receives from a body that passed validation. */
  function ToRequest(body: RequestBody): (req: CreateTaskRequest)
    requires HasRequiredFields(body)
    ensures req.name != "" && req.website != "" && req.llm != "" && req.instructions != ""
    ensures Some(req.name) == body.name && Some(req.website) == body.website
    ensures Some(req.llm) == body.llm && Some(req.instructions) == body.instructions
    ensures req.params == body.params && req.status == body.status && req.id == body.id
  {
    CreateTaskRequest(body.name.value, body.website.value, body.llm.value, body.instructions.value,
                      body.params, body.status, body.id)
  }

  /** POST: a 400 answer and no change when a required field is missing; otherwise
      the created task, stored, with the links built from the request's origin.
      `suffix` and `now` are the random id suffix and the clock reading. */
  function Post(st: TaskStore, body: RequestBody, origin: string, suffix: string, now: int)
    : (r: (TaskStore, PostResponse))
    requires Valid(st)
    ensures Valid(r.0)
    ensures r.1.BadRequest? <==> !HasRequiredFields(body)
    ensures r.1.BadRequest? ==> r.0 == st && r.1.status == 400 && r.1.error == MissingFieldsError
    ensures r.1.Created? ==>
              GetTask(r.0, r.1.task.id) == Some(r.1.task)
              && r.1.task.createdAt == now
              && r.1.task.name != "" && r.1.task.website != ""
              && r.1.task.llm != "" && r.1.task.instructions != ""
              && ParseShareLink(origin, r.1.shareLink) == Some(r.1.task.id)
              && ParseEmbedCode(origin, r.1.embedCode) == Some(r.1.task.id)
    ensures r.1.Created? ==> forall id :: id != r.1.task.id ==> GetTask(r.0, id) == GetTask(st, id)
  {
    if !HasRequiredFields(body) then
      (st, BadRequest(MissingFieldsError, 400))
    else
      var (st', task) := CreateTask(st, ToRequest(body), suffix, now);
      ShareLinkRoundTrip(origin, task.id);
      EmbedCodeRoundTrip(origin, task.id);
      (st', Created(task, ShareLink(origin, task.id), EmbedCode(origin, task.id)))
  }

  /** A body that passes validation is exactly a `createTask` call; the answer adds
      nothing to the task but the two links. */
  lemma PostIsCreateTask(st: TaskStore, body: RequestBody, origin: string, suffix: string, now: int)
    requires Valid(st) && HasRequiredFields(body)
    ensures var r := Post(st, body, origin, suffix, now);
            var c := CreateTask(st, ToRequest(body), suffix, now);
            r.0 == c.0 && r.1 == Created(c.1, ShareLink(origin, c.1.id), EmbedCode(origin, c.1.id))
  {
  }

  /** Only the four named fields are checked: an empty status or parameter list, or
      a model name outside the supported ones, is accepted as it is. */
  lemma OnlyFourFieldsChecked(st: TaskStore, body: RequestBody, origin: string, suffix: string, now: int)
    requires Valid(st) && HasRequiredFields(body)
    ensures var r := Post(st, body.(status := "", params := [], llm := Some("x")), origin, suffix, now);
            r.1.Created? && r.1.task.status == "" && r.1.task.params == [] && r.1.task.llm == "x"
  {
  }

  /** A body carrying the id of a stored task replaces that task in place: it keeps
      its place in the order and nothing else is stored. */
  lemma PostWithTakenIdOverwrites(st: TaskStore, body: RequestBody, origin: string, suffix: string, now: int)
    requires Valid(st) && HasRequiredFields(body)
    requires body.id.Some? && body.id.value in st.tasks
    ensures var r := Post(st, body, origin, suffix, now);
            r.1.Created? && r.1.task.id == body.id.value
            && r.0.order == st.order && r.0.tasks.Keys == st.tasks.Keys
            && GetTask(r.0, body.id.value) == Some(r.1.task)
  {
  }

  /** A body without an id gets `tsk_` and the drawn suffix; when that id is new the
      task is appended to the insertion order. */
  lemma PostWithoutIdAppends(st: TaskStore, body: RequestBody, origin: string, suffix: string, now: int)
    requires Valid(st) && HasRequiredFields(body) && body.id.None?
    requires "tsk_" + suffix !in st.tasks
    ensures var r := Post(st, body, origin, suffix, now);
            r.1.Created? && r.1.task.id == "tsk_" + suffix
            && r.0.order == st.order + ["tsk_" + suffix]
            && r.1.shareLink == origin + "/r/tsk_" + suffix
  {
    assert origin + SharePath + ("tsk_" + suffix) == origin + "/r/tsk_" + suffix;
  }

  /** GET: the repository's listing as it is, so every stored task once, newest
      first, and tasks created at the same time in insertion order. */
  function Get(st: TaskStore): (tasks: seq<Task>)
    requires Valid(st)
    ensures tasks == GetAllTasks(st)
    ensures NewestFirst(tasks)
    ensures multiset(tasks) == multiset(Values(st))
    ensures forall c :: WithStamp(tasks, c) == WithStamp(Values(st), c)
    ensures |tasks| == |st.order|
    ensures forall t :: t in tasks <==> exists id :: id in st.tasks && st.tasks[id] == t
  {
    var all := GetAllTasks(st);
    forall t ensures t in all <==> exists id :: id in st.tasks && st.tasks[id] == t {
      ListingHoldsStored(st, t);
    }
    all
  }

  /** A task created through POST shows up in the next GET. */
  lemma CreatedIsListed(st: TaskStore, body: RequestBody, origin: string, suffix: string, now: int)
    requires Valid(st)
    ensures var r := Post(st, body, origin, suffix, now);
            r.1.Created? ==> r.1.task in Get(r.0)
  {
    var r := Post(st, body, origin, suffix, now);
    if r.1.Created? {
      assert r.1.task.id in r.0.tasks && r.0.tasks[r.1.task.id] == r.1.task;
    }
  }
}
