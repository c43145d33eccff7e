/** The in-memory task repository: a map from ids to tasks that remembers the order
    in which keys were first inserted, as a JavaScript `Map` does. Every operation
    takes the repository and returns the new one with its result. */
module Store {
  import opened Wrappers
  import opened Strings
  import opened Types
  import opened Seeds

  /** `order` lists the keys of `tasks` by first insertion. */
  datatype TaskStore = TaskStore(order: seq<string>, tasks: map<string, Task>)

  ghost predicate Valid(st: TaskStore) {
    (forall i, j :: 0 <= i < j < |st.order| ==> st.order[i] != st.order[j])
    && (forall id :: id in st.tasks <==> id in st.order)
  }

  const Empty := TaskStore([], map[])

  /** `Map.prototype.set`: a new key goes to the end of the order, an existing key
      keeps its place and gets the new value. */
  function Put(st: TaskStore, key: string, t: Task): (r: TaskStore)
    requires Valid(st)
    ensures Valid(r)
    ensures r.tasks == st.tasks[key := t]
    ensures key in st.tasks ==> r.order == st.order
    ensures key !in st.tasks ==> r.order == st.order + [key]
  {
    if key in st.tasks then TaskStore(st.order, st.tasks[key := t])
    else TaskStore(st.order + [key], st.tasks[key := t])
  }

  /** Each task put under its own id, in sequence. */
  function PutAll(st: TaskStore, ts: seq<Task>): (r: TaskStore)
    requires Valid(st)
    ensures Valid(r)
    decreases |ts|
  {
    if |ts| == 0 then st else PutAll(Put(st, ts[0].id, ts[0]), ts[1..])
  }

  /** The repository after construction: the seed tasks, each under its own id. */
  function InitialStore(stamps: seq<int>): TaskStore
    requires |stamps| == 5
  {
    PutAll(Empty, SeedTasks(stamps))
  }

  /** The ids of `ts`, in order. */
  function Ids(ts: seq<Task>): (ids: seq<string>)
    ensures |ids| == |ts|
    decreases |ts|
  {
    if |ts| == 0 then [] else [ts[0].id] + Ids(ts[1..])
  }

  lemma {:induction false} IdsAt(ts: seq<Task>)
    ensures forall k :: 0 <= k < |ts| ==> Ids(ts)[k] == ts[k].id
    decreases |ts|
  {
    if |ts| > 0 {
      IdsAt(ts[1..]);
    }
  }

  /** Tasks with pairwise distinct new ids are appended to the order. */
  lemma {:induction false} PutAllOrder(st: TaskStore, ts: seq<Task>)
    requires Valid(st)
    requires forall i, j :: 0 <= i < j < |ts| ==> ts[i].id != ts[j].id
    requires forall k :: 0 <= k < |ts| ==> ts[k].id !in st.tasks
    ensures PutAll(st, ts).order == st.order + Ids(ts)
    decreases |ts|
  {
    if |ts| > 0 {
      PutFirstFresh(st, ts);
      PutAllOrder(Put(st, ts[0].id, ts[0]), ts[1..]);
      PutAllOrderStep(st, ts);
    }
  }

  lemma PutAllOrderStep(st: TaskStore, ts: seq<Task>)
    requires Valid(st) && |ts| > 0
    requires Put(st, ts[0].id, ts[0]).order == st.order + [ts[0].id]
    requires PutAll(Put(st, ts[0].id, ts[0]), ts[1..]).order == Put(st, ts[0].id, ts[0]).order + Ids(ts[1..])
    ensures PutAll(st, ts).order == st.order + Ids(ts)
  {
    AppendAssoc(st.order, [ts[0].id], Ids(ts[1..]));
  }

  /** Putting the first of several fresh, distinct tasks leaves the others fresh. */
  lemma PutFirstFresh(st: TaskStore, ts: seq<Task>)
    requires Valid(st) && |ts| > 0
    requires forall i, j :: 0 <= i < j < |ts| ==> ts[i].id != ts[j].id
    requires forall k :: 0 <= k < |ts| ==> ts[k].id !in st.tasks
    ensures Put(st, ts[0].id, ts[0]).order == st.order + [ts[0].id]
    ensures forall i, j :: 0 <= i < j < |ts[1..]| ==> ts[1..][i].id != ts[1..][j].id
    ensures forall k :: 0 <= k < |ts[1..]| ==> ts[1..][k].id !in Put(st, ts[0].id, ts[0]).tasks
  {
    assert forall k :: 0 <= k < |ts[1..]| ==> ts[1..][k] == ts[k + 1];
  }

  /** A key no later task uses keeps its value. */
  lemma {:induction false} PutAllKeeps(st: TaskStore, ts: seq<Task>, id: string)
    requires Valid(st) && id in st.tasks
    requires forall k :: 0 <= k < |ts| ==> ts[k].id != id
    ensures id in PutAll(st, ts).tasks && PutAll(st, ts).tasks[id] == st.tasks[id]
    decreases |ts|
  {
    if |ts| > 0 {
      var rest := ts[1..];
      assert forall k :: 0 <= k < |rest| ==> rest[k] == ts[k + 1];
      PutAllKeeps(Put(st, ts[0].id, ts[0]), rest, id);
    }
  }

  /** With pairwise distinct ids, every task ends up stored under its id. */
  lemma {:induction false} PutAllHolds(st: TaskStore, ts: seq<Task>, k: nat)
    requires Valid(st) && k < |ts|
    requires forall i, j :: 0 <= i < j < |ts| ==> ts[i].id != ts[j].id
    ensures ts[k].id in PutAll(st, ts).tasks && PutAll(st, ts).tasks[ts[k].id] == ts[k]
    decreases |ts|
  {
    var st1 := Put(st, ts[0].id, ts[0]);
    var rest := ts[1..];
    assert forall i :: 0 <= i < |rest| ==> rest[i] == ts[i + 1];
    if k == 0 {
      PutAllKeeps(st1, rest, ts[0].id);
    } else {
      PutAllHolds(st1, rest, k - 1);
    }
  }

  /** After construction the repository holds exactly the seeds, each keyed by its
      own id, listed in declaration order. */
  lemma InitialStoreHoldsSeeds(stamps: seq<int>)
    requires |stamps| == 5
    ensures var st := InitialStore(stamps);
            var seeds := SeedTasks(stamps);
            Valid(st) && |st.order| == 5
            && (forall k :: 0 <= k < 5 ==> st.order[k] == seeds[k].id && st.tasks[seeds[k].id] == seeds[k])
            && (forall id :: id in st.tasks <==> id in Ids(seeds))
  {
    SeedIdentity(stamps);
    PutAllFromEmpty(SeedTasks(stamps));
    PutAllFromEmptyKeys(SeedTasks(stamps));
  }

  /** Tasks with pairwise distinct ids, put into the empty repository, are listed in
      their own order and each stored under its id. */
  lemma PutAllFromEmpty(ts: seq<Task>)
    requires forall i, j :: 0 <= i < j < |ts| ==> ts[i].id != ts[j].id
    ensures var st := PutAll(Empty, ts);
            st.order == Ids(ts)
            && forall k :: 0 <= k < |ts| ==> ts[k].id in st.tasks && st.tasks[ts[k].id] == ts[k]
  {
    PutAllOrder(Empty, ts);
    assert Empty.order + Ids(ts) == Ids(ts);
    forall k | 0 <= k < |ts|
      ensures ts[k].id in PutAll(Empty, ts).tasks && PutAll(Empty, ts).tasks[ts[k].id] == ts[k]
    {
      PutAllHolds(Empty, ts, k);
    }
  }

  /** The same, position by position: the repository's keys are the tasks' ids. */
  lemma PutAllFromEmptyKeys(ts: seq<Task>)
    requires forall i, j :: 0 <= i < j < |ts| ==> ts[i].id != ts[j].id
    ensures var st := PutAll(Empty, ts);
            |st.order| == |ts|
            && (forall k :: 0 <= k < |ts| ==> st.order[k] == ts[k].id)
            && (forall id :: id in st.tasks <==> id in Ids(ts))
  {
    PutAllFromEmpty(ts);
    IdsAt(ts);
  }

  /** The id a new task gets: a request's own `id` field is spread after the
      generated one and so replaces it. */
  function NewId(req: CreateTaskRequest, suffix: string): (id: string)
    ensures req.id.None? ==> |id| == 4 + |suffix| && id[..4] == "tsk_" && id[4..] == suffix
  {
    match req.id
    case Some(given) => given
    case None => "tsk_" + suffix
  }

  /** `createTask`: the request's fields with a fresh id (`suffix` is what `nanoid(8)`
      drew) and the creation time `now`, stored under that id. An id already in use
      is overwritten, as `Map.prototype.set` does. */
  function CreateTask(st: TaskStore, req: CreateTaskRequest, suffix: string, now: int): (r: (TaskStore, Task))
    requires Valid(st)
    ensures Valid(r.0)
    ensures r.1.id == NewId(req, suffix) && r.1.createdAt == now
    ensures r.1.name == req.name && r.1.website == req.website && r.1.llm == req.llm
    ensures r.1.instructions == req.instructions && r.1.params == req.params && r.1.status == req.status
    ensures GetTask(r.0, r.1.id) == Some(r.1)
    ensures forall id :: id != r.1.id ==> GetTask(r.0, id) == GetTask(st, id)
    ensures r.1.id !in st.tasks ==> r.0.order == st.order + [r.1.id]
  {
    var t := Task(NewId(req, suffix), req.name, req.website, req.llm, req.instructions, req.params, req.status, now);
    (Put(st, t.id, t), t)
  }

  /** `getTask`. */
  function GetTask(st: TaskStore, id: string): (r: Option<Task>)
    ensures r.Some? <==> id in st.tasks
    ensures r.Some? ==> r.value == st.tasks[id]
  {
    if id in st.tasks then Some(st.tasks[id]) else None
  }

  /** The stored tasks in insertion order: `Array.from(tasks.values())`. */
  function Values(st: TaskStore): (vs: seq<Task>)
    requires Valid(st)
    ensures |vs| == |st.order|
    ensures forall k :: 0 <= k < |vs| ==> vs[k] == st.tasks[st.order[k]]
  {
    seq(|st.order|, k requires 0 <= k < |st.order| => st.tasks[st.order[k]])
  }

  /** Newest first: creation times never increase along the list. */
  predicate NewestFirst(ts: seq<Task>) {
    forall i, j :: 0 <= i < j < |ts| ==> ts[i].createdAt >= ts[j].createdAt
  }

  /** Puts `t` into a newest-first list, after every strictly newer task and before
      the others: of the tasks created at the same time as `t`, it comes first. */
  function Insert(t: Task, ts: seq<Task>): (r: seq<Task>)
    requires NewestFirst(ts)
    ensures NewestFirst(r)
    ensures multiset(r) == multiset(ts) + multiset{t}
    decreases |ts|
  {
    if |ts| == 0 || t.createdAt >= ts[0].createdAt then [t] + ts
    else
      var rest := Insert(t, ts[1..]);
      assert ts == [ts[0]] + ts[1..];
      InsertHead(t, ts, rest);
      [ts[0]] + rest
  }

  lemma InsertHead(t: Task, ts: seq<Task>, rest: seq<Task>)
    requires NewestFirst(ts) && |ts| > 0 && t.createdAt < ts[0].createdAt
    requires NewestFirst(rest) && multiset(rest) == multiset(ts[1..]) + multiset{t}
    ensures NewestFirst([ts[0]] + rest)
  {
    forall j | 0 <= j < |rest|
      ensures ts[0].createdAt >= rest[j].createdAt
    {
      assert rest[j] in multiset(rest);
      if rest[j] != t {
        assert rest[j] in ts[1..];
        var m :| 0 <= m < |ts[1..]| && ts[1..][m] == rest[j];
        assert ts[m + 1] == rest[j];
      }
    }
  }

  /** The stable sort `getAllTasks` performs, newest first. */
  function SortNewestFirst(ts: seq<Task>): (r: seq<Task>)
    ensures NewestFirst(r)
    ensures multiset(r) == multiset(ts)
    decreases |ts|
  {
    if |ts| == 0 then []
    else
      assert ts == [ts[0]] + ts[1..];
      Insert(ts[0], SortNewestFirst(ts[1..]))
  }

  /** The tasks of `ts` created at time `c`, in their order. */
  function WithStamp(ts: seq<Task>, c: int): seq<Task>
    decreases |ts|
  {
    if |ts| == 0 then [] else (if ts[0].createdAt == c then [ts[0]] else []) + WithStamp(ts[1..], c)
  }

  /** Inserting puts `t` in front of the tasks created at the same time and leaves
      every other group of equal creation times as it was. */
  lemma {:induction false} InsertStable(t: Task, ts: seq<Task>, c: int)
    requires NewestFirst(ts)
    ensures WithStamp(Insert(t, ts), c) == (if t.createdAt == c then [t] else []) + WithStamp(ts, c)
    decreases |ts|
  {
    if |ts| == 0 || t.createdAt >= ts[0].createdAt {
      assert ([t] + ts)[1..] == ts;
    } else {
      InsertStable(t, ts[1..], c);
      StableStep(t, ts, Insert(t, ts[1..]), c);
    }
  }

  /** The step of `InsertStable` past a strictly newer head. */
  lemma StableStep(t: Task, ts: seq<Task>, rest: seq<Task>, c: int)
    requires |ts| > 0 && t.createdAt < ts[0].createdAt
    requires WithStamp(rest, c) == (if t.createdAt == c then [t] else []) + WithStamp(ts[1..], c)
    ensures WithStamp([ts[0]] + rest, c) == (if t.createdAt == c then [t] else []) + WithStamp(ts, c)
  {
    var w := WithStamp(ts[1..], c);
    assert ([ts[0]] + rest)[1..] == rest;
    if ts[0].createdAt == c {
      assert [] + w == w;
    } else if t.createdAt == c {
      assert [] + ([t] + w) == [t] + ([] + w);
    } else {
      assert [] + ([] + w) == [] + w;
    }
  }

  /** The sort is stable: tasks created at the same time keep their relative order. */
  lemma {:induction false} SortIsStable(ts: seq<Task>, c: int)
    ensures WithStamp(SortNewestFirst(ts), c) == WithStamp(ts, c)
    decreases |ts|
  {
    if |ts| > 0 {
      SortIsStable(ts[1..], c);
      InsertStable(ts[0], SortNewestFirst(ts[1..]), c);
    }
  }

  /** A list already newest first is left as it is: the sort never swaps tasks
      created at the same time. */
  lemma {:induction false} SortKeepsSorted(ts: seq<Task>)
    requires NewestFirst(ts)
    ensures SortNewestFirst(ts) == ts
    decreases |ts|
  {
    if |ts| > 0 {
      SortKeepsSorted(ts[1..]);
    }
  }

  /** `getAllTasks`: every stored task once, newest first; tasks created at the same
      time in insertion order. */
  function GetAllTasks(st: TaskStore): (r: seq<Task>)
    requires Valid(st)
    ensures NewestFirst(r)
    ensures multiset(r) == multiset(Values(st))
    ensures |r| == |st.order|
    ensures forall c :: WithStamp(r, c) == WithStamp(Values(st), c)
  {
    var r := SortNewestFirst(Values(st));
    assert |r| == |multiset(r)|;
    forall c ensures WithStamp(r, c) == WithStamp(Values(st), c) {
      SortIsStable(Values(st), c);
    }
    r
  }

  /** Listing holds exactly the stored tasks. */
  lemma ListingHoldsStored(st: TaskStore, t: Task)
    requires Valid(st)
    ensures t in GetAllTasks(st) <==> exists id :: id in st.tasks && st.tasks[id] == t
  {
    var vs := Values(st);
    assert t in GetAllTasks(st) <==> t in multiset(vs);
    if t in vs {
      var k :| 0 <= k < |vs| && vs[k] == t;
      assert st.order[k] in st.tasks;
    }
    if exists id :: id in st.tasks && st.tasks[id] == t {
      var id :| id in st.tasks && st.tasks[id] == t;
      var k :| 0 <= k < |st.order| && st.order[k] == id;
      assert vs[k] == t;
    }
  }

  /** The shallow merge `{...task, ...updates}`: each field present in the patch
      replaces the stored one, `id` and `createdAt` included. */
  function Merge(t: Task, p: TaskPatch): (m: Task)
    ensures p == NoChanges ==> m == t
  {
    Task(p.id.GetOr(t.id), p.name.GetOr(t.name), p.website.GetOr(t.website), p.llm.GetOr(t.llm),
         p.instructions.GetOr(t.instructions), p.params.GetOr(t.params), p.status.GetOr(t.status),
         p.createdAt.GetOr(t.createdAt))
  }

  const NoChanges := TaskPatch(None, None, None, None, None, None, None, None)

  /** Merging the same patch twice is merging it once; a field the patch leaves out
      keeps its old value and a field it carries wins, for all eight fields. */
  lemma MergeFacts(t: Task, p: TaskPatch)
    ensures Merge(Merge(t, p), p) == Merge(t, p)
    ensures p.id.None? ==> Merge(t, p).id == t.id
    ensures p.id.Some? ==> Merge(t, p).id == p.id.value
    ensures p.name.None? ==> Merge(t, p).name == t.name
    ensures p.name.Some? ==> Merge(t, p).name == p.name.value
    ensures p.website.None? ==> Merge(t, p).website == t.website
    ensures p.website.Some? ==> Merge(t, p).website == p.website.value
    ensures p.llm.None? ==> Merge(t, p).llm == t.llm
    ensures p.llm.Some? ==> Merge(t, p).llm == p.llm.value
    ensures p.instructions.None? ==> Merge(t, p).instructions == t.instructions
    ensures p.instructions.Some? ==> Merge(t, p).instructions == p.instructions.value
    ensures p.params.None? ==> Merge(t, p).params == t.params
    ensures p.params.Some? ==> Merge(t, p).params == p.params.value
    ensures p.status.None? ==> Merge(t, p).status == t.status
    ensures p.status.Some? ==> Merge(t, p).status == p.status.value
    ensures p.createdAt.None? ==> Merge(t, p).createdAt == t.createdAt
    ensures p.createdAt.Some? ==> Merge(t, p).createdAt == p.createdAt.value
  {
  }

  /** `updateTask`: None and no change for an unknown id; otherwise the merged task,
      stored under the id it was looked up by. */
  function UpdateTask(st: TaskStore, id: string, p: TaskPatch): (r: (TaskStore, Option<Task>))
    requires Valid(st)
    ensures Valid(r.0)
    ensures id !in st.tasks ==> r.1.None? && r.0 == st
    ensures id in st.tasks ==> r.1 == Some(Merge(st.tasks[id], p)) && GetTask(r.0, id) == r.1
    ensures r.0.order == st.order && r.0.tasks.Keys == st.tasks.Keys
    ensures forall other :: other != id ==> GetTask(r.0, other) == GetTask(st, other)
  {
    match GetTask(st, id)
    case None => (st, None)
    case Some(t) =>
      var m := Merge(t, p);
      (Put(st, id, m), Some(m))
  }

  /** An update carrying another id leaves the task stored under its old key while
      its own `id` field names a different one. */
  lemma UpdateCanRenameWithoutRekeying(st: TaskStore, id: string, other: string)
    requires Valid(st) && id in st.tasks && other != id
    ensures var r := UpdateTask(st, id, NoChanges.(id := Some(other)));
            GetTask(r.0, id).Some? && GetTask(r.0, id).value.id == other
            && GetTask(r.0, other) == GetTask(st, other)
  {
  }

  /** Removes `id` from a list of distinct keys; the other keys keep their order. */
  function Without(order: seq<string>, id: string): (r: seq<string>)
    requires forall i, j :: 0 <= i < j < |order| ==> order[i] != order[j]
    ensures forall x :: x in r <==> x in order && x != id
    ensures forall i, j :: 0 <= i < j < |r| ==> r[i] != r[j]
    ensures id !in order ==> r == order
    ensures forall k :: 0 <= k < |order| && order[k] == id ==> r == order[..k] + order[k + 1..]
    decreases |order|
  {
    if |order| == 0 then []
    else
      var rest := Without(order[1..], id);
      WithoutKeeps(order, id, rest);
      WithoutStep(order, id, rest);
      if order[0] == id then rest else [order[0]] + rest
  }

  /** One step of `Without` keeps the other keys, and keeps them distinct. */
  lemma WithoutKeeps(order: seq<string>, id: string, rest: seq<string>)
    requires |order| > 0
    requires forall i, j :: 0 <= i < j < |order| ==> order[i] != order[j]
    requires forall x :: x in rest <==> x in order[1..] && x != id
    requires forall i, j :: 0 <= i < j < |rest| ==> rest[i] != rest[j]
    ensures var r := if order[0] == id then rest else [order[0]] + rest;
            (forall x :: x in r <==> x in order && x != id)
            && (forall i, j :: 0 <= i < j < |r| ==> r[i] != r[j])
  {
    assert forall x :: x in order[1..] ==> x in order;
    assert order[0] !in order[1..] by {
      forall k | 0 <= k < |order[1..]|
        ensures order[1..][k] != order[0]
      {
        assert order[1..][k] == order[k + 1];
      }
    }
    assert order == [order[0]] + order[1..];
  }

  /** One step of `Without`: what the rest of the list gives, the whole list gives. */
  lemma WithoutStep(order: seq<string>, id: string, rest: seq<string>)
    requires |order| > 0
    requires forall i, j :: 0 <= i < j < |order| ==> order[i] != order[j]
    requires id !in order[1..] ==> rest == order[1..]
    requires forall k :: 0 <= k < |order[1..]| && order[1..][k] == id ==> rest == order[1..][..k] + order[1..][k + 1..]
    ensures var r := if order[0] == id then rest else [order[0]] + rest;
            (id !in order ==> r == order)
            && (forall k :: 0 <= k < |order| && order[k] == id ==> r == order[..k] + order[k + 1..])
  {
    var r := if order[0] == id then rest else [order[0]] + rest;
    assert order == [order[0]] + order[1..];
    forall k | 0 <= k < |order| && order[k] == id
      ensures r == order[..k] + order[k + 1..]
    {
      if k == 0 {
        WithoutAtHead(order, id);
      } else {
        assert order[1..][k - 1] == id;
        WithoutPastHead(order, id, rest, k);
      }
    }
  }

  /** A key at the head of a list of distinct keys occurs nowhere after it. */
  lemma WithoutAtHead(order: seq<string>, id: string)
    requires |order| > 0 && order[0] == id
    requires forall i, j :: 0 <= i < j < |order| ==> order[i] != order[j]
    ensures id !in order[1..]
  {
    forall m | 0 <= m < |order[1..]|
      ensures order[1..][m] != id
    {
      assert order[1..][m] == order[m + 1];
    }
  }

  /** Removing a key past the head: the head stays in front of what the tail gives. */
  lemma WithoutPastHead(order: seq<string>, id: string, rest: seq<string>, k: nat)
    requires 0 < k < |order| && order[k] == id && order[0] != id
    requires rest == order[1..][..k - 1] + order[1..][k..]
    ensures [order[0]] + rest == order[..k] + order[k + 1..]
  {
    assert order[1..][..k - 1] == order[1..k] && order[1..][k..] == order[k + 1..];
    assert order[..k] == [order[0]] + order[1..k];
    AppendAssoc([order[0]], order[1..k], order[k + 1..]);
  }

  /** `deleteTask`: true exactly when the id was present; afterwards it is absent,
      the other keys keep their order and nothing else changes. */
  function DeleteTask(st: TaskStore, id: string): (r: (TaskStore, bool))
    requires Valid(st)
    ensures Valid(r.0)
    ensures r.1 <==> id in st.tasks
    ensures GetTask(r.0, id).None?
    ensures forall other :: other != id ==> GetTask(r.0, other) == GetTask(st, other)
    ensures id !in st.tasks ==> r.0 == st
    ensures forall k :: 0 <= k < |st.order| && st.order[k] == id ==> r.0.order == st.order[..k] + st.order[k + 1..]
  {
    assert id !in st.tasks ==> st.tasks - {id} == st.tasks;
    (TaskStore(Without(st.order, id), st.tasks - {id}), id in st.tasks)
  }

  /** Keeps the published tasks of a list, in their order. */
  function PublishedOnly(ts: seq<Task>): (r: seq<Task>)
    ensures forall t :: t in r <==> t in ts && t.status == Published
    ensures forall t :: multiset(r)[t] == if t.status == Published then multiset(ts)[t] else 0
    ensures |r| <= |ts|
    decreases |ts|
  {
    if |ts| == 0 then []
    else
      assert ts == [ts[0]] + ts[1..];
      if ts[0].status == Published then [ts[0]] + PublishedOnly(ts[1..])
      else PublishedOnly(ts[1..])
  }

  /** `s` is `t` with some elements left out, the rest in their order. */
  predicate Subsequence(s: seq<Task>, t: seq<Task>)
    decreases |t|
  {
    |s| == 0 || (|t| > 0 && ((s[0] == t[0] && Subsequence(s[1..], t[1..])) || Subsequence(s, t[1..])))
  }

  lemma {:induction false} PublishedIsSubsequence(ts: seq<Task>)
    ensures Subsequence(PublishedOnly(ts), ts)
    decreases |ts|
  {
    if |ts| > 0 {
      PublishedIsSubsequence(ts[1..]);
      if ts[0].status == Published {
        assert PublishedOnly(ts)[1..] == PublishedOnly(ts[1..]);
      }
    }
  }

  /** `getPublishedTasks`: the listing with everything unpublished left out, in the
      listing's order. */
  function GetPublishedTasks(st: TaskStore): (r: seq<Task>)
    requires Valid(st)
    ensures forall t :: t in r <==> t in GetAllTasks(st) && t.status == Published
    ensures forall t :: multiset(r)[t] == if t.status == Published then multiset(GetAllTasks(st))[t] else 0
    ensures NewestFirst(r)
    ensures Subsequence(r, GetAllTasks(st))
  {
    var all := GetAllTasks(st);
    PublishedIsSubsequence(all);
    SubsequenceKeepsOrder(PublishedOnly(all), all);
    PublishedOnly(all)
  }

  lemma {:induction false} SubsequenceKeepsOrder(s: seq<Task>, t: seq<Task>)
    requires Subsequence(s, t) && NewestFirst(t)
    ensures NewestFirst(s)
    decreases |t|
  {
    if |s| > 0 {
      assert NewestFirst(t[1..]);
      if s[0] == t[0] && Subsequence(s[1..], t[1..]) {
        SubsequenceKeepsOrder(s[1..], t[1..]);
        SubsequenceMembers(s[1..], t[1..]);
        forall j | 0 < j < |s|
          ensures s[0].createdAt >= s[j].createdAt
        {
          assert s[j] == s[1..][j - 1];
          assert s[j] in t[1..];
          var m :| 0 <= m < |t[1..]| && t[1..][m] == s[j];
          assert t[m + 1] == s[j];
        }
      } else {
        SubsequenceKeepsOrder(s, t[1..]);
      }
    }
  }

  lemma {:induction false} SubsequenceMembers(s: seq<Task>, t: seq<Task>)
    requires Subsequence(s, t)
    ensures forall x :: x in s ==> x in t
    decreases |t|
  {
    if |s| > 0 {
      if s[0] == t[0] && Subsequence(s[1..], t[1..]) {
        SubsequenceMembers(s[1..], t[1..]);
        assert s == [s[0]] + s[1..];
      } else {
        SubsequenceMembers(s, t[1..]);
      }
    }
  }

  /** Every seed is published, so at first the published view is the whole listing. */
  lemma InitiallyAllPublished(stamps: seq<int>)
    requires |stamps| == 5
    ensures InitialStore(stamps).tasks.Keys != {}
    ensures forall t :: t in GetAllTasks(InitialStore(stamps)) ==> t in GetPublishedTasks(InitialStore(stamps))
  {
    SeedIdentity(stamps);
    PublishedTasksListed(SeedTasks(stamps));
  }

  /** Distinct published tasks put into the empty repository are all in its
      published listing. */
  lemma PublishedTasksListed(ts: seq<Task>)
    requires |ts| > 0
    requires forall i, j :: 0 <= i < j < |ts| ==> ts[i].id != ts[j].id
    requires forall k :: 0 <= k < |ts| ==> ts[k].status == Published
    ensures PutAll(Empty, ts).tasks.Keys != {}
    ensures forall t :: t in GetAllTasks(PutAll(Empty, ts)) ==> t in GetPublishedTasks(PutAll(Empty, ts))
  {
    var st := PutAll(Empty, ts);
    PutAllFromEmpty(ts);
    PutAllFromEmptyKeys(ts);
    assert ts[0].id in st.tasks;
    forall id | id in st.tasks
      ensures st.tasks[id].status == Published
    {
      var k :| 0 <= k < |ts| && st.order[k] == id;
    }
    ListingAllPublished(st);
  }

  /** When every stored task is published, the published listing is the listing. */
  lemma ListingAllPublished(st: TaskStore)
    requires Valid(st)
    requires forall id :: id in st.tasks ==> st.tasks[id].status == Published
    ensures forall t :: t in GetAllTasks(st) ==> t in GetPublishedTasks(st)
  {
    forall t | t in GetAllTasks(st)
      ensures t.status == Published
    {
      ListingHoldsStored(st, t);
    }
  }
}
