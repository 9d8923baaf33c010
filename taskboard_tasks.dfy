/**
 * The table of tasks of the HAL-FORMS taskboard (`examples/hal-forms-taskboard/main.ts`):
 * tasks kept in a `Map` in insertion order, `createTask` and `listTasks`
 * over it, the `ensureTitle` check and the per-request user state built by
 * `toState`.
 */
module TaskTable {
  import opened JsValue
  import opened JsString
  import opened Router
  import opened TypedHeaders
  import opened Constructors

  datatype Status = Pending | Done

  function StatusName(s: Status): string {
    match s
    case Pending => "pending"
    case Done => "done"
  }

  /** A task title: a non-empty string with no surrounding white space. */
  type TaskTitle = s: string | s != [] && !IsSpace(s[0]) && !IsSpace(s[|s| - 1]) witness "t"

  datatype Task = Task(id: string, title: string, status: Status)

  /** `{ id, title, status }`, the JSON form of a task. */
  function TaskView(t: Task): Value {
    Obj([("id", Str(t.id)), ("title", Str(t.title)), ("status", Str(StatusName(t.status)))])
  }

  /** A `Map<TaskId, Task>`: the ids in insertion order and each id's task. */
  datatype Tasks = Tasks(order: seq<string>, byId: map<string, Task>)

  /** Each id is listed once, and exactly the ids with a task are listed. */
  ghost predicate Valid(t: Tasks) {
    && (forall i, j :: 0 <= i < j < |t.order| ==> t.order[i] != t.order[j])
    && (forall id :: id in t.byId <==> id in t.order)
  }

  /** A task table in a consistent state. */
  type Board = t: Tasks | Valid(t) witness Tasks([], map[])

  /** `tasks.set(id, task)`: a new id goes last; an existing one keeps its place and takes the new task. */
  function MapSet(t: Tasks, id: string, task: Task): (r: Tasks)
    requires Valid(t)
    ensures Valid(r)
    ensures r.byId == t.byId[id := task]
    ensures id in t.byId ==> r.order == t.order
    ensures id !in t.byId ==> r.order == t.order + [id]
  {
    if id in t.byId then Tasks(t.order, t.byId[id := task])
    else Tasks(t.order + [id], t.byId[id := task])
  }

  /** `tasks.values()`, in insertion order. */
  function Values(t: Tasks): (vs: seq<Task>)
    requires Valid(t)
    ensures |vs| == |t.order|
    ensures forall i :: 0 <= i < |vs| ==> vs[i] == t.byId[t.order[i]]
  {
    seq(|t.order|, i requires 0 <= i < |t.order| => t.byId[t.order[i]])
  }

  /** `listTasks()`: `Array.from(tasks.values())` mapped to the JSON form of each task. */
  function ListTasks(t: Tasks): (views: seq<Value>)
    requires Valid(t)
    ensures |views| == |t.order|
    ensures forall i :: 0 <= i < |views| ==> views[i] == TaskView(t.byId[t.order[i]])
  {
    var vs := Values(t);
    seq(|vs|, i requires 0 <= i < |vs| => TaskView(vs[i]))
  }

  datatype Created = Created(task: Task, tasks: Tasks)

  /** `createTask(title)`, with `uuid` standing for the value `crypto.randomUUID()` returns. */
  function CreateTask(t: Tasks, uuid: string, title: TaskTitle): (r: Created)
    requires Valid(t)
    ensures Valid(r.tasks)
    ensures r.task == Task("task-" + uuid, title, Pending)
    ensures r.tasks == MapSet(t, r.task.id, r.task)
  {
    var task := Task("task-" + uuid, title, Pending);
    Created(task, MapSet(t, task.id, task))
  }

  /** A task created under a fresh id is listed last, after all earlier tasks in their order. */
  lemma CreateThenList(t: Tasks, uuid: string, title: TaskTitle)
    requires Valid(t) && "task-" + uuid !in t.byId
    ensures var c := CreateTask(t, uuid, title);
            ListTasks(c.tasks) == ListTasks(t) + [TaskView(Task("task-" + uuid, title, Pending))]
  {
    var c := CreateTask(t, uuid, title);
    assert forall i :: 0 <= i < |t.order| ==> c.tasks.order[i] == t.order[i] && t.order[i] != c.task.id;
  }

  /** A repeated id replaces the earlier task in place: the list keeps its length and order of ids. */
  lemma CreateWithUsedId(t: Tasks, uuid: string, title: TaskTitle)
    requires Valid(t) && "task-" + uuid in t.byId
    ensures var c := CreateTask(t, uuid, title);
            c.tasks.order == t.order && |ListTasks(c.tasks)| == |ListTasks(t)|
  {
  }

  /**
   * `ensureTitle(value)`: a string is trimmed and must then be non-empty
   * (`NonEmptyFrom`); any other value counts as `""`. The title is the trimmed
   * string. On a trimmed string `NonEmptyFrom` throws exactly when the string
   * is empty (`NonEmptyOnTrimmed`), so that is the test made here.
   */
  function EnsureTitle(value: Value): (r: Result<TaskTitle>)
    ensures r.Ok? <==> value.Str? && !AllSpace(value.s)
    ensures r.Ok? ==> r.value == Trim(value.s)
    ensures r.Err? ==> r.error == "Empty string"
  {
    var raw := Trim(if value.Str? then value.s else "");
    TitleChecked(value);
    if raw == "" then Err("Empty string") else Ok(raw)
  }

  /** The trimmed title is empty exactly for a value that is not a string with a non-space character, and otherwise has no white space at either end. */
  lemma TitleChecked(value: Value)
    ensures var raw := Trim(if value.Str? then value.s else "");
            && (raw == "" <==> !(value.Str? && !AllSpace(value.s)))
            && (raw != "" ==> !IsSpace(raw[0]) && !IsSpace(raw[|raw| - 1]))
  {
    var str := if value.Str? then value.s else "";
    TrimEmptyIffAllSpace(str);
  }

  /** On a trimmed string, `NonEmptyFrom` throws exactly when the string is empty, and otherwise returns it. */
  lemma NonEmptyOnTrimmed(s: string)
    ensures var raw := Trim(s);
            NonEmptyFrom(raw) == if raw == "" then Err("Empty string") else Ok(raw)
  {
    TrimIdempotent(s);
    TrimEmptyIffAllSpace(Trim(s));
  }

  /** `.map((r) => r.trim())`. */
  function TrimAll(pieces: seq<string>): (ts: seq<string>)
    ensures |ts| == |pieces|
    ensures forall i :: 0 <= i < |ts| ==> ts[i] == Trim(pieces[i])
  {
    seq(|pieces|, i requires 0 <= i < |pieces| => Trim(pieces[i]))
  }

  /** `.filter(Boolean)` on strings: drops the empty ones and keeps the order of the rest. */
  function DropEmpty(xs: seq<string>): (ys: seq<string>)
    ensures forall y :: y in ys <==> y in xs && y != ""
    ensures |ys| <= |xs|
  {
    if xs == [] then []
    else (if xs[0] == "" then [] else [xs[0]]) + DropEmpty(xs[1..])
  }

  /** Filtering a concatenation filters each part: the kept strings stay in their order. */
  lemma {:induction false} DropEmptyAppend(xs: seq<string>, ys: seq<string>)
    ensures DropEmpty(xs + ys) == DropEmpty(xs) + DropEmpty(ys)
    decreases |xs|
  {
    if |xs| == 0 {
      assert xs + ys == ys;
    } else {
      assert (xs + ys)[0] == xs[0] && (xs + ys)[1..] == xs[1..] + ys;
      DropEmptyAppend(xs[1..], ys);
    }
  }

  /** A single string is kept exactly when it is not empty. */
  lemma DropEmptySingle(x: string)
    ensures DropEmpty([x]) == if x == "" then [] else [x]
  {
    assert [x][1..] == [];
  }

  /** Every kept string keeps its multiplicity, and the empty ones are gone. */
  lemma {:induction false} DropEmptyCounts(xs: seq<string>)
    ensures multiset(DropEmpty(xs)) == multiset(xs)[ "" := 0 ]
    decreases |xs|
  {
    if |xs| > 0 {
      DropEmptyCounts(xs[1..]);
      assert xs == [xs[0]] + xs[1..];
      assert multiset(xs) == multiset([xs[0]]) + multiset(xs[1..]);
    }
  }

  /** The roles in an `x-roles` header's comma-separated pieces: each piece trimmed, empty ones dropped. */
  function CleanRoles(pieces: seq<string>): seq<string> {
    DropEmpty(TrimAll(pieces))
  }

  /** A role is a trimmed piece that is not blank, and every such piece is a role. */
  lemma CleanRolesMembers(pieces: seq<string>, r: string)
    ensures r in CleanRoles(pieces) <==> r != "" && exists i :: 0 <= i < |pieces| && Trim(pieces[i]) == r
    ensures r in CleanRoles(pieces) ==> Trim(r) == r
  {
    var ts := TrimAll(pieces);
    if r in CleanRoles(pieces) {
      var i :| 0 <= i < |ts| && ts[i] == r;
      TrimIdempotent(pieces[i]);
    }
  }

  /** `(req.headers.get("x-roles") ?? "").split(",").map(trim).filter(Boolean)`. */
  function Roles(req: Request): seq<string> {
    CleanRoles(Split(Header(req, "x-roles").GetOr(""), ','))
  }

  /** `toState(req)`: the user is the API key (`"guest"` without one) with the header's roles. */
  function ToState(req: Request): (st: AppState)
    ensures st.user.Some? && st.user.value.roles == Some(Roles(req))
    ensures GetApiKey(req).Some? ==> st.user.value.id == GetApiKey(req).value
    ensures GetApiKey(req).None? ==> st.user.value.id == "guest"
  {
    var id := match GetApiKey(req) case Some(k) => k case None => "guest";
    AppState(Some(UserInfo(id, Some(Roles(req)))))
  }

  /** Trimming never brings in a character the string did not contain. */
  lemma TrimKeepsOut(s: string, c: char)
    requires c !in s
    ensures c !in Trim(s)
  {
    var lo, hi := TrimBounds(s);
  }

  /** A role never contains the separator and is never blank. */
  lemma RolesAreClean(req: Request, r: string)
    requires r in Roles(req)
    ensures ',' !in r && r != "" && Trim(r) == r
  {
    var h := Header(req, "x-roles").GetOr("");
    var pieces := Split(h, ',');
    CleanRolesMembers(pieces, r);
    var i :| 0 <= i < |pieces| && Trim(pieces[i]) == r;
    TrimKeepsOut(pieces[i], ',');
  }
}

module TaskBoardState {
  import opened JsValue
  import opened TaskTable

  /** The module-level `tasks` map, updated in place by `createTask`. */
  class TaskBoard {
    var order: seq<string>
    var byId: map<string, Task>

    ghost predicate Valid()
      reads this
    {
      TaskTable.Valid(Tasks(order, byId))
    }

    function Snapshot(): Tasks
      reads this
    {
      Tasks(order, byId)
    }

    /** `new Map()`. */
    constructor ()
      ensures Valid() && order == [] && byId == map[]
    {
      order := [];
      byId := map[];
    }

    /** `createTask(title)`, `uuid` standing for `crypto.randomUUID()`. */
    method CreateTask(uuid: string, title: TaskTitle) returns (task: Task)
      requires Valid()
      modifies this
      ensures Valid()
      ensures TaskTable.CreateTask(old(Snapshot()), uuid, title) == Created(task, Snapshot())
    {
      task := Task("task-" + uuid, title, Pending);
      if task.id !in byId {
        order := order + [task.id];
      }
      byId := byId[task.id := task];
    }

    /** `listTasks()`: walks the tasks in insertion order and collects their JSON forms. */
    method ListTasks() returns (views: seq<Value>)
      requires Valid()
      ensures views == TaskTable.ListTasks(Snapshot())
    {
      views := [];
      var i := 0;
      while i < |order|
        invariant 0 <= i <= |order|
        invariant |views| == i
        invariant forall k :: 0 <= k < i ==> views[k] == TaskView(byId[order[k]])
      {
        views := views + [TaskView(byId[order[i]])];
        i := i + 1;
      }
    }
  }
}
