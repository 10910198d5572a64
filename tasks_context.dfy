/**
 * The client's task list for the open project. The list is state that the
 * operations replace step by step: an optimistic edit, then a rollback when
 * the request fails, an append after a create, a filter after a delete. The
 * outcome of each HTTP request is a parameter (`serverOk`, or the server's
 * reply); the loading flag and the toasts are not modelled.
 */
module TasksContext {
  import opened Wrappers
  import opened Subsequences

  /** A JavaScript property value as these operations see it. */
  datatype JsValue = Undefined | Null | Str(s: string)

  /** A task object, with the fields the update payload reads. */
  datatype Task = Task(id: JsValue, titulo: JsValue, descripcion: JsValue, estado: JsValue,
                       asignadoA: JsValue, fechaLimite: JsValue)

  /** A `Partial<Task>`: None where the object has no such property. */
  datatype TaskPatch = TaskPatch(id: Option<JsValue>, titulo: Option<JsValue>, descripcion: Option<JsValue>,
                                 estado: Option<JsValue>, asignadoA: Option<JsValue>, fechaLimite: Option<JsValue>)

  /** The five fields the update request sends. */
  datatype Payload = Payload(titulo: JsValue, descripcion: JsValue, estado: JsValue,
                             asignadoA: JsValue, fechaLimite: JsValue)

  /** The patch `moveTask` passes: only `estado`. */
  function MovePatch(status: string): TaskPatch {
    TaskPatch(None, None, None, Some(Str(status)), None, None)
  }

  /** `t.id === taskId`. */
  predicate HasId(t: Task, taskId: string) {
    t.id == Str(taskId)
  }

  /** A property of the patch when present, else the task's (object spread). */
  function Spread(p: Option<JsValue>, v: JsValue): JsValue {
    if p.Some? then p.value else v
  }

  /** `{ ...t, ...updates }`. */
  function Overlay(t: Task, p: TaskPatch): Task {
    Task(Spread(p.id, t.id), Spread(p.titulo, t.titulo), Spread(p.descripcion, t.descripcion),
         Spread(p.estado, t.estado), Spread(p.asignadoA, t.asignadoA), Spread(p.fechaLimite, t.fechaLimite))
  }

  /** `updates.f ?? task.f`: the patch's value unless it is absent, null or undefined. */
  function Coalesce(p: Option<JsValue>, v: JsValue): (r: JsValue)
    ensures p.Some? && p.value.Str? ==> r == p.value
    ensures p.None? || !p.value.Str? ==> r == v
  {
    if p.Some? && p.value.Str? then p.value else v
  }

  /** The update request body, merged from the patch and the snapshot of the task. */
  function FullPayload(p: TaskPatch, t: Task): Payload {
    Payload(Coalesce(p.titulo, t.titulo), Coalesce(p.descripcion, t.descripcion), Coalesce(p.estado, t.estado),
            Coalesce(p.asignadoA, t.asignadoA), Coalesce(p.fechaLimite, t.fechaLimite))
  }

  function PayloadOf(t: Task): Payload {
    Payload(t.titulo, t.descripcion, t.estado, t.asignadoA, t.fechaLimite)
  }

  /** Every property the patch has is a string. */
  predicate OnlyStrings(p: TaskPatch) {
    (p.titulo.Some? ==> p.titulo.value.Str?) && (p.descripcion.Some? ==> p.descripcion.value.Str?)
    && (p.estado.Some? ==> p.estado.value.Str?) && (p.asignadoA.Some? ==> p.asignadoA.value.Str?)
    && (p.fechaLimite.Some? ==> p.fechaLimite.value.Str?)
  }

  /** The index `tasks.find` stops at: the first task with the id. */
  function FirstWithId(tasks: seq<Task>, taskId: string): (r: Option<nat>)
    ensures r.None? <==> forall i :: 0 <= i < |tasks| ==> !HasId(tasks[i], taskId)
    ensures r.Some? ==> r.value < |tasks| && HasId(tasks[r.value], taskId)
                        && forall j :: 0 <= j < r.value ==> !HasId(tasks[j], taskId)
    decreases |tasks|
  {
    if tasks == [] then None
    else if HasId(tasks[0], taskId) then Some(0)
    else
      match FirstWithId(tasks[1..], taskId)
      case None => None
      case Some(i) => Some(i + 1)
  }

  /** The optimistic list: the patch laid over every task with the id, the rest untouched. */
  function Optimistic(tasks: seq<Task>, taskId: string, p: TaskPatch): (r: seq<Task>)
    ensures |r| == |tasks|
    ensures forall i :: 0 <= i < |tasks| && !HasId(tasks[i], taskId) ==> r[i] == tasks[i]
    ensures forall i :: 0 <= i < |tasks| && HasId(tasks[i], taskId) ==> r[i] == Overlay(tasks[i], p)
  {
    seq(|tasks|, i requires 0 <= i < |tasks| => if HasId(tasks[i], taskId) then Overlay(tasks[i], p) else tasks[i])
  }

  /** The rollback: every task that now has the id becomes the snapshot. */
  function RolledBack(tasks: seq<Task>, taskId: string, snapshot: Task): (r: seq<Task>)
    ensures |r| == |tasks|
    ensures forall i :: 0 <= i < |tasks| && !HasId(tasks[i], taskId) ==> r[i] == tasks[i]
    ensures forall i :: 0 <= i < |tasks| && HasId(tasks[i], taskId) ==> r[i] == snapshot
  {
    seq(|tasks|, i requires 0 <= i < |tasks| => if HasId(tasks[i], taskId) then snapshot else tasks[i])
  }

  /** A JavaScript-truthy value. */
  predicate Truthy(v: JsValue) {
    v.Str? && v.s != ""
  }

  /** The create request body: the task data with `estado` defaulted to "pendiente". */
  function CreateBody(data: TaskPatch): (body: TaskPatch)
    ensures body.estado.Some? && Truthy(body.estado.value)
    ensures body.estado.value == if data.estado.Some? && Truthy(data.estado.value) then data.estado.value
                                 else Str("pendiente")
    ensures body.(estado := data.estado) == data
  {
    data.(estado := Some(if data.estado.Some? && Truthy(data.estado.value) then data.estado.value
                         else Str("pendiente")))
  }

  /** `prev.filter(t => t.id !== taskId)`. */
  function WithoutTask(tasks: seq<Task>, taskId: string): (r: seq<Task>)
    ensures forall t :: t in r <==> t in tasks && !HasId(t, taskId)
    ensures forall t :: multiset(r)[t] == if HasId(t, taskId) then 0 else multiset(tasks)[t]
    ensures IsSubsequence(r, tasks)
    decreases |tasks|
  {
    if tasks == [] then []
    else
      var rest := WithoutTask(tasks[1..], taskId);
      assert tasks == [tasks[0]] + tasks[1..];
      if HasId(tasks[0], taskId) then
        SubsequenceOfTail(rest, tasks);
        rest
      else
        assert ([tasks[0]] + rest)[1..] == rest;
        [tasks[0]] + rest
  }

  // ---------------------------------------------------------------------------
  // Properties of the update

  /**
   * Rollback restores the list when the id is carried by one task only and
   * the patch does not change it.
   */
  lemma RollbackRestores(tasks: seq<Task>, taskId: string, p: TaskPatch)
    requires FirstWithId(tasks, taskId).Some?
    requires forall i, j :: 0 <= i < j < |tasks| && HasId(tasks[i], taskId) ==> !HasId(tasks[j], taskId)
    requires p.id.None? || p.id == Some(Str(taskId))
    ensures RolledBack(Optimistic(tasks, taskId, p), taskId, tasks[FirstWithId(tasks, taskId).value]) == tasks
  {
    var k := FirstWithId(tasks, taskId).value;
    var opt := Optimistic(tasks, taskId, p);
    var r := RolledBack(opt, taskId, tasks[k]);
    forall i | 0 <= i < |tasks| ensures r[i] == tasks[i] {
      if HasId(tasks[i], taskId) {
        assert HasId(opt[i], taskId);
        assert i == k;
      } else {
        assert opt[i] == tasks[i];
      }
    }
  }

  /** A patch that changes the id defeats the rollback: the optimistic task stays. */
  lemma RollbackMissesChangedId()
    ensures var t := Task(Str("a"), Str("old"), Undefined, Undefined, Undefined, Undefined);
            var p := TaskPatch(Some(Str("b")), Some(Str("new")), None, None, None, None);
            RolledBack(Optimistic([t], "a", p), "a", t) == [Overlay(t, p)] != [t]
  {
    var t := Task(Str("a"), Str("old"), Undefined, Undefined, Undefined, Undefined);
    var p := TaskPatch(Some(Str("b")), Some(Str("new")), None, None, None, None);
    var opt := Optimistic([t], "a", p);
    assert opt[0] == Overlay(t, p);
    assert Overlay(t, p).titulo != t.titulo;
  }

  /** Two tasks with the same id both become the first one's snapshot. */
  lemma RollbackMergesDuplicates()
    ensures var t1 := Task(Str("a"), Str("one"), Undefined, Undefined, Undefined, Undefined);
            var t2 := Task(Str("a"), Str("two"), Undefined, Undefined, Undefined, Undefined);
            var p := MovePatch("completada");
            RolledBack(Optimistic([t1, t2], "a", p), "a", t1) == [t1, t1]
  {
    var t1 := Task(Str("a"), Str("one"), Undefined, Undefined, Undefined, Undefined);
    var t2 := Task(Str("a"), Str("two"), Undefined, Undefined, Undefined, Undefined);
    var opt := Optimistic([t1, t2], "a", MovePatch("completada"));
    assert HasId(opt[0], "a") && HasId(opt[1], "a");
  }

  /**
   * When every patched property is a string, the request carries exactly the
   * fields the optimistic task shows.
   */
  lemma PayloadMatchesOptimistic(t: Task, p: TaskPatch)
    requires OnlyStrings(p)
    ensures FullPayload(p, t) == PayloadOf(Overlay(t, p))
  {
  }

  /**
   * A null in the patch is shown by the optimistic task but not sent: the
   * request keeps the snapshot's value, so the screen and the server disagree
   * until the next fetch.
   */
  lemma NullShownButNotSent(t: Task, p: TaskPatch)
    requires t.titulo.Str? && p.titulo == Some(Null)
    ensures Overlay(t, p).titulo == Null
    ensures FullPayload(p, t).titulo == t.titulo
  {
  }

  // ---------------------------------------------------------------------------
  // The context

  class TaskBoard {
    var tasks: seq<Task>

    constructor ()
      ensures tasks == []
    {
      tasks := [];
    }

    /** `tasks.find(t => t.id === taskId)`, as an index. */
    method FindTask(taskId: string) returns (index: Option<nat>)
      ensures index == FirstWithId(tasks, taskId)
    {
      var i := 0;
      while i < |tasks|
        invariant 0 <= i <= |tasks|
        invariant forall j :: 0 <= j < i ==> !HasId(tasks[j], taskId)
      {
        if HasId(tasks[i], taskId) {
          FirstIsUnique(tasks, taskId, i);
          return Some(i);
        }
        i := i + 1;
      }
      return None;
    }

    /**
     * `updateTask`: false with no change for an unknown id; otherwise the
     * optimistic edit, the request with the merged payload, and on failure
     * the rollback to the snapshot.
     */
    method UpdateTask(taskId: string, updates: TaskPatch, serverOk: bool) returns (ok: bool, sent: Option<Payload>)
      modifies this
      ensures FirstWithId(old(tasks), taskId).None? ==> !ok && sent.None? && tasks == old(tasks)
      ensures FirstWithId(old(tasks), taskId).Some? ==>
                var snapshot := old(tasks)[FirstWithId(old(tasks), taskId).value];
                ok == serverOk
                && sent == Some(FullPayload(updates, snapshot))
                && tasks == if serverOk then Optimistic(old(tasks), taskId, updates)
                            else RolledBack(Optimistic(old(tasks), taskId, updates), taskId, snapshot)
    {
      var found := FindTask(taskId);
      if found.None? {
        return false, None;
      }
      var snapshot := tasks[found.value];
      tasks := Optimistic(tasks, taskId, updates);
      var payload := FullPayload(updates, snapshot);
      if serverOk {
        return true, Some(payload);
      }
      tasks := RolledBack(tasks, taskId, snapshot);
      return false, Some(payload);
    }

    /** `moveTask(id, s)`: exactly `updateTask(id, { estado: s })`. */
    method MoveTask(taskId: string, newStatus: string, serverOk: bool) returns (ok: bool, sent: Option<Payload>)
      modifies this
      ensures FirstWithId(old(tasks), taskId).None? ==> !ok && sent.None? && tasks == old(tasks)
      ensures FirstWithId(old(tasks), taskId).Some? ==>
                var snapshot := old(tasks)[FirstWithId(old(tasks), taskId).value];
                ok == serverOk
                && sent == Some(PayloadOf(snapshot.(estado := Str(newStatus))))
                && tasks == if serverOk then Optimistic(old(tasks), taskId, MovePatch(newStatus))
                            else RolledBack(Optimistic(old(tasks), taskId, MovePatch(newStatus)), taskId, snapshot)
    {
      ok, sent := UpdateTask(taskId, MovePatch(newStatus), serverOk);
    }

    /**
     * `createTask`: false with no change for an empty project id; otherwise
     * the request with `estado` defaulted, and on success the server's task
     * appended at the end.
     */
    method CreateTask(projectId: string, taskData: TaskPatch, created: Option<Task>) returns (ok: bool, sent: Option<TaskPatch>)
      modifies this
      ensures projectId == "" ==> !ok && sent.None? && tasks == old(tasks)
      ensures projectId != "" ==> sent == Some(CreateBody(taskData)) && ok == created.Some?
                                  && tasks == if created.Some? then old(tasks) + [created.value] else old(tasks)
    {
      if projectId == "" {
        return false, None;
      }
      var body := CreateBody(taskData);
      if created.None? {
        return false, Some(body);
      }
      tasks := tasks + [created.value];
      return true, Some(body);
    }

    /** `deleteTask`: on success every task with the id is removed; on failure nothing changes. */
    method DeleteTask(taskId: string, serverOk: bool) returns (ok: bool)
      modifies this
      ensures ok == serverOk
      ensures tasks == if serverOk then WithoutTask(old(tasks), taskId) else old(tasks)
    {
      if !serverOk {
        return false;
      }
      tasks := WithoutTask(tasks, taskId);
      return true;
    }

    /** `assignTask`: reports the request's outcome and never touches the list. */
    method AssignTask(taskId: string, userId: string, serverOk: bool) returns (ok: bool, sent: Payload)
      ensures ok == serverOk
      ensures sent.asignadoA == Str(userId)
    {
      sent := Payload(Undefined, Undefined, Undefined, Str(userId), Undefined);
      ok := serverOk;
    }

    /**
     * `fetchTasks`: nothing happens unless mounted, signed in and given a
     * project id; then the server's list replaces the local one, and a failed
     * request leaves it as it was.
     */
    method FetchTasks(projectId: string, mounted: bool, signedIn: bool, fetched: Option<seq<Task>>)
      returns (requested: bool)
      modifies this
      ensures requested <==> mounted && signedIn && projectId != ""
      ensures tasks == if requested && fetched.Some? then fetched.value else old(tasks)
    {
      if !mounted || !signedIn || projectId == "" {
        return false;
      }
      if fetched.Some? {
        tasks := fetched.value;
      }
      return true;
    }
  }

  lemma FirstIsUnique(tasks: seq<Task>, taskId: string, i: nat)
    requires i < |tasks| && HasId(tasks[i], taskId)
    requires forall j :: 0 <= j < i ==> !HasId(tasks[j], taskId)
    ensures FirstWithId(tasks, taskId) == Some(i)
  {
  }
}
