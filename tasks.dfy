/** The task list of the bundled example app (app/tasks.go): a user's tasks
    are a JSON array of `Task`; new tasks get the next free id and go to the
    front, a save replaces the text of the task with the given id, and a
    delete removes it. The handlers decode the array into a Go slice; the
    operations that change it in place work on an `array` here. */
module Tasks {
  import opened Results

  datatype Task = Task(id: int, task: string, done: bool)

  /** Go's zero `Task`. */
  const ZeroTask: Task := Task(0, "", false)

  /** No two tasks share an id. */
  ghost predicate UniqueIds(tasks: seq<Task>) {
    forall i, j :: 0 <= i < j < |tasks| ==> tasks[i].id != tasks[j].id
  }

  /** The largest id in the list, or 0 when none is larger (the starting
      value of `maxID`). */
  function MaxId(tasks: seq<Task>): (m: int)
    ensures m >= 0
    ensures forall k :: 0 <= k < |tasks| ==> tasks[k].id <= m
    ensures m == 0 || exists k :: 0 <= k < |tasks| && tasks[k].id == m
  {
    if tasks == [] then 0
    else
      var m := MaxId(tasks[..|tasks| - 1]);
      if m < tasks[|tasks| - 1].id then tasks[|tasks| - 1].id else m
  }

  /** `createTask`: the new task has the next id above every existing one,
      is not done, and goes in front of the old list. */
  method CreateTask(tasks: seq<Task>, text: string) returns (updated: seq<Task>, created: Task)
    ensures created == Task(MaxId(tasks) + 1, text, false)
    ensures forall k :: 0 <= k < |tasks| ==> tasks[k].id != created.id
    ensures updated == [created] + tasks
  {
    var maxId := 0;
    var i := 0;
    while i < |tasks|
      invariant 0 <= i <= |tasks|
      invariant maxId == MaxId(tasks[..i])
    {
      assert tasks[..i + 1][..i] == tasks[..i];
      if maxId < tasks[i].id {
        maxId := tasks[i].id;
      }
      i := i + 1;
    }
    assert tasks[..i] == tasks;
    created := Task(maxId + 1, text, false);
    updated := [created] + tasks;
  }

  /** Creating a task keeps the ids of a list unique. */
  lemma {:induction false} CreateKeepsIdsUnique(tasks: seq<Task>, text: string)
    requires UniqueIds(tasks)
    ensures UniqueIds([Task(MaxId(tasks) + 1, text, false)] + tasks)
  {
    var created := Task(MaxId(tasks) + 1, text, false);
    var updated := [created] + tasks;
    forall i, j | 0 <= i < j < |updated|
      ensures updated[i].id != updated[j].id
    {
      if i == 0 {
        assert updated[j] == tasks[j - 1];
      } else {
        assert updated[i] == tasks[i - 1] && updated[j] == tasks[j - 1];
      }
    }
  }

  /** The last task with the given id, if any. */
  function LastMatch(tasks: seq<Task>, id: int): (r: Option<Task>)
    ensures r.None? <==> forall k :: 0 <= k < |tasks| ==> tasks[k].id != id
    ensures r.Some? ==> exists k :: 0 <= k < |tasks| && tasks[k] == r.value && r.value.id == id
                                    && forall j :: k < j < |tasks| ==> tasks[j].id != id
  {
    if tasks == [] then None
    else if tasks[|tasks| - 1].id == id then Some(tasks[|tasks| - 1])
    else
      LastMatch(tasks[..|tasks| - 1], id)
  }

  /** The task a handler reports for a lookup: the match, or the zero task. */
  function OrZero(found: Option<Task>): Task {
    match found
    case Some(t) => t
    case None => ZeroTask
  }

  /** `editTask`: the last task with the id, or the zero task when none has
      it. */
  method EditTask(tasks: seq<Task>, id: int) returns (task: Task)
    ensures task == OrZero(LastMatch(tasks, id))
  {
    task := ZeroTask;
    var i := 0;
    while i < |tasks|
      invariant 0 <= i <= |tasks|
      invariant task == OrZero(LastMatch(tasks[..i], id))
    {
      assert tasks[..i + 1][..i] == tasks[..i];
      if tasks[i].id == id {
        task := tasks[i];
      }
      i := i + 1;
    }
    assert tasks[..i] == tasks;
  }

  /** A task after a save of `text` under `id`: renamed when the id matches,
      id and done flag kept. */
  function Saved(t: Task, id: int, text: string): (r: Task)
    ensures r.id == t.id && r.done == t.done
    ensures r.task == (if t.id == id then text else t.task)
  {
    if t.id == id then Task(t.id, text, t.done) else t
  }

  /** The task `saveTask` reports: the last task with the id as saved, or
      the zero task when none has it. */
  function SaveReport(tasks: seq<Task>, id: int, text: string): Task {
    match LastMatch(tasks, id)
    case Some(t) => Saved(t, id, text)
    case None => ZeroTask
  }

  /** `saveTask`: every task with the id gets the new text and keeps its id
      and done flag; the others are unchanged. The reported task is the last
      one saved, or the zero task when none matched. */
  method SaveTask(a: array<Task>, id: int, text: string) returns (savedTask: Task)
    modifies a
    ensures forall k :: 0 <= k < a.Length ==> a[k] == Saved(old(a[k]), id, text)
    ensures savedTask == SaveReport(old(a[..]), id, text)
  {
    savedTask := ZeroTask;
    ghost var original := a[..];
    var k := 0;
    while k < a.Length
      invariant 0 <= k <= a.Length
      invariant forall j :: 0 <= j < k ==> a[j] == Saved(original[j], id, text)
      invariant forall j :: k <= j < a.Length ==> a[j] == original[j]
      invariant savedTask == SaveReport(original[..k], id, text)
    {
      assert original[..k + 1][..k] == original[..k];
      var v := a[k];
      if v.id == id {
        savedTask := Task(v.id, text, v.done);
        a[k] := savedTask;
      }
      k := k + 1;
    }
    assert original[..k] == original;
  }

  /** The list without the tasks carrying the id. */
  function Without(tasks: seq<Task>, id: int): (r: seq<Task>)
    ensures |r| <= |tasks|
    ensures forall k :: 0 <= k < |r| ==> r[k].id != id
  {
    if tasks == [] then []
    else (if tasks[0].id == id then [] else [tasks[0]]) + Without(tasks[1..], id)
  }

  /** Without a task carrying the id, nothing is removed. */
  lemma {:induction false} WithoutNoMatch(tasks: seq<Task>, id: int)
    requires forall k :: 0 <= k < |tasks| ==> tasks[k].id != id
    ensures Without(tasks, id) == tasks
  {
    if tasks != [] {
      WithoutNoMatch(tasks[1..], id);
    }
  }

  /** With exactly one task carrying the id, just that one is removed. */
  lemma {:induction false} WithoutOneMatch(tasks: seq<Task>, id: int, m: int)
    requires 0 <= m < |tasks| && tasks[m].id == id
    requires forall k :: 0 <= k < |tasks| && k != m ==> tasks[k].id != id
    ensures Without(tasks, id) == tasks[..m] + tasks[m + 1..]
  {
    if m == 0 {
      WithoutNoMatch(tasks[1..], id);
    } else {
      WithoutOneMatch(tasks[1..], id, m - 1);
      assert tasks[1..][..m - 1] == tasks[1..m];
      assert tasks[1..][m..] == tasks[m + 1..];
      assert [tasks[0]] + tasks[1..m] == tasks[..m];
    }
  }

  /** `deleteTask`: the range loop walks the original length over the
      slice's backing array while `append(taskArr[:k], taskArr[k+1:]...)`
      shifts the tail left in place and shortens the slice. The result is
      the new length, or `Err` where Go panics (`taskArr[k+1:]` past the
      current length, which only duplicate ids reach). With unique ids the
      task is removed and the rest keep their order. */
  method DeleteTask(a: array<Task>, id: int) returns (r: Result<nat, string>)
    modifies a
    ensures r.Ok? ==> r.value <= a.Length
    ensures UniqueIds(old(a[..])) ==> r.Ok? && a[..r.value] == Without(old(a[..]), id)
  {
    ghost var original := a[..];
    ghost var removedAt := -1;
    var len := a.Length;
    var k := 0;
    while k < a.Length
      invariant 0 <= k <= a.Length && 0 <= len <= a.Length
      invariant UniqueIds(original) && removedAt < 0 ==>
        len == a.Length && a[..] == original && forall j :: 0 <= j < k ==> original[j].id != id
      invariant UniqueIds(original) && removedAt >= 0 ==>
        removedAt < k && original[removedAt].id == id && len == a.Length - 1
        && a[..len] == original[..removedAt] + original[removedAt + 1..]
        && a[len] == original[len]
    {
      var v := a[k];
      if v.id == id {
        if k + 1 > len {
          return Err("slice bounds out of range");
        }
        ghost var before := a[..];
        forall j | k <= j < len - 1 {
          a[j] := a[j + 1];
        }
        assert UniqueIds(original) ==> removedAt < 0;
        removedAt := k;
        len := len - 1;
        assert UniqueIds(original) ==> a[..len] == original[..removedAt] + original[removedAt + 1..] by {
          if UniqueIds(original) {
            assert before == original;
            assert forall j :: 0 <= j < len ==> a[j] == (if j < k then original[j] else original[j + 1]);
          }
        }
      }
      k := k + 1;
    }
    if UniqueIds(original) {
      if removedAt < 0 {
        WithoutNoMatch(original, id);
        assert a[..len] == original;
      } else {
        WithoutOneMatch(original, id, removedAt);
      }
    }
    return Ok(len);
  }
}
