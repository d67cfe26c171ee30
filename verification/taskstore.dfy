/**
 * The list of tasks and its four updates: add a task, replace a task by id,
 * delete by id and toggle completion by id. Each update builds a new list
 * from the previous one; the id and the creation time of a new task are
 * parameters (the source takes them from the clock).
 */
module TaskStore {
  import opened Wrappers
  import opened Dates
  import opened TaskParser

  datatype Task = Task(
    id: string,
    name: string,
    assignee: Option<string>,
    dueDate: Option<Date>,
    priority: Priority,
    completed: bool,
    createdAt: Date)

  /** The ids of the tasks, in list order. */
  function Ids(tasks: seq<Task>): (r: seq<string>)
    ensures |r| == |tasks| && forall i :: 0 <= i < |tasks| ==> r[i] == tasks[i].id
  {
    if tasks == [] then [] else Ids(tasks[..|tasks| - 1]) + [tasks[|tasks| - 1].id]
  }

  predicate HasId(tasks: seq<Task>, id: string) {
    exists i :: 0 <= i < |tasks| && tasks[i].id == id
  }

  // ---------------------------------------------------------------------------
  // addTask

  /** What `addTask` builds: the given fields, not completed, with the given id and creation time. */
  function NewTask(data: TaskDraft, id: string, createdAt: Date): (t: Task)
    ensures t.id == id && !t.completed && t.createdAt == createdAt
    ensures t.name == data.name && t.assignee == data.assignee
    ensures t.dueDate == data.dueDate && t.priority == data.priority
  {
    Task(id, data.name, data.assignee, data.dueDate, data.priority, false, createdAt)
  }

  /** `addTask`: the new list (the old one with the new task at its end) and the new task. */
  function AddTask(tasks: seq<Task>, data: TaskDraft, id: string, createdAt: Date): (r: (seq<Task>, Task))
    ensures r.1 == NewTask(data, id, createdAt)
    ensures |r.0| == |tasks| + 1 && r.0[..|tasks|] == tasks && r.0[|tasks|] == r.1
  {
    var task := NewTask(data, id, createdAt);
    (tasks + [task], task)
  }

  lemma AddTaskIds(tasks: seq<Task>, data: TaskDraft, id: string, createdAt: Date)
    ensures multiset(Ids(AddTask(tasks, data, id, createdAt).0)) == multiset(Ids(tasks)) + multiset{id}
  {
    var r := AddTask(tasks, data, id, createdAt).0;
    assert Ids(r) == Ids(tasks) + [id];
  }

  // ---------------------------------------------------------------------------
  // updateTask

  /** `updateTask`: every task whose id is the updated task's id is replaced by it. */
  function UpdateTask(tasks: seq<Task>, updated: Task): (r: seq<Task>)
    ensures |r| == |tasks|
    ensures forall i :: 0 <= i < |tasks| && tasks[i].id == updated.id ==> r[i] == updated
    ensures forall i :: 0 <= i < |tasks| && tasks[i].id != updated.id ==> r[i] == tasks[i]
  {
    if tasks == [] then []
    else
      var last := tasks[|tasks| - 1];
      UpdateTask(tasks[..|tasks| - 1], updated) + [if last.id == updated.id then updated else last]
  }

  /** Replacing keeps the ids and their order; with no task of that id, nothing changes. */
  lemma UpdateTaskIds(tasks: seq<Task>, updated: Task)
    ensures Ids(UpdateTask(tasks, updated)) == Ids(tasks)
    ensures !HasId(tasks, updated.id) ==> UpdateTask(tasks, updated) == tasks
  {
  }

  lemma UpdateTaskIdempotent(tasks: seq<Task>, updated: Task)
    ensures UpdateTask(UpdateTask(tasks, updated), updated) == UpdateTask(tasks, updated)
  {
  }

  // ---------------------------------------------------------------------------
  // deleteTask

  /** `deleteTask`: the tasks whose id is not `id`, in their original order. */
  function DeleteTask(tasks: seq<Task>, id: string): (r: seq<Task>)
    ensures |r| <= |tasks|
    ensures forall t :: t in r ==> t in tasks && t.id != id
  {
    if tasks == [] then []
    else
      var rest := DeleteTask(tasks[..|tasks| - 1], id);
      var last := tasks[|tasks| - 1];
      if last.id == id then rest else rest + [last]
  }

  /** Every task without id `id` stays as often as it was there; every task with it goes. */
  lemma {:induction false} DeleteTaskCounts(tasks: seq<Task>, id: string)
    ensures forall t :: multiset(DeleteTask(tasks, id))[t] == if t.id == id then 0 else multiset(tasks)[t]
  {
    if tasks != [] {
      var init := tasks[..|tasks| - 1];
      var last := tasks[|tasks| - 1];
      DeleteTaskCounts(init, id);
      assert tasks == init + [last];
      assert multiset(tasks) == multiset(init) + multiset{last};
    }
  }

  /** Deleting from a concatenation deletes from each part, so the kept tasks stay in their order. */
  lemma {:induction false} DeleteTaskConcat(a: seq<Task>, b: seq<Task>, id: string)
    ensures DeleteTask(a + b, id) == DeleteTask(a, id) + DeleteTask(b, id)
    decreases |b|
  {
    if b == [] {
      assert a + b == a;
    } else {
      var init := b[..|b| - 1];
      var last := b[|b| - 1];
      assert (a + b)[..|a + b| - 1] == a + init;
      assert (a + b)[|a + b| - 1] == last;
      DeleteTaskConcat(a, init, id);
    }
  }

  /** One task: it goes when it has the id, and stays otherwise. */
  lemma DeleteTaskSingle(t: Task, id: string)
    ensures DeleteTask([t], id) == if t.id == id then [] else [t]
  {
  }

  /** Deleting a missing id leaves the list as it was. */
  lemma {:induction false} DeleteMissing(tasks: seq<Task>, id: string)
    requires !HasId(tasks, id)
    ensures DeleteTask(tasks, id) == tasks
  {
    if tasks != [] {
      var init := tasks[..|tasks| - 1];
      var last := tasks[|tasks| - 1];
      assert !HasId(init, id) by {
        forall i | 0 <= i < |init|
          ensures init[i].id != id
        {
          assert init[i] == tasks[i];
        }
      }
      DeleteMissing(init, id);
      assert last.id != id;
      assert DeleteTask(tasks, id) == DeleteTask(init, id) + [last];
      assert tasks == init + [last];
    }
  }

  /** Deleting only removes: the remaining ids are the old ones less every occurrence of `id`. */
  lemma {:induction false} DeleteTaskIds(tasks: seq<Task>, id: string)
    ensures multiset(Ids(DeleteTask(tasks, id))) <= multiset(Ids(tasks))
    ensures id !in Ids(DeleteTask(tasks, id))
  {
    if tasks != [] {
      var init := tasks[..|tasks| - 1];
      var last := tasks[|tasks| - 1];
      DeleteTaskIds(init, id);
      assert Ids(tasks) == Ids(init) + [last.id];
      if last.id != id {
        assert Ids(DeleteTask(tasks, id)) == Ids(DeleteTask(init, id)) + [last.id];
      }
    }
  }

  // ---------------------------------------------------------------------------
  // toggleTaskCompletion

  /** `toggleTaskCompletion`: the tasks with id `id` have `completed` flipped; nothing else changes. */
  function ToggleTaskCompletion(tasks: seq<Task>, id: string): (r: seq<Task>)
    ensures |r| == |tasks|
    ensures forall i :: 0 <= i < |tasks| && tasks[i].id == id ==> r[i] == tasks[i].(completed := !tasks[i].completed)
    ensures forall i :: 0 <= i < |tasks| && tasks[i].id != id ==> r[i] == tasks[i]
  {
    if tasks == [] then []
    else
      var last := tasks[|tasks| - 1];
      ToggleTaskCompletion(tasks[..|tasks| - 1], id) + [if last.id == id then last.(completed := !last.completed) else last]
  }

  /** Toggling twice restores the list; toggling keeps the ids and their order. */
  lemma ToggleTwice(tasks: seq<Task>, id: string)
    ensures ToggleTaskCompletion(ToggleTaskCompletion(tasks, id), id) == tasks
    ensures Ids(ToggleTaskCompletion(tasks, id)) == Ids(tasks)
  {
    var once := ToggleTaskCompletion(tasks, id);
    var twice := ToggleTaskCompletion(once, id);
    forall i | 0 <= i < |tasks|
      ensures twice[i] == tasks[i] && once[i].id == tasks[i].id
    {
    }
  }
}
