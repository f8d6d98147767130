/** The `useTodos` hook of utils/hooks/useTodos.ts: one user's task list,
    loaded newest first, with an add that ignores blank tasks, a toggle and a
    rename that patch matching ids, and a delete, each applied to the list
    only when the Supabase call reported no error. */
module UseTodos {
  import opened Common
  import opened Text
  import Lists

  /** A row of the `todos` table. */
  datatype Todo = Todo(id: string, userId: string, task: string, completed: bool, createdAt: string, updatedAt: string)

  /** The Supabase calls the hook makes. */
  datatype TodoCall =
    | SelectTodos(userId: string, orderBy: string, ascending: bool)
    | InsertTodo(task: string, completed: bool, userId: string)
    | UpdateCompleted(id: string, completed: bool)
    | UpdateTask(id: string, task: string)
    | DeleteTodoRow(id: string)

  function TodoId(t: Todo): string {
    t.id
  }

  /** `{ ...todo, completed: value }`. */
  function SetCompleted(value: bool): Todo -> Todo {
    (t: Todo) => t.(completed := value)
  }

  /** `{ ...todo, task: value }`. */
  function SetTask(value: string): Todo -> Todo {
    (t: Todo) => t.(task := value)
  }

  /** The list after `toggleComplete(id, completed)` succeeded. */
  function Toggled(todos: seq<Todo>, id: string, completed: bool): seq<Todo> {
    Lists.UpdateKey(todos, TodoId, id, SetCompleted(!completed))
  }

  /** The list after `updateTodo(id, task)` succeeded. */
  function Retasked(todos: seq<Todo>, id: string, task: string): seq<Todo> {
    Lists.UpdateKey(todos, TodoId, id, SetTask(task))
  }

  /** The list after `deleteTodo(id)` succeeded. */
  function WithoutTodo(todos: seq<Todo>, id: string): seq<Todo> {
    Lists.RemoveKey(todos, TodoId, id)
  }

  /** A toggle keeps the list's length and order, sets `completed` of the
      matching entries to the negated argument (not to the negation of
      their stored value) and leaves every other entry and field alone. */
  lemma ToggledSpec(todos: seq<Todo>, id: string, completed: bool)
    ensures |Toggled(todos, id, completed)| == |todos|
    ensures forall i :: 0 <= i < |todos| && todos[i].id == id ==>
      Toggled(todos, id, completed)[i] == todos[i].(completed := !completed)
    ensures forall i :: 0 <= i < |todos| && todos[i].id != id ==> Toggled(todos, id, completed)[i] == todos[i]
  {
  }

  /** A second toggle with the value the first one wrote restores the list,
      provided the matching entries held the value the first toggle was
      told they held. */
  lemma ToggleTwiceRestores(todos: seq<Todo>, id: string, completed: bool)
    requires forall i :: 0 <= i < |todos| && todos[i].id == id ==> todos[i].completed == completed
    ensures Toggled(Toggled(todos, id, completed), id, !completed) == todos
  {
    var once := Toggled(todos, id, completed);
    var twice := Toggled(once, id, !completed);
    assert |twice| == |todos|;
    forall i | 0 <= i < |todos|
      ensures twice[i] == todos[i]
    {
      assert once[i].id == todos[i].id;
    }
  }

  /** Toggling twice with the same argument is toggling once: the written
      value depends only on the argument. */
  lemma ToggledIdempotent(todos: seq<Todo>, id: string, completed: bool)
    ensures Toggled(Toggled(todos, id, completed), id, completed) == Toggled(todos, id, completed)
  {
    var once := Toggled(todos, id, completed);
    var twice := Toggled(once, id, completed);
    forall i | 0 <= i < |todos|
      ensures twice[i] == once[i]
    {
      assert once[i].id == todos[i].id;
    }
  }

  /** An update keeps the list's length and order and replaces only `task`
      of the matching entries. */
  lemma RetaskedSpec(todos: seq<Todo>, id: string, task: string)
    ensures |Retasked(todos, id, task)| == |todos|
    ensures forall i :: 0 <= i < |todos| && todos[i].id == id ==> Retasked(todos, id, task)[i] == todos[i].(task := task)
    ensures forall i :: 0 <= i < |todos| && todos[i].id != id ==> Retasked(todos, id, task)[i] == todos[i]
  {
  }

  /** A delete drops exactly the entries with the id: none is left, the
      others keep their multiplicity and their order. */
  lemma WithoutTodoSpec(todos: seq<Todo>, id: string)
    ensures forall t :: t in WithoutTodo(todos, id) ==> t.id != id
    ensures forall t: Todo :: t.id != id ==> multiset(WithoutTodo(todos, id))[t] == multiset(todos)[t]
    ensures Lists.SubsequenceOf(WithoutTodo(todos, id), todos)
  {
    Lists.RemoveKeySpec(todos, TodoId, id);
  }

  class TodoHook {
    const userId: string
    var todos: seq<Todo>
    var loading: bool
    /** The Supabase calls made so far, oldest first. */
    ghost var calls: seq<TodoCall>

    constructor (userId: string)
      ensures this.userId == userId && todos == [] && !loading && calls == []
    {
      this.userId := userId;
      todos := [];
      loading := false;
      calls := [];
    }

    /** `fetchTodos`, run when the user changes: the user's rows, newest
        first; an error keeps the list, a null answer empties it. */
    method Load(answer: Db<Option<seq<Todo>>>)
      modifies this
      ensures calls == old(calls) + [SelectTodos(userId, "created_at", false)]
      ensures todos == match answer
        case Failed(_) => old(todos)
        case Done(data) => data.GetOr([])
      ensures loading == old(loading)
    {
      calls := calls + [SelectTodos(userId, "created_at", false)];
      match answer {
        case Failed(_) =>
        case Done(data) =>
          todos := data.GetOr([]);
      }
    }

    /** `addTodo`: a task made only of white space is ignored outright: no
        insert and `loading` untouched. Otherwise the task is inserted as
        given (untrimmed, not completed), the returned row goes in front of
        the list unless the insert failed, and `loading` ends false. */
    method AddTodo(task: string, answer: Db<Todo>)
      modifies this
      ensures Blank(task) ==> todos == old(todos) && loading == old(loading) && calls == old(calls)
      ensures !Blank(task) ==> calls == old(calls) + [InsertTodo(task, false, userId)] && !loading
      ensures !Blank(task) ==> todos == match answer
        case Failed(_) => old(todos)
        case Done(row) => [row] + old(todos)
    {
      TrimEmptyIffBlank(task);
      if Trim(task) == "" {
        return;
      }
      loading := true;
      calls := calls + [InsertTodo(task, false, userId)];
      match answer {
        case Failed(_) =>
        case Done(row) =>
          todos := [row] + todos;
      }
      loading := false;
    }

    /** `toggleComplete(id, completed)`: writes `!completed` to the matching
        rows and, without an error, to the matching entries of the list. */
    method ToggleComplete(id: string, completed: bool, error: Option<string>)
      modifies this
      ensures calls == old(calls) + [UpdateCompleted(id, !completed)]
      ensures todos == if error.Some? then old(todos) else Toggled(old(todos), id, completed)
      ensures loading == old(loading)
    {
      calls := calls + [UpdateCompleted(id, !completed)];
      if error.None? {
        todos := Toggled(todos, id, completed);
      }
    }

    /** `deleteTodo(id)`: without an error the entries with the id leave the
        list. */
    method DeleteTodo(id: string, error: Option<string>)
      modifies this
      ensures calls == old(calls) + [DeleteTodoRow(id)]
      ensures todos == if error.Some? then old(todos) else WithoutTodo(old(todos), id)
      ensures loading == old(loading)
    {
      calls := calls + [DeleteTodoRow(id)];
      if error.None? {
        todos := WithoutTodo(todos, id);
      }
    }

    /** `updateTodo(id, newTask)`: a blank task is ignored with no call;
        otherwise, without an error, the matching entries take the task as
        given. */
    method UpdateTodo(id: string, newTask: string, error: Option<string>)
      modifies this
      ensures Blank(newTask) ==> todos == old(todos) && calls == old(calls)
      ensures !Blank(newTask) ==> calls == old(calls) + [UpdateTask(id, newTask)]
      ensures !Blank(newTask) ==> todos == if error.Some? then old(todos) else Retasked(old(todos), id, newTask)
      ensures loading == old(loading)
    {
      TrimEmptyIffBlank(newTask);
      if Trim(newTask) == "" {
        return;
      }
      calls := calls + [UpdateTask(id, newTask)];
      if error.None? {
        todos := Retasked(todos, id, newTask);
      }
    }
  }

  /** Toggling a task and toggling it back through the hook restores the
      list when both calls succeed. */
  method ToggleBackScenario(hook: TodoHook, id: string)
    requires forall i :: 0 <= i < |hook.todos| && hook.todos[i].id == id ==> !hook.todos[i].completed
    modifies hook
    ensures hook.todos == old(hook.todos)
  {
    hook.ToggleComplete(id, false, None);
    hook.ToggleComplete(id, true, None);
    ToggleTwiceRestores(old(hook.todos), id, false);
  }
}
