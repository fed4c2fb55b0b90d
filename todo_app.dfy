/** The TodoApp component's state and its event handlers. Each handler runs
    to completion before the next event, and its setter calls only ever
    read the state as it was when the handler started, so a handler is a
    method that updates the four state fields in place. The two inputs the
    component takes from its environment become parameters: the clock
    reading used as a new task's id, and the reply of the edit prompt. */
module App {
  import opened Text
  import opened TodoList

  datatype Option<T> = None | Some(value: T)

  /** The message addTask shows for a blank draft. */
  const EmptyTaskMessage: string := "Task should not be empty"

  /** The guard of handleEdit, `updatedTitle && updatedTitle.trim() !== ""`:
      a cancelled prompt (null) and the empty string are falsy, and a reply
      made only of whitespace trims to "". The guard accepts exactly the
      replies that hold a non-whitespace character. */
  function PromptAccepted(reply: Option<string>): (ok: bool)
    ensures ok <==> reply.Some? && exists k :: 0 <= k < |reply.value| && !IsWhitespace(reply.value[k])
  {
    reply.Some? && reply.value != "" && !IsBlank(reply.value)
  }

  class TodoApp {
    var todos: seq<Todo>
    var newTask: string
    var filter: string
    var errorMessage: string

    /** The initial state: no tasks, an empty draft, the "all" filter and no
        error message. */
    constructor ()
      ensures todos == [] && newTask == "" && filter == "all" && errorMessage == ""
    {
      todos := [];
      newTask := "";
      filter := "all";
      errorMessage := "";
    }

    /** filteredTodos, recomputed from the current state on every render:
        the tasks in their order, keeping only the completed ones when the
        filter is "completed". Being a function, it cannot change the state. */
    function FilteredTodos(): (r: seq<Todo>)
      reads this
      ensures IsSubsequence(r, todos)
      ensures forall x :: multiset(r)[x] == if filter != "completed" || x.completed then multiset(todos)[x] else 0
      ensures filter != "completed" ==> r == todos
    {
      if filter != "completed" then
        VisibleAll(todos, filter);
        Visible(todos, filter)
      else
        Visible(todos, filter)
    }

    /** addTask: a draft with a non-whitespace character becomes a new,
        uncompleted task at the front of the list, with the draft as its
        title verbatim; the draft and the error message are cleared. A blank
        draft changes only the error message. */
    method AddTask(freshId: int)
      modifies this
      ensures !IsBlank(old(newTask)) ==>
        todos == [Todo(freshId, old(newTask), false)] + old(todos) &&
        newTask == "" && errorMessage == ""
      ensures IsBlank(old(newTask)) ==>
        todos == old(todos) && newTask == old(newTask) && errorMessage == EmptyTaskMessage
      ensures filter == old(filter)
    {
      if !IsBlank(newTask) {
        var newTodo := Todo(freshId, newTask, false);
        todos := [newTodo] + todos;
        newTask := "";
        errorMessage := "";
      } else {
        errorMessage := EmptyTaskMessage;
      }
    }

    /** toggleTaskCompletion: only the task list changes. */
    method ToggleTaskCompletion(id: int)
      modifies this
      ensures todos == Toggle(old(todos), id)
      ensures newTask == old(newTask) && filter == old(filter) && errorMessage == old(errorMessage)
    {
      todos := Toggle(todos, id);
    }

    /** editTask: only the task list changes; the title is not checked. */
    method EditTask(id: int, newTitle: string)
      modifies this
      ensures todos == Edit(old(todos), id, newTitle)
      ensures newTask == old(newTask) && filter == old(filter) && errorMessage == old(errorMessage)
    {
      todos := Edit(todos, id, newTitle);
    }

    /** deleteTask: only the task list changes. */
    method DeleteTask(id: int)
      modifies this
      ensures todos == Delete(old(todos), id)
      ensures newTask == old(newTask) && filter == old(filter) && errorMessage == old(errorMessage)
    {
      todos := Delete(todos, id);
    }

    /** The "All" and "Completed" buttons: only the filter changes. */
    method SetFilter(mode: string)
      modifies this
      ensures filter == mode
      ensures todos == old(todos) && newTask == old(newTask) && errorMessage == old(errorMessage)
    {
      filter := mode;
    }

    /** handleInputChange: the draft takes the typed text verbatim and the
        error message is cleared; the tasks and the filter stay. */
    method HandleInputChange(value: string)
      modifies this
      ensures newTask == value && errorMessage == ""
      ensures todos == old(todos) && filter == old(filter)
    {
      newTask := value;
      errorMessage := "";
    }

    /** handleEdit, given the prompt's reply: a cancelled, empty or
        whitespace-only reply changes nothing; any other reply renames the
        tasks with that id to the reply, untrimmed. */
    method HandleEdit(id: int, reply: Option<string>)
      modifies this
      ensures PromptAccepted(reply) ==> todos == Edit(old(todos), id, reply.value)
      ensures !PromptAccepted(reply) ==> todos == old(todos)
      ensures newTask == old(newTask) && filter == old(filter) && errorMessage == old(errorMessage)
    {
      if PromptAccepted(reply) {
        EditTask(id, reply.value);
      }
    }
  }

  /** The visible count under the "all" filter grows by exactly one when a
      non-blank draft is added, and the new task is the first one shown. */
  method AddShowsNewTaskFirst(app: TodoApp, freshId: int)
    requires app.filter == "all"
    requires !IsBlank(app.newTask)
    modifies app
    ensures |app.FilteredTodos()| == |old(app.FilteredTodos())| + 1
    ensures app.FilteredTodos()[0] == Todo(freshId, old(app.newTask), false)
  {
    VisibleAll(app.todos, app.filter);
    app.AddTask(freshId);
    VisibleAll(app.todos, app.filter);
  }

  /** Worked examples of an add, a blank add and the completed view. */
  method Scenarios()
  {
    var app := new TodoApp();
    app.HandleInputChange("Buy milk");
    assert !IsWhitespace("Buy milk"[0]);
    app.AddTask(1);
    assert app.todos == [Todo(1, "Buy milk", false)] && app.newTask == "";

    app.HandleInputChange("   ");
    assert AllWhitespace("   ");
    app.AddTask(2);
    assert app.todos == [Todo(1, "Buy milk", false)];
    assert app.newTask == "   " && app.errorMessage == EmptyTaskMessage;

    var two := new TodoApp();
    two.todos := [Todo(1, "A", false), Todo(2, "B", true)];
    two.SetFilter("completed");
    assert two.FilteredTodos() == [Todo(2, "B", true)];
  }
}
