/** The task list of the to-do component and the pure transformations the
    component builds new lists with: a per-task map for toggling completion
    and for renaming, and a filter for deletion and for the "completed"
    view. Ids are compared with equality on every entry, and nothing here
    assumes that ids are unique: a transformation by id touches every entry
    that carries it. */
module TodoList {

  /** One to-do entry. Ids come from the remote list or from the clock when a
      task is added, so they are plain integers. */
  datatype Todo = Todo(id: int, title: string, completed: bool)

  /** The ids that occur in a list. */
  function Ids(todos: seq<Todo>): set<int> {
    set t | t in todos :: t.id
  }

  /** Number of entries that carry the given id. */
  function CountId(todos: seq<Todo>, id: int): (n: nat)
    ensures n <= |todos|
    ensures n == 0 <==> id !in Ids(todos)
  {
    if todos == [] then 0
    else (if todos[0].id == id then 1 else 0) + CountId(todos[1..], id)
  }

  /** No id occurs twice. The component never enforces this; it is used only
      as the hypothesis of the lemmas that say what happens when it holds. */
  predicate UniqueIds(todos: seq<Todo>) {
    forall i, j :: 0 <= i < j < |todos| ==> todos[i].id != todos[j].id
  }

  // ---------------------------------------------------------------------
  // Subsequences and filtering (Array.prototype.filter)
  // ---------------------------------------------------------------------

  /** r can be obtained from s by deleting entries, keeping the order. */
  predicate IsSubsequence(r: seq<Todo>, s: seq<Todo>) {
    r == [] ||
    (s != [] && ((r[0] == s[0] && IsSubsequence(r[1..], s[1..])) || IsSubsequence(r, s[1..])))
  }

  /** The entries of s that satisfy keep, in their original order. The
      contract pins the result down: an order-preserving subsequence that
      holds every copy of every kept entry and nothing else. */
  function Filter(s: seq<Todo>, keep: Todo -> bool): (r: seq<Todo>)
    ensures IsSubsequence(r, s)
    ensures forall x :: multiset(r)[x] == if keep(x) then multiset(s)[x] else 0
    ensures forall k :: 0 <= k < |r| ==> keep(r[k])
  {
    if s == [] then []
    else
      var rest := Filter(s[1..], keep);
      assert s == [s[0]] + s[1..];
      if keep(s[0]) then
        assert ([s[0]] + rest)[1..] == rest;
        [s[0]] + rest
      else rest
  }

  /** Filtering with a predicate that every entry satisfies changes nothing. */
  lemma {:induction false} FilterAllKept(s: seq<Todo>, keep: Todo -> bool)
    requires forall k :: 0 <= k < |s| ==> keep(s[k])
    ensures Filter(s, keep) == s
  {
    if s != [] {
      FilterAllKept(s[1..], keep);
      assert s == [s[0]] + s[1..];
    }
  }

  // ---------------------------------------------------------------------
  // toggleTaskCompletion
  // ---------------------------------------------------------------------

  /** todos.map(todo => todo.id === id ? {...todo, completed: !todo.completed} : todo) */
  function Toggle(todos: seq<Todo>, id: int): (r: seq<Todo>)
    ensures |r| == |todos|
    ensures forall k :: 0 <= k < |r| ==>
      r[k].id == todos[k].id && r[k].title == todos[k].title &&
      (todos[k].id == id ==> r[k].completed == !todos[k].completed) &&
      (todos[k].id != id ==> r[k] == todos[k])
  {
    if todos == [] then []
    else
      var t := todos[0];
      [if t.id == id then t.(completed := !t.completed) else t] + Toggle(todos[1..], id)
  }

  /** Toggling the same id twice gives back the original list. */
  lemma ToggleTwice(todos: seq<Todo>, id: int)
    ensures Toggle(Toggle(todos, id), id) == todos
  {
  }

  /** Toggling an id that no entry carries changes nothing. */
  lemma ToggleAbsent(todos: seq<Todo>, id: int)
    requires id !in Ids(todos)
    ensures Toggle(todos, id) == todos
  {
  }

  /** Toggling keeps the set of ids (so it keeps ids unique when they are). */
  lemma ToggleKeepsIds(todos: seq<Todo>, id: int)
    ensures Ids(Toggle(todos, id)) == Ids(todos)
    ensures UniqueIds(todos) ==> UniqueIds(Toggle(todos, id))
  {
  }

  // ---------------------------------------------------------------------
  // editTask
  // ---------------------------------------------------------------------

  /** todos.map(todo => todo.id === id ? {...todo, title: newTitle} : todo) */
  function Edit(todos: seq<Todo>, id: int, newTitle: string): (r: seq<Todo>)
    ensures |r| == |todos|
    ensures forall k :: 0 <= k < |r| ==>
      r[k].id == todos[k].id && r[k].completed == todos[k].completed &&
      (todos[k].id == id ==> r[k].title == newTitle) &&
      (todos[k].id != id ==> r[k] == todos[k])
  {
    if todos == [] then []
    else
      var t := todos[0];
      [if t.id == id then t.(title := newTitle) else t] + Edit(todos[1..], id, newTitle)
  }

  /** Renaming an id that no entry carries changes nothing. */
  lemma EditAbsent(todos: seq<Todo>, id: int, newTitle: string)
    requires id !in Ids(todos)
    ensures Edit(todos, id, newTitle) == todos
  {
  }

  /** Renaming twice to the same title is the same as renaming once, and the
      second of two renames of one id wins. */
  lemma EditTwice(todos: seq<Todo>, id: int, first: string, second: string)
    ensures Edit(Edit(todos, id, first), id, second) == Edit(todos, id, second)
  {
  }

  /** Renaming and toggling touch different fields, so their order does not
      matter. */
  lemma EditToggleCommute(todos: seq<Todo>, editId: int, newTitle: string, toggleId: int)
    ensures Toggle(Edit(todos, editId, newTitle), toggleId) == Edit(Toggle(todos, toggleId), editId, newTitle)
  {
  }

  // ---------------------------------------------------------------------
  // deleteTask
  // ---------------------------------------------------------------------

  /** The predicate deleteTask filters with: the entry does not carry id. */
  function OtherId(id: int): Todo -> bool {
    (t: Todo) => t.id != id
  }

  /** todos.filter(todo => todo.id !== id) */
  function Delete(todos: seq<Todo>, id: int): (r: seq<Todo>)
    ensures IsSubsequence(r, todos)
    ensures forall x :: multiset(r)[x] == if x.id == id then 0 else multiset(todos)[x]
    ensures id !in Ids(r)
  {
    Filter(todos, OtherId(id))
  }

  /** Deleting removes exactly the entries that carry the id. */
  lemma {:induction false} DeleteLength(todos: seq<Todo>, id: int)
    ensures |Delete(todos, id)| == |todos| - CountId(todos, id)
  {
    if todos != [] {
      DeleteLength(todos[1..], id);
      assert todos == [todos[0]] + todos[1..];
    }
  }

  /** Deleting an id that no entry carries changes nothing. */
  lemma DeleteAbsent(todos: seq<Todo>, id: int)
    requires id !in Ids(todos)
    ensures Delete(todos, id) == todos
  {
    forall k | 0 <= k < |todos| ensures todos[k].id != id {
      assert todos[k] in todos;
    }
    FilterAllKept(todos, OtherId(id));
  }

  /** Deleting twice is deleting once. */
  lemma DeleteTwice(todos: seq<Todo>, id: int)
    ensures Delete(Delete(todos, id), id) == Delete(todos, id)
  {
    DeleteAbsent(Delete(todos, id), id);
  }

  /** With unique ids, deleting a present id removes exactly one entry. */
  lemma {:induction false} DeleteUniqueRemovesOne(todos: seq<Todo>, id: int)
    requires UniqueIds(todos)
    requires id in Ids(todos)
    ensures |Delete(todos, id)| == |todos| - 1
  {
    DeleteLength(todos, id);
    CountIdUnique(todos, id);
  }

  /** With unique ids an id occurs at most once. */
  lemma {:induction false} CountIdUnique(todos: seq<Todo>, id: int)
    requires UniqueIds(todos)
    ensures CountId(todos, id) <= 1
  {
    if todos != [] {
      CountIdUnique(todos[1..], id);
      if todos[0].id == id {
        forall k | 0 <= k < |todos| - 1 ensures todos[1..][k].id != id {
          assert todos[1..][k] == todos[k + 1];
        }
        assert id !in Ids(todos[1..]);
      }
    }
  }

  /** Deleting the id of a task just prepended with a fresh id gives back
      the list it was prepended to: addTask is undone by deleteTask. */
  lemma DeleteUndoesAdd(todos: seq<Todo>, t: Todo)
    requires t.id !in Ids(todos)
    ensures Delete([t] + todos, t.id) == todos
  {
    assert ([t] + todos)[1..] == todos;
    DeleteAbsent(todos, t.id);
  }

  /** Toggling an entry and then deleting it is the same as deleting it. */
  lemma {:induction false} DeleteAfterToggle(todos: seq<Todo>, id: int)
    ensures Delete(Toggle(todos, id), id) == Delete(todos, id)
  {
    if todos != [] {
      DeleteAfterToggle(todos[1..], id);
      assert Toggle(todos, id)[1..] == Toggle(todos[1..], id);
    }
  }

  // ---------------------------------------------------------------------
  // filteredTodos
  // ---------------------------------------------------------------------

  /** The predicate the view filters with: every entry, unless the filter
      is "completed", in which case the completed entries. */
  function Shown(filter: string): Todo -> bool {
    (t: Todo) => if filter == "completed" then t.completed else true
  }

  /** todos.filter(todo => filter === "completed" ? todo.completed : true).
      The result is pinned down by its contract: the order-preserving
      subsequence holding every copy of each entry the filter admits. */
  function Visible(todos: seq<Todo>, filter: string): (r: seq<Todo>)
    ensures IsSubsequence(r, todos)
    ensures forall x :: multiset(r)[x] == if filter != "completed" || x.completed then multiset(todos)[x] else 0
    ensures filter == "completed" ==> forall k :: 0 <= k < |r| ==> r[k].completed
  {
    Filter(todos, Shown(filter))
  }

  /** Any filter value other than "completed" shows the whole list. */
  lemma VisibleAll(todos: seq<Todo>, filter: string)
    requires filter != "completed"
    ensures Visible(todos, filter) == todos
  {
    FilterAllKept(todos, Shown(filter));
  }

  /** The completed view of a list in which everything is completed is the
      whole list, and the completed view never grows. */
  lemma {:induction false} VisibleCompletedLength(todos: seq<Todo>)
    ensures |Visible(todos, "completed")| <= |todos|
    ensures (forall k :: 0 <= k < |todos| ==> todos[k].completed) ==> Visible(todos, "completed") == todos
  {
    SubsequenceLength(Visible(todos, "completed"), todos);
    if forall k :: 0 <= k < |todos| ==> todos[k].completed {
      FilterAllKept(todos, Shown("completed"));
    }
  }

  /** A subsequence is never longer than the sequence it comes from. */
  lemma {:induction false} SubsequenceLength(r: seq<Todo>, s: seq<Todo>)
    requires IsSubsequence(r, s)
    ensures |r| <= |s|
  {
    if r != [] {
      if r[0] == s[0] && IsSubsequence(r[1..], s[1..]) {
        SubsequenceLength(r[1..], s[1..]);
      } else {
        SubsequenceLength(r, s[1..]);
      }
    }
  }

  /** Adding a task whose id is not yet used keeps ids unique. */
  lemma PrependFreshKeepsUnique(todos: seq<Todo>, t: Todo)
    requires UniqueIds(todos)
    requires t.id !in Ids(todos)
    ensures UniqueIds([t] + todos)
    ensures Ids([t] + todos) == Ids(todos) + {t.id}
  {
  }
}
