/**
 * The run-time routines of misc.ts: the module-level todo list that
 * `addTodoItem` appends to, the duplicated "next id" reducer, and the
 * generic predicate `query` filter.
 */
module Misc {
  import opened Wrappers
  import opened JsValues
  import NextId

  // ---------------------------------------------------------------------
  // Todo items
  // ---------------------------------------------------------------------

  /** `TodoDate = Date | number | string`; only carried along, never inspected. */
  datatype TodoDate = Date(iso: string) | Timestamp(ms: real) | DateString(s: string)

  /** `interface Todo`; `completedOn` is optional. */
  datatype Todo = Todo(id: int, title: string, status: string, completedOn: Option<TodoDate>)

  /** The values of `enum Status`. */
  const StatusInProgress: string := "in-progress"
  const StatusTodo: string := "todo"

  /** The initial contents of `todoItems`. */
  const SeedTodos: seq<Todo> := [
    Todo(1, "Learn HTML", "done", Some(Date("2021-09-11"))),
    Todo(2, "Learn TypeScript", StatusInProgress, None),
    Todo(3, "Write the best app in the world", StatusTodo, None)
  ]

  /** `getNextID`: the same reducer as `getNextId`, over todo ids: min(0, smallest id) + 1. */
  function GetNextID(items: seq<Todo>): (r: int)
    ensures r <= 1
    ensures forall i :: 0 <= i < |items| ==> r <= items[i].id + 1
    ensures r == 1 || exists i :: 0 <= i < |items| && r == items[i].id + 1
  {
    NextId.GetNextId(items, (t: Todo) => t.id)
  }

  /** With an empty list `getNextID` gives 1. */
  lemma NextIDOfEmpty()
    ensures GetNextID([]) == 1
  {
  }

  /**
   * Whenever some todo already has id 1 and no id is negative, the id
   * handed out is that same 1: the append does not keep ids unique.
   */
  lemma NextIDDuplicatesOne(items: seq<Todo>, k: nat)
    requires k < |items| && items[k].id == 1
    requires forall i :: 0 <= i < |items| ==> items[i].id >= 0
    ensures GetNextID(items) == items[k].id
  {
    NextId.NextIdOfNonNegativeIds(items, (t: Todo) => t.id);
  }

  /** The module-level `todoItems` array, which `addTodoItem` pushes onto. */
  class TodoList {
    var todoItems: seq<Todo>

    /** The module as loaded: the three seed todos. */
    constructor ()
      ensures todoItems == SeedTodos
    {
      todoItems := SeedTodos;
    }

    /**
     * `addTodoItem(todo)`: builds a todo with the next id, the given
     * title and status "todo", pushes it and returns it.
     */
    method AddTodoItem(todo: string) returns (newTodo: Todo)
      modifies this
      ensures newTodo == Todo(GetNextID(old(todoItems)), todo, StatusTodo, None)
      ensures todoItems == old(todoItems) + [newTodo]
      ensures |todoItems| == |old(todoItems)| + 1
      ensures todoItems[..|old(todoItems)|] == old(todoItems)
      ensures todoItems[|todoItems| - 1] == newTodo
    {
      var id := GetNextID(todoItems);
      newTodo := Todo(id, todo, StatusTodo, None);
      todoItems := todoItems + [newTodo];
    }
  }

  /**
   * The module's top-level call: the first todo added to the seed list
   * gets id 1, the id the seed's first todo already has.
   */
  method AddToSeedList() returns (newTodo: Todo, items: seq<Todo>)
    ensures newTodo.id == 1 && newTodo.title == "Buy lots of stuff with all the money we make from the app"
    ensures newTodo.status == StatusTodo && newTodo.completedOn.None?
    ensures items == SeedTodos + [newTodo]
    ensures items[0].id == newTodo.id
  {
    var list := new TodoList();
    NextIDDuplicatesOne(list.todoItems, 0);
    newTodo := list.AddTodoItem("Buy lots of stuff with all the money we make from the app");
    items := list.todoItems;
  }

  // ---------------------------------------------------------------------
  // query
  // ---------------------------------------------------------------------

  /** An object as `query` sees it: its own properties in `Object.keys` order, with their values. */
  type Item<V> = seq<(string, V)>

  /**
   * The `filter` callback: walks the item's properties and answers true
   * at the first one that has a predicate in `query` returning true;
   * properties without a predicate are skipped.
   */
  function Matches<V>(item: Item<V>, query: map<string, V -> bool>): (b: bool)
    ensures b <==> exists p :: 0 <= p < |item| && item[p].0 in query && query[item[p].0](item[p].1)
    decreases |item|
  {
    if item == [] then false
    else
      assert forall p :: 1 <= p < |item| ==> item[p] == item[1..][p - 1];
      (item[0].0 in query && query[item[0].0](item[0].1)) || Matches(item[1..], query)
  }

  /** `query(items, query)`: `items.filter(Matches)`, a new array. */
  function Query<V(==)>(items: seq<Item<V>>, query: map<string, V -> bool>): (r: seq<Item<V>>)
    ensures |r| <= |items|
    ensures forall i :: 0 <= i < |r| ==> r[i] in items && Matches(r[i], query)
    ensures forall i :: 0 <= i < |items| && Matches(items[i], query) ==> items[i] in r
    decreases |items|
  {
    if items == [] then []
    else (if Matches(items[0], query) then [items[0]] else []) + Query(items[1..], query)
  }

  /** `sub` can be obtained from `s` by deleting elements, without reordering. */
  ghost predicate IsSubsequence<T>(sub: seq<T>, s: seq<T>)
    decreases |s|
  {
    if sub == [] then true
    else if s == [] then false
    else if sub[0] == s[0] then IsSubsequence(sub[1..], s[1..])
    else IsSubsequence(sub, s[1..])
  }

  /** The kept items appear in their original relative order. */
  lemma {:induction false} QueryPreservesOrder<V>(items: seq<Item<V>>, query: map<string, V -> bool>)
    ensures IsSubsequence(Query(items, query), items)
    decreases |items|
  {
    if items != [] {
      QueryPreservesOrder(items[1..], query);
      var rest := Query(items[1..], query);
      var sub := Query(items, query);
      if Matches(items[0], query) {
        assert sub == [items[0]] + rest;
        assert sub[0] == items[0] && sub[1..] == rest;
      } else {
        assert sub == rest;
        if rest != [] {
          assert Matches(rest[0], query);
          assert rest[0] != items[0];
        }
      }
    }
  }

  /** Each matching item is kept as often as it occurs; others are dropped. */
  lemma {:induction false} QueryMultiplicity<V>(items: seq<Item<V>>, query: map<string, V -> bool>, x: Item<V>)
    ensures multiset(Query(items, query))[x] == if Matches(x, query) then multiset(items)[x] else 0
    decreases |items|
  {
    if items != [] {
      QueryMultiplicity(items[1..], query, x);
      assert items == [items[0]] + items[1..];
    }
  }

  /** With an empty query object nothing is kept. */
  lemma QueryWithEmptyQuery<V>(items: seq<Item<V>>)
    ensures Query(items, map[]) == []
  {
  }

  /** The module's example: Ted matches neither predicate, Angie matches both. */
  lemma QueryExample()
    ensures var ted := [("name", Text("Ted")), ("age", Number(12.0))];
            var angie := [("name", Text("Angie")), ("age", Number(31.0))];
            var query := map["name" := (v: JsValue) => v == Text("Angie"),
                             "age" := (v: JsValue) => v.Number? && v.n > 30.0];
            Query([ted, angie], query) == [angie]
  {
    var ted := [("name", Text("Ted")), ("age", Number(12.0))];
    var angie := [("name", Text("Angie")), ("age", Number(31.0))];
    var query := map["name" := (v: JsValue) => v == Text("Angie"),
                     "age" := (v: JsValue) => v.Number? && v.n > 30.0];
    assert !Matches(ted, query);
    assert Matches(angie, query);
  }

  /** One matching property is enough (the predicates are or-ed, not and-ed). */
  lemma QueryIsDisjunctive()
    ensures var youngAngie := [("name", Text("Angie")), ("age", Number(12.0))];
            var query := map["name" := (v: JsValue) => v == Text("Angie"),
                             "age" := (v: JsValue) => v.Number? && v.n > 30.0];
            Query([youngAngie], query) == [youngAngie]
  {
    var youngAngie := [("name", Text("Angie")), ("age", Number(12.0))];
    var query := map["name" := (v: JsValue) => v == Text("Angie"),
                     "age" := (v: JsValue) => v.Number? && v.n > 30.0];
    assert Matches(youngAngie, query);
  }
}
