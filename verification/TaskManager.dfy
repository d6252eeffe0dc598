// The task manager: tasks are sorted by their dependencies and started in
// that order.
module TaskManager {
  import opened Wrappers
  import opened Topology

  // A registered task; the identity stands for the boxed task itself.
  datatype Task = Task(id: nat, name: string, deps: seq<string>)

  // What starting the tasks does, in order.
  datatype Event =
    | Registered(name: string)
    | Starting(name: string)
    | Spawned(task: Task)

  function Items(tasks: seq<Task>): (items: seq<Item>)
    ensures |items| == |tasks| && forall i | 0 <= i < |tasks| :: items[i] == Item(tasks[i].name, tasks[i].deps)
  {
    seq(|tasks|, i requires 0 <= i < |tasks| => Item(tasks[i].name, tasks[i].deps))
  }

  // The tasks can be started in some order.
  ghost predicate Startable(tasks: seq<Task>) {
    var items := Items(tasks);
    Distinct(Names(items)) && Topology.AllRegistered(DepsOf(items)) && !Cyclic(DepsOf(items))
  }

  // What is wrong with the items: the first dependency that none of them is
  // named, or else the names from which a cycle is reached, in the order of the items.
  ghost predicate Blames(items: seq<Item>, error: Sorting) {
    match error
    case Sorted(_) => false
    case Missing(name, dep) => dep !in Names(items) && FirstMissing(Names(items), DepsOf(items), name, dep)
    case Leftover(names) =>
      && AllRegistered(DepsOf(items))
      && ListsBlocked(Names(items), DepsOf(items), names)
      && forall n :: n in names <==> n in Names(items) && ReachesCycle(DepsOf(items), n)
  }

  // The same tasks, each after those it depends on.
  ghost predicate StartOrder(tasks: seq<Task>, order: seq<Task>) {
    && multiset(order) == multiset(tasks)
    && forall i, d | 0 <= i < |order| && d in order[i].deps :: NamedBefore(order, i, d)
  }

  ghost predicate NamedBefore(order: seq<Task>, i: nat, name: string)
    requires i <= |order|
  {
    exists j | 0 <= j < i :: order[j].name == name
  }

  // The log of starting the tasks in the order: all are registered, then each
  // is marked as starting and spawned.
  function StartLog(order: seq<Task>): seq<Event> {
    RegisterLog(order) + SpawnLog(order)
  }

  function RegisterLog(order: seq<Task>): seq<Event> {
    if order == [] then [] else RegisterLog(order[..|order| - 1]) + [Registered(order[|order| - 1].name)]
  }

  function SpawnLog(order: seq<Task>): seq<Event> {
    if order == [] then []
    else
      SpawnLog(order[..|order| - 1])
      + [Starting(order[|order| - 1].name), Spawned(order[|order| - 1])]
  }

  // ---- the log keeps to the dependencies ----

  lemma {:induction false} SpawnLogAt(order: seq<Task>, k: nat)
    requires k < |order|
    ensures |SpawnLog(order)| == 2 * |order| && SpawnLog(order)[2 * k + 1] == Spawned(order[k])
    ensures SpawnLog(order)[2 * k] == Starting(order[k].name)
  {
    var front := order[..|order| - 1];
    if front != [] { SpawnLogAt(front, if k < |front| then k else 0); }
  }

  lemma {:induction false} RegisterLogAt(order: seq<Task>)
    ensures |RegisterLog(order)| == |order|
    ensures forall k | 0 <= k < |order| :: RegisterLog(order)[k] == Registered(order[k].name)
  {
    if order != [] { RegisterLogAt(order[..|order| - 1]); }
  }

  lemma RegisterLogNext(order: seq<Task>, i: nat)
    requires i < |order|
    ensures RegisterLog(order[..i + 1]) == RegisterLog(order[..i]) + [Registered(order[i].name)]
  {
    assert order[..i + 1][..i] == order[..i];
  }

  lemma SpawnLogNext(order: seq<Task>, i: nat)
    requires i < |order|
    ensures SpawnLog(order[..i + 1]) == SpawnLog(order[..i]) + [Starting(order[i].name), Spawned(order[i])]
  {
    assert order[..i + 1][..i] == order[..i];
  }

  lemma StartLogParts(order: seq<Task>)
    ensures StartLog(order) == RegisterLog(order) + SpawnLog(order)
  {
  }

  // The log event by event.
  lemma StartLogAt(order: seq<Task>, i: nat)
    requires i < |order|
    ensures |StartLog(order)| == 3 * |order| && StartLog(order)[i] == Registered(order[i].name)
    ensures StartLog(order)[|order| + 2 * i] == Starting(order[i].name)
    ensures StartLog(order)[|order| + 2 * i + 1] == Spawned(order[i])
  {
    RegisterLogAt(order);
    SpawnLogAt(order, i);
    hide RegisterLog, SpawnLog;
  }

  // No task is spawned before all are registered and every task it depends on
  // is spawned; every task is spawned once.
  lemma SpawnsFollowDependencies(tasks: seq<Task>, order: seq<Task>, at: nat, d: string)
    requires StartOrder(tasks, order)
    requires at < |StartLog(order)| && StartLog(order)[at].Spawned?
    ensures at >= |order| && StartLog(order)[at].task in tasks
    ensures d in StartLog(order)[at].task.deps
            ==> exists k | |order| <= k < at :: StartLog(order)[k].Spawned? && StartLog(order)[k].task.name == d
  {
    RegisterLogAt(order);
    var log := SpawnLog(order);
    var i := at - |order|;
    if order == [] { return; }
    SpawnLogAt(order, 0);
    SpawnLogAt(order, i / 2);
    assert log[i] == Spawned(order[i / 2]);
    assert order[i / 2] in multiset(order);
    if d in order[i / 2].deps {
      assert NamedBefore(order, i / 2, d);
      var j :| 0 <= j < i / 2 && order[j].name == d;
      SpawnLogAt(order, j);
      assert StartLog(order)[|order| + 2 * j + 1] == Spawned(order[j]);
    }
  }

  // ---- taking the tasks by name ----

  // The tasks of the named map are the listed ones.
  ghost predicate Holds(tasks: seq<Task>, byName: map<string, Task>) {
    && (forall t | t in tasks :: t.name in byName && byName[t.name] == t)
    && forall n | n in byName :: byName[n] in tasks && byName[n].name == n
  }

  lemma DistinctNames(tasks: seq<Task>, i: nat, j: nat)
    requires Distinct(Names(Items(tasks))) && i < |tasks| && j < |tasks| && tasks[i].name == tasks[j].name
    ensures i == j
  {
    var names := Names(Items(tasks));
    assert names[i] == names[j];
  }

  lemma NamesDiffer(tasks: seq<Task>, i: nat, j: nat)
    requires Distinct(Names(Items(tasks))) && i < j < |tasks|
    ensures tasks[i].name != tasks[j].name
  {
    var names := Names(Items(tasks));
    assert names[i] != names[j];
  }

  lemma {:induction false} DepsOfTask(tasks: seq<Task>, i: nat)
    requires Distinct(Names(Items(tasks))) && i < |tasks|
    ensures tasks[i].name in DepsOf(Items(tasks)) && DepsOf(Items(tasks))[tasks[i].name] == tasks[i].deps
  {
    var last := |tasks| - 1;
    var front := tasks[..last];
    assert Items(tasks)[..last] == Items(front);
    if i < last {
      assert Names(Items(front)) == Names(Items(tasks))[..last];
      DepsOfTask(front, i);
      NamesDiffer(tasks, i, last);
    }
  }

  lemma {:induction false} Multiplicity(tasks: seq<Task>, t: Task)
    requires Distinct(Names(Items(tasks)))
    ensures multiset(tasks)[t] == if t in tasks then 1 else 0
  {
    if tasks != [] {
      var last := |tasks| - 1;
      var front := tasks[..last];
      assert tasks == front + [tasks[last]];
      assert Names(Items(front)) == Names(Items(tasks))[..last];
      Multiplicity(front, t);
      forall k | 0 <= k < last ensures front[k] != tasks[last] {
        NamesDiffer(tasks, k, last);
      }
    }
  }

  lemma SameTasks(a: seq<Task>, b: seq<Task>)
    requires Distinct(Names(Items(a))) && Distinct(Names(Items(b)))
    requires forall t :: t in a <==> t in b
    ensures multiset(a) == multiset(b)
  {
    forall t ensures multiset(a)[t] == multiset(b)[t] {
      Multiplicity(a, t);
      Multiplicity(b, t);
    }
  }

  // The tasks picked by a sorted list of their names are in start order.
  lemma PickedInOrder(tasks: seq<Task>, names: seq<string>, order: seq<Task>)
    requires Distinct(Names(Items(tasks))) && Distinct(names)
    requires Elements(names) == Elements(Names(Items(tasks)))
    requires DependenciesFirst(DepsOf(Items(tasks)), names)
    requires |order| == |names| && forall i | 0 <= i < |order| :: order[i] in tasks && order[i].name == names[i]
    ensures StartOrder(tasks, order)
  {
    assert Names(Items(order)) == names;
    forall t ensures t in order <==> t in tasks {
      if t in tasks {
        var k :| 0 <= k < |tasks| && tasks[k] == t;
        assert Names(Items(tasks))[k] in Elements(names);
        var i :| 0 <= i < |names| && names[i] == t.name;
        var m :| 0 <= m < |tasks| && tasks[m] == order[i];
        DistinctNames(tasks, k, m);
      }
    }
    SameTasks(order, tasks);
    forall i, d | 0 <= i < |order| && d in order[i].deps ensures NamedBefore(order, i, d) {
      var k :| 0 <= k < |tasks| && tasks[k] == order[i];
      DepsOfTask(tasks, k);
      assert d in names[..i];
      var j :| 0 <= j < i && names[..i][j] == d;
      assert order[j].name == d;
    }
  }

  // Whatever is still in the map is appended, in some order.
  method AppendRest(order: seq<Task>, byName: map<string, Task>) returns (all: seq<Task>)
    ensures order <= all && |all| == |order| + |byName|
    ensures forall t | t in byName.Values :: t in all
  {
    all := order;
    var left := byName;
    while left != map[]
      invariant order <= all && |all| + |left| == |order| + |byName|
      invariant forall n | n in byName :: n in left || byName[n] in all
      invariant forall n | n in left :: n in byName && left[n] == byName[n]
      decreases |left|
    {
      assert exists n :: n in left;
      var n :| n in left;
      all := all + [left[n]];
      assert left == (left - {n})[n := left[n]];
      left := left - {n};
    }
  }

  // The first names' tasks have been taken out of the map.
  ghost predicate Picking(
      tasks: seq<Task>, byName: map<string, Task>, names: seq<string>, i: nat, order: seq<Task>,
      rest: map<string, Task>)
    requires i <= |names|
  {
    && rest.Keys == byName.Keys - Elements(names[..i]) && (forall n | n in rest :: rest[n] == byName[n])
    && |order| == i && forall k | 0 <= k < i :: order[k] in tasks && order[k].name == names[k]
  }

  lemma PickOneMore(
      tasks: seq<Task>, byName: map<string, Task>, names: seq<string>, i: nat, order: seq<Task>,
      rest: map<string, Task>)
    requires Holds(tasks, byName) && Elements(names) == Elements(Names(Items(tasks))) && Distinct(names)
    requires i < |names| && Picking(tasks, byName, names, i, order, rest)
    ensures names[i] in rest
    ensures Picking(tasks, byName, names, i + 1, order + [rest[names[i]]], rest - {names[i]})
  {
    PickNext(tasks, byName, names, i);
    hide Holds, Distinct, Elements;
    assert names[i] in rest.Keys;
  }

  // Takes the named tasks out of the map, in the order of the names.
  method PickByName(ghost tasks: seq<Task>, byName: map<string, Task>, names: seq<string>)
    returns (order: seq<Task>, rest: map<string, Task>)
    requires Holds(tasks, byName) && Distinct(names) && Elements(names) == Elements(Names(Items(tasks)))
    ensures rest == map[] && |order| == |names|
    ensures forall i | 0 <= i < |order| :: order[i] in tasks && order[i].name == names[i]
  {
    order, rest := [], byName;
    var i := 0;
    assert names[..0] == [];
    assert Picking(tasks, byName, names, 0, order, rest);
    hide Holds, Distinct, Picking, Elements;
    while i < |names|
      invariant 0 <= i <= |names| && Picking(tasks, byName, names, i, order, rest)
    {
      PickOneMore(tasks, byName, names, i, order, rest);
      var name := names[i];
      if name in rest {
        order := order + [rest[name]];
        rest := rest - {name};
      }
      i := i + 1;
    }
    PickedAll(tasks, byName, names, order, rest);
  }

  lemma PickedAll(
      tasks: seq<Task>, byName: map<string, Task>, names: seq<string>, order: seq<Task>, rest: map<string, Task>)
    requires Holds(tasks, byName) && Elements(names) == Elements(Names(Items(tasks)))
    requires Picking(tasks, byName, names, |names|, order, rest)
    ensures rest == map[] && |order| == |names|
    ensures forall i | 0 <= i < |order| :: order[i] in tasks && order[i].name == names[i]
  {
    NothingLeft(tasks, byName, names, rest);
  }

  class TaskManager {
    var tasks: seq<Task>
    var log: seq<Event>

    constructor ()
      ensures tasks == [] && log == []
    {
      tasks, log := [], [];
    }

    method AddTask(task: Task)
      modifies this`tasks
      ensures tasks == old(tasks) + [task]
    {
      tasks := tasks + [task];
    }

    // Moves the tasks into a map by name.
    method DrainTasks() returns (byName: map<string, Task>)
      requires Distinct(Names(Items(tasks)))
      modifies this`tasks
      ensures tasks == [] && Holds(old(tasks), byName)
    {
      byName := map[];
      var all := tasks;
      while tasks != []
        invariant |tasks| <= |all| && tasks == all[|all| - |tasks|..] && Holds(all[..|all| - |tasks|], byName)
        decreases |tasks|
      {
        var k := |all| - |tasks|;
        HoldsNext(all, k, byName);
        byName := byName[tasks[0].name := tasks[0]];
        tasks := tasks[1..];
      }
      assert all[..|all|] == all;
    }

    // Succeeds exactly when the tasks can be started; loses and repeats no
    // task. On failure the tasks stay.
    method SortTasks() returns (r: Result<seq<Task>, Sorting>)
      modifies this`tasks
      ensures r.Ok? <==> Startable(old(tasks))
      ensures r.Ok? ==> tasks == [] && StartOrder(old(tasks), r.value)
      ensures r.Err? ==> tasks == old(tasks)
      ensures r.Err? ==> Blames(Items(tasks), r.error)
    {
      var sorting := TopologicalSort(Items(tasks));
      if !sorting.Sorted? {
        DepsOfNames(Items(tasks));
        return Err(sorting);
      }
      ghost var was := tasks;
      hide *;
      var byName := DrainTasks();
      var order, rest := PickByName(was, byName, sorting.names);
      order := AppendRest(order, rest);
      PickedInOrder(was, sorting.names, order);
      r := Ok(order);
    }

    method RegisterAll(order: seq<Task>)
      modifies this`log
      ensures log == old(log) + RegisterLog(order)
    {
      assert order[..0] == [] && order[..|order|] == order;
      var i := 0;
      while i < |order|
        invariant 0 <= i <= |order| && log == old(log) + RegisterLog(order[..i])
      {
        RegisterLogNext(order, i);
        hide *;
        log := log + [Registered(order[i].name)];
        i := i + 1;
      }
    }

    method SpawnAll(order: seq<Task>) returns (senders: seq<string>)
      modifies this`log
      ensures log == old(log) + SpawnLog(order)
      ensures |senders| == |order| && forall i | 0 <= i < |senders| :: senders[i] == order[i].name
    {
      assert order[..0] == [] && order[..|order|] == order;
      senders := [];
      var i := 0;
      while i < |order|
        invariant 0 <= i <= |order| && log == old(log) + SpawnLog(order[..i])
        invariant |senders| == i && forall k | 0 <= k < i :: senders[k] == order[k].name
      {
        SpawnLogNext(order, i);
        hide *;
        senders := senders + [order[i].name];
        log := log + [Starting(order[i].name)];
        log := log + [Spawned(order[i])];
        i := i + 1;
      }
    }

    // Registers, marks and spawns the tasks in start order, keeping one
    // shutdown sender for each.
    method StartAll() returns (r: Result<seq<Task>, Sorting>, senders: seq<string>)
      modifies this
      ensures r.Ok? <==> Startable(old(tasks))
      ensures r.Ok? ==> StartOrder(old(tasks), r.value) && log == old(log) + StartLog(r.value) && tasks == []
      ensures r.Ok? ==> |senders| == |r.value| && forall i | 0 <= i < |senders| :: senders[i] == r.value[i].name
      ensures r.Err? ==> Blames(Items(tasks), r.error)
      ensures r.Err? ==> tasks == old(tasks) && log == old(log) && senders == []
    {
      senders := [];
      r := SortTasks();
      if r.Err? { return; }
      StartLogParts(r.value);
      hide *;
      RegisterAll(r.value);
      senders := SpawnAll(r.value);
    }
  }

  lemma HoldsNext(all: seq<Task>, k: nat, byName: map<string, Task>)
    requires Distinct(Names(Items(all))) && k < |all| && Holds(all[..k], byName)
    ensures Holds(all[..k + 1], byName[all[k].name := all[k]])
  {
    var more := all[..k + 1];
    assert more == all[..k] + [all[k]];
    forall t | t in all[..k] ensures t.name != all[k].name {
      var m :| 0 <= m < k && all[m] == t;
      NamesDiffer(all, m, k);
    }
  }

  lemma PickNext(tasks: seq<Task>, byName: map<string, Task>, names: seq<string>, i: nat)
    requires Holds(tasks, byName) && Elements(names) == Elements(Names(Items(tasks)))
    requires Distinct(names) && i < |names|
    ensures names[i] in byName && names[i] !in Elements(names[..i])
    ensures byName[names[i]] in tasks && byName[names[i]].name == names[i]
    ensures Elements(names[..i + 1]) == Elements(names[..i]) + {names[i]}
  {
    assert names[i] in Elements(names);
    var k :| 0 <= k < |tasks| && Names(Items(tasks))[k] == names[i];
    assert tasks[k] in tasks;
    assert names[..i + 1] == names[..i] + [names[i]];
    ElementsNext(names[..i], names[i]);
  }

  lemma NothingLeft(tasks: seq<Task>, byName: map<string, Task>, names: seq<string>, rest: map<string, Task>)
    requires Holds(tasks, byName) && Elements(names) == Elements(Names(Items(tasks)))
    requires rest.Keys == byName.Keys - Elements(names[..|names|])
    ensures rest == map[]
  {
    assert names[..|names|] == names;
    forall n | n in byName ensures n in Elements(names) {
      var k :| 0 <= k < |tasks| && tasks[k] == byName[n];
      assert Names(Items(tasks))[k] == n;
    }
    assert rest.Keys == {};
  }
}
