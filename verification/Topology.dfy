// Kahn's topological sort of named items by their dependencies.
module Topology {
  import opened Wrappers

  datatype Item = Item(name: string, deps: seq<string>)

  // Either an order, or what stands in its way: a missing dependency, or the
  // items left over.
  datatype Sorting =
    | Sorted(names: seq<string>)
    | Missing(name: string, dep: string)
    | Leftover(names: seq<string>)

  function Names(items: seq<Item>): (names: seq<string>)
    ensures |names| == |items| && forall i | 0 <= i < |items| :: names[i] == items[i].name
  {
    seq(|items|, i requires 0 <= i < |items| => items[i].name)
  }

  // The dependencies of each name; of items with one name, the last counts.
  function DepsOf(items: seq<Item>): map<string, seq<string>> {
    if items == [] then map[]
    else DepsOf(items[..|items| - 1])[items[|items| - 1].name := items[|items| - 1].deps]
  }

  ghost predicate Distinct(names: seq<string>) {
    forall i, j | 0 <= i < j < |names| :: names[i] != names[j]
  }

  ghost predicate Registered(g: map<string, seq<string>>, deps: seq<string>) {
    forall d | d in deps :: d in g
  }

  ghost predicate AllRegistered(g: map<string, seq<string>>) {
    forall n | n in g :: Registered(g, g[n])
  }

  // ---- cycles ----

  // A walk along dependencies.
  ghost predicate Walk(g: map<string, seq<string>>, w: seq<string>) {
    && w != []
    && (forall i | 0 <= i < |w| :: w[i] in g)
    && forall i | 0 <= i < |w| - 1 :: w[i + 1] in g[w[i]]
  }

  ghost predicate Cycle(g: map<string, seq<string>>, w: seq<string>) {
    Walk(g, w) && |w| >= 2 && w[0] == w[|w| - 1]
  }

  ghost predicate Cyclic(g: map<string, seq<string>>) {
    exists w :: Cycle(g, w)
  }

  // A walk from the name ends on a cycle.
  ghost predicate ReachesCycle(g: map<string, seq<string>>, name: string) {
    exists w, c :: WalkToCycle(g, name, w, c)
  }

  ghost predicate WalkToCycle(g: map<string, seq<string>>, name: string, w: seq<string>, c: seq<string>) {
    Walk(g, w) && w[0] == name && Cycle(g, c) && w[|w| - 1] == c[0]
  }

  // Every name comes after its dependencies.
  ghost predicate DependenciesFirst(g: map<string, seq<string>>, order: seq<string>) {
    forall i, d | 0 <= i < |order| && order[i] in g && d in g[order[i]] :: d in order[..i]
  }

  // Following dependencies only leads to earlier places of such an order.
  lemma {:induction false} WalkDescends(g: map<string, seq<string>>, order: seq<string>, w: seq<string>, i: nat)
    requires DependenciesFirst(g, order) && Distinct(order) && Walk(g, w)
    requires i < |order| && w[0] == order[i]
    ensures |w| - 1 <= i && exists j | 0 <= j <= i - (|w| - 1) :: w[|w| - 1] == order[j]
    decreases |w|
  {
    if |w| == 1 {
      assert w[|w| - 1] == order[i];
    } else {
      assert w[1] in g[w[0]];
      var k :| 0 <= k < i && order[..i][k] == w[1];
      WalkDescends(g, order, w[1..], k);
      var j :| 0 <= j <= k - (|w[1..]| - 1) && w[1..][|w[1..]| - 1] == order[j];
      assert w[|w| - 1] == order[j];
    }
  }

  // So no cycle can be reached from a name in it.
  lemma OrderedReachesNoCycle(g: map<string, seq<string>>, order: seq<string>, name: string)
    requires DependenciesFirst(g, order) && Distinct(order) && name in order
    ensures !ReachesCycle(g, name)
  {
    if w, c :| WalkToCycle(g, name, w, c) {
      var i :| 0 <= i < |order| && order[i] == name;
      WalkDescends(g, order, w, i);
      var j :| 0 <= j <= i - (|w| - 1) && w[|w| - 1] == order[j];
      WalkDescends(g, order, c, j);
    }
  }

  // Conversely, names that each depend on another of them reach a cycle.
  ghost predicate Stuck(g: map<string, seq<string>>, left: set<string>) {
    forall n | n in left :: n in g && WaitsWithin(g, left, n)
  }

  ghost predicate WaitsWithin(g: map<string, seq<string>>, left: set<string>, n: string)
    requires n in g
  {
    exists d | d in g[n] :: d in left
  }

  // From a stuck name there are walks of any length among the stuck.
  lemma {:induction false} StuckWalks(g: map<string, seq<string>>, left: set<string>, name: string, n: nat)
    returns (w: seq<string>)
    requires Stuck(g, left) && name in left
    decreases n
    ensures Walk(g, w) && |w| == n + 1 && w[0] == name && forall i | 0 <= i < |w| :: w[i] in left
  {
    if n == 0 { return [name]; }
    assert WaitsWithin(g, left, name);
    var d :| d in g[name] && d in left;
    var rest := StuckWalks(g, left, d, n - 1);
    w := [name] + rest;
  }

  // More places than values: some value is repeated.
  lemma {:induction false} Repeats(w: seq<string>, values: set<string>) returns (i: nat, j: nat)
    requires |w| > |values| && forall k | 0 <= k < |w| :: w[k] in values
    ensures i < j < |w| && w[i] == w[j]
  {
    var last := w[|w| - 1];
    if k :| 0 <= k < |w| - 1 && w[k] == last { return k, |w| - 1; }
    i, j := Repeats(w[..|w| - 1], values - {last});
  }

  lemma PartWalks(g: map<string, seq<string>>, w: seq<string>, i: nat, j: nat)
    requires Walk(g, w) && i <= j < |w|
    ensures Walk(g, w[i..j + 1]) && w[i..j + 1][0] == w[i] && w[i..j + 1][j - i] == w[j]
  {
  }

  lemma StuckReachesCycle(g: map<string, seq<string>>, left: set<string>, name: string)
    requires Stuck(g, left) && name in left
    ensures ReachesCycle(g, name)
  {
    var w := StuckWalks(g, left, name, |left|);
    var i, j := Repeats(w, left);
    PartWalks(g, w, 0, i);
    PartWalks(g, w, i, j);
    hide Walk, Stuck;
    assert w[0..i + 1] == w[..i + 1];
    assert Cycle(g, w[i..j + 1]);
    assert WalkToCycle(g, name, w[..i + 1], w[i..j + 1]);
  }

  // ---- counting ----

  datatype Edge = Edge(name: string, dep: string)

  function EdgesOf(name: string, deps: seq<string>): seq<Edge> {
    if deps == [] then [] else EdgesOf(name, deps[..|deps| - 1]) + [Edge(name, deps[|deps| - 1])]
  }

  // One edge for each dependency of each listed name, repetitions included.
  function Edges(names: seq<string>, g: map<string, seq<string>>): seq<Edge> {
    if names == [] then []
    else
      var last := names[|names| - 1];
      Edges(names[..|names| - 1], g) + (if last in g then EdgesOf(last, g[last]) else [])
  }

  // The name's edges to dependencies that are not done.
  function Pending(edges: seq<Edge>, name: string, done: set<string>): nat {
    if edges == [] then 0
    else
      var last := edges[|edges| - 1];
      Pending(edges[..|edges| - 1], name, done) + (if last.name == name && last.dep !in done then 1 else 0)
  }

  // The names at the other end of the dependency's edges.
  function Dependents(edges: seq<Edge>, dep: string): seq<string> {
    if edges == [] then []
    else
      var last := edges[|edges| - 1];
      Dependents(edges[..|edges| - 1], dep) + (if last.dep == dep then [last.name] else [])
  }

  function Count(names: seq<string>, name: string): nat {
    if names == [] then 0
    else Count(names[1..], name) + (if names[0] == name then 1 else 0)
  }

  lemma {:induction false} CountAppend(a: seq<string>, x: string, name: string)
    ensures Count(a + [x], name) == Count(a, name) + (if x == name then 1 else 0)
  {
    if a != [] {
      assert (a + [x])[1..] == a[1..] + [x];
      CountAppend(a[1..], x, name);
    }
  }

  // Finishing a dependency settles as many of a name's edges as the name has
  // entries among its dependents.
  lemma {:induction false} PendingWithout(edges: seq<Edge>, name: string, done: set<string>, dep: string)
    requires dep !in done
    ensures Pending(edges, name, done) == Pending(edges, name, done + {dep}) + Count(Dependents(edges, dep), name)
  {
    if edges != [] {
      var front, last := edges[..|edges| - 1], edges[|edges| - 1];
      PendingWithout(front, name, done, dep);
      if last.dep == dep {
        CountAppend(Dependents(front, dep), last.name, name);
      } else {
        assert Dependents(edges, dep) == Dependents(front, dep);
      }
    }
  }

  lemma {:induction false} PendingMeans(edges: seq<Edge>, name: string, done: set<string>)
    ensures Pending(edges, name, done) > 0 <==> exists e | e in edges :: e.name == name && e.dep !in done
  {
    if edges != [] {
      var front, last := edges[..|edges| - 1], edges[|edges| - 1];
      PendingMeans(front, name, done);
      if e :| e in edges && e.name == name && e.dep !in done {
        assert e in front || e == last;
      }
      if e :| e in front && e.name == name && e.dep !in done { assert e in edges; }
      assert last in edges;
    }
  }

  lemma {:induction false} EdgesOfAre(name: string, deps: seq<string>, e: Edge)
    ensures e in EdgesOf(name, deps) <==> e.name == name && e.dep in deps
  {
    if deps != [] {
      EdgesOfAre(name, deps[..|deps| - 1], e);
      assert deps == deps[..|deps| - 1] + [deps[|deps| - 1]];
    }
  }

  lemma {:induction false} EdgesAre(names: seq<string>, g: map<string, seq<string>>, e: Edge)
    ensures e in Edges(names, g) <==> e.name in names && e.name in g && e.dep in g[e.name]
  {
    if names != [] {
      var last := names[|names| - 1];
      EdgesAre(names[..|names| - 1], g, e);
      if last in g { EdgesOfAre(last, g[last], e); }
      assert names == names[..|names| - 1] + [last];
    }
  }

  // A name waits for something exactly while one of its dependencies is not
  // done.
  lemma WaitsFor(names: seq<string>, g: map<string, seq<string>>, name: string, done: set<string>)
    requires name in names && name in g
    ensures Pending(Edges(names, g), name, done) > 0 <==> exists d | d in g[name] :: d !in done
  {
    var edges := Edges(names, g);
    PendingMeans(edges, name, done);
    if d :| d in g[name] && d !in done {
      EdgesAre(names, g, Edge(name, d));
    }
    if e :| e in edges && e.name == name && e.dep !in done {
      EdgesAre(names, g, e);
    }
  }

  // ---- building the graph ----

  lemma {:induction false} DepsOfNames(items: seq<Item>)
    ensures forall n :: n in DepsOf(items) <==> n in Names(items)
  {
    if items != [] {
      var front := items[..|items| - 1];
      DepsOfNames(front);
      assert Names(items) == Names(front) + [items[|items| - 1].name];
    }
  }

  method IndexItems(items: seq<Item>) returns (names: seq<string>, g: map<string, seq<string>>)
    ensures names == Names(items) && g == DepsOf(items)
  {
    names, g := [], map[];
    var i := 0;
    while i < |items|
      invariant 0 <= i <= |items|
      invariant names == Names(items[..i]) && g == DepsOf(items[..i])
    {
      assert items[..i + 1][..i] == items[..i];
      names := names + [items[i].name];
      g := g[items[i].name := items[i].deps];
      i := i + 1;
    }
    assert items[..|items|] == items;
  }

  // The counters and reverse lists stand for the edges.
  ghost predicate Represents(
      g: map<string, seq<string>>, edges: seq<Edge>, inDegree: map<string, nat>, dependents: map<string, seq<string>>)
  {
    && inDegree.Keys == g.Keys && dependents.Keys == g.Keys
    && (forall n | n in g :: inDegree[n] == Pending(edges, n, {}))
    && (forall d | d in g :: dependents[d] == Dependents(edges, d))
  }

  lemma OneMoreEdge(
      g: map<string, seq<string>>, edges: seq<Edge>, inDegree: map<string, nat>, dependents: map<string, seq<string>>,
      e: Edge)
    requires Represents(g, edges, inDegree, dependents) && e.name in g && e.dep in g
    ensures Represents(g, edges + [e], inDegree[e.name := inDegree[e.name] + 1],
                       dependents[e.dep := dependents[e.dep] + [e.name]])
  {
    assert (edges + [e])[..|edges|] == edges;
  }

  lemma EdgesOfNext(name: string, deps: seq<string>, j: nat)
    requires j < |deps|
    ensures EdgesOf(name, deps[..j + 1]) == EdgesOf(name, deps[..j]) + [Edge(name, deps[j])]
  {
    assert deps[..j + 1][..j] == deps[..j];
  }

  lemma EdgesNext(names: seq<string>, g: map<string, seq<string>>, i: nat)
    requires i < |names| && names[i] in g
    ensures Edges(names[..i + 1], g) == Edges(names[..i], g) + EdgesOf(names[i], g[names[i]])
  {
    assert names[..i + 1][..i] == names[..i];
  }

  // The first j dependencies are registered and counted.
  ghost predicate Counted(
      name: string, deps: seq<string>, j: nat, g: map<string, seq<string>>, before: seq<Edge>,
      inDegree: map<string, nat>, dependents: map<string, seq<string>>)
    requires j <= |deps|
  {
    && Registered(g, deps[..j])
    && Represents(g, before + EdgesOf(name, deps[..j]), inDegree, dependents)
  }

  // One step of counting a name's dependencies.
  lemma CountedOne(
      name: string, deps: seq<string>, j: nat, g: map<string, seq<string>>, before: seq<Edge>,
      inDegree: map<string, nat>, dependents: map<string, seq<string>>)
    requires j < |deps| && name in g && deps[j] in g
    requires Counted(name, deps, j, g, before, inDegree, dependents)
    ensures name in inDegree && deps[j] in dependents
    ensures Counted(name, deps, j + 1, g, before, inDegree[name := inDegree[name] + 1],
                    dependents[deps[j] := dependents[deps[j]] + [name]])
  {
    var edges := before + EdgesOf(name, deps[..j]);
    EdgesOfNext(name, deps, j);
    OneMoreEdge(g, edges, inDegree, dependents, Edge(name, deps[j]));
    hide Represents, EdgesOf;
    assert before + EdgesOf(name, deps[..j + 1]) == edges + [Edge(name, deps[j])];
    assert deps[..j + 1] == deps[..j] + [deps[j]];
  }

  // The first dependency in the list that is not registered.
  ghost predicate FirstLost(g: map<string, seq<string>>, deps: seq<string>, dep: string) {
    exists j | 0 <= j < |deps| :: deps[j] == dep && Registered(g, deps[..j])
  }

  // The first of the names with a dependency that is not registered, and the
  // first such dependency.
  ghost predicate FirstMissing(names: seq<string>, g: map<string, seq<string>>, name: string, dep: string) {
    && name in g && dep !in g && FirstLost(g, g[name], dep)
    && exists i | 0 <= i < |names| :: names[i] == name && RegisteredBefore(names, g, i)
  }

  ghost predicate RegisteredBefore(names: seq<string>, g: map<string, seq<string>>, i: nat)
    requires i <= |names|
  {
    forall k | 0 <= k < i && names[k] in g :: Registered(g, g[names[k]])
  }

  // Counts the dependencies of one name.
  method CountName(
      name: string, g: map<string, seq<string>>, ghost before: seq<Edge>, inDegree: map<string, nat>,
      dependents: map<string, seq<string>>)
    returns (missing: Option<string>, inDegree': map<string, nat>, dependents': map<string, seq<string>>)
    requires name in g && Represents(g, before, inDegree, dependents)
    ensures missing.None? <==> Registered(g, g[name])
    ensures missing.Some? ==> missing.value !in g && FirstLost(g, g[name], missing.value)
    ensures missing.None? ==> Represents(g, before + EdgesOf(name, g[name]), inDegree', dependents')
  {
    var deps := g[name];
    inDegree', dependents' := inDegree, dependents;
    assert before + EdgesOf(name, deps[..0]) == before;
    var j := 0;
    hide Represents, EdgesOf;
    assert Counted(name, deps, 0, g, before, inDegree', dependents');
    while j < |deps|
      invariant 0 <= j <= |deps| && Counted(name, deps, j, g, before, inDegree', dependents')
    {
      hide Counted;
      var dep := deps[j];
      if dep !in g { return Some(dep), inDegree', dependents'; }
      CountedOne(name, deps, j, g, before, inDegree', dependents');
      inDegree' := inDegree'[name := inDegree'[name] + 1];
      dependents' := dependents'[dep := dependents'[dep] + [name]];
      j := j + 1;
    }
    assert deps[..|deps|] == deps;
    missing := None;
  }

  ghost predicate RegisteredAll(names: seq<string>, g: map<string, seq<string>>) {
    forall n | n in names && n in g :: Registered(g, g[n])
  }

  lemma RegisteredNext(names: seq<string>, i: nat, g: map<string, seq<string>>)
    requires i < |names| && names[i] in g && Registered(g, g[names[i]]) && RegisteredAll(names[..i], g)
    ensures RegisteredAll(names[..i + 1], g)
  {
    hide Registered;
    assert names[..i + 1] == names[..i] + [names[i]];
  }

  // The names' dependencies are registered and counted.
  ghost predicate AllCounted(
      names: seq<string>, g: map<string, seq<string>>, inDegree: map<string, nat>, dependents: map<string, seq<string>>)
  {
    RegisteredAll(names, g) && Represents(g, Edges(names, g), inDegree, dependents)
  }

  lemma NothingCounted(g: map<string, seq<string>>, inDegree: map<string, nat>, dependents: map<string, seq<string>>)
    requires inDegree.Keys == g.Keys && forall n | n in g :: inDegree[n] == 0
    requires dependents.Keys == g.Keys && forall n | n in g :: dependents[n] == []
    ensures AllCounted([], g, inDegree, dependents)
  {
  }

  lemma CountedName(
      names: seq<string>, i: nat, g: map<string, seq<string>>, inDegree: map<string, nat>,
      dependents: map<string, seq<string>>)
    requires i < |names| && names[i] in g && Registered(g, g[names[i]])
    requires RegisteredAll(names[..i], g)
    requires Represents(g, Edges(names[..i], g) + EdgesOf(names[i], g[names[i]]), inDegree, dependents)
    ensures AllCounted(names[..i + 1], g, inDegree, dependents)
  {
    hide Represents, Edges, RegisteredAll, Registered;
    EdgesNext(names, g, i);
    RegisteredNext(names, i, g);
  }

  lemma LostNotRegistered(g: map<string, seq<string>>, deps: seq<string>, dep: string)
    requires dep !in g && FirstLost(g, deps, dep)
    ensures !Registered(g, deps)
  {
  }

  ghost predicate KeysAre(g: map<string, seq<string>>, names: seq<string>) {
    forall n :: n in g <==> n in names
  }

  lemma CountedMeans(
      names: seq<string>, g: map<string, seq<string>>, inDegree: map<string, nat>, dependents: map<string, seq<string>>)
    requires AllCounted(names, g, inDegree, dependents) && KeysAre(g, names)
    ensures AllRegistered(g) && Represents(g, Edges(names, g), inDegree, dependents)
  {
    hide Represents, Edges, Registered;
  }

  lemma CountedSoFar(
      names: seq<string>, i: nat, g: map<string, seq<string>>, inDegree: map<string, nat>,
      dependents: map<string, seq<string>>)
    requires i < |names| && AllCounted(names[..i], g, inDegree, dependents) && KeysAre(g, names)
    ensures names[i] in g && RegisteredAll(names[..i], g) && Represents(g, Edges(names[..i], g), inDegree, dependents)
  {
    hide Represents, Edges, RegisteredAll;
    assert names[i] in names;
  }

  // The first name with a dependency that is not registered has been found.
  lemma LostFirst(
      names: seq<string>, g: map<string, seq<string>>, i: nat, inDegree: map<string, nat>,
      dependents: map<string, seq<string>>, dep: string)
    requires i < |names| && names[i] in g && AllCounted(names[..i], g, inDegree, dependents)
    requires dep !in g && FirstLost(g, g[names[i]], dep)
    ensures FirstMissing(names, g, names[i], dep) && !AllRegistered(g)
  {
    LostNotRegistered(g, g[names[i]], dep);
    hide Represents, Edges, Registered, FirstLost;
    assert forall k | 0 <= k < i :: names[k] in names[..i];
    assert RegisteredBefore(names, g, i);
  }

  method StartCounting(g: map<string, seq<string>>)
    returns (inDegree: map<string, nat>, dependents: map<string, seq<string>>)
    ensures AllCounted([], g, inDegree, dependents)
  {
    inDegree := map n | n in g :: 0;
    dependents := map n | n in g :: [];
    NothingCounted(g, inDegree, dependents);
  }

  // Fails on the first dependency that is not registered.
  method CountDegrees(names: seq<string>, g: map<string, seq<string>>)
    returns (missing: Option<Edge>, inDegree: map<string, nat>, dependents: map<string, seq<string>>)
    requires KeysAre(g, names)
    ensures missing.None? <==> AllRegistered(g)
    ensures missing.Some? ==> FirstMissing(names, g, missing.value.name, missing.value.dep)
    ensures missing.None? ==> Represents(g, Edges(names, g), inDegree, dependents)
  {
    hide *;
    inDegree, dependents := StartCounting(g);
    assert names[..0] == [];
    var i := 0;
    while i < |names|
      invariant 0 <= i <= |names| && AllCounted(names[..i], g, inDegree, dependents)
    {
      CountedSoFar(names, i, g, inDegree, dependents);
      var lost, inDegree', dependents' := CountName(names[i], g, Edges(names[..i], g), inDegree, dependents);
      if lost.Some? {
        LostFirst(names, g, i, inDegree, dependents, lost.value);
        return Some(Edge(names[i], lost.value)), inDegree, dependents;
      }
      CountedName(names, i, g, inDegree', dependents');
      inDegree, dependents := inDegree', dependents';
      i := i + 1;
    }
    assert names[..|names|] == names;
    CountedMeans(names, g, inDegree, dependents);
    missing := None;
  }

  // ---- the worklist ----

  // The names to do next: those whose counter is zero, in some order.
  method InitialQueue(inDegree: map<string, nat>) returns (queue: seq<string>)
    ensures forall n :: n in queue <==> n in inDegree && inDegree[n] == 0
  {
    queue := [];
    var left := inDegree.Keys;
    while left != {}
      invariant left <= inDegree.Keys
      invariant forall n :: n in queue <==> n in inDegree && n !in left && inDegree[n] == 0
      decreases |left|
    {
      var n :| n in left;
      if inDegree[n] == 0 { queue := queue + [n]; }
      left := left - {n};
    }
  }

  // The worklist under way: the counters count what is pending, what is
  // sorted respects the dependencies, and what is ready is queued or sorted.
  ghost predicate UnderWay(
      g: map<string, seq<string>>, edges: seq<Edge>, inDegree: map<string, nat>, queue: seq<string>,
      sorted: seq<string>)
  {
    && inDegree.Keys == g.Keys
    && (forall n | n in g :: inDegree[n] == Pending(edges, n, Elements(sorted)))
    && (forall n | n in queue :: n in g && inDegree[n] == 0)
    && (forall n | n in g && inDegree[n] == 0 :: n in queue || n in sorted)
    && (forall n | n in sorted :: n in g)
    && Distinct(sorted) && DependenciesFirst(g, sorted)
  }

  function Elements(names: seq<string>): set<string> {
    set n | n in names
  }

  // The dependents are counted down but for the rest; the names whose counters
  // have reached zero are queued.
  ghost predicate CountedDown(
      g: map<string, seq<string>>, edges: seq<Edge>, done: set<string>, rest: seq<string>, was: map<string, nat>,
      inDegree: map<string, nat>, queue: seq<string>, queue': seq<string>)
  {
    && was.Keys == inDegree.Keys == g.Keys
    && (forall n | n in g :: inDegree[n] == Pending(edges, n, done) + Count(rest, n) <= was[n])
    && (forall n :: n in queue' <==> n in queue || (n in g && was[n] > 0 && inDegree[n] == 0))
  }

  lemma CountDownStarts(
      g: map<string, seq<string>>, edges: seq<Edge>, done: set<string>, current: string, dependents: seq<string>,
      inDegree: map<string, nat>, queue: seq<string>)
    requires inDegree.Keys == g.Keys && current !in done && dependents == Dependents(edges, current)
    requires forall n | n in g :: inDegree[n] == Pending(edges, n, done)
    ensures CountedDown(g, edges, done + {current}, dependents, inDegree, inDegree, queue, queue)
  {
    forall n | n in g
      ensures inDegree[n] == Pending(edges, n, done + {current}) + Count(dependents, n)
    {
      PendingWithout(edges, n, done, current);
    }
  }

  // No counter is ever zero when counted down.
  lemma CountDownOne(
      g: map<string, seq<string>>, edges: seq<Edge>, done: set<string>, rest: seq<string>, was: map<string, nat>,
      inDegree: map<string, nat>, queue: seq<string>, queue': seq<string>)
    requires CountedDown(g, edges, done, rest, was, inDegree, queue, queue') && rest != [] && rest[0] in g
    ensures rest[0] in inDegree && inDegree[rest[0]] > 0
    ensures var less := inDegree[rest[0] := inDegree[rest[0]] - 1];
            CountedDown(g, edges, done, rest[1..], was, less, queue,
                        if less[rest[0]] == 0 then queue' + [rest[0]] else queue')
  {
    hide Pending;
    assert forall n :: Count(rest, n) == Count(rest[1..], n) + (if rest[0] == n then 1 else 0);
    hide Count;
  }

  // Counts the finished name's dependents down; a counter that reaches zero
  // puts its name in the queue.
  method CountDown(g: map<string, seq<string>>, ghost edges: seq<Edge>, ghost done: set<string>, current: string,
                   dependents: seq<string>, inDegree: map<string, nat>, queue: seq<string>)
    returns (inDegree': map<string, nat>, queue': seq<string>)
    requires inDegree.Keys == g.Keys && current !in done
    requires dependents == Dependents(edges, current) && forall n | n in dependents :: n in g
    requires forall n | n in g :: inDegree[n] == Pending(edges, n, done)
    ensures inDegree'.Keys == g.Keys
    ensures forall n | n in g :: inDegree'[n] == Pending(edges, n, done + {current}) <= inDegree[n]
    ensures forall n :: n in queue' <==> n in queue || (n in g && inDegree[n] > 0 && inDegree'[n] == 0)
  {
    inDegree', queue' := inDegree, queue;
    CountDownStarts(g, edges, done, current, dependents, inDegree, queue);
    hide Pending, Dependents;
    assert dependents[0..] == dependents;
    var k := 0;
    while k < |dependents|
      invariant 0 <= k <= |dependents|
      invariant CountedDown(g, edges, done + {current}, dependents[k..], inDegree, inDegree', queue, queue')
    {
      hide CountedDown;
      var dependent := dependents[k];
      CountDownOne(g, edges, done + {current}, dependents[k..], inDegree, inDegree', queue, queue');
      assert dependents[k..][1..] == dependents[k + 1..];
      inDegree' := inDegree'[dependent := inDegree'[dependent] - 1];
      if inDegree'[dependent] == 0 { queue' := queue' + [dependent]; }
      k := k + 1;
    }
  }

  lemma StartsUnderWay(
      g: map<string, seq<string>>, edges: seq<Edge>, inDegree: map<string, nat>, dependents: map<string, seq<string>>,
      queue: seq<string>)
    requires Represents(g, edges, inDegree, dependents)
    requires forall n :: n in queue <==> n in inDegree && inDegree[n] == 0
    ensures UnderWay(g, edges, inDegree, queue, [])
  {
    assert Elements([]) == {};
  }

  lemma SkipKeepsUnderWay(
      g: map<string, seq<string>>, edges: seq<Edge>, inDegree: map<string, nat>, queue: seq<string>,
      sorted: seq<string>)
    requires UnderWay(g, edges, inDegree, queue, sorted) && queue != [] && queue[0] in sorted
    ensures UnderWay(g, edges, inDegree, queue[1..], sorted)
  {
    assert queue == [queue[0]] + queue[1..];
  }

  // A name whose counter is zero has all its dependencies sorted already.
  lemma ReadyNext(
      g: map<string, seq<string>>, names: seq<string>, inDegree: map<string, nat>, queue: seq<string>,
      sorted: seq<string>)
    requires UnderWay(g, Edges(names, g), inDegree, queue, sorted) && queue != [] && queue[0] !in sorted
    requires forall n :: n in g <==> n in names
    ensures queue[0] in g && DependenciesFirst(g, sorted + [queue[0]]) && Distinct(sorted + [queue[0]])
  {
    var current := queue[0];
    WaitsFor(names, g, current, Elements(sorted));
    var order := sorted + [current];
    forall i, d | 0 <= i < |order| && order[i] in g && d in g[order[i]] ensures d in order[..i] {
      assert order[..i] == sorted[..i];
      if i == |sorted| {
        assert sorted[..i] == sorted;
        assert d in Elements(sorted);
      }
    }
  }

  lemma StepKeepsUnderWay(
      g: map<string, seq<string>>, edges: seq<Edge>, inDegree: map<string, nat>, queue: seq<string>,
      sorted: seq<string>, inDegree': map<string, nat>, queue': seq<string>)
    requires UnderWay(g, edges, inDegree, queue, sorted) && queue != []
    requires inDegree'.Keys == g.Keys
    requires queue[0] in g && DependenciesFirst(g, sorted + [queue[0]]) && Distinct(sorted + [queue[0]])
    requires forall n | n in g :: inDegree'[n] == Pending(edges, n, Elements(sorted) + {queue[0]}) <= inDegree[n]
    requires forall n :: n in queue' <==> n in queue[1..] || (n in g && inDegree[n] > 0 && inDegree'[n] == 0)
    ensures UnderWay(g, edges, inDegree', queue', sorted + [queue[0]])
  {
    hide DependenciesFirst, Distinct, Pending;
    assert Elements(sorted + [queue[0]]) == Elements(sorted) + {queue[0]};
    assert queue == [queue[0]] + queue[1..];
  }

  // When the queue is empty, exactly the names that reach no cycle are
  // sorted.
  lemma DoneMeans(g: map<string, seq<string>>, names: seq<string>, inDegree: map<string, nat>, sorted: seq<string>)
    requires UnderWay(g, Edges(names, g), inDegree, [], sorted)
    requires AllRegistered(g) && forall n :: n in g <==> n in names
    ensures forall n | n in g :: n in sorted <==> !ReachesCycle(g, n)
  {
    var left := g.Keys - Elements(sorted);
    forall n | n in left ensures WaitsWithin(g, left, n) {
      WaitsFor(names, g, n, Elements(sorted));
      assert Registered(g, g[n]);
    }
    forall n | n in g ensures n in sorted <==> !ReachesCycle(g, n) {
      if n in sorted {
        OrderedReachesNoCycle(g, sorted, n);
      } else {
        StuckReachesCycle(g, left, n);
      }
    }
  }

  lemma DependentsAreNamed(names: seq<string>, g: map<string, seq<string>>, dep: string)
    ensures forall n | n in Dependents(Edges(names, g), dep) :: n in g
  {
    forall n | n in Dependents(Edges(names, g), dep) ensures n in g {
      DependentsAre(Edges(names, g), dep, n);
      EdgesAre(names, g, Edge(n, dep));
    }
  }

  lemma {:induction false} DependentsAre(edges: seq<Edge>, dep: string, name: string)
    ensures name in Dependents(edges, dep) <==> Edge(name, dep) in edges
  {
    if edges != [] {
      var front, last := edges[..|edges| - 1], edges[|edges| - 1];
      DependentsAre(front, dep, name);
      assert edges == front + [last];
    }
  }

  // Takes names off the queue until none is left.
  method Drain(
      g: map<string, seq<string>>, ghost names: seq<string>, inDegree0: map<string, nat>,
      dependents: map<string, seq<string>>, queue0: seq<string>)
    returns (sorted: seq<string>, processed: set<string>)
    requires AllRegistered(g) && forall n :: n in g <==> n in names
    requires Represents(g, Edges(names, g), inDegree0, dependents)
    requires UnderWay(g, Edges(names, g), inDegree0, queue0, [])
    ensures processed == Elements(sorted) && Distinct(sorted) && DependenciesFirst(g, sorted)
    ensures forall n :: n in sorted <==> n in g && !ReachesCycle(g, n)
  {
    var inDegree, queue := inDegree0, queue0;
    sorted, processed := [], {};
    ghost var edges := Edges(names, g);
    hide *;
    ElementsMeans(sorted);
    while queue != []
      invariant UnderWay(g, edges, inDegree, queue, sorted) && processed == Elements(sorted)
      decreases |g.Keys - processed|, |queue|
    {
      UnderWayMeans(g, edges, inDegree, queue, sorted);
      var current := queue[0];
      if current in processed {
        SkipKeepsUnderWay(g, edges, inDegree, queue, sorted);
        queue := queue[1..];
        continue;
      }
      ReadyNext(g, names, inDegree, queue, sorted);
      DependentsAreNamed(names, g, current);
      DependentsListed(g, edges, inDegree0, dependents, current);
      var inDegree', queue' := CountDown(g, edges, processed, current, dependents[current], inDegree, queue[1..]);
      StepKeepsUnderWay(g, edges, inDegree, queue, sorted, inDegree', queue');
      ElementsNext(sorted, current);
      assert g.Keys - (processed + {current}) == g.Keys - processed - {current};
      processed, sorted := processed + {current}, sorted + [current];
      inDegree, queue := inDegree', queue';
    }
    UnderWayMeans(g, edges, inDegree, queue, sorted);
    DoneMeans(g, names, inDegree, sorted);
  }

  lemma UnderWayMeans(
      g: map<string, seq<string>>, edges: seq<Edge>, inDegree: map<string, nat>, queue: seq<string>,
      sorted: seq<string>)
    requires UnderWay(g, edges, inDegree, queue, sorted)
    ensures inDegree.Keys == g.Keys
    ensures forall n | n in g :: inDegree[n] == Pending(edges, n, Elements(sorted))
    ensures forall n :: n in Elements(sorted) <==> n in sorted
    ensures Distinct(sorted) && DependenciesFirst(g, sorted) && forall n | n in sorted :: n in g
  {
  }

  lemma DependentsListed(
      g: map<string, seq<string>>, edges: seq<Edge>, inDegree: map<string, nat>, dependents: map<string, seq<string>>,
      dep: string)
    requires Represents(g, edges, inDegree, dependents) && dep in g
    ensures dep in dependents && dependents[dep] == Dependents(edges, dep)
  {
  }

  lemma ElementsNext(names: seq<string>, name: string)
    ensures Elements(names + [name]) == Elements(names) + {name}
  {
  }

  // A sequence has as many values as places exactly when it is distinct.
  lemma {:induction false} DistinctCount(names: seq<string>)
    ensures |Elements(names)| <= |names|
    ensures |Elements(names)| == |names| <==> Distinct(names)
  {
    if names != [] {
      var front, last := names[..|names| - 1], names[|names| - 1];
      DistinctCount(front);
      assert names == front + [last];
      ElementsNext(front, last);
      if last in front {
        var k :| 0 <= k < |front| && front[k] == last;
        assert names[k] == names[|names| - 1];
        assert Elements(names) == Elements(front);
      } else if Distinct(front) {
        assert Distinct(names);
      } else {
        var i, j :| 0 <= i < j < |front| && front[i] == front[j];
        assert names[i] == names[j];
      }
    }
  }

  lemma SortedAll(names: seq<string>, g: map<string, seq<string>>, sorted: seq<string>)
    requires forall n :: n in g <==> n in names
    requires Distinct(sorted) && forall n :: n in sorted <==> n in g && !ReachesCycle(g, n)
    ensures |sorted| == |names| <==> Distinct(names) && !Cyclic(g)
    ensures |sorted| == |names| ==> Elements(sorted) == Elements(names)
  {
    DistinctCount(sorted);
    DistinctCount(names);
    assert Elements(sorted) <= Elements(names);
    SubsetSize(Elements(sorted), Elements(names));
    if c :| Cycle(g, c) {
      assert WalkToCycle(g, c[0], [c[0]], c);
      assert c[0] in Elements(names) && c[0] !in Elements(sorted);
    }
    if n :| n in g && n !in sorted {
      var w, c :| WalkToCycle(g, n, w, c);
      assert Cycle(g, c);
    } else {
      assert Elements(names) == Elements(sorted);
    }
  }

  lemma {:induction false} SubsetSize(a: set<string>, b: set<string>)
    requires a <= b
    ensures |a| <= |b| && (|a| == |b| ==> a == b)
  {
    if a != {} {
      var x :| x in a;
      SubsetSize(a - {x}, b - {x});
    }
  }

  // The list has the names from which a cycle can be reached, all of them and in
  // their order: it is the names at these places.
  ghost predicate ListedAt(names: seq<string>, g: map<string, seq<string>>, listed: seq<string>, at: seq<nat>) {
    && Picks(names, at, listed)
    && forall p: nat :: p in at <==> p < |names| && ReachesCycle(g, names[p])
  }

  ghost predicate ListsBlocked(names: seq<string>, g: map<string, seq<string>>, listed: seq<string>) {
    exists at :: ListedAt(names, g, listed, at)
  }

  lemma ListedMembers(names: seq<string>, g: map<string, seq<string>>, listed: seq<string>)
    requires ListsBlocked(names, g, listed)
    ensures forall n :: n in listed <==> n in names && ReachesCycle(g, n)
  {
    var at :| ListedAt(names, g, listed, at);
    hide ReachesCycle;
    forall n ensures n in listed <==> n in names && ReachesCycle(g, n) {
      if n in listed {
        var i :| 0 <= i < |listed| && listed[i] == n;
        assert at[i] in at;
      }
      if n in names && ReachesCycle(g, n) {
        var p :| 0 <= p < |names| && names[p] == n;
        assert p in at;
        var i :| 0 <= i < |at| && at[i] == p;
        assert listed[i] == n;
      }
    }
  }

  lemma ListedNext(
      names: seq<string>, g: map<string, seq<string>>, n: nat, listed: seq<string>, at: seq<nat>, listed': seq<string>,
      at': seq<nat>)
    requires n < |names| && ListedAt(names[..n], g, listed, at)
    requires if ReachesCycle(g, names[n]) then listed' == listed + [names[n]] && at' == at + [n]
             else listed' == listed && at' == at
    ensures ListedAt(names[..n + 1], g, listed', at')
  {
    hide ReachesCycle;
    assert names[..n + 1] == names[..n] + [names[n]];
    forall i, j | 0 <= i < j < |at'| ensures at'[i] < at'[j] {
      if j == |at| { assert at[i] < n; }
    }
    forall p: nat ensures p in at' <==> p < n + 1 && ReachesCycle(g, names[..n + 1][p]) {
      assert p < n ==> (p in at <==> ReachesCycle(g, names[..n][p]));
      assert p in at ==> p < n;
    }
  }

  method Remaining(names: seq<string>, processed: set<string>, ghost g: map<string, seq<string>>)
    returns (remaining: seq<string>)
    requires forall n | n in names :: n in processed <==> !ReachesCycle(g, n)
    ensures ListsBlocked(names, g, remaining)
  {
    remaining := [];
    ghost var at: seq<nat> := [];
    var i := 0;
    assert ListedAt(names[..0], g, remaining, at);
    hide ReachesCycle, ListedAt;
    while i < |names|
      invariant 0 <= i <= |names| && ListedAt(names[..i], g, remaining, at)
    {
      ghost var listed, was := remaining, at;
      if names[i] !in processed {
        remaining := remaining + [names[i]];
        at := at + [i];
      }
      ListedNext(names, g, i, listed, was, remaining, at);
      i := i + 1;
    }
    assert names[..|names|] == names;
  }

  // A name has the dependencies of its last item.
  lemma {:induction false} DepsOfLast(items: seq<Item>, i: nat)
    requires i < |items| && forall j | i < j < |items| :: items[j].name != items[i].name
    ensures items[i].name in DepsOf(items) && DepsOf(items)[items[i].name] == items[i].deps
  {
    if i < |items| - 1 { DepsOfLast(items[..|items| - 1], i); }
  }

  // Sorts exactly the items with distinct names, registered dependencies and
  // no cycle; otherwise tells what is in the way.
  method TopologicalSort(items: seq<Item>) returns (r: Sorting)
    ensures r.Sorted? <==> Distinct(Names(items)) && AllRegistered(DepsOf(items)) && !Cyclic(DepsOf(items))
    ensures r.Sorted? ==> Distinct(r.names) && Elements(r.names) == Elements(Names(items))
    ensures r.Sorted? ==> DependenciesFirst(DepsOf(items), r.names)
    ensures r.Missing? <==> !AllRegistered(DepsOf(items))
    ensures r.Missing? ==> FirstMissing(Names(items), DepsOf(items), r.name, r.dep)
    ensures r.Leftover? ==> ListsBlocked(Names(items), DepsOf(items), r.names)
    ensures r.Leftover? ==> forall n :: n in r.names <==> n in Names(items) && ReachesCycle(DepsOf(items), n)
  {
    var names, g := IndexItems(items);
    DepsOfNames(items);
    assert KeysAre(g, names);
    hide *;
    var missing, inDegree, dependents := CountDegrees(names, g);
    if missing.Some? { return Missing(missing.value.name, missing.value.dep); }
    var queue := InitialQueue(inDegree);
    StartsUnderWay(g, Edges(names, g), inDegree, dependents, queue);
    var sorted, processed := Drain(g, names, inDegree, dependents, queue);
    SortedAll(names, g, sorted);
    if |sorted| != |names| {
      ElementsMeans(sorted);
      var remaining := Remaining(names, processed, g);
      ListedMembers(names, g, remaining);
      return Leftover(remaining);
    }
    r := Sorted(sorted);
  }

  lemma ElementsMeans(names: seq<string>)
    ensures forall n :: n in Elements(names) <==> n in names
  {
  }
}
