/** Analysis pipelines: dependency order, ancestors, and the facts a stage condition may read. */
module Pipeline {
  import opened Json
  import opened Ordering
  import Conditions

  datatype Scope = Global | Media

  datatype Node = Node(
    id: string, dependsOn: seq<string>, runIf: Option<Conditions.Condition>, scope: Scope, labelKeys: seq<string>)

  type Graph = map<string, set<string>>

  function Elements(s: seq<string>): set<string> { set x | x in s }

  function Ids(nodes: seq<Node>): (ids: seq<string>)
    ensures |ids| == |nodes| && forall i | 0 <= i < |nodes| :: ids[i] == nodes[i].id
  {
    seq(|nodes|, i requires 0 <= i < |nodes| => nodes[i].id)
  }

  /** The dependency dictionary: a repeated ID overwrites the earlier entry. */
  function GraphOf(nodes: seq<Node>): (g: Graph)
    ensures g.Keys == Elements(Ids(nodes))
  {
    if nodes == [] then map[]
    else
      var last := nodes[|nodes| - 1];
      assert Ids(nodes) == Ids(nodes[..|nodes| - 1]) + [last.id];
      GraphOf(nodes[..|nodes| - 1])[last.id := Elements(last.dependsOn)]
  }

  ghost predicate NoDuplicates(s: seq<string>) {
    forall i, j | 0 <= i < j < |s| :: s[i] != s[j]
  }

  ghost predicate Closed(g: Graph) {
    forall k | k in g :: g[k] <= g.Keys
  }

  ghost predicate IsPath(g: Graph, path: seq<string>) {
    forall i | 0 <= i < |path| - 1 :: path[i] in g && path[i + 1] in g[path[i]]
  }

  ghost predicate IsCycle(g: Graph, path: seq<string>) {
    |path| >= 2 && IsPath(g, path) && path[0] == path[|path| - 1]
  }

  ghost predicate Acyclic(g: Graph) {
    !exists path :: IsCycle(g, path)
  }

  ghost predicate TopologicalOrder(g: Graph, order: seq<string>) {
    && NoDuplicates(order)
    && Elements(order) == g.Keys
    && forall i | 0 <= i < |order| :: g[order[i]] <= Elements(order[..i])
  }

  // ---------------------------------------------------------------- the greedy order

  predicate IsReady(g: Graph, done: set<string>, x: string) {
    x in g && x !in done && g[x] <= done
  }

  /** Every entry is the least node whose dependencies all came before. */
  ghost predicate Greedy(g: Graph, order: seq<string>) {
    forall i | 0 <= i < |order| ::
      && IsReady(g, Elements(order[..i]), order[i])
      && forall x | IsReady(g, Elements(order[..i]), x) :: x == order[i] || StringLess(order[i], x)
  }

  lemma GreedyElements(g: Graph, order: seq<string>)
    requires Greedy(g, order)
    ensures NoDuplicates(order) && Elements(order) <= g.Keys && |Elements(order)| == |order|
  {
    forall i, j | 0 <= i < j < |order| ensures order[i] != order[j] {
      assert order[i] in order[..j];
    }
    CountElements(order);
  }

  lemma {:induction false} CountElements(s: seq<string>)
    requires NoDuplicates(s)
    ensures |Elements(s)| == |s|
  {
    if s != [] {
      var init, last := s[..|s| - 1], s[|s| - 1];
      CountElements(init);
      assert Elements(s) == Elements(init) + {last};
      assert last !in Elements(init);
    }
  }

  lemma GreedyTopological(g: Graph, order: seq<string>)
    requires Greedy(g, order) && |order| == |g|
    ensures TopologicalOrder(g, order)
  {
    GreedyElements(g, order);
    SubsetCount(Elements(order), g.Keys);
  }

  /** The first place where another topological order differs, it has a larger node. */
  lemma GreedyLeast(g: Graph, order: seq<string>, other: seq<string>)
    requires Greedy(g, order) && TopologicalOrder(g, order) && TopologicalOrder(g, other)
    ensures order == other || exists i :: FirstDifference(order, other, i)
  {
    CountElements(order);
    CountElements(other);
    if order != other {
      var i := MismatchIndex(order, other);
      var done := Elements(order[..i]);
      assert other[i] in Elements(other) && other[i] !in other[..i];
      assert IsReady(g, done, other[i]);
      assert FirstDifference(order, other, i);
    }
  }

  ghost predicate FirstDifference(least: seq<string>, other: seq<string>, i: nat) {
    i < |least| && i < |other| && least[..i] == other[..i] && StringLess(least[i], other[i])
  }

  lemma {:induction false} MismatchIndex(s: seq<string>, t: seq<string>) returns (i: nat)
    requires |s| == |t| && s != t
    ensures i < |s| && s[..i] == t[..i] && s[i] != t[i]
  {
    if s[0] != t[0] {
      i := 0;
    } else {
      assert s == [s[0]] + s[1..] && t == [t[0]] + t[1..];
      var rest := MismatchIndex(s[1..], t[1..]);
      i := rest + 1;
      assert s[..i] == [s[0]] + s[1..][..rest] && t[..i] == [t[0]] + t[1..][..rest];
    }
  }

  // ---------------------------------------------------------------- acyclicity

  lemma OrderExcludesCycles(g: Graph, order: seq<string>)
    requires TopologicalOrder(g, order)
    ensures Acyclic(g)
  {
    forall path | |path| >= 2 && IsPath(g, path) ensures path[0] != path[|path| - 1] {
      assert path[0] in Elements(order);
      var start := PositionOf(order, path[0]);
      DependenciesEarlier(g, order, path, start);
    }
  }

  lemma PositionOf(order: seq<string>, x: string) returns (i: nat)
    requires x in order
    ensures i < |order| && order[i] == x
  {
    i :| 0 <= i < |order| && order[i] == x;
  }

  /** Along a dependency path, positions in a topological order strictly decrease. */
  lemma {:induction false} DependenciesEarlier(g: Graph, order: seq<string>, path: seq<string>, start: nat)
    requires TopologicalOrder(g, order) && IsPath(g, path) && |path| >= 2
    requires start < |order| && order[start] == path[0]
    ensures forall i | 0 <= i < |order| && order[i] == path[|path| - 1] :: i < start
    ensures path[|path| - 1] in order
    decreases |path|
  {
    assert path[1] in g[path[0]];
    assert path[1] in Elements(order[..start]);
    var next :| 0 <= next < start && order[next] == path[1];
    if |path| > 2 {
      assert IsPath(g, path[1..]) by {
        forall i | 0 <= i < |path[1..]| - 1 ensures path[1..][i] in g && path[1..][i + 1] in g[path[1..][i]] {
          assert path[1..][i] == path[i + 1] && path[1..][i + 1] == path[i + 2];
        }
      }
      DependenciesEarlier(g, order, path[1..], next);
    }
  }

  /** If nothing is ready although nodes remain, walking along remaining dependencies must revisit a node. */
  lemma StuckMeansCycle(g: Graph, done: set<string>)
    requires Closed(g) && done < g.Keys
    requires forall x :: !IsReady(g, done, x)
    ensures !Acyclic(g)
  {
    var left := g.Keys - done;
    var start :| start in left;
    var walk := WalkRemaining(g, done, [start]);
    var i, j := Repetition(walk, left);
    var cycle := walk[i..j + 1];
    forall k | 0 <= k < |cycle| - 1 ensures cycle[k] in g && cycle[k + 1] in g[cycle[k]] {
      assert cycle[k] == walk[i + k] && cycle[k + 1] == walk[i + k + 1];
    }
    assert IsCycle(g, cycle);
  }

  lemma {:induction false} WalkRemaining(g: Graph, done: set<string>, walk: seq<string>) returns (longer: seq<string>)
    requires Closed(g) && done < g.Keys && walk != []
    requires forall x :: !IsReady(g, done, x)
    requires IsPath(g, walk) && forall i | 0 <= i < |walk| :: walk[i] in g.Keys - done
    ensures IsPath(g, longer) && |longer| > |g.Keys - done|
    ensures forall i | 0 <= i < |longer| :: longer[i] in g.Keys - done
    decreases |g.Keys - done| + 1 - |walk|
  {
    if |walk| > |g.Keys - done| {
      longer := walk;
    } else {
      var last := walk[|walk| - 1];
      assert !IsReady(g, done, last);
      var next :| next in g[last] && next !in done;
      longer := WalkRemaining(g, done, walk + [next]);
    }
  }

  lemma {:induction false} Repetition(walk: seq<string>, within: set<string>) returns (i: nat, j: nat)
    requires |walk| > |within| && forall k | 0 <= k < |walk| :: walk[k] in within
    ensures i < j < |walk| && walk[i] == walk[j]
  {
    if NoDuplicates(walk) {
      CountElements(walk);
      SubsetCount(Elements(walk), within);
      assert false;
    }
    i, j :| 0 <= i < j < |walk| && walk[i] == walk[j];
  }

  // ---------------------------------------------------------------- _topological_ids

  lemma SortedKeys(keys: seq<string>)
    requires NoDuplicates(keys)
    ensures StrictlyAscending(StringLess, Sort(StringLess, keys))
    ensures Elements(Sort(StringLess, keys)) == Elements(keys)
  {
    StringOrder();
    SortStrict(StringLess, keys);
  }

  lemma {:induction false} CountBound(s: seq<string>)
    ensures |Elements(s)| <= |s|
    ensures |Elements(s)| == |s| ==> NoDuplicates(s)
  {
    if s != [] {
      var init, last := s[..|s| - 1], s[|s| - 1];
      CountBound(init);
      assert Elements(s) == Elements(init) + {last};
      assert s == init + [last];
      if last in Elements(init) {
        assert Elements(s) == Elements(init);
      }
    }
  }

  lemma GreedyExtends(g: Graph, order: seq<string>, current: string)
    requires Greedy(g, order) && IsReady(g, Elements(order), current)
    requires forall x | IsReady(g, Elements(order), x) :: x == current || StringLess(current, x)
    ensures Greedy(g, order + [current])
    ensures Elements(order + [current]) == Elements(order) + {current}
  {
    var longer := order + [current];
    forall i | 0 <= i < |longer| ensures longer[..i] == if i < |order| then order[..i] else order {
    }
  }

  /** Ordering every node proves the graph closed and acyclic ... */
  lemma CompleteOrder(g: Graph, ordered: seq<string>)
    requires Greedy(g, ordered) && |ordered| == |g|
    ensures TopologicalOrder(g, ordered) && Closed(g) && Acyclic(g)
  {
    GreedyTopological(g, ordered);
    OrderExcludesCycles(g, ordered);
    TopologicalClosed(g, ordered);
  }

  lemma TopologicalClosed(g: Graph, ordered: seq<string>)
    requires TopologicalOrder(g, ordered)
    ensures Closed(g)
  {
    forall k | k in g ensures g[k] <= g.Keys {
      assert k in Elements(ordered);
      var i := PositionOf(ordered, k);
      assert Elements(ordered[..i]) <= Elements(ordered);
    }
  }

  /** ... and getting stuck on a closed graph proves a cycle. */
  lemma IncompleteOrder(g: Graph, ordered: seq<string>)
    requires Greedy(g, ordered) && |ordered| != |g| && Closed(g)
    requires forall x :: !IsReady(g, Elements(ordered), x)
    ensures !Acyclic(g)
  {
    GreedyElements(g, ordered);
    assert |g| == |g.Keys|;
    assert Elements(ordered) != g.Keys;
    StuckMeansCycle(g, Elements(ordered));
  }

  lemma NodeCount(nodes: seq<Node>)
    ensures |GraphOf(nodes)| <= |nodes|
    ensures |GraphOf(nodes)| == |nodes| <==> NoDuplicates(Ids(nodes))
  {
    var g := GraphOf(nodes);
    assert |g| == |g.Keys|;
    CountBound(Ids(nodes));
    if NoDuplicates(Ids(nodes)) { CountElements(Ids(nodes)); }
  }

  lemma GreedyCount(g: Graph, ordered: seq<string>)
    requires Greedy(g, ordered)
    ensures |ordered| <= |g|
  {
    GreedyElements(g, ordered);
    SubsetCount(Elements(ordered), g.Keys);
    assert |g| == |g.Keys|;
  }

  lemma Outcome(g: Graph, count: nat, ordered: seq<string>)
    requires Greedy(g, ordered) && |g| <= count
    requires forall x :: !IsReady(g, Elements(ordered), x)
    ensures |ordered| == count <==> |g| == count && Closed(g) && Acyclic(g)
    ensures |ordered| == count ==> TopologicalOrder(g, ordered)
  {
    GreedyCount(g, ordered);
    if |ordered| == |g| {
      CompleteOrder(g, ordered);
    } else if Closed(g) {
      IncompleteOrder(g, ordered);
    }
  }

  // ---------------------------------------------------------------- _topological_ids

  /** The loop state: what is left of each dependency set, and the ready list. */
  ghost predicate Frontier(g: Graph, left: Graph, done: set<string>, ready: seq<string>) {
    && left.Keys == g.Keys
    && (forall x | x in g :: left[x] == g[x] - done)
    && (forall x :: x in ready <==> IsReady(g, done, x))
  }

  method DependencyMap(nodes: seq<Node>) returns (dependencies: Graph, keys: seq<string>)
    ensures dependencies == GraphOf(nodes)
    ensures NoDuplicates(keys) && Elements(keys) == dependencies.Keys
  {
    dependencies, keys := map[], [];
    for n := 0 to |nodes|
      invariant dependencies == GraphOf(nodes[..n])
      invariant NoDuplicates(keys) && Elements(keys) == dependencies.Keys
    {
      assert nodes[..n + 1][..n] == nodes[..n];
      if nodes[n].id !in dependencies { keys := keys + [nodes[n].id]; }
      dependencies := dependencies[nodes[n].id := Elements(nodes[n].dependsOn)];
    }
    assert nodes[..|nodes|] == nodes;
  }

  /** The inner loop: strike `current` from every dependency set and collect what becomes free. */
  method Release(dependencies: Graph, keys: seq<string>, current: string, done: seq<string>, ready: seq<string>)
      returns (left: Graph, free: seq<string>)
    requires Elements(keys) == dependencies.Keys && NoDuplicates(keys) && NoDuplicates(ready)
    ensures left.Keys == dependencies.Keys
    ensures forall x | x in dependencies :: left[x] == dependencies[x] - {current}
    ensures forall x :: x in free <==>
      x in ready || (x in dependencies && current in dependencies[x] && left[x] == {} && x !in done)
    ensures NoDuplicates(free)
  {
    left, free := dependencies, ready;
    for n := 0 to |keys|
      invariant left.Keys == dependencies.Keys
      invariant forall x | x in dependencies ::
        left[x] == if x in keys[..n] then dependencies[x] - {current} else dependencies[x]
      invariant forall x :: x in free <==>
        x in ready || (x in keys[..n] && current in dependencies[x] && left[x] == {} && x !in done)
      invariant NoDuplicates(free)
    {
      var id := keys[n];
      assert id in Elements(keys) && id !in keys[..n] && keys[..n + 1] == keys[..n] + [id];
      if current in left[id] {
        left := left[id := left[id] - {current}];
        if left[id] == {} && id !in done && id !in ready {
          free := free + [id];
        }
      }
    }
    assert keys[..|keys|] == keys;
  }

  /** Taking the head of the ready list keeps the order greedy and the frontier exact. */
  lemma FrontierStep(g: Graph, left: Graph, ordered: seq<string>, ready: seq<string>, after: Graph, free: seq<string>)
    requires Greedy(g, ordered) && Frontier(g, left, Elements(ordered), ready)
    requires ready != [] && StrictlyAscending(StringLess, ready)
    requires after.Keys == left.Keys && forall x | x in left :: after[x] == left[x] - {ready[0]}
    requires forall x :: x in free <==>
      x in ready[1..] || (x in left && ready[0] in left[x] && after[x] == {} && x !in ordered + [ready[0]])
    ensures Greedy(g, ordered + [ready[0]])
    ensures Frontier(g, after, Elements(ordered + [ready[0]]), free)
  {
    var current, done := ready[0], Elements(ordered);
    forall x | IsReady(g, done, x) ensures x == current || StringLess(current, x) {
      var i :| 0 <= i < |ready| && ready[i] == x;
    }
    GreedyExtends(g, ordered, current);
    forall x ensures x in free <==> IsReady(g, done + {current}, x) {
      StringOrder();
      if IsReady(g, done, x) && x != current {
        assert x in ready;
        assert x in ready[1..] by { var i :| 0 <= i < |ready| && ready[i] == x; assert ready[1..][i - 1] == x; }
      }
      if x in ready[1..] {
        var i :| 0 <= i < |ready[1..]| && ready[1..][i] == x;
        assert ready[i + 1] == x && x != current;
      }
    }
  }

  lemma SortReady(ready: seq<string>)
    requires NoDuplicates(ready)
    ensures StrictlyAscending(StringLess, Sort(StringLess, ready))
    ensures forall x :: x in Sort(StringLess, ready) <==> x in ready
  {
    StringOrder();
    SortStrict(StringLess, ready);
  }

  lemma StrictNoDuplicates(s: seq<string>)
    requires StrictlyAscending(StringLess, s)
    ensures NoDuplicates(s)
  {
    StringOrder();
  }

  method InitialReady(dependencies: Graph, keys: seq<string>) returns (ready: seq<string>)
    requires Elements(keys) == dependencies.Keys && NoDuplicates(keys)
    ensures StrictlyAscending(StringLess, ready)
    ensures forall x :: x in ready <==> x in dependencies && dependencies[x] == {}
  {
    ready := [];
    for n := 0 to |keys|
      invariant forall x :: x in ready <==> x in keys[..n] && dependencies[x] == {}
      invariant NoDuplicates(ready)
    {
      assert keys[n] in Elements(keys) && keys[n] !in keys[..n];
      if dependencies[keys[n]] == {} { ready := ready + [keys[n]]; }
    }
    assert keys[..|keys|] == keys;
    SortReady(ready);
    ready := Sort(StringLess, ready);
  }

  /** Succeeds exactly on duplicate-free, closed, acyclic graphs, with the greedy order. */
  method TopologicalIds(nodes: seq<Node>) returns (result: Result<seq<string>>)
    ensures result.Ok? <==> NoDuplicates(Ids(nodes)) && Closed(GraphOf(nodes)) && Acyclic(GraphOf(nodes))
    ensures result.Ok? ==> TopologicalOrder(GraphOf(nodes), result.value) && Greedy(GraphOf(nodes), result.value)
  {
    ghost var g := GraphOf(nodes);
    var dependencies, keys := DependencyMap(nodes);
    SortReady(keys);
    var sorted := Sort(StringLess, keys);
    StrictNoDuplicates(sorted);
    var ordered: seq<string> := [];
    var ready := InitialReady(dependencies, keys);
    while ready != []
      invariant StrictlyAscending(StringLess, ready) && Greedy(g, ordered)
      invariant Frontier(g, dependencies, Elements(ordered), ready)
      decreases |g| - |ordered|
    {
      var current := ready[0];
      StrictNoDuplicates(ready);
      var left, free := Release(dependencies, sorted, current, ordered + [current], ready[1..]);
      FrontierStep(g, dependencies, ordered, ready, left, free);
      GreedyCount(g, ordered + [current]);
      SortReady(free);
      dependencies, ordered, ready := left, ordered + [current], Sort(StringLess, free);
    }
    result := if |ordered| == |nodes| then Ok(ordered) else Err("pipeline contains a cycle");
    NodeCount(nodes);
    Outcome(g, |nodes|, ordered);
  }

  /** Any other topological order is lexicographically larger. */
  lemma LexicographicallyLeast(nodes: seq<Node>, order: seq<string>, other: seq<string>)
    requires TopologicalOrder(GraphOf(nodes), order) && Greedy(GraphOf(nodes), order)
    requires TopologicalOrder(GraphOf(nodes), other)
    ensures order == other || exists i :: FirstDifference(order, other, i)
  {
    GreedyLeast(GraphOf(nodes), order, other);
  }

  lemma {:induction false} GraphContents(nodes: seq<Node>)
    requires NoDuplicates(Ids(nodes))
    ensures forall i | 0 <= i < |nodes| :: GraphOf(nodes)[nodes[i].id] == Elements(nodes[i].dependsOn)
  {
    if nodes != [] {
      var last := |nodes| - 1;
      assert Ids(nodes) == Ids(nodes[..last]) + [nodes[last].id];
      GraphContents(nodes[..last]);
      forall i | 0 <= i < |nodes| ensures GraphOf(nodes)[nodes[i].id] == Elements(nodes[i].dependsOn) {
        assert Ids(nodes)[i] == nodes[i].id && Ids(nodes)[last] == nodes[last].id;
        if i < last { assert nodes[..last][i] == nodes[i]; }
      }
    }
  }

  /** The order does not depend on how the caller listed the nodes. */
  lemma InputOrderIrrelevant(nodes: seq<Node>, shuffled: seq<Node>, order: seq<string>, other: seq<string>)
    requires multiset(nodes) == multiset(shuffled)
    requires NoDuplicates(Ids(nodes)) && NoDuplicates(Ids(shuffled))
    requires TopologicalOrder(GraphOf(nodes), order) && Greedy(GraphOf(nodes), order)
    requires TopologicalOrder(GraphOf(shuffled), other) && Greedy(GraphOf(shuffled), other)
    ensures order == other
  {
    SameGraph(nodes, shuffled);
    var g := GraphOf(nodes);
    CountElements(order);
    CountElements(other);
    if order != other {
      var i := MismatchIndex(order, other);
      assert IsReady(g, Elements(order[..i]), order[i]) && IsReady(g, Elements(order[..i]), other[i]);
      StringLessTotal(order[i], other[i]);
    }
  }

  lemma SameGraph(nodes: seq<Node>, shuffled: seq<Node>)
    requires multiset(nodes) == multiset(shuffled)
    requires NoDuplicates(Ids(nodes)) && NoDuplicates(Ids(shuffled))
    ensures GraphOf(nodes) == GraphOf(shuffled)
  {
    SameElements(nodes, shuffled);
    forall k | k in GraphOf(nodes) ensures k in GraphOf(shuffled) && GraphOf(shuffled)[k] == GraphOf(nodes)[k] {
      SameEntry(nodes, shuffled, k);
    }
    forall k | k in GraphOf(shuffled) ensures k in GraphOf(nodes) { SameEntry(shuffled, nodes, k); }
  }

  lemma SameEntry(nodes: seq<Node>, shuffled: seq<Node>, k: string)
    requires forall node | node in nodes :: node in shuffled
    requires NoDuplicates(Ids(nodes)) && NoDuplicates(Ids(shuffled)) && k in GraphOf(nodes)
    ensures k in GraphOf(shuffled) && GraphOf(shuffled)[k] == GraphOf(nodes)[k]
  {
    var i := PositionOf(Ids(nodes), k);
    assert nodes[i] in nodes;
    SameId(nodes, nodes[i]);
    SameId(shuffled, nodes[i]);
  }

  lemma SameId(nodes: seq<Node>, node: Node)
    requires node in nodes
    ensures node.id in Ids(nodes)
    ensures NoDuplicates(Ids(nodes)) ==>
      node.id in GraphOf(nodes) && GraphOf(nodes)[node.id] == Elements(node.dependsOn)
  {
    var i :| 0 <= i < |nodes| && nodes[i] == node;
    assert Ids(nodes)[i] == node.id;
    if NoDuplicates(Ids(nodes)) { GraphContents(nodes); }
  }

  // ---------------------------------------------------------------- ancestors

  /** `x` is reached from `start` by one dependency edge or more. */
  ghost predicate Reaches(g: Graph, start: string, x: string) {
    exists path :: |path| >= 2 && IsPath(g, path) && path[0] == start && path[|path| - 1] == x
  }

  lemma ReachesNext(g: Graph, start: string, via: string, x: string)
    requires via in g && x in g[via]
    requires via == start || Reaches(g, start, via)
    ensures Reaches(g, start, x)
  {
    var path := [start];
    if via != start {
      path :| |path| >= 2 && IsPath(g, path) && path[0] == start && path[|path| - 1] == via;
    }
    assert IsPath(g, path + [x]);
  }

  /** A set that holds `start`'s dependencies and its own members' dependencies holds everything reachable. */
  lemma {:induction false} ClosureReaches(g: Graph, start: string, within: set<string>, path: seq<string>)
    requires Closed(g) && start in g && g[start] <= within <= g.Keys
    requires forall a | a in within :: g[a] <= within
    requires |path| >= 2 && IsPath(g, path) && path[0] == start
    ensures path[|path| - 1] in within
    decreases |path|
  {
    if |path| > 2 {
      var init := path[..|path| - 1];
      assert IsPath(g, init);
      ClosureReaches(g, start, within, init);
      assert path[|path| - 2] == init[|init| - 1];
    }
  }

  /** Pending and collected nodes are reachable, and nothing reachable in one step has been dropped. */
  ghost predicate Worklist(g: Graph, start: string, ancestors: set<string>, pending: seq<string>) {
    && start in g && ancestors <= g.Keys
    && (forall x | x in pending :: x in g && Reaches(g, start, x))
    && (forall x | x in ancestors :: Reaches(g, start, x))
    && (forall x | x in g[start] :: x in ancestors || x in pending)
    && (forall a, x | a in ancestors && x in g[a] :: x in ancestors || x in pending)
  }

  lemma WorklistStart(g: Graph, start: string, dependsOn: seq<string>)
    requires Closed(g) && start in g && g[start] == Elements(dependsOn)
    ensures Worklist(g, start, {}, dependsOn)
  {
    forall x | x in dependsOn ensures x in g && Reaches(g, start, x) {
      assert x in g[start];
      ReachesNext(g, start, start, x);
    }
  }

  lemma WorklistStep(g: Graph, start: string, ancestors: set<string>, rest: seq<string>, x: string,
      dependsOn: seq<string>)
    requires Closed(g) && Worklist(g, start, ancestors, rest + [x])
    requires g[x] == Elements(dependsOn)
    ensures Worklist(g, start, ancestors + {x}, rest + dependsOn)
    ensures x in ancestors ==> Worklist(g, start, ancestors, rest)
  {
    assert x in rest + [x];
    assert forall y | y in rest :: y in rest + [x];
    assert forall y | y in rest + [x] :: y in rest || y == x;
    forall y | y in dependsOn ensures y in g && Reaches(g, start, y) {
      assert y in g[x];
      ReachesNext(g, start, x, y);
    }
  }

  lemma WorklistDone(g: Graph, start: string, ancestors: set<string>)
    requires Closed(g) && Worklist(g, start, ancestors, [])
    ensures forall x :: x in ancestors <==> Reaches(g, start, x)
  {
    forall x | Reaches(g, start, x) ensures x in ancestors {
      var path :| |path| >= 2 && IsPath(g, path) && path[0] == start && path[|path| - 1] == x;
      ClosureReaches(g, start, ancestors, path);
    }
  }

  lemma FewerLeft(all: set<string>, done: set<string>, x: string)
    requires x in all && x !in done
    ensures |all - (done + {x})| < |all - done|
  {
    assert all - done == (all - (done + {x})) + {x};
  }

  /** The worklist of `ancestor_ids` computes exactly the transitive closure. */
  method AncestorIds(nodesById: map<string, Node>, start: string) returns (ancestors: set<string>)
    requires Closed(Dependencies(nodesById)) && start in nodesById
    ensures forall x :: x in ancestors <==> Reaches(Dependencies(nodesById), start, x)
    ensures ancestors <= nodesById.Keys
  {
    ghost var g := Dependencies(nodesById);
    var pending := nodesById[start].dependsOn;
    ancestors := {};
    WorklistStart(g, start, pending);
    while pending != []
      invariant Worklist(g, start, ancestors, pending)
      decreases |g.Keys - ancestors|, |pending|
    {
      var dependency, rest := pending[|pending| - 1], pending[..|pending| - 1];
      assert pending == rest + [dependency] && dependency in pending;
      WorklistStep(g, start, ancestors, rest, dependency, nodesById[dependency].dependsOn);
      pending := rest;
      if dependency !in ancestors {
        FewerLeft(g.Keys, ancestors, dependency);
        ancestors := ancestors + {dependency};
        pending := pending + nodesById[dependency].dependsOn;
      }
    }
    WorklistDone(g, start, ancestors);
  }

  function Dependencies(nodesById: map<string, Node>): (g: Graph)
    ensures g.Keys == nodesById.Keys
  {
    map k | k in nodesById :: Elements(nodesById[k].dependsOn)
  }

  // ---------------------------------------------------------------- stage conditions

  const BLOCKED_FACT := "message.blocked_from_analysis"

  function Prefix(scope: Scope): string { if scope == Global then "global" else "media" }

  function ProducedFacts(node: Node): set<string> {
    set i | 0 <= i < |node.labelKeys| :: Prefix(node.scope) + "." + node.labelKeys[i]
  }

  function NodesById(nodes: seq<Node>): (byId: map<string, Node>)
    ensures byId.Keys == Elements(Ids(nodes))
  {
    if nodes == [] then map[]
    else
      var last := nodes[|nodes| - 1];
      assert Ids(nodes) == Ids(nodes[..|nodes| - 1]) + [last.id];
      NodesById(nodes[..|nodes| - 1])[last.id := last]
  }

  lemma {:induction false} NodesByIdGraph(nodes: seq<Node>)
    ensures Dependencies(NodesById(nodes)) == GraphOf(nodes)
  {
    if nodes != [] {
      NodesByIdGraph(nodes[..|nodes| - 1]);
    }
  }

  lemma {:induction false} NodesByIdContents(nodes: seq<Node>)
    requires NoDuplicates(Ids(nodes))
    ensures forall i | 0 <= i < |nodes| :: nodes[i].id in NodesById(nodes) && NodesById(nodes)[nodes[i].id] == nodes[i]
  {
    if nodes != [] {
      var init, last := nodes[..|nodes| - 1], nodes[|nodes| - 1];
      assert Ids(nodes) == Ids(init) + [last.id];
      NodesByIdContents(init);
      assert NodesById(nodes) == NodesById(init)[last.id := last];
      forall i | 0 <= i < |init| ensures nodes[i].id != last.id && nodes[i] == init[i] {
        assert Ids(nodes)[i] == init[i].id;
      }
    }
  }

  lemma NodeAt(nodes: seq<Node>, k: string) returns (i: nat)
    requires NoDuplicates(Ids(nodes)) && k in NodesById(nodes)
    ensures i < |nodes| && nodes[i].id == k && NodesById(nodes)[k] == nodes[i]
  {
    i := PositionOf(Ids(nodes), k);
    NodesByIdContents(nodes);
  }

  /** What `validate_run_if` is given for one node. */
  ghost predicate ConditionAllowed(nodes: seq<Node>, node: Node) {
    node.runIf.None? || exists allowed ::
      && AllowedFacts(nodes, node, allowed)
      && Conditions.Valid(node.runIf.value, Some(allowed), 0)
  }

  ghost predicate AllowedFacts(nodes: seq<Node>, node: Node, allowed: set<string>) {
    forall f :: f in allowed <==>
      (f == BLOCKED_FACT || exists m :: m in nodes && Reaches(GraphOf(nodes), node.id, m.id) && f in ProducedFacts(m))
  }

  method AllowedFactKeys(nodes: seq<Node>, node: Node) returns (allowed: set<string>)
    requires NoDuplicates(Ids(nodes)) && Closed(GraphOf(nodes)) && node in nodes
    ensures AllowedFacts(nodes, node, allowed)
  {
    NodesByIdContents(nodes);
    NodesByIdGraph(nodes);
    SameId(nodes, node);
    var nodesById := NodesById(nodes);
    var ancestors := AncestorIds(nodesById, node.id);
    allowed := {BLOCKED_FACT};
    var remaining := ancestors;
    while remaining != {}
      invariant remaining <= ancestors
      invariant forall f :: f in allowed <==>
        (f == BLOCKED_FACT || exists a :: a in ancestors - remaining && f in ProducedFacts(nodesById[a]))
      decreases remaining
    {
      var a :| a in remaining;
      ghost var i := NodeAt(nodes, a);
      allowed := allowed + ProducedFacts(nodesById[a]);
      remaining := remaining - {a};
    }
    forall m | m in nodes && m.id in ancestors ensures nodesById[m.id] == m {
      var i :| 0 <= i < |nodes| && nodes[i] == m;
    }
  }

  /** `_validate_graph` and `_validate_conditions`, as run when a pipeline version is constructed. */
  method ValidateVersion(nodes: seq<Node>) returns (result: Result<seq<string>>)
    ensures result.Ok? <==>
      && nodes != [] && NoDuplicates(Ids(nodes)) && Closed(GraphOf(nodes)) && Acyclic(GraphOf(nodes))
      && forall i | 0 <= i < |nodes| :: ConditionAllowed(nodes, nodes[i])
    ensures result.Ok? ==> TopologicalOrder(GraphOf(nodes), result.value)
  {
    if nodes == [] { return Err("analysis pipeline must contain at least one node"); }
    result := TopologicalIds(nodes);
    if result.Err? { return; }
    for n := 0 to |nodes|
      invariant forall i | 0 <= i < n :: ConditionAllowed(nodes, nodes[i])
    {
      var allowed := AllowedFactKeys(nodes, nodes[n]);
      if nodes[n].runIf.Some? && !Conditions.Valid(nodes[n].runIf.value, Some(allowed), 0) {
        forall other | AllowedFacts(nodes, nodes[n], other) ensures other == allowed {}
        return Err("fact is not allowed by the routing schema");
      }
    }
  }

  /**
   * A condition of an accepted pipeline reads only the blocked flag and facts produced by a node that stands
   * strictly earlier in the execution order.
   */
  lemma ConditionsReadEarlierFacts(nodes: seq<Node>, order: seq<string>, position: nat, node: Node, fact: string)
    requires NoDuplicates(Ids(nodes)) && TopologicalOrder(GraphOf(nodes), order)
    requires node in nodes && ConditionAllowed(nodes, node) && node.runIf.Some?
    requires position < |order| && order[position] == node.id
    requires fact in Conditions.FactKeys(node.runIf.value)
    ensures fact == BLOCKED_FACT || exists m, i ::
      m in nodes && 0 <= i < position && order[i] == m.id && fact in ProducedFacts(m)
  {
    var g := GraphOf(nodes);
    var allowed :| AllowedFacts(nodes, node, allowed) && Conditions.Valid(node.runIf.value, Some(allowed), 0);
    Conditions.ValidFactsAllowed(node.runIf.value, allowed, 0);
    if fact != BLOCKED_FACT {
      var m :| m in nodes && Reaches(g, node.id, m.id) && fact in ProducedFacts(m);
      var path :| |path| >= 2 && IsPath(g, path) && path[0] == node.id && path[|path| - 1] == m.id;
      DependenciesEarlier(g, order, path, position);
      var i := PositionOf(order, m.id);
    }
  }
}
