/** The task dependency graph of the documentation check, and its depth-first cycle search. */
module DependencyCheck {
  import opened Basics

  type TaskId = string

  datatype DependsOn = Absent | DependencyList(ids: seq<TaskId>) | Malformed

  datatype Task = Task(id: TaskId, dependsOn: DependsOn)

  datatype Finding =
    | NotAList(task: TaskId)
    | DependsOnItself(task: TaskId)
    | NoSuchTask(task: TaskId, dependency: TaskId)
    | DependencyCycle(path: seq<TaskId>)

  type Graph = map<TaskId, seq<TaskId>>

  // ----- the graph

  function TaskIds(tasks: seq<Task>): set<TaskId> {
    set t | t in tasks :: t.id
  }

  function Dependencies(task: Task): seq<TaskId> {
    if task.dependsOn.DependencyList? then task.dependsOn.ids else []
  }

  /** The edges that are kept: to another, existing task. */
  function Kept(ids: seq<TaskId>, taskIds: set<TaskId>, self: TaskId): (r: seq<TaskId>)
    ensures forall d :: d in r <==> d in ids && d in taskIds && d != self
  {
    if ids == [] then [] else
      var before := Kept(ids[..|ids| - 1], taskIds, self);
      var last := ids[|ids| - 1];
      assert ids == ids[..|ids| - 1] + [last];
      if last in taskIds && last != self then before + [last] else before
  }

  /** A later task with the same id replaces the earlier one's edges. */
  function GraphOf(tasks: seq<Task>, taskIds: set<TaskId>): Graph {
    if tasks == [] then map[] else
      var last := tasks[|tasks| - 1];
      GraphOf(tasks[..|tasks| - 1], taskIds)[last.id := Kept(Dependencies(last), taskIds, last.id)]
  }

  function EdgeFindings(task: TaskId, ids: seq<TaskId>, taskIds: set<TaskId>): seq<Finding> {
    if ids == [] then [] else
      var last := ids[|ids| - 1];
      EdgeFindings(task, ids[..|ids| - 1], taskIds)
      + (if last == task then [DependsOnItself(task)]
         else if last !in taskIds then [NoSuchTask(task, last)] else [])
  }

  function TaskFindings(tasks: seq<Task>, taskIds: set<TaskId>): seq<Finding> {
    if tasks == [] then [] else
      var last := tasks[|tasks| - 1];
      TaskFindings(tasks[..|tasks| - 1], taskIds)
      + (if last.dependsOn.Malformed? then [NotAList(last.id)] else [])
      + EdgeFindings(last.id, Dependencies(last), taskIds)
  }

  ghost predicate WellFormed(graph: Graph) {
    forall id | id in graph :: forall d | d in graph[id] :: d in graph && d != id
  }

  lemma {:induction false} GraphKeys(tasks: seq<Task>, taskIds: set<TaskId>)
    ensures GraphOf(tasks, taskIds).Keys == TaskIds(tasks)
    ensures forall id | id in GraphOf(tasks, taskIds) ::
      forall d | d in GraphOf(tasks, taskIds)[id] :: d in taskIds && d != id
  {
    if tasks != [] {
      GraphKeys(tasks[..|tasks| - 1], taskIds);
      assert tasks == tasks[..|tasks| - 1] + [tasks[|tasks| - 1]];
    }
  }

  /** Kept edges lead to tasks of the graph and never back to their own task. */
  lemma GraphIsWellFormed(tasks: seq<Task>)
    ensures WellFormed(GraphOf(tasks, TaskIds(tasks)))
    ensures GraphOf(tasks, TaskIds(tasks)).Keys == TaskIds(tasks)
  {
    GraphKeys(tasks, TaskIds(tasks));
  }

  // ----- cycles

  ghost predicate IsWalk(graph: Graph, path: seq<TaskId>) {
    && (forall i | 0 <= i < |path| :: path[i] in graph)
    && forall i | 0 <= i < |path| - 1 :: path[i + 1] in graph[path[i]]
  }

  /** A walk along at least one edge that ends where it began. */
  ghost predicate IsClosedWalk(graph: Graph, path: seq<TaskId>) {
    |path| >= 2 && IsWalk(graph, path) && path[0] == path[|path| - 1]
  }

  ghost predicate HasCycle(graph: Graph) {
    exists path :: IsClosedWalk(graph, path)
  }

  /** A closed walk that passes every other task at most once. */
  ghost predicate IsSimpleCycle(graph: Graph, path: seq<TaskId>) {
    IsClosedWalk(graph, path) && Distinct(path[1..])
  }

  /** Every edge out of `order[i]` leads to an earlier entry. */
  ghost predicate Topological(graph: Graph, order: seq<TaskId>) {
    forall i | 0 <= i < |order| ::
      order[i] in graph && forall d | d in graph[order[i]] :: d in order[..i]
  }

  lemma {:induction false} WalkDescends(graph: Graph, order: seq<TaskId>, path: seq<TaskId>, i: nat, k: nat)
    requires Topological(graph, order) && IsWalk(graph, path)
    requires i < |order| && 1 <= k < |path| && path[0] == order[i]
    ensures path[k] in order[..i]
  {
    if k == 1 {
      assert path[0 + 1] in graph[path[0]];
    } else {
      WalkDescends(graph, order, path, i, k - 1);
      var j :| 0 <= j < i && order[j] == path[k - 1];
      assert path[(k - 1) + 1] in graph[path[k - 1]];
      assert path[k] in order[..j];
    }
  }

  lemma NotEarlier(order: seq<TaskId>, i: nat)
    requires Distinct(order) && i < |order|
    ensures order[i] !in order[..i]
  {
  }

  /** A graph all of whose tasks can be ordered topologically has no cycle. */
  lemma TopologicalIsAcyclic(graph: Graph, order: seq<TaskId>)
    requires Topological(graph, order) && Distinct(order)
    requires graph.Keys <= Elements(order)
    ensures !HasCycle(graph)
  {
    forall path | IsClosedWalk(graph, path) ensures false {
      assert path[0] in graph;
      assert path[0] in Elements(order);
      var i :| 0 <= i < |order| && order[i] == path[0];
      NotEarlier(order, i);
      WalkDescends(graph, order, path, i, |path| - 1);
    }
  }

  // ----- the search

  datatype Color = Grey | Black

  /** The search's bookkeeping; `finished` lists the tasks in the order they turned black. */
  ghost predicate Consistent(graph: Graph, color: map<TaskId, Color>, stack: seq<TaskId>,
                             cycles: seq<seq<TaskId>>, finished: seq<TaskId>)
  {
    && WellFormed(graph)
    && color.Keys <= graph.Keys
    && (forall id :: id in stack <==> id in color && color[id] == Grey)
    && (forall id :: id in finished <==> id in color && color[id] == Black)
    && Distinct(stack) && Distinct(finished)
    && IsWalk(graph, stack)
    && (forall c | c in cycles :: IsSimpleCycle(graph, c))
    && (cycles == [] ==> Topological(graph, finished))
  }

  ghost predicate Reaches(graph: Graph, stack: seq<TaskId>, id: TaskId) {
    id in graph && forall top | stack != [] && top == stack[|stack| - 1] :: top in graph && id in graph[top]
  }

  lemma EnterKeeps(graph: Graph, color: map<TaskId, Color>, stack: seq<TaskId>,
                   cycles: seq<seq<TaskId>>, finished: seq<TaskId>, id: TaskId)
    requires Consistent(graph, color, stack, cycles, finished)
    requires id !in color && Reaches(graph, stack, id)
    ensures Consistent(graph, color[id := Grey], stack + [id], cycles, finished)
    ensures forall d | d in graph[id] :: Reaches(graph, stack + [id], d)
  {
    var stack' := stack + [id];
    forall i | 0 <= i < |stack'| - 1 ensures stack'[i + 1] in graph[stack'[i]] {
      assert stack'[i] == stack[i];
      if i == |stack| - 1 {
        assert stack'[i] == stack[|stack| - 1];
      } else {
        assert stack[i + 1] in graph[stack[i]];
      }
    }
    forall k ensures k in stack' <==> k in color[id := Grey] && color[id := Grey][k] == Grey {
      assert k in stack' <==> k in stack || k == id;
    }
  }

  lemma LeaveKeeps(graph: Graph, color: map<TaskId, Color>, stack: seq<TaskId>,
                   cycles: seq<seq<TaskId>>, finished: seq<TaskId>, id: TaskId)
    requires Consistent(graph, color, stack + [id], cycles, finished)
    requires cycles == [] ==> forall d | d in graph[id] :: d in color && color[d] == Black
    ensures Consistent(graph, color[id := Black], stack, cycles, finished + [id])
  {
    var stack', finished' := stack + [id], finished + [id];
    assert id in stack' && forall k | k in stack :: k in stack';
    forall i | 0 <= i < |stack| ensures stack[i] != id {
      assert stack'[i] != stack'[|stack|];
    }
    assert forall i | 0 <= i < |stack| :: stack[i] == stack'[i];
    forall i | 0 <= i < |stack| - 1 ensures stack[i + 1] in graph[stack[i]] {
      assert stack'[i + 1] in graph[stack'[i]];
    }
    if cycles == [] {
      forall i | 0 <= i < |finished'|
        ensures finished'[i] in graph && forall d | d in graph[finished'[i]] :: d in finished'[..i]
      {
        assert finished'[..i] == finished[..i];
        if i == |finished| {
          assert finished[..i] == finished;
        }
      }
    }
    forall k ensures k in finished' <==> k in color[id := Black] && color[id := Black][k] == Black {
      assert k in finished' <==> k in finished || k == id;
    }
    forall k ensures k in stack <==> k in color[id := Black] && color[id := Black][k] == Grey {
      assert k in stack' <==> k in stack || k == id;
    }
  }

  /** A grey task on the stack closes a cycle with the part of the stack above it. */
  lemma ReportKeeps(graph: Graph, color: map<TaskId, Color>, stack: seq<TaskId>,
                    cycles: seq<seq<TaskId>>, finished: seq<TaskId>, id: TaskId, at: nat)
    requires Consistent(graph, color, stack, cycles, finished)
    requires Reaches(graph, stack, id) && at < |stack| && stack[at] == id
    ensures Consistent(graph, color, stack, cycles + [stack[at..] + [id]], finished)
  {
    var path := stack[at..] + [id];
    forall i | 0 <= i < |path| - 1 ensures path[i] in graph && path[i + 1] in graph[path[i]] {
      assert path[i] == stack[at + i];
      if i < |path| - 2 {
        assert stack[at + i + 1] in graph[stack[at + i]];
      }
    }
    assert path[1..] == stack[at + 1..] + [id];
    assert IsSimpleCycle(graph, path);
  }

  lemma ColorFacts(graph: Graph, color: map<TaskId, Color>, stack: seq<TaskId>,
                   cycles: seq<seq<TaskId>>, finished: seq<TaskId>)
    requires Consistent(graph, color, stack, cycles, finished)
    ensures color.Keys <= graph.Keys
    ensures forall id :: id in stack <==> id in color && color[id] == Grey
  {
  }

  class CycleSearch {
    const graph: Graph
    var color: map<TaskId, Color>
    var stack: seq<TaskId>
    var cycles: seq<seq<TaskId>>
    ghost var finished: seq<TaskId>

    ghost predicate Valid()
      reads this
    {
      Consistent(graph, color, stack, cycles, finished)
    }

    constructor (graph: Graph)
      requires WellFormed(graph)
      ensures Valid() && this.graph == graph
      ensures color == map[] && stack == [] && cycles == [] && finished == []
    {
      this.graph := graph;
      color, stack, cycles, finished := map[], [], [], [];
    }

    method Visit(id: TaskId)
      requires Valid() && Reaches(graph, stack, id)
      modifies this
      ensures Valid() && stack == old(stack)
      ensures old(cycles) <= cycles
      ensures old(color).Keys <= color.Keys && id in color
      ensures forall k | k in old(color) && old(color)[k] == Black :: k in color && color[k] == Black
      ensures cycles == [] ==> color[id] == Black
      decreases graph.Keys - color.Keys
    {
      hide Consistent;
      ColorFacts(graph, color, stack, cycles, finished);
      if id in color && color[id] == Black {
        return;
      }
      if id in color && color[id] == Grey {
        var at := IndexOf(stack, id);
        ReportKeeps(graph, color, stack, cycles, finished, id, at);
        cycles := cycles + [stack[at..] + [id]];
        return;
      }
      EnterKeeps(graph, color, stack, cycles, finished, id);
      color := color[id := Grey];
      stack := stack + [id];
      var dependencies := graph[id];
      var i := 0;
      while i < |dependencies|
        invariant i <= |dependencies|
        invariant Valid() && stack == old(stack) + [id]
        invariant old(cycles) <= cycles
        invariant old(color).Keys + {id} <= color.Keys
        invariant forall k | k in old(color) && old(color)[k] == Black :: k in color && color[k] == Black
        invariant cycles == [] ==> forall k | 0 <= k < i :: dependencies[k] in color && color[dependencies[k]] == Black
      {
        Visit(dependencies[i]);
        i := i + 1;
      }
      LeaveKeeps(graph, color, old(stack), cycles, finished, id);
      stack := stack[..|stack| - 1];
      color := color[id := Black];
      finished := finished + [id];
    }
  }

  method IndexOf(stack: seq<TaskId>, id: TaskId) returns (at: nat)
    requires id in stack
    ensures at < |stack| && stack[at] == id && id !in stack[..at]
  {
    at := 0;
    while stack[at] != id
      invariant at < |stack| && id !in stack[..at]
      decreases |stack| - at
    {
      at := at + 1;
    }
  }

  /** Every reported path is a simple cycle of the graph, and one is reported exactly when there is a cycle. */
  method FindCycles(graph: Graph, keys: seq<TaskId>) returns (cycles: seq<seq<TaskId>>)
    requires WellFormed(graph) && Elements(keys) == graph.Keys
    ensures forall c | c in cycles :: IsSimpleCycle(graph, c)
    ensures cycles != [] <==> HasCycle(graph)
  {
    var search := new CycleSearch(graph);
    var i := 0;
    while i < |keys|
      invariant i <= |keys|
      invariant search.graph == graph && search.Valid() && search.stack == []
      invariant forall k | 0 <= k < i :: keys[k] in search.color
      invariant fresh(search)
    {
      assert keys[i] in Elements(keys);
      search.Visit(keys[i]);
      i := i + 1;
    }
    cycles := search.cycles;
    if cycles == [] {
      forall id | id in graph ensures id in Elements(search.finished) {
        assert id in Elements(keys);
        assert id in search.color && id !in search.stack;
      }
      TopologicalIsAcyclic(graph, search.finished);
    } else {
      assert cycles[0] in cycles;
    }
  }

  /** The cycle findings, after the others. */
  ghost predicate CycleReport(graph: Graph, plain: seq<Finding>, findings: seq<Finding>) {
    && |plain| <= |findings| && findings[..|plain|] == plain
    && (forall k | |plain| <= k < |findings| ::
          findings[k].DependencyCycle? && IsSimpleCycle(graph, findings[k].path))
    && (|plain| < |findings| <==> HasCycle(graph))
  }

  /** The edges of one task. */
  method KeepEdges(task: TaskId, ids: seq<TaskId>, taskIds: set<TaskId>)
    returns (kept: seq<TaskId>, findings: seq<Finding>)
    ensures kept == Kept(ids, taskIds, task)
    ensures findings == EdgeFindings(task, ids, taskIds)
  {
    kept, findings := [], [];
    var j := 0;
    while j < |ids|
      invariant j <= |ids|
      invariant findings == EdgeFindings(task, ids[..j], taskIds)
      invariant kept == Kept(ids[..j], taskIds, task)
    {
      var d := ids[j];
      if d == task {
        findings := findings + [DependsOnItself(task)];
      } else if d !in taskIds {
        findings := findings + [NoSuchTask(task, d)];
      } else {
        kept := kept + [d];
      }
      assert ids[..j + 1][..j] == ids[..j];
      j := j + 1;
    }
    assert ids[..j] == ids;
  }

  method BuildGraph(tasks: seq<Task>) returns (graph: Graph, keys: seq<TaskId>, findings: seq<Finding>)
    ensures graph == GraphOf(tasks, TaskIds(tasks))
    ensures Elements(keys) == graph.Keys
    ensures findings == TaskFindings(tasks, TaskIds(tasks))
  {
    hide Kept, EdgeFindings, Dependencies, TaskIds;
    var taskIds := TaskIds(tasks);
    graph, keys, findings := map[], [], [];
    var i := 0;
    while i < |tasks|
      invariant i <= |tasks|
      invariant graph == GraphOf(tasks[..i], taskIds)
      invariant Elements(keys) == graph.Keys
      invariant findings == TaskFindings(tasks[..i], taskIds)
    {
      var task := tasks[i];
      if task.dependsOn.Malformed? {
        findings := findings + [NotAList(task.id)];
      }
      var kept, more := KeepEdges(task.id, Dependencies(task), taskIds);
      findings := findings + more;
      if task.id !in graph {
        ElementsAppend(keys, task.id);
        keys := keys + [task.id];
      }
      graph := graph[task.id := kept];
      assert tasks[..i + 1][..i] == tasks[..i];
      i := i + 1;
    }
    assert tasks[..i] == tasks;
  }

  /** The dependency part of the check. */
  method CheckDependencies(tasks: seq<Task>) returns (findings: seq<Finding>)
    ensures CycleReport(GraphOf(tasks, TaskIds(tasks)), TaskFindings(tasks, TaskIds(tasks)), findings)
  {
    hide WellFormed, IsSimpleCycle, HasCycle, TaskFindings, GraphOf, TaskIds;
    var graph, keys, plain := BuildGraph(tasks);
    GraphIsWellFormed(tasks);
    var cycles := FindCycles(graph, keys);
    findings := plain;
    var k := 0;
    while k < |cycles|
      invariant k <= |cycles|
      invariant |findings| == |plain| + k && findings[..|plain|] == plain
      invariant forall n | |plain| <= n < |findings| ::
        findings[n].DependencyCycle? && IsSimpleCycle(graph, findings[n].path)
    {
      assert cycles[k] in cycles;
      findings := findings + [DependencyCycle(cycles[k])];
      k := k + 1;
    }
  }

  // ----- what the findings say of the tasks

  /** The finding is true of the tasks. */
  ghost predicate Applies(tasks: seq<Task>, finding: Finding) {
    match finding
    case NotAList(id) => exists t | t in tasks :: t.id == id && t.dependsOn.Malformed?
    case DependsOnItself(id) => exists t | t in tasks :: t.id == id && Names(t, id)
    case NoSuchTask(id, d) =>
      && (exists t | t in tasks :: t.id == id && Names(t, d))
      && d != id && forall t | t in tasks :: t.id != d
    case DependencyCycle(_) => false
  }

  ghost predicate Names(task: Task, d: TaskId) {
    task.dependsOn.DependencyList? && d in task.dependsOn.ids
  }

  lemma {:induction false} EdgeFindingsMeaning(task: TaskId, ids: seq<TaskId>, taskIds: set<TaskId>)
    ensures forall f :: f in EdgeFindings(task, ids, taskIds) <==>
      || (f == DependsOnItself(task) && task in ids)
      || (f.NoSuchTask? && f.task == task && f.dependency in ids && f.dependency != task && f.dependency !in taskIds)
  {
    if ids != [] {
      EdgeFindingsMeaning(task, ids[..|ids| - 1], taskIds);
      assert ids == ids[..|ids| - 1] + [ids[|ids| - 1]];
    }
  }

  /** What is wrong with one task. */
  ghost predicate WrongWith(t: Task, taskIds: set<TaskId>, f: Finding) {
    || (f == NotAList(t.id) && t.dependsOn.Malformed?)
    || (f == DependsOnItself(t.id) && Names(t, t.id))
    || (f.NoSuchTask? && f.task == t.id && Names(t, f.dependency) && f.dependency != t.id && f.dependency !in taskIds)
  }

  lemma {:induction false} TaskFindingsFrom(tasks: seq<Task>, taskIds: set<TaskId>, f: Finding)
    ensures f in TaskFindings(tasks, taskIds) <==> exists t :: t in tasks && WrongWith(t, taskIds, f)
  {
    if tasks != [] {
      var front, last := tasks[..|tasks| - 1], tasks[|tasks| - 1];
      TaskFindingsFrom(front, taskIds, f);
      EdgeFindingsMeaning(last.id, Dependencies(last), taskIds);
      assert f in TaskFindings(tasks, taskIds) <==> f in TaskFindings(front, taskIds) || WrongWith(last, taskIds, f);
      hide TaskFindings, WrongWith;
      assert tasks == front + [last];
      if t :| t in tasks && WrongWith(t, taskIds, f) {
        assert t in front || t == last;
      }
      if t :| t in front && WrongWith(t, taskIds, f) {
        assert t in tasks;
      }
      assert last in tasks;
    }
  }

  /** A malformed list, a self reference and a missing task each have their finding, and there is no other. */
  lemma FindingsAreExact(tasks: seq<Task>)
    ensures forall f :: f in TaskFindings(tasks, TaskIds(tasks)) <==> Applies(tasks, f)
  {
    hide TaskFindings;
    forall f ensures f in TaskFindings(tasks, TaskIds(tasks)) <==> Applies(tasks, f) {
      TaskFindingsFrom(tasks, TaskIds(tasks), f);
      if t :| t in tasks && WrongWith(t, TaskIds(tasks), f) {
        assert Applies(tasks, f);
      }
      if Applies(tasks, f) {
        WrongTask(tasks, f);
      }
    }
  }

  lemma WrongTask(tasks: seq<Task>, f: Finding)
    requires Applies(tasks, f)
    ensures exists t :: t in tasks && WrongWith(t, TaskIds(tasks), f)
  {
    var t :| t in tasks && t.id == f.task
      && (if f.NotAList? then t.dependsOn.Malformed? else Names(t, if f.DependsOnItself? then f.task else f.dependency));
    assert WrongWith(t, TaskIds(tasks), f);
  }

  /** The last task with this id lists the dependency. */
  ghost predicate Lists(tasks: seq<Task>, id: TaskId, d: TaskId) {
    exists k | 0 <= k < |tasks| ::
      tasks[k].id == id && Names(tasks[k], d) && forall j | k < j < |tasks| :: tasks[j].id != id
  }

  lemma {:induction false} GraphMeaning(tasks: seq<Task>, taskIds: set<TaskId>, id: TaskId, d: TaskId)
    ensures id in GraphOf(tasks, taskIds) && d in GraphOf(tasks, taskIds)[id] <==>
      Lists(tasks, id, d) && d in taskIds && d != id
  {
    if tasks != [] {
      var front, last := tasks[..|tasks| - 1], tasks[|tasks| - 1];
      GraphMeaning(front, taskIds, id, d);
      assert tasks == front + [last];
      ListsMore(front, last, id, d);
      var kept := Kept(Dependencies(last), taskIds, last.id);
      assert d in kept <==> Names(last, d) && d in taskIds && d != last.id;
      assert GraphOf(tasks, taskIds) == GraphOf(front, taskIds)[last.id := kept];
    }
  }

  lemma ListsMore(front: seq<Task>, last: Task, id: TaskId, d: TaskId)
    ensures Lists(front + [last], id, d) <==> if id == last.id then Names(last, d) else Lists(front, id, d)
  {
    var tasks := front + [last];
    assert tasks[|front|] == last;
    assert forall j | 0 <= j < |front| :: tasks[j] == front[j];
    if id == last.id && Names(last, d) {
      assert tasks[|front|].id == id && Names(tasks[|front|], d);
    }
    if id != last.id && Lists(front, id, d) {
      var k :| 0 <= k < |front| && front[k].id == id && Names(front[k], d) && forall j | k < j < |front| :: front[j].id != id;
      assert tasks[k].id == id && Names(tasks[k], d);
    }
    if id != last.id && Lists(tasks, id, d) {
      var k :| 0 <= k < |tasks| && tasks[k].id == id && Names(tasks[k], d) && forall j | k < j < |tasks| :: tasks[j].id != id;
      assert front[k].id == id && Names(front[k], d);
    }
  }

  /** A way along listed dependencies that comes back to where it began. */
  ghost predicate ComesBack(tasks: seq<Task>, path: seq<TaskId>) {
    && |path| >= 2 && path[0] == path[|path| - 1]
    && forall i | 0 <= i < |path| - 1 :: Lists(tasks, path[i], path[i + 1])
  }

  lemma WalksAreDependencies(tasks: seq<Task>, path: seq<TaskId>)
    requires forall f :: !Applies(tasks, f)
    ensures IsClosedWalk(GraphOf(tasks, TaskIds(tasks)), path) <==> ComesBack(tasks, path)
  {
    hide GraphOf;
    GraphKeys(tasks, TaskIds(tasks));
    var graph := GraphOf(tasks, TaskIds(tasks));
    forall id, d | Lists(tasks, id, d) ensures id in graph && d in graph && d in graph[id] {
      var k :| 0 <= k < |tasks| && tasks[k].id == id && Names(tasks[k], d);
      assert tasks[k] in tasks;
      assert !Applies(tasks, DependsOnItself(id)) && !Applies(tasks, NoSuchTask(id, d));
      GraphMeaning(tasks, TaskIds(tasks), id, d);
    }
    if ComesBack(tasks, path) {
      forall i | 0 <= i < |path| ensures path[i] in graph {
        var j := if i < |path| - 1 then i else 0;
        assert Lists(tasks, path[j], path[j + 1]);
      }
    }
    if IsClosedWalk(graph, path) {
      forall i | 0 <= i < |path| - 1 ensures Lists(tasks, path[i], path[i + 1]) {
        GraphMeaning(tasks, TaskIds(tasks), path[i], path[i + 1]);
      }
    }
  }

  /** The check passes exactly when every list is one, names other tasks that exist, and no way leads back. */
  lemma PassesExactly(tasks: seq<Task>, findings: seq<Finding>)
    requires CycleReport(GraphOf(tasks, TaskIds(tasks)), TaskFindings(tasks, TaskIds(tasks)), findings)
    ensures findings == [] <==> (forall f :: !Applies(tasks, f)) && forall path :: !ComesBack(tasks, path)
  {
    hide GraphOf, TaskFindings, TaskIds, Applies, ComesBack, IsClosedWalk;
    FindingsAreExact(tasks);
    var plain := TaskFindings(tasks, TaskIds(tasks));
    if plain != [] {
      assert Applies(tasks, plain[0]);
    } else {
      assert forall f :: !Applies(tasks, f);
      forall path ensures IsClosedWalk(GraphOf(tasks, TaskIds(tasks)), path) <==> ComesBack(tasks, path) {
        WalksAreDependencies(tasks, path);
      }
    }
  }
}
