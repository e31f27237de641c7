/**
 * `parseTaskData(tasks)` of scripts/main.js: the flat list of task records is
 * turned into the element list handed to the graph library — for each task
 * one node element, followed immediately by one edge element per prerequisite.
 * The cached positions that the source reads with `loadNodePositions()` are a
 * parameter here (see TaskMap.App.BuildElements for the call).
 */
module TaskGraph {
  import opened Wrappers

  datatype Reward = Reward(name: string, description: Option<string>, icon: Option<string>)

  /** A task record of the tasks feed; `None` stands for a field that is absent. */
  datatype Task = Task(
    id: string,
    name: string,
    description: string,
    icon: Option<string>,
    rewards: Option<seq<Reward>>,
    predicates: Option<seq<string>>)

  /** A node coordinate, passed through unchanged. */
  datatype Position = Position(x: real, y: real)

  type PositionMap = map<string, Position>

  datatype NodeData = NodeData(id: string, name: string, description: string, icon: string, rewards: seq<Reward>)

  datatype Element =
    | NodeElement(data: NodeData, position: Option<Position>)
    | EdgeElement(id: string, source: string, target: string)

  /** `"icons/" + task?.icon`: an absent icon is printed as "undefined". */
  function IconPath(icon: Option<string>): string
  {
    "icons/" + icon.GetOr("undefined")
  }

  /** The prerequisite ids a task contributes edges for. */
  function Predicates(t: Task): seq<string>
  {
    t.predicates.GetOr([])
  }

  function NodeOf(t: Task, positions: Option<PositionMap>): Element
  {
    var data := NodeData(t.id, t.name, t.description, IconPath(t.icon), t.rewards.GetOr([]));
    if positions.Some? && t.id in positions.value then NodeElement(data, Some(positions.value[t.id]))
    else NodeElement(data, None)
  }

  function EdgeOf(t: Task, predicateId: string): Element
  {
    EdgeElement(predicateId + ">" + t.id, predicateId, t.id)
  }

  function EdgesOf(t: Task): seq<Element>
  {
    seq(|Predicates(t)|, j requires 0 <= j < |Predicates(t)| => EdgeOf(t, Predicates(t)[j]))
  }

  /** What one task contributes: its node, then its edges. */
  function Block(t: Task, positions: Option<PositionMap>): seq<Element>
  {
    [NodeOf(t, positions)] + EdgesOf(t)
  }

  /** The element list for `tasks`, in task order. */
  function Elements(tasks: seq<Task>, positions: Option<PositionMap>): seq<Element>
  {
    if tasks == [] then []
    else Elements(tasks[..|tasks| - 1], positions) + Block(tasks[|tasks| - 1], positions)
  }

  /** Total number of prerequisite references across `tasks`. */
  function PredicateCount(tasks: seq<Task>): nat
  {
    if tasks == [] then 0 else PredicateCount(tasks[..|tasks| - 1]) + |Predicates(tasks[|tasks| - 1])|
  }

  function NodeCount(es: seq<Element>): nat
  {
    if es == [] then 0 else NodeCount(es[..|es| - 1]) + (if es[|es| - 1].NodeElement? then 1 else 0)
  }

  function EdgeCount(es: seq<Element>): nat
  {
    if es == [] then 0 else EdgeCount(es[..|es| - 1]) + (if es[|es| - 1].EdgeElement? then 1 else 0)
  }

  /** parseTaskData: nested loops push each node and then its edges. */
  method ParseTaskData(tasks: seq<Task>, nodePositions: Option<PositionMap>) returns (elements: seq<Element>)
    ensures elements == Elements(tasks, nodePositions)
    ensures NodeCount(elements) == |tasks| && EdgeCount(elements) == PredicateCount(tasks)
  {
    elements := [];
    for i := 0 to |tasks|
      invariant elements == Elements(tasks[..i], nodePositions)
    {
      var task := tasks[i];
      var nodeData := NodeData(task.id, task.name, task.description, IconPath(task.icon), task.rewards.GetOr([]));
      var node := NodeElement(nodeData, None);
      if nodePositions.Some? && task.id in nodePositions.value {
        node := node.(position := Some(nodePositions.value[task.id]));
      }
      elements := elements + [node];
      if task.predicates.Some? && |task.predicates.value| > 0 {
        var ps := task.predicates.value;
        for j := 0 to |ps|
          invariant elements == Elements(tasks[..i], nodePositions) + [NodeOf(task, nodePositions)] + EdgesOf(task)[..j]
        {
          elements := elements + [EdgeElement(ps[j] + ">" + task.id, ps[j], task.id)];
          assert EdgesOf(task)[..j + 1] == EdgesOf(task)[..j] + [EdgeOf(task, ps[j])];
        }
      }
      assert tasks[..i + 1][..i] == tasks[..i];
      assert EdgesOf(task)[..|EdgesOf(task)|] == EdgesOf(task);
    }
    assert tasks[..|tasks|] == tasks;
    ElementCounts(tasks, nodePositions);
  }

  // ---------------------------------------------------------------- lemmas

  lemma {:induction false} NodeCountConcat(a: seq<Element>, b: seq<Element>)
    ensures NodeCount(a + b) == NodeCount(a) + NodeCount(b)
    ensures EdgeCount(a + b) == EdgeCount(a) + EdgeCount(b)
    decreases |b|
  {
    if b != [] {
      assert (a + b)[..|a + b| - 1] == a + b[..|b| - 1];
      assert (a + b)[|a + b| - 1] == b[|b| - 1];
      NodeCountConcat(a, b[..|b| - 1]);
    } else {
      assert a + b == a;
    }
  }

  lemma EdgesOfCounts(t: Task)
    ensures NodeCount(EdgesOf(t)) == 0 && EdgeCount(EdgesOf(t)) == |Predicates(t)|
  {
    var es := EdgesOf(t);
    var k := 0;
    while k < |es|
      invariant k <= |es|
      invariant NodeCount(es[..k]) == 0 && EdgeCount(es[..k]) == k
    {
      assert es[..k + 1][..k] == es[..k];
      k := k + 1;
    }
    assert es[..|es|] == es;
  }

  /** One node element per task and one edge element per prerequisite reference. */
  lemma {:induction false} ElementCounts(tasks: seq<Task>, positions: Option<PositionMap>)
    ensures NodeCount(Elements(tasks, positions)) == |tasks|
    ensures EdgeCount(Elements(tasks, positions)) == PredicateCount(tasks)
    ensures |Elements(tasks, positions)| == |tasks| + PredicateCount(tasks)
  {
    if tasks != [] {
      var init, t := tasks[..|tasks| - 1], tasks[|tasks| - 1];
      ElementCounts(init, positions);
      EdgesOfCounts(t);
      NodeCountConcat([NodeOf(t, positions)], EdgesOf(t));
      assert NodeCount([NodeOf(t, positions)]) == 1 by {
        assert [NodeOf(t, positions)][..0] == [];
      }
      assert EdgeCount([NodeOf(t, positions)]) == 0 by {
        assert [NodeOf(t, positions)][..0] == [];
      }
      NodeCountConcat(Elements(init, positions), Block(t, positions));
    }
  }

  /** The elements of the first `k` tasks are a prefix of the elements of all of them. */
  lemma {:induction false} ElementsPrefix(tasks: seq<Task>, k: nat, positions: Option<PositionMap>)
    requires k <= |tasks|
    ensures Elements(tasks[..k], positions) <= Elements(tasks, positions)
    decreases |tasks|
  {
    if k < |tasks| {
      var init := tasks[..|tasks| - 1];
      assert init[..k] == tasks[..k];
      ElementsPrefix(init, k, positions);
    } else {
      assert tasks[..k] == tasks;
    }
  }

  /**
   * Layout: the node of task `k` sits right after the elements of all earlier
   * tasks, and its edges follow it immediately, in prerequisite order.
   */
  lemma BlockLayout(tasks: seq<Task>, k: nat, positions: Option<PositionMap>)
    requires k < |tasks|
    ensures var o := |Elements(tasks[..k], positions)|;
      && o + 1 + |Predicates(tasks[k])| <= |Elements(tasks, positions)|
      && Elements(tasks, positions)[o] == NodeOf(tasks[k], positions)
      && (forall j :: 0 <= j < |Predicates(tasks[k])| ==>
            Elements(tasks, positions)[o + 1 + j] == EdgeOf(tasks[k], Predicates(tasks[k])[j]))
      && |Elements(tasks[..k + 1], positions)| == o + 1 + |Predicates(tasks[k])|
  {
    var pre := tasks[..k + 1];
    assert pre[..|pre| - 1] == tasks[..k];
    ElementsPrefix(tasks, k + 1, positions);
    var all, head, block := Elements(tasks, positions), Elements(tasks[..k], positions), Block(tasks[k], positions);
    assert Elements(pre, positions) == head + block;
    var o := |head|;
    assert all[o] == block[0];
    forall j | 0 <= j < |Predicates(tasks[k])|
      ensures all[o + 1 + j] == EdgeOf(tasks[k], Predicates(tasks[k])[j])
    {
      assert all[o + 1 + j] == (head + block)[o + 1 + j] == block[1 + j];
    }
  }

  /**
   * A node carries a position exactly when a positions map is present and has
   * an entry for the node's id, and then it carries that entry.
   */
  lemma NodePosition(tasks: seq<Task>, k: nat, positions: Option<PositionMap>)
    requires k < |tasks|
    ensures |Elements(tasks[..k], positions)| < |Elements(tasks, positions)|
    ensures var e := Elements(tasks, positions)[|Elements(tasks[..k], positions)|];
      && e.NodeElement? && e.data.id == tasks[k].id
      && (e.position.Some? <==> positions.Some? && tasks[k].id in positions.value)
      && (e.position.Some? ==> e.position.value == positions.value[tasks[k].id])
  {
    BlockLayout(tasks, k, positions);
  }

  /** Node fields: the icon is always prefixed with "icons/", absent rewards become []. */
  lemma NodeFields(tasks: seq<Task>, k: nat, positions: Option<PositionMap>)
    requires k < |tasks|
    ensures |Elements(tasks[..k], positions)| < |Elements(tasks, positions)|
    ensures var e := Elements(tasks, positions)[|Elements(tasks[..k], positions)|];
      && e.NodeElement?
      && |e.data.icon| >= 6 && e.data.icon[..6] == "icons/"
      && (tasks[k].icon.Some? ==> e.data.icon[6..] == tasks[k].icon.value)
      && (tasks[k].rewards.None? ==> e.data.rewards == [])
      && (tasks[k].rewards.Some? ==> e.data.rewards == tasks[k].rewards.value)
      && e.data.name == tasks[k].name && e.data.description == tasks[k].description
  {
    BlockLayout(tasks, k, positions);
  }

  /**
   * Every edge joins a prerequisite id to the id of the task that names it,
   * and its id is the two joined by ">".
   */
  lemma {:induction false} EdgeShape(tasks: seq<Task>, positions: Option<PositionMap>, i: nat)
    requires i < |Elements(tasks, positions)| && Elements(tasks, positions)[i].EdgeElement?
    ensures var e := Elements(tasks, positions)[i];
      && e.id == e.source + ">" + e.target
      && exists k :: 0 <= k < |tasks| && tasks[k].id == e.target && e.source in Predicates(tasks[k])
  {
    var init, t := tasks[..|tasks| - 1], tasks[|tasks| - 1];
    var e := Elements(tasks, positions)[i];
    var head := Elements(init, positions);
    if i < |head| {
      EdgeShape(init, positions, i);
      var k :| 0 <= k < |init| && init[k].id == e.target && e.source in Predicates(init[k]);
      assert tasks[k] == init[k];
    } else {
      var j := i - |head| - 1;
      assert e == EdgeOf(t, Predicates(t)[j]);
      assert tasks[|tasks| - 1] == t;
    }
  }

  /** Every node element is the node of some task. */
  lemma {:induction false} NodeOrigin(tasks: seq<Task>, positions: Option<PositionMap>, i: nat)
    requires i < |Elements(tasks, positions)| && Elements(tasks, positions)[i].NodeElement?
    ensures exists k :: 0 <= k < |tasks| && Elements(tasks, positions)[i] == NodeOf(tasks[k], positions)
  {
    var init, t := tasks[..|tasks| - 1], tasks[|tasks| - 1];
    var head := Elements(init, positions);
    if i < |head| {
      NodeOrigin(init, positions, i);
      var k :| 0 <= k < |init| && head[i] == NodeOf(init[k], positions);
      assert tasks[k] == init[k];
    } else {
      assert i == |head|;
      assert tasks[|tasks| - 1] == t;
    }
  }
}
