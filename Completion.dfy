/**
 * The completion overlay of scripts/main.js (`updateGraphStyles`): with a team
 * selected, the nodes whose ids the team lists as completed carry the class
 * "completed", and so does every edge whose source node carries it; the
 * ".completed" style is recoloured from the team's colour.
 *
 * `Scene` stands for the graph library's instance: the node ids and positions,
 * each edge's source node, the per-element "completed" class and the two
 * colours of the ".completed" style that the overlay writes.
 */
module Completion {
  import opened Wrappers
  import opened HexColor
  import opened TaskGraph

  /** A team record of the teams feed. */
  datatype Team = Team(id: string, name: string, color: string, completedTasks: seq<string>)

  /** The colour used when no team is selected ("Unaffiliated"). */
  const UnaffiliatedColor: string := "#6b7280"

  /** The colour of the ".completed" node and edge style in the base style sheet. */
  const InitialCompletedColor: string := "#10b981"

  function TeamColor(team: Option<Team>): string
  {
    if team.Some? then team.value.color else UnaffiliatedColor
  }

  /** `selectedTeam ? selectedTeam.completedTasks.includes(id) : false`. */
  predicate IsCompleted(team: Option<Team>, id: string)
  {
    team.Some? && id in team.value.completedTasks
  }

  /** The team colour can be shifted without reaching the NaN path of `parseInt`. */
  predicate ColorParses(team: Option<Team>)
  {
    ChannelsParse(Expand(TeamColor(team)))
  }

  lemma UnaffiliatedColorParses()
    ensures ColorParses(None)
  {
    RgbWindows(UnaffiliatedColor);
  }

  /** The node marks the overlay produces. */
  function NodeMarks(ids: seq<string>, team: Option<Team>): (marks: seq<bool>)
    ensures |marks| == |ids|
  {
    seq(|ids|, i requires 0 <= i < |ids| => IsCompleted(team, ids[i]))
  }

  /** The edge marks: each edge copies the mark of its source node. */
  function EdgeMarks(sources: seq<nat>, nodeMarks: seq<bool>): (marks: seq<bool>)
    requires forall j :: 0 <= j < |sources| ==> sources[j] < |nodeMarks|
    ensures |marks| == |sources|
  {
    seq(|sources|, j requires 0 <= j < |sources| => nodeMarks[sources[j]])
  }

  /** With no team selected nothing is completed, neither node nor edge. */
  lemma UnaffiliatedMarksNothing(ids: seq<string>, sources: seq<nat>)
    requires forall j :: 0 <= j < |sources| ==> sources[j] < |ids|
    ensures forall i :: 0 <= i < |ids| ==> !NodeMarks(ids, None)[i]
    ensures forall j :: 0 <= j < |sources| ==> !EdgeMarks(sources, NodeMarks(ids, None))[j]
  {
  }

  /** An edge is completed exactly when the team lists its source node's id; its target plays no part. */
  lemma EdgeMarkFromSource(ids: seq<string>, sources: seq<nat>, team: Option<Team>, j: nat)
    requires forall j :: 0 <= j < |sources| ==> sources[j] < |ids|
    requires j < |sources|
    ensures EdgeMarks(sources, NodeMarks(ids, team))[j] <==> team.Some? && ids[sources[j]] in team.value.completedTasks
  {
  }

  /** The positions object built node by node: each node's id mapped to its position. */
  function Snapshot(ids: seq<string>, positions: seq<Position>): PositionMap
    requires |positions| == |ids|
  {
    if ids == [] then map[]
    else Snapshot(ids[..|ids| - 1], positions[..|ids| - 1])[ids[|ids| - 1] := positions[|ids| - 1]]
  }

  /** With distinct ids the snapshot has exactly one entry per node, holding that node's position. */
  lemma {:induction false} SnapshotSpec(ids: seq<string>, positions: seq<Position>)
    requires |positions| == |ids|
    requires forall i, k :: 0 <= i < k < |ids| ==> ids[i] != ids[k]
    ensures forall x :: x in Snapshot(ids, positions) <==> x in ids
    ensures forall i :: 0 <= i < |ids| ==> Snapshot(ids, positions)[ids[i]] == positions[i]
    ensures |Snapshot(ids, positions)| == |ids|
  {
    if ids != [] {
      var n := |ids| - 1;
      var before, m := Snapshot(ids[..n], positions[..n]), Snapshot(ids, positions);
      SnapshotSpec(ids[..n], positions[..n]);
      assert m == before[ids[n] := positions[n]];
      assert ids[n] !in before by {
        assert ids[n] !in ids[..n];
      }
      assert forall x :: x in ids <==> x in ids[..n] || x == ids[n] by {
        assert ids == ids[..n] + [ids[n]];
      }
      forall i | 0 <= i < n
        ensures m[ids[i]] == positions[i]
      {
        assert ids[..n][i] == ids[i] && positions[..n][i] == positions[i];
      }
      assert |m| == |before| + 1;
    }
  }

  class Scene {
    var nodeIds: seq<string>
    var nodePositions: seq<Position>
    /** For each edge, the index of its source node. */
    var edgeSources: seq<nat>
    var nodeCompleted: seq<bool>
    var edgeCompleted: seq<bool>
    /** "background-color" of the ".completed" style. */
    var completedFill: string
    /** "border-color", "line-color" and "target-arrow-color" of the ".completed" style. */
    var completedColor: string

    /** The graph library keeps node ids unique and every edge attached to a node. */
    ghost predicate Valid()
      reads this
    {
      && |nodePositions| == |nodeIds| == |nodeCompleted|
      && |edgeCompleted| == |edgeSources|
      && (forall j :: 0 <= j < |edgeSources| ==> edgeSources[j] < |nodeIds|)
      && (forall i, k :: 0 <= i < k < |nodeIds| ==> nodeIds[i] != nodeIds[k])
    }

    constructor (ids: seq<string>, positions: seq<Position>, sources: seq<nat>)
      requires |positions| == |ids|
      requires forall j :: 0 <= j < |sources| ==> sources[j] < |ids|
      requires forall i, k :: 0 <= i < k < |ids| ==> ids[i] != ids[k]
      ensures Valid()
      ensures nodeIds == ids && nodePositions == positions && edgeSources == sources
      ensures nodeCompleted == seq(|ids|, _ => false) && edgeCompleted == seq(|sources|, _ => false)
      ensures completedFill == InitialCompletedColor && completedColor == InitialCompletedColor
    {
      nodeIds, nodePositions, edgeSources := ids, positions, sources;
      nodeCompleted := seq(|ids|, _ => false);
      edgeCompleted := seq(|sources|, _ => false);
      completedFill, completedColor := InitialCompletedColor, InitialCompletedColor;
    }

    /** The body of `cy.batch` in updateGraphStyles: nodes first, then edges, then the style. */
    method ApplyCompletion(team: Option<Team>)
      requires Valid() && ColorParses(team)
      modifies this
      ensures Valid()
      ensures nodeIds == old(nodeIds) && nodePositions == old(nodePositions) && edgeSources == old(edgeSources)
      ensures forall i :: 0 <= i < |nodeIds| ==> (nodeCompleted[i] <==> IsCompleted(team, nodeIds[i]))
      ensures forall j :: 0 <= j < |edgeSources| ==> (edgeCompleted[j] <==> nodeCompleted[edgeSources[j]])
      ensures nodeCompleted == NodeMarks(nodeIds, team)
      ensures edgeCompleted == EdgeMarks(edgeSources, NodeMarks(nodeIds, team))
      ensures completedFill == Format(Channels(TeamColor(team), -30))
      ensures completedColor == TeamColor(team)
      ensures old(nodeCompleted) == NodeMarks(nodeIds, team)
              && old(edgeCompleted) == EdgeMarks(edgeSources, NodeMarks(nodeIds, team))
              && old(completedFill) == Format(Channels(TeamColor(team), -30))
              && old(completedColor) == TeamColor(team)
              ==> unchanged(this)
    {
      ghost var marks := NodeMarks(nodeIds, team);
      MarkNodes(team);
      assert nodeCompleted == marks;
      MarkEdges();
      assert edgeCompleted == EdgeMarks(edgeSources, marks);
      Restyle(team);
    }

    /** `cy.style().selector(".completed").style({...})`: the team colour, the fill darkened by 30%. */
    method Restyle(team: Option<Team>)
      requires ColorParses(team)
      modifies this`completedFill, this`completedColor
      ensures completedFill == Format(Channels(TeamColor(team), -30))
      ensures completedColor == TeamColor(team)
    {
      var teamColor := if team.Some? then team.value.color else UnaffiliatedColor;
      completedFill := TransformHex(teamColor, -30);
      completedColor := teamColor;
    }

    /** `cy.nodes().forEach(...)`: add or remove the class on every node. */
    method MarkNodes(team: Option<Team>)
      requires Valid()
      modifies this`nodeCompleted
      ensures Valid()
      ensures nodeCompleted == NodeMarks(nodeIds, team)
    {
      for i := 0 to |nodeIds|
        invariant |nodeCompleted| == |nodeIds|
        invariant forall k :: 0 <= k < i ==> nodeCompleted[k] == IsCompleted(team, nodeIds[k])
      {
        var isCompleted := if team.Some? then nodeIds[i] in team.value.completedTasks else false;
        nodeCompleted := nodeCompleted[i := isCompleted];
      }
    }

    /** `cy.edges().forEach(...)`: each edge copies the class of its source node. */
    method MarkEdges()
      requires Valid()
      modifies this`edgeCompleted
      ensures Valid()
      ensures edgeCompleted == EdgeMarks(edgeSources, nodeCompleted)
    {
      for j := 0 to |edgeSources|
        invariant |edgeCompleted| == |edgeSources|
        invariant forall k :: 0 <= k < j ==> edgeCompleted[k] == nodeCompleted[edgeSources[k]]
      {
        var source := edgeSources[j];
        edgeCompleted := edgeCompleted[j := nodeCompleted[source]];
      }
    }

    /**
     * The `positions` object of _saveNodePositions: one entry per node, keyed by
     * its id. (Both branches of the `grabbed()` test store the same position.)
     */
    method Positions() returns (positions: PositionMap)
      requires Valid()
      ensures positions == Snapshot(nodeIds, nodePositions)
      ensures forall id :: id in positions <==> id in nodeIds
      ensures forall i :: 0 <= i < |nodeIds| ==> positions[nodeIds[i]] == nodePositions[i]
      ensures |positions| == |nodeIds|
    {
      positions := map[];
      for i := 0 to |nodeIds|
        invariant positions == Snapshot(nodeIds[..i], nodePositions[..i])
      {
        assert nodeIds[..i + 1][..i] == nodeIds[..i] && nodePositions[..i + 1][..i] == nodePositions[..i];
        positions := positions[nodeIds[i] := nodePositions[i]];
      }
      assert nodeIds[..|nodeIds|] == nodeIds && nodePositions[..|nodeIds|] == nodePositions;
      SnapshotSpec(nodeIds, nodePositions);
    }
  }
}
