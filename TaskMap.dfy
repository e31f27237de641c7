/**
 * The page state of scripts/main.js: `localStorage` (a map from keys to
 * strings), the global `selectedTeam` and the graph instance `cy`, with the
 * operations that read and write them: team selection and its restore on
 * load, the node-position and viewport slots, and the reset button.
 *
 * `JSON.parse` and `JSON.stringify` are parameters: `parse` yields `None`
 * where `JSON.parse` throws.
 */
module TaskMap {
  import opened Wrappers
  import opened HexColor
  import opened TaskGraph
  import opened Completion

  const SelectedTeamKey: string := "tm_selectedTeamId"
  const NodePositionsKey: string := "tm_nodePositions"
  const ViewportKey: string := "tm_viewport"

  datatype Viewport = Viewport(zoom: real, panX: real, panY: real)

  type Storage = map<string, string>

  /** `localStorage.getItem(key)` tested for truthiness: present and not the empty string. */
  predicate HasValue(storage: Storage, key: string)
  {
    key in storage && storage[key] != ""
  }

  /** What loadNodePositions returns for a given storage content. */
  function ReadPositions(storage: Storage, parse: string -> Option<PositionMap>): Option<PositionMap>
  {
    if HasValue(storage, NodePositionsKey) then parse(storage[NodePositionsKey]) else None
  }

  /** `TEAMS.find((t) => t.id === id)`: the first team with that id. */
  function FirstWithId(teams: seq<Team>, id: string): (r: Option<Team>)
    ensures r.Some? <==> exists i :: 0 <= i < |teams| && teams[i].id == id
    ensures r.Some? ==> exists i :: 0 <= i < |teams| && teams[i] == r.value && r.value.id == id
                                    && forall k :: 0 <= k < i ==> teams[k].id != id
  {
    if teams == [] then None
    else if teams[0].id == id then Some(teams[0])
    else
      var r := FirstWithId(teams[1..], id);
      assert forall i :: 1 <= i < |teams| ==> teams[i] == teams[1..][i - 1];
      r
  }

  /** The team populateTeamSelector selects: the cached one if it is some loaded team's id, else none. */
  function Restored(teams: seq<Team>, storage: Storage): Option<Team>
  {
    if HasValue(storage, SelectedTeamKey) then FirstWithId(teams, storage[SelectedTeamKey]) else None
  }

  /** What `selectTeam` leaves in storage. */
  function StoreSelection(storage: Storage, team: Option<Team>): Storage
  {
    if team.Some? then storage[SelectedTeamKey := team.value.id] else storage - {SelectedTeamKey}
  }

  /** `teamButtons`: every loaded team's id, mapped to the index of the last team with that id. */
  method TeamButtons(teams: seq<Team>) returns (buttons: map<string, nat>)
    ensures forall id :: id in buttons <==> exists i :: 0 <= i < |teams| && teams[i].id == id
    ensures forall id :: id in buttons ==>
      buttons[id] < |teams| && teams[buttons[id]].id == id
      && forall k :: buttons[id] < k < |teams| ==> teams[k].id != id
  {
    buttons := map[];
    for i := 0 to |teams|
      invariant forall id :: id in buttons <==> exists k :: 0 <= k < i && teams[k].id == id
      invariant forall id :: id in buttons ==>
        buttons[id] < i && teams[buttons[id]].id == id
        && forall k :: buttons[id] < k < i ==> teams[k].id != id
    {
      buttons := buttons[teams[i].id := i];
    }
  }

  /** `TEAMS.find(...)` as a loop. */
  method FindTeam(teams: seq<Team>, id: string) returns (r: Option<Team>)
    ensures r == FirstWithId(teams, id)
  {
    var i := 0;
    while i < |teams|
      invariant i <= |teams|
      invariant FirstWithId(teams, id) == FirstWithId(teams[i..], id)
    {
      if teams[i].id == id {
        return Some(teams[i]);
      }
      assert teams[i..][1..] == teams[i + 1..];
      i := i + 1;
    }
    r := None;
  }

  class App {
    var storage: Storage
    var selectedTeam: Option<Team>
    var cy: Scene?

    ghost predicate Valid()
      reads this, cy
    {
      (cy != null ==> cy.Valid()) && ColorParses(selectedTeam)
    }

    constructor (storage: Storage)
      ensures Valid()
      ensures this.storage == storage && selectedTeam.None? && cy == null
    {
      this.storage := storage;
      selectedTeam := None;
      cy := null;
      UnaffiliatedColorParses();
    }

    /** `cy = cytoscape({...})`: the instance the graph library builds from the elements. */
    method Attach(scene: Scene)
      requires Valid() && scene.Valid()
      modifies this`cy
      ensures Valid() && cy == scene
    {
      cy := scene;
    }

    /** loadNodePositions: the parsed slot, or `None` when it is missing, empty or unparsable. */
    method LoadNodePositions(parse: string -> Option<PositionMap>) returns (r: Option<PositionMap>)
      ensures NodePositionsKey !in storage ==> r.None?
      ensures NodePositionsKey in storage && storage[NodePositionsKey] == "" ==> r.None?
      ensures NodePositionsKey in storage && storage[NodePositionsKey] != "" ==> r == parse(storage[NodePositionsKey])
      ensures r == ReadPositions(storage, parse)
    {
      var cached := if NodePositionsKey in storage then Some(storage[NodePositionsKey]) else None;
      if cached.Some? && cached.value != "" {
        r := parse(cached.value);
      } else {
        r := None;
      }
    }

    /** parseTaskData as called at page start: the positions come from the storage slot. */
    method BuildElements(tasks: seq<Task>, parse: string -> Option<PositionMap>) returns (elements: seq<Element>)
      ensures elements == Elements(tasks, ReadPositions(storage, parse))
    {
      var nodePositions := LoadNodePositions(parse);
      elements := ParseTaskData(tasks, nodePositions);
    }

    /** updateGraphStyles: nothing without a graph, otherwise the overlay of the selected team. */
    method UpdateGraphStyles()
      requires Valid()
      modifies cy
      ensures Valid()
      ensures cy != null ==>
        && cy.nodeIds == old(cy.nodeIds) && cy.edgeSources == old(cy.edgeSources)
        && cy.nodePositions == old(cy.nodePositions)
        && (forall i :: 0 <= i < |cy.nodeIds| ==> (cy.nodeCompleted[i] <==> IsCompleted(selectedTeam, cy.nodeIds[i])))
        && (forall j :: 0 <= j < |cy.edgeSources| ==> (cy.edgeCompleted[j] <==> cy.nodeCompleted[cy.edgeSources[j]]))
        && cy.completedFill == Format(Channels(TeamColor(selectedTeam), -30))
        && cy.completedColor == TeamColor(selectedTeam)
    {
      if cy == null {
        return;
      }
      cy.ApplyCompletion(selectedTeam);
    }

    /** selectTeam: remember the team, restyle, and store or remove its id. */
    method SelectTeam(team: Option<Team>)
      requires Valid() && ColorParses(team)
      modifies this, cy
      ensures Valid()
      ensures selectedTeam == team && cy == old(cy)
      ensures storage == StoreSelection(old(storage), team)
      ensures team.Some? ==> SelectedTeamKey in storage && storage[SelectedTeamKey] == team.value.id
      ensures team.None? ==> SelectedTeamKey !in storage
      ensures forall k :: k != SelectedTeamKey ==>
        (k in storage <==> k in old(storage)) && (k in storage ==> storage[k] == old(storage)[k])
      ensures cy != null ==>
        && cy.nodeIds == old(cy.nodeIds) && cy.edgeSources == old(cy.edgeSources)
        && cy.nodePositions == old(cy.nodePositions)
        && (forall i :: 0 <= i < |cy.nodeIds| ==> (cy.nodeCompleted[i] <==> IsCompleted(team, cy.nodeIds[i])))
        && (forall j :: 0 <= j < |cy.edgeSources| ==> (cy.edgeCompleted[j] <==> cy.nodeCompleted[cy.edgeSources[j]]))
        && cy.completedFill == Format(Channels(TeamColor(team), -30))
        && cy.completedColor == TeamColor(team)
    {
      selectedTeam := team;
      UpdateGraphStyles();
      if team.Some? {
        storage := storage[SelectedTeamKey := team.value.id];
      } else {
        storage := storage - {SelectedTeamKey};
      }
    }

    /** populateTeamSelector, restore part: honour the cached id only if a loaded team has it. */
    method PopulateTeamSelector(teams: seq<Team>)
      requires Valid()
      requires forall i :: 0 <= i < |teams| ==> ColorParses(Some(teams[i]))
      modifies this, cy
      ensures Valid() && cy == old(cy)
      ensures selectedTeam == Restored(teams, old(storage))
      ensures storage == StoreSelection(old(storage), Restored(teams, old(storage)))
      ensures selectedTeam.Some? ==> storage == old(storage)
      ensures SelectedTeamKey in storage ==> exists i :: 0 <= i < |teams| && teams[i].id == storage[SelectedTeamKey]
      ensures cy != null ==>
        && cy.nodeIds == old(cy.nodeIds) && cy.edgeSources == old(cy.edgeSources)
        && cy.nodePositions == old(cy.nodePositions)
        && (forall i :: 0 <= i < |cy.nodeIds| ==> (cy.nodeCompleted[i] <==> IsCompleted(selectedTeam, cy.nodeIds[i])))
        && (forall j :: 0 <= j < |cy.edgeSources| ==> (cy.edgeCompleted[j] <==> cy.nodeCompleted[cy.edgeSources[j]]))
        && cy.completedFill == Format(Channels(TeamColor(selectedTeam), -30))
        && cy.completedColor == TeamColor(selectedTeam)
    {
      var teamButtons := TeamButtons(teams);
      var cachedTeamId := if SelectedTeamKey in storage then Some(storage[SelectedTeamKey]) else None;
      if cachedTeamId.Some? && cachedTeamId.value != "" && cachedTeamId.value in teamButtons {
        var team := FindTeam(teams, cachedTeamId.value);
        SelectTeam(team);
        assert old(storage)[SelectedTeamKey := cachedTeamId.value] == old(storage);
      } else {
        UnaffiliatedColorParses();
        SelectTeam(None);
      }
    }

    /** _saveNodePositions: the whole slot is replaced by the current positions of all nodes. */
    method SaveNodePositions(stringify: PositionMap -> string)
      requires Valid() && cy != null
      modifies this`storage
      ensures storage == old(storage)[NodePositionsKey := stringify(Snapshot(cy.nodeIds, cy.nodePositions))]
    {
      var positions := cy.Positions();
      storage := storage[NodePositionsKey := stringify(positions)];
    }

    /** _saveViewport: the whole slot is replaced by the current zoom and pan. */
    method SaveViewport(viewport: Viewport, stringify: Viewport -> string)
      modifies this`storage
      ensures storage == old(storage)[ViewportKey := stringify(viewport)]
    {
      storage := storage[ViewportKey := stringify(viewport)];
    }

    /** The reset button's storage effect: the position and viewport slots go, the team stays. */
    method ResetLayout()
      modifies this`storage
      ensures storage == old(storage) - {NodePositionsKey, ViewportKey}
      ensures NodePositionsKey !in storage && ViewportKey !in storage
      ensures forall k :: k != NodePositionsKey && k != ViewportKey ==>
        (k in storage <==> k in old(storage)) && (k in storage ==> storage[k] == old(storage)[k])
    {
      storage := storage - {NodePositionsKey};
      storage := storage - {ViewportKey};
    }

    /**
     * The reset layout's "layoutstop" callback: both slots are written again,
     * the positions from the nodes as the layout left them.
     */
    method LayoutStop(viewport: Viewport, stringify: PositionMap -> string, stringifyViewport: Viewport -> string)
      requires Valid() && cy != null
      modifies this`storage
      ensures storage == old(storage)[NodePositionsKey := stringify(Snapshot(cy.nodeIds, cy.nodePositions))]
                                     [ViewportKey := stringifyViewport(viewport)]
    {
      SaveNodePositions(stringify);
      SaveViewport(viewport, stringifyViewport);
    }
  }

  // ---------------------------------------------------------------- lemmas

  /** Saving positions and loading them back gives them back. */
  lemma SaveThenLoad(storage: Storage, p: PositionMap,
                     parse: string -> Option<PositionMap>, stringify: PositionMap -> string)
    requires parse(stringify(p)) == Some(p) && stringify(p) != ""
    ensures ReadPositions(storage[NodePositionsKey := stringify(p)], parse) == Some(p)
  {
  }

  /** Garbage in the slot reads as absent. */
  lemma CorruptSlotReadsAbsent(storage: Storage, garbage: string, parse: string -> Option<PositionMap>)
    requires parse(garbage).None?
    ensures ReadPositions(storage[NodePositionsKey := garbage], parse).None?
  {
  }

  /** After a reset no positions are read, and the team restored on the next load is the same as before. */
  lemma ResetKeepsTeam(storage: Storage, teams: seq<Team>, parse: string -> Option<PositionMap>)
    ensures ReadPositions(storage - {NodePositionsKey, ViewportKey}, parse).None?
    ensures Restored(teams, storage - {NodePositionsKey, ViewportKey}) == Restored(teams, storage)
  {
  }

  /**
   * Once the reset layout stops, the slot holds the new layout's positions again
   * and the restored team is still the one from before the reset.
   */
  lemma ResetThenLayoutStop(storage: Storage, teams: seq<Team>, p: PositionMap, v: Viewport,
                            parse: string -> Option<PositionMap>, stringify: PositionMap -> string,
                            stringifyViewport: Viewport -> string)
    requires parse(stringify(p)) == Some(p) && stringify(p) != ""
    ensures var after := (storage - {NodePositionsKey, ViewportKey})[NodePositionsKey := stringify(p)]
                                                                  [ViewportKey := stringifyViewport(v)];
      && ReadPositions(after, parse) == Some(p)
      && after[ViewportKey] == stringifyViewport(v)
      && Restored(teams, after) == Restored(teams, storage)
  {
  }

  /** The restored team is a loaded team with the cached id; and one is restored whenever such a team exists. */
  lemma RestoredIsLoadedTeam(teams: seq<Team>, storage: Storage)
    ensures Restored(teams, storage).Some? ==>
      Restored(teams, storage).value in teams && Restored(teams, storage).value.id == storage[SelectedTeamKey]
    ensures HasValue(storage, SelectedTeamKey) && (exists i :: 0 <= i < |teams| && teams[i].id == storage[SelectedTeamKey])
      ==> Restored(teams, storage).Some?
    ensures !HasValue(storage, SelectedTeamKey) ==> Restored(teams, storage).None?
  {
  }

  /**
   * Selecting a loaded team with a non-empty id and reloading restores it, given
   * unique team ids; selecting "Unaffiliated" and reloading restores none.
   */
  lemma SelectThenRestore(teams: seq<Team>, storage: Storage, k: nat)
    requires k < |teams| && teams[k].id != ""
    requires forall i, j :: 0 <= i < j < |teams| ==> teams[i].id != teams[j].id
    ensures Restored(teams, StoreSelection(storage, Some(teams[k]))) == Some(teams[k])
    ensures Restored(teams, StoreSelection(storage, None)).None?
  {
    var r := FirstWithId(teams, teams[k].id);
    var i :| 0 <= i < |teams| && teams[i] == r.value && r.value.id == teams[k].id
             && forall m :: 0 <= m < i ==> teams[m].id != teams[k].id;
    assert i == k;
  }

  /**
   * Two tasks, "t2" requiring "t1", and a team that completed "t1": the element
   * list is node t1, node t2, edge "t1>t2"; t1 is completed, t2 is not, and the
   * edge is completed because its source is.
   */
  lemma TwoTaskScenario()
    ensures var t1 := Task("t1", "Intro", "", None, None, Some([]));
      var t2 := Task("t2", "Next", "", None, None, Some(["t1"]));
      var red := Team("red", "Red", "#ff0000", ["t1"]);
      && Elements([t1, t2], None) == [NodeOf(t1, None), NodeOf(t2, None), EdgeElement("t1>t2", "t1", "t2")]
      && NodeMarks(["t1", "t2"], Some(red)) == [true, false]
      && EdgeMarks([0], NodeMarks(["t1", "t2"], Some(red))) == [true]
  {
    var t1 := Task("t1", "Intro", "", None, None, Some([]));
    var t2 := Task("t2", "Next", "", None, None, Some(["t1"]));
    assert [t1, t2][..1] == [t1];
    assert [t1][..0] == [];
    assert EdgesOf(t1) == [];
    assert Predicates(t2) == ["t1"];
    assert "t1" + ">" + "t2" == "t1>t2";
    assert |EdgesOf(t2)| == 1 && EdgesOf(t2)[0] == EdgeOf(t2, "t1");
    assert EdgesOf(t2) == [EdgeElement("t1>t2", "t1", "t2")];
    assert Elements([t1], None) == [NodeOf(t1, None)];
  }
}
