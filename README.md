# task-map: a verified model of the page logic

The task map is a single-page browser UI that draws a task graph (tasks are
nodes, prerequisites are edges), lets the user pick a team whose completed
tasks are highlighted, and keeps node positions, the camera and the chosen
team in browser-local storage. Its one script, `scripts/main.js`, is mostly
glue around a graph library. This project models the rules inside that glue,
and proves properties of them:

- `HexColor`: the colour shift `transformHex(hex, amount)`, written out over strings.
- `TaskGraph`: `parseTaskData`, which turns the task records into one node element per task, followed immediately by one edge element per prerequisite.
- `Completion`: the completion overlay of `updateGraphStyles`. `Scene` stands for the graph instance: node ids and positions, each edge's source node, the "completed" class of every element, and the colours of the ".completed" style.
- `Debounce`: `debounce(func, wait)` as a state machine over a logical clock. `Call(args, now)` cancels and reschedules; `Advance(now)` runs what is due.
- `TaskMap`: the page state, `App`. It holds `localStorage` as a `map<string, string>`, the selected team and the graph. Its operations are `selectTeam`, the restore step of `populateTeamSelector`, `loadNodePositions`, `_saveNodePositions`, `_saveViewport` and the storage effect of the reset button.

`JSON.parse` and `JSON.stringify` are function parameters. `parse` returns
`None` where `JSON.parse` would throw. The cached positions that
`parseTaskData` reads through `loadNodePositions()` are a parameter of
`TaskGraph.ParseTaskData`. `TaskMap.App.BuildElements` makes that call from
the storage slot.

`transformHex` is modelled as written, quirks included. A three-digit
shorthand such as `#fff` matches `/^#?([a-f\d])([a-f\d])([a-f\d])$/i`. The
whole match, `#` included, is replaced by `ffffff`. The loop then reads its
windows from index 1, so it gets `"ff"`, `"ff"` and `"f"`, and prints
`#ffff0f` (`HexColor.ShorthandWindows`, `HexColor.ShorthandExample`).

## Model

| member | source | states |
|---|---|---|
| `HexColor.TransformHex` | scripts/main.js:39-56 | For every input whose three windows parse, the result is `#` followed by six lower-case hex digits. It decodes to the three channels: each window parsed, scaled by floor(v·(100+amount)/100), and clamped to [0,255]. |
| `HexColor.Channel` | scripts/main.js:47-51 | Each channel value, after parsing, scaling, flooring and clamping, lies in [0,255]. |
| `HexColor.Hex2Spec` | scripts/main.js:52 | `("00" + v.toString(16)).slice(-2)` for v in [0,255] is exactly two lower-case hex digits that parse back to v. |
| `HexColor.FormatSpec` | scripts/main.js:45-55 | Printing three channels in [0,255] gives a well-formed lower-case `#rrggbb`. Decoding it gives the same three channels back. |
| `HexColor.ParseHex` | scripts/main.js:48 | `parseInt(part, 16)` of one or two hex digits is below 16 or below 256 respectively. |
| `HexColor.Clamp` | scripts/main.js:51 | The result lies in [0,255]. It equals the input inside that range, is 0 below it and 255 above it. |
| `HexColor.RgbWindows` | scripts/main.js:40-47 | A `#rrggbb` input is not rewritten. Its three windows are exactly the three digit pairs. |
| `HexColor.ZeroShiftKeepsChannels` | scripts/main.js:45-53 | A shift by 0 keeps every channel of a `#rrggbb` colour. |
| `HexColor.ChannelsMonotoneInAmount` | scripts/main.js:50-51 | A larger amount never gives a smaller channel. |
| `HexColor.DarkenNeverRaises` | scripts/main.js:50-51 | With amount ≤ 0, no channel of a `#rrggbb` colour increases. |
| `HexColor.LightenNeverLowers` | scripts/main.js:50-51 | With amount ≥ 0, no channel decreases, and each is capped at 255. |
| `HexColor.ShorthandWindows` | scripts/main.js:40-47 | For a shorthand `rgb` or `#rgb`, the windows read are `rg`, `gb` and `b`, and all of them parse. |
| `HexColor.ShorthandExample` | scripts/main.js:40-53 | `#fff` shifted by 0 has channels 255, 255, 15 and is printed `#ffff0f`. |
| `HexColor.DefaultCompletedFill` | scripts/main.js:159-186 | The completed fill for the default colour `#6b7280` at −30 is `#4a4f59`. |
| `TaskGraph.ParseTaskData` | scripts/main.js:118-155 | The nested loops produce exactly the element list `Elements(tasks, positions)`, with one node per task and one edge per prerequisite reference. |
| `TaskGraph.ElementCounts` | scripts/main.js:122-152 | The list has exactly N node elements and E edge elements, and N + E elements in all. N is the number of tasks and E the number of prerequisite references. |
| `TaskGraph.NodeCountConcat` | scripts/main.js:138-149 | Node and edge counts add up over concatenation, as the pushes accumulate. |
| `TaskGraph.ElementsPrefix` | scripts/main.js:122-152 | The elements of the first k tasks are a prefix of the whole list. Later tasks only append. |
| `TaskGraph.BlockLayout` | scripts/main.js:122-152 | Task k's node sits right after the elements of all earlier tasks, and its edges follow it immediately, in prerequisite order. |
| `TaskGraph.NodePosition` | scripts/main.js:134-136 | A node has a position iff the positions map is present and has an entry for its id. The position is that entry. |
| `TaskGraph.NodeFields` | scripts/main.js:123-131 | A node's icon always starts with `icons/` and is followed by the task's icon. Its rewards are the task's rewards, or `[]` when absent. Name and description are copied. |
| `TaskGraph.EdgeShape` | scripts/main.js:140-151 | Every edge's id is `source + ">" + target`. Its target is the id of a task, and its source is one of that task's prerequisite ids. |
| `TaskGraph.NodeOrigin` | scripts/main.js:122-138 | Every node element is the node of some task. |
| `Completion.Scene.constructor` | scripts/main.js:478-503 | A new graph has no completed node or edge. Its ".completed" style still has the base style sheet's `#10b981`. |
| `Completion.Scene.ApplyCompletion` | scripts/main.js:161-192 | A node is completed iff a team is selected and lists the node's id. An edge is completed iff its source node is. The style gets the team colour, with the fill darkened by 30%. Applied to a scene already showing that team, nothing changes. |
| `Completion.Scene.MarkNodes` | scripts/main.js:162-172 | After the node loop, every node's class is exactly the team's verdict on its id. |
| `Completion.Scene.MarkEdges` | scripts/main.js:174-181 | After the edge loop, every edge's class is its source node's class. |
| `Completion.Scene.Restyle` | scripts/main.js:159-191 | The ".completed" style gets the team colour (default `#6b7280`) and `transformHex(colour, -30)` as its fill. |
| `Completion.UnaffiliatedMarksNothing` | scripts/main.js:163-181 | With no team selected, no node and no edge is completed. |
| `Completion.EdgeMarkFromSource` | scripts/main.js:174-181 | An edge is completed iff the selected team lists its source node's id. The target plays no part. |
| `Completion.Scene.Positions` | scripts/main.js:59-66 | The positions object has exactly one entry per node, keyed by its id and holding its position. |
| `Completion.SnapshotSpec` | scripts/main.js:59-66 | With distinct node ids, the snapshot's keys are the node ids, each maps to that node's position, and its size is the node count. |
| `Debounce.Debouncer.constructor` | scripts/main.js:30-31 | A fresh wrapper has nothing pending and has run nothing. |
| `Debounce.Debouncer.Call` | scripts/main.js:32-36 | A call cancels what is pending and schedules its own arguments at now + wait. Nothing runs. |
| `Debounce.Debouncer.Advance` | scripts/main.js:35 | When the clock reaches the due time, the pending run happens once with its arguments and is no longer pending. Otherwise nothing changes. |
| `Debounce.BurstKeepsOnlyLast` | scripts/main.js:30-37 | After calls in quick succession, nothing has run. Only the last call is pending, with its own arguments, due wait after it. |
| `Debounce.Coalesce` | scripts/main.js:30-37 | Once the clock reaches that due time, exactly one run has happened, with the last call's arguments. |
| `Debounce.SpacedCallsAllRun` | scripts/main.js:30-37 | Calls spaced at least wait apart all run, in order. |
| `TaskMap.FirstWithId` | scripts/main.js:219 | `find` returns a team iff some team has the id. It returns the first such team. |
| `TaskMap.TeamButtons` | scripts/main.js:206-215 | The button map's keys are exactly the loaded team ids. A duplicate id keeps the last team's entry. |
| `TaskMap.FindTeam` | scripts/main.js:219 | The search loop returns the first team with the id, or none. |
| `TaskMap.App.constructor` | scripts/main.js:6-7 | At page start no team is selected and there is no graph. Storage is whatever the browser holds. |
| `TaskMap.App.Attach` | scripts/main.js:422 | The graph instance is set once the library has built it. |
| `TaskMap.App.LoadNodePositions` | scripts/main.js:105-116 | Returns none for a missing or empty slot, and `parse`'s verdict otherwise, so none for unparsable text. It never fails. |
| `TaskMap.App.BuildElements` | scripts/main.js:118-120 | The elements are built with the positions read from the storage slot. |
| `TaskMap.App.UpdateGraphStyles` | scripts/main.js:157-193 | Without a graph nothing happens. Otherwise the graph shows the selected team's overlay. |
| `TaskMap.App.SelectTeam` | scripts/main.js:227-243 | Selecting a team stores its id under `tm_selectedTeamId`. Selecting none removes that key. No other key changes. With a graph, the node ids, positions and edges are kept, every node is marked exactly when the new team lists it, every edge takes its source node's mark, and the ".completed" style gets the new team's colour, with the fill darkened by 30%. |
| `TaskMap.App.PopulateTeamSelector` | scripts/main.js:217-224 | The cached id is honoured only when it is non-empty and some loaded team has it. Otherwise "Unaffiliated" is selected and the stale key removed. Afterwards a stored id always names a loaded team. With a graph, its nodes, positions and edges are kept and the overlay is that of the restored team (scripts/main.js:221, 223 and 236). |
| `TaskMap.App.SaveNodePositions` | scripts/main.js:58-68 | The position slot is replaced as a whole by the serialised snapshot of all current nodes. |
| `TaskMap.App.SaveViewport` | scripts/main.js:70-76 | The viewport slot is replaced as a whole. No other key changes. |
| `TaskMap.App.ResetLayout` | scripts/main.js:589-591 | Reset removes exactly `tm_nodePositions` and `tm_viewport`. Every other key, `tm_selectedTeamId` included, is kept. |
| `TaskMap.App.LayoutStop` | scripts/main.js:593-595 | When the reset layout stops, the position slot is replaced by the snapshot of the nodes as the layout left them, and the viewport slot by the current viewport. Nothing else changes. |
| `TaskMap.SaveThenLoad` | scripts/main.js:58-68 | Positions saved and loaded again come back unchanged, given that `parse` inverts `stringify`. |
| `TaskMap.CorruptSlotReadsAbsent` | scripts/main.js:105-116 | Unparsable text in the position slot reads as none. |
| `TaskMap.ResetKeepsTeam` | scripts/main.js:589-591 | Between the removals and the end of the layout no positions are read, and the same team is restored as before. |
| `TaskMap.ResetThenLayoutStop` | scripts/main.js:589-595 | After the whole reset, removals then the re-save at "layoutstop", the slot reads back the new layout's positions, the viewport slot holds the new viewport, and the restored team is unchanged. |
| `TaskMap.RestoredIsLoadedTeam` | scripts/main.js:217-224 | A restored team is a loaded team with the cached id. One is restored whenever such a team exists and the cached id is non-empty. |
| `TaskMap.SelectThenRestore` | scripts/main.js:217-242 | With unique team ids, selecting a loaded team with a non-empty id and reloading restores it. Selecting none and reloading restores none. |
| `TaskMap.TwoTaskScenario` | scripts/main.js:118-181 | Take t2 requiring t1, and a team that completed t1. The elements are node t1, node t2 and edge `t1>t2`. t1 is completed and t2 is not. The edge is completed because its source is. |

## Left out

- The graph library itself is not modelled: instantiation, style sheet, layout run, animations, `fit`, rendered positions and viewport queries. `Scene` only holds what the overlay and `_saveNodePositions` read and write. Each `cy.style().selector(".completed").style({...})` call appends a new ".completed" rule to the library's style sheet, and the last rule wins. `Scene` keeps only the colours of the last rule, so the "nothing changes" of `Completion.Scene.ApplyCompletion` holds for `Scene` but not for the growing style sheet.
- How the library turns elements into a `Scene` is not modelled either. `TaskMap.App.Attach` takes a `Scene` that keeps node ids unique and edges attached to existing nodes, as the library does. Edges whose source is missing are the library's concern.
- Modal templating, placeholder icons, modal dragging, the zoom slider and buttons, and `animateEdges` are not modelled. They are DOM presentation, floating point and frame timing.
- The `fetch` start-up and the order of calls at page load are not modelled, because they are I/O.
- `setTimeout` and `clearTimeout` are replaced by the logical clock of `Debounce`. The `this` binding kept by `func.apply(context, args)` is not modelled. The delays 100 and 250 are only parameters here.
- `HexColor.TransformHex`: does not model JavaScript float rounding of `value * (1 + amount / 100)`. The exact floor(v·(100+amount)/100) can differ from it by one when the exact product is an integer and the float product lands just below it. This happens at the −30 the overlay uses. In IEEE doubles `1 + -30 / 100` is just below 0.7, so channels 90, 170 and 180 (`5a`, `aa`, `b4`) give 62, 118 and 125, where the model gives 63, 119 and 126.
- `HexColor.TransformHex`: requires every window to be a non-empty run of hex digits, so the partial parses of `parseInt(part, 16)` are excluded too. These are a hex prefix followed by other characters ("1g" reads as 1), a sign ("-1" reads as −1, clamped to 0) and leading blanks. Only a window with no hex digit after its leading blanks, sign and `0x` prefix gives NaN. That includes the empty window, and also "0x", whose prefix `parseInt` strips. NaN prints `aN` for the channel. None of these paths is modelled.
- The modal's name colour `transformHex(selectedTeam.color, 20)` (scripts/main.js:252) is not modelled as a step, because it is modal presentation. `HexColor.LightenNeverLowers` covers what it computes.
- `Completion.Scene.ApplyCompletion` and `TaskMap.App.SelectTeam` carry `TransformHex`'s requirement on the team colour. `TaskMap.App.PopulateTeamSelector` requires it of every loaded team.
- `JSON.parse` and `JSON.stringify` are parameters, not implemented. Valid JSON that is not a map of positions is folded into `parse` returning none. The source instead goes on with the parsed value. A task-id lookup in it can give a truthy value that is not a position, and that value becomes the node's position. For `{"t1": 5}` the lookup gives 5. A string or array gives a character, an entry or a length, for ids such as `"0"` or `"length"`.
- The truthiness test on a cached position is taken as always true, since a stored position is an object.
- The viewport read at page start (scripts/main.js:543-552) is not modelled, because it only feeds the library's viewport. It has the same soft-fail rule as `loadNodePositions`.
- Button highlighting in the duplicate-team-id corner is not modelled, because it is DOM. There the button map keeps the later team (`TaskMap.TeamButtons`) while `find` returns the first (`TaskMap.FindTeam`).
- Edge id collisions are not guarded against, as in the source. Two edges with the same id are simply both emitted.
- `TaskMap.App.ResetLayout`: the layout run between the removals and "layoutstop" is the library's. The positions it leaves are whatever the `Scene` holds when `TaskMap.App.LayoutStop` runs. The slider update in the same callback is DOM.
- JavaScript object corners are not modelled:
  - A JSON `null` icon prints `icons/null` (scripts/main.js:129), while `Option` folds it into absent, which gives `icons/undefined`.
  - A task id naming an `Object.prototype` member such as `constructor` finds an inherited, truthy position at scripts/main.js:134, while the model's map has no entry.
  - A node id `__proto__` at scripts/main.js:62-64 sets the prototype, not an entry.
  - `substring` counts UTF-16 code units while strings here count characters, so an astral character before index 7 shifts the windows.
- The `grabbed()` test in `_saveNodePositions` stores the node position in both branches, so it is not modelled.
