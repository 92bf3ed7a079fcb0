# Machines view: tree construction and view-state reconciliation

A Dafny model of the logic at the heart of the Che "Machines" panel for the
Theia IDE. The panel shows workspace machines and the servers they expose
as a tree. Three parts of the code carry real logic, and this model covers
each of them:

- `MachinesViewContribution.publish` turns the machine list into flat
  `SymbolInformation` records `{name, id, parentId, kind}`. Each record gets a
  synthetic id from `getId`.
- `createTree` / `convertToNode` turn those records into a forest of
  parent-linked `MachinesSymbolInformationNode`s. Each converted node is also
  pushed onto `symbolList`.
- `MachinesViewWidget.reconcileTreeState` carries the `expanded`/`selected`
  flags of the nodes shown before over to the new forest. `setMachinesTree`
  then installs that forest under a hidden root.

Modules, one per concept:

- `Wrappers`: `Option`, used wherever the source has `T | undefined`.
- `Decimal`: the decimal text a template literal gives a counter (`${counter}`), and its inverse.
- `Symbols`: `SymbolKind`, `SymbolInformation` and `getClass`.
- `UniqueIds`: `getId`, both as a recursive definition and as the do-while loop of the source.
- `TreeNodes`: the node datatype, `MachinesSymbolInformationNode.is` and `isExpandable`.
- `TreeBuilder`: `createTree` and `convertToNode`. The `symbolList` pushes are returned as `converted`.
- `Publish`: the entry generation of `publish`.
- `ViewWidget`: `reconcileTreeState` and `setMachinesTree`.

Modelling choices:

- All state is passed explicitly. The list of used ids is a `seq<string>` threaded through every `getId` call.
- `publish` clears the used ids and `symbolList`, so it starts from empty sequences and ignores the previous `Contribution`.
- A node's `parent` object reference is modelled as the parent node's id.
- A machines node is the `SymbolNode` constructor. Any other node the widget can hold is a `PlainNode`, for example the hidden root.
- The widget's previous model (`this.model.getNode`) is a finite map from id to the flags of the machines node with that id that was shown before.
- A falsy `parentId` is an undefined one or the empty string.
- A machine's server map is a sequence of `(name, url)` pairs in `Object.keys` order. The URL is the string it renders to.

The code builds this hierarchy: machine → status, and machine → `servers` →
one port record per server (named by its URL) → one `name: <server>` record.

## Model

| member | source | states |
|---|---|---|
| Decimal.Render | theia-machines-extension/src/browser/machines-view-contribution.ts:178 | the counter's text is a non-empty run of decimal digits with no leading zero, one digit exactly for counters below 10 |
| Decimal.ParseRender | theia-machines-extension/src/browser/machines-view-contribution.ts:178 | the counter's decimal text reads back as the counter |
| Decimal.RenderInjective | theia-machines-extension/src/browser/machines-view-contribution.ts:178 | different counters render to different text |
| UniqueIds.Candidate | theia-machines-extension/src/browser/machines-view-contribution.ts:178 | the candidate `name_id_k` is longer than `name` by at least the `_id_` infix and one digit, so it is never empty |
| UniqueIds.CandidateCounter | theia-machines-extension/src/browser/machines-view-contribution.ts:178 | a candidate starts with `name_id_`, and the digits after it read back as the counter |
| UniqueIds.CandidateInjective | theia-machines-extension/src/browser/machines-view-contribution.ts:178 | `name_id_a` and `name_id_b` are the same id only when a = b |
| UniqueIds.LastTried | theia-machines-extension/src/browser/machines-view-contribution.ts:177-180 | the do-while settles on a counter k with start ≤ k ≤ max(start, 999); every candidate before k is taken; candidate k is free unless k + 1 reached 1000 |
| UniqueIds.GetId | theia-machines-extension/src/browser/machines-view-contribution.ts:175-184 | the used ids grow by exactly the returned id and nothing else changes; the id is `name_id_k` for some k in [start, max(start, 999)]; it repeats a used id only if every candidate in that range was taken |
| UniqueIds.GetIdLoop | theia-machines-extension/src/browser/machines-view-contribution.ts:175-184 | the do-while loop over a mutable counter, which always runs once even when start ≥ 1000, computes the same id and id list as `GetId` |
| UniqueIds.GetIdFreshWhenRoom | theia-machines-extension/src/browser/machines-view-contribution.ts:177-180 | pigeonhole: with start < 1000 and fewer than 1000 − start ids used, the id returned is new |
| Symbols.ClassOf | theia-machines-extension/src/browser/machines-view-contribution.ts:186-194 | Machine gets `fa fas fa-circle`, Terminal gets `fa fa-terminal`, and an absent kind gets no class |
| Symbols.ClassOfRoundTrip | theia-machines-extension/src/browser/machines-view-contribution.ts:186-194 | the icon class determines the kind: `KindOfClass(ClassOf(k)) == k` |
| TreeBuilder.ChildRecords | theia-machines-extension/src/browser/machines-view-contribution.ts:148-150 | the level filter keeps a sub-list of the records, never more |
| TreeBuilder.ChildRecordsMembers | theia-machines-extension/src/browser/machines-view-contribution.ts:148-150 | a record is kept exactly when it is top-level (no parent node) or names the parent node's id |
| TreeBuilder.WithoutMembers | theia-machines-extension/src/browser/machines-view-contribution.ts:153 | keeps exactly the records with another id |
| TreeBuilder.Without | theia-machines-extension/src/browser/machines-view-contribution.ts:153 | never longer than the list, and strictly shorter when the id occurs, which is what bounds the recursion |
| TreeBuilder.ConvertToNode | theia-machines-extension/src/browser/machines-view-contribution.ts:159-173 | the node has the record's id and name, the kind's icon class, the parent's id, and is unselected and collapsed |
| TreeBuilder.CreateTree | theia-machines-extension/src/browser/machines-view-contribution.ts:147-157 | one node per kept record, in order, mirroring it; `symbolList` first receives this level's records |
| TreeBuilder.CreateTreeChildren | theia-machines-extension/src/browser/machines-view-contribution.ts:152-156 | node i's children are the forest built for record i, with that record as parent, from the list without record i's id |
| TreeBuilder.Subtrees | theia-machines-extension/src/browser/machines-view-contribution.ts:152-155 | each node of the level gets the forest built for its record from the list without its id |
| TreeBuilder.ChildRecordsAppend | theia-machines-extension/src/browser/machines-view-contribution.ts:148-150 | the level filter keeps input order: it distributes over concatenation |
| TreeBuilder.ChildrenOfRecord | theia-machines-extension/src/browser/machines-view-contribution.ts:152-156 | a node's children come from exactly the records, other than those with its own id, whose parentId is its id, in list order |
| TreeNodes.IsMachinesNode | theia-machines-extension/src/browser/machines-view-widget.ts:33-35 | the machines-node guard holds exactly for the nodes that carry a selection flag and an icon class; the hidden root fails it |
| TreeNodes.IsExpandable | theia-machines-extension/src/browser/machines-view-widget.ts:141-143 | only machines nodes are expandable, and a machines node is expandable exactly when it has a child |
| TreeBuilder.CreateTreeExpandable | theia-machines-extension/src/browser/machines-view-widget.ts:141-143 | a converted node is expandable exactly when some other record names it as parent |
| TreeBuilder.CreateTreeWellLinked | theia-machines-extension/src/browser/machines-view-contribution.ts:159-169 | at every depth each node is an unselected, collapsed machines node whose parent id is its enclosing node's id, or none at the top |
| TreeBuilder.CreateTreeSound | theia-machines-extension/src/browser/machines-view-contribution.ts:147-173 | every node at every depth shows the id, name and icon class of some input record |
| TreeBuilder.CreateTreeNoRepeat | theia-machines-extension/src/browser/machines-view-contribution.ts:152-156 | along every path from a root no id repeats, so cyclic parentId links cannot make the tree infinite |
| TreeBuilder.CreateTreeConvertedCount | theia-machines-extension/src/browser/machines-view-contribution.ts:170-172 | `symbolList` receives exactly as many entries as the forest has nodes |
| TreeBuilder.CreateTreePushOrder | theia-machines-extension/src/browser/machines-view-contribution.ts:147-172 | `symbolList` receives the forest's records, by id, in push order: a level's records first, then each node's subtree in turn |
| Publish.ServerEntries | theia-machines-extension/src/browser/machines-view-contribution.ts:117-130 | two records per server, with their ids recorded in order |
| Publish.ServerEntriesShape | theia-machines-extension/src/browser/machines-view-contribution.ts:117-130 | per server: a port record named by the URL under `servers` (id from `<server>_port`, counter 200), then a `name: <server>` record under that port (id from `<server>_name`, counter 0) |
| Publish.MachineEntries | theia-machines-extension/src/browser/machines-view-contribution.ts:93-131 | 2 records per machine, or 3 + 2·servers when the server map is present, with their ids recorded in order |
| Publish.MachineEntriesShape | theia-machines-extension/src/browser/machines-view-contribution.ts:94-131 | the machine record (kind Machine, no parent), its status record, and when servers exist a `servers` record (counter 100) and the server pairs, all under the right parents |
| Publish.AllEntries | theia-machines-extension/src/browser/machines-view-contribution.ts:93-142 | as many records as the machines' blocks hold; the used ids grow by exactly the records' ids |
| Publish.AllEntriesShape | theia-machines-extension/src/browser/machines-view-contribution.ts:93-131 | the records are the machines' blocks one after the other, each of the shape `MachineShape` states for its machine |
| Publish.Publish | theia-machines-extension/src/browser/machines-view-contribution.ts:87-145 | after the reset, the records are the machines' blocks in order, the used ids are exactly the records' ids in order, the view gets `createTree` of the records, and `symbolList` holds one record per node of that forest, in push order |
| Publish.AllEntriesRoots | theia-machines-extension/src/browser/machines-view-contribution.ts:93-100 | the top-level records are exactly the machine records, one per machine, in order |
| Publish.PublishRoots | theia-machines-extension/src/browser/machines-view-contribution.ts:87-145 | the published forest has one root per machine, in order: the machine's name with the machine icon, no parent, unselected and collapsed |
| Publish.PublishIdsDistinct | theia-machines-extension/src/browser/machines-view-contribution.ts:87-131 | with at most 800 records no `getId` call reaches the cap, and every record gets an id of its own |
| ViewWidget.Reconcile | theia-machines-extension/src/browser/machines-view-widget.ts:73-85 | the same nodes in the same order; non-machines nodes untouched with their subtrees; a machines node takes the shown flags for its id, or keeps its own; children reconciled recursively |
| ViewWidget.ReconcileAdopts | theia-machines-extension/src/browser/machines-view-widget.ts:76-80 | at every depth reached through machines nodes, a node whose id was shown before carries the shown flags |
| ViewWidget.ReconcileKeepsShape | theia-machines-extension/src/browser/machines-view-widget.ts:73-85 | apart from view flags the forest is unchanged: no node added, removed, reordered or renamed |
| ViewWidget.ReconcileIdempotent | theia-machines-extension/src/browser/machines-view-widget.ts:73-85 | reconciling twice against the same state equals reconciling once |
| ViewWidget.ReconcileEmptyState | theia-machines-extension/src/browser/machines-view-widget.ts:76-80 | with nothing shown before, every node keeps its flags |
| ViewWidget.ReconcileKeepsExpandable | theia-machines-extension/src/browser/machines-view-widget.ts:141-143 | a node is expandable after reconciliation exactly when it was before |
| ViewWidget.SetMachinesTree | theia-machines-extension/src/browser/machines-view-widget.ts:62-71 | a hidden, parentless, non-machines root `machines-view-root` whose children are exactly the reconciled roots: shape kept, shown flags adopted, unmatched nodes keeping their own flags |

## Left out

- The dependency-injection bindings and the backend proxy in `theia-machines-frontend-module.ts`: wiring with no behaviour of its own.
- `updateMachines`, `onStart` and the event subscriptions: these wait on services whose code is not part of this model. The machine list is an input value.
- `machineViewService.publish`: the forest it would receive is the `roots` field of the `Publish` result.
- Rendering, node styles and icons, `onAfterHide`/`onAfterShow` and `onUpdateRequest`: DOM and host-framework behaviour.
- `ISelectableTreeNode.is` and `model.getNode`: framework code. Being a machines node is the `SymbolNode` constructor. The previous model is a map that holds only machines nodes. When several shown nodes share an id, the map holds the flags of the one `getNode` returns.
- The commented-out terminal record in `publish`: it is not live code. The Terminal kind and its icon class are still modelled.
- The order of `Object.keys` over the server map: the model takes the servers in the order it is given.
- The URL's `toString()` is an opaque string. The `status` text is taken as given.
- Object identity and in-place mutation: the model rebuilds nodes instead of assigning `children`, `expanded` and `selected`. Node values are the same. `symbolList` is modelled as the sequence of converted records rather than node/record pairs.
- `getId` with a negative starting counter: `publish` never passes one, so the counter is a `nat`.
- The counter as a JavaScript number: the model's counter is an exact `nat` rendered in plain decimal. JavaScript prints numbers from 10^21 up in exponent form and `counter++` loses precision above 2^53. Neither matters for `publish`, which starts at 0, 100 or 200 and stops below 1000.
