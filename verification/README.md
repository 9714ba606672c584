# Growse: verified models of its core algorithms and protocols

Growse is a small browser engine written in Go. This project models the parts of it that carry
invariants or arithmetic worth proving, and proves them with Dafny 4.11
(`dafny verify dfyconfig.toml`).

Code that changes fields in place is modelled by classes and methods with the same checks in the
same order. Each such method is proved against a function or predicate on values; the lemmas then
speak about those values, over single steps and over whole runs. Concurrent code is modelled as
atomic steps, one for each section the code runs under its lock, and every interleaving of the
steps is a run.

| files | what they model |
|---|---|
| `Forests`, `Scans`, `Dom`, `Edits` | the live document: parent pointers, child lists, owned nodes, the `id` index, every edit, and all sequences of edits and snapshots |
| `SnapshotTrees`, `Snapshots` | pointer-free snapshots: taking one, checking one, applying one in place |
| `SessionHistory`, `Navigation`, `Browsing`, `Origins` | the session history, the locked sections of a tab, all their interleavings, and the origins a page shows |
| `ImageCache`, `ImageRuns` | the single-flight LRU image cache, and all interleavings of its sections |
| `WindowBroker` | the message broker between windows, with its single drainer |
| `GridTracks`, `GridPlacement` | grid track sizing and grid placement |
| `FlexLines`, `FlexLengths` | flex line breaking and flexible lengths |
| `Floats` | float placement |
| `Bezier` | the cubic-bezier solver |
| `Styles` | the recursive stylesheet loader |
| `Forms` | the form serializer and the standard parser |
| `Options`, `RealSums` | shared definitions |

Layout and easing arithmetic is over exact reals. Where the code departs from the CSS text the
model follows the code: flexible lengths accumulate on the targets of the previous pass and freeze
all violators of a pass at once, unlike section 9.7 of CSS Flexible Box Layout Level 1.

## What turned out not to hold

Each of these properties is false of the code in general. The model keeps the code as it is; for
each there is an input or a run that breaks the property, and the exact condition under which it
holds.

- Replacing the text of a node at depth 256 produces a node at depth 257, because `SetTextContent`
  does not make the depth check that insertions make: an if-and-only-if in the contract of
  `Dom.Document.SetTextContent` and in every step of a run (`Edits.Follows`), and a document in
  `Edits.DeepText`.
- The ID counter of a document wraps to zero after a snapshot that uses the largest 64-bit ID
  (`SnapshotTrees.CounterFresh`, `SnapshotTrees.CounterWraps`).
- A traversal looks its target entry up again when it commits, without a bounds check. An entry
  pushed in between, by the page or, before the traversal has begun to load, by another load, can
  cut the history short, and the lookup then panics (`Browsing.UndercutPanics`,
  `Browsing.TraversalPanicsExactly`, and a run in `Browsing.TraversalCanPanic`).
- A traversal between entries of one page need not keep the origin that the page's address shows:
  a traversal that was redirected to another origin hands the entries of the old page over to the
  new one. `Origins.OriginStaysExactly` is the exact condition, `Origins.MixesExactly` says which
  steps lead away from it, and `Origins.OriginCanChange` is a run.
- A reload keeps the state of the history entry but not the state of the page
  (`Browsing.CommitStates`, and a run in `Browsing.ReloadForgetsState`).
- The byte counter of the image cache keeps the bytes of a resize whose surface has gone meanwhile
  (`ImageRuns.CounterExactly`, `ImageRuns.OrphansAppear`, and a run in `ImageRuns.CounterCanLeak`).
- A message broker with nothing to deliver does not notice when its first message becomes
  undeliverable because a newer generation of the window has been defined; the messages behind it,
  even those that could be delivered at once, wait for the next post or registration
  (`WindowBroker.IdleEndsExactly`, and a run in `WindowBroker.Stranded`).
- The search for a grid cell need not end: an item locked along the flow may find no free place
  (`GridPlacement.SearchEnds`, and two items in `GridPlacement.FullRowNeverEnds`).
- The scan for the next float bottom uses zero for "none", so above zero it can pass over a float
  that ends exactly at zero (`Floats.ScanExactly`, `Floats.ScanCanSkip`), and a float may then be
  placed lower than there was room for it. `Floats.FindsHighest` is the exact condition on the
  floats, the size and the start of the search under which it is not (`Floats.Engine.AddFloat`);
  `Floats.MissedRoom` places three floats the last of which misses its room.
- Form encoding is inverted by the parser on valid UTF-8 only; otherwise the parser reads the
  repaired text (`Forms.RoundTripExactly`, and an entry in `Forms.StrayByte`).
- The stylesheet loader returns the whole import graph only when depth, request and byte limits
  leave room for it (`Styles.WholeGraphExactly`, and graphs in `Styles.TowerTooHigh`).

One more property holds of the engine, though not of the function alone: eviction takes a source
with the empty URL for "nothing found", but only `http` and `https` addresses are ever loaded
(`internal/browser/backgrounds.go` lines 165-174 and 374-389). So in every reachable state eviction
stops only within the limits or with nothing completed left (`ImageRuns.Reachable`); for arbitrary
states `ImageCache.ShrunkSettlesExactly` gives the exact condition.

## Model

| member | source | states |
|---|---|---|
| Forests.InsertKeeps | internal/dom/document.go:99-134 | moving a node that is not above its new parent leaves a forest on the same nodes: links mutually inverse, no cycle, no duplicate |
| Forests.InsertMoves | internal/dom/document.go:117-132 | the new child list is the old one without the child, with the child where the index pointed, also when it moves within one list; no other list or link changes |
| Forests.InsertDepth | internal/dom/limits.go:27-43 | a move shifts exactly the moved subtree, by the difference of the two places |
| Forests.InsertWithin | internal/dom/limits.go:27-33 | given a forest within the limit, the result of a move is within it if and only if the depth check passes |
| Forests.FitsByHeight | internal/dom/limits.go:27-43 | comparing depth plus height with the limit decides whether every node of the moved subtree stays within it |
| Forests.MoveExists | internal/dom/document.go:99-134 | every move that makes no cycle has a result that is a forest, within the limit exactly when the check passes |
| Forests.DetachKeeps | internal/dom/document.go:137-149 | detaching leaves a forest on the same nodes in which the child is a root |
| Forests.DetachAbove | internal/dom/document.go:137-149 | after detaching, a node is above another exactly as before, except across the cut |
| Forests.ReplaceOutcome | internal/dom/document.go:152-187 | letting go of old children and adopting the new ones, wherever those came from, leaves a forest in which the parent has exactly the new list and every other list only loses the adopted nodes |
| Forests.ReplaceWithin | internal/dom/document.go:152-187 | a checked replacement keeps the depth limit |
| Forests.ReplaceExists | internal/dom/document.go:152-187 | every checked replacement has a result that is a forest |
| Forests.PruneKeeps | internal/dom/document.go:390-400 | forgetting a set of nodes closed under taking children leaves a forest on the others |
| Forests.PruneSubtree | internal/dom/document.go:206-230 | removing a subtree changes one remaining child list, that of its parent, which loses exactly the removed node |
| Forests.PruneBelow | internal/dom/document.go:337-354 | emptying a node changes no other remaining list |
| Forests.LeafExists | internal/dom/document.go:346-351 | hanging a new leaf beneath a childless node gives a forest, within the limit exactly when the node lies above the last level |
| Forests.SiblingsDisjoint | internal/dom/document.go:390-400 | subtrees of different children of one node share no node |
| Forests.AboveComparable | internal/dom/document.go:112-116 | two ancestors of one node are comparable, so the ancestor walk finds every cycle a move would make |
| Forests.DepthUnique | internal/dom/document.go:190-203 | the links of a forest determine the depth of every node |
| Scans.ScanMembers | internal/dom/document.go:402-422 | the walk visits exactly the nodes reachable from its top without entering a skipped subtree |
| Scans.ReachesBetween | internal/dom/document.go:190-203 | a node is reached exactly when no node from the top down to it is skipped |
| Scans.ScanNoDup | internal/dom/document.go:402-422 | the walk visits no node twice |
| Scans.ScanFrame | internal/dom/document.go:402-422 | the walk depends only on the subtree it visits |
| Scans.IndexIsFirst | internal/dom/document.go:402-422 | the index maps an id to a node if and only if that node is the first visited one that carries it |
| Scans.ScanPlant | internal/dom/document.go:383-388 | a new lone node is on no walk, so creation may leave the index alone |
| Dom.Document.Walk | internal/dom/document.go:402-422 | the recursive walk claims ids in tree order, skips fragment subtrees, and the first claim wins |
| Dom.Document.RebuildIDIndex | internal/dom/document.go:402-422 | the rebuilt index is the scan of the connected nodes |
| Dom.Document.ChildIndex | internal/dom/document.go:571-581 | the position of a child, or a negative number if and only if it is not listed |
| Dom.Document.SubtreeHeight | internal/dom/limits.go:35-43 | the computed height bounds the subtree and is reached in it |
| Dom.Document.AttachmentWithinDepth | internal/dom/limits.go:27-33 | the check passes if and only if no node of the child's subtree would lie deeper than 256 |
| Dom.Document.HasAncestor | internal/dom/document.go:112-116 | the pointer walk decides ancestry in the forest |
| Dom.Document.IsConnected | internal/dom/document.go:190-203 | a node is connected if and only if the index walk from the root visits it |
| Dom.Document.CheckInsert | internal/dom/document.go:99-116 | the outcome of the checks of an insertion, in their order |
| Dom.Document.InsertChild | internal/dom/document.go:99-134 | refused for exactly the stated reasons without any change; otherwise the child moves to the index; the document stays a forest within depth 256 with an exact index |
| Dom.Document.DetachChild | internal/dom/document.go:137-149 | succeeds if and only if the child hangs beneath the parent, cuts exactly that link and keeps the index exact |
| Dom.Document.CheckReplace | internal/dom/document.go:152-167 | passes if and only if the parent is an element or a fragment and the list has no absent, foreign, duplicate, root, too deep or ancestor node |
| Dom.Document.ReplaceChildren | internal/dom/document.go:152-187 | refused without any change, or the parent has exactly the given children; forest, depth limit and index are kept |
| Dom.Document.CollectNodeIDs | internal/dom/document.go:460-469 | the IDs of a subtree in tree order |
| Dom.Document.RemoveSubtree | internal/dom/document.go:390-400 | the subtree leaves the owned nodes and all its nodes lose their links |
| Dom.Document.Remove | internal/dom/document.go:206-230 | succeeds exactly for connected elements other than the root; their subtree goes, nothing else does, and the removed IDs are reported in tree order |
| Dom.Document.NewNode | internal/dom/document.go:383-388 | the new node is filed under the counter, which then advances and wraps at 64 bits; the counter stays above all IDs unless it wraps |
| Dom.Document.Create | internal/dom/document.go:70-87 | creating a node files it under the counter, advances the counter by one, and changes no link, no index entry and no tree order |
| Dom.Document.CreateElement | internal/dom/document.go:70-75 | a new element on its own with the given tag and attributes, filed under the counter, which advances by one and stays above all IDs unless it wraps |
| Dom.Document.CreateText | internal/dom/document.go:78-82 | the same for a text node |
| Dom.Document.CreateDocumentFragment | internal/dom/document.go:85-87 | the same for a fragment |
| Dom.Document.constructor | internal/dom/document.go:22-31 | an empty document is valid, owns its root with ID 1 and nothing else, and its counter is 2 |
| Dom.Document.SetTextContent | internal/dom/document.go:337-354 | the node's descendants go, from the tree and from the owned nodes, and one text leaf takes their place under the next ID; the counter advances; the document stays valid, and within depth 256 if and only if the node lies above the last level |
| Dom.Document.SetAttribute | internal/dom/document.go:293-315 | refused for exactly the stated reasons without any change; otherwise one attribute of one node changes and the index stays exact |
| Dom.Document.RemoveAttribute | internal/dom/document.go:318-334 | succeeds if and only if the element has the attribute; the index stays exact |
| Dom.Document.GetElementByID | internal/dom/document.go:232-236 | yields the first connected node in tree order with a matching non-empty id, and none if and only if there is none |
| Dom.Document.OrderIsConnected | internal/dom/document.go:190-203 | the tree order lists, each once, the nodes beneath the root with no fragment on the way |
| Edits.Run | internal/dom/document.go:22-400 | any sequence of edits and snapshots applied to a new document leads, as long as the ID counter does not run out, through states each of which follows from the one before: an edit that is allowed has exactly its effect and any other changes nothing; in every state parents and children are mutually inverse without cycles, the root has no parent and nodes are filed under distinct IDs below the counter; the document that results is valid, with an exact index |
| Edits.StaysWithin | internal/dom/limits.go:27-43 | a tree of a run that is not within depth 256 got there by an edit that replaced the text of a node on the last level, with no accepted snapshot since |
| Edits.Apply | internal/dom/document.go:61-400 | one edit or snapshot, its nodes named by ID: carried out exactly when it is allowed, and otherwise without any change; valid again, and within the depth limit exactly unless it replaces a text on the last level |
| Edits.RestoreFrom | internal/dom/snapshot.go:60-127 | applying a snapshot as a step of a run: if and only if it is acceptable, the tree, counter and ready state become those of the snapshot, made of the nodes of the state before that have the same ID and type and of nodes that were not in it |
| Edits.DeepText | internal/dom/document.go:337-354 | a document of 256 nested elements in which a text then lies on level 257 |
| SnapshotTrees.SoundExactly | internal/dom/snapshot.go:145-171 | a snapshot is within the limits if and only if each node, reached by child numbers, lies no deeper than 256 levels, has an ID and a known type, and a payload within the limits of its parent's tag |
| SnapshotTrees.FileableExactly | internal/dom/snapshot.go:145-171 | flattening meets no used ID and no full map if and only if the IDs are new, distinct and few enough |
| SnapshotTrees.FileContents | internal/dom/snapshot.go:145-171 | the flattened map holds exactly the snapshot nodes, each under its own ID |
| SnapshotTrees.LinkKeeps | internal/dom/snapshot.go:185-205 | linking the descendants of a node in order gives a forest in which each has its snapshot's children and depth, and nothing outside changes |
| SnapshotTrees.LinkFromKeeps | internal/dom/snapshot.go:192-203 | the same from any child number on, the induction over siblings |
| SnapshotTrees.LinkChild | internal/dom/snapshot.go:185-203 | the next child is still a lone node, so linking it cannot fail |
| SnapshotTrees.LinkRest | internal/dom/snapshot.go:192-203 | after a child has been linked its later siblings may follow |
| SnapshotTrees.CaptureShaped | internal/dom/snapshot.go:129-143 | a tree shaped and filled after a snapshot yields that snapshot again |
| SnapshotTrees.CaptureOrder | internal/dom/snapshot.go:129-143 | a snapshot lists the nodes of a subtree in tree order |
| SnapshotTrees.CounterFresh | internal/dom/snapshot.go:118-124 | the counter set from a snapshot is above every ID if and only if the largest 64-bit ID is not in use |
| SnapshotTrees.CounterWraps | internal/dom/snapshot.go:118-124 | an accepted snapshot after which the counter is zero |
| Snapshots.SnapshotNode | internal/dom/snapshot.go:129-143 | the recursive copy is the picture of the subtree |
| Snapshots.Snapshot | internal/dom/snapshot.go:32-46 | the picture of the document: tree, counter and ready state |
| Snapshots.FlattenSnapshot | internal/dom/snapshot.go:145-171 | succeeds if and only if every node is within its limits and the IDs can be filed; the map then holds exactly the nodes |
| Snapshots.CheckSnapshot | internal/dom/snapshot.go:60-79 | everything that can make a snapshot unacceptable is found before the first change |
| Snapshots.Materialize | internal/dom/snapshot.go:85-108 | each snapshot node gets the live node of the same ID and type if there is one and else a new one; the greatest ID is found |
| Snapshots.Release | internal/dom/snapshot.go:109-114 | nodes whose ID does not occur any more lose their links, the others are untouched |
| Snapshots.LinkSnapshot | internal/dom/snapshot.go:185-205 | linking never fails once flattening has succeeded, and produces the links of the snapshot |
| Snapshots.Rebuild | internal/dom/snapshot.go:81-117 | the prepared nodes carry the snapshot's payloads and links |
| Snapshots.ApplySnapshot | internal/dom/snapshot.go:60-127 | accepted if and only if acceptable; a rejected snapshot changes nothing; afterwards the document is valid and its picture is the snapshot with the ready state defaulted and the counter raised; nodes of the same ID and type keep their identity |
| Snapshots.NewDocumentFromSnapshot | internal/dom/snapshot.go:50-56 | a new document whose picture is the snapshot, if and only if it is acceptable |
| Snapshots.PicturedAcceptable | internal/dom/snapshot.go:32-82 | the snapshot of a valid document is acceptable unless the document is over a limit or in an unknown ready state |
| Snapshots.PicturedReapplies | internal/dom/snapshot.go:32-127 | a document to which another one's snapshot is applied shows exactly what the other one shows |
| SessionHistory.History.PushEntry | internal/browser/history.go:43-56 | the new list and index, with a missing entry ignored |
| SessionHistory.History.ReplaceEntry | internal/browser/history.go:58-67 | the new list and index, pushing when there is no current entry |
| SessionHistory.History.TargetEntry | internal/browser/history.go:77-86 | there is a target if and only if the index stays in range |
| SessionHistory.History.StateBytesAfterPush | internal/browser/history.go:88-97 | the state bytes of the entries a push keeps, plus the new state |
| SessionHistory.History.StateBytesAfterReplace | internal/browser/history.go:99-107 | the state bytes with the current state exchanged |
| SessionHistory.History.RebindPage | internal/browser/history.go:116-125 | exactly the entries of the old page get the new page's ID |
| SessionHistory.History.CanBack | internal/browser/history.go:127-129 | true if and only if the entry before the current one exists |
| SessionHistory.History.CanForward | internal/browser/history.go:131-133 | true if and only if the entry after the current one exists |
| SessionHistory.PushKeeps | internal/browser/history.go:43-56 | a pushed entry is current and last, at most 1024 entries stay, and what precedes it is the most recent part of what was kept |
| SessionHistory.PushBytes | internal/browser/history.go:43-97 | the byte count computed before a push bounds the bytes after it, exactly below the cap |
| SessionHistory.BackUndoesPush | internal/browser/history.go:43-86 | right after a push the entry one step back is the one that was current |
| SessionHistory.ReplaceKeeps | internal/browser/history.go:58-67 | a replacement touches only the current entry, and its bytes are as computed |
| SessionHistory.ReboundKeeps | internal/browser/history.go:116-125 | rebinding gives exactly the entries of the one page the ID of the other, if neither is zero, and changes nothing else |
| SessionHistory.PushInvalidates | internal/browser/history.go:43-86 | a target chosen before a push survives it if and only if it is at most one step ahead of the index |
| Navigation.Browser.BeginLoad | internal/browser/browser.go:1322-1340 | a load takes the next navigation number and changes nothing else |
| Navigation.Browser.ChooseTraversal | internal/browser/browser.go:1262-1296 | a traversal completes at once if and only if the target entry belongs to the current page, which then shows that entry's URL, state and scroll position; otherwise it only yields the entry and index to load |
| Navigation.Browser.CommitPage | internal/browser/browser.go:1561-1637 | a page is published if and only if the navigation is still the newest; the previous runtime is handed out and the slot emptied |
| Navigation.Browser.CommitHistory | internal/browser/browser.go:1589-1619 | the history after a push, traversal or replacement, with state and scroll restored from the entry |
| Navigation.TraverseKeeps | internal/browser/browser.go:1597-1610 | a traversal's commit puts the new page in the target entry's place with that entry's state and scroll, hands over every other entry of the same page, and changes no other |
| Navigation.ReloadKeeps | internal/browser/browser.go:1611-1619 | a reload's commit keeps the state of the entry it replaces and changes no other entry |
| Navigation.Browser.InstallRuntime | internal/browser/browser.go:1684-1697 | a runtime is installed if and only if number and page are both still current |
| Navigation.Browser.TakeForEngine | internal/browser/browser.go:267-322 | an engine change supersedes navigations and hands out the active runtime; the same engine changes nothing |
| Navigation.Browser.TakeForPage | internal/browser/browser.go:884-939 | replacing the page by hand starts a new history that agrees with it and hands out the runtime |
| Navigation.Browser.TakeForClose | internal/browser/browser.go:942-985 | closing empties page, runtime and history and supersedes navigations |
| Navigation.Browser.CommitFragmentNavigation | internal/browser/browser.go:1744-1771 | a fragment jump happens if and only if the addresses are the same up to their fragments, which differ; it pushes an entry of the same page with no state |
| Navigation.Browser.PushHistoryState | internal/browser/browser.go:1784-1815 | refused for exactly the stated reasons without any change; otherwise page and history move together to an address of the same origin |
| Navigation.Browser.ReplaceHistoryState | internal/browser/browser.go:1817-1847 | the same for a replacement |
| Navigation.Browser.UpdateHistoryScroll | internal/browser/browser.go:1246-1260 | page and current entry get the scroll position together, or nothing changes |
| Browsing.StepMirrors | internal/browser/browser.go:1589-1847 | every section keeps the history a mirror of the page: index in range, at most 1024 entries, at most 4 MiB of state, current entry with the page's URL and ID |
| Browsing.StepAccounted | internal/browser/browser.go:1684-1697 | every section keeps each started runtime in exactly one place: active, held by one task, or stopped once |
| Browsing.StepOwned | internal/browser/browser.go:1684-1697 | every section keeps the active runtime one that was started for the current page |
| Browsing.StepPublished | internal/browser/browser.go:1561-1637 | the newest navigation, once published, still finds its page in place |
| Browsing.RunInv | internal/browser/browser.go:267-322 | the whole invariant holds after every run without a panicking commit |
| Browsing.Reachable | internal/browser/browser.go:1561-1697 | in every reachable state the history mirrors the page and the active runtime is absent or belongs to the current page |
| Browsing.OriginKept | internal/browser/browser.go:1744-1847 | in every run in which no page is published, set by hand, closed or traversed to, the page stays and its URL keeps its origin, whatever is pushed, replaced, jumped to or scrolled |
| Browsing.ForeignRefused | internal/browser/browser.go:1784-1847 | a push or replacement with an address of another origin, or of none, changes nothing |
| Browsing.PageActs | internal/browser/browser.go:1246-1847 | a push, replacement, fragment jump or scroll that is allowed changes page and current entry together, and nothing else of the page |
| Browsing.Travels | internal/browser/browser.go:1262-1320 | a traversal ends at once where there is no entry or on an entry of the current page, which the page then shows, and otherwise chooses the entry to load; a reload chooses the current one |
| Browsing.NothingLeaks | internal/browser/browser.go:942-985 | once every task has let go, each started runtime has been stopped exactly once, except the active one, which has not |
| Browsing.InstallDecidedByNumber | internal/browser/browser.go:1684-1697 | in reachable states the page comparison before installing a runtime never decides anything |
| Browsing.CommitStates | internal/browser/browser.go:1589-1619 | page state and entry state agree after a commit if and only if it does not reload an entry that has a state |
| Browsing.StaleForever | internal/browser/browser.go:1561-1697 | a superseded navigation stays superseded and none of its later steps changes page, runtime or history |
| Browsing.UndercutExactly | internal/browser/browser.go:1262-1296 | a step leaves the target of a traversal in range if and only if it does not make a new entry before it or start a new history |
| Browsing.CarefulRuns | internal/browser/browser.go:1589-1619 | when no step undercuts a traversal in flight, no commit panics |
| Browsing.UndercutPanics | internal/browser/browser.go:1589-1619 | after an action of any task, the commit of a traversal that is still in flight panics if and only if that action made a new entry before the target or started a new history |
| Browsing.RangeExactly | internal/browser/browser.go:1262-1296 | after an action there is an entry at a given index if and only if there was one and the action does not undercut it, or the action makes one there |
| Browsing.TraversalPanicsExactly | internal/browser/browser.go:1589-1619 | over whole runs from the choice of its target on, the commit panics if and only if the target has been undercut and not made again |
| Browsing.TraversalCanPanic | internal/browser/browser.go:1589-1619 | a run from the initial state, over any pages and addresses, in which a pushed state makes a traversal's commit panic |
| Browsing.ReloadForgetsState | internal/browser/browser.go:1611-1619 | a run after which the entry has a state and its page has none |
| Origins.MixesExactly | internal/browser/browser.go:1597-1610 | a section leaves the entries of each page with one origin if and only if it is not a traversal's commit that comes, by a redirect, to another origin than its entry has while another entry of the same page is left |
| Origins.OriginStays | internal/browser/browser.go:1246-1847 | when all entries of the current page have its origin, no run without a publication changes page or origin, traversals included |
| Origins.OriginStaysExactly | internal/browser/browser.go:1246-1847 | every run without a publication keeps page and origin if and only if all entries of the current page have that origin |
| Origins.OriginStaysInRuns | internal/browser/browser.go:1246-1847 | so it is after every run of a new tab in which no traversal's commit mixes origins |
| Origins.OriginCanChange | internal/browser/browser.go:1262-1296 | a run with such a commit after which a traversal leaves the page in place and shows an address of another origin |
| ImageCache.Cache.FindOldest | internal/browser/image_cache.go:335-355 | whatever the iteration order of the maps, the scan finds the least recently used completed object, and reports nothing only if there is none or it has the empty URL |
| ImageCache.Cache.EvictLocked | internal/browser/image_cache.go:335-374 | the eviction loop ends and leaves exactly the least-recently-used shrinking of the cache; without an entry under the empty URL it stops only within the limits or with nothing completed left |
| ImageCache.Cache.DropSource | internal/browser/image_cache.go:356-372 | a source goes with all its surfaces, and the counter loses exactly their bytes |
| ImageCache.Cache.Load | internal/browser/image_cache.go:103-167 | a resident source is shared, complete or not; otherwise a new entry is created if and only if it may be fetched and there is room after eviction |
| ImageCache.Cache.LoadExisting | internal/browser/image_cache.go:173-207 | a hit refreshes the entry, a miss changes nothing |
| ImageCache.Cache.Prepare | internal/browser/image_cache.go:276-307 | a resident surface is shared; otherwise one is created if and only if there is room after eviction; the source counts as used |
| ImageCache.Cache.FetchDone | internal/browser/image_cache.go:209-264 | the channel closes on a complete entry; its bytes count only if it is still resident, and eviction to the byte limit follows |
| ImageCache.Cache.PrepareDone | internal/browser/image_cache.go:309-333 | the channel closes on a complete surface; a cancelled resize takes its bytes back and removes what is resident under its key |
| ImageCache.Cache.Clear | internal/browser/image_cache.go:376-398 | nothing stays resident and the counter is zero |
| ImageCache.OldestUnique | internal/browser/image_cache.go:335-355 | distinct ticks make the least recently used completed object unique |
| ImageCache.ShrunkStep | internal/browser/image_cache.go:335-374 | one round of eviction drops that object, or stops at the empty URL |
| ImageCache.ShrunkSettles | internal/browser/image_cache.go:335-374 | unless a completed source has the empty URL, eviction stops only within the limits or with nothing completed left |
| ImageCache.ShrunkSettlesExactly | internal/browser/image_cache.go:335-374 | eviction does so for all limits if and only if no completed source has the empty URL beforehand |
| ImageCache.ShrunkIsLRU | internal/browser/image_cache.go:335-374 | whatever goes on its own account was used before every completed object that stays |
| ImageCache.ShrunkNeeded | internal/browser/image_cache.go:335-374 | eviction takes no more than it has to: before the last object went, a limit was exceeded |
| ImageCache.ShrunkLeaves | internal/browser/image_cache.go:335-374 | eviction changes no remaining item, keeps every incomplete source, and keeps counter minus resident bytes |
| ImageCache.ShrunkKeepsPending | internal/browser/image_cache.go:335-374 | a surface still being prepared goes if and only if its source goes |
| ImageCache.DroppedBytes | internal/browser/image_cache.go:356-372 | dropping takes the same bytes off the counter and off the resident total |
| ImageRuns.StepInv | internal/browser/image_cache.go:103-398 | every section keeps the cache invariant |
| ImageRuns.StepBounded | internal/browser/image_cache.go:209-374 | every section keeps the byte limit: above it nothing resident is complete |
| ImageRuns.Reachable | internal/browser/image_cache.go:103-398 | in every reachable state: at most maxEntries objects; bytes above the limit only while nothing resident is complete; distinct ticks; the counter at least the resident bytes; every incomplete object has a job; one download for each URL since the last clearing; a channel is open exactly while a job holds its object; eviction stops only within the limits or with nothing completed left |
| ImageRuns.LaterUse | internal/browser/image_cache.go:103-207 | over runs, of two resident objects the one that was used later has the newer tick, where resizing an image uses both its source and its surface |
| ImageRuns.EvictsByUse | internal/browser/image_cache.go:335-374 | over runs, an object used later than a completed one that stays is not evicted, except along with its source |
| ImageRuns.StepNamed | internal/browser/backgrounds.go:165-174 | because only http and https addresses are loaded, no source is ever kept under the empty URL |
| ImageRuns.OneDownload | internal/browser/image_cache.go:103-167 | two downloads of one URL begun since the last clearing are the same download |
| ImageRuns.ClosesOnce | internal/browser/image_cache.go:209-333 | the end of a job closes its own channel, which was open, and no other step closes any |
| ImageRuns.ReadyIsComplete | internal/browser/image_cache.go:118-140 | a resident object's channel is closed if and only if it is complete |
| ImageRuns.StepSlack | internal/browser/image_cache.go:308-398 | one action raises the excess of the counter over the resident bytes by exactly what an orphaned resize leaves, and clearing ends it |
| ImageRuns.CounterExactly | internal/browser/image_cache.go:308-398 | in every reachable state the counter is the resident bytes plus exactly what orphaned resizes have left since the last clearing |
| ImageRuns.OrphansAppear | internal/browser/image_cache.go:308-398 | a first resize is orphaned by an action if and only if the action clears the cache, or evicts a source, during one of its resizes |
| ImageRuns.CounterUntilDisturbed | internal/browser/image_cache.go:308-398 | in every run without such an action the counter equals the resident bytes |
| ImageRuns.CounterCanLeak | internal/browser/image_cache.go:376-398 | a run after which the cache is empty and its counter is not zero |
| ImageRuns.OrphanedBy | internal/browser/image_cache.go:308-398 | while none is orphaned, a resize under way becomes so if and only if the cache is cleared or its source is evicted |
| WindowBroker.Registry.Define | internal/browser/window_messages.go:47-60 | the window is recorded, and the latest generation of its id becomes the larger of the two |
| WindowBroker.Registry.Register | internal/browser/window_messages.go:62-79 | the runtime is recorded and a drainer started if and only if one is needed |
| WindowBroker.Registry.Unregister | internal/browser/window_messages.go:81-88 | the runtime is forgotten |
| WindowBroker.Registry.Post | internal/browser/window_messages.go:90-118 | accepted if and only if payload and queue are within their limits, both windows are live and current, and the filter is for anyone or asks for origins that are equal and not opaque; then queued last, and a drainer started if and only if one is needed |
| WindowBroker.Registry.StartDrainLocked | internal/browser/window_messages.go:120-126 | a drainer is started if and only if none runs, the broker is open and something is queued |
| WindowBroker.Registry.DrainRound | internal/browser/window_messages.go:128-169 | one round: stop, drop a hopeless message, or hand the head to its runtime |
| WindowBroker.Registry.Drain | internal/browser/window_messages.go:128-169 | the undisturbed loop ends and hands over exactly the deliveries of its rounds |
| WindowBroker.Registry.Close | internal/browser/window_messages.go:171-181 | a closed broker is empty |
| WindowBroker.OpaqueNeedsAnyone | internal/browser/window_messages.go:183-203 | an opaque origin is reached only by a message to anyone |
| WindowBroker.DrainedStops | internal/browser/window_messages.go:128-169 | an undisturbed drainer leaves exactly the part of the queue from the first current window without a runtime on |
| WindowBroker.StepInv | internal/browser/window_messages.go:47-181 | every section keeps the broker invariant |
| WindowBroker.Reachable | internal/browser/window_messages.go:47-181 | in every reachable state: at most one drainer, at most 256 queued, deliveries a subsequence of posts in order, each between the windows it names and with the origins its filter asks for, and no lost wakeup |
| WindowBroker.DeliveredToLatest | internal/browser/window_messages.go:128-169 | what is handed over is the oldest queued message, its window is the latest generation, and its filter admits it |
| WindowBroker.DeliversExactly | internal/browser/window_messages.go:128-203 | a round hands the oldest message over if and only if its window is current and has a runtime, the sender is known, and the origins as they are now are those the filter asks for |
| WindowBroker.IdleExactly | internal/browser/window_messages.go:128-150 | an idle broker with messages has something for a drainer to do if and only if the first message has become undeliverable |
| WindowBroker.IdleEndsExactly | internal/browser/window_messages.go:47-60 | that happens without waking a drainer if and only if a newer generation of the first message's window is defined |
| WindowBroker.Stranded | internal/browser/window_messages.go:47-60 | a run from a new broker after which an undeliverable message heads the queue, the message behind it is one that a drainer would hand over at once, and no drainer runs |
| WindowBroker.WakesAgain | internal/browser/window_messages.go:62-126 | the next post or registration wakes a drainer |
| WindowBroker.StaleNeverDelivered | internal/browser/window_messages.go:128-169 | a message whose window has been superseded before delivery is never delivered |
| WindowBroker.DrainerGoesOn | internal/browser/window_messages.go:128-169 | the broker counts itself as being drained exactly while a drainer can take a step |
| WindowBroker.UnregisteredGetsNothing | internal/browser/window_messages.go:81-169 | over runs, a window whose runtime has been taken off is handed nothing until it is registered again |
| WindowBroker.CloseEnds | internal/browser/window_messages.go:90-181 | over runs, a closed broker takes nothing in and hands nothing over |
| GridTracks.BaseSign | internal/layout/grid.go:908-929 | base sizes are not negative |
| GridTracks.FirstTurn | internal/layout/grid.go:549-557 | tracks beyond the explicit ones are the implicit ones from the first on, or automatic |
| GridTracks.NextTurn | internal/layout/grid.go:549-557 | and they repeat with the number of implicit tracks |
| GridTracks.BaseLeast | internal/layout/grid.go:819-857 | a size is allowed, by its fixed length, content and minimum as its kind says, if and only if it is at least the base size |
| GridTracks.BaseSizes | internal/layout/grid.go:819-857 | the tracks in order, explicit and then implicit ones in turn; their base sizes and weights with the sums of both; the number of automatic tracks |
| GridTracks.FreezePass | internal/layout/grid.go:869-886 | the tracks a pass keeps do not exceed their share, a pass that freezes leaves fewer tracks, and the shares left still add up to what remains |
| GridTracks.ShareOut | internal/layout/grid.go:869-891 | the freeze loop ends with free space poured up to one level, filling it exactly |
| GridTracks.Flex | internal/layout/grid.go:858-896 | the whole flexible branch: level, exact sum, no track below its base |
| GridTracks.Stretch | internal/layout/grid.go:897-904 | automatic tracks share what is left in equal parts |
| GridTracks.ResolveGridTracks | internal/layout/grid.go:819-906 | with a definite basis and a taker, tracks plus gaps equal the larger of the basis and the bases plus gaps; flexible tracks are the larger of base and weight times one level; every track ends at a size its kind allows, the least such size unless it is flexible or automatic, and a fixed track at its pixels plus percentage whatever its content |
| GridTracks.LevelUnique | internal/layout/grid.go:858-896 | the total determines the flexible sizes: the freeze loop computes the only level there is |
| GridTracks.Filled | internal/layout/grid.go:884-891 | a pass that freezes nothing leaves an exact filling |
| GridTracks.Exhausted | internal/layout/grid.go:869-886 | so does a loop that runs out of weights |
| GridTracks.GrowGridSpan | internal/layout/grid.go:513-547 | growing stops short of nothing: the span reaches exactly what the item requires, the growable tracks grow by equal parts and the others not at all; or nothing is missing or may grow |
| GridTracks.Offset | internal/layout/grid.go:931-937 | where a track begins |
| GridTracks.SpanSize | internal/layout/grid.go:812-817 | a span is as long as its tracks and the gaps between them |
| GridPlacement.LineNumbers | internal/layout/grid.go:778-791 | a usable name wins; otherwise the number counts from the start, or from the end so that both numbers add up to the number of lines, and never below the first line |
| GridPlacement.LineFromEnd | internal/layout/grid.go:778-791 | the k-th line from the end of n tracks is the line n + 2 - k from the start |
| GridPlacement.AxisLines | internal/layout/grid.go:764-776 | how the lines of an axis, or a line and a span, come to its start and end; an axis that resolves its start resolves its end too |
| GridPlacement.OccupyGridCells | internal/layout/grid.go:793-799 | exactly the cells of the area become occupied |
| GridPlacement.GridCellsFree | internal/layout/grid.go:801-810 | true if and only if the area shares no cell with the occupied ones |
| GridPlacement.CursorOrder | internal/layout/grid.go:757-762 | cursors go through the cells row by row in row flow and column by column in column flow |
| GridPlacement.SpotsAdvance | internal/layout/grid.go:757-762 | in column flow, later cursors never lie in earlier columns |
| GridPlacement.Search | internal/layout/grid.go:156-174 | the search stops at the first fitting cursor from its start on |
| GridPlacement.SearchEnds | internal/layout/grid.go:156-174 | from any cursor on, some cursor fits if and only if the locked lines leave a free place |
| GridPlacement.FullRowNeverEnds | internal/layout/grid.go:107-174 | an item in the only cell of a row and an item locked to that row, in row flow: no cursor fits the second item, so the search for it never ends |
| GridPlacement.PlaceExplicit | internal/layout/grid.go:112-134 | resolved areas, track counts, and exactly the cells of the placed items occupied |
| GridPlacement.ResolvedWithin | internal/layout/grid.go:112-134 | every resolved area ends within the resulting counts |
| GridPlacement.ResolvedLines | internal/layout/grid.go:112-122 | a named area is taken as it is; otherwise columns and rows resolve each among their own lines and the tracks that the items before have left |
| GridPlacement.ResolvedNeeds | internal/layout/grid.go:123-130 | the track counts grow no further than some area reaches |
| GridPlacement.PlaceOne | internal/layout/grid.go:144-174 | one item goes to the first fitting spot of the grid widened for its span, and the grid grows by exactly its cells and tracks |
| GridPlacement.AutoPlace | internal/layout/grid.go:135-175 | all remaining items in order: every grid and cursor is determined by the first grid and the items before; dense packing starts each search afresh and sparse packing where the last one ended |
| GridPlacement.StageOccupied | internal/layout/grid.go:135-175 | each search meets exactly the cells of the explicitly placed items and of the items before its own |
| GridPlacement.DenseFirst | internal/layout/grid.go:141-174 | in dense packing no cursor before an item's own fits in that grid |
| GridPlacement.SparseFirst | internal/layout/grid.go:135-174 | in sparse packing an item comes behind the one placed before it, and no cursor in between fits |
| GridPlacement.PackedApart | internal/layout/grid.go:135-175 | an automatically placed item shares no cell with any other item |
| GridPlacement.PackedKeeps | internal/layout/grid.go:135-175 | an item keeps the lines it is locked to and gets, on either axis, the tracks between its lines, or its span, or one |
| GridPlacement.PackedPlaced | internal/layout/grid.go:135-175 | at the end every item has a place within the tracks |
| GridPlacement.CrossLockedPackable | internal/layout/grid.go:135-175 | items locked across the flow at most can always be placed |
| GridPlacement.PlaceItems | internal/layout/grid.go:112-175 | whenever every item has a free slot in the grid it meets, both phases end with every item placed within the final counts, automatic ones disjoint from all others and each at the first fitting cursor of a grid that the input determines |
| FlexLines.FormFlexLines | internal/layout/flex.go:79-102 | the lines in order are the items; every line fits or holds one item; no line had room for the next item |
| FlexLines.Ahead | internal/layout/flex.go:79-102 | the greedy lines are never behind any other way of breaking |
| FlexLines.FewestLines | internal/layout/flex.go:79-102 | greedy breaking uses the fewest lines |
| FlexLines.ClampNearest | internal/layout/flex.go:171-175 | a size within the limits stays, any other goes to the nearer limit, and a maximum below the minimum wins |
| FlexLengths.Begin | internal/layout/flex.go:107-118 | the space left for items after gaps and margins, with every target at its base |
| FlexLengths.FreezeInflexible | internal/layout/flex.go:119-129 | exactly the inflexible items are frozen, at their hypothetical size |
| FlexLengths.SharesSum | internal/layout/flex.go:149-165 | the shares of one pass use up what remains, unless there is no weight |
| FlexLengths.Pass | internal/layout/flex.go:131-183 | one pass gives each unfrozen item its clamped share and freezes it exactly when it is not the whole share; without violations the remaining space is used up exactly |
| FlexLengths.LooseFewer | internal/layout/flex.go:131-183 | freezing reduces the number of unfrozen items unless nothing is frozen |
| FlexLengths.LengthIs | internal/layout/flex.go:107-118 | the length by which lines are broken is the one that decides between growing and shrinking |
| FlexLengths.ResolveFlexibleLengths | internal/layout/flex.go:107-184 | the loop ends within its cap with every item frozen and within its limits; one rate determines every item that takes part and stands at no limit, by its growth factor or by its shrink factor times its base; items grow if and only if the line is shorter than the available size; and when some weighted item stands at no limit, items, margins and gaps fill that size exactly |
| Floats.Engine.FloatEdges | internal/layout/float.go:93-106 | the innermost edges that floats meeting the band leave |
| Floats.Engine.NextFloatBottom | internal/layout/float.go:108-117 | the next bottom edge if and only if an edge at zero is not skipped; while floats end below, it advances and their number falls |
| Floats.Engine.AddFloat | internal/layout/float.go:13-76 | left and right floats stay pairwise disjoint and inside their width, against the edge they float to; the place is the highest with room if and only if the search starts at zero or below, or there is room above zero, or there is none between zero and the bottom that a scan from above zero finds |
| Floats.Engine.Search | internal/layout/float.go:37-62 | the downward search ends, because fewer floats end below at each step, and finds the highest place under exactly that condition |
| Floats.Engine.ClearFloats | internal/layout/float.go:119-130 | the flow position moves below every cleared float and no further |
| Floats.Engine.FloatLineArea | internal/layout/float.go:78-91 | a line gets the room between the floats, and moves down to the next bottom edge if and only if there is less than one pixel |
| Floats.CrowdedStep | internal/layout/float.go:42-62 | a step of the search misses no room above zero, and none at all unless it passes over an edge at zero |
| Floats.PassedStep | internal/layout/float.go:42-62 | a search from above zero that has passed zero has passed exactly what a scan from above zero skips |
| Floats.NotTheHighest | internal/layout/float.go:37-62 | two floats and a start above zero for which the condition fails although there is room at zero |
| Floats.MissedRoom | internal/layout/float.go:13-76 | three floats placed one after the other from above zero, the last of them below zero although there was room at zero |
| Floats.EdgesUnique | internal/layout/float.go:93-106 | the floats and the band determine both edges |
| Floats.EdgesTight | internal/layout/float.go:93-106 | an edge is pushed in only by a float of its side that overlaps the band, and no further than to that float |
| Floats.ScanExactly | internal/layout/float.go:108-117 | the scan finds the next bottom edge if and only if it does not skip one at zero |
| Floats.ScanCanSkip | internal/layout/float.go:108-117 | two floats between which the scan skips |
| Floats.ScanAdvances | internal/layout/float.go:108-117 | while a float ends below, the scan moves down past the end of one |
| Floats.CrowdedOn | internal/layout/float.go:37-62 | down to the next bottom edge there is no more room than here |
| Floats.EdgesClear | internal/layout/float.go:37-62 | a box between the edges overlaps no left or right float |
| Bezier.NewCubicBezier | internal/animation/timing.go:73-84 | accepted if and only if both x coordinates lie in the unit interval |
| Bezier.Rise | internal/animation/timing.go:126-129 | the rise between two parameters is their distance times a sum of slopes |
| Bezier.DerivativeIsSlope | internal/animation/timing.go:131-134 | the derivative function is the slope of the coordinate function |
| Bezier.DerivativeBounded | internal/animation/timing.go:131-134 | with control x coordinates in the unit interval the derivative lies between zero and three |
| Bezier.Lipschitz | internal/animation/timing.go:126-134 | with control x coordinates in the unit interval the x coordinate moves at most three times as far as the parameter |
| Bezier.Monotone | internal/animation/timing.go:126-134 | the x coordinate never runs backwards, so the curve is the graph of a function |
| Bezier.Newton | internal/animation/timing.go:94-108 | the Newton loop reports only parameters in the unit interval that meet the tolerance |
| Bezier.Bisect | internal/animation/timing.go:110-123 | bisection reaches three times two to the minus 24 |
| Bezier.Transform | internal/animation/timing.go:86-124 | the result is y at a parameter in the unit interval with x within three times two to the minus 24 of the progress, whichever way the search ends |
| Bezier.BracketBounds | internal/animation/timing.go:110-123 | either end of a bracket around the solution misses the progress by at most three times its width |
| Bezier.FlatBetween | internal/animation/timing.go:86-124 | between the parameter found and an exact solution the curve stays within the bound |
| Styles.Stylesheet.Append | internal/css/parser.go:534-540 | the other sheet's rules follow in order up to the cap, each numbered by its position |
| Styles.AppendCapped | internal/css/parser.go:534-540 | capping the parts before appending or the whole afterwards comes to the same |
| Styles.Stylesheet.PutUnder | internal/browser/styles.go:83-93 | an import's media condition and layer go around those its rules have |
| Styles.Stylesheet.NestUnderLayer | internal/css/stylesheet.go:414-438 | every rule's layer is nested under the parent layer |
| Styles.FlattenIsInlined | internal/browser/styles.go:68-99 | wrapping rules bottom-up equals carrying conditions top-down: each rule has the conditions of all imports above it, outermost first |
| Styles.CarriesPath | internal/browser/styles.go:75-95 | a rule of the result stands in some sheet and carries the media lists and layer names of exactly the imports that lead there, outermost first |
| Styles.PathCarries | internal/browser/styles.go:75-95 | and every rule of every sheet so reached is in the result |
| Styles.VisitMetered | internal/browser/styles.go:101-146 | over any graph the loader makes at most 32 requests, takes at most 16 MiB and goes at most 9 sheets deep, and the tree accounts for each request and byte |
| Styles.LoadedFrom | internal/browser/styles.go:101-138 | a loaded sheet was asked for at its bare address, came in an acceptable reply from an allowed address, after a redirect if the reply names one, and has the imports and rules of the parsed text |
| Styles.ChainsRepeatNothing | internal/browser/styles.go:101-138 | on no chain of imports does an address, compared as a string, occur twice, neither as requested nor as redirected |
| Styles.WholeGraphExactly | internal/browser/styles.go:68-138 | on a steady network the loader returns the unlimited unfolding of the import graph if and only if the limits leave room for it |
| Styles.TowerTooHigh | internal/browser/styles.go:101-106 | graphs of ten and more sheets, each importing the next, that are not returned whole |
| Styles.Loader.ConsumeBytes | internal/browser/styles.go:140-146 | bytes are taken if and only if they fit |
| Styles.Loader.LoadContent | internal/browser/styles.go:68-99 | imports in order and then the sheet's own rules; the active addresses are restored |
| Styles.Loader.LoadImport | internal/browser/styles.go:75-95 | one import: load, put under its conditions, append, or nothing |
| Styles.Loader.LoadExternal | internal/browser/styles.go:101-138 | the shared set of active addresses, with its deferred deletions, acts like a set passed down the recursion |
| Styles.Loader.TakeReply | internal/browser/styles.go:114-137 | the reply's checks in order, and the second address of a redirect |
| Styles.LoadStyles | internal/browser/styles.go:39-66 | the page's rules are the depth-first inlining of its sheets up to the rule cap, each numbered by its position; only an inline sheet that cannot be parsed fails the page |
| Styles.PageFailsExactly | internal/browser/styles.go:39-66 | a page fails if and only if one of the sheets in its own text, with bytes left to try it, cannot be parsed |
| Styles.SheetsInOrder | internal/browser/styles.go:39-66 | a page's sheets stand in the order of their sources: a linked one as it is loaded, or empty, and one in its own text with its own rules and imports |
| Forms.EncodeFormComponent | internal/forms/submission.go:140-155 | decoding the component gives back the value with invalid bytes repaired, and it has no separator in it |
| Forms.EncodesByte | internal/forms/submission.go:140-155 | letters, digits and four marks stay as they are, a space becomes a plus sign, and any other byte a percent sign and two upper-case digits |
| Forms.EncodeURLEncodedLimited | internal/forms/submission.go:121-138 | refused if and only if there are over 1000 entries or the whole text is over 1 MiB; otherwise the standard parser gives back the entries, unchanged when valid |
| Forms.EncodeURLEncoded | internal/forms/submission.go:115-118 | an oversized form reads as an empty one |
| Forms.ParseJoined | internal/forms/submission.go:121-155 | parsing the encoding gives back every entry in order, including empty names and values, with invalid bytes repaired |
| Forms.RoundTripExactly | internal/forms/submission.go:121-155 | the parser inverts the encoding if and only if every name and value is valid UTF-8 |
| Forms.StrayByte | internal/forms/submission.go:140-141 | an entry that comes back changed |
| Forms.ParsedIsValid | internal/forms/submission.go:140-155 | whatever is submitted, the parser reads valid UTF-8 |
| Forms.RepairKeepsExactly | internal/forms/submission.go:141-141 | the repair leaves a byte string alone if and only if it is valid |
| Forms.RepairReplacesRun | internal/forms/submission.go:141-141 | one replacement character takes the place of each longest run of bytes that no scalar value starts at |
| Forms.ValidMeansText | internal/forms/submission.go:141-141 | a valid byte string is the encoding of some sequence of Unicode scalar values |
| Forms.TextIsValid | internal/forms/submission.go:141-141 | the encoding of any such sequence is valid |
| Forms.JoinedGrows | internal/forms/submission.go:133-135 | the text only grows, so the check after each entry decides like one at the end |

## Left out

- Dom.Document.InsertChild: requires its arguments to be absent, foreign or owned nodes; handles to nodes already destroyed by `Remove` or `SetTextContent` are not modelled. The same holds for `DetachChild`, `ReplaceChildren` and `IsConnected`.
- Dom.Document.ReplaceChildren: the child list is a value, so sharing the caller's slice with the document is not captured.
- Dom.Document.Create: requires the counter to be above every ID in use; what a wrapped counter overwrites is not modelled. The same holds for `SetTextContent`, and `Edits.Run` takes sequences that keep the counter below 2^64.
- Dom.Document.CreateElement: the tag name is taken as given; lower-casing it is not modelled.
- Dom.Document.SetAttribute: a missing attribute map and an empty one are the same value.
- `AppendChild`, `SetReadyState`, title, counts, selectors and queries by class or tag: easy members over the same tree.
- Snapshots.LinkSnapshot: child slots are appended, not filled into a preallocated list.
- Navigation.Browser.CommitPage: page IDs and navigation numbers are unbounded, so wrap-around after 2^64 navigations is not modelled.
- Browsing.Reachable: storage, service workers, developer-tool stores and the runtimes of frames are not part of a run; a runtime is a token that is started and stopped.
- Navigation.Browser.PushHistoryState: whether the state is valid UTF-8 and JSON, and how a URL is parsed, are inputs.
- ImageCache.Cache.Load: image contents, decoding budgets, statistics counters and the wrap-around of the tick are not modelled; the reasons for which a request may not be fetched are one input.
- WindowBroker.Registry.Post: the parsing of the target origin is an input.
- WindowBroker.Registry.DrainRound: a runtime without a message dispatcher counts as one that ignores messages.
- GridTracks.ResolveGridTracks: requires base contributions and factors that are not negative; content sizes are inputs.
- GridPlacement.PlaceItems: requires every item to have a free slot when its turn comes, which is exactly when the code's searches end; `CrossLockedPackable` gives it for items locked across the flow at most.
- Subgrids, automatic repetition of tracks, alignment offsets and rendering in a grid: mostly plumbing around the two models.
- Flex item collection, ordering by `order` (a library sort), spacing and cross alignment: easy members.
- FlexLines.FewestLines: requires sizes and gaps that are not negative; with negative margins greedy breaking need not be best.
- FlexLengths.ResolveFlexibleLengths: requires hypothetical sizes to be base sizes within their limits; rounding is not modelled.
- Floats.Engine.AddFloat: rendering the contents of a float is left out and taken not to change the list of floats; top and bottom floats take no part in the disjointness.
- Bezier.Transform: exact reals in place of 64-bit floating point.
- Linear and step easing, and sampling of timings: easy members.
- Styles.LoadStyles: the parser, the resolution of addresses, the network and the collection of `style` and `link` elements are inputs; layer order, font faces, registered properties and keyframes of a sheet are not modelled.
- Styles.WholeGraphExactly: requires a network that answers the same request in the same way at any time; the other results hold for any answers.
- Forms.ParseJoined: the parser's last step, decoding names and values from UTF-8, is left out because what it is given is valid (`ParsedIsValid`).
- Collecting entries from a form's controls, normalising line ends and resolving the submission: easy members.
- Goroutine scheduling below the level of locked sections, network clients, caches on disk and foreign script engines are not part of this model.
