# Leaflet.Editable 0.2.0 — drawing and editing state machine

This project models the core of Leaflet.Editable 0.2.0, a Leaflet plugin for drawing and editing markers, polylines and polygons with holes. The modelled core is:

- the per-editor state machine: idle, drawing forward or drawing backward, plus the ring being drawn (`_drawnLatLngs`);
- the rings of positions a feature owns: the outer latlngs array and the `_holes` list;
- the vertex handles (`VertexMarker`, one per position, back-referenced as `latlng.__vertex`);
- the midpoint handles (`MiddleMarker`, owned by the right-hand vertex of each segment);
- the map-wide tools: the single registered drawer, the new-click handler, the two line guides and the `leaflet-editable-drawing` CSS class.

Model layout:

- **Coords** is the coordinate type and the midpoint computation.
- **Rings** covers a ring as a sequence of position identities. It has:
  - the JavaScript `indexOf` and `splice` semantics, including a negative start;
  - neighbour lookup with and without closing, plus reference definitions by index;
  - the removal and insertion facts the editors rely on.
- **Features** covers the feature: a store of ring arrays by identity, the outer ring, the hole list and position coordinates. It also has the per-kind constants `CLOSED` and `MIN_VERTEX`, and the hole-list maintenance of `PolygonEditor`.
- **Guides** is the forward and backward line guides.
- **Editors** is one editor: its feature, its edit layer of vertex and midpoint handles, and its drawing state. It has the handle operations of `VertexMarker` and `MiddleMarker`, and the `PathEditor` edits (`addLatLng`, `newHole`, vertex deletion, midpoint promotion, dragging). It also states the editor invariant `Valid`:
  - every position has exactly one vertex handle, created for its own ring;
  - the hole list is duplicate-free;
  - a path editor draws exactly while it has a drawn ring;
  - every midpoint handle joins a position to its predecessor and sits at their midpoint.
- **EditorLemmas** proves that every editor edit keeps `Valid`, and proves the adjacency facts behind it.
- **Sessions** is the map-wide `L.Editable` tools plus the registry of editors. It has:
  - `registerForDrawing` and `unregisterForDrawing`;
  - the start, end, cancel and finish cycle;
  - clicks, mouse moves, vertex clicks, midpoint mouse-downs and drags, as they reach an editor.

  Notifications are appended to a log.
- **SessionLemmas** proves that every tools operation keeps the world invariant `WorldValid`:
  - every editor is `Valid`;
  - at most one editor draws, and it is the registered drawer;
  - the CSS class, the new-click handler, subscriptions and guides are in use only for that drawer.

  It also proves the observable effects of the user gestures.

Positions are modelled by identity (`PosId`), because the source compares `LatLng` objects with `===` and `indexOf`. Their coordinates live in a separate map. Rings are likewise held by identity in a store, because `_holes.indexOf(ring)` and `_drawnLatLngs === this.getLatLngs()` compare arrays. A hole taken out of `_holes` stays in the store. The drawn-ring reference may still point at it.

The model follows the code, with two deliberate exceptions, both recorded under Findings:

- **Registration.** `startDrawing` and everything built on it use the corrected `registerForDrawing`: `newHole`, `startDrawingForward`, `startDrawingBackward`, `continueForward` and `continueBackward`. The corrected version does not cancel an editor that registers while it is already the drawer. In every other case it gives the same world as the code (`SessionLemmas.RegisterAgrees`).
- **Emptied holes.** Vertex deletion uses the corrected removal of an emptied hole. It leaves the hole list alone when the emptied ring is no longer a listed hole. In every other case it gives the same hole list as the code (`EditorLemmas.DeleteHolesAsWritten`).

The as-written versions are modelled alongside, together with the lemmas that exhibit each discrepancy.

## Model

All source cells refer to `ajax/libs/leaflet-editable/0.2.0/Leaflet.Editable.js`.

| member | source | states |
|---|---|---|
| Coords.Midpoint | ajax/libs/leaflet-editable/0.2.0/Leaflet.Editable.js:348-352 | The midpoint handle is placed equally far, in latitude and in longitude, from both ends of its segment. |
| Guides.Anchor | ajax/libs/leaflet-editable/0.2.0/Leaflet.Editable.js:59-67 | Anchoring a guide sets its first point and leaves the later points and its visibility alone. |
| Guides.Move | ajax/libs/leaflet-editable/0.2.0/Leaflet.Editable.js:45-57 | Moving an unanchored guide does nothing. Moving an anchored guide keeps the anchor, puts the pointer in the second slot and keeps everything after it. |
| Guides.Attach | ajax/libs/leaflet-editable/0.2.0/Leaflet.Editable.js:69-75 | Attaching shows the guide without changing its points. |
| Guides.Detach | ajax/libs/leaflet-editable/0.2.0/Leaflet.Editable.js:77-85 | Detaching hides the guide and leaves it unanchored. |
| Guides.MoveAfterDetach | ajax/libs/leaflet-editable/0.2.0/Leaflet.Editable.js:45-85 | After a detach, pointer moves are ignored until the guide is re-anchored. After re-anchoring, the guide runs exactly from the anchor to the pointer. |
| Rings.IndexOf | ajax/libs/leaflet-editable/0.2.0/Leaflet.Editable.js:268-270 | `indexOf` answers -1 exactly when the position is absent. Otherwise it answers an index holding that position. |
| Rings.IndexOfFirst | ajax/libs/leaflet-editable/0.2.0/Leaflet.Editable.js:268-270 | No earlier index holds the position: `indexOf` finds the first occurrence. |
| Rings.IndexOfAt | ajax/libs/leaflet-editable/0.2.0/Leaflet.Editable.js:268-270 | In a duplicate-free ring, `indexOf` of the entry at index k is k. |
| Rings.Previous | ajax/libs/leaflet-editable/0.2.0/Leaflet.Editable.js:276-283 | The predecessor is a member of the ring and differs from the position. Absent positions and rings shorter than two have none. |
| Rings.Next | ajax/libs/leaflet-editable/0.2.0/Leaflet.Editable.js:285-292 | The successor is a member of the ring and differs from the position. For an absent position in a ring of two or more, index -1 plus one gives the first entry. |
| Rings.Adjacency | ajax/libs/leaflet-editable/0.2.0/Leaflet.Editable.js:276-292 | The identity-based lookups agree with independent index-based definitions of predecessor and successor, with and without closing. |
| Rings.ClosedRingWraps | ajax/libs/leaflet-editable/0.2.0/Leaflet.Editable.js:276-292 | On a closed ring the first position's predecessor is the last position, and the last position's successor is the first. |
| Rings.OpenRingEnds | ajax/libs/leaflet-editable/0.2.0/Leaflet.Editable.js:276-292 | On an open ring the first position has no predecessor and the last has no successor. |
| Rings.NextPreviousInverse | ajax/libs/leaflet-editable/0.2.0/Leaflet.Editable.js:276-292 | q follows p exactly when p precedes q (both directions). |
| Rings.SpliceStart | ajax/libs/leaflet-editable/0.2.0/Leaflet.Editable.js:256 | `splice` start normalisation as ECMAScript defines it: an in-range start is kept, a negative start counts from the end but not below 0, and a start past the end becomes the length. |
| Rings.Remove | ajax/libs/leaflet-editable/0.2.0/Leaflet.Editable.js:254-256 | Deleting a present position shortens its ring by one. Splicing at index -1 for an absent position drops the last entry. |
| Rings.RemoveSplit | ajax/libs/leaflet-editable/0.2.0/Leaflet.Editable.js:256 | Removing a present position leaves the entries before its index followed by the entries after it. |
| Rings.RemoveCount | ajax/libs/leaflet-editable/0.2.0/Leaflet.Editable.js:256 | Exactly one occurrence of the deleted position leaves the ring, and nothing else changes as a multiset. |
| Rings.RemoveIndex | ajax/libs/leaflet-editable/0.2.0/Leaflet.Editable.js:256 | Entries before the removed index keep their index, and those after it move down by one. |
| Rings.RemoveMembers | ajax/libs/leaflet-editable/0.2.0/Leaflet.Editable.js:256 | A duplicate-free ring stays duplicate-free, and its members afterwards are exactly the old members other than the deleted one. |
| Rings.RemoveKeepsOrder | ajax/libs/leaflet-editable/0.2.0/Leaflet.Editable.js:254-256 | Deleting a vertex equals filtering it out of the ring (an independent definition), so the remaining order is unchanged. |
| Rings.RemoveKeepsPrevious | ajax/libs/leaflet-editable/0.2.0/Leaflet.Editable.js:254-259 | Deleting a vertex changes no predecessor except that of its own successor. |
| Rings.RemoveBridgesGap | ajax/libs/leaflet-editable/0.2.0/Leaflet.Editable.js:254-259 | After a deletion in a ring of three or more, the deleted vertex's successor has the deleted vertex's predecessor as its new predecessor. |
| Rings.Insert | ajax/libs/leaflet-editable/0.2.0/Leaflet.Editable.js:361 | `splice(start, 0, n)` makes the ring one longer and puts n at an in-range start. |
| Rings.InsertCount | ajax/libs/leaflet-editable/0.2.0/Leaflet.Editable.js:361 | Inserting adds exactly the new position and keeps every old one, as a multiset. |
| Rings.InsertFrom | ajax/libs/leaflet-editable/0.2.0/Leaflet.Editable.js:361 | Entries before the insertion point keep their index, and those after it move up by one. |
| Rings.InsertMembers | ajax/libs/leaflet-editable/0.2.0/Leaflet.Editable.js:361 | Inserting a fresh position keeps the ring duplicate-free. Its members become the old ones plus the new one (both directions). |
| Rings.InsertNext | ajax/libs/leaflet-editable/0.2.0/Leaflet.Editable.js:359-366 | A position inserted before the midpoint's right end has that right end as its successor. |
| Rings.InsertNeighbours | ajax/libs/leaflet-editable/0.2.0/Leaflet.Editable.js:359-366 | The promoted midpoint sits between the right end's old predecessor and the right end. |
| Rings.InsertKeepsPrevious | ajax/libs/leaflet-editable/0.2.0/Leaflet.Editable.js:359-366 | Inserting changes no predecessor except that of the right end. |
| Rings.Append | ajax/libs/leaflet-editable/0.2.0/Leaflet.Editable.js:659 | `push` keeps the ring as a prefix, puts the new position last, and keeps the ring duplicate-free when the position is fresh. |
| Rings.Prepend | ajax/libs/leaflet-editable/0.2.0/Leaflet.Editable.js:660 | `unshift` keeps the ring as a suffix, puts the new position first, and keeps the ring duplicate-free when the position is fresh. |
| Rings.AppendKeepsPrevious | ajax/libs/leaflet-editable/0.2.0/Leaflet.Editable.js:658-663 | Drawing forward changes no predecessor except the new position's successor's, which is the first position on a polygon. |
| Rings.PrependKeepsPrevious | ajax/libs/leaflet-editable/0.2.0/Leaflet.Editable.js:658-663 | Drawing backward changes no predecessor except the old first position's. |
| Rings.NoDupIndices | ajax/libs/leaflet-editable/0.2.0/Leaflet.Editable.js:205-213 | One handle per position (`__vertex`) means that distinct indices hold distinct positions. |
| Rings.DistinctNoDup | ajax/libs/leaflet-editable/0.2.0/Leaflet.Editable.js:205-213 | Conversely, pairwise-distinct entries make a duplicate-free ring. |
| Features.Empty | ajax/libs/leaflet-editable/0.2.0/Leaflet.Editable.js:149-159 | A feature created from `[]` has one empty outer ring, no holes and no positions. |
| Features.AddNewEmptyHole | ajax/libs/leaflet-editable/0.2.0/Leaflet.Editable.js:747-754 | The new hole is a fresh, empty ring appended to `_holes`. The hole list stays duplicate-free, and the outer ring and coordinates are untouched. |
| Features.DropEmptyHoleAsWritten | ajax/libs/leaflet-editable/0.2.0/Leaflet.Editable.js:776-781 | As written, removing a listed hole shortens the list by one. Removing an unlisted ring drops the last hole. |
| Features.DropEmptyHoleAsWrittenLosesHole | ajax/libs/leaflet-editable/0.2.0/Leaflet.Editable.js:776-781 | With holes `[1]` and emptied ring 2, which is no longer listed, hole 1 is lost. |
| Features.DropEmptyHole | ajax/libs/leaflet-editable/0.2.0/Leaflet.Editable.js:776-781 | Corrected: The emptied hole leaves the list and every other hole stays (both directions). The list stays duplicate-free. |
| Features.DropEmptyHoleKeepsOrder | ajax/libs/leaflet-editable/0.2.0/Leaflet.Editable.js:776-781 | Corrected: The remaining holes keep their order: the result equals filtering the hole out. |
| Features.DropEmptyHoleAgrees | ajax/libs/leaflet-editable/0.2.0/Leaflet.Editable.js:776-781 | For a hole still in the list, the corrected removal and the code as written give the same list. |
| Editors.Fresh | ajax/libs/leaflet-editable/0.2.0/Leaflet.Editable.js:394-401 | A new editor is idle, has no drawn ring and no handles, and owns one empty outer ring. |
| Editors.FreshValid | ajax/libs/leaflet-editable/0.2.0/Leaflet.Editable.js:394-401 | A new editor satisfies the editor invariant. |
| Editors.FreshPosition | ajax/libs/leaflet-editable/0.2.0/Leaflet.Editable.js:658-663 | A newly created position object is in no ring and has no coordinates yet. |
| Editors.GetIndex | ajax/libs/leaflet-editable/0.2.0/Leaflet.Editable.js:268-270 | A vertex's index is a valid index of its own ring, and that index holds the vertex. |
| Editors.GetPrevious | ajax/libs/leaflet-editable/0.2.0/Leaflet.Editable.js:276-283 | A previous vertex found through `__vertex` is a handled position of the same ring. |
| Editors.GetNext | ajax/libs/leaflet-editable/0.2.0/Leaflet.Editable.js:285-292 | A next vertex found through `__vertex` is a handled position of the same ring. |
| Editors.NeighboursOfValid | ajax/libs/leaflet-editable/0.2.0/Leaflet.Editable.js:276-292 | For a valid editor, the handle lookups give exactly the ring's predecessor and successor, closing on polygons. |
| Editors.NextPreviousHandles | ajax/libs/leaflet-editable/0.2.0/Leaflet.Editable.js:276-292 | Between vertex handles, `getNext` and `getPrevious` are inverse (both directions). |
| Editors.AddMiddleMarker | ajax/libs/leaflet-editable/0.2.0/Leaflet.Editable.js:294-297 | A vertex with a predecessor gets a correct midpoint handle, and other midpoint handles are untouched. A vertex without one gets none. |
| Editors.ResetMiddleMarker | ajax/libs/leaflet-editable/0.2.0/Leaflet.Editable.js:310-313 | The vertex's midpoint handle is rebuilt to join it to its current predecessor, and every other midpoint handle is untouched. |
| Editors.UpdateMiddle | ajax/libs/leaflet-editable/0.2.0/Leaflet.Editable.js:344-346 | Updating keeps the handle's left end and moves it to the midpoint of the current coordinates. Nothing else changes. |
| Editors.AddVertexMarker | ajax/libs/leaflet-editable/0.2.0/Leaflet.Editable.js:205-222 | Creating a vertex handle records it for its ring, and the geometry is untouched. |
| Editors.SuccessorHandle | ajax/libs/leaflet-editable/0.2.0/Leaflet.Editable.js:299-308 | After a new vertex is added, its successor's midpoint handle joins the successor to the new vertex. |
| Editors.Unlinked | ajax/libs/leaflet-editable/0.2.0/Leaflet.Editable.js:254-258 | Uses the corrected hole removal. The vertex and its own midpoint handle are gone, and the position leaves its ring, which is one shorter. Coordinates and the outer ring are kept. |
| Editors.DeleteVertex | ajax/libs/leaflet-editable/0.2.0/Leaflet.Editable.js:254-260 | Uses the corrected hole removal. Deleting a vertex removes exactly that position from its ring and its handle from the layer. The hole list only shrinks. Coordinates and the drawing state are kept. |
| Editors.RemoveMiddle | ajax/libs/leaflet-editable/0.2.0/Leaflet.Editable.js:368-375 | A midpoint handle whose left end is a different vertex is left alone. |
| Editors.Spliced | ajax/libs/leaflet-editable/0.2.0/Leaflet.Editable.js:359-363 | The promoted midpoint becomes a new position, inserted before the right end at the pointer's coordinates. The right end's midpoint handle now starts at it. |
| Editors.PromoteMiddle | ajax/libs/leaflet-editable/0.2.0/Leaflet.Editable.js:359-366 | Promotion inserts one fresh position before the right end and gives it a vertex handle. The hole list, outer ring and drawing state are kept. |
| Editors.RefreshMiddle | ajax/libs/leaflet-editable/0.2.0/Leaflet.Editable.js:230-232 | The dragged vertex's own midpoint handle moves to the midpoint of its segment, and no other handle changes. |
| Editors.Moved | ajax/libs/leaflet-editable/0.2.0/Leaflet.Editable.js:224-228 | Dragging changes only the dragged position's coordinates. |
| Editors.RefreshNext | ajax/libs/leaflet-editable/0.2.0/Leaflet.Editable.js:233-236 | The next vertex's midpoint handle moves to its segment's midpoint, and no other handle changes. |
| Editors.Drag | ajax/libs/leaflet-editable/0.2.0/Leaflet.Editable.js:224-237 | A drag moves one position. Exactly the two midpoint handles touching it follow, and all other handles and the ring structure stay. |
| Editors.AddLatLng | ajax/libs/leaflet-editable/0.2.0/Leaflet.Editable.js:658-663 | Adding succeeds exactly when there is a drawn ring. A fresh position is then pushed when drawing forward and unshifted otherwise, with a handle and the given coordinates. |
| Editors.OpenHole | ajax/libs/leaflet-editable/0.2.0/Leaflet.Editable.js:756-757 | `newHole` makes a fresh empty ring, appends it to the holes and makes it the drawn ring. The outer ring and handles are kept. |
| EditorLemmas.DrawingStateValid | ajax/libs/leaflet-editable/0.2.0/Leaflet.Editable.js:455-475 | Changing only the drawing state and drawn ring, consistently with each other, keeps the editor invariant. |
| EditorLemmas.NewHoleValid | ajax/libs/leaflet-editable/0.2.0/Leaflet.Editable.js:747-760 | Opening a new hole and drawing into it keeps the editor invariant. |
| EditorLemmas.GrowValid | ajax/libs/leaflet-editable/0.2.0/Leaflet.Editable.js:205-222 | Adding a fresh position to a ring keeps the editor invariant, provided no predecessor changes except the new position's successor's. That holds for both push and midpoint insertion. Creating its handle then repairs the midpoint handles. |
| EditorLemmas.AddVertexMarkerRestores | ajax/libs/leaflet-editable/0.2.0/Leaflet.Editable.js:299-308 | Creating the new vertex's handle makes every midpoint handle correct again: its own and its successor's. |
| EditorLemmas.AddLatLngValid | ajax/libs/leaflet-editable/0.2.0/Leaflet.Editable.js:658-663 | With a drawn ring, adding a point always succeeds and keeps the editor invariant. |
| EditorLemmas.PromoteGrowth | ajax/libs/leaflet-editable/0.2.0/Leaflet.Editable.js:359-363 | The promoted position sits between the midpoint's left and right ends, and no other predecessor changes. |
| EditorLemmas.PromoteMiddleValid | ajax/libs/leaflet-editable/0.2.0/Leaflet.Editable.js:359-366 | Promotion keeps the invariant. The old segment becomes two midpoint handles, left-to-new and new-to-right. |
| EditorLemmas.DeleteVertexValid | ajax/libs/leaflet-editable/0.2.0/Leaflet.Editable.js:254-260 | Deleting any vertex keeps the editor invariant. |
| EditorLemmas.DeleteBridges | ajax/libs/leaflet-editable/0.2.0/Leaflet.Editable.js:254-260 | After deleting a vertex from a ring of three or more, its successor's midpoint handle joins the successor to the deleted vertex's predecessor. |
| EditorLemmas.DeleteHoles | ajax/libs/leaflet-editable/0.2.0/Leaflet.Editable.js:776-781 | Corrected: The hole list changes only when a polygon's hole loses its last position. The hole then leaves the list in order. |
| EditorLemmas.DeleteHolesAsWritten | ajax/libs/leaflet-editable/0.2.0/Leaflet.Editable.js:776-781 | Except when the emptied ring is no longer a listed hole, deletion changes the hole list exactly as `splice(indexOf(ring), 1)` as written does. |
| EditorLemmas.DragKeepsMiddle | ajax/libs/leaflet-editable/0.2.0/Leaflet.Editable.js:224-237 | After a drag every midpoint handle is still where adjacency says. |
| EditorLemmas.DragValid | ajax/libs/leaflet-editable/0.2.0/Leaflet.Editable.js:224-237 | Dragging a vertex keeps the editor invariant. |
| Sessions.NewTools | ajax/libs/leaflet-editable/0.2.0/Leaflet.Editable.js:16-24 | New tools have no drawer, no subscriptions, a hidden handler and no CSS class. |
| Sessions.Fire | ajax/libs/leaflet-editable/0.2.0/Leaflet.Editable.js:419-425 | Firing appends exactly one notification and changes nothing else. |
| Sessions.Ended | ajax/libs/leaflet-editable/0.2.0/Leaflet.Editable.js:651-656 | An ended editor is idle, and a path editor no longer has a drawn ring. The geometry and handles are kept. |
| Sessions.Unregister | ajax/libs/leaflet-editable/0.2.0/Leaflet.Editable.js:97-108 | The handler is hidden and the named (or drawing) editor is unsubscribed. Only when that editor is the drawer are the drawer and CSS class cleared and the editor cancelled if still drawing. No other editor changes. |
| Sessions.EndDrawing | ajax/libs/leaflet-editable/0.2.0/Leaflet.Editable.js:651-656 | Ending makes the editor idle and releases the drawer role. It unsubscribes the editor and reports the end last. A path editor's guides are detached: hidden and emptied of points. |
| Sessions.CancelDrawing | ajax/libs/leaflet-editable/0.2.0/Leaflet.Editable.js:466-469 | Cancelling ends drawing like `endDrawing`, including hiding and emptying a path editor's guides, and reports the cancellation last. |
| Sessions.FinishDrawing | ajax/libs/leaflet-editable/0.2.0/Leaflet.Editable.js:461-464 | Finishing ends drawing like `endDrawing`, including hiding and emptying a path editor's guides, and reports the finish last. |
| Sessions.StopDrawing | ajax/libs/leaflet-editable/0.2.0/Leaflet.Editable.js:110-112 | Afterwards no editor is the drawer, the handler is hidden and no editor other than the old drawer changes. |
| Sessions.Replaced | ajax/libs/leaflet-editable/0.2.0/Leaflet.Editable.js:87-95 | Corrected: Registering replaces at most one editor, the current drawer, and never the registering editor itself. |
| Sessions.RegisterForDrawingAsWritten | ajax/libs/leaflet-editable/0.2.0/Leaflet.Editable.js:87-95 | As written: the editor subscribes to pointer moves. Then the current drawer is unsubscribed from moves and clicks and cancelled if it is drawing, even when it is the registering editor. Then the editor becomes the drawer, is subscribed to clicks, the handler is shown and the CSS class set. No other editor changes. |
| Sessions.RegisterForDrawing | ajax/libs/leaflet-editable/0.2.0/Leaflet.Editable.js:87-95 | Corrected: Registering replaces only a different previous drawer, cancelling it if it is drawing. It then makes the editor the drawer, subscribes it and touches no other editor. |
| Sessions.Begin | ajax/libs/leaflet-editable/0.2.0/Leaflet.Editable.js:641-644 | Starting keeps a running direction or else draws forward. A path editor without a drawn ring starts drawing its outer ring. |
| Sessions.StartDrawing | ajax/libs/leaflet-editable/0.2.0/Leaflet.Editable.js:455-459 | Uses the corrected registration. Starting registers the editor as the drawer, replacing only a previous drawer, and reports the start last. |
| Sessions.AttachGuides | ajax/libs/leaflet-editable/0.2.0/Leaflet.Editable.js:742-745 | The forward guide is attached, and the backward guide only for polygons. Nothing else changes. |
| Sessions.StartDrawingForward | ajax/libs/leaflet-editable/0.2.0/Leaflet.Editable.js:646-649 | Uses the corrected registration. Forward drawing makes the editor the drawer with the forward guide shown. A polygon also shows the backward guide, as `PolygonEditor.startDrawingForward` does at lines 742-745. |
| Sessions.StartDrawingBackward | ajax/libs/leaflet-editable/0.2.0/Leaflet.Editable.js:701-705 | Uses the corrected registration. Backward drawing makes the polyline draw backward as the drawer, with the backward guide shown. |
| Sessions.OuterEnd | ajax/libs/leaflet-editable/0.2.0/Leaflet.Editable.js:717-723 | The first or last position of the outer ring, with none exactly when the ring is empty. |
| Sessions.ContinueBackward | ajax/libs/leaflet-editable/0.2.0/Leaflet.Editable.js:707-710 | Uses the corrected registration. Continuing backward leaves the polyline drawing backward as the drawer. |
| Sessions.ContinueForward | ajax/libs/leaflet-editable/0.2.0/Leaflet.Editable.js:712-715 | Uses the corrected registration. Continuing forward leaves the polyline drawing as the drawer, keeping a running direction. |
| Sessions.NewPointForward | ajax/libs/leaflet-editable/0.2.0/Leaflet.Editable.js:665-671 | Adding a point forward fails exactly without a drawn ring. Otherwise the point is added, the forward guide is anchored at it and one edit is reported. The backward guide, which closes a polygon, is anchored at the same point while its first slot is empty, and is otherwise left alone. |
| Sessions.NewPointBackward | ajax/libs/leaflet-editable/0.2.0/Leaflet.Editable.js:673-676 | Adding a point backward fails exactly without a drawn ring. Otherwise the point is added, the backward guide is anchored at it and one edit is reported. |
| Sessions.NewClick | ajax/libs/leaflet-editable/0.2.0/Leaflet.Editable.js:678-682 | A click that `isNewClickValid` rejects changes nothing. A failure arises only for a path editor without a drawn ring. |
| Sessions.NewHole | ajax/libs/leaflet-editable/0.2.0/Leaflet.Editable.js:756-760 | Uses the corrected registration. `newHole` never fails. |
| Sessions.MouseMove | ajax/libs/leaflet-editable/0.2.0/Leaflet.Editable.js:684-690 | An idle editor ignores the pointer. A drawing editor moves the new-click handler to the pointer. A drawing marker editor also moves its marker there, as `MarkerEditor.onMouseMove` does at lines 516-522. A drawing path editor moves the free end of both guides to the pointer instead, and its geometry is unchanged. No other editor changes, and no drawing state changes. |
| Sessions.VertexClickAction | ajax/libs/leaflet-editable/0.2.0/Leaflet.Editable.js:584-601 | Modifier keys report, in priority ctrl, alt, shift, and only they report. A plain click finishes exactly in three cases: on the last vertex (not the first) while drawing forward; on the first vertex while drawing backward with at least `MIN_VERTEX` drawn positions; on the first vertex of a closed ring while drawing forward with at least `MIN_VERTEX` drawn positions. Every other plain click is raw. Reading the drawn ring's length without one fails. |
| Sessions.RawClick | ajax/libs/leaflet-editable/0.2.0/Leaflet.Editable.js:603-611 | A vertex that may not be deleted is left alone. Otherwise it is deleted, and `vertex:deleted` then an edit are reported. An outer ring at or above `MIN_VERTEX` stays there. |
| Sessions.VertexClick | ajax/libs/leaflet-editable/0.2.0/Leaflet.Editable.js:239-242 | A click succeeds exactly when its decision does. A modifier click only adds one notification, and no click drops the outer ring below `MIN_VERTEX`. |
| Sessions.MiddleMouseDown | ajax/libs/leaflet-editable/0.2.0/Leaflet.Editable.js:359-366 | The midpoint is promoted in its editor, and the mouse-down then an edit are reported. |
| Sessions.VertexDrag | ajax/libs/leaflet-editable/0.2.0/Leaflet.Editable.js:224-237 | A drag changes only the dragged position's coordinates in its own editor, and reports one edit. |
| SessionLemmas.EndedValid | ajax/libs/leaflet-editable/0.2.0/Leaflet.Editable.js:651-656 | Ending keeps the editor invariant. |
| SessionLemmas.BeginValid | ajax/libs/leaflet-editable/0.2.0/Leaflet.Editable.js:641-644 | Starting keeps the editor invariant. |
| SessionLemmas.MarkerMovedValid | ajax/libs/leaflet-editable/0.2.0/Leaflet.Editable.js:516-522 | Moving a marker keeps the editor invariant. |
| SessionLemmas.FireValid | ajax/libs/leaflet-editable/0.2.0/Leaflet.Editable.js:419-425 | Firing a notification keeps the world invariant. |
| SessionLemmas.EndDrawingValid | ajax/libs/leaflet-editable/0.2.0/Leaflet.Editable.js:471-475 | `endDrawing` keeps the world invariant. |
| SessionLemmas.CancelDrawingValid | ajax/libs/leaflet-editable/0.2.0/Leaflet.Editable.js:466-469 | `cancelDrawing` keeps the world invariant. |
| SessionLemmas.FinishDrawingValid | ajax/libs/leaflet-editable/0.2.0/Leaflet.Editable.js:461-464 | Finishing keeps the world invariant. The editor is idle with its geometry intact and is no longer the drawer. |
| SessionLemmas.UnregisterValid | ajax/libs/leaflet-editable/0.2.0/Leaflet.Editable.js:97-108 | `unregisterForDrawing` keeps the world invariant. |
| SessionLemmas.StopDrawingValid | ajax/libs/leaflet-editable/0.2.0/Leaflet.Editable.js:110-112 | After `stopDrawing` no editor is drawing, and the world invariant holds. |
| SessionLemmas.OneDrawing | ajax/libs/leaflet-editable/0.2.0/Leaflet.Editable.js:87-95 | At most one editor draws at a time. |
| SessionLemmas.StartDrawingValid | ajax/libs/leaflet-editable/0.2.0/Leaflet.Editable.js:455-459 | Uses the corrected registration. `startDrawing` keeps the world invariant. |
| SessionLemmas.AttachGuidesValid | ajax/libs/leaflet-editable/0.2.0/Leaflet.Editable.js:646-649 | Showing the guides while a path editor draws keeps the world invariant. |
| SessionLemmas.StartDrawingForwardValid | ajax/libs/leaflet-editable/0.2.0/Leaflet.Editable.js:646-649 | Uses the corrected registration. Forward drawing keeps the world invariant, and the editor is drawing as the drawer with the forward guide shown. A polygon also has the backward guide shown. |
| SessionLemmas.StartDrawingBackwardValid | ajax/libs/leaflet-editable/0.2.0/Leaflet.Editable.js:701-705 | Uses the corrected registration. Backward drawing keeps the world invariant, and the polyline is drawing backward as the drawer. |
| SessionLemmas.ContinueForwardValid | ajax/libs/leaflet-editable/0.2.0/Leaflet.Editable.js:712-715 | Uses the corrected registration. `continueForward` keeps the world invariant. |
| SessionLemmas.ContinueBackwardValid | ajax/libs/leaflet-editable/0.2.0/Leaflet.Editable.js:707-710 | Uses the corrected registration. `continueBackward` keeps the world invariant. |
| SessionLemmas.NewPointForwardValid | ajax/libs/leaflet-editable/0.2.0/Leaflet.Editable.js:665-671 | With a drawn ring, adding a point forward succeeds and keeps the world invariant. |
| SessionLemmas.NewPointBackwardValid | ajax/libs/leaflet-editable/0.2.0/Leaflet.Editable.js:673-676 | With a drawn ring, adding a point backward succeeds and keeps the world invariant. |
| SessionLemmas.NewClickValid | ajax/libs/leaflet-editable/0.2.0/Leaflet.Editable.js:678-682 | From a valid world, a click fails exactly when a path editor that is not drawing takes a valid click. Every success keeps the world invariant. |
| SessionLemmas.NewClickDraws | ajax/libs/leaflet-editable/0.2.0/Leaflet.Editable.js:678-682 | A valid click on the subscribed path editor adds one fresh position at the click: at the end when drawing forward, at the start otherwise. No other editor changes. |
| SessionLemmas.NewClickFinishes | ajax/libs/leaflet-editable/0.2.0/Leaflet.Editable.js:524-527 | A click on the subscribed marker editor finishes drawing at once, leaving no drawer and reporting the finish. |
| SessionLemmas.NewHoleKeepsValid | ajax/libs/leaflet-editable/0.2.0/Leaflet.Editable.js:756-760 | Uses the corrected registration. `newHole` keeps the world invariant. |
| SessionLemmas.HoleFirstPoint | ajax/libs/leaflet-editable/0.2.0/Leaflet.Editable.js:756-760 | A new hole's first point becomes the only position of the appended hole. |
| SessionLemmas.NewHoleOpens | ajax/libs/leaflet-editable/0.2.0/Leaflet.Editable.js:756-760 | Uses the corrected registration. `newHole` appends one fresh hole, empty or holding the given point, and leaves the editor drawing into it as the drawer. |
| SessionLemmas.MouseMoveValid | ajax/libs/leaflet-editable/0.2.0/Leaflet.Editable.js:684-690 | Pointer moves keep the world invariant. |
| SessionLemmas.RawClickValid | ajax/libs/leaflet-editable/0.2.0/Leaflet.Editable.js:603-611 | A raw click keeps the world invariant. |
| SessionLemmas.VertexClickValid | ajax/libs/leaflet-editable/0.2.0/Leaflet.Editable.js:584-601 | From a valid world a vertex click never fails and keeps the world invariant. |
| SessionLemmas.MiddleMouseDownValid | ajax/libs/leaflet-editable/0.2.0/Leaflet.Editable.js:359-366 | A midpoint mouse-down keeps the world invariant. |
| SessionLemmas.MiddleMouseDownGrows | ajax/libs/leaflet-editable/0.2.0/Leaflet.Editable.js:359-363 | A midpoint mouse-down inserts one fresh position, at the pointer, immediately before the midpoint's right end. |
| SessionLemmas.VertexDragValid | ajax/libs/leaflet-editable/0.2.0/Leaflet.Editable.js:224-237 | A drag keeps the world invariant. |
| SessionLemmas.RegisterAsWrittenCancelsDrawer | ajax/libs/leaflet-editable/0.2.0/Leaflet.Editable.js:87-95 | As written, re-registering the drawing editor cancels its own drawing while it stays the drawer, which breaks the world invariant. |
| SessionLemmas.RegisterKeepsDrawer | ajax/libs/leaflet-editable/0.2.0/Leaflet.Editable.js:87-95 | Corrected: re-registering the drawing editor leaves it drawing, unchanged and subscribed, and keeps the world invariant. |
| SessionLemmas.RegisterAgrees | ajax/libs/leaflet-editable/0.2.0/Leaflet.Editable.js:87-95 | When the registering editor is not already the drawer, the corrected registration and the code as written give the same world. |

## Left out

- `enable` and `disable` (lines 403-417), `initVertexMarkers`, `getLatLngsGroups` and `reset` are left out. The model describes an editor whose edit layer is on the map, so `onAdd` of a new vertex handle runs at once.
- The creation helpers are left out: `startPolyline`, `startPolygon`, `startMarker`, `startHole`, `extendMultiPolygon` and the `create*` constructors (lines 114-165). They only build Leaflet layers and call the modelled operations.
- The polyline and polygon mixins (lines 797-949) are left out. They are Leaflet geometry code, not part of the state machine.
- `checkContains` and `_containsPoint` are left out as geometry. The containment test is the `contains` parameter of `NewClick`.
- Map projection is left out: `layerPointToLatLng` in `onDrag` and in the click handler. Pointer positions arrive as coordinates.
- The drag hand-off in the midpoint's `onMouseDown` (line 364) is left out. It passes the browser drag to the new vertex; later moves are `VertexDrag`.
- Touch input is left out: `onTouch`, `L.Browser.touch` and icon sizes. It changes no state beyond what a click does.
- `_fireAndForward` is left out. It forwards each event to the feature, its multi-feature parent and the map; the model appends one note per event to a log.
- Event listener bookkeeping (`on`, `off`, `once`) is modelled as sets of subscribed editors, so duplicate subscriptions are not modelled.
- Line guides hold anchor coordinates by value. In the source they alias the `LatLng` object, so a later drag of that vertex does not move an anchored guide in the model.
- Coordinates are reals, not floating point numbers.
- The notification-only handlers (`onVertexMarkerContextMenu`, `onVertexMarkerMouseDown`, `onVertexMarkerCtrlClick` and similar) are modelled only as the notice they fire.
- Redraws (`refresh`, `redraw`), icons, CSS `z-index` and DOM work are left out.
- Sessions.NewClick: its own contract states only the refused click and the failure case. What a click draws or finishes is stated by `SessionLemmas.NewClickValid`, `SessionLemmas.NewClickDraws` and `SessionLemmas.NewClickFinishes`.
- Sessions.NewHole: its own contract states only that it does not fail. Its effect is stated by `SessionLemmas.NewHoleOpens` and `SessionLemmas.NewHoleKeepsValid`.
- Sessions.ContinueForward: its contract does not state the guide anchoring, which is the same anchoring `Guides.Anchor` states.
- Sessions.ContinueBackward: its contract does not state the guide anchoring, which is the same anchoring `Guides.Anchor` states.
- Sessions.VertexClickAction: it applies only to path editors, since `onVertexMarkerClick` exists only on `PathEditor`. Marker editors have no vertex handles.
- Preservation lemmas (the `*Valid` lemmas) assume the world invariant `WorldValid` beforehand.
- Sessions.StartDrawing: it runs the corrected registration. When the editor is already the drawer, the code as written cancels it instead (`SessionLemmas.RegisterAsWrittenCancelsDrawer`).
- Sessions.StartDrawingForward: it runs the corrected registration, so an editor already drawing keeps drawing. The code as written cancels it.
- Sessions.StartDrawingBackward: it runs the corrected registration, so a polyline already drawing keeps drawing. The code as written cancels it.
- Sessions.ContinueForward: it runs the corrected registration. Its promise that a running direction is kept does not hold of the code as written, which cancels an editor already drawing.
- Sessions.ContinueBackward: it runs the corrected registration. Its promise of drawing backward does not hold of the code as written for a polyline already drawing.
- Sessions.NewHole: it runs the corrected registration. Its promise that it never fails does not hold of the code as written: on a polygon already drawing, `newHole(latlng)` throws at line 660.
- SessionLemmas.StartDrawingValid: it is proved for the corrected registration. The code as written breaks `WorldValid` when the editor is already the drawer.
- SessionLemmas.StartDrawingForwardValid: it is proved for the corrected registration only.
- SessionLemmas.StartDrawingBackwardValid: it is proved for the corrected registration only.
- SessionLemmas.ContinueForwardValid: it is proved for the corrected registration only.
- SessionLemmas.ContinueBackwardValid: it is proved for the corrected registration only.
- SessionLemmas.NewHoleKeepsValid: it is proved for the corrected registration only.
- SessionLemmas.NewHoleOpens: it is proved for the corrected registration only. The code as written leaves a polygon that was already drawing idle.
- Editors.Unlinked: it uses the corrected hole removal. A ring that is no longer listed keeps the hole list intact, where the code as written drops the last hole.
- Editors.DeleteVertex: it inherits the corrected hole removal from `Editors.Unlinked`.
- EditorLemmas.DeleteHoles: it states the corrected hole removal. `EditorLemmas.DeleteHolesAsWritten` states where this agrees with the code as written.

## Findings

| source | as written | input that shows it | evidently intended | confidence | as-written member | corrected member |
|---|---|---|---|---|---|---|
| ajax/libs/leaflet-editable/0.2.0/Leaflet.Editable.js:87-95 | `registerForDrawing` unregisters the previous drawer even when it is the editor being registered. That editor is then cancelled while it stays the drawer. | A polygon editor is drawing its outer ring, and `newHole(latlng)` is called on it (lines 756-760). `startDrawing` re-registers the same editor, which cancels it and deletes `_drawnLatLngs`. The editor is left idle while still registered as drawer, and without a `mousemove` subscription. `newPointForward` then calls `unshift` on the deleted ring and throws. | Skip the unregister step when the previous drawer is the editor being registered. | not executed | SessionLemmas.RegisterAsWrittenCancelsDrawer | SessionLemmas.RegisterKeepsDrawer |
| ajax/libs/leaflet-editable/0.2.0/Leaflet.Editable.js:776-781 | `onVertexDeleted` splices `_holes` at `indexOf(ring)` without checking for -1. An emptied ring that is no longer listed makes `splice(-1, 1)` drop the last hole. | A hole is emptied by deleting its vertices, which removes it from `_holes`. Its ring is still the drawn ring and gets refilled by clicks, then emptied again. The second emptying removes whichever hole is last. | Splice only when the ring is in `_holes`. | not executed | Features.DropEmptyHoleAsWrittenLosesHole | Features.DropEmptyHoleKeepsOrder |
