/**
 * What the tools' operations preserve and promise: every operation keeps
 * the tools' invariant `WorldValid`, drawing and handle operations change
 * exactly the ring they act on, and re-registering the drawer as written
 * cancels it.
 */
module SessionLemmas {
  import opened Wrappers
  import opened Rings
  import opened Coords
  import opened Guides
  import opened Features
  import opened Editors
  import EditorLemmas
  import opened Sessions

  // ---------------------------------------------------------------------
  // Editor states the tools produce

  /** An ended editor keeps its invariant. */
  lemma EndedValid(e: Editor)
    requires Valid(e)
    ensures Valid(Ended(e))
  {
    EditorLemmas.DrawingStateValid(e, Idle, if e.kind == Marker then e.drawn else None);
    assert Ended(e) == e.(drawing := Idle, drawn := if e.kind == Marker then e.drawn else None);
  }

  /** A beginning editor keeps its invariant, given that it held for some drawing state. */
  lemma BeginValid(e: Editor, d: Drawing)
    requires Valid(e.(drawing := d))
    ensures Valid(Begin(e))
  {
    var b := Begin(e);
    EditorLemmas.DrawingStateValid(e.(drawing := d), b.drawing, b.drawn);
    assert b == e.(drawing := d).(drawing := b.drawing, drawn := b.drawn);
  }

  /** Moving a marker keeps the editor's invariant. */
  lemma MarkerMovedValid(e: Editor, at: Coord)
    requires Valid(e)
    ensures Valid(e.(feature := e.feature.(marker := at)))
  {
    var r := e.(feature := e.feature.(marker := at));
    forall q ensures MiddleOk(r, q) {
      assert MiddleOk(e, q);
    }
  }

  // ---------------------------------------------------------------------
  // Frames

  /** A path editor is the drawer. */
  ghost predicate PathDrawer(w: World) {
    w.tools.drawer.Some? && w.tools.drawer.value in w.editors && w.editors[w.tools.drawer.value].kind != Marker
  }

  lemma PutEditors(w: World, id: EditorId, e: Editor)
    requires EditorsValid(w) && Valid(e)
    ensures EditorsValid(Put(w, id, e))
  {
  }

  lemma PutTools(w: World, id: EditorId, e: Editor)
    requires DrawerValid(w) && ToolsValid(w) && id in w.editors
    requires e.drawing == w.editors[id].drawing && e.kind == w.editors[id].kind
    ensures DrawerValid(Put(w, id, e)) && ToolsValid(Put(w, id, e))
  {
  }

  /** Replacing one editor by a valid one in the same drawing state keeps the tools' invariant. */
  lemma PutValid(w: World, id: EditorId, e: Editor)
    requires WorldValid(w) && id in w.editors && Valid(e)
    requires e.drawing == w.editors[id].drawing && e.kind == w.editors[id].kind
    ensures WorldValid(Put(w, id, e))
  {
    PutEditors(w, id, e);
    PutTools(w, id, e);
  }

  /** Firing a notification touches neither the editors nor the tools. */
  lemma FireValid(w: World, what: Notice, id: EditorId)
    requires WorldValid(w)
    ensures WorldValid(Fire(w, what, id))
  {
  }

  /**
   * Changing only the tools keeps the invariant when the drawer and the CSS
   * class stay, nothing is shown or subscribed anew, and a guide is shown
   * only if one already was or a path editor draws.
   */
  lemma ToolsOnlyValid(w: World, t: Tools)
    requires WorldValid(w)
    requires t.drawer == w.tools.drawer && t.drawingCss == w.tools.drawingCss
    requires t.handlerShown ==> w.tools.handlerShown
    requires t.moving <= w.tools.moving && t.clicking <= w.tools.clicking
    requires t.forward.shown || t.backward.shown ==> w.tools.forward.shown || w.tools.backward.shown || PathDrawer(w)
    ensures WorldValid(w.(tools := t))
  {
    var r := w.(tools := t);
    assert EditorsValid(r) && DrawerValid(r);
  }

  // ---------------------------------------------------------------------
  // Ending

  /** How `endDrawing` (and so `cancelDrawing` and `finishDrawing`) changes the tools and editors. */
  ghost predicate Ends(w: World, r: World, id: EditorId)
    requires id in w.editors
  {
    && r.editors == w.editors[id := Ended(w.editors[id])]
    && r.tools.drawer == (if w.tools.drawer == Some(id) then None else w.tools.drawer)
    && r.tools.drawingCss == (if w.tools.drawer == Some(id) then false else w.tools.drawingCss)
    && r.tools.moving == w.tools.moving - {id} && r.tools.clicking == w.tools.clicking - {id}
    && !r.tools.handlerShown
    && (r.tools.forward.shown ==> w.tools.forward.shown) && (r.tools.backward.shown ==> w.tools.backward.shown)
    && (w.editors[id].kind != Marker ==> !r.tools.forward.shown && !r.tools.backward.shown)
  }

  lemma EndsEditors(w: World, r: World, id: EditorId)
    requires EditorsValid(w) && id in w.editors && Ends(w, r, id)
    ensures EditorsValid(r)
  {
    EndedValid(w.editors[id]);
  }

  lemma EndsDrawer(w: World, r: World, id: EditorId)
    requires DrawerValid(w) && id in w.editors && Ends(w, r, id)
    ensures DrawerValid(r)
  {
  }

  lemma EndsTools(w: World, r: World, id: EditorId)
    requires DrawerValid(w) && ToolsValid(w) && id in w.editors && Ends(w, r, id)
    ensures ToolsValid(r)
  {
  }

  lemma EndsValid(w: World, r: World, id: EditorId)
    requires WorldValid(w) && id in w.editors && Ends(w, r, id)
    ensures WorldValid(r)
  {
    EndsEditors(w, r, id);
    EndsDrawer(w, r, id);
    EndsTools(w, r, id);
  }

  /** Ending any editor's drawing keeps the tools' invariant. */
  lemma EndDrawingValid(w: World, id: EditorId)
    requires WorldValid(w) && id in w.editors
    ensures WorldValid(EndDrawing(w, id))
  {
    EndsValid(w, EndDrawing(w, id), id);
  }

  /** Cancelling keeps the tools' invariant. */
  lemma CancelDrawingValid(w: World, id: EditorId)
    requires WorldValid(w) && id in w.editors
    ensures WorldValid(CancelDrawing(w, id))
  {
    EndsValid(w, CancelDrawing(w, id), id);
  }

  /**
   * Finishing keeps the tools' invariant; the editor stops drawing, is not
   * the drawer any more, and its feature keeps every position it had.
   */
  lemma FinishDrawingValid(w: World, id: EditorId)
    requires WorldValid(w) && id in w.editors
    ensures var r := FinishDrawing(w, id);
            && WorldValid(r)
            && r.editors[id].drawing == Idle && r.editors[id].feature == w.editors[id].feature
            && r.tools.drawer != Some(id)
  {
    EndsValid(w, FinishDrawing(w, id), id);
  }

  // ---------------------------------------------------------------------
  // Unregistering

  lemma UnregisterEditors(w: World, who: Option<EditorId>)
    requires EditorsValid(w)
    ensures EditorsValid(Unregister(w, who))
  {
    var r := Unregister(w, who);
    var ed := if who.Some? then who else w.tools.drawer;
    forall x | x in r.editors ensures Valid(r.editors[x]) {
      if Some(x) == ed && ed == w.tools.drawer {
        EndedValid(w.editors[x]);
      } else {
        assert r.editors[x] == w.editors[x];
      }
    }
  }

  lemma UnregisterDrawer(w: World, who: Option<EditorId>)
    requires DrawerValid(w)
    ensures DrawerValid(Unregister(w, who))
  {
  }

  lemma UnregisterTools(w: World, who: Option<EditorId>)
    requires DrawerValid(w) && ToolsValid(w)
    ensures ToolsValid(Unregister(w, who))
  {
  }

  /** Unregistering any editor, or the drawer, keeps the tools' invariant. */
  lemma UnregisterValid(w: World, who: Option<EditorId>)
    requires WorldValid(w)
    ensures WorldValid(Unregister(w, who))
  {
    UnregisterEditors(w, who);
    UnregisterDrawer(w, who);
    UnregisterTools(w, who);
  }

  /** Stopping keeps the tools' invariant and leaves no editor drawing. */
  lemma StopDrawingValid(w: World)
    requires WorldValid(w)
    ensures var r := StopDrawing(w);
            && WorldValid(r)
            && forall x | x in r.editors :: r.editors[x].drawing == Idle
  {
    UnregisterValid(w, None);
  }

  /** Under the invariant at most one editor draws. */
  lemma OneDrawing(w: World, x: EditorId, y: EditorId)
    requires WorldValid(w) && x in w.editors && y in w.editors
    requires w.editors[x].drawing.Active? && w.editors[y].drawing.Active?
    ensures x == y
  {
  }

  // ---------------------------------------------------------------------
  // Starting

  /** What starting leaves of each editor: the begun one, an ended one, or the editor as it was. */
  lemma StartedShape(w: World, id: EditorId, e: Editor, x: EditorId)
    requires id in w.editors && x in StartDrawing(Put(w, id, e), id).editors
    ensures x in w.editors
    ensures var v := StartDrawing(Put(w, id, e), id).editors[x];
            (x == id && v == Begin(e)) || v == Ended(w.editors[x]) || v == w.editors[x]
  {
    assert Replaced(Put(w, id, e), id) == Replaced(w, id);
  }

  /** An editor that is a valid new one, an ended valid one, or a valid one as it was is valid. */
  lemma ShapeValid(w: World, v: Editor, made: Editor, x: EditorId)
    requires EditorsValid(w) && Valid(made) && x in w.editors
    requires v == made || v == Ended(w.editors[x]) || v == w.editors[x]
    ensures Valid(v)
  {
    if v == Ended(w.editors[x]) {
      EndedValid(w.editors[x]);
    }
  }

  lemma StartedEditors(w: World, id: EditorId, e: Editor)
    requires EditorsValid(w) && id in w.editors && Valid(Begin(e))
    ensures EditorsValid(StartDrawing(Put(w, id, e), id))
  {
    var r := StartDrawing(Put(w, id, e), id);
    forall x | x in r.editors ensures Valid(r.editors[x]) {
      StartedShape(w, id, e, x);
      ShapeValid(w, r.editors[x], Begin(e), x);
    }
  }

  lemma StartedDrawer(w: World, id: EditorId, e: Editor)
    requires DrawerValid(w) && id in w.editors
    ensures DrawerValid(StartDrawing(Put(w, id, e), id))
  {
    var w1 := Put(w, id, e);
    var r := StartDrawing(w1, id);
    assert Replaced(w1, id) == Replaced(w, id);
  }

  lemma StartedTools(w: World, id: EditorId, e: Editor)
    requires DrawerValid(w) && ToolsValid(w) && id in w.editors && e.kind == w.editors[id].kind
    ensures ToolsValid(StartDrawing(Put(w, id, e), id))
  {
    var w1 := Put(w, id, e);
    var r := StartDrawing(w1, id);
    assert Replaced(w1, id) == Replaced(w, id);
  }

  /**
   * Starting editor `id` from state `e` keeps the tools' invariant whenever
   * the begun editor is valid: a previous drawer is ended, `id` draws and
   * is the only subscriber.
   */
  lemma StartedValid(w: World, id: EditorId, e: Editor)
    requires WorldValid(w) && id in w.editors && e.kind == w.editors[id].kind && Valid(Begin(e))
    ensures WorldValid(StartDrawing(Put(w, id, e), id))
  {
    StartedEditors(w, id, e);
    StartedDrawer(w, id, e);
    StartedTools(w, id, e);
  }

  /** `startDrawing` keeps the tools' invariant, and the editor draws as the only drawer. */
  lemma StartDrawingValid(w: World, id: EditorId)
    requires WorldValid(w) && id in w.editors
    ensures WorldValid(StartDrawing(w, id))
  {
    var e := w.editors[id];
    assert Put(w, id, e) == w;
    BeginValid(e, e.drawing);
    StartedValid(w, id, e);
  }

  /** Showing the guides while a path editor draws keeps the tools' invariant. */
  lemma AttachGuidesValid(w: World, kind: Kind)
    requires WorldValid(w) && PathDrawer(w)
    ensures WorldValid(AttachGuides(w, kind))
  {
    ToolsOnlyValid(w, AttachGuides(w, kind).tools);
  }

  /** `startDrawingForward` keeps the tools' invariant and shows the forward guide. */
  lemma StartDrawingForwardValid(w: World, id: EditorId)
    requires WorldValid(w) && id in w.editors && w.editors[id].kind != Marker
    ensures var r := StartDrawingForward(w, id);
            && WorldValid(r) && r.tools.drawer == Some(id) && r.tools.forward.shown
            && (w.editors[id].kind == Polygon ==> r.tools.backward.shown)
            && r.editors[id].drawing.Active?
  {
    StartDrawingValid(w, id);
    AttachGuidesValid(StartDrawing(w, id), w.editors[id].kind);
  }

  /** `startDrawingBackward` keeps the tools' invariant and draws backward. */
  lemma StartDrawingBackwardValid(w: World, id: EditorId)
    requires WorldValid(w) && id in w.editors && w.editors[id].kind == Polyline
    ensures var r := StartDrawingBackward(w, id);
            && WorldValid(r) && r.tools.drawer == Some(id) && r.tools.backward.shown
            && r.editors[id].drawing == Active(Backward)
  {
    var e := w.editors[id];
    var e1 := e.(drawing := Active(Backward));
    assert e1.(drawing := e.drawing) == e;
    BeginValid(e1, e.drawing);
    StartedValid(w, id, e1);
    var w2 := StartDrawing(Put(w, id, e1), id);
    ToolsOnlyValid(w2, w2.tools.(backward := Attach(w2.tools.backward)));
  }

  /** `continueForward` keeps the tools' invariant. */
  lemma ContinueForwardValid(w: World, id: EditorId)
    requires WorldValid(w) && id in w.editors && w.editors[id].kind == Polyline
    ensures WorldValid(ContinueForward(w, id))
  {
    var t := w.tools;
    var w1 := w.(tools := t.(forward := Anchor(t.forward, OuterEnd(w.editors[id], true))));
    ToolsOnlyValid(w, w1.tools);
    StartDrawingForwardValid(w1, id);
  }

  /** `continueBackward` keeps the tools' invariant. */
  lemma ContinueBackwardValid(w: World, id: EditorId)
    requires WorldValid(w) && id in w.editors && w.editors[id].kind == Polyline
    ensures WorldValid(ContinueBackward(w, id))
  {
    var t := w.tools;
    var w1 := w.(tools := t.(backward := Anchor(t.backward, OuterEnd(w.editors[id], false))));
    ToolsOnlyValid(w, w1.tools);
    StartDrawingBackwardValid(w1, id);
  }

  // ---------------------------------------------------------------------
  // New points and clicks

  /** `newPointForward` by an editor with a drawn ring succeeds and keeps the tools' invariant. */
  lemma NewPointForwardValid(w: World, id: EditorId, at: Coord)
    requires WorldValid(w) && id in w.editors && w.editors[id].drawn.Some?
    ensures NewPointForward(w, id, at).Success? && WorldValid(NewPointForward(w, id, at).value)
  {
    var e := w.editors[id];
    EditorLemmas.AddLatLngValid(e, at);
    var e2 := AddLatLng(e, at).value;
    PutValid(w, id, e2);
    var w1 := Fire(Put(w, id, e2), Editing, id);
    FireValid(Put(w, id, e2), Editing, id);
    ToolsOnlyValid(w1, NewPointForward(w, id, at).value.tools);
  }

  /** `newPointBackward` by an editor with a drawn ring succeeds and keeps the tools' invariant. */
  lemma NewPointBackwardValid(w: World, id: EditorId, at: Coord)
    requires WorldValid(w) && id in w.editors && w.editors[id].drawn.Some?
    ensures NewPointBackward(w, id, at).Success? && WorldValid(NewPointBackward(w, id, at).value)
  {
    var e := w.editors[id];
    EditorLemmas.AddLatLngValid(e, at);
    var e2 := AddLatLng(e, at).value;
    PutValid(w, id, e2);
    var w1 := Fire(Put(w, id, e2), Editing, id);
    FireValid(Put(w, id, e2), Editing, id);
    ToolsOnlyValid(w1, NewPointBackward(w, id, at).value.tools);
  }

  /**
   * A click on the new-click handler fails only for a path editor that is
   * not drawing, and otherwise keeps the tools' invariant.
   */
  lemma NewClickValid(w: World, id: EditorId, at: Coord, contains: Coord -> bool)
    requires WorldValid(w) && id in w.editors
    ensures var e := w.editors[id];
            NewClick(w, id, at, contains).Success? <==>
              !IsNewClickValid(e, at, contains) || e.kind == Marker || e.drawing.Active?
    ensures NewClick(w, id, at, contains).Success? ==> WorldValid(NewClick(w, id, at, contains).value)
  {
    var e := w.editors[id];
    if IsNewClickValid(e, at, contains) {
      var w1 := Fire(w, DrawingClick, id);
      FireValid(w, DrawingClick, id);
      if e.kind == Marker {
        FinishDrawingValid(w1, id);
      } else if e.drawing.Active? {
        if e.drawing == Active(Forward) {
          NewPointForwardValid(w1, id, at);
        } else {
          NewPointBackwardValid(w1, id, at);
        }
      }
    }
  }

  /**
   * A valid click given to the drawing path editor adds exactly one new
   * position at `at`: at the end of the drawn ring while drawing forward,
   * at its start otherwise.  No other editor changes and the editor stays
   * the drawer.
   */
  lemma NewClickDraws(w: World, id: EditorId, at: Coord, contains: Coord -> bool)
    requires WorldValid(w) && id in w.tools.clicking && id in w.editors
    requires w.editors[id].kind != Marker && IsNewClickValid(w.editors[id], at, contains)
    ensures var e := w.editors[id];
            var r := NewClick(w, id, at, contains);
            var d := e.drawn.value;
            var s := e.feature.rings[d];
            var n := e.feature.nextPos;
            && e.drawn.Some? && r.Success? && r.value.editors.Keys == w.editors.Keys
            && d in r.value.editors[id].feature.rings && n in r.value.editors[id].feature.coords
            && r.value.editors[id].feature.rings[d] == (if e.drawing == Active(Forward) then s + [n] else [n] + s)
            && r.value.editors[id].feature.coords[n] == at && n !in s
            && (forall x | x in w.editors && x != id :: r.value.editors[x] == w.editors[x])
            && r.value.tools.drawer == Some(id)
  {
    FreshPositionOf(w.editors[id]);
  }

  /** A valid click given to a drawing marker editor finishes it where it is. */
  lemma NewClickFinishes(w: World, id: EditorId, at: Coord, contains: Coord -> bool)
    requires WorldValid(w) && id in w.tools.clicking && id in w.editors && w.editors[id].kind == Marker
    ensures var r := NewClick(w, id, at, contains);
            && r.Success? && r.value.tools.drawer == None
            && r.value.editors[id].drawing == Idle && r.value.editors[id].feature == w.editors[id].feature
            && Note(DrawingFinish, id) in r.value.log
  {
    var r := NewClick(w, id, at, contains).value;
    assert r.log[|r.log| - 1] == Note(DrawingFinish, id);
  }

  /** The next position of a valid editor's drawn ring is fresh. */
  lemma FreshPositionOf(e: Editor)
    requires WellFormed(e) && e.drawn.Some?
    ensures e.feature.nextPos !in e.feature.rings[e.drawn.value]
  {
    FreshPosition(e, e.drawn.value);
  }

  // ---------------------------------------------------------------------
  // Holes

  /** The polygon editor as `newHole` leaves it before the first point. */
  lemma OpenedValid(e: Editor)
    requires Valid(e) && e.kind == Polygon
    ensures Valid(Begin(OpenHole(e)))
  {
    var (f, h) := AddNewEmptyHole(e.feature);
    EditorLemmas.NewHoleValid(e);
    assert OpenHole(e).(drawing := Active(Forward)) == e.(feature := f, drawn := Some(h), drawing := Active(Forward));
    BeginValid(OpenHole(e), Active(Forward));
  }

  /** `newHole` keeps the tools' invariant. */
  lemma NewHoleKeepsValid(w: World, id: EditorId, at: Option<Coord>)
    requires WorldValid(w) && id in w.editors && w.editors[id].kind == Polygon
    ensures WorldValid(NewHole(w, id, at).value)
  {
    var e := w.editors[id];
    OpenedValid(e);
    StartedValid(w, id, OpenHole(e));
    var w1 := StartDrawing(Put(w, id, OpenHole(e)), id);
    AttachGuidesValid(w1, Polygon);
    if at.Some? {
      NewPointForwardValid(AttachGuides(w1, Polygon), id, at.value);
    }
  }

  /** The editor part of `newHole`: the new hole is opened and drawn. */
  lemma HoleOpened(e: Editor)
    requires WellFormed(e) && e.kind == Polygon
    ensures var b := Begin(OpenHole(e));
            var h := b.drawn.value;
            && b.drawn.Some? && h !in e.feature.rings && b.drawing.Active? && WellFormed(b)
            && b.feature.holes == e.feature.holes + [h]
            && b.feature.rings == e.feature.rings[h := []]
            && b.feature.nextPos == e.feature.nextPos
  {
  }

  /** A point added to an empty drawn ring becomes its only position. */
  lemma FirstPoint(b: Editor, at: Coord)
    requires WellFormed(b) && b.drawn.Some? && b.feature.rings[b.drawn.value] == []
    ensures AddLatLng(b, at).Success?
    ensures var v := AddLatLng(b, at).value;
            && v.drawn == b.drawn && v.drawing == b.drawing && v.feature.holes == b.feature.holes
            && v.feature.rings == b.feature.rings[b.drawn.value := [b.feature.nextPos]]
  {
    var n := b.feature.nextPos;
    assert [n] + [] == [] + [n] == [n];
  }

  /** The optional first point of `newHole` becomes the only position of the new hole. */
  lemma HoleFirstPoint(e: Editor, at: Coord)
    requires WellFormed(e) && e.kind == Polygon
    ensures var b := Begin(OpenHole(e));
            var h := b.drawn.value;
            && AddLatLng(b, at).Success?
            && var v := AddLatLng(b, at).value;
               && v.drawn == b.drawn && v.drawing == b.drawing
               && v.feature.holes == e.feature.holes + [h]
               && v.feature.rings == e.feature.rings[h := [e.feature.nextPos]]
  {
    HoleOpened(e);
    var b := Begin(OpenHole(e));
    FirstPoint(b, at);
    Overwrite(e.feature.rings, b.drawn.value, [], [e.feature.nextPos]);
  }

  /** A second update of the same key replaces the first. */
  lemma Overwrite(m: map<RingId, Ring>, k: RingId, a: Ring, b: Ring)
    ensures m[k := a][k := b] == m[k := b]
  {
  }

  /** The tools part of `newHole`: the editor begun on its new hole is the drawer. */
  lemma HoleBegun(w: World, id: EditorId)
    requires id in w.editors && w.editors[id].kind == Polygon && WellFormed(w.editors[id])
    ensures var w1 := StartDrawingForward(Put(w, id, OpenHole(w.editors[id])), id);
            && w1.editors.Keys == w.editors.Keys
            && w1.editors[id] == Begin(OpenHole(w.editors[id])) && w1.tools.drawer == Some(id)
  {
  }

  /**
   * `newHole` appends one new ring to the hole list and draws it: the ring
   * is empty, or holds just the new position when a point is given.
   */
  lemma NewHoleOpens(w: World, id: EditorId, at: Option<Coord>)
    requires id in w.editors && w.editors[id].kind == Polygon && WellFormed(w.editors[id])
    ensures var e := w.editors[id];
            var r := NewHole(w, id, at).value;
            var h := r.editors[id].drawn.value;
            && id in r.editors && r.editors[id].drawn.Some? && h !in e.feature.rings
            && r.editors[id].feature.holes == e.feature.holes + [h]
            && r.editors[id].feature.rings == e.feature.rings[h := if at.Some? then [e.feature.nextPos] else []]
            && r.editors[id].drawing.Active? && r.tools.drawer == Some(id)
  {
    HoleOpened(w.editors[id]);
    if at.Some? {
      HoleFirstPoint(w.editors[id], at.value);
    }
    HoleBegun(w, id);
  }

  // ---------------------------------------------------------------------
  // Pointer moves

  /** A pointer move keeps the tools' invariant. */
  lemma MouseMoveValid(w: World, id: EditorId, at: Coord)
    requires WorldValid(w) && id in w.editors
    ensures WorldValid(MouseMove(w, id, at))
  {
    var e := w.editors[id];
    if e.drawing.Active? {
      var w1 := w.(tools := w.tools.(handlerAt := at));
      ToolsOnlyValid(w, w1.tools);
      if e.kind == Marker {
        MarkerMovedValid(e, at);
        PutValid(w1, id, e.(feature := e.feature.(marker := at)));
      } else {
        ToolsOnlyValid(w1, MouseMove(w, id, at).tools);
      }
    }
  }

  // ---------------------------------------------------------------------
  // Vertex and midpoint handles

  /** A raw click keeps the tools' invariant. */
  lemma RawClickValid(w: World, id: EditorId, p: PosId)
    requires WorldValid(w) && id in w.editors && p in w.editors[id].layer.vertices
    ensures WorldValid(RawClick(w, id, p))
  {
    var e := w.editors[id];
    if CanDelete(e, p) {
      EditorLemmas.DeleteVertexValid(e, p);
      PutValid(w, id, DeleteVertex(e, p));
    }
  }

  /** A click on a vertex of a valid editor succeeds and keeps the tools' invariant. */
  lemma VertexClickValid(w: World, id: EditorId, p: PosId, keys: Modifiers)
    requires WorldValid(w) && id in w.editors && w.editors[id].kind != Marker && p in w.editors[id].layer.vertices
    ensures VertexClick(w, id, p, keys).Success? && WorldValid(VertexClick(w, id, p, keys).value)
  {
    match VertexClickAction(w.editors[id], p, keys)
    case Failure(_) => assert false;
    case Success(Report(n)) =>
    case Success(Finish) => FinishDrawingValid(w, id);
    case Success(Raw) => RawClickValid(w, id, p);
  }

  /** Pressing a midpoint handle keeps the tools' invariant. */
  lemma MiddleMouseDownValid(w: World, id: EditorId, right: PosId, at: Coord)
    requires WorldValid(w) && id in w.editors && right in w.editors[id].layer.middles
    ensures WorldValid(MiddleMouseDown(w, id, right, at))
  {
    var e := w.editors[id];
    EditorLemmas.PromoteMiddleValid(e, right, at);
    FireValid(w, MiddleMarkerMouseDown, id);
    PutValid(Fire(w, MiddleMarkerMouseDown, id), id, PromoteMiddle(e, right, at));
  }

  /**
   * Pressing the midpoint handle owned by `right` puts one new position,
   * at `at`, into the ring just before `right`.
   */
  lemma MiddleMouseDownGrows(w: World, id: EditorId, right: PosId, at: Coord)
    requires WorldValid(w) && id in w.editors && right in w.editors[id].layer.middles
    ensures var e := w.editors[id];
            var r := MiddleMouseDown(w, id, right, at);
            var ring := e.layer.vertices[right];
            var s := e.feature.rings[ring];
            var t := r.editors[id].feature.rings[ring];
            var n := e.feature.nextPos;
            && ring in r.editors[id].feature.rings && n in r.editors[id].feature.coords
            && |t| == |s| + 1 && n !in s
            && (exists k | 0 <= k < |s| :: s[k] == right && t == s[..k] + [n] + s[k..])
            && r.editors[id].feature.coords[n] == at
  {
    var e := w.editors[id];
    var ring := e.layer.vertices[right];
    var s := e.feature.rings[ring];
    var k := IndexOf(s, right);
    assert right in s;
    FreshPosition(e, ring);
    var t := MiddleMouseDown(w, id, right, at).editors[id].feature.rings[ring];
    assert t == Insert(s, k, e.feature.nextPos) == s[..k] + [e.feature.nextPos] + s[k..];
    assert 0 <= k < |s| && s[k] == right;
  }

  /** Dragging a vertex keeps the tools' invariant. */
  lemma VertexDragValid(w: World, id: EditorId, p: PosId, at: Coord)
    requires WorldValid(w) && id in w.editors && p in w.editors[id].layer.vertices
    ensures WorldValid(VertexDrag(w, id, p, at))
  {
    EditorLemmas.DragValid(w.editors[id], p, at);
    PutValid(w, id, Drag(w.editors[id], p, at));
  }

  // ---------------------------------------------------------------------
  // Re-registering the drawer

  /**
   * `registerForDrawing`, as written, called for the editor that is already
   * drawing (as `newHole` during a drawing and `continueForward` do) cancels
   * that editor and unsubscribes it from pointer moves, yet leaves it
   * registered as the drawer: the tools' invariant is broken.
   */
  lemma RegisterAsWrittenCancelsDrawer(w: World, id: EditorId)
    requires WorldValid(w) && w.tools.drawer == Some(id)
    ensures var r := RegisterForDrawingAsWritten(w, id);
            && r.tools.drawer == Some(id) && r.editors[id].drawing == Idle
            && id !in r.tools.moving && !WorldValid(r)
  {
    var w1 := w.(tools := w.tools.(moving := w.tools.moving + {id}));
    assert w1.editors[id].drawing.Active?;
  }

  /**
   * The correction matters only when the editor registering is already the
   * drawer: otherwise both registrations give the same world.
   */
  lemma RegisterAgrees(w: World, id: EditorId)
    requires w.tools.drawer != Some(id)
    ensures RegisterForDrawing(w, id) == RegisterForDrawingAsWritten(w, id)
  {
  }

  /** The corrected registration keeps the drawing editor drawing and subscribed. */
  lemma RegisterKeepsDrawer(w: World, id: EditorId)
    requires WorldValid(w) && w.tools.drawer == Some(id)
    ensures var r := RegisterForDrawing(w, id);
            && r.tools.drawer == Some(id) && r.editors[id] == w.editors[id]
            && id in r.tools.moving && WorldValid(r)
  {
    assert Replaced(w, id) == {};
  }
}
