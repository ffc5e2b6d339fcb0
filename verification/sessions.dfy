/**
 * The shared tools (`L.Editable`) and the editors they serve: who is the
 * drawing editor, which editors listen to the pointer and to the
 * new-click handler, the line guides, and the notifications fired on the
 * way (`_fireAndForward`, kept as a trace of what fired, in order).
 */
module Sessions {
  import opened Wrappers
  import opened Rings
  import opened Coords
  import opened Guides
  import opened Features
  import opened Editors

  /** Identity of one editor object. */
  type EditorId = nat

  /** The `editable:*` events the editors fire. */
  datatype Notice =
    | DrawingStart | DrawingEnd | DrawingCancel | DrawingFinish | DrawingClick
    | Editing | VertexDeleted
    | VertexCtrlClick | VertexAltClick | VertexShiftClick
    | VertexContextMenu | VertexMouseDown | MiddleMarkerMouseDown

  /** One fired event and the editor that fired it. */
  datatype Note = Note(what: Notice, editor: EditorId)

  /**
   * `moving` holds the editors whose `onMouseMove` listens to the map,
   * `clicking` those whose `onNewClickHandlerClicked` listens to the
   * new-click handler; `handlerShown` says whether that handler is on the
   * edit layer and `handlerAt` where it is; `drawingCss` is the drawing CSS
   * class on the map container.
   */
  datatype Tools = Tools(
    drawer: Option<EditorId>,
    moving: set<EditorId>,
    clicking: set<EditorId>,
    handlerShown: bool,
    handlerAt: Coord,
    drawingCss: bool,
    forward: Guide,
    backward: Guide)

  datatype World = World(tools: Tools, editors: map<EditorId, Editor>, log: seq<Note>)

  /** Fresh tools, as `L.Editable.initialize` builds them, with the handler at `at`. */
  function NewTools(at: Coord): (t: Tools)
    ensures t.drawer == None && t.moving == {} && t.clicking == {}
    ensures !t.handlerShown && !t.drawingCss
  {
    Tools(None, {}, {}, false, at, false, Unused, Unused)
  }

  /** `_fireAndForward(what)` on editor `id`: the event is appended to the trace. */
  function Fire(w: World, what: Notice, id: EditorId): (r: World)
    ensures r.log == w.log + [Note(what, id)]
    ensures r.tools == w.tools && r.editors == w.editors
  {
    w.(log := w.log + [Note(what, id)])
  }

  /** Replaces editor `id`. */
  function Put(w: World, id: EditorId, e: Editor): (r: World)
    ensures r.editors == w.editors[id := e] && r.tools == w.tools && r.log == w.log
  {
    w.(editors := w.editors[id := e])
  }

  /** What `endDrawing` leaves of an editor: not drawing, and a path editor without a drawn ring. */
  function Ended(e: Editor): (r: Editor)
    ensures r.drawing == Idle && (e.kind != Marker ==> r.drawn == None)
    ensures r.kind == e.kind && r.feature == e.feature && r.layer == e.layer
  {
    if e.kind == Marker then e.(drawing := Idle) else e.(drawing := Idle, drawn := None)
  }

  /** Termination measure of the unregister/cancel/end cycle: cancelling happens only once the drawer is cleared. */
  function Pending(w: World): nat {
    if w.tools.drawer.Some? then 1 else 0
  }

  /** Every editor keeps its own invariant. */
  ghost predicate EditorsValid(w: World) {
    forall x | x in w.editors :: Valid(w.editors[x])
  }

  /** At most one editor draws, and it is the registered drawer. */
  ghost predicate DrawerValid(w: World) {
    && (forall x | x in w.editors && w.editors[x].drawing.Active? :: w.tools.drawer == Some(x))
    && (w.tools.drawer.Some? ==> w.tools.drawer.value in w.editors && w.editors[w.tools.drawer.value].drawing.Active?)
  }

  /**
   * The CSS class is on exactly while there is a drawer; the new-click
   * handler is shown, and editors are subscribed, only while, and only
   * for, the drawer; the line guides are shown only while a path editor
   * draws.
   */
  ghost predicate ToolsValid(w: World) {
    var t := w.tools;
    && (t.drawingCss <==> t.drawer.Some?)
    && (t.handlerShown ==> t.drawer.Some?)
    && (forall x | x in t.moving :: t.drawer == Some(x))
    && (forall x | x in t.clicking :: t.drawer == Some(x))
    && (t.forward.shown || t.backward.shown ==>
          t.drawer.Some? && t.drawer.value in w.editors && w.editors[t.drawer.value].kind != Marker)
  }

  /** The tools' invariant. */
  ghost predicate WorldValid(w: World) {
    EditorsValid(w) && DrawerValid(w) && ToolsValid(w)
  }

  // ---------------------------------------------------------------------
  // The unregister / cancel / end cycle

  /**
   * `unregisterForDrawing(editor)`: hides the new-click handler, then, with
   * the editor given or else the drawing editor, unsubscribes it; only if it
   * is the drawing editor is the drawer cleared, the editor cancelled when
   * still drawing, and the CSS class removed.
   */
  function Unregister(w: World, who: Option<EditorId>): (r: World)
    decreases Pending(w), 0
    ensures r.editors.Keys == w.editors.Keys && !r.tools.handlerShown
    ensures var ed := if who.Some? then who else w.tools.drawer;
            && (forall x | x in w.editors && Some(x) != ed :: r.editors[x] == w.editors[x])
            && (ed.Some? && ed == w.tools.drawer ==>
                  && r.tools.drawer == None && !r.tools.drawingCss
                  && (ed.value in w.editors ==>
                        r.editors[ed.value] == if w.editors[ed.value].drawing.Active?
                                               then Ended(w.editors[ed.value]) else w.editors[ed.value]))
            && (ed.None? || ed != w.tools.drawer ==>
                  && r.tools.drawer == w.tools.drawer && r.tools.drawingCss == w.tools.drawingCss
                  && r.editors == w.editors)
    ensures var gone := if who.Some? then {who.value} else if w.tools.drawer.Some? then {w.tools.drawer.value} else {};
            r.tools.moving == w.tools.moving - gone && r.tools.clicking == w.tools.clicking - gone
    ensures r.tools.handlerAt == w.tools.handlerAt && w.log <= r.log
    ensures (r.tools.forward.shown ==> w.tools.forward.shown) && (r.tools.backward.shown ==> w.tools.backward.shown)
    ensures var ed := if who.Some? then who else w.tools.drawer;
            (&& ed.Some? && ed == w.tools.drawer && ed.value in w.editors
             && w.editors[ed.value].drawing.Active? && w.editors[ed.value].kind != Marker)
              ==> !r.tools.forward.shown && !r.tools.backward.shown
  {
    var ed := if who.Some? then who else w.tools.drawer;
    var w1 := w.(tools := w.tools.(handlerShown := false));
    if ed.None? then w1
    else
      var id := ed.value;
      var w2 := w1.(tools := w1.tools.(moving := w1.tools.moving - {id}, clicking := w1.tools.clicking - {id}));
      if w2.tools.drawer != Some(id) then w2
      else
        var w3 := w2.(tools := w2.tools.(drawer := None));
        var w4 := if id in w3.editors && w3.editors[id].drawing.Active? then CancelDrawing(w3, id) else w3;
        w4.(tools := w4.tools.(drawingCss := false))
  }

  /**
   * `endDrawing`: drawing is switched off, the editor unregisters itself,
   * and a path editor then detaches both guides and forgets its drawn ring.
   */
  function EndDrawing(w: World, id: EditorId): (r: World)
    requires id in w.editors
    decreases Pending(w), 1
    ensures r.editors == w.editors[id := Ended(w.editors[id])]
    ensures !r.tools.handlerShown
    ensures r.tools.drawer == if w.tools.drawer == Some(id) then None else w.tools.drawer
    ensures r.tools.drawingCss == if w.tools.drawer == Some(id) then false else w.tools.drawingCss
    ensures r.tools.moving == w.tools.moving - {id} && r.tools.clicking == w.tools.clicking - {id}
    ensures r.tools.handlerAt == w.tools.handlerAt && w.log < r.log
    ensures r.log[|r.log| - 1] == Note(DrawingEnd, id)
    ensures (r.tools.forward.shown ==> w.tools.forward.shown) && (r.tools.backward.shown ==> w.tools.backward.shown)
    ensures w.editors[id].kind != Marker ==> !r.tools.forward.shown && !r.tools.backward.shown
    ensures w.editors[id].kind != Marker ==> r.tools.forward.points == [] && r.tools.backward.points == []
  {
    var e := w.editors[id];
    var w1 := Put(w, id, e.(drawing := Idle));
    var w2 := Fire(Unregister(w1, Some(id)), DrawingEnd, id);
    if e.kind == Marker then w2
    else
      var t := w2.tools;
      Put(w2.(tools := t.(forward := Detach(t.forward), backward := Detach(t.backward))),
          id, w2.editors[id].(drawn := None))
  }

  /** `cancelDrawing`: end drawing, then report the cancellation. */
  function CancelDrawing(w: World, id: EditorId): (r: World)
    requires id in w.editors
    decreases Pending(w), 2
    ensures r.editors == w.editors[id := Ended(w.editors[id])]
    ensures !r.tools.handlerShown
    ensures r.tools.drawer == if w.tools.drawer == Some(id) then None else w.tools.drawer
    ensures r.tools.drawingCss == if w.tools.drawer == Some(id) then false else w.tools.drawingCss
    ensures r.tools.moving == w.tools.moving - {id} && r.tools.clicking == w.tools.clicking - {id}
    ensures r.tools.handlerAt == w.tools.handlerAt && w.log < r.log
    ensures r.log[|r.log| - 1] == Note(DrawingCancel, id)
    ensures (r.tools.forward.shown ==> w.tools.forward.shown) && (r.tools.backward.shown ==> w.tools.backward.shown)
    ensures w.editors[id].kind != Marker ==> !r.tools.forward.shown && !r.tools.backward.shown
    ensures w.editors[id].kind != Marker ==> r.tools.forward.points == [] && r.tools.backward.points == []
  {
    Fire(EndDrawing(w, id), DrawingCancel, id)
  }

  /** `finishDrawing`: end drawing, then report the finish. */
  function FinishDrawing(w: World, id: EditorId): (r: World)
    requires id in w.editors
    ensures r.editors == w.editors[id := Ended(w.editors[id])]
    ensures r.tools.drawer == if w.tools.drawer == Some(id) then None else w.tools.drawer
    ensures r.tools.drawingCss == if w.tools.drawer == Some(id) then false else w.tools.drawingCss
    ensures r.tools.moving == w.tools.moving - {id} && r.tools.clicking == w.tools.clicking - {id}
    ensures w.log < r.log && r.log[|r.log| - 1] == Note(DrawingFinish, id)
    ensures (r.tools.forward.shown ==> w.tools.forward.shown) && (r.tools.backward.shown ==> w.tools.backward.shown)
    ensures w.editors[id].kind != Marker ==> !r.tools.forward.shown && !r.tools.backward.shown
    ensures w.editors[id].kind != Marker ==> r.tools.forward.points == [] && r.tools.backward.points == []
  {
    Fire(EndDrawing(w, id), DrawingFinish, id)
  }

  /** `stopDrawing`: unregisters whichever editor is drawing. */
  function StopDrawing(w: World): (r: World)
    ensures r.tools.drawer == None && !r.tools.handlerShown
    ensures w.tools.drawer.Some? ==> !r.tools.drawingCss && w.tools.drawer.value !in r.tools.moving
    ensures r.editors.Keys == w.editors.Keys
    ensures forall x | x in w.editors && Some(x) != w.tools.drawer :: r.editors[x] == w.editors[x]
  {
    Unregister(w, None)
  }

  // ---------------------------------------------------------------------
  // Registration

  /** The drawer that registering `id` displaces: the current drawer, unless it is `id` itself. */
  function Replaced(w: World, id: EditorId): (r: set<EditorId>)
    ensures id !in r && |r| <= 1
    ensures forall x | x in r :: w.tools.drawer == Some(x)
  {
    if w.tools.drawer.Some? && w.tools.drawer != Some(id) then {w.tools.drawer.value} else {}
  }

  /**
   * `registerForDrawing` as written: the editor subscribes to pointer moves,
   * then any current drawer is unregistered, even when it is the same
   * editor, and the editor becomes the drawer.
   */
  function RegisterForDrawingAsWritten(w: World, id: EditorId): (r: World)
    ensures r.tools.drawer == Some(id) && r.tools.handlerShown && r.tools.drawingCss
    ensures var gone := if w.tools.drawer.Some? then {w.tools.drawer.value} else {};
            && r.tools.moving == w.tools.moving + {id} - gone
            && r.tools.clicking == w.tools.clicking - gone + {id}
    ensures r.editors.Keys == w.editors.Keys && w.log <= r.log
    ensures forall x | x in w.editors && Some(x) != w.tools.drawer :: r.editors[x] == w.editors[x]
    ensures w.tools.drawer.Some? && w.tools.drawer.value in w.editors ==>
              var x := w.tools.drawer.value;
              r.editors[x] == if w.editors[x].drawing.Active? then Ended(w.editors[x]) else w.editors[x]
  {
    var w1 := w.(tools := w.tools.(moving := w.tools.moving + {id}));
    var w2 := if w1.tools.drawer.Some? then Unregister(w1, w1.tools.drawer) else w1;
    w2.(tools := w2.tools.(drawer := Some(id), handlerShown := true,
                           clicking := w2.tools.clicking + {id}, drawingCss := true))
  }

  /**
   * `registerForDrawing` as intended: a different drawer is unregistered
   * (and cancelled if drawing); re-registering the current drawer keeps it
   * drawing and subscribed.
   */
  function RegisterForDrawing(w: World, id: EditorId): (r: World)
    ensures r.tools.drawer == Some(id) && r.tools.handlerShown && r.tools.drawingCss
    ensures r.tools.moving == w.tools.moving - Replaced(w, id) + {id}
    ensures r.tools.clicking == w.tools.clicking - Replaced(w, id) + {id}
    ensures r.editors.Keys == w.editors.Keys && w.log <= r.log
    ensures forall x | x in w.editors && x !in Replaced(w, id) :: r.editors[x] == w.editors[x]
    ensures forall x | x in Replaced(w, id) && x in w.editors ::
              r.editors[x] == if w.editors[x].drawing.Active? then Ended(w.editors[x]) else w.editors[x]
    ensures r.tools.handlerAt == w.tools.handlerAt
    ensures (r.tools.forward.shown ==> w.tools.forward.shown) && (r.tools.backward.shown ==> w.tools.backward.shown)
    ensures (exists x | x in Replaced(w, id) && x in w.editors :: w.editors[x].drawing.Active? && w.editors[x].kind != Marker)
              ==> !r.tools.forward.shown && !r.tools.backward.shown
  {
    var w1 := w.(tools := w.tools.(moving := w.tools.moving + {id}));
    var w2 := if w1.tools.drawer.Some? && w1.tools.drawer != Some(id) then Unregister(w1, w1.tools.drawer) else w1;
    assert id in w.editors ==> w2.editors[id] == w.editors[id];
    w2.(tools := w2.tools.(drawer := Some(id), handlerShown := true,
                           clicking := w2.tools.clicking + {id}, drawingCss := true))
  }

  // ---------------------------------------------------------------------
  // Starting to draw

  /**
   * The editor's own part of `startDrawing`: a path editor without a drawn
   * ring takes its outer ring (`PathEditor.startDrawing`), and drawing
   * becomes forward unless a direction is already set.
   */
  function Begin(e: Editor): (r: Editor)
    ensures r.drawing == if e.drawing.Active? then e.drawing else Active(Forward)
    ensures r.drawn == if e.kind != Marker && e.drawn.None? then Some(e.feature.outer) else e.drawn
    ensures r.kind == e.kind && r.feature == e.feature && r.layer == e.layer
    ensures WellFormed(e) ==> WellFormed(r)
  {
    var e1 := if e.kind != Marker && e.drawn.None? then e.(drawn := Some(e.feature.outer)) else e;
    if e1.drawing.Idle? then e1.(drawing := Active(Forward)) else e1
  }

  /** `startDrawing`: the editor begins, registers as the drawer, and reports the start. */
  function StartDrawing(w: World, id: EditorId): (r: World)
    requires id in w.editors
    ensures r.editors.Keys == w.editors.Keys && r.editors[id] == Begin(w.editors[id])
    ensures forall x | x in w.editors && x != id && Some(x) != w.tools.drawer :: r.editors[x] == w.editors[x]
    ensures forall x | x in Replaced(w, id) && x in w.editors ::
              r.editors[x] == if w.editors[x].drawing.Active? then Ended(w.editors[x]) else w.editors[x]
    ensures r.tools.drawer == Some(id) && r.tools.handlerShown && r.tools.drawingCss
    ensures r.tools.moving == w.tools.moving - Replaced(w, id) + {id}
    ensures r.tools.clicking == w.tools.clicking - Replaced(w, id) + {id}
    ensures r.tools.handlerAt == w.tools.handlerAt
    ensures (r.tools.forward.shown ==> w.tools.forward.shown) && (r.tools.backward.shown ==> w.tools.backward.shown)
    ensures (exists x | x in Replaced(w, id) && x in w.editors :: w.editors[x].drawing.Active? && w.editors[x].kind != Marker)
              ==> !r.tools.forward.shown && !r.tools.backward.shown
    ensures w.log < r.log && r.log[|r.log| - 1] == Note(DrawingStart, id)
  {
    assert Replaced(Put(w, id, Begin(w.editors[id])), id) == Replaced(w, id);
    Fire(RegisterForDrawing(Put(w, id, Begin(w.editors[id])), id), DrawingStart, id)
  }

  /** Attaches the forward guide, and for a polygon the backward one too. */
  function AttachGuides(w: World, kind: Kind): (r: World)
    ensures r.editors == w.editors && r.log == w.log
    ensures r.tools == w.tools.(forward := r.tools.forward, backward := r.tools.backward)
    ensures r.tools.forward == Attach(w.tools.forward)
    ensures r.tools.backward == if kind == Polygon then Attach(w.tools.backward) else w.tools.backward
  {
    var t := w.tools;
    w.(tools := t.(forward := Attach(t.forward),
                   backward := if kind == Polygon then Attach(t.backward) else t.backward))
  }

  /**
   * `PathEditor.startDrawingForward` (with `PolygonEditor`'s override):
   * start drawing, then show the forward guide, and for a polygon the
   * backward guide as well.
   */
  function StartDrawingForward(w: World, id: EditorId): (r: World)
    requires id in w.editors && w.editors[id].kind != Marker
    ensures r.editors.Keys == w.editors.Keys && r.editors[id] == Begin(w.editors[id])
    ensures forall x | x in w.editors && x != id && Some(x) != w.tools.drawer :: r.editors[x] == w.editors[x]
    ensures r.tools.drawer == Some(id) && r.tools.forward.shown
    ensures w.editors[id].kind == Polygon ==> r.tools.backward.shown
  {
    AttachGuides(StartDrawing(w, id), w.editors[id].kind)
  }

  /** `PolylineEditor.startDrawingBackward`: drawing is set backward, then started, and the backward guide shown. */
  function StartDrawingBackward(w: World, id: EditorId): (r: World)
    requires id in w.editors && w.editors[id].kind == Polyline
    ensures r.editors.Keys == w.editors.Keys
    ensures r.editors[id] == w.editors[id].(drawing := Active(Backward), drawn := Begin(w.editors[id]).drawn)
    ensures forall x | x in w.editors && x != id && Some(x) != w.tools.drawer :: r.editors[x] == w.editors[x]
    ensures r.tools.drawer == Some(id) && r.tools.backward.shown
  {
    var w1 := StartDrawing(Put(w, id, w.editors[id].(drawing := Active(Backward))), id);
    w1.(tools := w1.tools.(backward := Attach(w1.tools.backward)))
  }

  /** The coordinates of the first (or last) position of the outer ring, `undefined` when it is empty. */
  function OuterEnd(e: Editor, last: bool): (r: Option<Coord>)
    requires WellFormed(e)
    ensures var s := e.feature.rings[e.feature.outer];
            && (r.None? <==> |s| == 0)
            && (r.Some? ==> r.value == e.feature.coords[if last then s[|s| - 1] else s[0]])
  {
    var s := e.feature.rings[e.feature.outer];
    if |s| == 0 then None
    else if last then Some(e.feature.coords[s[|s| - 1]])
    else Some(e.feature.coords[s[0]])
  }

  /** `PolylineEditor.continueBackward`: anchor the backward guide at the first position, then draw backward. */
  function ContinueBackward(w: World, id: EditorId): (r: World)
    requires id in w.editors && w.editors[id].kind == Polyline && WellFormed(w.editors[id])
    ensures r.editors.Keys == w.editors.Keys
    ensures r.editors[id].drawing == Active(Backward) && r.tools.drawer == Some(id)
  {
    var t := w.tools;
    var w1 := w.(tools := t.(backward := Anchor(t.backward, OuterEnd(w.editors[id], false))));
    StartDrawingBackward(w1, id)
  }

  /** `PolylineEditor.continueForward`: anchor the forward guide at the last position, then draw forward. */
  function ContinueForward(w: World, id: EditorId): (r: World)
    requires id in w.editors && w.editors[id].kind == Polyline && WellFormed(w.editors[id])
    ensures r.editors.Keys == w.editors.Keys
    ensures r.editors[id].drawing == (if w.editors[id].drawing.Active? then w.editors[id].drawing else Active(Forward))
    ensures r.tools.drawer == Some(id)
  {
    var t := w.tools;
    var w1 := w.(tools := t.(forward := Anchor(t.forward, OuterEnd(w.editors[id], true))));
    StartDrawingForward(w1, id)
  }

  // ---------------------------------------------------------------------
  // New points

  /**
   * `newPointForward`: the point is added, the forward guide anchored at
   * it, and the backward guide too while its anchor slot is empty.
   */
  function NewPointForward(w: World, id: EditorId, at: Coord): (r: Result<World, Fault>)
    requires id in w.editors && WellFormed(w.editors[id])
    ensures r.Success? <==> w.editors[id].drawn.Some?
    ensures r.Success? ==>
              && r.value.editors == w.editors[id := AddLatLng(w.editors[id], at).value]
              && Anchored(r.value.tools.forward) && r.value.tools.forward.points[0] == Some(at)
              && r.value.tools.drawer == w.tools.drawer
              && r.value.log == w.log + [Note(Editing, id)]
    ensures r.Success? ==>
              r.value.tools.backward == if !Anchored(w.tools.backward) || w.tools.backward.points[0].None?
                                        then Anchor(w.tools.backward, Some(at)) else w.tools.backward
  {
    match AddLatLng(w.editors[id], at)
    case Failure(f) => Failure(f)
    case Success(e) =>
      var w1 := Fire(Put(w, id, e), Editing, id);
      var t := w1.tools;
      var backward := if !Anchored(t.backward) || t.backward.points[0].None?
                      then Anchor(t.backward, Some(at)) else t.backward;
      Success(w1.(tools := t.(forward := Anchor(t.forward, Some(at)), backward := backward)))
  }

  /** `newPointBackward`: the point is added and the backward guide anchored at it. */
  function NewPointBackward(w: World, id: EditorId, at: Coord): (r: Result<World, Fault>)
    requires id in w.editors && WellFormed(w.editors[id])
    ensures r.Success? <==> w.editors[id].drawn.Some?
    ensures r.Success? ==>
              && r.value.editors == w.editors[id := AddLatLng(w.editors[id], at).value]
              && Anchored(r.value.tools.backward) && r.value.tools.backward.points[0] == Some(at)
              && r.value.tools.drawer == w.tools.drawer
              && r.value.log == w.log + [Note(Editing, id)]
  {
    match AddLatLng(w.editors[id], at)
    case Failure(f) => Failure(f)
    case Success(e) =>
      var w1 := Fire(Put(w, id, e), Editing, id);
      Success(w1.(tools := w1.tools.(backward := Anchor(w1.tools.backward, Some(at)))))
  }

  /**
   * `onNewClickHandlerClicked`: an invalid click is ignored; otherwise the
   * click is reported, then a marker editor finishes drawing and a path
   * editor adds the point forward while drawing forward and backward
   * otherwise.
   */
  function NewClick(w: World, id: EditorId, at: Coord, contains: Coord -> bool): (r: Result<World, Fault>)
    requires id in w.editors && WellFormed(w.editors[id])
    ensures !IsNewClickValid(w.editors[id], at, contains) ==> r == Success(w)
    ensures r.Failure? ==> w.editors[id].kind != Marker && w.editors[id].drawn.None?
  {
    var e := w.editors[id];
    if !IsNewClickValid(e, at, contains) then Success(w)
    else
      var w1 := Fire(w, DrawingClick, id);
      if e.kind == Marker then Success(FinishDrawing(w1, id))
      else if e.drawing == Active(Forward) then NewPointForward(w1, id, at)
      else NewPointBackward(w1, id, at)
  }

  /**
   * `PolygonEditor.newHole`: a new empty hole becomes the drawn ring,
   * drawing starts forward, and the optional first point is added.
   */
  function NewHole(w: World, id: EditorId, at: Option<Coord>): (r: Result<World, Fault>)
    requires id in w.editors && w.editors[id].kind == Polygon && WellFormed(w.editors[id])
    ensures r.Success?
  {
    var w1 := StartDrawingForward(Put(w, id, OpenHole(w.editors[id])), id);
    if at.None? then Success(w1) else NewPointForward(w1, id, at.value)
  }

  /**
   * `onMouseMove` while drawing: the new-click handler follows the pointer;
   * a marker editor moves its marker there, a path editor moves the free
   * end of each anchored guide.  An editor that is not drawing ignores it.
   */
  function MouseMove(w: World, id: EditorId, at: Coord): (r: World)
    requires id in w.editors
    ensures w.editors[id].drawing.Idle? ==> r == w
    ensures r.editors.Keys == w.editors.Keys && r.log == w.log && r.tools.drawer == w.tools.drawer
    ensures w.editors[id].drawing.Active? ==> r.tools.handlerAt == at
    ensures forall x | x in w.editors :: r.editors[x].layer == w.editors[x].layer && r.editors[x].drawing == w.editors[x].drawing
    ensures forall x | x in w.editors && x != id :: r.editors[x] == w.editors[x]
    ensures w.editors[id].drawing.Active? && w.editors[id].kind == Marker ==>
              && r.editors[id].feature == w.editors[id].feature.(marker := at)
              && r.tools == w.tools.(handlerAt := at)
    ensures w.editors[id].drawing.Active? && w.editors[id].kind != Marker ==>
              && r.editors == w.editors
              && r.tools.forward == Move(w.tools.forward, at) && r.tools.backward == Move(w.tools.backward, at)
  {
    var e := w.editors[id];
    if e.drawing.Idle? then w
    else
      var t := w.tools.(handlerAt := at);
      if e.kind == Marker then
        Put(w.(tools := t), id, e.(feature := e.feature.(marker := at)))
      else
        w.(tools := t.(forward := Move(t.forward, at), backward := Move(t.backward, at)))
  }

  // ---------------------------------------------------------------------
  // Vertex and midpoint handles

  /** The modifier keys held during a click. */
  datatype Modifiers = Modifiers(ctrl: bool, alt: bool, shift: bool)

  /** What `onVertexMarkerClick` decides: report a modified click, finish drawing, or treat it as a raw click. */
  datatype ClickAction = Report(what: Notice) | Finish | Raw

  /**
   * `onVertexMarkerClick`'s decision.  The index is the vertex's place in
   * its own ring, while the length compared with `MIN_VERTEX` is that of
   * the drawn ring; reading that length without a drawn ring throws.
   */
  function VertexClickAction(e: Editor, p: PosId, keys: Modifiers): (r: Result<ClickAction, Fault>)
    requires WellFormed(e) && e.kind != Marker && p in e.layer.vertices
    ensures keys.ctrl ==> r == Success(Report(VertexCtrlClick))
    ensures !keys.ctrl && keys.alt ==> r == Success(Report(VertexAltClick))
    ensures !keys.ctrl && !keys.alt && keys.shift ==> r == Success(Report(VertexShiftClick))
    ensures r.Failure? ==> e.drawing.Active? && e.drawn.None?
    ensures r == Success(Finish) ==> !keys.ctrl && !keys.alt && !keys.shift && e.drawing.Active?
    ensures var s := RingOf(e, p);
            r == Success(Finish) ==> (|s| >= 2 && p == s[|s| - 1] && e.drawing == Active(Forward)) || p == s[0]
    ensures var s := RingOf(e, p);
            (!keys.ctrl && !keys.alt && !keys.shift && e.drawing == Active(Forward) && |s| >= 2 && p == s[|s| - 1])
              ==> r == Success(Finish)
    ensures r.Success? && r.value.Report? ==> keys.ctrl || keys.alt || keys.shift
    ensures !keys.ctrl && !keys.alt && !keys.shift ==> r == Success(Finish) || r == Success(Raw)
    ensures var s := RingOf(e, p);
            !keys.ctrl && !keys.alt && !keys.shift ==>
              (r == Success(Finish) <==>
                 || (p != s[0] && p == s[|s| - 1] && e.drawing == Active(Forward))
                 || (&& p == s[0] && e.drawing.Active? && e.drawn.Some?
                     && |e.feature.rings[e.drawn.value]| >= MinVertex(e.kind)
                     && (e.drawing == Active(Backward) || Closed(e.kind))))
  {
    NoDupIndices(RingOf(e, p));
    var index := GetIndex(e, p);
    if keys.ctrl then Success(Report(VertexCtrlClick))
    else if keys.alt then Success(Report(VertexAltClick))
    else if keys.shift then Success(Report(VertexShiftClick))
    else if index >= 1 && index == GetLastIndex(e, p) && e.drawing == Active(Forward) then Success(Finish)
    else if index == 0 && e.drawing.Active? then
      if e.drawn.None? then Failure(NoDrawnRing)
      else if |e.feature.rings[e.drawn.value]| >= MinVertex(e.kind)
              && (e.drawing == Active(Backward) || Closed(e.kind)) then Success(Finish)
      else Success(Raw)
    else Success(Raw)
  }

  /**
   * `onVertexRawMarkerClick`: a vertex that may be deleted is deleted, which
   * reports `vertex:deleted` and then the edit; otherwise nothing happens.
   */
  function RawClick(w: World, id: EditorId, p: PosId): (r: World)
    requires id in w.editors && Valid(w.editors[id]) && p in w.editors[id].layer.vertices
    ensures !CanDelete(w.editors[id], p) ==> r == w
    ensures CanDelete(w.editors[id], p) ==>
              && r.tools == w.tools
              && r.editors == w.editors[id := DeleteVertex(w.editors[id], p)]
              && r.log == w.log + [Note(VertexDeleted, id), Note(Editing, id)]
    ensures id in r.editors && w.editors[id].feature.outer in r.editors[id].feature.rings
    ensures var e := w.editors[id];
            |e.feature.rings[e.feature.outer]| >= MinVertex(e.kind) ==>
              |r.editors[id].feature.rings[e.feature.outer]| >= MinVertex(e.kind)
  {
    var e := w.editors[id];
    if !CanDelete(e, p) then w
    else Fire(Fire(Put(w, id, DeleteVertex(e, p)), VertexDeleted, id), Editing, id)
  }

  /** `VertexMarker.onClick`, dispatched on the decision above. */
  function VertexClick(w: World, id: EditorId, p: PosId, keys: Modifiers): (r: Result<World, Fault>)
    requires id in w.editors && Valid(w.editors[id]) && w.editors[id].kind != Marker && p in w.editors[id].layer.vertices
    ensures r.Success? <==> VertexClickAction(w.editors[id], p, keys).Success?
    ensures keys.ctrl || keys.alt || keys.shift ==>
              r.Success? && r.value == w.(log := r.value.log) && |r.value.log| == |w.log| + 1
    ensures r.Success? ==> r.value.editors.Keys == w.editors.Keys
    ensures r.Success? ==>
              var e := w.editors[id];
              e.feature.outer in r.value.editors[id].feature.rings &&
              |e.feature.rings[e.feature.outer]| >= MinVertex(e.kind) ==>
                |r.value.editors[id].feature.rings[e.feature.outer]| >= MinVertex(e.kind)
  {
    match VertexClickAction(w.editors[id], p, keys)
    case Failure(f) => Failure(f)
    case Success(Report(n)) => Success(Fire(w, n, id))
    case Success(Finish) => Success(FinishDrawing(w, id))
    case Success(Raw) => Success(RawClick(w, id, p))
  }

  /**
   * `MiddleMarker.onMouseDown` on the handle owned by `right`: the press is
   * reported, the handle is promoted to a vertex at `at`, and the edit is
   * reported.
   */
  function MiddleMouseDown(w: World, id: EditorId, right: PosId, at: Coord): (r: World)
    requires id in w.editors && WellFormed(w.editors[id]) && right in w.editors[id].layer.middles
    ensures r.editors == w.editors[id := PromoteMiddle(w.editors[id], right, at)]
    ensures r.tools == w.tools && r.log == w.log + [Note(MiddleMarkerMouseDown, id)] + [Note(Editing, id)]
  {
    var e := w.editors[id];
    Fire(Put(Fire(w, MiddleMarkerMouseDown, id), id, PromoteMiddle(e, right, at)), Editing, id)
  }

  /** `VertexMarker.onDrag` with the pointer at `at`, then the edit is reported. */
  function VertexDrag(w: World, id: EditorId, p: PosId, at: Coord): (r: World)
    requires id in w.editors && WellFormed(w.editors[id]) && p in w.editors[id].layer.vertices
    ensures r.editors.Keys == w.editors.Keys
    ensures forall x | x in w.editors && x != id :: r.editors[x] == w.editors[x]
    ensures r.editors[id].feature == w.editors[id].feature.(coords := w.editors[id].feature.coords[p := at])
    ensures r.editors[id].layer.vertices == w.editors[id].layer.vertices
    ensures r.tools == w.tools && r.log == w.log + [Note(Editing, id)]
  {
    Fire(Put(w, id, Drag(w.editors[id], p, at)), Editing, id)
  }
}

