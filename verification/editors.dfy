/**
 * One feature editor (`BaseEditor` and its `MarkerEditor`, `PolylineEditor`
 * and `PolygonEditor` variants) seen from its own state: the drawing
 * direction, the ring being drawn, the feature, and the vertex and midpoint
 * handles on its edit layer.  The drawing lifecycle, which also involves
 * the shared tools, is in the `Sessions` module.
 *
 * The edit layer is taken to be on the map, so a new vertex handle runs its
 * `onAdd` at once.
 */
module Editors {
  import opened Wrappers
  import opened Rings
  import opened Coords
  import opened Features

  /** `L.Editable.FORWARD` (1, append) and `L.Editable.BACKWARD` (-1, prepend). */
  datatype Direction = Forward | Backward

  /** The `drawing` field: `false`, `FORWARD` or `BACKWARD`. */
  datatype Drawing = Idle | Active(dir: Direction)

  /** A midpoint handle, held by its right endpoint: its left endpoint and where it is shown. */
  datatype Middle = Middle(left: PosId, at: Coord)

  /**
   * The edit layer.  `vertices` maps each position that has a vertex handle
   * (the `__vertex` back-reference) to the ring that handle was created for
   * (`vertex.latlngs`); `middles` maps each vertex that owns a midpoint
   * handle (`vertex.middleMarker`) to that handle.
   */
  datatype Layer = Layer(vertices: map<PosId, RingId>, middles: map<PosId, Middle>)

  /** `drawn` is `_drawnLatLngs`, the ring new points go into. */
  datatype Editor = Editor(kind: Kind, drawing: Drawing, drawn: Option<RingId>, feature: Feature, layer: Layer)

  /** What the source does instead of returning: reading `_drawnLatLngs` after it was deleted throws. */
  datatype Fault = NoDrawnRing

  /** An editor for a feature that has no positions yet, with an empty edit layer. */
  function Fresh(kind: Kind, at: Coord): (e: Editor)
    ensures e.drawing == Idle && e.drawn == None
    ensures e.feature.outer in e.feature.rings && e.feature.rings[e.feature.outer] == []
    ensures e.layer == Layer(map[], map[])
  {
    Editor(kind, Idle, None, Empty(at), Layer(map[], map[]))
  }

  // ---------------------------------------------------------------------
  // Shape and invariant

  /** What the operations need to be defined: every reference resolves and fresh identities are fresh. */
  ghost predicate WellFormed(e: Editor) {
    var f := e.feature;
    && f.outer in f.rings
    && (forall h | h in f.holes :: h in f.rings)
    && (e.drawn.Some? ==> e.drawn.value in f.rings)
    && (forall r | r in f.rings :: NoDup(f.rings[r]) && r < f.nextRing)
    && (forall r, p | r in f.rings && p in f.rings[r] :: p in f.coords)
    && (forall p | p in f.coords :: p < f.nextPos)
    && (forall p | p in e.layer.vertices ::
          e.layer.vertices[p] in f.rings && p in f.rings[e.layer.vertices[p]])
    && (forall p | p in e.layer.middles ::
          p in e.layer.vertices && e.layer.middles[p].left in f.coords)
    && (e.kind != Marker && e.drawing.Active? ==> e.drawn.Some?)
  }

  /**
   * The midpoint handle owned by `q` is there exactly when `q`'s vertex has
   * a predecessor, joins that predecessor to `q`, and is shown at their
   * midpoint.
   */
  ghost predicate MiddleOk(e: Editor, q: PosId) {
    && (q in e.layer.middles <==> GetPrevious(e, q).Some?)
    && (q in e.layer.middles ==>
          var m := e.layer.middles[q];
          && m.left == GetPrevious(e, q).value
          && q in e.feature.coords && m.left in e.feature.coords
          && m.at == Midpoint(e.feature.coords[m.left], e.feature.coords[q]))
  }

  /** Every position of every ring has a vertex handle created for that ring. */
  ghost predicate Owned(e: Editor) {
    forall r, p | r in e.feature.rings && p in e.feature.rings[r] ::
      p in e.layer.vertices && e.layer.vertices[p] == r
  }

  /**
   * The editor invariant: every position of every ring has a vertex handle
   * created for that ring (so no position is in two rings), the hole list is a list of distinct
   * rings other than the outer one, a path editor draws exactly while it
   * has a drawn ring, and every midpoint handle is where adjacency says.
   */
  ghost predicate Valid(e: Editor) {
    var f := e.feature;
    && WellFormed(e)
    && NoDup(f.holes) && f.outer !in f.holes
    && Owned(e)
    && (e.kind != Marker ==> (e.drawing.Active? <==> e.drawn.Some?))
    && (e.kind == Marker ==> e.drawn.None?)
    && (forall q {:trigger MiddleOk(e, q)} :: MiddleOk(e, q))
  }

  lemma FreshValid(kind: Kind, at: Coord)
    ensures Valid(Fresh(kind, at))
  {
    var e := Fresh(kind, at);
    forall q ensures MiddleOk(e, q) {
    }
  }

  /** The next position identity is in no ring. */
  lemma FreshPosition(e: Editor, id: RingId)
    requires WellFormed(e) && id in e.feature.rings
    ensures e.feature.nextPos !in e.feature.rings[id] && e.feature.nextPos !in e.feature.coords
  {
    forall x | x in e.feature.rings[id]
      ensures x < e.feature.nextPos
    {
      assert x in e.feature.coords;
    }
  }

  // ---------------------------------------------------------------------
  // Vertex handles: neighbours

  /** The ring a vertex handle was created for. */
  function RingOf(e: Editor, p: PosId): Ring
    requires WellFormed(e) && p in e.layer.vertices
  {
    e.feature.rings[e.layer.vertices[p]]
  }

  /** `VertexMarker.getIndex`. */
  function GetIndex(e: Editor, p: PosId): (r: int)
    requires WellFormed(e) && p in e.layer.vertices
    ensures 0 <= r < |RingOf(e, p)| && RingOf(e, p)[r] == p
  {
    IndexOf(RingOf(e, p), p)
  }

  /** `VertexMarker.getLastIndex`. */
  function GetLastIndex(e: Editor, p: PosId): int
    requires WellFormed(e) && p in e.layer.vertices
  {
    |RingOf(e, p)| - 1
  }

  /** `VertexMarker.getPrevious`: the handle of the preceding position, if that position has one. */
  function GetPrevious(e: Editor, p: PosId): (r: Option<PosId>)
    ensures r.Some? ==> r.value in e.layer.vertices && p in e.layer.vertices
    ensures r.Some? ==> e.layer.vertices[p] in e.feature.rings
    ensures r.Some? ==> r.value in e.feature.rings[e.layer.vertices[p]]
  {
    if p !in e.layer.vertices || e.layer.vertices[p] !in e.feature.rings then None
    else
      match Previous(e.feature.rings[e.layer.vertices[p]], p, Closed(e.kind))
      case None => None
      case Some(q) => if q in e.layer.vertices then Some(q) else None
  }

  /** `VertexMarker.getNext`: the handle of the following position, if that position has one. */
  function GetNext(e: Editor, p: PosId): (r: Option<PosId>)
    ensures r.Some? ==> r.value in e.layer.vertices && p in e.layer.vertices
    ensures r.Some? ==> e.layer.vertices[p] in e.feature.rings
    ensures r.Some? ==> r.value in e.feature.rings[e.layer.vertices[p]]
  {
    if p !in e.layer.vertices || e.layer.vertices[p] !in e.feature.rings then None
    else
      match Next(e.feature.rings[e.layer.vertices[p]], p, Closed(e.kind))
      case None => None
      case Some(q) => if q in e.layer.vertices then Some(q) else None
  }

  /** In a valid editor the handle lookups are exactly the ring's neighbour rules. */
  lemma NeighboursOfValid(e: Editor, p: PosId)
    requires Valid(e) && p in e.layer.vertices
    ensures GetPrevious(e, p) == Previous(RingOf(e, p), p, Closed(e.kind))
    ensures GetNext(e, p) == Next(RingOf(e, p), p, Closed(e.kind))
  {
  }

  /** In a valid editor, `q`'s handle follows `p`'s exactly when `p`'s precedes `q`'s. */
  lemma NextPreviousHandles(e: Editor, p: PosId, q: PosId)
    requires Valid(e) && p in e.layer.vertices
    ensures GetNext(e, p) == Some(q) <==> GetPrevious(e, q) == Some(p)
  {
    var s := RingOf(e, p);
    NextPreviousInverse(s, p, q, Closed(e.kind));
    if GetPrevious(e, q) == Some(p) {
      assert e.layer.vertices[q] == e.layer.vertices[p];
    }
  }

  // ---------------------------------------------------------------------
  // Midpoint handles

  /** `VertexMarker.addMiddleMarker()`: a midpoint handle towards the predecessor, unless one is there. */
  function AddMiddleMarker(e: Editor, p: PosId): (r: Editor)
    requires WellFormed(e)
    ensures WellFormed(r) && r.feature == e.feature && r.layer.vertices == e.layer.vertices
    ensures r.layer.middles.Keys == e.layer.middles.Keys + (if GetPrevious(e, p).Some? then {p} else {})
    ensures forall q | q in e.layer.middles :: r.layer.middles[q] == e.layer.middles[q]
    ensures p !in e.layer.middles ==> MiddleOk(r, p)
    ensures r.kind == e.kind && r.drawing == e.drawing && r.drawn == e.drawn
  {
    match GetPrevious(e, p)
    case None => e
    case Some(q) =>
      if p in e.layer.middles then e
      else
        var c := e.feature.coords;
        e.(layer := e.layer.(middles := e.layer.middles[p := Middle(q, Midpoint(c[q], c[p]))]))
  }

  /** `VertexMarker.resetMiddleMarker`: drops `p`'s midpoint handle and builds it again from the current ring. */
  function ResetMiddleMarker(e: Editor, p: PosId): (r: Editor)
    requires WellFormed(e)
    ensures WellFormed(r) && r.feature == e.feature && r.layer.vertices == e.layer.vertices
    ensures MiddleOk(r, p)
    ensures forall q | q != p :: (q in r.layer.middles <==> q in e.layer.middles)
    ensures forall q | q in e.layer.middles && q != p :: r.layer.middles[q] == e.layer.middles[q]
    ensures r.kind == e.kind && r.drawing == e.drawing && r.drawn == e.drawn
  {
    AddMiddleMarker(e.(layer := e.layer.(middles := e.layer.middles - {p})), p)
  }

  /** `MiddleMarker.updateLatLng`: shows `q`'s midpoint handle at the current midpoint of its endpoints. */
  function UpdateMiddle(e: Editor, q: PosId): (r: Editor)
    requires WellFormed(e) && q in e.layer.middles
    ensures WellFormed(r) && r.feature == e.feature && r.layer.vertices == e.layer.vertices
    ensures r.layer.middles.Keys == e.layer.middles.Keys
    ensures r.layer.middles[q].left == e.layer.middles[q].left
    ensures r.layer.middles[q].at == Midpoint(e.feature.coords[e.layer.middles[q].left], e.feature.coords[q])
    ensures forall x | x in e.layer.middles && x != q :: r.layer.middles[x] == e.layer.middles[x]
    ensures r.kind == e.kind && r.drawing == e.drawing && r.drawn == e.drawn
  {
    var m := e.layer.middles[q];
    var c := e.feature.coords;
    e.(layer := e.layer.(middles := e.layer.middles[q := m.(at := Midpoint(c[m.left], c[q]))]))
  }

  // ---------------------------------------------------------------------
  // Vertex handles: creation and deletion

  /**
   * Ring `id` replaced by `t`, which holds its old positions and one new
   * position object with coordinates `at`; that position has no handle yet.
   */
  function Grown(e: Editor, id: RingId, t: Ring, at: Coord): (r: Editor)
    requires WellFormed(e) && id in e.feature.rings && NoDup(t)
    requires forall x | x in t :: x in e.feature.rings[id] || x == e.feature.nextPos
    requires forall x | x in e.feature.rings[id] :: x in t
    ensures WellFormed(r) && r.layer == e.layer
    ensures r.kind == e.kind && r.drawing == e.drawing && r.drawn == e.drawn
  {
    var n := e.feature.nextPos;
    e.(feature := e.feature.(rings := e.feature.rings[id := t],
                             coords := e.feature.coords[n := at], nextPos := n + 1))
  }

  /**
   * `new VertexMarker(latlng, latlngs, editor)` followed by its `onAdd`:
   * the position gets its handle, a midpoint handle towards its
   * predecessor, and its successor rebuilds its own midpoint handle.
   */
  function AddVertexMarker(e: Editor, p: PosId, ring: RingId): (r: Editor)
    requires WellFormed(e) && ring in e.feature.rings && p in e.feature.rings[ring]
    ensures WellFormed(r) && r.feature == e.feature
    ensures r.layer.vertices == e.layer.vertices[p := ring]
    ensures r.kind == e.kind && r.drawing == e.drawing && r.drawn == e.drawn
  {
    var e1 := e.(layer := e.layer.(vertices := e.layer.vertices[p := ring]));
    var e2 := AddMiddleMarker(e1, p);
    match GetNext(e2, p)
    case None => e2
    case Some(q) => ResetMiddleMarker(e2, q)
  }

  /**
   * A new vertex handle for `n` makes its successor's midpoint handle join
   * the successor to `n`.
   */
  lemma SuccessorHandle(g: Editor, n: PosId, id: RingId, q: PosId)
    requires WellFormed(g) && id in g.feature.rings && n in g.feature.rings[id]
    requires Next(g.feature.rings[id], n, Closed(g.kind)) == Some(q)
    requires q in g.layer.vertices && g.layer.vertices[q] == id
    ensures var r := AddVertexMarker(g, n, id);
            q in r.layer.middles && r.layer.middles[q].left == n
  {
    var t := g.feature.rings[id];
    var c := Closed(g.kind);
    assert q in t && q != n;
    NextPreviousInverse(t, n, q, c);
    var e1 := g.(layer := g.layer.(vertices := g.layer.vertices[n := id]));
    assert GetNext(AddMiddleMarker(e1, n), n) == Some(q);
    assert GetPrevious(AddVertexMarker(g, n, id), q) == Some(n);
  }

  /**
   * Position `p` spliced out of its own ring, its handle and midpoint handle
   * gone, and (`PolygonEditor.onVertexDeleted`) a polygon ring left empty
   * taken out of the hole list.
   */
  function Unlinked(e: Editor, p: PosId): (r: Editor)
    requires WellFormed(e) && p in e.layer.vertices && NoDup(e.feature.holes)
    ensures WellFormed(r) && NoDup(r.feature.holes)
    ensures r.layer == Layer(e.layer.vertices - {p}, e.layer.middles - {p})
    ensures var id := e.layer.vertices[p];
            && r.feature.rings == e.feature.rings[id := Remove(e.feature.rings[id], p)]
            && |r.feature.rings[id]| == |e.feature.rings[id]| - 1
            && p !in r.feature.rings[id]
    ensures forall h | h in r.feature.holes :: h in e.feature.holes
    ensures r.feature.coords == e.feature.coords && r.feature.outer == e.feature.outer
    ensures r.kind == e.kind && r.drawing == e.drawing && r.drawn == e.drawn
  {
    var id := e.layer.vertices[p];
    var ring := Remove(e.feature.rings[id], p);
    RemoveMembers(e.feature.rings[id], p);
    var f := e.feature.(rings := e.feature.rings[id := ring]);
    var f' := if e.kind == Polygon && |ring| == 0 && id != f.outer
              then f.(holes := DropEmptyHole(f.holes, id)) else f;
    e.(feature := f', layer := Layer(e.layer.vertices - {p}, e.layer.middles - {p}))
  }

  /**
   * `VertexMarker.delete`: the successor is looked up before the ring
   * changes, `p` is unlinked, and the successor rebuilds its midpoint
   * handle.
   */
  function DeleteVertex(e: Editor, p: PosId): (r: Editor)
    requires WellFormed(e) && p in e.layer.vertices && NoDup(e.feature.holes)
    ensures WellFormed(r) && NoDup(r.feature.holes)
    ensures r.layer.vertices == e.layer.vertices - {p}
    ensures var id := e.layer.vertices[p];
            && r.feature.rings == e.feature.rings[id := Remove(e.feature.rings[id], p)]
            && |r.feature.rings[id]| == |e.feature.rings[id]| - 1
            && p !in r.feature.rings[id]
    ensures forall h | h in r.feature.holes :: h in e.feature.holes
    ensures r.feature.coords == e.feature.coords && r.feature.outer == e.feature.outer
    ensures r.kind == e.kind && r.drawing == e.drawing && r.drawn == e.drawn
  {
    var next := GetNext(e, p);
    var e1 := Unlinked(e, p);
    match next
    case None => e1
    case Some(q) => ResetMiddleMarker(e1, q)
  }

  /**
   * `MiddleMarker.delete` on the promoted handle: the layer only removes the
   * handle if it is still there, i.e. `right` still owns a midpoint handle
   * towards `left`.
   */
  function RemoveMiddle(e: Editor, right: PosId, left: PosId): (r: Editor)
    requires WellFormed(e)
    ensures WellFormed(r) && r.feature == e.feature && r.layer.vertices == e.layer.vertices
    ensures right in e.layer.middles && e.layer.middles[right].left != left ==> r == e
    ensures r.kind == e.kind && r.drawing == e.drawing && r.drawn == e.drawn
  {
    if right in e.layer.middles && e.layer.middles[right].left == left
    then e.(layer := e.layer.(middles := e.layer.middles - {right}))
    else e
  }

  /**
   * The first half of `MiddleMarker.onMouseDown`: a new position at the
   * pointer is spliced in at the index of the right endpoint and gets its
   * vertex handle, so the right endpoint's midpoint handle now starts at it.
   */
  function Spliced(e: Editor, right: PosId, at: Coord): (r: Editor)
    requires WellFormed(e) && right in e.layer.middles
    ensures WellFormed(r)
    ensures var id := e.layer.vertices[right];
            var s := e.feature.rings[id];
            var n := e.feature.nextPos;
            && r.feature == e.feature.(rings := e.feature.rings[id := Insert(s, IndexOf(s, right), n)],
                                       coords := e.feature.coords[n := at], nextPos := n + 1)
            && r.layer.vertices == e.layer.vertices[n := id]
    ensures right in r.layer.middles && r.layer.middles[right].left == e.feature.nextPos
    ensures r.kind == e.kind && r.drawing == e.drawing && r.drawn == e.drawn
  {
    var id := e.layer.vertices[right];
    var s := e.feature.rings[id];
    var n := e.feature.nextPos;
    var k := IndexOf(s, right);
    FreshPosition(e, id);
    InsertMembers(s, k, n);
    InsertNext(s, k, n, Closed(e.kind));
    var g := Grown(e, id, Insert(s, k, n), at);
    SuccessorHandle(g, n, id, right);
    AddVertexMarker(g, n, id)
  }

  /**
   * `MiddleMarker.onMouseDown`: the splice, then the pressed midpoint handle
   * is deleted, which removes nothing since its owner now holds a new one.
   */
  function PromoteMiddle(e: Editor, right: PosId, at: Coord): (r: Editor)
    requires WellFormed(e) && right in e.layer.middles
    ensures WellFormed(r)
    ensures var id := e.layer.vertices[right];
            var s := e.feature.rings[id];
            var n := e.feature.nextPos;
            && n !in e.feature.coords && r.feature.coords == e.feature.coords[n := at]
            && r.feature.rings == e.feature.rings[id := Insert(s, IndexOf(s, right), n)]
            && r.layer.vertices == e.layer.vertices[n := id]
    ensures right in r.layer.middles && r.layer.middles[right].left == e.feature.nextPos
    ensures r.feature.holes == e.feature.holes && r.feature.outer == e.feature.outer
    ensures r.kind == e.kind && r.drawing == e.drawing && r.drawn == e.drawn
  {
    FreshPosition(e, e.layer.vertices[right]);
    RemoveMiddle(Spliced(e, right, at), right, e.layer.middles[right].left)
  }

  /** `vertex.middleMarker.updateLatLng()`, guarded by `if (vertex.middleMarker)`. */
  function RefreshMiddle(e: Editor, q: PosId): (r: Editor)
    requires WellFormed(e)
    ensures WellFormed(r) && r.feature == e.feature && r.layer.vertices == e.layer.vertices
    ensures r.layer.middles.Keys == e.layer.middles.Keys
    ensures q in e.layer.middles ==>
              && r.layer.middles[q].left == e.layer.middles[q].left
              && r.layer.middles[q].at == Midpoint(e.feature.coords[e.layer.middles[q].left], e.feature.coords[q])
    ensures forall x | x in e.layer.middles && x != q :: r.layer.middles[x] == e.layer.middles[x]
    ensures r.kind == e.kind && r.drawing == e.drawing && r.drawn == e.drawn
  {
    if q in e.layer.middles then UpdateMiddle(e, q) else e
  }

  /** The position object `p` takes new coordinates in place; every handle stays as it was. */
  function Moved(e: Editor, p: PosId, at: Coord): (r: Editor)
    requires WellFormed(e) && p in e.layer.vertices
    ensures WellFormed(r) && r.layer == e.layer
    ensures r.feature == e.feature.(coords := e.feature.coords[p := at])
    ensures r.kind == e.kind && r.drawing == e.drawing && r.drawn == e.drawn
  {
    e.(feature := e.feature.(coords := e.feature.coords[p := at]))
  }

  /** The successor of `p`, if it has a handle, shows its midpoint handle anew. */
  function RefreshNext(e: Editor, p: PosId): (r: Editor)
    requires WellFormed(e)
    ensures WellFormed(r) && r.feature == e.feature && r.layer.vertices == e.layer.vertices
    ensures r.layer.middles.Keys == e.layer.middles.Keys
    ensures forall q | q in r.layer.middles :: r.layer.middles[q].left == e.layer.middles[q].left
    ensures GetNext(e, p).Some? && GetNext(e, p).value in e.layer.middles ==>
              var q := GetNext(e, p).value;
              r.layer.middles[q].at == Midpoint(e.feature.coords[e.layer.middles[q].left], e.feature.coords[q])
    ensures forall q | q in e.layer.middles && Some(q) != GetNext(e, p) :: r.layer.middles[q] == e.layer.middles[q]
    ensures r.kind == e.kind && r.drawing == e.drawing && r.drawn == e.drawn
  {
    match GetNext(e, p)
    case None => e
    case Some(q) => RefreshMiddle(e, q)
  }

  /**
   * `VertexMarker.onDrag`, with the pointer's position given: the position
   * object takes the new coordinates in place, and the two midpoint handles
   * that touch it (its own and its successor's) are shown anew.
   */
  function Drag(e: Editor, p: PosId, at: Coord): (r: Editor)
    requires WellFormed(e) && p in e.layer.vertices
    ensures WellFormed(r)
    ensures r.feature == e.feature.(coords := e.feature.coords[p := at])
    ensures r.layer.vertices == e.layer.vertices && r.layer.middles.Keys == e.layer.middles.Keys
    ensures forall q | q in r.layer.middles :: r.layer.middles[q].left == e.layer.middles[q].left
    ensures p in r.layer.middles ==>
              r.layer.middles[p].at == Midpoint(r.feature.coords[r.layer.middles[p].left], at)
    ensures GetNext(e, p).Some? && GetNext(e, p).value in r.layer.middles ==>
              var q := GetNext(e, p).value;
              r.layer.middles[q].at == Midpoint(r.feature.coords[r.layer.middles[q].left], r.feature.coords[q])
    ensures forall q | q in e.layer.middles && q != p && Some(q) != GetNext(e, p) ::
              r.layer.middles[q] == e.layer.middles[q]
    ensures r.kind == e.kind && r.drawing == e.drawing && r.drawn == e.drawn
  {
    var e2 := RefreshMiddle(Moved(e, p, at), p);
    assert GetNext(e2, p) == GetNext(e, p);
    RefreshNext(e2, p)
  }

  // ---------------------------------------------------------------------
  // Drawing new points

  /**
   * `PathEditor.addLatLng`: a new position at `at` is pushed onto the drawn
   * ring while drawing forward and unshifted otherwise, then gets its
   * handle.  Without a drawn ring the source throws.
   */
  function AddLatLng(e: Editor, at: Coord): (r: Result<Editor, Fault>)
    requires WellFormed(e)
    ensures r.Success? <==> e.drawn.Some?
    ensures r.Success? ==> e.drawn.value in r.value.feature.rings
    ensures r.Success? ==>
              var id := e.drawn.value;
              var s := e.feature.rings[id];
              var t := r.value.feature.rings[id];
              var n := e.feature.nextPos;
              && WellFormed(r.value)
              && n !in e.feature.coords && r.value.feature.coords == e.feature.coords[n := at]
              && r.value.feature.rings == e.feature.rings[id := t]
              && |t| == |s| + 1
              && (e.drawing == Active(Forward) ==> t == s + [n])
              && (e.drawing != Active(Forward) ==> t == [n] + s)
              && r.value.layer.vertices == e.layer.vertices[n := id]
              && r.value.feature.holes == e.feature.holes && r.value.feature.outer == e.feature.outer
              && r.value.kind == e.kind && r.value.drawing == e.drawing && r.value.drawn == e.drawn
  {
    if e.drawn.None? then Failure(NoDrawnRing)
    else
      var id := e.drawn.value;
      var s := e.feature.rings[id];
      var n := e.feature.nextPos;
      FreshPosition(e, id);
      var t := if e.drawing == Active(Forward) then Append(s, n) else Prepend(s, n);
      Success(AddVertexMarker(Grown(e, id, t, at), n, id))
  }

  /**
   * The first step of `PolygonEditor.newHole`: a new empty hole is appended
   * to the hole list and becomes the drawn ring.
   */
  function OpenHole(e: Editor): (r: Editor)
    requires WellFormed(e)
    ensures WellFormed(r)
    ensures r.drawn.Some?
    ensures var h := r.drawn.value;
            && h !in e.feature.rings
            && r.feature.rings == e.feature.rings[h := []]
            && r.feature.holes == e.feature.holes + [h]
    ensures r.feature.outer == e.feature.outer && r.feature.coords == e.feature.coords
    ensures r.layer == e.layer && r.kind == e.kind && r.drawing == e.drawing
  {
    var (f, h) := AddNewEmptyHole(e.feature);
    e.(feature := f, drawn := Some(h))
  }

  // ---------------------------------------------------------------------
  // Policies

  /**
   * `vertexCanBeDeleted`: a position may go only from a ring holding more
   * than `MIN_VERTEX` positions, except that a polygon's holes may always
   * lose positions.
   */
  predicate CanDelete(e: Editor, p: PosId)
    requires WellFormed(e) && p in e.layer.vertices
  {
    if e.kind == Polygon && e.layer.vertices[p] != e.feature.outer then true
    else |RingOf(e, p)| > MinVertex(e.kind)
  }

  /**
   * `isNewClickValid`: markers and lines take every click; a polygon checks
   * with `contains` (its `checkContains`) only while the drawn ring is not
   * its outer ring, i.e. while a hole is drawn.
   */
  predicate IsNewClickValid(e: Editor, at: Coord, contains: Coord -> bool) {
    if e.kind == Polygon && e.drawn != Some(e.feature.outer) then contains(at) else true
  }
}
