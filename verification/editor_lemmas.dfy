/**
 * The editor invariant `Editors.Valid` is kept by every ring edit: vertex
 * deletion, midpoint promotion, dragging and drawing new points.  In
 * particular every midpoint handle keeps joining two neighbours and stays
 * at their midpoint.
 */
module EditorLemmas {
  import opened Wrappers
  import opened Rings
  import opened Coords
  import opened Features
  import opened Editors

  // ---------------------------------------------------------------------
  // Frames

  /**
   * `MiddleOk` of `q` depends only on `q`'s predecessor handle, `q`'s
   * midpoint handle and the coordinates, which may gain new positions.
   */
  lemma MiddleOkFrame(a: Editor, b: Editor, q: PosId)
    requires GetPrevious(a, q) == GetPrevious(b, q)
    requires forall x | x in a.feature.coords :: x in b.feature.coords && b.feature.coords[x] == a.feature.coords[x]
    requires q in a.layer.middles <==> q in b.layer.middles
    requires q in a.layer.middles ==> a.layer.middles[q] == b.layer.middles[q]
    requires MiddleOk(a, q)
    ensures MiddleOk(b, q)
  {
  }

  /**
   * `GetPrevious` of `q` is the same in two editors when `q`'s handle names
   * the same ring in both, that ring gives `q` the same predecessor, and the
   * predecessor has a handle in both or in neither.
   */
  lemma PreviousFrame(a: Editor, b: Editor, q: PosId)
    requires a.kind == b.kind
    requires q in a.layer.vertices <==> q in b.layer.vertices
    requires q in a.layer.vertices ==>
               var id := a.layer.vertices[q];
               && b.layer.vertices[q] == id
               && (id in a.feature.rings <==> id in b.feature.rings)
               && (id in a.feature.rings ==>
                     var x := Previous(a.feature.rings[id], q, Closed(a.kind));
                     && x == Previous(b.feature.rings[id], q, Closed(a.kind))
                     && (x.Some? ==> (x.value in a.layer.vertices <==> x.value in b.layer.vertices)))
    ensures GetPrevious(a, q) == GetPrevious(b, q)
  {
  }

  /** Changing only the drawing state keeps the invariant when drawing and drawn ring stay paired. */
  lemma DrawingStateValid(e: Editor, d: Drawing, drawn: Option<RingId>)
    requires Valid(e)
    requires drawn.Some? ==> drawn.value in e.feature.rings
    requires e.kind != Marker ==> (d.Active? <==> drawn.Some?)
    requires e.kind == Marker ==> drawn.None?
    ensures Valid(e.(drawing := d, drawn := drawn))
  {
    var r := e.(drawing := d, drawn := drawn);
    forall q ensures MiddleOk(r, q) {
      assert MiddleOk(e, q);
    }
  }

  /** A new empty hole leaves every midpoint handle right. */
  lemma NewHoleKeepsMiddle(e: Editor, q: PosId)
    requires Valid(e) && e.kind == Polygon
    ensures var (f, h) := AddNewEmptyHole(e.feature);
            MiddleOk(e.(feature := f, drawn := Some(h), drawing := Active(Forward)), q)
  {
    var (f, h) := AddNewEmptyHole(e.feature);
    var r := e.(feature := f, drawn := Some(h), drawing := Active(Forward));
    assert MiddleOk(e, q);
    if q in e.layer.vertices {
      assert e.layer.vertices[q] != h;
    }
    PreviousFrame(e, r, q);
    MiddleOkFrame(e, r, q);
  }

  /** A new empty hole has no position, so every position keeps the handle of its ring. */
  lemma NewHoleOwned(e: Editor)
    requires WellFormed(e) && Owned(e)
    ensures var (f, h) := AddNewEmptyHole(e.feature);
            Owned(e.(feature := f, drawn := Some(h), drawing := Active(Forward)))
  {
    var (f, h) := AddNewEmptyHole(e.feature);
    var r := e.(feature := f, drawn := Some(h), drawing := Active(Forward));
    forall r1, x | r1 in f.rings && x in f.rings[r1]
      ensures x in r.layer.vertices && r.layer.vertices[x] == r1
    {
      assert r1 != h && f.rings[r1] == e.feature.rings[r1];
    }
  }

  /** A new empty hole is a fresh ring at the end of the hole list. */
  lemma NewHoleShape(e: Editor)
    requires WellFormed(e) && NoDup(e.feature.holes) && e.feature.outer !in e.feature.holes
    ensures var (f, h) := AddNewEmptyHole(e.feature);
            var r := e.(feature := f, drawn := Some(h), drawing := Active(Forward));
            WellFormed(r) && NoDup(f.holes) && f.outer !in f.holes
  {
    var (f, h) := AddNewEmptyHole(e.feature);
    assert OpenHole(e) == e.(feature := f, drawn := Some(h));
  }

  /** A new empty hole touches no handle. */
  lemma NewHoleValid(e: Editor)
    requires Valid(e) && e.kind == Polygon
    ensures var (f, h) := AddNewEmptyHole(e.feature);
            Valid(e.(feature := f, drawn := Some(h), drawing := Active(Forward)))
  {
    var (f, h) := AddNewEmptyHole(e.feature);
    var r := e.(feature := f, drawn := Some(h), drawing := Active(Forward));
    NewHoleOwned(e);
    NewHoleShape(e);
    forall q: PosId ensures MiddleOk(r, q) {
      NewHoleKeepsMiddle(e, q);
    }
  }

  // ---------------------------------------------------------------------
  // A new position: the ring grows, then the position gets its handle

  /**
   * Growing ring `id` by a new position leaves every old midpoint handle
   * right, provided the growth keeps the predecessor of the handle's owner.
   */
  lemma GrowKeepsMiddle(e: Editor, id: RingId, t: Ring, at: Coord, q: PosId)
    requires Valid(e) && id in e.feature.rings && NoDup(t)
    requires forall x | x in t :: x in e.feature.rings[id] || x == e.feature.nextPos
    requires forall x | x in e.feature.rings[id] :: x in t
    requires q in e.feature.rings[id] ==>
               Previous(t, q, Closed(e.kind)) == Previous(e.feature.rings[id], q, Closed(e.kind))
    ensures MiddleOk(Grown(e, id, t, at), q)
  {
    var g := Grown(e, id, t, at);
    assert MiddleOk(e, q);
    PreviousFrame(e, g, q);
    FreshPosition(e, id);
    MiddleOkFrame(e, g, q);
  }

  /** The successor of `n` has its handle, so `AddVertexMarker` looks it up to rebuild its midpoint handle. */
  lemma NewHandleNext(g: Editor, n: PosId, id: RingId)
    requires WellFormed(g) && id in g.feature.rings && n in g.feature.rings[id]
    requires forall x | x in g.feature.rings[id] && x != n :: x in g.layer.vertices
    ensures var e1 := g.(layer := g.layer.(vertices := g.layer.vertices[n := id]));
            GetNext(AddMiddleMarker(e1, n), n) == Next(g.feature.rings[id], n, Closed(g.kind))
  {
    var nx := Next(g.feature.rings[id], n, Closed(g.kind));
    if nx.Some? {
      assert nx.value in g.feature.rings[id] && nx.value != n;
    }
  }

  /** A new vertex handle for `n` leaves right the midpoint handle of any vertex other than `n` and its successor. */
  lemma NewHandleKeeps(g: Editor, n: PosId, id: RingId, q: PosId)
    requires WellFormed(g) && id in g.feature.rings && n in g.feature.rings[id]
    requires n !in g.layer.vertices && n !in g.layer.middles
    requires forall x | x in g.feature.rings[id] && x != n :: x in g.layer.vertices
    requires forall r | r in g.feature.rings && r != id :: n !in g.feature.rings[r]
    requires q != n && Some(q) != Next(g.feature.rings[id], n, Closed(g.kind)) && MiddleOk(g, q)
    ensures MiddleOk(AddVertexMarker(g, n, id), q)
  {
    var e1 := g.(layer := g.layer.(vertices := g.layer.vertices[n := id]));
    var e2 := AddMiddleMarker(e1, n);
    NewHandleNext(g, n, id);
    NewHandlePrevious(g, n, id, q);
    assert GetPrevious(e2, q) == GetPrevious(e1, q);
    MiddleOkFrame(g, e2, q);
    match GetNext(e2, n)
    case None =>
    case Some(x) =>
      var r := ResetMiddleMarker(e2, x);
      assert r == AddVertexMarker(g, n, id) && x != q;
      MiddleOkFrame(e2, r, q);
  }

  /** Only the successor of `n` gains `n` as its predecessor handle. */
  lemma NewHandlePrevious(g: Editor, n: PosId, id: RingId, q: PosId)
    requires WellFormed(g) && id in g.feature.rings && n in g.feature.rings[id]
    requires n !in g.layer.vertices
    requires forall r | r in g.feature.rings && r != id :: n !in g.feature.rings[r]
    requires q != n && Some(q) != Next(g.feature.rings[id], n, Closed(g.kind))
    ensures GetPrevious(g.(layer := g.layer.(vertices := g.layer.vertices[n := id])), q) == GetPrevious(g, q)
  {
    var c := Closed(g.kind);
    if q in g.layer.vertices {
      var idq := g.layer.vertices[q];
      if Previous(g.feature.rings[idq], q, c) == Some(n) {
        assert idq == id;
        NextPreviousInverse(g.feature.rings[id], n, q, c);
      }
    }
    PreviousFrame(g, g.(layer := g.layer.(vertices := g.layer.vertices[n := id])), q);
  }

  /** The new vertex's own midpoint handle is right. */
  lemma NewHandleOwn(g: Editor, n: PosId, id: RingId)
    requires WellFormed(g) && id in g.feature.rings && n in g.feature.rings[id]
    requires n !in g.layer.middles
    requires forall x | x in g.feature.rings[id] && x != n :: x in g.layer.vertices
    ensures MiddleOk(AddVertexMarker(g, n, id), n)
  {
    var e1 := g.(layer := g.layer.(vertices := g.layer.vertices[n := id]));
    var e2 := AddMiddleMarker(e1, n);
    NewHandleNext(g, n, id);
    MiddleOkFrame(e2, AddVertexMarker(g, n, id), n);
  }

  /** The successor of `n` rebuilds its midpoint handle, which is then right. */
  lemma NewHandleSuccessor(g: Editor, n: PosId, id: RingId)
    requires WellFormed(g) && id in g.feature.rings && n in g.feature.rings[id]
    requires forall x | x in g.feature.rings[id] && x != n :: x in g.layer.vertices
    requires Next(g.feature.rings[id], n, Closed(g.kind)).Some?
    ensures MiddleOk(AddVertexMarker(g, n, id), Next(g.feature.rings[id], n, Closed(g.kind)).value)
  {
    NewHandleNext(g, n, id);
  }

  /**
   * `new VertexMarker` for a position `n` just placed in ring `id`: if every
   * midpoint handle was right except the one owned by `n`'s successor, all
   * of them are right afterwards.
   */
  lemma AddVertexMarkerRestores(g: Editor, n: PosId, id: RingId)
    requires WellFormed(g) && id in g.feature.rings && n in g.feature.rings[id]
    requires n !in g.layer.vertices && n !in g.layer.middles
    requires forall x | x in g.feature.rings[id] && x != n :: x in g.layer.vertices
    requires forall r | r in g.feature.rings && r != id :: n !in g.feature.rings[r]
    requires forall q: PosId | q != n && Some(q) != Next(g.feature.rings[id], n, Closed(g.kind)) :: MiddleOk(g, q)
    ensures forall q :: MiddleOk(AddVertexMarker(g, n, id), q)
  {
    var nx := Next(g.feature.rings[id], n, Closed(g.kind));
    forall q ensures MiddleOk(AddVertexMarker(g, n, id), q) {
      if Some(q) == nx {
        NewHandleSuccessor(g, n, id);
      } else if q == n {
        NewHandleOwn(g, n, id);
      } else {
        NewHandleKeeps(g, n, id, q);
      }
    }
  }

  /** After a growth whose handle is added, every position of every ring has the handle of its ring. */
  lemma GrowOwned(e: Editor, id: RingId, t: Ring, at: Coord)
    requires Valid(e) && id in e.feature.rings && NoDup(t)
    requires forall x | x in t :: x in e.feature.rings[id] || x == e.feature.nextPos
    requires forall x | x in e.feature.rings[id] :: x in t
    requires e.feature.nextPos in t
    ensures Owned(AddVertexMarker(Grown(e, id, t, at), e.feature.nextPos, id))
  {
    var n := e.feature.nextPos;
    var r := AddVertexMarker(Grown(e, id, t, at), n, id);
    FreshPosition(e, id);
    forall r1, x | r1 in r.feature.rings && x in r.feature.rings[r1]
      ensures x in r.layer.vertices && r.layer.vertices[x] == r1
    {
      if r1 != id {
        assert x in e.feature.rings[r1];
        assert x in e.feature.coords;
      } else if x != n {
        assert x in e.feature.rings[id];
      }
    }
  }

  /** The growth hypotheses for all old midpoint handles but the one of `n`'s successor. */
  lemma GrowKeepsMiddles(e: Editor, id: RingId, t: Ring, at: Coord)
    requires Valid(e) && id in e.feature.rings && NoDup(t)
    requires forall x | x in t :: x in e.feature.rings[id] || x == e.feature.nextPos
    requires forall x | x in e.feature.rings[id] :: x in t
    requires e.feature.nextPos in t
    requires forall q | q in e.feature.rings[id] && Some(q) != Next(t, e.feature.nextPos, Closed(e.kind)) ::
               Previous(t, q, Closed(e.kind)) == Previous(e.feature.rings[id], q, Closed(e.kind))
    ensures var g := Grown(e, id, t, at);
            forall q: PosId | q != e.feature.nextPos && Some(q) != Next(t, e.feature.nextPos, Closed(e.kind)) ::
              MiddleOk(g, q)
  {
    var n := e.feature.nextPos;
    forall q: PosId | q != n && Some(q) != Next(t, n, Closed(e.kind))
      ensures MiddleOk(Grown(e, id, t, at), q)
    {
      GrowKeepsMiddle(e, id, t, at, q);
    }
  }

  /** Before its handle is made, the new position of a grown ring is in no other ring and has no handle. */
  lemma GrowUnhandled(e: Editor, id: RingId, t: Ring, at: Coord)
    requires WellFormed(e) && id in e.feature.rings && NoDup(t)
    requires forall x | x in t :: x in e.feature.rings[id] || x == e.feature.nextPos
    requires forall x | x in e.feature.rings[id] :: x in t
    ensures var g, n := Grown(e, id, t, at), e.feature.nextPos;
            && g.feature.rings[id] == t
            && n !in g.layer.vertices && n !in g.layer.middles
            && (forall r | r in g.feature.rings && r != id :: n !in g.feature.rings[r])
  {
    var n := e.feature.nextPos;
    var g := Grown(e, id, t, at);
    FreshPosition(e, id);
    assert n !in e.layer.vertices;
    forall r | r in g.feature.rings && r != id
      ensures n !in g.feature.rings[r]
    {
      assert g.feature.rings[r] == e.feature.rings[r];
      FreshPosition(e, r);
    }
  }

  /** Every old position of a grown ring keeps its vertex handle. */
  lemma GrowHandled(e: Editor, id: RingId, t: Ring, at: Coord)
    requires WellFormed(e) && Owned(e) && id in e.feature.rings && NoDup(t)
    requires forall x | x in t :: x in e.feature.rings[id] || x == e.feature.nextPos
    requires forall x | x in e.feature.rings[id] :: x in t
    ensures forall x | x in t && x != e.feature.nextPos :: x in Grown(e, id, t, at).layer.vertices
  {
    forall x | x in t && x != e.feature.nextPos
      ensures x in e.layer.vertices
    {
      assert x in e.feature.rings[id];
    }
  }

  /** The handle of a grown ring restores every midpoint handle, and the invariant. */
  lemma GrowValid(e: Editor, id: RingId, t: Ring, at: Coord)
    requires Valid(e) && id in e.feature.rings && NoDup(t)
    requires forall x | x in t :: x in e.feature.rings[id] || x == e.feature.nextPos
    requires forall x | x in e.feature.rings[id] :: x in t
    requires e.feature.nextPos in t
    requires forall q | q in e.feature.rings[id] && Some(q) != Next(t, e.feature.nextPos, Closed(e.kind)) ::
               Previous(t, q, Closed(e.kind)) == Previous(e.feature.rings[id], q, Closed(e.kind))
    ensures Valid(AddVertexMarker(Grown(e, id, t, at), e.feature.nextPos, id))
  {
    var g := Grown(e, id, t, at);
    GrowUnhandled(e, id, t, at);
    GrowHandled(e, id, t, at);
    GrowKeepsMiddles(e, id, t, at);
    AddVertexMarkerRestores(g, e.feature.nextPos, id);
    GrowOwned(e, id, t, at);
  }

  lemma AddLatLngValid(e: Editor, at: Coord)
    requires Valid(e) && e.drawn.Some?
    ensures AddLatLng(e, at).Success? && Valid(AddLatLng(e, at).value)
  {
    var id := e.drawn.value;
    var s := e.feature.rings[id];
    var n := e.feature.nextPos;
    var c := Closed(e.kind);
    FreshPosition(e, id);
    var t := if e.drawing == Active(Forward) then Append(s, n) else Prepend(s, n);
    forall q | q in s && Some(q) != Next(t, n, c)
      ensures Previous(t, q, c) == Previous(s, q, c)
    {
      if e.drawing == Active(Forward) {
        AppendKeepsPrevious(s, n, q, c);
      } else {
        PrependKeepsPrevious(s, n, q, c);
      }
    }
    GrowValid(e, id, t, at);
  }

  // ---------------------------------------------------------------------
  // Promoting a midpoint handle

  /** The ring that promotion grows, with the growth hypotheses of `GrowValid`. */
  lemma PromoteGrowth(e: Editor, right: PosId)
    requires Valid(e) && right in e.layer.middles
    ensures var id := e.layer.vertices[right];
            var s := e.feature.rings[id];
            var n := e.feature.nextPos;
            var c := Closed(e.kind);
            var t := Insert(s, IndexOf(s, right), n);
            && id in e.feature.rings && NoDup(t) && n in t
            && (forall x | x in t :: x in s || x == n)
            && (forall x | x in s :: x in t)
            && Next(t, n, c) == Some(right)
            && Previous(t, n, c) == Some(e.layer.middles[right].left)
            && (forall q | q in s && Some(q) != Next(t, n, c) :: Previous(t, q, c) == Previous(s, q, c))
  {
    var left := e.layer.middles[right].left;
    var id := e.layer.vertices[right];
    var s := e.feature.rings[id];
    var n := e.feature.nextPos;
    var c := Closed(e.kind);
    var k := IndexOf(s, right);
    FreshPosition(e, id);
    assert MiddleOk(e, right);
    assert Previous(s, right, c) == Some(left);
    InsertMembers(s, k, n);
    InsertNeighbours(s, k, n, c);
    var t := Insert(s, k, n);
    forall q | q in s && Some(q) != Next(t, n, c)
      ensures Previous(t, q, c) == Previous(s, q, c)
    {
      InsertKeepsPrevious(s, k, n, q, c);
    }
  }

  /**
   * Promotion leaves the new vertex with a midpoint handle towards the old
   * left endpoint, and the right endpoint with one towards the new vertex;
   * the invariant holds.
   */
  lemma PromoteMiddleValid(e: Editor, right: PosId, at: Coord)
    requires Valid(e) && right in e.layer.middles
    ensures var r := PromoteMiddle(e, right, at);
            var n := e.feature.nextPos;
            && Valid(r)
            && n in r.layer.middles && r.layer.middles[n].left == e.layer.middles[right].left
            && right in r.layer.middles && r.layer.middles[right].left == n
  {
    var id := e.layer.vertices[right];
    var s := e.feature.rings[id];
    var n := e.feature.nextPos;
    PromoteGrowth(e, right);
    var t := Insert(s, IndexOf(s, right), n);
    GrowValid(e, id, t, at);
    var r := PromoteMiddle(e, right, at);
    assert MiddleOk(r, n);
  }

  // ---------------------------------------------------------------------
  // Deletion

  /** Unlinking `p` leaves the midpoint handle of every other vertex but its old successor right. */
  lemma UnlinkedKeepsMiddle(e: Editor, p: PosId, q: PosId)
    requires Valid(e) && p in e.layer.vertices && q != p && GetNext(e, p) != Some(q)
    ensures MiddleOk(Unlinked(e, p), q)
  {
    var u := Unlinked(e, p);
    var id := e.layer.vertices[p];
    var s := e.feature.rings[id];
    var c := Closed(e.kind);
    assert MiddleOk(e, q);
    if q in e.layer.vertices {
      var idq := e.layer.vertices[q];
      var x := Previous(e.feature.rings[idq], q, c);
      if idq == id {
        RemoveKeepsPrevious(s, p, q, c);
      }
      if x.Some? {
        assert x.value in e.feature.rings[idq];
      }
    }
    PreviousFrame(e, u, q);
  }

  /** After a deletion every remaining position still has the handle of its ring. */
  lemma DeleteOwned(e: Editor, p: PosId)
    requires WellFormed(e) && Owned(e) && NoDup(e.feature.holes) && p in e.layer.vertices
    ensures Owned(DeleteVertex(e, p))
  {
    OwnedWithout(e, DeleteVertex(e, p), p);
  }

  /** Taking `p` out of its ring and dropping its handle keeps every other position's handle. */
  lemma OwnedWithout(e: Editor, r: Editor, p: PosId)
    requires WellFormed(e) && Owned(e) && p in e.layer.vertices
    requires var id := e.layer.vertices[p];
             r.feature.rings == e.feature.rings[id := Remove(e.feature.rings[id], p)]
    requires r.layer.vertices == e.layer.vertices - {p}
    ensures Owned(r)
  {
    var id := e.layer.vertices[p];
    RemoveMembers(e.feature.rings[id], p);
    forall r1, x | r1 in r.feature.rings && x in r.feature.rings[r1]
      ensures x in r.layer.vertices && r.layer.vertices[x] == r1
    {
      assert x in e.feature.rings[r1];
    }
  }

  /** After a deletion the midpoint handle of every vertex but the old successor is right. */
  lemma DeleteKeepsMiddle(e: Editor, p: PosId, q: PosId)
    requires Valid(e) && p in e.layer.vertices && GetNext(e, p) != Some(q)
    ensures MiddleOk(DeleteVertex(e, p), q)
  {
    var u := Unlinked(e, p);
    if q != p {
      UnlinkedKeepsMiddle(e, p, q);
    }
    MiddleOkFrame(u, DeleteVertex(e, p), q);
  }

  /** A deletion keeps the invariant: the successor rebuilds its midpoint handle across the gap. */
  lemma DeleteVertexValid(e: Editor, p: PosId)
    requires Valid(e) && p in e.layer.vertices
    ensures Valid(DeleteVertex(e, p))
  {
    var r := DeleteVertex(e, p);
    DeleteOwned(e, p);
    forall q: PosId ensures MiddleOk(r, q) {
      if GetNext(e, p) != Some(q) {
        DeleteKeepsMiddle(e, p, q);
      }
    }
  }

  /**
   * Deleting a vertex with a predecessor and a successor joins the two: the
   * successor's midpoint handle now starts at the old predecessor.
   */
  lemma DeleteBridges(e: Editor, p: PosId, o: PosId, q: PosId)
    requires Valid(e) && p in e.layer.vertices && 3 <= |RingOf(e, p)|
    requires GetPrevious(e, p) == Some(o) && GetNext(e, p) == Some(q)
    ensures var r := DeleteVertex(e, p);
            q in r.layer.middles && r.layer.middles[q].left == o
  {
    var r := DeleteVertex(e, p);
    var s := RingOf(e, p);
    NeighboursOfValid(e, p);
    DeleteVertexValid(e, p);
    assert MiddleOk(r, q);
    NeighboursOfValid(r, q);
    RemoveBridgesGap(s, p, Closed(e.kind));
  }

  /**
   * Deleting the last position of a polygon hole takes that hole out of the
   * hole list, keeping the others in order; any other deletion leaves the
   * hole list as it was.
   */
  lemma DeleteHoles(e: Editor, p: PosId)
    requires WellFormed(e) && p in e.layer.vertices && NoDup(e.feature.holes)
    ensures var id := e.layer.vertices[p];
            DeleteVertex(e, p).feature.holes ==
              if e.kind == Polygon && |RingOf(e, p)| == 1 && id != e.feature.outer
              then Without(e.feature.holes, id) else e.feature.holes
  {
    var id := e.layer.vertices[p];
    DropEmptyHoleKeepsOrder(e.feature.holes, id);
    assert DeleteVertex(e, p).feature == Unlinked(e, p).feature;
  }

  /**
   * Deleting a vertex changes the hole list exactly as the code as written
   * does, unless the deleted position was the last of a ring that is
   * neither the outer ring nor listed as a hole any more.
   */
  lemma DeleteHolesAsWritten(e: Editor, p: PosId)
    requires WellFormed(e) && p in e.layer.vertices && NoDup(e.feature.holes)
    requires var id := e.layer.vertices[p];
             id in e.feature.holes || id == e.feature.outer || |RingOf(e, p)| != 1
    ensures var id := e.layer.vertices[p];
            DeleteVertex(e, p).feature.holes ==
              if e.kind == Polygon && |RingOf(e, p)| == 1 && id != e.feature.outer
              then DropEmptyHoleAsWritten(e.feature.holes, id) else e.feature.holes
  {
    var id := e.layer.vertices[p];
    DeleteHoles(e, p);
    if e.kind == Polygon && |RingOf(e, p)| == 1 && id != e.feature.outer {
      DropEmptyHoleKeepsOrder(e.feature.holes, id);
      DropEmptyHoleAgrees(e.feature.holes, id);
    }
  }

  // ---------------------------------------------------------------------
  // Dragging

  /** A drag leaves each midpoint handle joining the same two vertices, shown at their new midpoint. */
  lemma DragKeepsMiddle(e: Editor, p: PosId, at: Coord, q: PosId)
    requires Valid(e) && p in e.layer.vertices
    ensures MiddleOk(Drag(e, p, at), q)
  {
    var r := Drag(e, p, at);
    assert MiddleOk(e, q);
    PreviousFrame(e, r, q);
    if q == p || GetNext(e, p) == Some(q) {
    } else if q in e.layer.middles {
      NextPreviousHandles(e, p, q);
      assert r.layer.middles[q] == e.layer.middles[q];
    }
  }

  lemma DragValid(e: Editor, p: PosId, at: Coord)
    requires Valid(e) && p in e.layer.vertices
    ensures Valid(Drag(e, p, at))
  {
    forall q ensures MiddleOk(Drag(e, p, at), q) {
      DragKeepsMiddle(e, p, at, q);
    }
  }
}
