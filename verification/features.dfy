/**
 * The geometry an editor works on: a marker's position, or a path's outer
 * ring and (for polygons) its hole rings, together with the per-kind
 * constants `CLOSED` and `MIN_VERTEX`.
 */
module Features {
  import opened Wrappers
  import opened Rings
  import opened Coords

  /** The three editor classes: `MarkerEditor`, `PolylineEditor`, `PolygonEditor`. */
  datatype Kind = Marker | Polyline | Polygon

  /** `CLOSED`: only polygon rings wrap around from the last position to the first. */
  predicate Closed(k: Kind) {
    k == Polygon
  }

  /** `MIN_VERTEX`: 2 on `PathEditor`, overridden to 3 by `PolygonEditor`. */
  function MinVertex(k: Kind): nat {
    if k == Polygon then 3 else 2
  }

  /** Identity of one ring array. */
  type RingId = nat

  /**
   * `rings` stores every ring array the feature has had, by identity;
   * `outer` is the feature's own latlngs array and `holes` its `_holes`
   * list.  A hole taken out of `holes` stays in the store, since a handle or
   * the drawn-ring reference may still hold it.  `coords` gives each
   * position object its coordinates; `nextPos` and `nextRing` are where
   * fresh identities come from.  `marker` is a marker's own position.
   */
  datatype Feature = Feature(
    marker: Coord,
    rings: map<RingId, Ring>,
    outer: RingId,
    holes: seq<RingId>,
    coords: map<PosId, Coord>,
    nextPos: PosId,
    nextRing: RingId)

  /** A feature created with no positions, as `createPolyline([])` and `createPolygon([])` make it. */
  function Empty(at: Coord): (f: Feature)
    ensures f.outer in f.rings && f.rings[f.outer] == [] && f.holes == []
    ensures f.coords == map[] && f.rings.Keys == {f.outer}
  {
    Feature(at, map[0 := []], 0, [], map[], 0, 1)
  }

  /** `PolygonEditor.addNewEmptyHole`: a new empty ring appended to the hole list. */
  function AddNewEmptyHole(f: Feature): (r: (Feature, RingId))
    requires forall h | h in f.rings :: h < f.nextRing
    ensures r.1 !in f.rings && r.0.rings == f.rings[r.1 := []]
    ensures r.0.holes == Append(f.holes, r.1)
    ensures NoDup(f.holes) && (forall h | h in f.holes :: h in f.rings) ==> NoDup(r.0.holes)
    ensures r.0.outer == f.outer && r.0.coords == f.coords && r.0.nextPos == f.nextPos
    ensures forall h | h in r.0.rings :: h < r.0.nextRing
  {
    var h := f.nextRing;
    (f.(rings := f.rings[h := []], holes := Append(f.holes, h), nextRing := h + 1), h)
  }

  /**
   * `PolygonEditor.onVertexDeleted` as written: `_holes.splice(_holes.indexOf(ring), 1)`.
   * When the ring is no longer in the list, `indexOf` gives -1 and the
   * splice removes the last hole instead.
   */
  function DropEmptyHoleAsWritten(holes: seq<RingId>, h: RingId): (r: seq<RingId>)
    ensures h in holes ==> |r| == |holes| - 1
    ensures h !in holes && holes != [] ==> r == holes[..|holes| - 1]
  {
    Remove(holes, h)
  }

  /** A ring that is not a hole any more, emptied again, costs the polygon its last hole. */
  lemma DropEmptyHoleAsWrittenLosesHole()
    ensures DropEmptyHoleAsWritten([1], 2) == []
  {
  }

  /** Removes an emptied hole from the hole list, and leaves the list alone when the ring is not in it. */
  function DropEmptyHole(holes: seq<RingId>, h: RingId): (r: seq<RingId>)
    requires NoDup(holes)
    ensures NoDup(r) && h !in r
    ensures forall x :: x in r <==> x in holes && x != h
  {
    RemoveMembers(holes, h);
    if h in holes then Remove(holes, h) else holes
  }

  /** Dropping a hole keeps the other holes in their order. */
  lemma DropEmptyHoleKeepsOrder(holes: seq<RingId>, h: RingId)
    requires NoDup(holes)
    ensures DropEmptyHole(holes, h) == Without(holes, h)
  {
    if h in holes {
      RemoveKeepsOrder(holes, h);
    } else {
      WithoutAbsent(holes, h);
    }
  }
  /**
   * The corrected removal differs from the code as written only for a ring
   * that is no longer in the hole list: for a listed hole both remove it.
   */
  lemma DropEmptyHoleAgrees(holes: seq<RingId>, h: RingId)
    requires NoDup(holes) && h in holes
    ensures DropEmptyHole(holes, h) == DropEmptyHoleAsWritten(holes, h)
  {
  }
}
