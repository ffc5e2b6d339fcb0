/**
 * The two line guides (`L.Editable.forwardLineGuide` and
 * `backwardLineGuide`): dashed preview segments from the anchored end of
 * the line being drawn to the pointer.
 */
module Guides {
  import opened Wrappers
  import opened Coords

  /**
   * Whether the guide is on the edit layer, and its `_latlngs` array: slot 0
   * is the anchor, slot 1 the free end.  A slot may hold `undefined`, which
   * is what anchoring at the first position of an empty line stores.
   */
  datatype Guide = Guide(shown: bool, points: seq<Option<Coord>>)

  /** A fresh guide, as `createLineGuide` builds it. */
  const Unused := Guide(false, [])

  /** The guide has a slot 0, so moves reach it. */
  predicate Anchored(g: Guide) {
    |g.points| > 0
  }

  /** `anchorForwardLineGuide` / `anchorBackwardLineGuide`: writes slot 0. */
  function Anchor(g: Guide, at: Option<Coord>): (r: Guide)
    ensures Anchored(r) && r.points[0] == at
    ensures Anchored(g) ==> |r.points| == |g.points| && r.points[1..] == g.points[1..]
    ensures r.shown == g.shown
  {
    if |g.points| == 0 then g.(points := [at]) else g.(points := g.points[0 := at])
  }

  /** `moveForwardLineGuide` / `moveBackwardLineGuide`: writes slot 1, but only once anchored. */
  function Move(g: Guide, at: Coord): (r: Guide)
    ensures !Anchored(g) ==> r == g
    ensures Anchored(g) ==> 2 <= |r.points| && r.points[0] == g.points[0] && r.points[1] == Some(at)
    ensures Anchored(g) ==> r.points[2..] == if |g.points| < 2 then [] else g.points[2..]
    ensures r.shown == g.shown
  {
    if |g.points| == 0 then g
    else if |g.points| == 1 then g.(points := g.points + [Some(at)])
    else g.(points := g.points[1 := Some(at)])
  }

  /** `attach*LineGuide`: puts the guide on the edit layer, keeping its points. */
  function Attach(g: Guide): (r: Guide)
    ensures r.shown && r.points == g.points
  {
    g.(shown := true)
  }

  /** `detach*LineGuide`: takes the guide off the edit layer and empties it. */
  function Detach(g: Guide): (r: Guide)
    ensures !r.shown && !Anchored(r)
  {
    Unused
  }

  /** A detached guide ignores moves until it is anchored again. */
  lemma MoveAfterDetach(g: Guide, at: Coord, anchor: Option<Coord>)
    ensures Move(Detach(g), at) == Detach(g)
    ensures Move(Anchor(Detach(g), anchor), at).points == [anchor, Some(at)]
  {
  }
}
