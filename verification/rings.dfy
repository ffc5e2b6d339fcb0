/**
 * Rings: ordered sequences of position identities, the neighbour rules a
 * vertex handle uses on them (`VertexMarker.getIndex`, `getPrevious`,
 * `getNext`), and the array surgery the editors perform on them
 * (`splice`, `push`, `unshift`).
 *
 * Positions are compared by identity, as `Array.prototype.indexOf` compares
 * JavaScript objects, so a ring is a sequence of `PosId`s.
 */
module Rings {
  import opened Wrappers

  /** Identity of one position object. */
  type PosId = nat

  /** An ordered sequence of positions; order defines the segments. */
  type Ring = seq<PosId>

  /** No position object appears twice in the ring: the first is not among the rest, recursively. */
  predicate NoDup(s: Ring) {
    |s| == 0 || (s[0] !in s[1..] && NoDup(s[1..]))
  }

  /** In a duplicate-free ring, distinct indices hold distinct positions. */
  lemma {:induction false} NoDupAt(s: Ring, i: int, j: int)
    ensures NoDup(s) && 0 <= i < |s| && 0 <= j < |s| && i != j ==> s[i] != s[j]
  {
    if NoDup(s) && 0 <= i < |s| && 0 <= j < |s| && i != j {
      if i == 0 {
        assert s[j] == s[1..][j - 1];
      } else if j == 0 {
        assert s[i] == s[1..][i - 1];
      } else {
        NoDupAt(s[1..], i - 1, j - 1);
      }
    }
  }

  /** `NoDupAt` for every pair of indices at once. */
  lemma NoDupIndices(s: Ring)
    requires NoDup(s)
    ensures forall i, j | 0 <= i < j < |s| :: s[i] != s[j]
  {
    forall i, j | 0 <= i < j < |s|
      ensures s[i] != s[j]
    {
      NoDupAt(s, i, j);
    }
  }

  /** A ring whose distinct indices hold distinct positions is duplicate-free. */
  lemma {:induction false} DistinctNoDup(s: Ring)
    requires forall i, j | 0 <= i < j < |s| :: s[i] != s[j]
    ensures NoDup(s)
  {
    if |s| > 0 {
      var u := s[1..];
      forall i, j | 0 <= i < j < |u|
        ensures u[i] != u[j]
      {
        assert u[i] == s[i + 1] && u[j] == s[j + 1];
      }
      DistinctNoDup(u);
      forall k | 0 <= k < |u|
        ensures u[k] != s[0]
      {
        assert u[k] == s[k + 1];
      }
    }
  }

  /** `s.indexOf(p)`: the first index holding `p`, or -1 when `p` is absent. */
  function IndexOf(s: Ring, p: PosId): (r: int)
    ensures -1 <= r < |s|
    ensures 0 <= r ==> s[r] == p
    ensures r == -1 <==> p !in s
  {
    if |s| == 0 then -1
    else if s[0] == p then 0
    else
      var k := IndexOf(s[1..], p);
      if k == -1 then
        assert s == [s[0]] + s[1..];
        -1
      else k + 1
  }

  /** No index before the one `IndexOf` finds holds `p`. */
  lemma {:induction false} IndexOfFirst(s: Ring, p: PosId)
    ensures forall i | 0 <= i < IndexOf(s, p) :: s[i] != p
  {
    if |s| > 0 && s[0] != p {
      IndexOfFirst(s[1..], p);
      forall i | 0 < i < IndexOf(s, p)
        ensures s[i] != p
      {
        assert s[i] == s[1..][i - 1];
      }
    }
  }

  /** In a duplicate-free ring the index of the position at `k` is `k`. */
  lemma {:induction false} IndexOfAt(s: Ring, k: int)
    requires NoDup(s) && 0 <= k < |s|
    ensures IndexOf(s, s[k]) == k
  {
    if k > 0 {
      assert s[k] == s[1..][k - 1];
      IndexOfAt(s[1..], k - 1);
    }
  }

  // ---------------------------------------------------------------------
  // Neighbours

  /**
   * `VertexMarker.getPrevious` on the ring, before the `__vertex` lookup:
   * nothing on rings shorter than two; index 0 wraps to the last index on
   * a closed ring; any index outside the ring yields nothing.
   */
  function Previous(s: Ring, p: PosId, closed: bool): (r: Option<PosId>)
    ensures r.Some? ==> r.value in s
    ensures r.Some? && NoDup(s) ==> r.value != p
    ensures |s| < 2 || p !in s ==> r == None
  {
    if |s| < 2 then None
    else
      var index := IndexOf(s, p);
      var previousIndex := if index == 0 && closed then |s| - 1 else index - 1;
      if 0 <= previousIndex < |s| then
        NoDupAt(s, previousIndex, index);
        Some(s[previousIndex])
      else None
  }

  /**
   * `VertexMarker.getNext` on the ring, before the `__vertex` lookup: the
   * last index wraps to 0 on a closed ring.  A position missing from the
   * ring has index -1, so its "next" is the ring's first position.
   */
  function Next(s: Ring, p: PosId, closed: bool): (r: Option<PosId>)
    ensures r.Some? ==> r.value in s
    ensures r.Some? && NoDup(s) && p in s ==> r.value != p
    ensures |s| < 2 ==> r == None
    ensures p !in s && 2 <= |s| ==> r == Some(s[0])
  {
    if |s| < 2 then None
    else
      var index := IndexOf(s, p);
      var nextIndex := if index == |s| - 1 && closed then 0 else index + 1;
      if 0 <= nextIndex < |s| then
        NoDupAt(s, nextIndex, index);
        Some(s[nextIndex])
      else None
  }

  /** Reference definition of the predecessor of the position at index `k`. */
  function PrevAt(s: Ring, k: nat, closed: bool): Option<PosId>
    requires k < |s|
  {
    if |s| < 2 then None
    else if 0 < k then Some(s[k - 1])
    else if closed then Some(s[|s| - 1])
    else None
  }

  /** Reference definition of the successor of the position at index `k`. */
  function NextAt(s: Ring, k: nat, closed: bool): Option<PosId>
    requires k < |s|
  {
    if |s| < 2 then None
    else if k < |s| - 1 then Some(s[k + 1])
    else if closed then Some(s[0])
    else None
  }

  /** The identity-based neighbour lookups agree with the index-based ones. */
  lemma Adjacency(s: Ring, k: nat, closed: bool)
    requires NoDup(s) && k < |s|
    ensures Previous(s, s[k], closed) == PrevAt(s, k, closed)
    ensures Next(s, s[k], closed) == NextAt(s, k, closed)
  {
    IndexOfAt(s, k);
  }

  /** On a closed ring the first and last positions are each other's neighbours. */
  lemma ClosedRingWraps(s: Ring)
    requires NoDup(s) && 2 <= |s|
    ensures Previous(s, s[0], true) == Some(s[|s| - 1])
    ensures Next(s, s[|s| - 1], true) == Some(s[0])
  {
    Adjacency(s, 0, true);
    Adjacency(s, |s| - 1, true);
  }

  /** On an open ring the first position has no predecessor and the last no successor. */
  lemma OpenRingEnds(s: Ring)
    requires NoDup(s) && 1 <= |s|
    ensures Previous(s, s[0], false) == None
    ensures Next(s, s[|s| - 1], false) == None
  {
    Adjacency(s, 0, false);
    Adjacency(s, |s| - 1, false);
  }

  /** `q` follows `p` exactly when `p` precedes `q`. */
  lemma NextPreviousInverse(s: Ring, p: PosId, q: PosId, closed: bool)
    requires NoDup(s) && p in s
    ensures Next(s, p, closed) == Some(q) <==> Previous(s, q, closed) == Some(p)
  {
    NoDupIndices(s);
    var i := IndexOf(s, p);
    Adjacency(s, i, closed);
    if q in s {
      var j := IndexOf(s, q);
      Adjacency(s, j, closed);
    }
  }

  // ---------------------------------------------------------------------
  // Array surgery

  /** ECMAScript's normalisation of `splice`'s start argument. */
  function SpliceStart(len: nat, start: int): (r: nat)
    ensures r <= len
    ensures 0 <= start <= len ==> r == start
    ensures start < 0 ==> r + 1 >= len + start + 1 && (len + start >= 0 ==> r == len + start)
    ensures start > len ==> r == len
    ensures len + start < 0 ==> r == 0
  {
    if start < 0 then (if len + start < 0 then 0 else len + start)
    else if start < len then start
    else len
  }

  /** `s.splice(k, 1)` for a normalised start `k`: cuts out the position at `k`, if there is one. */
  function Cut(s: Ring, k: nat): (r: Ring)
    requires k <= |s|
    ensures |r| == if k < |s| then |s| - 1 else |s|
  {
    if k < |s| then s[..k] + s[k + 1..] else s
  }

  /** `s.splice(s.indexOf(p), 1)`: removes `p`, and removes the last position when `p` is absent. */
  function Remove(s: Ring, p: PosId): (r: Ring)
    ensures p in s ==> |r| == |s| - 1
    ensures p !in s ==> r == if |s| == 0 then s else s[..|s| - 1]
  {
    var k := SpliceStart(|s|, IndexOf(s, p));
    assert p !in s && 0 < |s| ==> k == |s| - 1 && s[..k] + s[k + 1..] == s[..k];
    Cut(s, k)
  }

  /** Deleting a present position splices it out at its index. */
  lemma RemoveSplit(s: Ring, p: PosId)
    requires p in s
    ensures Remove(s, p) == s[..IndexOf(s, p)] + s[IndexOf(s, p) + 1..]
  {
    assert Remove(s, p) == Cut(s, IndexOf(s, p));
  }

  /** Deleting a present position takes exactly one occurrence of it out of the ring. */
  lemma RemoveCount(s: Ring, p: PosId)
    requires p in s
    ensures multiset(Remove(s, p)) == multiset(s) - multiset{p}
  {
    var i := IndexOf(s, p);
    RemoveSplit(s, p);
    assert s == s[..i] + [p] + s[i + 1..];
  }

  /** Where one surviving position of a deletion lands. */
  lemma RemoveIndex(s: Ring, p: PosId, x: int)
    requires p in s && 0 <= x < |s| - 1
    ensures Remove(s, p)[x] == if x < IndexOf(s, p) then s[x] else s[x + 1]
  {
    var i := IndexOf(s, p);
    RemoveSplit(s, p);
    var a, b := s[..i], s[i + 1..];
    if x < i {
      assert (a + b)[x] == a[x];
    } else {
      assert (a + b)[x] == b[x - i];
    }
  }

  /** Where each surviving position of a deletion lands. */
  lemma RemoveAt(s: Ring, p: PosId)
    requires p in s
    ensures forall x | 0 <= x < |Remove(s, p)| ::
              Remove(s, p)[x] == if x < IndexOf(s, p) then s[x] else s[x + 1]
  {
    RemoveSplit(s, p);
  }

  /** Deleting from a duplicate-free ring keeps it duplicate-free. */
  lemma RemoveDistinct(s: Ring, p: PosId)
    requires NoDup(s)
    ensures NoDup(Remove(s, p))
  {
    var t := Remove(s, p);
    if p in s {
      RemoveAt(s, p);
      var i := IndexOf(s, p);
      forall a, b | 0 <= a < b < |t|
        ensures t[a] != t[b]
      {
        var a' := if a < i then a else a + 1;
        var b' := if b < i then b else b + 1;
        assert t[a] == s[a'] && t[b] == s[b'];
        NoDupAt(s, a', b');
      }
    } else if |s| > 0 {
      forall a, b | 0 <= a < b < |t|
        ensures t[a] != t[b]
      {
        NoDupAt(s, a, b);
      }
    }
    DistinctNoDup(t);
  }

  /** Deleting never brings in a position and, from a duplicate-free ring, leaves no copy of `p`. */
  lemma RemoveOnlyOld(s: Ring, p: PosId, q: PosId)
    requires NoDup(s) && q in Remove(s, p)
    ensures q in s && q != p
  {
    var t := Remove(s, p);
    var a := IndexOf(t, q);
    if p in s {
      var i := IndexOf(s, p);
      RemoveIndex(s, p, a);
      var a' := if a < i then a else a + 1;
      assert s[a'] == q;
      NoDupAt(s, a', i);
    } else {
      assert t[a] == s[a];
    }
  }

  /** Deleting a present position keeps every other one. */
  lemma RemoveKeepsOther(s: Ring, p: PosId, q: PosId)
    requires p in s && q in s && q != p
    ensures q in Remove(s, p)
  {
    var t := Remove(s, p);
    var i := IndexOf(s, p);
    var j := IndexOf(s, q);
    assert s[j] == q && s[i] == p;
    if j < i {
      RemoveIndex(s, p, j);
      assert t[j] == q;
    } else {
      RemoveIndex(s, p, j - 1);
      assert t[j - 1] == q;
    }
  }

  /** Deleting from a duplicate-free ring keeps it duplicate-free and drops exactly `p`. */
  lemma RemoveMembers(s: Ring, p: PosId)
    requires NoDup(s)
    ensures NoDup(Remove(s, p))
    ensures forall q :: q in Remove(s, p) ==> q in s && q != p
    ensures p in s ==> forall q :: q in s && q != p ==> q in Remove(s, p)
  {
    RemoveDistinct(s, p);
    forall q | q in Remove(s, p)
      ensures q in s && q != p
    {
      RemoveOnlyOld(s, p, q);
    }
    if p in s {
      forall q | q in s && q != p
        ensures q in Remove(s, p)
      {
        RemoveKeepsOther(s, p, q);
      }
    }
  }

  /** `s.splice(start, 0, n)`: `n` lands at the normalised start index. */
  function Insert(s: Ring, start: int, n: PosId): (r: Ring)
    ensures |r| == |s| + 1
    ensures 0 <= start <= |s| ==> r[start] == n
  {
    var k := SpliceStart(|s|, start);
    assert s == s[..k] + s[k..];
    s[..k] + [n] + s[k..]
  }

  /** Inserting adds exactly one occurrence of `n` and keeps every other position. */
  lemma InsertCount(s: Ring, start: int, n: PosId)
    ensures multiset(Insert(s, start, n)) == multiset(s) + multiset{n}
  {
    var k := SpliceStart(|s|, start);
    assert s == s[..k] + s[k..];
  }

  /** Where each old position of an insertion lands. */
  lemma InsertAt(s: Ring, k: nat, n: PosId)
    requires k <= |s|
    ensures forall x | 0 <= x < |s| ::
              s[x] == Insert(s, k, n)[if x < k then x else x + 1]
  {
  }

  /** Where each position of an insertion, other than the new one, came from. */
  lemma InsertFrom(s: Ring, k: nat, n: PosId, i: nat)
    requires k <= |s| && i <= |s| && i != k
    ensures Insert(s, k, n)[i] == s[if i < k then i else i - 1]
  {
    assert Insert(s, k, n) == s[..k] + [n] + s[k..];
  }

  /** Inserting a new position keeps a ring duplicate-free and adds exactly `n`. */
  lemma InsertMembers(s: Ring, k: nat, n: PosId)
    requires NoDup(s) && n !in s && k <= |s|
    ensures NoDup(Insert(s, k, n))
    ensures forall q :: q in Insert(s, k, n) <==> q in s || q == n
  {
    var t := Insert(s, k, n);
    assert t == s[..k] + [n] + s[k..];
    assert s == s[..k] + s[k..];
    forall i, j | 0 <= i < j < |t|
      ensures t[i] != t[j]
    {
      if i != k && j != k {
        InsertFrom(s, k, n, i);
        InsertFrom(s, k, n, j);
        NoDupAt(s, if i < k then i else i - 1, if j < k then j else j - 1);
      } else if i == k {
        InsertFrom(s, k, n, j);
      } else {
        InsertFrom(s, k, n, i);
      }
    }
    DistinctNoDup(t);
  }

  /** `s.push(n)`. */
  function Append(s: Ring, n: PosId): (r: Ring)
    ensures |r| == |s| + 1 && r[|s|] == n && r[..|s|] == s
    ensures NoDup(s) && n !in s ==> NoDup(r)
  {
    AppendDistinct(s, n);
    s + [n]
  }

  lemma AppendDistinct(s: Ring, n: PosId)
    ensures NoDup(s) && n !in s ==> NoDup(s + [n])
  {
    if NoDup(s) && n !in s {
      var t := s + [n];
      forall i, j | 0 <= i < j < |t|
        ensures t[i] != t[j]
      {
        NoDupAt(s, i, j);
      }
      DistinctNoDup(t);
    }
  }

  /** `s.unshift(n)`. */
  function Prepend(s: Ring, n: PosId): (r: Ring)
    ensures |r| == |s| + 1 && r[0] == n && r[1..] == s
    ensures NoDup(s) && n !in s ==> NoDup(r)
  {
    [n] + s
  }

  /** Reference definition: the ring with every occurrence of `p` filtered out. */
  function Without(s: Ring, p: PosId): Ring
  {
    if |s| == 0 then []
    else (if s[0] == p then [] else [s[0]]) + Without(s[1..], p)
  }

  /** Deleting a position other than the first leaves the first in front. */
  lemma RemoveCons(s: Ring, p: PosId)
    requires p in s && s[0] != p
    ensures Remove(s, p) == [s[0]] + Remove(s[1..], p)
  {
    var i := IndexOf(s, p);
    var u := s[1..];
    RemoveSplit(s, p);
    RemoveSplit(u, p);
    assert i == IndexOf(u, p) + 1;
    assert s[..i] == [s[0]] + u[..i - 1];
  }

  /** Deleting a position that is present keeps every other position, in order. */
  lemma {:induction false} RemoveKeepsOrder(s: Ring, p: PosId)
    requires NoDup(s) && p in s
    ensures Remove(s, p) == Without(s, p)
  {
    var u := s[1..];
    assert Without(s, p) == (if s[0] == p then [] else [s[0]]) + Without(u, p);
    if s[0] == p {
      WithoutAbsent(u, p);
    } else {
      RemoveCons(s, p);
      RemoveKeepsOrder(u, p);
    }
  }

  lemma {:induction false} WithoutAbsent(s: Ring, p: PosId)
    requires p !in s
    ensures Without(s, p) == s
  {
    if |s| > 0 {
      WithoutAbsent(s[1..], p);
    }
  }

  // ---------------------------------------------------------------------
  // How each edit moves the neighbours of the positions it does not touch

  /**
   * Index form of `RemoveKeepsPrevious`: `t` is `s` with index `i` cut out,
   * and index `j` did not follow `i`.
   */
  lemma ShiftPrevAt(s: Ring, t: Ring, i: nat, j: nat, closed: bool)
    requires i < |s| && j < |s| && i != j && t == s[..i] + s[i + 1..]
    requires NextAt(s, i, closed) != Some(s[j])
    ensures var j' := if j < i then j else j - 1;
            j' < |t| && t[j'] == s[j] && PrevAt(t, j', closed) == PrevAt(s, j, closed)
  {
    var j' := if j < i then j else j - 1;
    assert forall x | 0 <= x < |t| :: t[x] == if x < i then s[x] else s[x + 1];
    if 2 <= |t| {
      if 0 < j' {
        assert t[j' - 1] == s[j - 1];
      } else if i < |s| - 1 {
        assert t[|t| - 1] == s[|s| - 1];
      }
    }
  }

  /**
   * Deleting `p` changes the predecessor of no position except the one that
   * followed `p`.
   */
  lemma RemoveKeepsPrevious(s: Ring, p: PosId, q: PosId, closed: bool)
    requires NoDup(s) && p in s && q in s && q != p
    requires Next(s, p, closed) != Some(q)
    ensures Previous(Remove(s, p), q, closed) == Previous(s, q, closed)
  {
    var i := IndexOf(s, p);
    var j := IndexOf(s, q);
    var t := Remove(s, p);
    RemoveSplit(s, p);
    RemoveDistinct(s, p);
    Adjacency(s, i, closed);
    Adjacency(s, j, closed);
    ShiftPrevAt(s, t, i, j, closed);
    Adjacency(t, if j < i then j else j - 1, closed);
  }

  /**
   * After deleting `p` from a ring of at least three, the position that
   * followed `p` is preceded by the one that preceded `p`.
   */
  lemma RemoveBridgesGap(s: Ring, p: PosId, closed: bool)
    requires NoDup(s) && p in s && 3 <= |s|
    requires Next(s, p, closed).Some? && Previous(s, p, closed).Some?
    ensures Previous(Remove(s, p), Next(s, p, closed).value, closed) == Previous(s, p, closed)
  {
    var i := IndexOf(s, p);
    var t := Remove(s, p);
    RemoveDistinct(s, p);
    RemoveAt(s, p);
    Adjacency(s, i, closed);
    var w := Next(s, p, closed).value;
    if i < |s| - 1 {
      assert w == s[i + 1] && t[i] == w;
      Adjacency(t, i, closed);
      if 0 < i {
        assert t[i - 1] == s[i - 1];
      } else {
        assert t[|t| - 1] == s[|s| - 1];
      }
    } else {
      assert w == s[0] && t[0] == w;
      Adjacency(t, 0, closed);
      assert t[|t| - 1] == s[|s| - 2];
    }
  }

  /** Appending `n` changes the predecessor of no old position except the one that now follows `n`. */
  lemma AppendKeepsPrevious(s: Ring, n: PosId, q: PosId, closed: bool)
    requires NoDup(s) && n !in s && q in s
    requires Next(Append(s, n), n, closed) != Some(q)
    ensures Previous(Append(s, n), q, closed) == Previous(s, q, closed)
  {
    var t := Append(s, n);
    var j := IndexOf(s, q);
    Adjacency(s, j, closed);
    Adjacency(t, j, closed);
    Adjacency(t, |s|, closed);
  }

  /** Prepending `n` changes the predecessor of no old position except the one that now follows `n`. */
  lemma PrependKeepsPrevious(s: Ring, n: PosId, q: PosId, closed: bool)
    requires NoDup(s) && n !in s && q in s
    requires Next(Prepend(s, n), n, closed) != Some(q)
    ensures Previous(Prepend(s, n), q, closed) == Previous(s, q, closed)
  {
    var t := Prepend(s, n);
    var j := IndexOf(s, q);
    Adjacency(s, j, closed);
    Adjacency(t, j + 1, closed);
    Adjacency(t, 0, closed);
  }

  /** Inserting `n` just before `s[k]` makes `s[k]` the successor of `n`. */
  lemma InsertNext(s: Ring, k: nat, n: PosId, closed: bool)
    requires NoDup(s) && n !in s && k < |s|
    ensures Next(Insert(s, k, n), n, closed) == Some(s[k])
  {
    var t := Insert(s, k, n);
    InsertAt(s, k, n);
    InsertMembers(s, k, n);
    Adjacency(t, k, closed);
  }

  /**
   * Inserting `n` just before `s[k]`: `n` is preceded by the old predecessor
   * of `s[k]` and followed by `s[k]`, which is now preceded by `n`.
   */
  lemma InsertNeighbours(s: Ring, k: nat, n: PosId, closed: bool)
    requires NoDup(s) && n !in s && k < |s| && 2 <= |s|
    ensures Previous(Insert(s, k, n), n, closed) == Previous(s, s[k], closed)
    ensures Next(Insert(s, k, n), n, closed) == Some(s[k])
    ensures Previous(Insert(s, k, n), s[k], closed) == Some(n)
  {
    var t := Insert(s, k, n);
    InsertAt(s, k, n);
    InsertMembers(s, k, n);
    Adjacency(s, k, closed);
    Adjacency(t, k, closed);
    Adjacency(t, k + 1, closed);
    if 0 < k {
      assert t[k - 1] == s[k - 1];
    } else {
      assert t[|t| - 1] == s[|s| - 1];
    }
  }

  /** Index form of `InsertKeepsPrevious`: `t` is `s` with `n` put in at index `k`. */
  lemma ShiftInsertPrevAt(s: Ring, t: Ring, k: nat, n: PosId, j: nat, closed: bool)
    requires k < |s| && j < |s| && j != k && t == s[..k] + [n] + s[k..]
    ensures var j' := if j < k then j else j + 1;
            j' < |t| && t[j'] == s[j] && PrevAt(t, j', closed) == PrevAt(s, j, closed)
  {
    if j < k {
      assert t[j] == s[j];
      if 0 < j {
        assert t[j - 1] == s[j - 1];
      } else {
        assert t[|t| - 1] == s[|s| - 1];
      }
    } else {
      assert t[j + 1] == s[j];
      assert t[j] == s[j - 1];
    }
  }

  /** Inserting `n` just before `s[k]` changes the predecessor of no other old position. */
  lemma InsertKeepsPrevious(s: Ring, k: nat, n: PosId, q: PosId, closed: bool)
    requires NoDup(s) && n !in s && k < |s| && q in s && q != s[k]
    ensures Previous(Insert(s, k, n), q, closed) == Previous(s, q, closed)
  {
    var t := Insert(s, k, n);
    InsertMembers(s, k, n);
    var j := IndexOf(s, q);
    Adjacency(s, j, closed);
    assert t == s[..k] + [n] + s[k..];
    ShiftInsertPrevAt(s, t, k, n, j, closed);
    Adjacency(t, if j < k then j else j + 1, closed);
  }
}
