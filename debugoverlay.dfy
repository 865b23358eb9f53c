/** frontend/src/DebugOverlay.tsx: the two computations behind the debug
    drawing — which vertex the pointer is closest to, and the forces the
    springs touching a vertex exert on it. `Math.hypot` and `getForce` are
    parameters. */
module DebugOverlay {
  import opened Wrappers
  import opened Mesh
  import opened Springs
  import opened MapBuffers

  /** The distance from vertex i of the state to the point. */
  function DistanceTo(meshState: seq<Vertex>, i: int, point: Point, hypot: (real, real) -> real): real
    requires 0 <= i < |meshState|
  {
    hypot(meshState[i].x - point.x, meshState[i].y - point.y)
  }

  predicate NoneFree(meshState: seq<Vertex>, upTo: int)
    requires 0 <= upTo <= |meshState|
  {
    forall j :: 0 <= j < upTo ==> meshState[j].pinned
  }

  /** Index c is unpinned, no farther than any unpinned vertex before
      `upTo`, and strictly closer than every unpinned vertex before it. */
  predicate ClosestBefore(meshState: seq<Vertex>, c: int, upTo: int, point: Point, hypot: (real, real) -> real)
    requires 0 <= upTo <= |meshState|
  {
    0 <= c < upTo && !meshState[c].pinned &&
    (forall j :: 0 <= j < upTo && !meshState[j].pinned ==>
       DistanceTo(meshState, c, point, hypot) <= DistanceTo(meshState, j, point, hypot)) &&
    (forall j :: 0 <= j < c && !meshState[j].pinned ==>
       DistanceTo(meshState, c, point, hypot) < DistanceTo(meshState, j, point, hypot))
  }

  /** `getClosestMeshPoint`: the running minimum over unpinned vertices with
      a strict comparison; `None` stands for the initial `Infinity`. Returns
      0 when every vertex is pinned (or there is none), and otherwise the
      lowest-indexed unpinned vertex of least distance. */
  method GetClosestMeshPoint(point: Point, meshState: seq<Vertex>, hypot: (real, real) -> real)
    returns (closestIndex: int)
    ensures NoneFree(meshState, |meshState|) ==> closestIndex == 0
    ensures !NoneFree(meshState, |meshState|) ==> ClosestBefore(meshState, closestIndex, |meshState|, point, hypot)
  {
    closestIndex := 0;
    var closestDist: Option<real> := None;
    var i := 0;
    while i < |meshState|
      invariant 0 <= i <= |meshState|
      invariant closestDist.None? <==> NoneFree(meshState, i)
      invariant closestDist.None? ==> closestIndex == 0
      invariant closestDist.Some? ==>
        ClosestBefore(meshState, closestIndex, i, point, hypot) &&
        closestDist.value == DistanceTo(meshState, closestIndex, point, hypot)
    {
      var p := meshState[i];
      if !p.pinned {
        var dist := hypot(p.x - point.x, p.y - point.y);
        if closestDist.None? || dist < closestDist.value {
          closestDist := Some(dist);
          closestIndex := i;
        }
      }
      i := i + 1;
    }
  }

  /** At most one index is the closest in that sense: the answer is
      determined by the state and the point. */
  lemma ClosestIsUnique(meshState: seq<Vertex>, c: int, d: int, point: Point, hypot: (real, real) -> real)
    requires ClosestBefore(meshState, c, |meshState|, point, hypot)
    requires ClosestBefore(meshState, d, |meshState|, point, hypot)
    ensures c == d
  {
  }

  // ---------------------------------------------------------------------
  // getForcesForEntry

  /** The force law `getForce(from, to, length)`, left abstract. */
  type ForceLaw = (Vertex, Vertex, real) -> real

  /** One row of the overlay: the other end of a spring, its force and the
      spring itself. */
  datatype ForceItem = ForceItem(entry: Vertex, force: real, spring: Spring)

  predicate Touches(s: Spring, index: int) {
    s.from == index || s.to == index
  }

  /** The springs that have `index` as one of their ends, in their order. */
  function Touching(springs: seq<Spring>, index: int): seq<Spring> {
    Filter(springs, s => Touches(s, index))
  }

  /** The end of a touching spring that is not `index` (`from` is the one
      compared first; a spring from `index` to itself gives `index`). */
  function OtherEnd(s: Spring, index: int): int {
    if s.from == index then s.to else s.from
  }

  /** Every spring touching `index` has both of its ends in the state. */
  predicate TouchingWithin(meshState: seq<Vertex>, springs: seq<Spring>, index: int) {
    forall k :: 0 <= k < |springs| && Touches(springs[k], index) ==>
      0 <= springs[k].from < |meshState| && 0 <= springs[k].to < |meshState|
  }

  function ForceOf(meshState: seq<Vertex>, s: Spring, index: int, getForce: ForceLaw): ForceItem
    requires Touches(s, index) && 0 <= s.from < |meshState| && 0 <= s.to < |meshState|
  {
    var iTo := OtherEnd(s, index);
    var from := meshState[index];
    var to := meshState[iTo];
    ForceItem(to, getForce(from, to, s.length), s)
  }

  lemma TouchingWithinFiltered(meshState: seq<Vertex>, springs: seq<Spring>, index: int, k: int)
    requires TouchingWithin(meshState, springs, index) && 0 <= k < |Touching(springs, index)|
    ensures var s := Touching(springs, index)[k];
      Touches(s, index) && 0 <= s.from < |meshState| && 0 <= s.to < |meshState|
  {
    var s := Touching(springs, index)[k];
    FilterMembership(springs, s' => Touches(s', index), s);
  }

  /** `getForcesForEntry`. */
  function GetForcesForEntry(meshState: seq<Vertex>, springs: seq<Spring>, index: int, getForce: ForceLaw): seq<ForceItem>
    requires TouchingWithin(meshState, springs, index)
  {
    var t := Touching(springs, index);
    seq(|t|, k requires 0 <= k < |t| =>
      TouchingWithinFiltered(meshState, springs, index, k);
      ForceOf(meshState, t[k], index, getForce))
  }

  /** The items are exactly the touching springs, in order, each paired with
      its far end and the force from vertex `index` to that end. */
  lemma ForcesForEntrySpec(meshState: seq<Vertex>, springs: seq<Spring>, index: int, getForce: ForceLaw)
    requires TouchingWithin(meshState, springs, index)
    ensures var r := GetForcesForEntry(meshState, springs, index, getForce);
      |r| == |Touching(springs, index)| &&
      forall k :: 0 <= k < |r| ==>
        r[k].spring == Touching(springs, index)[k] &&
        Touches(r[k].spring, index) && 0 <= index < |meshState| && 0 <= OtherEnd(r[k].spring, index) < |meshState| &&
        r[k].entry == meshState[OtherEnd(r[k].spring, index)] &&
        r[k].force == getForce(meshState[index], r[k].entry, r[k].spring.length)
  {
    var r := GetForcesForEntry(meshState, springs, index, getForce);
    forall k | 0 <= k < |r| ensures Touches(r[k].spring, index) && 0 <= index < |meshState| && 0 <= OtherEnd(r[k].spring, index) < |meshState| {
      TouchingWithinFiltered(meshState, springs, index, k);
    }
  }

  /** A spring is listed exactly when it touches `index`, and the list
      keeps the springs' order: it distributes over concatenation. */
  lemma TouchingSpec(a: seq<Spring>, b: seq<Spring>, s: Spring, index: int)
    ensures s in Touching(a, index) <==> s in a && (s.from == index || s.to == index)
    ensures Touching(a + b, index) == Touching(a, index) + Touching(b, index)
  {
    FilterMembership(a, s' => Touches(s', index), s);
    FilterConcat(a, b, s' => Touches(s', index));
  }

  /** The far end of a listed spring: its `to` when it starts at `index`,
      its `from` when it ends there. */
  lemma OtherEndOrientation(s: Spring, index: int)
    requires Touches(s, index)
    ensures s.from == index ==> OtherEnd(s, index) == s.to
    ensures s.from != index ==> s.to == index && OtherEnd(s, index) == s.from
    ensures (OtherEnd(s, index) == s.from && s.to == index) || (OtherEnd(s, index) == s.to && s.from == index)
  {
  }
}
