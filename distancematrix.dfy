/** The route-matrix requests of the backend: the chunked full matrix and the
    sparsified, one-origin-at-a-time matrix. The route-matrix API itself is a
    parameter `api`: the entries it answers for a list of origins and a list
    of destinations (with the travel mode and departure time fixed). */
module DistanceMatrix {
  import opened Wrappers
  import opened Locations

  /** What an entry says about its route, left uninterpreted. */
  datatype RouteInfo = RouteInfo(duration: Option<string>, distanceMeters: Option<int>, condition: Option<string>)

  /** One route-matrix entry; either index may be missing from a response. */
  datatype MatrixEntry = MatrixEntry(originIndex: Option<int>, destinationIndex: Option<int>, info: RouteInfo)

  type RouteMatrixApi = (seq<Location>, seq<Location>) -> seq<MatrixEntry>

  /** Each index an entry carries is in range on its own, and an entry that
      names both its origin and its destination describes the route between
      them. */
  predicate EntryFaithful(e: MatrixEntry, origins: seq<Location>, destinations: seq<Location>,
                          route: (Location, Location) -> RouteInfo) {
    (e.originIndex.Some? ==> 0 <= e.originIndex.value < |origins|) &&
    (e.destinationIndex.Some? ==> 0 <= e.destinationIndex.value < |destinations|) &&
    (e.originIndex.Some? && e.destinationIndex.Some? ==>
      e.info == route(origins[e.originIndex.value], destinations[e.destinationIndex.value]))
  }

  predicate AllFaithful(es: seq<MatrixEntry>, origins: seq<Location>, destinations: seq<Location>,
                        route: (Location, Location) -> RouteInfo) {
    forall k :: 0 <= k < |es| ==> EntryFaithful(es[k], origins, destinations, route)
  }

  /** The API answers every request in terms of that request's own lists. */
  ghost predicate Faithful(api: RouteMatrixApi, route: (Location, Location) -> RouteInfo) {
    forall os: seq<Location>, ds: seq<Location> :: AllFaithful(api(os, ds), os, ds, route)
  }

  lemma AllFaithfulConcat(a: seq<MatrixEntry>, b: seq<MatrixEntry>, origins: seq<Location>, destinations: seq<Location>,
                          route: (Location, Location) -> RouteInfo)
    requires AllFaithful(a, origins, destinations, route) && AllFaithful(b, origins, destinations, route)
    ensures AllFaithful(a + b, origins, destinations, route)
  {
    forall k | 0 <= k < |a + b| ensures EntryFaithful((a + b)[k], origins, destinations, route) {
      if k < |a| { assert (a + b)[k] == a[k]; } else { assert (a + b)[k] == b[k - |a|]; }
    }
  }

  // ---------------------------------------------------------------------
  // get_distance_matrix

  /** The side of a chunk; it assumes driving (transit would allow 10). */
  const RootMaxEntries: int := 25
  /** Larger requests are split into chunks. */
  const MaxEntries: int := RootMaxEntries * 2

  function Plus(index: Option<int>, offset: int): Option<int> {
    if index.Some? then Some(index.value + offset) else None
  }

  /** An entry of a chunk moved to the full matrix's indices. */
  function Shift(e: MatrixEntry, di: int, dj: int): (r: MatrixEntry)
    ensures r.info == e.info
    ensures r.originIndex.Some? <==> e.originIndex.Some?
    ensures r.destinationIndex.Some? <==> e.destinationIndex.Some?
    ensures e.originIndex.Some? ==> r.originIndex.value - di == e.originIndex.value
    ensures e.destinationIndex.Some? ==> r.destinationIndex.value - dj == e.destinationIndex.value
  {
    e.(originIndex := Plus(e.originIndex, di), destinationIndex := Plus(e.destinationIndex, dj))
  }

  /** Where a chunk starting at `i` ends. */
  function ChunkEnd(i: int, len: int): int {
    if i + RootMaxEntries <= len then i + RootMaxEntries else len
  }

  /** The answer to the chunk of origins from `i` and destinations from `j`,
      moved to the full matrix's indices. */
  function Block(api: RouteMatrixApi, origins: seq<Location>, destinations: seq<Location>, i: nat, j: nat): seq<MatrixEntry>
    requires i < |origins| && j < |destinations|
  {
    var es := api(origins[i..ChunkEnd(i, |origins|)], destinations[j..ChunkEnd(j, |destinations|)]);
    seq(|es|, k requires 0 <= k < |es| => Shift(es[k], i, j))
  }

  /** The chunks of one band of origins, from destination `j` on. */
  function BandFrom(api: RouteMatrixApi, origins: seq<Location>, destinations: seq<Location>, i: nat, j: nat): seq<MatrixEntry>
    requires i < |origins|
    decreases |destinations| - j
  {
    if j >= |destinations| then [] else Block(api, origins, destinations, i, j) + BandFrom(api, origins, destinations, i, j + RootMaxEntries)
  }

  /** The bands from origin `i` on. */
  function BandsFrom(api: RouteMatrixApi, origins: seq<Location>, destinations: seq<Location>, i: nat): seq<MatrixEntry>
    decreases |origins| - i
  {
    if i >= |origins| then [] else BandFrom(api, origins, destinations, i, 0) + BandsFrom(api, origins, destinations, i + RootMaxEntries)
  }

  /** Everything `get_distance_matrix` yields: one request when the matrix has
      at most 50 elements, otherwise one per 25-by-25 chunk, origin band by
      origin band. */
  function DistanceMatrixOf(api: RouteMatrixApi, origins: seq<Location>, destinations: seq<Location>): seq<MatrixEntry> {
    if |origins| * |destinations| > MaxEntries then BandsFrom(api, origins, destinations, 0)
    else api(origins, destinations)
  }

  /** The entries of a chunk's answer offset in place by the chunk's start. */
  method ShiftEntries(chunk: seq<MatrixEntry>, i: int, j: int) returns (shifted: seq<MatrixEntry>)
    ensures |shifted| == |chunk|
    ensures forall t :: 0 <= t < |chunk| ==> shifted[t] == Shift(chunk[t], i, j)
  {
    shifted := chunk;
    var k := 0;
    while k < |shifted|
      invariant 0 <= k <= |shifted| == |chunk|
      invariant forall t :: 0 <= t < k ==> shifted[t] == Shift(chunk[t], i, j)
      invariant forall t :: k <= t < |chunk| ==> shifted[t] == chunk[t]
    {
      shifted := shifted[k := Shift(shifted[k], i, j)];
      k := k + 1;
    }
  }

  /** The chunks of the band of origins starting at `i`. */
  method GetBand(api: RouteMatrixApi, origins: seq<Location>, destinations: seq<Location>, i: nat)
    returns (band: seq<MatrixEntry>)
    requires i < |origins|
    ensures band == BandFrom(api, origins, destinations, i, 0)
  {
    band := [];
    var j := 0;
    while j < |destinations|
      invariant 0 <= j
      invariant band + BandFrom(api, origins, destinations, i, j) == BandFrom(api, origins, destinations, i, 0)
      decreases |destinations| - j
    {
      var chunk := api(origins[i..ChunkEnd(i, |origins|)], destinations[j..ChunkEnd(j, |destinations|)]);
      chunk := ShiftEntries(chunk, i, j);
      assert chunk == Block(api, origins, destinations, i, j);
      ghost var later := BandFrom(api, origins, destinations, i, j + RootMaxEntries);
      assert BandFrom(api, origins, destinations, i, j) == chunk + later;
      assert band + (chunk + later) == (band + chunk) + later;
      band := band + chunk;
      j := j + RootMaxEntries;
    }
    assert band + [] == band;
  }

  /** `get_distance_matrix`, as the list of all entries it yields. */
  method GetDistanceMatrix(api: RouteMatrixApi, origins: seq<Location>, destinations: seq<Location>)
    returns (entries: seq<MatrixEntry>)
    ensures entries == DistanceMatrixOf(api, origins, destinations)
  {
    if |origins| * |destinations| > MaxEntries {
      entries := [];
      var i := 0;
      while i < |origins|
        invariant 0 <= i
        invariant entries + BandsFrom(api, origins, destinations, i) == BandsFrom(api, origins, destinations, 0)
        decreases |origins| - i
      {
        var band := GetBand(api, origins, destinations, i);
        entries := entries + band;
        i := i + RootMaxEntries;
      }
    } else {
      entries := api(origins, destinations);
    }
  }

  lemma {:induction false} BlockFaithful(api: RouteMatrixApi, route: (Location, Location) -> RouteInfo,
                                         origins: seq<Location>, destinations: seq<Location>, i: nat, j: nat)
    requires Faithful(api, route)
    requires i < |origins| && j < |destinations|
    ensures AllFaithful(Block(api, origins, destinations, i, j), origins, destinations, route)
  {
    var os := origins[i..ChunkEnd(i, |origins|)];
    var ds := destinations[j..ChunkEnd(j, |destinations|)];
    var es := api(os, ds);
    assert AllFaithful(es, os, ds, route);
    var b := Block(api, origins, destinations, i, j);
    forall k | 0 <= k < |b| ensures EntryFaithful(b[k], origins, destinations, route) {
      assert b[k] == Shift(es[k], i, j);
      assert EntryFaithful(es[k], os, ds, route);
      if es[k].originIndex.Some? {
        assert os[es[k].originIndex.value] == origins[i + es[k].originIndex.value];
      }
      if es[k].destinationIndex.Some? {
        assert ds[es[k].destinationIndex.value] == destinations[j + es[k].destinationIndex.value];
      }
    }
  }

  lemma {:induction false} BandFaithful(api: RouteMatrixApi, route: (Location, Location) -> RouteInfo,
                                        origins: seq<Location>, destinations: seq<Location>, i: nat, j: nat)
    requires Faithful(api, route)
    requires i < |origins|
    ensures AllFaithful(BandFrom(api, origins, destinations, i, j), origins, destinations, route)
    decreases |destinations| - j
  {
    if j < |destinations| {
      BlockFaithful(api, route, origins, destinations, i, j);
      BandFaithful(api, route, origins, destinations, i, j + RootMaxEntries);
      AllFaithfulConcat(Block(api, origins, destinations, i, j), BandFrom(api, origins, destinations, i, j + RootMaxEntries),
                        origins, destinations, route);
    }
  }

  lemma {:induction false} BandsFaithful(api: RouteMatrixApi, route: (Location, Location) -> RouteInfo,
                                         origins: seq<Location>, destinations: seq<Location>, i: nat)
    requires Faithful(api, route)
    ensures AllFaithful(BandsFrom(api, origins, destinations, i), origins, destinations, route)
    decreases |origins| - i
  {
    if i < |origins| {
      BandFaithful(api, route, origins, destinations, i, 0);
      BandsFaithful(api, route, origins, destinations, i + RootMaxEntries);
      AllFaithfulConcat(BandFrom(api, origins, destinations, i, 0), BandsFrom(api, origins, destinations, i + RootMaxEntries),
                        origins, destinations, route);
    }
  }

  /** Reindexing the chunks is right: when the API describes each request in
      its own indices, every entry of the combined matrix with both indices
      names an origin and a destination of the full lists and describes the
      route between exactly those two. */
  lemma DistanceMatrixFaithful(api: RouteMatrixApi, route: (Location, Location) -> RouteInfo,
                               origins: seq<Location>, destinations: seq<Location>)
    requires Faithful(api, route)
    ensures AllFaithful(DistanceMatrixOf(api, origins, destinations), origins, destinations, route)
  {
    if |origins| * |destinations| > MaxEntries {
      BandsFaithful(api, route, origins, destinations, 0);
    }
  }

  // ---------------------------------------------------------------------
  // get_sparsified_distance_matrix

  /** The `ValueError`, the failed `assert` and the `KeyError` it can raise. */
  datatype SparseError = NoElements | OriginNotZero | MissingDestination

  /** Which pairs are requested: those `shouldInclude` accepts, less the
      lower triangle when a symmetric matrix is filtered.  `sameObjects` is
      the outcome of Python's `origins == destinations`: `Location` defines
      no equality, so two lists compare equal only when they hold the very
      same objects in the same order; two lists built separately from equal
      coordinates do not, and their mirrored pairs are all requested. */
  function MaskOf(shouldInclude: (Location, Location) -> bool, origins: seq<Location>, destinations: seq<Location>,
                  filterMirrored: bool, sameObjects: bool): seq<seq<bool>>
  {
    seq(|origins|, i requires 0 <= i < |origins| => seq(|destinations|, j requires 0 <= j < |destinations| =>
      shouldInclude(origins[i], destinations[j]) && !(filterMirrored && sameObjects && j < i)))
  }

  /** The in-place loops of `get_sparsified_distance_matrix` that clear the
      lower triangle of a square mask, leaving every other cell as it was. */
  method ClearLowerTriangle(m: seq<seq<bool>>) returns (mask: seq<seq<bool>>)
    requires forall r :: 0 <= r < |m| ==> |m[r]| == |m|
    ensures |mask| == |m| && forall r :: 0 <= r < |m| ==> |mask[r]| == |m|
    ensures forall r, c :: 0 <= r < |m| && 0 <= c < |m| ==> mask[r][c] == (m[r][c] && !(c < r))
  {
    mask := m;
    var i := 0;
    while i < |m|
      invariant 0 <= i <= |m| && |mask| == |m|
      invariant forall r :: 0 <= r < |m| ==> |mask[r]| == |m|
      invariant forall r, c :: 0 <= r < |m| && 0 <= c < |m| ==> mask[r][c] == (m[r][c] && !(r < i && c < r))
    {
      var j := 0;
      while j < i
        invariant 0 <= j <= i && |mask| == |m|
        invariant forall r :: 0 <= r < |m| ==> |mask[r]| == |m|
        invariant forall r, c :: 0 <= r < |m| && 0 <= c < |m| ==>
          mask[r][c] == (m[r][c] && !(r < i && c < r) && !(r == i && c < j))
      {
        var row := mask[i][j := false];
        mask := mask[i := row];
        j := j + 1;
      }
      i := i + 1;
    }
  }

  /** The mask as `get_sparsified_distance_matrix` builds it: a comprehension,
      then the lower triangle cleared in place. */
  method BuildMask(shouldInclude: (Location, Location) -> bool, origins: seq<Location>, destinations: seq<Location>,
                   filterMirrored: bool, sameObjects: bool) returns (mask: seq<seq<bool>>)
    requires sameObjects ==> origins == destinations  // the same objects hold the same values
    ensures mask == MaskOf(shouldInclude, origins, destinations, filterMirrored, sameObjects)
  {
    mask := seq(|origins|, i requires 0 <= i < |origins| => seq(|destinations|, j requires 0 <= j < |destinations| =>
      shouldInclude(origins[i], destinations[j])));
    if filterMirrored && sameObjects {
      mask := ClearLowerTriangle(mask);
    }
    ghost var spec := MaskOf(shouldInclude, origins, destinations, filterMirrored, sameObjects);
    forall r | 0 <= r < |origins| ensures mask[r] == spec[r] {
      assert |mask[r]| == |spec[r]|;
    }
  }

  /** When mirroring is filtered and both lists are the same objects, no
      pair below the diagonal is requested and the diagonal and the pairs
      above it are left to `shouldInclude`; otherwise (in particular for two
      equal lists built apart) the mask is `shouldInclude` itself. */
  lemma MaskShape(shouldInclude: (Location, Location) -> bool, origins: seq<Location>, destinations: seq<Location>,
                  filterMirrored: bool, sameObjects: bool, i: int, j: int)
    requires 0 <= i < |origins| && 0 <= j < |destinations|
    ensures var mask := MaskOf(shouldInclude, origins, destinations, filterMirrored, sameObjects);
      |mask| == |origins| && |mask[i]| == |destinations| &&
      (filterMirrored && sameObjects && j < i ==> !mask[i][j]) &&
      (filterMirrored && sameObjects && i < |destinations| ==> mask[i][i] == shouldInclude(origins[i], destinations[i])) &&
      (filterMirrored && sameObjects && i <= j ==> mask[i][j] == shouldInclude(origins[i], destinations[j])) &&
      (!(filterMirrored && sameObjects) ==> mask[i][j] == shouldInclude(origins[i], destinations[j]))
  {
  }

  /** Python's `sum` of a row of booleans. */
  function CountTrue(row: seq<bool>): nat {
    if |row| == 0 then 0 else CountTrue(row[..|row| - 1]) + (if row[|row| - 1] then 1 else 0)
  }

  /** `n_elements`, the number of requested pairs. */
  function Total(mask: seq<seq<bool>>): nat {
    if |mask| == 0 then 0 else Total(mask[..|mask| - 1]) + CountTrue(mask[|mask| - 1])
  }

  /** The columns a mask row includes, in order. */
  function Included(row: seq<bool>): seq<int> {
    if |row| == 0 then [] else Included(row[..|row| - 1]) + (if row[|row| - 1] then [|row| - 1] else [])
  }

  lemma IncludedLast(row: seq<bool>)
    requires |row| > 0
    ensures Included(row) == Included(row[..|row| - 1]) + (if row[|row| - 1] then [|row| - 1] else [])
  {
  }

  lemma {:induction false} IncludedCount(row: seq<bool>)
    ensures |Included(row)| == CountTrue(row)
  {
    if |row| > 0 {
      IncludedCount(row[..|row| - 1]);
    }
  }

  lemma {:induction false} IncludedSound(row: seq<bool>)
    ensures forall k :: 0 <= k < |Included(row)| ==> 0 <= Included(row)[k] < |row| && row[Included(row)[k]]
  {
    if |row| > 0 {
      var front := row[..|row| - 1];
      IncludedSound(front);
      forall k | 0 <= k < |Included(row)| ensures 0 <= Included(row)[k] < |row| && row[Included(row)[k]] {
        if k < |Included(front)| {
          assert Included(row)[k] == Included(front)[k];
          assert front[Included(front)[k]] == row[Included(front)[k]];
        }
      }
    }
  }

  lemma {:induction false} IncludedIncreasing(row: seq<bool>)
    ensures forall a, b :: 0 <= a < b < |Included(row)| ==> Included(row)[a] < Included(row)[b]
  {
    if |row| > 0 {
      var front := row[..|row| - 1];
      IncludedIncreasing(front);
      IncludedSound(front);
      var inc := Included(row);
      forall a, b | 0 <= a < b < |inc| ensures inc[a] < inc[b] {
        assert inc[a] == Included(front)[a];
        if b < |Included(front)| {
          assert inc[b] == Included(front)[b];
        }
      }
    }
  }

  lemma {:induction false} IncludedComplete(row: seq<bool>)
    ensures forall j :: 0 <= j < |row| && row[j] ==> j in Included(row)
  {
    if |row| > 0 {
      var front := row[..|row| - 1];
      IncludedComplete(front);
      forall j | 0 <= j < |row| && row[j] ensures j in Included(row) {
        if j < |row| - 1 {
          assert front[j] == row[j];
          assert j in Included(front);
        } else {
          assert Included(row)[|Included(row)| - 1] == j;
        }
      }
    }
  }

  /** `Included` lists exactly the included columns, each once and in
      increasing order, and there are `CountTrue` of them. */
  lemma IncludedSpec(row: seq<bool>)
    ensures |Included(row)| == CountTrue(row)
    ensures forall k :: 0 <= k < |Included(row)| ==> 0 <= Included(row)[k] < |row| && row[Included(row)[k]]
    ensures forall a, b :: 0 <= a < b < |Included(row)| ==> Included(row)[a] < Included(row)[b]
    ensures forall j :: 0 <= j < |row| && row[j] ==> j in Included(row)
  {
    IncludedCount(row);
    IncludedSound(row);
    IncludedIncreasing(row);
    IncludedComplete(row);
  }

  /** `cur_destinations`: the destinations the row includes, in order. */
  function CurDestinations(destinations: seq<Location>, row: seq<bool>): (cur: seq<Location>)
    requires |row| == |destinations|
  {
    IncludedSpec(row);
    seq(|Included(row)|, k requires 0 <= k < |Included(row)| => destinations[Included(row)[k]])
  }

  /** A request with any destination is made exactly for a row that
      includes some column. */
  lemma CurDestinationsEmpty(destinations: seq<Location>, row: seq<bool>)
    requires |row| == |destinations|
    ensures |CurDestinations(destinations, row)| == 0 <==> forall j :: 0 <= j < |row| ==> !row[j]
  {
    IncludedSpec(row);
    if |CurDestinations(destinations, row)| == 0 {
    } else {
      assert row[Included(row)[0]];
    }
  }

  /** `reindexing`: the k-th included column's original index. */
  function ReindexingOf(row: seq<bool>): map<int, int> {
    map k | 0 <= k < |Included(row)| :: Included(row)[k]
  }

  lemma ReindexingStep(row: seq<bool>, i: int)
    requires 0 <= i < |row|
    ensures |Included(row[..i + 1])| == |Included(row[..i])| + (if row[i] then 1 else 0)
    ensures ReindexingOf(row[..i + 1]) ==
      if row[i] then ReindexingOf(row[..i])[|Included(row[..i])| := i] else ReindexingOf(row[..i])
  {
    var front := row[..i];
    var next := row[..i + 1];
    assert next[..|next| - 1] == front;
    IncludedLast(next);
  }

  /** The reindexing loop: a new key numbered by the map's size for each
      included column. */
  method Reindexing(row: seq<bool>) returns (reindexing: map<int, int>)
    ensures reindexing == ReindexingOf(row)
  {
    reindexing := map[];
    var i := 0;
    while i < |row|
      invariant 0 <= i <= |row|
      invariant reindexing == ReindexingOf(row[..i])
      invariant |reindexing| == |Included(row[..i])|
    {
      ReindexingStep(row, i);
      if row[i] {
        reindexing := reindexing[|reindexing| := i];
      }
      i := i + 1;
    }
    assert row[..|row|] == row;
  }

  /** The reindexing is a strictly increasing map from 0..n-1, n being the
      number of included columns, onto exactly the included columns. */
  lemma ReindexingSpec(row: seq<bool>)
    ensures forall k :: k in ReindexingOf(row) <==> 0 <= k < CountTrue(row)
    ensures forall k :: k in ReindexingOf(row) ==> 0 <= ReindexingOf(row)[k] < |row| && row[ReindexingOf(row)[k]]
    ensures forall a, b :: a in ReindexingOf(row) && b in ReindexingOf(row) && a < b ==> ReindexingOf(row)[a] < ReindexingOf(row)[b]
    ensures forall j :: 0 <= j < |row| && row[j] ==> exists k :: k in ReindexingOf(row) && ReindexingOf(row)[k] == j
  {
    IncludedSpec(row);
    forall j | 0 <= j < |row| && row[j] ensures exists k :: k in ReindexingOf(row) && ReindexingOf(row)[k] == j {
      var k :| 0 <= k < |Included(row)| && Included(row)[k] == j;
      assert k in ReindexingOf(row);
    }
  }

  /** One entry of a single-origin answer rewritten in place: its origin
      index must be 0 and becomes `iOrigin`, its destination index goes
      through the reindexing. */
  function RewriteEntry(e: MatrixEntry, iOrigin: int, reindexing: map<int, int>): Result<MatrixEntry, SparseError> {
    if e.originIndex.Some? && e.originIndex.value != 0 then Failure(OriginNotZero)
    else
      var e1 := if e.originIndex.Some? then e.(originIndex := Some(iOrigin)) else e;
      if e1.destinationIndex.Some? && e1.destinationIndex.value !in reindexing then Failure(MissingDestination)
      else if e1.destinationIndex.Some? then Success(e1.(destinationIndex := Some(reindexing[e1.destinationIndex.value])))
      else Success(e1)
  }

  /** Entries already produced, followed by the outcome of the rest. */
  function Prepend(done: seq<MatrixEntry>, rest: Result<seq<MatrixEntry>, SparseError>): Result<seq<MatrixEntry>, SparseError> {
    if rest.Failure? then rest else Success(done + rest.value)
  }

  lemma PrependTwice(a: seq<MatrixEntry>, b: seq<MatrixEntry>, rest: Result<seq<MatrixEntry>, SparseError>)
    ensures Prepend(a, Prepend(b, rest)) == Prepend(a + b, rest)
  {
    if rest.Success? {
      assert a + (b + rest.value) == (a + b) + rest.value;
    }
  }

  /** All entries rewritten, or the first entry's error. */
  function RewriteAll(es: seq<MatrixEntry>, iOrigin: int, reindexing: map<int, int>): Result<seq<MatrixEntry>, SparseError> {
    if |es| == 0 then Success([])
    else
      var first := RewriteEntry(es[0], iOrigin, reindexing);
      if first.Failure? then Failure(first.error) else Prepend([first.value], RewriteAll(es[1..], iOrigin, reindexing))
  }

  /** The rewriting loop over one answer. */
  method RewriteEntries(es: seq<MatrixEntry>, iOrigin: int, reindexing: map<int, int>)
    returns (r: Result<seq<MatrixEntry>, SparseError>)
    ensures r == RewriteAll(es, iOrigin, reindexing)
  {
    var entries := es;
    var k := 0;
    assert entries[..0] == [] && es[0..] == es;
    assert Prepend([], RewriteAll(es, iOrigin, reindexing)) == RewriteAll(es, iOrigin, reindexing) by {
      if RewriteAll(es, iOrigin, reindexing).Success? {
        assert [] + RewriteAll(es, iOrigin, reindexing).value == RewriteAll(es, iOrigin, reindexing).value;
      }
    }
    while k < |entries|
      invariant 0 <= k <= |entries| == |es|
      invariant entries[k..] == es[k..]
      invariant RewriteAll(es, iOrigin, reindexing) == Prepend(entries[..k], RewriteAll(es[k..], iOrigin, reindexing))
    {
      assert es[k..][0] == es[k] && es[k..][1..] == es[k + 1..];
      assert entries[k] == entries[k..][0];
      var e := RewriteEntry(entries[k], iOrigin, reindexing);
      if e.Failure? {
        assert RewriteAll(es[k..], iOrigin, reindexing) == Failure(e.error);
        return Failure(e.error);
      }
      PrependTwice(entries[..k], [e.value], RewriteAll(es[k + 1..], iOrigin, reindexing));
      entries := entries[k := e.value];
      assert entries[..k + 1] == entries[..k] + [e.value] by {
        assert entries[..k + 1] == entries[..k] + [entries[k]];
      }
      k := k + 1;
    }
    assert RewriteAll(es[k..], iOrigin, reindexing) == Success([]);
    assert entries[..k] + [] == entries;
    r := Success(entries);
  }

  /** A mask with a row per origin and a column per destination. */
  predicate Shaped(mask: seq<seq<bool>>, origins: seq<Location>, destinations: seq<Location>) {
    |mask| == |origins| && forall i :: 0 <= i < |mask| ==> |mask[i]| == |destinations|
  }

  /** The rewritten answer for origin `i` alone and its included
      destinations; no request when it includes none. */
  function SparseRow(api: RouteMatrixApi, origins: seq<Location>, destinations: seq<Location>, mask: seq<seq<bool>>, i: nat)
    : Result<seq<MatrixEntry>, SparseError>
    requires Shaped(mask, origins, destinations) && i < |origins|
  {
    var cur := CurDestinations(destinations, mask[i]);
    if |cur| == 0 then Success([])
    else RewriteAll(api([origins[i]], cur), i, ReindexingOf(mask[i]))
  }

  /** The rows from origin `i` on, stopping at the first error. */
  function SparseFrom(api: RouteMatrixApi, origins: seq<Location>, destinations: seq<Location>, mask: seq<seq<bool>>, i: nat)
    : Result<seq<MatrixEntry>, SparseError>
    requires Shaped(mask, origins, destinations)
    decreases |origins| - i
  {
    if i >= |origins| then Success([])
    else
      var row := SparseRow(api, origins, destinations, mask, i);
      if row.Failure? then row else Prepend(row.value, SparseFrom(api, origins, destinations, mask, i + 1))
  }

  /** Everything `get_sparsified_distance_matrix` yields, or the error it
      raises (nothing at all is requested when no pair is included). */
  function SparsifiedOf(api: RouteMatrixApi, shouldInclude: (Location, Location) -> bool,
                        origins: seq<Location>, destinations: seq<Location>, filterMirrored: bool, sameObjects: bool)
    : Result<seq<MatrixEntry>, SparseError>
  {
    var mask := MaskOf(shouldInclude, origins, destinations, filterMirrored, sameObjects);
    if Total(mask) == 0 then Failure(NoElements) else SparseFrom(api, origins, destinations, mask, 0)
  }

  /** `get_sparsified_distance_matrix`: one request per origin with any
      included destination, its entries rewritten to the full matrix's
      indices. */
  method GetSparsifiedDistanceMatrix(api: RouteMatrixApi, shouldInclude: (Location, Location) -> bool,
                                     origins: seq<Location>, destinations: seq<Location>, filterMirrored: bool, sameObjects: bool)
    returns (r: Result<seq<MatrixEntry>, SparseError>)
    requires sameObjects ==> origins == destinations
    ensures r == SparsifiedOf(api, shouldInclude, origins, destinations, filterMirrored, sameObjects)
  {
    var mask := BuildMask(shouldInclude, origins, destinations, filterMirrored, sameObjects);
    if Total(mask) == 0 {
      return Failure(NoElements);
    }
    assert Shaped(mask, origins, destinations);
    r := RequestRows(api, origins, destinations, mask);
  }

  /** The loop of `get_sparsified_distance_matrix` over the origins: one
      request per row of the mask that includes any destination, its
      answer rewritten and appended, the first failed rewrite returned. */
  method RequestRows(api: RouteMatrixApi, origins: seq<Location>, destinations: seq<Location>, mask: seq<seq<bool>>)
    returns (r: Result<seq<MatrixEntry>, SparseError>)
    requires Shaped(mask, origins, destinations)
    ensures r == SparseFrom(api, origins, destinations, mask, 0)
  {
    var entries: seq<MatrixEntry> := [];
    var i := 0;
    assert Prepend([], SparseFrom(api, origins, destinations, mask, 0)) == SparseFrom(api, origins, destinations, mask, 0) by {
      if SparseFrom(api, origins, destinations, mask, 0).Success? {
        assert [] + SparseFrom(api, origins, destinations, mask, 0).value == SparseFrom(api, origins, destinations, mask, 0).value;
      }
    }
    while i < |origins|
      invariant 0 <= i <= |origins|
      invariant SparseFrom(api, origins, destinations, mask, 0) == Prepend(entries, SparseFrom(api, origins, destinations, mask, i))
      decreases |origins| - i
    {
      var cur := CurDestinations(destinations, mask[i]);
      ghost var rest := SparseFrom(api, origins, destinations, mask, i + 1);
      if |cur| == 0 {
        assert SparseFrom(api, origins, destinations, mask, i) == Prepend([], rest);
        assert [] + entries == entries;
        PrependTwice(entries, [], SparseFrom(api, origins, destinations, mask, i + 1));
        assert entries + [] == entries;
        i := i + 1;
        continue;
      }
      var reindexing := Reindexing(mask[i]);
      var answer := api([origins[i]], cur);
      var rewritten := RewriteEntries(answer, i, reindexing);
      assert rewritten == SparseRow(api, origins, destinations, mask, i);
      if rewritten.Failure? {
        assert SparseFrom(api, origins, destinations, mask, i) == rewritten;
        return Failure(rewritten.error);
      }
      assert SparseFrom(api, origins, destinations, mask, i) == Prepend(rewritten.value, rest);
      PrependTwice(entries, rewritten.value, rest);
      entries := entries + rewritten.value;
      i := i + 1;
    }
    assert entries + [] == entries;
    r := Success(entries);
  }

  /** An entry naming both ends names a requested pair and describes its
      route. */
  predicate MaskedFaithful(e: MatrixEntry, origins: seq<Location>, destinations: seq<Location>, mask: seq<seq<bool>>,
                           route: (Location, Location) -> RouteInfo)
    requires Shaped(mask, origins, destinations)
  {
    EntryFaithful(e, origins, destinations, route) &&
    (e.originIndex.Some? && e.destinationIndex.Some? && 0 <= e.originIndex.value < |mask| ==>
      0 <= e.destinationIndex.value < |destinations| && mask[e.originIndex.value][e.destinationIndex.value])
  }

  predicate AllMaskedFaithful(es: seq<MatrixEntry>, origins: seq<Location>, destinations: seq<Location>, mask: seq<seq<bool>>,
                              route: (Location, Location) -> RouteInfo)
    requires Shaped(mask, origins, destinations)
  {
    forall k :: 0 <= k < |es| ==> MaskedFaithful(es[k], origins, destinations, mask, route)
  }

  lemma RewriteEntryFaithful(e: MatrixEntry, origins: seq<Location>, destinations: seq<Location>, mask: seq<seq<bool>>,
                             route: (Location, Location) -> RouteInfo, i: nat)
    requires Shaped(mask, origins, destinations) && i < |origins|
    requires EntryFaithful(e, [origins[i]], CurDestinations(destinations, mask[i]), route)
    requires RewriteEntry(e, i, ReindexingOf(mask[i])).Success?
    ensures MaskedFaithful(RewriteEntry(e, i, ReindexingOf(mask[i])).value, origins, destinations, mask, route)
  {
    var row := mask[i];
    IncludedSpec(row);
    var e2 := RewriteEntry(e, i, ReindexingOf(row)).value;
    if e.destinationIndex.Some? {
      var d := e.destinationIndex.value;
      assert CurDestinations(destinations, row)[d] == destinations[Included(row)[d]];
      assert e2.destinationIndex.value == Included(row)[d];
    }
  }

  lemma {:induction false} RewriteAllFaithful(es: seq<MatrixEntry>, origins: seq<Location>, destinations: seq<Location>,
                                              mask: seq<seq<bool>>, route: (Location, Location) -> RouteInfo, i: nat)
    requires Shaped(mask, origins, destinations) && i < |origins|
    requires AllFaithful(es, [origins[i]], CurDestinations(destinations, mask[i]), route)
    requires RewriteAll(es, i, ReindexingOf(mask[i])).Success?
    ensures AllMaskedFaithful(RewriteAll(es, i, ReindexingOf(mask[i])).value, origins, destinations, mask, route)
  {
    if |es| > 0 {
      var cur := CurDestinations(destinations, mask[i]);
      assert EntryFaithful(es[0], [origins[i]], cur, route);
      RewriteEntryFaithful(es[0], origins, destinations, mask, route, i);
      assert AllFaithful(es[1..], [origins[i]], cur, route) by {
        forall k | 0 <= k < |es[1..]| ensures EntryFaithful(es[1..][k], [origins[i]], cur, route) {
          assert es[1..][k] == es[k + 1];
        }
      }
      RewriteAllFaithful(es[1..], origins, destinations, mask, route, i);
      var first := RewriteEntry(es[0], i, ReindexingOf(mask[i])).value;
      var rest := RewriteAll(es[1..], i, ReindexingOf(mask[i])).value;
      assert RewriteAll(es, i, ReindexingOf(mask[i])).value == [first] + rest;
      forall k | 0 <= k < |[first] + rest| ensures MaskedFaithful(([first] + rest)[k], origins, destinations, mask, route) {
        if k > 0 { assert ([first] + rest)[k] == rest[k - 1]; }
      }
    }
  }

  lemma {:induction false} SparseFromFaithful(api: RouteMatrixApi, route: (Location, Location) -> RouteInfo,
                                              origins: seq<Location>, destinations: seq<Location>, mask: seq<seq<bool>>, i: nat)
    requires Faithful(api, route)
    requires Shaped(mask, origins, destinations)
    requires SparseFrom(api, origins, destinations, mask, i).Success?
    ensures AllMaskedFaithful(SparseFrom(api, origins, destinations, mask, i).value, origins, destinations, mask, route)
    decreases |origins| - i
  {
    if i < |origins| {
      var cur := CurDestinations(destinations, mask[i]);
      var row := SparseRow(api, origins, destinations, mask, i);
      if |cur| > 0 {
        assert AllFaithful(api([origins[i]], cur), [origins[i]], cur, route);
        RewriteAllFaithful(api([origins[i]], cur), origins, destinations, mask, route, i);
      }
      SparseFromFaithful(api, route, origins, destinations, mask, i + 1);
      var rest := SparseFrom(api, origins, destinations, mask, i + 1).value;
      assert SparseFrom(api, origins, destinations, mask, i).value == row.value + rest;
      forall k | 0 <= k < |row.value + rest|
        ensures MaskedFaithful((row.value + rest)[k], origins, destinations, mask, route)
      {
        if k < |row.value| { assert (row.value + rest)[k] == row.value[k]; }
        else { assert (row.value + rest)[k] == rest[k - |row.value|]; }
      }
    }
  }

  /** The reindexing is right: when the API describes each request in its
      own indices, every entry of the sparsified matrix with both indices
      names a pair the mask requested and describes the route between
      exactly that origin and destination of the full lists. */
  lemma SparsifiedFaithful(api: RouteMatrixApi, route: (Location, Location) -> RouteInfo,
                           shouldInclude: (Location, Location) -> bool, origins: seq<Location>, destinations: seq<Location>,
                           filterMirrored: bool, sameObjects: bool)
    requires Faithful(api, route)
    ensures var mask := MaskOf(shouldInclude, origins, destinations, filterMirrored, sameObjects);
      var r := SparsifiedOf(api, shouldInclude, origins, destinations, filterMirrored, sameObjects);
      Shaped(mask, origins, destinations) &&
      (r.Failure? <==> Total(mask) == 0 || SparseFrom(api, origins, destinations, mask, 0).Failure?) &&
      (r.Success? ==> AllMaskedFaithful(r.value, origins, destinations, mask, route))
  {
    var mask := MaskOf(shouldInclude, origins, destinations, filterMirrored, sameObjects);
    if Total(mask) != 0 && SparseFrom(api, origins, destinations, mask, 0).Success? {
      SparseFromFaithful(api, route, origins, destinations, mask, 0);
    }
  }

  /** What the rewrite does to one entry: it fails exactly when the origin
      index is present and not 0, or the destination index is present and
      not a reindexed column (the origin check first); otherwise the route is
      kept, the origin index becomes `iOrigin` and the destination index its
      original column. */
  lemma RewriteEntrySpec(e: MatrixEntry, iOrigin: int, reindexing: map<int, int>)
    ensures var r := RewriteEntry(e, iOrigin, reindexing);
      (r.Success? <==> (e.originIndex.Some? ==> e.originIndex.value == 0) &&
                       (e.destinationIndex.Some? ==> e.destinationIndex.value in reindexing)) &&
      (e.originIndex.Some? && e.originIndex.value != 0 ==> r == Failure(OriginNotZero)) &&
      (r.Failure? ==> r.error != NoElements) &&
      (r.Success? ==>
        r.value.info == e.info &&
        r.value.originIndex == (if e.originIndex.Some? then Some(iOrigin) else None) &&
        r.value.destinationIndex == (if e.destinationIndex.Some? then Some(reindexing[e.destinationIndex.value]) else None))
  {
  }

  lemma {:induction false} RewriteAllError(es: seq<MatrixEntry>, iOrigin: int, reindexing: map<int, int>)
    ensures RewriteAll(es, iOrigin, reindexing).Failure? ==> RewriteAll(es, iOrigin, reindexing).error != NoElements
  {
    if |es| > 0 {
      RewriteEntrySpec(es[0], iOrigin, reindexing);
      RewriteAllError(es[1..], iOrigin, reindexing);
    }
  }

  lemma {:induction false} SparseFromError(api: RouteMatrixApi, origins: seq<Location>, destinations: seq<Location>,
                                           mask: seq<seq<bool>>, i: nat)
    requires Shaped(mask, origins, destinations)
    ensures SparseFrom(api, origins, destinations, mask, i).Failure? ==> SparseFrom(api, origins, destinations, mask, i).error != NoElements
    decreases |origins| - i
  {
    if i < |origins| {
      var cur := CurDestinations(destinations, mask[i]);
      if |cur| > 0 {
        RewriteAllError(api([origins[i]], cur), i, ReindexingOf(mask[i]));
      }
      SparseFromError(api, origins, destinations, mask, i + 1);
    }
  }

  /** "No elements to include" is raised exactly when the mask requests no
      pair; the other errors come from rewriting an answer. */
  lemma NoElementsExactly(api: RouteMatrixApi, shouldInclude: (Location, Location) -> bool,
                          origins: seq<Location>, destinations: seq<Location>, filterMirrored: bool, sameObjects: bool)
    ensures var r := SparsifiedOf(api, shouldInclude, origins, destinations, filterMirrored, sameObjects);
      r == Failure(NoElements) <==> Total(MaskOf(shouldInclude, origins, destinations, filterMirrored, sameObjects)) == 0
  {
    SparseFromError(api, origins, destinations, MaskOf(shouldInclude, origins, destinations, filterMirrored, sameObjects), 0);
  }
}
