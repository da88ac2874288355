// The range of offsets at which a stencil reads a grid (class StencilRange in
// translator/stencil_range.cc), and the halo widths that follow from it.
module StencilRange {

  // Position of a read in one dimension of a grid: the loop index it uses,
  // counted from 1, and the offset added to it.
  datatype StencilIndex = StencilIndex(dim: int, offset: int)

  // One read: an index for every dimension of the grid.
  type StencilIndexList = seq<StencilIndex>

  ghost predicate Regular(list: StencilIndexList) {
    forall i | 0 <= i < |list| :: list[i].dim == i + 1
  }

  function NonZero(list: StencilIndexList): nat {
    if |list| == 0 then 0 else NonZero(list[..|list| - 1]) + (if list[|list| - 1].offset != 0 then 1 else 0)
  }

  lemma {:induction false} NonZeroBounds(list: StencilIndexList, i: nat)
    requires i < |list|
    ensures list[i].offset != 0 ==> NonZero(list) >= 1
  {
    if i < |list| - 1 {
      NonZeroBounds(list[..|list| - 1], i);
    }
  }

  // More than one offset is non-zero exactly if two of them are.
  lemma {:induction false} NonZeroIsDiagonal(list: StencilIndexList)
    ensures NonZero(list) > 1 <==>
      exists i, j :: 0 <= i < j < |list| && list[i].offset != 0 && list[j].offset != 0
    ensures NonZero(list) > 0 ==> exists i :: 0 <= i < |list| && list[i].offset != 0
  {
    if |list| > 0 {
      var init, last := list[..|list| - 1], |list| - 1;
      NonZeroIsDiagonal(init);
      if NonZero(list) > 1 && NonZero(init) <= 1 {
        var i :| 0 <= i < |init| && init[i].offset != 0;
        assert list[i].offset != 0 && list[last].offset != 0;
      } else if NonZero(init) > 1 {
        var i, j :| 0 <= i < j < |init| && init[i].offset != 0 && init[j].offset != 0;
        assert list[i].offset != 0 && list[j].offset != 0;
      }
      if NonZero(list) == 1 && NonZero(init) == 1 {
        var i :| 0 <= i < |init| && init[i].offset != 0;
        assert list[i].offset != 0;
      }
      forall i, j | 0 <= i < j < |list| && list[i].offset != 0 && list[j].offset != 0 ensures NonZero(list) > 1 {
        if j == last {
          NonZeroBounds(init, i);
        } else {
          assert init[i].offset != 0 && init[j].offset != 0;
        }
      }
    }
  }

  // StencilIndexSelf and StencilIndexRegularOrder.
  method StencilIndexSelf(sil: StencilIndexList, numDims: nat) returns (b: bool)
    ensures b <==> |sil| == numDims && Regular(sil) && forall i | 0 <= i < |sil| :: sil[i].offset == 0
  {
    if |sil| != numDims {
      return false;
    }
    for i := 0 to |sil|
      invariant forall j | 0 <= j < i :: sil[j].dim == j + 1 && sil[j].offset == 0
    {
      if sil[i].dim != i + 1 || sil[i].offset != 0 {
        return false;
      }
    }
    return true;
  }

  method StencilIndexRegularOrder(sil: StencilIndexList, numDims: nat) returns (b: bool)
    ensures b <==> |sil| == numDims && Regular(sil)
  {
    if |sil| != numDims {
      return false;
    }
    for i := 0 to |sil|
      invariant forall j | 0 <= j < i :: sil[j].dim == j + 1
    {
      if sil[i].dim != i + 1 {
        return false;
      }
    }
    return true;
  }

  // StencilIndexListInitSelf starts at 1 and stops before numDims: its list is
  // one entry short, so that StencilIndexSelf never accepts it.
  method StencilIndexListInitSelf(numDims: nat) returns (sil: StencilIndexList)
    ensures |sil| == (if numDims == 0 then 0 else numDims - 1)
    ensures Regular(sil) && forall i | 0 <= i < |sil| :: sil[i].offset == 0
    ensures |sil| == numDims <==> numDims == 0
  {
    sil := [];
    var i := 1;
    while i < numDims
      invariant |sil| == i - 1 && (numDims > 0 ==> i <= numDims) && (numDims == 0 ==> i == 1)
      invariant Regular(sil) && forall j | 0 <= j < |sil| :: sil[j].offset == 0
    {
      sil := sil + [StencilIndex(i, 0)];
      i := i + 1;
    }
  }

  // -------------------------------------------------------------- buckets

  // a is at least as extreme as b.
  predicate AtLeast(a: StencilIndex, b: StencilIndex, isMin: bool) {
    if isMin then a.offset <= b.offset else a.offset >= b.offset
  }

  function DimsOf(list: StencilIndexList): (s: seq<int>)
    ensures |s| == |list| && forall k | 0 <= k < |s| :: s[k] == list[k].dim
  {
    seq(|list|, k requires 0 <= k < |list| => list[k].dim)
  }

  function WithDim(dims: seq<int>, d: int): seq<int> {
    if d in dims then dims else dims + [d]
  }

  // The bucket holds, for every loop index among the reads seen, the attained
  // extreme of their offsets, and nothing else.
  ghost predicate Extremes(list: StencilIndexList, seen: set<StencilIndex>, isMin: bool) {
    && (forall j, k | 0 <= j < k < |list| :: list[j].dim != list[k].dim)
    && (forall k | 0 <= k < |list| :: list[k] in seen)
    && (forall k, x | 0 <= k < |list| && x in seen && x.dim == list[k].dim :: AtLeast(list[k], x, isMin))
    && (forall x | x in seen :: x.dim in DimsOf(list))
  }

  // One half of StencilRange::insert.
  method InsertExtreme(list: StencilIndexList, si: StencilIndex, isMin: bool, ghost seen: set<StencilIndex>)
    returns (r: StencilIndexList)
    requires Extremes(list, seen, isMin)
    ensures Extremes(r, seen + {si}, isMin) && DimsOf(r) == WithDim(DimsOf(list), si.dim)
  {
    for k := 0 to |list|
      invariant forall j | 0 <= j < k :: list[j].dim != si.dim
    {
      if list[k].dim == si.dim {
        r := if AtLeast(list[k], si, isMin) then list else list[k := si];
        ReplacedExtreme(list, k, si, isMin, seen);
        return;
      }
    }
    r := list + [si];
    AddedExtreme(list, si, isMin, seen);
  }

  lemma ReplacedExtreme(list: StencilIndexList, k: nat, si: StencilIndex, isMin: bool, seen: set<StencilIndex>)
    requires Extremes(list, seen, isMin) && k < |list| && list[k].dim == si.dim
    ensures var r := if AtLeast(list[k], si, isMin) then list else list[k := si];
      Extremes(r, seen + {si}, isMin) && DimsOf(r) == WithDim(DimsOf(list), si.dim)
  {
    assert DimsOf(list)[k] == si.dim;
    assert DimsOf(list[k := si]) == DimsOf(list);
  }

  lemma AddedExtreme(list: StencilIndexList, si: StencilIndex, isMin: bool, seen: set<StencilIndex>)
    requires Extremes(list, seen, isMin) && forall j | 0 <= j < |list| :: list[j].dim != si.dim
    ensures Extremes(list + [si], seen + {si}, isMin) && DimsOf(list + [si]) == WithDim(DimsOf(list), si.dim)
  {
    var r := list + [si];
    assert DimsOf(r) == DimsOf(list) + [si.dim];
    forall x | x in seen ensures x.dim in DimsOf(r) {
      assert x.dim in DimsOf(list);
    }
    assert DimsOf(r)[|list|] == si.dim;
  }

  // Inserting the extremes of other reads is as good as inserting them all.
  lemma ExtremesSuffice(r: StencilIndexList, seen: set<StencilIndex>, extra: set<StencilIndex>, other: StencilIndexList,
                        theirs: set<StencilIndex>, isMin: bool)
    requires Extremes(r, seen + extra, isMin) && Extremes(other, theirs, isMin)
    requires extra <= theirs && forall k | 0 <= k < |other| :: other[k] in extra
    ensures Extremes(r, seen + theirs, isMin)
  {
    forall x | x in theirs ensures x.dim in DimsOf(r) {
      var k :| 0 <= k < |other| && DimsOf(other)[k] == x.dim;
      assert other[k] in seen + extra;
    }
    forall k, x | 0 <= k < |r| && x in theirs && x.dim == r[k].dim ensures AtLeast(r[k], x, isMin) {
      var j :| 0 <= j < |other| && DimsOf(other)[j] == x.dim;
      assert other[j] in seen + extra && AtLeast(other[j], x, isMin);
    }
    forall k | 0 <= k < |r| ensures r[k] in seen + theirs {
      assert r[k] in seen + extra;
    }
  }

  // The two buckets of a position: minima and maxima.
  datatype Bucket = Bucket(min: StencilIndexList, max: StencilIndexList) {
    ghost predicate Holds(seen: set<StencilIndex>) {
      Extremes(min, seen, true) && Extremes(max, seen, false) && DimsOf(min) == DimsOf(max)
    }
  }

  // StencilRange::insert for one position; after are the reads seen with si.
  method InsertIndex(b: Bucket, si: StencilIndex, ghost seen: set<StencilIndex>, ghost after: set<StencilIndex>)
    returns (r: Bucket)
    requires b.Holds(seen) && after == seen + {si}
    ensures r.Holds(after)
  {
    var min := InsertExtreme(b.min, si, true, seen);
    var max := InsertExtreme(b.max, si, false, seen);
    r := Bucket(min, max);
  }

  ghost function AsSet(list: StencilIndexList): set<StencilIndex> {
    set x | x in list
  }

  lemma AsSetSnoc(list: StencilIndexList, k: nat)
    requires k < |list|
    ensures AsSet(list[..k + 1]) == AsSet(list[..k]) + {list[k]}
  {
    assert list[..k + 1] == list[..k] + [list[k]];
  }

  method InsertMany(b: Bucket, list: StencilIndexList, ghost seen: set<StencilIndex>, ghost after: set<StencilIndex>)
    returns (r: Bucket)
    requires b.Holds(seen) && after == seen + AsSet(list)
    ensures r.Holds(after)
  {
    r := b;
    ghost var now := seen;
    for k := 0 to |list|
      invariant r.Holds(now) && now == seen + AsSet(list[..k])
    {
      AsSetSnoc(list, k);
      ghost var next := now + {list[k]};
      r := InsertIndex(r, list[k], now, next);
      now := next;
    }
    assert list[..|list|] == list;
    assert now == after;
  }

  // The part of merge that concerns one position.
  method MergeBucket(b: Bucket, other: Bucket, ghost seen: set<StencilIndex>, ghost theirs: set<StencilIndex>,
                     ghost after: set<StencilIndex>) returns (r: Bucket)
    requires b.Holds(seen) && other.Holds(theirs) && after == seen + theirs
    ensures r.Holds(after)
  {
    ghost var extra := AsSet(other.min) + AsSet(other.max);
    r := InsertMany(b, other.min, seen, seen + AsSet(other.min));
    r := InsertMany(r, other.max, seen + AsSet(other.min), seen + extra);
    MergedExtremes(r, other, seen, extra, theirs, after);
  }

  lemma MergedExtremes(r: Bucket, other: Bucket, seen: set<StencilIndex>, extra: set<StencilIndex>,
                       theirs: set<StencilIndex>, after: set<StencilIndex>)
    requires r.Holds(seen + extra) && other.Holds(theirs) && after == seen + theirs
    requires extra == AsSet(other.min) + AsSet(other.max)
    ensures r.Holds(after)
  {
    ExtremesSuffice(r.min, seen, extra, other.min, theirs, true);
    ExtremesSuffice(r.max, seen, extra, other.max, theirs, false);
  }

  // -------------------------------------------------------------- ranges

  // The indices that the reads have at a position.
  ghost function SeenAt(lists: seq<StencilIndexList>, i: nat): set<StencilIndex> {
    set l: StencilIndexList | l in lists && i < |l| :: l[i]
  }

  lemma SeenAppend(a: seq<StencilIndexList>, b: seq<StencilIndexList>, i: nat)
    ensures SeenAt(a + b, i) == SeenAt(a, i) + SeenAt(b, i)
  {
    forall x | x in SeenAt(a, i) + SeenAt(b, i) ensures x in SeenAt(a + b, i) {
      var l :| (l in a || l in b) && i < |l| && l[i] == x;
      assert l in a + b;
    }
  }

  lemma SeenOne(list: StencilIndexList, i: nat)
    requires i < |list|
    ensures SeenAt([list], i) == {list[i]}
  {
    assert list in [list];
  }

  ghost predicate BucketsHold(buckets: seq<Bucket>, lists: seq<StencilIndexList>) {
    forall i | 0 <= i < |buckets| :: buckets[i].Holds(SeenAt(lists, i))
  }

  ghost predicate Diagonal(lists: seq<StencilIndexList>) {
    exists l: StencilIndexList :: l in lists && NonZero(l) > 1
  }

  lemma DiagonalAppend(a: seq<StencilIndexList>, b: seq<StencilIndexList>)
    ensures Diagonal(a + b) <==> Diagonal(a) || Diagonal(b)
  {
    if Diagonal(a) {
      var l :| l in a && NonZero(l) > 1;
      assert l in a + b;
    }
    if Diagonal(b) {
      var l :| l in b && NonZero(l) > 1;
      assert l in a + b;
    }
  }

  method InsertList(buckets: seq<Bucket>, list: StencilIndexList, ghost lists: seq<StencilIndexList>)
    returns (r: seq<Bucket>, nonZero: nat)
    requires |buckets| == |list| && BucketsHold(buckets, lists)
    ensures |r| == |buckets| && BucketsHold(r, lists + [list]) && nonZero == NonZero(list)
  {
    r, nonZero := [], 0;
    for i := 0 to |list|
      invariant |r| == i && BucketsHold(r, lists + [list]) && nonZero == NonZero(list[..i])
    {
      SeenAppend(lists, [list], i);
      SeenOne(list, i);
      var b := InsertIndex(buckets[i], list[i], SeenAt(lists, i), SeenAt(lists + [list], i));
      r := r + [b];
      assert list[..i + 1][..i] == list[..i];
      if list[i].offset != 0 {
        nonZero := nonZero + 1;
      }
    }
    assert list[..|list|] == list;
  }

  method MergeBuckets(buckets: seq<Bucket>, others: seq<Bucket>, ghost lists: seq<StencilIndexList>,
                      ghost theirs: seq<StencilIndexList>) returns (r: seq<Bucket>)
    requires |buckets| == |others| && BucketsHold(buckets, lists) && BucketsHold(others, theirs)
    ensures |r| == |buckets| && BucketsHold(r, lists + theirs)
  {
    r := [];
    for i := 0 to |buckets|
      invariant |r| == i && BucketsHold(r, lists + theirs)
    {
      SeenAppend(lists, theirs, i);
      var b := MergeBucket(buckets[i], others[i], SeenAt(lists, i), SeenAt(theirs, i), SeenAt(lists + theirs, i));
      r := r + [b];
    }
  }

  class StencilRange {
    var numDims: nat
    var buckets: seq<Bucket>            // min_indices_ and max_indices_
    var diagonal: bool
    var allIndices: seq<StencilIndexList>
    ghost var lists: seq<StencilIndexList>   // all reads inserted or merged

    // The buckets hold the attained extremes of all reads, and the flag says
    // whether one of them is diagonal.
    ghost predicate Valid()
      reads this
    {
      && numDims == |buckets| > 0
      && (forall l: StencilIndexList | l in lists :: |l| == numDims)
      && (forall l: StencilIndexList | l in allIndices :: l in lists)
      && BucketsHold(buckets, lists)
      && (diagonal <==> Diagonal(lists))
    }

    constructor (numDims: nat)
      requires numDims > 0
      ensures Valid() && this.numDims == numDims && lists == []
    {
      this.numDims := numDims;
      buckets := seq(numDims, i => Bucket([], []));
      diagonal, allIndices, lists := false, [], [];
    }

    method Insert(si: StencilIndexList)
      requires Valid() && |si| == numDims
      modifies this
      ensures Valid() && numDims == old(numDims) && lists == old(lists) + [si]
    {
      var bs, nonZero := InsertList(buckets, si, lists);
      DiagonalAppend(lists, [si]);
      assert Diagonal([si]) <==> NonZero(si) > 1 by {
        assert si in [si];
      }
      buckets, diagonal := bs, diagonal || nonZero > 1;
      allIndices := allIndices + [si];
      lists := lists + [si];
    }

    method Merge(sr: StencilRange)
      requires Valid() && sr.Valid() && sr != this && sr.numDims == numDims
      modifies this
      ensures Valid() && numDims == old(numDims) && lists == old(lists) + sr.lists
    {
      var bs := MergeBuckets(buckets, sr.buckets, lists, sr.lists);
      DiagonalAppend(lists, sr.lists);
      buckets, diagonal := bs, diagonal || sr.diagonal;
      lists := lists + sr.lists;
    }

    // Every read uses, in each dimension, the loop index of that dimension.
    // Only the minima are looked at.
    method IsNeighborAccess() returns (b: bool)
      requires Valid()
      ensures b <==> lists != [] && forall l: StencilIndexList | l in lists :: Regular(l)
    {
      b := NeighborBuckets(buckets, lists);
    }

    // Offsets of all reads, per dimension, if they are in regular order.
    method GetNeighborAccess() returns (b: bool, offsetMin: seq<int>, offsetMax: seq<int>)
      requires Valid()
      ensures b <==> lists != [] && forall l: StencilIndexList | l in lists :: Regular(l)
      ensures b ==> |offsetMin| == |offsetMax| == numDims && ExactRange(lists, offsetMin, offsetMax)
    {
      b := IsNeighborAccess();
      offsetMin, offsetMax := [], [];
      if b {
        offsetMin, offsetMax := FirstOffsets(buckets, lists);
      }
    }

    // No read at all, or only reads of the current point.
    method IsZero() returns (b: bool)
      requires Valid()
      ensures b <==> forall l: StencilIndexList, i | l in lists && 0 <= i < |l| :: l[i] == StencilIndex(i + 1, 0)
    {
      if |buckets[0].min| == 0 {
        NothingSeen(buckets, lists);
        return true;
      }
      var neighbor, lo, hi := GetNeighborAccess();
      NonEmptySeen(buckets, lists);
      if !neighbor {
        return false;
      }
      b := ZeroOffsets(lo, hi, lists, numDims);
    }

    // In each dimension all reads use one loop index.
    method IsUniqueDim() returns (b: bool)
      requires Valid()
      ensures b <==> lists != [] && forall l: StencilIndexList, k: StencilIndexList, i | l in lists && k in lists && 0 <= i < numDims :: l[i].dim == k[i].dim
    {
      b := UniqueBuckets(buckets, lists);
    }

    // The largest distance at which any dimension is read; -1 without reads.
    method GetMaxWidth() returns (wd: int)
      requires Valid()
      ensures lists == [] ==> wd == -1
      ensures lists != [] ==> exists l: StencilIndexList, i :: l in lists && 0 <= i < numDims && Abs(l[i].offset) == wd
      ensures forall l: StencilIndexList, i | l in lists && 0 <= i < numDims :: Abs(l[i].offset) <= wd
    {
      wd := MaxWidth(buckets, lists);
    }
  }

  function Abs(x: int): nat { if x < 0 then -x else x }

  // The offsets are the attained extremes, dimension by dimension.
  ghost predicate ExactRange(lists: seq<StencilIndexList>, lo: seq<int>, hi: seq<int>)
    requires |lo| == |hi|
  {
    forall i | 0 <= i < |lo| :: ExactAt(lists, i, lo[i], hi[i])
  }

  ghost predicate ExactAt(lists: seq<StencilIndexList>, i: nat, lo: int, hi: int) {
    && (forall l: StencilIndexList | l in lists && i < |l| :: lo <= l[i].offset <= hi)
    && (exists l: StencilIndexList :: l in lists && i < |l| && l[i].offset == lo)
    && (exists l: StencilIndexList :: l in lists && i < |l| && l[i].offset == hi)
  }

  ghost predicate AllLength(lists: seq<StencilIndexList>, n: nat) {
    forall l: StencilIndexList | l in lists :: |l| == n
  }

  lemma SeenMember(lists: seq<StencilIndexList>, l: StencilIndexList, i: nat)
    requires l in lists && i < |l|
    ensures l[i] in SeenAt(lists, i)
  {
  }

  lemma NothingSeen(buckets: seq<Bucket>, lists: seq<StencilIndexList>)
    requires |buckets| > 0 && BucketsHold(buckets, lists) && AllLength(lists, |buckets|) && |buckets[0].min| == 0
    ensures lists == []
  {
    if lists != [] {
      assert buckets[0].Holds(SeenAt(lists, 0));
      SeenMember(lists, lists[0], 0);
    }
  }

  lemma NonEmptySeen(buckets: seq<Bucket>, lists: seq<StencilIndexList>)
    requires |buckets| > 0 && BucketsHold(buckets, lists) && |buckets[0].min| > 0
    ensures lists != []
  {
    assert buckets[0].Holds(SeenAt(lists, 0));
    assert buckets[0].min[0] in SeenAt(lists, 0);
  }

  // A bucket of one entry: its loop index is that of every read.
  lemma SingleBucket(b: Bucket, lists: seq<StencilIndexList>, i: nat)
    requires b.Holds(SeenAt(lists, i)) && |b.min| == 1
    ensures |b.max| == 1 && b.max[0].dim == b.min[0].dim
    ensures forall l: StencilIndexList | l in lists && i < |l| ::
      l[i].dim == b.min[0].dim && b.min[0].offset <= l[i].offset <= b.max[0].offset
    ensures b.min[0] in SeenAt(lists, i) && b.max[0] in SeenAt(lists, i)
  {
    assert DimsOf(b.min)[0] == b.min[0].dim && DimsOf(b.max)[0] == b.max[0].dim;
    forall l: StencilIndexList | l in lists && i < |l|
      ensures l[i].dim == b.min[0].dim && b.min[0].offset <= l[i].offset <= b.max[0].offset
    {
      SeenMember(lists, l, i);
      assert l[i].dim in DimsOf(b.min);
    }
  }

  // Of two entries with distinct loop indices one has another one than d.
  lemma SeveralDims(list: StencilIndexList, d: int)
    requires forall j, k | 0 <= j < k < |list| :: list[j].dim != list[k].dim
    ensures |list| <= 1 || exists k :: 0 <= k < |list| && list[k].dim != d
  {
    if |list| > 1 && list[0].dim == d {
      assert list[1].dim != d;
    }
  }

  // Reads that all use the loop index d make a bucket of one entry.
  lemma UniformBucket(b: Bucket, lists: seq<StencilIndexList>, i: nat, d: int)
    requires b.Holds(SeenAt(lists, i)) && lists != [] && AllLength(lists, |lists[0]|) && i < |lists[0]|
    requires forall l: StencilIndexList | l in lists :: i < |l| && l[i].dim == d
    ensures |b.min| == 1 && b.min[0].dim == d
  {
    SeveralDims(b.min, d);
    SeenMember(lists, lists[0], i);
    assert d in DimsOf(b.min);
    forall k | 0 <= k < |b.min| ensures b.min[k].dim == d {
      assert b.min[k] in SeenAt(lists, i);
      var l: StencilIndexList :| l in lists && i < |l| && l[i] == b.min[k];
    }
    var k :| 0 <= k < |b.min| && DimsOf(b.min)[k] == d;
  }

  method NeighborBuckets(buckets: seq<Bucket>, ghost lists: seq<StencilIndexList>) returns (b: bool)
    requires |buckets| > 0 && BucketsHold(buckets, lists) && AllLength(lists, |buckets|)
    ensures b <==> lists != [] && forall l: StencilIndexList | l in lists :: Regular(l)
  {
    for i := 0 to |buckets|
      invariant forall j | 0 <= j < i :: |buckets[j].min| == 1 && buckets[j].min[0].dim == j + 1
    {
      assert buckets[i].Holds(SeenAt(lists, i));
      if |buckets[i].min| != 1 || buckets[i].min[0].dim != i + 1 {
        if lists != [] && forall l: StencilIndexList | l in lists :: Regular(l) {
          UniformBucket(buckets[i], lists, i, i + 1);
        }
        return false;
      }
    }
    NonEmptySeen(buckets, lists);
    forall l: StencilIndexList | l in lists ensures Regular(l) {
      forall i | 0 <= i < |l| ensures l[i].dim == i + 1 {
        SingleBucket(buckets[i], lists, i);
      }
    }
    return true;
  }

  lemma FirstIsExact(b: Bucket, lists: seq<StencilIndexList>, i: nat)
    requires b.Holds(SeenAt(lists, i)) && |b.min| == 1
    ensures |b.max| == 1 && ExactAt(lists, i, b.min[0].offset, b.max[0].offset)
  {
    SingleBucket(b, lists, i);
    var l: StencilIndexList :| l in lists && i < |l| && l[i] == b.min[0];
    var k: StencilIndexList :| k in lists && i < |k| && k[i] == b.max[0];
  }

  method FirstOffsets(buckets: seq<Bucket>, ghost lists: seq<StencilIndexList>) returns (lo: seq<int>, hi: seq<int>)
    requires BucketsHold(buckets, lists) && AllLength(lists, |buckets|)
    requires lists != [] && forall l: StencilIndexList | l in lists :: Regular(l)
    ensures |lo| == |hi| == |buckets| && ExactRange(lists, lo, hi)
  {
    lo, hi := [], [];
    for i := 0 to |buckets|
      invariant |lo| == |hi| == i && ExactRange(lists, lo, hi)
    {
      UniformBucket(buckets[i], lists, i, i + 1);
      FirstIsExact(buckets[i], lists, i);
      lo, hi := lo + [buckets[i].min[0].offset], hi + [buckets[i].max[0].offset];
    }
  }

  method ZeroOffsets(lo: seq<int>, hi: seq<int>, ghost lists: seq<StencilIndexList>, n: nat) returns (b: bool)
    requires |lo| == |hi| == n && ExactRange(lists, lo, hi) && AllLength(lists, n)
    requires forall l: StencilIndexList | l in lists :: Regular(l)
    ensures b <==> forall l: StencilIndexList, i | l in lists && 0 <= i < |l| :: l[i] == StencilIndex(i + 1, 0)
  {
    for i := 0 to n
      invariant forall j | 0 <= j < i :: lo[j] == 0 && hi[j] == 0
    {
      assert ExactAt(lists, i, lo[i], hi[i]);
      if lo[i] != 0 || hi[i] != 0 {
        ghost var l: StencilIndexList :| l in lists && i < |l| && l[i].offset == if lo[i] != 0 then lo[i] else hi[i];
        return false;
      }
    }
    forall l: StencilIndexList, i | l in lists && 0 <= i < |l| ensures l[i] == StencilIndex(i + 1, 0) {
      assert ExactAt(lists, i, lo[i], hi[i]);
      assert Regular(l);
    }
    return true;
  }

  method UniqueBuckets(buckets: seq<Bucket>, ghost lists: seq<StencilIndexList>) returns (b: bool)
    requires |buckets| > 0 && BucketsHold(buckets, lists) && AllLength(lists, |buckets|)
    ensures b <==> (lists != [] && forall l: StencilIndexList, k: StencilIndexList, i |
                      l in lists && k in lists && 0 <= i < |buckets| :: l[i].dim == k[i].dim)
  {
    for i := 0 to |buckets|
      invariant forall j | 0 <= j < i :: |buckets[j].min| == 1
    {
      assert buckets[i].Holds(SeenAt(lists, i));
      assert |buckets[i].max| == |DimsOf(buckets[i].min)|;
      if |buckets[i].min| != 1 || |buckets[i].max| != 1 {
        if lists != [] && forall l: StencilIndexList | l in lists :: l[i].dim == lists[0][i].dim {
          UniformBucket(buckets[i], lists, i, lists[0][i].dim);
        }
        return false;
      }
    }
    NonEmptySeen(buckets, lists);
    forall l: StencilIndexList, k: StencilIndexList, i | l in lists && k in lists && 0 <= i < |buckets| ensures l[i].dim == k[i].dim {
      SingleBucket(buckets[i], lists, i);
    }
    return true;
  }

  // The width of one bucket list, starting from wd.
  method WidestOf(list: StencilIndexList, isMin: bool, wd0: int) returns (wd: int)
    ensures wd >= wd0 && forall k | 0 <= k < |list| :: (if isMin then -list[k].offset else list[k].offset) <= wd
    ensures wd == wd0 || exists k :: 0 <= k < |list| && (if isMin then -list[k].offset else list[k].offset) == wd
  {
    wd := wd0;
    for k := 0 to |list|
      invariant wd >= wd0 && forall j | 0 <= j < k :: (if isMin then -list[j].offset else list[j].offset) <= wd
      invariant wd == wd0 || exists j :: 0 <= j < k && (if isMin then -list[j].offset else list[j].offset) == wd
    {
      var w := if isMin then -list[k].offset else list[k].offset;
      if w > wd {
        wd := w;
      }
    }
  }

  // The widest read in the first n dimensions.
  ghost predicate Widest(lists: seq<StencilIndexList>, n: nat, wd: int) {
    && (forall l: StencilIndexList, i | l in lists && 0 <= i < n && i < |l| :: Abs(l[i].offset) <= wd)
    && (wd == -1 || exists l: StencilIndexList, i :: l in lists && 0 <= i < n && i < |l| && Abs(l[i].offset) == wd)
  }

  method MaxWidth(buckets: seq<Bucket>, ghost lists: seq<StencilIndexList>) returns (wd: int)
    requires |buckets| > 0 && BucketsHold(buckets, lists) && AllLength(lists, |buckets|)
    ensures lists == [] ==> wd == -1
    ensures lists != [] ==> exists l: StencilIndexList, i :: l in lists && 0 <= i < |buckets| && Abs(l[i].offset) == wd
    ensures forall l: StencilIndexList, i | l in lists && 0 <= i < |buckets| :: Abs(l[i].offset) <= wd
  {
    wd := -1;
    for i := 0 to |buckets|
      invariant wd >= -1 && Widest(lists, i, wd)
    {
      var w := WidestOf(buckets[i].min, true, wd);
      w := WidestOf(buckets[i].max, false, w);
      WidestStep(buckets[i], lists, i, wd, w);
      wd := w;
    }
    if lists != [] {
      assert lists[0] in lists && Abs(lists[0][0].offset) <= wd;
    }
  }

  lemma WidestStep(b: Bucket, lists: seq<StencilIndexList>, i: nat, before: int, wd: int)
    requires b.Holds(SeenAt(lists, i)) && Widest(lists, i, before) && wd >= before >= -1
    requires forall k | 0 <= k < |b.min| :: -b.min[k].offset <= wd
    requires forall k | 0 <= k < |b.max| :: b.max[k].offset <= wd
    requires wd == before || (exists k :: 0 <= k < |b.min| && -b.min[k].offset == wd)
          || exists k :: 0 <= k < |b.max| && b.max[k].offset == wd
    ensures Widest(lists, i + 1, wd)
  {
  }
}
