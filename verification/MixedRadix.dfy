// Mixed-radix numbering of index vectors. The same numbering serves three
// purposes in the runtime: the row-major position of a cell in a buffer
// (dimension 0 varies fastest), the rank of a process, and the position of a
// line in the subgrid worklist.
module MixedRadix {

  // A vector with one entry per dimension.
  type IndexArray = seq<int>

  ghost predicate NonNegative(size: IndexArray) {
    forall d | 0 <= d < |size| :: size[d] >= 0
  }

  ghost predicate Positive(size: IndexArray) {
    forall d | 0 <= d < |size| :: size[d] > 0
  }

  predicate InBox(v: IndexArray, size: IndexArray) {
    |v| == |size| && forall d | 0 <= d < |v| :: 0 <= v[d] < size[d]
  }

  function Add(v: IndexArray, w: IndexArray): (r: IndexArray)
    requires |v| == |w|
    ensures |r| == |v| && forall d | 0 <= d < |v| :: r[d] == v[d] + w[d]
  {
    seq(|v|, d requires 0 <= d < |v| => v[d] + w[d])
  }

  function Sub(v: IndexArray, w: IndexArray): (r: IndexArray)
    requires |v| == |w|
    ensures |r| == |v| && forall d | 0 <= d < |v| :: r[d] == v[d] - w[d]
  {
    seq(|v|, d requires 0 <= d < |v| => v[d] - w[d])
  }

  // Number of cells of a box.
  function Volume(size: IndexArray): int {
    if |size| == 0 then 1 else size[0] * Volume(size[1..])
  }

  // Position of an index vector, dimension 0 fastest.
  function Lin(v: IndexArray, size: IndexArray): int
    requires |v| == |size|
  {
    if |v| == 0 then 0 else v[0] + size[0] * Lin(v[1..], size[1..])
  }

  // A step of one along dimension d passes over all cells of the dimensions
  // before d.
  lemma {:induction false} LinStep(v: IndexArray, size: IndexArray, d: nat)
    requires |v| == |size| && d < |v|
    ensures Lin(v[d := v[d] + 1], size) == Lin(v, size) + Volume(size[..d])
  {
    var w := v[d := v[d] + 1];
    if d == 0 {
      assert w[1..] == v[1..];
    } else {
      LinStep(v[1..], size[1..], d - 1);
      assert w[1..] == v[1..][d - 1 := v[1..][d - 1] + 1] && size[1..][..d - 1] == size[..d][1..];
      assert size[0] * (Lin(v[1..], size[1..]) + Volume(size[..d][1..]))
          == size[0] * Lin(v[1..], size[1..]) + size[0] * Volume(size[..d][1..]);
    }
  }

  // The first cell is at position 0.
  lemma {:induction false} LinOfZeros(v: IndexArray, size: IndexArray)
    requires |v| == |size| && forall d | 0 <= d < |v| :: v[d] == 0
    ensures Lin(v, size) == 0
  {
    if |v| > 0 {
      LinOfZeros(v[1..], size[1..]);
    }
  }

  // Quotient and remainder of a natural number, by repeated subtraction.
  // They are / and % (QuotientIsDivision); in this form the solver meets no
  // division where only the numbering matters.
  function Quotient(k: int, a: int): int
    requires a > 0
    decreases k
  {
    if k < a then 0 else 1 + Quotient(k - a, a)
  }

  function Remainder(k: int, a: int): int
    requires a > 0
    decreases k
  {
    if k < a then k else Remainder(k - a, a)
  }

  // Index vector at a position; the inverse of Lin.
  function Digits(k: int, size: IndexArray): (v: IndexArray)
    ensures |v| == |size|
    decreases size
  {
    if |size| == 0 then []
    else if size[0] <= 0 then [0] + Digits(k, size[1..])
    else [Remainder(k, size[0])] + Digits(Quotient(k, size[0]), size[1..])
  }

  lemma {:induction false} QuotientBounds(k: int, a: int)
    requires a > 0 && k >= 0
    ensures k == Remainder(k, a) + a * Quotient(k, a)
    ensures 0 <= Remainder(k, a) < a && Quotient(k, a) >= 0
    decreases k
  {
    if k >= a {
      QuotientBounds(k - a, a);
    }
  }

  lemma {:induction false} QuotientUnique(a: int, q: int, r: int)
    requires 0 <= r < a && q >= 0
    ensures Quotient(r + a * q, a) == q && Remainder(r + a * q, a) == r
    decreases q
  {
    if q > 0 {
      QuotientUnique(a, q - 1, r);
      assert r + a * q - a == r + a * (q - 1) && a * (q - 1) >= 0;
    }
  }

  lemma QuotientIsDivision(k: int, a: int)
    requires a > 0 && k >= 0
    ensures Quotient(k, a) == k / a && Remainder(k, a) == k % a
  {
    QuotientBounds(k, a);
    DivModUnique(a, Quotient(k, a), Remainder(k, a));
  }

  lemma VolumeSign(size: IndexArray)
    requires NonNegative(size)
    ensures Volume(size) >= 0
    ensures Volume(size) > 0 <==> Positive(size)
  {
    if |size| > 0 {
      VolumeSign(size[1..]);
      assert Positive(size) <==> size[0] > 0 && Positive(size[1..]);
    }
  }

  lemma {:induction false} LinInRange(v: IndexArray, size: IndexArray)
    requires InBox(v, size)
    ensures 0 <= Lin(v, size) < Volume(size)
  {
    if |v| > 0 {
      LinInRange(v[1..], size[1..]);
      var a, t, w := size[0], Lin(v[1..], size[1..]), Volume(size[1..]);
      RowFits(a, t, w);
    }
  }

  // Every index vector of a box is recovered from its position ...
  lemma {:induction false} DigitsOfLin(v: IndexArray, size: IndexArray)
    requires InBox(v, size)
    ensures Digits(Lin(v, size), size) == v
  {
    if |v| > 0 {
      DigitsOfLin(v[1..], size[1..]);
      LinInRange(v[1..], size[1..]);
      QuotientUnique(size[0], Lin(v[1..], size[1..]), v[0]);
    }
  }

  // ... and every position from its index vector.
  lemma {:induction false} LinOfDigits(k: int, size: IndexArray)
    requires NonNegative(size) && 0 <= k < Volume(size)
    ensures InBox(Digits(k, size), size)
    ensures Lin(Digits(k, size), size) == k
    decreases size
  {
    if |size| > 0 {
      VolumeSign(size);
      var a, w := size[0], Volume(size[1..]);
      VolumeSign(size[1..]);
      QuotientBounds(k, a);
      MulCancel(a, Quotient(k, a), w);
      LinOfDigits(Quotient(k, a), size[1..]);
      var t := Digits(Quotient(k, a), size[1..]);
      assert Digits(k, size) == [Remainder(k, a)] + t;
      assert Digits(k, size)[1..] == t;
    }
  }

  lemma MulCancel(a: int, x: int, y: int)
    requires a > 0 && a * x < a * y
    ensures x < y
  {
  }

  lemma MulMonotone(a: int, x: int, y: int)
    requires a >= 0 && x <= y
    ensures a * x <= a * y
  {
  }

  // Row l of w rows of a cells each.
  lemma RowFits(a: int, l: int, w: int)
    requires a >= 0 && 0 <= l < w
    ensures 0 <= a * l && a * l + a <= a * w
  {
    MulMonotone(a, l + 1, w);
    MulMonotone(a, 0, l);
  }

  // Division with remainder is unique.
  lemma DivisionUnique(a: int, x: int, r: int, y: int, t: int)
    requires a * x + r == a * y + t && 0 <= r < a && 0 <= t < a
    ensures x == y && r == t
  {
    assert a * (y + 1) == a * y + a && a * (x + 1) == a * x + a;
    MulCancel(a, x, y + 1);
    MulCancel(a, y, x + 1);
  }

  lemma DivModUnique(a: int, q: int, r: int)
    requires 0 <= r < a
    ensures (r + a * q) / a == q && (r + a * q) % a == r
  {
    var k := r + a * q;
    DivisionUnique(a, k / a, k % a, q, r);
  }


  lemma LinHead(v: IndexArray, w: IndexArray, size: IndexArray)
    requires |v| == |w| == |size| > 0 && v[1..] == w[1..]
    ensures Lin(v, size) - Lin(w, size) == v[0] - w[0]
  {
    var t := Lin(v[1..], size[1..]);
    assert Lin(v, size) == v[0] + size[0] * t;
    assert Lin(w, size) == w[0] + size[0] * t;
  }

  // One step of the numbering: position l * size[0] + x has first digit x.
  lemma DigitsCons(l: int, x: int, size: IndexArray)
    requires |size| > 0 && 0 <= x < size[0] && l >= 0
    ensures Digits(x + size[0] * l, size) == [x] + Digits(l, size[1..])
  {
    QuotientUnique(size[0], l, x);
  }

  // Two vectors of a box at the same position are equal.
  lemma LinInjective(v: IndexArray, w: IndexArray, size: IndexArray)
    requires InBox(v, size) && InBox(w, size)
    requires Lin(v, size) == Lin(w, size)
    ensures v == w
  {
    DigitsOfLin(v, size);
    DigitsOfLin(w, size);
  }

  // The three-dimensional forms used by the addressing code.
  lemma Unfold3(v: IndexArray, size: IndexArray)
    requires |v| == |size| == 3
    ensures Lin(v, size) == v[0] + v[1] * size[0] + v[2] * size[0] * size[1]
    ensures Volume(size) == size[0] * size[1] * size[2]
  {
    var a, b, z := size[0], size[1], v[2];
    assert Lin(v[2..], size[2..]) == v[2];
    assert v[1..][1..] == v[2..] && size[1..][1..] == size[2..];
    assert Lin(v[1..], size[1..]) == v[1] + b * v[2];
    assert a * (v[1] + b * z) == v[1] * a + z * a * b;
    assert Volume(size[2..]) == size[2] * Volume(size[2..][1..]) == size[2];
    assert Volume(size[1..]) == size[1] * size[2];
    assert a * (b * size[2]) == a * b * size[2];
  }

  // size.accumulate: the product of all entries.
  method Accumulate(size: IndexArray) returns (v: int)
    ensures v == Volume(size)
  {
    v := 1;
    for i := 0 to |size|
      invariant v * Volume(size[i..]) == Volume(size)
    {
      assert size[i..][1..] == size[i + 1..];
      assert v * (size[i] * Volume(size[i + 1..])) == v * size[i] * Volume(size[i + 1..]);
      v := v * size[i];
    }
    assert size[|size|..] == [];
  }

  // The shared loop of get1DOffset and GetProcessRank.
  method LinearOffset(mdOffset: IndexArray, size: IndexArray) returns (offset: int)
    requires |mdOffset| == |size|
    ensures offset == Lin(mdOffset, size)
  {
    offset := 0;
    var refOffset := 1;
    for i := 0 to |size|
      invariant offset + refOffset * Lin(mdOffset[i..], size[i..]) == Lin(mdOffset, size)
    {
      assert size[i..][1..] == size[i + 1..] && mdOffset[i..][1..] == mdOffset[i + 1..];
      var t := Lin(mdOffset[i + 1..], size[i + 1..]);
      assert refOffset * (mdOffset[i] + size[i] * t) == mdOffset[i] * refOffset + refOffset * size[i] * t;
      offset := offset + mdOffset[i] * refOffset;
      refOffset := refOffset * size[i];
    }
    assert Lin(mdOffset[|size|..], size[|size|..]) == 0;
  }

  // The loop that splits a rank into the index of a process.
  method SplitIndex(k: int, size: IndexArray) returns (v: IndexArray)
    requires Positive(size) && k >= 0
    ensures v == Digits(k, size)
  {
    v := [];
    var t := k;
    for j := 0 to |size|
      invariant t >= 0 && v + Digits(t, size[j..]) == Digits(k, size)
    {
      assert size[j..][1..] == size[j + 1..];
      QuotientIsDivision(t, size[j]);
      QuotientBounds(t, size[j]);
      ghost var rest := Digits(t / size[j], size[j + 1..]);
      assert v + ([t % size[j]] + rest) == (v + [t % size[j]]) + rest;
      v := v + [t % size[j]];
      t := t / size[j];
    }
    assert Digits(t, size[|size|..]) == [];
  }
}
