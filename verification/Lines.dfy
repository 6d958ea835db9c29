/** The integer line of the building DSL: the cells from one end to the other. */
module Lines {
  import opened Integers


  type Cell = (int, int)

  function Abs(n: int): nat { if n < 0 then -n else n }

  function Toward(a: int, b: int): int { if a < b then 1 else -1 }

  /** `a` moved `n` steps in the direction of `b`. */
  function Along(a: int, b: int, n: int): int { if a < b then a + n else a - n }

  /** k * minor / major, rounded to the nearest integer, halves rounded down. */
  function HalfDown(k: nat, minor: nat, major: nat): int
  {
    if major == 0 then 0 else (2 * k * minor + major - 1) / (2 * major)
  }

  /** The k-th cell, computed directly from the two ends and without any running error. */
  function IdealCell(x1: int, z1: int, x2: int, z2: int, k: nat): Cell
  {
    var dx, dz := Abs(x2 - x1), Abs(z2 - z1);
    if dx >= dz
    then (Along(x1, x2, k), Along(z1, z2, HalfDown(k, dz, dx)))
    else (Along(x1, x2, HalfDown(k, dx, dz)), Along(z1, z2, k))
  }

  lemma {:induction false} QuotientIs(a: int, b: int, q: int)
    requires b > 0
    ensures q == a / b <==> q * b <= a < q * b + b
  {
    var r := a / b;
    assert a == b * r + a % b && b * r == r * b;
    if q < r {
      MulOrder(q + 1, r, b);
      assert (q + 1) * b == q * b + b;
    } else if q > r {
      MulOrder(r + 1, q, b);
      assert (r + 1) * b == r * b + b;
    }
  }

  /** Independent meaning: the only integer whose error lies in [-major, major), doubled. */
  lemma {:induction false} HalfDownIsNearest(k: nat, minor: nat, major: nat, j: int)
    requires major > 0
    ensures j == HalfDown(k, minor, major) <==> -(major as int) <= 2 * (j * major - k * minor) < major
  {
    QuotientIs(2 * k * minor + major - 1, 2 * major, j);
    assert j * (2 * major) == 2 * (j * major);
    assert 2 * k * minor == 2 * (k * minor);
  }

  /** Rounding advances by at most one each step, and reaches `minor` exactly at the end. */
  lemma {:induction false} HalfDownAdvances(k: nat, minor: nat, major: nat)
    requires minor <= major && 0 < major
    ensures var j := HalfDown(k, minor, major);
            HalfDown(k + 1, minor, major) ==
            if 2 * (j * major - k * minor - minor) < -(major as int) then j + 1 else j
    ensures HalfDown(0, minor, major) == 0
    ensures HalfDown(major, minor, major) == minor
  {
    var j := HalfDown(k, minor, major);
    HalfDownIsNearest(k, minor, major, j);
    HalfDownIsNearest(k + 1, minor, major, j);
    HalfDownIsNearest(k + 1, minor, major, j + 1);
    assert (k + 1) * minor == k * minor + minor;
    assert (j + 1) * major == j * major + major;
    HalfDownIsNearest(0, minor, major, 0);
    HalfDownIsNearest(major, minor, major, minor);
    assert minor * major == major * minor;
  }

  lemma {:induction false} HalfDownMonotone(k: nat, n: nat, minor: nat, major: nat)
    requires minor <= major && k <= n
    ensures HalfDown(k, minor, major) <= HalfDown(n, minor, major)
    decreases n - k
  {
    if k < n && major > 0 {
      HalfDownAdvances(k, minor, major);
      HalfDownMonotone(k + 1, n, minor, major);
    }
  }

  /** The rounding line, run step by step with a single integer error term. */
  method Line(x1: int, z1: int, x2: int, z2: int) returns (cells: seq<Cell>)
    ensures |cells| == Max(Abs(x2 - x1), Abs(z2 - z1)) + 1
    ensures forall k | 0 <= k < |cells| :: cells[k] == IdealCell(x1, z1, x2, z2, k)
  {
    var dx, dz := Abs(x2 - x1), Abs(z2 - z1);
    var stepX, stepZ := Toward(x1, x2), Toward(z1, z2);
    var x, z := x1, z1;
    var error: int := dx - dz;
    ghost var i, j := 0, 0;
    ghost var major: nat := Max(dx, dz);
    cells := [];
    if major > 0 { HalfDownAdvances(0, dx + dz - major, major); }
    while true
      invariant |cells| <= major
      invariant forall k | 0 <= k < |cells| :: cells[k] == IdealCell(x1, z1, x2, z2, k)
      invariant x == Along(x1, x2, i) && z == Along(z1, z2, j)
      invariant error == ErrorAt(i, j, dx, dz)
      invariant if dx >= dz then i == |cells| && j == HalfDown(|cells|, dz, dx)
                else j == |cells| && i == HalfDown(|cells|, dx, dz)
      decreases major - |cells|
    {
      ghost var k := |cells|;
      EndsExactly(x1, z1, x2, z2, k);
      cells := cells + [(x, z)];
      if x == x2 && z == z2 { break; }
      ErrorSteps(i, j, dx, dz);
      if dx >= dz { StepAlongX(j, dx, dz, k); } else { StepAlongZ(i, dx, dz, k); }
      var twice := 2 * error;
      if twice > -(dz as int) {
        error := error - dz;
        x := x + stepX;
        i := i + 1;
      }
      if twice < dx {
        error := error + dx;
        z := z + stepZ;
        j := j + 1;
      }
    }
  }

  ghost function ErrorAt(i: int, j: int, dx: nat, dz: nat): int { (j + 1) * dx - (i + 1) * dz }

  /** One more step along an axis, as the error term sees it. */
  lemma {:induction false} ErrorSteps(i: int, j: int, dx: nat, dz: nat)
    ensures ErrorAt(i + 1, j, dx, dz) == ErrorAt(i, j, dx, dz) - dz
    ensures ErrorAt(i, j + 1, dx, dz) == ErrorAt(i, j, dx, dz) + dx
    ensures ErrorAt(i + 1, j + 1, dx, dz) == ErrorAt(i, j, dx, dz) - dz + dx
    ensures ErrorAt(i, j, dx, dz) == j * dx - i * dz + dx - dz
  {
    assert (j + 1) * dx == j * dx + dx && (i + 1) * dz == i * dz + dz;
    assert (j + 2) * dx == j * dx + 2 * dx && (i + 2) * dz == i * dz + 2 * dz;
  }

  /** What the two comparisons of a step decide, in terms of the rounding. */
  lemma {:induction false} StepAlongX(j: int, dx: nat, dz: nat, k: nat)
    requires 0 < dx && dz <= dx && j == HalfDown(k, dz, dx)
    ensures var twice := 2 * ErrorAt(k, j, dx, dz);
            twice > -(dz as int) && HalfDown(k + 1, dz, dx) == (if twice < dx then j + 1 else j)
  {
    ErrorSteps(k, j, dx, dz);
    HalfDownIsNearest(k, dz, dx, j);
    HalfDownAdvances(k, dz, dx);
    if dx == dz {
      assert j * dx - k * dz == (j - k) * dx;
      Multiple(j - k, dx);
    }
  }

  lemma {:induction false} StepAlongZ(i: int, dx: nat, dz: nat, k: nat)
    requires dx < dz && i == HalfDown(k, dx, dz)
    ensures var twice := 2 * ErrorAt(i, k, dx, dz);
            twice < dx && HalfDown(k + 1, dx, dz) == (if twice > -(dz as int) then i + 1 else i)
  {
    ErrorSteps(i, k, dx, dz);
    HalfDownIsNearest(k, dx, dz, i);
    HalfDownAdvances(k, dx, dz);
  }

  lemma {:induction false} Multiple(m: int, d: nat)
    requires d > 0
    ensures 2 * (m * d) != -(d as int)
  {
    if m >= 0 { assert m * d >= 0; } else { assert m * d <= -1 * d; }
  }

  /** The end is met at the last step and at no earlier one. */
  lemma {:induction false} EndsExactly(x1: int, z1: int, x2: int, z2: int, k: nat)
    ensures IdealCell(x1, z1, x2, z2, k) == (x2, z2) <==> k == Max(Abs(x2 - x1), Abs(z2 - z1))
    ensures IdealCell(x1, z1, x2, z2, 0) == (x1, z1)
  {
    var dx, dz := Abs(x2 - x1), Abs(z2 - z1);
    if dx >= dz && dx > 0 { HalfDownAdvances(0, dz, dx); }
    if dz > dx { HalfDownAdvances(0, dx, dz); }
  }

  /** At most one cell along each axis, and one full cell along the longer one. */
  lemma {:induction false} LineIsConnected(x1: int, z1: int, x2: int, z2: int, k: nat)
    requires k < Max(Abs(x2 - x1), Abs(z2 - z1))
    ensures var p, q := IdealCell(x1, z1, x2, z2, k), IdealCell(x1, z1, x2, z2, k + 1);
            Abs(q.0 - p.0) <= 1 && Abs(q.1 - p.1) <= 1 && p != q
  {
    var dx, dz := Abs(x2 - x1), Abs(z2 - z1);
    if dx >= dz { HalfDownAdvances(k, dz, dx); } else { HalfDownAdvances(k, dx, dz); }
  }

  /** No cell twice: the coordinate on the longer axis determines the step. */
  lemma LineCellsDistinct(x1: int, z1: int, x2: int, z2: int, k: nat, n: nat)
    requires IdealCell(x1, z1, x2, z2, k) == IdealCell(x1, z1, x2, z2, n)
    ensures k == n
  {
  }

  lemma {:induction false} LineStaysInBox(x1: int, z1: int, x2: int, z2: int, k: nat)
    requires k <= Max(Abs(x2 - x1), Abs(z2 - z1))
    ensures var p := IdealCell(x1, z1, x2, z2, k);
            && (x1 <= p.0 <= x2 || x2 <= p.0 <= x1)
            && (z1 <= p.1 <= z2 || z2 <= p.1 <= z1)
  {
    var dx, dz := Abs(x2 - x1), Abs(z2 - z1);
    var major, minor := Max(dx, dz), if dx >= dz then dz else dx;
    if major > 0 {
      HalfDownAdvances(k, minor, major);
      HalfDownMonotone(0, k, minor, major);
      HalfDownMonotone(k, major, minor, major);
    }
  }

  /** After i steps along x and j along z the line is off by at most half a cell. */
  lemma {:induction false} LineStaysClose(x1: int, z1: int, x2: int, z2: int, k: nat)
    requires k <= Max(Abs(x2 - x1), Abs(z2 - z1))
    ensures var p := IdealCell(x1, z1, x2, z2, k);
            var dx, dz := Abs(x2 - x1), Abs(z2 - z1);
            var i, j := Abs(p.0 - x1), Abs(p.1 - z1);
            2 * Abs(j * dx - i * dz) <= Max(dx, dz)
  {
    var dx, dz := Abs(x2 - x1), Abs(z2 - z1);
    LineStaysInBox(x1, z1, x2, z2, k);
    if dx >= dz && dx > 0 { HalfDownIsNearest(k, dz, dx, HalfDown(k, dz, dx)); }
    if dz > dx { HalfDownIsNearest(k, dx, dz, HalfDown(k, dx, dz)); }
  }
}
