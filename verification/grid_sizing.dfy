/**
 * How the SMASH grid chooses its extent and its number of cells
 * (GridBase::find_min_and_length and the first half of the Grid constructor, grid.cc).
 *
 * Doubles are exact reals here. std::nextafter(x, 0.) is the parameter `nextDown`,
 * constrained by IsNextAfterTowardZero to what IEEE-754 promises for positive
 * normalised doubles.
 */
module GridSizing {
  import opened GridIndex
  import opened Outcomes

  /** std::numeric_limits<int>::max(); the grid's SizeType is int. */
  const IntMax: int := 0x7FFF_FFFF

  /** 2^52: one unit in the last place of a double x is at most x / 2^52. */
  const UlpDivisor: real := 4503599627370496.0

  /** The exceptions the constructor throws while sizing the grid. */
  datatype GridError =
    | IntegerOverflow  // std::overflow_error: a cell count would not fit into an int
    | BoxTooSmall      // std::runtime_error: a periodic box needs at least two cells per axis

  /** The cell counts and the position-to-index factors chosen for the three axes. */
  datatype Geometry = Geometry(cells: Index3, indexFactor: Vec3)

  function Min(a: real, b: real): real { if a <= b then a else b }
  function Max(a: real, b: real): real { if a >= b then a else b }

  /** Every position of every particle lies inside the box [minPosition, minPosition + length]. */
  ghost predicate Encloses(particles: seq<Particle>, minPosition: Vec3, length: Vec3)
  {
    forall j :: 0 <= j < |particles| ==> Within(particles[j].position, minPosition, Far(minPosition, length))
  }

  /** The corner of the box opposite to minPosition. */
  function Far(minPosition: Vec3, length: Vec3): Vec3
  {
    [minPosition[0] + length[0], minPosition[1] + length[1], minPosition[2] + length[2]]
  }

  /** Every coordinate of pos lies between the corresponding ones of low and high. */
  predicate Within(pos: Vec3, low: Vec3, high: Vec3)
  {
    low[0] <= pos[0] <= high[0] && low[1] <= pos[1] <= high[1] && low[2] <= pos[2] <= high[2]
  }

  /** Along each axis i, the particle at[i] has exactly the coordinate v[i]. */
  ghost predicate AttainedBy(particles: seq<Particle>, at: Index3, v: Vec3)
  {
    && 0 <= at[0] < |particles| && particles[at[0]].position[0] == v[0]
    && 0 <= at[1] < |particles| && particles[at[1]].position[1] == v[1]
    && 0 <= at[2] < |particles| && particles[at[2]].position[2] == v[2]
  }

  /** The componentwise minimum and maximum of two vectors. */
  function Lower(a: Vec3, b: Vec3): Vec3 { [Min(a[0], b[0]), Min(a[1], b[1]), Min(a[2], b[2])] }
  function Upper(a: Vec3, b: Vec3): Vec3 { [Max(a[0], b[0]), Max(a[1], b[1]), Max(a[2], b[2])] }

  /** Along each axis, k replaces the witness of the minimum when pos goes below it. */
  function LowerAt(pos: Vec3, low: Vec3, at: Index3, k: int): Index3
  {
    [if pos[0] < low[0] then k else at[0], if pos[1] < low[1] then k else at[1],
     if pos[2] < low[2] then k else at[2]]
  }

  function UpperAt(pos: Vec3, high: Vec3, at: Index3, k: int): Index3
  {
    [if pos[0] > high[0] then k else at[0], if pos[1] > high[1] then k else at[1],
     if pos[2] > high[2] then k else at[2]]
  }

  /** Taking particle k into the running box keeps the box tight around the first k + 1 particles. */
  lemma WidenKeeps(particles: seq<Particle>, k: int, low: Vec3, high: Vec3, lowAt: Index3, highAt: Index3)
    requires 0 <= k < |particles|
    requires forall j :: 0 <= j < k ==> Within(particles[j].position, low, high)
    requires AttainedBy(particles, lowAt, low) && AttainedBy(particles, highAt, high)
    ensures var pos := particles[k].position;
      && (forall j :: 0 <= j < k + 1 ==> Within(particles[j].position, Lower(low, pos), Upper(high, pos)))
      && AttainedBy(particles, LowerAt(pos, low, lowAt, k), Lower(low, pos))
      && AttainedBy(particles, UpperAt(pos, high, highAt, k), Upper(high, pos))
  {
  }

  /**
   * The tightest box around the particles: along every axis the smallest
   * coordinate is minPosition and the largest one is minPosition + length.
   * The source reads the first particle before looking at the others, so the
   * list must not be empty.
   */
  method FindMinAndLength(particles: seq<Particle>) returns (minPosition: Vec3, length: Vec3)
    requires |particles| > 0
    ensures Encloses(particles, minPosition, length)
    ensures forall i :: 0 <= i < 3 ==>
      exists j :: 0 <= j < |particles| && particles[j].position[i] == minPosition[i]
    ensures forall i :: 0 <= i < 3 ==>
      exists j :: 0 <= j < |particles| && particles[j].position[i] == minPosition[i] + length[i]
  {
    var first := particles[0].position;
    minPosition := first;
    var maxPosition := first;
    ghost var lowAt: Index3 := [0, 0, 0];
    ghost var highAt: Index3 := [0, 0, 0];
    var k := 0;
    while k < |particles|
      invariant 0 <= k <= |particles|
      invariant forall j :: 0 <= j < k ==> Within(particles[j].position, minPosition, maxPosition)
      invariant AttainedBy(particles, lowAt, minPosition) && AttainedBy(particles, highAt, maxPosition)
    {
      var pos := particles[k].position;
      WidenKeeps(particles, k, minPosition, maxPosition, lowAt, highAt);
      lowAt, highAt := LowerAt(pos, minPosition, lowAt, k), UpperAt(pos, maxPosition, highAt, k);
      minPosition, maxPosition := Lower(minPosition, pos), Upper(maxPosition, pos);
      k := k + 1;
    }
    length := [maxPosition[0] - minPosition[0], maxPosition[1] - minPosition[1],
               maxPosition[2] - minPosition[2]];
    assert Far(minPosition, length) == maxPosition;
    forall i | 0 <= i < 3
      ensures exists j :: 0 <= j < |particles| && particles[j].position[i] == minPosition[i]
      ensures exists j :: 0 <= j < |particles| && particles[j].position[i] == minPosition[i] + length[i]
    {
      assert particles[lowAt[i]].position[i] == minPosition[i];
      assert particles[highAt[i]].position[i] == minPosition[i] + length[i];
    }
  }

  /** The integer cube root, rounded down: the value of (int)std::cbrt(count). */
  function CbrtFloor(count: nat): (k: nat)
    ensures k * k * k <= count < (k + 1) * (k + 1) * (k + 1)
  {
    CbrtFrom(count, 0)
  }

  function CbrtFrom(count: nat, k: nat): (r: nat)
    requires k * k * k <= count
    ensures r * r * r <= count < (r + 1) * (r + 1) * (r + 1)
    decreases count - k * k * k
  {
    if (k + 1) * (k + 1) * (k + 1) <= count then
      assert k * k * k < (k + 1) * (k + 1) * (k + 1) by { CubeGrows(k); }
      CbrtFrom(count, k + 1)
    else
      k
  }

  lemma PositiveCube(k: int)
    requires k >= 1
    ensures k * k * k >= 1
  {
    MulLeq(1, k, k);
    MulLeq(1, k * k, k);
  }

  lemma CubeGrows(k: nat)
    ensures k * k * k < (k + 1) * (k + 1) * (k + 1)
  {
    assert (k + 1) * (k + 1) * (k + 1) == k * k * k + 3 * k * k + 3 * k + 1;
  }

  /**
   * The cap on the cells per axis as the source computes it: the cube root of
   * the particle count, and at least 2 with periodic boundaries.
   */
  function MaxCellsAsWritten(options: GridOptions, particleCount: nat): (m: int)
    ensures m * m * m <= particleCount || m == 2
    ensures options == PeriodicBoundaries ==> m >= 2
  {
    if options == Normal then CbrtFloor(particleCount) else if CbrtFloor(particleCount) >= 2 then CbrtFloor(particleCount) else 2
  }

  /**
   * The cap used by this model: as written, except that a grid without
   * periodic boundaries keeps at least one cell per axis when there are no
   * particles (see the finding in README.md).
   */
  function MaxCells(options: GridOptions, particleCount: nat): (m: int)
    ensures m >= 1 && (options == PeriodicBoundaries ==> m >= 2)
    ensures particleCount >= 1 ==> m == MaxCellsAsWritten(options, particleCount)
    ensures m * m * m <= particleCount || m <= 2
  {
    var c := MaxCellsAsWritten(options, particleCount);
    if c >= 1 then c else 1
  }

  /**
   * Number of cells along one axis of length `length` (grid.cc, the body of the
   * loop over the axes), or the exception the constructor throws.
   */
  function AxisCells(options: GridOptions, strategy: CellSizeStrategy, limit: CellNumberLimitation,
                     maxCells: int, length: real, maxInteractionLength: real): (r: Result<int, GridError>)
    requires maxInteractionLength > 0.0 && length >= 0.0
    requires maxCells >= 0 && (options == PeriodicBoundaries ==> maxCells >= 2)
    ensures r.Ok? ==> r.value >= 0
    ensures r.Ok? && maxCells >= 1 ==> r.value >= 1
    ensures r.Ok? && options == PeriodicBoundaries ==> r.value >= 2
    ensures r.Ok? && limit == ParticleNumber ==> r.value <= maxCells || r.value == 1
    ensures r.Ok? && strategy == Largest && options == PeriodicBoundaries ==> r.value == 2
  {
    if strategy == Largest then LimitCount(options, limit, maxCells, 2)
    else if length > IntMax as real / (1.0 / maxInteractionLength) then Err(IntegerOverflow)
    else LimitCount(options, limit, maxCells, FloorCount(length, maxInteractionLength))
  }

  /** The corrections grid.cc applies to a raw per-axis count n. */
  function LimitCount(options: GridOptions, limit: CellNumberLimitation, maxCells: int, n: nat): (r: Result<int, GridError>)
    requires maxCells >= 0 && (options == PeriodicBoundaries ==> maxCells >= 2)
    ensures r.Ok? ==> r.value >= 0
    ensures r.Ok? && maxCells >= 1 ==> r.value >= 1
    ensures r.Ok? && options == PeriodicBoundaries ==> r.value >= 2
    ensures r.Ok? && limit == ParticleNumber ==> r.value <= maxCells || r.value == 1
    ensures r.Ok? ==> r.value <= n || r.value == 1
  {
    if n == 0 && options != PeriodicBoundaries then Ok(1)
    else if n < 2 && options == PeriodicBoundaries then Err(BoxTooSmall)
    else if limit == ParticleNumber && n > maxCells then Ok(maxCells)
    else Ok(n)
  }

  /**
   * The sizing of one axis fails exactly when the count would overflow an int,
   * or when a periodic box is shorter than two interaction lengths.
   */
  lemma AxisCellsErrors(options: GridOptions, strategy: CellSizeStrategy, limit: CellNumberLimitation,
                        maxCells: int, length: real, maxInteractionLength: real)
    requires maxInteractionLength > 0.0 && length >= 0.0
    requires maxCells >= 0 && (options == PeriodicBoundaries ==> maxCells >= 2)
    ensures var r := AxisCells(options, strategy, limit, maxCells, length, maxInteractionLength);
      && (r == Err(IntegerOverflow) <==>
            strategy == Optimal && length > IntMax as real * maxInteractionLength)
      && (r == Err(BoxTooSmall) <==>
            && options == PeriodicBoundaries && strategy == Optimal
            && 2.0 * maxInteractionLength > length
            && length <= IntMax as real * maxInteractionLength)
  {
    DivideByReciprocal(IntMax as real, maxInteractionLength);
    if strategy == Optimal && length <= IntMax as real * maxInteractionLength {
      CountVersusMultiple(FloorCount(length, maxInteractionLength), 2, length, maxInteractionLength);
    }
  }

  /**
   * A successful count fits into an int and, with the optimal strategy, makes
   * every cell at least one interaction length wide unless the axis has one cell.
   */
  lemma AxisCellsWide(options: GridOptions, strategy: CellSizeStrategy, limit: CellNumberLimitation,
                      maxCells: int, length: real, maxInteractionLength: real)
    requires maxInteractionLength > 0.0 && length >= 0.0
    requires maxCells >= 0 && (options == PeriodicBoundaries ==> maxCells >= 2)
    ensures var r := AxisCells(options, strategy, limit, maxCells, length, maxInteractionLength);
      && (r.Ok? ==> r.value <= IntMax)
      && (r.Ok? && strategy == Optimal ==>
            r.value <= 1 || r.value as real * maxInteractionLength <= length)
  {
    var r := AxisCells(options, strategy, limit, maxCells, length, maxInteractionLength);
    DivideByReciprocal(IntMax as real, maxInteractionLength);
    if r.Ok? && strategy == Optimal {
      var n := FloorCount(length, maxInteractionLength);
      CountBelow(n, IntMax, length, maxInteractionLength);
      if r.value > 1 && r.value != n {
        MulLeqReal(r.value as real, n as real, maxInteractionLength);
      }
    }
  }

  /** floor(length * (1 / maxInteractionLength)): how many whole interaction lengths fit. */
  function FloorCount(length: real, maxInteractionLength: real): (n: int)
    requires maxInteractionLength > 0.0 && length >= 0.0
    ensures 0 <= n
    ensures n as real * maxInteractionLength <= length < (n as real + 1.0) * maxInteractionLength
  {
    var q := length * (1.0 / maxInteractionLength);
    ScaleBack(length, maxInteractionLength);
    var n := q.Floor;
    FloorBounds(length, maxInteractionLength, q, n);
    n
  }

  /** Multiplying by 1 / m and then by m gives the value back. */
  lemma ScaleBack(length: real, m: real)
    requires m > 0.0
    ensures (length * (1.0 / m)) * m == length
  {
    var f := 1.0 / m;
    assert f * m == 1.0;
    assert (length * f) * m == length * (f * m);
  }

  lemma FloorBounds(length: real, m: real, q: real, n: int)
    requires m > 0.0 && q * m == length && n as real <= q < n as real + 1.0
    ensures n as real * m <= length
    ensures length < (n as real + 1.0) * m
  {
    var low, high := n as real, n as real + 1.0;
    assert low * m <= length by { MulLeqReal(low, q, m); }
    assert length < high * m by { MulLessReal(q, high, m); }
  }

  lemma MulLeqReal(a: real, b: real, m: real)
    requires a <= b && m >= 0.0
    ensures a * m <= b * m
  {
    assert b * m - a * m == (b - a) * m;
  }

  lemma MulLessReal(a: real, b: real, m: real)
    requires a < b && m > 0.0
    ensures a * m < b * m
  {
    assert b * m - a * m == (b - a) * m;
  }

  /** Dividing by the reciprocal of m is multiplying by m. */
  lemma DivideByReciprocal(a: real, m: real)
    requires m > 0.0
    ensures a / (1.0 / m) == a * m
  {
    var f := 1.0 / m;
    assert f * m == 1.0;
    assert (a * m) * f == a * (m * f);
  }

  lemma CountBelow(n: int, bound: int, length: real, m: real)
    requires m > 0.0 && n as real * m <= length <= bound as real * m
    ensures n <= bound
  {
    if n > bound {
      MulLessReal(bound as real, n as real, m);
    }
  }

  /** n whole lengths m fit into `length`, n + 1 do not: n is below k exactly when length is below k lengths. */
  lemma CountVersusMultiple(n: int, k: int, length: real, m: real)
    requires m > 0.0 && n as real * m <= length < (n as real + 1.0) * m
    ensures n < k <==> length < k as real * m
  {
    if n < k {
      assert n as real + 1.0 <= k as real;
      MulLeqReal(n as real + 1.0, k as real, m);
    } else {
      assert k as real <= n as real;
      MulLeqReal(k as real, n as real, m);
    }
  }

  /** The cell counts of all three axes; the first axis that fails decides the exception. */
  function CellCounts(options: GridOptions, strategy: CellSizeStrategy, limit: CellNumberLimitation,
                      maxCells: int, length: Vec3, maxInteractionLength: real): Result<Index3, GridError>
    requires maxInteractionLength > 0.0 && length[0] >= 0.0 && length[1] >= 0.0 && length[2] >= 0.0
    requires maxCells >= 0 && (options == PeriodicBoundaries ==> maxCells >= 2)
  {
    var n0 :- AxisCells(options, strategy, limit, maxCells, length[0], maxInteractionLength);
    var n1 :- AxisCells(options, strategy, limit, maxCells, length[1], maxInteractionLength);
    var n2 :- AxisCells(options, strategy, limit, maxCells, length[2], maxInteractionLength);
    var counts: Index3 := [n0, n1, n2];
    Ok(counts)
  }

  /** What std::nextafter(x, 0.) promises for zero and for positive normalised doubles. */
  ghost predicate IsNextAfterTowardZero(nextDown: real -> real)
  {
    nextDown(0.0) == 0.0 &&
    forall x: real :: 0.0 < x ==> x - x / UlpDivisor <= nextDown(x) < x
  }

  /**
   * The index factor of one axis maps every coordinate of [0, length] to a
   * cell index in [0, cells): for a long axis it is just below cells / length,
   * so that the far face lands in the last cell and not beyond; for a short
   * axis it stays 1 / maxInteractionLength and everything lands in cell 0.
   */
  ghost predicate IndexFactorFits(length: real, maxInteractionLength: real, cells: int, factor: real)
  {
    maxInteractionLength > 0.0 &&
    (length >= maxInteractionLength ==>
       0.0 < factor && (cells - 1) as real < factor * length < cells as real) &&
    (length < maxInteractionLength ==> factor == 1.0 / maxInteractionLength)
  }

  /** IndexFactorFits on all three axes. */
  ghost predicate FactorsFit(length: Vec3, maxInteractionLength: real, cells: Index3, factor: Vec3)
  {
    && IndexFactorFits(length[0], maxInteractionLength, cells[0], factor[0])
    && IndexFactorFits(length[1], maxInteractionLength, cells[1], factor[1])
    && IndexFactorFits(length[2], maxInteractionLength, cells[2], factor[2])
  }

  /**
   * The loop over the three axes of the Grid constructor: chooses the number
   * of cells of every axis and the factor that turns a distance from the
   * minimum corner into a cell coordinate. The first axis that fails decides
   * the exception.
   */
  method ChooseGeometry(options: GridOptions, strategy: CellSizeStrategy, limit: CellNumberLimitation,
                        particleCount: nat, length: Vec3, maxInteractionLength: real,
                        nextDown: real -> real)
    returns (r: Result<Geometry, GridError>)
    requires maxInteractionLength > 0.0 && length[0] >= 0.0 && length[1] >= 0.0 && length[2] >= 0.0
    requires IsNextAfterTowardZero(nextDown)
    ensures var target := CellCounts(options, strategy, limit, MaxCells(options, particleCount),
                                       length, maxInteractionLength);
      && r.Ok? == target.Ok?
      && (r.Err? ==> r.error == target.error)
      && (r.Ok? ==> r.value.cells == target.value)
    ensures r.Ok? ==> FactorsFit(length, maxInteractionLength, r.value.cells, r.value.indexFactor)
  {
    var maxCells := MaxCells(options, particleCount);
    var cells: Index3 := [0, 0, 0];
    var indexFactor: Vec3 := [0.0, 0.0, 0.0];
    for i := 0 to 3
      invariant forall j :: 0 <= j < i ==>
        AxisCells(options, strategy, limit, maxCells, length[j], maxInteractionLength) == Ok(cells[j])
      invariant forall j :: 0 <= j < i ==>
        IndexFactorFits(length[j], maxInteractionLength, cells[j], indexFactor[j])
    {
      var axis := AxisGeometry(options, strategy, limit, maxCells, length[i], maxInteractionLength, nextDown);
      if axis.Err? {
        return Err(axis.error);
      }
      cells := cells[i := axis.value.0];
      indexFactor := indexFactor[i := axis.value.1];
    }
    r := Ok(Geometry(cells, indexFactor));
  }

  /**
   * One pass of the loop over the axes: the number of cells along an axis of
   * length `length`, or the exception, and then the index factor, nudged down
   * with nextafter until the far face of the box maps strictly below the
   * cell count.
   */
  method AxisGeometry(options: GridOptions, strategy: CellSizeStrategy, limit: CellNumberLimitation,
                      maxCells: int, length: real, maxInteractionLength: real, nextDown: real -> real)
    returns (r: Result<(int, real), GridError>)
    requires maxInteractionLength > 0.0 && length >= 0.0
    requires maxCells >= 1 && (options == PeriodicBoundaries ==> maxCells >= 2)
    requires IsNextAfterTowardZero(nextDown)
    ensures var target := AxisCells(options, strategy, limit, maxCells, length, maxInteractionLength);
      && r.Ok? == target.Ok?
      && (r.Err? ==> r.error == target.error)
      && (r.Ok? ==> r.value.0 == target.value)
    ensures r.Ok? ==> IndexFactorFits(length, maxInteractionLength, r.value.0, r.value.1)
  {
    var counted := AxisCells(options, strategy, limit, maxCells, length, maxInteractionLength);
    if counted.Err? {
      return Err(counted.error);
    }
    var n := counted.value;
    var indexFactor := 1.0 / maxInteractionLength;
    AxisCellsWide(options, strategy, limit, maxCells, length, maxInteractionLength);
    if length >= maxInteractionLength {
      indexFactor := NudgedFactor(n, length, nextDown);
    }
    r := Ok((n, indexFactor));
  }

  /**
   * index_factor = cells / length, then nextafter towards zero while the far
   * face still maps to `cells` or beyond.
   */
  method NudgedFactor(cells: int, length: real, nextDown: real -> real) returns (factor: real)
    requires 1 <= cells <= IntMax && length > 0.0
    requires IsNextAfterTowardZero(nextDown)
    ensures 0.0 < factor && (cells - 1) as real < factor * length < cells as real
  {
    factor := cells as real / length;
    assert factor * length == cells as real;
    while factor * length >= cells as real
      invariant factor == cells as real / length || (0.0 < factor && (cells - 1) as real < factor * length < cells as real)
      decreases if factor * length >= cells as real then 1 else 0
    {
      NudgeStaysClose(cells, length, nextDown);
      factor := nextDown(factor);
    }
  }

  /** One nextafter step from cells / length lands strictly inside (cells - 1, cells) after scaling. */
  lemma NudgeStaysClose(cells: int, length: real, nextDown: real -> real)
    requires 1 <= cells <= IntMax && length > 0.0
    requires IsNextAfterTowardZero(nextDown)
    ensures var f := nextDown(cells as real / length);
      0.0 < f && (cells - 1) as real < f * length < cells as real
  {
    var x := cells as real / length;
    assert 0.0 < x;
    var f := nextDown(x);
    assert x - x / UlpDivisor <= f < x;
    assert x * length == cells as real;
    assert f * length < x * length;
    assert (x - x / UlpDivisor) * length == cells as real - cells as real / UlpDivisor;
    assert (x - x / UlpDivisor) * length <= f * length;
    assert cells as real / UlpDivisor < 1.0;
  }

  /** The product of three counts that are each at most k is at most k cubed. */
  lemma ProductBelowCube(a: int, b: int, c: int, k: int)
    requires 0 <= a <= k && 0 <= b <= k && 0 <= c <= k
    ensures a * b * c <= k * k * k
  {
    MulLeq(a, k, b);
    MulLeq(b, k, k);
    MulLeq(a * b, k * k, c);
    assert k * k * c <= k * k * k by { MulLeq(c, k, k * k); }
  }

  /**
   * With the particle-number limitation and the optimal strategy the grid
   * never has more cells than particles (max_cells cubed is at most the
   * particle count), apart from the minimum of one cell, or 2 x 2 x 2 cells
   * with periodic boundaries.
   */
  lemma CellsBoundedByParticles(options: GridOptions, particleCount: nat, length: Vec3,
                                maxInteractionLength: real)
    requires maxInteractionLength > 0.0 && length[0] >= 0.0 && length[1] >= 0.0 && length[2] >= 0.0
    ensures var r := CellCounts(options, Optimal, ParticleNumber, MaxCells(options, particleCount),
                                length, maxInteractionLength);
      r.Ok? ==> CellCount(r.value) <= (if options == Normal then (if particleCount >= 1 then particleCount else 1)
                                       else (if particleCount >= 8 then particleCount else 8))
  {
    var m := MaxCells(options, particleCount);
    var r := CellCounts(options, Optimal, ParticleNumber, m, length, maxInteractionLength);
    if r.Ok? {
      var n := r.value;
      ProductBelowCube(n[0], n[1], n[2], m);
      if m <= 2 {
        assert m * m * m <= 8 by { ProductBelowCube(m, m, m, 2); }
        if options == Normal {
          assert m == 1 || m * m * m <= particleCount;
        }
      }
    }
  }

  const EightCells: Index3 := [2, 2, 2]

  /** A periodic grid built with the largest-cell strategy has exactly 2 x 2 x 2 cells. */
  lemma PeriodicLargestHasEightCells(limit: CellNumberLimitation, particleCount: nat, length: Vec3,
                                     maxInteractionLength: real)
    requires maxInteractionLength > 0.0 && length[0] >= 0.0 && length[1] >= 0.0 && length[2] >= 0.0
    ensures CellCounts(PeriodicBoundaries, Largest, limit, MaxCells(PeriodicBoundaries, particleCount),
                       length, maxInteractionLength) == Ok(EightCells)
  {
    var m := MaxCells(PeriodicBoundaries, particleCount);
    assert AxisCells(PeriodicBoundaries, Largest, limit, m, length[0], maxInteractionLength) == Ok(2);
    assert AxisCells(PeriodicBoundaries, Largest, limit, m, length[1], maxInteractionLength) == Ok(2);
    assert AxisCells(PeriodicBoundaries, Largest, limit, m, length[2], maxInteractionLength) == Ok(2);
  }

  /**
   * With the optimal strategy an index factor never exceeds 1 / maxInteractionLength:
   * two coordinates at most one interaction length apart fall into the same
   * or into neighbouring cells.
   */
  lemma OptimalFactorCoversInteractionLength(options: GridOptions, limit: CellNumberLimitation, maxCells: int,
                                             length: real, maxInteractionLength: real, factor: real)
    requires maxInteractionLength > 0.0 && length >= 0.0
    requires maxCells >= 1 && (options == PeriodicBoundaries ==> maxCells >= 2)
    requires AxisCells(options, Optimal, limit, maxCells, length, maxInteractionLength).Ok?
    requires IndexFactorFits(length, maxInteractionLength,
                             AxisCells(options, Optimal, limit, maxCells, length, maxInteractionLength).value, factor)
    ensures 0.0 < factor && factor * maxInteractionLength <= 1.0
  {
    var n := AxisCells(options, Optimal, limit, maxCells, length, maxInteractionLength).value;
    assert n <= 1 || n as real * maxInteractionLength <= length by {
      AxisCellsWide(options, Optimal, limit, maxCells, length, maxInteractionLength);
    }
    if length >= maxInteractionLength {
      var nr := n as real;
      assert factor * length < nr;
      if n <= 1 {
        assert factor * maxInteractionLength <= factor * length by {
          MulLeqReal(maxInteractionLength, length, factor);
        }
      } else {
        FactorBelowReciprocal(nr, length, maxInteractionLength, factor);
      }
    } else {
      assert factor == 1.0 / maxInteractionLength;
    }
  }

  /** A factor that maps length to fewer than nr cells, with nr cells of at least m each, maps m below 1. */
  lemma FactorBelowReciprocal(nr: real, length: real, m: real, factor: real)
    requires 0.0 < m && 0.0 < factor && 0.0 <= length && nr * m <= length && factor * length < nr
    ensures factor * m <= 1.0
  {
    assert (factor * m) * nr <= factor * length by {
      assert (factor * m) * nr == factor * (nr * m);
      MulLeqReal(nr * m, length, factor);
      assert length * factor == factor * length;
    }
    assert nr > 0.0 by {
      MulLeqReal(0.0, length, factor);
    }
    if factor * m > 1.0 {
      MulLessReal(1.0, factor * m, nr);
    }
  }

  /** The index factor after k nextafter steps from x. */
  function NudgeIterate(nextDown: real -> real, x: real, k: nat): real
  {
    if k == 0 then x else nextDown(NudgeIterate(nextDown, x, k - 1))
  }

  /**
   * As written, a grid without periodic boundaries, built from an empty
   * particle list with the particle-number limitation, caps every axis that
   * is at least one interaction length long to max_cells = cbrt(0) = 0 cells.
   * Its index factor starts at 0 / length = 0, nextafter(0, 0) is 0 again, and
   * the loop condition index_factor * length >= 0 holds after any number of
   * steps: the constructor never returns.
   */
  lemma {:induction false} EmptyNormalGridNeverStopsNudging(length: real, maxInteractionLength: real,
                                                            nextDown: real -> real, k: nat)
    requires maxInteractionLength > 0.0 && maxInteractionLength <= length <= IntMax as real * maxInteractionLength
    requires IsNextAfterTowardZero(nextDown)
    ensures AxisCells(Normal, Optimal, ParticleNumber, MaxCellsAsWritten(Normal, 0), length, maxInteractionLength) == Ok(0)
    ensures NudgeIterate(nextDown, 0 as real / length, k) * length >= 0 as real
  {
    assert MaxCellsAsWritten(Normal, 0) == 0 by {
      var k := CbrtFloor(0);
      if k >= 1 {
        PositiveCube(k);
      }
    }
    assert AxisCells(Normal, Optimal, ParticleNumber, 0, length, maxInteractionLength) == Ok(0) by {
      var n := FloorCount(length, maxInteractionLength);
      DivideByReciprocal(IntMax as real, maxInteractionLength);
      CountVersusMultiple(n, 1, length, maxInteractionLength);
      assert n >= 1;
      assert LimitCount(Normal, ParticleNumber, 0, n) == Ok(0);
    }
    ZeroIsNudgeFixpoint(nextDown, k);
  }

  lemma {:induction false} ZeroIsNudgeFixpoint(nextDown: real -> real, k: nat)
    requires IsNextAfterTowardZero(nextDown)
    ensures NudgeIterate(nextDown, 0.0, k) == 0.0
  {
    if k > 0 {
      ZeroIsNudgeFixpoint(nextDown, k - 1);
    }
  }
}
