/**
 * Cell coordinates, cell indices and the option enumerations of the SMASH
 * spatial grid (grid.h, and make_index in grid.cc).
 *
 * Cells are numbered in raster order: x varies fastest, then y, then z.
 */
module GridIndex {

  /** A position or an extent along x, y and z. */
  type Vec3 = v: seq<real> | |v| == 3 witness [0.0, 0.0, 0.0]

  /** Integer cell coordinates, or numbers of cells, along x, y and z. */
  type Index3 = v: seq<int> | |v| == 3 witness [0, 0, 0]

  /** Whether the grid wraps around at its faces (grid.h, GridOptions). */
  datatype GridOptions = Normal | PeriodicBoundaries

  /** How large the cells are chosen (grid.h, CellSizeStrategy). */
  datatype CellSizeStrategy = Optimal | Largest

  /** Whether the number of cells is capped by the number of particles (grid.h, CellNumberLimitation). */
  datatype CellNumberLimitation = NoLimit | ParticleNumber

  const Zero3: Vec3 := [0.0, 0.0, 0.0]

  /** A particle as the grid sees it: an identity and its spatial position (x, y, z). */
  datatype Particle = Particle(id: int, position: Vec3)

  /** The particle moved by the vector v (its identity is kept). */
  function Translated(p: Particle, v: Vec3): Particle
  {
    Particle(p.id, [p.position[0] + v[0], p.position[1] + v[1], p.position[2] + v[2]])
  }

  /** The flat index of the cell at (x, y, z) in a grid with n[0] x n[1] x n[2] cells. */
  function MakeIndex(n: Index3, x: int, y: int, z: int): int
  {
    (z * n[1] + y) * n[0] + x
  }

  /** The overload of make_index that takes the three coordinates as one array. */
  function MakeIndexOf(n: Index3, c: Index3): (r: int)
    ensures r == MakeIndex(n, c[0], c[1], c[2])
  {
    (c[2] * n[1] + c[1]) * n[0] + c[0]
  }

  /** Total number of cells of a grid with the given cell counts per axis. */
  function CellCount(n: Index3): int
  {
    n[0] * n[1] * n[2]
  }

  predicate PositiveCounts(n: Index3)
  {
    n[0] >= 1 && n[1] >= 1 && n[2] >= 1
  }

  /** The coordinates c address an existing cell. */
  predicate InGrid(n: Index3, c: Index3)
  {
    0 <= c[0] < n[0] && 0 <= c[1] < n[1] && 0 <= c[2] < n[2]
  }

  /** Raster order on cell coordinates: z first, then y, then x. */
  predicate RasterBefore(p: Index3, q: Index3)
  {
    p[2] < q[2] || (p[2] == q[2] && (p[1] < q[1] || (p[1] == q[1] && p[0] < q[0])))
  }

  /** Two-digit positional comparison with digit base m. */
  lemma PositionalLess(a1: int, b1: int, a2: int, b2: int, m: int)
    requires 0 <= b1 < m && 0 <= b2 < m
    ensures a1 * m + b1 < a2 * m + b2 <==> a1 < a2 || (a1 == a2 && b1 < b2)
    ensures a1 * m + b1 == a2 * m + b2 <==> a1 == a2 && b1 == b2
  {
    if a1 < a2 {
      assert a1 * m <= (a2 - 1) * m by { MulLeq(a1, a2 - 1, m); }
      assert (a2 - 1) * m == a2 * m - m;
    } else if a2 < a1 {
      assert a2 * m <= (a1 - 1) * m by { MulLeq(a2, a1 - 1, m); }
      assert (a1 - 1) * m == a1 * m - m;
    }
  }

  lemma MulLeq(a: int, b: int, m: int)
    requires a <= b && 0 <= m
    ensures a * m <= b * m
  {
    assert b * m - a * m == (b - a) * m;
  }

  /** Every cell of the grid has a flat index in [0, CellCount(n)). */
  lemma MakeIndexInBounds(n: Index3, c: Index3)
    requires InGrid(n, c)
    ensures 0 <= MakeIndexOf(n, c) < CellCount(n)
  {
    PositionalBound(c[2], c[1], n[1], n[2]);
    PositionalBound(c[2] * n[1] + c[1], c[0], n[0], n[2] * n[1]);
    assert (n[2] * n[1]) * n[0] == n[0] * n[1] * n[2];
  }

  /** A two-digit number with digit base m and leading digit below bound is below bound * m. */
  lemma PositionalBound(hi: int, lo: int, m: int, bound: int)
    requires 0 <= hi < bound && 0 <= lo < m
    ensures 0 <= hi * m + lo < bound * m
  {
    MulLeq(0, hi, m);
    MulLeq(hi + 1, bound, m);
    assert (hi + 1) * m == hi * m + m;
  }

  /** The flat index orders cells exactly as the raster order does. */
  lemma {:induction false} MakeIndexOrder(n: Index3, p: Index3, q: Index3)
    requires InGrid(n, p) && InGrid(n, q)
    ensures MakeIndexOf(n, p) < MakeIndexOf(n, q) <==> RasterBefore(p, q)
    ensures MakeIndexOf(n, p) == MakeIndexOf(n, q) <==> p == q
  {
    PositionalLess(p[2], p[1], q[2], q[1], n[1]);
    PositionalLess(p[2] * n[1] + p[1], p[0], q[2] * n[1] + q[1], q[0], n[0]);
    if p[0] == q[0] && p[1] == q[1] && p[2] == q[2] {
      assert p == q;
    }
  }

  /** make_index is linear: the index of a shifted cell is the index plus the index of the shift. */
  lemma MakeIndexShift(n: Index3, x: int, y: int, z: int, dx: int, dy: int, dz: int)
    ensures MakeIndex(n, x + dx, y + dy, z + dz) == MakeIndex(n, x, y, z) + MakeIndex(n, dx, dy, dz)
  {
    assert (z + dz) * n[1] == z * n[1] + dz * n[1];
    assert ((z * n[1] + y) + (dz * n[1] + dy)) * n[0]
        == (z * n[1] + y) * n[0] + (dz * n[1] + dy) * n[0];
  }
}
