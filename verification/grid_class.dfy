/**
 * The SMASH Grid object (grid.h, grid.cc): the constructor that sizes the
 * grid and places the particles into cells, and the two iterate_cells
 * specialisations that walk the cells once the grid exists.
 *
 * The fields of a Grid are set once by its constructor and never change
 * afterwards (length_ is const, iterate_cells is a const method); they are
 * `const` fields here. The callbacks of iterate_cells are replaced by the
 * sequence of callback invocations the method returns.
 */
module GridClass {
  import opened GridIndex
  import opened Outcomes
  import opened GridSizing
  import opened GridNeighbors

  /**
   * The particles the constructor keeps: all of them when unformed particles
   * are included, otherwise those whose cross-section scaling factor over the
   * time step is positive. `scaling` is p.xsec_scaling_factor(timestep_duration).
   */
  predicate Eligible(p: Particle, includeUnformed: bool, scaling: Particle -> real)
  {
    includeUnformed || scaling(p) > 0.0
  }

  /** The eligible particles of ps, in their order (the std::copy_if of the dilute grid). */
  function Eligibles(ps: seq<Particle>, includeUnformed: bool, scaling: Particle -> real): (r: seq<Particle>)
    ensures |r| <= |ps|
    ensures forall i :: 0 <= i < |r| ==> Eligible(r[i], includeUnformed, scaling)
    ensures forall p :: multiset(r)[p] == if Eligible(p, includeUnformed, scaling) then multiset(ps)[p] else 0
  {
    if |ps| == 0 then []
    else
      var p := ps[|ps| - 1];
      assert ps == ps[..|ps| - 1] + [p];
      Eligibles(ps[..|ps| - 1], includeUnformed, scaling) + (if Eligible(p, includeUnformed, scaling) then [p] else [])
  }

  /** The cell coordinates of a position: floor((pos - min) * index_factor) per axis (cell_index_for). */
  function CellOf(pos: Vec3, minPosition: Vec3, indexFactor: Vec3): Index3
  {
    [((pos[0] - minPosition[0]) * indexFactor[0]).Floor,
     ((pos[1] - minPosition[1]) * indexFactor[1]).Floor,
     ((pos[2] - minPosition[2]) * indexFactor[2]).Floor]
  }

  /** The flat index of the cell a particle is placed into. */
  function CellIndexFor(p: Particle, n: Index3, minPosition: Vec3, indexFactor: Vec3): int
  {
    MakeIndexOf(n, CellOf(p.position, minPosition, indexFactor))
  }

  /** The contents of cell k after placing ps in order: its eligible particles that map to k. */
  function Bucket(ps: seq<Particle>, n: Index3, minPosition: Vec3, indexFactor: Vec3,
                  includeUnformed: bool, scaling: Particle -> real, k: int): seq<Particle>
  {
    if |ps| == 0 then []
    else
      var p := ps[|ps| - 1];
      Bucket(ps[..|ps| - 1], n, minPosition, indexFactor, includeUnformed, scaling, k)
        + (if Eligible(p, includeUnformed, scaling) && CellIndexFor(p, n, minPosition, indexFactor) == k then [p] else [])
  }

  /** The volume of one cell of the full grid: the product of the cell extents. */
  function CellVolume(length: Vec3, n: Index3): real
    requires PositiveCounts(n)
  {
    (length[0] / n[0] as real) * (length[1] / n[1] as real) * (length[2] / n[2] as real)
  }

  /** The grid would have at most 2 x 2 x 2 cells in normal mode, and falls back to one cell. */
  predicate Dilute(options: GridOptions, n: Index3)
  {
    options == Normal && n[0] <= 2 && n[1] <= 2 && n[2] <= 2
  }

  /**
   * What the constructor with explicit bounds builds (or reports) for the
   * given box. Normal boundaries with the Largest strategy give one cell
   * with all particles. Otherwise the cell counts are chosen per axis, and a
   * failed choice is reported; a normal grid of at most 2 x 2 x 2 cells falls
   * back to one cell with the eligible particles; else every cell holds the
   * eligible particles its positions map to.
   */
  ghost predicate Built(r: Result<Grid, GridError>, options: GridOptions, minPosition: Vec3, length: Vec3,
                        particles: seq<Particle>, maxInteractionLength: real, limit: CellNumberLimitation,
                        includeUnformed: bool, strategy: CellSizeStrategy, scaling: Particle -> real)
  {
    && maxInteractionLength > 0.0 && length[0] >= 0.0 && length[1] >= 0.0 && length[2] >= 0.0
    && (r.Ok? ==> r.value.Valid() && r.value.options == options && r.value.length == length
                  && r.value.minPosition == minPosition)
    && (options == Normal && strategy == Largest ==>
          r.Ok? && r.value.numberOfCells == [1, 1, 1] && r.value.cells == [particles]
          && r.value.cellVolume == length[0] * length[1] * length[2])
    && (!(options == Normal && strategy == Largest) ==>
          var counts := CellCounts(options, strategy, limit, MaxCells(options, |particles|), length, maxInteractionLength);
          && (r.Err? <==> counts.Err?)
          && (r.Err? ==> r.error == counts.error)
          && (r.Ok? && Dilute(options, counts.value) ==>
                r.value.numberOfCells == [1, 1, 1] && r.value.cells == [Eligibles(particles, includeUnformed, scaling)]
                && r.value.cellVolume == length[0] * length[1] * length[2])
          && (r.Ok? && !Dilute(options, counts.value) ==>
                r.value.numberOfCells == counts.value
                && r.value.cellVolume == CellVolume(length, counts.value)
                && r.value.Buckets(particles, includeUnformed, scaling)
                && FactorsFit(length, maxInteractionLength, counts.value, r.value.indexFactor)))
  }

  /** The bounding box of the particles: it encloses them and each of its faces touches one of them. */
  ghost predicate BoundingBox(particles: seq<Particle>, minPosition: Vec3, length: Vec3)
  {
    && Encloses(particles, minPosition, length)
    && (forall i :: 0 <= i < 3 ==>
          exists j :: 0 <= j < |particles| && particles[j].position[i] == minPosition[i])
    && (forall i :: 0 <= i < 3 ==>
          exists j :: 0 <= j < |particles| && particles[j].position[i] == minPosition[i] + length[i])
  }

  /** The particles determine their bounding box: two of them are the same box. */
  lemma BoundingBoxUnique(particles: seq<Particle>, min1: Vec3, length1: Vec3, min2: Vec3, length2: Vec3)
    requires BoundingBox(particles, min1, length1) && BoundingBox(particles, min2, length2)
    ensures min1 == min2 && length1 == length2
  {
    forall i | 0 <= i < 3
      ensures min1[i] == min2[i] && length1[i] == length2[i]
    {
      var a :| 0 <= a < |particles| && particles[a].position[i] == min1[i];
      var b :| 0 <= b < |particles| && particles[b].position[i] == min2[i];
      var c :| 0 <= c < |particles| && particles[c].position[i] == min1[i] + length1[i];
      var d :| 0 <= d < |particles| && particles[d].position[i] == min2[i] + length2[i];
      WithinAxis(particles[a].position, min2, length2, i);
      WithinAxis(particles[b].position, min1, length1, i);
      WithinAxis(particles[c].position, min2, length2, i);
      WithinAxis(particles[d].position, min1, length1, i);
    }
  }

  /** A position within a box lies between the box's faces along each axis. */
  lemma WithinAxis(pos: Vec3, minPosition: Vec3, length: Vec3, i: int)
    requires 0 <= i < 3 && Within(pos, minPosition, Far(minPosition, length))
    ensures minPosition[i] <= pos[i] <= minPosition[i] + length[i]
  {
  }

  class Grid {
    /** Normal or periodic boundaries (the template parameter of Grid). */
    const options: GridOptions
    /** length_: the extent of the grid along x, y and z. */
    const length: Vec3
    /** number_of_cells_ */
    const numberOfCells: Index3
    /** cell_volume_ */
    const cellVolume: real
    /** cells_: the particles of every cell, indexed by make_index. */
    const cells: seq<seq<Particle>>
    /** The minimum corner the particles were placed relative to (a local of the constructor). */
    ghost const minPosition: Vec3
    /** The index factors the particles were placed with (a local of the constructor). */
    ghost const indexFactor: Vec3

    /** What iterate_cells relies on: one cell list per cell, and at least two cells per axis when periodic. */
    ghost predicate Valid()
    {
      CountsFor(options, numberOfCells) && |cells| == CellCount(numberOfCells)
    }

    /** A grid of a single cell holding `contents` (the normal-mode fallbacks). */
    constructor SingleCell(minPosition: Vec3, length: Vec3, contents: seq<Particle>)
      ensures options == Normal && this.length == length && this.minPosition == minPosition
      ensures numberOfCells == [1, 1, 1] && cells == [contents]
      ensures cellVolume == length[0] * length[1] * length[2]
      ensures Valid()
    {
      options := Normal;
      this.length := length;
      numberOfCells := [1, 1, 1];
      cellVolume := length[0] * length[1] * length[2];
      cells := [contents];
      this.minPosition := minPosition;
      indexFactor := Zero3;
    }

    /** A grid with the given cell counts and cell contents. */
    constructor Full(options: GridOptions, minPosition: Vec3, length: Vec3, n: Index3, cellVolume: real,
                     cells: seq<seq<Particle>>, ghost indexFactor: Vec3)
      requires CountsFor(options, n) && |cells| == CellCount(n)
      ensures this.options == options && this.length == length && this.minPosition == minPosition
      ensures numberOfCells == n && this.cellVolume == cellVolume && this.cells == cells
      ensures this.indexFactor == indexFactor
      ensures Valid()
    {
      this.options := options;
      this.length := length;
      numberOfCells := n;
      this.cellVolume := cellVolume;
      this.cells := cells;
      this.minPosition := minPosition;
      this.indexFactor := indexFactor;
    }

    /** Every cell holds exactly the eligible particles of ps that map to it, in their order. */
    ghost predicate Buckets(ps: seq<Particle>, includeUnformed: bool, scaling: Particle -> real)
    {
      |cells| == CellCount(numberOfCells) &&
      forall k :: 0 <= k < |cells| ==>
        cells[k] == Bucket(ps, numberOfCells, minPosition, indexFactor, includeUnformed, scaling, k)
    }

    /**
     * The Grid constructor with explicit bounds; what it builds is Built.
     *
     * The particles must lie inside the given box: otherwise the source
     * indexes cells_ out of bounds (its check for that exists only in debug
     * builds). Under that requirement the check never fires.
     */
    static method NewGrid(options: GridOptions, minPosition: Vec3, length: Vec3, particles: seq<Particle>,
                          maxInteractionLength: real, limit: CellNumberLimitation, includeUnformed: bool := false,
                          strategy: CellSizeStrategy := Optimal, scaling: Particle -> real, nextDown: real -> real)
      returns (r: Result<Grid, GridError>)
      requires maxInteractionLength > 0.0 && length[0] >= 0.0 && length[1] >= 0.0 && length[2] >= 0.0
      requires Encloses(particles, minPosition, length)
      requires IsNextAfterTowardZero(nextDown)
      ensures Built(r, options, minPosition, length, particles, maxInteractionLength, limit, includeUnformed,
                    strategy, scaling)
    {
      if options == Normal && strategy == Largest {
        var g := new Grid.SingleCell(minPosition, length, particles);
        return Ok(g);
      }
      var geometry :- ChooseGeometry(options, strategy, limit, |particles|, length, maxInteractionLength, nextDown);
      CountsChosen(options, strategy, limit, |particles|, length, maxInteractionLength);
      var g := FromCounts(options, minPosition, length, particles, maxInteractionLength, includeUnformed, scaling,
                          geometry.cells, geometry.indexFactor);
      r := Ok(g);
    }

    /**
     * The part of the constructor after the cell counts are known: the
     * dilute fallback to one cell of eligible particles, or the full grid
     * with every eligible particle appended to the cell its position maps to.
     */
    static method FromCounts(options: GridOptions, minPosition: Vec3, length: Vec3, particles: seq<Particle>,
                             maxInteractionLength: real, includeUnformed: bool, scaling: Particle -> real,
                             n: Index3, factor: Vec3)
      returns (g: Grid)
      requires CountsFor(options, n) && Encloses(particles, minPosition, length)
      requires FactorsFit(length, maxInteractionLength, n, factor)
      ensures g.Valid() && g.options == options && g.length == length && g.minPosition == minPosition
      ensures Dilute(options, n) ==>
        g.numberOfCells == [1, 1, 1] && g.cells == [Eligibles(particles, includeUnformed, scaling)]
        && g.cellVolume == length[0] * length[1] * length[2]
      ensures !Dilute(options, n) ==>
        g.numberOfCells == n && g.cellVolume == CellVolume(length, n) && g.indexFactor == factor
        && g.Buckets(particles, includeUnformed, scaling)
    {
      if options == Normal && n[0] <= 2 && n[1] <= 2 && n[2] <= 2 {
        var kept := if includeUnformed then particles else Eligibles(particles, includeUnformed, scaling);
        if includeUnformed {
          AllEligible(particles, scaling);
        }
        g := new Grid.SingleCell(minPosition, length, kept);
        return;
      }
      var volume := (length[0] / n[0] as real) * (length[1] / n[1] as real) * (length[2] / n[2] as real);
      var placed := PlaceParticles(particles, n, minPosition, length, maxInteractionLength, factor,
                                   includeUnformed, scaling);
      g := new Grid.Full(options, minPosition, length, n, volume, placed, factor);
    }

    /**
     * The delegating constructor: the bounds are the particles' bounding box
     * (find_min_and_length, which reads the first particle and so needs a
     * non-empty list), and the grid is the one the constructor with explicit
     * bounds builds for that box.
     */
    static method NewGridAround(options: GridOptions, particles: seq<Particle>, maxInteractionLength: real,
                                limit: CellNumberLimitation, includeUnformed: bool := false,
                                strategy: CellSizeStrategy := Optimal, scaling: Particle -> real, nextDown: real -> real)
      returns (r: Result<Grid, GridError>)
      requires |particles| > 0 && maxInteractionLength > 0.0
      requires IsNextAfterTowardZero(nextDown)
      ensures exists minPosition: Vec3, length: Vec3 ::
        && BoundingBox(particles, minPosition, length)
        && Built(r, options, minPosition, length, particles, maxInteractionLength, limit, includeUnformed,
                 strategy, scaling)
      ensures r.Ok? ==> BoundingBox(particles, r.value.minPosition, r.value.length)
    {
      var minPosition, length := FindMinAndLength(particles);
      ExtentNonNegative(particles, minPosition, length);
      r := NewGrid(options, minPosition, length, particles, maxInteractionLength, limit, includeUnformed,
                   strategy, scaling := scaling, nextDown := nextDown);
      assert BoundingBox(particles, minPosition, length);
    }

    /**
     * iterate_cells with normal boundaries: every cell in z-y-x raster order,
     * its search callback, then the neighbour callbacks of its offsets with a
     * positive flat offset.
     */
    method IterateCellsNormal() returns (trace: seq<Visit>)
      requires Valid() && options == Normal
      ensures trace == Trace(Normal, numberOfCells, length, cells)
    {
      VisitsOfAgrees(Normal, numberOfCells, length, cells);
      ghost var visits: Index3 -> seq<Visit> :| Agrees(Normal, numberOfCells, length, cells, visits);
      trace := NormalLayers(visits);
      AgreeingTrace(Normal, numberOfCells, length, cells, visits);
    }

    /** The loop over z of the normal iterate_cells, reporting the visits of every cell. */
    method NormalLayers(ghost visits: Index3 -> seq<Visit>) returns (trace: seq<Visit>)
      requires Valid() && options == Normal
      requires Agrees(Normal, numberOfCells, length, cells, visits)
      ensures trace == LayersZ(numberOfCells, visits, numberOfCells[2])
    {
      var n := numberOfCells;
      trace := [];
      var searchCellIndex := 0;
      for z := 0 to n[2]
        invariant trace == LayersZ(n, visits, z)
        invariant searchCellIndex == MakeIndex(n, 0, 0, z)
      {
        var layer;
        layer, searchCellIndex := NormalLayer(z, searchCellIndex, visits);
        assert LayersZ(n, visits, z + 1) == LayersZ(n, visits, z) + RowsY(n, visits, z, n[1]);
        trace := trace + layer;
      }
    }

    /** The loop over y of the normal iterate_cells, for layer z. */
    method NormalLayer(z: int, si: int, ghost visits: Index3 -> seq<Visit>) returns (vs: seq<Visit>, next: int)
      requires Valid() && options == Normal && 0 <= z < numberOfCells[2]
      requires Agrees(Normal, numberOfCells, length, cells, visits)
      requires si == MakeIndex(numberOfCells, 0, 0, z)
      ensures vs == RowsY(numberOfCells, visits, z, numberOfCells[1])
      ensures next == MakeIndex(numberOfCells, 0, 0, z + 1)
    {
      var n := numberOfCells;
      vs := [];
      next := si;
      for y := 0 to n[1]
        invariant vs == RowsY(n, visits, z, y)
        invariant next == MakeIndex(n, 0, y, z)
      {
        var row;
        row, next := NormalRow(z, y, next, visits);
        assert RowsY(n, visits, z, y + 1) == RowsY(n, visits, z, y) + CellsX(visits, z, y, n[0]);
        vs := vs + row;
      }
      assert MakeIndex(n, 0, n[1], z) == MakeIndex(n, 0, 0, z + 1) by {
        MakeIndexShift(n, 0, 0, z, 0, n[1], 0);
        MakeIndexShift(n, 0, 0, z, 0, 0, 1);
      }
    }

    /** The loop over x of the normal iterate_cells, for row y of layer z. */
    method NormalRow(z: int, y: int, si: int, ghost visits: Index3 -> seq<Visit>) returns (vs: seq<Visit>, next: int)
      requires Valid() && options == Normal && 0 <= z < numberOfCells[2] && 0 <= y < numberOfCells[1]
      requires Agrees(Normal, numberOfCells, length, cells, visits)
      requires si == MakeIndex(numberOfCells, 0, y, z)
      ensures vs == CellsX(visits, z, y, numberOfCells[0])
      ensures next == MakeIndex(numberOfCells, 0, y + 1, z)
    {
      var n := numberOfCells;
      vs := [];
      next := si;
      for x := 0 to n[0]
        invariant vs == CellsX(visits, z, y, x)
        invariant next == MakeIndex(n, x, y, z)
      {
        var c: Index3 := [x, y, z];
        var cellTrace := NormalCell(c, next, visits);
        assert CellsX(visits, z, y, x + 1) == CellsX(visits, z, y, x) + visits(c);
        vs := vs + cellTrace;
        next := next + 1;
      }
      assert MakeIndex(n, n[0], y, z) == MakeIndex(n, 0, y + 1, z) by {
        MakeIndexShift(n, 0, y, z, n[0], 0, 0);
        MakeIndexShift(n, 0, y, z, 0, 1, 0);
      }
    }

    /** The body of the normal-mode loops for one search cell c with flat index si. */
    method NormalCell(c: Index3, si: int, ghost visits: Index3 -> seq<Visit>) returns (vs: seq<Visit>)
      requires Valid() && options == Normal && InGrid(numberOfCells, c) && si == MakeIndexOf(numberOfCells, c)
      requires Agrees(Normal, numberOfCells, length, cells, visits)
      ensures vs == visits(c)
    {
      var n := numberOfCells;
      MakeIndexInBounds(n, c);
      var search := cells[si];
      ghost var f := SearchFrame(n, length, c, search);
      var dzList := DzOffsets(n[2], c[2]);
      var dyList := DxyOffsets(n[1], c[1]);
      var dxList := DxyOffsets(n[0], c[0]);
      ghost var zs := Lift(dzList, c[2]);
      vs := [SearchCell(c)];
      for iz := 0 to |dzList|
        invariant vs == [SearchCell(c)] + PairsZ(f, zs[..iz], Lift(dyList, c[1]), Lift(dxList, c[0]))
      {
        var part := NormalPairsY(f, n, c, search, dzList[iz], dyList, dxList);
        assert zs[iz] == NeighborLookup(c[2] + dzList[iz], No);
        PairsZPrefix(f, zs, iz, Lift(dyList, c[1]), Lift(dxList, c[0]));
        vs := vs + part;
      }
      assert zs[..|dzList|] == zs;
      assert vs == CellVisits(Normal, n, length, cells, c);
    }

    /**
     * iterate_cells with periodic boundaries: the same walk, with lookup
     * lists that wrap across the faces; the search list is a local copy,
     * translated whenever the wrap vector changes, so cells_ stays as it is.
     */
    method IterateCellsPeriodic() returns (trace: seq<Visit>)
      requires Valid() && options == PeriodicBoundaries
      ensures trace == Trace(PeriodicBoundaries, numberOfCells, length, cells)
    {
      VisitsOfAgrees(PeriodicBoundaries, numberOfCells, length, cells);
      ghost var visits: Index3 -> seq<Visit> :| Agrees(PeriodicBoundaries, numberOfCells, length, cells, visits);
      trace := PeriodicLayers(visits);
      AgreeingTrace(PeriodicBoundaries, numberOfCells, length, cells, visits);
    }

    /**
     * The loop over z of the periodic iterate_cells; dz_list is rebuilt for
     * every layer, dy_list and dx_list are carried over.
     */
    method PeriodicLayers(ghost visits: Index3 -> seq<Visit>) returns (trace: seq<Visit>)
      requires Valid() && options == PeriodicBoundaries
      requires Agrees(PeriodicBoundaries, numberOfCells, length, cells, visits)
      ensures trace == LayersZ(numberOfCells, visits, numberOfCells[2])
    {
      var n := numberOfCells;
      trace := [];
      var searchCellIndex := 0;
      var dzList := [NeighborLookup(0, No), NeighborLookup(0, No)];
      var dyList := [NeighborLookup(0, No), NeighborLookup(0, No), NeighborLookup(0, No)];
      var dxList := [NeighborLookup(0, No), NeighborLookup(0, No), NeighborLookup(0, No)];
      for z := 0 to n[2]
        invariant trace == LayersZ(n, visits, z)
        invariant searchCellIndex == MakeIndex(n, 0, 0, z)
        invariant |dzList| == 2 && dzList[0].wrap == No && (z < n[2] ==> dzList[1].wrap == No)
        invariant |dyList| == 3 && dyList[0].wrap == No && dyList[1].wrap == No
        invariant |dxList| == 3 && dxList[0].wrap == No && dxList[1].wrap == No
      {
        dzList := NextDzList(dzList, z, n[2]);
        var layer;
        layer, searchCellIndex, dyList, dxList := PeriodicLayer(z, searchCellIndex, dzList, dyList, dxList, visits);
        assert LayersZ(n, visits, z + 1) == LayersZ(n, visits, z) + RowsY(n, visits, z, n[1]);
        trace := trace + layer;
      }
    }

    /** The loop over y of the periodic iterate_cells, for layer z; dy_list and dx_list carry over between calls. */
    method PeriodicLayer(z: int, si: int, dzList: seq<NeighborLookup>, dyList0: seq<NeighborLookup>,
                         dxList0: seq<NeighborLookup>, ghost visits: Index3 -> seq<Visit>)
      returns (vs: seq<Visit>, next: int, dyList: seq<NeighborLookup>, dxList: seq<NeighborLookup>)
      requires Valid() && options == PeriodicBoundaries && 0 <= z < numberOfCells[2]
      requires Agrees(PeriodicBoundaries, numberOfCells, length, cells, visits)
      requires si == MakeIndex(numberOfCells, 0, 0, z) && dzList == DzList(z, numberOfCells[2])
      requires |dyList0| == 3 && dyList0[0].wrap == No && dyList0[1].wrap == No
      requires |dxList0| == 3 && dxList0[0].wrap == No && dxList0[1].wrap == No
      ensures vs == RowsY(numberOfCells, visits, z, numberOfCells[1])
      ensures next == MakeIndex(numberOfCells, 0, 0, z + 1)
      ensures |dyList| == 3 && dyList[0].wrap == No && dyList[1].wrap == No
      ensures |dxList| == 3 && dxList[0].wrap == No && dxList[1].wrap == No
    {
      var n := numberOfCells;
      vs, next, dyList, dxList := [], si, dyList0, dxList0;
      for y := 0 to n[1]
        invariant vs == RowsY(n, visits, z, y)
        invariant next == MakeIndex(n, 0, y, z)
        invariant |dyList| == 3 && dyList[0].wrap == No && dyList[1].wrap == No
        invariant |dxList| == 3 && dxList[0].wrap == No && dxList[1].wrap == No
      {
        dyList := NextDxyList(dyList, y, n[1]);
        var row;
        row, next, dxList := PeriodicRow(z, y, next, dzList, dyList, dxList, visits);
        assert RowsY(n, visits, z, y + 1) == RowsY(n, visits, z, y) + CellsX(visits, z, y, n[0]);
        vs := vs + row;
      }
      assert MakeIndex(n, 0, n[1], z) == MakeIndex(n, 0, 0, z + 1) by {
        MakeIndexShift(n, 0, 0, z, 0, n[1], 0);
        MakeIndexShift(n, 0, 0, z, 0, 0, 1);
      }
    }

    /** The loop over x of the periodic iterate_cells, for row y of layer z; dx_list carries over between calls. */
    method PeriodicRow(z: int, y: int, si: int, dzList: seq<NeighborLookup>, dyList: seq<NeighborLookup>,
                       dxList0: seq<NeighborLookup>, ghost visits: Index3 -> seq<Visit>)
      returns (vs: seq<Visit>, next: int, dxList: seq<NeighborLookup>)
      requires Valid() && options == PeriodicBoundaries && 0 <= z < numberOfCells[2] && 0 <= y < numberOfCells[1]
      requires Agrees(PeriodicBoundaries, numberOfCells, length, cells, visits)
      requires si == MakeIndex(numberOfCells, 0, y, z)
      requires dzList == DzList(z, numberOfCells[2]) && dyList == DxyList(y, numberOfCells[1])
      requires |dxList0| == 3 && dxList0[0].wrap == No && dxList0[1].wrap == No
      ensures vs == CellsX(visits, z, y, numberOfCells[0])
      ensures next == MakeIndex(numberOfCells, 0, y + 1, z)
      ensures |dxList| == 3 && dxList[0].wrap == No && dxList[1].wrap == No
    {
      var n := numberOfCells;
      vs, next, dxList := [], si, dxList0;
      for x := 0 to n[0]
        invariant vs == CellsX(visits, z, y, x)
        invariant next == MakeIndex(n, x, y, z)
        invariant |dxList| == 3 && dxList[0].wrap == No && dxList[1].wrap == No
      {
        dxList := NextDxyList(dxList, x, n[0]);
        var c: Index3 := [x, y, z];
        var cellTrace := PeriodicCell(c, next, dzList, dyList, dxList, visits);
        assert CellsX(visits, z, y, x + 1) == CellsX(visits, z, y, x) + visits(c);
        vs := vs + cellTrace;
        next := next + 1;
      }
      assert MakeIndex(n, n[0], y, z) == MakeIndex(n, 0, y + 1, z) by {
        MakeIndexShift(n, 0, y, z, n[0], 0, 0);
        MakeIndexShift(n, 0, y, z, 0, 1, 0);
      }
    }

    /** The body of the periodic-mode loops for search cell c, given the lookup lists of its coordinates. */
    method PeriodicCell(c: Index3, si: int, dzList: seq<NeighborLookup>, dyList: seq<NeighborLookup>,
                        dxList: seq<NeighborLookup>, ghost visits: Index3 -> seq<Visit>)
      returns (vs: seq<Visit>)
      requires Valid() && options == PeriodicBoundaries && InGrid(numberOfCells, c)
      requires Agrees(PeriodicBoundaries, numberOfCells, length, cells, visits)
      requires si == MakeIndexOf(numberOfCells, c)
      requires dzList == DzList(c[2], numberOfCells[2])
      requires dyList == DxyList(c[1], numberOfCells[1]) && dxList == DxyList(c[0], numberOfCells[0])
      ensures vs == visits(c)
    {
      var n := numberOfCells;
      MakeIndexInBounds(n, c);
      var search := cells[si];
      ghost var f := SearchFrame(n, length, c, search);
      vs := [SearchCell(c)];
      var virtualSearchIndex: Index3 := c;
      var wrapVector: Vec3 := Zero3;
      var currentWrapVector: Vec3 := Zero3;
      TranslateByZero(search);
      for iz := 0 to 2
        invariant vs == [SearchCell(c)] + PairsZ(f, dzList[..iz], dyList, dxList)
        invariant search == TranslateAll(f.home, currentWrapVector)
        invariant virtualSearchIndex[0] == c[0] && virtualSearchIndex[1] == c[1]
        invariant wrapVector[0] == 0.0 && wrapVector[1] == 0.0
        invariant iz < 2 ==> virtualSearchIndex[2] == c[2] && wrapVector[2] == 0.0
      {
        var dz := dzList[iz];
        if dz.wrap == MinusLength {
          wrapVector := wrapVector[2 := -length[2]];
          virtualSearchIndex := virtualSearchIndex[2 := -1];
        }
        var part;
        part, search, currentWrapVector :=
          PeriodicPairsY(f, n, c, length, dz, dyList, dxList, search, currentWrapVector, virtualSearchIndex, wrapVector);
        vs := vs + part;
        assert dzList[..iz + 1][..iz] == dzList[..iz];
      }
      assert dzList[..2] == dzList;
      assert vs == CellVisits(PeriodicBoundaries, n, length, cells, c);
    }
  }

  /**
   * The loop over dy_list in periodic mode, for one dz. The search list and
   * current_wrap_vector carry over from one call to the next; the y and x
   * components of virtual_search_index and wrap_vector are the loop's own
   * (the source resets them after each loop).
   */
  method PeriodicPairsY(ghost f: SearchFrame, n: Index3, c: Index3, length: Vec3, dz: NeighborLookup,
                        dyList: seq<NeighborLookup>, dxList: seq<NeighborLookup>, search0: seq<Particle>,
                        current0: Vec3, virtual0: Index3, wrap0: Vec3)
    returns (vs: seq<Visit>, search: seq<Particle>, current: Vec3)
    requires f.n == n && f.c == c && f.length == length && search0 == TranslateAll(f.home, current0)
    requires |dyList| == 3 && dyList[0].wrap == No && dyList[1].wrap == No
    requires |dxList| == 3 && dxList[0].wrap == No && dxList[1].wrap == No
    requires virtual0[2] == VirtualCoord(dz, c[2], n[2]) && wrap0[2] == Shift(dz.wrap, length[2])
    requires virtual0[1] == c[1] && wrap0[1] == 0.0 && virtual0[0] == c[0] && wrap0[0] == 0.0
    ensures vs == PairsY(f, dz, dyList, dxList)
    ensures search == TranslateAll(f.home, current)
  {
    var virtualSearchIndex, wrapVector := virtual0, wrap0;
    search, current := search0, current0;
    vs := [];
    for iy := 0 to 3
      invariant vs == PairsY(f, dz, dyList[..iy], dxList)
      invariant search == TranslateAll(f.home, current)
      invariant virtualSearchIndex[2] == VirtualCoord(dz, c[2], n[2]) && wrapVector[2] == Shift(dz.wrap, length[2])
      invariant virtualSearchIndex[0] == c[0] && wrapVector[0] == 0.0
      invariant iy < 3 ==> virtualSearchIndex[1] == c[1] && wrapVector[1] == 0.0
    {
      var dy := dyList[iy];
      if dy.wrap == MinusLength {
        wrapVector := wrapVector[1 := -length[1]];
        virtualSearchIndex := virtualSearchIndex[1 := -1];
      } else if dy.wrap == PlusLength {
        wrapVector := wrapVector[1 := length[1]];
        virtualSearchIndex := virtualSearchIndex[1 := n[1]];
      }
      var part;
      part, search, current :=
        PeriodicPairsX(f, n, c, length, dz, dy, dxList, search, current, virtualSearchIndex, wrapVector);
      vs := vs + part;
      assert dyList[..iy + 1][..iy] == dyList[..iy];
    }
    assert dyList[..3] == dyList;
  }

  /**
   * The loop over dx_list in periodic mode, for one dz and dy: a neighbour is
   * processed when its flat index exceeds that of the virtual search cell,
   * and the search list is translated when the wrap vector has changed.
   */
  method PeriodicPairsX(ghost f: SearchFrame, n: Index3, c: Index3, length: Vec3, dz: NeighborLookup,
                        dy: NeighborLookup, dxList: seq<NeighborLookup>, search0: seq<Particle>,
                        current0: Vec3, virtual0: Index3, wrap0: Vec3)
    returns (vs: seq<Visit>, search: seq<Particle>, current: Vec3)
    requires f.n == n && f.c == c && f.length == length && search0 == TranslateAll(f.home, current0)
    requires |dxList| == 3 && dxList[0].wrap == No && dxList[1].wrap == No
    requires virtual0[2] == VirtualCoord(dz, c[2], n[2]) && wrap0[2] == Shift(dz.wrap, length[2])
    requires virtual0[1] == VirtualCoord(dy, c[1], n[1]) && wrap0[1] == Shift(dy.wrap, length[1])
    requires virtual0[0] == c[0] && wrap0[0] == 0.0
    ensures vs == PairsX(f, dz, dy, dxList)
    ensures search == TranslateAll(f.home, current)
  {
    var virtualSearchIndex, wrapVector := virtual0, wrap0;
    search, current := search0, current0;
    vs := [];
    for ix := 0 to 3
      invariant vs == PairsX(f, dz, dy, dxList[..ix])
      invariant search == TranslateAll(f.home, current)
      invariant virtualSearchIndex[2] == VirtualCoord(dz, c[2], n[2]) && wrapVector[2] == Shift(dz.wrap, length[2])
      invariant virtualSearchIndex[1] == VirtualCoord(dy, c[1], n[1]) && wrapVector[1] == Shift(dy.wrap, length[1])
      invariant ix < 3 ==> virtualSearchIndex[0] == c[0] && wrapVector[0] == 0.0
    {
      var dx := dxList[ix];
      if dx.wrap == MinusLength {
        wrapVector := wrapVector[0 := -length[0]];
        virtualSearchIndex := virtualSearchIndex[0 := -1];
      } else if dx.wrap == PlusLength {
        wrapVector := wrapVector[0 := length[0]];
        virtualSearchIndex := virtualSearchIndex[0 := n[0]];
      }
      PeriodicStep(f, dz, dy, dx, virtualSearchIndex, wrapVector);
      assert dxList[..ix + 1][..ix] == dxList[..ix];
      var neighborCellIndex := MakeIndex(n, dx.index, dy.index, dz.index);
      if neighborCellIndex <= MakeIndexOf(n, virtualSearchIndex) {
        continue;
      }
      if wrapVector != current {
        TranslateCompose(f.home, current, wrapVector);
        search := TranslateAll(search, VecSub(wrapVector, current));
        current := wrapVector;
      }
      vs := vs + [NeighborPair(c, [dx.index, dy.index, dz.index], Wraps(dx.wrap, dy.wrap, dz.wrap), search)];
    }
    assert dxList[..3] == dxList;
  }

  /** The loop over dy_list in normal mode, for one dz. */
  method NormalPairsY(ghost f: SearchFrame, n: Index3, c: Index3, search: seq<Particle>, dz: int,
                      dyList: seq<int>, dxList: seq<int>)
    returns (vs: seq<Visit>)
    requires f.n == n && f.c == c && f.home == search
    ensures vs == PairsY(f, NeighborLookup(f.c[2] + dz, No), Lift(dyList, f.c[1]), Lift(dxList, f.c[0]))
  {
    ghost var ys := Lift(dyList, f.c[1]);
    vs := [];
    for iy := 0 to |dyList|
      invariant vs == PairsY(f, NeighborLookup(f.c[2] + dz, No), ys[..iy], Lift(dxList, f.c[0]))
    {
      var part := NormalPairsX(f, n, c, search, dz, dyList[iy], dxList);
      vs := vs + part;
      assert ys[..iy + 1][..iy] == ys[..iy];
    }
    assert ys[..|dyList|] == ys;
  }

  /** The loop over dx_list in normal mode, for one dz and dy: a neighbour is processed when its flat offset is positive. */
  method NormalPairsX(ghost f: SearchFrame, n: Index3, c: Index3, search: seq<Particle>, dz: int, dy: int,
                      dxList: seq<int>)
    returns (vs: seq<Visit>)
    requires f.n == n && f.c == c && f.home == search
    ensures vs == PairsX(f, NeighborLookup(f.c[2] + dz, No), NeighborLookup(f.c[1] + dy, No), Lift(dxList, f.c[0]))
  {
    ghost var ez, ey, xs := NeighborLookup(f.c[2] + dz, No), NeighborLookup(f.c[1] + dy, No), Lift(dxList, f.c[0]);
    TranslateByZero(search);
    vs := [];
    for ix := 0 to |dxList|
      invariant vs == PairsX(f, ez, ey, xs[..ix])
    {
      var dx := dxList[ix];
      var di := MakeIndex(n, dx, dy, dz);
      MakeIndexShift(n, c[0], c[1], c[2], dx, dy, dz);
      assert Processed(f, ez, ey, xs[ix]) <==> di > 0;
      if di > 0 {
        vs := vs + [NeighborPair(c, [c[0] + dx, c[1] + dy, c[2] + dz], NoWraps, search)];
      }
      assert xs[..ix + 1][..ix] == xs[..ix];
    }
    assert xs[..|dxList|] == xs;
  }

  /** The update of dz_list at the start of layer z (the wrap of entry 1 is set only on the last layer). */
  function NextDzList(dzList: seq<NeighborLookup>, z: int, count: int): (r: seq<NeighborLookup>)
    requires |dzList| == 2 && dzList[0].wrap == No && dzList[1].wrap == No
    ensures r == DzList(z, count)
  {
    var l := [dzList[0].(index := z), dzList[1].(index := z + 1)];
    if l[1].index == count then [l[0], NeighborLookup(0, MinusLength)] else l
  }

  /** The update of dy_list (dx_list) at the start of row y (cell x); entries 0 and 1 never wrap. */
  function NextDxyList(l: seq<NeighborLookup>, c: int, count: int): (r: seq<NeighborLookup>)
    requires |l| == 3 && l[0].wrap == No && l[1].wrap == No
    ensures r == DxyList(c, count)
  {
    var set3 := [l[0].(index := c), l[1].(index := c - 1), NeighborLookup(c + 1, No)];
    if c == 0 then [set3[0], set3[2], NeighborLookup(count - 1, PlusLength)]
    else if set3[2].index == count then [set3[0], set3[1], NeighborLookup(0, MinusLength)]
    else set3
  }

  /** Every coordinate of a particle inside the box maps to a cell of its axis. */
  lemma AxisCellInRange(d: real, length: real, maxInteractionLength: real, cells: int, factor: real)
    requires 0.0 <= d <= length && cells >= 1
    requires IndexFactorFits(length, maxInteractionLength, cells, factor)
    ensures 0 <= (d * factor).Floor < cells
  {
    if length >= maxInteractionLength {
      MulLeqReal(d, length, factor);
      assert 0.0 <= d * factor;
    } else {
      assert d * factor == d / maxInteractionLength;
      assert d / maxInteractionLength < 1.0 by {
        assert d < maxInteractionLength;
      }
    }
  }

  /**
   * The debug-only out-of-bounds check of the constructor cannot fire: a
   * particle inside the box maps to a cell of the grid.
   */
  lemma CellOfInGrid(pos: Vec3, minPosition: Vec3, length: Vec3, maxInteractionLength: real, n: Index3,
                     indexFactor: Vec3)
    requires PositiveCounts(n) && Within(pos, minPosition, Far(minPosition, length))
    requires FactorsFit(length, maxInteractionLength, n, indexFactor)
    ensures InGrid(n, CellOf(pos, minPosition, indexFactor))
  {
    CellAxisInRange(pos, minPosition, length, maxInteractionLength, n, indexFactor, 0);
    CellAxisInRange(pos, minPosition, length, maxInteractionLength, n, indexFactor, 1);
    CellAxisInRange(pos, minPosition, length, maxInteractionLength, n, indexFactor, 2);
  }

  lemma CellAxisInRange(pos: Vec3, minPosition: Vec3, length: Vec3, maxInteractionLength: real, n: Index3,
                        indexFactor: Vec3, i: int)
    requires 0 <= i < 3 && n[i] >= 1 && minPosition[i] <= pos[i] <= minPosition[i] + length[i]
    requires IndexFactorFits(length[i], maxInteractionLength, n[i], indexFactor[i])
    ensures 0 <= CellOf(pos, minPosition, indexFactor)[i] < n[i]
  {
    AxisCellInRange(pos[i] - minPosition[i], length[i], maxInteractionLength, n[i], indexFactor[i]);
  }

  /**
   * The placement loop of the constructor: cells_ resized to one empty list
   * per cell, then every eligible particle appended to the cell its
   * position maps to.
   */
  method PlaceParticles(particles: seq<Particle>, n: Index3, minPosition: Vec3, length: Vec3,
                        maxInteractionLength: real, indexFactor: Vec3, includeUnformed: bool,
                        scaling: Particle -> real)
    returns (cells: seq<seq<Particle>>)
    requires PositiveCounts(n) && Encloses(particles, minPosition, length)
    requires FactorsFit(length, maxInteractionLength, n, indexFactor)
    ensures |cells| == CellCount(n)
    ensures forall k :: 0 <= k < |cells| ==>
      cells[k] == Bucket(particles, n, minPosition, indexFactor, includeUnformed, scaling, k)
  {
    cells := seq(CellCount(n), k => []);
    for i := 0 to |particles|
      invariant |cells| == CellCount(n)
      invariant forall k :: 0 <= k < |cells| ==>
        cells[k] == Bucket(particles[..i], n, minPosition, indexFactor, includeUnformed, scaling, k)
    {
      var p := particles[i];
      assert particles[..i + 1][..i] == particles[..i];
      if !includeUnformed && scaling(p) <= 0.0 {
        continue;
      }
      assert Within(p.position, minPosition, Far(minPosition, length));
      CellOfInGrid(p.position, minPosition, length, maxInteractionLength, n, indexFactor);
      MakeIndexInBounds(n, CellOf(p.position, minPosition, indexFactor));
      var idx := CellIndexFor(p, n, minPosition, indexFactor);
      cells := cells[idx := cells[idx] + [p]];
    }
    assert particles[..|particles|] == particles;
  }

  /**
   * Every eligible particle lands in exactly one cell: cell k holds a
   * particle as often as the input does when the particle is eligible and
   * maps to k, and never otherwise.
   */
  lemma {:induction false} BucketCount(ps: seq<Particle>, n: Index3, minPosition: Vec3, indexFactor: Vec3,
                                       includeUnformed: bool, scaling: Particle -> real, k: int, p: Particle)
    ensures multiset(Bucket(ps, n, minPosition, indexFactor, includeUnformed, scaling, k))[p]
         == if Eligible(p, includeUnformed, scaling) && CellIndexFor(p, n, minPosition, indexFactor) == k
            then multiset(ps)[p] else 0
  {
    if |ps| > 0 {
      var init, last := ps[..|ps| - 1], ps[|ps| - 1];
      var hit := Eligible(p, includeUnformed, scaling) && CellIndexFor(p, n, minPosition, indexFactor) == k;
      assert multiset(Bucket(init, n, minPosition, indexFactor, includeUnformed, scaling, k))[p]
          == if hit then multiset(init)[p] else 0 by {
        BucketCount(init, n, minPosition, indexFactor, includeUnformed, scaling, k, p);
      }
      assert multiset(ps) == multiset(init) + multiset([last]) by {
        assert init + [last] == ps;
      }
      var tail := if Eligible(last, includeUnformed, scaling) && CellIndexFor(last, n, minPosition, indexFactor) == k then [last] else [];
      assert multiset(Bucket(ps, n, minPosition, indexFactor, includeUnformed, scaling, k))
          == multiset(Bucket(init, n, minPosition, indexFactor, includeUnformed, scaling, k)) + multiset(tail);
    }
  }

  /** The cells of the full grid together hold each eligible particle exactly as often as the input. */
  lemma PlacedOnce(ps: seq<Particle>, n: Index3, minPosition: Vec3, indexFactor: Vec3,
                   includeUnformed: bool, scaling: Particle -> real, p: Particle, k: int, j: int)
    requires p in ps && Eligible(p, includeUnformed, scaling)
    ensures p in Bucket(ps, n, minPosition, indexFactor, includeUnformed, scaling, k)
        <==> k == CellIndexFor(p, n, minPosition, indexFactor)
    ensures (p in Bucket(ps, n, minPosition, indexFactor, includeUnformed, scaling, k)
             && p in Bucket(ps, n, minPosition, indexFactor, includeUnformed, scaling, j)) ==> k == j
  {
    BucketCount(ps, n, minPosition, indexFactor, includeUnformed, scaling, k, p);
    BucketCount(ps, n, minPosition, indexFactor, includeUnformed, scaling, j, p);
  }

  /** An ineligible particle is in no cell of the full grid. */
  lemma SkippedNowhere(ps: seq<Particle>, n: Index3, minPosition: Vec3, indexFactor: Vec3,
                       includeUnformed: bool, scaling: Particle -> real, p: Particle, k: int)
    requires !Eligible(p, includeUnformed, scaling)
    ensures p !in Bucket(ps, n, minPosition, indexFactor, includeUnformed, scaling, k)
  {
    BucketCount(ps, n, minPosition, indexFactor, includeUnformed, scaling, k, p);
  }

  /** The cells of the full grid exactly tile the box: cell volume times cell count is the box volume. */
  lemma CellVolumesTile(length: Vec3, n: Index3)
    requires PositiveCounts(n)
    ensures CellVolume(length, n) * (CellCount(n) as real) == length[0] * length[1] * length[2]
  {
    var a, b, c := n[0] as real, n[1] as real, n[2] as real;
    assert (length[0] / a) * a == length[0];
    assert (length[1] / b) * b == length[1];
    assert (length[2] / c) * c == length[2];
    assert CellCount(n) as real == a * b * c;
    assert CellVolume(length, n) * (a * b * c)
        == ((length[0] / a) * a) * ((length[1] / b) * b) * ((length[2] / c) * c);
  }

  /** With unformed particles included, every particle is eligible. */
  lemma {:induction false} AllEligible(ps: seq<Particle>, scaling: Particle -> real)
    ensures Eligibles(ps, true, scaling) == ps
  {
    if |ps| > 0 {
      AllEligible(ps[..|ps| - 1], scaling);
      assert ps[..|ps| - 1] + [ps[|ps| - 1]] == ps;
    }
  }

  /** A box around at least one particle has no negative extent. */
  lemma ExtentNonNegative(particles: seq<Particle>, minPosition: Vec3, length: Vec3)
    requires |particles| > 0 && Encloses(particles, minPosition, length)
    ensures length[0] >= 0.0 && length[1] >= 0.0 && length[2] >= 0.0
  {
    assert Within(particles[0].position, minPosition, Far(minPosition, length));
  }

  /** The cell counts the constructor accepts are at least 1 per axis, and at least 2 when periodic. */
  lemma CountsChosen(options: GridOptions, strategy: CellSizeStrategy, limit: CellNumberLimitation,
                     particleCount: nat, length: Vec3, maxInteractionLength: real)
    requires maxInteractionLength > 0.0 && length[0] >= 0.0 && length[1] >= 0.0 && length[2] >= 0.0
    ensures var counts := CellCounts(options, strategy, limit, MaxCells(options, particleCount), length, maxInteractionLength);
      counts.Ok? ==> CountsFor(options, counts.value)
  {
  }

  /** Translating by a, then by b - a, is translating by b. */
  lemma TranslateCompose(ps: seq<Particle>, a: Vec3, b: Vec3)
    ensures TranslateAll(TranslateAll(ps, a), VecSub(b, a)) == TranslateAll(ps, b)
  {
    forall i | 0 <= i < |ps|
      ensures Translated(Translated(ps[i], a), VecSub(b, a)) == Translated(ps[i], b)
    {
      var pos := ps[i].position;
      assert [pos[0] + a[0] + (b[0] - a[0]), pos[1] + a[1] + (b[1] - a[1]), pos[2] + a[2] + (b[2] - a[2])]
          == [pos[0] + b[0], pos[1] + b[1], pos[2] + b[2]];
    }
  }

  /**
   * Inside the innermost periodic loop, virtual_search_index and wrap_vector
   * are those of the current lookup triple, so the `continue` test is the
   * negation of Processed and the translation is the triple's wrap vector.
   */
  lemma PeriodicStep(f: SearchFrame, dz: NeighborLookup, dy: NeighborLookup, dx: NeighborLookup,
                     virtualSearchIndex: Index3, wrapVector: Vec3)
    requires virtualSearchIndex[0] == VirtualCoord(dx, f.c[0], f.n[0])
    requires virtualSearchIndex[1] == VirtualCoord(dy, f.c[1], f.n[1])
    requires virtualSearchIndex[2] == VirtualCoord(dz, f.c[2], f.n[2])
    requires wrapVector[0] == Shift(dx.wrap, f.length[0]) && wrapVector[1] == Shift(dy.wrap, f.length[1])
    requires wrapVector[2] == Shift(dz.wrap, f.length[2])
    ensures Processed(f, dz, dy, dx) <==> MakeIndex(f.n, dx.index, dy.index, dz.index) > MakeIndexOf(f.n, virtualSearchIndex)
    ensures wrapVector == WrapVector(Wraps(dx.wrap, dy.wrap, dz.wrap), f.length)
  {
  }
}
