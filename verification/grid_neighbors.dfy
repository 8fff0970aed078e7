/**
 * What the two iterate_cells specialisations of grid.cc report: the search
 * callback for every cell in raster order, then the neighbour callback for
 * every neighbour lookup that passes the "forward half" test.
 *
 * Both specialisations walk three short lists of neighbour lookups (dz_list,
 * dy_list, dx_list). A lookup names a cell coordinate along one axis and
 * whether that coordinate was reached across a periodic face. A lookup
 * triple is processed exactly when the neighbour's flat index exceeds the
 * flat index of the "virtual" search cell, the search cell seen from the
 * neighbour's side of the face. In normal mode the lists come from the
 * offset lists ZERO, ZERO_ONE, MINUS_ONE_ZERO and MINUS_ONE_ZERO_ONE and no
 * lookup wraps.
 */
module GridNeighbors {
  import opened GridIndex

  /** How a neighbour across a periodic face is reached (grid.cc, NeedsToWrap). */
  datatype NeedsToWrap = PlusLength | No | MinusLength

  /** One entry of dx_list, dy_list or dz_list (grid.cc, NeighborLookup). */
  datatype NeighborLookup = NeighborLookup(index: int, wrap: NeedsToWrap)

  /** The wraps of the x, y and z lookups that reached a neighbour. */
  datatype Wraps = Wraps(x: NeedsToWrap, y: NeedsToWrap, z: NeedsToWrap)

  const NoWraps: Wraps := Wraps(No, No, No)

  /**
   * One callback invocation, naming cells by their coordinates. SearchCell:
   * the search callback with the particles of `cell`. NeighborPair: the
   * neighbour callback with the search list (the particles of `search`,
   * translated across the wrapped faces) and the particles of `neighbor`,
   * which the grid hands over unchanged.
   */
  datatype Visit =
    | SearchCell(cell: Index3)
    | NeighborPair(search: Index3, neighbor: Index3, wraps: Wraps, searchList: seq<Particle>)

  /** The search cell a visit belongs to. */
  function SearchOf(v: Visit): Index3
  {
    match v
    case SearchCell(cell) => cell
    case NeighborPair(search, _, _, _) => search
  }

  /** Every particle of the list moved by v (ParticleData::translated). */
  function TranslateAll(ps: seq<Particle>, v: Vec3): seq<Particle>
  {
    seq(|ps|, i requires 0 <= i < |ps| => Translated(ps[i], v))
  }

  function VecSub(a: Vec3, b: Vec3): Vec3
  {
    [a[0] - b[0], a[1] - b[1], a[2] - b[2]]
  }

  /** The translation along one axis that a wrap calls for: minus or plus the box length. */
  function Shift(w: NeedsToWrap, len: real): real
  {
    match w
    case MinusLength => -len
    case PlusLength => len
    case No => 0.0
  }

  /** wrap_vector at the time a neighbour reached with wraps w is processed. */
  function WrapVector(w: Wraps, length: Vec3): Vec3
  {
    [Shift(w.x, length[0]), Shift(w.y, length[1]), Shift(w.z, length[2])]
  }

  /** virtual_search_index along one axis: -1 or the cell count across a face, else the search coordinate. */
  function VirtualCoord(e: NeighborLookup, c: int, count: int): int
  {
    match e.wrap
    case MinusLength => -1
    case PlusLength => count
    case No => c
  }

  /** The search cell being visited: the cell counts, the box lengths, its coordinates and its particles. */
  datatype SearchFrame = SearchFrame(n: Index3, length: Vec3, c: Index3, home: seq<Particle>)

  /** The neighbour reached by a lookup triple is processed (grid.cc: not `neighbor <= make_index(virtual)`). */
  predicate Processed(f: SearchFrame, ez: NeighborLookup, ey: NeighborLookup, ex: NeighborLookup)
  {
    MakeIndex(f.n, ex.index, ey.index, ez.index) >
    MakeIndex(f.n, VirtualCoord(ex, f.c[0], f.n[0]), VirtualCoord(ey, f.c[1], f.n[1]), VirtualCoord(ez, f.c[2], f.n[2]))
  }

  /** The neighbour callback a lookup triple produces when it is processed. */
  function PairEvent(f: SearchFrame, ez: NeighborLookup, ey: NeighborLookup, ex: NeighborLookup): Visit
  {
    var w := Wraps(ex.wrap, ey.wrap, ez.wrap);
    NeighborPair(f.c, [ex.index, ey.index, ez.index], w, TranslateAll(f.home, WrapVector(w, f.length)))
  }

  predicate AllFrom(vs: seq<Visit>, c: Index3)
  {
    forall i :: 0 <= i < |vs| ==> vs[i].NeighborPair? && vs[i].search == c
  }

  /** The innermost loop, over dx_list. */
  function PairsX(f: SearchFrame, ez: NeighborLookup, ey: NeighborLookup, xs: seq<NeighborLookup>): (r: seq<Visit>)
    ensures AllFrom(r, f.c)
  {
    if |xs| == 0 then []
    else
      var ex := xs[|xs| - 1];
      PairsX(f, ez, ey, xs[..|xs| - 1]) + (if Processed(f, ez, ey, ex) then [PairEvent(f, ez, ey, ex)] else [])
  }

  /** The loop over dy_list. */
  function PairsY(f: SearchFrame, ez: NeighborLookup, ys: seq<NeighborLookup>, xs: seq<NeighborLookup>): (r: seq<Visit>)
    ensures AllFrom(r, f.c)
  {
    if |ys| == 0 then []
    else PairsY(f, ez, ys[..|ys| - 1], xs) + PairsX(f, ez, ys[|ys| - 1], xs)
  }

  /** The loop over dz_list: all neighbour callbacks of one search cell, in order. */
  function PairsZ(f: SearchFrame, zs: seq<NeighborLookup>, ys: seq<NeighborLookup>, xs: seq<NeighborLookup>): (r: seq<Visit>)
    ensures AllFrom(r, f.c)
  {
    if |zs| == 0 then []
    else PairsZ(f, zs[..|zs| - 1], ys, xs) + PairsY(f, zs[|zs| - 1], ys, xs)
  }

  /** Taking one more entry of dz_list appends that entry's callbacks. */
  lemma PairsZPrefix(f: SearchFrame, zs: seq<NeighborLookup>, i: int, ys: seq<NeighborLookup>, xs: seq<NeighborLookup>)
    requires 0 <= i < |zs|
    ensures PairsZ(f, zs[..i + 1], ys, xs) == PairsZ(f, zs[..i], ys, xs) + PairsY(f, zs[i], ys, xs)
  {
    assert zs[..i + 1][..i] == zs[..i];
  }

  // ---------------------------------------------------------------------
  // The lookup lists of the two modes

  /** dz_list in normal mode: ZERO on the last layer, ZERO_ONE elsewhere. */
  function DzOffsets(count: int, z: int): seq<int>
  {
    if z == count - 1 then [0] else [0, 1]
  }

  /** dy_list and dx_list in normal mode. */
  function DxyOffsets(count: int, c: int): seq<int>
  {
    if count == 1 then [0]
    else if c == 0 then [0, 1]
    else if c == count - 1 then [-1, 0]
    else [-1, 0, 1]
  }

  /** Offsets from coordinate c as lookups that never wrap. */
  function Lift(ds: seq<int>, c: int): seq<NeighborLookup>
  {
    seq(|ds|, i requires 0 <= i < |ds| => NeighborLookup(c + ds[i], No))
  }

  /** dz_list in periodic mode for layer z. */
  function DzList(z: int, count: int): seq<NeighborLookup>
  {
    [NeighborLookup(z, No), if z + 1 == count then NeighborLookup(0, MinusLength) else NeighborLookup(z + 1, No)]
  }

  /** dy_list and dx_list in periodic mode for coordinate c. */
  function DxyList(c: int, count: int): seq<NeighborLookup>
  {
    if c == 0 then [NeighborLookup(0, No), NeighborLookup(1, No), NeighborLookup(count - 1, PlusLength)]
    else if c + 1 == count then [NeighborLookup(c, No), NeighborLookup(c - 1, No), NeighborLookup(0, MinusLength)]
    else [NeighborLookup(c, No), NeighborLookup(c - 1, No), NeighborLookup(c + 1, No)]
  }

  function ZLookups(options: GridOptions, n: Index3, c: Index3): seq<NeighborLookup>
  {
    if options == Normal then Lift(DzOffsets(n[2], c[2]), c[2]) else DzList(c[2], n[2])
  }

  function YLookups(options: GridOptions, n: Index3, c: Index3): seq<NeighborLookup>
  {
    if options == Normal then Lift(DxyOffsets(n[1], c[1]), c[1]) else DxyList(c[1], n[1])
  }

  function XLookups(options: GridOptions, n: Index3, c: Index3): seq<NeighborLookup>
  {
    if options == Normal then Lift(DxyOffsets(n[0], c[0]), c[0]) else DxyList(c[0], n[0])
  }

  /** The cell counts iterate_cells accepts: at least one per axis, two with periodic boundaries. */
  predicate CountsFor(options: GridOptions, n: Index3)
  {
    PositiveCounts(n) && (options == PeriodicBoundaries ==> n[0] >= 2 && n[1] >= 2 && n[2] >= 2)
  }

  /** Everything iterate_cells reports for the search cell at c. */
  function CellVisits(options: GridOptions, n: Index3, length: Vec3, cells: seq<seq<Particle>>, c: Index3): (r: seq<Visit>)
    requires CountsFor(options, n) && InGrid(n, c) && |cells| == CellCount(n)
    ensures forall i :: 0 <= i < |r| ==> SearchOf(r[i]) == c
  {
    MakeIndexInBounds(n, c);
    var f := SearchFrame(n, length, c, cells[MakeIndexOf(n, c)]);
    [SearchCell(c)] + PairsZ(f, ZLookups(options, n, c), YLookups(options, n, c), XLookups(options, n, c))
  }

  /** CellVisits on the cells of the grid, nothing elsewhere. */
  function VisitsAt(options: GridOptions, n: Index3, length: Vec3, cells: seq<seq<Particle>>, c: Index3): seq<Visit>
  {
    if CountsFor(options, n) && |cells| == CellCount(n) && InGrid(n, c) then CellVisits(options, n, length, cells, c) else []
  }

  function VisitsOf(options: GridOptions, n: Index3, length: Vec3, cells: seq<seq<Particle>>): Index3 -> seq<Visit>
  {
    (c: Index3) => VisitsAt(options, n, length, cells, c)
  }

  /** The callback e is reported for no cell of the grid other than c. */
  ghost predicate OnlyAt(n: Index3, visits: Index3 -> seq<Visit>, c: Index3, e: Visit)
  {
    forall d :: InGrid(n, d) && d != c ==> e !in visits(d)
  }

  /** The callbacks for the cells (0, y, z) .. (x - 1, y, z): the loop over x. */
  function CellsX(visits: Index3 -> seq<Visit>, z: int, y: int, x: nat): seq<Visit>
  {
    if x == 0 then [] else CellsX(visits, z, y, x - 1) + visits([x - 1, y, z])
  }

  /** The callbacks for the rows 0 .. y - 1 of layer z: the loop over y. */
  function RowsY(n: Index3, visits: Index3 -> seq<Visit>, z: int, y: nat): seq<Visit>
    requires n[0] >= 0
  {
    if y == 0 then [] else RowsY(n, visits, z, y - 1) + CellsX(visits, z, y - 1, n[0])
  }

  /** The callbacks for the layers 0 .. z - 1: the loop over z. */
  function LayersZ(n: Index3, visits: Index3 -> seq<Visit>, z: nat): seq<Visit>
    requires n[0] >= 0 && n[1] >= 0
  {
    if z == 0 then [] else LayersZ(n, visits, z - 1) + RowsY(n, visits, z - 1, n[1])
  }

  /** All callbacks of one iterate_cells call, in order. */
  function Trace(options: GridOptions, n: Index3, length: Vec3, cells: seq<seq<Particle>>): seq<Visit>
    requires CountsFor(options, n) && |cells| == CellCount(n)
  {
    LayersZ(n, VisitsOf(options, n, length, cells), n[2])
  }

  // ---------------------------------------------------------------------
  // Counting the neighbour callbacks

  predicate Distinct(es: seq<NeighborLookup>)
  {
    forall i, j :: 0 <= i < j < |es| ==> es[i] != es[j]
  }

  lemma {:induction false} CountX(f: SearchFrame, ez: NeighborLookup, ey: NeighborLookup, xs: seq<NeighborLookup>,
                                  tz: NeighborLookup, ty: NeighborLookup, tx: NeighborLookup)
    requires Distinct(xs)
    ensures multiset(PairsX(f, ez, ey, xs))[PairEvent(f, tz, ty, tx)] ==
            if ez == tz && ey == ty && tx in xs && Processed(f, tz, ty, tx) then 1 else 0
  {
    if |xs| > 0 {
      var init, ex := xs[..|xs| - 1], xs[|xs| - 1];
      assert xs == init + [ex];
      CountX(f, ez, ey, init, tz, ty, tx);
    }
  }

  lemma {:induction false} CountY(f: SearchFrame, ez: NeighborLookup, ys: seq<NeighborLookup>, xs: seq<NeighborLookup>,
                                  tz: NeighborLookup, ty: NeighborLookup, tx: NeighborLookup)
    requires Distinct(ys) && Distinct(xs)
    ensures multiset(PairsY(f, ez, ys, xs))[PairEvent(f, tz, ty, tx)] ==
            if ez == tz && ty in ys && tx in xs && Processed(f, tz, ty, tx) then 1 else 0
  {
    if |ys| > 0 {
      var init, ey := ys[..|ys| - 1], ys[|ys| - 1];
      assert ys == init + [ey];
      CountY(f, ez, init, xs, tz, ty, tx);
      CountX(f, ez, ey, xs, tz, ty, tx);
    }
  }

  lemma {:induction false} CountZ(f: SearchFrame, zs: seq<NeighborLookup>, ys: seq<NeighborLookup>, xs: seq<NeighborLookup>,
                                  tz: NeighborLookup, ty: NeighborLookup, tx: NeighborLookup)
    requires Distinct(zs) && Distinct(ys) && Distinct(xs)
    ensures multiset(PairsZ(f, zs, ys, xs))[PairEvent(f, tz, ty, tx)] ==
            if tz in zs && ty in ys && tx in xs && Processed(f, tz, ty, tx) then 1 else 0
  {
    if |zs| > 0 {
      var init, ez := zs[..|zs| - 1], zs[|zs| - 1];
      assert zs == init + [ez];
      CountZ(f, init, ys, xs, tz, ty, tx);
      CountY(f, ez, ys, xs, tz, ty, tx);
    }
  }

  /** The callbacks of cell c occur among those of row (y, z) up to x as often as among c's own, if c is there. */
  lemma {:induction false} CountCells(n: Index3, visits: Index3 -> seq<Visit>, z: int, y: int, x: nat, c: Index3, e: Visit)
    requires OnlyAt(n, visits, c, e) && 0 <= z < n[2] && 0 <= y < n[1] && x <= n[0]
    requires InGrid(n, c)
    ensures multiset(CellsX(visits, z, y, x))[e] == if c[2] == z && c[1] == y && c[0] < x then multiset(visits(c))[e] else 0
  {
    if x > 0 {
      var w := x - 1;
      assert multiset(CellsX(visits, z, y, w))[e] == if c[2] == z && c[1] == y && c[0] < w then multiset(visits(c))[e] else 0 by {
        CountCells(n, visits, z, y, w, c, e);
      }
      var d: Index3 := [w, y, z];
      assert c != d ==> multiset(visits(d))[e] == 0;
    }
  }

  lemma {:induction false} CountRows(n: Index3, visits: Index3 -> seq<Visit>, z: int, y: nat, c: Index3, e: Visit)
    requires OnlyAt(n, visits, c, e) && 0 <= z < n[2] && y <= n[1] && n[0] >= 0
    requires InGrid(n, c)
    ensures multiset(RowsY(n, visits, z, y))[e] == if c[2] == z && c[1] < y then multiset(visits(c))[e] else 0
  {
    if y > 0 {
      var w := y - 1;
      assert multiset(RowsY(n, visits, z, w))[e] == if c[2] == z && c[1] < w then multiset(visits(c))[e] else 0 by {
        CountRows(n, visits, z, w, c, e);
      }
      RowsStep(n, visits, z, y, c, e);
    }
  }

  /** One step of CountRows: row y - 1 appended to the rows before it. */
  lemma RowsStep(n: Index3, visits: Index3 -> seq<Visit>, z: int, y: nat, c: Index3, e: Visit)
    requires OnlyAt(n, visits, c, e) && 0 <= z < n[2] && 0 < y <= n[1] && n[0] >= 0
    requires InGrid(n, c)
    requires multiset(RowsY(n, visits, z, y - 1))[e] == if c[2] == z && c[1] < y - 1 then multiset(visits(c))[e] else 0
    ensures multiset(RowsY(n, visits, z, y))[e] == if c[2] == z && c[1] < y then multiset(visits(c))[e] else 0
  {
    CountCells(n, visits, z, y - 1, n[0], c, e);
  }

  /** A callback of search cell c occurs in the layers up to z exactly as often as among the callbacks of c, if c is there. */
  lemma {:induction false} CountLayers(n: Index3, visits: Index3 -> seq<Visit>, z: nat, c: Index3, e: Visit)
    requires OnlyAt(n, visits, c, e) && z <= n[2] && n[0] >= 0 && n[1] >= 0
    requires InGrid(n, c)
    ensures multiset(LayersZ(n, visits, z))[e] == if c[2] < z then multiset(visits(c))[e] else 0
    decreases z, 1
  {
    if z > 0 {
      LayersStep(n, visits, z, c, e);
    }
  }

  /** One step of CountLayers: layer z - 1 appended to the layers before it. */
  lemma {:induction false} LayersStep(n: Index3, visits: Index3 -> seq<Visit>, z: nat, c: Index3, e: Visit)
    requires OnlyAt(n, visits, c, e) && 0 < z <= n[2] && n[0] >= 0 && n[1] >= 0
    requires InGrid(n, c)
    ensures multiset(LayersZ(n, visits, z))[e] == if c[2] < z then multiset(visits(c))[e] else 0
    decreases z, 0
  {
    var w := z - 1;
    var before, row := LayersZ(n, visits, w), RowsY(n, visits, w, n[1]);
    assert multiset(LayersZ(n, visits, z))[e] == multiset(before)[e] + multiset(row)[e] by {
      assert LayersZ(n, visits, z) == before + row;
    }
    CountLayers(n, visits, w, c, e);
    CountRows(n, visits, w, n[1], c, e);
  }

  /** visits gives, for every cell of the grid, the callbacks iterate_cells makes for that cell. */
  ghost predicate Agrees(options: GridOptions, n: Index3, length: Vec3, cells: seq<seq<Particle>>, visits: Index3 -> seq<Visit>)
  {
    CountsFor(options, n) && |cells| == CellCount(n) &&
    forall c {:trigger CellVisits(options, n, length, cells, c)} ::
      InGrid(n, c) ==> visits(c) == CellVisits(options, n, length, cells, c)
  }

  lemma VisitsOfAgrees(options: GridOptions, n: Index3, length: Vec3, cells: seq<seq<Particle>>)
    requires CountsFor(options, n) && |cells| == CellCount(n)
    ensures Agrees(options, n, length, cells, VisitsOf(options, n, length, cells))
  {
  }

  /** v and w report the same callbacks for every cell of the grid. */
  ghost predicate SameOnGrid(n: Index3, v: Index3 -> seq<Visit>, w: Index3 -> seq<Visit>)
  {
    forall c :: InGrid(n, c) ==> v(c) == w(c)
  }

  lemma {:induction false} SameCells(n: Index3, v: Index3 -> seq<Visit>, w: Index3 -> seq<Visit>, z: int, y: int, x: nat)
    requires SameOnGrid(n, v, w) && 0 <= z < n[2] && 0 <= y < n[1] && x <= n[0]
    ensures CellsX(v, z, y, x) == CellsX(w, z, y, x)
  {
    if x > 0 {
      var u := x - 1;
      SameCells(n, v, w, z, y, u);
      assert InGrid(n, [u, y, z]);
    }
  }

  lemma {:induction false} SameRows(n: Index3, v: Index3 -> seq<Visit>, w: Index3 -> seq<Visit>, z: int, y: nat)
    requires SameOnGrid(n, v, w) && 0 <= z < n[2] && y <= n[1] && n[0] >= 0
    ensures RowsY(n, v, z, y) == RowsY(n, w, z, y)
  {
    if y > 0 {
      var u := y - 1;
      SameRows(n, v, w, z, u);
      SameCells(n, v, w, z, u, n[0]);
    }
  }

  lemma {:induction false} SameLayers(n: Index3, v: Index3 -> seq<Visit>, w: Index3 -> seq<Visit>, z: nat)
    requires SameOnGrid(n, v, w) && z <= n[2] && n[0] >= 0 && n[1] >= 0
    ensures LayersZ(n, v, z) == LayersZ(n, w, z)
  {
    if z > 0 {
      var u := z - 1;
      SameLayers(n, v, w, u);
      SameRows(n, v, w, u, n[1]);
    }
  }

  /** Any visits that agree with iterate_cells cell by cell give its whole trace. */
  lemma AgreeingTrace(options: GridOptions, n: Index3, length: Vec3, cells: seq<seq<Particle>>, visits: Index3 -> seq<Visit>)
    requires Agrees(options, n, length, cells, visits)
    ensures LayersZ(n, visits, n[2]) == Trace(options, n, length, cells)
  {
    var w := VisitsOf(options, n, length, cells);
    forall c | InGrid(n, c)
      ensures visits(c) == w(c)
    {
      assert visits(c) == CellVisits(options, n, length, cells, c);
    }
    SameLayers(n, visits, w, n[2]);
  }

  /** A callback of search cell c occurs in the whole trace exactly as often as among the callbacks of c. */
  lemma TraceCount(options: GridOptions, n: Index3, length: Vec3, cells: seq<seq<Particle>>, c: Index3, e: Visit)
    requires CountsFor(options, n) && |cells| == CellCount(n)
    requires InGrid(n, c) && SearchOf(e) == c
    ensures multiset(Trace(options, n, length, cells))[e] == multiset(CellVisits(options, n, length, cells, c))[e]
  {
    var visits := VisitsOf(options, n, length, cells);
    forall d | InGrid(n, d) && d != c
      ensures e !in visits(d)
    {
      OtherCellAbsent(visits(d), d, e);
    }
    CountLayers(n, visits, n[2], c, e);
  }

  lemma OtherCellAbsent(vs: seq<Visit>, c: Index3, e: Visit)
    requires forall i :: 0 <= i < |vs| ==> SearchOf(vs[i]) == c
    requires SearchOf(e) != c
    ensures multiset(vs)[e] == 0
  {
    assert e !in vs;
  }

  // ---------------------------------------------------------------------
  // Every callback comes from a cell of the grid and a processed lookup triple

  /** A callback of the dx loop comes from one processed lookup of dx_list. */
  lemma {:induction false} InPairsX(f: SearchFrame, ez: NeighborLookup, ey: NeighborLookup, xs: seq<NeighborLookup>, e: Visit)
    requires e in PairsX(f, ez, ey, xs)
    ensures exists tx :: tx in xs && Processed(f, ez, ey, tx) && e == PairEvent(f, ez, ey, tx)
  {
    var init, ex := xs[..|xs| - 1], xs[|xs| - 1];
    assert xs == init + [ex];
    if e in PairsX(f, ez, ey, init) {
      InPairsX(f, ez, ey, init, e);
      var tx :| tx in init && Processed(f, ez, ey, tx) && e == PairEvent(f, ez, ey, tx);
      assert tx in xs;
    } else {
      assert Processed(f, ez, ey, ex) && e == PairEvent(f, ez, ey, ex);
    }
  }

  /** A callback of the dy loop comes from one processed pair of lookups of dy_list and dx_list. */
  lemma {:induction false} InPairsY(f: SearchFrame, ez: NeighborLookup, ys: seq<NeighborLookup>, xs: seq<NeighborLookup>, e: Visit)
    requires e in PairsY(f, ez, ys, xs)
    ensures exists ty, tx :: ty in ys && tx in xs && Processed(f, ez, ty, tx) && e == PairEvent(f, ez, ty, tx)
  {
    var init, ey := ys[..|ys| - 1], ys[|ys| - 1];
    assert ys == init + [ey];
    if e in PairsY(f, ez, init, xs) {
      InPairsY(f, ez, init, xs, e);
      var ty, tx :| ty in init && tx in xs && Processed(f, ez, ty, tx) && e == PairEvent(f, ez, ty, tx);
      assert ty in ys;
    } else {
      InPairsX(f, ez, ey, xs, e);
    }
  }

  /** A neighbour callback of one search cell comes from one processed triple of lookups. */
  lemma {:induction false} InPairsZ(f: SearchFrame, zs: seq<NeighborLookup>, ys: seq<NeighborLookup>, xs: seq<NeighborLookup>, e: Visit)
    requires e in PairsZ(f, zs, ys, xs)
    ensures exists tz, ty, tx :: tz in zs && ty in ys && tx in xs && Processed(f, tz, ty, tx) && e == PairEvent(f, tz, ty, tx)
  {
    var init, ez := zs[..|zs| - 1], zs[|zs| - 1];
    assert zs == init + [ez];
    if e in PairsZ(f, init, ys, xs) {
      InPairsZ(f, init, ys, xs, e);
      var tz, ty, tx :| tz in init && ty in ys && tx in xs && Processed(f, tz, ty, tx) && e == PairEvent(f, tz, ty, tx);
      assert tz in zs;
    } else {
      InPairsY(f, ez, ys, xs, e);
    }
  }

  /** A callback of the x loop over row (y, z) is a callback of one of its cells. */
  lemma {:induction false} InCells(visits: Index3 -> seq<Visit>, z: int, y: int, x: nat, e: Visit)
    requires e in CellsX(visits, z, y, x)
    ensures exists c: Index3 :: c[1] == y && c[2] == z && 0 <= c[0] < x && e in visits(c)
  {
    var w := x - 1;
    if e in CellsX(visits, z, y, w) {
      InCells(visits, z, y, w, e);
    } else {
      var c: Index3 := [w, y, z];
      assert e in visits(c);
    }
  }

  /** A callback of the y loop over layer z is a callback of one of its cells. */
  lemma {:induction false} InRows(n: Index3, visits: Index3 -> seq<Visit>, z: int, y: nat, e: Visit)
    requires n[0] >= 0 && e in RowsY(n, visits, z, y)
    ensures exists c: Index3 :: c[2] == z && 0 <= c[1] < y && 0 <= c[0] < n[0] && e in visits(c)
  {
    var w := y - 1;
    if e in RowsY(n, visits, z, w) {
      InRows(n, visits, z, w, e);
    } else {
      InCells(visits, z, w, n[0], e);
    }
  }

  /** A callback of the z loop is a callback of one of the cells of its layers. */
  lemma {:induction false} InLayers(n: Index3, visits: Index3 -> seq<Visit>, z: nat, e: Visit)
    requires n[0] >= 0 && n[1] >= 0 && e in LayersZ(n, visits, z)
    ensures exists c: Index3 :: 0 <= c[2] < z && 0 <= c[1] < n[1] && 0 <= c[0] < n[0] && e in visits(c)
  {
    var w := z - 1;
    if e in LayersZ(n, visits, w) {
      InLayers(n, visits, w, e);
    } else {
      InRows(n, visits, w, n[1], e);
    }
  }

  /** Every callback of iterate_cells is one of the callbacks of its search cell, which lies in the grid. */
  lemma TraceMember(options: GridOptions, n: Index3, length: Vec3, cells: seq<seq<Particle>>, e: Visit)
    requires CountsFor(options, n) && |cells| == CellCount(n) && e in Trace(options, n, length, cells)
    ensures InGrid(n, SearchOf(e)) && e in CellVisits(options, n, length, cells, SearchOf(e))
  {
    var visits := VisitsOf(options, n, length, cells);
    InLayers(n, visits, n[2], e);
    var c: Index3 :| 0 <= c[2] < n[2] && 0 <= c[1] < n[1] && 0 <= c[0] < n[0] && e in visits(c);
    assert e in CellVisits(options, n, length, cells, c);
  }

  /** iterate_cells calls the search callback exactly once for every cell of the grid, and for nothing else. */
  lemma SearchCellOnce(options: GridOptions, n: Index3, length: Vec3, cells: seq<seq<Particle>>, d: Index3)
    requires CountsFor(options, n) && |cells| == CellCount(n)
    ensures multiset(Trace(options, n, length, cells))[SearchCell(d)] == if InGrid(n, d) then 1 else 0
  {
    if InGrid(n, d) {
      MakeIndexInBounds(n, d);
      var f := SearchFrame(n, length, d, cells[MakeIndexOf(n, d)]);
      var pairs := PairsZ(f, ZLookups(options, n, d), YLookups(options, n, d), XLookups(options, n, d));
      assert CellVisits(options, n, length, cells, d) == [SearchCell(d)] + pairs;
      assert SearchCell(d) !in pairs;
      TraceCount(options, n, length, cells, d, SearchCell(d));
    } else if SearchCell(d) in Trace(options, n, length, cells) {
      TraceMember(options, n, length, cells, SearchCell(d));
    }
  }

  /** A neighbour callback of search cell p is among the pairs of p's lookup lists. */
  lemma PairOfCell(options: GridOptions, n: Index3, length: Vec3, cells: seq<seq<Particle>>, e: Visit)
    requires CountsFor(options, n) && |cells| == CellCount(n) && e in Trace(options, n, length, cells) && e.NeighborPair?
    ensures InGrid(n, e.search) && 0 <= MakeIndexOf(n, e.search) < |cells|
    ensures var p := e.search;
      e in PairsZ(SearchFrame(n, length, p, cells[MakeIndexOf(n, p)]),
                  ZLookups(options, n, p), YLookups(options, n, p), XLookups(options, n, p))
  {
    TraceMember(options, n, length, cells, e);
    MakeIndexInBounds(n, e.search);
  }

  // ---------------------------------------------------------------------
  // Normal mode: every adjacent pair of cells exactly once

  /** The two cells touch: their coordinates differ by at most one along every axis. */
  predicate Adjacent(p: Index3, q: Index3)
  {
    -1 <= q[0] - p[0] <= 1 && -1 <= q[1] - p[1] <= 1 && -1 <= q[2] - p[2] <= 1
  }

  lemma TranslateByZero(ps: seq<Particle>)
    ensures TranslateAll(ps, Zero3) == ps
  {
    forall i | 0 <= i < |ps|
      ensures Translated(ps[i], Zero3) == ps[i]
    {
      var pos := ps[i].position;
      assert [pos[0] + 0.0, pos[1] + 0.0, pos[2] + 0.0] == pos;
    }
  }

  /** Lifting offsets to lookups keeps membership and distinctness. */
  lemma LiftMember(ds: seq<int>, c: int, d: int)
    ensures NeighborLookup(c + d, No) in Lift(ds, c) <==> d in ds
    ensures (forall i, j :: 0 <= i < j < |ds| ==> ds[i] != ds[j]) ==> Distinct(Lift(ds, c))
  {
    var lifted := Lift(ds, c);
    if d in ds {
      var i :| 0 <= i < |ds| && ds[i] == d;
      assert lifted[i] == NeighborLookup(c + d, No);
    }
    if NeighborLookup(c + d, No) in lifted {
      var i :| 0 <= i < |lifted| && lifted[i] == NeighborLookup(c + d, No);
      assert ds[i] == d;
    }
  }

  /** A normal-mode lookup list holds exactly the in-range coordinates within one of c (dz_list: not below c). */
  lemma NormalLookups(count: int, c: int, q: int)
    requires 0 <= c < count && 0 <= q < count
    ensures Distinct(Lift(DxyOffsets(count, c), c)) && Distinct(Lift(DzOffsets(count, c), c))
    ensures NeighborLookup(q, No) in Lift(DxyOffsets(count, c), c) <==> -1 <= q - c <= 1
    ensures NeighborLookup(q, No) in Lift(DzOffsets(count, c), c) <==> 0 <= q - c <= 1
  {
    LiftMember(DxyOffsets(count, c), c, q - c);
    LiftMember(DzOffsets(count, c), c, q - c);
    assert c + (q - c) == q;
  }

  /**
   * Normal iterate_cells: the neighbour callback for search cell p and cell
   * q, with the search list unchanged, happens exactly once when q touches p
   * and comes after it in raster order, and never otherwise. Hence every
   * unordered pair of touching cells is visited once.
   */
  lemma NormalPairsOnce(n: Index3, length: Vec3, cells: seq<seq<Particle>>, p: Index3, q: Index3)
    requires PositiveCounts(n) && |cells| == CellCount(n) && InGrid(n, p) && InGrid(n, q)
    ensures 0 <= MakeIndexOf(n, p) < |cells|
    ensures multiset(Trace(Normal, n, length, cells))[NeighborPair(p, q, NoWraps, cells[MakeIndexOf(n, p)])]
         == if Adjacent(p, q) && RasterBefore(p, q) then 1 else 0
  {
    NormalCellPairs(n, length, cells, p, q);
    TraceCount(Normal, n, length, cells, p, NeighborPair(p, q, NoWraps, cells[MakeIndexOf(n, p)]));
  }

  /** The part of NormalPairsOnce that is about the visits of the single search cell p. */
  lemma NormalCellPairs(n: Index3, length: Vec3, cells: seq<seq<Particle>>, p: Index3, q: Index3)
    requires PositiveCounts(n) && |cells| == CellCount(n) && InGrid(n, p) && InGrid(n, q)
    ensures 0 <= MakeIndexOf(n, p) < |cells|
    ensures multiset(CellVisits(Normal, n, length, cells, p))[NeighborPair(p, q, NoWraps, cells[MakeIndexOf(n, p)])]
         == if Adjacent(p, q) && RasterBefore(p, q) then 1 else 0
  {
    MakeIndexInBounds(n, p);
    var si := MakeIndexOf(n, p);
    var f := SearchFrame(n, length, p, cells[si]);
    var tz, ty, tx := NeighborLookup(q[2], No), NeighborLookup(q[1], No), NeighborLookup(q[0], No);
    var e := PairEvent(f, tz, ty, tx);
    assert e == NeighborPair(p, q, NoWraps, cells[si]) by {
      TranslateByZero(cells[si]);
    }
    var zs, ys, xs := ZLookups(Normal, n, p), YLookups(Normal, n, p), XLookups(Normal, n, p);
    assert multiset(PairsZ(f, zs, ys, xs))[e] == if Adjacent(p, q) && RasterBefore(p, q) then 1 else 0 by {
      NormalLookups(n[0], p[0], q[0]);
      NormalLookups(n[1], p[1], q[1]);
      NormalLookups(n[2], p[2], q[2]);
      CountZ(f, zs, ys, xs, tz, ty, tx);
      MakeIndexOrder(n, p, q);
    }
  }

  /** A normal-mode lookup never wraps and stays in range within one of c (dz_list: not below c). */
  lemma NormalLookupSound(count: int, c: int, l: NeighborLookup)
    requires 0 <= c < count
    ensures l in Lift(DxyOffsets(count, c), c) ==> l.wrap == No && 0 <= l.index < count && -1 <= l.index - c <= 1
    ensures l in Lift(DzOffsets(count, c), c) ==> l.wrap == No && 0 <= l.index < count && 0 <= l.index - c <= 1
  {
  }

  /**
   * Normal iterate_cells reports nothing else: every neighbour callback pairs
   * a cell of the grid with a touching cell of the grid after it in raster
   * order, without wraps and with the search cell's particles unchanged.
   */
  lemma NormalTraceSound(n: Index3, length: Vec3, cells: seq<seq<Particle>>, e: Visit)
    requires PositiveCounts(n) && |cells| == CellCount(n) && e in Trace(Normal, n, length, cells)
    ensures InGrid(n, SearchOf(e)) && 0 <= MakeIndexOf(n, SearchOf(e)) < |cells|
    ensures e.NeighborPair? ==>
      && InGrid(n, e.neighbor)
      && Adjacent(e.search, e.neighbor)
      && RasterBefore(e.search, e.neighbor)
      && e.wraps == NoWraps
      && e.searchList == cells[MakeIndexOf(n, e.search)]
  {
    TraceMember(Normal, n, length, cells, e);
    MakeIndexInBounds(n, SearchOf(e));
    if e.NeighborPair? {
      NormalPairSound(n, length, cells, e);
    }
  }

  /** The part of NormalTraceSound that is about one neighbour callback. */
  lemma NormalPairSound(n: Index3, length: Vec3, cells: seq<seq<Particle>>, e: Visit)
    requires PositiveCounts(n) && |cells| == CellCount(n) && e in Trace(Normal, n, length, cells) && e.NeighborPair?
    ensures InGrid(n, e.search) && 0 <= MakeIndexOf(n, e.search) < |cells|
    ensures InGrid(n, e.neighbor) && Adjacent(e.search, e.neighbor) && RasterBefore(e.search, e.neighbor)
    ensures e.wraps == NoWraps && e.searchList == cells[MakeIndexOf(n, e.search)]
  {
    PairOfCell(Normal, n, length, cells, e);
    var p := e.search;
    var f := SearchFrame(n, length, p, cells[MakeIndexOf(n, p)]);
    var zs, ys, xs := ZLookups(Normal, n, p), YLookups(Normal, n, p), XLookups(Normal, n, p);
    InPairsZ(f, zs, ys, xs, e);
    var tz, ty, tx :| tz in zs && ty in ys && tx in xs && Processed(f, tz, ty, tx) && e == PairEvent(f, tz, ty, tx);
    NormalLookupSound(n[0], p[0], tx);
    NormalLookupSound(n[1], p[1], ty);
    NormalLookupSound(n[2], p[2], tz);
    var q: Index3 := [tx.index, ty.index, tz.index];
    assert e.neighbor == q;
    assert WrapVector(NoWraps, length) == Zero3;
    TranslateByZero(f.home);
    MakeIndexOrder(n, p, q);
  }

  // ---------------------------------------------------------------------
  // Periodic mode: every pair of neighbouring images exactly once

  /** The offset points into the forward half of the 26 neighbour directions. */
  predicate Forward(o: Index3)
  {
    RasterBefore(Zero3Index, o)
  }

  const Zero3Index: Index3 := [0, 0, 0]

  predicate UnitOffset(o: Index3)
  {
    -1 <= o[0] <= 1 && -1 <= o[1] <= 1 && -1 <= o[2] <= 1
  }

  function Negated(o: Index3): Index3
  {
    [-o[0], -o[1], -o[2]]
  }

  /** The lookup that reaches coordinate c + o on an axis of `count` cells, wrapping across the faces. */
  function WrapLookup(c: int, o: int, count: int): NeighborLookup
  {
    if c + o == count then NeighborLookup(0, MinusLength)
    else if c + o == -1 then NeighborLookup(count - 1, PlusLength)
    else NeighborLookup(c + o, No)
  }

  /** The cell reached from p in direction o with periodic boundaries. */
  function WrappedNeighbor(n: Index3, p: Index3, o: Index3): Index3
  {
    [WrapLookup(p[0], o[0], n[0]).index, WrapLookup(p[1], o[1], n[1]).index, WrapLookup(p[2], o[2], n[2]).index]
  }

  function WrapsOf(n: Index3, p: Index3, o: Index3): Wraps
  {
    Wraps(WrapLookup(p[0], o[0], n[0]).wrap, WrapLookup(p[1], o[1], n[1]).wrap, WrapLookup(p[2], o[2], n[2]).wrap)
  }

  /** The neighbour callback pairing the (translated) search cell p with the cell in direction o. */
  function ImageEvent(n: Index3, length: Vec3, cells: seq<seq<Particle>>, p: Index3, o: Index3): Visit
    requires PositiveCounts(n) && |cells| == CellCount(n) && InGrid(n, p)
  {
    MakeIndexInBounds(n, p);
    PairEvent(SearchFrame(n, length, p, cells[MakeIndexOf(n, p)]),
              WrapLookup(p[2], o[2], n[2]), WrapLookup(p[1], o[1], n[1]), WrapLookup(p[0], o[0], n[0]))
  }

  /** The flat index of a unit offset is positive exactly for the forward directions. */
  lemma OffsetIndexSign(n: Index3, o: Index3)
    requires n[0] >= 2 && n[1] >= 2 && UnitOffset(o)
    ensures MakeIndex(n, o[0], o[1], o[2]) > 0 <==> Forward(o)
  {
    var t := o[2] * n[1] + o[1];
    assert t >= 1 <==> o[2] > 0 || (o[2] == 0 && o[1] > 0) by {
      if o[2] >= 1 { MulLeq(1, o[2], n[1]); }
      if o[2] <= -1 { MulLeq(o[2], -1, n[1]); }
    }
    assert t == 0 <==> o[2] == 0 && o[1] == 0 by {
      if o[2] >= 1 { MulLeq(1, o[2], n[1]); }
      if o[2] <= -1 { MulLeq(o[2], -1, n[1]); }
    }
    if t >= 1 { MulLeq(1, t, n[0]); }
    if t <= -1 { MulLeq(t, -1, n[0]); }
  }

  /** A periodic lookup list holds one lookup per direction -1, 0, 1 (dz_list: 0 and 1). */
  lemma PeriodicLookups(count: int, c: int, o: int)
    requires count >= 2 && 0 <= c < count && -1 <= o <= 1
    ensures Distinct(DxyList(c, count)) && Distinct(DzList(c, count))
    ensures WrapLookup(c, o, count) in DxyList(c, count)
    ensures WrapLookup(c, o, count) in DzList(c, count) <==> 0 <= o
    ensures 0 <= WrapLookup(c, o, count).index < count
    ensures WrapLookup(c, o, count).index - o == VirtualCoord(WrapLookup(c, o, count), c, count)
  {
  }

  /**
   * Periodic iterate_cells: the neighbour callback for search cell p and the
   * cell in direction o (a unit offset), with the search list translated
   * across the wrapped faces, happens exactly once for the 13 forward
   * directions and never for the others.
   */
  lemma PeriodicPairsOnce(n: Index3, length: Vec3, cells: seq<seq<Particle>>, p: Index3, o: Index3)
    requires CountsFor(PeriodicBoundaries, n) && |cells| == CellCount(n) && InGrid(n, p) && UnitOffset(o)
    ensures multiset(Trace(PeriodicBoundaries, n, length, cells))[ImageEvent(n, length, cells, p, o)]
         == if Forward(o) then 1 else 0
  {
    MakeIndexInBounds(n, p);
    var si := MakeIndexOf(n, p);
    var f := SearchFrame(n, length, p, cells[si]);
    var tz, ty, tx := WrapLookup(p[2], o[2], n[2]), WrapLookup(p[1], o[1], n[1]), WrapLookup(p[0], o[0], n[0]);
    var e := PairEvent(f, tz, ty, tx);
    assert e == ImageEvent(n, length, cells, p, o);
    var zs, ys, xs := ZLookups(PeriodicBoundaries, n, p), YLookups(PeriodicBoundaries, n, p), XLookups(PeriodicBoundaries, n, p);
    PeriodicProcessedIff(n, f, p, o);
    assert multiset(PairsZ(f, zs, ys, xs))[e] == if Forward(o) then 1 else 0 by {
      PeriodicLookups(n[0], p[0], o[0]);
      PeriodicLookups(n[1], p[1], o[1]);
      PeriodicLookups(n[2], p[2], o[2]);
      CountZ(f, zs, ys, xs, tz, ty, tx);
    }
    assert multiset(CellVisits(PeriodicBoundaries, n, length, cells, p))[e] == multiset(PairsZ(f, zs, ys, xs))[e];
    TraceCount(PeriodicBoundaries, n, length, cells, p, e);
  }

  /** The lookup triple in direction o from p passes the forward-half test exactly when o is forward. */
  lemma PeriodicProcessedIff(n: Index3, f: SearchFrame, p: Index3, o: Index3)
    requires CountsFor(PeriodicBoundaries, n) && InGrid(n, p) && UnitOffset(o) && f.n == n && f.c == p
    ensures Processed(f, WrapLookup(p[2], o[2], n[2]), WrapLookup(p[1], o[1], n[1]), WrapLookup(p[0], o[0], n[0]))
            <==> Forward(o)
  {
    var tz, ty, tx := WrapLookup(p[2], o[2], n[2]), WrapLookup(p[1], o[1], n[1]), WrapLookup(p[0], o[0], n[0]);
    PeriodicLookups(n[0], p[0], o[0]);
    PeriodicLookups(n[1], p[1], o[1]);
    PeriodicLookups(n[2], p[2], o[2]);
    var virt := [tx.index - o[0], ty.index - o[1], tz.index - o[2]];
    MakeIndexShift(n, virt[0], virt[1], virt[2], o[0], o[1], o[2]);
    OffsetIndexSign(n, o);
  }

  /** The direction a periodic lookup from coordinate c goes in. */
  function LookupOffset(l: NeighborLookup, c: int): int
  {
    match l.wrap
    case MinusLength => 1
    case PlusLength => -1
    case No => l.index - c
  }

  /** Every entry of a periodic lookup list is the lookup in its own direction (dz_list: not backwards). */
  lemma PeriodicLookupSound(count: int, c: int, l: NeighborLookup)
    requires count >= 2 && 0 <= c < count
    ensures l in DxyList(c, count) ==> -1 <= LookupOffset(l, c) <= 1 && WrapLookup(c, LookupOffset(l, c), count) == l
    ensures l in DzList(c, count) ==> 0 <= LookupOffset(l, c) <= 1 && WrapLookup(c, LookupOffset(l, c), count) == l
  {
  }

  /**
   * Periodic iterate_cells reports nothing else: every neighbour callback is
   * the one pairing a cell of the grid with its neighbour in one of the
   * forward directions.
   */
  lemma PeriodicTraceSound(n: Index3, length: Vec3, cells: seq<seq<Particle>>, e: Visit)
    requires CountsFor(PeriodicBoundaries, n) && |cells| == CellCount(n) && e in Trace(PeriodicBoundaries, n, length, cells)
    ensures InGrid(n, SearchOf(e))
    ensures e.NeighborPair? ==>
      exists o: Index3 :: UnitOffset(o) && Forward(o) && e == ImageEvent(n, length, cells, e.search, o)
  {
    TraceMember(PeriodicBoundaries, n, length, cells, e);
    if e.NeighborPair? {
      var o := PeriodicPairOffset(n, length, cells, e);
    }
  }

  /** The direction of one neighbour callback of periodic iterate_cells. */
  lemma PeriodicPairOffset(n: Index3, length: Vec3, cells: seq<seq<Particle>>, e: Visit) returns (o: Index3)
    requires CountsFor(PeriodicBoundaries, n) && |cells| == CellCount(n) && e in Trace(PeriodicBoundaries, n, length, cells)
    requires e.NeighborPair?
    ensures InGrid(n, e.search) && UnitOffset(o) && Forward(o) && e == ImageEvent(n, length, cells, e.search, o)
  {
    PairOfCell(PeriodicBoundaries, n, length, cells, e);
    var p := e.search;
    var f := SearchFrame(n, length, p, cells[MakeIndexOf(n, p)]);
    var zs, ys, xs := ZLookups(PeriodicBoundaries, n, p), YLookups(PeriodicBoundaries, n, p), XLookups(PeriodicBoundaries, n, p);
    InPairsZ(f, zs, ys, xs, e);
    var tz, ty, tx :| tz in zs && ty in ys && tx in xs && Processed(f, tz, ty, tx) && e == PairEvent(f, tz, ty, tx);
    o := PeriodicLookupOffset(n, f, p, tz, ty, tx);
  }

  /** A processed triple of periodic lookups of cell p is the wrapped neighbour in a forward unit direction. */
  lemma PeriodicLookupOffset(n: Index3, f: SearchFrame, p: Index3, tz: NeighborLookup, ty: NeighborLookup, tx: NeighborLookup)
    returns (o: Index3)
    requires CountsFor(PeriodicBoundaries, n) && InGrid(n, p) && f.n == n && f.c == p
    requires tz in ZLookups(PeriodicBoundaries, n, p) && ty in YLookups(PeriodicBoundaries, n, p)
    requires tx in XLookups(PeriodicBoundaries, n, p) && Processed(f, tz, ty, tx)
    ensures UnitOffset(o) && Forward(o)
    ensures tz == WrapLookup(p[2], o[2], n[2]) && ty == WrapLookup(p[1], o[1], n[1]) && tx == WrapLookup(p[0], o[0], n[0])
  {
    PeriodicLookupSound(n[0], p[0], tx);
    PeriodicLookupSound(n[1], p[1], ty);
    PeriodicLookupSound(n[2], p[2], tz);
    o := [LookupOffset(tx, p[0]), LookupOffset(ty, p[1]), LookupOffset(tz, p[2])];
    PeriodicProcessedIff(n, f, p, o);
  }

  /**
   * Of the two callbacks that could pair search cell p with its neighbour q
   * in direction o, and q with p in the opposite direction, exactly one
   * happens. Going back from q in the opposite direction reaches p again,
   * and the two translations of the search list are opposite.
   */
  lemma PeriodicEachImagePairOnce(n: Index3, length: Vec3, cells: seq<seq<Particle>>, p: Index3, o: Index3)
    requires CountsFor(PeriodicBoundaries, n) && |cells| == CellCount(n) && InGrid(n, p)
    requires UnitOffset(o) && o != Zero3Index
    ensures var q := WrappedNeighbor(n, p, o);
      && InGrid(n, q)
      && WrappedNeighbor(n, q, Negated(o)) == p
      && WrapVector(WrapsOf(n, q, Negated(o)), length) == VecSub(Zero3, WrapVector(WrapsOf(n, p, o), length))
      && multiset(Trace(PeriodicBoundaries, n, length, cells))[ImageEvent(n, length, cells, p, o)]
         + multiset(Trace(PeriodicBoundaries, n, length, cells))[ImageEvent(n, length, cells, q, Negated(o))] == 1
  {
    var q := WrappedNeighbor(n, p, o);
    var back := Negated(o);
    assert InGrid(n, q) && WrappedNeighbor(n, q, back) == p
        && WrapVector(WrapsOf(n, q, back), length) == VecSub(Zero3, WrapVector(WrapsOf(n, p, o), length)) by {
      WrapBack(p[0], o[0], n[0], length[0]);
      WrapBack(p[1], o[1], n[1], length[1]);
      WrapBack(p[2], o[2], n[2], length[2]);
    }
    ForwardOrBackward(o);
    PeriodicPairsOnce(n, length, cells, p, o);
    PeriodicPairsOnce(n, length, cells, q, back);
  }

  /** Along one axis, stepping back from a wrapped lookup returns to c, across the same face in the other direction. */
  lemma WrapBack(c: int, o: int, count: int, len: real)
    requires count >= 2 && 0 <= c < count && -1 <= o <= 1
    ensures var l := WrapLookup(c, o, count);
      && 0 <= l.index < count
      && WrapLookup(l.index, -o, count).index == c
      && Shift(WrapLookup(l.index, -o, count).wrap, len) == 0.0 - Shift(l.wrap, len)
  {
  }

  /** Of a non-zero direction and its opposite, exactly one is forward. */
  lemma ForwardOrBackward(o: Index3)
    requires o != Zero3Index
    ensures Forward(o) != Forward(Negated(o))
  {
  }
}
