/** MER tile footprints and their subdivision into overlapping sub-tiles.
    Coordinates are degrees over `real`; the cosine of a declination given in
    degrees is the parameter `cosDeg`, so rounding is not modelled. */
module Tiling {
  import opened Wrappers
  import opened Seqs

  type Range = (real, real)

  datatype TileFootprint = TileFootprint(
    tileId: int,
    centerRa: real,
    centerDec: real,
    coreRa: Range,
    coreDec: Range,
    extendedRa: Range,
    extendedDec: Range)

  datatype SubTile = SubTile(
    tileId: int,
    row: int,
    col: int,
    coreRa: Range,
    coreDec: Range,
    extendedRa: Range,
    extendedDec: Range,
    centerRa: real,
    centerDec: real)

  /** Below this cosine an RA interval cannot be computed. */
  const MinCosDec: real := 0.000001

  /** Default MER core and extended sizes, in arcminutes. */
  const DefaultCoreArcmin: real := 30.0
  const DefaultExtendedArcmin: real := 32.0

  /** Arcminutes of sky to RA degrees at declination `decDeg`: RA intervals
      widen by 1/cos(dec) away from the equator, and near a pole the
      conversion is refused with a ValueError. */
  function ArcminToDegRa(arcmin: real, decDeg: real, cosDeg: real -> real): (r: Result<real>)
    ensures r.Err? <==> cosDeg(decDeg) < MinCosDec
    ensures r.Err? ==> r.error == ValueError
    ensures r.Ok? ==> r.value * (60.0 * cosDeg(decDeg)) == arcmin
  {
    var c := cosDeg(decDeg);
    if c < MinCosDec then Err(ValueError) else Ok(arcmin / (60.0 * c))
  }

  /** Arcminutes to declination degrees. */
  function ArcminToDegDec(arcmin: real): (r: real)
    ensures r * 60.0 == arcmin
  {
    arcmin / 60.0
  }

  function Width(r: Range): real {
    r.1 - r.0
  }

  function Mid(r: Range): real {
    (r.0 + r.1) / 2.0
  }

  /** `t` is centred on (ra, dec), its core and extended boxes are symmetric
      about that centre, and each box measures its size in arcminutes of sky
      on both axes at cosine `c`. */
  predicate FootprintShape(t: TileFootprint, tileId: int, ra: real, dec: real,
                           coreSize: real, extSize: real, c: real)
  {
    && t.tileId == tileId && t.centerRa == ra && t.centerDec == dec
    && Mid(t.coreRa) == ra && Mid(t.extendedRa) == ra
    && Mid(t.coreDec) == dec && Mid(t.extendedDec) == dec
    && Width(t.coreRa) * (60.0 * c) == coreSize
    && Width(t.extendedRa) * (60.0 * c) == extSize
    && Width(t.coreDec) * 60.0 == coreSize
    && Width(t.extendedDec) * 60.0 == extSize
  }

  /** `make_tile_footprint`: fails exactly when the centre declination is too
      close to a pole, and otherwise has the requested shape. */
  function MakeTileFootprint(tileId: int, ra: real, dec: real, coreSize: real, extSize: real,
                             cosDeg: real -> real): (r: Result<TileFootprint>)
    ensures r.Err? <==> cosDeg(dec) < MinCosDec
    ensures r.Err? ==> r.error == ValueError
    ensures r.Ok? ==> FootprintShape(r.value, tileId, ra, dec, coreSize, extSize, cosDeg(dec))
  {
    match ArcminToDegRa(coreSize / 2.0, dec, cosDeg)
    case Err(e) => Err(e)
    case Ok(halfCoreRa) =>
      var halfCoreDec := ArcminToDegDec(coreSize / 2.0);
      match ArcminToDegRa(extSize / 2.0, dec, cosDeg)
      case Err(e) => Err(e)
      case Ok(halfExtRa) =>
        var halfExtDec := ArcminToDegDec(extSize / 2.0);
        Ok(TileFootprint(tileId, ra, dec,
          (ra - halfCoreRa, ra + halfCoreRa),
          (dec - halfCoreDec, dec + halfCoreDec),
          (ra - halfExtRa, ra + halfExtRa),
          (dec - halfExtDec, dec + halfExtDec)))
  }

  /** A larger extended size gives extended boxes strictly containing the core
      boxes on both axes. */
  lemma ExtendedContainsCore(tileId: int, ra: real, dec: real, coreSize: real, extSize: real,
                             cosDeg: real -> real)
    requires cosDeg(dec) >= MinCosDec
    requires coreSize < extSize
    ensures MakeTileFootprint(tileId, ra, dec, coreSize, extSize, cosDeg).Ok?
    ensures var t := MakeTileFootprint(tileId, ra, dec, coreSize, extSize, cosDeg).value;
      && t.extendedRa.0 < t.coreRa.0 && t.coreRa.1 < t.extendedRa.1
      && t.extendedDec.0 < t.coreDec.0 && t.coreDec.1 < t.extendedDec.1
  {
    DivLtMono(coreSize / 2.0, extSize / 2.0, 60.0 * cosDeg(dec));
  }

  lemma DivLtMono(a: real, b: real, k: real)
    requires k > 0.0 && a < b
    ensures a / k < b / k
  {
    assert (b / k - a / k) * k == b - a;
  }

  lemma MulLeMono(a: real, b: real, k: real)
    requires k > 0.0 && a <= b
    ensures a * k <= b * k
  {
    assert (b - a) * k >= 0.0;
  }

  // ----- the sub-tile grid -----

  /** Lower edge of slice `i` when [lo, hi] is cut into `n` equal slices. */
  function SliceLo(lo: real, hi: real, n: int, i: int): real
    requires n != 0
  {
    lo + i as real * ((hi - lo) / n as real)
  }

  /** Upper edge of slice `i`. */
  function SliceHi(lo: real, hi: real, n: int, i: int): real
    requires n != 0
  {
    SliceLo(lo, hi, n, i) + (hi - lo) / n as real
  }

  /** The sub-tile at (row, col) of a rows x cols grid over `tile`'s core, with
      margins `mRa` and `mDec` in degrees. */
  function SubtileAt(tile: TileFootprint, rows: int, cols: int, row: int, col: int,
                     mRa: real, mDec: real): SubTile
    requires rows != 0 && cols != 0
  {
    var raMin := SliceLo(tile.coreRa.0, tile.coreRa.1, cols, col);
    var raMax := SliceHi(tile.coreRa.0, tile.coreRa.1, cols, col);
    var decMin := SliceLo(tile.coreDec.0, tile.coreDec.1, rows, row);
    var decMax := SliceHi(tile.coreDec.0, tile.coreDec.1, rows, row);
    SubTile(tile.tileId, row, col, (raMin, raMax), (decMin, decMax),
            (raMin - mRa, raMax + mRa), (decMin - mDec, decMax + mDec),
            (raMin + raMax) / 2.0, (decMin + decMax) / 2.0)
  }

  /** The cells of the grid in row-major order; a negative dimension gives none. */
  function GridCells(tile: TileFootprint, rows: int, cols: int, mRa: real, mDec: real): (cells: seq<SubTile>)
    requires rows != 0 && cols != 0
    ensures |cells| == if rows > 0 && cols > 0 then rows * cols else 0
  {
    if rows > 0 && cols > 0 then
      seq(rows * cols, k requires 0 <= k < rows * cols => SubtileAt(tile, rows, cols, k / cols, k % cols, mRa, mDec))
    else []
  }

  /** `generate_subtile_grid` as a value: a zero dimension divides by zero, a
      margin near a pole is refused, and otherwise the margin in RA is
      converted once at the tile's centre declination. */
  function SubtileGrid(tile: TileFootprint, rows: int, cols: int, margin: real,
                       cosDeg: real -> real): (r: Result<seq<SubTile>>)
    ensures r.Err? <==> rows == 0 || cols == 0 || cosDeg(tile.centerDec) < MinCosDec
    ensures r.Ok? ==> |r.value| == if rows > 0 && cols > 0 then rows * cols else 0
  {
    if cols == 0 || rows == 0 then Err(ZeroDivision)
    else
      match ArcminToDegRa(margin, tile.centerDec, cosDeg)
      case Err(e) => Err(e)
      case Ok(mRa) => Ok(GridCells(tile, rows, cols, mRa, ArcminToDegDec(margin)))
  }

  /** `generate_subtile_grid`: the nested row/column loop. */
  method GenerateSubtileGrid(tile: TileFootprint, rows: int, cols: int, margin: real,
                             cosDeg: real -> real) returns (r: Result<seq<SubTile>>)
    ensures r == SubtileGrid(tile, rows, cols, margin, cosDeg)
  {
    if cols == 0 || rows == 0 {
      return Err(ZeroDivision);
    }
    var marginRa := ArcminToDegRa(margin, tile.centerDec, cosDeg);
    if marginRa.Err? {
      return Err(marginRa.error);
    }
    var mRa := marginRa.value;
    var mDec := ArcminToDegDec(margin);
    ghost var width := if cols > 0 then cols else 0;
    var subtiles: seq<SubTile> := [];
    var row := 0;
    while row < rows
      invariant 0 <= row && (row <= rows || row == 0)
      invariant |subtiles| == row * width
      invariant forall k :: 0 <= k < |subtiles| ==>
        subtiles[k] == SubtileAt(tile, rows, cols, k / cols, k % cols, mRa, mDec)
    {
      var col := 0;
      while col < cols
        invariant 0 <= col && (col <= cols || col == 0)
        invariant |subtiles| == row * width + col
        invariant forall k :: 0 <= k < |subtiles| ==>
          subtiles[k] == SubtileAt(tile, rows, cols, k / cols, k % cols, mRa, mDec)
      {
        DivModCell(row, col, cols);
        subtiles := subtiles + [SubtileAt(tile, rows, cols, row, col, mRa, mDec)];
        col := col + 1;
      }
      row := row + 1;
    }
    assert rows > 0 && cols > 0 ==> row == rows;
    r := Ok(subtiles);
    assert r.value == GridCells(tile, rows, cols, mRa, mDec);
  }

  lemma DivModCell(row: int, col: int, cols: int)
    requires cols > 0 && 0 <= col < cols && row >= 0
    ensures (row * cols + col) / cols == row
    ensures (row * cols + col) % cols == col
  {
    var k := row * cols + col;
    var q, m := k / cols, k % cols;
    assert k == q * cols + m;
    if q > row {
      MulAtLeast(q - row, cols);
    } else if q < row {
      MulAtLeast(row - q, cols);
    }
  }

  lemma MulAtLeast(d: int, c: int)
    requires d >= 1 && c > 0
    ensures d * c >= c
  {
  }

  /** Row-major order, read from an index: cell `k` carries a row and column
      inside the grid and sits at index row*cols + col. */
  lemma GridCellCoords(tile: TileFootprint, rows: int, cols: int, mRa: real, mDec: real, k: int)
    requires rows > 0 && cols > 0 && 0 <= k < rows * cols
    ensures var c := GridCells(tile, rows, cols, mRa, mDec)[k];
      0 <= c.row < rows && 0 <= c.col < cols && k == c.row * cols + c.col
  {
    var q := k / cols;
    assert k == q * cols + k % cols;
    if q >= rows {
      MulLeMonoInt(rows, q, cols);
    }
  }

  /** Row-major order, read from a cell: (row, col) sits at index
      row*cols + col, so together with GridCellCoords every pair of the grid
      appears exactly once. */
  lemma GridCellAt(tile: TileFootprint, rows: int, cols: int, mRa: real, mDec: real, row: int, col: int)
    requires rows > 0 && cols > 0 && 0 <= row < rows && 0 <= col < cols
    ensures 0 <= row * cols + col < rows * cols
    ensures GridCells(tile, rows, cols, mRa, mDec)[row * cols + col]
      == SubtileAt(tile, rows, cols, row, col, mRa, mDec)
  {
    DivModCell(row, col, cols);
    MulLeMonoInt(row + 1, rows, cols);
  }

  lemma MulLeMonoInt(a: int, b: int, k: int)
    requires k > 0 && a <= b
    ensures a * k <= b * k
  {
    assert (b - a) * k >= 0;
  }

  /** The outer cells meet the tile core's edges: the first slice starts at
      the tile minimum and the last one ends at the tile maximum. */
  lemma SlicesSpan(lo: real, hi: real, n: int)
    requires n > 0
    ensures SliceLo(lo, hi, n, 0) == lo
    ensures SliceHi(lo, hi, n, n - 1) == hi
  {
    var s := (hi - lo) / n as real;
    assert (n - 1) as real * s + s == n as real * s;
  }

  /** Neighbouring slices share their boundary exactly. */
  lemma SlicesAbut(lo: real, hi: real, n: int, i: int)
    requires n != 0
    ensures SliceHi(lo, hi, n, i) == SliceLo(lo, hi, n, i + 1)
  {
    var s := (hi - lo) / n as real;
    assert i as real * s + s == (i + 1) as real * s;
  }

  /** Every point of [lo, hi) lies in exactly one of the `n` half-open slices:
      the slices cut the interval without gap or overlap. */
  lemma SlicesPartition(lo: real, hi: real, n: int, x: real) returns (i: int)
    requires n > 0 && lo < hi && lo <= x < hi
    ensures 0 <= i < n && SliceLo(lo, hi, n, i) <= x < SliceHi(lo, hi, n, i)
    ensures forall j :: 0 <= j < n && SliceLo(lo, hi, n, j) <= x < SliceHi(lo, hi, n, j) ==> j == i
  {
    var s := (hi - lo) / n as real;
    assert s > 0.0;
    var t := (x - lo) / s;
    assert t * s == x - lo;
    i := t.Floor;
    assert i as real <= t < i as real + 1.0;
    MulLeMono(i as real, t, s);
    MulLtMono(t, i as real + 1.0, s);
    calc {
      x - lo;
      t * s;
    <
      (i as real + 1.0) * s;
      i as real * s + s;
    }
    assert i >= 0 by {
      if i < 0 { MulLeMono(i as real + 1.0, 0.0, s); }
    }
    assert i < n by {
      assert n as real * s == hi - lo;
      if i >= n {
        MulLeMono(n as real, i as real, s);
        calc {
          hi - lo;
          n as real * s;
        <=
          i as real * s;
        <=
          t * s;
          x - lo;
        }
      }
    }
    forall j | 0 <= j < n && SliceLo(lo, hi, n, j) <= x < SliceHi(lo, hi, n, j)
      ensures j == i
    {
      if j < i { SlicesOrdered(lo, hi, n, j, i); }
      if j > i { SlicesOrdered(lo, hi, n, i, j); }
    }
  }

  /** A slice ends no later than any later slice begins (for lo <= hi). */
  lemma SlicesOrdered(lo: real, hi: real, n: int, i: int, j: int)
    requires n > 0 && lo <= hi && i < j
    ensures SliceHi(lo, hi, n, i) <= SliceLo(lo, hi, n, j)
  {
    var s := (hi - lo) / n as real;
    assert (i as real + 1.0) * s == i as real * s + s;
    if lo < hi {
      MulLeMono(i as real + 1.0, j as real, s);
    }
  }

  lemma MulLtMono(a: real, b: real, k: real)
    requires k > 0.0 && a < b
    ensures a * k < b * k
  {
    assert (b - a) * k > 0.0;
  }

  /** The grid's cores tile the parent core: cell (0, 0) starts at the tile's
      minimum corner, cell (rows-1, cols-1) ends at its maximum corner, and
      cells adjacent in a row or a column share their boundary exactly. */
  lemma GridCoresTileParent(tile: TileFootprint, rows: int, cols: int, mRa: real, mDec: real,
                            row: int, col: int, row': int, col': int)
    requires rows > 0 && cols > 0
    ensures SubtileAt(tile, rows, cols, 0, 0, mRa, mDec).coreRa.0 == tile.coreRa.0
    ensures SubtileAt(tile, rows, cols, 0, 0, mRa, mDec).coreDec.0 == tile.coreDec.0
    ensures SubtileAt(tile, rows, cols, rows - 1, cols - 1, mRa, mDec).coreRa.1 == tile.coreRa.1
    ensures SubtileAt(tile, rows, cols, rows - 1, cols - 1, mRa, mDec).coreDec.1 == tile.coreDec.1
    ensures SubtileAt(tile, rows, cols, row, col, mRa, mDec).coreRa.1
      == SubtileAt(tile, rows, cols, row', col + 1, mRa, mDec).coreRa.0
    ensures SubtileAt(tile, rows, cols, row, col, mRa, mDec).coreDec.1
      == SubtileAt(tile, rows, cols, row + 1, col', mRa, mDec).coreDec.0
  {
    SlicesSpan(tile.coreRa.0, tile.coreRa.1, cols);
    SlicesSpan(tile.coreDec.0, tile.coreDec.1, rows);
    SlicesAbut(tile.coreRa.0, tile.coreRa.1, cols, col);
    SlicesAbut(tile.coreDec.0, tile.coreDec.1, rows, row);
  }

  /** Every point of a (non-degenerate) tile core lies in the half-open core
      of exactly one cell of the grid. */
  lemma GridCoresPartition(tile: TileFootprint, rows: int, cols: int, mRa: real, mDec: real,
                           ra: real, dec: real) returns (k: int)
    requires rows > 0 && cols > 0
    requires tile.coreRa.0 <= ra < tile.coreRa.1 && tile.coreDec.0 <= dec < tile.coreDec.1
    ensures var cells := GridCells(tile, rows, cols, mRa, mDec);
      && 0 <= k < |cells|
      && cells[k].coreRa.0 <= ra < cells[k].coreRa.1
      && cells[k].coreDec.0 <= dec < cells[k].coreDec.1
      && forall j :: (0 <= j < |cells| && cells[j].coreRa.0 <= ra < cells[j].coreRa.1
           && cells[j].coreDec.0 <= dec < cells[j].coreDec.1) ==> j == k
  {
    var cells := GridCells(tile, rows, cols, mRa, mDec);
    var col := SlicesPartition(tile.coreRa.0, tile.coreRa.1, cols, ra);
    var row := SlicesPartition(tile.coreDec.0, tile.coreDec.1, rows, dec);
    k := row * cols + col;
    GridCellAt(tile, rows, cols, mRa, mDec, row, col);
    forall j | 0 <= j < |cells| && cells[j].coreRa.0 <= ra < cells[j].coreRa.1
           && cells[j].coreDec.0 <= dec < cells[j].coreDec.1
      ensures j == k
    {
      GridCellCoords(tile, rows, cols, mRa, mDec, j);
      var c := cells[j];
      GridCellAt(tile, rows, cols, mRa, mDec, c.row, c.col);
    }
  }

  /** Each extended box is its core widened by the margin on every side, the
      centre is the core's midpoint, and two cells adjacent in a row (or a
      column) overlap by twice the margin. */
  lemma GridExtendedMargins(tile: TileFootprint, rows: int, cols: int, mRa: real, mDec: real,
                            row: int, col: int)
    requires rows > 0 && cols > 0
    ensures var c := SubtileAt(tile, rows, cols, row, col, mRa, mDec);
      && c.extendedRa == (c.coreRa.0 - mRa, c.coreRa.1 + mRa)
      && c.extendedDec == (c.coreDec.0 - mDec, c.coreDec.1 + mDec)
      && c.centerRa == Mid(c.coreRa) && c.centerDec == Mid(c.coreDec)
    ensures var c := SubtileAt(tile, rows, cols, row, col, mRa, mDec);
      var right := SubtileAt(tile, rows, cols, row, col + 1, mRa, mDec);
      var above := SubtileAt(tile, rows, cols, row + 1, col, mRa, mDec);
      && c.extendedRa.1 - right.extendedRa.0 == 2.0 * mRa
      && c.extendedDec.1 - above.extendedDec.0 == 2.0 * mDec
  {
    SlicesAbut(tile.coreRa.0, tile.coreRa.1, cols, col);
    SlicesAbut(tile.coreDec.0, tile.coreDec.1, rows, row);
  }

  /** The margins of a successful grid measure `margin` arcminutes of sky at
      the tile's centre declination, so a positive margin makes neighbouring
      extended boxes overlap. */
  lemma GridMarginsFromArcmin(tile: TileFootprint, rows: int, cols: int, margin: real,
                              cosDeg: real -> real)
    requires rows > 0 && cols > 0 && cosDeg(tile.centerDec) >= MinCosDec
    ensures var mRa := ArcminToDegRa(margin, tile.centerDec, cosDeg).value;
      && SubtileGrid(tile, rows, cols, margin, cosDeg)
           == Ok(GridCells(tile, rows, cols, mRa, ArcminToDegDec(margin)))
      && (margin > 0.0 ==> mRa > 0.0 && ArcminToDegDec(margin) > 0.0)
  {
    var mRa := ArcminToDegRa(margin, tile.centerDec, cosDeg).value;
    if margin > 0.0 && mRa <= 0.0 {
      MulLeMono(mRa, 0.0, 60.0 * cosDeg(tile.centerDec));
    }
  }

  /** Row 0 has the lowest declination and column 0 the lowest RA: centres
      increase strictly along rows and columns of a non-degenerate tile. */
  lemma GridCentresIncrease(tile: TileFootprint, rows: int, cols: int, mRa: real, mDec: real,
                            row: int, col: int, row': int, col': int)
    requires rows > 0 && cols > 0
    requires tile.coreRa.0 < tile.coreRa.1 && tile.coreDec.0 < tile.coreDec.1
    ensures row < row' ==>
      SubtileAt(tile, rows, cols, row, col, mRa, mDec).centerDec
        < SubtileAt(tile, rows, cols, row', col', mRa, mDec).centerDec
    ensures col < col' ==>
      SubtileAt(tile, rows, cols, row, col, mRa, mDec).centerRa
        < SubtileAt(tile, rows, cols, row', col', mRa, mDec).centerRa
  {
    var sDec := (tile.coreDec.1 - tile.coreDec.0) / rows as real;
    var sRa := (tile.coreRa.1 - tile.coreRa.0) / cols as real;
    if row < row' { MulLtMono(row as real, row' as real, sDec); }
    if col < col' { MulLtMono(col as real, col' as real, sRa); }
  }

  // ----- the EDFF tile catalog -----

  /** The first 48 Q1 MER tile ids of the EDFF field, in catalog order. */
  const EdffTileIds: seq<int> := [
    102018211, 102018212, 102018213, 102018664, 102018665, 102018666,
    102018667, 102018668, 102018669, 102018670, 102018671, 102019122,
    102019123, 102019124, 102019125, 102019126, 102019127, 102019128,
    102019129, 102019130, 102019131, 102019585, 102019586, 102019587,
    102019588, 102019589, 102019590, 102019591, 102019592, 102019593,
    102019594, 102019595, 102019596, 102020053, 102020054, 102020055,
    102020056, 102020057, 102020058, 102020059, 102020060, 102020061,
    102020062, 102020063, 102020064, 102020065, 102020066, 102020527
  ]

  const EdffBaseRa: real := 50.5
  const EdffBaseDec: real := -29.5
  const EdffSpacingDec: real := 0.5
  const EdffRows: int := 6
  const EdffCols: int := 8
  /** The declination at which the RA spacing is corrected. */
  const EdffRefDec: real := -28.0

  /** Centres laid out row-major on a 6 x 8 grid, spaced 0.5 degree in Dec and
      `spacingRa` in RA, one per listed id, at most 48 of them. */
  function CentersOf(ids: seq<int>, spacingRa: real): (cs: seq<(int, real, real)>)
    ensures |cs| == if |ids| < EdffRows * EdffCols then |ids| else EdffRows * EdffCols
    ensures forall k :: 0 <= k < |cs| ==> cs[k].0 == ids[k]
  {
    var n := if |ids| < EdffRows * EdffCols then |ids| else EdffRows * EdffCols;
    seq(n, k requires 0 <= k < n => CenterOf(ids[k], k, spacingRa))
  }

  /** The centre of the `k`-th grid cell, row-major. */
  function CenterOf(id: int, k: int, spacingRa: real): (int, real, real) {
    (id, EdffBaseRa + (k % EdffCols) as real * spacingRa, EdffBaseDec + (k / EdffCols) as real * EdffSpacingDec)
  }

  /** The centre in row `row` and column `col` of the grid. */
  lemma CenterAt(ids: seq<int>, spacingRa: real, row: int, col: int)
    requires 0 <= row < EdffRows && 0 <= col < EdffCols && row * EdffCols + col < |ids|
    ensures row * EdffCols + col < |CentersOf(ids, spacingRa)|
    ensures CentersOf(ids, spacingRa)[row * EdffCols + col]
      == (ids[row * EdffCols + col], EdffBaseRa + col as real * spacingRa, EdffBaseDec + row as real * EdffSpacingDec)
  {
    var k := row * EdffCols + col;
    DivModCell(row, col, EdffCols);
    MulLeMonoInt(row, EdffRows - 1, EdffCols);
    assert k % EdffCols == col && k / EdffCols == row;
    var c := CenterOf(ids[k], k, spacingRa);
    assert c.1 == EdffBaseRa + col as real * spacingRa;
    assert c.2 == EdffBaseDec + row as real * EdffSpacingDec;
    assert CentersOf(ids, spacingRa)[k] == c;
  }

  /** `_edff_tile_centers`: the nested row/column loop that stops once the id
      list is used up; the RA spacing is corrected at Dec -28. */
  method TileCenters(ids: seq<int>, cosDeg: real -> real) returns (centers: seq<(int, real, real)>)
    requires cosDeg(EdffRefDec) != 0.0
    ensures centers == CentersOf(ids, 0.5 / cosDeg(EdffRefDec))
  {
    var spacingRa := 0.5 / cosDeg(EdffRefDec);
    ghost var all := CentersOf(ids, spacingRa);
    centers := [];
    var idx := 0;
    var row := 0;
    while row < EdffRows
      invariant 0 <= row <= EdffRows
      invariant idx == if row * EdffCols < |ids| then row * EdffCols else |ids|
      invariant centers == all[..idx]
    {
      var col := 0;
      while col < EdffCols
        invariant 0 <= col <= EdffCols
        invariant idx == if row * EdffCols + col < |ids| then row * EdffCols + col else |ids|
        invariant centers == all[..idx]
      {
        if idx >= |ids| {
          break;
        }
        assert idx == row * EdffCols + col;
        CenterAt(ids, spacingRa, row, col);
        var ra := EdffBaseRa + col as real * spacingRa;
        var dec := EdffBaseDec + row as real * EdffSpacingDec;
        assert all[..idx + 1] == all[..idx] + [all[idx]];
        centers := centers + [(ids[idx], ra, dec)];
        idx := idx + 1;
        col := col + 1;
      }
      row := row + 1;
    }
  }

  function EdffCenters(cosDeg: real -> real): (cs: seq<(int, real, real)>)
    requires cosDeg(EdffRefDec) != 0.0
  {
    CentersOf(EdffTileIds, 0.5 / cosDeg(EdffRefDec))
  }

  /** Footprints of the listed centres with the default MER sizes; the first
      centre too close to a pole makes the whole list fail. */
  function FootprintsOf(cs: seq<(int, real, real)>, cosDeg: real -> real): (r: Result<seq<TileFootprint>>)
    ensures r.Ok? <==> forall k :: 0 <= k < |cs| ==> cosDeg(cs[k].2) >= MinCosDec
    ensures r.Ok? ==> (|r.value| == |cs|
      && forall k :: 0 <= k < |cs| ==>
           MakeTileFootprint(cs[k].0, cs[k].1, cs[k].2, DefaultCoreArcmin, DefaultExtendedArcmin, cosDeg)
             == Ok(r.value[k]))
  {
    if |cs| == 0 then Ok([])
    else
      match MakeTileFootprint(cs[0].0, cs[0].1, cs[0].2, DefaultCoreArcmin, DefaultExtendedArcmin, cosDeg)
      case Err(e) => Err(e)
      case Ok(t) =>
        match FootprintsOf(cs[1..], cosDeg)
        case Err(e) => Err(e)
        case Ok(ts) =>
          assert forall k :: 1 <= k < |cs| ==> cs[k] == cs[1..][k - 1];
          Ok([t] + ts)
  }

  /** `get_edff_tiles`: one footprint per EDFF id, in catalog order. */
  function GetEdffTiles(cosDeg: real -> real): (r: Result<seq<TileFootprint>>)
    requires cosDeg(EdffRefDec) != 0.0
    ensures r.Ok? ==> (|r.value| == |EdffTileIds|
      && forall k :: 0 <= k < |EdffTileIds| ==> r.value[k].tileId == EdffTileIds[k])
  {
    FootprintsOf(EdffCenters(cosDeg), cosDeg)
  }

  /** The footprint `get_tile_by_id` returns, as a value: the one built at
      the centre of the first catalog entry with the id, or a KeyError. */
  function TileById(tileId: int, cosDeg: real -> real): (r: Result<TileFootprint>)
    requires cosDeg(EdffRefDec) != 0.0
    ensures tileId !in EdffTileIds ==> r == Err(KeyError)
    ensures tileId in EdffTileIds ==> r.Ok? || r == Err(ValueError)
    ensures r.Ok? ==> r.value.tileId == tileId
  {
    match FirstMatch(EdffTileIds, t => t == tileId)
    case None => Err(KeyError)
    case Some(k) =>
      var c := EdffCenters(cosDeg)[k];
      MakeTileFootprint(tileId, c.1, c.2, DefaultCoreArcmin, DefaultExtendedArcmin, cosDeg)
  }

  /** `get_tile_by_id`: the search loop over the catalog centres. */
  method GetTileById(tileId: int, cosDeg: real -> real) returns (r: Result<TileFootprint>)
    requires cosDeg(EdffRefDec) != 0.0
    ensures r == TileById(tileId, cosDeg)
  {
    var centers := TileCenters(EdffTileIds, cosDeg);
    var i := 0;
    while i < |centers|
      invariant 0 <= i <= |centers| == |EdffTileIds|
      invariant tileId !in EdffTileIds[..i]
    {
      var (tid, ra, dec) := centers[i];
      if tid == tileId {
        r := MakeTileFootprint(tid, ra, dec, DefaultCoreArcmin, DefaultExtendedArcmin, cosDeg);
        TileByIdAt(tileId, cosDeg, i);
        return;
      }
      NotInPrefixSnoc(EdffTileIds, tileId, i);
      i := i + 1;
    }
    assert EdffTileIds[..i] == EdffTileIds;
    r := Err(KeyError);
  }

  lemma NotInPrefixSnoc(ids: seq<int>, x: int, i: int)
    requires 0 <= i < |ids| && x !in ids[..i] && ids[i] != x
    ensures x !in ids[..i + 1]
  {
    assert ids[..i + 1] == ids[..i] + [ids[i]];
  }

  /** A known id finds the footprint at the centre of its first catalog
      entry, the same footprint `get_edff_tiles` lists there. */
  lemma TileByIdAt(tileId: int, cosDeg: real -> real, i: int)
    requires cosDeg(EdffRefDec) != 0.0 && 0 <= i < |EdffTileIds|
    requires EdffTileIds[i] == tileId && tileId !in EdffTileIds[..i]
    ensures var c := EdffCenters(cosDeg)[i];
      TileById(tileId, cosDeg) == MakeTileFootprint(tileId, c.1, c.2, DefaultCoreArcmin, DefaultExtendedArcmin, cosDeg)
    ensures GetEdffTiles(cosDeg).Ok? ==>
      TileById(tileId, cosDeg).Ok? && TileById(tileId, cosDeg).value == GetEdffTiles(cosDeg).value[i]
  {
    var first := FirstMatch(EdffTileIds, t => t == tileId);
    assert first.Some? && first.value == i;
    EdffTileListed(cosDeg, i);
  }

  /** Every id of the catalog is found, and its footprint is one that
      `get_edff_tiles` lists. */
  lemma TileByIdListed(tileId: int, cosDeg: real -> real)
    requires cosDeg(EdffRefDec) != 0.0 && tileId in EdffTileIds && GetEdffTiles(cosDeg).Ok?
    ensures TileById(tileId, cosDeg).Ok? && TileById(tileId, cosDeg).value in GetEdffTiles(cosDeg).value
  {
    var i := FirstMatch(EdffTileIds, t => t == tileId).value;
    assert tileId !in EdffTileIds[..i];
    TileByIdAt(tileId, cosDeg, i);
  }

  /** The footprint `get_edff_tiles` lists at position `i` is the one built
      from the `i`-th centre. */
  lemma EdffTileListed(cosDeg: real -> real, i: int)
    requires cosDeg(EdffRefDec) != 0.0 && 0 <= i < |EdffTileIds|
    ensures var c := EdffCenters(cosDeg)[i];
      GetEdffTiles(cosDeg).Ok? ==>
        MakeTileFootprint(c.0, c.1, c.2, DefaultCoreArcmin, DefaultExtendedArcmin, cosDeg)
          == Ok(GetEdffTiles(cosDeg).value[i])
  {
  }
}
