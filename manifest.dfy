/** Sub-tile manifests: the deterministic mock source ids, the manifest built
    from a sub-tile, and all manifests of one MER tile under either quadrant
    assignment: the spatial filter over a quadrant index, or every quadrant
    reference of the observation index for every sub-tile. Writing YAML is
    I/O: the model returns each manifest with the path it is written to. */
module Manifest {
  import opened Wrappers
  import opened Strings
  import opened Schemas
  import opened Tiling
  import Config
  import opened Discovery
  import opened QuadrantResolver
  import opened Paths

  /** The default number of mock sources per sub-tile. */
  const DefaultSources: int := 2500

  /** The default core share of the mock sources, about (8/10)^2. */
  const DefaultCoreFraction: real := 0.64

  /** `int(x)` for a float: truncation toward zero. */
  function Trunc(x: real): (r: int)
    ensures 0.0 <= x ==> r as real <= x < r as real + 1.0
    ensures x < 0.0 ==> r as real - 1.0 < x <= r as real
  {
    if x >= 0.0 then x.Floor else -((-x).Floor)
  }

  /** The end of the Python slice `s[:k]` of a list of length `n`: a
      negative `k` counts from the end. */
  function SliceStop(k: int, n: nat): (r: nat)
    ensures r <= n
    ensures 0 <= k <= n ==> r == k
    ensures k < 0 ==> r == if n + k > 0 then n + k else 0
  {
    if k < 0 then (if n + k > 0 then n + k else 0)
    else if k < n then k else n
  }

  /** The first mock id of a sub-tile: `(tile_id*100 + row*10 + col) * 10000`. */
  function IdBase(sub: SubTile): int {
    (sub.tileId * 100 + sub.row * 10 + sub.col) * 10000
  }

  /** `generate_mock_source_ids`: the ids `range(base, base + n)` and their
      prefix of length `int(n * core_fraction)`. */
  function MockSourceIds(sub: SubTile, nSources: int, coreFraction: real): (r: (seq<int>, seq<int>))
    ensures |r.0| == if nSources > 0 then nSources else 0
    ensures forall i :: 0 <= i < |r.0| ==> r.0[i] == IdBase(sub) + i
    ensures |r.1| <= |r.0| && r.1 == r.0[..|r.1|]
    ensures 0 <= Trunc(nSources as real * coreFraction) <= |r.0| ==> |r.1| == Trunc(nSources as real * coreFraction)
  {
    var n := if nSources > 0 then nSources else 0;
    var all := seq(n, i => IdBase(sub) + i);
    (all, all[..SliceStop(Trunc(nSources as real * coreFraction), n)])
  }

  /** With the defaults, a sub-tile gets 2500 consecutive ids from its base,
      the first 1600 of them in the core. */
  lemma MockDefaults(sub: SubTile)
    ensures var r := MockSourceIds(sub, DefaultSources, DefaultCoreFraction);
      |r.0| == 2500 && |r.1| == 1600 && r.0[0] == IdBase(sub) && r.0[2499] == IdBase(sub) + 2499
  {
    assert DefaultSources as real * DefaultCoreFraction == 1600.0;
  }

  /** Every core id is one of the sub-tile's ids. */
  lemma MockCoreSubset(sub: SubTile, nSources: int, coreFraction: real)
    ensures var r := MockSourceIds(sub, nSources, coreFraction);
      forall x :: x in r.1 ==> x in r.0
  {
    var r := MockSourceIds(sub, nSources, coreFraction);
    forall x | x in r.1 ensures x in r.0 {
      var i :| 0 <= i < |r.1| && r.1[i] == x;
      assert r.0[i] == x;
    }
  }

  /** Different cells with row and column below 10 get disjoint id ranges
      when each holds at most 10000 ids. */
  lemma MockIdsDisjoint(a: SubTile, b: SubTile, n: int, cf: real)
    requires 0 <= a.row < 10 && 0 <= a.col < 10 && 0 <= b.row < 10 && 0 <= b.col < 10
    requires (a.tileId, a.row, a.col) != (b.tileId, b.row, b.col)
    requires n <= 10000
    ensures forall x :: x in MockSourceIds(a, n, cf).0 ==> x !in MockSourceIds(b, n, cf).0
  {
    var ka := a.tileId * 100 + a.row * 10 + a.col;
    var kb := b.tileId * 100 + b.row * 10 + b.col;
    assert ka != kb by {
      if a.tileId == b.tileId && a.row == b.row {
      } else if a.tileId == b.tileId {
        assert a.row < b.row ==> ka < kb;
        assert b.row < a.row ==> kb < ka;
      } else {
        assert a.tileId < b.tileId ==> ka < kb;
        assert b.tileId < a.tileId ==> kb < ka;
      }
    }
    var ra := MockSourceIds(a, n, cf).0;
    var rb := MockSourceIds(b, n, cf).0;
    forall x | x in ra ensures x !in rb {
      var i :| 0 <= i < |ra| && ra[i] == x;
    }
  }

  /** `_subtile_to_sky_bounds`: the four ranges of the sub-tile. */
  function SkyBoundsOf(sub: SubTile): (sb: SkyBounds)
    ensures sb.coreRa == sub.coreRa && sb.coreDec == sub.coreDec
    ensures sb.extendedRa == sub.extendedRa && sb.extendedDec == sub.extendedDec
  {
    SkyBounds(sub.coreRa, sub.coreDec, sub.extendedRa, sub.extendedDec)
  }

  /** `generate_manifest`: the sub-tile's identity and bounds with the given
      quadrants, catalog and ids. */
  function GenerateManifest(sub: SubTile, quadrants: seq<QuadrantRef>, catalogPath: string,
                            sourceIds: seq<int>, coreSourceIds: seq<int>): (m: SubTileManifest)
    ensures m.tileId == sub.tileId && m.subTileRow == sub.row && m.subTileCol == sub.col
    ensures m.skyBounds == SkyBoundsOf(sub)
    ensures m.quadrants == quadrants && m.sourceCatalog == catalogPath
    ensures m.sourceIds == sourceIds && m.coreSourceIds == coreSourceIds
  {
    SubTileManifest(sub.tileId, sub.row, sub.col, SkyBoundsOf(sub), quadrants, catalogPath,
                    sourceIds, coreSourceIds)
  }

  /** The file name of a manifest: `f"{tile_id}_{row}_{col}.yaml"`. */
  function ManifestFileName(tileId: int, row: int, col: int): string {
    IntToString(tileId) + "_" + IntToString(row) + "_" + IntToString(col) + ".yaml"
  }

  /** `manifest_dir / str(tile_id) / f"{tile_id}_{row}_{col}.yaml"`. */
  function ManifestPath(manifestDir: string, tileId: int, row: int, col: int): string {
    PathJoin(PathJoin(manifestDir, IntToString(tileId)), ManifestFileName(tileId, row, col))
  }

  /** The quadrant references of the observations `obsIds`, in order: the
      legacy list `all_quadrant_refs`. */
  function RefsOfObs(idx: ObservationIndex, obsIds: seq<string>): (refs: seq<QuadrantRef>)
    decreases |obsIds|
  {
    if |obsIds| == 0 then []
    else
      var o := obsIds[|obsIds| - 1];
      RefsOfObs(idx, obsIds[..|obsIds| - 1]) + RefsFor(idx, o, DitherCcdPairs(idx, o))
  }

  lemma RefsOfObsSnoc(idx: ObservationIndex, obsIds: seq<string>, i: int)
    requires 0 <= i < |obsIds|
    ensures RefsOfObs(idx, obsIds[..i + 1])
      == RefsOfObs(idx, obsIds[..i]) + RefsFor(idx, obsIds[i], DitherCcdPairs(idx, obsIds[i]))
  {
    assert obsIds[..i + 1][..i] == obsIds[..i];
  }

  /** The references of every observation of the index. */
  function AllRefs(idx: ObservationIndex): seq<QuadrantRef> {
    RefsOfObs(idx, ObsIds(idx))
  }

  /** A reference of observation `o`'s pair `p` that has a DET file. */
  predicate DetRefOf(idx: ObservationIndex, o: string, p: (string, string), q: QuadrantRef) {
    p in DitherCcdPairs(idx, o) && HasDetKey(idx, o, p) && q == RefFor(idx, o, p)
  }

  /** Every reference of the legacy list is that of a DET-bearing pair of
      a listed observation. */
  lemma {:induction false} RefsOfObsSound(idx: ObservationIndex, obsIds: seq<string>, q: QuadrantRef)
    requires q in RefsOfObs(idx, obsIds)
    ensures exists o, p :: o in obsIds && DetRefOf(idx, o, p, q)
    decreases |obsIds|
  {
    var init := obsIds[..|obsIds| - 1];
    var o := obsIds[|obsIds| - 1];
    if q in RefsOfObs(idx, init) {
      RefsOfObsSound(idx, init, q);
      var o', p :| o' in init && DetRefOf(idx, o', p, q);
      assert o' in obsIds;
    } else {
      var p :| p in DitherCcdPairs(idx, o) && HasDetKey(idx, o, p) && q == RefFor(idx, o, p);
      assert DetRefOf(idx, o, p, q);
    }
  }

  /** The legacy list holds the reference of every DET-bearing pair of every
      listed observation. */
  lemma {:induction false} RefsOfObsComplete(idx: ObservationIndex, obsIds: seq<string>, o: string,
                                             p: (string, string))
    requires o in obsIds && p in DitherCcdPairs(idx, o) && HasDetKey(idx, o, p)
    ensures RefFor(idx, o, p) in RefsOfObs(idx, obsIds)
    decreases |obsIds|
  {
    var init := obsIds[..|obsIds| - 1];
    if o != obsIds[|obsIds| - 1] {
      assert obsIds == init + [obsIds[|obsIds| - 1]];
      RefsOfObsComplete(idx, init, o, p);
    }
  }

  /** A manifest's quadrants and ids under the two strategies: with a
      quadrant index, the spatial filter and no ids (the catalog subset is
      taken at extraction); without one, every reference and the mock ids. */
  function ManifestFor(sub: SubTile, catalogPath: string, allRefs: seq<QuadrantRef>,
                       quadrantIndex: Option<seq<QuadrantFootprint>>): SubTileManifest
  {
    match quadrantIndex
    case Some(index) => GenerateManifest(sub, Resolve(index, SkyBoundsOf(sub)), catalogPath, [], [])
    case None =>
      var ids := MockSourceIds(sub, DefaultSources, DefaultCoreFraction);
      GenerateManifest(sub, allRefs, catalogPath, ids.0, ids.1)
  }

  /** The written manifests of a grid, each with its path, in grid order. */
  function ManifestsFor(tileId: int, subs: seq<SubTile>, manifestDir: string, catalogPath: string,
                        allRefs: seq<QuadrantRef>, quadrantIndex: Option<seq<QuadrantFootprint>>)
    : (r: seq<(string, SubTileManifest)>)
    ensures |r| == |subs|
  {
    seq(|subs|, i requires 0 <= i < |subs| =>
      (ManifestPath(manifestDir, tileId, subs[i].row, subs[i].col),
       ManifestFor(subs[i], catalogPath, allRefs, quadrantIndex)))
  }

  /** `write_manifests_for_tile` as a value: the tile lookup and the grid may
      fail; a missing catalog is the empty path; the legacy references are
      gathered only when there is no quadrant index. */
  function ManifestsForTile(tileId: int, config: Config.PipelineConfig, catalog: Option<string>,
                            idx: ObservationIndex, quadrantIndex: Option<seq<QuadrantFootprint>>,
                            cosDeg: real -> real): (r: Result<seq<(string, SubTileManifest)>>)
    requires cosDeg(EdffRefDec) != 0.0
    ensures tileId !in EdffTileIds ==> r == Err(KeyError)
  {
    match TileById(tileId, cosDeg)
    case Err(e) => Err(e)
    case Ok(tile) =>
      var (rows, cols) := config.tiling.subTileGrid;
      match SubtileGrid(tile, rows, cols, config.tiling.subTileMarginArcmin, cosDeg)
      case Err(e) => Err(e)
      case Ok(subs) =>
        var catalogPath := if catalog.Some? then catalog.value else "";
        var allRefs := if quadrantIndex.None? then AllRefs(idx) else [];
        Ok(ManifestsFor(tileId, subs, config.output.manifestDir, catalogPath, allRefs, quadrantIndex))
  }

  /** One manifest per cell of a successful grid, in row-major order, at
      `manifest_dir/tile_id/{tile_id}_{row}_{col}.yaml`, carrying the tile
      id, the cell's row, column and bounds, and the catalog ("" when none
      was found). */
  lemma ManifestsForTileShape(tileId: int, config: Config.PipelineConfig, catalog: Option<string>,
                              idx: ObservationIndex, quadrantIndex: Option<seq<QuadrantFootprint>>,
                              cosDeg: real -> real, k: int)
    requires cosDeg(EdffRefDec) != 0.0
    requires ManifestsForTile(tileId, config, catalog, idx, quadrantIndex, cosDeg).Ok?
    ensures var (rows, cols) := config.tiling.subTileGrid;
      |ManifestsForTile(tileId, config, catalog, idx, quadrantIndex, cosDeg).value|
        == if rows > 0 && cols > 0 then rows * cols else 0
    ensures var (rows, cols) := config.tiling.subTileGrid;
      var ms := ManifestsForTile(tileId, config, catalog, idx, quadrantIndex, cosDeg).value;
      0 <= k < |ms| ==>
        && rows > 0 && cols > 0
        && ms[k].1.tileId == tileId
        && ms[k].1.subTileRow == k / cols && ms[k].1.subTileCol == k % cols
        && 0 <= k / cols < rows && 0 <= k % cols < cols
        && ms[k].0 == ManifestPath(config.output.manifestDir, tileId, k / cols, k % cols)
        && ms[k].1.sourceCatalog == (if catalog.Some? then catalog.value else "")
  {
    var (rows, cols) := config.tiling.subTileGrid;
    var margin := config.tiling.subTileMarginArcmin;
    var tile := TileById(tileId, cosDeg).value;
    var subs := SubtileGrid(tile, rows, cols, margin, cosDeg).value;
    var catalogPath := if catalog.Some? then catalog.value else "";
    var allRefs := if quadrantIndex.None? then AllRefs(idx) else [];
    var ms := ManifestsForTile(tileId, config, catalog, idx, quadrantIndex, cosDeg).value;
    assert ms == ManifestsFor(tileId, subs, config.output.manifestDir, catalogPath, allRefs, quadrantIndex);
    if 0 <= k < |ms| {
      var mRa := ArcminToDegRa(margin, tile.centerDec, cosDeg).value;
      GridMarginsFromArcmin(tile, rows, cols, margin, cosDeg);
      GridCellCoords(tile, rows, cols, mRa, ArcminToDegDec(margin), k);
    }
  }

  /** The two strategies, read from each manifest of a tile: with a quadrant
      index, the quadrants overlapping the manifest's own extended box in
      index order and no ids; without one, every reference of the
      observation index and the 2500 mock ids of its cell, the first 1600 of
      them in the core. */
  lemma ManifestsForTileStrategy(tileId: int, config: Config.PipelineConfig, catalog: Option<string>,
                                 idx: ObservationIndex, quadrantIndex: Option<seq<QuadrantFootprint>>,
                                 cosDeg: real -> real, k: int)
    requires cosDeg(EdffRefDec) != 0.0
    requires ManifestsForTile(tileId, config, catalog, idx, quadrantIndex, cosDeg).Ok?
    requires 0 <= k < |ManifestsForTile(tileId, config, catalog, idx, quadrantIndex, cosDeg).value|
    ensures var m := ManifestsForTile(tileId, config, catalog, idx, quadrantIndex, cosDeg).value[k].1;
      quadrantIndex.Some? ==>
        m.quadrants == Resolve(quadrantIndex.value, m.skyBounds) && m.sourceIds == [] && m.coreSourceIds == []
    ensures var m := ManifestsForTile(tileId, config, catalog, idx, quadrantIndex, cosDeg).value[k].1;
      quadrantIndex.None? ==>
        && m.quadrants == AllRefs(idx)
        && |m.sourceIds| == 2500
        && (forall i :: 0 <= i < 2500 ==>
              m.sourceIds[i] == (m.tileId * 100 + m.subTileRow * 10 + m.subTileCol) * 10000 + i)
        && m.coreSourceIds == m.sourceIds[..1600]
  {
    var (rows, cols) := config.tiling.subTileGrid;
    var tile := TileById(tileId, cosDeg).value;
    var subs := SubtileGrid(tile, rows, cols, config.tiling.subTileMarginArcmin, cosDeg).value;
    var catalogPath := if catalog.Some? then catalog.value else "";
    var allRefs := if quadrantIndex.None? then AllRefs(idx) else [];
    var ms := ManifestsForTile(tileId, config, catalog, idx, quadrantIndex, cosDeg).value;
    assert ms == ManifestsFor(tileId, subs, config.output.manifestDir, catalogPath, allRefs, quadrantIndex);
    assert ms[k].1 == ManifestFor(subs[k], catalogPath, allRefs, quadrantIndex);
    MockDefaults(subs[k]);
  }

  /** `all_quadrant_refs`: the references of every observation, gathered
      observation by observation. */
  method CollectAllRefs(idx: ObservationIndex) returns (refs: seq<QuadrantRef>)
    ensures refs == AllRefs(idx)
  {
    var obsIds := ObsIds(idx);
    refs := [];
    var i := 0;
    while i < |obsIds|
      invariant 0 <= i <= |obsIds|
      invariant refs == RefsOfObs(idx, obsIds[..i])
    {
      RefsOfObsSnoc(idx, obsIds, i);
      var more := BuildQuadrantRefs(idx, obsIds[i]);
      refs := refs + more;
      i := i + 1;
    }
    assert obsIds[..i] == obsIds;
  }

  /** `write_manifests_for_tile`: the manifests of the tile's grid, each with
      the path it is written to, in grid order. */
  method WriteManifestsForTile(tileId: int, config: Config.PipelineConfig, catalog: Option<string>,
                               idx: ObservationIndex, quadrantIndex: Option<seq<QuadrantFootprint>>,
                               cosDeg: real -> real)
    returns (r: Result<seq<(string, SubTileManifest)>>)
    requires cosDeg(EdffRefDec) != 0.0
    ensures r == ManifestsForTile(tileId, config, catalog, idx, quadrantIndex, cosDeg)
  {
    var tile := GetTileById(tileId, cosDeg);
    if tile.Err? {
      return Err(tile.error);
    }
    var (rows, cols) := config.tiling.subTileGrid;
    var grid := GenerateSubtileGrid(tile.value, rows, cols, config.tiling.subTileMarginArcmin, cosDeg);
    if grid.Err? {
      return Err(grid.error);
    }
    var subs := grid.value;
    var catalogPath := if catalog.Some? then catalog.value else "";
    var allRefs: seq<QuadrantRef> := [];
    if quadrantIndex.None? {
      allRefs := CollectAllRefs(idx);
    }
    var out := WriteManifestsForGrid(tileId, subs, config.output.manifestDir, catalogPath, allRefs, quadrantIndex);
    r := Ok(out);
  }

  /** The loop of `write_manifests_for_tile` over the sub-tiles. */
  method WriteManifestsForGrid(tileId: int, subs: seq<SubTile>, dir: string, catalogPath: string,
                               allRefs: seq<QuadrantRef>, quadrantIndex: Option<seq<QuadrantFootprint>>)
    returns (out: seq<(string, SubTileManifest)>)
    ensures out == ManifestsFor(tileId, subs, dir, catalogPath, allRefs, quadrantIndex)
  {
    out := [];
    var i := 0;
    while i < |subs|
      invariant 0 <= i <= |subs| && |out| == i
      invariant forall k :: 0 <= k < i ==>
        out[k] == (ManifestPath(dir, tileId, subs[k].row, subs[k].col),
                   ManifestFor(subs[k], catalogPath, allRefs, quadrantIndex))
    {
      var m := ManifestForSubtile(subs[i], catalogPath, allRefs, quadrantIndex);
      out := out + [(ManifestPath(dir, tileId, subs[i].row, subs[i].col), m)];
      i := i + 1;
    }
  }

  /** One sub-tile's manifest under the strategy the quadrant index selects. */
  method ManifestForSubtile(sub: SubTile, catalogPath: string, allRefs: seq<QuadrantRef>,
                            quadrantIndex: Option<seq<QuadrantFootprint>>) returns (m: SubTileManifest)
    ensures m == ManifestFor(sub, catalogPath, allRefs, quadrantIndex)
  {
    if quadrantIndex.Some? {
      var refs := ResolveQuadrantsForSubtile(quadrantIndex.value, SkyBoundsOf(sub));
      m := GenerateManifest(sub, refs, catalogPath, [], []);
    } else {
      var ids := MockSourceIds(sub, DefaultSources, DefaultCoreFraction);
      m := GenerateManifest(sub, allRefs, catalogPath, ids.0, ids.1);
    }
  }
}
