/** The pipeline tasks' own logic: parsing manifest file names, enumerating
    the DET work items of the distributed footprint index, tagging and
    merging their footprints, the configuration overrides, and the guarded
    upload of a tile's manifests and sub-tile directories. Task scheduling,
    caching and file transport are not part of this model: a footprint file
    is the list of plain values it holds. */
module Tasks {
  import opened Wrappers
  import opened Strings
  import opened Dicts
  import opened Paths
  import opened Discovery
  import opened QuadrantResolver
  import opened Config
  import opened Storage
  import Manifest
  import Extractor

  // ----- manifest file names -----

  /** `_parse_subtile_from_manifest_path`: the first three '_'-separated
      fields of the file name's stem, as integers. */
  function ParseSubtileFromManifestPath(path: string): (r: Result<(int, int, int)>)
    ensures r.Ok? ==> var parts := Split(Stem(Name(path)), '_');
      && |parts| >= 3
      && ParseInt(parts[0]) == Some(r.value.0)
      && ParseInt(parts[1]) == Some(r.value.1)
      && ParseInt(parts[2]) == Some(r.value.2)
    ensures r.Err? ==> r.error == IndexError || r.error == ValueError
  {
    match ParseFields(Split(Stem(Name(path)), '_'), 3)
    case Err(e) => Err(e)
    case Ok(vs) => Ok((vs[0], vs[1], vs[2]))
  }

  /** The parser inverts the manifest naming: a manifest written for
      (tile, row, col) in any directory parses back to (tile, row, col). */
  lemma ParseManifestPathRoundTrip(dir: string, tileId: int, row: int, col: int)
    ensures ParseSubtileFromManifestPath(Manifest.ManifestPath(dir, tileId, row, col)) == Ok((tileId, row, col))
  {
    var parts := [IntToString(tileId), IntToString(row), IntToString(col)];
    var base := Join(parts, '_');
    ManifestStem(dir, tileId, row, col);
    IntToStringFree(tileId, '_'); IntToStringFree(row, '_'); IntToStringFree(col, '_');
    SplitJoin(parts, '_');
    ParseFieldsOfStrings(parts, [tileId, row, col]);
  }

  /** The stem of a manifest's file name joins its tile, row and column with '_'. */
  lemma ManifestStem(dir: string, tileId: int, row: int, col: int)
    ensures Stem(Name(Manifest.ManifestPath(dir, tileId, row, col)))
      == Join([IntToString(tileId), IntToString(row), IntToString(col)], '_')
  {
    var t, r, c := IntToString(tileId), IntToString(row), IntToString(col);
    var base := t + "_" + r + "_" + c;
    var fname := Manifest.ManifestFileName(tileId, row, col);
    assert fname == base + ".yaml";
    ManifestBaseFree(tileId, row, col, '/');
    NotInConcat('/', base, ".yaml");
    NameOfJoin(PathJoin(dir, t), fname);
    ManifestBaseFree(tileId, row, col, '.');
    assert base + ".yaml" == base + "." + "yaml";
    StemOfSuffixed(base, "yaml");
    JoinThree(t, r, c);
  }

  /** Neither '/' nor '.' occurs in `{tile}_{row}_{col}`. */
  lemma ManifestBaseFree(tileId: int, row: int, col: int, ch: char)
    requires ch == '/' || ch == '.'
    ensures ch !in IntToString(tileId) + "_" + IntToString(row) + "_" + IntToString(col)
  {
    var t, r, c := IntToString(tileId), IntToString(row), IntToString(col);
    IntToStringFree(tileId, ch); IntToStringFree(row, ch); IntToStringFree(col, ch);
    NotInConcat(ch, t, "_"); NotInConcat(ch, t + "_", r);
    NotInConcat(ch, t + "_" + r, "_"); NotInConcat(ch, t + "_" + r + "_", c);
  }

  lemma JoinThree(t: string, r: string, c: string)
    ensures Join([t, r, c], '_') == t + "_" + r + "_" + c
  {
    assert Join([t, r, c], '_') == t + ['_'] + Join([r, c], '_');
    assert Join([r, c], '_') == r + ['_'] + Join([c], '_');
  }

  /** Manifests of different sub-tiles never share a path. */
  lemma ManifestPathInjective(dir: string, t1: int, r1: int, c1: int, t2: int, r2: int, c2: int)
    requires Manifest.ManifestPath(dir, t1, r1, c1) == Manifest.ManifestPath(dir, t2, r2, c2)
    ensures (t1, r1, c1) == (t2, r2, c2)
  {
    ParseManifestPathRoundTrip(dir, t1, r1, c1);
    ParseManifestPathRoundTrip(dir, t2, r2, c2);
  }

  // ----- DET work items -----

  /** One DET file to index, with its companion paths and provenance. */
  datatype WorkItem = WorkItem(
    detPath: string,
    bkgPath: string,
    wgtPath: string,
    psfPath: string,
    obsId: string,
    dither: string,
    ccd: string)

  /** The work item of one (dither, ccd) pair: s3 URIs, "" where a
      companion file is missing, and the observation's PSF file. */
  function ItemFor(idx: ObservationIndex, obsId: string, p: (string, string)): (w: WorkItem)
    ensures w.obsId == obsId && (w.dither, w.ccd) == p
    ensures w.bkgPath == "" <==> GetFile(idx, obsId, "BKG", p.0, p.1).None? || GetFile(idx, obsId, "BKG", p.0, p.1).value == ""
    ensures w.wgtPath == "" <==> GetFile(idx, obsId, "WGT", p.0, p.1).None? || GetFile(idx, obsId, "WGT", p.0, p.1).value == ""
    ensures w.psfPath == "" <==> GetPsfKey(idx, obsId).None? || GetPsfKey(idx, obsId).value == ""
  {
    WorkItem(
      DetUri(idx, obsId, p),
      UriOrEmpty(idx.bucket, GetFile(idx, obsId, "BKG", p.0, p.1)),
      UriOrEmpty(idx.bucket, GetFile(idx, obsId, "WGT", p.0, p.1)),
      UriOrEmpty(idx.bucket, GetPsfKey(idx, obsId)),
      obsId, p.0, p.1)
  }

  /** The items of the given pairs of one observation: one per pair with a
      DET key, in pair order. */
  function ItemsForPairs(idx: ObservationIndex, obsId: string, pairs: seq<(string, string)>): (items: seq<WorkItem>)
    ensures |items| <= |pairs|
  {
    if |pairs| == 0 then []
    else
      var p := pairs[|pairs| - 1];
      ItemsForPairs(idx, obsId, pairs[..|pairs| - 1]) + if HasDetKey(idx, obsId, p) then [ItemFor(idx, obsId, p)] else []
  }

  /** The items of the given observations, each over its sorted pairs. */
  function ItemsForObs(idx: ObservationIndex, obsIds: seq<string>): seq<WorkItem> {
    if |obsIds| == 0 then []
    else
      var o := obsIds[|obsIds| - 1];
      ItemsForObs(idx, obsIds[..|obsIds| - 1]) + ItemsForPairs(idx, o, DitherCcdPairs(idx, o))
  }

  /** `build_det_work_items` as a value: observations in sorted order, pairs
      in sorted order. */
  function WorkItems(idx: ObservationIndex): seq<WorkItem> {
    ItemsForObs(idx, ObsIds(idx))
  }

  /** Every item of some pairs is the item of one of those pairs, and that
      pair has a DET key. */
  lemma {:induction false} ItemsForPairsSound(idx: ObservationIndex, obsId: string, pairs: seq<(string, string)>, w: WorkItem)
    requires w in ItemsForPairs(idx, obsId, pairs)
    ensures (w.dither, w.ccd) in pairs && HasDetKey(idx, obsId, (w.dither, w.ccd))
    ensures w == ItemFor(idx, obsId, (w.dither, w.ccd))
  {
    var init := pairs[..|pairs| - 1];
    if w in ItemsForPairs(idx, obsId, init) {
      ItemsForPairsSound(idx, obsId, init, w);
      assert (w.dither, w.ccd) in init;
    } else {
      assert w == ItemFor(idx, obsId, pairs[|pairs| - 1]);
    }
  }

  /** Every pair with a DET key has its item. */
  lemma {:induction false} ItemsForPairsComplete(idx: ObservationIndex, obsId: string, pairs: seq<(string, string)>, p: (string, string))
    requires p in pairs && HasDetKey(idx, obsId, p)
    ensures ItemFor(idx, obsId, p) in ItemsForPairs(idx, obsId, pairs)
  {
    var init := pairs[..|pairs| - 1];
    if p != pairs[|pairs| - 1] {
      assert p in init by {
        assert pairs == init + [pairs[|pairs| - 1]];
      }
      ItemsForPairsComplete(idx, obsId, init, p);
    }
  }

  lemma {:induction false} ItemsForObsSound(idx: ObservationIndex, obsIds: seq<string>, w: WorkItem)
    requires w in ItemsForObs(idx, obsIds)
    ensures w.obsId in obsIds && (w.dither, w.ccd) in DitherCcdPairs(idx, w.obsId)
    ensures HasDetKey(idx, w.obsId, (w.dither, w.ccd)) && w == ItemFor(idx, w.obsId, (w.dither, w.ccd))
  {
    var init := obsIds[..|obsIds| - 1];
    var o := obsIds[|obsIds| - 1];
    if w in ItemsForObs(idx, init) {
      ItemsForObsSound(idx, init, w);
      assert w.obsId in init;
    } else {
      ItemsForPairsSound(idx, o, DitherCcdPairs(idx, o), w);
    }
  }

  lemma {:induction false} ItemsForObsComplete(idx: ObservationIndex, obsIds: seq<string>, o: string, p: (string, string))
    requires o in obsIds && p in DitherCcdPairs(idx, o) && HasDetKey(idx, o, p)
    ensures ItemFor(idx, o, p) in ItemsForObs(idx, obsIds)
  {
    var init := obsIds[..|obsIds| - 1];
    if o == obsIds[|obsIds| - 1] {
      ItemsForPairsComplete(idx, o, DitherCcdPairs(idx, o), p);
    } else {
      assert o in init by {
        assert obsIds == init + [obsIds[|obsIds| - 1]];
      }
      ItemsForObsComplete(idx, init, o, p);
    }
  }

  /** The work items are exactly the items of the (observation, pair)
      combinations that have a DET key. */
  lemma WorkItemsMembers(idx: ObservationIndex, w: WorkItem)
    ensures w in WorkItems(idx) <==>
      (w.obsId in ObsIds(idx) && (w.dither, w.ccd) in DitherCcdPairs(idx, w.obsId)
       && HasDetKey(idx, w.obsId, (w.dither, w.ccd)) && w == ItemFor(idx, w.obsId, (w.dither, w.ccd)))
  {
    if w in WorkItems(idx) {
      ItemsForObsSound(idx, ObsIds(idx), w);
    } else if w.obsId in ObsIds(idx) && (w.dither, w.ccd) in DitherCcdPairs(idx, w.obsId)
              && HasDetKey(idx, w.obsId, (w.dither, w.ccd)) && w == ItemFor(idx, w.obsId, (w.dither, w.ccd)) {
      ItemsForObsComplete(idx, ObsIds(idx), w.obsId, (w.dither, w.ccd));
    }
  }

  /** All items of one observation share its PSF path. */
  lemma WorkItemsSharePsf(idx: ObservationIndex, a: WorkItem, b: WorkItem)
    requires a in WorkItems(idx) && b in WorkItems(idx) && a.obsId == b.obsId
    ensures a.psfPath == b.psfPath
  {
    ItemsForObsSound(idx, ObsIds(idx), a);
    ItemsForObsSound(idx, ObsIds(idx), b);
  }

  /** One more pair appends its item when it has a DET key. */
  lemma ItemsForPairsSnoc(idx: ObservationIndex, obsId: string, pairs: seq<(string, string)>, j: int)
    requires 0 <= j < |pairs|
    ensures ItemsForPairs(idx, obsId, pairs[..j + 1]) == ItemsForPairs(idx, obsId, pairs[..j])
      + (if HasDetKey(idx, obsId, pairs[j]) then [ItemFor(idx, obsId, pairs[j])] else [])
  {
    assert pairs[..j + 1][..j] == pairs[..j];
  }

  /** One more observation appends the items of its sorted pairs. */
  lemma ItemsForObsSnoc(idx: ObservationIndex, obsIds: seq<string>, i: int)
    requires 0 <= i < |obsIds|
    ensures ItemsForObs(idx, obsIds[..i + 1])
      == ItemsForObs(idx, obsIds[..i]) + ItemsForPairs(idx, obsIds[i], DitherCcdPairs(idx, obsIds[i]))
  {
    assert obsIds[..i + 1][..i] == obsIds[..i];
  }

  /** The inner loop of `build_det_work_items` for one observation. */
  method ObservationItems(idx: ObservationIndex, obsId: string) returns (items: seq<WorkItem>)
    ensures items == ItemsForPairs(idx, obsId, DitherCcdPairs(idx, obsId))
  {
    var psfKey := GetPsfKey(idx, obsId);
    var psfPath := if psfKey.Some? && psfKey.value != "" then S3Uri(idx.bucket, psfKey.value) else "";
    var pairs := GetDitherCcdPairs(idx, obsId);
    items := [];
    var j := 0;
    while j < |pairs|
      invariant 0 <= j <= |pairs|
      invariant items == ItemsForPairs(idx, obsId, pairs[..j])
    {
      ItemsForPairsSnoc(idx, obsId, pairs, j);
      var (dither, ccd) := pairs[j];
      var detKey := GetFile(idx, obsId, "DET", dither, ccd);
      if detKey.Some? && detKey.value != "" {
        var bkgKey := GetFile(idx, obsId, "BKG", dither, ccd);
        var wgtKey := GetFile(idx, obsId, "WGT", dither, ccd);
        items := items + [WorkItem(
          S3Uri(idx.bucket, detKey.value),
          if bkgKey.Some? && bkgKey.value != "" then S3Uri(idx.bucket, bkgKey.value) else "",
          if wgtKey.Some? && wgtKey.value != "" then S3Uri(idx.bucket, wgtKey.value) else "",
          psfPath, obsId, dither, ccd)];
      }
      j := j + 1;
    }
    assert pairs[..j] == pairs;
  }

  /** `build_det_work_items`. */
  method BuildDetWorkItems(idx: ObservationIndex) returns (items: seq<WorkItem>)
    ensures items == WorkItems(idx)
  {
    var obsIds := ObsIds(idx);
    items := [];
    var i := 0;
    while i < |obsIds|
      invariant 0 <= i <= |obsIds|
      invariant items == ItemsForObs(idx, obsIds[..i])
    {
      ItemsForObsSnoc(idx, obsIds, i);
      var more := ObservationItems(idx, obsIds[i]);
      items := items + more;
      i := i + 1;
    }
    assert obsIds[..i] == obsIds;
  }

  // ----- footprints per work item and their merge -----

  /** `read_det_footprints` as a value: nothing when the DET file cannot be
      read, otherwise its footprints tagged with the item's paths and
      provenance, as plain values. */
  function ReadDet(item: WorkItem, read: FootprintReader): (r: seq<Json>)
    ensures read(item.detPath).Err? ==> r == []
    ensures read(item.detPath).Ok? ==> |r| == |read(item.detPath).value|
  {
    match read(item.detPath)
    case Err(_) => []
    case Ok(fps) => QuadrantResolver.IndexToJson(TagAll(fps, item.bkgPath, item.wgtPath, item.psfPath, item.obsId, item.dither, item.ccd))
  }

  /** Each footprint read for an item decodes to the read footprint with the
      item's companion paths and provenance. */
  lemma ReadDetTagged(item: WorkItem, read: FootprintReader, k: int)
    requires read(item.detPath).Ok? && 0 <= k < |read(item.detPath).value|
    ensures var fp := read(item.detPath).value[k];
      FootprintFromJson(ReadDet(item, read)[k])
        == Ok(fp.(bkgPath := item.bkgPath, wgtPath := item.wgtPath, psfPath := item.psfPath,
                  obsId := item.obsId, dither := item.dither, ccd := item.ccd))
  {
    var fp := read(item.detPath).value[k];
    FootprintRoundTrip(Tag(fp, item.bkgPath, item.wgtPath, item.psfPath, item.obsId, item.dither, item.ccd));
  }

  /** `read_det_footprints`: the loop over the footprints read. */
  method ReadDetFootprints(item: WorkItem, read: FootprintReader) returns (result: seq<Json>)
    ensures result == ReadDet(item, read)
  {
    var footprints := read(item.detPath);
    if footprints.Err? {
      return [];
    }
    var fps := footprints.value;
    ghost var tagged := TagAll(fps, item.bkgPath, item.wgtPath, item.psfPath, item.obsId, item.dither, item.ccd);
    result := [];
    var k := 0;
    while k < |fps|
      invariant 0 <= k <= |fps|
      invariant result == QuadrantResolver.IndexToJson(tagged[..k])
    {
      var fp := fps[k].(bkgPath := item.bkgPath, wgtPath := item.wgtPath, psfPath := item.psfPath,
                        obsId := item.obsId, dither := item.dither, ccd := item.ccd);
      assert tagged[..k + 1] == tagged[..k] + [fp];
      IndexToJsonAppend(tagged[..k], [fp]);
      result := result + [FootprintToJson(fp)];
      k := k + 1;
    }
    assert tagged[..k] == tagged;
  }

  /** The files' contents one after the other. */
  function Flatten(files: seq<seq<Json>>): (r: seq<Json>)
    ensures |files| == 0 ==> r == []
  {
    if |files| == 0 then [] else Flatten(files[..|files| - 1]) + files[|files| - 1]
  }

  lemma {:induction false} FlattenAppend(a: seq<seq<Json>>, b: seq<seq<Json>>)
    ensures Flatten(a + b) == Flatten(a) + Flatten(b)
    decreases |b|
  {
    if |b| > 0 {
      assert (a + b)[..|a + b| - 1] == a + b[..|b| - 1];
      FlattenAppend(a, b[..|b| - 1]);
    } else {
      assert a + b == a;
    }
  }

  /** Every file's entries appear in the merge, in file order. */
  lemma {:induction false} FlattenContains(files: seq<seq<Json>>, i: int, k: int)
    requires 0 <= i < |files| && 0 <= k < |files[i]|
    ensures files[i][k] in Flatten(files)
  {
    if i < |files| - 1 {
      FlattenContains(files[..|files| - 1], i, k);
    }
  }

  /** `merge_footprints`: the footprint files' lists concatenated in order. */
  method MergeFootprints(files: seq<seq<Json>>) returns (merged: seq<Json>)
    ensures merged == Flatten(files)
  {
    merged := [];
    var i := 0;
    while i < |files|
      invariant 0 <= i <= |files|
      invariant merged == Flatten(files[..i])
    {
      assert files[..i + 1][..i] == files[..i];
      merged := merged + files[i];
      i := i + 1;
    }
    assert files[..i] == files;
  }

  /** Serialising a concatenation concatenates the serialisations. */
  lemma IndexToJsonAppend(a: seq<QuadrantFootprint>, b: seq<QuadrantFootprint>)
    ensures QuadrantResolver.IndexToJson(a + b) == QuadrantResolver.IndexToJson(a) + QuadrantResolver.IndexToJson(b)
  {
    var l, r := QuadrantResolver.IndexToJson(a + b), QuadrantResolver.IndexToJson(a) + QuadrantResolver.IndexToJson(b);
    assert |l| == |r|;
    forall i | 0 <= i < |l| ensures l[i] == r[i] {
      if i < |a| {
        assert (a + b)[i] == a[i];
      } else {
        assert (a + b)[i] == b[i - |a|];
      }
    }
  }

  /** The footprint files of some work items. */
  function ReadAll(items: seq<WorkItem>, read: FootprintReader): (files: seq<seq<Json>>)
    ensures |files| == |items| && forall i :: 0 <= i < |items| ==> files[i] == ReadDet(items[i], read)
  {
    seq(|items|, i requires 0 <= i < |items| => ReadDet(items[i], read))
  }

  /** Reading and merging a concatenation of items merges the two halves. */
  lemma ReadAllAppend(a: seq<WorkItem>, b: seq<WorkItem>, read: FootprintReader)
    ensures Flatten(ReadAll(a + b, read)) == Flatten(ReadAll(a, read)) + Flatten(ReadAll(b, read))
  {
    assert ReadAll(a + b, read) == ReadAll(a, read) + ReadAll(b, read);
    FlattenAppend(ReadAll(a, read), ReadAll(b, read));
  }

  /** The item of one pair, if any, reads that pair's footprints. */
  lemma PairItemRead(idx: ObservationIndex, read: FootprintReader, obsId: string, p: (string, string))
    ensures Flatten(ReadAll(if HasDetKey(idx, obsId, p) then [ItemFor(idx, obsId, p)] else [], read))
      == QuadrantResolver.IndexToJson(PairFootprints(idx, read, obsId, p))
  {
    if HasDetKey(idx, obsId, p) {
      var files := ReadAll([ItemFor(idx, obsId, p)], read);
      assert files == [ReadDet(ItemFor(idx, obsId, p), read)];
      assert files[..0] == [];
      assert Flatten(files) == [] + ReadDet(ItemFor(idx, obsId, p), read);
    } else {
      assert ReadAll([], read) == [];
    }
  }

  /** The files of one observation's items hold its pairs' footprints. */
  lemma {:induction false} PairsItemsRead(idx: ObservationIndex, read: FootprintReader, obsId: string, pairs: seq<(string, string)>)
    ensures Flatten(ReadAll(ItemsForPairs(idx, obsId, pairs), read)) == QuadrantResolver.IndexToJson(PairsFootprints(idx, read, obsId, pairs))
  {
    if |pairs| == 0 {
      assert ReadAll([], read) == [];
    } else {
      var init := pairs[..|pairs| - 1];
      var p := pairs[|pairs| - 1];
      PairsItemsRead(idx, read, obsId, init);
      var a := ItemsForPairs(idx, obsId, init);
      var b := if HasDetKey(idx, obsId, p) then [ItemFor(idx, obsId, p)] else [];
      assert ItemsForPairs(idx, obsId, pairs) == a + b;
      ReadAllAppend(a, b, read);
      PairItemRead(idx, read, obsId, p);
      IndexToJsonAppend(PairsFootprints(idx, read, obsId, init), PairFootprints(idx, read, obsId, p));
    }
  }

  /** The files of the observations' items hold their footprints. */
  lemma {:induction false} ObsItemsRead(idx: ObservationIndex, read: FootprintReader, obsIds: seq<string>)
    ensures Flatten(ReadAll(ItemsForObs(idx, obsIds), read)) == QuadrantResolver.IndexToJson(ObsFootprints(idx, read, obsIds))
  {
    if |obsIds| == 0 {
      assert ReadAll([], read) == [];
    } else {
      var init := obsIds[..|obsIds| - 1];
      var o := obsIds[|obsIds| - 1];
      ObsItemsRead(idx, read, init);
      PairsItemsRead(idx, read, o, DitherCcdPairs(idx, o));
      var a := ItemsForObs(idx, init);
      var b := ItemsForPairs(idx, o, DitherCcdPairs(idx, o));
      assert ItemsForObs(idx, obsIds) == a + b;
      ReadAllAppend(a, b, read);
      IndexToJsonAppend(ObsFootprints(idx, read, init), PairsFootprints(idx, read, o, DitherCcdPairs(idx, o)));
    }
  }

  /** The fan-out computes the same quadrant index as the sequential
      builder: reading every work item's footprints and merging the files
      in item order gives a list that decodes to `build_quadrant_index`'s. */
  lemma DistributedIndexMatches(idx: ObservationIndex, read: FootprintReader)
    ensures QuadrantResolver.IndexFromJson(Flatten(ReadAll(WorkItems(idx), read))) == Ok(QuadrantIndex(idx, read))
  {
    ObsItemsRead(idx, read, ObsIds(idx));
    QuadrantResolver.IndexRoundTrip(QuadrantIndex(idx, read));
  }

  // ----- configuration overrides -----

  /** `build_config`'s overrides: a non-empty storage URI replaces the
      configured one, and a grid of exactly two values replaces the
      configured grid; the assignments are not validated. */
  function BuildConfig(c: PipelineConfig, storageBaseUri: string, grid: seq<int>): (r: PipelineConfig)
    ensures storageBaseUri != "" ==> r.output.storageBaseUri == storageBaseUri
    ensures storageBaseUri == "" ==> r.output == c.output
    ensures |grid| == 2 ==> r.tiling.subTileGrid == (grid[0], grid[1])
    ensures |grid| != 2 ==> r.tiling == c.tiling
    ensures r == c.(output := r.output, tiling := r.tiling)
    ensures r.output == c.output.(storageBaseUri := r.output.storageBaseUri)
    ensures r.tiling == c.tiling.(subTileGrid := r.tiling.subTileGrid)
  {
    var withUri := if storageBaseUri != "" then c.(output := c.output.(storageBaseUri := storageBaseUri)) else c;
    if |grid| > 0 && |grid| == 2 then withUri.(tiling := withUri.tiling.(subTileGrid := (grid[0], grid[1])))
    else withUri
  }

  /** Applying the same overrides twice changes nothing more. */
  lemma BuildConfigIdempotent(c: PipelineConfig, storageBaseUri: string, grid: seq<int>)
    ensures BuildConfig(BuildConfig(c, storageBaseUri, grid), storageBaseUri, grid) == BuildConfig(c, storageBaseUri, grid)
  {
  }

  /** A valid configuration stays valid exactly when an overriding grid is
      positive: the override itself checks nothing. */
  lemma BuildConfigValidity(c: PipelineConfig, storageBaseUri: string, grid: seq<int>)
    requires ValidatePipeline(c).Ok?
    ensures ValidatePipeline(BuildConfig(c, storageBaseUri, grid)).Ok? <==> (|grid| != 2 || (grid[0] > 0 && grid[1] > 0))
  {
  }

  // ----- uploading a tile -----

  /** The URI a manifest is uploaded to: `{prefix}/manifest.yaml` for the
      tile, row and column parsed from its file name. */
  function ManifestTarget(base: string, runId: string, mp: string): (r: Result<string>)
    ensures ParseSubtileFromManifestPath(mp).Err? ==> r.Err?
  {
    match ParseSubtileFromManifestPath(mp)
    case Err(e) => Err(e)
    case Ok((tileId, row, col)) => Ok(BuildSubtilePrefix(base, runId, tileId, row, col) + "/manifest.yaml")
  }

  /** The prefix a sub-tile directory is uploaded to: the row and column
      come from its name, the tile is the one being prepared. */
  function DirTarget(base: string, runId: string, tileId: int, dir: string): (r: Result<string>)
    ensures ParseRowColName(Name(dir)).Err? ==> r.Err?
  {
    match ParseRowColName(Name(dir))
    case Err(e) => Err(e)
    case Ok((row, col)) => Ok(BuildSubtilePrefix(base, runId, tileId, row, col))
  }

  /** A manifest written for a sub-tile is uploaded under that sub-tile's prefix. */
  lemma ManifestTargetOfPath(base: string, runId: string, dir: string, tileId: int, row: int, col: int)
    ensures ManifestTarget(base, runId, Manifest.ManifestPath(dir, tileId, row, col))
      == Ok(BuildSubtilePrefix(base, runId, tileId, row, col) + "/manifest.yaml")
  {
    ParseManifestPathRoundTrip(dir, tileId, row, col);
  }

  /** An extracted sub-tile directory is uploaded under that sub-tile's
      prefix, so the manifest and the files it names land together. */
  lemma DirTargetOfSubtileDir(base: string, runId: string, extractionDir: string, tileId: int, row: int, col: int)
    ensures DirTarget(base, runId, tileId, Extractor.SubtileDir(extractionDir, tileId, row, col))
      == Ok(BuildSubtilePrefix(base, runId, tileId, row, col))
  {
    NameOfJoin(PathJoin(extractionDir, IntToString(tileId)), RowColName(row, col));
    RowColNameRoundTrip(row, col);
  }

  /** `upload_file(mp, target)` with skipping, on a store. */
  function UploadOne(objects: Store, content: Option<Blob>, uri: string): (r: Result<Store>)
    ensures r.Ok? ==> ParseS3Uri(uri) in r.value
    ensures r.Ok? ==> forall k :: k in objects ==> k in r.value && r.value[k] == objects[k]
    ensures ParseS3Uri(uri) !in objects && content.None? ==> r == Err(FileNotFound)
  {
    var key := ParseS3Uri(uri);
    if key in objects then Ok(objects)
    else if content.None? then Err(FileNotFound)
    else Ok(objects[key := content.value])
  }

  /** The manifest uploads, in order, stopping at the first failure. */
  function UploadManifests(objects: Store, base: string, runId: string, manifests: seq<(string, Option<Blob>)>)
    : (r: Result<Store>)
    decreases |manifests|
  {
    if |manifests| == 0 then Ok(objects)
    else
      var (mp, content) := manifests[|manifests| - 1];
      match UploadManifests(objects, base, runId, manifests[..|manifests| - 1])
      case Err(e) => Err(e)
      case Ok(o) =>
        match ManifestTarget(base, runId, mp)
        case Err(e) => Err(e)
        case Ok(uri) => UploadOne(o, content, uri)
  }

  /** The directory uploads, in order, stopping at the first failure. */
  function UploadDirs(objects: Store, base: string, runId: string, tileId: int, dirs: seq<(string, seq<(string, Blob)>)>)
    : (r: Result<Store>)
    decreases |dirs|
  {
    if |dirs| == 0 then Ok(objects)
    else
      match UploadDirs(objects, base, runId, tileId, dirs[..|dirs| - 1])
      case Err(e) => Err(e)
      case Ok(o) => UploadDir(o, base, runId, tileId, dirs[|dirs| - 1].0, dirs[|dirs| - 1].1)
  }

  /** The upload of one sub-tile directory's files under its prefix. */
  function UploadDir(objects: Store, base: string, runId: string, tileId: int, dir: string, files: seq<(string, Blob)>)
    : (r: Result<Store>)
  {
    match DirTarget(base, runId, tileId, dir)
    case Err(e) => Err(e)
    case Ok(prefix) =>
      var key := ParseS3Uri(RStrip(prefix, '/'));
      Ok(UploadAll(objects, key.0, key.1, files, true).0)
  }

  /** The upload step of `prepare_and_extract_tile`: nothing unless both
      the base URI and the run id are set; then every manifest, then every
      sub-tile directory. */
  function UploadTile(objects: Store, base: string, runId: string, tileId: int,
                      manifests: seq<(string, Option<Blob>)>, dirs: seq<(string, seq<(string, Blob)>)>)
    : (r: Result<Store>)
    ensures base == "" || runId == "" ==> r == Ok(objects)
  {
    if base == "" || runId == "" then Ok(objects)
    else
      match UploadManifests(objects, base, runId, manifests)
      case Err(e) => Err(e)
      case Ok(o) => UploadDirs(o, base, runId, tileId, dirs)
  }

  /** Manifest uploads skip existing objects, so nothing stored before is
      changed, and every manifest has an object at its target. */
  lemma {:induction false} UploadManifestsPresent(objects: Store, base: string, runId: string,
                                                  manifests: seq<(string, Option<Blob>)>)
    requires UploadManifests(objects, base, runId, manifests).Ok?
    ensures var s := UploadManifests(objects, base, runId, manifests).value;
      && (forall k :: k in objects ==> k in s && s[k] == objects[k])
      && (forall i :: 0 <= i < |manifests| ==>
            ManifestTarget(base, runId, manifests[i].0).Ok?
            && ParseS3Uri(ManifestTarget(base, runId, manifests[i].0).value) in s)
    decreases |manifests|
  {
    if |manifests| > 0 {
      var init := manifests[..|manifests| - 1];
      UploadManifestsPresent(objects, base, runId, init);
      var o := UploadManifests(objects, base, runId, init).value;
      var (mp, content) := manifests[|manifests| - 1];
      var s := UploadOne(o, content, ManifestTarget(base, runId, mp).value).value;
      assert UploadManifests(objects, base, runId, manifests).value == s;
      forall i | 0 <= i < |manifests| - 1
        ensures ManifestTarget(base, runId, manifests[i].0).Ok?
          && ParseS3Uri(ManifestTarget(base, runId, manifests[i].0).value) in s
      {
        assert manifests[i] == init[i];
      }
    }
  }

  /** Directory uploads skip existing objects too. */
  lemma {:induction false} UploadDirsKeepsExisting(objects: Store, base: string, runId: string, tileId: int,
                                                   dirs: seq<(string, seq<(string, Blob)>)>, k: (string, string))
    requires UploadDirs(objects, base, runId, tileId, dirs).Ok? && k in objects
    ensures var s := UploadDirs(objects, base, runId, tileId, dirs).value;
      k in s && s[k] == objects[k]
    decreases |dirs|
  {
    if |dirs| > 0 {
      var init := dirs[..|dirs| - 1];
      UploadDirsKeepsExisting(objects, base, runId, tileId, init, k);
      var o := UploadDirs(objects, base, runId, tileId, init).value;
      var (dir, files) := dirs[|dirs| - 1];
      var key := ParseS3Uri(RStrip(DirTarget(base, runId, tileId, dir).value, '/'));
      UploadAllKeepsExisting(o, key.0, key.1, files, k);
    }
  }

  /** Uploading a tile never changes an object that was already stored,
      and every manifest reaches its target. */
  lemma UploadTileKeepsExisting(objects: Store, base: string, runId: string, tileId: int,
                                manifests: seq<(string, Option<Blob>)>, dirs: seq<(string, seq<(string, Blob)>)>,
                                k: (string, string))
    requires UploadTile(objects, base, runId, tileId, manifests, dirs).Ok? && k in objects
    ensures var s := UploadTile(objects, base, runId, tileId, manifests, dirs).value;
      k in s && s[k] == objects[k]
  {
    if base != "" && runId != "" {
      UploadManifestsPresent(objects, base, runId, manifests);
      var o := UploadManifests(objects, base, runId, manifests).value;
      UploadDirsKeepsExisting(o, base, runId, tileId, dirs, k);
    }
  }

  /** One iteration of the manifest loop: the target comes from the
      manifest's file name, and an object already there is kept. */
  method UploadManifestFile(store: ObjectStore, base: string, runId: string, mp: string, content: Option<Blob>)
    returns (r: Result<()>)
    modifies store
    ensures var target := ManifestTarget(base, runId, mp);
      var spec := if target.Err? then Err(target.error) else UploadOne(old(store.objects), content, target.value);
      (r.Ok? <==> spec.Ok?) && (r.Ok? ==> store.objects == spec.value) && (r.Err? ==> r == Err(spec.error))
  {
    var parsed := ParseSubtileFromManifestPath(mp);
    if parsed.Err? {
      return Err(parsed.error);
    }
    var (tileId, row, col) := parsed.value;
    var prefix := BuildSubtilePrefix(base, runId, tileId, row, col);
    var up := store.UploadFile(content, prefix + "/manifest.yaml", true);
    if up.Err? {
      return Err(up.error);
    }
    r := Ok(());
  }

  /** The manifest loop of the upload step. */
  method UploadManifestFiles(store: ObjectStore, base: string, runId: string, manifests: seq<(string, Option<Blob>)>)
    returns (r: Result<()>)
    modifies store
    ensures var spec := UploadManifests(old(store.objects), base, runId, manifests);
      (r.Ok? <==> spec.Ok?) && (r.Ok? ==> store.objects == spec.value) && (r.Err? ==> r == Err(spec.error))
  {
    ghost var s0 := store.objects;
    var i := 0;
    while i < |manifests|
      invariant 0 <= i <= |manifests|
      invariant UploadManifests(s0, base, runId, manifests[..i]) == Ok(store.objects)
    {
      UploadManifestsSnoc(s0, base, runId, manifests, i, store.objects);
      var (mp, content) := manifests[i];
      var up := UploadManifestFile(store, base, runId, mp, content);
      if up.Err? {
        UploadManifestsErrPrefix(s0, base, runId, manifests, i + 1);
        return up;
      }
      i := i + 1;
    }
    assert manifests[..i] == manifests;
    r := Ok(());
  }

  /** One more manifest uploads it to its target in the store left by the
      earlier ones. */
  lemma UploadManifestsSnoc(objects: Store, base: string, runId: string,
                            manifests: seq<(string, Option<Blob>)>, i: nat, o: Store)
    requires i < |manifests| && UploadManifests(objects, base, runId, manifests[..i]) == Ok(o)
    ensures var target := ManifestTarget(base, runId, manifests[i].0);
      UploadManifests(objects, base, runId, manifests[..i + 1]) ==
        if target.Err? then Err(target.error) else UploadOne(o, manifests[i].1, target.value)
  {
    assert manifests[..i + 1][..i] == manifests[..i];
  }

  /** A failure among the first `j` manifests is the failure of the loop. */
  lemma {:induction false} UploadManifestsErrPrefix(objects: Store, base: string, runId: string,
                                                    manifests: seq<(string, Option<Blob>)>, j: nat)
    requires j <= |manifests| && UploadManifests(objects, base, runId, manifests[..j]).Err?
    ensures UploadManifests(objects, base, runId, manifests) == UploadManifests(objects, base, runId, manifests[..j])
    decreases |manifests|
  {
    if j < |manifests| {
      assert manifests[..|manifests| - 1][..j] == manifests[..j];
      UploadManifestsErrPrefix(objects, base, runId, manifests[..|manifests| - 1], j);
    } else {
      assert manifests[..j] == manifests;
    }
  }

  /** The sub-tile directory loop of the upload step. */
  method UploadSubtileDirs(store: ObjectStore, base: string, runId: string, tileId: int,
                           dirs: seq<(string, seq<(string, Blob)>)>) returns (r: Result<()>)
    modifies store
    ensures var spec := UploadDirs(old(store.objects), base, runId, tileId, dirs);
      (r.Ok? <==> spec.Ok?) && (r.Ok? ==> store.objects == spec.value) && (r.Err? ==> r == Err(spec.error))
  {
    ghost var s0 := store.objects;
    var i := 0;
    while i < |dirs|
      invariant 0 <= i <= |dirs|
      invariant UploadDirs(s0, base, runId, tileId, dirs[..i]) == Ok(store.objects)
    {
      UploadDirsSnoc(s0, base, runId, tileId, dirs, i, store.objects);
      var (dir, files) := dirs[i];
      var up := UploadSubtileDir(store, base, runId, tileId, dir, files);
      if up.Err? {
        UploadDirsErrPrefix(s0, base, runId, tileId, dirs, i + 1);
        return up;
      }
      i := i + 1;
    }
    assert dirs[..i] == dirs;
    r := Ok(());
  }

  /** One iteration of the directory loop: the row and column come from the
      directory's name, and objects already there are kept. */
  method UploadSubtileDir(store: ObjectStore, base: string, runId: string, tileId: int,
                          dir: string, files: seq<(string, Blob)>) returns (r: Result<()>)
    modifies store
    ensures var spec := UploadDir(old(store.objects), base, runId, tileId, dir, files);
      (r.Ok? <==> spec.Ok?) && (r.Ok? ==> store.objects == spec.value)
      && (r.Err? ==> r == Err(spec.error) && store.objects == old(store.objects))
  {
    var rowCol := ParseRowColName(Name(dir));
    if rowCol.Err? {
      return Err(rowCol.error);
    }
    var (row, col) := rowCol.value;
    var prefix := BuildSubtilePrefix(base, runId, tileId, row, col);
    var _ := store.UploadDirectory(files, prefix, true);
    r := Ok(());
  }

  /** One more directory uploads its files under its prefix in the store
      left by the earlier ones. */
  lemma UploadDirsSnoc(objects: Store, base: string, runId: string, tileId: int,
                       dirs: seq<(string, seq<(string, Blob)>)>, i: nat, o: Store)
    requires i < |dirs| && UploadDirs(objects, base, runId, tileId, dirs[..i]) == Ok(o)
    ensures UploadDirs(objects, base, runId, tileId, dirs[..i + 1]) == UploadDir(o, base, runId, tileId, dirs[i].0, dirs[i].1)
  {
    assert dirs[..i + 1][..i] == dirs[..i];
  }

  /** A failure among the first `j` directories is the failure of the loop. */
  lemma {:induction false} UploadDirsErrPrefix(objects: Store, base: string, runId: string, tileId: int,
                                               dirs: seq<(string, seq<(string, Blob)>)>, j: nat)
    requires j <= |dirs| && UploadDirs(objects, base, runId, tileId, dirs[..j]).Err?
    ensures UploadDirs(objects, base, runId, tileId, dirs) == UploadDirs(objects, base, runId, tileId, dirs[..j])
    decreases |dirs|
  {
    if j < |dirs| {
      assert dirs[..|dirs| - 1][..j] == dirs[..j];
      UploadDirsErrPrefix(objects, base, runId, tileId, dirs[..|dirs| - 1], j);
    } else {
      assert dirs[..j] == dirs;
    }
  }

  /** The upload step of `prepare_and_extract_tile`: `manifests` pairs each
      manifest path with its bytes, `dirs` each extracted sub-tile directory
      with its sorted listing. */
  method UploadTileOutputs(store: ObjectStore, base: string, runId: string, tileId: int,
                           manifests: seq<(string, Option<Blob>)>, dirs: seq<(string, seq<(string, Blob)>)>)
    returns (r: Result<()>)
    modifies store
    ensures var spec := UploadTile(old(store.objects), base, runId, tileId, manifests, dirs);
      (r.Ok? <==> spec.Ok?) && (r.Ok? ==> store.objects == spec.value) && (r.Err? ==> r == Err(spec.error))
  {
    if base == "" || runId == "" {
      return Ok(());
    }
    r := UploadManifestFiles(store, base, runId, manifests);
    if r.Err? {
      return;
    }
    r := UploadSubtileDirs(store, base, runId, tileId, dirs);
  }
}
