/** Quadrant footprints: the sky bounding box of each science HDU of a VIS
    DET file, the index of all of them across observations, the bounding-box
    test against a sub-tile's extended area, and the index's plain-data form.
    Opening FITS files and the WCS pixel-to-world transform are parameters;
    the per-file header reader may fail. */
module QuadrantResolver {
  import opened Wrappers
  import opened Seqs
  import opened Strings
  import opened Dicts
  import opened Schemas
  import opened VisNames
  import opened Discovery

  /** A quadrant's RA/Dec bounding box, its DET file and, once indexed, its
      companion files and provenance. */
  datatype QuadrantFootprint = QuadrantFootprint(
    quadrant: string,
    raMin: real,
    raMax: real,
    decMin: real,
    decMax: real,
    detPath: string,
    bkgPath: string,
    wgtPath: string,
    psfPath: string,
    obsId: string,
    dither: string,
    ccd: string)

  // ----- reading one DET file -----

  /** One HDU of a DET file as the footprint reader sees it: its EXTNAME and
      its NAXIS1/NAXIS2 keywords, 0 where a keyword is absent. */
  datatype Hdu = Hdu(name: string, naxis1: int, naxis2: int)

  /** The WCS transform of an HDU's header at a 0-based pixel position;
      None when the header has no usable WCS. */
  type PixToWorld = (Hdu, real, real) -> Option<(real, real)>

  function Min4(a: real, b: real, c: real, d: real): (r: real)
    ensures r <= a && r <= b && r <= c && r <= d
    ensures r == a || r == b || r == c || r == d
  {
    var ab := if a <= b then a else b;
    var cd := if c <= d then c else d;
    if ab <= cd then ab else cd
  }

  function Max4(a: real, b: real, c: real, d: real): (r: real)
    ensures r >= a && r >= b && r >= c && r >= d
    ensures r == a || r == b || r == c || r == d
  {
    var ab := if a >= b then a else b;
    var cd := if c >= d then c else d;
    if ab >= cd then ab else cd
  }

  /** The four pixel corners of an HDU, in the order the reader lists them. */
  function Corners(h: Hdu): seq<(real, real)> {
    var x := (h.naxis1 - 1) as real;
    var y := (h.naxis2 - 1) as real;
    [(0.0, 0.0), (x, 0.0), (x, y), (0.0, y)]
  }

  /** The point lies in the footprint's closed box. */
  predicate InFootprint(fp: QuadrantFootprint, ra: real, dec: real) {
    fp.raMin <= ra <= fp.raMax && fp.decMin <= dec <= fp.decMax
  }

  /** The sky position of corner `k` of an HDU, when its WCS maps it. */
  function CornerWorld(h: Hdu, world: PixToWorld, k: nat): Option<(real, real)>
    requires k < 4
  {
    world(h, Corners(h)[k].0, Corners(h)[k].1)
  }

  /** The box is the smallest one holding the four corners' sky positions:
      each bound is the minimum or maximum of the corners' coordinates. */
  predicate TightBox(fp: QuadrantFootprint, h: Hdu, world: PixToWorld) {
    && (forall k :: 0 <= k < 4 ==> CornerWorld(h, world, k).Some?)
    && fp.raMin == Min4(CornerWorld(h, world, 0).value.0, CornerWorld(h, world, 1).value.0,
                        CornerWorld(h, world, 2).value.0, CornerWorld(h, world, 3).value.0)
    && fp.raMax == Max4(CornerWorld(h, world, 0).value.0, CornerWorld(h, world, 1).value.0,
                        CornerWorld(h, world, 2).value.0, CornerWorld(h, world, 3).value.0)
    && fp.decMin == Min4(CornerWorld(h, world, 0).value.1, CornerWorld(h, world, 1).value.1,
                         CornerWorld(h, world, 2).value.1, CornerWorld(h, world, 3).value.1)
    && fp.decMax == Max4(CornerWorld(h, world, 0).value.1, CornerWorld(h, world, 1).value.1,
                         CornerWorld(h, world, 2).value.1, CornerWorld(h, world, 3).value.1)
  }

  /** The footprint of one HDU: only a `*.SCI` HDU with both axes non-zero
      and a working WCS has one, named by its EXTNAME without ".SCI"; its box
      is the smallest one holding the sky positions of the four corners. */
  function HduFootprint(detPath: string, h: Hdu, world: PixToWorld): (r: Option<QuadrantFootprint>)
    ensures r.Some? ==> EndsWith(h.name, ".SCI") && r.value.quadrant + ".SCI" == h.name
    ensures r.Some? ==> h.naxis1 != 0 && h.naxis2 != 0
    ensures r.Some? ==> forall c :: c in Corners(h) ==>
      world(h, c.0, c.1).Some? && InFootprint(r.value, world(h, c.0, c.1).value.0, world(h, c.0, c.1).value.1)
    ensures r.Some? ==> TightBox(r.value, h, world)
    ensures r.Some? ==> (r.value.detPath == detPath && r.value.bkgPath == "" && r.value.wgtPath == ""
      && r.value.psfPath == "" && r.value.obsId == "" && r.value.dither == "" && r.value.ccd == "")
    ensures r.None? <==> (!EndsWith(h.name, ".SCI") || h.naxis1 == 0 || h.naxis2 == 0
      || exists c :: c in Corners(h) && world(h, c.0, c.1).None?)
  {
    if !EndsWith(h.name, ".SCI") || h.naxis1 == 0 || h.naxis2 == 0 then None
    else
      var cs := Corners(h);
      var w0 := world(h, cs[0].0, cs[0].1);
      var w1 := world(h, cs[1].0, cs[1].1);
      var w2 := world(h, cs[2].0, cs[2].1);
      var w3 := world(h, cs[3].0, cs[3].1);
      if w0.None? || w1.None? || w2.None? || w3.None? then None
      else
        var quadrant := h.name[..|h.name| - 4];
        assert quadrant + ".SCI" == h.name;
        Some(QuadrantFootprint(
          quadrant,
          Min4(w0.value.0, w1.value.0, w2.value.0, w3.value.0),
          Max4(w0.value.0, w1.value.0, w2.value.0, w3.value.0),
          Min4(w0.value.1, w1.value.1, w2.value.1, w3.value.1),
          Max4(w0.value.1, w1.value.1, w2.value.1, w3.value.1),
          detPath, "", "", "", "", "", ""))
  }

  /** The footprints of a DET file's HDUs, in HDU order. */
  function HduFootprints(detPath: string, hdus: seq<Hdu>, world: PixToWorld): (r: seq<QuadrantFootprint>)
    ensures |r| <= |hdus|
  {
    if |hdus| == 0 then []
    else
      var prev := HduFootprints(detPath, hdus[..|hdus| - 1], world);
      match HduFootprint(detPath, hdus[|hdus| - 1], world)
      case None => prev
      case Some(fp) => prev + [fp]
  }

  /** The footprints read are exactly those of the file's HDUs. */
  lemma {:induction false} HduFootprintsMembers(detPath: string, hdus: seq<Hdu>, world: PixToWorld, fp: QuadrantFootprint)
    ensures fp in HduFootprints(detPath, hdus, world) <==> exists h :: h in hdus && HduFootprint(detPath, h, world) == Some(fp)
  {
    if |hdus| > 0 {
      var h := hdus[|hdus| - 1];
      assert hdus == hdus[..|hdus| - 1] + [h];
      HduFootprintsMembers(detPath, hdus[..|hdus| - 1], world, fp);
    }
  }

  /** Every footprint read has a well-formed box. */
  lemma FootprintBoxes(detPath: string, hdus: seq<Hdu>, world: PixToWorld, fp: QuadrantFootprint)
    requires fp in HduFootprints(detPath, hdus, world)
    ensures fp.raMin <= fp.raMax && fp.decMin <= fp.decMax && fp.detPath == detPath
  {
    HduFootprintsMembers(detPath, hdus, world, fp);
    var h :| h in hdus && HduFootprint(detPath, h, world) == Some(fp);
    var c := Corners(h)[0];
    assert c in Corners(h);
  }

  lemma HduFootprintsSnoc(detPath: string, hdus: seq<Hdu>, world: PixToWorld, i: int)
    requires 0 <= i < |hdus|
    ensures var prev := HduFootprints(detPath, hdus[..i], world);
      var fp := HduFootprint(detPath, hdus[i], world);
      HduFootprints(detPath, hdus[..i + 1], world) == if fp.Some? then prev + [fp.value] else prev
  {
    assert hdus[..i + 1][..i] == hdus[..i];
  }

  /** `read_quadrant_footprints`: the footprints of every quadrant HDU of the
      opened DET file; a file that cannot be opened fails the read. */
  method ReadQuadrantFootprints(detPath: string, hdul: Result<seq<Hdu>>, world: PixToWorld)
    returns (r: Result<seq<QuadrantFootprint>>)
    ensures hdul.Err? ==> r == Err(hdul.error)
    ensures hdul.Ok? ==> r == Ok(HduFootprints(detPath, hdul.value, world))
  {
    if hdul.Err? {
      return Err(hdul.error);
    }
    var hdus := hdul.value;
    var footprints: seq<QuadrantFootprint> := [];
    var i := 0;
    while i < |hdus|
      invariant 0 <= i <= |hdus|
      invariant footprints == HduFootprints(detPath, hdus[..i], world)
    {
      HduFootprintsSnoc(detPath, hdus, world, i);
      var fp := HduFootprint(detPath, hdus[i], world);
      if fp.Some? {
        footprints := footprints + [fp.value];
      }
      i := i + 1;
    }
    assert hdus[..i] == hdus;
    r := Ok(footprints);
  }

  // ----- overlap with a sub-tile -----

  /** `footprint_overlaps`: the closed boxes of the footprint and of the
      sub-tile's extended area intersect. */
  predicate Overlaps(fp: QuadrantFootprint, sb: SkyBounds) {
    var (raLo, raHi) := sb.extendedRa;
    var (decLo, decHi) := sb.extendedDec;
    !(fp.raMax < raLo || fp.raMin > raHi) && !(fp.decMax < decLo || fp.decMin > decHi)
  }

  /** The point lies in the sub-tile's closed extended box. */
  predicate InExtended(sb: SkyBounds, ra: real, dec: real) {
    sb.extendedRa.0 <= ra <= sb.extendedRa.1 && sb.extendedDec.0 <= dec <= sb.extendedDec.1
  }

  /** For well-formed boxes, the test holds exactly when some sky position
      lies in both; boxes that only touch share their boundary points. */
  lemma OverlapsIffCommonPoint(fp: QuadrantFootprint, sb: SkyBounds)
    requires fp.raMin <= fp.raMax && fp.decMin <= fp.decMax
    requires sb.extendedRa.0 <= sb.extendedRa.1 && sb.extendedDec.0 <= sb.extendedDec.1
    ensures Overlaps(fp, sb) <==> exists ra, dec :: InFootprint(fp, ra, dec) && InExtended(sb, ra, dec)
  {
    if Overlaps(fp, sb) {
      var ra := if fp.raMin >= sb.extendedRa.0 then fp.raMin else sb.extendedRa.0;
      var dec := if fp.decMin >= sb.extendedDec.0 then fp.decMin else sb.extendedDec.0;
      assert InFootprint(fp, ra, dec) && InExtended(sb, ra, dec);
    }
  }

  /** The reference a footprint becomes: `det_path` is the science path. */
  function ToRef(fp: QuadrantFootprint): (q: QuadrantRef)
    ensures q.sciPath == fp.detPath && q.bkgPath == fp.bkgPath && q.wgtPath == fp.wgtPath
    ensures q.psfPath == fp.psfPath && q.quadrant == fp.quadrant
    ensures q.obsId == fp.obsId && q.dither == fp.dither && q.ccd == fp.ccd
  {
    QuadrantRef(fp.detPath, fp.bkgPath, fp.wgtPath, fp.psfPath, fp.quadrant, fp.obsId, fp.dither, fp.ccd)
  }

  /** The references of the overlapping footprints, in index order. */
  function Resolve(index: seq<QuadrantFootprint>, sb: SkyBounds): (refs: seq<QuadrantRef>)
    ensures |refs| <= |index|
    ensures forall q :: q in refs <==> exists fp :: fp in index && Overlaps(fp, sb) && q == ToRef(fp)
  {
    if |index| == 0 then []
    else
      var fp := index[|index| - 1];
      assert index == index[..|index| - 1] + [fp];
      Resolve(index[..|index| - 1], sb) + (if Overlaps(fp, sb) then [ToRef(fp)] else [])
  }

  /** Resolving keeps the index order: the references of a concatenation
      are the concatenated references. */
  lemma {:induction false} ResolveAppend(a: seq<QuadrantFootprint>, b: seq<QuadrantFootprint>, sb: SkyBounds)
    ensures Resolve(a + b, sb) == Resolve(a, sb) + Resolve(b, sb)
    decreases |b|
  {
    if |b| > 0 {
      var ab := a + b;
      assert ab[..|ab| - 1] == a + b[..|b| - 1];
      assert ab[|ab| - 1] == b[|b| - 1];
      ResolveAppend(a, b[..|b| - 1], sb);
    } else {
      assert a + b == a;
    }
  }

  /** When every footprint overlaps, each becomes its reference in place. */
  lemma {:induction false} ResolveAllOverlapping(index: seq<QuadrantFootprint>, sb: SkyBounds)
    requires forall i :: 0 <= i < |index| ==> Overlaps(index[i], sb)
    ensures |Resolve(index, sb)| == |index|
    ensures forall i :: 0 <= i < |index| ==> Resolve(index, sb)[i] == ToRef(index[i])
  {
    if |index| > 0 {
      ResolveAllOverlapping(index[..|index| - 1], sb);
    }
  }

  /** `resolve_quadrants_for_subtile`. */
  method ResolveQuadrantsForSubtile(index: seq<QuadrantFootprint>, sb: SkyBounds) returns (refs: seq<QuadrantRef>)
    ensures refs == Resolve(index, sb)
  {
    refs := [];
    var i := 0;
    while i < |index|
      invariant 0 <= i <= |index|
      invariant refs == Resolve(index[..i], sb)
    {
      assert index[..i + 1][..i] == index[..i];
      var fp := index[i];
      if Overlaps(fp, sb) {
        refs := refs + [ToRef(fp)];
      }
      i := i + 1;
    }
    assert index[..i] == index;
  }

  // ----- the index over all observations -----

  /** The per-file footprint reader, applied to a DET file's URI. */
  type FootprintReader = string -> Result<seq<QuadrantFootprint>>

  /** The reader `build_quadrant_index` uses: `read_quadrant_footprints` on
      the file that `open` gives for the URI, with the URI as `det_path`. */
  function DetFileReader(open: string -> Result<seq<Hdu>>, world: PixToWorld): FootprintReader {
    (uri: string) => if open(uri).Err? then Err(open(uri).error) else Ok(HduFootprints(uri, open(uri).value, world))
  }

  /** `fp` is, up to its tags, one of the footprints of a successful read. */
  predicate ReadFrom(res: Result<seq<QuadrantFootprint>>, fp: QuadrantFootprint) {
    res.Ok? && exists g :: g in res.value && fp == Tag(g, fp.bkgPath, fp.wgtPath, fp.psfPath, fp.obsId, fp.dither, fp.ccd)
  }

  /** A footprint as indexed: its companion paths and provenance set. */
  function Tag(fp: QuadrantFootprint, bkg: string, wgt: string, psf: string,
               obsId: string, dither: string, ccd: string): QuadrantFootprint
  {
    fp.(bkgPath := bkg, wgtPath := wgt, psfPath := psf, obsId := obsId, dither := dither, ccd := ccd)
  }

  function TagAll(fps: seq<QuadrantFootprint>, bkg: string, wgt: string, psf: string,
                  obsId: string, dither: string, ccd: string): (r: seq<QuadrantFootprint>)
    ensures |r| == |fps|
    ensures forall i :: 0 <= i < |fps| ==> r[i] == Tag(fps[i], bkg, wgt, psf, obsId, dither, ccd)
  {
    if |fps| == 0 then [] else [Tag(fps[0], bkg, wgt, psf, obsId, dither, ccd)] + TagAll(fps[1..], bkg, wgt, psf, obsId, dither, ccd)
  }

  /** The DET file of one (dither, ccd) pair, as an s3 URI. */
  function DetUri(idx: ObservationIndex, obsId: string, p: (string, string)): string {
    UriOrEmpty(idx.bucket, GetFile(idx, obsId, "DET", p.0, p.1))
  }

  /** The footprints of one pair, tagged: none when the pair has no DET key
      or its file cannot be read. */
  function PairFootprints(idx: ObservationIndex, read: FootprintReader, obsId: string, p: (string, string))
    : seq<QuadrantFootprint>
  {
    if !HasDetKey(idx, obsId, p) then []
    else
      match read(DetUri(idx, obsId, p))
      case Err(_) => []
      case Ok(fps) =>
        TagAll(fps,
          UriOrEmpty(idx.bucket, GetFile(idx, obsId, "BKG", p.0, p.1)),
          UriOrEmpty(idx.bucket, GetFile(idx, obsId, "WGT", p.0, p.1)),
          UriOrEmpty(idx.bucket, GetPsfKey(idx, obsId)),
          obsId, p.0, p.1)
  }

  /** The footprints of the given pairs of one observation, in pair order. */
  function PairsFootprints(idx: ObservationIndex, read: FootprintReader, obsId: string, pairs: seq<(string, string)>)
    : seq<QuadrantFootprint>
  {
    if |pairs| == 0 then []
    else PairsFootprints(idx, read, obsId, pairs[..|pairs| - 1]) + PairFootprints(idx, read, obsId, pairs[|pairs| - 1])
  }

  /** The footprints of the given observations, each over its sorted pairs. */
  function ObsFootprints(idx: ObservationIndex, read: FootprintReader, obsIds: seq<string>): seq<QuadrantFootprint> {
    if |obsIds| == 0 then []
    else
      var o := obsIds[|obsIds| - 1];
      ObsFootprints(idx, read, obsIds[..|obsIds| - 1]) + PairsFootprints(idx, read, o, DitherCcdPairs(idx, o))
  }

  /** The quadrant index of an observation index: observations in sorted
      order, pairs in sorted order. */
  function QuadrantIndex(idx: ObservationIndex, read: FootprintReader): seq<QuadrantFootprint> {
    ObsFootprints(idx, read, ObsIds(idx))
  }

  lemma PairsFootprintsSnoc(idx: ObservationIndex, read: FootprintReader, obsId: string,
                            pairs: seq<(string, string)>, j: int)
    requires 0 <= j < |pairs|
    ensures PairsFootprints(idx, read, obsId, pairs[..j + 1])
      == PairsFootprints(idx, read, obsId, pairs[..j]) + PairFootprints(idx, read, obsId, pairs[j])
  {
    assert pairs[..j + 1][..j] == pairs[..j];
  }

  lemma ObsFootprintsSnoc(idx: ObservationIndex, read: FootprintReader, obsIds: seq<string>, i: int)
    requires 0 <= i < |obsIds|
    ensures ObsFootprints(idx, read, obsIds[..i + 1])
      == ObsFootprints(idx, read, obsIds[..i]) + PairsFootprints(idx, read, obsIds[i], DitherCcdPairs(idx, obsIds[i]))
  {
    assert obsIds[..i + 1][..i] == obsIds[..i];
  }

  /** A footprint carries the provenance and companion paths of its pair. */
  predicate TaggedFor(idx: ObservationIndex, fp: QuadrantFootprint) {
    && HasDetKey(idx, fp.obsId, (fp.dither, fp.ccd))
    && fp.bkgPath == UriOrEmpty(idx.bucket, GetFile(idx, fp.obsId, "BKG", fp.dither, fp.ccd))
    && fp.wgtPath == UriOrEmpty(idx.bucket, GetFile(idx, fp.obsId, "WGT", fp.dither, fp.ccd))
    && fp.psfPath == UriOrEmpty(idx.bucket, GetPsfKey(idx, fp.obsId))
  }

  /** The footprints of one pair come from reading its DET file and carry
      that pair's tags. */
  lemma PairFootprintsSound(idx: ObservationIndex, read: FootprintReader, obsId: string, p: (string, string),
                            fp: QuadrantFootprint)
    requires fp in PairFootprints(idx, read, obsId, p)
    ensures fp.obsId == obsId && (fp.dither, fp.ccd) == p && TaggedFor(idx, fp)
    ensures ReadFrom(read(DetUri(idx, obsId, p)), fp)
  {
    var fps := read(DetUri(idx, obsId, p)).value;
    var r := PairFootprints(idx, read, obsId, p);
    var i :| 0 <= i < |r| && r[i] == fp;
    assert fps[i] in fps && fp == Tag(fps[i], fp.bkgPath, fp.wgtPath, fp.psfPath, obsId, p.0, p.1);
  }

  lemma {:induction false} PairsFootprintsSound(idx: ObservationIndex, read: FootprintReader, obsId: string,
                                               pairs: seq<(string, string)>, fp: QuadrantFootprint)
    requires fp in PairsFootprints(idx, read, obsId, pairs)
    ensures fp.obsId == obsId && (fp.dither, fp.ccd) in pairs && TaggedFor(idx, fp)
    ensures ReadFrom(read(DetUri(idx, obsId, (fp.dither, fp.ccd))), fp)
  {
    var prev := pairs[..|pairs| - 1];
    var p := pairs[|pairs| - 1];
    if fp in PairsFootprints(idx, read, obsId, prev) {
      PairsFootprintsSound(idx, read, obsId, prev, fp);
      assert (fp.dither, fp.ccd) in prev;
    } else {
      PairFootprintsSound(idx, read, obsId, p, fp);
    }
  }

  lemma {:induction false} ObsFootprintsSound(idx: ObservationIndex, read: FootprintReader, obsIds: seq<string>,
                                             fp: QuadrantFootprint)
    requires fp in ObsFootprints(idx, read, obsIds)
    ensures fp.obsId in obsIds && (fp.dither, fp.ccd) in DitherCcdPairs(idx, fp.obsId) && TaggedFor(idx, fp)
    ensures ReadFrom(read(DetUri(idx, fp.obsId, (fp.dither, fp.ccd))), fp)
  {
    var prev := obsIds[..|obsIds| - 1];
    var o := obsIds[|obsIds| - 1];
    if fp in ObsFootprints(idx, read, prev) {
      ObsFootprintsSound(idx, read, prev, fp);
      assert fp.obsId in prev;
    } else {
      PairsFootprintsSound(idx, read, o, DitherCcdPairs(idx, o), fp);
    }
  }

  /** Every indexed footprint belongs to a listed observation and one of its
      DET pairs, was read from that pair's DET file, and carries that pair's
      BKG/WGT paths and the observation's PSF path ("" where missing). */
  lemma QuadrantIndexSound(idx: ObservationIndex, read: FootprintReader, fp: QuadrantFootprint)
    requires fp in QuadrantIndex(idx, read)
    ensures fp.obsId in ObsIds(idx) && (fp.dither, fp.ccd) in DitherCcdPairs(idx, fp.obsId)
    ensures TaggedFor(idx, fp) && ReadFrom(read(DetUri(idx, fp.obsId, (fp.dither, fp.ccd))), fp)
  {
    ObsFootprintsSound(idx, read, ObsIds(idx), fp);
  }

  /** With the DET-file reader, every indexed footprint was read from its
      own pair's DET file: its `det_path` is that file's URI and its box is
      well formed. */
  lemma QuadrantIndexFromDetFiles(idx: ObservationIndex, open: string -> Result<seq<Hdu>>, world: PixToWorld,
                                  fp: QuadrantFootprint)
    requires fp in QuadrantIndex(idx, DetFileReader(open, world))
    ensures var uri := DetUri(idx, fp.obsId, (fp.dither, fp.ccd));
      open(uri).Ok? && fp.detPath == uri && fp.raMin <= fp.raMax && fp.decMin <= fp.decMax
  {
    var read := DetFileReader(open, world);
    QuadrantIndexSound(idx, read, fp);
    var uri := DetUri(idx, fp.obsId, (fp.dither, fp.ccd));
    assert read(uri).Ok?;
    var g :| g in read(uri).value && fp == Tag(g, fp.bkgPath, fp.wgtPath, fp.psfPath, fp.obsId, fp.dither, fp.ccd);
    FootprintBoxes(uri, open(uri).value, world, g);
  }

  lemma {:induction false} PairsFootprintsComplete(idx: ObservationIndex, read: FootprintReader, obsId: string,
                                                  pairs: seq<(string, string)>, j: int, g: QuadrantFootprint)
    requires 0 <= j < |pairs| && HasDetKey(idx, obsId, pairs[j])
    requires read(DetUri(idx, obsId, pairs[j])).Ok? && g in read(DetUri(idx, obsId, pairs[j])).value
    ensures Tag(g, UriOrEmpty(idx.bucket, GetFile(idx, obsId, "BKG", pairs[j].0, pairs[j].1)),
                UriOrEmpty(idx.bucket, GetFile(idx, obsId, "WGT", pairs[j].0, pairs[j].1)),
                UriOrEmpty(idx.bucket, GetPsfKey(idx, obsId)), obsId, pairs[j].0, pairs[j].1)
      in PairsFootprints(idx, read, obsId, pairs)
  {
    var p := pairs[j];
    if j < |pairs| - 1 {
      PairsFootprintsComplete(idx, read, obsId, pairs[..|pairs| - 1], j, g);
    } else {
      var fps := read(DetUri(idx, obsId, p)).value;
      var k :| 0 <= k < |fps| && fps[k] == g;
      assert PairFootprints(idx, read, obsId, p)[k] == Tag(g,
        UriOrEmpty(idx.bucket, GetFile(idx, obsId, "BKG", p.0, p.1)),
        UriOrEmpty(idx.bucket, GetFile(idx, obsId, "WGT", p.0, p.1)),
        UriOrEmpty(idx.bucket, GetPsfKey(idx, obsId)), obsId, p.0, p.1);
    }
  }

  lemma {:induction false} ObsFootprintsComplete(idx: ObservationIndex, read: FootprintReader, obsIds: seq<string>,
                                                i: int, j: int, g: QuadrantFootprint)
    requires 0 <= i < |obsIds| && 0 <= j < |DitherCcdPairs(idx, obsIds[i])|
    requires HasDetKey(idx, obsIds[i], DitherCcdPairs(idx, obsIds[i])[j])
    requires read(DetUri(idx, obsIds[i], DitherCcdPairs(idx, obsIds[i])[j])).Ok?
    requires g in read(DetUri(idx, obsIds[i], DitherCcdPairs(idx, obsIds[i])[j])).value
    ensures var o := obsIds[i];
      var p := DitherCcdPairs(idx, o)[j];
      Tag(g, UriOrEmpty(idx.bucket, GetFile(idx, o, "BKG", p.0, p.1)),
          UriOrEmpty(idx.bucket, GetFile(idx, o, "WGT", p.0, p.1)),
          UriOrEmpty(idx.bucket, GetPsfKey(idx, o)), o, p.0, p.1)
        in ObsFootprints(idx, read, obsIds)
  {
    if i < |obsIds| - 1 {
      ObsFootprintsComplete(idx, read, obsIds[..|obsIds| - 1], i, j, g);
    } else {
      PairsFootprintsComplete(idx, read, obsIds[i], DitherCcdPairs(idx, obsIds[i]), j, g);
    }
  }

  /** Every footprint read from the DET file of a listed observation's pair
      is in the index, tagged with that pair. */
  lemma QuadrantIndexComplete(idx: ObservationIndex, read: FootprintReader, i: int, j: int, g: QuadrantFootprint)
    requires 0 <= i < |ObsIds(idx)| && 0 <= j < |DitherCcdPairs(idx, ObsIds(idx)[i])|
    requires HasDetKey(idx, ObsIds(idx)[i], DitherCcdPairs(idx, ObsIds(idx)[i])[j])
    requires read(DetUri(idx, ObsIds(idx)[i], DitherCcdPairs(idx, ObsIds(idx)[i])[j])).Ok?
    requires g in read(DetUri(idx, ObsIds(idx)[i], DitherCcdPairs(idx, ObsIds(idx)[i])[j])).value
    ensures var o := ObsIds(idx)[i];
      var p := DitherCcdPairs(idx, o)[j];
      Tag(g, UriOrEmpty(idx.bucket, GetFile(idx, o, "BKG", p.0, p.1)),
          UriOrEmpty(idx.bucket, GetFile(idx, o, "WGT", p.0, p.1)),
          UriOrEmpty(idx.bucket, GetPsfKey(idx, o)), o, p.0, p.1)
        in QuadrantIndex(idx, read)
  {
    ObsFootprintsComplete(idx, read, ObsIds(idx), i, j, g);
  }

  /** The tagging loop over the footprints one DET file gave. */
  method TagFootprints(fps: seq<QuadrantFootprint>, bkg: string, wgt: string, psf: string,
                       obsId: string, dither: string, ccd: string) returns (r: seq<QuadrantFootprint>)
    ensures r == TagAll(fps, bkg, wgt, psf, obsId, dither, ccd)
  {
    r := [];
    var i := 0;
    while i < |fps|
      invariant 0 <= i <= |fps|
      invariant |r| == i && forall k :: 0 <= k < i ==> r[k] == Tag(fps[k], bkg, wgt, psf, obsId, dither, ccd)
    {
      var fp := fps[i];
      fp := fp.(bkgPath := bkg, wgtPath := wgt, psfPath := psf);
      fp := fp.(obsId := obsId, dither := dither, ccd := ccd);
      r := r + [fp];
      i := i + 1;
    }
  }

  /** One pass of `build_quadrant_index`'s inner loop: the tagged
      footprints of one (dither, ccd) pair, given its observation's PSF path. */
  method IndexPair(idx: ObservationIndex, read: FootprintReader, obsId: string, psfPath: string, p: (string, string))
    returns (fps: seq<QuadrantFootprint>)
    requires psfPath == UriOrEmpty(idx.bucket, GetPsfKey(idx, obsId))
    ensures fps == PairFootprints(idx, read, obsId, p)
  {
    var (dither, ccd) := p;
    var detKey := GetFile(idx, obsId, "DET", dither, ccd);
    if detKey.Some? && detKey.value != "" {
      var detPath := S3Uri(idx.bucket, detKey.value);
      var bkgPath := UriOrEmpty(idx.bucket, GetFile(idx, obsId, "BKG", dither, ccd));
      var wgtPath := UriOrEmpty(idx.bucket, GetFile(idx, obsId, "WGT", dither, ccd));
      var footprints := read(detPath);
      if footprints.Ok? {
        fps := TagFootprints(footprints.value, bkgPath, wgtPath, psfPath, obsId, dither, ccd);
        return;
      }
    }
    fps := [];
  }

  /** One pass of `build_quadrant_index`'s outer loop: the footprints of
      every DET pair of one observation, in pair order. */
  method IndexObservation(idx: ObservationIndex, read: FootprintReader, obsId: string)
    returns (fps: seq<QuadrantFootprint>)
    ensures fps == PairsFootprints(idx, read, obsId, DitherCcdPairs(idx, obsId))
  {
    var psfPath := UriOrEmpty(idx.bucket, GetPsfKey(idx, obsId));
    var pairs := GetDitherCcdPairs(idx, obsId);
    fps := [];
    var j := 0;
    while j < |pairs|
      invariant 0 <= j <= |pairs|
      invariant fps == PairsFootprints(idx, read, obsId, pairs[..j])
    {
      PairsFootprintsSnoc(idx, read, obsId, pairs, j);
      var step := IndexPair(idx, read, obsId, psfPath, pairs[j]);
      fps := fps + step;
      j := j + 1;
    }
    assert pairs[..j] == pairs;
  }

  /** `build_quadrant_index`. */
  method BuildQuadrantIndex(idx: ObservationIndex, read: FootprintReader) returns (all: seq<QuadrantFootprint>)
    ensures all == QuadrantIndex(idx, read)
  {
    var obsIds := ObsIds(idx);
    all := [];
    var i := 0;
    while i < |obsIds|
      invariant 0 <= i <= |obsIds|
      invariant all == ObsFootprints(idx, read, obsIds[..i])
    {
      ObsFootprintsSnoc(idx, read, obsIds, i);
      var footprints := IndexObservation(idx, read, obsIds[i]);
      all := all + footprints;
      i := i + 1;
    }
    assert obsIds[..i] == obsIds;
  }

  // ----- plain-data form -----

  /** `quadrant_index_to_dict` for one footprint. */
  function FootprintToJson(fp: QuadrantFootprint): Json {
    JObj([("quadrant", JStr(fp.quadrant)), ("ra_min", JNum(fp.raMin)), ("ra_max", JNum(fp.raMax)),
          ("dec_min", JNum(fp.decMin)), ("dec_max", JNum(fp.decMax)), ("det_path", JStr(fp.detPath)),
          ("bkg_path", JStr(fp.bkgPath)), ("wgt_path", JStr(fp.wgtPath)), ("psf_path", JStr(fp.psfPath)),
          ("obs_id", JStr(fp.obsId)), ("dither", JStr(fp.dither)), ("ccd", JStr(fp.ccd))])
  }

  /** The keyword parameters of the footprint's constructor. */
  predicate IsFootprintField(k: string) {
    || k == "quadrant" || k == "ra_min" || k == "ra_max" || k == "dec_min" || k == "dec_max"
    || k == "det_path" || k == "bkg_path" || k == "wgt_path" || k == "psf_path"
    || k == "obs_id" || k == "dither" || k == "ccd"
  }

  /** A required number field: missing is a TypeError. */
  function NumField(fields: Dict<Json>, name: string): (r: Result<real>)
    ensures r.Ok? <==> Get(fields, name).Some? && Get(fields, name).value.JNum?
    ensures r.Ok? ==> Get(fields, name) == Some(JNum(r.value))
  {
    var v := Get(fields, name);
    if v.Some? && v.value.JNum? then Ok(v.value.x) else Err(TypeError)
  }

  /** A string field with default "": only a present non-string fails. */
  function OptStrField(fields: Dict<Json>, name: string): (r: Result<string>)
    ensures Get(fields, name).None? ==> r == Ok("")
    ensures Get(fields, name).Some? ==> (r.Ok? <==> Get(fields, name).value.JStr?)
    ensures Get(fields, name).Some? && r.Ok? ==> Get(fields, name) == Some(JStr(r.value))
  {
    var v := Get(fields, name);
    if v.None? then Ok("") else if v.value.JStr? then Ok(v.value.s) else Err(TypeError)
  }

  /** The required arguments: quadrant, the four bounds and the DET path,
      a missing one being a TypeError. */
  function BoxFromJson(f: Dict<Json>): (r: Result<(string, real, real, real, real, string)>)
    ensures r.Ok? ==> (StrField(f, "quadrant") == Ok(r.value.0)
      && NumField(f, "ra_min") == Ok(r.value.1) && NumField(f, "ra_max") == Ok(r.value.2)
      && NumField(f, "dec_min") == Ok(r.value.3) && NumField(f, "dec_max") == Ok(r.value.4)
      && StrField(f, "det_path") == Ok(r.value.5))
    ensures Get(f, "det_path").None? ==> r == Err(TypeError)
  {
    match StrField(f, "quadrant")
    case Err(e) => Err(e)
    case Ok(quadrant) =>
    match NumField(f, "ra_min")
    case Err(e) => Err(e)
    case Ok(raMin) =>
    match NumField(f, "ra_max")
    case Err(e) => Err(e)
    case Ok(raMax) =>
    match NumField(f, "dec_min")
    case Err(e) => Err(e)
    case Ok(decMin) =>
    match NumField(f, "dec_max")
    case Err(e) => Err(e)
    case Ok(decMax) =>
    match StrField(f, "det_path")
    case Err(e) => Err(e)
    case Ok(detPath) => Ok((quadrant, raMin, raMax, decMin, decMax, detPath))
  }

  /** The optional arguments: the three companion paths and the provenance,
      "" when absent. */
  function TagsFromJson(f: Dict<Json>): (r: Result<(string, string, string, string, string, string)>)
    ensures r.Ok? ==> (OptStrField(f, "bkg_path") == Ok(r.value.0)
      && OptStrField(f, "wgt_path") == Ok(r.value.1) && OptStrField(f, "psf_path") == Ok(r.value.2)
      && OptStrField(f, "obs_id") == Ok(r.value.3) && OptStrField(f, "dither") == Ok(r.value.4)
      && OptStrField(f, "ccd") == Ok(r.value.5))
  {
    match OptStrField(f, "bkg_path")
    case Err(e) => Err(e)
    case Ok(bkg) =>
    match OptStrField(f, "wgt_path")
    case Err(e) => Err(e)
    case Ok(wgt) =>
    match OptStrField(f, "psf_path")
    case Err(e) => Err(e)
    case Ok(psf) =>
    match OptStrField(f, "obs_id")
    case Err(e) => Err(e)
    case Ok(obsId) =>
    match OptStrField(f, "dither")
    case Err(e) => Err(e)
    case Ok(dither) =>
    match OptStrField(f, "ccd")
    case Err(e) => Err(e)
    case Ok(ccd) => Ok((bkg, wgt, psf, obsId, dither, ccd))
  }

  /** `QuadrantFootprint(**d)`: every name must be a field, the quadrant,
      the four bounds and the DET path must be present, and the other six
      default to "". */
  function FootprintFromJson(j: Json): (r: Result<QuadrantFootprint>)
    ensures r.Ok? ==> j.JObj? && forall i :: 0 <= i < |j.fields| ==> IsFootprintField(j.fields[i].0)
    ensures r.Ok? ==> (var fp := r.value;
      BoxFromJson(j.fields) == Ok((fp.quadrant, fp.raMin, fp.raMax, fp.decMin, fp.decMax, fp.detPath))
      && TagsFromJson(j.fields) == Ok((fp.bkgPath, fp.wgtPath, fp.psfPath, fp.obsId, fp.dither, fp.ccd)))
    ensures !j.JObj? ==> r == Err(TypeError)
    ensures j.JObj? && (exists i :: 0 <= i < |j.fields| && !IsFootprintField(j.fields[i].0)) ==> r == Err(TypeError)
    ensures j.JObj? && Get(j.fields, "det_path").None? ==> r == Err(TypeError)
  {
    if !j.JObj? then Err(TypeError)
    else if exists i :: 0 <= i < |j.fields| && !IsFootprintField(j.fields[i].0) then Err(TypeError)
    else
      match BoxFromJson(j.fields)
      case Err(e) => Err(e)
      case Ok(b) =>
      match TagsFromJson(j.fields)
      case Err(e) => Err(e)
      case Ok(t) => Ok(QuadrantFootprint(b.0, b.1, b.2, b.3, b.4, b.5, t.0, t.1, t.2, t.3, t.4, t.5))
  }

  // One lookup per key of the encoded footprint: no earlier entry has that key.

  lemma HasQuadrant(fp: QuadrantFootprint)
    ensures Get(FootprintToJson(fp).fields, "quadrant") == Some(JStr(fp.quadrant))
  {
    GetFirstAt(FootprintToJson(fp).fields, 0);
  }

  lemma HasRaMin(fp: QuadrantFootprint)
    ensures Get(FootprintToJson(fp).fields, "ra_min") == Some(JNum(fp.raMin))
  {
    GetFirstAt(FootprintToJson(fp).fields, 1);
  }

  lemma HasRaMax(fp: QuadrantFootprint)
    ensures Get(FootprintToJson(fp).fields, "ra_max") == Some(JNum(fp.raMax))
  {
    GetFirstAt(FootprintToJson(fp).fields, 2);
  }

  lemma HasDecMin(fp: QuadrantFootprint)
    ensures Get(FootprintToJson(fp).fields, "dec_min") == Some(JNum(fp.decMin))
  {
    GetFirstAt(FootprintToJson(fp).fields, 3);
  }

  lemma HasDecMax(fp: QuadrantFootprint)
    ensures Get(FootprintToJson(fp).fields, "dec_max") == Some(JNum(fp.decMax))
  {
    GetFirstAt(FootprintToJson(fp).fields, 4);
  }

  lemma HasDetPath(fp: QuadrantFootprint)
    ensures Get(FootprintToJson(fp).fields, "det_path") == Some(JStr(fp.detPath))
  {
    GetFirstAt(FootprintToJson(fp).fields, 5);
  }

  lemma HasBkgPath(fp: QuadrantFootprint)
    ensures Get(FootprintToJson(fp).fields, "bkg_path") == Some(JStr(fp.bkgPath))
  {
    GetFirstAt(FootprintToJson(fp).fields, 6);
  }

  lemma HasWgtPath(fp: QuadrantFootprint)
    ensures Get(FootprintToJson(fp).fields, "wgt_path") == Some(JStr(fp.wgtPath))
  {
    GetFirstAt(FootprintToJson(fp).fields, 7);
  }

  lemma HasPsfPath(fp: QuadrantFootprint)
    ensures Get(FootprintToJson(fp).fields, "psf_path") == Some(JStr(fp.psfPath))
  {
    GetFirstAt(FootprintToJson(fp).fields, 8);
  }

  lemma HasObsId(fp: QuadrantFootprint)
    ensures Get(FootprintToJson(fp).fields, "obs_id") == Some(JStr(fp.obsId))
  {
    GetFirstAt(FootprintToJson(fp).fields, 9);
  }

  lemma HasDither(fp: QuadrantFootprint)
    ensures Get(FootprintToJson(fp).fields, "dither") == Some(JStr(fp.dither))
  {
    GetFirstAt(FootprintToJson(fp).fields, 10);
  }

  lemma HasCcd(fp: QuadrantFootprint)
    ensures Get(FootprintToJson(fp).fields, "ccd") == Some(JStr(fp.ccd))
  {
    GetFirstAt(FootprintToJson(fp).fields, 11);
  }

  /** The encoded footprint holds the quadrant and its bounds under their
      names. */
  lemma FootprintToJsonBounds(fp: QuadrantFootprint)
    ensures var f := FootprintToJson(fp).fields;
      && Get(f, "quadrant") == Some(JStr(fp.quadrant))
      && Get(f, "ra_min") == Some(JNum(fp.raMin)) && Get(f, "ra_max") == Some(JNum(fp.raMax))
      && Get(f, "dec_min") == Some(JNum(fp.decMin)) && Get(f, "dec_max") == Some(JNum(fp.decMax))
  {
    HasQuadrant(fp);
    HasRaMin(fp);
    HasRaMax(fp);
    HasDecMin(fp);
    HasDecMax(fp);
  }

  /** The encoded footprint holds its DET and BKG paths under their names. */
  lemma FootprintToJsonDetBkg(fp: QuadrantFootprint)
    ensures var f := FootprintToJson(fp).fields;
      Get(f, "det_path") == Some(JStr(fp.detPath)) && Get(f, "bkg_path") == Some(JStr(fp.bkgPath))
  {
    HasDetPath(fp);
    HasBkgPath(fp);
  }

  /** The encoded footprint holds its WGT and PSF paths under their names. */
  lemma FootprintToJsonWgtPsf(fp: QuadrantFootprint)
    ensures var f := FootprintToJson(fp).fields;
      Get(f, "wgt_path") == Some(JStr(fp.wgtPath)) && Get(f, "psf_path") == Some(JStr(fp.psfPath))
  {
    HasWgtPath(fp);
    HasPsfPath(fp);
  }

  /** The encoded footprint holds its provenance under its names. */
  lemma FootprintToJsonProvenance(fp: QuadrantFootprint)
    ensures var f := FootprintToJson(fp).fields;
      && Get(f, "obs_id") == Some(JStr(fp.obsId)) && Get(f, "dither") == Some(JStr(fp.dither))
      && Get(f, "ccd") == Some(JStr(fp.ccd))
  {
    HasObsId(fp);
    HasDither(fp);
    HasCcd(fp);
  }

  lemma BoxRoundTrip(fp: QuadrantFootprint)
    ensures BoxFromJson(FootprintToJson(fp).fields)
      == Ok((fp.quadrant, fp.raMin, fp.raMax, fp.decMin, fp.decMax, fp.detPath))
  {
    FootprintToJsonBounds(fp);
    FootprintToJsonDetBkg(fp);
  }

  lemma TagsRoundTrip(fp: QuadrantFootprint)
    ensures TagsFromJson(FootprintToJson(fp).fields)
      == Ok((fp.bkgPath, fp.wgtPath, fp.psfPath, fp.obsId, fp.dither, fp.ccd))
  {
    FootprintToJsonDetBkg(fp);
    FootprintToJsonWgtPsf(fp);
    FootprintToJsonProvenance(fp);
  }

  lemma FootprintRoundTrip(fp: QuadrantFootprint)
    ensures FootprintFromJson(FootprintToJson(fp)) == Ok(fp)
  {
    BoxRoundTrip(fp);
    TagsRoundTrip(fp);
    FootprintKeysKnown(fp);
  }

  /** Every key of the encoded footprint names a constructor parameter. */
  lemma FootprintKeysKnown(fp: QuadrantFootprint)
    ensures var f := FootprintToJson(fp).fields;
      forall i :: 0 <= i < |f| ==> IsFootprintField(f[i].0)
  {
    var f := FootprintToJson(fp).fields;
    forall i | 0 <= i < |f|
      ensures IsFootprintField(f[i].0)
    {
      if i < 6 {
        assert f[i].0 in ["quadrant", "ra_min", "ra_max", "dec_min", "dec_max", "det_path"];
      } else {
        assert f[i].0 in ["bkg_path", "wgt_path", "psf_path", "obs_id", "dither", "ccd"];
      }
    }
  }

  /** `quadrant_index_to_dict`. */
  function IndexToJson(index: seq<QuadrantFootprint>): seq<Json> {
    seq(|index|, i requires 0 <= i < |index| => FootprintToJson(index[i]))
  }

  /** `quadrant_index_from_dict`: the first bad item fails the list. */
  function IndexFromJson(items: seq<Json>): (r: Result<seq<QuadrantFootprint>>)
    ensures r.Ok? ==> (|r.value| == |items|
      && forall i :: 0 <= i < |items| ==> FootprintFromJson(items[i]) == Ok(r.value[i]))
    ensures r.Err? ==> exists i :: 0 <= i < |items| && FootprintFromJson(items[i]).Err?
  {
    if |items| == 0 then Ok([])
    else
      match FootprintFromJson(items[0])
      case Err(e) => Err(e)
      case Ok(fp) =>
        match IndexFromJson(items[1..])
        case Err(e) => Err(e)
        case Ok(rest) => Ok([fp] + rest)
  }

  lemma {:induction false} IndexRoundTrip(index: seq<QuadrantFootprint>)
    ensures IndexFromJson(IndexToJson(index)) == Ok(index)
  {
    if |index| > 0 {
      IndexRoundTrip(index[1..]);
      IndexRoundTripCons(index[0], index[1..]);
      assert index == [index[0]] + index[1..];
    }
  }

  lemma IndexRoundTripCons(fp: QuadrantFootprint, rest: seq<QuadrantFootprint>)
    requires IndexFromJson(IndexToJson(rest)) == Ok(rest)
    ensures IndexFromJson(IndexToJson([fp] + rest)) == Ok([fp] + rest)
  {
    var index := [fp] + rest;
    assert index[0] == fp && index[1..] == rest;
    IndexToJsonCons(index);
    FootprintRoundTrip(fp);
    IndexFromJsonCons(IndexToJson(index), fp, rest);
  }

  lemma IndexFromJsonCons(items: seq<Json>, fp: QuadrantFootprint, rest: seq<QuadrantFootprint>)
    requires |items| > 0 && FootprintFromJson(items[0]) == Ok(fp) && IndexFromJson(items[1..]) == Ok(rest)
    ensures IndexFromJson(items) == Ok([fp] + rest)
  {
  }

  lemma IndexToJsonCons(index: seq<QuadrantFootprint>)
    requires |index| > 0
    ensures IndexToJson(index)[0] == FootprintToJson(index[0])
    ensures IndexToJson(index)[1..] == IndexToJson(index[1..])
  {
    var tail := IndexToJson(index)[1..];
    assert forall i :: 0 <= i < |tail| ==> tail[i] == FootprintToJson(index[1..][i]);
  }
}
