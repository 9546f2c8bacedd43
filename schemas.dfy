/** The manifest contract between the data-preparation pipeline and the
    inference stage: sky bounds, quadrant references and the per-sub-tile
    manifest. Every other module shares these records. */
module Schemas {

  /** A `(min, max)` pair of sky coordinates in degrees. */
  type Range = (real, real)

  /** Core and extended bounding boxes of one sub-tile. */
  datatype SkyBounds = SkyBounds(
    coreRa: Range,
    coreDec: Range,
    extendedRa: Range,
    extendedDec: Range)

  /** One quadrant's data products: science, background, weight and PSF paths,
      the quadrant's HDU name prefix and its provenance. */
  datatype QuadrantRef = QuadrantRef(
    sciPath: string,
    bkgPath: string,
    wgtPath: string,
    psfPath: string,
    quadrant: string,
    obsId: string,
    dither: string,
    ccd: string)

  /** The inputs of one sub-tile: its bounds, its quadrants, its catalog and
      the object ids in its extended and core areas. */
  datatype SubTileManifest = SubTileManifest(
    tileId: int,
    subTileRow: int,
    subTileCol: int,
    skyBounds: SkyBounds,
    quadrants: seq<QuadrantRef>,
    sourceCatalog: string,
    sourceIds: seq<int>,
    coreSourceIds: seq<int>)
}
