/** Pipeline configuration records, their defaults and their field validators.
    Loading from YAML and type coercion are not part of this model. */
module Config {
  import opened Wrappers

  datatype TilingConfig = TilingConfig(
    subTileGrid: (int, int),
    subTileMarginArcmin: real,
    merTileSizeArcmin: real,
    merCoreSizeArcmin: real)

  datatype DataSourceConfig = DataSourceConfig(
    visBaseUri: string,
    merBaseUri: string,
    catalogBaseUri: string,
    s3Region: string,
    s3NoSignRequest: bool)

  datatype OutputConfig = OutputConfig(
    catalogWarehouse: string,
    catalogNamespace: string,
    catalogTable: string,
    resultDir: string,
    manifestDir: string,
    extractionDir: string,
    storageBaseUri: string)

  datatype PipelineConfig = PipelineConfig(
    fieldName: string,
    tileIds: seq<int>,
    tiling: TilingConfig,
    data: DataSourceConfig,
    output: OutputConfig,
    mockShine: bool,
    maxParallelism: int,
    quadrantConcurrency: int)

  /** The margin validator: a non-positive margin is a ValueError, a positive
      one passes through unchanged. */
  function MarginPositive(v: real): (r: Result<real>)
    ensures r.Ok? <==> v > 0.0
    ensures r.Ok? ==> r.value == v
    ensures r.Err? ==> r.error == ValueError
  {
    if v <= 0.0 then Err(ValueError) else Ok(v)
  }

  /** The grid validator: both dimensions must be positive. */
  function GridPositive(v: (int, int)): (r: Result<(int, int)>)
    ensures r.Ok? <==> v.0 > 0 && v.1 > 0
    ensures r.Ok? ==> r.value == v
    ensures r.Err? ==> r.error == ValueError
  {
    if v.0 <= 0 || v.1 <= 0 then Err(ValueError) else Ok(v)
  }

  /** The tile-list validator: at least one tile id. */
  function TileIdsNonempty(v: seq<int>): (r: Result<seq<int>>)
    ensures r.Ok? <==> |v| > 0
    ensures r.Ok? ==> r.value == v
    ensures r.Err? ==> r.error == ValueError
  {
    if |v| == 0 then Err(ValueError) else Ok(v)
  }

  /** Constructing a TilingConfig runs both of its validators. */
  function ValidateTiling(c: TilingConfig): (r: Result<TilingConfig>)
    ensures r.Ok? <==> c.subTileGrid.0 > 0 && c.subTileGrid.1 > 0 && c.subTileMarginArcmin > 0.0
    ensures r.Ok? ==> r.value == c
  {
    match GridPositive(c.subTileGrid)
    case Err(e) => Err(e)
    case Ok(_) =>
      match MarginPositive(c.subTileMarginArcmin)
      case Err(e) => Err(e)
      case Ok(_) => Ok(c)
  }

  /** Constructing a PipelineConfig runs the tile-list validator and, through
      its nested tiling record, the tiling validators. */
  function ValidatePipeline(c: PipelineConfig): (r: Result<PipelineConfig>)
    ensures r.Ok? <==> |c.tileIds| > 0 && ValidateTiling(c.tiling).Ok?
    ensures r.Ok? ==> r.value == c
  {
    match TileIdsNonempty(c.tileIds)
    case Err(e) => Err(e)
    case Ok(_) =>
      match ValidateTiling(c.tiling)
      case Err(e) => Err(e)
      case Ok(_) => Ok(c)
  }

  /** `TilingConfig()`: a 4x4 grid, a 1' margin, 32' tiles with a 30' core;
      the defaults satisfy every tiling validator. */
  function DefaultTiling(): (c: TilingConfig)
    ensures ValidateTiling(c) == Ok(c)
    ensures c.merCoreSizeArcmin < c.merTileSizeArcmin
  {
    TilingConfig((4, 4), 1.0, 32.0, 30.0)
  }

  /** `DataSourceConfig()`: the public Q1 bucket, accessed anonymously. */
  function DefaultDataSource(): DataSourceConfig {
    DataSourceConfig(
      "s3://nasa-irsa-euclid-q1/q1/VIS/",
      "s3://nasa-irsa-euclid-q1/q1/MER/",
      "s3://nasa-irsa-euclid-q1/q1/catalogs/MER_FINAL_CATALOG/",
      "us-east-1",
      true)
  }

  /** `OutputConfig(catalog_warehouse=w)`: every other field at its default. */
  function DefaultOutput(warehouse: string): OutputConfig {
    OutputConfig(warehouse, "shear", "edff_shear", "results/", "manifests/", "subtiles/", "")
  }

  /** `PipelineConfig(field_name, tile_ids, output)` with every defaulted field
      at its default: valid exactly when the tile list is not empty. */
  function DefaultPipeline(fieldName: string, tileIds: seq<int>, output: OutputConfig): (c: PipelineConfig)
    ensures ValidatePipeline(c).Ok? <==> |tileIds| > 0
  {
    PipelineConfig(fieldName, tileIds, DefaultTiling(), DefaultDataSource(), output, false, 100, 50)
  }
}
