/** The records of src/terrain_data that the render core reads. That module
    itself is not part of this model: only the fields the core copies or
    tests appear here, with u32 fields as `U32` and f32/f64 fields as reals. */
module TerrainData {
  import opened Common

  /** A u32 value. */
  type U32 = x: int | 0 <= x <= 0xFFFF_FFFF

  /** An ECS entity: a terrain or a view. */
  type Entity = nat

  /** The key of a per-(terrain, view) component. */
  datatype ViewKey = ViewKey(terrain: Entity, view: Entity)

  /** The pixel formats an attachment can have. */
  datatype AttachmentFormat = Rgb8U | Rgba8U | R16U | R16I | Rg16U | R32F

  /** Every format, in declaration order (the order `AttachmentFormat::iter`
      yields them). */
  const ATTACHMENT_FORMATS: seq<AttachmentFormat> := [Rgb8U, Rgba8U, R16U, R16I, Rg16U, R32F]

  datatype AttachmentLabel = Height | Custom(name: string)

  /** Sizes (in pixels) and format of an attachment's tiles. */
  datatype AttachmentBufferInfo = AttachmentBufferInfo(
    centerSize: U32,
    textureSize: U32,
    borderSize: U32,
    mask: U32,
    format: AttachmentFormat)

  datatype GpuAttachment = GpuAttachment(
    index: nat,
    atlasTexture: Handle,
    bufferInfo: AttachmentBufferInfo)

  /** The GPU side of a tile atlas. Its attachments map is a HashMap in the
      source; here it is the list of its entries in iteration order. */
  datatype GpuTileAtlas = GpuTileAtlas(
    attachments: seq<(AttachmentLabel, GpuAttachment)>,
    isSpherical: bool)

  datatype TileAtlas = TileAtlas(
    lodCount: U32,
    minHeight: real,
    maxHeight: real,
    heightScale: real,
    terrainBuffer: Handle)

  /** The per-view quadtree state the view uniform and GPU view are built
      from. */
  datatype TileTree = TileTree(
    treeSize: U32,
    geometryTileCount: U32,
    gridSize: U32,
    morphDistance: real,
    blendDistance: real,
    loadDistance: real,
    subdivisionDistance: real,
    precisionDistance: real,
    morphRange: real,
    blendRange: real,
    viewFace: U32,
    viewLod: U32,
    order: U32,
    refinementCount: U32,
    terrainViewBuffer: Handle,
    approximateHeightBuffer: Handle,
    tileTreeBuffer: Handle)
}
