/** The per-(terrain, view) GPU state: the view uniform computed from a tile
    tree, the buffers and bind-group descriptions of a `GpuTerrainView`, the
    registry of those views and the systems that create and refresh its bind
    groups, and the render command that binds the terrain-view bind group. */
module TerrainViewBindGroup {
  import opened Common
  import opened TerrainData

  /** Minimum sizes in bytes of the storage-buffer elements: a geometry tile
      (two u32, a UVec2 and two Vec4, aligned to 16), the prepass state (four
      32-bit words) and the indirect arguments (four u32). */
  const GEOMETRY_TILE_SIZE: nat := 48
  const PREPASS_STATE_SIZE: nat := 16
  const INDIRECT_SIZE: nat := 16

  /** The largest grid size whose vertex counts fit in a u32. */
  const MAX_GRID_SIZE: nat := 46339

  // ---------------------------------------------------------------------
  // The view uniform
  // ---------------------------------------------------------------------

  /** The scalar part of the view uniform. Conversions to f32 are modelled
      as exact. */
  datatype TerrainViewUniform = TerrainViewUniform(
    treeSize: U32,
    geometryTileCount: U32,
    gridSize: real,
    verticesPerRow: U32,
    verticesPerTile: U32,
    morphDistance: real,
    blendDistance: real,
    loadDistance: real,
    subdivisionDistance: real,
    morphRange: real,
    blendRange: real,
    precisionDistance: real,
    face: U32,
    lod: U32)

  /** The u32 products `2 * (g + 2)` and `2 * g * (g + 2)` do not overflow. */
  predicate GridFits(gridSize: nat) {
    2 * gridSize * (gridSize + 2) <= U32_MAX
  }

  lemma MulMonotone(a: nat, b: nat, c: nat, d: nat)
    requires a <= b && c <= d
    ensures a * c <= b * d
  {
    assert a * c <= b * c;
    assert b * c <= b * d;
  }

  /** The vertex counts fit in a u32 exactly for grid sizes up to 46339. */
  lemma GridFitsBound(gridSize: nat)
    ensures GridFits(gridSize) <==> gridSize <= MAX_GRID_SIZE
  {
    if gridSize <= MAX_GRID_SIZE {
      MulMonotone(2 * gridSize, 2 * MAX_GRID_SIZE, gridSize + 2, MAX_GRID_SIZE + 2);
      assert 2 * MAX_GRID_SIZE * (MAX_GRID_SIZE + 2) == 4294791198;
    } else {
      MulMonotone(2 * (MAX_GRID_SIZE + 1), 2 * gridSize, MAX_GRID_SIZE + 3, gridSize + 2);
      assert 2 * (MAX_GRID_SIZE + 1) * (MAX_GRID_SIZE + 3) == 4294976560;
    }
  }

  /** When the whole tile fits, so does one row. */
  lemma GridFitsRow(gridSize: nat)
    requires GridFits(gridSize)
    ensures 2 * (gridSize + 2) <= U32_MAX
  {
    if gridSize > 0 {
      MulMonotone(1, gridSize, 2 * (gridSize + 2), 2 * (gridSize + 2));
    }
  }

  /** `TerrainViewUniform::from`: a tile is drawn as `gridSize` rows of
      `2 * (gridSize + 2)` vertices each. */
  function ViewUniformFrom(tree: TileTree): (r: TerrainViewUniform)
    requires GridFits(tree.gridSize)
    ensures r.verticesPerRow == 2 * (tree.gridSize + 2)
    ensures r.verticesPerTile == tree.gridSize * r.verticesPerRow
    ensures r.verticesPerRow % 2 == 0 && r.verticesPerRow >= 4
    ensures r.gridSize == tree.gridSize as real
    ensures r.treeSize == tree.treeSize && r.geometryTileCount == tree.geometryTileCount
    ensures r.face == tree.viewFace && r.lod == tree.viewLod
    ensures r.morphDistance == tree.morphDistance && r.blendDistance == tree.blendDistance
    ensures r.loadDistance == tree.loadDistance && r.subdivisionDistance == tree.subdivisionDistance
    ensures r.precisionDistance == tree.precisionDistance
    ensures r.morphRange == tree.morphRange && r.blendRange == tree.blendRange
  {
    var g := tree.gridSize;
    GridFitsRow(g);
    TerrainViewUniform(
      tree.treeSize,
      tree.geometryTileCount,
      g as real,
      2 * (g + 2),
      2 * g * (g + 2),
      tree.morphDistance,
      tree.blendDistance,
      tree.loadDistance,
      tree.subdivisionDistance,
      tree.morphRange,
      tree.blendRange,
      tree.precisionDistance,
      tree.viewFace,
      tree.viewLod)
  }

  // ---------------------------------------------------------------------
  // GpuTerrainView
  // ---------------------------------------------------------------------

  datatype BufferRole = Tiles | TemporaryTiles | State | IndirectArgs
  datatype BufferUsage = Storage | IndirectDraw

  /** A GPU buffer. `owner` and `role` name the `create_buffer` call that made
      it, so two fields hold the same buffer exactly when they are equal. */
  datatype Buffer = Buffer(owner: ViewKey, role: BufferRole, size: nat, usages: set<BufferUsage>)

  datatype IndirectBindGroup = IndirectBindGroup(indirect: Buffer)

  datatype PrepassViewBindGroup = PrepassViewBindGroup(
    terrainView: Handle,
    approximateHeight: Handle,
    tileTree: Handle,
    finalTiles: Buffer,
    temporaryTiles: Buffer,
    state: Buffer)

  datatype TerrainViewBindGroupData = TerrainViewBindGroupData(
    terrainView: Handle,
    approximateHeight: Handle,
    tileTree: Handle,
    geometryTiles: Buffer)

  datatype GpuTerrainView = GpuTerrainView(
    order: U32,
    refinementCount: U32,
    indirectBuffer: Buffer,
    indirectBindGroup: Option<Handle>,
    prepassViewBindGroup: Option<Handle>,
    terrainViewBindGroup: Option<Handle>,
    indirect: IndirectBindGroup,
    prepassView: PrepassViewBindGroup,
    terrainView: TerrainViewBindGroupData)

  /** `GpuTerrainView::new` for the view `key`. `coordinateSize` is the
      minimum size of a `TileCoordinate`, a type that is not part of this
      model; like every `min_size` it is non-zero. */
  function NewView(key: ViewKey, tree: TileTree, coordinateSize: nat): (r: GpuTerrainView)
    requires coordinateSize > 0
    // one geometry tile per slot, in the buffer both the prepass and the draw see
    ensures r.terrainView.geometryTiles == r.prepassView.finalTiles
    ensures r.terrainView.geometryTiles.size == GEOMETRY_TILE_SIZE * tree.geometryTileCount
    ensures r.prepassView.temporaryTiles.size == coordinateSize * tree.geometryTileCount
    ensures r.prepassView.state.size == PREPASS_STATE_SIZE
    // the indirect buffer is the one the indirect bind group writes, and only it is usable for indirect draws
    ensures r.indirect.indirect == r.indirectBuffer
    ensures r.indirectBuffer.size == INDIRECT_SIZE
    ensures r.indirectBuffer.usages == {Storage, IndirectDraw}
    ensures r.terrainView.geometryTiles.usages == r.prepassView.temporaryTiles.usages == r.prepassView.state.usages == {Storage}
    // the three buffers made here are distinct
    ensures r.indirectBuffer != r.terrainView.geometryTiles
    ensures r.prepassView.temporaryTiles != r.terrainView.geometryTiles
    ensures r.prepassView.state != r.prepassView.temporaryTiles
    // the view's tile-tree buffers are shared, not copied
    ensures r.terrainView.terrainView == r.prepassView.terrainView == tree.terrainViewBuffer
    ensures r.terrainView.approximateHeight == r.prepassView.approximateHeight == tree.approximateHeightBuffer
    ensures r.terrainView.tileTree == r.prepassView.tileTree == tree.tileTreeBuffer
    ensures r.order == tree.order && r.refinementCount == tree.refinementCount
    ensures r.indirectBindGroup.None? && r.prepassViewBindGroup.None? && r.terrainViewBindGroup.None?
  {
    var tiles := Buffer(key, Tiles, GEOMETRY_TILE_SIZE * tree.geometryTileCount, {Storage});
    var temporaryTiles := Buffer(key, TemporaryTiles, coordinateSize * tree.geometryTileCount, {Storage});
    var state := Buffer(key, State, PREPASS_STATE_SIZE, {Storage});
    var indirect := Buffer(key, IndirectArgs, INDIRECT_SIZE, {Storage, IndirectDraw});
    GpuTerrainView(
      tree.order,
      tree.refinementCount,
      indirect,
      None,
      None,
      None,
      IndirectBindGroup(indirect),
      PrepassViewBindGroup(tree.terrainViewBuffer, tree.approximateHeightBuffer, tree.tileTreeBuffer,
                           tiles, temporaryTiles, state),
      TerrainViewBindGroupData(tree.terrainViewBuffer, tree.approximateHeightBuffer, tree.tileTreeBuffer, tiles))
  }

  /** The u64 buffer sizes cannot overflow while a tile coordinate is at most
      4 GiB. */
  lemma NewViewSizesFitU64(key: ViewKey, tree: TileTree, coordinateSize: nat)
    requires 0 < coordinateSize <= 0x1_0000_0000
    ensures NewView(key, tree, coordinateSize).terrainView.geometryTiles.size <= U64_MAX
    ensures NewView(key, tree, coordinateSize).prepassView.temporaryTiles.size <= U64_MAX
  {
    MulMonotone(coordinateSize, 0x1_0000_0000, tree.geometryTileCount, U32_MAX);
  }

  /** Views of two different keys share no buffer of their own. This holds
      by construction: each buffer records the view it was created for. */
  lemma NewViewsDisjoint(k1: ViewKey, k2: ViewKey, t1: TileTree, t2: TileTree, coordinateSize: nat)
    requires coordinateSize > 0 && k1 != k2
    ensures NewView(k1, t1, coordinateSize).indirectBuffer != NewView(k2, t2, coordinateSize).indirectBuffer
    ensures NewView(k1, t1, coordinateSize).terrainView.geometryTiles != NewView(k2, t2, coordinateSize).terrainView.geometryTiles
  {
  }

  // ---------------------------------------------------------------------
  // The registry of GPU views and its systems, as functions of the old map
  // ---------------------------------------------------------------------

  /** What `initialize` leaves: every tile tree without a GPU view gets a new
      one; existing views, even of keys whose tile tree has gone, stay. */
  function Initialized(views: map<ViewKey, GpuTerrainView>, trees: map<ViewKey, TileTree>, coordinateSize: nat): (r: map<ViewKey, GpuTerrainView>)
    requires coordinateSize > 0
    ensures r.Keys == views.Keys + trees.Keys
    ensures forall k :: k in views ==> r[k] == views[k]
    ensures forall k :: k in trees && k !in views ==> r[k] == NewView(k, trees[k], coordinateSize)
    ensures forall k :: k in trees && k !in views ==> r[k].terrainViewBindGroup.None? && r[k].order == trees[k].order
  {
    map k | k in views.Keys + trees.Keys :: if k in views then views[k] else NewView(k, trees[k], coordinateSize)
  }

  /** What `prepare_terrain_view` leaves: every view's terrain-view bind
      group replaced by this frame's creation outcome. */
  function WithTerrainViewBindGroups(views: map<ViewKey, GpuTerrainView>, created: ViewKey -> Option<Handle>): (r: map<ViewKey, GpuTerrainView>)
    ensures r.Keys == views.Keys
    ensures forall k :: k in r ==> r[k].terrainViewBindGroup == created(k)
    // nothing else about a view changes
    ensures forall k :: k in r ==> r[k].(terrainViewBindGroup := views[k].terrainViewBindGroup) == views[k]
  {
    map k | k in views :: views[k].(terrainViewBindGroup := created(k))
  }

  /** What `prepare_indirect` leaves: only a missing indirect bind group is
      created. */
  function WithIndirectBindGroups(views: map<ViewKey, GpuTerrainView>, created: ViewKey -> Option<Handle>): (r: map<ViewKey, GpuTerrainView>)
    ensures r.Keys == views.Keys
    ensures forall k :: k in r && views[k].indirectBindGroup.Some? ==> r[k] == views[k]
    ensures forall k :: k in r && views[k].indirectBindGroup.None? ==> r[k].indirectBindGroup == created(k)
    // nothing else about a view changes
    ensures forall k :: k in r ==> r[k].(indirectBindGroup := views[k].indirectBindGroup) == views[k]
  {
    map k | k in views ::
      if views[k].indirectBindGroup.None? then views[k].(indirectBindGroup := created(k)) else views[k]
  }

  /** What `prepare_refine_tiles` leaves: every view's prepass-view bind group
      replaced by this frame's creation outcome. */
  function WithPrepassViewBindGroups(views: map<ViewKey, GpuTerrainView>, created: ViewKey -> Option<Handle>): (r: map<ViewKey, GpuTerrainView>)
    ensures r.Keys == views.Keys
    ensures forall k :: k in r ==> r[k].prepassViewBindGroup == created(k)
    // nothing else about a view changes
    ensures forall k :: k in r ==> r[k].(prepassViewBindGroup := views[k].prepassViewBindGroup) == views[k]
  {
    map k | k in views :: views[k].(prepassViewBindGroup := created(k))
  }

  /** `SetTerrainViewBindGroup::render` for the item of `terrain` drawn in
      `view`. Indexing the registry panics for a missing key. */
  function SetTerrainViewBindGroup(views: map<ViewKey, GpuTerrainView>, terrain: Entity, view: Entity): (r: RenderCommandResult)
    requires ViewKey(terrain, view) in views
    ensures r == Success <==> views[ViewKey(terrain, view)].terrainViewBindGroup.Some?
  {
    if views[ViewKey(terrain, view)].terrainViewBindGroup.Some? then Success else Skip
  }

  /** The resource holding one `GpuTerrainView` per (terrain, view) pair. */
  class GpuTerrainViews {
    var views: map<ViewKey, GpuTerrainView>

    constructor()
      ensures views == map[]
    {
      views := map[];
    }

    /** `GpuTerrainView::initialize`, visiting the tile trees in any order. */
    method Initialize(trees: map<ViewKey, TileTree>, coordinateSize: nat)
      requires coordinateSize > 0
      modifies this
      ensures views == Initialized(old(views), trees, coordinateSize)
    {
      var pending := trees.Keys;
      while pending != {}
        invariant pending <= trees.Keys
        invariant views.Keys == old(views).Keys + (trees.Keys - pending)
        invariant forall k :: k in views ==>
          views[k] == if k in old(views) then old(views)[k] else NewView(k, trees[k], coordinateSize)
        decreases pending
      {
        var key :| key in pending;
        if key !in views {
          views := views[key := NewView(key, trees[key], coordinateSize)];
        }
        pending := pending - {key};
      }
    }

    /** `GpuTerrainView::prepare_terrain_view`; `created` is the outcome of
      creating each view's bind group this frame. */
    method PrepareTerrainView(created: ViewKey -> Option<Handle>)
      modifies this
      ensures views == WithTerrainViewBindGroups(old(views), created)
    {
      var pending := views.Keys;
      while pending != {}
        invariant views.Keys == old(views).Keys && pending <= views.Keys
        invariant forall k :: k in views ==>
          views[k] == if k in pending then old(views)[k] else old(views)[k].(terrainViewBindGroup := created(k))
        decreases pending
      {
        var key :| key in pending;
        views := views[key := views[key].(terrainViewBindGroup := created(key))];
        pending := pending - {key};
      }
    }

    /** `GpuTerrainView::prepare_indirect`. */
    method PrepareIndirect(created: ViewKey -> Option<Handle>)
      modifies this
      ensures views == WithIndirectBindGroups(old(views), created)
    {
      var pending := views.Keys;
      while pending != {}
        invariant views.Keys == old(views).Keys && pending <= views.Keys
        invariant forall k :: k in views ==>
          views[k] == if k in pending || old(views)[k].indirectBindGroup.Some? then old(views)[k]
                      else old(views)[k].(indirectBindGroup := created(k))
        decreases pending
      {
        var key :| key in pending;
        if views[key].indirectBindGroup.None? {
          views := views[key := views[key].(indirectBindGroup := created(key))];
        }
        pending := pending - {key};
      }
    }

    /** `GpuTerrainView::prepare_refine_tiles`. */
    method PrepareRefineTiles(created: ViewKey -> Option<Handle>)
      modifies this
      ensures views == WithPrepassViewBindGroups(old(views), created)
    {
      var pending := views.Keys;
      while pending != {}
        invariant views.Keys == old(views).Keys && pending <= views.Keys
        invariant forall k :: k in views ==>
          views[k] == if k in pending then old(views)[k] else old(views)[k].(prepassViewBindGroup := created(k))
        decreases pending
      {
        var key :| key in pending;
        views := views[key := views[key].(prepassViewBindGroup := created(key))];
        pending := pending - {key};
      }
    }
  }

  // ---------------------------------------------------------------------
  // Properties of the systems
  // ---------------------------------------------------------------------

  /** Running `initialize` again with the same tile trees changes nothing. */
  lemma InitializeIdempotent(views: map<ViewKey, GpuTerrainView>, trees: map<ViewKey, TileTree>, coordinateSize: nat)
    requires coordinateSize > 0
    ensures Initialized(Initialized(views, trees, coordinateSize), trees, coordinateSize)
         == Initialized(views, trees, coordinateSize)
  {
    var once := Initialized(views, trees, coordinateSize);
    var twice := Initialized(once, trees, coordinateSize);
    assert twice.Keys == once.Keys;
    assert forall k :: k in twice ==> twice[k] == once[k];
  }

  /** A view that `initialize` creates skips the draw until its bind group is
      prepared. */
  lemma InitializedViewSkips(views: map<ViewKey, GpuTerrainView>, trees: map<ViewKey, TileTree>, coordinateSize: nat, terrain: Entity, view: Entity)
    requires coordinateSize > 0
    requires ViewKey(terrain, view) in trees && ViewKey(terrain, view) !in views
    ensures SetTerrainViewBindGroup(Initialized(views, trees, coordinateSize), terrain, view) == Skip
  {
  }

  /** After `prepare_terrain_view` the draw binds the view exactly when this
      frame's bind group was created. */
  lemma RenderAfterPrepareTerrainView(views: map<ViewKey, GpuTerrainView>, created: ViewKey -> Option<Handle>, terrain: Entity, view: Entity)
    requires ViewKey(terrain, view) in views
    ensures ViewKey(terrain, view) in WithTerrainViewBindGroups(views, created)
    ensures SetTerrainViewBindGroup(WithTerrainViewBindGroups(views, created), terrain, view) == Success
        <==> created(ViewKey(terrain, view)).Some?
  {
  }

  /** `prepare_terrain_view` keeps no earlier result: the last frame wins,
      and a failed creation drops the previous bind group. */
  lemma PrepareTerrainViewLastWins(views: map<ViewKey, GpuTerrainView>, first: ViewKey -> Option<Handle>, second: ViewKey -> Option<Handle>)
    ensures WithTerrainViewBindGroups(WithTerrainViewBindGroups(views, first), second)
         == WithTerrainViewBindGroups(views, second)
  {
    var a := WithTerrainViewBindGroups(WithTerrainViewBindGroups(views, first), second);
    var b := WithTerrainViewBindGroups(views, second);
    assert a.Keys == b.Keys;
    assert forall k :: k in a ==> a[k] == b[k];
  }

  /** `prepare_refine_tiles` keeps no earlier result either. */
  lemma PrepareRefineTilesLastWins(views: map<ViewKey, GpuTerrainView>, first: ViewKey -> Option<Handle>, second: ViewKey -> Option<Handle>)
    ensures WithPrepassViewBindGroups(WithPrepassViewBindGroups(views, first), second)
         == WithPrepassViewBindGroups(views, second)
  {
    var a := WithPrepassViewBindGroups(WithPrepassViewBindGroups(views, first), second);
    var b := WithPrepassViewBindGroups(views, second);
    assert a.Keys == b.Keys;
    assert forall k :: k in a ==> a[k] == b[k];
  }

  /** `prepare_indirect` never replaces an indirect bind group once it has
      one, and fills a missing one with this frame's outcome. */
  lemma PrepareIndirectKeepsExisting(views: map<ViewKey, GpuTerrainView>, created: ViewKey -> Option<Handle>, key: ViewKey)
    requires key in views
    ensures key in WithIndirectBindGroups(views, created)
    ensures views[key].indirectBindGroup.Some? ==>
      WithIndirectBindGroups(views, created)[key].indirectBindGroup == views[key].indirectBindGroup
    ensures views[key].indirectBindGroup.None? ==>
      WithIndirectBindGroups(views, created)[key].indirectBindGroup == created(key)
  {
  }

  /** A second `prepare_indirect` adds only what the first failed to create:
      once every view has its bind group, further runs change nothing. */
  lemma PrepareIndirectStable(views: map<ViewKey, GpuTerrainView>, first: ViewKey -> Option<Handle>, second: ViewKey -> Option<Handle>)
    requires forall k :: k in views ==> views[k].indirectBindGroup.Some? || first(k).Some?
    ensures WithIndirectBindGroups(WithIndirectBindGroups(views, first), second)
         == WithIndirectBindGroups(views, first)
  {
    var once := WithIndirectBindGroups(views, first);
    var twice := WithIndirectBindGroups(once, second);
    assert twice.Keys == once.Keys;
    assert forall k :: k in twice ==> twice[k] == once[k];
  }

  /** Each prepare system changes only its own bind group: buffers, order
      and refinement count stay as `initialize` made them. */
  lemma PrepareKeepsBuffers(views: map<ViewKey, GpuTerrainView>, created: ViewKey -> Option<Handle>, key: ViewKey)
    requires key in views
    ensures key in WithTerrainViewBindGroups(views, created)
    ensures key in WithIndirectBindGroups(views, created)
    ensures key in WithPrepassViewBindGroups(views, created)
    ensures WithTerrainViewBindGroups(views, created)[key].(terrainViewBindGroup := None)
         == views[key].(terrainViewBindGroup := None)
    ensures WithIndirectBindGroups(views, created)[key].(indirectBindGroup := None)
         == views[key].(indirectBindGroup := None)
    ensures WithPrepassViewBindGroups(views, created)[key].(prepassViewBindGroup := None)
         == views[key].(prepassViewBindGroup := None)
  {
  }

  /** `initialize` keeps the bind groups an earlier frame prepared. */
  lemma InitializeKeepsPrepared(views: map<ViewKey, GpuTerrainView>, created: ViewKey -> Option<Handle>, trees: map<ViewKey, TileTree>, coordinateSize: nat, terrain: Entity, view: Entity)
    requires coordinateSize > 0
    requires ViewKey(terrain, view) in views
    ensures ViewKey(terrain, view) in Initialized(WithTerrainViewBindGroups(views, created), trees, coordinateSize)
    ensures SetTerrainViewBindGroup(Initialized(WithTerrainViewBindGroups(views, created), trees, coordinateSize), terrain, view) == Success
        <==> created(ViewKey(terrain, view)).Some?
  {
  }
}
