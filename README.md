# Planetary terrain renderer: pipeline keys, bind groups and settings

This project is a Dafny model of the render core of the planetary terrain
renderer, a Bevy plugin written in Rust. The core has five parts.

- **Pipeline key** (`TerrainMaterial`, `terrain_material.dfy`). The key is
  a u32 bit set. Bits 0 to 16 are named switches (SPHERICAL, WIREFRAME, the
  debug views, MORPH, BLEND, LIGHTING, ...). The top six bits hold the MSAA
  sample count minus one. The model covers:
  - the key built from a debug record (`from_debug`);
  - the key `queue_terrain` composes for a terrain and a view;
  - the shader defines a key selects;
  - the key-dependent parts of the render pipeline descriptor (`specialize`).
- **Per-view GPU state** (`TerrainViewBindGroup`,
  `terrain_view_bind_group.dfy`):
  - the view uniform's vertex counts;
  - the buffers and bind-group descriptions of a `GpuTerrainView`, and
    which buffers they share;
  - the registry of views, as a class whose systems `initialize`,
    `prepare_terrain_view`, `prepare_indirect` and `prepare_refine_tiles`
    are loops proved against functions of the old registry;
  - the `SetTerrainViewBindGroup` render command.
- **Per-terrain GPU state** (`TerrainBindGroup`, `terrain_bind_group.dfy`):
  - the choice of the attachment for each of the eight slots, and the
    uniform and texture views built from that choice;
  - the terrain uniform's height range;
  - the registry of `GpuTerrain`s, with `initialize` and `prepare`;
  - the `SetTerrainBindGroup` render command.
- **Settings** (`Plugin`, `plugin.dfy`): the attachments and atlas size of
  `TerrainSettings`.
- **Mip pipelines** (`Mipmap`, `mipmap.dfy`): one layout per attachment
  format, one shader define per format, and the specialised compute pipeline.

`common.dfy` holds the shared `Option`, opaque `Handle`, real-number
`Ratio` (a quotient that is not finite when dividing by zero) and the render
command result. `terrain_data.dfy` holds the records of the tile atlas and the
tile tree that the core reads (src/terrain_data is not part of this model).

Conventions of the model:

- u32 bit sets are `bv32`.
- Other u32 fields are the subset type `U32`.
- f32 and f64 values are reals.
- GPU objects (buffers, bind groups, layouts, shaders, textures) are opaque
  handles.
- A HashMap that is iterated is a sequence when the result depends on the
  iteration order, and otherwise a `map` visited in any order.
- A HashMap that is indexed is a `map`. Indexing a missing key, or an
  `unwrap` of a missing value, panics; each of these is a `requires`.
- Device calls whose outcome matters are parameters:
  - the bind group a creation returns (`created`);
  - the layout the device makes for a format (`createLayout`);
  - the set of storage buffers already uploaded (`uploaded`).

## Model

| member | source | states |
|---|---|---|
| TerrainMaterial.FromBits | src/render/terrain_material.rs:35-58 | `from_bits` accepts a value exactly when it sets no bit outside the named flags and the MSAA field, and then keeps it unchanged |
| TerrainMaterial.HasUnion | src/render/terrain_material.rs:35-58 | a union of keys contains a flag exactly when one of the operands does |
| TerrainMaterial.HasFlagBit | src/render/terrain_material.rs:39-56 | each named constant sets its own flag and no other: the seventeen flags are distinct bits |
| TerrainMaterial.FromMsaaSamples | src/render/terrain_material.rs:65-68 | the key for n samples uses only the MSAA field and decodes to ((n - 1) mod 64) + 1, so to n itself for 1 to 64 samples |
| TerrainMaterial.MsaaSamples | src/render/terrain_material.rs:125-127 | the decoded sample count is between 1 and 64 and depends only on the MSAA field |
| TerrainMaterial.MsaaBitsRoundTrip | src/render/terrain_material.rs:65-68 | encoding a key's decoded sample count gives back exactly that key's MSAA field |
| TerrainMaterial.MsaaSamplesIgnoreOtherBits | src/render/terrain_material.rs:125-127 | adding bits outside the MSAA field does not change the sample count |
| TerrainMaterial.MsaaBitsHaveNoFlag | src/render/terrain_material.rs:57 | a key made of MSAA bits alone contains no named flag |
| TerrainMaterial.FromDebug | src/render/terrain_material.rs:70-123 | definition only, without a contract: NONE with one flag OR-ed in per debug switch that is on; what it sets is stated by FromDebugExact and FromDebugBelowMsaa |
| TerrainMaterial.FromDebugExact | src/render/terrain_material.rs:70-123 | the debug key contains a flag exactly when its debug switch is on; SPHERICAL is never set and `freeze` sets nothing |
| TerrainMaterial.FromDebugBelowMsaa | src/render/terrain_material.rs:70-123 | the debug key never touches bits above TEST3, so never the MSAA field |
| TerrainMaterial.DefaultBitsExact | src/render/terrain_material.rs:369-374 | without a debug record the key gets exactly LIGHTING, MORPH, BLEND and SAMPLE_GRAD |
| TerrainMaterial.QueueBase | src/render/terrain_material.rs:362-365 | the key starts from the view's MSAA count, adding SPHERICAL for a spherical atlas and nothing else |
| TerrainMaterial.QueueBaseExact | src/render/terrain_material.rs:362-365 | that starting key contains SPHERICAL exactly for a spherical atlas, and no other flag |
| TerrainMaterial.ExtraFlags | src/render/terrain_material.rs:367-374 | the second part of the key sets no bit above TEST3 and never SPHERICAL |
| TerrainMaterial.QueueFlags | src/render/terrain_material.rs:362-374 | definition only, without a contract: the starting key, SPHERICAL taken from the GPU tile atlas record, OR-ed with the second part; its properties are stated by QueueFlagsValid and QueueFlagsExact |
| TerrainMaterial.ExtraFlagsExact | src/render/terrain_material.rs:367-374 | the second part of the key is exactly the debug record's flags, or the four default flags without a debug record |
| TerrainMaterial.QueueFlagsValid | src/render/terrain_material.rs:362-374 | the composed key is a valid flags value and still decodes to the view's MSAA count |
| TerrainMaterial.QueueFlagsExact | src/render/terrain_material.rs:362-374 | the key composed for a GPU tile atlas contains a flag exactly when that atlas is spherical (for SPHERICAL), the debug switch is on, or (without a debug record) the flag is a default one |
| TerrainMaterial.PolygonModeOf | src/render/terrain_material.rs:129-134 | the polygon mode is Line exactly when the key contains WIREFRAME |
| TerrainMaterial.QueuedPolygonMode | src/render/terrain_material.rs:129-134 | a queued key draws lines exactly when a debug record asks for the wireframe |
| TerrainMaterial.FlagNameInjective | src/render/terrain_material.rs:136-192 | different flags have different define names |
| TerrainMaterial.DefinesInMembership | src/render/terrain_material.rs:136-192 | the defines pushed for a list of flags are exactly the names of the listed flags the key contains |
| TerrainMaterial.DefinesInDistinct | src/render/terrain_material.rs:136-192 | a list of distinct flags pushes no define twice |
| TerrainMaterial.DefinesInAgree | src/render/terrain_material.rs:136-192 | two keys that agree on the listed flags push the same defines in the same order |
| TerrainMaterial.DefineOrderIsAllButWireframe | src/render/terrain_material.rs:136-192 | `shader_defs` tests every named flag except WIREFRAME |
| TerrainMaterial.DefineOrderDistinct | src/render/terrain_material.rs:136-192 | `shader_defs` tests each flag once |
| TerrainMaterial.ShaderDefs | src/render/terrain_material.rs:136-190 | definition only, without a contract: one define per flag of the source's order that the key contains; its properties are stated by ShaderDefsExact, ShaderDefsDistinct and ShaderDefsIgnoreWireframeAndMsaa |
| TerrainMaterial.ShaderDefsExact | src/render/terrain_material.rs:136-192 | a name is among the key's defines exactly when it names a flag, other than WIREFRAME, that the key contains |
| TerrainMaterial.ShaderDefsDistinct | src/render/terrain_material.rs:136-192 | the key's defines contain no duplicate |
| TerrainMaterial.ShaderDefsIgnoreWireframeAndMsaa | src/render/terrain_material.rs:136-192 | WIREFRAME and the MSAA field never change the defines |
| TerrainMaterial.Specialize | src/render/terrain_material.rs:244-317 | four layouts, the first multisampled exactly when the count is not 1; vertex and fragment shaders and entry points; polygon mode from WIREFRAME; multisample count from the key, between 1 and 64 |
| TerrainMaterial.StageDefinesAreNotFlagNames | src/render/terrain_material.rs:244-265 | MULTISAMPLED, VERTEX and FRAGMENT never collide with a flag's define |
| TerrainMaterial.SpecializeDefines | src/render/terrain_material.rs:244-265 | each stage's defines are the key's defines, MULTISAMPLED exactly for a multisampled key, and the stage's own VERTEX or FRAGMENT |
| TerrainMaterial.SpecializeDefinesDistinct | src/render/terrain_material.rs:244-265 | each stage's defines are free of duplicates; the two stages differ only in their last define |
| TerrainViewBindGroup.GridFitsBound | src/render/terrain_view_bind_group.rs:117-118 | the u32 vertex counts do not overflow exactly when the grid size is at most 46339 |
| TerrainViewBindGroup.GridFitsRow | src/render/terrain_view_bind_group.rs:117 | when a tile's vertex count fits in a u32, so does a row's |
| TerrainViewBindGroup.ViewUniformFrom | src/render/terrain_view_bind_group.rs:111-136 | a row has 2 * (grid size + 2) vertices and a tile grid-size rows, so a row is even and at least 4; tree size, tile count, face and lod are copied; the grid size is converted; the morph, blend, load, subdivision and precision distances and the morph and blend ranges are copied |
| TerrainViewBindGroup.NewView | src/render/terrain_view_bind_group.rs:153-210 | buffer sizes are 48 bytes per geometry tile, one tile coordinate per tile, 16 and 16 bytes; the tile buffer is shared by the prepass and the draw; the indirect buffer is the indirect bind group's and the only one usable for indirect draws; the tile-tree buffers are shared; order and refinement count are copied; no bind group yet |
| TerrainViewBindGroup.NewViewSizesFitU64 | src/render/terrain_view_bind_group.rs:158-168 | the u64 size products cannot overflow |
| TerrainViewBindGroup.NewViewsDisjoint | src/render/terrain_view_bind_group.rs:153-181 | views of different keys own different buffers |
| TerrainViewBindGroup.Initialized | src/render/terrain_view_bind_group.rs:212-224 | `initialize` keeps every existing view and adds, for each new tile tree, exactly the view `NewView` builds for it, with no bind group |
| TerrainViewBindGroup.WithTerrainViewBindGroups | src/render/terrain_view_bind_group.rs:226-241 | the same views, each with this frame's terrain-view bind group outcome, and nothing else about a view changed |
| TerrainViewBindGroup.WithIndirectBindGroups | src/render/terrain_view_bind_group.rs:243-260 | the same views; a view with an indirect bind group is unchanged, one without gets this frame's outcome, and nothing else changes |
| TerrainViewBindGroup.WithPrepassViewBindGroups | src/render/terrain_view_bind_group.rs:262-277 | the same views, each with this frame's prepass-view bind group outcome, and nothing else about a view changed |
| TerrainViewBindGroup.GpuTerrainViews.Initialize | src/render/terrain_view_bind_group.rs:212-224 | the loop over the tile trees, in any order, leaves the registry `Initialized` describes |
| TerrainViewBindGroup.GpuTerrainViews.PrepareTerrainView | src/render/terrain_view_bind_group.rs:226-241 | every view's terrain-view bind group becomes this frame's creation outcome, and nothing else changes |
| TerrainViewBindGroup.GpuTerrainViews.PrepareIndirect | src/render/terrain_view_bind_group.rs:243-260 | only a missing indirect bind group is replaced by this frame's outcome |
| TerrainViewBindGroup.GpuTerrainViews.PrepareRefineTiles | src/render/terrain_view_bind_group.rs:262-277 | every view's prepass-view bind group becomes this frame's creation outcome |
| TerrainViewBindGroup.SetTerrainViewBindGroup | src/render/terrain_view_bind_group.rs:288-303 | the command succeeds exactly when the view has a terrain-view bind group, and skips otherwise; a missing view panics |
| TerrainViewBindGroup.InitializeIdempotent | src/render/terrain_view_bind_group.rs:212-224 | running `initialize` twice with the same tile trees equals running it once |
| TerrainViewBindGroup.InitializedViewSkips | src/render/terrain_view_bind_group.rs:212-224 | a newly initialized view skips the draw |
| TerrainViewBindGroup.RenderAfterPrepareTerrainView | src/render/terrain_view_bind_group.rs:226-241 | after `prepare_terrain_view` the draw succeeds exactly when the bind group was created |
| TerrainViewBindGroup.PrepareTerrainViewLastWins | src/render/terrain_view_bind_group.rs:226-241 | the last `prepare_terrain_view` decides the bind group; a failed creation drops the previous one |
| TerrainViewBindGroup.PrepareRefineTilesLastWins | src/render/terrain_view_bind_group.rs:262-277 | the last `prepare_refine_tiles` decides the bind group |
| TerrainViewBindGroup.PrepareIndirectKeepsExisting | src/render/terrain_view_bind_group.rs:243-260 | an existing indirect bind group is never replaced; a missing one becomes this frame's outcome |
| TerrainViewBindGroup.PrepareIndirectStable | src/render/terrain_view_bind_group.rs:243-260 | once every view has an indirect bind group, further runs change nothing |
| TerrainViewBindGroup.PrepareKeepsBuffers | src/render/terrain_view_bind_group.rs:226-277 | each prepare system changes only its own bind group |
| TerrainViewBindGroup.InitializeKeepsPrepared | src/render/terrain_view_bind_group.rs:212-224 | `initialize` keeps the bind groups an earlier frame prepared |
| TerrainBindGroup.FindAttachment | src/render/terrain_bind_group.rs:89-92 | finds nothing exactly when no attachment claims the slot; otherwise the first attachment in iteration order that claims it |
| TerrainBindGroup.FindAttachmentOwnSlot | src/render/terrain_bind_group.rs:89-92 | when slots are distinct, an attachment's slot finds that attachment |
| TerrainBindGroup.BindableAttachments | src/render/terrain_bind_group.rs:81-99 | the result holds only attachments whose slot is one of the eight, and holds an attachment exactly when it is present and its slot is one of the eight |
| TerrainBindGroup.BindableAttachmentsFilter | src/render/terrain_bind_group.rs:81-99 | every bindable attachment is kept as often as it occurs, every other one is dropped, and the result is a subsequence of the attachments, so their order is kept |
| TerrainBindGroup.FindAttachmentIgnoresUnbindable | src/render/terrain_bind_group.rs:89-92 | attachments with a slot of 8 or more never influence a slot's choice |
| TerrainBindGroup.NewConfig | src/render/terrain_bind_group.rs:63-78 | sizes and mask are copied, padding is zero; scale times texture size is the center size, offset times texture size is the border size; both are non-finite for a zero texture size |
| TerrainBindGroup.NewConfigCoversTexture | src/render/terrain_bind_group.rs:63-78 | when the texture is its center plus a border on each side, scale plus twice the offset is 1 |
| TerrainBindGroup.SlotConfig | src/render/terrain_bind_group.rs:85-99 | the default configuration when no attachment claims the slot; otherwise the configuration of the first attachment in iteration order that claims it |
| TerrainBindGroup.NewAttachmentUniform | src/render/terrain_bind_group.rs:85-99 | eight slots, each the chosen attachment's configuration or the all-zero default |
| TerrainBindGroup.SlotTexture | src/render/terrain_bind_group.rs:156-173 | the fallback image exactly when no attachment claims the slot; otherwise a view of the first claiming attachment's atlas texture in its format |
| TerrainBindGroup.NewAttachmentTextures | src/render/terrain_bind_group.rs:156-173 | eight slots, each a view of the chosen attachment's atlas texture in its format, or the fallback image |
| TerrainBindGroup.UniformMatchesTextures | src/render/terrain_bind_group.rs:85-99 | a slot has the fallback texture exactly when no attachment claims it, and then the default configuration; otherwise texture and configuration come from one attachment |
| TerrainBindGroup.AttachmentInItsSlot | src/render/terrain_bind_group.rs:156-173 | with distinct slots every bindable attachment lands in its own slot of both the uniform and the textures |
| TerrainBindGroup.UnbindableAttachmentsIgnored | src/render/terrain_bind_group.rs:85-99 | attachments beyond the eight slots leave no trace in the uniform or the textures |
| TerrainBindGroup.NewTerrainUniform | src/render/terrain_bind_group.rs:114-131 | lod count and height scale are copied; the stored heights divided by the scale give back the atlas heights, and a zero scale gives zero heights |
| TerrainBindGroup.TerrainUniformHeightOrder | src/render/terrain_bind_group.rs:124-125 | a non-negative height scale keeps the height range ordered, and a negative one reverses it |
| TerrainBindGroup.NewTerrain | src/render/terrain_bind_group.rs:144-190 | no bind group yet; the atlas's terrain buffer; the eight slot textures and configurations |
| TerrainBindGroup.InitializedTerrains | src/render/terrain_bind_group.rs:192-207 | no earlier terrain is removed and every added terrain is present |
| TerrainBindGroup.InitializedTerrainsKeys | src/render/terrain_bind_group.rs:192-207 | after `initialize` the registry holds exactly the earlier terrains and the added ones |
| TerrainBindGroup.InitializedTerrainsUntouched | src/render/terrain_bind_group.rs:192-207 | a terrain that was not added keeps its GPU state |
| TerrainBindGroup.InitializedTerrainsLatest | src/render/terrain_bind_group.rs:192-207 | an added terrain is built from the atlas added for it last |
| TerrainBindGroup.GpuTerrains.Initialize | src/render/terrain_bind_group.rs:192-207 | the loop over the added atlases leaves the registry `InitializedTerrains` describes; a terrain without a GPU atlas panics |
| TerrainBindGroup.PreparedTerrains | src/render/terrain_bind_group.rs:209-236 | the same terrains, each with a new bind group, and nothing else about a terrain changed |
| TerrainBindGroup.GpuTerrains.Prepare | src/render/terrain_bind_group.rs:209-236 | every terrain gets a new bind group; a terrain whose buffer is not uploaded panics |
| TerrainBindGroup.SetTerrainBindGroup | src/render/terrain_bind_group.rs:247-262 | the command succeeds exactly when the terrain has a bind group; a missing terrain panics |
| TerrainBindGroup.RenderAfterPrepare | src/render/terrain_bind_group.rs:209-262 | after `prepare` every terrain's draw succeeds |
| TerrainBindGroup.PrepareKeepsBuffersReady | src/render/terrain_bind_group.rs:209-236 | `prepare` keeps the set of terrains and their buffers, so the next frame's `prepare` cannot panic either |
| TerrainBindGroup.ReAddedTerrainSkips | src/render/terrain_bind_group.rs:192-207 | a terrain whose atlas is added again loses its bind group until the next `prepare` |
| Plugin.DefaultSettings | src/plugin.rs:36-43 | only the height attachment, and an atlas of 1028 tiles |
| Plugin.CustomLabels | src/plugin.rs:48-52 | one custom label per name, in order |
| Plugin.NewSettings | src/plugin.rs:45-59 | the height attachment first, then one custom attachment per name in order; an atlas of 1028 tiles |
| Plugin.NewWithoutCustomIsDefault | src/plugin.rs:36-59 | `new` without names equals `default` |
| Plugin.CustomNamesOfLabels | src/plugin.rs:48-52 | the names can be read back from the custom labels |
| Plugin.NewSettingsRoundTrip | src/plugin.rs:45-59 | the custom attachments of `new(names)` are exactly `names`, in order |
| Plugin.NewSettingsHeightOnce | src/plugin.rs:45-59 | the height attachment appears once, first |
| Mipmap.AttachmentFormatsComplete | src/preprocess/mipmap.rs:72-74 | the format iteration covers every format |
| Mipmap.FormatDefine | src/preprocess/mipmap.rs:47-54 | a format's define is read back as that format |
| Mipmap.FormatDefineRoundTrip | src/preprocess/mipmap.rs:44-59 | a format's define names that format and only it |
| Mipmap.FormatDefineInjective | src/preprocess/mipmap.rs:44-59 | different formats have different defines |
| Mipmap.MipShaderDefs | src/preprocess/mipmap.rs:44-59 | exactly one define, naming the key's format |
| Mipmap.CollectLayouts | src/preprocess/mipmap.rs:72-74 | one layout per listed format, the one made for it |
| Mipmap.MipPipelinesFromWorld | src/preprocess/mipmap.rs:68-83 | every format has a layout, the one made for it; the mip shader is kept |
| Mipmap.MipSpecialize | src/preprocess/mipmap.rs:88-98 | label `mip_pipeline`, entry point `main`, the format's layout alone, the mip shader, the format's define alone, and no workgroup zeroing |
| Mipmap.SpecializeFromWorld | src/preprocess/mipmap.rs:68-98 | for the start-up pipelines, specialising never panics, binds the layout made for the format, and gives distinct keys distinct descriptors |

## Left out

- f32 arithmetic is modelled with reals. Rounding is not modelled: in the
  u32-to-f32 conversions, the f64-to-f32 distance conversions, the
  scale/offset quotients, and the scaled heights.
- TerrainMaterial.FromMsaaSamples: requires at least one sample. In Rust,
  `msaa_samples - 1` underflows for 0 (a panic in debug builds).
- TerrainMaterial.Specialize: states only the key-dependent parts of the
  descriptor (layouts, stages, polygon mode, sample count). The fixed parts
  are not modelled: label, primitive topology, cull mode, colour target,
  depth-stencil state, multisample mask. The pipeline resource's
  `from_world` is not modelled either.
- `queue_terrain`: only the key it composes is modelled. Not modelled:
  - the loop over views and atlases;
  - the lookup of the phase and of the GPU view;
  - specialising through the pipeline cache;
  - adding the phase item.
- `DrawTerrainCommand` and `TerrainMaterialPlugin` are not modelled.
- `TerrainPlugin::build` and `finish` are not modelled. They only register
  systems and resources.
- TerrainViewBindGroup.ViewUniformFrom: requires a grid size whose vertex
  counts fit in a u32; the source would overflow beyond it. It also omits:
  - the view coordinates, world position, half spaces and surface
    approximation, which come from parts of the tile tree outside this model.
- The GPU buffer element sizes of `GeometryTile`, `PrepassState` and
  `Indirect` are constants (48, 16 and 16 bytes). `TileCoordinate`'s size is
  a parameter, because its definition is not part of this model.
- TerrainViewBindGroup.NewViewSizesFitU64: assumes a tile coordinate of at
  most 4 GiB.
- Bind-group creation through `AsBindGroup` and `create_bind_group` is
  replaced by its outcome, passed as a parameter.
- TerrainBindGroup.NewTerrainUniform: the terrain's `scale` vector and the
  transforms derived from the global transform are left out.
- TerrainBindGroup.NewTerrain: the atlas sampler is left out, and the
  attachment buffer is represented by the uniform written into it.
- TerrainBindGroup.NewAttachmentTextures: a texture view is the atlas texture
  and the attachment format. The mapping from a format to its render format
  is not modelled.
- `create_mip_layout` is replaced by a layout handle per format. The
  `MipNode` render graph node is not modelled.
- The ECS scheduling of these systems, change detection, and the
  extraction from the main world are not modelled. An `Added<TileAtlas>`
  query becomes the sequence of newly added atlases.
