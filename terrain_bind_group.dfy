/** The per-terrain GPU state: the attachment configuration uniform and the
    attachment textures chosen from a GPU tile atlas, the terrain uniform,
    the registry of `GpuTerrain`s with the systems that create them and their
    bind groups, and the render command that binds the terrain bind group. */
module TerrainBindGroup {
  import opened Common
  import opened TerrainData

  /** The terrain bind group has a slot for this many attachments. */
  const ATTACHMENT_SLOTS: nat := 8

  // ---------------------------------------------------------------------
  // Choosing the attachment of a slot
  // ---------------------------------------------------------------------

  /** `attachments.iter().find(|(_, a)| a.index == i)`: the first attachment,
      in iteration order, that claims slot `i`. */
  function FindAttachment(attachments: seq<(AttachmentLabel, GpuAttachment)>, i: nat): (r: Option<GpuAttachment>)
    ensures r.None? <==> forall j :: 0 <= j < |attachments| ==> attachments[j].1.index != i
    ensures r.Some? ==> r.value.index == i
    ensures r.Some? ==> exists j :: 0 <= j < |attachments| && attachments[j].1 == r.value
                                   && forall j' :: 0 <= j' < j ==> attachments[j'].1.index != i
  {
    if |attachments| == 0 then None
    else if attachments[0].1.index == i then Some(attachments[0].1)
    else
      var rest := FindAttachment(attachments[1..], i);
      if rest.Some? then
        ghost var j :| 0 <= j < |attachments[1..]| && attachments[1..][j].1 == rest.value
                       && forall j' :: 0 <= j' < j ==> attachments[1..][j'].1.index != i;
        assert attachments[j + 1].1 == rest.value;
        assert forall j' :: 0 <= j' < j + 1 ==> attachments[j'].1.index != i by {
          forall j' | 0 <= j' < j + 1 ensures attachments[j'].1.index != i {
            if j' > 0 { assert attachments[j'] == attachments[1..][j' - 1]; }
          }
        }
        rest
      else
        assert forall j :: 1 <= j < |attachments| ==> attachments[j] == attachments[1..][j - 1];
        rest
  }

  /** The slot each attachment claims, in iteration order. */
  function Slots(attachments: seq<(AttachmentLabel, GpuAttachment)>): (r: seq<nat>)
    ensures |r| == |attachments|
    ensures forall j :: 0 <= j < |attachments| ==> r[j] == attachments[j].1.index
  {
    seq(|attachments|, j requires 0 <= j < |attachments| => attachments[j].1.index)
  }

  /** When no two attachments claim the same slot, an attachment's own slot
      finds exactly it. */
  lemma FindAttachmentOwnSlot(attachments: seq<(AttachmentLabel, GpuAttachment)>, k: nat)
    requires k < |attachments|
    requires Distinct(Slots(attachments))
    ensures FindAttachment(attachments, attachments[k].1.index) == Some(attachments[k].1)
  {
    var r := FindAttachment(attachments, attachments[k].1.index);
    var j :| 0 <= j < |attachments| && attachments[j].1 == r.value
             && forall j' :: 0 <= j' < j ==> attachments[j'].1.index != attachments[k].1.index;
    assert j == k;
  }

  /** The attachments that can be bound: those whose slot is below 8, each
      as often as it occurs and in iteration order. */
  function BindableAttachments(attachments: seq<(AttachmentLabel, GpuAttachment)>): (r: seq<(AttachmentLabel, GpuAttachment)>)
    ensures forall j :: 0 <= j < |r| ==> r[j].1.index < ATTACHMENT_SLOTS
    ensures |r| <= |attachments|
    ensures forall x :: x in r <==> x in attachments && x.1.index < ATTACHMENT_SLOTS
  {
    if |attachments| == 0 then []
    else
      var rest := BindableAttachments(attachments[1..]);
      assert attachments == [attachments[0]] + attachments[1..];
      if attachments[0].1.index < ATTACHMENT_SLOTS then [attachments[0]] + rest else rest
  }

  /** Filtering keeps every bindable attachment as often as it occurs, drops
      every other one, and keeps the iteration order. */
  lemma {:induction false} BindableAttachmentsFilter(attachments: seq<(AttachmentLabel, GpuAttachment)>)
    ensures forall x :: multiset(BindableAttachments(attachments))[x]
                     == if x.1.index < ATTACHMENT_SLOTS then multiset(attachments)[x] else 0
    ensures Subsequence(BindableAttachments(attachments), attachments)
  {
    if |attachments| > 0 {
      var head, tail := attachments[0], attachments[1..];
      var rest := BindableAttachments(tail);
      BindableAttachmentsFilter(tail);
      assert attachments == [head] + tail;
      assert multiset(attachments) == multiset([head]) + multiset(tail);
      if head.1.index < ATTACHMENT_SLOTS {
        var r := [head] + rest;
        assert BindableAttachments(attachments) == r;
        assert r[1..] == rest;
        assert multiset(r) == multiset([head]) + multiset(rest);
      } else {
        assert BindableAttachments(attachments) == rest;
        if |rest| > 0 {
          assert rest[0] != head;
        }
      }
    }
  }

  /** Attachments with a slot of 8 or more are never chosen: dropping them
      changes no slot's choice. */
  lemma {:induction false} FindAttachmentIgnoresUnbindable(attachments: seq<(AttachmentLabel, GpuAttachment)>, i: nat)
    requires i < ATTACHMENT_SLOTS
    ensures FindAttachment(BindableAttachments(attachments), i) == FindAttachment(attachments, i)
  {
    if |attachments| > 0 {
      FindAttachmentIgnoresUnbindable(attachments[1..], i);
      if attachments[0].1.index < ATTACHMENT_SLOTS {
        var b := BindableAttachments(attachments);
        assert b[0] == attachments[0];
        assert b[1..] == BindableAttachments(attachments[1..]);
      }
    }
  }

  // ---------------------------------------------------------------------
  // The attachment uniform
  // ---------------------------------------------------------------------

  /** One slot of the attachment uniform. f32 values are reals; the two
      quotients are `NonFinite` when the texture size is zero. */
  datatype AttachmentConfig = AttachmentConfig(
    textureSize: real,
    centerSize: real,
    scale: Ratio,
    offset: Ratio,
    mask: U32,
    padding1: U32,
    padding2: U32,
    padding3: U32)

  /** `AttachmentConfig::default()`: every field zero. */
  const DEFAULT_CONFIG: AttachmentConfig :=
    AttachmentConfig(0.0, 0.0, Finite(0.0), Finite(0.0), 0, 0, 0, 0)

  /** `AttachmentConfig::new`: the fraction of a tile texture taken by its
      center, and by one border. */
  function NewConfig(attachment: GpuAttachment): (r: AttachmentConfig)
    ensures r.textureSize == attachment.bufferInfo.textureSize as real
    ensures r.centerSize == attachment.bufferInfo.centerSize as real
    ensures r.mask == attachment.bufferInfo.mask
    ensures r.padding1 == r.padding2 == r.padding3 == 0
    ensures r.scale.Finite? <==> attachment.bufferInfo.textureSize != 0
    ensures r.offset.Finite? <==> attachment.bufferInfo.textureSize != 0
    ensures r.scale.Finite? ==> r.scale.value * r.textureSize == r.centerSize
    ensures r.offset.Finite? ==> r.offset.value * r.textureSize == attachment.bufferInfo.borderSize as real
  {
    var info := attachment.bufferInfo;
    AttachmentConfig(
      info.textureSize as real,
      info.centerSize as real,
      Divide(info.centerSize as real, info.textureSize as real),
      Divide(info.borderSize as real, info.textureSize as real),
      info.mask,
      0, 0, 0)
  }

  /** When a tile texture is its center plus a border on each side, scale and
      offset split the unit texture coordinate range between them. */
  lemma NewConfigCoversTexture(attachment: GpuAttachment)
    requires attachment.bufferInfo.textureSize > 0
    requires attachment.bufferInfo.centerSize + 2 * attachment.bufferInfo.borderSize == attachment.bufferInfo.textureSize
    ensures NewConfig(attachment).scale.Finite? && NewConfig(attachment).offset.Finite?
    ensures NewConfig(attachment).scale.value + 2.0 * NewConfig(attachment).offset.value == 1.0
  {
    var r := NewConfig(attachment);
    var t := attachment.bufferInfo.textureSize as real;
    var c := attachment.bufferInfo.centerSize as real;
    var b := attachment.bufferInfo.borderSize as real;
    var sv, ov := r.scale.value, r.offset.value;
    assert sv * t == c && ov * t == b;
    assert c + 2.0 * b == t;
    assert (sv + 2.0 * ov - 1.0) * t == sv * t + 2.0 * (ov * t) - t;
    assert (sv + 2.0 * ov - 1.0) * t == 0.0;
    ZeroProduct(sv + 2.0 * ov - 1.0, t);
  }

  lemma ZeroProduct(x: real, y: real)
    requires y != 0.0 && x * y == 0.0
    ensures x == 0.0
  {
  }

  /** The configuration of slot `i`: that of the chosen attachment, or the
      default when no attachment claims the slot. */
  function SlotConfig(atlas: GpuTileAtlas, i: nat): (r: AttachmentConfig)
    ensures (forall j :: 0 <= j < |atlas.attachments| ==> atlas.attachments[j].1.index != i) ==> r == DEFAULT_CONFIG
    ensures (exists j :: 0 <= j < |atlas.attachments| && atlas.attachments[j].1.index == i) ==>
      exists j :: 0 <= j < |atlas.attachments| && atlas.attachments[j].1.index == i
        && (forall j' :: 0 <= j' < j ==> atlas.attachments[j'].1.index != i)
        && r == NewConfig(atlas.attachments[j].1)
  {
    var found := FindAttachment(atlas.attachments, i);
    if found.Some? then NewConfig(found.value) else DEFAULT_CONFIG
  }

  /** `AttachmentUniform::new`: one configuration per slot. */
  function NewAttachmentUniform(atlas: GpuTileAtlas): (r: seq<AttachmentConfig>)
    ensures |r| == ATTACHMENT_SLOTS
    ensures forall i :: 0 <= i < ATTACHMENT_SLOTS ==> r[i] == SlotConfig(atlas, i)
  {
    seq(ATTACHMENT_SLOTS, i requires 0 <= i => SlotConfig(atlas, i))
  }

  // ---------------------------------------------------------------------
  // The attachment textures
  // ---------------------------------------------------------------------

  /** A texture view bound to a slot: the fallback 2D-array image, or a view
      of an atlas texture in the attachment's format. */
  datatype TextureView = Fallback | AtlasView(texture: Handle, format: AttachmentFormat)

  function SlotTexture(atlas: GpuTileAtlas, i: nat): (r: TextureView)
    ensures r.Fallback? <==> forall j :: 0 <= j < |atlas.attachments| ==> atlas.attachments[j].1.index != i
    ensures r.AtlasView? ==>
      exists j :: 0 <= j < |atlas.attachments| && atlas.attachments[j].1.index == i
        && (forall j' :: 0 <= j' < j ==> atlas.attachments[j'].1.index != i)
        && r == AtlasView(atlas.attachments[j].1.atlasTexture, atlas.attachments[j].1.bufferInfo.format)
  {
    var found := FindAttachment(atlas.attachments, i);
    if found.Some? then AtlasView(found.value.atlasTexture, found.value.bufferInfo.format) else Fallback
  }

  /** The `attachment_textures` array built in `GpuTerrain::new`. */
  function NewAttachmentTextures(atlas: GpuTileAtlas): (r: seq<TextureView>)
    ensures |r| == ATTACHMENT_SLOTS
    ensures forall i :: 0 <= i < ATTACHMENT_SLOTS ==> r[i] == SlotTexture(atlas, i)
  {
    seq(ATTACHMENT_SLOTS, i requires 0 <= i => SlotTexture(atlas, i))
  }

  /** The uniform and the textures pick the same attachment for each slot:
      a slot has the fallback texture exactly when no attachment claims it,
      and otherwise texture and configuration come from one attachment. */
  lemma UniformMatchesTextures(atlas: GpuTileAtlas, i: nat)
    requires i < ATTACHMENT_SLOTS
    ensures NewAttachmentTextures(atlas)[i] == Fallback
        <==> forall j :: 0 <= j < |atlas.attachments| ==> atlas.attachments[j].1.index != i
    ensures NewAttachmentTextures(atlas)[i] == Fallback ==> NewAttachmentUniform(atlas)[i] == DEFAULT_CONFIG
    ensures NewAttachmentTextures(atlas)[i] != Fallback ==>
      exists j :: 0 <= j < |atlas.attachments| && atlas.attachments[j].1.index == i
        && NewAttachmentTextures(atlas)[i] == AtlasView(atlas.attachments[j].1.atlasTexture, atlas.attachments[j].1.bufferInfo.format)
        && NewAttachmentUniform(atlas)[i] == NewConfig(atlas.attachments[j].1)
  {
  }

  /** With distinct slots, every bindable attachment lands in its own slot of
      both the uniform and the textures. */
  lemma AttachmentInItsSlot(atlas: GpuTileAtlas, k: nat)
    requires k < |atlas.attachments| && atlas.attachments[k].1.index < ATTACHMENT_SLOTS
    requires Distinct(Slots(atlas.attachments))
    ensures NewAttachmentUniform(atlas)[atlas.attachments[k].1.index] == NewConfig(atlas.attachments[k].1)
    ensures NewAttachmentTextures(atlas)[atlas.attachments[k].1.index]
         == AtlasView(atlas.attachments[k].1.atlasTexture, atlas.attachments[k].1.bufferInfo.format)
  {
    FindAttachmentOwnSlot(atlas.attachments, k);
  }

  /** Attachments beyond the eight slots leave no trace in what is bound. */
  lemma UnbindableAttachmentsIgnored(atlas: GpuTileAtlas)
    ensures NewAttachmentUniform(atlas.(attachments := BindableAttachments(atlas.attachments)))
         == NewAttachmentUniform(atlas)
    ensures NewAttachmentTextures(atlas.(attachments := BindableAttachments(atlas.attachments)))
         == NewAttachmentTextures(atlas)
  {
    forall i | 0 <= i < ATTACHMENT_SLOTS {
      FindAttachmentIgnoresUnbindable(atlas.attachments, i);
    }
  }

  // ---------------------------------------------------------------------
  // The terrain uniform
  // ---------------------------------------------------------------------

  /** The part of `TerrainUniform` computed from the tile atlas alone. */
  datatype TerrainUniform = TerrainUniform(
    lodCount: U32,
    minHeight: real,
    maxHeight: real,
    heightScale: real)

  /** `TerrainUniform::new`: the height range scaled by the height scale. */
  function NewTerrainUniform(atlas: TileAtlas): (r: TerrainUniform)
    ensures r.lodCount == atlas.lodCount && r.heightScale == atlas.heightScale
    ensures r.heightScale != 0.0 ==>
      r.minHeight / r.heightScale == atlas.minHeight && r.maxHeight / r.heightScale == atlas.maxHeight
    ensures r.heightScale == 0.0 ==> r.minHeight == 0.0 && r.maxHeight == 0.0
  {
    TerrainUniform(atlas.lodCount, atlas.minHeight * atlas.heightScale, atlas.maxHeight * atlas.heightScale, atlas.heightScale)
  }

  /** A non-negative height scale keeps the range ordered; a negative one
      flips it. */
  lemma TerrainUniformHeightOrder(atlas: TileAtlas)
    requires atlas.minHeight <= atlas.maxHeight
    ensures atlas.heightScale >= 0.0 ==> NewTerrainUniform(atlas).minHeight <= NewTerrainUniform(atlas).maxHeight
    ensures atlas.heightScale <= 0.0 ==> NewTerrainUniform(atlas).minHeight >= NewTerrainUniform(atlas).maxHeight
  {
    var r := NewTerrainUniform(atlas);
    var s, lo, hi := atlas.heightScale, atlas.minHeight, atlas.maxHeight;
    assert r.minHeight == lo * s && r.maxHeight == hi * s;
    assert hi * s - lo * s == (hi - lo) * s;
    ProductSign(hi - lo, s);
  }

  lemma ProductSign(d: real, s: real)
    requires d >= 0.0
    ensures s >= 0.0 ==> d * s >= 0.0
    ensures s <= 0.0 ==> d * s <= 0.0
  {
  }

  // ---------------------------------------------------------------------
  // GpuTerrain and its registry
  // ---------------------------------------------------------------------

  /** A terrain's GPU state. The attachment buffer is represented by the
      uniform it was filled with; the sampler is not part of this model. */
  datatype GpuTerrain = GpuTerrain(
    terrainBindGroup: Option<Handle>,
    terrainBuffer: Handle,
    attachmentTextures: seq<TextureView>,
    attachmentUniform: seq<AttachmentConfig>)

  /** `GpuTerrain::new`. */
  function NewTerrain(atlas: TileAtlas, gpuAtlas: GpuTileAtlas): (r: GpuTerrain)
    ensures r.terrainBindGroup.None?
    ensures r.terrainBuffer == atlas.terrainBuffer
    ensures |r.attachmentTextures| == |r.attachmentUniform| == ATTACHMENT_SLOTS
    ensures forall i :: 0 <= i < ATTACHMENT_SLOTS ==>
      r.attachmentUniform[i] == SlotConfig(gpuAtlas, i) && r.attachmentTextures[i] == SlotTexture(gpuAtlas, i)
  {
    GpuTerrain(None, atlas.terrainBuffer, NewAttachmentTextures(gpuAtlas), NewAttachmentUniform(gpuAtlas))
  }

  /** Every added terrain has a GPU tile atlas; `initialize` panics otherwise. */
  predicate AtlasesPresent(added: seq<(Entity, TileAtlas)>, gpuAtlases: map<Entity, GpuTileAtlas>) {
    forall j :: 0 <= j < |added| ==> added[j].0 in gpuAtlases
  }

  /** What `initialize` leaves after visiting the newly added tile atlases in
      order: each inserts a new `GpuTerrain`, replacing any earlier one. */
  function InitializedTerrains(terrains: map<Entity, GpuTerrain>, added: seq<(Entity, TileAtlas)>, gpuAtlases: map<Entity, GpuTileAtlas>): (r: map<Entity, GpuTerrain>)
    requires AtlasesPresent(added, gpuAtlases)
    ensures terrains.Keys <= r.Keys
    ensures forall j :: 0 <= j < |added| ==> added[j].0 in r
  {
    if |added| == 0 then terrains
    else
      var last := added[|added| - 1];
      InitializedTerrains(terrains, added[..|added| - 1], gpuAtlases)[last.0 := NewTerrain(last.1, gpuAtlases[last.0])]
  }

  /** `initialize` adds exactly the added terrains and removes none. */
  lemma {:induction false} InitializedTerrainsKeys(terrains: map<Entity, GpuTerrain>, added: seq<(Entity, TileAtlas)>, gpuAtlases: map<Entity, GpuTileAtlas>, e: Entity)
    requires AtlasesPresent(added, gpuAtlases)
    ensures e in InitializedTerrains(terrains, added, gpuAtlases)
        <==> e in terrains || exists j :: 0 <= j < |added| && added[j].0 == e
  {
    if |added| > 0 {
      var prefix := added[..|added| - 1];
      assert AtlasesPresent(prefix, gpuAtlases);
      InitializedTerrainsKeys(terrains, prefix, gpuAtlases, e);
      if exists j :: 0 <= j < |added| && added[j].0 == e {
        var j :| 0 <= j < |added| && added[j].0 == e;
        if j < |added| - 1 {
          assert prefix[j].0 == e;
        }
      }
      if exists j :: 0 <= j < |prefix| && prefix[j].0 == e {
        var j :| 0 <= j < |prefix| && prefix[j].0 == e;
        assert added[j].0 == e;
      }
    }
  }

  /** A terrain that was not added keeps its GPU state. */
  lemma {:induction false} InitializedTerrainsUntouched(terrains: map<Entity, GpuTerrain>, added: seq<(Entity, TileAtlas)>, gpuAtlases: map<Entity, GpuTileAtlas>, e: Entity)
    requires AtlasesPresent(added, gpuAtlases)
    requires e in terrains && forall j :: 0 <= j < |added| ==> added[j].0 != e
    ensures e in InitializedTerrains(terrains, added, gpuAtlases)
    ensures InitializedTerrains(terrains, added, gpuAtlases)[e] == terrains[e]
  {
    if |added| > 0 {
      var prefix := added[..|added| - 1];
      assert AtlasesPresent(prefix, gpuAtlases);
      assert forall j :: 0 <= j < |prefix| ==> prefix[j] == added[j];
      InitializedTerrainsUntouched(terrains, prefix, gpuAtlases, e);
    }
  }

  /** An added terrain is built from the atlas added for it last. */
  lemma {:induction false} InitializedTerrainsLatest(terrains: map<Entity, GpuTerrain>, added: seq<(Entity, TileAtlas)>, gpuAtlases: map<Entity, GpuTileAtlas>, k: nat)
    requires AtlasesPresent(added, gpuAtlases)
    requires k < |added| && forall j :: k < j < |added| ==> added[j].0 != added[k].0
    ensures added[k].0 in InitializedTerrains(terrains, added, gpuAtlases)
    ensures InitializedTerrains(terrains, added, gpuAtlases)[added[k].0] == NewTerrain(added[k].1, gpuAtlases[added[k].0])
  {
    if k < |added| - 1 {
      var prefix := added[..|added| - 1];
      assert AtlasesPresent(prefix, gpuAtlases);
      assert forall j :: 0 <= j < |prefix| ==> prefix[j] == added[j];
      InitializedTerrainsLatest(terrains, prefix, gpuAtlases, k);
    }
  }

  /** What `prepare` leaves: every terrain has a bind group. */
  function PreparedTerrains(terrains: map<Entity, GpuTerrain>, created: Entity -> Handle): (r: map<Entity, GpuTerrain>)
    ensures r.Keys == terrains.Keys
    ensures forall e :: e in r ==> r[e].terrainBindGroup == Some(created(e))
    // nothing else about a terrain changes
    ensures forall e :: e in r ==> r[e].(terrainBindGroup := terrains[e].terrainBindGroup) == terrains[e]
  {
    map e | e in terrains :: terrains[e].(terrainBindGroup := Some(created(e)))
  }

  /** Every terrain's storage buffer has been uploaded; `prepare` panics
      otherwise. */
  predicate BuffersReady(terrains: map<Entity, GpuTerrain>, uploaded: set<Handle>) {
    forall e :: e in terrains ==> terrains[e].terrainBuffer in uploaded
  }

  /** `SetTerrainBindGroup::render` for the item of `terrain`. Indexing the
      registry panics for a missing terrain. */
  function SetTerrainBindGroup(terrains: map<Entity, GpuTerrain>, terrain: Entity): (r: RenderCommandResult)
    requires terrain in terrains
    ensures r == Success <==> terrains[terrain].terrainBindGroup.Some?
  {
    if terrains[terrain].terrainBindGroup.Some? then Success else Skip
  }

  /** The resource holding one `GpuTerrain` per terrain entity. */
  class GpuTerrains {
    var terrains: map<Entity, GpuTerrain>

    constructor()
      ensures terrains == map[]
    {
      terrains := map[];
    }

    /** `GpuTerrain::initialize` over the tile atlases added this frame. */
    method Initialize(added: seq<(Entity, TileAtlas)>, gpuAtlases: map<Entity, GpuTileAtlas>)
      requires AtlasesPresent(added, gpuAtlases)
      modifies this
      ensures terrains == InitializedTerrains(old(terrains), added, gpuAtlases)
    {
      var i := 0;
      while i < |added|
        invariant 0 <= i <= |added|
        invariant AtlasesPresent(added[..i], gpuAtlases)
        invariant terrains == InitializedTerrains(old(terrains), added[..i], gpuAtlases)
      {
        var (terrain, atlas) := added[i];
        assert added[..i + 1][..i] == added[..i];
        terrains := terrains[terrain := NewTerrain(atlas, gpuAtlases[terrain])];
        i := i + 1;
      }
      assert added[..i] == added;
    }

    /** `GpuTerrain::prepare`: a new bind group for every terrain, each frame.
        `uploaded` holds the storage buffers already on the GPU and `created`
        the bind group made for each terrain. */
    method Prepare(uploaded: set<Handle>, created: Entity -> Handle)
      requires BuffersReady(terrains, uploaded)
      modifies this
      ensures terrains == PreparedTerrains(old(terrains), created)
    {
      var pending := terrains.Keys;
      while pending != {}
        invariant terrains.Keys == old(terrains).Keys && pending <= terrains.Keys
        invariant forall e :: e in terrains ==>
          terrains[e] == if e in pending then old(terrains)[e] else old(terrains)[e].(terrainBindGroup := Some(created(e)))
        decreases pending
      {
        var terrain :| terrain in pending;
        assert terrains[terrain].terrainBuffer in uploaded;
        terrains := terrains[terrain := terrains[terrain].(terrainBindGroup := Some(created(terrain)))];
        pending := pending - {terrain};
      }
    }
  }

  /** After `prepare` every terrain's draw binds its bind group. */
  lemma RenderAfterPrepare(terrains: map<Entity, GpuTerrain>, created: Entity -> Handle, terrain: Entity)
    requires terrain in terrains
    ensures terrain in PreparedTerrains(terrains, created)
    ensures SetTerrainBindGroup(PreparedTerrains(terrains, created), terrain) == Success
  {
  }

  /** `prepare` changes nothing but the bind groups, so the buffers stay
      ready for the next frame. */
  lemma PrepareKeepsBuffersReady(terrains: map<Entity, GpuTerrain>, created: Entity -> Handle, uploaded: set<Handle>)
    requires BuffersReady(terrains, uploaded)
    ensures BuffersReady(PreparedTerrains(terrains, created), uploaded)
    ensures PreparedTerrains(terrains, created).Keys == terrains.Keys
  {
  }

  /** A terrain whose tile atlas is added again loses its bind group and skips
      the draw until the next `prepare`. */
  lemma {:induction false} ReAddedTerrainSkips(terrains: map<Entity, GpuTerrain>, added: seq<(Entity, TileAtlas)>, gpuAtlases: map<Entity, GpuTileAtlas>, k: nat)
    requires AtlasesPresent(added, gpuAtlases)
    requires k < |added|
    ensures added[k].0 in InitializedTerrains(terrains, added, gpuAtlases)
    ensures SetTerrainBindGroup(InitializedTerrains(terrains, added, gpuAtlases), added[k].0) == Skip
  {
    var prefix := added[..|added| - 1];
    if k < |added| - 1 && added[k].0 != added[|added| - 1].0 {
      assert AtlasesPresent(prefix, gpuAtlases);
      assert prefix[k] == added[k];
      ReAddedTerrainSkips(terrains, prefix, gpuAtlases, k);
    }
  }
}
