/** The terrain render-pipeline key (src/render/terrain_material.rs): a u32
    bit set whose bits 0 to 16 are named switches and whose top six bits hold
    the MSAA sample count minus one; the debug toggles that turn switches on;
    the shader defines a key selects; the key-dependent parts of the pipeline
    descriptor; and the key `queue_terrain` builds for each terrain and view. */
module TerrainMaterial {
  import opened Common
  import TerrainData

  /** The key's bits, a u32 in the source. */
  type TerrainPipelineFlags = bv32

  /** The named single-bit flags in declaration order: flag k is bit k. */
  datatype Flag =
    | Spherical | Wireframe | ShowDataLod | ShowGeometryLod | ShowTileTree
    | ShowPixels | ShowUv | ShowNormals | Morph | Blend | TileTreeLod
    | Lighting | SampleGrad | HighPrecision | Test1 | Test2 | Test3

  const NONE: bv32 := 0
  const SPHERICAL: bv32 := 0x1
  const WIREFRAME: bv32 := 0x2
  const SHOW_DATA_LOD: bv32 := 0x4
  const SHOW_GEOMETRY_LOD: bv32 := 0x8
  const SHOW_TILE_TREE: bv32 := 0x10
  const SHOW_PIXELS: bv32 := 0x20
  const SHOW_UV: bv32 := 0x40
  const SHOW_NORMALS: bv32 := 0x80
  const MORPH: bv32 := 0x100
  const BLEND: bv32 := 0x200
  const TILE_TREE_LOD: bv32 := 0x400
  const LIGHTING: bv32 := 0x800
  const SAMPLE_GRAD: bv32 := 0x1000
  const HIGH_PRECISION: bv32 := 0x2000
  const TEST1: bv32 := 0x4000
  const TEST2: bv32 := 0x8000
  const TEST3: bv32 := 0x10000

  const MSAA_MASK_BITS: bv32 := 0x3F
  const MSAA_SHIFT_BITS: bv32 := 32 - 6
  const MSAA_RESERVED_BITS: bv32 := MSAA_MASK_BITS << MSAA_SHIFT_BITS

  /** Every bit some flag of the set covers; `from_bits` accepts exactly the
      subsets of this. */
  const ALL_NAMED_BITS: bv32 := 0x1_FFFF | MSAA_RESERVED_BITS

  function FlagBit(f: Flag): bv32
  {
    match f
    case Spherical => SPHERICAL
    case Wireframe => WIREFRAME
    case ShowDataLod => SHOW_DATA_LOD
    case ShowGeometryLod => SHOW_GEOMETRY_LOD
    case ShowTileTree => SHOW_TILE_TREE
    case ShowPixels => SHOW_PIXELS
    case ShowUv => SHOW_UV
    case ShowNormals => SHOW_NORMALS
    case Morph => MORPH
    case Blend => BLEND
    case TileTreeLod => TILE_TREE_LOD
    case Lighting => LIGHTING
    case SampleGrad => SAMPLE_GRAD
    case HighPrecision => HIGH_PRECISION
    case Test1 => TEST1
    case Test2 => TEST2
    case Test3 => TEST3
  }

  /** The flag's name, which is also the shader define it selects. */
  function FlagName(f: Flag): string
  {
    match f
    case Spherical => "SPHERICAL"
    case Wireframe => "WIREFRAME"
    case ShowDataLod => "SHOW_DATA_LOD"
    case ShowGeometryLod => "SHOW_GEOMETRY_LOD"
    case ShowTileTree => "SHOW_TILE_TREE"
    case ShowPixels => "SHOW_PIXELS"
    case ShowUv => "SHOW_UV"
    case ShowNormals => "SHOW_NORMALS"
    case Morph => "MORPH"
    case Blend => "BLEND"
    case TileTreeLod => "TILE_TREE_LOD"
    case Lighting => "LIGHTING"
    case SampleGrad => "SAMPLE_GRAD"
    case HighPrecision => "HIGH_PRECISION"
    case Test1 => "TEST1"
    case Test2 => "TEST2"
    case Test3 => "TEST3"
  }

  /** bitflags' `contains`: every bit of `other` is set in `flags`. */
  predicate Contains(flags: bv32, other: bv32)
  {
    flags & other == other
  }

  predicate Has(flags: bv32, f: Flag)
  {
    Contains(flags, FlagBit(f))
  }

  /** bitflags' `from_bits`: refuses a value with a bit no flag names. */
  function FromBits(bits: bv32): (r: Option<TerrainPipelineFlags>)
    ensures r.Some? <==> bits & !ALL_NAMED_BITS == 0
    ensures r.Some? ==> r.value == bits
  {
    if bits & !ALL_NAMED_BITS == 0 then Some(bits) else None
  }

  /** Packs `msaaSamples - 1` into the reserved top six bits. The u32
      subtraction panics for 0, so callers pass a count of at least 1. The
      `.value` is the source's `unwrap`; verifying it shows it cannot fail. */
  function FromMsaaSamples(msaaSamples: bv32): (r: TerrainPipelineFlags)
    requires msaaSamples >= 1
    ensures r & !MSAA_RESERVED_BITS == 0
    ensures MsaaSamples(r) == ((msaaSamples - 1) & MSAA_MASK_BITS) + 1
    ensures msaaSamples <= 64 ==> MsaaSamples(r) == msaaSamples
  {
    var msaaBits := ((msaaSamples - 1) & MSAA_MASK_BITS) << MSAA_SHIFT_BITS;
    FromBits(msaaBits).value
  }

  /** Unpacks the sample count from the reserved top six bits. */
  function MsaaSamples(flags: TerrainPipelineFlags): (r: bv32)
    ensures 1 <= r <= 64
    ensures r == MsaaSamples(flags & MSAA_RESERVED_BITS)
  {
    ((flags >> MSAA_SHIFT_BITS) & MSAA_MASK_BITS) + 1
  }

  /** Decoding and re-encoding the sample count of any key gives back exactly
      the key's reserved bits. */
  lemma MsaaBitsRoundTrip(flags: TerrainPipelineFlags)
    ensures FromMsaaSamples(MsaaSamples(flags)) == flags & MSAA_RESERVED_BITS
  {
  }

  /** OR-ing bits outside the reserved ones into a key leaves its sample
      count alone. */
  lemma MsaaSamplesIgnoreOtherBits(flags: TerrainPipelineFlags, extra: bv32)
    requires extra & MSAA_RESERVED_BITS == 0
    ensures MsaaSamples(flags | extra) == MsaaSamples(flags)
  {
  }

  /** A packed sample count sets none of the named flags. */
  lemma MsaaBitsHaveNoFlag(flags: TerrainPipelineFlags, f: Flag)
    requires flags & !MSAA_RESERVED_BITS == 0
    ensures !Has(flags, f)
  {
  }

  /** A named flag is set in a union exactly when it is set in one side. */
  lemma HasUnion(a: bv32, b: bv32, f: Flag)
    ensures Has(a | b, f) <==> Has(a, f) || Has(b, f)
  {
    match f
    case Spherical =>
    case Wireframe =>
    case ShowDataLod =>
    case ShowGeometryLod =>
    case ShowTileTree =>
    case ShowPixels =>
    case ShowUv =>
    case ShowNormals =>
    case Morph =>
    case Blend =>
    case TileTreeLod =>
    case Lighting =>
    case SampleGrad =>
    case HighPrecision =>
    case Test1 =>
    case Test2 =>
    case Test3 =>
  }

  /** The single bit of a flag sets that flag and no other. */
  lemma HasFlagBit(g: Flag, f: Flag)
    ensures Has(FlagBit(g), f) <==> f == g
  {
  }

  /** The debug switches read by the key (the record in src/debug/mod.rs). */
  datatype DebugTerrain = DebugTerrain(
    wireframe: bool,
    showDataLod: bool,
    showGeometryLod: bool,
    showTileTree: bool,
    showPixels: bool,
    showUv: bool,
    showNormals: bool,
    morph: bool,
    blend: bool,
    tileTreeLod: bool,
    lighting: bool,
    sampleGrad: bool,
    highPrecision: bool,
    freeze: bool,
    test1: bool,
    test2: bool,
    test3: bool)

  /** The debug field that switches flag `f` on; no field switches
      SPHERICAL, and `freeze` switches no flag. */
  predicate DebugToggle(d: DebugTerrain, f: Flag)
  {
    match f
    case Spherical => false
    case Wireframe => d.wireframe
    case ShowDataLod => d.showDataLod
    case ShowGeometryLod => d.showGeometryLod
    case ShowTileTree => d.showTileTree
    case ShowPixels => d.showPixels
    case ShowUv => d.showUv
    case ShowNormals => d.showNormals
    case Morph => d.morph
    case Blend => d.blend
    case TileTreeLod => d.tileTreeLod
    case Lighting => d.lighting
    case SampleGrad => d.sampleGrad
    case HighPrecision => d.highPrecision
    case Test1 => d.test1
    case Test2 => d.test2
    case Test3 => d.test3
  }

  /** `from_debug`: starting from NONE, one `key |= FLAG` per switch that is
      on, in the source's order. */
  function FromDebug(d: DebugTerrain): TerrainPipelineFlags
  {
    NONE
    | (if d.wireframe then WIREFRAME else NONE)
    | (if d.showDataLod then SHOW_DATA_LOD else NONE)
    | (if d.showGeometryLod then SHOW_GEOMETRY_LOD else NONE)
    | (if d.showTileTree then SHOW_TILE_TREE else NONE)
    | (if d.showPixels then SHOW_PIXELS else NONE)
    | (if d.showUv then SHOW_UV else NONE)
    | (if d.showNormals then SHOW_NORMALS else NONE)
    | (if d.morph then MORPH else NONE)
    | (if d.blend then BLEND else NONE)
    | (if d.tileTreeLod then TILE_TREE_LOD else NONE)
    | (if d.lighting then LIGHTING else NONE)
    | (if d.sampleGrad then SAMPLE_GRAD else NONE)
    | (if d.highPrecision then HIGH_PRECISION else NONE)
    | (if d.test1 then TEST1 else NONE)
    | (if d.test2 then TEST2 else NONE)
    | (if d.test3 then TEST3 else NONE)
  }

  /** No bit above TEST3 is ever set by the debug toggles. */
  lemma FromDebugBelowMsaa(d: DebugTerrain)
    ensures FromDebug(d) < 0x2_0000
  {
  }

  lemma FromDebugSpherical(d: DebugTerrain)
    ensures Has(FromDebug(d), Spherical) <==> false
  {
  }

  lemma FromDebugWireframe(d: DebugTerrain)
    ensures Has(FromDebug(d), Wireframe) <==> d.wireframe
  {
  }

  lemma FromDebugShowDataLod(d: DebugTerrain)
    ensures Has(FromDebug(d), ShowDataLod) <==> d.showDataLod
  {
  }

  lemma FromDebugShowGeometryLod(d: DebugTerrain)
    ensures Has(FromDebug(d), ShowGeometryLod) <==> d.showGeometryLod
  {
  }

  lemma FromDebugShowTileTree(d: DebugTerrain)
    ensures Has(FromDebug(d), ShowTileTree) <==> d.showTileTree
  {
  }

  lemma FromDebugShowPixels(d: DebugTerrain)
    ensures Has(FromDebug(d), ShowPixels) <==> d.showPixels
  {
  }

  lemma FromDebugShowUv(d: DebugTerrain)
    ensures Has(FromDebug(d), ShowUv) <==> d.showUv
  {
  }

  lemma FromDebugShowNormals(d: DebugTerrain)
    ensures Has(FromDebug(d), ShowNormals) <==> d.showNormals
  {
  }

  lemma FromDebugMorph(d: DebugTerrain)
    ensures Has(FromDebug(d), Morph) <==> d.morph
  {
  }

  lemma FromDebugBlend(d: DebugTerrain)
    ensures Has(FromDebug(d), Blend) <==> d.blend
  {
  }

  lemma FromDebugTileTreeLod(d: DebugTerrain)
    ensures Has(FromDebug(d), TileTreeLod) <==> d.tileTreeLod
  {
  }

  lemma FromDebugLighting(d: DebugTerrain)
    ensures Has(FromDebug(d), Lighting) <==> d.lighting
  {
  }

  lemma FromDebugSampleGrad(d: DebugTerrain)
    ensures Has(FromDebug(d), SampleGrad) <==> d.sampleGrad
  {
  }

  lemma FromDebugHighPrecision(d: DebugTerrain)
    ensures Has(FromDebug(d), HighPrecision) <==> d.highPrecision
  {
  }

  lemma FromDebugTest1(d: DebugTerrain)
    ensures Has(FromDebug(d), Test1) <==> d.test1
  {
  }

  lemma FromDebugTest2(d: DebugTerrain)
    ensures Has(FromDebug(d), Test2) <==> d.test2
  {
  }

  lemma FromDebugTest3(d: DebugTerrain)
    ensures Has(FromDebug(d), Test3) <==> d.test3
  {
  }

  /** A key whose every named flag agrees with the debug toggles agrees
      with them on any flag. */
  lemma AgreesWithToggles(flags: bv32, d: DebugTerrain, f: Flag)
    requires Has(flags, Spherical) <==> DebugToggle(d, Spherical)
    requires Has(flags, Wireframe) <==> DebugToggle(d, Wireframe)
    requires Has(flags, ShowDataLod) <==> DebugToggle(d, ShowDataLod)
    requires Has(flags, ShowGeometryLod) <==> DebugToggle(d, ShowGeometryLod)
    requires Has(flags, ShowTileTree) <==> DebugToggle(d, ShowTileTree)
    requires Has(flags, ShowPixels) <==> DebugToggle(d, ShowPixels)
    requires Has(flags, ShowUv) <==> DebugToggle(d, ShowUv)
    requires Has(flags, ShowNormals) <==> DebugToggle(d, ShowNormals)
    requires Has(flags, Morph) <==> DebugToggle(d, Morph)
    requires Has(flags, Blend) <==> DebugToggle(d, Blend)
    requires Has(flags, TileTreeLod) <==> DebugToggle(d, TileTreeLod)
    requires Has(flags, Lighting) <==> DebugToggle(d, Lighting)
    requires Has(flags, SampleGrad) <==> DebugToggle(d, SampleGrad)
    requires Has(flags, HighPrecision) <==> DebugToggle(d, HighPrecision)
    requires Has(flags, Test1) <==> DebugToggle(d, Test1)
    requires Has(flags, Test2) <==> DebugToggle(d, Test2)
    requires Has(flags, Test3) <==> DebugToggle(d, Test3)
    ensures Has(flags, f) <==> DebugToggle(d, f)
  {
  }

  /** `from_debug` sets a flag exactly when its debug field is on. */
  lemma FromDebugExact(d: DebugTerrain, f: Flag)
    ensures Has(FromDebug(d), f) <==> DebugToggle(d, f)
  {
    FromDebugSpherical(d);
    FromDebugWireframe(d);
    FromDebugShowDataLod(d);
    FromDebugShowGeometryLod(d);
    FromDebugShowTileTree(d);
    FromDebugShowPixels(d);
    FromDebugShowUv(d);
    FromDebugShowNormals(d);
    FromDebugMorph(d);
    FromDebugBlend(d);
    FromDebugTileTreeLod(d);
    FromDebugLighting(d);
    FromDebugSampleGrad(d);
    FromDebugHighPrecision(d);
    FromDebugTest1(d);
    FromDebugTest2(d);
    FromDebugTest3(d);
    AgreesWithToggles(FromDebug(d), d, f);
  }

  /** The flags a view gets when no debug record exists. */
  const DEFAULT_FLAGS: set<Flag> := {Lighting, Morph, Blend, SampleGrad}
  const DEFAULT_BITS: bv32 := LIGHTING | MORPH | BLEND | SAMPLE_GRAD

  lemma DefaultBitsExact(f: Flag)
    ensures Has(DEFAULT_BITS, f) <==> f in DEFAULT_FLAGS
  {
  }

  /** The key before the debug or default flags are added: the view's MSAA
      sample count, with SPHERICAL for a spherical atlas. */
  function QueueBase(msaaSamples: bv32, isSpherical: bool): (r: TerrainPipelineFlags)
    requires msaaSamples >= 1
    ensures r & !(MSAA_RESERVED_BITS | SPHERICAL) == 0
    ensures MsaaSamples(r) == ((msaaSamples - 1) & MSAA_MASK_BITS) + 1
  {
    var m := FromMsaaSamples(msaaSamples);
    if isSpherical then m | SPHERICAL else m
  }

  /** What `queue_terrain` ORs in after the base: the debug record's flags,
      or the four default flags when there is none. */
  function ExtraFlags(debug: Option<DebugTerrain>): (r: TerrainPipelineFlags)
    ensures r < 0x2_0000
    ensures !Has(r, Spherical)
  {
    match debug
    case Some(d) =>
      FromDebugBelowMsaa(d);
      FromDebugSpherical(d);
      FromDebug(d)
    case None => DEFAULT_BITS
  }

  /** The key built for one terrain, drawn with `atlas`, and a view with
      `msaaSamples` samples. */
  function QueueFlags(msaaSamples: bv32, atlas: TerrainData.GpuTileAtlas, debug: Option<DebugTerrain>): TerrainPipelineFlags
    requires msaaSamples >= 1
  {
    QueueBase(msaaSamples, atlas.isSpherical) | ExtraFlags(debug)
  }

  /** Every queued key is one `from_bits` accepts, and it carries the view's
      sample count (modulo 64, as the six reserved bits hold it). */
  lemma QueueFlagsValid(msaaSamples: bv32, atlas: TerrainData.GpuTileAtlas, debug: Option<DebugTerrain>)
    requires msaaSamples >= 1
    ensures FromBits(QueueFlags(msaaSamples, atlas, debug)) == Some(QueueFlags(msaaSamples, atlas, debug))
    ensures MsaaSamples(QueueFlags(msaaSamples, atlas, debug)) == ((msaaSamples - 1) & MSAA_MASK_BITS) + 1
  {
    ValidUnion(QueueBase(msaaSamples, atlas.isSpherical), ExtraFlags(debug), msaaSamples);
  }

  /** OR-ing bits 0 to 16 into the base key keeps it acceptable to
      `from_bits` and keeps its sample count. */
  lemma ValidUnion(base: bv32, extra: bv32, msaaSamples: bv32)
    requires msaaSamples >= 1
    requires base & !(MSAA_RESERVED_BITS | SPHERICAL) == 0
    requires MsaaSamples(base) == ((msaaSamples - 1) & MSAA_MASK_BITS) + 1
    requires extra < 0x2_0000
    ensures FromBits(base | extra) == Some(base | extra)
    ensures MsaaSamples(base | extra) == ((msaaSamples - 1) & MSAA_MASK_BITS) + 1
  {
    MsaaSamplesIgnoreOtherBits(base, extra);
  }

  /** The packed sample count, with SPHERICAL added for a spherical atlas,
      sets SPHERICAL exactly for a spherical atlas and no other flag. */
  lemma QueueBaseExact(msaaSamples: bv32, isSpherical: bool, f: Flag)
    requires msaaSamples >= 1
    ensures Has(QueueBase(msaaSamples, isSpherical), f) <==> f == Spherical && isSpherical
  {
    var m := FromMsaaSamples(msaaSamples);
    MsaaBitsHaveNoFlag(m, f);
    if isSpherical {
      HasUnion(m, SPHERICAL, f);
      HasFlagBit(Spherical, f);
    }
  }

  lemma ExtraFlagsExact(debug: Option<DebugTerrain>, f: Flag)
    ensures Has(ExtraFlags(debug), f) <==>
      || (debug.Some? && DebugToggle(debug.value, f))
      || (debug.None? && f in DEFAULT_FLAGS)
  {
    match debug
    case Some(d) => FromDebugExact(d, f);
    case None => DefaultBitsExact(f);
  }

  /** A queued key sets SPHERICAL exactly for a spherical atlas, and
      otherwise exactly the debug record's flags, or exactly the four
      default flags when there is no debug record. */
  lemma QueueFlagsExact(msaaSamples: bv32, atlas: TerrainData.GpuTileAtlas, debug: Option<DebugTerrain>, f: Flag)
    requires msaaSamples >= 1
    ensures Has(QueueFlags(msaaSamples, atlas, debug), f) <==>
      || (f == Spherical && atlas.isSpherical)
      || (debug.Some? && DebugToggle(debug.value, f))
      || (debug.None? && f in DEFAULT_FLAGS)
  {
    ComposedKeyExact(msaaSamples, atlas.isSpherical, debug, f);
  }

  /** The same, for the two parts OR-ed together. */
  lemma ComposedKeyExact(msaaSamples: bv32, isSpherical: bool, debug: Option<DebugTerrain>, f: Flag)
    requires msaaSamples >= 1
    ensures Has(QueueBase(msaaSamples, isSpherical) | ExtraFlags(debug), f) <==>
      || (f == Spherical && isSpherical)
      || (debug.Some? && DebugToggle(debug.value, f))
      || (debug.None? && f in DEFAULT_FLAGS)
  {
    QueueBaseExact(msaaSamples, isSpherical, f);
    ExtraFlagsExact(debug, f);
    HasUnion(QueueBase(msaaSamples, isSpherical), ExtraFlags(debug), f);
  }

  datatype PolygonMode = Fill | Line

  function PolygonModeOf(flags: TerrainPipelineFlags): (r: PolygonMode)
    ensures r == Line <==> Has(flags, Wireframe)
  {
    if Has(flags, Wireframe) then Line else Fill
  }

  /** A queued key draws lines exactly when a debug record asks for the
      wireframe. */
  lemma QueuedPolygonMode(msaaSamples: bv32, atlas: TerrainData.GpuTileAtlas, debug: Option<DebugTerrain>)
    requires msaaSamples >= 1
    ensures PolygonModeOf(QueueFlags(msaaSamples, atlas, debug)) == Line
      <==> debug.Some? && debug.value.wireframe
  {
    QueueFlagsExact(msaaSamples, atlas, debug, Wireframe);
  }

  /** The flags that select a shader define, in the order `shader_defs`
      tests them: every named flag except WIREFRAME. */
  const DEFINE_ORDER: seq<Flag> := [
    Spherical, ShowDataLod, ShowGeometryLod, ShowTileTree, ShowPixels, ShowUv,
    ShowNormals, Morph, Blend, TileTreeLod, Lighting, SampleGrad, HighPrecision,
    Test1, Test2, Test3]

  /** One `if self.contains(FLAG) { shader_defs.push(NAME) }` step. */
  function Define(flags: bv32, f: Flag): seq<string>
  {
    if Has(flags, f) then [FlagName(f)] else []
  }

  /** The steps for the flags of `order`, taken in that order. */
  function DefinesIn(flags: bv32, order: seq<Flag>): seq<string>
  {
    if order == [] then [] else Define(flags, order[0]) + DefinesIn(flags, order[1..])
  }

  /** `shader_defs`: one push per set flag, in the source's order. */
  function ShaderDefs(flags: TerrainPipelineFlags): seq<string>
  {
    DefinesIn(flags, DEFINE_ORDER)
  }

  /** Distinct flags have distinct names. */
  lemma FlagNameInjective(f: Flag, g: Flag)
    ensures FlagName(f) == FlagName(g) <==> f == g
  {
  }

  /** A name is pushed exactly when it names a flag of `order` that is set. */
  lemma {:induction false} DefinesInMembership(flags: bv32, order: seq<Flag>, name: string)
    ensures name in DefinesIn(flags, order) <==>
      exists f :: f in order && Has(flags, f) && FlagName(f) == name
  {
    if order != [] {
      DefinesInMembership(flags, order[1..], name);
      if exists f :: f in order && Has(flags, f) && FlagName(f) == name {
        var f :| f in order && Has(flags, f) && FlagName(f) == name;
        if f != order[0] {
          assert f in order[1..];
        }
      }
    }
  }

  /** Over an order without repeats, no name is pushed twice. */
  lemma {:induction false} DefinesInDistinct(flags: bv32, order: seq<Flag>)
    requires Distinct(order)
    ensures Distinct(DefinesIn(flags, order))
  {
    if order != [] {
      var rest := order[1..];
      assert Distinct(rest) by {
        forall i, j | 0 <= i < j < |rest|
          ensures rest[i] != rest[j]
        {
          assert rest[i] == order[i + 1] && rest[j] == order[j + 1];
        }
      }
      DefinesInDistinct(flags, rest);
      DefinesInMembership(flags, rest, FlagName(order[0]));
      forall f | f in rest
        ensures FlagName(f) != FlagName(order[0])
      {
        var j :| 0 <= j < |rest| && rest[j] == f;
        assert order[j + 1] == f;
        FlagNameInjective(f, order[0]);
      }
      var head := Define(flags, order[0]);
      var tail := DefinesIn(flags, rest);
      assert head + tail == DefinesIn(flags, order);
      forall i, j | 0 <= i < j < |head + tail|
        ensures (head + tail)[i] != (head + tail)[j]
      {
        if i < |head| {
          assert (head + tail)[j] == tail[j - |head|];
        }
      }
    }
  }

  /** Keys that agree on the flags of `order` push the same names. */
  lemma {:induction false} DefinesInAgree(a: bv32, b: bv32, order: seq<Flag>)
    requires forall f :: f in order ==> (Has(a, f) <==> Has(b, f))
    ensures DefinesIn(a, order) == DefinesIn(b, order)
  {
    if order != [] {
      DefinesInAgree(a, b, order[1..]);
    }
  }

  lemma DefineOrderIsAllButWireframe(f: Flag)
    ensures f in DEFINE_ORDER <==> f != Wireframe
  {
  }

  /** A name is among a key's shader defines exactly when it names a set
      flag other than WIREFRAME. */
  lemma ShaderDefsExact(flags: TerrainPipelineFlags, name: string)
    ensures name in ShaderDefs(flags) <==>
      exists f :: f != Wireframe && Has(flags, f) && FlagName(f) == name
  {
    DefinesInMembership(flags, DEFINE_ORDER, name);
    forall f {
      DefineOrderIsAllButWireframe(f);
    }
  }

  /** Where a flag sits in DEFINE_ORDER (WIREFRAME, which is absent, maps
      past its end). */
  function DefinePosition(f: Flag): nat
  {
    match f
    case Spherical => 0
    case ShowDataLod => 1
    case ShowGeometryLod => 2
    case ShowTileTree => 3
    case ShowPixels => 4
    case ShowUv => 5
    case ShowNormals => 6
    case Morph => 7
    case Blend => 8
    case TileTreeLod => 9
    case Lighting => 10
    case SampleGrad => 11
    case HighPrecision => 12
    case Test1 => 13
    case Test2 => 14
    case Test3 => 15
    case Wireframe => 16
  }

  lemma DefineOrderDistinct()
    ensures Distinct(DEFINE_ORDER)
  {
    assert forall i :: 0 <= i < |DEFINE_ORDER| ==> DefinePosition(DEFINE_ORDER[i]) == i;
  }

  /** No define appears twice. */
  lemma ShaderDefsDistinct(flags: TerrainPipelineFlags)
    ensures Distinct(ShaderDefs(flags))
  {
    DefineOrderDistinct();
    DefinesInDistinct(flags, DEFINE_ORDER);
  }

  /** WIREFRAME and the sample-count bits play no part in the shader
      defines. */
  lemma ShaderDefsIgnoreWireframeAndMsaa(flags: TerrainPipelineFlags, extra: bv32)
    requires extra & !(WIREFRAME | MSAA_RESERVED_BITS) == 0
    ensures ShaderDefs(flags | extra) == ShaderDefs(flags)
  {
    forall f | f in DEFINE_ORDER
      ensures Has(flags | extra, f) <==> Has(flags, f)
    {
      HasUnion(flags, extra, f);
      OnlyWireframeOrMsaa(extra, f);
      DefineOrderIsAllButWireframe(f);
    }
    DefinesInAgree(flags | extra, flags, DEFINE_ORDER);
  }

  lemma OnlyWireframeOrMsaa(extra: bv32, f: Flag)
    requires extra & !(WIREFRAME | MSAA_RESERVED_BITS) == 0
    ensures Has(extra, f) ==> f == Wireframe
  {
  }

  /** The layouts and shaders the terrain pipeline is specialised from. */
  datatype TerrainRenderPipeline = TerrainRenderPipeline(
    viewLayout: Handle,
    viewLayoutMultisampled: Handle,
    terrainLayout: Handle,
    terrainViewLayout: Handle,
    materialLayout: Handle,
    vertexShader: Handle,
    fragmentShader: Handle)

  datatype ShaderStage = ShaderStage(shader: Handle, entryPoint: string, shaderDefs: seq<string>)

  /** The key-dependent parts of the render pipeline descriptor. */
  datatype RenderPipelineDescriptor = RenderPipelineDescriptor(
    layout: seq<Handle>,
    vertex: ShaderStage,
    fragment: ShaderStage,
    polygonMode: PolygonMode,
    multisampleCount: bv32)

  /** `specialize`: a multisampled key gets the MULTISAMPLED define and the
      multisampled view layout; the vertex and fragment stages add VERTEX and
      FRAGMENT to the shared defines. */
  function Specialize(pipeline: TerrainRenderPipeline, flags: TerrainPipelineFlags): (r: RenderPipelineDescriptor)
    ensures |r.layout| == 4
    ensures r.layout[0] == if MsaaSamples(flags) == 1 then pipeline.viewLayout else pipeline.viewLayoutMultisampled
    ensures r.layout[1..] == [pipeline.terrainLayout, pipeline.terrainViewLayout, pipeline.materialLayout]
    ensures r.vertex.shader == pipeline.vertexShader && r.vertex.entryPoint == "vertex"
    ensures r.fragment.shader == pipeline.fragmentShader && r.fragment.entryPoint == "fragment"
    ensures r.polygonMode == Line <==> Has(flags, Wireframe)
    ensures r.multisampleCount == MsaaSamples(flags)
    ensures 1 <= r.multisampleCount <= 64
  {
    var defs := ShaderDefs(flags);
    var multisampled := MsaaSamples(flags) != 1;
    var defs := if multisampled then defs + ["MULTISAMPLED"] else defs;
    var layout := [if multisampled then pipeline.viewLayoutMultisampled else pipeline.viewLayout];
    var layout := layout + [pipeline.terrainLayout] + [pipeline.terrainViewLayout] + [pipeline.materialLayout];
    RenderPipelineDescriptor(
      layout,
      ShaderStage(pipeline.vertexShader, "vertex", defs + ["VERTEX"]),
      ShaderStage(pipeline.fragmentShader, "fragment", defs + ["FRAGMENT"]),
      PolygonModeOf(flags),
      MsaaSamples(flags))
  }

  /** The stage and multisampling defines are never flag names. */
  lemma StageDefinesAreNotFlagNames(f: Flag)
    ensures FlagName(f) != "MULTISAMPLED" && FlagName(f) != "VERTEX" && FlagName(f) != "FRAGMENT"
  {
  }

  /** A name is a define of the vertex stage exactly when it is VERTEX, or
      MULTISAMPLED for a key with more than one sample, or the name of a set
      flag other than WIREFRAME; likewise FRAGMENT for the fragment stage.
      The two stages share everything but their last define, and neither
      repeats a define. */
  lemma SpecializeDefines(pipeline: TerrainRenderPipeline, flags: TerrainPipelineFlags, name: string)
    ensures var r := Specialize(pipeline, flags);
      && (name in r.vertex.shaderDefs <==>
        || name == "VERTEX"
        || (name == "MULTISAMPLED" && MsaaSamples(flags) != 1)
        || exists f :: f != Wireframe && Has(flags, f) && FlagName(f) == name)
      && (name in r.fragment.shaderDefs <==>
        || name == "FRAGMENT"
        || (name == "MULTISAMPLED" && MsaaSamples(flags) != 1)
        || exists f :: f != Wireframe && Has(flags, f) && FlagName(f) == name)
  {
    ShaderDefsExact(flags, name);
    ShaderDefsExact(flags, "MULTISAMPLED");
    ShaderDefsExact(flags, "VERTEX");
    ShaderDefsExact(flags, "FRAGMENT");
    forall f {
      StageDefinesAreNotFlagNames(f);
    }
  }

  lemma SpecializeDefinesDistinct(pipeline: TerrainRenderPipeline, flags: TerrainPipelineFlags)
    ensures var r := Specialize(pipeline, flags);
      && Distinct(r.vertex.shaderDefs)
      && Distinct(r.fragment.shaderDefs)
      && |r.vertex.shaderDefs| == |r.fragment.shaderDefs|
      && r.vertex.shaderDefs[..|r.vertex.shaderDefs| - 1] == r.fragment.shaderDefs[..|r.fragment.shaderDefs| - 1]
  {
    var defs := ShaderDefs(flags);
    ShaderDefsDistinct(flags);
    ShaderDefsExact(flags, "MULTISAMPLED");
    ShaderDefsExact(flags, "VERTEX");
    ShaderDefsExact(flags, "FRAGMENT");
    forall f {
      StageDefinesAreNotFlagNames(f);
    }
    var shared := if MsaaSamples(flags) != 1 then defs + ["MULTISAMPLED"] else defs;
    assert Distinct(shared) by {
      if MsaaSamples(flags) != 1 {
        AppendFreshKeepsDistinct(defs, "MULTISAMPLED");
      }
    }
    assert "VERTEX" !in shared && "FRAGMENT" !in shared;
    AppendFreshKeepsDistinct(shared, "VERTEX");
    AppendFreshKeepsDistinct(shared, "FRAGMENT");
    assert (shared + ["VERTEX"])[..|shared|] == shared;
    assert (shared + ["FRAGMENT"])[..|shared|] == shared;
  }

  lemma AppendFreshKeepsDistinct<T>(s: seq<T>, x: T)
    requires Distinct(s) && x !in s
    ensures Distinct(s + [x])
  {
    forall i, j | 0 <= i < j < |s + [x]|
      ensures (s + [x])[i] != (s + [x])[j]
    {
      if j == |s| {
        assert (s + [x])[i] == s[i];
      } else {
        assert (s + [x])[i] == s[i] && (s + [x])[j] == s[j];
      }
    }
  }
}
