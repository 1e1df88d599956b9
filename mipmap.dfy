/** The mip-map compute pipelines of the preprocessor: one bind-group layout
    per attachment format, and one pipeline per format specialised by a
    shader define naming the format. */
module Mipmap {
  import opened Common
  import opened TerrainData

  const MIP_PIPELINE_LABEL: string := "mip_pipeline"
  const MIP_ENTRY_POINT: string := "main"

  /** Every format is listed. */
  lemma AttachmentFormatsComplete(format: AttachmentFormat)
    ensures format in ATTACHMENT_FORMATS
  {
  }

  datatype MipPipelineKey = MipPipelineKey(format: AttachmentFormat)

  /** The shader define that selects a format's code path. */
  function FormatDefine(format: AttachmentFormat): (r: string)
    ensures FormatOfDefine(r) == Some(format)
  {
    match format
    case Rgb8U => "RGB8U"
    case Rgba8U => "RGBA8U"
    case R16U => "R16U"
    case R16I => "R16I"
    case Rg16U => "RG16U"
    case R32F => "R32F"
  }

  /** The format a shader define names, if any. */
  function FormatOfDefine(define: string): (r: Option<AttachmentFormat>) {
    if define == "RGB8U" then Some(Rgb8U)
    else if define == "RGBA8U" then Some(Rgba8U)
    else if define == "R16U" then Some(R16U)
    else if define == "R16I" then Some(R16I)
    else if define == "RG16U" then Some(Rg16U)
    else if define == "R32F" then Some(R32F)
    else None
  }

  /** The define of a format names that format and only it. */
  lemma FormatDefineRoundTrip(format: AttachmentFormat, define: string)
    ensures FormatOfDefine(FormatDefine(format)) == Some(format)
    ensures FormatOfDefine(define) == Some(format) ==> FormatDefine(format) == define
  {
  }

  /** Different formats get different defines, hence different pipelines. */
  lemma FormatDefineInjective(a: AttachmentFormat, b: AttachmentFormat)
    ensures FormatDefine(a) == FormatDefine(b) <==> a == b
  {
    FormatDefineRoundTrip(a, FormatDefine(b));
  }

  /** `MipPipelineKey::shader_defs`: the key's format define and nothing
      else. */
  function MipShaderDefs(key: MipPipelineKey): (r: seq<string>)
    ensures |r| == 1
    ensures FormatOfDefine(r[0]) == Some(key.format)
  {
    FormatDefineRoundTrip(key.format, "");
    [FormatDefine(key.format)]
  }

  datatype MipPipelines = MipPipelines(mipLayouts: map<AttachmentFormat, Handle>, mipShader: Handle)

  /** `AttachmentFormat::iter().map(..).collect()`: a layout for each of
      `formats`, made by `createLayout`. */
  function CollectLayouts(formats: seq<AttachmentFormat>, createLayout: AttachmentFormat -> Handle): (r: map<AttachmentFormat, Handle>)
    ensures r.Keys == set f | f in formats
    ensures forall f :: f in r ==> r[f] == createLayout(f)
  {
    if |formats| == 0 then map[]
    else CollectLayouts(formats[1..], createLayout)[formats[0] := createLayout(formats[0])]
  }

  /** `MipPipelines::from_world`. The layouts a device creates and the loaded
      shader are parameters. */
  function MipPipelinesFromWorld(createLayout: AttachmentFormat -> Handle, mipShader: Handle): (r: MipPipelines)
    ensures forall f: AttachmentFormat :: f in r.mipLayouts && r.mipLayouts[f] == createLayout(f)
    ensures r.mipShader == mipShader
  {
    var layouts := CollectLayouts(ATTACHMENT_FORMATS, createLayout);
    assert forall f: AttachmentFormat :: f in layouts by {
      forall f: AttachmentFormat ensures f in layouts {
        AttachmentFormatsComplete(f);
      }
    }
    MipPipelines(layouts, mipShader)
  }

  datatype ComputePipelineDescriptor = ComputePipelineDescriptor(
    pipelineLabel: string,
    layout: seq<Handle>,
    shader: Handle,
    shaderDefs: seq<string>,
    entryPoint: string,
    zeroInitializeWorkgroupMemory: bool)

  /** `MipPipelines::specialize`. Indexing the layouts panics for a format
      without a layout. */
  function MipSpecialize(pipelines: MipPipelines, key: MipPipelineKey): (r: ComputePipelineDescriptor)
    requires key.format in pipelines.mipLayouts
    ensures r.pipelineLabel == MIP_PIPELINE_LABEL && r.entryPoint == MIP_ENTRY_POINT
    ensures r.layout == [pipelines.mipLayouts[key.format]]
    ensures r.shader == pipelines.mipShader
    ensures |r.shaderDefs| == 1 && FormatOfDefine(r.shaderDefs[0]) == Some(key.format)
    ensures !r.zeroInitializeWorkgroupMemory
  {
    ComputePipelineDescriptor(MIP_PIPELINE_LABEL, [pipelines.mipLayouts[key.format]], pipelines.mipShader,
                              MipShaderDefs(key), MIP_ENTRY_POINT, false)
  }

  /** Specialising the pipelines built at start-up succeeds for every key,
      binds the layout made for the key's format, and gives distinct keys
      distinct descriptors. */
  lemma SpecializeFromWorld(createLayout: AttachmentFormat -> Handle, mipShader: Handle, a: MipPipelineKey, b: MipPipelineKey)
    ensures a.format in MipPipelinesFromWorld(createLayout, mipShader).mipLayouts
    ensures b.format in MipPipelinesFromWorld(createLayout, mipShader).mipLayouts
    ensures MipSpecialize(MipPipelinesFromWorld(createLayout, mipShader), a).layout == [createLayout(a.format)]
    ensures (MipSpecialize(MipPipelinesFromWorld(createLayout, mipShader), a)
             == MipSpecialize(MipPipelinesFromWorld(createLayout, mipShader), b)) <==> a == b
  {
    var p := MipPipelinesFromWorld(createLayout, mipShader);
    if MipSpecialize(p, a) == MipSpecialize(p, b) {
      assert FormatOfDefine(MipSpecialize(p, a).shaderDefs[0]) == Some(a.format);
    }
  }
}
