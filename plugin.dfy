/** The terrain plugin's settings resource: which attachments each terrain
    has and how large the tile atlas is. */
module Plugin {
  import opened TerrainData

  /** The number of tiles a tile atlas holds unless configured otherwise. */
  const DEFAULT_ATLAS_SIZE: U32 := 1028

  datatype TerrainSettings = TerrainSettings(attachments: seq<AttachmentLabel>, atlasSize: U32)

  /** `TerrainSettings::default`: only the height attachment. */
  function DefaultSettings(): (r: TerrainSettings)
    ensures r.attachments == [Height] && r.atlasSize == DEFAULT_ATLAS_SIZE
  {
    TerrainSettings([Height], DEFAULT_ATLAS_SIZE)
  }

  /** The custom attachment labels for the given names, in order. */
  function CustomLabels(names: seq<string>): (r: seq<AttachmentLabel>)
    ensures |r| == |names|
    ensures forall k :: 0 <= k < |names| ==> r[k] == Custom(names[k])
  {
    if |names| == 0 then [] else [Custom(names[0])] + CustomLabels(names[1..])
  }

  /** `TerrainSettings::new`: the height attachment followed by one custom
      attachment per name, in the order given. */
  function NewSettings(customAttachments: seq<string>): (r: TerrainSettings)
    ensures |r.attachments| == |customAttachments| + 1
    ensures r.attachments[0] == Height
    ensures forall k :: 0 <= k < |customAttachments| ==> r.attachments[k + 1] == Custom(customAttachments[k])
    ensures r.atlasSize == DEFAULT_ATLAS_SIZE
  {
    TerrainSettings([Height] + CustomLabels(customAttachments), DEFAULT_ATLAS_SIZE)
  }

  /** The names of the custom attachments among `labels`, in order. */
  function CustomNames(labels: seq<AttachmentLabel>): seq<string> {
    if |labels| == 0 then []
    else if labels[0].Custom? then [labels[0].name] + CustomNames(labels[1..])
    else CustomNames(labels[1..])
  }

  /** Without custom attachments, `new` builds the default settings. */
  lemma NewWithoutCustomIsDefault()
    ensures NewSettings([]) == DefaultSettings()
  {
    assert NewSettings([]).attachments == [Height];
  }

  /** The names passed to `new` are exactly the custom attachments it
      configures: nothing is dropped, added or reordered. */
  lemma {:induction false} CustomNamesOfLabels(names: seq<string>)
    ensures CustomNames(CustomLabels(names)) == names
  {
    if |names| > 0 {
      CustomNamesOfLabels(names[1..]);
      assert CustomLabels(names)[1..] == CustomLabels(names[1..]);
    }
  }

  lemma NewSettingsRoundTrip(names: seq<string>)
    ensures CustomNames(NewSettings(names).attachments) == names
  {
    var labels := NewSettings(names).attachments;
    assert labels[1..] == CustomLabels(names);
    CustomNamesOfLabels(names);
  }

  /** The height attachment appears once, first. */
  lemma NewSettingsHeightOnce(names: seq<string>)
    ensures forall k :: 0 <= k < |NewSettings(names).attachments| ==>
      (NewSettings(names).attachments[k] == Height <==> k == 0)
  {
  }
}
