/** The registry of colour schemes. The schemes' colour values are opaque: an
    entry records which palette it stands for. */
module Colors {

  datatype Palette = DynamicPalette | Sakura | DeepPurple | Blue | Cyan | Orange

  /** A `Colors` entry: its id and the palette of its light and dark schemes. */
  datatype ColorsEntry = ColorsEntry(id: int, palette: Palette)

  /** `Dynamic.id`, the companion constant. */
  const DynamicId: int := -1

  /** `Dynamic(context)`: the instance's id, built from the device's wallpaper colours. */
  function Dynamic(): ColorsEntry
  {
    ColorsEntry(-1, DynamicPalette)
  }

  /** `mColors`. */
  function MColors(): seq<ColorsEntry>
  {
    [ColorsEntry(0, Sakura), ColorsEntry(1, DeepPurple), ColorsEntry(2, Blue),
     ColorsEntry(3, Cyan), ColorsEntry(4, Orange)]
  }

  function Ids(entries: seq<ColorsEntry>): (ids: seq<int>)
    ensures |ids| == |entries|
    ensures forall i :: 0 <= i < |entries| ==> ids[i] == entries[i].id
  {
    if entries == [] then [] else [entries[0].id] + Ids(entries[1..])
  }

  /** `getColorIds()`: the ids of `mColors`, in order. */
  function GetColorIds(): (ids: seq<int>)
    ensures ids == [0, 1, 2, 3, 4]
  {
    Ids(MColors())
  }

  /** `getColor(id)`: the Dynamic entry for its id, otherwise the list entry at index `id`
      (any other id is an out-of-range index). */
  function GetColor(id: int): (c: ColorsEntry)
    requires id == DynamicId || 0 <= id < |MColors()|
    ensures c.id == id
    ensures id == DynamicId <==> c.palette == DynamicPalette
  {
    if id == DynamicId then Dynamic() else MColors()[id]
  }

  /** Every list entry sits at the index equal to its id, so a lookup by any listed id
      returns the entry with that id. */
  lemma RegistryIndexedById()
    ensures forall i :: 0 <= i < |MColors()| ==> MColors()[i].id == i
    ensures forall id :: id in GetColorIds() ==> GetColor(id).id == id && GetColor(id) in MColors()
  {
  }

  /** The companion constant equals the instance id, and no listed entry reuses it. */
  lemma DynamicIdDistinct()
    ensures Dynamic().id == DynamicId
    ensures DynamicId !in GetColorIds()
    ensures GetColor(DynamicId) == Dynamic()
  {
  }

  /** All registry ids are distinct, and so are the palettes they stand for. */
  lemma IdsDistinct()
    ensures var all := [Dynamic()] + MColors();
      forall i, j :: 0 <= i < j < |all| ==> all[i].id != all[j].id && all[i].palette != all[j].palette
  {
  }
}
