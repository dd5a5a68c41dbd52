/** Colour values and the saved-colour records shared by the page and the visualizers
    (src/types/color.ts). */
module Color {

  datatype Option<+T> = None | Some(value: T)

  /** An RGB triple. Channels are integers: the sliders step by 1 and the picker
      parses base-16 integers. */
  datatype RGB = RGB(r: int, g: int, b: int) {
    /** The channel at `index`, as `rgb[index]` reads it (src/components/ColorControls.tsx:13).
        It serves `ColorControls.HandleSliderChange`. */
    function Channel(index: nat): int
      requires index < 3
    {
      if index == 0 then r else if index == 1 then g else b
    }
  }

  predicate InByteRange(x: int) {
    0 <= x <= 255
  }

  predicate ValidRgb(c: RGB) {
    InByteRange(c.r) && InByteRange(c.g) && InByteRange(c.b)
  }

  /** The `type` tag of a saved colour ("point" | "volume"). */
  datatype ColorMode = Point | Volume

  /** A saved colour: its id, its type tag and its RGB value. */
  datatype SavedColor = SavedColor(id: string, kind: ColorMode, rgb: RGB)

  /** Some saved colour carries this id. */
  predicate HasId(colors: seq<SavedColor>, id: string) {
    exists i :: 0 <= i < |colors| && colors[i].id == id
  }

  /** Some saved colour of type "point" carries this id. */
  predicate HasPointId(colors: seq<SavedColor>, id: string) {
    exists i :: 0 <= i < |colors| && colors[i].id == id && colors[i].kind == Point
  }

  /** No two saved colours share an id. */
  predicate UniqueIds(colors: seq<SavedColor>) {
    forall i, j :: 0 <= i < j < |colors| ==> colors[i].id != colors[j].id
  }

  predicate AllValidRgb(colors: seq<SavedColor>) {
    forall i :: 0 <= i < |colors| ==> ValidRgb(colors[i].rgb)
  }

  /** `colors.find((c) => c.id === id)`: the first saved colour with this id, if any. */
  function Find(colors: seq<SavedColor>, id: string): (found: Option<SavedColor>)
    ensures found.None? <==> !HasId(colors, id)
    ensures found.Some? ==>
      exists i :: 0 <= i < |colors| && colors[i] == found.value && found.value.id == id &&
        forall j :: 0 <= j < i ==> colors[j].id != id
    ensures forall i :: 0 <= i < |colors| && colors[i].id == id && (forall j :: 0 <= j < i ==> colors[j].id != id) ==>
      found == Some(colors[i])
  {
    if |colors| == 0 then None
    else if colors[0].id == id then Some(colors[0])
    else
      var rest := Find(colors[1..], id);
      assert forall i :: 0 <= i < |colors| - 1 ==> colors[1..][i] == colors[i + 1];
      rest
  }

  /** With unique ids, the colour found under an id is the one that carries it. */
  lemma {:induction false} FindUnique(colors: seq<SavedColor>, k: nat)
    requires UniqueIds(colors) && k < |colors|
    ensures Find(colors, colors[k].id) == Some(colors[k])
  {
    if k > 0 {
      assert colors[0].id != colors[k].id;
      assert colors[1..][k - 1] == colors[k];
      FindUnique(colors[1..], k - 1);
    }
  }
}
