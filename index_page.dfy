/** The page's saved-colour state (src/pages/Index.tsx): the list of saved colours and the
    selected id, the three handlers that update them, and the values derived from them. */
module IndexPage {
  import opened Color

  /** The grey every new point starts with. */
  const DefaultGray := RGB(127, 127, 127)

  const InitialId := "initial"

  /** The `map` inside `handleColorChange`: every point whose id is the selected one takes
      the new value; every other entry is kept as it is. */
  function Recolor(colors: seq<SavedColor>, selectedId: string, newRgb: RGB): (r: seq<SavedColor>)
    ensures |r| == |colors|
    ensures forall i :: 0 <= i < |r| ==> r[i].id == colors[i].id && r[i].kind == colors[i].kind
    ensures forall i :: 0 <= i < |r| ==>
      r[i].rgb == (if colors[i].id == selectedId && colors[i].kind == Point then newRgb else colors[i].rgb)
  {
    if |colors| == 0 then []
    else
      var c := colors[0];
      var head := if c.id == selectedId && c.kind == Point then c.(rgb := newRgb) else c;
      [head] + Recolor(colors[1..], selectedId, newRgb)
  }

  /** The `filter` inside `handleRemoveColor`: every entry with the given id is dropped,
      the others keep their order. */
  function RemoveId(colors: seq<SavedColor>, id: string): (r: seq<SavedColor>)
    ensures |r| <= |colors|
    ensures !HasId(r, id)
  {
    if |colors| == 0 then []
    else if colors[0].id == id then RemoveId(colors[1..], id)
    else [colors[0]] + RemoveId(colors[1..], id)
  }

  /** `currentMode`: the selected colour's type, "point" when no colour has the id. */
  function CurrentMode(colors: seq<SavedColor>, selectedId: string): (mode: ColorMode)
    ensures !HasId(colors, selectedId) ==> mode == Point
    ensures mode == Volume ==> exists i :: 0 <= i < |colors| && colors[i].id == selectedId && colors[i].kind == Volume
    ensures forall i :: 0 <= i < |colors| && colors[i].id == selectedId && (forall j :: 0 <= j < i ==> colors[j].id != selectedId) ==>
      mode == colors[i].kind
  {
    match Find(colors, selectedId)
    case Some(c) => c.kind
    case None => Point
  }

  /** `currentRgb`: the selected colour's value when it is a point, otherwise the default grey. */
  function CurrentRgb(colors: seq<SavedColor>, selectedId: string): (rgb: RGB)
    ensures !HasPointId(colors, selectedId) ==> rgb == DefaultGray
    ensures rgb == DefaultGray ||
      exists i :: 0 <= i < |colors| && colors[i].id == selectedId && colors[i].kind == Point && colors[i].rgb == rgb
    ensures AllValidRgb(colors) ==> ValidRgb(rgb)
    ensures forall i :: 0 <= i < |colors| && colors[i].id == selectedId && (forall j :: 0 <= j < i ==> colors[j].id != selectedId) ==>
      rgb == (if colors[i].kind == Point then colors[i].rgb else DefaultGray)
  {
    match Find(colors, selectedId)
    case Some(c) => if c.kind == Point then c.rgb else DefaultGray
    case None => DefaultGray
  }

  /** With unique ids, the page shows the selected colour's type, and its value when it is
      a point. */
  lemma {:induction false} CurrentOfSelected(colors: seq<SavedColor>, k: nat)
    requires UniqueIds(colors) && k < |colors|
    ensures CurrentMode(colors, colors[k].id) == colors[k].kind
    ensures CurrentRgb(colors, colors[k].id) == (if colors[k].kind == Point then colors[k].rgb else DefaultGray)
  {
    FindUnique(colors, k);
  }

  /** The selection names a saved colour, unless there is none left. */
  predicate SelectionHeld(colors: seq<SavedColor>, selectedId: string) {
    |colors| == 0 || HasId(colors, selectedId)
  }

  /** The id the page selects after removing `id` while `selectedId` was selected. */
  function SelectionAfterRemove(remaining: seq<SavedColor>, id: string, selectedId: string): (next: string)
    ensures id != selectedId || |remaining| == 0 ==> next == selectedId
    ensures id == selectedId && |remaining| > 0 ==> HasId(remaining, next) && next == remaining[0].id
  {
    if id == selectedId && |remaining| > 0 then remaining[0].id else selectedId
  }

  /** Recolouring keeps the ids, so it keeps them unique and keeps the selection held. */
  lemma RecolorKeepsIds(colors: seq<SavedColor>, selectedId: string, newRgb: RGB)
    ensures UniqueIds(colors) ==> UniqueIds(Recolor(colors, selectedId, newRgb))
    ensures forall id :: HasId(Recolor(colors, selectedId, newRgb), id) <==> HasId(colors, id)
    ensures SelectionHeld(colors, selectedId) ==> SelectionHeld(Recolor(colors, selectedId, newRgb), selectedId)
  {
    var r := Recolor(colors, selectedId, newRgb);
    forall id ensures HasId(r, id) <==> HasId(colors, id) {
      if HasId(colors, id) {
        var i :| 0 <= i < |colors| && colors[i].id == id;
        assert r[i].id == id;
      }
    }
  }

  /** After a colour change on a selected point, the page shows exactly the new value. */
  lemma {:induction false} ColorChangeShown(colors: seq<SavedColor>, selectedId: string, newRgb: RGB)
    requires HasPointId(colors, selectedId) && UniqueIds(colors)
    ensures CurrentRgb(Recolor(colors, selectedId, newRgb), selectedId) == newRgb
    ensures CurrentMode(Recolor(colors, selectedId, newRgb), selectedId) == Point
  {
    var k :| 0 <= k < |colors| && colors[k].id == selectedId && colors[k].kind == Point;
    var r := Recolor(colors, selectedId, newRgb);
    RecolorKeepsIds(colors, selectedId, newRgb);
    FindUnique(r, k);
  }

  /** Recolouring twice with the same value is recolouring once. */
  lemma RecolorIdempotent(colors: seq<SavedColor>, selectedId: string, newRgb: RGB)
    ensures Recolor(Recolor(colors, selectedId, newRgb), selectedId, newRgb) == Recolor(colors, selectedId, newRgb)
  {
  }

  /** The survivors are exactly the entries whose id differs from the removed one. */
  lemma {:induction false} RemoveIdMembers(colors: seq<SavedColor>, id: string)
    ensures forall c :: c in RemoveId(colors, id) <==> c in colors && c.id != id
  {
    if |colors| > 0 {
      var rest := colors[1..];
      RemoveIdMembers(rest, id);
      assert colors == [colors[0]] + rest;
      forall c ensures c in colors <==> c == colors[0] || c in rest {
      }
    }
  }

  /** The filter works element by element: it distributes over concatenation, which is
      what keeping the order of the survivors means. */
  lemma {:induction false} RemoveIdAppend(a: seq<SavedColor>, b: seq<SavedColor>, id: string)
    ensures RemoveId(a + b, id) == RemoveId(a, id) + RemoveId(b, id)
  {
    if |a| > 0 {
      assert (a + b)[0] == a[0];
      assert (a + b)[1..] == a[1..] + b;
      RemoveIdAppend(a[1..], b, id);
    } else {
      assert a + b == b;
    }
  }

  /** Removing an id no colour carries changes nothing. */
  lemma {:induction false} RemoveAbsentId(colors: seq<SavedColor>, id: string)
    requires !HasId(colors, id)
    ensures RemoveId(colors, id) == colors
  {
    if |colors| > 0 {
      assert colors[0].id != id;
      assert !HasId(colors[1..], id) by {
        forall i | 0 <= i < |colors| - 1 ensures colors[1..][i].id != id {
          assert colors[1..][i] == colors[i + 1];
        }
      }
      RemoveAbsentId(colors[1..], id);
      assert colors == [colors[0]] + colors[1..];
    }
  }

  /** Removing one id from unique ids removes at most one entry and keeps ids unique. */
  lemma {:induction false} RemoveKeepsUnique(colors: seq<SavedColor>, id: string)
    requires UniqueIds(colors)
    ensures UniqueIds(RemoveId(colors, id))
    ensures |RemoveId(colors, id)| >= |colors| - 1
  {
    if |colors| > 0 {
      var rest := colors[1..];
      assert UniqueIds(rest) by {
        forall i, j | 0 <= i < j < |rest| ensures rest[i].id != rest[j].id {
          assert rest[i] == colors[i + 1] && rest[j] == colors[j + 1];
        }
      }
      RemoveKeepsUnique(rest, id);
      if colors[0].id == id {
        assert !HasId(rest, id) by {
          forall i | 0 <= i < |rest| ensures rest[i].id != id {
            assert rest[i] == colors[i + 1];
          }
        }
        RemoveAbsentId(rest, id);
      } else {
        var r := RemoveId(rest, id);
        RemoveIdMembers(rest, id);
        forall j | 0 <= j < |r| ensures r[j].id != colors[0].id {
          assert r[j] in rest;
          var m :| 0 <= m < |rest| && rest[m] == r[j];
          assert rest[m] == colors[m + 1];
        }
      }
    }
  }

  /** The page's two state cells and the handlers that update them. */
  class Palette {
    var savedColors: seq<SavedColor>
    var selectedId: string

    /** Ids stay unique and the selection names a saved colour while any is left. */
    ghost predicate Valid()
      reads this
    {
      UniqueIds(savedColors) && SelectionHeld(savedColors, selectedId)
    }

    /** The initial state: one grey point "initial", selected. */
    constructor ()
      ensures savedColors == [SavedColor(InitialId, Point, DefaultGray)]
      ensures selectedId == InitialId
      ensures Valid()
    {
      savedColors := [SavedColor(InitialId, Point, DefaultGray)];
      selectedId := InitialId;
      new;
      assert savedColors[0].id == InitialId;
    }

    /** `selectedColor`: the first saved colour with the selected id. */
    function SelectedColor(): (c: Option<SavedColor>)
      reads this
      ensures c.Some? ==> c.value in savedColors && c.value.id == selectedId
      ensures c.None? <==> !HasId(savedColors, selectedId)
      ensures forall i ::
        0 <= i < |savedColors| && savedColors[i].id == selectedId &&
        (forall j :: 0 <= j < i ==> savedColors[j].id != selectedId) ==>
          c == Some(savedColors[i])
    {
      Find(savedColors, selectedId)
    }

    /** `handleColorChange(newRgb)`. */
    method ChangeColor(newRgb: RGB)
      modifies this
      ensures savedColors == Recolor(old(savedColors), old(selectedId), newRgb)
      ensures selectedId == old(selectedId)
      ensures old(Valid()) ==> Valid()
      ensures old(HasPointId(savedColors, selectedId)) && old(UniqueIds(savedColors)) ==>
        CurrentRgb(savedColors, selectedId) == newRgb
    {
      if old(HasPointId(savedColors, selectedId)) && old(UniqueIds(savedColors)) {
        ColorChangeShown(savedColors, selectedId, newRgb);
      }
      RecolorKeepsIds(savedColors, selectedId, newRgb);
      savedColors := Recolor(savedColors, selectedId, newRgb);
    }

    /** `handleAddNewPoint()`, with the generated id supplied by the caller. */
    method AddNewPoint(newId: string)
      modifies this
      ensures savedColors == old(savedColors) + [SavedColor(newId, Point, DefaultGray)]
      ensures selectedId == newId
      ensures !old(HasId(savedColors, newId)) ==> CurrentRgb(savedColors, selectedId) == DefaultGray
      ensures old(Valid()) && !old(HasId(savedColors, newId)) ==> Valid()
    {
      var before := savedColors;
      savedColors := savedColors + [SavedColor(newId, Point, DefaultGray)];
      selectedId := newId;
      assert savedColors[|before|].id == newId;
      if !HasId(before, newId) {
        var found := Find(savedColors, newId);
        var i :| 0 <= i < |savedColors| && savedColors[i] == found.value && savedColors[i].id == newId;
        assert i == |before|;
      }
    }

    /** `handleRemoveColor(id)`: drop every colour with this id; when it was the
        selected one and some colour remains, select the first that remains. */
    method RemoveColor(id: string)
      modifies this
      ensures savedColors == RemoveId(old(savedColors), id)
      ensures selectedId == SelectionAfterRemove(savedColors, id, old(selectedId))
      ensures old(Valid()) ==> Valid()
    {
      if UniqueIds(savedColors) {
        RemoveKeepsUnique(savedColors, id);
      }
      var before := savedColors;
      var newColors := RemoveId(savedColors, id);
      if id == selectedId && |newColors| > 0 {
        selectedId := newColors[0].id;
      }
      savedColors := newColors;
      if HasId(before, old(selectedId)) && id != old(selectedId) {
        var i :| 0 <= i < |before| && before[i].id == old(selectedId);
        RemoveIdMembers(before, id);
        assert before[i] in savedColors;
      }
    }

    /** `onSelect`: the list makes the clicked colour the selected one. */
    method Select(id: string)
      modifies this
      ensures selectedId == id && savedColors == old(savedColors)
      ensures old(UniqueIds(savedColors)) && HasId(savedColors, id) ==> Valid()
    {
      selectedId := id;
    }
  }
}
