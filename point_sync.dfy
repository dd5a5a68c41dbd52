/** The marker meshes of the RGB cube and the effect that keeps the id-keyed `points` map in
    step with the saved colours. The same effect appears in src/components/ThreeJS/RGBCube.tsx
    and in src/components/RGBCube.tsx; both cube classes use the cache defined here.
    A mesh is abstracted to a record: a serial standing for Three.js' per-object `id` (so
    reuse and replacement can be told apart), and what is drawn. */
module PointSync {
  import opened Color
  import opened Scene

  /** `[r / 255, g / 255, b / 255]`: a colour's place in the unit cube, also used as its
      drawing colour. */
  function Normalized(c: RGB): (p: Vec3)
    ensures p.x * 255.0 == c.r as real && p.y * 255.0 == c.g as real && p.z * 255.0 == c.b as real
    ensures ValidRgb(c) ==> InUnitCube(p)
  {
    Vec3(c.r as real / 255.0, c.g as real / 255.0, c.b as real / 255.0)
  }

  predicate InUnitCube(p: Vec3) {
    0.0 <= p.x <= 1.0 && 0.0 <= p.y <= 1.0 && 0.0 <= p.z <= 1.0
  }

  /** What a marker shows: position, material colour, uniform scale and material opacity. */
  datatype Appearance = Appearance(position: Vec3, color: Vec3, scale: real, opacity: real)

  /** A marker mesh: Three.js' object id and its appearance. */
  datatype PointMesh = PointMesh(serial: nat, look: Appearance)

  /** The look of a saved point: at its colour, in its colour, and enlarged and opaque
      exactly when it is the selected one. */
  function SavedPointLook(rgb: RGB, selected: bool): (a: Appearance)
    ensures a.position == a.color == Normalized(rgb)
    ensures selected <==> a.scale == 1.5
    ensures selected <==> a.opacity == 1.0
    ensures !selected ==> a.scale == 1.0 && a.opacity == 0.7
  {
    Appearance(Normalized(rgb), Normalized(rgb), if selected then 1.5 else 1.0, if selected then 1.0 else 0.7)
  }

  /** The current-point marker moved to `rgb`: position and colour follow the value,
      scale and opacity are left as they were. */
  function Placed(look: Appearance, rgb: RGB): (a: Appearance)
    ensures a.position == a.color && a.position.x * 255.0 == rgb.r as real
    ensures a.position.y * 255.0 == rgb.g as real && a.position.z * 255.0 == rgb.b as real
    ensures a.scale == look.scale && a.opacity == look.opacity
    ensures ValidRgb(rgb) ==> InUnitCube(a.position)
  {
    look.(position := Normalized(rgb), color := Normalized(rgb))
  }

  /** What the map shows, id by id. */
  type View = map<string, Appearance>

  /** The first loop: entries whose id no saved colour carries are dropped. */
  function Pruned(view: View, colors: seq<SavedColor>): (r: View)
    ensures forall k :: k in r <==> k in view && HasId(colors, k)
    ensures forall k :: k in r ==> r[k] == view[k]
  {
    map k | k in view && HasId(colors, k) :: view[k]
  }

  /** One step of the second loop: a point (re)draws its entry; other colours are skipped. */
  function Paint(view: View, color: SavedColor, selectedId: string): View {
    if color.kind == Point then view[color.id := SavedPointLook(color.rgb, color.id == selectedId)]
    else view
  }

  /** A step adds the point's id and draws it with its look; every other entry stays, and
      a volume changes nothing. */
  lemma PaintEffect(view: View, color: SavedColor, selectedId: string)
    ensures var r := Paint(view, color, selectedId);
      r.Keys == (if color.kind == Point then view.Keys + {color.id} else view.Keys) &&
      (color.kind == Point ==> r[color.id] == SavedPointLook(color.rgb, color.id == selectedId)) &&
      forall k :: k in view && !(k == color.id && color.kind == Point) ==> r[k] == view[k]
  {
  }

  /** The second loop, `savedColors.forEach`, over the colours in order. */
  function Painted(view: View, colors: seq<SavedColor>, selectedId: string): (r: View)
    ensures view.Keys <= r.Keys
    decreases |colors|
  {
    if |colors| == 0 then view
    else Paint(Painted(view, colors[..|colors| - 1], selectedId), colors[|colors| - 1], selectedId)
  }

  /** The whole effect. */
  function Synced(view: View, colors: seq<SavedColor>, selectedId: string): (r: View)
    ensures forall k :: k in r ==> HasId(colors, k)
  {
    PaintedKeys(Pruned(view, colors), colors, selectedId);
    Painted(Pruned(view, colors), colors, selectedId)
  }

  /** Colour i is a point and no later point carries its id: its values are the ones that
      stay drawn. */
  predicate LastPointAt(colors: seq<SavedColor>, i: nat)
    requires i < |colors|
  {
    colors[i].kind == Point &&
    forall j :: i < j < |colors| ==> !(colors[j].id == colors[i].id && colors[j].kind == Point)
  }

  lemma {:induction false} PaintedKeys(view: View, colors: seq<SavedColor>, selectedId: string)
    ensures forall k :: k in Painted(view, colors, selectedId) <==> k in view || HasPointId(colors, k)
    decreases |colors|
  {
    if |colors| > 0 {
      var front := colors[..|colors| - 1];
      PaintedKeys(view, front, selectedId);
      forall k ensures HasPointId(colors, k) <==> HasPointId(front, k) || (colors[|colors| - 1].id == k && colors[|colors| - 1].kind == Point) {
        if HasPointId(colors, k) {
          var i :| 0 <= i < |colors| && colors[i].id == k && colors[i].kind == Point;
          if i < |colors| - 1 {
            assert front[i] == colors[i];
          }
        }
        if HasPointId(front, k) {
          var i :| 0 <= i < |front| && front[i].id == k && front[i].kind == Point;
          assert colors[i] == front[i];
        }
      }
    }
  }

  lemma {:induction false} PaintedKeepsOthers(view: View, colors: seq<SavedColor>, selectedId: string, k: string)
    requires k in view && !HasPointId(colors, k)
    ensures k in Painted(view, colors, selectedId) && Painted(view, colors, selectedId)[k] == view[k]
    decreases |colors|
  {
    if |colors| > 0 {
      var front := colors[..|colors| - 1];
      assert !HasPointId(front, k) by {
        forall i | 0 <= i < |front| ensures !(front[i].id == k && front[i].kind == Point) {
          assert front[i] == colors[i];
        }
      }
      PaintedKeepsOthers(view, front, selectedId, k);
      assert !(colors[|colors| - 1].id == k && colors[|colors| - 1].kind == Point);
    }
  }

  lemma {:induction false} PaintedLooks(view: View, colors: seq<SavedColor>, selectedId: string, i: nat)
    requires i < |colors| && LastPointAt(colors, i)
    ensures colors[i].id in Painted(view, colors, selectedId)
    ensures Painted(view, colors, selectedId)[colors[i].id] == SavedPointLook(colors[i].rgb, colors[i].id == selectedId)
    decreases |colors|
  {
    var n := |colors| - 1;
    var front := colors[..n];
    if i < n {
      assert front[i] == colors[i];
      assert LastPointAt(front, i);
      PaintedLooks(view, front, selectedId, i);
      assert !(colors[n].id == colors[i].id && colors[n].kind == Point);
    }
  }

  /** After the effect, the map holds exactly the ids that either were there and still
      name a saved colour, or name a saved point: no stale id survives and no point is
      missing. */
  lemma SyncedKeys(view: View, colors: seq<SavedColor>, selectedId: string)
    ensures forall k :: k in Synced(view, colors, selectedId) <==>
      (k in view && HasId(colors, k)) || HasPointId(colors, k)
    ensures forall k :: k in Synced(view, colors, selectedId) ==> HasId(colors, k)
  {
    PaintedKeys(Pruned(view, colors), colors, selectedId);
  }

  /** Every saved point is drawn at its colour, enlarged and opaque exactly when selected
      (for the last point carrying its id, which with unique ids is the point itself). */
  lemma SyncedLooks(view: View, colors: seq<SavedColor>, selectedId: string, i: nat)
    requires i < |colors| && LastPointAt(colors, i)
    ensures colors[i].id in Synced(view, colors, selectedId)
    ensures Synced(view, colors, selectedId)[colors[i].id] == SavedPointLook(colors[i].rgb, colors[i].id == selectedId)
  {
    PaintedLooks(Pruned(view, colors), colors, selectedId, i);
  }

  lemma UniqueLastPoint(colors: seq<SavedColor>, i: nat)
    requires UniqueIds(colors) && i < |colors| && colors[i].kind == Point
    ensures LastPointAt(colors, i)
  {
  }

  /** For unique ids and channels in 0..255, every saved point is drawn inside the unit cube. */
  lemma SyncedInUnitCube(view: View, colors: seq<SavedColor>, selectedId: string, i: nat)
    requires UniqueIds(colors) && AllValidRgb(colors) && i < |colors| && colors[i].kind == Point
    ensures colors[i].id in Synced(view, colors, selectedId)
    ensures InUnitCube(Synced(view, colors, selectedId)[colors[i].id].position)
  {
    UniqueLastPoint(colors, i);
    SyncedLooks(view, colors, selectedId, i);
  }

  /** Running the effect again with the same colours and selection changes nothing. */
  lemma SyncedIdempotent(view: View, colors: seq<SavedColor>, selectedId: string)
    ensures Synced(Synced(view, colors, selectedId), colors, selectedId) == Synced(view, colors, selectedId)
  {
    var once := Synced(view, colors, selectedId);
    var twice := Synced(once, colors, selectedId);
    SyncedKeys(view, colors, selectedId);
    SyncedKeys(once, colors, selectedId);
    forall k | k in twice ensures twice[k] == once[k] {
      if HasPointId(colors, k) {
        var i := LastPointIndex(colors, k);
        SyncedLooks(view, colors, selectedId, i);
        SyncedLooks(once, colors, selectedId, i);
      } else {
        PaintedKeepsOthers(Pruned(once, colors), colors, selectedId, k);
        PaintedKeepsOthers(Pruned(view, colors), colors, selectedId, k);
      }
    }
  }

  /** The index of the last point that carries the id. */
  lemma LastPointIndex(colors: seq<SavedColor>, k: string) returns (i: nat)
    requires HasPointId(colors, k)
    ensures i < |colors| && colors[i].id == k && LastPointAt(colors, i)
  {
    var n := |colors|;
    var j :| 0 <= j < n && colors[j].id == k && colors[j].kind == Point;
    i := j;
    while i + 1 < n && exists m :: i < m < n && colors[m].id == k && colors[m].kind == Point
      invariant j <= i < n && colors[i].id == k && colors[i].kind == Point
      decreases n - i
    {
      var m :| i < m < n && colors[m].id == k && colors[m].kind == Point;
      i := m;
    }
  }

  /** What a map of meshes shows, id by id. */
  function Looks(points: map<string, PointMesh>): View {
    map k | k in points :: points[k].look
  }

  /** Deleting the stale entries of a mesh map prunes what it shows. */
  lemma PrunedLooks(before: map<string, PointMesh>, after: map<string, PointMesh>, colors: seq<SavedColor>)
    requires forall k :: k in after <==> k in before && HasId(colors, k)
    requires forall k :: k in after ==> after[k] == before[k]
    ensures Looks(after) == Pruned(Looks(before), colors)
  {
  }

  /** The `points` map of a cube component, with the counter that numbers new meshes. */
  class PointCache {
    var points: map<string, PointMesh>
    var nextSerial: nat

    /** Every mesh has a serial below the counter, and no mesh sits under two ids. */
    ghost predicate Valid()
      reads this
    {
      (forall k :: k in points ==> points[k].serial < nextSerial) &&
      (forall a, b :: a in points && b in points && a != b ==> points[a].serial != points[b].serial)
    }

    function View(): View
      reads this
    {
      Looks(points)
    }

    /** `points: new Map()`. */
    constructor ()
      ensures points == map[] && nextSerial == 0 && Valid()
    {
      points := map[];
      nextSerial := 0;
    }

    /** The first loop: delete every entry whose id no saved colour carries. */
    method RemoveStale(colors: seq<SavedColor>)
      requires Valid()
      modifies this
      ensures Valid() && nextSerial == old(nextSerial)
      ensures forall k :: k in points <==> k in old(points) && HasId(colors, k)
      ensures forall k :: k in points ==> points[k] == old(points)[k]
      ensures View() == Pruned(old(View()), colors)
    {
      var ids := points.Keys;
      while ids != {}
        invariant ids <= old(points).Keys
        invariant forall k :: k in points <==> k in old(points) && (k in ids || HasId(colors, k))
        invariant forall k :: k in points ==> points[k] == old(points)[k]
        invariant nextSerial == old(nextSerial)
        decreases ids
      {
        var id :| id in ids;
        if Find(colors, id).None? {
          points := points - {id};
        }
        ids := ids - {id};
      }
      PrunedLooks(old(points), points, colors);
    }

    /** The body of `savedColors.forEach`: a point reuses the mesh under its id or creates
        one, then sets position, colour, scale and opacity; other colours are skipped. */
    method PaintOne(color: SavedColor, selectedId: string)
      requires Valid()
      modifies this
      ensures Valid() && old(nextSerial) <= nextSerial
      ensures View() == Paint(old(View()), color, selectedId)
      ensures old(points).Keys <= points.Keys
      ensures forall k :: k in points && k in old(points) ==> points[k].serial == old(points)[k].serial
      ensures forall k :: k in points && k !in old(points) ==>
        old(nextSerial) <= points[k].serial && k == color.id && color.kind == Point
    {
      if color.kind != Point {
        return;
      }
      var position := Normalized(color.rgb);
      var point: PointMesh;
      if color.id in points {
        point := points[color.id];
      } else {
        point := PointMesh(nextSerial, Appearance(Origin, position, 1.0, 1.0));
        nextSerial := nextSerial + 1;
        points := points[color.id := point];
      }
      point := point.(look := point.look.(position := position, color := position));
      if color.id == selectedId {
        point := point.(look := point.look.(scale := 1.5, opacity := 1.0));
      } else {
        point := point.(look := point.look.(scale := 1.0, opacity := 0.7));
      }
      points := points[color.id := point];
      assert View() == old(View())[color.id := SavedPointLook(color.rgb, color.id == selectedId)];
    }

    /** The second loop: `savedColors.forEach` over the colours in order. */
    method PaintPoints(colors: seq<SavedColor>, selectedId: string)
      requires Valid()
      modifies this
      ensures Valid() && old(nextSerial) <= nextSerial
      ensures View() == Painted(old(View()), colors, selectedId)
      ensures forall k :: k in points && k in old(points) ==> points[k].serial == old(points)[k].serial
      ensures forall k :: k in points && k !in old(points) ==>
        old(nextSerial) <= points[k].serial && HasPointId(colors, k)
    {
      for i := 0 to |colors|
        invariant Valid() && old(nextSerial) <= nextSerial
        invariant View() == Painted(old(View()), colors[..i], selectedId)
        invariant old(points).Keys <= points.Keys
        invariant forall k :: k in points && k in old(points) ==> points[k].serial == old(points)[k].serial
        invariant forall k :: k in points && k !in old(points) ==>
          old(nextSerial) <= points[k].serial && HasPointId(colors, k)
      {
        assert colors[..i + 1][..i] == colors[..i];
        PaintOne(colors[i], selectedId);
      }
      assert colors[..|colors|] == colors;
    }

    /** The whole effect: stale entries removed, then every saved point drawn. */
    method Sync(colors: seq<SavedColor>, selectedId: string)
      requires Valid()
      modifies this
      ensures Valid() && old(nextSerial) <= nextSerial
      ensures View() == Synced(old(View()), colors, selectedId)
      ensures forall k :: k in points && k in old(points) ==> points[k].serial == old(points)[k].serial
      ensures forall k :: k in points && k !in old(points) ==> old(nextSerial) <= points[k].serial
    {
      RemoveStale(colors);
      PaintPoints(colors, selectedId);
    }
  }
}
