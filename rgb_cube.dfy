/** The RGB cube drawn inside the shared container (src/components/ThreeJS/RGBCube.tsx): a
    current-point marker and one marker per saved point. */
module RgbCube {
  import opened Color
  import opened Scene
  import opened PointSync

  /** The marker state of `RGBCubeContent` once its set-up effect has run. */
  class RgbCubeContent {
    const cache: PointCache
    var currentPoint: Appearance

    ghost predicate Valid()
      reads this, cache
    {
      cache.Valid()
    }

    /** The set-up effect: an empty point map and a black, 70% opaque current point. */
    constructor ()
      ensures Valid() && fresh(cache) && cache.points == map[]
      ensures currentPoint == Appearance(Origin, Origin, 1.0, 0.7)
    {
      cache := new PointCache();
      currentPoint := Appearance(Origin, Origin, 1.0, 0.7);
    }

    /** The current-point effect: move the marker to `rgb / 255` and colour it so. */
    method UpdateCurrentPoint(rgb: RGB)
      modifies this
      ensures currentPoint == Placed(old(currentPoint), rgb)
      ensures ValidRgb(rgb) ==> InUnitCube(currentPoint.position)
    {
      var position := Vec3(rgb.r as real / 255.0, rgb.g as real / 255.0, rgb.b as real / 255.0);
      currentPoint := currentPoint.(position := position);
      currentPoint := currentPoint.(color := position);
    }

    /** The saved-point effect: bring the point map into agreement with the saved colours. */
    method UpdateSavedPoints(savedColors: seq<SavedColor>, selectedId: string)
      requires Valid()
      modifies cache
      ensures Valid()
      ensures cache.View() == Synced(old(cache.View()), savedColors, selectedId)
      ensures forall k :: k in cache.points && k in old(cache.points) ==>
        cache.points[k].serial == old(cache.points)[k].serial
      ensures forall k :: k in cache.points && k !in old(cache.points) ==>
        forall j :: j in old(cache.points) ==> cache.points[k].serial != old(cache.points)[j].serial
    {
      cache.Sync(savedColors, selectedId);
    }
  }
}
