/** The stand-alone RGB cube (src/components/RGBCube.tsx): cube edges split into the ones
    facing the camera (solid) and the others (dashed), the resize handler's frustum, the
    ten-per-axis grid, the current-point marker and the saved-point map. */
module StandaloneRgbCube {
  import opened Color
  import opened Scene
  import opened PointSync

  /** Where the camera starts: (2.5, 2.5, 5). */
  const InitialCameraPosition := Vec3(2.5, 2.5, 5.0)

  /** Coordinate i is constant along the edge (within 0.0001): the test of the loop at
      src/components/RGBCube.tsx:110-116. It serves `EdgeVisible`. */
  predicate IsFixed(start: Vec3, end: Vec3, i: nat)
    requires i < 3
  {
    Abs(start.Component(i) - end.Component(i)) < 0.0001
  }

  /** The fixed coordinates below n, in increasing order. */
  function FixedBelow(start: Vec3, end: Vec3, n: nat): (fixed: seq<nat>)
    requires n <= 3
    ensures forall i: nat :: i in fixed <==> i < n && IsFixed(start, end, i)
    ensures forall a, b :: 0 <= a < b < |fixed| ==> fixed[a] < fixed[b]
    ensures forall a :: 0 <= a < |fixed| ==> fixed[a] < n
  {
    if n == 0 then []
    else FixedBelow(start, end, n - 1) + (if IsFixed(start, end, n - 1) then [n - 1] else [])
  }

  /** The `fixedIndices` the loop at src/components/RGBCube.tsx:109-116 collects. It serves
      `EdgeVisible`. */
  function FixedIndices(start: Vec3, end: Vec3): seq<nat> {
    FixedBelow(start, end, 3)
  }

  /** The midpoint `(start + end) * 0.5` (src/components/RGBCube.tsx:102-104). It serves
      `EdgeVisible`. */
  function Midpoint(start: Vec3, end: Vec3): Vec3 {
    Vec3((start.x + end.x) * 0.5, (start.y + end.y) * 0.5, (start.z + end.z) * 0.5)
  }

  function Minus(a: Vec3, b: Vec3): Vec3 {
    Vec3(a.x - b.x, a.y - b.y, a.z - b.z)
  }

  function Dot(a: Vec3, b: Vec3): real {
    a.x * b.x + a.y * b.y + a.z * b.z
  }

  /** The face normal for fixed coordinate i: -1 on the face where it is 0, +1 elsewhere,
      on axis i only. */
  function FaceNormal(value: real, i: nat): (n: Vec3)
    requires i < 3
    ensures forall j :: 0 <= j < 3 && j != i ==> n.Component(j) == 0.0
    ensures n.Component(i) == if value == 0.0 then -1.0 else 1.0
  {
    var sign := if value == 0.0 then -1.0 else 1.0;
    if i == 0 then Vec3(sign, 0.0, 0.0) else if i == 1 then Vec3(0.0, sign, 0.0) else Vec3(0.0, 0.0, sign)
  }

  /** The face of fixed coordinate i looks toward the camera: `viewDir.dot(normal) > 0`
      (src/components/RGBCube.tsx:121-129). It serves `EdgeVisible`. */
  predicate FacesCamera(start: Vec3, end: Vec3, cameraPos: Vec3, i: nat)
    requires i < 3
  {
    Dot(Minus(cameraPos, Midpoint(start, end)), FaceNormal(start.Component(i), i)) > 0.0
  }

  /** `isEdgeVisible`: some face the edge lies on, by its fixed coordinates, faces the camera. */
  predicate EdgeVisible(start: Vec3, end: Vec3, cameraPos: Vec3) {
    var fixed := FixedIndices(start, end);
    exists k :: 0 <= k < |fixed| && FacesCamera(start, end, cameraPos, fixed[k])
  }

  /** Visibility read axis by axis: some fixed coordinate's face looks toward the camera. */
  lemma EdgeVisibleOnFixedAxis(start: Vec3, end: Vec3, cameraPos: Vec3)
    ensures EdgeVisible(start, end, cameraPos) <==>
      exists i :: 0 <= i < 3 && IsFixed(start, end, i) && FacesCamera(start, end, cameraPos, i)
  {
    var fixed := FixedIndices(start, end);
    if exists i :: 0 <= i < 3 && IsFixed(start, end, i) && FacesCamera(start, end, cameraPos, i) {
      var i :| 0 <= i < 3 && IsFixed(start, end, i) && FacesCamera(start, end, cameraPos, i);
      assert i in fixed;
      var k :| 0 <= k < |fixed| && fixed[k] == i;
    }
    if EdgeVisible(start, end, cameraPos) {
      var k :| 0 <= k < |fixed| && FacesCamera(start, end, cameraPos, fixed[k]);
      assert fixed[k] in fixed;
    }
  }

  /** `isEdgeVisible`, as the loops compute it. */
  method IsEdgeVisible(start: Vec3, end: Vec3, cameraPos: Vec3) returns (visible: bool)
    ensures visible == EdgeVisible(start, end, cameraPos)
  {
    var midPoint := Midpoint(start, end);
    var viewDir := Minus(cameraPos, midPoint);
    var fixedIndices: seq<nat> := [];
    for idx := 0 to 3
      invariant fixedIndices == FixedBelow(start, end, idx)
    {
      if Abs(start.Component(idx) - end.Component(idx)) < 0.0001 {
        fixedIndices := fixedIndices + [idx];
      }
    }
    visible := false;
    for k := 0 to |fixedIndices|
      invariant visible <==> exists m :: 0 <= m < k && FacesCamera(start, end, cameraPos, fixedIndices[m])
    {
      var i := fixedIndices[k];
      var value := start.Component(i);
      var normal := FaceNormal(value, i);
      if Dot(viewDir, normal) > 0.0 {
        visible := true;
      }
    }
    assert fixedIndices == FixedIndices(start, end);
    EdgeVisibleOnFixedAxis(start, end, cameraPos);
  }

  predicate IsCorner(p: Vec3) {
    (p.x == 0.0 || p.x == 1.0) && (p.y == 0.0 || p.y == 1.0) && (p.z == 0.0 || p.z == 1.0)
  }

  /** An edge of the unit cube: two corners that differ in exactly one coordinate. */
  predicate IsCubeEdge(start: Vec3, end: Vec3) {
    IsCorner(start) && IsCorner(end) &&
    ((start.x != end.x && start.y == end.y && start.z == end.z) ||
     (start.x == end.x && start.y != end.y && start.z == end.z) ||
     (start.x == end.x && start.y == end.y && start.z != end.z))
  }

  lemma CornerCoordinate(p: Vec3, i: nat)
    requires IsCorner(p) && i < 3
    ensures p.Component(i) == 0.0 || p.Component(i) == 1.0
  {
  }

  /** A cube edge has exactly two fixed coordinates: the two faces it lies on. */
  lemma CubeEdgeHasTwoFixed(start: Vec3, end: Vec3)
    requires IsCubeEdge(start, end)
    ensures |FixedIndices(start, end)| == 2
  {
    assert FixedBelow(start, end, 0) == [];
  }

  /** On a coordinate both corners share, the face looks toward a camera beyond the far
      corner exactly when that coordinate is 1. */
  lemma FacesCameraBeyondCorner(start: Vec3, end: Vec3, cameraPos: Vec3, i: nat)
    requires i < 3 && start.Component(i) == end.Component(i)
    requires start.Component(i) == 0.0 || start.Component(i) == 1.0
    requires cameraPos.x > 1.0 && cameraPos.y > 1.0 && cameraPos.z > 1.0
    ensures FacesCamera(start, end, cameraPos, i) <==> start.Component(i) == 1.0
  {
    var v := start.Component(i);
    var mid := Midpoint(start, end);
    var sign := if v == 0.0 then -1.0 else 1.0;
    var d := Dot(Minus(cameraPos, mid), FaceNormal(v, i));
    if i == 0 {
      assert FaceNormal(v, i) == Vec3(sign, 0.0, 0.0);
      assert d == (cameraPos.x - v) * sign;
    } else if i == 1 {
      assert FaceNormal(v, i) == Vec3(0.0, sign, 0.0);
      assert d == (cameraPos.y - v) * sign;
    } else {
      assert FaceNormal(v, i) == Vec3(0.0, 0.0, sign);
      assert d == (cameraPos.z - v) * sign;
    }
  }

  /** Seen from a camera beyond the cube's far corner (every coordinate above 1), a cube
      edge is drawn solid exactly when it lies on one of the faces at coordinate 1, so the
      dashed edges are the three that meet at black. */
  lemma CubeEdgeVisibleFromOutside(start: Vec3, end: Vec3, cameraPos: Vec3)
    requires IsCubeEdge(start, end)
    requires cameraPos.x > 1.0 && cameraPos.y > 1.0 && cameraPos.z > 1.0
    ensures EdgeVisible(start, end, cameraPos) <==>
      exists i :: 0 <= i < 3 && IsFixed(start, end, i) && start.Component(i) == 1.0
  {
    EdgeVisibleOnFixedAxis(start, end, cameraPos);
    forall i | 0 <= i < 3 && IsFixed(start, end, i)
      ensures FacesCamera(start, end, cameraPos, i) <==> start.Component(i) == 1.0
    {
      CornerCoordinate(start, i);
      CornerCoordinate(end, i);
      FacesCameraBeyondCorner(start, end, cameraPos, i);
    }
  }

  /** The k-th edge of a flat position buffer occupies numbers 6k to 6k + 5. */
  function EdgeStart(positions: seq<real>, k: nat): Vec3
    requires 6 * k + 6 <= |positions|
  {
    Vec3(positions[6 * k], positions[6 * k + 1], positions[6 * k + 2])
  }

  function EdgeEnd(positions: seq<real>, k: nat): Vec3
    requires 6 * k + 6 <= |positions|
  {
    Vec3(positions[6 * k + 3], positions[6 * k + 4], positions[6 * k + 5])
  }

  function EdgeNumbers(start: Vec3, end: Vec3): seq<real> {
    [start.x, start.y, start.z, end.x, end.y, end.z]
  }

  /** The edge test the loop applies: visibility from the camera's position. */
  function VisibleFrom(cameraPos: Vec3): (Vec3, Vec3) -> bool {
    (start, end) => EdgeVisible(start, end, cameraPos)
  }

  /** Of the first n six-number edges of `positions`, in order, those on which `test`
      gives `wanted`. */
  function Selected(positions: seq<real>, n: nat, test: (Vec3, Vec3) -> bool, wanted: bool): (r: seq<real>)
    requires 6 * n <= |positions|
    ensures |r| <= 6 * n
  {
    if n == 0 then []
    else
      var start, end := EdgeStart(positions, n - 1), EdgeEnd(positions, n - 1);
      Selected(positions, n - 1, test, wanted) +
        (if test(start, end) == wanted then EdgeNumbers(start, end) else [])
  }

  /** Every edge lands in exactly one of the two lists, so together they are as long as the
      edges they come from. */
  lemma {:induction false} SelectedSplitsAll(positions: seq<real>, n: nat, test: (Vec3, Vec3) -> bool)
    requires 6 * n <= |positions|
    ensures |Selected(positions, n, test, true)| + |Selected(positions, n, test, false)| == 6 * n
  {
    if n > 0 {
      SelectedSplitsAll(positions, n - 1, test);
    }
  }

  /** One more edge goes, unchanged, onto the list its test picks. */
  lemma SelectedStep(positions: seq<real>, k: nat, test: (Vec3, Vec3) -> bool)
    requires 6 * k + 6 <= |positions|
    ensures var start, end := EdgeStart(positions, k), EdgeEnd(positions, k);
      Selected(positions, k + 1, test, true) ==
        Selected(positions, k, test, true) + (if test(start, end) then EdgeNumbers(start, end) else []) &&
      Selected(positions, k + 1, test, false) ==
        Selected(positions, k, test, false) + (if test(start, end) then [] else EdgeNumbers(start, end))
  {
  }

  /** The first n edges of the buffer are its first 6n numbers, edge after edge. */
  lemma EdgesPrefix(positions: seq<real>, n: nat)
    requires 0 < n && 6 * n <= |positions|
    ensures positions[..6 * n] == positions[..6 * (n - 1)] +
      EdgeNumbers(EdgeStart(positions, n - 1), EdgeEnd(positions, n - 1))
  {
  }

  /** When every one of the first n edges passes the test, the passing list is those edges
      as they stand: the split keeps the input order. */
  lemma {:induction false} SelectedAllPass(positions: seq<real>, n: nat, test: (Vec3, Vec3) -> bool)
    requires 6 * n <= |positions|
    requires forall k :: 0 <= k < n ==> test(EdgeStart(positions, k), EdgeEnd(positions, k))
    ensures Selected(positions, n, test, true) == positions[..6 * n]
  {
    if n > 0 {
      var start, end := EdgeStart(positions, n - 1), EdgeEnd(positions, n - 1);
      assert test(start, end);
      SelectedAllPass(positions, n - 1, test);
      EdgesPrefix(positions, n);
      assert Selected(positions, n, test, true) == Selected(positions, n - 1, test, true) + EdgeNumbers(start, end);
    }
  }

  /** ... and the failing list is empty. */
  lemma {:induction false} SelectedNoneFail(positions: seq<real>, n: nat, test: (Vec3, Vec3) -> bool)
    requires 6 * n <= |positions|
    requires forall k :: 0 <= k < n ==> test(EdgeStart(positions, k), EdgeEnd(positions, k))
    ensures Selected(positions, n, test, false) == []
  {
    if n > 0 {
      var start, end := EdgeStart(positions, n - 1), EdgeEnd(positions, n - 1);
      assert test(start, end);
      SelectedNoneFail(positions, n - 1, test);
      assert Selected(positions, n, test, false) == Selected(positions, n - 1, test, false) + [];
    }
  }

  /** The numbers at 6k .. 6k + 5 are edge k's endpoints. */
  lemma EdgeAt(positions: seq<real>, k: nat)
    requires 6 * k + 6 <= |positions|
    ensures EdgeStart(positions, k) == Vec3(positions[6 * k], positions[6 * k + 1], positions[6 * k + 2])
    ensures EdgeEnd(positions, k) == Vec3(positions[6 * k + 3], positions[6 * k + 4], positions[6 * k + 5])
  {
  }

  /** One pass of the loop body keeps its two lists equal to the selections so far. */
  lemma PushStep(positions: seq<real>, k: nat, next: nat, cameraPos: Vec3, start: Vec3, end: Vec3,
                 visible: bool, shown: seq<real>, dashed: seq<real>)
    requires next == k + 1 && 6 * next <= |positions|
    requires start == EdgeStart(positions, k) && end == EdgeEnd(positions, k)
    requires visible == EdgeVisible(start, end, cameraPos)
    requires shown == Selected(positions, k, VisibleFrom(cameraPos), true)
    requires dashed == Selected(positions, k, VisibleFrom(cameraPos), false)
    ensures visible ==>
      shown + [start.x, start.y, start.z, end.x, end.y, end.z] == Selected(positions, next, VisibleFrom(cameraPos), true)
    ensures visible ==> dashed == Selected(positions, next, VisibleFrom(cameraPos), false)
    ensures !visible ==> shown == Selected(positions, next, VisibleFrom(cameraPos), true)
    ensures !visible ==>
      dashed + [start.x, start.y, start.z, end.x, end.y, end.z] == Selected(positions, next, VisibleFrom(cameraPos), false)
  {
    var test := VisibleFrom(cameraPos);
    assert test(start, end) == visible;
    SelectedStep(positions, k, test);
    assert shown + [] == shown && dashed + [] == dashed;
  }

  /** `createEdgeGeometries`: walk the buffer six numbers at a time and push each edge onto
      the solid list when it is visible, onto the dashed list otherwise. */
  method CreateEdgeGeometries(positions: seq<real>, cameraPos: Vec3)
    returns (visiblePositions: seq<real>, hiddenPositions: seq<real>)
    requires |positions| % 6 == 0
    ensures visiblePositions == Selected(positions, |positions| / 6, VisibleFrom(cameraPos), true)
    ensures hiddenPositions == Selected(positions, |positions| / 6, VisibleFrom(cameraPos), false)
    ensures |visiblePositions| + |hiddenPositions| == |positions|
  {
    ghost var test := VisibleFrom(cameraPos);
    ghost var n := |positions| / 6;
    assert |positions| == 6 * n;
    visiblePositions, hiddenPositions := [], [];
    var i := 0;
    ghost var k := 0;
    while i < |positions|
      invariant i == 6 * k && k <= n
      invariant visiblePositions == Selected(positions, k, test, true)
      invariant hiddenPositions == Selected(positions, k, test, false)
    {
      assert k < n && 6 * k + 6 <= |positions|;
      var start := Vec3(positions[i], positions[i + 1], positions[i + 2]);
      var end := Vec3(positions[i + 3], positions[i + 4], positions[i + 5]);
      var visible := IsEdgeVisible(start, end, cameraPos);
      EdgeAt(positions, k);
      ghost var next := k + 1;
      PushStep(positions, k, next, cameraPos, start, end, visible, visiblePositions, hiddenPositions);
      if visible {
        visiblePositions := visiblePositions + [start.x, start.y, start.z, end.x, end.y, end.z];
      } else {
        hiddenPositions := hiddenPositions + [start.x, start.y, start.z, end.x, end.y, end.z];
      }
      i, k := i + 6, next;
    }
    assert k == n;
    SelectedSplitsAll(positions, k, test);
  }

  /** The cube's grid: ten planes per axis, half a unit apart from -2.5. */
  lemma StandaloneGridOffsets(i: nat)
    ensures GridOffset(2.5, 10, i) == -2.5 + i as real * 0.5
  {
  }

  /** The component once its set-up effect and first resize have run. */
  class StandaloneCube {
    const camera: OrthoCamera
    const cache: PointCache
    /** The cube's edge buffer, six numbers per edge. */
    const edgePositions: seq<real>
    var currentPoint: Appearance
    var gridHelpers: seq<GridHelper>
    var visibleEdges: seq<real>
    var hiddenEdges: seq<real>

    ghost predicate Valid()
      reads this, cache
    {
      cache.Valid() && |edgePositions| % 6 == 0
    }

    /** Set-up: camera (-1, 1, 1, -1) at (2.5, 2.5, 5), edges split for that position,
        black 70% opaque current point, 3 x 10 grid planes, then the first resize. */
    constructor Setup(width: nat, height: nat, edges: seq<real>)
      requires width > 0 && height > 0 && |edges| % 6 == 0
      ensures Valid() && fresh(camera) && fresh(cache) && cache.points == map[]
      ensures edgePositions == edges
      ensures visibleEdges == Selected(edges, |edges| / 6, VisibleFrom(InitialCameraPosition), true)
      ensures hiddenEdges == Selected(edges, |edges| / 6, VisibleFrom(InitialCameraPosition), false)
      ensures currentPoint == Appearance(Origin, Origin, 1.0, 0.7)
      ensures FitsAspect(camera.Frustum(), Aspect(width, height))
      ensures |gridHelpers| == 30
      ensures forall i :: 0 <= i < 30 ==> gridHelpers[i] == Translucent(GridPlane(2.5, 10, 10, i))
    {
      camera := new OrthoCamera(-1.0, 1.0, 1.0, -1.0);
      cache := new PointCache();
      edgePositions := edges;
      var visible, hidden := CreateEdgeGeometries(edges, InitialCameraPosition);
      visibleEdges, hiddenEdges := visible, hidden;
      currentPoint := Appearance(Origin, Origin, 1.0, 0.7);
      var grids := BuildGrids(2.5, 10, 10);
      gridHelpers := grids;
      new;
      HandleResize(width, height);
    }

    /** The animation loop's edge refresh for the camera's current position. */
    method RefreshEdges(cameraPos: Vec3)
      requires Valid()
      modifies this
      ensures Valid() && unchanged(cache)
      ensures visibleEdges == Selected(edgePositions, |edgePositions| / 6, VisibleFrom(cameraPos), true)
      ensures hiddenEdges == Selected(edgePositions, |edgePositions| / 6, VisibleFrom(cameraPos), false)
      ensures currentPoint == old(currentPoint) && gridHelpers == old(gridHelpers)
    {
      visibleEdges, hiddenEdges := CreateEdgeGeometries(edgePositions, cameraPos);
    }

    /** `handleResize`: fit the frustum to the container's aspect ratio. */
    method HandleResize(width: nat, height: nat)
      requires width > 0 && height > 0
      modifies camera
      ensures FitsAspect(camera.Frustum(), Aspect(width, height))
    {
      camera.FitAspect(width, height);
    }

    /** The current-point effect. */
    method UpdateCurrentPoint(rgb: RGB)
      modifies this
      ensures currentPoint == Placed(old(currentPoint), rgb)
      ensures ValidRgb(rgb) ==> InUnitCube(currentPoint.position)
      ensures visibleEdges == old(visibleEdges) && hiddenEdges == old(hiddenEdges) && gridHelpers == old(gridHelpers)
    {
      var position := Vec3(rgb.r as real / 255.0, rgb.g as real / 255.0, rgb.b as real / 255.0);
      currentPoint := currentPoint.(position := position, color := position);
    }

    /** The saved-point effect. */
    method UpdateSavedPoints(savedColors: seq<SavedColor>, selectedId: string)
      requires Valid()
      modifies cache
      ensures Valid()
      ensures cache.View() == Synced(old(cache.View()), savedColors, selectedId)
      ensures forall k :: k in cache.points && k in old(cache.points) ==>
        cache.points[k].serial == old(cache.points)[k].serial
      ensures forall k :: k in cache.points && k !in old(cache.points) ==>
        forall j :: j in old(cache.points) ==> cache.points[k].serial != old(cache.points)[j].serial
    {
      cache.Sync(savedColors, selectedId);
    }
  }
}
