/** The parts of the Three.js scene the visualizers compute with, abstracted to values:
    vectors, the orthographic camera's frustum bounds and the helper grids. The frustum
    rule and the grid layout are shared by src/components/ThreeJS/BaseColorSpaceVisualizer.tsx
    and src/components/RGBCube.tsx. */
module Scene {

  datatype Vec3 = Vec3(x: real, y: real, z: real) {
    /** `getComponent(index)` (src/components/RGBCube.tsx:112, 122). It serves
        `StandaloneRgbCube.EdgeVisible`. */
    function Component(index: nat): real
      requires index < 3
    {
      if index == 0 then x else if index == 1 then y else z
    }
  }

  const Origin := Vec3(0.0, 0.0, 0.0)

  /** `Math.abs`. */
  function Abs(x: real): (a: real)
    ensures a >= 0.0 && (a == x || a == -x)
  {
    if x < 0.0 then -x else x
  }

  /** The four frustum planes of an orthographic camera. */
  datatype Bounds = Bounds(left: real, right: real, top: real, bottom: real)

  /** An orthographic camera; only its frustum bounds are modelled. */
  class OrthoCamera {
    var left: real
    var right: real
    var top: real
    var bottom: real

    constructor (left: real, right: real, top: real, bottom: real)
      ensures this.left == left && this.right == right && this.top == top && this.bottom == bottom
    {
      this.left, this.right, this.top, this.bottom := left, right, top, bottom;
    }

    function Frustum(): Bounds
      reads this
    {
      Bounds(left, right, top, bottom)
    }

    /** The aspect rule both visualizers apply at start-up and on every resize: the
        longer side spans the aspect, the shorter side spans [-1, 1]. */
    method FitAspect(width: nat, height: nat)
      requires width > 0 && height > 0
      modifies this
      ensures FitsAspect(Frustum(), Aspect(width, height))
    {
      var aspect := width as real / height as real;
      if aspect >= 1.0 {
        left := -1.0 * aspect;
        right := 1.0 * aspect;
        top := 1.0;
        bottom := -1.0;
      } else {
        left := -1.0;
        right := 1.0;
        top := 1.0 / aspect;
        bottom := -1.0 / aspect;
      }
      FitsAspectIff(Frustum(), aspect);
    }
  }

  /** `width / height` of a container that has a size. */
  function Aspect(width: nat, height: nat): (aspect: real)
    requires width > 0 && height > 0
    ensures aspect > 0.0
  {
    width as real / height as real
  }

  /** What the visualizers demand of the frustum for a given aspect ratio: centred on the
      view axis, with width/height equal to the aspect, and the smaller half-extent 1. */
  ghost predicate FitsAspect(b: Bounds, aspect: real) {
    b.left == -b.right && b.bottom == -b.top &&
    b.right - b.left == aspect * (b.top - b.bottom) &&
    (if b.right <= b.top then b.right == 1.0 else b.top == 1.0)
  }

  /** The frustum rule, both directions: a frustum fits the aspect exactly when it is the
      one the aspect branches in the source assign. */
  lemma FitsAspectIff(b: Bounds, aspect: real)
    requires aspect > 0.0
    ensures FitsAspect(b, aspect) <==>
      b == (if aspect >= 1.0 then Bounds(-1.0 * aspect, 1.0 * aspect, 1.0, -1.0)
            else Bounds(-1.0, 1.0, 1.0 / aspect, -1.0 / aspect))
  {
    if FitsAspect(b, aspect) {
      assert b.right == aspect * b.top;
      if aspect < 1.0 {
        assert b.right == 1.0;
      }
    }
  }

  /** Two frusta that fit the same aspect are the same frustum, so the resize handler
      reproduces the bounds set at start-up for the same container size. */
  lemma FitsAspectUnique(b1: Bounds, b2: Bounds, aspect: real)
    requires aspect > 0.0 && FitsAspect(b1, aspect) && FitsAspect(b2, aspect)
    ensures b1 == b2
  {
    FitsAspectIff(b1, aspect);
    FitsAspectIff(b2, aspect);
  }

  /** A fitting frustum always shows the square [-1,1] x [-1,1]. */
  lemma FitsAspectShowsUnitSquare(b: Bounds, aspect: real)
    requires aspect > 0.0 && FitsAspect(b, aspect)
    ensures b.left <= -1.0 && 1.0 <= b.right && b.bottom <= -1.0 && 1.0 <= b.top
  {
    FitsAspectIff(b, aspect);
    if aspect < 1.0 {
      assert 1.0 / aspect > 1.0;
    }
  }

  /** How a grid plane is turned: not at all (XZ plane), a quarter turn about x (XY plane)
      or a quarter turn about z (YZ plane). */
  datatype Tilt = Flat | QuarterTurnX | QuarterTurnZ

  /** A `GridHelper` with the material fields the code sets. */
  datatype GridHelper = GridHelper(size: real, divisions: nat, tilt: Tilt, position: Vec3,
                                   opacity: real, transparent: bool)

  /** The offset of the i-th of `numGrids` planes: `-gridSize + i * gridSpacing`. */
  function GridOffset(gridSize: real, numGrids: nat, i: nat): real
    requires numGrids > 0
  {
    -gridSize + i as real * (gridSize * 2.0 / numGrids as real)
  }

  /** The i-th plane the grid loops create, before the material pass: the first
      `numGrids` are XZ planes along y, the next XY planes along z, the last YZ planes
      along x, each group at `GridOffset`, opaque. */
  function GridPlane(gridSize: real, divisions: nat, numGrids: nat, i: nat): (g: GridHelper)
    requires numGrids > 0 && i < 3 * numGrids
    ensures g.size == gridSize * 2.0 && g.divisions == divisions && g.opacity == 1.0 && !g.transparent
    ensures g.tilt == Flat <==> i < numGrids
    ensures g.tilt == QuarterTurnZ <==> 2 * numGrids <= i
    ensures i < numGrids ==> g.position.x == 0.0 && g.position.z == 0.0
    ensures numGrids <= i < 2 * numGrids ==> g.position.x == 0.0 && g.position.y == 0.0
    ensures 2 * numGrids <= i ==> g.position.y == 0.0 && g.position.z == 0.0
  {
    if i < numGrids then
      GridHelper(gridSize * 2.0, divisions, Flat, Vec3(0.0, GridOffset(gridSize, numGrids, i), 0.0), 1.0, false)
    else if i < 2 * numGrids then
      GridHelper(gridSize * 2.0, divisions, QuarterTurnX, Vec3(0.0, 0.0, GridOffset(gridSize, numGrids, i - numGrids)), 1.0, false)
    else
      GridHelper(gridSize * 2.0, divisions, QuarterTurnZ, Vec3(GridOffset(gridSize, numGrids, i - 2 * numGrids), 0.0, 0.0), 1.0, false)
  }

  /** A plane after the material pass: 10% opaque and transparent. */
  function Translucent(g: GridHelper): (t: GridHelper)
    ensures t.opacity == 0.1 && t.transparent
    ensures t.size == g.size && t.divisions == g.divisions && t.tilt == g.tilt && t.position == g.position
  {
    g.(opacity := 0.1, transparent := true)
  }

  /** The planes of one axis group are evenly spaced, start at -gridSize and stop one
      spacing short of +gridSize. */
  lemma GridOffsetsSpread(gridSize: real, numGrids: nat, i: nat, j: nat)
    requires numGrids > 0 && gridSize > 0.0 && i < j
    ensures GridOffset(gridSize, numGrids, i) < GridOffset(gridSize, numGrids, j)
    ensures GridOffset(gridSize, numGrids, 0) == -gridSize
    ensures GridOffset(gridSize, numGrids, numGrids) == gridSize
  {
    var spacing := gridSize * 2.0 / numGrids as real;
    assert spacing > 0.0;
    assert (j - i) as real * spacing > 0.0;
    assert numGrids as real * spacing == gridSize * 2.0;
  }

  /** Every plane of a group lies within the grid's extent [-gridSize, gridSize]. */
  lemma GridOffsetWithin(gridSize: real, numGrids: nat, i: nat)
    requires numGrids > 0 && gridSize >= 0.0 && i <= numGrids
    ensures -gridSize <= GridOffset(gridSize, numGrids, i) <= gridSize
  {
    var spacing := gridSize * 2.0 / numGrids as real;
    assert spacing >= 0.0;
    assert i as real * spacing <= numGrids as real * spacing;
    assert numGrids as real * spacing == gridSize * 2.0;
  }

  /** The grid loops: `numGrids` XZ planes along y, then XY planes along z, then YZ planes
      along x, each at `GridOffset`; then every material is made 10% opaque and transparent. */
  method BuildGrids(gridSize: real, divisions: nat, numGrids: nat) returns (helpers: seq<GridHelper>)
    requires numGrids > 0
    ensures |helpers| == 3 * numGrids
    ensures forall i :: 0 <= i < 3 * numGrids ==>
      helpers[i] == Translucent(GridPlane(gridSize, divisions, numGrids, i))
  {
    var gridSpacing := (gridSize * 2.0) / numGrids as real;
    helpers := [];
    for i := 0 to numGrids
      invariant |helpers| == i
      invariant forall k :: 0 <= k < i ==> helpers[k] == GridPlane(gridSize, divisions, numGrids, k)
    {
      var y := -gridSize + i as real * gridSpacing;
      helpers := helpers + [GridHelper(gridSize * 2.0, divisions, Flat, Vec3(0.0, y, 0.0), 1.0, false)];
    }
    for i := 0 to numGrids
      invariant |helpers| == numGrids + i
      invariant forall k :: 0 <= k < numGrids + i ==> helpers[k] == GridPlane(gridSize, divisions, numGrids, k)
    {
      var z := -gridSize + i as real * gridSpacing;
      helpers := helpers + [GridHelper(gridSize * 2.0, divisions, QuarterTurnX, Vec3(0.0, 0.0, z), 1.0, false)];
    }
    for i := 0 to numGrids
      invariant |helpers| == 2 * numGrids + i
      invariant forall k :: 0 <= k < 2 * numGrids + i ==> helpers[k] == GridPlane(gridSize, divisions, numGrids, k)
    {
      var x := -gridSize + i as real * gridSpacing;
      helpers := helpers + [GridHelper(gridSize * 2.0, divisions, QuarterTurnZ, Vec3(x, 0.0, 0.0), 1.0, false)];
    }
    for k := 0 to |helpers|
      invariant |helpers| == 3 * numGrids
      invariant forall m :: 0 <= m < k ==> helpers[m] == Translucent(GridPlane(gridSize, divisions, numGrids, m))
      invariant forall m :: k <= m < |helpers| ==> helpers[m] == GridPlane(gridSize, divisions, numGrids, m)
    {
      helpers := helpers[k := Translucent(helpers[k])];
    }
  }
}
