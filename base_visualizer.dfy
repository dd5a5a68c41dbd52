/** The container shared by the HLS and HSV solids and the embedded RGB cube
    (src/components/ThreeJS/BaseColorSpaceVisualizer.tsx): its camera frustum, kept fitted
    to the container, and its five-per-axis grid. */
module BaseVisualizer {
  import opened Scene

  /** `createGridSystem`: five planes per axis, 5 units wide with 5 divisions, one unit
      apart from -2.5, all 10% opaque and transparent. */
  method CreateGridSystem() returns (helpers: seq<GridHelper>)
    ensures |helpers| == 15
    ensures forall i :: 0 <= i < 15 ==> helpers[i] == Translucent(GridPlane(2.5, 5, 5, i))
    ensures forall i :: 0 <= i < 15 ==>
      helpers[i].size == 5.0 && helpers[i].divisions == 5 &&
      helpers[i].opacity == 0.1 && helpers[i].transparent
    ensures forall i :: 0 <= i < 5 ==>
      helpers[i].tilt == Flat && helpers[i].position == Vec3(0.0, -2.5 + i as real, 0.0)
    ensures forall i :: 5 <= i < 10 ==>
      helpers[i].tilt == QuarterTurnX && helpers[i].position == Vec3(0.0, 0.0, -2.5 + (i - 5) as real)
    ensures forall i :: 10 <= i < 15 ==>
      helpers[i].tilt == QuarterTurnZ && helpers[i].position == Vec3(-2.5 + (i - 10) as real, 0.0, 0.0)
  {
    helpers := BuildGrids(2.5, 5, 5);
    forall i | 0 <= i < 15
      ensures helpers[i].size == 5.0 && helpers[i].divisions == 5
      ensures helpers[i].opacity == 0.1 && helpers[i].transparent
      ensures i < 5 ==> helpers[i].tilt == Flat && helpers[i].position == Vec3(0.0, -2.5 + i as real, 0.0)
      ensures 5 <= i < 10 ==>
        helpers[i].tilt == QuarterTurnX && helpers[i].position == Vec3(0.0, 0.0, -2.5 + (i - 5) as real)
      ensures 10 <= i ==>
        helpers[i].tilt == QuarterTurnZ && helpers[i].position == Vec3(-2.5 + (i - 10) as real, 0.0, 0.0)
    {
      var k := if i < 5 then i else if i < 10 then i - 5 else i - 10;
      assert GridOffset(2.5, 5, k) == -2.5 + k as real;
    }
  }

  /** The container once its set-up effect and first resize have run. */
  class ColorSpaceContainer {
    const camera: OrthoCamera
    var gridHelpers: seq<GridHelper>

    /** Set-up: a camera fitted to the container's aspect, the grid, then the first resize
        (which, by `FitsAspectUnique`, leaves the fitted frustum as it was). */
    constructor Setup(width: nat, height: nat)
      requires width > 0 && height > 0
      ensures fresh(camera)
      ensures FitsAspect(camera.Frustum(), Aspect(width, height))
      ensures |gridHelpers| == 15
      ensures forall i :: 0 <= i < 15 ==> gridHelpers[i] == Translucent(GridPlane(2.5, 5, 5, i))
      ensures forall i :: 0 <= i < 15 ==>
        gridHelpers[i].size == 5.0 && gridHelpers[i].divisions == 5 &&
        gridHelpers[i].opacity == 0.1 && gridHelpers[i].transparent
      ensures forall i :: 0 <= i < 5 ==>
        gridHelpers[i].tilt == Flat && gridHelpers[i].position == Vec3(0.0, -2.5 + i as real, 0.0)
      ensures forall i :: 5 <= i < 10 ==>
        gridHelpers[i].tilt == QuarterTurnX && gridHelpers[i].position == Vec3(0.0, 0.0, -2.5 + (i - 5) as real)
      ensures forall i :: 10 <= i < 15 ==>
        gridHelpers[i].tilt == QuarterTurnZ && gridHelpers[i].position == Vec3(-2.5 + (i - 10) as real, 0.0, 0.0)
    {
      var c := new OrthoCamera(-1.0, 1.0, 1.0, -1.0);
      c.FitAspect(width, height);
      camera := c;
      var grids := CreateGridSystem();
      gridHelpers := grids;
      new;
      HandleResize(width, height);
    }

    /** `handleResize`: fit the frustum to the container's new aspect ratio; the grid is
        left alone. */
    method HandleResize(width: nat, height: nat)
      requires width > 0 && height > 0
      modifies camera
      ensures FitsAspect(camera.Frustum(), Aspect(width, height))
    {
      camera.FitAspect(width, height);
    }
  }
}
