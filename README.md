# Colour-space visualizer: a Dafny model of its core logic

The colour-space visualizer is a web page for picking RGB colours. The page
(`src/pages/Index.tsx`) keeps a list of saved colours and draws them as points in one RGB
cube, the stand-alone `src/components/RGBCube.tsx`. The page's other two panels, meant for
an HLS double cone and an HSV cone, are still empty placeholders. The repository also holds
components that no page mounts yet:

- a second RGB cube;
- an HLS double cone and an HSV cone;
- the container these three share.

This project models and proves the logic of the page and of all these components, file by
file:

- `color.dfy` (module `Color`) holds the data: RGB triples, saved colours and the
  first-match lookup `find`. It follows `src/types/color.ts`.
- `color_controls.dfy` (module `ColorControls`) covers `src/components/ColorControls.tsx`:
  - the `#rrggbb` encoder `rgbToHex`;
  - the colour picker's base-16 parser;
  - the slider handler, which replaces one channel.
- `index_page.dfy` (module `IndexPage`) covers the page state in `src/pages/Index.tsx`.
  The state is the list of saved colours and the selected id. The class `Palette` holds
  the recolour, add and remove handlers. Functions give the derived `currentMode` and
  `currentRgb`.
- `scene.dfy` (module `Scene`) holds what the Three.js code computes with:
  - vectors;
  - an orthographic camera, with the rule that fits its frustum to the container's aspect;
  - the helper grids laid out along each axis.
- `point_sync.dfy` (module `PointSync`) covers the id-keyed point cache. Both RGB cubes
  bring it into agreement with the saved colours. The class `PointCache` holds a map from
  id to mesh, updated in place. It is specified against the function `Synced`, whose
  properties are proved as lemmas.
- `rgb_cube.dfy` (module `RgbCube`) covers the RGB cube inside the shared container
  (`src/components/ThreeJS/RGBCube.tsx`), which no page mounts yet: the current-point
  marker and the saved points.
- `standalone_rgb_cube.dfy` (module `StandaloneRgbCube`) covers the stand-alone cube
  (`src/components/RGBCube.tsx`), the one the page mounts:
  - the edge-visibility test, and the loop that splits the cube's edges into solid and
    dashed lists;
  - the resize handler and the 3 x 10 grid;
  - the current point and the saved points.
- `base_visualizer.dfy` (module `BaseVisualizer`) covers the shared container
  (`src/components/ThreeJS/BaseColorSpaceVisualizer.tsx`): its frustum at start-up and on
  resize, and its 3 x 5 grid.
- `hls_diamond.dfy` and `hsv_cone.dfy` cover `hlsToCartesian` and `hsvToCartesian`. Each
  maps hue, lightness or value, and saturation to a point in its solid. Cosine, sine and
  pi are parameters.

Three.js meshes are modelled as records:

- a position;
- a colour;
- a scale;
- an opacity.

A point mesh also carries a serial number. The serial stands for the object's identity, so
a reused mesh can be told apart from a replaced one.

## Model

| member | source | states |
|---|---|---|
| Color.Find | src/pages/Index.tsx:21 | `find` gives None exactly when no colour has the id; otherwise it gives the colour at the first index carrying it, and whatever index carries the id first is the one found |
| Color.FindUnique | src/pages/Index.tsx:21 | with unique ids, looking up any entry's id gives that very entry |
| ColorControls.HexDigit | src/components/ColorControls.tsx:28 | a digit below 16 is written as one lower-case hex character |
| ColorControls.HexValue | src/components/ColorControls.tsx:20-22 | a hex character, of either case, has a value below 16 |
| ColorControls.DigitValue | src/components/ColorControls.tsx:20-28 | reading back a written digit gives the digit |
| ColorControls.ValueDigit | src/components/ColorControls.tsx:20-28 | writing a read digit gives the lower-case form of the character read |
| ColorControls.LowerHex | src/components/ColorControls.tsx:28 | the lower-case form of a hex character is a lower-case hex character |
| ColorControls.LowerHexString | src/components/ColorControls.tsx:28 | a hex string's lower-case form has the same length and lowers each character |
| ColorControls.ParseHex | src/components/ColorControls.tsx:20-22 | `parseInt(s, 16)` of n hex digits is below 16^n |
| ColorControls.Base16 | src/components/ColorControls.tsx:28 | `n.toString(16)` is a non-empty lower-case hex string that parses back to n; it is one digit exactly when n < 16 |
| ColorControls.PadStart | src/components/ColorControls.tsx:28 | `padStart` never shortens: the result is the input when it is already as wide as asked, and exactly the width otherwise |
| ColorControls.PadStartShape | src/components/ColorControls.tsx:28 | padding keeps the input as the suffix and puts only fill characters before it |
| ColorControls.ChannelHex | src/components/ColorControls.tsx:28 | a channel in 0..255, padded to two characters, is its high nibble's digit then its low nibble's digit |
| ColorControls.RgbToHex | src/components/ColorControls.tsx:27-28 | for byte channels the result has 7 characters: `#`, then two lower-case hex digits each for r, g and b |
| ColorControls.ParsePickerValue | src/components/ColorControls.tsx:20-22 | every picker value parses to three channels in 0..255 |
| ColorControls.ParsePair | src/components/ColorControls.tsx:20-22 | a two-digit slice parses to 16 times its first digit plus its second |
| ColorControls.PickerRoundTrip | src/components/ColorControls.tsx:20-28 | parsing `rgbToHex(c)` with the picker's slices [1,3), [3,5), [5,7) gives back c, for every byte triple c |
| ColorControls.ChannelRoundTrip | src/components/ColorControls.tsx:20-28 | a channel's two-digit form parses back to the channel |
| ColorControls.ReencodeIsLowerCase | src/components/ColorControls.tsx:20-28 | re-encoding a parsed `#` + six hex digits gives `#` + the six digits in lower case |
| ColorControls.PairReencodes | src/components/ColorControls.tsx:20-28 | a parsed two-digit code is at most 255, and padding it back gives the code in lower case |
| ColorControls.HandleSliderChange | src/components/ColorControls.tsx:11-15 | the new triple takes `value[0]` at the slider's index and keeps the other channels; byte channels stay byte channels |
| IndexPage.Recolor | src/pages/Index.tsx:26-31 | same length, ids and kinds at every index; only entries with the selected id and kind point take the new value |
| IndexPage.RemoveId | src/pages/Index.tsx:50 | no entry with the id is left and the result is no longer |
| IndexPage.RemoveIdMembers | src/pages/Index.tsx:50 | an entry survives exactly when it was saved and its id is not the removed one |
| IndexPage.CurrentMode | src/pages/Index.tsx:21-22 | the mode is the type of the first colour carrying the selected id, and "point" when no colour has it |
| IndexPage.CurrentRgb | src/pages/Index.tsx:60-61 | the value of the first colour carrying the selected id when it is a point; grey (127,127,127) when that colour is a volume or no colour has the id; byte channels when all saved values are |
| IndexPage.CurrentOfSelected | src/pages/Index.tsx:21-61 | with unique ids, the page shows the selected colour's type, and its value when it is a point |
| IndexPage.RecolorKeepsIds | src/pages/Index.tsx:26-31 | recolouring keeps the set of ids, their uniqueness and a held selection |
| IndexPage.ColorChangeShown | src/pages/Index.tsx:24-61 | after recolouring a selected point, `currentRgb` is the new value and the mode is point |
| IndexPage.RecolorIdempotent | src/pages/Index.tsx:26-31 | recolouring twice with one value equals recolouring once |
| IndexPage.RemoveIdAppend | src/pages/Index.tsx:50 | the filter distributes over concatenation, so the survivors keep their order |
| IndexPage.RemoveAbsentId | src/pages/Index.tsx:50 | removing an id no colour carries leaves the list unchanged |
| IndexPage.RemoveKeepsUnique | src/pages/Index.tsx:50 | from unique ids, removal drops at most one entry and keeps ids unique |
| IndexPage.SelectionAfterRemove | src/pages/Index.tsx:51-53 | removing the selected id while colours remain selects the first survivor, which is saved; otherwise the selection stays |
| IndexPage.Palette.constructor | src/pages/Index.tsx:11-18 | the initial state is one grey point "initial", selected |
| IndexPage.Palette.SelectedColor | src/pages/Index.tsx:21 | `selectedColor` is the first saved colour with the selected id, and is absent exactly when none has it |
| IndexPage.Palette.ChangeColor | src/pages/Index.tsx:24-35 | the list becomes its recolouring and the selection stays; the page shows the new value for a selected point |
| IndexPage.Palette.AddNewPoint | src/pages/Index.tsx:37-45 | exactly one grey point is appended and selected; with a fresh id the page shows grey and the state stays valid |
| IndexPage.Palette.RemoveColor | src/pages/Index.tsx:47-58 | the list becomes the filter; a removed selection moves to the first survivor when one exists; unique ids and a held selection are kept |
| IndexPage.Palette.Select | src/pages/Index.tsx:82 | selecting changes only the selection; selecting a saved id keeps the state valid |
| Scene.Abs | src/components/RGBCube.tsx:110-112 | `Math.abs` is non-negative and equals x or -x |
| Scene.OrthoCamera.constructor | src/components/ThreeJS/BaseColorSpaceVisualizer.tsx:59 | a camera starts with the given frustum bounds |
| Scene.OrthoCamera.FitAspect | src/components/ThreeJS/BaseColorSpaceVisualizer.tsx:62-73 | after the aspect branches, the frustum fits the container's aspect |
| Scene.Aspect | src/components/ThreeJS/BaseColorSpaceVisualizer.tsx:62 | a container with a size has a positive aspect |
| Scene.FitsAspect | src/components/ThreeJS/BaseColorSpaceVisualizer.tsx:62-73 | the frustum demanded for an aspect: centred, width/height equal to the aspect, smaller half-extent 1; `FitsAspectIff` ties it to the source's two branches |
| Scene.FitsAspectIff | src/components/RGBCube.tsx:305-317 | a frustum fits the aspect exactly when it is (left, right, top, bottom) = (-a, a, 1, -1) for a >= 1, or (-1, 1, 1/a, -1/a) otherwise |
| Scene.FitsAspectUnique | src/components/ThreeJS/BaseColorSpaceVisualizer.tsx:127-139 | two frusta fitting one aspect are equal, so resizing to the start-up size reproduces the start-up bounds |
| Scene.FitsAspectShowsUnitSquare | src/components/ThreeJS/BaseColorSpaceVisualizer.tsx:63-72 | a fitting frustum contains [-1,1] x [-1,1] |
| Scene.GridOffsetsSpread | src/components/ThreeJS/BaseColorSpaceVisualizer.tsx:198-203 | offsets strictly increase with the index, start at -gridSize and reach +gridSize after numGrids steps |
| Scene.GridOffset | src/components/ThreeJS/BaseColorSpaceVisualizer.tsx:198-222 | the i-th plane's offset `-gridSize + i * gridSpacing`; its spread and extent are stated by `GridOffsetsSpread` and `GridOffsetWithin` |
| Scene.GridOffsetWithin | src/components/ThreeJS/BaseColorSpaceVisualizer.tsx:198-222 | the offsets of planes 0..numGrids lie within [-gridSize, gridSize] |
| Scene.GridPlane | src/components/ThreeJS/BaseColorSpaceVisualizer.tsx:201-227 | the i-th plane the loops push: size twice gridSize, the given divisions, opaque; flat in the first group, turned about z in the last; off-axis coordinates zero |
| Scene.Translucent | src/components/ThreeJS/BaseColorSpaceVisualizer.tsx:230-242 | the material pass makes a plane 10% opaque and transparent and changes nothing else |
| Scene.BuildGrids | src/components/RGBCube.tsx:206-253 | 3 x numGrids planes: XZ planes along y, then XY planes along z, then YZ planes along x, each at its offset and 10% opaque and transparent |
| PointSync.Normalized | src/components/ThreeJS/RGBCube.tsx:133 | each coordinate times 255 is the channel; byte channels give a point in the unit cube |
| PointSync.SavedPointLook | src/components/ThreeJS/RGBCube.tsx:148-158 | position and colour are rgb/255; scale 1.5 and opacity 1 exactly when selected, otherwise 1 and 0.7 |
| PointSync.Placed | src/components/ThreeJS/RGBCube.tsx:103-112 | the marker moves to rgb/255 and is coloured so, keeping its scale and opacity |
| PointSync.Pruned | src/components/ThreeJS/RGBCube.tsx:121-126 | an entry survives exactly when some saved colour has its id, and it survives unchanged |
| PointSync.Paint | src/components/ThreeJS/RGBCube.tsx:130-158 | one `forEach` step on the map's view: a point's id is (re)drawn with its look, a volume is skipped; its effect is stated by `PaintEffect` |
| PointSync.PaintEffect | src/components/ThreeJS/RGBCube.tsx:130-158 | a step adds the point's id with its selected or unselected look and leaves every other entry; a volume changes nothing |
| PointSync.Painted | src/components/ThreeJS/RGBCube.tsx:129-159 | the `forEach` over the colours in order never drops an entry |
| PointSync.Synced | src/components/ThreeJS/RGBCube.tsx:116-160 | the whole effect, the reference both cube classes are proved against: no key survives without a saved colour |
| PointSync.PaintedKeys | src/components/ThreeJS/RGBCube.tsx:129-146 | after painting, the keys are the old keys plus every point id |
| PointSync.PaintedKeepsOthers | src/components/ThreeJS/RGBCube.tsx:130 | an entry whose id names no point is left as it was |
| PointSync.PaintedLooks | src/components/ThreeJS/RGBCube.tsx:148-158 | a point's entry has the look of its last occurrence |
| PointSync.SyncedKeys | src/components/ThreeJS/RGBCube.tsx:121-146 | after reconciliation, no key lacks a saved colour, and every point id has an entry |
| PointSync.SyncedLooks | src/components/ThreeJS/RGBCube.tsx:133-158 | each point's entry sits at its rgb/255, with the selected or unselected scale and opacity |
| PointSync.UniqueLastPoint | src/components/ThreeJS/RGBCube.tsx:129-159 | with unique ids, every point is its id's last occurrence |
| PointSync.SyncedInUnitCube | src/components/ThreeJS/RGBCube.tsx:129-150 | with byte channels, every point's position is in [0,1]^3 |
| PointSync.SyncedIdempotent | src/components/ThreeJS/RGBCube.tsx:116-160 | reconciling again with the same inputs changes nothing |
| PointSync.LastPointIndex | src/components/ThreeJS/RGBCube.tsx:129-159 | every point id has a last occurrence in the list |
| PointSync.PointCache.constructor | src/components/ThreeJS/RGBCube.tsx:80 | the cache starts as an empty map |
| PointSync.PointCache.RemoveStale | src/components/ThreeJS/RGBCube.tsx:121-126 | the loop deletes exactly the entries whose id no saved colour has |
| PointSync.PointCache.PaintOne | src/components/ThreeJS/RGBCube.tsx:130-158 | one `forEach` step: an existing mesh is reused, a missing one is created with a new serial, and the look is set |
| PointSync.PointCache.PaintPoints | src/components/ThreeJS/RGBCube.tsx:129-159 | the loop paints every colour in order; kept meshes keep their serial; new ones get serials never used before |
| PointSync.PointCache.Sync | src/components/ThreeJS/RGBCube.tsx:116-160 | the map's view becomes `Synced` of the old view; surviving meshes are the same objects |
| RgbCube.RgbCubeContent.constructor | src/components/ThreeJS/RGBCube.tsx:65-84 | an empty point map and a black, 70% opaque current point at the origin |
| RgbCube.RgbCubeContent.UpdateCurrentPoint | src/components/ThreeJS/RGBCube.tsx:101-113 | the marker is placed at rgb/255 and lies in the unit cube for byte channels |
| RgbCube.RgbCubeContent.UpdateSavedPoints | src/components/ThreeJS/RGBCube.tsx:116-160 | the map is reconciled; existing meshes are reused, and new meshes are distinct from every old one |
| StandaloneRgbCube.FixedBelow | src/components/RGBCube.tsx:109-116 | the fixed indices are exactly the coordinates where the endpoints differ by less than 0.0001, in increasing order |
| StandaloneRgbCube.FaceNormal | src/components/RGBCube.tsx:122-124 | the normal lies on the fixed axis only, -1 when that coordinate is 0, otherwise +1 |
| StandaloneRgbCube.EdgeVisible | src/components/RGBCube.tsx:96-132 | the visibility the source computes: some fixed index's face looks toward the camera; read axis by axis in `EdgeVisibleOnFixedAxis` |
| StandaloneRgbCube.EdgeVisibleOnFixedAxis | src/components/RGBCube.tsx:96-132 | an edge is visible exactly when some fixed coordinate's face normal has a positive dot product with camera minus midpoint |
| StandaloneRgbCube.IsEdgeVisible | src/components/RGBCube.tsx:96-132 | the two loops compute exactly that visibility |
| StandaloneRgbCube.CornerCoordinate | src/components/RGBCube.tsx:78-79 | a corner of the unit cube has every coordinate 0 or 1 |
| StandaloneRgbCube.CubeEdgeHasTwoFixed | src/components/RGBCube.tsx:117-118 | an axis-aligned edge of the unit cube has exactly 2 fixed indices |
| StandaloneRgbCube.FacesCameraBeyondCorner | src/components/RGBCube.tsx:119-130 | on a shared corner coordinate, the face looks toward a camera beyond (1,1,1) exactly when that coordinate is 1 |
| StandaloneRgbCube.CubeEdgeVisibleFromOutside | src/components/RGBCube.tsx:96-132 | from a camera beyond (1,1,1), an edge is solid exactly when it lies on a face at coordinate 1, so the dashed edges are the three at black |
| StandaloneRgbCube.Selected | src/components/RGBCube.tsx:135-154 | a list chosen from the first n edges holds at most their 6n numbers |
| StandaloneRgbCube.SelectedSplitsAll | src/components/RGBCube.tsx:135-154 | every edge lands in exactly one list, so the lengths sum to `positions.length` |
| StandaloneRgbCube.SelectedAllPass | src/components/RGBCube.tsx:135-154 | when every edge passes the test, the passing list is the input in its order |
| StandaloneRgbCube.SelectedNoneFail | src/components/RGBCube.tsx:135-154 | when every edge passes the test, the failing list is empty |
| StandaloneRgbCube.CreateEdgeGeometries | src/components/RGBCube.tsx:87-166 | the loop builds exactly the two selections and their lengths sum to the input's |
| StandaloneRgbCube.StandaloneGridOffsets | src/components/RGBCube.tsx:206-214 | with size 2.5 and 10 grids the planes sit at -2.5 + 0.5 i |
| StandaloneRgbCube.StandaloneCube.Setup | src/components/RGBCube.tsx:56-321 | the camera fits the aspect; the edges are split for (2.5, 2.5, 5); the marker is black and 70% opaque; 30 planes sit at -2.5 + 0.5 i on each axis, 10% opaque |
| StandaloneRgbCube.StandaloneCube.RefreshEdges | src/components/RGBCube.tsx:285-293 | the animation loop re-splits the edges for the camera's position and changes nothing else |
| StandaloneRgbCube.StandaloneCube.HandleResize | src/components/RGBCube.tsx:301-321 | the frustum fits the new aspect |
| StandaloneRgbCube.StandaloneCube.UpdateCurrentPoint | src/components/RGBCube.tsx:379-391 | the marker is placed at rgb/255 and lies in the unit cube for byte channels |
| StandaloneRgbCube.StandaloneCube.UpdateSavedPoints | src/components/RGBCube.tsx:394-438 | the point map is reconciled as in the other cube: surviving meshes are reused, and every new mesh differs from every old one |
| BaseVisualizer.CreateGridSystem | src/components/ThreeJS/BaseColorSpaceVisualizer.tsx:194-245 | 15 planes, 5 wide with 5 divisions; on each axis they sit at -2.5 + i for i in 0..4; all are 10% opaque and transparent |
| BaseVisualizer.ColorSpaceContainer.Setup | src/components/ThreeJS/BaseColorSpaceVisualizer.tsx:49-143 | after start-up and the first resize, the frustum fits the aspect and the 15 grid planes are those of `createGridSystem`: 5 wide with 5 divisions, at -2.5 + i on each axis, 10% opaque and transparent |
| BaseVisualizer.ColorSpaceContainer.HandleResize | src/components/ThreeJS/BaseColorSpaceVisualizer.tsx:123-143 | the frustum fits the new aspect |
| HlsDiamond.AngleDegrees | src/components/ThreeJS/HLSDiamond.tsx:288-291 | for hue in [0,1] the angle lies in [-90, 270] degrees |
| HlsDiamond.Height | src/components/ThreeJS/HLSDiamond.tsx:294-295 | the height is the lightness, within [0,1] for lightness in [0,1] |
| HlsDiamond.EffectiveSaturation | src/components/ThreeJS/HLSDiamond.tsx:300 | effective saturation lies in [0, s]; it is 0 at both tips and for greys |
| HlsDiamond.Radius | src/components/ThreeJS/HLSDiamond.tsx:302-304 | the radius lies in [0, 0.62]; it is 0 at both tips and for greys |
| HlsDiamond.HlsToCartesian | src/components/ThreeJS/HLSDiamond.tsx:282-311 | the point's height is the lightness |
| HlsDiamond.HueDirections | src/components/ThreeJS/HLSDiamond.tsx:276-292 | the angle falls 360 degrees per unit of hue: red 270, yellow 210, green 150, cyan 90, blue 30, magenta -30 |
| HlsDiamond.RadiusSymmetricAndWidestAtMiddle | src/components/ThreeJS/HLSDiamond.tsx:300-304 | radius(l) = radius(1 - l), the largest radius is 0.62 s and it is reached at l = 0.5 |
| HlsDiamond.GreysOnAxis | src/components/ThreeJS/HLSDiamond.tsx:298-308 | tips and greys map to (0.5, l, 0.5), whatever the hue |
| HlsDiamond.OnRadiusCircle | src/components/ThreeJS/HLSDiamond.tsx:304-308 | with cos^2 + sin^2 = 1, the point lies at the radius from the axis |
| HsvCone.Angle | src/components/ThreeJS/HSVCone.tsx:284 | for hue in [0,1] the angle lies in [-2 pi - pi/6, -pi/6] |
| HsvCone.Height | src/components/ThreeJS/HSVCone.tsx:286-287 | the height is v - 0.2, within [-0.2, 0.8] for v in [0,1] |
| HsvCone.Radius | src/components/ThreeJS/HSVCone.tsx:289-291 | the radius lies in [0, 0.62]; it is 0 for black and for greys |
| HsvCone.HsvToCartesian | src/components/ThreeJS/HSVCone.tsx:278-298 | the point's height is v - 0.2 |
| HsvCone.AngleAffine | src/components/ThreeJS/HSVCone.tsx:284 | the angle is affine in hue, -2 pi per unit, starting from -pi/6 |
| HsvCone.RadiusGrowsWithValue | src/components/ThreeJS/HSVCone.tsx:291 | for fixed s >= 0 the radius never shrinks as value grows |
| HsvCone.GreysOnAxis | src/components/ThreeJS/HSVCone.tsx:289-295 | greys lie on the axis, and black is the tip (0.5, -0.2, 0.5) |
| HsvCone.OnRadiusCircle | src/components/ThreeJS/HSVCone.tsx:291-295 | with cos^2 + sin^2 = 1, the point lies at the radius from the axis |

## Left out

- The RGB to HLS and RGB to HSV conversions and the hue memory live in `@/lib/color-utils`, which is not part of this model. So are the HLS and HSV saved-point effects built on them. Colour interpolation and duplication are not implemented in the modelled files.
- Three.js and React machinery is abstracted away:
  - scene, geometry and material construction; `EdgesGeometry` and `dispose`;
  - the renderer and the orbit controls;
  - `requestAnimationFrame`;
  - the resize observer and window listeners;
  - effect scheduling and clean-up;
  - `cloneElement`.
- Meshes are records. Adding them to and removing them from the scene is not modelled; only the point map is. The near and far planes, camera position and zoom, and the view-reset effect are not modelled either.
- The grid-visibility effects (`showGrid`) and the label sprites are not modelled, because they only toggle or draw.
- `cos`, `sin` and pi are parameters, and all arithmetic is exact real arithmetic. Floating-point rounding is not modelled.
- `Date.now()` ids: `IndexPage.Palette.AddNewPoint` takes the new id from its caller. Its "shows grey" and "stays valid" promises need that id to be fresh, and two clicks in the same millisecond would break that.
- `ColorControls.ParsePickerValue` requires a `#` and six hex digits, which is what a colour input delivers. The NaN that `parseInt` gives for malformed text is not modelled.
- RGB channels are integers; slider steps of 1 keep them so. `ColorControls.RgbToHex` states its 7-character form only for channels in 0..255, because `toString(16)` of fractional values is not modelled.
- Container width and height must be positive (`Scene.Aspect`). A zero-height container gives an infinite aspect in the source, and a zero-width one gives aspect 0, so that the resize branch's `1 / aspect` makes top and bottom infinite. Neither case is modelled.
- `PointSync.PointCache.RemoveStale` visits the map's keys in an unspecified order. `Map` iterates in insertion order, but the outcome does not depend on the order.
- The `interpolated` field of a saved point is not modelled, since no handler reads it and the page's literals omit it. The `volume` colour kind is kept only as a tag.
- The grid materials' array branch is not modelled, because a `GridHelper` has a single material.
- The effects' early return before set-up (`if (!sceneRef.current) return`) is not modelled: the classes exist only after set-up.
- The remove button's guard in `src/components/SavedColorsList.tsx` (at least two colours) is not a precondition. `IndexPage.Palette.RemoveColor` handles the empty remainder as the page does.
