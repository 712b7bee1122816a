# php-slika GD adapter in Dafny

This project models the libGD backend of the slika image library, the class
`GdAdapter` in `src/GdAdapter.php`. An adapter opens one image and tracks
three things: its GD image handle, its current width and height, and the file
extension of its type. It then changes the image in place:

- `rotate` applies an EXIF orientation code.
- `autorotate` reads that code from the file.
- `resize` fits the image into a bounding box.
- `crop` cuts a centred rectangle of the requested aspect ratio and scales it.
- `save` encodes the image and destroys the handle.

The project has six modules:

- `Outcomes` (outcomes.dfy): `Option`, `Result`, and the exceptions the adapter throws.
- `Php` (php.dfy): PHP's `round()`, `(int)` and `min()` over exact reals.
- `Geometry` (geometry.dfy): the two pure calculations, `boundingBox` and `cropPosition`, with their lemmas.
- `Orientation` (orientation.dfy): the code-to-{angle, flip, swap} table inside `rotate`. It is checked against an independent EXIF reference, with transforms written as signed axis permutations.
- `Gd` (gd.dfy): the GD calls the adapter makes, as values. A raster records how it was produced. A handle is undefined or a resource that may have been destroyed.
- `Adapter` (adapter.dfy): the adapter's fields as a `State` and one pure step function per operation. The class `GdAdapter` holds the fields, and its methods follow the PHP statement by statement. Each method is proved to perform exactly its step function. The lemmas about the step functions state what the adapter promises.

Sizes are Dafny `real`, which is exact rational arithmetic. The two-sided branch of
`boundingBox` stores unrounded floats in `width` and `height`, so the tracked
size is not always integral.

Where the code and the behaviour one might expect from the library disagree,
the model follows the code:

- `rotate` accepts code 0 as well as 1 to 8.
- Codes 0, 1 and 2 leave the adapter without an image, so `rotate(1)` is not a no-op.
- `crop` writes the crop rectangle to the tracked size before the canvas is
  allocated. A failed allocation therefore leaves that rectangle behind.
- `crop` passes the raw requested size to `resizeOperation`. With one side 0
  the crop rectangle is squared, but GD refuses the 0-sided canvas, so
  `crop(w, 0)` and `crop(0, h)` always throw. With a non-zero tracked height
  they leave the squared rectangle as the tracked size; with a tracked height
  of 0 they throw the division by zero and change nothing.
- There is no "already saved" state: after `save`, later operations and a second `save` still run.
- After a two-sided `resize` the tracked size need not equal the pixel size
  (`Adapter.ResizeDesynchronisesExample`).

## Model

| member | source | states |
|---|---|---|
| Php.Round | src/GdAdapter.php:253 | `round` gives an integer within 1/2 of its argument, and a tie goes away from zero |
| Php.Trunc | src/GdAdapter.php:300 | the `(int)` cast truncates toward zero: it lies within 1 of its argument, on the side of zero |
| Php.Min | src/GdAdapter.php:259 | `min` gives one of its arguments, and it is not above either |
| Geometry.BoundingBox | src/GdAdapter.php:245-265 | fails with the 0x0 exception exactly when both box sides are 0 |
| Geometry.BoundingBoxNonNegative | src/GdAdapter.php:251-261 | for a non-negative source, every computed size is non-negative |
| Geometry.BoundingBoxDerivesHeight | src/GdAdapter.php:251-253 | for a positive source width and a positive box width with height 0, the width is kept and the height is round(w*H/W), so the ratio holds within half a pixel |
| Geometry.BoundingBoxDerivesWidth | src/GdAdapter.php:254-256 | for a positive source height and a positive box height with width 0, the height is kept and the width is round(h*W/H), so the ratio holds within half a pixel |
| Geometry.BoundingBoxFits | src/GdAdapter.php:257-261 | for a source with positive sides and a box with both sides positive, the result is positive, fits the box, equals the box on at least one side, and has exactly the source's ratio |
| Geometry.BoundingBoxLandscapeExample | src/GdAdapter.php:251-253 | 4000x3000 into (100, 0) gives 100x75 |
| Geometry.BoundingBoxUnroundedExample | src/GdAdapter.php:257-261 | 3x2 into a 2x2 box gives 2 x 4/3: the two-sided branch does not round |
| Geometry.CropPosition | src/GdAdapter.php:278-320 | fails with the 0x0 exception exactly when both requested sides are 0 |
| Geometry.CropSizeCases | src/GdAdapter.php:293-313 | for a positive source height and a positive request, the four ratio branches reduce to one test: keep the full source width and truncate W*h/w, or keep the full height and truncate H*w/h |
| Geometry.CropSizeMatchesRatio | src/GdAdapter.php:293-313 | for a non-negative source width, a positive source height and a positive request, the crop size keeps one full source side; the other side is an integer, within the source, and the largest that does not exceed the requested ratio |
| Geometry.CropWidthLimited | src/GdAdapter.php:297-300 | for a non-negative source width and a positive source height, when the request is relatively wider than the source, the crop spans the source width and the truncated height fits the ratio |
| Geometry.CropHeightLimited | src/GdAdapter.php:301-308 | for a non-negative source width and a positive source height, when the request is not relatively wider, the crop spans the source height and the truncated width fits the ratio |
| Geometry.CropInsideSource | src/GdAdapter.php:293-319 | for a non-negative source width, a positive source height and a request other than 0x0, the rectangle and its offsets lie inside the source, and cropW = W or cropH = H |
| Geometry.CropCentred | src/GdAdapter.php:315-317 | for a non-negative source width, a positive source height and a request other than 0x0, the margin after the rectangle is the margin before it, or up to one more for an integral source side |
| Geometry.CropKeepsRequestedRatio | src/GdAdapter.php:292-313 | for a non-negative source width, a positive source height and a request with both sides set, the crop size has the requested ratio up to truncation |
| Geometry.CropSquaresSingleZero | src/GdAdapter.php:284-290 | a request with one side 0 is computed as the square of the other side |
| Geometry.CropLandscapeExample | src/GdAdapter.php:278-320 | 4000x3000 cropped for (100, 100) gives the 3000x3000 rectangle at offset (500, 0) |
| Orientation.PlanFor | src/GdAdapter.php:60-84 | a plan exists exactly for codes 0 to 8 |
| Orientation.PlanTable | src/GdAdapter.php:69-84 | codes 3 and 4 turn 180, 5 and 6 turn -90, and 7 and 8 turn 90; 0 to 2 make no new image; the flip is exactly for {2, 4, 5, 7}; the swap is exactly for 5 to 8 |
| Orientation.PlanUndoesExifOrientation | src/GdAdapter.php:69-84 | for every code 1 to 8, turning then mirroring is the correction implied by where EXIF 2.3 places the stored row 0 and column 0 for that orientation |
| Orientation.SwapIffAxesExchanged | src/GdAdapter.php:72-78 | the tracked sides swap exactly when the applied transform exchanges the axes |
| Orientation.RotatedSizeIsTransformedSize | src/GdAdapter.php:72-78 | for a non-negative size and an accepted code, the tracked size after a plan is the extent of the transformed picture |
| Orientation.SwapTwiceRestoresSize | src/GdAdapter.php:72-78 | two plans that both swap, or both do not, restore the size |
| Orientation.CorrectionsInvert | src/GdAdapter.php:69-84 | the corrections for 2, 3, 4, 5 and 7 undo themselves, and those for 6 and 8 undo each other |
| Adapter.GdAdapter.constructor | src/GdAdapter.php:20-24 | loading sets the handle and the tracked width, height and extension from the decoded file |
| Adapter.GdAdapter.Rotate | src/GdAdapter.php:58-96 | performs exactly `RotateStep`: the table's turn and flip, the swap, and the replaced handle |
| Adapter.GdAdapter.ResizeOperation | src/GdAdapter.php:331-370 | performs exactly `ResizeOperationStep`: a new canvas holding the copied source rectangle, and the tracked size set to the target |
| Adapter.GdAdapter.Resize | src/GdAdapter.php:102-107 | performs exactly `ResizeStep`: `boundingBox`, then `resizeOperation` at offset (0, 0) |
| Adapter.GdAdapter.Crop | src/GdAdapter.php:113-118 | performs exactly `CropStep`: the crop rectangle is written first, then `resizeOperation` with the raw arguments |
| Adapter.GdAdapter.Autorotate | src/GdAdapter.php:39-52 | performs exactly `AutorotateStep` |
| Adapter.GdAdapter.Save | src/GdAdapter.php:124-141 | performs exactly `SaveStep` and returns the encoder call made |
| Gd.RotateImage | src/GdAdapter.php:70-76 | `imagerotate` gives a live image exactly when its argument is a live image |
| Gd.FlipImage | src/GdAdapter.php:83 | `imageflip` leaves a live image live, and a value that is not a live image stays not live |
| Gd.DestroyImage | src/GdAdapter.php:86 | `imagedestroy` leaves a handle that is no longer a live image (also at lines 140 and 366) |
| Gd.NewCanvas | src/GdAdapter.php:192 | `imagecreatetruecolor` gives a live image; the refusal of small sizes is in `Adapter.CreateImage` |
| Gd.CopyResampled | src/GdAdapter.php:336-362 | `imagecopyresampled` or its fallback `imagecopyresized` leaves the destination live exactly when it was live; a source that is not live leaves it as it was |
| Gd.AllowedCanvasIsAtLeastOnePixel | src/GdAdapter.php:191-198 | a canvas size GD accepts has both sides at least 1 |
| Adapter.CreateImage | src/GdAdapter.php:187-199 | a canvas is made exactly when both truncated sides are at least 1 and the allocation succeeds; it is live and has the truncated size; otherwise the canvas exception |
| Adapter.ZeroTargetChangesNothing | src/GdAdapter.php:104 | `resize(0, 0)` and `crop(0, 0)` throw before any field changes |
| Adapter.ResizeFailureChangesNothing | src/GdAdapter.php:102-107 | `resize` succeeds exactly when `boundingBox` succeeds, its size truncates to at least 1x1, and the allocation succeeds; when it fails, nothing has changed |
| Adapter.ResizeTracksBoundingBox | src/GdAdapter.php:104-105 | for a box other than 0x0 and a canvas allocation that succeeds, `resize` succeeds exactly when GD accepts the `boundingBox` size, and otherwise changes nothing; on success the tracked size is that size, and the image is that canvas with the whole tracked source copied onto it when the old image is live, and a blank canvas otherwise |
| Adapter.ResizeFitsBox | src/GdAdapter.php:104-105 | for a source with positive tracked sides and the allocation input true, a resize into a box with both sides positive, when it succeeds, keeps the source's proportions, fits the box, and touches it on at least one side |
| Adapter.ResizeOperationConsistentIffIntegral | src/GdAdapter.php:333-369 | when the allocation succeeds, `resizeOperation` to a size GD accepts succeeds, and the pixel size then equals the tracked size exactly when the target is integral |
| Adapter.ResizeConsistentIffIntegral | src/GdAdapter.php:104-105 | after a `resize` to a size GD accepts, with the allocation succeeding, the pixel size equals the tracked size exactly when the `boundingBox` result is integral |
| Adapter.ResizeDesynchronisesExample | src/GdAdapter.php:257-261 | a loaded 3x2 image resized into 2x2 tracks a height of 4/3 on a 1-pixel-high canvas |
| Adapter.CropTracksRawArguments | src/GdAdapter.php:115-116 | for a non-zero tracked height and an allocation that succeeds, a crop with both sides positive succeeds, ends with exactly the requested size, and the pixel size matches it |
| Adapter.CropWithOneZeroSideFails | src/GdAdapter.php:113-118 | for a non-zero tracked height, a crop with exactly one side 0 always throws the canvas exception, whatever the allocation input, with the tracked size set to the squared `cropPosition` rectangle and the image unchanged |
| Adapter.CropOnZeroHeightThrows | src/GdAdapter.php:292-293 | with a tracked height of 0, any crop other than 0x0 throws the division by zero and changes nothing |
| Adapter.ZeroHeightAfterFailedCropExample | src/GdAdapter.php:113-118 | a failed crop of 1x1000 to (1000, 1) leaves a tracked height of 0, and the next crop then throws the division by zero |
| Adapter.CropWithZeroHeightRequestExample | src/GdAdapter.php:113-118 | cropping 4000x3000 for (100, 0) throws and leaves a tracked size of 3000x3000 |
| Adapter.SuccessfulResizeOrCropHasPositiveSides | src/GdAdapter.php:102-118 | after every successful `resize` or `crop` both tracked sides are at least 1 |
| Adapter.CropResamplesSourceRectangle | src/GdAdapter.php:115-116 | for a live image, a non-zero tracked height, both requested sides positive and an allocation that succeeds, the crop copies the (offsetX, offsetY, cropW, cropH) window of the old image onto a canvas of the requested size, and the window lies inside the old size |
| Adapter.CropCanvasFailureKeepsCropRectangle | src/GdAdapter.php:115 | for a non-zero tracked height, if the canvas cannot be made (allocation fails, or one side is 0), the crop fails with the tracked size already set to the crop rectangle and the image unchanged |
| Adapter.RotateRejectsUnknownCodes | src/GdAdapter.php:60-63 | `rotate` throws exactly for codes outside 0 to 8, and then nothing changes |
| Adapter.RotateSwapsSides | src/GdAdapter.php:72-78 | codes 5 to 8 swap the tracked sides, and 0 to 4 keep them |
| Adapter.RotateWithoutTurnLosesImage | src/GdAdapter.php:69-87 | codes 0, 1 and 2 succeed, leave the size alone, and leave the adapter without an image |
| Adapter.RotateKeepsConsistency | src/GdAdapter.php:69-87 | from a consistent state, codes 3 to 8 replace the image by the turned, possibly mirrored old image, whose pixel size is again the tracked size |
| Adapter.RotateSixExample | src/GdAdapter.php:72-74 | orientation 6 on 100x200 gives 200x100 by a -90 turn without a flip |
| Adapter.RotateTwiceRestoresSize | src/GdAdapter.php:72-78 | two rotations that both swap, or both keep, restore the tracked size |
| Adapter.AutorotateGating | src/GdAdapter.php:39-52 | `autorotate` is `rotate` of the read code for a JPEG with the EXIF reader present and a non-empty code; otherwise it does nothing |
| Adapter.AutorotateUndoesExifOrientation | src/GdAdapter.php:39-52 | for a consistent JPEG state with the EXIF reader present, orientations 3 to 8 make `autorotate` apply the EXIF correction and keep the pixel size equal to the tracked size |
| Adapter.SaveReleasesImage | src/GdAdapter.php:124-141 | `save` fails exactly when no `image<format>` encoder exists. Otherwise it passes the current image to that encoder (the quality only for jpeg) and then destroys the image, changing nothing else |
| Adapter.SaveDoesNotBlockResize | src/GdAdapter.php:124-141 | after a successful `save`, for a box other than 0x0 and an allocation that succeeds, a resize succeeds exactly when GD accepts the size, but it yields a blank canvas |
| Adapter.SaveTwiceHandsOverDestroyedImage | src/GdAdapter.php:124-141 | a second `save` also succeeds and passes the destroyed image to the encoder |
| Adapter.LoadedIsConsistent | src/GdAdapter.php:157-158 | right after loading, the tracked size is the decoded pixel size |

## Left out

- Loading (`loadImage`, `getimagesize`, `imagecreatefrom*`) is file I/O. The constructor takes the decoded width, height and extension instead, and the load failures are not modelled.
- Whether GD manages to allocate a canvas whose size it accepts is an input, `canvasOk` (memory and size limits). The refusal of a side below 1 pixel is modelled, not left to that input.
- `createImage`'s truecolor/palette choice, the GIF transparent colour and the PNG alpha flags are not modelled. The same goes for the alpha flags `rotate` sets on PNG images.
- A failed `imagerotate` (it returns false when it cannot allocate the turned image) is not modelled: `Gd.RotateImage` always succeeds on a live image, and `rotate` does not check the result either.
- Pixels are not modelled. A raster records the chain of GD calls that produced it. `imagecopyresized` (the fallback when resampling is missing or fails) is treated as copying the same rectangle.
- `exif_read_data` and the `function_exists` probes are inputs: whether the EXIF reader exists, the orientation read, and the set of encoder names. Function names are compared case-sensitively. The `(int)` cast of a non-numeric orientation string, and `empty` on such strings, are not modelled: the orientation is an integer.
- `__destruct` is not modelled: it releases the handle when PHP collects the object.
- Floating point is not modelled. Ratios, scales and the derived sides are exact rationals, so results can differ from PHP's doubles at precision edges.
- The model mixes two PHP versions. Division by a tracked side of 0 is an exception, as in PHP 8; PHP 7 would warn and continue with INF or NAN, which the exact rationals cannot represent. Conversely, a canvas side below 1 pixel follows PHP 7: `imagecreatetruecolor` and `imagecreate` return false and `createImage` throws its canvas exception, whereas PHP 8 throws a `ValueError` from the GD call itself. The state left behind is the same; only the exception differs.
- GD handles follow PHP 7 resource semantics: `imagedestroy` invalidates the handle, and calls on a destroyed or undefined image fail quietly. PHP 8's `GdImage` objects and their TypeErrors are not modelled.
- Adapter.GdAdapter.Resize: the box sides are natural numbers, so negative arguments are not modelled.
- Adapter.GdAdapter.Crop: the requested sides are natural numbers, so negative arguments are not modelled.
- Adapter.GdAdapter.Rotate: takes the code after the `(int)` cast, so casts of strings and floats are not modelled.
- The `Adapter` base class (options handling) is not part of this model. The quality option is a constructor argument.
