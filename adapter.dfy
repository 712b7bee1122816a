/**
 * The GD image adapter: an image handle plus the tracked width, height and
 * file extension, updated in place by rotate, resize, crop, autorotate and
 * save.
 *
 * Each operation is specified by a pure step function from the state before to
 * the outcome and the state after; the class methods follow the PHP statement
 * by statement and are proved to perform exactly that step. The properties of
 * the adapter are lemmas about the step functions.
 *
 * Environment inputs: whether GD manages to allocate a canvas of a size it
 * accepts (`canvasOk`, false for failures such as running out of memory), whether
 * the EXIF extension is present and what orientation it reads, and which
 * `image*` encoder functions exist.
 */
module Adapter {
  import opened Outcomes
  import opened Php
  import opened Geometry
  import opened Orientation
  import opened Gd

  /** What decoding the file yields: its size and the extension of its image type. */
  datatype ImageInfo = ImageInfo(width: nat, height: nat, extension: string)

  /** The adapter's fields. */
  datatype State = State(image: Handle, width: real, height: real, extension: string)

  /** What an operation returns (success or the exception) and the fields afterwards. */
  datatype Step = Step(outcome: Outcome, state: State)

  /** An encoder invocation by `save`: the function, the target path, the image and the quality argument if any. */
  datatype SaveCall = SaveCall(encoder: string, path: string, image: Handle, quality: Option<int>)

  /** The fields right after loading a file. */
  function Loaded(info: ImageInfo): State {
    State(Resource(Decoded(info.width, info.height), true),
          info.width as real, info.height as real, info.extension)
  }

  /** The invariant every operation keeps: tracked sides are never negative. */
  predicate ValidState(s: State) {
    s.width >= 0.0 && s.height >= 0.0
  }

  /** The handle is a live image whose pixel size is the tracked size. */
  predicate Consistent(s: State) {
    Live(s.image) &&
    var (w, h) := PixelSize(s.image.raster);
    w as real == s.width && h as real == s.height
  }

  // ---------------------------------------------------------------------------
  // Steps

  /** `rotate($orientation)` for an integer code. */
  function RotateStep(s: State, code: int): Step {
    match PlanFor(code)
    case None => Step(Failure(UnknownRotation), s)
    case Some(p) =>
      var turned := if p.angle.Some? then RotateImage(s.image, p.angle.value) else NoImage;
      var image := if p.flip then FlipImage(turned) else turned;
      var (w, h) := RotatedSize(p, s.width, s.height);
      Step(Success, State(image, w, h, s.extension))
  }

  /**
   * `createImage`: a blank canvas of the truncated size, or the exception when
   * GD refuses the size (a side below 1 pixel) or cannot allocate it.
   */
  function CreateImage(width: real, height: real, canvasOk: bool): (r: Result<Handle>)
    ensures r.Ok? <==> canvasOk && Trunc(width) >= 1 && Trunc(height) >= 1
    ensures r.Fail? ==> r.error == CanvasFailed
    ensures r.Ok? ==> Live(r.value) && PixelSize(r.value.raster) == (Trunc(width), Trunc(height))
  {
    if canvasOk && CanvasSizeAllowed(width, height) then Ok(NewCanvas(width, height))
    else Fail(CanvasFailed)
  }

  /** `resizeOperation`: a new canvas, the tracked source rectangle copied onto it, and the tracked size set to the target. */
  function ResizeOperationStep(s: State, toW: real, toH: real, offsetX: int, offsetY: int, canvasOk: bool): Step {
    match CreateImage(toW, toH, canvasOk)
    case Fail(e) => Step(Failure(e), s)
    case Ok(canvas) =>
      var copied := CopyResampled(canvas, s.image, offsetX, offsetY, toW, toH, s.width, s.height);
      Step(Success, State(copied, toW, toH, s.extension))
  }

  /** `resize($width, $height)` */
  function ResizeStep(s: State, width: nat, height: nat, canvasOk: bool): Step {
    match BoundingBox(s.width, s.height, width, height)
    case Fail(e) => Step(Failure(e), s)
    case Ok(size) => ResizeOperationStep(s, size.width, size.height, 0, 0, canvasOk)
  }

  /** `crop($width, $height)`: the crop rectangle is written to the tracked size before the copy. */
  function CropStep(s: State, width: nat, height: nat, canvasOk: bool): Step {
    match CropPosition(s.width, s.height, width, height)
    case Fail(e) => Step(Failure(e), s)
    case Ok(area) =>
      ResizeOperationStep(s.(width := area.width, height := area.height),
                          width as real, height as real, area.offsetX, area.offsetY, canvasOk)
  }

  /** `autorotate()`, with the EXIF reader's presence and the Orientation entry it reads (None when absent). */
  function AutorotateStep(s: State, exifAvailable: bool, orientation: Option<int>): Step {
    if s.extension != "jpeg" || !exifAvailable then Step(Success, s)
    else if orientation.None? || orientation.value == 0 then Step(Success, s)
    else RotateStep(s, orientation.value)
  }

  /** The format `save` writes: the requested extension, or the tracked one when none is given. */
  function SaveFormat(s: State, extension: string): string {
    if extension == "" then s.extension else extension
  }

  /** `save($path, $extension)` with the set of defined encoder functions: the step and the encoder call made. */
  function SaveStep(s: State, quality: int, path: string, extension: string, encoders: set<string>): (Step, Option<SaveCall>) {
    var format := SaveFormat(s, extension);
    var encoder := "image" + format;
    if encoder !in encoders then (Step(Failure(CannotSave(format)), s), None)
    else
      var call := if format == "jpeg" then SaveCall("imagejpeg", path, s.image, Some(quality))
                  else SaveCall(encoder, path, s.image, None);
      (Step(Success, s.(image := DestroyImage(s.image))), Some(call))
  }

  // ---------------------------------------------------------------------------
  // Properties

  /** A 0x0 target is refused before any field changes. */
  lemma ZeroTargetChangesNothing(s: State, canvasOk: bool)
    ensures ResizeStep(s, 0, 0, canvasOk) == Step(Failure(ZeroResize), s)
    ensures CropStep(s, 0, 0, canvasOk) == Step(Failure(ZeroCrop), s)
  {
  }

  /** `resize` either succeeds or changes nothing: every exception is raised before the first assignment. */
  lemma ResizeFailureChangesNothing(s: State, width: nat, height: nat, canvasOk: bool)
    ensures var r := ResizeStep(s, width, height, canvasOk);
            var box := BoundingBox(s.width, s.height, width, height);
            (r.outcome.Success? <==> box.Ok? && canvasOk && CanvasSizeAllowed(box.value.width, box.value.height)) &&
            (r.outcome.Failure? ==> r.state == s)
  {
  }

  /**
   * `resize` succeeds exactly when GD accepts the `boundingBox` size; then the
   * tracked size is that size, and the new image is a fresh canvas of that
   * size holding the whole tracked source.
   */
  lemma ResizeTracksBoundingBox(s: State, width: nat, height: nat)
    requires BoundingBox(s.width, s.height, width, height).Ok?
    ensures var size := BoundingBox(s.width, s.height, width, height).value;
            var r := ResizeStep(s, width, height, true);
            var canvas := Canvas(Trunc(size.width), Trunc(size.height));
            (r.outcome == Success <==> CanvasSizeAllowed(size.width, size.height)) &&
            (r.outcome.Failure? ==> r == Step(Failure(CanvasFailed), s)) &&
            (r.outcome == Success ==>
            r.state.width == size.width && r.state.height == size.height &&
            r.state.extension == s.extension &&
            r.state.image == if Live(s.image)
              then Resource(Resampled(canvas, s.image.raster, 0, 0, Trunc(size.width), Trunc(size.height),
                                      Trunc(s.width), Trunc(s.height)), true)
              else Resource(canvas, true))
  {
  }

  /**
   * Resizing into a box with both sides given, when it succeeds, keeps the
   * proportions and fits the box, touching it on one side.
   */
  lemma ResizeFitsBox(s: State, width: nat, height: nat)
    requires s.width > 0.0 && s.height > 0.0 && width > 0 && height > 0
    ensures var step := ResizeStep(s, width, height, true);
            var r := step.state;
            step.outcome == Success ==>
            0.0 < r.width <= width as real && 0.0 < r.height <= height as real &&
            (r.width == width as real || r.height == height as real) &&
            r.width * s.height == r.height * s.width
  {
    BoundingBoxFits(s.width, s.height, width, height);
  }

  /**
   * `resizeOperation` on a size GD accepts succeeds; the pixel size then
   * agrees with the tracked size exactly when the target is integral.
   */
  lemma ResizeOperationConsistentIffIntegral(s: State, toW: real, toH: real, offsetX: int, offsetY: int)
    requires CanvasSizeAllowed(toW, toH)
    ensures var step := ResizeOperationStep(s, toW, toH, offsetX, offsetY, true);
            var r := step.state;
            step.outcome == Success &&
            r.width == toW && r.height == toH &&
            (Consistent(r) <==> IsIntegral(toW) && IsIntegral(toH))
  {
    var canvas := Canvas(Trunc(toW), Trunc(toH));
    var r := ResizeOperationStep(s, toW, toH, offsetX, offsetY, true).state;
    assert Live(r.image) && (r.image.raster.Canvas? || r.image.raster.Resampled?);
    assert r.image.raster == canvas || r.image.raster.canvas == canvas;
    assert PixelSize(r.image.raster) == (Trunc(toW), Trunc(toH));
  }

  /**
   * A resize leaves the tracked size equal to the pixel size of the new image
   * exactly when the computed size is integral; the unrounded two-sided
   * branch can make them disagree.
   */
  lemma ResizeConsistentIffIntegral(s: State, width: nat, height: nat)
    requires BoundingBox(s.width, s.height, width, height).Ok?
    requires var size := BoundingBox(s.width, s.height, width, height).value;
             CanvasSizeAllowed(size.width, size.height)
    ensures var size := BoundingBox(s.width, s.height, width, height).value;
            Consistent(ResizeStep(s, width, height, true).state) <==>
            IsIntegral(size.width) && IsIntegral(size.height)
  {
    var size := BoundingBox(s.width, s.height, width, height).value;
    assert ResizeStep(s, width, height, true) == ResizeOperationStep(s, size.width, size.height, 0, 0, true);
    ResizeOperationConsistentIffIntegral(s, size.width, size.height, 0, 0);
  }

  /** A freshly loaded 3x2 image resized into a 2x2 box tracks a height of 4/3 while its canvas is 1 pixel high. */
  lemma ResizeDesynchronisesExample()
    ensures var r := ResizeStep(Loaded(ImageInfo(3, 2, "png")), 2, 2, true).state;
            r.height == 4.0 / 3.0 && PixelSize(r.image.raster) == (2, 1) && !Consistent(r)
  {
    BoundingBoxUnroundedExample();
    var size := BoundingBox(3.0, 2.0, 2, 2).value;
    assert Trunc(size.height) == 1;
    ResizeConsistentIffIntegral(Loaded(ImageInfo(3, 2, "png")), 2, 2);
  }

  /** A crop with both sides given succeeds and ends with the raw requested size as the tracked size. */
  lemma CropTracksRawArguments(s: State, width: nat, height: nat)
    requires s.height != 0.0 && width > 0 && height > 0
    ensures var r := CropStep(s, width, height, true);
            r.outcome == Success &&
            r.state.width == width as real && r.state.height == height as real &&
            Consistent(r.state)
  {
    var area := CropPosition(s.width, s.height, width, height).value;
    var cropped := s.(width := area.width, height := area.height);
    assert CropStep(s, width, height, true) ==
           ResizeOperationStep(cropped, width as real, height as real, area.offsetX, area.offsetY, true);
    ResizeOperationConsistentIffIntegral(cropped, width as real, height as real, area.offsetX, area.offsetY);
    IntegralIsTrunc(width);
    IntegralIsTrunc(height);
  }

  /**
   * A crop with exactly one side 0 always throws: GD refuses the zero-sided
   * canvas, but the squared crop rectangle has already been written to the
   * tracked size.
   */
  lemma CropWithOneZeroSideFails(s: State, width: nat, height: nat, canvasOk: bool)
    requires s.height != 0.0 && (width == 0) != (height == 0)
    ensures var side := if width == 0 then height else width;
            var area := CropPosition(s.width, s.height, side, side);
            var r := CropStep(s, width, height, canvasOk);
            area.Ok? && CropPosition(s.width, s.height, width, height) == area &&
            r == Step(Failure(CanvasFailed), s.(width := area.value.width, height := area.value.height))
  {
    var side := if width == 0 then height else width;
    CropSquaresSingleZero(s.width, s.height, side);
    assert Trunc(0 as real) == 0;
  }

  /** With a tracked height of 0, every crop other than 0x0 throws the division by zero and changes nothing. */
  lemma CropOnZeroHeightThrows(s: State, width: nat, height: nat, canvasOk: bool)
    requires s.height == 0.0 && (width > 0 || height > 0)
    ensures CropStep(s, width, height, canvasOk) == Step(Failure(DivisionByZero), s)
  {
  }

  /**
   * A failed crop of a 1x1000 image to (1000, 1) leaves a tracked height of
   * Trunc(1/1000) = 0, after which the next crop throws the division by zero.
   */
  lemma ZeroHeightAfterFailedCropExample()
    ensures var failed := CropStep(Loaded(ImageInfo(1, 1000, "png")), 1000, 1, false);
            failed.outcome == Failure(CanvasFailed) && failed.state.width == 1.0 && failed.state.height == 0.0 &&
            CropStep(failed.state, 1, 1, true) == Step(Failure(DivisionByZero), failed.state)
  {
    assert 1.0 / 1000.0 < 1000.0 / 1.0;
    assert 1.0 / (1000.0 / 1.0) == 0.001;
    assert Trunc(0.001) == 0;
  }

  /** Cropping 4000x3000 to (100, 0) throws, leaving the tracked size at the squared 3000x3000 crop rectangle. */
  lemma CropWithZeroHeightRequestExample()
    ensures CropStep(Loaded(ImageInfo(4000, 3000, "jpeg")), 100, 0, true) ==
            Step(Failure(CanvasFailed), Loaded(ImageInfo(4000, 3000, "jpeg")).(width := 3000.0, height := 3000.0))
  {
    CropWithOneZeroSideFails(Loaded(ImageInfo(4000, 3000, "jpeg")), 100, 0, true);
    CropLandscapeExample();
  }

  /** Whenever `resize` or `crop` succeeds, both tracked sides are at least 1. */
  lemma SuccessfulResizeOrCropHasPositiveSides(s: State, width: nat, height: nat, canvasOk: bool)
    ensures var r := ResizeStep(s, width, height, canvasOk);
            r.outcome == Success ==> r.state.width >= 1.0 && r.state.height >= 1.0
    ensures var r := CropStep(s, width, height, canvasOk);
            r.outcome == Success ==> r.state.width >= 1.0 && r.state.height >= 1.0
  {
    var box := BoundingBox(s.width, s.height, width, height);
    if box.Ok? && CanvasSizeAllowed(box.value.width, box.value.height) {
      AllowedCanvasIsAtLeastOnePixel(box.value.width, box.value.height);
    }
    if CanvasSizeAllowed(width as real, height as real) {
      AllowedCanvasIsAtLeastOnePixel(width as real, height as real);
    }
  }

  /**
   * A crop copies the centred `cropPosition` rectangle of the source, which
   * lies inside the tracked source size, onto a canvas of the requested size.
   */
  lemma CropResamplesSourceRectangle(s: State, width: nat, height: nat)
    requires ValidState(s) && s.height > 0.0 && width > 0 && height > 0 && Live(s.image)
    ensures var area := CropPosition(s.width, s.height, width, height).value;
            var r := CropStep(s, width, height, true).state;
            r.image == Resource(Resampled(Canvas(width, height), s.image.raster,
                                          area.offsetX, area.offsetY, width, height,
                                          Trunc(area.width), Trunc(area.height)), true) &&
            0 <= area.offsetX && area.offsetX as real + Trunc(area.width) as real <= s.width &&
            0 <= area.offsetY && area.offsetY as real + Trunc(area.height) as real <= s.height
  {
    var area := CropPosition(s.width, s.height, width, height).value;
    var cropped := s.(width := area.width, height := area.height);
    assert CropStep(s, width, height, true) ==
           ResizeOperationStep(cropped, width as real, height as real, area.offsetX, area.offsetY, true);
    IntegralIsTrunc(width);
    IntegralIsTrunc(height);
    CropInsideSource(s.width, s.height, width, height);
    assert Trunc(area.width) as real <= area.width && Trunc(area.height) as real <= area.height;
  }

  /**
   * A crop whose canvas cannot be made (GD fails to allocate it, or one
   * requested side is 0) has already written the crop rectangle to the tracked
   * size; the image itself is untouched.
   */
  lemma CropCanvasFailureKeepsCropRectangle(s: State, width: nat, height: nat, canvasOk: bool)
    requires ValidState(s) && s.height > 0.0 && (width > 0 || height > 0)
    requires !canvasOk || width == 0 || height == 0
    ensures var area := CropPosition(s.width, s.height, width, height).value;
            var r := CropStep(s, width, height, canvasOk);
            r.outcome == Failure(CanvasFailed) &&
            r.state == s.(width := area.width, height := area.height) &&
            (r.state.width == s.width || r.state.height == s.height) &&
            r.state.width <= s.width && r.state.height <= s.height
  {
    CropInsideSource(s.width, s.height, width, height);
  }

  /** `rotate` throws exactly for codes outside 0..8, and then changes nothing. */
  lemma RotateRejectsUnknownCodes(s: State, code: int)
    ensures RotateStep(s, code).outcome.Failure? <==> code < 0 || 8 < code
    ensures RotateStep(s, code).outcome.Failure? ==> RotateStep(s, code) == Step(Failure(UnknownRotation), s)
  {
  }

  /** Codes 5 to 8 swap the tracked sides; all other accepted codes keep them. */
  lemma RotateSwapsSides(s: State, code: int)
    requires 0 <= code <= 8
    ensures var r := RotateStep(s, code).state;
            if 5 <= code then r.width == s.height && r.height == s.width
            else r.width == s.width && r.height == s.height
  {
    PlanTable(code);
  }

  /** Codes 0, 1 and 2 assign no rotated image, so the adapter is left without one; the size stays. */
  lemma RotateWithoutTurnLosesImage(s: State, code: int)
    requires 0 <= code <= 2
    ensures var r := RotateStep(s, code);
            r.outcome == Success && r.state == s.(image := NoImage)
  {
  }

  /**
   * Codes 3 to 8 replace the image by the turned (and, for 4, 5 and 7,
   * mirrored) one, whose pixel size is again the tracked size.
   */
  lemma RotateKeepsConsistency(s: State, code: int)
    requires 3 <= code <= 8 && Consistent(s)
    ensures var r := RotateStep(s, code).state;
            var p := PlanFor(code).value;
            var turned := Rotated(s.image.raster, p.angle.value);
            r.image == Resource(if p.flip then Flipped(turned) else turned, true) &&
            Consistent(r)
  {
  }

  /** Orientation 6 on a 100x200 image: a clockwise quarter turn without mirroring, reported as 200x100. */
  lemma RotateSixExample()
    ensures var r := RotateStep(Loaded(ImageInfo(100, 200, "jpeg")), 6).state;
            r.width == 200.0 && r.height == 100.0 &&
            r.image == Resource(Rotated(Decoded(100, 200), -90), true) && Consistent(r)
  {
  }

  /** Two rotations that both swap the sides, or both keep them, restore the tracked size. */
  lemma RotateTwiceRestoresSize(s: State, first: int, second: int)
    requires 0 <= first <= 8 && 0 <= second <= 8
    requires (5 <= first) == (5 <= second)
    ensures var r := RotateStep(RotateStep(s, first).state, second).state;
            r.width == s.width && r.height == s.height
  {
    RotateSwapsSides(s, first);
    RotateSwapsSides(RotateStep(s, first).state, second);
  }

  /**
   * `autorotate` changes something only for a JPEG read with the EXIF reader
   * present and a non-empty orientation, and then it is `rotate` of that code.
   */
  lemma AutorotateGating(s: State, exifAvailable: bool, orientation: Option<int>)
    ensures var r := AutorotateStep(s, exifAvailable, orientation);
            var applies := s.extension == "jpeg" && exifAvailable && orientation.Some? && orientation.value != 0;
            (applies ==> r == RotateStep(s, orientation.value)) &&
            (!applies ==> r == Step(Success, s))
  {
  }

  /**
   * For EXIF orientations 3 to 8 `autorotate` applies the correction the EXIF
   * prescribes and keeps the tracked size equal to the pixel size.
   */
  lemma AutorotateUndoesExifOrientation(s: State, orientation: int)
    requires s.extension == "jpeg" && 3 <= orientation <= 8 && Consistent(s)
    ensures var r := AutorotateStep(s, true, Some(orientation));
            var p := PlanFor(orientation).value;
            r.outcome == Success && Consistent(r.state) &&
            (p.angle.Some? ==> QuarterTurn(p.angle.value)) &&
            PlanTransform(p) == ExifCorrection(orientation)
  {
    RotateKeepsConsistency(s, orientation);
    PlanUndoesExifOrientation(orientation);
  }

  /**
   * `save` fails exactly when no encoder exists for the format; otherwise it
   * hands the current image to `image<format>` (with the quality for JPEG
   * only) and destroys it, changing nothing else.
   */
  lemma SaveReleasesImage(s: State, quality: int, path: string, extension: string, encoders: set<string>)
    ensures var (r, call) := SaveStep(s, quality, path, extension, encoders);
            var format := if extension == "" then s.extension else extension;
            (r.outcome.Success? <==> "image" + format in encoders) &&
            (r.outcome.Failure? ==> r == Step(Failure(CannotSave(format)), s) && call.None?) &&
            (r.outcome.Success? ==>
               call.Some? && call.value.encoder == "image" + format && call.value.path == path &&
               call.value.image == s.image && (call.value.quality.Some? <==> format == "jpeg") &&
               !Live(r.state.image) &&
               r.state.width == s.width && r.state.height == s.height && r.state.extension == s.extension)
  {
  }

  /**
   * Nothing is blocked after `save`: a later resize still succeeds, but it
   * copies from the destroyed image, so the result is a blank canvas.
   */
  lemma SaveDoesNotBlockResize(s: State, quality: int, path: string, extension: string, encoders: set<string>,
                               width: nat, height: nat)
    requires SaveStep(s, quality, path, extension, encoders).0.outcome.Success?
    requires BoundingBox(s.width, s.height, width, height).Ok?
    ensures var saved := SaveStep(s, quality, path, extension, encoders).0.state;
            var size := BoundingBox(s.width, s.height, width, height).value;
            var r := ResizeStep(saved, width, height, true);
            (r.outcome == Success <==> CanvasSizeAllowed(size.width, size.height)) &&
            (r.outcome == Success ==> r.state.image == NewCanvas(size.width, size.height))
  {
  }

  /** Saving twice is not blocked either: the second call hands the destroyed image to the encoder. */
  lemma SaveTwiceHandsOverDestroyedImage(s: State, quality: int, path: string, extension: string, encoders: set<string>)
    requires SaveStep(s, quality, path, extension, encoders).0.outcome.Success?
    ensures var saved := SaveStep(s, quality, path, extension, encoders).0.state;
            var (r, call) := SaveStep(saved, quality, path, extension, encoders);
            r.outcome == Success && call.Some? && !Live(call.value.image)
  {
  }

  /** A freshly loaded image is consistent. */
  lemma LoadedIsConsistent(info: ImageInfo)
    ensures ValidState(Loaded(info)) && Consistent(Loaded(info))
  {
  }

  // ---------------------------------------------------------------------------
  // The adapter object

  class GdAdapter {
    const imagepath: string
    /** The `quality` option, passed to the JPEG encoder. */
    const quality: int
    var image: Handle
    var width: real
    var height: real
    var extension: string

    function Snapshot(): State
      reads this
    {
      State(image, width, height, extension)
    }

    predicate Valid()
      reads this
    {
      ValidState(Snapshot())
    }

    /** Opening a file, given what decoding it produced. */
    constructor(imagepath: string, quality: int, info: ImageInfo)
      ensures Valid() && Snapshot() == Loaded(info)
      ensures this.imagepath == imagepath && this.quality == quality
    {
      this.imagepath := imagepath;
      this.quality := quality;
      width := info.width as real;
      height := info.height as real;
      extension := info.extension;
      image := Resource(Decoded(info.width, info.height), true);
    }

    method Rotate(code: int) returns (outcome: Outcome)
      requires Valid()
      modifies this
      ensures Valid()
      ensures Step(outcome, Snapshot()) == RotateStep(old(Snapshot()), code)
    {
      if code < 0 || code > 8 {
        return Failure(UnknownRotation);
      }
      var rotated := NoImage;  // stays undefined unless one of the branches below assigns it
      if code == 3 || code == 4 {
        rotated := RotateImage(image, 180);
      }
      if code == 5 || code == 6 {
        rotated := RotateImage(image, -90);
        width, height := height, width;
      } else if code == 7 || code == 8 {
        rotated := RotateImage(image, 90);
        width, height := height, width;
      }
      if code == 2 || code == 5 || code == 7 || code == 4 {
        rotated := FlipImage(rotated);
      }
      image := DestroyImage(image);
      image := rotated;
      outcome := Success;
    }

    method ResizeOperation(toW: real, toH: real, offsetX: int, offsetY: int, canvasOk: bool) returns (outcome: Outcome)
      requires Valid()
      modifies this
      ensures Valid()
      ensures Step(outcome, Snapshot()) == ResizeOperationStep(old(Snapshot()), toW, toH, offsetX, offsetY, canvasOk)
    {
      var created := CreateImage(toW, toH, canvasOk);
      if created.Fail? {
        return Failure(created.error);
      }
      var canvas := CopyResampled(created.value, image, offsetX, offsetY, toW, toH, width, height);
      image := DestroyImage(image);
      image := canvas;
      width := toW;
      height := toH;
      outcome := Success;
    }

    method Resize(w: nat, h: nat, canvasOk: bool) returns (outcome: Outcome)
      requires Valid()
      modifies this
      ensures Valid()
      ensures Step(outcome, Snapshot()) == ResizeStep(old(Snapshot()), w, h, canvasOk)
    {
      var box := BoundingBox(width, height, w, h);
      if box.Fail? {
        return Failure(box.error);
      }
      BoundingBoxNonNegative(width, height, w, h);
      outcome := ResizeOperation(box.value.width, box.value.height, 0, 0, canvasOk);
    }

    method Crop(w: nat, h: nat, canvasOk: bool) returns (outcome: Outcome)
      requires Valid()
      modifies this
      ensures Valid()
      ensures Step(outcome, Snapshot()) == CropStep(old(Snapshot()), w, h, canvasOk)
    {
      var area := CropPosition(width, height, w, h);
      if area.Fail? {
        return Failure(area.error);
      }
      CropInsideSource(width, height, w, h);
      width, height := area.value.width, area.value.height;
      outcome := ResizeOperation(w as real, h as real, area.value.offsetX, area.value.offsetY, canvasOk);
    }

    method Autorotate(exifAvailable: bool, orientation: Option<int>) returns (outcome: Outcome)
      requires Valid()
      modifies this
      ensures Valid()
      ensures Step(outcome, Snapshot()) == AutorotateStep(old(Snapshot()), exifAvailable, orientation)
    {
      if extension != "jpeg" || !exifAvailable {
        return Success;
      }
      if orientation.None? || orientation.value == 0 {
        return Success;
      }
      outcome := Rotate(orientation.value);
    }

    method Save(path: string, ext: string, encoders: set<string>) returns (outcome: Outcome, call: Option<SaveCall>)
      requires Valid()
      modifies this
      ensures Valid()
      ensures ((Step(outcome, Snapshot()), call)) == SaveStep(old(Snapshot()), quality, path, ext, encoders)
    {
      var format := ext;
      if format == "" {
        format := extension;
      }
      var saver := "image" + format;
      if saver !in encoders {
        return Failure(CannotSave(format)), None;
      }
      if format == "jpeg" {
        call := Some(SaveCall("imagejpeg", path, image, Some(quality)));
      } else {
        call := Some(SaveCall(saver, path, image, None));
      }
      image := DestroyImage(image);
      outcome := Success;
    }
  }
}
