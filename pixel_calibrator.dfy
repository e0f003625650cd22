/**
 * The pixel calibrator: for each image of a directory the user switches on
 * "define" mode, clicks two points on a known distance, and "Save & Next"
 * records the pixel distance between them and moves to the next readable
 * image. The spreadsheet is rewritten with all results after every save.
 */
module PixelCalibratorTool {
  import opened Wrappers
  import opened Geometry
  import opened FileNames

  /** One spreadsheet row: the image's file name and the measured distance in pixels. */
  datatype DistanceRow = DistanceRow(filename: string, distance: real)

  /** A button press: over the image axes or elsewhere (a button, outside), and where. */
  datatype MouseEvent = MouseEvent(inAxes: bool, at: Point)

  /** Lower-cased names must end with one of these; only png carries the dot. */
  const Extensions: seq<string> := [".png", "jpg", "jpeg", "bmp", "tiff", "tif"]

  /**
   * The constructor's checks: a missing directory and a directory without
   * images are both FileNotFoundError; otherwise the matching names, sorted.
   */
  function Discover(directoryExists: bool, listing: seq<string>): (r: Result<seq<string>, string>)
    ensures !directoryExists ==> r.Err?
    ensures directoryExists ==> (r.Err? <==> forall x :: x in listing ==> !EndsWithAny(Lower(x), Extensions))
    ensures r.Ok? ==> r.value != [] && Sorted(r.value) && r.value == Sort(FilterEndsWith(listing, Extensions))
    ensures r.Ok? ==> forall x :: x in r.value <==> x in listing && EndsWithAny(Lower(x), Extensions)
  {
    if !directoryExists then Err("The specified image directory does not exist")
    else
      var files := Sort(FilterEndsWith(listing, Extensions));
      SortKeepsNames(FilterEndsWith(listing, Extensions));
      if files == [] then Err("No images found in the directory")
      else
        assert files[0] in FilterEndsWith(listing, Extensions);
        Ok(files)
  }

  /** Without the dot, a name that merely ends in the letters is taken for an image. */
  lemma DotlessExtensionsMatch()
    ensures EndsWithAny(Lower("notajpg"), Extensions) && EndsWithAny(Lower("motif"), Extensions)
    ensures !EndsWithAny(Lower("notapng"), Extensions)
  {
    assert Lower("notajpg") == "notajpg";
    assert EndsWith("notajpg", Extensions[1]);
    assert Lower("motif") == "motif";
    assert EndsWith("motif", Extensions[5]);
    assert Lower("notapng") == "notapng";
    assert forall i :: 0 <= i < |Extensions| ==> !EndsWith("notapng", Extensions[i]);
  }

  /** The first readable position at or after i, or the end of the list. */
  function NextReadable(files: seq<string>, readable: string -> bool, i: nat): (j: nat)
    decreases |files| - i
    ensures i <= j && (i <= |files| ==> j <= |files|)
    ensures j < |files| ==> readable(files[j])
    ensures forall k :: i <= k < j && k < |files| ==> !readable(files[k])
  {
    if i >= |files| then i
    else if readable(files[i]) then i
    else NextReadable(files, readable, i + 1)
  }

  class PixelCalibrator {
    const imageFiles: seq<string>
    /** Which images cv2.imread can read. */
    const readable: string -> bool
    /** The square root that numpy's norm uses. */
    const sqrt: real -> real
    var currentImageIndex: nat
    var points: seq<Point>
    var definePointActive: bool
    var distanceResults: seq<DistanceRow>
    var closed: bool
    /** The index of the image each result was saved for, and every spreadsheet written. */
    ghost var savedIndices: seq<nat>
    ghost var excelWrites: seq<seq<DistanceRow>>

    ghost predicate Valid()
      reads this
    {
      |points| <= 2 && currentImageIndex <= |imageFiles|
      && (closed <==> currentImageIndex == |imageFiles|)
      && |savedIndices| == |distanceResults|
      && (forall k :: 0 <= k < |savedIndices| ==>
            savedIndices[k] < currentImageIndex && distanceResults[k].filename == imageFiles[savedIndices[k]])
      && (forall j, k :: 0 <= j < k < |savedIndices| ==> savedIndices[j] < savedIndices[k])
    }

    /**
     * __init__ once its checks have passed: a missing directory or one without
     * images raises before any state exists (see Discover).
     */
    constructor(directoryExists: bool, listing: seq<string>, readable: string -> bool, sqrt: real -> real)
      requires Discover(directoryExists, listing).Ok?
      ensures Valid() && !closed
      ensures imageFiles == Discover(directoryExists, listing).value
      ensures this.readable == readable && this.sqrt == sqrt
      ensures currentImageIndex == 0 && points == [] && !definePointActive && distanceResults == []
      ensures savedIndices == [] && excelWrites == []
    {
      imageFiles := Discover(directoryExists, listing).value;
      this.readable := readable;
      this.sqrt := sqrt;
      currentImageIndex := 0;
      points := [];
      definePointActive := false;
      distanceResults := [];
      closed := false;
      savedIndices := [];
      excelWrites := [];
    }

    /**
     * _load_next_image: unreadable files are skipped one by one; past the
     * last file the window closes; a readable file starts afresh with no
     * points and define mode off.
     */
    method LoadNextImage()
      requires Valid()
      modifies this
      decreases |imageFiles| - currentImageIndex
      ensures Valid()
      ensures currentImageIndex == NextReadable(imageFiles, readable, old(currentImageIndex))
      ensures closed <==> currentImageIndex == |imageFiles|
      ensures !closed ==> points == [] && !definePointActive
      ensures closed ==> points == old(points) && definePointActive == old(definePointActive)
      ensures distanceResults == old(distanceResults) && savedIndices == old(savedIndices)
      ensures excelWrites == old(excelWrites)
    {
      if currentImageIndex >= |imageFiles| {
        closed := true;
        return;
      }
      var filename := imageFiles[currentImageIndex];
      if !readable(filename) {
        currentImageIndex := currentImageIndex + 1;
        closed := currentImageIndex == |imageFiles|;
        LoadNextImage();
        return;
      }
      points := [];
      definePointActive := false;
    }

    /** _on_click: a point only in define mode, over the image, while fewer than two are set. */
    method OnClick(e: MouseEvent)
      requires Valid() && !closed
      modifies this
      ensures Valid() && !closed
      ensures definePointActive && e.inAxes && |old(points)| < 2 ==> points == old(points) + [e.at]
      ensures !(definePointActive && e.inAxes && |old(points)| < 2) ==> points == old(points)
      ensures currentImageIndex == old(currentImageIndex) && definePointActive == old(definePointActive)
      ensures distanceResults == old(distanceResults) && savedIndices == old(savedIndices)
      ensures excelWrites == old(excelWrites)
    {
      if !definePointActive || !e.inAxes || |points| >= 2 {
        return;
      }
      points := points + [e.at];
    }

    /** _activate_define_mode */
    method ActivateDefineMode()
      requires Valid() && !closed
      modifies this
      ensures Valid() && !closed
      ensures definePointActive && points == []
      ensures currentImageIndex == old(currentImageIndex)
      ensures distanceResults == old(distanceResults) && savedIndices == old(savedIndices)
      ensures excelWrites == old(excelWrites)
    {
      definePointActive := true;
      points := [];
    }

    /** _save_to_excel: nothing to write when there are no results; a failed write is reported and ignored. */
    method SaveToExcel(writable: bool)
      modifies this
      ensures distanceResults != [] && writable ==> excelWrites == old(excelWrites) + [distanceResults]
      ensures distanceResults == [] || !writable ==> excelWrites == old(excelWrites)
      ensures currentImageIndex == old(currentImageIndex) && points == old(points) && closed == old(closed)
      ensures definePointActive == old(definePointActive)
      ensures distanceResults == old(distanceResults) && savedIndices == old(savedIndices)
    {
      if distanceResults == [] {
        return;
      }
      if writable {
        excelWrites := excelWrites + [distanceResults];
      }
    }

    /**
     * _save_and_next: without exactly two points nothing changes; otherwise
     * the distance is recorded for the current image, the spreadsheet is
     * rewritten, and the next readable image is loaded.
     */
    method SaveAndNext(writable: bool)
      requires Valid() && !closed
      modifies this
      ensures Valid()
      ensures |old(points)| != 2 ==>
                points == old(points) && currentImageIndex == old(currentImageIndex) && !closed
                && definePointActive == old(definePointActive) && savedIndices == old(savedIndices)
                && distanceResults == old(distanceResults) && excelWrites == old(excelWrites)
      ensures |old(points)| == 2 ==>
                distanceResults == old(distanceResults) + [DistanceRow(imageFiles[old(currentImageIndex)], Distance(sqrt, old(points)[0], old(points)[1]))]
                && savedIndices == old(savedIndices) + [old(currentImageIndex)]
                && excelWrites == old(excelWrites) + (if writable then [distanceResults] else [])
                && currentImageIndex == NextReadable(imageFiles, readable, old(currentImageIndex) + 1)
                && (closed <==> currentImageIndex == |imageFiles|)
                && (!closed ==> points == [] && !definePointActive)
    {
      if |points| != 2 {
        return;
      }
      var pt1, pt2 := points[0], points[1];
      var distance := Distance(sqrt, pt1, pt2);
      var filename := imageFiles[currentImageIndex];
      distanceResults := distanceResults + [DistanceRow(filename, distance)];
      savedIndices := savedIndices + [currentImageIndex];
      SaveToExcel(writable);
      currentImageIndex := currentImageIndex + 1;
      closed := currentImageIndex == |imageFiles|;
      LoadNextImage();
    }

    /** run: the first readable image is loaded and the window waits for events. */
    method Run()
      requires Valid() && currentImageIndex == 0
      modifies this
      ensures Valid()
      ensures currentImageIndex == NextReadable(imageFiles, readable, 0)
    {
      LoadNextImage();
    }
  }

  /** Every recorded distance is a distance: non-negative, and the same whichever point was clicked first. */
  lemma RecordedDistance(sqrt: real -> real, p: Point, q: Point)
    requires IsSqrt(sqrt)
    ensures Distance(sqrt, p, q) >= 0.0 && Distance(sqrt, p, q) == Distance(sqrt, q, p)
  {
    DistanceNonNegative(sqrt, p, q);
    DistanceSymmetric(sqrt, p, q);
  }
}
