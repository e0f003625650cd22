/**
 * The interactive pore analyser: for every readable image of a directory it
 * runs the edge-based segmentation with the slider settings, keeps the
 * contours that are large and round enough, shows the filled mask, and on
 * "Save & Next" writes the mask and a spreadsheet of the kept objects.
 */
module PoreAnalyzerTool {
  import opened Wrappers
  import opened Geometry
  import opened Kernel
  import opened FileNames
  import opened Contours

  /** The nine slider values, as matplotlib reports them (floats). */
  datatype Params = Params(
    binaryThresh: real, cannyLow: real, cannyHigh: real, epsilon: real,
    minCirc: real, minArea: real, dilationK: real, gaussianK: real, medianK: real)

  /** The command-line defaults, which are also the initial slider positions. */
  const Defaults: Params := Params(128.0, 10.0, 50.0, 0.01, 0.001, 25000.0, 3.0, 5.0, 5.0)

  /** Kernel sizes normalised to odd values of at least 3, Canny thresholds truncated by int(). */
  function Settings(p: Params): (s: StageSettings)
    ensures KernelsValid(s)
    ensures s.gaussianKernel == KernelSize(p.gaussianK) && s.medianKernel == KernelSize(p.medianK)
    ensures s.dilationKernel == KernelSize(p.dilationK)
    ensures s.cannyLow == Trunc(p.cannyLow) && s.cannyHigh == Trunc(p.cannyHigh)
  {
    StageSettings(KernelSize(p.gaussianK), KernelSize(p.medianK), Trunc(p.cannyLow), Trunc(p.cannyHigh),
                  p.binaryThresh, KernelSize(p.dilationK), p.epsilon)
  }

  lemma DefaultSettings()
    ensures Settings(Defaults) == StageSettings(5, 5, 10, 50, 128.0, 3, 0.01)
  {
    OrOneCases(5);
    OrOneCases(3);
  }

  /** One kept object: the measures of the approximated polygon. */
  datatype PoreObject = PoreObject(perimeter: real, area: real, circularity: real, poreFactor: real)

  /** The three guards of the loop: a contour with a zero measure is skipped. */
  predicate Measurable(c: Candidate) {
    c.rawPerimeter != 0.0 && c.approxArea != 0.0 && c.approxPerimeter != 0.0
  }

  function Measure(c: Candidate): (o: PoreObject)
    requires Measurable(c)
    ensures o.perimeter == c.approxPerimeter && o.area == c.approxArea
    ensures o.perimeter > 0.0 && o.area > 0.0
    ensures o.circularity == Circularity(c.approxPerimeter, c.approxArea)
    ensures o.poreFactor == PoreFactor(c.approxPerimeter, c.approxArea)
    ensures o.circularity * o.poreFactor == PI / 4.0
  {
    CircularityTimesPoreFactor(c.approxPerimeter, c.approxArea);
    PoreObject(c.approxPerimeter, c.approxArea,
               Circularity(c.approxPerimeter, c.approxArea),
               if c.approxArea > 0.0 then PoreFactor(c.approxPerimeter, c.approxArea) else 0.0)
  }

  /** The filter `area > min_area and circularity >= min_circ`, behind the guards. */
  predicate Accepts(c: Candidate, minArea: real, minCirc: real) {
    Measurable(c) && c.approxArea > minArea && Circularity(c.approxPerimeter, c.approxArea) >= minCirc
  }

  /** The objects the loop appends, in contour order. */
  function Accepted(cs: seq<Candidate>, minArea: real, minCirc: real): (objs: seq<PoreObject>)
    ensures |objs| <= |cs|
    ensures forall o :: o in objs ==>
              o.perimeter > 0.0 && o.area > minArea && o.circularity >= minCirc
              && o.circularity * o.poreFactor == PI / 4.0
  {
    if cs == [] then []
    else
      var last := cs[|cs| - 1];
      Accepted(cs[..|cs| - 1], minArea, minCirc) + (if Accepts(last, minArea, minCirc) then [Measure(last)] else [])
  }

  /** The contours the loop fills into the mask, by position, in the order it fills them. */
  function AcceptedIndices(cs: seq<Candidate>, minArea: real, minCirc: real): (idx: seq<nat>)
    ensures |idx| <= |cs|
    ensures forall k :: 0 <= k < |idx| ==> idx[k] < |cs|
  {
    if cs == [] then []
    else
      var n := |cs| - 1;
      AcceptedIndices(cs[..n], minArea, minCirc) + (if Accepts(cs[n], minArea, minCirc) then [n] else [])
  }

  /** One fill per appended object: the k-th object is the measure of the k-th filled contour. */
  lemma {:induction false} AcceptedMatchesIndices(cs: seq<Candidate>, minArea: real, minCirc: real)
    ensures |Accepted(cs, minArea, minCirc)| == |AcceptedIndices(cs, minArea, minCirc)|
    ensures forall k :: 0 <= k < |AcceptedIndices(cs, minArea, minCirc)| ==>
              Accepts(cs[AcceptedIndices(cs, minArea, minCirc)[k]], minArea, minCirc)
              && Accepted(cs, minArea, minCirc)[k] == Measure(cs[AcceptedIndices(cs, minArea, minCirc)[k]])
  {
    if cs != [] {
      var n := |cs| - 1;
      AcceptedMatchesIndices(cs[..n], minArea, minCirc);
      var idx := AcceptedIndices(cs[..n], minArea, minCirc);
      forall k | 0 <= k < |idx| ensures cs[..n][idx[k]] == cs[idx[k]] { }
    }
  }

  /** The filled contours are exactly the accepted ones, listed once each in increasing position. */
  lemma {:induction false} AcceptedIndicesExact(cs: seq<Candidate>, minArea: real, minCirc: real)
    ensures forall j, k :: 0 <= j < k < |AcceptedIndices(cs, minArea, minCirc)| ==>
              AcceptedIndices(cs, minArea, minCirc)[j] < AcceptedIndices(cs, minArea, minCirc)[k]
    ensures forall i :: i in AcceptedIndices(cs, minArea, minCirc) <==> 0 <= i < |cs| && Accepts(cs[i], minArea, minCirc)
  {
    if cs != [] {
      var n := |cs| - 1;
      AcceptedIndicesExact(cs[..n], minArea, minCirc);
      forall i | 0 <= i < n ensures cs[..n][i] == cs[i] { }
    }
  }

  /** Raising either threshold keeps a subset of the filled contours. */
  lemma AcceptedShrinksWithThresholds(cs: seq<Candidate>, minArea: real, minCirc: real, minArea': real, minCirc': real)
    requires minArea <= minArea' && minCirc <= minCirc'
    ensures forall i :: i in AcceptedIndices(cs, minArea', minCirc') ==> i in AcceptedIndices(cs, minArea, minCirc)
  {
    AcceptedIndicesExact(cs, minArea, minCirc);
    AcceptedIndicesExact(cs, minArea', minCirc');
  }

  /** ... and so never more objects. */
  lemma {:induction false} AcceptedCountMonotone(cs: seq<Candidate>, minArea: real, minCirc: real, minArea': real, minCirc': real)
    requires minArea <= minArea' && minCirc <= minCirc'
    ensures |Accepted(cs, minArea', minCirc')| <= |Accepted(cs, minArea, minCirc)|
  {
    if cs != [] {
      AcceptedCountMonotone(cs[..|cs| - 1], minArea, minCirc, minArea', minCirc');
    }
  }

  /**
   * The loop of _process_image: it returns the list of kept objects and the
   * positions of the contours drawn filled into the initially black mask.
   */
  method FilterContours(contours: seq<Candidate>, minArea: real, minCirc: real)
    returns (objectData: seq<PoreObject>, filled: seq<nat>)
    ensures objectData == Accepted(contours, minArea, minCirc)
    ensures filled == AcceptedIndices(contours, minArea, minCirc)
  {
    objectData, filled := [], [];
    var i := 0;
    while i < |contours|
      invariant 0 <= i <= |contours|
      invariant objectData == Accepted(contours[..i], minArea, minCirc)
      invariant filled == AcceptedIndices(contours[..i], minArea, minCirc)
    {
      var cnt := contours[i];
      assert contours[..i + 1][..i] == contours[..i];
      i := i + 1;
      if cnt.rawPerimeter == 0.0 { continue; }
      var area := cnt.approxArea;
      if area == 0.0 { continue; }
      var perimeter := cnt.approxPerimeter;
      if perimeter == 0.0 { continue; }
      var circularity := Circularity(perimeter, area);
      if area > minArea && circularity >= minCirc {
        filled := filled + [i - 1];
        var poreFactor := if area > 0.0 then PoreFactor(perimeter, area) else 0.0;
        objectData := objectData + [PoreObject(perimeter, area, circularity, poreFactor)];
      }
    }
    assert contours[..i] == contours;
  }

  /** One spreadsheet row: the object prefixed with the image's file name. */
  datatype Row = Row(filename: string, perimeter: real, area: real, circularity: real, poreFactor: real)

  function TagRows(filename: string, objs: seq<PoreObject>): (rows: seq<Row>)
    ensures |rows| == |objs|
    ensures forall k :: 0 <= k < |objs| ==>
              rows[k] == Row(filename, objs[k].perimeter, objs[k].area, objs[k].circularity, objs[k].poreFactor)
  {
    if objs == [] then []
    else [Row(filename, objs[0].perimeter, objs[0].area, objs[0].circularity, objs[0].poreFactor)] + TagRows(filename, objs[1..])
  }

  const Supported: seq<string> := [".png", ".jpg", ".jpeg", ".bmp", ".tif", ".tiff"]

  /**
   * The images of a directory listing: names whose lower-cased suffix is
   * supported, sorted; none at all is a FileNotFoundError.
   */
  function DiscoverImages(listing: seq<string>): (r: Result<seq<string>, string>)
    ensures r.Err? <==> (forall x :: x in listing ==> Lower(PathSuffix(x)) !in Supported)
    ensures r.Ok? ==> r.value != [] && Sorted(r.value)
                      && multiset(r.value) == multiset(FilterSuffixIn(listing, Supported))
    ensures r.Ok? ==> forall x :: x in r.value <==> x in listing && Lower(PathSuffix(x)) in Supported
  {
    var files := Sort(FilterSuffixIn(listing, Supported));
    SortKeepsNames(FilterSuffixIn(listing, Supported));
    if files == [] then Err("No images found")
    else
      assert files[0] in FilterSuffixIn(listing, Supported);
      Ok(files)
  }

  /** The readable files of a list, in order. */
  function Readable(files: seq<string>, load: string -> Option<Image>): (r: seq<string>)
    ensures |r| <= |files|
    ensures forall x :: x in r <==> x in files && load(x).Some?
  {
    if files == [] then []
    else Readable(files[..|files| - 1], load) + (if load(files[|files| - 1]).Some? then [files[|files| - 1]] else [])
  }

  /** What the user does in the window of one image. */
  datatype UiEvent = Adjust(sliders: Params) | SaveAndNext

  class PoreAnalyzer {
    const imageFiles: seq<string>
    const params: Params
    var currentName: string
    var originalImage: Option<Image>
    var processedImage: seq<nat>
    var objectData: seq<PoreObject>
    /** Files written so far: masks and spreadsheets by output name, and the images analysed. */
    ghost var masksWritten: map<string, seq<nat>>
    ghost var tablesWritten: map<string, seq<Row>>
    ghost var analysed: seq<string>

    constructor(listing: seq<string>, params: Params)
      requires DiscoverImages(listing).Ok?
      ensures imageFiles == DiscoverImages(listing).value && this.params == params
      ensures masksWritten == map[] && tablesWritten == map[] && analysed == []
    {
      imageFiles := DiscoverImages(listing).value;
      this.params := params;
      currentName := "";
      originalImage := None;
      processedImage := [];
      objectData := [];
      masksWritten := map[];
      tablesWritten := map[];
      analysed := [];
    }

    /** _update_plot: recompute mask and objects from the current image and slider values. */
    method UpdatePlot(sliders: Params)
      requires originalImage.Some?
      modifies this
      ensures objectData == Accepted(old(originalImage).value(Settings(sliders)), sliders.minArea, sliders.minCirc)
      ensures processedImage == AcceptedIndices(old(originalImage).value(Settings(sliders)), sliders.minArea, sliders.minCirc)
      ensures currentName == old(currentName) && originalImage == old(originalImage)
      ensures masksWritten == old(masksWritten) && tablesWritten == old(tablesWritten) && analysed == old(analysed)
    {
      var contours := originalImage.value(Settings(sliders));
      objectData, processedImage := FilterContours(contours, sliders.minArea, sliders.minCirc);
    }

    /** _save_and_close: the mask always, the spreadsheet only when something was kept. */
    method SaveAndClose()
      modifies this
      ensures masksWritten == old(masksWritten)[PathStem(currentName) + "_processed.png" := processedImage]
      ensures objectData == [] ==> tablesWritten == old(tablesWritten)
      ensures objectData != [] ==>
                tablesWritten == old(tablesWritten)[PathStem(currentName) + "_data.xlsx" := TagRows(currentName, objectData)]
      ensures currentName == old(currentName) && originalImage == old(originalImage)
      ensures processedImage == old(processedImage) && objectData == old(objectData) && analysed == old(analysed)
    {
      var baseName := PathStem(currentName);
      masksWritten := masksWritten[baseName + "_processed.png" := processedImage];
      if objectData != [] {
        tablesWritten := tablesWritten[baseName + "_data.xlsx" := TagRows(currentName, objectData)];
      }
    }

    /** One window: the initial processing, then slider moves until "Save & Next" or the window is closed. */
    method Interact(events: seq<UiEvent>)
      requires originalImage.Some?
      modifies this
      ensures currentName == old(currentName) && originalImage == old(originalImage) && analysed == old(analysed)
      ensures forall k :: k in masksWritten ==> k in old(masksWritten) || k == PathStem(currentName) + "_processed.png"
      ensures forall k :: k in tablesWritten ==> k in old(tablesWritten) || k == PathStem(currentName) + "_data.xlsx"
    {
      UpdatePlot(params);
      var i := 0;
      while i < |events|
        invariant 0 <= i <= |events|
        invariant currentName == old(currentName) && originalImage == old(originalImage) && analysed == old(analysed)
        invariant forall k :: k in masksWritten ==> k in old(masksWritten) || k == PathStem(currentName) + "_processed.png"
        invariant forall k :: k in tablesWritten ==> k in old(tablesWritten) || k == PathStem(currentName) + "_data.xlsx"
      {
        match events[i]
        case Adjust(sliders) =>
          UpdatePlot(sliders);
          i := i + 1;
        case SaveAndNext =>
          SaveAndClose();
          i := |events|;
      }
    }

    /**
     * run: every discovered file in sorted order; an unreadable one is
     * skipped, a readable one gets its own window.
     */
    method Run(load: string -> Option<Image>, session: string -> seq<UiEvent>)
      requires analysed == []
      modifies this
      ensures analysed == Readable(imageFiles, load)
    {
      for i := 0 to |imageFiles|
        invariant analysed == Readable(imageFiles[..i], load)
      {
        assert imageFiles[..i + 1][..i] == imageFiles[..i];
        currentName := imageFiles[i];
        originalImage := load(imageFiles[i]);
        if originalImage.None? {
          continue;
        }
        analysed := analysed + [currentName];
        Interact(session(currentName));
      }
      assert imageFiles[..|imageFiles|] == imageFiles;
    }
  }
}
