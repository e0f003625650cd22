/**
 * The older, script-style edge segmentation: one figure with sliders, every
 * slider move recomputes the mask and the object list for the current image
 * and saves both. Its contour loop has a single guard (zero area) and stores
 * (perimeter, area, pore factor) triples; circularity is only a filter.
 */
module CannyScript {
  import opened Wrappers
  import opened Geometry
  import opened Kernel
  import opened FileNames
  import opened Contours
  import PoreAnalyzerTool

  /** The ten arguments of process_image after the image. */
  datatype Params = Params(
    lowerThreshold: real, upperThreshold: real, minSize: real, minCircularity: real,
    kernelSize: real, gaussianKernel: real, medianKernel: real, epsilon: real, binaryThreshold: real)

  function Settings(p: Params): (s: StageSettings)
    ensures KernelsValid(s)
    ensures s.gaussianKernel == KernelSize(p.gaussianKernel) && s.medianKernel == KernelSize(p.medianKernel)
    ensures s.dilationKernel == KernelSize(p.kernelSize)
  {
    StageSettings(KernelSize(p.gaussianKernel), KernelSize(p.medianKernel),
                  Trunc(p.lowerThreshold), Trunc(p.upperThreshold),
                  p.binaryThreshold, KernelSize(p.kernelSize), p.epsilon)
  }

  /** One stored object: perimeter, area and pore factor of the approximated polygon. */
  datatype Measurement = Measurement(perimeter: real, area: real, poreFactor: real)

  /**
   * The circularity division succeeds: a contour of zero area is skipped
   * before it, any other needs a non-zero perimeter.
   */
  predicate Divisible(c: Candidate) {
    c.approxArea == 0.0 || c.approxPerimeter != 0.0
  }

  lemma ConsistentIsDivisible(c: Candidate)
    requires Consistent(c)
    ensures Divisible(c)
  {}

  predicate Accepts(c: Candidate, minSize: real, minCircularity: real)
    requires Divisible(c)
  {
    c.approxArea != 0.0 && c.approxArea > minSize
    && Circularity(c.approxPerimeter, c.approxArea) >= minCircularity
  }

  function Measure(c: Candidate): (m: Measurement)
    requires c.approxArea != 0.0
    ensures m.perimeter == c.approxPerimeter && m.area == c.approxArea && m.area > 0.0
    ensures m.poreFactor == PoreFactor(c.approxPerimeter, c.approxArea) && m.poreFactor >= 0.0
  {
    Measurement(c.approxPerimeter, c.approxArea, PoreFactor(c.approxPerimeter, c.approxArea))
  }

  predicate AllDivisible(cs: seq<Candidate>) {
    forall i :: 0 <= i < |cs| ==> Divisible(cs[i])
  }

  /** The triples the loop stores, in contour order. */
  function Kept(cs: seq<Candidate>, minSize: real, minCircularity: real): (ms: seq<Measurement>)
    requires AllDivisible(cs)
    ensures |ms| <= |cs|
    ensures forall m :: m in ms ==>
              (m.area > minSize && m.area > 0.0 && m.poreFactor == PoreFactor(m.perimeter, m.area)
               && m.perimeter != 0.0 && Circularity(m.perimeter, m.area) >= minCircularity)
  {
    if cs == [] then []
    else
      var n := |cs| - 1;
      assert AllDivisible(cs[..n]) by { forall i | 0 <= i < n ensures cs[..n][i] == cs[i] { } }
      Kept(cs[..n], minSize, minCircularity) + (if Accepts(cs[n], minSize, minCircularity) then [Measure(cs[n])] else [])
  }

  /** The contours drawn filled, by position. */
  function KeptIndices(cs: seq<Candidate>, minSize: real, minCircularity: real): (idx: seq<nat>)
    requires AllDivisible(cs)
    ensures |idx| <= |cs|
    ensures forall k :: 0 <= k < |idx| ==> idx[k] < |cs|
  {
    if cs == [] then []
    else
      var n := |cs| - 1;
      assert AllDivisible(cs[..n]) by { forall i | 0 <= i < n ensures cs[..n][i] == cs[i] { } }
      KeptIndices(cs[..n], minSize, minCircularity) + (if Accepts(cs[n], minSize, minCircularity) then [n] else [])
  }

  /**
   * The filled positions increase strictly, and a position is filled exactly
   * when its contour survives the zero-area guard and passes both filters.
   */
  lemma {:induction false} KeptIndicesExact(cs: seq<Candidate>, minSize: real, minCircularity: real)
    requires AllDivisible(cs)
    ensures forall j, k :: 0 <= j < k < |KeptIndices(cs, minSize, minCircularity)| ==>
              KeptIndices(cs, minSize, minCircularity)[j] < KeptIndices(cs, minSize, minCircularity)[k]
    ensures forall i :: i in KeptIndices(cs, minSize, minCircularity) <==>
              0 <= i < |cs| && Accepts(cs[i], minSize, minCircularity)
  {
    if cs != [] {
      var n := |cs| - 1;
      assert forall i :: 0 <= i < n ==> cs[..n][i] == cs[i];
      KeptIndicesExact(cs[..n], minSize, minCircularity);
    }
  }

  /** The count of stored objects never grows when either threshold is raised. */
  lemma {:induction false} KeptCountMonotone(cs: seq<Candidate>, minSize: real, minCirc: real, minSize': real, minCirc': real)
    requires AllDivisible(cs) && minSize <= minSize' && minCirc <= minCirc'
    ensures |Kept(cs, minSize', minCirc')| <= |Kept(cs, minSize, minCirc)|
  {
    if cs != [] {
      var n := |cs| - 1;
      assert AllDivisible(cs[..n]) by { forall i | 0 <= i < n ensures cs[..n][i] == cs[i] { } }
      KeptCountMonotone(cs[..n], minSize, minCirc, minSize', minCirc');
    }
  }

  /**
   * On the contours OpenCV can produce, the older loop fills exactly the
   * contours the newer one does: its missing raw-perimeter guard changes
   * nothing, and it keeps the perimeter, area and pore factor the newer one
   * keeps.
   */
  lemma {:induction false} AgreesWithAnalyzer(cs: seq<Candidate>, minSize: real, minCirc: real)
    requires forall i :: 0 <= i < |cs| ==> Consistent(cs[i])
    ensures AllDivisible(cs)
    ensures KeptIndices(cs, minSize, minCirc) == PoreAnalyzerTool.AcceptedIndices(cs, minSize, minCirc)
    ensures |Kept(cs, minSize, minCirc)| == |PoreAnalyzerTool.Accepted(cs, minSize, minCirc)|
    ensures forall k :: 0 <= k < |Kept(cs, minSize, minCirc)| ==>
              var m, o := Kept(cs, minSize, minCirc)[k], PoreAnalyzerTool.Accepted(cs, minSize, minCirc)[k];
              m.perimeter == o.perimeter && m.area == o.area && m.poreFactor == o.poreFactor
  {
    if cs != [] {
      var n := |cs| - 1;
      assert forall i :: 0 <= i < n ==> cs[..n][i] == cs[i];
      AgreesWithAnalyzer(cs[..n], minSize, minCirc);
      assert Accepts(cs[n], minSize, minCirc) <==> PoreAnalyzerTool.Accepts(cs[n], minSize, minCirc);
    }
  }

  /**
   * The loop of process_image. A contour of non-zero area and zero perimeter
   * makes the circularity division raise ZeroDivisionError, which discards
   * everything computed so far.
   */
  method ProcessContours(contours: seq<Candidate>, minSize: real, minCircularity: real)
    returns (r: Result<(seq<Measurement>, seq<nat>), string>)
    ensures r.Err? <==> !AllDivisible(contours)
    ensures r.Ok? ==> r.value == (Kept(contours, minSize, minCircularity), KeptIndices(contours, minSize, minCircularity))
  {
    var objectData: seq<Measurement> := [];
    var filled: seq<nat> := [];
    var i := 0;
    while i < |contours|
      invariant 0 <= i <= |contours|
      invariant AllDivisible(contours[..i])
      invariant objectData == Kept(contours[..i], minSize, minCircularity)
      invariant filled == KeptIndices(contours[..i], minSize, minCircularity)
    {
      var contour := contours[i];
      assert contours[..i + 1][..i] == contours[..i];
      var area := contour.approxArea;
      var perimeter := contour.approxPerimeter;
      if area == 0.0 {
        i := i + 1;
        continue;
      }
      var poreFactor := PoreFactor(perimeter, area);
      if perimeter == 0.0 {
        assert !Divisible(contours[i]);
        return Err("ZeroDivisionError: float division by zero");
      }
      var circularity := Circularity(perimeter, area);
      if area > minSize && circularity >= minCircularity {
        filled := filled + [i];
        objectData := objectData + [Measurement(perimeter, area, poreFactor)];
      }
      i := i + 1;
    }
    assert contours[..i] == contours;
    return Ok((objectData, filled));
  }

  /** A spreadsheet row: the triple prefixed with the image's file name. */
  datatype Row = Row(filename: string, perimeter: real, area: real, poreFactor: real)

  function TagRows(filename: string, ms: seq<Measurement>): (rows: seq<Row>)
    ensures |rows| == |ms|
    ensures forall k :: 0 <= k < |ms| ==> rows[k] == Row(filename, ms[k].perimeter, ms[k].area, ms[k].poreFactor)
  {
    if ms == [] then [] else [Row(filename, ms[0].perimeter, ms[0].area, ms[0].poreFactor)] + TagRows(filename, ms[1..])
  }

  const Extensions: seq<string> := [".jpeg", ".jpg", ".png", ".bmp"]

  /** The images of a listing in listing order; none at all ends the script. */
  function ListImages(listing: seq<string>): (r: Result<seq<string>, string>)
    ensures r.Err? <==> forall x :: x in listing ==> !EndsWithAny(Lower(x), Extensions)
    ensures r.Ok? ==> r.value == FilterEndsWith(listing, Extensions) && r.value != []
  {
    var files := FilterEndsWith(listing, Extensions);
    if files == [] then Err("No images found in the directory.")
    else
      assert files[0] in files;
      Ok(files)
  }

  /** The two output names of an image: they depend on its base name alone. */
  function MaskPath(imageFile: string): string {
    SplitExt(imageFile).0 + "_processed.png"
  }

  function TablePath(imageFile: string): string {
    SplitExt(imageFile).0 + ".xlsx"
  }

  /** Two images differing only in extension overwrite each other's results. */
  lemma SameBaseSamePaths()
    ensures MaskPath("a.png") == MaskPath("a.bmp") && TablePath("a.png") == TablePath("a.bmp")
  {
    assert LastIndexOf("a.", '.') == 1;
    assert "a.p"[..2] == "a." && "a.pn"[..3] == "a.p" && "a.png"[..4] == "a.pn";
    assert "a.b"[..2] == "a." && "a.bm"[..3] == "a.b" && "a.bmp"[..4] == "a.bm";
    assert LastIndexOf("a.p", '.') == 1 && LastIndexOf("a.pn", '.') == 1 && LastIndexOf("a.png", '.') == 1;
    assert LastIndexOf("a.b", '.') == 1 && LastIndexOf("a.bm", '.') == 1 && LastIndexOf("a.bmp", '.') == 1;
    assert HasNonDotBefore("a.png", 1) by { assert "a.png"[0] != '.'; }
    assert HasNonDotBefore("a.bmp", 1) by { assert "a.bmp"[0] != '.'; }
    assert "a.png"[..1] == "a" && "a.bmp"[..1] == "a";
  }

  /** In general, two images share their output files exactly when their base names agree. */
  lemma OutputPathsFollowBaseName(a: string, b: string)
    ensures MaskPath(a) == MaskPath(b) <==> SplitExt(a).0 == SplitExt(b).0
    ensures TablePath(a) == TablePath(b) <==> SplitExt(a).0 == SplitExt(b).0
  {
    AppendCancels(SplitExt(a).0, SplitExt(b).0, "_processed.png");
    AppendCancels(SplitExt(a).0, SplitExt(b).0, ".xlsx");
  }

  lemma AppendCancels(x: string, y: string, tail: string)
    ensures x + tail == y + tail ==> x == y
  {
    if x + tail == y + tail {
      assert (x + tail)[..|x|] == x && (y + tail)[..|y|] == y;
    }
  }

  /** int() on a value that is already an integer changes nothing, so the slider truncation before process_image is absorbed by the kernel normalisation. */
  lemma TruncIdempotent(v: real)
    ensures Trunc(Trunc(v) as real) == Trunc(v)
    ensures KernelSize(Trunc(v) as real) == KernelSize(v)
  {}

  class Script {
    const initial: Params
    var imageFile: string
    var image: Option<Image>
    var edges: seq<nat>
    var objectData: seq<Measurement>
    ghost var masksWritten: map<string, seq<nat>>
    ghost var tablesWritten: map<string, seq<Row>>
    ghost var processed: seq<string>
    ghost var crashed: bool

    constructor(initial: Params)
      ensures this.initial == initial && image == None && masksWritten == map[] && tablesWritten == map[]
      ensures processed == [] && !crashed
    {
      this.initial := initial;
      imageFile := "";
      image := None;
      edges := [];
      objectData := [];
      masksWritten := map[];
      tablesWritten := map[];
      processed := [];
      crashed := false;
    }

    /** save_results: both files are written every time, the spreadsheet even when it has no rows. */
    method SaveResults()
      modifies this
      ensures masksWritten == old(masksWritten)[MaskPath(imageFile) := edges]
      ensures tablesWritten == old(tablesWritten)[TablePath(imageFile) := TagRows(imageFile, objectData)]
      ensures imageFile == old(imageFile) && image == old(image) && edges == old(edges)
      ensures objectData == old(objectData) && processed == old(processed) && crashed == old(crashed)
    {
      masksWritten := masksWritten[MaskPath(imageFile) := edges];
      tablesWritten := tablesWritten[TablePath(imageFile) := TagRows(imageFile, objectData)];
    }

    /** process_image followed by save_results; a ZeroDivisionError leaves everything as it was. */
    method ProcessAndSave(p: Params) returns (outcome: Outcome<string>)
      requires image.Some?
      modifies this
      ensures imageFile == old(imageFile) && image == old(image) && processed == old(processed) && crashed == old(crashed)
      ensures var cs := old(image).value(Settings(p));
              if AllDivisible(cs) then
                outcome == Handled
                && objectData == Kept(cs, p.minSize, p.minCircularity)
                && edges == KeptIndices(cs, p.minSize, p.minCircularity)
                && masksWritten == old(masksWritten)[MaskPath(imageFile) := edges]
                && tablesWritten == old(tablesWritten)[TablePath(imageFile) := TagRows(imageFile, objectData)]
              else
                outcome.Raised? && edges == old(edges) && objectData == old(objectData)
                && masksWritten == old(masksWritten) && tablesWritten == old(tablesWritten)
    {
      var r := ProcessContours(image.value(Settings(p)), p.minSize, p.minCircularity);
      match r
      case Err(e) =>
        outcome := Raised(e);
      case Ok(result) =>
        objectData, edges := result.0, result.1;
        SaveResults();
        outcome := Handled;
    }

    /** update: the slider values, with min size and the three kernels truncated by int(). */
    method Update(sliders: Params) returns (outcome: Outcome<string>)
      requires image.Some?
      modifies this
      ensures imageFile == old(imageFile) && image == old(image) && processed == old(processed) && crashed == old(crashed)
      ensures var p := UpdateArguments(sliders);
              var cs := old(image).value(Settings(p));
              if AllDivisible(cs) then
                outcome == Handled
                && objectData == Kept(cs, p.minSize, p.minCircularity)
                && edges == KeptIndices(cs, p.minSize, p.minCircularity)
                && masksWritten == old(masksWritten)[MaskPath(imageFile) := edges]
                && tablesWritten == old(tablesWritten)[TablePath(imageFile) := TagRows(imageFile, objectData)]
              else
                outcome.Raised? && edges == old(edges) && objectData == old(objectData)
                && masksWritten == old(masksWritten) && tablesWritten == old(tablesWritten)
    {
      outcome := ProcessAndSave(UpdateArguments(sliders));
    }

    /**
     * The main loop: every listed image; an unreadable one is skipped; a
     * readable one is processed and saved with the initial values, then once
     * more per slider move. An error in the initial processing ends the script:
     * it happens at the first readable image with a contour of non-zero area
     * and zero perimeter.
     */
    method RunAll(files: seq<string>, load: string -> Option<Image>, moves: string -> seq<Params>)
      requires processed == [] && !crashed
      modifies this
      ensures crashed <==> exists k :: 0 <= k < |files| && CrashesOn(load, initial, files[k])
      ensures !crashed ==> processed == PoreAnalyzerTool.Readable(files, load)
      ensures crashed ==> exists k :: FirstCrash(files, load, initial, k)
                                      && processed == PoreAnalyzerTool.Readable(files[..k + 1], load)
      ensures SavedBefore(files, load, initial, |files|, masksWritten, tablesWritten)
    {
      ghost var crashAt := 0;
      var i := 0;
      while i < |files|
        invariant 0 <= i <= |files|
        invariant !crashed ==> processed == PoreAnalyzerTool.Readable(files[..i], load)
        invariant !crashed ==> NoCrashBefore(files, load, initial, i)
        invariant crashed ==> i == |files| && FirstCrash(files, load, initial, crashAt)
        invariant crashed ==> processed == PoreAnalyzerTool.Readable(files[..crashAt + 1], load)
        invariant SavedBefore(files, load, initial, i, masksWritten, tablesWritten)
      {
        assert files[..i + 1][..i] == files[..i];
        ghost var masks, tables := masksWritten, tablesWritten;
        var raised := ProcessFile(files[i], load, moves);
        SavedKeepsHolding(files, load, initial, i, masks, tables, masksWritten, tablesWritten);
        if raised {
          SavedPastCrash(files, load, initial, i, masksWritten, tablesWritten);
          crashed := true;
          crashAt := i;
          i := |files|;
        } else {
          SavedExtends(files, load, initial, i, masksWritten, tablesWritten);
          i := i + 1;
        }
      }
      if !crashed { assert files[..|files|] == files; }
      else { assert CrashesOn(load, initial, files[crashAt]); }
    }

    /**
     * One pass of the loop: load the file, skip it if unreadable, otherwise
     * process and save it with the initial values and then once per slider move.
     */
    method ProcessFile(f: string, load: string -> Option<Image>, moves: string -> seq<Params>) returns (raised: bool)
      requires !crashed
      modifies this
      ensures raised <==> CrashesOn(load, initial, f)
      ensures processed == old(processed) + (if load(f).Some? then [f] else [])
      ensures !crashed && imageFile == f && image == load(f)
      ensures old(masksWritten).Keys <= masksWritten.Keys && old(tablesWritten).Keys <= tablesWritten.Keys
      ensures load(f).None? || raised ==> masksWritten == old(masksWritten) && tablesWritten == old(tablesWritten)
      ensures load(f).Some? && !raised ==> Written(masksWritten, tablesWritten, f)
    {
      imageFile := f;
      image := load(f);
      if image.None? {
        return false;
      }
      processed := processed + [f];
      var outcome := ProcessAndSave(initial);
      if outcome.Raised? {
        return true;
      }
      var ms := moves(f);
      ghost var before := processed;
      for j := 0 to |ms|
        invariant image == load(f) && processed == before && !crashed && imageFile == f
        invariant old(masksWritten).Keys <= masksWritten.Keys && old(tablesWritten).Keys <= tablesWritten.Keys
        invariant Written(masksWritten, tablesWritten, f)
      {
        var _ := Update(ms[j]);
      }
      return false;
    }
  }

  /** Both output files of f are among the written ones. */
  predicate Written(masks: map<string, seq<nat>>, tables: map<string, seq<Row>>, f: string) {
    MaskPath(f) in masks && TablePath(f) in tables
  }

  /** Every readable file before position n, up to the first crash, has both output files written. */
  predicate SavedBefore(files: seq<string>, load: string -> Option<Image>, initial: Params, n: int,
                        masks: map<string, seq<nat>>, tables: map<string, seq<Row>>)
    requires 0 <= n <= |files|
  {
    forall k :: 0 <= k < n && load(files[k]).Some? && NoCrashBefore(files, load, initial, k + 1) ==>
      Written(masks, tables, files[k])
  }

  /** Writing more files keeps every earlier output written. */
  lemma SavedKeepsHolding(files: seq<string>, load: string -> Option<Image>, initial: Params, n: int,
                          masks: map<string, seq<nat>>, tables: map<string, seq<Row>>,
                          masks': map<string, seq<nat>>, tables': map<string, seq<Row>>)
    requires 0 <= n <= |files| && SavedBefore(files, load, initial, n, masks, tables)
    requires masks.Keys <= masks'.Keys && tables.Keys <= tables'.Keys
    ensures SavedBefore(files, load, initial, n, masks', tables')
  {
    forall k | 0 <= k < n && load(files[k]).Some? && NoCrashBefore(files, load, initial, k + 1)
      ensures Written(masks', tables', files[k])
    {
      assert Written(masks, tables, files[k]);
    }
  }

  /** A file that does not crash, once saved if readable, extends the range by one. */
  lemma SavedExtends(files: seq<string>, load: string -> Option<Image>, initial: Params, n: int,
                     masks: map<string, seq<nat>>, tables: map<string, seq<Row>>)
    requires 0 <= n < |files| && SavedBefore(files, load, initial, n, masks, tables)
    requires load(files[n]).Some? && !CrashesOn(load, initial, files[n]) ==> Written(masks, tables, files[n])
    ensures SavedBefore(files, load, initial, n + 1, masks, tables)
  {
    forall k | 0 <= k < n + 1 && load(files[k]).Some? && NoCrashBefore(files, load, initial, k + 1)
      ensures Written(masks, tables, files[k])
    {
      if k == n {
        assert !CrashesOn(load, initial, files[n]);
      }
    }
  }

  /** No file after a crash counts: the range then covers the whole list. */
  lemma SavedPastCrash(files: seq<string>, load: string -> Option<Image>, initial: Params, n: int,
                       masks: map<string, seq<nat>>, tables: map<string, seq<Row>>)
    requires 0 <= n < |files| && SavedBefore(files, load, initial, n, masks, tables)
    requires CrashesOn(load, initial, files[n])
    ensures SavedBefore(files, load, initial, |files|, masks, tables)
  {
    forall k | 0 <= k < |files| && load(files[k]).Some? && NoCrashBefore(files, load, initial, k + 1)
      ensures Written(masks, tables, files[k])
    {
      if k >= n {
        assert false;
      }
    }
  }

  /** No file before position i makes the initial processing raise. */
  predicate NoCrashBefore(files: seq<string>, load: string -> Option<Image>, initial: Params, i: int)
    requires 0 <= i <= |files|
  {
    forall j :: 0 <= j < i ==> !CrashesOn(load, initial, files[j])
  }

  /** Position k holds the first file whose initial processing raises. */
  predicate FirstCrash(files: seq<string>, load: string -> Option<Image>, initial: Params, k: int) {
    0 <= k < |files| && CrashesOn(load, initial, files[k]) && NoCrashBefore(files, load, initial, k)
  }

  /** A file whose contours OpenCV could have produced never makes the initial processing raise. */
  lemma ConsistentImageNeverCrashes(load: string -> Option<Image>, initial: Params, f: string)
    requires load(f).Some? ==>
               var cs := load(f).value(Settings(initial));
               forall i :: 0 <= i < |cs| ==> Consistent(cs[i])
    ensures !CrashesOn(load, initial, f)
  {
    if load(f).Some? {
      var cs := load(f).value(Settings(initial));
      forall i | 0 <= i < |cs| ensures Divisible(cs[i]) { ConsistentIsDivisible(cs[i]); }
    }
  }

  /** Processing a file with the initial values raises: it is readable and one of its contours divides by zero. */
  predicate CrashesOn(load: string -> Option<Image>, initial: Params, f: string) {
    load(f).Some? && !AllDivisible(load(f).value(Settings(initial)))
  }

  function UpdateArguments(sliders: Params): (p: Params)
    ensures p.minSize == Trunc(sliders.minSize) as real
    ensures Settings(p) == Settings(sliders)
  {
    TruncIdempotent(sliders.kernelSize);
    TruncIdempotent(sliders.gaussianKernel);
    TruncIdempotent(sliders.medianKernel);
    sliders.(minSize := Trunc(sliders.minSize) as real,
             kernelSize := Trunc(sliders.kernelSize) as real,
             gaussianKernel := Trunc(sliders.gaussianKernel) as real,
             medianKernel := Trunc(sliders.medianKernel) as real)
  }
}
