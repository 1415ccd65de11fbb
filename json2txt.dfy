/** `json2txt.py`: converts LabelMe polygon annotations into YOLO label files.
    Each shape whose label is a known class becomes one line
    `class_index x_center y_center width height` holding the bounding box of
    its points, normalised by the image size; the lines are appended to
    `<output_dir>/<json stem>.txt`. */
module Json2Txt {
  import opened Strings
  import opened Paths

  datatype Point = Point(x: real, y: real)

  datatype Shape = Shape(labelName: string, points: seq<Point>)

  /** The fields of a LabelMe document the converter reads. */
  datatype LabelDoc = LabelDoc(imageWidth: real, imageHeight: real, shapes: seq<Shape>)

  /** One YOLO annotation line. */
  datatype Box = Box(classIndex: nat, xCenter: real, yCenter: real, width: real, height: real)

  /** Output files, each given as the annotation lines it holds. */
  type Files = map<string, seq<Box>>

  // ---------------------------------------------------------------------------
  // The box of one shape
  // ---------------------------------------------------------------------------

  /** `class_list.index(label)`: the position of the first occurrence. */
  function IndexOf(classes: seq<string>, name: string): (i: nat)
    requires name in classes
    ensures i < |classes| && classes[i] == name
    ensures forall k :: 0 <= k < i ==> classes[k] != name
  {
    if classes[0] == name then 0 else 1 + IndexOf(classes[1..], name)
  }

  function Xs(points: seq<Point>): (xs: seq<real>)
    ensures |xs| == |points| && forall k :: 0 <= k < |points| ==> xs[k] == points[k].x
  {
    seq(|points|, k requires 0 <= k < |points| => points[k].x)
  }

  function Ys(points: seq<Point>): (ys: seq<real>)
    ensures |ys| == |points| && forall k :: 0 <= k < |points| ==> ys[k] == points[k].y
  {
    seq(|points|, k requires 0 <= k < |points| => points[k].y)
  }

  /** `min(...)` over a non-empty sequence: a lower bound that is attained. */
  function Min(xs: seq<real>): (m: real)
    requires xs != []
    ensures forall k :: 0 <= k < |xs| ==> m <= xs[k]
  {
    if |xs| == 1 then xs[0]
    else
      var rest := Min(xs[1..]);
      assert forall k :: 1 <= k < |xs| ==> xs[k] == xs[1..][k - 1];
      if xs[0] <= rest then xs[0] else rest
  }

  /** The minimum is one of the values. */
  lemma {:induction false} MinIsElement(xs: seq<real>)
    requires xs != []
    ensures Min(xs) in xs
  {
    if |xs| > 1 {
      MinIsElement(xs[1..]);
    }
  }

  /** `max(...)` over a non-empty sequence: an upper bound that is attained. */
  function Max(xs: seq<real>): (m: real)
    requires xs != []
    ensures forall k :: 0 <= k < |xs| ==> xs[k] <= m
  {
    if |xs| == 1 then xs[0]
    else
      var rest := Max(xs[1..]);
      assert forall k :: 1 <= k < |xs| ==> xs[k] == xs[1..][k - 1];
      if xs[0] >= rest then xs[0] else rest
  }

  /** The maximum is one of the values. */
  lemma {:induction false} MaxIsElement(xs: seq<real>)
    requires xs != []
    ensures Max(xs) in xs
  {
    if |xs| > 1 {
      MaxIsElement(xs[1..]);
    }
  }

  /** The normalised bounding box of a shape's points. */
  function BoxOf(classIndex: nat, width: real, height: real, points: seq<Point>): Box
    requires points != [] && width != 0.0 && height != 0.0
  {
    var xMin := Min(Xs(points));
    var yMin := Min(Ys(points));
    var xMax := Max(Xs(points));
    var yMax := Max(Ys(points));
    Box(classIndex, Centre(xMin, xMax, width), Centre(yMin, yMax, height),
        Extent(xMin, xMax, width), Extent(yMin, yMax, height))
  }

  /** What one shape contributes: nothing for an unknown label, an exception
      (`min` of no points, or a zero image size) or one line. */
  datatype ShapeOutcome = Skipped | Failed | Kept(box: Box)

  function ConvertShape(width: real, height: real, classes: seq<string>, s: Shape): ShapeOutcome {
    if s.labelName !in classes then Skipped
    else if s.points == [] || width == 0.0 || height == 0.0 then Failed
    else Kept(BoxOf(IndexOf(classes, s.labelName), width, height, s.points))
  }

  // ---------------------------------------------------------------------------
  // One document
  // ---------------------------------------------------------------------------

  /** The lines written for the shapes so far, in order, and whether the loop
      is still running; an exception stops it with the earlier lines already
      written. */
  datatype Conversion = Conversion(boxes: seq<Box>, ok: bool)

  /** The loop of `labelme_to_yolo` after the first `n` shapes. */
  function ConvertPrefix(width: real, height: real, classes: seq<string>, shapes: seq<Shape>, n: nat): Conversion
    requires n <= |shapes|
  {
    if n == 0 then Conversion([], true)
    else
      var c := ConvertPrefix(width, height, classes, shapes, n - 1);
      if !c.ok then c
      else
        match ConvertShape(width, height, classes, shapes[n - 1])
        case Skipped => c
        case Failed => Conversion(c.boxes, false)
        case Kept(b) => Conversion(c.boxes + [b], true)
  }

  function Convert(width: real, height: real, classes: seq<string>, shapes: seq<Shape>): Conversion {
    ConvertPrefix(width, height, classes, shapes, |shapes|)
  }

  /** Once stopped, the loop stays stopped. */
  lemma {:induction false} ConvertPrefixStopped(width: real, height: real, classes: seq<string>, shapes: seq<Shape>, m: nat, n: nat)
    requires m <= n <= |shapes| && !ConvertPrefix(width, height, classes, shapes, m).ok
    ensures ConvertPrefix(width, height, classes, shapes, n) == ConvertPrefix(width, height, classes, shapes, m)
    decreases n
  {
    if n > m {
      ConvertPrefixStopped(width, height, classes, shapes, m, n - 1);
    }
  }

  /** `os.path.join(output_dir, splitext(basename(json_path))[0] + '.txt')`. */
  function OutputPath(jsonPath: string, outputDir: string): string {
    Join(outputDir, SplitExtStem(Basename(jsonPath)) + ".txt")
  }

  /** Append mode: the file is created by the first line written to it and is
      left alone (not even created) when no line is written. */
  function AppendLines(files: Files, path: string, boxes: seq<Box>): (out: Files)
    ensures out.Keys == files.Keys + (if boxes == [] then {} else {path})
  {
    if boxes == [] then files
    else files[path := (if path in files then files[path] else []) + boxes]
  }

  lemma AppendLinesSnoc(files: Files, path: string, boxes: seq<Box>, b: Box)
    ensures AppendLines(files, path, boxes + [b]) == AppendLines(AppendLines(files, path, boxes), path, [b])
  {
    var before: seq<Box> := if path in files then files[path] else [];
    if boxes == [] {
      assert boxes + [b] == [b];
    } else {
      assert (before + boxes) + [b] == before + (boxes + [b]);
    }
  }

  /** `labelme_to_yolo` on a parsed document: `ok` is false when an exception
      ended the loop. */
  method LabelmeToYolo(files: Files, jsonPath: string, outputDir: string, classes: seq<string>, doc: LabelDoc)
    returns (out: Files, ok: bool)
    ensures var c := Convert(doc.imageWidth, doc.imageHeight, classes, doc.shapes);
      out == AppendLines(files, OutputPath(jsonPath, outputDir), c.boxes) && ok == c.ok
  {
    var path := OutputPath(jsonPath, outputDir);
    ghost var written: seq<Box> := [];
    out := files;
    for i := 0 to |doc.shapes|
      invariant ConvertPrefix(doc.imageWidth, doc.imageHeight, classes, doc.shapes, i) == Conversion(written, true)
      invariant out == AppendLines(files, path, written)
    {
      match ConvertShape(doc.imageWidth, doc.imageHeight, classes, doc.shapes[i]) {
        case Skipped =>
        case Failed =>
          ConvertPrefixStopped(doc.imageWidth, doc.imageHeight, classes, doc.shapes, i + 1, |doc.shapes|);
          return out, false;
        case Kept(b) =>
          AppendLinesSnoc(files, path, written, b);
          out := AppendLines(out, path, [b]);
          written := written + [b];
      }
    }
    ok := true;
  }

  // ---------------------------------------------------------------------------
  // The directory
  // ---------------------------------------------------------------------------

  /** The output files and whether every conversion so far ran to the end. */
  datatype Run = Run(files: Files, ok: bool)

  predicate IsJson(name: string) {
    EndsWith(name, ".json")
  }

  /** Parsed documents, keyed by the path `convert_directory` opens. */
  type Docs = map<string, LabelDoc>

  function ConvertFile(st: Run, jsonPath: string, outputDir: string, classes: seq<string>, doc: LabelDoc): Run {
    var c := Convert(doc.imageWidth, doc.imageHeight, classes, doc.shapes);
    Run(AppendLines(st.files, OutputPath(jsonPath, outputDir), c.boxes), c.ok)
  }

  /** One name of the listing: a `.json` name is converted, anything else is
      passed over; after an exception nothing more happens. */
  function DirStep(st: Run, inputDir: string, outputDir: string, classes: seq<string>, docs: Docs, name: string): Run {
    if !st.ok || !IsJson(name) || Join(inputDir, name) !in docs then st
    else ConvertFile(st, Join(inputDir, name), outputDir, classes, docs[Join(inputDir, name)])
  }

  function DirRun(st: Run, inputDir: string, outputDir: string, classes: seq<string>, docs: Docs, names: seq<string>): Run
    decreases |names|
  {
    if names == [] then st
    else DirRun(DirStep(st, inputDir, outputDir, classes, docs, names[0]), inputDir, outputDir, classes, docs, names[1..])
  }

  /** Every `.json` name of the listing has a parsed document. */
  predicate HasDocs(inputDir: string, docs: Docs, listing: seq<string>) {
    forall k :: 0 <= k < |listing| && IsJson(listing[k]) ==> Join(inputDir, listing[k]) in docs
  }

  /** `convert_directory`: `ok` is false when a conversion raised, which ends the run. */
  method ConvertDirectory(files: Files, inputDir: string, outputDir: string, classes: seq<string>,
                          listing: seq<string>, docs: Docs)
    returns (out: Files, ok: bool)
    requires HasDocs(inputDir, docs, listing)
    ensures Run(out, ok) == DirRun(Run(files, true), inputDir, outputDir, classes, docs, listing)
  {
    ghost var goal := DirRun(Run(files, true), inputDir, outputDir, classes, docs, listing);
    out, ok := files, true;
    for i := 0 to |listing|
      invariant ok && DirRun(Run(out, ok), inputDir, outputDir, classes, docs, listing[i..]) == goal
    {
      assert listing[i..][1..] == listing[i + 1..];
      var name := listing[i];
      if IsJson(name) {
        var jsonPath := Join(inputDir, name);
        out, ok := LabelmeToYolo(out, jsonPath, outputDir, classes, docs[jsonPath]);
        if !ok {
          DirRunStopped(Run(out, ok), inputDir, outputDir, classes, docs, listing[i + 1..]);
          return;
        }
      }
    }
  }

  lemma {:induction false} DirRunStopped(st: Run, inputDir: string, outputDir: string, classes: seq<string>, docs: Docs, names: seq<string>)
    requires !st.ok
    ensures DirRun(st, inputDir, outputDir, classes, docs, names) == st
    decreases |names|
  {
    if names != [] {
      DirRunStopped(st, inputDir, outputDir, classes, docs, names[1..]);
    }
  }

  // ---------------------------------------------------------------------------
  // Properties
  // ---------------------------------------------------------------------------

  /** A shape contributes a line exactly when its label is a known class (and no exception is raised). */
  lemma ConvertShapeKeptIff(width: real, height: real, classes: seq<string>, s: Shape)
    ensures ConvertShape(width, height, classes, s).Kept? <==>
      s.labelName in classes && s.points != [] && width != 0.0 && height != 0.0
    ensures ConvertShape(width, height, classes, s).Skipped? <==> s.labelName !in classes
  {
  }

  /** The first `n` shapes whose label is a known class, in shape order. */
  function KnownShapes(classes: seq<string>, shapes: seq<Shape>, n: nat): (known: seq<Shape>)
    requires n <= |shapes|
    ensures forall j :: 0 <= j < |known| ==> known[j].labelName in classes && known[j] in shapes
  {
    if n == 0 then []
    else KnownShapes(classes, shapes, n - 1) + (if shapes[n - 1].labelName in classes then [shapes[n - 1]] else [])
  }

  /** A shape the loop can convert: an unknown label, or points and a non-zero image size. */
  predicate Convertible(width: real, height: real, classes: seq<string>, s: Shape) {
    s.labelName in classes ==> s.points != [] && width != 0.0 && height != 0.0
  }

  /** A document converts without an exception exactly when every shape with a
      known label has points and the image has a non-zero size. */
  lemma {:induction false} ConvertOkIff(width: real, height: real, classes: seq<string>, shapes: seq<Shape>, n: nat)
    requires n <= |shapes|
    ensures ConvertPrefix(width, height, classes, shapes, n).ok <==>
      forall k :: 0 <= k < n ==> Convertible(width, height, classes, shapes[k])
  {
    if n > 0 {
      ConvertOkIff(width, height, classes, shapes, n - 1);
    }
  }

  /** The class a line carries: the index of the first occurrence of its label. */
  predicate ClassOf(classes: seq<string>, b: Box, labelName: string) {
    b.classIndex < |classes| && classes[b.classIndex] == labelName
    && forall k :: 0 <= k < b.classIndex ==> classes[k] != labelName
  }

  /** The line written for a shape: its label is known, it has points, and the
      line is the normalised bounding box of those points under its label's
      class index. */
  predicate LineOf(width: real, height: real, classes: seq<string>, b: Box, s: Shape) {
    && s.labelName in classes && s.points != [] && width != 0.0 && height != 0.0
    && b == BoxOf(IndexOf(classes, s.labelName), width, height, s.points)
  }

  /** While the conversion runs, the lines correspond one to one, in order, to
      the shapes with known labels: each is the box of its shape's points and
      carries its label's class index. */
  lemma {:induction false} ConvertLinesMatchShapes(width: real, height: real, classes: seq<string>, shapes: seq<Shape>, n: nat)
    requires n <= |shapes| && ConvertPrefix(width, height, classes, shapes, n).ok
    ensures var c := ConvertPrefix(width, height, classes, shapes, n);
      var known := KnownShapes(classes, shapes, n);
      && |c.boxes| == |known|
      && forall j :: 0 <= j < |known| ==>
           LineOf(width, height, classes, c.boxes[j], known[j]) && ClassOf(classes, c.boxes[j], known[j].labelName)
  {
    if n > 0 {
      ConvertLinesMatchShapes(width, height, classes, shapes, n - 1);
    }
  }

  /** A YOLO line whose centre, size and edges all lie in [0, 1]. */
  predicate InUnitSquare(b: Box) {
    && 0.0 <= b.xCenter <= 1.0 && 0.0 <= b.yCenter <= 1.0
    && 0.0 <= b.width <= 1.0 && 0.0 <= b.height <= 1.0
    && 0.0 <= b.xCenter - b.width / 2.0 && b.xCenter + b.width / 2.0 <= 1.0
    && 0.0 <= b.yCenter - b.height / 2.0 && b.yCenter + b.height / 2.0 <= 1.0
  }

  /** When the image has a positive size and every known-label shape has
      points, all inside the image, the conversion runs to the end and every
      line it writes lies in the unit square. */
  lemma ConvertBoxesInUnit(width: real, height: real, classes: seq<string>, shapes: seq<Shape>)
    requires width > 0.0 && height > 0.0
    requires forall s :: s in shapes && s.labelName in classes ==> s.points != [] && InImage(width, height, s.points)
    ensures Convert(width, height, classes, shapes).ok
    ensures forall j :: 0 <= j < |Convert(width, height, classes, shapes).boxes| ==>
      InUnitSquare(Convert(width, height, classes, shapes).boxes[j])
  {
    ConvertOkIff(width, height, classes, shapes, |shapes|);
    var c := Convert(width, height, classes, shapes);
    var known := KnownShapes(classes, shapes, |shapes|);
    ConvertLinesMatchShapes(width, height, classes, shapes, |shapes|);
    forall j | 0 <= j < |c.boxes|
      ensures InUnitSquare(c.boxes[j])
    {
      BoxInUnit(IndexOf(classes, known[j].labelName), width, height, known[j].points);
    }
  }

  /** The lines written never outnumber the shapes. */
  lemma {:induction false} ConvertAtMostOnePerShape(width: real, height: real, classes: seq<string>, shapes: seq<Shape>, n: nat)
    requires n <= |shapes|
    ensures |ConvertPrefix(width, height, classes, shapes, n).boxes| <= n
  {
    if n > 0 {
      ConvertAtMostOnePerShape(width, height, classes, shapes, n - 1);
    }
  }

  lemma {:induction false} RatioNonNegative(a: real, w: real)
    requires a >= 0.0 && w > 0.0
    ensures a / w >= 0.0
  {
  }

  lemma {:induction false} RatioAtMostOne(a: real, w: real)
    requires a <= w && w > 0.0
    ensures a / w <= 1.0
  {
  }

  /** Centre and extent of the interval [lo, hi] relative to `size`, as the box computes them. */
  function Centre(lo: real, hi: real, size: real): real
    requires size != 0.0
  {
    (lo + hi) / 2.0 / size
  }

  function Extent(lo: real, hi: real, size: real): real
    requires size != 0.0
  {
    (hi - lo) / size
  }

  /** A centre `c` and extent `e` computed from [lo, hi] give back its ends. */
  lemma {:induction false} IntervalCorners(c: real, e: real, lo: real, hi: real, size: real)
    requires size != 0.0 && c == Centre(lo, hi, size) && e == Extent(lo, hi, size)
    ensures c - e / 2.0 == lo / size
    ensures c + e / 2.0 == hi / size
  {
  }

  lemma {:induction false} IntervalInUnit(c: real, e: real, lo: real, hi: real, size: real)
    requires size > 0.0 && 0.0 <= lo <= hi <= size
    requires c == Centre(lo, hi, size) && e == Extent(lo, hi, size)
    ensures 0.0 <= c <= 1.0 && 0.0 <= e <= 1.0
    ensures 0.0 <= c - e / 2.0 && c + e / 2.0 <= 1.0
  {
    IntervalCorners(c, e, lo, hi, size);
    RatioNonNegative(lo, size);
    RatioNonNegative(hi - lo, size);
    RatioNonNegative((lo + hi) / 2.0, size);
    RatioAtMostOne(hi, size);
    RatioAtMostOne(hi - lo, size);
    RatioAtMostOne((lo + hi) / 2.0, size);
  }

  /** The box in terms of the extremes of the points. */
  lemma BoxOfExtremes(classIndex: nat, width: real, height: real, points: seq<Point>)
    requires points != [] && width != 0.0 && height != 0.0
    ensures var xMin, xMax := Min(Xs(points)), Max(Xs(points));
      var yMin, yMax := Min(Ys(points)), Max(Ys(points));
      BoxOf(classIndex, width, height, points)
        == Box(classIndex, Centre(xMin, xMax, width), Centre(yMin, yMax, height), Extent(xMin, xMax, width), Extent(yMin, yMax, height))
  {
  }

  /** The corners are the extremes of the points, so width and height are never negative. */
  lemma BoxNonNegative(classIndex: nat, width: real, height: real, points: seq<Point>)
    requires points != [] && width > 0.0 && height > 0.0
    ensures BoxOf(classIndex, width, height, points).width >= 0.0
    ensures BoxOf(classIndex, width, height, points).height >= 0.0
  {
    var xs, ys := Xs(points), Ys(points);
    BoxOfExtremes(classIndex, width, height, points);
    assert Min(xs) <= xs[0] <= Max(xs);
    assert Min(ys) <= ys[0] <= Max(ys);
    RatioNonNegative(Max(xs) - Min(xs), width);
    RatioNonNegative(Max(ys) - Min(ys), height);
  }

  /** Un-normalising a box gives back the extremes of the points: the left and
      right edges are the least and greatest x, the top and bottom edges the
      least and greatest y. */
  lemma BoxCorners(classIndex: nat, width: real, height: real, points: seq<Point>)
    requires points != [] && width != 0.0 && height != 0.0
    ensures var b := BoxOf(classIndex, width, height, points);
      && b.xCenter - b.width / 2.0 == Min(Xs(points)) / width
      && b.xCenter + b.width / 2.0 == Max(Xs(points)) / width
      && b.yCenter - b.height / 2.0 == Min(Ys(points)) / height
      && b.yCenter + b.height / 2.0 == Max(Ys(points)) / height
  {
    var b := BoxOf(classIndex, width, height, points);
    BoxOfExtremes(classIndex, width, height, points);
    IntervalCorners(b.xCenter, b.width, Min(Xs(points)), Max(Xs(points)), width);
    IntervalCorners(b.yCenter, b.height, Min(Ys(points)), Max(Ys(points)), height);
  }

  predicate InImage(width: real, height: real, points: seq<Point>) {
    forall k :: 0 <= k < |points| ==> 0.0 <= points[k].x <= width && 0.0 <= points[k].y <= height
  }

  /** When every point lies in the image, the centre, the size and both edges
      of the box lie in [0, 1]. */
  lemma BoxInUnit(classIndex: nat, width: real, height: real, points: seq<Point>)
    requires points != [] && width > 0.0 && height > 0.0 && InImage(width, height, points)
    ensures var b := BoxOf(classIndex, width, height, points);
      && 0.0 <= b.xCenter <= 1.0 && 0.0 <= b.yCenter <= 1.0
      && 0.0 <= b.width <= 1.0 && 0.0 <= b.height <= 1.0
      && 0.0 <= b.xCenter - b.width / 2.0 && b.xCenter + b.width / 2.0 <= 1.0
      && 0.0 <= b.yCenter - b.height / 2.0 && b.yCenter + b.height / 2.0 <= 1.0
  {
    var xs, ys := Xs(points), Ys(points);
    BoxOfExtremes(classIndex, width, height, points);
    MinIsElement(xs);
    MaxIsElement(xs);
    MinIsElement(ys);
    MaxIsElement(ys);
    assert 0.0 <= Min(xs) <= Max(xs) <= width;
    assert 0.0 <= Min(ys) <= Max(ys) <= height;
    var b := BoxOf(classIndex, width, height, points);
    IntervalInUnit(b.xCenter, b.width, Min(xs), Max(xs), width);
    IntervalInUnit(b.yCenter, b.height, Min(ys), Max(ys), height);
  }

  /** The output file sits in the output directory and is named after the JSON file's stem. */
  lemma OutputPathName(jsonPath: string, outputDir: string)
    ensures Basename(OutputPath(jsonPath, outputDir)) == SplitExtStem(Basename(jsonPath)) + ".txt"
  {
    var name := SplitExtStem(Basename(jsonPath)) + ".txt";
    assert forall k :: 0 <= k < |name| ==> name[k] != '/' by {
      var stem := SplitExtStem(Basename(jsonPath));
      assert forall k :: 0 <= k < |stem| ==> stem[k] == Basename(jsonPath)[k];
    }
    BasenameOfJoin(outputDir, name);
  }

  /** Converting the same document twice appends its lines twice: the file is
      never truncated. */
  lemma ConvertTwiceAppends(files: Files, jsonPath: string, outputDir: string, classes: seq<string>, doc: LabelDoc)
    ensures var path := OutputPath(jsonPath, outputDir);
      var boxes := Convert(doc.imageWidth, doc.imageHeight, classes, doc.shapes).boxes;
      var once := AppendLines(files, path, boxes);
      var twice := AppendLines(once, path, boxes);
      && (path in twice <==> path in files || boxes != [])
      && (path in twice ==> twice[path] == (if path in files then files[path] else []) + boxes + boxes)
  {
  }

  /** The `.json` names of a listing, in order. */
  function JsonNames(names: seq<string>): (r: seq<string>)
    ensures forall k :: 0 <= k < |r| ==> IsJson(r[k])
  {
    if names == [] then []
    else (if IsJson(names[0]) then [names[0]] else []) + JsonNames(names[1..])
  }

  /** Only `.json` names matter: the run over the whole listing is the run over its `.json` names. */
  lemma {:induction false} DirRunJsonOnly(st: Run, inputDir: string, outputDir: string, classes: seq<string>, docs: Docs, names: seq<string>)
    ensures DirRun(st, inputDir, outputDir, classes, docs, names) == DirRun(st, inputDir, outputDir, classes, docs, JsonNames(names))
    decreases |names|
  {
    if names != [] {
      var st' := DirStep(st, inputDir, outputDir, classes, docs, names[0]);
      DirRunJsonOnly(st', inputDir, outputDir, classes, docs, names[1..]);
      if IsJson(names[0]) {
        assert JsonNames(names)[1..] == JsonNames(names[1..]);
      } else {
        assert JsonNames(names) == JsonNames(names[1..]);
      }
    }
  }
}
