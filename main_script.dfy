/** The pipeline of `main.py`: find the images of a folder, classify each
    image from the detector's answer, draw the qualifying boxes, save the
    annotated image, collect one row per image and write the report. */
module MainScript {
  import opened Text
  import opened Paths
  import opened Records
  import opened Detector

  /** A directory entry with a supported image extension, in any case. */
  predicate IsImageName(name: string)
  {
    var l := Lower(name);
    EndsWith(l, ".png") || EndsWith(l, ".jpg") || EndsWith(l, ".jpeg")
  }

  /** The list comprehension that keeps the image entries of a listing. */
  function ImageNames(items: seq<string>): (images: seq<string>)
    ensures |images| <= |items|
    ensures forall k :: 0 <= k < |images| ==> IsImageName(images[k])
  {
    if items == [] then []
    else
      assert items == [items[0]] + items[1..];
      (if IsImageName(items[0]) then [items[0]] else []) + ImageNames(items[1..])
  }

  /** Each image entry is kept as often as it is listed, every other entry
      is dropped. */
  lemma {:induction false} ImageNamesCounts(items: seq<string>, x: string)
    ensures multiset(ImageNames(items))[x] == if IsImageName(x) then multiset(items)[x] else 0
  {
    if items != [] {
      assert items == [items[0]] + items[1..];
      ImageNamesCounts(items[1..], x);
    }
  }

  /** Filtering commutes with concatenation: kept entries stay in listing order. */
  lemma {:induction false} ImageNamesAppend(a: seq<string>, b: seq<string>)
    ensures ImageNames(a + b) == ImageNames(a) + ImageNames(b)
  {
    if a != [] {
      assert (a + b)[1..] == a[1..] + b;
      ImageNamesAppend(a[1..], b);
    } else {
      assert a + b == b;
    }
  }

  /** A listing made only of images is kept whole. */
  lemma {:induction false} ImageNamesAllImages(items: seq<string>)
    requires forall k :: 0 <= k < |items| ==> IsImageName(items[k])
    ensures ImageNames(items) == items
  {
    if items != [] {
      ImageNamesAllImages(items[1..]);
    }
  }

  /** `imageLoader`: the listing `items` of `folder` stands for `os.listdir`.
      Returns the joined paths and the image names, in listing order. */
  function ImageLoader(folder: string, items: seq<string>): (r: (seq<string>, seq<string>))
    ensures r.1 == ImageNames(items)
    ensures |r.0| == |r.1|
    ensures forall k :: 0 <= k < |r.1| ==> r.0[k] == Join(folder, r.1[k])
  {
    var images := ImageNames(items);
    (JoinAll(folder, images), images)
  }

  /** `draw_bounding_box`: draws one rectangle with its caption. */
  method DrawBoundingBox(image: Canvas, box: Box, name: string, conf: real)
    modifies image
    ensures image.strokes == old(image.strokes) + [StrokeFor(box, name, conf)]
  {
    var x1, y1, x2, y2 := Trunc(box.x1), Trunc(box.y1), Trunc(box.x2), Trunc(box.y2);
    var color := if MentionsHelmet(name) then Color(0, 255, 0) else Color(255, 0, 0);
    image.Draw(Stroke(x1, y1, x2, y2, color, name, conf, x1, y1 - 10));
  }

  /** The location an annotated image is saved to. */
  function SavedAt(storageFolder: string, imageName: string): string
  {
    Join(storageFolder, imageName)
  }

  /** The strokes one call of `processDetections` draws: none when the
      detector gave no result, else those of the first result's qualifying
      detections. */
  function DrawnFor(results: seq<Frame>): seq<Stroke>
    requires results != [] ==> KnownClasses(results[0].names, results[0].detections)
  {
    if results == [] then [] else HelmetStrokes(results[0].names, results[0].detections)
  }

  /** The image files after one call of `processDetections`: the annotated
      picture is written only when the detector gave a result. */
  function SaveIf(files: map<string, Picture>, path: string, picture: Picture, results: seq<Frame>): (r: map<string, Picture>)
    ensures results == [] ==> r == files
    ensures results != [] ==> r.Keys == files.Keys + {path} && r[path] == picture
    ensures results != [] ==> forall q :: q in files && q != path ==> r[q] == files[q]
  {
    if results == [] then files else files[path := picture]
  }

  /** The rows one call of `processDetections` appends: none when the
      detector gave no result, else one row with the status of the first result. */
  function RowsFor(imageName: string, imagePath: string, results: seq<Frame>): seq<Row>
    requires results != [] ==> KnownClasses(results[0].names, results[0].detections)
  {
    if results == [] then [] else [Row(imageName, imagePath, StatusOf(results[0]))]
  }

  /** One pass of that loop: a qualifying detection sets the status to
      "Helmet" and is drawn; any other detection changes nothing. */
  method ScanOne(name: string, d: Detection, status: Status, image: Canvas) returns (next: Status)
    modifies image
    ensures next == (if Qualifies(name, d.conf) then Helmet else status)
    ensures image.strokes == old(image.strokes)
                             + (if Qualifies(name, d.conf) then [StrokeFor(d.box, name, d.conf)] else [])
  {
    next := status;
    if MentionsHelmet(name) && d.conf > Threshold {
      next := Helmet;
      DrawBoundingBox(image, d.box, name, d.conf);
    }
  }

  /** The loop of `processDetections` over the first result's detections:
      the status becomes "Helmet" at a qualifying detection, and every
      qualifying detection is drawn, in order. */
  method ScanDetections(result: Frame, image: Canvas) returns (status: Status)
    requires KnownClasses(result.names, result.detections)
    modifies image
    ensures status == StatusOf(result)
    ensures image.strokes == old(image.strokes) + HelmetStrokes(result.names, result.detections)
  {
    status := NoHelmet;
    var boxes, labels := result.detections, result.names;
    KnownPrefix(labels, boxes, 0);
    for i := 0 to |boxes|
      invariant KnownClasses(labels, boxes[..i])
      invariant status == (if |image.strokes| == |old(image.strokes)| then NoHelmet else Helmet)
      invariant image.strokes == old(image.strokes) + HelmetStrokes(labels, boxes[..i])
    {
      HelmetPrefixStep(labels, boxes, i);
      var d := boxes[i];
      status := ScanOne(LabelOf(labels, d), d, status, image);
    }
    assert boxes[..|boxes|] == boxes;
    HelmetStrokesEmpty(labels, boxes);
  }

  /** `processDetections`: classifies one image from the detector's result
      list, draws every qualifying box onto `image`, saves it, and appends one
      row to the caller's list, which it returns. An empty result list changes
      nothing. */
  method ProcessDetections(results: seq<Frame>, imageName: string, imagePath: string,
                           image: Canvas, acc: ResultLog, storageFolder: string, disk: Disk)
    returns (r: ResultLog)
    requires results != [] ==> KnownClasses(results[0].names, results[0].detections)
    modifies image, acc, disk
    ensures r == acc
    ensures acc.rows == old(acc.rows) + RowsFor(imageName, imagePath, results)
    ensures image.strokes == old(image.strokes) + DrawnFor(results)
    ensures disk.images == SaveIf(old(disk.images), SavedAt(storageFolder, imageName), image.Snapshot(), results)
    ensures disk.tables == old(disk.tables)
  {
    if results == [] {
      return acc;
    }
    var result := results[0];
    var status := ScanDetections(result, image);
    disk.WriteImage(SavedAt(storageFolder, imageName), image);
    acc.Append(Row(imageName, imagePath, status));
    return acc;
  }

  /** Every image whose detector output is usable by `processDetections`. */
  predicate KnownOutputs(outputs: seq<seq<Frame>>)
  {
    forall i :: 0 <= i < |outputs| && outputs[i] != [] ==>
      KnownClasses(outputs[i][0].names, outputs[i][0].detections)
  }

  /** The rows `processImages` has collected after the first `n` images. */
  function Collected(paths: seq<string>, names: seq<string>, outputs: seq<seq<Frame>>, n: nat): seq<Row>
    requires n <= |paths| == |outputs| <= |names|
    requires KnownOutputs(outputs)
  {
    if n == 0 then []
    else Collected(paths, names, outputs, n - 1) + RowsFor(names[n - 1], paths[n - 1], outputs[n - 1])
  }

  /** The indices of the first `n` images for which the detector gave a result. */
  function Answered(outputs: seq<seq<Frame>>, n: nat): (ix: seq<nat>)
    requires n <= |outputs|
    ensures forall k :: 0 <= k < |ix| ==> ix[k] < n && outputs[ix[k]] != []
  {
    if n == 0 then []
    else Answered(outputs, n - 1) + (if outputs[n - 1] != [] then [n - 1] else [])
  }

  /** The answered indices are increasing, and every answered image below
      `n` is among them. */
  lemma {:induction false} AnsweredExact(outputs: seq<seq<Frame>>, n: nat)
    requires n <= |outputs|
    ensures forall k, l :: 0 <= k < l < |Answered(outputs, n)| ==>
              Answered(outputs, n)[k] < Answered(outputs, n)[l]
    ensures forall i :: 0 <= i < n && outputs[i] != [] ==> i in Answered(outputs, n)
  {
    if n > 0 {
      AnsweredExact(outputs, n - 1);
    }
  }

  /** The row `processDetections` appends for image `i` when the detector answered it. */
  function RowOf(paths: seq<string>, names: seq<string>, outputs: seq<seq<Frame>>, i: nat): Row
    requires i < |paths| == |outputs| <= |names|
    requires KnownOutputs(outputs) && outputs[i] != []
  {
    Row(names[i], paths[i], StatusOf(outputs[i][0]))
  }

  /** Row k of the collected rows belongs to the k-th answered image: its
      name and path come from the same index, its status from that image's
      first result. */
  lemma {:induction false} CollectedByIndex(paths: seq<string>, names: seq<string>, outputs: seq<seq<Frame>>, n: nat)
    requires n <= |paths| == |outputs| <= |names|
    requires KnownOutputs(outputs)
    ensures |Collected(paths, names, outputs, n)| == |Answered(outputs, n)|
    ensures forall k :: 0 <= k < |Answered(outputs, n)| ==>
              Collected(paths, names, outputs, n)[k] == RowOf(paths, names, outputs, Answered(outputs, n)[k])
  {
    if n > 0 {
      CollectedByIndex(paths, names, outputs, n - 1);
      var prev, ix := Collected(paths, names, outputs, n - 1), Answered(outputs, n - 1);
      var rows, ix' := Collected(paths, names, outputs, n), Answered(outputs, n);
      if outputs[n - 1] != [] {
        assert rows == prev + [RowOf(paths, names, outputs, n - 1)];
        assert ix' == ix + [n - 1];
        forall k | 0 <= k < |ix'|
          ensures rows[k] == RowOf(paths, names, outputs, ix'[k])
        {
          if k < |ix| {
            assert rows[k] == prev[k] && ix'[k] == ix[k];
          }
        }
      } else {
        assert rows == prev;
        assert ix' == ix;
      }
    }
  }

  /** At most one row per image; exactly one per image when the detector
      answered every image, row k then being image k's. */
  lemma {:induction false} CollectedCount(paths: seq<string>, names: seq<string>, outputs: seq<seq<Frame>>)
    requires |paths| == |outputs| <= |names|
    requires KnownOutputs(outputs)
    ensures |Collected(paths, names, outputs, |paths|)| <= |paths|
    ensures (forall i :: 0 <= i < |outputs| ==> outputs[i] != []) ==>
              |Collected(paths, names, outputs, |paths|)| == |paths|
              && forall k :: 0 <= k < |paths| ==>
                   Collected(paths, names, outputs, |paths|)[k] == RowOf(paths, names, outputs, k)
  {
    CollectedByIndex(paths, names, outputs, |paths|);
    AnsweredBounds(outputs, |paths|);
  }

  /** There are at most `n` answered indices, and when every image was
      answered they are exactly `0 .. n-1`. */
  lemma {:induction false} AnsweredBounds(outputs: seq<seq<Frame>>, n: nat)
    requires n <= |outputs|
    ensures |Answered(outputs, n)| <= n
    ensures (forall i :: 0 <= i < n ==> outputs[i] != []) ==>
              |Answered(outputs, n)| == n && forall k :: 0 <= k < n ==> Answered(outputs, n)[k] == k
  {
    if n > 0 {
      AnsweredBounds(outputs, n - 1);
    }
  }

  /** The image files after `processImages` has handled the first `n`
      images: each answered image is saved, under its name, with exactly the
      boxes `processDetections` drew on it; a later image of the same name
      overwrites an earlier one. */
  function Stored(before: map<string, Picture>, storageFolder: string, paths: seq<string>,
                  names: seq<string>, outputs: seq<seq<Frame>>, n: nat): map<string, Picture>
    requires n <= |paths| == |outputs| <= |names|
    requires KnownOutputs(outputs)
  {
    if n == 0 then before
    else
      var i := n - 1;
      SaveIf(Stored(before, storageFolder, paths, names, outputs, i), SavedAt(storageFolder, names[i]),
             Picture(paths[i], DrawnFor(outputs[i])), outputs[i])
  }

  /** `processImages`: runs the detector (its answers for each image are
      `outputs`) and `processDetections` over the images in order, into a
      new result list. */
  method ProcessImages(paths: seq<string>, names: seq<string>, storageFolder: string,
                       outputs: seq<seq<Frame>>, disk: Disk)
    returns (log: ResultLog)
    requires |outputs| == |paths| <= |names|
    requires KnownOutputs(outputs)
    modifies disk
    ensures fresh(log)
    ensures log.rows == Collected(paths, names, outputs, |paths|)
    ensures disk.tables == old(disk.tables)
    ensures disk.images == Stored(old(disk.images), storageFolder, paths, names, outputs, |paths|)
  {
    log := new ResultLog();
    for i := 0 to |paths|
      invariant fresh(log)
      invariant log.rows == Collected(paths, names, outputs, i)
      invariant disk.tables == old(disk.tables)
      invariant disk.images == Stored(old(disk.images), storageFolder, paths, names, outputs, i)
    {
      var image := new Canvas.Read(paths[i]);
      var results := outputs[i];
      assert results != [] ==> KnownClasses(results[0].names, results[0].detections);
      ghost var before := disk.images;
      log := ProcessDetections(results, names[i], paths[i], image, log, storageFolder, disk);
      assert image.Snapshot() == Picture(paths[i], DrawnFor(results));
      assert disk.images == SaveIf(before, SavedAt(storageFolder, names[i]), Picture(paths[i], DrawnFor(results)), results);
      assert Stored(old(disk.images), storageFolder, paths, names, outputs, i + 1)
               == SaveIf(before, SavedAt(storageFolder, names[i]), Picture(paths[i], DrawnFor(results)), results);
      assert Collected(paths, names, outputs, i + 1)
               == Collected(paths, names, outputs, i) + RowsFor(names[i], paths[i], results);
    }
  }

  /** `saveResultCSV`: writes the header, then each row, to
      `<outputFolder>/<csvFileName>.csv`, replacing any earlier file. */
  method SaveResultCSV(result: seq<Row>, outputFolder: string, csvFileName: string, disk: Disk)
    modifies disk
    ensures disk.tables == old(disk.tables)[Join(outputFolder, csvFileName + ".csv") := CsvTable(result)]
    ensures disk.images == old(disk.images)
  {
    var csvPath := Join(outputFolder, csvFileName + ".csv");
    disk.Create(csvPath);
    assert disk.tables[csvPath] == [];
    disk.WriteRecord(csvPath, Header);
    assert [] + [Header] == [Header] == CsvTable(result[..0]);
    assert disk.tables == old(disk.tables)[csvPath := [Header]];
    for k := 0 to |result|
      invariant disk.tables == old(disk.tables)[csvPath := CsvTable(result[..k])]
      invariant disk.images == old(disk.images)
    {
      assert result[..k + 1] == result[..k] + [result[k]];
      CsvTableSnoc(result[..k], result[k]);
      disk.WriteRecord(csvPath, Fields(result[k]));
    }
    assert result[..|result|] == result;
  }
}
