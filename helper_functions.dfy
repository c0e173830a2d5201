/** The helpers of `utils/helperFunctions.py`: an image loader that keeps
    every directory entry, a report writer that walks the rows by index, and
    the alternative "bare head" rule, which records "No Helmet" for an image
    whose labels include "head". */
module HelperFunctions {
  import opened Paths
  import opened Records
  import MainScript

  /** `imageLoader`: `items` stands for `os.listdir(folder)`. Every entry is
      kept, and its path is built by appending in a loop. */
  method ImageLoader(folder: string, items: seq<string>) returns (paths: seq<string>, names: seq<string>)
    ensures names == items
    ensures |paths| == |items|
    ensures forall k :: 0 <= k < |items| ==> paths[k] == Join(folder, items[k])
  {
    paths := [];
    for k := 0 to |items|
      invariant |paths| == k
      invariant forall j :: 0 <= j < k ==> paths[j] == Join(folder, items[j])
    {
      var path := Join(folder, items[k]);
      ghost var before := paths;
      paths := paths + [path];
      assert forall j :: 0 <= j < k ==> paths[j] == before[j];
    }
    names := items;
  }

  /** On a folder holding only images the two loaders agree: the filtering
      loader of `main.py` returns the whole listing and the same paths. */
  lemma LoadersAgreeOnImages(folder: string, items: seq<string>)
    requires forall k :: 0 <= k < |items| ==> MainScript.IsImageName(items[k])
    ensures MainScript.ImageLoader(folder, items) == (JoinAll(folder, items), items)
  {
    MainScript.ImageNamesAllImages(items);
  }

  /** `saveResultCSV`: writes the header, then `result[0]`, `result[1]`, ... to
      `<outputFolder>/<csvFileName>.csv`, replacing any earlier file. */
  method SaveResultCSV(result: seq<Row>, outputFolder: string, csvFileName: string, disk: Disk)
    modifies disk
    ensures disk.tables == old(disk.tables)[Join(outputFolder, csvFileName + ".csv") := CsvTable(result)]
    ensures disk.images == old(disk.images)
  {
    var csvPath := Join(outputFolder, csvFileName + ".csv");
    disk.Create(csvPath);
    assert disk.tables[csvPath] == [];
    disk.WriteRecord(csvPath, Header);
    assert [] + [Header] == [Header] == CsvTable(result[..0]);
    assert disk.tables == old(disk.tables)[csvPath := [Header]];
    for i := 0 to |result|
      invariant disk.tables == old(disk.tables)[csvPath := CsvTable(result[..i])]
      invariant disk.images == old(disk.images)
    {
      var row := result[i];
      assert result[..i + 1] == result[..i] + [row];
      CsvTableSnoc(result[..i], row);
      disk.WriteRecord(csvPath, Fields(row));
    }
    assert result[..|result|] == result;
  }

  /** `i` may index `s` the Python way: from the end when negative. */
  predicate ValidIndex<T>(s: seq<T>, i: int)
  {
    -|s| <= i < |s|
  }

  /** `s[i]` in Python. */
  function PyIndex<T>(s: seq<T>, i: int): (x: T)
    requires ValidIndex(s, i)
    ensures 0 <= i ==> x == s[i]
    ensures i < 0 ==> x == s[|s| + i]
  {
    if i >= 0 then s[i] else s[|s| + i]
  }

  /** The rows `checkHeads` appends: one "No Helmet" row for image `i`
      exactly when "head" is one of the labels. */
  function HeadRows(labels: seq<string>, names: seq<string>, paths: seq<string>, i: int): (rows: seq<Row>)
    requires "head" in labels ==> ValidIndex(names, i) && ValidIndex(paths, i)
    ensures |rows| <= 1
    ensures rows != [] <==> "head" in labels
    ensures forall r :: r in rows ==> r.status == NoHelmet
    ensures rows != [] ==> rows[0].name == PyIndex(names, i) && rows[0].location == PyIndex(paths, i)
  {
    if "head" in labels then [Row(PyIndex(names, i), PyIndex(paths, i), NoHelmet)] else []
  }

  /** The location `checkHeads` saves image `i` to. */
  function HeadSavedAt(storageFolder: string, imageName: string): string
  {
    Join(storageFolder + Sep, imageName)
  }

  /** `checkHeads`: when "head" is among the labels, saves the image and
      appends `[name, path, "No Helmet"]` for image `i` to the caller's list;
      otherwise changes nothing. Returns the caller's list. */
  method CheckHeads(labels: seq<string>, names: seq<string>, paths: seq<string>, image: Canvas,
                    acc: ResultLog, i: int, storageFolder: string, disk: Disk)
    returns (r: ResultLog)
    requires "head" in labels ==> ValidIndex(names, i) && ValidIndex(paths, i)
    modifies acc, disk
    ensures r == acc
    ensures acc.rows == old(acc.rows) + HeadRows(labels, names, paths, i)
    ensures "head" in labels ==>
              disk.images == old(disk.images)[HeadSavedAt(storageFolder, PyIndex(names, i)) := image.Snapshot()]
    ensures "head" !in labels ==> disk.images == old(disk.images)
    ensures disk.tables == old(disk.tables)
  {
    if "head" in labels {
      var imageName := PyIndex(names, i);
      var imageLoc := Join(storageFolder + Sep, imageName);
      disk.WriteImage(imageLoc, image);
      var imgLoc := PyIndex(paths, i);
      var message := NoHelmet;
      acc.Append(Row(imageName, imgLoc, message));
    }
    return acc;
  }

  /** An image saved by `checkHeads` lands where `processDetections` would
      save it, unless the storage folder is empty or already ends in "/". */
  lemma HeadSavedAtAgrees(storageFolder: string, imageName: string)
    requires storageFolder != [] && !EndsInSep(storageFolder)
    ensures HeadSavedAt(storageFolder, imageName) == MainScript.SavedAt(storageFolder, imageName)
  {
    JoinTrailingSeparator(storageFolder, imageName);
  }

  /** The head rule tests list membership, not substrings: a label that only
      contains "head" adds no row. */
  lemma HeadIsExactLabel(names: seq<string>, paths: seq<string>)
    requires |names| > 0 && |paths| > 0
    ensures HeadRows(["bare_head"], names, paths, 0) == []
    ensures HeadRows(["helmet", "head"], names, paths, 0) == [Row(names[0], paths[0], NoHelmet)]
  {
    assert "bare_head" != "head";
    assert ["helmet", "head"][1] == "head";
  }
}
