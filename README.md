# Helmet detection: a Dafny model of the pipeline's own logic

The scripts load every image in a folder and run a pretrained detector on
each one. They label each image "Helmet" or "No Helmet", save the annotated
image, and write a CSV report. The detector and the image library are
external. This project models the logic between them:

- **Image discovery.** `main.py`'s `imageLoader` keeps the directory entries
  that end in `.png`, `.jpg` or `.jpeg`, in any case, and joins each one to
  the folder. `utils/helperFunctions.py`'s `imageLoader` keeps every entry.
- **Classification.** `processDetections` sets an image's status to "Helmet"
  exactly when some detection's label contains "helmet" (case-insensitive)
  and its confidence is strictly above 0.25. It draws every such detection,
  saves the image, and appends one row to the caller's list. When the
  detector returned no result, it does none of this. `processImages` runs
  this over all images in order.
- **The alternative rule.** `checkHeads` appends one "No Helmet" row exactly
  when "head" is one of the labels.
- **Report layout.** Both `saveResultCSV` functions write the fixed header
  `Image Name, Image Location, Status`, then every row in order.
- **Annotation colour.** `draw_bounding_box` draws green (0,255,0) when the
  lower-cased label contains "helmet", otherwise (255,0,0). Colours are in
  cv2's BGR order.

The model has six modules:

- `Text`: `str.lower`, `in` and `endswith` on strings.
- `Paths`: `os.path.join`.
- `Records`: the shared values and the mutable objects.
  - The result row, and the CSV table the rows become.
  - `ResultLog`, the caller-owned result list that is appended to in place.
  - `Canvas`, the image buffer that boxes are drawn onto.
  - `Disk`, the output directory with its image files and CSV files.
- `Detector`: the detector's output, the status rule and the drawing rule.
- `MainScript`: `main.py`.
- `HelperFunctions`: `utils/helperFunctions.py`.

`Disk`, `Canvas` and `ResultLog` are classes because the scripts change
them in place. Their methods state the whole new state. The decision rules
are functions, and the lemmas prove their properties:

- The status is an if-and-only-if.
- Every qualifying detection is drawn, and only those, all in green.
- Neither the status nor the drawn boxes depend on the order of the
  detections.
- Row k of `processImages` comes from the k-th image the detector answered.
  There is at most one row per image, and exactly one when every image got
  an answer.
- The report is the header followed by the rows.

Three consequences of the code are worth stating:

- `processDetections` draws only the detections that qualify as helmets
  (main.py:41-43). So in `main.py` the (255,0,0) branch of the colour rule
  is never reached (`Detector.HelmetStrokesExact`).
- An image is read and its detector answer processed whatever the read
  returned (main.py:53-55); nothing checks that the read succeeded.
- A missing input folder raises inside `os.listdir` (main.py:8). No
  separate error kind exists for it.

## Model

| member | source | states |
|---|---|---|
| `Text.Lower` | main.py:9 | lower-casing keeps the length and maps each character on its own: "A" to "Z" become "a" to "z", every other character is unchanged |
| `Text.ContainsInContext` | main.py:41 | `t in s` finds `t` wherever it stands: text on either side does not hide it |
| `Paths.JoinShape` | main.py:11 | `Paths.Join` models `os.path.join(folder, name)`: an absolute name replaces the folder; otherwise the result starts with the folder and ends with the name, with exactly one "/" between them when the folder is non-empty and does not already end in "/" |
| `Paths.JoinTrailingSeparator` | utils/helperFunctions.py:104 | joining to `folder + "/"` gives the same path as joining to `folder` when the folder is non-empty and has no trailing "/" |
| `Paths.JoinAll` | main.py:11 | the path list has the length of the name list, and path k is the folder joined with name k |
| `Records.StatusText` | main.py:30-42 | the status text is "Helmet" exactly for the Helmet status and "No Helmet" exactly for the other |
| `Records.CsvTable` | main.py:18-20 | the report has one record more than the result list; record 0 is the fixed header, and record k+1 is the fields of row k |
| `Records.CsvTableSnoc` | main.py:19-20 | writing one more row appends exactly its fields to the report |
| `Records.ResultLog.constructor` | main.py:51 | a new result list is empty |
| `Records.ResultLog.Append` | main.py:47 | `append` adds the row at the end and leaves earlier rows unchanged |
| `Records.Canvas.Read` | main.py:53 | a freshly read image carries its source path and no drawing |
| `Records.Canvas.Draw` | main.py:25-27 | drawing adds one stroke at the end of the image's strokes |
| `Records.Disk.WriteImage` | main.py:46 | `cv2.imwrite` sets the file at the path to the image's current picture, silently overwriting, and touches no CSV file |
| `Records.Disk.Create` | main.py:16 | opening with "w" leaves an empty file at the path |
| `Records.Disk.WriteRecord` | main.py:18 | `writerow` appends one record to that file only |
| `Detector.Trunc` | main.py:23 | `int()` truncates toward zero: the result lies within 1 of the input, on the side of zero |
| `Detector.StatusOf` | main.py:30-42 | the status is Helmet if and only if some detection's label, lower-cased, contains "helmet" and its confidence is strictly above 0.25 |
| `Detector.BoxColor` | main.py:24 | the colour is (0,255,0) if and only if the lower-cased label contains "helmet", otherwise (255,0,0) |
| `Detector.StrokeFor` | main.py:22-27 | the rectangle's corners are the truncated box corners, its colour follows the label, and its caption (label, confidence) is anchored at (x1, y1-10) |
| `Detector.HelmetStep` | main.py:39-43 | one more detection turns the status to Helmet exactly when it qualifies, and adds its stroke at the end exactly when it qualifies |
| `Detector.HelmetPrefixStep` | main.py:39-43 | after the loop reaches detection i, the drawing is that of the detections before it plus its own stroke exactly when it qualifies |
| `Detector.HelmetStrokesExact` | main.py:39-43 | every drawn stroke belongs to a qualifying detection and is green; every qualifying detection is drawn (no short-circuit) |
| `Detector.HelmetStrokesEmpty` | main.py:39-43 | nothing is drawn exactly when no detection qualifies, that is, exactly when the status stays "No Helmet" |
| `Detector.HelmetStrokesAppend` | main.py:39-43 | drawing over two runs of detections is drawing over each in turn |
| `Detector.HelmetStrokesRemove` | main.py:39-43 | taking one detection out of the list takes exactly its own strokes out of the drawing (as a multiset), wherever it stood |
| `Detector.HelmetStrokesReorder` | main.py:39-43 | reordering the detections draws the same strokes (as a multiset) |
| `Detector.StatusReorder` | main.py:39-42 | reordering the detections leaves the status unchanged |
| `Detector.HelmetAnyCase` | main.py:41 | "helmet", "Helmet" and "HELMET" all qualify as helmet labels |
| `Detector.HelmetAfterPrefix` | main.py:41 | "safety_helmet" is a helmet label: text before "helmet" does not hide it |
| `Detector.HelmetBeforeSuffix` | main.py:41 | "Helmet-X" is a helmet label: text after "helmet", and upper case, do not hide it |
| `Detector.ShortLabels` | main.py:41 | "head" and "helm" are not helmet labels |
| `Detector.ThresholdIsStrict` | main.py:41 | a helmet at confidence exactly 0.25 leaves the image "No Helmet"; at 0.2500001 it makes it "Helmet" |
| `MainScript.ImageNames` | main.py:9 | the filter keeps no more entries than listed, and every kept entry has a supported extension in any case |
| `MainScript.ImageNamesCounts` | main.py:9 | each entry with a supported extension is kept as often as it is listed, and every other entry is dropped |
| `MainScript.ImageNamesAppend` | main.py:9 | filtering commutes with concatenation, so kept entries stay in listing order |
| `MainScript.ImageNamesAllImages` | main.py:9 | a listing of images only is kept whole |
| `MainScript.ImageLoader` | main.py:7-12 | the names are the filtered listing, and the path list has the same length, with path k being the folder joined with name k |
| `MainScript.DrawBoundingBox` | main.py:22-27 | exactly one stroke, the rule's stroke for the box, label and confidence, is added to the image |
| `MainScript.ScanOne` | main.py:40-43 | one pass of the loop: a qualifying detection sets the status to Helmet and adds exactly its stroke; any other detection changes neither |
| `MainScript.ScanDetections` | main.py:39-43 | after the loop the status is the image's status under the helmet rule, and the image carries exactly the strokes of the qualifying detections, in detection order, after those it had |
| `MainScript.SaveIf` | main.py:31-33 | with no detector result, no file changes; otherwise the annotated picture is written at its path, one file is added at most, and every other file keeps its picture |
| `MainScript.ProcessDetections` | main.py:29-48 | returns the caller's own list. An empty result leaves the list, the image and the files unchanged. Otherwise it draws exactly the qualifying strokes of the first result, saves the image under its name in the storage folder, and appends one row with the image name, the image path and the status |
| `MainScript.Answered` | main.py:52-55 | each answered index names an image below n for which the detector gave a result |
| `MainScript.AnsweredExact` | main.py:52-55 | the answered indices are in increasing order, and every answered image below n is among them |
| `MainScript.CollectedByIndex` | main.py:50-57 | row k carries the name and path of the k-th answered image, at the same index in both lists, and the status of its first result |
| `MainScript.AnsweredBounds` | main.py:52-55 | there are at most n answered indices, and they are exactly 0..n-1 when every image was answered |
| `MainScript.CollectedCount` | main.py:50-57 | there are at most as many rows as images, and exactly one per image, in image order, when the detector answered every image |
| `MainScript.ProcessImages` | main.py:50-57 | the returned list is new and holds the collected rows in image order; the image files are those saved image by image, with later images overwriting earlier ones of the same name; no CSV file changes |
| `MainScript.SaveResultCSV` | main.py:14-20 | the file `<folder>/<name>.csv` holds the header and then every row in order, replacing earlier content; nothing else changes |
| `HelperFunctions.ImageLoader` | utils/helperFunctions.py:25-47 | the name list is exactly the listing, with no filter; the path list has its length, and path k is the folder joined with entry k |
| `HelperFunctions.LoadersAgreeOnImages` | main.py:7-12 | on a folder of images only, `main.py`'s loader returns the same names and paths as the unfiltered loader |
| `HelperFunctions.SaveResultCSV` | utils/helperFunctions.py:50-71 | the file holds the fixed header, then `result[0..len)` in index order, replacing earlier content |
| `HelperFunctions.PyIndex` | utils/helperFunctions.py:103-108 | `s[i]` counts from the front for i >= 0 and from the end for negative i |
| `HelperFunctions.HeadRows` | utils/helperFunctions.py:100-112 | at most one row. There is one exactly when "head" is one of the labels, it carries the name and path of image i, and its status is never "Helmet" |
| `HelperFunctions.CheckHeads` | utils/helperFunctions.py:74-114 | returns the caller's own list. With "head" among the labels, it saves the image and appends `[name, path, "No Helmet"]` for image i at the end. Otherwise the list and the files are unchanged |
| `HelperFunctions.HeadSavedAtAgrees` | utils/helperFunctions.py:104 | `checkHeads` saves to the same place as `processDetections` when the storage folder is non-empty and has no trailing "/" |
| `HelperFunctions.HeadIsExactLabel` | utils/helperFunctions.py:100 | the head rule is list membership: the label "bare_head" alone adds no row, while ["helmet", "head"] adds one |

## Left out

- The detector and its loading (`YOLO(model_path)`, `model(image)`) are not modelled. What the detector answers for image i is the parameter `outputs[i]`: a list of results, each with detections (box, confidence, class id) and a class-name table. Only the first result is read, as in the source.
- cv2 pixel data is not modelled. An image is its source path plus the strokes drawn on it. Line thickness, font and font scale are not modelled. The caption keeps the label and the raw confidence, without the `:.2f` formatting.
- The CSV serialisation is not modelled: quoting, delimiters and line endings. The helper's `open` without `newline=''` is one of these. The report is modelled as its sequence of records.
- `os.listdir` is not modelled. The listing is an input in listing order, and its failure on a missing folder is not modelled.
- `os.path.join` follows POSIX rules. Windows drive and backslash handling is not modelled.
- `str.lower` lower-cases ASCII letters only. Unicode case mapping is not modelled.
- `show_file_size` is left out. It works on file sizes with float division and rounding.
- The `__main__` block is left out: argument handling, `makedirs`, the hard-coded model path and the catch-all exception handler. So are all `print` calls.
- MainScript.ProcessDetections requires every class id of the first result to be in that result's name table. The source raises `KeyError` otherwise, and that failure path is not modelled.
- MainScript.ProcessImages requires the name list to be at least as long as the path list, and one detector answer per path. The source would raise `IndexError` part-way, and that is not modelled. It also requires what ProcessDetections requires of each answered image.
- HelperFunctions.CheckHeads requires image i to be a valid Python index into both lists when "head" is among the labels. Otherwise the source raises `IndexError`, and that is not modelled.
- A failed `cv2.imread` is not modelled: `Canvas.Read` always yields a picture, and every `cv2.imwrite` succeeds. In the source an unreadable file gives `None`, drawing on it or writing it (main.py:25, main.py:46) raises, and the catch-all at main.py:75-76 ends the run without writing the CSV report.
