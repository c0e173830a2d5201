/** The values and the mutable objects both scripts share: the result rows,
    the CSV table they become, the caller-owned result list, the image
    buffer that boxes are drawn onto, and the output directory. */
module Records {

  datatype Status = Helmet | NoHelmet

  function StatusText(s: Status): (t: string)
    ensures t == "Helmet" <==> s == Helmet
    ensures t == "No Helmet" <==> s == NoHelmet
  {
    match s
    case Helmet => "Helmet"
    case NoHelmet => "No Helmet"
  }

  /** One entry of the result list: `[image_name, image_path, status]`. */
  datatype Row = Row(name: string, location: string, status: Status)

  function Fields(r: Row): seq<string>
  {
    [r.name, r.location, StatusText(r.status)]
  }

  const Header: seq<string> := ["Image Name", "Image Location", "Status"]

  /** The records a CSV report holds: the fixed header, then every result row
      in order. Quoting and line endings are a matter of serialisation. */
  function CsvTable(result: seq<Row>): (table: seq<seq<string>>)
    ensures |table| == |result| + 1
    ensures table[0] == Header
    ensures forall k :: 0 <= k < |result| ==> table[k + 1] == Fields(result[k])
  {
    [Header] + seq(|result|, k requires 0 <= k < |result| => Fields(result[k]))
  }

  /** Appending a result row appends one record to the table. */
  lemma CsvTableSnoc(result: seq<Row>, r: Row)
    ensures CsvTable(result + [r]) == CsvTable(result) + [Fields(r)]
  {
    var lhs, rhs := CsvTable(result + [r]), CsvTable(result) + [Fields(r)];
    assert |lhs| == |rhs|;
    forall k | 0 <= k < |lhs| ensures lhs[k] == rhs[k] {
      if 0 < k <= |result| {
        assert lhs[k] == Fields(result[k - 1]);
      }
    }
  }

  /** The list `csv_result_msg_final` that the callers own and that
      `processDetections` and `checkHeads` append to in place. */
  class ResultLog {
    var rows: seq<Row>

    constructor ()
      ensures rows == []
    {
      rows := [];
    }

    /** `list.append`. */
    method Append(r: Row)
      modifies this
      ensures rows == old(rows) + [r]
    {
      rows := rows + [r];
    }
  }

  datatype Color = Color(b: int, g: int, r: int)

  /** One rectangle with its caption, as `draw_bounding_box` draws it: the
      corners, the colour, and the caption (label and confidence) anchored
      ten pixels above the top-left corner. */
  datatype Stroke = Stroke(x1: int, y1: int, x2: int, y2: int, color: Color,
                           caption: string, conf: real, textX: int, textY: int)

  /** What an image file holds: the picture it was read from and the
      strokes drawn onto it since. */
  datatype Picture = Picture(source: string, strokes: seq<Stroke>)

  /** A decoded image buffer (`cv2.imread`); drawing appends to `strokes`. */
  class Canvas {
    const source: string
    var strokes: seq<Stroke>

    constructor Read(path: string)
      ensures source == path && strokes == []
    {
      source := path;
      strokes := [];
    }

    function Snapshot(): (p: Picture)
      reads this
      ensures p.source == source && p.strokes == strokes
    {
      Picture(source, strokes)
    }

    method Draw(s: Stroke)
      modifies this
      ensures strokes == old(strokes) + [s]
    {
      strokes := strokes + [s];
    }
  }

  /** The files the scripts write: annotated images (`cv2.imwrite`) and CSV
      reports, each keyed by its path. Images and reports are kept apart, so
      a report written at a path does not replace an image at the same path;
      the scripts never use one path for both. */
  class Disk {
    var images: map<string, Picture>
    var tables: map<string, seq<seq<string>>>

    constructor ()
      ensures images == map[] && tables == map[]
    {
      images := map[];
      tables := map[];
    }

    /** `cv2.imwrite(path, image)`: overwrites silently. */
    method WriteImage(path: string, image: Canvas)
      modifies this
      ensures images == old(images)[path := image.Snapshot()]
      ensures tables == old(tables)
    {
      images := images[path := image.Snapshot()];
    }

    /** `open(path, "w")`: creates the file or truncates it. */
    method Create(path: string)
      modifies this
      ensures tables == old(tables)[path := []]
      ensures images == old(images)
    {
      tables := tables[path := []];
    }

    /** `writer.writerow(record)` on an open file. */
    method WriteRecord(path: string, record: seq<string>)
      requires path in tables
      modifies this
      ensures tables == old(tables)[path := old(tables[path]) + [record]]
      ensures images == old(images)
    {
      tables := tables[path := tables[path] + [record]];
    }
  }
}
