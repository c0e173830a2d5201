/** What the external detector hands back for one image, and the decision
    rules `main.py` applies to it: the "helmet" test, the confidence
    threshold, the box colour and the status of an image. */
module Detector {
  import opened Text
  import opened Records

  /** Box corners `xyxy` as the detector reports them (floating point). */
  datatype Box = Box(x1: real, y1: real, x2: real, y2: real)

  /** One detection: its box, its confidence and its class id (a float in
      the detector's arrays, turned into a table key with `int`). */
  datatype Detection = Detection(box: Box, conf: real, cls: real)

  /** One element of the detector's result list: the detections of the
      image and the detector's class-name table. */
  datatype Frame = Frame(detections: seq<Detection>, names: map<int, string>)

  const Threshold: real := 0.25

  /** Python's `int()` on a float: truncation toward zero. */
  function Trunc(x: real): (n: int)
    ensures x >= 0.0 ==> n as real <= x < n as real + 1.0
    ensures x < 0.0 ==> n as real - 1.0 < x <= n as real
  {
    if x >= 0.0 then x.Floor else -((-x).Floor)
  }

  /** Every class id of the detections has an entry in the name table. */
  predicate KnownClasses(names: map<int, string>, ds: seq<Detection>)
  {
    forall d :: d in ds ==> Trunc(d.cls) in names
  }

  function LabelOf(names: map<int, string>, d: Detection): string
    requires Trunc(d.cls) in names
  {
    names[Trunc(d.cls)]
  }

  /** `'helmet' in label.lower()`. */
  predicate MentionsHelmet(name: string)
  {
    Contains(Lower(name), "helmet")
  }

  /** The test `processDetections` applies to each detection. */
  predicate Qualifies(name: string, conf: real)
  {
    MentionsHelmet(name) && conf > Threshold
  }

  /** Some detection in `ds` qualifies. */
  predicate HelmetSeen(names: map<int, string>, ds: seq<Detection>)
    requires KnownClasses(names, ds)
  {
    exists d :: d in ds && Qualifies(LabelOf(names, d), d.conf)
  }

  /** The status `processDetections` records for an image whose first
      result is `f`. */
  function StatusOf(f: Frame): (s: Status)
    requires KnownClasses(f.names, f.detections)
    ensures s == Helmet <==>
              exists d :: d in f.detections && MentionsHelmet(LabelOf(f.names, d)) && d.conf > 0.25
  {
    if HelmetSeen(f.names, f.detections) then Helmet else NoHelmet
  }

  /** The colour rule of `draw_bounding_box` (colours are in cv2's BGR order). */
  function BoxColor(name: string): (c: Color)
    ensures c == Color(0, 255, 0) <==> Contains(Lower(name), "helmet")
    ensures c != Color(0, 255, 0) ==> c == Color(255, 0, 0)
  {
    if MentionsHelmet(name) then Color(0, 255, 0) else Color(255, 0, 0)
  }

  /** What `draw_bounding_box` draws for one detection. */
  function StrokeFor(box: Box, name: string, conf: real): (s: Stroke)
    ensures s.x1 == Trunc(box.x1) && s.y1 == Trunc(box.y1)
    ensures s.x2 == Trunc(box.x2) && s.y2 == Trunc(box.y2)
    ensures s.textX == s.x1 && s.textY == s.y1 - 10
    ensures s.color == BoxColor(name) && s.caption == name && s.conf == conf
  {
    var x1, y1 := Trunc(box.x1), Trunc(box.y1);
    Stroke(x1, y1, Trunc(box.x2), Trunc(box.y2), BoxColor(name), name, conf, x1, y1 - 10)
  }

  /** The strokes `processDetections` draws for `ds`, in detection order:
      one per qualifying detection, none for the others. */
  function HelmetStrokes(names: map<int, string>, ds: seq<Detection>): seq<Stroke>
    requires KnownClasses(names, ds)
  {
    if ds == [] then []
    else
      var d := ds[|ds| - 1];
      var name := LabelOf(names, d);
      HelmetStrokes(names, ds[..|ds| - 1])
        + (if Qualifies(name, d.conf) then [StrokeFor(d.box, name, d.conf)] else [])
  }

  /** The detections seen so far are known when all of them are. */
  lemma KnownPrefix(names: map<int, string>, ds: seq<Detection>, i: int)
    requires KnownClasses(names, ds) && 0 <= i <= |ds|
    ensures KnownClasses(names, ds[..i])
  {
    assert forall e :: e in ds[..i] ==> e in ds;
  }

  /** One more detection: it decides the status on its own if it
      qualifies, and adds its stroke at the end if it qualifies. */
  lemma HelmetStep(names: map<int, string>, ds: seq<Detection>, d: Detection)
    requires KnownClasses(names, ds + [d])
    ensures KnownClasses(names, ds) && Trunc(d.cls) in names
    ensures HelmetSeen(names, ds + [d])
              == (HelmetSeen(names, ds) || Qualifies(LabelOf(names, d), d.conf))
    ensures HelmetStrokes(names, ds + [d])
              == HelmetStrokes(names, ds)
                 + (if Qualifies(LabelOf(names, d), d.conf)
                    then [StrokeFor(d.box, LabelOf(names, d), d.conf)] else [])
  {
    assert forall e :: e in ds ==> e in ds + [d];
    assert d in ds + [d];
    assert (ds + [d])[..|ds + [d]| - 1] == ds;
    assert forall e :: e in ds + [d] <==> e in ds || e == d;
  }

  /** The step of a loop over `ds`: after detection `i` the drawing is the
      drawing of the detections before it plus its own stroke, if it qualifies. */
  lemma HelmetPrefixStep(names: map<int, string>, ds: seq<Detection>, i: int)
    requires KnownClasses(names, ds) && 0 <= i < |ds|
    ensures KnownClasses(names, ds[..i]) && KnownClasses(names, ds[..i + 1]) && Trunc(ds[i].cls) in names
    ensures HelmetStrokes(names, ds[..i + 1])
              == HelmetStrokes(names, ds[..i])
                 + (if Qualifies(LabelOf(names, ds[i]), ds[i].conf)
                    then [StrokeFor(ds[i].box, LabelOf(names, ds[i]), ds[i].conf)] else [])
  {
    assert ds[..i + 1] == ds[..i] + [ds[i]];
    KnownPrefix(names, ds, i);
    KnownPrefix(names, ds, i + 1);
    HelmetStep(names, ds[..i], ds[i]);
  }

  /** Exactly the qualifying detections are drawn, and each is drawn in green. */
  lemma {:induction false} HelmetStrokesExact(names: map<int, string>, ds: seq<Detection>)
    requires KnownClasses(names, ds)
    ensures forall s :: s in HelmetStrokes(names, ds) ==> s.color == Color(0, 255, 0)
    ensures forall s :: s in HelmetStrokes(names, ds) ==>
              exists d :: d in ds && Qualifies(LabelOf(names, d), d.conf)
                          && s == StrokeFor(d.box, LabelOf(names, d), d.conf)
    ensures forall d :: d in ds && Qualifies(LabelOf(names, d), d.conf) ==>
              StrokeFor(d.box, LabelOf(names, d), d.conf) in HelmetStrokes(names, ds)
  {
    if ds != [] {
      var init := ds[..|ds| - 1];
      assert ds == init + [ds[|ds| - 1]];
      HelmetStrokesExact(names, init);
    }
  }

  /** Something is drawn exactly when the image is classified "Helmet". */
  lemma {:induction false} HelmetStrokesEmpty(names: map<int, string>, ds: seq<Detection>)
    requires KnownClasses(names, ds)
    ensures HelmetStrokes(names, ds) == [] <==> !HelmetSeen(names, ds)
  {
    if ds != [] {
      var init, d := ds[..|ds| - 1], ds[|ds| - 1];
      assert ds == init + [d];
      HelmetStep(names, init, d);
      HelmetStrokesEmpty(names, init);
    }
  }

  /** Drawing distributes over concatenation of detection lists. */
  lemma {:induction false} HelmetStrokesAppend(names: map<int, string>, a: seq<Detection>, b: seq<Detection>)
    requires KnownClasses(names, a + b)
    ensures KnownClasses(names, a) && KnownClasses(names, b)
    ensures HelmetStrokes(names, a + b) == HelmetStrokes(names, a) + HelmetStrokes(names, b)
    decreases |b|
  {
    assert forall d :: d in a ==> d in a + b;
    assert forall d :: d in b ==> d in a + b;
    if b == [] {
      assert a + b == a;
    } else {
      var b' := b[..|b| - 1];
      assert (a + b)[..|a + b| - 1] == a + b';
      assert (a + b)[|a + b| - 1] == b[|b| - 1];
      assert forall d :: d in a + b' ==> d in a + b;
      HelmetStrokesAppend(names, a, b');
    }
  }

  /** Taking the last element off one list and a matching element out of a
      reordering of it leaves two reorderings of each other. */
  lemma RemoveMatching<T>(a: seq<T>, b: seq<T>, j: int)
    requires a != [] && multiset(a) == multiset(b)
    requires 0 <= j < |b| && b[j] == a[|a| - 1]
    ensures multiset(a[..|a| - 1]) == multiset(b[..j] + b[j + 1..])
  {
    var x := a[|a| - 1];
    assert a == a[..|a| - 1] + [x];
    assert b == b[..j] + [x] + b[j + 1..];
    calc {
      multiset(b[..j] + b[j + 1..]);
      multiset(b[..j]) + multiset(b[j + 1..]);
      multiset(b) - multiset{x};
      multiset(a) - multiset{x};
      multiset(a[..|a| - 1]);
    }
  }

  /** The order of the detections does not matter: a reordering draws the
      same strokes, possibly in another order. */
  lemma {:induction false} HelmetStrokesReorder(names: map<int, string>, a: seq<Detection>, b: seq<Detection>)
    requires multiset(a) == multiset(b)
    requires KnownClasses(names, a)
    ensures KnownClasses(names, b)
    ensures multiset(HelmetStrokes(names, a)) == multiset(HelmetStrokes(names, b))
    decreases |a|
  {
    assert forall d :: d in b ==> d in multiset(a);
    if a != [] {
      var x := a[|a| - 1];
      var a' := a[..|a| - 1];
      assert x in multiset(b);
      var j :| 0 <= j < |b| && b[j] == x;
      RemoveMatching(a, b, j);
      assert a == a' + [x];
      HelmetStrokesAppend(names, a', [x]);
      HelmetStrokesRemove(names, b, j);
      HelmetStrokesReorder(names, a', b[..j] + b[j + 1..]);
    }
  }

  /** Taking one detection out of a list takes its strokes out of the
      drawing, wherever it stood. */
  lemma HelmetStrokesRemove(names: map<int, string>, b: seq<Detection>, j: int)
    requires KnownClasses(names, b) && 0 <= j < |b|
    ensures KnownClasses(names, b[..j] + b[j + 1..]) && KnownClasses(names, [b[j]])
    ensures multiset(HelmetStrokes(names, b))
              == multiset(HelmetStrokes(names, b[..j] + b[j + 1..])) + multiset(HelmetStrokes(names, [b[j]]))
  {
    var b1, x, b2 := b[..j], b[j], b[j + 1..];
    assert b == (b1 + [x]) + b2;
    assert forall d :: d in b1 + b2 ==> d in b;
    HelmetStrokesAppend(names, b1 + [x], b2);
    HelmetStrokesAppend(names, b1, [x]);
    HelmetStrokesAppend(names, b1, b2);
    MultisetMiddle(HelmetStrokes(names, b1), HelmetStrokes(names, [x]), HelmetStrokes(names, b2));
  }

  lemma MultisetMiddle<T>(s1: seq<T>, sx: seq<T>, s2: seq<T>)
    ensures multiset(s1 + sx + s2) == multiset(s1 + s2) + multiset(sx)
  {
  }

  /** Nor does the status depend on the order of the detections. */
  lemma StatusReorder(f: Frame, g: Frame)
    requires f.names == g.names && multiset(f.detections) == multiset(g.detections)
    requires KnownClasses(f.names, f.detections)
    ensures KnownClasses(g.names, g.detections)
    ensures StatusOf(f) == StatusOf(g)
  {
    assert forall d :: d in f.detections <==> d in multiset(f.detections);
    assert forall d :: d in g.detections <==> d in multiset(g.detections);
  }

  /** "helmet" is found whatever its case. */
  lemma HelmetAnyCase()
    ensures MentionsHelmet("helmet") && MentionsHelmet("Helmet") && MentionsHelmet("HELMET")
  {
    assert Lower("HELMET") == "helmet";
    assert Lower("Helmet") == "helmet";
    assert Lower("helmet") == "helmet";
    assert OccursAt("helmet", "helmet", 0);
  }

  /** "helmet" is found behind a prefix. */
  lemma HelmetAfterPrefix()
    ensures MentionsHelmet("safety_helmet")
  {
    var l := Lower("safety_helmet");
    assert l[7..13] == "helmet";
    assert OccursAt(l, "helmet", 7);
  }

  /** "helmet" is found before a suffix, in any case. */
  lemma HelmetBeforeSuffix()
    ensures MentionsHelmet("Helmet-X")
  {
    var l := Lower("Helmet-X");
    assert l[0..6] == "helmet";
    assert OccursAt(l, "helmet", 0);
  }

  /** Labels shorter than "helmet" never mention it. */
  lemma ShortLabels()
    ensures !MentionsHelmet("head") && !MentionsHelmet("helm")
  {
    assert |Lower("head")| < |"helmet"| && |Lower("helm")| < |"helmet"|;
  }

  /** The threshold is strict: a helmet seen with confidence exactly 0.25
      leaves the image at "No Helmet"; anything above it counts. */
  lemma ThresholdIsStrict(box: Box)
    ensures StatusOf(Frame([Detection(box, 0.25, 0.0)], map[0 := "helmet"])) == NoHelmet
    ensures StatusOf(Frame([Detection(box, 0.2500001, 0.0)], map[0 := "helmet"])) == Helmet
  {
    HelmetAnyCase();
    var d := Detection(box, 0.2500001, 0.0);
    assert Trunc(0.0) == 0;
    assert d in [d] && Qualifies(LabelOf(map[0 := "helmet"], d), d.conf);
  }
}
