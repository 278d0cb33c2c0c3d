/** Auto-labelling: running a detector on images and turning its predictions
    into label files over the project's own class list. */
module AutoLabel {
  import opened Types
  import opened Storage
  import opened FileUtils
  import opened AnnotationUtils

  /** One detection: a class index into the detector's own class list, and the
      normalised centre and size. int(box.cls) of a class index is never negative. */
  datatype Prediction = Prediction(classId: nat, x: real, y: real, w: real, h: real)

  /** A loaded detector: the class names it was trained on (its `names`, keyed
      0..n-1) and what predict(image_path, conf_threshold) gives, or the error
      it raises. */
  datatype Detector = Detector(classNames: seq<string>, predict: (string, real) -> Result<seq<Prediction>>)

  /** A prediction survives when its class id is inside the detector's class
      list and the detector's name for it is one of the project's class names
      (exact, case-sensitive). */
  predicate Kept(p: Prediction, modelClasses: seq<string>, classNames: seq<string>) {
    p.classId < |modelClasses| && modelClasses[p.classId] in classNames
  }

  /** A kept prediction as a label: the first index of its class name among the
      project's class names, with its geometry unchanged. */
  function Remap(p: Prediction, modelClasses: seq<string>, classNames: seq<string>): (b: Box)
    requires Kept(p, modelClasses, classNames)
    ensures 0 <= b.classId < |classNames| && classNames[b.classId] == modelClasses[p.classId]
    ensures forall j :: 0 <= j < b.classId ==> classNames[j] != modelClasses[p.classId]
    ensures b.xCenter == p.x && b.yCenter == p.y && b.width == p.w && b.height == p.h
  {
    Box(IndexOf(classNames, modelClasses[p.classId]), p.x, p.y, p.w, p.h)
  }

  /** The labels made from `preds`: each kept prediction remapped, in order. */
  function Reconciled(preds: seq<Prediction>, modelClasses: seq<string>, classNames: seq<string>): seq<Box> {
    if preds == [] then []
    else
      var p := preds[|preds| - 1];
      Reconciled(preds[..|preds| - 1], modelClasses, classNames)
        + (if Kept(p, modelClasses, classNames) then [Remap(p, modelClasses, classNames)] else [])
  }

  /** The positions of the kept predictions, in increasing order. */
  function KeptIndices(preds: seq<Prediction>, modelClasses: seq<string>, classNames: seq<string>): seq<nat> {
    if preds == [] then []
    else
      KeptIndices(preds[..|preds| - 1], modelClasses, classNames)
        + (if Kept(preds[|preds| - 1], modelClasses, classNames) then [|preds| - 1] else [])
  }

  /** The labels are exactly the kept predictions, remapped, in their original
      order: a subsequence of the predictions, picked at increasing positions,
      leaving out precisely the predictions with an id outside the detector's
      list or a name the project does not have. */
  lemma ReconciledMeaning(preds: seq<Prediction>, modelClasses: seq<string>, classNames: seq<string>)
    ensures var idx := KeptIndices(preds, modelClasses, classNames);
      forall i, j :: 0 <= i < j < |idx| ==> idx[i] < idx[j]
    ensures var idx := KeptIndices(preds, modelClasses, classNames);
      forall i :: i in idx <==> 0 <= i < |preds| && Kept(preds[i], modelClasses, classNames)
    ensures var idx, r := KeptIndices(preds, modelClasses, classNames), Reconciled(preds, modelClasses, classNames);
      |r| == |idx| && forall j :: 0 <= j < |r| ==>
        idx[j] < |preds| && Kept(preds[idx[j]], modelClasses, classNames)
        && r[j] == Remap(preds[idx[j]], modelClasses, classNames)
  {
    KeptIndicesIncreasing(preds, modelClasses, classNames);
    KeptIndicesExact(preds, modelClasses, classNames);
    ReconciledAtKept(preds, modelClasses, classNames);
  }

  lemma {:induction false} KeptIndicesIncreasing(preds: seq<Prediction>, modelClasses: seq<string>, classNames: seq<string>)
    ensures var idx := KeptIndices(preds, modelClasses, classNames);
      forall i :: 0 <= i < |idx| ==> idx[i] < |preds|
    ensures var idx := KeptIndices(preds, modelClasses, classNames);
      forall i, j :: 0 <= i < j < |idx| ==> idx[i] < idx[j]
    decreases |preds|
  {
    if preds != [] {
      var front := preds[..|preds| - 1];
      KeptIndicesIncreasing(front, modelClasses, classNames);
      var last := if Kept(preds[|preds| - 1], modelClasses, classNames) then [|preds| - 1] else [];
      assert KeptIndices(preds, modelClasses, classNames) == KeptIndices(front, modelClasses, classNames) + last;
    }
  }

  lemma {:induction false} KeptIndicesExact(preds: seq<Prediction>, modelClasses: seq<string>, classNames: seq<string>)
    ensures var idx := KeptIndices(preds, modelClasses, classNames);
      forall i :: i in idx <==> 0 <= i < |preds| && Kept(preds[i], modelClasses, classNames)
    decreases |preds|
  {
    if preds != [] {
      var front := preds[..|preds| - 1];
      KeptIndicesExact(front, modelClasses, classNames);
      assert forall i :: 0 <= i < |front| ==> front[i] == preds[i];
    }
  }

  lemma {:induction false} ReconciledAtKept(preds: seq<Prediction>, modelClasses: seq<string>, classNames: seq<string>)
    ensures var idx, r := KeptIndices(preds, modelClasses, classNames), Reconciled(preds, modelClasses, classNames);
      |r| == |idx| && forall j :: 0 <= j < |r| ==>
        idx[j] < |preds| && Kept(preds[idx[j]], modelClasses, classNames)
        && r[j] == Remap(preds[idx[j]], modelClasses, classNames)
    decreases |preds|
  {
    if preds != [] {
      var front := preds[..|preds| - 1];
      ReconciledAtKept(front, modelClasses, classNames);
      assert forall i :: 0 <= i < |front| ==> front[i] == preds[i];
    }
  }

  /** There are never more labels than predictions. */
  lemma {:induction false} ReconciledLength(preds: seq<Prediction>, modelClasses: seq<string>, classNames: seq<string>)
    ensures |Reconciled(preds, modelClasses, classNames)| <= |preds|
    decreases |preds|
  {
    if preds != [] {
      ReconciledLength(preds[..|preds| - 1], modelClasses, classNames);
    }
  }

  /** Every label's class id is a valid index into the project's class names. */
  lemma ReconciledIdsValid(preds: seq<Prediction>, modelClasses: seq<string>, classNames: seq<string>)
    ensures forall b :: b in Reconciled(preds, modelClasses, classNames) ==> 0 <= b.classId < |classNames|
  {
    ReconciledMeaning(preds, modelClasses, classNames);
  }

  /** With no usable prediction, the labels are empty. */
  lemma {:induction false} NothingKept(preds: seq<Prediction>, modelClasses: seq<string>, classNames: seq<string>)
    requires forall i :: 0 <= i < |preds| ==> !Kept(preds[i], modelClasses, classNames)
    ensures Reconciled(preds, modelClasses, classNames) == []
    decreases |preds|
  {
    if preds != [] {
      NothingKept(preds[..|preds| - 1], modelClasses, classNames);
    }
  }

  /** The filtering loop of _autolabel_single_image: keeps and remaps the
      predictions one by one, reading the detector's class list each time. */
  method ReconcilePredictions(preds: seq<Prediction>, detector: Detector, classNames: seq<string>)
    returns (filtered: seq<Box>)
    ensures filtered == Reconciled(preds, detector.classNames, classNames)
  {
    filtered := [];
    for i := 0 to |preds|
      invariant filtered == Reconciled(preds[..i], detector.classNames, classNames)
    {
      var p := preds[i];
      assert preds[..i + 1][..i] == preds[..i];
      var modelClasses := detector.classNames;
      if p.classId < |modelClasses| {
        var name := modelClasses[p.classId];
        if name in classNames {
          filtered := filtered + [Box(IndexOf(classNames, name), p.x, p.y, p.w, p.h)];
        }
      }
    }
    assert preds[..|preds|] == preds;
  }

  /** The label files, and how the run ended. */
  datatype Run = Run(texts: map<string, string>, outcome: Outcome)

  /** Labelling one image: when the detector answers, the image's label file is
      replaced by the reconciled labels, even when there are none; when it
      raises, nothing is written. */
  function LabelImage(texts: map<string, string>, imagePath: string, classNames: seq<string>,
                      conf: real, detector: Detector): Run {
    match detector.predict(imagePath, conf)
    case Err(e) => Run(texts, Fail(e))
    case Ok(preds) => Run(texts[AnnotationPath(imagePath) := Encode(Reconciled(preds, detector.classNames, classNames))], Pass)
  }

  /** _autolabel_single_image: predicts, filters and overwrites the image's
      label file. The image files are not touched. */
  method AutolabelSingleImage(disk: Disk, imagePath: string, classNames: seq<string>,
                              conf: real, detector: Detector) returns (outcome: Outcome)
    modifies disk
    ensures Run(disk.texts, outcome) == LabelImage(old(disk.texts), imagePath, classNames, conf, detector)
    ensures disk.images == old(disk.images)
  {
    var annPath := AnnotationPath(imagePath);
    var preds := detector.predict(imagePath, conf);
    if preds.Err? {
      return Fail(preds.error);
    }
    var filtered := ReconcilePredictions(preds.value, detector, classNames);
    WriteYoloAnnotation(disk, annPath, filtered);
    return Pass;
  }

  /** Labelling the images in order with no error handling: the first image
      whose prediction raises ends the run, keeping what was written before it. */
  function LabelPaths(texts: map<string, string>, paths: seq<string>, classNames: seq<string>,
                      conf: real, detector: Detector): Run {
    if paths == [] then Run(texts, Pass)
    else
      var before := LabelPaths(texts, paths[..|paths| - 1], classNames, conf, detector);
      if before.outcome.Fail? then before
      else LabelImage(before.texts, paths[|paths| - 1], classNames, conf, detector)
  }

  /** A run only ever writes the label files of the images it was given. */
  lemma {:induction false} LabelPathsFrame(texts: map<string, string>, paths: seq<string>, classNames: seq<string>,
                                           conf: real, detector: Detector, key: string)
    requires forall k :: 0 <= k < |paths| ==> key != AnnotationPath(paths[k])
    ensures var after := LabelPaths(texts, paths, classNames, conf, detector).texts;
      (key in after <==> key in texts) && (key in texts ==> after[key] == texts[key])
    decreases |paths|
  {
    if paths != [] {
      LabelPathsFrame(texts, paths[..|paths| - 1], classNames, conf, detector, key);
    }
  }

  /** When the detector answers for every image, the run succeeds and each
      label file holds the labels of the last image in the list that maps to
      it: images sharing a stem overwrite each other in list order. */
  lemma {:induction false} LabelPathsLastWriterWins(texts: map<string, string>, paths: seq<string>,
                                                    classNames: seq<string>, conf: real, detector: Detector, k: nat)
    requires forall i :: 0 <= i < |paths| ==> detector.predict(paths[i], conf).Ok?
    requires k < |paths|
    requires forall j :: k < j < |paths| ==> AnnotationPath(paths[j]) != AnnotationPath(paths[k])
    ensures var run := LabelPaths(texts, paths, classNames, conf, detector);
      run.outcome == Pass && AnnotationPath(paths[k]) in run.texts
      && run.texts[AnnotationPath(paths[k])]
         == Encode(Reconciled(detector.predict(paths[k], conf).value, detector.classNames, classNames))
    decreases |paths|
  {
    var front := paths[..|paths| - 1];
    AllAnswered(texts, front, classNames, conf, detector);
    if k < |paths| - 1 {
      LabelPathsLastWriterWins(texts, front, classNames, conf, detector, k);
    }
  }

  /** When the detector answers for every image, the run succeeds. */
  lemma {:induction false} AllAnswered(texts: map<string, string>, paths: seq<string>,
                                       classNames: seq<string>, conf: real, detector: Detector)
    requires forall i :: 0 <= i < |paths| ==> detector.predict(paths[i], conf).Ok?
    ensures LabelPaths(texts, paths, classNames, conf, detector).outcome == Pass
    decreases |paths|
  {
    if paths != [] {
      AllAnswered(texts, paths[..|paths| - 1], classNames, conf, detector);
    }
  }

  /** When the images before i were labelled without error and the detector
      raises on image i, the run fails with that error and the label files are
      those written for the images before i; no later image is labelled. */
  lemma {:induction false} LabelPathsStops(texts: map<string, string>, paths: seq<string>,
                                           classNames: seq<string>, conf: real, detector: Detector, i: nat)
    requires i < |paths|
    requires LabelPaths(texts, paths[..i], classNames, conf, detector).outcome == Pass
    requires detector.predict(paths[i], conf).Err?
    ensures LabelPaths(texts, paths, classNames, conf, detector)
            == Run(LabelPaths(texts, paths[..i], classNames, conf, detector).texts,
                   Fail(detector.predict(paths[i], conf).error))
    decreases |paths|
  {
    var front := paths[..|paths| - 1];
    if i < |paths| - 1 {
      assert front[..i] == paths[..i];
      LabelPathsStops(texts, front, classNames, conf, detector, i);
    } else {
      assert front == paths[..i];
    }
  }

  /** "Label All Images": with no class names, no images or no loaded detector
      it does nothing; otherwise it labels every image in list order and stops
      at the first one whose prediction raises. */
  method LabelAllImages(disk: Disk, classNames: seq<string>, imagePaths: seq<string>,
                        conf: real, model: Option<Detector>) returns (outcome: Outcome)
    modifies disk
    ensures (classNames == [] || imagePaths == [] || model.None?) ==>
      outcome == Pass && disk.texts == old(disk.texts)
    ensures classNames != [] && imagePaths != [] && model.Some? ==>
      Run(disk.texts, outcome) == LabelPaths(old(disk.texts), imagePaths, classNames, conf, model.value)
    ensures disk.images == old(disk.images)
  {
    if classNames == [] || imagePaths == [] || model.None? {
      return Pass;
    }
    var detector := model.value;
    outcome := Pass;
    for i := 0 to |imagePaths|
      invariant Run(disk.texts, outcome) == LabelPaths(old(disk.texts), imagePaths[..i], classNames, conf, detector)
      invariant outcome == Pass
      invariant disk.images == old(disk.images)
    {
      assert imagePaths[..i + 1][..i] == imagePaths[..i];
      outcome := AutolabelSingleImage(disk, imagePaths[i], classNames, conf, detector);
      if outcome.Fail? {
        LabelPathsStops(old(disk.texts), imagePaths, classNames, conf, detector, i);
        return;
      }
    }
    assert imagePaths[..|imagePaths|] == imagePaths;
  }

  /** "Label Current Image": labels image_paths[current_image_idx], where a
      negative index counts from the end and an index out of range raises
      IndexError before anything is predicted. */
  method LabelCurrentImage(disk: Disk, classNames: seq<string>, imagePaths: seq<string>, currentIdx: int,
                           conf: real, model: Option<Detector>) returns (outcome: Outcome)
    modifies disk
    ensures (classNames == [] || imagePaths == [] || model.None?) ==>
      outcome == Pass && disk.texts == old(disk.texts)
    ensures classNames != [] && imagePaths != [] && model.Some? ==>
      match PyIndex(imagePaths, currentIdx)
      case Err(e) => outcome == Fail(e) && disk.texts == old(disk.texts)
      case Ok(path) => Run(disk.texts, outcome) == LabelImage(old(disk.texts), path, classNames, conf, model.value)
    ensures disk.images == old(disk.images)
  {
    if classNames == [] || imagePaths == [] || model.None? {
      return Pass;
    }
    var path := PyIndex(imagePaths, currentIdx);
    if path.Err? {
      return Fail(path.error);
    }
    outcome := AutolabelSingleImage(disk, path.value, classNames, conf, model.value);
  }
}
