/** The manual annotation component: the class list typed by the user, moving
    between images, deleting the current one, the boxes shown on the canvas and
    saving what the canvas holds, with the boxes of each image kept in the
    session by the image's position in the list. */
module Annotator {
  import opened Types
  import opened Text
  import opened Decimal
  import opened Config
  import opened Storage
  import opened FileUtils
  import opened AnnotationUtils
  import opened BoxDrawing

  // ---------------------------------------------------------------------------
  // The class list

  /** The stripped pieces that are not empty, in order. */
  function NonEmptyStripped(pieces: seq<string>): seq<string> {
    if pieces == [] then []
    else
      var name := Strip(pieces[|pieces| - 1]);
      NonEmptyStripped(pieces[..|pieces| - 1]) + (if name != [] then [name] else [])
  }

  /** render_class_input: the lines of the text area split on "\n", each
      stripped, the empty ones dropped. */
  function ParseClassNames(classInput: string): seq<string> {
    NonEmptyStripped(SplitOn(classInput, '\n'))
  }

  /** A class name as the parser leaves it: not empty, no line break, and no
      whitespace at either end. */
  predicate IsClassName(name: string) {
    name != [] && '\n' !in name && !IsSpace(name[0]) && !IsSpace(name[|name| - 1])
  }

  lemma {:induction false} NonEmptyStrippedNames(pieces: seq<string>)
    requires forall k :: 0 <= k < |pieces| ==> '\n' !in pieces[k]
    ensures forall k :: 0 <= k < |NonEmptyStripped(pieces)| ==> IsClassName(NonEmptyStripped(pieces)[k])
    decreases |pieces|
  {
    if pieces != [] {
      var piece := pieces[|pieces| - 1];
      NonEmptyStrippedNames(pieces[..|pieces| - 1]);
      StripMeaning(piece);
      var name, i := Strip(piece), |piece| - |StripLeft(piece)|;
      assert forall j :: 0 <= j < |name| ==> name[j] == piece[i + j];
    }
  }

  /** Every parsed class name is non-empty, holds no line break and is its
      own strip. */
  lemma ClassNamesWellFormed(classInput: string)
    ensures forall k :: 0 <= k < |ParseClassNames(classInput)| ==>
      IsClassName(ParseClassNames(classInput)[k]) && Strip(ParseClassNames(classInput)[k]) == ParseClassNames(classInput)[k]
  {
    NonEmptyStrippedNames(SplitOn(classInput, '\n'));
    forall k | 0 <= k < |ParseClassNames(classInput)|
      ensures Strip(ParseClassNames(classInput)[k]) == ParseClassNames(classInput)[k]
    {
      StripUnchanged(ParseClassNames(classInput)[k]);
    }
  }

  lemma {:induction false} NonEmptyStrippedOfNames(names: seq<string>)
    requires forall k :: 0 <= k < |names| ==> IsClassName(names[k])
    ensures NonEmptyStripped(names) == names
    decreases |names|
  {
    if names != [] {
      NonEmptyStrippedOfNames(names[..|names| - 1]);
      StripUnchanged(names[|names| - 1]);
    }
  }

  /** Typing class names one per line gives back exactly those names, in order. */
  lemma ClassNamesRoundTrip(names: seq<string>)
    requires forall k :: 0 <= k < |names| ==> IsClassName(names[k])
    ensures ParseClassNames(JoinWith(names, '\n')) == names
  {
    if names == [] {
      assert SplitOn([], '\n') == [[]];
      assert Strip([]) == [];
    } else {
      SplitOnJoin(names, '\n');
      NonEmptyStrippedOfNames(names);
    }
  }

  // ---------------------------------------------------------------------------
  // Boxes on the canvas

  /** A rectangle handed to the canvas: left, top, width and height in pixels,
      the class colour, metadata.class_id and the id. */
  datatype Shape = Shape(left: real, top: real, width: real, height: real,
                         stroke: string, classId: int, id: string)

  /** The rectangle for the box at position `idx` on an image `height` by
      `width` pixels. */
  function ToShape(b: Box, idx: nat, height: nat, width: nat): Shape {
    var w, h := width as real, height as real;
    Shape((b.xCenter - b.width / 2.0) * w, (b.yCenter - b.height / 2.0) * h, b.width * w, b.height * h,
          GetClassColor(b.classId), b.classId, FormatInt(idx))
  }

  /** A rectangle the canvas gives back; metadata.class_id is absent for a
      rectangle drawn by hand. */
  datatype CanvasObject = CanvasObject(left: real, top: real, width: real, height: real, classId: Option<int>)

  /** The box saved for a canvas rectangle: centre and size divided by the
      image size, and the selected class for a rectangle without a class id. */
  function FromCanvas(o: CanvasObject, height: nat, width: nat, defaultClass: int): Box
    requires height > 0 && width > 0
  {
    var w, h := width as real, height as real;
    Box(if o.classId.Some? then o.classId.value else defaultClass,
        (o.left + o.width / 2.0) / w, (o.top + o.height / 2.0) / h, o.width / w, o.height / h)
  }

  /** The canvas rectangle of a shape, as the canvas returns it unmoved. */
  function Unmoved(s: Shape): CanvasObject {
    CanvasObject(s.left, s.top, s.width, s.height, Some(s.classId))
  }

  /** A centre moved to the leading edge and scaled, plus half the scaled
      size, scaled back, is the centre again. */
  lemma CentreBack(centre: real, size: real, scale: real)
    requires scale > 0.0
    ensures ((centre - size / 2.0) * scale + (size * scale) / 2.0) / scale == centre
    ensures (size * scale) / scale == size
  {
    assert (centre - size / 2.0) * scale + (size * scale) / 2.0 == centre * scale;
  }

  /** Saving a box shown and left untouched on the canvas gives the box back. */
  lemma ShapeRoundTrip(b: Box, idx: nat, height: nat, width: nat, defaultClass: int)
    requires height > 0 && width > 0
    ensures FromCanvas(Unmoved(ToShape(b, idx, height, width)), height, width, defaultClass) == b
  {
    CentreBack(b.xCenter, b.width, width as real);
    CentreBack(b.yCenter, b.height, height as real);
  }

  /** Showing a saved rectangle again puts it where the canvas had it. */
  lemma CanvasRoundTrip(o: CanvasObject, idx: nat, height: nat, width: nat, defaultClass: int)
    requires height > 0 && width > 0
    ensures var s := ToShape(FromCanvas(o, height, width, defaultClass), idx, height, width);
      s.left == o.left && s.top == o.top && s.width == o.width && s.height == o.height
  {
    var w, h := width as real, height as real;
    var b := FromCanvas(o, height, width, defaultClass);
    assert b.xCenter * w == o.left + o.width / 2.0;
    assert b.width * w == o.width;
    assert b.yCenter * h == o.top + o.height / 2.0;
    assert b.height * h == o.height;
  }

  /** Shapes at different positions have different ids. */
  lemma ShapeIdsDistinct(b: Box, c: Box, i: nat, j: nat, height: nat, width: nat)
    requires i != j
    ensures ToShape(b, i, height, width).id != ToShape(c, j, height, width).id
  {
    ParseFormatInt(i);
    ParseFormatInt(j);
  }

  /** The shapes loop of render_annotation_controls: one rectangle per box, in order. */
  method BuildShapes(annotations: seq<Box>, height: nat, width: nat) returns (shapes: seq<Shape>)
    ensures |shapes| == |annotations|
    ensures forall k :: 0 <= k < |annotations| ==> shapes[k] == ToShape(annotations[k], k, height, width)
  {
    shapes := [];
    for idx := 0 to |annotations|
      invariant |shapes| == idx
      invariant forall k :: 0 <= k < idx ==> shapes[k] == ToShape(annotations[k], k, height, width)
    {
      var b := annotations[idx];
      var w, h := width as real, height as real;
      var left := (b.xCenter - b.width / 2.0) * w;
      var top := (b.yCenter - b.height / 2.0) * h;
      shapes := shapes + [Shape(left, top, b.width * w, b.height * h, GetClassColor(b.classId), b.classId, FormatInt(idx))];
    }
  }

  /** The save loop: one box per canvas rectangle, in canvas order. */
  method BuildAnnotations(objects: seq<CanvasObject>, height: nat, width: nat, defaultClass: int)
    returns (newAnns: seq<Box>)
    requires height > 0 && width > 0
    ensures |newAnns| == |objects|
    ensures forall k :: 0 <= k < |objects| ==> newAnns[k] == FromCanvas(objects[k], height, width, defaultClass)
  {
    newAnns := [];
    for i := 0 to |objects|
      invariant |newAnns| == i
      invariant forall k :: 0 <= k < i ==> newAnns[k] == FromCanvas(objects[k], height, width, defaultClass)
    {
      var o := objects[i];
      var w, h := width as real, height as real;
      var clsNew := if o.classId.Some? then o.classId.value else defaultClass;
      newAnns := newAnns + [Box(clsNew, (o.left + o.width / 2.0) / w, (o.top + o.height / 2.0) / h, o.width / w, o.height / h)];
    }
  }

  // ---------------------------------------------------------------------------
  // Moving between images

  /** "Previous": one back, never below the first image. */
  function PrevIndex(idx: nat): nat {
    if idx > 0 then idx - 1 else idx
  }

  /** "Next": one on, never past the last of `count` images. */
  function NextIndex(idx: nat, count: nat): nat {
    if idx < count - 1 then idx + 1 else idx
  }

  /** The list without the element at position i (list.pop(i)). */
  function RemoveAt<T>(s: seq<T>, i: nat): seq<T>
    requires i < |s|
  {
    s[..i] + s[i + 1..]
  }

  /** The index after a delete that leaves `remaining` images: unchanged while
      it is in range, otherwise max(0, remaining - 1). */
  function IndexAfterDelete(idx: nat, remaining: nat): nat {
    if idx >= remaining then (if remaining - 1 > 0 then remaining - 1 else 0) else idx
  }

  /** The index render starts from: an index past the end goes back to 0. */
  function ResetIndex(idx: nat, count: nat): nat {
    if idx >= count then 0 else idx
  }

  /** The index points at an image, or is 0 when there is none. */
  predicate InRange(idx: nat, count: nat) {
    if count == 0 then idx == 0 else idx < count
  }

  /** Previous and Next move by at most one and keep the index in range. */
  lemma NavigationInRange(idx: nat, count: nat)
    requires InRange(idx, count)
    ensures InRange(PrevIndex(idx), count) && InRange(NextIndex(idx, count), count)
    ensures idx - 1 <= PrevIndex(idx) <= idx && idx <= NextIndex(idx, count) <= idx + 1
    ensures PrevIndex(idx) == idx <==> idx == 0
    ensures NextIndex(idx, count) == idx <==> count == 0 || idx == count - 1
  {
  }

  /** Previous undoes Next, and Next undoes Previous, away from the ends. */
  lemma PrevUndoesNext(idx: nat, count: nat)
    ensures idx + 1 < count ==> PrevIndex(NextIndex(idx, count)) == idx
    ensures 0 < idx < count ==> NextIndex(PrevIndex(idx), count) == idx
  {
  }

  /** Deleting removes exactly the image at the index: the others keep their
      order, the list is one shorter, and the index then shows the image
      after the deleted one, or the new last image when the last was deleted. */
  lemma DeleteMeaning(paths: seq<string>, idx: nat)
    requires idx < |paths|
    ensures var rest := RemoveAt(paths, idx);
      |rest| == |paths| - 1 && multiset(rest) + multiset{paths[idx]} == multiset(paths)
      && (forall k :: 0 <= k < idx ==> rest[k] == paths[k])
      && (forall k :: idx <= k < |rest| ==> rest[k] == paths[k + 1])
    ensures var rest, i := RemoveAt(paths, idx), IndexAfterDelete(idx, |paths| - 1);
      InRange(i, |rest|)
      && (idx < |rest| ==> i == idx && rest[i] == paths[idx + 1])
      && (0 < idx == |rest| ==> i == idx - 1 && rest[i] == paths[idx - 1])
  {
    assert paths == paths[..idx] + [paths[idx]] + paths[idx + 1..];
  }

  /** At render an index past the end goes back to the first image, not the last. */
  lemma ResetGoesToFirst(idx: nat, count: nat)
    ensures InRange(ResetIndex(idx, count), count)
    ensures idx >= count ==> ResetIndex(idx, count) == 0
    ensures idx < count ==> ResetIndex(idx, count) == idx
  {
  }

  // ---------------------------------------------------------------------------
  // One click of the navigation buttons

  /** The buttons of render_image_navigation; one of them, or none, is clicked
      in a run. */
  datatype NavAction = NoAction | PreviousAction | NextAction | DeleteAction

  /** The index, the list and the outcome after a click. Delete indexes the
      list before popping, so an index past the end raises IndexError and
      changes nothing. */
  datatype Nav = Nav(idx: nat, paths: seq<string>, outcome: Outcome)

  function NavStep(idx: nat, paths: seq<string>, action: NavAction): Nav {
    match action
    case NoAction => Nav(idx, paths, Pass)
    case PreviousAction => Nav(PrevIndex(idx), paths, Pass)
    case NextAction => Nav(NextIndex(idx, |paths|), paths, Pass)
    case DeleteAction =>
      if idx < |paths| then Nav(IndexAfterDelete(idx, |paths| - 1), RemoveAt(paths, idx), Pass)
      else Nav(idx, paths, Fail(IndexError))
  }

  /** The image file a click leaves on disk: a delete removes the current one. */
  function NavImages(images: map<string, seq<byte>>, idx: nat, paths: seq<string>, action: NavAction): map<string, seq<byte>> {
    if action == DeleteAction && idx < |paths| then images - {paths[idx]} else images
  }

  /** The label files a click leaves on disk: a delete removes the current
      image's label file. */
  function NavTexts(texts: map<string, string>, idx: nat, paths: seq<string>, action: NavAction): map<string, string> {
    if action == DeleteAction && idx < |paths| then texts - {AnnotationPath(paths[idx])} else texts
  }

  /** A click from an index that points at an image keeps the index in range,
      and a delete from there always succeeds. */
  lemma NavStepInRange(idx: nat, paths: seq<string>, action: NavAction)
    requires InRange(idx, |paths|)
    ensures InRange(NavStep(idx, paths, action).idx, |NavStep(idx, paths, action).paths|)
    ensures paths != [] ==> NavStep(idx, paths, action).outcome == Pass
    ensures NavStep(idx, paths, action).paths == [] <==> paths == [] || (action == DeleteAction && |paths| == 1)
  {
    NavigationInRange(idx, |paths|);
    if action == DeleteAction && idx < |paths| {
      DeleteMeaning(paths, idx);
    }
  }

  // ---------------------------------------------------------------------------
  // The annotation controls of one image

  /** The boxes the save button builds from what the canvas returned (nothing
      when the canvas returned no objects), with `defaultClass` for a
      rectangle drawn by hand. A zero width or height raises on the first
      division. */
  function SavedBoxes(canvas: Option<seq<CanvasObject>>, height: nat, width: nat, defaultClass: int): (r: Result<seq<Box>>)
    ensures r.Err? <==> canvas.Some? && canvas.value != [] && (height == 0 || width == 0)
    ensures r.Err? ==> r.error == ZeroDivisionError
    ensures r.Ok? && canvas.Some? ==>
      (|r.value| == |canvas.value|
       && forall k :: 0 <= k < |canvas.value| ==> r.value[k] == FromCanvas(canvas.value[k], height, width, defaultClass))
    ensures r.Ok? && canvas.None? ==> r.value == []
  {
    var objects := if canvas.Some? then canvas.value else [];
    if objects == [] then Ok([])
    else if height == 0 || width == 0 then Err(ZeroDivisionError)
    else Ok(seq(|objects|, k requires 0 <= k < |objects| => FromCanvas(objects[k], height, width, defaultClass)))
  }

  /** The canvas objects of boxes shown and left untouched. */
  function UnmovedAll(annotations: seq<Box>, height: nat, width: nat): (objects: seq<CanvasObject>)
    ensures |objects| == |annotations|
    ensures forall k :: 0 <= k < |annotations| ==> objects[k] == Unmoved(ToShape(annotations[k], k, height, width))
  {
    seq(|annotations|, k requires 0 <= k < |annotations| => Unmoved(ToShape(annotations[k], k, height, width)))
  }

  /** Saving a canvas nobody touched writes back the boxes it showed. */
  lemma SaveUntouched(annotations: seq<Box>, height: nat, width: nat, defaultClass: int)
    requires height > 0 && width > 0
    ensures SavedBoxes(Some(UnmovedAll(annotations, height, width)), height, width, defaultClass) == Ok(annotations)
  {
    var r := SavedBoxes(Some(UnmovedAll(annotations, height, width)), height, width, defaultClass);
    forall k | 0 <= k < |annotations|
      ensures r.value[k] == annotations[k]
    {
      ShapeRoundTrip(annotations[k], k, height, width, defaultClass);
    }
    assert r.value == annotations;
  }

  /** What render_annotation_controls leaves in the label files and the
      session cache, and the boxes it shows (or the error it raises). */
  datatype Step = Step(texts: map<string, string>, cache: map<nat, seq<Box>>, shown: Result<seq<Box>>)

  /** The controls for the image at position `idx`: the cached boxes of that
      position, read from the label file only when the position has none; on
      save, the label file and the cache entry both replaced by the canvas
      boxes. The boxes shown are those of before the save. */
  function ControlsStep(texts: map<string, string>, cache: map<nat, seq<Box>>, paths: seq<string>, idx: nat,
                        height: nat, width: nat, defaultClass: int,
                        canvas: Option<seq<CanvasObject>>, save: bool): Step
  {
    var loaded := Loaded(texts, cache, paths, idx);
    if loaded.Err? then Step(texts, cache, loaded)
    else
      var stored := cache[idx := loaded.value];
      if !save then Step(texts, stored, loaded)
      else match SavedBoxes(canvas, height, width, defaultClass)
        case Err(e) => Step(texts, stored, Err(e))
        case Ok(newAnns) => Step(texts[AnnotationPath(paths[idx]) := Encode(newAnns)], stored[idx := newAnns], loaded)
  }

  /** The boxes of the image at position `idx`: the cached ones, or the label
      file read when the position has none; indexing past the end raises. */
  function Loaded(texts: map<string, string>, cache: map<nat, seq<Box>>, paths: seq<string>, idx: nat): (r: Result<seq<Box>>)
    ensures r.Ok? ==> idx < |paths|
    ensures idx >= |paths| ==> r == Err(IndexError)
  {
    if idx >= |paths| then Err(IndexError)
    else if idx in cache then Ok(cache[idx])
    else ReadAnnotation(texts, AnnotationPath(paths[idx]))
  }

  /** A position already in the cache is shown from the cache whatever its
      label file holds, and without a save nothing changes. */
  lemma CachedEntryWins(texts: map<string, string>, cache: map<nat, seq<Box>>, paths: seq<string>, idx: nat,
                        height: nat, width: nat, defaultClass: int, canvas: Option<seq<CanvasObject>>, save: bool)
    requires idx < |paths| && idx in cache
    ensures var step := ControlsStep(texts, cache, paths, idx, height, width, defaultClass, canvas, save);
      step.shown == Ok(cache[idx]) || (save && step.shown == Err(ZeroDivisionError))
    ensures !save ==> ControlsStep(texts, cache, paths, idx, height, width, defaultClass, canvas, save) == Step(texts, cache, Ok(cache[idx]))
  {
  }

  /** A position not yet cached is read from its label file once and the
      result is kept; a read error stores nothing. */
  lemma FirstVisitReads(texts: map<string, string>, cache: map<nat, seq<Box>>, paths: seq<string>, idx: nat,
                        height: nat, width: nat, defaultClass: int, canvas: Option<seq<CanvasObject>>)
    requires idx < |paths| && idx !in cache
    ensures var step := ControlsStep(texts, cache, paths, idx, height, width, defaultClass, canvas, false);
      var read := ReadAnnotation(texts, AnnotationPath(paths[idx]));
      step.shown == read && step.texts == texts
      && (read.Ok? ==> step.cache == cache[idx := read.value])
      && (read.Err? ==> step.cache == cache)
  {
  }

  /** A save replaces the label file and the cache entry of the position by
      exactly the canvas boxes, leaves every other entry alone, and reading
      the file back gives the canvas boxes rounded to six decimals. */
  lemma SaveReplaces(texts: map<string, string>, cache: map<nat, seq<Box>>, paths: seq<string>, idx: nat,
                     height: nat, width: nat, defaultClass: int, canvas: Option<seq<CanvasObject>>)
    requires idx < |paths|
    requires idx in cache || ReadAnnotation(texts, AnnotationPath(paths[idx])).Ok?
    requires SavedBoxes(canvas, height, width, defaultClass).Ok?
    ensures var step := ControlsStep(texts, cache, paths, idx, height, width, defaultClass, canvas, true);
      var newAnns, annPath := SavedBoxes(canvas, height, width, defaultClass).value, AnnotationPath(paths[idx]);
      step.shown.Ok? && step.cache == cache[idx := newAnns]
      && step.texts == texts[annPath := Encode(newAnns)]
      && ReadAnnotation(step.texts, annPath) == Ok(RoundedAll(newAnns))
  {
    var newAnns, annPath := SavedBoxes(canvas, height, width, defaultClass).value, AnnotationPath(paths[idx]);
    RoundTrip(texts, annPath, newAnns);
  }

  /** The cache is keyed by position: after deleting the image at `idx`, the
      image that moves up to `idx` is shown with the boxes cached for the
      deleted one. */
  lemma StaleAfterDelete(texts: map<string, string>, cache: map<nat, seq<Box>>, paths: seq<string>, idx: nat,
                         height: nat, width: nat, defaultClass: int, canvas: Option<seq<CanvasObject>>)
    requires idx + 1 < |paths| && idx in cache
    ensures var nav := NavStep(idx, paths, DeleteAction);
      nav.idx == idx && nav.paths[idx] == paths[idx + 1]
      && ControlsStep(NavTexts(texts, idx, paths, DeleteAction), cache, nav.paths, nav.idx,
                      height, width, defaultClass, canvas, false).shown == Ok(cache[idx])
  {
    DeleteMeaning(paths, idx);
  }

  /** Image.open on a path: the decoded height and width, or None when the
      file is missing or cannot be decoded. */
  function Decoded(images: map<string, seq<byte>>, path: string, decode: seq<byte> -> Option<(nat, nat)>): Option<(nat, nat)> {
    if path in images then decode(images[path]) else None
  }

  /** Deleting the only image leaves an empty list, and render then indexes
      it at position 0, which raises IndexError. */
  lemma DeleteOnlyImage(path: string, idx: nat)
    ensures NavStep(ResetIndex(idx, 1), [path], DeleteAction) == Nav(0, [], Pass)
    ensures PyIndex(NavStep(ResetIndex(idx, 1), [path], DeleteAction).paths, 0) == Err(IndexError)
  {
  }

  /** What one run returns when it shows an image: its path, the canvas
      rectangles and the preview with the boxes drawn. */
  datatype Rendered = Rendered(imagePath: string, shapes: seq<Shape>, preview: Image)

  /** What render_annotation_controls shows for the image at position idx of
      paths, of the given size, over a preview that already holds `before`: the error of the
      session step, else the error of drawing the boxes, else the path, one
      rectangle per box and the preview with every box drawn after `before`. */
  ghost predicate Shows(r: Result<Option<Rendered>>, shown: Result<seq<Box>>, classNames: seq<string>,
                        paths: seq<string>, idx: nat, height: nat, width: nat, textSize: string -> (int, int),
                        before: seq<DrawOp>)
    reads if r.Ok? && r.value.Some? then {r.value.value.preview} else {}
  {
    && (shown.Err? ==> r == Err(shown.error))
    && (shown.Ok? ==>
          var expected := DrawOps(shown.value, classNames, height, width, textSize);
          (r.Err? <==> expected.Err?) && (r.Err? ==> r.error == expected.error)
          && (r.Ok? ==>
                (r.value.Some?
                 && idx < |paths| && r.value.value.imagePath == paths[idx]
                 && |r.value.value.shapes| == |shown.value|
                 && (forall k :: 0 <= k < |shown.value| ==>
                       r.value.value.shapes[k] == ToShape(shown.value[k], k, height, width))
                 && r.value.value.preview.height == height && r.value.value.preview.width == width
                 && r.value.value.preview.drawn == before + expected.value)))
  }

  // ---------------------------------------------------------------------------
  // The component

  /** AnnotatorComponent: the current position, the class names and the image
      list it was rendered with, and the session's per-position cache of boxes
      (the session entries annotations_<i>). */
  class AnnotatorComponent {
    var currentImageIdx: nat
    var classNames: seq<string>
    var imagePaths: seq<string>
    var cache: map<nat, seq<Box>>

    /** A new component over the session's cache entries. */
    constructor(session: map<nat, seq<Box>>)
      ensures currentImageIdx == 0 && classNames == [] && imagePaths == [] && cache == session
    {
      currentImageIdx := 0;
      classNames := [];
      imagePaths := [];
      cache := session;
    }

    /** The "Previous" button. */
    method Previous()
      modifies this
      ensures currentImageIdx == PrevIndex(old(currentImageIdx))
      ensures imagePaths == old(imagePaths) && classNames == old(classNames) && cache == old(cache)
    {
      if currentImageIdx > 0 {
        currentImageIdx := currentImageIdx - 1;
      }
    }

    /** The "Next" button. */
    method Next()
      modifies this
      ensures currentImageIdx == NextIndex(old(currentImageIdx), |old(imagePaths)|)
      ensures imagePaths == old(imagePaths) && classNames == old(classNames) && cache == old(cache)
    {
      if currentImageIdx < |imagePaths| - 1 {
        currentImageIdx := currentImageIdx + 1;
      }
    }

    /** The "Delete Current" button: the image and its label file are deleted,
      the path popped from the list and the index pulled back into range. The
      cache is left as it is. */
    method DeleteCurrent(disk: Disk) returns (outcome: Outcome)
      modifies this, disk
      ensures var nav := NavStep(old(currentImageIdx), old(imagePaths), DeleteAction);
        currentImageIdx == nav.idx && imagePaths == nav.paths && outcome == nav.outcome
      ensures disk.images == NavImages(old(disk.images), old(currentImageIdx), old(imagePaths), DeleteAction)
      ensures disk.texts == NavTexts(old(disk.texts), old(currentImageIdx), old(imagePaths), DeleteAction)
      ensures classNames == old(classNames) && cache == old(cache)
    {
      var current := PyIndex(imagePaths, currentImageIdx);
      if current.Err? {
        return Fail(current.error);
      }
      DeleteImageAndAnnotation(disk, current.value);
      imagePaths := imagePaths[..currentImageIdx] + imagePaths[currentImageIdx + 1..];
      if currentImageIdx >= |imagePaths| {
        currentImageIdx := if |imagePaths| - 1 > 0 then |imagePaths| - 1 else 0;
      }
      outcome := Pass;
    }

    /** render_image_navigation with the button clicked in this run. */
    method Navigate(disk: Disk, action: NavAction) returns (outcome: Outcome)
      modifies this, disk
      ensures var nav := NavStep(old(currentImageIdx), old(imagePaths), action);
        currentImageIdx == nav.idx && imagePaths == nav.paths && outcome == nav.outcome
      ensures disk.images == NavImages(old(disk.images), old(currentImageIdx), old(imagePaths), action)
      ensures disk.texts == NavTexts(old(disk.texts), old(currentImageIdx), old(imagePaths), action)
      ensures classNames == old(classNames) && cache == old(cache)
    {
      outcome := Pass;
      match action
      case NoAction =>
      case PreviousAction => Previous();
      case NextAction => Next();
      case DeleteAction => outcome := DeleteCurrent(disk);
    }

    /** The session part of render_annotation_controls for an image `height`
      by `width` pixels: the cache entry loaded once, then on save the canvas
      boxes written to the label file and put in the cache. */
    method UpdateSession(disk: Disk, height: nat, width: nat, defaultClass: int,
                         canvas: Option<seq<CanvasObject>>, save: bool)
      returns (shown: Result<seq<Box>>)
      modifies this, disk
      ensures var step := ControlsStep(old(disk.texts), old(cache), imagePaths, currentImageIdx,
                                       height, width, defaultClass, canvas, save);
        disk.texts == step.texts && cache == step.cache && shown == step.shown
      ensures disk.images == old(disk.images)
      ensures currentImageIdx == old(currentImageIdx) && imagePaths == old(imagePaths) && classNames == old(classNames)
    {
      shown := LoadEntry(disk);
      if shown.Err? || !save {
        return;
      }
      var saved := SaveEntry(disk, height, width, defaultClass, canvas);
      if saved.Fail? {
        shown := Err(saved.error);
      }
    }

    /** The cache entry of the current position, read from its label file
      only when the position has none; a read error stores nothing. */
    method LoadEntry(disk: Disk) returns (loaded: Result<seq<Box>>)
      modifies this
      ensures loaded == Loaded(disk.texts, old(cache), imagePaths, currentImageIdx)
      ensures loaded.Ok? ==> cache == old(cache)[currentImageIdx := loaded.value]
      ensures loaded.Err? ==> cache == old(cache)
      ensures currentImageIdx == old(currentImageIdx) && imagePaths == old(imagePaths) && classNames == old(classNames)
    {
      if currentImageIdx >= |imagePaths| {
        return Err(IndexError);
      }
      if currentImageIdx !in cache {
        var read := ReadYoloAnnotation(disk, AnnotationPath(imagePaths[currentImageIdx]));
        if read.Err? {
          return read;
        }
        cache := cache[currentImageIdx := read.value];
      }
      loaded := Ok(cache[currentImageIdx]);
    }

    /** The save button for the current position: the canvas boxes written to
      its label file and put in its cache entry. */
    method SaveEntry(disk: Disk, height: nat, width: nat, defaultClass: int, canvas: Option<seq<CanvasObject>>)
      returns (outcome: Outcome)
      requires currentImageIdx < |imagePaths|
      modifies this, disk
      ensures currentImageIdx == old(currentImageIdx) && imagePaths == old(imagePaths) && classNames == old(classNames)
      ensures disk.images == old(disk.images)
      ensures var saved := SavedBoxes(canvas, height, width, defaultClass);
        (saved.Err? ==> outcome == Fail(saved.error) && disk.texts == old(disk.texts) && cache == old(cache))
        && (saved.Ok? ==>
              (outcome == Pass
               && disk.texts == old(disk.texts)[AnnotationPath(imagePaths[currentImageIdx]) := Encode(saved.value)]
               && cache == old(cache)[currentImageIdx := saved.value]))
    {
      var objects := if canvas.Some? then canvas.value else [];
      var newAnns: seq<Box> := [];
      if objects != [] {
        if height == 0 || width == 0 {
          return Fail(ZeroDivisionError);
        }
        newAnns := BuildAnnotations(objects, height, width, defaultClass);
      }
      ghost var saved := SavedBoxes(canvas, height, width, defaultClass);
      assert saved.Ok? && saved.value == newAnns;
      WriteYoloAnnotation(disk, AnnotationPath(imagePaths[currentImageIdx]), newAnns);
      cache := cache[currentImageIdx := newAnns];
      outcome := Pass;
    }

    /** render_annotation_controls for a decoded image (null when there is
      none): the shapes of the cached boxes, the save of the canvas and the
      preview of the boxes as they were before the save. */
    method RenderAnnotationControls(disk: Disk, image: Image?, newClass: string,
                                    canvas: Option<seq<CanvasObject>>, save: bool,
                                    textSize: string -> (int, int))
      returns (r: Result<Option<Rendered>>)
      requires newClass in classNames
      modifies this, disk
      ensures currentImageIdx == old(currentImageIdx) && imagePaths == old(imagePaths) && classNames == old(classNames)
      ensures disk.images == old(disk.images)
      ensures image == null ==> r == Ok(None) && disk.texts == old(disk.texts) && cache == old(cache)
      ensures image != null ==>
        var step := ControlsStep(old(disk.texts), old(cache), imagePaths, currentImageIdx,
                                 image.height, image.width, IndexOf(classNames, newClass), canvas, save);
        disk.texts == step.texts && cache == step.cache
        && Shows(r, step.shown, classNames, imagePaths, currentImageIdx, image.height, image.width, textSize, image.drawn)
      ensures r.Ok? && r.value.Some? ==> fresh(r.value.value.preview)
    {
      if image == null {
        return Ok(None);
      }
      var h, w := image.height, image.width;
      var defaultClass := IndexOf(classNames, newClass);
      var annotations := UpdateSession(disk, h, w, defaultClass, canvas, save);
      if annotations.Err? {
        return Err(annotations.error);
      }
      var shapes := BuildShapes(annotations.value, h, w);
      var preview := DrawBboxes(image, annotations.value, classNames, textSize);
      if preview.Err? {
        return Err(preview.error);
      }
      r := Ok(Some(Rendered(imagePaths[currentImageIdx], shapes, preview.value)));
    }

    /** Image.open and the conversion for the current image: a fresh image of
      the decoded size with nothing drawn on it, or null when opening fails. */
    static method OpenImage(disk: Disk, path: string, decode: seq<byte> -> Option<(nat, nat)>) returns (image: Image?)
      ensures Decoded(disk.images, path, decode).None? ==> image == null
      ensures Decoded(disk.images, path, decode).Some? ==>
        image != null && fresh(image) && image.drawn == []
        && (image.height, image.width) == Decoded(disk.images, path, decode).value
    {
      if path !in disk.images {
        return null;
      }
      var size := decode(disk.images[path]);
      if size.None? {
        return null;
      }
      image := new Image(size.value.0, size.value.1, []);
    }

    /** The start of render: the class names and the image list taken over
      and, for a non-empty list, the index reset and the click applied. */
    method Begin(disk: Disk, classNames: seq<string>, imagePaths: seq<string>, action: NavAction)
      modifies this, disk
      ensures this.classNames == classNames && cache == old(cache)
      ensures imagePaths == [] ==>
        this.imagePaths == [] && currentImageIdx == old(currentImageIdx)
        && disk.images == old(disk.images) && disk.texts == old(disk.texts)
      ensures imagePaths != [] ==>
        var start := ResetIndex(old(currentImageIdx), |imagePaths|);
        var nav := NavStep(start, imagePaths, action);
        currentImageIdx == nav.idx && this.imagePaths == nav.paths
        && disk.images == NavImages(old(disk.images), start, imagePaths, action)
        && disk.texts == NavTexts(old(disk.texts), start, imagePaths, action)
      ensures InRange(currentImageIdx, |this.imagePaths|) || this.imagePaths == []
    {
      this.classNames := classNames;
      this.imagePaths := imagePaths;
      if imagePaths == [] {
        return;
      }
      if currentImageIdx >= |imagePaths| {
        currentImageIdx := 0;
      }
      NavStepInRange(currentImageIdx, imagePaths, action);
      var clicked := Navigate(disk, action);
    }

    /** The end of render: the current image opened (nothing more when that
      fails) and its annotation controls rendered. */
    method ShowCurrent(disk: Disk, decode: seq<byte> -> Option<(nat, nat)>, newClass: string,
                       canvas: Option<seq<CanvasObject>>, save: bool, textSize: string -> (int, int))
      returns (r: Result<Option<Rendered>>)
      requires newClass in classNames
      modifies this, disk
      ensures currentImageIdx == old(currentImageIdx) && imagePaths == old(imagePaths) && classNames == old(classNames)
      ensures disk.images == old(disk.images)
      ensures currentImageIdx >= |imagePaths| ==>
        r == Err(IndexError) && disk.texts == old(disk.texts) && cache == old(cache)
      ensures currentImageIdx < |imagePaths| ==>
        var size := Decoded(disk.images, imagePaths[currentImageIdx], decode);
        (size.None? ==> r == Ok(None) && disk.texts == old(disk.texts) && cache == old(cache))
        && (size.Some? ==>
              var step := ControlsStep(old(disk.texts), old(cache), imagePaths, currentImageIdx,
                                       size.value.0, size.value.1, IndexOf(classNames, newClass), canvas, save);
              disk.texts == step.texts && cache == step.cache
              && Shows(r, step.shown, classNames, imagePaths, currentImageIdx, size.value.0, size.value.1, textSize, []))
      ensures r.Ok? && r.value.Some? ==> fresh(r.value.value.preview)
    {
      var current := PyIndex(imagePaths, currentImageIdx);
      if current.Err? {
        return Err(current.error);
      }
      var image := OpenImage(disk, current.value, decode);
      r := RenderAnnotationControls(disk, image, newClass, canvas, save, textSize);
    }

    /** render as written: for a non-empty list, the index reset to 0 when
      past the end, the click applied, and the image at the index shown. When
      the click deleted the only image the list is empty and indexing it
      raises IndexError. */
    method Render(disk: Disk, classNames: seq<string>, imagePaths: seq<string>, action: NavAction,
                  decode: seq<byte> -> Option<(nat, nat)>, newClass: string,
                  canvas: Option<seq<CanvasObject>>, save: bool, textSize: string -> (int, int))
      returns (r: Result<Option<Rendered>>)
      requires newClass in classNames
      modifies this, disk
      ensures this.classNames == classNames
      ensures imagePaths == [] ==>
        r == Ok(None) && this.imagePaths == [] && currentImageIdx == old(currentImageIdx) && cache == old(cache)
        && disk.images == old(disk.images) && disk.texts == old(disk.texts)
      ensures imagePaths != [] ==>
        var start := ResetIndex(old(currentImageIdx), |imagePaths|);
        var nav := NavStep(start, imagePaths, action);
        currentImageIdx == nav.idx && this.imagePaths == nav.paths
        && disk.images == NavImages(old(disk.images), start, imagePaths, action)
      ensures imagePaths != [] && this.imagePaths == [] ==>
        r == Err(IndexError) && cache == old(cache)
        && disk.texts == NavTexts(old(disk.texts), ResetIndex(old(currentImageIdx), |imagePaths|), imagePaths, action)
      ensures this.imagePaths != [] ==>
        var start := ResetIndex(old(currentImageIdx), |imagePaths|);
        var size := Decoded(disk.images, this.imagePaths[currentImageIdx], decode);
        (size.None? ==> r == Ok(None) && cache == old(cache)
                        && disk.texts == NavTexts(old(disk.texts), start, imagePaths, action))
        && (size.Some? ==>
              var step := ControlsStep(NavTexts(old(disk.texts), start, imagePaths, action), old(cache),
                                       this.imagePaths, currentImageIdx, size.value.0, size.value.1,
                                       IndexOf(classNames, newClass), canvas, save);
              disk.texts == step.texts && cache == step.cache
              && Shows(r, step.shown, classNames, this.imagePaths, currentImageIdx, size.value.0, size.value.1,
                       textSize, []))
      ensures r.Ok? && r.value.Some? ==> fresh(r.value.value.preview)
    {
      Begin(disk, classNames, imagePaths, action);
      if imagePaths == [] {
        return Ok(None);
      }
      r := ShowCurrent(disk, decode, newClass, canvas, save, textSize);
    }

    /** render as evidently intended: the same, except that when the click
      deleted the only image nothing is shown and nothing raises. */
    method RenderCorrected(disk: Disk, classNames: seq<string>, imagePaths: seq<string>, action: NavAction,
                           decode: seq<byte> -> Option<(nat, nat)>, newClass: string,
                           canvas: Option<seq<CanvasObject>>, save: bool, textSize: string -> (int, int))
      returns (r: Result<Option<Rendered>>)
      requires newClass in classNames
      modifies this, disk
      ensures this.classNames == classNames
      ensures imagePaths == [] ==>
        r == Ok(None) && this.imagePaths == [] && currentImageIdx == old(currentImageIdx) && cache == old(cache)
        && disk.images == old(disk.images) && disk.texts == old(disk.texts)
      ensures imagePaths != [] ==>
        var start := ResetIndex(old(currentImageIdx), |imagePaths|);
        var nav := NavStep(start, imagePaths, action);
        currentImageIdx == nav.idx && this.imagePaths == nav.paths
        && disk.images == NavImages(old(disk.images), start, imagePaths, action)
      ensures this.imagePaths == [] ==>
        r == Ok(None) && cache == old(cache)
        && (imagePaths != [] ==>
              disk.texts == NavTexts(old(disk.texts), ResetIndex(old(currentImageIdx), |imagePaths|), imagePaths, action))
      ensures this.imagePaths != [] ==>
        var start := ResetIndex(old(currentImageIdx), |imagePaths|);
        var size := Decoded(disk.images, this.imagePaths[currentImageIdx], decode);
        (size.None? ==> r == Ok(None) && cache == old(cache)
                        && disk.texts == NavTexts(old(disk.texts), start, imagePaths, action))
        && (size.Some? ==>
              var step := ControlsStep(NavTexts(old(disk.texts), start, imagePaths, action), old(cache),
                                       this.imagePaths, currentImageIdx, size.value.0, size.value.1,
                                       IndexOf(classNames, newClass), canvas, save);
              disk.texts == step.texts && cache == step.cache
              && Shows(r, step.shown, classNames, this.imagePaths, currentImageIdx, size.value.0, size.value.1,
                       textSize, []))
      ensures r.Ok? && r.value.Some? ==> fresh(r.value.value.preview)
    {
      Begin(disk, classNames, imagePaths, action);
      if this.imagePaths == [] {
        return Ok(None);
      }
      r := ShowCurrent(disk, decode, newClass, canvas, save, textSize);
    }
  }
}
