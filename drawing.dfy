/** draw_bboxes: a copy of the image with each box outlined in its class colour
    and labelled with its class name. The pixels themselves are left to OpenCV;
    an image here records the drawing commands applied to it, in order. */
module BoxDrawing {
  import opened Types
  import opened Config
  import opened Decimal

  datatype Point = Point(x: int, y: int)

  /** An OpenCV colour: blue, green and red, in that order. */
  datatype Bgr = Bgr(b: int, g: int, r: int)

  /** The two OpenCV calls draw_bboxes makes: cv2.rectangle (a negative
      thickness fills the rectangle) and cv2.putText. */
  datatype DrawOp =
    | Rectangle(corner1: Point, corner2: Point, color: Bgr, thickness: int)
    | PutText(text: string, origin: Point, color: Bgr)

  /** An image array: its height and width, and what has been drawn on it. */
  class Image {
    const height: nat
    const width: nat
    var drawn: seq<DrawOp>

    constructor(height: nat, width: nat, drawn: seq<DrawOp>)
      ensures this.height == height && this.width == width && this.drawn == drawn
    {
      this.height := height;
      this.width := width;
      this.drawn := drawn;
    }

    /** image.copy(): a new array with the same shape and contents. */
    method Copy() returns (c: Image)
      ensures fresh(c) && c.height == height && c.width == width && c.drawn == drawn
    {
      c := new Image(height, width, drawn);
    }
  }

  const White: Bgr := Bgr(255, 255, 255)

  /** The value of one hexadecimal digit, either case, as int(_, 16) reads it. */
  function HexDigitValue(c: char): (n: nat)
    requires IsHexDigit(c)
    ensures n < 16
  {
    if '0' <= c <= '9' then c as int - '0' as int
    else if 'a' <= c <= 'f' then c as int - 'a' as int + 10
    else c as int - 'A' as int + 10
  }

  /** int(s, 16) for two hexadecimal digits. */
  function HexByte(s: string): (n: nat)
    requires |s| == 2 && IsHexDigit(s[0]) && IsHexDigit(s[1])
    ensures n < 256
  {
    16 * HexDigitValue(s[0]) + HexDigitValue(s[1])
  }

  /** The BGR tuple of "#RRGGBB": the pairs at offsets 5, 3 and 1. */
  function HexToBgr(color: string): Bgr
    requires IsHexColor(color)
  {
    Bgr(HexByte(color[5..7]), HexByte(color[3..5]), HexByte(color[1..3]))
  }

  /** An upper-case hexadecimal digit, the way the palette writes them. */
  function HexDigitChar(n: nat): (c: char)
    requires n < 16
    ensures IsHexDigit(c) && HexDigitValue(c) == n
  {
    if n < 10 then ('0' as int + n) as char else ('A' as int + n - 10) as char
  }

  function HexPair(n: nat): (s: string)
    requires n < 256
    ensures |s| == 2 && IsHexDigit(s[0]) && IsHexDigit(s[1])
  {
    [HexDigitChar(n / 16), HexDigitChar(n % 16)]
  }

  predicate IsByteColor(c: Bgr) {
    0 <= c.b < 256 && 0 <= c.g < 256 && 0 <= c.r < 256
  }

  /** "#RRGGBB" for a colour: red first, as the palette lists them. */
  function ColorText(c: Bgr): string
    requires IsByteColor(c)
  {
    "#" + HexPair(c.r) + HexPair(c.g) + HexPair(c.b)
  }

  /** Every "#RRGGBB" gives a colour whose three parts are bytes. */
  lemma HexToBgrBytes(color: string)
    requires IsHexColor(color)
    ensures IsByteColor(HexToBgr(color))
  {
  }

  /** Reading back a written colour gives the colour: the pairs are taken in
      blue, green, red order from the end of the text. */
  lemma HexToBgrOfColorText(c: Bgr)
    requires IsByteColor(c)
    ensures IsHexColor(ColorText(c))
    ensures HexToBgr(ColorText(c)) == c
  {
    var s := ColorText(c);
    assert s[1..3] == HexPair(c.r) && s[3..5] == HexPair(c.g) && s[5..7] == HexPair(c.b);
  }

  /** The BGR colour a class id is drawn in. */
  function ClassBgr(classId: int): (c: Bgr)
    ensures IsByteColor(c)
  {
    HexToBgrBytes(GetClassColor(classId));
    HexToBgr(GetClassColor(classId))
  }

  /** Class 6 is drawn in palette orange "#FFA500", which OpenCV receives as
      blue 0, green 165, red 255; class -4 shares it. */
  lemma OrangeClassBgr()
    ensures ClassBgr(6) == Bgr(0, 165, 255) && ClassBgr(-4) == Bgr(0, 165, 255)
  {
  }

  /** The pixel corners of a box: int() of the scaled edges, which truncates
      toward zero. */
  function Corners(b: Box, height: nat, width: nat): (Point, Point) {
    var w, h := width as real, height as real;
    (Point(Trunc((b.xCenter - b.width / 2.0) * w), Trunc((b.yCenter - b.height / 2.0) * h)),
     Point(Trunc((b.xCenter + b.width / 2.0) * w), Trunc((b.yCenter + b.height / 2.0) * h)))
  }

  /** A box of non-negative size has its first corner above and left of its second. */
  lemma CornersOrdered(b: Box, height: nat, width: nat)
    requires b.width >= 0.0 && b.height >= 0.0
    ensures var (p1, p2) := Corners(b, height, width); p1.x <= p2.x && p1.y <= p2.y
  {
    var w, h := width as real, height as real;
    assert (b.xCenter - b.width / 2.0) * w <= (b.xCenter + b.width / 2.0) * w;
    assert (b.yCenter - b.height / 2.0) * h <= (b.yCenter + b.height / 2.0) * h;
    TruncMonotonic((b.xCenter - b.width / 2.0) * w, (b.xCenter + b.width / 2.0) * w);
    TruncMonotonic((b.yCenter - b.height / 2.0) * h, (b.yCenter + b.height / 2.0) * h);
  }

  /** The label of a box: class_names[class_id] when class_id < len(class_names),
      which for a negative id counts from the end and raises IndexError below
      -len(class_names); otherwise str(class_id). */
  function LabelText(classId: int, classNames: seq<string>): Result<string> {
    if classId < |classNames| then PyIndex(classNames, classId) else Ok(FormatInt(classId))
  }

  /** The label is the class name for every id the name list covers, raises
      only for an id below -len(class_names), and is otherwise the id in
      decimal, which float() reads back as the id. */
  lemma LabelTextCases(classId: int, classNames: seq<string>)
    ensures 0 <= classId < |classNames| ==> LabelText(classId, classNames) == Ok(classNames[classId])
    ensures -|classNames| <= classId < 0 ==> LabelText(classId, classNames) == Ok(classNames[|classNames| + classId])
    ensures LabelText(classId, classNames).Err? <==> classId < -|classNames|
    ensures |classNames| <= classId ==>
      LabelText(classId, classNames).Ok? && ParseFloat(LabelText(classId, classNames).value) == Some(classId as real)
  {
    if |classNames| <= classId {
      ParseFormatInt(classId);
    }
  }

  /** The three commands drawn for one box, given cv2.getTextSize's
      (width, height) of each label: the outline two pixels thick, a filled
      label background from label-height + 10 above the top-left corner to the
      label width right of it, and the label in white five pixels above the
      corner. */
  function BoxOps(b: Box, classNames: seq<string>, height: nat, width: nat,
                  textSize: string -> (int, int)): Result<seq<DrawOp>>
  {
    match LabelText(b.classId, classNames)
    case Err(e) => Err(e)
    case Ok(caption) =>
      var (p1, p2) := Corners(b, height, width);
      var color := ClassBgr(b.classId);
      var (lw, lh) := textSize(caption);
      Ok([Rectangle(p1, p2, color, 2),
          Rectangle(Point(p1.x, p1.y - lh - 10), Point(p1.x + lw, p1.y), color, -1),
          PutText(caption, Point(p1.x, p1.y - 5), White)])
  }

  /** One box fails exactly when its label raises, with IndexError; otherwise
      it gives its outline in its class colour, the filled label background
      sized by the label and the label in white above the corner. */
  lemma BoxOpsMeaning(b: Box, classNames: seq<string>, height: nat, width: nat,
                      textSize: string -> (int, int))
    ensures var r := BoxOps(b, classNames, height, width, textSize);
      (r.Err? <==> b.classId < -|classNames|) && (r.Err? ==> r.error == IndexError)
    ensures var r := BoxOps(b, classNames, height, width, textSize);
      r.Ok? ==> (var corner, caption := Corners(b, height, width).0, LabelText(b.classId, classNames).value;
                 |r.value| == 3
                 && r.value[0] == Rectangle(corner, Corners(b, height, width).1, ClassBgr(b.classId), 2)
                 && r.value[1] == Rectangle(Point(corner.x, corner.y - textSize(caption).1 - 10),
                                            Point(corner.x + textSize(caption).0, corner.y), ClassBgr(b.classId), -1)
                 && r.value[2] == PutText(caption, Point(corner.x, corner.y - 5), White))
  {
    LabelTextCases(b.classId, classNames);
  }

  /** The commands of the boxes drawn so far, in order, or the error of the
      first box that raised. */
  function Chain(parts: seq<Result<seq<DrawOp>>>): Result<seq<DrawOp>> {
    if parts == [] then Ok([])
    else
      match Chain(parts[..|parts| - 1])
      case Err(e) => Err(e)
      case Ok(ops) =>
        match parts[|parts| - 1]
        case Err(e) => Err(e)
        case Ok(more) => Ok(ops + more)
  }

  /** A chain of three-command parts succeeds exactly when every part does,
      and then holds part k at positions 3k to 3k + 3; a failed chain fails
      with the error of some failed part. */
  lemma {:induction false} ChainMeaning(parts: seq<Result<seq<DrawOp>>>)
    requires forall k :: 0 <= k < |parts| && parts[k].Ok? ==> |parts[k].value| == 3
    ensures Chain(parts).Ok? <==> forall k :: 0 <= k < |parts| ==> parts[k].Ok?
    ensures Chain(parts).Ok? ==> (|Chain(parts).value| == 3 * |parts|
      && forall k :: 0 <= k < |parts| ==> Chain(parts).value[3 * k .. 3 * k + 3] == parts[k].value)
    ensures Chain(parts).Err? ==> exists k :: 0 <= k < |parts| && parts[k].Err? && Chain(parts).error == parts[k].error
    decreases |parts|
  {
    if parts != [] {
      var front, last := parts[..|parts| - 1], parts[|parts| - 1];
      ChainMeaning(front);
      assert forall k :: 0 <= k < |front| ==> front[k] == parts[k];
      if Chain(front).Err? {
        assert Chain(parts) == Chain(front);
        var k :| 0 <= k < |front| && front[k].Err? && Chain(front).error == front[k].error;
        assert parts[k].Err?;
      } else if last.Err? {
        assert Chain(parts) == Err(last.error);
      } else {
        var ops, more := Chain(front).value, last.value;
        assert Chain(parts) == Ok(ops + more);
        assert |ops| == 3 * |front| && |more| == 3;
        forall k | 0 <= k < |parts|
          ensures (ops + more)[3 * k .. 3 * k + 3] == parts[k].value
        {
          if k < |front| {
            assert 3 * k + 3 <= |ops|;
            assert (ops + more)[3 * k .. 3 * k + 3] == ops[3 * k .. 3 * k + 3];
          } else {
            assert (ops + more)[3 * k .. 3 * k + 3] == more;
          }
        }
      }
    }
  }

  /** One more successful part extends a successful chain by its commands. */
  lemma ChainStep(parts: seq<Result<seq<DrawOp>>>, i: nat)
    requires i < |parts| && Chain(parts[..i]).Ok? && parts[i].Ok?
    ensures Chain(parts[..i + 1]) == Ok(Chain(parts[..i]).value + parts[i].value)
  {
    assert parts[..i + 1][..i] == parts[..i];
  }

  /** What drawing each box gives, in order. */
  function BoxResults(boxes: seq<Box>, classNames: seq<string>, height: nat, width: nat,
                      textSize: string -> (int, int)): (parts: seq<Result<seq<DrawOp>>>)
    ensures |parts| == |boxes|
  {
    seq(|boxes|, k requires 0 <= k < |boxes| => BoxOps(boxes[k], classNames, height, width, textSize))
  }

  /** The commands for all boxes, in order, or the error of the first box whose
      label raises. */
  function DrawOps(boxes: seq<Box>, classNames: seq<string>, height: nat, width: nat,
                   textSize: string -> (int, int)): Result<seq<DrawOp>>
  {
    Chain(BoxResults(boxes, classNames, height, width, textSize))
  }

  /** Drawing fails, with IndexError, exactly when some box has a class id
      below -len(class_names); otherwise it makes three commands per box, the
      k-th three being box k's. */
  lemma DrawOpsMeaning(boxes: seq<Box>, classNames: seq<string>, height: nat, width: nat,
                       textSize: string -> (int, int))
    ensures var r := DrawOps(boxes, classNames, height, width, textSize);
      r.Ok? <==> forall k :: 0 <= k < |boxes| ==> boxes[k].classId >= -|classNames|
    ensures var r := DrawOps(boxes, classNames, height, width, textSize);
      r.Ok? ==> (|r.value| == 3 * |boxes|
        && forall k :: 0 <= k < |boxes| ==>
             r.value[3 * k .. 3 * k + 3] == BoxOps(boxes[k], classNames, height, width, textSize).value)
    ensures var r := DrawOps(boxes, classNames, height, width, textSize);
      r.Err? ==> r.error == IndexError
  {
    var parts := BoxResults(boxes, classNames, height, width, textSize);
    forall k | 0 <= k < |boxes|
      ensures (parts[k].Err? <==> boxes[k].classId < -|classNames|) && (parts[k].Err? ==> parts[k].error == IndexError)
      ensures parts[k].Ok? ==> |parts[k].value| == 3
    {
      BoxOpsMeaning(boxes[k], classNames, height, width, textSize);
    }
    ChainMeaning(parts);
  }

  /** The body of draw_bboxes' loop for one box: the outline, then the label
      background and the label. A label that raises leaves only the outline
      drawn. */
  method DrawBox(canvas: Image, b: Box, classNames: seq<string>, textSize: string -> (int, int))
    returns (err: Option<PyError>)
    modifies canvas
    ensures var ops := BoxOps(b, classNames, canvas.height, canvas.width, textSize);
      (err.Some? <==> ops.Err?) && (ops.Err? ==> err.value == ops.error)
      && (ops.Ok? ==> canvas.drawn == old(canvas.drawn) + ops.value)
    ensures err.Some? ==>
      canvas.drawn == old(canvas.drawn) + [Rectangle(Corners(b, canvas.height, canvas.width).0,
                                                     Corners(b, canvas.height, canvas.width).1, ClassBgr(b.classId), 2)]
  {
    var h, w := canvas.height, canvas.width;
    ghost var before := canvas.drawn;
    var corners := Corners(b, h, w);
    var p1, p2 := corners.0, corners.1;
    var color := ClassBgr(b.classId);
    var outline := Rectangle(p1, p2, color, 2);
    canvas.drawn := canvas.drawn + [outline];
    var caption := LabelText(b.classId, classNames);
    if caption.Err? {
      return Some(caption.error);
    }
    var size := textSize(caption.value);
    var lw, lh := size.0, size.1;
    var more := [Rectangle(Point(p1.x, p1.y - lh - 10), Point(p1.x + lw, p1.y), color, -1),
                 PutText(caption.value, Point(p1.x, p1.y - 5), White)];
    canvas.drawn := canvas.drawn + more;
    BoxOpsMeaning(b, classNames, h, w, textSize);
    assert BoxOps(b, classNames, h, w, textSize).value == [outline] + more;
    assert canvas.drawn == before + ([outline] + more);
    return None;
  }

  /** draw_bboxes(image, annotations, class_names): None for no image;
      otherwise a new image holding the old contents and then each box's
      commands. The input image is not changed. An id below -len(class_names)
      raises IndexError. */
  method DrawBboxes(image: Image?, annotations: seq<Box>, classNames: seq<string>,
                    textSize: string -> (int, int)) returns (r: Result<Image?>)
    ensures image == null ==> r == Ok(null)
    ensures image != null ==>
      var expected := DrawOps(annotations, classNames, image.height, image.width, textSize);
      (r.Err? <==> expected.Err?) && (r.Err? ==> r.error == expected.error)
      && (r.Ok? ==> (r.value != null && fresh(r.value)
                     && r.value.height == image.height && r.value.width == image.width
                     && r.value.drawn == image.drawn + expected.value))
  {
    if image == null {
      return Ok(null);
    }
    var h, w := image.height, image.width;
    ghost var parts := BoxResults(annotations, classNames, h, w, textSize);
    var withBoxes := image.Copy();
    for i := 0 to |annotations|
      invariant fresh(withBoxes) && withBoxes.height == h && withBoxes.width == w
      invariant Chain(parts[..i]).Ok? && withBoxes.drawn == image.drawn + Chain(parts[..i]).value
    {
      var err := DrawBox(withBoxes, annotations[i], classNames, textSize);
      if err.Some? {
        BoxOpsMeaning(annotations[i], classNames, h, w, textSize);
        DrawOpsMeaning(annotations, classNames, h, w, textSize);
        return Err(err.value);
      }
      ChainStep(parts, i);
    }
    assert parts[..|annotations|] == parts;
    return Ok(withBoxes);
  }
}
