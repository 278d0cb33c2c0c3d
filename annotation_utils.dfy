/** The YOLO label file: one line per box, `class x_center y_center width height`,
    read back by splitting each line on whitespace. */
module AnnotationUtils {
  import opened Types
  import opened Text
  import opened Decimal
  import opened Storage

  /** A box as the file stores it: each of the four values rounded to millionths. */
  function Rounded(b: Box): Box {
    Box(b.classId, Round6(b.xCenter), Round6(b.yCenter), Round6(b.width), Round6(b.height))
  }

  function RoundedAll(boxes: seq<Box>): (r: seq<Box>)
    ensures |r| == |boxes| && forall k :: 0 <= k < |boxes| ==> r[k] == Rounded(boxes[k])
  {
    seq(|boxes|, k requires 0 <= k < |boxes| => Rounded(boxes[k]))
  }

  /** The line written for a box, without its terminator: the class id in
      decimal, then the four values with six fractional digits, one space apart. */
  function LineText(b: Box): string {
    JoinWith(Fields(b), ' ')
  }

  /** The four normalised values of a box, in the order a line holds them. */
  function Coordinates(b: Box): seq<real> {
    [b.xCenter, b.yCenter, b.width, b.height]
  }

  /** The five fields of a written line: the class id, then each value with six
      fractional digits. */
  function Fields(b: Box): (fields: seq<string>)
    ensures |fields| == 5
  {
    [FormatInt(b.classId)] + seq(4, i requires 0 <= i < 4 => Format6(Coordinates(b)[i]))
  }

  function LineTexts(boxes: seq<Box>): (lines: seq<string>)
    ensures |lines| == |boxes| && forall k :: 0 <= k < |boxes| ==> lines[k] == LineText(boxes[k])
  {
    seq(|boxes|, k requires 0 <= k < |boxes| => LineText(boxes[k]))
  }

  /** The text of a label file holding `boxes`: one newline-terminated line per
      box, in order; no boxes, no text. */
  function Encode(boxes: seq<Box>): (text: string)
    ensures text == [] <==> boxes == []
  {
    Terminated(LineTexts(boxes))
  }

  /** Writing one more box appends one more line. */
  lemma EncodeAppend(boxes: seq<Box>, b: Box)
    ensures Encode(boxes + [b]) == Encode(boxes) + LineText(b) + "\n"
  {
    assert LineTexts(boxes + [b]) == LineTexts(boxes) + [LineText(b)];
    TerminatedAppend(LineTexts(boxes), LineText(b));
  }

  /** The whitespace-separated tokens of a line after strip(). */
  function Tokens(line: string): seq<string> {
    Split(Strip(line))
  }

  /** map(float, tokens) consumed in order: the values, or the ValueError of the
      first token float() rejects. */
  function ParseAll(tokens: seq<string>): (r: Result<seq<real>>)
    ensures r.Ok? ==> |r.value| == |tokens|
  {
    if tokens == [] then Ok([])
    else
      match ParseFloat(tokens[0])
      case None => Err(ValueError(tokens[0]))
      case Some(v) =>
        match ParseAll(tokens[1..])
        case Err(e) => Err(e)
        case Ok(vs) => Ok([v] + vs)
  }

  /** map(float, tokens) succeeds exactly when float() accepts every token, and
      then gives their values in order; otherwise it raises the ValueError of
      the first token float() rejects. */
  lemma {:induction false} ParseAllMeaning(tokens: seq<string>)
    ensures var r := ParseAll(tokens);
      r.Ok? <==> forall k :: 0 <= k < |tokens| ==> ParseFloat(tokens[k]).Some?
    ensures var r := ParseAll(tokens);
      r.Ok? ==> |r.value| == |tokens| && forall k :: 0 <= k < |tokens| ==> ParseFloat(tokens[k]) == Some(r.value[k])
    ensures var r := ParseAll(tokens);
      r.Err? ==> exists k :: (0 <= k < |tokens| && ParseFloat(tokens[k]).None? && r.error == ValueError(tokens[k])
                 && forall j :: 0 <= j < k ==> ParseFloat(tokens[j]).Some?)
  {
    if tokens != [] {
      ParseAllMeaning(tokens[1..]);
      if ParseFloat(tokens[0]).Some? && ParseAll(tokens[1..]).Err? {
        var k :| 0 <= k < |tokens| - 1 && ParseFloat(tokens[1..][k]).None? && ParseAll(tokens[1..]).error == ValueError(tokens[1..][k])
                 && forall j :: 0 <= j < k ==> ParseFloat(tokens[1..][j]).Some?;
        assert ParseFloat(tokens[k + 1]).None?;
      }
    }
  }

  /** One line of a label file: a box when it has exactly five tokens, nothing
      when it has any other number, and a ValueError when one of five tokens is
      not a number. */
  function DecodeLine(line: string): (r: Result<Option<Box>>)
    ensures r == Ok(None) <==> |Tokens(line)| != 5
  {
    var parts := Tokens(line);
    if |parts| != 5 then Ok(None)
    else
      match ParseAll(parts)
      case Err(e) => Err(e)
      case Ok(v) => Ok(Some(Box(Trunc(v[0]), v[1], v[2], v[3], v[4])))
  }

  /** A box read from a line holds the numbers of its five tokens, the class id
      read as a number and truncated toward zero; a line raises only when one of
      its five tokens is not a number, and the error names the first such token. */
  lemma DecodeLineMeaning(line: string)
    ensures var r, t := DecodeLine(line), Tokens(line);
      r.Ok? && r.value.Some? ==>
        var b := r.value.value;
        |t| == 5 && ParseFloat(t[0]).Some? && b.classId == Trunc(ParseFloat(t[0]).value)
        && ParseFloat(t[1]) == Some(b.xCenter) && ParseFloat(t[2]) == Some(b.yCenter)
        && ParseFloat(t[3]) == Some(b.width) && ParseFloat(t[4]) == Some(b.height)
    ensures var r, t := DecodeLine(line), Tokens(line);
      r.Err? <==> |t| == 5 && exists k :: 0 <= k < 5 && ParseFloat(t[k]).None?
    ensures var r, t := DecodeLine(line), Tokens(line);
      r.Err? ==> exists k :: (0 <= k < 5 && ParseFloat(t[k]).None? && r.error == ValueError(t[k])
                 && forall j :: 0 <= j < k ==> ParseFloat(t[j]).Some?)
  {
    ParseAllMeaning(Tokens(line));
  }

  /** What reading each line gave, in file order. */
  function Outcomes(lines: seq<string>): (outcomes: seq<Result<Option<Box>>>)
    ensures |outcomes| == |lines|
  {
    seq(|lines|, k requires 0 <= k < |lines| => DecodeLine(lines[k]))
  }

  /** The boxes of the lines read so far, in order, or the error of the first
      line that raised. */
  function Collect(outcomes: seq<Result<Option<Box>>>): Result<seq<Box>> {
    if outcomes == [] then Ok([])
    else
      match Collect(outcomes[..|outcomes| - 1])
      case Err(e) => Err(e)
      case Ok(boxes) =>
        match outcomes[|outcomes| - 1]
        case Err(e) => Err(e)
        case Ok(None) => Ok(boxes)
        case Ok(Some(b)) => Ok(boxes + [b])
  }

  /** The boxes of the lines that gave one, in order. */
  function Somes(outcomes: seq<Result<Option<Box>>>): (boxes: seq<Box>)
    ensures |boxes| <= |outcomes|
  {
    if outcomes == [] then []
    else
      var last := outcomes[|outcomes| - 1];
      Somes(outcomes[..|outcomes| - 1]) + (if last.Ok? && last.value.Some? then [last.value.value] else [])
  }

  /** The boxes of a file's lines. */
  function DecodeLines(lines: seq<string>): Result<seq<Box>> {
    Collect(Outcomes(lines))
  }

  /** Reading keeps the box of every line that gave one, in order, and skips
      the others; it succeeds exactly when no line raises, and otherwise
      raises the error of the first line that does. */
  lemma {:induction false} CollectShape(outcomes: seq<Result<Option<Box>>>)
    ensures Collect(outcomes).Ok? <==> forall k :: 0 <= k < |outcomes| ==> outcomes[k].Ok?
    ensures Collect(outcomes).Ok? ==> Collect(outcomes).value == Somes(outcomes)
    ensures Collect(outcomes).Err? ==>
      exists k :: 0 <= k < |outcomes| && outcomes[k].Err? && Collect(outcomes).error == outcomes[k].error
        && forall j :: 0 <= j < k ==> outcomes[j].Ok?
    decreases |outcomes|
  {
    if outcomes != [] {
      var front := outcomes[..|outcomes| - 1];
      CollectShape(front);
      assert forall k :: 0 <= k < |front| ==> front[k] == outcomes[k];
    }
  }

  /** Once a line raises, the lines after it are never read: the whole file
      raises the same error. */
  lemma {:induction false} ErrorStops(outcomes: seq<Result<Option<Box>>>, i: nat)
    requires i <= |outcomes| && Collect(outcomes[..i]).Err?
    ensures Collect(outcomes) == Collect(outcomes[..i])
    decreases |outcomes|
  {
    if i < |outcomes| {
      var front := outcomes[..|outcomes| - 1];
      assert front[..i] == outcomes[..i];
      ErrorStops(front, i);
    } else {
      assert outcomes[..i] == outcomes;
    }
  }

  /** What read_yolo_annotation returns for the label files `texts`: an empty list
      for a missing file, otherwise the boxes of its lines. */
  function ReadAnnotation(texts: map<string, string>, path: string): Result<seq<Box>> {
    if path in texts then DecodeLines(Lines(texts[path])) else Ok([])
  }

  /** A missing label file reads as no boxes. */
  lemma MissingFileIsEmpty(texts: map<string, string>, path: string)
    requires path !in texts
    ensures ReadAnnotation(texts, path) == Ok([])
  {
  }

  /** Five numbers joined by single spaces read back as the box of their values. */
  lemma DecodeFields(fields: seq<string>, values: seq<real>)
    requires |fields| == |values| == 5
    requires forall k :: 0 <= k < 5 ==> fields[k] != [] && NoSpace(fields[k])
    requires forall k :: 0 <= k < 5 ==> ParseFloat(fields[k]) == Some(values[k])
    ensures DecodeLine(JoinWith(fields, ' '))
            == Ok(Some(Box(Trunc(values[0]), values[1], values[2], values[3], values[4])))
  {
    var line := JoinWith(fields, ' ');
    JoinWithEnds(fields, ' ');
    StripUnchanged(line);
    SplitJoin(fields);
    assert Tokens(line) == fields;
    ParseAllMeaning(fields);
    assert ParseAll(fields).value == values;
  }

  /** The numbers a written line holds: the class id and the four values
      rounded to millionths. */
  function Values(b: Box): (values: seq<real>)
    ensures |values| == 5
  {
    [b.classId as real] + seq(4, i requires 0 <= i < 4 => Round6(Coordinates(b)[i]))
  }

  /** Each written field is one word. */
  lemma FieldIsWord(b: Box, k: nat)
    requires k < 5
    ensures Fields(b)[k] != [] && NumericText(Fields(b)[k]) && NoSpace(Fields(b)[k])
  {
    if k == 0 {
      NumericIsOneWord(FormatInt(b.classId));
    } else {
      NumericIsOneWord(Format6(Coordinates(b)[k - 1]));
    }
  }

  /** float() reads a written field back as the number it was written for. */
  lemma FieldParses(b: Box, k: nat)
    requires k < 5
    ensures ParseFloat(Fields(b)[k]) == Some(Values(b)[k])
  {
    if k == 0 {
      ParseFormatInt(b.classId);
    } else {
      var c := Coordinates(b)[k - 1];
      assert Fields(b)[k] == Format6(c);
      assert Values(b)[k] == Round6(c);
      ParseFormat6(c);
    }
  }

  /** The box a written line holds, in terms of the numbers on it. */
  lemma RoundedValues(b: Box)
    ensures Rounded(b) == Box(Trunc(Values(b)[0]), Values(b)[1], Values(b)[2], Values(b)[3], Values(b)[4])
  {
    assert Trunc(b.classId as real) == b.classId;
  }

  /** A written line reads back as its box with the values rounded to millionths. */
  lemma DecodeLineText(b: Box)
    ensures DecodeLine(LineText(b)) == Ok(Some(Rounded(b)))
  {
    var fields, values := Fields(b), Values(b);
    forall k | 0 <= k < 5
      ensures fields[k] != [] && NoSpace(fields[k])
      ensures ParseFloat(fields[k]) == Some(values[k])
    {
      FieldIsWord(b, k);
      FieldParses(b, k);
    }
    DecodeFields(fields, values);
    RoundedValues(b);
  }

  /** A written line holds no line break. */
  lemma LineTextOneLine(b: Box)
    ensures NoLineBreak(LineText(b))
  {
    var fields := Fields(b);
    forall j | 0 <= j < 5
      ensures NoLineBreak(fields[j])
    {
      FieldIsWord(b, j);
      NumericIsOneWord(fields[j]);
    }
    JoinWithOneLine(fields, ' ');
  }

  /** Lines that each give a box read back as those boxes, in order. */
  lemma {:induction false} CollectBoxes(outcomes: seq<Result<Option<Box>>>, boxes: seq<Box>)
    requires |outcomes| == |boxes|
    requires forall k :: 0 <= k < |boxes| ==> outcomes[k] == Ok(Some(boxes[k]))
    ensures Collect(outcomes) == Ok(boxes)
    decreases |boxes|
  {
    if boxes != [] {
      var n := |boxes| - 1;
      CollectBoxes(outcomes[..n], boxes[..n]);
      assert boxes == boxes[..n] + [boxes[n]];
    }
  }

  /** The written lines read back as the rounded boxes, in order. */
  lemma DecodeLineTexts(boxes: seq<Box>)
    ensures DecodeLines(LineTexts(boxes)) == Ok(RoundedAll(boxes))
  {
    var outcomes := Outcomes(LineTexts(boxes));
    forall k | 0 <= k < |boxes|
      ensures outcomes[k] == Ok(Some(RoundedAll(boxes)[k]))
    {
      DecodeLineText(boxes[k]);
    }
    CollectBoxes(outcomes, RoundedAll(boxes));
  }

  /** Reading a label file back after writing `boxes` gives as many boxes, with
      the same class ids, in the same order, each value rounded to millionths. */
  lemma RoundTrip(texts: map<string, string>, path: string, boxes: seq<Box>)
    ensures ReadAnnotation(texts[path := Encode(boxes)], path) == Ok(RoundedAll(boxes))
  {
    var lines := LineTexts(boxes);
    forall k | 0 <= k < |lines|
      ensures NoLineBreak(lines[k])
    {
      LineTextOneLine(boxes[k]);
    }
    LinesOfTerminated(lines);
    DecodeLineTexts(boxes);
  }

  /** read_yolo_annotation: reads the file line by line, appending the box of
      every five-token line and letting the first ValueError escape. */
  method ReadYoloAnnotation(disk: Disk, path: string) returns (r: Result<seq<Box>>)
    ensures r == ReadAnnotation(disk.texts, path)
  {
    if path !in disk.texts {
      return Ok([]);
    }
    var lines := Lines(disk.texts[path]);
    ghost var outcomes := Outcomes(lines);
    var annotations: seq<Box> := [];
    for i := 0 to |lines|
      invariant Collect(outcomes[..i]) == Ok(annotations)
    {
      assert outcomes[..i + 1][..i] == outcomes[..i];
      var d := DecodeLine(lines[i]);
      assert outcomes[i] == d;
      if d.Err? {
        ErrorStops(outcomes, i + 1);
        return Err(d.error);
      }
      if d.value.Some? {
        annotations := annotations + [d.value.value];
      }
    }
    assert outcomes[..|lines|] == outcomes;
    r := Ok(annotations);
  }

  /** write_yolo_annotation: opens the file for writing, which empties it, and
      writes one line per box; the file holds the text once it is closed. */
  method WriteYoloAnnotation(disk: Disk, path: string, annotations: seq<Box>)
    modifies disk
    ensures disk.texts == old(disk.texts)[path := Encode(annotations)]
    ensures disk.images == old(disk.images)
  {
    ghost var lines := LineTexts(annotations);
    var text: string := [];
    for i := 0 to |annotations|
      invariant text == Terminated(lines[..i])
      invariant disk.texts == old(disk.texts) && disk.images == old(disk.images)
    {
      TerminatedAppend(lines[..i], lines[i]);
      assert lines[..i + 1] == lines[..i] + [lines[i]];
      text := text + LineText(annotations[i]) + "\n";
    }
    assert lines[..|annotations|] == lines;
    disk.texts := disk.texts[path := text];
  }
}
