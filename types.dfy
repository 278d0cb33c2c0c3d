/** Values shared by every part of the label data layer. */
module Types {

  datatype Option<+T> = None | Some(value: T)

  /** The Python exceptions that the modelled code lets escape. */
  datatype PyError =
    | ValueError(token: string)    // float() of a token that is not a number
    | IndexError                   // a list index out of range
    | DetectorError(path: string)  // the detector raised while predicting on an image
    | ZeroDivisionError            // a pixel coordinate divided by a zero image width or height

  /** A value, or the exception the Python code raises instead of returning. */
  datatype Result<+T> = Ok(value: T) | Err(error: PyError)

  /** The outcome of an operation that returns nothing on success. */
  datatype Outcome = Pass | Fail(error: PyError)

  /** One YOLO detection label: (class_id, x_center, y_center, width, height),
      the centre and size normalised to the image width and height. */
  datatype Box = Box(classId: int, xCenter: real, yCenter: real, width: real, height: real)

  /** Python's `lst[i]` for an integer index: negative indices count from the end. */
  function PyIndex<T>(s: seq<T>, i: int): (r: Result<T>)
    ensures r.Ok? <==> -|s| <= i < |s|
    ensures 0 <= i < |s| ==> r == Ok(s[i])
    ensures -|s| <= i < 0 ==> r == Ok(s[|s| + i])
  {
    if 0 <= i < |s| then Ok(s[i])
    else if -|s| <= i < 0 then Ok(s[|s| + i])
    else Err(IndexError)
  }

  /** Python's `lst.index(x)`: the position of the first occurrence of `x`. */
  function IndexOf<T(==)>(s: seq<T>, x: T): (i: nat)
    requires x in s
    ensures i < |s| && s[i] == x
    ensures forall j :: 0 <= j < i ==> s[j] != x
  {
    if s[0] == x then 0 else 1 + IndexOf(s[1..], x)
  }
}
