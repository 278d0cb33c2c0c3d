# Data_Label_public: a Dafny model of the label data layer

Data_Label_public is a Streamlit tool for labelling images in the YOLO format. A user uploads images and types the class names, one per line. The user then draws boxes on a canvas and saves them, one label file per image. A YOLOv8 detector can also label one image or all of them.

This project models the parts of the tool that decide what ends up in the label files and what is shown:

- **`Types`** (`types.dfy`): boxes, Python's exceptions as a `Result`, list indexing with negative indices, and `list.index`.
- **`Text`** (`text.dfy`): `str.strip`, `str.split()`, `str.split("\n")` and `readlines`, with their round-trip lemmas.
- **`Decimal`** (`decimal.dfy`): the number text of the label files.
  - `str(int)` and `"{:.6f}"`, rounding half to even at the sixth decimal.
  - `float()` on decimal tokens.
  - `int()` of a float, which truncates toward zero.
- **`Config`** (`config.py`): the ten-colour palette and `get_class_color`.
- **`Storage`**: the disk. Image files and label files are two maps from path to contents, held in a `Disk` object that operations update in place.
- **`FileUtils`** (`utils/file_utils.py`):
  - the label path of an image, from pathlib's `stem`;
  - deleting an image and its label;
  - saving uploads;
  - the sorted listing of the uploads directory.
- **`AnnotationUtils`** (`utils/annotation_utils.py`): reading and writing label files, and the round trip between them.
- **`BoxDrawing`** (the rest of `utils/annotation_utils.py`): the box preview. It is modelled as the list of drawing commands that OpenCV would carry out on a copy of the image.
- **`AutoLabel`** (`components/autolabel.py`):
  - reconciling detector predictions with the project's classes;
  - labelling one image;
  - the "Label All" loop.
- **`Annotator`** (`components/annotator.py`):
  - parsing the class list;
  - moving between images and deleting the current one;
  - the per-position cache of boxes in the session;
  - converting boxes to canvas rectangles and back;
  - one render of the component.

Code that changes state in place is modelled as classes with methods: the `Disk`, the preview `Image` and the `AnnotatorComponent`. The source's loops are methods with loops: reading, writing, drawing, reconciling, labelling, building shapes and building boxes. Each method is proved against a specification function. Pure expressions are modelled as functions, with lemmas about them.

Behaviour of the code that the model keeps on purpose:
- "Label All" has no per-image error handling: the first exception ends the loop, and the files already written stay (components/autolabel.py:55-56, `AutoLabel.LabelPathsStops`).
- A negative class id indexes from the end of the class list in the preview. Only ids below `-len(class_names)` raise.
- A five-token line with a token that `float()` rejects raises, instead of being skipped.
- An annotation's class id is `int(float(token))`, so `"2.7"` gives 2 and `"-2.7"` gives -2.
- The box cache is keyed by position, not by image. After a delete, the image that moves up to the deleted position is shown with the boxes cached for the deleted image (`Annotator.StaleAfterDelete`).
- The preview draws the boxes as they were before a save in the same run.

## Model

| member | source | states |
|---|---|---|
| Types.PyIndex | utils/annotation_utils.py:53 | list indexing succeeds exactly for -len <= i < len; a negative index counts from the end; anything else is IndexError |
| Types.IndexOf | components/autolabel.py:75 | list.index returns the first position holding the value |
| Text.StripMeaning | utils/annotation_utils.py:15 | strip() removes exactly the surrounding whitespace: the result is a contiguous slice that neither starts nor ends with whitespace, and every character dropped before or after it is whitespace |
| Text.StripUnchanged | components/annotator.py:31 | a string with no whitespace at either end is its own strip() |
| Text.SplitJoin | utils/annotation_utils.py:15 | split() of non-empty space-free words joined by single spaces gives back the words |
| Text.SplitOnJoin | components/annotator.py:31 | split("\n") of pieces joined by "\n" gives back the pieces when none contains "\n" |
| Text.LinesOfTerminated | utils/annotation_utils.py:14 | readlines of newline-terminated lines without line breaks gives back the lines |
| Text.TerminatedAppend | utils/annotation_utils.py:25-26 | writing one more terminated line appends exactly that line and "\n" to the text |
| Decimal.FormatInt | utils/annotation_utils.py:26 | str(int) is a non-empty numeric text that starts with '-' exactly for a negative number |
| Decimal.ParseFormatInt | utils/annotation_utils.py:17-18 | float() reads str(i) back as i, for every integer i |
| Decimal.RoundHalfEven | utils/annotation_utils.py:26 | the rounded integer is within one half of the value, and an exact tie goes to the even neighbour |
| Decimal.Format6 | utils/annotation_utils.py:26 | "{:.6f}" text has exactly six digits after the point and a leading '-' exactly for a negative value |
| Decimal.ParseFormat6 | utils/annotation_utils.py:17 | float() reads the "{:.6f}" text of x back as x rounded to six decimals, for every real x |
| Decimal.Round6Error | utils/annotation_utils.py:26 | a written value differs from the box value by at most half a millionth |
| Decimal.Round6Idempotent | utils/annotation_utils.py:26 | rounding an already rounded value to six decimals changes nothing |
| Decimal.Trunc | utils/annotation_utils.py:18 | int() of a float truncates toward zero: downward for a non-negative value, upward for a negative one |
| Decimal.TruncMonotonic | utils/annotation_utils.py:40-43 | truncation toward zero never reverses the order of two values |
| Decimal.NumericIsOneWord | utils/annotation_utils.py:26 | a formatted number holds no whitespace and no line break, so it stays one token on one line |
| Config.PaletteWellFormed | config.py:23-26 | the palette has ten entries, each "#" followed by six hexadecimal digits |
| Config.GetClassColor | config.py:29-30 | every class index, negative ones included, gets a well-formed "#RRGGBB" colour |
| Config.ColorFromPalette | config.py:29-30 | the colour of index i is palette entry i mod 10, so it is always a palette entry |
| Config.ColorPeriodic | config.py:30 | indices ten apart get the same colour |
| Config.NegativeColor | config.py:30 | a negative index i between -10 and -1 gets palette entry 10 + i |
| FileUtils.Name | utils/file_utils.py:29 | pathlib's name holds no '/' and is never "." |
| FileUtils.Stem | utils/file_utils.py:29 | pathlib's stem holds no '/' and is empty exactly when the name is |
| FileUtils.StemAtDot | utils/file_utils.py:29 | the stem stops at the last dot of the name when that dot is neither its first nor its last character |
| FileUtils.StemOfDotText | utils/file_utils.py:29 | a name that is only ".txt" is its own stem, because a leading dot does not start a suffix |
| FileUtils.AnnotationPathOfImage | utils/file_utils.py:27-31 | an image stem.ext in any directory has the label file <annotations>/stem.txt |
| FileUtils.AnnotationPathByStem | utils/file_utils.py:30 | two images share a label path exactly when they share a stem |
| FileUtils.SharedStem | utils/file_utils.py:30 | images in different directories or with different extensions but one stem share one label file |
| FileUtils.AnnotationPathIdempotent | utils/file_utils.py:30 | the label path of a label path is itself, for every path whose name is not empty |
| FileUtils.StemOfText | utils/file_utils.py:30 | the stem of <annotations>/stem.txt is stem |
| FileUtils.DeleteImageAndAnnotation | utils/file_utils.py:34-42 | removes the image file and exactly the label file that get_annotation_path names; a missing file is no error |
| FileUtils.StoredContents | utils/file_utils.py:10-16 | saving uploads adds exactly their paths, keeps every other file, and a path holds the last upload of that name |
| FileUtils.SaveUploadedFiles | utils/file_utils.py:8-16 | the count equals the number of paths, one uploads/<name> per upload in upload order, and the disk holds the uploads |
| FileUtils.StrLessIrreflexive | utils/file_utils.py:24 | the order of sorted() on strings is irreflexive |
| FileUtils.StrLessTransitive | utils/file_utils.py:24 | the order of sorted() on strings is transitive |
| FileUtils.StrLessTotal | utils/file_utils.py:24 | any two different strings are ordered one way or the other |
| FileUtils.Insert | utils/file_utils.py:24 | inserting into a sorted list keeps it sorted and adds exactly the new path |
| FileUtils.GetImagePaths | utils/file_utils.py:19-24 | the listing is sorted and holds exactly the files directly in the uploads directory with a listed extension |
| AnnotationUtils.Encode | utils/annotation_utils.py:24-26 | the file text is empty exactly when there are no annotations |
| AnnotationUtils.EncodeAppend | utils/annotation_utils.py:25-26 | one more annotation adds exactly its line and a newline at the end of the file |
| AnnotationUtils.LineTextOneLine | utils/annotation_utils.py:26 | a written line holds no line break |
| AnnotationUtils.ParseAllMeaning | utils/annotation_utils.py:17 | map(float) succeeds exactly when every token parses, keeps order, and otherwise raises for the first bad token |
| AnnotationUtils.DecodeLine | utils/annotation_utils.py:15-18 | a line gives no box exactly when its whitespace-split token count is not 5 |
| AnnotationUtils.DecodeLineMeaning | utils/annotation_utils.py:15-18 | a 5-token line gives the truncated first value and the four others, or the ValueError of its first bad token |
| AnnotationUtils.Somes | utils/annotation_utils.py:14-18 | there are never more boxes than lines |
| AnnotationUtils.CollectShape | utils/annotation_utils.py:14-18 | reading succeeds exactly when no line raises, keeps the boxes in file order, and otherwise raises the first line's error |
| AnnotationUtils.ErrorStops | utils/annotation_utils.py:14-18 | once a line raises, the lines after it change nothing |
| AnnotationUtils.MissingFileIsEmpty | utils/annotation_utils.py:11-19 | a missing label file reads as no boxes |
| AnnotationUtils.FieldParses | utils/annotation_utils.py:17-26 | float() reads each written field back as the id or as the value rounded to six decimals |
| AnnotationUtils.DecodeLineText | utils/annotation_utils.py:15-26 | reading a written line gives the box with its values rounded to six decimals |
| AnnotationUtils.DecodeLineTexts | utils/annotation_utils.py:14-26 | reading the written lines gives every box back, rounded, in order |
| AnnotationUtils.RoundTrip | utils/annotation_utils.py:9-26 | reading a written file gives the same count, ids and order, each value rounded to six decimals |
| AnnotationUtils.ReadYoloAnnotation | utils/annotation_utils.py:9-19 | the loop over the lines returns what the line-by-line reading defines, errors included |
| AnnotationUtils.WriteYoloAnnotation | utils/annotation_utils.py:22-26 | the label file is replaced by one terminated line per annotation, and nothing else changes |
| BoxDrawing.Image.Copy | utils/annotation_utils.py:36 | the copy is a new image with the same size and drawing |
| BoxDrawing.HexByte | utils/annotation_utils.py:47 | two hexadecimal digits give a byte below 256 |
| BoxDrawing.HexToBgrBytes | utils/annotation_utils.py:47 | every "#RRGGBB" colour gives three bytes |
| BoxDrawing.HexToBgrOfColorText | utils/annotation_utils.py:47 | parsing "#RRGGBB" gives (B, G, R): the inverse of writing a colour red first |
| BoxDrawing.ClassBgr | utils/annotation_utils.py:46-47 | every class id, negative ones included, gets a colour of three bytes |
| BoxDrawing.OrangeClassBgr | utils/annotation_utils.py:46-47 | class 6, and class -4 by wrapping, get orange #FFA500 as (0, 165, 255) |
| BoxDrawing.CornersOrdered | utils/annotation_utils.py:40-43 | with non-negative box size, the first corner is above and left of the second |
| BoxDrawing.LabelTextCases | utils/annotation_utils.py:53 | the label is the class name for every id the list covers, from the end for negative ids; it raises only below -len; otherwise it is str(id) |
| BoxDrawing.BoxOpsMeaning | utils/annotation_utils.py:40-58 | a box raises IndexError exactly for an id below -len; otherwise it draws exactly three commands: its outline between its pixel corners in its class colour with width 2, a filled background in the same colour from (x1, y1-h-10) to (x1+w, y1) for a label measuring w by h, and its label in white at (x1, y1-5) |
| BoxDrawing.ChainMeaning | utils/annotation_utils.py:38-58 | the boxes' commands follow one another in box order, and the loop fails exactly when some box fails, with its error |
| BoxDrawing.DrawOpsMeaning | utils/annotation_utils.py:38-58 | the preview draws three commands per box in order, and fails with IndexError exactly when some id is below -len |
| BoxDrawing.DrawBox | utils/annotation_utils.py:40-58 | one pass of the loop appends exactly the box's three commands; a label that raises leaves only the outline drawn and returns that IndexError |
| BoxDrawing.DrawBboxes | utils/annotation_utils.py:29-60 | None gives None; otherwise a fresh copy of the same size with the box commands added, and the input image unchanged |
| AutoLabel.Remap | components/autolabel.py:73-75 | a kept prediction gets the first index of its name in the project classes, and its geometry unchanged |
| AutoLabel.ReconciledMeaning | components/autolabel.py:69-75 | the labels are exactly the kept predictions, remapped, in their original order |
| AutoLabel.KeptIndicesIncreasing | components/autolabel.py:69-75 | the kept positions increase and lie within the predictions |
| AutoLabel.KeptIndicesExact | components/autolabel.py:72-74 | a prediction is kept exactly when its id is below the detector's class count and its name is a project class |
| AutoLabel.ReconciledAtKept | components/autolabel.py:69-75 | label j is the remapped prediction at the j-th kept position |
| AutoLabel.ReconciledLength | components/autolabel.py:69-75 | there are never more labels than predictions |
| AutoLabel.ReconciledIdsValid | components/autolabel.py:75 | every label's class id indexes the project class list |
| AutoLabel.NothingKept | components/autolabel.py:69-77 | with no usable prediction the labels are empty, so the file is overwritten with nothing |
| AutoLabel.ReconcilePredictions | components/autolabel.py:69-75 | the filtering loop returns exactly the reconciled labels |
| AutoLabel.AutolabelSingleImage | components/autolabel.py:59-77 | the image's label file is overwritten with the reconciled labels, or the detector's error is raised and nothing is written |
| AutoLabel.LabelPathsFrame | components/autolabel.py:55-56 | Label All only writes the label files of the images it was given |
| AutoLabel.LabelPathsLastWriterWins | components/autolabel.py:55-56 | each image's label file holds its own labels unless a later image with the same stem overwrites it |
| AutoLabel.AllAnswered | components/autolabel.py:55-56 | when the detector answers for every image, Label All completes |
| AutoLabel.LabelPathsStops | components/autolabel.py:55-56 | the first image the detector fails on ends Label All with its error, keeping the files already written |
| AutoLabel.LabelAllImages | components/autolabel.py:16-57 | nothing happens without classes, images or a loaded model; otherwise every image is labelled in list order |
| AutoLabel.LabelCurrentImage | components/autolabel.py:47-51 | labels the image at the session index, with Python's negative indexing and IndexError |
| Annotator.NonEmptyStrippedNames | components/annotator.py:31 | the kept pieces are non-empty and have no line break and no whitespace at either end |
| Annotator.ClassNamesWellFormed | components/annotator.py:31 | every parsed class name is non-empty, has no line break, and is its own strip() |
| Annotator.NonEmptyStrippedOfNames | components/annotator.py:31 | well-formed names pass through the filter unchanged |
| Annotator.ClassNamesRoundTrip | components/annotator.py:24-31 | typing well-formed names one per line parses back to exactly those names, in order |
| Annotator.ShapeRoundTrip | components/annotator.py:75-118 | for a positive image size, saving an untouched canvas rectangle gives back the box it was drawn from |
| Annotator.CanvasRoundTrip | components/annotator.py:112-118 | for a positive image size, showing a saved rectangle again puts it where the canvas had it |
| Annotator.ShapeIdsDistinct | components/annotator.py:87 | rectangles at different positions have different ids |
| Annotator.BuildShapes | components/annotator.py:73-88 | one rectangle per box in order: left and top from the centre, size times image size, class colour, id = position |
| Annotator.BuildAnnotations | components/annotator.py:108-123 | one box per canvas object in canvas order; a rectangle without a class id gets the selected class |
| Annotator.NavigationInRange | components/annotator.py:36-42 | Previous and Next move by at most one, stay in range, and stop only at the first and last image |
| Annotator.PrevUndoesNext | components/annotator.py:36-42 | away from the ends, Previous undoes Next and Next undoes Previous |
| Annotator.DeleteMeaning | components/annotator.py:44-50 | delete removes exactly the current path and keeps the others in order; the index then shows the next image, or the new last one |
| Annotator.ResetGoesToFirst | components/annotator.py:141-142 | an index past the end restarts at 0, not at the last image; an index in range is kept |
| Annotator.NavStepInRange | components/annotator.py:33-50 | a click from a valid index keeps it valid, never fails, and empties the list only by deleting the only image |
| Annotator.SavedBoxes | components/annotator.py:108-123 | no canvas objects save nothing; a zero image size raises ZeroDivisionError; otherwise one box per object |
| Annotator.SaveUntouched | components/annotator.py:73-123 | saving a canvas nobody touched writes back exactly the boxes it showed |
| Annotator.Loaded | components/annotator.py:59-67 | boxes are found only for a position in range; an index past the end is IndexError |
| Annotator.CachedEntryWins | components/annotator.py:62-67 | a cached position is shown from the cache whatever its label file holds, and without a save nothing changes |
| Annotator.FirstVisitReads | components/annotator.py:62-67 | an uncached position is read from its label file and the result stored; a read error stores nothing |
| Annotator.SaveReplaces | components/annotator.py:107-126 | a save replaces the label file and the cache entry by exactly the canvas boxes, and reading back gives them rounded |
| Annotator.StaleAfterDelete | components/annotator.py:44-67 | after a delete, the image moving up to the deleted position is shown with the deleted image's cached boxes |
| Annotator.DeleteOnlyImage | components/annotator.py:48-50 | deleting the only image leaves an empty list, which render then indexes at 0 and raises IndexError |
| Annotator.AnnotatorComponent.constructor | components/annotator.py:16-22 | a new component starts at index 0 with no classes and no images, over the session's cache |
| Annotator.AnnotatorComponent.Previous | components/annotator.py:36-38 | the index goes one back unless it is 0; nothing else changes |
| Annotator.AnnotatorComponent.Next | components/annotator.py:40-42 | the index goes one on unless it is at the last image; nothing else changes |
| Annotator.AnnotatorComponent.DeleteCurrent | components/annotator.py:44-50 | deletes the current image and its label file, pops the path, clamps the index, keeps the cache, and raises IndexError past the end |
| Annotator.AnnotatorComponent.Navigate | components/annotator.py:33-52 | the clicked button's effect on the index, the list and the disk |
| Annotator.AnnotatorComponent.LoadEntry | components/annotator.py:62-67 | the cache entry is read from the label file only when absent; a read error stores nothing |
| Annotator.AnnotatorComponent.SaveEntry | components/annotator.py:107-126 | the canvas boxes are written to the label file and put in the cache, or ZeroDivisionError changes nothing |
| Annotator.AnnotatorComponent.UpdateSession | components/annotator.py:62-126 | the label files and the cache end as the controls step defines, and the boxes shown are those of before the save |
| Annotator.AnnotatorComponent.RenderAnnotationControls | components/annotator.py:54-131 | no image does nothing; otherwise the cache load, the save, the shapes of the cached boxes, and a preview of the pre-save boxes |
| Annotator.AnnotatorComponent.OpenImage | components/annotator.py:147-152 | a missing or undecodable file gives no image; otherwise a fresh image of the decoded size |
| Annotator.AnnotatorComponent.Begin | components/annotator.py:133-144 | takes over the classes and the list; for a non-empty list, resets the index and applies the click |
| Annotator.AnnotatorComponent.ShowCurrent | components/annotator.py:146-154 | IndexError for an index past the end, nothing for an image that fails to open; otherwise the session step on the label files and the cache, and its error, the drawing error, or the path, one canvas rectangle per cached box and a fresh preview of the image's size holding every box |
| Annotator.AnnotatorComponent.Render | components/annotator.py:133-154 | one run as written: an empty list shows nothing; the reset and the click on the list, the images and the label files; IndexError when the click deleted the only image; otherwise the current image shown as ShowCurrent states, after the click's changes to the label files |
| Annotator.AnnotatorComponent.RenderCorrected | components/annotator.py:133-154 | the same run, except that when the click deleted the only image it shows nothing instead of raising, with the label file of that image removed |

## Left out

- Streamlit itself is not modelled: widgets, columns, messages, spinners and reruns. The button clicked in a run, the selected class, the canvas result and the save click are parameters.
- Annotator.AnnotatorComponent.constructor: `main.py` creates a new `AnnotatorComponent` on every rerun (main.py:24), so in the program the index restarts at 0 in every run. The model keeps one component across calls and gives its constructor the session's cache entries; the rerun loop is not modelled.
- Annotator.AnnotatorComponent.Render: `self.image_paths = image_paths` makes the component's list the session's list, so the pop in a delete also shortens `st.session_state.image_paths`. The model holds only the component's list.
- The canvas (`st_canvas`), the draw/edit mode radio, the BGR-to-RGB conversion and `st.image` are not modelled; canvas objects are an input list of left, top, width, height and an optional class id.
- `AutoLabel.LabelCurrentImage` takes the index as a parameter. In the program it is `st.session_state.current_image_idx`, which only `main.py` sets.
- OpenCV and PIL are not modelled: pixels, `cv2.rectangle`, `cv2.putText`, `cvtColor` and `Image.open`. The preview is a list of drawing commands, `cv2.getTextSize` is a parameter, and decoding an image file is a parameter that returns its size or nothing.
- Decimal.Trunc: a token beyond the double range, such as "1e400", is inf for `float()`, and `int()` of it raises OverflowError out of `read_yolo_annotation`; the model reads the token exactly and truncates it, because reals are unbounded here.
- Decimal.ParseFloat: the model reads only signed decimal tokens with an optional point and exponent. `float()` also accepts "inf", "nan", underscores between digits and non-ASCII digits; the model rejects them, which is a ValueError.
- Box values are exact reals. IEEE-754 rounding of the coordinate arithmetic and of `float()` parsing is not modelled, and neither is the sign of a negative zero.
- The YOLO detector (models/yolo_model.py) is a parameter: a class-name list and a prediction function that returns predictions or an error. Its class ids are natural numbers. Its `names` dictionary keyed 0..n-1 is a list.
- Uploading and loading the model file (components/autolabel.py:23-36) is not modelled; the loaded model is an optional parameter.
- utils/model_utils.py and components/uploader.py are not part of this model.
- The directories created at import (config.py:13-14) are not modelled; the disk is two maps from path to contents, and a directory always exists.

## Findings

| source | as written | input that shows it | evidently intended | confidence | as-written member | corrected member |
|---|---|---|---|---|---|---|
| components/annotator.py:48-50 | after "Delete Current" pops the only path, render indexes the empty list at position 0 (line 146), outside the try, and raises IndexError | one image in the list, click "Delete Current" | show nothing when no image is left, as render already does for an empty list at line 137 | not executed | Annotator.AnnotatorComponent.Render | Annotator.AnnotatorComponent.RenderCorrected |
