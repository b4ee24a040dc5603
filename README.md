# COCO to YOLO label conversion, modelled in Dafny

This project models `ConvertCOCOToYOLO` from `coco_to_yolo.py`. The class reads a
COCO annotation document and writes one YOLO label file per image. Each line of a
file is `"<category_id> <x_center> <y_center> <width> <height>"`. The box values
are fractions of the image's width and height.

The model has four modules:

- `Boxes` (`boxes.dfy`): the box arithmetic. This covers `sorting`, nested in
  `convert_labels`, and the arithmetic of `convert_labels`, which turns two corner
  points into a YOLO centre box. It also covers the step in `convert` that turns a
  COCO `[x, y, w, h]` box into the corners `[x, y, x + w, y + h]`. Python floats are
  modelled as exact `real`s. The image size is a `Shape(height, width)` of positive
  integers. It stands for `img.shape[0]` and `img.shape[1]`.
- `Text` (`text.dfy`): the text the f-strings and file writes produce.
  `Decimal` is Python's `str` of an integer. `Join` is `"\n".join`. `Split` is
  `str.split("\n")`, which is how a reader gets the lines of a label file back.
- `Convert` (`convert.dfy`): the annotation loop of `convert`. The method `Convert`
  walks the annotation entries in index order with a `while` loop. It keeps the
  local `check_set` as a `set<string>` of printed image ids. It writes into a
  filesystem modelled as a `map<string, string>` from file name to content; the
  map is passed in and the new one returned. The first annotation of an image
  truncates `"<image_id>.txt"` and writes its line. Every later annotation of that
  image appends `"\n"` and its line.
- `Results` (`results.dfy`): `Option` and `Result`.

Points about the code that the model keeps:

- The output file is named `f'{image_id}.txt'` (line 95), so every annotation of
  image 10 goes to `10.txt`. The COCO `images` list and its `file_name` play no part.
- Image dimensions come from reading the image file `<image_id>.jpg` (lines 30-36
  and 53); the `width`/`height` of the COCO `images` list are not read. In the model this read is the
  lookup `shapes[image_id]`. A missing entry stands for an image `cv2` cannot read.
  For such an image `get_img_shape` returns `(None, None, None)`, so `1./size[1]`
  at line 56 raises a TypeError and the run stops (`UnreadableImage`).
- `check_set` is local to one call of `convert` (line 72).
- The box is read with the literal key `'bbox'` (line 80). The `bbox` parameter of
  `convert` plays no part, so the model has no such parameter.
- Any failure stops the whole run. The failures are a missing key (KeyError), a box
  with fewer than four numbers (IndexError at line 90) and an unreadable image.
  Files written for earlier annotations stay as written, because every annotation
  is written before the next is read. `Convert` reports the failing index and the
  fault, and its contract states what the files hold at that point.

External effects are parameters. `shapes` replaces `cv2.imread`. `fmt`, a function
from `real` to `string`, replaces Python's float `repr` in the f-string of line 96.
The filesystem map replaces `open`/`write`/`close`.

## Model

| member | source | states |
|---|---|---|
| `Boxes.Sorting` | coco_to_yolo.py:45-51 | the result is the pair (larger, smaller), a permutation of the arguments; its difference is the absolute difference and its sum the sum of the arguments; when `l1 <= l2`, ties included, it is exactly `(l2, l1)` |
| `Boxes.SortingSymmetric` | coco_to_yolo.py:45-51 | `sorting(l1, l2)` and `sorting(l2, l1)` give the same pair |
| `Boxes.ConvertLabels` | coco_to_yolo.py:53-66 | the normalized width and height are never negative |
| `Boxes.Denormalize` | coco_to_yolo.py:53-66 | scaling the result back by the image size gives `x * W == (x1 + x2)/2`, `y * H == (y1 + y2)/2`, `w * W == abs(x2 - x1)` and `h * H == abs(y2 - y1)` |
| `Boxes.CocoToKitti` | coco_to_yolo.py:90 | the first corner is the COCO top-left corner, and the second lies `bbox[2]` and `bbox[3]` further on |
| `Boxes.ScaleUnit` | coco_to_yolo.py:62-65 | a value between 0 and the image dimension scales to a fraction in [0, 1] |
| `Boxes.CornerOrderIrrelevant` | coco_to_yolo.py:54-55 | swapping `x1` with `x2`, or `y1` with `y2`, gives the same YOLO box |
| `Boxes.Normalized` | coco_to_yolo.py:39-42 | when both corners lie inside the image, all four outputs lie in [0, 1], the normalized format the docstring promises |
| `Boxes.CocoToYolo` | coco_to_yolo.py:90-91 | COCO `[bx, by, bw, bh]` becomes `((bx + bw/2)/W, (by + bh/2)/H, abs(bw)/W, abs(bh)/H)`; for non-negative `bw`, `bh` that is `(..., bw/W, bh/H)` |
| `Boxes.Example` | coco_to_yolo.py:90-91 | a 100 x 50 image and the COCO box `[10, 10, 20, 10]` give `(0.2, 0.3, 0.2, 0.2)` |
| `Text.Digits` | coco_to_yolo.py:78-79 | the decimal digits of a natural number form a non-empty string of digits |
| `Text.DigitsNoLeadingZero` | coco_to_yolo.py:78-79 | the digits of a number of two or more digits do not start with `0`, as in Python's `str` |
| `Text.DigitsRoundTrip` | coco_to_yolo.py:78-79 | reading the digits back gives the number |
| `Text.DecimalRoundTrip` | coco_to_yolo.py:78-79 | `int(str(n)) == n` for every integer `n`: the printed form of an id is a well-formed decimal that parses back to the id |
| `Text.DecimalInjective` | coco_to_yolo.py:78 | distinct integer ids print differently |
| `Text.DecimalNoNewline` | coco_to_yolo.py:79 | a printed id contains no newline |
| `Text.NoNewlineConcat` | coco_to_yolo.py:96 | joining two newline-free strings gives a newline-free string |
| `Text.JoinSnoc` | coco_to_yolo.py:101-104 | appending `"\n"` and a line to the join of a non-empty list of lines is the join of the list extended by that line |
| `Text.SplitLine` | coco_to_yolo.py:109-111 | a newline-free line splits into itself |
| `Text.SplitFirstLine` | coco_to_yolo.py:101-104 | a newline-free line, a newline and a rest split into that line followed by the lines of the rest |
| `Text.SplitJoin` | coco_to_yolo.py:99-111 | splitting the join of a non-empty list of newline-free lines on newlines gives the list back |
| `Convert.FileNameInjective` | coco_to_yolo.py:95 | distinct image ids get distinct file names |
| `Convert.ReadEntry` | coco_to_yolo.py:78-91 | reading an entry succeeds exactly when it has its image id, category id and a bbox of at least four numbers and its image is readable; otherwise it reports the first fault the source raises, in the order image id, category id, bbox key, bbox length, image; on success the label carries the entry's ids |
| `Convert.ReadEntryBox` | coco_to_yolo.py:80-91 | a read label's box scales back to the centre `(bbox[0] + bbox[2]/2, bbox[1] + bbox[3]/2)` and the extents `abs(bbox[2])`, `abs(bbox[3])` of the entry's COCO box, and its extents are non-negative |
| `Convert.IdTextsMatchImages` | coco_to_yolo.py:72 | the printed id of an image is in `check_set` exactly when that image has been labelled |
| `Convert.FileNamesMatchImages` | coco_to_yolo.py:95 | a name is a label file name exactly when it is the file name of a labelled image |
| `Convert.FileNameOfImage` | coco_to_yolo.py:95 | an image's file name is among the label files exactly when the image has been labelled |
| `Convert.LinesCount` | coco_to_yolo.py:75-111 | an image has exactly as many lines as there are labels carrying its id |
| `Convert.LinesOfEmpty` | coco_to_yolo.py:75-111 | an image has lines exactly when some annotation of it has been processed |
| `Convert.SnocPrefix` | coco_to_yolo.py:75 | processing one more label adds its image, its file name and its printed id to the sets seen so far, and its line to its image's lines only |
| `Convert.TruncateStep` | coco_to_yolo.py:106-111 | writing the first label of an image in "w" mode keeps the files equal to the labelled images' lines joined by newlines, with every other file unchanged |
| `Convert.AppendStep` | coco_to_yolo.py:99-104 | appending `"\n"` and a later label of an image in "a" mode keeps that same state |
| `Convert.ReadAllSnoc` | coco_to_yolo.py:75 | reading one more entry extends the labels read so far by that entry's label |
| `Convert.FirstOfImageSnoc` | coco_to_yolo.py:99-107 | a new label is the first of its image exactly when its image was not seen before, and earlier labels keep their status |
| `Convert.ImagesMembers` | coco_to_yolo.py:75-78 | an image is labelled exactly when some label carries its id |
| `Convert.TruncatedOnce` | coco_to_yolo.py:99-111 | every labelled image has a first label, written in "w" mode, and no later label of that image is treated as its first |
| `Convert.UnlabelledUntouched` | coco_to_yolo.py:95-111 | an image without annotations gets no file: its name exists afterwards only if it existed before, with the same content |
| `Convert.LineTextNoNewline` | coco_to_yolo.py:96 | when the float formatter writes no newline, a label line contains none |
| `Convert.LinesOfNoNewline` | coco_to_yolo.py:96 | under the same condition, no line of an image contains a newline |
| `Convert.FileLines` | coco_to_yolo.py:99-111 | under the same condition, splitting a labelled image's file on newlines gives exactly that image's lines in input order, with no trailing empty line, so the file has exactly as many lines as the image has annotations |
| `Convert.Convert` | coco_to_yolo.py:68-111 | the run stops at the first entry that cannot be read and reports its index and fault, or it completes; all earlier entries read successfully; the files are then the old files plus one file per labelled image holding its lines in input order joined by `"\n"`, with every other file unchanged; each label was written in "w" mode exactly when it was the first of its image |

## Left out

- `get_img_shape` and `cv2.imread` (lines 30-36) are foreign image decoding. They are replaced by the `shapes` lookup; the `print('error!', ...)` of the failure path is not modelled.
- `json.load(open(...))` (line 70) is file I/O and JSON parsing. The model starts from the list `data[annotation_key]` as a sequence of `Entry` records.
- The configurable key names `annotation_key`, `img_id` and `cat_id` (line 68) are not modelled. An `Entry` has the default fields `image_id`, `category_id` and `bbox`, each of which may be missing. A missing `annotation_key` list is not modelled.
- JSON values of other types than the COCO ones (a string id, a non-numeric box element) are not modelled. Ids are integers and box elements are reals.
- The image path construction (lines 83-86) only feeds `cv2`. The model looks the size up by image id, which determines the path.
- Python's float `repr` in the f-string of line 96 is the parameter `fmt`. IEEE rounding is not modelled: the arithmetic is exact over `real`.
- The real `open`/`write`/`close` calls (lines 101-111) are replaced by the file map. Write failures (IOError) are not modelled.
- The `__main__` block (line 116) is command-line plumbing, and the constructor (lines 25-27) only stores two paths.
- The em-dashes at lines 60-61 and the curly quotes at lines 101 and 109 make the file unparsable as written. The model reads them as `-` and `"`.
