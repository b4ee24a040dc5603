/**
 * The annotation loop of `ConvertCOCOToYOLO.convert`: for each annotation in
 * order, read its fields, turn its COCO box into a YOLO box, and write the line
 * into `"<image_id>.txt"`, truncating the file on the image's first annotation
 * and appending a newline and the line on every later one.
 *
 * The filesystem is a map from file names to contents, passed in and returned.
 * Reading an image to learn its size is a lookup in `shapes`, and Python's
 * float `repr` is the parameter `fmt`.
 */
module Convert {
  import opened Results
  import opened Text
  import opened Boxes

  /** One entry of the document's annotation list; a field the entry lacks is `None`. */
  datatype Entry = Entry(imageId: Option<int>, categoryId: Option<int>, bbox: Option<seq<real>>)

  /** Why the loop stops: a missing key (KeyError), a `bbox` with fewer than four numbers
      (IndexError), or an image that could not be read, whose `None` size makes the
      division by `size[1]` raise (TypeError). */
  datatype Fault = MissingKey(key: string) | ShortBbox | UnreadableImage(imageId: int)

  /** What one annotation contributes: the image it belongs to and its label line. */
  datatype Label = Label(imageId: int, categoryId: int, box: YoloBox)

  datatype Outcome = Completed | Aborted(index: nat, fault: Fault)

  /** How a label was written: "w" (truncate, first annotation of its image) or "a". */
  datatype Mode = Truncate | Append

  /** `f'{image_id}.txt'`. */
  function FileName(imageId: int): string
  {
    Decimal(imageId) + ".txt"
  }

  lemma FileNameInjective(a: int, b: int)
    requires FileName(a) == FileName(b)
    ensures a == b
  {
    var sa, sb := Decimal(a), Decimal(b);
    assert |sa| == |sb|;
    assert sa == FileName(a)[..|sa|] == FileName(b)[..|sb|] == sb;
    DecimalInjective(a, b);
  }

  /** `f"{category_id} {x} {y} {w} {h}"`, with `fmt` writing each float. */
  function LineText(l: Label, fmt: real -> string): string
  {
    Decimal(l.categoryId) + " " + fmt(l.box.x) + " " + fmt(l.box.y) + " " + fmt(l.box.w) + " " + fmt(l.box.h)
  }

  /** `open(name, "w").write(content)`: the file is created or truncated. */
  function WriteFile(files: map<string, string>, name: string, content: string): map<string, string>
  {
    files[name := content]
  }

  /** `open(name, "a").write(content)`: the file is created if absent. */
  function AppendFile(files: map<string, string>, name: string, content: string): map<string, string>
  {
    files[name := (if name in files then files[name] else "") + content]
  }

  /**
   * The reading and conversion steps of one loop iteration: the three key lookups,
   * the COCO-to-corners step and `convert_labels` on the image's size. It fails
   * exactly when the source raises, with the fault the source raises first, and
   * otherwise yields the annotation's ids and its YOLO box.
   */
  function ReadEntry(e: Entry, shapes: map<int, Shape>): (r: Result<Label, Fault>)
    ensures r.Success? <==>
      && e.imageId.Some? && e.categoryId.Some? && e.bbox.Some?
      && |e.bbox.value| >= 4 && e.imageId.value in shapes
    ensures r.Failure? && e.imageId.None? ==> r.error == MissingKey("image_id")
    ensures r.Failure? && e.imageId.Some? && e.categoryId.None? ==> r.error == MissingKey("category_id")
    ensures r.Failure? && e.imageId.Some? && e.categoryId.Some? && e.bbox.None? ==> r.error == MissingKey("bbox")
    ensures r.Failure? && e.imageId.Some? && e.categoryId.Some? && e.bbox.Some? ==>
      r.error == if |e.bbox.value| < 4 then ShortBbox else UnreadableImage(e.imageId.value)
    ensures r.Success? ==> r.value.imageId == e.imageId.value && r.value.categoryId == e.categoryId.value
  {
    if e.imageId.None? then Failure(MissingKey("image_id"))
    else if e.categoryId.None? then Failure(MissingKey("category_id"))
    else if e.bbox.None? then Failure(MissingKey("bbox"))
    else if |e.bbox.value| < 4 then Failure(ShortBbox)
    else if e.imageId.value !in shapes then Failure(UnreadableImage(e.imageId.value))
    else
      var c := CocoToKitti(e.bbox.value);
      var size := shapes[e.imageId.value];
      Success(Label(e.imageId.value, e.categoryId.value, ConvertLabels(size, c.x1, c.y1, c.x2, c.y2)))
  }

  /** The box of a label scales back to the centre and the extents of the entry's COCO box. */
  lemma ReadEntryBox(e: Entry, shapes: map<int, Shape>)
    requires ReadEntry(e, shapes).Success?
    ensures var l, bbox, size := ReadEntry(e, shapes).value, e.bbox.value, shapes[e.imageId.value];
      && l.box.x * size.width as real == bbox[0] + bbox[2] / 2.0
      && l.box.y * size.height as real == bbox[1] + bbox[3] / 2.0
      && l.box.w * size.width as real == Abs(bbox[2])
      && l.box.h * size.height as real == Abs(bbox[3])
      && l.box.w >= 0.0 && l.box.h >= 0.0
  {
    var c := CocoToKitti(e.bbox.value);
    Denormalize(shapes[e.imageId.value], c.x1, c.y1, c.x2, c.y2);
  }

  predicate AllRead(entries: seq<Entry>, shapes: map<int, Shape>)
  {
    forall i :: 0 <= i < |entries| ==> ReadEntry(entries[i], shapes).Success?
  }

  /** The labels of a run of entries that all read successfully. */
  function ReadAll(entries: seq<Entry>, shapes: map<int, Shape>): seq<Label>
    requires AllRead(entries, shapes)
  {
    seq(|entries|, i requires 0 <= i < |entries| => ReadEntry(entries[i], shapes).value)
  }

  /** The ids of the images labelled so far. */
  function Images(labels: seq<Label>): set<int>
  {
    if labels == [] then {} else Images(labels[..|labels| - 1]) + {labels[|labels| - 1].imageId}
  }

  /** The printed image ids: what `check_set` holds. */
  function IdTexts(labels: seq<Label>): set<string>
  {
    if labels == [] then {} else IdTexts(labels[..|labels| - 1]) + {Decimal(labels[|labels| - 1].imageId)}
  }

  /** The names of the label files the labels go to. */
  function FileNames(labels: seq<Label>): set<string>
  {
    if labels == [] then {} else FileNames(labels[..|labels| - 1]) + {FileName(labels[|labels| - 1].imageId)}
  }

  /** The lines of image `n`, in the order its labels come. */
  function LinesOf(labels: seq<Label>, n: int, fmt: real -> string): seq<string>
  {
    if labels == [] then []
    else
      var init := LinesOf(labels[..|labels| - 1], n, fmt);
      var last := labels[|labels| - 1];
      if last.imageId == n then init + [LineText(last, fmt)] else init
  }

  /** The number of labels carrying image id `n`. */
  function Count(labels: seq<Label>, n: int): nat
  {
    if labels == [] then 0
    else Count(labels[..|labels| - 1], n) + (if labels[|labels| - 1].imageId == n then 1 else 0)
  }

  /** An image with N annotations has N lines, so its file has N lines. */
  lemma {:induction false} LinesCount(labels: seq<Label>, n: int, fmt: real -> string)
    ensures |LinesOf(labels, n, fmt)| == Count(labels, n)
  {
    if labels != [] {
      LinesCount(labels[..|labels| - 1], n, fmt);
    }
  }

  /** Label `i` is the first of its image: the one written in "w" mode. */
  predicate FirstOfImage(labels: seq<Label>, i: nat)
    requires i < |labels|
  {
    labels[i].imageId !in Images(labels[..i])
  }

  /**
   * The filesystem after writing `labels` on top of `before`: one file per labelled
   * image, holding that image's lines joined by newlines, and every other file as it was.
   */
  predicate LabelFiles(before: map<string, string>, labels: seq<Label>, fmt: real -> string, after: map<string, string>)
  {
    && after.Keys == before.Keys + FileNames(labels)
    && (forall n :: n in Images(labels) ==> FileName(n) in after && after[FileName(n)] == Join(LinesOf(labels, n, fmt)))
    && (forall k :: k in before && k !in FileNames(labels) ==> after[k] == before[k])
  }

  /** `check_set` and the set of labelled images agree: an id's text is in it exactly when the id was seen. */
  lemma {:induction false} IdTextsMatchImages(labels: seq<Label>, n: int)
    ensures Decimal(n) in IdTexts(labels) <==> n in Images(labels)
  {
    if labels != [] {
      var last := labels[|labels| - 1];
      IdTextsMatchImages(labels[..|labels| - 1], n);
      if Decimal(last.imageId) == Decimal(n) {
        DecimalInjective(last.imageId, n);
      }
    }
  }

  /** The label files are those of the labelled images, and of no other. */
  lemma {:induction false} FileNamesMatchImages(labels: seq<Label>, k: string)
    ensures k in FileNames(labels) <==> exists n :: n in Images(labels) && k == FileName(n)
  {
    if labels != [] {
      var last := labels[|labels| - 1];
      FileNamesMatchImages(labels[..|labels| - 1], k);
      if k == FileName(last.imageId) {
        assert last.imageId in Images(labels);
      }
    }
  }

  lemma FileNameOfImage(labels: seq<Label>, n: int)
    ensures FileName(n) in FileNames(labels) <==> n in Images(labels)
  {
    FileNamesMatchImages(labels, FileName(n));
    if FileName(n) in FileNames(labels) {
      var m :| m in Images(labels) && FileName(n) == FileName(m);
      FileNameInjective(n, m);
    }
  }

  /** An image has lines exactly when it has labels: an image without annotations gets no file content. */
  lemma {:induction false} LinesOfEmpty(labels: seq<Label>, n: int, fmt: real -> string)
    ensures LinesOf(labels, n, fmt) == [] <==> n !in Images(labels)
  {
    if labels != [] {
      LinesOfEmpty(labels[..|labels| - 1], n, fmt);
    }
  }

  lemma SnocPrefix(labels: seq<Label>, l: Label, fmt: real -> string)
    ensures (labels + [l])[..|labels|] == labels
    ensures Images(labels + [l]) == Images(labels) + {l.imageId}
    ensures FileNames(labels + [l]) == FileNames(labels) + {FileName(l.imageId)}
    ensures IdTexts(labels + [l]) == IdTexts(labels) + {Decimal(l.imageId)}
    ensures forall n :: LinesOf(labels + [l], n, fmt) == if l.imageId == n then LinesOf(labels, n, fmt) + [LineText(l, fmt)] else LinesOf(labels, n, fmt)
  {
    assert (labels + [l])[..|labels|] == labels;
  }

  /** The first annotation of an image creates its file with one line. */
  lemma TruncateStep(before: map<string, string>, labels: seq<Label>, l: Label, fmt: real -> string, cur: map<string, string>)
    requires LabelFiles(before, labels, fmt, cur)
    requires l.imageId !in Images(labels)
    ensures LabelFiles(before, labels + [l], fmt, WriteFile(cur, FileName(l.imageId), LineText(l, fmt)))
  {
    var labels', name := labels + [l], FileName(l.imageId);
    var after := WriteFile(cur, name, LineText(l, fmt));
    SnocPrefix(labels, l, fmt);
    LinesOfEmpty(labels, l.imageId, fmt);
    forall n | n in Images(labels')
      ensures FileName(n) in after && after[FileName(n)] == Join(LinesOf(labels', n, fmt))
    {
      if n != l.imageId {
        if FileName(n) == name { FileNameInjective(n, l.imageId); }
      }
    }
    forall k | k in before && k !in FileNames(labels')
      ensures after[k] == before[k]
    {
    }
  }

  /** A later annotation of an image appends a newline and its line to the image's file. */
  lemma AppendStep(before: map<string, string>, labels: seq<Label>, l: Label, fmt: real -> string, cur: map<string, string>)
    requires LabelFiles(before, labels, fmt, cur)
    requires l.imageId in Images(labels)
    ensures var name := FileName(l.imageId);
      LabelFiles(before, labels + [l], fmt, AppendFile(AppendFile(cur, name, "\n"), name, LineText(l, fmt)))
  {
    var labels', name := labels + [l], FileName(l.imageId);
    var after := AppendFile(AppendFile(cur, name, "\n"), name, LineText(l, fmt));
    SnocPrefix(labels, l, fmt);
    LinesOfEmpty(labels, l.imageId, fmt);
    JoinSnoc(LinesOf(labels, l.imageId, fmt), LineText(l, fmt));
    forall n | n in Images(labels')
      ensures FileName(n) in after && after[FileName(n)] == Join(LinesOf(labels', n, fmt))
    {
      if n != l.imageId {
        if FileName(n) == name { FileNameInjective(n, l.imageId); }
      }
    }
  }

  /** Reading one more entry extends the labels read so far by its label. */
  lemma ReadAllSnoc(entries: seq<Entry>, i: nat, shapes: map<int, Shape>)
    requires i < |entries|
    requires AllRead(entries[..i], shapes)
    requires ReadEntry(entries[i], shapes).Success?
    ensures AllRead(entries[..i + 1], shapes)
    ensures ReadAll(entries[..i + 1], shapes) == ReadAll(entries[..i], shapes) + [ReadEntry(entries[i], shapes).value]
  {
    assert entries[..i + 1] == entries[..i] + [entries[i]];
  }

  /** Extending the labels keeps the first-of-image status of the earlier ones. */
  lemma FirstOfImageSnoc(labels: seq<Label>, l: Label)
    ensures FirstOfImage(labels + [l], |labels|) <==> l.imageId !in Images(labels)
    ensures forall j :: 0 <= j < |labels| ==> (FirstOfImage(labels + [l], j) <==> FirstOfImage(labels, j))
  {
    assert (labels + [l])[..|labels|] == labels;
    forall j | 0 <= j < |labels|
      ensures (labels + [l])[..j] == labels[..j]
    {
    }
  }

  /** An image is labelled exactly when some label carries its id. */
  lemma {:induction false} ImagesMembers(labels: seq<Label>, n: int)
    ensures n in Images(labels) <==> exists i :: 0 <= i < |labels| && labels[i].imageId == n
  {
    if labels != [] {
      var init := labels[..|labels| - 1];
      ImagesMembers(init, n);
      if n in Images(init) {
        var i :| 0 <= i < |init| && init[i].imageId == n;
        assert labels[i].imageId == n;
      }
      if exists i :: 0 <= i < |labels| && labels[i].imageId == n {
        var i :| 0 <= i < |labels| && labels[i].imageId == n;
        if i < |init| { assert init[i].imageId == n; }
      }
    }
  }

  /** Every labelled image is truncated ("w") exactly once: at its first label, and at no other. */
  lemma TruncatedOnce(labels: seq<Label>, n: int)
    requires n in Images(labels)
    ensures exists i :: 0 <= i < |labels| && labels[i].imageId == n && FirstOfImage(labels, i)
    ensures forall i, j :: 0 <= i < j < |labels| && labels[i].imageId == n && labels[j].imageId == n ==> !FirstOfImage(labels, j)
  {
    ImagesMembers(labels, n);
    var k :| 0 <= k < |labels| && labels[k].imageId == n;
    var i := k;
    while 0 < i && n in Images(labels[..i])
      invariant 0 <= i <= k && labels[i].imageId == n
      decreases i
    {
      ImagesMembers(labels[..i], n);
      var m :| 0 <= m < i && labels[..i][m].imageId == n;
      i := m;
    }
    assert FirstOfImage(labels, i);
    forall i, j | 0 <= i < j < |labels| && labels[i].imageId == n && labels[j].imageId == n
      ensures !FirstOfImage(labels, j)
    {
      assert labels[..j][i] == labels[i];
      ImagesMembers(labels[..j], n);
    }
  }

  /** An image without annotations gets no label file: its name is present, and its content kept, only if it was before. */
  lemma UnlabelledUntouched(before: map<string, string>, labels: seq<Label>, fmt: real -> string, after: map<string, string>, n: int)
    requires LabelFiles(before, labels, fmt, after)
    requires n !in Images(labels)
    ensures FileName(n) in after <==> FileName(n) in before
    ensures FileName(n) in before ==> after[FileName(n)] == before[FileName(n)]
  {
    FileNameOfImage(labels, n);
  }

  lemma LineTextNoNewline(l: Label, fmt: real -> string)
    requires forall v: real :: NoNewline(fmt(v))
    ensures NoNewline(LineText(l, fmt))
  {
    DecimalNoNewline(l.categoryId);
    NoNewlineConcat(Decimal(l.categoryId), " ");
    NoNewlineConcat(Decimal(l.categoryId) + " ", fmt(l.box.x));
    NoNewlineConcat(Decimal(l.categoryId) + " " + fmt(l.box.x), " ");
    NoNewlineConcat(Decimal(l.categoryId) + " " + fmt(l.box.x) + " ", fmt(l.box.y));
    NoNewlineConcat(Decimal(l.categoryId) + " " + fmt(l.box.x) + " " + fmt(l.box.y), " ");
    NoNewlineConcat(Decimal(l.categoryId) + " " + fmt(l.box.x) + " " + fmt(l.box.y) + " ", fmt(l.box.w));
    NoNewlineConcat(Decimal(l.categoryId) + " " + fmt(l.box.x) + " " + fmt(l.box.y) + " " + fmt(l.box.w), " ");
    NoNewlineConcat(Decimal(l.categoryId) + " " + fmt(l.box.x) + " " + fmt(l.box.y) + " " + fmt(l.box.w) + " ", fmt(l.box.h));
  }

  lemma {:induction false} LinesOfNoNewline(labels: seq<Label>, n: int, fmt: real -> string)
    requires forall v: real :: NoNewline(fmt(v))
    ensures forall i :: 0 <= i < |LinesOf(labels, n, fmt)| ==> NoNewline(LinesOf(labels, n, fmt)[i])
  {
    if labels != [] {
      LinesOfNoNewline(labels[..|labels| - 1], n, fmt);
      LineTextNoNewline(labels[|labels| - 1], fmt);
    }
  }

  /**
   * Reading a label file back: when no formatted float contains a newline, splitting
   * the file of a labelled image on newlines gives one line per annotation of that
   * image, in input order, and nothing more (no trailing empty line).
   */
  lemma FileLines(before: map<string, string>, labels: seq<Label>, fmt: real -> string, after: map<string, string>, n: int)
    requires LabelFiles(before, labels, fmt, after)
    requires n in Images(labels)
    requires forall v: real :: NoNewline(fmt(v))
    ensures Split(after[FileName(n)]) == LinesOf(labels, n, fmt)
    ensures |Split(after[FileName(n)])| == Count(labels, n)
  {
    LinesCount(labels, n, fmt);
    LinesOfEmpty(labels, n, fmt);
    LinesOfNoNewline(labels, n, fmt);
    SplitJoin(LinesOf(labels, n, fmt));
  }

  /** The number of entries a run got through. */
  function Done(outcome: Outcome, total: nat): nat
  {
    if outcome.Aborted? then outcome.index else total
  }

  /**
   * The loop of `convert`. It stops at the first entry that cannot be read, after
   * the files of the entries before it have been written; the files then hold the
   * labels of exactly those entries. `modes` records, per entry written, whether it
   * truncated its file: it did exactly when it was the first entry of its image.
   */
  method Convert(entries: seq<Entry>, shapes: map<int, Shape>, fmt: real -> string, files: map<string, string>)
    returns (files': map<string, string>, outcome: Outcome, ghost modes: seq<Mode>)
    ensures Done(outcome, |entries|) <= |entries|
    ensures outcome.Aborted? ==> outcome.index < |entries| && ReadEntry(entries[outcome.index], shapes) == Failure(outcome.fault)
    ensures AllRead(entries[..Done(outcome, |entries|)], shapes)
    ensures var labels := ReadAll(entries[..Done(outcome, |entries|)], shapes);
      && LabelFiles(files, labels, fmt, files')
      && |modes| == |labels|
      && (forall i :: 0 <= i < |labels| ==> (modes[i] == Truncate <==> FirstOfImage(labels, i)))
  {
    files' := files;
    outcome := Completed;
    modes := [];
    var checkSet: set<string> := {};
    ghost var labels: seq<Label> := [];
    var i := 0;
    while i < |entries|
      invariant 0 <= i <= |entries|
      invariant AllRead(entries[..i], shapes)
      invariant labels == ReadAll(entries[..i], shapes)
      invariant checkSet == IdTexts(labels)
      invariant LabelFiles(files, labels, fmt, files')
      invariant |modes| == |labels|
      invariant forall j :: 0 <= j < |labels| ==> (modes[j] == Truncate <==> FirstOfImage(labels, j))
    {
      var r := ReadEntry(entries[i], shapes);
      if r.Failure? {
        outcome := Aborted(i, r.error);
        return;
      }
      var next := r.value;
      var imageId := Decimal(next.imageId);
      var filename := imageId + ".txt";
      var content := LineText(next, fmt);
      IdTextsMatchImages(labels, next.imageId);
      SnocPrefix(labels, next, fmt);
      if imageId in checkSet {
        AppendStep(files, labels, next, fmt, files');
        files' := AppendFile(AppendFile(files', filename, "\n"), filename, content);
        modes := modes + [Append];
      } else {
        TruncateStep(files, labels, next, fmt, files');
        checkSet := checkSet + {imageId};
        files' := WriteFile(files', filename, content);
        modes := modes + [Truncate];
      }
      ReadAllSnoc(entries, i, shapes);
      FirstOfImageSnoc(labels, next);
      labels := labels + [next];
      i := i + 1;
    }
  }
}
