/**
 * `ImageService`: the upload list, the transformation configuration chosen on the upload page,
 * the simulated progress of a transformation request and the batch it produced.
 */
module Images {
  import opened Wrappers
  import opened Http
  import opened Text
  import opened ImageModel

  /** `environment.apiUrl`. */
  const ApiUrl := "http://localhost:3000/api"

  const ValidMimeTypes := ["image/jpeg", "image/png", "image/tiff", "application/zip"]
  const ValidExtensions := [".jpg", ".jpeg", ".png", ".tif", ".tiff", ".zip"]

  const UploadError := "Error al subir las imágenes"
  const TransformError := "Error al aplicar transformaciones"

  // ---------------------------------------------------------------------------------------------
  // File-type check
  // ---------------------------------------------------------------------------------------------

  /** '.' followed by the lower-cased text after the last dot of `name` (all of it when it has no dot). */
  function Extension(name: string): string {
    "." + ToLowerAscii(AfterLastDot(name))
  }

  /** `list.includes(x)`. */
  predicate Includes(list: seq<string>, x: string)
    decreases |list|
  {
    list != [] && (list[0] == x || Includes(list[1..], x))
  }

  /** `isValidFileType`: an accepted MIME type, or an accepted extension. */
  predicate IsValidFileType(file: FileInfo) {
    Includes(ValidMimeTypes, file.mimeType) || Includes(ValidExtensions, Extension(file.name))
  }

  /** `list.includes(x)` is membership. */
  lemma {:induction false} IncludesIsMembership(list: seq<string>, x: string)
    ensures Includes(list, x) <==> x in list
    decreases |list|
  {
    if list != [] {
      IncludesIsMembership(list[1..], x);
      assert list == [list[0]] + list[1..];
    }
  }

  /**
   * The file-type check in plain terms: a file is accepted exactly when its MIME type is one of the
   * four, or the lower-cased text after the last dot of its name is one of the six extensions.
   */
  lemma ValidFileTypeMeaning(file: FileInfo)
    ensures IsValidFileType(file) <==>
      file.mimeType in ValidMimeTypes
      || ToLowerAscii(AfterLastDot(file.name)) in ["jpg", "jpeg", "png", "tif", "tiff", "zip"]
  {
    IncludesIsMembership(ValidMimeTypes, file.mimeType);
    IncludesIsMembership(ValidExtensions, Extension(file.name));
    DottedExtension(ToLowerAscii(AfterLastDot(file.name)));
  }

  /** '.' + `e` is an accepted extension exactly when `e` is one without its dot. */
  lemma DottedExtension(e: string)
    ensures "." + e in ValidExtensions <==> e in ["jpg", "jpeg", "png", "tif", "tiff", "zip"]
  {
    var bare := ["jpg", "jpeg", "png", "tif", "tiff", "zip"];
    assert forall i :: 0 <= i < |bare| ==> ValidExtensions[i] == "." + bare[i];
    if "." + e in ValidExtensions {
      var i :| 0 <= i < |ValidExtensions| && ValidExtensions[i] == "." + e;
      assert e == ("." + e)[1..] == ("." + bare[i])[1..] == bare[i];
    }
  }

  lemma {:induction false} AfterLastDotLower(s: string)
    ensures AfterLastDot(ToLowerAscii(s)) == ToLowerAscii(AfterLastDot(s))
  {
    if s != [] {
      var init, c := s[..|s| - 1], s[|s| - 1];
      AfterLastDotLower(init);
      var lowered := ToLowerAscii(s);
      assert lowered == ToLowerAscii(init) + [LowerChar(c)];
      assert lowered[..|s| - 1] == ToLowerAscii(init);
      assert LowerChar(c) == '.' <==> c == '.';
      if c == '.' {
        assert AfterLastDot(s) == [];
        assert AfterLastDot(lowered) == [];
      } else {
        var tail := AfterLastDot(init);
        assert AfterLastDot(s) == tail + [c];
        assert AfterLastDot(lowered) == AfterLastDot(ToLowerAscii(init)) + [LowerChar(c)];
        assert (tail + [c])[..|tail|] == tail;
        assert ToLowerAscii(tail + [c]) == ToLowerAscii(tail) + [LowerChar(c)];
      }
    }
  }

  lemma {:induction false} LowerIdempotent(s: string)
    ensures ToLowerAscii(ToLowerAscii(s)) == ToLowerAscii(s)
  {
    if s != [] {
      var init := s[..|s| - 1];
      LowerIdempotent(init);
      var lowered := ToLowerAscii(s);
      assert lowered[..|s| - 1] == ToLowerAscii(init);
    }
  }

  /** The extension test ignores the case of ASCII letters in the file name. */
  lemma FileTypeIgnoresCase(file: FileInfo)
    ensures IsValidFileType(file) == IsValidFileType(file.(name := ToLowerAscii(file.name)))
  {
    AfterLastDotLower(file.name);
    LowerIdempotent(AfterLastDot(file.name));
  }

  lemma {:induction false} AfterLastDotOfSuffix(prefix: string, rest: string)
    ensures AfterLastDot(prefix + "." + rest) == AfterLastDot(rest)
  {
    if rest == [] {
      assert (prefix + "." + rest)[|prefix + "." + rest| - 1] == '.';
    } else {
      var init := rest[..|rest| - 1];
      assert (prefix + "." + rest)[..|prefix + "." + rest| - 1] == prefix + "." + init;
      AfterLastDotOfSuffix(prefix, init);
    }
  }

  /** Only the text after the last dot decides: "photo.jpg.exe" is judged by "exe". */
  lemma FileTypeUsesLastExtension(prefix: string, rest: string, size: nat, mime: string)
    ensures IsValidFileType(FileInfo(prefix + "." + rest, size, mime)) == IsValidFileType(FileInfo(rest, size, mime))
  {
    AfterLastDotOfSuffix(prefix, rest);
  }

  /**
   * A name without a dot is its own extension: a file called "JPG" is judged as if its extension
   * were ".jpg".
   */
  lemma DotlessNameIsItsOwnExtension(file: FileInfo)
    requires '.' !in file.name
    ensures Extension(file.name) == "." + ToLowerAscii(file.name)
    ensures file.name == "JPG" ==> IsValidFileType(file)
  {
    if file.name == "JPG" {
      ValidFileTypeMeaning(file);
      assert ToLowerAscii("J") == "j";
      assert ToLowerAscii("JP") == "jp";
      assert ToLowerAscii("JPG") == "jpg";
    }
  }

  // ---------------------------------------------------------------------------------------------
  // processFiles: splitting the dropped files into accepted images and rejected names
  // ---------------------------------------------------------------------------------------------

  /** The image an accepted file becomes; `id` is the random id `processFiles` draws for it. */
  function NewImage(file: FileInfo, id: string): ImageFile {
    ImageFile(id, file.name, file.size, file.mimeType, true)
  }

  /**
   * The images `processFiles` makes of the files that `accept` lets through, in order; `ids[i]` is the
   * id drawn for `files[i]`. The service passes `IsValidFileType` as `accept`.
   */
  function AcceptedImages(files: seq<FileInfo>, ids: seq<string>, accept: FileInfo -> bool): (r: seq<ImageFile>)
    requires |ids| == |files|
    ensures |r| <= |files|
    decreases |files|
  {
    if files == [] then []
    else
      var n := |files| - 1;
      AcceptedImages(files[..n], ids[..n], accept) + (if accept(files[n]) then [NewImage(files[n], ids[n])] else [])
  }

  /** The names of the files `processFiles` rejects, in order. */
  function RejectedNames(files: seq<FileInfo>, accept: FileInfo -> bool): (r: seq<string>)
    ensures |r| <= |files|
    decreases |files|
  {
    if files == [] then []
    else
      var n := |files| - 1;
      RejectedNames(files[..n], accept) + (if accept(files[n]) then [] else [files[n].name])
  }

  /** Every accepted image is selected and copies the name, size and type of an accepted file. */
  lemma {:induction false} AcceptedAreNewImages(files: seq<FileInfo>, ids: seq<string>, accept: FileInfo -> bool, k: nat)
    requires |ids| == |files| && k < |AcceptedImages(files, ids, accept)|
    ensures AcceptedImages(files, ids, accept)[k].selected
    ensures exists i :: 0 <= i < |files| && accept(files[i]) && AcceptedImages(files, ids, accept)[k] == NewImage(files[i], ids[i])
    decreases |files|
  {
    var n := |files| - 1;
    var front := AcceptedImages(files[..n], ids[..n], accept);
    if k < |front| {
      AcceptedAreNewImages(files[..n], ids[..n], accept, k);
      var i :| 0 <= i < n && accept(files[..n][i]) && front[k] == NewImage(files[..n][i], ids[..n][i]);
      assert files[..n][i] == files[i] && ids[..n][i] == ids[i];
    } else {
      assert AcceptedImages(files, ids, accept)[k] == NewImage(files[n], ids[n]);
    }
  }

  /** Every rejected name is the name of a rejected file. */
  lemma {:induction false} RejectedAreInvalidNames(files: seq<FileInfo>, accept: FileInfo -> bool, k: nat)
    requires k < |RejectedNames(files, accept)|
    ensures exists i :: 0 <= i < |files| && !accept(files[i]) && RejectedNames(files, accept)[k] == files[i].name
    decreases |files|
  {
    var n := |files| - 1;
    var front := RejectedNames(files[..n], accept);
    if k < |front| {
      RejectedAreInvalidNames(files[..n], accept, k);
      var i :| 0 <= i < n && !accept(files[..n][i]) && front[k] == files[..n][i].name;
      assert files[..n][i] == files[i];
    } else {
      assert RejectedNames(files, accept)[k] == files[n].name;
    }
  }

  /** Every file lands in exactly one of the two lists. */
  lemma {:induction false} PartitionSizes(files: seq<FileInfo>, ids: seq<string>, accept: FileInfo -> bool)
    requires |ids| == |files|
    ensures |AcceptedImages(files, ids, accept)| + |RejectedNames(files, accept)| == |files|
    decreases |files|
  {
    if files != [] {
      var n := |files| - 1;
      PartitionSizes(files[..n], ids[..n], accept);
    }
  }

  /** Accepting from a concatenation accepts from each part and concatenates: input order is kept. */
  lemma {:induction false} AcceptedAppend(
    f1: seq<FileInfo>, i1: seq<string>, f2: seq<FileInfo>, i2: seq<string>, accept: FileInfo -> bool)
    requires |i1| == |f1| && |i2| == |f2|
    ensures AcceptedImages(f1 + f2, i1 + i2, accept) == AcceptedImages(f1, i1, accept) + AcceptedImages(f2, i2, accept)
    decreases |f2|
  {
    if f2 == [] {
      assert f1 + f2 == f1 && i1 + i2 == i1;
    } else {
      var n := |f2| - 1;
      var files, ids := f1 + f2, i1 + i2;
      assert files[..|files| - 1] == f1 + f2[..n];
      assert ids[..|ids| - 1] == i1 + i2[..n];
      assert files[|files| - 1] == f2[n] && ids[|ids| - 1] == i2[n];
      AcceptedAppend(f1, i1, f2[..n], i2[..n], accept);
      var last := if accept(f2[n]) then [NewImage(f2[n], i2[n])] else [];
      assert AcceptedImages(files, ids, accept) == AcceptedImages(f1 + f2[..n], i1 + i2[..n], accept) + last;
      assert AcceptedImages(f2, i2, accept) == AcceptedImages(f2[..n], i2[..n], accept) + last;
    }
  }

  /** Rejecting from a concatenation rejects from each part and concatenates: input order is kept. */
  lemma {:induction false} RejectedAppend(f1: seq<FileInfo>, f2: seq<FileInfo>, accept: FileInfo -> bool)
    ensures RejectedNames(f1 + f2, accept) == RejectedNames(f1, accept) + RejectedNames(f2, accept)
    decreases |f2|
  {
    if f2 == [] {
      assert f1 + f2 == f1;
    } else {
      var n := |f2| - 1;
      var files := f1 + f2;
      assert files[..|files| - 1] == f1 + f2[..n];
      assert files[|files| - 1] == f2[n];
      RejectedAppend(f1, f2[..n], accept);
      var last := if accept(f2[n]) then [] else [f2[n].name];
      assert RejectedNames(files, accept) == RejectedNames(f1 + f2[..n], accept) + last;
      assert RejectedNames(f2, accept) == RejectedNames(f2[..n], accept) + last;
    }
  }

  // ---------------------------------------------------------------------------------------------
  // Selection flags of the upload list
  // ---------------------------------------------------------------------------------------------

  /** `images.filter(img => img.selected)`. */
  function SelectedOnly(images: seq<ImageFile>): (r: seq<ImageFile>)
    ensures |r| <= |images|
    ensures forall x :: x in r <==> x in images && x.selected
  {
    if images == [] then []
    else (if images[0].selected then [images[0]] else []) + SelectedOnly(images[1..])
  }

  /** `images.some(img => img.selected)`. */
  predicate AnySelected(images: seq<ImageFile>) {
    exists i :: 0 <= i < |images| && images[i].selected
  }

  /** The filter keeps the selected images in their list order: it distributes over concatenation. */
  lemma {:induction false} SelectedOnlyAppend(a: seq<ImageFile>, b: seq<ImageFile>)
    ensures SelectedOnly(a + b) == SelectedOnly(a) + SelectedOnly(b)
  {
    if a == [] {
      assert a + b == b;
    } else {
      assert (a + b)[0] == a[0];
      assert (a + b)[1..] == a[1..] + b;
      SelectedOnlyAppend(a[1..], b);
    }
  }

  /** Some image is selected exactly when the filtered list is not empty. */
  lemma AnySelectedIffSelectedOnly(images: seq<ImageFile>)
    ensures AnySelected(images) <==> SelectedOnly(images) != []
  {
    if AnySelected(images) {
      var i :| 0 <= i < |images| && images[i].selected;
      assert images[i] in SelectedOnly(images);
    }
  }

  // ---------------------------------------------------------------------------------------------
  // The progress record
  // ---------------------------------------------------------------------------------------------

  const IdleProgress := Progress(0, 0, 0, Idle)

  /** The progress record never counts past its total nor past 100 percent. */
  predicate ProgressValid(p: Progress) {
    p.processed <= p.total && p.percentage <= 100
  }

  /** The record `applyTransformations` starts with: one step for a batch, one per configuration otherwise. */
  function StartProgress(request: TransformRequest): (r: Progress)
    ensures ProgressValid(r) && r.processed == 0 && r.percentage == 0 && r.status == Processing
    ensures request.applyToAll ==> r.total == 1
    ensures !request.applyToAll ==> r.total == if request.imageConfigs.Some? then |request.imageConfigs.value| else 0
  {
    var total := if request.applyToAll then 1 else if request.imageConfigs.Some? then |request.imageConfigs.value| else 0;
    Progress(total, 0, 0, Processing)
  }

  /** The record after the server answered with a batch of `count` images. */
  function CompletedProgress(count: nat): (r: Progress)
    ensures ProgressValid(r) && r.status == Completed && r.percentage == 100
    ensures r.total == count && r.processed == count
  {
    Progress(count, count, 100, Completed)
  }

  /** `Math.round(processed / total * 100)`: the nearest whole percentage, halves rounded up. */
  function RoundedPercentage(processed: nat, total: nat): (r: nat)
    requires 0 < total
    ensures 2 * total * r <= 200 * processed + total < 2 * total * (r + 1)
    ensures processed <= total ==> r <= 100
    ensures processed == total ==> r == 100
  {
    RoundingBounds(200 * processed + total, 2 * total, processed <= total, processed == total);
    (200 * processed + total) / (2 * total)
  }

  /** The facts about `a / b` that `RoundedPercentage` promises, for `a = 200 * processed + total`, `b = 2 * total`. */
  lemma RoundingBounds(a: nat, b: nat, atMostTotal: bool, atTotal: bool)
    requires 0 < b
    requires atMostTotal ==> a < b * 101
    requires atTotal ==> a == b * 100 + b / 2 && b % 2 == 0
    ensures b * (a / b) <= a < b * (a / b + 1)
    ensures atMostTotal ==> a / b <= 100
    ensures atTotal ==> a / b == 100
  {
    var q := a / b;
    assert a == b * q + a % b && 0 <= a % b < b;
    if atMostTotal && q > 100 {
      MultiplyMonotone(b, 101, q);
    }
    if atTotal && q < 100 {
      MultiplyMonotone(b, q + 1, 100);
    }
  }

  lemma MultiplyMonotone(b: nat, x: nat, y: nat)
    requires x <= y
    ensures b * x <= b * y
  {
    assert b * y == b * x + b * (y - x);
  }

  /** The body of the interval timer: one more image counted as processed, until the total is reached. */
  function Tick(p: Progress): (r: Progress)
    ensures p.processed >= p.total ==> r == p
    ensures p.processed < p.total ==>
      r == p.(processed := p.processed + 1, percentage := RoundedPercentage(p.processed + 1, p.total))
    ensures ProgressValid(p) ==> ProgressValid(r)
  {
    if p.processed < p.total then
      p.(processed := p.processed + 1, percentage := RoundedPercentage(p.processed + 1, p.total))
    else p
  }

  /** The record after `k` timer ticks. */
  function Ticks(p: Progress, k: nat): (r: Progress)
    ensures r.total == p.total && r.status == p.status
    ensures ProgressValid(p) ==> ProgressValid(r)
    decreases k
  {
    if k == 0 then p else Ticks(Tick(p), k - 1)
  }

  /** Once enough ticks have fired, the simulated progress shows every image processed, at 100 percent. */
  lemma {:induction false} TicksReachTotal(p: Progress, k: nat)
    requires p.processed < p.total && k >= p.total - p.processed
    ensures Ticks(p, k).processed == p.total && Ticks(p, k).percentage == 100
    decreases k
  {
    var q := Tick(p);
    if q.processed < q.total {
      TicksReachTotal(q, k - 1);
    } else {
      TicksStayPut(q, k - 1);
    }
  }

  lemma {:induction false} TicksStayPut(p: Progress, k: nat)
    requires p.processed >= p.total
    ensures Ticks(p, k) == p
    decreases k
  {
    if k > 0 {
      TicksStayPut(Tick(p), k - 1);
    }
  }

  // ---------------------------------------------------------------------------------------------
  // Downloads
  // ---------------------------------------------------------------------------------------------

  datatype DownloadKind = Zip | Single

  /** `downloadResult`: the URL the download link points at and the file name it suggests. */
  function DownloadTarget(batchId: string, kind: DownloadKind): (r: (string, string))
    ensures kind == Zip ==> r.1 == "transformaciones_" + batchId + ".zip"
    ensures kind == Single ==> r.1 == "transformaciones_" + batchId + ".jpg"
  {
    if kind == Zip then (ApiUrl + "/images/download/batch/" + batchId, "transformaciones_" + batchId + ".zip")
    else (ApiUrl + "/images/download/" + batchId, "transformaciones_" + batchId + ".jpg")
  }

  /**
   * Different batches are fetched from different URLs and saved under different file names for the
   * same kind, and the archive of a batch and its single image differ in both URL and file name.
   */
  lemma DownloadTargetsDistinct(a: string, b: string, kind: DownloadKind)
    ensures DownloadTarget(a, kind).0 == DownloadTarget(b, kind).0 ==> a == b
    ensures DownloadTarget(a, kind).1 == DownloadTarget(b, kind).1 ==> a == b
    ensures DownloadTarget(a, Zip).0 != DownloadTarget(a, Single).0
    ensures DownloadTarget(a, Zip).1 != DownloadTarget(a, Single).1
  {
    var zipBase := ApiUrl + "/images/download/batch/";
    var singleBase := ApiUrl + "/images/download/";
    var prefix := "transformaciones_";
    var suffix := if kind == Zip then ".zip" else ".jpg";
    if DownloadTarget(a, kind).0 == DownloadTarget(b, kind).0 {
      var base := if kind == Zip then zipBase else singleBase;
      assert a == (base + a)[|base|..];
      assert b == (base + b)[|base|..];
    }
    if DownloadTarget(a, kind).1 == DownloadTarget(b, kind).1 {
      assert |a| == |b|;
      assert a == (prefix + a + suffix)[|prefix|..|prefix| + |a|];
      assert b == (prefix + b + suffix)[|prefix|..|prefix| + |b|];
    }
    assert |DownloadTarget(a, Zip).0| != |DownloadTarget(a, Single).0|;
    var zipName := DownloadTarget(a, Zip).1;
    var singleName := DownloadTarget(a, Single).1;
    assert zipName[|zipName| - 1] == 'p' && singleName[|singleName| - 1] == 'g';
  }

  // ---------------------------------------------------------------------------------------------
  // The service
  // ---------------------------------------------------------------------------------------------

  class ImageService {
    var selectedImages: seq<ImageFile>
    var transformationConfig: Option<UploadConfig>
    var isLoading: bool
    var errorMessage: string
    var transformationMode: TransformationMode
    var progress: Progress
    var currentBatch: Option<BatchResult>

    ghost predicate Valid()
      reads this
    {
      ProgressValid(progress)
    }

    constructor ()
      ensures Valid()
      ensures selectedImages == [] && transformationConfig == None && !isLoading && errorMessage == ""
      ensures transformationMode == BatchMode && progress == IdleProgress && currentBatch == None
    {
      selectedImages := [];
      transformationConfig := None;
      isLoading := false;
      errorMessage := "";
      transformationMode := BatchMode;
      progress := IdleProgress;
      currentBatch := None;
    }

    /** `hasProcessedBatch`: a batch is stored and the progress says it completed. */
    predicate HasProcessedBatch()
      reads this
    {
      currentBatch.Some? && progress.status == Completed
    }

    /** `processFiles`: touches no state; accepted files become selected images, rejected ones are named. */
    method ProcessFiles(files: seq<FileInfo>, ids: seq<string>) returns (valid: seq<ImageFile>, invalid: seq<string>)
      requires |ids| == |files|
      ensures valid == AcceptedImages(files, ids, IsValidFileType)
      ensures invalid == RejectedNames(files, IsValidFileType)
      ensures |valid| + |invalid| == |files|
    {
      valid, invalid := [], [];
      var i := 0;
      while i < |files|
        invariant 0 <= i <= |files|
        invariant valid == AcceptedImages(files[..i], ids[..i], IsValidFileType)
        invariant invalid == RejectedNames(files[..i], IsValidFileType)
      {
        ghost var fs, ds := files[..i + 1], ids[..i + 1];
        assert fs[..i] == files[..i] && ds[..i] == ids[..i];
        assert fs[i] == files[i] && ds[i] == ids[i];
        var accepted := IsValidFileType(files[i]);
        if accepted {
          valid := valid + [NewImage(files[i], ids[i])];
        } else {
          invalid := invalid + [files[i].name];
        }
        assert valid == AcceptedImages(fs, ds, IsValidFileType);
        assert invalid == RejectedNames(fs, IsValidFileType);
        i := i + 1;
      }
      assert files[..i] == files && ids[..i] == ids;
      PartitionSizes(files, ids, IsValidFileType);
    }

    /** `uploadImages`: the answer's `success` flag, or false when there is none or the request failed. */
    method UploadImages(images: seq<ImageFile>, response: Response<UploadBody>) returns (ok: bool)
      requires Valid()
      modifies this
      ensures Valid()
      ensures ok == (response.Delivered? && response.body.Some? && response.body.value.success)
      ensures errorMessage == (if response.Threw? then UploadError else "")
      ensures !isLoading
      ensures selectedImages == old(selectedImages) && transformationConfig == old(transformationConfig)
      ensures transformationMode == old(transformationMode) && progress == old(progress)
      ensures currentBatch == old(currentBatch)
    {
      isLoading := true;
      errorMessage := "";
      match response {
        case Threw =>
          errorMessage := UploadError;
          ok := false;
        case Delivered(body) =>
          ok := body.Some? && body.value.success;
      }
      isLoading := false;
    }

    /** The interval callback of `applyTransformations`. */
    method ProgressTick()
      requires Valid()
      modifies this`progress
      ensures Valid()
      ensures progress == Tick(old(progress))
    {
      var current := progress;
      if current.processed < current.total {
        var processed := current.processed + 1;
        progress := current.(processed := processed, percentage := RoundedPercentage(processed, current.total));
      }
    }

    /**
     * `applyTransformations`: `ticks` is how often the progress timer fired before `response` arrived.
     * A batch answer is stored and completes the progress; a failure marks the progress as failed and
     * keeps the previous batch.
     */
    method ApplyTransformations(request: TransformRequest, ticks: nat, response: Response<BatchResult>)
      returns (result: Option<BatchResult>)
      requires Valid()
      modifies this
      ensures Valid()
      ensures !isLoading
      ensures selectedImages == old(selectedImages) && transformationConfig == old(transformationConfig)
      ensures transformationMode == old(transformationMode)
      ensures response.Delivered? && response.body.Some? ==>
        && result == response.body && currentBatch == response.body
        && progress == CompletedProgress(response.body.value.imageCount)
        && errorMessage == "" && HasProcessedBatch()
      ensures response.Delivered? && response.body.None? ==>
        && result == None && currentBatch == old(currentBatch)
        && progress == Ticks(StartProgress(request), ticks) && errorMessage == ""
      ensures response.Threw? ==>
        && result == None && currentBatch == old(currentBatch)
        && progress == Ticks(StartProgress(request), ticks).(status := Error) && errorMessage == TransformError
    {
      isLoading := true;
      errorMessage := "";
      progress := StartProgress(request);
      var k := 0;
      while k < ticks
        invariant 0 <= k <= ticks
        invariant Valid() && isLoading && errorMessage == ""
        invariant progress == Ticks(StartProgress(request), k)
        invariant selectedImages == old(selectedImages) && transformationConfig == old(transformationConfig)
        invariant transformationMode == old(transformationMode) && currentBatch == old(currentBatch)
      {
        TicksSplit(StartProgress(request), k);
        ProgressTick();
        k := k + 1;
      }
      match response {
        case Delivered(body) =>
          if body.Some? {
            currentBatch := body;
            progress := CompletedProgress(body.value.imageCount);
          }
          result := body;
        case Threw =>
          errorMessage := TransformError;
          progress := progress.(status := Error);
          result := None;
      }
      isLoading := false;
    }

    /** `setCurrentBatch`: stores a batch as if the server had just completed it. */
    method SetCurrentBatch(batch: BatchResult)
      requires Valid()
      modifies this
      ensures Valid() && HasProcessedBatch()
      ensures currentBatch == Some(batch) && progress == CompletedProgress(batch.imageCount)
      ensures selectedImages == old(selectedImages) && transformationConfig == old(transformationConfig)
      ensures isLoading == old(isLoading) && errorMessage == old(errorMessage)
      ensures transformationMode == old(transformationMode)
    {
      currentBatch := Some(batch);
      progress := CompletedProgress(batch.imageCount);
    }

    /** `reset`: forgets the images, the batch, the progress and the error; keeps the configuration and mode. */
    method Reset()
      requires Valid()
      modifies this
      ensures Valid() && !HasProcessedBatch()
      ensures selectedImages == [] && currentBatch == None && progress == IdleProgress && errorMessage == ""
      ensures transformationConfig == old(transformationConfig) && transformationMode == old(transformationMode)
      ensures isLoading == old(isLoading)
    {
      selectedImages := [];
      currentBatch := None;
      progress := IdleProgress;
      errorMessage := "";
    }
  }

  lemma TicksSplit(p: Progress, k: nat)
    ensures Ticks(p, k + 1) == Tick(Ticks(p, k))
    decreases k
  {
    if k > 0 {
      TicksSplit(Tick(p), k - 1);
    }
  }
}
