/**
 * The batch screen of components/BatchProcessor.tsx: a list of per-file records,
 * initialised as pending, and `processBatch`, which walks the list in order,
 * skips records already done, marks the current one as processing, crops its
 * image to 3:2, encodes it (within a byte budget or at a fixed quality) and
 * stores the outcome in that slot alone.
 *
 * Reading and decoding the file (`readFile`, `createImage`) is the function `load`,
 * which gives `None` when the file does not decode; the WebP encoder behind
 * `getCroppedImg` is the function `webp`; both are parameters, as is `Math.sqrt`.
 * Each is deterministic, so the outcome for a record depends on that record alone.
 * Every list `processBatch` hands to `setItems` is recorded in `history`.
 */
module BatchProcessor {
  import opened Wrappers
  import opened ImageUtils
  import opened SizeSearch

  datatype Status = Pending | Processing | Done | Error

  /**
   * A browser `File`: an identity standing for its contents (two files with the same name
   * and size may still differ), its name and its size in bytes.
   */
  datatype FileRef = FileRef(id: nat, name: string, size: nat)

  /** `ProcessedImage` of types.ts; the blob is represented by its size, the object URL is left out. */
  datatype ProcessedImage = ProcessedImage(originalSize: nat, newSize: nat, width: real, height: real, originalName: string)

  datatype BatchFileStatus = BatchFileStatus(
    file: FileRef,
    status: Status,
    processedImage: Option<ProcessedImage>,
    error: Option<string>,
    originalSrc: Option<string>)

  /** The three controls of the screen: the byte budget (0 for manual quality), the quality in percent, the watermark. */
  datatype Settings = Settings(targetSize: int, quality: int, addWatermark: bool)

  const DefaultSettings: Settings := Settings(0, 85, true)
  const BatchAspect: real := 1.5
  const FailureMessage: string := "Failed to process"

  /** A decoded image: its data URL and its natural size. */
  datatype Image = Image(src: string, width: real, height: real)
  type Picture = im: Image | im.width > 0.0 && im.height > 0.0 witness Image("", 1.0, 1.0)

  /** `toBlob` of the canvas prepared from `src` and `crop`, at a quality: the blob's size, or `None`. */
  type WebpEncoder = (string, PixelCrop, Canvas, real) -> Option<nat>

  /** What `processBatch` calls out to: reading and decoding a file (`None`: it does not decode), the encoder, `Math.sqrt`. */
  datatype Env = Env(load: FileRef -> Option<Picture>, webp: WebpEncoder, sqrt: real -> real)

  /** `getCroppedImg(src, crop, 0, quality, scale, addWatermark)` as a function of (scale, quality). */
  function CropEncoder(webp: WebpEncoder, src: string, crop: PixelCrop, addWatermark: bool): Encoder
  {
    (scale: real, quality: real) => webp(src, crop, FinalCanvas(crop, scale, addWatermark), quality)
  }

  /** The blob of one file: budget mode when `targetSize > 0`, else one encode at full scale. */
  function Blob(env: Env, settings: Settings, src: string, crop: PixelCrop): Option<nat>
  {
    var encode := CropEncoder(env.webp, src, crop, settings.addWatermark);
    if settings.targetSize > 0 then Optimization(encode, env.sqrt, settings.targetSize as nat).blob
    else encode(1.0, settings.quality as real / 100.0)
  }

  /** The `catch` branch: the record becomes an error, everything else in it is kept. */
  function Failed(item: BatchFileStatus): BatchFileStatus
  {
    item.(status := Error, error := Some(FailureMessage))
  }

  /** The `try` block on the record marked as processing. */
  function Attempt(env: Env, settings: Settings, item: BatchFileStatus): BatchFileStatus
  {
    match env.load(item.file)
    case None => Failed(item)
    case Some(im) =>
      var crop := CenterCropPixels(im.width, im.height, BatchAspect);
      var blob := Blob(env, settings, im.src, crop);
      if blob.None? then Failed(item)
      else
        item.(status := Done, originalSrc := Some(im.src),
              processedImage := Some(ProcessedImage(item.file.size, blob.value, crop.width, crop.height, item.file.name)))
  }

  /** One iteration of the loop, on the record it finds in its slot. */
  function Step(env: Env, settings: Settings, item: BatchFileStatus): BatchFileStatus
  {
    if item.status == Done then item else Attempt(env, settings, item.(status := Processing))
  }

  /** The list after the whole loop. */
  function RunBatch(env: Env, settings: Settings, items: seq<BatchFileStatus>): seq<BatchFileStatus>
  {
    seq(|items|, k requires 0 <= k < |items| => Step(env, settings, items[k]))
  }

  /** The list after the first `n` iterations. */
  function Partial(env: Env, settings: Settings, items: seq<BatchFileStatus>, n: nat): seq<BatchFileStatus>
    requires n <= |items|
  {
    RunBatch(env, settings, items)[..n] + items[n..]
  }

  /** The list published while iteration `i` is running: slot `i` marked as processing. */
  function Marked(env: Env, settings: Settings, items: seq<BatchFileStatus>, i: nat): seq<BatchFileStatus>
    requires i < |items|
  {
    Partial(env, settings, items, i)[i := items[i].(status := Processing)]
  }

  /** The lists handed to `setItems` by the first `n` iterations: two per record not already done. */
  function Published(env: Env, settings: Settings, items: seq<BatchFileStatus>, n: nat): seq<seq<BatchFileStatus>>
    requires n <= |items|
  {
    if n == 0 then []
    else
      Published(env, settings, items, n - 1) +
        if items[n - 1].status == Done then []
        else [Marked(env, settings, items, n - 1), Partial(env, settings, items, n)]
  }

  /** The initial list: one pending record per file, in order. */
  function Initial(files: seq<FileRef>): seq<BatchFileStatus>
  {
    seq(|files|, k requires 0 <= k < |files| => BatchFileStatus(files[k], Pending, None, None, None))
  }

  /** `items.filter(i => i.status === 'done').length`. */
  function ProcessedCount(items: seq<BatchFileStatus>): (r: nat)
    ensures r <= |items|
  {
    if items == [] then 0
    else (if items[0].status == Done then 1 else 0) + ProcessedCount(items[1..])
  }

  /** The start button is shown. */
  predicate StartOffered(isProcessing: bool, items: seq<BatchFileStatus>)
  {
    !isProcessing && ProcessedCount(items) < |items|
  }

  predicate NoneProcessing(items: seq<BatchFileStatus>)
  {
    forall k :: 0 <= k < |items| ==> items[k].status != Processing
  }

  // ---------------------------------------------------------------- one file

  /** The body of the loop for one record, as the source runs it; the outcome is `Attempt`'s. */
  method ProcessFile(env: Env, settings: Settings, item: BatchFileStatus) returns (r: BatchFileStatus)
    requires SqrtInUnit(env.sqrt)
    ensures r == Attempt(env, settings, item)
  {
    var loaded := env.load(item.file);
    if loaded.None? {
      return Failed(item);
    }
    var image := loaded.value;
    var crop := CenterCropPixels(image.width, image.height, BatchAspect);
    var encode := CropEncoder(env.webp, image.src, crop, settings.addWatermark);
    var blob: Option<nat>;
    if settings.targetSize > 0 {
      var calls;
      blob, calls := OptimizeToSize(encode, env.sqrt, settings.targetSize as nat);
    } else {
      blob := encode(1.0, settings.quality as real / 100.0);
    }
    if blob.Some? {
      r := item.(status := Done, originalSrc := Some(image.src),
                 processedImage := Some(ProcessedImage(item.file.size, blob.value, crop.width, crop.height, item.file.name)));
    } else {
      r := Failed(item);
    }
  }

  /**
   * The body of the loop for a record not yet done: slot `i` is marked as processing
   * and published, then holds the outcome and is published again.
   */
  method ProcessSlot(env: Env, settings: Settings, a: array<BatchFileStatus>, i: nat)
      returns (marked: seq<BatchFileStatus>, processed: seq<BatchFileStatus>)
    modifies a
    requires i < a.Length && SqrtInUnit(env.sqrt)
    ensures marked == old(a[..])[i := old(a[i]).(status := Processing)]
    ensures processed == old(a[..])[i := Attempt(env, settings, old(a[i]).(status := Processing))]
    ensures a[..] == processed
  {
    ghost var before := a[..];
    var item := a[i].(status := Processing);
    a[i] := item;
    assert a[..] == before[i := item];
    marked := a[..];
    var outcome := ProcessFile(env, settings, item);
    a[i] := outcome;
    assert a[..] == before[i := outcome];
    processed := a[..];
  }

  // ---------------------------------------------------------------- the loop, step by step

  lemma PartialStart(env: Env, settings: Settings, items: seq<BatchFileStatus>)
    ensures Partial(env, settings, items, 0) == items
  {
  }

  lemma PartialEnd(env: Env, settings: Settings, items: seq<BatchFileStatus>)
    ensures Partial(env, settings, items, |items|) == RunBatch(env, settings, items)
  {
  }

  /** Iteration `i` changes slot `i` and nothing else. */
  lemma PartialStep(env: Env, settings: Settings, items: seq<BatchFileStatus>, i: nat)
    requires i < |items|
    ensures Partial(env, settings, items, i + 1) == Partial(env, settings, items, i)[i := Step(env, settings, items[i])]
    ensures Partial(env, settings, items, i)[i] == items[i]
  {
    var before := Partial(env, settings, items, i);
    var after := Partial(env, settings, items, i + 1);
    assert |after| == |before[i := Step(env, settings, items[i])]|;
    forall k | 0 <= k < |after|
      ensures after[k] == before[i := Step(env, settings, items[i])][k]
    {
      if k < i {
        assert after[k] == RunBatch(env, settings, items)[k] == before[k];
      } else if k > i {
        assert after[k] == items[k] == before[k];
      }
    }
  }

  /** Iteration `i` in the loop's terms: a done record is skipped; any other is marked, published, processed, published. */
  lemma Iteration(env: Env, settings: Settings, items: seq<BatchFileStatus>, i: nat)
    requires i < |items|
    ensures Partial(env, settings, items, i)[i] == items[i]
    ensures items[i].status == Done ==>
      && Partial(env, settings, items, i + 1) == Partial(env, settings, items, i)
      && Published(env, settings, items, i + 1) == Published(env, settings, items, i)
    ensures items[i].status != Done ==>
      var marked := items[i].(status := Processing);
      && Marked(env, settings, items, i) == Partial(env, settings, items, i)[i := marked]
      && Partial(env, settings, items, i + 1) == Partial(env, settings, items, i)[i := Attempt(env, settings, marked)]
      && Published(env, settings, items, i + 1) ==
           Published(env, settings, items, i) + [Marked(env, settings, items, i), Partial(env, settings, items, i + 1)]
  {
    PartialStep(env, settings, items, i);
    var before := Partial(env, settings, items, i);
    if items[i].status == Done {
      assert before[i := items[i]] == before;
    }
  }

  /**
   * The `for` loop of `processBatch` over a copy of the list (the `newItems` array): the
   * list it ends with, and the lists it hands to `setItems`, in order.
   */
  method RunLoop(env: Env, settings: Settings, start: seq<BatchFileStatus>)
      returns (processed: seq<BatchFileStatus>, published: seq<seq<BatchFileStatus>>)
    requires SqrtInUnit(env.sqrt)
    ensures processed == RunBatch(env, settings, start)
    ensures published == Published(env, settings, start, |start|)
  {
    var newItems := new BatchFileStatus[|start|](k requires 0 <= k < |start| => start[k]);
    published := [];
    PartialStart(env, settings, start);
    for i := 0 to newItems.Length
      invariant newItems[..] == Partial(env, settings, start, i)
      invariant published == Published(env, settings, start, i)
    {
      Iteration(env, settings, start, i);
      if newItems[i].status == Done {
        continue;
      }
      var marked, current := ProcessSlot(env, settings, newItems, i);
      published := published + [marked, current];
    }
    PartialEnd(env, settings, start);
    processed := newItems[..];
  }

  // ---------------------------------------------------------------- what one iteration promises

  /** One iteration settles its record: same file, done or error; a done record is skipped; an error keeps everything but its status and message. */
  lemma StepSettles(env: Env, settings: Settings, item: BatchFileStatus)
    ensures var r := Step(env, settings, item);
      && r.file == item.file
      && (r.status == Done || r.status == Error)
      && (item.status == Done ==> r == item)
      && (r.status == Error ==> r == item.(status := Error, error := Some(FailureMessage)))
  {
  }

  /** A record not yet done fails exactly when its file does not decode, or when no blob comes out of its crop. */
  lemma StepFails(env: Env, settings: Settings, item: BatchFileStatus)
    requires item.status != Done
    ensures Step(env, settings, item).status == Error <==>
      (env.load(item.file).None? ||
        (var im := env.load(item.file).value;
         Blob(env, settings, im.src, CenterCropPixels(im.width, im.height, BatchAspect)).None?))
  {
  }

  /**
   * A record that becomes done holds the blob's size, the file's size and name, the source
   * image and the 3:2 centre crop, which lies inside the image and spans its width or height.
   * Its `error` is the one it had before, so a retried error keeps its old message.
   */
  lemma DoneRecord(env: Env, settings: Settings, item: BatchFileStatus)
    requires item.status != Done && Step(env, settings, item).status == Done
    ensures env.load(item.file).Some?
    ensures Step(env, settings, item).processedImage.Some?
    ensures var im := env.load(item.file).value;
      var r := Step(env, settings, item);
      var p := r.processedImage.value;
      && r.file == item.file && r.error == item.error && r.originalSrc == Some(im.src)
      && p.originalSize == item.file.size && p.originalName == item.file.name
      && Blob(env, settings, im.src, CenterCropPixels(im.width, im.height, BatchAspect)) == Some(p.newSize)
      && p.width == p.height * BatchAspect
      && 0.0 < p.width <= im.width && 0.0 < p.height <= im.height
      && (p.width == im.width || p.height == im.height)
  {
    var im := env.load(item.file).value;
    CenterCropInside(im.width, im.height, BatchAspect);
  }

  /**
   * With a byte budget the stored size is the blob of the search on the crop, one of the sizes
   * it saw; a size above the budget is the last call's, made at the lowest quality.
   */
  lemma BudgetRecord(env: Env, settings: Settings, item: BatchFileStatus)
    requires item.status != Done && settings.targetSize > 0
    requires Step(env, settings, item).status == Done
    ensures env.load(item.file).Some? && Step(env, settings, item).processedImage.Some?
    ensures var im := env.load(item.file).value;
      var crop := CenterCropPixels(im.width, im.height, BatchAspect);
      var search := Optimization(CropEncoder(env.webp, im.src, crop, settings.addWatermark), env.sqrt, settings.targetSize as nat);
      var size := Step(env, settings, item).processedImage.value.newSize;
      && search.blob == Some(size)
      && (exists k :: 0 <= k < |search.probes| && search.probes[k].size == Some(size))
      && (size > settings.targetSize ==> Last(search.probes).quality == QualityLow && Last(search.probes).size == Some(size))
  {
    DoneRecord(env, settings, item);
    var im := env.load(item.file).value;
    var crop := CenterCropPixels(im.width, im.height, BatchAspect);
    OptimizationBlob(CropEncoder(env.webp, im.src, crop, settings.addWatermark), env.sqrt, settings.targetSize as nat);
  }

  /** Without a budget the stored size is one encode of the unscaled crop at `quality / 100`. */
  lemma ManualRecord(env: Env, settings: Settings, item: BatchFileStatus)
    requires item.status != Done && settings.targetSize <= 0
    requires Step(env, settings, item).status == Done
    ensures env.load(item.file).Some? && Step(env, settings, item).processedImage.Some?
    ensures var im := env.load(item.file).value;
      var crop := CenterCropPixels(im.width, im.height, BatchAspect);
      var canvas := FinalCanvas(crop, 1.0, settings.addWatermark);
      && !canvas.resampled
      && (canvas.watermark.Some? <==> settings.addWatermark)
      && env.webp(im.src, crop, canvas, settings.quality as real / 100.0)
           == Some(Step(env, settings, item).processedImage.value.newSize)
  {
    DoneRecord(env, settings, item);
  }

  // ---------------------------------------------------------------- what a run promises

  /** After a run every record is settled, for the same file in the same slot, and done records are untouched. */
  lemma RunBatchSettles(env: Env, settings: Settings, items: seq<BatchFileStatus>)
    ensures var out := RunBatch(env, settings, items);
      && |out| == |items|
      && (forall k :: 0 <= k < |items| ==> out[k].file == items[k].file)
      && (forall k :: 0 <= k < |items| ==> out[k].status == Done || out[k].status == Error)
      && (forall k :: 0 <= k < |items| && items[k].status == Done ==> out[k] == items[k])
      && NoneProcessing(out)
  {
    var out := RunBatch(env, settings, items);
    forall k | 0 <= k < |items|
      ensures out[k].file == items[k].file && (out[k].status == Done || out[k].status == Error)
      ensures items[k].status == Done ==> out[k] == items[k]
    {
      StepSettles(env, settings, items[k]);
    }
  }

  /** Records are processed independently: changing one record changes the outcome in its slot alone. */
  lemma Isolation(env: Env, settings: Settings, items: seq<BatchFileStatus>, j: nat, x: BatchFileStatus)
    requires j < |items|
    ensures RunBatch(env, settings, items[j := x]) == RunBatch(env, settings, items)[j := Step(env, settings, x)]
  {
    var a := RunBatch(env, settings, items[j := x]);
    var b := RunBatch(env, settings, items)[j := Step(env, settings, x)];
    assert |a| == |b|;
    forall k | 0 <= k < |a|
      ensures a[k] == b[k]
    {
      if k != j {
        assert items[j := x][k] == items[k];
      }
    }
  }

  /**
   * Resuming on records that are done, in error and pending: the done one is kept, the other
   * two are both processed, the error one included, and four lists are published.
   */
  lemma ResumeRetriesErrors(env: Env, settings: Settings, items: seq<BatchFileStatus>)
    requires |items| == 3
    requires items[0].status == Done && items[1].status == Error && items[2].status == Pending
    ensures var out := RunBatch(env, settings, items);
      && out[0] == items[0]
      && out[1] == Attempt(env, settings, items[1].(status := Processing))
      && out[2] == Attempt(env, settings, items[2].(status := Processing))
      && |Published(env, settings, items, 3)| == 4
  {
    PublishedCount(env, settings, items, 3);
    assert items[..3] == items;
    assert items[1..][1..] == [items[2]];
  }

  /** A second run keeps what the first finished and retries what it left as an error. */
  lemma Rerun(env: Env, settings: Settings, items: seq<BatchFileStatus>)
    ensures var once := RunBatch(env, settings, items);
      var twice := RunBatch(env, settings, once);
      && |twice| == |items|
      && (forall k :: 0 <= k < |items| && once[k].status == Done ==> twice[k] == once[k])
      && (forall k :: 0 <= k < |items| && once[k].status == Error ==>
            twice[k] == Attempt(env, settings, once[k].(status := Processing)))
  {
  }

  /** While iteration `i` runs, slot `i` is the only record processing; earlier ones are settled, later ones untouched. */
  lemma MarkedShape(env: Env, settings: Settings, items: seq<BatchFileStatus>, i: nat)
    requires i < |items| && NoneProcessing(items) && items[i].status != Done
    ensures var m := Marked(env, settings, items, i);
      && |m| == |items|
      && m[i] == items[i].(status := Processing)
      && (forall k :: 0 <= k < |m| && k != i ==> m[k].status != Processing)
      && (forall k :: 0 <= k < i ==> m[k] == Step(env, settings, items[k]))
      && (forall k :: i < k < |m| ==> m[k] == items[k])
  {
    var m := Marked(env, settings, items, i);
    forall k | 0 <= k < |m| && k != i
      ensures m[k].status != Processing
    {
      if k < i {
        StepSettles(env, settings, items[k]);
      }
    }
  }

  // ---------------------------------------------------------------- the lists handed to setItems

  /** `ProcessedCount` of a list grown at the end. */
  lemma {:induction false} CountSnoc(items: seq<BatchFileStatus>, x: BatchFileStatus)
    ensures ProcessedCount(items + [x]) == ProcessedCount(items) + (if x.status == Done then 1 else 0)
  {
    if items != [] {
      assert (items + [x])[1..] == items[1..] + [x];
      CountSnoc(items[1..], x);
    }
  }

  /** Two lists are published per record that was not done before the run. */
  lemma {:induction false} PublishedCount(env: Env, settings: Settings, items: seq<BatchFileStatus>, n: nat)
    requires n <= |items|
    ensures |Published(env, settings, items, n)| == 2 * (n - ProcessedCount(items[..n]))
  {
    if n > 0 {
      PublishedCount(env, settings, items, n - 1);
      assert items[..n] == items[..n - 1] + [items[n - 1]];
      CountSnoc(items[..n - 1], items[n - 1]);
    }
  }

  /** Every published list is a full list, and the last one is the current list. */
  lemma {:induction false} PublishedLists(env: Env, settings: Settings, items: seq<BatchFileStatus>, n: nat)
    requires n <= |items|
    ensures var ps := Published(env, settings, items, n);
      && (forall j :: 0 <= j < |ps| ==> |ps[j]| == |items|)
      && (ps != [] ==> ps[|ps| - 1] == Partial(env, settings, items, n))
  {
    if n > 0 {
      PublishedLists(env, settings, items, n - 1);
      Iteration(env, settings, items, n - 1);
    }
  }

  // ---------------------------------------------------------------- the processed count and the start button

  /** `processedCount` reaches the length of the list exactly when every record is done. */
  lemma {:induction false} CountAll(items: seq<BatchFileStatus>)
    ensures ProcessedCount(items) == |items| <==> forall k :: 0 <= k < |items| ==> items[k].status == Done
  {
    if items != [] {
      CountAll(items[1..]);
      if forall k :: 0 <= k < |items| ==> items[k].status == Done {
        assert forall k :: 0 <= k < |items[1..]| ==> items[1..][k].status == Done by {
          forall k | 0 <= k < |items[1..]| ensures items[1..][k].status == Done {
            assert items[1..][k] == items[k + 1];
          }
        }
      } else if items[0].status == Done {
        var k :| 0 <= k < |items| && items[k].status != Done;
        assert items[1..][k - 1] == items[k];
      }
    }
  }

  /** A list in which nothing is done counts zero. */
  lemma {:induction false} CountNone(items: seq<BatchFileStatus>)
    requires forall k :: 0 <= k < |items| ==> items[k].status != Done
    ensures ProcessedCount(items) == 0
  {
    if items != [] {
      assert forall k :: 0 <= k < |items[1..]| ==> items[1..][k] == items[k + 1];
      CountNone(items[1..]);
    }
  }

  /** A slot that is done stays done, so the count cannot drop. */
  lemma {:induction false} CountGrows(a: seq<BatchFileStatus>, b: seq<BatchFileStatus>)
    requires |a| == |b|
    requires forall k :: 0 <= k < |a| && a[k].status == Done ==> b[k].status == Done
    ensures ProcessedCount(a) <= ProcessedCount(b)
  {
    if a != [] {
      assert forall k :: 0 <= k < |a[1..]| ==> a[1..][k] == a[k + 1] && b[1..][k] == b[k + 1];
      CountGrows(a[1..], b[1..]);
    }
  }

  /** The start button is offered exactly when the screen is idle and some record is not done. */
  lemma StartOfferedIff(isProcessing: bool, items: seq<BatchFileStatus>)
    ensures StartOffered(isProcessing, items) <==>
      !isProcessing && exists k :: 0 <= k < |items| && items[k].status != Done
  {
    CountAll(items);
  }

  /** A run never lowers `processedCount`. */
  lemma RunBatchCount(env: Env, settings: Settings, items: seq<BatchFileStatus>)
    ensures ProcessedCount(items) <= ProcessedCount(RunBatch(env, settings, items))
  {
    RunBatchSettles(env, settings, items);
    CountGrows(items, RunBatch(env, settings, items));
  }

  /** The first `n` iterations over records that are all done publish nothing. */
  lemma {:induction false} PublishedNone(env: Env, settings: Settings, items: seq<BatchFileStatus>, n: nat)
    requires n <= |items|
    requires forall k :: 0 <= k < n ==> items[k].status == Done
    ensures Published(env, settings, items, n) == []
  {
    if n > 0 {
      PublishedNone(env, settings, items, n - 1);
    }
  }

  /** On a list that is all done a run changes nothing, publishes nothing, and no start button is offered. */
  lemma AllDoneFixpoint(env: Env, settings: Settings, items: seq<BatchFileStatus>, isProcessing: bool)
    requires forall k :: 0 <= k < |items| ==> items[k].status == Done
    ensures RunBatch(env, settings, items) == items
    ensures Published(env, settings, items, |items|) == []
    ensures !StartOffered(isProcessing, items)
  {
    RunBatchSettles(env, settings, items);
    PublishedNone(env, settings, items, |items|);
    StartOfferedIff(isProcessing, items);
  }

  /** The list built when the files arrive: one pending record per file, in order, none counted, the button offered iff there are files. */
  lemma InitialShape(files: seq<FileRef>)
    ensures var items := Initial(files);
      && |items| == |files|
      && (forall k :: 0 <= k < |files| ==> items[k].file == files[k] && items[k].status == Pending)
      && (forall k :: 0 <= k < |files| ==> items[k].processedImage.None? && items[k].error.None?)
      && NoneProcessing(items)
      && ProcessedCount(items) == 0
      && (StartOffered(false, items) <==> files != [])
  {
    CountNone(Initial(files));
  }

  // ---------------------------------------------------------------- the download link of a row

  /** `name.split('.')[0]`: the name up to its first dot. */
  function FirstSegment(name: string): (r: string)
    ensures |r| <= |name| && r == name[..|r|]
    ensures '.' !in r
    ensures |r| < |name| ==> name[|r|] == '.'
  {
    if name == [] || name[0] == '.' then []
    else [name[0]] + FirstSegment(name[1..])
  }

  /** The `download` attribute of a finished row. */
  function BatchDownloadName(file: FileRef): string
  {
    "optimized_" + FirstSegment(file.name) + ".webp"
  }

  /** The row's name keeps only what precedes the first dot, whatever follows it. */
  lemma FirstSegmentOf(stem: string, rest: string)
    requires '.' !in stem
    ensures FirstSegment(stem + "." + rest) == stem
    ensures FirstSegment(stem) == stem
  {
    var name := stem + "." + rest;
    assert name[|stem|] == '.';
    assert name[..|stem|] == stem;
  }

  /** A file `stem.rest` with a dot-free stem downloads as `optimized_stem.webp`. */
  lemma BatchDownloadNameOf(file: FileRef, stem: string, rest: string)
    requires '.' !in stem && file.name == stem + "." + rest
    ensures BatchDownloadName(file) == "optimized_" + stem + ".webp"
  {
    FirstSegmentOf(stem, rest);
  }

  // ---------------------------------------------------------------- the screen

  class BatchRunner {
    var items: seq<BatchFileStatus>
    var settings: Settings
    var isProcessing: bool
    /** Every list handed to `setItems` by `processBatch`, oldest first. */
    var history: seq<seq<BatchFileStatus>>

    /** Between runs nothing is processing. */
    predicate Valid()
      reads this
    {
      !isProcessing && NoneProcessing(items)
    }

    /** The component's state after mounting with `files`: the initial list and the default controls. */
    constructor (files: seq<FileRef>)
      ensures items == Initial(files) && settings == DefaultSettings
      ensures !isProcessing && history == []
      ensures Valid()
    {
      items := Initial(files);
      settings := DefaultSettings;
      isProcessing := false;
      history := [];
    }

    /** The controls, which are disabled while a run is in progress. */
    method Configure(s: Settings)
      modifies this
      requires !isProcessing
      ensures settings == s && items == old(items) && isProcessing == old(isProcessing) && history == old(history)
    {
      settings := s;
    }

    /**
     * `processBatch`: the list becomes `RunBatch` of the old one, the lists published on the
     * way are `Published`, and the screen is idle again.
     */
    method ProcessBatch(env: Env)
      modifies this
      requires Valid() && SqrtInUnit(env.sqrt)
      ensures items == RunBatch(env, settings, old(items))
      ensures history == old(history) + Published(env, settings, old(items), |old(items)|)
      ensures settings == old(settings) && Valid()
    {
      isProcessing := true;
      var processed, published := RunLoop(env, settings, items);
      items := processed;
      history := history + published;
      RunBatchSettles(env, settings, old(items));
      isProcessing := false;
    }
  }
}
