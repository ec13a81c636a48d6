# Crop-and-compress core, modelled in Dafny

This project models the image pipeline of a browser tool that crops photos to 3:2, re-encodes them as WebP (optionally watermarked) and, in budget mode, searches for an encoding under a byte budget. It covers one image at a time and whole batches. The model keeps the control flow and the arithmetic of the core; the encoder, `Math.sqrt` and the reading and decoding of files are abstract functions, cosine and sine are inputs, and doubles are exact reals. What the model abstracts or leaves out is listed under "## Left out". Dafny proves properties of the model.

- `wrappers.dfy` (module `Wrappers`): `Option`.
- `image_utils.dfy` (module `ImageUtils`), from `services/imageUtils.ts`:
  - `getCenterCropPixels`;
  - `getRadianAngle` and `rotateSize`;
  - the arithmetic of `getCroppedImg`: the output canvas sides `max(1, floor(side * scale))`, whether the crop is resampled, and the watermark text, font size and anchor.
- `size_search.dfy` (module `SizeSearch`), from `optimizeToSize` and `binarySearchQuality`.
  - The encoder is a function `(scale, quality) -> Option<nat>`, the size of the blob or `None` for a null blob.
  - Each loop is a method that returns the blob together with the log of every encoder call (`Probe`).
  - Each method is proved equal to a reference function (`Optimization`, `QualitySearch`).
  - Lemmas about those functions state what the search promises:
    - phase 1 makes at most 8 probes at quality 0.5, stopping at the first that fits or fails, with the scale shrinking by `sqrt(budget/size) * 0.92` and floored at 0.1;
    - phase 2 makes at most 5 bisection steps over [0.1, 1.0], stopping at a failed call, and falls back to quality 0.1 only when no bisection call fit;
    - which blob comes back, and how many calls are made.
- `batch_processor.dfy` (module `BatchProcessor`), from `components/BatchProcessor.tsx`:
  - the per-file records and the initial list;
  - `processBatch`: a class `BatchRunner` with the screen's state, whose loop runs over an `array` copy of the list;
  - the processed count and the start-button condition;
  - the download name of a finished row.
- `result_view.dfy` (module `ResultView`), from `components/ResultView.tsx`:
  - the default download stem, with JavaScript's `lastIndexOf` and `substring` rules written out;
  - the `download` attribute;
  - the size-reduction percentage and its badge.

Numbers are Dafny `real` (exact) where the source uses doubles, and `nat` for blob and file sizes.

The batch runner depends on three outside functions, bundled in `Env`:
- `load` stands for `readFile` followed by `createImage`: the decoded picture, or `None` when `createImage` rejects (the file does not decode);
- `webp` encodes a prepared canvas at a quality;
- `sqrt` stands for `Math.sqrt`.

Each is deterministic, so the outcome for a record depends on that record alone (`Isolation`). Every list that `processBatch` hands to `setItems` is recorded in `BatchRunner.history`; the initial list set when the files arrive is the constructor's `items`, not part of the history.

Where the tool's stated design and the code differ, the model follows the code:
- **Worst-case encoder calls.** The design target for budget mode is at most 13 encoder calls. The code makes up to 8 + 5 + 1 = 14, and `BudgetIsSoft` proves that an encoder whose blobs are always too large forces all 14.
- **Resuming a batch.** By design, re-running a queue `[done, error, pending]` would process only the pending item. The code skips only `done` records, so the error record is retried too (`Rerun`, `ResumeRetriesErrors`).
- **A retried error that succeeds.** It keeps its old `error` message, because the record is rebuilt by object spread (`DoneRecord`).
- **Where an over-budget result comes from.** By design an artifact over the budget is returned only at the floor settings, scale 0.1 and quality 0.1. In the code it is the quality-0.1 fallback (services/imageUtils.ts line 171) made at whatever scale phase 1 settled on, and after 8 over-budget probes (lines 130-145) that scale can be far above 0.1. `OptimizationBlob` states that the over-budget blob comes from the call at the settled scale, and `OverBudgetAboveFloor` exhibits a case: blobs one byte over budget above scale 0.2 and on budget at or below it, with the square root of the size ratio at least 0.995, give an over-budget blob made at a scale above 0.2.
- **Search failures.** By design the size search always returns an artifact. The code returns `null` when a phase-1 call fails (services/imageUtils.ts line 133), or when no bisection call fit and the fallback call at quality 0.1 fails (line 171); a failed bisection call only ends the bisection (line 163). The model keeps this (`OptimizationBlob`, `ScalePhaseExit`, `QualitySearchResult`).

## Model

| member | source | states |
|---|---|---|
| ImageUtils.RadianAngle | services/imageUtils.ts:20-22 | the angle is 0 exactly for 0 degrees, and 180 degrees is pi |
| ImageUtils.RotateSize | services/imageUtils.ts:24-30 | the bounding box sides are never negative |
| ImageUtils.RotateSizeSymmetry | services/imageUtils.ts:24-30 | swapping the image's sides swaps the box; a further half turn keeps the box; a further quarter turn swaps its sides |
| ImageUtils.RotateSizeQuarterTurn | services/imageUtils.ts:20-30 | 90 degrees is half of pi, and at a quarter turn the box is the image on its side |
| ImageUtils.RotateSizeAtZero | services/imageUtils.ts:24-30 | at rotation 0 the bounding box is the image itself |
| ImageUtils.CenterCropPixels | services/imageUtils.ts:32-49 | the crop has the requested aspect, is centred in both directions and spans the full width or the full height |
| ImageUtils.CenterCropOrientation | services/imageUtils.ts:32-49 | a medium wider than the aspect gets a full-height crop that is narrower than the medium; otherwise the crop is full-width and no taller than the medium |
| ImageUtils.CenterCropInside | services/imageUtils.ts:32-49 | for positive sizes the crop is non-empty and lies inside the medium |
| ImageUtils.CenterCropIsLargest | services/imageUtils.ts:32-49 | every rectangle of the aspect that fits in the medium is no wider and no taller than the crop |
| ImageUtils.CenterCropExamples | services/imageUtils.ts:32-49 | a 3000x2000 medium is kept whole; 4000x2000 gives the 3000x2000 crop at x = 500 |
| ImageUtils.TargetDimension | services/imageUtils.ts:78-79 | an output side is at least 1; it is the floor of side * scale when that is at least 1, and 1 otherwise |
| ImageUtils.TargetDimensionMonotone | services/imageUtils.ts:78-79 | a smaller scale never gives a larger output side |
| ImageUtils.TargetDimensionUnitScale | services/imageUtils.ts:78-79 | at scale 1.0 a whole-pixel side of at least one pixel is kept |
| ImageUtils.FontSize | services/imageUtils.ts:105 | the watermark font is never below 12 px |
| ImageUtils.FontSizeRegions | services/imageUtils.ts:105 | the font is exactly 12 px for heights up to 371 and above 12 px from 372 on |
| ImageUtils.FinalCanvas | services/imageUtils.ts:78-112 | the final canvas has sides of at least 1; it is resampled exactly when scale is not 1.0; it carries a watermark exactly when requested, at least 12 px and anchored 20 px above the bottom |
| ImageUtils.UnitScaleCopiesCrop | services/imageUtils.ts:78-89 | at scale 1.0 a whole-pixel crop is copied unresampled into a canvas of its own size |
| SizeSearch.NextScale | services/imageUtils.ts:139-141 | the scale after an over-budget probe; its bounds are stated by NextScaleBounds |
| SizeSearch.ScalePhase | services/imageUtils.ts:126-145 | phase 1 from a given attempt on; its calls, steps and exits are stated by ScalePhaseShape, ScalePhaseSteps and ScalePhaseExit |
| SizeSearch.Optimization | services/imageUtils.ts:119-146 | optimizeToSize as a function; its calls and blob are stated by OptimizationCalls, OptimizationBlob, BudgetIsSoft and OverBudgetAboveFloor |
| SizeSearch.Fallback | services/imageUtils.ts:171 | the call at quality 0.1; when it is made is stated by QualitySearchResult |
| SizeSearch.Finish | services/imageUtils.ts:171 | `bestBlob` or the fallback; stated through QualityPhaseResult |
| SizeSearch.QualityPhase | services/imageUtils.ts:160-171 | phase 2 from iteration i on; stated by QualityPhaseShape, QualityPhaseResult and QualityPhaseHalving |
| SizeSearch.QualitySearch | services/imageUtils.ts:148-172 | binarySearchQuality as a function; stated by QualitySearchCalls and QualitySearchResult |
| SizeSearch.NextScaleBounds | services/imageUtils.ts:139-141 | when sqrt keeps [0,1) in [0,1), an over-budget probe never raises the scale, which stays within [0.1, 1.0] |
| SizeSearch.ScalePhaseShape | services/imageUtils.ts:126-143 | phase 1 makes at most one call per remaining attempt, all at quality 0.5, at non-increasing scales in [0.1, start], starting at the start scale; the settled scale is at or below every probe's |
| SizeSearch.ScalePhaseSteps | services/imageUtils.ts:130-142 | every phase-1 call except the last came back over budget, and the next call is at the damped, floored scale derived from it |
| SizeSearch.ScalePhaseExit | services/imageUtils.ts:130-145 | a failed call ends the search with no blob; an in-budget call hands its own scale on; after 8 over-budget calls the derived scale is handed on |
| SizeSearch.BracketStep | services/imageUtils.ts:156-169 | bisection keeps 0.1 <= low < high <= 1.0 with width 0.9/2^i, and mid lies strictly inside |
| SizeSearch.QualityIteration | services/imageUtils.ts:160-170 | one loop iteration: the calls so far followed by the search from the new bracket are the whole quality search |
| SizeSearch.QualityPhaseShape | services/imageUtils.ts:156-171 | every quality call is at the settled scale and strictly inside the bracket, except a fallback at 0.1, made only when there is no best blob |
| SizeSearch.QualityPhaseResult | services/imageUtils.ts:156-171 | the blob handed back is the in-budget blob of the highest quality tried, else the earlier best, else the 0.1 fallback; the fallback is called exactly when no bisection call fit |
| SizeSearch.QualityPhaseHalving | services/imageUtils.ts:160-169 | each bisection call after one that came back is a quarter of the bracket away, up after a fit and down otherwise |
| SizeSearch.QualitySearchCalls | services/imageUtils.ts:148-172 | binarySearchQuality calls the encoder 1 to 6 times, all at the given scale, at qualities in [0.1, 1.0), first at 0.55, halving the step each time |
| SizeSearch.QualitySearchResult | services/imageUtils.ts:148-172 | the result is the best-fitting blob if any call fit, otherwise the fallback blob at quality 0.1, which is made exactly when no call above 0.1 fit |
| SizeSearch.OptimizationCalls | services/imageUtils.ts:119-146 | optimizeToSize makes 1 to 14 encoder calls, first at scale 1.0 and quality 0.5, each recorded as the encoder answered, at scales in [0.1, 1.0] that never grow |
| SizeSearch.OptimizationBlob | services/imageUtils.ts:119-146 | the blob is one the encoder returned; it is missing only when the last call failed; it is over budget only when it is the last call, made at quality 0.1 and at the scale phase 1 settled on |
| SizeSearch.OverBudgetAboveFloor | services/imageUtils.ts:119-172 | with blobs one byte over budget above scale 0.2 and on budget at or below it, and sqrt of the ratio at least 0.995, all 14 calls are made and the over-budget fallback comes back from a scale above 0.2 |
| SizeSearch.BudgetIsSoft | services/imageUtils.ts:119-172 | when every blob is one byte too large, all 14 calls are made and an over-budget blob comes back |
| SizeSearch.BinarySearchQuality | services/imageUtils.ts:148-172 | the `for` loop with `break` returns exactly the blob and the calls of the reference search |
| SizeSearch.OptimizeToSize | services/imageUtils.ts:119-146 | the `while` loop returns exactly the blob and the calls of the reference optimisation |
| BatchProcessor.Initial | components/BatchProcessor.tsx:28 | the initial list; stated by InitialShape |
| BatchProcessor.CropEncoder | services/imageUtils.ts:51-117 | getCroppedImg at rotation 0 as an encoder of (scale, quality): the FinalCanvas canvas handed to an abstract webp encoder, with None when encoding fails; its properties are stated through FinalCanvas, BudgetRecord and ManualRecord |
| BatchProcessor.Blob | components/BatchProcessor.tsx:50-55 | the budget search or one encode; stated by BudgetRecord and ManualRecord |
| BatchProcessor.Failed | components/BatchProcessor.tsx:77-80 | the catch branch; stated by StepSettles and StepFails |
| BatchProcessor.Attempt | components/BatchProcessor.tsx:44-80 | the try/catch on one record; stated by StepFails, DoneRecord, BudgetRecord and ManualRecord |
| BatchProcessor.Step | components/BatchProcessor.tsx:38-80 | one iteration on the record in its slot; stated by StepSettles and StepFails |
| BatchProcessor.RunBatch | components/BatchProcessor.tsx:37-83 | the list after the loop; stated by RunBatchSettles, Isolation, Rerun and RunBatchCount |
| BatchProcessor.Partial | components/BatchProcessor.tsx:37-83 | the list after the first n iterations; stated by PartialStep |
| BatchProcessor.Marked | components/BatchProcessor.tsx:41-42 | the list published at line 42; stated by MarkedShape |
| BatchProcessor.Published | components/BatchProcessor.tsx:42-82 | the lists handed to setItems; stated by PublishedCount and PublishedLists |
| BatchProcessor.InitialShape | components/BatchProcessor.tsx:28 | the initial list has one pending record per file, in order, with no image or error, none processing, none counted; the start button is offered iff there are files |
| BatchProcessor.ProcessFile | components/BatchProcessor.tsx:44-80 | one file's try/catch: read, 3:2 crop, budget search or one encode at quality/100, then a done or error record; its result is that of the reference outcome |
| BatchProcessor.ProcessSlot | components/BatchProcessor.tsx:41-82 | in the array copy, the slot is marked processing and published, then holds the outcome and is published again; nothing else changes |
| BatchProcessor.RunLoop | components/BatchProcessor.tsx:35-83 | the loop over the array copy ends with the reference run and publishes exactly the reference list of intermediate lists |
| BatchProcessor.PartialStep | components/BatchProcessor.tsx:37-83 | iteration i changes slot i and nothing else |
| BatchProcessor.Iteration | components/BatchProcessor.tsx:37-83 | a done record is skipped with nothing published; any other record is marked, published, processed and published |
| BatchProcessor.StepSettles | components/BatchProcessor.tsx:38-80 | one iteration leaves the same file, done or error; a done record is untouched; an error record keeps everything but its status and message |
| BatchProcessor.StepFails | components/BatchProcessor.tsx:44-80 | a record not done fails exactly when its file does not decode, or when no blob comes out |
| BatchProcessor.DoneRecord | components/BatchProcessor.tsx:57-72 | a done record stores the blob size, the file's size and name, the source, and the 3:2 crop, which lies inside the image and spans its width or height; its old error is kept |
| BatchProcessor.BudgetRecord | components/BatchProcessor.tsx:51-52 | with a budget the stored size is the search's blob, one the encoder returned; above the budget it comes from the last call, at quality 0.1 |
| BatchProcessor.ManualRecord | components/BatchProcessor.tsx:53-54 | without a budget the stored size is one encode of the unresampled crop at quality/100, watermarked as set |
| BatchProcessor.RunBatchSettles | components/BatchProcessor.tsx:37-83 | after a run the list has the same length and files, every record is done or error, done records are untouched, and none is processing |
| BatchProcessor.Isolation | components/BatchProcessor.tsx:37-83 | changing one record changes the outcome in its slot only |
| BatchProcessor.ResumeRetriesErrors | components/BatchProcessor.tsx:37-38 | on [done, error, pending] the done record is kept, both others are processed, and four lists are published |
| BatchProcessor.Rerun | components/BatchProcessor.tsx:37-38 | a second run keeps what the first finished and retries what it left as error |
| BatchProcessor.MarkedShape | components/BatchProcessor.tsx:41-42 | while record i runs, it is the only record processing; earlier records are settled and later ones untouched |
| BatchProcessor.PublishedCount | components/BatchProcessor.tsx:37-83 | two lists are published per record that was not done before the run |
| BatchProcessor.PublishedLists | components/BatchProcessor.tsx:37-83 | every published list is a full list, and the last one equals the current list |
| BatchProcessor.ProcessedCount | components/BatchProcessor.tsx:88 | the count of done records is at most the list length |
| BatchProcessor.CountAll | components/BatchProcessor.tsx:88 | the count equals the length exactly when every record is done |
| BatchProcessor.CountGrows | components/BatchProcessor.tsx:88 | if every done slot stays done, the count cannot drop |
| BatchProcessor.RunBatchCount | components/BatchProcessor.tsx:88 | a run never lowers the processed count |
| BatchProcessor.StartOffered | components/BatchProcessor.tsx:110 | the start-button condition; stated by StartOfferedIff and AllDoneFixpoint |
| BatchProcessor.StartOfferedIff | components/BatchProcessor.tsx:110 | the start button shows exactly when the screen is idle and some record is not done |
| BatchProcessor.AllDoneFixpoint | components/BatchProcessor.tsx:110 | on an all-done list a run changes nothing and publishes nothing, and no start button is offered |
| BatchProcessor.FirstSegment | components/BatchProcessor.tsx:220 | `split('.')[0]` is the longest dot-free prefix of the name |
| BatchProcessor.FirstSegmentOf | components/BatchProcessor.tsx:220 | the first segment of `stem.rest`, or of a dot-free stem alone, is the stem |
| BatchProcessor.BatchDownloadName | components/BatchProcessor.tsx:220 | the row's download attribute; stated by BatchDownloadNameOf |
| BatchProcessor.BatchDownloadNameOf | components/BatchProcessor.tsx:220 | a row for `stem.rest` downloads as `optimized_stem.webp` |
| BatchProcessor.BatchRunner.constructor | components/BatchProcessor.tsx:20-29 | after mounting: the initial list, targetSize 0, quality 85, watermark on, idle, nothing published |
| BatchProcessor.BatchRunner.Configure | components/BatchProcessor.tsx:131-175 | while idle the controls change the settings and nothing else |
| BatchProcessor.BatchRunner.ProcessBatch | components/BatchProcessor.tsx:31-86 | the list becomes the reference run of the old one, the published lists are appended to the history, and the screen is idle again with nothing processing |
| ResultView.LastIndexOf | components/ResultView.tsx:15 | the result is the last position holding the character, or -1 exactly when it is absent |
| ResultView.Substring | components/ResultView.tsx:15 | `substring` never gives more than the whole string; its rules are stated by SubstringRules |
| ResultView.SubstringRules | components/ResultView.tsx:15 | substring is the slice within bounds; a start and an end that are both at most 0 give the empty string; the bounds may come in either order |
| ResultView.DefaultStem | components/ResultView.tsx:13-16 | the initial text of the file-name box; stated by DefaultStemCases, DefaultStemIsPrefix and StemOfExtended |
| ResultView.DefaultStemCases | components/ResultView.tsx:13-16 | the stem is never empty; an empty name gives "image"; a last dot past the first character cuts there; otherwise the name is kept whole |
| ResultView.DefaultStemIsPrefix | components/ResultView.tsx:13-16 | the stem is a prefix of the name, and anything it drops starts at the last dot |
| ResultView.StemOfExtended | components/ResultView.tsx:13-16 | the stem of `stem.ext` is `stem` when ext holds no dot |
| ResultView.DownloadName | components/ResultView.tsx:100 | reopening a file downloaded under a non-empty name offers that name again as its stem; an emptied box downloads as `.webp`, which reopens as itself |
| ResultView.SizeReduction | components/ResultView.tsx:18 | the percentage is undefined (NaN or minus infinity in the source) exactly for an empty original |
| ResultView.SizeReductionBounds | components/ResultView.tsx:18 | the reduction is at most 100%, reaches 100% exactly for an empty result, and is 0 exactly for an unchanged size |
| ResultView.IsReduction | components/ResultView.tsx:19 | the badge condition; stated by IsReductionIff |
| ResultView.IsReductionIff | components/ResultView.tsx:19 | the reduction badge shows exactly when the new file is smaller |

## Left out

- Pixel work is not modelled. That covers drawing, rotating, `getImageData`/`putImageData`, smoothing, shadows and colours. The model keeps only the sizes and decisions that reach the encoder (`Canvas`).
- Trigonometry is not modelled. `RotateSize` takes the cosine and sine as inputs, and only rotation 0 is used by the core.
- `Math.sqrt` is a parameter. The search relies only on it keeping [0, 1) inside [0, 1) (`SqrtInUnit`).
- The WebP encoder is not modelled. `toBlob` is an arbitrary function from its inputs to a size or `None`. A missing 2D context and a null blob fold into that `None`.
- A rejected image load inside `getCroppedImg` is not modelled. In the source it would throw, and in phase 2 (services/imageUtils.ts line 162) that aborts the record where a `None` only ends the bisection. The model leaves it out because `getCroppedImg` reloads the same `src` that already decoded at components/BatchProcessor.tsx line 47.
- A read error of `readFile` is not modelled. `readFile` (services/imageUtils.ts lines 3-9) listens only for `load`, so on a read error its promise never settles. `processBatch` then waits forever at components/BatchProcessor.tsx line 46, with the slot left `processing` and `isProcessing` left true. The model has no such hanging state; `load` returning `None` stands only for `createImage` rejecting.
- `readFile` and `createImage` are the `load` function. A decoded picture has positive width and height; a zero-sized decode is not modelled, since the crop would divide by zero.
- Doubles are modelled as exact reals. Rounding of `scale * ratio * 0.92`, of the bisection midpoints and of the percentage is not captured.
- `async`/`await` and React's batching of `setItems` are not modelled. Each published list is recorded in order, and `processBatch` runs to completion as one method.
- The `items` read by `processBatch` is the list at the time of the call. Later re-renders are not modelled.
- BatchProcessor.BatchRunner.Configure accepts any settings. The screen offers only the budgets 0, 150, 100, 60 and 30 KiB and qualities 10 to 100 in steps of 5.
- `formatBytes` is not part of this model. It is display text computed with `Math.log`.
- The object URLs (`URL.createObjectURL`), the blob bytes and the `url` field of `ProcessedImage` are not modelled; the size of the blob stands for it.
- The rename box of the result screen is not modelled; `DownloadName` takes any file name.
- The cancel button and the other screens (App, the editor, the drop zone, the AI metadata service) are not part of this model.
- BatchProcessor.BatchRunner.ProcessBatch requires `Valid()`, meaning idle with no record processing. This holds between runs (the constructor and ProcessBatch establish it), and the button that starts a run is shown only while idle.
