# Fake review detector: the classification handlers

A Dafny model of the two request handlers of a small Flask application that
fetches the reviews of a product page and labels each one fake or genuine with
a pretrained TF-IDF vectoriser and classifier.

- `/predict` (`App.Predict`) strips the submitted URL and rejects an empty one.
  It then refuses when the artifacts failed to load, fetches at most 50 reviews
  and refuses when there are none. Otherwise it runs the classification loop
  (`Batch.ClassifyReviews`):
  - reviews that are empty or shorter than 10 characters once stripped are
    skipped;
  - a review whose vectorising or prediction raises is skipped;
  - every other review goes to the fake bucket when its label is 1 and to the
    genuine bucket otherwise, with its confidence when that is truthy.

  The page then shows the total, the two percentages and each bucket's rows,
  which pair reviews with confidences through `zip`.
- `/api/analyze` (`App.ApiAnalyze`) strips the URL and fetches the reviews in
  the same way. Its counting loop (`Api.TallyReviews`) keeps a fake counter, a
  genuine counter and one entry per review that passes the same length filter.
  It has no per-review recovery: any exception in the loop, including the one
  raised when no artifacts are loaded, turns the whole answer into a 500.

The model is organised as follows:
- The classifier is an oracle (`Classifier.Classifier`): a label per review,
  whether probabilities are available, and the rounded top probability. `None`
  stands for "this call raised".
- The loaded artifacts are `Option<Classifier>`.
- The reviews a URL yields are a function from URLs to texts (`Scraper.Web`).
  The model keeps the log of the URLs that were fetched, so it can state when
  the handlers do not fetch at all.
- Each loop is a method proved against a specification function:
  - `/predict` against `Batch.Bucket` and `Batch.Confidences`, which filter the
    input;
  - `/api/analyze` against `Api.Scan`.

  The properties the handlers promise are lemmas about those functions.

Three facts about the handlers are easy to miss:
- `/api/analyze` has one `try` around its whole loop (app.py:109-144), so the
  first exception on any review turns the answer into a 500, where `/predict`
  skips that review and carries on (`Api.ScanEntries`, `App.ApiWithoutModels`).
- `/api/analyze` never checks whether the artifacts were loaded
  (app.py:106-113): it fetches the page and fails only when a review reaches
  the classifier.
- Both handlers test `len(reviews) == 0` before the length filter (app.py:50,
  app.py:112). A page whose reviews are all too short therefore gives a report
  with a zero total rather than "No reviews found"
  (`App.NothingAnalysedIsAReport`).

## Model

| member | source | states |
|---|---|---|
| Classifier.SkippedIffTooShort | app.py:61 | the `not review` test adds nothing to the length test: the `/predict` and `/api/analyze` filters skip the same reviews |
| Classifier.ThresholdAtTen | app.py:61-62 | whatever whitespace surrounds a text, it is skipped exactly when its stripped core is shorter than 10; 9 characters are skipped and 10 are kept |
| Classifier.Assess | app.py:61-85 | one loop iteration drops the review exactly when it is empty or too short; it raises exactly when predict raises, or predict_proba raises while available; otherwise it classifies with predict's label, plus a confidence exactly when predict_proba exists |
| Text.StripShape | app.py:29 | `strip()` returns a contiguous piece of the text that has no whitespace at either end |
| Text.StripPadding | app.py:61 | stripping removes exactly the surrounding whitespace and keeps the core |
| Text.StripIdempotent | app.py:29 | stripping twice is stripping once |
| Batch.ClassifyReviews | app.py:54-85 | the loop leaves in each of the four lists exactly the filter of the inputs that `Bucket` and `Confidences` define: the reviews classified with that bucket's label, and their truthy confidences |
| Batch.BucketsPartition | app.py:60-87 | every input review is counted exactly once: in the fake bucket, in the genuine bucket, or among the dropped and raised ones |
| Batch.BucketMembership | app.py:75-82 | a review is in a bucket exactly when it is an input review classified with that bucket's label (1 for fake, anything else for genuine) |
| Batch.BucketsOrdered | app.py:60-82 | both buckets are subsequences of the input, in input order |
| Batch.FailureIsolated | app.py:64-85 | a review that is dropped or whose classification raises leaves both buckets and both confidence lists as they are without it |
| Batch.ConfidencesWithinBucket | app.py:77-82 | a bucket never has more recorded confidences than reviews |
| Batch.Zip | app.py:92 | `zip` pairs the k-th review with the k-th confidence, up to the shorter of the two |
| Batch.Rows | app.py:92-93 | the rows are the zip when any confidence was recorded, otherwise every review paired with `None`; their length is then min(bucket, confidences) or the bucket's length |
| Batch.RowsAligned | app.py:77-93 | when no classified review has a falsy confidence, every review of the bucket gets a row and each row carries that review's own confidence; that premise holds for every two-class model, whose top probability is at least 0.5 |
| Batch.RowsShiftOnFalsyConfidence | app.py:77-93 | a confidence that rounds to 0.0 is not recorded, so `zip` gives the next review's confidence to the first review and drops the second review from the page; this needs a top probability below 0.0005, which only a model with more than 2000 classes can give, never a two-class fake/genuine model |
| Batch.Percentage | app.py:88-89 | the percentage is 0 when nothing was analysed and otherwise part/total*100 exactly, within [0, 100] when part <= total |
| Batch.PercentagesComplement | app.py:88-89 | before rounding, the two percentages of a non-empty analysis add up to 100 |
| Batch.ReportInvariants | app.py:87-97 | `total_analyzed` is the sum of the bucket sizes and at most the number of reviews; the percentages are bounded, both 0 for an empty analysis and complementary otherwise; each bucket's rows list its reviews from the first, never more rows than reviews |
| Api.TallyReviews | app.py:115-139 | the loop returns the counters and entries that `Scan` specifies, or reports the exception when `Scan` aborts |
| Api.ScanAborts | app.py:122-144 | an exception on some review aborts the whole loop, whatever follows it |
| Api.ScanEntries | app.py:122-139 | the loop completes exactly when no review that passes the filter raises, and its entries are then one per such review, in order |
| Api.TallyCounts | app.py:115-139 | `total` is the number of extracted reviews; `fake_count + genuine_count` is the number of entries, which is the number of reviews passing the filter and at most `total`; each entry is the k-th kept review, with `is_fake` exactly when its label is 1 |
| Api.TallyWithoutModels | app.py:122-127 | without loaded artifacts, the loop succeeds exactly when every review is too short, and then it counts nothing |
| Api.EndpointsAgree | app.py:122-139 | when nothing raises, the API's fake entries are `/predict`'s fake bucket, its genuine entries the genuine bucket, and its counters the sizes of the two buckets |
| Scraper.FirstBlocks | scraper.py:20 | at most `limit` blocks are kept: the first ones, in document order |
| Scraper.Web.ExtractReviews | scraper.py:10-27 | one request is logged, and the result is the first `limit` texts the page yields |
| App.Predict | app.py:28-97 | the handler renders the page `PredictPage` specifies, with the three error messages of the source; it fetches the URL only when the stripped URL is non-empty and the artifacts are loaded |
| App.PredictErrorPrecedence | app.py:29-52 | an empty URL is reported first, missing artifacts second, an empty extraction third; a report is rendered exactly when none of them applies |
| App.PredictReport | app.py:47-97 | a report covers between 1 and 50 extracted reviews, with a total at most their number and both percentages within [0, 100] |
| App.NothingAnalysedIsAReport | app.py:50-97 | reviews that are all dropped or all raise still give a report, with a zero total, zero percentages and no rows, not the "No reviews found" error |
| App.ThreeReviewsTwoAnalysed | app.py:60-87 | of three extracted reviews, a single letter is skipped and the two sentences are analysed |
| App.ApiAnalyze | app.py:101-144 | the handler answers what `ApiResponseFor` specifies: 400 for an empty URL, 404 for an empty extraction, 500 when the loop raised, the counts otherwise; it fetches whenever the URL is non-empty |
| App.ApiWithoutModels | app.py:106-144 | without loaded artifacts the API answers 500 exactly when some extracted review is long enough to classify, and otherwise zero counts |
| App.ApiCounts | app.py:110-139 | a successful answer's total is the number of extracted reviews, at most 50, and its counters add up to its number of entries, at most the total |

## Left out

- Flask routing, `render_template`, `jsonify`, `request.form` and `request.get_json` are web plumbing. A request whose JSON body is missing, which fails in `data.get` outside the handler's `try`, is not modelled.
- `joblib.load` of the two pickles is not modelled. Only its outcome is: `Artifacts` is `None` when loading failed.
- The sklearn vectoriser, `model.predict` and `predict_proba` are foreign calls. They are an oracle per review, and labels are integers. A label that is not an integer (a string class name) is not modelled.
- Classifier.Assess: `round(max(proba) * 100, 1)` is not computed. The confidence is an oracle value in tenths of a percent, 0 to 1000.
- Batch.Percentage: Python float division and `round(..., 1)` (banker's rounding) are not modelled. The percentage is the exact ratio before rounding, so the promise that the rounded values need not add up to 100.0 is outside the model.
- `time.time()`, `scrape_time` and the `print` logging have no behaviour to model.
- The HTTP request and the HTML parsing of `extract_reviews` are not modelled. Each URL yields a fixed list of texts, and a failed fetch or parse yields an empty one.
- App.ApiAnalyze: the error message `str(e)` of a 500 answer is abstracted to `ServerError`.
