/** The pretrained TF-IDF vectoriser and classifier, seen from the handlers:
    an oracle per review, the short-review filter, and what one pass of the
    `/predict` loop body decides for one review. */
module Classifier {
  import opened Sequences
  import opened Text

  /** Reviews whose stripped text is shorter than this are skipped. */
  const MinReviewLength: nat := 10

  /** `round(max(proba) * 100, 1)` counted in tenths of a percent: 0 .. 1000
      stands for 0.0 .. 100.0. */
  type Confidence = c: int | 0 <= c <= 1000

  /** The loaded artifacts as the handlers use them. `predict(r)` is
      `model.predict(vectorizer.transform([r]))[0]`, `None` when either call
      raises; `hasProba` is `hasattr(model, 'predict_proba')`; `confidence(r)`
      is the rounded top class probability, `None` when `predict_proba` raises. */
  datatype Classifier = Classifier(
    predict: string -> Option<int>,
    hasProba: bool,
    confidence: string -> Option<Confidence>)

  /** What the process holds after trying to load the two pickled artifacts:
      `None` when loading failed and both globals were set to `None`. */
  type Artifacts = Option<Classifier>

  /** The `/api/analyze` filter: `len(review.strip()) < 10`. */
  predicate TooShort(review: string)
  {
    |Strip(review)| < MinReviewLength
  }

  /** The `/predict` filter: `not review or len(review.strip()) < 10`. */
  predicate Skipped(review: string)
  {
    review == [] || TooShort(review)
  }

  /** The two filters agree: the emptiness test of `/predict` adds nothing. */
  lemma SkippedIffTooShort(review: string)
    ensures Skipped(review) <==> TooShort(review)
  {
  }

  /** The threshold sits between 9 and 10 stripped characters, whatever
      whitespace surrounds the text. */
  lemma ThresholdAtTen(before: string, core: string, after: string)
    requires AllSpace(before) && AllSpace(after)
    requires core == [] || (!IsSpace(core[0]) && !IsSpace(core[|core| - 1]))
    ensures Skipped(before + core + after) <==> |core| < 10
    ensures |core| == 9 ==> Skipped(before + core + after)
    ensures |core| == 10 ==> !Skipped(before + core + after)
  {
    StripPadding(before, core, after);
  }

  /** The outcome of one iteration of the `/predict` loop. */
  datatype Verdict =
    | Dropped                                            // filtered out as too short
    | Raised                                             // vectorise, predict or predict_proba raised
    | Classified(pred: int, confidence: Option<Confidence>)

  function Assess(clf: Classifier, review: string): (v: Verdict)
    ensures v == Dropped <==> Skipped(review)
    ensures v.Classified? ==> clf.predict(review) == Some(v.pred)
    ensures v.Classified? ==> (v.confidence.Some? <==> clf.hasProba)
    ensures v.Classified? && clf.hasProba ==> clf.confidence(review) == v.confidence
    ensures v == Raised <==> !Skipped(review)
                              && (clf.predict(review).None? || (clf.hasProba && clf.confidence(review).None?))
  {
    if Skipped(review) then Dropped
    else match clf.predict(review)
      case None => Raised
      case Some(pred) =>
        if !clf.hasProba then Classified(pred, None)
        else match clf.confidence(review)
          case None => Raised
          case Some(c) => Classified(pred, Some(c))
  }

  /** `model.predict` as `/api/analyze` reaches it: with no artifacts loaded,
      `vectorizer.transform` is an attribute lookup on `None` and raises. */
  function Label(artifacts: Artifacts, review: string): Option<int>
  {
    match artifacts
    case None => None
    case Some(clf) => clf.predict(review)
  }
}
