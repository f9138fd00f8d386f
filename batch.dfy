/** The classification loop of the `/predict` handler and the summary it
    renders: two buckets of reviews, the confidences recorded for them, the
    pairing of the two, and the percentages. */
module Batch {
  import opened Sequences
  import opened Text
  import opened Classifier

  /** Whether a review ends up in the fake bucket (`fake`) or the genuine one
      (`!fake`): it was classified, and its label is 1 exactly for the fake one. */
  function InBucket(clf: Classifier, fake: bool): string -> bool
  {
    r => var v := Assess(clf, r); v.Classified? && (v.pred == 1) == fake
  }

  /** Whether a review is absent from both buckets: dropped or raised. */
  function NotAnalysed(clf: Classifier): string -> bool
  {
    r => !Assess(clf, r).Classified?
  }

  /** The confidence the loop appends for a review of the given bucket: only a
      truthy one, since `if confidence:` skips both `None` and `0.0`. */
  function Recorded(clf: Classifier, fake: bool): string -> Option<Confidence>
  {
    r =>
      var v := Assess(clf, r);
      if v.Classified? && (v.pred == 1) == fake && v.confidence.Some? && v.confidence.value != 0
      then Some(v.confidence.value)
      else None
  }

  /** `fake_reviews` (`fake`) or `genuine_reviews` (`!fake`) after the loop. */
  function Bucket(reviews: seq<string>, clf: Classifier, fake: bool): seq<string>
  {
    Filter(reviews, InBucket(clf, fake))
  }

  /** `fake_confidence` (`fake`) or `genuine_confidence` (`!fake`) after the loop. */
  function Confidences(reviews: seq<string>, clf: Classifier, fake: bool): seq<Confidence>
  {
    FilterMap(reviews, Recorded(clf, fake))
  }

  /** The `for review in reviews` loop: skip short reviews, skip a review whose
      vectorising or prediction raises, append the rest to the bucket its label
      picks, with its confidence when that is truthy. */
  method ClassifyReviews(reviews: seq<string>, clf: Classifier)
    returns (fakeReviews: seq<string>, genuineReviews: seq<string>,
             fakeConfidence: seq<Confidence>, genuineConfidence: seq<Confidence>)
    ensures fakeReviews == Bucket(reviews, clf, true)
    ensures genuineReviews == Bucket(reviews, clf, false)
    ensures fakeConfidence == Confidences(reviews, clf, true)
    ensures genuineConfidence == Confidences(reviews, clf, false)
  {
    fakeReviews, genuineReviews, fakeConfidence, genuineConfidence := [], [], [], [];
    for i := 0 to |reviews|
      invariant fakeReviews == Bucket(reviews[..i], clf, true)
      invariant genuineReviews == Bucket(reviews[..i], clf, false)
      invariant fakeConfidence == Confidences(reviews[..i], clf, true)
      invariant genuineConfidence == Confidences(reviews[..i], clf, false)
    {
      var review := reviews[i];
      assert reviews[..i + 1] == reviews[..i] + [review];
      BucketsStep(reviews[..i], review, clf);
      if review == [] || |Strip(review)| < MinReviewLength {
        assert Assess(clf, review) == Dropped;
        continue;
      }
      var pred := clf.predict(review);
      if pred.None? {
        assert Assess(clf, review) == Raised;
        continue;
      }
      var confidence: Option<Confidence> := None;
      if clf.hasProba {
        confidence := clf.confidence(review);
        if confidence.None? {
          assert Assess(clf, review) == Raised;
          continue;
        }
      }
      assert Assess(clf, review) == Classified(pred.value, confidence);
      if pred.value == 1 {
        fakeReviews := fakeReviews + [review];
        if confidence.Some? && confidence.value != 0 {
          fakeConfidence := fakeConfidence + [confidence.value];
        }
      } else {
        genuineReviews := genuineReviews + [review];
        if confidence.Some? && confidence.value != 0 {
          genuineConfidence := genuineConfidence + [confidence.value];
        }
      }
    }
    assert reviews[..|reviews|] == reviews;
  }

  /** One more review extends each bucket and each confidence list by what the
      loop body appends for it. */
  lemma BucketsStep(reviews: seq<string>, review: string, clf: Classifier)
    ensures forall fake: bool ::
      Bucket(reviews + [review], clf, fake)
        == Bucket(reviews, clf, fake) + (if InBucket(clf, fake)(review) then [review] else [])
    ensures forall fake: bool ::
      Confidences(reviews + [review], clf, fake)
        == Confidences(reviews, clf, fake) + (if Recorded(clf, fake)(review).Some? then [Recorded(clf, fake)(review).value] else [])
  {
    var s := reviews + [review];
    assert s[..|s| - 1] == reviews && s[|s| - 1] == review;
  }

  /** Every input review is counted once: in one of the two buckets, or among
      the dropped and raised ones. */
  lemma {:induction false} BucketsPartition(reviews: seq<string>, clf: Classifier)
    ensures |Bucket(reviews, clf, true)| + |Bucket(reviews, clf, false)|
            + |Filter(reviews, NotAnalysed(clf))| == |reviews|
    decreases |reviews|
  {
    if reviews != [] {
      BucketsPartition(reviews[..|reviews| - 1], clf);
    }
  }

  /** A review is in a bucket exactly when it is an input review that was
      classified with that bucket's label. */
  lemma BucketMembership(reviews: seq<string>, clf: Classifier, fake: bool, r: string)
    ensures r in Bucket(reviews, clf, fake) <==>
            r in reviews && Assess(clf, r).Classified? && (Assess(clf, r).pred == 1) == fake
  {
    FilterMembers(reviews, InBucket(clf, fake));
    assert InBucket(clf, fake)(r) <==> Assess(clf, r).Classified? && (Assess(clf, r).pred == 1) == fake;
  }

  /** Both buckets keep the input order. */
  lemma BucketsOrdered(reviews: seq<string>, clf: Classifier)
    ensures Subsequence(Bucket(reviews, clf, true), reviews)
    ensures Subsequence(Bucket(reviews, clf, false), reviews)
  {
    FilterIsSubsequence(reviews, InBucket(clf, true));
    FilterIsSubsequence(reviews, InBucket(clf, false));
  }

  /** A review that is dropped or whose classification raises leaves the
      buckets and the confidences exactly as they are without it. */
  lemma FailureIsolated(before: seq<string>, r: string, after: seq<string>, clf: Classifier, fake: bool)
    requires !Assess(clf, r).Classified?
    ensures Bucket(before + [r] + after, clf, fake) == Bucket(before + after, clf, fake)
    ensures Confidences(before + [r] + after, clf, fake) == Confidences(before + after, clf, fake)
  {
    var p, f := InBucket(clf, fake), Recorded(clf, fake);
    BucketsStep(before, r, clf);
    assert !p(r) && f(r).None?;
    assert Filter(before + [r], p) == Filter(before, p);
    assert FilterMap(before + [r], f) == FilterMap(before, f);
    FilterAppend(before + [r], after, p);
    FilterAppend(before, after, p);
    FilterMapAppend(before + [r], after, f);
    FilterMapAppend(before, after, f);
  }

  /** A confidence is recorded only alongside its review, so there are never
      more confidences than reviews in a bucket. */
  lemma ConfidencesWithinBucket(reviews: seq<string>, clf: Classifier, fake: bool)
    ensures |Confidences(reviews, clf, fake)| <= |Bucket(reviews, clf, fake)|
  {
    FilterMapWithin(reviews, Recorded(clf, fake), InBucket(clf, fake));
  }

  /** The classifier either gives no confidences at all or a truthy one for
      every review it classifies among `reviews`. */
  predicate ConfidencesTruthy(reviews: seq<string>, clf: Classifier)
  {
    clf.hasProba ==>
      forall r :: r in reviews && Assess(clf, r).Classified? ==> Assess(clf, r).confidence != Some(0)
  }

  /** `list(zip(reviews, confidences))`: pairs up to the shorter of the two. */
  function Zip(reviews: seq<string>, confidences: seq<Confidence>): (rows: seq<Row>)
    ensures |rows| == Min(|reviews|, |confidences|)
    ensures forall k :: 0 <= k < |rows| ==> rows[k] == Row(reviews[k], Some(confidences[k]))
  {
    if reviews == [] || confidences == [] then []
    else [Row(reviews[0], Some(confidences[0]))] + Zip(reviews[1..], confidences[1..])
  }

  /** A review as the result page shows it, with its confidence if any. */
  datatype Row = Row(text: string, confidence: Option<Confidence>)

  /** The rows rendered for one bucket: zipped with the confidences when any
      were recorded, otherwise every review with `None`. */
  function Rows(reviews: seq<string>, confidences: seq<Confidence>): (rows: seq<Row>)
    ensures |rows| == if confidences == [] then |reviews| else Min(|reviews|, |confidences|)
    ensures forall k :: 0 <= k < |rows| ==> rows[k].text == reviews[k]
    ensures forall k :: 0 <= k < |rows| ==>
              rows[k].confidence == if confidences == [] then None else Some(confidences[k])
  {
    if confidences != [] then Zip(reviews, confidences)
    else seq(|reviews|, k requires 0 <= k < |reviews| => Row(reviews[k], None))
  }

  /** When the classifier gives no confidence or only truthy ones, the rows
      show every review of the bucket, each with its own confidence. */
  lemma RowsAligned(reviews: seq<string>, clf: Classifier, fake: bool)
    requires ConfidencesTruthy(reviews, clf)
    ensures var bucket := Bucket(reviews, clf, fake);
            var rows := Rows(bucket, Confidences(reviews, clf, fake));
            |rows| == |bucket|
            && forall k :: 0 <= k < |rows| ==>
                 Assess(clf, bucket[k]).Classified? && rows[k] == Row(bucket[k], Assess(clf, bucket[k]).confidence)
  {
    var p, f := InBucket(clf, fake), Recorded(clf, fake);
    var bucket, confidences := Bucket(reviews, clf, fake), Confidences(reviews, clf, fake);
    FilterMembers(reviews, p);
    if clf.hasProba {
      forall x | x in reviews ensures f(x).Some? <==> p(x) {
        assert p(x) ==> Assess(clf, x).confidence.Some?;
      }
      FilterMapAligned(reviews, f, p);
      forall k | 0 <= k < |bucket| ensures Some(confidences[k]) == Assess(clf, bucket[k]).confidence {
        assert bucket[k] in bucket;
      }
    } else {
      FilterMapNothing(reviews, f);
      forall k | 0 <= k < |bucket|
        ensures Assess(clf, bucket[k]).Classified? && Assess(clf, bucket[k]).confidence == None
      {
        assert bucket[k] in bucket;
      }
    }
  }

  /** A falsy confidence (one that rounds to 0.0) is not recorded, and `zip`
      then pairs the next review's confidence with the wrong review and drops
      the last review of the bucket from the page. A top probability that
      rounds to 0.0 needs more than 2000 classes, so a two-class model never
      reaches this case. */
  lemma RowsShiftOnFalsyConfidence(first: string, second: string, clf: Classifier, c: Confidence)
    requires Assess(clf, first) == Classified(1, Some(0))
    requires Assess(clf, second) == Classified(1, Some(c)) && c != 0
    ensures Bucket([first, second], clf, true) == [first, second]
    ensures Rows(Bucket([first, second], clf, true), Confidences([first, second], clf, true))
            == [Row(first, Some(c))]
  {
    BucketsStep([], first, clf);
    BucketsStep([first], second, clf);
    assert [first] + [second] == [first, second];
    assert Bucket([], clf, true) == [] && Confidences([], clf, true) == [];
  }

  /** `len(part) / total * 100` before rounding, and 0 when nothing was analysed. */
  function Percentage(part: nat, total: nat): (p: real)
    ensures total == 0 ==> p == 0.0
    ensures total > 0 ==> p * (total as real) == (part as real) * 100.0
    ensures part <= total ==> 0.0 <= p <= 100.0
  {
    if total > 0 then part as real / total as real * 100.0 else 0.0
  }

  /** With something analysed, the two percentages add up to 100 before rounding. */
  lemma PercentagesComplement(fake: nat, genuine: nat)
    requires fake + genuine > 0
    ensures Percentage(fake, fake + genuine) + Percentage(genuine, fake + genuine) == 100.0
  {
    var t, f, g := (fake + genuine) as real, fake as real, genuine as real;
    assert Percentage(fake, fake + genuine) == f / t * 100.0;
    assert Percentage(genuine, fake + genuine) == g / t * 100.0;
    assert f / t + g / t == (f + g) / t;
    assert (f + g) / t == 1.0;
  }

  /** What the result page receives. */
  datatype Report = Report(
    fakeRows: seq<Row>,
    genuineRows: seq<Row>,
    total: nat,
    fakePercentage: real,
    genuinePercentage: real)

  /** `total_analyzed`, the two percentages and the rows, from the four lists. */
  function Summarize(fakeReviews: seq<string>, genuineReviews: seq<string>,
                     fakeConfidence: seq<Confidence>, genuineConfidence: seq<Confidence>): Report
  {
    var total := |fakeReviews| + |genuineReviews|;
    Report(
      Rows(fakeReviews, fakeConfidence),
      Rows(genuineReviews, genuineConfidence),
      total,
      Percentage(|fakeReviews|, total),
      Percentage(|genuineReviews|, total))
  }

  /** The report of one batch of extracted reviews. */
  function Analyse(reviews: seq<string>, clf: Classifier): Report
  {
    Summarize(Bucket(reviews, clf, true), Bucket(reviews, clf, false),
              Confidences(reviews, clf, true), Confidences(reviews, clf, false))
  }

  /** What every report promises: the total counts both buckets and at most
      the input reviews, the percentages are bounded, complementary, or both
      zero when nothing was analysed, and each bucket's rows list its reviews
      from the first, never more rows than reviews. */
  lemma ReportInvariants(reviews: seq<string>, clf: Classifier)
    ensures var report, fake, genuine := Analyse(reviews, clf), Bucket(reviews, clf, true), Bucket(reviews, clf, false);
            && report.total == |fake| + |genuine| <= |reviews|
            && 0.0 <= report.fakePercentage <= 100.0
            && 0.0 <= report.genuinePercentage <= 100.0
            && (report.total == 0 ==> report.fakePercentage == 0.0 && report.genuinePercentage == 0.0)
            && (report.total > 0 ==> report.fakePercentage + report.genuinePercentage == 100.0)
            && |report.fakeRows| <= |fake| && |report.genuineRows| <= |genuine|
            && (forall k :: 0 <= k < |report.fakeRows| ==> report.fakeRows[k].text == fake[k])
            && (forall k :: 0 <= k < |report.genuineRows| ==> report.genuineRows[k].text == genuine[k])
  {
    var fake, genuine := Bucket(reviews, clf, true), Bucket(reviews, clf, false);
    BucketsPartition(reviews, clf);
    ConfidencesWithinBucket(reviews, clf, true);
    ConfidencesWithinBucket(reviews, clf, false);
    if |fake| + |genuine| > 0 {
      PercentagesComplement(|fake|, |genuine|);
    }
  }
}
