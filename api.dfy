/** The counting loop of the `/api/analyze` handler: one entry per review that
    passes the length filter, a fake and a genuine counter, and no per-review
    recovery (an exception aborts the whole request). */
module Api {
  import opened Sequences
  import opened Text
  import opened Classifier
  import Batch

  /** One element of `results["reviews"]`. */
  datatype ReviewData = ReviewData(text: string, isFake: bool)

  /** The `results` dictionary. */
  datatype Results = Results(total: nat, fakeCount: nat, genuineCount: nat, reviews: seq<ReviewData>)

  /** The reviews the loop classifies: `len(review.strip()) >= 10`. */
  function LongEnough(): string -> bool
  {
    r => !TooShort(r)
  }

  /** A review on which the loop raises: it passes the filter, and vectorising
      or predicting it fails (always so when no artifacts are loaded). */
  predicate Raises(artifacts: Artifacts, review: string)
  {
    !TooShort(review) && Label(artifacts, review).None?
  }

  /** The entry the loop appends for a review, if any. */
  function Entry(artifacts: Artifacts): string -> Option<ReviewData>
  {
    r =>
      if TooShort(r) then None
      else match Label(artifacts, r)
        case None => None
        case Some(pred) => Some(ReviewData(r, pred == 1))
  }

  function IsFakeEntry(d: ReviewData): bool
  {
    d.isFake
  }

  function IsGenuineEntry(d: ReviewData): bool
  {
    !d.isFake
  }

  function Texts(entries: seq<ReviewData>): (texts: seq<string>)
    ensures |texts| == |entries|
  {
    seq(|entries|, k requires 0 <= k < |entries| => entries[k].text)
  }

  /** The entries the loop appends to `results["reviews"]` for `reviews`, in
      order, or `None` when vectorising or predicting one of them raises and
      aborts the loop. */
  function Scan(reviews: seq<string>, artifacts: Artifacts): Option<seq<ReviewData>>
    decreases |reviews|
  {
    if reviews == [] then Some([])
    else
      var last := reviews[|reviews| - 1];
      match Scan(reviews[..|reviews| - 1], artifacts)
      case None => None
      case Some(entries) =>
        if TooShort(last) then Some(entries)
        else match Label(artifacts, last)
          case None => None
          case Some(pred) => Some(entries + [ReviewData(last, pred == 1)])
  }

  /** What the loop leaves in `results`, or `None` when it raised. */
  function Tally(reviews: seq<string>, artifacts: Artifacts): Option<Results>
  {
    match Scan(reviews, artifacts)
    case None => None
    case Some(entries) =>
      Some(Results(|reviews|, |Filter(entries, IsFakeEntry)|, |Filter(entries, IsGenuineEntry)|, entries))
  }

  /** The `for review in reviews` loop of `/api/analyze`, stopping at the first
      exception. */
  method TallyReviews(reviews: seq<string>, artifacts: Artifacts) returns (results: Option<Results>)
    ensures results == Tally(reviews, artifacts)
  {
    var fakeCount: nat, genuineCount: nat, entries: seq<ReviewData> := 0, 0, [];
    for i := 0 to |reviews|
      invariant Scan(reviews[..i], artifacts) == Some(entries)
      invariant fakeCount == |Filter(entries, IsFakeEntry)|
      invariant genuineCount == |Filter(entries, IsGenuineEntry)|
    {
      var review := reviews[i];
      var prefix := reviews[..i + 1];
      assert prefix[..i] == reviews[..i] && prefix[i] == review;
      if |Strip(review)| < MinReviewLength {
        continue;
      }
      var pred := Label(artifacts, review);
      if pred.None? {
        ScanAborts(reviews, i + 1, artifacts);
        return None;
      }
      var data := ReviewData(review, pred.value == 1);
      if pred.value == 1 {
        fakeCount := fakeCount + 1;
      } else {
        genuineCount := genuineCount + 1;
      }
      CountsStep(entries, data);
      entries := entries + [data];
    }
    assert reviews[..|reviews|] == reviews;
    return Some(Results(|reviews|, fakeCount, genuineCount, entries));
  }

  /** Once a prefix aborts, the whole scan does. */
  lemma {:induction false} ScanAborts(reviews: seq<string>, n: nat, artifacts: Artifacts)
    requires n <= |reviews| && Scan(reviews[..n], artifacts).None?
    ensures Scan(reviews, artifacts).None?
    decreases |reviews| - n
  {
    if n < |reviews| {
      var prefix := reviews[..n + 1];
      assert prefix[..n] == reviews[..n];
      ScanAborts(reviews, n + 1, artifacts);
    } else {
      assert reviews[..n] == reviews;
    }
  }

  lemma CountsStep(entries: seq<ReviewData>, d: ReviewData)
    ensures Filter(entries + [d], IsFakeEntry) == Filter(entries, IsFakeEntry) + (if d.isFake then [d] else [])
    ensures Filter(entries + [d], IsGenuineEntry) == Filter(entries, IsGenuineEntry) + (if d.isFake then [] else [d])
  {
    var s := entries + [d];
    assert s[..|s| - 1] == entries && s[|s| - 1] == d;
  }

  /** The scan completes exactly when no review that passes the filter raises,
      and then it holds one entry per such review, in order. */
  lemma {:induction false} ScanEntries(reviews: seq<string>, artifacts: Artifacts)
    ensures Scan(reviews, artifacts).Some? <==> NoneRaises(reviews, artifacts)
    ensures Scan(reviews, artifacts).Some? ==> Scan(reviews, artifacts).value == FilterMap(reviews, Entry(artifacts))
    decreases |reviews|
  {
    if reviews != [] {
      var init, last := reviews[..|reviews| - 1], reviews[|reviews| - 1];
      assert reviews == init + [last];
      ScanEntries(init, artifacts);
      NoneRaisesStep(init, last, artifacts);
    }
  }

  /** No review of `reviews` raises. */
  predicate NoneRaises(reviews: seq<string>, artifacts: Artifacts)
  {
    forall r :: r in reviews ==> !Raises(artifacts, r)
  }

  lemma NoneRaisesStep(reviews: seq<string>, review: string, artifacts: Artifacts)
    ensures NoneRaises(reviews + [review], artifacts) <==> NoneRaises(reviews, artifacts) && !Raises(artifacts, review)
  {
    if NoneRaises(reviews, artifacts) && !Raises(artifacts, review) {
      forall r | r in reviews + [review] ensures !Raises(artifacts, r) {
        if r != review {
          assert r in reviews;
        }
      }
    }
    if NoneRaises(reviews + [review], artifacts) {
      assert review in reviews + [review];
      forall r | r in reviews ensures !Raises(artifacts, r) {
        assert r in reviews + [review];
      }
    }
  }

  /** What a successful tally promises: the two counters add up to the number
      of entries, which is at most `total`, the number of extracted reviews;
      the entries are the reviews that pass the filter, in order, each marked
      fake exactly when its label is 1. */
  lemma TallyCounts(reviews: seq<string>, artifacts: Artifacts)
    requires Tally(reviews, artifacts).Some?
    ensures var results, kept := Tally(reviews, artifacts).value, Filter(reviews, LongEnough());
            && results.total == |reviews|
            && results.fakeCount + results.genuineCount == |results.reviews| == |kept| <= results.total
            && Subsequence(kept, reviews)
            && forall k :: 0 <= k < |kept| ==>
                 results.reviews[k].text == kept[k]
                 && (results.reviews[k].isFake <==> Label(artifacts, kept[k]) == Some(1))
  {
    var f, p := Entry(artifacts), LongEnough();
    ScanEntries(reviews, artifacts);
    var entries := FilterMap(reviews, f);
    assert Tally(reviews, artifacts).value.reviews == entries;
    FilterComplement(entries, IsFakeEntry, IsGenuineEntry);
    forall x | x in reviews ensures f(x).Some? <==> p(x) {
      assert !Raises(artifacts, x);
      if !TooShort(x) {
        assert Label(artifacts, x).Some?;
      }
    }
    FilterMapAligned(reviews, f, p);
    FilterIsSubsequence(reviews, p);
    var kept := Filter(reviews, p);
    forall k | 0 <= k < |kept|
      ensures entries[k].text == kept[k] && (entries[k].isFake <==> Label(artifacts, kept[k]) == Some(1))
    {
      assert kept[k] in kept;
      assert !TooShort(kept[k]);
      assert Some(entries[k]) == f(kept[k]);
    }
  }

  /** Without artifacts the API does not refuse up front: it succeeds, with
      nothing counted, exactly when every extracted review is too short. */
  lemma TallyWithoutModels(reviews: seq<string>)
    ensures Tally(reviews, None).Some? <==> forall r :: r in reviews ==> TooShort(r)
    ensures Tally(reviews, None).Some? ==> Tally(reviews, None).value == Results(|reviews|, 0, 0, [])
  {
    ScanEntries(reviews, None);
    assert NoneRaises(reviews, None) <==> forall r :: r in reviews ==> TooShort(r) by {
      assert forall r :: Raises(None, r) <==> !TooShort(r);
    }
    if forall r :: r in reviews ==> TooShort(r) {
      FilterMapNothing(reviews, Entry(None));
      assert Filter([], IsFakeEntry) == [] && Filter([], IsGenuineEntry) == [];
    }
  }

  /** When nothing raises, the two endpoints classify alike: the API's fake
      entries are `/predict`'s fake bucket, its genuine entries the genuine
      bucket, and its counters the sizes of the two buckets. */
  lemma {:induction false} EndpointsAgree(reviews: seq<string>, clf: Classifier)
    requires forall r :: r in reviews ==> Assess(clf, r) != Raised
    ensures Tally(reviews, Some(clf)).Some?
    ensures var results := Tally(reviews, Some(clf)).value;
            && Texts(Filter(results.reviews, IsFakeEntry)) == Batch.Bucket(reviews, clf, true)
            && Texts(Filter(results.reviews, IsGenuineEntry)) == Batch.Bucket(reviews, clf, false)
            && results.fakeCount == |Batch.Bucket(reviews, clf, true)|
            && results.genuineCount == |Batch.Bucket(reviews, clf, false)|
    decreases |reviews|
  {
    if reviews != [] {
      var init, last := reviews[..|reviews| - 1], reviews[|reviews| - 1];
      assert reviews == init + [last];
      assert last in reviews;
      assert forall r :: r in init ==> r in reviews;
      EndpointsAgree(init, clf);
      Batch.BucketsStep(init, last, clf);
      var entries := Scan(init, Some(clf)).value;
      var v := Assess(clf, last);
      if v.Classified? {
        var d := ReviewData(last, v.pred == 1);
        assert Scan(reviews, Some(clf)) == Some(entries + [d]);
        CountsStep(entries, d);
        var fakeTail, genuineTail := if d.isFake then [d] else [], if d.isFake then [] else [d];
        TextsAppend(Filter(entries, IsFakeEntry), fakeTail);
        TextsAppend(Filter(entries, IsGenuineEntry), genuineTail);
        assert Texts(fakeTail) == if Batch.InBucket(clf, true)(last) then [last] else [];
        assert Texts(genuineTail) == if Batch.InBucket(clf, false)(last) then [last] else [];
        assert Texts(Filter(entries + [d], IsFakeEntry)) == Texts(Filter(entries, IsFakeEntry)) + Texts(fakeTail);
        assert Texts(Filter(entries + [d], IsGenuineEntry)) == Texts(Filter(entries, IsGenuineEntry)) + Texts(genuineTail);
      } else {
        assert v == Dropped;
        SkippedIffTooShort(last);
        assert Scan(reviews, Some(clf)) == Some(entries);
        assert !Batch.InBucket(clf, true)(last) && !Batch.InBucket(clf, false)(last);
      }
    }
  }

  lemma TextsAppend(a: seq<ReviewData>, b: seq<ReviewData>)
    ensures Texts(a + b) == Texts(a) + Texts(b)
  {
  }
}
