/** The two request handlers of the Flask application: `/predict`, which
    renders a result page, and `/api/analyze`, which answers with JSON. Both
    strip the submitted URL, fetch at most 50 reviews and classify them; they
    differ in how they order their checks and in how they treat an exception. */
module App {
  import opened Sequences
  import opened Text
  import opened Classifier
  import opened Batch
  import opened Api
  import opened Scraper

  /** Both handlers call `extract_reviews(url, limit=50)`. */
  const ReviewLimit: nat := 50

  /** The `error` shown by the result page instead of a report. */
  datatype PredictError = MissingUrl | ModelsNotLoaded | NoReviewsFound

  function Message(error: PredictError): string
  {
    match error
    case MissingUrl => "Please provide a valid URL!"
    case ModelsNotLoaded => "ML models not loaded. Please check model files!"
    case NoReviewsFound => "No reviews found! The page might be blocking scraping or has no reviews."
  }

  /** What `/predict` renders: the page with its `error` message, or a report. */
  datatype Page = ErrorPage(error: string) | ResultPage(report: Report)

  /** The reviews `/predict` and `/api/analyze` work on for a stripped URL. */
  function Extracted(pages: string -> seq<string>, url: string): seq<string>
  {
    FirstBlocks(pages(url), ReviewLimit)
  }

  /** The page `/predict` renders, given the submitted URL, the artifacts the
      process loaded and what each page yields. */
  function PredictPage(url: string, artifacts: Artifacts, pages: string -> seq<string>): Page
  {
    var u := Strip(url);
    if u == [] then ErrorPage(Message(MissingUrl))
    else if artifacts.None? then ErrorPage(Message(ModelsNotLoaded))
    else
      var reviews := Extracted(pages, u);
      if reviews == [] then ErrorPage(Message(NoReviewsFound))
      else ResultPage(Analyse(reviews, artifacts.value))
  }

  /** The `/predict` handler. It fetches the page only once the URL is
      non-empty and the artifacts are loaded. */
  method Predict(web: Web, url: string, artifacts: Artifacts) returns (page: Page)
    modifies web
    ensures page == PredictPage(url, artifacts, web.pages)
    ensures web.requests == old(web.requests) + (if Strip(url) != [] && artifacts.Some? then [Strip(url)] else [])
  {
    var u := Strip(url);
    if u == [] {
      return ErrorPage(Message(MissingUrl));
    }
    if artifacts.None? {
      return ErrorPage(Message(ModelsNotLoaded));
    }
    var reviews := web.ExtractReviews(u, ReviewLimit);
    if |reviews| == 0 {
      return ErrorPage(Message(NoReviewsFound));
    }
    var fakeReviews, genuineReviews, fakeConfidence, genuineConfidence := ClassifyReviews(reviews, artifacts.value);
    page := ResultPage(Summarize(fakeReviews, genuineReviews, fakeConfidence, genuineConfidence));
  }

  /** The order of the checks of `/predict`: an empty URL first, then missing
      artifacts, then an empty extraction; a report otherwise. */
  lemma PredictErrorPrecedence(url: string, artifacts: Artifacts, pages: string -> seq<string>)
    ensures var page := PredictPage(url, artifacts, pages);
            && (page == ErrorPage(Message(MissingUrl)) <==> Strip(url) == [])
            && (page == ErrorPage(Message(ModelsNotLoaded)) <==> Strip(url) != [] && artifacts.None?)
            && (page == ErrorPage(Message(NoReviewsFound)) <==>
                  Strip(url) != [] && artifacts.Some? && pages(Strip(url)) == [])
            && (page.ResultPage? <==> Strip(url) != [] && artifacts.Some? && pages(Strip(url)) != [])
  {
    var u := Strip(url);
    if u != [] && artifacts.Some? {
      assert |Extracted(pages, u)| == Min(|pages(u)|, ReviewLimit);
    }
  }

  /** A report from `/predict` covers between 1 and 50 extracted reviews, and
      carries every promise of `ReportInvariants` about them. */
  lemma PredictReport(url: string, artifacts: Artifacts, pages: string -> seq<string>)
    requires PredictPage(url, artifacts, pages).ResultPage?
    ensures var reviews, report := Extracted(pages, Strip(url)), PredictPage(url, artifacts, pages).report;
            && artifacts.Some?
            && 0 < |reviews| <= ReviewLimit
            && report == Analyse(reviews, artifacts.value)
            && report.total <= |reviews|
            && 0.0 <= report.fakePercentage <= 100.0 && 0.0 <= report.genuinePercentage <= 100.0
  {
    ReportInvariants(Extracted(pages, Strip(url)), artifacts.value);
  }

  /** "No reviews found" and "nothing could be analysed" are different
      outcomes: reviews that are all dropped or all fail still give a report,
      with a zero total and both percentages zero. */
  lemma NothingAnalysedIsAReport(url: string, clf: Classifier, pages: string -> seq<string>)
    requires Strip(url) != [] && pages(Strip(url)) != []
    requires forall r :: r in Extracted(pages, Strip(url)) ==> !Assess(clf, r).Classified?
    ensures PredictPage(url, Some(clf), pages).ResultPage?
    ensures var report := PredictPage(url, Some(clf), pages).report;
            report.total == 0 && report.fakePercentage == 0.0 && report.genuinePercentage == 0.0
            && report.fakeRows == [] && report.genuineRows == []
  {
    var reviews := Extracted(pages, Strip(url));
    assert |reviews| == Min(|pages(Strip(url))|, ReviewLimit);
    FilterNothing(reviews, InBucket(clf, true));
    FilterNothing(reviews, InBucket(clf, false));
    ConfidencesWithinBucket(reviews, clf, true);
    ConfidencesWithinBucket(reviews, clf, false);
  }

  /** Of the three reviews below, the single letter is dropped by the length
      filter and the two sentences pass it. */
  lemma ThreeReviewsFiltered()
    ensures !Skipped("Great product, works well")
    ensures Skipped("a")
    ensures !Skipped("Fake seller scam alert here")
  {
    StripUnpadded("Great product, works well");
    StripUnpadded("a");
    StripUnpadded("Fake seller scam alert here");
  }

  /** Three extracted reviews, one of them a single letter: with a classifier
      that never raises on them, two reviews are analysed. */
  lemma ThreeReviewsTwoAnalysed(clf: Classifier)
    requires forall r :: clf.predict(r).Some? && (clf.hasProba ==> clf.confidence(r).Some?)
    ensures Analyse(["Great product, works well", "a", "Fake seller scam alert here"], clf).total == 2
  {
    var first, short, last := "Great product, works well", "a", "Fake seller scam alert here";
    var reviews := [first, short, last];
    ThreeReviewsFiltered();
    BucketsPartition(reviews, clf);
    var p := NotAnalysed(clf);
    assert !p(first) && p(short) && !p(last);
    assert [first][..0] == [];
    assert Filter([first], p) == [];
    assert [first, short][..1] == [first];
    assert Filter([first, short], p) == [short];
    assert reviews[..2] == [first, short];
    assert Filter(reviews, p) == [short];
  }

  /** What `/api/analyze` answers. */
  datatype ApiFailure = UrlRequired | NoReviews | ServerError

  datatype ApiResponse = Ok(results: Results) | Failed(status: int, failure: ApiFailure)

  /** The response of `/api/analyze`: 400 for an empty URL, 404 for an empty
      extraction, 500 when the loop raised, the counts otherwise. */
  function ApiResponseFor(url: string, artifacts: Artifacts, pages: string -> seq<string>): ApiResponse
  {
    var u := Strip(url);
    if u == [] then Failed(400, UrlRequired)
    else
      var reviews := Extracted(pages, u);
      if reviews == [] then Failed(404, NoReviews)
      else match Tally(reviews, artifacts)
        case None => Failed(500, ServerError)
        case Some(results) => Ok(results)
  }

  /** The `/api/analyze` handler. It fetches the page for every non-empty URL,
      whether or not the artifacts are loaded. */
  method ApiAnalyze(web: Web, url: string, artifacts: Artifacts) returns (response: ApiResponse)
    modifies web
    ensures response == ApiResponseFor(url, artifacts, web.pages)
    ensures web.requests == old(web.requests) + (if Strip(url) != [] then [Strip(url)] else [])
  {
    var u := Strip(url);
    if u == [] {
      return Failed(400, UrlRequired);
    }
    var reviews := web.ExtractReviews(u, ReviewLimit);
    if |reviews| == 0 {
      return Failed(404, NoReviews);
    }
    var results := TallyReviews(reviews, artifacts);
    match results
    case None =>
      response := Failed(500, ServerError);
    case Some(r) =>
      response := Ok(r);
  }

  /** Without loaded artifacts `/api/analyze` does not answer with a
      configuration error: it fails with 500 when some extracted review is long
      enough to be classified, and otherwise answers with zero counts. */
  lemma ApiWithoutModels(url: string, pages: string -> seq<string>)
    requires Strip(url) != [] && pages(Strip(url)) != []
    ensures var reviews, response := Extracted(pages, Strip(url)), ApiResponseFor(url, None, pages);
            && (response == Failed(500, ServerError) <==> exists r :: r in reviews && !TooShort(r))
            && (response.Ok? ==> response.results == Results(|reviews|, 0, 0, []))
  {
    var reviews := Extracted(pages, Strip(url));
    assert |reviews| == Min(|pages(Strip(url))|, ReviewLimit);
    TallyWithoutModels(reviews);
  }

  /** A successful `/api/analyze` answer counts every review once: its total
      is the number extracted, at most 50, and the two counters add up to the
      number of entries, one per review that passes the filter. */
  lemma ApiCounts(url: string, artifacts: Artifacts, pages: string -> seq<string>)
    requires ApiResponseFor(url, artifacts, pages).Ok?
    ensures var results := ApiResponseFor(url, artifacts, pages).results;
            && results.total == |Extracted(pages, Strip(url))| <= ReviewLimit
            && results.fakeCount + results.genuineCount == |results.reviews| <= results.total
  {
    TallyCounts(Extracted(pages, Strip(url)), artifacts);
  }
}
