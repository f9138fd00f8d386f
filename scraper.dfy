/** `extract_reviews` as the handlers see it. Fetching and parsing a page are
    not modelled: each URL simply yields the texts of its review blocks, in
    document order (none when the request or the parse fails, since the
    exception is caught and an empty list returned). What is modelled is the
    cap on their number and the fact that a request was made. */
module Scraper {
  import opened Sequences

  /** `review_blocks[:limit]`: the first `limit` blocks, or all of them when
      there are fewer. */
  function FirstBlocks(blocks: seq<string>, limit: nat): (r: seq<string>)
    ensures |r| == Min(|blocks|, limit)
    ensures forall k :: 0 <= k < |r| ==> r[k] == blocks[k]
  {
    if |blocks| <= limit then blocks else blocks[..limit]
  }

  /** The web as seen from the application: what each page yields, and the
      log of the URLs fetched so far. */
  class Web {
    /** The review texts the page at each URL yields. */
    const pages: string -> seq<string>
    /** The URLs passed to `extract_reviews`, oldest first. */
    var requests: seq<string>

    constructor (pages: string -> seq<string>)
      ensures this.pages == pages && requests == []
    {
      this.pages := pages;
      requests := [];
    }

    /** `extract_reviews(url, limit)`: one request, at most `limit` texts. */
    method ExtractReviews(url: string, limit: nat) returns (reviews: seq<string>)
      modifies this`requests
      ensures reviews == FirstBlocks(pages(url), limit)
      ensures requests == old(requests) + [url]
    {
      reviews := FirstBlocks(pages(url), limit);
      requests := requests + [url];
    }
  }
}
