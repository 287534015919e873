/**
 * The Goodreads scraper (lib/scrapers/goodreads.ts): the book link from the
 * search page, the review texts and star labels from the book page, the
 * raw-page fallback, and the chunks pushed for them. The browser is not
 * modelled: what each selector finds is given as a `Page`, and a browser
 * step that throws is the absent page.
 */
module Goodreads {
  import opened Wrappers
  import opened Strings
  import opened Seqs
  import opened Types
  import opened Chunker
  import opened Scraped

  const SOURCE: string := "Goodreads"
  const MAX_REVIEWS: nat := 12

  /**
   * One review element: the text under each content selector in order ("" for
   * one that failed) and the `aria-label` of its star rating, if it has one.
   */
  datatype Review = Review(texts: seq<string>, ratingLabel: Option<string>)

  /**
   * What the browser finds: the `href` of the first match of each search-result
   * selector, the review elements matched by each review selector, and the
   * text of the page's main content (`''` when that lookup failed).
   */
  datatype Page = Page(hrefs: seq<Option<string>>, reviewLists: seq<seq<Review>>, mainText: Option<string>)

  /** JavaScript truthiness of a string that may be null. */
  predicate Truthy(s: Option<string>) {
    s.Some? && s.value != ""
  }

  predicate NonEmpty(rs: seq<Review>) {
    |rs| > 0
  }

  /** The content-selector loop stops at the first text longer than 50 once trimmed. */
  predicate LongEnough(t: string) {
    |Trim(t)| > 50
  }

  predicate IsDigit(c: char) {
    '0' <= c <= '9'
  }

  /** `s.match(/(\d)/)` then `parseInt`: the value of the first decimal digit. */
  function FirstDigit(s: string): Option<int>
    decreases |s|
  {
    if s == [] then None
    else if IsDigit(s[0]) then Some(s[0] as int - '0' as int)
    else FirstDigit(s[1..])
  }

  /** A digit is found exactly when the label has one; it is the first one, and lies in 0..9. */
  lemma {:induction false} FirstDigitFacts(s: string)
    ensures FirstDigit(s).Some? <==> exists i :: 0 <= i < |s| && IsDigit(s[i])
    ensures FirstDigit(s).Some? ==>
              0 <= FirstDigit(s).value <= 9 &&
              exists i :: 0 <= i < |s| && s[i] == DigitChar(FirstDigit(s).value) && forall j :: 0 <= j < i ==> !IsDigit(s[j])
    decreases |s|
  {
    if s != [] && !IsDigit(s[0]) {
      FirstDigitFacts(s[1..]);
      if exists i :: 0 <= i < |s| && IsDigit(s[i]) {
        var i :| 0 <= i < |s| && IsDigit(s[i]);
        assert s[1..][i - 1] == s[i];
        var k :| 0 <= k < |s[1..]| && s[1..][k] == DigitChar(FirstDigit(s).value) &&
                 forall j :: 0 <= j < k ==> !IsDigit(s[1..][j]);
        forall j | 0 <= j < k + 1 ensures !IsDigit(s[j]) {
          if j > 0 { assert s[j] == s[1..][j - 1]; }
        }
        assert s[k + 1] == s[1..][k];
      } else {
        forall i | 0 <= i < |s[1..]| ensures !IsDigit(s[1..][i]) { assert s[1..][i] == s[i + 1]; }
      }
    } else if s != [] {
      assert s[0] == DigitChar(FirstDigit(s).value);
    }
  }

  /** The rating of a review: read only from a truthy label. */
  function Rating(ariaLabel: Option<string>): Option<int> {
    if Truthy(ariaLabel) then FirstDigit(ariaLabel.value) else None
  }

  /** The book page URL: a relative link is resolved against the site. */
  function FullUrl(href: string): string {
    if StartsWith(href, "http") then href else "https://www.goodreads.com" + href
  }

  /** The text a review contributes, if its trimmed text is longer than 100. */
  function ReviewDoc(r: Review, url: string): Option<Doc> {
    var text := FirstWhere(r.texts, LongEnough, "");
    if |Trim(text)| > 100 then Some(Doc(Trim(text), url, Rating(r.ratingLabel))) else None
  }

  function ReviewDocs(reviews: seq<Review>, url: string): seq<Doc>
    decreases |reviews|
  {
    if reviews == [] then []
    else
      var d := ReviewDoc(reviews[|reviews| - 1], url);
      ReviewDocs(reviews[..|reviews| - 1], url) + (if d.Some? then [d.value] else [])
  }

  function Header(title: string): string {
    "[Goodreads page content for " + title + "]\n"
  }

  /** `bodyText.replace(/\s+/g, ' ').trim().slice(0, 3000)` */
  function Cleaned(body: string): string {
    Take(Trim(CollapseSpaces(body)), 3000)
  }

  /** The raw-page fallback: the page text, cleaned, under a header, when it is longer than 500. */
  function Fallback(title: string, mainText: Option<string>, url: string): seq<Doc> {
    if mainText.Some? && |mainText.value| > 500 then [Doc(Header(title) + Cleaned(mainText.value), url, None)] else []
  }

  /**
   * The texts `scrapeGoodreads` chunks: none without a page or a book link;
   * otherwise the qualifying reviews among the first 12 elements of the first
   * review selector that matched, or, when none qualifies, the fallback.
   */
  function GoodreadsDocs(title: string, page: Option<Page>): seq<Doc> {
    if page.None? then []
    else
      var href := FirstWhere(page.value.hrefs, Truthy, None);
      if !Truthy(href) then []
      else
        var url := FullUrl(href.value);
        var reviews := ReviewDocs(Take(FirstWhere(page.value.reviewLists, NonEmpty, []), MAX_REVIEWS), url);
        if reviews != [] then reviews else Fallback(title, page.value.mainText, url)
  }

  /** Every review doc is a trimmed text longer than 100, with a rating from 0 to 9 if any. */
  lemma {:induction false} ReviewDocsFacts(reviews: seq<Review>, url: string)
    ensures |ReviewDocs(reviews, url)| <= |reviews|
    ensures forall d :: d in ReviewDocs(reviews, url) ==>
              |d.text| > 100 && Trim(d.text) == d.text && d.sourceUrl == url &&
              (d.rating.Some? ==> 0 <= d.rating.value <= 9)
    decreases |reviews|
  {
    if reviews != [] {
      var r := reviews[|reviews| - 1];
      ReviewDocsFacts(reviews[..|reviews| - 1], url);
      var text := FirstWhere(r.texts, LongEnough, "");
      if |Trim(text)| > 100 {
        TrimIdentity(Trim(text));
        if Truthy(r.ratingLabel) {
          FirstDigitFacts(r.ratingLabel.value);
        }
      }
    }
  }

  /** The cleaned page text is at most 3000 characters, and its only whitespace is plain spaces. */
  lemma CleanedFacts(body: string)
    ensures |Cleaned(body)| <= 3000
    ensures forall i :: 0 <= i < |Cleaned(body)| && IsSpace(Cleaned(body)[i]) ==> Cleaned(body)[i] == ' '
  {
    var s := CollapseSpaces(body);
    TrimSpaces(s);
    assert forall i :: 0 <= i < |Cleaned(body)| ==> Cleaned(body)[i] == Trim(s)[i];
  }

  /** Trimming keeps the rule that every whitespace character is a plain space. */
  lemma TrimSpaces(s: string)
    requires forall i :: 0 <= i < |s| && IsSpace(s[i]) ==> s[i] == ' '
    ensures forall i :: 0 <= i < |Trim(s)| && IsSpace(Trim(s)[i]) ==> Trim(s)[i] == ' '
  {
    TrimStartDrops(s);
    TrimEndDrops(TrimStart(s));
    var a := TrimStart(s);
    forall i | 0 <= i < |Trim(s)| ensures Trim(s)[i] == s[|s| - |a| + i] {
      assert Trim(s)[i] == a[i];
    }
  }

  /**
   * At most 12 texts are chunked; they are either trimmed review texts
   * longer than 100, with ratings from 0 to 9, or the one fallback text
   * without a rating.
   */
  lemma GoodreadsDocsFacts(title: string, page: Option<Page>)
    ensures |GoodreadsDocs(title, page)| <= MAX_REVIEWS
    ensures forall d :: d in GoodreadsDocs(title, page) ==> d.rating.Some? ==> 0 <= d.rating.value <= 9
    ensures || (forall d :: d in GoodreadsDocs(title, page) ==> |d.text| > 100 && Trim(d.text) == d.text)
            || (&& page.Some? && page.value.mainText.Some? && |page.value.mainText.value| > 500
                && |GoodreadsDocs(title, page)| == 1 && GoodreadsDocs(title, page)[0].rating == None
                && GoodreadsDocs(title, page)[0].text == Header(title) + Cleaned(page.value.mainText.value))
  {
    if page.Some? {
      var href := FirstWhere(page.value.hrefs, Truthy, None);
      if Truthy(href) {
        var url := FullUrl(href.value);
        var els := Take(FirstWhere(page.value.reviewLists, NonEmpty, []), MAX_REVIEWS);
        ReviewDocsFacts(els, url);
      }
    }
  }

  /**
   * The chunks `scrapeGoodreads` returns all carry the source `Goodreads`,
   * the type `reader_review` and consecutive ids, and a rating from 0 to 9
   * if any.
   */
  lemma GoodreadsFacts(title: string, page: Option<Page>, newId: nat -> string, base: nat)
    ensures Stamped(ChunkDocs(GoodreadsDocs(title, page), ChunkContents, SOURCE, ReaderReview, newId, base),
                    SOURCE, ReaderReview, newId, base)
    ensures forall c :: c in ChunkDocs(GoodreadsDocs(title, page), ChunkContents, SOURCE, ReaderReview, newId, base) ==>
              c.rating.Some? ==> 0 <= c.rating.value <= 9
  {
    var docs := GoodreadsDocs(title, page);
    ChunkDocsStamps(docs, ChunkContents, SOURCE, ReaderReview, newId, base);
    ChunkDocsOrigin(docs, ChunkContents, SOURCE, ReaderReview, newId, base);
    GoodreadsDocsFacts(title, page);
  }

  lemma ReviewDocsNext(reviews: seq<Review>, k: nat, url: string)
    requires k < |reviews|
    ensures ReviewDocs(reviews[..k + 1], url) ==
            ReviewDocs(reviews[..k], url) + (if ReviewDoc(reviews[k], url).Some? then [ReviewDoc(reviews[k], url).value] else [])
  {
    assert reviews[..k + 1][..k] == reviews[..k];
  }

  /**
   * The review loop: each of the first reviews whose text qualifies pushes
   * its chunks; ids count on from `base`.
   */
  method ChunkReviews(reviews: seq<Review>, url: string, newId: nat -> string, base: nat)
    returns (chunks: seq<Chunk>)
    ensures chunks == ChunkDocs(ReviewDocs(reviews, url), ChunkContents, SOURCE, ReaderReview, newId, base)
  {
    chunks := [];
    ghost var docs: seq<Doc> := [];
    var k := 0;
    while k < |reviews|
      invariant 0 <= k <= |reviews|
      invariant docs == ReviewDocs(reviews[..k], url)
      invariant chunks == ChunkDocs(docs, ChunkContents, SOURCE, ReaderReview, newId, base)
    {
      var review := reviews[k];
      var text := FindFirst(review.texts, LongEnough, "");
      var rating := Rating(review.ratingLabel);
      ReviewStep(reviews, k, url, text, rating);
      if |Trim(text)| > 100 {
        var doc := Doc(Trim(text), url, rating);
        var part := ChunkText(doc.text, SOURCE, doc.sourceUrl, ReaderReview, doc.rating, newId, base + |chunks|);
        PushChunks(docs, doc, chunks, part, ChunkContents, SOURCE, ReaderReview, newId, base);
        chunks := chunks + part;
        docs := docs + [doc];
      }
      k := k + 1;
    }
    assert reviews[..k] == reviews;
  }

  /** No chunk comes out of the review loop exactly when no review qualifies. */
  lemma ReviewChunksEmpty(reviews: seq<Review>, url: string, newId: nat -> string, base: nat)
    ensures ChunkDocs(ReviewDocs(reviews, url), ChunkContents, SOURCE, ReaderReview, newId, base) == [] <==>
            ReviewDocs(reviews, url) == []
  {
    var docs := ReviewDocs(reviews, url);
    ReviewDocsFacts(reviews, url);
    forall d | d in docs ensures ChunkContents(d.text) != [] {
      NonBlankTrimmed(d.text);
      NonBlankChunks(d.text);
    }
    ChunkDocsEmpty(docs, ChunkContents, SOURCE, ReaderReview, newId, base);
  }

  /** One more review adds its doc exactly when its trimmed text is longer than 100. */
  lemma ReviewStep(reviews: seq<Review>, k: nat, url: string, text: string, rating: Option<int>)
    requires k < |reviews|
    requires text == FirstWhere(reviews[k].texts, LongEnough, "") && rating == Rating(reviews[k].ratingLabel)
    ensures |Trim(text)| <= 100 ==> ReviewDocs(reviews[..k + 1], url) == ReviewDocs(reviews[..k], url)
    ensures |Trim(text)| > 100 ==>
              ReviewDocs(reviews[..k + 1], url) == ReviewDocs(reviews[..k], url) + [Doc(Trim(text), url, rating)] &&
              |Trim(text)| > 100 && Trim(Trim(text)) == Trim(text)
  {
    ReviewDocsNext(reviews, k, url);
    if |Trim(text)| > 100 {
      assert ReviewDoc(reviews[k], url) == Some(Doc(Trim(text), url, rating));
      TrimIdentity(Trim(text));
    } else {
      assert ReviewDoc(reviews[k], url) == None;
    }
  }

  /**
   * `scrapeGoodreads(title, author)` after the browser steps: the selector
   * loops, the review loop, and the fallback when no chunk was pushed. Ids
   * are `newId(base)`, `newId(base + 1)`, …
   */
  method ScrapeGoodreads(title: string, page: Option<Page>, newId: nat -> string, base: nat)
    returns (chunks: seq<Chunk>)
    ensures chunks == ChunkDocs(GoodreadsDocs(title, page), ChunkContents, SOURCE, ReaderReview, newId, base)
  {
    if page.None? {
      return [];
    }
    var p := page.value;
    var bookUrl := FindFirst(p.hrefs, Truthy, None);
    if !Truthy(bookUrl) {
      return [];
    }
    var fullBookUrl := FullUrl(bookUrl.value);
    var reviewEls := FindFirst(p.reviewLists, NonEmpty, []);
    chunks := ChunkReviews(Take(reviewEls, MAX_REVIEWS), fullBookUrl, newId, base);
    ReviewChunksEmpty(Take(reviewEls, MAX_REVIEWS), fullBookUrl, newId, base);
    if |chunks| == 0 {
      var bodyText := p.mainText;
      if bodyText.Some? && |bodyText.value| > 500 {
        var cleaned := Take(Trim(CollapseSpaces(bodyText.value)), 3000);
        var doc := Doc(Header(title) + cleaned, fullBookUrl, None);
        chunks := ChunkText(doc.text, SOURCE, doc.sourceUrl, ReaderReview, doc.rating, newId, base);
        PushChunks([], doc, [], chunks, ChunkContents, SOURCE, ReaderReview, newId, base);
        assert [] + [doc] == [doc];
      }
    }
  }

  /** A text trimmed to more than 100 characters is not all whitespace. */
  lemma NonBlankTrimmed(text: string)
    requires |text| > 100 && Trim(text) == text
    ensures !IsBlank(text)
  {
  }
}
