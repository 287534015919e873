/**
 * The Guardian scraper (lib/scrapers/guardian.ts): the first four results of
 * a books-section search, each article's standfirst and body joined, and the
 * `critic_review` chunks of every article whose joined text is long enough.
 * The search is given as its parsed results; `None` stands for a request
 * that failed or an answer without results, both of which yield no chunk.
 */
module Guardian {
  import opened Wrappers
  import opened Strings
  import opened Seqs
  import opened Types
  import opened Chunker
  import opened Scraped

  const SOURCE: string := "The Guardian"
  const MAX_ARTICLES: nat := 4

  /** A search result; either field may be absent. */
  datatype Article = Article(webTitle: string, webUrl: string, bodyText: Option<string>, standfirst: Option<string>)

  function Articles(results: Option<seq<Article>>): seq<Article> {
    if results.Some? then results.value else []
  }

  /** `field ?? ''` */
  function OrEmpty(s: Option<string>): string {
    if s.Some? then s.value else ""
  }

  predicate NonEmpty(s: string) {
    s != ""
  }

  /** `[standfirst, body].filter(Boolean).join('\n\n')` */
  function Combined(a: Article): string {
    Join(Filter([OrEmpty(a.standfirst), OrEmpty(a.bodyText)], NonEmpty), "\n\n")
  }

  /**
   * The header the source writes before the text: "The Guardian" and an em
   * dash whose UTF-8 bytes were read as Windows-1252, giving the three
   * characters U+00E2 U+20AC U+201D.
   */
  function Header(a: Article): string {
    "[The Guardian \U{00E2}\U{20AC}\U{201D} " + a.webTitle + "]\n"
  }

  /** The text an article contributes, if its joined text is longer than 100. */
  function ArticleDoc(a: Article): Option<Doc> {
    var combined := Combined(a);
    if |combined| > 100 then Some(Doc(Header(a) + combined, a.webUrl, None)) else None
  }

  function ArticleDocs(articles: seq<Article>): seq<Doc>
    decreases |articles|
  {
    if articles == [] then []
    else
      var d := ArticleDoc(articles[|articles| - 1]);
      ArticleDocs(articles[..|articles| - 1]) + (if d.Some? then [d.value] else [])
  }

  /** The texts `scrapeGuardian` chunks: those of the first four articles that qualify. */
  function GuardianDocs(results: Option<seq<Article>>): seq<Doc> {
    ArticleDocs(Take(Articles(results), MAX_ARTICLES))
  }

  /**
   * The joined text is the standfirst and the body separated by a blank
   * line, or whichever of them is non-empty alone, or nothing.
   */
  lemma CombinedCases(a: Article)
    ensures var sf, body := OrEmpty(a.standfirst), OrEmpty(a.bodyText);
            Combined(a) == if sf != "" && body != "" then sf + "\n\n" + body
                           else if sf != "" then sf
                           else body
  {
    var sf, body := OrEmpty(a.standfirst), OrEmpty(a.bodyText);
    var parts := Filter([sf, body], NonEmpty);
    assert [sf, body][1..] == [body];
    assert [body][1..] == [];
    assert Filter([body], NonEmpty) == (if body != "" then [body] else []) + Filter([], NonEmpty);
    assert parts == (if sf != "" then [sf] else []) + Filter([body], NonEmpty);
    if sf != "" && body != "" {
      assert parts == [sf, body];
      assert parts[1..] == [body];
      assert Join(parts, "\n\n") == sf + "\n\n" + Join([body], "\n\n");
    } else if sf != "" {
      assert parts == [sf];
    } else if body != "" {
      assert parts == [body];
    } else {
      assert parts == [];
    }
  }

  /** Every article text is its header followed by a joined text longer than 100, links to its article, and has no rating. */
  lemma {:induction false} ArticleDocsFacts(articles: seq<Article>)
    ensures |ArticleDocs(articles)| <= |articles|
    ensures forall d :: d in ArticleDocs(articles) ==>
              d.rating == None &&
              exists a :: a in articles && d.sourceUrl == a.webUrl && d.text == Header(a) + Combined(a) && |Combined(a)| > 100
    decreases |articles|
  {
    if articles != [] {
      var pre := articles[..|articles| - 1];
      var a := articles[|articles| - 1];
      ArticleDocsFacts(pre);
      forall d | d in ArticleDocs(articles)
        ensures d.rating == None &&
                exists a :: a in articles && d.sourceUrl == a.webUrl && d.text == Header(a) + Combined(a) && |Combined(a)| > 100
      {
        if d in ArticleDocs(pre) {
          var e :| e in pre && d.sourceUrl == e.webUrl && d.text == Header(e) + Combined(e) && |Combined(e)| > 100;
          assert e in articles;
        } else {
          assert d == ArticleDoc(a).value;
        }
      }
    }
  }

  /**
   * The chunks `scrapeGuardian` returns carry the source `The Guardian`, the
   * type `critic_review`, consecutive ids and no rating, each links to one
   * of the first four articles, and at most four texts are chunked.
   */
  lemma GuardianFacts(results: Option<seq<Article>>, newId: nat -> string, base: nat)
    ensures Stamped(ChunkDocs(GuardianDocs(results), ChunkContents, SOURCE, CriticReview, newId, base),
                    SOURCE, CriticReview, newId, base)
    ensures forall c :: c in ChunkDocs(GuardianDocs(results), ChunkContents, SOURCE, CriticReview, newId, base) ==>
              c.rating == None && exists a :: a in Take(Articles(results), MAX_ARTICLES) && c.sourceUrl == Some(a.webUrl)
    ensures |GuardianDocs(results)| <= MAX_ARTICLES
  {
    var docs := GuardianDocs(results);
    var first := Take(Articles(results), MAX_ARTICLES);
    ChunkDocsStamps(docs, ChunkContents, SOURCE, CriticReview, newId, base);
    ChunkDocsOrigin(docs, ChunkContents, SOURCE, CriticReview, newId, base);
    ArticleDocsFacts(first);
    forall c | c in ChunkDocs(docs, ChunkContents, SOURCE, CriticReview, newId, base)
      ensures c.rating == None && exists a :: a in first && c.sourceUrl == Some(a.webUrl)
    {
      var e :| e in docs && c.sourceUrl == Some(e.sourceUrl) && c.rating == e.rating;
      var a :| a in first && e.sourceUrl == a.webUrl && e.text == Header(a) + Combined(a) && |Combined(a)| > 100;
    }
  }

  lemma ArticleDocsNext(articles: seq<Article>, k: nat)
    requires k < |articles|
    ensures ArticleDocs(articles[..k + 1]) ==
            ArticleDocs(articles[..k]) + (if ArticleDoc(articles[k]).Some? then [ArticleDoc(articles[k]).value] else [])
  {
    assert articles[..k + 1][..k] == articles[..k];
  }

  /**
   * `scrapeGuardian(title, author)` after the search: the article loop,
   * pushing the chunks of each article that qualifies. Ids are
   * `newId(base)`, `newId(base + 1)`, …
   */
  method ScrapeGuardian(results: Option<seq<Article>>, newId: nat -> string, base: nat) returns (chunks: seq<Chunk>)
    ensures chunks == ChunkDocs(GuardianDocs(results), ChunkContents, SOURCE, CriticReview, newId, base)
  {
    var articles := Take(Articles(results), MAX_ARTICLES);
    chunks := [];
    ghost var docs: seq<Doc> := [];
    var k := 0;
    while k < |articles|
      invariant 0 <= k <= |articles|
      invariant docs == ArticleDocs(articles[..k])
      invariant chunks == ChunkDocs(docs, ChunkContents, SOURCE, CriticReview, newId, base)
    {
      var article := articles[k];
      var body := OrEmpty(article.bodyText);
      var standfirst := OrEmpty(article.standfirst);
      var combined := Join(Filter([standfirst, body], NonEmpty), "\n\n");
      ArticleDocsNext(articles, k);
      if |combined| > 100 {
        var doc := Doc(Header(article) + combined, article.webUrl, None);
        var part := ChunkText(doc.text, SOURCE, doc.sourceUrl, CriticReview, doc.rating, newId, base + |chunks|);
        PushChunks(docs, doc, chunks, part, ChunkContents, SOURCE, CriticReview, newId, base);
        chunks := chunks + part;
        docs := docs + [doc];
      }
      k := k + 1;
    }
    assert articles[..k] == articles;
  }
}
