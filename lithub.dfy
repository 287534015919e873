/**
 * The Literary Hub scraper (lib/scrapers/lithub.ts): the article links of the
 * search page, the first two articles, and the `critic_review` chunks of each
 * article whose long paragraphs add up to enough text. The HTML parser is not
 * modelled: the search page is given as the `href` of each matched anchor,
 * and each article page as its first heading and its paragraph texts; a
 * fetch that failed or returned an empty page is `None`.
 */
module LitHub {
  import opened Wrappers
  import opened Strings
  import opened Seqs
  import opened Types
  import opened Chunker
  import opened Scraped

  const SOURCE: string := "Literary Hub"
  const MAX_ARTICLES: nat := 2

  /** An article page: the text of its first `h1` ("" when it has none) and the text of each matched paragraph. */
  datatype ArticlePage = ArticlePage(heading: string, paragraphs: seq<string>)

  /** A link worth following: present, non-empty and on lithub.com. */
  predicate LinkOk(href: Option<string>) {
    href.Some? && href.value != "" && Contains(href.value, "lithub.com")
  }

  /** The links collected from the search page, each kept at its first occurrence. */
  function Links(hrefs: seq<Option<string>>): seq<string>
    decreases |hrefs|
  {
    if hrefs == [] then []
    else
      var pre := Links(hrefs[..|hrefs| - 1]);
      var h := hrefs[|hrefs| - 1];
      if LinkOk(h) && h.value !in pre then pre + [h.value] else pre
  }

  /** A paragraph is kept when its trimmed text is longer than 50. */
  predicate KeepParagraph(p: string) {
    |Trim(p)| > 50
  }

  /** The body the paragraph loop accumulates: each kept paragraph, trimmed, followed by a space. */
  function BodyText(ps: seq<string>): string
    decreases |ps|
  {
    if ps == [] then ""
    else
      var p := ps[|ps| - 1];
      BodyText(ps[..|ps| - 1]) + (if KeepParagraph(p) then Trim(p) + " " else "")
  }

  function Header(heading: string): string {
    "[Literary Hub — " + Trim(heading) + "]\n"
  }

  /** The text an article page contributes, if its body is longer than 200. */
  function ArticleDoc(link: string, page: Option<ArticlePage>): Option<Doc> {
    if page.None? then None
    else
      var body := BodyText(page.value.paragraphs);
      if |body| > 200 then Some(Doc(Header(page.value.heading) + Trim(body), link, None)) else None
  }

  function ArticleDocs(links: seq<string>, fetch: string -> Option<ArticlePage>): seq<Doc>
    decreases |links|
  {
    if links == [] then []
    else
      var link := links[|links| - 1];
      var d := ArticleDoc(link, fetch(link));
      ArticleDocs(links[..|links| - 1], fetch) + (if d.Some? then [d.value] else [])
  }

  /** The texts `scrapeLitHub` chunks: those of the first two linked articles that qualify. */
  function LitHubDocs(search: Option<seq<Option<string>>>, fetch: string -> Option<ArticlePage>): seq<Doc> {
    if search.None? then [] else ArticleDocs(Take(Links(search.value), MAX_ARTICLES), fetch)
  }

  /**
   * The collected links are distinct, all on lithub.com, all taken from the
   * page, and every qualifying `href` of the page is among them.
   */
  lemma {:induction false} LinksFacts(hrefs: seq<Option<string>>)
    ensures NoDup(Links(hrefs))
    ensures forall l :: l in Links(hrefs) ==> Contains(l, "lithub.com") && Some(l) in hrefs
    ensures forall i :: 0 <= i < |hrefs| && LinkOk(hrefs[i]) ==> hrefs[i].value in Links(hrefs)
    decreases |hrefs|
  {
    if hrefs != [] {
      var pre := hrefs[..|hrefs| - 1];
      var h := hrefs[|hrefs| - 1];
      var ls := Links(pre);
      LinksFacts(pre);
      if LinkOk(h) && h.value !in ls {
        NoDupAppend(ls, [h.value]);
      }
      forall l | l in Links(hrefs) ensures Some(l) in hrefs {
        if l in ls {
          assert Some(l) in pre;
        }
      }
      forall i | 0 <= i < |hrefs| && LinkOk(hrefs[i]) ensures hrefs[i].value in Links(hrefs) {
        if i < |pre| {
          assert hrefs[i] == pre[i];
        }
      }
    }
  }

  /** The position of the first `href` equal to `l`, or the length when there is none. */
  function FirstHref(hrefs: seq<Option<string>>, l: string): (a: nat)
    ensures a <= |hrefs|
    ensures a < |hrefs| <==> Some(l) in hrefs
    ensures a < |hrefs| ==> hrefs[a] == Some(l)
    ensures forall k :: 0 <= k < a ==> hrefs[k] != Some(l)
    decreases |hrefs|
  {
    if hrefs == [] then 0
    else if hrefs[0] == Some(l) then 0
    else 1 + FirstHref(hrefs[1..], l)
  }

  /** Appending an `href` leaves the first position of a link already on the page unchanged. */
  lemma FirstHrefSnoc(hrefs: seq<Option<string>>, h: Option<string>, l: string)
    requires Some(l) in hrefs
    ensures FirstHref(hrefs + [h], l) == FirstHref(hrefs, l)
  {
    var a := FirstHref(hrefs, l);
    var b := FirstHref(hrefs + [h], l);
    assert (hrefs + [h])[a] == Some(l);
    assert forall k :: 0 <= k < a ==> (hrefs + [h])[k] == hrefs[k];
  }

  /** A qualifying link not yet collected does not occur earlier on the page. */
  lemma NewLinkAbsent(hrefs: seq<Option<string>>, h: Option<string>)
    requires LinkOk(h) && h.value !in Links(hrefs)
    ensures Some(h.value) !in hrefs
  {
    LinksFacts(hrefs);
    forall k | 0 <= k < |hrefs| ensures hrefs[k] != Some(h.value) {
      if LinkOk(hrefs[k]) {
        assert hrefs[k].value in Links(hrefs);
      }
    }
  }

  /** Each link occurs on the page, and a link listed earlier first occurs earlier. */
  predicate InPageOrder(links: seq<string>, hrefs: seq<Option<string>>) {
    forall i, j :: 0 <= i < j < |links| ==> FirstHref(hrefs, links[i]) < FirstHref(hrefs, links[j]) < |hrefs|
  }

  /** Appending an `href` keeps the order of links already on the page. */
  lemma InPageOrderSnoc(links: seq<string>, hrefs: seq<Option<string>>, h: Option<string>)
    requires InPageOrder(links, hrefs)
    requires forall l :: l in links ==> Some(l) in hrefs
    ensures InPageOrder(links, hrefs + [h])
    ensures forall l :: l in links ==> FirstHref(hrefs + [h], l) < |hrefs|
  {
    forall l | l in links ensures FirstHref(hrefs + [h], l) == FirstHref(hrefs, l) < |hrefs| {
      FirstHrefSnoc(hrefs, h, l);
    }
    forall i, j | 0 <= i < j < |links|
      ensures FirstHref(hrefs + [h], links[i]) < FirstHref(hrefs + [h], links[j]) < |hrefs + [h]|
    {
      assert links[i] in links && links[j] in links;
    }
  }

  /** A link first occurring after all listed ones may be appended. */
  lemma InPageOrderAppend(links: seq<string>, hrefs: seq<Option<string>>, v: string)
    requires InPageOrder(links, hrefs)
    requires forall l :: l in links ==> FirstHref(hrefs, l) < |hrefs| - 1
    requires FirstHref(hrefs, v) == |hrefs| - 1
    ensures InPageOrder(links + [v], hrefs)
  {
    var r := links + [v];
    forall i, j | 0 <= i < j < |r| ensures FirstHref(hrefs, r[i]) < FirstHref(hrefs, r[j]) < |hrefs| {
      assert r[i] == links[i] && links[i] in links;
      if j < |links| {
        assert r[j] == links[j];
      }
    }
  }

  /**
   * The links keep document order: a link collected earlier first occurs
   * earlier on the page, which decides the two articles followed.
   */
  lemma {:induction false} LinksOrder(hrefs: seq<Option<string>>)
    ensures InPageOrder(Links(hrefs), hrefs)
    decreases |hrefs|
  {
    if hrefs != [] {
      var pre := hrefs[..|hrefs| - 1];
      var h := hrefs[|hrefs| - 1];
      var ls := Links(pre);
      assert hrefs == pre + [h];
      LinksOrder(pre);
      LinksFacts(pre);
      InPageOrderSnoc(ls, pre, h);
      if LinkOk(h) && h.value !in ls {
        NewLinkAbsent(pre, h);
        assert FirstHref(hrefs, h.value) == |pre|;
        InPageOrderAppend(ls, hrefs, h.value);
        assert Links(hrefs) == ls + [h.value];
      } else {
        assert Links(hrefs) == ls;
      }
    }
  }

  /** The body is empty exactly when no paragraph is kept, and contains every kept paragraph, trimmed. */
  lemma {:induction false} BodyTextFacts(ps: seq<string>)
    ensures BodyText(ps) == "" <==> forall k :: 0 <= k < |ps| ==> !KeepParagraph(ps[k])
    ensures forall k :: 0 <= k < |ps| && KeepParagraph(ps[k]) ==> Contains(BodyText(ps), Trim(ps[k]))
    decreases |ps|
  {
    if ps != [] {
      var pre := ps[..|ps| - 1];
      var p := ps[|ps| - 1];
      var tail := if KeepParagraph(p) then Trim(p) + " " else "";
      BodyTextFacts(pre);
      assert forall k :: 0 <= k < |pre| ==> pre[k] == ps[k];
      forall k | 0 <= k < |ps| && KeepParagraph(ps[k]) ensures Contains(BodyText(ps), Trim(ps[k])) {
        if k < |pre| {
          ContainsExtend(BodyText(pre), tail, Trim(ps[k]));
        } else {
          PrefixContains(Trim(p), " ");
          SuffixContains(BodyText(pre), tail, Trim(p));
        }
      }
    }
  }

  /** Every article text is headed by its page's heading and links to one of the followed links. */
  lemma {:induction false} ArticleDocsFacts(links: seq<string>, fetch: string -> Option<ArticlePage>)
    ensures |ArticleDocs(links, fetch)| <= |links|
    ensures forall d :: d in ArticleDocs(links, fetch) ==>
              d.rating == None && d.sourceUrl in links && fetch(d.sourceUrl).Some? &&
              StartsWith(d.text, Header(fetch(d.sourceUrl).value.heading))
    decreases |links|
  {
    if links != [] {
      var pre := links[..|links| - 1];
      ArticleDocsFacts(pre, fetch);
      forall d | d in ArticleDocs(links, fetch) ensures d.sourceUrl in links {
        if d in ArticleDocs(pre, fetch) {
          assert d.sourceUrl in pre;
        }
      }
    }
  }

  /**
   * The chunks `scrapeLitHub` returns carry the source `Literary Hub`, the
   * type `critic_review`, consecutive ids and no rating; each links to one
   * of the first two distinct lithub.com links of the search page, and at
   * most two texts are chunked.
   */
  lemma LitHubFacts(search: Option<seq<Option<string>>>, fetch: string -> Option<ArticlePage>, newId: nat -> string, base: nat)
    ensures Stamped(ChunkDocs(LitHubDocs(search, fetch), ChunkContents, SOURCE, CriticReview, newId, base),
                    SOURCE, CriticReview, newId, base)
    ensures forall c :: c in ChunkDocs(LitHubDocs(search, fetch), ChunkContents, SOURCE, CriticReview, newId, base) ==>
              c.rating == None && search.Some? &&
              exists l :: l in Take(Links(search.value), MAX_ARTICLES) && c.sourceUrl == Some(l) && Contains(l, "lithub.com")
    ensures |LitHubDocs(search, fetch)| <= MAX_ARTICLES
  {
    var docs := LitHubDocs(search, fetch);
    ChunkDocsStamps(docs, ChunkContents, SOURCE, CriticReview, newId, base);
    ChunkDocsOrigin(docs, ChunkContents, SOURCE, CriticReview, newId, base);
    if search.Some? {
      var first := Take(Links(search.value), MAX_ARTICLES);
      ArticleDocsFacts(first, fetch);
      LinksFacts(search.value);
      forall c | c in ChunkDocs(docs, ChunkContents, SOURCE, CriticReview, newId, base)
        ensures c.rating == None && exists l :: l in first && c.sourceUrl == Some(l) && Contains(l, "lithub.com")
      {
        var e :| e in docs && c.sourceUrl == Some(e.sourceUrl) && c.rating == e.rating;
        assert e.sourceUrl in Links(search.value);
      }
    }
  }

  lemma LinksNext(hrefs: seq<Option<string>>, i: nat)
    requires i < |hrefs|
    ensures Links(hrefs[..i + 1]) ==
            if LinkOk(hrefs[i]) && hrefs[i].value !in Links(hrefs[..i]) then Links(hrefs[..i]) + [hrefs[i].value]
            else Links(hrefs[..i])
  {
    assert hrefs[..i + 1][..i] == hrefs[..i];
  }

  /** The `.each` callback over the search page's anchors. */
  method CollectLinks(hrefs: seq<Option<string>>) returns (links: seq<string>)
    ensures links == Links(hrefs)
  {
    links := [];
    var i := 0;
    while i < |hrefs|
      invariant 0 <= i <= |hrefs|
      invariant links == Links(hrefs[..i])
    {
      var href := hrefs[i];
      LinksNext(hrefs, i);
      if href.Some? && href.value != "" && Contains(href.value, "lithub.com") && href.value !in links {
        links := links + [href.value];
      }
      i := i + 1;
    }
    assert hrefs[..i] == hrefs;
  }

  lemma BodyTextNext(ps: seq<string>, i: nat)
    requires i < |ps|
    ensures BodyText(ps[..i + 1]) == BodyText(ps[..i]) + (if KeepParagraph(ps[i]) then Trim(ps[i]) + " " else "")
  {
    assert ps[..i + 1][..i] == ps[..i];
  }

  /** The `.each` callback over an article's paragraphs. */
  method AccumulateBody(ps: seq<string>) returns (bodyText: string)
    ensures bodyText == BodyText(ps)
  {
    bodyText := "";
    var i := 0;
    while i < |ps|
      invariant 0 <= i <= |ps|
      invariant bodyText == BodyText(ps[..i])
    {
      var text := Trim(ps[i]);
      BodyTextNext(ps, i);
      if |text| > 50 {
        bodyText := bodyText + text + " ";
      }
      i := i + 1;
    }
    assert ps[..i] == ps;
  }

  lemma ArticleDocsNext(links: seq<string>, k: nat, fetch: string -> Option<ArticlePage>)
    requires k < |links|
    ensures ArticleDocs(links[..k + 1], fetch) ==
            ArticleDocs(links[..k], fetch) +
            (if ArticleDoc(links[k], fetch(links[k])).Some? then [ArticleDoc(links[k], fetch(links[k])).value] else [])
  {
    assert links[..k + 1][..k] == links[..k];
  }

  /** One turn of the article loop: the page's chunks, if its body is long enough, pushed after `chunksIn`. */
  method ChunkArticle(chunksIn: seq<Chunk>, ghost docs: seq<Doc>, link: string, page: Option<ArticlePage>,
                      newId: nat -> string, base: nat) returns (chunks: seq<Chunk>)
    requires chunksIn == ChunkDocs(docs, ChunkContents, SOURCE, CriticReview, newId, base)
    ensures chunks == ChunkDocs(docs + (if ArticleDoc(link, page).Some? then [ArticleDoc(link, page).value] else []),
                                ChunkContents, SOURCE, CriticReview, newId, base)
  {
    chunks := chunksIn;
    if page.Some? {
      var bodyText := AccumulateBody(page.value.paragraphs);
      if |bodyText| > 200 {
        var doc := Doc(Header(page.value.heading) + Trim(bodyText), link, None);
        var part := ChunkText(doc.text, SOURCE, doc.sourceUrl, CriticReview, doc.rating, newId, base + |chunksIn|);
        PushChunks(docs, doc, chunksIn, part, ChunkContents, SOURCE, CriticReview, newId, base);
        return chunksIn + part;
      }
    }
    assert docs + [] == docs;
  }

  /**
   * `scrapeLitHub(title, author)` after the fetches: no chunk without a
   * search page; otherwise the link collection and the loop over the first
   * two links, skipping pages that failed. Ids are `newId(base)`,
   * `newId(base + 1)`, …
   */
  method ScrapeLitHub(search: Option<seq<Option<string>>>, fetch: string -> Option<ArticlePage>, newId: nat -> string,
                      base: nat) returns (chunks: seq<Chunk>)
    ensures chunks == ChunkDocs(LitHubDocs(search, fetch), ChunkContents, SOURCE, CriticReview, newId, base)
  {
    if search.None? {
      return [];
    }
    var articleLinks := CollectLinks(search.value);
    var first := Take(articleLinks, MAX_ARTICLES);
    chunks := [];
    ghost var docs: seq<Doc> := [];
    var k := 0;
    while k < |first|
      invariant 0 <= k <= |first|
      invariant docs == ArticleDocs(first[..k], fetch)
      invariant chunks == ChunkDocs(docs, ChunkContents, SOURCE, CriticReview, newId, base)
    {
      var link := first[k];
      ArticleDocsNext(first, k, fetch);
      chunks := ChunkArticle(chunks, docs, link, fetch(link), newId, base);
      docs := ArticleDocs(first[..k + 1], fetch);
      k := k + 1;
    }
    assert first[..k] == first;
  }
}
