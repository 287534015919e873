/**
 * The ingestion orchestrator (lib/ingest.ts): enrich the metadata, run the
 * four scrapers, gather their chunks and the names of the sources that gave
 * any, pick an ambient quote, ask for the interpretive landscape, store the
 * knowledge pack and report progress. The lookups, the scrapers and the
 * language model are parameters; what the orchestrator does with their
 * results is modelled step by step, progress reports and the store write
 * recorded in one log in the order they happen.
 */
module Ingest {
  import opened Wrappers
  import opened Strings
  import opened Seqs
  import opened Types
  import opened Metadata
  import opened Claude
  import opened Store

  const STEP_DETAILS: string := "Fetching book details"
  const STEP_GOODREADS: string := "Reading Goodreads reviews"
  const STEP_REDDIT: string := "Scanning Reddit discussions"
  const STEP_CRITICS: string := "Loading critical reviews"
  const STEP_BUILD: string := "Building knowledge base"
  const STEP_READY: string := "Ready"
  const QUOTE_LENGTH: nat := 200

  const GOODREADS: string := "Goodreads"
  const REDDIT: string := "Reddit"
  const GUARDIAN: string := "The Guardian"
  const LITHUB: string := "Literary Hub"

  /** What the four scrapers returned, in the order they are awaited. */
  datatype Scraped = Scraped(goodreads: seq<Chunk>, reddit: seq<Chunk>, guardian: seq<Chunk>, lithub: seq<Chunk>)

  /** One observable effect of ingestion: a progress report, or the write to the store. */
  datatype Effect = Progress(event: IngestionEvent) | Write(bookId: string, knowledge: BookKnowledge)

  function Event(step: string, status: Status): IngestionEvent {
    IngestionEvent(step, status, None, None, None)
  }

  /** `goodreadsChunks.find(c => c.type === 'reader_review')` */
  function FirstReview(chunks: seq<Chunk>): Option<Chunk>
    decreases |chunks|
  {
    if chunks == [] then None
    else if chunks[0].ctype == ReaderReview then Some(chunks[0])
    else FirstReview(chunks[1..])
  }

  /** `content.slice(0, 200).trim()` */
  function QuoteOf(c: Chunk): string {
    Trim(Take(c.content, QUOTE_LENGTH))
  }

  /** The quote after the Goodreads step: from its first reader review, if it has one. */
  function GoodreadsQuote(goodreads: seq<Chunk>): Option<string> {
    var first := FirstReview(goodreads);
    if first.Some? then Some(QuoteOf(first.value)) else None
  }

  /** The quote after the Reddit step: Reddit's first chunk replaces a missing or empty one. */
  function AmbientQuote(goodreads: seq<Chunk>, reddit: seq<Chunk>): Option<string> {
    var q := GoodreadsQuote(goodreads);
    if |reddit| > 0 && !Truthy(q) then Some(QuoteOf(reddit[0])) else q
  }

  /** The names of the sources that returned chunks, in the fixed order. */
  function Sources(s: Scraped): seq<string> {
    Named(s.goodreads, GOODREADS) + Named(s.reddit, REDDIT) + Named(s.guardian, GUARDIAN) + Named(s.lithub, LITHUB)
  }

  /** `[name]` when the scraper returned chunks, else nothing. */
  function Named(returned: seq<Chunk>, name: string): seq<string> {
    if |returned| > 0 then [name] else []
  }

  function AllChunks(s: Scraped): seq<Chunk> {
    s.goodreads + s.reddit + s.guardian + s.lithub
  }

  /** The terminal report of a scraper step: `done` when it returned chunks, `failed` otherwise. */
  function Terminal(step: string, chunks: seq<Chunk>, quote: Option<string>): IngestionEvent {
    if |chunks| > 0 then IngestionEvent(step, Done, quote, None, None) else Event(step, Failed)
  }

  /** The knowledge pack that is stored. */
  function Knowledge(metadata: BookMetadata, s: Scraped, result: LandscapeResult, now: int): BookKnowledge {
    BookKnowledge(metadata, AllChunks(s), result.landscape, result.questionPrompts, |AllChunks(s)|, now, Sources(s))
  }

  /** The reports before the scrapers return: details loading and done, then the three scraper steps loading. */
  const OPENING: seq<Effect> := [
    Progress(Event(STEP_DETAILS, Loading)),
    Progress(Event(STEP_DETAILS, Done)),
    Progress(Event(STEP_GOODREADS, Loading)),
    Progress(Event(STEP_REDDIT, Loading)),
    Progress(Event(STEP_CRITICS, Loading))]

  /** The terminal reports of the three scraper steps; Literary Hub has none. */
  function Terminals(s: Scraped): seq<Effect> {
    [ Progress(Terminal(STEP_GOODREADS, s.goodreads, GoodreadsQuote(s.goodreads))),
      Progress(Terminal(STEP_REDDIT, s.reddit, None)),
      Progress(Terminal(STEP_CRITICS, s.guardian, None)) ]
  }

  /** Building, the store write, and `Ready` with the quote, landscape and sources. */
  function Closing(metadata: BookMetadata, s: Scraped, result: LandscapeResult, now: int): seq<Effect> {
    [ Progress(Event(STEP_BUILD, Loading)),
      Write(metadata.id, Knowledge(metadata, s, result, now)),
      Progress(IngestionEvent(STEP_READY, Done, AmbientQuote(s.goodreads, s.reddit), Some(result.landscape), Some(Sources(s)))) ]
  }

  /** Everything ingestion does, in order. */
  function Trace(metadata: BookMetadata, s: Scraped, result: LandscapeResult, now: int): seq<Effect> {
    OPENING + Terminals(s) + Closing(metadata, s, result, now)
  }

  /** The position of a source name in the fixed order. */
  function Rank(name: string): int {
    if name == GOODREADS then 0
    else if name == REDDIT then 1
    else if name == GUARDIAN then 2
    else if name == LITHUB then 3
    else 4
  }

  /** The four names are distinct, so each has its own rank. */
  lemma RankOfNames()
    ensures Rank(GOODREADS) == 0 && Rank(REDDIT) == 1 && Rank(GUARDIAN) == 2 && Rank(LITHUB) == 3
  {
    assert GOODREADS[0] == 'G' && REDDIT[0] == 'R' && GUARDIAN[0] == 'T' && LITHUB[0] == 'L';
  }

  /** Source names in strictly increasing rank. */
  predicate Ranked(names: seq<string>) {
    forall i, j :: 0 <= i < j < |names| ==> Rank(names[i]) < Rank(names[j])
  }

  lemma RankedAppend(xs: seq<string>, ys: seq<string>, bound: int)
    requires Ranked(xs) && Ranked(ys)
    requires forall x :: x in xs ==> Rank(x) < bound
    requires forall y :: y in ys ==> Rank(y) >= bound
    ensures Ranked(xs + ys)
  {
    var zs := xs + ys;
    forall i, j | 0 <= i < j < |zs| ensures Rank(zs[i]) < Rank(zs[j]) {
      if j < |xs| {
        assert zs[i] == xs[i] && zs[j] == xs[j];
      } else if i >= |xs| {
        assert zs[i] == ys[i - |xs|] && zs[j] == ys[j - |xs|];
      } else {
        assert zs[i] in xs && zs[j] in ys;
      }
    }
  }

  /** A source is listed exactly when its scraper returned chunks, and at most four are. */
  lemma SourcesMembers(s: Scraped)
    ensures var names := Sources(s);
            (GOODREADS in names <==> |s.goodreads| > 0) &&
            (REDDIT in names <==> |s.reddit| > 0) &&
            (GUARDIAN in names <==> |s.guardian| > 0) &&
            (LITHUB in names <==> |s.lithub| > 0) &&
            |names| <= 4
  {
    RankOfNames();
    var a, b, c, d := Named(s.goodreads, GOODREADS), Named(s.reddit, REDDIT), Named(s.guardian, GUARDIAN), Named(s.lithub, LITHUB);
    assert forall x :: x in a ==> Rank(x) == 0;
    assert forall x :: x in b ==> Rank(x) == 1;
    assert forall x :: x in c ==> Rank(x) == 2;
    assert forall x :: x in d ==> Rank(x) == 3;
  }

  /** The list keeps the fixed order Goodreads, Reddit, The Guardian, Literary Hub, so it names each at most once. */
  lemma SourcesOrder(s: Scraped)
    ensures Ranked(Sources(s))
  {
    RankOfNames();
    var a, b, c, d := Named(s.goodreads, GOODREADS), Named(s.reddit, REDDIT), Named(s.guardian, GUARDIAN), Named(s.lithub, LITHUB);
    assert forall x :: x in a ==> Rank(x) == 0;
    assert forall x :: x in b ==> Rank(x) == 1;
    assert forall x :: x in c ==> Rank(x) == 2;
    assert forall x :: x in d ==> Rank(x) == 3;
    RankedAppend(a, b, 1);
    RankedAppend(a + b, c, 2);
    RankedAppend(a + b + c, d, 3);
  }

  /** `find` gives the first reader review, and none exactly when there is none. */
  lemma {:induction false} FirstReviewFacts(chunks: seq<Chunk>)
    ensures var r := FirstReview(chunks);
            (r.None? <==> forall i :: 0 <= i < |chunks| ==> chunks[i].ctype != ReaderReview) &&
            (r.Some? ==> exists i :: 0 <= i < |chunks| && chunks[i] == r.value && r.value.ctype == ReaderReview &&
                                     forall j :: 0 <= j < i ==> chunks[j].ctype != ReaderReview)
    decreases |chunks|
  {
    if chunks != [] && chunks[0].ctype != ReaderReview {
      var rest := chunks[1..];
      FirstReviewFacts(rest);
      var r := FirstReview(chunks);
      if r.Some? {
        var i :| 0 <= i < |rest| && rest[i] == r.value && r.value.ctype == ReaderReview &&
                 forall j :: 0 <= j < i ==> rest[j].ctype != ReaderReview;
        assert chunks[i + 1] == r.value;
        forall j | 0 <= j < i + 1 ensures chunks[j].ctype != ReaderReview {
          if j > 0 { assert chunks[j] == rest[j - 1]; }
        }
      } else {
        forall i | 0 <= i < |chunks| ensures chunks[i].ctype != ReaderReview {
          if i > 0 { assert chunks[i] == rest[i - 1]; }
        }
      }
    }
  }

  /**
   * The ambient quote is at most 200 characters. It comes from the first
   * Goodreads reader review when there is one and its quote is non-empty;
   * otherwise from Reddit's first chunk when Reddit returned any; otherwise
   * it is whatever Goodreads gave, possibly nothing. The other two sources
   * never supply it.
   */
  lemma AmbientQuoteFacts(goodreads: seq<Chunk>, reddit: seq<Chunk>)
    ensures var q := AmbientQuote(goodreads, reddit);
            (q.Some? ==> |q.value| <= QUOTE_LENGTH) &&
            (q.Some? ==> (exists c :: c in goodreads && c.ctype == ReaderReview && q.value == QuoteOf(c)) ||
                         (|reddit| > 0 && q.value == QuoteOf(reddit[0]))) &&
            (FirstReview(goodreads).Some? && QuoteOf(FirstReview(goodreads).value) != "" ==>
               q == Some(QuoteOf(FirstReview(goodreads).value))) &&
            ((forall i :: 0 <= i < |goodreads| ==> goodreads[i].ctype != ReaderReview) ==>
               q == if |reddit| > 0 then Some(QuoteOf(reddit[0])) else None)
  {
    FirstReviewFacts(goodreads);
  }

  /**
   * The trace: details loading then done; the three scraper steps loading;
   * their terminal reports in the order Goodreads, Reddit, critics, each
   * `done` exactly when its scraper returned chunks and no other report
   * of those steps being terminal; building; the store write under the
   * book's id; and `Ready` last, with the stored sources and landscape.
   */
  lemma TraceFacts(metadata: BookMetadata, s: Scraped, result: LandscapeResult, now: int)
    ensures var t := Trace(metadata, s, result, now);
            var k := Knowledge(metadata, s, result, now);
            |t| == 11 &&
            t[0] == Progress(Event(STEP_DETAILS, Loading)) && t[1] == Progress(Event(STEP_DETAILS, Done)) &&
            t[2] == Progress(Event(STEP_GOODREADS, Loading)) && t[3] == Progress(Event(STEP_REDDIT, Loading)) &&
            t[4] == Progress(Event(STEP_CRITICS, Loading)) &&
            t[8] == Progress(Event(STEP_BUILD, Loading)) &&
            (t[5].event.status == Done <==> |s.goodreads| > 0) &&
            (t[6].event.status == Done <==> |s.reddit| > 0) &&
            (t[7].event.status == Done <==> |s.guardian| > 0) &&
            (forall i :: 0 <= i < |t| && t[i].Progress? && t[i].event.status in {Done, Failed} ==>
               (t[i].event.step == STEP_GOODREADS <==> i == 5) &&
               (t[i].event.step == STEP_REDDIT <==> i == 6) &&
               (t[i].event.step == STEP_CRITICS <==> i == 7)) &&
            (forall i :: 0 <= i < |t| && t[i].Write? ==> i == 9) &&
            t[9] == Write(metadata.id, k) &&
            t[10].event.step == STEP_READY && t[10].event.status == Done &&
            t[10].event.sources == Some(k.sources) && t[10].event.landscape == Some(k.landscape) &&
            k.chunks == s.goodreads + s.reddit + s.guardian + s.lithub && k.chunkCount == |k.chunks|
  {
  }

  /**
   * The four `if` blocks after the scrapers return: the chunks and source
   * names of every scraper that returned chunks, in order, the ambient
   * quote, and the terminal reports of the three reported steps.
   */
  method Gather(s: Scraped) returns (allChunks: seq<Chunk>, successfulSources: seq<string>,
                                     ambientQuote: Option<string>, reports: seq<Effect>)
    ensures allChunks == AllChunks(s)
    ensures successfulSources == Sources(s)
    ensures ambientQuote == AmbientQuote(s.goodreads, s.reddit)
    ensures reports == Terminals(s)
  {
    allChunks := [];
    successfulSources := [];
    ambientQuote := None;
    reports := [];

    if |s.goodreads| > 0 {
      allChunks := allChunks + s.goodreads;
      successfulSources := successfulSources + [GOODREADS];
      var firstReview := FirstReview(s.goodreads);
      if firstReview.Some? {
        ambientQuote := Some(Trim(Take(firstReview.value.content, QUOTE_LENGTH)));
      }
      reports := reports + [Progress(IngestionEvent(STEP_GOODREADS, Done, ambientQuote, None, None))];
    } else {
      reports := reports + [Progress(Event(STEP_GOODREADS, Failed))];
    }
    assert allChunks == s.goodreads;
    assert successfulSources == Named(s.goodreads, GOODREADS);
    assert ambientQuote == GoodreadsQuote(s.goodreads);
    assert reports == [Progress(Terminal(STEP_GOODREADS, s.goodreads, GoodreadsQuote(s.goodreads)))];

    if |s.reddit| > 0 {
      allChunks := allChunks + s.reddit;
      successfulSources := successfulSources + [REDDIT];
      if !Truthy(ambientQuote) {
        ambientQuote := Some(Trim(Take(s.reddit[0].content, QUOTE_LENGTH)));
      }
      reports := reports + [Progress(Event(STEP_REDDIT, Done))];
    } else {
      reports := reports + [Progress(Event(STEP_REDDIT, Failed))];
      assert s.goodreads + s.reddit == s.goodreads;
    }
    assert allChunks == s.goodreads + s.reddit;
    assert successfulSources == Named(s.goodreads, GOODREADS) + Named(s.reddit, REDDIT);
    assert ambientQuote == AmbientQuote(s.goodreads, s.reddit);

    if |s.guardian| > 0 {
      allChunks := allChunks + s.guardian;
      successfulSources := successfulSources + [GUARDIAN];
      reports := reports + [Progress(Event(STEP_CRITICS, Done))];
    } else {
      reports := reports + [Progress(Event(STEP_CRITICS, Failed))];
      assert s.goodreads + s.reddit + s.guardian == s.goodreads + s.reddit;
    }
    assert allChunks == s.goodreads + s.reddit + s.guardian;
    assert successfulSources == Named(s.goodreads, GOODREADS) + Named(s.reddit, REDDIT) + Named(s.guardian, GUARDIAN);
    assert reports == Terminals(s);

    if |s.lithub| > 0 {
      allChunks := allChunks + s.lithub;
      successfulSources := successfulSources + [LITHUB];
    } else {
      assert AllChunks(s) == s.goodreads + s.reddit + s.guardian;
    }
  }

  /**
   * `ingestBook(partialMetadata, onProgress)`: the enrichment lookups, the
   * scrapers (called with the enriched title and author), the model and the
   * clock are parameters. The pack is written to `store`, and `log` records
   * the progress reports and the write in the order they happen.
   */
  method IngestBook(store: KnowledgeStore, partial: BookMetadata, olLookup: Partial, gbLookup: Partial,
                    scrape: (string, string) -> Scraped, ask: string -> Reply, parse: string -> Option<Parsed>,
                    now: int)
    returns (knowledge: BookKnowledge, log: seq<Effect>)
    modifies store
    ensures var metadata := EnrichMetadata(partial, olLookup, gbLookup);
            var s := scrape(metadata.title, metadata.author);
            var result := GenerateLandscape(metadata, AllChunks(s), ask, parse);
            knowledge == Knowledge(metadata, s, result, now) &&
            log == Trace(metadata, s, result, now) &&
            store.books == old(store.books)[metadata.id := knowledge]
  {
    log := [Progress(Event(STEP_DETAILS, Loading))];
    var metadata := EnrichMetadata(partial, olLookup, gbLookup);
    log := log + [Progress(Event(STEP_DETAILS, Done))];
    log := log + [Progress(Event(STEP_GOODREADS, Loading)), Progress(Event(STEP_REDDIT, Loading)),
                  Progress(Event(STEP_CRITICS, Loading))];
    assert log == OPENING;
    var s := scrape(metadata.title, metadata.author);

    var allChunks, successfulSources, ambientQuote, reports := Gather(s);
    log := log + reports;

    log := log + [Progress(Event(STEP_BUILD, Loading))];
    var result := GenerateLandscape(metadata, allChunks, ask, parse);

    knowledge := BookKnowledge(metadata, allChunks, result.landscape, result.questionPrompts, |allChunks|, now,
                               successfulSources);
    store.SetKnowledge(metadata.id, knowledge);
    log := log + [Write(metadata.id, knowledge)];

    log := log + [Progress(IngestionEvent(STEP_READY, Done, ambientQuote, Some(result.landscape), Some(successfulSources)))];
    assert log == OPENING + reports + Closing(metadata, s, result, now);
  }
}
