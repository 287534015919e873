# afterword: a verified model of the ingestion and retrieval pipeline

afterword is a reading companion for books. A book found by the search
endpoint is ingested first:
- its metadata is enriched from Open Library and Google Books;
- four scrapers (Goodreads, Reddit, The Guardian, Literary Hub) collect
  passages about it and cut them into sentence-aligned chunks;
- a language model sums up the "interpretive landscape";
- the resulting knowledge pack is kept in an in-memory store.

The chat endpoint then answers questions about the book. It retrieves the
chunks most relevant to the message by keyword score, with a type-diverse
selection, and builds the system prompt around them.

This project models that pipeline's deterministic logic in Dafny and proves
what the code promises about it. There is one module per source file, plus
four shared modules:

| module | file | models |
|---|---|---|
| `Wrappers` | wrappers.dfy | `T \| undefined` as `Option<T>` |
| `Types` | types.dfy | the records of `types/index.ts` |
| `Strings` | strings.dfy | the JavaScript string built-ins the code relies on (`trim`, `\s`, ASCII `toLowerCase`, `join`, `replace`, `includes`) |
| `Seqs` | seqs.dfy | `slice(0, n)`, the `seen`-Set filter, `find`, `filter`, `map` and the stable `Array.prototype.sort` |
| `Chunker` | chunker.dfy | `chunkText`, written once and shared by the four scrapers |
| `Scraped` | scraped.dfy | the `chunks.push(...chunkText(...))` step every scraper repeats |
| `Goodreads`, `Reddit`, `Guardian`, `LitHub` | goodreads.dfy, reddit.dfy, guardian.dfy, lithub.dfy | each scraper's work once its pages and JSON are in hand |
| `Metadata` | metadata.dfy | the field derivations of both lookups and the merge in `enrichMetadata` |
| `Retrieval` | retrieval.dfy | `tokenize`, `scoreChunk`, `retrieveChunks`, `ensureDiversity`, `diversitySample` |
| `Claude` | claude.dfy | `buildSystemPrompt`, the message list of `streamChat`, and `generateLandscapeAndPrompts` around the model call |
| `Store` | store.dfy | the knowledge store, as a class over a map |
| `Ingest` | ingest.dfy | `ingestBook`, as a step-by-step method with an exact effect log |
| `SearchRoute`, `ChatRoute` | search_route.dfy, chat_route.dfy | the two HTTP handlers |

Where the code works by changing state step by step, the model is a method
with a loop or with a class field. This covers:
- the chunker's buffer loop;
- the scrapers' push loops;
- the score accumulation, the two passes of `ensureDiversity` and the
  `diversitySample` round-robin;
- the `seen`-Set filters;
- the ingestion sequence;
- the store.

Each such method is proved equal to a specification function of its inputs,
and the lemmas state what the code promises about those functions. The one
exception is the grouping loop of `diversitySample`: it is proved to meet
`Grouped`, a predicate that `GroupedUnique` shows has exactly one solution.

`chunkText` appears four times in the source. The copies in
`lib/scrapers/reddit.ts:8-31`, `lib/scrapers/guardian.ts:8-31` and
`lib/scrapers/lithub.ts:9-32` differ from the Goodreads one
(`lib/scrapers/goodreads.ts:8-31`) only in two ways: they fix `type` to
`community_discussion` or `critic_review`, and they set no rating. So each
copy is `Chunker.ChunkText` called with that type on texts that carry no
rating (`RedditFacts`, `GuardianFacts` and `LitHubFacts` prove every chunk
unrated), which is exactly how `Reddit.ScrapeReddit`, `Guardian.ScrapeGuardian` and
`LitHub.ScrapeLitHub` call it.

Things the model cannot compute are parameters:
- network and browser answers, given as the data they returned;
- the language model, `JSON.parse` and `parseInt`;
- the float normalisation of the score;
- id generation and the clock.

Two behaviours of the code differ from what a reader of its design would
expect. The model follows the code:
- **The chunk size test leaves out the joining space.** A chunk of several
  sentences can reach 1601 characters, not 1600. `Chunker.OffByOneWitness`
  builds such a text.
- **Short text is never split.** Text of at most 1600 characters, the empty
  text included, becomes exactly one chunk holding the text unchanged.

Smaller points where the model also follows the code:
- **Fence stripping.** The fence regex `^```json?\s*` needs the letters
  `jso` after the backticks, so an answer that opens with a bare fence
  keeps it (`Claude.BareFenceKept`).
- **Ambient quote.** An ambient quote that trims to `""` counts as missing,
  so Reddit's first chunk replaces it.
- **Google Books fields.** The synopsis and the categories from Google
  Books are not capped; the Open Library ones are.
- **`ensureDiversity` with top-k 0.** It takes one chunk when anything is
  ranked, because the size check comes after the push. `retrieveChunks`
  never reaches this case.
- **Stored fields.** The stored knowledge pack carries `questionPrompts` and
  `chunkCount`, which ingestion writes although `types/index.ts:29-35` does
  not declare them.

## Model

| member | source | states |
|---|---|---|
| Types.TypeNameInjective | types/index.ts:14-21 | the four chunk type names are pairwise distinct, so a type is recovered from its name |
| Seqs.DedupByKey | lib/scrapers/reddit.ts:94-100 | the `seen`-Set filter loop keeps exactly the first element of every key, in order (equal to `Dedup`) |
| Seqs.DedupFromKeys | app/api/search/route.ts:72-80 | the filter keeps every key of the input not already seen, and no key twice |
| Seqs.DedupFromFirst | app/api/search/route.ts:72-80 | each kept element is the first of the input with its key, and kept elements follow the order of those first occurrences |
| Seqs.DedupFromAppend | app/api/search/route.ts:94 | filtering a concatenation filters the second part with the first part's keys already seen |
| Seqs.SortDescFacts | lib/scrapers/reddit.ts:101 | the comparator sort yields a descending, permuted and stable order: elements with equal keys keep their relative order |
| Seqs.TopNFacts | lib/scrapers/reddit.ts:101-102 | sort-then-slice gives the `n` highest keys, sorted, drawn from the input, outranking everything left out |
| Seqs.FirstWhereFacts | lib/scrapers/goodreads.ts:108-111 | a break-on-success loop yields the first element that passes, or else the last one tried |
| Seqs.FilterFacts | lib/claude.ts:7-12 | a filter keeps exactly the elements that pass, never more often than they occur |
| Chunker.ChunkText | lib/scrapers/goodreads.ts:8-31 | the chunker returns the contents `ChunkContents(text)` in order, stamped with the given source, URL, type and rating and consecutive ids |
| Chunker.ShortText | lib/scrapers/goodreads.ts:12-15 | text of at most 1600 characters, the empty text included, becomes exactly one chunk holding the text unchanged |
| Chunker.PackSentences | lib/scrapers/goodreads.ts:17-30 | the sentence loop plus the final flush emits `Pack(sentences)`; the last buffer is emitted only if it is not blank once trimmed |
| Chunker.PackLoop | lib/scrapers/goodreads.ts:18-26 | the loop flushes only a non-empty buffer that the next sentence would push past 1600 characters; otherwise it appends a space and the sentence |
| Chunker.PushChunk | lib/scrapers/goodreads.ts:21 | a push adds one chunk with the next id, and the earlier chunks stay |
| Chunker.StampIndex | lib/scrapers/goodreads.ts:13 | chunk k carries id `newId(base + k)`, content k, and the given source, URL, type and rating |
| Chunker.SplitFromShape | lib/scrapers/goodreads.ts:17 | the split cuts only after `.`, `!` or `?`: every piece but the last ends with one |
| Chunker.SentencesFacts | lib/scrapers/goodreads.ts:17 | the split drops only whitespace, and no piece but the last is blank |
| Chunker.PackFacts | lib/scrapers/goodreads.ts:17-30 | chunks are trimmed space-joins of consecutive sentence runs, in order; a run of two or more sentences has at most 1601 characters; no chunk is empty; only blank sentences follow the last chunk; all non-whitespace is kept |
| Chunker.LongTextFacts | lib/scrapers/goodreads.ts:12-30 | for text over 1600 characters the chunks cover the sentences in order as consecutive runs, each trimmed and non-empty, with the 1601 bound on multi-sentence chunks |
| Chunker.ChunkCover | lib/scrapers/goodreads.ts:12-30 | every non-whitespace character of the text lands in the chunks, in order, and nothing else does |
| Chunker.NonBlankChunks | lib/scrapers/goodreads.ts:12-30 | a text that is not all whitespace yields at least one chunk |
| Chunker.OffByOne | lib/scrapers/goodreads.ts:20-24 | for any four whitespace-free sentences of lengths 2, 1598, 2 and 2, joined by spaces, the middle chunk holds two sentences and 1601 characters |
| Chunker.OffByOneWitness | lib/scrapers/goodreads.ts:20-24 | a concrete text whose second chunk holds two sentences and 1601 characters: the bound 1601 is reached |
| Scraped.ChunkDocsStamps | lib/scrapers/reddit.ts:111-128 | chunks pushed for a list of texts carry the scraper's source and type and consecutive ids from `base` |
| Scraped.ChunkDocsOrigin | lib/scrapers/guardian.ts:58-63 | every pushed chunk carries the URL and rating of one of the texts chunked |
| Scraped.ChunkDocsCover | lib/scrapers/lithub.ts:84-89 | the pushed chunks keep every non-whitespace character of the texts, in order |
| Scraped.ChunkDocsEmpty | lib/scrapers/goodreads.ts:122-131 | when every text yields a chunk, no chunk was pushed exactly when there was no text (the fallback's trigger) |
| Scraped.PushChunks | lib/scrapers/lithub.ts:89 | `chunks.push(...part)` extends the chunks of the texts so far by the next text's chunks |
| Goodreads.FirstDigitFacts | lib/scrapers/goodreads.ts:117-120 | a digit is found exactly when the label has one; the rating is the value of the first, 0 to 9 |
| Goodreads.ReviewDocsFacts | lib/scrapers/goodreads.ts:105-124 | each review text chunked is trimmed and longer than 100, links to the book page, and has a rating from 0 to 9 if any |
| Goodreads.ReviewStep | lib/scrapers/goodreads.ts:106-124 | one review adds its trimmed text exactly when that text is longer than 100, with the review's rating |
| Goodreads.CleanedFacts | lib/scrapers/goodreads.ts:136 | the cleaned page text is at most 3000 characters, and its only whitespace is single spaces |
| Goodreads.GoodreadsDocsFacts | lib/scrapers/goodreads.ts:105-138 | at most 12 texts are chunked: either qualifying reviews, or the single fallback (header plus cleaned text, no rating), used only when the page text is over 500 characters |
| Goodreads.GoodreadsFacts | lib/scrapers/goodreads.ts:123-137 | all chunks carry source `Goodreads`, type `reader_review`, consecutive ids, and a rating from 0 to 9 if any |
| Goodreads.ReviewChunksEmpty | lib/scrapers/goodreads.ts:131 | the review loop pushes no chunk exactly when no review qualifies |
| Goodreads.ChunkReviews | lib/scrapers/goodreads.ts:105-128 | the review loop pushes the chunks of the qualifying reviews among those given, in order |
| Goodreads.ScrapeGoodreads | lib/scrapers/goodreads.ts:57-148 | the scraper returns the chunks of `GoodreadsDocs`: nothing without a page or book link, else the reviews, else the fallback |
| Reddit.AllPostsFacts | lib/scrapers/reddit.ts:93-102 | at most 6 posts, distinct permalinks, drawn from the three searches, most commented first; dedup loses no permalink; no dropped post has more comments than a kept one |
| Reddit.QualifyingFacts | lib/scrapers/reddit.ts:120-123 | a qualifying comment is a `t1` child of the thread with a body over 60 characters that is not deleted or removed |
| Reddit.TopCommentsFacts | lib/scrapers/reddit.ts:120-125 | at most 4 comments, all qualifying, highest score first, none outscored by a qualifying comment left out |
| Reddit.PostDocsFacts | lib/scrapers/reddit.ts:106-129 | a post gives at most five texts, all linking to the post and unrated; a qualifying body comes first, then the body of each top comment in score order under the `[Discussion in r/…]` header, one text per comment |
| Reddit.AllDocsFacts | lib/scrapers/reddit.ts:106-130 | the post loop yields at most five texts per post, each unrated and linking to one of the posts |
| Reddit.RedditFacts | lib/scrapers/reddit.ts:93-137 | the chunks returned (none after a throw) carry source `Reddit`, type `community_discussion`, consecutive ids and no rating; each links to a kept post; at most 30 texts are chunked |
| Reddit.ChunkSelf | lib/scrapers/reddit.ts:110-112 | a post body is pushed only when its text is long enough and not deleted |
| Reddit.ChunkComments | lib/scrapers/reddit.ts:127-129 | the comment loop pushes each top comment's chunks after those already pushed |
| Reddit.ChunkPost | lib/scrapers/reddit.ts:106-129 | one turn of the post loop pushes the body's chunks, then the comments' |
| Reddit.ScrapeReddit | lib/scrapers/reddit.ts:68-137 | the scraper returns `RedditChunks`: nothing when a search answer or a kept post's comment answer makes the code throw into its one `catch`, which also discards the chunks already pushed; otherwise the chunks of `RedditDocs` over the three searches and the fetched threads, a failed fetch counting as nothing found |
| Reddit.ReadableChunks | lib/scrapers/reddit.ts:73-133 | with no answer that throws, the result is the chunks of the kept posts' texts |
| Reddit.ThreadBrokenNext | lib/scrapers/reddit.ts:106-121 | a comment answer that throws is met at a post of the loop exactly when it was met before or at that post |
| Guardian.CombinedCases | lib/scrapers/guardian.ts:53-55 | the combined text is standfirst and body joined by a blank line, or whichever is non-empty alone, or `""` |
| Guardian.ArticleDocsFacts | lib/scrapers/guardian.ts:52-65 | each article text is the header and a combined text longer than 100, linking to its article, unrated |
| Guardian.GuardianFacts | lib/scrapers/guardian.ts:49-68 | chunks carry source `The Guardian`, type `critic_review`, consecutive ids and no rating; each links to one of the first four articles; at most four texts are chunked |
| Guardian.ScrapeGuardian | lib/scrapers/guardian.ts:42-72 | the article loop pushes the chunks of each of the first four articles that qualifies, in order; a failed search gives nothing |
| LitHub.LinksFacts | lib/scrapers/lithub.ts:61-66 | the collected links are distinct, on lithub.com and taken from the page, and every qualifying `href` is collected |
| LitHub.FirstHref | lib/scrapers/lithub.ts:61-66 | the position of the first anchor whose `href` is a given link, or the count when there is none |
| LitHub.LinksOrder | lib/scrapers/lithub.ts:61-69 | the links keep document order: a link collected earlier first occurs earlier on the page, so `slice(0, 2)` takes the first two on the page |
| LitHub.CollectLinks | lib/scrapers/lithub.ts:58-66 | the anchor callback collects `Links(hrefs)`, each link at its first occurrence |
| LitHub.BodyTextFacts | lib/scrapers/lithub.ts:77-81 | the body is empty exactly when no paragraph trims to over 50 characters, and contains every such paragraph trimmed |
| LitHub.AccumulateBody | lib/scrapers/lithub.ts:77-81 | the paragraph callback appends each kept paragraph, trimmed, followed by one space |
| LitHub.ArticleDocsFacts | lib/scrapers/lithub.ts:69-90 | each article text links to a followed link whose page was fetched and starts with that page's header |
| LitHub.LitHubFacts | lib/scrapers/lithub.ts:50-94 | chunks carry source `Literary Hub`, type `critic_review`, consecutive ids and no rating; each links to one of the first two distinct lithub.com links; at most two texts are chunked |
| LitHub.ChunkArticle | lib/scrapers/lithub.ts:70-90 | an article is skipped when its fetch failed or its body is at most 200 characters; otherwise its chunks are pushed |
| LitHub.ScrapeLitHub | lib/scrapers/lithub.ts:50-98 | the scraper returns the chunks of `LitHubDocs`: nothing without a search page, else those of the first two linked articles that qualify |
| Metadata.FirstWithPagesFacts | lib/metadata.ts:23 | `find` gives the first edition with a positive page count, and none exactly when no edition has one |
| Metadata.OpenLibraryFacts | lib/metadata.ts:10-71 | a failed lookup gives `{}`; synopsis is at most 2000 characters and genre at most 5 subjects, both prefixes; page count is the first positive edition's; year and author, when present, are truthy; the cover is an Open Library URL; ratings come only from the ratings answer |
| Metadata.GoogleBooksFacts | lib/metadata.ts:73-101 | Google Books gives only cover, synopsis, genre and page count; the cover is the large image, else the thumbnail, moved to https; synopsis and categories are uncapped |
| Metadata.HttpsNonEmpty | lib/metadata.ts:86-88 | upgrading a link's scheme never empties it, so a truthy link stays truthy |
| Metadata.ChainString | lib/metadata.ts:120 | `a \|\| b \|\| c \|\| ''` is the first truthy string of the three, or `""` |
| Metadata.ChainNumber | lib/metadata.ts:123 | `a \|\| b \|\| c \|\| 0` is the first non-zero number of the three, or 0 |
| Metadata.MergeFacts | lib/metadata.ts:115-126 | per field: id from the partial; title and author from Open Library, else the partial; year likewise with 0 as missing; cover from Open Library, the partial, then Google Books; synopsis and page count from Open Library, Google Books, then the partial; genre from the first record that has a list; both ratings from Open Library only |
| Metadata.MergeIgnoresGoogleForIdentity | lib/metadata.ts:116-125 | two merges that differ only in the Google Books record agree on id, title, author, year and both ratings |
| Metadata.EnrichFacts | lib/metadata.ts:103-131 | a `gb_` id skips Open Library, keeps the partial's title, author and year, and has no rating; any other id is merged with the Open Library answer |
| Retrieval.Clean | lib/retrieval.ts:16 | punctuation becomes spaces position by position: the length is kept |
| Retrieval.SplitWsFacts | lib/retrieval.ts:17 | no piece contains whitespace, and the pieces hold exactly the text's non-whitespace, in order |
| Retrieval.KeepWordsMembers | lib/retrieval.ts:18 | a word survives the filter exactly when it is longer than 2 and not a stop word |
| Retrieval.TokenizeFacts | lib/retrieval.ts:6-19 | every token is lower-case, made of word characters only, longer than 2 and not a stop word; the tokens are exactly the pieces of the cleaned text that pass the filter |
| Retrieval.ScoreChunk | lib/retrieval.ts:21-42 | the nested loops compute `Score`: 2 half-units per exact match, plus 1 per distinct chunk token strictly containing the query token, summed over query tokens with repeats, then normalised |
| Retrieval.HalfScoreAppend | lib/retrieval.ts:26-32 | the raw score is additive over the query tokens, so repeats count again |
| Retrieval.HalfScoreZero | lib/retrieval.ts:26-32 | a chunk scores zero exactly when none of its tokens contains a query token |
| Retrieval.TokenScoreZero | lib/retrieval.ts:27-31 | a query token adds nothing exactly when no chunk token contains it |
| Retrieval.ScoreAll | lib/retrieval.ts:57-60 | every chunk is paired with its score, in order |
| Retrieval.RankedChunks | lib/retrieval.ts:62-65 | sorting the scored pairs and taking `2 * topK` chunks gives the candidates: the chunks stably sorted by score |
| Retrieval.CandidatesFacts | lib/retrieval.ts:57-65 | the candidates are sorted by score, number min(2·topK, chunks), come from the chunks, and outscore every chunk left out |
| Retrieval.EnsureDiversity | lib/retrieval.ts:69-93 | the two passes compute `Diverse(ranked, topK)` |
| Retrieval.FirstPassFacts | lib/retrieval.ts:75-82 | the first pass takes the first ranked chunk of each type, types pairwise distinct, in order of first appearance |
| Retrieval.SecondPassFacts | lib/retrieval.ts:85-90 | the second pass adds ranked chunks not already taken, none twice, up to topK in total |
| Retrieval.DiverseFacts | lib/retrieval.ts:69-93 | the result has at most topK chunks (when topK > 0), all ranked, none twice, no more than were ranked |
| Retrieval.DiverseCoversTypes | lib/retrieval.ts:75-82 | with at most topK types among the ranked chunks, every one of them is in the result |
| Retrieval.GroupByType | lib/retrieval.ts:97-102 | the `byType` Map sends each type present to its chunks in order, and its keys list the types in order of first appearance |
| Retrieval.GroupedUnique | lib/retrieval.ts:97-106 | that grouping has exactly one outcome, the Map of each type's chunks and the types in first-appearance order |
| Retrieval.PickFacts | lib/retrieval.ts:108-111 | every pick is a chunk of the input; in the first round the pick is the first chunk of the next type |
| Retrieval.PickRank | lib/retrieval.ts:108-111 | a pick after `n` chunks is element `floor(n / #types)` of its own type's group |
| Retrieval.RoundKeeps | lib/retrieval.ts:107-113 | a round adds at most one chunk, from the input; the first `#types` rounds take the first chunk of each type, later ones only extend that |
| Retrieval.DiversitySample | lib/retrieval.ts:95-116 | the loop stops and returns exactly `Sample`, the rounds of at most `4 * topK + 1`; at most topK chunks, all from the input; it starts with the first chunk of each type in order of first appearance, as many as topK allows |
| Retrieval.SampleRank | lib/retrieval.ts:107-114 | the `n`-th chunk of the sample is element `floor(n / #types)` of the chunks of its type; a round whose group has run out pushes nothing, so a later pick can take a chunk already taken |
| Retrieval.SampleRepeats | lib/retrieval.ts:107-114 | three reader reviews `a1, a2, a3` then one discussion `b1` sample, for topK 5, to `a1, b1, a2, a2, a3` |
| Retrieval.RetrieveChunks | lib/retrieval.ts:44-67 | no chunks give nothing; a query without tokens gives exactly `Sample(chunks, topK)`, the diversity sample; otherwise the diverse pick of the candidates; at most topK chunks, all from the input |
| Retrieval.RetrievedOutrank | lib/retrieval.ts:57-66 | every retrieved chunk scores at least as much as every chunk that missed the candidates |
| Claude.ContextBlockSnoc | lib/claude.ts:39-43 | blocks are joined by a blank line in retrieval order: one more chunk adds its block at the end |
| Claude.ContextBlockFirst | lib/claude.ts:39-43 | the context block starts with the first chunk's block |
| Claude.LabelFacts | lib/claude.ts:40 | the label starts with the source, and differs from it (adding the star rating) exactly when the rating is truthy |
| Claude.PromptOpening | lib/claude.ts:16 | the prompt opens by naming the book's title and author |
| Claude.PromptTail | lib/claude.ts:38-46 | the prompt ends with the passages section, or with the marker that there are none |
| Claude.PromptPassages | lib/claude.ts:38-46 | with no chunk the prompt ends with the "no passages" marker; otherwise it holds the passages heading followed by the first block |
| Claude.PromptBlocks | lib/claude.ts:38-44 | every retrieved chunk's block is in the prompt |
| Claude.PromptSources | lib/claude.ts:14-23 | the prompt names every source, or says `limited sources available` when there is none; the manifest holds the limited-discussion note exactly when there is no source |
| Claude.ManifestLacksNote | lib/claude.ts:19-23 | with a source, no manifest line holds the limited-discussion note |
| Claude.PromptYear | lib/claude.ts:16-18 | a non-zero year follows the author in parentheses; a zero year shows nothing, the source line following the author directly |
| Claude.PromptManifest | lib/claude.ts:16-19 | a non-zero year is in the prompt; the Goodreads line counts the retrieved reader reviews |
| Claude.Messages | lib/claude.ts:61-67 | one message per history turn plus one; contents kept in order; a turn is the assistant's exactly when its role is `assistant`; the new user message is last |
| Claude.SampleFacts | lib/claude.ts:111-114 | every one of the first 20 chunks appears as an excerpt in the sample, and later chunks do not affect it |
| Claude.FenceRoundTrip | lib/claude.ts:143 | an answer wrapped in a ```json fence is unwrapped to exactly its body |
| Claude.NoFenceUnchanged | lib/claude.ts:143 | an answer with no fence at either end reaches the parser unchanged |
| Claude.BareFenceKept | lib/claude.ts:143 | a leading fence without `jso` after the backticks is not stripped |
| Claude.LandscapeFacts | lib/claude.ts:96-164 | no chunk gives the placeholder whatever the model says; a failed request or an unparsable answer gives the fallback; otherwise the parsed landscape, with the parsed question prompts passed through and missing ones as none |
| Store.KnowledgeStore.constructor | lib/store.ts:9-10 | the store starts empty |
| Store.KnowledgeStore.GetKnowledge | lib/store.ts:12-14 | the stored pack for a key that is present, and nothing otherwise |
| Store.KnowledgeStore.SetKnowledge | lib/store.ts:16-18 | writes the key and changes nothing else |
| Store.KnowledgeStore.HasKnowledge | lib/store.ts:20-22 | holds exactly when a read of the key finds a pack |
| Store.NeverSet | lib/store.ts:12-14 | a key never set reads as absent |
| Store.GetAfterSet | lib/store.ts:12-18 | a read right after a write returns what was written |
| Store.SetLeavesOthers | lib/store.ts:16-18 | a write leaves every other key as it was |
| Store.LastWriteWins | lib/store.ts:16-18 | of two writes to one key, the last one wins |
| Ingest.RankOfNames | lib/ingest.ts:39-70 | the four source names are distinct |
| Ingest.SourcesMembers | lib/ingest.ts:37-71 | a source is listed exactly when its scraper returned chunks, and at most four are listed |
| Ingest.SourcesOrder | lib/ingest.ts:37-71 | the list keeps the order Goodreads, Reddit, The Guardian, Literary Hub, naming each at most once |
| Ingest.FirstReviewFacts | lib/ingest.ts:40 | `find` gives the first reader review among the Goodreads chunks, and none exactly when there is none |
| Ingest.AmbientQuoteFacts | lib/ingest.ts:40-54 | the quote is at most 200 characters; it comes from the first Goodreads review when that gives a non-empty quote, else from Reddit's first chunk, else nothing; Guardian and Literary Hub never supply it |
| Ingest.TraceFacts | lib/ingest.ts:15-97 | the log holds 11 effects: details loading then done; three loading reports; one terminal report each for Goodreads, Reddit and critics, in that order, `done` exactly when chunks came; building; the store write under the book id; `Ready` last, with the stored sources and landscape; the chunks are the four lists in order, counted |
| Ingest.Gather | lib/ingest.ts:37-71 | the four `if` blocks produce the concatenated chunks, the source names, the ambient quote and the terminal reports |
| Ingest.IngestBook | lib/ingest.ts:10-100 | the pack built from the enriched metadata, the scraped chunks and the landscape over all of them is written under the metadata id; no other key changes; the effect log is exactly `Trace` |
| SearchRoute.OpenLibraryMapping | app/api/search/route.ts:35-43 | the id is the work key without `/works/`; a missing author gives `Unknown Author`; a missing year gives 0; there is a medium cover exactly when the cover id is truthy |
| SearchRoute.GoogleBooksMapping | app/api/search/route.ts:57-66 | the id is `gb_` followed by the volume id; a missing date gives year 0; the cover is the thumbnail, else the small thumbnail, moved to https, else `""` |
| SearchRoute.DeduplicatedFacts | app/api/search/route.ts:72-80 | one result per key of the input, keys pairwise distinct, each the first input result with its key, in the order of those first results |
| SearchRoute.CaseInsensitive | app/api/search/route.ts:75 | titles and authors differing only in letter case are duplicates, and the first is kept |
| SearchRoute.DedupPair | app/api/search/route.ts:74-79 | of two results with one key only the first is kept |
| SearchRoute.AmbiguousKeyCollapses | app/api/search/route.ts:75 | "a-b" by "c" and "a" by "b-c" share a key, so the second is dropped |
| SearchRoute.OpenLibraryWins | app/api/search/route.ts:94 | the deduplicated Open Library list is a prefix of the merged answer, and a merged result whose key an Open Library result has is from Open Library |
| SearchRoute.GetFacts | app/api/search/route.ts:82-96 | a missing or too-short query answers `[]`; otherwise at most 8 results with distinct keys, a prefix of the deduplicated merge, all from the catalogs, Open Library winning on shared keys |
| SearchRoute.RejectedQueryIgnoresCatalogs | app/api/search/route.ts:83-86 | a rejected query gives `[]` whatever the catalogs would answer |
| SearchRoute.HandleGet | app/api/search/route.ts:82-96 | the handler computes `Get`: at most 8 results with distinct keys |
| ChatRoute.UsedSourcesMembers | app/api/chat/route.ts:46 | the header names the source of every retrieved chunk, nothing else, each once |
| ChatRoute.UsedSourcesOrder | app/api/chat/route.ts:46 | the names keep the order in which they first appear among the retrieved chunks |
| ChatRoute.FirstPosition | app/api/chat/route.ts:46 | the position of the first chunk with a given source, or the count when there is none |
| ChatRoute.Post | app/api/chat/route.ts:7-55 | 400 when the book id or message is missing or empty; 404 when the book is not stored; otherwise at most 8 retrieved chunks from the stored pack, selected by `retrieveChunks` (for a message without keywords, exactly the diversity sample `Retrieval.Sample(chunks, 8)`, non-empty and of at least min(8, number of types) chunks), with the system prompt over them, the messages and the header of their sources |

## Left out

- Browsing, HTTP and HTML parsing (Playwright, axios, cheerio) are not modelled. What each selector, search or fetch returned is an input. For Goodreads, The Guardian, Literary Hub, the metadata catalogs and the search route, a request that failed and an answer whose shape makes the code throw lead to the same result, and both are `None`. Reddit's single `catch` empties the whole scraper, so its inputs tell a failed fetch (`Failed`) from an answer the code throws on (`Broken`).
- The language model call, the token stream and `JSON.parse` are parameters. Their results are a `Reply` and an `Option<Parsed>`.
- The `Math.log` normalisation and the 1.3/1.4 type boosts of `scoreChunk` are the supplied `normalise`. It receives the raw score in half-units, the chunk's token count and its type.
- `parseInt`, `parseFloat` and `toFixed` are not modelled. They are the supplied `parseInt`, `parseYear` and `roundTenth`.
- SearchRoute.FromGoogleBooks: a date whose first four characters do not parse yields `NaN` in the source; the model's `parseInt` returns an integer.
- A publication date that `parseInt` cannot read gives `NaN`, which `|| undefined` drops; the supplied `parseYear` answers `None` for it.
- `generateId` (random and time-based) is the injected `newId`, applied to consecutive numbers. `Date.now` is the parameter `now`. The `delay` timers are left out.
- `Promise.all` concurrency is not modelled. The joined results are inputs, and the order after the join is fixed by the code.
- React components and pages, `next.config.ts`, `process.env` key selection and `console.log` are not part of this model.
- `toLowerCase` is modelled for ASCII letters only. Lengths count characters, not UTF-16 code units.
- `seenSources` in `ensureDiversity` is written but never read, so it is not modelled.
- `result.includes(chunk)` compares objects by identity; the model compares chunks by value. They differ only when the same passage occurs twice with the same id.
- The prompts' fixed guidance paragraphs are shortened to their first sentence. Their wording carries no pipeline logic.
- ChatRoute.Post: the streamed answer is not modelled. The response records the system prompt and messages the model is called with. A body without `history` (where the source throws), a model call that rejects (the route then fails with a server error instead of streaming) and the response headers other than `X-Sources` are left out.
- Store.NeverSet, Store.GetAfterSet, Store.SetLeavesOthers, Store.LastWriteWins: these follow directly from map update, so their proofs hold no work of their own.
