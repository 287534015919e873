/** The records shared by the pipeline (types/index.ts). */
module Types {
  import opened Wrappers

  /** `Chunk['type']`: where a passage comes from, by kind of voice. */
  datatype ChunkType = ReaderReview | CriticReview | AuthorInterview | CommunityDiscussion

  /** The wire spelling of a chunk type, as it appears in prompts. */
  function TypeName(t: ChunkType): (r: string)
    ensures |r| > 0
  {
    match t
    case ReaderReview => "reader_review"
    case CriticReview => "critic_review"
    case AuthorInterview => "author_interview"
    case CommunityDiscussion => "community_discussion"
  }

  lemma TypeNameInjective(a: ChunkType, b: ChunkType)
    ensures TypeName(a) == TypeName(b) <==> a == b
  {
    if a != b {
      assert TypeName(a)[0] != TypeName(b)[0] || TypeName(a)[1] != TypeName(b)[1];
    }
  }

  /** A passage of source text; `rating` is the Goodreads star count when one was found. */
  datatype Chunk = Chunk(
    id: string,
    content: string,
    source: string,
    sourceUrl: Option<string>,
    ctype: ChunkType,
    rating: Option<int>)

  datatype BookMetadata = BookMetadata(
    id: string,
    title: string,
    author: string,
    year: int,
    cover: string,
    synopsis: string,
    genre: seq<string>,
    pageCount: int,
    goodreadsRating: Option<real>,
    ratingsCount: Option<int>)

  datatype Landscape = Landscape(criticConsensus: string, readerSentiment: string, theDebate: string)

  /** What ingestion stores per book: the fields the ingestion step writes. */
  datatype BookKnowledge = BookKnowledge(
    metadata: BookMetadata,
    chunks: seq<Chunk>,
    landscape: Landscape,
    questionPrompts: seq<string>,
    chunkCount: nat,
    ingestedAt: int,
    sources: seq<string>)

  datatype Status = Pending | Loading | Done | Failed

  datatype IngestionEvent = IngestionEvent(
    step: string,
    status: Status,
    quote: Option<string>,
    landscape: Option<Landscape>,
    sources: Option<seq<string>>)

  /** A prior conversation turn as the chat route receives it; `role` is free text on the wire. */
  datatype HistoryMessage = HistoryMessage(role: string, content: string)

  datatype SearchResult = SearchResult(id: string, title: string, author: string, year: int, cover: string)
}
