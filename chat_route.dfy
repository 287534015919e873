/**
 * The chat endpoint (app/api/chat/route.ts): a request without a book id
 * or a message is refused with 400, one for a book the store does not hold
 * with 404; otherwise the eight most relevant chunks are retrieved and the
 * answer streams from the model with the system prompt built over them,
 * the prior turns and the message, under an `X-Sources` header naming the
 * sources of the retrieved chunks once each. The model's streamed text is
 * not modelled: the response records the request it is given.
 */
module ChatRoute {
  import opened Wrappers
  import opened Seqs
  import opened Types
  import opened Retrieval
  import opened Claude
  import opened Store

  const TOP_K: nat := 8
  const BAD_REQUEST: int := 400
  const NOT_FOUND: int := 404
  const MISSING_FIELDS: string := "bookId and message required"
  const NOT_INGESTED: string := "Book not ingested yet. Please visit the book page first."

  /** The JSON body; an absent `bookId` or `message` is `None`. */
  datatype Request = Request(bookId: Option<string>, message: Option<string>, history: seq<HistoryMessage>)

  /**
   * An error answer, or the stream: the system prompt and the messages the
   * model is called with, the chunks retrieved, and the `X-Sources` names.
   */
  datatype Response =
    | Error(status: int, error: string)
    | Stream(systemPrompt: string, messages: seq<Message>, retrieved: seq<Chunk>, sources: seq<string>)

  /** `!value` on a string field. */
  predicate Missing(value: Option<string>) {
    value.None? || value.value == ""
  }

  function SourceOf(c: Chunk): string {
    c.source
  }

  /** `[...new Set(chunks.map(c => c.source))]` */
  function UsedSources(chunks: seq<Chunk>): seq<string> {
    Dedup(MapSeq(chunks, SourceOf), Id)
  }

  /** The header lists the source of every retrieved chunk and nothing else, each once. */
  lemma UsedSourcesMembers(chunks: seq<Chunk>)
    ensures NoDup(UsedSources(chunks))
    ensures forall s :: s in UsedSources(chunks) <==> exists c :: c in chunks && c.source == s
  {
    var all := MapSeq(chunks, SourceOf);
    var names := UsedSources(chunks);
    DedupFromKeys(all, Id, {});
    KeysOfId(all);
    KeysOfId(names);
    assert forall s :: s in names <==> s in all;
    forall s | s in all ensures exists c :: c in chunks && c.source == s {
      var k :| 0 <= k < |all| && all[k] == s;
      assert chunks[k] in chunks;
    }
    forall s | (exists c :: c in chunks && c.source == s) ensures s in all {
      var c :| c in chunks && c.source == s;
      var k :| 0 <= k < |chunks| && chunks[k] == c;
      assert all[k] == s;
    }
  }

  /** The position of the first chunk whose source is `name`, or the length when there is none. */
  function FirstPosition(chunks: seq<Chunk>, name: string): (a: nat)
    ensures a <= |chunks|
    ensures a < |chunks| ==> chunks[a].source == name
    ensures forall k :: 0 <= k < a ==> chunks[k].source != name
    decreases |chunks|
  {
    if chunks == [] then 0
    else if chunks[0].source == name then 0
    else 1 + FirstPosition(chunks[1..], name)
  }

  /**
   * The names keep the order in which they first appear among the chunks:
   * each listed name occurs, and a name listed earlier first occurs at an
   * earlier chunk.
   */
  lemma UsedSourcesOrder(chunks: seq<Chunk>)
    ensures forall i :: 0 <= i < |UsedSources(chunks)| ==> FirstPosition(chunks, UsedSources(chunks)[i]) < |chunks|
    ensures forall i, j :: 0 <= i < j < |UsedSources(chunks)| ==>
              FirstPosition(chunks, UsedSources(chunks)[i]) < FirstPosition(chunks, UsedSources(chunks)[j])
  {
    var all := MapSeq(chunks, SourceOf);
    var names := UsedSources(chunks);
    DedupFromFirst(all, Id, {});
    forall i | 0 <= i < |names| ensures FirstPosition(chunks, names[i]) == FirstIndex(all, Id, names[i]) {
      FirstIndexPosition(chunks, names[i]);
    }
  }

  /** Over the chunks' sources, `FirstIndex` is the first position. */
  lemma FirstIndexPosition(chunks: seq<Chunk>, name: string)
    requires name in KeysOf(MapSeq(chunks, SourceOf), Id)
    ensures FirstPosition(chunks, name) == FirstIndex(MapSeq(chunks, SourceOf), Id, name)
  {
  }

  /**
   * `POST` over the store: the guards, retrieval with top-k 8 over the
   * book's chunks, the history passed turn by turn, and the header.
   * `normalise` is the score normalisation retrieval is given.
   */
  method Post(store: KnowledgeStore, request: Request, normalise: (nat, nat, ChunkType) -> real)
    returns (response: Response)
    ensures Missing(request.bookId) || Missing(request.message) ==> response == Error(BAD_REQUEST, MISSING_FIELDS)
    ensures !Missing(request.bookId) && !Missing(request.message) && request.bookId.value !in store.books ==>
              response == Error(NOT_FOUND, NOT_INGESTED)
    ensures !Missing(request.bookId) && !Missing(request.message) && request.bookId.value in store.books ==>
              var k := store.books[request.bookId.value];
              var message := request.message.value;
              response.Stream? &&
              |response.retrieved| <= TOP_K &&
              (forall c :: c in response.retrieved ==> c in k.chunks) &&
              (k.chunks != [] && Tokenize(message) != [] ==>
                 response.retrieved == Diverse(Candidates(Tokenize(message), k.chunks, TOP_K, normalise), TOP_K)) &&
              (k.chunks != [] && Tokenize(message) == [] ==>
                 response.retrieved != [] &&
                 |response.retrieved| >= Min(TOP_K, |Dedup(k.chunks, TypeOf)|) &&
                 (response.retrieved <= Dedup(k.chunks, TypeOf) || Dedup(k.chunks, TypeOf) <= response.retrieved) &&
                 response.retrieved == Retrieval.Sample(k.chunks, TOP_K)) &&
              (k.chunks == [] ==> response.retrieved == []) &&
              response.systemPrompt == BuildSystemPrompt(k.metadata, response.retrieved, k.sources) &&
              response.messages == Messages(request.history, message) &&
              response.sources == UsedSources(response.retrieved)
  {
    if Missing(request.bookId) || Missing(request.message) {
      return Error(BAD_REQUEST, MISSING_FIELDS);
    }
    var bookId, message := request.bookId.value, request.message.value;
    var knowledge := store.GetKnowledge(bookId);
    if knowledge.None? {
      return Error(NOT_FOUND, NOT_INGESTED);
    }
    var k := knowledge.value;
    var retrieved := RetrieveChunks(message, k.chunks, TOP_K, normalise);
    var history := MapSeq(request.history, ToMessage) + [Message(User, message)];
    var usedSources := DedupByKey(MapSeq(retrieved, SourceOf), Id);
    response := Stream(BuildSystemPrompt(k.metadata, retrieved, k.sources), history, retrieved, usedSources);
  }
}
