/**
 * The text handed to the language model and what is made of its answer
 * (lib/claude.ts): the chat system prompt, the outgoing message list, and
 * the interpretive landscape with its question prompts. The model itself is
 * not modelled: its reply is a parameter, and so is `JSON.parse`.
 */
module Claude {
  import opened Wrappers
  import opened Strings
  import opened Seqs
  import opened Types

  // ---------------------------------------------------------------------
  // `buildSystemPrompt`
  // ---------------------------------------------------------------------

  const PROMPT_OPENING: string := "You are a knowledgeable book companion for \""
  const SOURCES_LINE: string := ".\n\nYou have access to the following knowledge sources: "
  const LIMITED_SOURCES: string := "limited sources available"
  const LIMITED_NOTE: string := "- Note: Limited online discussion was found \U{2014} drawing on training knowledge directly."
  /**
   * The fixed paragraphs that describe the companion's role and principles.
   * Only their opening sentence is written out: their wording carries no
   * logic of the pipeline.
   */
  const COMPANION_GUIDANCE: string :=
    "Your role is to help the user process, understand, and discuss this book \U{2014} as a thoughtful companion who has read it and absorbed the discourse around it."
  const PASSAGES_HEADING: string := "\n\nRelevant source passages:\n"
  const NO_PASSAGES: string :=
    "\n\n[No specific source passages retrieved for this query \U{2014} draw on your training knowledge about this book.]"
  const BLOCK_SEPARATOR: string := "\n\n"

  /** `chunksByType[t]` */
  function OfType(chunks: seq<Chunk>, t: ChunkType): seq<Chunk> {
    Filter(chunks, (c: Chunk) => c.ctype == t)
  }

  function SourceList(sources: seq<string>): string {
    if |sources| > 0 then Join(sources, ", ") else LIMITED_SOURCES
  }

  /** ` (year)`, only for a non-zero year. */
  function YearPart(year: int): string {
    if year != 0 then " (" + IntToString(year) + ")" else ""
  }

  function ReaderLine(n: nat): string {
    "- Goodreads: " + NatToString(n) + " reader reviews"
  }

  /** The five manifest lines; a line whose condition fails is empty. */
  function Manifest(chunks: seq<Chunk>, sources: seq<string>): seq<string> {
    var readers := |OfType(chunks, ReaderReview)|;
    [ if readers > 0 then ReaderLine(readers) else "",
      if |OfType(chunks, CriticReview)| > 0 then "- Critical reviews from literary press" else "",
      if |OfType(chunks, CommunityDiscussion)| > 0 then "- Reddit discussions" else "",
      if |OfType(chunks, AuthorInterview)| > 0 then "- Author interviews" else "",
      if |sources| == 0 then LIMITED_NOTE else "" ]
  }

  /** The opening words, naming the book and its author. */
  function Heading(m: BookMetadata): string {
    PROMPT_OPENING + m.title + "\" by " + m.author
  }

  /**
   * The pieces of the prompt template: opening, title, author, the year if
   * any, the source list, the manifest, the fixed guidance, then the passages
   * or the marker that there are none.
   */
  function PromptPieces(m: BookMetadata, chunks: seq<Chunk>, sources: seq<string>): seq<string> {
    [Heading(m), YearPart(m.year), SOURCES_LINE, SourceList(sources), "\n",
     Join(Manifest(chunks, sources), "\n"), "\n\n", COMPANION_GUIDANCE, Tail(chunks)]
  }

  /** A chunk's label: its source, with the rating and a star when the rating is truthy. */
  function Label(c: Chunk): string {
    if c.rating.Some? && c.rating.value != 0 then c.source + " (" + IntToString(c.rating.value) + "\U{2605})" else c.source
  }

  function Block(c: Chunk): string {
    "--- " + Label(c) + " ---\n" + c.content
  }

  function ContextBlock(chunks: seq<Chunk>): string {
    Join(MapSeq(chunks, Block), BLOCK_SEPARATOR)
  }

  /** `buildSystemPrompt(metadata, retrievedChunks, sources)` */
  function BuildSystemPrompt(m: BookMetadata, chunks: seq<Chunk>, sources: seq<string>): string {
    Concat(PromptPieces(m, chunks, sources))
  }

  /** The passages appear in retrieval order: one more chunk adds its block at the end, after a blank line. */
  lemma ContextBlockSnoc(chunks: seq<Chunk>, c: Chunk)
    requires chunks != []
    ensures ContextBlock(chunks + [c]) == ContextBlock(chunks) + BLOCK_SEPARATOR + Block(c)
  {
    assert MapSeq(chunks + [c], Block) == MapSeq(chunks, Block) + [Block(c)];
    JoinSnoc(MapSeq(chunks, Block), Block(c), BLOCK_SEPARATOR);
  }

  /** Every retrieved chunk's block is in the context block. */
  lemma ContextBlockContains(chunks: seq<Chunk>, k: nat)
    requires k < |chunks|
    ensures Contains(ContextBlock(chunks), Block(chunks[k]))
  {
    JoinContains(MapSeq(chunks, Block), BLOCK_SEPARATOR, k);
  }

  /** The label shows a star exactly for a truthy rating, and always starts with the source. */
  lemma LabelFacts(c: Chunk)
    ensures StartsWith(Label(c), c.source)
    ensures c.rating.Some? && c.rating.value != 0 <==> Label(c) != c.source
  {
    if c.rating.Some? && c.rating.value != 0 {
      assert |Label(c)| > |c.source|;
    }
  }

  /** The part of the prompt after the passages' or marker's start. */
  function Tail(chunks: seq<Chunk>): string {
    if |chunks| > 0 then PASSAGES_HEADING + ContextBlock(chunks) else NO_PASSAGES
  }

  /** The prompt starts by naming the book and its author. */
  lemma PromptOpening(m: BookMetadata, chunks: seq<Chunk>, sources: seq<string>)
    ensures StartsWith(BuildSystemPrompt(m, chunks, sources), Heading(m))
  {
    var pieces := PromptPieces(m, chunks, sources);
    ConcatPrefix(pieces, 1);
    assert pieces[..1] == [Heading(m)];
    assert Concat([Heading(m)]) == Heading(m) + Concat([]);
  }

  /** The prompt's last piece: the passages, or the marker that there are none. */
  lemma PromptTail(m: BookMetadata, chunks: seq<Chunk>, sources: seq<string>)
    ensures Contains(BuildSystemPrompt(m, chunks, sources), Tail(chunks))
    ensures EndsWith(BuildSystemPrompt(m, chunks, sources), Tail(chunks))
  {
    var pieces := PromptPieces(m, chunks, sources);
    assert pieces[8] == Tail(chunks);
    ConcatContains(pieces, 8);
    ConcatLast(pieces);
  }

  /** The context block starts with the first chunk's block. */
  lemma ContextBlockFirst(chunks: seq<Chunk>)
    requires chunks != []
    ensures StartsWith(ContextBlock(chunks), Block(chunks[0]))
  {
    JoinFirst(MapSeq(chunks, Block), BLOCK_SEPARATOR);
  }

  /**
   * Without passages the prompt ends with the "no passages" marker; with
   * passages it holds the heading followed by the first block.
   */
  lemma PromptPassages(m: BookMetadata, chunks: seq<Chunk>, sources: seq<string>)
    ensures var p := BuildSystemPrompt(m, chunks, sources);
            && (chunks == [] ==> EndsWith(p, NO_PASSAGES))
            && (chunks != [] ==> Contains(p, PASSAGES_HEADING + Block(chunks[0])))
  {
    PromptTail(m, chunks, sources);
    if chunks != [] {
      var tail := Tail(chunks);
      var first := PASSAGES_HEADING + Block(chunks[0]);
      assert Contains(tail, first) by {
        var blocks := ContextBlock(chunks);
        ContextBlockFirst(chunks);
        var more := blocks[|Block(chunks[0])|..];
        assert blocks == Block(chunks[0]) + more;
        AppendAssoc(PASSAGES_HEADING, Block(chunks[0]), more);
        PrefixContains(first, more);
      }
      ContainsTrans(BuildSystemPrompt(m, chunks, sources), tail, first);
    }
  }

  /** Every retrieved chunk's block is in the prompt. */
  lemma PromptBlocks(m: BookMetadata, chunks: seq<Chunk>, sources: seq<string>)
    ensures forall k :: 0 <= k < |chunks| ==> Contains(BuildSystemPrompt(m, chunks, sources), Block(chunks[k]))
  {
    PromptTail(m, chunks, sources);
    forall k | 0 <= k < |chunks| ensures Contains(BuildSystemPrompt(m, chunks, sources), Block(chunks[k])) {
      ContextBlockContains(chunks, k);
      SuffixContains(PASSAGES_HEADING, ContextBlock(chunks), Block(chunks[k]));
      ContainsTrans(BuildSystemPrompt(m, chunks, sources), Tail(chunks), Block(chunks[k]));
    }
  }

  const DASH: char := '\U{2014}'

  /** The Goodreads line is made of ASCII pieces and digits: it has no dash. */
  lemma ReaderLineLacksDash(n: nat)
    ensures DASH !in ReaderLine(n)
  {
    var a, d, b := "- Goodreads: ", NatToString(n), " reader reviews";
    assert forall i :: 0 <= i < |a| ==> a[i] < '\U{0080}';
    assert forall i :: 0 <= i < |b| ==> b[i] < '\U{0080}';
    assert ReaderLine(n) == a + d + b;
  }

  /** The note carries the dash at position 44. */
  lemma NoteDash()
    ensures |LIMITED_NOTE| > 44 && LIMITED_NOTE[44] == DASH
  {
  }

  /** The three fixed manifest lines are ASCII. */
  lemma FixedLinesLackDash()
    ensures DASH !in "- Critical reviews from literary press"
    ensures DASH !in "- Reddit discussions"
    ensures DASH !in "- Author interviews"
  {
    var c, r, a := "- Critical reviews from literary press", "- Reddit discussions", "- Author interviews";
    assert forall i :: 0 <= i < |c| ==> c[i] < '\U{0080}';
    assert forall i :: 0 <= i < |r| ==> r[i] < '\U{0080}';
    assert forall i :: 0 <= i < |a| ==> a[i] < '\U{0080}';
  }

  /** Without the note, every manifest line is ASCII, digits included, so has no dash. */
  lemma ManifestLinesLackDash(chunks: seq<Chunk>, sources: seq<string>)
    requires sources != []
    ensures forall k :: 0 <= k < |Manifest(chunks, sources)| ==> DASH !in Manifest(chunks, sources)[k]
  {
    var lines := Manifest(chunks, sources);
    ReaderLineLacksDash(|OfType(chunks, ReaderReview)|);
    FixedLinesLackDash();
    assert |lines| == 5 && lines[4] == "";
  }

  /** No manifest line other than the note holds the note's dash. */
  lemma ManifestLacksNote(chunks: seq<Chunk>, sources: seq<string>)
    requires sources != []
    ensures !Contains(Join(Manifest(chunks, sources), "\n"), LIMITED_NOTE)
  {
    var manifest := Join(Manifest(chunks, sources), "\n");
    ManifestLinesLackDash(chunks, sources);
    JoinLacks(Manifest(chunks, sources), "\n", DASH);
    NoteDash();
    if Contains(manifest, LIMITED_NOTE) {
      ContainsChar(manifest, LIMITED_NOTE, 44);
    }
  }

  /**
   * The prompt names every source, or admits the limited coverage when there
   * is none; the manifest carries the limited-discussion note exactly when
   * there is no source.
   */
  lemma PromptSources(m: BookMetadata, chunks: seq<Chunk>, sources: seq<string>)
    ensures var p := BuildSystemPrompt(m, chunks, sources);
            && (sources == [] ==> Contains(p, LIMITED_SOURCES) && Contains(p, LIMITED_NOTE))
            && (forall k :: 0 <= k < |sources| ==> Contains(p, sources[k]))
    ensures Contains(Join(Manifest(chunks, sources), "\n"), LIMITED_NOTE) <==> sources == []
  {
    var pieces := PromptPieces(m, chunks, sources);
    var p := BuildSystemPrompt(m, chunks, sources);
    var list := SourceList(sources);
    assert pieces[3] == list;
    ConcatContains(pieces, 3);
    if sources == [] {
      var manifest := Join(Manifest(chunks, sources), "\n");
      assert pieces[5] == manifest;
      ConcatContains(pieces, 5);
      JoinContains(Manifest(chunks, sources), "\n", 4);
      ContainsTrans(p, manifest, LIMITED_NOTE);
    } else {
      forall k | 0 <= k < |sources| ensures Contains(p, sources[k]) {
        JoinContains(sources, ", ", k);
        ContainsTrans(p, list, sources[k]);
      }
      ManifestLacksNote(chunks, sources);
    }
  }

  /**
   * The year shows after the author exactly when it is non-zero: a zero
   * year leaves the source line right after the author.
   */
  lemma PromptYear(m: BookMetadata, chunks: seq<Chunk>, sources: seq<string>)
    ensures var p := BuildSystemPrompt(m, chunks, sources);
            && (m.year != 0 ==> StartsWith(p, Heading(m) + (" (" + IntToString(m.year) + ")") + SOURCES_LINE))
            && (m.year == 0 ==> StartsWith(p, Heading(m) + SOURCES_LINE))
  {
    PromptStart(m, chunks, sources);
    YearShown(BuildSystemPrompt(m, chunks, sources), Heading(m), m.year);
  }

  lemma YearShown(p: string, heading: string, year: int)
    requires StartsWith(p, heading + YearPart(year) + SOURCES_LINE)
    ensures year != 0 ==> StartsWith(p, heading + (" (" + IntToString(year) + ")") + SOURCES_LINE)
    ensures year == 0 ==> StartsWith(p, heading + SOURCES_LINE)
  {
    if year == 0 {
      assert heading + YearPart(year) == heading;
    }
  }

  /** The first three pieces of the template open the prompt. */
  lemma PromptStart(m: BookMetadata, chunks: seq<Chunk>, sources: seq<string>)
    ensures StartsWith(BuildSystemPrompt(m, chunks, sources), Heading(m) + YearPart(m.year) + SOURCES_LINE)
  {
    var pieces := PromptPieces(m, chunks, sources);
    ConcatStart3(pieces);
  }

  /** The year shows when it is non-zero, and the Goodreads line counts the retrieved reader reviews. */
  lemma PromptManifest(m: BookMetadata, chunks: seq<Chunk>, sources: seq<string>)
    ensures var p := BuildSystemPrompt(m, chunks, sources);
            && (m.year != 0 ==> Contains(p, " (" + IntToString(m.year) + ")"))
            && (|OfType(chunks, ReaderReview)| > 0 ==> Contains(p, ReaderLine(|OfType(chunks, ReaderReview)|)))
  {
    var pieces := PromptPieces(m, chunks, sources);
    var p := BuildSystemPrompt(m, chunks, sources);
    assert pieces[1] == YearPart(m.year);
    ConcatContains(pieces, 1);
    var readers := |OfType(chunks, ReaderReview)|;
    if readers > 0 {
      var manifest := Join(Manifest(chunks, sources), "\n");
      assert pieces[5] == manifest;
      ConcatContains(pieces, 5);
      JoinContains(Manifest(chunks, sources), "\n", 0);
      ContainsTrans(p, manifest, ReaderLine(readers));
    }
  }

  // ---------------------------------------------------------------------
  // The message list of `streamChat`
  // ---------------------------------------------------------------------

  datatype Role = User | Assistant

  datatype Message = Message(role: Role, content: string)

  /** A history turn on the wire: any role other than `assistant` is sent as the user's. */
  function ToMessage(h: HistoryMessage): Message {
    Message(if h.role == "assistant" then Assistant else User, h.content)
  }

  /** The messages `streamChat` sends: the history in order, then the new user message. */
  function Messages(history: seq<HistoryMessage>, userMessage: string): (r: seq<Message>)
    ensures |r| == |history| + 1
    ensures forall i :: 0 <= i < |history| ==>
              r[i].content == history[i].content && (r[i].role == Assistant <==> history[i].role == "assistant")
    ensures r[|history|] == Message(User, userMessage)
  {
    MapSeq(history, ToMessage) + [Message(User, userMessage)]
  }

  // ---------------------------------------------------------------------
  // `generateLandscapeAndPrompts`
  // ---------------------------------------------------------------------

  const MAX_SAMPLE: nat := 20
  const SAMPLE_SEPARATOR: string := "\n\n---\n\n"
  const LANDSCAPE_OPENING: string := "You are analyzing reader and critic responses to \""
  /**
   * The fixed instructions of the landscape request. Only their opening
   * sentence is written out: their wording carries no logic of the pipeline.
   */
  const LANDSCAPE_INSTRUCTIONS: string := "Based on the following source excerpts:"
  const EXCERPTS_HEADING: string := "\n\nSource excerpts:\n"

  datatype LandscapeResult = LandscapeResult(landscape: Landscape, questionPrompts: seq<string>)

  /** Returned without asking the model when there is no chunk at all. */
  const PLACEHOLDER: LandscapeResult := LandscapeResult(
    Landscape("Limited critical coverage found.", "Reader responses vary widely.",
              "No strong consensus found in online discussion."), [])

  /** Returned when the request or the parse of its answer fails. */
  const FALLBACK: LandscapeResult := LandscapeResult(
    Landscape("Critical perspectives vary across sources.", "Reader responses are divided.",
              "Multiple interpretations coexist in the discourse around this book."), [])

  /** The model's answer: the request threw, the first content block is not text, or its text. */
  datatype Reply = RequestFailed | NonText | TextReply(text: string)

  /** What `JSON.parse` yields for a well-formed answer. */
  datatype Parsed = Parsed(criticConsensus: string, readerSentiment: string, theDebate: string,
                           questionPrompts: Option<seq<string>>)

  /** `[source — type]\ncontent` */
  function Excerpt(c: Chunk): string {
    "[" + c.source + " \U{2014} " + TypeName(c.ctype) + "]\n" + c.content
  }

  /** The first 20 chunks as excerpts, separated by a rule. */
  function ExcerptSample(chunks: seq<Chunk>): string {
    Join(MapSeq(Take(chunks, MAX_SAMPLE), Excerpt), SAMPLE_SEPARATOR)
  }

  function LandscapePrompt(m: BookMetadata, chunks: seq<Chunk>): string {
    LANDSCAPE_OPENING + m.title + "\" by " + m.author + ".\n\n" + LANDSCAPE_INSTRUCTIONS + EXCERPTS_HEADING + ExcerptSample(chunks)
  }

  /** `/^```json?\s*\/i`: three backticks, `jso` and an optional `n` in any case, and the whitespace after. */
  function StripLeadingFence(t: string): string {
    if |t| >= 6 && t[..3] == "```" && Lower(t[3..6]) == "jso" then
      var u := t[6..];
      TrimStart(if |u| > 0 && LowerChar(u[0]) == 'n' then u[1..] else u)
    else t
  }

  /** `/\s*```$/`: three closing backticks and the whitespace before them. */
  function StripTrailingFence(t: string): string {
    if EndsWith(t, "```") then TrimEnd(t[..|t| - 3]) else t
  }

  function StripFences(t: string): string {
    StripTrailingFence(StripLeadingFence(t))
  }

  /**
   * `generateLandscapeAndPrompts(metadata, chunks)`: `ask` is the model,
   * `parse` is `JSON.parse` (`None`: it throws).
   */
  function GenerateLandscape(m: BookMetadata, chunks: seq<Chunk>, ask: string -> Reply,
                             parse: string -> Option<Parsed>): LandscapeResult
  {
    if |chunks| == 0 then PLACEHOLDER
    else
      var reply := ask(LandscapePrompt(m, chunks));
      if reply.RequestFailed? then FALLBACK
      else
        var text := if reply.TextReply? then Trim(reply.text) else "";
        var parsed := parse(StripFences(text));
        if parsed.None? then FALLBACK
        else
          var v := parsed.value;
          LandscapeResult(Landscape(v.criticConsensus, v.readerSentiment, v.theDebate), v.questionPrompts.GetOr([]))
  }

  /**
   * A JSON answer wrapped in a ```json fence is unwrapped exactly: the fence
   * and the whitespace next to it go, the body stays.
   */
  lemma FenceRoundTrip(ws1: string, body: string, ws2: string)
    requires IsBlank(ws1) && IsBlank(ws2)
    requires body != [] && !IsSpace(body[0]) && !IsSpace(body[|body| - 1])
    ensures StripFences("```json" + ws1 + body + ws2 + "```") == body
  {
    var t := "```json" + ws1 + body + ws2 + "```";
    assert t[..3] == "```" && t[3..6] == "jso" && t[6] == 'n';
    assert t[7..] == ws1 + (body + ws2 + "```");
    TrimStartBlank(ws1, body + ws2 + "```");
    var s := body + ws2 + "```";
    assert StripLeadingFence(t) == s;
    assert s[|s| - 3..] == "```";
    assert s[..|s| - 3] == body + ws2;
    TrimEndBlank(body, ws2);
  }

  /** An answer with no fence at either end is passed to the parser unchanged. */
  lemma NoFenceUnchanged(t: string)
    requires !StartsWith(t, "```") && !EndsWith(t, "```")
    ensures StripFences(t) == t
  {
    if |t| >= 6 {
      assert t[..3] == t[..6][..3];
    }
  }

  /** A fence without `jso` after the backticks is not stripped at the start. */
  lemma BareFenceKept(body: string)
    requires !EndsWith("```\n" + body, "```")
    ensures StripFences("```\n" + body) == "```\n" + body
  {
    var t := "```\n" + body;
    if |t| >= 6 {
      assert t[3] == '\n';
      assert Lower(t[3..6])[0] == '\n';
    }
  }

  /** Every one of the first 20 chunks is in the sample, and nothing after them matters. */
  lemma SampleFacts(chunks: seq<Chunk>)
    ensures forall k :: 0 <= k < |chunks| && k < MAX_SAMPLE ==> Contains(ExcerptSample(chunks), Excerpt(chunks[k]))
    ensures |chunks| > MAX_SAMPLE ==> ExcerptSample(chunks) == ExcerptSample(chunks[..MAX_SAMPLE])
  {
    forall k | 0 <= k < |chunks| && k < MAX_SAMPLE ensures Contains(ExcerptSample(chunks), Excerpt(chunks[k])) {
      var first := Take(chunks, MAX_SAMPLE);
      assert first[k] == chunks[k];
      JoinContains(MapSeq(first, Excerpt), SAMPLE_SEPARATOR, k);
    }
    if |chunks| > MAX_SAMPLE {
      assert Take(chunks[..MAX_SAMPLE], MAX_SAMPLE) == Take(chunks, MAX_SAMPLE);
    }
  }

  /**
   * No chunk gives the placeholder whatever the model would say; a failed
   * request or an unparsable answer gives the fallback; otherwise the
   * landscape is the parsed one, its question prompts are passed through,
   * and missing question prompts become none.
   */
  lemma LandscapeFacts(m: BookMetadata, chunks: seq<Chunk>, ask: string -> Reply, parse: string -> Option<Parsed>)
    ensures var r := GenerateLandscape(m, chunks, ask, parse);
            (chunks == [] ==> r == PLACEHOLDER && forall ask2 :: GenerateLandscape(m, chunks, ask2, parse) == r) &&
            (chunks != [] && ask(LandscapePrompt(m, chunks)).RequestFailed? ==> r == FALLBACK) &&
            (chunks != [] && ask(LandscapePrompt(m, chunks)).NonText? && parse("") == None ==> r == FALLBACK) &&
            (chunks != [] && ask(LandscapePrompt(m, chunks)).TextReply? ==>
               var p := parse(StripFences(Trim(ask(LandscapePrompt(m, chunks)).text)));
               (p.None? ==> r == FALLBACK) &&
               (p.Some? ==> r.landscape == Landscape(p.value.criticConsensus, p.value.readerSentiment, p.value.theDebate) &&
                            (p.value.questionPrompts.None? ==> r.questionPrompts == []) &&
                            (p.value.questionPrompts.Some? ==> r.questionPrompts == p.value.questionPrompts.value)))
  {
    assert StripFences("") == "";
  }
}
