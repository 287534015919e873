/**
 * The Reddit scraper (lib/scrapers/reddit.ts): three searches merged,
 * deduplicated by permalink, ranked by comment count and capped at six;
 * for each post its own text and its top four comments become
 * `community_discussion` chunks. The searches and the comment fetches are
 * given as their parsed results: a fetch that failed is `Failed`, and an
 * answer whose shape makes the code throw is `Broken`, which empties the
 * whole scraper through its one `catch`.
 */
module Reddit {
  import opened Wrappers
  import opened Seqs
  import opened Types
  import opened Chunker
  import opened Scraped

  const SOURCE: string := "Reddit"
  const MAX_POSTS: nat := 6
  const MAX_COMMENTS: nat := 4

  /**
   * What a Reddit fetch yields: `null` from a failed request, an answer the
   * code throws on (a `children` that is not an array, a missing child or
   * comment), or the listing it reads.
   */
  datatype Answer<T> = Failed | Broken | Listing(items: T)

  datatype Post = Post(title: string, selftext: string, permalink: string, subreddit: string, numComments: int)

  /** A comment; its `score` may be missing, and then counts as 0. */
  datatype Comment = Comment(body: string, permalink: string, score: Option<int>)

  /** An entry of a thread listing: `t1` marks a comment, anything else a "more" marker. */
  datatype Child = Child(kind: string, data: Comment)

  function Permalink(p: Post): string {
    p.permalink
  }

  function NumComments(p: Post): real {
    p.numComments as real
  }

  predicate IsComment(ch: Child) {
    ch.kind == "t1"
  }

  function DataOf(ch: Child): Comment {
    ch.data
  }

  /** `c.score ?? 0` */
  function CommentScore(c: Comment): real {
    (if c.score.Some? then c.score.value else 0) as real
  }

  /** A comment body worth chunking: longer than 60 and not a deletion marker. */
  predicate KeepComment(c: Comment) {
    c.body != "" && |c.body| > 60 && c.body != "[deleted]" && c.body != "[removed]"
  }

  /** A post body worth chunking: longer than 80 and not a deletion marker. */
  predicate KeepPost(p: Post) {
    p.selftext != "" && |p.selftext| > 80 && p.selftext != "[deleted]" && p.selftext != "[removed]"
  }

  /** `data?.data?.children?.map(c => c.data) ?? []` on an answer the code can read. */
  function Posts(found: Answer<seq<Post>>): seq<Post> {
    if found.Listing? then found.items else []
  }

  function Children(found: Answer<seq<Child>>): seq<Child> {
    if found.Listing? then found.items else []
  }

  /** Some search answer makes the code throw. */
  predicate SearchBroken(books: Answer<seq<Post>>, lit: Answer<seq<Post>>, general: Answer<seq<Post>>) {
    books.Broken? || lit.Broken? || general.Broken?
  }

  /** The comment answer of some post among `posts` makes the code throw. */
  predicate ThreadBroken(posts: seq<Post>, thread: string -> Answer<seq<Child>>) {
    exists i :: 0 <= i < |posts| && thread(posts[i].permalink).Broken?
  }

  /** The posts of the three searches, deduplicated by permalink, most commented first, at most six. */
  function AllPosts(books: Answer<seq<Post>>, lit: Answer<seq<Post>>, general: Answer<seq<Post>>): seq<Post> {
    TopN(Dedup(Posts(books) + Posts(lit) + Posts(general), Permalink), NumComments, MAX_POSTS)
  }

  /** The comments of a thread that qualify, in listing order. */
  function Qualifying(children: seq<Child>): seq<Comment> {
    Filter(MapSeq(Filter(children, IsComment), DataOf), KeepComment)
  }

  /** The four highest-scored qualifying comments. */
  function TopComments(children: seq<Child>): seq<Comment> {
    TopN(Qualifying(children), CommentScore, MAX_COMMENTS)
  }

  function PostUrl(p: Post): string {
    "https://www.reddit.com" + p.permalink
  }

  function PostText(p: Post): string {
    "[r/" + p.subreddit + ": " + p.title + "]\n" + p.selftext
  }

  function CommentText(subreddit: string, c: Comment): string {
    "[Discussion in r/" + subreddit + "]\n" + c.body
  }

  function SelfDocs(p: Post): seq<Doc> {
    if KeepPost(p) then [Doc(PostText(p), PostUrl(p), None)] else []
  }

  function CommentDocs(subreddit: string, url: string, cs: seq<Comment>): seq<Doc> {
    seq(|cs|, i requires 0 <= i < |cs| => Doc(CommentText(subreddit, cs[i]), url, None))
  }

  /** The texts one post contributes: its own body if it qualifies, then its top comments. */
  function PostDocs(p: Post, thread: string -> Answer<seq<Child>>): seq<Doc> {
    SelfDocs(p) + CommentDocs(p.subreddit, PostUrl(p), TopComments(Children(thread(p.permalink))))
  }

  function AllDocs(posts: seq<Post>, thread: string -> Answer<seq<Child>>): seq<Doc>
    decreases |posts|
  {
    if posts == [] then []
    else AllDocs(posts[..|posts| - 1], thread) + PostDocs(posts[|posts| - 1], thread)
  }

  /** The texts `scrapeReddit` chunks, in order. */
  function RedditDocs(books: Answer<seq<Post>>, lit: Answer<seq<Post>>, general: Answer<seq<Post>>,
                      thread: string -> Answer<seq<Child>>): seq<Doc> {
    AllDocs(AllPosts(books, lit, general), thread)
  }

  /**
   * What `scrapeReddit` returns: nothing when a search answer or the comment
   * answer of a kept post makes the code throw into its `catch`, otherwise
   * the chunks of `RedditDocs`, ids `newId(base)`, `newId(base + 1)`, …
   */
  function RedditChunks(books: Answer<seq<Post>>, lit: Answer<seq<Post>>, general: Answer<seq<Post>>,
                        thread: string -> Answer<seq<Child>>, newId: nat -> string, base: nat): seq<Chunk> {
    if SearchBroken(books, lit, general) || ThreadBroken(AllPosts(books, lit, general), thread) then []
    else ChunkDocs(RedditDocs(books, lit, general, thread), ChunkContents, SOURCE, CommunityDiscussion, newId, base)
  }

  /**
   * At most six posts, no two with the same permalink, all fetched, most
   * commented first; every post found is represented by its permalink, and
   * no post left out has more comments than one kept.
   */
  lemma AllPostsFacts(books: Answer<seq<Post>>, lit: Answer<seq<Post>>, general: Answer<seq<Post>>)
    ensures |AllPosts(books, lit, general)| <= MAX_POSTS
    ensures KeysDistinct(AllPosts(books, lit, general), Permalink)
    ensures forall p :: p in AllPosts(books, lit, general) ==> p in Posts(books) + Posts(lit) + Posts(general)
    ensures SortedDesc(AllPosts(books, lit, general), NumComments)
    ensures KeysOf(Dedup(Posts(books) + Posts(lit) + Posts(general), Permalink), Permalink) ==
            KeysOf(Posts(books) + Posts(lit) + Posts(general), Permalink)
    ensures forall p, q :: p in AllPosts(books, lit, general) &&
                           q in multiset(Dedup(Posts(books) + Posts(lit) + Posts(general), Permalink)) -
                                multiset(AllPosts(books, lit, general)) ==>
                           p.numComments >= q.numComments
  {
    var all := Posts(books) + Posts(lit) + Posts(general);
    var unique := Dedup(all, Permalink);
    var r := AllPosts(books, lit, general);
    assert KeysDistinct(r, Permalink) by {
      DedupFromKeys(all, Permalink, {});
      SortDescPermutation(unique, NumComments);
      PermutationKeysDistinct(unique, SortDesc(unique, NumComments), Permalink);
      assert r == SortDesc(unique, NumComments)[..|r|];
    }
    assert KeysOf(unique, Permalink) == KeysOf(all, Permalink) by {
      DedupFromKeys(all, Permalink, {});
    }
    TopNFacts(unique, NumComments, MAX_POSTS);
    assert forall p :: p in r ==> p in all by {
      DedupFromMembers(all, Permalink, {});
      forall p | p in r ensures p in all {
        assert p in multiset(unique);
      }
    }
    forall p, q | p in r && q in multiset(unique) - multiset(r) ensures p.numComments >= q.numComments {
      assert NumComments(p) >= NumComments(q);
    }
  }

  /**
   * At most four comments, each a real comment (`t1`) of the thread whose
   * body qualifies, highest score first, none outscored by a qualifying
   * comment left out.
   */
  lemma TopCommentsFacts(children: seq<Child>)
    ensures |TopComments(children)| <= MAX_COMMENTS
    ensures forall c :: c in TopComments(children) ==>
              KeepComment(c) && exists ch :: ch in children && ch.kind == "t1" && ch.data == c
    ensures SortedDesc(TopComments(children), CommentScore)
    ensures forall c, d :: c in TopComments(children) && d in multiset(Qualifying(children)) - multiset(TopComments(children)) ==>
              CommentScore(c) >= CommentScore(d)
  {
    var q := Qualifying(children);
    var r := TopComments(children);
    TopNFacts(q, CommentScore, MAX_COMMENTS);
    QualifyingFacts(children);
    forall c | c in r ensures c in q {
      assert c in multiset(q);
    }
  }

  /** A qualifying comment is a real comment of the thread with a body worth chunking. */
  lemma QualifyingFacts(children: seq<Child>)
    ensures forall c :: c in Qualifying(children) ==>
              KeepComment(c) && exists ch :: ch in children && ch.kind == "t1" && ch.data == c
  {
    var ts := Filter(children, IsComment);
    FilterFacts(MapSeq(ts, DataOf), KeepComment);
    FilterFacts(children, IsComment);
    forall c | c in Qualifying(children) ensures exists ch :: ch in children && ch.kind == "t1" && ch.data == c {
      var i :| 0 <= i < |ts| && MapSeq(ts, DataOf)[i] == c;
      assert ts[i] in ts;
    }
  }

  /**
   * One post gives at most five texts, all linking to the post and without a
   * rating: its own body first when it qualifies, then the body of each top
   * comment, in order, under the header naming the subreddit.
   */
  lemma PostDocsFacts(p: Post, thread: string -> Answer<seq<Child>>)
    ensures |PostDocs(p, thread)| <= 1 + MAX_COMMENTS
    ensures forall d :: d in PostDocs(p, thread) ==> d.sourceUrl == PostUrl(p) && d.rating == None
    ensures KeepPost(p) ==> PostDocs(p, thread)[0].text == PostText(p)
    ensures var s := if KeepPost(p) then 1 else 0;
            var cs := TopComments(Children(thread(p.permalink)));
            && |PostDocs(p, thread)| == s + |cs|
            && forall i :: 0 <= i < |cs| ==>
                 PostDocs(p, thread)[s + i].text == "[Discussion in r/" + p.subreddit + "]\n" + cs[i].body
  {
    TopCommentsFacts(Children(thread(p.permalink)));
  }

  lemma {:induction false} AllDocsFacts(posts: seq<Post>, thread: string -> Answer<seq<Child>>)
    ensures |AllDocs(posts, thread)| <= (1 + MAX_COMMENTS) * |posts|
    ensures forall d :: d in AllDocs(posts, thread) ==>
              d.rating == None && exists p :: p in posts && d.sourceUrl == PostUrl(p)
    decreases |posts|
  {
    if posts != [] {
      var pre := posts[..|posts| - 1];
      var p := posts[|posts| - 1];
      AllDocsFacts(pre, thread);
      PostDocsFacts(p, thread);
      forall d | d in AllDocs(posts, thread) ensures d.rating == None && exists p :: p in posts && d.sourceUrl == PostUrl(p) {
        if d in AllDocs(pre, thread) {
          var e :| e in pre && d.sourceUrl == PostUrl(e);
          assert e in posts;
        } else {
          assert d in PostDocs(p, thread);
        }
      }
    }
  }

  /**
   * The chunks `scrapeReddit` returns carry the source `Reddit`, the type
   * `community_discussion`, consecutive ids and no rating, and each links
   * to one of the kept posts; at most thirty texts are chunked.
   */
  lemma RedditFacts(books: Answer<seq<Post>>, lit: Answer<seq<Post>>, general: Answer<seq<Post>>,
                    thread: string -> Answer<seq<Child>>, newId: nat -> string, base: nat)
    ensures Stamped(RedditChunks(books, lit, general, thread, newId, base), SOURCE, CommunityDiscussion, newId, base)
    ensures forall c :: c in RedditChunks(books, lit, general, thread, newId, base) ==>
              c.rating == None && exists p :: p in AllPosts(books, lit, general) && c.sourceUrl == Some(PostUrl(p))
    ensures |RedditDocs(books, lit, general, thread)| <= MAX_POSTS * (1 + MAX_COMMENTS)
  {
    var posts := AllPosts(books, lit, general);
    var docs := RedditDocs(books, lit, general, thread);
    var chunks := ChunkDocs(docs, ChunkContents, SOURCE, CommunityDiscussion, newId, base);
    ChunkDocsStamps(docs, ChunkContents, SOURCE, CommunityDiscussion, newId, base);
    ChunkDocsOrigin(docs, ChunkContents, SOURCE, CommunityDiscussion, newId, base);
    AllDocsFacts(posts, thread);
    AllPostsFacts(books, lit, general);
    forall c | c in chunks ensures c.rating == None && exists p :: p in posts && c.sourceUrl == Some(PostUrl(p)) {
      var e :| e in docs && c.sourceUrl == Some(e.sourceUrl) && c.rating == e.rating;
      var p :| p in posts && e.sourceUrl == PostUrl(p);
    }
    assert RedditChunks(books, lit, general, thread, newId, base) in {[], chunks};
  }

  lemma CommentDocsNext(subreddit: string, url: string, cs: seq<Comment>, k: nat)
    requires k < |cs|
    ensures CommentDocs(subreddit, url, cs[..k + 1]) ==
            CommentDocs(subreddit, url, cs[..k]) + [Doc(CommentText(subreddit, cs[k]), url, None)]
  {
  }

  lemma AllDocsNext(posts: seq<Post>, i: nat, thread: string -> Answer<seq<Child>>)
    requires i < |posts|
    ensures AllDocs(posts[..i + 1], thread) == AllDocs(posts[..i], thread) + PostDocs(posts[i], thread)
  {
    assert posts[..i + 1][..i] == posts[..i];
  }

  /** The comment loop of one post: pushes each comment's chunks after the ones already pushed. */
  method ChunkComments(chunksIn: seq<Chunk>, ghost docs: seq<Doc>, subreddit: string, url: string, comments: seq<Comment>,
                       newId: nat -> string, base: nat) returns (chunks: seq<Chunk>)
    requires chunksIn == ChunkDocs(docs, ChunkContents, SOURCE, CommunityDiscussion, newId, base)
    ensures chunks == ChunkDocs(docs + CommentDocs(subreddit, url, comments), ChunkContents, SOURCE, CommunityDiscussion, newId, base)
  {
    chunks := chunksIn;
    ghost var ds := docs;
    var k := 0;
    while k < |comments|
      invariant 0 <= k <= |comments|
      invariant ds == docs + CommentDocs(subreddit, url, comments[..k])
      invariant chunks == ChunkDocs(ds, ChunkContents, SOURCE, CommunityDiscussion, newId, base)
    {
      var doc := Doc(CommentText(subreddit, comments[k]), url, None);
      var part := ChunkText(doc.text, SOURCE, doc.sourceUrl, CommunityDiscussion, doc.rating, newId, base + |chunks|);
      PushChunks(ds, doc, chunks, part, ChunkContents, SOURCE, CommunityDiscussion, newId, base);
      CommentDocsNext(subreddit, url, comments, k);
      chunks := chunks + part;
      ds := ds + [doc];
      k := k + 1;
    }
    assert comments[..k] == comments;
  }

  /** The post's own text, pushed when it qualifies. */
  method ChunkSelf(chunksIn: seq<Chunk>, ghost docs: seq<Doc>, post: Post, newId: nat -> string, base: nat)
    returns (chunks: seq<Chunk>)
    requires chunksIn == ChunkDocs(docs, ChunkContents, SOURCE, CommunityDiscussion, newId, base)
    ensures chunks == ChunkDocs(docs + SelfDocs(post), ChunkContents, SOURCE, CommunityDiscussion, newId, base)
  {
    chunks := chunksIn;
    if KeepPost(post) {
      var doc := Doc(PostText(post), PostUrl(post), None);
      var part := ChunkText(doc.text, SOURCE, doc.sourceUrl, CommunityDiscussion, doc.rating, newId, base + |chunks|);
      PushChunks(docs, doc, chunks, part, ChunkContents, SOURCE, CommunityDiscussion, newId, base);
      chunks := chunks + part;
    } else {
      assert SelfDocs(post) == [];
      assert docs + [] == docs;
    }
  }

  /** One pass of the post loop: the post's own text, then its top comments. */
  method ChunkPost(chunksIn: seq<Chunk>, ghost docs: seq<Doc>, post: Post, thread: string -> Answer<seq<Child>>,
                   newId: nat -> string, base: nat) returns (chunks: seq<Chunk>)
    requires chunksIn == ChunkDocs(docs, ChunkContents, SOURCE, CommunityDiscussion, newId, base)
    ensures chunks == ChunkDocs(docs + PostDocs(post, thread), ChunkContents, SOURCE, CommunityDiscussion, newId, base)
  {
    chunks := ChunkSelf(chunksIn, docs, post, newId, base);
    var comments := TopComments(Children(thread(post.permalink)));
    ghost var ds := docs + SelfDocs(post);
    chunks := ChunkComments(chunks, ds, post.subreddit, PostUrl(post), comments, newId, base);
    AppendAssoc(docs, SelfDocs(post), CommentDocs(post.subreddit, PostUrl(post), comments));
  }

  /** Without a throwing answer the scraper returns the chunks of the kept posts' texts. */
  lemma ReadableChunks(books: Answer<seq<Post>>, lit: Answer<seq<Post>>, general: Answer<seq<Post>>,
                       thread: string -> Answer<seq<Child>>, newId: nat -> string, base: nat)
    requires !SearchBroken(books, lit, general) && !ThreadBroken(AllPosts(books, lit, general), thread)
    ensures RedditChunks(books, lit, general, thread, newId, base) ==
            ChunkDocs(AllDocs(AllPosts(books, lit, general), thread), ChunkContents, SOURCE, CommunityDiscussion, newId, base)
  {
  }

  lemma ThreadBrokenNext(posts: seq<Post>, i: nat, thread: string -> Answer<seq<Child>>)
    requires i < |posts|
    ensures ThreadBroken(posts[..i + 1], thread) <==> ThreadBroken(posts[..i], thread) || thread(posts[i].permalink).Broken?
  {
    var a, b := posts[..i], posts[..i + 1];
    assert b[i] == posts[i];
    assert forall j :: 0 <= j < i ==> b[j] == a[j];
  }

  /** A throwing comment answer among the first posts is one among all of them. */
  lemma ThreadBrokenPrefix(posts: seq<Post>, n: nat, thread: string -> Answer<seq<Child>>)
    requires n <= |posts| && ThreadBroken(posts[..n], thread)
    ensures ThreadBroken(posts, thread)
  {
    var j :| 0 <= j < n && thread(posts[..n][j].permalink).Broken?;
    assert posts[..n][j] == posts[j];
  }

  /**
   * `scrapeReddit(title, author)` after the fetches: merge, deduplicate,
   * rank and cap the posts, then push each post's chunks; an answer the
   * code throws on ends it with no chunk. Ids are `newId(base)`,
   * `newId(base + 1)`, …
   */
  method ScrapeReddit(books: Answer<seq<Post>>, lit: Answer<seq<Post>>, general: Answer<seq<Post>>,
                      thread: string -> Answer<seq<Child>>, newId: nat -> string, base: nat)
    returns (chunks: seq<Chunk>)
    ensures chunks == RedditChunks(books, lit, general, thread, newId, base)
  {
    if books.Broken? || lit.Broken? || general.Broken? {
      return [];
    }
    var unique := DedupByKey(Posts(books) + Posts(lit) + Posts(general), Permalink);
    var allPosts := Take(SortDesc(unique, NumComments), MAX_POSTS);
    assert allPosts == AllPosts(books, lit, general);
    chunks := [];
    ghost var docs: seq<Doc> := [];
    var i := 0;
    while i < |allPosts|
      invariant 0 <= i <= |allPosts|
      invariant !ThreadBroken(allPosts[..i], thread)
      invariant docs == AllDocs(allPosts[..i], thread)
      invariant chunks == ChunkDocs(docs, ChunkContents, SOURCE, CommunityDiscussion, newId, base)
    {
      // The body is pushed before the comments are fetched, but a throw discards every chunk either way.
      ThreadBrokenNext(allPosts, i, thread);
      if thread(allPosts[i].permalink).Broken? {
        ThreadBrokenPrefix(allPosts, i + 1, thread);
        return [];
      }
      chunks := ChunkPost(chunks, docs, allPosts[i], thread, newId, base);
      AllDocsNext(allPosts, i, thread);
      docs := docs + PostDocs(allPosts[i], thread);
      i := i + 1;
    }
    assert allPosts[..i] == allPosts;
    ReadableChunks(books, lit, general, thread, newId, base);
  }
}
