/**
 * The book search endpoint (app/api/search/route.ts): both catalogs are
 * searched with the raw query, their hits are mapped to `SearchResult`s,
 * Open Library's placed first, then duplicates by lower-cased title and
 * author are dropped (first one wins) and at most eight are answered.
 * A catalog search is given as a function from the query to its parsed
 * answer; `None` stands for a request that failed or threw, which the
 * route turns into no results.
 */
module SearchRoute {
  import opened Wrappers
  import opened Strings
  import opened Seqs
  import opened Types
  import opened Metadata

  const MIN_QUERY: nat := 2
  const MAX_RESULTS: nat := 8
  const UNKNOWN_AUTHOR: string := "Unknown Author"
  const WORKS_PREFIX: string := "/works/"
  const GOOGLE_PREFIX: string := "gb_"
  const OPEN_LIBRARY_COVER: string := "https://covers.openlibrary.org/b/id/"
  const MEDIUM_COVER: string := "-M.jpg"

  /** An Open Library search hit. */
  datatype OpenLibraryDoc = OpenLibraryDoc(
    key: string,
    title: string,
    authorName: Option<seq<string>>,
    firstPublishYear: Option<int>,
    coverId: Option<int>)

  /** A Google Books volume with the `volumeInfo` fields the route reads. */
  datatype GoogleVolume = GoogleVolume(
    id: string,
    title: string,
    authors: Option<seq<string>>,
    publishedDate: Option<string>,
    thumbnail: Option<string>,
    smallThumbnail: Option<string>)

  /** `names?.[0] ?? 'Unknown Author'` */
  function FirstAuthor(names: Option<seq<string>>): string {
    if names.Some? && |names.value| > 0 then names.value[0] else UNKNOWN_AUTHOR
  }

  /** The result an Open Library hit becomes. */
  function FromOpenLibrary(d: OpenLibraryDoc): SearchResult {
    SearchResult(
      id := ReplaceFirst(d.key, WORKS_PREFIX, ""),
      title := d.title,
      author := FirstAuthor(d.authorName),
      year := d.firstPublishYear.GetOr(0),
      cover := if NonZero(d.coverId) then OPEN_LIBRARY_COVER + IntToString(d.coverId.value) + MEDIUM_COVER else "")
  }

  /**
   * The result a Google Books volume becomes; `parseInt` reads the first
   * four characters of the publication date.
   */
  function FromGoogleBooks(v: GoogleVolume, parseInt: string -> int): SearchResult {
    SearchResult(
      id := GOOGLE_PREFIX + v.id,
      title := v.title,
      author := FirstAuthor(v.authors),
      year := if Truthy(v.publishedDate) then parseInt(Take(v.publishedDate.value, 4)) else 0,
      cover := OrString(HttpsOf(v.thumbnail), OrString(HttpsOf(v.smallThumbnail), "")))
  }

  /** `searchOpenLibrary` after the request. */
  function OpenLibraryResults(docs: Option<seq<OpenLibraryDoc>>): seq<SearchResult> {
    if docs.Some? then MapSeq(docs.value, FromOpenLibrary) else []
  }

  /** `searchGoogleBooks` after the request. */
  function GoogleBooksResults(items: Option<seq<GoogleVolume>>, parseInt: string -> int): seq<SearchResult> {
    if items.Some? then MapSeq(items.value, v => FromGoogleBooks(v, parseInt)) else []
  }

  /** The duplicate key: lower-cased title, a hyphen, lower-cased author. */
  function DedupKey(r: SearchResult): string {
    Lower(r.title) + "-" + Lower(r.author)
  }

  /** `deduplicateResults`: the first result with each key, in order. */
  function Deduplicated(results: seq<SearchResult>): seq<SearchResult> {
    Dedup(results, DedupKey)
  }

  /** `!query || query.trim().length < 2` fails: the catalogs are searched. */
  predicate Accepts(query: Option<string>) {
    query.Some? && |Trim(query.value)| >= MIN_QUERY
  }

  /** The answer of `GET` for the `q` parameter `query`. */
  function Get(query: Option<string>, openLibrary: string -> Option<seq<OpenLibraryDoc>>,
               googleBooks: string -> Option<seq<GoogleVolume>>, parseInt: string -> int): seq<SearchResult>
  {
    if !Accepts(query) then []
    else
      var q := query.value;
      Take(Deduplicated(OpenLibraryResults(openLibrary(q)) + GoogleBooksResults(googleBooks(q), parseInt)), MAX_RESULTS)
  }

  /**
   * The deduplicated list holds one result per key of the input, no two with
   * the same key, each the first input result with its key, in the order
   * those first results appear.
   */
  lemma DeduplicatedFacts(results: seq<SearchResult>)
    ensures var out := Deduplicated(results);
            KeysOf(out, DedupKey) == KeysOf(results, DedupKey) &&
            KeysDistinct(out, DedupKey) &&
            |out| <= |results| &&
            (forall i :: 0 <= i < |out| ==>
               DedupKey(out[i]) in KeysOf(results, DedupKey) &&
               out[i] == results[FirstIndex(results, DedupKey, DedupKey(out[i]))]) &&
            (forall i, j :: 0 <= i < j < |out| ==>
               DedupKey(out[i]) in KeysOf(results, DedupKey) && DedupKey(out[j]) in KeysOf(results, DedupKey) &&
               FirstIndex(results, DedupKey, DedupKey(out[i])) < FirstIndex(results, DedupKey, DedupKey(out[j])))
  {
    DedupFromKeys(results, DedupKey, {});
    DedupFromFirst(results, DedupKey, {});
  }

  /**
   * Open Library results come first: the deduplicated Open Library list is
   * a prefix of the merged list, and a merged result whose key some Open
   * Library result has is an Open Library result.
   */
  lemma OpenLibraryWins(ol: seq<SearchResult>, gb: seq<SearchResult>)
    ensures Deduplicated(ol) <= Deduplicated(ol + gb)
    ensures forall r :: r in Deduplicated(ol + gb) && DedupKey(r) in KeysOf(ol, DedupKey) ==> r in ol
  {
    DedupFromAppend(ol, gb, DedupKey, {});
    var seen := {} + KeysOf(ol, DedupKey);
    var rest := DedupFrom(gb, DedupKey, seen);
    DedupFromKeys(gb, DedupKey, seen);
    DedupFromMembers(ol, DedupKey, {});
    // what the Google Books part keeps has keys Open Library does not have
    assert forall r :: r in rest ==> DedupKey(r) !in KeysOf(ol, DedupKey);
  }

  /**
   * The key does not tell where the title ends: "a-b" by "c" and "a" by
   * "b-c" share the key "a-b-c", so the second is dropped.
   */
  lemma AmbiguousKeyCollapses()
    ensures var x, y := SearchResult("1", "a-b", "c", 0, ""), SearchResult("2", "a", "b-c", 0, "");
            x != y && Deduplicated([x, y]) == [x]
  {
    var x, y := SearchResult("1", "a-b", "c", 0, ""), SearchResult("2", "a", "b-c", 0, "");
    assert Lower("a-b") == "a-b" && Lower("c") == "c";
    assert Lower("a") == "a" && Lower("b-c") == "b-c";
    assert DedupKey(x) == DedupKey(y);
    DedupPair(x, y);
  }

  /** Two results with the same key deduplicate to the first. */
  lemma DedupPair(r: SearchResult, s: SearchResult)
    requires DedupKey(r) == DedupKey(s)
    ensures Deduplicated([r, s]) == [r]
  {
    var k := DedupKey(r);
    assert [r, s][1..] == [s];
    assert [s][1..] == [];
    assert DedupFrom([s], DedupKey, {k}) == [];
    assert DedupFrom([r, s], DedupKey, {}) == [r] + DedupFrom([s], DedupKey, {} + {k});
  }

  /** Titles and authors that differ only in letter case are duplicates. */
  lemma CaseInsensitive(r: SearchResult, s: SearchResult)
    requires Lower(r.title) == Lower(s.title) && Lower(r.author) == Lower(s.author)
    ensures Deduplicated([r, s]) == [r]
  {
    DedupPair(r, s);
  }

  /**
   * An Open Library result's id is its work key without `/works/`; a
   * missing or empty author list gives `Unknown Author`, a missing year
   * 0, and there is a medium cover exactly when the cover id is non-zero.
   */
  lemma OpenLibraryMapping(d: OpenLibraryDoc, w: string)
    ensures d.key == WORKS_PREFIX + w ==> FromOpenLibrary(d).id == w
    ensures !Contains(d.key, WORKS_PREFIX) ==> FromOpenLibrary(d).id == d.key
    ensures FromOpenLibrary(d).author == UNKNOWN_AUTHOR <==>
              d.authorName.None? || |d.authorName.value| == 0 || d.authorName.value[0] == UNKNOWN_AUTHOR
    ensures d.firstPublishYear.None? ==> FromOpenLibrary(d).year == 0
    ensures d.firstPublishYear.Some? ==> FromOpenLibrary(d).year == d.firstPublishYear.value
    ensures FromOpenLibrary(d).cover != "" <==> NonZero(d.coverId)
    ensures NonZero(d.coverId) ==>
              StartsWith(FromOpenLibrary(d).cover, OPEN_LIBRARY_COVER) && EndsWith(FromOpenLibrary(d).cover, MEDIUM_COVER)
  {
    if d.key == WORKS_PREFIX + w {
      assert WORKS_PREFIX <= d.key;
    }
    if NonZero(d.coverId) {
      var c := OPEN_LIBRARY_COVER + IntToString(d.coverId.value) + MEDIUM_COVER;
      assert c[..|OPEN_LIBRARY_COVER|] == OPEN_LIBRARY_COVER;
      assert c[|c| - |MEDIUM_COVER|..] == MEDIUM_COVER;
    }
  }

  /**
   * A Google Books result's id is `gb_` and the volume id, so it gives the
   * volume id back; its year is 0 without a publication date, and its cover
   * is the thumbnail, else the small thumbnail, moved to https.
   */
  lemma GoogleBooksMapping(v: GoogleVolume, parseInt: string -> int)
    ensures var r := FromGoogleBooks(v, parseInt);
            StartsWith(r.id, GOOGLE_PREFIX) && r.id[|GOOGLE_PREFIX|..] == v.id &&
            r.author == FirstAuthor(v.authors) &&
            (!Truthy(v.publishedDate) ==> r.year == 0) &&
            (Truthy(v.thumbnail) ==> r.cover == Https(v.thumbnail.value)) &&
            (!Truthy(v.thumbnail) && Truthy(v.smallThumbnail) ==> r.cover == Https(v.smallThumbnail.value)) &&
            (!Truthy(v.thumbnail) && !Truthy(v.smallThumbnail) ==> r.cover == "")
  {
    var r := FromGoogleBooks(v, parseInt);
    assert r.id[..|GOOGLE_PREFIX|] == GOOGLE_PREFIX;
    if Truthy(v.thumbnail) {
      HttpsNonEmpty(v.thumbnail.value);
    } else if Truthy(v.smallThumbnail) {
      HttpsNonEmpty(v.smallThumbnail.value);
    }
  }

  /**
   * The answer: empty for a missing or too-short query whatever the
   * catalogs would say; otherwise at most eight results with pairwise
   * distinct keys, all drawn from the two catalogs' results, in merged
   * order, with Open Library's first.
   */
  lemma GetFacts(query: Option<string>, openLibrary: string -> Option<seq<OpenLibraryDoc>>,
                 googleBooks: string -> Option<seq<GoogleVolume>>, parseInt: string -> int)
    ensures var r := Get(query, openLibrary, googleBooks, parseInt);
            |r| <= MAX_RESULTS &&
            (!Accepts(query) ==> r == []) &&
            (Accepts(query) ==>
               var ol := OpenLibraryResults(openLibrary(query.value));
               var gb := GoogleBooksResults(googleBooks(query.value), parseInt);
               r <= Deduplicated(ol + gb) &&
               KeysDistinct(r, DedupKey) &&
               (forall x :: x in r ==> x in ol + gb) &&
               (forall x :: x in r && DedupKey(x) in KeysOf(ol, DedupKey) ==> x in ol))
  {
    if Accepts(query) {
      var ol := OpenLibraryResults(openLibrary(query.value));
      var gb := GoogleBooksResults(googleBooks(query.value), parseInt);
      var merged := Deduplicated(ol + gb);
      var r := Take(merged, MAX_RESULTS);
      DeduplicatedFacts(ol + gb);
      DedupFromMembers(ol + gb, DedupKey, {});
      OpenLibraryWins(ol, gb);
      forall i, j | 0 <= i < j < |r| ensures DedupKey(r[i]) != DedupKey(r[j]) {
        assert r[i] == merged[i] && r[j] == merged[j];
      }
    }
  }

  /**
   * The response does not depend on the catalogs when the query is
   * rejected: neither is consulted.
   */
  lemma RejectedQueryIgnoresCatalogs(query: Option<string>,
                                     ol1: string -> Option<seq<OpenLibraryDoc>>, gb1: string -> Option<seq<GoogleVolume>>,
                                     ol2: string -> Option<seq<OpenLibraryDoc>>, gb2: string -> Option<seq<GoogleVolume>>,
                                     parseInt: string -> int)
    requires query.None? || |Trim(query.value)| < MIN_QUERY
    ensures Get(query, ol1, gb1, parseInt) == Get(query, ol2, gb2, parseInt) == []
  {
  }

  /**
   * `GET`: the guard, both searches, the merge with the `seen`-set filter
   * and the cut to eight.
   */
  method HandleGet(query: Option<string>, openLibrary: string -> Option<seq<OpenLibraryDoc>>,
                   googleBooks: string -> Option<seq<GoogleVolume>>, parseInt: string -> int)
    returns (response: seq<SearchResult>)
    ensures response == Get(query, openLibrary, googleBooks, parseInt)
    ensures |response| <= MAX_RESULTS && KeysDistinct(response, DedupKey)
  {
    GetFacts(query, openLibrary, googleBooks, parseInt);
    if query.None? || |Trim(query.value)| < MIN_QUERY {
      return [];
    }
    var olResults := OpenLibraryResults(openLibrary(query.value));
    var gbResults := GoogleBooksResults(googleBooks(query.value), parseInt);
    var merged := DedupByKey(olResults + gbResults, DedupKey);
    response := Take(merged, MAX_RESULTS);
  }
}
