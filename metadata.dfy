/**
 * Metadata enrichment (lib/metadata.ts): the fields derived from the Open
 * Library and Google Books answers, and the merge of those two partial
 * records into the partial record the search produced. The HTTP requests are
 * not modelled: each lookup is given as the data it answered with, `None`
 * standing for a request that failed. `parseInt` and the one-decimal rounding
 * of the average rating are parameters.
 */
module Metadata {
  import opened Wrappers
  import opened Strings
  import opened Seqs
  import opened Types

  /** `Partial<BookMetadata>` without `id`: an absent field is `None`. */
  datatype Partial = Partial(
    title: Option<string>,
    author: Option<string>,
    year: Option<int>,
    cover: Option<string>,
    synopsis: Option<string>,
    genre: Option<seq<string>>,
    pageCount: Option<int>,
    goodreadsRating: Option<real>,
    ratingsCount: Option<int>)

  /** `{}`: what a failed lookup contributes. */
  const EMPTY: Partial := Partial(None, None, None, None, None, None, None, None, None)

  const MAX_SYNOPSIS: nat := 2000
  const MAX_GENRES: nat := 5
  const COVER_PREFIX: string := "https://covers.openlibrary.org/b/id/"

  /** A string field that JavaScript treats as true: present and non-empty. */
  predicate Truthy(s: Option<string>) {
    s.Some? && s.value != ""
  }

  /** A number field that JavaScript treats as true: present and non-zero. */
  predicate NonZero(n: Option<int>) {
    n.Some? && n.value != 0
  }

  /** `a || b` on a string. */
  function OrString(a: Option<string>, b: string): string {
    if Truthy(a) then a.value else b
  }

  /** `a || b` on a number. */
  function OrNumber(a: Option<int>, b: int): int {
    if NonZero(a) then a.value else b
  }

  /** `a || b` on an array: every array is truthy, the empty one too. */
  function OrList(a: Option<seq<string>>, b: seq<string>): seq<string> {
    if a.Some? then a.value else b
  }

  /** `s || undefined` */
  function StringOrAbsent(s: string): Option<string> {
    if s != "" then Some(s) else None
  }

  /** `n || undefined` */
  function NumberOrAbsent(n: int): Option<int> {
    if n != 0 then Some(n) else None
  }

  // ---------------------------------------------------------------------
  // The merge of `enrichMetadata`
  // ---------------------------------------------------------------------

  /** The merged record: Open Library first, then the partial or Google Books, field by field. */
  function Merge(partial: BookMetadata, ol: Partial, gb: Partial): BookMetadata {
    BookMetadata(
      id := partial.id,
      title := OrString(ol.title, partial.title),
      author := OrString(ol.author, partial.author),
      year := OrNumber(ol.year, OrNumber(Some(partial.year), 0)),
      cover := OrString(ol.cover, OrString(Some(partial.cover), OrString(gb.cover, ""))),
      synopsis := OrString(ol.synopsis, OrString(gb.synopsis, OrString(Some(partial.synopsis), ""))),
      genre := OrList(ol.genre, OrList(gb.genre, OrList(Some(partial.genre), []))),
      pageCount := OrNumber(ol.pageCount, OrNumber(gb.pageCount, OrNumber(Some(partial.pageCount), 0))),
      goodreadsRating := ol.goodreadsRating,
      ratingsCount := ol.ratingsCount)
  }

  /** `enrichMetadata(partial)` after its two lookups: Open Library is consulted only for ids without the `gb_` prefix. */
  function EnrichMetadata(partial: BookMetadata, olLookup: Partial, gbLookup: Partial): BookMetadata {
    Merge(partial, if StartsWith(partial.id, "gb_") then EMPTY else olLookup, gbLookup)
  }

  /**
   * `r` is the first truthy string among `cands`, or "" when none is: the
   * meaning of a chain `c0 || c1 || … || ''`.
   */
  predicate FirstTruthyString(r: string, cands: seq<Option<string>>) {
    (r == "" && forall i :: 0 <= i < |cands| ==> !Truthy(cands[i])) ||
    (exists i :: 0 <= i < |cands| && cands[i] == Some(r) && r != "" && forall j :: 0 <= j < i ==> !Truthy(cands[j]))
  }

  /** The same for numbers, with 0 as the only false value. */
  predicate FirstNonZero(r: int, cands: seq<Option<int>>) {
    (r == 0 && forall i :: 0 <= i < |cands| ==> !NonZero(cands[i])) ||
    (exists i :: 0 <= i < |cands| && cands[i] == Some(r) && r != 0 && forall j :: 0 <= j < i ==> !NonZero(cands[j]))
  }

  lemma OrStringPicks(a: Option<string>, r: string, rest: seq<Option<string>>)
    requires FirstTruthyString(r, rest)
    ensures FirstTruthyString(OrString(a, r), [a] + rest)
  {
    var cands := [a] + rest;
    if !Truthy(a) {
      if r != "" {
        var i :| 0 <= i < |rest| && rest[i] == Some(r) && r != "" && forall j :: 0 <= j < i ==> !Truthy(rest[j]);
        assert cands[i + 1] == Some(r);
        assert forall j :: 0 <= j < i + 1 ==> !Truthy(cands[j]) by {
          forall j | 0 <= j < i + 1 ensures !Truthy(cands[j]) {
            if j > 0 { assert cands[j] == rest[j - 1]; }
          }
        }
      } else {
        assert forall i :: 0 <= i < |cands| ==> !Truthy(cands[i]) by {
          forall i | 0 <= i < |cands| ensures !Truthy(cands[i]) {
            if i > 0 { assert cands[i] == rest[i - 1]; }
          }
        }
      }
    } else {
      assert cands[0] == a;
    }
  }

  lemma OrNumberPicks(a: Option<int>, r: int, rest: seq<Option<int>>)
    requires FirstNonZero(r, rest)
    ensures FirstNonZero(OrNumber(a, r), [a] + rest)
  {
    var cands := [a] + rest;
    if !NonZero(a) {
      if r != 0 {
        var i :| 0 <= i < |rest| && rest[i] == Some(r) && r != 0 && forall j :: 0 <= j < i ==> !NonZero(rest[j]);
        assert cands[i + 1] == Some(r);
        assert forall j :: 0 <= j < i + 1 ==> !NonZero(cands[j]) by {
          forall j | 0 <= j < i + 1 ensures !NonZero(cands[j]) {
            if j > 0 { assert cands[j] == rest[j - 1]; }
          }
        }
      } else {
        assert forall i :: 0 <= i < |cands| ==> !NonZero(cands[i]) by {
          forall i | 0 <= i < |cands| ensures !NonZero(cands[i]) {
            if i > 0 { assert cands[i] == rest[i - 1]; }
          }
        }
      }
    } else {
      assert cands[0] == a;
    }
  }

  /** `a || b || c || ''` picks the first truthy of the three. */
  lemma ChainString(a: Option<string>, b: Option<string>, c: Option<string>)
    ensures FirstTruthyString(OrString(a, OrString(b, OrString(c, ""))), [a, b, c])
  {
    var none: seq<Option<string>> := [];
    OrStringPicks(c, "", none);
    assert [c] + none == [c];
    OrStringPicks(b, OrString(c, ""), [c]);
    assert [b] + [c] == [b, c];
    OrStringPicks(a, OrString(b, OrString(c, "")), [b, c]);
    assert [a] + [b, c] == [a, b, c];
  }

  /** `a || b || ''` picks the first truthy of the two. */
  lemma ChainString2(a: Option<string>, b: Option<string>)
    ensures FirstTruthyString(OrString(a, OrString(b, "")), [a, b])
  {
    var none: seq<Option<string>> := [];
    OrStringPicks(b, "", none);
    assert [b] + none == [b];
    OrStringPicks(a, OrString(b, ""), [b]);
    assert [a] + [b] == [a, b];
  }

  /** `a || b || c || 0` picks the first non-zero of the three. */
  lemma ChainNumber(a: Option<int>, b: Option<int>, c: Option<int>)
    ensures FirstNonZero(OrNumber(a, OrNumber(b, OrNumber(c, 0))), [a, b, c])
  {
    var none: seq<Option<int>> := [];
    OrNumberPicks(c, 0, none);
    assert [c] + none == [c];
    OrNumberPicks(b, OrNumber(c, 0), [c]);
    assert [b] + [c] == [b, c];
    OrNumberPicks(a, OrNumber(b, OrNumber(c, 0)), [b, c]);
    assert [a] + [b, c] == [a, b, c];
  }

  /** `a || b || 0` picks the first non-zero of the two. */
  lemma ChainNumber2(a: Option<int>, b: Option<int>)
    ensures FirstNonZero(OrNumber(a, OrNumber(b, 0)), [a, b])
  {
    var none: seq<Option<int>> := [];
    OrNumberPicks(b, 0, none);
    assert [b] + none == [b];
    OrNumberPicks(a, OrNumber(b, 0), [b]);
    assert [a] + [b] == [a, b];
  }

  /**
   * Field-by-field precedence of the merge: the id is the partial's; title
   * and author come from Open Library when truthy, else the partial; year
   * from Open Library, else the partial, 0 counting as missing; cover from
   * Open Library, the partial, Google Books, in that order; synopsis and
   * page count from Open Library, Google Books, the partial; genre from the
   * first of the three that has an array at all; the two rating fields from
   * Open Library only.
   */
  lemma MergeFacts(partial: BookMetadata, ol: Partial, gb: Partial)
    ensures var m := Merge(partial, ol, gb);
            m.id == partial.id &&
            FirstTruthyString(m.title, [ol.title, Some(partial.title)]) &&
            FirstTruthyString(m.author, [ol.author, Some(partial.author)]) &&
            FirstNonZero(m.year, [ol.year, Some(partial.year)]) &&
            FirstTruthyString(m.cover, [ol.cover, Some(partial.cover), gb.cover]) &&
            FirstTruthyString(m.synopsis, [ol.synopsis, gb.synopsis, Some(partial.synopsis)]) &&
            FirstNonZero(m.pageCount, [ol.pageCount, gb.pageCount, Some(partial.pageCount)]) &&
            m.genre == (if ol.genre.Some? then ol.genre.value else if gb.genre.Some? then gb.genre.value else partial.genre) &&
            m.goodreadsRating == ol.goodreadsRating && m.ratingsCount == ol.ratingsCount
  {
    ChainString2(ol.title, Some(partial.title));
    ChainString2(ol.author, Some(partial.author));
    ChainNumber2(ol.year, Some(partial.year));
    ChainString(ol.cover, Some(partial.cover), gb.cover);
    ChainString(ol.synopsis, gb.synopsis, Some(partial.synopsis));
    ChainNumber(ol.pageCount, gb.pageCount, Some(partial.pageCount));
  }

  /**
   * Google Books never decides the title, author, year or ratings: two
   * merges that differ only in the Google Books record agree on them.
   */
  lemma MergeIgnoresGoogleForIdentity(partial: BookMetadata, ol: Partial, gb1: Partial, gb2: Partial)
    ensures var m1, m2 := Merge(partial, ol, gb1), Merge(partial, ol, gb2);
            m1.id == m2.id && m1.title == m2.title && m1.author == m2.author && m1.year == m2.year &&
            m1.goodreadsRating == m2.goodreadsRating && m1.ratingsCount == m2.ratingsCount
  {
  }

  /**
   * A Google Books id (`gb_` prefix) is never looked up in Open Library:
   * its title, author and year are the partial's and it has no rating.
   * Any other id is merged with the Open Library answer.
   */
  lemma EnrichFacts(partial: BookMetadata, olLookup: Partial, gbLookup: Partial)
    ensures var m := EnrichMetadata(partial, olLookup, gbLookup);
            m.id == partial.id &&
            (StartsWith(partial.id, "gb_") ==>
               m.title == partial.title && m.author == partial.author && m.year == partial.year &&
               m.goodreadsRating == None && m.ratingsCount == None) &&
            (!StartsWith(partial.id, "gb_") ==> m == Merge(partial, olLookup, gbLookup))
  {
    if StartsWith(partial.id, "gb_") {
      MergeFacts(partial, EMPTY, gbLookup);
    }
  }

  // ---------------------------------------------------------------------
  // `fetchOpenLibraryFull`
  // ---------------------------------------------------------------------

  /** `work.description`: a string, an object with an optional `value`, or absent. */
  datatype Description = DescriptionText(text: string) | DescriptionObject(value: Option<string>) | NoDescription

  /**
   * The fields of `works/<id>.json` the lookup reads; `authorKey` is the key
   * of the first listed author, `coverId` the first cover id.
   */
  datatype Work = Work(
    title: Option<string>,
    authorKey: Option<string>,
    coverId: Option<int>,
    description: Description,
    firstPublishDate: Option<string>,
    subjects: Option<seq<string>>)

  datatype Edition = Edition(numberOfPages: Option<int>, publishDate: Option<string>)

  /** `ratings.json`'s `summary`. */
  datatype RatingSummary = RatingSummary(average: Option<real>, count: Option<int>)

  /** `e.number_of_pages ?? 0` */
  function Pages(e: Edition): int {
    e.numberOfPages.GetOr(0)
  }

  predicate HasPages(e: Edition) {
    Pages(e) > 0
  }

  /** `editions.find(e => (e.number_of_pages ?? 0) > 0)` */
  function FirstWithPages(editions: seq<Edition>): Option<Edition>
    decreases |editions|
  {
    if editions == [] then None
    else if HasPages(editions[0]) then Some(editions[0])
    else FirstWithPages(editions[1..])
  }

  function Synopsis(d: Description): string {
    match d
    case DescriptionText(text) => text
    case DescriptionObject(value) => value.GetOr("")
    case NoDescription => ""
  }

  /** `year`, before `|| undefined`: `None` is the `NaN` of a date `parseInt` cannot read. */
  function RawYear(work: Work, editions: seq<Edition>, parseYear: string -> Option<int>): Option<int> {
    if Truthy(work.firstPublishDate) then parseYear(work.firstPublishDate.value)
    else if |editions| > 0 && Truthy(editions[0].publishDate) then parseYear(editions[0].publishDate.value)
    else Some(0)
  }

  /**
   * The record `fetchOpenLibraryFull` returns. `work` is the work lookup
   * (`None`: it failed, so the whole lookup yields `{}`); `ratings` and
   * `editions` are the two lookups that may fail on their own (`[]` for a
   * failed editions lookup); `authorName` answers the author lookup;
   * `roundTenth` is `parseFloat(x.toFixed(1))`.
   */
  function OpenLibraryFields(work: Option<Work>, ratings: Option<RatingSummary>, editions: seq<Edition>,
                             authorName: string -> Option<string>, parseYear: string -> Option<int>,
                             roundTenth: real -> real): Partial
  {
    if work.None? then EMPTY
    else
      var w := work.value;
      var edition := FirstWithPages(editions);
      var pageCount := if edition.Some? then Pages(edition.value) else 0;
      var author := if Truthy(w.authorKey) then authorName(w.authorKey.value).GetOr("") else "";
      var cover := if NonZero(w.coverId) then COVER_PREFIX + IntToString(w.coverId.value) + "-L.jpg" else "";
      var year := RawYear(w, editions, parseYear);
      var genre := if w.subjects.Some? then Take(w.subjects.value, MAX_GENRES) else [];
      Partial(
        title := w.title,
        author := StringOrAbsent(author),
        year := if year.Some? then NumberOrAbsent(year.value) else None,
        cover := StringOrAbsent(cover),
        synopsis := StringOrAbsent(Take(Synopsis(w.description), MAX_SYNOPSIS)),
        genre := if |genre| > 0 then Some(genre) else None,
        pageCount := NumberOrAbsent(pageCount),
        goodreadsRating := if ratings.Some? && ratings.value.average.Some? && ratings.value.average.value != 0.0
                           then Some(roundTenth(ratings.value.average.value)) else None,
        ratingsCount := if ratings.Some? then ratings.value.count else None)
  }

  /** `find` picks the first edition with a positive page count, or none when no edition has one. */
  lemma {:induction false} FirstWithPagesFacts(editions: seq<Edition>)
    ensures var e := FirstWithPages(editions);
            (e.None? <==> forall i :: 0 <= i < |editions| ==> !HasPages(editions[i])) &&
            (e.Some? ==> exists i :: 0 <= i < |editions| && editions[i] == e.value && HasPages(e.value) &&
                                     forall j :: 0 <= j < i ==> !HasPages(editions[j]))
    decreases |editions|
  {
    if editions != [] && !HasPages(editions[0]) {
      var rest := editions[1..];
      FirstWithPagesFacts(rest);
      var e := FirstWithPages(editions);
      if e.Some? {
        var i :| 0 <= i < |rest| && rest[i] == e.value && HasPages(e.value) && forall j :: 0 <= j < i ==> !HasPages(rest[j]);
        assert editions[i + 1] == e.value;
        forall j | 0 <= j < i + 1 ensures !HasPages(editions[j]) {
          if j > 0 { assert editions[j] == rest[j - 1]; }
        }
      } else {
        forall i | 0 <= i < |editions| ensures !HasPages(editions[i]) {
          if i > 0 { assert editions[i] == rest[i - 1]; }
        }
      }
    }
  }

  /**
   * What Open Library contributes is bounded: a failed work lookup gives
   * `{}`; a synopsis is a non-empty prefix of the description of at most
   * 2000 characters; a genre list a non-empty prefix of the subjects of at
   * most 5; a page count that of the first edition with pages, positive;
   * year and author, when present, are non-zero and non-empty, and a cover
   * is an Open Library cover URL.
   */
  lemma OpenLibraryFacts(work: Option<Work>, ratings: Option<RatingSummary>, editions: seq<Edition>,
                         authorName: string -> Option<string>, parseYear: string -> Option<int>,
                         roundTenth: real -> real)
    ensures var p := OpenLibraryFields(work, ratings, editions, authorName, parseYear, roundTenth);
            (work.None? ==> p == EMPTY) &&
            (work.Some? ==> p.title == work.value.title) &&
            (p.synopsis.Some? ==> 0 < |p.synopsis.value| <= MAX_SYNOPSIS && p.synopsis.value <= Synopsis(work.value.description)) &&
            (p.genre.Some? ==> 0 < |p.genre.value| <= MAX_GENRES && p.genre.value <= work.value.subjects.value) &&
            (p.pageCount.Some? <==> work.Some? && exists i :: 0 <= i < |editions| && HasPages(editions[i])) &&
            (p.pageCount.Some? ==>
               p.pageCount.value > 0 &&
               exists i :: 0 <= i < |editions| && Pages(editions[i]) == p.pageCount.value &&
                           forall j :: 0 <= j < i ==> !HasPages(editions[j])) &&
            (p.year.Some? ==> p.year.value != 0) &&
            (p.author.Some? ==> p.author.value != "" && authorName(work.value.authorKey.value) == p.author) &&
            (p.cover.Some? ==> StartsWith(p.cover.value, COVER_PREFIX)) &&
            (p.goodreadsRating.Some? ==> ratings.Some? && ratings.value.average.Some?) &&
            (ratings.None? ==> p.goodreadsRating.None? && p.ratingsCount.None?)
  {
    FirstWithPagesFacts(editions);
  }

  // ---------------------------------------------------------------------
  // `fetchGoogleBooksFull`
  // ---------------------------------------------------------------------

  /** The `volumeInfo` of the first search result; the two image links are those of `imageLinks`. */
  datatype Volume = Volume(
    description: Option<string>,
    categories: Option<seq<string>>,
    pageCount: Option<int>,
    large: Option<string>,
    thumbnail: Option<string>)

  /** `url.replace('http://', 'https://')` */
  function Https(url: string): string {
    ReplaceFirst(url, "http://", "https://")
  }

  function HttpsOf(url: Option<string>): Option<string> {
    if url.Some? then Some(Https(url.value)) else None
  }

  /** Upgrading the scheme never empties a link. */
  lemma HttpsNonEmpty(url: string)
    requires url != ""
    ensures Https(url) != ""
  {
  }

  /**
   * The record `fetchGoogleBooksFull` returns for the first result `item`
   * (`None`: no result, or the request failed, both giving `{}`).
   */
  function GoogleBooksFields(item: Option<Volume>): Partial {
    if item.None? then EMPTY
    else
      var v := item.value;
      var cover := OrString(HttpsOf(v.large), OrString(HttpsOf(v.thumbnail), ""));
      Partial(
        title := None,
        author := None,
        year := None,
        cover := StringOrAbsent(cover),
        synopsis := v.description,
        genre := if v.categories.Some? && |v.categories.value| > 0 then v.categories else None,
        pageCount := v.pageCount,
        goodreadsRating := None,
        ratingsCount := None)
  }

  /**
   * Google Books supplies only cover, synopsis, genre and page count; the
   * cover is the large image if it has one, else the thumbnail, both moved
   * to https; synopsis and categories are passed on uncapped.
   */
  lemma GoogleBooksFacts(item: Option<Volume>)
    ensures var p := GoogleBooksFields(item);
            p.title.None? && p.author.None? && p.year.None? && p.goodreadsRating.None? && p.ratingsCount.None? &&
            (item.None? ==> p == EMPTY) &&
            (item.Some? ==>
               p.synopsis == item.value.description && p.pageCount == item.value.pageCount &&
               (p.genre.Some? <==> item.value.categories.Some? && |item.value.categories.value| > 0) &&
               (p.genre.Some? ==> p.genre == item.value.categories) &&
               (Truthy(item.value.large) ==> p.cover == Some(Https(item.value.large.value))) &&
               (!Truthy(item.value.large) && Truthy(item.value.thumbnail) ==> p.cover == Some(Https(item.value.thumbnail.value))) &&
               (!Truthy(item.value.large) && !Truthy(item.value.thumbnail) ==> p.cover == None))
  {
    if item.Some? {
      var v := item.value;
      if Truthy(v.large) {
        HttpsNonEmpty(v.large.value);
      } else if Truthy(v.thumbnail) {
        HttpsNonEmpty(v.thumbnail.value);
      }
      if v.large.Some? && !Truthy(v.large) {
        assert Https(v.large.value) == "";
      }
      if v.thumbnail.Some? && !Truthy(v.thumbnail) {
        assert Https(v.thumbnail.value) == "";
      }
    }
  }
}
