/**
 * What every scraper does with the texts it finds: `chunks.push(...chunkText(...))`
 * once per text, in order. Each text is a `Doc` carrying the URL and rating
 * its chunks get.
 */
module Scraped {
  import opened Wrappers
  import opened Strings
  import opened Types
  import opened Chunker

  /** A text one scraper hands to `chunkText`, with the URL and rating its chunks carry. */
  datatype Doc = Doc(text: string, sourceUrl: string, rating: Option<int>)

  function Texts(docs: seq<Doc>): (r: seq<string>)
    ensures |r| == |docs| && forall i :: 0 <= i < |docs| ==> r[i] == docs[i].text
  {
    seq(|docs|, i requires 0 <= i < |docs| => docs[i].text)
  }

  function Contents(cs: seq<Chunk>): (r: seq<string>)
    ensures |r| == |cs| && forall i :: 0 <= i < |cs| ==> r[i] == cs[i].content
  {
    seq(|cs|, i requires 0 <= i < |cs| => cs[i].content)
  }

  /**
   * `chunks.push(...chunkText(doc.text, source, doc.sourceUrl, type, doc.rating))`
   * for each doc in turn, where `split` cuts a text into the contents of its
   * chunks (`ChunkContents`); the ids keep counting from `base` across docs.
   */
  function ChunkDocs(docs: seq<Doc>, split: string -> seq<string>, source: string, ctype: ChunkType,
                     newId: nat -> string, base: nat): seq<Chunk>
    decreases |docs|
  {
    if docs == [] then []
    else
      var prev := ChunkDocs(docs[..|docs| - 1], split, source, ctype, newId, base);
      var d := docs[|docs| - 1];
      prev + Stamp(split(d.text), source, d.sourceUrl, ctype, d.rating, newId, base + |prev|)
  }

  /** Chunking one more doc appends its chunks, numbered on from the ones before. */
  lemma ChunkDocsNext(docs: seq<Doc>, i: nat, split: string -> seq<string>, source: string, ctype: ChunkType,
                      newId: nat -> string, base: nat)
    requires i < |docs|
    ensures ChunkDocs(docs[..i + 1], split, source, ctype, newId, base) ==
            ChunkDocs(docs[..i], split, source, ctype, newId, base) +
            Stamp(split(docs[i].text), source, docs[i].sourceUrl, ctype, docs[i].rating, newId,
                  base + |ChunkDocs(docs[..i], split, source, ctype, newId, base)|)
  {
    assert docs[..i + 1][..i] == docs[..i];
  }

  /** The same step for a doc appended to the list. */
  lemma PushDoc(docs: seq<Doc>, d: Doc, split: string -> seq<string>, source: string, ctype: ChunkType,
                newId: nat -> string, base: nat)
    ensures ChunkDocs(docs + [d], split, source, ctype, newId, base) ==
            ChunkDocs(docs, split, source, ctype, newId, base) +
            Stamp(split(d.text), source, d.sourceUrl, ctype, d.rating, newId,
                  base + |ChunkDocs(docs, split, source, ctype, newId, base)|)
  {
    assert (docs + [d])[..|docs|] == docs;
  }

  /** The loop step of a scraper: chunks of the docs so far, followed by the next doc's chunks. */
  lemma PushChunks(docs: seq<Doc>, d: Doc, chunks: seq<Chunk>, part: seq<Chunk>, split: string -> seq<string>,
                   source: string, ctype: ChunkType, newId: nat -> string, base: nat)
    requires chunks == ChunkDocs(docs, split, source, ctype, newId, base)
    requires part == Stamp(split(d.text), source, d.sourceUrl, ctype, d.rating, newId, base + |chunks|)
    ensures chunks + part == ChunkDocs(docs + [d], split, source, ctype, newId, base)
  {
    PushDoc(docs, d, split, source, ctype, newId, base);
  }

  lemma ContentsAppend(a: seq<Chunk>, b: seq<Chunk>)
    ensures Contents(a + b) == Contents(a) + Contents(b)
  {
  }

  lemma StampContents(cs: seq<string>, source: string, sourceUrl: string, ctype: ChunkType, rating: Option<int>,
                      newId: nat -> string, base: nat)
    ensures Contents(Stamp(cs, source, sourceUrl, ctype, rating, newId, base)) == cs
  {
    StampIndex(cs, source, sourceUrl, ctype, rating, newId, base);
  }

  /** Chunk k of `cs` carries the id `newId(base + k)`, the scraper's source and its type. */
  predicate Stamped(cs: seq<Chunk>, source: string, ctype: ChunkType, newId: nat -> string, base: nat) {
    forall k :: 0 <= k < |cs| ==> cs[k].id == newId(base + k) && cs[k].source == source && cs[k].ctype == ctype
  }

  lemma {:induction false} ChunkDocsStamps(docs: seq<Doc>, split: string -> seq<string>, source: string,
                                           ctype: ChunkType, newId: nat -> string, base: nat)
    ensures Stamped(ChunkDocs(docs, split, source, ctype, newId, base), source, ctype, newId, base)
    decreases |docs|
  {
    if docs != [] {
      var pre := docs[..|docs| - 1];
      var d := docs[|docs| - 1];
      var prev := ChunkDocs(pre, split, source, ctype, newId, base);
      var st := Stamp(split(d.text), source, d.sourceUrl, ctype, d.rating, newId, base + |prev|);
      var r := ChunkDocs(docs, split, source, ctype, newId, base);
      assert r == prev + st;
      ChunkDocsStamps(pre, split, source, ctype, newId, base);
      StampIndex(split(d.text), source, d.sourceUrl, ctype, d.rating, newId, base + |prev|);
      forall k | 0 <= k < |r| ensures r[k].id == newId(base + k) && r[k].source == source && r[k].ctype == ctype {
        if k < |prev| {
          assert r[k] == prev[k];
        } else {
          var j := k - |prev|;
          assert r[k] == st[j];
          assert st[j].id == newId(base + |prev| + j);
          assert base + |prev| + j == base + k;
        }
      }
    }
  }

  /** Every chunk of the docs carries the URL and rating of one of the docs. */
  lemma {:induction false} ChunkDocsOrigin(docs: seq<Doc>, split: string -> seq<string>, source: string,
                                           ctype: ChunkType, newId: nat -> string, base: nat)
    ensures forall c :: c in ChunkDocs(docs, split, source, ctype, newId, base) ==>
              exists d :: d in docs && c.sourceUrl == Some(d.sourceUrl) && c.rating == d.rating
    decreases |docs|
  {
    if docs != [] {
      var pre := docs[..|docs| - 1];
      var d := docs[|docs| - 1];
      var prev := ChunkDocs(pre, split, source, ctype, newId, base);
      var cs := split(d.text);
      var st := Stamp(cs, source, d.sourceUrl, ctype, d.rating, newId, base + |prev|);
      var r := ChunkDocs(docs, split, source, ctype, newId, base);
      assert r == prev + st;
      ChunkDocsOrigin(pre, split, source, ctype, newId, base);
      StampIndex(cs, source, d.sourceUrl, ctype, d.rating, newId, base + |prev|);
      forall c: Chunk | c in r ensures exists e :: e in docs && c.sourceUrl == Some(e.sourceUrl) && c.rating == e.rating {
        if c in prev {
          var e :| e in pre && c.sourceUrl == Some(e.sourceUrl) && c.rating == e.rating;
          assert e in docs;
        } else {
          var k :| 0 <= k < |st| && st[k] == c;
          assert d in docs;
        }
      }
    }
  }

  /** When `split` keeps every non-whitespace character, so do the chunks of the docs, in order. */
  lemma {:induction false} ChunkDocsCover(docs: seq<Doc>, split: string -> seq<string>, source: string,
                                          ctype: ChunkType, newId: nat -> string, base: nat)
    requires forall t :: NonSpace(Concat(split(t))) == NonSpace(t)
    ensures NonSpace(Concat(Contents(ChunkDocs(docs, split, source, ctype, newId, base)))) ==
            NonSpace(Concat(Texts(docs)))
    decreases |docs|
  {
    if docs != [] {
      var pre := docs[..|docs| - 1];
      var d := docs[|docs| - 1];
      var prev := ChunkDocs(pre, split, source, ctype, newId, base);
      var cs := split(d.text);
      var st := Stamp(cs, source, d.sourceUrl, ctype, d.rating, newId, base + |prev|);
      var r := ChunkDocs(docs, split, source, ctype, newId, base);
      assert r == prev + st;
      assert Texts(docs) == Texts(pre) + [d.text];
      calc {
        NonSpace(Concat(Contents(r)));
        { ContentsAppend(prev, st); StampContents(cs, source, d.sourceUrl, ctype, d.rating, newId, base + |prev|); }
        NonSpace(Concat(Contents(prev) + cs));
        { ConcatAppend(Contents(prev), cs); }
        NonSpace(Concat(Contents(prev)) + Concat(cs));
        { NonSpaceAppend(Concat(Contents(prev)), Concat(cs)); }
        NonSpace(Concat(Contents(prev))) + NonSpace(Concat(cs));
        { ChunkDocsCover(pre, split, source, ctype, newId, base); }
        NonSpace(Concat(Texts(pre))) + NonSpace(d.text);
        { NonSpaceAppend(Concat(Texts(pre)), d.text); }
        NonSpace(Concat(Texts(pre)) + d.text);
        { ConcatSnoc(Texts(pre), d.text); }
        NonSpace(Concat(Texts(docs)));
      }
    }
  }

  /** When every doc gives a chunk, the docs give no chunk exactly when there are no docs. */
  lemma {:induction false} ChunkDocsEmpty(docs: seq<Doc>, split: string -> seq<string>, source: string,
                                          ctype: ChunkType, newId: nat -> string, base: nat)
    requires forall d :: d in docs ==> split(d.text) != []
    ensures ChunkDocs(docs, split, source, ctype, newId, base) == [] <==> docs == []
  {
    if docs != [] {
      var d := docs[|docs| - 1];
      var prev := ChunkDocs(docs[..|docs| - 1], split, source, ctype, newId, base);
      StampIndex(split(d.text), source, d.sourceUrl, ctype, d.rating, newId, base + |prev|);
    }
  }
}
