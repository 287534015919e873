/**
 * Keyword retrieval over a book's chunks (lib/retrieval.ts): tokenising,
 * the term-match score, the ranked candidates, the type-diverse selection
 * and the round-robin sample used when the query has no usable words.
 *
 * The score's normalisation by `Math.log` and its type boosts are floating
 * point; they are the supplied `normalise`, which receives the raw match
 * count in half-units, the chunk's token count and its type.
 */
module Retrieval {
  import opened Strings
  import opened Seqs
  import opened Wrappers
  import opened Types

  const STOP_WORDS: set<string> := {
    "a", "an", "the", "is", "it", "in", "on", "at", "to", "for", "of", "and",
    "or", "but", "with", "this", "that", "was", "are", "be", "been", "have",
    "has", "had", "do", "did", "what", "how", "why", "when", "where", "i",
    "you", "he", "she", "we", "they", "me", "him", "her", "us", "them"
  }

  /** `\w`: an ASCII letter or digit, or the underscore. */
  predicate IsWordChar(c: char) {
    ('a' <= c <= 'z') || ('A' <= c <= 'Z') || ('0' <= c <= '9') || c == '_'
  }

  predicate IsUpper(c: char) {
    'A' <= c <= 'Z'
  }

  /** One character of `.replace(/[^\w\s]/g, ' ')`. */
  function CleanChar(c: char): char {
    if IsWordChar(c) || IsSpace(c) then c else ' '
  }

  /** `.replace(/[^\w\s]/g, ' ')`: every character that is neither a word character nor whitespace becomes a space. */
  function Clean(s: string): (r: string)
    ensures |r| == |s|
    ensures forall i :: 0 <= i < |s| ==> r[i] == CleanChar(s[i])
    decreases |s|
  {
    if s == [] then [] else [CleanChar(s[0])] + Clean(s[1..])
  }

  /** The index of the first whitespace character of `s`, or `|s|` when there is none. */
  function SpaceAt(s: string): (i: nat)
    ensures i <= |s| && (i < |s| ==> IsSpace(s[i]))
    ensures forall j :: 0 <= j < i ==> !IsSpace(s[j])
    decreases |s|
  {
    if s == [] || IsSpace(s[0]) then 0 else 1 + SpaceAt(s[1..])
  }

  /**
   * `s.split(/\s+/)`: the pieces between maximal whitespace runs; leading or
   * trailing whitespace gives an empty first or last piece.
   */
  function SplitWs(s: string): (r: seq<string>)
    ensures |r| > 0
    decreases |s|
  {
    var i := SpaceAt(s);
    if i == |s| then [s] else [s[..i]] + SplitWs(TrimStart(s[i + 1..]))
  }

  /** No piece holds whitespace, and together the pieces hold exactly the non-whitespace of `s`, in order. */
  lemma {:induction false} SplitWsFacts(s: string)
    ensures forall w :: w in SplitWs(s) ==> NonSpace(w) == w
    ensures Concat(SplitWs(s)) == NonSpace(s)
    decreases |s|
  {
    var i := SpaceAt(s);
    NoSpaceKept(s[..i]);
    if i == |s| {
      assert s[..i] == s;
      assert Concat([s]) == s + "";
    } else {
      var t := TrimStart(s[i + 1..]);
      SplitWsFacts(t);
      SplitWsStep(s, i);
      assert SplitWs(s) == [s[..i]] + SplitWs(t);
      assert Concat(SplitWs(s)) == s[..i] + Concat(SplitWs(t));
    }
  }

  /** Cutting at the first whitespace run drops only whitespace. */
  lemma SplitWsStep(s: string, i: nat)
    requires i == SpaceAt(s) < |s|
    ensures NonSpace(s) == s[..i] + NonSpace(TrimStart(s[i + 1..]))
  {
    var rest := s[i + 1..];
    NonSpaceTrimStart(rest);
    assert s == s[..i] + s[i..];
    NonSpaceAppend(s[..i], s[i..]);
    NoSpaceKept(s[..i]);
    assert s[i..][0] == s[i] && s[i..][1..] == rest;
  }

  lemma {:induction false} NoSpaceKept(w: string)
    requires forall j :: 0 <= j < |w| ==> !IsSpace(w[j])
    ensures NonSpace(w) == w
    decreases |w|
  {
    if w != [] {
      NoSpaceKept(w[1..]);
      assert w == [w[0]] + w[1..];
    }
  }

  /** The word filter of `tokenize`. */
  predicate IsKeyword(w: string) {
    |w| > 2 && w !in STOP_WORDS
  }

  /** `.filter(w => w.length > 2 && !STOP_WORDS.has(w))` */
  function KeepWords(ws: seq<string>): (r: seq<string>)
    decreases |ws|
  {
    if ws == [] then []
    else (if IsKeyword(ws[0]) then [ws[0]] else []) + KeepWords(ws[1..])
  }

  lemma {:induction false} KeepWordsMembers(ws: seq<string>)
    ensures forall w :: w in KeepWords(ws) <==> w in ws && IsKeyword(w)
    decreases |ws|
  {
    if ws != [] {
      KeepWordsMembers(ws[1..]);
      assert ws == [ws[0]] + ws[1..];
    }
  }

  /** `tokenize(text)` */
  function Tokenize(text: string): seq<string> {
    KeepWords(SplitWs(Clean(Lower(text))))
  }

  /**
   * Every token is longer than two characters, is not a stop word, and is
   * made of lower-case word characters; the tokens are exactly the pieces
   * of the cleaned, lower-cased text that pass that filter.
   */
  lemma TokenizeFacts(text: string)
    ensures forall w :: w in Tokenize(text) <==> w in SplitWs(Clean(Lower(text))) && IsKeyword(w)
    ensures forall w :: w in Tokenize(text) ==>
              |w| > 2 && w !in STOP_WORDS && forall j :: 0 <= j < |w| ==> IsWordChar(w[j]) && !IsUpper(w[j])
  {
    var c := Clean(Lower(text));
    KeepWordsMembers(SplitWs(c));
    SplitWsFacts(c);
    forall w | w in SplitWs(c)
      ensures forall j :: 0 <= j < |w| ==> IsWordChar(w[j]) && !IsUpper(w[j])
    {
      forall j | 0 <= j < |w| ensures IsWordChar(w[j]) && !IsUpper(w[j]) {
        NoSpaceChar(w, j);
        PieceChar(c, w, j);
        LowerClean(text, c, w[j]);
      }
    }
  }

  lemma NoSpaceChar(w: string, j: nat)
    requires NonSpace(w) == w && j < |w|
    ensures !IsSpace(w[j])
  {
    NonSpaceChars(w);
  }

  lemma {:induction false} NonSpaceChars(s: string)
    ensures forall j :: 0 <= j < |NonSpace(s)| ==> !IsSpace(NonSpace(s)[j])
    decreases |s|
  {
    if s != [] {
      NonSpaceChars(s[1..]);
    }
  }

  /** A character of a piece of `s` is a character of `s`. */
  lemma PieceChar(s: string, w: string, j: nat)
    requires w in SplitWs(s) && j < |w|
    ensures w[j] in s
  {
    SplitWsFacts(s);
    ConcatMember(SplitWs(s), w, j);
    NonSpaceSub(s, w[j]);
  }

  lemma {:induction false} ConcatMember(xs: seq<string>, w: string, j: nat)
    requires w in xs && j < |w|
    ensures w[j] in Concat(xs)
    decreases |xs|
  {
    if xs[0] == w {
      assert Concat(xs)[j] == w[j];
    } else {
      ConcatMember(xs[1..], w, j);
      assert Concat(xs) == xs[0] + Concat(xs[1..]);
    }
  }

  lemma {:induction false} NonSpaceSub(s: string, c: char)
    requires c in NonSpace(s)
    ensures c in s
    decreases |s|
  {
    if c != s[0] {
      NonSpaceSub(s[1..], c);
    }
  }

  /** A non-space character of the cleaned, lower-cased text is a lower-case word character. */
  lemma LowerClean(text: string, c: string, x: char)
    requires c == Clean(Lower(text)) && x in c && !IsSpace(x)
    ensures IsWordChar(x) && !IsUpper(x)
  {
    var i :| 0 <= i < |c| && c[i] == x;
    var l := Lower(text);
    assert x == CleanChar(l[i]);
    assert l[i] == LowerChar(text[i]);
  }

  /** `new Set(tokens)`, iterated: each token once, in first-seen order. */
  function Distinct(ts: seq<string>): seq<string> {
    Dedup(ts, Id)
  }

  /** How many of the distinct chunk tokens `cs` strictly contain `qt`; each adds half a point. */
  function PartialCount(cs: seq<string>, qt: string): nat
    decreases |cs|
  {
    if cs == [] then 0
    else PartialCount(cs[..|cs| - 1], qt) + (if Contains(cs[|cs| - 1], qt) && cs[|cs| - 1] != qt then 1 else 0)
  }

  /** One query token's score in half-units: 2 for an exact match, plus 1 per strict containment. */
  function TokenScore(cs: seq<string>, qt: string): nat {
    (if qt in cs then 2 else 0) + PartialCount(cs, qt)
  }

  /** The raw score in half-units: the sum over the query tokens, repeated tokens counted again. */
  function HalfScore(qs: seq<string>, cs: seq<string>): nat
    decreases |qs|
  {
    if qs == [] then 0 else HalfScore(qs[..|qs| - 1], cs) + TokenScore(cs, qs[|qs| - 1])
  }

  /** `scoreChunk(queryTokens, chunk)`, with the normalisation and type boosts supplied. */
  function Score(qs: seq<string>, c: Chunk, normalise: (nat, nat, ChunkType) -> real): real {
    var ts := Tokenize(c.content);
    normalise(HalfScore(qs, Distinct(ts)), |ts|, c.ctype)
  }

  /** The score is additive over the query: splitting it in two splits the score. */
  lemma {:induction false} HalfScoreAppend(a: seq<string>, b: seq<string>, cs: seq<string>)
    ensures HalfScore(a + b, cs) == HalfScore(a, cs) + HalfScore(b, cs)
    decreases |b|
  {
    if b == [] {
      assert a + b == a;
    } else {
      var n := |b| - 1;
      HalfScoreAppend(a, b[..n], cs);
      assert (a + b)[..|a + b| - 1] == a + b[..n];
    }
  }

  lemma {:induction false} PartialCountZero(cs: seq<string>, qt: string)
    ensures PartialCount(cs, qt) == 0 <==> forall c :: c in cs ==> !(Contains(c, qt) && c != qt)
    decreases |cs|
  {
    if cs != [] {
      var n := |cs| - 1;
      PartialCountZero(cs[..n], qt);
      assert PartialCount(cs, qt) == PartialCount(cs[..n], qt) + (if Contains(cs[n], qt) && cs[n] != qt then 1 else 0);
      assert forall c :: c in cs <==> c in cs[..n] || c == cs[n] by {
        assert cs == cs[..n] + [cs[n]];
      }
    }
  }

  /** A query token scores nothing exactly when no chunk token contains it. */
  lemma TokenScoreZero(cs: seq<string>, qt: string)
    ensures TokenScore(cs, qt) == 0 <==> forall c :: c in cs ==> !Contains(c, qt)
  {
    PartialCountZero(cs, qt);
    assert Contains(qt, qt);
  }

  /** A chunk scores zero exactly when none of its tokens contains any query token. */
  lemma {:induction false} HalfScoreZero(qs: seq<string>, cs: seq<string>)
    ensures HalfScore(qs, cs) == 0 <==> forall q, c :: q in qs && c in cs ==> !Contains(c, q)
    decreases |qs|
  {
    if qs != [] {
      var n := |qs| - 1;
      HalfScoreZero(qs[..n], cs);
      TokenScoreZero(cs, qs[n]);
      assert qs == qs[..n] + [qs[n]];
    }
  }

  lemma PartialCountNext(cs: seq<string>, j: nat, qt: string)
    requires j < |cs|
    ensures PartialCount(cs[..j + 1], qt) == PartialCount(cs[..j], qt) + (if Contains(cs[j], qt) && cs[j] != qt then 1 else 0)
  {
    assert cs[..j + 1][..j] == cs[..j];
  }

  lemma HalfScoreNext(qs: seq<string>, i: nat, cs: seq<string>)
    requires i < |qs|
    ensures HalfScore(qs[..i + 1], cs) == HalfScore(qs[..i], cs) + TokenScore(cs, qs[i])
  {
    assert qs[..i + 1][..i] == qs[..i];
  }

  /** `scoreChunk`: the nested loops count the raw score in half-units, then normalise it. */
  method ScoreChunk(queryTokens: seq<string>, chunk: Chunk, normalise: (nat, nat, ChunkType) -> real)
    returns (score: real)
    ensures score == Score(queryTokens, chunk, normalise)
  {
    var chunkTokens := Tokenize(chunk.content);
    var chunkSet := Distinct(chunkTokens);
    var half := 0;
    var i := 0;
    while i < |queryTokens|
      invariant 0 <= i <= |queryTokens|
      invariant half == HalfScore(queryTokens[..i], chunkSet)
    {
      var qt := queryTokens[i];
      if qt in chunkSet {
        half := half + 2;
      }
      var j := 0;
      while j < |chunkSet|
        invariant 0 <= j <= |chunkSet|
        invariant half == HalfScore(queryTokens[..i], chunkSet) + (if qt in chunkSet then 2 else 0)
                          + PartialCount(chunkSet[..j], qt)
      {
        var ct := chunkSet[j];
        PartialCountNext(chunkSet, j, qt);
        if Contains(ct, qt) && ct != qt {
          half := half + 1;
        }
        j := j + 1;
      }
      assert chunkSet[..j] == chunkSet;
      HalfScoreNext(queryTokens, i, chunkSet);
      i := i + 1;
    }
    assert queryTokens[..i] == queryTokens;
    score := normalise(half, |chunkTokens|, chunk.ctype);
  }

  function TypeOf(c: Chunk): ChunkType {
    c.ctype
  }

  /** The elements of `xs`, as a set. */
  function Elems<T>(xs: seq<T>): set<T> {
    set x | x in xs
  }

  /**
   * The first pass of `ensureDiversity`: the first chunk of each type, in
   * ranked order, until `topK` are taken. The size check follows the push,
   * so even a `topK` of 0 takes the first chunk.
   */
  function FirstPass(ranked: seq<Chunk>, topK: nat): seq<Chunk> {
    Take(Dedup(ranked, TypeOf), if topK == 0 then 1 else topK)
  }

  /** The second pass: the ranked chunks not taken yet, each once and in ranked order, while room is left. */
  function SecondPass(ranked: seq<Chunk>, first: seq<Chunk>, topK: nat): seq<Chunk> {
    if |first| >= topK then [] else Take(DedupFrom(ranked, Id, Elems(first)), topK - |first|)
  }

  /** `ensureDiversity(ranked, topK)` */
  function Diverse(ranked: seq<Chunk>, topK: nat): seq<Chunk> {
    var first := FirstPass(ranked, topK);
    first + SecondPass(ranked, first, topK)
  }

  /** The two passes of `ensureDiversity`, pushing into `result` and recording the types seen. */
  method EnsureDiversity(ranked: seq<Chunk>, topK: nat) returns (result: seq<Chunk>)
    ensures result == Diverse(ranked, topK)
  {
    result := [];
    var seenTypes: set<ChunkType> := {};
    var i := 0;
    while i < |ranked|
      invariant 0 <= i <= |ranked|
      invariant result == Dedup(ranked[..i], TypeOf) && seenTypes == KeysOf(ranked[..i], TypeOf)
      invariant i > 0 ==> |result| < topK
    {
      var chunk := ranked[i];
      DedupNext(ranked, i, TypeOf);
      if chunk.ctype !in seenTypes {
        result := result + [chunk];
        seenTypes := seenTypes + {chunk.ctype};
      }
      i := i + 1;
      if |result| >= topK {
        FirstPassCut(ranked, i, topK);
        break;
      }
    }
    if i == |ranked| {
      assert ranked[..i] == ranked;
    }
    ghost var first := result;
    assert first == FirstPass(ranked, topK);
    var j := 0;
    while j < |ranked|
      invariant 0 <= j <= |ranked|
      invariant result == first + DedupFrom(ranked[..j], Id, Elems(first))
      invariant j == 0 || |result| <= topK
    {
      if |result| >= topK {
        break;
      }
      var chunk := ranked[j];
      FillNext(ranked, j, first, result);
      if chunk !in result {
        result := result + [chunk];
      }
      j := j + 1;
    }
    SecondPassEnd(ranked, first, topK, j, result);
  }

  /** Once `topK` chunks (at least one) are taken, the first pass is complete. */
  lemma FirstPassCut(ranked: seq<Chunk>, i: nat, topK: nat)
    requires i <= |ranked| && |Dedup(ranked[..i], TypeOf)| == (if topK == 0 then 1 else topK)
    ensures Dedup(ranked[..i], TypeOf) == FirstPass(ranked, topK)
  {
    DedupFromPrefix(ranked, i, TypeOf, {});
  }

  /** One more ranked chunk read by the second pass: pushed iff it is not in `result` yet. */
  lemma FillNext(ranked: seq<Chunk>, j: nat, first: seq<Chunk>, result: seq<Chunk>)
    requires j < |ranked| && result == first + DedupFrom(ranked[..j], Id, Elems(first))
    ensures DedupFrom(ranked[..j + 1], Id, Elems(first)) ==
            DedupFrom(ranked[..j], Id, Elems(first)) + (if ranked[j] in result then [] else [ranked[j]])
  {
    var x := ranked[j];
    var pre := ranked[..j];
    var d := DedupFrom(pre, Id, Elems(first));
    assert ranked[..j + 1] == pre + [x];
    DedupFromSnoc(pre, x, Id, Elems(first));
    KeysOfId(pre);
    KeysOfId(d);
    DedupFromKeys(pre, Id, Elems(first));
    DedupFromMembers(pre, Id, Elems(first));
    assert x in result <==> x in Elems(first) || x in d;
    assert x in result <==> Id(x) in KeysOf(pre, Id) + Elems(first);
  }

  /** Where the second pass stops, `result` is the first pass followed by the second. */
  lemma SecondPassEnd(ranked: seq<Chunk>, first: seq<Chunk>, topK: nat, j: nat, result: seq<Chunk>)
    requires j <= |ranked| && result == first + DedupFrom(ranked[..j], Id, Elems(first))
    requires j == 0 || |result| <= topK
    requires j == |ranked| || |result| >= topK
    ensures result == first + SecondPass(ranked, first, topK)
  {
    var d := DedupFrom(ranked[..j], Id, Elems(first));
    DedupFromPrefix(ranked, j, Id, Elems(first));
    if j == |ranked| {
      assert ranked[..j] == ranked;
    }
    if j == 0 {
      assert d == [];
    }
  }

  /**
   * The first pass takes chunks of pairwise distinct types, each the first
   * ranked chunk of its type, in the order in which the types first appear.
   */
  lemma FirstPassFacts(ranked: seq<Chunk>, topK: nat)
    ensures forall c :: c in FirstPass(ranked, topK) ==> c in ranked
    ensures forall i, j :: 0 <= i < j < |FirstPass(ranked, topK)| ==>
              FirstPass(ranked, topK)[i].ctype != FirstPass(ranked, topK)[j].ctype
    ensures forall k :: 0 <= k < |FirstPass(ranked, topK)| ==>
              FirstPass(ranked, topK)[k].ctype in KeysOf(ranked, TypeOf) &&
              FirstPass(ranked, topK)[k] == ranked[FirstIndex(ranked, TypeOf, FirstPass(ranked, topK)[k].ctype)]
    ensures forall i, j :: 0 <= i < j < |FirstPass(ranked, topK)| ==>
              FirstPass(ranked, topK)[i].ctype in KeysOf(ranked, TypeOf) &&
              FirstPass(ranked, topK)[j].ctype in KeysOf(ranked, TypeOf) &&
              FirstIndex(ranked, TypeOf, FirstPass(ranked, topK)[i].ctype) <
              FirstIndex(ranked, TypeOf, FirstPass(ranked, topK)[j].ctype)
  {
    var d := Dedup(ranked, TypeOf);
    var first := FirstPass(ranked, topK);
    DedupFromKeys(ranked, TypeOf, {});
    DedupFromFirst(ranked, TypeOf, {});
    DedupFromMembers(ranked, TypeOf, {});
    assert first == d[..|first|];
    forall k | 0 <= k < |first| ensures first[k] == d[k] && first[k].ctype == TypeOf(d[k]) {
    }
  }

  /** The second pass takes ranked chunks outside the first pass, none twice. */
  lemma SecondPassFacts(ranked: seq<Chunk>, first: seq<Chunk>, topK: nat)
    ensures forall c :: c in SecondPass(ranked, first, topK) ==> c in ranked && c !in first
    ensures NoDup(SecondPass(ranked, first, topK))
    ensures |first| + |SecondPass(ranked, first, topK)| <= (if |first| >= topK then |first| else topK)
  {
    var d := DedupFrom(ranked, Id, Elems(first));
    var second := SecondPass(ranked, first, topK);
    DedupFromKeys(ranked, Id, Elems(first));
    DedupFromMembers(ranked, Id, Elems(first));
    KeysOfId(d);
    assert second == d[..|second|];
    forall c | c in second ensures c in ranked && c !in first {
      assert c in d;
    }
    forall i, j | 0 <= i < j < |second| ensures second[i] != second[j] {
      assert second[i] == Id(d[i]) && second[j] == Id(d[j]);
    }
  }

  /**
   * `ensureDiversity` returns at most `topK` chunks (unless `topK` is 0 and
   * something is ranked), all of them ranked, none twice, so no more than
   * were ranked.
   */
  lemma DiverseFacts(ranked: seq<Chunk>, topK: nat)
    ensures (topK > 0 || ranked == []) ==> |Diverse(ranked, topK)| <= topK
    ensures forall c :: c in Diverse(ranked, topK) ==> c in ranked
    ensures NoDup(Diverse(ranked, topK))
    ensures |Diverse(ranked, topK)| <= |ranked|
  {
    var first := FirstPass(ranked, topK);
    var second := SecondPass(ranked, first, topK);
    FirstPassFacts(ranked, topK);
    SecondPassFacts(ranked, first, topK);
    assert NoDup(first) by {
      forall i, j | 0 <= i < j < |first| ensures first[i] != first[j] {
        assert first[i].ctype != first[j].ctype;
      }
    }
    NoDupAppend(first, second);
    NoDupLength(first + second, ranked);
  }

  /** When there are no more types than `topK`, every ranked type is represented. */
  lemma DiverseCoversTypes(ranked: seq<Chunk>, topK: nat)
    requires |KeysOf(ranked, TypeOf)| <= topK
    ensures KeysOf(ranked, TypeOf) <= KeysOf(Diverse(ranked, topK), TypeOf)
  {
    var d := Dedup(ranked, TypeOf);
    var first := FirstPass(ranked, topK);
    DedupFromKeys(ranked, TypeOf, {});
    KeysOfCard(d, TypeOf);
    assert KeysOf(ranked, TypeOf) - {} == KeysOf(ranked, TypeOf);
    assert first == d;
    KeysOfAppend(first, SecondPass(ranked, first, topK), TypeOf);
  }

  /** Below the divisor, the quotient is 0 and the remainder the number itself. */
  lemma DivSmall(a: nat, b: nat)
    requires a < b
    ensures a / b == 0 && a % b == a
  {
  }

  function Min(a: int, b: int): int {
    if a <= b then a else b
  }

  /** Reading one more chunk into the `byType` Map: it joins the group of its type. */
  lemma BucketNext(chunks: seq<Chunk>, i: nat)
    requires i < |chunks|
    ensures forall t :: FilterKey(chunks[..i + 1], TypeOf, t) ==
                        FilterKey(chunks[..i], TypeOf, t) + (if chunks[i].ctype == t then [chunks[i]] else [])
  {
    assert chunks[..i + 1] == chunks[..i] + [chunks[i]];
    forall t ensures FilterKey(chunks[..i + 1], TypeOf, t) ==
                     FilterKey(chunks[..i], TypeOf, t) + (if chunks[i].ctype == t then [chunks[i]] else []) {
      FilterKeySnoc(chunks[..i], chunks[i], TypeOf, t);
    }
  }

  /** In the first round the sample takes the first chunk of the next type. */
  lemma FirstRound(chunks: seq<Chunk>, types: seq<ChunkType>, k: nat)
    requires |types| == |Dedup(chunks, TypeOf)| && k < |types|
    requires forall j :: 0 <= j < |types| ==> types[j] == Dedup(chunks, TypeOf)[j].ctype
    ensures types[k] in KeysOf(chunks, TypeOf)
    ensures |FilterKey(chunks, TypeOf, types[k])| > 0
    ensures FilterKey(chunks, TypeOf, types[k])[0] == Dedup(chunks, TypeOf)[k]
  {
    DedupFromFirst(chunks, TypeOf, {});
    FilterKeyFirst(chunks, TypeOf, types[k]);
  }

  /**
   * `byType` maps each type present to its chunks in order, and `keys` lists
   * the types in order of first appearance.
   */
  predicate Grouped(chunks: seq<Chunk>, byType: map<ChunkType, seq<Chunk>>, keys: seq<ChunkType>) {
    && |keys| == |Dedup(chunks, TypeOf)|
    && (forall j :: 0 <= j < |keys| ==> keys[j] == Dedup(chunks, TypeOf)[j].ctype)
    && (forall t :: t in byType <==> t in KeysOf(chunks, TypeOf))
    && (forall t :: t in byType ==> byType[t] == FilterKey(chunks, TypeOf, t))
  }

  /** The group element one round of the sample looks at: `byType[t][idx]`, if any. */
  function Pick(byType: map<ChunkType, seq<Chunk>>, keys: seq<ChunkType>, n: nat, i: nat): (r: Option<Chunk>)
    requires |keys| > 0
    ensures r.Some? ==> keys[i % |keys|] in byType && r.value in byType[keys[i % |keys|]]
  {
    var t := keys[i % |keys|];
    var arr := if t in byType then byType[t] else [];
    var idx := n / |keys|;
    if idx < |arr| then Some(arr[idx]) else None
  }

  /**
   * Every pick is a chunk of the input; in the first round (one pick per
   * type so far) the pick is the first chunk of the next type.
   */
  lemma PickFacts(chunks: seq<Chunk>, byType: map<ChunkType, seq<Chunk>>, keys: seq<ChunkType>, n: nat, i: nat)
    requires Grouped(chunks, byType, keys) && |keys| > 0
    ensures Pick(byType, keys, n, i).Some? ==> Pick(byType, keys, n, i).value in chunks
    ensures i < |keys| && n == i ==> Pick(byType, keys, n, i) == Some(Dedup(chunks, TypeOf)[i])
  {
    var t := keys[i % |keys|];
    FilterKeyMembers(chunks, TypeOf, t);
    if i < |keys| && n == i {
      DivSmall(i, |keys|);
      FirstRound(chunks, keys, i);
    }
  }

  /** Reading one more chunk: it joins its type's group, and a new type is listed last. */
  lemma GroupNext(chunks: seq<Chunk>, n: nat, byType: map<ChunkType, seq<Chunk>>, keys: seq<ChunkType>)
    requires n < |chunks| && Grouped(chunks[..n], byType, keys)
    ensures var c := chunks[n];
            Grouped(chunks[..n + 1],
                    byType[c.ctype := (if c.ctype in byType then byType[c.ctype] else []) + [c]],
                    if c.ctype in byType then keys else keys + [c.ctype])
  {
    var c := chunks[n];
    DedupNext(chunks, n, TypeOf);
    BucketNext(chunks, n);
    if c.ctype !in byType {
      FilterKeyAbsent(chunks[..n], TypeOf, c.ctype);
    }
  }

  /**
   * The first loop of `diversitySample`: the `byType` Map from each type to
   * its chunks in order, and `keys`, the order in which the Map lists its
   * types (insertion order, so first appearance).
   */
  method GroupByType(chunks: seq<Chunk>) returns (byType: map<ChunkType, seq<Chunk>>, keys: seq<ChunkType>)
    ensures Grouped(chunks, byType, keys)
  {
    byType := map[];
    keys := [];
    var n := 0;
    while n < |chunks|
      invariant 0 <= n <= |chunks|
      invariant Grouped(chunks[..n], byType, keys)
    {
      var chunk := chunks[n];
      GroupNext(chunks, n, byType, keys);
      var arr := if chunk.ctype in byType then byType[chunk.ctype] else [];
      if chunk.ctype !in byType {
        keys := keys + [chunk.ctype];
      }
      byType := byType[chunk.ctype := arr + [chunk]];
      n := n + 1;
    }
    assert chunks[..n] == chunks;
  }

  /** The `byType` Map the first loop of `diversitySample` builds, as a value. */
  function GroupMap(chunks: seq<Chunk>): map<ChunkType, seq<Chunk>> {
    map t | t in KeysOf(chunks, TypeOf) :: FilterKey(chunks, TypeOf, t)
  }

  /** The types of `chunks` in order of first appearance. */
  function TypesOf(chunks: seq<Chunk>): seq<ChunkType> {
    MapSeq(Dedup(chunks, TypeOf), TypeOf)
  }

  /** The grouping loop has exactly one outcome: the Map and key order above. */
  lemma GroupedUnique(chunks: seq<Chunk>, byType: map<ChunkType, seq<Chunk>>, keys: seq<ChunkType>)
    requires Grouped(chunks, byType, keys)
    ensures byType == GroupMap(chunks) && keys == TypesOf(chunks)
    ensures Grouped(chunks, GroupMap(chunks), TypesOf(chunks))
  {
    assert byType.Keys == GroupMap(chunks).Keys;
  }

  /**
   * The rounds of `diversitySample` from `acc` picked so far and round `i`:
   * a round pushes the group element at index `floor(|acc| / #types)` of
   * the next type when there is one, and the rounds stop once `topK`
   * chunks are picked or after round `4 * topK`.
   */
  function SampleFrom(byType: map<ChunkType, seq<Chunk>>, keys: seq<ChunkType>, topK: nat,
                      acc: seq<Chunk>, i: nat): seq<Chunk>
    requires i <= 4 * topK
    decreases 4 * topK - i
  {
    if |acc| >= topK then acc
    else
      var next := SampleRound(byType, keys, acc, i);
      if i + 1 > 4 * topK then next else SampleFrom(byType, keys, topK, next, i + 1)
  }

  /** Round `i` of the sample: the pick is pushed when there is one. */
  function SampleRound(byType: map<ChunkType, seq<Chunk>>, keys: seq<ChunkType>, acc: seq<Chunk>, i: nat): seq<Chunk> {
    if |keys| > 0 && Pick(byType, keys, |acc|, i).Some? then acc + [Pick(byType, keys, |acc|, i).value] else acc
  }

  /** What `diversitySample(chunks, topK)` returns. */
  function Sample(chunks: seq<Chunk>, topK: nat): seq<Chunk> {
    SampleFrom(GroupMap(chunks), TypesOf(chunks), topK, [], 0)
  }

  /** `c` is element `floor(n / t)` of the group of `chunks` of its own type. */
  predicate RankedAt(chunks: seq<Chunk>, c: Chunk, n: nat, t: nat) {
    t > 0 && n / t < |FilterKey(chunks, TypeOf, c.ctype)| && FilterKey(chunks, TypeOf, c.ctype)[n / t] == c
  }

  /** The `n`-th chunk of `acc` is ranked at `n`, `t` being the number of types. */
  predicate AtRank(chunks: seq<Chunk>, acc: seq<Chunk>, t: nat) {
    forall n :: 0 <= n < |acc| ==> RankedAt(chunks, acc[n], n, t)
  }

  /** A pick is element `floor(|acc| / #types)` of its own type's group. */
  lemma PickRank(chunks: seq<Chunk>, byType: map<ChunkType, seq<Chunk>>, keys: seq<ChunkType>, n: nat, i: nat)
    requires Grouped(chunks, byType, keys) && |keys| > 0 && Pick(byType, keys, n, i).Some?
    ensures RankedAt(chunks, Pick(byType, keys, n, i).value, n, |keys|)
  {
    var t := keys[i % |keys|];
    FilterKeyMembers(chunks, TypeOf, t);
  }

  /** Appending a chunk at its rank keeps `AtRank`. */
  lemma AtRankSnoc(chunks: seq<Chunk>, acc: seq<Chunk>, c: Chunk, t: nat)
    requires AtRank(chunks, acc, t) && RankedAt(chunks, c, |acc|, t)
    ensures AtRank(chunks, acc + [c], t)
  {
    var next := acc + [c];
    assert forall n :: 0 <= n < |acc| ==> next[n] == acc[n];
    assert next[|acc|] == c;
  }

  /** Every pick over `byType` is ranked: what `PickRank` gives for a grouping. */
  ghost predicate PicksRanked(chunks: seq<Chunk>, byType: map<ChunkType, seq<Chunk>>, keys: seq<ChunkType>) {
    |keys| > 0 ==>
      forall n: nat, i: nat :: Pick(byType, keys, n, i).Some? ==>
        RankedAt(chunks, Pick(byType, keys, n, i).value, n, |keys|)
  }

  lemma {:induction false} SampleFromRank(chunks: seq<Chunk>, byType: map<ChunkType, seq<Chunk>>,
                                          keys: seq<ChunkType>, topK: nat, acc: seq<Chunk>, i: nat)
    requires PicksRanked(chunks, byType, keys) && i <= 4 * topK
    requires AtRank(chunks, acc, |keys|)
    ensures AtRank(chunks, SampleFrom(byType, keys, topK, acc, i), |keys|)
    decreases 4 * topK - i
  {
    if |acc| < topK {
      var next := SampleRound(byType, keys, acc, i);
      if |keys| > 0 && Pick(byType, keys, |acc|, i).Some? {
        AtRankSnoc(chunks, acc, Pick(byType, keys, |acc|, i).value, |keys|);
      }
      assert AtRank(chunks, next, |keys|);
      if i + 1 <= 4 * topK {
        assert SampleFrom(byType, keys, topK, acc, i) == SampleFrom(byType, keys, topK, next, i + 1);
        SampleFromRank(chunks, byType, keys, topK, next, i + 1);
      } else {
        assert SampleFrom(byType, keys, topK, acc, i) == next;
      }
    }
  }

  /**
   * Every chunk of the sample comes from its type's group, at the index
   * `floor(n / #types)` of its position `n`: once a type's group runs out,
   * later rounds take the next group element again, so a chunk can repeat.
   */
  lemma SampleRank(chunks: seq<Chunk>, topK: nat)
    ensures AtRank(chunks, Sample(chunks, topK), |Dedup(chunks, TypeOf)|)
  {
    var byType, keys := GroupMap(chunks), TypesOf(chunks);
    GroupedUnique(chunks, byType, keys);
    if |keys| > 0 {
      forall n: nat, i: nat | Pick(byType, keys, n, i).Some?
        ensures RankedAt(chunks, Pick(byType, keys, n, i).value, n, |keys|)
      {
        PickRank(chunks, byType, keys, n, i);
      }
    }
    SampleFromRank(chunks, byType, keys, topK, [], 0);
  }

  /** The grouping of three reader reviews followed by one discussion. */
  lemma UnevenGroups(a1: Chunk, a2: Chunk, a3: Chunk, b1: Chunk)
    requires a1.ctype == a2.ctype == a3.ctype == ReaderReview && b1.ctype == CommunityDiscussion
    ensures Grouped([a1, a2, a3, b1], map[ReaderReview := [a1, a2, a3], CommunityDiscussion := [b1]],
                    [ReaderReview, CommunityDiscussion])
  {
    var chunks, s1, s2, s3 := [a1, a2, a3, b1], [a2, a3, b1], [a3, b1], [b1];
    assert chunks[1..] == s1 && s1[1..] == s2 && s2[1..] == s3 && s3[1..] == [];
    assert Dedup(chunks, TypeOf) == [a1, b1] by {
      assert DedupFrom(s1, TypeOf, {ReaderReview}) == [b1] by {
        assert DedupFrom(s3, TypeOf, {ReaderReview}) == [b1];
      }
      assert {} + {TypeOf(a1)} == {ReaderReview};
    }
    assert KeysOf(chunks, TypeOf) == {ReaderReview, CommunityDiscussion} by {
      assert KeysOf(s2, TypeOf) == {ReaderReview, CommunityDiscussion} by {
        assert KeysOf(s3, TypeOf) == {CommunityDiscussion};
      }
    }
    assert FilterKey(chunks, TypeOf, ReaderReview) == [a1, a2, a3] by {
      assert FilterKey(s2, TypeOf, ReaderReview) == [a3] by {
        assert FilterKey(s3, TypeOf, ReaderReview) == [];
      }
    }
    assert FilterKey(chunks, TypeOf, CommunityDiscussion) == [b1] by {
      assert FilterKey(s2, TypeOf, CommunityDiscussion) == [b1] by {
        assert FilterKey(s3, TypeOf, CommunityDiscussion) == [b1];
      }
    }
  }

  /** One round of the sample, given what it picks. */
  lemma SampleStep(byType: map<ChunkType, seq<Chunk>>, keys: seq<ChunkType>, topK: nat,
                   acc: seq<Chunk>, i: nat, pick: Option<Chunk>)
    requires |keys| > 0 && |acc| < topK && i + 1 <= 4 * topK && Pick(byType, keys, |acc|, i) == pick
    ensures SampleFrom(byType, keys, topK, acc, i) ==
            SampleFrom(byType, keys, topK, if pick.Some? then acc + [pick.value] else acc, i + 1)
  {
  }

  /** The seven rounds over those groups: the reader reviews run out after `a2` is taken twice. */
  lemma UnevenPicks(a1: Chunk, a2: Chunk, a3: Chunk, b1: Chunk)
    ensures var byType := map[ReaderReview := [a1, a2, a3], CommunityDiscussion := [b1]];
            var keys := [ReaderReview, CommunityDiscussion];
            && Pick(byType, keys, 0, 0) == Some(a1)
            && Pick(byType, keys, 1, 1) == Some(b1)
            && Pick(byType, keys, 2, 2) == Some(a2)
            && Pick(byType, keys, 3, 3) == None
            && Pick(byType, keys, 3, 4) == Some(a2)
            && Pick(byType, keys, 4, 5) == None
            && Pick(byType, keys, 4, 6) == Some(a3)
  {
  }

  /**
   * Uneven groups make the sample repeat a chunk: with reader reviews
   * `a1, a2, a3` and then one discussion `b1`, five picks give
   * `a1, b1, a2, a2, a3`.
   */
  lemma SampleRepeats(a1: Chunk, a2: Chunk, a3: Chunk, b1: Chunk)
    requires a1.ctype == a2.ctype == a3.ctype == ReaderReview && b1.ctype == CommunityDiscussion
    ensures Sample([a1, a2, a3, b1], 5) == [a1, b1, a2, a2, a3]
  {
    var byType := map[ReaderReview := [a1, a2, a3], CommunityDiscussion := [b1]];
    var keys := [ReaderReview, CommunityDiscussion];
    UnevenGroups(a1, a2, a3, b1);
    GroupedUnique([a1, a2, a3, b1], byType, keys);
    UnevenPicks(a1, a2, a3, b1);
    UnevenRounds(byType, keys, a1, a2, a3, b1);
  }

  /** Seven rounds over two types with those picks give the sample of five. */
  lemma UnevenRounds(byType: map<ChunkType, seq<Chunk>>, keys: seq<ChunkType>, a1: Chunk, a2: Chunk, a3: Chunk, b1: Chunk)
    requires |keys| == 2
    requires && Pick(byType, keys, 0, 0) == Some(a1)
             && Pick(byType, keys, 1, 1) == Some(b1)
             && Pick(byType, keys, 2, 2) == Some(a2)
             && Pick(byType, keys, 3, 3) == None
             && Pick(byType, keys, 3, 4) == Some(a2)
             && Pick(byType, keys, 4, 5) == None
             && Pick(byType, keys, 4, 6) == Some(a3)
    ensures SampleFrom(byType, keys, 5, [], 0) == [a1, b1, a2, a2, a3]
  {
    SampleStep(byType, keys, 5, [], 0, Some(a1));
    SampleStep(byType, keys, 5, [a1], 1, Some(b1));
    SampleStep(byType, keys, 5, [a1, b1], 2, Some(a2));
    SampleStep(byType, keys, 5, [a1, b1, a2], 3, None);
    SampleStep(byType, keys, 5, [a1, b1, a2], 4, Some(a2));
    SampleStep(byType, keys, 5, [a1, b1, a2, a2], 5, None);
    SampleStep(byType, keys, 5, [a1, b1, a2, a2], 6, Some(a3));
    assert SampleFrom(byType, keys, 5, [a1, b1, a2, a2, a3], 7) == [a1, b1, a2, a2, a3];
  }

  /** Unfolds one round of `SampleFrom`. */
  lemma SampleUnfold(byType: map<ChunkType, seq<Chunk>>, keys: seq<ChunkType>, topK: nat, acc: seq<Chunk>, i: nat)
    requires |acc| < topK && i <= 4 * topK
    ensures SampleFrom(byType, keys, topK, acc, i) ==
            if i + 1 > 4 * topK then SampleRound(byType, keys, acc, i)
            else SampleFrom(byType, keys, topK, SampleRound(byType, keys, acc, i), i + 1)
  {
  }

  /**
   * A round keeps the facts `diversitySample` relies on: picks are chunks of
   * the input, the first `#types` rounds take the first chunk of each type,
   * and later rounds only extend that.
   */
  lemma RoundKeeps(chunks: seq<Chunk>, byType: map<ChunkType, seq<Chunk>>, keys: seq<ChunkType>,
                   acc: seq<Chunk>, i: nat)
    requires Grouped(chunks, byType, keys)
    requires forall c :: c in acc ==> c in chunks
    requires i <= |keys| ==> acc == Dedup(chunks, TypeOf)[..i]
    requires i >= |keys| ==> Dedup(chunks, TypeOf) <= acc
    ensures var next := SampleRound(byType, keys, acc, i);
            && |next| <= |acc| + 1
            && (forall c :: c in next ==> c in chunks)
            && (i + 1 <= |keys| ==> next == Dedup(chunks, TypeOf)[..i + 1])
            && (i + 1 >= |keys| ==> Dedup(chunks, TypeOf) <= next)
  {
    var firsts := Dedup(chunks, TypeOf);
    var next := SampleRound(byType, keys, acc, i);
    if |keys| > 0 {
      PickFacts(chunks, byType, keys, |acc|, i);
      if i < |keys| {
        assert firsts[..i + 1] == firsts[..i] + [firsts[i]];
      }
    }
    if i + 1 == |keys| {
      assert firsts[..i + 1] == firsts;
    }
  }

  /**
   * `diversitySample(chunks, topK)`: cycles over the types taking the group
   * element at index `floor(result.length / #types)`, for at most
   * `4 * topK + 1` rounds. It returns at most `topK` chunks of `chunks`,
   * starting with the first chunk of each type in order of first appearance
   * (as many as `topK` allows); it may repeat a chunk when the groups are
   * uneven.
   */
  method DiversitySample(chunks: seq<Chunk>, topK: nat) returns (result: seq<Chunk>)
    ensures |result| <= topK
    ensures forall c :: c in result ==> c in chunks
    ensures |result| >= Min(topK, |Dedup(chunks, TypeOf)|)
    ensures result <= Dedup(chunks, TypeOf) || Dedup(chunks, TypeOf) <= result
    ensures result == Sample(chunks, topK)
  {
    var byType, types := GroupByType(chunks);
    ghost var firsts := Dedup(chunks, TypeOf);
    assert |types| == |firsts|;
    result := [];
    var i := 0;
    while |result| < topK
      invariant |result| <= topK && i <= 4 * topK
      invariant SampleFrom(byType, types, topK, result, i) == SampleFrom(byType, types, topK, [], 0)
      invariant forall c :: c in result ==> c in chunks
      invariant i <= |types| ==> result == firsts[..i]
      invariant i >= |types| ==> firsts <= result
      decreases 4 * topK - i
    {
      SampleUnfold(byType, types, topK, result, i);
      RoundKeeps(chunks, byType, types, result, i);
      ghost var next := SampleRound(byType, types, result, i);
      // With no chunks there are no types: the index is NaN and nothing is pushed.
      if |types| > 0 {
        var pick := Pick(byType, types, |result|, i);
        if pick.Some? {
          result := result + [pick.value];
        }
      }
      assert result == next;
      i := i + 1;
      if i > 4 * topK {
        break;
      }
    }
    assert result == Sample(chunks, topK) by {
      GroupedUnique(chunks, byType, types);
    }
  }

  /** One entry of `scored`: a chunk and its score. */
  datatype Scored = Scored(chunk: Chunk, score: real)

  function ScoreOf(s: Scored): real {
    s.score
  }

  function ChunkOf(s: Scored): Chunk {
    s.chunk
  }

  /** The sort key of a chunk: its score against the query tokens. */
  function ScoreKey(qs: seq<string>, normalise: (nat, nat, ChunkType) -> real): Chunk -> real {
    c => Score(qs, c, normalise)
  }

  /** The chunks `retrieveChunks` hands to `ensureDiversity`: the `2 * topK` best scoring, best first. */
  function Candidates(qs: seq<string>, chunks: seq<Chunk>, topK: nat, normalise: (nat, nat, ChunkType) -> real)
    : seq<Chunk>
  {
    TopN(chunks, ScoreKey(qs, normalise), 2 * topK)
  }

  /**
   * The candidates are in descending score order, there are `2 * topK` of
   * them (or all chunks), they are taken from the chunks, and each scores at
   * least as much as every chunk left out.
   */
  lemma CandidatesFacts(qs: seq<string>, chunks: seq<Chunk>, topK: nat, normalise: (nat, nat, ChunkType) -> real)
    ensures SortedDesc(Candidates(qs, chunks, topK, normalise), ScoreKey(qs, normalise))
    ensures |Candidates(qs, chunks, topK, normalise)| == Min(2 * topK, |chunks|)
    ensures multiset(Candidates(qs, chunks, topK, normalise)) <= multiset(chunks)
    ensures forall c, d :: c in Candidates(qs, chunks, topK, normalise) &&
                           d in multiset(chunks) - multiset(Candidates(qs, chunks, topK, normalise)) ==>
                           Score(qs, c, normalise) >= Score(qs, d, normalise)
  {
    var key := ScoreKey(qs, normalise);
    var r := Candidates(qs, chunks, topK, normalise);
    TopNFacts(chunks, key, 2 * topK);
    forall c, d | c in r && d in multiset(chunks) - multiset(r)
      ensures Score(qs, c, normalise) >= Score(qs, d, normalise)
    {
      assert key(c) >= key(d);
    }
  }

  /**
   * With a usable query, every chunk returned scores at least as much as
   * every chunk that did not make the candidates.
   */
  lemma RetrievedOutrank(qs: seq<string>, chunks: seq<Chunk>, topK: nat, normalise: (nat, nat, ChunkType) -> real,
                         c: Chunk, d: Chunk)
    requires c in Diverse(Candidates(qs, chunks, topK, normalise), topK)
    requires d in multiset(chunks) - multiset(Candidates(qs, chunks, topK, normalise))
    ensures Score(qs, c, normalise) >= Score(qs, d, normalise)
  {
    DiverseFacts(Candidates(qs, chunks, topK, normalise), topK);
    CandidatesFacts(qs, chunks, topK, normalise);
  }

  /**
   * `retrieveChunks(query, chunks, topK)`: nothing for no chunks; the
   * diversity sample when the query has no usable words; otherwise the
   * chunks scored, sorted best first, cut to `2 * topK` and diversified.
   */
  method RetrieveChunks(query: string, chunks: seq<Chunk>, topK: nat, normalise: (nat, nat, ChunkType) -> real)
    returns (result: seq<Chunk>)
    ensures chunks == [] ==> result == []
    ensures chunks != [] && Tokenize(query) != [] ==>
              result == Diverse(Candidates(Tokenize(query), chunks, topK, normalise), topK)
    ensures chunks != [] && Tokenize(query) == [] ==>
              |result| >= Min(topK, |Dedup(chunks, TypeOf)|) &&
              (result <= Dedup(chunks, TypeOf) || Dedup(chunks, TypeOf) <= result)
    ensures chunks != [] && Tokenize(query) == [] ==> result == Sample(chunks, topK)
    ensures |result| <= topK
    ensures forall c :: c in result ==> c in chunks
  {
    if |chunks| == 0 {
      return [];
    }
    var queryTokens := Tokenize(query);
    if |queryTokens| == 0 {
      result := DiversitySample(chunks, topK);
      return;
    }
    var scored := ScoreAll(queryTokens, chunks, normalise);
    var sorted := SortDesc(scored, ScoreOf);
    var top := MapSeq(Take(sorted, 2 * topK), ChunkOf);
    RankedChunks(queryTokens, chunks, scored, topK, normalise);
    result := EnsureDiversity(top, topK);
    CandidatesFacts(queryTokens, chunks, topK, normalise);
    DiverseFacts(top, topK);
    forall c | c in result ensures c in chunks {
      assert c in multiset(top);
    }
  }

  /** `chunks.map(chunk => ({ chunk, score: scoreChunk(queryTokens, chunk) }))`. */
  method ScoreAll(queryTokens: seq<string>, chunks: seq<Chunk>, normalise: (nat, nat, ChunkType) -> real)
    returns (scored: seq<Scored>)
    ensures |scored| == |chunks|
    ensures forall k :: 0 <= k < |chunks| ==> scored[k] == Scored(chunks[k], Score(queryTokens, chunks[k], normalise))
  {
    scored := [];
    var i := 0;
    while i < |chunks|
      invariant 0 <= i <= |chunks| && |scored| == i
      invariant forall k :: 0 <= k < i ==> scored[k] == Scored(chunks[k], Score(queryTokens, chunks[k], normalise))
    {
      var score := ScoreChunk(queryTokens, chunks[i], normalise);
      scored := scored + [Scored(chunks[i], score)];
      i := i + 1;
    }
  }

  /** Each scored entry carries its chunk's score. */
  lemma ScoresMatch(qs: seq<string>, chunks: seq<Chunk>, scored: seq<Scored>, normalise: (nat, nat, ChunkType) -> real)
    requires |scored| == |chunks|
    requires forall k :: 0 <= k < |chunks| ==> scored[k] == Scored(chunks[k], Score(qs, chunks[k], normalise))
    ensures forall x :: x in scored ==> ScoreOf(x) == ScoreKey(qs, normalise)(ChunkOf(x))
  {
  }

  /** Sorting the scored entries and keeping their chunks is sorting the chunks by score. */
  lemma RankedChunks(qs: seq<string>, chunks: seq<Chunk>, scored: seq<Scored>, topK: nat,
                     normalise: (nat, nat, ChunkType) -> real)
    requires |scored| == |chunks|
    requires forall k :: 0 <= k < |chunks| ==> scored[k] == Scored(chunks[k], Score(qs, chunks[k], normalise))
    ensures MapSeq(Take(SortDesc(scored, ScoreOf), 2 * topK), ChunkOf) == Candidates(qs, chunks, topK, normalise)
  {
    var key := ScoreKey(qs, normalise);
    var sorted := SortDesc(scored, ScoreOf);
    assert MapSeq(scored, ChunkOf) == chunks;
    ScoresMatch(qs, chunks, scored, normalise);
    SortDescMap(scored, ScoreOf, ChunkOf, key);
    var n := |Take(sorted, 2 * topK)|;
    assert MapSeq(Take(sorted, 2 * topK), ChunkOf) == MapSeq(sorted, ChunkOf)[..n];
  }
}
