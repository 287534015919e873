/**
 * The sentence-aligned chunker `chunkText` (lib/scrapers/goodreads.ts:8-31;
 * the other three scrapers carry copies that fix `type` and leave out the
 * rating). A short text becomes one chunk as it is; a longer one is split
 * after sentence punctuation and packed into a buffer that is flushed when
 * adding the next sentence would pass TARGET_CHARS. The size test leaves out
 * the joining space, so a chunk of several sentences can reach
 * TARGET_CHARS + 1 characters.
 */
module Chunker {
  import opened Wrappers
  import opened Strings
  import opened Types

  const TARGET_CHARS: nat := 1600

  predicate IsPunct(c: char) {
    c == '.' || c == '!' || c == '?'
  }

  /**
   * `t.split(/(?<=[.!?])\s+/)` continued from a partly read piece `cur`: a
   * maximal whitespace run that follows sentence punctuation ends a piece.
   */
  function SplitFrom(t: string, cur: string): (r: seq<string>)
    ensures |r| >= 1
    decreases |t|
  {
    if t == [] then [cur]
    else if IsSpace(t[0]) && |cur| > 0 && IsPunct(cur[|cur| - 1]) then
      var rest := TrimStart(t);
      assert |rest| < |t|;
      [cur] + SplitFrom(rest, "")
    else SplitFrom(t[1..], cur + [t[0]])
  }

  function SplitSentences(text: string): (r: seq<string>)
    ensures |r| >= 1
  {
    SplitFrom(text, "")
  }

  /** Every piece but the last is non-empty and ends with `.`, `!` or `?`. */
  lemma {:induction false} SplitFromShape(t: string, cur: string)
    ensures forall j :: 0 <= j < |SplitFrom(t, cur)| - 1 ==>
              |SplitFrom(t, cur)[j]| > 0 && IsPunct(SplitFrom(t, cur)[j][|SplitFrom(t, cur)[j]| - 1])
    decreases |t|
  {
    if t == [] {
    } else if IsSpace(t[0]) && |cur| > 0 && IsPunct(cur[|cur| - 1]) {
      var rest := TrimStart(t);
      SplitFromShape(rest, "");
      var r := SplitFrom(t, cur);
      assert r == [cur] + SplitFrom(rest, "");
      forall j | 0 <= j < |r| - 1 ensures |r[j]| > 0 && IsPunct(r[j][|r[j]| - 1]) {
        if j > 0 { assert r[j] == SplitFrom(rest, "")[j - 1]; }
      }
    } else {
      SplitFromShape(t[1..], cur + [t[0]]);
    }
  }

  /** Splitting loses only the whitespace at the split points. */
  lemma {:induction false} SplitFromCover(t: string, cur: string)
    ensures NonSpace(Concat(SplitFrom(t, cur))) == NonSpace(cur + t)
    decreases |t|
  {
    if t == [] {
      assert cur + t == cur && Concat([cur]) == cur + Concat([]);
    } else if IsSpace(t[0]) && |cur| > 0 && IsPunct(cur[|cur| - 1]) {
      var rest := TrimStart(t);
      SplitFromCover(rest, "");
      assert "" + rest == rest;
      assert Concat(SplitFrom(t, cur)) == cur + Concat(SplitFrom(rest, ""));
      NonSpaceAppend(cur, Concat(SplitFrom(rest, "")));
      NonSpaceTrimStart(t);
      NonSpaceAppend(cur, t);
    } else {
      SplitFromCover(t[1..], cur + [t[0]]);
      assert cur + [t[0]] + t[1..] == cur + t;
    }
  }

  /** A piece with no whitespace is read whole, whatever follows it. */
  lemma {:induction false} ScanWord(w: string, rest: string, cur: string)
    requires forall i :: 0 <= i < |w| ==> !IsSpace(w[i])
    ensures SplitFrom(w + rest, cur) == SplitFrom(rest, cur + w)
    decreases |w|
  {
    if w == [] {
      assert w + rest == rest && cur + w == cur;
    } else {
      assert (w + rest)[0] == w[0] && (w + rest)[1..] == w[1..] + rest;
      ScanWord(w[1..], rest, cur + [w[0]]);
      assert cur + [w[0]] + w[1..] == cur + w;
    }
  }

  /**
   * Round trip: joining whitespace-free sentences with single spaces and
   * splitting gives the sentences back, when each but the last ends in
   * sentence punctuation.
   */
  lemma {:induction false} SplitJoin(ps: seq<string>)
    requires |ps| >= 1
    requires forall j :: 0 <= j < |ps| ==> |ps[j]| > 0
    requires forall j, i :: 0 <= j < |ps| && 0 <= i < |ps[j]| ==> !IsSpace(ps[j][i])
    requires forall j :: 0 <= j < |ps| - 1 ==> IsPunct(ps[j][|ps[j]| - 1])
    ensures SplitSentences(Join(ps, " ")) == ps
  {
    SplitJoinFrom(ps, "");
    assert "" + ps[0] == ps[0];
    assert SplitSentences(Join(ps, " ")) == [ps[0]] + ps[1..];
    assert [ps[0]] + ps[1..] == ps;
  }

  lemma TrimStartSpace(s: string)
    requires s == [] || !IsSpace(s[0])
    ensures TrimStart(" " + s) == s
  {
    assert (" " + s)[1..] == s;
  }

  lemma {:induction false} SplitJoinFrom(ps: seq<string>, cur: string)
    requires |ps| >= 1
    requires forall j :: 0 <= j < |ps| ==> |ps[j]| > 0
    requires forall j, i :: 0 <= j < |ps| && 0 <= i < |ps[j]| ==> !IsSpace(ps[j][i])
    requires forall j :: 0 <= j < |ps| - 1 ==> IsPunct(ps[j][|ps[j]| - 1])
    ensures SplitFrom(Join(ps, " "), cur) == [cur + ps[0]] + ps[1..]
    decreases |ps|
  {
    var p0 := ps[0];
    assert forall i :: 0 <= i < |p0| ==> !IsSpace(p0[i]);
    if |ps| == 1 {
      ScanWord(p0, "", cur);
      assert p0 + "" == p0;
      assert Join(ps, " ") == p0;
    } else {
      var tail := Join(ps[1..], " ");
      assert Join(ps, " ") == p0 + (" " + tail);
      ScanWord(p0, " " + tail, cur);
      var c := cur + p0;
      assert |c| > 0 && IsPunct(c[|c| - 1]);
      assert tail[0] == ps[1][0] && !IsSpace(tail[0]);
      TrimStartSpace(tail);
      assert SplitFrom(" " + tail, c) == [c] + SplitFrom(tail, "");
      SplitJoinFrom(ps[1..], "");
      assert "" + ps[1] == ps[1];
      assert [ps[1]] + ps[2..] == ps[1..];
    }
  }

  /** Leading space of the first buffer: it starts as `''` and gains `' ' + sentence`. */
  function Lead(lo: nat): string {
    if lo == 0 then " " else ""
  }

  /**
   * The loop state after some sentences: the flushed chunk contents, the
   * buffer, and the index of the first sentence of each flushed chunk and of
   * the buffer (the last entry).
   */
  datatype PackState = PackState(chunks: seq<string>, current: string, starts: seq<nat>)

  /** One iteration of the `for (const sentence of sentences)` loop; `idx` is the sentence's index. */
  function Step(st: PackState, s: string, idx: nat): PackState {
    if |st.current + s| > TARGET_CHARS && |st.current| > 0 then
      PackState(st.chunks + [Trim(st.current)], s, st.starts + [idx])
    else
      PackState(st.chunks, st.current + " " + s, st.starts)
  }

  /** The loop state after reading the first `n` sentences of `ss`. */
  function FoldTo(ss: seq<string>, n: nat): PackState
    requires n <= |ss|
  {
    if n == 0 then PackState([], "", [0])
    else Step(FoldTo(ss, n - 1), ss[n - 1], n - 1)
  }

  /** The sentence list after the loop, with the last buffer emitted when it is not blank. */
  function Pack(ss: seq<string>): seq<string> {
    var st := FoldTo(ss, |ss|);
    if Trim(st.current) != [] then st.chunks + [Trim(st.current)] else st.chunks
  }

  /** Where each chunk of `Pack(ss)` starts, followed by the end of the last one. */
  function PackCuts(ss: seq<string>): seq<nat> {
    var st := FoldTo(ss, |ss|);
    if Trim(st.current) != [] then st.starts + [|ss|] else st.starts
  }

  /** The chunk contents `chunkText` emits for `text`. */
  function ChunkContents(text: string): seq<string> {
    if |text| <= TARGET_CHARS then [text] else Pack(SplitSentences(text))
  }

  /** The sentences `ss[a..b]` joined with single spaces, as the buffer joins them. */
  function Joined(ss: seq<string>, a: nat, b: nat): string
    requires a <= b <= |ss|
    decreases b - a
  {
    if b == a then ""
    else if b == a + 1 then ss[a]
    else Joined(ss, a, b - 1) + " " + ss[b - 1]
  }

  /** The text of the chunk made of sentences `ss[a..b]`: their space-join, trimmed. */
  function Run(ss: seq<string>, a: nat, b: nat): string
    requires a <= b <= |ss|
  {
    Trim(Joined(ss, a, b))
  }

  /** The buffer holding the open run `ss[lo..n]`; the first run has the leading space. */
  function OpenText(ss: seq<string>, lo: nat, n: nat): string
    requires lo <= n <= |ss|
  {
    Lead(lo) + Joined(ss, lo, n)
  }

  /** Trimming the open buffer gives the run's text. */
  lemma OpenTextTrim(ss: seq<string>, lo: nat, n: nat)
    requires lo <= n <= |ss|
    ensures Trim(OpenText(ss, lo, n)) == Run(ss, lo, n)
  {
    if lo == 0 {
      TrimLeadingSpace(Joined(ss, lo, n));
    } else {
      assert OpenText(ss, lo, n) == Joined(ss, lo, n);
    }
  }

  /** A blank join is made of blank sentences. */
  lemma {:induction false} JoinedBlank(ss: seq<string>, a: nat, b: nat)
    requires a <= b <= |ss| && IsBlank(Joined(ss, a, b))
    ensures forall j :: a <= j < b ==> IsBlank(ss[j])
    decreases b - a
  {
    if b > a + 1 {
      BlankAppend(Joined(ss, a, b - 1) + " ", ss[b - 1]);
      BlankAppend(Joined(ss, a, b - 1), " ");
      JoinedBlank(ss, a, b - 1);
    }
  }

  /** Cut points into `n` sentences: they start at 0, strictly increase and stay within `n`. */
  predicate Cuts(cuts: seq<nat>, n: nat) {
    && |cuts| > 0
    && cuts[0] == 0
    && (forall i, j :: 0 <= i < j < |cuts| ==> cuts[i] < cuts[j])
    && (forall i :: 0 <= i < |cuts| ==> cuts[i] <= n)
  }

  /**
   * `chunks` are the trimmed space-joins of consecutive runs of the first `n`
   * sentences of `ss`: run k is `ss[cuts[k]..cuts[k+1]]`, and the first run
   * starts at the first sentence.
   */
  predicate Segments(ss: seq<string>, n: nat, chunks: seq<string>, cuts: seq<nat>)
    requires n <= |ss|
  {
    && |cuts| == |chunks| + 1
    && Cuts(cuts, n)
    && forall k :: 0 <= k < |chunks| ==> chunks[k] == Run(ss, cuts[k], cuts[k + 1])
  }

  /** A chunk made of two or more sentences has at most TARGET_CHARS + 1 characters. */
  predicate Bounded(chunks: seq<string>, cuts: seq<nat>)
    requires |cuts| == |chunks| + 1
  {
    forall k :: 0 <= k < |chunks| && cuts[k] + 1 < cuts[k + 1] ==> |chunks[k]| <= TARGET_CHARS + 1
  }

  /** No sentence but possibly the last is whitespace only (as `SplitSentences` guarantees). */
  predicate InnerNonBlank(ss: seq<string>) {
    forall j :: 0 <= j < |ss| - 1 ==> !IsBlank(ss[j])
  }

  /** After `n` sentences the buffer holds the open run `ss[lo..n]`, joined as the loop joins it. */
  predicate OpenRun(ss: seq<string>, n: nat, st: PackState)
    requires n <= |ss| && Segments(ss, n, st.chunks, st.starts)
  {
    var lo := st.starts[|st.chunks|];
    if n == 0 then st.current == []
    else
      && lo < n
      && st.current == OpenText(ss, lo, n)
      && EndsWith(st.current, ss[n - 1])
      && (lo + 1 < n ==> |st.current| <= TARGET_CHARS + 1)
  }

  /** The loop invariant of `chunkText` after reading `n` sentences. */
  predicate Inv(ss: seq<string>, n: nat, st: PackState)
    requires n <= |ss|
  {
    && Segments(ss, n, st.chunks, st.starts)
    && Bounded(st.chunks, st.starts)
    && [] !in st.chunks
    && OpenRun(ss, n, st)
  }

  /** A string that ends with a non-blank string is not blank. */
  lemma EndsNonBlank(a: string, b: string)
    requires EndsWith(a, b) && !IsBlank(b)
    ensures !IsBlank(a)
  {
    assert a == a[..|a| - |b|] + b;
    BlankAppend(a[..|a| - |b|], b);
  }

  /** A run opened after the first sentence holds just its sentence. */
  lemma OpenTextAlone(ss: seq<string>, lo: nat)
    requires 0 < lo < |ss|
    ensures OpenText(ss, lo, lo + 1) == ss[lo]
  {
    assert "" + ss[lo] == ss[lo];
  }

  /** Reading one more sentence into an open run appends a space and the sentence. */
  lemma OpenTextSnoc(ss: seq<string>, lo: nat, n: nat)
    requires lo < n - 1 && n <= |ss|
    ensures OpenText(ss, lo, n) == OpenText(ss, lo, n - 1) + " " + ss[n - 1]
  {
    assert Lead(lo) + (Joined(ss, lo, n - 1) + " " + ss[n - 1]) == Lead(lo) + Joined(ss, lo, n - 1) + " " + ss[n - 1];
  }

  /** Reading further keeps the closed runs. */
  lemma SegmentsWiden(ss: seq<string>, n: nat, n2: nat, chunks: seq<string>, cuts: seq<nat>)
    requires n <= n2 <= |ss| && Segments(ss, n, chunks, cuts)
    ensures Segments(ss, n2, chunks, cuts)
  {
  }

  /** A new cut beyond the last one keeps the cut points increasing. */
  lemma CutsSnoc(cuts: seq<nat>, n: nat, b: nat, n2: nat)
    requires Cuts(cuts, n) && cuts[|cuts| - 1] < b <= n2 && n <= n2
    ensures Cuts(cuts + [b], n2)
  {
    var m := |cuts| - 1;
    var k2 := cuts + [b];
    forall i, j | 0 <= i < j < |k2| ensures k2[i] < k2[j] {
      if j == m + 1 && i < m { assert cuts[i] < cuts[m]; }
    }
  }

  /** Closing a run at `b` extends the segmentation by one chunk. */
  lemma SegmentsSnoc(ss: seq<string>, n: nat, chunks: seq<string>, cuts: seq<nat>, c: string, b: nat, n2: nat)
    requires n <= b <= n2 <= |ss| && Segments(ss, n, chunks, cuts) && cuts[|chunks|] < b
    requires c == Trim(OpenText(ss, cuts[|chunks|], b))
    ensures Segments(ss, n2, chunks + [c], cuts + [b])
  {
    var m := |chunks|;
    OpenTextTrim(ss, cuts[m], b);
    CutsSnoc(cuts, n, b, n2);
    var c2, k2 := chunks + [c], cuts + [b];
    forall k | 0 <= k < |c2| ensures c2[k] == Run(ss, k2[k], k2[k + 1]) {
      if k < m { assert c2[k] == chunks[k] && k2[k] == cuts[k] && k2[k + 1] == cuts[k + 1]; }
    }
  }

  lemma BoundedSnoc(chunks: seq<string>, cuts: seq<nat>, c: string, b: nat)
    requires |cuts| == |chunks| + 1 && Bounded(chunks, cuts)
    requires cuts[|chunks|] + 1 < b ==> |c| <= TARGET_CHARS + 1
    ensures Bounded(chunks + [c], cuts + [b])
  {
    var m := |chunks|;
    var c2, k2 := chunks + [c], cuts + [b];
    forall k | 0 <= k < |c2| && k2[k] + 1 < k2[k + 1] ensures |c2[k]| <= TARGET_CHARS + 1 {
      if k < m { assert c2[k] == chunks[k] && k2[k] == cuts[k] && k2[k + 1] == cuts[k + 1]; }
    }
  }

  /** The flushed buffer is not empty once trimmed: it ends with a non-blank sentence. */
  lemma FlushNonEmpty(chunks: seq<string>, cur: string, last: string)
    requires [] !in chunks && EndsWith(cur, last) && !IsBlank(last)
    ensures [] !in chunks + [Trim(cur)]
  {
    EndsNonBlank(cur, last);
    TrimEmpty(cur);
  }

  /** The closed run keeps the size bound of the open one. */
  lemma FlushBounded(ss: seq<string>, n: nat, prev: PackState)
    requires 2 <= n <= |ss| && Segments(ss, n - 1, prev.chunks, prev.starts) && OpenRun(ss, n - 1, prev)
    requires Bounded(prev.chunks, prev.starts)
    ensures Bounded(prev.chunks + [Trim(prev.current)], prev.starts + [n - 1])
  {
    BoundedSnoc(prev.chunks, prev.starts, Trim(prev.current), n - 1);
  }

  /** After a flush the open run is the new sentence alone. */
  lemma FlushOpen(ss: seq<string>, n: nat, chunks: seq<string>, starts: seq<nat>)
    requires 2 <= n <= |ss| && |starts| == |chunks| + 1 && starts[|chunks|] == n - 1
    requires Segments(ss, n, chunks, starts)
    ensures OpenRun(ss, n, PackState(chunks, ss[n - 1], starts))
  {
    OpenTextAlone(ss, n - 1);
  }

  /** A flush closes the open run as a chunk and opens a run at the new sentence. */
  lemma FlushStep(ss: seq<string>, n: nat, prev: PackState)
    requires 2 <= n <= |ss| && InnerNonBlank(ss)
    requires Inv(ss, n - 1, prev)
    requires |prev.current + ss[n - 1]| > TARGET_CHARS && |prev.current| > 0
    ensures Inv(ss, n, Step(prev, ss[n - 1], n - 1))
  {
    var st := Step(prev, ss[n - 1], n - 1);
    assert st.chunks == prev.chunks + [Trim(prev.current)] && st.current == ss[n - 1] && st.starts == prev.starts + [n - 1];
    assert !IsBlank(ss[n - 2]);
    SegmentsSnoc(ss, n - 1, prev.chunks, prev.starts, Trim(prev.current), n - 1, n);
    FlushBounded(ss, n, prev);
    FlushNonEmpty(prev.chunks, prev.current, ss[n - 2]);
    FlushOpen(ss, n, st.chunks, st.starts);
  }

  /** Without a flush the sentence joins the open run after one space. */
  lemma AppendStep(ss: seq<string>, n: nat, prev: PackState)
    requires 1 <= n <= |ss| && InnerNonBlank(ss)
    requires Inv(ss, n - 1, prev)
    requires !(|prev.current + ss[n - 1]| > TARGET_CHARS && |prev.current| > 0)
    ensures Inv(ss, n, Step(prev, ss[n - 1], n - 1))
  {
    var s := ss[n - 1];
    var st := Step(prev, s, n - 1);
    var m := |prev.chunks|;
    var lo := prev.starts[m];
    assert st.chunks == prev.chunks && st.current == prev.current + " " + s && st.starts == prev.starts;
    SegmentsWiden(ss, n - 1, n, prev.chunks, prev.starts);
    if n == 1 {
      assert m == 0 && lo == 0;
      assert OpenText(ss, 0, 1) == " " + s;
    } else {
      OpenTextSnoc(ss, lo, n);
      assert !IsBlank(ss[n - 2]);
      EndsNonBlank(prev.current, ss[n - 2]);
    }
    assert EndsWith(st.current, s) by {
      assert st.current == (prev.current + " ") + s;
    }
  }

  /** The invariant holds after every prefix of a sentence list with non-blank inner sentences. */
  lemma {:induction false} FoldInv(ss: seq<string>, n: nat)
    requires n <= |ss| && InnerNonBlank(ss)
    ensures Inv(ss, n, FoldTo(ss, n))
    decreases n
  {
    if n == 0 {
      assert Cuts([0], 0);
    } else {
      FoldInv(ss, n - 1);
      var prev := FoldTo(ss, n - 1);
      if |prev.current + ss[n - 1]| > TARGET_CHARS && |prev.current| > 0 {
        FlushStep(ss, n, prev);
      } else {
        AppendStep(ss, n, prev);
      }
    }
  }

  /** What one step keeps, beyond whitespace: the buffered text and the new sentence. */
  function Kept(st: PackState): string {
    NonSpace(Concat(st.chunks) + st.current)
  }

  lemma StepCover(st: PackState, s: string, idx: nat)
    ensures Kept(Step(st, s, idx)) == Kept(st) + NonSpace(s)
  {
    var a := Concat(st.chunks);
    if |st.current + s| > TARGET_CHARS && |st.current| > 0 {
      var t := Trim(st.current);
      ConcatSnoc(st.chunks, t);
      NonSpaceTrimMid(a, st.current, s);
    } else {
      assert a + (st.current + " " + s) == (a + st.current) + " " + s;
      NonSpaceSpaceJoin(a + st.current, s);
    }
  }

  /** The loop drops only whitespace: what is flushed plus the buffer covers the sentences read. */
  lemma {:induction false} FoldCover(ss: seq<string>, n: nat)
    requires n <= |ss|
    ensures Kept(FoldTo(ss, n)) == NonSpace(Concat(ss[..n]))
    decreases n
  {
    if n > 0 {
      FoldCover(ss, n - 1);
      FoldStepCover(ss, n);
      PrefixCover(ss, n);
    } else {
      assert ss[..0] == [];
      assert Kept(FoldTo(ss, 0)) == NonSpace("" + "");
    }
  }

  /** One step of the fold keeps the new sentence's non-space characters. */
  lemma FoldStepCover(ss: seq<string>, n: nat)
    requires 0 < n <= |ss|
    ensures Kept(FoldTo(ss, n)) == Kept(FoldTo(ss, n - 1)) + NonSpace(ss[n - 1])
  {
    StepCover(FoldTo(ss, n - 1), ss[n - 1], n - 1);
  }

  /** The same holds for the concatenation of the sentences read. */
  lemma PrefixCover(ss: seq<string>, n: nat)
    requires 0 < n <= |ss|
    ensures NonSpace(Concat(ss[..n])) == NonSpace(Concat(ss[..n - 1])) + NonSpace(ss[n - 1])
  {
    assert ss[..n] == ss[..n - 1] + [ss[n - 1]];
    ConcatSnoc(ss[..n - 1], ss[n - 1]);
    NonSpaceAppend(Concat(ss[..n - 1]), ss[n - 1]);
  }

  /** A run's text has no surrounding whitespace. */
  lemma RunTrimmed(ss: seq<string>, a: nat, b: nat)
    requires a <= b <= |ss|
    ensures Trim(Run(ss, a, b)) == Run(ss, a, b)
  {
    var r := Run(ss, a, b);
    assert r == Trim(Joined(ss, a, b));
    TrimIdentity(r);
  }

  lemma SegmentsTrimmed(ss: seq<string>, n: nat, chunks: seq<string>, cuts: seq<nat>)
    requires n <= |ss| && Segments(ss, n, chunks, cuts)
    ensures forall k :: 0 <= k < |chunks| ==> Trim(chunks[k]) == chunks[k]
  {
    forall k | 0 <= k < |chunks| ensures Trim(chunks[k]) == chunks[k] {
      assert cuts[k] < cuts[k + 1];
      RunTrimmed(ss, cuts[k], cuts[k + 1]);
    }
  }

  /** When the final buffer is blank, so is every sentence of the open run. */
  lemma BlankTail(ss: seq<string>, lo: nat, cur: string)
    requires lo < |ss| && cur == OpenText(ss, lo, |ss|) && Trim(cur) == []
    ensures forall j :: lo <= j < |ss| ==> IsBlank(ss[j])
  {
    TrimEmpty(cur);
    BlankAppend(Lead(lo), Joined(ss, lo, |ss|));
    JoinedBlank(ss, lo, |ss|);
  }

  /** The packed chunks drop nothing but whitespace. */
  lemma PackCover(ss: seq<string>)
    ensures NonSpace(Concat(Pack(ss))) == NonSpace(Concat(ss))
  {
    FoldCover(ss, |ss|);
    assert ss[..|ss|] == ss;
    var st := FoldTo(ss, |ss|);
    var t := Trim(st.current);
    NonSpaceAppend(Concat(st.chunks), st.current);
    NonSpaceTrim(st.current);
    if t != [] {
      ConcatSnoc(st.chunks, t);
      NonSpaceAppend(Concat(st.chunks), t);
    } else {
      NonSpaceBlank(t);
    }
  }

  /**
   * After the loop: the chunks are the trimmed runs of consecutive sentences,
   * in order, each sentence in exactly one run except for a whitespace-only
   * tail that is dropped; no chunk is empty or has surrounding whitespace;
   * a chunk of several sentences has at most TARGET_CHARS + 1 characters;
   * and nothing but whitespace is lost.
   */
  lemma PackFacts(ss: seq<string>)
    requires InnerNonBlank(ss)
    ensures Segments(ss, |ss|, Pack(ss), PackCuts(ss))
    ensures Bounded(Pack(ss), PackCuts(ss))
    ensures forall j :: PackCuts(ss)[|Pack(ss)|] <= j < |ss| ==> IsBlank(ss[j])
    ensures [] !in Pack(ss)
    ensures forall k :: 0 <= k < |Pack(ss)| ==> Trim(Pack(ss)[k]) == Pack(ss)[k]
    ensures NonSpace(Concat(Pack(ss))) == NonSpace(Concat(ss))
  {
    FoldInv(ss, |ss|);
    var st := FoldTo(ss, |ss|);
    if ss == [] {
      assert Trim(st.current) == [];
    } else if Trim(st.current) != [] {
      PackLast(ss, st);
    } else {
      BlankTail(ss, st.starts[|st.chunks|], st.current);
    }
    SegmentsTrimmed(ss, |ss|, Pack(ss), PackCuts(ss));
    PackCover(ss);
  }

  /** Emitting a non-blank final buffer closes the open run as the last chunk. */
  lemma PackLast(ss: seq<string>, st: PackState)
    requires ss != [] && st == FoldTo(ss, |ss|) && Inv(ss, |ss|, st) && Trim(st.current) != []
    ensures Segments(ss, |ss|, Pack(ss), PackCuts(ss))
    ensures Bounded(Pack(ss), PackCuts(ss))
    ensures PackCuts(ss)[|Pack(ss)|] == |ss|
  {
    var m := |st.chunks|;
    var lo := st.starts[m];
    var t := Trim(st.current);
    assert Pack(ss) == st.chunks + [t] && PackCuts(ss) == st.starts + [|ss|];
    SegmentsSnoc(ss, |ss|, st.chunks, st.starts, t, |ss|, |ss|);
    BoundedSnoc(st.chunks, st.starts, t, |ss|);
  }

  /** The sentences of any text satisfy what `PackFacts` needs, and cover the text. */
  lemma SentencesFacts(text: string)
    ensures InnerNonBlank(SplitSentences(text))
    ensures NonSpace(Concat(SplitSentences(text))) == NonSpace(text)
  {
    SplitFromShape(text, "");
    SplitFromCover(text, "");
    assert "" + text == text;
  }

  /**
   * For text over TARGET_CHARS: the chunks are the trimmed runs of the
   * sentence split, in order, no chunk is blank or padded, multi-sentence
   * chunks have at most TARGET_CHARS + 1 characters, and the non-whitespace
   * characters of the chunks are exactly those of the text.
   */
  lemma LongTextFacts(text: string)
    requires |text| > TARGET_CHARS
    ensures Segments(SplitSentences(text), |SplitSentences(text)|, ChunkContents(text), PackCuts(SplitSentences(text)))
    ensures Bounded(ChunkContents(text), PackCuts(SplitSentences(text)))
    ensures forall k :: 0 <= k < |ChunkContents(text)| ==>
              ChunkContents(text)[k] != [] && Trim(ChunkContents(text)[k]) == ChunkContents(text)[k]
    ensures NonSpace(Concat(ChunkContents(text))) == NonSpace(text)
  {
    SentencesFacts(text);
    PackFacts(SplitSentences(text));
  }

  /** Whatever the length, the chunks hold every non-whitespace character of the text, in order. */
  lemma ChunkCover(text: string)
    ensures NonSpace(Concat(ChunkContents(text))) == NonSpace(text)
  {
    if |text| > TARGET_CHARS {
      LongTextFacts(text);
    } else {
      assert ChunkContents(text) == [text];
      assert [text][1..] == [];
      assert Concat([text]) == text + Concat([]) == text;
    }
  }

  /** A whitespace-free sentence ending in sentence punctuation. */
  predicate Word(w: string) {
    && |w| > 0 && IsPunct(w[|w| - 1])
    && forall i :: 0 <= i < |w| ==> !IsSpace(w[i])
  }

  /** The loop over `[a, x, ..]`: `a` fills the buffer and `x` flushes it. */
  lemma OffByOneTwo(ps: seq<string>)
    requires |ps| >= 2 && Word(ps[0]) && |ps[0]| == 2 && |ps[1]| == TARGET_CHARS - 2
    ensures FoldTo(ps, 2) == PackState([ps[0]], ps[1], [0, 1])
  {
    assert FoldTo(ps, 1).current == " " + ps[0];
    assert Trim(" " + ps[0]) == ps[0] by { TrimLeadingSpace(ps[0]); TrimIdentity(ps[0]); }
  }

  /** The loop over `[a, x, y, ..]`: `y` joins `x` in the buffer. */
  lemma OffByOneThree(ps: seq<string>)
    requires |ps| >= 3 && Word(ps[0]) && |ps[0]| == 2 && |ps[1]| == TARGET_CHARS - 2 && |ps[2]| == 2
    ensures FoldTo(ps, 3) == PackState([ps[0]], ps[1] + " " + ps[2], [0, 1])
  {
    OffByOneTwo(ps);
    assert |ps[1] + ps[2]| == TARGET_CHARS;
  }

  /** The loop over `[a, x, y, c]` closes `x + " " + y` and leaves `c` in the buffer. */
  lemma OffByOneFour(ps: seq<string>)
    requires |ps| == 4 && forall j :: 0 <= j < 4 ==> Word(ps[j])
    requires |ps[0]| == 2 && |ps[1]| == TARGET_CHARS - 2 && |ps[2]| == 2 && |ps[3]| == 2
    ensures Pack(ps) == [ps[0], ps[1] + " " + ps[2], ps[3]]
  {
    assert Word(ps[0]) && Word(ps[1]) && Word(ps[2]) && Word(ps[3]);
    OffByOneThree(ps);
    var m := ps[1] + " " + ps[2];
    assert FoldTo(ps, 4) == PackState([ps[0], Trim(m)], ps[3], [0, 1, 3]);
    assert m[0] == ps[1][0] && m[|m| - 1] == ps[2][1];
    TrimIdentity(m);
    TrimIdentity(ps[3]);
  }

  /**
   * The bound TARGET_CHARS + 1 is reached: after a two-character sentence
   * `a`, a sentence `x` of 1598 characters and a two-character sentence `y`
   * share a chunk of 1601 characters, and the last sentence `c` starts a
   * chunk of its own.
   */
  lemma OffByOne(a: string, x: string, y: string, c: string)
    requires Word(a) && Word(x) && Word(y) && Word(c)
    requires |a| == 2 && |x| == TARGET_CHARS - 2 && |y| == 2 && |c| == 2
    ensures var text := Join([a, x, y, c], " ");
            |text| > TARGET_CHARS && ChunkContents(text) == [a, x + " " + y, c] &&
            |ChunkContents(text)[1]| == TARGET_CHARS + 1
  {
    var ps := [a, x, y, c];
    assert forall j :: 0 <= j < |ps| ==> Word(ps[j]);
    SplitJoin(ps);
    var text := Join(ps, " ");
    assert Join([c], " ") == c;
    assert Join([y, c], " ") == y + " " + c by { assert [y, c][1..] == [c]; }
    assert Join([x, y, c], " ") == x + " " + Join([y, c], " ") by { assert [x, y, c][1..] == [y, c]; }
    assert text == a + " " + Join([x, y, c], " ") by { assert ps[1..] == [x, y, c]; }
    OffByOneFour(ps);
  }

  /** A concrete text for `OffByOne`. */
  lemma OffByOneWitness()
    ensures var x := seq(TARGET_CHARS - 3, _ => 'b') + ".";
            var text := Join(["a.", x, "y.", "c."], " ");
            |text| > TARGET_CHARS && ChunkContents(text) == ["a.", x + " y.", "c."] &&
            |ChunkContents(text)[1]| == TARGET_CHARS + 1
  {
    var x := seq(TARGET_CHARS - 3, _ => 'b') + ".";
    assert forall i :: 0 <= i < |x| ==> x[i] == 'b' || x[i] == '.';
    assert x + " " + "y." == x + " y.";
    OffByOne("a.", x, "y.", "c.");
  }

  /**
   * The chunk records `chunkText` pushes for `contents`, in order: the one at
   * position k gets the id `newId(base + k)`.
   */
  function Stamp(contents: seq<string>, source: string, sourceUrl: string, ctype: ChunkType, rating: Option<int>,
                 newId: nat -> string, base: nat): seq<Chunk>
    decreases |contents|
  {
    if contents == [] then []
    else
      var n := |contents| - 1;
      Stamp(contents[..n], source, sourceUrl, ctype, rating, newId, base) +
      [Chunk(newId(base + n), contents[n], source, Some(sourceUrl), ctype, rating)]
  }

  /** Emitting one more chunk content stamps it with the next id. */
  lemma StampSnoc(parts: seq<string>, c: string, source: string, sourceUrl: string, ctype: ChunkType,
                  rating: Option<int>, newId: nat -> string, base: nat)
    ensures Stamp(parts + [c], source, sourceUrl, ctype, rating, newId, base) ==
            Stamp(parts, source, sourceUrl, ctype, rating, newId, base) +
            [Chunk(newId(base + |parts|), c, source, Some(sourceUrl), ctype, rating)]
  {
    assert (parts + [c])[..|parts|] == parts;
  }

  /** Chunk k carries content k, id `newId(base + k)` and the given source, URL, type and rating. */
  lemma {:induction false} StampIndex(contents: seq<string>, source: string, sourceUrl: string, ctype: ChunkType,
                                      rating: Option<int>, newId: nat -> string, base: nat)
    ensures |Stamp(contents, source, sourceUrl, ctype, rating, newId, base)| == |contents|
    ensures forall k :: 0 <= k < |contents| ==>
              Stamp(contents, source, sourceUrl, ctype, rating, newId, base)[k] ==
              Chunk(newId(base + k), contents[k], source, Some(sourceUrl), ctype, rating)
    decreases |contents|
  {
    if contents != [] {
      var n := |contents| - 1;
      StampIndex(contents[..n], source, sourceUrl, ctype, rating, newId, base);
      var r := Stamp(contents, source, sourceUrl, ctype, rating, newId, base);
      forall k | 0 <= k < |contents|
        ensures r[k] == Chunk(newId(base + k), contents[k], source, Some(sourceUrl), ctype, rating)
      {
        if k < n { assert contents[..n][k] == contents[k]; }
      }
    }
  }

  /**
   * `chunkText(text, source, sourceUrl, type, rating)`; ids come from the
   * supplied `newId`, numbered from `base`.
   */
  method ChunkText(text: string, source: string, sourceUrl: string, ctype: ChunkType, rating: Option<int>,
                   newId: nat -> string, base: nat) returns (chunks: seq<Chunk>)
    ensures chunks == Stamp(ChunkContents(text), source, sourceUrl, ctype, rating, newId, base)
  {
    if |text| <= TARGET_CHARS {
      chunks := [Chunk(newId(base), text, source, Some(sourceUrl), ctype, rating)];
      assert [text][..0] == [];
      return;
    }
    var sentences := SplitSentences(text);
    chunks := PackSentences(sentences, source, sourceUrl, ctype, rating, newId, base);
  }

  /** A text of at most TARGET_CHARS characters becomes one chunk holding the text unchanged, the empty text too. */
  lemma ShortText(text: string, source: string, sourceUrl: string, ctype: ChunkType, rating: Option<int>,
                  newId: nat -> string, base: nat)
    requires |text| <= TARGET_CHARS
    ensures Stamp(ChunkContents(text), source, sourceUrl, ctype, rating, newId, base) ==
            [Chunk(newId(base), text, source, Some(sourceUrl), ctype, rating)]
  {
    assert [text][..0] == [];
  }

  /** After the last sentence, `Pack` adds the trimmed buffer when it is not blank. */
  lemma PackEnd(ss: seq<string>)
    ensures var st := FoldTo(ss, |ss|);
            Pack(ss) == if Trim(st.current) != [] then st.chunks + [Trim(st.current)] else st.chunks
  {
  }

  /** `chunks.push({ id, content, source, sourceUrl, type, rating })` for the next content. */
  method PushChunk(chunks: seq<Chunk>, ghost parts: seq<string>, content: string, source: string, sourceUrl: string,
                   ctype: ChunkType, rating: Option<int>, newId: nat -> string, base: nat) returns (r: seq<Chunk>)
    requires chunks == Stamp(parts, source, sourceUrl, ctype, rating, newId, base)
    ensures r == Stamp(parts + [content], source, sourceUrl, ctype, rating, newId, base)
  {
    StampIndex(parts, source, sourceUrl, ctype, rating, newId, base);
    StampSnoc(parts, content, source, sourceUrl, ctype, rating, newId, base);
    r := chunks + [Chunk(newId(base + |chunks|), content, source, Some(sourceUrl), ctype, rating)];
  }

  /** The `for (const sentence of sentences)` loop of `chunkText`: pushes a chunk at every flush. */
  method PackLoop(sentences: seq<string>, source: string, sourceUrl: string, ctype: ChunkType,
                  rating: Option<int>, newId: nat -> string, base: nat)
    returns (chunks: seq<Chunk>, current: string, ghost parts: seq<string>)
    ensures FoldTo(sentences, |sentences|).chunks == parts && FoldTo(sentences, |sentences|).current == current
    ensures chunks == Stamp(parts, source, sourceUrl, ctype, rating, newId, base)
  {
    current := "";
    parts := [];
    chunks := [];
    ghost var st := FoldTo(sentences, 0);
    var i := 0;
    while i < |sentences|
      invariant 0 <= i <= |sentences| && st == FoldTo(sentences, i)
      invariant st.chunks == parts && st.current == current
      invariant chunks == Stamp(parts, source, sourceUrl, ctype, rating, newId, base)
    {
      var sentence := sentences[i];
      st := Step(st, sentence, i);
      if |current + sentence| > TARGET_CHARS && |current| > 0 {
        var content := Trim(current);
        chunks := PushChunk(chunks, parts, content, source, sourceUrl, ctype, rating, newId, base);
        parts := parts + [content];
        current := sentence;
      } else {
        current := current + " " + sentence;
      }
      i := i + 1;
    }
  }

  /** The sentence loop of `chunkText` and the final flush. */
  method PackSentences(sentences: seq<string>, source: string, sourceUrl: string, ctype: ChunkType,
                       rating: Option<int>, newId: nat -> string, base: nat) returns (chunks: seq<Chunk>)
    ensures chunks == Stamp(Pack(sentences), source, sourceUrl, ctype, rating, newId, base)
  {
    var current;
    ghost var parts;
    chunks, current, parts := PackLoop(sentences, source, sourceUrl, ctype, rating, newId, base);
    PackEnd(sentences);
    var last := Trim(current);
    if last != [] {
      chunks := PushChunk(chunks, parts, last, source, sourceUrl, ctype, rating, newId, base);
    }
  }

  /** A text that is not all whitespace gives at least one chunk. */
  lemma NonBlankChunks(text: string)
    requires !IsBlank(text)
    ensures ChunkContents(text) != []
  {
    ChunkCover(text);
    NonSpaceBlank(text);
  }
}
