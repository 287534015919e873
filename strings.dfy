/**
 * The JavaScript string built-ins the core relies on, on `seq<char>`:
 * the `\s` class and `trim`, regex-free joins, `includes`, `startsWith`,
 * `replace` with a string pattern, number-to-decimal and `replace(/\s+/g, ' ')`.
 */
module Strings {

  /** JavaScript's `\s`, which is also exactly what `String.prototype.trim` removes. */
  predicate IsSpace(c: char) {
    || c == ' ' || ('\t' <= c <= '\r') || c == '\U{00A0}' || c == '\U{1680}'
    || ('\U{2000}' <= c <= '\U{200A}') || ('\U{2028}' <= c <= '\U{2029}')
    || c == '\U{202F}' || c == '\U{205F}' || c == '\U{3000}' || c == '\U{FEFF}'
  }

  /** Every character is whitespace (the empty string included). */
  predicate IsBlank(s: string) {
    forall i :: 0 <= i < |s| ==> IsSpace(s[i])
  }

  /** `s.trimStart()`: a suffix of `s` that does not start with whitespace. */
  function TrimStart(s: string): (r: string)
    ensures |r| <= |s|
    ensures r == [] || !IsSpace(r[0])
    decreases |s|
  {
    if |s| > 0 && IsSpace(s[0]) then TrimStart(s[1..]) else s
  }

  /** What `trimStart` drops is whitespace only, so it drops exactly the leading whitespace run. */
  lemma {:induction false} TrimStartDrops(s: string)
    ensures TrimStart(s) == s[|s| - |TrimStart(s)|..]
    ensures IsBlank(s[..|s| - |TrimStart(s)|])
    decreases |s|
  {
    if |s| > 0 && IsSpace(s[0]) {
      TrimStartDrops(s[1..]);
      var k := |s| - |TrimStart(s)|;
      forall i | 0 <= i < k ensures IsSpace(s[i]) {
        if i > 0 { assert s[i] == s[1..][..k - 1][i - 1]; }
      }
    }
  }

  /** `s.trimEnd()`: a prefix of `s` that does not end with whitespace. */
  function TrimEnd(s: string): (r: string)
    ensures |r| <= |s|
    ensures r == [] || (r[0] == s[0] && !IsSpace(r[|r| - 1]))
    decreases |s|
  {
    if |s| > 0 && IsSpace(s[|s| - 1]) then TrimEnd(s[..|s| - 1]) else s
  }

  /** What `trimEnd` drops is whitespace only. */
  lemma {:induction false} TrimEndDrops(s: string)
    ensures TrimEnd(s) == s[..|TrimEnd(s)|]
    ensures IsBlank(s[|TrimEnd(s)|..])
    decreases |s|
  {
    if |s| > 0 && IsSpace(s[|s| - 1]) {
      TrimEndDrops(s[..|s| - 1]);
      var k := |TrimEnd(s)|;
      forall i | k <= i < |s| ensures IsSpace(s[i]) {
        if i < |s| - 1 { assert s[i] == s[..|s| - 1][k..][i - k]; }
      }
    }
  }

  /** `s.trim()`: drops whitespace at both ends. */
  function Trim(s: string): (r: string)
    ensures |r| <= |s|
    ensures r == [] || (!IsSpace(r[0]) && !IsSpace(r[|r| - 1]))
  {
    TrimEnd(TrimStart(s))
  }

  /** Trimming gives the empty string exactly for whitespace-only input. */
  lemma TrimEmpty(s: string)
    ensures Trim(s) == [] <==> IsBlank(s)
  {
    var a := TrimStart(s);
    TrimStartDrops(s);
    assert a != [] ==> a[0] == s[|s| - |a|];
    if !IsBlank(s) {
      var r := TrimEnd(a);
      TrimStartDrops(s);
      TrimEndDrops(a);
      if r == [] {
        assert a[|r|..] == a;
        assert s == s[..|s| - |a|] + a;
        BlankAppend(s[..|s| - |a|], a);
      }
    }
  }

  lemma TrimIdentity(s: string)
    requires s == [] || (!IsSpace(s[0]) && !IsSpace(s[|s| - 1]))
    ensures Trim(s) == s
  {
  }

  /** `trimStart` removes a whitespace prefix and stops at the first other character. */
  lemma {:induction false} TrimStartBlank(w: string, x: string)
    requires IsBlank(w) && (x == [] || !IsSpace(x[0]))
    ensures TrimStart(w + x) == x
    decreases |w|
  {
    if w == [] {
      assert w + x == x;
    } else {
      assert (w + x)[0] == w[0];
      assert (w + x)[1..] == w[1..] + x;
      TrimStartBlank(w[1..], x);
    }
  }

  /** `trimEnd` removes a whitespace suffix and stops at the last other character. */
  lemma {:induction false} TrimEndBlank(x: string, w: string)
    requires IsBlank(w) && (x == [] || !IsSpace(x[|x| - 1]))
    ensures TrimEnd(x + w) == x
    decreases |w|
  {
    if w == [] {
      assert x + w == x;
    } else {
      assert (x + w)[|x + w| - 1] == w[|w| - 1];
      assert (x + w)[..|x + w| - 1] == x + w[..|w| - 1];
      TrimEndBlank(x, w[..|w| - 1]);
    }
  }

  lemma TrimLeadingSpace(s: string)
    ensures Trim(" " + s) == Trim(s)
  {
    assert (" " + s)[1..] == s;
  }

  /** The non-whitespace characters of `s`, in order. */
  function NonSpace(s: string): string
    decreases |s|
  {
    if s == [] then [] else (if IsSpace(s[0]) then [] else [s[0]]) + NonSpace(s[1..])
  }

  lemma {:induction false} NonSpaceAppend(a: string, b: string)
    ensures NonSpace(a + b) == NonSpace(a) + NonSpace(b)
    decreases |a|
  {
    if a == [] {
      assert a + b == b;
    } else {
      assert (a + b)[0] == a[0] && (a + b)[1..] == a[1..] + b;
      NonSpaceAppend(a[1..], b);
    }
  }

  lemma {:induction false} NonSpaceBlank(s: string)
    ensures NonSpace(s) == [] <==> IsBlank(s)
    decreases |s|
  {
    if s != [] {
      NonSpaceBlank(s[1..]);
      if IsBlank(s[1..]) && IsSpace(s[0]) {
        assert forall i :: 0 < i < |s| ==> s[i] == s[1..][i - 1];
      }
    }
  }

  lemma NonSpaceTrimStart(s: string)
    ensures NonSpace(TrimStart(s)) == NonSpace(s)
  {
    var a := TrimStart(s);
    var p := s[..|s| - |a|];
    TrimStartDrops(s);
    assert s == p + a;
    NonSpaceAppend(p, a);
    NonSpaceBlank(p);
  }

  lemma NonSpaceTrimEnd(s: string)
    ensures NonSpace(TrimEnd(s)) == NonSpace(s)
  {
    var r := TrimEnd(s);
    var q := s[|r|..];
    TrimEndDrops(s);
    assert s == r + q;
    NonSpaceAppend(r, q);
    NonSpaceBlank(q);
  }

  lemma NonSpaceTrim(s: string)
    ensures NonSpace(Trim(s)) == NonSpace(s)
  {
    NonSpaceTrimStart(s);
    NonSpaceTrimEnd(TrimStart(s));
  }

  lemma NonSpaceLeadingSpace(s: string)
    ensures NonSpace(" " + s) == NonSpace(s)
  {
    assert (" " + s)[0] == ' ';
    assert (" " + s)[1..] == s;
  }

  /** Joining with a space adds no non-whitespace character. */
  lemma NonSpaceSpaceJoin(x: string, s: string)
    ensures NonSpace(x + " " + s) == NonSpace(x) + NonSpace(s)
  {
    assert x + " " + s == x + (" " + s);
    NonSpaceAppend(x, " " + s);
    NonSpaceLeadingSpace(s);
  }

  /** Trimming a middle piece adds or drops no non-whitespace character. */
  lemma NonSpaceTrimMid(a: string, c: string, s: string)
    ensures NonSpace(a + Trim(c) + s) == NonSpace(a + c) + NonSpace(s)
  {
    var t := Trim(c);
    NonSpaceAppend(a + t, s);
    NonSpaceAppend(a, t);
    NonSpaceAppend(a, c);
    NonSpaceTrim(c);
  }

  /** ASCII `toLowerCase`. */
  function LowerChar(c: char): char {
    if 'A' <= c <= 'Z' then (c as int + 32) as char else c
  }

  function Lower(s: string): (r: string)
    ensures |r| == |s| && forall i :: 0 <= i < |s| ==> r[i] == LowerChar(s[i])
  {
    seq(|s|, i requires 0 <= i < |s| => LowerChar(s[i]))
  }

  /** `xs.join(sep)`. */
  function Join(xs: seq<string>, sep: string): string
    decreases |xs|
  {
    if xs == [] then "" else if |xs| == 1 then xs[0] else xs[0] + sep + Join(xs[1..], sep)
  }

  /** Every element of `xs` occurs in `xs.join(sep)`. */
  lemma {:induction false} JoinContains(xs: seq<string>, sep: string, k: nat)
    requires k < |xs|
    ensures Contains(Join(xs, sep), xs[k])
    decreases |xs|
  {
    if |xs| > 1 {
      if k == 0 {
        PrefixContains(xs[0], sep + Join(xs[1..], sep));
        assert xs[0] + sep + Join(xs[1..], sep) == xs[0] + (sep + Join(xs[1..], sep));
      } else {
        JoinContains(xs[1..], sep, k - 1);
        SuffixContains(xs[0] + sep, Join(xs[1..], sep), xs[k]);
      }
    } else {
      PrefixContains(xs[0], "");
      assert xs[0] + "" == xs[0];
    }
  }

  /** A join starts with its first element. */
  lemma JoinFirst(xs: seq<string>, sep: string)
    requires xs != []
    ensures StartsWith(Join(xs, sep), xs[0])
  {
    if |xs| > 1 {
      assert Join(xs, sep) == xs[0] + (sep + Join(xs[1..], sep));
    }
  }

  lemma {:induction false} JoinSnoc(xs: seq<string>, x: string, sep: string)
    requires xs != []
    ensures Join(xs + [x], sep) == Join(xs, sep) + sep + x
    decreases |xs|
  {
    assert (xs + [x])[0] == xs[0] && (xs + [x])[1..] == xs[1..] + [x];
    if |xs| == 1 {
      assert xs[1..] + [x] == [x];
    } else {
      JoinSnoc(xs[1..], x, sep);
    }
  }

  lemma BlankAppend(a: string, b: string)
    ensures IsBlank(a + b) <==> IsBlank(a) && IsBlank(b)
  {
    if IsBlank(a + b) {
      forall i | 0 <= i < |a| ensures IsSpace(a[i]) { assert a[i] == (a + b)[i]; }
      forall i | 0 <= i < |b| ensures IsSpace(b[i]) { assert b[i] == (a + b)[|a| + i]; }
    }
    if IsBlank(a) && IsBlank(b) {
      forall i | 0 <= i < |a + b| ensures IsSpace((a + b)[i]) {
        if i < |a| { assert (a + b)[i] == a[i]; } else { assert (a + b)[i] == b[i - |a|]; }
      }
    }
  }

  /** A whitespace-only join has only whitespace-only parts. */
  lemma {:induction false} JoinBlank(xs: seq<string>, sep: string)
    requires IsBlank(Join(xs, sep))
    ensures forall j :: 0 <= j < |xs| ==> IsBlank(xs[j])
    decreases |xs|
  {
    if |xs| > 1 {
      BlankAppend(xs[0], sep + Join(xs[1..], sep));
      BlankAppend(sep, Join(xs[1..], sep));
      assert xs[0] + sep + Join(xs[1..], sep) == xs[0] + (sep + Join(xs[1..], sep));
      JoinBlank(xs[1..], sep);
      forall j | 0 <= j < |xs| ensures IsBlank(xs[j]) {
        if j > 0 { assert xs[j] == xs[1..][j - 1]; }
      }
    }
  }

  /** The concatenation of all strings in `xs`. */
  function Concat(xs: seq<string>): string
    decreases |xs|
  {
    if xs == [] then "" else xs[0] + Concat(xs[1..])
  }

  lemma {:induction false} ConcatAppend(a: seq<string>, b: seq<string>)
    ensures Concat(a + b) == Concat(a) + Concat(b)
    decreases |a|
  {
    if a == [] {
      assert a + b == b;
    } else {
      ConcatAppend(a[1..], b);
      assert (a + b)[0] == a[0] && (a + b)[1..] == a[1..] + b;
    }
  }

  lemma {:induction false} ConcatSnoc(xs: seq<string>, x: string)
    ensures Concat(xs + [x]) == Concat(xs) + x
    decreases |xs|
  {
    if xs != [] {
      assert (xs + [x])[1..] == xs[1..] + [x];
      ConcatSnoc(xs[1..], x);
    }
  }

  /** Every part of a concatenation is contained in it. */
  lemma {:induction false} ConcatContains(xs: seq<string>, k: nat)
    requires k < |xs|
    ensures Contains(Concat(xs), xs[k])
    decreases |xs|
  {
    if k == 0 {
      PrefixContains(xs[0], Concat(xs[1..]));
    } else {
      ConcatContains(xs[1..], k - 1);
      SuffixContains(xs[0], Concat(xs[1..]), xs[k]);
    }
  }

  /** The concatenation of the first `k` parts is a prefix of the whole. */
  lemma ConcatPrefix(xs: seq<string>, k: nat)
    requires k <= |xs|
    ensures StartsWith(Concat(xs), Concat(xs[..k]))
  {
    ConcatAppend(xs[..k], xs[k..]);
    assert xs[..k] + xs[k..] == xs;
  }

  lemma Concat3(a: string, b: string, c: string)
    ensures Concat([a, b, c]) == a + b + c
  {
    assert [a, b, c][1..] == [b, c];
    assert [b, c][1..] == [c];
    assert [c][1..] == [];
    assert Concat([c]) == c;
    assert Concat([b, c]) == b + c;
  }

  /** A concatenation starts with its first three parts. */
  lemma ConcatStart3(xs: seq<string>)
    requires |xs| >= 3
    ensures StartsWith(Concat(xs), xs[0] + xs[1] + xs[2])
  {
    ConcatPrefix(xs, 3);
    assert xs[..3] == [xs[0], xs[1], xs[2]];
    Concat3(xs[0], xs[1], xs[2]);
  }

  /** A concatenation ends with its last part. */
  lemma ConcatLast(xs: seq<string>)
    requires xs != []
    ensures EndsWith(Concat(xs), xs[|xs| - 1])
  {
    var n := |xs| - 1;
    ConcatSnoc(xs[..n], xs[n]);
    assert xs[..n] + [xs[n]] == xs;
    var c := Concat(xs);
    assert c == Concat(xs[..n]) + xs[n];
    assert c[|c| - |xs[n]|..] == xs[n];
  }

  /** `hay.includes(needle)`. */
  function Contains(hay: string, needle: string): bool
    decreases |hay|
  {
    needle <= hay || (|hay| > 0 && Contains(hay[1..], needle))
  }

  lemma PrefixContains(a: string, b: string)
    ensures Contains(a + b, a)
  {
  }

  lemma {:induction false} SuffixContains(a: string, b: string, needle: string)
    requires Contains(b, needle)
    ensures Contains(a + b, needle)
    decreases |a|
  {
    if a == [] {
      assert a + b == b;
    } else {
      assert (a + b)[1..] == a[1..] + b;
      SuffixContains(a[1..], b, needle);
    }
  }

  /** What a string contains, any extension of it contains too. */
  lemma {:induction false} ContainsExtend(a: string, b: string, needle: string)
    requires Contains(a, needle)
    ensures Contains(a + b, needle)
    decreases |a|
  {
    if needle <= a {
      assert (a + b)[..|needle|] == a[..|needle|];
    } else {
      assert (a + b)[1..] == a[1..] + b;
      ContainsExtend(a[1..], b, needle);
    }
  }

  /** Containment is transitive. */
  lemma {:induction false} ContainsTrans(x: string, y: string, z: string)
    requires Contains(x, y) && Contains(y, z)
    ensures Contains(x, z)
    decreases |x|
  {
    if y <= x {
      assert x == y + x[|y|..];
      ContainsExtend(y, x[|y|..], z);
    } else {
      ContainsTrans(x[1..], y, z);
    }
  }

  /** A string contains each of its middle parts. */
  lemma ContainsMiddle(a: string, b: string, c: string)
    ensures Contains(a + b + c, b)
  {
    PrefixContains(b, c);
    SuffixContains(a, b + c, b);
    assert a + b + c == a + (b + c);
  }

  /** A string that contains a needle contains each of the needle's characters. */
  lemma {:induction false} ContainsChar(hay: string, needle: string, i: nat)
    requires Contains(hay, needle) && i < |needle|
    ensures needle[i] in hay
    decreases |hay|
  {
    if needle <= hay {
      assert hay[i] == needle[i];
    } else {
      ContainsChar(hay[1..], needle, i);
    }
  }

  /** A character found neither in the separator nor in any element is not in the join. */
  lemma {:induction false} JoinLacks(xs: seq<string>, sep: string, ch: char)
    requires ch !in sep && forall k :: 0 <= k < |xs| ==> ch !in xs[k]
    ensures ch !in Join(xs, sep)
    decreases |xs|
  {
    if |xs| > 1 {
      JoinLacks(xs[1..], sep, ch);
    }
  }

  /** `s.startsWith(p)` */
  predicate StartsWith(s: string, p: string) {
    p <= s
  }

  /** `s.endsWith(p)` */
  predicate EndsWith(s: string, p: string) {
    |p| <= |s| && s[|s| - |p|..] == p
  }

  /** `s.replace(pat, rep)` with a string pattern: only the first occurrence is replaced. */
  function ReplaceFirst(s: string, pat: string, rep: string): (r: string)
    ensures !Contains(s, pat) ==> r == s
    decreases |s|
  {
    if pat <= s then rep + s[|pat|..]
    else if s == [] then s
    else [s[0]] + ReplaceFirst(s[1..], pat, rep)
  }

  function DigitChar(d: nat): char
    requires d < 10
  {
    ('0' as int + d) as char
  }

  /** The decimal rendering JavaScript gives a non-negative integer. */
  function NatToString(n: nat): (r: string)
    ensures |r| >= 1 && forall i :: 0 <= i < |r| ==> '0' <= r[i] <= '9'
  {
    if n < 10 then [DigitChar(n)] else NatToString(n / 10) + [DigitChar(n % 10)]
  }

  /** The decimal rendering JavaScript gives an integer (template literals, `String(n)`). */
  function IntToString(n: int): string {
    if n < 0 then "-" + NatToString(-n) else NatToString(n)
  }

  /** `s.replace(/\s+/g, ' ')`: every maximal whitespace run becomes one space. */
  function CollapseSpaces(s: string): (r: string)
    ensures forall i :: 0 <= i < |r| - 1 ==> !(IsSpace(r[i]) && IsSpace(r[i + 1]))
    ensures forall i :: 0 <= i < |r| && IsSpace(r[i]) ==> r[i] == ' '
    ensures NonSpace(r) == NonSpace(s)
    decreases |s|
  {
    if s == [] then []
    else if IsSpace(s[0]) then
      var t := TrimStart(s);
      TrimStartDrops(s);
      var rest := CollapseSpaces(t);
      assert s == s[..|s| - |t|] + t;
      NonSpaceAppend(s[..|s| - |t|], t);
      NonSpaceBlank(s[..|s| - |t|]);
      assert rest == [] || !IsSpace(rest[0]) by {
        if rest != [] && t != [] { assert rest[0] == t[0]; }
      }
      " " + rest
    else
      [s[0]] + CollapseSpaces(s[1..])
  }
}
