/** Character-level string helpers used by the dashboard: Python's str.lower(), str.upper() and
    str.strip(), restricted to the cases the model covers (ASCII case mapping; the full set of
    characters Python treats as whitespace). */
module Strings {

  predicate IsLowerAscii(c: char) { 'a' <= c <= 'z' }

  predicate IsUpperAscii(c: char) { 'A' <= c <= 'Z' }

  /** The characters for which Python's str.isspace() is true, and which str.strip() removes. */
  const Whitespace: set<char> :=
    {' ', '\t', '\n', '\U{0B}', '\U{0C}', '\r', '\U{1C}', '\U{1D}', '\U{1E}', '\U{1F}', '\U{85}', '\U{A0}',
     '\U{1680}', '\U{2000}', '\U{2001}', '\U{2002}', '\U{2003}', '\U{2004}', '\U{2005}', '\U{2006}',
     '\U{2007}', '\U{2008}', '\U{2009}', '\U{200A}', '\U{2028}', '\U{2029}', '\U{202F}', '\U{205F}',
     '\U{3000}'}

  predicate IsSpace(c: char) { c in Whitespace }

  function LowerChar(c: char): char
  {
    if IsUpperAscii(c) then (c as int + 32) as char else c
  }

  function UpperChar(c: char): char
  {
    if IsLowerAscii(c) then (c as int - 32) as char else c
  }

  /** str.lower(): the result has no upper-case letter and agrees with the input up to case. */
  function Lower(s: string): (r: string)
    ensures |r| == |s|
    ensures forall i :: 0 <= i < |r| ==> !IsUpperAscii(r[i]) && UpperChar(r[i]) == UpperChar(s[i])
  {
    seq(|s|, i requires 0 <= i < |s| => LowerChar(s[i]))
  }

  /** str.upper(): the result has no lower-case letter and agrees with the input up to case. */
  function Upper(s: string): (r: string)
    ensures |r| == |s|
    ensures forall i :: 0 <= i < |r| ==> !IsLowerAscii(r[i]) && LowerChar(r[i]) == LowerChar(s[i])
  {
    seq(|s|, i requires 0 <= i < |s| => UpperChar(s[i]))
  }

  predicate AllSpace(s: string)
  {
    forall i :: 0 <= i < |s| ==> IsSpace(s[i])
  }

  /** The number of whitespace characters at the start of s. */
  function LeadingSpaces(s: string): (n: nat)
    ensures n <= |s|
    ensures AllSpace(s[..n])
    ensures n == |s| || !IsSpace(s[n])
  {
    if |s| > 0 && IsSpace(s[0]) then 1 + LeadingSpaces(s[1..]) else 0
  }

  /** The number of whitespace characters at the end of s. */
  function TrailingSpaces(s: string): (n: nat)
    ensures n <= |s|
    ensures AllSpace(s[|s| - n..])
    ensures n == |s| || !IsSpace(s[|s| - 1 - n])
  {
    if |s| > 0 && IsSpace(s[|s| - 1]) then 1 + TrailingSpaces(s[..|s| - 1]) else 0
  }

  /** str.strip(): the slice of s left after removing whitespace at both ends. It neither
      starts nor ends with whitespace; StripSplits shows that everything removed was
      whitespace. */
  function Strip(s: string): (r: string)
    ensures |r| <= |s|
    ensures r == [] || (!IsSpace(r[0]) && !IsSpace(r[|r| - 1]))
  {
    var i := LeadingSpaces(s);
    s[i..|s| - TrailingSpaces(s[i..])]
  }

  /** A string that neither starts nor ends with whitespace is left alone by Strip. */
  lemma StripKeepsTrimmed(t: string)
    requires t == [] || (!IsSpace(t[0]) && !IsSpace(t[|t| - 1]))
    ensures Strip(t) == t
  {
    assert LeadingSpaces(t) == 0;
    assert t[0..] == t;
    assert TrailingSpaces(t) == 0;
  }

  /** The clean-up applied to the ticker typed in the sidebar before it is downloaded: the
      typed ticker without surrounding whitespace, letter by letter, in upper case. */
  function NormalizeSymbol(symbol: string): (r: string)
    ensures |r| == |Strip(symbol)| <= |symbol|
    ensures forall i :: 0 <= i < |r| ==> LowerChar(r[i]) == LowerChar(Strip(symbol)[i])
    ensures forall i :: 0 <= i < |r| ==> !IsLowerAscii(r[i])
    ensures r == [] || (!IsSpace(r[0]) && !IsSpace(r[|r| - 1]))
  {
    Upper(Strip(symbol))
  }

  /** Cleaning a ticker twice gives the same ticker as cleaning it once. */
  lemma NormalizeSymbolIdempotent(symbol: string)
    ensures NormalizeSymbol(NormalizeSymbol(symbol)) == NormalizeSymbol(symbol)
  {
    var t := NormalizeSymbol(symbol);
    StripKeepsTrimmed(t);
    assert Upper(t) == t;
  }

  lemma {:induction false} LeadingSpacesOfPadded(p: string, t: string)
    requires AllSpace(p)
    requires t == [] || !IsSpace(t[0])
    ensures LeadingSpaces(p + t) == |p|
  {
    if p != [] {
      assert (p + t)[1..] == p[1..] + t;
      LeadingSpacesOfPadded(p[1..], t);
    }
  }

  lemma {:induction false} TrailingSpacesOfPadded(t: string, q: string)
    requires AllSpace(q)
    requires t == [] || !IsSpace(t[|t| - 1])
    ensures TrailingSpaces(t + q) == |q|
  {
    if q != [] {
      assert (t + q)[..|t + q| - 1] == t + q[..|q| - 1];
      TrailingSpacesOfPadded(t, q[..|q| - 1]);
    }
  }

  /** Strip's result is determined by the decomposition of s into whitespace, a trimmed core
      and whitespace: whichever such split is given, Strip returns its core. */
  lemma StripOfPadded(p: string, r: string, q: string)
    requires AllSpace(p) && AllSpace(q)
    requires r == [] || (!IsSpace(r[0]) && !IsSpace(r[|r| - 1]))
    ensures Strip(p + r + q) == r
  {
    var s := p + r + q;
    if r == [] {
      assert s == s + [];
      LeadingSpacesOfPadded(s, []);
      assert s[|s|..] == [];
    } else {
      assert s == p + (r + q);
      LeadingSpacesOfPadded(p, r + q);
      assert s[|p|..] == r + q;
      TrailingSpacesOfPadded(r, q);
    }
  }

  lemma Regroup<T>(a: seq<T>, b: seq<T>, c: seq<T>, d: seq<T>, e: seq<T>)
    ensures a + (b + c + d) + e == (a + b) + c + (d + e)
  {
  }

  lemma AllSpaceConcat(a: string, b: string)
    requires AllSpace(a) && AllSpace(b)
    ensures AllSpace(a + b)
  {
    forall k | 0 <= k < |a + b| ensures IsSpace((a + b)[k]) {
      if k >= |a| { assert (a + b)[k] == b[k - |a|]; }
    }
  }

  /** Strip splits its input into leading whitespace, its result and trailing whitespace. */
  lemma StripSplits(s: string) returns (p: string, q: string)
    ensures s == p + Strip(s) + q
    ensures AllSpace(p) && AllSpace(q)
  {
    var i := LeadingSpaces(s);
    var t := s[i..];
    var j := TrailingSpaces(t);
    p, q := s[..i], t[|t| - j..];
    Slices(s, i, |s| - j);
    assert t[|t| - j..] == s[|s| - j..];
  }

  lemma Slices<T>(s: seq<T>, i: nat, j: nat)
    requires i <= j <= |s|
    ensures s == s[..i] + s[i..j] + s[j..]
  {
  }

  lemma StripIgnoresPadding(symbol: string, pre: string, post: string)
    requires AllSpace(pre) && AllSpace(post)
    ensures Strip(pre + symbol + post) == Strip(symbol)
  {
    var p, q := StripSplits(symbol);
    var r := Strip(symbol);
    AllSpaceConcat(pre, p);
    AllSpaceConcat(q, post);
    Regroup(pre, p, r, q, post);
    StripOfPadded(pre + p, r, q + post);
  }

  /** Surrounding whitespace does not change which ticker is downloaded. */
  lemma NormalizeSymbolIgnoresPadding(symbol: string, pre: string, post: string)
    requires AllSpace(pre) && AllSpace(post)
    ensures NormalizeSymbol(pre + symbol + post) == NormalizeSymbol(symbol)
  {
    StripIgnoresPadding(symbol, pre, post);
  }

  /** Lower-casing never makes or removes whitespace. */
  lemma LowerKeepsSpacing(s: string)
    ensures AllSpace(s) ==> AllSpace(Lower(s))
    ensures s == [] || (!IsSpace(s[0]) && !IsSpace(s[|s| - 1]))
      ==> Lower(s) == [] || (!IsSpace(Lower(s)[0]) && !IsSpace(Lower(s)[|s| - 1]))
  {
  }

  lemma LowerConcat3(a: string, b: string, c: string)
    ensures Lower(a + b + c) == Lower(a) + Lower(b) + Lower(c)
  {
  }

  lemma StripLower(symbol: string)
    ensures Strip(Lower(symbol)) == Lower(Strip(symbol))
  {
    var p, q := StripSplits(symbol);
    var r := Strip(symbol);
    LowerConcat3(p, r, q);
    LowerKeepsSpacing(p);
    LowerKeepsSpacing(r);
    LowerKeepsSpacing(q);
    StripOfPadded(Lower(p), Lower(r), Lower(q));
  }

  /** Letter case does not change which ticker is downloaded. */
  lemma NormalizeSymbolIgnoresCase(symbol: string)
    ensures NormalizeSymbol(Lower(symbol)) == NormalizeSymbol(symbol)
  {
    StripLower(symbol);
    var r := Strip(symbol);
    assert Upper(Lower(r)) == Upper(r);
  }
}
