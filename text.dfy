/** The few string operations of Python (`in`, `str.split()`, `re.findall` over one
    character class, slicing, `int()`, `str()` and `os.path.split`) that the parsers
    use, stated over `string = seq<char>`. */
module Text {
  import opened Outcomes

  /** `needle in hay` */
  predicate Contains(hay: string, needle: string)
    decreases |hay|
  {
    needle <= hay || (hay != [] && Contains(hay[1..], needle))
  }

  /** `needle` occurs in `hay` at offset `i`. */
  predicate OccursAt(hay: string, needle: string, i: int)
  {
    0 <= i <= |hay| - |needle| && hay[i..i + |needle|] == needle
  }

  /** A non-empty needle is not in the empty string. */
  lemma ContainsEmpty(needle: string)
    requires needle != []
    ensures !Contains("", needle)
  {
  }

  /** `needle in hay` holds exactly when `needle` occurs at some offset of `hay`. */
  lemma {:induction false} ContainsIffOccurs(hay: string, needle: string)
    ensures Contains(hay, needle) <==> exists i :: OccursAt(hay, needle, i)
    decreases |hay|
  {
    if needle <= hay {
      assert OccursAt(hay, needle, 0);
    } else if hay != [] {
      ContainsIffOccurs(hay[1..], needle);
      if exists i :: OccursAt(hay, needle, i) {
        var i :| OccursAt(hay, needle, i);
        assert i != 0;
        assert OccursAt(hay[1..], needle, i - 1);
      }
      if Contains(hay[1..], needle) {
        var i :| OccursAt(hay[1..], needle, i);
        assert OccursAt(hay, needle, i + 1);
      }
    }
  }

  /** The characters `str.split()` separates on: those for which `str.isspace()` holds. */
  predicate IsSpace(c: char) {
    c == ' ' || c == '\t' || c == '\n' || c == '\r' || c == '\U{000B}' || c == '\U{000C}'
    || ('\U{001C}' <= c <= '\U{001F}')
    || c == '\U{0085}' || c == '\U{00A0}' || c == '\U{1680}'
    || ('\U{2000}' <= c <= '\U{200A}')
    || c == '\U{2028}' || c == '\U{2029}' || c == '\U{202F}' || c == '\U{205F}' || c == '\U{3000}'
  }

  predicate IsDigit(c: char) { '0' <= c <= '9' }

  predicate IsLetter(c: char) { ('A' <= c <= 'Z') || ('a' <= c <= 'z') }

  /** Length of the leading run of characters that are not white space. */
  function TokenLength(s: string): (n: nat)
    ensures n <= |s|
  {
    if s == [] || IsSpace(s[0]) then 0 else 1 + TokenLength(s[1..])
  }

  lemma {:induction false} TokenLengthIsRun(s: string)
    ensures var n := TokenLength(s);
      (forall k :: 0 <= k < n ==> !IsSpace(s[k])) && (n < |s| ==> IsSpace(s[n]))
  {
    if s != [] && !IsSpace(s[0]) {
      TokenLengthIsRun(s[1..]);
    }
  }

  /** `s.split()`: the maximal runs of non-space characters, left to right. */
  function Split(s: string): seq<string>
    decreases |s|
  {
    if s == [] then []
    else if IsSpace(s[0]) then Split(s[1..])
    else
      var n := TokenLength(s);
      [s[..n]] + Split(s[n..])
  }

  /** The characters of `s` that are not white space, in order. */
  function Unspaced(s: string): string
  {
    if s == [] then [] else (if IsSpace(s[0]) then [] else [s[0]]) + Unspaced(s[1..])
  }

  function Flatten(ss: seq<string>): string
  {
    if ss == [] then [] else ss[0] + Flatten(ss[1..])
  }

  lemma {:induction false} UnspacedAppend(a: string, b: string)
    ensures Unspaced(a + b) == Unspaced(a) + Unspaced(b)
  {
    if a != [] {
      assert (a + b)[1..] == a[1..] + b;
      UnspacedAppend(a[1..], b);
    } else {
      assert a + b == b;
    }
  }

  lemma {:induction false} UnspacedToken(s: string)
    requires forall k :: 0 <= k < |s| ==> !IsSpace(s[k])
    ensures Unspaced(s) == s
  {
    if s != [] {
      UnspacedToken(s[1..]);
    }
  }

  /** The tokens of `s.split()` are non-empty, hold no white space, and together
      are exactly the characters of `s` that are not white space. */
  lemma {:induction false} SplitTokens(s: string)
    ensures forall k :: 0 <= k < |Split(s)| ==> Split(s)[k] != [] && forall c :: c in Split(s)[k] ==> !IsSpace(c)
    ensures Flatten(Split(s)) == Unspaced(s)
    decreases |s|
  {
    if s == [] {
    } else if IsSpace(s[0]) {
      SplitTokens(s[1..]);
    } else {
      var n := TokenLength(s);
      TokenLengthIsRun(s);
      SplitTokens(s[n..]);
      assert s == s[..n] + s[n..];
      UnspacedAppend(s[..n], s[n..]);
      UnspacedToken(s[..n]);
      var r := Split(s);
      assert r == [s[..n]] + Split(s[n..]);
      assert r[1..] == Split(s[n..]);
    }
  }

  /** `''.join(re.findall(r'[A-Za-z]', s))` */
  function Letters(s: string): string
  {
    if s == [] then [] else (if IsLetter(s[0]) then [s[0]] else []) + Letters(s[1..])
  }

  lemma {:induction false} LettersOnly(s: string)
    ensures forall c :: c in Letters(s) ==> IsLetter(c)
  {
    if s != [] {
      LettersOnly(s[1..]);
    }
  }

  /** Python's normalisation of one slice bound against a length `n`. */
  function Bound(i: int, n: nat): (b: nat)
    ensures b <= n
    ensures 0 <= i <= n ==> b == i
  {
    if i < 0 then (if i + n < 0 then 0 else i + n) else if i > n then n else i
  }

  /** `s[start:stop]` with Python's negative and out-of-range bounds. */
  function Slice<T>(s: seq<T>, start: int, stop: int): (r: seq<T>)
    ensures 0 <= start <= stop <= |s| ==> r == s[start..stop]
    ensures |r| <= |s|
  {
    var lo, hi := Bound(start, |s|), Bound(stop, |s|);
    if lo <= hi then s[lo..hi] else []
  }

  function DigitValue(c: char): nat
    requires IsDigit(c)
  {
    (c as int) - ('0' as int)
  }

  predicate AllDigits(s: string) { forall k :: 0 <= k < |s| ==> IsDigit(s[k]) }

  /** The value of a string of decimal digits. */
  function DigitsValue(s: string): nat
    requires AllDigits(s)
  {
    if s == [] then 0 else 10 * DigitsValue(s[..|s| - 1]) + DigitValue(s[|s| - 1])
  }

  /** `int(s)` for a token: an optional sign followed by at least one ASCII digit
      (underscores and non-ASCII digits are not accepted here). */
  function ParseInt(s: string): Option<int>
  {
    if s != [] && (s[0] == '-' || s[0] == '+') then
      var d := s[1..];
      if d != [] && AllDigits(d) then Some(if s[0] == '-' then -(DigitsValue(d) as int) else DigitsValue(d))
      else None
    else if s != [] && AllDigits(s) then Some(DigitsValue(s))
    else None
  }

  function DigitChar(d: nat): (c: char)
    requires d < 10
    ensures IsDigit(c) && DigitValue(c) == d
  {
    ('0' as int + d) as char
  }

  /** `str(n)` for n >= 0: decimal digits without leading zeros. */
  function NatToString(n: nat): (s: string)
    ensures s != [] && AllDigits(s)
  {
    if n < 10 then [DigitChar(n)] else NatToString(n / 10) + [DigitChar(n % 10)]
  }

  /** `str(i)` */
  function IntToString(i: int): (s: string)
    ensures s != []
  {
    if i < 0 then "-" + NatToString(-i) else NatToString(i)
  }

  lemma {:induction false} NatToStringValue(n: nat)
    ensures DigitsValue(NatToString(n)) == n
  {
    if n >= 10 {
      var s := NatToString(n);
      assert s[..|s| - 1] == NatToString(n / 10);
      NatToStringValue(n / 10);
    }
  }

  /** `int(str(i)) == i`. */
  lemma ParseIntRoundTrip(i: int)
    ensures ParseInt(IntToString(i)) == Some(i)
  {
    if i < 0 {
      var s := IntToString(i);
      assert s[1..] == NatToString(-i);
      NatToStringValue(-i);
    } else {
      NatToStringValue(i);
    }
  }

  /** Distinct integers print differently. */
  lemma IntToStringInjective(a: int, b: int)
    requires IntToString(a) == IntToString(b)
    ensures a == b
  {
    ParseIntRoundTrip(a);
    ParseIntRoundTrip(b);
  }

  /** `os.path.split(p)[1]`: the part of `p` after its last '/'. */
  function Leaf(p: string): string
  {
    if p == [] || p[|p| - 1] == '/' then [] else Leaf(p[..|p| - 1]) + [p[|p| - 1]]
  }

  /** The leaf is a suffix of the path without '/', and it is the whole path or
      follows a '/'. */
  lemma {:induction false} LeafShape(p: string)
    ensures '/' !in Leaf(p)
    ensures |Leaf(p)| <= |p| && Leaf(p) == p[|p| - |Leaf(p)|..]
    ensures |Leaf(p)| < |p| ==> p[|p| - |Leaf(p)| - 1] == '/'
  {
    if p != [] && p[|p| - 1] != '/' {
      var q := p[..|p| - 1];
      LeafShape(q);
      var k := |Leaf(q)|;
      assert Leaf(p) == Leaf(q) + [p[|p| - 1]];
      assert |p| - |Leaf(p)| == |p| - 1 - k;
      SuffixOfInit(p, k);
      if k < |q| {
        assert q[|q| - k - 1] == p[|p| - |Leaf(p)| - 1];
      }
    }
  }

  /** A suffix of all but the last element, with the last element appended back. */
  lemma SuffixOfInit<T>(p: seq<T>, k: nat)
    requires k < |p|
    ensures p[..|p| - 1][|p| - 1 - k..] + [p[|p| - 1]] == p[|p| - 1 - k..]
  {
    var a, b := p[..|p| - 1][|p| - 1 - k..] + [p[|p| - 1]], p[|p| - 1 - k..];
    forall i | 0 <= i < |a|
      ensures a[i] == b[i]
    {
      if i < k {
        assert a[i] == p[|p| - 1 - k + i];
      }
    }
  }

  /** `s.replace(pat, rep)`: every occurrence of `pat`, scanned left to right without
      overlap, becomes `rep`. */
  function ReplaceAll(s: string, pat: string, rep: string): string
    requires pat != []
    decreases |s|
  {
    if pat <= s then rep + ReplaceAll(s[|pat|..], pat, rep)
    else if s == [] then []
    else [s[0]] + ReplaceAll(s[1..], pat, rep)
  }

  /** Replacing a character that does not occur changes nothing. */
  lemma {:induction false} ReplaceCharAbsent(s: string, c: char, rep: string)
    requires c !in s
    ensures ReplaceAll(s, [c], rep) == s
  {
    if s != [] {
      assert s[0] != c;
      ReplaceCharAbsent(s[1..], c, rep);
    }
  }

  /** Replacing a character acts on each part of a concatenation separately. */
  lemma {:induction false} ReplaceCharAppend(a: string, b: string, c: char, rep: string)
    ensures ReplaceAll(a + b, [c], rep) == ReplaceAll(a, [c], rep) + ReplaceAll(b, [c], rep)
  {
    if a == [] {
      assert a + b == b;
    } else {
      assert (a + b)[1..] == a[1..] + b;
      assert ([c] <= a + b) == ([c] <= a);
      ReplaceCharAppend(a[1..], b, c, rep);
    }
  }

  /** Replacing a character in a string that is just that character. */
  lemma ReplaceCharSelf(c: char, rep: string)
    ensures ReplaceAll([c], [c], rep) == rep
  {
    assert [c][1..] == [];
  }

  lemma {:induction false} ReplaceAbsent(s: string, pat: string, rep: string)
    requires pat != [] && !Contains(s, pat)
    ensures ReplaceAll(s, pat, rep) == s
  {
    if s != [] {
      ReplaceAbsent(s[1..], pat, rep);
    }
  }

  lemma ReplaceKeeps(s: string, pat: string, rep: string)
    requires pat != [] && s != [] && !(pat <= s)
    ensures ReplaceAll(s, pat, rep) == [s[0]] + ReplaceAll(s[1..], pat, rep)
  {
  }

  lemma ReplaceHere(s: string, pat: string, rep: string)
    requires pat != [] && pat <= s
    ensures ReplaceAll(s, pat, rep) == rep + ReplaceAll(s[|pat|..], pat, rep)
  {
  }

  lemma ReplaceLast(x: string, c: char, rep: string)
    requires c !in x
    ensures ReplaceAll(x + [c], [c], rep) == x + rep
  {
    ReplaceCharAppend(x, [c], c, rep);
    ReplaceCharSelf(c, rep);
    ReplaceCharAbsent(x, c, rep);
  }

  lemma ReplaceOnce(x: string, y: string, c: char, rep: string)
    requires c !in x && c !in y
    ensures ReplaceAll(x + [c] + y, [c], rep) == x + rep + y
  {
    ReplaceCharAppend(x + [c], y, c, rep);
    ReplaceCharAppend(x, [c], c, rep);
    ReplaceCharSelf(c, rep);
    ReplaceCharAbsent(x, c, rep);
    ReplaceCharAbsent(y, c, rep);
  }

  lemma Assoc(x: string, y: string, z: string)
    ensures x + (y + z) == x + y + z
  {
  }

  /** Regrouping a five-part concatenation after its first part. */
  lemma Regroup(p: string, q: string, r: string, s: string, t: string)
    ensures p + q + r + s + t == [] + p + (q + r + s + t)
  {
  }

  lemma ConsAppend<T>(a: seq<T>, b: seq<T>)
    requires a != []
    ensures (a + b)[0] == a[0] && (a + b)[1..] == a[1..] + b
  {
  }

  /** Equal sequences with the same prefix agree after it. */
  lemma CancelPrefix<T>(p: seq<T>, x: seq<T>, y: seq<T>)
    requires p + x == p + y
    ensures x == y
  {
    assert x == (p + x)[|p|..];
    assert y == (p + y)[|p|..];
  }
}
