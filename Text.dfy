/**
 * String facts the core relies on, each written to agree with the Python
 * built-in it stands for: `str.isspace`/`str.strip`, ASCII `str.lower`,
 * `str.rfind`, `str(int)`, `str.__lt__` and `sorted`.
 */
module Text {

  /** Python's `str.isspace` for one character (the Unicode White_Space
      characters with bidirectional class WS, B or S, or category Zs). */
  predicate IsSpace(c: char)
  {
    c == ' ' || c == '\t' || c == '\n' || c == '\r' ||
    c == '\U{000B}' || c == '\U{000C}' ||
    ('\U{001C}' <= c <= '\U{001F}') ||
    c == '\U{0085}' || c == '\U{00A0}' || c == '\U{1680}' ||
    ('\U{2000}' <= c <= '\U{200A}') ||
    c == '\U{2028}' || c == '\U{2029}' || c == '\U{202F}' ||
    c == '\U{205F}' || c == '\U{3000}'
  }

  /** Every character is whitespace (vacuously so for the empty string). */
  predicate IsBlank(s: string)
  {
    forall i :: 0 <= i < |s| ==> IsSpace(s[i])
  }

  /** Python's `s.strip()` with no argument: drop whitespace at both ends. */
  function Strip(s: string): string
  {
    RightStrip(LeftStrip(s))
  }

  function LeftStrip(s: string): string
  {
    if s != [] && IsSpace(s[0]) then LeftStrip(s[1..]) else s
  }

  function RightStrip(s: string): string
  {
    if s != [] && IsSpace(s[|s| - 1]) then RightStrip(s[..|s| - 1]) else s
  }

  /** Left-stripping empties exactly the all-whitespace strings, and otherwise
      leaves a string that starts with a non-whitespace character. */
  lemma {:induction false} LeftStripEmpty(s: string)
    ensures LeftStrip(s) == [] <==> IsBlank(s)
    ensures LeftStrip(s) != [] ==> !IsSpace(LeftStrip(s)[0])
  {
    if s != [] && IsSpace(s[0]) {
      LeftStripEmpty(s[1..]);
      assert IsBlank(s) <==> IsBlank(s[1..]) by {
        forall i | 0 <= i < |s[1..]| ensures s[1..][i] == s[i + 1] { }
      }
    }
  }

  /** Right-stripping never empties a string whose first character is not
      whitespace. */
  lemma {:induction false} RightStripOfNonSpaceHead(s: string)
    requires s != [] && !IsSpace(s[0])
    ensures RightStrip(s) != []
  {
    if |s| > 1 && IsSpace(s[|s| - 1]) {
      RightStripOfNonSpaceHead(s[..|s| - 1]);
    }
  }

  /** `s.strip()` is falsy (empty) exactly when `s` is blank: the test
      `if chunk.strip():` of the chunker keeps precisely the windows that
      hold a non-whitespace character. */
  lemma StripEmptyIffBlank(s: string)
    ensures Strip(s) == [] <==> IsBlank(s)
  {
    LeftStripEmpty(s);
    var l := LeftStrip(s);
    if l != [] {
      RightStripOfNonSpaceHead(l);
    }
  }

  /** ASCII case folding; every other character is left alone. */
  function LowerChar(c: char): (r: char)
  {
    if 'A' <= c <= 'Z' then (c as int - 'A' as int + 'a' as int) as char else c
  }

  function Lower(s: string): (r: string)
    ensures |r| == |s|
    ensures forall i :: 0 <= i < |s| ==> r[i] == LowerChar(s[i])
  {
    seq(|s|, i requires 0 <= i < |s| => LowerChar(s[i]))
  }

  /** Lowering keeps the characters that are not upper-case ASCII letters,
      in particular '.' and '/', and never produces one of them from a letter. */
  lemma LowerCharFixesPunctuation(c: char, d: char)
    requires !('A' <= d <= 'Z') && !('a' <= d <= 'z')
    ensures LowerChar(c) == d <==> c == d
  {
  }

  /** Python's `s.rfind(c)`: the last index holding `c`, or -1. */
  function LastIndexOf(s: string, c: char): (r: int)
    ensures -1 <= r < |s|
    ensures r >= 0 ==> s[r] == c
    ensures forall i :: r < i < |s| ==> s[i] != c
  {
    if s == [] then -1
    else if s[|s| - 1] == c then |s| - 1
    else LastIndexOf(s[..|s| - 1], c)
  }

  /** The contract of LastIndexOf determines it: any index with the same three
      properties is the one it returns. */
  lemma LastIndexOfUnique(s: string, c: char, k: int)
    requires -1 <= k < |s|
    requires k >= 0 ==> s[k] == c
    requires forall i :: k < i < |s| ==> s[i] != c
    ensures LastIndexOf(s, c) == k
  {
  }

  /** The decimal digit for 0..9. */
  function DigitChar(d: nat): (c: char)
    requires d < 10
    ensures '0' <= c <= '9'
  {
    ('0' as int + d) as char
  }

  /** Python's `str(n)` for a non-negative integer, as used by f-strings. */
  function NatToString(n: nat): (s: string)
    ensures |s| >= 1
    ensures forall i :: 0 <= i < |s| ==> '0' <= s[i] <= '9'
    ensures s[0] == '0' ==> n == 0
  {
    if n < 10 then [DigitChar(n)] else NatToString(n / 10) + [DigitChar(n % 10)]
  }

  /** Reading a string of decimal digits back as a number (Python's `int(s)`). */
  function ParseDecimal(s: string): nat
    requires forall i :: 0 <= i < |s| ==> '0' <= s[i] <= '9'
  {
    if s == [] then 0
    else ParseDecimal(s[..|s| - 1]) * 10 + (s[|s| - 1] as int - '0' as int)
  }

  /** `int(str(n)) == n`: the count lines of the reports carry the number exactly. */
  lemma {:induction false} ParseNatToString(n: nat)
    ensures ParseDecimal(NatToString(n)) == n
  {
    if n >= 10 {
      var s := NatToString(n);
      assert s[..|s| - 1] == NatToString(n / 10);
      ParseNatToString(n / 10);
    }
  }

  /** Python's `s.startswith(prefix)`. */
  predicate StartsWith(s: string, prefix: string)
  {
    |prefix| <= |s| && s[..|prefix|] == prefix
  }

  lemma StartsWithAppend(s: string, prefix: string, t: string)
    requires StartsWith(s, prefix)
    ensures StartsWith(s + t, prefix)
  {
    assert (s + t)[..|prefix|] == s[..|prefix|];
  }

  /** The middle piece of a concatenation sits right after the first. */
  lemma PieceAfter(a: string, b: string, c: string)
    ensures |a| + |b| <= |a + b + c|
    ensures (a + b + c)[|a|..|a| + |b|] == b
  {
    assert (a + b + c)[|a|..|a| + |b|] == (a + b)[|a|..];
  }

  /** `piece` occurs in `s` at offset `o`. */
  predicate PieceAt(s: string, o: nat, piece: string)
  {
    o + |piece| <= |s| && s[o..o + |piece|] == piece
  }

  /** A piece keeps its place when more text is appended. */
  lemma PieceStable(x: string, y: string, o: nat, piece: string)
    requires PieceAt(x, o, piece)
    ensures PieceAt(x + y, o, piece)
  {
    assert (x + y)[o..o + |piece|] == x[o..o + |piece|];
  }

  /** A piece keeps its place, moved along, when text is put in front. */
  lemma PieceShift(h: string, c: string, o: nat, piece: string)
    requires PieceAt(c, o, piece)
    ensures PieceAt(h + c, |h| + o, piece)
  {
    var hc := h + c;
    assert hc[|h|..] == c;
    assert hc[|h| + o..|h| + o + |piece|] == hc[|h|..][o..o + |piece|];
  }

  /** The number `n` of a line `p + n + q` written after `a`. */
  lemma NumberInLine(a: string, p: string, n: string, q: string)
    ensures PieceAt(a + (p + n + q), |a| + |p|, n)
  {
    assert a + (p + n + q) == (a + p) + n + q;
    PieceAfter(a + p, n, q);
  }

  /** One more piece written after a header and the pieces before it. */
  lemma ConcatExtend(h: string, ss: seq<string>, k: nat)
    requires k < |ss|
    ensures h + Concat(ss[..k]) + ss[k] == h + Concat(ss[..k + 1])
  {
    assert ss[..k + 1][..k] == ss[..k];
  }

  /** Behind a header, piece k sits after the pieces before it. */
  lemma ConcatPieceAfter(h: string, ss: seq<string>, k: nat)
    requires k < |ss|
    ensures PieceAt(h + Concat(ss), |h| + TotalLength(ss[..k]), ss[k])
  {
    ConcatPieceAt(ss, k);
    PieceShift(h, Concat(ss), TotalLength(ss[..k]), ss[k]);
  }

  /** Appending six pieces one by one appends their concatenation. */
  lemma AppendSix(s: string, p0: string, p1: string, p2: string, p3: string, p4: string, p5: string)
    ensures s + p0 + p1 + p2 + p3 + p4 + p5 == s + (p0 + p1 + p2 + p3 + p4 + p5)
  {
    assert s + p0 + p1 == s + (p0 + p1);
    assert s + (p0 + p1) + p2 == s + (p0 + p1 + p2);
    assert s + (p0 + p1 + p2) + p3 == s + (p0 + p1 + p2 + p3);
    assert s + (p0 + p1 + p2 + p3) + p4 == s + (p0 + p1 + p2 + p3 + p4);
  }

  /** The concatenation of a list of strings, built from the end, the way a
      loop that does `markdown += piece` builds it. */
  function Concat(ss: seq<string>): (r: string)
  {
    if ss == [] then [] else Concat(ss[..|ss| - 1]) + ss[|ss| - 1]
  }

  /** `|Concat(ss)|` is the sum of the lengths: no piece is lost or added. */
  function TotalLength(ss: seq<string>): nat
  {
    if ss == [] then 0 else TotalLength(ss[..|ss| - 1]) + |ss[|ss| - 1]|
  }

  lemma {:induction false} ConcatAppend(a: seq<string>, b: seq<string>)
    ensures Concat(a + b) == Concat(a) + Concat(b)
  {
    if b != [] {
      assert (a + b)[..|a + b| - 1] == a + b[..|b| - 1];
      ConcatAppend(a, b[..|b| - 1]);
    } else {
      assert a + b == a;
    }
  }

  /** Each piece sits in the concatenation at the offset given by the lengths
      of the pieces before it. */
  lemma {:induction false} ConcatPieceAt(ss: seq<string>, k: nat)
    requires k < |ss|
    ensures |Concat(ss)| == TotalLength(ss)
    ensures TotalLength(ss[..k]) + |ss[k]| <= |Concat(ss)|
    ensures Concat(ss)[TotalLength(ss[..k])..TotalLength(ss[..k]) + |ss[k]|] == ss[k]
  {
    ConcatLength(ss);
    assert ss == ss[..k] + [ss[k]] + ss[k + 1..];
    ConcatAppend(ss[..k] + [ss[k]], ss[k + 1..]);
    ConcatAppend(ss[..k], [ss[k]]);
    assert Concat([ss[k]]) == ss[k] by {
      assert [ss[k]][..0] == [];
    }
    ConcatLength(ss[..k]);
  }

  lemma {:induction false} ConcatLength(ss: seq<string>)
    ensures |Concat(ss)| == TotalLength(ss)
  {
    if ss != [] { ConcatLength(ss[..|ss| - 1]); }
  }

  /** Python's `a < b` on `str`: lexicographic by code point, a proper prefix
      before its extensions. */
  predicate LexLess(a: string, b: string)
    decreases |a|
  {
    if |a| == 0 then |b| > 0
    else |b| > 0 && (a[0] < b[0] || (a[0] == b[0] && LexLess(a[1..], b[1..])))
  }

  lemma {:induction false} LexLessIrreflexive(a: string)
    ensures !LexLess(a, a)
  {
    if |a| > 0 { LexLessIrreflexive(a[1..]); }
  }

  lemma {:induction false} LexLessTransitive(a: string, b: string, c: string)
    requires LexLess(a, b) && LexLess(b, c)
    ensures LexLess(a, c)
    decreases |a|
  {
    if |a| > 0 && |b| > 0 && |c| > 0 && a[0] == b[0] && b[0] == c[0] {
      LexLessTransitive(a[1..], b[1..], c[1..]);
    }
  }

  lemma {:induction false} LexLessTotal(a: string, b: string)
    requires a != b
    ensures LexLess(a, b) || LexLess(b, a)
    decreases |a|
  {
    if |a| > 0 && |b| > 0 && a[0] == b[0] {
      assert a == [a[0]] + a[1..] && b == [b[0]] + b[1..];
      LexLessTotal(a[1..], b[1..]);
    }
  }

  /** Strictly increasing, hence also free of duplicates. */
  predicate StrictlySorted(s: seq<string>)
  {
    forall i, j :: 0 <= i < j < |s| ==> LexLess(s[i], s[j])
  }

  /** Insert `x` into a strictly sorted list unless it is already there. */
  function InsertSorted(s: seq<string>, x: string): (r: seq<string>)
    requires StrictlySorted(s)
    ensures StrictlySorted(r)
    ensures forall y :: y in r <==> y in s || y == x
    ensures |r| == if x in s then |s| else |s| + 1
  {
    if s == [] then [x]
    else if x == s[0] then s
    else if LexLess(x, s[0]) then
      assert forall j :: 0 <= j < |s| ==> LexLess(x, s[j]) by {
        forall j | 0 < j < |s| ensures LexLess(x, s[j]) {
          LexLessTransitive(x, s[0], s[j]);
        }
      }
      assert x !in s by { LexLessIrreflexive(x); }
      [x] + s
    else
      LexLessTotal(x, s[0]);
      var t := InsertSorted(s[1..], x);
      assert x in s <==> x in s[1..];
      assert forall j :: 0 <= j < |t| ==> LexLess(s[0], t[j]) by {
        forall j | 0 <= j < |t| ensures LexLess(s[0], t[j]) {
          assert t[j] in t;
          if t[j] != x {
            assert t[j] in s[1..];
            var k :| 0 <= k < |s[1..]| && s[1..][k] == t[j];
            assert s[k + 1] == t[j];
          }
        }
      }
      assert forall y :: y in [s[0]] + t <==> y in s || y == x by {
        assert s == [s[0]] + s[1..];
      }
      [s[0]] + t
  }

  /** Python's `sorted(list(names))` for a set of strings: strictly increasing,
      and holding exactly the members of the set. */
  method SortedList(names: set<string>) returns (r: seq<string>)
    ensures StrictlySorted(r)
    ensures forall y :: y in r <==> y in names
    ensures |r| == |names|
  {
    r := [];
    var rest := names;
    while rest != {}
      invariant rest <= names
      invariant StrictlySorted(r)
      invariant forall y :: y in r <==> y in names && y !in rest
      invariant |r| == |names - rest|
      decreases rest
    {
      var x :| x in rest;
      assert names - (rest - {x}) == (names - rest) + {x};
      r := InsertSorted(r, x);
      rest := rest - {x};
    }
    assert names - rest == names;
  }
}
