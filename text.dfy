/**
 * The Python `str` operations the services rely on, over `string`, a
 * sequence of Unicode code points: `strip`, `split`, `replace`, `lower`,
 * `startswith`/`endswith`, filtering by a character class, `str(n)` for a
 * natural number and the ordering `sorted` uses.
 */
module Text {

  // ---------------------------------------------------------------------
  // Whitespace and strip()
  // ---------------------------------------------------------------------

  /** `c.isspace()`: the characters `str.strip()` with no argument removes. */
  predicate IsSpace(c: char) {
    var n := c as int;
    (0x09 <= n <= 0x0D) || (0x1C <= n <= 0x20) || n == 0x85 || n == 0xA0 ||
    n == 0x1680 || (0x2000 <= n <= 0x200A) || n == 0x2028 || n == 0x2029 ||
    n == 0x202F || n == 0x205F || n == 0x3000
  }

  /** `s.lstrip()`: `s` without its leading whitespace (see LStripSpec). */
  function LStrip(s: string): string {
    if s != [] && IsSpace(s[0]) then LStrip(s[1..]) else s
  }

  /** `s.rstrip()`: `s` without its trailing whitespace (see RStripSpec). */
  function RStrip(s: string): string {
    if s != [] && IsSpace(s[|s| - 1]) then RStrip(s[..|s| - 1]) else s
  }

  /** `s.strip()`. */
  function Strip(s: string): string {
    RStrip(LStrip(s))
  }

  /** `not s.strip()`: the test every service uses for an empty message. */
  predicate IsBlank(s: string) {
    Strip(s) == []
  }

  /** lstrip removes the longest all-whitespace prefix and nothing else. */
  lemma {:induction false} LStripSpec(s: string)
    ensures var r := LStrip(s);
      && |r| <= |s| && r == s[|s| - |r|..]
      && (r != [] ==> !IsSpace(r[0]))
      && forall i :: 0 <= i < |s| - |r| ==> IsSpace(s[i])
  {
    if s != [] && IsSpace(s[0]) {
      var t := s[1..];
      var r := LStrip(t);
      LStripSpec(t);
      assert t[|t| - |r|..] == s[|s| - |r|..];
      forall i | 0 <= i < |s| - |r|
        ensures IsSpace(s[i])
      {
        if i > 0 {
          assert s[i] == t[i - 1];
        }
      }
    }
  }

  /** rstrip removes the longest all-whitespace suffix and nothing else. */
  lemma {:induction false} RStripSpec(s: string)
    ensures var r := RStrip(s);
      && |r| <= |s| && r == s[..|r|]
      && (r != [] ==> !IsSpace(r[|r| - 1]))
      && forall i :: |r| <= i < |s| ==> IsSpace(s[i])
  {
    if s != [] && IsSpace(s[|s| - 1]) {
      var t := s[..|s| - 1];
      var r := RStrip(t);
      RStripSpec(t);
      assert t[..|r|] == s[..|r|];
      forall i | |r| <= i < |s|
        ensures IsSpace(s[i])
      {
        if i < |s| - 1 {
          assert s[i] == t[i];
        }
      }
    }
  }

  /** strip() only removes characters. */
  lemma StripMembers(s: string)
    ensures forall c :: c in Strip(s) ==> c in s
  {
    var l := LStrip(s);
    LStripSpec(s);
    RStripSpec(l);
    assert forall c :: c in Strip(s) ==> c in l;
  }

  /** A string with no whitespace at either end is its own strip(). */
  lemma StripUnchanged(s: string)
    requires s != [] ==> !IsSpace(s[0]) && !IsSpace(s[|s| - 1])
    ensures Strip(s) == s
  {
    assert LStrip(s) == s;
  }

  /** A string is blank exactly when every one of its characters is whitespace. */
  lemma BlankIffAllSpace(s: string)
    ensures IsBlank(s) <==> forall i :: 0 <= i < |s| ==> IsSpace(s[i])
  {
    var l := LStrip(s);
    LStripSpec(s);
    RStripSpec(l);
    if IsBlank(s) {
      assert l == [];
    }
    assert l != [] ==> l[0] == s[|s| - |l|];
  }

  // ---------------------------------------------------------------------
  // Filtering by a character class
  // ---------------------------------------------------------------------

  /** The elements of `s` that satisfy `f`, in their order in `s`. */
  function Filter<T>(f: T -> bool, s: seq<T>): (r: seq<T>)
    ensures |r| <= |s|
  {
    if s == [] then [] else (if f(s[0]) then [s[0]] else []) + Filter(f, s[1..])
  }

  /** Every element of the result is an element of `s` that passes. */
  lemma {:induction false} FilterMembers<T>(f: T -> bool, s: seq<T>)
    ensures forall i :: 0 <= i < |Filter(f, s)| ==> Filter(f, s)[i] in s && f(Filter(f, s)[i])
  {
    if s != [] {
      FilterMembers(f, s[1..]);
      var rest := Filter(f, s[1..]);
      assert Filter(f, s) == (if f(s[0]) then [s[0]] else []) + rest;
      forall i | 0 <= i < |rest|
        ensures rest[i] in s
      {
        assert rest[i] in s[1..];
      }
    }
  }

  /** `a` can be obtained from `b` by deleting elements. */
  predicate IsSubsequence<T(==)>(a: seq<T>, b: seq<T>)
    decreases |b|
  {
    a == [] || (b != [] && if a[0] == b[0] then IsSubsequence(a[1..], b[1..]) else IsSubsequence(a, b[1..]))
  }

  lemma {:induction false} FilterAppend<T>(f: T -> bool, a: seq<T>, b: seq<T>)
    ensures Filter(f, a + b) == Filter(f, a) + Filter(f, b)
  {
    if a != [] {
      assert (a + b)[1..] == a[1..] + b;
      FilterAppend(f, a[1..], b);
    } else {
      assert a + b == b;
    }
  }

  /** Filtering keeps a sequence whose every element already passes. */
  lemma {:induction false} FilterKeepsPassing<T>(f: T -> bool, s: seq<T>)
    requires forall i :: 0 <= i < |s| ==> f(s[i])
    ensures Filter(f, s) == s
  {
    if s != [] {
      FilterKeepsPassing(f, s[1..]);
    }
  }

  /** Filtering twice is filtering once. */
  lemma FilterIdempotent<T>(f: T -> bool, s: seq<T>)
    ensures Filter(f, Filter(f, s)) == Filter(f, s)
  {
    FilterMembers(f, s);
    FilterKeepsPassing(f, Filter(f, s));
  }

  /** The result is what is left of `s` after deleting elements. */
  lemma {:induction false} FilterIsSubsequence<T>(f: T -> bool, s: seq<T>)
    ensures IsSubsequence(Filter(f, s), s)
  {
    if s != [] {
      FilterIsSubsequence(f, s[1..]);
      var rest := Filter(f, s[1..]);
      if f(s[0]) {
        assert Filter(f, s) == [s[0]] + rest;
        assert ([s[0]] + rest)[1..] == rest;
      } else {
        assert Filter(f, s) == rest;
        if rest != [] {
          FilterMembers(f, s[1..]);
          assert f(rest[0]);
        }
      }
    }
  }

  /** Every passing element keeps all its occurrences, every failing one loses them all. */
  lemma {:induction false} FilterCounts<T>(f: T -> bool, s: seq<T>, x: T)
    ensures multiset(Filter(f, s))[x] == if f(x) then multiset(s)[x] else 0
  {
    if s != [] {
      FilterCounts(f, s[1..], x);
      assert s == [s[0]] + s[1..];
    }
  }

  /** `c * n` for a one-character string `c`. */
  function Repeat(c: char, n: nat): (r: string)
    ensures |r| == n && forall i :: 0 <= i < n ==> r[i] == c
  {
    if n == 0 then "" else [c] + Repeat(c, n - 1)
  }

  /** A character with a code point below 128. */
  predicate IsAscii(c: char) {
    c as int < 128
  }

  /** `s.encode("ascii", "ignore").decode("ascii")`: `s` without its non-ASCII characters. */
  function AsciiOnly(s: string): string {
    Filter(IsAscii, s)
  }

  predicate AllAscii(s: string) {
    forall i :: 0 <= i < |s| ==> IsAscii(s[i])
  }

  /** Text made of ASCII characters only. */
  type AsciiText = s: string | AllAscii(s) witness ""

  /** What the ASCII filter leaves is ASCII, in order, and it leaves ASCII text as it is. */
  lemma AsciiOnlySpec(s: string)
    ensures AllAscii(AsciiOnly(s))
    ensures IsSubsequence(AsciiOnly(s), s)
    ensures AllAscii(s) ==> AsciiOnly(s) == s
  {
    FilterMembers(IsAscii, s);
    FilterIsSubsequence(IsAscii, s);
    if AllAscii(s) {
      FilterKeepsPassing(IsAscii, s);
    }
  }

  // ---------------------------------------------------------------------
  // replace()
  // ---------------------------------------------------------------------

  /**
   * `s.replace(pat, sub)`: scanning left to right, each occurrence of `pat`
   * that does not overlap an earlier replaced one is replaced by `sub`.
   */
  function Replace(s: string, pat: string, sub: string): (r: string)
    requires pat != []
    ensures forall c :: c in r ==> c in s || c in sub
    ensures |pat| == 1 && pat[0] !in sub ==> pat[0] !in r
    decreases |s|
  {
    if |s| < |pat| then s
    else if s[..|pat|] == pat then
      assert forall c :: c in s[|pat|..] ==> c in s;
      sub + Replace(s[|pat|..], pat, sub)
    else [s[0]] + Replace(s[1..], pat, sub)
  }

  /** A pattern whose first character does not occur is never replaced. */
  lemma {:induction false} ReplaceMissing(s: string, pat: string, sub: string)
    requires pat != [] && pat[0] !in s
    ensures Replace(s, pat, sub) == s
    decreases |s|
  {
    if |s| >= |pat| {
      assert s[..|pat|][0] == s[0];
      ReplaceMissing(s[1..], pat, sub);
      assert [s[0]] + s[1..] == s;
    }
  }

  lemma AppendAssoc<T>(a: seq<T>, b: seq<T>, c: seq<T>)
    ensures a + b + c == a + (b + c)
  {
  }

  /** Replacing one character: the first character is handled, then the rest. */
  lemma ReplaceCharUnfold(s: string, a: char, t: string)
    requires s != []
    ensures Replace(s, [a], t) == (if s[0] == a then t else [s[0]]) + Replace(s[1..], [a], t)
  {
    assert s[..1] == [s[0]];
  }

  /** Replacing one character distributes over concatenation. */
  lemma {:induction false} ReplaceCharAppend(a: string, b: string, c: char, t: string)
    ensures Replace(a + b, [c], t) == Replace(a, [c], t) + Replace(b, [c], t)
  {
    if a == [] {
      assert a + b == b;
    } else {
      var head := if a[0] == c then t else [a[0]];
      assert (a + b)[0] == a[0] && (a + b)[1..] == a[1..] + b;
      ReplaceCharUnfold(a + b, c, t);
      ReplaceCharUnfold(a, c, t);
      ReplaceCharAppend(a[1..], b, c, t);
      AppendAssoc(head, Replace(a[1..], [c], t), Replace(b, [c], t));
    }
  }

  /** Replacing a character by a character changes it at every position and nothing else. */
  lemma {:induction false} ReplaceCharByChar(s: string, a: char, b: char)
    ensures |Replace(s, [a], [b])| == |s|
    ensures forall i :: 0 <= i < |s| ==> Replace(s, [a], [b])[i] == if s[i] == a then b else s[i]
  {
    if s != [] {
      ReplaceCharUnfold(s, a, [b]);
      ReplaceCharByChar(s[1..], a, b);
    }
  }

  /** A character that does not occur is not replaced. */
  lemma {:induction false} ReplaceAbsent(s: string, a: char, t: string)
    requires a !in s
    ensures Replace(s, [a], t) == s
  {
    if s != [] {
      ReplaceCharUnfold(s, a, t);
      ReplaceAbsent(s[1..], a, t);
    }
  }

  // ---------------------------------------------------------------------
  // split() and the inverse join()
  // ---------------------------------------------------------------------

  /** `s.split(sep)` for a one-character separator: k separators give k + 1 pieces. */
  function Split(s: string, sep: char): (r: seq<string>)
    ensures |r| >= 1
    ensures forall i :: 0 <= i < |r| ==> sep !in r[i]
    decreases |s|
  {
    if s == [] then [""]
    else
      var rest := Split(s[1..], sep);
      if s[0] == sep then [""] + rest
      else [[s[0]] + rest[0]] + rest[1..]
  }

  /** The position of the first occurrence of `x`: the column a lookup by name reads. */
  function IndexOf<T(==)>(xs: seq<T>, x: T): (i: nat)
    requires x in xs
    ensures i < |xs| && xs[i] == x && x !in xs[..i]
  {
    if xs[0] == x then 0
    else
      var j := IndexOf(xs[1..], x);
      assert xs[..j + 1] == [xs[0]] + xs[1..][..j];
      j + 1
  }

  /** The pieces appended one after the other, as a loop of `+=` builds them. */
  function Concat(parts: seq<string>): string
  {
    if |parts| == 0 then "" else Concat(parts[..|parts| - 1]) + parts[|parts| - 1]
  }

  /** One more `+=`: the prefix of one more piece. */
  lemma ConcatSnoc(parts: seq<string>, i: nat)
    requires i < |parts|
    ensures Concat(parts[..i + 1]) == Concat(parts[..i]) + parts[i]
  {
    assert parts[..i + 1][..i] == parts[..i];
  }

  /** `sep.join(parts)`. */
  function Join(parts: seq<string>, sep: char): string
  {
    if |parts| == 0 then ""
    else if |parts| == 1 then parts[0]
    else parts[0] + [sep] + Join(parts[1..], sep)
  }

  /** Joining the pieces of a split gives the string back. */
  lemma {:induction false} JoinSplit(s: string, sep: char)
    ensures Join(Split(s, sep), sep) == s
  {
    if s != [] {
      var rest := Split(s[1..], sep);
      JoinSplit(s[1..], sep);
      if s[0] != sep && |rest| > 1 {
        assert rest == [rest[0]] + rest[1..];
      }
    }
  }

  /** A split gives one more piece than there are separators. */
  lemma {:induction false} SplitCount(s: string, sep: char)
    ensures |Split(s, sep)| == multiset(s)[sep] + 1
  {
    if s != [] {
      SplitCount(s[1..], sep);
      assert s == [s[0]] + s[1..];
    }
  }

  /** Joining one more piece adds a separator and the piece. */
  lemma {:induction false} JoinSnoc(parts: seq<string>, x: string, sep: char)
    requires |parts| >= 1
    ensures Join(parts + [x], sep) == Join(parts, sep) + [sep] + x
  {
    if |parts| == 1 {
      assert parts + [x] == [parts[0], x];
      assert [parts[0], x][1..] == [x];
    } else {
      assert (parts + [x])[1..] == parts[1..] + [x];
      JoinSnoc(parts[1..], x, sep);
    }
  }

  /** A string without the separator splits into itself. */
  lemma {:induction false} SplitWithoutSeparator(s: string, sep: char)
    requires sep !in s
    ensures Split(s, sep) == [s]
  {
    if s != [] {
      SplitWithoutSeparator(s[1..], sep);
      assert s == [s[0]] + s[1..];
    }
  }

  /** Two pieces around one separator split back into those two pieces. */
  lemma {:induction false} SplitPair(a: string, b: string, sep: char)
    requires sep !in a && sep !in b
    ensures Split(a + [sep] + b, sep) == [a, b]
  {
    var s := a + [sep] + b;
    if a == [] {
      assert s[1..] == b;
      SplitWithoutSeparator(b, sep);
    } else {
      assert s[1..] == a[1..] + [sep] + b;
      SplitPair(a[1..], b, sep);
      assert [a[0]] + a[1..] == a;
    }
  }

  /** A first piece without the separator splits off on its own. */
  lemma {:induction false} SplitPrefix(a: string, rest: string, sep: char)
    requires sep !in a
    ensures Split(a + [sep] + rest, sep) == [a] + Split(rest, sep)
  {
    var s := a + [sep] + rest;
    if a == [] {
      assert s[1..] == rest;
    } else {
      assert s[1..] == a[1..] + [sep] + rest;
      SplitPrefix(a[1..], rest, sep);
      assert [a[0]] + a[1..] == a;
    }
  }

  // ---------------------------------------------------------------------
  // lower(), prefixes and suffixes
  // ---------------------------------------------------------------------

  /**
   * `c.lower()` for the ASCII and Latin-1 capitals; other characters are
   * kept as they are.
   */
  function LowerChar(c: char): char {
    if 'A' <= c <= 'Z' || ('\U{C0}' <= c <= '\U{DE}' && c != '\U{D7}') then (c as int + 32) as char else c
  }

  /** `s.lower()`, one character at a time. */
  function Lower(s: string): string {
    if s == [] then [] else [LowerChar(s[0])] + Lower(s[1..])
  }

  lemma {:induction false} LowerPointwise(s: string)
    ensures |Lower(s)| == |s|
    ensures forall i :: 0 <= i < |s| ==> Lower(s)[i] == LowerChar(s[i])
  {
    if s != [] {
      LowerPointwise(s[1..]);
    }
  }

  /** `s.startswith(p)`. */
  predicate StartsWith(s: string, p: string) {
    p <= s
  }

  /** `s.endswith(x)`. */
  predicate EndsWith(s: string, x: string) {
    |x| <= |s| && s[|s| - |x|..] == x
  }

  // ---------------------------------------------------------------------
  // str(n) for a natural number, and its inverse
  // ---------------------------------------------------------------------

  predicate IsDigit(c: char) {
    '0' <= c <= '9'
  }

  function DigitChar(d: nat): (c: char)
    requires d < 10
    ensures IsDigit(c)
  {
    ('0' as int + d) as char
  }

  function DigitValue(c: char): nat
    requires IsDigit(c)
  {
    c as int - '0' as int
  }

  /** `str(n)`: decimal digits, no leading zero. */
  function NatToString(n: nat): (r: string)
    ensures |r| >= 1 && forall i :: 0 <= i < |r| ==> IsDigit(r[i])
    decreases n
  {
    if n < 10 then [DigitChar(n)] else NatToString(n / 10) + [DigitChar(n % 10)]
  }

  /** `int(s)` for a non-empty run of ASCII digits. */
  function DigitsValue(s: string): nat
    requires forall i :: 0 <= i < |s| ==> IsDigit(s[i])
  {
    if s == [] then 0 else DigitsValue(s[..|s| - 1]) * 10 + DigitValue(s[|s| - 1])
  }

  /** Reading back `str(n)` gives `n`. */
  lemma {:induction false} NatToStringRoundTrip(n: nat)
    ensures DigitsValue(NatToString(n)) == n
    decreases n
  {
    var r := NatToString(n);
    if n >= 10 {
      NatToStringRoundTrip(n / 10);
      assert r[..|r| - 1] == NatToString(n / 10);
    }
  }

  // ---------------------------------------------------------------------
  // The order `sorted()` uses on strings
  // ---------------------------------------------------------------------

  /** `a < b` on Python strings: lexicographic by code point, a proper prefix first. */
  predicate LexLess(a: string, b: string)
    decreases |a|
  {
    if a == [] then b != []
    else b != [] && (a[0] < b[0] || (a[0] == b[0] && LexLess(a[1..], b[1..])))
  }

  lemma {:induction false} LexIrreflexive(a: string)
    ensures !LexLess(a, a)
  {
    if a != [] {
      LexIrreflexive(a[1..]);
    }
  }

  lemma {:induction false} LexTotal(a: string, b: string)
    ensures a == b || LexLess(a, b) || LexLess(b, a)
  {
    if a != [] && b != [] && a[0] == b[0] {
      LexTotal(a[1..], b[1..]);
      if a[1..] == b[1..] {
        assert a == [a[0]] + a[1..] && b == [b[0]] + b[1..];
      }
    }
  }

  lemma {:induction false} LexTransitive(a: string, b: string, c: string)
    requires LexLess(a, b) && LexLess(b, c)
    ensures LexLess(a, c)
  {
    if a != [] && a[0] == b[0] && b[0] == c[0] {
      LexTransitive(a[1..], b[1..], c[1..]);
    }
  }
}
