/**
 * The string routines of Python's standard library that the workshop tools
 * rely on, over `string` (a sequence of code points): str.strip, str.split
 * with a one-character separator, str.join, str.lower, substring tests,
 * str.replace with an empty replacement, int() and float() on decimal text,
 * str() of an int, and the code-point order that sorting a text column uses.
 */
module Text {
  import opened Optional

  // ------------------------------------------------------------------ strip

  /** Whitespace as str.strip() sees it (str.isspace):
      tab, line feed, vertical tab, form feed, carriage return, the
      separators 0x1c-0x1f, space, next line 0x85, no-break space 0xa0, the
      Ogham space mark 0x1680, the spaces 0x2000-0x200a, the line and
      paragraph separators 0x2028-0x2029, the narrow no-break space 0x202f,
      the medium mathematical space 0x205f and the ideographic space 0x3000. */
  predicate IsSpace(c: char) {
    var n := c as int;
    9 <= n <= 13 || 28 <= n <= 32 || n == 0x85 || n == 0xa0 || n == 0x1680
    || 0x2000 <= n <= 0x200a || n == 0x2028 || n == 0x2029 || n == 0x202f
    || n == 0x205f || n == 0x3000
  }

  predicate AllSpace(s: string) {
    forall i :: 0 <= i < |s| ==> IsSpace(s[i])
  }

  /** str.lstrip(): the suffix of `s` left after its leading whitespace. */
  function StripLeft(s: string): string {
    if s != [] && IsSpace(s[0]) then StripLeft(s[1..]) else s
  }

  /** What lstrip removes is whitespace, and what it leaves does not start
      with whitespace. */
  lemma {:induction false} StripLeftShape(s: string)
    ensures var r := StripLeft(s);
      |r| <= |s| && r == s[|s| - |r|..] && AllSpace(s[..|s| - |r|]) && (r == [] || !IsSpace(r[0]))
  {
    if s != [] && IsSpace(s[0]) {
      StripLeftShape(s[1..]);
      var r := StripLeft(s);
      assert s[1..][|s| - 1 - |r|..] == s[|s| - |r|..];
      assert s[..|s| - |r|] == [s[0]] + s[1..][..|s| - 1 - |r|];
    }
  }

  /** str.rstrip(): the prefix of `s` left before its trailing whitespace. */
  function StripRight(s: string): string {
    if s != [] && IsSpace(s[|s| - 1]) then StripRight(s[..|s| - 1]) else s
  }

  /** What rstrip removes is whitespace, and what it leaves does not end
      with whitespace. */
  lemma {:induction false} StripRightShape(s: string)
    ensures var r := StripRight(s);
      |r| <= |s| && r == s[..|r|] && AllSpace(s[|r|..]) && (r == [] || !IsSpace(r[|r| - 1]))
  {
    if s != [] && IsSpace(s[|s| - 1]) {
      StripRightShape(s[..|s| - 1]);
      var r := StripRight(s);
      assert s[..|s| - 1][..|r|] == s[..|r|];
      assert s[|r|..] == s[..|s| - 1][|r|..] + [s[|s| - 1]];
    }
  }

  /** `r` is `s` less a whitespace prefix of length `i` and a whitespace suffix. */
  ghost predicate StripsTo(s: string, r: string, i: int) {
    0 <= i <= |s| - |r| && r == s[i..i + |r|] && AllSpace(s[..i]) && AllSpace(s[i + |r|..])
  }

  /** str.strip() */
  function Strip(s: string): (r: string)
    ensures r == [] || (!IsSpace(r[0]) && !IsSpace(r[|r| - 1]))
    ensures exists i :: StripsTo(s, r, i)
  {
    StripBothEnds(s);
    StripRight(StripLeft(s))
  }

  lemma StripBothEnds(s: string)
    ensures var r := StripRight(StripLeft(s));
      && StripsTo(s, r, |s| - |StripLeft(s)|)
      && (r == [] || (!IsSpace(r[0]) && !IsSpace(r[|r| - 1])))
  {
    var l := StripLeft(s);
    var r := StripRight(l);
    StripLeftShape(s);
    StripRightShape(l);
    SliceOfSuffix(s, |s| - |l|, |r|);
  }

  lemma SliceOfSuffix(s: string, i: nat, k: nat)
    requires i + k <= |s|
    ensures s[i..][..k] == s[i..i + k] && s[i..][k..] == s[i + k..]
  {
  }

  /** Stripping adds no character. */
  lemma StripKeepsChars(s: string)
    ensures forall c :: c in Strip(s) ==> c in s
  {
    var i :| StripsTo(s, Strip(s), i);
    assert forall k :: 0 <= k < |Strip(s)| ==> Strip(s)[k] == s[i + k];
  }

  /** Text with no whitespace at either end is its own strip. */
  lemma StripUnchanged(s: string)
    requires s == [] || (!IsSpace(s[0]) && !IsSpace(s[|s| - 1]))
    ensures Strip(s) == s
  {
  }

  // ------------------------------------------------------- split and join

  function Count(s: string, c: char): nat {
    if s == [] then 0 else (if s[0] == c then 1 else 0) + Count(s[1..], c)
  }

  /** str.split(sep) for a one-character separator: the pieces between
      consecutive separators, so there is always one more piece than there
      are separators, and no piece holds the separator. */
  function Split(s: string, sep: char): (r: seq<string>)
    ensures |r| == Count(s, sep) + 1
    ensures forall i :: 0 <= i < |r| ==> sep !in r[i]
  {
    if s == [] then [""]
    else
      var rest := Split(s[1..], sep);
      if s[0] == sep then [""] + rest
      else [[s[0]] + rest[0]] + rest[1..]
  }

  /** sep.join(xs) */
  function Join(xs: seq<string>, sep: string): string {
    if xs == [] then "" else if |xs| == 1 then xs[0] else xs[0] + sep + Join(xs[1..], sep)
  }

  lemma JoinConsHead(c: char, xs: seq<string>, sep: string)
    requires xs != []
    ensures Join([[c] + xs[0]] + xs[1..], sep) == [c] + Join(xs, sep)
  {
    var ys := [[c] + xs[0]] + xs[1..];
    if |xs| > 1 {
      assert ys[1..] == xs[1..];
    }
  }

  /** Joining the pieces of a split with the separator gives the text back. */
  lemma {:induction false} SplitJoin(s: string, sep: char)
    ensures Join(Split(s, sep), [sep]) == s
  {
    if s != [] {
      SplitJoin(s[1..], sep);
      var rest := Split(s[1..], sep);
      if s[0] == sep {
        assert ([""] + rest)[1..] == rest;
      } else {
        JoinConsHead(s[0], rest, [sep]);
      }
    }
  }

  /** Text without the separator splits into itself alone. */
  lemma {:induction false} SplitWithoutSeparator(s: string, sep: char)
    requires sep !in s
    ensures Split(s, sep) == [s]
  {
    if s != [] {
      assert sep !in s[1..];
      SplitWithoutSeparator(s[1..], sep);
      assert [s[0]] + s[1..] == s;
    }
  }

  /** A join of non-empty pieces is empty only when there are none, starts
      with the first piece's first character and ends with the last piece's
      last character. */
  lemma {:induction false} JoinEnds(xs: seq<string>, sep: string)
    requires forall i :: 0 <= i < |xs| ==> xs[i] != ""
    ensures Join(xs, sep) == [] <==> xs == []
    ensures xs != [] ==> var j := Join(xs, sep); var z := xs[|xs| - 1];
      j[0] == xs[0][0] && j[|j| - 1] == z[|z| - 1]
  {
    if |xs| > 1 {
      JoinEnds(xs[1..], sep);
      assert xs[1..][|xs[1..]| - 1] == xs[|xs| - 1];
    }
  }

  /** Every element of a join occurs in it as a contiguous piece. */
  lemma {:induction false} JoinHasElement(xs: seq<string>, sep: string, i: int)
    requires 0 <= i < |xs|
    ensures Occurs(Join(xs, sep), xs[i])
  {
    if |xs| > 1 {
      if i == 0 {
        assert OccursAt(Join(xs, sep), xs[0], 0);
      } else {
        JoinHasElement(xs[1..], sep, i - 1);
        var tail := Join(xs[1..], sep);
        var a :| OccursAt(tail, xs[i], a);
        var off := |xs[0]| + |sep|;
        assert Join(xs, sep)[off + a..off + a + |xs[i]|] == tail[a..a + |xs[i]|];
        assert OccursAt(Join(xs, sep), xs[i], off + a);
      }
    } else {
      assert OccursAt(Join(xs, sep), xs[0], 0);
    }
  }

  /** `sub` is a contiguous piece of `s`. */
  ghost predicate Occurs(s: string, sub: string) {
    exists a :: OccursAt(s, sub, a)
  }

  ghost predicate OccursAt(s: string, sub: string, a: int) {
    0 <= a <= |s| - |sub| && s[a..a + |sub|] == sub
  }

  // ------------------------------------------------ search and replacement

  /** `pat in s` for strings. */
  predicate Contains(s: string, pat: string)
    decreases |s|
  {
    pat <= s || (s != [] && Contains(s[1..], pat))
  }

  /** s.endswith(suffix) */
  predicate EndsWith(s: string, suffix: string) {
    |suffix| <= |s| && s[|s| - |suffix|..] == suffix
  }

  /** s.replace(pat, ""): the occurrences of `pat` found scanning left to
      right, without overlap, are removed. */
  function RemoveAll(s: string, pat: string): (r: string)
    requires pat != []
    ensures |r| <= |s|
    ensures !Contains(s, pat) ==> r == s
    decreases |s|
  {
    if pat <= s then RemoveAll(s[|pat|..], pat)
    else if s == [] then []
    else [s[0]] + RemoveAll(s[1..], pat)
  }

  /** A piece found in the tail is found in the whole. */
  lemma {:induction false} ContainsAfter(x: string, y: string, pat: string)
    requires Contains(y, pat)
    ensures Contains(x + y, pat)
  {
    if x != [] {
      assert (x + y)[1..] == x[1..] + y;
      ContainsAfter(x[1..], y, pat);
    } else {
      assert x + y == y;
    }
  }

  /** Text holding a piece holds the piece's first character. */
  lemma {:induction false} ContainsFirst(s: string, pat: string)
    requires pat != [] && Contains(s, pat)
    ensures pat[0] in s
  {
    if !(pat <= s) {
      ContainsFirst(s[1..], pat);
      assert pat[0] in s[1..];
    } else {
      assert s[0] == pat[0];
    }
  }

  /** s.index(c): the position of the first `c`. */
  function IndexOf(s: string, c: char): (r: nat)
    requires c in s
    ensures r < |s| && s[r] == c && c !in s[..r]
  {
    if s[0] == c then 0 else 1 + IndexOf(s[1..], c)
  }

  // -------------------------------------------------------------- lower

  function LowerChar(c: char): char {
    if 'A' <= c <= 'Z' then (c as int + 32) as char else c
  }

  /** str.lower(), restricted to the ASCII letters: it is only compared
      with "crystal", and no other character lowercases to one of its
      letters. */
  function Lower(s: string): string {
    seq(|s|, i requires 0 <= i < |s| => LowerChar(s[i]))
  }

  function UpperChar(c: char): char {
    if 'a' <= c <= 'z' then (c as int - 32) as char else c
  }

  predicate LowerLetters(w: string) {
    forall i :: 0 <= i < |w| ==> 'a' <= w[i] <= 'z'
  }

  /** `v` spells the lower-case word `w` with any of its letters capitalised. */
  ghost predicate CaselessEq(v: string, w: string) {
    |v| == |w| && forall i :: 0 <= i < |v| ==> v[i] == w[i] || v[i] == UpperChar(w[i])
  }

  /** Lowering gives a lower-case word exactly when the text is that word up
      to the case of its letters. */
  lemma LowerMatches(v: string, w: string)
    requires LowerLetters(w)
    ensures Lower(v) == w <==> CaselessEq(v, w)
  {
    if |v| == |w| {
      if Lower(v) == w {
        forall i | 0 <= i < |v| ensures v[i] == w[i] || v[i] == UpperChar(w[i]) {
          assert LowerChar(v[i]) == w[i];
        }
      }
      if CaselessEq(v, w) {
        forall i | 0 <= i < |v| ensures Lower(v)[i] == w[i] {
          assert v[i] == w[i] || v[i] == UpperChar(w[i]);
        }
      }
    }
  }

  // ------------------------------------------------- numbers and digits

  predicate IsDigit(c: char) {
    '0' <= c <= '9'
  }

  predicate AllDigits(s: string) {
    forall i :: 0 <= i < |s| ==> IsDigit(s[i])
  }

  /** The value of a run of decimal digits (0 for the empty run). */
  function DigitsValue(s: string): nat
    requires AllDigits(s)
  {
    if s == [] then 0 else 10 * DigitsValue(s[..|s| - 1]) + (s[|s| - 1] as int - '0' as int)
  }

  /** The value of digits written after a decimal point: "25" is 0.25. */
  function FracValue(s: string): (r: real)
    requires AllDigits(s)
    ensures 0.0 <= r < 1.0
  {
    if s == [] then 0.0 else ((s[0] as int - '0' as int) as real + FracValue(s[1..])) / 10.0
  }

  /** The text after an optional leading sign. */
  function Unsigned(t: string): string {
    if t != [] && (t[0] == '+' || t[0] == '-') then t[1..] else t
  }

  predicate Negative(t: string) {
    t != [] && t[0] == '-'
  }

  /** Whitespace as int() and float() see it: they first turn every
      non-ASCII whitespace character into a space, then skip only tab, line
      feed, vertical tab, form feed, carriage return and space. So, unlike
      str.strip(), they keep the separators 0x1c-0x1f. */
  predicate IsNumSpace(c: char) {
    IsSpace(c) && !(28 <= c as int <= 31)
  }

  function NumStripLeft(s: string): string {
    if s != [] && IsNumSpace(s[0]) then NumStripLeft(s[1..]) else s
  }

  function NumStripRight(s: string): string {
    if s != [] && IsNumSpace(s[|s| - 1]) then NumStripRight(s[..|s| - 1]) else s
  }

  /** The text int() and float() read: `s` without its surrounding numeric
      whitespace. Everything it removes is also removed by str.strip(). */
  function NumStrip(s: string): (r: string)
    ensures r == [] || (!IsNumSpace(r[0]) && !IsNumSpace(r[|r| - 1]))
  {
    NumStripEnds(s);
    NumStripRight(NumStripLeft(s))
  }

  lemma {:induction false} NumStripEnds(s: string)
    ensures var l := NumStripLeft(s);
      && (l == [] || !IsNumSpace(l[0]))
      && var r := NumStripRight(l);
      && |r| <= |l| && r == l[..|r|]
      && (r == [] || (!IsNumSpace(r[0]) && !IsNumSpace(r[|r| - 1])))
  {
    if s != [] && IsNumSpace(s[0]) {
      NumStripEnds(s[1..]);
    } else {
      NumStripRightPrefix(s);
    }
  }

  lemma {:induction false} NumStripRightPrefix(l: string)
    ensures var r := NumStripRight(l);
      |r| <= |l| && r == l[..|r|] && (r == [] || !IsNumSpace(r[|r| - 1]))
  {
    if l != [] && IsNumSpace(l[|l| - 1]) {
      NumStripRightPrefix(l[..|l| - 1]);
    }
  }

  /** int(s) on decimal text: surrounding whitespace, an optional sign and
      one or more digits; anything else is the ValueError case, None. */
  function ParseInt(s: string): Option<int> {
    var t := NumStrip(s);
    var body := Unsigned(t);
    if body != [] && AllDigits(body) then
      var v: int := DigitsValue(body);
      Some(if Negative(t) then -v else v)
    else None
  }

  /** float(s) on plain decimal text: surrounding whitespace, an optional
      sign, digits with at most one '.', and at least one digit; anything
      else is the ValueError case, None. */
  function ParseDecimal(s: string): Option<real> {
    var t := NumStrip(s);
    var parts := Split(Unsigned(t), '.');
    if |parts| > 2 || !AllDigits(parts[0]) || (|parts| == 2 && !AllDigits(parts[1])) then None
    else
      var whole := parts[0];
      var frac := if |parts| == 2 then parts[1] else "";
      if whole == [] && frac == [] then None
      else
        var mag := DigitsValue(whole) as real + FracValue(frac);
        Some(if Negative(t) then -mag else mag)
  }

  function DigitChar(d: nat): char
    requires d < 10
  {
    ('0' as int + d) as char
  }

  /** str(n) for a natural number: its decimal digits, most significant first. */
  function NatStr(n: nat): (r: string)
    ensures r != [] && AllDigits(r) && DigitsValue(r) == n
  {
    if n < 10 then [DigitChar(n)]
    else
      var r := NatStr(n / 10) + [DigitChar(n % 10)];
      assert r[..|r| - 1] == NatStr(n / 10);
      r
  }

  /** str(n) */
  function IntStr(n: int): string {
    if n < 0 then "-" + NatStr(-n) else NatStr(n)
  }

  /** The facts about str(n) that the parsers look at: no surrounding
      whitespace, a '-' exactly when n is negative, then the digits of |n|. */
  lemma IntStrShape(n: int)
    ensures Strip(IntStr(n)) == IntStr(n) && NumStrip(IntStr(n)) == IntStr(n)
    ensures Negative(IntStr(n)) <==> n < 0
    ensures Unsigned(IntStr(n)) == NatStr(if n < 0 then -n else n)
  {
    var s := IntStr(n);
    var d := NatStr(if n < 0 then -n else n);
    assert IsDigit(d[0]) && IsDigit(d[|d| - 1]);
    if n < 0 {
      assert s == "-" + d && s[1..] == d;
    } else {
      assert s == d;
    }
    StripUnchanged(s);
    NumStripUnchanged(s);
  }

  /** Text with no numeric whitespace at either end is left alone. */
  lemma NumStripUnchanged(s: string)
    requires s == [] || (!IsNumSpace(s[0]) && !IsNumSpace(s[|s| - 1]))
    ensures NumStrip(s) == s
  {
  }

  lemma ParseIntOfShape(n: int, s: string)
    requires NumStrip(s) == s && (Negative(s) <==> n < 0)
    requires Unsigned(s) == NatStr(if n < 0 then -n else n)
    ensures ParseInt(s) == Some(n)
  {
  }

  /** int() reads back what str() writes. */
  lemma IntStrParses(n: int)
    ensures ParseInt(IntStr(n)) == Some(n)
  {
    IntStrShape(n);
    ParseIntOfShape(n, IntStr(n));
  }

  // -------------------------------------------------------- ordering

  /** Code-point lexicographic order, the order Python compares str values in. */
  predicate StrLt(a: string, b: string) {
    if a == [] then b != []
    else b != [] && (a[0] < b[0] || (a[0] == b[0] && StrLt(a[1..], b[1..])))
  }

  lemma {:induction false} StrLtTransitive(a: string, b: string, c: string)
    requires StrLt(a, b) && StrLt(b, c)
    ensures StrLt(a, c)
  {
    if a != [] && a[0] == b[0] && b[0] == c[0] {
      StrLtTransitive(a[1..], b[1..], c[1..]);
    }
  }

  lemma {:induction false} StrLtTotal(a: string, b: string)
    ensures a == b || StrLt(a, b) || StrLt(b, a)
  {
    if a != [] && b != [] && a[0] == b[0] {
      StrLtTotal(a[1..], b[1..]);
      if a[1..] == b[1..] {
        assert a == [a[0]] + a[1..] && b == [b[0]] + b[1..];
      }
    }
  }

  predicate StrictlySorted(xs: seq<string>) {
    forall i, j :: 0 <= i < j < |xs| ==> StrLt(xs[i], xs[j])
  }

  /** `k` put into its place in an ascending sequence that lacks it. */
  function Insert(xs: seq<string>, k: string): (r: seq<string>)
    requires StrictlySorted(xs) && k !in xs
    ensures StrictlySorted(r)
    ensures |r| == |xs| + 1
    ensures forall x :: x in r <==> x == k || x in xs
  {
    if xs == [] then [k]
    else if StrLt(k, xs[0]) then
      forall j | 0 < j < |xs| ensures StrLt(k, xs[j]) {
        StrLtTransitive(k, xs[0], xs[j]);
      }
      [k] + xs
    else
      StrLtTotal(k, xs[0]);
      var rest := Insert(xs[1..], k);
      assert forall x :: x in rest ==> StrLt(xs[0], x);
      [xs[0]] + rest
  }

  /** The strings of `keys` in ascending order, each once: what sorting a
      column of distinct strings gives. */
  method SortStrings(keys: set<string>) returns (r: seq<string>)
    ensures StrictlySorted(r)
    ensures |r| == |keys|
    ensures forall x :: x in r <==> x in keys
  {
    r := [];
    var rest := keys;
    while rest != {}
      invariant rest <= keys
      invariant StrictlySorted(r)
      invariant |r| + |rest| == |keys|
      invariant forall x :: x in r <==> x in keys && x !in rest
      decreases |rest|
    {
      var k :| k in rest;
      r := Insert(r, k);
      rest := rest - {k};
    }
  }
}
