/**
 * String helpers shared by the model of the MySQL `SHOW CREATE TABLE`
 * parser: Python truthiness of optional strings, prefix and substring
 * tests, ASCII case folding, the character classes of Python's `re`
 * module restricted to ASCII, the quote-pair rewrites that
 * `str.replace` performs, joining, splitting on line breaks, and decimal
 * numerals.
 */
module Text {

  datatype Option<+T> = None | Some(value: T)

  /** Python truthiness of a value that is either None or a string. */
  predicate Truthy(o: Option<string>) {
    o.Some? && o.value != ""
  }

  predicate StartsWith(s: string, prefix: string) {
    |prefix| <= |s| && s[..|prefix|] == prefix
  }

  /** Python's `needle in s` for strings. */
  predicate Contains(s: string, needle: string)
    decreases |s|
  {
    StartsWith(s, needle) || (|s| > 0 && Contains(s[1..], needle))
  }

  // ---------------------------------------------------------------------
  // Character classes (ASCII part of Python's `\s`, `\w`, `\d`)
  // ---------------------------------------------------------------------

  predicate IsSpace(c: char) {
    c == ' ' || ('\t' <= c <= '\r') || (28 <= c as int <= 31)
  }

  predicate IsDigit(c: char) {
    '0' <= c <= '9'
  }

  predicate IsWordChar(c: char) {
    ('a' <= c <= 'z') || ('A' <= c <= 'Z') || IsDigit(c) || c == '_'
  }

  function LowerChar(c: char): char {
    if 'A' <= c <= 'Z' then (c as int + 32) as char else c
  }

  /** ASCII `str.lower()`. */
  function Lower(s: string): (r: string)
    ensures |r| == |s|
  {
    if s == [] then [] else [LowerChar(s[0])] + Lower(s[1..])
  }

  /** `re.I` comparison of two strings (ASCII folding). */
  predicate EqualsIgnoreCase(a: string, b: string) {
    |a| == |b| && forall k :: 0 <= k < |a| ==> LowerChar(a[k]) == LowerChar(b[k])
  }

  /** Strings equal under `re.I` have the same `lower()`. */
  lemma {:induction false} LowerIgnoringCase(a: string, b: string)
    requires EqualsIgnoreCase(a, b)
    ensures Lower(a) == Lower(b)
    decreases |a|
  {
    if a != [] {
      assert EqualsIgnoreCase(a[1..], b[1..]) by {
        forall k | 0 <= k < |a| - 1
          ensures LowerChar(a[1..][k]) == LowerChar(b[1..][k])
        {
          assert a[1..][k] == a[k + 1] && b[1..][k] == b[k + 1];
        }
      }
      LowerIgnoringCase(a[1..], b[1..]);
    }
  }

  /** `lower()` works character by character. */
  lemma {:induction false} LowerAt(s: string, k: nat)
    requires k < |s|
    ensures Lower(s)[k] == LowerChar(s[k])
    decreases k
  {
    if k > 0 {
      LowerAt(s[1..], k - 1);
    }
  }

  /** The literal `word` (matched with `re.I`) stands at position `i` of `s`. */
  predicate WordAt(s: string, i: nat, word: string) {
    i + |word| <= |s| && EqualsIgnoreCase(s[i..i + |word|], word)
  }

  /** `WordAt` compared one character at a time, so that a proof unfolds it only as far as it needs. */
  predicate FoldedAt(s: string, i: nat, word: string)
    decreases |word|
  {
    i <= |s| && (word == [] || (i < |s| && LowerChar(s[i]) == LowerChar(word[0]) && FoldedAt(s, i + 1, word[1..])))
  }

  lemma {:induction false} FoldedAtIff(s: string, i: nat, word: string)
    ensures FoldedAt(s, i, word) <==> WordAt(s, i, word)
    decreases |word|
  {
    if word != [] && i < |s| {
      FoldedAtIff(s, i + 1, word[1..]);
      if i + |word| <= |s| {
        var a := s[i..i + |word|];
        assert a[1..] == s[i + 1..i + 1 + |word[1..]|];
        assert EqualsIgnoreCase(a, word) <==>
               LowerChar(a[0]) == LowerChar(word[0]) && EqualsIgnoreCase(a[1..], word[1..]) by {
          if LowerChar(a[0]) == LowerChar(word[0]) && EqualsIgnoreCase(a[1..], word[1..]) {
            forall k | 0 <= k < |a|
              ensures LowerChar(a[k]) == LowerChar(word[k])
            {
              if k > 0 {
                assert a[1..][k - 1] == a[k] && word[1..][k - 1] == word[k];
              }
            }
          }
          if EqualsIgnoreCase(a, word) {
            forall k | 0 <= k < |a| - 1
              ensures LowerChar(a[1..][k]) == LowerChar(word[1..][k])
            {
              assert a[1..][k] == a[k + 1] && word[1..][k] == word[k + 1];
            }
          }
        }
      }
    }
  }

  /** The character classes the scanners skip over. */
  datatype CharClass = Spaces | Whitespace | NonWhitespace | WordChars | Digits | NotCloseParen

  predicate InClass(c: char, cls: CharClass) {
    match cls
    case Spaces => c == ' '
    case Whitespace => IsSpace(c)
    case NonWhitespace => !IsSpace(c)
    case WordChars => IsWordChar(c)
    case Digits => IsDigit(c)
    case NotCloseParen => c != ')'
  }

  /**
   * The end of the longest run of characters of class `cls` that starts
   * at `i`: what a greedy `\s*`, `\w*`, `\d*` or ` *` consumes.
   */
  function Span(s: string, i: nat, cls: CharClass): (j: nat)
    requires i <= |s|
    ensures i <= j <= |s|
    ensures forall k :: i <= k < j ==> InClass(s[k], cls)
    ensures j == |s| || !InClass(s[j], cls)
    decreases |s| - i
  {
    if i < |s| && InClass(s[i], cls) then Span(s, i + 1, cls) else i
  }

  /** A run that is known to stop at `j` is the run `Span` measures. */
  lemma {:induction false} SpanIs(s: string, i: nat, j: nat, cls: CharClass)
    requires i <= j <= |s|
    requires forall k :: i <= k < j ==> InClass(s[k], cls)
    requires j == |s| || !InClass(s[j], cls)
    ensures Span(s, i, cls) == j
  {
    var r := Span(s, i, cls);
    if r < j {
      assert false;
    } else if r > j {
      assert false;
    }
  }

  function SkipSpaces(s: string, i: nat): (j: nat)
    requires i <= |s|
    ensures i <= j <= |s|
  {
    Span(s, i, Spaces)
  }

  function SkipWhitespace(s: string, i: nat): (j: nat)
    requires i <= |s|
    ensures i <= j <= |s|
  {
    Span(s, i, Whitespace)
  }

  function WordEnd(s: string, i: nat): (j: nat)
    requires i <= |s|
    ensures i <= j <= |s|
  {
    Span(s, i, WordChars)
  }

  function DigitEnd(s: string, i: nat): (j: nat)
    requires i <= |s|
    ensures i <= j <= |s|
  {
    Span(s, i, Digits)
  }

  /** Python's `$`: the end of the string, or just before a final line break. */
  predicate AtEnd(s: string, i: nat) {
    i == |s| || (i + 1 == |s| && s[i] == '\n')
  }

  // ---------------------------------------------------------------------
  // Quote doubling and halving
  // ---------------------------------------------------------------------

  /** `s.replace(c, c + c)`: every `c` written twice. */
  function DoubleChar(s: string, c: char): (r: string)
    ensures |r| >= |s|
  {
    if s == [] then []
    else if s[0] == c then [c, c] + DoubleChar(s[1..], c)
    else [s[0]] + DoubleChar(s[1..], c)
  }

  /**
   * `s.replace(c + c, c)`: Python replaces non-overlapping occurrences
   * from left to right, so a run of three `c` becomes two.
   */
  function HalvePairs(s: string, c: char): (r: string)
    ensures |r| <= |s|
  {
    if |s| >= 2 && s[0] == c && s[1] == c then [c] + HalvePairs(s[2..], c)
    else if s == [] then []
    else [s[0]] + HalvePairs(s[1..], c)
  }

  /**
   * `s` is a sequence of items, each either a character other than `c` or
   * the pair `c c`: the shape of the text between two quotes when the
   * quote is escaped by doubling it.
   */
  predicate Paired(s: string, c: char)
    decreases |s|
  {
    s == []
    || (s[0] != c && Paired(s[1..], c))
    || (|s| >= 2 && s[0] == c && s[1] == c && Paired(s[2..], c))
  }

  lemma {:induction false} HalveDouble(s: string, c: char)
    ensures HalvePairs(DoubleChar(s, c), c) == s
  {
    if s != [] {
      HalveDouble(s[1..], c);
      if s[0] == c {
        assert DoubleChar(s, c)[2..] == DoubleChar(s[1..], c);
      } else {
        assert DoubleChar(s, c)[1..] == DoubleChar(s[1..], c);
      }
    }
  }

  lemma {:induction false} DoubleIsPaired(s: string, c: char)
    ensures Paired(DoubleChar(s, c), c)
  {
    if s != [] {
      DoubleIsPaired(s[1..], c);
      if s[0] == c {
        assert DoubleChar(s, c)[2..] == DoubleChar(s[1..], c);
      } else {
        assert DoubleChar(s, c)[1..] == DoubleChar(s[1..], c);
      }
    }
  }

  /** Doubling a different character keeps the pairs of `c` adjacent. */
  lemma {:induction false} DoubleKeepsPaired(s: string, c: char, d: char)
    requires Paired(s, c) && d != c
    ensures Paired(DoubleChar(s, d), c)
  {
    if s != [] {
      var r := DoubleChar(s, d);
      if |s| >= 2 && s[0] == c && s[1] == c && Paired(s[2..], c) {
        DoubleKeepsPaired(s[2..], c, d);
        assert s[1..][1..] == s[2..];
        assert DoubleChar(s[1..], d) == [c] + DoubleChar(s[2..], d);
        assert r == [c] + ([c] + DoubleChar(s[2..], d));
        assert r[2..] == DoubleChar(s[2..], d);
      } else {
        DoubleKeepsPaired(s[1..], c, d);
        if s[0] == d {
          assert r == [d] + ([d] + DoubleChar(s[1..], d));
          assert r[1..] == [d] + DoubleChar(s[1..], d);
          assert r[2..] == DoubleChar(s[1..], d);
        } else {
          assert r[1..] == DoubleChar(s[1..], d);
        }
      }
    }
  }

  lemma {:induction false} DoubleNonEmpty(s: string, c: char)
    ensures (DoubleChar(s, c) == []) == (s == [])
  {
  }

  /** Doubling `d` never introduces a character `c` that was absent. */
  lemma {:induction false} DoubleKeepsAbsent(s: string, c: char, d: char)
    requires c != d && forall k :: 0 <= k < |s| ==> s[k] != c
    ensures forall k :: 0 <= k < |DoubleChar(s, d)| ==> DoubleChar(s, d)[k] != c
  {
    if s != [] {
      DoubleKeepsAbsent(s[1..], c, d);
    }
  }

  /** Concatenation regroups freely; stated once so that larger proofs need not rediscover it. */
  lemma Associative<T>(a: seq<T>, b: seq<T>, c: seq<T>)
    ensures a + b + c == a + (b + c)
  {
  }

  /** Dropping from the front of a concatenation drops from its first part. */
  lemma DropConcat<T>(a: seq<T>, b: seq<T>, c: seq<T>, n: nat)
    requires n <= |a|
    ensures (a + b + c)[n..] == a[n..] + b + c
  {
  }

  /** The three parts of `a + [x] + c`, taken back apart. */
  lemma AroundOne<T>(a: seq<T>, x: T, c: seq<T>)
    ensures var s := a + [x] + c;
            s[..|a|] == a && s[|a|] == x && s[|a| + 1..] == c
  {
  }

  /** The two parts of `a + b`, taken back apart. */
  lemma AppendParts<T>(a: seq<T>, b: seq<T>)
    ensures (a + b)[..|a|] == a && (a + b)[|a|..] == b
  {
  }

  /** The head and the rest of `[x] + s`. */
  lemma ConsParts<T>(x: T, s: seq<T>)
    ensures ([x] + s)[0] == x && ([x] + s)[1..] == s
  {
  }

  // ---------------------------------------------------------------------
  // Joining and splitting
  // ---------------------------------------------------------------------

  /** Python's `sep.join(xs)`. */
  function JoinWith(sep: string, xs: seq<string>): string {
    if xs == [] then []
    else if |xs| == 1 then xs[0]
    else xs[0] + sep + JoinWith(sep, xs[1..])
  }

  /** A join starts with its first item. */
  lemma {:induction false} JoinWithHead(sep: string, xs: seq<string>)
    requires xs != []
    ensures StartsWith(JoinWith(sep, xs), xs[0])
  {
    if |xs| > 1 {
      assert JoinWith(sep, xs) == xs[0] + (sep + JoinWith(sep, xs[1..]));
    }
  }

  /** A join of non-empty items starts with the first item's first character and ends with the last item's last one. */
  lemma {:induction false} JoinWithEnds(sep: string, xs: seq<string>)
    requires xs != [] && forall i :: 0 <= i < |xs| ==> xs[i] != []
    ensures var j := JoinWith(sep, xs);
            && j != [] && j[0] == xs[0][0]
            && j[|j| - 1] == xs[|xs| - 1][|xs[|xs| - 1]| - 1]
    decreases |xs|
  {
    if |xs| > 1 {
      assert xs[1..][|xs| - 2] == xs[|xs| - 1];
      JoinWithEnds(sep, xs[1..]);
      var rest := JoinWith(sep, xs[1..]);
      var j := JoinWith(sep, xs);
      assert j == (xs[0] + sep) + rest;
      assert j[|j| - 1] == rest[|rest| - 1];
    }
  }

  predicate NoLineBreak(s: string) {
    forall k :: 0 <= k < |s| ==> s[k] != '\n' && s[k] != '\r'
  }

  lemma {:induction false} NoLineBreakConcat(a: string, b: string)
    requires NoLineBreak(a) && NoLineBreak(b)
    ensures NoLineBreak(a + b)
  {
    forall k | 0 <= k < |a + b|
      ensures (a + b)[k] != '\n' && (a + b)[k] != '\r'
    {
      if k < |a| {
        assert (a + b)[k] == a[k];
      } else {
        assert (a + b)[k] == b[k - |a|];
      }
    }
  }

  /** Joining lines without line breaks by a separator without one gives a line without one. */
  lemma {:induction false} JoinNoLineBreak(sep: string, xs: seq<string>)
    requires NoLineBreak(sep) && forall i :: 0 <= i < |xs| ==> NoLineBreak(xs[i])
    ensures NoLineBreak(JoinWith(sep, xs))
    decreases |xs|
  {
    if |xs| > 1 {
      JoinNoLineBreak(sep, xs[1..]);
      NoLineBreakConcat(xs[0], sep);
      NoLineBreakConcat(xs[0] + sep, JoinWith(sep, xs[1..]));
    }
  }

  function DropTrailingCr(s: string): string {
    if |s| > 0 && s[|s| - 1] == '\r' then s[..|s| - 1] else s
  }

  /**
   * `re.split(r"\r?\n", s)`: the text between successive line breaks,
   * where a carriage return just before a line feed belongs to the break.
   */
  function SplitLines(s: string): (lines: seq<string>)
    ensures |lines| >= 1
  {
    SplitFrom(s, [])
  }

  function SplitFrom(s: string, current: string): (lines: seq<string>)
    ensures |lines| >= 1
    decreases |s|
  {
    if s == [] then [current]
    else if s[0] == '\n' then [DropTrailingCr(current)] + SplitFrom(s[1..], [])
    else SplitFrom(s[1..], current + [s[0]])
  }

  lemma {:induction false} SplitFromPlain(a: string, rest: string, current: string)
    requires forall k :: 0 <= k < |a| ==> a[k] != '\n'
    ensures SplitFrom(a + rest, current) == SplitFrom(rest, current + a)
    decreases |a|
  {
    if a != [] {
      assert (a + rest)[1..] == a[1..] + rest;
      SplitFromPlain(a[1..], rest, current + [a[0]]);
      assert current + [a[0]] + a[1..] == current + a;
    } else {
      assert a + rest == rest;
      assert current + a == current;
    }
  }

  /** Splitting after a line that holds no line break peels that line off. */
  lemma {:induction false} SplitLinesCons(line: string, rest: string)
    requires NoLineBreak(line)
    ensures SplitLines(line + "\n" + rest) == [line] + SplitLines(rest)
  {
    SplitFromPlain(line, "\n" + rest, []);
    assert [] + line == line;
    assert ("\n" + rest)[1..] == rest;
    assert line + "\n" + rest == line + ("\n" + rest);
  }

  lemma {:induction false} SplitLinesSingle(line: string)
    requires NoLineBreak(line)
    ensures SplitLines(line) == [line]
  {
    SplitFromPlain(line, [], []);
    assert line + [] == line;
    assert [] + line == line;
  }

  /** Joining lines with a line feed and splitting again gives the lines back. */
  lemma {:induction false} SplitJoinLines(lines: seq<string>)
    requires |lines| >= 1
    requires forall i :: 0 <= i < |lines| ==> NoLineBreak(lines[i])
    ensures SplitLines(JoinWith("\n", lines)) == lines
  {
    if |lines| == 1 {
      SplitLinesSingle(lines[0]);
    } else {
      SplitJoinLines(lines[1..]);
      SplitLinesCons(lines[0], JoinWith("\n", lines[1..]));
    }
  }

  // ---------------------------------------------------------------------
  // Decimal numerals
  // ---------------------------------------------------------------------

  predicate AllDigits(s: string) {
    forall k :: 0 <= k < |s| ==> IsDigit(s[k])
  }

  /** Python's `int(v)` for a string of ASCII digits. */
  function DigitsValue(s: string): nat
    requires AllDigits(s)
  {
    if s == [] then 0
    else DigitsValue(s[..|s| - 1]) * 10 + (s[|s| - 1] as int - '0' as int)
  }

  /** Python's `str(n)` for a natural number. */
  function Numeral(n: nat): (s: string)
    ensures |s| >= 1 && AllDigits(s)
  {
    if n < 10 then [('0' as int + n) as char]
    else Numeral(n / 10) + [('0' as int + n % 10) as char]
  }

  lemma {:induction false} NumeralValue(n: nat)
    ensures DigitsValue(Numeral(n)) == n
  {
    var s := Numeral(n);
    if n >= 10 {
      NumeralValue(n / 10);
      assert s[..|s| - 1] == Numeral(n / 10);
    }
  }
}
