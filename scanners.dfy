/**
 * The small hand-written scanners of reflection.py:
 *  - `_re_csv_int` (`\d+`, used with `findall`) for numeric type arguments,
 *  - `_re_csv_str` (`'(?:''|[^'])*'`, used with `findall`) for quoted
 *    ENUM/SET values,
 *  - `_re_keyexprs` (used with `findall`) for the column list of a key,
 *  - `_strip_values`' per-value unquoting,
 * each with the formatter that produces its input and the round trip
 * between the two.
 */
module Scanners {
  import opened Text

  // ---------------------------------------------------------------------
  // Closing quotes
  // ---------------------------------------------------------------------

  /**
   * Where the loop `(?:qq|[^q])+?` or `(?:qq|[^q])*` stops when no
   * backtracking into it can help: at the first quote `q` that is not
   * immediately followed by another `q`. The index is relative to `t`.
   */
  function CloseQuote(t: string, q: char): (r: Option<nat>)
    ensures r.Some? ==> r.value < |t| && t[r.value] == q
    ensures r.Some? ==> r.value + 1 == |t| || t[r.value + 1] != q
  {
    if t == [] then None
    else if t[0] == q then
      if |t| >= 2 && t[1] == q then
        match CloseQuote(t[2..], q)
        case Some(k) => Some(k + 2)
        case None => None
      else Some(0)
    else
      match CloseQuote(t[1..], q)
      case Some(k) => Some(k + 1)
      case None => None
  }

  /** The text before the closing quote is made of single characters and doubled quotes. */
  lemma {:induction false} CloseQuotePaired(t: string, q: char)
    requires CloseQuote(t, q).Some?
    ensures Paired(t[..CloseQuote(t, q).value], q)
    decreases |t|
  {
    var k := CloseQuote(t, q).value;
    if t[0] == q && |t| >= 2 && t[1] == q {
      CloseQuotePaired(t[2..], q);
      assert t[..k] == [q, q] + t[2..][..k - 2];
      assert t[..k][2..] == t[2..][..k - 2];
    } else if t[0] != q {
      CloseQuotePaired(t[1..], q);
      assert t[..k][1..] == t[1..][..k - 1];
    }
  }

  /**
   * The closing quote of `'(?:''|[^'])*'` under Python's backtracking:
   * the greedy loop runs to the first lone quote; when it reaches the end
   * of the text instead, the regex gives back items until the first quote
   * of the last `''` pair can close the string.
   */
  function GreedyCloseQuote(t: string, q: char): (r: Option<nat>)
    ensures r.Some? ==> r.value < |t| && t[r.value] == q
  {
    if t == [] then None
    else if t[0] == q then
      if |t| >= 2 && t[1] == q then
        match GreedyCloseQuote(t[2..], q)
        case Some(k) => Some(k + 2)
        case None => Some(0)
      else Some(0)
    else
      match GreedyCloseQuote(t[1..], q)
      case Some(k) => Some(k + 1)
      case None => None
  }

  /** A body of paired quotes followed by a lone quote is closed by that quote. */
  lemma {:induction false} CloseQuoteAfterPaired(x: string, q: char, rest: string)
    requires Paired(x, q)
    requires rest == [] || rest[0] != q
    ensures CloseQuote(x + [q] + rest, q) == Some(|x|)
    decreases |x|
  {
    var t := x + [q] + rest;
    if x == [] {
      assert t == [q] + rest;
    } else if x[0] != q {
      CloseQuoteAfterPaired(x[1..], q, rest);
      DropConcat(x, [q], rest, 1);
      CloseQuoteSkipOne(t, q);
    } else {
      CloseQuoteAfterPaired(x[2..], q, rest);
      DropConcat(x, [q], rest, 2);
      CloseQuoteSkipPair(t, q);
    }
  }

  lemma {:induction false} CloseQuoteSkipOne(t: string, q: char)
    requires t != [] && t[0] != q
    ensures CloseQuote(t, q).Some? == CloseQuote(t[1..], q).Some?
    ensures CloseQuote(t, q).Some? ==> CloseQuote(t, q).value == CloseQuote(t[1..], q).value + 1
  {
  }

  lemma {:induction false} CloseQuoteSkipPair(t: string, q: char)
    requires |t| >= 2 && t[0] == q && t[1] == q
    ensures CloseQuote(t, q).Some? == CloseQuote(t[2..], q).Some?
    ensures CloseQuote(t, q).Some? ==> CloseQuote(t, q).value == CloseQuote(t[2..], q).value + 2
  {
  }

  /** Where the lazy scan finds a closing quote, the greedy one finds the same. */
  lemma {:induction false} GreedyAgrees(t: string, q: char)
    requires CloseQuote(t, q).Some?
    ensures GreedyCloseQuote(t, q) == CloseQuote(t, q)
    decreases |t|
  {
    if t[0] == q {
      if |t| >= 2 && t[1] == q {
        GreedyAgrees(t[2..], q);
      }
    } else {
      GreedyAgrees(t[1..], q);
    }
  }

  // ---------------------------------------------------------------------
  // `_re_csv_int`: findall(r"\d+") and int()
  // ---------------------------------------------------------------------

  /** `[int(v) for v in re.findall(r"\d+", t)]`. */
  function CsvInts(t: string): (r: seq<nat>)
    ensures |r| <= |t|
    ensures r == [] <==> forall k :: 0 <= k < |t| ==> !IsDigit(t[k])
    decreases |t|
  {
    if t == [] then []
    else if IsDigit(t[0]) then
      var j := DigitEnd(t, 0);
      [DigitsValue(t[..j])] + CsvInts(t[j..])
    else CsvInts(t[1..])
  }

  /** `",".join(str(n) for n in ns)`: how MySQL prints numeric type arguments. */
  function IntList(ns: seq<nat>): string {
    JoinWith(",", seq(|ns|, i requires 0 <= i < |ns| => Numeral(ns[i])))
  }

  lemma {:induction false} SpanOver(x: string, y: string, p: CharClass)
    requires forall k :: 0 <= k < |x| ==> InClass(x[k], p)
    requires y == [] || !InClass(y[0], p)
    ensures Span(x + y, 0, p) == |x|
  {
    var s := x + y;
    assert forall k :: 0 <= k < |x| ==> s[k] == x[k];
    assert y != [] ==> s[|x|] == y[0];
  }

  lemma {:induction false} CsvIntsRoundTrip(ns: seq<nat>)
    ensures CsvInts(IntList(ns)) == ns
    decreases |ns|
  {
    if ns != [] {
      var tail := if |ns| == 1 then "" else "," + IntList(ns[1..]);
      IntListCons(ns);
      CsvIntsNumeral(ns[0], tail);
      CsvIntsRoundTrip(ns[1..]);
      if |ns| == 1 {
        assert ns == [ns[0]];
      }
    }
  }

  /** The printed list is the first numeral, then a comma and the rest when there is more. */
  lemma {:induction false} IntListCons(ns: seq<nat>)
    requires ns != []
    ensures IntList(ns) == Numeral(ns[0]) + (if |ns| == 1 then "" else "," + IntList(ns[1..]))
  {
    var strs := seq(|ns|, i requires 0 <= i < |ns| => Numeral(ns[i]));
    if |ns| > 1 {
      assert strs[1..] == seq(|ns[1..]|, i requires 0 <= i < |ns[1..]| => Numeral(ns[1..][i]));
    }
  }

  /** A numeral followed by nothing or by a comma is read as its value, and the scan goes on after the comma. */
  lemma {:induction false} CsvIntsNumeral(n: nat, tail: string)
    requires tail == [] || tail[0] == ','
    ensures CsvInts(Numeral(n) + tail) == [n] + CsvInts(if tail == [] then [] else tail[1..])
  {
    var head := Numeral(n);
    var s := head + tail;
    SpanOver(head, tail, Digits);
    assert s[..|head|] == head;
    NumeralValue(n);
    assert s[|head|..] == tail;
    if tail != [] {
      assert CsvInts(tail) == CsvInts(tail[1..]);
    }
  }

  // ---------------------------------------------------------------------
  // `_re_csv_str`: findall(r"'(?:''|[^'])*'")
  // ---------------------------------------------------------------------

  /** Every match of `'(?:''|[^'])*'` in `t`, from left to right, quotes included. */
  function CsvStrs(t: string): (r: seq<string>)
    ensures forall i :: 0 <= i < |r| ==> |r[i]| >= 2 && r[i][0] == '\'' && r[i][|r[i]| - 1] == '\''
    ensures (forall k :: 0 <= k < |t| ==> t[k] != '\'') ==> r == []
    decreases |t|
  {
    if t == [] then []
    else if t[0] == '\'' then
      match GreedyCloseQuote(t[1..], '\'')
      case Some(k) => [t[..k + 2]] + CsvStrs(t[k + 2..])
      case None => CsvStrs(t[1..])
    else CsvStrs(t[1..])
  }

  /** A value as MySQL prints it inside ENUM(...) or SET(...): quoted, quotes doubled. */
  function QuoteValue(v: string): string {
    "'" + DoubleChar(v, '\'') + "'"
  }

  function QuoteAll(vs: seq<string>): (r: seq<string>)
    ensures |r| == |vs|
    ensures forall i :: 0 <= i < |vs| ==> r[i] == QuoteValue(vs[i])
  {
    if vs == [] then [] else [QuoteValue(vs[0])] + QuoteAll(vs[1..])
  }

  /** The argument text of ENUM('a','b',...). */
  function ValueList(vs: seq<string>): string {
    JoinWith(",", QuoteAll(vs))
  }

  lemma {:induction false} CsvStrsRoundTrip(vs: seq<string>)
    ensures CsvStrs(ValueList(vs)) == QuoteAll(vs)
    decreases |vs|
  {
    if vs != [] {
      var tail := if |vs| == 1 then "" else "," + ValueList(vs[1..]);
      assert ValueList(vs) == QuoteValue(vs[0]) + tail by {
        assert QuoteAll(vs)[1..] == QuoteAll(vs[1..]);
      }
      CsvStrsCons(vs[0], tail);
      CsvStrsRoundTrip(vs[1..]);
      if |vs| > 1 {
        ConsParts(',', ValueList(vs[1..]));
      }
    }
  }

  /** A quoted value followed by nothing or by a comma is found whole, and the scan goes on after it. */
  lemma {:induction false} CsvStrsCons(v: string, tail: string)
    requires tail == [] || tail[0] == ','
    ensures CsvStrs(QuoteValue(v) + tail) == [QuoteValue(v)] + CsvStrs(tail)
  {
    var body := DoubleChar(v, '\'');
    var s := "'" + body + "'" + tail;
    DoubleIsPaired(v, '\'');
    assert s[1..] == body + ['\''] + tail;
    CloseQuoteAfterPaired(body, '\'', tail);
    GreedyAgrees(body + ['\''] + tail, '\'');
    assert s[..|body| + 2] == QuoteValue(v);
    assert s[|body| + 2..] == tail;
  }

  // ---------------------------------------------------------------------
  // `_strip_values`
  // ---------------------------------------------------------------------

  /** Python's `a[1:-1]`. */
  function Inner(a: string): string {
    if |a| >= 2 then a[1..|a| - 1] else []
  }

  /**
   * One value of `_strip_values`: a value that starts with a double or a
   * single quote loses its first and last character, and the doubled
   * quote inside is halved.
   */
  function StripValue(a: string): (r: string)
    ensures |a| > 0 && (a[0] == '"' || a[0] == '\'') ==> |r| < |a|
    ensures a == [] || (a[0] != '"' && a[0] != '\'') ==> r == a
  {
    if |a| > 0 && (a[0] == '"' || a[0] == '\'') then HalvePairs(Inner(a), a[0]) else a
  }

  /** Stripping undoes MySQL's quoting of a value. */
  lemma {:induction false} StripQuoted(v: string)
    ensures StripValue(QuoteValue(v)) == v
  {
    var a := QuoteValue(v);
    assert Inner(a) == DoubleChar(v, '\'');
    HalveDouble(v, '\'');
  }

  // ---------------------------------------------------------------------
  // Quoted SQL strings with backslash escapes
  // ---------------------------------------------------------------------

  /**
   * The cleanup applied to a quoted comment or string option: `\\` becomes
   * `\`, then `''` becomes `'`.
   */
  function UnescapeString(v: string): string {
    HalvePairs(HalvePairs(v, '\\'), '\'')
  }

  /**
   * The doubling of quotes and backslashes in a string written between
   * single quotes: `'` as `''`, `\` as `\\`. The other backslash escapes
   * (`\0`, `\n`, `\r`) are not part of it.
   */
  function EscapeString(v: string): string {
    DoubleChar(DoubleChar(v, '\''), '\\')
  }

  /** The cleanup undoes the doubling of quotes and backslashes. */
  lemma {:induction false} UnescapeEscapeString(v: string)
    ensures UnescapeString(EscapeString(v)) == v
  {
    HalveDouble(DoubleChar(v, '\''), '\\');
    HalveDouble(v, '\'');
  }

  /** The escaped text has its single quotes paired, so the quoted string closes where it should. */
  lemma {:induction false} EscapeStringPaired(v: string)
    ensures Paired(EscapeString(v), '\'')
  {
    DoubleIsPaired(v, '\'');
    DoubleKeepsPaired(DoubleChar(v, '\''), '\'', '\\');
  }

  // ---------------------------------------------------------------------
  // `_re_keyexprs`: findall over `col`(len) ASC,...
  // ---------------------------------------------------------------------

  /**
   * One triple of `_parse_keyexprs`. As with `findall`, a group that did
   * not take part in the match is the empty string, and the name is the
   * raw text between the quotes (escaped quotes still doubled).
   */
  datatype KeyExpr = KeyExpr(name: string, length: string, direction: string)

  /** `(?:\((\d+)\))?` at the start of `t`: the digits and the length consumed. */
  function LengthPrefix(t: string): (r: (string, nat))
    ensures r.1 <= |t|
  {
    if |t| > 0 && t[0] == '(' then
      var j := DigitEnd(t, 1);
      if j > 1 && j < |t| && t[j] == ')' then (t[1..j], j + 1) else ("", 0)
    else ("", 0)
  }

  /** `(?: +(ASC|DESC))?` at the start of `t` (case-insensitive). */
  function DirectionPrefix(t: string): (r: (string, nat))
    ensures r.1 <= |t|
  {
    var b := SkipSpaces(t, 0);
    if b > 0 && WordAt(t, b, "ASC") then (t[b..b + 3], b + 3)
    else if b > 0 && WordAt(t, b, "DESC") then (t[b..b + 4], b + 4)
    else ("", 0)
  }

  /** `(?=\,|$)`. */
  predicate ListBoundary(t: string, k: nat) {
    (k < |t| && t[k] == ',') || AtEnd(t, k)
  }

  /**
   * What may follow the closing quote of a key expression's name: the
   * optional length, the optional direction and the look-ahead for a comma
   * or the end. Gives the length, the direction and the text consumed.
   */
  function KeyExprSuffix(u: string): (r: Option<(string, string, nat)>)
    ensures r.Some? ==> r.value.2 <= |u|
  {
    var (length, l) := LengthPrefix(u);
    var (direction, d) := DirectionPrefix(u[l..]);
    if ListBoundary(u[l..], d) then Some((length, direction, l + d)) else None
  }

  /**
   * One key expression at the very start of `t`, and the length of the
   * text it covers. The name loop `(?:fqfq|[^fq])+` stops at the first
   * lone final quote; backtracking into it cannot succeed because the
   * text after a shorter name would start with the final quote, which is
   * none of `(`, space, comma or line break.
   */
  function KeyExprPrefix(t: string, iq: char, fq: char): (r: Option<(KeyExpr, nat)>)
    ensures r.Some? ==> 0 < r.value.1 <= |t|
  {
    if |t| > 0 && t[0] == iq then
      match AfterOpenQuote(t[1..], fq)
      case None => None
      case Some((e, k)) => Some((e, k + 1))
    else None
  }

  /** The rest of a key expression once its opening quote is consumed. */
  function AfterOpenQuote(u: string, fq: char): (r: Option<(KeyExpr, nat)>)
    ensures r.Some? ==> r.value.1 <= |u|
  {
    match CloseQuote(u, fq)
    case None => None
    case Some(c) =>
      if c == 0 then None
      else
        match KeyExprSuffix(u[c + 1..])
        case None => None
        case Some((length, direction, n)) =>
          Some((KeyExpr(u[..c], length, direction), c + 1 + n))
  }

  /** `_parse_keyexprs`: `findall` of the key-expression pattern over `t`. */
  function KeyExprs(t: string, iq: char, fq: char): (r: seq<KeyExpr>)
    ensures |r| <= |t|
    ensures (forall k :: 0 <= k < |t| ==> t[k] != iq) ==> r == []
    decreases |t|
  {
    if t == [] then []
    else
      match KeyExprPrefix(t, iq, fq)
      case Some((e, k)) => [e] + KeyExprs(t[k..], iq, fq)
      case None => KeyExprs(t[1..], iq, fq)
  }

  /** Only the column names, as a foreign key's `local` and `foreign` keep them. */
  function Names(es: seq<KeyExpr>): (r: seq<string>)
    ensures |r| == |es|
    ensures forall i :: 0 <= i < |es| ==> r[i] == es[i].name
  {
    if es == [] then [] else [es[0].name] + Names(es[1..])
  }

  /** A key expression as MySQL prints it. */
  function FormatKeyExpr(e: KeyExpr, iq: char, fq: char): string {
    [iq] + e.name + [fq] + SuffixPart(e)
  }

  /** What follows the closing quote of a printed key expression. */
  function SuffixPart(e: KeyExpr): string {
    LengthPart(e.length) + DirectionPart(e.direction)
  }

  function LengthPart(length: string): string {
    if length == "" then "" else "(" + length + ")"
  }

  function DirectionPart(direction: string): string {
    if direction == "" then "" else " " + direction
  }

  function FormatKeyExprs(es: seq<KeyExpr>, iq: char, fq: char): string
    decreases |es|
  {
    if es == [] then ""
    else if |es| == 1 then FormatKeyExpr(es[0], iq, fq)
    else FormatKeyExpr(es[0], iq, fq) + "," + FormatKeyExprs(es[1..], iq, fq)
  }

  /** What a printed key expression can hold. */
  predicate WellFormedKeyExpr(e: KeyExpr, fq: char) {
    && e.name != []
    && Paired(e.name, fq)
    && AllDigits(e.length)
    && e.direction in {"", "ASC", "DESC"}
  }

  /** Quote characters the key-expression grammar can tell apart from its punctuation. */
  predicate DistinctQuotes(iq: char, fq: char) {
    iq !in {',', '(', ' ', '\n'} && fq !in {',', '(', ' ', '\n'}
  }

  lemma {:induction false} LengthPrefixOf(length: string, rest: string)
    requires AllDigits(length)
    requires rest == [] || rest[0] != '('
    ensures LengthPrefix(LengthPart(length) + rest) == (length, |LengthPart(length)|)
  {
    if length != "" {
      var suffix := "(" + length + ")" + rest;
      var j := DigitEnd(suffix, 1);
      assert suffix[1..] == length + (")" + rest);
      SpanOver(length, ")" + rest, Digits);
      SpanShift(suffix, 1, Digits);
      assert suffix[1..j] == length;
    } else {
      assert "" + rest == rest;
    }
  }

  lemma {:induction false} DirectionPrefixOf(direction: string, tail: string)
    requires direction in {"", "ASC", "DESC"}
    requires tail == [] || tail[0] == ','
    ensures DirectionPrefix(DirectionPart(direction) + tail) == (direction, |DirectionPart(direction)|)
  {
    if direction == "" {
      assert "" + tail == tail;
      assert SkipSpaces(tail, 0) == 0;
    } else {
      var t := " " + direction + tail;
      assert t == [' '] + (direction + tail);
      SpanOver([' '], direction + tail, Spaces);
      assert SkipSpaces(t, 0) == 1;
      assert t[1..1 + |direction|] == direction;
      if direction == "ASC" {
        assert WordAt(t, 1, "ASC");
      } else {
        assert t[1..4] == "DES";
        assert LowerChar('D') != LowerChar('A');
        assert !WordAt(t, 1, "ASC");
        assert WordAt(t, 1, "DESC");
      }
    }
  }

  lemma {:induction false} KeyExprSuffixOf(length: string, direction: string, tail: string)
    requires AllDigits(length) && direction in {"", "ASC", "DESC"}
    requires tail == [] || tail[0] == ','
    ensures var lenPart, dirPart := LengthPart(length), DirectionPart(direction);
            KeyExprSuffix(lenPart + dirPart + tail) == Some((length, direction, |lenPart| + |dirPart|))
  {
    var lenPart, dirPart := LengthPart(length), DirectionPart(direction);
    var afterLength := dirPart + tail;
    Associative(lenPart, dirPart, tail);
    SuffixStart("", direction, tail);
    LengthPrefixOf(length, afterLength);
    AppendParts(lenPart, afterLength);
    DirectionPrefixOf(direction, tail);
  }

  lemma {:induction false} SuffixStart(length: string, direction: string, tail: string)
    requires tail == [] || tail[0] == ','
    ensures var u := LengthPart(length) + DirectionPart(direction) + tail;
            u == [] || u[0] in {'(', ' ', ','}
    ensures length == "" ==> var u := DirectionPart(direction) + tail; u == [] || u[0] != '('
  {
    if length == "" {
      assert LengthPart(length) + DirectionPart(direction) + tail == DirectionPart(direction) + tail;
    }
  }

  lemma {:induction false} KeyExprPrefixOf(e: KeyExpr, iq: char, fq: char, tail: string)
    requires DistinctQuotes(iq, fq) && WellFormedKeyExpr(e, fq)
    requires tail == [] || tail[0] == ','
    ensures KeyExprPrefix(FormatKeyExpr(e, iq, fq) + tail, iq, fq)
            == Some((e, |FormatKeyExpr(e, iq, fq)|))
  {
    OpenedKeyExpr(e, iq, fq, tail);
  }

  /** A printed key expression opens with the initial quote, and what follows it is read back whole. */
  lemma {:induction false} OpenedKeyExpr(e: KeyExpr, iq: char, fq: char, tail: string)
    requires fq !in {',', '(', ' ', '\n'} && WellFormedKeyExpr(e, fq)
    requires tail == [] || tail[0] == ','
    ensures var t := FormatKeyExpr(e, iq, fq) + tail;
            && |t| > 0 && t[0] == iq
            && AfterOpenQuote(t[1..], fq) == Some((e, |FormatKeyExpr(e, iq, fq)| - 1))
  {
    FormatAfterOpen(e, iq, fq, tail);
    AfterOpenQuoteOf(e, fq, tail);
  }

  lemma {:induction false} FormatAfterOpen(e: KeyExpr, iq: char, fq: char, tail: string)
    ensures var t := FormatKeyExpr(e, iq, fq) + tail;
            |t| > 0 && t[0] == iq && t[1..] == e.name + [fq] + (SuffixPart(e) + tail)
    ensures |FormatKeyExpr(e, iq, fq)| == |e.name| + 2 + |SuffixPart(e)|
  {
    var w := e.name + [fq] + (SuffixPart(e) + tail);
    assert FormatKeyExpr(e, iq, fq) + tail == [iq] + w;
  }

  /** Past its opening quote, a printed key expression is read back whole. */
  lemma {:induction false} AfterOpenQuoteOf(e: KeyExpr, fq: char, tail: string)
    requires fq !in {',', '(', ' ', '\n'} && WellFormedKeyExpr(e, fq)
    requires tail == [] || tail[0] == ','
    ensures AfterOpenQuote(e.name + [fq] + (SuffixPart(e) + tail), fq)
            == Some((e, |e.name| + 1 + |SuffixPart(e)|))
  {
    var u := e.name + [fq] + (SuffixPart(e) + tail);
    NameCloses(e, fq, tail);
    SuffixAfterName(e, fq, tail);
    AfterNameCloses(u, fq, e.name, e.length, e.direction, |SuffixPart(e)|);
  }

  /** Past the name and its closing quote, a printed key expression's length and direction are read back. */
  lemma {:induction false} SuffixAfterName(e: KeyExpr, fq: char, tail: string)
    requires AllDigits(e.length) && e.direction in {"", "ASC", "DESC"}
    requires tail == [] || tail[0] == ','
    ensures var u := e.name + [fq] + (SuffixPart(e) + tail);
            && u[..|e.name|] == e.name
            && KeyExprSuffix(u[|e.name| + 1..]) == Some((e.length, e.direction, |SuffixPart(e)|))
  {
    AroundOne(e.name, fq, SuffixPart(e) + tail);
    KeyExprSuffixOf(e.length, e.direction, tail);
  }

  lemma {:induction false} AfterNameCloses(u: string, fq: char, name: string, length: string, direction: string, n: nat)
    requires 0 < |name| < |u| && u[..|name|] == name && CloseQuote(u, fq) == Some(|name|)
    requires KeyExprSuffix(u[|name| + 1..]) == Some((length, direction, n))
    ensures AfterOpenQuote(u, fq) == Some((KeyExpr(name, length, direction), |name| + 1 + n))
  {
  }

  /** The name of a printed key expression ends at its final quote. */
  lemma {:induction false} NameCloses(e: KeyExpr, fq: char, tail: string)
    requires fq !in {',', '(', ' ', '\n'} && Paired(e.name, fq)
    requires tail == [] || tail[0] == ','
    ensures CloseQuote(e.name + [fq] + (SuffixPart(e) + tail), fq) == Some(|e.name|)
  {
    var suffix := SuffixPart(e) + tail;
    SuffixStart(e.length, e.direction, tail);
    assert suffix == [] || suffix[0] != fq;
    CloseQuoteAfterPaired(e.name, fq, suffix);
  }

  /** A span that starts at `i` measures the same as one over the suffix `s[i..]`. */
  lemma {:induction false} SpanShift(s: string, i: nat, p: CharClass)
    requires i <= |s|
    ensures Span(s, i, p) == i + Span(s[i..], 0, p)
    decreases |s| - i
  {
    if i < |s| && InClass(s[i], p) {
      SpanShift(s, i + 1, p);
      SpanShift(s[i..], 1, p);
      assert s[i..][1..] == s[i + 1..];
    }
  }

  /** Printing well-formed key expressions and scanning them gives them back. */
  lemma {:induction false} KeyExprsRoundTrip(es: seq<KeyExpr>, iq: char, fq: char)
    requires DistinctQuotes(iq, fq)
    requires forall i :: 0 <= i < |es| ==> WellFormedKeyExpr(es[i], fq)
    ensures KeyExprs(FormatKeyExprs(es, iq, fq), iq, fq) == es
    decreases |es|
  {
    if es != [] {
      var tail := if |es| == 1 then "" else "," + FormatKeyExprs(es[1..], iq, fq);
      assert FormatKeyExprs(es, iq, fq) == FormatKeyExpr(es[0], iq, fq) + tail;
      KeyExprsCons(es[0], iq, fq, tail);
      KeyExprsRoundTrip(es[1..], iq, fq);
      if |es| == 1 {
        assert es == [es[0]];
      } else {
        ConsParts(',', FormatKeyExprs(es[1..], iq, fq));
      }
    }
  }

  /** A printed key expression followed by nothing or by a comma is read back, and the scan goes on after the comma. */
  lemma {:induction false} KeyExprsCons(e: KeyExpr, iq: char, fq: char, tail: string)
    requires DistinctQuotes(iq, fq) && WellFormedKeyExpr(e, fq)
    requires tail == [] || tail[0] == ','
    ensures KeyExprs(FormatKeyExpr(e, iq, fq) + tail, iq, fq) == [e] + KeyExprs(if tail == [] then [] else tail[1..], iq, fq)
  {
    var head := FormatKeyExpr(e, iq, fq);
    var s := head + tail;
    KeyExprPrefixOf(e, iq, fq, tail);
    assert s[|head|..] == tail;
    if tail != [] {
      assert KeyExprPrefix(tail, iq, fq) == None;
    }
  }
}
