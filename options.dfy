/**
 * The table-option line (`) ENGINE=InnoDB DEFAULT CHARSET=latin1 ...`).
 * Each option pattern is `(?P<directive>D)(?:\s*(?:=\s*)|\s+)(?P<val>V)`
 * compiled with `re.I`; D is the option's name and V depends on its kind.
 * This module holds the patterns in the order `_prep_regexes` registers
 * them, one pattern's `search` and `sub`, and the scan over all patterns
 * that `_parse_table_options` performs, as specification functions.
 */
module TableOptions {
  import opened Text
  import opened Scanners

  /** The value part V of an option pattern. */
  datatype ValueKind =
    | QuotedString     // '(?P<val>(?:[^']|'')*?)'(?!'), the value then unescaped
    | Word             // \w+
    | ParenList        // \([^\)]+\)             (UNION)
    | UpToStorageDisk  // .*? STORAGE DISK       (TABLESPACE)
    | RaidSpec         // \w+\s+RAID_CHUNKS\s*\=\s*\w+RAID_CHUNKSIZE\s*=\s*\w+   (RAID_TYPE)

  /** The table options the parser looks for, one pattern each. */
  datatype Directive =
    | Comment | DataDirectory | IndexDirectory | Password | Connection
    | Engine | Type | AutoIncrement | AvgRowLength | CharacterSet | DefaultCharset
    | Checksum | Collate | DelayKeyWrite | InsertMethod | MaxRows | MinRows
    | PackKeys | RowFormat | KeyBlockSize
    | Union | Tablespace | RaidType

  /** The directives D as the patterns spell them (matched with `re.I`), in the order of `Directive`. */
  const DirectiveNames: seq<string> :=
    ["COMMENT", "DATA DIRECTORY", "INDEX DIRECTORY", "PASSWORD",
     "CONNECTION", "ENGINE", "TYPE", "AUTO_INCREMENT",
     "AVG_ROW_LENGTH", "CHARACTER SET", "DEFAULT CHARSET", "CHECKSUM",
     "COLLATE", "DELAY_KEY_WRITE", "INSERT_METHOD", "MAX_ROWS",
     "MIN_ROWS", "PACK_KEYS", "ROW_FORMAT", "KEY_BLOCK_SIZE",
     "UNION", "TABLESPACE", "RAID_TYPE"]

  /** The position of a directive in the declaration of `Directive`. */
  function Ordinal(d: Directive): (n: nat)
    ensures n < |DirectiveNames|
  {
    match d
    case Comment => 0
    case DataDirectory => 1
    case IndexDirectory => 2
    case Password => 3
    case Connection => 4
    case Engine => 5
    case Type => 6
    case AutoIncrement => 7
    case AvgRowLength => 8
    case CharacterSet => 9
    case DefaultCharset => 10
    case Checksum => 11
    case Collate => 12
    case DelayKeyWrite => 13
    case InsertMethod => 14
    case MaxRows => 15
    case MinRows => 16
    case PackKeys => 17
    case RowFormat => 18
    case KeyBlockSize => 19
    case Union => 20
    case Tablespace => 21
    case RaidType => 22
  }

  /** The directive D as the pattern spells it. */
  function DirectiveName(d: Directive): (r: string)
    ensures |r| >= 4 && 'A' <= r[0] <= 'Z'
  {
    DirectiveNames[Ordinal(d)]
  }

  /** Which `_add_option_*` registered the directive, and so what its value looks like. */
  function KindOf(d: Directive): ValueKind {
    if d in StringOptions then QuotedString
    else if d == Union then ParenList
    else if d == Tablespace then UpToStorageDisk
    else if d == RaidType then RaidSpec
    else Word
  }

  /** `_options_of_type_string`, registered first with `_add_option_string`. */
  const StringOptions: seq<Directive> := [Comment, DataDirectory, IndexDirectory, Password, Connection]

  /** The options registered next, with `_add_option_word`. */
  const WordOptions: seq<Directive> :=
    [Engine, Type, AutoIncrement, AvgRowLength, CharacterSet, DefaultCharset, Checksum,
     Collate, DelayKeyWrite, InsertMethod, MaxRows, MinRows, PackKeys, RowFormat, KeyBlockSize]

  /** The options registered last, with `_add_option_regex`. */
  const RegexOptions: seq<Directive> := [Union, Tablespace, RaidType]

  /** `_pr_options` in registration order. */
  function OptionTable(): (t: seq<Directive>)
    ensures |t| == 23
  {
    StringOptions + WordOptions + RegexOptions
  }

  /** Each `_add_option_*` gives its directives the value kind `KindOf` records. */
  lemma {:induction false} RegistrationKinds()
    ensures forall d :: d in StringOptions ==> KindOf(d) == QuotedString
    ensures forall d :: d in WordOptions ==> KindOf(d) == Word
  {
  }

  /** `_add_option_regex` for UNION, TABLESPACE and RAID_TYPE registers the patterns of the last three options. */
  lemma {:induction false} RegexRegistration(regexes: seq<OptionPattern>)
    requires regexes == [OptionPattern("UNION", ParenList), OptionPattern("TABLESPACE", UpToStorageDisk),
                         OptionPattern("RAID_TYPE", RaidSpec)]
    ensures |regexes| == |RegexOptions| && forall j :: 0 <= j < |regexes| ==> regexes[j] == PatternOf(RegexOptions[j])
  {
    RegexOptionNames();
    assert PatternOf(Union) == regexes[0] && PatternOf(Tablespace) == regexes[1] && PatternOf(RaidType) == regexes[2];
  }

  /** The keys `_parse_table_options` drops before storing. */
  const Excluded: set<string> := {"auto_increment", "data directory", "index directory"}

  // ---------------------------------------------------------------------
  // One pattern
  // ---------------------------------------------------------------------

  /** Where a value was found: the bounds of the `val` group and the end of the whole match. */
  datatype Found = Found(valueStart: nat, valueEnd: nat, end: nat)

  /**
   * What the `val` group holds for each kind of value, and what may follow
   * the match: a body of single characters and doubled quotes between two
   * quotes, with no quote after the closing one; a longest run of word
   * characters; a parenthesised list with no `)` inside; text on one line
   * up to the first ` STORAGE DISK`; a RAID spec ending a run of word
   * characters.
   */
  predicate ValueShape(kind: ValueKind, s: string, f: Found)
    requires f.valueStart <= f.valueEnd <= f.end <= |s|
  {
    match kind
    case QuotedString => QuotedShape(s, f)
    case Word => WordShape(s, f)
    case ParenList => ParenShape(s, f)
    case UpToStorageDisk => DiskShape(s, f)
    case RaidSpec => RaidShape(s, f)
  }

  predicate QuotedShape(s: string, f: Found)
    requires f.valueStart <= f.valueEnd <= f.end <= |s|
  {
    && 0 < f.valueStart && s[f.valueStart - 1] == '\''
    && f.end == f.valueEnd + 1 && s[f.valueEnd] == '\''
    && Paired(s[f.valueStart..f.valueEnd], '\'') && (f.end == |s| || s[f.end] != '\'')
  }

  predicate WordShape(s: string, f: Found)
    requires f.valueStart <= f.valueEnd <= f.end <= |s|
  {
    && f.valueStart < f.valueEnd == f.end
    && (forall k :: f.valueStart <= k < f.valueEnd ==> IsWordChar(s[k]))
    && (f.end == |s| || !IsWordChar(s[f.end]))
  }

  predicate ParenShape(s: string, f: Found)
    requires f.valueStart <= f.valueEnd <= f.end <= |s|
  {
    && f.valueStart + 3 <= f.valueEnd == f.end
    && s[f.valueStart] == '(' && s[f.valueEnd - 1] == ')'
    && (forall k :: f.valueStart < k < f.valueEnd - 1 ==> s[k] != ')')
  }

  predicate DiskShape(s: string, f: Found)
    requires f.valueStart <= f.valueEnd <= f.end <= |s|
  {
    && f.valueStart + 13 <= f.valueEnd == f.end
    && FoldedAt(s, f.valueEnd - 13, DiskWord)
    && LazyDots(s, f.valueStart, f.valueEnd - 13)
  }

  predicate RaidShape(s: string, f: Found)
    requires f.valueStart <= f.valueEnd <= f.end <= |s|
  {
    && f.valueStart < f.valueEnd == f.end
    && IsWordChar(s[f.valueEnd - 1]) && (f.end == |s| || !IsWordChar(s[f.end]))
  }

  /** V matched at position `v`. */
  function ValueAt(kind: ValueKind, s: string, v: nat): (r: Option<Found>)
    requires v <= |s|
    ensures r.Some? ==> v <= r.value.valueStart <= r.value.valueEnd <= r.value.end <= |s|
    ensures r.Some? && kind != QuotedString ==> r.value.valueStart == v
    ensures r.Some? && kind == QuotedString ==> r.value.valueStart == v + 1
  {
    match kind
    case QuotedString => QuotedAt(s, v)
    case Word => WordRunAt(s, v)
    case ParenList => ParenListAt(s, v)
    case UpToStorageDisk => StorageDiskAt(s, v)
    case RaidSpec => RaidAt(s, v)
  }

  /** `'(?P<val>(?:[^']|'')*?)'(?!')` at `v`: the lazy loop stops at the first lone quote. */
  function QuotedAt(s: string, v: nat): (r: Option<Found>)
    requires v <= |s|
    ensures r.Some? ==> r.value.valueStart == v + 1 && r.value.valueStart <= r.value.valueEnd <= r.value.end <= |s|
    ensures r.Some? ==> QuotedShape(s, r.value)
  {
    if v < |s| && s[v] == '\'' then
      match CloseQuote(s[v + 1..], '\'')
      case Some(c) =>
        CloseQuotePaired(s[v + 1..], '\'');
        assert s[v + 1..v + 1 + c] == s[v + 1..][..c];
        Some(Found(v + 1, v + 1 + c, v + 2 + c))
      case None => None
    else None
  }

  /** `\w+` at `v`. */
  function WordRunAt(s: string, v: nat): (r: Option<Found>)
    requires v <= |s|
    ensures r.Some? ==> r.value.valueStart == v && r.value.valueStart <= r.value.valueEnd <= r.value.end <= |s|
    ensures r.Some? ==> WordShape(s, r.value)
  {
    var e := WordEnd(s, v);
    if e > v then Some(Found(v, e, e)) else None
  }

  /** `\([^\)]+\)` at `v`. */
  function ParenListAt(s: string, v: nat): (r: Option<Found>)
    requires v <= |s|
    ensures r.Some? ==> r.value.valueStart == v && r.value.valueStart <= r.value.valueEnd <= r.value.end <= |s|
    ensures r.Some? ==> ParenShape(s, r.value)
  {
    if v < |s| && s[v] == '(' then
      var e := Span(s, v + 1, NotCloseParen);
      if e > v + 1 && e < |s| then Some(Found(v, e + 1, e + 1)) else None
    else None
  }

  /** `.*? STORAGE DISK` at `v`. */
  function StorageDiskAt(s: string, v: nat): (r: Option<Found>)
    requires v <= |s|
    ensures r.Some? ==> r.value.valueStart == v && r.value.valueStart <= r.value.valueEnd <= r.value.end <= |s|
    ensures r.Some? ==> DiskShape(s, r.value)
  {
    match StorageDiskFrom(s, v)
    case Some(k) =>
      var f := Found(v, k + 13, k + 13);
      assert f.valueEnd - 13 == k;
      Some(f)
    case None => None
  }

  /**
   * `.*? STORAGE DISK` from `k`: the first ` STORAGE DISK` (in any case) at
   * or after `k` with no line break before it, since `.` does not cross one.
   */
  function StorageDiskFrom(s: string, k: nat): (r: Option<nat>)
    requires k <= |s|
    ensures r.Some? ==> k <= r.value && r.value + 13 <= |s| && FoldedAt(s, r.value, DiskWord)
    ensures r.Some? ==> LazyDots(s, k, r.value)
    decreases |s| - k
  {
    FoldedAtIff(s, k, DiskWord);
    if WordAt(s, k, DiskWord) then Some(k)
    else if k < |s| && s[k] != '\n' then StorageDiskFrom(s, k + 1)
    else None
  }

  /** The words that end the TABLESPACE value. */
  const DiskWord: string := " STORAGE DISK"

  /**
   * The lazy `.*?` can run from `a` to `b`: every character in between is
   * on the same line, and none of them starts ` STORAGE DISK` (in any case).
   */
  predicate LazyDots(s: string, a: nat, b: nat)
    decreases b - a
  {
    a >= b || (a < |s| && s[a] != '\n' && !FoldedAt(s, a, DiskWord) && LazyDots(s, a + 1, b))
  }

  lemma {:induction false} LazyDotsAt(s: string, a: nat, b: nat)
    requires b <= |s|
    ensures LazyDots(s, a, b) <==>
            (forall k :: a <= k < b ==> s[k] != '\n') && (forall k :: a <= k < b ==> !WordAt(s, k, DiskWord))
    decreases b - a
  {
    if a < b {
      FoldedAtIff(s, a, DiskWord);
      LazyDotsAt(s, a + 1, b);
    }
  }

  /**
   * The RAID_TYPE value. Every `\w+` and `\s+` here is followed by a
   * character outside its class, except the `\w+` before `RAID_CHUNKSIZE`:
   * it backs off until `RAID_CHUNKSIZE` ends its word run, because a `=`
   * or whitespace must follow.
   */
  function RaidAt(s: string, v: nat): (r: Option<Found>)
    requires v <= |s|
    ensures r.Some? ==> v == r.value.valueStart <= r.value.valueEnd <= r.value.end <= |s|
    ensures r.Some? ==> RaidShape(s, r.value)
  {
    var e1 := WordEnd(s, v);
    var e2 := SkipWhitespace(s, e1);
    if e1 == v || e2 == e1 || !WordAt(s, e2, "RAID_CHUNKS") then None
    else
      var a := SkipWhitespace(s, e2 + 11);
      if a == |s| || s[a] != '=' then None
      else
        var b := SkipWhitespace(s, a + 1);
        var e3 := WordEnd(s, b);
        if e3 < b + 15 || !WordAt(s, e3 - 14, "RAID_CHUNKSIZE") then None
        else
          var c := SkipWhitespace(s, e3);
          if c == |s| || s[c] != '=' then None
          else
            var d := SkipWhitespace(s, c + 1);
            var e4 := WordEnd(s, d);
            if e4 == d then None else Some(Found(v, e4, e4))
  }

  /**
   * The separator `(?:\s*(?:=\s*)|\s+)` after a directive that ends at `j`,
   * then V. The first branch needs `=` right after the greedy `\s*` (a
   * shorter `\s*` leaves a whitespace character where `=` is needed); the
   * `\s*` after `=`, and the `\s+` of the second branch, give characters
   * back one at a time while V fails.
   */
  function SeparatorThenValue(kind: ValueKind, s: string, j: nat): (r: Option<Found>)
    requires j <= |s|
    ensures r.Some? ==> j < r.value.valueStart <= r.value.valueEnd <= r.value.end <= |s|
  {
    var q := SkipWhitespace(s, j);
    var afterEquals :=
      if q < |s| && s[q] == '=' then ValueBackingOff(kind, s, SkipWhitespace(s, q + 1), q + 1) else None;
    if afterEquals.Some? then afterEquals
    else if q > j then ValueBackingOff(kind, s, q, j + 1)
    else None
  }

  /** V tried at `v`, then at `v - 1`, and so on down to `lo`. */
  function ValueBackingOff(kind: ValueKind, s: string, v: nat, lo: nat): (r: Option<Found>)
    requires lo <= v <= |s|
    ensures r.Some? ==> lo <= r.value.valueStart <= r.value.valueEnd <= r.value.end <= |s|
    decreases v
  {
    match ValueAt(kind, s, v)
    case Some(f) => Some(f)
    case None => if v > lo then ValueBackingOff(kind, s, v - 1, lo) else None
  }

  /** A match of an option pattern: where it starts and ends, and its two groups. */
  datatype OptionMatch = OptionMatch(start: nat, directive: string, value: string, end: nat)

  /** One option pattern: its directive and the kind of its value. */
  datatype OptionPattern = OptionPattern(name: string, kind: ValueKind)

  function PatternOf(d: Directive): (p: OptionPattern)
    ensures p.name == DirectiveName(d) && p.kind == KindOf(d)
  {
    OptionPattern(DirectiveName(d), KindOf(d))
  }

  /** Where the directive, the separator and V match at position `i`. */
  function FoundAt(p: OptionPattern, s: string, i: nat): (r: Option<Found>)
    requires i <= |s|
    ensures r.Some? ==> i + |p.name| < r.value.valueStart <= r.value.valueEnd <= r.value.end <= |s|
    ensures r.Some? ==> WordAt(s, i, p.name)
  {
    if WordAt(s, i, p.name) then SeparatorThenValue(p.kind, s, i + |p.name|) else None
  }

  /** The pattern matched at position `i` (the directive compared with `re.I`). */
  function MatchAt(p: OptionPattern, s: string, i: nat): (r: Option<OptionMatch>)
    requires i <= |s|
    ensures r.Some? ==> r.value.start == i < r.value.end <= |s|
    ensures r.Some? ==> EqualsIgnoreCase(r.value.directive, p.name)
    ensures r.Some? <==> FoundAt(p, s, i).Some?
    ensures r.Some? ==> var f := FoundAt(p, s, i).value;
                        r.value.value == s[f.valueStart..f.valueEnd] && r.value.end == f.end
  {
    match FoundAt(p, s, i)
    case None => None
    case Some(f) => Some(OptionMatch(i, s[i..i + |p.name|], s[f.valueStart..f.valueEnd], f.end))
  }

  /**
   * The value group of a match has the shape its kind of value requires,
   * and so has what follows the match.
   */
  lemma {:induction false} MatchShape(p: OptionPattern, s: string, i: nat)
    requires i <= |s| && MatchAt(p, s, i).Some?
    ensures ValueShape(p.kind, s, FoundAt(p, s, i).value)
  {
    SeparatorShape(p.kind, s, i + |p.name|);
  }

  lemma {:induction false} SeparatorShape(kind: ValueKind, s: string, j: nat)
    requires j <= |s| && SeparatorThenValue(kind, s, j).Some?
    ensures ValueShape(kind, s, SeparatorThenValue(kind, s, j).value)
  {
    var q := SkipWhitespace(s, j);
    if q < |s| && s[q] == '=' && ValueBackingOff(kind, s, SkipWhitespace(s, q + 1), q + 1).Some? {
      BackingOffShape(kind, s, SkipWhitespace(s, q + 1), q + 1);
    } else {
      BackingOffShape(kind, s, q, j + 1);
    }
  }

  lemma {:induction false} BackingOffShape(kind: ValueKind, s: string, v: nat, lo: nat)
    requires lo <= v <= |s| && ValueBackingOff(kind, s, v, lo).Some?
    ensures ValueShape(kind, s, ValueBackingOff(kind, s, v, lo).value)
    decreases v
  {
    if ValueAt(kind, s, v).Some? {
      ValueAtShape(kind, s, v);
    } else {
      BackingOffShape(kind, s, v - 1, lo);
    }
  }

  lemma {:induction false} ValueAtShape(kind: ValueKind, s: string, v: nat)
    requires v <= |s| && ValueAt(kind, s, v).Some?
    ensures ValueShape(kind, s, ValueAt(kind, s, v).value)
  {
    match kind
    case QuotedString =>
    case Word =>
    case ParenList =>
    case UpToStorageDisk =>
    case RaidSpec =>
  }

  /** `regex.search(s[i:])` in positions of `s`: the leftmost match at or after `i`. */
  function SearchFrom(p: OptionPattern, s: string, i: nat): (r: Option<OptionMatch>)
    requires i <= |s|
    ensures r.Some? ==> i <= r.value.start < r.value.end <= |s|
    ensures r.Some? ==> EqualsIgnoreCase(r.value.directive, p.name)
    ensures r.Some? ==> MatchAt(p, s, r.value.start) == r
    ensures r.Some? ==> NoMatchIn(p, s, i, r.value.start)
    ensures r.None? ==> NoMatchIn(p, s, i, |s| + 1)
    decreases |s| - i
  {
    match MatchAt(p, s, i)
    case Some(m) => Some(m)
    case None => if i < |s| then SearchFrom(p, s, i + 1) else None
  }

  /** No match of the pattern starts at a position from `a` up to, not including, `b`. */
  predicate NoMatchIn(p: OptionPattern, s: string, a: nat, b: nat)
    decreases b - a
  {
    a >= b || a > |s| || (MatchAt(p, s, a).None? && NoMatchIn(p, s, a + 1, b))
  }

  lemma {:induction false} NoMatchInAt(p: OptionPattern, s: string, a: nat, b: nat)
    requires b <= |s| + 1
    ensures NoMatchIn(p, s, a, b) <==> forall k :: a <= k < b ==> MatchAt(p, s, k).None?
    decreases b - a
  {
    if a < b {
      NoMatchInAt(p, s, a + 1, b);
    }
  }

  /** `search` finds the leftmost match, and finds none only when no position holds one. */
  lemma {:induction false} SearchLeftmost(p: OptionPattern, s: string, i: nat)
    requires i <= |s|
    ensures var r := SearchFrom(p, s, i);
            && (r.Some? ==> MatchAt(p, s, r.value.start) == r && forall k :: i <= k < r.value.start ==> MatchAt(p, s, k).None?)
            && (r.None? ==> forall k :: i <= k <= |s| ==> MatchAt(p, s, k).None?)
  {
    var r := SearchFrom(p, s, i);
    if r.Some? {
      NoMatchInAt(p, s, i, r.value.start);
    } else {
      NoMatchInAt(p, s, i, |s| + 1);
    }
  }

  function Search(p: OptionPattern, s: string): Option<OptionMatch> {
    SearchFrom(p, s, 0)
  }

  /** `regex.sub("", s[i:])`: every match, left to right and not overlapping, removed. */
  function SubFrom(p: OptionPattern, s: string, i: nat): (r: string)
    requires i <= |s|
    ensures |r| <= |s| - i
    decreases |s| - i
  {
    match SearchFrom(p, s, i)
    case None => s[i..]
    case Some(m) => s[i..m.start] + SubFrom(p, s, m.end)
  }

  function Sub(p: OptionPattern, s: string): (r: string)
    ensures |r| <= |s|
  {
    SubFrom(p, s, 0)
  }

  /** Substitution leaves the text alone exactly when the pattern does not occur in it. */
  lemma {:induction false} SubChangesIffMatch(p: OptionPattern, s: string, i: nat)
    requires i <= |s|
    ensures SubFrom(p, s, i) == s[i..] <==> SearchFrom(p, s, i).None?
  {
    match SearchFrom(p, s, i)
    case None =>
    case Some(m) =>
      assert |SubFrom(p, s, i)| <= (m.start - i) + (|s| - m.end);
  }

  /** The cleanup `_add_option_string` registers: `\\` to `\`, then `''` to `'`. */
  function Cleanup(kind: ValueKind, v: string): string {
    if kind == QuotedString then UnescapeString(v) else v
  }

  // ---------------------------------------------------------------------
  // Round trips of one option
  // ---------------------------------------------------------------------

  /**
   * A string option written as `D='escaped value'` is found where it
   * starts, its directive as written and its value the escaped text
   * between the quotes, which the cleanup turns back into the value.
   */
  lemma {:induction false} StringOptionRoundTrip(p: OptionPattern, v: string, rest: string)
    requires p.kind == QuotedString
    requires rest == [] || rest[0] != '\''
    ensures var raw := EscapeString(v);
            Search(p, p.name + "='" + raw + "'" + rest) == Some(OptionMatch(0, p.name, raw, |p.name| + 3 + |raw|))
            && Cleanup(p.kind, raw) == v
  {
    EscapeStringPaired(v);
    StringOptionSearch(p, EscapeString(v), rest);
    UnescapeEscapeString(v);
  }

  /** `D='raw'` with the quotes of `raw` paired is found where it starts, its value `raw`. */
  lemma {:induction false} StringOptionSearch(p: OptionPattern, raw: string, rest: string)
    requires p.kind == QuotedString
    requires Paired(raw, '\'') && (rest == [] || rest[0] != '\'')
    ensures Search(p, p.name + "='" + raw + "'" + rest) == Some(OptionMatch(0, p.name, raw, |p.name| + 3 + |raw|))
  {
    var s := p.name + "='" + raw + "'" + rest;
    StringLineAtStart(p.name, raw, rest, s);
    StringSearchAtStart(p, s, raw, rest);
  }

  lemma {:induction false} StringLineAtStart(name: string, raw: string, rest: string, s: string)
    requires s == name + "='" + raw + "'" + rest
    ensures && |s| >= |name| + 2
            && s[0..|name|] == name
            && s[|name|] == '=' && s[|name| + 1] == '\''
            && s[|name| + 2..] == raw + ['\''] + rest
            && s[|name| + 2..|name| + 2 + |raw|] == raw
  {
    assert s == "" + name + "='" + raw + "'" + rest by {
      assert "" + name == name;
    }
    StringLineShape("", name, raw, rest, s);
  }

  lemma {:induction false} StringSearchAtStart(p: OptionPattern, s: string, raw: string, rest: string)
    requires p.kind == QuotedString
    requires Paired(raw, '\'') && (rest == [] || rest[0] != '\'')
    requires |s| >= |p.name| + 2
    requires s[0..|p.name|] == p.name
    requires s[|p.name|] == '=' && s[|p.name| + 1] == '\''
    requires s[|p.name| + 2..] == raw + ['\''] + rest
    requires s[|p.name| + 2..|p.name| + 2 + |raw|] == raw
    ensures Search(p, s) == Some(OptionMatch(0, p.name, raw, |p.name| + 3 + |raw|))
  {
    StringOptionAt(p, s, 0, raw, rest);
    SearchAtStart(p, s, OptionMatch(0, p.name, raw, |p.name| + 3 + |raw|));
  }

  lemma {:induction false} StringLineShape(lead: string, name: string, raw: string, rest: string, s: string)
    requires s == lead + name + "='" + raw + "'" + rest
    ensures var i := |lead|;
            && |s| >= i + |name| + 2
            && s[i..i + |name|] == name
            && s[i + |name|] == '=' && s[i + |name| + 1] == '\''
            && s[i + |name| + 2..] == raw + ['\''] + rest
            && s[i + |name| + 2..i + |name| + 2 + |raw|] == raw
  {
    var i := |lead|;
    assert s == lead + name + ("='" + raw + "'" + rest);
    assert s[i + |name| + 2..] == raw + ['\''] + rest;
  }

  /** A match at the very start is the match `search` returns. */
  lemma {:induction false} SearchAtStart(p: OptionPattern, s: string, m: OptionMatch)
    requires MatchAt(p, s, 0) == Some(m)
    ensures Search(p, s) == Some(m)
  {
  }

  lemma {:induction false} StringOptionAt(p: OptionPattern, s: string, i: nat, raw: string, rest: string)
    requires p.kind == QuotedString
    requires Paired(raw, '\'') && (rest == [] || rest[0] != '\'')
    requires |s| >= i + |p.name| + 2
    requires s[i..i + |p.name|] == p.name
    requires s[i + |p.name|] == '=' && s[i + |p.name| + 1] == '\''
    requires s[i + |p.name| + 2..] == raw + ['\''] + rest
    requires s[i + |p.name| + 2..i + |p.name| + 2 + |raw|] == raw
    ensures MatchAt(p, s, i) == Some(OptionMatch(i, p.name, raw, i + |p.name| + 3 + |raw|))
  {
    WordAtSelf(s, i, p.name);
    StringFoundAt(p, s, i, raw, rest);
    MatchIs(p, s, i, Found(i + |p.name| + 2, i + |p.name| + 2 + |raw|, i + |p.name| + 3 + |raw|), p.name, raw);
  }

  /** The match built from where the directive, the separator and V were found. */
  lemma {:induction false} MatchIs(p: OptionPattern, s: string, i: nat, f: Found, directive: string, value: string)
    requires i <= |s| && FoundAt(p, s, i) == Some(f)
    requires i + |p.name| <= |s| && s[i..i + |p.name|] == directive
    requires f.valueStart <= f.valueEnd <= |s| && s[f.valueStart..f.valueEnd] == value
    ensures MatchAt(p, s, i) == Some(OptionMatch(i, directive, value, f.end))
  {
  }

  lemma {:induction false} StringFoundAt(p: OptionPattern, s: string, i: nat, raw: string, rest: string)
    requires p.kind == QuotedString
    requires Paired(raw, '\'') && (rest == [] || rest[0] != '\'')
    requires |s| >= i + |p.name| + 2
    requires WordAt(s, i, p.name)
    requires s[i + |p.name|] == '=' && s[i + |p.name| + 1] == '\''
    requires s[i + |p.name| + 2..] == raw + ['\''] + rest
    ensures FoundAt(p, s, i) == Some(Found(i + |p.name| + 2, i + |p.name| + 2 + |raw|, i + |p.name| + 3 + |raw|))
  {
    QuotedAfterEquals(s, i + |p.name|, raw, rest);
    FoundAtOf(p, s, i, Found(i + |p.name| + 2, i + |p.name| + 2 + |raw|, i + |p.name| + 3 + |raw|));
  }

  /** `='raw'` at `j`, the quotes of `raw` paired: the separator is `=` and the value is `raw`. */
  lemma {:induction false} QuotedAfterEquals(s: string, j: nat, raw: string, rest: string)
    requires Paired(raw, '\'') && (rest == [] || rest[0] != '\'')
    requires j + 1 < |s| && s[j] == '=' && s[j + 1] == '\''
    requires s[j + 2..] == raw + ['\''] + rest
    ensures SeparatorThenValue(QuotedString, s, j) == Some(Found(j + 2, j + 2 + |raw|, j + 3 + |raw|))
  {
    var f := Found(j + 2, j + 2 + |raw|, j + 3 + |raw|);
    QuotedValueAt(s, j + 1, raw, rest);
    EqualsThenQuoted(s, j, f);
  }

  lemma {:induction false} FoundAtOf(p: OptionPattern, s: string, i: nat, f: Found)
    requires WordAt(s, i, p.name) && SeparatorThenValue(p.kind, s, i + |p.name|) == Some(f)
    ensures FoundAt(p, s, i) == Some(f)
  {
  }

  lemma {:induction false} WordAtSelf(s: string, i: nat, w: string)
    requires i + |w| <= |s| && s[i..i + |w|] == w
    ensures WordAt(s, i, w)
  {
  }

  /** `=` with no blank after it, then a value: the value is taken right after the `=`. */
  lemma {:induction false} EqualsThenQuoted(s: string, j: nat, f: Found)
    requires j + 1 < |s| && s[j] == '=' && s[j + 1] == '\''
    requires ValueAt(QuotedString, s, j + 1) == Some(f)
    ensures SeparatorThenValue(QuotedString, s, j) == Some(f)
  {
    SpanIs(s, j, j, Whitespace);
    SpanIs(s, j + 1, j + 1, Whitespace);
  }

  /** A quote, a body of paired quotes and a lone closing quote: the body is the quoted value. */
  lemma {:induction false} QuotedValueAt(s: string, v: nat, raw: string, rest: string)
    requires v < |s| && s[v] == '\'' && s[v + 1..] == raw + ['\''] + rest
    requires Paired(raw, '\'') && (rest == [] || rest[0] != '\'')
    ensures ValueAt(QuotedString, s, v) == Some(Found(v + 1, v + 1 + |raw|, v + 2 + |raw|))
  {
    CloseQuoteAfterPaired(raw, '\'', rest);
  }

  /** A word option written as `D=value` is found where it starts, with that value. */
  lemma {:induction false} WordOptionRoundTrip(p: OptionPattern, w: string, rest: string)
    requires p.kind == Word
    requires w != [] && forall k :: 0 <= k < |w| ==> IsWordChar(w[k])
    requires rest == [] || !IsWordChar(rest[0])
    ensures Search(p, p.name + "=" + w + rest) == Some(OptionMatch(0, p.name, w, |p.name| + 1 + |w|))
  {
    var s := p.name + "=" + w + rest;
    WordLineAtStart(p.name, w, rest, s);
    WordSearchAtStart(p, s, w);
  }

  lemma {:induction false} WordLineAtStart(name: string, w: string, rest: string, s: string)
    requires s == name + "=" + w + rest
    requires forall k :: 0 <= k < |w| ==> IsWordChar(w[k])
    requires rest == [] || !IsWordChar(rest[0])
    ensures && |s| >= |name| + 1 + |w|
            && s[0..|name|] == name && s[|name|] == '='
            && s[|name| + 1..|name| + 1 + |w|] == w
            && (forall k :: |name| + 1 <= k < |name| + 1 + |w| ==> IsWordChar(s[k]))
            && (|name| + 1 + |w| == |s| || !IsWordChar(s[|name| + 1 + |w|]))
  {
    assert s == "" + name + "=" + w + rest by {
      assert "" + name == name;
    }
    WordLineShape("", name, w, rest, s);
  }

  lemma {:induction false} WordSearchAtStart(p: OptionPattern, s: string, w: string)
    requires p.kind == Word
    requires w != [] && |s| >= |p.name| + 1 + |w|
    requires s[0..|p.name|] == p.name && s[|p.name|] == '='
    requires s[|p.name| + 1..|p.name| + 1 + |w|] == w
    requires forall k :: |p.name| + 1 <= k < |p.name| + 1 + |w| ==> IsWordChar(s[k])
    requires |p.name| + 1 + |w| == |s| || !IsWordChar(s[|p.name| + 1 + |w|])
    ensures Search(p, s) == Some(OptionMatch(0, p.name, w, |p.name| + 1 + |w|))
  {
    WordOptionAt(p, s, 0, w);
    SearchAtStart(p, s, OptionMatch(0, p.name, w, |p.name| + 1 + |w|));
  }

  lemma {:induction false} WordLineShape(lead: string, name: string, w: string, rest: string, s: string)
    requires s == lead + name + "=" + w + rest
    requires forall k :: 0 <= k < |w| ==> IsWordChar(w[k])
    requires rest == [] || !IsWordChar(rest[0])
    ensures var i := |lead| + |name|;
            && |s| >= i + 1 + |w|
            && s[|lead|..i] == name && s[i] == '='
            && s[i + 1..i + 1 + |w|] == w
            && (forall k :: i + 1 <= k < i + 1 + |w| ==> IsWordChar(s[k]))
            && (i + 1 + |w| == |s| || !IsWordChar(s[i + 1 + |w|]))
  {
    var i := |lead| + |name|;
    assert s == (lead + name) + "=" + w + rest;
    assert forall k :: i + 1 <= k < i + 1 + |w| ==> s[k] == w[k - i - 1];
    assert i + 1 + |w| == |s| || s[i + 1 + |w|] == rest[0];
  }

  lemma {:induction false} WordOptionAt(p: OptionPattern, s: string, i: nat, w: string)
    requires p.kind == Word
    requires w != [] && |s| >= i + |p.name| + 1 + |w|
    requires s[i..i + |p.name|] == p.name && s[i + |p.name|] == '='
    requires s[i + |p.name| + 1..i + |p.name| + 1 + |w|] == w
    requires forall k :: i + |p.name| + 1 <= k < i + |p.name| + 1 + |w| ==> IsWordChar(s[k])
    requires i + |p.name| + 1 + |w| == |s| || !IsWordChar(s[i + |p.name| + 1 + |w|])
    ensures MatchAt(p, s, i) == Some(OptionMatch(i, p.name, w, i + |p.name| + 1 + |w|))
  {
    WordFoundAt(p, s, i, w);
    MatchIs(p, s, i, Found(i + |p.name| + 1, i + |p.name| + 1 + |w|, i + |p.name| + 1 + |w|), p.name, w);
  }

  lemma {:induction false} WordFoundAt(p: OptionPattern, s: string, i: nat, w: string)
    requires p.kind == Word
    requires w != [] && |s| >= i + |p.name| + 1 + |w|
    requires s[i..i + |p.name|] == p.name && s[i + |p.name|] == '='
    requires forall k :: i + |p.name| + 1 <= k < i + |p.name| + 1 + |w| ==> IsWordChar(s[k])
    requires i + |p.name| + 1 + |w| == |s| || !IsWordChar(s[i + |p.name| + 1 + |w|])
    ensures FoundAt(p, s, i) == Some(Found(i + |p.name| + 1, i + |p.name| + 1 + |w|, i + |p.name| + 1 + |w|))
  {
    WordAtSelf(s, i, p.name);
    WordAfterEquals(s, i + |p.name|, w);
    FoundAtOf(p, s, i, Found(i + |p.name| + 1, i + |p.name| + 1 + |w|, i + |p.name| + 1 + |w|));
  }

  /** `=value` at `j`, the value a longest run of word characters: the separator is `=` and the value is that run. */
  lemma {:induction false} WordAfterEquals(s: string, j: nat, w: string)
    requires w != [] && j + 1 + |w| <= |s| && s[j] == '='
    requires forall k :: j + 1 <= k < j + 1 + |w| ==> IsWordChar(s[k])
    requires j + 1 + |w| == |s| || !IsWordChar(s[j + 1 + |w|])
    ensures SeparatorThenValue(Word, s, j) == Some(Found(j + 1, j + 1 + |w|, j + 1 + |w|))
  {
    SpanIs(s, j + 1, j + 1 + |w|, WordChars);
    assert SkipWhitespace(s, j) == j;
    assert IsWordChar(s[j + 1]);
    assert SkipWhitespace(s, j + 1) == j + 1;
  }

  // ---------------------------------------------------------------------
  // The scan of `_parse_table_options`
  // ---------------------------------------------------------------------

  /**
   * The loop over the option patterns: a pattern that is found stores its
   * cleaned value under its lowercased directive, and all its matches are
   * removed from the text before the next pattern is tried.
   */
  function ScanOptions(pats: seq<Directive>, rest: string, found: map<string, string>): map<string, string> {
    ScanWith(PatternSearch, PatternSub, pats, rest, found)
  }

  /** The same loop for any search and substitution. */
  function ScanWith(search: (Directive, string) -> Option<OptionMatch>, sub: (Directive, string) -> string,
                    pats: seq<Directive>, rest: string, found: map<string, string>): (r: map<string, string>)
    ensures found.Keys <= r.Keys
    decreases |pats|
  {
    if pats == [] then found
    else
      match search(pats[0], rest)
      case None => ScanWith(search, sub, pats[1..], rest, found)
      case Some(m) =>
        ScanWith(search, sub, pats[1..], sub(pats[0], rest), found[Lower(m.directive) := Cleanup(KindOf(pats[0]), m.value)])
  }

  /** The `search` and the `sub` of a registered pattern. */
  function PatternSearch(d: Directive, s: string): Option<OptionMatch> {
    Search(PatternOf(d), s)
  }

  function PatternSub(d: Directive, s: string): string {
    Sub(PatternOf(d), s)
  }

  /** The options of one line, before the dialect prefix: none for an empty line or a bare `)`. */
  function OptionsOf(pats: seq<Directive>, line: string): (r: map<string, string>)
    ensures line == "" || line == ")" ==> r == map[]
    ensures forall key :: key in r ==> key !in Excluded
  {
    var scanned := if line == "" || line == ")" then map[] else ScanOptions(pats, line, map[]);
    scanned - Excluded
  }

  /** The keys `"%s_%s" % (dialect name, option)` for the given options. */
  function PrefixedKeys(prefix: string, keys: set<string>): set<string> {
    set x | x in keys :: prefix + x
  }

  /** A prefixed key is the prefix followed by one of the keys. */
  lemma {:induction false} PrefixedKeyParts(prefix: string, keys: set<string>, key: string)
    requires key in PrefixedKeys(prefix, keys)
    ensures |prefix| <= |key| && key == prefix + key[|prefix|..] && key[|prefix|..] in keys
  {
    var x :| x in keys && key == prefix + x;
    assert key[|prefix|..] == x;
  }

  /** The entries `_parse_table_options` writes into the table options. */
  function PrefixedOptions(dialectName: string, options: map<string, string>): map<string, string> {
    var prefix := dialectName + "_";
    map key | key in PrefixedKeys(prefix, options.Keys) :: PrefixedKeyParts(prefix, options.Keys, key); options[key[|prefix|..]]
  }

  /** Every option is stored under the dialect's name, `_` and its own key, with its own value. */
  lemma {:induction false} PrefixedLookup(dialectName: string, options: map<string, string>, x: string)
    requires x in options
    ensures dialectName + "_" + x in PrefixedOptions(dialectName, options)
    ensures PrefixedOptions(dialectName, options)[dialectName + "_" + x] == options[x]
  {
    var prefix := dialectName + "_";
    assert (prefix + x)[|prefix|..] == x;
    assert prefix + x in PrefixedKeys(prefix, options.Keys);
  }

  /** Storing one more option adds exactly its prefixed entry. */
  lemma {:induction false} PrefixedInsert(dialectName: string, options: map<string, string>, k: string, v: string)
    ensures PrefixedOptions(dialectName, options[k := v]) == PrefixedOptions(dialectName, options)[dialectName + "_" + k := v]
  {
    var prefix := dialectName + "_";
    var a := PrefixedOptions(dialectName, options[k := v]);
    var b := PrefixedOptions(dialectName, options)[prefix + k := v];
    assert (prefix + k)[|prefix|..] == k;
    assert prefix + k in PrefixedKeys(prefix, options[k := v].Keys);
    forall key | key in a
      ensures key in b && a[key] == b[key]
    {
      if key != prefix + k {
        assert key in PrefixedKeys(prefix, options.Keys);
      }
    }
    forall key | key in b
      ensures key in a
    {
    }
  }

  /** Every key the scan stores is the lowercased directive of one of the patterns. */
  lemma {:induction false} ScanKeys(pats: seq<Directive>, rest: string, found: map<string, string>)
    ensures forall k :: k in ScanOptions(pats, rest, found) ==>
              k in found || exists d :: d in pats && k == Lower(DirectiveName(d))
  {
    PatternsSound();
    ScanWithKeys(PatternSearch, PatternSub, pats, rest, found);
  }

  lemma {:induction false} ScanWithKeys(search: (Directive, string) -> Option<OptionMatch>, sub: (Directive, string) -> string,
                                        pats: seq<Directive>, rest: string, found: map<string, string>)
    requires ScanSound(search, sub)
    ensures forall k :: k in ScanWith(search, sub, pats, rest, found) ==>
              k in found || exists d :: d in pats && k == Lower(DirectiveName(d))
    decreases |pats|
  {
    if pats != [] {
      match search(pats[0], rest)
      case None =>
        ScanWithKeys(search, sub, pats[1..], rest, found);
      case Some(m) =>
        var found' := found[Lower(m.directive) := Cleanup(KindOf(pats[0]), m.value)];
        ScanWithKeys(search, sub, pats[1..], sub(pats[0], rest), found');
        LowerIgnoringCase(m.directive, DirectiveName(pats[0]));
    }
  }

  /** A line too short to hold any directive yields nothing. */
  lemma {:induction false} NoRoomNoOptions(pats: seq<Directive>, rest: string, found: map<string, string>)
    requires forall i :: 0 <= i < |pats| ==> |DirectiveName(pats[i])| > |rest|
    ensures ScanOptions(pats, rest, found) == found
    decreases |pats|
  {
    if pats != [] {
      NoRoomNoMatch(PatternOf(pats[0]), rest, 0);
      NoRoomNoOptions(pats[1..], rest, found);
    }
  }

  lemma {:induction false} NoRoomNoMatch(p: OptionPattern, s: string, i: nat)
    requires i <= |s| < |p.name|
    ensures SearchFrom(p, s, i).None?
    decreases |s| - i
  {
    if i < |s| {
      NoRoomNoMatch(p, s, i + 1);
    }
  }

  /**
   * The options `_parse_table_options` stores for one line: nothing for an
   * empty line or a bare `)`, never an excluded key, and otherwise only
   * keys made of the dialect's name, `_` and a lowercased directive.
   */
  function TableOptionsOf(dialectName: string, line: string): (r: map<string, string>)
    ensures line == "" || line == ")" ==> r == map[]
    ensures forall x :: x in Excluded ==> dialectName + "_" + x !in r
    ensures forall key :: key in r ==>
              exists d :: d in OptionTable() && key == dialectName + "_" + Lower(DirectiveName(d))
  {
    var options := OptionsOf(OptionTable(), line);
    PrefixedAbsent(dialectName, options, Excluded);
    StoredKeys(dialectName, OptionTable(), line);
    PrefixedOptions(dialectName, options)
  }

  /** A key that is not among the options is not stored under the prefix either. */
  lemma {:induction false} PrefixedAbsent(dialectName: string, options: map<string, string>, excluded: set<string>)
    requires options.Keys !! excluded
    ensures forall x :: x in excluded ==> dialectName + "_" + x !in PrefixedOptions(dialectName, options)
  {
    forall x | x in excluded
      ensures dialectName + "_" + x !in PrefixedOptions(dialectName, options)
    {
      assert (dialectName + "_" + x)[|dialectName + "_"|..] == x;
    }
  }

  /** Every key stored for a line is the prefix and the lowercased directive of one of the patterns. */
  lemma {:induction false} StoredKeys(dialectName: string, pats: seq<Directive>, line: string)
    ensures forall key :: key in PrefixedOptions(dialectName, OptionsOf(pats, line)) ==>
              exists d :: d in pats && key == dialectName + "_" + Lower(DirectiveName(d))
  {
    ScanKeys(pats, line, map[]);
    PrefixedDirectives(dialectName, OptionsOf(pats, line), pats);
  }

  /** When every option is a lowercased directive, every stored key is the prefix and one. */
  lemma {:induction false} PrefixedDirectives(dialectName: string, options: map<string, string>, pats: seq<Directive>)
    requires forall k :: k in options ==> exists d :: d in pats && k == Lower(DirectiveName(d))
    ensures forall key :: key in PrefixedOptions(dialectName, options) ==>
              exists d :: d in pats && key == dialectName + "_" + Lower(DirectiveName(d))
  {
    forall key | key in PrefixedOptions(dialectName, options)
      ensures exists d :: d in pats && key == dialectName + "_" + Lower(DirectiveName(d))
    {
      var x := key[|dialectName + "_"|..];
      var d :| d in pats && x == Lower(DirectiveName(d));
      assert key == dialectName + "_" + Lower(DirectiveName(d));
    }
  }

  /** A line too short for any directive, such as the closing `) ` of a synthesised `CREATE TABLE`, stores no option. */
  lemma {:induction false} ShortLineHasNoOptions(dialectName: string, line: string)
    requires |line| < 4
    ensures TableOptionsOf(dialectName, line) == map[]
  {
    NoRoomNoOptions(OptionTable(), line, map[]);
    var scanned := if line == "" || line == ")" then map[] else ScanOptions(OptionTable(), line, map[]);
    assert scanned == map[];
    assert OptionsOf(OptionTable(), line) == map[];
  }

  // ---------------------------------------------------------------------
  // The values the scan stores
  // ---------------------------------------------------------------------

  /** Two directives whose names agree in length and in their first three letters, case aside, are the same. */
  lemma {:induction false} NamesApart(x: Directive, y: Directive)
    requires var a := DirectiveName(x); var b := DirectiveName(y);
             && |a| == |b| && LowerChar(a[0]) == LowerChar(b[0])
             && LowerChar(a[1]) == LowerChar(b[1]) && LowerChar(a[2]) == LowerChar(b[2])
    ensures x == y
  {
    StringOptionNames();
    WordOptionNamesA();
    WordOptionNamesB();
    WordOptionNamesC();
    RegexOptionNames();
  }

  /** The names of the string options. */
  lemma {:induction false} StringOptionNames()
    ensures DirectiveName(Comment) == "COMMENT"
    ensures DirectiveName(DataDirectory) == "DATA DIRECTORY"
    ensures DirectiveName(IndexDirectory) == "INDEX DIRECTORY"
    ensures DirectiveName(Password) == "PASSWORD"
    ensures DirectiveName(Connection) == "CONNECTION"
  {
  }

  /** The names of the word options, first part. */
  lemma {:induction false} WordOptionNamesA()
    ensures DirectiveName(Engine) == "ENGINE"
    ensures DirectiveName(Type) == "TYPE"
    ensures DirectiveName(AutoIncrement) == "AUTO_INCREMENT"
    ensures DirectiveName(AvgRowLength) == "AVG_ROW_LENGTH"
    ensures DirectiveName(CharacterSet) == "CHARACTER SET"
  {
  }

  /** The names of the word options, second part. */
  lemma {:induction false} WordOptionNamesB()
    ensures DirectiveName(DefaultCharset) == "DEFAULT CHARSET"
    ensures DirectiveName(Checksum) == "CHECKSUM"
    ensures DirectiveName(Collate) == "COLLATE"
    ensures DirectiveName(DelayKeyWrite) == "DELAY_KEY_WRITE"
    ensures DirectiveName(InsertMethod) == "INSERT_METHOD"
  {
  }

  /** The names of the word options, last part. */
  lemma {:induction false} WordOptionNamesC()
    ensures DirectiveName(MaxRows) == "MAX_ROWS"
    ensures DirectiveName(MinRows) == "MIN_ROWS"
    ensures DirectiveName(PackKeys) == "PACK_KEYS"
    ensures DirectiveName(RowFormat) == "ROW_FORMAT"
    ensures DirectiveName(KeyBlockSize) == "KEY_BLOCK_SIZE"
  {
  }

  /** The names of the regex options. */
  lemma {:induction false} RegexOptionNames()
    ensures DirectiveName(Union) == "UNION"
    ensures DirectiveName(Tablespace) == "TABLESPACE"
    ensures DirectiveName(RaidType) == "RAID_TYPE"
  {
  }

  /** Each directive has a key of its own. */
  lemma {:induction false} KeyDetermines(x: Directive, y: Directive)
    requires Lower(DirectiveName(x)) == Lower(DirectiveName(y))
    ensures x == y
  {
    var a, b := DirectiveName(x), DirectiveName(y);
    LowerAt(a, 0); LowerAt(a, 1); LowerAt(a, 2);
    LowerAt(b, 0); LowerAt(b, 1); LowerAt(b, 2);
    NamesApart(x, y);
  }

  /** No two of the patterns store under the same key. */
  predicate DistinctKeys(pats: seq<Directive>) {
    forall a, b :: 0 <= a < b < |pats| ==> Lower(DirectiveName(pats[a])) != Lower(DirectiveName(pats[b]))
  }

  /** The registered patterns store under 23 different keys. */
  lemma {:induction false} TableKeysDistinct()
    ensures DistinctKeys(OptionTable())
  {
    var t := OptionTable();
    assert forall a, b :: 0 <= a < b < |t| ==> t[a] != t[b];
    forall a, b | 0 <= a < b < |t|
      ensures Lower(DirectiveName(t[a])) != Lower(DirectiveName(t[b]))
    {
      if Lower(DirectiveName(t[a])) == Lower(DirectiveName(t[b])) {
        KeyDetermines(t[a], t[b]);
      }
    }
  }

  /** The text the `i`th pattern is searched in: the line after the substitutions of the patterns before it. */
  function Searched(pats: seq<Directive>, i: nat, line: string): string
    requires i <= |pats|
  {
    SearchedWith(PatternSub, pats, i, line)
  }

  /** The same for any substitution. */
  function SearchedWith(sub: (Directive, string) -> string, pats: seq<Directive>, i: nat, line: string): string
    requires i <= |pats|
    decreases i
  {
    if i == 0 then line else sub(pats[i - 1], SearchedWith(sub, pats, i - 1, line))
  }

  /** What one pattern's search leaves in the options. */
  function Record(d: Directive, m: Option<OptionMatch>, found: map<string, string>): map<string, string> {
    match m
    case None => found
    case Some(m) => found[Lower(m.directive) := Cleanup(KindOf(d), m.value)]
  }

  /**
   * What the scan needs of a search and a substitution: a match's
   * directive is the pattern's directive up to case, and a text without a
   * match is left as it is.
   */
  ghost predicate ScanSound(search: (Directive, string) -> Option<OptionMatch>, sub: (Directive, string) -> string) {
    && (forall d, s :: search(d, s).Some? ==> EqualsIgnoreCase(search(d, s).value.directive, DirectiveName(d)))
    && (forall d, s :: search(d, s).None? ==> sub(d, s) == s)
  }

  /** The registered patterns' `search` and `sub` are sound for the scan. */
  lemma {:induction false} PatternsSound()
    ensures ScanSound(PatternSearch, PatternSub)
  {
    forall d, s | PatternSearch(d, s).None?
      ensures PatternSub(d, s) == s
    {
      SubChangesIffMatch(PatternOf(d), s, 0);
      assert s[0..] == s;
    }
  }

  /** One step of the scan, found or not. */
  lemma {:induction false} ScanWithCons(search: (Directive, string) -> Option<OptionMatch>, sub: (Directive, string) -> string,
                                        pats: seq<Directive>, rest: string, found: map<string, string>)
    requires ScanSound(search, sub) && pats != []
    ensures ScanWith(search, sub, pats, rest, found) ==
            ScanWith(search, sub, pats[1..], sub(pats[0], rest), Record(pats[0], search(pats[0], rest), found))
  {
  }

  lemma {:induction false} SearchedShift(sub: (Directive, string) -> string, pats: seq<Directive>, i: nat, line: string)
    requires pats != [] && i < |pats|
    ensures SearchedWith(sub, pats, i + 1, line) == SearchedWith(sub, pats[1..], i, sub(pats[0], line))
    decreases i
  {
    var t := pats[1..];
    var first := sub(pats[0], line);
    if i == 0 {
      assert SearchedWith(sub, pats, 1, line) == sub(pats[0], SearchedWith(sub, pats, 0, line));
    } else {
      SearchedShift(sub, pats, i - 1, line);
      assert t[i - 1] == pats[i];
      assert SearchedWith(sub, t, i, first) == sub(t[i - 1], SearchedWith(sub, t, i - 1, first));
      assert SearchedWith(sub, pats, i + 1, line) == sub(pats[i], SearchedWith(sub, pats, i, line));
    }
  }

  /** A key none of the patterns stores keeps what it had. */
  lemma {:induction false} ScanOthers(search: (Directive, string) -> Option<OptionMatch>, sub: (Directive, string) -> string,
                                      pats: seq<Directive>, rest: string, found: map<string, string>, key: string)
    requires ScanSound(search, sub)
    requires forall j :: 0 <= j < |pats| ==> Lower(DirectiveName(pats[j])) != key
    ensures key in ScanWith(search, sub, pats, rest, found) <==> key in found
    ensures key in found ==> ScanWith(search, sub, pats, rest, found)[key] == found[key]
    decreases |pats|
  {
    if pats != [] {
      var m := search(pats[0], rest);
      ScanWithCons(search, sub, pats, rest, found);
      if m.Some? {
        LowerIgnoringCase(m.value.directive, DirectiveName(pats[0]));
      }
      ScanOthers(search, sub, pats[1..], sub(pats[0], rest), Record(pats[0], m, found), key);
    }
  }

  /**
   * The value stored for the `i`th pattern: the cleaned `val` group of its
   * first match in what the earlier patterns' substitutions left of the
   * text, under its lowercased directive; a pattern that is not found
   * there leaves its key as it was.
   */
  lemma {:induction false} ScanStores(pats: seq<Directive>, rest: string, found: map<string, string>, i: nat)
    requires DistinctKeys(pats) && i < |pats|
    ensures var key := Lower(DirectiveName(pats[i]));
            var m := Search(PatternOf(pats[i]), Searched(pats, i, rest));
            var result := ScanOptions(pats, rest, found);
            && (m.Some? ==> key in result && result[key] == Cleanup(KindOf(pats[i]), m.value.value))
            && (m.None? ==> (key in result <==> key in found) && (key in found ==> result[key] == found[key]))
  {
    PatternsSound();
    ScanWithStores(PatternSearch, PatternSub, pats, rest, found, i);
  }

  /** `ScanStores` for any sound search and substitution. */
  lemma {:induction false} ScanWithStores(search: (Directive, string) -> Option<OptionMatch>, sub: (Directive, string) -> string,
                                          pats: seq<Directive>, rest: string, found: map<string, string>, i: nat)
    requires ScanSound(search, sub) && DistinctKeys(pats) && i < |pats|
    ensures var key := Lower(DirectiveName(pats[i]));
            var m := search(pats[i], SearchedWith(sub, pats, i, rest));
            var result := ScanWith(search, sub, pats, rest, found);
            && (m.Some? ==> key in result && result[key] == Cleanup(KindOf(pats[i]), m.value.value))
            && (m.None? ==> (key in result <==> key in found) && (key in found ==> result[key] == found[key]))
    decreases i
  {
    if i == 0 {
      ScanStoresFirst(search, sub, pats, rest, found);
    } else {
      var m := search(pats[0], rest);
      var key := Lower(DirectiveName(pats[i]));
      ScanWithCons(search, sub, pats, rest, found);
      ScanWithStores(search, sub, pats[1..], sub(pats[0], rest), Record(pats[0], m, found), i - 1);
      SearchedShift(sub, pats, i - 1, rest);
      if m.Some? {
        LowerIgnoringCase(m.value.directive, DirectiveName(pats[0]));
        assert key != Lower(DirectiveName(pats[0]));
      }
    }
  }

  /** The first pattern's value is stored as found; no later pattern touches its key. */
  lemma {:induction false} ScanStoresFirst(search: (Directive, string) -> Option<OptionMatch>, sub: (Directive, string) -> string,
                                           pats: seq<Directive>, rest: string, found: map<string, string>)
    requires ScanSound(search, sub) && DistinctKeys(pats) && pats != []
    ensures var key := Lower(DirectiveName(pats[0]));
            var m := search(pats[0], rest);
            var result := ScanWith(search, sub, pats, rest, found);
            && (m.Some? ==> key in result && result[key] == Cleanup(KindOf(pats[0]), m.value.value))
            && (m.None? ==> (key in result <==> key in found) && (key in found ==> result[key] == found[key]))
  {
    var m := search(pats[0], rest);
    var key := Lower(DirectiveName(pats[0]));
    ScanWithCons(search, sub, pats, rest, found);
    if m.Some? {
      LowerIgnoringCase(m.value.directive, DirectiveName(pats[0]));
    }
    assert forall j :: 0 <= j < |pats[1..]| ==> Lower(DirectiveName(pats[1..][j])) != key by {
      forall j | 0 <= j < |pats[1..]|
        ensures Lower(DirectiveName(pats[1..][j])) != key
      {
        assert pats[1..][j] == pats[j + 1];
      }
    }
    ScanOthers(search, sub, pats[1..], sub(pats[0], rest), Record(pats[0], m, found), key);
  }

  /**
   * The table options of a line, option by option: the entry for the
   * `i`th registered option is present exactly when its pattern is found
   * in what the earlier options' substitutions left and its key is not
   * excluded, and it then holds the cleaned value of that match.
   */
  lemma {:induction false} TableOptionValue(dialectName: string, line: string, i: nat)
    requires i < |OptionTable()| && line != "" && line != ")"
    ensures var d := OptionTable()[i];
            var key := Lower(DirectiveName(d));
            var m := Search(PatternOf(d), Searched(OptionTable(), i, line));
            var r := TableOptionsOf(dialectName, line);
            && (dialectName + "_" + key in r <==> m.Some? && key !in Excluded)
            && (dialectName + "_" + key in r ==> r[dialectName + "_" + key] == Cleanup(KindOf(d), m.value.value))
  {
    var t := OptionTable();
    var key := Lower(DirectiveName(t[i]));
    TableKeysDistinct();
    ScanStores(t, line, map[], i);
    var options := OptionsOf(t, line);
    if key in options {
      PrefixedLookup(dialectName, options, key);
    } else {
      assert (dialectName + "_" + key)[|dialectName + "_"|..] == key;
    }
  }

  // ---------------------------------------------------------------------
  // Closing lines holding one option
  // ---------------------------------------------------------------------

  /** Patterns that find nothing in the text are passed over by the scan. */
  lemma {:induction false} SkipUnmatched(pats: seq<Directive>, rest: string, found: map<string, string>, i: nat)
    requires i <= |pats|
    requires forall j :: 0 <= j < i ==> Search(PatternOf(pats[j]), rest).None?
    ensures ScanOptions(pats, rest, found) == ScanOptions(pats[i..], rest, found)
    decreases i
  {
    if i > 0 {
      assert forall j :: 0 <= j < i - 1 ==> pats[1..][j] == pats[j + 1];
      SkipUnmatched(pats[1..], rest, found, i - 1);
      assert pats[1..][i - 1..] == pats[i..];
    }
  }

  /** After `) `, a directive that starts with a letter is first found at position 2. */
  lemma {:induction false} SearchAfterLead(p: OptionPattern, s: string, m: OptionMatch)
    requires |s| >= 2 && s[0] == ')' && s[1] == ' '
    requires p.name != [] && 'A' <= p.name[0] <= 'Z'
    requires MatchAt(p, s, 2) == Some(m)
    ensures Search(p, s) == Some(m)
  {
    assert !WordAt(s, 0, p.name) by {
      if |p.name| <= |s| {
        assert s[0..|p.name|][0] == s[0];
      }
    }
    assert !WordAt(s, 1, p.name) by {
      if 1 + |p.name| <= |s| {
        assert s[1..1 + |p.name|][0] == s[1];
      }
    }
    assert SearchFrom(p, s, 1) == SearchFrom(p, s, 2);
  }

  /** Removing a match that runs from position 2 to the end leaves the first two characters. */
  lemma {:induction false} SubAfterLead(p: OptionPattern, s: string, m: OptionMatch)
    requires Search(p, s) == Some(m) && m.start == 2 && m.end == |s|
    ensures Sub(p, s) == s[..2]
  {
    assert SearchFrom(p, s, |s|).None?;
    assert s[0..2] == s[..2] && s[|s|..] == [];
  }

  /** The scan of `) ` followed by one option the earlier patterns do not find. */
  lemma {:induction false} ScanOneOption(t: seq<Directive>, i: nat, line: string, m: OptionMatch)
    requires i < |t| && |line| >= 2 && line[0] == ')' && line[1] == ' '
    requires forall j :: 0 <= j < |t| ==> |DirectiveName(t[j])| > 2
    requires forall j :: 0 <= j < i ==> Search(PatternOf(t[j]), line).None?
    requires MatchAt(PatternOf(t[i]), line, 2) == Some(m) && m.end == |line|
    ensures ScanOptions(t, line, map[]) == map[Lower(m.directive) := Cleanup(KindOf(t[i]), m.value)]
  {
    var p := PatternOf(t[i]);
    var found := map[Lower(m.directive) := Cleanup(KindOf(t[i]), m.value)];
    SearchAfterLead(p, line, m);
    SubAfterLead(p, line, m);
    SkipUnmatched(t, line, map[], i);
    assert t[i..][0] == t[i] && t[i..][1..] == t[i + 1..];
    ScanFirstFound(t[i..], line, map[], m);
    assert line[..2] == ") ";
    NoRoomNoOptions(t[i + 1..], ") ", found);
  }

  /** The scan when the first pattern is found: its value is stored and its matches cut. */
  lemma {:induction false} ScanFirstFound(pats: seq<Directive>, rest: string, found: map<string, string>, m: OptionMatch)
    requires pats != [] && Search(PatternOf(pats[0]), rest) == Some(m)
    ensures ScanOptions(pats, rest, found) ==
            ScanOptions(pats[1..], Sub(PatternOf(pats[0]), rest), found[Lower(m.directive) := Cleanup(KindOf(pats[0]), m.value)])
  {
    assert PatternSearch(pats[0], rest) == Some(m);
  }

  /** The table options made of a single option. */
  lemma {:induction false} SingleOption(dialectName: string, line: string, key: string, v: string)
    requires line != "" && line != ")"
    requires ScanOptions(OptionTable(), line, map[]) == map[key := v]
    ensures TableOptionsOf(dialectName, line) == if key in Excluded then map[] else map[dialectName + "_" + key := v]
  {
    OptionsOfOne(OptionTable(), line, key, v);
    PrefixedOne(dialectName, key, v);
    TableOptionsUnfold(dialectName, line);
  }

  lemma {:induction false} OptionsOfOne(pats: seq<Directive>, line: string, key: string, v: string)
    requires line != "" && line != ")"
    requires ScanOptions(pats, line, map[]) == map[key := v]
    ensures OptionsOf(pats, line) == if key in Excluded then map[] else map[key := v]
  {
    if key in Excluded {
      assert map[key := v] - Excluded == map[];
    } else {
      assert map[key := v] - Excluded == map[key := v];
    }
  }

  lemma {:induction false} PrefixedOne(dialectName: string, key: string, v: string)
    ensures PrefixedOptions(dialectName, map[]) == map[]
    ensures PrefixedOptions(dialectName, map[key := v]) == map[dialectName + "_" + key := v]
  {
    assert PrefixedOptions(dialectName, map[]) == map[];
    PrefixedInsert(dialectName, map[], key, v);
    assert map[][key := v] == map[key := v];
  }

  lemma {:induction false} TableOptionsUnfold(dialectName: string, line: string)
    ensures TableOptionsOf(dialectName, line) == PrefixedOptions(dialectName, OptionsOf(OptionTable(), line))
  {
  }


  /**
   * A closing line `) NAME='escaped value'` holding one string option
   * that none of the options registered before it finds: the table
   * options are its value under the prefixed lowercased name, or nothing
   * for an excluded name.
   */
  lemma {:induction false} StringOptionLine(dialectName: string, i: nat, v: string)
    requires i < |OptionTable()| && KindOf(OptionTable()[i]) == QuotedString
    requires forall j :: 0 <= j < i ==>
               Search(PatternOf(OptionTable()[j]), ") " + DirectiveName(OptionTable()[i]) + "='" + EscapeString(v) + "'").None?
    ensures var d := OptionTable()[i];
            var key := Lower(DirectiveName(d));
            TableOptionsOf(dialectName, ") " + DirectiveName(d) + "='" + EscapeString(v) + "'") ==
              if key in Excluded then map[] else map[dialectName + "_" + key := v]
  {
    var t := OptionTable();
    var p := PatternOf(t[i]);
    var line := ") " + p.name + "='" + EscapeString(v) + "'";
    StringOptionAfterLead(p, v);
    ScanOneOption(t, i, line, OptionMatch(2, p.name, EscapeString(v), |line|));
    SingleOption(dialectName, line, Lower(p.name), v);
  }

  lemma {:induction false} StringOptionAfterLead(p: OptionPattern, v: string)
    requires p.kind == QuotedString
    ensures var line := ") " + p.name + "='" + EscapeString(v) + "'";
            && MatchAt(p, line, 2) == Some(OptionMatch(2, p.name, EscapeString(v), |line|))
            && Cleanup(p.kind, EscapeString(v)) == v
  {
    var raw := EscapeString(v);
    var line := ") " + p.name + "='" + raw + "'";
    EscapeStringPaired(v);
    UnescapeEscapeString(v);
    StringLineAfterParen(p.name, raw, line);
    StringOptionAt(p, line, 2, raw, "");
  }

  lemma {:induction false} StringLineAfterParen(name: string, raw: string, line: string)
    requires line == ") " + name + "='" + raw + "'"
    ensures && |line| >= 2 + |name| + 2
            && line[2..2 + |name|] == name
            && line[2 + |name|] == '=' && line[2 + |name| + 1] == '\''
            && line[2 + |name| + 2..] == raw + ['\''] + ""
            && line[2 + |name| + 2..2 + |name| + 2 + |raw|] == raw
  {
    assert line == ") " + name + "='" + raw + "'" + "";
    StringLineShape(") ", name, raw, "", line);
  }

  /**
   * A closing line `) NAME=value` holding one word option that none of
   * the options registered before it finds: the table options are its
   * value under the prefixed lowercased name, or nothing for an excluded
   * name.
   */
  lemma {:induction false} WordOptionLine(dialectName: string, i: nat, w: string)
    requires i < |OptionTable()| && KindOf(OptionTable()[i]) == Word
    requires w != [] && forall k :: 0 <= k < |w| ==> IsWordChar(w[k])
    requires forall j :: 0 <= j < i ==>
               Search(PatternOf(OptionTable()[j]), ") " + DirectiveName(OptionTable()[i]) + "=" + w).None?
    ensures var d := OptionTable()[i];
            var key := Lower(DirectiveName(d));
            TableOptionsOf(dialectName, ") " + DirectiveName(d) + "=" + w) ==
              if key in Excluded then map[] else map[dialectName + "_" + key := w]
  {
    var t := OptionTable();
    var p := PatternOf(t[i]);
    var line := ") " + p.name + "=" + w;
    WordOptionAfterLead(p, w);
    ScanOneOption(t, i, line, OptionMatch(2, p.name, w, |line|));
    SingleOption(dialectName, line, Lower(p.name), w);
  }

  lemma {:induction false} WordOptionAfterLead(p: OptionPattern, w: string)
    requires p.kind == Word
    requires w != [] && forall k :: 0 <= k < |w| ==> IsWordChar(w[k])
    ensures var line := ") " + p.name + "=" + w;
            MatchAt(p, line, 2) == Some(OptionMatch(2, p.name, w, |line|))
  {
    var line := ") " + p.name + "=" + w;
    WordLineAfterParen(p.name, w, line);
    WordOptionAt(p, line, 2, w);
  }

  lemma {:induction false} WordLineAfterParen(name: string, w: string, line: string)
    requires line == ") " + name + "=" + w
    requires forall k :: 0 <= k < |w| ==> IsWordChar(w[k])
    ensures && |line| >= 2 + |name| + 1 + |w|
            && line[2..2 + |name|] == name && line[2 + |name|] == '='
            && line[2 + |name| + 1..2 + |name| + 1 + |w|] == w
            && (forall k :: 2 + |name| + 1 <= k < 2 + |name| + 1 + |w| ==> IsWordChar(line[k]))
            && 2 + |name| + 1 + |w| == |line|
  {
    assert line == ") " + name + "=" + w + "";
    WordLineShape(") ", name, w, "", line);
  }

  /** A string option needs a quote: a text without one has no match. */
  lemma {:induction false} NoQuoteNoSearch(p: OptionPattern, s: string)
    requires p.kind == QuotedString && '\'' !in s
    ensures Search(p, s).None?
  {
    if Search(p, s).Some? {
      MatchHasQuote(p, s, Search(p, s).value.start);
      assert false;
    }
  }

  lemma {:induction false} MatchHasQuote(p: OptionPattern, s: string, i: nat)
    requires p.kind == QuotedString && i <= |s| && MatchAt(p, s, i).Some?
    ensures '\'' in s
  {
    MatchShape(p, s, i);
    var f := FoundAt(p, s, i).value;
    assert s[f.valueEnd] == '\'';
  }

  /** The excluded keys are all longer than the keys of the next lemmas. */
  lemma {:induction false} ExcludedKeysLong()
    ensures forall x :: x in Excluded ==> |x| >= 14
  {
  }

  lemma {:induction false} CommentKey(dialectName: string)
    ensures dialectName + "_" + Lower("COMMENT") == dialectName + "_comment"
  {
    assert Lower("COMMENT") == "comment";
    Associative(dialectName, "_", "comment");
  }

  lemma {:induction false} EngineKey(dialectName: string)
    ensures dialectName + "_" + Lower("ENGINE") == dialectName + "_engine"
  {
    assert Lower("ENGINE") == "engine";
    Associative(dialectName, "_", "engine");
  }

  /**
   * `) COMMENT='...'` stores only the comment, even when the comment reads
   * like another option: its text is consumed with the match.
   */
  lemma {:induction false} CommentLine(dialectName: string, v: string)
    ensures TableOptionsOf(dialectName, ") COMMENT='" + EscapeString(v) + "'") == map[dialectName + "_comment" := v]
  {
    assert OptionTable()[0] == Comment;
    assert ") COMMENT='" + EscapeString(v) + "'" == ") " + "COMMENT" + "='" + EscapeString(v) + "'";
    StringOptionLine(dialectName, 0, v);
    CommentKey(dialectName);
    assert |Lower("COMMENT")| == 7;
    ExcludedKeysLong();
  }

  /** A comment that spells out `ENGINE=...` does not set the engine. */
  lemma {:induction false} CommentHidesEngine(dialectName: string, v: string)
    ensures dialectName + "_engine" !in TableOptionsOf(dialectName, ") COMMENT='" + EscapeString("ENGINE=" + v) + "'")
  {
    var engine := dialectName + "_engine";
    var text := "ENGINE=" + v;
    CommentLine(dialectName, text);
    assert |engine| != |dialectName + "_comment"|;
  }

  /** `) ENGINE=name` stores the engine: no string option can match a line without a quote. */
  lemma {:induction false} EngineLine(dialectName: string, w: string)
    requires w != [] && forall k :: 0 <= k < |w| ==> IsWordChar(w[k])
    ensures TableOptionsOf(dialectName, ") ENGINE=" + w) == map[dialectName + "_engine" := w]
  {
    var d := OptionTable()[5];
    EngineText(w);
    EngineEarlierMiss(w);
    WordOptionLine(dialectName, 5, w);
    assert TableOptionsOf(dialectName, ") " + DirectiveName(d) + "=" + w) ==
           if Lower(DirectiveName(d)) in Excluded then map[] else map[dialectName + "_" + Lower(DirectiveName(d)) := w];
    EngineKey(dialectName);
    ExcludedKeysLong();
    assert |Lower(DirectiveName(d))| == 6;
  }

  lemma {:induction false} EngineText(w: string)
    ensures OptionTable()[5] == Engine && KindOf(Engine) == Word && DirectiveName(Engine) == "ENGINE"
    ensures ") " + DirectiveName(Engine) + "=" + w == ") ENGINE=" + w
  {
    assert DirectiveNames[5] == "ENGINE";
    assert ") " + "ENGINE" + "=" + w == ") ENGINE=" + w;
  }

  /** The five string options, registered before `ENGINE`, find nothing in `) ENGINE=name`. */
  lemma {:induction false} EngineEarlierMiss(w: string)
    requires forall k :: 0 <= k < |w| ==> IsWordChar(w[k])
    ensures forall j :: 0 <= j < 5 ==> Search(PatternOf(OptionTable()[j]), ") ENGINE=" + w).None?
  {
    var t := OptionTable();
    var line := ") ENGINE=" + w;
    EngineNoQuote(w);
    forall j | 0 <= j < 5
      ensures Search(PatternOf(t[j]), line).None?
    {
      assert KindOf(t[j]) == QuotedString;
      NoQuoteNoSearch(PatternOf(t[j]), line);
    }
  }

  lemma {:induction false} EngineNoQuote(w: string)
    requires forall k :: 0 <= k < |w| ==> IsWordChar(w[k])
    ensures '\'' !in ") ENGINE=" + w
  {
    var line := ") ENGINE=" + w;
    assert forall k :: 0 <= k < |w| ==> line[9 + k] == w[k];
    assert forall k :: 0 <= k < 9 ==> line[k] == ") ENGINE="[k];
  }
}
