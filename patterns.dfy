/**
 * What the table-definition parser uses besides its own code:
 *  - the identifier preparer (quote characters, escaping by doubling the
 *    final quote, and `unformat_identifiers`, which is not modelled and is
 *    an arbitrary function here);
 *  - the capture groups of the five large patterns (`_re_column`,
 *    `_re_column_loose`, `_re_key`, `_re_fk_constraint`,
 *    `_re_ck_constraint`), whose matching is not modelled: each is an
 *    arbitrary function from a line to an optional record of groups;
 *  - the three small patterns, matched here by hand: the table name of the
 *    `CREATE` line (`_pr_name`), the parser name inside a key's version
 *    comment (`_re_key_version_sql`) and the `PARTITION` punt
 *    (`_re_partition`).
 */
module Patterns {
  import opened Text
  import opened Scanners

  /** How an operation of the parser ends: with a value, or with an exception raised. */
  datatype Outcome<T> = Done(value: T) | Raised

  // ---------------------------------------------------------------------
  // The identifier preparer
  // ---------------------------------------------------------------------

  /**
   * MySQL's identifier preparer: backticks, or double quotes in ANSI mode.
   * An escaped final quote is written twice.
   */
  datatype Preparer = Preparer(initialQuote: char, finalQuote: char, unformatIdentifiers: string -> seq<string>)
  {
    /** `_escape_identifier`: every final quote doubled. */
    function EscapeIdentifier(s: string): string {
      DoubleChar(s, finalQuote)
    }

    /** `_unescape_identifier`: every doubled final quote halved. */
    function UnescapeIdentifier(s: string): string {
      HalvePairs(s, finalQuote)
    }

    /** `quote_identifier`: the escaped name between the two quotes. */
    function QuoteIdentifier(s: string): (r: string)
      ensures |r| >= 2 && r[0] == initialQuote && r[|r| - 1] == finalQuote
      ensures r[1..|r| - 1] == EscapeIdentifier(s)
      ensures Paired(r[1..|r| - 1], finalQuote) && UnescapeIdentifier(r[1..|r| - 1]) == s
    {
      UnescapeEscape(s);
      DoubleIsPaired(s, finalQuote);
      [initialQuote] + EscapeIdentifier(s) + [finalQuote]
    }

    lemma {:induction false} UnescapeEscape(s: string)
      ensures UnescapeIdentifier(EscapeIdentifier(s)) == s
    {
      HalveDouble(s, finalQuote);
    }
  }

  /**
   * A quote character the patterns can tell apart from what surrounds a
   * quoted name: not a word character, not whitespace, not a comma and not
   * an opening parenthesis. Backticks and double quotes qualify.
   */
  predicate QuoteChar(c: char) {
    !IsWordChar(c) && !IsSpace(c) && c != ',' && c != '('
  }

  predicate ValidPreparer(p: Preparer) {
    QuoteChar(p.initialQuote) && QuoteChar(p.finalQuote)
  }

  lemma {:induction false} ValidQuotesDistinct(p: Preparer)
    requires ValidPreparer(p)
    ensures DistinctQuotes(p.initialQuote, p.finalQuote)
  {
  }

  // ---------------------------------------------------------------------
  // Capture groups of the large patterns
  // ---------------------------------------------------------------------

  /** The groups of `_re_column`. A group that did not take part in the match is None. */
  datatype ColumnGroups = ColumnGroups(
    name: string,
    coltype: string,
    arg: Option<string>,
    unsigned: Option<string>,
    zerofill: Option<string>,
    charset: Option<string>,
    collate: Option<string>,
    notnull: Option<string>,
    default: Option<string>,
    generated: Option<string>,
    persistence: Option<string>,
    autoincr: Option<string>,
    comment: Option<string>)

  /**
   * The groups of `_re_column_loose`, which captures only these four; its
   * `notnull` group can only be `NOT NULL`.
   */
  datatype LooseGroups = LooseGroups(
    name: string,
    coltype: string,
    arg: Option<string>,
    notnull: Option<string>)

  /**
   * The `spec` a loose match gives `_parse_column`: `spec.get` of a group
   * the loose pattern does not have is None.
   */
  function LooseSpec(l: LooseGroups): (g: ColumnGroups)
    ensures g.name == l.name && g.coltype == l.coltype && g.arg == l.arg && g.notnull == l.notnull
    ensures g.unsigned.None? && g.zerofill.None? && g.charset.None? && g.collate.None?
    ensures g.default.None? && g.generated.None? && g.persistence.None? && g.autoincr.None? && g.comment.None?
  {
    ColumnGroups(l.name, l.coltype, l.arg, None, None, None, None, l.notnull, None, None, None, None, None)
  }

  /** The groups of `_re_key`; `columns` is the raw key-expression list. */
  datatype KeyGroups = KeyGroups(
    keyType: Option<string>,
    name: Option<string>,
    usingPre: Option<string>,
    columns: string,
    usingPost: Option<string>,
    keyBlock: Option<string>,
    parser: Option<string>,
    comment: Option<string>,
    versionSql: Option<string>)

  /** The groups of `_re_fk_constraint`; `local` and `foreign` are raw key-expression lists. */
  datatype FkGroups = FkGroups(
    name: string,
    local: string,
    table: string,
    foreign: string,
    matchKind: Option<string>,
    onDelete: Option<string>,
    onUpdate: Option<string>)

  /** The groups of `_re_ck_constraint`. */
  datatype CkGroups = CkGroups(name: string, sqltext: string)

  /** The large patterns, each as the function from a line to its match (`re.match`). */
  datatype Patterns = Patterns(
    column: string -> Option<ColumnGroups>,
    columnLoose: string -> Option<LooseGroups>,
    key: string -> Option<KeyGroups>,
    fkConstraint: string -> Option<FkGroups>,
    ckConstraint: string -> Option<CkGroups>)

  // ---------------------------------------------------------------------
  // `_pr_name`: ^CREATE (?:\w+ +)?TABLE +<iq>name<fq> +\($
  // ---------------------------------------------------------------------

  /**
   * The raw `name` group of the `CREATE` line, escaped quotes still doubled.
   * The optional `\w+ +` (as in `CREATE TEMPORARY TABLE`) is tried first;
   * if the rest fails after it, the match is tried again without it. For
   * quotes that are neither word characters nor spaces (`ValidPreparer`)
   * no other backtracking can succeed: every run is followed by a
   * character outside its class. Other quote characters are outside this
   * model.
   */
  function TableNameMatch(line: string, iq: char, fq: char): (r: Option<string>)
    ensures r.Some? ==> WordAt(line, 0, "CREATE ") && r.value != []
  {
    if !WordAt(line, 0, "CREATE ") then None
    else
      var w := WordEnd(line, 7);
      var afterKind := SkipSpaces(line, w);
      match (if w > 7 && afterKind > w then NameAfterTable(line, afterKind, iq, fq) else None)
      case Some(name) => Some(name)
      case None => NameAfterTable(line, 7, iq, fq)
  }

  /** `TABLE +<iq>name<fq> +\($` at position `i`. */
  function NameAfterTable(line: string, i: nat, iq: char, fq: char): (r: Option<string>)
    requires i <= |line|
    ensures r.Some? ==> WordAt(line, i, "TABLE") && r.value != []
  {
    if !WordAt(line, i, "TABLE") then None
    else
      var b := SkipSpaces(line, i + 5);
      if b == i + 5 || b == |line| || line[b] != iq then None
      else QuotedNameAt(line, b + 1, fq)
  }

  /** The name loop, its closing quote, then ` +\($`. */
  function QuotedNameAt(line: string, i: nat, fq: char): (r: Option<string>)
    requires i <= |line|
    ensures r.Some? ==> r.value != []
  {
    match CloseQuote(line[i..], fq)
    case None => None
    case Some(c) =>
      var e := SkipSpaces(line, i + c + 1);
      if c > 0 && e > i + c + 1 && e < |line| && line[e] == '(' && AtEnd(line, e + 1)
      then Some(line[i..i + c]) else None
  }

  /** The `CREATE` line MySQL prints for a table. */
  function CreateLine(p: Preparer, name: string): string {
    "CREATE TABLE " + p.QuoteIdentifier(name) + " ("
  }

  /** The name on a printed `CREATE` line is read back, and unescapes to the table's name. */
  lemma {:induction false} TableNameRoundTrip(p: Preparer, name: string)
    requires ValidPreparer(p) && name != []
    ensures TableNameMatch(CreateLine(p, name), p.initialQuote, p.finalQuote) == Some(p.EscapeIdentifier(name))
    ensures p.UnescapeIdentifier(p.EscapeIdentifier(name)) == name
  {
    var line := CreateLine(p, name);
    CreateLineShape(p, name);
    PlainCreateTable(line, p.initialQuote, p.finalQuote);
    QuotedNameOnCreateLine(p, name);
    p.UnescapeEscape(name);
  }

  /**
   * On a line that starts `CREATE TABLE ` and a quote, the optional kind
   * word cannot take `TABLE`, and the name is read after the quote.
   */
  lemma {:induction false} PlainCreateTable(line: string, iq: char, fq: char)
    requires |line| > 14 && line[..13] == "CREATE TABLE " && line[13] == iq && QuoteChar(iq)
    ensures TableNameMatch(line, iq, fq) == QuotedNameAt(line, 14, fq)
  {
    assert WordAt(line, 0, "CREATE ") by {
      assert line[..7] == line[..13][..7];
    }
    SpanIs(line, 7, 12, WordChars);
    SpanIs(line, 12, 13, Spaces);
    assert !WordAt(line, 13, "TABLE") by {
      assert LowerChar(line[13]) != LowerChar('T');
    }
    assert WordAt(line, 7, "TABLE") by {
      assert line[7..12] == line[..13][7..12];
    }
  }

  /** Where each piece of a printed `CREATE` line sits. */
  lemma {:induction false} CreateLineShape(p: Preparer, name: string)
    requires ValidPreparer(p)
    ensures var line, esc := CreateLine(p, name), p.EscapeIdentifier(name);
            && |line| == 17 + |esc|
            && line[..13] == "CREATE TABLE "
            && line[13] == p.initialQuote
            && line[14..] == esc + [p.finalQuote] + " ("
  {
    var line, esc := CreateLine(p, name), p.EscapeIdentifier(name);
    var head, rest := "CREATE TABLE " + [p.initialQuote], esc + [p.finalQuote] + " (";
    assert line == head + rest;
    assert line[..13] == head[..13];
    assert line[14..] == rest;
  }

  lemma {:induction false} QuotedNameOnCreateLine(p: Preparer, name: string)
    requires ValidPreparer(p) && name != []
    requires CreateLine(p, name)[14..] == p.EscapeIdentifier(name) + [p.finalQuote] + " ("
    requires |CreateLine(p, name)| == 17 + |p.EscapeIdentifier(name)|
    ensures QuotedNameAt(CreateLine(p, name), 14, p.finalQuote) == Some(p.EscapeIdentifier(name))
  {
    var line, esc, fq := CreateLine(p, name), p.EscapeIdentifier(name), p.finalQuote;
    DoubleIsPaired(name, fq);
    DoubleNonEmpty(name, fq);
    CloseQuoteAfterPaired(esc, fq, " (");
    var c := |esc|;
    assert line[14 + c + 1] == ' ' && line[14 + c + 2] == '(';
    SpanIs(line, 14 + c + 1, 14 + c + 2, Spaces);
    assert line[14..14 + c] == esc;
  }

  // ---------------------------------------------------------------------
  // `_re_key_version_sql`: \!\d+ (?: *WITH PARSER +(?P<parser>\S+) *)?
  // ---------------------------------------------------------------------

  /**
   * `_re_key_version_sql` matched at the start of a key's version comment:
   * None when it does not match, otherwise its optional `parser` group.
   */
  function VersionSqlMatch(v: string): (r: Option<Option<string>>)
    ensures r.Some? ==> |v| > 0 && v[0] == '!'
    ensures r.Some? && r.value.Some? ==> r.value.value != []
  {
    if |v| == 0 || v[0] != '!' then None
    else
      var d := DigitEnd(v, 1);
      if d == 1 || d == |v| || v[d] != ' ' then None
      else Some(ParserClause(v, d + 1))
  }

  /** The optional ` *WITH PARSER +(\S+) *` at position `i`. */
  function ParserClause(v: string, i: nat): (r: Option<string>)
    requires i <= |v|
    ensures r.Some? ==> r.value != [] && forall k :: 0 <= k < |r.value| ==> !IsSpace(r.value[k])
  {
    var b := SkipSpaces(v, i);
    if !WordAt(v, b, "WITH PARSER") then None
    else
      var c := SkipSpaces(v, b + 11);
      var e := Span(v, c, NonWhitespace);
      if c == b + 11 || e == c then None else Some(v[c..e])
  }

  /** The version comment MySQL prints after a key with a full-text parser. */
  function VersionComment(version: nat, parser: string): string {
    "!" + Numeral(version) + " WITH PARSER " + parser + " "
  }

  /** The parser named in a printed version comment is the one the pattern captures. */
  lemma {:induction false} VersionCommentParser(version: nat, parser: string)
    requires parser != [] && forall k :: 0 <= k < |parser| ==> !IsSpace(parser[k])
    ensures VersionSqlMatch(VersionComment(version, parser)) == Some(Some(parser))
  {
    VersionCommentShape(version, parser);
    VersionSqlOf(VersionComment(version, parser), 1 + |Numeral(version)|, parser);
  }

  /** A version comment laid out as MySQL prints it: `!`, the digits up to `d`, ` WITH PARSER `, the parser, a space. */
  predicate VersionLaidOut(v: string, d: nat, parser: string) {
    && d + 13 + |parser| < |v|
    && v[0] == '!' && v[d] == ' '
    && 1 < d && (forall k :: 1 <= k < d ==> IsDigit(v[k]))
    && v[d + 1..d + 13] == "WITH PARSER "
    && (forall k :: 0 <= k < |parser| ==> v[d + 13 + k] == parser[k])
    && v[d + 13 + |parser|] == ' '
  }

  lemma {:induction false} VersionSqlOf(v: string, d: nat, parser: string)
    requires VersionLaidOut(v, d, parser)
    requires parser != [] && forall k :: 0 <= k < |parser| ==> !IsSpace(parser[k])
    ensures VersionSqlMatch(v) == Some(Some(parser))
  {
    SpanIs(v, 1, d, Digits);
    ParserClauseOf(v, d + 1, parser);
  }

  lemma {:induction false} VersionCommentShape(version: nat, parser: string)
    ensures VersionLaidOut(VersionComment(version, parser), 1 + |Numeral(version)|, parser)
  {
    var v, n := VersionComment(version, parser), Numeral(version);
    var a, b := "!" + n + " WITH PARSER ", parser + " ";
    assert v == a + b;
    assert forall k :: 1 <= k < 1 + |n| ==> v[k] == n[k - 1];
    assert a[2 + |n|..] == "WITH PARSER ";
  }

  lemma {:induction false} ParserClauseOf(v: string, i: nat, parser: string)
    requires i + 12 + |parser| < |v|
    requires v[i..i + 12] == "WITH PARSER "
    requires forall k :: 0 <= k < |parser| ==> v[i + 12 + k] == parser[k]
    requires v[i + 12 + |parser|] == ' '
    requires parser != [] && forall k :: 0 <= k < |parser| ==> !IsSpace(parser[k])
    ensures ParserClause(v, i) == Some(parser)
  {
    var w := v[i..i + 12];
    assert v[i] == w[0] == 'W';
    SpanIs(v, i, i, Spaces);
    assert v[i..i + 11] == w[..11];
    assert v[i + 11] == w[11] == ' ';
    assert v[i + 12 + 0] == parser[0];
    SpanIs(v, i + 11, i + 12, Spaces);
    forall k | i + 12 <= k < i + 12 + |parser|
      ensures InClass(v[k], NonWhitespace)
    {
      assert v[k] == parser[k - i - 12];
    }
    SpanIs(v, i + 12, i + 12 + |parser|, NonWhitespace);
    assert v[i + 12..i + 12 + |parser|] == parser;
  }

  // ---------------------------------------------------------------------
  // `_re_partition`: (?:.*)(?:SUB)?PARTITION(?:.*)
  // ---------------------------------------------------------------------

  /**
   * `_re_partition` with `re.match`: `PARTITION`, in any case, before the
   * first line break (`.` does not cross one; the optional `SUB` in front
   * changes nothing).
   */
  predicate PartitionMatch(line: string) {
    PartitionFrom(line, 0)
  }

  predicate PartitionFrom(line: string, i: nat)
    requires i <= |line|
    decreases |line| - i
  {
    WordAt(line, i, "PARTITION") || (i < |line| && line[i] != '\n' && PartitionFrom(line, i + 1))
  }

  /** The scan agrees with its description: an occurrence with no line break before it. */
  lemma {:induction false} PartitionFromIff(line: string, i: nat)
    requires i <= |line|
    ensures PartitionFrom(line, i) <==>
            exists j :: i <= j <= |line| && WordAt(line, j, "PARTITION")
                        && forall k :: i <= k < j ==> line[k] != '\n'
  {
    if PartitionFrom(line, i) {
      var j := PartitionAt(line, i);
    }
    if exists j :: i <= j <= |line| && WordAt(line, j, "PARTITION")
                   && forall k :: i <= k < j ==> line[k] != '\n' {
      var j :| i <= j <= |line| && WordAt(line, j, "PARTITION")
               && forall k :: i <= k < j ==> line[k] != '\n';
      PartitionBefore(line, i, j);
    }
  }

  /** Where the scan succeeds, an occurrence with no line break before it. */
  lemma {:induction false} PartitionAt(line: string, i: nat) returns (j: nat)
    requires i <= |line| && PartitionFrom(line, i)
    ensures i <= j <= |line| && WordAt(line, j, "PARTITION")
    ensures forall k :: i <= k < j ==> line[k] != '\n'
    decreases |line| - i
  {
    if WordAt(line, i, "PARTITION") {
      j := i;
    } else {
      j := PartitionAt(line, i + 1);
    }
  }

  /** An occurrence with no line break before it is found by the scan. */
  lemma {:induction false} PartitionBefore(line: string, i: nat, j: nat)
    requires i <= j <= |line| && WordAt(line, j, "PARTITION")
    requires forall k :: i <= k < j ==> line[k] != '\n'
    ensures PartitionFrom(line, i)
    decreases j - i
  {
    if i < j {
      PartitionBefore(line, i + 1, j);
    }
  }

  // ---------------------------------------------------------------------
  // Warnings (`util.warn`)
  // ---------------------------------------------------------------------

  /** The warnings the parser emits, one constructor per message. */
  datatype Warning =
    | UnknownSchemaContent(line: string)                  // "Unknown schema content: %r"
    | UnknownColumnDefinition(line: string)               // "Unknown column definition %r"
    | IncompleteColumnReflection(line: string)            // "Incomplete reflection of column definition %r"
    | UnrecognizedType(typeName: string, columnName: string)  // "Did not recognize type '%s' of column '%s'"
}
