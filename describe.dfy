/**
 * `_describe_to_create`: the rows of `DESCRIBE` rewritten as a
 * `SHOW CREATE TABLE` text holding only the columns, so that the parser
 * can read a view the way it reads a table.
 */
module Describe {
  import opened Text
  import opened Scanners
  import opened Patterns

  /**
   * One row of `DESCRIBE`: Field, Type, Null, Key, Default, Extra. The
   * row's values are None or strings; `Null`, `Default` and `Extra` are
   * tested for Python truthiness, and `Key` is not used.
   */
  datatype DescribeRow = DescribeRow(
    name: string,
    colType: string,
    nullable: Option<string>,
    key: Option<string>,
    default: Option<string>,
    extra: Option<string>)

  /** `NOT NULL` when the row's `Null` value is falsy. */
  function NullWords(row: DescribeRow): seq<string> {
    if !Truthy(row.nullable) then ["NOT NULL"] else []
  }

  /**
   * The default clause: none for a falsy default or one that mentions
   * `auto_increment`; a `C...` default of a `timestamp...` column and a
   * `NULL` default unquoted; any other default quoted, `'` doubled.
   */
  function DefaultWords(row: DescribeRow): (r: seq<string>)
    ensures r == [] <==> !Truthy(row.default) || Contains(row.default.value, "auto_increment")
    ensures r != [] ==> |r| == 2 && r[0] == "DEFAULT"
    ensures r != [] ==>
              (r[1] == row.default.value <==>
                 || (StartsWith(row.colType, "timestamp") && StartsWith(row.default.value, "C"))
                 || row.default.value == "NULL")
    ensures r != [] && r[1] != row.default.value ==> StripValue(r[1]) == row.default.value
  {
    if !Truthy(row.default) then []
    else
      var d := row.default.value;
      StripQuoted(d);
      assert |QuoteValue(d)| >= |d| + 2;
      if Contains(d, "auto_increment") then []
      else if StartsWith(row.colType, "timestamp") && StartsWith(d, "C") then ["DEFAULT", d]
      else if d == "NULL" then ["DEFAULT", d]
      else ["DEFAULT", QuoteValue(d)]
  }

  function ExtraWords(row: DescribeRow): seq<string> {
    if Truthy(row.extra) then [row.extra.value] else []
  }

  /** The list `line` of one row, before it is joined by single spaces. */
  function RowWords(p: Preparer, row: DescribeRow): (r: seq<string>)
    ensures |r| >= 3 && r[0] == " " && r[1] == p.QuoteIdentifier(row.name)
  {
    [" ", p.QuoteIdentifier(row.name), row.colType] + NullWords(row) + DefaultWords(row) + ExtraWords(row)
  }

  function RowLine(p: Preparer, row: DescribeRow): string {
    JoinWith(" ", RowWords(p, row))
  }

  function RowLines(p: Preparer, rows: seq<DescribeRow>): (r: seq<string>)
    ensures |r| == |rows| && forall i :: 0 <= i < |rows| ==> r[i] == RowLine(p, rows[i])
  {
    seq(|rows|, i requires 0 <= i < |rows| => RowLine(p, rows[i]))
  }

  /** The text `_describe_to_create` returns. */
  function CreateText(p: Preparer, tableName: string, rows: seq<DescribeRow>): string {
    CreateLine(p, tableName) + "\n" + JoinWith(",\n", RowLines(p, rows)) + "\n) "
  }

  /** The loop of `_describe_to_create`, one buffer entry per row. */
  method DescribeToCreate(p: Preparer, tableName: string, rows: seq<DescribeRow>) returns (text: string)
    ensures text == CreateText(p, tableName, rows)
  {
    var buffer: seq<string> := [];
    for i := 0 to |rows|
      invariant |buffer| == i
      invariant forall k :: 0 <= k < i ==> buffer[k] == RowLine(p, rows[k])
    {
      var line := LineOf(p, rows[i]);
      buffer := buffer + [JoinWith(" ", line)];
    }
    assert buffer == RowLines(p, rows);
    text := CreateLine(p, tableName) + "\n" + JoinWith(",\n", buffer) + "\n) ";
  }

  /** The `line` list of one row, built word by word. */
  method LineOf(p: Preparer, row: DescribeRow) returns (line: seq<string>)
    ensures line == RowWords(p, row)
  {
    line := [" "];
    line := line + [p.QuoteIdentifier(row.name)];
    line := line + [row.colType];
    if !Truthy(row.nullable) {
      line := line + ["NOT NULL"];
    }
    assert line == [" ", p.QuoteIdentifier(row.name), row.colType] + NullWords(row);
    var before := line;
    if Truthy(row.default) {
      var d := row.default.value;
      if Contains(d, "auto_increment") {
      } else if StartsWith(row.colType, "timestamp") && StartsWith(d, "C") {
        line := line + ["DEFAULT", d];
      } else if d == "NULL" {
        line := line + ["DEFAULT", d];
      } else {
        line := line + ["DEFAULT", QuoteValue(d)];
      }
    }
    assert line == before + DefaultWords(row);
    if Truthy(row.extra) {
      line := line + [row.extra.value];
    }
  }

  // ---------------------------------------------------------------------
  // What the parser reads back
  // ---------------------------------------------------------------------

  /** Every column line starts with two spaces and the initial quote, the prefix of the column branch. */
  lemma {:induction false} RowLineStart(p: Preparer, row: DescribeRow)
    ensures StartsWith(RowLine(p, row), "  " + [p.initialQuote])
  {
    var ws := RowWords(p, row);
    var rest := JoinWith(" ", ws[1..]);
    assert RowLine(p, row) == " " + " " + rest;
    JoinWithHead(" ", ws[1..]);
    assert rest[0] == p.QuoteIdentifier(row.name)[0];
    assert (" " + " " + rest)[..3] == "  " + [rest[0]];
  }

  /** `NOT NULL` is printed exactly for a row whose `Null` value is falsy. */
  lemma {:induction false} NotNullPrinted(p: Preparer, row: DescribeRow)
    requires ValidPreparer(p)
    requires row.colType != "NOT NULL" && row.extra != Some("NOT NULL")
    ensures "NOT NULL" in RowWords(p, row) <==> !Truthy(row.nullable)
  {
    var q := p.QuoteIdentifier(row.name);
    assert q[0] == p.initialQuote && q != "NOT NULL";
    DefaultNeverNotNull(row);
    var ws := RowWords(p, row);
    assert ws == [" ", q, row.colType] + NullWords(row) + DefaultWords(row) + ExtraWords(row);
  }

  /**
   * A default that mentions `auto_increment` is not printed: the row holds
   * the word `DEFAULT` exactly when its default is truthy and does not.
   */
  lemma {:induction false} AutoIncrementDefaultHidden(p: Preparer, row: DescribeRow)
    requires ValidPreparer(p)
    requires row.colType != "DEFAULT" && row.extra != Some("DEFAULT")
    ensures "DEFAULT" in RowWords(p, row) <==>
            Truthy(row.default) && !Contains(row.default.value, "auto_increment")
  {
    var q := p.QuoteIdentifier(row.name);
    assert q[0] == p.initialQuote && q != "DEFAULT";
    var ws := RowWords(p, row);
    assert ws == [" ", q, row.colType] + NullWords(row) + DefaultWords(row) + ExtraWords(row);
    if !Truthy(row.default) || Contains(row.default.value, "auto_increment") {
      assert "DEFAULT" !in NullWords(row);
      assert "DEFAULT" !in ExtraWords(row);
      assert forall i :: 0 <= i < |ws| ==> ws[i] != "DEFAULT";
    } else {
      assert ws[3 + |NullWords(row)|] == "DEFAULT";
    }
  }

  lemma {:induction false} DefaultNeverNotNull(row: DescribeRow)
    ensures "NOT NULL" !in DefaultWords(row)
  {
    if Truthy(row.default) {
      var d := row.default.value;
      assert QuoteValue(d)[0] == '\'';
      assert StartsWith(d, "C") ==> d[0] == 'C';
    }
  }

  /** A printed literal default reads back as the original value once its quotes are stripped. */
  lemma {:induction false} QuotedDefaultDecodes(row: DescribeRow)
    requires Truthy(row.default)
    requires !Contains(row.default.value, "auto_increment") && row.default.value != "NULL"
    requires !(StartsWith(row.colType, "timestamp") && StartsWith(row.default.value, "C"))
    ensures DefaultWords(row) == ["DEFAULT", QuoteValue(row.default.value)]
    ensures StripValue(DefaultWords(row)[1]) == row.default.value
  {
    StripQuoted(row.default.value);
  }

  // ---------------------------------------------------------------------
  // The lines of the text
  // ---------------------------------------------------------------------

  /** The lines `",\n".join` leaves after a split on line breaks: a comma ends all but the last. */
  function CommaLines(ls: seq<string>): (r: seq<string>)
    ensures |r| == if ls == [] then 1 else |ls|
  {
    if ls == [] then [""]
    else if |ls| == 1 then ls
    else [ls[0] + ","] + CommaLines(ls[1..])
  }

  /** Every line `",\n".join` leaves starts as the joined lines do. */
  lemma {:induction false} CommaLinesStart(ls: seq<string>, prefix: string)
    requires ls != [] && forall i :: 0 <= i < |ls| ==> StartsWith(ls[i], prefix)
    ensures forall i :: 0 <= i < |CommaLines(ls)| ==> StartsWith(CommaLines(ls)[i], prefix)
    decreases |ls|
  {
    if |ls| > 1 {
      CommaLinesStart(ls[1..], prefix);
      assert (ls[0] + ",")[..|prefix|] == ls[0][..|prefix|];
      forall i | 0 <= i < |CommaLines(ls)|
        ensures StartsWith(CommaLines(ls)[i], prefix)
      {
        if i > 0 {
          assert CommaLines(ls)[i] == CommaLines(ls[1..])[i - 1];
        }
      }
    }
  }

  /** Every column line of the text, comma or not, starts with the prefix of the column branch. */
  lemma {:induction false} ColumnLinesStart(p: Preparer, rows: seq<DescribeRow>)
    requires rows != []
    ensures var ls := CommaLines(RowLines(p, rows));
            forall i :: 0 <= i < |ls| ==> StartsWith(ls[i], "  " + [p.initialQuote])
  {
    var lines := RowLines(p, rows);
    forall i | 0 <= i < |lines|
      ensures StartsWith(lines[i], "  " + [p.initialQuote])
    {
      RowLineStart(p, rows[i]);
    }
    CommaLinesStart(lines, "  " + [p.initialQuote]);
  }

  /** A row whose printed values hold no line break. */
  predicate RowPrintable(row: DescribeRow) {
    && NoLineBreak(row.name) && NoLineBreak(row.colType)
    && (row.default.Some? ==> NoLineBreak(row.default.value))
    && (row.extra.Some? ==> NoLineBreak(row.extra.value))
  }

  /**
   * Split on line breaks, the text is the `CREATE` line, one line per
   * column (an empty line when there are none) and the closing `) `.
   */
  lemma {:induction false} CreateTextLines(p: Preparer, tableName: string, rows: seq<DescribeRow>)
    requires ValidPreparer(p) && NoLineBreak(tableName)
    requires forall i :: 0 <= i < |rows| ==> RowPrintable(rows[i])
    ensures SplitLines(CreateText(p, tableName, rows)) ==
            [CreateLine(p, tableName)] + CommaLines(RowLines(p, rows)) + [") "]
  {
    var lines := RowLines(p, rows);
    forall i | 0 <= i < |lines|
      ensures NoLineBreak(lines[i])
    {
      RowLineNoBreak(p, rows[i]);
    }
    QuoteNoBreak(p, tableName);
    NoLineBreakConcat("CREATE TABLE ", p.QuoteIdentifier(tableName));
    NoLineBreakConcat("CREATE TABLE " + p.QuoteIdentifier(tableName), " (");
    var head := CreateLine(p, tableName);
    var tail := JoinWith(",\n", lines) + "\n) ";
    assert CreateText(p, tableName, rows) == head + "\n" + tail;
    SplitLinesCons(head, tail);
    SplitJoinedLines(lines);
  }

  lemma {:induction false} SplitJoinedLines(ls: seq<string>)
    requires forall i :: 0 <= i < |ls| ==> NoLineBreak(ls[i])
    ensures SplitLines(JoinWith(",\n", ls) + "\n) ") == CommaLines(ls) + [") "]
    decreases |ls|
  {
    SplitLinesSingle(") ");
    if ls == [] {
      assert JoinWith(",\n", ls) + "\n) " == "" + "\n" + ") ";
      SplitLinesCons("", ") ");
    } else if |ls| == 1 {
      assert JoinWith(",\n", ls) + "\n) " == ls[0] + "\n" + ") ";
      SplitLinesCons(ls[0], ") ");
    } else {
      var rest := JoinWith(",\n", ls[1..]) + "\n) ";
      assert JoinWith(",\n", ls) + "\n) " == (ls[0] + ",") + "\n" + rest;
      NoLineBreakConcat(ls[0], ",");
      SplitLinesCons(ls[0] + ",", rest);
      SplitJoinedLines(ls[1..]);
    }
  }

  lemma {:induction false} QuoteNoBreak(p: Preparer, s: string)
    requires ValidPreparer(p) && NoLineBreak(s)
    ensures NoLineBreak(p.QuoteIdentifier(s))
  {
    DoubleKeepsAbsent(s, '\n', p.finalQuote);
    DoubleKeepsAbsent(s, '\r', p.finalQuote);
    NoLineBreakConcat([p.initialQuote], p.EscapeIdentifier(s));
    NoLineBreakConcat([p.initialQuote] + p.EscapeIdentifier(s), [p.finalQuote]);
  }

  lemma {:induction false} RowLineNoBreak(p: Preparer, row: DescribeRow)
    requires ValidPreparer(p) && RowPrintable(row)
    ensures NoLineBreak(RowLine(p, row))
  {
    var ws := RowWords(p, row);
    QuoteNoBreak(p, row.name);
    if Truthy(row.default) {
      var d := row.default.value;
      DoubleKeepsAbsent(d, '\n', '\'');
      DoubleKeepsAbsent(d, '\r', '\'');
      NoLineBreakConcat("'", DoubleChar(d, '\''));
      NoLineBreakConcat("'" + DoubleChar(d, '\''), "'");
    }
    assert forall i :: 0 <= i < |ws| ==> NoLineBreak(ws[i]);
    JoinNoLineBreak(" ", ws);
  }
}
