/**
 * `MySQLTableDefinitionParser.parse` and the `ReflectedState` it fills.
 *
 * The text of `SHOW CREATE TABLE` is split on `\r?\n` and every line is
 * routed by its beginning to one handler. The specification is a fold of
 * `Step` over the lines; the parser class below performs the same work
 * in place, on a fresh `ReflectedState`, and is proved to agree with it.
 */
module Reflection {
  import opened Text
  import opened Scanners
  import opened Patterns
  import opened TableOptions
  import opened Columns
  import opened Constraints
  import opened Describe

  /** The contents of a `ReflectedState`, as a value. */
  datatype Snapshot = Snapshot(
    columns: seq<Column>,
    tableOptions: map<string, string>,
    tableName: Option<string>,
    keys: seq<KeySpec>,
    fkConstraints: seq<FkSpec>,
    ckConstraints: seq<CkSpec>)

  const EmptySnapshot: Snapshot := Snapshot([], map[], None, [], [], [])

  /** What the parser is built from: the dialect's name and type registry, the preparer, the large patterns. */
  datatype ParserConfig = ParserConfig(
    dialectName: string,
    ischemaNames: map<string, TypeClass>,
    preparer: Preparer,
    patterns: Patterns)

  // ---------------------------------------------------------------------
  // Routing
  // ---------------------------------------------------------------------

  /** The branches of `parse`, in the order they are tested. */
  datatype LineKind =
    | ColumnDefinition       // "  " + initial quote
    | TableOptionsLine       // ") "
    | BareParen              // ")" (ANSI mode)
    | CreateStatement        // "CREATE "
    | Blank                  // ""
    | ConstraintDefinition   // anything else

  /** The branch a line takes: the first test it passes, in source order. */
  function Classify(iq: char, line: string): (k: LineKind)
    ensures k == ColumnDefinition <==> StartsWith(line, "  " + [iq])
    ensures k == TableOptionsLine <==> !StartsWith(line, "  " + [iq]) && StartsWith(line, ") ")
    ensures k == BareParen <==> line == ")"
    ensures k == CreateStatement <==>
              !StartsWith(line, "  " + [iq]) && !StartsWith(line, ") ") && StartsWith(line, "CREATE ")
    ensures k == Blank <==> line == ""
    ensures k == ConstraintDefinition <==>
              !StartsWith(line, "  " + [iq]) && !StartsWith(line, ") ") && line != ")"
              && !StartsWith(line, "CREATE ") && line != ""
  {
    if StartsWith(line, "  " + [iq]) then ColumnDefinition
    else if StartsWith(line, ") ") then TableOptionsLine
    else if line == ")" then BareParen
    else if StartsWith(line, "CREATE ") then CreateStatement
    else if line == "" then Blank
    else ConstraintDefinition
  }

  // ---------------------------------------------------------------------
  // The fold
  // ---------------------------------------------------------------------

  /** The state of a run: what is collected so far, the warnings emitted, and whether an exception ended it. */
  datatype Run = Run(state: Snapshot, warnings: seq<Warning>, raised: bool)

  /** The column a column line appends, if any. */
  function Appended(c: Outcome<Option<Column>>): (r: seq<Column>)
    ensures |r| <= 1
    ensures |r| == 1 <==> c.Done? && c.value.Some?
    ensures |r| == 1 ==> r[0] == c.value.value
  {
    if c.Done? && c.value.Some? then [c.value.value] else []
  }

  /** The table name of a `CREATE` line, unescaped; the old name when the pattern does not match. */
  function TableNameOf(p: Preparer, line: string, old_name: Option<string>): (r: Option<string>)
    ensures TableNameMatch(line, p.initialQuote, p.finalQuote).None? ==> r == old_name
    ensures TableNameMatch(line, p.initialQuote, p.finalQuote).Some? ==>
              r == Some(p.UnescapeIdentifier(TableNameMatch(line, p.initialQuote, p.finalQuote).value))
  {
    match TableNameMatch(line, p.initialQuote, p.finalQuote)
    case Some(raw) => Some(p.UnescapeIdentifier(raw))
    case None => old_name
  }

  /** The effect of one line on a run. */
  function Step(cfg: ParserConfig, run: Run, line: string): (r: Run)
    ensures run.raised ==> r == run
    ensures !run.raised && Classify(cfg.preparer.initialQuote, line) in {BareParen, Blank} ==> r == run
    ensures !run.raised && Classify(cfg.preparer.initialQuote, line) == ConstraintDefinition ==>
              ConstraintOf(cfg.preparer, cfg.patterns, line) == Done(Unrecognized) ==>
              r == run.(warnings := run.warnings + [UnknownSchemaContent(line)])
    ensures !run.raised && Classify(cfg.preparer.initialQuote, line) == ConstraintDefinition ==>
              ConstraintOf(cfg.preparer, cfg.patterns, line) == Done(Partition) ==> r == run
    ensures !run.raised && Classify(cfg.preparer.initialQuote, line) == ColumnDefinition ==>
              var c := ParseColumnLine(cfg.ischemaNames, cfg.patterns, line);
              && r.state == run.state.(columns := run.state.columns + Appended(c.column))
              && r.warnings == run.warnings + c.warnings
              && (r.raised <==> c.column.Raised?)
    ensures !run.raised && Classify(cfg.preparer.initialQuote, line) == TableOptionsLine ==>
              r == run.(state := run.state.(tableOptions := run.state.tableOptions + TableOptionsOf(cfg.dialectName, line)))
    ensures !run.raised && Classify(cfg.preparer.initialQuote, line) == CreateStatement ==>
              r == run.(state := run.state.(tableName := TableNameOf(cfg.preparer, line, run.state.tableName)))
    ensures !run.raised && Classify(cfg.preparer.initialQuote, line) == ConstraintDefinition ==>
              var c := ConstraintOf(cfg.preparer, cfg.patterns, line);
              && (r.raised <==> c.Raised?)
              && (c.Done? && c.value.Key? ==> r == run.(state := run.state.(keys := run.state.keys + [c.value.key])))
              && (c.Done? && c.value.ForeignKey? ==>
                    r == run.(state := run.state.(fkConstraints := run.state.fkConstraints + [c.value.fk])))
              && (c.Done? && c.value.Check? ==>
                    r == run.(state := run.state.(ckConstraints := run.state.ckConstraints + [c.value.ck])))
  {
    if run.raised then run
    else
      var st := run.state;
      match Classify(cfg.preparer.initialQuote, line)
      case ColumnDefinition =>
        var c := ParseColumnLine(cfg.ischemaNames, cfg.patterns, line);
        Run(st.(columns := st.columns + Appended(c.column)), run.warnings + c.warnings, c.column.Raised?)
      case TableOptionsLine =>
        run.(state := st.(tableOptions := st.tableOptions + TableOptionsOf(cfg.dialectName, line)))
      case BareParen => run
      case CreateStatement =>
        run.(state := st.(tableName := TableNameOf(cfg.preparer, line, st.tableName)))
      case Blank => run
      case ConstraintDefinition =>
        match ConstraintOf(cfg.preparer, cfg.patterns, line)
        case Raised => run.(raised := true)
        case Done(Key(k)) => run.(state := st.(keys := st.keys + [k]))
        case Done(ForeignKey(f)) => run.(state := st.(fkConstraints := st.fkConstraints + [f]))
        case Done(Check(c)) => run.(state := st.(ckConstraints := st.ckConstraints + [c]))
        case Done(Partition) => run
        case Done(Unrecognized) => run.(warnings := run.warnings + [UnknownSchemaContent(line)])
  }

  /** The lines applied one after the other, from the first. */
  function RunLines(cfg: ParserConfig, run: Run, lines: seq<string>): Run
    decreases |lines|
  {
    if lines == [] then run else RunLines(cfg, Step(cfg, run, lines[0]), lines[1..])
  }

  /** What `parse` computes from the text: the fold over its lines, from an empty state. */
  function ParseSpec(cfg: ParserConfig, showCreate: string): Run {
    RunLines(cfg, Run(EmptySnapshot, [], false), SplitLines(showCreate))
  }

  /**
   * When `parse` raises nothing, its columns, table options, keys, foreign
   * keys and check constraints are those of its lines, in input order.
   */
  lemma {:induction false} ParseInOrder(cfg: ParserConfig, showCreate: string)
    requires !ParseSpec(cfg, showCreate).raised
    ensures var r := ParseSpec(cfg, showCreate);
            var lines := SplitLines(showCreate);
            var cs := ConstraintsOf(cfg, lines);
            && r.state.columns == ColumnsOf(cfg, lines)
            && r.state.tableOptions == OptionLinesOf(cfg, lines)
            && r.state.keys == KeysIn(cs)
            && r.state.fkConstraints == FksIn(cs)
            && r.state.ckConstraints == CksIn(cs)
  {
    FoldInOrder(cfg, SplitLines(showCreate));
  }

  lemma {:induction false} FoldInOrder(cfg: ParserConfig, lines: seq<string>)
    requires !RunLines(cfg, Run(EmptySnapshot, [], false), lines).raised
    ensures var r := RunLines(cfg, Run(EmptySnapshot, [], false), lines);
            var cs := ConstraintsOf(cfg, lines);
            && r.state.columns == ColumnsOf(cfg, lines)
            && r.state.tableOptions == OptionLinesOf(cfg, lines)
            && r.state.keys == KeysIn(cs)
            && r.state.fkConstraints == FksIn(cs)
            && r.state.ckConstraints == CksIn(cs)
  {
    var start := Run(EmptySnapshot, [], false);
    ColumnsInOrder(cfg, start, lines);
    OptionsInOrder(cfg, start, lines);
    ConstraintsInOrder(cfg, start, lines);
    assert map[] + OptionLinesOf(cfg, lines) == OptionLinesOf(cfg, lines);
  }

  /** The fold from line `i` on is one step, then the fold from line `i + 1` on. */
  lemma {:induction false} RunLinesAt(cfg: ParserConfig, run: Run, lines: seq<string>, i: nat)
    requires i < |lines|
    ensures RunLines(cfg, run, lines[i..]) == RunLines(cfg, Step(cfg, run, lines[i]), lines[i + 1..])
  {
    assert lines[i..][0] == lines[i] && lines[i..][1..] == lines[i + 1..];
  }

  /** An exception ends the run: later lines change nothing. */
  lemma {:induction false} RaisedStays(cfg: ParserConfig, run: Run, lines: seq<string>)
    requires run.raised
    ensures RunLines(cfg, run, lines) == run
    decreases |lines|
  {
    if lines != [] {
      RaisedStays(cfg, Step(cfg, run, lines[0]), lines[1..]);
    }
  }

  lemma {:induction false} RunAppend(cfg: ParserConfig, run: Run, a: seq<string>, b: seq<string>)
    ensures RunLines(cfg, run, a + b) == RunLines(cfg, RunLines(cfg, run, a), b)
    decreases |a|
  {
    if a == [] {
      assert a + b == b;
    } else {
      assert (a + b)[0] == a[0] && (a + b)[1..] == a[1..] + b;
      RunAppend(cfg, Step(cfg, run, a[0]), a[1..], b);
    }
  }

  // ---------------------------------------------------------------------
  // The lists, in input order
  // ---------------------------------------------------------------------

  /** The constraint lines' results, one per line routed to `_parse_constraints`, in order. */
  function ConstraintsOf(cfg: ParserConfig, lines: seq<string>): seq<Outcome<Constraint>>
    decreases |lines|
  {
    if lines == [] then []
    else
      var here := if Classify(cfg.preparer.initialQuote, lines[0]) == ConstraintDefinition
                  then [ConstraintOf(cfg.preparer, cfg.patterns, lines[0])] else [];
      here + ConstraintsOf(cfg, lines[1..])
  }

  function KeysIn(cs: seq<Outcome<Constraint>>): seq<KeySpec> {
    if cs == [] then []
    else (if cs[0].Done? && cs[0].value.Key? then [cs[0].value.key] else []) + KeysIn(cs[1..])
  }

  function FksIn(cs: seq<Outcome<Constraint>>): seq<FkSpec> {
    if cs == [] then []
    else (if cs[0].Done? && cs[0].value.ForeignKey? then [cs[0].value.fk] else []) + FksIn(cs[1..])
  }

  function CksIn(cs: seq<Outcome<Constraint>>): seq<CkSpec> {
    if cs == [] then []
    else (if cs[0].Done? && cs[0].value.Check? then [cs[0].value.ck] else []) + CksIn(cs[1..])
  }

  /**
   * When no exception ends the run, the keys, foreign keys and check
   * constraints are exactly those of the constraint lines, in input order.
   */
  lemma {:induction false} ConstraintsInOrder(cfg: ParserConfig, run: Run, lines: seq<string>)
    requires !RunLines(cfg, run, lines).raised
    ensures var r := RunLines(cfg, run, lines);
            var cs := ConstraintsOf(cfg, lines);
            && r.state.keys == run.state.keys + KeysIn(cs)
            && r.state.fkConstraints == run.state.fkConstraints + FksIn(cs)
            && r.state.ckConstraints == run.state.ckConstraints + CksIn(cs)
    decreases |lines|
  {
    if lines != [] {
      var next := Step(cfg, run, lines[0]);
      RunLinesAt(cfg, run, lines, 0);
      assert lines[0..] == lines;
      if next.raised {
        RaisedStays(cfg, next, lines[1..]);
      } else {
        ConstraintsInOrder(cfg, next, lines[1..]);
        StepConstraints(cfg, run, lines[0]);
        ConstraintsOfCons(cfg, lines);
        var here, rest := ConstraintsOf(cfg, [lines[0]]), ConstraintsOf(cfg, lines[1..]);
        SplitKeys(here, rest);
        Associative(run.state.keys, KeysIn(here), KeysIn(rest));
        Associative(run.state.fkConstraints, FksIn(here), FksIn(rest));
        Associative(run.state.ckConstraints, CksIn(here), CksIn(rest));
      }
    }
  }

  lemma {:induction false} ConstraintsOfCons(cfg: ParserConfig, lines: seq<string>)
    requires lines != []
    ensures |ConstraintsOf(cfg, [lines[0]])| <= 1
    ensures ConstraintsOf(cfg, lines) == ConstraintsOf(cfg, [lines[0]]) + ConstraintsOf(cfg, lines[1..])
  {
    assert [lines[0]][1..] == [];
  }

  /** One line appends to the lists exactly what its constraint, if it has one, holds. */
  lemma {:induction false} StepConstraints(cfg: ParserConfig, run: Run, line: string)
    requires !Step(cfg, run, line).raised
    ensures var r, cs := Step(cfg, run, line), ConstraintsOf(cfg, [line]);
            && r.state.keys == run.state.keys + KeysIn(cs)
            && r.state.fkConstraints == run.state.fkConstraints + FksIn(cs)
            && r.state.ckConstraints == run.state.ckConstraints + CksIn(cs)
  {
    assert [line][0] == line && [line][1..] == [];
  }

  lemma {:induction false} SplitKeys(a: seq<Outcome<Constraint>>, b: seq<Outcome<Constraint>>)
    requires |a| <= 1
    ensures KeysIn(a + b) == KeysIn(a) + KeysIn(b)
    ensures FksIn(a + b) == FksIn(a) + FksIn(b)
    ensures CksIn(a + b) == CksIn(a) + CksIn(b)
  {
    if a == [] {
      assert a + b == b;
    } else {
      assert (a + b)[0] == a[0] && (a + b)[1..] == b;
    }
  }

  /** The columns of the column lines, one per line that yields a column, in input order. */
  function ColumnsOf(cfg: ParserConfig, lines: seq<string>): seq<Column>
    decreases |lines|
  {
    if lines == [] then []
    else
      var here := if Classify(cfg.preparer.initialQuote, lines[0]) == ColumnDefinition
                  then Appended(ParseColumnLine(cfg.ischemaNames, cfg.patterns, lines[0]).column) else [];
      here + ColumnsOf(cfg, lines[1..])
  }

  /**
   * When no exception ends the run, the columns are exactly those of the
   * column lines, in input order.
   */
  lemma {:induction false} ColumnsInOrder(cfg: ParserConfig, run: Run, lines: seq<string>)
    requires !RunLines(cfg, run, lines).raised
    ensures RunLines(cfg, run, lines).state.columns == run.state.columns + ColumnsOf(cfg, lines)
    decreases |lines|
  {
    if lines != [] {
      var next := Step(cfg, run, lines[0]);
      RunLinesAt(cfg, run, lines, 0);
      assert lines[0..] == lines;
      if next.raised {
        RaisedStays(cfg, next, lines[1..]);
      } else {
        ColumnsInOrder(cfg, next, lines[1..]);
        StepColumns(cfg, run, lines[0]);
        Associative(run.state.columns, ColumnsOf(cfg, [lines[0]]), ColumnsOf(cfg, lines[1..]));
        assert [lines[0]][1..] == [];
      }
    }
  }

  /** One line appends to the columns exactly what its column line, if it is one, yields. */
  lemma {:induction false} StepColumns(cfg: ParserConfig, run: Run, line: string)
    requires !Step(cfg, run, line).raised
    ensures Step(cfg, run, line).state.columns == run.state.columns + ColumnsOf(cfg, [line])
  {
    assert [line][0] == line && [line][1..] == [];
  }

  /** The table options one line contributes: its own when it is a table-option line. */
  function LineOptions(cfg: ParserConfig, line: string): map<string, string>
  {
    if Classify(cfg.preparer.initialQuote, line) == TableOptionsLine
    then TableOptionsOf(cfg.dialectName, line) else map[]
  }

  /** The table options of the closing lines, merged in input order: a later line's entry wins. */
  function OptionLinesOf(cfg: ParserConfig, lines: seq<string>): map<string, string>
    decreases |lines|
  {
    if lines == [] then map[] else LineOptions(cfg, lines[0]) + OptionLinesOf(cfg, lines[1..])
  }

  /** A step that raises nothing updates the table options with the line's own, and only those. */
  lemma StepOptions(cfg: ParserConfig, run: Run, line: string)
    requires !run.raised && !Step(cfg, run, line).raised
    ensures Step(cfg, run, line).state.tableOptions == run.state.tableOptions + LineOptions(cfg, line)
  {
    if Classify(cfg.preparer.initialQuote, line) != TableOptionsLine {
      assert run.state.tableOptions + map[] == run.state.tableOptions;
    }
  }

  /**
   * When no exception ends the run, the table options are those the run
   * started with, updated by each table-option line in input order.
   */
  lemma {:induction false} OptionsInOrder(cfg: ParserConfig, run: Run, lines: seq<string>)
    requires !RunLines(cfg, run, lines).raised
    ensures RunLines(cfg, run, lines).state.tableOptions == run.state.tableOptions + OptionLinesOf(cfg, lines)
    decreases |lines|
  {
    if lines == [] {
      assert run.state.tableOptions + map[] == run.state.tableOptions;
    } else {
      var next := Step(cfg, run, lines[0]);
      RunLinesAt(cfg, run, lines, 0);
      assert lines[0..] == lines;
      if next.raised {
        RaisedStays(cfg, next, lines[1..]);
      } else {
        OptionsInOrder(cfg, next, lines[1..]);
        StepOptions(cfg, run, lines[0]);
        UnionAssociative(run.state.tableOptions, LineOptions(cfg, lines[0]), OptionLinesOf(cfg, lines[1..]));
      }
    }
  }

  lemma {:induction false} UnionAssociative(a: map<string, string>, b: map<string, string>, c: map<string, string>)
    ensures (a + b) + c == a + (b + c)
  {
  }

  /** Warnings already emitted before a run are carried along unchanged. */
  lemma {:induction false} StepWarnings(cfg: ParserConfig, st: Snapshot, w: seq<Warning>, v: seq<Warning>, raised: bool, line: string)
    ensures var r := Step(cfg, Run(st, v, raised), line);
            Step(cfg, Run(st, w + v, raised), line) == r.(warnings := w + r.warnings)
  {
    Associative(w, v, ParseColumnLine(cfg.ischemaNames, cfg.patterns, line).warnings);
    Associative(w, v, [UnknownSchemaContent(line)]);
  }

  lemma {:induction false} RunWarnings(cfg: ParserConfig, st: Snapshot, w: seq<Warning>, v: seq<Warning>, raised: bool, lines: seq<string>)
    ensures var r := RunLines(cfg, Run(st, v, raised), lines);
            RunLines(cfg, Run(st, w + v, raised), lines) == r.(warnings := w + r.warnings)
    decreases |lines|
  {
    if lines != [] {
      var next := Step(cfg, Run(st, v, raised), lines[0]);
      StepWarnings(cfg, st, w, v, raised, lines[0]);
      RunWarnings(cfg, next.state, w, next.warnings, next.raised, lines[1..]);
    }
  }

  /** Storing the option `opt` is one more step of storing all of `options`. */
  lemma {:induction false} StoreOne(base: map<string, string>, dialectName: string, options: map<string, string>,
                                    remaining: set<string>, opt: string)
    requires opt in remaining && remaining <= options.Keys
    ensures (base + PrefixedOptions(dialectName, options - remaining))[dialectName + "_" + opt := options[opt]] ==
            base + PrefixedOptions(dialectName, options - (remaining - {opt}))
  {
    PrefixedInsert(dialectName, options - remaining, opt, options[opt]);
    OneLessRemaining(options, remaining, opt);
    UnionUpdate(base, PrefixedOptions(dialectName, options - remaining), dialectName + "_" + opt, options[opt]);
  }

  lemma {:induction false} OneLessRemaining(options: map<string, string>, remaining: set<string>, opt: string)
    requires opt in remaining && remaining <= options.Keys
    ensures (options - remaining)[opt := options[opt]] == options - (remaining - {opt})
  {
    var a := (options - remaining)[opt := options[opt]];
    var b := options - (remaining - {opt});
    assert a.Keys == b.Keys;
  }

  lemma {:induction false} UnionUpdate(base: map<string, string>, m: map<string, string>, k: string, v: string)
    ensures (base + m)[k := v] == base + m[k := v]
  {
    var a := (base + m)[k := v];
    var b := base + m[k := v];
    assert a.Keys == b.Keys;
  }

  /** Patterns registered group by group are the patterns of the option table, in its order. */
  lemma {:induction false} RegisteredInOrder(strings: seq<OptionPattern>, words: seq<OptionPattern>, regexes: seq<OptionPattern>)
    requires |strings| == |StringOptions| && forall j :: 0 <= j < |strings| ==> strings[j] == PatternOf(StringOptions[j])
    requires |words| == |WordOptions| && forall j :: 0 <= j < |words| ==> words[j] == PatternOf(WordOptions[j])
    requires |regexes| == |RegexOptions| && forall j :: 0 <= j < |regexes| ==> regexes[j] == PatternOf(RegexOptions[j])
    ensures var options := strings + words + regexes;
            && |options| == |OptionTable()|
            && forall i :: 0 <= i < |options| ==> options[i] == PatternOf(OptionTable()[i])
  {
    var t := OptionTable();
    var options := strings + words + regexes;
    forall i | 0 <= i < |options|
      ensures options[i] == PatternOf(t[i])
    {
      if i < |strings| {
        assert t[i] == StringOptions[i] && options[i] == strings[i];
      } else if i < |strings| + |words| {
        var j := i - |strings|;
        assert t[i] == WordOptions[j] && options[i] == words[j];
      } else {
        var j := i - |strings| - |words|;
        assert t[i] == RegexOptions[j] && options[i] == regexes[j];
      }
    }
  }

  /** `_add_option_string` for each directive: its name, then a quoted value. */
  method AddOptionStrings(directives: seq<Directive>) returns (pats: seq<OptionPattern>)
    requires forall d :: d in directives ==> KindOf(d) == QuotedString
    ensures |pats| == |directives| && forall j :: 0 <= j < |pats| ==> pats[j] == PatternOf(directives[j])
  {
    pats := [];
    for k := 0 to |directives|
      invariant |pats| == k && forall j :: 0 <= j < k ==> pats[j] == PatternOf(directives[j])
    {
      pats := pats + [OptionPattern(DirectiveName(directives[k]), QuotedString)];
    }
  }

  /** `_add_option_word` for each directive: its name, then a word. */
  method AddOptionWords(directives: seq<Directive>) returns (pats: seq<OptionPattern>)
    requires forall d :: d in directives ==> KindOf(d) == Word
    ensures |pats| == |directives| && forall j :: 0 <= j < |pats| ==> pats[j] == PatternOf(directives[j])
  {
    pats := [];
    for k := 0 to |directives|
      invariant |pats| == k && forall j :: 0 <= j < k ==> pats[j] == PatternOf(directives[j])
    {
      pats := pats + [OptionPattern(DirectiveName(directives[k]), Word)];
    }
  }

  // ---------------------------------------------------------------------
  // Reading back what `_describe_to_create` prints
  // ---------------------------------------------------------------------

  lemma {:induction false} RunOne(cfg: ParserConfig, run: Run, line: string)
    ensures RunLines(cfg, run, [line]) == Step(cfg, run, line)
  {
    assert [line][0] == line && [line][1..] == [];
  }

  /** A column line or a blank line changes only the columns, by at most one, and never warns of unknown content. */
  lemma {:induction false} StepColumnLine(cfg: ParserConfig, run: Run, line: string)
    requires line == "" || StartsWith(line, "  " + [cfg.preparer.initialQuote])
    ensures var r := Step(cfg, run, line);
            && r.state == run.state.(columns := r.state.columns)
            && |r.state.columns| <= |run.state.columns| + 1
            && forall w :: w in r.warnings ==> w in run.warnings || !w.UnknownSchemaContent?
  {
  }

  lemma {:induction false} ColumnLinesOnly(cfg: ParserConfig, run: Run, ls: seq<string>)
    requires forall i :: 0 <= i < |ls| ==> ls[i] == "" || StartsWith(ls[i], "  " + [cfg.preparer.initialQuote])
    ensures var r := RunLines(cfg, run, ls);
            && r.state == run.state.(columns := r.state.columns)
            && |r.state.columns| <= |run.state.columns| + |ls|
            && forall w :: w in r.warnings ==> w in run.warnings || !w.UnknownSchemaContent?
    decreases |ls|
  {
    if ls != [] {
      StepColumnLine(cfg, run, ls[0]);
      ColumnLinesOnly(cfg, Step(cfg, run, ls[0]), ls[1..]);
    }
  }

  /** The `CREATE` line of a printed table sets the table's name and nothing else. */
  lemma {:induction false} StepCreateLine(cfg: ParserConfig, run: Run, name: string)
    requires ValidPreparer(cfg.preparer) && name != [] && !run.raised
    ensures Step(cfg, run, CreateLine(cfg.preparer, name)) == run.(state := run.state.(tableName := Some(name)))
  {
    var p := cfg.preparer;
    var line := CreateLine(p, name);
    CreateLineShape(p, name);
    assert line[0] == 'C';
    assert StartsWith(line, "CREATE ") by {
      assert line[..7] == line[..13][..7];
    }
    assert Classify(p.initialQuote, line) == CreateStatement;
    TableNameRoundTrip(p, name);
  }

  /** The closing `) ` stores no option. */
  lemma {:induction false} StepClosingLine(cfg: ParserConfig, run: Run, line: string)
    requires |line| < 4 && StartsWith(line, ") ")
    ensures Step(cfg, run, line) == run
  {
    if !run.raised {
      ClosingLineKind(cfg.preparer.initialQuote, line);
      ShortLineHasNoOptions(cfg.dialectName, line);
      StepNoOptions(cfg, run, line);
    }
  }

  lemma {:induction false} ClosingLineKind(iq: char, line: string)
    requires |line| < 4 && StartsWith(line, ") ")
    ensures Classify(iq, line) == TableOptionsLine
  {
    assert line[0] != ' ';
  }

  /** A table-option line with no options leaves the run as it was. */
  lemma {:induction false} StepNoOptions(cfg: ParserConfig, run: Run, line: string)
    requires !run.raised && Classify(cfg.preparer.initialQuote, line) == TableOptionsLine
    requires TableOptionsOf(cfg.dialectName, line) == map[]
    ensures Step(cfg, run, line) == run
  {
    assert run.state.tableOptions + map[] == run.state.tableOptions;
  }

  /**
   * The text `_describe_to_create` prints for a view parses back to the
   * view's name, no table options, no key and no constraint, at most one
   * column per row, and never a warning of unknown schema content.
   */
  lemma {:induction false} DescribeRoundTrip(cfg: ParserConfig, name: string, rows: seq<DescribeRow>)
    requires ValidPreparer(cfg.preparer) && name != [] && NoLineBreak(name)
    requires forall i :: 0 <= i < |rows| ==> RowPrintable(rows[i])
    ensures var r := ParseSpec(cfg, CreateText(cfg.preparer, name, rows));
            && r.state.tableName == Some(name)
            && r.state.tableOptions == map[]
            && r.state.keys == [] && r.state.fkConstraints == [] && r.state.ckConstraints == []
            && |r.state.columns| <= |rows|
            && forall w :: w in r.warnings ==> !w.UnknownSchemaContent?
  {
    var p := cfg.preparer;
    var mid := CommaLines(RowLines(p, rows));
    CreateTextLines(p, name, rows);
    if rows == [] {
      assert mid == [""];
    } else {
      ColumnLinesStart(p, rows);
    }
    PrintedLines(cfg, name, mid, ") ", SplitLines(CreateText(p, name, rows)), |rows|);
  }

  /** The fold over a `CREATE` line, column lines and a short closing line. */
  lemma {:induction false} PrintedLines(cfg: ParserConfig, name: string, mid: seq<string>, close: string,
                                        lines: seq<string>, n: nat)
    requires ValidPreparer(cfg.preparer) && name != []
    requires forall i :: 0 <= i < |mid| ==> mid[i] == "" || StartsWith(mid[i], "  " + [cfg.preparer.initialQuote])
    requires |mid| <= n || mid == [""]
    requires |close| < 4 && StartsWith(close, ") ")
    requires lines == [CreateLine(cfg.preparer, name)] + mid + [close]
    ensures var r := RunLines(cfg, Run(EmptySnapshot, [], false), lines);
            && r.state.tableName == Some(name)
            && r.state.tableOptions == map[]
            && r.state.keys == [] && r.state.fkConstraints == [] && r.state.ckConstraints == []
            && |r.state.columns| <= n
            && forall w :: w in r.warnings ==> !w.UnknownSchemaContent?
  {
    var head := CreateLine(cfg.preparer, name);
    var run0 := Run(EmptySnapshot, [], false);
    RunAppend(cfg, run0, [head] + mid, [close]);
    RunAppend(cfg, run0, [head], mid);
    RunOne(cfg, run0, head);
    StepCreateLine(cfg, run0, name);
    var run1 := Step(cfg, run0, head);
    ColumnLinesOnly(cfg, run1, mid);
    var run2 := RunLines(cfg, run1, mid);
    if mid == [""] {
      assert Classify(cfg.preparer.initialQuote, "") == Blank;
      RunOne(cfg, run1, "");
    }
    RunOne(cfg, run2, close);
    StepClosingLine(cfg, run2, close);
  }

  // ---------------------------------------------------------------------
  // The classes
  // ---------------------------------------------------------------------

  /** `ReflectedState`: the lists and options `parse` fills in place. */
  class ReflectedState {
    var columns: seq<Column>
    var tableOptions: map<string, string>
    var tableName: Option<string>
    var keys: seq<KeySpec>
    var fkConstraints: seq<FkSpec>
    var ckConstraints: seq<CkSpec>
    /** Set by `parse`; None until then. */
    var charset: Option<string>

    constructor ()
      ensures Contents() == EmptySnapshot && charset.None?
    {
      columns := [];
      tableOptions := map[];
      tableName := None;
      keys := [];
      fkConstraints := [];
      ckConstraints := [];
      charset := None;
    }

    function Contents(): Snapshot
      reads this
    {
      Snapshot(columns, tableOptions, tableName, keys, fkConstraints, ckConstraints)
    }
  }

  /** `MySQLTableDefinitionParser`: the patterns prepared once, the warnings it emits, and the handlers. */
  class TableDefinitionParser {
    const dialectName: string
    const ischemaNames: map<string, TypeClass>
    const preparer: Preparer
    const patterns: Patterns
    /** `_pr_options`: one pattern per table option, in registration order. */
    const prOptions: seq<OptionPattern>
    /** What `util.warn` was called with, oldest first. */
    var warnings: seq<Warning>

    function Config(): ParserConfig {
      ParserConfig(dialectName, ischemaNames, preparer, patterns)
    }

    /** `_pr_options` holds the pattern of every option of the table, in its order. */
    predicate OptionsRegistered() {
      && |prOptions| == |OptionTable()|
      && forall i :: 0 <= i < |prOptions| ==> prOptions[i] == PatternOf(OptionTable()[i])
    }

    /** `__init__` and the table-option part of `_prep_regexes`. */
    constructor (dialectName: string, ischemaNames: map<string, TypeClass>, preparer: Preparer, patterns: Patterns)
      ensures Config() == ParserConfig(dialectName, ischemaNames, preparer, patterns)
      ensures OptionsRegistered()
      ensures warnings == []
    {
      this.dialectName := dialectName;
      this.ischemaNames := ischemaNames;
      this.preparer := preparer;
      this.patterns := patterns;
      RegistrationKinds();
      var strings := AddOptionStrings(StringOptions);
      var words := AddOptionWords(WordOptions);
      var regexes := [OptionPattern("UNION", ParenList), OptionPattern("TABLESPACE", UpToStorageDisk),
                      OptionPattern("RAID_TYPE", RaidSpec)];
      RegexRegistration(regexes);
      var options := strings + words + regexes;
      RegisteredInOrder(strings, words, regexes);
      this.prOptions := options;
      this.warnings := [];
    }

    /** `parse`: every line of the text handed to its handler, in order, on a fresh state. */
    method Parse(showCreate: string, charset: Option<string>) returns (r: Outcome<ReflectedState>)
      requires OptionsRegistered()
      modifies this`warnings
      ensures var spec := ParseSpec(Config(), showCreate);
              && warnings == old(warnings) + spec.warnings
              && (r.Raised? <==> spec.raised)
              && (r.Done? ==> fresh(r.value) && r.value.Contents() == spec.state && r.value.charset == charset)
    {
      var state := new ReflectedState();
      state.charset := charset;
      var lines := SplitLines(showCreate);
      ghost var cfg := Config();
      ghost var final := RunLines(cfg, Run(EmptySnapshot, old(warnings), false), lines);
      RunWarnings(cfg, EmptySnapshot, old(warnings), [], false, lines);
      assert old(warnings) + [] == old(warnings);
      ghost var run := Run(EmptySnapshot, old(warnings), false);
      var i := 0;
      while i < |lines|
        invariant 0 <= i <= |lines|
        invariant fresh(state) && state.charset == charset
        invariant run == Run(state.Contents(), warnings, false)
        invariant RunLines(cfg, run, lines[i..]) == final
      {
        RunLinesAt(cfg, run, lines, i);
        var raised := ParseLine(lines[i], state);
        run := Step(cfg, run, lines[i]);
        if raised {
          RaisedStays(cfg, run, lines[i + 1..]);
          return Raised;
        }
        i := i + 1;
      }
      r := Done(state);
    }

    /** One pass of the loop of `parse`: the line routed by its beginning, as `Step` says. */
    method ParseLine(line: string, state: ReflectedState) returns (raised: bool)
      requires OptionsRegistered()
      modifies this`warnings, state`columns, state`tableOptions, state`tableName
      modifies state`keys, state`fkConstraints, state`ckConstraints
      ensures Step(Config(), Run(old(state.Contents()), old(warnings), false), line) ==
              Run(state.Contents(), warnings, raised)
    {
      raised := false;
      ghost var iq := preparer.initialQuote;
      if StartsWith(line, "  " + [preparer.initialQuote]) {
        assert Classify(iq, line) == ColumnDefinition;
        raised := ParseColumn(line, state);
      } else if StartsWith(line, ") ") {
        assert Classify(iq, line) == TableOptionsLine;
        ParseTableOptions(line, state);
      } else if line == ")" {
        assert Classify(iq, line) == BareParen;
      } else if StartsWith(line, "CREATE ") {
        assert Classify(iq, line) == CreateStatement;
        ParseTableName(line, state);
      } else if line == "" {
        assert Classify(iq, line) == Blank;
      } else {
        assert Classify(iq, line) == ConstraintDefinition;
        raised := ParseConstraintLine(line, state);
      }
    }

    /** The last branch of `parse`: the constraint of the line stored in its list, or the warning. */
    method ParseConstraintLine(line: string, state: ReflectedState) returns (raised: bool)
      modifies this`warnings, state`keys, state`fkConstraints, state`ckConstraints
      ensures var before := Run(old(state.Contents()), old(warnings), false);
              var after := match ConstraintOf(preparer, patterns, line)
                case Raised => before.(raised := true)
                case Done(Key(k)) => before.(state := before.state.(keys := before.state.keys + [k]))
                case Done(ForeignKey(f)) => before.(state := before.state.(fkConstraints := before.state.fkConstraints + [f]))
                case Done(Check(c)) => before.(state := before.state.(ckConstraints := before.state.ckConstraints + [c]))
                case Done(Partition) => before
                case Done(Unrecognized) => before.(warnings := before.warnings + [UnknownSchemaContent(line)]);
              after == Run(state.Contents(), warnings, raised)
    {
      raised := false;
      match ConstraintOf(preparer, patterns, line)
      case Raised => raised := true;
      case Done(Key(k)) => state.keys := state.keys + [k];
      case Done(ForeignKey(f)) => state.fkConstraints := state.fkConstraints + [f];
      case Done(Check(c)) => state.ckConstraints := state.ckConstraints + [c];
      case Done(Partition) =>
      case Done(Unrecognized) => warnings := warnings + [UnknownSchemaContent(line)];
    }

    /** `_parse_table_name`: the unescaped name when the line matches, else nothing changes. */
    method ParseTableName(line: string, state: ReflectedState)
      modifies state`tableName
      ensures state.tableName == TableNameOf(preparer, line, old(state.tableName))
    {
      var m := TableNameMatch(line, preparer.initialQuote, preparer.finalQuote);
      if m.Some? {
        state.tableName := Some(preparer.UnescapeIdentifier(m.value));
      }
    }

    /**
     * `_parse_table_options`: every pattern searched in turn on what the
     * earlier ones left, the excluded keys dropped, and the rest stored
     * under the dialect's name.
     */
    method ParseTableOptions(line: string, state: ReflectedState)
      requires OptionsRegistered()
      modifies state`tableOptions
      ensures state.tableOptions == old(state.tableOptions) + TableOptionsOf(dialectName, line)
    {
      var options: map<string, string> := map[];
      if line == "" || line == ")" {
      } else {
        options := SearchOptions(line, OptionTable());
      }
      options := options - Excluded;
      StoreOptions(options, state);
    }

    /** The loop over `_pr_options`: each match stored under its lowercased directive and cut from the line. */
    method SearchOptions(line: string, ghost table: seq<Directive>) returns (options: map<string, string>)
      requires |prOptions| == |table|
      requires forall i :: 0 <= i < |table| ==> prOptions[i] == PatternOf(table[i])
      ensures options == ScanOptions(table, line, map[])
    {
      options := map[];
      var rest := line;
      for i := 0 to |prOptions|
        invariant ScanOptions(table[i..], rest, options) == ScanOptions(table, line, map[])
      {
        assert table[i..][0] == table[i] && table[i..][1..] == table[i + 1..];
        var p := prOptions[i];
        var m := Search(p, rest);
        if m.Some? {
          options := options[Lower(m.value.directive) := Cleanup(p.kind, m.value.value)];
          rest := Sub(p, rest);
        }
      }
      assert table[|prOptions|..] == [];
    }

    /** The loop over `options.items()`: each option stored under the dialect's name and `_`. */
    method StoreOptions(options: map<string, string>, state: ReflectedState)
      modifies state`tableOptions
      ensures state.tableOptions == old(state.tableOptions) + PrefixedOptions(dialectName, options)
    {
      var remaining := options.Keys;
      while remaining != {}
        invariant remaining <= options.Keys
        invariant state.tableOptions == old(state.tableOptions) + PrefixedOptions(dialectName, options - remaining)
        decreases remaining
      {
        var opt :| opt in remaining;
        StoreOne(old(state.tableOptions), dialectName, options, remaining, opt);
        state.tableOptions := state.tableOptions[dialectName + "_" + opt := options[opt]];
        remaining := remaining - {opt};
      }
      assert options - {} == options;
    }

    /**
     * `_parse_column`: the full pattern, else the loose one, else a
     * warning; the type looked up (NullType and a warning when unknown)
     * and the column appended.
     */
    method ParseColumn(line: string, state: ReflectedState) returns (raised: bool)
      modifies this`warnings, state`columns
      ensures var c := ParseColumnLine(ischemaNames, patterns, line);
              && warnings == old(warnings) + c.warnings
              && raised == c.column.Raised?
              && state.columns == old(state.columns) + Appended(c.column)
    {
      raised := false;
      var spec := patterns.column(line);
      var full := true;
      if spec.None? {
        var loose := patterns.columnLoose(line);
        spec := if loose.Some? then Some(LooseSpec(loose.value)) else None;
        full := false;
      }
      if spec.None? {
        warnings := warnings + [UnknownColumnDefinition(line)];
        return;
      }
      if !full {
        warnings := warnings + [IncompleteColumnReflection(line)];
      }
      var g := spec.value;
      var colType := NullType;
      if g.coltype in ischemaNames {
        colType := ischemaNames[g.coltype];
      } else {
        warnings := warnings + [UnrecognizedType(g.coltype, g.name)];
      }
      var column := BuildColumn(g, colType);
      if column.Raised? {
        return true;
      }
      state.columns := state.columns + [column.value];
    }

    /** The part of `_parse_column` after the type lookup: the type call and the column's keywords. */
    method BuildColumn(g: ColumnGroups, colType: TypeClass) returns (column: Outcome<Column>)
      requires colType == LookupType(ischemaNames, g.coltype)
      ensures column == ColumnOf(ischemaNames, g)
    {
      var typeInstance := BuildType(g, colType);
      if typeInstance.Raised? {
        return Raised;
      }
      var nullable := true;
      if g.notnull == Some("NOT NULL") {
        nullable := false;
      }
      var autoincrement: Option<bool> := None;
      if Truthy(g.autoincr) {
        autoincrement := Some(true);
      } else if colType.family == IntegerFamily {
        autoincrement := Some(false);
      }
      var default := g.default;
      if default == Some("NULL") {
        default := None;
      }
      var comment := g.comment;
      if comment.Some? {
        comment := Some(UnescapeString(comment.value));
      }
      var computed: Option<Computed> := None;
      if g.generated.Some? {
        var persisted: Option<bool> := None;
        if g.persistence.Some? {
          persisted := Some(g.persistence.value == "STORED");
        }
        computed := Some(Computed(g.generated.value, persisted));
      }
      column := Done(Column(g.name, typeInstance.value, default, comment, nullable, autoincrement, computed));
    }

    /** `col_type(*type_args, **type_kw)`: positional arguments, `fsp`, keywords, and for ENUM and SET the stripped values. */
    static method BuildType(g: ColumnGroups, colType: TypeClass) returns (r: Outcome<ColumnType>)
      ensures r == ColumnTypeOf(colType, g)
    {
      var typeArgs := TypeArgs(g.arg);
      var fsp: Option<TypeArg> := None;
      if colType.family == Temporal && typeArgs != [] {
        fsp := Some(typeArgs[0]);
        typeArgs := typeArgs[1..];
      }
      var kw := TypeKw(fsp, Truthy(g.unsigned), Truthy(g.zerofill), TruthyOrNone(g.charset), TruthyOrNone(g.collate), false);
      if colType.family == EnumFamily || colType.family == SetFamily {
        var stripped := StripValues(typeArgs);
        if stripped.Raised? {
          return Raised;
        }
        typeArgs := StrArgs(stripped.value);
        if colType.family == SetFamily && "" in stripped.value {
          kw := kw.(retrieveAsBitwise := true);
        }
      }
      r := Done(ColumnType(colType, typeArgs, kw));
    }
  }
}
