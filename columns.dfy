/**
 * `_parse_column`: from the capture groups of a column line to the column
 * dictionary appended to the reflected state, and `_strip_values`, which
 * unquotes the values of an ENUM or SET.
 *
 * The type registry `ischema_names` is a map from type names to type
 * classes; the parser only asks whether a class is one of DATETIME, TIME
 * or TIMESTAMP, ENUM, SET, or an Integer type, so each class carries that
 * family. The type object itself is not built: a column records the class
 * with the positional and keyword arguments the constructor is called with.
 */
module Columns {
  import opened Text
  import opened Scanners
  import opened Patterns

  /** What `issubclass` is asked about a type class. */
  datatype Family = Temporal | EnumFamily | SetFamily | IntegerFamily | OtherFamily

  /** An entry of the dialect's `ischema_names`. */
  datatype TypeClass = TypeClass(name: string, family: Family)

  /** The class used for a type name the registry does not know. */
  const NullType: TypeClass := TypeClass("NullType", OtherFamily)

  /** One positional type argument: a number from `_re_csv_int` or a quoted string from `_re_csv_str`. */
  datatype TypeArg = IntArg(n: nat) | StrArg(s: string)

  /** The keyword arguments of the type constructor; absent keywords are None or false. */
  datatype TypeKw = TypeKw(
    fsp: Option<TypeArg>,
    unsigned: bool,
    zerofill: bool,
    charset: Option<string>,
    collate: Option<string>,
    retrieveAsBitwise: bool)

  /** The call `col_type(*type_args, **type_kw)`. */
  datatype ColumnType = ColumnType(typeClass: TypeClass, args: seq<TypeArg>, kw: TypeKw)

  /** The `computed` entry of a generated column. */
  datatype Computed = Computed(sqltext: string, persisted: Option<bool>)

  /** The column dictionary; `autoincrement` is None when the key is absent. */
  datatype Column = Column(
    name: string,
    columnType: ColumnType,
    default: Option<string>,
    comment: Option<string>,
    nullable: bool,
    autoincrement: Option<bool>,
    computed: Option<Computed>)

  function StrArgs(vs: seq<string>): (r: seq<TypeArg>)
    ensures |r| == |vs| && forall i :: 0 <= i < |vs| ==> r[i] == StrArg(vs[i])
  {
    if vs == [] then [] else [StrArg(vs[0])] + StrArgs(vs[1..])
  }

  function IntArgs(ns: seq<nat>): (r: seq<TypeArg>)
    ensures |r| == |ns| && forall i :: 0 <= i < |ns| ==> r[i] == IntArg(ns[i])
  {
    if ns == [] then [] else [IntArg(ns[0])] + IntArgs(ns[1..])
  }

  // ---------------------------------------------------------------------
  // Positional type arguments
  // ---------------------------------------------------------------------

  /**
   * The positional arguments: none for a missing or empty `arg` group, the
   * quoted strings when the text starts and ends with `'`, the numbers
   * otherwise.
   */
  function TypeArgs(arg: Option<string>): (r: seq<TypeArg>)
    ensures arg.None? || arg == Some("") ==> r == []
    ensures arg.Some? && arg.value != "" && arg.value[0] == '\'' && arg.value[|arg.value| - 1] == '\'' ==>
              forall i :: 0 <= i < |r| ==> r[i].StrArg?
    ensures arg.Some? && arg.value != "" && !(arg.value[0] == '\'' && arg.value[|arg.value| - 1] == '\'') ==>
              forall i :: 0 <= i < |r| ==> r[i].IntArg?
  {
    if arg.None? || arg.value == "" then []
    else if arg.value[0] == '\'' && arg.value[|arg.value| - 1] == '\'' then StrArgs(CsvStrs(arg.value))
    else IntArgs(CsvInts(arg.value))
  }

  /** The quoted values of ENUM('a','b') come back quoted, one argument each. */
  lemma {:induction false} TypeArgsOfValues(vs: seq<string>)
    requires vs != []
    ensures TypeArgs(Some(ValueList(vs))) == StrArgs(QuoteAll(vs))
  {
    var qs := QuoteAll(vs);
    JoinWithEnds(",", qs);
    CsvStrsRoundTrip(vs);
  }

  /** The numbers of DECIMAL(10,2) come back as numbers, in order. */
  lemma {:induction false} TypeArgsOfNumbers(ns: seq<nat>)
    requires ns != []
    ensures TypeArgs(Some(IntList(ns))) == IntArgs(ns)
  {
    var strs := seq(|ns|, i requires 0 <= i < |ns| => Numeral(ns[i]));
    JoinWithEnds(",", strs);
    assert IsDigit(strs[0][0]);
    CsvIntsRoundTrip(ns);
  }

  // ---------------------------------------------------------------------
  // `_strip_values`
  // ---------------------------------------------------------------------

  /**
   * `_strip_values` on the positional arguments. A number has no `[0:1]`,
   * so a numeric argument raises TypeError; otherwise every value is
   * unquoted and the list keeps its length and order.
   */
  function StripValuesOf(values: seq<TypeArg>): (r: Outcome<seq<string>>)
    ensures r.Raised? <==> exists i :: 0 <= i < |values| && values[i].IntArg?
    ensures r.Done? ==> |r.value| == |values|
    ensures r.Done? ==> forall i :: 0 <= i < |values| ==> r.value[i] == StripValue(values[i].s)
  {
    if values == [] then Done([])
    else if values[0].IntArg? then Raised
    else
      match StripValuesOf(values[1..])
      case Raised =>
        assert values[1..][0] == values[1];
        Raised
      case Done(rest) => Done([StripValue(values[0].s)] + rest)
  }

  /** The loop of `_strip_values`, appending one value at a time. */
  method StripValues(values: seq<TypeArg>) returns (r: Outcome<seq<string>>)
    ensures r == StripValuesOf(values)
  {
    var stripped: seq<string> := [];
    var i := 0;
    while i < |values|
      invariant 0 <= i <= |values|
      invariant |stripped| == i
      invariant forall k :: 0 <= k < i ==> values[k].StrArg? && stripped[k] == StripValue(values[k].s)
    {
      if values[i].IntArg? {
        return Raised;
      }
      stripped := stripped + [StripValue(values[i].s)];
      i := i + 1;
    }
    r := Done(stripped);
    var spec := StripValuesOf(values);
    assert spec.Done? && spec.value == stripped;
  }

  /** Unquoting the quoted values of an ENUM or SET gives the values back. */
  lemma {:induction false} StripQuotedValues(vs: seq<string>)
    ensures StripValuesOf(StrArgs(QuoteAll(vs))) == Done(vs)
  {
    var args := StrArgs(QuoteAll(vs));
    var r := StripValuesOf(args);
    assert forall i :: 0 <= i < |args| ==> args[i].StrArg?;
    forall i | 0 <= i < |vs|
      ensures r.value[i] == vs[i]
    {
      StripQuoted(vs[i]);
    }
    assert r.value == vs;
  }

  // ---------------------------------------------------------------------
  // The type
  // ---------------------------------------------------------------------

  /** `ischema_names[type_]`, or NullType when the name is unknown. */
  function LookupType(names: map<string, TypeClass>, coltype: string): (r: TypeClass)
    ensures coltype in names ==> r == names[coltype]
    ensures coltype !in names ==> r == NullType
  {
    if coltype in names then names[coltype] else NullType
  }

  /** For DATETIME, TIME and TIMESTAMP, `type_args.pop(0)` into `fsp`. */
  function SplitFsp(family: Family, args: seq<TypeArg>): (r: (Option<TypeArg>, seq<TypeArg>))
    ensures r.0.None? ==> r.1 == args
    ensures r.0.Some? ==> [r.0.value] + r.1 == args
    ensures r.0.Some? <==> family == Temporal && args != []
  {
    if family == Temporal && args != [] then (Some(args[0]), args[1..]) else (None, args)
  }

  /** A keyword group that is set only when its group is truthy. */
  function TruthyOrNone(g: Option<string>): (r: Option<string>)
    ensures r.Some? <==> Truthy(g)
    ensures r.Some? ==> r == g
  {
    if Truthy(g) then g else None
  }

  /**
   * The type call of `_parse_column`: positional arguments, `fsp`, the
   * keyword groups, and for ENUM and SET the stripped values and
   * `retrieve_as_bitwise`.
   */
  function ColumnTypeOf(tc: TypeClass, g: ColumnGroups): (r: Outcome<ColumnType>)
    ensures var args := SplitFsp(tc.family, TypeArgs(g.arg)).1;
            r.Raised? <==> (tc.family == EnumFamily || tc.family == SetFamily) && exists i :: 0 <= i < |args| && args[i].IntArg?
    ensures r.Done? ==> r.value.typeClass == tc
    ensures r.Done? ==> r.value.kw.fsp == SplitFsp(tc.family, TypeArgs(g.arg)).0
    ensures r.Done? ==> r.value.kw.unsigned == Truthy(g.unsigned) && r.value.kw.zerofill == Truthy(g.zerofill)
    ensures r.Done? ==> r.value.kw.charset == TruthyOrNone(g.charset) && r.value.kw.collate == TruthyOrNone(g.collate)
    ensures r.Done? && tc.family != EnumFamily && tc.family != SetFamily ==>
              r.value.args == SplitFsp(tc.family, TypeArgs(g.arg)).1 && !r.value.kw.retrieveAsBitwise
    ensures r.Done? && (tc.family == EnumFamily || tc.family == SetFamily) ==>
              var args := SplitFsp(tc.family, TypeArgs(g.arg)).1;
              && |r.value.args| == |args|
              && (forall i :: 0 <= i < |args| ==> r.value.args[i] == StrArg(StripValue(args[i].s)))
              && (r.value.kw.retrieveAsBitwise <==> tc.family == SetFamily && StrArg("") in r.value.args)
  {
    var (fsp, args) := SplitFsp(tc.family, TypeArgs(g.arg));
    var kw := TypeKw(fsp, Truthy(g.unsigned), Truthy(g.zerofill), TruthyOrNone(g.charset), TruthyOrNone(g.collate), false);
    if tc.family == EnumFamily || tc.family == SetFamily then
      match StripValuesOf(args)
      case Raised => Raised
      case Done(vals) => Done(ColumnType(tc, StrArgs(vals), kw.(retrieveAsBitwise := tc.family == SetFamily && "" in vals)))
    else Done(ColumnType(tc, args, kw))
  }

  // ---------------------------------------------------------------------
  // The column
  // ---------------------------------------------------------------------

  /** `autoincrement`: True when the group is present, else False for Integer types, else absent. */
  function AutoIncrement(autoincr: Option<string>, tc: TypeClass): (r: Option<bool>)
    ensures r == Some(true) <==> Truthy(autoincr)
    ensures r.None? <==> !Truthy(autoincr) && tc.family != IntegerFamily
  {
    if Truthy(autoincr) then Some(true)
    else if tc.family == IntegerFamily then Some(false)
    else None
  }

  /** The computed entry: present with a `generated` group, `persisted` only with a persistence group. */
  function ComputedOf(generated: Option<string>, persistence: Option<string>): (r: Option<Computed>)
    ensures r.Some? <==> generated.Some?
    ensures r.Some? ==> r.value.sqltext == generated.value
    ensures r.Some? ==> (r.value.persisted.Some? <==> persistence.Some?)
    ensures r.Some? ==> (r.value.persisted == Some(true) <==> persistence == Some("STORED"))
  {
    match generated
    case None => None
    case Some(sqltext) =>
      Some(Computed(sqltext, match persistence case None => None case Some(p) => Some(p == "STORED")))
  }

  /** The column `_parse_column` builds from one match, or the TypeError of `_strip_values`. */
  function ColumnOf(names: map<string, TypeClass>, g: ColumnGroups): (r: Outcome<Column>)
    ensures var tc := LookupType(names, g.coltype);
            r.Raised? <==> ColumnTypeOf(tc, g).Raised?
    ensures r.Done? ==> r.value.columnType == ColumnTypeOf(LookupType(names, g.coltype), g).value
    ensures r.Done? ==> r.value.name == g.name
    ensures r.Done? ==> (!r.value.nullable <==> g.notnull == Some("NOT NULL"))
    ensures r.Done? ==> (r.value.default.None? <==> g.default.None? || g.default == Some("NULL"))
    ensures r.Done? && r.value.default.Some? ==> r.value.default == g.default
    ensures r.Done? ==> (r.value.comment.Some? <==> g.comment.Some?)
    ensures r.Done? && g.comment.Some? ==> r.value.comment == Some(UnescapeString(g.comment.value))
    ensures r.Done? ==> (r.value.autoincrement == Some(true) <==> Truthy(g.autoincr))
    ensures r.Done? ==> (r.value.autoincrement == Some(false) <==>
                         !Truthy(g.autoincr) && LookupType(names, g.coltype).family == IntegerFamily)
    ensures r.Done? ==> (r.value.computed.Some? <==> g.generated.Some?)
    ensures r.Done? && r.value.computed.Some? ==>
              && r.value.computed.value.sqltext == g.generated.value
              && (r.value.computed.value.persisted.Some? <==> g.persistence.Some?)
              && (r.value.computed.value.persisted == Some(true) <==> g.persistence == Some("STORED"))
  {
    var tc := LookupType(names, g.coltype);
    match ColumnTypeOf(tc, g)
    case Raised => Raised
    case Done(ct) =>
      var default := if g.default == Some("NULL") then None else g.default;
      var comment := match g.comment case None => None case Some(c) => Some(UnescapeString(c));
      Done(Column(g.name, ct, default, comment, g.notnull != Some("NOT NULL"),
                  AutoIncrement(g.autoincr, tc), ComputedOf(g.generated, g.persistence)))
  }

  // ---------------------------------------------------------------------
  // What the column keeps of what MySQL printed
  // ---------------------------------------------------------------------

  /**
   * ENUM('a',...) and SET('a',...) get their values back unquoted and in
   * order; only a SET with an empty value gets `retrieve_as_bitwise`.
   */
  lemma {:induction false} EnumSetValues(tc: TypeClass, g: ColumnGroups, vs: seq<string>)
    requires tc.family == EnumFamily || tc.family == SetFamily
    requires vs != [] && g.arg == Some(ValueList(vs))
    ensures var r := ColumnTypeOf(tc, g);
            && r.Done?
            && r.value.args == StrArgs(vs)
            && r.value.kw.fsp.None?
            && (r.value.kw.retrieveAsBitwise <==> tc.family == SetFamily && "" in vs)
  {
    TypeArgsOfValues(vs);
    StripQuotedValues(vs);
  }

  /** ENUM or SET with numeric arguments: `_strip_values` raises TypeError. */
  lemma {:induction false} NumericEnumRaises(tc: TypeClass, g: ColumnGroups, ns: seq<nat>)
    requires tc.family == EnumFamily || tc.family == SetFamily
    requires ns != [] && g.arg == Some(IntList(ns))
    ensures ColumnTypeOf(tc, g).Raised?
  {
    TypeArgsOfNumbers(ns);
    assert TypeArgs(g.arg)[0].IntArg?;
  }

  /**
   * DATETIME(6), TIME(3), TIMESTAMP(6): the first number becomes `fsp` and
   * the remaining ones stay positional, in order.
   */
  lemma {:induction false} TemporalFsp(tc: TypeClass, g: ColumnGroups, ns: seq<nat>)
    requires tc.family == Temporal
    requires ns != [] && g.arg == Some(IntList(ns))
    ensures var r := ColumnTypeOf(tc, g);
            && r.Done?
            && r.value.kw.fsp == Some(IntArg(ns[0]))
            && r.value.args == IntArgs(ns[1..])
  {
    TypeArgsOfNumbers(ns);
    assert IntArgs(ns)[1..] == IntArgs(ns[1..]);
  }

  /** Without an argument group there are no positional arguments and no `fsp`. */
  lemma {:induction false} NoArguments(tc: TypeClass, g: ColumnGroups)
    requires g.arg.None? || g.arg == Some("")
    ensures var r := ColumnTypeOf(tc, g);
            && r.Done?
            && r.value.args == []
            && r.value.kw.fsp.None?
            && !r.value.kw.retrieveAsBitwise
  {
    assert TypeArgs(g.arg) == [];
    assert StripValuesOf([]) == Done([]);
    assert "" !in [];
  }

  /** A comment written with its quotes and backslashes doubled is unescaped back to the original text. */
  lemma {:induction false} CommentRoundTrip(names: map<string, TypeClass>, g: ColumnGroups, c: string)
    requires g.comment == Some(EscapeString(c))
    ensures ColumnOf(names, g).Done? ==> ColumnOf(names, g).value.comment == Some(c)
  {
    UnescapeEscapeString(c);
  }

  // ---------------------------------------------------------------------
  // One column line
  // ---------------------------------------------------------------------

  /** What one column line leaves behind: its warnings, and the column it appends, if any. */
  datatype ColumnLine = ColumnLine(warnings: seq<Warning>, column: Outcome<Option<Column>>)

  /**
   * `_parse_column` on one line: the full pattern is tried first, then the
   * loose one; a line neither matches is skipped with a warning.
   */
  function ParseColumnLine(names: map<string, TypeClass>, pats: Patterns, line: string): (r: ColumnLine)
    ensures pats.column(line).None? && pats.columnLoose(line).None? ==>
              r == ColumnLine([UnknownColumnDefinition(line)], Done(None))
    ensures forall w :: w in r.warnings ==> !w.UnknownSchemaContent?
    ensures (UnknownColumnDefinition(line) in r.warnings) <==>
              pats.column(line).None? && pats.columnLoose(line).None?
    ensures (IncompleteColumnReflection(line) in r.warnings) <==>
              pats.column(line).None? && pats.columnLoose(line).Some?
    ensures pats.column(line).Some? ==>
              r.column == (match ColumnOf(names, pats.column(line).value) case Raised => Raised case Done(c) => Done(Some(c)))
    ensures pats.column(line).None? && pats.columnLoose(line).Some? ==>
              r.column == (match ColumnOf(names, LooseSpec(pats.columnLoose(line).value)) case Raised => Raised case Done(c) => Done(Some(c)))
    ensures pats.column(line).Some? ==>
              var g := pats.column(line).value;
              UnrecognizedType(g.coltype, g.name) in r.warnings <==> g.coltype !in names
    ensures pats.column(line).None? && pats.columnLoose(line).Some? ==>
              var l := pats.columnLoose(line).value;
              UnrecognizedType(l.coltype, l.name) in r.warnings <==> l.coltype !in names
    ensures forall w :: w in r.warnings && w.UnrecognizedType? ==> w.typeName !in names
  {
    var full := pats.column(line);
    var found := if full.Some? then full else match pats.columnLoose(line) case Some(l) => Some(LooseSpec(l)) case None => None;
    match found
    case None => ColumnLine([UnknownColumnDefinition(line)], Done(None))
    case Some(g) =>
      var incomplete := if full.None? then [IncompleteColumnReflection(line)] else [];
      var unknown := if g.coltype in names then [] else [UnrecognizedType(g.coltype, g.name)];
      var column := match ColumnOf(names, g) case Raised => Raised case Done(c) => Done(Some(c));
      ColumnLine(incomplete + unknown, column)
  }

  /**
   * The warnings of a matched line, exactly: that its reflection is
   * incomplete when only the loose pattern matched, then that its type is
   * unknown when it is not registered. A full match of a registered type
   * warns of nothing.
   */
  lemma {:induction false} MatchedLineWarnings(names: map<string, TypeClass>, pats: Patterns, line: string)
    requires pats.column(line).Some? || pats.columnLoose(line).Some?
    ensures var r := ParseColumnLine(names, pats, line);
            pats.column(line).Some? ==>
              var g := pats.column(line).value;
              r.warnings == (if g.coltype in names then [] else [UnrecognizedType(g.coltype, g.name)])
    ensures var r := ParseColumnLine(names, pats, line);
            pats.column(line).None? ==>
              var l := pats.columnLoose(line).value;
              r.warnings == [IncompleteColumnReflection(line)] + (if l.coltype in names then [] else [UnrecognizedType(l.coltype, l.name)])
  {
  }

  /**
   * A column only the loose pattern matched has none of the parts only the
   * full pattern captures: no default, comment or computed clause, no
   * `unsigned`, `zerofill`, `charset` or `collate`, and `autoincrement` is
   * not true.
   */
  lemma {:induction false} LooseColumnBare(names: map<string, TypeClass>, pats: Patterns, line: string)
    requires pats.column(line).None? && pats.columnLoose(line).Some?
    ensures var r := ParseColumnLine(names, pats, line);
            r.column.Done? ==>
              && r.column.value.Some?
              && var c := r.column.value.value;
              && c.default.None? && c.comment.None? && c.computed.None? && c.autoincrement != Some(true)
              && !c.columnType.kw.unsigned && !c.columnType.kw.zerofill
              && c.columnType.kw.charset.None? && c.columnType.kw.collate.None?
  {
  }
}
