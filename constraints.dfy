/**
 * `_parse_constraints`: a line that is neither a column, a table-option
 * line nor the `CREATE` line is tried as a KEY, then as a FOREIGN KEY
 * constraint, then as a CHECK constraint, then as a PARTITION clause.
 * The key-expression lists of keys and foreign keys are split by
 * `_parse_keyexprs`.
 */
module Constraints {
  import opened Text
  import opened Scanners
  import opened Patterns

  /** The spec of a KEY line; `columns` split into key expressions. */
  datatype KeySpec = KeySpec(
    keyType: Option<string>,
    name: Option<string>,
    usingPre: Option<string>,
    columns: seq<KeyExpr>,
    usingPost: Option<string>,
    keyBlock: Option<string>,
    parser: Option<string>,
    comment: Option<string>,
    versionSql: Option<string>)

  /** The spec of a FOREIGN KEY line: the referenced table unformatted, the columns by name only. */
  datatype FkSpec = FkSpec(
    name: string,
    local: seq<string>,
    table: seq<string>,
    foreign: seq<string>,
    matchKind: Option<string>,
    onDelete: Option<string>,
    onUpdate: Option<string>)

  datatype CkSpec = CkSpec(name: string, sqltext: string)

  /** The pair `_parse_constraints` returns, by its type tag. */
  datatype Constraint =
    | Key(key: KeySpec)
    | ForeignKey(fk: FkSpec)
    | Check(ck: CkSpec)
    | Partition
    | Unrecognized

  /** `unformat_identifiers(s)[0]`: IndexError when the preparer returns no component. */
  function FirstIdentifier(p: Preparer, s: string): (r: Outcome<string>)
    ensures r.Raised? <==> p.unformatIdentifiers(s) == []
    ensures r.Done? ==> r.value == p.unformatIdentifiers(s)[0]
  {
    var parts := p.unformatIdentifiers(s);
    if parts == [] then Raised else Done(parts[0])
  }

  /** The version comment of a key names a non-empty parser. */
  predicate CommentParser(g: KeyGroups) {
    && Truthy(g.versionSql)
    && VersionSqlMatch(g.versionSql.value).Some?
    && Truthy(VersionSqlMatch(g.versionSql.value).value)
  }

  /**
   * The key's `parser`: a non-empty parser name in the version comment
   * replaces the captured one, and a non-empty result is unformatted.
   */
  function KeyParser(p: Preparer, g: KeyGroups): (r: Outcome<Option<string>>)
    ensures !CommentParser(g) && !Truthy(g.parser) ==> r == Done(g.parser)
    ensures !CommentParser(g) && Truthy(g.parser) ==>
              (r.Raised? <==> p.unformatIdentifiers(g.parser.value) == [])
              && (r.Done? ==> r.value == Some(p.unformatIdentifiers(g.parser.value)[0]))
    ensures CommentParser(g) ==>
              var name := VersionSqlMatch(g.versionSql.value).value.value;
              (r.Raised? <==> p.unformatIdentifiers(name) == [])
              && (r.Done? ==> r.value == Some(p.unformatIdentifiers(name)[0]))
  {
    var fromComment :=
      if Truthy(g.versionSql) then
        match VersionSqlMatch(g.versionSql.value)
        case Some(Some(name)) => Some(name)
        case _ => None
      else None;
    var parser := if fromComment.Some? then fromComment else g.parser;
    if Truthy(parser) then
      match FirstIdentifier(p, parser.value)
      case Raised => Raised
      case Done(name) => Done(Some(name))
    else Done(parser)
  }

  function KeySpecOf(p: Preparer, g: KeyGroups): (r: Outcome<KeySpec>)
    ensures r.Raised? <==> KeyParser(p, g).Raised?
    ensures r.Done? ==> r.value.columns == KeyExprs(g.columns, p.initialQuote, p.finalQuote)
    ensures r.Done? ==> r.value.parser == KeyParser(p, g).value
    ensures r.Done? ==>
              && r.value.keyType == g.keyType && r.value.name == g.name
              && r.value.usingPre == g.usingPre && r.value.usingPost == g.usingPost
              && r.value.keyBlock == g.keyBlock && r.value.comment == g.comment
              && r.value.versionSql == g.versionSql
  {
    match KeyParser(p, g)
    case Raised => Raised
    case Done(parser) =>
      Done(KeySpec(g.keyType, g.name, g.usingPre, KeyExprs(g.columns, p.initialQuote, p.finalQuote),
                   g.usingPost, g.keyBlock, parser, g.comment, g.versionSql))
  }

  /**
   * A FOREIGN KEY spec: the referenced table unformatted into its
   * components, the local and referenced columns by name, the rest as
   * captured.
   */
  function FkSpecOf(p: Preparer, g: FkGroups): (r: FkSpec)
    ensures r.table == p.unformatIdentifiers(g.table)
    ensures |r.local| == |KeyExprs(g.local, p.initialQuote, p.finalQuote)|
    ensures forall i :: 0 <= i < |r.local| ==> r.local[i] == KeyExprs(g.local, p.initialQuote, p.finalQuote)[i].name
    ensures |r.foreign| == |KeyExprs(g.foreign, p.initialQuote, p.finalQuote)|
    ensures forall i :: 0 <= i < |r.foreign| ==> r.foreign[i] == KeyExprs(g.foreign, p.initialQuote, p.finalQuote)[i].name
    ensures r.name == g.name && r.matchKind == g.matchKind && r.onDelete == g.onDelete && r.onUpdate == g.onUpdate
  {
    FkSpec(g.name,
           Names(KeyExprs(g.local, p.initialQuote, p.finalQuote)),
           p.unformatIdentifiers(g.table),
           Names(KeyExprs(g.foreign, p.initialQuote, p.finalQuote)),
           g.matchKind, g.onDelete, g.onUpdate)
  }

  /**
   * `_parse_constraints`: the first of KEY, FOREIGN KEY, CHECK and
   * PARTITION that matches decides the result; no match is Unrecognized.
   */
  function ConstraintOf(p: Preparer, pats: Patterns, line: string): (r: Outcome<Constraint>)
    ensures r.Raised? ==> pats.key(line).Some?
    ensures (r.Raised? || r.value.Key?) <==> pats.key(line).Some?
    ensures (r.Done? && r.value.ForeignKey?) <==> pats.key(line).None? && pats.fkConstraint(line).Some?
    ensures (r.Done? && r.value.Check?) <==>
              pats.key(line).None? && pats.fkConstraint(line).None? && pats.ckConstraint(line).Some?
    ensures (r.Done? && r.value.Partition?) <==>
              pats.key(line).None? && pats.fkConstraint(line).None? && pats.ckConstraint(line).None?
              && PartitionMatch(line)
    ensures (r.Done? && r.value.Unrecognized?) <==>
              pats.key(line).None? && pats.fkConstraint(line).None? && pats.ckConstraint(line).None?
              && !PartitionMatch(line)
    ensures r.Done? && r.value.Key? ==> KeySpecOf(p, pats.key(line).value) == Done(r.value.key)
    ensures r.Done? && r.value.ForeignKey? ==> r.value.fk == FkSpecOf(p, pats.fkConstraint(line).value)
    ensures r.Done? && r.value.Check? ==>
              r.value.ck == CkSpec(pats.ckConstraint(line).value.name, pats.ckConstraint(line).value.sqltext)
  {
    match pats.key(line)
    case Some(g) =>
      (match KeySpecOf(p, g)
       case Raised => Raised
       case Done(spec) => Done(Key(spec)))
    case None =>
      match pats.fkConstraint(line)
      case Some(g) => Done(ForeignKey(FkSpecOf(p, g)))
      case None =>
        match pats.ckConstraint(line)
        case Some(g) => Done(Check(CkSpec(g.name, g.sqltext)))
        case None => if PartitionMatch(line) then Done(Partition) else Done(Unrecognized)
  }

  // ---------------------------------------------------------------------
  // What a key keeps of what MySQL printed
  // ---------------------------------------------------------------------

  /** The key expressions MySQL printed for a key come back unchanged. */
  lemma {:induction false} KeyColumnsRoundTrip(p: Preparer, g: KeyGroups, es: seq<KeyExpr>)
    requires ValidPreparer(p)
    requires forall i :: 0 <= i < |es| ==> WellFormedKeyExpr(es[i], p.finalQuote)
    requires g.columns == FormatKeyExprs(es, p.initialQuote, p.finalQuote)
    ensures KeySpecOf(p, g).Done? ==> KeySpecOf(p, g).value.columns == es
  {
    ValidQuotesDistinct(p);
    KeyExprsRoundTrip(es, p.initialQuote, p.finalQuote);
  }

  /** A foreign key keeps only the names of its local and referenced columns, in order. */
  lemma {:induction false} ForeignColumnsRoundTrip(p: Preparer, g: FkGroups, local: seq<KeyExpr>, foreign: seq<KeyExpr>)
    requires ValidPreparer(p)
    requires forall i :: 0 <= i < |local| ==> WellFormedKeyExpr(local[i], p.finalQuote)
    requires forall i :: 0 <= i < |foreign| ==> WellFormedKeyExpr(foreign[i], p.finalQuote)
    requires g.local == FormatKeyExprs(local, p.initialQuote, p.finalQuote)
    requires g.foreign == FormatKeyExprs(foreign, p.initialQuote, p.finalQuote)
    ensures FkSpecOf(p, g).local == Names(local)
    ensures FkSpecOf(p, g).foreign == Names(foreign)
  {
    ValidQuotesDistinct(p);
    KeyExprsRoundTrip(local, p.initialQuote, p.finalQuote);
    KeyExprsRoundTrip(foreign, p.initialQuote, p.finalQuote);
  }

  /**
   * A parser named in the version comment `/*!50100 WITH PARSER name */`
   * wins over the captured `WITH PARSER` group, whatever that holds.
   */
  lemma {:induction false} VersionParserOverrides(p: Preparer, g: KeyGroups, version: nat, parser: string)
    requires parser != [] && forall k :: 0 <= k < |parser| ==> !IsSpace(parser[k])
    requires g.versionSql == Some(VersionComment(version, parser))
    ensures KeyParser(p, g).Raised? <==> p.unformatIdentifiers(parser) == []
    ensures KeyParser(p, g).Done? ==> KeyParser(p, g).value == Some(p.unformatIdentifiers(parser)[0])
  {
    VersionCommentParser(version, parser);
  }
}
