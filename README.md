# MySQL `SHOW CREATE TABLE` reflection, modelled in Dafny

This project models the parser that SQLAlchemy's MySQL dialect uses to
reflect a table. It lives in `lib/sqlalchemy/dialects/mysql/reflection.py`.
`MySQLTableDefinitionParser.parse` takes the text of `SHOW CREATE TABLE`,
splits it into lines and routes each line by how it begins:

- a column definition goes to `_parse_column`;
- the closing `) ...` line goes to `_parse_table_options`;
- the `CREATE TABLE` line goes to `_parse_table_name`;
- any other line goes to `_parse_constraints` (KEY, FOREIGN KEY, CHECK, PARTITION).

The results are collected in place in a `ReflectedState`. For views,
`_describe_to_create` rebuilds such a text from `DESCRIBE` rows.

The modules follow the structure of the program:

| module | file | what it holds |
|---|---|---|
| `Text` | `text.dfy` | string helpers: prefix tests, ASCII case folding, doubling and halving a quote character, `re.split(r"\r?\n")` and `join`, decimal numerals |
| `Scanners` | `scanners.dfy` | the small regular expressions written out as scanners: `_re_csv_int`, `_re_csv_str`, `_re_keyexprs`, the quoted-string loop of the string options, `_strip_values` on one value, the comment/option unescaping |
| `Patterns` | `patterns.dfy` | the identifier preparer (escape, unescape, quote), the capture groups of the large column/KEY/FK/CHECK expressions, `_pr_name`, `_re_key_version_sql`, `_re_partition`, the warnings |
| `TableOptions` | `options.dfy` | the 23 table options in registration order, their patterns (`_add_option_string`, `_add_option_word`, `_add_option_regex`), `search` and `sub`, and `_parse_table_options` as a function |
| `Columns` | `columns.dfy` | the type arguments, `fsp`, ENUM/SET values and the column dictionary of `_parse_column` |
| `Constraints` | `constraints.dfy` | `_parse_constraints` |
| `Describe` | `describe.dfy` | `_describe_to_create` |
| `Reflection` | `reflection.dfy` | the routing of `parse` as a fold over the lines (`Step`, `RunLines`, `ParseSpec`); the classes `ReflectedState` and `TableDefinitionParser`, whose methods change state in place and are proved equal to the fold |

An exception raised while parsing is modelled as the outcome `Raised`.
It can come from `_strip_values` on a numeric ENUM value or from `[0]` of
an empty `unformat_identifiers` result. Once raised, the run stops and no
state is returned. Each `util.warn` call appends a `Warning` to the
parser's `warnings` list.

## Model

| member | source | states |
|---|---|---|
| Text.SplitJoinLines | lib/sqlalchemy/dialects/mysql/reflection.py:44 | Splitting on line breaks gives back the lines that were joined with `\n`, provided none of them holds a line break. |
| Text.HalveDouble | lib/sqlalchemy/dialects/mysql/reflection.py:556 | Halving the doubled quote character undoes doubling it, for every string. |
| Text.LowerIgnoringCase | lib/sqlalchemy/dialects/mysql/reflection.py:154 | Two directives equal up to ASCII case lower to the same option key. |
| Text.NumeralValue | lib/sqlalchemy/dialects/mysql/reflection.py:203 | `int()` of the decimal numeral of `n` is `n`. |
| Scanners.CsvInts | lib/sqlalchemy/dialects/mysql/reflection.py:203 | `findall(r"\d+")` yields no more numbers than the text has characters, and none exactly when the text holds no digit. |
| Scanners.CsvIntsRoundTrip | lib/sqlalchemy/dialects/mysql/reflection.py:364 | `findall(r"\d+")` with `int()` over a comma-separated list of numerals gives back the numbers, in order. |
| Scanners.CsvStrs | lib/sqlalchemy/dialects/mysql/reflection.py:201 | Every match of `_re_csv_str` is at least two characters long and starts and ends with `'`; a text without `'` has no match. |
| Scanners.CsvStrsRoundTrip | lib/sqlalchemy/dialects/mysql/reflection.py:361 | `findall` of `_re_csv_str` over a list of quoted values (`'` doubled) gives each quoted value back, in order. |
| Scanners.CloseQuotePaired | lib/sqlalchemy/dialects/mysql/reflection.py:503 | The text before the closing quote of `(?:[^']\|'')*?'(?!')` has every quote paired. |
| Scanners.GreedyAgrees | lib/sqlalchemy/dialects/mysql/reflection.py:361 | Where the lazy option-string loop closes, the greedy `'(?:''\|[^'])*'` of `_re_csv_str` closes at the same quote. |
| Scanners.StripValue | lib/sqlalchemy/dialects/mysql/reflection.py:553-557 | A value starting with `"` or `'` becomes strictly shorter; any other value, the empty one included, is kept as it is. |
| Scanners.StripQuoted | lib/sqlalchemy/dialects/mysql/reflection.py:550-558 | Stripping a value written between single quotes, with `'` doubled, gives back the value. |
| Scanners.UnescapeEscapeString | lib/sqlalchemy/dialects/mysql/reflection.py:509 | The cleanup that halves `\\` and then `''` undoes the doubling of quotes and backslashes, for every string. |
| Scanners.KeyExprs | lib/sqlalchemy/dialects/mysql/reflection.py:354-358 | `_parse_keyexprs` yields no more expressions than the text has characters, and none for a text without the initial quote. |
| Scanners.KeyExprsRoundTrip | lib/sqlalchemy/dialects/mysql/reflection.py:354-358 | `_parse_keyexprs` over printed key expressions gives back each name, length and direction, in order. |
| Patterns.Preparer.QuoteIdentifier | lib/sqlalchemy/dialects/mysql/reflection.py:285 | A quoted identifier is the initial quote, the escaped name and the final quote; the quotes in the middle are paired, and unescaping the middle gives back the name. |
| Patterns.Preparer.UnescapeEscape | lib/sqlalchemy/dialects/mysql/reflection.py:349 | Unescaping an identifier undoes escaping it. |
| Patterns.TableNameMatch | lib/sqlalchemy/dialects/mysql/reflection.py:346-350 | `_pr_name` matches only a line that starts with `CREATE `, and then captures a non-empty name. |
| Patterns.TableNameRoundTrip | lib/sqlalchemy/dialects/mysql/reflection.py:346-350 | `_pr_name` matches a printed `CREATE TABLE` line and captures the escaped name, which its cleanup turns back into the table's name. |
| Patterns.VersionSqlMatch | lib/sqlalchemy/dialects/mysql/reflection.py:425-427 | `_re_key_version_sql` matches only a comment starting with `!`, and a `parser` group it captures is never empty. |
| Patterns.VersionCommentParser | lib/sqlalchemy/dialects/mysql/reflection.py:425-427 | `_re_key_version_sql` over `!<version> WITH PARSER <name> ` captures the parser name. |
| Patterns.PartitionFromIff | lib/sqlalchemy/dialects/mysql/reflection.py:466 | `_re_partition` matches exactly when the word PARTITION occurs before the first line break. |
| TableOptions.QuotedAt | lib/sqlalchemy/dialects/mysql/reflection.py:503 | The string value is the text between an opening `'` and a closing `'` that no other `'` follows, and every quote inside it is paired. |
| TableOptions.WordRunAt | lib/sqlalchemy/dialects/mysql/reflection.py:514 | The word value is a non-empty run of word characters that no word character follows. |
| TableOptions.ParenListAt | lib/sqlalchemy/dialects/mysql/reflection.py:493 | The UNION value is `(`, at least one character other than `)`, then `)`. |
| TableOptions.StorageDiskAt | lib/sqlalchemy/dialects/mysql/reflection.py:494 | The TABLESPACE value ends with ` STORAGE DISK` (in any case), and the text before it is on one line and does not contain those words. |
| TableOptions.LazyDotsAt | lib/sqlalchemy/dialects/mysql/reflection.py:494 | The lazy `.*?` stops at the first ` STORAGE DISK` and never crosses a line break. |
| TableOptions.RaidAt | lib/sqlalchemy/dialects/mysql/reflection.py:495-497 | The RAID_TYPE value ends a run of word characters. |
| TableOptions.FoundAt | lib/sqlalchemy/dialects/mysql/reflection.py:500-526 | A match at a position starts with the directive, up to case, and its value lies after the directive. |
| TableOptions.MatchAt | lib/sqlalchemy/dialects/mysql/reflection.py:500-526 | A match at a position is the directive as written there, up to case equal to the option's name, and the `val` group is the value found after the separator; there is a match exactly when the directive, the separator and the value are found there. |
| TableOptions.MatchShape | lib/sqlalchemy/dialects/mysql/reflection.py:500-526 | The `val` group of every match has the shape its registration requires: quoted string, word, parenthesised list, text up to ` STORAGE DISK`, or RAID spec. |
| TableOptions.SearchFrom | lib/sqlalchemy/dialects/mysql/reflection.py:148 | `search` returns the match at its start position, and no position before it holds one; when it returns nothing, no position of the rest of the line holds a match. |
| TableOptions.SearchLeftmost | lib/sqlalchemy/dialects/mysql/reflection.py:148 | `search` finds the leftmost match, and finds none exactly when no position holds one. |
| TableOptions.SubFrom | lib/sqlalchemy/dialects/mysql/reflection.py:155 | `regex.sub("", ...)` never makes the text longer. |
| TableOptions.SubChangesIffMatch | lib/sqlalchemy/dialects/mysql/reflection.py:155 | `regex.sub("", line)` leaves the line unchanged exactly when `search` finds nothing. |
| TableOptions.StringOptionRoundTrip | lib/sqlalchemy/dialects/mysql/reflection.py:502-511 | A string option written `NAME='escaped value'` is found at its start with the escaped value, and the cleanup gives back the value. |
| TableOptions.WordOptionRoundTrip | lib/sqlalchemy/dialects/mysql/reflection.py:513-518 | A word option written `NAME=word` is found at its start with the whole word as its value. |
| TableOptions.ScanWith | lib/sqlalchemy/dialects/mysql/reflection.py:146-155 | The loop never removes a key it was given. |
| TableOptions.ScanStores | lib/sqlalchemy/dialects/mysql/reflection.py:146-155 | The value stored for each option is the cleaned `val` group of its first match in what the earlier options' substitutions left of the line; an option that is not found leaves its key as it was. |
| TableOptions.ScanKeys | lib/sqlalchemy/dialects/mysql/reflection.py:146-155 | Every key the loop stores is the lowercased name of an option in the table. |
| TableOptions.TableKeysDistinct | lib/sqlalchemy/dialects/mysql/reflection.py:471-498 | The 23 registered options store under 23 different keys. |
| TableOptions.OptionsOf | lib/sqlalchemy/dialects/mysql/reflection.py:140-158 | An empty line or `)` yields no options, and `auto_increment`, `data directory` and `index directory` are removed. |
| TableOptions.PrefixedKeyParts | lib/sqlalchemy/dialects/mysql/reflection.py:160-161 | A stored key is the dialect's name and `_` followed by the key of one of the options. |
| TableOptions.PrefixedLookup | lib/sqlalchemy/dialects/mysql/reflection.py:160-161 | Every option is stored under `<dialect>_<option>` with its own value. |
| TableOptions.PrefixedInsert | lib/sqlalchemy/dialects/mysql/reflection.py:160-161 | Storing one more option adds exactly one prefixed key with that value. |
| TableOptions.TableOptionsOf | lib/sqlalchemy/dialects/mysql/reflection.py:134-161 | An empty line or `)` yields no options; `auto_increment`, `data directory` and `index directory` are never stored; every stored key is `<dialect>_` followed by a table option's lowercased name. |
| TableOptions.TableOptionValue | lib/sqlalchemy/dialects/mysql/reflection.py:134-161 | The entry for each registered option is present exactly when its pattern is found in what the earlier options' substitutions left and its key is not excluded, and then holds the cleaned value of that match. |
| TableOptions.ShortLineHasNoOptions | lib/sqlalchemy/dialects/mysql/reflection.py:142-158 | A line shorter than every option name yields no options. |
| TableOptions.StringOptionLine | lib/sqlalchemy/dialects/mysql/reflection.py:134-161 | A closing line `) NAME='escaped value'` that no earlier option matches stores exactly the value under `<dialect>_<name>`, or nothing for an excluded name. |
| TableOptions.WordOptionLine | lib/sqlalchemy/dialects/mysql/reflection.py:134-161 | A closing line `) NAME=word` that no earlier option matches stores exactly the word under `<dialect>_<name>`, or nothing for an excluded name. |
| TableOptions.CommentLine | lib/sqlalchemy/dialects/mysql/reflection.py:147-155 | `) COMMENT='...'`, with the comment's quotes and backslashes doubled, stores exactly the comment, whatever it says. |
| TableOptions.CommentHidesEngine | lib/sqlalchemy/dialects/mysql/reflection.py:155 | A comment that reads `ENGINE=...` does not set the engine: the comment is removed from the line before ENGINE is searched. |
| TableOptions.EngineLine | lib/sqlalchemy/dialects/mysql/reflection.py:134-161 | `) ENGINE=name` stores exactly the engine under `<dialect>_engine`. |
| Columns.TypeArgs | lib/sqlalchemy/dialects/mysql/reflection.py:197-203 | No argument text gives no arguments; a text in single quotes gives only string arguments; any other text gives only integer arguments. |
| Columns.TypeArgsOfValues | lib/sqlalchemy/dialects/mysql/reflection.py:198-201 | A list of quoted values gives one quoted string argument per value, in order. |
| Columns.TypeArgsOfNumbers | lib/sqlalchemy/dialects/mysql/reflection.py:198-203 | A list of numbers gives one integer argument per number, in order. |
| Columns.LookupType | lib/sqlalchemy/dialects/mysql/reflection.py:189-195 | A known type name gives its registered type; an unknown one gives `NullType`. |
| Columns.SplitFsp | lib/sqlalchemy/dialects/mysql/reflection.py:208-210 | `fsp` is taken exactly for a temporal type with arguments, and it is the first argument; the rest stay in order. |
| Columns.TruthyOrNone | lib/sqlalchemy/dialects/mysql/reflection.py:215-217 | `charset` and `collate` are passed exactly when their groups are truthy. |
| Columns.StripValuesOf | lib/sqlalchemy/dialects/mysql/reflection.py:550-558 | `_strip_values` raises exactly when an argument is an integer (`a[0:1]` is a TypeError on an int); otherwise each value is stripped in its place. |
| Columns.StripValues | lib/sqlalchemy/dialects/mysql/reflection.py:550-558 | The loop computes `StripValuesOf`. |
| Columns.StripQuotedValues | lib/sqlalchemy/dialects/mysql/reflection.py:218-219 | Stripping the quoted values of an ENUM or SET gives back the values. |
| Columns.ColumnTypeOf | lib/sqlalchemy/dialects/mysql/reflection.py:197-224 | The type raises exactly for ENUM or SET with an integer argument. Otherwise it has the looked-up class, the `fsp` split off, `unsigned` and `zerofill` as their groups' truth, `charset` and `collate` when truthy. Other types keep their arguments; ENUM and SET get each argument stripped in its place, and `retrieve_as_bitwise` exactly for a SET with an empty value. |
| Columns.AutoIncrement | lib/sqlalchemy/dialects/mysql/reflection.py:234-238 | `autoincrement` is true exactly when the group is truthy, and absent exactly when it is not and the type is not an Integer. |
| Columns.ComputedOf | lib/sqlalchemy/dialects/mysql/reflection.py:252-258 | `computed` is present exactly with a `generated` group, holding its text; `persisted` is present exactly with a persistence group, and true exactly for `STORED`. |
| Columns.ColumnOf | lib/sqlalchemy/dialects/mysql/reflection.py:187-264 | The column raises exactly when its type raises. Otherwise: the name is the group's; nullable unless `NOT NULL`; the default is absent for none or `NULL`; the comment is unescaped; autoincrement and `computed` are as the source sets them. |
| Columns.EnumSetValues | lib/sqlalchemy/dialects/mysql/reflection.py:218-222 | ENUM and SET over quoted values get the values back as arguments and no `fsp`; `retrieve_as_bitwise` is set exactly for a SET with an empty value. |
| Columns.NumericEnumRaises | lib/sqlalchemy/dialects/mysql/reflection.py:203-219 | ENUM or SET with numeric arguments raises. |
| Columns.TemporalFsp | lib/sqlalchemy/dialects/mysql/reflection.py:208-210 | A temporal type takes its first number as `fsp` and keeps the others as arguments. |
| Columns.NoArguments | lib/sqlalchemy/dialects/mysql/reflection.py:198-199 | Without arguments the type gets none, no `fsp` and no `retrieve_as_bitwise`. |
| Columns.CommentRoundTrip | lib/sqlalchemy/dialects/mysql/reflection.py:247-250 | A comment written with its quotes and backslashes doubled is reflected as the original text. |
| Columns.ParseColumnLine | lib/sqlalchemy/dialects/mysql/reflection.py:171-195 | No match of either pattern warns of an unknown column and adds none. The unknown-column warning comes exactly when neither pattern matches, and the incomplete-reflection warning exactly when only the loose pattern matches. The unknown-type warning comes exactly for a type name that is not registered. The column is the one `ColumnOf` builds from the matching pattern. |
| Columns.MatchedLineWarnings | lib/sqlalchemy/dialects/mysql/reflection.py:171-195 | A matched line warns of exactly this: an incomplete reflection when only the loose pattern matched, then an unknown type when the type is not registered. A full match of a registered type warns of nothing. |
| Columns.LooseColumnBare | lib/sqlalchemy/dialects/mysql/reflection.py:176-180 | A column only the loose pattern matched has no default, comment or computed clause, no `unsigned`, `zerofill`, `charset` or `collate`, and `autoincrement` is not true, because `spec.get` of a group the loose pattern lacks is None. |
| Constraints.FirstIdentifier | lib/sqlalchemy/dialects/mysql/reflection.py:92-94 | `unformat_identifiers(...)[0]` raises exactly on an empty result, and is its first element otherwise. |
| Constraints.KeyParser | lib/sqlalchemy/dialects/mysql/reflection.py:87-94 | A non-empty parser named in the version comment replaces the group's. A truthy parser is unformatted, and the key raises exactly when unformatting gives nothing. A falsy parser is kept as it is. |
| Constraints.KeySpecOf | lib/sqlalchemy/dialects/mysql/reflection.py:79-95 | A key raises exactly when its parser does. Otherwise its columns are `_parse_keyexprs` of the group, its parser is `KeyParser`'s, and every other field is its group's. |
| Constraints.FkSpecOf | lib/sqlalchemy/dialects/mysql/reflection.py:98-106 | The referenced table is unformatted into its components. The local and foreign columns are the names of `_parse_keyexprs` of their groups, one per expression, in order. Name, MATCH, ON DELETE and ON UPDATE are the groups'. |
| Constraints.ConstraintOf | lib/sqlalchemy/dialects/mysql/reflection.py:73-121 | The first of KEY, FOREIGN KEY, CHECK and PARTITION that matches decides the kind; none is Unrecognized; only a KEY can raise. The KEY, FOREIGN KEY and CHECK specs are built from that pattern's groups. |
| Constraints.KeyColumnsRoundTrip | lib/sqlalchemy/dialects/mysql/reflection.py:86 | A key over printed key expressions reflects those expressions. |
| Constraints.ForeignColumnsRoundTrip | lib/sqlalchemy/dialects/mysql/reflection.py:102-105 | A foreign key over printed column lists reflects their names, local and foreign. |
| Constraints.VersionParserOverrides | lib/sqlalchemy/dialects/mysql/reflection.py:87-94 | A `WITH PARSER` version comment replaces the parser group, and the parser is the first unformatted identifier of that name. |
| Describe.DefaultWords | lib/sqlalchemy/dialects/mysql/reflection.py:289-302 | No default clause for a falsy default or one mentioning `auto_increment`. Otherwise `DEFAULT` and one word, which is the default as it is exactly for a `C...` default of a `timestamp...` column or for `NULL`, and otherwise a quoted text that strips back to the default. |
| Describe.AutoIncrementDefaultHidden | lib/sqlalchemy/dialects/mysql/reflection.py:289-291 | A row prints `DEFAULT` exactly when its default is truthy and does not mention `auto_increment`. |
| Describe.RowWords | lib/sqlalchemy/dialects/mysql/reflection.py:284-285 | A row's words start with a space and the quoted column name. |
| Describe.DescribeToCreate | lib/sqlalchemy/dialects/mysql/reflection.py:266-317 | The loop builds the `CREATE TABLE` line, the row lines joined by `,\n`, and the closing `\n) `. |
| Describe.LineOf | lib/sqlalchemy/dialects/mysql/reflection.py:284-304 | The list built for one row is that row's words. |
| Describe.RowLineStart | lib/sqlalchemy/dialects/mysql/reflection.py:284-306 | Every row line starts with two spaces and the initial quote, so `parse` routes it to `_parse_column`. |
| Describe.NotNullPrinted | lib/sqlalchemy/dialects/mysql/reflection.py:287-288 | `NOT NULL` is printed exactly for a row whose `Null` value is falsy (absent or empty). |
| Describe.DefaultNeverNotNull | lib/sqlalchemy/dialects/mysql/reflection.py:289-302 | The default clause never holds the word `NOT NULL`. |
| Describe.QuotedDefaultDecodes | lib/sqlalchemy/dialects/mysql/reflection.py:300-302 | Any other default is printed quoted, and stripping it gives the default back. |
| Describe.SplitJoinedLines | lib/sqlalchemy/dialects/mysql/reflection.py:314-315 | Row lines joined with `,\n` and followed by `\n) ` split back into the row lines, each but the last ending in a comma, and then `) `. |
| Describe.ColumnLinesStart | lib/sqlalchemy/dialects/mysql/reflection.py:306-316 | Every printed column line starts with two spaces and the initial quote. |
| Describe.CreateTextLines | lib/sqlalchemy/dialects/mysql/reflection.py:308-317 | Split into lines, the text is the `CREATE TABLE` line, the column lines and the closing `) `. |
| Describe.RowLineNoBreak | lib/sqlalchemy/dialects/mysql/reflection.py:306 | A row without line breaks prints as one line. |
| Reflection.Classify | lib/sqlalchemy/dialects/mysql/reflection.py:45-59 | Each kind of line holds exactly when its test passes and none before it does. |
| Reflection.Appended | lib/sqlalchemy/dialects/mysql/reflection.py:181-183 | A column line adds at most one column, and one exactly when it yields one. |
| Reflection.TableNameOf | lib/sqlalchemy/dialects/mysql/reflection.py:123-132 | The name becomes the unescaped capture when `_pr_name` matches, and stays as it was otherwise. |
| Reflection.Step | lib/sqlalchemy/dialects/mysql/reflection.py:44-70 | After an exception nothing changes; `)` and empty lines change nothing. A column line appends its column, if any, and its warnings, and raises exactly when the column raises. A closing line updates the table options with `TableOptionsOf` of the line and changes nothing else. A `CREATE` line sets only the table name. A constraint line appends its key, foreign key or check to that list alone, raises exactly when the constraint raises, adds only a warning when unrecognized, and changes nothing for a partition. |
| Reflection.RunLinesAt | lib/sqlalchemy/dialects/mysql/reflection.py:44 | The lines are handled in order, one after the other. |
| Reflection.RaisedStays | lib/sqlalchemy/dialects/mysql/reflection.py:41-71 | Once an exception is raised, the remaining lines change nothing. |
| Reflection.RunAppend | lib/sqlalchemy/dialects/mysql/reflection.py:44 | Parsing two blocks of lines is parsing the first and then the second. |
| Reflection.ParseInOrder | lib/sqlalchemy/dialects/mysql/reflection.py:41-71 | When `parse` raises nothing, its columns, table options, keys, foreign keys and check constraints are those of its lines, in input order. |
| Reflection.ColumnsInOrder | lib/sqlalchemy/dialects/mysql/reflection.py:45-46 | Without an exception the columns are exactly those of the column lines, in input order. |
| Reflection.OptionsInOrder | lib/sqlalchemy/dialects/mysql/reflection.py:48-49 | Without an exception the table options are those of the closing lines, merged in input order, a later line's entry winning. |
| Reflection.ConstraintsInOrder | lib/sqlalchemy/dialects/mysql/reflection.py:60-68 | Without an exception the keys, foreign keys and check constraints are exactly those of the constraint lines, in input order. |
| Reflection.RunWarnings | lib/sqlalchemy/dialects/mysql/reflection.py:62 | Earlier warnings are kept and the run's warnings follow them. |
| Reflection.RegisteredInOrder | lib/sqlalchemy/dialects/mysql/reflection.py:471-498 | String, word and regex registrations together give the option table in order. |
| Reflection.AddOptionStrings | lib/sqlalchemy/dialects/mysql/reflection.py:471-472 | The loop registers one quoted-string pattern per option, in order. |
| Reflection.AddOptionWords | lib/sqlalchemy/dialects/mysql/reflection.py:474-491 | The loop registers one word pattern per option, in order. |
| Reflection.StepColumnLine | lib/sqlalchemy/dialects/mysql/reflection.py:45-46 | A column line or an empty line changes only the columns, adds at most one, and never adds an unknown-schema warning. |
| Reflection.ColumnLinesOnly | lib/sqlalchemy/dialects/mysql/reflection.py:44-46 | A run of column and empty lines changes only the columns, adds at most one per line, and never adds an unknown-schema warning. |
| Reflection.StepCreateLine | lib/sqlalchemy/dialects/mysql/reflection.py:53-54 | A printed `CREATE TABLE` line sets the table's name and nothing else. |
| Reflection.StepClosingLine | lib/sqlalchemy/dialects/mysql/reflection.py:48-49 | A `) ` line too short to hold an option changes nothing. |
| Reflection.DescribeRoundTrip | lib/sqlalchemy/dialects/mysql/reflection.py:266-317 | Parsing what `_describe_to_create` prints gives the view's name, no options, keys or constraints, at most one column per row, and no unknown-schema warning. |
| Reflection.ReflectedState.constructor | lib/sqlalchemy/dialects/mysql/reflection.py:23-29 | A new state is empty. |
| Reflection.TableDefinitionParser.constructor | lib/sqlalchemy/dialects/mysql/reflection.py:36-39 | The parser keeps its dialect and preparer, has every table option registered in order, and has no warnings. |
| Reflection.TableDefinitionParser.Parse | lib/sqlalchemy/dialects/mysql/reflection.py:41-71 | The state filled in place and the warnings emitted are those of the fold over the lines; it raises exactly when the fold does; the charset is stored. |
| Reflection.TableDefinitionParser.ParseLine | lib/sqlalchemy/dialects/mysql/reflection.py:45-70 | One line changes the state and the warnings as `Step` says. |
| Reflection.TableDefinitionParser.ParseConstraintLine | lib/sqlalchemy/dialects/mysql/reflection.py:60-70 | The line's constraint is appended to its list, or its warning is emitted. |
| Reflection.TableDefinitionParser.ParseTableName | lib/sqlalchemy/dialects/mysql/reflection.py:123-132 | The name is set to the unescaped capture when `_pr_name` matches; otherwise it is left alone. |
| Reflection.TableDefinitionParser.ParseTableOptions | lib/sqlalchemy/dialects/mysql/reflection.py:134-161 | The table options gain exactly `TableOptionsOf` of the line. |
| Reflection.TableDefinitionParser.SearchOptions | lib/sqlalchemy/dialects/mysql/reflection.py:146-155 | The loop over `_pr_options` computes the scan of the option table. |
| Reflection.TableDefinitionParser.StoreOptions | lib/sqlalchemy/dialects/mysql/reflection.py:160-161 | The loop stores every option under its prefixed key, and nothing else. |
| Reflection.TableDefinitionParser.ParseColumn | lib/sqlalchemy/dialects/mysql/reflection.py:163-264 | The columns and warnings change as `ParseColumnLine` says. |
| Reflection.TableDefinitionParser.BuildColumn | lib/sqlalchemy/dialects/mysql/reflection.py:224-264 | The column built is `ColumnOf` of the groups. |
| Reflection.TableDefinitionParser.BuildType | lib/sqlalchemy/dialects/mysql/reflection.py:197-224 | The type built is `ColumnTypeOf` of the groups. |

The fold `Reflection.RunLines` and `Reflection.ParseSpec` are stated by `RunLinesAt`, `RaisedStays`, `RunAppend` and `ParseInOrder`. `TableOptions.ScanOptions` is stated by `ScanStores` and `ScanKeys`, `TableOptions.Sub` by `SubChangesIffMatch`, `Patterns.PartitionMatch` by `PartitionFromIff`, and `Describe.CreateText` by `CreateTextLines`.

## Left out

- The column, loose-column, KEY, FOREIGN KEY and CHECK regular expressions are too large to write out as scanners. They are fields of `Patterns.Patterns`, each a function from a line to its optional capture groups, with a record holding exactly the groups that pattern has (the loose column pattern has only `name`, `coltype`, `arg` and `notnull`). Which lines match and what each group captures is left open; what the parser does with the groups is modelled.
- Character classes and `re.I` (lines 544-547) are modelled for ASCII only: `\w`, `\s`, `\d` and case folding ignore the rest of Unicode.
- `util.warn` is modelled as a list of `Warning` values on the parser. Logging and the warnings machinery are left out.
- The type registry is a map from type name to a `TypeClass` with a type family. The call `col_type(*type_args, **type_kw)` at line 224 records its arguments and does not build a type object. `NullType` stands in for an unknown name.
- `Patterns.Preparer.unformatIdentifiers` is a free function field, because `IdentifierPreparer.unformat_identifiers` is not part of this model. An empty result is handled: `[0]` raises.
- Identifier escaping is modelled as MySQL's doubling of the final quote character. `quote_identifier` is modelled as initial quote, escaped name and final quote. `compiler.py` is not part of this model.
- Scanners.EscapeString: MySQL's escaping of a quoted comment or string option is modelled only as the doubling of `'` and `\`. MySQL also writes NUL, line feed and carriage return as `\0`, `\n` and `\r`; the cleanups at lines 250 and 509 do not undo those, so such a character comes back as a backslash and a letter. The round trips `UnescapeEscapeString`, `CommentRoundTrip`, `StringOptionRoundTrip`, `StringOptionLine` and `CommentLine` are about the doubling alone.
- Scanners.KeyExprs: the scanner follows `_re_keyexprs` for quote characters other than `,`, `(`, a space and a line break (`DistinctQuotes`, which `KeyExprsRoundTrip` requires). With one of those as a quote character, the repeated outer group of the regular expression can iterate, and `findall` keeps its last iteration, which the scanner does not.
- Patterns.TableNameMatch: the name pattern is written out as a scanner that is faithful for quote characters that are neither word characters nor spaces, as those of `ValidPreparer` are; with other quote characters the regular expression can backtrack into the quotes in ways the scanner does not.
- The capture groups `colfmt`, `storage` and `extra` of the column pattern are not used by the parser, so the model does not carry them.
- Regular-expression compilation (`_pr_compile`, `_re_compile`) is not modelled; each pattern is a scanner or a pattern field.
- The parts of `_prep_regexes` that build the column, key and constraint expressions are not modelled, because those expressions are fields (see above). Only the table-option registrations are modelled.
- `charset` is stored as given, and `nullable` and `default` of a `DESCRIBE` row are `Option<string>`. Python truthiness is modelled for strings: absent or empty is false. The values `DESCRIBE` puts in its `Null` column are not modelled. It writes `YES` or `NO`, both truthy, so the test `if not nullable` at line 287 prints `NOT NULL` only for an absent or empty value; the model keeps that test as written.
- Python dictionaries keep insertion order; the options and the table options are Dafny maps, which have none. The values stored, and which of two entries wins, are modelled; the order in which `table_options` lists its keys is not.
- Reflection.DescribeRoundTrip: states the shape of the reflected view (name, no options, keys or constraints, at most one column per row). It does not state the contents of each column, because the column pattern is abstract.
- Reflection.StepClosingLine: covers only closing lines too short to hold an option. Longer closing lines are covered by `TableOptions.TableOptionValue`, `StringOptionLine`, `WordOptionLine`, `CommentLine` and `EngineLine`.
- Patterns.VersionCommentParser: covers only the printed comment form `!<version> WITH PARSER <name> `. Other inputs are only stated to give a non-empty parser when one is found.
- TableOptions.RaidAt: states only that the value ends a run of word characters; the inner words `RAID_CHUNKS` and `RAID_CHUNKSIZE` are matched but not restated in the contract.
