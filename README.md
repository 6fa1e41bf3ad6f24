# Safe SQL layer and session memory, in Dafny

This project models two parts of an MCP server that answers natural-language
questions about a PostgreSQL schema (`space_product_aies`).

The first part is the safe SQL layer. `execute_action(action, filters)` takes one of
seven actions and a filters dictionary. It then:

- validates the column names the filters give against the database catalogue (`information_schema.columns`),
  the join type against its five kinds, and the ORDER BY direction;
- fills the action's template with those names and with the table names, which are
  interpolated as given, without any check (`db_layer/executor.py:72`, `:335`, `:352`);
- binds the condition values and the LIMIT as `%s` parameters;
- executes the statement on a fresh connection and shapes the rows, or the
  error, into the response.

The second part is the in-process session memory. It records each session's
queries and purges sessions that have been idle for more than 24 hours.

Modules, one per source file (plus two of shared vocabulary):

- `Wrappers`: `Option` and `Result`.
- `Text`: the Python string operations the layer relies on (`split`, `join`,
  `upper`, `strip`, counting `%s` placeholders and `{}` fields), with
  their round trips proved.
- `Validation` (`db_layer/validation.py`): the catalogue is a value, a map from table to its
  columns in ordinal order plus a flag for "the catalogue query raised". Every
  validator is a function that returns either its result or the `ValueError` it raises.
- `QueryBuilder` (`db_layer/query_builder.py`): the column list, the join condition, and
  `ACTION_SQL_MAP`. Each template is the literal text around its `{}` fields.
- `Executor` (`db_layer/executor.py`):
  - Pure functions plan each action's statement (SQL text and parameter list).
  - `Outcome` says what a request answers and which statements it executes.
  - A `Connection` class records the statements executed on it.
  - The method `ExecuteAction` runs the plan on a fresh connection, closes it on every
    path, and is proved equal to `Outcome`.
  - The database is a parameter: a function from a statement to its rows or to the
    message it raises.
- `Memory` (`memory.py`): the two module-level dictionaries are the fields of a
  `SessionStore` class, and its methods update them in place. The clock is a parameter `now`,
  in microseconds.

The central safety property is `Executor.OutcomeBinds`. For every action and every filters
dictionary, every statement the executor sends to the driver has exactly as
many `%s` placeholders as bound parameters. The only premise is that the
catalogue and the interpolated names contain no `%`.

Not everything that reaches the SQL is validated. Table names are
interpolated unchecked. The prefix of an ORDER BY column `t.c` is never
checked by `validate_order_by` (`Validation.OrderByPrefixUnchecked`), and
`validate_order_by_for_join` checks only the first two segments of `t.c.d`
(`Validation.ResolvePrefixedIgnoresTail`). Condition values, on the other
hand, never reach the SQL text of any action: `Executor.OutcomeIgnoresValues`
shows that passing every value through any function leaves each request's
answer and every executed SQL text unchanged, and changes only the bound
parameters, in the same places.

## Model

| member | source | states |
|---|---|---|
| Text.SplitParts | mcp_server/server/db_layer/validation.py:116 | no part of `s.split(sep)` holds the separator; a string without it splits into itself; there are two or more parts exactly when the separator occurs |
| Text.JoinSplit | mcp_server/server/db_layer/query_builder.py:12 | joining the parts of a split with the separator gives the original string back |
| Text.SplitAround | mcp_server/server/db_layer/validation.py:149-163 | splitting `a.b` splits `a` and `b` independently |
| Text.LastSegmentOfQualified | mcp_server/server/db_layer/validation.py:116 | the last dot-segment of `prefix.name` is `name`, whatever the prefix |
| Text.QualifiedSegments | mcp_server/server/db_layer/validation.py:149-151 | `prefix.name` with dot-free parts splits into exactly `[prefix, name]` |
| Text.UpperFixes | mcp_server/server/db_layer/validation.py:88 | upper-casing is idempotent: its output has no lower-case letter, and such text is left unchanged |
| Text.Strip | mcp_server/server/db_layer/validation.py:88 | the stripped text neither starts nor ends with whitespace |
| Text.StripFixes | mcp_server/server/db_layer/validation.py:88 | stripping text with no surrounding whitespace changes nothing, so stripping is idempotent |
| Text.PairsConcat | mcp_server/server/db_layer/executor.py:72 | placeholder counts add across a concatenation unless one straddles the seam |
| Text.NoFirstNoPairs | mcp_server/server/db_layer/executor.py:72 | text without `%` holds no `%s` |
| Text.JoinAvoids | mcp_server/server/db_layer/query_builder.py:12 | joining `%`-free names with a `%`-free separator gives `%`-free text |
| Text.Repeat | mcp_server/server/db_layer/validation.py:233 | `[s] * n` has `n` elements, each `s` |
| Validation.Keep | mcp_server/server/db_layer/validation.py:29-34 | the kept names are exactly the requested names the table has, never more than were requested |
| Validation.KeepConcat | mcp_server/server/db_layer/validation.py:29-34 | the filter keeps request order: filtering a concatenation filters each part |
| Validation.KeepCounts | mcp_server/server/db_layer/validation.py:29-34 | every occurrence of a catalogue column survives (duplicates kept) and every other name is dropped |
| Validation.ValidColumns | mcp_server/server/db_layer/validation.py:7-43 | an unreachable catalogue gives `["*"]`; otherwise only catalogue columns come back, and some always do when the table has any |
| Validation.ValidColumnsCases | mcp_server/server/db_layer/validation.py:25-37 | an empty request gives all the table's columns; an unknown table gives none; a request naming a known column keeps exactly its known names in order; a request naming none falls back to all the columns |
| Validation.ValidateColumns | mcp_server/server/db_layer/validation.py:29-37 | the loop computes `ValidColumns` |
| Validation.ValidateJoinColumns | mcp_server/server/db_layer/validation.py:45-73 | both sides default to `id`; success iff table1 has its column and table2 has its column; a failure names table1's column first |
| Validation.ValidateJoinType | mcp_server/server/db_layer/validation.py:75-94 | accepted iff the stripped upper-case form is one of the five join kinds; the result is that form; a rejection names the input |
| Validation.JoinTypeIdempotent | mcp_server/server/db_layer/validation.py:88-94 | an accepted join type re-validates to itself |
| Validation.ColumnKey | mcp_server/server/db_layer/validation.py:116 | the checked name is dot-free, and is the column itself when it has no dot |
| Validation.ValidateOrderBy | mcp_server/server/db_layer/validation.py:96-128 | no column fails; accepted iff the last dot-segment is a column of the table and the direction is ASC or DESC; the clause keeps the column as given |
| Validation.OrderByPrefixUnchecked | mcp_server/server/db_layer/validation.py:116-121 | a prefixed ORDER BY column is judged only by its name; the prefix is never checked |
| Validation.ResolveJoinOrderColumn | mcp_server/server/db_layer/validation.py:145-177 | a prefixed column, when accepted, is kept as given; an unprefixed one is qualified with the one table that has it, and rejected as ambiguous when both have it or as unknown when neither does |
| Validation.ResolvePrefixed | mcp_server/server/db_layer/validation.py:149-163 | `t.c` resolves iff `t` is table1 and has `c`, or `t` is table2 and has `c`; table1 is checked first |
| Validation.ResolvePrefixedIgnoresTail | mcp_server/server/db_layer/validation.py:149-163 | a column `t.c.rest` with more than one dot is accepted or rejected on `t` and `c` alone; the rest is never checked and is kept in the clause |
| Validation.ValidateOrderByForJoin | mcp_server/server/db_layer/validation.py:130-184 | the column is resolved before the direction is checked; on success the clause is the resolved column and the direction |
| Validation.ParseCondition | mcp_server/server/db_layer/validation.py:186-248 | a missing column is a TypeError; an unknown column, then an unknown operator, then a wrong arity is rejected in that order; on success the clause starts with the column and the parameters are the operator's values |
| Validation.ParseConditionArity | mcp_server/server/db_layer/validation.py:222-246 | a known column and operator with the wrong number of values fail with that operator's arity error |
| Validation.InPlaceholdersCount | mcp_server/server/db_layer/validation.py:233 | the IN list of `n` placeholders holds exactly `n` of them |
| Validation.PredicatePlaceholders | mcp_server/server/db_layer/validation.py:222-246 | the operator part holds none (null checks), two (BETWEEN), one per value (IN) or one (others) placeholder |
| Validation.ParseConditionPlaceholders | mcp_server/server/db_layer/validation.py:200-248 | an accepted condition's clause holds the column text's own `%s` plus exactly one per returned parameter |
| Validation.ParseConditionIgnoresValues | mcp_server/server/db_layer/validation.py:200-248 | the values never reach the SQL: replacing them leaves acceptance, the error and the clause unchanged and maps the parameters |
| QueryBuilder.FormatColumns | mcp_server/server/db_layer/query_builder.py:5-12 | no columns gives `*` |
| QueryBuilder.SpacedJoinSplit | mcp_server/server/db_layer/query_builder.py:12 | the `", "`-joined list splits back on commas into its names, each behind a space |
| QueryBuilder.FormatColumnsSplit | mcp_server/server/db_layer/query_builder.py:5-12 | the SELECT list reads back into exactly the requested names, in order |
| QueryBuilder.JoinConditionParts | mcp_server/server/db_layer/query_builder.py:14-27 | the join condition reads back as `t1.c1`, `=`, `t2.c2`, each side splitting into its table and column |
| QueryBuilder.TemplateFields | mcp_server/server/db_layer/query_builder.py:30-38 | a template has one `{}` field fewer than it has literal pieces |
| QueryBuilder.FormatWithFieldsIsText | mcp_server/server/db_layer/query_builder.py:30-38 | filling every field with `{}` gives the template back (format is the inverse of splitting at fields) |
| QueryBuilder.FormatPlaceholders | mcp_server/server/db_layer/executor.py:72 | formatting neither creates nor destroys `%s`: the result holds the pieces' plus the arguments' |
| QueryBuilder.SumPlaceholdersConcat | mcp_server/server/db_layer/executor.py:72 | placeholder totals add across a split of the arguments |
| QueryBuilder.InertShape | mcp_server/server/db_layer/query_builder.py:30-38 | a template built from literal pieces is well formed, and only a trailing `LIMIT %s;` contributes a placeholder |
| QueryBuilder.LimitPlaceholder | mcp_server/server/db_layer/query_builder.py:32-34 | the ` LIMIT %s;` tail of the record fetches holds exactly one placeholder |
| QueryBuilder.ActionTemplates | mcp_server/server/db_layer/query_builder.py:30-38 | each action's template has as many fields as the executor passes arguments, and only the three record fetches carry a `%s`, for the LIMIT |
| QueryBuilder.ActionSqlMapLookups | mcp_server/server/db_layer/query_builder.py:30-38 | the map has exactly the seven actions as keys, each mapped to its own template |
| Executor.RunPlan | mcp_server/server/db_layer/executor.py:47-80 | a rejected request executes nothing and answers its error; an accepted one executes exactly its statement |
| Executor.RunPlanShape | mcp_server/server/db_layer/executor.py:47-80 | running a plan always answers and executes at most one statement; a rejection found before the database is reached executes nothing |
| Executor.BuildJoinSelectList | mcp_server/server/db_layer/executor.py:145-160 | the two loops build table1's qualified columns followed by table2's |
| Executor.CommonColumns | mcp_server/server/db_layer/executor.py:208-210 | the shared columns are exactly those in both tables, each listed once; the list is empty iff the tables share no column |
| Executor.RunPlanOn | mcp_server/server/db_layer/executor.py:47-80 | running a plan on an open connection appends exactly what `RunPlan` executes and answers what it answers |
| Executor.RunSummaryOn | mcp_server/server/db_layer/executor.py:330-364 | the table summary executes the statements `SummaryRun` lists, in order, and answers what it answers |
| Executor.ExecuteAction | mcp_server/server/db_layer/executor.py:12-375 | the connection is fresh and closed on every path; it executed exactly the statements of `Outcome`; a timeout replaces the answer; only the joined query rewrites the caller's filters |
| Executor.Connection.Execute | mcp_server/server/db_layer/executor.py:75 | an execution records the statement and returns the database's outcome |
| Executor.Connection.Close | mcp_server/server/db_layer/executor.py:366-367 | closing keeps the record of executed statements |
| Executor.Connection.constructor | mcp_server/server/db_layer/executor.py:15 | a new connection is open and has executed nothing |
| Executor.ValidColumnsPercentFree | mcp_server/server/db_layer/validation.py:7-43 | validated columns from a `%`-free catalogue and request are `%`-free |
| Executor.WhereClauseBinds | mcp_server/server/db_layer/executor.py:47-54 | the WHERE suffix holds as many `%s` as values it binds |
| Executor.FetchNRecordsBinds | mcp_server/server/db_layer/executor.py:24-80 | the fetch statement's placeholders equal its parameters (condition values plus LIMIT) |
| Executor.JoinedBinds | mcp_server/server/db_layer/executor.py:82-175 | the joined statement's placeholders equal its parameters |
| Executor.AppendedBinds | mcp_server/server/db_layer/executor.py:177-246 | the appended statement, whose WHERE occurs twice, binds the condition values twice plus the LIMIT, matching its placeholders |
| Executor.SummarizeBinds | mcp_server/server/db_layer/executor.py:248-285 | the summarize statement has no placeholders and no parameters |
| Executor.AnalyzeBinds | mcp_server/server/db_layer/executor.py:287-328 | the relationship statement has no placeholders and no parameters |
| Executor.FetchTablesBinds | mcp_server/server/db_layer/executor.py:18-22 | the table listing has no placeholders and no parameters |
| Executor.ColumnSqlBinds | mcp_server/server/db_layer/executor.py:340-349 | the catalogue query holds exactly one `%s`, for the table name |
| Executor.CountBinds | mcp_server/server/db_layer/executor.py:335-336 | the row-count statement interpolates only the table name and so holds no placeholder, matching its empty parameter list |
| Executor.SampleBinds | mcp_server/server/db_layer/executor.py:352-353 | the sample query holds no placeholder and binds no parameter |
| Executor.SummaryRunExecuted | mcp_server/server/db_layer/executor.py:333-355 | every statement the summary executes is the row count, the catalogue query for the table, or the sample |
| Executor.SummaryBinds | mcp_server/server/db_layer/executor.py:330-364 | every statement of the table summary binds correctly |
| Executor.OutcomeBinds | mcp_server/server/db_layer/executor.py:12-375 | for every action and filters, every executed statement has exactly as many `%s` as parameters |
| Executor.FetchNRecordsLimit | mcp_server/server/db_layer/executor.py:27-44 | the LIMIT is `n`, else 1 for the column/value shorthand, else 5, and is the last parameter; with no condition it is the only one |
| Executor.ShorthandBindsValue | mcp_server/server/db_layer/executor.py:35-44 | the shorthand binds its value, then a LIMIT defaulting to 1 |
| Executor.ShorthandNullRejected | mcp_server/server/db_layer/executor.py:35-54 | a shorthand with a null value on a known column is rejected because `=` needs a value |
| Executor.ExplicitConditionWins | mcp_server/server/db_layer/executor.py:35-44 | with a `condition` key, the `column` and `value` keys do not affect the plan |
| Executor.FetchConditionFirst | mcp_server/server/db_layer/executor.py:47-64 | a rejected condition is reported before anything about the ORDER BY |
| Executor.WhereClauseIgnoresValues | mcp_server/server/db_layer/executor.py:47-54 | condition values never reach the WHERE text: the outcome and the text are unchanged and the parameters are the mapped values |
| Executor.FetchValuesNotInSql | mcp_server/server/db_layer/executor.py:24-80 | replacing every value leaves acceptance, the error and the SQL of a fetch unchanged, and maps each bound value in place |
| Executor.BindMaps | mcp_server/server/db_layer/executor.py:75 | binding transformed values is transforming the bound parameters, the LIMIT and table names untouched |
| Executor.JoinedValuesNotInSql | mcp_server/server/db_layer/executor.py:82-175 | replacing every value leaves acceptance, the error and the SQL of a joined query unchanged, and maps each bound value in place |
| Executor.AppendedValuesNotInSql | mcp_server/server/db_layer/executor.py:177-246 | the same for the appended query, whose two halves bind the mapped values twice |
| Executor.SummarizeAnalyzeIgnoreValues | mcp_server/server/db_layer/executor.py:248-328 | the column summary and the relationship query do not depend on the values at all |
| Executor.OutcomeIgnoresValues | mcp_server/server/db_layer/executor.py:12-375 | for every action, on a database that answers each statement as it answered it before the change, replacing every value gives the same answer and executes the same SQL texts in order, with the values mapped in place |
| Executor.ConditionColumnQualified | mcp_server/server/db_layer/executor.py:111-125 | a prefixed condition column is kept; an unprefixed one is qualified with the first table that has it, keeping its name as last segment; otherwise it is rejected |
| Executor.Table2ConditionRejected | mcp_server/server/db_layer/executor.py:111-132 | an unprefixed condition column that only table2 has is qualified and then rejected, because the condition is checked against table1 |
| Executor.JoinedColumnsFromTable1 | mcp_server/server/db_layer/executor.py:157-160 | requested joined columns are validated against table1 only: a column only table2 has is dropped, and a request naming only such columns falls back to all of table1's columns |
| Executor.JoinRewriteStable | mcp_server/server/db_layer/executor.py:111-125 | the in-place rewrite is idempotent, and planning again from the rewritten filters gives the same plan |
| Executor.JoinSelectListColumns | mcp_server/server/db_layer/executor.py:145-160 | the joined select list has one entry per catalogue column of either table, table1 first, each qualified |
| Executor.JoinSelectListSplits | mcp_server/server/db_layer/executor.py:145-160 | every select-list entry splits back into its table and one of that table's catalogue columns |
| Executor.AppendedShape | mcp_server/server/db_layer/executor.py:177-246 | an accepted appended query lists the shared columns, binds the condition values once per half plus the LIMIT, and orders only by a shared column |
| Executor.AppendedNoCommonColumns | mcp_server/server/db_layer/executor.py:228-233 | two tables without a shared column are refused before anything runs |
| Executor.AppendedErrorOrder | mcp_server/server/db_layer/executor.py:184-233 | a rejected condition wins over a bad ORDER BY, which wins over a missing shared column |
| Executor.SingleColumnKept | mcp_server/server/db_layer/validation.py:25-37 | a one-name request keeps the name exactly when the table has it |
| Executor.SummarizeChecksColumn | mcp_server/server/db_layer/executor.py:248-256 | summarize is accepted iff the column is in the table (or is `*` when the catalogue is unreachable); otherwise the error is "column not in table" |
| Executor.PairKept | mcp_server/server/db_layer/validation.py:25-37 | a two-name request keeps each name exactly when the table has it |
| Executor.AnalyzeChecksColumns | mcp_server/server/db_layer/executor.py:287-298 | analyze is accepted iff both columns are in the table, and the categorical column is reported first |
| Executor.ChartFields | mcp_server/server/db_layer/executor.py:267-325 | each chart names the action's own table and columns and carries the fetched rows |
| Executor.TableSummaryShape | mcp_server/server/db_layer/executor.py:330-364 | the summary always answers; it succeeds iff the count returns a row, the catalogue is reachable and the sample is fetched; it then has five entries with the catalogue's column names and their count after three statements |
| Executor.SummaryRunShape | mcp_server/server/db_layer/executor.py:330-364 | the summary always answers, executes at most three statements, and none when it is rejected before reaching the database |
| Executor.DispatchShape | mcp_server/server/db_layer/executor.py:12-375 | an unknown action answers None and runs nothing; a known one always answers; at most one statement runs, or three for the table summary; a rejection runs nothing |
| Memory.Recent | mcp_server/server/memory.py:63-64 | the history is a suffix: all of it for no limit or 0, the last `k` for positive `k`, and all but the first `-k` for negative `k` |
| Memory.CleanupRemovesExactlyExpired | mcp_server/server/memory.py:99-112 | cleanup removes exactly the expired sessions, keeps every other entry list and timestamp, and keeps both dictionaries over the same sessions |
| Memory.ExpiryBoundary | mcp_server/server/memory.py:13 | a session exactly 24 hours old survives; one a microsecond older is purged |
| Memory.SessionStore.constructor | mcp_server/server/memory.py:9-14 | the store starts empty |
| Memory.SessionStore.StoreQuery | mcp_server/server/memory.py:16-38 | an empty session id changes nothing; otherwise the query becomes the session's newest entry and the session is touched at now |
| Memory.SessionStore.CleanupExpiredSessions | mcp_server/server/memory.py:99-112 | both dictionaries lose exactly the expired sessions |
| Memory.SessionStore.GetQueryHistory | mcp_server/server/memory.py:40-66 | an empty or unknown id answers `[]` without cleanup; otherwise cleanup runs first and the answer is the most recent queries; an expired session answers `[]` |
| Memory.SessionStore.GetFullHistory | mcp_server/server/memory.py:69-83 | the same as the query history, with whole entries and no limit |
| Memory.SessionStore.ClearSession | mcp_server/server/memory.py:86-96 | the session leaves both dictionaries; an unknown id changes nothing |

## Left out

- Message texts: an error is the datatype of values its message interpolates (`Executor.Error`, `Validation.ValidationError`), not the formatted string; `Executor.Prefix` keeps each handler's prefix.
- `str.upper` is modelled for ASCII letters only; Unicode case mapping is not.
- Ill-typed JSON values (a non-integer `n`, a non-string table name, direction or operator) are not modelled: the filters are typed.
- An explicit JSON `null` where the source expects a list or a dictionary is not modelled: `values: null` (IN then fails its "needs values" check, BETWEEN raises a TypeError from `len`), `join_columns: null` and `order_by: null` (an AttributeError from `.get`). The filters type has no null for these keys, so the model covers only an absent or a well-typed value; a null condition `column` is the same as a missing one, as in the source.
- Literal `%%` escapes of the driver: no template contains one, and names with `%` are excluded by the premise of `Executor.OutcomeBinds`.
- Executor.OutcomeBinds: holds only for `%`-free table names, condition and ORDER BY columns and catalogue columns, because table names are interpolated into the SQL without validation.
- Connection failure inside `get_connection()`, and the separate connection `validate_columns` opens for each lookup: the catalogue is a value, and "the catalogue query raised" is its `unreachable` flag.
- The watchdog thread and `thread.join(timeout=30)`: whether the worker missed the deadline is the `timedOut` parameter of `Executor.ExecuteAction`; the worker is modelled as running to completion. Concurrency is not modelled.
- Python's set-intersection order for the appended query's columns: `Executor.CommonColumns` fixes table1's column order; only membership and uniqueness are what the source guarantees.
- Executor.ExecuteAction: the in-place rewrite of the joined condition's column is returned as the new filters value instead of mutating a shared dictionary.
- Memory.SessionStore.GetFullHistory: returns the stored entries as a value; the aliasing of the returned list with the stored one is not modelled.
- The clock: each memory operation takes one `now`; where the source calls `datetime.now()` twice (storing a query, then cleaning up on read), the two readings are taken to be the same.
- A `None` session id is modelled as the empty string, the other falsy id.
- Row contents: rows are an opaque type; the row count of a summary is read through the `rowCountOf` parameter.
- The NLP intent layer, the MCP tool wrappers and the Streamlit client are not part of this model.
