/**
 * Action dispatch (mcp_server/server/db_layer/executor.py).
 *
 * `execute_action(action, filters)` opens a connection, validates the
 * filters, fills the action's template, executes it and shapes the rows or
 * the error into the response. Here the SQL text and parameter list of each
 * action are planned by pure functions, `Outcome` states what a request
 * answers and which statements it executes, and `ExecuteAction` runs a plan
 * over a `Connection` and is proved to match `Outcome`.
 *
 * The database is a parameter: a function from a statement to its rows or
 * to the message it raises. The catalogue is the `Validation.Catalog`.
 */
module Executor {
  import opened Wrappers
  import opened Text
  import opened Validation
  import opened QueryBuilder

  /** The watchdog's deadline, in seconds (`QUERY_TIMEOUT` of connection.py). */
  const QUERY_TIMEOUT: nat := 30

  // ---------------------------------------------------------------- requests

  /**
   * A key of the filters dictionary: absent, present but falsy (`null`, or
   * the empty dictionary for a condition), or present with a value.
   */
  datatype Key<+T> = Absent | Null | Given(value: T)

  /** The `filters` dictionary, one field per key the executor reads; `None` is an absent key. */
  datatype Filters<V> = Filters(
    tableName: Option<string>,
    table1: Option<string>,
    table2: Option<string>,
    n: Option<int>,
    columns: seq<string>,
    condition: Key<Condition<V>>,
    column: Option<string>,
    value: Key<V>,
    orderBy: Option<OrderBy>,
    joinColumns: Option<JoinColumns>,
    joinType: Option<string>,
    categoricalColumn: Option<string>,
    quantitativeColumn: Option<string>)

  // ---------------------------------------------------------------- statements and results

  /** A bound parameter: a condition value, the LIMIT, or the table name of the catalogue query. */
  datatype Param<V> = Bound(value: V) | Limit(n: int) | Name(name: string)

  /** One `cur.execute(sql, params)`. */
  datatype Statement<V> = Statement(sql: string, params: seq<Param<V>>)

  /** What the database does with a statement: return rows, or raise with a message. */
  datatype DbOutcome<R> = Fetched(rows: seq<R>) | Raised(message: string)

  /** Condition values, in order, as bound parameters. */
  function Bind<V>(values: seq<V>): (params: seq<Param<V>>)
    ensures |params| == |values| && forall i :: 0 <= i < |values| ==> params[i] == Bound(values[i])
  {
    seq(|values|, i requires 0 <= i < |values| => Bound(values[i]))
  }

  /** What an exception other than a validator's ValueError was about. */
  datatype Cause =
    | NoColumnName                  // TypeError: `"." in None`
    | KeyMissing(key: string)       // KeyError on `filters[key]`
    | DatabaseError(message: string)
    | NoCountRow                    // `fetchone()` gave no row
    | CatalogueUnavailable          // the catalogue query raised
    | TimedOut(seconds: nat)

  /** Which handler caught it, naming the prefix of the message. */
  datatype Stage =
    | ParsingCondition | ParsingOrderBy
    | ExecutingQuery | ExecutingJoinedQuery | ExecutingAppendedQuery
    | SummarizingColumn | AnalyzingRelationship | GettingTableSummary
    | QueryTimeout | Unexpected

  /** The text that starts each handler's message. */
  function Prefix(stage: Stage): string
  {
    match stage
    case ParsingCondition => "Error parsing condition: "
    case ParsingOrderBy => "Error parsing order by: "
    case ExecutingQuery => "Error executing query: "
    case ExecutingJoinedQuery => "Error executing joined query: "
    case ExecutingAppendedQuery => "Error executing appended query: "
    case SummarizingColumn => "Error summarizing column: "
    case AnalyzingRelationship => "Error analyzing relationship: "
    case GettingTableSummary => "Error getting table summary: "
    case QueryTimeout => "Query timeout: "
    case Unexpected => "Unexpected error: "
  }

  /** The message of an `{"error": ...}` result, as the values it interpolates. */
  datatype Error =
    | Rejected(reason: ValidationError)
    | NotInCommonColumns(orderColumn: Option<string>, table1: string, table2: string, common: seq<string>)
    | NoCommonColumns(table1: string, table2: string)
    | ColumnNotInTable(column: string, table: string, available: seq<string>)
    | CategoricalNotInTable(column: string, table: string, available: seq<string>)
    | QuantitativeNotInTable(column: string, table: string, available: seq<string>)
    | Failed(stage: Stage, cause: Cause)

  /** A validator's exception as the handler around it reports it. */
  function FaultError(fault: Fault, stage: Stage): Error
  {
    match fault
    case Invalid(e) => Rejected(e)
    case MissingColumnName => Failed(stage, NoColumnName)
  }

  /** The `visualization` dictionary of the chart actions. */
  datatype Chart<R> =
    | BarChart(title: string, valueField: string, countField: string, data: seq<R>)
    | Histogram(title: string, categoryField: string, valueField: string, data: seq<R>)

  /** One of the single-key dictionaries of a table summary. */
  datatype SummaryEntry<R> =
    | TableNameEntry(tableName: string)
    | RowCountEntry(rowCount: int)
    | ColumnCountEntry(columnCount: nat)
    | ColumnNamesEntry(columnNames: seq<string>)
    | SampleRowsEntry(sampleRows: seq<R>)

  /** What `execute_action` returns (`None` is the unrecognised action). */
  datatype Response<R> =
    | Records(rows: seq<R>)
    | Errors(error: Error)
    | ColumnSummary(data: seq<R>, visualization: Chart<R>, tableName: string, column: string)
    | Relationship(data: seq<R>, visualization: Chart<R>, tableName: string,
                   categoricalColumn: string, quantitativeColumn: string)
    | TableSummary(entries: seq<SummaryEntry<R>>)

  /** How the rows of a planned statement become the response. */
  datatype Shape = AsRecords | AsColumnSummary(table: string, column: string)
                 | AsRelationship(table: string, categorical: string, quantitative: string)

  /** A validated request: the statement to execute, how to shape its rows, and whose handler reports a database error. */
  datatype Plan<V> = Plan(statement: Statement<V>, shape: Shape, stage: Stage)

  /** What a request answers and the statements it executed on its connection, in order. */
  datatype Run<V, R> = Run(response: Option<Response<R>>, executed: seq<Statement<V>>)

  function Shaped<R>(shape: Shape, rows: seq<R>): Response<R>
  {
    match shape
    case AsRecords => Records(rows)
    case AsColumnSummary(table, column) =>
      ColumnSummary(rows, BarChart("Distribution of " + column + " in " + table, column, "count", rows), table, column)
    case AsRelationship(table, c, q) =>
      Relationship(rows, Histogram("Sum of " + q + " by " + c + " in " + table, c, q, rows), table, c, q)
  }

  /** Executing a plan: nothing when validation failed, else its one statement. */
  function RunPlan<V, R>(plan: Result<Plan<V>, Error>, db: Statement<V> -> DbOutcome<R>): (run: Run<V, R>)
    ensures plan.Failure? ==> run == Run(Some(Errors(plan.error)), [])
    ensures plan.Success? ==> run.executed == [plan.value.statement] && run.response.Some?
  {
    match plan
    case Failure(e) => Run(Some(Errors(e)), [])
    case Success(p) =>
      var response := match db(p.statement)
        case Fetched(rows) => Shaped(p.shape, rows)
        case Raised(m) => Errors(Failed(p.stage, DatabaseError(m)));
      Run(Some(response), [p.statement])
  }

  // ---------------------------------------------------------------- shared clauses

  /** `parse_condition` on a truthy condition, as the ` WHERE ...` suffix and its values; nothing otherwise. */
  function WhereClause<V>(cat: Catalog, condition: Key<Condition<V>>, table: string): Result<(string, seq<V>), Fault>
  {
    match condition
    case Given(c) =>
      (match ParseCondition(cat, c, table)
       case Success(p) => Success((" WHERE " + p.0, p.1))
       case Failure(f) => Failure(f))
    case _ => Success(("", []))
  }

  /** An ORDER BY clause behind one space. */
  function Padded<E>(clause: Result<string, E>): Result<string, E>
  {
    match clause
    case Success(c) => Success(" " + c)
    case Failure(e) => Failure(e)
  }

  // ---------------------------------------------------------------- fetch_tables

  function FetchTablesPlan<V>(): Plan<V>
  {
    Plan(Statement(FETCH_TABLES.Text(), []), AsRecords, Unexpected)
  }

  // ---------------------------------------------------------------- fetch_n_records

  /** Whether the `column` + `value` shorthand applies. */
  predicate Shorthand<V>(f: Filters<V>)
  {
    f.condition.Absent? && f.column.Some? && !f.value.Absent?
  }

  /** The condition `fetch_n_records` applies: the explicit `condition` key, else the shorthand as an `=` condition. */
  function FetchCondition<V>(f: Filters<V>): Key<Condition<V>>
  {
    if !f.condition.Absent? then f.condition
    else if Shorthand(f) then Given(Condition(f.column, Some("="), if f.value.Given? then Some(f.value.value) else None, []))
    else Absent
  }

  /** The LIMIT of `fetch_n_records`: `n`, else 1 for the shorthand, else 5. */
  function FetchLimit<V>(f: Filters<V>): int
  {
    if Shorthand(f) && f.n.None? then 1 else f.n.GetOr(5)
  }

  /** The ORDER BY of `fetch_n_records`: none, or the validated clause behind a space. */
  function FetchOrder(cat: Catalog, table: string, orderBy: Option<OrderBy>): Result<string, Fault>
  {
    if orderBy.None? then Success("") else Padded(ValidateOrderBy(cat, table, orderBy.value))
  }

  /** The `fetch_n_records` plan from its validated parts, the condition checked before the order. */
  function FetchFrom<V>(where: Result<(string, seq<V>), Fault>, order: Result<string, Fault>, columns: string, table: string, limit: int)
    : Result<Plan<V>, Error>
  {
    if where.Failure? then Failure(FaultError(where.error, ParsingCondition))
    else if order.Failure? then Failure(FaultError(order.error, ParsingOrderBy))
    else
      var sql := Format(FETCH_N_RECORDS, [columns, table, where.value.0, order.value]);
      Success(Plan(Statement(sql, Bind(where.value.1) + [Limit(limit)]), AsRecords, ExecutingQuery))
  }

  function PlanFetchNRecords<V>(cat: Catalog, f: Filters<V>): Result<Plan<V>, Error>
  {
    if f.tableName.None? then Failure(Failed(Unexpected, KeyMissing("table_name")))
    else
      var table := f.tableName.value;
      FetchFrom(WhereClause(cat, FetchCondition(f), table), FetchOrder(cat, table, f.orderBy),
                FormatColumns(ValidColumns(cat, table, f.columns)), table, FetchLimit(f))
  }

  // ---------------------------------------------------------------- fetch_n_joined_records

  /** Every name of `columns`, qualified with `table`. */
  function Qualified(table: string, columns: seq<string>): (r: seq<string>)
    ensures |r| == |columns| && forall i :: 0 <= i < |columns| ==> r[i] == table + "." + columns[i]
  {
    seq(|columns|, i requires 0 <= i < |columns| => table + "." + columns[i])
  }

  /** The joined select list when no columns are requested: table1's columns, then table2's, each qualified. */
  function JoinSelectList(cat: Catalog, table1: string, table2: string): seq<string>
  {
    Qualified(table1, ValidColumns(cat, table1, [])) + Qualified(table2, ValidColumns(cat, table2, []))
  }

  /** The loop that builds the joined select list. */
  method BuildJoinSelectList(cat: Catalog, table1: string, table2: string) returns (all: seq<string>)
    ensures all == JoinSelectList(cat, table1, table2)
  {
    var columns1 := ValidateColumns(cat, table1, []);
    var columns2 := ValidateColumns(cat, table2, []);
    all := [];
    for i := 0 to |columns1|
      invariant all == Qualified(table1, columns1[..i])
    {
      all := all + [table1 + "." + columns1[i]];
    }
    assert columns1[..|columns1|] == columns1;
    for j := 0 to |columns2|
      invariant all == Qualified(table1, columns1) + Qualified(table2, columns2[..j])
    {
      all := all + [table2 + "." + columns2[j]];
    }
    assert columns2[..|columns2|] == columns2;
  }

  /** The condition column of a join, qualified with the first table that has it; a prefixed one is kept. */
  function QualifyConditionColumn(cat: Catalog, table1: string, table2: string, column: string): Result<string, Error>
  {
    if '.' in column then Success(column)
    else if column in ValidColumns(cat, table1, []) then Success(table1 + "." + column)
    else if column in ValidColumns(cat, table2, []) then Success(table2 + "." + column)
    else Failure(Rejected(NotInEitherTable(column, table1, table2)))
  }

  /** The joined query's condition after its column is rewritten in place. */
  function JoinCondition<V>(cat: Catalog, table1: string, table2: string, c: Condition<V>): Result<Condition<V>, Error>
  {
    match c.column
    case None => Failure(Failed(ParsingCondition, NoColumnName))
    case Some(column) =>
      match QualifyConditionColumn(cat, table1, table2, column)
      case Failure(e) => Failure(e)
      case Success(q) => Success(c.(column := Some(q)))
  }

  /** The validated join columns and join type, in the order they are checked. */
  function JoinHeader<V>(cat: Catalog, f: Filters<V>, table1: string, table2: string): Result<((string, string), string), Error>
  {
    var jc := ValidateJoinColumns(cat, table1, table2, f.joinColumns.GetOr(JoinColumns(Some("id"), Some("id"))));
    if jc.Failure? then Failure(Rejected(jc.error))
    else
      var jt := ValidateJoinType(f.joinType.GetOr("INNER"));
      if jt.Failure? then Failure(Rejected(jt.error))
      else Success((jc.value, jt.value))
  }

  /** The WHERE suffix of a joined query: qualify the column, then check it against table1. */
  function JoinedWhere<V>(cat: Catalog, f: Filters<V>, table1: string, table2: string): Result<(string, seq<V>), Error>
  {
    if !f.condition.Given? then Success(("", []))
    else
      match JoinCondition(cat, table1, table2, f.condition.value)
      case Failure(e) => Failure(e)
      case Success(c) =>
        match ParseCondition(cat, c, table1)
        case Failure(fault) => Failure(FaultError(fault, ParsingCondition))
        case Success(p) => Success((" WHERE " + p.0, p.1))
  }

  /** The ORDER BY of `fetch_n_joined_records`: none, or the clause validated against both tables behind a space. */
  function JoinedOrder(cat: Catalog, table1: string, table2: string, orderBy: Option<OrderBy>): Result<string, Fault>
  {
    if orderBy.None? then Success("") else Padded(ValidateOrderByForJoin(cat, table1, table2, orderBy.value))
  }

  /** The joined select list: every column of both tables when none is requested, else the requested ones of `table1`. */
  function JoinedSelect<V>(cat: Catalog, f: Filters<V>, table1: string, allColumns: seq<string>): string
  {
    if f.columns == [] then Join(allColumns, ", ") else FormatColumns(ValidColumns(cat, table1, f.columns))
  }

  /** The joined plan from its validated parts, the first failure in checking order winning. */
  function JoinedFrom<V>(header: Result<((string, string), string), Error>, where: Result<(string, seq<V>), Error>,
                         order: Result<string, Fault>, select: string, table1: string, table2: string, n: Option<int>)
    : Result<Plan<V>, Error>
  {
    if header.Failure? then Failure(header.error)
    else if where.Failure? then Failure(where.error)
    else if order.Failure? then Failure(FaultError(order.error, ParsingOrderBy))
    else
      var ((column1, column2), joinType) := header.value;
      var on := FormatJoinCondition(table1, table2, column1, column2);
      var sql := Format(FETCH_N_JOINED_RECORDS, [select, table1, joinType, table2, on, where.value.0, order.value]);
      Success(Plan(Statement(sql, Bind(where.value.1) + [Limit(n.GetOr(5))]), AsRecords, ExecutingJoinedQuery))
  }

  /** `fetch_n_joined_records`, given the select list built for the no-columns case. */
  function PlanJoinedWith<V>(cat: Catalog, f: Filters<V>, allColumns: seq<string>): Result<Plan<V>, Error>
  {
    if f.table1.None? then Failure(Failed(Unexpected, KeyMissing("table1")))
    else if f.table2.None? then Failure(Failed(Unexpected, KeyMissing("table2")))
    else
      var table1, table2 := f.table1.value, f.table2.value;
      JoinedFrom(JoinHeader(cat, f, table1, table2), JoinedWhere(cat, f, table1, table2), JoinedOrder(cat, table1, table2, f.orderBy),
                 JoinedSelect(cat, f, table1, allColumns), table1, table2, f.n)
  }

  function PlanJoined<V>(cat: Catalog, f: Filters<V>): Result<Plan<V>, Error>
  {
    PlanJoinedWith(cat, f, if f.table1.Some? && f.table2.Some? then JoinSelectList(cat, f.table1.value, f.table2.value) else [])
  }

  /** The filters as the caller sees them afterwards: the joined query rewrites its condition's column in place. */
  function JoinedFiltersAfter<V>(cat: Catalog, f: Filters<V>): Filters<V>
  {
    if f.table1.None? || f.table2.None? || !f.condition.Given? then f
    else if JoinHeader(cat, f, f.table1.value, f.table2.value).Failure? then f
    else
      match JoinCondition(cat, f.table1.value, f.table2.value, f.condition.value)
      case Success(c) => f.(condition := Given(c))
      case Failure(_) => f
  }

  // ---------------------------------------------------------------- fetch_n_appended_records

  predicate NoDuplicates(s: seq<string>)
  {
    forall i, j :: 0 <= i < j < |s| ==> s[i] != s[j]
  }

  /** `list(set(a) & set(b))`, listed in the order of `a`: the names in both, each once. */
  function CommonColumns(a: seq<string>, b: seq<string>): (common: seq<string>)
    ensures forall x :: x in common <==> x in a && x in b
    ensures NoDuplicates(common)
    ensures common == [] <==> forall x :: x in a ==> x !in b
  {
    if a == [] then []
    else
      var front, last := a[..|a| - 1], a[|a| - 1];
      assert a == front + [last];
      var c := CommonColumns(front, b);
      if last in b && last !in c then c + [last] else c
  }

  /** The inline ORDER BY check of `fetch_n_appended_records`: the column must be common to both tables. */
  function AppendedOrder(ob: OrderBy, table1: string, table2: string, common: seq<string>): Result<string, Error>
  {
    var direction := Direction(ob);
    if ob.column.None? || ob.column.value !in common then Failure(NotInCommonColumns(ob.column, table1, table2, common))
    else if direction !in DIRECTIONS then Failure(Rejected(InvalidDirection(direction)))
    else Success(" ORDER BY " + ob.column.value + " " + direction)
  }

  /** The appended plan from its validated parts: the condition, then the order, then the shared columns. */
  function AppendedFrom<V>(where: Result<(string, seq<V>), Fault>, common: seq<string>, order: Result<string, Error>,
                           table1: string, table2: string, n: Option<int>)
    : Result<Plan<V>, Error>
  {
    if where.Failure? then Failure(FaultError(where.error, ParsingCondition))
    else if order.Failure? then Failure(order.error)
    else if common == [] then Failure(NoCommonColumns(table1, table2))
    else
      var columns := Join(common, ", ");
      var clause := where.value.0;
      var sql := Format(FETCH_N_APPENDED_RECORDS, [columns, table1, clause, columns, table2, clause, order.value]);
      var params := Bind(where.value.1);
      Success(Plan(Statement(sql, params + params + [Limit(n.GetOr(5))]), AsRecords, ExecutingAppendedQuery))
  }

  /** The ORDER BY of the appended query: none, or a column both tables share. */
  function AppendedOrderClause(orderBy: Option<OrderBy>, table1: string, table2: string, common: seq<string>): Result<string, Error>
  {
    if orderBy.None? then Success("") else AppendedOrder(orderBy.value, table1, table2, common)
  }

  function PlanAppended<V>(cat: Catalog, f: Filters<V>): Result<Plan<V>, Error>
  {
    if f.table1.None? then Failure(Failed(Unexpected, KeyMissing("table1")))
    else if f.table2.None? then Failure(Failed(Unexpected, KeyMissing("table2")))
    else
      var table1, table2 := f.table1.value, f.table2.value;
      var common := CommonColumns(ValidColumns(cat, table1, []), ValidColumns(cat, table2, []));
      AppendedFrom(WhereClause(cat, f.condition, table1), common, AppendedOrderClause(f.orderBy, table1, table2, common), table1, table2, f.n)
  }

  // ---------------------------------------------------------------- summarize_column, analyze_relationship

  function PlanSummarize<V>(cat: Catalog, f: Filters<V>): Result<Plan<V>, Error>
  {
    if f.tableName.None? then Failure(Failed(Unexpected, KeyMissing("table_name")))
    else if f.column.None? then Failure(Failed(Unexpected, KeyMissing("column")))
    else
      var table, column := f.tableName.value, f.column.value;
      var validated := ValidColumns(cat, table, [column]);
      if column !in validated then Failure(ColumnNotInTable(column, table, validated))
      else
        var sql := Format(SUMMARIZE_COLUMN, [column, table, column]);
        Success(Plan(Statement(sql, []), AsColumnSummary(table, column), SummarizingColumn))
  }

  function PlanAnalyze<V>(cat: Catalog, f: Filters<V>): Result<Plan<V>, Error>
  {
    if f.tableName.None? then Failure(Failed(Unexpected, KeyMissing("table_name")))
    else if f.categoricalColumn.None? then Failure(Failed(Unexpected, KeyMissing("categorical_column")))
    else if f.quantitativeColumn.None? then Failure(Failed(Unexpected, KeyMissing("quantitative_column")))
    else
      var table, c, q := f.tableName.value, f.categoricalColumn.value, f.quantitativeColumn.value;
      var validated := ValidColumns(cat, table, [c, q]);
      if c !in validated then Failure(CategoricalNotInTable(c, table, validated))
      else if q !in validated then Failure(QuantitativeNotInTable(q, table, validated))
      else
        var sql := Format(ANALYZE_RELATIONSHIP, [c, c, q, q, table, c, q]);
        Success(Plan(Statement(sql, []), AsRelationship(table, c, q), AnalyzingRelationship))
  }

  // ---------------------------------------------------------------- get_table_summary

  /** The indentation of the triple-quoted catalogue query. */
  const INDENT: string := "                        "

  /** The lines of the catalogue query of `get_table_summary`; its one `%s` receives the table name. */
  const SELECT_LINE: string := "\n" + INDENT + "SELECT column_name, data_type "
  const FROM_LINE: string := "\n" + INDENT + "FROM information_schema.columns "
  const WHERE_LINE: string := "\n" + INDENT + "WHERE table_schema = '" + SCHEMA + "'" + " AND table_name ="
  const ORDER_LINE: string := "\n" + INDENT + "ORDER BY ordinal_position;"

  /** The catalogue query up to its `%s`, and after it. */
  const COLUMN_SQL_HEAD: string := SELECT_LINE + FROM_LINE + WHERE_LINE
  const COLUMN_SQL_TAIL: string := ORDER_LINE + "\n" + INDENT

  const COLUMN_SQL: string := COLUMN_SQL_HEAD + " %s" + COLUMN_SQL_TAIL

  /** The sample query: the first three rows. */
  function SampleSql(table: string): string
  {
    "SELECT *" + FROM_SCHEMA + table + " LIMIT 3;"
  }

  function CountStatement<V>(table: string): Statement<V>
  {
    Statement(Format(GET_TABLE_SUMMARY, [table]), [])
  }

  /**
   * `get_table_summary`: the row count, the catalogue columns, then three
   * sample rows; the first failure ends the request.
   */
  function SummaryRun<V, R>(cat: Catalog, f: Filters<V>, db: Statement<V> -> DbOutcome<R>, rowCountOf: R -> int): Run<V, R>
  {
    if f.tableName.None? then Run(Some(Errors(Failed(Unexpected, KeyMissing("table_name")))), [])
    else
      var table := f.tableName.value;
      var count := CountStatement(table);
      match db(count)
      case Raised(m) => Run(Some(Errors(Failed(GettingTableSummary, DatabaseError(m)))), [count])
      case Fetched(rows) =>
        if rows == [] then Run(Some(Errors(Failed(GettingTableSummary, NoCountRow))), [count])
        else
          var columnQuery := Statement(COLUMN_SQL, [Name(table)]);
          if cat.unreachable then Run(Some(Errors(Failed(GettingTableSummary, CatalogueUnavailable))), [count, columnQuery])
          else
            var names := cat.Available(table);
            var sample := Statement(SampleSql(table), []);
            match db(sample)
            case Raised(m) => Run(Some(Errors(Failed(GettingTableSummary, DatabaseError(m)))), [count, columnQuery, sample])
            case Fetched(sampleRows) =>
              var entries := [TableNameEntry(table), RowCountEntry(rowCountOf(rows[0])), ColumnCountEntry(|names|),
                              ColumnNamesEntry(names), SampleRowsEntry(sampleRows)];
              Run(Some(TableSummary(entries)), [count, columnQuery, sample])
  }

  // ---------------------------------------------------------------- dispatch

  /** What `_execute_query` answers for a request, and the statements it executes. */
  function Outcome<V, R>(action: string, f: Filters<V>, cat: Catalog, db: Statement<V> -> DbOutcome<R>, rowCountOf: R -> int)
    : Run<V, R>
  {
    if action == "fetch_tables" then RunPlan(Success(FetchTablesPlan()), db)
    else if action == "fetch_n_records" then RunPlan(PlanFetchNRecords(cat, f), db)
    else if action == "fetch_n_joined_records" then RunPlan(PlanJoined(cat, f), db)
    else if action == "fetch_n_appended_records" then RunPlan(PlanAppended(cat, f), db)
    else if action == "summarize_column" then RunPlan(PlanSummarize(cat, f), db)
    else if action == "analyze_relationship" then RunPlan(PlanAnalyze(cat, f), db)
    else if action == "get_table_summary" then SummaryRun(cat, f, db, rowCountOf)
    else Run(None, [])
  }

  /** The filters after the request: only the joined query changes them. */
  function FiltersAfter<V>(action: string, f: Filters<V>, cat: Catalog): Filters<V>
  {
    if action == "fetch_n_joined_records" then JoinedFiltersAfter(cat, f) else f
  }

  /** The response of a request whose worker missed the deadline. */
  function TimeoutResponse<R>(): Response<R>
  {
    Errors(Failed(QueryTimeout, TimedOut(QUERY_TIMEOUT)))
  }

  /** A database connection: whether it is open, and the statements executed on it. */
  class Connection<V> {
    var open: bool
    var executed: seq<Statement<V>>

    /** `get_connection()`. */
    constructor ()
      ensures open && executed == []
    {
      open := true;
      executed := [];
    }

    /** `cur.execute(statement)` followed by fetching its rows. */
    method Execute<R>(s: Statement<V>, db: Statement<V> -> DbOutcome<R>) returns (outcome: DbOutcome<R>)
      requires open
      modifies this
      ensures open && executed == old(executed) + [s]
      ensures outcome == db(s)
    {
      executed := executed + [s];
      outcome := db(s);
    }

    /** `conn.close()`. */
    method Close()
      modifies this
      ensures !open && executed == old(executed)
    {
      open := false;
    }
  }

  /** Execute a validated plan on the connection and shape its rows, or report the validation error. */
  method RunPlanOn<V, R>(conn: Connection<V>, plan: Result<Plan<V>, Error>, db: Statement<V> -> DbOutcome<R>)
    returns (response: Response<R>)
    requires conn.open
    modifies conn
    ensures conn.open
    ensures conn.executed == old(conn.executed) + RunPlan(plan, db).executed
    ensures Some(response) == RunPlan(plan, db).response
  {
    if plan.Failure? {
      return Errors(plan.error);
    }
    var p := plan.value;
    var outcome := conn.Execute(p.statement, db);
    match outcome
    case Fetched(rows) => response := Shaped(p.shape, rows);
    case Raised(m) => response := Errors(Failed(p.stage, DatabaseError(m)));
  }

  /** The three statements of `get_table_summary`, stopping at the first failure. */
  method RunSummaryOn<V, R>(conn: Connection<V>, cat: Catalog, f: Filters<V>, db: Statement<V> -> DbOutcome<R>, rowCountOf: R -> int)
    returns (response: Response<R>)
    requires conn.open
    modifies conn
    ensures conn.open
    ensures conn.executed == old(conn.executed) + SummaryRun(cat, f, db, rowCountOf).executed
    ensures Some(response) == SummaryRun(cat, f, db, rowCountOf).response
  {
    if f.tableName.None? {
      return Errors(Failed(Unexpected, KeyMissing("table_name")));
    }
    var table := f.tableName.value;
    var counted := conn.Execute(CountStatement(table), db);
    if counted.Raised? {
      return Errors(Failed(GettingTableSummary, DatabaseError(counted.message)));
    }
    if counted.rows == [] {
      return Errors(Failed(GettingTableSummary, NoCountRow));
    }
    var rowCount := rowCountOf(counted.rows[0]);
    var _ := conn.Execute(Statement(COLUMN_SQL, [Name(table)]), db);
    if cat.unreachable {
      return Errors(Failed(GettingTableSummary, CatalogueUnavailable));
    }
    var names := cat.Available(table);
    var sampled := conn.Execute(Statement(SampleSql(table), []), db);
    if sampled.Raised? {
      return Errors(Failed(GettingTableSummary, DatabaseError(sampled.message)));
    }
    response := TableSummary([TableNameEntry(table), RowCountEntry(rowCount), ColumnCountEntry(|names|),
                              ColumnNamesEntry(names), SampleRowsEntry(sampled.rows)]);
  }

  /**
   * `execute_action`: open a connection, run the action, close the
   * connection on every path. A worker that missed the deadline still ran
   * to completion, but its answer is replaced by the timeout error.
   */
  method ExecuteAction<V, R>(action: string, filters: Filters<V>, cat: Catalog,
                             db: Statement<V> -> DbOutcome<R>, rowCountOf: R -> int, timedOut: bool)
    returns (result: Option<Response<R>>, after: Filters<V>, conn: Connection<V>)
    ensures fresh(conn) && !conn.open
    ensures conn.executed == Outcome(action, filters, cat, db, rowCountOf).executed
    ensures result == if timedOut then Some(TimeoutResponse()) else Outcome(action, filters, cat, db, rowCountOf).response
    ensures after == FiltersAfter(action, filters, cat)
  {
    conn := new Connection();
    after := filters;
    var response: Option<Response<R>> := None;
    if action == "fetch_tables" {
      var r := RunPlanOn(conn, Success(FetchTablesPlan()), db);
      response := Some(r);
    } else if action == "fetch_n_records" {
      var r := RunPlanOn(conn, PlanFetchNRecords(cat, filters), db);
      response := Some(r);
    } else if action == "fetch_n_joined_records" {
      var allColumns := [];
      if filters.table1.Some? && filters.table2.Some? {
        allColumns := BuildJoinSelectList(cat, filters.table1.value, filters.table2.value);
      }
      var r := RunPlanOn(conn, PlanJoinedWith(cat, filters, allColumns), db);
      response := Some(r);
      after := JoinedFiltersAfter(cat, filters);
    } else if action == "fetch_n_appended_records" {
      var r := RunPlanOn(conn, PlanAppended(cat, filters), db);
      response := Some(r);
    } else if action == "summarize_column" {
      var r := RunPlanOn(conn, PlanSummarize(cat, filters), db);
      response := Some(r);
    } else if action == "analyze_relationship" {
      var r := RunPlanOn(conn, PlanAnalyze(cat, filters), db);
      response := Some(r);
    } else if action == "get_table_summary" {
      var r := RunSummaryOn(conn, cat, filters, db, rowCountOf);
      response := Some(r);
    }
    conn.Close();
    result := if timedOut then Some(TimeoutResponse()) else response;
  }

  // ---------------------------------------------------------------- parameter binding

  /** Text that cannot contribute to a `%s` placeholder. */
  predicate PercentFree(s: string)
  {
    '%' !in s
  }

  /** Every column name the catalogue lists is free of `%`. */
  predicate CatalogPercentFree(cat: Catalog)
  {
    forall t, c :: t in cat.tables && c in cat.tables[t] ==> PercentFree(c)
  }

  /**
   * The names a request interpolates without finding them in the
   * catalogue (table names, and the condition and ORDER BY columns, whose
   * prefix is never checked) are free of `%`.
   */
  predicate FiltersPercentFree<V>(f: Filters<V>)
  {
    && (f.tableName.Some? ==> PercentFree(f.tableName.value))
    && (f.table1.Some? ==> PercentFree(f.table1.value))
    && (f.table2.Some? ==> PercentFree(f.table2.value))
    && (f.column.Some? ==> PercentFree(f.column.value))
    && (f.condition.Given? && f.condition.value.column.Some? ==> PercentFree(f.condition.value.column.value))
    && (f.orderBy.Some? && f.orderBy.value.column.Some? ==> PercentFree(f.orderBy.value.column.value))
  }

  /** The driver's contract: a statement carries one parameter per `%s` of its text. */
  predicate Binds<V>(s: Statement<V>)
  {
    Placeholders(s.sql) == |s.params|
  }

  lemma PercentFreeText(s: string)
    requires PercentFree(s)
    ensures Placeholders(s) == 0 && NoTrailingPercent(s)
  {
    NoFirstNoPairs(s, '%', 's');
    if s != [] {
      assert s[|s| - 1] in s;
    }
  }

  /** Arguments free of `%`, except perhaps the one at `k`, hold the placeholders of that one. */
  lemma {:induction false} SumPlaceholdersFreeExcept(args: seq<string>, k: int)
    requires forall i :: 0 <= i < |args| && i != k ==> PercentFree(args[i])
    ensures SumPlaceholders(args) == if 0 <= k < |args| then Placeholders(args[k]) else 0
  {
    if args != [] {
      SumPlaceholdersFreeExcept(args[1..], k - 1);
      if k != 0 {
        PercentFreeText(args[0]);
      }
    }
  }

  lemma ValidColumnsPercentFree(cat: Catalog, table: string, requested: seq<string>)
    requires CatalogPercentFree(cat)
    ensures forall i :: 0 <= i < |ValidColumns(cat, table, requested)| ==> PercentFree(ValidColumns(cat, table, requested)[i])
    ensures forall c :: c in ValidColumns(cat, table, requested) ==> PercentFree(c)
  {
    var r := ValidColumns(cat, table, requested);
    forall i | 0 <= i < |r|
      ensures PercentFree(r[i])
    {
      assert r[i] in r;
    }
  }

  lemma ColumnListPercentFree(columns: seq<string>)
    requires forall i :: 0 <= i < |columns| ==> PercentFree(columns[i])
    ensures PercentFree(FormatColumns(columns)) && PercentFree(Join(columns, ", "))
  {
    JoinAvoids(columns, ", ", '%');
  }

  /** The operator part of a clause never ends in `%`. */
  lemma PredicateEnd(op: string, count: nat)
    requires op in OPERATORS
    ensures var p := Predicate(op, count); |p| > 0 && p[|p| - 1] != '%'
  {
    if op == "BETWEEN" {
      var p := " BETWEEN %s" + " AND %s";
      assert p[|p| - 1] == 's';
    }
  }

  /** A WHERE suffix holds one placeholder per value it binds and does not end in `%`. */
  lemma WhereBinds<V>(cat: Catalog, cond: Condition<V>, table: string)
    requires ParseCondition(cat, cond, table).Success?
    requires PercentFree(cond.column.value)
    ensures var (clause, params) := ParseCondition(cat, cond, table).value;
      Placeholders(" WHERE " + clause) == |params| && NoTrailingPercent(" WHERE " + clause)
  {
    var (clause, params) := ParseCondition(cat, cond, table).value;
    var column := cond.column.value;
    var p := Predicate(cond.Operator(), |cond.values|);
    ParseConditionPlaceholders(cat, cond, table);
    PercentFreeText(column);
    PredicateEnd(cond.Operator(), |cond.values|);
    assert clause == column + p;
    assert clause[|clause| - 1] == p[|p| - 1];
    PercentFreeText(" WHERE ");
    PairsConcat(" WHERE ", clause, '%', 's');
    assert (" WHERE " + clause)[|" WHERE " + clause| - 1] == clause[|clause| - 1];
  }

  lemma WhereClauseBinds<V>(cat: Catalog, condition: Key<Condition<V>>, table: string)
    requires WhereClause(cat, condition, table).Success?
    requires condition.Given? && condition.value.column.Some? ==> PercentFree(condition.value.column.value)
    ensures var (clause, values) := WhereClause(cat, condition, table).value;
      Placeholders(clause) == |values| && NoTrailingPercent(clause)
  {
    if condition.Given? {
      WhereBinds(cat, condition.value, table);
    }
  }

  lemma DirectionPercentFree(ob: OrderBy)
    requires Direction(ob) in DIRECTIONS
    ensures PercentFree(" " + Direction(ob))
  {
  }

  /** Filling an inert template gives its own placeholder (its LIMIT, if any) plus those of the arguments. */
  lemma FormatBinds(t: Template, args: seq<string>)
    requires PiecesInert(t) && |t.pieces| == |args| + 1
    requires forall i :: 0 <= i < |args| ==> NoTrailingPercent(args[i])
    ensures Placeholders(Format(t, args)) == (if t.pieces[|t.pieces| - 1] == LIMIT then 1 else 0) + SumPlaceholders(args)
  {
    InertShape(t);
    FormatPlaceholders(t, args);
  }

  /** The same, when every argument but perhaps the one at `k` is free of `%`. */
  lemma FormatBindsExcept(t: Template, args: seq<string>, k: int)
    requires PiecesInert(t) && |t.pieces| == |args| + 1
    requires forall i :: 0 <= i < |args| && i != k ==> PercentFree(args[i])
    requires 0 <= k < |args| ==> NoTrailingPercent(args[k])
    ensures Placeholders(Format(t, args))
         == (if t.pieces[|t.pieces| - 1] == LIMIT then 1 else 0) + (if 0 <= k < |args| then Placeholders(args[k]) else 0)
  {
    SumPlaceholdersFreeExcept(args, k);
    forall i | 0 <= i < |args|
      ensures NoTrailingPercent(args[i])
    {
      if i != k {
        PercentFreeText(args[i]);
      }
    }
    FormatBinds(t, args);
  }

  /** The text of `fetch_n_records`: one placeholder per condition value, and one for the LIMIT. */
  lemma FetchTextBinds(columns: string, table: string, clause: string, order: string)
    requires PercentFree(columns) && PercentFree(table) && NoTrailingPercent(clause) && PercentFree(order)
    ensures Placeholders(Format(FETCH_N_RECORDS, [columns, table, clause, order])) == Placeholders(clause) + 1
  {
    FetchNRecordsInert();
    FormatBindsExcept(FETCH_N_RECORDS, [columns, table, clause, order], 2);
  }

  /** A `fetch_n_records` plan is built from a valid condition and a valid order. */
  lemma FetchNRecordsPlan<V>(cat: Catalog, f: Filters<V>)
    requires PlanFetchNRecords(cat, f).Success?
    ensures f.tableName.Some?
    ensures var table := f.tableName.value;
      var where := WhereClause(cat, FetchCondition(f), table);
      var order := FetchOrder(cat, table, f.orderBy);
      && where.Success? && order.Success?
      && PlanFetchNRecords(cat, f).value.statement
         == Statement(Format(FETCH_N_RECORDS, [FormatColumns(ValidColumns(cat, table, f.columns)), table, where.value.0, order.value]),
                      Bind(where.value.1) + [Limit(FetchLimit(f))])
  {
  }

  /** The `fetch_n_records` statement built from a valid condition and order binds. */
  lemma FetchPiecesBinds<V>(cat: Catalog, f: Filters<V>, table: string)
    requires CatalogPercentFree(cat) && FiltersPercentFree(f) && f.tableName == Some(table)
    requires WhereClause(cat, FetchCondition(f), table).Success? && FetchOrder(cat, table, f.orderBy).Success?
    ensures var where := WhereClause(cat, FetchCondition(f), table).value;
      Binds(Statement(Format(FETCH_N_RECORDS, [FormatColumns(ValidColumns(cat, table, f.columns)), table, where.0, FetchOrder(cat, table, f.orderBy).value]),
                      Bind(where.1) + [Limit(FetchLimit(f))]))
  {
    var where := WhereClause(cat, FetchCondition(f), table);
    WhereClauseBinds(cat, FetchCondition(f), table);
    if f.orderBy.Some? {
      DirectionPercentFree(f.orderBy.value);
    }
    ValidColumnsPercentFree(cat, table, f.columns);
    ColumnListPercentFree(ValidColumns(cat, table, f.columns));
    FetchTextBinds(FormatColumns(ValidColumns(cat, table, f.columns)), table, where.value.0, FetchOrder(cat, table, f.orderBy).value);
  }

  lemma FetchNRecordsBinds<V>(cat: Catalog, f: Filters<V>)
    requires CatalogPercentFree(cat) && FiltersPercentFree(f)
    requires PlanFetchNRecords(cat, f).Success?
    ensures Binds(PlanFetchNRecords(cat, f).value.statement)
  {
    FetchNRecordsPlan(cat, f);
    FetchPiecesBinds(cat, f, f.tableName.value);
  }

  lemma JoinedWhereBinds<V>(cat: Catalog, f: Filters<V>, table1: string, table2: string)
    requires FiltersPercentFree(f) && PercentFree(table1) && PercentFree(table2)
    requires JoinedWhere(cat, f, table1, table2).Success?
    ensures var (clause, values) := JoinedWhere(cat, f, table1, table2).value;
      Placeholders(clause) == |values| && NoTrailingPercent(clause)
  {
    if f.condition.Given? {
      var c := JoinCondition(cat, table1, table2, f.condition.value).value;
      assert PercentFree(c.column.value);
      WhereBinds(cat, c, table1);
    }
  }

  lemma JoinOrderPercentFree(cat: Catalog, table1: string, table2: string, ob: OrderBy)
    requires PercentFree(table1) && PercentFree(table2)
    requires ob.column.Some? ==> PercentFree(ob.column.value)
    requires ValidateOrderByForJoin(cat, table1, table2, ob).Success?
    ensures PercentFree(" " + ValidateOrderByForJoin(cat, table1, table2, ob).value)
  {
    var resolved := ResolveJoinOrderColumn(cat, table1, table2, ob.column.value);
    assert PercentFree(resolved.value);
    DirectionPercentFree(ob);
  }

  lemma JoinHeaderPercentFree<V>(cat: Catalog, f: Filters<V>, table1: string, table2: string)
    requires CatalogPercentFree(cat) && PercentFree(table1) && PercentFree(table2)
    requires JoinHeader(cat, f, table1, table2).Success?
    ensures var ((column1, column2), joinType) := JoinHeader(cat, f, table1, table2).value;
      PercentFree(joinType) && PercentFree(FormatJoinCondition(table1, table2, column1, column2))
  {
    var jc := ValidateJoinColumns(cat, table1, table2, f.joinColumns.GetOr(JoinColumns(Some("id"), Some("id"))));
    var jt := ValidateJoinType(f.joinType.GetOr("INNER"));
    assert JoinHeader(cat, f, table1, table2).value == (jc.value, jt.value);
    var (column1, column2) := jc.value;
    ValidColumnsPercentFree(cat, table1, []);
    ValidColumnsPercentFree(cat, table2, []);
    JoinConditionPercentFree(table1, table2, column1, column2);
    JoinTypePercentFree(jt.value);
  }

  lemma JoinConditionPercentFree(table1: string, table2: string, column1: string, column2: string)
    requires PercentFree(table1) && PercentFree(table2) && PercentFree(column1) && PercentFree(column2)
    ensures PercentFree(FormatJoinCondition(table1, table2, column1, column2))
  {
    assert PercentFree(".") && PercentFree(" = ");
  }

  lemma JoinTypePercentFree(joinType: string)
    requires joinType in JOIN_TYPES
    ensures PercentFree(joinType)
  {
  }

  /** The text of a joined query binds the WHERE suffix's values and its LIMIT. */
  lemma JoinedTextBinds(select: string, table1: string, joinType: string, table2: string, on: string, where: string, order: string)
    requires PercentFree(select) && PercentFree(table1) && PercentFree(joinType) && PercentFree(table2)
    requires PercentFree(on) && NoTrailingPercent(where) && PercentFree(order)
    ensures Placeholders(Format(FETCH_N_JOINED_RECORDS, [select, table1, joinType, table2, on, where, order]))
         == Placeholders(where) + 1
  {
    FetchNJoinedRecordsInert();
    FormatBindsExcept(FETCH_N_JOINED_RECORDS, [select, table1, joinType, table2, on, where, order], 5);
  }

  /** A joined plan is built from a valid header, condition and order. */
  lemma JoinedPlan<V>(cat: Catalog, f: Filters<V>, allColumns: seq<string>)
    requires PlanJoinedWith(cat, f, allColumns).Success?
    ensures f.table1.Some? && f.table2.Some?
    ensures var table1, table2 := f.table1.value, f.table2.value;
      var header := JoinHeader(cat, f, table1, table2);
      var where := JoinedWhere(cat, f, table1, table2);
      var order := JoinedOrder(cat, table1, table2, f.orderBy);
      && header.Success? && where.Success? && order.Success?
      && PlanJoinedWith(cat, f, allColumns).value.statement
         == Statement(Format(FETCH_N_JOINED_RECORDS,
                        [JoinedSelect(cat, f, table1, allColumns), table1, header.value.1, table2,
                         FormatJoinCondition(table1, table2, header.value.0.0, header.value.0.1), where.value.0, order.value]),
                      Bind(where.value.1) + [Limit(f.n.GetOr(5))])
  {
  }

  /** The joined statement built from a valid header, condition and order binds. */
  lemma JoinedPiecesBinds<V>(cat: Catalog, f: Filters<V>, allColumns: seq<string>, table1: string, table2: string)
    requires CatalogPercentFree(cat) && FiltersPercentFree(f)
    requires forall i :: 0 <= i < |allColumns| ==> PercentFree(allColumns[i])
    requires f.table1 == Some(table1) && f.table2 == Some(table2)
    requires JoinHeader(cat, f, table1, table2).Success? && JoinedWhere(cat, f, table1, table2).Success?
    requires JoinedOrder(cat, table1, table2, f.orderBy).Success?
    ensures var header := JoinHeader(cat, f, table1, table2).value;
      var where := JoinedWhere(cat, f, table1, table2).value;
      Binds(Statement(Format(FETCH_N_JOINED_RECORDS,
                        [JoinedSelect(cat, f, table1, allColumns), table1, header.1, table2,
                         FormatJoinCondition(table1, table2, header.0.0, header.0.1), where.0,
                         JoinedOrder(cat, table1, table2, f.orderBy).value]),
                      Bind(where.1) + [Limit(f.n.GetOr(5))]))
  {
    var header := JoinHeader(cat, f, table1, table2);
    var ((column1, column2), joinType) := header.value;
    JoinHeaderPercentFree(cat, f, table1, table2);
    var where := JoinedWhere(cat, f, table1, table2);
    JoinedWhereBinds(cat, f, table1, table2);
    if f.orderBy.Some? {
      JoinOrderPercentFree(cat, table1, table2, f.orderBy.value);
    }
    ValidColumnsPercentFree(cat, table1, f.columns);
    ColumnListPercentFree(ValidColumns(cat, table1, f.columns));
    ColumnListPercentFree(allColumns);
    var on := FormatJoinCondition(table1, table2, column1, column2);
    JoinedTextBinds(JoinedSelect(cat, f, table1, allColumns), table1, joinType, table2, on, where.value.0,
      JoinedOrder(cat, table1, table2, f.orderBy).value);
  }

  lemma JoinedBinds<V>(cat: Catalog, f: Filters<V>, allColumns: seq<string>)
    requires CatalogPercentFree(cat) && FiltersPercentFree(f)
    requires forall i :: 0 <= i < |allColumns| ==> PercentFree(allColumns[i])
    requires PlanJoinedWith(cat, f, allColumns).Success?
    ensures Binds(PlanJoinedWith(cat, f, allColumns).value.statement)
  {
    JoinedPlan(cat, f, allColumns);
    JoinedPiecesBinds(cat, f, allColumns, f.table1.value, f.table2.value);
  }

  lemma JoinSelectListPercentFree(cat: Catalog, table1: string, table2: string)
    requires CatalogPercentFree(cat) && PercentFree(table1) && PercentFree(table2)
    ensures forall i :: 0 <= i < |JoinSelectList(cat, table1, table2)| ==> PercentFree(JoinSelectList(cat, table1, table2)[i])
  {
    ValidColumnsPercentFree(cat, table1, []);
    ValidColumnsPercentFree(cat, table2, []);
    var q1 := Qualified(table1, ValidColumns(cat, table1, []));
    var q2 := Qualified(table2, ValidColumns(cat, table2, []));
    forall i | 0 <= i < |q1 + q2|
      ensures PercentFree((q1 + q2)[i])
    {
      if i < |q1| {
        assert (q1 + q2)[i] == q1[i];
      } else {
        assert (q1 + q2)[i] == q2[i - |q1|];
      }
    }
  }

  /** The text of an appended query binds the WHERE suffix's values twice, then its LIMIT. */
  lemma AppendedTextBinds(columns: string, table1: string, table2: string, clause: string, order: string)
    requires PercentFree(columns) && PercentFree(table1) && PercentFree(table2)
    requires NoTrailingPercent(clause) && PercentFree(order)
    ensures Placeholders(Format(FETCH_N_APPENDED_RECORDS, [columns, table1, clause, columns, table2, clause, order]))
         == 2 * Placeholders(clause) + 1
  {
    var args := [columns, table1, clause, columns, table2, clause, order];
    assert args == [columns, table1, clause] + [columns, table2, clause, order];
    SumPlaceholdersConcat([columns, table1, clause], [columns, table2, clause, order]);
    SumPlaceholdersFreeExcept([columns, table1, clause], 2);
    SumPlaceholdersFreeExcept([columns, table2, clause, order], 2);
    PercentFreeText(columns);
    PercentFreeText(table1);
    PercentFreeText(table2);
    PercentFreeText(order);
    FetchNAppendedRecordsInert();
    FormatBinds(FETCH_N_APPENDED_RECORDS, args);
  }

  /** An appended plan is built from a valid condition, a valid order and some common columns. */
  lemma AppendedPlan<V>(cat: Catalog, f: Filters<V>)
    requires PlanAppended(cat, f).Success?
    ensures f.table1.Some? && f.table2.Some?
    ensures var table1, table2 := f.table1.value, f.table2.value;
      var where := WhereClause(cat, f.condition, table1);
      var common := CommonColumns(ValidColumns(cat, table1, []), ValidColumns(cat, table2, []));
      var order := AppendedOrderClause(f.orderBy, table1, table2, common);
      && where.Success? && order.Success? && common != []
      && PlanAppended(cat, f).value.statement
         == Statement(Format(FETCH_N_APPENDED_RECORDS,
                        [Join(common, ", "), table1, where.value.0, Join(common, ", "), table2, where.value.0, order.value]),
                      Bind(where.value.1) + Bind(where.value.1) + [Limit(f.n.GetOr(5))])
  {
  }

  /** The appended statement built from a valid condition and order binds. */
  lemma AppendedPiecesBinds<V>(cat: Catalog, f: Filters<V>, table1: string, table2: string)
    requires CatalogPercentFree(cat) && FiltersPercentFree(f)
    requires f.table1 == Some(table1) && f.table2 == Some(table2)
    requires WhereClause(cat, f.condition, table1).Success?
    requires var common := CommonColumns(ValidColumns(cat, table1, []), ValidColumns(cat, table2, []));
      AppendedOrderClause(f.orderBy, table1, table2, common).Success?
    ensures var where := WhereClause(cat, f.condition, table1).value;
      var common := CommonColumns(ValidColumns(cat, table1, []), ValidColumns(cat, table2, []));
      var order := AppendedOrderClause(f.orderBy, table1, table2, common);
      Binds(Statement(Format(FETCH_N_APPENDED_RECORDS,
                        [Join(common, ", "), table1, where.0, Join(common, ", "), table2, where.0, order.value]),
                      Bind(where.1) + Bind(where.1) + [Limit(f.n.GetOr(5))]))
  {
    var where := WhereClause(cat, f.condition, table1);
    WhereClauseBinds(cat, f.condition, table1);
    var common := CommonColumns(ValidColumns(cat, table1, []), ValidColumns(cat, table2, []));
    ValidColumnsPercentFree(cat, table1, []);
    assert forall i :: 0 <= i < |common| ==> common[i] in common;
    ColumnListPercentFree(common);
    var order := AppendedOrderClause(f.orderBy, table1, table2, common);
    if f.orderBy.Some? {
      DirectionPercentFree(f.orderBy.value);
      assert f.orderBy.value.column.value in common;
    }
    AppendedTextBinds(Join(common, ", "), table1, table2, where.value.0, order.value);
  }

  lemma AppendedBinds<V>(cat: Catalog, f: Filters<V>)
    requires CatalogPercentFree(cat) && FiltersPercentFree(f)
    requires PlanAppended(cat, f).Success?
    ensures Binds(PlanAppended(cat, f).value.statement)
  {
    AppendedPlan(cat, f);
    AppendedPiecesBinds(cat, f, f.table1.value, f.table2.value);
  }

  lemma SummarizeBinds<V>(cat: Catalog, f: Filters<V>)
    requires CatalogPercentFree(cat) && FiltersPercentFree(f)
    requires PlanSummarize(cat, f).Success?
    ensures Binds(PlanSummarize(cat, f).value.statement)
  {
    var table, column := f.tableName.value, f.column.value;
    SummarizeColumnInert();
    FormatBindsExcept(SUMMARIZE_COLUMN, [column, table, column], -1);
    assert SUMMARIZE_COLUMN.pieces[3] != LIMIT;
  }

  lemma AnalyzeBinds<V>(cat: Catalog, f: Filters<V>)
    requires CatalogPercentFree(cat) && FiltersPercentFree(f)
    requires PlanAnalyze(cat, f).Success?
    ensures Binds(PlanAnalyze(cat, f).value.statement)
  {
    var table, c, q := f.tableName.value, f.categoricalColumn.value, f.quantitativeColumn.value;
    ValidColumnsPercentFree(cat, table, [c, q]);
    var validated := ValidColumns(cat, table, [c, q]);
    assert PercentFree(c) && PercentFree(q);
    AnalyzeRelationshipInert();
    FormatBindsExcept(ANALYZE_RELATIONSHIP, [c, c, q, q, table, c, q], -1);
    assert ANALYZE_RELATIONSHIP.pieces[7] != LIMIT;
  }

  lemma FetchTablesBinds<V>()
    ensures Binds(FetchTablesPlan<V>().statement)
  {
    FetchTablesInert();
    assert FETCH_TABLES.Text() == Format(FETCH_TABLES, []);
    assert FETCH_TABLES.pieces[0] != LIMIT;
    FormatBindsExcept(FETCH_TABLES, [], -1);
  }

  lemma ColumnSqlHeadPercentFree()
    ensures PercentFree(COLUMN_SQL_HEAD)
  {
    SelectLinePercentFree();
    FromLinePercentFree();
    WhereLinePercentFree();
  }

  lemma SelectLinePercentFree()
    ensures PercentFree(SELECT_LINE)
  {
    assert PercentFree(INDENT) && PercentFree("SELECT column_name, data_type ");
  }

  lemma FromLinePercentFree()
    ensures PercentFree(FROM_LINE)
  {
    assert PercentFree(INDENT) && PercentFree("FROM information_schema.columns ");
  }

  lemma WhereLinePercentFree()
    ensures PercentFree(WHERE_LINE)
  {
    assert PercentFree(INDENT) && PercentFree(SCHEMA);
    assert PercentFree("WHERE table_schema = '") && PercentFree(" AND table_name =");
  }

  lemma ColumnSqlTailPercentFree()
    ensures PercentFree(COLUMN_SQL_TAIL)
  {
    assert PercentFree(INDENT) && PercentFree("ORDER BY ordinal_position;");
  }

  /** The catalogue query holds one placeholder, for the table name. */
  lemma ColumnSqlBinds()
    ensures Placeholders(COLUMN_SQL) == 1
  {
    ColumnSqlHeadPercentFree();
    ColumnSqlTailPercentFree();
    PercentFreeText(COLUMN_SQL_HEAD);
    PercentFreeText(COLUMN_SQL_TAIL);
    assert Placeholders(" %s") == 1;
    PairsConcat(COLUMN_SQL_HEAD, " %s", '%', 's');
    var front := COLUMN_SQL_HEAD + " %s";
    assert front[|front| - 1] == 's';
    PairsConcat(front, COLUMN_SQL_TAIL, '%', 's');
  }

  lemma CountBinds<V>(table: string)
    requires PercentFree(table)
    ensures Binds(CountStatement<V>(table))
  {
    GetTableSummaryInert();
    assert GET_TABLE_SUMMARY.pieces[1] != LIMIT;
    FormatBindsExcept(GET_TABLE_SUMMARY, [table], -1);
  }

  lemma SampleBinds<V>(table: string)
    requires PercentFree(table)
    ensures Binds<V>(Statement(SampleSql(table), []))
  {
    SchemaInert();
    InertAvoids(FROM_SCHEMA);
    assert PercentFree("SELECT *") && PercentFree(" LIMIT 3;");
    PercentFreeText(SampleSql(table));
  }

  /** The statements a table summary runs are a prefix of the count, catalogue and sample queries. */
  lemma SummaryRunExecuted<V, R>(cat: Catalog, f: Filters<V>, db: Statement<V> -> DbOutcome<R>, rowCountOf: R -> int)
    requires f.tableName.Some?
    ensures var table := f.tableName.value;
      forall s :: s in SummaryRun(cat, f, db, rowCountOf).executed ==>
        s == CountStatement(table) || s == Statement(COLUMN_SQL, [Name(table)]) || s == Statement(SampleSql(table), [])
  {
  }

  lemma SummaryBinds<V, R>(cat: Catalog, f: Filters<V>, db: Statement<V> -> DbOutcome<R>, rowCountOf: R -> int)
    requires FiltersPercentFree(f)
    ensures forall s :: s in SummaryRun(cat, f, db, rowCountOf).executed ==> Binds(s)
  {
    if f.tableName.Some? {
      var table := f.tableName.value;
      CountBinds<V>(table);
      ColumnSqlBinds();
      assert Binds<V>(Statement(COLUMN_SQL, [Name(table)]));
      SampleBinds<V>(table);
      SummaryRunExecuted(cat, f, db, rowCountOf);
    }
  }

  /**
   * Parameter binding is exact for every request: each statement executed
   * carries one parameter per `%s` of its text, provided the names
   * interpolated unchecked (table names, condition and ORDER BY columns)
   * and the catalogue's column names hold no `%`.
   */
  lemma OutcomeBinds<V, R>(action: string, f: Filters<V>, cat: Catalog, db: Statement<V> -> DbOutcome<R>, rowCountOf: R -> int)
    requires CatalogPercentFree(cat) && FiltersPercentFree(f)
    ensures forall s :: s in Outcome(action, f, cat, db, rowCountOf).executed ==> Binds(s)
  {
    if action == "fetch_tables" {
      FetchTablesBinds<V>();
      RunPlanBinds(Success(FetchTablesPlan<V>()), db);
    } else if action == "fetch_n_records" {
      if PlanFetchNRecords(cat, f).Success? {
        FetchNRecordsBinds(cat, f);
      }
      RunPlanBinds(PlanFetchNRecords(cat, f), db);
    } else if action == "fetch_n_joined_records" {
      JoinedPlanBinds(cat, f);
      RunPlanBinds(PlanJoined(cat, f), db);
    } else if action == "fetch_n_appended_records" {
      if PlanAppended(cat, f).Success? {
        AppendedBinds(cat, f);
      }
      RunPlanBinds(PlanAppended(cat, f), db);
    } else if action == "summarize_column" {
      if PlanSummarize(cat, f).Success? {
        SummarizeBinds(cat, f);
      }
      RunPlanBinds(PlanSummarize(cat, f), db);
    } else if action == "analyze_relationship" {
      if PlanAnalyze(cat, f).Success? {
        AnalyzeBinds(cat, f);
      }
      RunPlanBinds(PlanAnalyze(cat, f), db);
    } else if action == "get_table_summary" {
      SummaryBinds(cat, f, db, rowCountOf);
    }
  }

  /** A plan whose statement binds executes only statements that bind. */
  lemma RunPlanBinds<V, R>(plan: Result<Plan<V>, Error>, db: Statement<V> -> DbOutcome<R>)
    requires plan.Success? ==> Binds(plan.value.statement)
    ensures forall s :: s in RunPlan(plan, db).executed ==> Binds(s)
  {
  }

  /** The joined query binds, with the select list built from the catalogue. */
  lemma JoinedPlanBinds<V>(cat: Catalog, f: Filters<V>)
    requires CatalogPercentFree(cat) && FiltersPercentFree(f)
    ensures PlanJoined(cat, f).Success? ==> Binds(PlanJoined(cat, f).value.statement)
  {
    var all := if f.table1.Some? && f.table2.Some? then JoinSelectList(cat, f.table1.value, f.table2.value) else [];
    if f.table1.Some? && f.table2.Some? {
      JoinSelectListPercentFree(cat, f.table1.value, f.table2.value);
    }
    if PlanJoinedWith(cat, f, all).Success? {
      JoinedBinds(cat, f, all);
    }
  }

  // ---------------------------------------------------------------- fetch_n_records properties

  /**
   * The LIMIT of `fetch_n_records` is `n` when given, else 1 for the
   * column/value shorthand, else 5; it is bound last, after the values of
   * the condition, and with neither a condition nor the shorthand it is
   * the only parameter.
   */
  lemma FetchNRecordsLimit<V>(cat: Catalog, f: Filters<V>)
    requires PlanFetchNRecords(cat, f).Success?
    ensures var params := PlanFetchNRecords(cat, f).value.statement.params;
      && |params| >= 1
      && params[|params| - 1] == Limit(if f.n.Some? then f.n.value else if Shorthand(f) then 1 else 5)
      && (f.condition.Absent? && !Shorthand(f) ==> params == [Limit(f.n.GetOr(5))])
  {
  }

  /** The shorthand with a value is the equality condition on that column, bound as its one value. */
  lemma ShorthandBindsValue<V>(cat: Catalog, f: Filters<V>)
    requires Shorthand(f) && f.value.Given?
    requires PlanFetchNRecords(cat, f).Success?
    ensures PlanFetchNRecords(cat, f).value.statement.params == [Bound(f.value.value), Limit(f.n.GetOr(1))]
  {
    var c := Condition(f.column, Some("="), Some(f.value.value), []);
    assert FetchCondition(f) == Given(c);
    assert ParseCondition(cat, c, f.tableName.value).value.1 == [f.value.value];
  }

  /** The shorthand with a JSON null value is an `=` condition without a value, which is rejected. */
  lemma ShorthandNullRejected<V>(cat: Catalog, f: Filters<V>)
    requires Shorthand(f) && f.value.Null? && f.tableName.Some?
    requires ColumnKey(f.column.value) in ValidColumns(cat, f.tableName.value, [])
    ensures PlanFetchNRecords(cat, f) == Failure(Rejected(OperatorNeedsValue("=")))
  {
    var c := Condition(f.column, Some("="), None, []);
    assert FetchCondition(f) == Given(c);
    ParseConditionArity(cat, c, f.tableName.value);
  }

  /** With a `condition` key present, the `column` and `value` keys are ignored. */
  lemma ExplicitConditionWins<V>(cat: Catalog, f: Filters<V>, column: Option<string>, value: Key<V>)
    requires !f.condition.Absent?
    ensures PlanFetchNRecords(cat, f.(column := column, value := value)) == PlanFetchNRecords(cat, f)
  {
    var g := f.(column := column, value := value);
    assert FetchCondition(g) == FetchCondition(f);
    assert FetchLimit(g) == FetchLimit(f);
  }

  /** A rejected condition is reported, whatever the ORDER BY says. */
  lemma FetchConditionFirst<V>(cat: Catalog, f: Filters<V>)
    requires f.tableName.Some?
    requires WhereClause(cat, FetchCondition(f), f.tableName.value).Failure?
    ensures PlanFetchNRecords(cat, f)
         == Failure(FaultError(WhereClause(cat, FetchCondition(f), f.tableName.value).error, ParsingCondition))
  {
  }

  /** The filters with every condition value and the shorthand value passed through `g`. */
  function MapFilterValues<V, W>(f: Filters<V>, g: V -> W): Filters<W>
  {
    Filters(f.tableName, f.table1, f.table2, f.n, f.columns,
            (match f.condition case Given(c) => Given(c.MapValues(g)) case Null => Null case Absent => Absent),
            f.column,
            (match f.value case Given(v) => Given(g(v)) case Null => Null case Absent => Absent),
            f.orderBy, f.joinColumns, f.joinType, f.categoricalColumn, f.quantitativeColumn)
  }

  /** A parameter with its condition value passed through `g`; the LIMIT and a table name are not values. */
  function MapParam<V, W>(p: Param<V>, g: V -> W): Param<W>
  {
    match p
    case Bound(v) => Bound(g(v))
    case Limit(n) => Limit(n)
    case Name(t) => Name(t)
  }

  function MapParams<V, W>(ps: seq<Param<V>>, g: V -> W): (r: seq<Param<W>>)
    ensures |r| == |ps|
  {
    seq(|ps|, i requires 0 <= i < |ps| => MapParam(ps[i], g))
  }

  /** The same statement text, with every bound value passed through `g`. */
  function MapStatement<V, W>(st: Statement<V>, g: V -> W): Statement<W>
  {
    Statement(st.sql, MapParams(st.params, g))
  }

  function MapStatements<V, W>(ss: seq<Statement<V>>, g: V -> W): (r: seq<Statement<W>>)
    ensures |r| == |ss|
  {
    seq(|ss|, i requires 0 <= i < |ss| => MapStatement(ss[i], g))
  }

  /**
   * Two plans that differ only in their values: both accepted or both
   * rejected with the same error, and when accepted the same SQL text,
   * shape and stage, the second binding each value of the first through `g`.
   */
  ghost predicate MapsValues<V, W>(r: Result<Plan<V>, Error>, s: Result<Plan<W>, Error>, g: V -> W)
  {
    && (r.Success? <==> s.Success?)
    && (r.Failure? ==> s.error == r.error)
    && (r.Success? ==> s.value == Plan(MapStatement(r.value.statement, g), r.value.shape, r.value.stage))
  }

  /** Two clause results that differ only in their values: same outcome, same error, same text, the values mapped. */
  ghost predicate ClauseMapsValues<V, W, E>(r: Result<(string, seq<V>), E>, s: Result<(string, seq<W>), E>, g: V -> W)
  {
    && (r.Success? <==> s.Success?)
    && (r.Failure? ==> s.error == r.error)
    && (r.Success? ==> s.value.0 == r.value.0 && s.value.1 == SeqMap(g, r.value.1))
  }

  /** Binding mapped values is mapping the bound values, and mapping distributes over concatenation. */
  lemma BindMaps<V, W>(values: seq<V>, rest: seq<Param<V>>, g: V -> W)
    ensures Bind(SeqMap(g, values)) + MapParams(rest, g) == MapParams(Bind(values) + rest, g)
  {
  }

  lemma WhereClauseIgnoresValues<V, W>(cat: Catalog, condition: Key<Condition<V>>, table: string, g: V -> W)
    ensures var mapped := match condition case Given(c) => Given(c.MapValues(g)) case Null => Null case Absent => Absent;
      ClauseMapsValues(WhereClause(cat, condition, table), WhereClause(cat, mapped, table), g)
  {
    if condition.Given? {
      ParseConditionIgnoresValues(cat, condition.value, table, g);
    }
  }

  /**
   * Values never reach the SQL text of `fetch_n_records`: changing every
   * value of the condition (or of the shorthand) changes neither whether
   * the request is accepted, nor the error, nor the SQL; the parameters
   * are the changed values, in the same places.
   */
  lemma FetchValuesNotInSql<V, W>(cat: Catalog, f: Filters<V>, g: V -> W)
    ensures MapsValues(PlanFetchNRecords(cat, f), PlanFetchNRecords(cat, MapFilterValues(f, g)), g)
  {
    var h := MapFilterValues(f, g);
    assert Shorthand(h) == Shorthand(f);
    assert FetchLimit(h) == FetchLimit(f);
    var fc := FetchCondition(f);
    var mapped := match fc case Given(c) => Given(c.MapValues(g)) case Null => Null case Absent => Absent;
    if Shorthand(f) {
      var c := fc.value;
      assert c.MapValues(g) == FetchCondition(h).value;
    }
    assert FetchCondition(h) == mapped;
    if f.tableName.Some? {
      var table := f.tableName.value;
      WhereClauseIgnoresValues(cat, fc, table, g);
      FetchFromIgnoresValues(WhereClause(cat, fc, table), WhereClause(cat, mapped, table), FetchOrder(cat, table, f.orderBy),
                             FormatColumns(ValidColumns(cat, table, f.columns)), table, FetchLimit(f), g);
    }
  }

  lemma FetchFromIgnoresValues<V, W>(where: Result<(string, seq<V>), Fault>, whereW: Result<(string, seq<W>), Fault>,
                                     order: Result<string, Fault>, columns: string, table: string, limit: int, g: V -> W)
    requires ClauseMapsValues(where, whereW, g)
    ensures MapsValues(FetchFrom(where, order, columns, table, limit), FetchFrom(whereW, order, columns, table, limit), g)
  {
    if where.Success? {
      BindMaps(where.value.1, [Limit(limit)], g);
    }
  }

  /** Qualifying the joined condition's column does not look at its values. */
  lemma JoinConditionIgnoresValues<V, W>(cat: Catalog, table1: string, table2: string, c: Condition<V>, g: V -> W)
    ensures var r, s := JoinCondition(cat, table1, table2, c), JoinCondition(cat, table1, table2, c.MapValues(g));
      && (r.Success? <==> s.Success?)
      && (r.Failure? ==> s.error == r.error)
      && (r.Success? ==> s.value == r.value.MapValues(g))
  {
  }

  /** Values never reach the joined query's WHERE text: the clause and the outcome are unchanged, the values mapped. */
  lemma JoinedWhereIgnoresValues<V, W>(cat: Catalog, f: Filters<V>, table1: string, table2: string, g: V -> W)
    ensures ClauseMapsValues(JoinedWhere(cat, f, table1, table2), JoinedWhere(cat, MapFilterValues(f, g), table1, table2), g)
  {
    if f.condition.Given? {
      var c := f.condition.value;
      assert MapFilterValues(f, g).condition == Given(c.MapValues(g));
      JoinConditionIgnoresValues(cat, table1, table2, c, g);
      var q := JoinCondition(cat, table1, table2, c);
      if q.Success? {
        ParseConditionIgnoresValues(cat, q.value, table1, g);
      }
    }
  }

  /** Values never reach the SQL text of `fetch_n_joined_records`. */
  lemma JoinedValuesNotInSql<V, W>(cat: Catalog, f: Filters<V>, g: V -> W)
    ensures MapsValues(PlanJoined(cat, f), PlanJoined(cat, MapFilterValues(f, g)), g)
  {
    var h := MapFilterValues(f, g);
    if f.table1.Some? && f.table2.Some? {
      var table1, table2 := f.table1.value, f.table2.value;
      var all := JoinSelectList(cat, table1, table2);
      assert PlanJoined(cat, f) == PlanJoinedWith(cat, f, all);
      assert PlanJoined(cat, h) == PlanJoinedWith(cat, h, all);
      JoinedWithIgnoresValues(cat, f, g, table1, table2, all);
    }
  }

  lemma JoinedWithIgnoresValues<V, W>(cat: Catalog, f: Filters<V>, g: V -> W, table1: string, table2: string, all: seq<string>)
    requires f.table1 == Some(table1) && f.table2 == Some(table2)
    ensures MapsValues(PlanJoinedWith(cat, f, all), PlanJoinedWith(cat, MapFilterValues(f, g), all), g)
  {
    var h := MapFilterValues(f, g);
    assert JoinHeader(cat, h, table1, table2) == JoinHeader(cat, f, table1, table2);
    assert JoinedSelect(cat, h, table1, all) == JoinedSelect(cat, f, table1, all);
    JoinedWhereIgnoresValues(cat, f, table1, table2, g);
    JoinedFromIgnoresValues(JoinHeader(cat, f, table1, table2), JoinedWhere(cat, f, table1, table2), JoinedWhere(cat, h, table1, table2),
                            JoinedOrder(cat, table1, table2, f.orderBy), JoinedSelect(cat, f, table1, all), table1, table2, f.n, g);
  }

  lemma JoinedFromIgnoresValues<V, W>(header: Result<((string, string), string), Error>,
                                      where: Result<(string, seq<V>), Error>, whereW: Result<(string, seq<W>), Error>,
                                      order: Result<string, Fault>, select: string, table1: string, table2: string, n: Option<int>, g: V -> W)
    requires ClauseMapsValues(where, whereW, g)
    ensures MapsValues(JoinedFrom(header, where, order, select, table1, table2, n), JoinedFrom(header, whereW, order, select, table1, table2, n), g)
  {
    if where.Success? {
      BindMaps(where.value.1, [Limit(n.GetOr(5))], g);
    }
  }

  /** Values never reach the SQL text of `fetch_n_appended_records`; both halves bind the mapped values. */
  lemma AppendedValuesNotInSql<V, W>(cat: Catalog, f: Filters<V>, g: V -> W)
    ensures MapsValues(PlanAppended(cat, f), PlanAppended(cat, MapFilterValues(f, g)), g)
  {
    if f.table1.Some? && f.table2.Some? {
      var table1, table2 := f.table1.value, f.table2.value;
      var common := CommonColumns(ValidColumns(cat, table1, []), ValidColumns(cat, table2, []));
      WhereClauseIgnoresValues(cat, f.condition, table1, g);
      AppendedFromIgnoresValues(WhereClause(cat, f.condition, table1), WhereClause(cat, MapFilterValues(f, g).condition, table1),
                                common, AppendedOrderClause(f.orderBy, table1, table2, common), table1, table2, f.n, g);
    }
  }

  lemma AppendedFromIgnoresValues<V, W>(where: Result<(string, seq<V>), Fault>, whereW: Result<(string, seq<W>), Fault>,
                                        common: seq<string>, order: Result<string, Error>, table1: string, table2: string,
                                        n: Option<int>, g: V -> W)
    requires ClauseMapsValues(where, whereW, g)
    ensures MapsValues(AppendedFrom(where, common, order, table1, table2, n), AppendedFrom(whereW, common, order, table1, table2, n), g)
  {
    if where.Success? {
      var values := where.value.1;
      var limit: seq<Param<V>>, limitW: seq<Param<W>> := [Limit(n.GetOr(5))], [Limit(n.GetOr(5))];
      BindMaps(values, limit, g);
      BindMaps(values, Bind(values) + limit, g);
      assert Bind(values) + Bind(values) + limit == Bind(values) + (Bind(values) + limit);
      assert Bind(SeqMap(g, values)) + Bind(SeqMap(g, values)) + limitW == Bind(SeqMap(g, values)) + (Bind(SeqMap(g, values)) + limitW);
    }
  }

  /** The column summary and the relationship query bind no values at all. */
  lemma SummarizeAnalyzeIgnoreValues<V, W>(cat: Catalog, f: Filters<V>, g: V -> W)
    ensures MapsValues(PlanSummarize(cat, f), PlanSummarize(cat, MapFilterValues(f, g)), g)
    ensures MapsValues(PlanAnalyze(cat, f), PlanAnalyze(cat, MapFilterValues(f, g)), g)
  {
    assert MapParams<V, W>([], g) == [];
  }

  /** Running plans that differ only in their values, on databases that answer them alike, gives the same answer. */
  lemma RunPlanIgnoresValues<V, W, R>(r: Result<Plan<V>, Error>, s: Result<Plan<W>, Error>, g: V -> W,
                                      db: Statement<V> -> DbOutcome<R>, dbW: Statement<W> -> DbOutcome<R>)
    requires MapsValues(r, s, g)
    requires forall st :: dbW(MapStatement(st, g)) == db(st)
    ensures RunPlan(s, dbW).response == RunPlan(r, db).response
    ensures RunPlan(s, dbW).executed == MapStatements(RunPlan(r, db).executed, g)
  {
    if r.Success? {
      assert dbW(s.value.statement) == db(r.value.statement);
    }
  }

  /** The table summary binds no value: on databases that answer alike it runs the same statements and answers the same. */
  lemma SummaryRunIgnoresValues<V, W, R>(cat: Catalog, f: Filters<V>, g: V -> W,
                                         db: Statement<V> -> DbOutcome<R>, dbW: Statement<W> -> DbOutcome<R>, rowCountOf: R -> int)
    requires forall st :: dbW(MapStatement(st, g)) == db(st)
    ensures SummaryRun(cat, MapFilterValues(f, g), dbW, rowCountOf).response == SummaryRun(cat, f, db, rowCountOf).response
    ensures SummaryRun(cat, MapFilterValues(f, g), dbW, rowCountOf).executed == MapStatements(SummaryRun(cat, f, db, rowCountOf).executed, g)
  {
    if f.tableName.Some? {
      var table := f.tableName.value;
      assert MapParams<V, W>([], g) == [];
      assert MapParams<V, W>([Name(table)], g) == [Name(table)];
      assert dbW(CountStatement(table)) == db(CountStatement(table));
      assert dbW(Statement(SampleSql(table), [])) == db(Statement(SampleSql(table), []));
    }
  }

  /**
   * Values never reach the SQL of any action: with every condition and
   * shorthand value passed through `g`, and a database that answers each
   * statement as it answered the statement before the change, a request
   * gives the same answer and executes the same SQL texts in the same
   * order, binding the changed values in the same places.
   */
  lemma OutcomeIgnoresValues<V, W, R>(action: string, f: Filters<V>, cat: Catalog, g: V -> W,
                                      db: Statement<V> -> DbOutcome<R>, dbW: Statement<W> -> DbOutcome<R>, rowCountOf: R -> int)
    requires forall st :: dbW(MapStatement(st, g)) == db(st)
    ensures var r, s := Outcome(action, f, cat, db, rowCountOf), Outcome(action, MapFilterValues(f, g), cat, dbW, rowCountOf);
      s.response == r.response && s.executed == MapStatements(r.executed, g)
  {
    var h := MapFilterValues(f, g);
    if action == "fetch_tables" {
      assert MapParams<V, W>([], g) == [];
      RunPlanIgnoresValues(Success(FetchTablesPlan<V>()), Success(FetchTablesPlan<W>()), g, db, dbW);
    } else if action == "fetch_n_records" {
      FetchValuesNotInSql(cat, f, g);
      RunPlanIgnoresValues(PlanFetchNRecords(cat, f), PlanFetchNRecords(cat, h), g, db, dbW);
    } else if action == "fetch_n_joined_records" {
      JoinedValuesNotInSql(cat, f, g);
      RunPlanIgnoresValues(PlanJoined(cat, f), PlanJoined(cat, h), g, db, dbW);
    } else if action == "fetch_n_appended_records" {
      AppendedValuesNotInSql(cat, f, g);
      RunPlanIgnoresValues(PlanAppended(cat, f), PlanAppended(cat, h), g, db, dbW);
    } else if action == "summarize_column" {
      SummarizeAnalyzeIgnoreValues(cat, f, g);
      RunPlanIgnoresValues(PlanSummarize(cat, f), PlanSummarize(cat, h), g, db, dbW);
    } else if action == "analyze_relationship" {
      SummarizeAnalyzeIgnoreValues(cat, f, g);
      RunPlanIgnoresValues(PlanAnalyze(cat, f), PlanAnalyze(cat, h), g, db, dbW);
    } else if action == "get_table_summary" {
      SummaryRunIgnoresValues(cat, f, g, db, dbW, rowCountOf);
    }
  }

  // ---------------------------------------------------------------- fetch_n_joined_records properties

  /**
   * An unprefixed condition column is qualified with table1 when table1
   * has it, else with table2 when table2 has it, else the request fails
   * naming both tables; a prefixed one is kept as given.
   */
  lemma ConditionColumnQualified(cat: Catalog, table1: string, table2: string, column: string)
    ensures var r := QualifyConditionColumn(cat, table1, table2, column);
      && ('.' in column ==> r == Success(column))
      && ('.' !in column && column in ValidColumns(cat, table1, []) ==> r == Success(table1 + "." + column))
      && ('.' !in column && column !in ValidColumns(cat, table1, []) && column in ValidColumns(cat, table2, []) ==>
            r == Success(table2 + "." + column))
      && ('.' !in column && column !in ValidColumns(cat, table1, []) && column !in ValidColumns(cat, table2, []) ==>
            r == Failure(Rejected(NotInEitherTable(column, table1, table2))))
      && (r.Success? ==> '.' in r.value && LastSegment(r.value, '.') == ColumnKey(column))
  {
    if '.' !in column {
      LastSegmentOfQualified(table1, '.', column);
      LastSegmentOfQualified(table2, '.', column);
      assert table1 + "." + column == table1 + ['.'] + column;
      assert table2 + "." + column == table2 + ['.'] + column;
    }
  }

  /**
   * The requested columns of a joined query are validated against table1
   * only: a name that only table2 has is dropped from the select list, and
   * when every name is table2's the list falls back to all of table1's columns.
   */
  lemma JoinedColumnsFromTable1<V>(cat: Catalog, f: Filters<V>, table1: string, table2: string, allColumns: seq<string>)
    requires f.columns != [] && !cat.unreachable
    ensures JoinedSelect(cat, f, table1, allColumns) == FormatColumns(ValidColumns(cat, table1, f.columns))
    ensures forall c :: c in f.columns && c !in cat.Available(table1) && c in cat.Available(table2) ==>
      c !in ValidColumns(cat, table1, f.columns)
    ensures (forall c :: c in f.columns ==> c !in cat.Available(table1)) ==>
      JoinedSelect(cat, f, table1, allColumns) == FormatColumns(cat.Available(table1))
  {
    ValidColumnsCases(cat, table1, f.columns);
  }

  /**
   * The qualified condition is still checked against table1 alone, so a
   * condition on a column only table2 has is always rejected once the join
   * itself is valid.
   */
  lemma Table2ConditionRejected<V>(cat: Catalog, f: Filters<V>)
    requires f.table1.Some? && f.table2.Some? && f.condition.Given? && f.condition.value.column.Some?
    requires var column := f.condition.value.column.value;
      '.' !in column && column !in ValidColumns(cat, f.table1.value, []) && column in ValidColumns(cat, f.table2.value, [])
    requires JoinHeader(cat, f, f.table1.value, f.table2.value).Success?
    ensures var (table1, table2, column) := (f.table1.value, f.table2.value, f.condition.value.column.value);
      PlanJoined(cat, f) == Failure(Rejected(UnknownColumn(table2 + "." + column, table1, ValidColumns(cat, table1, []))))
  {
    var table1, table2, column := f.table1.value, f.table2.value, f.condition.value.column.value;
    ConditionColumnQualified(cat, table1, table2, column);
    var c := f.condition.value.(column := Some(table2 + "." + column));
    assert JoinCondition(cat, table1, table2, f.condition.value) == Success(c);
    assert ColumnKey(table2 + "." + column) == column;
  }

  /**
   * The in-place rewrite is stable: rewriting the rewritten filters changes
   * nothing, and planning from them gives the same query, so a caller that
   * re-sends the dictionary it got back gets the same answer.
   */
  lemma JoinRewriteStable<V>(cat: Catalog, f: Filters<V>)
    ensures JoinedFiltersAfter(cat, JoinedFiltersAfter(cat, f)) == JoinedFiltersAfter(cat, f)
    ensures PlanJoined(cat, JoinedFiltersAfter(cat, f)) == PlanJoined(cat, f)
  {
    var after := JoinedFiltersAfter(cat, f);
    if after != f {
      var table1, table2 := f.table1.value, f.table2.value;
      var c := f.condition.value;
      ConditionColumnQualified(cat, table1, table2, c.column.value);
      var q := QualifyConditionColumn(cat, table1, table2, c.column.value).value;
      assert after == f.(condition := Given(c.(column := Some(q))));
      ConditionColumnQualified(cat, table1, table2, q);
      assert JoinCondition(cat, table1, table2, after.condition.value) == Success(after.condition.value);
      assert JoinHeader(cat, after, table1, table2) == JoinHeader(cat, f, table1, table2);
      assert JoinedWhere(cat, after, table1, table2) == JoinedWhere(cat, f, table1, table2);
    }
  }

  /**
   * With no columns requested, the joined select list is every catalogue
   * column of table1 qualified with `table1.`, then every catalogue column
   * of table2 qualified with `table2.`; each entry splits back into its
   * table and column.
   */
  lemma JoinSelectListColumns(cat: Catalog, table1: string, table2: string)
    requires !cat.unreachable
    ensures var list, a1, a2 := JoinSelectList(cat, table1, table2), cat.Available(table1), cat.Available(table2);
      && |list| == |a1| + |a2|
      && (forall i :: 0 <= i < |a1| ==> list[i] == table1 + "." + a1[i])
      && (forall j :: 0 <= j < |a2| ==> list[|a1| + j] == table2 + "." + a2[j])
  {
    ValidColumnsCases(cat, table1, []);
    ValidColumnsCases(cat, table2, []);
  }

  lemma QualifiedSplits(table: string, column: string)
    requires '.' !in table && '.' !in column
    ensures Split(table + "." + column, '.') == [table, column]
  {
    assert table + "." + column == table + ['.'] + column;
    QualifiedSegments(table, '.', column);
  }

  /** Every entry of the joined select list reads back as one of the two tables and a catalogue column of it. */
  lemma JoinSelectListSplits(cat: Catalog, table1: string, table2: string)
    requires !cat.unreachable && '.' !in table1 && '.' !in table2
    requires forall t, c :: t in cat.tables && c in cat.tables[t] ==> '.' !in c
    ensures forall i :: 0 <= i < |JoinSelectList(cat, table1, table2)| ==>
      var parts := Split(JoinSelectList(cat, table1, table2)[i], '.');
      |parts| == 2 && (parts[0] == table1 || parts[0] == table2) && parts[1] in cat.Available(parts[0])
  {
    var list, a1, a2 := JoinSelectList(cat, table1, table2), cat.Available(table1), cat.Available(table2);
    JoinSelectListColumns(cat, table1, table2);
    forall i | 0 <= i < |list|
      ensures var parts := Split(list[i], '.');
        |parts| == 2 && (parts[0] == table1 || parts[0] == table2) && parts[1] in cat.Available(parts[0])
    {
      if i < |a1| {
        assert a1[i] in a1;
        QualifiedSplits(table1, a1[i]);
      } else {
        var j := i - |a1|;
        assert a2[j] in a2;
        assert list[i] == table2 + "." + a2[j];
        QualifiedSplits(table2, a2[j]);
      }
    }
  }

  // ---------------------------------------------------------------- fetch_n_appended_records properties

  /** The values a condition binds, as the WHERE suffix binds them (none without a condition). */
  function ConditionValues<V>(condition: Key<Condition<V>>): seq<V>
  {
    match condition
    case Given(c) => if ArityOk(c.Operator(), c.value, c.values) then ExpectedParams(c.Operator(), c.value, c.values) else []
    case _ => []
  }

  /**
   * An accepted appended query selects only columns both tables have, binds
   * the condition's values once for each half of the UNION ALL and then the
   * LIMIT, and orders (if at all) by a column both tables have.
   */
  lemma AppendedShape<V>(cat: Catalog, f: Filters<V>)
    requires !cat.unreachable
    requires PlanAppended(cat, f).Success?
    ensures var (table1, table2) := (f.table1.value, f.table2.value);
      var common := CommonColumns(cat.Available(table1), cat.Available(table2));
      && common != []
      && (forall c :: c in common <==> c in cat.Available(table1) && c in cat.Available(table2))
      && PlanAppended(cat, f).value.statement.params
         == Bind(ConditionValues(f.condition)) + Bind(ConditionValues(f.condition)) + [Limit(f.n.GetOr(5))]
      && (f.orderBy.Some? ==> f.orderBy.value.column.Some?
                              && f.orderBy.value.column.value in cat.Available(table1)
                              && f.orderBy.value.column.value in cat.Available(table2))
  {
    var table1, table2 := f.table1.value, f.table2.value;
    ValidColumnsCases(cat, table1, []);
    ValidColumnsCases(cat, table2, []);
    if f.condition.Given? {
      assert WhereClause(cat, f.condition, table1).value.1 == ConditionValues(f.condition);
    }
  }

  /** With an acceptable condition and no ORDER BY, two tables without a shared column are refused before anything runs. */
  lemma AppendedNoCommonColumns<V>(cat: Catalog, f: Filters<V>)
    requires !cat.unreachable && f.table1.Some? && f.table2.Some? && f.orderBy.None?
    requires WhereClause(cat, f.condition, f.table1.value).Success?
    requires forall c :: c in cat.Available(f.table1.value) ==> c !in cat.Available(f.table2.value)
    ensures PlanAppended(cat, f) == Failure(NoCommonColumns(f.table1.value, f.table2.value))
  {
    var table1, table2 := f.table1.value, f.table2.value;
    ValidColumnsCases(cat, table1, []);
    ValidColumnsCases(cat, table2, []);
  }

  /**
   * The appended query checks the condition first, then the ORDER BY column
   * against the common columns, then that there is a common column at all.
   */
  lemma AppendedErrorOrder<V>(cat: Catalog, f: Filters<V>)
    requires f.table1.Some? && f.table2.Some?
    ensures var (table1, table2) := (f.table1.value, f.table2.value);
      var where := WhereClause(cat, f.condition, table1);
      var common := CommonColumns(ValidColumns(cat, table1, []), ValidColumns(cat, table2, []));
      && (where.Failure? ==> PlanAppended(cat, f) == Failure(FaultError(where.error, ParsingCondition)))
      && (where.Success? && f.orderBy.Some? && (f.orderBy.value.column.None? || f.orderBy.value.column.value !in common) ==>
            PlanAppended(cat, f) == Failure(NotInCommonColumns(f.orderBy.value.column, table1, table2, common)))
  {
  }

  // ---------------------------------------------------------------- summarize_column, analyze_relationship properties

  /** What `validate_columns` keeps of a one-name request: the name exactly when the table has it. */
  lemma SingleColumnKept(cat: Catalog, table: string, column: string)
    ensures column in ValidColumns(cat, table, [column])
        <==> if cat.unreachable then column == "*" else column in cat.Available(table)
  {
    if !cat.unreachable {
      ValidColumnsCases(cat, table, [column]);
    }
  }

  /**
   * `summarize_column` runs its query exactly when the catalogue lists the
   * column for the table (when the catalogue query fails, only `*` passes),
   * and otherwise reports the column as not in the table.
   */
  lemma SummarizeChecksColumn<V>(cat: Catalog, f: Filters<V>)
    requires f.tableName.Some? && f.column.Some?
    ensures PlanSummarize(cat, f).Success?
        <==> if cat.unreachable then f.column.value == "*" else f.column.value in cat.Available(f.tableName.value)
    ensures PlanSummarize(cat, f).Failure? ==> PlanSummarize(cat, f).error.ColumnNotInTable?
  {
    SingleColumnKept(cat, f.tableName.value, f.column.value);
  }

  /** What `validate_columns` keeps of a two-name request: each name exactly when the table has it. */
  lemma PairKept(cat: Catalog, table: string, c: string, q: string)
    requires !cat.unreachable
    ensures c in ValidColumns(cat, table, [c, q]) <==> c in cat.Available(table)
    ensures q in ValidColumns(cat, table, [c, q]) <==> q in cat.Available(table)
  {
    ValidColumnsCases(cat, table, [c, q]);
  }

  /**
   * `analyze_relationship` runs its query exactly when the catalogue lists
   * both columns for the table; the categorical column is checked first.
   */
  lemma AnalyzeChecksColumns<V>(cat: Catalog, f: Filters<V>)
    requires !cat.unreachable
    requires f.tableName.Some? && f.categoricalColumn.Some? && f.quantitativeColumn.Some?
    ensures var (table, c, q) := (f.tableName.value, f.categoricalColumn.value, f.quantitativeColumn.value);
      && (PlanAnalyze(cat, f).Success? <==> c in cat.Available(table) && q in cat.Available(table))
      && (c !in cat.Available(table) ==> PlanAnalyze(cat, f).error.CategoricalNotInTable?)
      && (c in cat.Available(table) && q !in cat.Available(table) ==> PlanAnalyze(cat, f).error.QuantitativeNotInTable?)
  {
    PairKept(cat, f.tableName.value, f.categoricalColumn.value, f.quantitativeColumn.value);
  }

  /** The chart of each chart action names the action's own columns and carries the rows it fetched. */
  lemma ChartFields<V, R>(cat: Catalog, f: Filters<V>, db: Statement<V> -> DbOutcome<R>)
    ensures var plan := PlanSummarize(cat, f);
      plan.Success? && db(plan.value.statement).Fetched? ==>
        var (table, column, rows) := (f.tableName.value, f.column.value, db(plan.value.statement).rows);
        RunPlan(plan, db).response == Some(ColumnSummary(rows, BarChart("Distribution of " + column + " in " + table, column, "count", rows), table, column))
    ensures var plan := PlanAnalyze(cat, f);
      plan.Success? && db(plan.value.statement).Fetched? ==>
        var (table, c, q, rows) := (f.tableName.value, f.categoricalColumn.value, f.quantitativeColumn.value, db(plan.value.statement).rows);
        RunPlan(plan, db).response == Some(Relationship(rows, Histogram("Sum of " + q + " by " + c + " in " + table, c, q, rows), table, c, q))
  {
  }

  // ---------------------------------------------------------------- get_table_summary properties

  /**
   * A table summary is five entries in the order table name, row count,
   * column count, column names, sample rows; the column names are the
   * catalogue's for the table and the column count is their number. It is
   * produced exactly when the count query returns a row, the catalogue
   * query succeeds and the sample query succeeds, after the three
   * statements ran in that order.
   */
  lemma TableSummaryShape<V, R>(cat: Catalog, f: Filters<V>, db: Statement<V> -> DbOutcome<R>, rowCountOf: R -> int)
    requires f.tableName.Some?
    ensures var (run, table) := (SummaryRun(cat, f, db, rowCountOf), f.tableName.value);
      var (count, sample) := (db(CountStatement(table)), db(Statement(SampleSql(table), [])));
      && run.response.Some?
      && (run.response.value.TableSummary? <==> count.Fetched? && count.rows != [] && !cat.unreachable && sample.Fetched?)
      && (run.response.value.TableSummary? ==>
            var e := run.response.value.entries;
            && |e| == 5
            && e[0] == TableNameEntry(table)
            && e[1] == RowCountEntry(rowCountOf(count.rows[0]))
            && e[2].ColumnCountEntry? && e[3] == ColumnNamesEntry(cat.Available(table))
            && e[4] == SampleRowsEntry(sample.rows)
            && e[2].columnCount == |e[3].columnNames|
            && run.executed == [CountStatement(table), Statement(COLUMN_SQL, [Name(table)]), Statement(SampleSql(table), [])])
      && (count.Raised? ==> run == Run(Some(Errors(Failed(GettingTableSummary, DatabaseError(count.message)))), [CountStatement(table)]))
  {
  }

  // ---------------------------------------------------------------- dispatch properties

  /** The errors raised by running statements rather than by checking the request. */
  predicate RaisedAtRuntime(e: Error)
  {
    e.Failed? && (e.cause.DatabaseError? || e.cause.NoCountRow? || e.cause.CatalogueUnavailable?)
  }

  /** Running a plan answers, executes at most its one statement, and executes nothing when the plan was refused. */
  lemma RunPlanShape<V, R>(plan: Result<Plan<V>, Error>, db: Statement<V> -> DbOutcome<R>)
    ensures var run := RunPlan(plan, db);
      && run.response.Some? && |run.executed| <= 1
      && (run.response.value.Errors? && !RaisedAtRuntime(run.response.value.error) ==> run.executed == [])
  {
  }

  /** A table summary answers, executes at most three statements, and none when the table name is missing. */
  lemma SummaryRunShape<V, R>(cat: Catalog, f: Filters<V>, db: Statement<V> -> DbOutcome<R>, rowCountOf: R -> int)
    ensures var run := SummaryRun(cat, f, db, rowCountOf);
      && run.response.Some? && |run.executed| <= 3
      && (run.response.value.Errors? && !RaisedAtRuntime(run.response.value.error) ==> run.executed == [])
  {
  }

  /**
   * An unrecognised action answers nothing and executes nothing; every
   * action of the template map answers. One statement at most is executed,
   * three for a table summary, and a request refused while checking its
   * filters executes none.
   */
  lemma DispatchShape<V, R>(action: string, f: Filters<V>, cat: Catalog, db: Statement<V> -> DbOutcome<R>, rowCountOf: R -> int)
    ensures var run := Outcome(action, f, cat, db, rowCountOf);
      && (action !in ACTION_SQL_MAP ==> run == Run(None, []))
      && (action in ACTION_SQL_MAP ==> run.response.Some?)
      && |run.executed| <= (if action == "get_table_summary" then 3 else 1)
      && (run.response.Some? && run.response.value.Errors? && !RaisedAtRuntime(run.response.value.error) ==> run.executed == [])
  {
    ActionSqlMapLookups();
    if action == "fetch_tables" {
      RunPlanShape(Success(FetchTablesPlan<V>()), db);
    } else if action == "fetch_n_records" {
      RunPlanShape(PlanFetchNRecords(cat, f), db);
    } else if action == "fetch_n_joined_records" {
      RunPlanShape(PlanJoined(cat, f), db);
    } else if action == "fetch_n_appended_records" {
      RunPlanShape(PlanAppended(cat, f), db);
    } else if action == "summarize_column" {
      RunPlanShape(PlanSummarize(cat, f), db);
    } else if action == "analyze_relationship" {
      RunPlanShape(PlanAnalyze(cat, f), db);
    } else if action == "get_table_summary" {
      SummaryRunShape(cat, f, db, rowCountOf);
    }
  }
}
