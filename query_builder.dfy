/**
 * SQL text construction (mcp_server/server/db_layer/query_builder.py):
 * the SELECT list, the join condition, and the per-action templates whose
 * `{}` fields receive validated identifiers and whose `%s` placeholders
 * receive bound values.
 */
module QueryBuilder {
  import opened Text

  // ---------------------------------------------------------------- format_columns_for_sql

  /** `format_columns_for_sql`: `*` for no columns, else the names joined by `", "`. */
  function FormatColumns(columns: seq<string>): (s: string)
    ensures columns == [] ==> s == "*"
  {
    if columns == [] then "*" else Join(columns, ", ")
  }

  /** Each name after the first as it appears between commas: behind one space. */
  function Spaced(names: seq<string>): (r: seq<string>)
    ensures |r| == |names| && forall i :: 0 <= i < |names| ==> r[i] == " " + names[i]
  {
    seq(|names|, i requires 0 <= i < |names| => " " + names[i])
  }

  lemma {:induction false} SpacedJoinSplit(names: seq<string>)
    requires names != []
    requires forall i :: 0 <= i < |names| ==> ',' !in names[i]
    ensures Split(" " + Join(names, ", "), ',') == Spaced(names)
    decreases |names|
  {
    if |names| == 1 {
      SplitParts(" " + names[0], ',');
    } else {
      var rest := Join(names[1..], ", ");
      SpacedJoinSplit(names[1..]);
      assert " " + Join(names, ", ") == (" " + names[0]) + [','] + (" " + rest);
      SplitAround(" " + names[0], ',', " " + rest);
      SplitParts(" " + names[0], ',');
      assert Spaced(names) == [" " + names[0]] + Spaced(names[1..]);
    }
  }

  /**
   * The SELECT list can be read back: for names without commas, splitting
   * it on commas gives the first name and then every other name behind
   * one space, in the given order and with nothing added or lost.
   */
  lemma FormatColumnsSplit(columns: seq<string>)
    requires columns != []
    requires forall i :: 0 <= i < |columns| ==> ',' !in columns[i]
    ensures Split(FormatColumns(columns), ',') == [columns[0]] + Spaced(columns[1..])
  {
    SplitParts(columns[0], ',');
    if |columns| > 1 {
      var rest := Join(columns[1..], ", ");
      SpacedJoinSplit(columns[1..]);
      assert FormatColumns(columns) == columns[0] + [','] + (" " + rest);
      SplitAround(columns[0], ',', " " + rest);
    }
  }

  // ---------------------------------------------------------------- format_join_condition

  /** `format_join_condition`: `t1.c1 = t2.c2`. */
  function FormatJoinCondition(table1: string, table2: string, column1: string, column2: string): (s: string)
  {
    table1 + "." + column1 + " = " + table2 + "." + column2
  }

  /** An identifier that splits cleanly on spaces and dots. */
  predicate Plain(name: string)
  {
    ' ' !in name && '.' !in name
  }

  /**
   * The join condition can be read back: for plain identifiers it is three
   * space-separated words, the outer two being the qualified columns, each
   * splitting on its dot into table and column.
   */
  lemma JoinConditionParts(table1: string, table2: string, column1: string, column2: string)
    requires Plain(table1) && Plain(table2) && Plain(column1) && Plain(column2)
    ensures var words := Split(FormatJoinCondition(table1, table2, column1, column2), ' ');
      && words == [table1 + "." + column1, "=", table2 + "." + column2]
      && Split(words[0], '.') == [table1, column1]
      && Split(words[2], '.') == [table2, column2]
  {
    var left, right := table1 + "." + column1, table2 + "." + column2;
    assert FormatJoinCondition(table1, table2, column1, column2) == left + [' '] + ("=" + [' '] + right);
    assert ' ' !in left && ' ' !in right;
    SplitAround(left, ' ', "=" + [' '] + right);
    SplitAround("=", ' ', right);
    SplitParts(left, ' ');
    SplitParts("=", ' ');
    SplitParts(right, ' ');
    QualifiedSegments(table1, '.', column1);
    QualifiedSegments(table2, '.', column2);
  }

  // ---------------------------------------------------------------- templates

  /** A `str.format` template, held as the literal text around its `{}` fields. */
  datatype Template = Template(pieces: seq<string>)
  {
    /** At least one piece, and no brace inside a piece. */
    predicate Valid()
    {
      |pieces| >= 1 && forall i :: 0 <= i < |pieces| ==> '{' !in pieces[i] && '}' !in pieces[i]
    }

    /** The template as written: the pieces with `{}` between them. */
    function Text(): string
    {
      Join(pieces, "{}")
    }
  }

  /** `template.format(*args)`: the i-th field replaced by the i-th argument. */
  function Format(t: Template, args: seq<string>): string
    requires |t.pieces| == |args| + 1
    decreases |args|
  {
    if args == [] then t.pieces[0]
    else t.pieces[0] + args[0] + Format(Template(t.pieces[1..]), args[1..])
  }

  /** The number of `{}` fields in a template's text is one less than its number of pieces. */
  lemma {:induction false} TemplateFields(t: Template)
    requires t.Valid()
    ensures Fields(t.Text()) == |t.pieces| - 1
    decreases |t.pieces|
  {
    var p := t.pieces;
    NoFirstNoPairs(p[0], '{', '}');
    if |p| > 1 {
      var rest := Template(p[1..]);
      TemplateFields(rest);
      assert t.Text() == p[0] + ("{}" + rest.Text());
      assert Fields("{}") == 1;
      PairsConcat("{}", rest.Text(), '{', '}');
      PairsConcat(p[0], "{}" + rest.Text(), '{', '}');
    }
  }

  /** Filling every field with `{}` itself gives the template's text back. */
  lemma {:induction false} FormatWithFieldsIsText(t: Template)
    requires |t.pieces| >= 1
    ensures Format(t, Repeat("{}", |t.pieces| - 1)) == t.Text()
    decreases |t.pieces|
  {
    if |t.pieces| > 1 {
      var rest := Template(t.pieces[1..]);
      FormatWithFieldsIsText(rest);
      RepeatCons("{}", |t.pieces| - 1);
    }
  }

  /** The total number of `%s` placeholders in some texts. */
  function SumPlaceholders(texts: seq<string>): nat
  {
    if texts == [] then 0 else Placeholders(texts[0]) + SumPlaceholders(texts[1..])
  }

  /** Text that cannot begin a `%s` across its end. */
  predicate NoTrailingPercent(s: string)
  {
    s == [] || s[|s| - 1] != '%'
  }

  /**
   * Formatting neither creates nor destroys placeholders: the result holds
   * those of the template's pieces plus those of the arguments, provided no
   * piece or argument ends in `%`.
   */
  lemma {:induction false} FormatPlaceholders(t: Template, args: seq<string>)
    requires |t.pieces| == |args| + 1
    requires forall i :: 0 <= i < |t.pieces| ==> NoTrailingPercent(t.pieces[i])
    requires forall i :: 0 <= i < |args| ==> NoTrailingPercent(args[i])
    ensures Placeholders(Format(t, args)) == SumPlaceholders(t.pieces) + SumPlaceholders(args)
    decreases |args|
  {
    if args != [] {
      var rest := Template(t.pieces[1..]);
      var tail := Format(rest, args[1..]);
      FormatPlaceholders(rest, args[1..]);
      assert Format(t, args) == t.pieces[0] + (args[0] + tail);
      PairsConcat(args[0], tail, '%', 's');
      PairsConcat(t.pieces[0], args[0] + tail, '%', 's');
    }
  }

  /** A sequence of texts none of which holds a `%` has no placeholders at all. */
  lemma {:induction false} SumPlaceholdersNone(texts: seq<string>)
    requires forall i :: 0 <= i < |texts| ==> '%' !in texts[i]
    ensures SumPlaceholders(texts) == 0
  {
    if texts != [] {
      NoFirstNoPairs(texts[0], '%', 's');
      SumPlaceholdersNone(texts[1..]);
    }
  }

  /** Placeholders of texts add up across a split of the sequence. */
  lemma {:induction false} SumPlaceholdersConcat(a: seq<string>, b: seq<string>)
    ensures SumPlaceholders(a + b) == SumPlaceholders(a) + SumPlaceholders(b)
  {
    if a != [] {
      assert (a + b)[1..] == a[1..] + b;
      SumPlaceholdersConcat(a[1..], b);
    } else {
      assert a + b == b;
    }
  }

  // ---------------------------------------------------------------- ACTION_SQL_MAP

  /** The one schema every template reads from. */
  const SCHEMA: string := "space_product_aies"
  const FROM_SCHEMA: string := " FROM " + SCHEMA + "."
  const LIMIT: string := " LIMIT %s;"

  const TABLES_SELECT: string := "SELECT table_name"
  const TABLES_FROM: string := " FROM information_schema.tables"
  const TABLES_WHERE: string := " WHERE table_schema = '"
  const FETCH_TABLES: Template :=
    Template([TABLES_SELECT + TABLES_FROM + TABLES_WHERE + SCHEMA + "';"])
  const FETCH_N_RECORDS: Template :=
    Template(["SELECT ", FROM_SCHEMA, "", "", LIMIT])
  const FETCH_N_JOINED_RECORDS: Template :=
    Template(["SELECT ", FROM_SCHEMA, " ", " JOIN " + SCHEMA + ".", " ON ", "", "", LIMIT])
  const FETCH_N_APPENDED_RECORDS: Template :=
    Template(["SELECT ", FROM_SCHEMA, "", " UNION ALL SELECT ", FROM_SCHEMA, "", "", LIMIT])
  const GET_TABLE_SUMMARY: Template :=
    Template(["SELECT COUNT(*) as row_count" + FROM_SCHEMA, ";"])
  const SUMMARIZE_COLUMN: Template :=
    Template(["SELECT ", ", COUNT(*) as count" + FROM_SCHEMA, " GROUP BY ", " ORDER BY count DESC;"])
  const ANALYZE_RELATIONSHIP: Template :=
    Template(["SELECT ", " as ", ", SUM(", ") as ", FROM_SCHEMA, " GROUP BY ", " ORDER BY ", " DESC;"])

  /** The template of each action. */
  const ACTION_SQL_MAP: map<string, Template> := map[
    "fetch_tables" := FETCH_TABLES,
    "fetch_n_records" := FETCH_N_RECORDS,
    "fetch_n_joined_records" := FETCH_N_JOINED_RECORDS,
    "fetch_n_appended_records" := FETCH_N_APPENDED_RECORDS,
    "get_table_summary" := GET_TABLE_SUMMARY,
    "summarize_column" := SUMMARIZE_COLUMN,
    "analyze_relationship" := ANALYZE_RELATIONSHIP
  ]

  /** Literal template text: no brace, no `%`. */
  predicate Inert(s: string)
  {
    forall i :: 0 <= i < |s| ==> s[i] != '{' && s[i] != '}' && s[i] != '%'
  }

  /** The same, as three characters the text does not contain. */
  lemma InertAvoids(s: string)
    requires Inert(s)
    ensures '{' !in s && '}' !in s && '%' !in s
  {
  }

  /** What every template piece satisfies: inert, except for a trailing `LIMIT %s;`. */
  predicate PiecesInert(t: Template)
  {
    && |t.pieces| >= 1
    && (forall i :: 0 <= i < |t.pieces| - 1 ==> Inert(t.pieces[i]))
    && (Inert(t.pieces[|t.pieces| - 1]) || t.pieces[|t.pieces| - 1] == LIMIT)
  }

  /** The facts about a template that follow from its pieces being inert. */
  lemma {:induction false} InertShape(t: Template)
    requires PiecesInert(t)
    ensures t.Valid() && Fields(t.Text()) == |t.pieces| - 1
    ensures forall i :: 0 <= i < |t.pieces| ==> NoTrailingPercent(t.pieces[i])
    ensures SumPlaceholders(t.pieces) == if t.pieces[|t.pieces| - 1] == LIMIT then 1 else 0
  {
    var n := |t.pieces|;
    var front, last := t.pieces[..n - 1], t.pieces[n - 1];
    forall i | 0 <= i < n
      ensures '{' !in t.pieces[i] && '}' !in t.pieces[i] && NoTrailingPercent(t.pieces[i])
    {
      if Inert(t.pieces[i]) {
        InertAvoids(t.pieces[i]);
      } else {
        LimitBraceFree();
      }
    }
    assert t.Valid();
    TemplateFields(t);
    SumPlaceholdersNone(front);
    assert t.pieces == front + [last];
    SumPlaceholdersConcat(front, [last]);
    assert SumPlaceholders([last]) == Placeholders(last);
    if last == LIMIT {
      LimitPlaceholder();
    } else {
      NoFirstNoPairs(last, '%', 's');
    }
  }

  /** The LIMIT piece holds exactly one placeholder. */
  lemma LimitPlaceholder()
    ensures Placeholders(LIMIT) == 1
  {
    assert LIMIT == " LIMIT " + "%s;";
    NoFirstNoPairs(" LIMIT ", '%', 's');
    PairsConcat(" LIMIT ", "%s;", '%', 's');
    assert Pairs("%s;", '%', 's') == 1 + Pairs(";", '%', 's');
  }

  /** The LIMIT piece holds no brace and does not end in `%`. */
  lemma LimitBraceFree()
    ensures '{' !in LIMIT && '}' !in LIMIT && NoTrailingPercent(LIMIT)
  {
    assert forall i :: 0 <= i < |LIMIT| ==> LIMIT[i] != '{' && LIMIT[i] != '}';
  }

  lemma InertConcat(a: string, b: string)
    requires Inert(a) && Inert(b)
    ensures Inert(a + b)
  {
  }

  lemma SchemaInert()
    ensures Inert(SCHEMA) && Inert(FROM_SCHEMA)
  {
    assert Inert(SCHEMA);
    assert Inert(" FROM ") && Inert(".");
    InertConcat(" FROM ", SCHEMA);
    InertConcat(" FROM " + SCHEMA, ".");
  }

  lemma FetchTablesInert()
    ensures PiecesInert(FETCH_TABLES) && |FETCH_TABLES.pieces| == 1
  {
    SchemaInert();
    TablesSelectInert();
    TablesFromInert();
    TablesWhereInert();
    InertConcat(TABLES_SELECT, TABLES_FROM);
    InertConcat(TABLES_SELECT + TABLES_FROM, TABLES_WHERE);
    InertConcat(TABLES_SELECT + TABLES_FROM + TABLES_WHERE, SCHEMA);
    InertConcat(TABLES_SELECT + TABLES_FROM + TABLES_WHERE + SCHEMA, "';");
  }

  lemma TablesSelectInert()
    ensures Inert(TABLES_SELECT)
  {
  }

  lemma TablesFromInert()
    ensures Inert(TABLES_FROM)
  {
  }

  lemma TablesWhereInert()
    ensures Inert(TABLES_WHERE)
  {
  }

  lemma FetchNRecordsInert()
    ensures PiecesInert(FETCH_N_RECORDS) && |FETCH_N_RECORDS.pieces| == 5
  {
    SchemaInert();
  }

  lemma FetchNJoinedRecordsInert()
    ensures PiecesInert(FETCH_N_JOINED_RECORDS) && |FETCH_N_JOINED_RECORDS.pieces| == 8
  {
    SchemaInert();
  }

  lemma FetchNAppendedRecordsInert()
    ensures PiecesInert(FETCH_N_APPENDED_RECORDS) && |FETCH_N_APPENDED_RECORDS.pieces| == 8
  {
    SchemaInert();
  }

  lemma GetTableSummaryInert()
    ensures PiecesInert(GET_TABLE_SUMMARY) && |GET_TABLE_SUMMARY.pieces| == 2
  {
    SchemaInert();
  }

  lemma SummarizeColumnInert()
    ensures PiecesInert(SUMMARIZE_COLUMN) && |SUMMARIZE_COLUMN.pieces| == 4
  {
    SchemaInert();
    assert Inert(", COUNT(*) as count");
    InertConcat(", COUNT(*) as count", FROM_SCHEMA);
    assert Inert(" ORDER BY count DESC;");
  }

  lemma AnalyzeRelationshipInert()
    ensures PiecesInert(ANALYZE_RELATIONSHIP) && |ANALYZE_RELATIONSHIP.pieces| == 8
  {
    SchemaInert();
  }

  /**
   * Every action's template: its `{}` fields number as many as the
   * arguments the executor formats it with, and only the three record
   * fetches carry a `%s`, the one for the LIMIT.
   */
  lemma ActionTemplates()
    ensures FETCH_TABLES.Valid() && FETCH_N_RECORDS.Valid() && FETCH_N_JOINED_RECORDS.Valid()
    ensures FETCH_N_APPENDED_RECORDS.Valid() && GET_TABLE_SUMMARY.Valid() && SUMMARIZE_COLUMN.Valid()
    ensures ANALYZE_RELATIONSHIP.Valid()
    ensures Fields(FETCH_TABLES.Text()) == 0 && SumPlaceholders(FETCH_TABLES.pieces) == 0
    ensures Fields(FETCH_N_RECORDS.Text()) == 4 && SumPlaceholders(FETCH_N_RECORDS.pieces) == 1
    ensures Fields(FETCH_N_JOINED_RECORDS.Text()) == 7 && SumPlaceholders(FETCH_N_JOINED_RECORDS.pieces) == 1
    ensures Fields(FETCH_N_APPENDED_RECORDS.Text()) == 7 && SumPlaceholders(FETCH_N_APPENDED_RECORDS.pieces) == 1
    ensures Fields(GET_TABLE_SUMMARY.Text()) == 1 && SumPlaceholders(GET_TABLE_SUMMARY.pieces) == 0
    ensures Fields(SUMMARIZE_COLUMN.Text()) == 3 && SumPlaceholders(SUMMARIZE_COLUMN.pieces) == 0
    ensures Fields(ANALYZE_RELATIONSHIP.Text()) == 7 && SumPlaceholders(ANALYZE_RELATIONSHIP.pieces) == 0
  {
    FetchTablesInert();
    InertShape(FETCH_TABLES);
    FetchNRecordsInert();
    InertShape(FETCH_N_RECORDS);
    FetchNJoinedRecordsInert();
    InertShape(FETCH_N_JOINED_RECORDS);
    FetchNAppendedRecordsInert();
    InertShape(FETCH_N_APPENDED_RECORDS);
    GetTableSummaryInert();
    InertShape(GET_TABLE_SUMMARY);
    SummarizeColumnInert();
    InertShape(SUMMARIZE_COLUMN);
    AnalyzeRelationshipInert();
    InertShape(ANALYZE_RELATIONSHIP);
  }

  /** `ACTION_SQL_MAP` gives each action the template its branch of the executor fills. */
  lemma ActionSqlMapLookups()
    ensures ACTION_SQL_MAP.Keys == {"fetch_tables", "fetch_n_records", "fetch_n_joined_records", "fetch_n_appended_records",
                                    "get_table_summary", "summarize_column", "analyze_relationship"}
    ensures ACTION_SQL_MAP["fetch_tables"] == FETCH_TABLES
    ensures ACTION_SQL_MAP["fetch_n_records"] == FETCH_N_RECORDS
    ensures ACTION_SQL_MAP["fetch_n_joined_records"] == FETCH_N_JOINED_RECORDS
    ensures ACTION_SQL_MAP["fetch_n_appended_records"] == FETCH_N_APPENDED_RECORDS
    ensures ACTION_SQL_MAP["get_table_summary"] == GET_TABLE_SUMMARY
    ensures ACTION_SQL_MAP["summarize_column"] == SUMMARIZE_COLUMN
    ensures ACTION_SQL_MAP["analyze_relationship"] == ANALYZE_RELATIONSHIP
  {
  }
}
