/**
 * Identifier and condition validation (mcp_server/server/db_layer/validation.py).
 *
 * Every identifier the query layer interpolates into SQL is checked here
 * against the live catalogue first. The catalogue is a parameter: each
 * table's columns in ordinal order, and a flag saying that catalogue
 * queries raise (the database is reachable but the metadata query fails).
 */
module Validation {
  import opened Wrappers
  import opened Text

  /** The `information_schema.columns` view of one schema. */
  datatype Catalog = Catalog(tables: map<string, seq<string>>, unreachable: bool)
  {
    /** The catalogue query's rows: the table's columns in ordinal order, none for an unknown table. */
    function Available(table: string): seq<string>
    {
      if table in tables then tables[table] else []
    }
  }

  /** The ValueErrors the validators raise, each carrying the values its message interpolates. */
  datatype ValidationError =
    | UnknownColumn(column: string, table: string, available: seq<string>)
    | InvalidJoinType(joinType: string)
    | InvalidDirection(direction: string)
    | UnknownTablePrefix(prefix: string, table1: string, table2: string)
    | AmbiguousColumn(column: string, table1: string, table2: string)
    | NotInEitherTable(column: string, table1: string, table2: string)
    | InvalidOperator(operator: string)
    | BetweenNeedsTwoValues
    | InNeedsValues
    | PatternNeedsValue(operator: string)
    | OperatorNeedsValue(operator: string)

  /**
   * What a validator raises: a ValueError, or the TypeError of testing
   * `"." in column` when the dictionary names no column.
   */
  datatype Fault = Invalid(error: ValidationError) | MissingColumnName

  // ---------------------------------------------------------------- validate_columns

  /** The requested names the table has, in request order, duplicates kept. */
  function Keep(requested: seq<string>, available: seq<string>): (kept: seq<string>)
    ensures forall c :: c in kept <==> c in requested && c in available
    ensures kept == [] <==> forall c :: c in requested ==> c !in available
    ensures |kept| <= |requested|
  {
    if requested == [] then []
    else
      var last := requested[|requested| - 1];
      var front := requested[..|requested| - 1];
      assert requested == front + [last];
      Keep(front, available) + (if last in available then [last] else [])
  }

  /** Filtering distributes over concatenation: each part keeps its own survivors, in order. */
  lemma {:induction false} KeepConcat(a: seq<string>, b: seq<string>, available: seq<string>)
    ensures Keep(a + b, available) == Keep(a, available) + Keep(b, available)
    decreases |b|
  {
    if b != [] {
      var front := b[..|b| - 1];
      assert a + b == (a + front) + [b[|b| - 1]];
      assert (a + b)[..|a + b| - 1] == a + front;
      KeepConcat(a, front, available);
    } else {
      assert a + b == a;
    }
  }

  /** Every occurrence of a catalogue column survives, every other name is dropped. */
  lemma {:induction false} KeepCounts(requested: seq<string>, available: seq<string>, c: string)
    ensures multiset(Keep(requested, available))[c] == if c in available then multiset(requested)[c] else 0
  {
    if requested != [] {
      var front := requested[..|requested| - 1];
      var last := requested[|requested| - 1];
      assert requested == front + [last];
      KeepCounts(front, available, c);
    }
  }

  /** `validate_columns(table, requested)`. */
  function ValidColumns(cat: Catalog, table: string, requested: seq<string>): (r: seq<string>)
    ensures cat.unreachable ==> r == ["*"]
    ensures !cat.unreachable ==> forall c :: c in r ==> c in cat.Available(table)
    ensures !cat.unreachable && cat.Available(table) != [] ==> r != []
  {
    if cat.unreachable then ["*"]
    else
      var available := cat.Available(table);
      if requested == [] then available
      else
        var valid := Keep(requested, available);
        if valid != [] then valid else available
  }

  /**
   * What `validate_columns` returns when the catalogue answers: the whole
   * catalogue list for an empty request, else the surviving names, else
   * (nothing survived) the whole list again.
   */
  lemma ValidColumnsCases(cat: Catalog, table: string, requested: seq<string>)
    requires !cat.unreachable
    ensures requested == [] ==> ValidColumns(cat, table, requested) == cat.Available(table)
    ensures table !in cat.tables ==> ValidColumns(cat, table, requested) == []
    ensures requested != [] && (exists c :: c in requested && c in cat.Available(table)) ==>
      ValidColumns(cat, table, requested) == Keep(requested, cat.Available(table))
    ensures (forall c :: c in requested ==> c !in cat.Available(table)) ==>
      ValidColumns(cat, table, requested) == cat.Available(table)
  {
  }

  /** The loop of `validate_columns`: keep each requested name the catalogue lists, then fall back. */
  method ValidateColumns(cat: Catalog, table: string, requested: seq<string>) returns (r: seq<string>)
    ensures r == ValidColumns(cat, table, requested)
  {
    if cat.unreachable {
      return ["*"];
    }
    var available := cat.Available(table);
    if requested == [] {
      return available;
    }
    var valid := [];
    var i := 0;
    while i < |requested|
      invariant 0 <= i <= |requested|
      invariant valid == Keep(requested[..i], available)
    {
      var col := requested[i];
      assert requested[..i + 1][..i] == requested[..i];
      assert Keep(requested[..i + 1], available) == valid + (if col in available then [col] else []);
      if col in available {
        valid := valid + [col];
      }
      i := i + 1;
    }
    assert requested[..i] == requested;
    r := if valid != [] then valid else available;
  }

  // ---------------------------------------------------------------- validate_join_columns

  /** The `join_columns` dictionary: which column of each table to join on. */
  datatype JoinColumns = JoinColumns(table1Column: Option<string>, table2Column: Option<string>)

  /** `validate_join_columns`: both sides default to `id`; table1's side is checked first. */
  function ValidateJoinColumns(cat: Catalog, table1: string, table2: string, jc: JoinColumns)
    : (r: Result<(string, string), ValidationError>)
    ensures var c1, c2 := jc.table1Column.GetOr("id"), jc.table2Column.GetOr("id");
      && (r.Success? <==> c1 in ValidColumns(cat, table1, []) && c2 in ValidColumns(cat, table2, []))
      && (r.Success? ==> r.value == (c1, c2))
      && (c1 !in ValidColumns(cat, table1, []) ==> r == Failure(UnknownColumn(c1, table1, ValidColumns(cat, table1, []))))
      && (c1 in ValidColumns(cat, table1, []) && c2 !in ValidColumns(cat, table2, []) ==>
            r == Failure(UnknownColumn(c2, table2, ValidColumns(cat, table2, []))))
  {
    var c1 := jc.table1Column.GetOr("id");
    var c2 := jc.table2Column.GetOr("id");
    var columns1 := ValidColumns(cat, table1, []);
    if c1 !in columns1 then Failure(UnknownColumn(c1, table1, columns1))
    else
      var columns2 := ValidColumns(cat, table2, []);
      if c2 !in columns2 then Failure(UnknownColumn(c2, table2, columns2))
      else Success((c1, c2))
  }

  // ---------------------------------------------------------------- validate_join_type

  const JOIN_TYPES: seq<string> := ["INNER", "LEFT", "RIGHT", "FULL", "FULL OUTER"]

  /** `validate_join_type`: upper-case, strip, and accept only the five join kinds. */
  function ValidateJoinType(joinType: string): (r: Result<string, ValidationError>)
    ensures r.Success? <==> Strip(Upper(joinType)) in JOIN_TYPES
    ensures r.Success? ==> r.value in JOIN_TYPES && r.value == Strip(Upper(joinType))
    ensures r.Failure? ==> r.error == InvalidJoinType(joinType)
  {
    var normalized := Strip(Upper(joinType));
    if normalized !in JOIN_TYPES then Failure(InvalidJoinType(joinType)) else Success(normalized)
  }

  /** Each join kind is already upper-case and stripped. */
  lemma JoinTypesNormal(t: string)
    requires t in JOIN_TYPES
    ensures NoLowerCase(t) && Trimmed(t)
  {
    assert t == "INNER" || t == "LEFT" || t == "RIGHT" || t == "FULL" || t == "FULL OUTER";
  }

  /** Normalising an accepted join type again returns it unchanged. */
  lemma JoinTypeIdempotent(joinType: string)
    requires ValidateJoinType(joinType).Success?
    ensures ValidateJoinType(ValidateJoinType(joinType).value) == ValidateJoinType(joinType)
  {
    var t := ValidateJoinType(joinType).value;
    JoinTypesNormal(t);
    UpperFixes(t);
    StripFixes(t);
  }

  // ---------------------------------------------------------------- validate_order_by

  /** The `order_by` dictionary. */
  datatype OrderBy = OrderBy(column: Option<string>, direction: Option<string>)

  const DIRECTIONS: seq<string> := ["ASC", "DESC"]

  /** `order_by.get("direction", "ASC").upper()`. */
  function Direction(ob: OrderBy): string
  {
    Upper(ob.direction.GetOr("ASC"))
  }

  /** The name a possibly table-prefixed column is checked under: its last dot-segment. */
  function ColumnKey(column: string): (key: string)
    ensures '.' !in key
    ensures '.' !in column ==> key == column
  {
    if '.' in column then LastSegment(column, '.') else column
  }

  /** `validate_order_by`: the column's last segment must be a column of the table, then the direction is checked. */
  function ValidateOrderBy(cat: Catalog, table: string, ob: OrderBy): (r: Result<string, Fault>)
    ensures ob.column.None? ==> r == Failure(MissingColumnName)
    ensures ob.column.Some? ==>
      (r.Success? <==> ColumnKey(ob.column.value) in ValidColumns(cat, table, []) && Direction(ob) in DIRECTIONS)
    ensures ob.column.Some? && ColumnKey(ob.column.value) !in ValidColumns(cat, table, []) ==>
      r == Failure(Invalid(UnknownColumn(ob.column.value, table, ValidColumns(cat, table, []))))
    ensures r.Success? ==> r.value == "ORDER BY " + ob.column.value + " " + Direction(ob)
  {
    match ob.column
    case None => Failure(MissingColumnName)
    case Some(column) =>
      var direction := Direction(ob);
      var available := ValidColumns(cat, table, []);
      if ColumnKey(column) !in available then Failure(Invalid(UnknownColumn(column, table, available)))
      else if direction !in DIRECTIONS then Failure(Invalid(InvalidDirection(direction)))
      else Success("ORDER BY " + column + " " + direction)
  }

  /** The prefix of an ORDER BY column is never checked: `anything.name` is accepted exactly when `name` is. */
  lemma OrderByPrefixUnchecked(cat: Catalog, table: string, prefix: string, name: string, direction: Option<string>)
    requires '.' !in name
    ensures ValidateOrderBy(cat, table, OrderBy(Some(prefix + "." + name), direction)).Success?
        == ValidateOrderBy(cat, table, OrderBy(Some(name), direction)).Success?
  {
    LastSegmentOfQualified(prefix, '.', name);
  }

  // ---------------------------------------------------------------- validate_order_by_for_join

  /**
   * The column part of `validate_order_by_for_join`: a prefixed column must
   * name one of the two tables and a column of it; an unprefixed one must
   * belong to exactly one table and is qualified with that table's name.
   */
  function ResolveJoinOrderColumn(cat: Catalog, table1: string, table2: string, column: string)
    : (r: Result<string, ValidationError>)
    ensures '.' in column ==> (r.Success? ==> r.value == column)
    ensures '.' !in column ==>
      var in1, in2 := column in ValidColumns(cat, table1, []), column in ValidColumns(cat, table2, []);
      && (in1 && in2 ==> r == Failure(AmbiguousColumn(column, table1, table2)))
      && (in1 && !in2 ==> r == Success(table1 + "." + column))
      && (!in1 && in2 ==> r == Success(table2 + "." + column))
      && (!in1 && !in2 ==> r == Failure(NotInEitherTable(column, table1, table2)))
  {
    if '.' in column then
      SplitParts(column, '.');
      var parts := Split(column, '.');
      var prefix, name := parts[0], parts[1];
      if prefix == table1 then
        var columns1 := ValidColumns(cat, table1, []);
        if name !in columns1 then Failure(UnknownColumn(column, table1, columns1)) else Success(column)
      else if prefix == table2 then
        var columns2 := ValidColumns(cat, table2, []);
        if name !in columns2 then Failure(UnknownColumn(column, table2, columns2)) else Success(column)
      else Failure(UnknownTablePrefix(prefix, table1, table2))
    else
      var columns1 := ValidColumns(cat, table1, []);
      var columns2 := ValidColumns(cat, table2, []);
      if column in columns1 && column in columns2 then Failure(AmbiguousColumn(column, table1, table2))
      else if column in columns1 then Success(table1 + "." + column)
      else if column in columns2 then Success(table2 + "." + column)
      else Failure(NotInEitherTable(column, table1, table2))
  }

  /** A prefixed ORDER BY column `t.c` resolves iff `t` is table1 (checked first) or table2 and `c` is a column of it. */
  lemma ResolvePrefixed(cat: Catalog, table1: string, table2: string, prefix: string, name: string)
    requires '.' !in prefix && '.' !in name
    ensures var r := ResolveJoinOrderColumn(cat, table1, table2, prefix + "." + name);
      && (prefix == table1 ==> (r.Success? <==> name in ValidColumns(cat, table1, [])))
      && (prefix != table1 && prefix == table2 ==> (r.Success? <==> name in ValidColumns(cat, table2, [])))
      && (prefix != table1 && prefix != table2 ==> r == Failure(UnknownTablePrefix(prefix, table1, table2)))
  {
    QualifiedSegments(prefix, '.', name);
  }

  /**
   * A column with more than one dot, `t.c.rest`, is judged by its first two
   * segments only: `c` is looked up in table `t`, and whatever follows the
   * second dot is never checked but kept in the clause.
   */
  lemma ResolvePrefixedIgnoresTail(cat: Catalog, table1: string, table2: string, prefix: string, name: string, rest: string)
    requires '.' !in prefix && '.' !in name
    ensures var r := ResolveJoinOrderColumn(cat, table1, table2, prefix + "." + name + "." + rest);
      && (prefix == table1 ==> (r.Success? <==> name in ValidColumns(cat, table1, [])))
      && (prefix != table1 && prefix == table2 ==> (r.Success? <==> name in ValidColumns(cat, table2, [])))
      && (prefix != table1 && prefix != table2 ==> r == Failure(UnknownTablePrefix(prefix, table1, table2)))
      && (r.Success? ==> r.value == prefix + "." + name + "." + rest)
  {
    var column := prefix + "." + name + "." + rest;
    assert column == prefix + ['.'] + (name + ['.'] + rest);
    SplitAround(prefix, '.', name + ['.'] + rest);
    SplitAround(name, '.', rest);
    SplitParts(prefix, '.');
    SplitParts(name, '.');
    assert Split(column, '.')[0] == prefix && Split(column, '.')[1] == name;
  }

  /** `validate_order_by_for_join`. */
  function ValidateOrderByForJoin(cat: Catalog, table1: string, table2: string, ob: OrderBy)
    : (r: Result<string, Fault>)
    ensures ob.column.None? ==> r == Failure(MissingColumnName)
    ensures ob.column.Some? ==>
      var resolved := ResolveJoinOrderColumn(cat, table1, table2, ob.column.value);
      && (resolved.Failure? ==> r == Failure(Invalid(resolved.error)))
      && (resolved.Success? ==> (r.Success? <==> Direction(ob) in DIRECTIONS))
      && (r.Success? ==> r.value == "ORDER BY " + resolved.value + " " + Direction(ob))
  {
    match ob.column
    case None => Failure(MissingColumnName)
    case Some(column) =>
      var direction := Direction(ob);
      var resolved := ResolveJoinOrderColumn(cat, table1, table2, column);
      if resolved.Failure? then Failure(Invalid(resolved.error))
      else if direction !in DIRECTIONS then Failure(Invalid(InvalidDirection(direction)))
      else Success("ORDER BY " + resolved.value + " " + direction)
  }

  // ---------------------------------------------------------------- parse_condition

  /** The condition dictionary; `values` is `[]` when absent and `value` is `None` when absent or null. */
  datatype Condition<V> = Condition(column: Option<string>, operator: Option<string>, value: Option<V>, values: seq<V>)
  {
    /** `condition.get("operator", "=")`. */
    function Operator(): string
    {
      operator.GetOr("=")
    }

    /** The same condition with every value passed through `f`. */
    function MapValues<W>(f: V -> W): Condition<W>
    {
      Condition(column, operator, if value.Some? then Some(f(value.value)) else None, SeqMap(f, values))
    }
  }

  function SeqMap<V, W>(f: V -> W, s: seq<V>): (r: seq<W>)
    ensures |r| == |s| && forall i :: 0 <= i < |s| ==> r[i] == f(s[i])
  {
    seq(|s|, i requires 0 <= i < |s| => f(s[i]))
  }

  const OPERATORS: seq<string> := [">", "<", ">=", "<=", "=", "!=", "LIKE", "ILIKE", "BETWEEN", "IN", "IS NULL", "IS NOT NULL"]
  const NULL_CHECKS: seq<string> := ["IS NULL", "IS NOT NULL"]
  const PATTERN_MATCHES: seq<string> := ["LIKE", "ILIKE"]

  /** The placeholder list of an IN clause: `", ".join(["%s"] * n)`. */
  function InPlaceholders(n: nat): string
  {
    Join(Repeat("%s", n), ", ")
  }

  /** What the operator demands of `value` / `values`. */
  predicate ArityOk<V>(operator: string, value: Option<V>, values: seq<V>)
  {
    if operator in NULL_CHECKS then true
    else if operator == "BETWEEN" then |values| == 2
    else if operator == "IN" then |values| >= 1
    else value.Some?
  }

  /** The bound parameters the operator takes from the condition. */
  function ExpectedParams<V>(operator: string, value: Option<V>, values: seq<V>): seq<V>
    requires ArityOk(operator, value, values)
  {
    if operator in NULL_CHECKS then []
    else if operator == "BETWEEN" || operator == "IN" then values
    else [value.value]
  }

  /** The operator-specific part of the clause, after the column text. */
  function Predicate(operator: string, count: nat): string
  {
    if operator in NULL_CHECKS then " " + operator
    else if operator == "BETWEEN" then " BETWEEN %s" + " AND %s"
    else if operator == "IN" then " IN (" + InPlaceholders(count) + ")"
    else " " + operator + " %s"
  }

  /** The arity error for an operator whose value requirement is not met. */
  function ArityError(operator: string): ValidationError
  {
    if operator == "BETWEEN" then BetweenNeedsTwoValues
    else if operator == "IN" then InNeedsValues
    else if operator in PATTERN_MATCHES then PatternNeedsValue(operator)
    else OperatorNeedsValue(operator)
  }

  /**
   * `parse_condition(condition, table)`: a WHERE fragment that keeps the
   * column text as given, and the values it binds. The column is checked
   * by its last segment, then the operator, then the operator's arity.
   */
  function ParseCondition<V>(cat: Catalog, cond: Condition<V>, table: string): (r: Result<(string, seq<V>), Fault>)
    ensures cond.column.None? ==> r == Failure(MissingColumnName)
    ensures cond.column.Some? ==>
      var column, op := cond.column.value, cond.Operator();
      && (r.Success? <==> ColumnKey(column) in ValidColumns(cat, table, []) && op in OPERATORS && ArityOk(op, cond.value, cond.values))
      && (ColumnKey(column) !in ValidColumns(cat, table, []) ==>
            r == Failure(Invalid(UnknownColumn(column, table, ValidColumns(cat, table, [])))))
      && (ColumnKey(column) in ValidColumns(cat, table, []) && op !in OPERATORS ==> r == Failure(Invalid(InvalidOperator(op))))
      && (r.Success? ==> r.value.1 == ExpectedParams(op, cond.value, cond.values)
                         && r.value.0 == column + Predicate(op, |cond.values|))
  {
    match cond.column
    case None => Failure(MissingColumnName)
    case Some(column) =>
      var op := cond.Operator();
      var available := ValidColumns(cat, table, []);
      if ColumnKey(column) !in available then Failure(Invalid(UnknownColumn(column, table, available)))
      else if op !in OPERATORS then Failure(Invalid(InvalidOperator(op)))
      else if op in NULL_CHECKS then Success((column + " " + op, []))
      else if op == "BETWEEN" then
        if |cond.values| != 2 then Failure(Invalid(BetweenNeedsTwoValues))
        else Success((column + (" BETWEEN %s" + " AND %s"), cond.values))
      else if op == "IN" then
        if cond.values == [] then Failure(Invalid(InNeedsValues))
        else Success((column + " IN (" + InPlaceholders(|cond.values|) + ")", cond.values))
      else if op in PATTERN_MATCHES then
        if cond.value.None? then Failure(Invalid(PatternNeedsValue(op)))
        else Success((column + " " + op + " %s", [cond.value.value]))
      else
        if cond.value.None? then Failure(Invalid(OperatorNeedsValue(op)))
        else Success((column + " " + op + " %s", [cond.value.value]))
  }

  /** A known column and operator with the wrong number of values fails with that operator's arity error. */
  lemma ParseConditionArity<V>(cat: Catalog, cond: Condition<V>, table: string)
    requires cond.column.Some? && ColumnKey(cond.column.value) in ValidColumns(cat, table, [])
    requires cond.Operator() in OPERATORS && !ArityOk(cond.Operator(), cond.value, cond.values)
    ensures ParseCondition(cat, cond, table) == Failure(Invalid(ArityError(cond.Operator())))
  {
  }

  /** The IN placeholder list holds exactly `n` placeholders and ends in `s`. */
  lemma {:induction false} InPlaceholdersCount(n: nat)
    ensures Placeholders(InPlaceholders(n)) == n
    ensures n > 0 ==> InPlaceholders(n)[|InPlaceholders(n)| - 1] == 's'
  {
    if n > 1 {
      InPlaceholdersCount(n - 1);
      var rest := Repeat("%s", n - 1);
      assert Repeat("%s", n) == ["%s"] + rest by {
        RepeatCons("%s", n);
      }
      assert InPlaceholders(n) == "%s" + ", " + InPlaceholders(n - 1);
      assert "%s" + ", " + InPlaceholders(n - 1) == "%s, " + InPlaceholders(n - 1);
      assert Placeholders("%s, ") == 1;
      PairsConcat("%s, ", InPlaceholders(n - 1), '%', 's');
    } else if n == 1 {
      assert Repeat("%s", 1) == ["%s"];
      assert Placeholders("%s") == 1;
    }
  }

  /** The operator text of every operator other than IN and BETWEEN holds no `%`. */
  lemma OperatorsHaveNoPercent(op: string)
    requires op in OPERATORS
    ensures '%' !in op
  {
  }

  /** The placeholders of the operator part of a clause: none, two, one per IN value, or one. */
  lemma PredicatePlaceholders(op: string, count: nat)
    requires op in OPERATORS
    ensures Placeholders(Predicate(op, count))
         == if op in NULL_CHECKS then 0 else if op == "BETWEEN" then 2 else if op == "IN" then count else 1
  {
    if op in NULL_CHECKS {
      NullCheckPlaceholders(op);
    } else if op == "BETWEEN" {
      BetweenPlaceholders();
    } else if op == "IN" {
      InListPlaceholders(count);
    } else {
      OperatorsHaveNoPercent(op);
      ComparisonPlaceholders(op);
    }
  }

  lemma BetweenPlaceholders()
    ensures Placeholders(" BETWEEN %s" + " AND %s") == 2
  {
    assert " BETWEEN %s" == " BETWEEN " + "%s" + "";
    assert " AND %s" == " AND " + "%s" + "";
    OnePlaceholder(" BETWEEN ", "");
    OnePlaceholder(" AND ", "");
    PairsConcat(" BETWEEN %s", " AND %s", '%', 's');
  }

  lemma NullCheckPlaceholders(op: string)
    requires op in NULL_CHECKS
    ensures Placeholders(" " + op) == 0
  {
    assert '%' !in " " + op;
    NoFirstNoPairs(" " + op, '%', 's');
  }

  lemma InListPlaceholders(count: nat)
    ensures Placeholders(" IN (" + InPlaceholders(count) + ")") == count
  {
    var list := InPlaceholders(count);
    InPlaceholdersCount(count);
    assert Placeholders(" IN (") == 0;
    assert Placeholders(")") == 0;
    PairsConcat(" IN (", list + ")", '%', 's');
    PairsConcat(list, ")", '%', 's');
    assert " IN (" + list + ")" == " IN (" + (list + ")");
  }

  lemma ComparisonPlaceholders(op: string)
    requires '%' !in op
    ensures Placeholders(" " + op + " %s") == 1
  {
    assert '%' !in " " + op;
    OnePlaceholder(" " + op + " ", "");
    assert " " + op + " " + "%s" + "" == " " + op + " %s";
  }

  /**
   * Parameter binding is exact: the emitted clause holds the placeholders
   * of the column text itself plus one per bound parameter. So a column
   * without `%s` yields exactly as many placeholders as parameters.
   */
  lemma ParseConditionPlaceholders<V>(cat: Catalog, cond: Condition<V>, table: string)
    requires ParseCondition(cat, cond, table).Success?
    ensures var (clause, params) := ParseCondition(cat, cond, table).value;
      Placeholders(clause) == Placeholders(cond.column.value) + |params|
  {
    var column, op := cond.column.value, cond.Operator();
    var tail := Predicate(op, |cond.values|);
    assert tail[0] == ' ';
    PairsConcat(column, tail, '%', 's');
    PredicatePlaceholders(op, |cond.values|);
  }

  /**
   * Values never reach the SQL text: transforming every value of a
   * condition leaves the outcome and the clause unchanged and transforms
   * the bound parameters the same way.
   */
  lemma ParseConditionIgnoresValues<V, W>(cat: Catalog, cond: Condition<V>, table: string, f: V -> W)
    ensures var r, s := ParseCondition(cat, cond, table), ParseCondition(cat, cond.MapValues(f), table);
      && (r.Success? <==> s.Success?)
      && (r.Failure? ==> s.error == r.error)
      && (r.Success? ==> s.value.0 == r.value.0 && s.value.1 == SeqMap(f, r.value.1))
  {
  }
}
