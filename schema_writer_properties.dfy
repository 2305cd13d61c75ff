/** What the schema-writer builders promise across calls: a column renders the
    same whichever way its type is declared and in whichever statement it
    appears, the key constraint follows the key columns, guarded drops probe
    the catalog for exactly the object they drop, and the catalog listings
    compose by INTERSECT. */
module SchemaWriterProperties {
  import opened Wrappers
  import opened Text
  import opened Schema
  import opened SchemaWriter

  // ---------------------------------------------------------------------
  // Column clauses

  /** A column declared by CLR type renders exactly like the same column
      declared by the SqlDbType it is stored as. */
  lemma SqlTypedClauseAgrees(c: Column)
    ensures ColumnClause(ToSqlTyped(c)) == ColumnClause(c)
  {
    var d := ToSqlTyped(c);
    assert TypeName(d) == TypeName(c);
    assert IdentityClause(d) == IdentityClause(c);
    assert DefaultClause(d) == DefaultClause(c);
  }

  /** Every column of a list declared by its SqlDbType. */
  function SqlTypedColumns(cols: seq<Column>): (r: seq<Column>)
    ensures |r| == |cols|
    ensures forall i :: 0 <= i < |cols| ==> r[i] == ToSqlTyped(cols[i])
  {
    seq(|cols|, i requires 0 <= i < |cols| => ToSqlTyped(cols[i]))
  }

  lemma SqlTypedKeyColumns(cols: seq<Column>)
    ensures |KeyColumns(SqlTypedColumns(cols))| == |KeyColumns(cols)|
    ensures forall i :: 0 <= i < |KeyColumns(cols)| ==>
      KeyColumns(SqlTypedColumns(cols))[i] == ToSqlTyped(KeyColumns(cols)[i])
  {
    SqlTypedKeyList(cols);
  }

  lemma {:induction false} SqlTypedKeyList(cols: seq<Column>)
    ensures KeyColumns(SqlTypedColumns(cols)) == SqlTypedColumns(KeyColumns(cols))
  {
    if cols != [] {
      var sql := SqlTypedColumns(cols);
      assert sql[0] == ToSqlTyped(cols[0]);
      assert sql[1..] == SqlTypedColumns(cols[1..]);
      SqlTypedKeyList(cols[1..]);
      var keys := KeyColumns(cols[1..]);
      if IsKey(cols[0]) {
        assert KeyColumns(cols) == [cols[0]] + keys;
        assert SqlTypedColumns([cols[0]] + keys) == [ToSqlTyped(cols[0])] + SqlTypedColumns(keys);
      } else {
        assert KeyColumns(cols) == keys;
      }
    }
  }

  lemma {:induction false} SqlTypedClauses(cols: seq<Column>)
    ensures ColumnClauses(SqlTypedColumns(cols)) == ColumnClauses(cols)
  {
    if cols != [] {
      var sql := SqlTypedColumns(cols);
      assert sql[1..] == SqlTypedColumns(cols[1..]);
      SqlTypedClauseAgrees(cols[0]);
      SqlTypedClauses(cols[1..]);
    }
  }

  /** CREATE TABLE over CLR-typed columns and over the same columns typed by
      SqlDbType yields the same statement (or the same error). */
  lemma SqlTypedTableAgrees(table: string, cols: seq<Column>)
    ensures CreateTable(table, SqlTypedColumns(cols)) == CreateTable(table, cols)
  {
    SqlTypedClauses(cols);
    SqlTypedKeyColumns(cols);
    if |KeyColumns(cols)| == 1 {
      var k := KeyColumns(cols)[0];
      assert KeyConstraint(table, ToSqlTyped(k)) == KeyConstraint(table, k);
      assert PrimaryKeyClause(table, SqlTypedColumns(cols)) == PrimaryKeyClause(table, cols);
    } else {
      assert PrimaryKeyClause(table, SqlTypedColumns(cols)) == PrimaryKeyClause(table, cols);
    }
  }

  /** A computed column renders its name and expression only: its type,
      nullability, identity, generation and default play no part. */
  lemma ComputedClauseIgnoresStorage(c: Column, columnType: ColumnType, isNullable: bool, isIdentity: bool,
                                     isAutoGenerated: bool, defaultValue: Option<Literal>)
    requires c.computation.Some?
    ensures ColumnClause(c.(columnType := columnType, isNullable := isNullable, isIdentity := isIdentity,
                            isAutoGenerated := isAutoGenerated, defaultValue := defaultValue))
         == ColumnClause(c)
    ensures ColumnClause(c).Ok?
  {
  }

  /** A persisted computation always ends in PERSISTED NOT NULL, whatever
      the column's declared nullability; an unpersisted one ends with its
      expression's closing parenthesis. */
  lemma ComputedClauseEnding(c: Column)
    requires c.computation.Some?
    ensures var text := ColumnClause(c).value;
      c.computationPersisted ==>
        |text| >= 19 && text[|text| - 19..] == " PERSISTED NOT NULL"
    ensures var text := ColumnClause(c).value;
      !c.computationPersisted ==> text == Bracket(c.name) + " AS (" + c.computation.value + ")"
  {
    var text := ColumnClause(c).value;
    var head := Bracket(c.name) + " AS (" + c.computation.value + ")";
    if c.computationPersisted {
      assert text == head + " PERSISTED NOT NULL";
      assert text[|head|..] == " PERSISTED NOT NULL";
    } else {
      assert text == head + "";
    }
  }

  /** A default that renders is DEFAULT followed by its value: the generator
      function of a uniqueidentifier (the next sequential GUID) or a datetime
      (the current date), or the bit literal as the digit 1 or 0. */
  lemma DefaultClauseText(c: Column)
    requires DefaultClause(c).Ok? && DefaultClause(c).value != ""
    ensures var v := DefaultClause(c).value;
      |v| > 9 && v[..9] == " DEFAULT "
    ensures var v := DefaultClause(c).value;
      c.isAutoGenerated && StorageType(c.columnType) == UniqueIdentifier ==> v[9..] == "NEWSEQUENTIALID()"
    ensures var v := DefaultClause(c).value;
      c.isAutoGenerated && StorageType(c.columnType) == SqlDbType.DateTime ==> v[9..] == "GETDATE()"
    ensures var v := DefaultClause(c).value;
      c.defaultValue.Some? ==> v[9..] == NatToString(if c.defaultValue.value.b then 1 else 0)
  {
    assert NatToString(1) == "1" && NatToString(0) == "0";
  }

  /** Nullability changes a stored column's clause only by the word NOT:
      the clause of the column that is not nullable is that of the nullable
      one with " NOT" inserted before its " NULL" marker, which sits right
      before the default. */
  lemma NullabilityInsertsNot(c: Column)
    requires c.computation.None? && Supported(c)
    ensures ColumnClause(c.(isNullable := true)).Ok? && ColumnClause(c.(isNullable := false)).Ok?
    ensures var n := ColumnClause(c.(isNullable := true)).value;
      var m := ColumnClause(c.(isNullable := false)).value;
      var k := |n| - |DefaultClause(c).value| - 5;
      0 <= k && m == n[..k] + " NOT" + n[k..]
  {
    NullabilityLayout(c, true);
    NullabilityLayout(c, false);
    InsertNot(Bracket(c.name) + " " + TypeName(c).value + IdentityClause(c).value, DefaultClause(c).value);
  }

  lemma NullabilityLayout(c: Column, nullable: bool)
    requires c.computation.None? && Supported(c)
    ensures ColumnClause(c.(isNullable := nullable)).Ok?
    ensures ColumnClause(c.(isNullable := nullable)).value ==
      Bracket(c.name) + " " + TypeName(c).value + IdentityClause(c).value + NullClause(nullable) + DefaultClause(c).value
  {
    var d := c.(isNullable := nullable);
    assert TypeName(d) == TypeName(c);
    assert IdentityClause(d) == IdentityClause(c);
    assert DefaultClause(d) == DefaultClause(c);
  }

  lemma InsertNot(p: string, d: string)
    ensures var n := p + " NULL" + d;
      |n| - |d| - 5 == |p| && p + " NOT NULL" + d == n[..|p|] + " NOT" + n[|p|..]
  {
    var n := p + " NULL" + d;
    assert n[..|p|] == p;
    assert n[|p|..] == " NULL" + d;
    assert " NOT NULL" == " NOT" + " NULL";
  }

  /** Two decimal columns with a precision render the same type name only
      when their precision and scale agree. */
  lemma DecimalTypeNameInjective(c: Column, d: Column)
    requires StorageType(c.columnType) == SqlDbType.Decimal && StorageType(d.columnType) == SqlDbType.Decimal
    requires c.precision.Some? && d.precision.Some?
    requires TypeName(c) == TypeName(d)
    ensures c.precision == d.precision && c.scale == d.scale
  {
    var x := DecimalTail(c);
    var y := DecimalTail(d);
    DecimalTypeNameSplits(c);
    DecimalTypeNameSplits(d);
    DigitsThenNonDigit("decimal (", NatToString(c.precision.value), x, NatToString(d.precision.value), y);
    NatToStringInjective(c.precision.value, d.precision.value);
    if c.scale.Some? && d.scale.Some? {
      SplicedInjective(", ", ")", NatToString(c.scale.value), NatToString(d.scale.value));
      NatToStringInjective(c.scale.value, d.scale.value);
    }
  }

  /** What follows the precision digits in a decimal type name. */
  function DecimalTail(c: Column): (tail: string)
    ensures tail != [] && (tail[0] == ',' <==> c.scale.Some?) && !IsDigit(tail[0])
  {
    if c.scale.Some? then ", " + NatToString(c.scale.value) + ")" else ")"
  }

  lemma DecimalTypeNameSplits(c: Column)
    requires StorageType(c.columnType) == SqlDbType.Decimal && c.precision.Some?
    ensures TypeName(c) == Ok("decimal (" + NatToString(c.precision.value) + DecimalTail(c))
  {
    if c.scale.Some? {
      ConcatAssociates("decimal (" + NatToString(c.precision.value), ", " + NatToString(c.scale.value), ")");
      ConcatAssociates("decimal (" + NatToString(c.precision.value), ", ", NatToString(c.scale.value));
    }
  }

  /** Two texts that agree, each a common lead, a run of digits and a rest
      starting with a non-digit, agree on the digits and on the rest. */
  lemma DigitsThenNonDigit(lead: string, p: string, x: string, q: string, y: string)
    requires lead + p + x == lead + q + y
    requires forall i :: 0 <= i < |p| ==> IsDigit(p[i])
    requires forall i :: 0 <= i < |q| ==> IsDigit(q[i])
    requires x != [] && !IsDigit(x[0]) && y != [] && !IsDigit(y[0])
    ensures p == q && x == y
  {
    var r := (lead + p + x)[|lead|..];
    assert r == p + x;
    assert r == q + y by {
      assert (lead + q + y)[|lead|..] == q + y;
    }
    assert r[..|p|] == p && r[|p|] == x[0];
    assert r[..|q|] == q && r[|q|] == y[0];
    DigitsPrefixEqual(r, p, q);
    assert x == r[|p|..] == y;
  }

  /** When one string of digits followed by a non-digit starts each of two
      equal texts, the digit strings are equal. */
  lemma DigitsPrefixEqual(r: string, p: string, q: string)
    requires |p| < |r| && |q| < |r| && r[..|p|] == p && r[..|q|] == q
    requires forall i :: 0 <= i < |p| ==> IsDigit(p[i])
    requires forall i :: 0 <= i < |q| ==> IsDigit(q[i])
    requires !IsDigit(r[|p|]) && !IsDigit(r[|q|])
    ensures p == q
  {
    LeadingDigits(r, p);
    LeadingDigits(r, q);
  }

  /** The length of the run of digits a text starts with. */
  function DigitRun(r: string): (n: nat)
    ensures n <= |r|
  {
    if r == [] || !IsDigit(r[0]) then 0 else 1 + DigitRun(r[1..])
  }

  lemma {:induction false} LeadingDigits(r: string, p: string)
    requires |p| < |r| && r[..|p|] == p
    requires forall i :: 0 <= i < |p| ==> IsDigit(p[i])
    requires !IsDigit(r[|p|])
    ensures DigitRun(r) == |p|
  {
    if p != [] {
      assert r[0] == p[0];
      assert r[1..][..|p| - 1] == p[1..];
      assert r[1..][|p| - 1] == r[|p|];
      LeadingDigits(r[1..], p[1..]);
    }
  }

  // ---------------------------------------------------------------------
  // Create table and add column

  /** ADD COLUMN renders a column with the very clause CREATE TABLE uses for
      it: one non-key column, in either statement. */
  lemma AddColumnMatchesCreateTable(table: string, c: Column)
    requires Supported(c) && !IsKey(c)
    ensures CreateTable(table, [c]).Ok? && AddColumn(table, c).Ok?
    ensures CreateTable(table, [c]).value.text == "CREATE TABLE " + Bracket(table) + " (" + ColumnClause(c).value + ")"
    ensures AddColumn(table, c).value.text == "ALTER TABLE " + Bracket(table) + " ADD " + ColumnClause(c).value
  {
    NoKeyColumns([c]);
    assert ColumnClauses([c]).value == [ColumnClause(c).value];
    assert ColumnClauses([c]).value + [] == [ColumnClause(c).value];
  }

  /** A supported column added to a rendered list adds its clause. */
  lemma {:induction false} ColumnClausesAppend(cols: seq<Column>, c: Column)
    requires ColumnClauses(cols).Ok? && Supported(c)
    ensures ColumnClauses(cols + [c]) == Ok(ColumnClauses(cols).value + [ColumnClause(c).value])
  {
    if cols == [] {
      assert cols + [c] == [c];
      assert [c][1..] == [];
      assert [ColumnClause(c).value] + [] == [ColumnClause(c).value];
      assert ColumnClauses(cols).value + [ColumnClause(c).value] == [ColumnClause(c).value];
    } else {
      assert (cols + [c])[1..] == cols[1..] + [c];
      ColumnClausesAppend(cols[1..], c);
      assert (cols + [c])[0] == cols[0];
      var head := ColumnClause(cols[0]).value;
      assert [head] + (ColumnClauses(cols[1..]).value + [ColumnClause(c).value])
          == ([head] + ColumnClauses(cols[1..]).value) + [ColumnClause(c).value];
    }
  }

  /** Without a key column CREATE TABLE lists the column clauses alone. */
  lemma CreateTableKeyless(table: string, cols: seq<Column>)
    requires ColumnClauses(cols).Ok? && |KeyColumns(cols)| == 0
    ensures CreateTable(table, cols) ==
      Ok(Statement("CREATE TABLE " + Bracket(table) + " (" + Join(ColumnClauses(cols).value, ", ") + ")", [], ResultType.None))
  {
    assert ColumnClauses(cols).value + [] == ColumnClauses(cols).value;
  }

  /** Appending a non-key column to a keyless table appends its clause just
      before the closing parenthesis. */
  lemma CreateTableAppendColumn(table: string, cols: seq<Column>, c: Column)
    requires cols != [] && ColumnClauses(cols).Ok? && Supported(c)
    requires |KeyColumns(cols)| == 0 && !IsKey(c)
    ensures CreateTable(table, cols).Ok? && CreateTable(table, cols + [c]).Ok?
    ensures var before := CreateTable(table, cols).value.text;
      CreateTable(table, cols + [c]).value.text == before[..|before| - 1] + ", " + ColumnClause(c).value + ")"
  {
    KeyColumnsAppend(cols, [c]);
    NoKeyColumns([c]);
    ColumnClausesAppend(cols, c);
    var clauses := ColumnClauses(cols).value;
    var last := ColumnClause(c).value;
    CreateTableKeyless(table, cols);
    CreateTableKeyless(table, cols + [c]);
    JoinAppend(clauses, last, ", ");
    InsertBeforeClose("CREATE TABLE " + Bracket(table) + " (", Join(clauses, ", "), ", ", last);
  }

  lemma InsertBeforeClose(head: string, body: string, sep: string, more: string)
    ensures var before := head + body + ")";
      head + (body + sep + more) + ")" == before[..|before| - 1] + sep + more + ")"
  {
    var before := head + body + ")";
    assert before[..|before| - 1] == head + body;
  }

  /** The constraint follows the single key column, and the clustered form
      differs from the plain one only by CLUSTERED before the column list. */
  lemma ClusteredConstraint(table: string, key: Column)
    ensures var plain := KeyConstraint(table, key.(key := PrimaryKey));
      var head := "CONSTRAINT " + Bracket("PK_" + table + "_" + key.name) + " PRIMARY KEY ";
      head <= plain &&
      KeyConstraint(table, key.(key := ClusteredPrimaryKey)) == head + "CLUSTERED " + plain[|head|..]
  {
    var head := "CONSTRAINT " + Bracket("PK_" + table + "_" + key.name) + " PRIMARY KEY ";
    var tail := "(" + Bracket(key.name) + " ASC)";
    assert KeyConstraint(table, key.(key := PrimaryKey)) == head + tail;
    assert (head + tail)[|head|..] == tail;
    assert KeyConstraint(table, key.(key := ClusteredPrimaryKey)) == head + ("CLUSTERED " + tail);
  }

  /** The key constraint does not depend on where the key column sits:
      moving a block of columns from the front to the back keeps it. */
  lemma PrimaryKeyClauseRotation(table: string, xs: seq<Column>, ys: seq<Column>)
    ensures PrimaryKeyClause(table, xs + ys) == PrimaryKeyClause(table, ys + xs)
    ensures |KeyColumns(xs + ys)| == |KeyColumns(ys + xs)|
  {
    KeyColumnsAppend(xs, ys);
    KeyColumnsAppend(ys, xs);
    var a, b := KeyColumns(xs), KeyColumns(ys);
    if |a + b| == 1 {
      if |a| == 1 {
        assert (a + b)[0] == a[0] && (b + a)[0] == a[0];
      } else {
        assert (a + b)[0] == b[0] && (b + a)[0] == b[0];
      }
    }
  }

  /** For supported columns, CREATE TABLE fails with MultiplePrimaryKeys
      exactly when two positions of the list hold key columns, and succeeds
      otherwise. */
  lemma CreateTableKeyCount(table: string, cols: seq<Column>)
    requires forall i :: 0 <= i < |cols| ==> Supported(cols[i])
    ensures !SingleKeyPosition(cols) <==> CreateTable(table, cols) == Err(MultiplePrimaryKeys)
    ensures SingleKeyPosition(cols) <==> CreateTable(table, cols).Ok?
  {
    assert ColumnClauses(cols).Ok?;
    KeyColumnsAtMostOne(cols);
  }

  /** A single key column, wherever it sits, contributes the constraint that
      follows every column clause. */
  lemma CreateTableSingleKey(table: string, xs: seq<Column>, k: Column, ys: seq<Column>)
    requires IsKey(k)
    requires forall i :: 0 <= i < |xs| ==> !IsKey(xs[i])
    requires forall i :: 0 <= i < |ys| ==> !IsKey(ys[i])
    requires ColumnClauses(xs + [k] + ys).Ok?
    ensures CreateTable(table, xs + [k] + ys).Ok?
    ensures CreateTable(table, xs + [k] + ys).value.text ==
      "CREATE TABLE " + Bracket(table) + " (" + Join(ColumnClauses(xs + [k] + ys).value + [KeyConstraint(table, k)], ", ") + ")"
  {
    SingleKeyColumn(xs, k, ys);
    var cols := xs + [k] + ys;
    assert PrimaryKeyClause(table, cols) == Some(KeyConstraint(table, k));
  }

  lemma SingleKeyColumn(xs: seq<Column>, k: Column, ys: seq<Column>)
    requires IsKey(k)
    requires forall i :: 0 <= i < |xs| ==> !IsKey(xs[i])
    requires forall i :: 0 <= i < |ys| ==> !IsKey(ys[i])
    ensures KeyColumns(xs + [k] + ys) == [k]
  {
    KeyColumnsAppend(xs + [k], ys);
    KeyColumnsAppend(xs, [k]);
    NoKeyColumns(xs);
    NoKeyColumns(ys);
    SingleColumnKey(k);
    calc {
      KeyColumns(xs + [k] + ys);
      KeyColumns(xs + [k]) + KeyColumns(ys);
      KeyColumns(xs) + KeyColumns([k]) + [];
      [] + [k] + [];
    }
  }

  lemma SingleColumnKey(k: Column)
    requires IsKey(k)
    ensures KeyColumns([k]) == [k]
  {
    assert [k][1..] == [];
  }

  // ---------------------------------------------------------------------
  // Existence checks and guarded drops

  /** DROP TABLE is guarded by the very probe the existence check runs. */
  lemma DeleteTableProbesLikeTableExists(table: string)
    ensures var probe := TableProbe(table);
      TableExists(table).text[|"SELECT CAST(CASE WHEN EXISTS ("|..][..|probe|] == probe &&
      DeleteTable(table).text[|"IF EXISTS ("|..][..|probe|] == probe
  {
    var probe := TableProbe(table);
    var e := "SELECT CAST(CASE WHEN EXISTS (";
    var d := "IF EXISTS (";
    assert TableExists(table).text == e + (probe + ") THEN 1 ELSE 0 END AS bit)");
    assert TableExists(table).text[|e|..] == probe + ") THEN 1 ELSE 0 END AS bit)";
    assert DeleteTable(table).text == d + (probe + ") " + "DROP TABLE " + Bracket(table));
    assert DeleteTable(table).text[|d|..] == probe + ") " + "DROP TABLE " + Bracket(table);
  }

  /** Different tables get different DROP TABLE statements. */
  lemma DeleteTableInjective(a: string, b: string)
    requires DeleteTable(a) == DeleteTable(b)
    ensures a == b
  {
    var pre := "IF EXISTS (" + "SELECT * FROM [sys].[tables] WHERE [name] = '";
    var mid := "'" + ") " + "DROP TABLE " + "[";
    assert DeleteTable(a).text == pre + a + mid + a + "]";
    assert DeleteTable(b).text == pre + b + mid + b + "]";
    TwiceSplicedInjective(pre, mid, "]", a, b);
  }

  /** Different tables get different existence checks. */
  lemma TableExistsInjective(a: string, b: string)
    requires TableExists(a) == TableExists(b)
    ensures a == b
  {
    var pre := "SELECT CAST(CASE WHEN EXISTS (" + "SELECT * FROM [sys].[tables] WHERE [name] = '";
    var post := "'" + ") THEN 1 ELSE 0 END AS bit)";
    assert TableExists(a).text == pre + a + post;
    assert TableExists(b).text == pre + b + post;
    SplicedInjective(pre, post, a, b);
  }

  /** A name spliced between fixed texts can be read back. */
  lemma SplicedInjective(pre: string, post: string, a: string, b: string)
    requires pre + a + post == pre + b + post
    ensures a == b
  {
    assert |a| == |b|;
    assert (pre + a + post)[|pre|..|pre| + |a|] == a;
    assert (pre + b + post)[|pre|..|pre| + |b|] == b;
  }

  /** A name spliced twice between fixed texts can be read back. */
  lemma TwiceSplicedInjective(pre: string, mid: string, post: string, a: string, b: string)
    requires pre + a + mid + a + post == pre + b + mid + b + post
    ensures a == b
  {
    assert |a| == |b|;
    assert (pre + a + mid + a + post)[|pre|..|pre| + |a|] == a;
    assert (pre + b + mid + b + post)[|pre|..|pre| + |b|] == b;
  }

  /** On one table, different columns get different DROP COLUMN statements. */
  lemma RemoveColumnDistinguishesColumns(table: string, x: string, y: string)
    requires RemoveColumn(table, x) == RemoveColumn(table, y)
    ensures x == y
  {
    GuardedNameSpliced("IF EXISTS (", "SELECT * FROM [sys].[columns] WHERE [object_id] = " + ObjectId(table) + " AND [name] = '",
                       "'", ") ", "ALTER TABLE " + Bracket(table) + " DROP COLUMN ", x, y);
  }

  /** DROP COLUMN is guarded by the probe for that very column of that table,
      and the action then drops the same column. */
  lemma RemoveColumnProbesDroppedColumn(table: string, column: string)
    ensures var probe := ColumnProbe(table, column);
      var text := RemoveColumn(table, column).text;
      |text| >= |"IF EXISTS ("| + |probe| && text[|"IF EXISTS ("|..][..|probe|] == probe
    ensures var text := RemoveColumn(table, column).text;
      |text| >= |" DROP COLUMN "| + |Bracket(column)| &&
      text[|text| - |" DROP COLUMN "| - |Bracket(column)|..] == " DROP COLUMN " + Bracket(column)
  {
    GuardedLayout(ColumnProbe(table, column), "ALTER TABLE " + Bracket(table), " DROP COLUMN ", Bracket(column));
  }

  /** A guarded action starts with its probe right after the guard and ends
      with the last pieces of its action. */
  lemma GuardedLayout(probe: string, act: string, d: string, y: string)
    ensures var text := Guarded(probe, act + d + y).text;
      |text| >= |"IF EXISTS ("| + |probe| && text[|"IF EXISTS ("|..][..|probe|] == probe &&
      |text| >= |d| + |y| && text[|text| - |d| - |y|..] == d + y
  {
    var g := "IF EXISTS (";
    var text := Guarded(probe, act + d + y).text;
    assert text == g + (probe + ") " + act + (d + y));
    assert text[|g|..] == probe + ") " + act + (d + y);
    assert text == (g + probe + ") " + act) + (d + y);
  }

  /** A name spliced into a guarded probe and into the bracketed object the
      guarded action names can be read back. */
  lemma GuardedNameSpliced(g: string, p: string, q: string, c: string, act: string, x: string, y: string)
    requires g + (p + x + q) + c + (act + ("[" + x + "]")) == g + (p + y + q) + c + (act + ("[" + y + "]"))
    ensures x == y
  {
    var mid := q + c + act + "[";
    assert g + (p + x + q) + c + (act + ("[" + x + "]")) == (g + p) + x + mid + x + "]";
    assert g + (p + y + q) + c + (act + ("[" + y + "]")) == (g + p) + y + mid + y + "]";
    TwiceSplicedInjective(g + p, mid, "]", x, y);
  }

  /** For one column name, different tables get different DROP COLUMN
      statements. */
  lemma RemoveColumnDistinguishesTables(a: string, b: string, column: string)
    requires RemoveColumn(a, column) == RemoveColumn(b, column)
    ensures a == b
  {
    GuardedTableSpliced("IF EXISTS (", "SELECT * FROM [sys].[columns] WHERE [object_id] = ", " AND [name] = '", column, "'",
                        ") ", "ALTER TABLE ", " DROP COLUMN ", Bracket(column), a, b);
  }

  /** A table spliced into a guarded probe's object id and into the
      bracketed table the guarded action names can be read back. */
  lemma GuardedTableSpliced(g: string, p: string, l: string, x: string, r: string, c: string,
                            act: string, d: string, y: string, a: string, b: string)
    requires g + (p + ("OBJECT_ID(N'" + a + "')") + l + x + r) + c + (act + ("[" + a + "]") + d + y) ==
             g + (p + ("OBJECT_ID(N'" + b + "')") + l + x + r) + c + (act + ("[" + b + "]") + d + y)
    ensures a == b
  {
    GuardedTableRegroups(g, p, l, x, r, c, act, d, y, a);
    GuardedTableRegroups(g, p, l, x, r, c, act, d, y, b);
    TwiceSplicedInjective(g + p + "OBJECT_ID(N'", "')" + l + x + r + c + act + "[", "]" + d + y, a, b);
  }

  lemma GuardedTableRegroups(g: string, p: string, l: string, x: string, r: string, c: string,
                             act: string, d: string, y: string, a: string)
    ensures g + (p + ("OBJECT_ID(N'" + a + "')") + l + x + r) + c + (act + ("[" + a + "]") + d + y) ==
            (g + p + "OBJECT_ID(N'") + a + ("')" + l + x + r + c + act + "[") + a + ("]" + d + y)
  {
  }

  // ---------------------------------------------------------------------
  // Non-clustered indexes

  /** Adding a column to an index appends an underscore and its name to the
      derived index name. */
  lemma IndexNameAppend(table: string, cols: seq<IndexColumn>, c: IndexColumn)
    requires cols != []
    ensures IndexName(table, cols + [c]) == IndexName(table, cols) + "_" + c.name
  {
    assert IndexColumnNames(cols + [c]) == IndexColumnNames(cols) + [c.name];
    JoinAppend(IndexColumnNames(cols), c.name, "_");
  }

  /** Adding a column to an index appends its ordered clause to the column
      list. */
  lemma IndexColumnListAppend(cols: seq<IndexColumn>, c: IndexColumn)
    requires cols != []
    ensures Join(IndexColumnClauses(cols + [c]), ", ") ==
      Join(IndexColumnClauses(cols), ", ") + ", " + Bracket(c.name) + (if c.descending then " DESC" else " ASC")
  {
    assert IndexColumnClauses(cols + [c]) == IndexColumnClauses(cols) + [IndexColumnClause(c)];
    JoinAppend(IndexColumnClauses(cols), IndexColumnClause(c), ", ");
  }

  /** The index CREATE makes under its derived name is the one DROP INDEX
      removes when given that name: both name it the same way on the same
      table. */
  lemma RemoveDropsAddedIndex(table: string, cols: seq<IndexColumn>)
    requires cols != []
    ensures var name := IndexName(table, cols);
      var created := "CREATE NONCLUSTERED INDEX " + Bracket(name) + " ON " + Bracket(table);
      var dropped := "DROP INDEX " + Bracket(name) + " ON " + Bracket(table);
      var add := AddNonClusteredIndex(table, cols).value.text;
      var remove := RemoveNonClusteredIndex(table, name).text;
      created <= add && |dropped| <= |remove| && remove[|remove| - |dropped|..] == dropped
  {
    var name := IndexName(table, cols);
    var created := "CREATE NONCLUSTERED INDEX " + Bracket(name) + " ON " + Bracket(table);
    var dropped := "DROP INDEX " + Bracket(name) + " ON " + Bracket(table);
    var add := AddNonClusteredIndex(table, cols).value.text;
    var remove := RemoveNonClusteredIndex(table, name).text;
    var rest := " (" + Join(IndexColumnClauses(cols), ", ") + ")";
    assert add == created + rest;
    var guard := "IF EXISTS (" + IndexProbe(table, name) + ") ";
    assert remove == guard + dropped;
    assert remove[|guard|..] == dropped;
  }

  /** The derived names of different column lists can coincide: a column
      named b_c gives the same index name as the columns b and c. */
  lemma IndexNamesCanCollide(table: string)
    ensures IndexName(table, [AscendingIndexColumn("b_c")]) ==
            IndexName(table, [AscendingIndexColumn("b"), AscendingIndexColumn("c")])
  {
    var one := [AscendingIndexColumn("b_c")];
    var two := [AscendingIndexColumn("b"), AscendingIndexColumn("c")];
    assert IndexColumnNames(one) == ["b_c"];
    assert IndexColumnNames(two) == ["b", "c"];
    JoinCons("b", ["c"], "_");
    assert ["b"] + ["c"] == ["b", "c"];
    assert "b" + "_" + "c" == "b_c";
  }

  // ---------------------------------------------------------------------
  // Catalog listings

  /** One more source adds one more INTERSECT listing at the end. */
  lemma IntersectListingsAppend(tables: seq<string>, table: string)
    requires tables != []
    ensures IntersectListings(tables + [table]) == IntersectListings(tables) + " INTERSECT " + ColumnListing(table)
  {
    assert ColumnListings(tables + [table]) == ColumnListings(tables) + [ColumnListing(table)];
    JoinAppend(ColumnListings(tables), ColumnListing(table), " INTERSECT ");
  }

  /** A single source lists its own columns with no INTERSECT. */
  lemma UnionColumnsSingle(table: string)
    ensures UnionColumns([table]).Ok?
    ensures UnionColumns([table]).value.text == NormalizedColumnsSelect + ObjectId(table)
  {
    assert ColumnListings([table]) == [ColumnListing(table)];
  }

  /** The shared-columns query intersects exactly the union-columns listing
      of the sources with the destination's listing, and joins the result
      to the destination's own columns. */
  lemma SharedColumnsExtendsUnion(sources: seq<string>, into: string)
    requires sources != []
    ensures SharedColumns(sources, into).Ok? && UnionColumns(sources).Ok?
    ensures SharedColumns(sources, into).value.text ==
      NarrowingSelect + Join(ObjectIds(sources), ", ") + NarrowingAlias +
      (UnionColumns(sources).value.text + " INTERSECT " + ColumnListing(into)) +
      DestinationJoin + ObjectId(into)
  {
    IntersectListingsAppend(sources, into);
  }

  /** The create-table-columns query selects the column details of the
      first source, restricted to the union-columns listing of all of them. */
  lemma CreateTableColumnsEmbedsUnion(sources: seq<string>)
    requires sources != []
    ensures CreateTableColumns(sources).Ok? && UnionColumns(sources).Ok?
    ensures CreateTableColumns(sources).value.text ==
      ColumnDetailsSelect + " JOIN (" + UnionColumns(sources).value.text +
      ") [__SubQuery__] ON [__SubQuery__].[name] = [SC].[name] AND [SC].[object_id] = " + ObjectId(sources[0])
  {
  }

  /** For the same further sources, different first sources get different
      create-table-columns queries: the first source's lookup both opens the
      INTERSECT chain and closes the query. */
  lemma CreateTableColumnsDistinguishesFirstSource(a: string, b: string, rest: seq<string>)
    requires CreateTableColumns([a] + rest) == CreateTableColumns([b] + rest)
    ensures a == b
  {
    var chain := if rest == [] then "" else " INTERSECT " + IntersectListings(rest);
    IntersectListingsCons(a, rest);
    IntersectListingsCons(b, rest);
    ListingTwiceSpliced(ColumnDetailsSelect + " JOIN (", NormalizedColumnsSelect, chain,
                        ") [__SubQuery__] ON [__SubQuery__].[name] = [SC].[name] AND [SC].[object_id] = ", a, b);
  }

  /** The chain of a first source and further ones: the first listing, then
      the further chain after one INTERSECT. */
  lemma IntersectListingsCons(a: string, rest: seq<string>)
    ensures IntersectListings([a] + rest) ==
      ColumnListing(a) + (if rest == [] then "" else " INTERSECT " + IntersectListings(rest))
  {
    assert ColumnListings([a] + rest) == [ColumnListing(a)] + ColumnListings(rest);
    if rest == [] {
      assert ColumnListing(a) + "" == ColumnListing(a);
    } else {
      JoinCons(ColumnListing(a), ColumnListings(rest), " INTERSECT ");
    }
  }

  /** A table whose object-id lookup sits inside a spliced listing and also
      ends the text can be read back. */
  lemma ListingTwiceSpliced(p: string, q: string, t: string, m: string, a: string, b: string)
    requires p + (q + ("OBJECT_ID(N'" + a + "')") + t) + m + ("OBJECT_ID(N'" + a + "')") ==
             p + (q + ("OBJECT_ID(N'" + b + "')") + t) + m + ("OBJECT_ID(N'" + b + "')")
    ensures a == b
  {
    ListingRegroups(p, q, t, m, a);
    ListingRegroups(p, q, t, m, b);
    TwiceSplicedInjective(p + q + "OBJECT_ID(N'", "')" + t + m + "OBJECT_ID(N'", "')", a, b);
  }

  lemma ListingRegroups(p: string, q: string, t: string, m: string, a: string)
    ensures p + (q + ("OBJECT_ID(N'" + a + "')") + t) + m + ("OBJECT_ID(N'" + a + "')") ==
            (p + q + "OBJECT_ID(N'") + a + ("')" + t + m + "OBJECT_ID(N'") + a + "')"
  {
  }

  /** Different tables get different column-details queries. */
  lemma TableColumnsInjective(a: string, b: string)
    requires TableColumns(a) == TableColumns(b)
    ensures a == b
  {
    ObjectIdEnding(ColumnDetailsSelect + " WHERE [SC].[object_id] = ", a, b);
  }

  /** Different tables get different index queries. */
  lemma GetIndexesInjective(a: string, b: string)
    requires GetIndexes(a) == GetIndexes(b)
    ensures a == b
  {
    ObjectIdSpliced(IndexDetailsSelect, " ORDER BY [SI].[name]", a, b);
  }

  /** A table spliced into an object-id lookup between fixed texts can be
      read back. */
  lemma ObjectIdSpliced(pre: string, post: string, a: string, b: string)
    requires pre + ("OBJECT_ID(N'" + a + "')") + post == pre + ("OBJECT_ID(N'" + b + "')") + post
    ensures a == b
  {
    assert pre + ("OBJECT_ID(N'" + a + "')") + post == (pre + "OBJECT_ID(N'") + a + ("')" + post);
    assert pre + ("OBJECT_ID(N'" + b + "')") + post == (pre + "OBJECT_ID(N'") + b + ("')" + post);
    SplicedInjective(pre + "OBJECT_ID(N'", "')" + post, a, b);
  }

  /** A table whose object-id lookup ends a text after a fixed prefix can
      be read back. */
  lemma ObjectIdEnding(pre: string, a: string, b: string)
    requires pre + ("OBJECT_ID(N'" + a + "')") == pre + ("OBJECT_ID(N'" + b + "')")
    ensures a == b
  {
    assert pre + ("OBJECT_ID(N'" + a + "')") == (pre + "OBJECT_ID(N'") + a + "')";
    assert pre + ("OBJECT_ID(N'" + b + "')") == (pre + "OBJECT_ID(N'") + b + "')";
    SplicedInjective(pre + "OBJECT_ID(N'", "')", a, b);
  }

  lemma ConcatAssociates(a: string, b: string, c: string)
    ensures a + b + c == a + (b + c)
  {
  }

  /** Different tables get different object-id lookups. */
  lemma ObjectIdInjective(a: string, b: string)
    requires ObjectId(a) == ObjectId(b)
    ensures a == b
  {
    var p := "OBJECT_ID(N'";
    assert ObjectId(a) == p + (a + "')");
    assert ObjectId(b) == p + (b + "')");
    assert ObjectId(a)[|p|..|p| + |a|] == a;
    assert ObjectId(b)[|p|..|p| + |b|] == b;
  }
}
