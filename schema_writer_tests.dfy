/** The statements the schema-writer tests pin, each proved for the builder.
    Every expected text is the tested literal, written out here in pieces
    independently of the builder's own templates, with the table and column
    names spliced in. */
module SchemaWriterTests {
  import opened Wrappers
  import opened Text
  import opened Schema
  import opened SchemaWriter
  import SchemaWriterProperties

  const TableName := "some_table_in_the_db"

  // ---------------------------------------------------------------------
  // Helpers: one rendered column, a rendered list, a table with or without
  // its single key column.

  /** A stored column's clause once its type, identity and default pieces
      are known; the empty pieces drop out. */
  lemma StoredClause(c: Column, typeName: string, identity: string, default: string)
    requires c.computation.None?
    requires TypeName(c) == Ok(typeName) && IdentityClause(c) == Ok(identity) && DefaultClause(c) == Ok(default)
    ensures ColumnClause(c).Ok?
    ensures identity == "" ==>
      ColumnClause(c).value == ("[" + c.name + "]") + " " + typeName + NullClause(c.isNullable) + default
    ensures identity == "" && default == "" ==>
      ColumnClause(c).value == ("[" + c.name + "]") + " " + typeName + NullClause(c.isNullable)
    ensures default == "" ==>
      ColumnClause(c).value == ("[" + c.name + "]") + " " + typeName + identity + NullClause(c.isNullable)
  {
    var named := ("[" + c.name + "]") + " " + typeName;
    assert ColumnClause(c).value == named + identity + NullClause(c.isNullable) + default;
    if identity == "" {
      assert named + identity == named;
    }
    if default == "" {
      var full := named + identity + NullClause(c.isNullable);
      assert full + default == full;
    }
  }

  /** A computed column's clause; an unpersisted one ends at its expression. */
  lemma ComputedClause(c: Column, expr: string)
    requires c.computation == Some(expr)
    ensures ColumnClause(c).Ok?
    ensures c.computationPersisted ==>
      ColumnClause(c).value == ("[" + c.name + "]") + " AS (" + expr + ")" + " PERSISTED NOT NULL"
    ensures !c.computationPersisted ==>
      ColumnClause(c).value == ("[" + c.name + "]") + " AS (" + expr + ")"
  {
    var head := ("[" + c.name + "]") + " AS (" + expr + ")";
    assert head + "" == head;
  }

  lemma FourClauses(cols: seq<Column>, c0: string, c1: string, c2: string, c3: string)
    requires |cols| == 4
    requires ColumnClause(cols[0]) == Ok(c0) && ColumnClause(cols[1]) == Ok(c1)
    requires ColumnClause(cols[2]) == Ok(c2) && ColumnClause(cols[3]) == Ok(c3)
    ensures ColumnClauses(cols) == Ok([c0, c1, c2, c3])
  {
    var r := ColumnClauses(cols);
    assert r.Ok?;
    assert r.value[0] == c0 && r.value[1] == c1 && r.value[2] == c2 && r.value[3] == c3;
    assert r.value == [r.value[0], r.value[1], r.value[2], r.value[3]];
  }

  /** CREATE TABLE with one key column: the clauses, then its constraint. */
  lemma CreateTableKeyed(table: string, cols: seq<Column>, clauses: seq<string>)
    requires |cols| > 0 && IsKey(cols[0])
    requires forall i :: 1 <= i < |cols| ==> !IsKey(cols[i])
    requires ColumnClauses(cols) == Ok(clauses)
    ensures CreateTable(table, cols).Ok?
    ensures CreateTable(table, cols).value.result == ResultType.None
    ensures CreateTable(table, cols).value.text ==
      "CREATE TABLE " + ("[" + table + "]") + " (" + Join(clauses + [KeyConstraint(table, cols[0])], ", ") + ")"
  {
    assert [] + [cols[0]] + cols[1..] == cols;
    SchemaWriterProperties.CreateTableSingleKey(table, [], cols[0], cols[1..]);
  }

  /** CREATE TABLE with one column that is no key. */
  lemma CreateTableOneColumn(table: string, c: Column, clause: string)
    requires ColumnClause(c) == Ok(clause) && !IsKey(c)
    ensures CreateTable(table, [c]).Ok?
    ensures CreateTable(table, [c]).value.result == ResultType.None
    ensures CreateTable(table, [c]).value.text == "CREATE TABLE " + ("[" + table + "]") + " (" + clause + ")"
  {
    NoKeyColumns([c]);
    assert ColumnClauses([c]).value == [clause];
    assert [clause] + [] == [clause];
  }

  /** CREATE TABLE with one key column and nothing else. */
  lemma CreateTableOneKey(table: string, c: Column, clause: string)
    requires ColumnClause(c) == Ok(clause) && IsKey(c)
    ensures CreateTable(table, [c]).Ok?
    ensures CreateTable(table, [c]).value.result == ResultType.None
    ensures CreateTable(table, [c]).value.text ==
      "CREATE TABLE " + ("[" + table + "]") + " (" + (clause + ", " + KeyConstraint(table, c)) + ")"
  {
    assert ColumnClauses([c]).value == [clause];
    CreateTableKeyed(table, [c], [clause]);
    assert [clause] + [KeyConstraint(table, c)] == [clause, KeyConstraint(table, c)];
    JoinCons(clause, [KeyConstraint(table, c)], ", ");
  }

  // ---------------------------------------------------------------------
  // Create table

  const ClrColumns := [
    ClrColumn("Id", Guid).(key := PrimaryKey, isAutoGenerated := true),
    ClrColumn("Name", String).(length := Some(500), isNullable := true),
    ClrColumn("Active", Boolean).(defaultValue := Some(BoolLiteral(true))),
    ClrColumn("Created", ClrType.DateTime).(isAutoGenerated := true)]

  const SqlColumns := [
    SqlColumn("Id", UniqueIdentifier).(key := PrimaryKey, isAutoGenerated := true),
    SqlColumn("Name", NVarChar).(length := Some(500), isNullable := true),
    SqlColumn("Active", Bit).(defaultValue := Some(BoolLiteral(true))),
    SqlColumn("Created", SqlDbType.DateTime).(isAutoGenerated := true)]

  const IdClause := ("[" + "Id" + "]") + " " + "uniqueidentifier" + " NOT NULL" + " DEFAULT NEWSEQUENTIALID()"
  const NameClause := ("[" + "Name" + "]") + " " + ("nvarchar (" + "500" + ")") + " NULL"
  const ActiveClause := ("[" + "Active" + "]") + " " + "bit" + " NOT NULL" + " DEFAULT 1"
  const CreatedClause := ("[" + "Created" + "]") + " " + "datetime" + " NOT NULL" + " DEFAULT GETDATE()"

  /** The key constraint on Id of the test table. */
  const IdConstraint :=
    "CONSTRAINT " + ("[" + ("PK_" + TableName + "_" + "Id") + "]") + " PRIMARY KEY " + "(" + ("[" + "Id" + "]") + " ASC)"

  lemma ClrColumnClauses()
    ensures ColumnClauses(ClrColumns) == Ok([IdClause, NameClause, ActiveClause, CreatedClause])
  {
    var cols := ClrColumns;
    assert NatToString(500) == "500";
    StoredClause(cols[0], "uniqueidentifier", "", " DEFAULT NEWSEQUENTIALID()");
    StoredClause(cols[1], "nvarchar (" + "500" + ")", "", "");
    StoredClause(cols[2], "bit", "", " DEFAULT 1");
    StoredClause(cols[3], "datetime", "", " DEFAULT GETDATE()");
    FourClauses(cols, IdClause, NameClause, ActiveClause, CreatedClause);
  }

  /** Create_Table__With_Crl_Types_Test. */
  lemma CreateTableWithClrTypes()
    ensures CreateTable(TableName, ClrColumns).Ok?
    ensures CreateTable(TableName, ClrColumns).value.result == ResultType.None
    ensures CreateTable(TableName, ClrColumns).value.text ==
      "CREATE TABLE " + ("[" + TableName + "]") + " (" +
      Join([IdClause, NameClause, ActiveClause, CreatedClause, IdConstraint], ", ") + ")"
  {
    var clauses := [IdClause, NameClause, ActiveClause, CreatedClause];
    ClrColumnClauses();
    ClrColumnsKeyedById();
    CreateTableKeyed(TableName, ClrColumns, clauses);
    assert clauses + [IdConstraint] == [IdClause, NameClause, ActiveClause, CreatedClause, IdConstraint];
  }

  lemma ClrColumnsKeyedById()
    ensures IsKey(ClrColumns[0]) && forall i :: 1 <= i < |ClrColumns| ==> !IsKey(ClrColumns[i])
    ensures KeyConstraint(TableName, ClrColumns[0]) == IdConstraint
  {
  }

  /** The SqlDbType-typed test columns are the CLR-typed ones redeclared. */
  lemma SqlColumnsRedeclareClrColumns()
    ensures SqlColumns == SchemaWriterProperties.SqlTypedColumns(ClrColumns)
  {
    var typed := SchemaWriterProperties.SqlTypedColumns(ClrColumns);
    assert typed[0] == SqlColumns[0] && typed[1] == SqlColumns[1];
    assert typed[2] == SqlColumns[2] && typed[3] == SqlColumns[3];
  }

  /** Create_Table__With_Sql_Types_Test: the same statement as the CLR-typed
      table, so the same text and result shape. */
  lemma CreateTableWithSqlTypes()
    ensures CreateTable(TableName, SqlColumns) == CreateTable(TableName, ClrColumns)
    ensures CreateTable(TableName, SqlColumns).Ok?
    ensures CreateTable(TableName, SqlColumns).value.result == ResultType.None
  {
    SqlColumnsRedeclareClrColumns();
    SchemaWriterProperties.SqlTypedTableAgrees(TableName, ClrColumns);
    CreateTableWithClrTypes();
  }

  /** Create_Table_Identity_Test. */
  lemma CreateTableIdentity()
    ensures var s := CreateTable(TableName, [ClrColumn("Id", Int32).(isIdentity := true, key := PrimaryKey)]);
      s.Ok? && s.value.result == ResultType.None &&
      s.value.text ==
        "CREATE TABLE " + ("[" + TableName + "]") + " (" +
        (("[" + "Id" + "]") + " " + "int" + " IDENTITY(1,1)" + " NOT NULL" + ", " + IdConstraint) + ")"
  {
    var c := ClrColumn("Id", Int32).(isIdentity := true, key := PrimaryKey);
    StoredClause(c, "int", " IDENTITY(1,1)", "");
    CreateTableOneKey(TableName, c, ColumnClause(c).value);
  }

  /** Create_Table_Clustered_Primary_Key_Test. */
  lemma CreateTableClusteredPrimaryKey()
    ensures var s := CreateTable(TableName, [ClrColumn("Id", Int32).(isIdentity := true, key := ClusteredPrimaryKey)]);
      s.Ok? && s.value.result == ResultType.None &&
      s.value.text ==
        "CREATE TABLE " + ("[" + TableName + "]") + " (" +
        (("[" + "Id" + "]") + " " + "int" + " IDENTITY(1,1)" + " NOT NULL" + ", " +
         ("CONSTRAINT " + ("[" + ("PK_" + TableName + "_" + "Id") + "]") + " PRIMARY KEY " + "CLUSTERED (" +
          ("[" + "Id" + "]") + " ASC)")) + ")"
  {
    var c := ClrColumn("Id", Int32).(isIdentity := true, key := ClusteredPrimaryKey);
    StoredClause(c, "int", " IDENTITY(1,1)", "");
    CreateTableOneKey(TableName, c, ColumnClause(c).value);
  }

  /** Create_Table_with_decimal_precision_Test: a precision alone prints no
      scale. */
  lemma CreateTableDecimalPrecision()
    ensures var s := CreateTable(TableName, [ClrColumn("Value", ClrType.Decimal).(precision := Some(5))]);
      s.Ok? && s.value.result == ResultType.None &&
      s.value.text ==
        "CREATE TABLE " + ("[" + TableName + "]") + " (" +
        (("[" + "Value" + "]") + " " + ("decimal (" + "5" + ")") + " NOT NULL") + ")"
  {
    var c := ClrColumn("Value", ClrType.Decimal).(precision := Some(5));
    assert NatToString(5) == "5";
    StoredClause(c, "decimal (" + "5" + ")", "", "");
    CreateTableOneColumn(TableName, c, ColumnClause(c).value);
  }

  /** Create_Table_with_decimal_precision_and_scale_Test. */
  lemma CreateTableDecimalPrecisionAndScale()
    ensures var s := CreateTable(TableName, [ClrColumn("Value", ClrType.Decimal).(precision := Some(5), scale := Some(1))]);
      s.Ok? && s.value.result == ResultType.None &&
      s.value.text ==
        "CREATE TABLE " + ("[" + TableName + "]") + " (" +
        (("[" + "Value" + "]") + " " + ("decimal (" + "5" + ", " + "1" + ")") + " NOT NULL") + ")"
  {
    var c := ClrColumn("Value", ClrType.Decimal).(precision := Some(5), scale := Some(1));
    assert NatToString(5) == "5" && NatToString(1) == "1";
    StoredClause(c, "decimal (" + "5" + ", " + "1" + ")", "", "");
    CreateTableOneColumn(TableName, c, ColumnClause(c).value);
  }

  /** Create_Table_with_computation_Test: the declared nullability is not
      rendered. */
  lemma CreateTableComputed()
    ensures var s := CreateTable(TableName, [ClrColumn("Value", String).(computation := Some("1 + 1"), isNullable := true)]);
      s.Ok? && s.value.result == ResultType.None &&
      s.value.text ==
        "CREATE TABLE " + ("[" + TableName + "]") + " (" + (("[" + "Value" + "]") + " AS (" + "1 + 1" + ")") + ")"
  {
    var c := ClrColumn("Value", String).(computation := Some("1 + 1"), isNullable := true);
    ComputedClause(c, "1 + 1");
    CreateTableOneColumn(TableName, c, ColumnClause(c).value);
  }

  /** Create_Table_with_persisted_computation_Test. */
  lemma CreateTablePersistedComputed()
    ensures var s := CreateTable(TableName, [ClrColumn("Value", String).(computation := Some("1 + 1"), computationPersisted := true)]);
      s.Ok? && s.value.result == ResultType.None &&
      s.value.text ==
        "CREATE TABLE " + ("[" + TableName + "]") + " (" +
        (("[" + "Value" + "]") + " AS (" + "1 + 1" + ")" + " PERSISTED NOT NULL") + ")"
  {
    var c := ClrColumn("Value", String).(computation := Some("1 + 1"), computationPersisted := true);
    ComputedClause(c, "1 + 1");
    CreateTableOneColumn(TableName, c, ColumnClause(c).value);
  }

  // ---------------------------------------------------------------------
  // Existence check and drops

  /** Table_Exists_Test. */
  lemma TableExistsText()
    ensures TableExists(TableName).result == Scalar
    ensures TableExists(TableName).text ==
      "SELECT CAST(CASE WHEN EXISTS (" + ("SELECT * FROM [sys].[tables] WHERE [name] = '" + TableName + "'") +
      ") THEN 1 ELSE 0 END AS bit)"
  {
  }

  /** Drop_Table_Test. */
  lemma DeleteTableText()
    ensures DeleteTable(TableName).result == ResultType.None
    ensures DeleteTable(TableName).text ==
      "IF EXISTS (" + ("SELECT * FROM [sys].[tables] WHERE [name] = '" + TableName + "'") + ") " +
      ("DROP TABLE " + ("[" + TableName + "]"))
  {
  }

  /** Drop_Column_Test. */
  lemma RemoveColumnText()
    ensures RemoveColumn(TableName, "Created").result == ResultType.None
    ensures RemoveColumn(TableName, "Created").text ==
      "IF EXISTS (" +
      ("SELECT * FROM [sys].[columns] WHERE [object_id] = " + ("OBJECT_ID(N'" + TableName + "')") +
       " AND [name] = '" + "Created" + "'") + ") " +
      ("ALTER TABLE " + ("[" + TableName + "]") + " DROP COLUMN " + ("[" + "Created" + "]"))
  {
  }

  /** Drop_Index_Test. */
  lemma RemoveNonClusteredIndexText()
    ensures RemoveNonClusteredIndex(TableName, "Created_Index").result == ResultType.None
    ensures RemoveNonClusteredIndex(TableName, "Created_Index").text ==
      "IF EXISTS (" +
      ("SELECT * FROM [sys].[indexes] WHERE [object_id] = " + ("OBJECT_ID(N'" + TableName + "')") +
       " AND [name] = '" + "Created_Index" + "'") + ") " +
      ("DROP INDEX " + ("[" + "Created_Index" + "]") + " ON " + ("[" + TableName + "]"))
  {
  }

  // ---------------------------------------------------------------------
  // Add column and index

  const CreatedColumn := ClrColumn("Created", ClrType.DateTime).(isAutoGenerated := true)

  /** Add_Clr_Type_Column_Test. */
  lemma AddClrTypeColumn()
    ensures AddColumn(TableName, CreatedColumn).Ok?
    ensures AddColumn(TableName, CreatedColumn).value.result == ResultType.None
    ensures AddColumn(TableName, CreatedColumn).value.text ==
      "ALTER TABLE " + ("[" + TableName + "]") + " ADD " + CreatedClause
  {
    StoredClause(CreatedColumn, "datetime", "", " DEFAULT GETDATE()");
  }

  /** Add_Sql_Type_Column_Test: the same text as the CLR-typed column. */
  lemma AddSqlTypeColumn()
    ensures AddColumn(TableName, SqlColumn("Created", SqlDbType.DateTime).(isAutoGenerated := true)) ==
            AddColumn(TableName, CreatedColumn)
  {
    assert SqlColumn("Created", SqlDbType.DateTime).(isAutoGenerated := true) == ToSqlTyped(CreatedColumn);
    SchemaWriterProperties.SqlTypedClauseAgrees(CreatedColumn);
  }

  /** Create_Non_Clustered_Index_Test. */
  lemma AddNonClusteredIndexText()
    ensures var s := AddNonClusteredIndex(TableName, [AscendingIndexColumn("Created"), AscendingIndexColumn("Id")]);
      s.Ok? && s.value.result == ResultType.None &&
      s.value.text ==
        "CREATE NONCLUSTERED INDEX " + ("[" + ("IX_" + TableName + "_" + ("Created" + "_" + "Id")) + "]") +
        " ON " + ("[" + TableName + "]") + " (" +
        (("[" + "Created" + "]") + " ASC" + ", " + (("[" + "Id" + "]") + " ASC")) + ")"
  {
    var cols := [AscendingIndexColumn("Created"), AscendingIndexColumn("Id")];
    assert IndexColumnNames(cols) == ["Created", "Id"];
    assert IndexColumnClauses(cols) == [("[" + "Created" + "]") + " ASC", ("[" + "Id" + "]") + " ASC"];
    JoinCons("Created", ["Id"], "_");
    JoinCons(("[" + "Created" + "]") + " ASC", [("[" + "Id" + "]") + " ASC"], ", ");
  }

  // ---------------------------------------------------------------------
  // Catalog listings

  /** The tested listing of one table, up to its object id. */
  const ListingHead :=
    "SELECT [name], CASE [system_type_id] " + "WHEN 167 THEN 231 WHEN 175 THEN 239 " +
    "WHEN 35 THEN 99 ELSE [system_type_id] " + "END AS [system_type_id], CASE " +
    "[user_type_id] WHEN 167 THEN 231 WHEN " + "175 THEN 239 WHEN 35 THEN 99 ELSE " +
    "[user_type_id] END AS [user_type_id] " + "FROM [sys].[columns] WHERE [object_id] " +
    "= "

  /** The tested column-details query, up to its join or filter. */
  const ColumnDetailsHead :=
    "SELECT [SC].[name], " + "[SC].[system_type_id], CAST(CASE WHEN " +
    "[SC].[system_type_id] IN (239, 231, 99) " + "THEN [SC].[max_length] / 2 ELSE " +
    "[SC].[max_length] END AS smallint) AS " + "[max_length], [SC].[is_nullable], " +
    "[SC].[is_identity], CAST((CASE " + "OBJECT_DEFINITION([SC].[default_object_id]) " +
    "WHEN '(GETDATE())' THEN 1 WHEN " + "'(NEWID())' THEN 1 WHEN " +
    "'(NEWSEQUENTIALID())' THEN 1 ELSE 0 " + "END) AS bit) AS [is_auto_generated], " +
    "CASE " + "OBJECT_DEFINITION([SC].[default_object_id]) " +
    "WHEN '(GETDATE())' THEN NULL WHEN " + "'(NEWID())' THEN NULL WHEN " +
    "'(NEWSEQUENTIALID())' THEN NULL ELSE " + "REPLACE(REPLACE(OBJECT_DEFINITION([SC].[default_object_id]), " +
    "'(', ''), ')', '') END AS " + "[default_value], " +
    "ISNULL([SI].[is_primary_key], 0) AS " + "[is_primary_key], CAST((CASE " +
    "[SI].[type] WHEN 1 THEN 1 ELSE 0 END) " + "AS bit) AS [is_primary_key_clustered], " +
    "[SC].[precision], [SC].[scale], " + "[SCC].[definition] AS [computation], " +
    "[SCC].[is_persisted] AS " + "[persisted_computation] FROM ( ( ( " +
    "[sys].[columns] [SC] LEFT JOIN " + "[sys].[index_columns] [SIC] ON " +
    "[SC].[column_id] = [SIC].[column_id] " + "AND [SC].[object_id] = " +
    "[SIC].[object_id] ) LEFT JOIN " + "[sys].[indexes] [SI] ON [SI].[index_id] " +
    "= [SIC].[index_id] AND [SI].[object_id] " + "= [SIC].[object_id] ) LEFT JOIN " +
    "[sys].[computed_columns] [SCC] ON " + "[SC].[column_id] = [SCC].[column_id] " +
    "AND [SC].[object_id] = " + "[SCC].[object_id] )"

  /** The tested index query, up to the table's object id. */
  const IndexDetailsHead :=
    "SELECT [SI].[name] , [SI].[type] , " + "[SI].[is_unique] , " +
    "[SI].[is_primary_key] , [SC].[name] AS " + "[column_name] , " +
    "[SIC].[is_descending_key] FROM " + "[sys].[indexes] [SI] JOIN " +
    "[sys].[index_columns] [SIC] ON " + "[SI].[object_id] = [SIC].[object_id] " +
    "AND [SI].[index_id] = [SIC].[index_id] " + "JOIN [sys].[columns] [SC] ON " +
    "[SIC].[object_id] = [SC].[object_id] " + "AND [SIC].[column_id] = " +
    "[SC].[column_id] WHERE [SI].[object_id] " + "= "

  /** The tested narrowing test, up to the source object ids. */
  const NarrowingHead :=
    "SELECT [__SubQuery__].[name], CAST(CASE " + "WHEN [SC].[system_type_id] < (SELECT " +
    "MAX([system_type_id]) FROM " + "[sys].[columns] WHERE [name] = " +
    "[__SubQuery__].[name] AND " + "[system_type_id] IN (175, 167, 35, 239, " +
    "231, 99) AND [object_id] IN ("

  /** The tested text between the source object ids and the intersected listings. */
  const NarrowingClose :=
    ")) THEN 1 ELSE 0 END AS bit) AS " + "[NarrowingConversion] FROM ("

  /** The tested join on the destination, up to its object id. */
  const DestinationHead :=
    ") [__SubQuery__] JOIN [sys].[columns] " + "[SC] ON [__SubQuery__].[name] = " +
    "[SC].[name] AND [SC].[object_id] = "

  /** The tested listing of one table's names and normalized type codes. */
  function Listing(table: string): string
  {
    ListingHead + ("OBJECT_ID(N'" + table + "')")
  }

  /** should_generate_proper_get_columns_sql. */
  lemma TableColumnsText()
    ensures TableColumns("XLIST_1").result == Multiple
    ensures TableColumns("XLIST_1").text ==
      ColumnDetailsHead + " WHERE [SC].[object_id] = " + ("OBJECT_ID(N'" + "XLIST_1" + "')")
  {
  }

  /** should_generate_proper_get_indexes_sql. */
  lemma GetIndexesText()
    ensures GetIndexes("XLIST_1").result == Multiple
    ensures GetIndexes("XLIST_1").text ==
      IndexDetailsHead + ("OBJECT_ID(N'" + "XLIST_1" + "')") + " ORDER BY [SI].[name]"
  {
  }

  /** should_generate_proper_create_table_columns_sql. */
  lemma CreateTableColumnsText()
    ensures CreateTableColumns(["XLIST_1"]).Ok?
    ensures CreateTableColumns(["XLIST_1"]).value.result == Multiple
    ensures CreateTableColumns(["XLIST_1"]).value.text ==
      ColumnDetailsHead + " JOIN (" + Listing("XLIST_1") +
      ") [__SubQuery__] ON [__SubQuery__].[name] = [SC].[name] AND [SC].[object_id] = " + ("OBJECT_ID(N'" + "XLIST_1" + "')")
  {
    TestedHeadsAgree();
    assert ColumnListings(["XLIST_1"]) == [ColumnListing("XLIST_1")];
    assert IntersectListings(["XLIST_1"]) == ColumnListing("XLIST_1");
  }

  /** The tested query heads are the builder's templates. */
  lemma TestedHeadsAgree()
    ensures ColumnDetailsHead == ColumnDetailsSelect && IndexDetailsHead == IndexDetailsSelect
    ensures ListingHead == NormalizedColumnsSelect && NarrowingHead == NarrowingSelect
    ensures NarrowingClose == NarrowingAlias && DestinationHead == DestinationJoin
  {
  }

  /** Columns_Test: three sources, intersected in order. */
  lemma UnionColumnsText()
    ensures UnionColumns(["XLIST_1", "XLIST_2", "XLIST_3"]).Ok?
    ensures UnionColumns(["XLIST_1", "XLIST_2", "XLIST_3"]).value.parameters == []
    ensures UnionColumns(["XLIST_1", "XLIST_2", "XLIST_3"]).value.text ==
      Listing("XLIST_1") + " INTERSECT " + (Listing("XLIST_2") + " INTERSECT " + Listing("XLIST_3"))
  {
    assert ColumnListings(["XLIST_1", "XLIST_2", "XLIST_3"]) == [Listing("XLIST_1"), Listing("XLIST_2"), Listing("XLIST_3")];
    JoinCons(Listing("XLIST_1"), [Listing("XLIST_2"), Listing("XLIST_3")], " INTERSECT ");
    JoinCons(Listing("XLIST_2"), [Listing("XLIST_3")], " INTERSECT ");
  }

  /** Insert_Into_Columns_Test: three sources copied into a fourth table. */
  lemma SharedColumnsText()
    ensures SharedColumns(["XLIST_1", "XLIST_2", "XLIST_3"], "XLIST_4").Ok?
    ensures SharedColumns(["XLIST_1", "XLIST_2", "XLIST_3"], "XLIST_4").value.parameters == []
    ensures SharedColumns(["XLIST_1", "XLIST_2", "XLIST_3"], "XLIST_4").value.text ==
      NarrowingHead +
      (("OBJECT_ID(N'" + "XLIST_1" + "')") + ", " +
       (("OBJECT_ID(N'" + "XLIST_2" + "')") + ", " + ("OBJECT_ID(N'" + "XLIST_3" + "')"))) +
      NarrowingClose +
      (Listing("XLIST_1") + " INTERSECT " + (Listing("XLIST_2") + " INTERSECT " +
       (Listing("XLIST_3") + " INTERSECT " + Listing("XLIST_4")))) +
      DestinationHead + ("OBJECT_ID(N'" + "XLIST_4" + "')")
  {
    var ids := ["OBJECT_ID(N'" + "XLIST_1" + "')", "OBJECT_ID(N'" + "XLIST_2" + "')", "OBJECT_ID(N'" + "XLIST_3" + "')"];
    assert ObjectIds(["XLIST_1", "XLIST_2", "XLIST_3"]) == ids;
    JoinCons(ids[0], ids[1..], ", ");
    JoinCons(ids[1], ids[2..], ", ");
    var all := ["XLIST_1", "XLIST_2", "XLIST_3"] + ["XLIST_4"];
    var listings := [Listing("XLIST_1"), Listing("XLIST_2"), Listing("XLIST_3"), Listing("XLIST_4")];
    assert ColumnListings(all) == listings;
    JoinCons(listings[0], listings[1..], " INTERSECT ");
    JoinCons(listings[1], listings[2..], " INTERSECT ");
    JoinCons(listings[2], listings[3..], " INTERSECT ");
  }
}
