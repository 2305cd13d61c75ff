/** SchemaWriter: the T-SQL builders for table, column and index DDL and for
    the catalog queries over sys.columns and sys.indexes. Every builder is a
    function from its arguments to a fresh Statement. */
module SchemaWriter {
  import opened Wrappers
  import opened Text
  import opened Schema

  function Bracket(name: string): string
  {
    "[" + name + "]"
  }

  // ---------------------------------------------------------------------
  // Column clauses

  /** The combinations of column arguments that have a rendering: a computed
      column always; a stored one when its type has a full type name, identity
      is only asked of an int, generation only of a uniqueidentifier or
      datetime without an explicit default, and a literal default only of a
      bit. */
  predicate Supported(c: Column)
  {
    var t := StorageType(c.columnType);
    c.computation.Some? ||
    ((t == NVarChar ==> c.length.Some?) &&
     (t == SqlDbType.Decimal ==> c.precision.Some?) &&
     (c.isIdentity ==> t == Int) &&
     (c.isAutoGenerated ==> c.defaultValue.None? && (t == UniqueIdentifier || t == SqlDbType.DateTime)) &&
     (c.defaultValue.Some? ==> t == Bit))
  }

  /** The physical type name with its length or precision/scale clause. */
  function TypeName(c: Column): (r: Result<string, Error>)
    ensures r.Ok? <==>
      (StorageType(c.columnType) == NVarChar ==> c.length.Some?) &&
      (StorageType(c.columnType) == SqlDbType.Decimal ==> c.precision.Some?)
  {
    match StorageType(c.columnType)
    case UniqueIdentifier => Ok("uniqueidentifier")
    case NVarChar =>
      if c.length.Some? then Ok("nvarchar (" + NatToString(c.length.value) + ")")
      else Err(UnsupportedType(c.name))
    case Bit => Ok("bit")
    case DateTime => Ok("datetime")
    case Int => Ok("int")
    case Decimal =>
      if c.precision.None? then Err(UnsupportedType(c.name))
      else if c.scale.None? then Ok("decimal (" + NatToString(c.precision.value) + ")")
      else Ok("decimal (" + NatToString(c.precision.value) + ", " + NatToString(c.scale.value) + ")")
  }

  /** IDENTITY(1,1) for an int identity, nothing for a column that is no
      identity. */
  function IdentityClause(c: Column): (r: Result<string, Error>)
    ensures r.Ok? <==> (c.isIdentity ==> StorageType(c.columnType) == Int)
    ensures r.Ok? ==> (r.value == "" <==> !c.isIdentity)
  {
    if !c.isIdentity then Ok("")
    else if StorageType(c.columnType) == Int then Ok(" IDENTITY(1,1)")
    else Err(UnsupportedType(c.name))
  }

  /** Both markers end in NULL; only a column that is not nullable gets the
      longer NOT NULL. */
  function NullClause(isNullable: bool): (r: string)
    ensures |r| >= 5 && r[|r| - 5..] == " NULL"
    ensures isNullable <==> |r| == 5
  {
    if isNullable then " NULL" else " NOT NULL"
  }

  /** A generated default (sequential GUID, current date) or a bit literal. */
  function DefaultClause(c: Column): (r: Result<string, Error>)
    ensures var t := StorageType(c.columnType);
      r.Ok? <==>
        (c.isAutoGenerated ==> c.defaultValue.None? && (t == UniqueIdentifier || t == SqlDbType.DateTime)) &&
        (c.defaultValue.Some? ==> t == Bit)
    ensures r.Ok? ==> (r.value == "" <==> !c.isAutoGenerated && c.defaultValue.None?)
  {
    var t := StorageType(c.columnType);
    if c.isAutoGenerated then
      if c.defaultValue.Some? then Err(UnsupportedType(c.name))
      else if t == UniqueIdentifier then Ok(" DEFAULT NEWSEQUENTIALID()")
      else if t == SqlDbType.DateTime then Ok(" DEFAULT GETDATE()")
      else Err(UnsupportedType(c.name))
    else
      match c.defaultValue
      case None => Ok("")
      case Some(BoolLiteral(b)) =>
        if t == Bit then Ok(if b then " DEFAULT 1" else " DEFAULT 0")
        else Err(UnsupportedType(c.name))
  }

  /** The column clause shared by create-table and add-column. A computed
      column renders its name and expression only, plus the persistence
      marker, which always carries NOT NULL. */
  function ColumnClause(c: Column): (r: Result<string, Error>)
    ensures r.Ok? <==> Supported(c)
    ensures r.Ok? ==> Bracket(c.name) <= r.value
  {
    match c.computation
    case Some(expr) =>
      Ok(Bracket(c.name) + " AS (" + expr + ")" + (if c.computationPersisted then " PERSISTED NOT NULL" else ""))
    case None =>
      var typeName :- TypeName(c);
      var identity :- IdentityClause(c);
      var default :- DefaultClause(c);
      Ok(Bracket(c.name) + " " + typeName + identity + NullClause(c.isNullable) + default)
  }

  /** The clauses of a column list, first failure wins. */
  function ColumnClauses(cols: seq<Column>): (r: Result<seq<string>, Error>)
    ensures r.Ok? <==> forall i :: 0 <= i < |cols| ==> Supported(cols[i])
    ensures r.Ok? ==> |r.value| == |cols|
    ensures r.Ok? ==> forall i :: 0 <= i < |cols| ==> r.value[i] == ColumnClause(cols[i]).value
  {
    if cols == [] then Ok([])
    else
      var head :- ColumnClause(cols[0]);
      var tail :- ColumnClauses(cols[1..]);
      Ok([head] + tail)
  }

  // ---------------------------------------------------------------------
  // Create table, add column

  /** The key columns, in declaration order: key columns of the list only
      (KeyColumnsComplete: and every one of them). */
  function KeyColumns(cols: seq<Column>): (keys: seq<Column>)
    ensures forall k :: k in keys ==> k in cols && IsKey(k)
    ensures |keys| <= |cols|
  {
    if cols == [] then []
    else (if IsKey(cols[0]) then [cols[0]] else []) + KeyColumns(cols[1..])
  }

  /** Every key column of the list is among the key columns. */
  lemma {:induction false} KeyColumnsComplete(cols: seq<Column>)
    ensures forall i :: 0 <= i < |cols| && IsKey(cols[i]) ==> cols[i] in KeyColumns(cols)
  {
    if cols != [] {
      KeyColumnsComplete(cols[1..]);
      forall i | 0 <= i < |cols| && IsKey(cols[i])
        ensures cols[i] in KeyColumns(cols)
      {
        if i > 0 {
          assert cols[i] == cols[1..][i - 1];
        }
      }
    }
  }

  /** The key columns of a concatenation are those of each part, in order. */
  lemma {:induction false} KeyColumnsAppend(xs: seq<Column>, ys: seq<Column>)
    ensures KeyColumns(xs + ys) == KeyColumns(xs) + KeyColumns(ys)
  {
    if xs != [] {
      assert (xs + ys)[0] == xs[0];
      assert (xs + ys)[1..] == xs[1..] + ys;
      KeyColumnsAppend(xs[1..], ys);
      var h := if IsKey(xs[0]) then [xs[0]] else [];
      assert KeyColumns(xs + ys) == h + (KeyColumns(xs[1..]) + KeyColumns(ys));
      assert KeyColumns(xs) == h + KeyColumns(xs[1..]);
      assert h + (KeyColumns(xs[1..]) + KeyColumns(ys)) == (h + KeyColumns(xs[1..])) + KeyColumns(ys);
    } else {
      assert xs + ys == ys;
    }
  }

  /** A list without key columns has no constraint. */
  lemma {:induction false} NoKeyColumns(cols: seq<Column>)
    requires forall i :: 0 <= i < |cols| ==> !IsKey(cols[i])
    ensures KeyColumns(cols) == []
  {
    if cols != [] {
      NoKeyColumns(cols[1..]);
    }
  }

  /** No key column is returned exactly when the list holds none. */
  lemma NoKeyColumnsIff(cols: seq<Column>)
    ensures KeyColumns(cols) == [] <==> forall i :: 0 <= i < |cols| ==> !IsKey(cols[i])
  {
    KeyColumnsComplete(cols);
    if forall i :: 0 <= i < |cols| ==> !IsKey(cols[i]) {
      NoKeyColumns(cols);
    }
  }

  /** At most one key column is returned exactly when no two positions of
      the list hold key columns. */
  lemma {:induction false} KeyColumnsAtMostOne(cols: seq<Column>)
    ensures |KeyColumns(cols)| <= 1 <==> SingleKeyPosition(cols)
  {
    if cols != [] {
      var rest := cols[1..];
      KeyColumnsAtMostOne(rest);
      if IsKey(cols[0]) {
        assert KeyColumns(cols) == [cols[0]] + KeyColumns(rest);
        NoKeyColumnsIff(rest);
        SingleKeyPositionFirst(cols);
      } else {
        assert KeyColumns(cols) == KeyColumns(rest);
        SingleKeyPositionSkip(cols);
      }
    }
  }

  /** No two positions of the list hold key columns. */
  predicate SingleKeyPosition(cols: seq<Column>)
  {
    forall i, j :: 0 <= i < j < |cols| && IsKey(cols[i]) ==> !IsKey(cols[j])
  }

  lemma SingleKeyPositionFirst(cols: seq<Column>)
    requires cols != [] && IsKey(cols[0])
    ensures SingleKeyPosition(cols) <==> forall i :: 0 <= i < |cols[1..]| ==> !IsKey(cols[1..][i])
  {
    if forall i :: 0 <= i < |cols[1..]| ==> !IsKey(cols[1..][i]) {
      forall i, j | 0 <= i < j < |cols| && IsKey(cols[i]) ensures !IsKey(cols[j]) {
        assert cols[j] == cols[1..][j - 1];
      }
    } else {
      var i :| 0 <= i < |cols[1..]| && IsKey(cols[1..][i]);
      assert IsKey(cols[i + 1]);
    }
  }

  lemma SingleKeyPositionSkip(cols: seq<Column>)
    requires cols != [] && !IsKey(cols[0])
    ensures SingleKeyPosition(cols) <==> SingleKeyPosition(cols[1..])
  {
    var rest := cols[1..];
    if SingleKeyPosition(rest) {
      forall i, j | 0 <= i < j < |cols| && IsKey(cols[i]) ensures !IsKey(cols[j]) {
        assert cols[i] == rest[i - 1] && cols[j] == rest[j - 1];
      }
    } else {
      var i, j :| 0 <= i < j < |rest| && IsKey(rest[i]) && IsKey(rest[j]);
      assert cols[i + 1] == rest[i] && cols[j + 1] == rest[j];
    }
  }

  /** The named primary-key constraint of a key column. */
  function KeyConstraint(table: string, key: Column): string
  {
    "CONSTRAINT " + Bracket("PK_" + table + "_" + key.name) + " PRIMARY KEY " +
    (if key.key == ClusteredPrimaryKey then "CLUSTERED (" else "(") + Bracket(key.name) + " ASC)"
  }

  /** The constraint clause of a column list: none without a key column. */
  function PrimaryKeyClause(table: string, cols: seq<Column>): Option<string>
  {
    var keys := KeyColumns(cols);
    if |keys| == 1 then Some(KeyConstraint(table, keys[0])) else Option.None
  }

  /** SchemaWriter.CreateTableCreateStatement. */
  function CreateTable(table: string, cols: seq<Column>): (r: Result<Statement, Error>)
    ensures r.Ok? <==> (forall i :: 0 <= i < |cols| ==> Supported(cols[i])) && |KeyColumns(cols)| <= 1
    ensures r.Ok? ==> r.value.result == ResultType.None && r.value.parameters == []
  {
    var clauses :- ColumnClauses(cols);
    if |KeyColumns(cols)| > 1 then Err(MultiplePrimaryKeys)
    else
      var constraint := PrimaryKeyClause(table, cols);
      var parts := clauses + (if constraint.Some? then [constraint.value] else []);
      Ok(Statement("CREATE TABLE " + Bracket(table) + " (" + Join(parts, ", ") + ")", [], ResultType.None))
  }

  /** SchemaWriter.CreateAddColumnStatement. */
  function AddColumn(table: string, c: Column): (r: Result<Statement, Error>)
    ensures r.Ok? <==> Supported(c)
    ensures r.Ok? ==> r.value.result == ResultType.None && r.value.parameters == []
  {
    var clause :- ColumnClause(c);
    Ok(Statement("ALTER TABLE " + Bracket(table) + " ADD " + clause, [], ResultType.None))
  }

  // ---------------------------------------------------------------------
  // Existence checks and guarded drops

  function TableProbe(table: string): string
  {
    "SELECT * FROM [sys].[tables] WHERE [name] = '" + table + "'"
  }

  function ObjectId(table: string): string
  {
    "OBJECT_ID(N'" + table + "')"
  }

  function ColumnProbe(table: string, column: string): string
  {
    "SELECT * FROM [sys].[columns] WHERE [object_id] = " + ObjectId(table) + " AND [name] = '" + column + "'"
  }

  function IndexProbe(table: string, index: string): string
  {
    "SELECT * FROM [sys].[indexes] WHERE [object_id] = " + ObjectId(table) + " AND [name] = '" + index + "'"
  }

  /** A DDL action that runs only when the catalog probe finds the object. */
  function Guarded(probe: string, action: string): Statement
  {
    Statement("IF EXISTS (" + probe + ") " + action, [], ResultType.None)
  }

  /** SchemaWriter.CreateTableExistsStatement: 1 or 0 as a bit. */
  function TableExists(table: string): (r: Statement)
    ensures r.result == Scalar && r.parameters == []
  {
    Statement("SELECT CAST(CASE WHEN EXISTS (" + TableProbe(table) + ") THEN 1 ELSE 0 END AS bit)", [], Scalar)
  }

  /** SchemaWriter.CreateDeleteTableStatement. */
  function DeleteTable(table: string): (r: Statement)
    ensures r.result == ResultType.None && r.parameters == []
    ensures "IF EXISTS (" <= r.text
  {
    Guarded(TableProbe(table), "DROP TABLE " + Bracket(table))
  }

  /** SchemaWriter.CreateRemoveColumnStatement. */
  function RemoveColumn(table: string, column: string): (r: Statement)
    ensures r.result == ResultType.None && r.parameters == []
    ensures "IF EXISTS (" <= r.text
  {
    Guarded(ColumnProbe(table, column), "ALTER TABLE " + Bracket(table) + " DROP COLUMN " + Bracket(column))
  }

  /** SchemaWriter.CreateRemoveNonClusteredIndexStatement. */
  function RemoveNonClusteredIndex(table: string, index: string): (r: Statement)
    ensures r.result == ResultType.None && r.parameters == []
    ensures "IF EXISTS (" <= r.text
  {
    Guarded(IndexProbe(table, index), "DROP INDEX " + Bracket(index) + " ON " + Bracket(table))
  }

  // ---------------------------------------------------------------------
  // Non-clustered indexes

  function IndexColumnNames(cols: seq<IndexColumn>): (names: seq<string>)
    ensures |names| == |cols| && forall i :: 0 <= i < |cols| ==> names[i] == cols[i].name
  {
    seq(|cols|, i requires 0 <= i < |cols| => cols[i].name)
  }

  function IndexColumnClause(c: IndexColumn): string
  {
    Bracket(c.name) + (if c.descending then " DESC" else " ASC")
  }

  function IndexColumnClauses(cols: seq<IndexColumn>): (clauses: seq<string>)
    ensures |clauses| == |cols| && forall i :: 0 <= i < |cols| ==> clauses[i] == IndexColumnClause(cols[i])
  {
    seq(|cols|, i requires 0 <= i < |cols| => IndexColumnClause(cols[i]))
  }

  /** The derived name of an unnamed index: IX_, the table, then each column
      name, separated by underscores. */
  function IndexName(table: string, cols: seq<IndexColumn>): string
  {
    "IX_" + table + "_" + Join(IndexColumnNames(cols), "_")
  }

  /** SchemaWriter.CreateAddNonClusteredIndexStatement. */
  function AddNonClusteredIndex(table: string, cols: seq<IndexColumn>): (r: Result<Statement, Error>)
    ensures r.Ok? <==> cols != []
    ensures r.Ok? ==> r.value.result == ResultType.None && r.value.parameters == []
  {
    if cols == [] then Err(NoIndexColumns)
    else
      Ok(Statement("CREATE NONCLUSTERED INDEX " + Bracket(IndexName(table, cols)) + " ON " + Bracket(table) +
                   " (" + Join(IndexColumnClauses(cols), ", ") + ")", [], ResultType.None))
  }

  // ---------------------------------------------------------------------
  // Catalog listings. The long sys.columns / sys.indexes queries are fixed
  // templates with the table name spliced in.

  /** A table's column names with their type codes, the wide text and
      binary codes folded onto their Unicode counterparts. */
  const NormalizedColumnsSelect :=
    "SELECT [name], CASE [system_type_id] " + "WHEN 167 THEN 231 WHEN 175 THEN 239 " +
    "WHEN 35 THEN 99 ELSE [system_type_id] " + "END AS [system_type_id], CASE " +
    "[user_type_id] WHEN 167 THEN 231 WHEN " + "175 THEN 239 WHEN 35 THEN 99 ELSE " +
    "[user_type_id] END AS [user_type_id] " + "FROM [sys].[columns] WHERE [object_id] " +
    "= "

  /** Every column's details joined with its index and computation. */
  const ColumnDetailsSelect :=
    "SELECT [SC].[name], " + "[SC].[system_type_id], CAST(CASE WHEN " +
    "[SC].[system_type_id] IN (239, 231, 99) " + "THEN [SC].[max_length] / 2 ELSE " +
    "[SC].[max_length] END AS smallint) AS " + "[max_length], [SC].[is_nullable], " +
    "[SC].[is_identity], CAST((CASE " + "OBJECT_DEFINITION([SC].[default_object_id]) " +
    "WHEN '(GETDATE())' THEN 1 WHEN " + "'(NEWID())' THEN 1 WHEN " +
    "'(NEWSEQUENTIALID())' THEN 1 ELSE 0 " + "END) AS bit) AS [is_auto_generated], " +
    "CASE " + "OBJECT_DEFINITION([SC].[default_object_id]) " +
    "WHEN '(GETDATE())' THEN NULL WHEN " + "'(NEWID())' THEN NULL WHEN " +
    "'(NEWSEQUENTIALID())' THEN NULL ELSE " + "REPLACE(REPLACE(OBJECT_DEFINITION([SC].[default_object_id]), " +
    "'(', ''), ')', '') END AS " + "[default_value], " +
    "ISNULL([SI].[is_primary_key], 0) AS " + "[is_primary_key], CAST((CASE " +
    "[SI].[type] WHEN 1 THEN 1 ELSE 0 END) " + "AS bit) AS [is_primary_key_clustered], " +
    "[SC].[precision], [SC].[scale], " + "[SCC].[definition] AS [computation], " +
    "[SCC].[is_persisted] AS " + "[persisted_computation] FROM ( ( ( " +
    "[sys].[columns] [SC] LEFT JOIN " + "[sys].[index_columns] [SIC] ON " +
    "[SC].[column_id] = [SIC].[column_id] " + "AND [SC].[object_id] = " +
    "[SIC].[object_id] ) LEFT JOIN " + "[sys].[indexes] [SI] ON [SI].[index_id] " +
    "= [SIC].[index_id] AND [SI].[object_id] " + "= [SIC].[object_id] ) LEFT JOIN " +
    "[sys].[computed_columns] [SCC] ON " + "[SC].[column_id] = [SCC].[column_id] " +
    "AND [SC].[object_id] = " + "[SCC].[object_id] )"

  /** Every index column with its index's name, kind and flags. */
  const IndexDetailsSelect :=
    "SELECT [SI].[name] , [SI].[type] , " + "[SI].[is_unique] , " +
    "[SI].[is_primary_key] , [SC].[name] AS " + "[column_name] , " +
    "[SIC].[is_descending_key] FROM " + "[sys].[indexes] [SI] JOIN " +
    "[sys].[index_columns] [SIC] ON " + "[SI].[object_id] = [SIC].[object_id] " +
    "AND [SI].[index_id] = [SIC].[index_id] " + "JOIN [sys].[columns] [SC] ON " +
    "[SIC].[object_id] = [SC].[object_id] " + "AND [SIC].[column_id] = " +
    "[SC].[column_id] WHERE [SI].[object_id] " + "= "

  /** The per-table listing of names and normalized type codes. */
  function ColumnListing(table: string): string
  {
    NormalizedColumnsSelect + ObjectId(table)
  }

  function ColumnListings(tables: seq<string>): (listings: seq<string>)
    ensures |listings| == |tables| && forall i :: 0 <= i < |tables| ==> listings[i] == ColumnListing(tables[i])
  {
    seq(|tables|, i requires 0 <= i < |tables| => ColumnListing(tables[i]))
  }

  /** The listings of every table, in order, combined with INTERSECT. */
  function IntersectListings(tables: seq<string>): string
  {
    Join(ColumnListings(tables), " INTERSECT ")
  }

  /** SchemaWriter.CreateTableColumnsStatement. */
  function TableColumns(table: string): (r: Statement)
    ensures r.result == Multiple && r.parameters == []
  {
    Statement(ColumnDetailsSelect + " WHERE [SC].[object_id] = " + ObjectId(table), [], Multiple)
  }

  /** SchemaWriter.CreateGetIndexesStatement. */
  function GetIndexes(table: string): (r: Statement)
    ensures r.result == Multiple && r.parameters == []
  {
    Statement(IndexDetailsSelect + ObjectId(table) + " ORDER BY [SI].[name]", [], Multiple)
  }

  /** SchemaWriter.CreateUnionColumnsStatement over the source tables of a
      set-operation chain, in chain order. */
  function UnionColumns(sources: seq<string>): (r: Result<Statement, Error>)
    ensures r.Ok? <==> sources != []
    ensures r.Ok? ==> r.value.result == Multiple && r.value.parameters == []
  {
    if sources == [] then Err(NoSources)
    else Ok(Statement(IntersectListings(sources), [], Multiple))
  }

  /** SchemaWriter.CreateCreateTableColumnsStatement: the column details of the
      first source, restricted to the columns every source shares. */
  function CreateTableColumns(sources: seq<string>): (r: Result<Statement, Error>)
    ensures r.Ok? <==> sources != []
    ensures r.Ok? ==> r.value.result == Multiple && r.value.parameters == []
  {
    if sources == [] then Err(NoSources)
    else
      Ok(Statement(ColumnDetailsSelect + " JOIN (" + IntersectListings(sources) + ") [__SubQuery__] ON [__SubQuery__].[name] = [SC].[name] AND [SC].[object_id] = " +
                   ObjectId(sources[0]), [], Multiple))
  }

  function ObjectIds(tables: seq<string>): (ids: seq<string>)
    ensures |ids| == |tables| && forall i :: 0 <= i < |tables| ==> ids[i] == ObjectId(tables[i])
  {
    seq(|tables|, i requires 0 <= i < |tables| => ObjectId(tables[i]))
  }

  /** The narrowing test: the destination's type code below the widest text
      or binary code any source uses for the same column name. */
  const NarrowingSelect :=
    "SELECT [__SubQuery__].[name], CAST(CASE " + "WHEN [SC].[system_type_id] < (SELECT " +
    "MAX([system_type_id]) FROM " + "[sys].[columns] WHERE [name] = " +
    "[__SubQuery__].[name] AND " + "[system_type_id] IN (175, 167, 35, 239, " +
    "231, 99) AND [object_id] IN ("

  const NarrowingAlias :=
    ")) THEN 1 ELSE 0 END AS bit) AS " + "[NarrowingConversion] FROM ("

  const DestinationJoin :=
    ") [__SubQuery__] JOIN [sys].[columns] " + "[SC] ON [__SubQuery__].[name] = " +
    "[SC].[name] AND [SC].[object_id] = "

  /** SchemaWriter.CreateSharedColumnsStatement: the columns the sources share
      with the destination, each flagged when a source stores it in a wider
      text or binary type than the destination. */
  function SharedColumns(sources: seq<string>, into: string): (r: Result<Statement, Error>)
    ensures r.Ok? <==> sources != []
    ensures r.Ok? ==> r.value.result == Multiple && r.value.parameters == []
  {
    if sources == [] then Err(NoSources)
    else
      Ok(Statement(
        NarrowingSelect + Join(ObjectIds(sources), ", ") + NarrowingAlias +
        IntersectListings(sources + [into]) + DestinationJoin + ObjectId(into), [], Multiple))
  }
}
