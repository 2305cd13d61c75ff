# Gribble query model and T-SQL schema writer in Dafny

Gribble is a .NET data-access library. It turns LINQ queries into a query
model and renders that model, together with table and index descriptors,
as T-SQL for SQL Server. This project models two pieces of it:

- **The query model** (`QueryModel`, in `query_model.dfy`).
  - `Select` holds the paging and cardinality toggles, the optional lists and
    `Where`, and the `Source` and `Target` tags.
  - `SetOperation` nests one `Select` inside another under an `Intersect` or
    `Compliment` tag.
  - The model includes the `Has*` getters and `HasConditions`.
  - Lemmas state how the getters relate to each other and to the raw fields:
    - the exact form of `HasConditions`;
    - the partition of set operations into intersections and compliments;
    - the defaults of a fresh `Select`;
    - the effect of turning on one field;
    - the finite depth of the nested query tree.
- **The schema writer's statement builders.**
  - `Schema` (`schema.dfy`) holds the column, index-column and statement
    descriptors.
  - `SchemaWriter` (`schema_writer.dfy`) holds the builders. Each is a pure
    function from its arguments to a `Statement`: SQL text, parameters and
    result shape. They cover:
    - create table and add column;
    - the table-exists check;
    - the guarded drops of a table, a column or an index;
    - non-clustered index creation under a derived name;
    - the catalog queries over `sys.columns` and `sys.indexes`: the column
      details, the indexes, the `INTERSECT` chain of per-table column listings,
      the create-table-columns query and the shared-columns query.
  - `SchemaWriterProperties` (`schema_writer_properties.dfy`) proves properties
    across calls:
    - CLR-typed and SqlDbType-typed columns render identically;
    - add-column reuses the create-table clause;
    - the key constraint and its `CLUSTERED` form;
    - the table drop is guarded by the probe the existence check runs, and
      different tables or columns get different drops and catalog queries;
    - index-name derivation;
    - how the catalog listings compose.
  - `SchemaWriterTests` (`schema_writer_tests.dfy`) proves every SQL text and
    result shape that the schema-writer tests assert.
    - Each expected text is the test's literal, written out in pieces
      independently of the builder's own templates.
  - `Text` (`text.dfy`) holds `string.Join` and the decimal rendering of
    natural numbers, with their round trip.
  - `Wrappers` (`wrappers.dfy`) holds `Option` and `Result`.

The `SchemaWriter` source is not part of this model. The builders are
reconstructed from the arguments and the exact outputs that
`src/Tests/TransactSql/SchemaWriterTests.cs` asserts.

`Supported` lists the descriptor combinations the builders render. For any
other combination they return an `Error`, rather than a guessed text:

- a string column needs a length, and a decimal column needs a precision;
- identity is allowed only on an int;
- auto-generation is allowed only on a uniqueidentifier or a datetime without
  an explicit default;
- a literal default is allowed only on a bit.

The builders also return an `Error` for more than one key column, an index
with no columns, and a set-operation chain with no sources. A few supported
combinations render text that no test pins; "## Left out" lists them.

## Model

| member | source | states |
|---|---|---|
| QueryModel.DefaultSelect | src/Gribble/Model/Select.cs:14-44 | A fresh Select has a table Source and a query Target, and `HasConditions` is false. |
| QueryModel.DefaultSetOperation | src/Gribble/Model/SetOperation.cs:5-12 | `new SetOperation()`: the first tag, Intersect, and no nested Select. |
| QueryModel.HasTop | src/Gribble/Model/Select.cs:16 | Top counts only when it is at least 1, so zero and negative values read as absent. |
| QueryModel.HasStart | src/Gribble/Model/Select.cs:19 | Start counts only when it is at least 1. |
| QueryModel.HasProjection | src/Gribble/Model/Select.cs:28 | The projection counts only when the list is non-null and non-empty. |
| QueryModel.HasWhere | src/Gribble/Model/Select.cs:35 | Where counts whenever it is non-null. |
| QueryModel.HasDistinct | src/Gribble/Model/Select.cs:38 | Distinct counts only when the list is non-null and non-empty. |
| QueryModel.HasOrderBy | src/Gribble/Model/Select.cs:41 | OrderBy counts only when the list is non-null and non-empty. |
| QueryModel.HasSetOperations | src/Gribble/Model/Select.cs:44 | Set operations count only when the list is non-null and non-empty. |
| QueryModel.AnyOfKind | src/Gribble/Model/Select.cs:45-46 | Walks the list front to back as `Any(x => x.Type == kind)` does. |
| QueryModel.HasIntersections | src/Gribble/Model/Select.cs:45 | The list is non-null and some element is tagged Intersect. |
| QueryModel.HasCompliments | src/Gribble/Model/Select.cs:46 | The list is non-null and some element is tagged Compliment. |
| QueryModel.HasConditions | src/Gribble/Model/Select.cs:48-50 | The disjunction of the eleven feature getters and flags; intersections and compliments are not among them. |
| QueryModel.HasConditionsIffSomeFeature | src/Gribble/Model/Select.cs:48-50 | `HasConditions` holds iff at least one of the eleven feature groups is present, both directions. |
| QueryModel.NoConditionsMeansPlainSelect | src/Gribble/Model/Select.cs:14-50 | Without conditions, every flag and every `Has*` getter is false, including intersections and compliments, and Top and Start are at most 0. |
| QueryModel.AnyOfKindExists | src/Gribble/Model/Select.cs:45-46 | `Any(x => x.Type == kind)` holds iff some element of the list carries that tag. |
| QueryModel.SetOperationsPartition | src/Gribble/Model/Select.cs:44-46 | Intersections imply set operations, and so do compliments. Because every element carries one of the two tags, set operations imply intersections or compliments. |
| QueryModel.SingleSetOperationHasOneTag | src/Gribble/Model/SetOperation.cs:5-12 | A single set operation makes exactly one of `HasIntersections` and `HasCompliments` true: the one matching its tag. |
| QueryModel.NestedDepthBound | src/Gribble/Model/Select.cs:43 | Every nested Select reached from index i onwards is at most as deep as the deepest one from i on. |
| QueryModel.NestedSelectIsShallower | src/Gribble/Model/SetOperation.cs:12 | Descending into the nested Select of any set operation strictly lowers the depth, so the model is a finite tree. |
| QueryModel.Apply | src/Gribble/Model/Select.cs:14-44 | Assigning one public field of a Select: the toggle's field takes its new value and every other field keeps its old one. |
| QueryModel.ToggleLeavesOtherFeature | src/Gribble/Model/Select.cs:14-46 | Assigning one field leaves the getter of every other feature group unchanged. |
| QueryModel.ToggleTurnsOnConditions | src/Gribble/Model/Select.cs:48-50 | Turning on a single field makes `HasConditions` true. It also makes that field's own getter true and leaves every other getter unchanged, including intersections and compliments unless the set operations were the field set. |
| Schema.ClrColumn | src/Tests/TransactSql/SchemaWriterTests.cs:42-48 | `new Column(name, typeof(t))` with every optional argument at its default: not nullable, no key, no identity, no generation, no default, no length, precision, scale or computation. |
| Schema.SqlColumn | src/Tests/TransactSql/SchemaWriterTests.cs:54-60 | `new Column(name, sqlType: t)` with the same defaults as the CLR-typed constructor. |
| Schema.SqlTypeOf | src/Tests/TransactSql/SchemaWriterTests.cs:42-60 | The SqlDbType a CLR type is stored as: Guid as uniqueidentifier, string as nvarchar, bool as bit, DateTime as datetime, int as int, decimal as decimal, which is why the CLR-typed and SqlDbType-typed tests assert the same text. |
| Schema.StorageType | src/Tests/TransactSql/SchemaWriterTests.cs:42-60 | A CLR-declared column is stored as the SqlDbType of its CLR type, and a SqlDbType-declared column as that type. |
| Schema.ToSqlTyped | src/Tests/TransactSql/SchemaWriterTests.cs:54-60 | The SqlDbType-declared twin of a column stores as the same SqlDbType and differs from the column in nothing else. |
| SchemaWriter.Bracket | src/Tests/TransactSql/SchemaWriterTests.cs:42-48 | A name between square brackets, as every asserted table, column, index and constraint name appears. |
| SchemaWriter.Supported | src/Tests/TransactSql/SchemaWriterTests.cs:42-114 | The descriptor combinations that render: a length on strings, a precision on decimals, identity only on int, generation only on uniqueidentifier or datetime without a default, a literal default only on bit. A computed column always renders. |
| SchemaWriter.TypeName | src/Tests/TransactSql/SchemaWriterTests.cs:42-96 | The type name renders iff a string column has a length and a decimal column has a precision. |
| SchemaWriter.IdentityClause | src/Tests/TransactSql/SchemaWriterTests.cs:66-78 | Identity renders iff it is asked for only on an int. The clause is empty iff identity is not asked for. |
| SchemaWriter.NullClause | src/Tests/TransactSql/SchemaWriterTests.cs:42-48 | The clause ends in ` NULL`, and it is exactly ` NULL` iff the column is nullable. |
| SchemaWriter.DefaultClause | src/Tests/TransactSql/SchemaWriterTests.cs:42-48 | The default renders iff generation is asked for only on a uniqueidentifier or datetime without a literal default, and a literal default only on a bit. The clause is empty iff neither is asked for. |
| SchemaWriter.ColumnClause | src/Tests/TransactSql/SchemaWriterTests.cs:42-114 | A column renders iff its combination is supported, and its clause starts with its bracketed name. |
| SchemaWriter.ColumnClauses | src/Tests/TransactSql/SchemaWriterTests.cs:42-48 | A column list renders iff every column is supported. It gives one clause per column, in declaration order. |
| SchemaWriter.KeyColumns | src/Tests/TransactSql/SchemaWriterTests.cs:42-78 | The key columns are columns of the list that carry a primary-key role, and there are no more of them than columns. |
| SchemaWriter.KeyColumnsComplete | src/Tests/TransactSql/SchemaWriterTests.cs:42-78 | Every column of the list that carries a primary-key role is among the key columns. |
| SchemaWriter.KeyColumnsAppend | src/Tests/TransactSql/SchemaWriterTests.cs:42-78 | The key columns of a concatenation are those of each part, in order. |
| SchemaWriter.NoKeyColumns | src/Tests/TransactSql/SchemaWriterTests.cs:84-114 | A list without key-role columns has no key columns. |
| SchemaWriter.NoKeyColumnsIff | src/Tests/TransactSql/SchemaWriterTests.cs:42-114 | The key columns are empty iff no column of the list carries a primary-key role. |
| SchemaWriter.KeyColumnsAtMostOne | src/Tests/TransactSql/SchemaWriterTests.cs:42-78 | At most one key column is found iff no two positions of the list both carry a primary-key role. |
| SchemaWriter.KeyConstraint | src/Tests/TransactSql/SchemaWriterTests.cs:42-78 | `CONSTRAINT [PK_<table>_<key>] PRIMARY KEY`, then `CLUSTERED ` for a clustered key, then the bracketed key column `ASC`. |
| SchemaWriter.PrimaryKeyClause | src/Tests/TransactSql/SchemaWriterTests.cs:42-78 | The key constraint of the single key column, and none when the list has no single key. |
| SchemaWriter.CreateTable | src/Tests/TransactSql/SchemaWriterTests.cs:42-114 | CREATE TABLE succeeds iff every column is supported and at most one column is a key. Then it has result shape None and no parameters. |
| SchemaWriter.AddColumn | src/Tests/TransactSql/SchemaWriterTests.cs:207-219 | ADD COLUMN succeeds iff the column is supported. Then it has result shape None and no parameters. |
| SchemaWriter.TableProbe | src/Tests/TransactSql/SchemaWriterTests.cs:120-130 | The probe for a table by name in `sys.tables`. |
| SchemaWriter.ObjectId | src/Tests/TransactSql/SchemaWriterTests.cs:225-227 | `OBJECT_ID(N'<table>')`, the lookup that every column and index probe and every catalog query filters on. |
| SchemaWriter.ColumnProbe | src/Tests/TransactSql/SchemaWriterTests.cs:225-227 | The probe for a column by the table's object id and the column name in `sys.columns`. |
| SchemaWriter.IndexProbe | src/Tests/TransactSql/SchemaWriterTests.cs:241-243 | The probe for an index by the table's object id and the index name in `sys.indexes`. |
| SchemaWriter.Guarded | src/Tests/TransactSql/SchemaWriterTests.cs:128-130 | An action run only `IF EXISTS` the probe finds a row, with no parameters and result shape None. |
| SchemaWriter.TableExists | src/Tests/TransactSql/SchemaWriterTests.cs:120-122 | The existence check has result shape Scalar and no parameters. |
| SchemaWriter.DeleteTable | src/Tests/TransactSql/SchemaWriterTests.cs:128-130 | DROP TABLE has result shape None and no parameters, and starts with the `IF EXISTS (` guard. |
| SchemaWriter.RemoveColumn | src/Tests/TransactSql/SchemaWriterTests.cs:225-227 | DROP COLUMN has result shape None and no parameters, and starts with the `IF EXISTS (` guard. |
| SchemaWriter.RemoveNonClusteredIndex | src/Tests/TransactSql/SchemaWriterTests.cs:241-243 | DROP INDEX has result shape None and no parameters, and starts with the `IF EXISTS (` guard. |
| SchemaWriter.IndexColumnNames | src/Tests/TransactSql/SchemaWriterTests.cs:233-235 | The names of the index columns, one per column, in the given order. |
| SchemaWriter.IndexColumnClause | src/Tests/TransactSql/SchemaWriterTests.cs:233-235 | The bracketed column name, then ` ASC`, or ` DESC` for a descending column. |
| SchemaWriter.IndexColumnClauses | src/Tests/TransactSql/SchemaWriterTests.cs:233-235 | One ordered clause per index column, in the given order. |
| SchemaWriter.IndexName | src/Tests/TransactSql/SchemaWriterTests.cs:233-235 | `IX_`, the table, `_`, and the index column names joined by `_`. |
| SchemaWriter.AddNonClusteredIndex | src/Tests/TransactSql/SchemaWriterTests.cs:233-235 | CREATE INDEX succeeds iff it has at least one column. Then it has result shape None and no parameters. |
| SchemaWriter.ColumnListing | src/Tests/TransactSql/SchemaWriterTests.cs:176-183 | One table's column names with their normalized type codes, filtered on the table's object id. |
| SchemaWriter.ColumnListings | src/Tests/TransactSql/SchemaWriterTests.cs:176-183 | One normalized column listing per table, in the given order. |
| SchemaWriter.IntersectListings | src/Tests/TransactSql/SchemaWriterTests.cs:195-201 | The listings of the tables, in the given order, joined by ` INTERSECT `. |
| SchemaWriter.TableColumns | src/Tests/TransactSql/SchemaWriterTests.cs:154-161 | The column-details query has result shape Multiple and no parameters. |
| SchemaWriter.GetIndexes | src/Tests/TransactSql/SchemaWriterTests.cs:167-170 | The index query has result shape Multiple and no parameters. |
| SchemaWriter.UnionColumns | src/Tests/TransactSql/SchemaWriterTests.cs:176-183 | The union-columns query succeeds iff there is a source. Then it has result shape Multiple and zero parameters. |
| SchemaWriter.CreateTableColumns | src/Tests/TransactSql/SchemaWriterTests.cs:136-148 | The create-table-columns query succeeds iff there is a source. Then it has result shape Multiple and no parameters. |
| SchemaWriter.ObjectIds | src/Tests/TransactSql/SchemaWriterTests.cs:189-201 | One `OBJECT_ID(N'...')` lookup per source, in order. |
| SchemaWriter.SharedColumns | src/Tests/TransactSql/SchemaWriterTests.cs:189-201 | The shared-columns query succeeds iff there is a source. Then it has result shape Multiple and zero parameters. |
| SchemaWriterProperties.SqlTypedClauseAgrees | src/Tests/TransactSql/SchemaWriterTests.cs:207-219 | A column declared by CLR type and the same column declared by its SqlDbType render the same clause, or fail alike. |
| SchemaWriterProperties.SqlTypedColumns | src/Tests/TransactSql/SchemaWriterTests.cs:54-60 | Each column of a list, redeclared by its SqlDbType, in the same order. |
| SchemaWriterProperties.SqlTypedKeyColumns | src/Tests/TransactSql/SchemaWriterTests.cs:54-60 | Redeclaring the columns by SqlDbType keeps the key columns, up to their declared type. |
| SchemaWriterProperties.SqlTypedKeyList | src/Tests/TransactSql/SchemaWriterTests.cs:54-60 | Redeclaring the columns by SqlDbType and then taking the key columns equals taking the key columns and then redeclaring them. |
| SchemaWriterProperties.SqlTypedClauses | src/Tests/TransactSql/SchemaWriterTests.cs:54-60 | Redeclaring a list by SqlDbType renders the same clause list. |
| SchemaWriterProperties.SqlTypedTableAgrees | src/Tests/TransactSql/SchemaWriterTests.cs:42-60 | CREATE TABLE over CLR-typed columns and over the same columns typed by SqlDbType gives the same statement or the same error. |
| SchemaWriterProperties.ComputedClauseIgnoresStorage | src/Tests/TransactSql/SchemaWriterTests.cs:102-105 | A computed column's clause does not depend on its type, nullability, identity, generation or default. It always renders. |
| SchemaWriterProperties.ComputedClauseEnding | src/Tests/TransactSql/SchemaWriterTests.cs:102-114 | A persisted computation ends in ` PERSISTED NOT NULL`. An unpersisted one is exactly `[name] AS (expr)`. |
| SchemaWriterProperties.NullabilityInsertsNot | src/Tests/TransactSql/SchemaWriterTests.cs:42-48 | The clause of a stored column that is not nullable is that of the same column made nullable, with ` NOT` inserted just before its ` NULL`, which sits right before the default. |
| SchemaWriterProperties.DefaultClauseText | src/Tests/TransactSql/SchemaWriterTests.cs:42-48 | A default that renders is ` DEFAULT ` and then its value: `NEWSEQUENTIALID()` for a generated uniqueidentifier, `GETDATE()` for a generated datetime, and the digit 1 or 0 for a bit literal. |
| SchemaWriterProperties.DecimalTypeNameInjective | src/Tests/TransactSql/SchemaWriterTests.cs:84-96 | Two decimal type names are equal only when precision and scale are equal. |
| SchemaWriterProperties.DecimalTail | src/Tests/TransactSql/SchemaWriterTests.cs:84-96 | What follows the precision digits is a non-digit. It is a comma iff a scale is given. |
| SchemaWriterProperties.DecimalTypeNameSplits | src/Tests/TransactSql/SchemaWriterTests.cs:84-96 | A decimal type name is `decimal (`, the precision digits, and then the tail. |
| SchemaWriterProperties.AddColumnMatchesCreateTable | src/Tests/TransactSql/SchemaWriterTests.cs:207-210 | ADD COLUMN and a one-column CREATE TABLE render the same column clause. |
| SchemaWriterProperties.ColumnClausesAppend | src/Tests/TransactSql/SchemaWriterTests.cs:42-48 | Appending a supported column appends its clause, which keeps declaration order. |
| SchemaWriterProperties.CreateTableKeyless | src/Tests/TransactSql/SchemaWriterTests.cs:84-114 | Without a key column, CREATE TABLE lists the column clauses alone, joined by `, `. |
| SchemaWriterProperties.CreateTableAppendColumn | src/Tests/TransactSql/SchemaWriterTests.cs:42-48 | Appending a non-key column to a keyless table inserts `, ` and its clause just before the closing parenthesis. |
| SchemaWriterProperties.ClusteredConstraint | src/Tests/TransactSql/SchemaWriterTests.cs:66-78 | The clustered constraint is the plain one with `CLUSTERED ` inserted after `PRIMARY KEY `, and nothing else differs. |
| SchemaWriterProperties.PrimaryKeyClauseRotation | src/Tests/TransactSql/SchemaWriterTests.cs:42-78 | The key constraint and the key count do not depend on where the key column sits in the list. |
| SchemaWriterProperties.CreateTableKeyCount | src/Tests/TransactSql/SchemaWriterTests.cs:42-78 | For supported columns, CREATE TABLE fails with MultiplePrimaryKeys iff two positions of the list both hold key columns, and succeeds iff no two do. |
| SchemaWriterProperties.CreateTableSingleKey | src/Tests/TransactSql/SchemaWriterTests.cs:42-78 | With exactly one key column, wherever it sits among supported columns, CREATE TABLE lists every column clause in order and then that column's constraint. |
| SchemaWriterProperties.DeleteTableProbesLikeTableExists | src/Tests/TransactSql/SchemaWriterTests.cs:120-130 | DROP TABLE is guarded by the very probe the existence check runs. |
| SchemaWriterProperties.DeleteTableInjective | src/Tests/TransactSql/SchemaWriterTests.cs:128-130 | Different tables get different DROP TABLE statements. |
| SchemaWriterProperties.TableExistsInjective | src/Tests/TransactSql/SchemaWriterTests.cs:120-122 | Different tables get different existence checks. |
| SchemaWriterProperties.RemoveColumnDistinguishesColumns | src/Tests/TransactSql/SchemaWriterTests.cs:225-227 | On one table, different columns get different DROP COLUMN statements. |
| SchemaWriterProperties.RemoveColumnDistinguishesTables | src/Tests/TransactSql/SchemaWriterTests.cs:225-227 | For one column name, different tables get different DROP COLUMN statements. |
| SchemaWriterProperties.RemoveColumnProbesDroppedColumn | src/Tests/TransactSql/SchemaWriterTests.cs:225-227 | DROP COLUMN is guarded by the probe for that same table and column, and the statement ends by dropping that same column. |
| SchemaWriterProperties.TableColumnsInjective | src/Tests/TransactSql/SchemaWriterTests.cs:154-161 | Different tables get different column-details queries. |
| SchemaWriterProperties.GetIndexesInjective | src/Tests/TransactSql/SchemaWriterTests.cs:167-170 | Different tables get different index queries. |
| SchemaWriterProperties.IndexNameAppend | src/Tests/TransactSql/SchemaWriterTests.cs:233-235 | Each added index column appends `_` and its name to the derived index name. |
| SchemaWriterProperties.IndexColumnListAppend | src/Tests/TransactSql/SchemaWriterTests.cs:233-235 | Each added index column appends `, [c] ASC` (or ` DESC`) to the index's column list. |
| SchemaWriterProperties.RemoveDropsAddedIndex | src/Tests/TransactSql/SchemaWriterTests.cs:233-243 | DROP INDEX, given the derived name, drops the index that CREATE INDEX made under that name on the same table. |
| SchemaWriterProperties.IndexNamesCanCollide | src/Tests/TransactSql/SchemaWriterTests.cs:233-235 | The derived name is not injective: a column `b_c` and the columns `b`, `c` give the same index name. |
| SchemaWriterProperties.IntersectListingsAppend | src/Tests/TransactSql/SchemaWriterTests.cs:176-183 | One more source adds ` INTERSECT ` and its listing at the end, so the chain keeps source order. |
| SchemaWriterProperties.UnionColumnsSingle | src/Tests/TransactSql/SchemaWriterTests.cs:176-183 | A single source gives its own listing, with no INTERSECT. |
| SchemaWriterProperties.SharedColumnsExtendsUnion | src/Tests/TransactSql/SchemaWriterTests.cs:189-201 | The shared-columns query intersects the union-columns listing of the sources with the destination's listing. It tests narrowing against the sources' object ids and joins on the destination's columns. |
| SchemaWriterProperties.CreateTableColumnsEmbedsUnion | src/Tests/TransactSql/SchemaWriterTests.cs:136-148 | The create-table-columns query is the column details of the first source, joined to the union-columns listing of all sources. |
| SchemaWriterProperties.CreateTableColumnsDistinguishesFirstSource | src/Tests/TransactSql/SchemaWriterTests.cs:136-148 | With the same further sources, different first sources give different create-table-columns queries. |
| SchemaWriterProperties.ObjectIdInjective | src/Tests/TransactSql/SchemaWriterTests.cs:225-227 | Different tables get different object-id lookups. |
| SchemaWriterTests.FourClauses | src/Tests/TransactSql/SchemaWriterTests.cs:42-60 | Four rendered columns give their four clauses, in order. |
| SchemaWriterTests.CreateTableKeyed | src/Tests/TransactSql/SchemaWriterTests.cs:42-78 | CREATE TABLE with one key column in front lists the clauses and then the key constraint. |
| SchemaWriterTests.CreateTableOneColumn | src/Tests/TransactSql/SchemaWriterTests.cs:84-114 | CREATE TABLE with one non-key column is that column's clause in parentheses. |
| SchemaWriterTests.CreateTableOneKey | src/Tests/TransactSql/SchemaWriterTests.cs:66-78 | CREATE TABLE with one key column is its clause, `, ` and its constraint. |
| SchemaWriterTests.ClrColumnClauses | src/Tests/TransactSql/SchemaWriterTests.cs:42-47 | The four test columns render as `uniqueidentifier ... DEFAULT NEWSEQUENTIALID()`, `nvarchar (500) NULL`, `bit NOT NULL DEFAULT 1` and `datetime NOT NULL DEFAULT GETDATE()`. |
| SchemaWriterTests.CreateTableWithClrTypes | src/Tests/TransactSql/SchemaWriterTests.cs:42-48 | The asserted CREATE TABLE text and result shape None, for CLR-typed columns. |
| SchemaWriterTests.SqlColumnsRedeclareClrColumns | src/Tests/TransactSql/SchemaWriterTests.cs:54-59 | The SqlDbType-typed test columns are exactly the CLR-typed ones redeclared by their SqlDbType. |
| SchemaWriterTests.CreateTableWithSqlTypes | src/Tests/TransactSql/SchemaWriterTests.cs:54-60 | The SqlDbType-typed table gives the same statement as the CLR-typed one, so the same asserted text, with result shape None. |
| SchemaWriterTests.CreateTableIdentity | src/Tests/TransactSql/SchemaWriterTests.cs:66-69 | `[Id] int IDENTITY(1,1) NOT NULL` with the plain key constraint, result shape None. |
| SchemaWriterTests.CreateTableClusteredPrimaryKey | src/Tests/TransactSql/SchemaWriterTests.cs:75-78 | The same table with `PRIMARY KEY CLUSTERED ([Id] ASC)`, result shape None. |
| SchemaWriterTests.CreateTableDecimalPrecision | src/Tests/TransactSql/SchemaWriterTests.cs:84-87 | `[Value] decimal (5) NOT NULL`, result shape None. |
| SchemaWriterTests.CreateTableDecimalPrecisionAndScale | src/Tests/TransactSql/SchemaWriterTests.cs:93-96 | `[Value] decimal (5, 1) NOT NULL`, result shape None. |
| SchemaWriterTests.CreateTableComputed | src/Tests/TransactSql/SchemaWriterTests.cs:102-105 | `[Value] AS (1 + 1)` with no nullability, though the column is declared nullable. Result shape None. |
| SchemaWriterTests.CreateTablePersistedComputed | src/Tests/TransactSql/SchemaWriterTests.cs:111-114 | `[Value] AS (1 + 1) PERSISTED NOT NULL`, result shape None. |
| SchemaWriterTests.TableExistsText | src/Tests/TransactSql/SchemaWriterTests.cs:120-122 | The asserted existence check, result shape Scalar. |
| SchemaWriterTests.DeleteTableText | src/Tests/TransactSql/SchemaWriterTests.cs:128-130 | The asserted guarded DROP TABLE, result shape None. |
| SchemaWriterTests.RemoveColumnText | src/Tests/TransactSql/SchemaWriterTests.cs:225-227 | The asserted guarded DROP COLUMN, result shape None. |
| SchemaWriterTests.RemoveNonClusteredIndexText | src/Tests/TransactSql/SchemaWriterTests.cs:241-243 | The asserted guarded DROP INDEX, result shape None. |
| SchemaWriterTests.AddClrTypeColumn | src/Tests/TransactSql/SchemaWriterTests.cs:207-210 | The asserted ADD COLUMN text, result shape None. |
| SchemaWriterTests.AddSqlTypeColumn | src/Tests/TransactSql/SchemaWriterTests.cs:216-219 | The SqlDbType-typed ADD COLUMN equals the CLR-typed one. |
| SchemaWriterTests.AddNonClusteredIndexText | src/Tests/TransactSql/SchemaWriterTests.cs:233-235 | `[IX_some_table_in_the_db_Created_Id]` on `([Created] ASC, [Id] ASC)`, result shape None. |
| SchemaWriterTests.TableColumnsText | src/Tests/TransactSql/SchemaWriterTests.cs:154-161 | The column-details query for XLIST_1, result shape Multiple. |
| SchemaWriterTests.GetIndexesText | src/Tests/TransactSql/SchemaWriterTests.cs:167-170 | The index query for XLIST_1, ordered by index name, result shape Multiple. |
| SchemaWriterTests.CreateTableColumnsText | src/Tests/TransactSql/SchemaWriterTests.cs:136-148 | The create-table-columns query for XLIST_1, result shape Multiple. |
| SchemaWriterTests.UnionColumnsText | src/Tests/TransactSql/SchemaWriterTests.cs:176-183 | XLIST_1, XLIST_2 and XLIST_3 listings joined by ` INTERSECT ` in order, with zero parameters. |
| SchemaWriterTests.SharedColumnsText | src/Tests/TransactSql/SchemaWriterTests.cs:189-201 | The asserted shared-columns query from XLIST_1 to XLIST_3 into XLIST_4, with zero parameters. |
| Text.Join | src/Tests/TransactSql/SchemaWriterTests.cs:42-48 | `string.Join`: no text for no parts, the part itself for one part, and otherwise the first part, the separator and the join of the rest. |
| Text.JoinCons | src/Tests/TransactSql/SchemaWriterTests.cs:42-48 | Joining a part in front of a non-empty list puts one separator after it. |
| Text.JoinAppend | src/Tests/TransactSql/SchemaWriterTests.cs:176-183 | Joining a part after a non-empty list puts one separator before it. |
| Text.JoinConcat | src/Tests/TransactSql/SchemaWriterTests.cs:176-183 | Joining two non-empty lists puts exactly one separator between their joins. |
| Text.NatToString | src/Tests/TransactSql/SchemaWriterTests.cs:84-96 | A number renders as a non-empty run of decimal digits, with no leading zero except for 0 itself. |
| Text.DigitRoundTrip | src/Tests/TransactSql/SchemaWriterTests.cs:84-96 | A digit's character reads back as the digit. |
| Text.ParseNatToString | src/Tests/TransactSql/SchemaWriterTests.cs:84-96 | Rendering a number and reading it back gives the number. |
| Text.NatToStringInjective | src/Tests/TransactSql/SchemaWriterTests.cs:84-96 | Different numbers render as different text. |

## Left out

- `src/Gribble/ConnectionManager.cs` is not modelled. It is connection plumbing over ADO.NET: opening, command creation, timeouts and disposal, all I/O and resource lifetime.
- `src/Gribble/IStoredProcedure.cs` is not modelled. It is an interface with no bodies.
- The LINQ front end is not modelled: `MockQueryable`, `QueryVisitor.CreateModel`, and `Union`/`Take`/`Skip`/`OrderBy`/`CopyTo`. Its source is not part of this model, and it works over .NET expression trees.
  - The union-columns, create-table-columns and shared-columns builders therefore take the source table names directly, in chain order, and not a `Select` tree.
- The SchemaWriter source is not part of this model. Its builders are reconstructed from the tests' asserted outputs.
  - Descriptor combinations outside `Supported` return an `Error`, rather than text the real builder might produce. The supported renderings that no test pins are listed next.
- SchemaWriter.DefaultClause renders a false bit default as ` DEFAULT 0`. No test pins it; it mirrors the asserted ` DEFAULT 1`.
- SchemaWriter.IndexColumnClause renders a descending index column with ` DESC`. No test pins it; it mirrors the asserted ` ASC`.
- SchemaWriter.CreateTable renders `CREATE TABLE [t] ()` for an empty column list. No test pins it.
- SchemaWriter.UnionColumns returns result shape Multiple. No test pins it: src/Tests/TransactSql/SchemaWriterTests.cs:176-183 checks only the text and the parameter count.
- SchemaWriter.SharedColumns returns result shape Multiple. No test pins it: src/Tests/TransactSql/SchemaWriterTests.cs:189-201 checks only the text and the parameter count.
- SchemaWriter.CreateTableColumns filters on the first source's object id when given several sources. The test at src/Tests/TransactSql/SchemaWriterTests.cs:136-148 pins one source only.
- SchemaWriter.TypeName renders `decimal (5)` for a precision with no scale, as src/Tests/TransactSql/SchemaWriterTests.cs:84-87 asserts.
- SchemaWriter.ColumnClause renders a persisted computed column as ` PERSISTED NOT NULL`. src/Tests/TransactSql/SchemaWriterTests.cs:111-114 pins this only for a column that is not nullable; the same rendering for a nullable persisted column is the model's choice.
- SchemaWriter.ColumnClause ignores the declared type, nullability, identity, generation and default of a computed column (ComputedClauseIgnoresStorage). No test pins this.
- SchemaWriter.TypeName drops a length on any type but nvarchar, and a precision or scale on any type but decimal: an int column `c` with a length of 10 renders as `[c] int NOT NULL`. No test pins this.
- SchemaWriter.AddColumn accepts a primary-key column and renders no key constraint for it. No test pins this.
- The catalog SQL over `sys.columns` and `sys.indexes` is treated as fixed templates with the table name spliced in.
  - What SQL Server computes when it runs them is not modelled. This includes the type-code normalization, the length halving, the generator detection and the narrowing-conversion flag.
- Float, double, byte, long, binary and dictionary column types have no asserted rendering, so they are not modelled.
- Table, column and index names are spliced in verbatim. No test pins how `]` or `'` inside a name would be escaped.
- Column length, precision and scale are natural numbers. The C# parameters are `int`, and negative values have no asserted rendering.
- QueryModel.Select: `Top` and `Start` are unbounded integers rather than 32-bit. The getters only compare them with zero, so the width does not matter.
- QueryModel.Select is a C# class with public fields that callers assign. The model is a datatype, and an assignment is modelled by `Apply` on a `Toggle`, which produces the updated value.
  - Aliasing of a `Select` shared between two owners is not captured.
- QueryModel.Select: `Data`, `Projection`, `SelectProjection`, `OrderByProjection` and `Operator` are referenced but not part of this model. They are minimal datatypes carrying only what the getters look at.
- QueryModel.NestedSelectIsShallower holds for the datatype, which is always a finite tree. A C# `Select` is a mutable object and can reach itself through `SetOperatons`; such a cycle has no depth and is not modelled.
- QueryModel.SetOperationsPartition: a C# `SetOperatons` list may hold a null element, and then `HasIntersections` and `HasCompliments` throw (src/Gribble/Model/Select.cs:45-46). The model's elements are never null, so its third ensures does not speak about that case.
- QueryModel.DefaultSetOperation has no contract. The C# class declares no constructor logic, so there is nothing to state beyond its field values.
- Statement parameters are always empty for the builders modelled. Parameter binding for data queries is not part of this model.
