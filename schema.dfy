/** The schema descriptors the statement builders take (Column, Index.Column)
    and the Statement value they return. Their fields are those the
    constructor calls of the schema-writer tests pass. */
module Schema {
  import opened Wrappers

  /** The CLR types a column can be declared with through `typeof(...)`. */
  datatype ClrType = Guid | String | Boolean | DateTime | Int32 | Decimal

  /** The System.Data.SqlDbType members a column can be declared with. */
  datatype SqlDbType = UniqueIdentifier | NVarChar | Bit | DateTime | Int | Decimal

  /** A column is declared either by CLR type or by SqlDbType. */
  datatype ColumnType = ClrTyped(clr: ClrType) | SqlTyped(sql: SqlDbType)

  /** Column.KeyType. */
  datatype KeyType = None | PrimaryKey | ClusteredPrimaryKey

  /** The default values the tests pass (`defaultValue: true`). */
  datatype Literal = BoolLiteral(b: bool)

  /** The Column constructor's parameters. */
  datatype Column = Column(
    name: string,
    columnType: ColumnType,
    length: Option<nat>,
    isNullable: bool,
    key: KeyType,
    isIdentity: bool,
    isAutoGenerated: bool,
    defaultValue: Option<Literal>,
    precision: Option<nat>,
    scale: Option<nat>,
    computation: Option<string>,
    computationPersisted: bool)

  /** `new Column(name, typeof(t))` with every optional argument defaulted:
      not nullable, no key, no identity, no generation, no default. */
  function ClrColumn(name: string, t: ClrType): Column
  {
    Column(name, ClrTyped(t), Option.None, false, KeyType.None, false, false,
           Option.None, Option.None, Option.None, Option.None, false)
  }

  /** `new Column(name, sqlType: t)` with every optional argument defaulted. */
  function SqlColumn(name: string, t: SqlDbType): Column
  {
    Column(name, SqlTyped(t), Option.None, false, KeyType.None, false, false,
           Option.None, Option.None, Option.None, Option.None, false)
  }

  /** The SqlDbType a CLR type is stored as. */
  function SqlTypeOf(t: ClrType): SqlDbType
  {
    match t
    case Guid => UniqueIdentifier
    case String => NVarChar
    case Boolean => Bit
    case DateTime => SqlDbType.DateTime
    case Int32 => Int
    case Decimal => SqlDbType.Decimal
  }

  /** The SqlDbType a column is stored as, however it was declared. */
  function StorageType(t: ColumnType): SqlDbType
  {
    match t
    case ClrTyped(clr) => SqlTypeOf(clr)
    case SqlTyped(sql) => sql
  }

  /** The same column declared by its SqlDbType instead of its CLR type. */
  function ToSqlTyped(c: Column): (d: Column)
    ensures d.columnType.SqlTyped? && StorageType(d.columnType) == StorageType(c.columnType)
    ensures d.(columnType := c.columnType) == c
  {
    c.(columnType := SqlTyped(StorageType(c.columnType)))
  }

  predicate IsKey(c: Column)
  {
    c.key != KeyType.None
  }

  /** Index.Column: a column name and its sort direction (ascending unless
      stated). */
  datatype IndexColumn = IndexColumn(name: string, descending: bool)

  function AscendingIndexColumn(name: string): IndexColumn
  {
    IndexColumn(name, false)
  }

  /** Statement.ResultType. */
  datatype ResultType = None | Scalar | Single | Multiple

  datatype Parameter = Parameter(name: string, value: string)

  /** A rendered statement: SQL text, bound parameters and result shape. */
  datatype Statement = Statement(text: string, parameters: seq<Parameter>, result: ResultType)

  /** Descriptor combinations with no defined rendering. */
  datatype Error =
    | UnsupportedType(column: string)
    | MultiplePrimaryKeys
    | NoIndexColumns
    | NoSources
}
