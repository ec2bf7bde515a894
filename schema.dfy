/**
 * The schema snapshot the codec transfers: databases, tables, columns and keys.
 * Their C++ definitions live in schema.h, which is not part of this model; the
 * fields here are the ones the codec reads and writes.
 */
module Schema {

  /** Which kind of default a column has; the value travels in `defaultValue`. */
  datatype DefaultType = NoDefault | Sequence | DefaultValue | DefaultExpression

  /** The independent column flag bits the codec knows about. */
  datatype ColumnFlag = MysqlTimestamp | MysqlOnUpdateTimestamp | TimeZone | SimpleGeometry

  datatype Column = Column(
    name: string,
    columnType: string,
    size: int,              // 0 means not applicable
    scale: int,             // 0 means not applicable
    nullable: bool,
    typeRestriction: string,
    referenceSystem: string,
    dbTypeDef: string,
    defaultType: DefaultType,
    defaultValue: string,
    flags: set<ColumnFlag>)

  /** A freshly constructed column: the state every omitted attribute stands for. */
  function DefaultColumn(): Column {
    Column("", "", 0, 0, true, "", "", "", NoDefault, "", {})
  }

  /**
   * The default kind and its value are two fields; a column is well formed
   * when a column without a default carries no default value either.
   */
  predicate WellFormedColumn(c: Column) {
    c.defaultType == NoDefault ==> c.defaultValue == ""
  }

  datatype KeyType = StandardKey | UniqueKey | SpatialKey

  /** An index: its name, kind and the columns it covers, in index order. */
  datatype Key = Key(name: string, keyType: KeyType, columns: seq<string>)

  function DefaultKey(): Key {
    Key("", StandardKey, [])
  }

  /**
   * How a table's rows are identified. The codec moves it as an integer and
   * names only two of its values; the rest are opaque to it.
   */
  type PrimaryKeyType = int
  const NoAvailableKey: PrimaryKeyType := 0
  const ExplicitPrimaryKey: PrimaryKeyType := 1

  datatype Table = Table(
    name: string,
    columns: seq<Column>,
    primaryKeyColumns: seq<string>,
    primaryKeyType: PrimaryKeyType,
    keys: seq<Key>)

  function DefaultTable(): Table {
    Table("", [], [], NoAvailableKey, [])
  }

  predicate WellFormedTable(t: Table) {
    forall c | c in t.columns :: WellFormedColumn(c)
  }

  datatype Database = Database(tables: seq<Table>)

  function DefaultDatabase(): Database {
    Database([])
  }

  predicate WellFormedDatabase(db: Database) {
    forall t | t in db.tables :: WellFormedTable(t)
  }
}
