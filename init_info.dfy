/** The description of a MySQL database that the scaffolder reads: tables,
    their columns and the column types it distinguishes. Data only. */
module InitInfo {

  /** Every integer type is INT, every floating point type FLOAT, and
      everything else (strings, texts, blobs, dates) STRING. */
  datatype ColumnType = INT | STRING | FLOAT

  datatype ColumnInfo = ColumnInfo(
    name: string,
    type_: ColumnType,
    nullable: bool,
    default_: string,
    comment: string,
    primaryKey: bool)

  datatype TableInfo = TableInfo(name: string, columns: seq<ColumnInfo>, create: string)

  datatype DBInfo = DBInfo(name: string, create: string, tables: seq<TableInfo>)

  /** How to reach the server: user, password, host, port, database. */
  datatype DBOpt = DBOpt(user: string, password: string, host: string, port: int, database: string)
}
