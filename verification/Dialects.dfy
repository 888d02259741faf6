/** Postgres.Render and SQLite.Render (migratediff/dialect_*.go), as statements over the catalog. */
module Dialects {
  import opened Wrappers
  import opened Orm
  import opened Operations
  import opened Catalog

  datatype RenderError = Unsupported | BadType

  function PostgresType(f: Field): Option<SqlType>
  {
    match f.typ
    case TString => Some(if f.maxLen > 0 then Varchar(f.maxLen) else SqlText)
    case TInt => Some(SqlInteger)
    case TInt64 => Some(SqlBigInt)
    case TFloat => Some(DoublePrecision)
    case TBool => Some(SqlBoolean)
    case TTime => Some(SqlTimestamp)
    case TBytes => Some(Bytea)
    case Other(_) => None
  }

  function SqliteType(f: Field): Option<SqlType>
  {
    match f.typ
    case TString => Some(if f.maxLen > 0 then Varchar(f.maxLen) else SqlText)
    case TInt => Some(SqlInteger)
    case TInt64 => Some(SqlBigInt)
    case TFloat => Some(Real)
    case TBool => Some(SqlBoolean)
    case TTime => Some(SqlTimestamp)
    case TBytes => Some(Blob)
    case Other(_) => None
  }

  function TypeOf(d: Dialect, f: Field): Option<SqlType>
  {
    if d == Postgres then PostgresType(f) else SqliteType(f)
  }

  /** columnDefinition. */
  function Definition(d: Dialect, f: Field): Option<ColumnDef>
  {
    match TypeOf(d, f)
    case None => None
    case Some(typ) => Some(ColumnDef(f.name, Column(typ, !f.nullable)))
  }

  /** columnList's first loop: None when any type has no rendering. */
  function Definitions(d: Dialect, fields: seq<Field>): Option<seq<ColumnDef>>
  {
    if fields == [] then Some([])
    else
      match (Definitions(d, fields[..|fields| - 1]), Definition(d, fields[|fields| - 1]))
      case (Some(defs), Some(def)) => Some(defs + [def])
      case _ => None
  }

  /** columnList's second loop: the key, or else the unique constraint, of each field in order. */
  function Constraints(t: string, fields: seq<Field>, name: Obj -> string): seq<ConstraintDef>
  {
    if fields == [] then []
    else
      var f := fields[0];
      (if f.primaryKey then [ConstraintDef(name(Obj(PrimaryKey, t, f.name)), PrimaryKey, f.name)]
       else if f.unique then [ConstraintDef(name(Obj(UniqueKey, t, f.name)), UniqueKey, f.name)]
       else [])
      + Constraints(t, fields[1..], name)
  }

  function Indexes(t: string, fields: seq<Field>, name: Obj -> string): seq<Statement>
  {
    if fields == [] then []
    else
      (if fields[0].index then [CreateIndexS(name(Obj(PlainIndex, t, fields[0].name)), t, fields[0].name)] else [])
      + Indexes(t, fields[1..], name)
  }

  /** createTable, the same in both dialects. */
  function RenderCreate(d: Dialect, m: Model, name: Obj -> string): Result<seq<Statement>, RenderError>
  {
    match Definitions(d, m.fields)
    case None => Err(BadType)
    case Some(defs) =>
      Ok([CreateTableS(m.table, defs, Constraints(m.table, m.fields, name))] + Indexes(m.table, m.fields, name))
  }

  /** Postgres.addColumn: one of key, unique or index follows. */
  function PostgresAddColumn(t: string, f: Field, name: Obj -> string): Result<seq<Statement>, RenderError>
  {
    match Definition(Postgres, f)
    case None => Err(BadType)
    case Some(def) =>
      Ok([AddColumnS(t, def)]
         + if f.primaryKey then [AddConstraintS(t, name(Obj(PrimaryKey, t, f.name)), PrimaryKey, f.name)]
           else if f.unique then [AddConstraintS(t, name(Obj(UniqueKey, t, f.name)), UniqueKey, f.name)]
           else if f.index then [CreateIndexS(name(Obj(PlainIndex, t, f.name)), t, f.name)]
           else [])
  }

  /** SQLite.addColumn: only a nullable, unconstrained addition renders. */
  function SqliteAddColumn(t: string, f: Field, name: Obj -> string): Result<seq<Statement>, RenderError>
  {
    if !f.nullable || f.primaryKey || f.unique then Err(Unsupported)
    else
      match Definition(SQLite, f)
      case None => Err(BadType)
      case Some(def) =>
        Ok([AddColumnS(t, def)] + if f.index then [CreateIndexS(name(Obj(PlainIndex, t, f.name)), t, f.name)] else [])
  }

  function RenderPostgres(op: Op, name: Obj -> string): Result<seq<Statement>, RenderError>
  {
    match op
    case CreateTable(m) => RenderCreate(Postgres, m, name)
    case DropTable(t) => Ok([DropTableS(t)])
    case AddColumn(t, f) => PostgresAddColumn(t, f, name)
    case DropColumn(t, c) => Ok([DropColumnS(t, c)])
    case RenameColumn(t, from, to) => Ok([RenameColumnS(t, from, to)])
    case ChangeType(t, c, f) =>
      (match PostgresType(f)
       case None => Err(BadType)
       case Some(typ) => Ok([AlterTypeS(t, c, typ)]))
    case ChangeNullability(t, c, nullable) => Ok([if nullable then DropNotNullS(t, c) else SetNotNullS(t, c)])
    case AddUnique(t, c) => Ok([AddConstraintS(t, name(Obj(UniqueKey, t, c)), UniqueKey, c)])
    case DropUnique(t, c) => Ok([DropConstraintS(t, name(Obj(UniqueKey, t, c)))])
    case AddIndex(t, c) => Ok([CreateIndexS(name(Obj(PlainIndex, t, c)), t, c)])
    case DropIndex(t, c) => Ok([DropIndexS(name(Obj(PlainIndex, t, c)))])
    case AddPrimaryKey(t, c) => Ok([AddConstraintS(t, name(Obj(PrimaryKey, t, c)), PrimaryKey, c)])
    case DropPrimaryKey(t, c) => Ok([DropKeyOnS(t, c)])
  }

  function RenderSqlite(op: Op, name: Obj -> string): Result<seq<Statement>, RenderError>
  {
    match op
    case CreateTable(m) => RenderCreate(SQLite, m, name)
    case DropTable(t) => Ok([DropTableS(t)])
    case AddColumn(t, f) => SqliteAddColumn(t, f, name)
    case RenameColumn(t, from, to) => Ok([RenameColumnS(t, from, to)])
    case AddIndex(t, c) => Ok([CreateIndexS(name(Obj(PlainIndex, t, c)), t, c)])
    case DropIndex(t, c) => Ok([DropIndexS(name(Obj(PlainIndex, t, c)))])
    case _ => Err(Unsupported)
  }

  function Render(d: Dialect, op: Op, name: Obj -> string): Result<seq<Statement>, RenderError>
  {
    if d == Postgres then RenderPostgres(op, name) else RenderSqlite(op, name)
  }

  /** Apply's preflight: every operation renders before any statement runs, or nothing does. */
  function RenderAll(d: Dialect, ops: seq<Op>, name: Obj -> string): Result<seq<Statement>, RenderError>
  {
    if ops == [] then Ok([])
    else
      match Render(d, ops[0], name)
      case Err(e) => Err(e)
      case Ok(first) =>
        match RenderAll(d, ops[1..], name)
        case Err(e) => Err(e)
        case Ok(rest) => Ok(first + rest)
  }
}
