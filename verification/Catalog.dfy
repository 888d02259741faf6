/**
  A database catalog and what the rendered statements do to it: columns, and the named keys, unique
  constraints and indexes, which share one namespace with one another and with the tables.
  */
module Catalog {
  import opened Wrappers
  import opened Orm
  import opened Operations

  datatype SqlType =
    | Varchar(n: int) | SqlText | SqlInteger | SqlBigInt | DoublePrecision | Real
    | SqlBoolean | SqlTimestamp | Bytea | Blob

  datatype Dialect = Postgres | SQLite

  /** A server: its dialect, and which types it converts to which in an assignment. */
  datatype Host = Host(dialect: Dialect, castable: (SqlType, SqlType) -> bool)

  /** ALTER COLUMN TYPE without USING is taken where an assignment would be; SQLite has no such statement. */
  predicate Converts(h: Host, from: SqlType, to: SqlType)
  {
    h.dialect == Postgres && (from == to || h.castable(from, to))
  }

  datatype Column = Column(typ: SqlType, notNull: bool)

  datatype Kind = PrimaryKey | UniqueKey | PlainIndex

  /** A named object: what it is and the one column it is on. */
  datatype Obj = Obj(kind: Kind, table: string, column: string)

  datatype Catalog = Catalog(tables: map<string, map<string, Column>>, objects: map<string, Obj>)

  datatype ColumnDef = ColumnDef(name: string, column: Column)

  datatype ConstraintDef = ConstraintDef(name: string, kind: Kind, column: string)

  datatype Statement =
    | CreateTableS(table: string, columns: seq<ColumnDef>, constraints: seq<ConstraintDef>)
    | DropTableS(table: string)
    | AddColumnS(table: string, def: ColumnDef)
    | DropColumnS(table: string, column: string)
    | RenameColumnS(table: string, from: string, to: string)
    | AlterTypeS(table: string, column: string, typ: SqlType)
    | SetNotNullS(table: string, column: string)
    | DropNotNullS(table: string, column: string)
    | AddConstraintS(table: string, name: string, kind: Kind, column: string)
    | DropConstraintS(table: string, name: string)
    | DropKeyOnS(table: string, column: string)  // the DO block: whatever the single-column key is called
    | CreateIndexS(name: string, table: string, column: string)
    | DropIndexS(name: string)

  ghost predicate Keyed(objects: map<string, Obj>, table: string)
  {
    exists n :: n in objects && objects[n].kind == PrimaryKey && objects[n].table == table
  }

  function ColumnMap(defs: seq<ColumnDef>): map<string, Column>
  {
    if defs == [] then map[] else ColumnMap(defs[..|defs| - 1])[defs[|defs| - 1].name := defs[|defs| - 1].column]
  }

  ghost predicate DistinctNames(defs: seq<ColumnDef>)
  {
    forall i, j :: 0 <= i < j < |defs| ==> defs[i].name != defs[j].name
  }

  /** Naming a new object: its column exists, the name is free, and a table has one key at most. */
  ghost function AddObject(cat: Catalog, name: string, o: Obj): Option<Catalog>
  {
    if o.table in cat.tables && o.column in cat.tables[o.table] && name !in cat.objects && name !in cat.tables
       && (o.kind == PrimaryKey ==> !Keyed(cat.objects, o.table))
    then
      var cols := cat.tables[o.table];
      Some(Catalog(
             if o.kind == PrimaryKey then cat.tables[o.table := cols[o.column := cols[o.column].(notNull := true)]] else cat.tables,
             cat.objects[name := o]))
    else None
  }

  ghost function AddConstraints(cat: Catalog, table: string, defs: seq<ConstraintDef>): Option<Catalog>
    decreases |defs|
  {
    if defs == [] then Some(cat)
    else
      match AddObject(cat, defs[0].name, Obj(defs[0].kind, table, defs[0].column))
      case None => None
      case Some(next) => AddConstraints(next, table, defs[1..])
  }

  ghost predicate HasColumn(cat: Catalog, t: string, c: string)
  {
    t in cat.tables && c in cat.tables[t]
  }

  ghost function SetColumn(cat: Catalog, t: string, c: string, column: Column): Catalog
    requires t in cat.tables
  {
    cat.(tables := cat.tables[t := cat.tables[t][c := column]])
  }

  ghost function OnTable(t: string): iset<Obj>
  {
    iset o: Obj | o.table == t
  }

  ghost function OnColumn(t: string, c: string): iset<Obj>
  {
    iset o: Obj | o.table == t && o.column == c
  }

  /** Does a key, a unique constraint or an index name this column? */
  ghost predicate Named(objects: map<string, Obj>, t: string, c: string)
  {
    exists n :: n in objects && objects[n] in OnColumn(t, c)
  }

  /** SQLite drops a column only when no object is on it and the table has another column. */
  ghost predicate Droppable(h: Host, cat: Catalog, t: string, c: string)
    requires t in cat.tables
  {
    h.dialect == SQLite ==> !Named(cat.objects, t, c) && cat.tables[t].Keys != {c}
  }

  /** The names left once everything in `gone` is dropped. */
  ghost function Without(objects: map<string, Obj>, gone: iset<Obj>): map<string, Obj>
  {
    map n | n in objects && objects[n] !in gone :: objects[n]
  }

  /** One statement on tables without rows; None when the server would refuse it. */
  ghost function Exec(stmt: Statement, cat: Catalog, h: Host): Option<Catalog>
  {
    match stmt
    case CreateTableS(t, defs, constraints) =>
      if t !in cat.tables && t !in cat.objects && DistinctNames(defs) && (h.dialect == SQLite ==> defs != [])
      then AddConstraints(cat.(tables := cat.tables[t := ColumnMap(defs)]), t, constraints) else None
    case DropTableS(t) =>
      if t in cat.tables
      then Some(Catalog(cat.tables - {t}, Without(cat.objects, OnTable(t)))) else None
    case AddColumnS(t, def) =>
      if t in cat.tables && def.name !in cat.tables[t] then Some(SetColumn(cat, t, def.name, def.column)) else None
    case DropColumnS(t, c) =>
      if HasColumn(cat, t, c) && Droppable(h, cat, t, c)
      then Some(Catalog(cat.tables[t := cat.tables[t] - {c}], Without(cat.objects, OnColumn(t, c)))) else None
    case RenameColumnS(t, from, to) =>
      if HasColumn(cat, t, from) && to !in cat.tables[t]
      then Some(Catalog(cat.tables[t := (cat.tables[t] - {from})[to := cat.tables[t][from]]],
                        map n | n in cat.objects ::
                          if cat.objects[n].table == t && cat.objects[n].column == from then cat.objects[n].(column := to) else cat.objects[n]))
      else None
    case AlterTypeS(t, c, typ) =>
      if HasColumn(cat, t, c) && Converts(h, cat.tables[t][c].typ, typ)
      then Some(SetColumn(cat, t, c, cat.tables[t][c].(typ := typ))) else None
    case SetNotNullS(t, c) =>
      if h.dialect == Postgres && HasColumn(cat, t, c)
      then Some(SetColumn(cat, t, c, cat.tables[t][c].(notNull := true))) else None
    case DropNotNullS(t, c) =>
      if h.dialect == Postgres && HasColumn(cat, t, c) && Obj(PrimaryKey, t, c) !in cat.objects.Values
      then Some(SetColumn(cat, t, c, cat.tables[t][c].(notNull := false))) else None
    case AddConstraintS(t, name, kind, c) => if h.dialect == Postgres then AddObject(cat, name, Obj(kind, t, c)) else None
    case DropConstraintS(t, name) =>
      if h.dialect == Postgres && name in cat.objects && cat.objects[name].table == t && cat.objects[name].kind != PlainIndex
      then Some(cat.(objects := cat.objects - {name})) else None
    case DropKeyOnS(t, c) =>
      if h.dialect == Postgres && Obj(PrimaryKey, t, c) in cat.objects.Values
      then Some(cat.(objects := Without(cat.objects, iset{Obj(PrimaryKey, t, c)}))) else None
    case CreateIndexS(name, t, c) => AddObject(cat, name, Obj(PlainIndex, t, c))
    case DropIndexS(name) =>
      if name in cat.objects && cat.objects[name].kind == PlainIndex
      then Some(cat.(objects := cat.objects - {name})) else None
  }

  ghost function ExecAll(stmts: seq<Statement>, cat: Catalog, h: Host): Option<Catalog>
  {
    if stmts == [] then Some(cat)
    else
      match Exec(stmts[0], cat, h)
      case None => None
      case Some(next) => ExecAll(stmts[1..], next, h)
  }

  lemma {:induction false} ExecConcat(a: seq<Statement>, b: seq<Statement>, cat: Catalog, h: Host)
    ensures ExecAll(a + b, cat, h) == if ExecAll(a, cat, h).None? then None else ExecAll(b, ExecAll(a, cat, h).value, h)
  {
    if a == [] {
      assert a + b == b;
    } else {
      assert (a + b)[1..] == a[1..] + b;
      if Exec(a[0], cat, h).Some? {
        ExecConcat(a[1..], b, Exec(a[0], cat, h).value, h);
      }
    }
  }

  // ------------------------------------------------------ catalogs of a schema

  /** How names are generated, the objects and tables they may ever be generated for. */
  datatype Naming = Naming(name: Obj -> string, universe: set<Obj>, tables: set<string>)

  /** No two generated names in play collide, and none is a table's name. */
  ghost predicate CollisionFree(w: Naming)
  {
    && (forall o, p :: o in w.universe && p in w.universe && w.name(o) == w.name(p) ==> o == p)
    && (forall o :: o in w.universe ==> w.name(o) !in w.tables)
  }

  ghost predicate Live(s: Schema, o: Obj)
  {
    && o.table in s && o.column in s[o.table]
    && var f := s[o.table][o.column];
       match o.kind
       case PrimaryKey => f.primaryKey
       case UniqueKey => f.unique
       case PlainIndex => f.index
  }

  ghost function LiveSet(s: Schema): iset<Obj>
  {
    iset o | Live(s, o)
  }

  /**
    The named objects are exactly the live ones: unique constraints and indexes under their generated
    names, each table's one key under its generated name or one that nothing generated could take.
    */
  ghost predicate NamesLive(objects: map<string, Obj>, live: iset<Obj>, w: Naming)
  {
    && (forall n :: n in objects ==> NamedWell(objects[n], n, live, w))
    && (forall o :: o in live ==> o in objects.Values && o in w.universe)
    && (forall m, n :: m in objects && n in objects && SameKey(objects[m], objects[n]) ==> m == n)
  }

  predicate SameKey(o: Obj, p: Obj)
  {
    o.kind == PrimaryKey && p.kind == PrimaryKey && o.table == p.table
  }

  ghost predicate NamedWell(o: Obj, n: string, live: iset<Obj>, w: Naming)
  {
    && o in live && o in w.universe && n !in w.tables
    && (n == w.name(o) || (o.kind == PrimaryKey && forall p :: p in w.universe ==> n != w.name(p)))
  }

  lemma NewNameFree(objects: map<string, Obj>, live: iset<Obj>, w: Naming, o: Obj)
    requires CollisionFree(w) && NamesLive(objects, live, w) && o in w.universe && o !in live
    ensures w.name(o) !in objects && w.name(o) !in w.tables
  {
    forall n | n in objects ensures n != w.name(o) {
      assert NamedWell(objects[n], n, live, w);
    }
  }

  lemma NameAdded(objects: map<string, Obj>, live: iset<Obj>, w: Naming, o: Obj)
    requires CollisionFree(w) && NamesLive(objects, live, w) && o in w.universe && o !in live
    requires o.kind == PrimaryKey ==> !Keyed(objects, o.table)
    ensures NamesLive(objects[w.name(o) := o], live + iset{o}, w)
  {
    NewNameFree(objects, live, w, o);
    var more, now := objects[w.name(o) := o], live + iset{o};
    forall n | n in more ensures NamedWell(more[n], n, now, w) {
      if n != w.name(o) {
        assert NamedWell(objects[n], n, live, w);
      }
    }
    forall p | p in now ensures p in more.Values && p in w.universe {
      if p in live {
        var n :| n in objects && objects[n] == p;
        assert more[n] == p;
      } else {
        assert more[w.name(o)] == o;
      }
    }
  }

  /** Removing every name of the objects in `gone`, and only those. */
  lemma NamesRemoved(objects: map<string, Obj>, live: iset<Obj>, w: Naming, gone: iset<Obj>)
    requires NamesLive(objects, live, w)
    ensures NamesLive(Without(objects, gone), live - gone, w)
  {
    var fewer := Without(objects, gone);
    forall n | n in fewer ensures NamedWell(fewer[n], n, live - gone, w) {
      assert NamedWell(objects[n], n, live, w);
    }
    forall o | o in live - gone ensures o in fewer.Values && o in w.universe {
      var n :| n in objects && objects[n] == o;
      assert fewer[n] == o;
    }
  }

  /** A generated name belongs to its own object and to nothing else. */
  lemma NameOwner(objects: map<string, Obj>, live: iset<Obj>, w: Naming, o: Obj)
    requires CollisionFree(w) && NamesLive(objects, live, w) && o in live && o.kind != PrimaryKey
    ensures w.name(o) in objects && objects[w.name(o)] == o
    ensures objects - {w.name(o)} == Without(objects, iset{o})
  {
    var n :| n in objects && objects[n] == o;
    forall m | m in objects && objects[m] == o ensures m == w.name(o) {
      assert NamedWell(objects[m], m, live, w);
    }
  }
}
