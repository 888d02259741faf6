/**
  Rendering simulates: the statements of an operation carry a catalog of a schema to a catalog of the
  schema the operation leads to, names included.
  */
module Simulation {
  import opened Wrappers
  import opened Orm
  import opened Operations
  import opened Catalog
  import opened Dialects

  ghost function ColumnOf(d: Dialect, f: Field): Column
  {
    Column(match TypeOf(d, f) case Some(typ) => typ case None => SqlText, !f.nullable)
  }

  ghost function ColumnsOf(d: Dialect, cols: Cols): map<string, Column>
  {
    map c | c in cols :: ColumnOf(d, cols[c])
  }

  ghost function TablesOf(d: Dialect, s: Schema): map<string, map<string, Column>>
  {
    map t | t in s :: ColumnsOf(d, s[t])
  }

  /** cat is what schema s looks like on a server of this dialect. */
  ghost predicate Represents(cat: Catalog, s: Schema, d: Dialect, w: Naming)
  {
    && cat.tables == TablesOf(d, s)
    && NamesLive(cat.objects, LiveSet(s), w)
    && s.Keys <= w.tables
  }

  function Mentions(op: Op): set<string>
  {
    match op
    case CreateTable(m) => set i | 0 <= i < |m.fields| :: m.fields[i].name
    case DropTable(_) => {}
    case AddColumn(_, f) => {f.name}
    case RenameColumn(_, from, to) => {from, to}
    case _ => {op.column}
  }

  /** The naming accounts for every object the operation may have to name. */
  ghost predicate Covers(w: Naming, op: Op)
  {
    && TableOf(op) in w.tables
    && forall c, k: Kind :: c in Mentions(op) ==> Obj(k, TableOf(op), c) in w.universe
  }

  /** Executing stmts from cat succeeds and lands on a catalog of the next schema. */
  ghost predicate Lands(stmts: seq<Statement>, cat: Catalog, next: Schema, h: Host, w: Naming)
  {
    ExecAll(stmts, cat, h).Some? && Represents(ExecAll(stmts, cat, h).value, next, h.dialect, w)
  }

  /** Accepted statements land; others the server refuses. */
  ghost predicate Settles(accepted: bool, stmts: seq<Statement>, cat: Catalog, next: Schema, h: Host, w: Naming)
  {
    if accepted then Lands(stmts, cat, next, h, w) else ExecAll(stmts, cat, h) == None
  }

  /** The server converts columns of one field's type to the other's. */
  predicate Retypes(h: Host, was: Field, now: Field)
  {
    var from, to := TypeOf(h.dialect, was), TypeOf(h.dialect, now);
    from.Some? && to.Some? && Converts(h, from.value, to.value)
  }

  /** The server takes the operation on a table of this shape; only these two are ever refused. */
  ghost predicate Accepts(h: Host, op: Op, ts: TableState)
  {
    match op
    case ChangeType(_, c, f) => Has(ts, c) && Retypes(h, ts.cols[c], f)
    case DropColumn(_, c) => Has(ts, c) && (h.dialect == SQLite ==> Plain(ts.cols[c]) && ts.cols.Keys != {c})
    case _ => true
  }

  // ------------------------------------------------------------- table halves

  lemma OneTableChanged(d: Dialect, s: Schema, t: string, cols: Cols)
    ensures TablesOf(d, s[t := cols]) == TablesOf(d, s)[t := ColumnsOf(d, cols)]
  {
  }

  lemma OneColumnChanged(d: Dialect, cols: Cols, c: string, f: Field)
    ensures ColumnsOf(d, cols[c := f]) == ColumnsOf(d, cols)[c := ColumnOf(d, f)]
  {
  }

  lemma Single(stmt: Statement, cat: Catalog, next: Catalog, h: Host)
    requires Exec(stmt, cat, h) == Some(next)
    ensures ExecAll([stmt], cat, h) == Some(next)
  {
    assert [stmt][1..] == [];
  }

  /** Replacing one column's field: the table half of every flag, type and nullability change. */
  lemma FieldReplaced(d: Dialect, s: Schema, t: string, c: string, f: Field)
    requires t in s && c in s[t]
    ensures TablesOf(d, s[t := s[t][c := f]]) == TablesOf(d, s)[t := TablesOf(d, s)[t][c := ColumnOf(d, f)]]
  {
    OneTableChanged(d, s, t, s[t][c := f]);
    OneColumnChanged(d, s[t], c, f);
  }

  lemma FieldSameColumn(d: Dialect, s: Schema, t: string, c: string, f: Field)
    requires t in s && c in s[t] && ColumnOf(d, f) == ColumnOf(d, s[t][c])
    ensures TablesOf(d, s[t := s[t][c := f]]) == TablesOf(d, s)
  {
    FieldReplaced(d, s, t, c, f);
    assert TablesOf(d, s)[t][c := ColumnOf(d, f)] == TablesOf(d, s)[t];
  }

  function Flag(k: Kind, f: Field): bool
  {
    match k
    case PrimaryKey => f.primaryKey
    case UniqueKey => f.unique
    case PlainIndex => f.index
  }

  /** What replacing a field does to the live objects: only those on that column, by its flags. */
  lemma LiveReplaced(s: Schema, t: string, c: string, f: Field, o: Obj)
    requires t in s && c in s[t]
    ensures Live(s[t := s[t][c := f]], o) <==> if o.table == t && o.column == c then Flag(o.kind, f) else Live(s, o)
  {
  }

  // ------------------------------------------------------- flag operations

  lemma FlagAdded(s: Schema, cat: Catalog, d: Dialect, w: Naming, k: Kind, t: string, c: string, f: Field)
    requires Represents(cat, s, d, w) && CollisionFree(w) && t in s && c in s[t]
    requires Obj(k, t, c) in w.universe && !Flag(k, s[t][c])
    requires forall j: Kind :: Flag(j, f) <==> Flag(j, s[t][c]) || j == k
    requires ColumnOf(d, f) == ColumnOf(d, s[t][c])
    requires k == PrimaryKey ==> NoKey(s[t]) && !f.nullable
    ensures AddObject(cat, w.name(Obj(k, t, c)), Obj(k, t, c)).Some?
    ensures Represents(AddObject(cat, w.name(Obj(k, t, c)), Obj(k, t, c)).value, s[t := s[t][c := f]], d, w)
  {
    var o, next := Obj(k, t, c), s[t := s[t][c := f]];
    NewNameFree(cat.objects, LiveSet(s), w, o);
    if k == PrimaryKey {
      NotKeyed(s, cat, d, w, t);
    }
    NameAdded(cat.objects, LiveSet(s), w, o);
    forall p ensures p in LiveSet(next) <==> p in LiveSet(s) + iset{o} {
      LiveReplaced(s, t, c, f, p);
    }
    assert LiveSet(next) == LiveSet(s) + iset{o};
    FieldSameColumn(d, s, t, c, f);
    if k == PrimaryKey {
      assert cat.tables[t][c] == ColumnOf(d, f) && cat.tables[t][c].notNull;
      assert cat.tables[t][c := cat.tables[t][c].(notNull := true)] == cat.tables[t];
      assert cat.tables[t := cat.tables[t][c := cat.tables[t][c].(notNull := true)]] == cat.tables;
    }
  }

  lemma NotKeyed(s: Schema, cat: Catalog, d: Dialect, w: Naming, t: string)
    requires Represents(cat, s, d, w) && t in s && NoKey(s[t])
    ensures !Keyed(cat.objects, t)
  {
    forall n | n in cat.objects && cat.objects[n].table == t ensures cat.objects[n].kind != PrimaryKey {
      assert NamedWell(cat.objects[n], n, LiveSet(s), w);
    }
  }

  lemma FlagDropped(s: Schema, cat: Catalog, d: Dialect, w: Naming, k: Kind, t: string, c: string, f: Field)
    requires Represents(cat, s, d, w) && t in s && c in s[t]
    requires forall j: Kind :: Flag(j, f) <==> Flag(j, s[t][c]) && j != k
    requires ColumnOf(d, f) == ColumnOf(d, s[t][c])
    ensures Represents(cat.(objects := Without(cat.objects, iset{Obj(k, t, c)})), s[t := s[t][c := f]], d, w)
  {
    var o, next := Obj(k, t, c), s[t := s[t][c := f]];
    NamesRemoved(cat.objects, LiveSet(s), w, iset{o});
    forall p ensures p in LiveSet(next) <==> p in LiveSet(s) - iset{o} {
      LiveReplaced(s, t, c, f, p);
    }
    assert LiveSet(next) == LiveSet(s) - iset{o};
    FieldSameColumn(d, s, t, c, f);
  }

  /** What a safe flag operation says about its column, before and after. */
  lemma FlagStep(op: Op, k: Kind, s: Schema, d: Dialect)
    requires Safe(op, Get(s, TableOf(op)))
    requires match k
             case PrimaryKey => op.AddPrimaryKey? || op.DropPrimaryKey?
             case UniqueKey => op.AddUnique? || op.DropUnique?
             case PlainIndex => op.AddIndex? || op.DropIndex?
    ensures op.table in s && op.column in s[op.table] && Has(Step(op, Get(s, op.table)).value, op.column)
    ensures var f, g := s[op.table][op.column], Step(op, Get(s, op.table)).value.cols[op.column];
            && Apply(op, s).value == s[op.table := s[op.table][op.column := g]]
            && ColumnOf(d, g) == ColumnOf(d, f) && Flag(k, f) != Flag(k, g) && g.nullable == f.nullable
            && (forall j: Kind :: j != k ==> Flag(j, g) == Flag(j, f))
            && (k == PrimaryKey && Flag(k, g) ==> NoKey(s[op.table]) && !g.nullable)
            && (Flag(k, g) <==> op.AddPrimaryKey? || op.AddUnique? || op.AddIndex?)
  {
  }

  lemma StepAddFlag(op: Op, k: Kind, s: Schema, cat: Catalog, h: Host, w: Naming)
    requires Represents(cat, s, h.dialect, w) && CollisionFree(w) && Covers(w, op) && Safe(op, Get(s, TableOf(op)))
    requires (op.AddUnique? && k == UniqueKey) || (op.AddIndex? && k == PlainIndex) || (op.AddPrimaryKey? && k == PrimaryKey)
    requires k == PlainIndex || h.dialect == Postgres
    ensures Lands([FlagStatement(k, op.table, op.column, w.name)], cat, Apply(op, s).value, h, w)
  {
    var t, c := op.table, op.column;
    FlagStep(op, k, s, h.dialect);
    var f := Step(op, Get(s, t)).value.cols[c];
    assert Obj(k, t, c) in w.universe by {
      assert c in Mentions(op);
    }
    FlagLands(s, cat, h, w, k, t, c, f);
  }

  lemma FlagLands(s: Schema, cat: Catalog, h: Host, w: Naming, k: Kind, t: string, c: string, f: Field)
    requires Represents(cat, s, h.dialect, w) && CollisionFree(w) && t in s && c in s[t]
    requires Obj(k, t, c) in w.universe && !Flag(k, s[t][c])
    requires forall j: Kind :: Flag(j, f) <==> Flag(j, s[t][c]) || j == k
    requires ColumnOf(h.dialect, f) == ColumnOf(h.dialect, s[t][c])
    requires k == PrimaryKey ==> NoKey(s[t]) && !f.nullable
    requires k == PlainIndex || h.dialect == Postgres
    ensures Lands([FlagStatement(k, t, c, w.name)], cat, s[t := s[t][c := f]], h, w)
  {
    FlagAdded(s, cat, h.dialect, w, k, t, c, f);
    Single(FlagStatement(k, t, c, w.name), cat, AddObject(cat, w.name(Obj(k, t, c)), Obj(k, t, c)).value, h);
  }

  lemma StepDropFlag(op: Op, k: Kind, s: Schema, cat: Catalog, h: Host, w: Naming)
    requires Represents(cat, s, h.dialect, w) && CollisionFree(w) && Safe(op, Get(s, TableOf(op)))
    requires (op.DropUnique? && k == UniqueKey) || (op.DropIndex? && k == PlainIndex)
    requires k == PlainIndex || h.dialect == Postgres
    ensures var stmt := if k == PlainIndex then DropIndexS(w.name(Obj(k, op.table, op.column)))
                        else DropConstraintS(op.table, w.name(Obj(k, op.table, op.column)));
            Lands([stmt], cat, Apply(op, s).value, h, w)
  {
    var t, c := op.table, op.column;
    FlagStep(op, k, s, h.dialect);
    FlagLeaves(s, cat, h, w, k, t, c, Step(op, Get(s, t)).value.cols[c]);
  }

  lemma FlagLeaves(s: Schema, cat: Catalog, h: Host, w: Naming, k: Kind, t: string, c: string, f: Field)
    requires Represents(cat, s, h.dialect, w) && CollisionFree(w) && t in s && c in s[t] && k != PrimaryKey
    requires Flag(k, s[t][c]) && forall j: Kind :: Flag(j, f) <==> Flag(j, s[t][c]) && j != k
    requires ColumnOf(h.dialect, f) == ColumnOf(h.dialect, s[t][c])
    requires k == PlainIndex || h.dialect == Postgres
    ensures var stmt := if k == PlainIndex then DropIndexS(w.name(Obj(k, t, c))) else DropConstraintS(t, w.name(Obj(k, t, c)));
            Lands([stmt], cat, s[t := s[t][c := f]], h, w)
  {
    var o := Obj(k, t, c);
    assert o in LiveSet(s);
    NameOwner(cat.objects, LiveSet(s), w, o);
    FlagDropped(s, cat, h.dialect, w, k, t, c, f);
    NameLeaves(cat, k, t, c, w, h);
  }

  lemma NameLeaves(cat: Catalog, k: Kind, t: string, c: string, w: Naming, h: Host)
    requires k != PrimaryKey && w.name(Obj(k, t, c)) in cat.objects && cat.objects[w.name(Obj(k, t, c))] == Obj(k, t, c)
    requires k == PlainIndex || h.dialect == Postgres
    ensures var stmt := if k == PlainIndex then DropIndexS(w.name(Obj(k, t, c))) else DropConstraintS(t, w.name(Obj(k, t, c)));
            ExecAll([stmt], cat, h) == Some(cat.(objects := cat.objects - {w.name(Obj(k, t, c))}))
  {
    var n := w.name(Obj(k, t, c));
    Single(if k == PlainIndex then DropIndexS(n) else DropConstraintS(t, n), cat, cat.(objects := cat.objects - {n}), h);
  }

  lemma StepDropKey(op: Op, s: Schema, cat: Catalog, h: Host, w: Naming)
    requires Represents(cat, s, h.dialect, w) && Safe(op, Get(s, TableOf(op))) && op.DropPrimaryKey?
    requires h.dialect == Postgres
    ensures Lands([DropKeyOnS(op.table, op.column)], cat, Apply(op, s).value, h, w)
  {
    FlagStep(op, PrimaryKey, s, h.dialect);
    KeyLeaves(s, cat, h, w, op.table, op.column, Step(op, Get(s, op.table)).value.cols[op.column]);
  }

  lemma KeyLeaves(s: Schema, cat: Catalog, h: Host, w: Naming, t: string, c: string, f: Field)
    requires Represents(cat, s, h.dialect, w) && t in s && c in s[t] && s[t][c].primaryKey
    requires forall j: Kind :: Flag(j, f) <==> Flag(j, s[t][c]) && j != PrimaryKey
    requires ColumnOf(h.dialect, f) == ColumnOf(h.dialect, s[t][c])
    requires h.dialect == Postgres
    ensures Lands([DropKeyOnS(t, c)], cat, s[t := s[t][c := f]], h, w)
  {
    assert Obj(PrimaryKey, t, c) in LiveSet(s);
    FlagDropped(s, cat, h.dialect, w, PrimaryKey, t, c, f);
    Single(DropKeyOnS(t, c), cat, cat.(objects := Without(cat.objects, iset{Obj(PrimaryKey, t, c)})), h);
  }

  // ------------------------------------------------- type and nullability

  lemma SameFlagsSameLive(s: Schema, t: string, c: string, f: Field)
    requires t in s && c in s[t] && forall k: Kind :: Flag(k, f) == Flag(k, s[t][c])
    ensures LiveSet(s[t := s[t][c := f]]) == LiveSet(s)
  {
    forall p ensures p in LiveSet(s[t := s[t][c := f]]) <==> p in LiveSet(s) {
      LiveReplaced(s, t, c, f, p);
    }
  }

  lemma StepChangeType(op: Op, s: Schema, cat: Catalog, h: Host, w: Naming)
    requires h.dialect == Postgres && Represents(cat, s, Postgres, w) && Safe(op, Get(s, TableOf(op))) && op.ChangeType?
    ensures PostgresType(op.target).Some?
    ensures Settles(Accepts(h, op, Get(s, op.table)), [AlterTypeS(op.table, op.column, PostgresType(op.target).value)], cat, Apply(op, s).value, h, w)
  {
    var t, c := op.table, op.column;
    var f := Step(op, Get(s, t)).value.cols[c];
    assert Apply(op, s).value == s[t := s[t][c := f]];
    SameFlagsSameLive(s, t, c, f);
    FieldReplaced(Postgres, s, t, c, f);
    var typ := PostgresType(op.target).value;
    assert cat.tables[t][c] == ColumnOf(Postgres, s[t][c]);
    assert ColumnOf(Postgres, f) == cat.tables[t][c].(typ := typ);
    if Accepts(h, op, Get(s, t)) {
      Single(AlterTypeS(t, c, typ), cat, SetColumn(cat, t, c, ColumnOf(Postgres, f)), h);
    }
  }

  lemma StepChangeNullability(op: Op, s: Schema, cat: Catalog, h: Host, w: Naming)
    requires Represents(cat, s, h.dialect, w) && Safe(op, Get(s, TableOf(op))) && op.ChangeNullability?
    requires h.dialect == Postgres
    ensures Lands([if op.nullable then DropNotNullS(op.table, op.column) else SetNotNullS(op.table, op.column)], cat, Apply(op, s).value, h, w)
  {
    var t, c := op.table, op.column;
    var f := Step(op, Get(s, t)).value.cols[c];
    assert Apply(op, s).value == s[t := s[t][c := f]];
    SameFlagsSameLive(s, t, c, f);
    FieldReplaced(h.dialect, s, t, c, f);
    var stmt := if op.nullable then DropNotNullS(t, c) else SetNotNullS(t, c);
    assert ColumnOf(h.dialect, f) == cat.tables[t][c].(notNull := !op.nullable);
    if op.nullable {
      forall n | n in cat.objects ensures cat.objects[n] != Obj(PrimaryKey, t, c) {
        assert NamedWell(cat.objects[n], n, LiveSet(s), w);
      }
    }
    Single(stmt, cat, SetColumn(cat, t, c, ColumnOf(h.dialect, f)), h);
  }

  // ------------------------------------------------------- columns and tables

  lemma StepDropColumn(op: Op, s: Schema, cat: Catalog, h: Host, w: Naming)
    requires Represents(cat, s, h.dialect, w) && Safe(op, Get(s, TableOf(op))) && op.DropColumn?
    ensures Settles(Accepts(h, op, Get(s, op.table)), [DropColumnS(op.table, op.column)], cat, Apply(op, s).value, h, w)
  {
    assert Apply(op, s).value == s[op.table := s[op.table] - {op.column}];
    NamedIffFlagged(s, cat, h.dialect, w, op.table, op.column);
    assert cat.tables[op.table].Keys == s[op.table].Keys;
    if Accepts(h, op, Get(s, op.table)) {
      ColumnLeaves(s, cat, h, w, op.table, op.column);
    }
  }

  /** A column has objects on it exactly when it is a key, unique or indexed. */
  lemma NamedIffFlagged(s: Schema, cat: Catalog, d: Dialect, w: Naming, t: string, c: string)
    requires Represents(cat, s, d, w) && t in s && c in s[t]
    ensures Named(cat.objects, t, c) <==> !Plain(s[t][c])
  {
    if Named(cat.objects, t, c) {
      var n :| n in cat.objects && cat.objects[n] in OnColumn(t, c);
      assert NamedWell(cat.objects[n], n, LiveSet(s), w);
    }
    forall k: Kind | Flag(k, s[t][c]) ensures Named(cat.objects, t, c) {
      assert Obj(k, t, c) in LiveSet(s);
      var n :| n in cat.objects && cat.objects[n] == Obj(k, t, c);
    }
    assert !Plain(s[t][c]) ==> Flag(PrimaryKey, s[t][c]) || Flag(UniqueKey, s[t][c]) || Flag(PlainIndex, s[t][c]);
  }

  lemma ColumnLeaves(s: Schema, cat: Catalog, h: Host, w: Naming, t: string, c: string)
    requires Represents(cat, s, h.dialect, w) && t in s && c in s[t] && Droppable(h, cat, t, c)
    ensures Lands([DropColumnS(t, c)], cat, s[t := s[t] - {c}], h, w)
  {
    OneTableChanged(h.dialect, s, t, s[t] - {c});
    assert ColumnsOf(h.dialect, s[t] - {c}) == ColumnsOf(h.dialect, s[t]) - {c};
    NamesRemoved(cat.objects, LiveSet(s), w, OnColumn(t, c));
    LiveWithoutColumn(s, t, c);
    Single(DropColumnS(t, c), cat, Catalog(cat.tables[t := cat.tables[t] - {c}], Without(cat.objects, OnColumn(t, c))), h);
  }

  lemma LiveWithoutColumn(s: Schema, t: string, c: string)
    requires t in s
    ensures LiveSet(s[t := s[t] - {c}]) == LiveSet(s) - OnColumn(t, c)
  {
  }

  lemma StepDropTable(op: Op, s: Schema, cat: Catalog, h: Host, w: Naming)
    requires Represents(cat, s, h.dialect, w) && Safe(op, Get(s, TableOf(op))) && op.DropTable?
    ensures Lands([DropTableS(op.table)], cat, Apply(op, s).value, h, w)
  {
    var t := op.table;
    NamesRemoved(cat.objects, LiveSet(s), w, OnTable(t));
    assert LiveSet(s - {t}) == LiveSet(s) - OnTable(t);
    assert TablesOf(h.dialect, s - {t}) == TablesOf(h.dialect, s) - {t};
    Single(DropTableS(t), cat, Catalog(cat.tables - {t}, Without(cat.objects, OnTable(t))), h);
  }

  /** Renaming an unconstrained column leaves no generated name behind. */
  lemma ColumnRenamed(d: Dialect, cols: Cols, from: string, to: string)
    requires from in cols && to !in cols
    ensures ColumnsOf(d, (cols - {from})[to := cols[from].(name := to)]) == (ColumnsOf(d, cols) - {from})[to := ColumnsOf(d, cols)[from]]
  {
  }

  /** A column without key, unique constraint or index has no objects, before or after. */
  lemma PlainRenameKeepsLive(s: Schema, t: string, from: string, to: string)
    requires t in s && from in s[t] && to !in s[t] && !s[t][from].primaryKey && !s[t][from].unique && !s[t][from].index
    ensures LiveSet(s[t := (s[t] - {from})[to := s[t][from].(name := to)]]) == LiveSet(s)
  {
  }

  lemma StepRename(op: Op, s: Schema, cat: Catalog, h: Host, w: Naming)
    requires Represents(cat, s, h.dialect, w) && Safe(op, Get(s, TableOf(op))) && op.RenameColumn?
    ensures Lands([RenameColumnS(op.table, op.from, op.to)], cat, Apply(op, s).value, h, w)
  {
    var t, from, to := op.table, op.from, op.to;
    var f := s[t][from].(name := to);
    var cols := (s[t] - {from})[to := f];
    assert Apply(op, s).value == s[t := cols];
    OneTableChanged(h.dialect, s, t, cols);
    ColumnRenamed(h.dialect, s[t], from, to);
    PlainRenameKeepsLive(s, t, from, to);
    forall n | n in cat.objects ensures !(cat.objects[n].table == t && cat.objects[n].column == from) {
      assert NamedWell(cat.objects[n], n, LiveSet(s), w);
    }
    assert cat.objects == map n | n in cat.objects ::
        if cat.objects[n].table == t && cat.objects[n].column == from then cat.objects[n].(column := to) else cat.objects[n];
    Single(RenameColumnS(t, from, to), cat, Catalog(TablesOf(h.dialect, s[t := cols]), cat.objects), h);
  }

  /**
    Why resolveRenames refuses constrained columns: renaming one that carries a unique constraint or a
    plain index moves the object but not its name, and the catalog no longer represents the schema.
    */
  lemma ConstrainedRenameGoesStale(op: Op, s: Schema, cat: Catalog, h: Host, w: Naming)
    requires Represents(cat, s, h.dialect, w) && CollisionFree(w) && Covers(w, op)
    requires op.RenameColumn? && Step(op, Get(s, op.table)).Some?
    requires s[op.table][op.from].unique || s[op.table][op.from].index
    ensures ExecAll([RenameColumnS(op.table, op.from, op.to)], cat, h).Some?
    ensures !Represents(ExecAll([RenameColumnS(op.table, op.from, op.to)], cat, h).value, Apply(op, s).value, h.dialect, w)
  {
    var k := if s[op.table][op.from].unique then UniqueKey else PlainIndex;
    var o, moved := Obj(k, op.table, op.from), Obj(k, op.table, op.to);
    assert o in LiveSet(s);
    NameOwner(cat.objects, LiveSet(s), w, o);
    var stmt := RenameColumnS(op.table, op.from, op.to);
    var next := Exec(stmt, cat, h).value;
    Single(stmt, cat, next, h);
    assert next.objects[w.name(o)] == moved;
    assert w.name(o) != w.name(moved);
    assert !NamedWell(moved, w.name(o), LiveSet(Apply(op, s).value), w);
  }

  // --------------------------------------------------- adding columns and tables

  lemma ColumnArrives(h: Host, s: Schema, cat: Catalog, w: Naming, t: string, f: Field)
    requires Represents(cat, s, h.dialect, w) && t in s && f.name !in s[t] && TypeOf(h.dialect, f).Some?
    requires Plain(f)
    ensures var def := Definition(h.dialect, f).value;
            Exec(AddColumnS(t, def), cat, h).Some? && Represents(Exec(AddColumnS(t, def), cat, h).value, s[t := s[t][f.name := f]], h.dialect, w)
  {
    OneTableChanged(h.dialect, s, t, s[t][f.name := f]);
    OneColumnChanged(h.dialect, s[t], f.name, f);
    assert LiveSet(s[t := s[t][f.name := f]]) == LiveSet(s);
  }

  function Bare(f: Field): Field
  {
    f.(primaryKey := false, unique := false, index := false)
  }

  function OnlyFlag(f: Field): Option<Kind>
  {
    if f.primaryKey then Some(PrimaryKey) else if f.unique then Some(UniqueKey) else if f.index then Some(PlainIndex) else None
  }

  function FlagStatement(k: Kind, t: string, c: string, name: Obj -> string): Statement
  {
    if k == PlainIndex then CreateIndexS(name(Obj(k, t, c)), t, c) else AddConstraintS(t, name(Obj(k, t, c)), k, c)
  }

  /** AddColumnS, then the one constraint or index the field asks for. */
  function AddColumnStatements(d: Dialect, t: string, f: Field, name: Obj -> string): seq<Statement>
    requires Definition(d, f).Some?
  {
    [AddColumnS(t, Definition(d, f).value)] + match OnlyFlag(f) case None => [] case Some(k) => [FlagStatement(k, t, f.name, name)]
  }

  lemma StepAddColumn(op: Op, s: Schema, cat: Catalog, h: Host, w: Naming)
    requires Represents(cat, s, h.dialect, w) && CollisionFree(w) && Covers(w, op) && Safe(op, Get(s, TableOf(op))) && op.AddColumn?
    requires h.dialect == Postgres || (!op.field.primaryKey && !op.field.unique)
    ensures Definition(h.dialect, op.field).Some?
    ensures Lands(AddColumnStatements(h.dialect, op.table, op.field, w.name), cat, Apply(op, s).value, h, w)
  {
    var t, f := op.table, op.field;
    assert Apply(op, s).value == s[t := s[t][f.name := f]];
    assert f.name in Mentions(op);
    FieldArrives(s, cat, h, w, t, f);
  }

  lemma FieldArrives(s: Schema, cat: Catalog, h: Host, w: Naming, t: string, f: Field)
    requires Represents(cat, s, h.dialect, w) && CollisionFree(w) && t in s && f.name !in s[t]
    requires ValidField(f) && (f.primaryKey ==> NoKey(s[t]))
    requires forall k: Kind :: Obj(k, t, f.name) in w.universe
    requires h.dialect == Postgres || (!f.primaryKey && !f.unique)
    ensures Definition(h.dialect, f).Some?
    ensures Lands(AddColumnStatements(h.dialect, t, f, w.name), cat, s[t := s[t][f.name := f]], h, w)
  {
    var c, bare := f.name, Bare(f);
    assert Definition(h.dialect, bare) == Definition(h.dialect, f);
    var def := Definition(h.dialect, f).value;
    ColumnArrives(h, s, cat, w, t, bare);
    var catMid := Exec(AddColumnS(t, def), cat, h).value;
    Single(AddColumnS(t, def), cat, catMid, h);
    if OnlyFlag(f) == None {
      assert bare == f;
      assert [AddColumnS(t, def)] + [] == [AddColumnS(t, def)];
    } else {
      FlagArrives(s, cat, catMid, h, w, t, f, OnlyFlag(f).value);
    }
  }

  /** The column's one constraint or index, once the bare column is there. */
  lemma FlagArrives(s: Schema, cat: Catalog, catMid: Catalog, h: Host, w: Naming, t: string, f: Field, k: Kind)
    requires CollisionFree(w) && t in s && f.name !in s[t] && ValidField(f) && (f.primaryKey ==> NoKey(s[t]))
    requires forall k: Kind :: Obj(k, t, f.name) in w.universe
    requires OnlyFlag(f) == Some(k) && Definition(h.dialect, f).Some?
    requires ExecAll([AddColumnS(t, Definition(h.dialect, f).value)], cat, h) == Some(catMid)
    requires Represents(catMid, s[t := s[t][f.name := Bare(f)]], h.dialect, w)
    requires h.dialect == Postgres || k == PlainIndex
    ensures Lands(AddColumnStatements(h.dialect, t, f, w.name), cat, s[t := s[t][f.name := f]], h, w)
  {
    var c, mid := f.name, s[t := s[t][f.name := Bare(f)]];
    assert mid[t][c := f] == s[t][c := f];
    assert mid[t := mid[t][c := f]] == s[t := s[t][c := f]];
    FlagLands(mid, catMid, h, w, k, t, c, f);
    ExecConcat([AddColumnS(t, Definition(h.dialect, f).value)], [FlagStatement(k, t, c, w.name)], cat, h);
  }
}
