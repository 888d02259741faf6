/** CREATE TABLE with its constraints and indexes, and whole operation lists. */
module CreateSimulation {
  import opened Wrappers
  import opened Orm
  import opened Operations
  import opened Catalog
  import opened Dialects
  import opened Simulation

  ghost predicate Among(fields: seq<Field>, i: nat, c: string)
    requires i <= |fields|
  {
    exists x :: 0 <= x < i && fields[x].name == c
  }

  /** The new table with constraints for the first i fields and indexes for the first j. */
  ghost function Stage(fields: seq<Field>, i: nat, j: nat): Cols
    requires i <= |fields| && j <= |fields|
  {
    var all := IndexFields(fields);
    map c | c in all :: all[c].(primaryKey := all[c].primaryKey && Among(fields, i, c),
                                unique := all[c].unique && Among(fields, i, c),
                                index := all[c].index && Among(fields, j, c))
  }

  ghost predicate GoodFields(fields: seq<Field>)
  {
    && (forall i :: 0 <= i < |fields| ==> !Faulty(fields, i))
    && KeyCount(fields) <= 1
  }

  lemma AmongNext(fields: seq<Field>, i: nat, c: string)
    requires i < |fields|
    ensures Among(fields, i + 1, c) <==> Among(fields, i, c) || fields[i].name == c
  {
    if Among(fields, i, c) {
      var x :| 0 <= x < i && fields[x].name == c;
      assert 0 <= x < i + 1;
    }
  }

  lemma NotAmongYet(fields: seq<Field>, i: nat)
    requires GoodFields(fields) && i < |fields|
    ensures !Among(fields, i, fields[i].name)
    ensures fields[i].name in IndexFields(fields) && IndexFields(fields)[fields[i].name] == fields[i]
  {
    assert !Faulty(fields, i);
    IndexFieldsExact(fields);
  }

  /** One more field's constraint changes that column alone. */
  lemma StageConstraint(fields: seq<Field>, i: nat)
    requires GoodFields(fields) && i < |fields|
    ensures var c := fields[i].name;
            && c in Stage(fields, i, 0) && c in Stage(fields, i + 1, 0)
            && Stage(fields, i + 1, 0) == Stage(fields, i, 0)[c := Stage(fields, i + 1, 0)[c]]
            && Stage(fields, i, 0)[c] == Bare(fields[i])
            && Stage(fields, i + 1, 0)[c] == fields[i].(index := false)
  {
    NotAmongYet(fields, i);
    forall c: string ensures Among(fields, i + 1, c) <==> Among(fields, i, c) || fields[i].name == c {
      AmongNext(fields, i, c);
    }
  }

  lemma StageIndex(fields: seq<Field>, j: nat)
    requires GoodFields(fields) && j < |fields|
    ensures var c, n := fields[j].name, |fields|;
            && c in Stage(fields, n, j) && c in Stage(fields, n, j + 1)
            && Stage(fields, n, j + 1) == Stage(fields, n, j)[c := Stage(fields, n, j + 1)[c]]
            && Stage(fields, n, j)[c] == fields[j].(index := false)
            && Stage(fields, n, j + 1)[c] == fields[j]
  {
    NotAmongYet(fields, j);
    assert Among(fields, |fields|, fields[j].name);
    forall c: string ensures Among(fields, j + 1, c) <==> Among(fields, j, c) || fields[j].name == c {
      AmongNext(fields, j, c);
    }
  }

  lemma StageWhole(fields: seq<Field>)
    requires GoodFields(fields)
    ensures Stage(fields, |fields|, |fields|) == IndexFields(fields)
  {
    IndexFieldsExact(fields);
    forall c | c in IndexFields(fields) ensures Among(fields, |fields|, c) {
      var x :| 0 <= x < |fields| && fields[x].name == c;
    }
  }

  lemma StageNoKey(fields: seq<Field>, i: nat)
    requires GoodFields(fields) && i < |fields| && fields[i].primaryKey
    ensures NoKey(Stage(fields, i, 0))
  {
    var cols := Stage(fields, i, 0);
    IndexFieldsExact(fields);
    forall c | c in cols ensures !cols[c].primaryKey {
      if Among(fields, i, c) {
        var x :| 0 <= x < i && fields[x].name == c;
        KeyCountPositive(fields, i);
        assert !fields[x].primaryKey;
      }
    }
  }

  lemma {:induction false} ColumnMapIs(d: Dialect, fields: seq<Field>)
    requires forall i :: 0 <= i < |fields| ==> !Faulty(fields, i)
    ensures Definitions(d, fields).Some? && |Definitions(d, fields).value| == |fields|
    ensures forall i :: 0 <= i < |fields| ==> Definitions(d, fields).value[i].name == fields[i].name
    ensures ColumnMap(Definitions(d, fields).value) == ColumnsOf(d, IndexFields(fields))
  {
    if fields != [] {
      var n := |fields| - 1;
      var most := fields[..n];
      forall i | 0 <= i < n ensures !Faulty(most, i) {
        assert !Faulty(fields, i);
      }
      ColumnMapIs(d, most);
      assert !Faulty(fields, n);
      var defs := Definitions(d, fields).value;
      assert defs[..n] == Definitions(d, most).value;
      OneColumnChanged(d, IndexFields(most), fields[n].name, fields[n]);
    }
  }

  lemma StageColumns(d: Dialect, fields: seq<Field>, i: nat, j: nat)
    requires i <= |fields| && j <= |fields|
    ensures ColumnsOf(d, Stage(fields, i, j)) == ColumnsOf(d, IndexFields(fields))
  {
    var all := IndexFields(fields);
    forall c | c in all ensures ColumnOf(d, Stage(fields, i, j)[c]) == ColumnOf(d, all[c]) {
    }
  }

  ghost predicate CoversFields(w: Naming, t: string, fields: seq<Field>)
  {
    forall i, k: Kind :: 0 <= i < |fields| ==> Obj(k, t, fields[i].name) in w.universe
  }

  ghost function ConstraintOf(f: Field): Option<Kind>
  {
    if f.primaryKey then Some(PrimaryKey) else if f.unique then Some(UniqueKey) else None
  }

  /** The catalog after one more field's constraint, or the same one when it asks for none. */
  ghost function Constrain(cat: Catalog, w: Naming, t: string, f: Field): Option<Catalog>
  {
    match ConstraintOf(f)
    case None => Some(cat)
    case Some(k) => AddObject(cat, w.name(Obj(k, t, f.name)), Obj(k, t, f.name))
  }

  lemma ConstraintLands(s: Schema, cat: Catalog, d: Dialect, w: Naming, t: string, fields: seq<Field>, i: nat)
    requires GoodFields(fields) && i < |fields| && CollisionFree(w) && CoversFields(w, t, fields)
    requires Represents(cat, s[t := Stage(fields, i, 0)], d, w)
    ensures Constrain(cat, w, t, fields[i]).Some?
    ensures Represents(Constrain(cat, w, t, fields[i]).value, s[t := Stage(fields, i + 1, 0)], d, w)
  {
    var f, c := fields[i], fields[i].name;
    StageConstraint(fields, i);
    var here, there := s[t := Stage(fields, i, 0)], s[t := Stage(fields, i + 1, 0)];
    assert here[t := here[t][c := there[t][c]]] == there;
    assert !Faulty(fields, i);
    match ConstraintOf(f)
    case Some(k) =>
      if k == PrimaryKey {
        StageNoKey(fields, i);
      }
      FlagAdded(here, cat, d, w, k, t, c, there[t][c]);
    case None =>
      Unchanged(here, there, t, c);
  }

  lemma Unchanged(here: Schema, there: Schema, t: string, c: string)
    requires t in here && c in here[t] && t in there && c in there[t] && here[t := here[t][c := there[t][c]]] == there
    requires here[t][c] == there[t][c]
    ensures here == there
  {
    assert here[t][c := here[t][c]] == here[t];
  }

  lemma {:induction false} ConstraintsLand(s: Schema, cat: Catalog, d: Dialect, w: Naming, t: string, fields: seq<Field>, i: nat)
    requires GoodFields(fields) && i <= |fields| && CollisionFree(w) && CoversFields(w, t, fields)
    requires Represents(cat, s[t := Stage(fields, i, 0)], d, w)
    ensures AddConstraints(cat, t, Constraints(t, fields[i..], w.name)).Some?
    ensures Represents(AddConstraints(cat, t, Constraints(t, fields[i..], w.name)).value, s[t := Stage(fields, |fields|, 0)], d, w)
    decreases |fields| - i
  {
    if i < |fields| {
      ConstraintLands(s, cat, d, w, t, fields, i);
      ConstraintsLand(s, Constrain(cat, w, t, fields[i]).value, d, w, t, fields, i + 1);
      assert fields[i..][0] == fields[i] && fields[i..][1..] == fields[i + 1..];
      FirstConstraint(t, fields[i..], w, cat);
    }
  }

  lemma FirstConstraint(t: string, fields: seq<Field>, w: Naming, cat: Catalog)
    requires fields != [] && Constrain(cat, w, t, fields[0]).Some?
    ensures AddConstraints(cat, t, Constraints(t, fields, w.name))
            == AddConstraints(Constrain(cat, w, t, fields[0]).value, t, Constraints(t, fields[1..], w.name))
  {
    var defs := Constraints(t, fields, w.name);
    match ConstraintOf(fields[0])
    case Some(k) =>
      assert defs[0] == ConstraintDef(w.name(Obj(k, t, fields[0].name)), k, fields[0].name);
      assert defs[1..] == Constraints(t, fields[1..], w.name);
    case None =>
      assert defs == Constraints(t, fields[1..], w.name);
  }

  function IndexStatements(t: string, f: Field, w: Naming): seq<Statement>
  {
    if f.index then [FlagStatement(PlainIndex, t, f.name, w.name)] else []
  }

  lemma IndexLands(s: Schema, cat: Catalog, h: Host, w: Naming, t: string, fields: seq<Field>, j: nat)
    requires GoodFields(fields) && j < |fields| && CollisionFree(w) && CoversFields(w, t, fields)
    requires Represents(cat, s[t := Stage(fields, |fields|, j)], h.dialect, w)
    ensures Lands(IndexStatements(t, fields[j], w), cat, s[t := Stage(fields, |fields|, j + 1)], h, w)
  {
    var f, c, n := fields[j], fields[j].name, |fields|;
    StageIndex(fields, j);
    var here, there := s[t := Stage(fields, n, j)], s[t := Stage(fields, n, j + 1)];
    assert here[t := here[t][c := there[t][c]]] == there;
    assert !Faulty(fields, j);
    if f.index {
      FlagLands(here, cat, h, w, PlainIndex, t, c, f);
    } else {
      Unchanged(here, there, t, c);
    }
  }

  lemma {:induction false} IndexesLand(s: Schema, cat: Catalog, h: Host, w: Naming, t: string, fields: seq<Field>, j: nat)
    requires GoodFields(fields) && j <= |fields| && CollisionFree(w) && CoversFields(w, t, fields)
    requires Represents(cat, s[t := Stage(fields, |fields|, j)], h.dialect, w)
    ensures Lands(Indexes(t, fields[j..], w.name), cat, s[t := Stage(fields, |fields|, |fields|)], h, w)
    decreases |fields| - j
  {
    if j < |fields| {
      var first := IndexStatements(t, fields[j], w);
      IndexLands(s, cat, h, w, t, fields, j);
      IndexesLand(s, ExecAll(first, cat, h).value, h, w, t, fields, j + 1);
      ExecConcat(first, Indexes(t, fields[j + 1..], w.name), cat, h);
      assert fields[j..][0] == fields[j] && fields[j..][1..] == fields[j + 1..];
      assert Indexes(t, fields[j..], w.name) == first + Indexes(t, fields[j + 1..], w.name);
    }
  }

  lemma StepCreateTable(op: Op, s: Schema, cat: Catalog, h: Host, w: Naming)
    requires Represents(cat, s, h.dialect, w) && CollisionFree(w) && Covers(w, op) && Safe(op, Get(s, TableOf(op))) && op.CreateTable?
    ensures RenderCreate(h.dialect, op.model, w.name).Ok?
    ensures Lands(RenderCreate(h.dialect, op.model, w.name).value, cat, Apply(op, s).value, h, w)
  {
    var t, fields := op.model.table, op.model.fields;
    assert CoversFields(w, t, fields) by {
      forall i, k: Kind | 0 <= i < |fields| ensures Obj(k, t, fields[i].name) in w.universe {
        assert fields[i].name in Mentions(op);
      }
    }
    assert Apply(op, s).value == s[t := IndexFields(fields)];
    TableLands(s, cat, h, w, t, fields);
  }

  lemma TableLands(s: Schema, cat: Catalog, h: Host, w: Naming, t: string, fields: seq<Field>)
    requires Represents(cat, s, h.dialect, w) && CollisionFree(w) && CoversFields(w, t, fields)
    requires GoodFields(fields) && fields != [] && t !in s && t in w.tables
    ensures Definitions(h.dialect, fields).Some?
    ensures Lands([CreateTableS(t, Definitions(h.dialect, fields).value, Constraints(t, fields, w.name))] + Indexes(t, fields, w.name),
                  cat, s[t := IndexFields(fields)], h, w)
  {
    ColumnMapIs(h.dialect, fields);
    var defs, n := Definitions(h.dialect, fields).value, |fields|;
    var bare := cat.(tables := cat.tables[t := ColumnMap(defs)]);
    TableOpens(s, cat, h.dialect, w, t, fields);
    ConstraintsLand(s, bare, h.dialect, w, t, fields, 0);
    assert fields[0..] == fields;
    var closed := AddConstraints(bare, t, Constraints(t, fields, w.name)).value;
    var create := CreateTableS(t, defs, Constraints(t, fields, w.name));
    TableExecutes(cat, w, t, fields, defs, s, h);
    Single(create, cat, closed, h);
    IndexesLand(s, closed, h, w, t, fields, 0);
    ExecConcat([create], Indexes(t, fields, w.name), cat, h);
    StageWhole(fields);
  }

  lemma TableExecutes(cat: Catalog, w: Naming, t: string, fields: seq<Field>, defs: seq<ColumnDef>, s: Schema, h: Host)
    requires Represents(cat, s, h.dialect, w) && GoodFields(fields) && fields != [] && t !in s && t in w.tables
    requires |defs| == |fields| && forall i :: 0 <= i < |fields| ==> defs[i].name == fields[i].name
    ensures Exec(CreateTableS(t, defs, Constraints(t, fields, w.name)), cat, h)
            == AddConstraints(cat.(tables := cat.tables[t := ColumnMap(defs)]), t, Constraints(t, fields, w.name))
  {
    forall i, j | 0 <= i < j < |defs| ensures defs[i].name != defs[j].name {
      assert !Faulty(fields, j);
    }
    forall m | m in cat.objects ensures m != t {
      assert NamedWell(cat.objects[m], m, LiveSet(s), w);
    }
  }

  /** The new table before any constraint: its columns are right and no name is new. */
  lemma TableOpens(s: Schema, cat: Catalog, d: Dialect, w: Naming, t: string, fields: seq<Field>)
    requires Represents(cat, s, d, w) && GoodFields(fields) && t !in s && t in w.tables
    requires Definitions(d, fields).Some? && ColumnMap(Definitions(d, fields).value) == ColumnsOf(d, IndexFields(fields))
    ensures Represents(cat.(tables := cat.tables[t := ColumnMap(Definitions(d, fields).value)]), s[t := Stage(fields, 0, 0)], d, w)
  {
    StageColumns(d, fields, 0, 0);
    OneTableChanged(d, s, t, Stage(fields, 0, 0));
    NothingLive(s, t, Stage(fields, 0, 0));
  }

  lemma NothingLive(s: Schema, t: string, cols: Cols)
    requires t !in s && forall c :: c in cols ==> Plain(cols[c])
    ensures LiveSet(s[t := cols]) == LiveSet(s)
  {
  }

  // ------------------------------------------------------------- main results

  /**
    Every safe operation renders for PostgreSQL, to at least one statement, and lands where the operation goes;
    only a change of type is ever refused, when the server does not convert the one type to the other.
    */
  lemma PostgresSimulates(op: Op, s: Schema, cat: Catalog, h: Host, w: Naming)
    requires h.dialect == Postgres
    requires CollisionFree(w) && Covers(w, op) && Safe(op, Get(s, TableOf(op))) && Represents(cat, s, Postgres, w)
    ensures RenderPostgres(op, w.name).Ok? && RenderPostgres(op, w.name).value != []
    ensures Settles(Accepts(h, op, Get(s, TableOf(op))), RenderPostgres(op, w.name).value, cat, Apply(op, s).value, h, w)
  {
    match op
    case CreateTable(_) => StepCreateTable(op, s, cat, h, w);
    case DropTable(_) => StepDropTable(op, s, cat, h, w);
    case AddColumn(t, f) =>
      StepAddColumn(op, s, cat, h, w);
      assert PostgresAddColumn(t, f, w.name).value == AddColumnStatements(Postgres, t, f, w.name);
    case DropColumn(_, _) => StepDropColumn(op, s, cat, h, w);
    case RenameColumn(_, _, _) => StepRename(op, s, cat, h, w);
    case ChangeType(_, _, _) => StepChangeType(op, s, cat, h, w);
    case ChangeNullability(_, _, _) => StepChangeNullability(op, s, cat, h, w);
    case AddUnique(_, _) => StepAddFlag(op, UniqueKey, s, cat, h, w);
    case DropUnique(_, _) => StepDropFlag(op, UniqueKey, s, cat, h, w);
    case AddIndex(_, _) => StepAddFlag(op, PlainIndex, s, cat, h, w);
    case DropIndex(_, _) => StepDropFlag(op, PlainIndex, s, cat, h, w);
    case AddPrimaryKey(_, _) => StepAddFlag(op, PrimaryKey, s, cat, h, w);
    case DropPrimaryKey(_, _) => StepDropKey(op, s, cat, h, w);
  }

  /** SQLite takes whatever is rendered for it, to the same effect; the rest is refused as unsupported. */
  lemma SqliteSimulates(op: Op, s: Schema, cat: Catalog, h: Host, w: Naming)
    requires h.dialect == SQLite
    requires CollisionFree(w) && Covers(w, op) && Safe(op, Get(s, TableOf(op))) && Represents(cat, s, SQLite, w)
    ensures RenderSqlite(op, w.name).Ok? ==>
              RenderSqlite(op, w.name).value != [] && Accepts(h, op, Get(s, TableOf(op)))
              && Lands(RenderSqlite(op, w.name).value, cat, Apply(op, s).value, h, w)
    ensures RenderSqlite(op, w.name).Err? ==> RenderSqlite(op, w.name).error == Unsupported
  {
    match op
    case CreateTable(_) => StepCreateTable(op, s, cat, h, w);
    case DropTable(_) => StepDropTable(op, s, cat, h, w);
    case AddColumn(t, f) =>
      assert WellFormed(op);
      if SqliteAddColumn(t, f, w.name).Ok? {
        StepAddColumn(op, s, cat, h, w);
        assert SqliteAddColumn(t, f, w.name).value == AddColumnStatements(SQLite, t, f, w.name);
      }
    case RenameColumn(_, _, _) => StepRename(op, s, cat, h, w);
    case AddIndex(_, _) => StepAddFlag(op, PlainIndex, s, cat, h, w);
    case DropIndex(_, _) => StepDropFlag(op, PlainIndex, s, cat, h, w);
    case _ =>
  }

  ghost predicate CoversAll(w: Naming, ops: seq<Op>)
  {
    forall i :: 0 <= i < |ops| ==> Covers(w, ops[i])
  }

  /** The server takes every operation where the run has got to. */
  ghost predicate AcceptsAll(h: Host, ops: seq<Op>, s: Schema)
    requires SafeRun(ops, s)
  {
    ops == [] || (Accepts(h, ops[0], Get(s, TableOf(ops[0]))) && AcceptsAll(h, ops[1..], Apply(ops[0], s).value))
  }

  lemma {:induction false} DefinitionsExist(fields: seq<Field>)
    requires forall i :: 0 <= i < |fields| ==> !fields[i].typ.Other?
    ensures Definitions(Postgres, fields).Some?
  {
    if fields != [] {
      DefinitionsExist(fields[..|fields| - 1]);
    }
  }

  /** Every safe operation renders for PostgreSQL, whatever the names. */
  lemma PostgresRenders(op: Op, ts: TableState, name: Obj -> string)
    requires Safe(op, ts)
    ensures RenderPostgres(op, name).Ok?
  {
    match op
    case CreateTable(m) =>
      forall i | 0 <= i < |m.fields| ensures !m.fields[i].typ.Other? {
        assert !Faulty(m.fields, i);
      }
      DefinitionsExist(m.fields);
    case _ =>
  }

  lemma {:induction false} PostgresRendersAll(ops: seq<Op>, s: Schema, name: Obj -> string)
    requires SafeRun(ops, s)
    ensures RenderAll(Postgres, ops, name).Ok?
  {
    if ops != [] {
      PostgresRenders(ops[0], Get(s, TableOf(ops[0])), name);
      PostgresRendersAll(ops[1..], Apply(ops[0], s).value, name);
    }
  }

  /** SQLite refuses nothing that was rendered for it: what it would refuse does not render. */
  lemma {:induction false} SqliteAcceptsAll(h: Host, ops: seq<Op>, s: Schema, name: Obj -> string)
    requires h.dialect == SQLite && SafeRun(ops, s) && RenderAll(SQLite, ops, name).Ok?
    ensures AcceptsAll(h, ops, s)
  {
    if ops != [] {
      SqliteAcceptsAll(h, ops[1..], Apply(ops[0], s).value, name);
    }
  }

  /** One operation on its server: rendered, it lands if accepted and is refused otherwise. */
  lemma Simulates(op: Op, s: Schema, cat: Catalog, h: Host, w: Naming)
    requires CollisionFree(w) && Covers(w, op) && Safe(op, Get(s, TableOf(op))) && Represents(cat, s, h.dialect, w)
    requires Render(h.dialect, op, w.name).Ok?
    ensures Settles(Accepts(h, op, Get(s, TableOf(op))), Render(h.dialect, op, w.name).value, cat, Apply(op, s).value, h, w)
  {
    if h.dialect == Postgres {
      PostgresSimulates(op, s, cat, h, w);
    } else {
      SqliteSimulates(op, s, cat, h, w);
    }
  }

  /**
    A whole safe list: its rendered statements carry a catalog of s to one of the schema it reaches exactly
    when the server takes each operation, and are refused otherwise. PostgreSQL renders every safe list.
    */
  lemma {:induction false} ListSimulates(ops: seq<Op>, s: Schema, cat: Catalog, h: Host, w: Naming)
    requires CollisionFree(w) && CoversAll(w, ops) && SafeRun(ops, s) && Represents(cat, s, h.dialect, w)
    ensures h.dialect == Postgres ==> RenderAll(h.dialect, ops, w.name).Ok?
    ensures RenderAll(h.dialect, ops, w.name).Ok? ==>
              Run(ops, s).Some? && Settles(AcceptsAll(h, ops, s), RenderAll(h.dialect, ops, w.name).value, cat, Run(ops, s).value, h, w)
    ensures RenderAll(h.dialect, ops, w.name).Ok? && h.dialect == SQLite ==> AcceptsAll(h, ops, s)
  {
    if h.dialect == Postgres {
      PostgresRendersAll(ops, s, w.name);
    }
    if RenderAll(h.dialect, ops, w.name).Ok? {
      SafeRunEnds(ops, s);
      RenderedSettles(ops, s, cat, h, w);
      if h.dialect == SQLite {
        SqliteAcceptsAll(h, ops, s, w.name);
      }
    }
  }

  lemma {:induction false} RenderedSettles(ops: seq<Op>, s: Schema, cat: Catalog, h: Host, w: Naming)
    requires CollisionFree(w) && CoversAll(w, ops) && SafeRun(ops, s) && Represents(cat, s, h.dialect, w)
    requires RenderAll(h.dialect, ops, w.name).Ok? && Run(ops, s).Some?
    ensures Settles(AcceptsAll(h, ops, s), RenderAll(h.dialect, ops, w.name).value, cat, Run(ops, s).value, h, w)
  {
    if ops != [] {
      assert Covers(w, ops[0]);
      assert CoversAll(w, ops[1..]);
      Simulates(ops[0], s, cat, h, w);
      var first, rest := Render(h.dialect, ops[0], w.name).value, RenderAll(h.dialect, ops[1..], w.name).value;
      ExecConcat(first, rest, cat, h);
      if Accepts(h, ops[0], Get(s, TableOf(ops[0]))) {
        RenderedSettles(ops[1..], Apply(ops[0], s).value, ExecAll(first, cat, h).value, h, w);
      }
    }
  }
}
