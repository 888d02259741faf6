/** The operation vocabulary of migratediff, and what each operation does to a schema. */
module Operations {
  import opened Wrappers
  import opened Orm

  datatype Op =
    | CreateTable(model: Model)
    | DropTable(table: string)
    | AddColumn(table: string, field: Field)
    | DropColumn(table: string, column: string)
    | RenameColumn(table: string, from: string, to: string)
    | ChangeType(table: string, column: string, target: Field)
    | ChangeNullability(table: string, column: string, nullable: bool)
    | AddUnique(table: string, column: string)
    | DropUnique(table: string, column: string)
    | AddIndex(table: string, column: string)
    | DropIndex(table: string, column: string)
    | AddPrimaryKey(table: string, column: string)
    | DropPrimaryKey(table: string, column: string)

  /** operationTable in makemigrations.go. */
  function TableOf(op: Op): string
  {
    if op.CreateTable? then op.model.table else op.table
  }

  datatype TableState = Absent | Present(cols: Cols)

  function Get(s: Schema, t: string): TableState
  {
    if t in s then Present(s[t]) else Absent
  }

  function Put(s: Schema, t: string, ts: TableState): Schema
  {
    match ts
    case Absent => s - {t}
    case Present(cols) => s[t := cols]
  }

  ghost predicate NoKey(cols: Cols)
  {
    forall c :: c in cols ==> !cols[c].primaryKey
  }

  ghost predicate Has(ts: TableState, c: string)
  {
    ts.Present? && c in ts.cols
  }

  /** One operation on its own table; None when its precondition does not hold there. */
  ghost function Step(op: Op, ts: TableState): Option<TableState>
  {
    match op
    case CreateTable(m) =>
      if ts.Absent? then Some(Present(IndexFields(m.fields))) else None
    case DropTable(_) =>
      if ts.Present? then Some(Absent) else None
    case AddColumn(_, f) =>
      if ts.Present? && f.name !in ts.cols && (f.primaryKey ==> NoKey(ts.cols))
      then Some(Present(ts.cols[f.name := f])) else None
    case DropColumn(_, c) =>
      if Has(ts, c) then Some(Present(ts.cols - {c})) else None
    case RenameColumn(_, from, to) =>
      if Has(ts, from) && to !in ts.cols
      then Some(Present((ts.cols - {from})[to := ts.cols[from].(name := to)])) else None
    case ChangeType(_, c, f) =>
      if Has(ts, c) then Some(Present(ts.cols[c := ts.cols[c].(typ := f.typ, maxLen := f.maxLen)])) else None
    case ChangeNullability(_, c, n) =>
      if Has(ts, c) && !(n && ts.cols[c].primaryKey)
      then Some(Present(ts.cols[c := ts.cols[c].(nullable := n)])) else None
    case AddUnique(_, c) =>
      if Has(ts, c) && !ts.cols[c].unique then Some(Present(ts.cols[c := ts.cols[c].(unique := true)])) else None
    case DropUnique(_, c) =>
      if Has(ts, c) && ts.cols[c].unique then Some(Present(ts.cols[c := ts.cols[c].(unique := false)])) else None
    case AddIndex(_, c) =>
      if Has(ts, c) && !ts.cols[c].index then Some(Present(ts.cols[c := ts.cols[c].(index := true)])) else None
    case DropIndex(_, c) =>
      if Has(ts, c) && ts.cols[c].index then Some(Present(ts.cols[c := ts.cols[c].(index := false)])) else None
    case AddPrimaryKey(_, c) =>
      if Has(ts, c) && !ts.cols[c].nullable && NoKey(ts.cols)
      then Some(Present(ts.cols[c := ts.cols[c].(primaryKey := true)])) else None
    case DropPrimaryKey(_, c) =>
      if Has(ts, c) && ts.cols[c].primaryKey
      then Some(Present(ts.cols[c := ts.cols[c].(primaryKey := false)])) else None
  }

  ghost function Apply(op: Op, s: Schema): Option<Schema>
  {
    match Step(op, Get(s, TableOf(op)))
    case None => None
    case Some(ts) => Some(Put(s, TableOf(op), ts))
  }

  ghost function Run(ops: seq<Op>, s: Schema): Option<Schema>
  {
    if ops == [] then Some(s)
    else match Apply(ops[0], s)
      case None => None
      case Some(next) => Run(ops[1..], next)
  }

  /** Every schema the run passes through, first to last. */
  ghost function Trace(ops: seq<Op>, s: Schema): seq<Schema>
    requires Run(ops, s).Some?
  {
    if ops == [] then [s] else [s] + Trace(ops[1..], Apply(ops[0], s).value)
  }

  /** The rules every schema in between keeps: one key, never nullable, and no doubled flag. */
  ghost predicate Sane(ts: TableState)
  {
    ts.Present? ==>
      && (forall c, d :: c in ts.cols && d in ts.cols && ts.cols[c].primaryKey && ts.cols[d].primaryKey ==> c == d)
      && (forall c :: c in ts.cols ==> SaneField(c, ts.cols[c]))
  }

  ghost predicate SaneField(c: string, f: Field)
  {
    && f.name == c
    && !f.typ.Other?
    && !(f.primaryKey && (f.nullable || f.unique || f.index))
    && !(f.unique && f.index)
  }

  ghost predicate SaneSchema(s: Schema)
  {
    forall t: string :: Sane(Get(s, t))
  }

  /** The metadata an operation carries is metadata registration would accept. */
  ghost predicate WellFormed(op: Op)
  {
    match op
    case CreateTable(m) => ValidModel(m)
    case AddColumn(_, f) => ValidField(f)
    case ChangeType(_, _, f) => !f.typ.Other?
    case _ => true
  }

  ghost predicate Plain(f: Field)
  {
    !f.primaryKey && !f.unique && !f.index
  }

  /** Op may run here: legal, well formed, between sane states, and no generated name goes stale. */
  ghost predicate Safe(op: Op, ts: TableState)
  {
    && WellFormed(op)
    && Sane(ts)
    && Step(op, ts).Some?
    && Sane(Step(op, ts).value)
    && (op.RenameColumn? ==> Plain(ts.cols[op.from]))
  }

  /** What op destroys or overwrites is exactly what the recorded table `was` says was there. */
  ghost predicate Recorded(op: Op, was: TableState, ts: TableState)
  {
    match op
    case DropTable(_) => was == ts
    case DropColumn(_, c) => Has(was, c) && Has(ts, c) && was.cols[c] == ts.cols[c]
    case ChangeType(_, c, _) =>
      && Has(was, c) && Has(ts, c) && !was.cols[c].typ.Other?
      && was.cols[c].typ == ts.cols[c].typ && was.cols[c].maxLen == ts.cols[c].maxLen
    case ChangeNullability(_, c, n) =>
      Has(was, c) && Has(ts, c) && was.cols[c].nullable == ts.cols[c].nullable && n != ts.cols[c].nullable
    case _ => true
  }

  /** A whole list of one table's operations, safe and recorded at every step. */
  ghost predicate TablePath(ops: seq<Op>, was: TableState, ts: TableState)
  {
    ops == [] ||
    (Safe(ops[0], ts) && Recorded(ops[0], was, ts) && TablePath(ops[1..], was, Step(ops[0], ts).value))
  }

  ghost function TableEnd(ops: seq<Op>, ts: TableState): Option<TableState>
  {
    if ops == [] then Some(ts)
    else match Step(ops[0], ts)
      case None => None
      case Some(next) => TableEnd(ops[1..], next)
  }

  /** The same for a list touching many tables. */
  ghost predicate Path(ops: seq<Op>, was: Schema, s: Schema)
  {
    ops == [] ||
    var t := TableOf(ops[0]);
    Safe(ops[0], Get(s, t)) && Recorded(ops[0], Get(was, t), Get(s, t)) && Path(ops[1..], was, Apply(ops[0], s).value)
  }

  ghost predicate SafeRun(ops: seq<Op>, s: Schema)
  {
    ops == [] || (Safe(ops[0], Get(s, TableOf(ops[0]))) && SafeRun(ops[1..], Apply(ops[0], s).value))
  }

  /** The operations of one table, in order. */
  function Proj(ops: seq<Op>, t: string): seq<Op>
  {
    if ops == [] then []
    else (if TableOf(ops[0]) == t then [ops[0]] else []) + Proj(ops[1..], t)
  }

  lemma RunOn(a: seq<Op>, b: seq<Op>, s: Schema, mid: Schema)
    requires Run(a, s) == Some(mid)
    ensures Run(a + b, s) == Run(b, mid)
  {
    RunConcat(a, b, s);
  }

  lemma Associative(a: seq<Op>, b: seq<Op>, c: seq<Op>)
    ensures (a + b) + c == a + (b + c)
  {
  }

  lemma {:induction false} ProjConcat(a: seq<Op>, b: seq<Op>, t: string)
    ensures Proj(a + b, t) == Proj(a, t) + Proj(b, t)
  {
    if a == [] {
      assert a + b == b;
    } else {
      ProjConcat(a[1..], b, t);
      assert (a + b)[1..] == a[1..] + b;
      var first := if TableOf(a[0]) == t then [a[0]] else [];
      Associative(first, Proj(a[1..], t), Proj(b, t));
    }
  }

  lemma {:induction false} ProjAll(ops: seq<Op>, t: string)
    requires forall i :: 0 <= i < |ops| ==> TableOf(ops[i]) == t
    ensures Proj(ops, t) == ops
  {
    if ops != [] {
      ProjAll(ops[1..], t);
      assert ops == [ops[0]] + ops[1..];
    }
  }

  lemma {:induction false} ProjNone(ops: seq<Op>, t: string)
    requires forall i :: 0 <= i < |ops| ==> TableOf(ops[i]) != t
    ensures Proj(ops, t) == []
  {
    if ops != [] {
      ProjNone(ops[1..], t);
    }
  }

  lemma GetPut(s: Schema, t: string, ts: TableState)
    ensures forall u: string :: Get(Put(s, t, ts), u) == if u == t then ts else Get(s, u)
  {
  }

  lemma SchemaExtensional(a: Schema, b: Schema)
    requires forall t: string :: Get(a, t) == Get(b, t)
    ensures a == b
  {
    forall t: string ensures t in a <==> t in b {
      assert Get(a, t) == Get(b, t);
    }
    forall t | t in a ensures a[t] == b[t] {
      assert Get(a, t) == Get(b, t);
    }
  }

  /**
    Operations on different tables do not interfere: a list that is a path table by table is a
    path, and its outcome is each table's own outcome.  Any reordering that keeps every table's
    own order is therefore a path to the same schema.
    */
  lemma {:induction false} PathByTable(ops: seq<Op>, was: Schema, s: Schema, end: Schema)
    requires forall t: string :: TablePath(Proj(ops, t), Get(was, t), Get(s, t))
    requires forall t: string :: TableEnd(Proj(ops, t), Get(s, t)) == Some(Get(end, t))
    ensures Path(ops, was, s) && Run(ops, s) == Some(end)
  {
    if ops == [] {
      forall t: string ensures Get(s, t) == Get(end, t) {
        assert TableEnd(Proj(ops, t), Get(s, t)) == Some(Get(end, t));
      }
      SchemaExtensional(s, end);
    } else {
      var u := TableOf(ops[0]);
      assert Proj(ops, u) == [ops[0]] + Proj(ops[1..], u);
      assert TablePath(Proj(ops, u), Get(was, u), Get(s, u));
      assert TableEnd(Proj(ops, u), Get(s, u)) == Some(Get(end, u));
      var next := Apply(ops[0], s).value;
      GetPut(s, u, Step(ops[0], Get(s, u)).value);
      forall t: string
        ensures TablePath(Proj(ops[1..], t), Get(was, t), Get(next, t))
        ensures TableEnd(Proj(ops[1..], t), Get(next, t)) == Some(Get(end, t))
      {
        assert TablePath(Proj(ops, t), Get(was, t), Get(s, t));
        assert TableEnd(Proj(ops, t), Get(s, t)) == Some(Get(end, t));
        if t != u {
          assert Proj(ops, t) == Proj(ops[1..], t);
        }
      }
      PathByTable(ops[1..], was, next, end);
    }
  }

  lemma {:induction false} PathIsSafe(ops: seq<Op>, was: Schema, s: Schema)
    requires Path(ops, was, s)
    ensures SafeRun(ops, s)
  {
    if ops != [] {
      PathIsSafe(ops[1..], was, Apply(ops[0], s).value);
    }
  }

  lemma {:induction false} SafeRunEnds(ops: seq<Op>, s: Schema)
    requires SafeRun(ops, s)
    ensures Run(ops, s).Some?
  {
    if ops != [] {
      SafeRunEnds(ops[1..], Apply(ops[0], s).value);
    }
  }

  /** Every schema a safe run passes through keeps the rules of Sane. */
  lemma {:induction false} SafeRunStaysSane(ops: seq<Op>, s: Schema)
    requires SafeRun(ops, s) && SaneSchema(s)
    ensures Run(ops, s).Some?
    ensures forall i :: 0 <= i < |Trace(ops, s)| ==> SaneSchema(Trace(ops, s)[i])
  {
    if ops != [] {
      var u := TableOf(ops[0]);
      GetPut(s, u, Step(ops[0], Get(s, u)).value);
      SafeRunStaysSane(ops[1..], Apply(ops[0], s).value);
    }
  }

  lemma {:induction false} SafeRunConcat(a: seq<Op>, b: seq<Op>, s: Schema)
    requires SafeRun(a, s) && Run(a, s).Some? && SafeRun(b, Run(a, s).value)
    ensures SafeRun(a + b, s) && Run(a + b, s) == Run(b, Run(a, s).value)
  {
    if a == [] {
      assert a + b == b;
    } else {
      assert (a + b)[1..] == a[1..] + b;
      SafeRunConcat(a[1..], b, Apply(a[0], s).value);
    }
  }

  lemma {:induction false} RunConcat(a: seq<Op>, b: seq<Op>, s: Schema)
    ensures Run(a + b, s) == if Run(a, s).None? then None else Run(b, Run(a, s).value)
  {
    if a == [] {
      assert a + b == b;
    } else {
      assert (a + b)[1..] == a[1..] + b;
      if Apply(a[0], s).Some? {
        RunConcat(a[1..], b, Apply(a[0], s).value);
      }
    }
  }
}
