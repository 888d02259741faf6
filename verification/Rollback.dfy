/** The generated Down steps (invert and its use in makemigrations.go). */
module Rollback {
  import opened Wrappers
  import opened Text
  import opened Orm
  import opened Operations
  import opened Differ
  import opened Alterations
  import opened DiffSoundness

  function FindField(fields: seq<Field>, column: string): Option<Field>
  {
    if fields == [] then None
    else if fields[0].name == column then Some(fields[0])
    else FindField(fields[1..], column)
  }

  /** snapshotField: the recorded field of one column. */
  function SnapshotField(s: Snapshot, table: string, column: string): Option<Field>
  {
    match Lookup(s.models, table)
    case None => None
    case Some(m) => FindField(m.fields, column)
  }

  /** invert: the schema-level inverse, drops restored from the recorded before; None is its error. */
  function Invert(op: Op, before: Snapshot): Option<Op>
  {
    match op
    case CreateTable(m) => Some(DropTable(m.table))
    case DropTable(t) =>
      (match Lookup(before.models, t)
       case Some(m) => Some(CreateTable(m))
       case None => None)
    case AddColumn(t, f) => Some(DropColumn(t, f.name))
    case DropColumn(t, c) =>
      (match SnapshotField(before, t, c)
       case Some(f) => Some(AddColumn(t, f))
       case None => None)
    case RenameColumn(t, from, to) => Some(RenameColumn(t, to, from))
    case ChangeType(t, c, _) =>
      (match SnapshotField(before, t, c)
       case Some(f) => Some(ChangeType(t, c, f))
       case None => None)
    case ChangeNullability(t, c, _) =>
      (match SnapshotField(before, t, c)
       case Some(f) => Some(ChangeNullability(t, c, f.nullable))
       case None => None)
    case AddUnique(t, c) => Some(DropUnique(t, c))
    case DropUnique(t, c) => Some(AddUnique(t, c))
    case AddIndex(t, c) => Some(DropIndex(t, c))
    case DropIndex(t, c) => Some(AddIndex(t, c))
    case AddPrimaryKey(t, c) => Some(DropPrimaryKey(t, c))
    case DropPrimaryKey(t, c) => Some(AddPrimaryKey(t, c))
  }

  /** The Down list of a run: every operation inverted, last one first. */
  function RollbackOps(ops: seq<Op>, before: Snapshot): Option<seq<Op>>
  {
    if ops == [] then Some([])
    else
      match (Invert(ops[0], before), RollbackOps(ops[1..], before))
      case (Some(inverse), Some(rest)) => Some(rest + [inverse])
      case _ => None
  }

  /** The loop of runMakemigrations: inverses collected forwards, then emitted backwards. */
  method BuildDown(ops: seq<Op>, before: Snapshot) returns (down: Option<seq<Op>>)
    ensures down == RollbackOps(ops, before)
  {
    var inverses: seq<Op> := [];
    for i := 0 to |ops|
      invariant |inverses| == i
      invariant forall j :: 0 <= j < i ==> Invert(ops[j], before) == Some(inverses[j])
    {
      var inverse := Invert(ops[i], before);
      if inverse == None {
        Unrecorded(ops, before, i);
        return None;
      }
      inverses := inverses + [inverse.value];
    }
    down := Some([]);
    for i := |inverses| downto 0
      invariant down.Some? && |down.value| == |ops| - i
      invariant forall k :: 0 <= k < |ops| - i ==> down.value[k] == inverses[|ops| - 1 - k]
    {
      down := Some(down.value + [inverses[i]]);
    }
    RollbackIsReversed(ops, before, inverses);
    assert down.value == RollbackOps(ops, before).value;
  }

  lemma {:induction false} RollbackIsReversed(ops: seq<Op>, before: Snapshot, inverses: seq<Op>)
    requires |inverses| == |ops| && forall j :: 0 <= j < |ops| ==> Invert(ops[j], before) == Some(inverses[j])
    ensures RollbackOps(ops, before).Some? && |RollbackOps(ops, before).value| == |ops|
    ensures forall k :: 0 <= k < |ops| ==> RollbackOps(ops, before).value[k] == inverses[|ops| - 1 - k]
  {
    if ops != [] {
      RollbackIsReversed(ops[1..], before, inverses[1..]);
    }
  }

  lemma {:induction false} Unrecorded(ops: seq<Op>, before: Snapshot, i: nat)
    requires i < |ops| && Invert(ops[i], before) == None
    ensures RollbackOps(ops, before) == None
  {
    if i > 0 {
      Unrecorded(ops[1..], before, i - 1);
    }
  }

  lemma {:induction false} FindFieldIs(fields: seq<Field>, i: nat)
    requires i < |fields| && forall j :: 0 <= j < i ==> fields[j].name != fields[i].name
    ensures FindField(fields, fields[i].name) == Some(fields[i])
  {
    if i > 0 {
      FindFieldIs(fields[1..], i - 1);
    }
  }

  lemma SnapshotFieldIs(s: Snapshot, t: string, c: string)
    requires ValidSnapshot(s)
    requires t in SchemaOf(s.models) && c in SchemaOf(s.models)[t]
    ensures SnapshotField(s, t, c) == Some(SchemaOf(s.models)[t][c])
    ensures ValidField(SchemaOf(s.models)[t][c])
  {
    LookupSchema(s, t);
    var m := Lookup(s.models, t).value;
    IndexFieldsExact(m.fields);
    var i :| 0 <= i < |m.fields| && m.fields[i].name == c;
    assert !Faulty(m.fields, i);
    FindFieldIs(m.fields, i);
  }

  ghost predicate Undoes(inverse: Op, op: Op, here: TableState)
    requires Step(op, here).Some?
  {
    TableOf(inverse) == TableOf(op) && Safe(inverse, Step(op, here).value) && Step(inverse, Step(op, here).value) == Some(here)
  }

  lemma UndoAdd(t: string, f: Field, here: TableState)
    requires Safe(AddColumn(t, f), here)
    ensures Undoes(DropColumn(t, f.name), AddColumn(t, f), here)
  {
    assert here.cols[f.name := f] - {f.name} == here.cols;
  }

  lemma UndoDrop(t: string, c: string, f: Field, here: TableState)
    requires Safe(DropColumn(t, c), here) && here.cols[c] == f && ValidField(f)
    ensures Undoes(AddColumn(t, f), DropColumn(t, c), here)
  {
    assert (here.cols - {c})[c := f] == here.cols;
    assert f.name == c;
  }

  lemma UndoRename(t: string, from: string, to: string, here: TableState)
    requires Safe(RenameColumn(t, from, to), here)
    ensures Undoes(RenameColumn(t, to, from), RenameColumn(t, from, to), here)
  {
    var there := (here.cols - {from})[to := here.cols[from].(name := to)];
    assert there[to].(name := from) == here.cols[from];
    assert (there - {to})[from := here.cols[from]] == here.cols;
  }

  /** The operations that replace one column's field by another: undone by putting the old field back. */
  lemma UndoField(op: Op, inverse: Op, c: string, here: TableState)
    requires Safe(op, here) && here.Present? && c in here.cols
    requires TableOf(inverse) == TableOf(op) && WellFormed(inverse) && !inverse.RenameColumn?
    requires var there := Step(op, here).value;
             && there.Present? && c in there.cols && there == Present(here.cols[c := there.cols[c]])
             && Step(inverse, there) == Some(Present(there.cols[c := here.cols[c]]))
    ensures Undoes(inverse, op, here)
  {
    var there := Step(op, here).value;
    assert there.cols[c := here.cols[c]] == here.cols;
  }

  predicate IsFlag(op: Op)
  {
    op.AddUnique? || op.DropUnique? || op.AddIndex? || op.DropIndex?
  }

  lemma InvertFlag(op: Op, before: Snapshot, here: TableState)
    requires IsFlag(op) && Safe(op, here)
    ensures Invert(op, before).Some? && Undoes(Invert(op, before).value, op, here)
  {
    UndoField(op, Invert(op, before).value, op.column, here);
  }

  lemma InvertKey(op: Op, before: Snapshot, here: TableState)
    requires (op.AddPrimaryKey? || op.DropPrimaryKey?) && Safe(op, here)
    ensures Invert(op, before).Some? && Undoes(Invert(op, before).value, op, here)
  {
    UndoField(op, Invert(op, before).value, op.column, here);
  }

  lemma InvertChange(op: Op, before: Snapshot, here: TableState)
    requires ValidSnapshot(before) && (op.ChangeType? || op.ChangeNullability?)
    requires Safe(op, here) && Recorded(op, Get(SchemaOf(before.models), TableOf(op)), here)
    ensures Invert(op, before).Some? && Undoes(Invert(op, before).value, op, here)
  {
    SnapshotFieldIs(before, op.table, op.column);
    UndoField(op, Invert(op, before).value, op.column, here);
  }

  lemma InvertDrop(op: Op, before: Snapshot, here: TableState)
    requires ValidSnapshot(before) && (op.DropTable? || op.DropColumn?)
    requires Safe(op, here) && Recorded(op, Get(SchemaOf(before.models), TableOf(op)), here)
    ensures Invert(op, before).Some? && Undoes(Invert(op, before).value, op, here)
  {
    if op.DropTable? {
      LookupSchema(before, op.table);
    } else {
      SnapshotFieldIs(before, op.table, op.column);
      UndoDrop(op.table, op.column, here.cols[op.column], here);
    }
  }

  /** One operation undone: the inverse exists, is safe where the operation ended, and returns to where it began. */
  lemma InvertStep(op: Op, before: Snapshot, here: TableState)
    requires ValidSnapshot(before)
    requires Safe(op, here) && Recorded(op, Get(SchemaOf(before.models), TableOf(op)), here)
    ensures Invert(op, before).Some? && Undoes(Invert(op, before).value, op, here)
  {
    if IsFlag(op) {
      InvertFlag(op, before, here);
    } else if op.AddPrimaryKey? || op.DropPrimaryKey? {
      InvertKey(op, before, here);
    } else if op.ChangeType? || op.ChangeNullability? {
      InvertChange(op, before, here);
    } else if op.DropTable? || op.DropColumn? {
      InvertDrop(op, before, here);
    } else if op.AddColumn? {
      UndoAdd(op.table, op.field, here);
    } else if op.RenameColumn? {
      UndoRename(op.table, op.from, op.to, here);
    }
  }

  function Reverse(s: seq<Schema>): seq<Schema>
  {
    if s == [] then [] else Reverse(s[1..]) + [s[0]]
  }

  lemma {:induction false} TraceSnoc(ops: seq<Op>, last: Op, s: Schema)
    requires Run(ops, s).Some? && Apply(last, Run(ops, s).value).Some?
    ensures Run(ops + [last], s) == Apply(last, Run(ops, s).value)
    ensures Trace(ops + [last], s) == Trace(ops, s) + [Run(ops + [last], s).value]
  {
    var all := ops + [last];
    if ops == [] {
      assert all[1..] == [];
    } else {
      assert all[1..] == ops[1..] + [last];
      TraceSnoc(ops[1..], last, Apply(ops[0], s).value);
    }
  }

  /**
    The generated rollback retraces the run: the inverses exist, running them backwards from the
    end is safe at every step, and it visits exactly the forward run's schemas in reverse.
    */
  lemma {:induction false} RollbackRetraces(ops: seq<Op>, before: Snapshot, s: Schema)
    requires ValidSnapshot(before)
    requires Path(ops, SchemaOf(before.models), s) && Run(ops, s).Some?
    ensures RollbackOps(ops, before).Some?
    ensures var down, end := RollbackOps(ops, before).value, Run(ops, s).value;
            SafeRun(down, end) && Run(down, end) == Some(s) && Trace(down, end) == Reverse(Trace(ops, s))
  {
    if ops != [] {
      var next := Apply(ops[0], s).value;
      var t := TableOf(ops[0]);
      RollbackRetraces(ops[1..], before, next);
      InvertStep(ops[0], before, Get(s, t));
      var inverse, rest, end := Invert(ops[0], before).value, RollbackOps(ops[1..], before).value, Run(ops, s).value;
      UndoesApply(ops[0], inverse, s);
      TraceSnoc(rest, inverse, end);
      SafeRunConcat(rest, [inverse], end);
      assert Trace(ops, s)[1..] == Trace(ops[1..], next);
    }
  }

  lemma UndoesApply(op: Op, inverse: Op, s: Schema)
    requires Step(op, Get(s, TableOf(op))).Some? && TableOf(inverse) == TableOf(op)
    requires Safe(inverse, Step(op, Get(s, TableOf(op))).value)
    requires Step(inverse, Step(op, Get(s, TableOf(op))).value) == Some(Get(s, TableOf(op)))
    ensures Apply(inverse, Apply(op, s).value) == Some(s)
    ensures SafeRun([inverse], Apply(op, s).value)
  {
    var t, next := TableOf(op), Apply(op, s).value;
    GetPut(s, t, Step(op, Get(s, t)).value);
    GetPut(next, t, Get(s, t));
    forall u: string ensures Get(Apply(inverse, next).value, u) == Get(s, u) {
    }
    SchemaExtensional(Apply(inverse, next).value, s);
    assert [inverse][1..] == [];
  }

  /** Diff's own rollback, confirmed renames included, ends in before by the states it came through. */
  lemma DiffRollback(before: Snapshot, after: Snapshot, ren: Renaming)
    requires ValidSnapshot(before) && ValidSnapshot(after) && FitsAll(before, after, ren)
    ensures var up, b, a := RewriteAll(DiffOps(before, after), ren), SchemaOf(before.models), SchemaOf(after.models);
            && Run(up, b) == Some(a)
            && RollbackOps(up, before).Some?
            && SafeRun(RollbackOps(up, before).value, a)
            && Run(RollbackOps(up, before).value, a) == Some(b)
            && Trace(RollbackOps(up, before).value, a) == Reverse(Trace(up, b))
  {
    ResolvedCarries(before, after, ren);
    RollbackRetraces(RewriteAll(DiffOps(before, after), ren), before, SchemaOf(before.models));
  }
}
