/** Diff is sound and safely ordered, with or without confirmed renames. */
module DiffSoundness {
  import opened Wrappers
  import opened Text
  import opened Orm
  import opened Operations
  import opened Differ
  import opened Alterations

  lemma {:induction false} LookupClaims(models: seq<Registered>, t: string)
    ensures Lookup(models, t).Some? <==> Claims(models, t)
    ensures Lookup(models, t).Some? ==> Lookup(models, t).value.table == t && exists i :: 0 <= i < |models| && models[i].model == Lookup(models, t).value
  {
    if models != [] {
      var n := |models| - 1;
      var most := models[..n];
      LookupClaims(most, t);
      if Claims(models, t) && models[n].model.table != t {
        var i :| 0 <= i < |models| && models[i].model.table == t;
        assert most[i].model.table == t;
      }
      if Lookup(most, t).Some? {
        var i :| 0 <= i < |most| && most[i].model == Lookup(most, t).value;
        assert models[i].model == Lookup(most, t).value;
      }
    }
  }

  lemma LookupSchema(s: Snapshot, t: string)
    requires ValidSnapshot(s)
    ensures Lookup(s.models, t).Some? <==> t in SchemaOf(s.models)
    ensures Lookup(s.models, t).Some? ==>
              ValidModel(Lookup(s.models, t).value) && Lookup(s.models, t).value.table == t
              && SchemaOf(s.models)[t] == IndexFields(Lookup(s.models, t).value.fields)
  {
    SnapshotDistinct(s);
    SchemaOfExact(s.models);
    LookupClaims(s.models, t);
    if Lookup(s.models, t).Some? {
      var i :| 0 <= i < |s.models| && s.models[i].model == Lookup(s.models, t).value;
    }
  }

  lemma ValidSchema(s: Snapshot)
    requires ValidSnapshot(s)
    ensures SaneSchema(SchemaOf(s.models))
    ensures forall t :: t in SchemaOf(s.models) ==> ValidCols(SchemaOf(s.models)[t])
  {
    forall t: string ensures Sane(Get(SchemaOf(s.models), t)) && (t in SchemaOf(s.models) ==> ValidCols(SchemaOf(s.models)[t])) {
      LookupSchema(s, t);
      if Lookup(s.models, t).Some? {
        ValidModelCols(Lookup(s.models, t).value);
      }
    }
  }

  // ----------------------------------------------- Diff, one table at a time

  function CreateOf(now: Option<Model>, was: Option<Model>): seq<Op>
  {
    if now.Some? && was.None? then [CreateTable(now.value)] else []
  }

  function AlterOf(now: Option<Model>, was: Option<Model>): seq<Op>
  {
    if now.Some? && was.Some? then OpsOf(TableAlters(was.value, now.value)) else []
  }

  function DropOf(now: Option<Model>, was: Option<Model>, t: string): seq<Op>
  {
    if now.None? && was.Some? then [DropTable(t)] else []
  }

  lemma AltersOwnTable(was: Model, now: Model)
    requires ValidModel(was) && ValidModel(now)
    ensures forall i :: 0 <= i < |TableAlters(was, now)| ==> TableOf(TableAlters(was, now)[i].op) == now.table
  {
    TableAltersExact(was, now);
  }

  ghost predicate AllValid(models: seq<Registered>)
  {
    forall i :: 0 <= i < |models| ==> ValidModel(models[i].model)
  }

  lemma NotAgain(models: seq<Registered>)
    requires models != [] && DistinctTables(models)
    ensures Lookup(models[..|models| - 1], models[|models| - 1].model.table).None?
  {
    LookupClaims(models[..|models| - 1], models[|models| - 1].model.table);
  }

  lemma {:induction false} ProjCreates(now: seq<Registered>, was: seq<Registered>, t: string)
    requires DistinctTables(now)
    ensures Proj(CreateOps(now, was), t) == CreateOf(Lookup(now, t), Lookup(was, t))
  {
    if now != [] {
      var m := now[|now| - 1].model;
      NotAgain(now);
      ProjCreates(now[..|now| - 1], was, t);
      LookupClaims(now[..|now| - 1], t);
      ProjConcat(CreateOps(now[..|now| - 1], was), CreateOf(Some(m), Lookup(was, m.table)), t);
    }
  }

  lemma {:induction false} ProjAlters(now: seq<Registered>, was: seq<Registered>, t: string)
    requires DistinctTables(now) && AllValid(now) && AllValid(was)
    ensures Proj(AlterOps(now, was), t) == AlterOf(Lookup(now, t), Lookup(was, t))
  {
    if now != [] {
      var m, most := now[|now| - 1].model, now[..|now| - 1];
      NotAgain(now);
      ProjAlters(most, was, t);
      LookupClaims(was, m.table);
      var own := AlterOf(Some(m), Lookup(was, m.table));
      if Lookup(was, m.table).Some? {
        AltersOwnTable(Lookup(was, m.table).value, m);
        if m.table == t {
          ProjAll(own, t);
        } else {
          ProjNone(own, t);
        }
      }
      ProjConcat(AlterOps(most, was), own, t);
    }
  }

  lemma {:induction false} ProjDrops(was: seq<Registered>, now: seq<Registered>, t: string)
    requires DistinctTables(was)
    ensures Proj(DropOps(was, now), t) == DropOf(Lookup(now, t), Lookup(was, t), t)
  {
    if was != [] {
      var u, most := was[|was| - 1].model.table, was[..|was| - 1];
      NotAgain(was);
      ProjDrops(most, now, t);
      ProjConcat(DropOps(most, now), DropOf(Lookup(now, u), Some(was[|was| - 1].model), u), t);
    }
  }

  lemma ProjDiff(before: Snapshot, after: Snapshot, t: string)
    requires ValidSnapshot(before) && ValidSnapshot(after)
    ensures var now, was := Lookup(after.models, t), Lookup(before.models, t);
            Proj(DiffOps(before, after), t) == CreateOf(now, was) + AlterOf(now, was) + DropOf(now, was, t)
  {
    SnapshotDistinct(before);
    SnapshotDistinct(after);
    ProjCreates(after.models, before.models, t);
    ProjAlters(after.models, before.models, t);
    ProjDrops(before.models, after.models, t);
    var creates, alters := CreateOps(after.models, before.models), AlterOps(after.models, before.models);
    ProjConcat(creates + alters, DropOps(before.models, after.models), t);
    ProjConcat(creates, alters, t);
  }

  // ------------------------------------------------------------ main results

  /** Renames only pair columns of tables that survive, each pair as Fits asks. */
  ghost predicate FitsTable(before: Snapshot, after: Snapshot, ren: Renaming, t: string)
  {
    var now, was := Lookup(after.models, t), Lookup(before.models, t);
    if now.Some? && was.Some? then Fits(t, IndexFields(was.value.fields), IndexFields(now.value.fields), ren)
    else forall c: string :: ColRef(t, c) !in ren.to && ColRef(t, c) !in ren.from
  }

  ghost predicate FitsAll(before: Snapshot, after: Snapshot, ren: Renaming)
  {
    forall t: string :: FitsTable(before, after, ren, t)
  }

  lemma NoRenamesFit(before: Snapshot, after: Snapshot)
    ensures FitsAll(before, after, NO_RENAMES)
  {
  }

  lemma CarriedByTable(before: Snapshot, after: Snapshot, ren: Renaming, t: string)
    requires ValidSnapshot(before) && ValidSnapshot(after) && FitsTable(before, after, ren, t)
    ensures var ops := Proj(RewriteAll(DiffOps(before, after), ren), t);
            var b, a := Get(SchemaOf(before.models), t), Get(SchemaOf(after.models), t);
            TablePath(ops, b, b) && TableEnd(ops, b) == Some(a)
  {
    var now, was := Lookup(after.models, t), Lookup(before.models, t);
    ProjRewrite(DiffOps(before, after), ren, t);
    ProjDiff(before, after, t);
    LookupSchema(before, t);
    LookupSchema(after, t);
    if now.Some? && was.Some? {
      TableCarried(was.value, now.value, ren);
      assert CreateOf(now, was) + AlterOf(now, was) + DropOf(now, was, t) == OpsOf(TableAlters(was.value, now.value));
    } else {
      ValidSchema(before);
      ValidSchema(after);
      WholeTable(now, was, t, Get(SchemaOf(before.models), t), Get(SchemaOf(after.models), t), ren);
    }
  }

  lemma WholeTable(now: Option<Model>, was: Option<Model>, t: string, b: TableState, a: TableState, ren: Renaming)
    requires now.None? || was.None?
    requires Sane(b) && Sane(a)
    requires now.Some? ==> ValidModel(now.value) && now.value.table == t
    requires a == if now.Some? then Present(IndexFields(now.value.fields)) else Absent
    requires b == if was.Some? then Present(IndexFields(was.value.fields)) else Absent
    ensures var ops := RewriteAll(CreateOf(now, was) + AlterOf(now, was) + DropOf(now, was, t), ren);
            TablePath(ops, b, b) && TableEnd(ops, b) == Some(a)
  {
    if now.Some? {
      OneStep(CreateTable(now.value), b, a, ren);
      assert CreateOf(now, was) + AlterOf(now, was) + DropOf(now, was, t) == [CreateTable(now.value)];
    } else if was.Some? {
      OneStep(DropTable(t), b, a, ren);
      assert CreateOf(now, was) + AlterOf(now, was) + DropOf(now, was, t) == [DropTable(t)];
    }
  }

  lemma OneStep(op: Op, b: TableState, a: TableState, ren: Renaming)
    requires Rewrite(op, ren) == [op]
    requires Safe(op, b) && Recorded(op, b, b) && Step(op, b) == Some(a)
    ensures RewriteAll([op], ren) == [op]
    ensures TablePath([op], b, b) && TableEnd([op], b) == Some(a)
  {
    var ops := [op];
    assert ops[1..] == [];
    assert RewriteAll(ops, ren) == Rewrite(op, ren) + RewriteAll(ops[1..], ren);
    assert TablePath(ops[1..], b, a);
  }

  /**
    Diff is sound and safely ordered, renames included: the list runs from before to after, and at
    every position the operation is legal, between sane schemas, and overwrites only what before records.
    */
  lemma ResolvedCarries(before: Snapshot, after: Snapshot, ren: Renaming)
    requires ValidSnapshot(before) && ValidSnapshot(after) && FitsAll(before, after, ren)
    ensures var b := SchemaOf(before.models);
            Path(RewriteAll(DiffOps(before, after), ren), b, b)
    ensures Run(RewriteAll(DiffOps(before, after), ren), SchemaOf(before.models)) == Some(SchemaOf(after.models))
  {
    forall t: string
      ensures TablePath(Proj(RewriteAll(DiffOps(before, after), ren), t), Get(SchemaOf(before.models), t), Get(SchemaOf(before.models), t))
      ensures TableEnd(Proj(RewriteAll(DiffOps(before, after), ren), t), Get(SchemaOf(before.models), t)) == Some(Get(SchemaOf(after.models), t))
    {
      assert FitsTable(before, after, ren, t);
      CarriedByTable(before, after, ren, t);
    }
    PathByTable(RewriteAll(DiffOps(before, after), ren), SchemaOf(before.models), SchemaOf(before.models), SchemaOf(after.models));
  }

  /** Diff from before reaches after, and every schema on the way is sane. */
  lemma DiffCarries(before: Snapshot, after: Snapshot)
    requires ValidSnapshot(before) && ValidSnapshot(after)
    ensures Run(DiffOps(before, after), SchemaOf(before.models)) == Some(SchemaOf(after.models))
    ensures SafeRun(DiffOps(before, after), SchemaOf(before.models))
    ensures forall i :: 0 <= i < |Trace(DiffOps(before, after), SchemaOf(before.models))| ==>
              SaneSchema(Trace(DiffOps(before, after), SchemaOf(before.models))[i])
  {
    var ops, b := DiffOps(before, after), SchemaOf(before.models);
    NoRenamesFit(before, after);
    ResolvedCarries(before, after, NO_RENAMES);
    RewriteNothing(ops);
    PathIsSafe(ops, b, b);
    ValidSchema(before);
    SafeRunStaysSane(ops, b);
  }

  lemma NoTableNoOps(ops: seq<Op>)
    requires forall t: string :: Proj(ops, t) == []
    ensures ops == []
  {
    assert ops == [] || Proj(ops, TableOf(ops[0])) == [];
  }

  /** Nothing to do exactly when the schemas agree, whatever the owners and column orders. */
  lemma DiffEmptyIff(before: Snapshot, after: Snapshot)
    requires ValidSnapshot(before) && ValidSnapshot(after)
    ensures DiffOps(before, after) == [] <==> SchemaOf(before.models) == SchemaOf(after.models)
  {
    DiffCarries(before, after);
    if SchemaOf(before.models) == SchemaOf(after.models) {
      var ops := DiffOps(before, after);
      forall t: string ensures Proj(ops, t) == [] {
        SettledHasNoPart(before, after, t);
      }
      NoTableNoOps(ops);
    }
  }

  // ------------------------------------------- what the list depends on

  /** Two tables with the same columns need the same alterations, in the same order. */
  lemma AltersDependOnColumns(was: Model, other: Model, now: Model)
    requires ValidModel(was) && ValidModel(other) && ValidModel(now) && IndexFields(was.fields) == IndexFields(other.fields)
    ensures TableAlters(was, now) == TableAlters(other, now)
  {
    var t, b, a := now.table, IndexFields(was.fields), IndexFields(now.fields);
    TableAltersExact(was, now);
    TableAltersExact(other, now);
    forall e ensures e in TableAlters(was, now) <==> e in TableAlters(other, now) {
      ExactMember(TableAlters(was, now), t, b, a, e);
      ExactMember(TableAlters(other, now), t, b, a, e);
    }
    AscendingUnique(KeyOf, TableAlters(was, now), TableAlters(other, now));
  }

  lemma ExactMember(alters: seq<Ranked>, t: string, b: Cols, a: Cols, e: Ranked)
    requires Exact(alters, t, b, a)
    ensures e in alters <==> Needed(b, a, KeyOf(e)) && e.op == OpAt(t, b, a, KeyOf(e))
  {
    if Needed(b, a, KeyOf(e)) {
      var i :| 0 <= i < |alters| && KeyOf(alters[i]) == KeyOf(e);
      assert alters[i] in alters;
    }
  }

  lemma NothingNeeded(was: Model, now: Model)
    requires ValidModel(was) && ValidModel(now) && IndexFields(was.fields) == IndexFields(now.fields)
    ensures TableAlters(was, now) == []
  {
    TableAltersExact(was, now);
    forall k: Key ensures !Needed(IndexFields(was.fields), IndexFields(now.fields), k) {
    }
    var alters := TableAlters(was, now);
    assert alters != [] ==> Needed(IndexFields(was.fields), IndexFields(now.fields), KeyOf(alters[0]));
  }

  /** One table's part of the list depends only on what that table was. */
  lemma PartDependsOnTable(before: Snapshot, other: Snapshot, after: Snapshot, t: string)
    requires ValidSnapshot(before) && ValidSnapshot(other) && ValidSnapshot(after)
    requires Get(SchemaOf(before.models), t) == Get(SchemaOf(other.models), t)
    ensures Proj(DiffOps(before, after), t) == Proj(DiffOps(other, after), t)
  {
    LookupSchema(before, t);
    LookupSchema(other, t);
    LookupSchema(after, t);
    ProjDiff(before, after, t);
    ProjDiff(other, after, t);
    var now, was, also := Lookup(after.models, t), Lookup(before.models, t), Lookup(other.models, t);
    if now.Some? && was.Some? {
      AltersDependOnColumns(was.value, also.value, now.value);
    }
  }

  /** A table that is as declared has no part in the list. */
  lemma SettledHasNoPart(before: Snapshot, after: Snapshot, t: string)
    requires ValidSnapshot(before) && ValidSnapshot(after)
    requires Get(SchemaOf(before.models), t) == Get(SchemaOf(after.models), t)
    ensures Proj(DiffOps(before, after), t) == []
  {
    LookupSchema(before, t);
    LookupSchema(after, t);
    ProjDiff(before, after, t);
    var now, was := Lookup(after.models, t), Lookup(before.models, t);
    if now.Some? {
      NothingNeeded(was.value, now.value);
    }
  }
}
