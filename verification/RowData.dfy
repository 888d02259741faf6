/** What a surviving table's alterations do to the rows already in it. */
module RowData {
  import opened Wrappers
  import opened Text
  import opened Orm
  import opened Operations
  import opened Differ
  import opened Alterations
  import opened DiffSoundness
  import opened Rollback
  import opened Renames

  /** One stored row under one operation: a new column starts blank, a rename moves its value. */
  function StepRow<V>(op: Op, row: map<string, V>, blank: V): map<string, V>
  {
    match op
    case AddColumn(_, f) => row[f.name := blank]
    case DropColumn(_, c) => row - {c}
    case RenameColumn(_, from, to) => if from in row then (row - {from})[to := row[from]] else row
    case _ => row
  }

  function RunRow<V>(ops: seq<Op>, row: map<string, V>, blank: V): map<string, V>
  {
    if ops == [] then row else RunRow(ops[1..], StepRow(ops[0], row, blank), blank)
  }

  /** The value column c of the new table should hold: its own, its old name's, or none. */
  function Origin<V>(t: string, ren: Renaming, row: map<string, V>, blank: V, c: string): V
  {
    if c in row then row[c]
    else if ColRef(t, c) in ren.from && ren.from[ColRef(t, c)] in row then row[ren.from[ColRef(t, c)]]
    else blank
  }

  ghost function RowAt<V>(cols: Cols, t: string, ren: Renaming, row: map<string, V>, blank: V): map<string, V>
  {
    map c | c in cols :: Origin(t, ren, row, blank, c)
  }

  /** Additions are of columns with no past, renames carry one past to its new name. */
  ghost predicate Traced(op: Op, t: string, b: Cols, ren: Renaming)
  {
    match op
    case CreateTable(_) => false
    case DropTable(_) => false
    case AddColumn(_, f) => f.name !in b && ColRef(t, f.name) !in ren.from
    case RenameColumn(_, from, to) => from in b && to !in b && ColRef(t, to) in ren.from && ren.from[ColRef(t, to)] == from
    case _ => true
  }

  lemma {:induction false} RowsFollow<V>(ops: seq<Op>, t: string, b: Cols, here: Cols, there: Cols, ren: Renaming, row: map<string, V>, blank: V)
    requires row.Keys == b.Keys
    requires forall op :: op in ops ==> Traced(op, t, b, ren)
    requires TableEnd(ops, Present(here)) == Some(Present(there))
    ensures RunRow(ops, RowAt(here, t, ren, row, blank), blank) == RowAt(there, t, ren, row, blank)
  {
    if ops != [] {
      assert ops[0] in ops;
      var next := Step(ops[0], Present(here)).value.cols;
      RowFollows(ops[0], t, b, here, next, ren, row, blank);
      RowsFollow(ops[1..], t, b, next, there, ren, row, blank);
    }
  }

  lemma RowFollows<V>(op: Op, t: string, b: Cols, here: Cols, next: Cols, ren: Renaming, row: map<string, V>, blank: V)
    requires row.Keys == b.Keys && Traced(op, t, b, ren)
    requires Step(op, Present(here)) == Some(Present(next))
    ensures StepRow(op, RowAt(here, t, ren, row, blank), blank) == RowAt(next, t, ren, row, blank)
  {
    if op.AddColumn? {
      assert next.Keys == here.Keys + {op.field.name};
    } else if op.DropColumn? {
      assert next.Keys == here.Keys - {op.column};
    } else if op.RenameColumn? {
      assert next.Keys == here.Keys - {op.from} + {op.to};
    } else {
      assert op.column in here && next.Keys == here.Keys;
    }
  }

  lemma {:induction false} RewrittenTraced(ops: seq<Op>, t: string, b: Cols, a: Cols, ren: Renaming)
    requires Fits(t, b, a, ren)
    requires forall op :: op in ops ==> Alters(op, t, b)
    ensures forall op :: op in RewriteAll(ops, ren) ==> Traced(op, t, b, ren)
  {
    if ops != [] {
      assert ops[0] in ops;
      RewrittenTraced(ops[1..], t, b, a, ren);
    }
  }

  ghost predicate Alters(op: Op, t: string, b: Cols)
  {
    && TableOf(op) == t && !op.CreateTable? && !op.DropTable? && !op.RenameColumn?
    && (op.AddColumn? ==> op.field.name !in b)
  }

  lemma ListAlters(was: Model, now: Model)
    requires ValidModel(was) && ValidModel(now)
    ensures forall op :: op in OpsOf(TableAlters(was, now)) ==> Alters(op, now.table, IndexFields(was.fields))
  {
    var alters := TableAlters(was, now);
    TableAltersExact(was, now);
    ValidModelCols(now);
    forall op | op in OpsOf(alters) ensures Alters(op, now.table, IndexFields(was.fields)) {
      var i :| 0 <= i < |alters| && alters[i].op == op;
      assert op == OpAt(now.table, IndexFields(was.fields), IndexFields(now.fields), KeyOf(alters[i]));
    }
  }

  lemma RowAtStart<V>(b: Cols, t: string, ren: Renaming, row: map<string, V>, blank: V)
    requires row.Keys == b.Keys
    ensures RowAt(b, t, ren, row, blank) == row
  {
  }

  /**
    Running the resolved alterations of a surviving table keeps every row's values: a column that
    stays keeps its own, a confirmed rename carries the old column's, and only new columns start blank.
    */
  lemma RowsKept<V>(was: Model, now: Model, ren: Renaming, row: map<string, V>, blank: V)
    requires ValidModel(was) && ValidModel(now)
    requires Fits(now.table, IndexFields(was.fields), IndexFields(now.fields), ren)
    requires row.Keys == IndexFields(was.fields).Keys
    ensures RunRow(RewriteAll(OpsOf(TableAlters(was, now)), ren), row, blank)
            == RowAt(IndexFields(now.fields), now.table, ren, row, blank)
  {
    var t, b, a := now.table, IndexFields(was.fields), IndexFields(now.fields);
    var alters := TableAlters(was, now);
    TableCarried(was, now, ren);
    ListAlters(was, now);
    RewrittenTraced(OpsOf(alters), t, b, a, ren);
    RowsFollow(RewriteAll(OpsOf(alters), ren), t, b, b, a, ren, row, blank);
    RowAtStart(b, t, ren, row, blank);
  }

  /**
    Exactly the columns dropped without a confirmed rename lose their data: tagging each old column's
    value with its name, the tag c is somewhere in the new row iff c stays or was renamed.
    */
  lemma DataLostExactly(was: Model, now: Model, ren: Renaming, c: string)
    requires ValidModel(was) && ValidModel(now)
    requires Fits(now.table, IndexFields(was.fields), IndexFields(now.fields), ren)
    requires c in IndexFields(was.fields)
    ensures var row := map d | d in IndexFields(was.fields) :: Some(d);
            var final := RunRow(RewriteAll(OpsOf(TableAlters(was, now)), ren), row, None);
            (exists d :: d in final && final[d] == Some(c)) <==> c in IndexFields(now.fields) || ColRef(now.table, c) in ren.to
  {
    var t, b, a := now.table, IndexFields(was.fields), IndexFields(now.fields);
    var row: map<string, Option<string>> := map d | d in b :: Some(d);
    RowsKept(was, now, ren, row, None);
    var final := RowAt(a, t, ren, row, None);
    if c in a {
      assert final[c] == Some(c);
    } else if ColRef(t, c) in ren.to {
      var d := ren.to[ColRef(t, c)];
      assert d in final && final[d] == Some(c);
    }
    forall d | d in final && final[d] == Some(c) ensures c in a || ColRef(t, c) in ren.to {
      assert d in b ==> d == c;
      assert d !in b ==> ColRef(t, d) in ren.from && ren.from[ColRef(t, d)] == c;
    }
  }

  // ------------------------------------------------- for any stream of answers

  /** A surviving table's part of the resolved list: its alterations, with the confirmed pairs as renames. */
  lemma ResolvedPart(before: Snapshot, after: Snapshot, lines: seq<Line>, interactive: bool, chosen: seq<Candidate>, was: Model, now: Model, t: string)
    requires ValidSnapshot(before) && ValidSnapshot(after)
    requires Resolution(DiffOps(before, after), before, after, lines, interactive) == Ok(chosen)
    requires Lookup(before.models, t) == Some(was) && Lookup(after.models, t) == Some(now)
    ensures Proj(Merge(DiffOps(before, after), chosen, 0), t) == RewriteAll(OpsOf(TableAlters(was, now)), RenamingOf(chosen))
    ensures ValidModel(was) && ValidModel(now) && now.table == t && was.table == t
    ensures Fits(t, IndexFields(was.fields), IndexFields(now.fields), RenamingOf(chosen))
  {
    ResolvedListCarries(before, after, lines, interactive);
    assert FitsTable(before, after, RenamingOf(chosen), t);
    ProjRewrite(DiffOps(before, after), RenamingOf(chosen), t);
    ProjDiff(before, after, t);
    LookupSchema(before, t);
    LookupSchema(after, t);
    NothingAround(OpsOf(TableAlters(was, now)));
  }

  /** Some confirmed pair renames this column of this table. */
  predicate Renamed(chosen: seq<Candidate>, t: string, c: string)
  {
    exists r :: r in chosen && r.table == t && r.from == c
  }

  lemma RenamedIff(before: Snapshot, after: Snapshot, lines: seq<Line>, interactive: bool, chosen: seq<Candidate>, t: string, c: string)
    requires ValidSnapshot(before) && ValidSnapshot(after)
    requires Resolution(DiffOps(before, after), before, after, lines, interactive) == Ok(chosen)
    ensures ColRef(t, c) in RenamingOf(chosen).to <==> Renamed(chosen, t, c)
  {
    ResolvedListCarries(before, after, lines, interactive);
    DiffColumnOpsOnce(before, after);
    DistinctPlaces(DiffOps(before, after), chosen);
    if ColRef(t, c) in RenamingOf(chosen).to {
      var r := ToMapOnly(chosen, ColRef(t, c));
    }
    if Renamed(chosen, t, c) {
      var r :| r in chosen && r.table == t && r.from == c;
      ToMapHolds(chosen, r);
    }
  }

  /** For every stream of answers, a row of a surviving table ends as declared, each value where its column went. */
  lemma ResolvedRowsKept<V>(before: Snapshot, after: Snapshot, lines: seq<Line>, interactive: bool, chosen: seq<Candidate>, was: Model, now: Model, t: string,
                            row: map<string, V>, blank: V)
    requires ValidSnapshot(before) && ValidSnapshot(after)
    requires Resolution(DiffOps(before, after), before, after, lines, interactive) == Ok(chosen)
    requires Lookup(before.models, t) == Some(was) && Lookup(after.models, t) == Some(now)
    requires row.Keys == IndexFields(was.fields).Keys
    ensures RunRow(Proj(Merge(DiffOps(before, after), chosen, 0), t), row, blank) == RowAt(IndexFields(now.fields), t, RenamingOf(chosen), row, blank)
  {
    ResolvedPart(before, after, lines, interactive, chosen, was, now, t);
    RowsKept(was, now, RenamingOf(chosen), row, blank);
  }

  /** For every stream of answers, the resolved list destroys exactly the columns dropped and not confirmed as renamed. */
  lemma ResolvedDataLostExactly(before: Snapshot, after: Snapshot, lines: seq<Line>, interactive: bool, chosen: seq<Candidate>, was: Model, now: Model, t: string, c: string)
    requires ValidSnapshot(before) && ValidSnapshot(after)
    requires Resolution(DiffOps(before, after), before, after, lines, interactive) == Ok(chosen)
    requires Lookup(before.models, t) == Some(was) && Lookup(after.models, t) == Some(now)
    requires c in IndexFields(was.fields)
    ensures var row := map d | d in IndexFields(was.fields) :: Some(d);
            var final := RunRow(Proj(Merge(DiffOps(before, after), chosen, 0), t), row, None);
            (exists d :: d in final && final[d] == Some(c)) <==> c in IndexFields(now.fields) || Renamed(chosen, t, c)
  {
    ResolvedPart(before, after, lines, interactive, chosen, was, now, t);
    RenamedIff(before, after, lines, interactive, chosen, t, c);
    DataLostExactly(was, now, RenamingOf(chosen), c);
  }
}
