/** Diff in migratediff/migratediff.go: two snapshots to an ordered operation list. */
module Differ {
  import opened Wrappers
  import opened Text
  import opened Orm
  import opened Operations

  /** One alteration with the sort key that places it. */
  datatype Ranked = Ranked(column: string, rank: nat, op: Op)

  function KeyOf(r: Ranked): Key
  {
    Key(r.rank, r.column)
  }

  function OpsOf(alters: seq<Ranked>): seq<Op>
  {
    seq(|alters|, i requires 0 <= i < |alters| => alters[i].op)
  }

  /** A guarded `add` of Diff: the alteration, and whether it is called for. */
  datatype Guarded = Guarded(called: bool, r: Ranked)

  function Called(guards: seq<Guarded>): seq<Ranked>
  {
    if guards == [] then []
    else (if guards[0].called then [guards[0].r] else []) + Called(guards[1..])
  }

  /** The alterations one declared field calls for, in the order Diff appends them. */
  function FieldAlters(t: string, was: Cols, f: Field): seq<Ranked>
  {
    if f.name !in was then [Ranked(f.name, 6, AddColumn(t, f))] else Called(Guards(t, was[f.name], f))
  }

  function Guards(t: string, prev: Field, f: Field): seq<Guarded>
  {
    [ Guarded(prev.index && !f.index, Ranked(f.name, 0, DropIndex(t, f.name))),
      Guarded(prev.unique && !f.unique, Ranked(f.name, 1, DropUnique(t, f.name))),
      Guarded(prev.primaryKey && !f.primaryKey, Ranked(f.name, 2, DropPrimaryKey(t, f.name))),
      Guarded(prev.typ != f.typ || prev.maxLen != f.maxLen, Ranked(f.name, 4, ChangeType(t, f.name, f))),
      Guarded(prev.nullable != f.nullable, Ranked(f.name, 5, ChangeNullability(t, f.name, f.nullable))),
      Guarded(!prev.primaryKey && f.primaryKey, Ranked(f.name, 7, AddPrimaryKey(t, f.name))),
      Guarded(!prev.unique && f.unique, Ranked(f.name, 8, AddUnique(t, f.name))),
      Guarded(!prev.index && f.index, Ranked(f.name, 9, AddIndex(t, f.name))) ]
  }

  function DeclaredAlters(t: string, was: Cols, fields: seq<Field>): seq<Ranked>
  {
    if fields == [] then []
    else DeclaredAlters(t, was, fields[..|fields| - 1]) + FieldAlters(t, was, fields[|fields| - 1])
  }

  function DroppedAlters(t: string, fields: seq<Field>, now: Cols): seq<Ranked>
  {
    if fields == [] then []
    else
      var f := fields[|fields| - 1];
      DroppedAlters(t, fields[..|fields| - 1], now)
      + if f.name !in now then [Ranked(f.name, 3, DropColumn(t, f.name))] else []
  }

  /** One surviving table's alterations, sorted by rank and then column. */
  function TableAlters(was: Model, now: Model): seq<Ranked>
  {
    Sort(KeyOf, DeclaredAlters(now.table, IndexFields(was.fields), now.fields)
                + DroppedAlters(now.table, was.fields, IndexFields(now.fields)))
  }

  function Lookup(models: seq<Registered>, t: string): Option<Model>
  {
    if models == [] then None
    else if models[|models| - 1].model.table == t then Some(models[|models| - 1].model)
    else Lookup(models[..|models| - 1], t)
  }

  function CreateOps(now: seq<Registered>, was: seq<Registered>): seq<Op>
  {
    if now == [] then []
    else
      var m := now[|now| - 1].model;
      CreateOps(now[..|now| - 1], was) + if Lookup(was, m.table).None? then [CreateTable(m)] else []
  }

  function AlterOps(now: seq<Registered>, was: seq<Registered>): seq<Op>
  {
    if now == [] then []
    else
      var m := now[|now| - 1].model;
      var prior := Lookup(was, m.table);
      AlterOps(now[..|now| - 1], was) + if prior.None? then [] else OpsOf(TableAlters(prior.value, m))
  }

  function DropOps(was: seq<Registered>, now: seq<Registered>): seq<Op>
  {
    if was == [] then []
    else
      var t := was[|was| - 1].model.table;
      DropOps(was[..|was| - 1], now) + if Lookup(now, t).None? then [DropTable(t)] else []
  }

  /** Diff as one expression: creates, then alterations, then whole-table drops. */
  function DiffOps(before: Snapshot, after: Snapshot): seq<Op>
  {
    CreateOps(after.models, before.models) + AlterOps(after.models, before.models)
    + DropOps(before.models, after.models)
  }

  ghost predicate Indexes(byTable: map<string, Model>, models: seq<Registered>)
  {
    forall t: string :: Lookup(models, t) == if t in byTable then Some(byTable[t]) else None
  }

  /** index in migratediff.go. */
  method IndexModels(models: seq<Registered>) returns (out: map<string, Model>)
    ensures Indexes(out, models)
  {
    out := map[];
    for i := 0 to |models|
      invariant Indexes(out, models[..i])
    {
      out := out[models[i].model.table := models[i].model];
      assert models[..i + 1][..i] == models[..i];
    }
    assert models[..|models|] == models;
  }

  method IndexFieldsOf(fields: seq<Field>) returns (out: Cols)
    ensures out == IndexFields(fields)
  {
    out := map[];
    for i := 0 to |fields|
      invariant out == IndexFields(fields[..i])
    {
      out := out[fields[i].name := fields[i]];
      assert fields[..i + 1][..i] == fields[..i];
    }
    assert fields[..|fields|] == fields;
  }

  method DeclaredOf(now: Model, beforeFields: map<string, Field>) returns (alters: seq<Ranked>)
    ensures alters == DeclaredAlters(now.table, beforeFields, now.fields)
  {
    alters := [];
    for i := 0 to |now.fields|
      invariant alters == DeclaredAlters(now.table, beforeFields, now.fields[..i])
    {
      alters := alters + FieldAlters(now.table, beforeFields, now.fields[i]);
      assert now.fields[..i + 1][..i] == now.fields[..i];
    }
    assert now.fields[..|now.fields|] == now.fields;
  }

  method DroppedOf(table: string, fields: seq<Field>, afterFields: map<string, Field>) returns (alters: seq<Ranked>)
    ensures alters == DroppedAlters(table, fields, afterFields)
  {
    alters := [];
    for i := 0 to |fields|
      invariant alters == DroppedAlters(table, fields[..i], afterFields)
    {
      if fields[i].name !in afterFields {
        alters := alters + [Ranked(fields[i].name, 3, DropColumn(table, fields[i].name))];
      }
      assert fields[..i + 1][..i] == fields[..i];
    }
    assert fields[..|fields|] == fields;
  }

  method AlterTable(was: Model, now: Model) returns (ops: seq<Op>)
    ensures ops == OpsOf(TableAlters(was, now))
  {
    var beforeFields := IndexFieldsOf(was.fields);
    var afterFields := IndexFieldsOf(now.fields);
    var alters := DeclaredOf(now, beforeFields);
    var dropped := DroppedOf(now.table, was.fields, afterFields);
    alters := Sort(KeyOf, alters + dropped);
    ops := [];
    for i := 0 to |alters|
      invariant ops == OpsOf(alters)[..i]
    {
      ops := ops + [alters[i].op];
    }
  }

  /** Diff's first loop: new tables, in table order. */
  method CreateNew(now: seq<Registered>, beforeByTable: map<string, Model>, ghost was: seq<Registered>)
    returns (ops: seq<Op>)
    requires Indexes(beforeByTable, was)
    ensures ops == CreateOps(now, was)
  {
    ops := [];
    for i := 0 to |now|
      invariant ops == CreateOps(now[..i], was)
    {
      var m := now[i].model;
      assert Lookup(was, m.table).None? <==> m.table !in beforeByTable;
      if m.table !in beforeByTable {
        ops := ops + [CreateTable(m)];
      }
      assert now[..i + 1][..i] == now[..i];
    }
    assert now[..|now|] == now;
  }

  /** Its second: alterations of surviving tables. */
  method AlterSurvivors(now: seq<Registered>, beforeByTable: map<string, Model>, ghost was: seq<Registered>)
    returns (ops: seq<Op>)
    requires Indexes(beforeByTable, was)
    ensures ops == AlterOps(now, was)
  {
    ops := [];
    for i := 0 to |now|
      invariant ops == AlterOps(now[..i], was)
    {
      var m := now[i].model;
      assert Lookup(was, m.table) == if m.table in beforeByTable then Some(beforeByTable[m.table]) else None;
      if m.table in beforeByTable {
        var more := AlterTable(beforeByTable[m.table], m);
        ops := ops + more;
      }
      assert now[..i + 1][..i] == now[..i];
    }
    assert now[..|now|] == now;
  }

  /** Its third: whole-table drops, last. */
  method DropGone(was: seq<Registered>, afterByTable: map<string, Model>, ghost now: seq<Registered>)
    returns (ops: seq<Op>)
    requires Indexes(afterByTable, now)
    ensures ops == DropOps(was, now)
  {
    ops := [];
    for i := 0 to |was|
      invariant ops == DropOps(was[..i], now)
    {
      var t := was[i].model.table;
      assert Lookup(now, t).None? <==> t !in afterByTable;
      if t !in afterByTable {
        ops := ops + [DropTable(t)];
      }
      assert was[..i + 1][..i] == was[..i];
    }
    assert was[..|was|] == was;
  }

  /** Diff itself. */
  method Diff(before: Snapshot, after: Snapshot) returns (ops: seq<Op>)
    ensures ops == DiffOps(before, after)
  {
    var beforeByTable := IndexModels(before.models);
    var afterByTable := IndexModels(after.models);
    var creates := CreateNew(after.models, beforeByTable, before.models);
    var alterations := AlterSurvivors(after.models, beforeByTable, before.models);
    var drops := DropGone(before.models, afterByTable, after.models);
    ops := creates + alterations + drops;
  }

  // ------------------------------------------- what the alteration list contains

  /** The differ's decision, stated on columns: is this (rank, column) alteration called for? */
  predicate Needed(b: Cols, a: Cols, k: Key)
  {
    var c := k.name;
    match k.rank
    case 0 => c in b && c in a && b[c].index && !a[c].index
    case 1 => c in b && c in a && b[c].unique && !a[c].unique
    case 2 => c in b && c in a && b[c].primaryKey && !a[c].primaryKey
    case 3 => c in b && c !in a
    case 4 => c in b && c in a && (b[c].typ != a[c].typ || b[c].maxLen != a[c].maxLen)
    case 5 => c in b && c in a && b[c].nullable != a[c].nullable
    case 6 => c !in b && c in a
    case 7 => c in b && c in a && !b[c].primaryKey && a[c].primaryKey
    case 8 => c in b && c in a && !b[c].unique && a[c].unique
    case 9 => c in b && c in a && !b[c].index && a[c].index
    case _ => false
  }

  function OpAt(t: string, b: Cols, a: Cols, k: Key): Op
    requires Needed(b, a, k)
  {
    var c := k.name;
    match k.rank
    case 0 => DropIndex(t, c)
    case 1 => DropUnique(t, c)
    case 2 => DropPrimaryKey(t, c)
    case 3 => DropColumn(t, c)
    case 4 => ChangeType(t, c, a[c])
    case 5 => ChangeNullability(t, c, a[c].nullable)
    case 6 => AddColumn(t, a[c])
    case 7 => AddPrimaryKey(t, c)
    case 8 => AddUnique(t, c)
    case _ => AddIndex(t, c)
  }

  /** Exactly the needed alterations, each once. */
  ghost predicate Exact(alters: seq<Ranked>, t: string, b: Cols, a: Cols)
  {
    && (forall i :: 0 <= i < |alters| ==> Needed(b, a, KeyOf(alters[i])) && alters[i].op == OpAt(t, b, a, KeyOf(alters[i])))
    && (forall k: Key :: Needed(b, a, k) ==> exists i :: 0 <= i < |alters| && KeyOf(alters[i]) == k)
  }

  ghost predicate Sound(alters: seq<Ranked>, t: string, b: Cols, a: Cols)
  {
    forall i :: 0 <= i < |alters| ==> Needed(b, a, KeyOf(alters[i])) && alters[i].op == OpAt(t, b, a, KeyOf(alters[i]))
  }

  lemma {:induction false} CalledFrom(guards: seq<Guarded>, x: Ranked)
    requires x in Called(guards)
    ensures exists i :: 0 <= i < |guards| && guards[i].called && guards[i].r == x
  {
    if guards[0].called && guards[0].r == x {
    } else {
      CalledFrom(guards[1..], x);
      var i :| 0 <= i < |guards[1..]| && guards[1..][i].called && guards[1..][i].r == x;
      assert guards[i + 1].r == x;
    }
  }

  lemma {:induction false} CalledExact(guards: seq<Guarded>, t: string, b: Cols, a: Cols, c: string)
    requires forall i :: 0 <= i < |guards| ==> guards[i].r.column == c && guards[i].r.rank != 3
    requires forall i :: 0 <= i < |guards| && guards[i].called ==>
               Needed(b, a, KeyOf(guards[i].r)) && guards[i].r.op == OpAt(t, b, a, KeyOf(guards[i].r))
    requires forall i, j :: 0 <= i < j < |guards| ==> guards[i].r.rank < guards[j].r.rank
    ensures Sound(Called(guards), t, b, a) && DistinctKeys(KeyOf, Called(guards))
    ensures forall x :: x in Called(guards) ==> x.column == c && x.rank != 3
  {
    if guards != [] {
      var rest := guards[1..];
      CalledExact(rest, t, b, a, c);
      forall i | 0 <= i < |Called(rest)| ensures Called(rest)[i].rank > guards[0].r.rank {
        CalledFrom(rest, Called(rest)[i]);
        var j :| 0 <= j < |rest| && rest[j].r == Called(rest)[i];
        assert guards[j + 1].r == Called(rest)[i];
      }
    }
  }

  lemma FieldAltersSound(t: string, b: Cols, a: Cols, f: Field)
    requires f.name in a && a[f.name] == f
    ensures Sound(FieldAlters(t, b, f), t, b, a) && DistinctKeys(KeyOf, FieldAlters(t, b, f))
    ensures forall x :: x in FieldAlters(t, b, f) ==> x.column == f.name && x.rank != 3
  {
    if f.name in b {
      CalledExact(Guards(t, b[f.name], f), t, b, a, f.name);
    }
  }

  lemma FieldAltersComplete(t: string, b: Cols, a: Cols, f: Field, rank: nat)
    requires f.name in a && a[f.name] == f && rank != 3
    requires Needed(b, a, Key(rank, f.name))
    ensures Ranked(f.name, rank, OpAt(t, b, a, Key(rank, f.name))) in FieldAlters(t, b, f)
  {
    if f.name in b {
      var guards := Guards(t, b[f.name], f);
      var i := if rank < 3 then rank else if rank < 6 then rank - 1 else rank - 2;
      GuardCalled(t, b, a, f, rank);
      CalledMember(guards, i);
    }
  }

  /** The guard of a needed alteration is called. */
  lemma GuardCalled(t: string, b: Cols, a: Cols, f: Field, rank: nat)
    requires f.name in a && a[f.name] == f && rank != 3 && f.name in b
    requires Needed(b, a, Key(rank, f.name))
    ensures var i: nat := if rank < 3 then rank else if rank < 6 then rank - 1 else rank - 2;
            i < 8 && Guards(t, b[f.name], f)[i] == Guarded(true, Ranked(f.name, rank, OpAt(t, b, a, Key(rank, f.name))))
  {
  }

  lemma {:induction false} CalledMember(guards: seq<Guarded>, i: nat)
    requires i < |guards| && guards[i].called
    ensures guards[i].r in Called(guards)
  {
    if i > 0 {
      CalledMember(guards[1..], i - 1);
    }
  }

  lemma {:induction false} DeclaredExact(t: string, b: Cols, a: Cols, fields: seq<Field>)
    requires forall i :: 0 <= i < |fields| ==> !Faulty(fields, i)
    requires forall i :: 0 <= i < |fields| ==> fields[i].name in a && a[fields[i].name] == fields[i]
    ensures Sound(DeclaredAlters(t, b, fields), t, b, a)
    ensures DistinctKeys(KeyOf, DeclaredAlters(t, b, fields))
    ensures forall x :: x in DeclaredAlters(t, b, fields) ==> x.rank != 3 && exists i :: 0 <= i < |fields| && fields[i].name == x.column
    ensures forall i, rank: nat :: 0 <= i < |fields| && rank != 3 && Needed(b, a, Key(rank, fields[i].name)) ==>
              Ranked(fields[i].name, rank, OpAt(t, b, a, Key(rank, fields[i].name))) in DeclaredAlters(t, b, fields)
  {
    if fields != [] {
      var n := |fields| - 1;
      var most := fields[..n];
      forall i | 0 <= i < |most| ensures !Faulty(most, i) {
        assert !Faulty(fields, i);
      }
      DeclaredExact(t, b, a, most);
      var f := fields[n];
      assert !Faulty(fields, n);
      FieldAltersSound(t, b, a, f);
      var head, tail := DeclaredAlters(t, b, most), FieldAlters(t, b, f);
      forall x: Ranked | x in head + tail
        ensures x.rank != 3 && exists i :: 0 <= i < |fields| && fields[i].name == x.column
      {
        if x in head {
          var i :| 0 <= i < |most| && most[i].name == x.column;
          assert fields[i].name == x.column;
        } else {
          assert fields[n].name == x.column;
        }
      }
      forall i, j | 0 <= i < |head| && 0 <= j < |tail| ensures KeyOf(head[i]) != KeyOf(tail[j]) {
        assert head[i] in head;
        var m :| 0 <= m < |most| && most[m].name == head[i].column;
        assert fields[m].name != f.name;
      }
      forall i, rank: nat | 0 <= i < |fields| && rank != 3 && Needed(b, a, Key(rank, fields[i].name))
        ensures Ranked(fields[i].name, rank, OpAt(t, b, a, Key(rank, fields[i].name))) in head + tail
      {
        if i == n {
          FieldAltersComplete(t, b, a, f, rank);
        } else {
          assert fields[i] == most[i];
        }
      }
    }
  }

  lemma {:induction false} DroppedExact(t: string, b: Cols, a: Cols, fields: seq<Field>)
    requires forall i :: 0 <= i < |fields| ==> !Faulty(fields, i)
    requires forall i :: 0 <= i < |fields| ==> fields[i].name in b
    ensures Sound(DroppedAlters(t, fields, a), t, b, a)
    ensures DistinctKeys(KeyOf, DroppedAlters(t, fields, a))
    ensures forall x :: x in DroppedAlters(t, fields, a) ==> x.rank == 3 && Names(fields, x.column)
    ensures forall i :: 0 <= i < |fields| && fields[i].name !in a ==>
              Ranked(fields[i].name, 3, DropColumn(t, fields[i].name)) in DroppedAlters(t, fields, a)
  {
    if fields != [] {
      var n := |fields| - 1;
      var most, f := fields[..n], fields[n];
      forall i | 0 <= i < |most| ensures !Faulty(most, i) {
        assert !Faulty(fields, i);
      }
      DroppedExact(t, b, a, most);
      assert !Faulty(fields, n);
      NamesGrow(fields, n);
      var head := DroppedAlters(t, most, a);
      forall i | 0 <= i < |head| ensures head[i].column != f.name {
        assert head[i] in head && Names(most, head[i].column);
      }
    }
  }

  predicate Names(fields: seq<Field>, c: string)
  {
    exists i :: 0 <= i < |fields| && fields[i].name == c
  }

  /** The last field's name is new, and every earlier name stays. */
  lemma NamesGrow(fields: seq<Field>, n: nat)
    requires |fields| == n + 1 && !Faulty(fields, n)
    ensures Names(fields, fields[n].name) && !Names(fields[..n], fields[n].name)
    ensures forall c :: Names(fields[..n], c) ==> Names(fields, c)
  {
    forall c | Names(fields[..n], c) ensures Names(fields, c) && c != fields[n].name {
      var i :| 0 <= i < n && fields[..n][i].name == c;
      assert fields[i].name == c;
    }
  }

  /** The sorted list holds exactly the needed alterations, in strictly ascending (rank, column) order. */
  lemma TableAltersExact(was: Model, now: Model)
    requires ValidModel(was) && ValidModel(now)
    ensures Exact(TableAlters(was, now), now.table, IndexFields(was.fields), IndexFields(now.fields))
    ensures Ascending(KeyOf, TableAlters(was, now))
  {
    var t, b, a := now.table, IndexFields(was.fields), IndexFields(now.fields);
    IndexFieldsExact(was.fields);
    IndexFieldsExact(now.fields);
    DeclaredExact(t, b, a, now.fields);
    DroppedExact(t, b, a, was.fields);
    var declared, dropped := DeclaredAlters(t, b, now.fields), DroppedAlters(t, was.fields, a);
    JoinedDistinct(declared, dropped);
    assert Sound(declared + dropped, t, b, a);
    forall k: Key | Needed(b, a, k) ensures Ranked(k.name, k.rank, OpAt(t, b, a, k)) in declared + dropped {
      NeededIsListed(was, now, k);
    }
    SortedExact(declared + dropped, t, b, a);
  }

  lemma JoinedDistinct(declared: seq<Ranked>, dropped: seq<Ranked>)
    requires DistinctKeys(KeyOf, declared) && DistinctKeys(KeyOf, dropped)
    requires (forall x :: x in declared ==> x.rank != 3) && (forall x :: x in dropped ==> x.rank == 3)
    ensures DistinctKeys(KeyOf, declared + dropped)
  {
    forall i, j | 0 <= i < |declared| && 0 <= j < |dropped| ensures KeyOf(declared[i]) != KeyOf(dropped[j]) {
      assert declared[i] in declared && dropped[j] in dropped;
    }
  }

  /** Sorting keeps what is listed and puts it in order. */
  lemma SortedExact(alters: seq<Ranked>, t: string, b: Cols, a: Cols)
    requires DistinctKeys(KeyOf, alters) && Sound(alters, t, b, a)
    requires forall k: Key :: Needed(b, a, k) ==> Ranked(k.name, k.rank, OpAt(t, b, a, k)) in alters
    ensures Exact(Sort(KeyOf, alters), t, b, a) && Ascending(KeyOf, Sort(KeyOf, alters))
  {
    var sorted := Sort(KeyOf, alters);
    SortAscending(KeyOf, alters);
    SortMembers(KeyOf, alters);
    forall i | 0 <= i < |sorted| ensures Needed(b, a, KeyOf(sorted[i])) && sorted[i].op == OpAt(t, b, a, KeyOf(sorted[i])) {
      assert sorted[i] in alters;
      var j :| 0 <= j < |alters| && alters[j] == sorted[i];
    }
    forall k: Key | Needed(b, a, k) ensures exists i :: 0 <= i < |sorted| && KeyOf(sorted[i]) == k {
      var x := Ranked(k.name, k.rank, OpAt(t, b, a, k));
      assert x in sorted;
      var i :| 0 <= i < |sorted| && sorted[i] == x;
    }
  }

  lemma NeededIsListed(was: Model, now: Model, k: Key)
    requires ValidModel(was) && ValidModel(now)
    requires Needed(IndexFields(was.fields), IndexFields(now.fields), k)
    ensures Ranked(k.name, k.rank, OpAt(now.table, IndexFields(was.fields), IndexFields(now.fields), k))
            in DeclaredAlters(now.table, IndexFields(was.fields), now.fields)
               + DroppedAlters(now.table, was.fields, IndexFields(now.fields))
  {
    var t, b, a := now.table, IndexFields(was.fields), IndexFields(now.fields);
    IndexFieldsExact(was.fields);
    IndexFieldsExact(now.fields);
    DeclaredExact(t, b, a, now.fields);
    DroppedExact(t, b, a, was.fields);
    if k.rank == 3 {
      var i :| 0 <= i < |was.fields| && was.fields[i].name == k.name;
    } else {
      var i :| 0 <= i < |now.fields| && now.fields[i].name == k.name;
    }
  }
}
