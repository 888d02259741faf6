/** runMakemigrations: one migration per changed module, its sidecar, and the chain they join. */
module Makemigrations {
  import opened Wrappers
  import opened Text
  import opened Orm
  import opened Operations
  import opened Differ
  import opened Alterations
  import opened DiffSoundness

  // ------------------------------------------------------------------ owners

  function OwnerIn(models: seq<Registered>, table: string): Option<string>
  {
    if models == [] then None
    else if models[0].model.table == table then Some(models[0].owner)
    else OwnerIn(models[1..], table)
  }

  /** ownerOf: the declaring module, in the after schema or else in the before one. */
  function OwnerOf(table: string, before: Snapshot, after: Snapshot): string
  {
    match OwnerIn(after.models, table)
    case Some(m) => m
    case None =>
      match OwnerIn(before.models, table)
      case Some(m) => m
      case None => "(unknown)"
  }

  /** One module's share of the list, in list order. */
  function Share(ops: seq<Op>, m: string, before: Snapshot, after: Snapshot): seq<Op>
  {
    if ops == [] then []
    else
      (if OwnerOf(TableOf(ops[0]), before, after) == m then [ops[0]] else []) + Share(ops[1..], m, before, after)
  }

  function Owners(ops: seq<Op>, before: Snapshot, after: Snapshot): set<string>
  {
    set i | 0 <= i < |ops| :: OwnerOf(TableOf(ops[i]), before, after)
  }

  function NameKey(name: string): Key
  {
    Key(0, name)
  }

  lemma {:induction false} ShareSnoc(ops: seq<Op>, last: Op, m: string, before: Snapshot, after: Snapshot)
    ensures Share(ops + [last], m, before, after)
            == Share(ops, m, before, after) + if OwnerOf(TableOf(last), before, after) == m then [last] else []
  {
    if ops == [] {
      assert ([last])[1..] == [];
    } else {
      assert (ops + [last])[1..] == ops[1..] + [last];
      ShareSnoc(ops[1..], last, m, before, after);
    }
  }

  /** byModule holds every owner of the list with its share. */
  ghost predicate Groups(byModule: map<string, seq<Op>>, ops: seq<Op>, before: Snapshot, after: Snapshot)
  {
    && byModule.Keys == Owners(ops, before, after)
    && forall m :: m in byModule ==> byModule[m] == Share(ops, m, before, after)
  }

  lemma {:induction false} NoShare(ops: seq<Op>, m: string, before: Snapshot, after: Snapshot)
    requires m !in Owners(ops, before, after)
    ensures Share(ops, m, before, after) == []
  {
    if ops != [] {
      assert OwnerOf(TableOf(ops[0]), before, after) in Owners(ops, before, after);
      forall j | 0 <= j < |ops[1..]| ensures OwnerOf(TableOf(ops[1..][j]), before, after) != m {
        assert ops[1..][j] == ops[j + 1];
      }
      NoShare(ops[1..], m, before, after);
    }
  }

  lemma GroupsOneMore(byModule: map<string, seq<Op>>, ops: seq<Op>, i: nat, before: Snapshot, after: Snapshot)
    requires i < |ops| && Groups(byModule, ops[..i], before, after)
    ensures var owner := OwnerOf(TableOf(ops[i]), before, after);
            Groups(byModule[owner := (if owner in byModule then byModule[owner] else []) + [ops[i]]], ops[..i + 1], before, after)
  {
    var owner := OwnerOf(TableOf(ops[i]), before, after);
    assert ops[..i + 1] == ops[..i] + [ops[i]];
    OwnersSnoc(ops, i, before, after);
    forall m: string ensures Share(ops[..i + 1], m, before, after) == Share(ops[..i], m, before, after) + if owner == m then [ops[i]] else [] {
      ShareSnoc(ops[..i], ops[i], m, before, after);
    }
    if owner !in byModule {
      NoShare(ops[..i], owner, before, after);
    }
  }

  /** The grouping loop: every owner once, in sorted order, each with its share. */
  method GroupByModule(ops: seq<Op>, before: Snapshot, after: Snapshot)
    returns (order: seq<string>, byModule: map<string, seq<Op>>)
    ensures Ascending(NameKey, order)
    ensures forall m :: m in order <==> m in Owners(ops, before, after)
    ensures Groups(byModule, ops, before, after)
  {
    order, byModule := [], map[];
    for i := 0 to |ops|
      invariant forall m :: m in order <==> m in byModule
      invariant forall j, k :: 0 <= j < k < |order| ==> order[j] != order[k]
      invariant Groups(byModule, ops[..i], before, after)
    {
      var owner := OwnerOf(TableOf(ops[i]), before, after);
      GroupsOneMore(byModule, ops, i, before, after);
      if owner !in byModule {
        order := order + [owner];
        byModule := byModule[owner := [] + [ops[i]]];
      } else {
        byModule := byModule[owner := byModule[owner] + [ops[i]]];
      }
    }
    assert ops[..|ops|] == ops;
    SortAscending(NameKey, order);
    SortMembers(NameKey, order);
    order := Sort(NameKey, order);
  }

  lemma OwnersSnoc(ops: seq<Op>, i: nat, before: Snapshot, after: Snapshot)
    requires i < |ops|
    ensures Owners(ops[..i + 1], before, after) == Owners(ops[..i], before, after) + {OwnerOf(TableOf(ops[i]), before, after)}
  {
    var longer, shorter := ops[..i + 1], ops[..i];
    forall m ensures m in Owners(longer, before, after) <==> m in Owners(shorter, before, after) + {OwnerOf(TableOf(ops[i]), before, after)} {
      if m in Owners(shorter, before, after) {
        var j :| 0 <= j < i && OwnerOf(TableOf(shorter[j]), before, after) == m;
        assert longer[j] == shorter[j];
      }
      if m == OwnerOf(TableOf(ops[i]), before, after) {
        assert longer[i] == ops[i];
      }
    }
  }

  lemma {:induction false} ProjShare(ops: seq<Op>, m: string, before: Snapshot, after: Snapshot, t: string)
    ensures Proj(Share(ops, m, before, after), t) == if OwnerOf(t, before, after) == m then Proj(ops, t) else []
  {
    if ops != [] {
      ProjShare(ops[1..], m, before, after, t);
      ProjConcat(if OwnerOf(TableOf(ops[0]), before, after) == m then [ops[0]] else [], Share(ops[1..], m, before, after), t);
    }
  }

  // ---------------------------------------------------------------- sidecars

  function Touched(ops: seq<Op>): set<string>
  {
    set i | 0 <= i < |ops| :: TableOf(ops[i])
  }

  function Keep(models: seq<Registered>, tables: set<string>, inside: bool): seq<Registered>
  {
    if models == [] then []
    else Keep(models[..|models| - 1], tables, inside)
         + if (models[|models| - 1].model.table in tables) == inside then [models[|models| - 1]] else []
  }

  /** Untouched tables as they were, touched ones as finally declared. */
  function Mixed(current: Snapshot, final: Snapshot, ops: seq<Op>): seq<Registered>
  {
    Keep(current.models, Touched(ops), false) + Keep(final.models, Touched(ops), true)
  }

  method SnapshotAfterOperations(current: Snapshot, final: Snapshot, ops: seq<Op>) returns (r: Result<Snapshot, Error>)
    ensures r.Ok? <==> Admissible(Mixed(current, final, ops))
    ensures r.Ok? ==> r.value == Snapshot(Sort(TableKey, Mixed(current, final, ops)))
  {
    var changed: set<string> := {};
    for i := 0 to |ops|
      invariant changed == Touched(ops[..i])
    {
      changed := changed + {TableOf(ops[i])};
      TouchedSnoc(ops, i);
    }
    assert ops[..|ops|] == ops;
    var next: seq<Registered> := [];
    for i := 0 to |current.models|
      invariant next == Keep(current.models[..i], changed, false)
    {
      if current.models[i].model.table !in changed {
        next := next + [current.models[i]];
      }
      assert current.models[..i + 1][..i] == current.models[..i];
    }
    assert current.models[..|current.models|] == current.models;
    ghost var kept := next;
    for i := 0 to |final.models|
      invariant next == kept + Keep(final.models[..i], changed, true)
    {
      if final.models[i].model.table in changed {
        next := next + [final.models[i]];
      }
      assert final.models[..i + 1][..i] == final.models[..i];
    }
    assert final.models[..|final.models|] == final.models;
    r := NewSnapshot(next);
  }

  lemma TouchedSnoc(ops: seq<Op>, i: nat)
    requires i < |ops|
    ensures Touched(ops[..i + 1]) == Touched(ops[..i]) + {TableOf(ops[i])}
  {
    var longer, shorter := ops[..i + 1], ops[..i];
    forall t ensures t in Touched(longer) <==> t in Touched(shorter) + {TableOf(ops[i])} {
      if t in Touched(shorter) {
        var j :| 0 <= j < i && TableOf(shorter[j]) == t;
        assert longer[j] == shorter[j];
      }
      if t == TableOf(ops[i]) {
        assert longer[i] == ops[i];
      }
    }
  }

  lemma {:induction false} KeepMembers(models: seq<Registered>, tables: set<string>, inside: bool)
    ensures forall r :: r in Keep(models, tables, inside) <==> r in models && (r.model.table in tables) == inside
  {
    if models != [] {
      KeepMembers(models[..|models| - 1], tables, inside);
      assert models == models[..|models| - 1] + [models[|models| - 1]];
    }
  }

  lemma {:induction false} KeepDistinct(models: seq<Registered>, tables: set<string>, inside: bool)
    requires DistinctTables(models)
    ensures DistinctTables(Keep(models, tables, inside))
  {
    if models != [] {
      var most, last := models[..|models| - 1], models[|models| - 1];
      KeepDistinct(most, tables, inside);
      KeepMembers(most, tables, inside);
      var head := Keep(most, tables, inside);
      forall i | 0 <= i < |head| ensures head[i].model.table != last.model.table {
        assert head[i] in most;
        var j :| 0 <= j < |most| && most[j] == head[i];
        assert models[j] == most[j];
      }
    }
  }

  ghost function PickTable(current: Schema, final: Schema, tables: set<string>, t: string): TableState
  {
    if t in tables then Get(final, t) else Get(current, t)
  }

  /** A sidecar never fails validation, and table by table it is the final schema where touched. */
  lemma SidecarExact(current: Snapshot, final: Snapshot, ops: seq<Op>)
    requires ValidSnapshot(current) && ValidSnapshot(final)
    ensures Admissible(Mixed(current, final, ops))
    ensures ValidSnapshot(Snapshot(Sort(TableKey, Mixed(current, final, ops))))
    ensures forall t: string ::
              Get(SchemaOf(Sort(TableKey, Mixed(current, final, ops))), t) == PickTable(SchemaOf(current.models), SchemaOf(final.models), Touched(ops), t)
  {
    var changed, mixed := Touched(ops), Mixed(current, final, ops);
    SnapshotDistinct(current);
    SnapshotDistinct(final);
    KeepDistinct(current.models, changed, false);
    KeepDistinct(final.models, changed, true);
    KeepMembers(current.models, changed, false);
    KeepMembers(final.models, changed, true);
    var kept, taken := Keep(current.models, changed, false), Keep(final.models, changed, true);
    forall i, j | 0 <= i < |kept| && 0 <= j < |taken| ensures kept[i].model.table != taken[j].model.table {
      assert kept[i] in kept && taken[j] in taken;
    }
    assert DistinctTables(mixed);
    forall i | 0 <= i < |mixed| ensures ValidModel(mixed[i].model) {
      assert mixed[i] in kept || mixed[i] in taken;
    }
    SortedSnapshot(mixed);
    SchemaOfExact(mixed);
    SchemaOfExact(current.models);
    SchemaOfExact(final.models);
    forall t: string ensures Get(SchemaOf(mixed), t) == PickTable(SchemaOf(current.models), SchemaOf(final.models), changed, t) {
      MixedTable(current, final, ops, t);
    }
  }

  lemma MemberSchema(models: seq<Registered>, r: Registered)
    requires DistinctTables(models) && r in models
    ensures Get(SchemaOf(models), r.model.table) == Present(IndexFields(r.model.fields))
  {
    SchemaOfExact(models);
    var i :| 0 <= i < |models| && models[i] == r;
    assert models[i].model.table in SchemaOf(models);
  }

  lemma SchemaMember(models: seq<Registered>, t: string) returns (r: Registered)
    requires DistinctTables(models) && t in SchemaOf(models)
    ensures r in models && r.model.table == t
  {
    SchemaOfExact(models);
    assert Claims(models, t);
    var i :| 0 <= i < |models| && models[i].model.table == t;
    r := models[i];
  }

  lemma MixedTable(current: Snapshot, final: Snapshot, ops: seq<Op>, t: string)
    requires ValidSnapshot(current) && ValidSnapshot(final) && DistinctTables(Mixed(current, final, ops))
    ensures Get(SchemaOf(Mixed(current, final, ops)), t) == PickTable(SchemaOf(current.models), SchemaOf(final.models), Touched(ops), t)
  {
    var changed, mixed := Touched(ops), Mixed(current, final, ops);
    var source := if t in changed then final.models else current.models;
    SnapshotDistinct(current);
    SnapshotDistinct(final);
    KeepMembers(current.models, changed, false);
    KeepMembers(final.models, changed, true);
    forall r: Registered | r.model.table == t ensures r in mixed <==> r in source {
    }
    SameTable(mixed, source, t);
  }

  lemma SameTable(a: seq<Registered>, b: seq<Registered>, t: string)
    requires DistinctTables(a) && DistinctTables(b)
    requires forall r: Registered :: r.model.table == t ==> (r in a <==> r in b)
    ensures Get(SchemaOf(a), t) == Get(SchemaOf(b), t)
  {
    if t in SchemaOf(a) {
      var r := SchemaMember(a, t);
      MemberSchema(a, r);
      MemberSchema(b, r);
    } else if t in SchemaOf(b) {
      var r := SchemaMember(b, t);
      MemberSchema(a, r);
    }
  }

  /** The cumulative snapshot after the first i modules. */
  function Cumulative(before: Snapshot, after: Snapshot, ops: seq<Op>, order: seq<string>, i: nat): Snapshot
    requires i <= |order|
  {
    if i == 0 then before
    else Snapshot(Sort(TableKey, Mixed(Cumulative(before, after, ops, order, i - 1), after, Share(ops, order[i - 1], before, after))))
  }

  // ------------------------------------------------- splitting preserves meaning

  /** Table by table, ops runs from before to after, legally, safely and as recorded. */
  ghost predicate Carries(ops: seq<Op>, before: Snapshot, after: Snapshot)
  {
    forall t: string :: CarriesTable(ops, before, after, t)
  }

  ghost predicate CarriesTable(ops: seq<Op>, before: Snapshot, after: Snapshot, t: string)
  {
    var b, a := Get(SchemaOf(before.models), t), Get(SchemaOf(after.models), t);
    TablePath(Proj(ops, t), b, b) && TableEnd(Proj(ops, t), b) == Some(a)
  }

  lemma ResolvedListsCarry(before: Snapshot, after: Snapshot, ren: Renaming)
    requires ValidSnapshot(before) && ValidSnapshot(after) && FitsAll(before, after, ren)
    ensures Carries(RewriteAll(DiffOps(before, after), ren), before, after)
  {
    forall t: string ensures CarriesTable(RewriteAll(DiffOps(before, after), ren), before, after, t) {
      assert FitsTable(before, after, ren, t);
      CarriedByTable(before, after, ren, t);
    }
  }

  ghost predicate EveryOwnerOnce(order: seq<string>, ops: seq<Op>, before: Snapshot, after: Snapshot)
  {
    && (forall i, j :: 0 <= i < j < |order| ==> order[i] != order[j])
    && (forall m :: m in order <==> m in Owners(ops, before, after))
  }

  lemma AscendingOnce(order: seq<string>)
    requires Ascending(NameKey, order)
    ensures forall i, j :: 0 <= i < j < |order| ==> order[i] != order[j]
  {
    forall i, j | 0 <= i < j < |order| ensures order[i] != order[j] {
      assert KeyLess(NameKey(order[i]), NameKey(order[j]));
      LessIrreflexive(order[i]);
    }
  }

  /** After i modules: their tables are as declared, everyone else's as recorded. */
  ghost predicate Halfway(before: Snapshot, after: Snapshot, ops: seq<Op>, order: seq<string>, i: nat, s: Snapshot)
    requires i <= |order|
  {
    && ValidSnapshot(s)
    && forall t: string ::
         Get(SchemaOf(s.models), t)
         == Get(SchemaOf((if OwnerOf(t, before, after) in order[..i] then after else before).models), t)
  }

  lemma {:induction false} TouchedProj(ops: seq<Op>, t: string)
    ensures t in Touched(ops) <==> Proj(ops, t) != []
  {
    if ops != [] {
      TouchedProj(ops[1..], t);
      if t in Touched(ops[1..]) {
        var j :| 0 <= j < |ops[1..]| && TableOf(ops[1..][j]) == t;
        assert TableOf(ops[j + 1]) == t;
      }
      if t in Touched(ops) && TableOf(ops[0]) != t {
        var j :| 0 <= j < |ops| && TableOf(ops[j]) == t;
        assert ops[1..][j - 1] == ops[j];
      }
    }
  }

  lemma {:induction false} CumulativeHalfway(before: Snapshot, after: Snapshot, ops: seq<Op>, order: seq<string>, i: nat)
    requires ValidSnapshot(before) && ValidSnapshot(after) && Carries(ops, before, after) && i <= |order|
    ensures Halfway(before, after, ops, order, i, Cumulative(before, after, ops, order, i))
    ensures i > 0 ==> Admissible(Mixed(Cumulative(before, after, ops, order, i - 1), after, Share(ops, order[i - 1], before, after)))
  {
    if i > 0 {
      CumulativeHalfway(before, after, ops, order, i - 1);
      HalfwayStep(before, after, ops, order, i, Cumulative(before, after, ops, order, i - 1));
    } else {
      HalfwayStart(before, after, ops, order);
    }
  }

  lemma HalfwayStart(before: Snapshot, after: Snapshot, ops: seq<Op>, order: seq<string>)
    requires ValidSnapshot(before)
    ensures Halfway(before, after, ops, order, 0, before)
  {
  }

  /** One more module joins the snapshot so far. */
  lemma HalfwayStep(before: Snapshot, after: Snapshot, ops: seq<Op>, order: seq<string>, i: nat, current: Snapshot)
    requires ValidSnapshot(after) && Carries(ops, before, after) && 0 < i <= |order|
    requires Halfway(before, after, ops, order, i - 1, current)
    ensures Admissible(Mixed(current, after, Share(ops, order[i - 1], before, after)))
    ensures Halfway(before, after, ops, order, i, Snapshot(Sort(TableKey, Mixed(current, after, Share(ops, order[i - 1], before, after)))))
  {
    var share := Share(ops, order[i - 1], before, after);
    SidecarExact(current, after, share);
    forall t: string
      ensures PickTable(SchemaOf(current.models), SchemaOf(after.models), Touched(share), t)
              == Get(SchemaOf((if OwnerOf(t, before, after) in order[..i] then after else before).models), t)
    {
      OneMoreModule(before, after, ops, order, i, current, t);
    }
  }

  /** Table t once module i - 1 has joined: as declared if that module owns it, else as it was. */
  lemma OneMoreModule(before: Snapshot, after: Snapshot, ops: seq<Op>, order: seq<string>, i: nat, current: Snapshot, t: string)
    requires Carries(ops, before, after) && 0 < i <= |order|
    requires Halfway(before, after, ops, order, i - 1, current)
    ensures PickTable(SchemaOf(current.models), SchemaOf(after.models), Touched(Share(ops, order[i - 1], before, after)), t)
            == Get(SchemaOf((if OwnerOf(t, before, after) in order[..i] then after else before).models), t)
  {
    var share, m := Share(ops, order[i - 1], before, after), OwnerOf(t, before, after);
    assert order[..i] == order[..i - 1] + [order[i - 1]];
    assert m in order[..i] <==> m in order[..i - 1] || m == order[i - 1];
    ProjShare(ops, order[i - 1], before, after, t);
    TouchedProj(share, t);
    assert CarriesTable(ops, before, after, t);
    assert Get(SchemaOf(current.models), t) == Get(SchemaOf((if m in order[..i - 1] then after else before).models), t);
  }

  /**
    Each module's share runs, safely and as recorded, from the sidecar before it to its own sidecar,
    which never fails validation.
    */
  lemma ShareCarries(before: Snapshot, after: Snapshot, ops: seq<Op>, order: seq<string>, i: nat)
    requires ValidSnapshot(before) && ValidSnapshot(after) && Carries(ops, before, after)
    requires EveryOwnerOnce(order, ops, before, after) && i < |order|
    ensures var share := Share(ops, order[i], before, after);
            var here, there := Cumulative(before, after, ops, order, i), Cumulative(before, after, ops, order, i + 1);
            && Admissible(Mixed(here, after, share)) && ValidSnapshot(here) && ValidSnapshot(there)
            && Path(share, SchemaOf(before.models), SchemaOf(here.models))
            && Run(share, SchemaOf(here.models)) == Some(SchemaOf(there.models))
  {
    var here, there := Cumulative(before, after, ops, order, i), Cumulative(before, after, ops, order, i + 1);
    CumulativeHalfway(before, after, ops, order, i);
    CumulativeHalfway(before, after, ops, order, i + 1);
    ShareRuns(before, after, ops, order, i, here, there);
  }

  lemma ShareRuns(before: Snapshot, after: Snapshot, ops: seq<Op>, order: seq<string>, i: nat, here: Snapshot, there: Snapshot)
    requires Carries(ops, before, after) && EveryOwnerOnce(order, ops, before, after) && i < |order|
    requires Halfway(before, after, ops, order, i, here) && Halfway(before, after, ops, order, i + 1, there)
    ensures var share := Share(ops, order[i], before, after);
            && Path(share, SchemaOf(before.models), SchemaOf(here.models))
            && Run(share, SchemaOf(here.models)) == Some(SchemaOf(there.models))
  {
    var share := Share(ops, order[i], before, after);
    forall t: string
      ensures TablePath(Proj(share, t), Get(SchemaOf(before.models), t), Get(SchemaOf(here.models), t))
      ensures TableEnd(Proj(share, t), Get(SchemaOf(here.models), t)) == Some(Get(SchemaOf(there.models), t))
    {
      ShareOnTable(before, after, ops, order, i, here, there, t);
    }
    PathByTable(share, SchemaOf(before.models), SchemaOf(here.models), SchemaOf(there.models));
  }

  lemma ShareOnTable(before: Snapshot, after: Snapshot, ops: seq<Op>, order: seq<string>, i: nat, here: Snapshot, there: Snapshot, t: string)
    requires Carries(ops, before, after) && EveryOwnerOnce(order, ops, before, after) && i < |order|
    requires Halfway(before, after, ops, order, i, here) && Halfway(before, after, ops, order, i + 1, there)
    ensures var share := Share(ops, order[i], before, after);
            && TablePath(Proj(share, t), Get(SchemaOf(before.models), t), Get(SchemaOf(here.models), t))
            && TableEnd(Proj(share, t), Get(SchemaOf(here.models), t)) == Some(Get(SchemaOf(there.models), t))
  {
    ProjShare(ops, order[i], before, after, t);
    HalfwayTable(before, after, ops, order, i, here, there, t);
    assert CarriesTable(ops, before, after, t);
  }

  /** Module i's turn moves its own tables from recorded to declared, and no others. */
  lemma HalfwayTable(before: Snapshot, after: Snapshot, ops: seq<Op>, order: seq<string>, i: nat, here: Snapshot, there: Snapshot, t: string)
    requires EveryOwnerOnce(order, ops, before, after) && i < |order|
    requires Halfway(before, after, ops, order, i, here) && Halfway(before, after, ops, order, i + 1, there)
    ensures var h, n := Get(SchemaOf(here.models), t), Get(SchemaOf(there.models), t);
            if OwnerOf(t, before, after) == order[i] then h == Get(SchemaOf(before.models), t) && n == Get(SchemaOf(after.models), t) else n == h
  {
    var m := OwnerOf(t, before, after);
    NextInOrder(order, i, m);
    assert Get(SchemaOf(here.models), t) == Get(SchemaOf((if m in order[..i] then after else before).models), t);
    assert Get(SchemaOf(there.models), t) == Get(SchemaOf((if m in order[..i + 1] then after else before).models), t);
  }

  lemma NextInOrder(order: seq<string>, i: nat, m: string)
    requires i < |order| && forall a, b :: 0 <= a < b < |order| ==> order[a] != order[b]
    ensures m in order[..i + 1] <==> m in order[..i] || m == order[i]
    ensures m == order[i] ==> m !in order[..i]
  {
    assert order[..i + 1] == order[..i] + [order[i]];
  }

  function AllShares(ops: seq<Op>, order: seq<string>, before: Snapshot, after: Snapshot): seq<Op>
  {
    if order == [] then [] else AllShares(ops, order[..|order| - 1], before, after) + Share(ops, order[|order| - 1], before, after)
  }

  lemma {:induction false} SharesReach(before: Snapshot, after: Snapshot, ops: seq<Op>, order: seq<string>, i: nat)
    requires ValidSnapshot(before) && ValidSnapshot(after) && Carries(ops, before, after)
    requires EveryOwnerOnce(order, ops, before, after) && i <= |order|
    ensures Run(AllShares(ops, order[..i], before, after), SchemaOf(before.models))
            == Some(SchemaOf(Cumulative(before, after, ops, order, i).models))
  {
    if i > 0 {
      SharesReach(before, after, ops, order, i - 1);
      ShareCarries(before, after, ops, order, i - 1);
      AllSharesSnoc(ops, order, i, before, after);
      ReachOn(AllShares(ops, order[..i - 1], before, after), Share(ops, order[i - 1], before, after), SchemaOf(before.models),
              SchemaOf(Cumulative(before, after, ops, order, i - 1).models), SchemaOf(Cumulative(before, after, ops, order, i).models));
    } else {
      NoShares(ops, order, before, after);
    }
  }

  lemma NoShares(ops: seq<Op>, order: seq<string>, before: Snapshot, after: Snapshot)
    ensures Run(AllShares(ops, order[..0], before, after), SchemaOf(before.models)) == Some(SchemaOf(Cumulative(before, after, ops, order, 0).models))
  {
  }

  lemma AllSharesSnoc(ops: seq<Op>, order: seq<string>, i: nat, before: Snapshot, after: Snapshot)
    requires 0 < i <= |order|
    ensures AllShares(ops, order[..i], before, after) == AllShares(ops, order[..i - 1], before, after) + Share(ops, order[i - 1], before, after)
  {
    assert order[..i][..i - 1] == order[..i - 1];
  }

  lemma ReachOn(sofar: seq<Op>, share: seq<Op>, start: Schema, here: Schema, there: Schema)
    requires Run(sofar, start) == Some(here) && Run(share, here) == Some(there)
    ensures Run(sofar + share, start) == Some(there)
  {
    RunOn(sofar, share, start, here);
  }

  /** Running the modules' shares in sorted module order ends where the list's own order ends: in after. */
  lemma SplittingPreservesMeaning(before: Snapshot, after: Snapshot, ops: seq<Op>, order: seq<string>)
    requires ValidSnapshot(before) && ValidSnapshot(after) && Carries(ops, before, after)
    requires EveryOwnerOnce(order, ops, before, after)
    ensures Run(ops, SchemaOf(before.models)) == Some(SchemaOf(after.models))
    ensures Run(AllShares(ops, order, before, after), SchemaOf(before.models)) == Some(SchemaOf(after.models))
    ensures SchemaOf(Cumulative(before, after, ops, order, |order|).models) == SchemaOf(after.models)
  {
    var b, a, last := SchemaOf(before.models), SchemaOf(after.models), Cumulative(before, after, ops, order, |order|);
    forall t: string
      ensures TablePath(Proj(ops, t), Get(b, t), Get(b, t)) && TableEnd(Proj(ops, t), Get(b, t)) == Some(Get(a, t))
    {
      assert CarriesTable(ops, before, after, t);
    }
    PathByTable(ops, b, b, a);
    CumulativeHalfway(before, after, ops, order, |order|);
    assert order[..|order|] == order;
    forall t: string ensures Get(SchemaOf(last.models), t) == Get(a, t) {
      assert CarriesTable(ops, before, after, t);
      TouchedProj(ops, t);
      if t in Touched(ops) {
        var i :| 0 <= i < |ops| && TableOf(ops[i]) == t;
        assert OwnerOf(t, before, after) in Owners(ops, before, after);
      }
    }
    SchemaExtensional(SchemaOf(last.models), a);
    SharesReach(before, after, ops, order, |order|);
  }

  // --------------------------------------------------- stopping halfway

  /**
    After the first i modules a new diff finds, table by table, nothing for the tables of those modules
    and exactly what the first diff found for all others.
    */
  lemma RemainingPart(before: Snapshot, after: Snapshot, ops: seq<Op>, order: seq<string>, i: nat, t: string)
    requires ValidSnapshot(before) && ValidSnapshot(after) && Carries(ops, before, after) && i <= |order|
    ensures Proj(DiffOps(Cumulative(before, after, ops, order, i), after), t)
            == if OwnerOf(t, before, after) in order[..i] then [] else Proj(DiffOps(before, after), t)
  {
    var here := Cumulative(before, after, ops, order, i);
    CumulativeHalfway(before, after, ops, order, i);
    if OwnerOf(t, before, after) in order[..i] {
      SettledHasNoPart(here, after, t);
    } else {
      PartDependsOnTable(here, before, after, t);
    }
  }

  /** So nothing remains exactly when every module has had its turn. */
  lemma NothingRemainsIff(before: Snapshot, after: Snapshot, ren: Renaming, order: seq<string>, i: nat)
    requires ValidSnapshot(before) && ValidSnapshot(after) && FitsAll(before, after, ren) && i <= |order|
    requires EveryOwnerOnce(order, RewriteAll(DiffOps(before, after), ren), before, after)
    ensures DiffOps(Cumulative(before, after, RewriteAll(DiffOps(before, after), ren), order, i), after) == [] <==> i == |order|
  {
    var ops := RewriteAll(DiffOps(before, after), ren);
    ResolvedListsCarry(before, after, ren);
    if i == |order| {
      SplittingPreservesMeaning(before, after, ops, order);
      CumulativeHalfway(before, after, ops, order, i);
      DiffEmptyIff(Cumulative(before, after, ops, order, i), after);
    } else {
      SomeoneWaits(before, after, ren, order, i);
    }
  }

  lemma SomeoneWaits(before: Snapshot, after: Snapshot, ren: Renaming, order: seq<string>, i: nat)
    requires ValidSnapshot(before) && ValidSnapshot(after) && FitsAll(before, after, ren) && i < |order|
    requires EveryOwnerOnce(order, RewriteAll(DiffOps(before, after), ren), before, after)
    ensures DiffOps(Cumulative(before, after, RewriteAll(DiffOps(before, after), ren), order, i), after) != []
  {
    var ops := RewriteAll(DiffOps(before, after), ren);
    assert order[i] in order && order[i] in Owners(ops, before, after);
    var k :| 0 <= k < |ops| && OwnerOf(TableOf(ops[k]), before, after) == order[i];
    var t := TableOf(ops[k]);
    TouchedProj(ops, t);
    ProjRewrite(DiffOps(before, after), ren, t);
    ResolvedListsCarry(before, after, ren);
    RemainingPart(before, after, ops, order, i, t);
  }
}
