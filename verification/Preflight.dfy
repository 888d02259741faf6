/** Apply: everything is rendered before anything runs, and the registry the models come from. */
module Preflight {
  import opened Wrappers
  import opened Text
  import opened Orm
  import opened Operations
  import opened Catalog
  import opened Dialects

  datatype Failure = CannotRender(error: RenderError) | CannotExecute

  /** A rendered operation always has statements, so the check for none never fires for these dialects. */
  lemma RenderedNotEmpty(d: Dialect, op: Op, name: Obj -> string)
    requires Render(d, op, name).Ok?
    ensures Render(d, op, name).value != []
  {
  }

  lemma {:induction false} RenderAllSplits(d: Dialect, ops: seq<Op>, name: Obj -> string, i: nat)
    requires i < |ops|
    ensures var said, more := RenderAll(d, ops[..i], name), Render(d, ops[i], name);
            if said.Err? then RenderAll(d, ops[..i + 1], name) == said && RenderAll(d, ops, name) == said
            else if more.Err? then RenderAll(d, ops[..i + 1], name) == Err(more.error) && RenderAll(d, ops, name) == Err(more.error)
            else RenderAll(d, ops[..i + 1], name) == Ok(said.value + more.value)
  {
    if i > 0 {
      RenderAllSplits(d, ops[1..], name, i - 1);
      assert ops[..i][0] == ops[0] && ops[..i][1..] == ops[1..][..i - 1];
      assert ops[..i + 1][0] == ops[0] && ops[..i + 1][1..] == ops[1..][..i];
      assert ops[1..][i - 1] == ops[i];
      var head, rest, more := Render(d, ops[0], name), RenderAll(d, ops[1..][..i - 1], name), Render(d, ops[i], name);
      if head.Ok? && rest.Ok? && more.Ok? {
        assert (head.value + rest.value) + more.value == head.value + (rest.value + more.value);
      }
    } else {
      assert ops[..1] == [ops[0]] && ops[..1][1..] == [] && ops[..0] == [];
      var more := Render(d, ops[0], name);
      if more.Ok? {
        assert more.value + [] == [] + more.value;
      }
    }
  }

  /** The first loop of Apply. */
  method RenderEach(d: Dialect, ops: seq<Op>, name: Obj -> string) returns (r: Result<seq<Statement>, RenderError>)
    ensures r == RenderAll(d, ops, name)
  {
    var rendered: seq<Statement> := [];
    for i := 0 to |ops|
      invariant RenderAll(d, ops[..i], name) == Ok(rendered)
    {
      RenderAllSplits(d, ops, name, i);
      var stmts := Render(d, ops[i], name);
      if stmts.Err? {
        return Err(stmts.error);
      }
      RenderedNotEmpty(d, ops[i], name);
      rendered := rendered + stmts.value;
    }
    assert ops[..|ops|] == ops;
    return Ok(rendered);
  }

  /** A database handle: it runs one statement at a time, and any of them may fail. */
  class Handle {
    var executed: seq<Statement>

    constructor ()
      ensures executed == []
    {
      executed := [];
    }

    method Execute(stmt: Statement) returns (ok: bool)
      modifies this
      ensures executed == if ok then old(executed) + [stmt] else old(executed)
    {
      ok := *;
      if ok {
        executed := executed + [stmt];
      }
    }

    /**
      If any operation cannot be rendered, the database is untouched; otherwise the rendered statements
      run in order, and all of them on success.
      */
    method Apply(d: Dialect, ops: seq<Op>, name: Obj -> string) returns (failure: Option<Failure>)
      modifies this
      ensures RenderAll(d, ops, name).Err? ==> failure == Some(CannotRender(RenderAll(d, ops, name).error)) && executed == old(executed)
      ensures RenderAll(d, ops, name).Ok? && failure.None? ==> executed == old(executed) + RenderAll(d, ops, name).value
      ensures RenderAll(d, ops, name).Ok? && failure.Some? ==>
                failure == Some(CannotExecute) && old(executed) <= executed < old(executed) + RenderAll(d, ops, name).value
    {
      var rendered := RenderEach(d, ops, name);
      if rendered.Err? {
        return Some(CannotRender(rendered.error));
      }
      var ok := ExecuteEach(rendered.value);
      return if ok then None else Some(CannotExecute);
    }

    method ExecuteEach(stmts: seq<Statement>) returns (ok: bool)
      modifies this
      ensures ok ==> executed == old(executed) + stmts
      ensures !ok ==> old(executed) <= executed < old(executed) + stmts
    {
      for i := 0 to |stmts|
        invariant executed == old(executed) + stmts[..i]
      {
        ok := Execute(stmts[i]);
        if !ok {
          assert stmts == stmts[..i] + stmts[i..];
          return;
        }
      }
      assert stmts[..|stmts|] == stmts;
      return true;
    }
  }

  // -------------------------------------------------------------- registry

  type Entries = map<string, Registered>

  /** Models filed under their tables for one module. */
  function Filed(entries: Entries, owner: string, models: seq<Model>): Entries
  {
    if models == [] then entries
    else Filed(entries, owner, models[..|models| - 1])[models[|models| - 1].table := Registered(owner, models[|models| - 1])]
  }

  /** Valid models of tables nobody has, none twice. */
  ghost predicate Acceptable(entries: Entries, models: seq<Model>)
  {
    && (forall m :: m in models ==> ValidModel(m) && m.table !in entries)
    && (forall i, j :: 0 <= i < j < |models| ==> models[i].table != models[j].table)
  }

  /** Why this model is refused next to these entries. */
  ghost predicate RefusedFor(fault: Error, m: Model, entries: Entries)
  {
    if !ValidModel(m) then
      fault == if !Blank(m.table) && exists i :: 0 <= i < |m.fields| && Faulty(m.fields, i) then InvalidField else InvalidModel
    else m.table in entries && fault == DuplicateTable
  }

  lemma {:induction false} FiledIs(entries: Entries, owner: string, models: seq<Model>)
    ensures forall t :: t in Filed(entries, owner, models) <==> t in entries || exists m :: m in models && m.table == t
    ensures forall t :: t in entries && (forall m :: m in models ==> m.table != t) ==> Filed(entries, owner, models)[t] == entries[t]
  {
    if models != [] {
      FiledIs(entries, owner, models[..|models| - 1]);
      assert models == models[..|models| - 1] + [models[|models| - 1]];
    }
  }

  lemma {:induction false} FiledEntry(entries: Entries, owner: string, models: seq<Model>, i: nat)
    requires Acceptable(entries, models) && i < |models|
    ensures models[i].table in Filed(entries, owner, models) && Filed(entries, owner, models)[models[i].table] == Registered(owner, models[i])
  {
    var front := models[..|models| - 1];
    if i < |front| {
      assert forall m :: m in front ==> m in models;
      FiledEntry(entries, owner, front, i);
    }
  }

  lemma AcceptedEitherWay(entries: Entries, one: string, ones: seq<Model>, two: string, twos: seq<Model>)
    requires Acceptable(entries, ones) && Acceptable(Filed(entries, one, ones), twos)
    ensures Acceptable(entries, twos) && Acceptable(Filed(entries, two, twos), ones)
  {
    FiledIs(entries, one, ones);
    FiledIs(entries, two, twos);
  }

  lemma FiledTables(entries: Entries, one: string, ones: seq<Model>, two: string, twos: seq<Model>, t: string)
    ensures t in Filed(Filed(entries, one, ones), two, twos)
            <==> t in entries || (exists m :: m in ones && m.table == t) || (exists m :: m in twos && m.table == t)
  {
    FiledIs(entries, one, ones);
    FiledIs(Filed(entries, one, ones), two, twos);
  }

  /** Which module registers first makes no difference: both orders are accepted together and file the same entries. */
  lemma RegistrationCommutes(entries: Entries, one: string, ones: seq<Model>, two: string, twos: seq<Model>)
    requires Acceptable(entries, ones) && Acceptable(Filed(entries, one, ones), twos)
    ensures Acceptable(entries, twos) && Acceptable(Filed(entries, two, twos), ones)
    ensures Filed(Filed(entries, one, ones), two, twos) == Filed(Filed(entries, two, twos), one, ones)
  {
    AcceptedEitherWay(entries, one, ones, two, twos);
    var a, b := Filed(Filed(entries, one, ones), two, twos), Filed(Filed(entries, two, twos), one, ones);
    forall t ensures t in a <==> t in b {
      FiledTables(entries, one, ones, two, twos, t);
      FiledTables(entries, two, twos, one, ones, t);
    }
    forall t | t in a ensures a[t] == b[t] {
      SameEntry(entries, one, ones, two, twos, t);
    }
  }

  lemma SameEntry(entries: Entries, one: string, ones: seq<Model>, two: string, twos: seq<Model>, t: string)
    requires Acceptable(entries, ones) && Acceptable(Filed(entries, one, ones), twos)
    requires Acceptable(entries, twos) && Acceptable(Filed(entries, two, twos), ones)
    requires t in Filed(Filed(entries, one, ones), two, twos)
    ensures t in Filed(Filed(entries, two, twos), one, ones)
    ensures Filed(Filed(entries, one, ones), two, twos)[t] == Filed(Filed(entries, two, twos), one, ones)[t]
  {
    FiledTables(entries, one, ones, two, twos, t);
    FiledTables(entries, two, twos, one, ones, t);
    if exists m :: m in twos && m.table == t {
      SecondEntry(entries, one, ones, two, twos, t);
    } else if exists m :: m in ones && m.table == t {
      SecondEntry(entries, two, twos, one, ones, t);
    } else {
      UntouchedEntry(entries, one, ones, two, twos, t);
      UntouchedEntry(entries, two, twos, one, ones, t);
    }
  }

  /** A table of the second module: filed last, or filed first and left alone. */
  lemma SecondEntry(entries: Entries, one: string, ones: seq<Model>, two: string, twos: seq<Model>, t: string)
    requires Acceptable(entries, twos) && Acceptable(Filed(entries, one, ones), twos) && Acceptable(Filed(entries, two, twos), ones)
    requires exists m :: m in twos && m.table == t
    ensures t in Filed(Filed(entries, one, ones), two, twos) && t in Filed(Filed(entries, two, twos), one, ones)
    ensures Filed(Filed(entries, one, ones), two, twos)[t] == Filed(Filed(entries, two, twos), one, ones)[t]
  {
    var i :| 0 <= i < |twos| && twos[i].table == t;
    FiledEntry(Filed(entries, one, ones), two, twos, i);
    FiledEntry(entries, two, twos, i);
    FiledIs(Filed(entries, two, twos), one, ones);
  }

  lemma UntouchedEntry(entries: Entries, one: string, ones: seq<Model>, two: string, twos: seq<Model>, t: string)
    requires t in entries && (forall m :: m in ones ==> m.table != t) && (forall m :: m in twos ==> m.table != t)
    ensures t in Filed(Filed(entries, one, ones), two, twos) && Filed(Filed(entries, one, ones), two, twos)[t] == entries[t]
  {
    FiledIs(entries, one, ones);
    FiledIs(Filed(entries, one, ones), two, twos);
  }

  /** The entries' models, ascending by table. */
  ghost predicate Lists(out: seq<Registered>, entries: Entries)
  {
    Ascending(TableKey, out) && forall r :: r in out <==> r.model.table in entries && entries[r.model.table] == r
  }

  /** So the listing is the same whichever of two modules registered first. */
  lemma ModelsDetermined(entries: Entries, one: string, ones: seq<Model>, two: string, twos: seq<Model>, a: seq<Registered>, b: seq<Registered>)
    requires Acceptable(entries, ones) && Acceptable(Filed(entries, one, ones), twos)
    requires Lists(a, Filed(Filed(entries, one, ones), two, twos)) && Lists(b, Filed(Filed(entries, two, twos), one, ones))
    ensures a == b
  {
    RegistrationCommutes(entries, one, ones, two, twos);
    AscendingUnique(TableKey, a, b);
  }

  class Registry {
    var byTable: Entries

    /** Every entry is a valid model filed under its own table. */
    predicate Sound()
      reads this
    {
      forall t :: t in byTable ==> byTable[t].model.table == t && ValidModel(byTable[t].model)
    }

    constructor ()
      ensures byTable == map[] && Sound()
    {
      byTable := map[];
    }

    /**
      Files models until the first it refuses, with that model's own fault; the ones before it stay.
      It refuses none exactly when all are acceptable together.
      */
    method Register(owner: string, models: seq<Model>) returns (fault: Option<Error>, ghost k: nat)
      requires Sound()
      modifies this
      ensures Sound() && k <= |models| && byTable == Filed(old(byTable), owner, models[..k]) && Acceptable(old(byTable), models[..k])
      ensures fault.None? <==> k == |models|
      ensures fault.Some? ==> RefusedFor(fault.value, models[k], byTable)
      ensures fault.None? <==> Acceptable(old(byTable), models)
    {
      k := 0;
      for i := 0 to |models|
        invariant k == i && Sound() && byTable == Filed(old(byTable), owner, models[..i]) && Acceptable(old(byTable), models[..i])
      {
        FiledIs(old(byTable), owner, models[..i]);
        var bad := Validate(models[i]);
        if bad.Some? {
          assert models[i] in models;
          return bad, i;
        }
        if models[i].table in byTable {
          TakenTable(old(byTable), models, i);
          return Some(DuplicateTable), i;
        }
        OneMoreModel(old(byTable), models, i);
        assert models[..i + 1][..i] == models[..i];
        byTable := byTable[models[i].table := Registered(owner, models[i])];
        k := i + 1;
      }
      assert models[..|models|] == models;
      return None, k;
    }

    /** Sorted by table, and fit to be a snapshot. */
    method Models() returns (out: seq<Registered>)
      requires Sound()
      ensures Lists(out, byTable) && Admissible(out)
    {
      out := [];
      var tables := byTable.Keys;
      while tables != {}
        invariant tables <= byTable.Keys
        invariant forall r :: r in out <==> r.model.table in byTable && byTable[r.model.table] == r && r.model.table !in tables
        invariant DistinctKeys(TableKey, out)
      {
        var t :| t in tables;
        tables := tables - {t};
        out := out + [byTable[t]];
      }
      SortAscending(TableKey, out);
      SortMembers(TableKey, out);
      out := Sort(TableKey, out);
      SortedAdmissible(out);
    }
  }

  lemma TakenTable(entries: Entries, models: seq<Model>, i: nat)
    requires i < |models| && (models[i].table in entries || exists m :: m in models[..i] && m.table == models[i].table)
    ensures !Acceptable(entries, models)
  {
    assert models[i] in models;
    if exists m :: m in models[..i] && m.table == models[i].table {
      var j :| 0 <= j < i && models[j].table == models[i].table;
    }
  }

  lemma OneMoreModel(entries: Entries, models: seq<Model>, i: nat)
    requires i < |models| && Acceptable(entries, models[..i]) && ValidModel(models[i])
    requires models[i].table !in entries && forall m :: m in models[..i] ==> m.table != models[i].table
    ensures Acceptable(entries, models[..i + 1])
  {
    var more := models[..i + 1];
    forall a, b | 0 <= a < b < |more| ensures more[a].table != more[b].table {
      assert more[a] == models[..i][a] && models[..i][a] in models[..i];
      assert b < i ==> more[b] == models[..i][b];
    }
  }

  lemma SortedAdmissible(out: seq<Registered>)
    requires Ascending(TableKey, out) && forall r :: r in out ==> ValidModel(r.model)
    ensures Admissible(out)
  {
    forall i | 0 <= i < |out| ensures ValidModel(out[i].model) && !Claims(out[..i], out[i].model.table) {
      assert out[i] in out;
      forall j | 0 <= j < i ensures out[j].model.table != out[i].model.table {
        assert KeyLess(TableKey(out[j]), TableKey(out[i]));
        LessIrreflexive(out[i].model.table);
      }
    }
  }
}
