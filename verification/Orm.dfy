/** Model metadata (orm/orm.go) and the recorded schema (orm/state.go). */
module Orm {
  import opened Wrappers
  import opened Text

  /** Go's Type is an open string: Other stands for anything outside the vocabulary. */
  datatype Type = TString | TInt | TInt64 | TFloat | TBool | TTime | TBytes | Other(text: string)

  datatype Field = Field(name: string, typ: Type, maxLen: int,
                         nullable: bool, primaryKey: bool, unique: bool, index: bool)

  datatype Model = Model(table: string, fields: seq<Field>)

  datatype Registered = Registered(owner: string, model: Model)

  /** Models sorted by table. */
  datatype Snapshot = Snapshot(models: seq<Registered>)

  datatype Error = InvalidModel | InvalidField | DuplicateTable | BadState | BadSteps

  type Cols = map<string, Field>
  type Schema = map<string, Cols>

  predicate ValidField(f: Field)
  {
    && !Blank(f.name)
    && !f.typ.Other?
    && (f.maxLen != 0 ==> f.typ == TString)
    && f.maxLen >= 0
    && !(f.primaryKey && (f.nullable || f.unique || f.index))
    && !(f.unique && f.index)
  }

  /** Field i is one validate stops at: malformed, or a name declared before. */
  predicate Faulty(fields: seq<Field>, i: nat)
    requires i < |fields|
  {
    !ValidField(fields[i]) || exists j :: 0 <= j < i && fields[j].name == fields[i].name
  }

  function KeyCount(fields: seq<Field>): nat
  {
    if fields == [] then 0
    else KeyCount(fields[..|fields| - 1]) + if fields[|fields| - 1].primaryKey then 1 else 0
  }

  predicate ValidModel(m: Model)
  {
    && !Blank(m.table)
    && m.fields != []
    && (forall i :: 0 <= i < |m.fields| ==> !Faulty(m.fields, i))
    && KeyCount(m.fields) == 1
  }

  /** validate in orm.go: None accepts; otherwise the sentinel of the first rule broken. */
  method Validate(m: Model) returns (fault: Option<Error>)
    ensures fault == None <==> ValidModel(m)
    ensures fault == Some(InvalidField) <==>
              !Blank(m.table) && exists i :: 0 <= i < |m.fields| && Faulty(m.fields, i)
    ensures fault.Some? ==> fault.value == InvalidField || fault.value == InvalidModel
  {
    if Blank(m.table) {
      return Some(InvalidModel);
    }
    if |m.fields| == 0 {
      return Some(InvalidModel);
    }
    var seen: set<string> := {};
    var primaries := 0;
    for i := 0 to |m.fields|
      invariant seen == set j | 0 <= j < i :: m.fields[j].name
      invariant primaries == KeyCount(m.fields[..i])
      invariant forall j :: 0 <= j < i ==> !Faulty(m.fields, j)
    {
      var f := m.fields[i];
      if Blank(f.name) || f.typ.Other? || f.name in seen
         || (f.maxLen != 0 && f.typ != TString) || f.maxLen < 0
         || (f.primaryKey && f.nullable) || (f.primaryKey && f.unique) || (f.primaryKey && f.index)
         || (f.unique && f.index)
      {
        assert Faulty(m.fields, i);
        return Some(InvalidField);
      }
      seen := seen + {f.name};
      if f.primaryKey {
        primaries := primaries + 1;
      }
      assert m.fields[..i + 1][..i] == m.fields[..i];
    }
    assert m.fields[..|m.fields|] == m.fields;
    if primaries != 1 {
      return Some(InvalidModel);
    }
    return None;
  }

  /** indexFields in migratediff.go: a later field of the same name would win. */
  function IndexFields(fields: seq<Field>): Cols
  {
    if fields == [] then map[]
    else var f := fields[|fields| - 1]; IndexFields(fields[..|fields| - 1])[f.name := f]
  }

  /** What one table of a valid schema looks like, with declared order forgotten. */
  ghost predicate ValidCols(cols: Cols)
  {
    && (forall c :: c in cols ==> cols[c].name == c && ValidField(cols[c]))
    && (forall c, d :: c in cols && d in cols && cols[c].primaryKey && cols[d].primaryKey ==> c == d)
  }

  lemma {:induction false} IndexFieldsExact(fields: seq<Field>)
    requires forall i :: 0 <= i < |fields| ==> !Faulty(fields, i)
    ensures forall i :: 0 <= i < |fields| ==> fields[i].name in IndexFields(fields) && IndexFields(fields)[fields[i].name] == fields[i]
    ensures forall c :: c in IndexFields(fields) ==> exists i :: 0 <= i < |fields| && fields[i].name == c
  {
    if fields != [] {
      var most := fields[..|fields| - 1];
      forall i | 0 <= i < |most| ensures !Faulty(most, i) {
        assert !Faulty(fields, i);
      }
      IndexFieldsExact(most);
      var f := fields[|fields| - 1];
      assert !Faulty(fields, |fields| - 1);
      forall i | 0 <= i < |most| ensures fields[i].name != f.name && fields[i] == most[i] {
      }
      forall c | c in IndexFields(fields) ensures exists i :: 0 <= i < |fields| && fields[i].name == c {
        if c != f.name {
          var i :| 0 <= i < |most| && most[i].name == c;
          assert fields[i].name == c;
        }
      }
    }
  }

  lemma {:induction false} KeyCountPositive(fields: seq<Field>, i: nat)
    requires i < |fields| && fields[i].primaryKey
    ensures KeyCount(fields) >= 1
    ensures forall j :: 0 <= j < |fields| && j != i && fields[j].primaryKey ==> KeyCount(fields) >= 2
  {
    var n := |fields| - 1;
    if i < n {
      KeyCountPositive(fields[..n], i);
    } else {
      forall j | 0 <= j < n && fields[j].primaryKey ensures KeyCount(fields) >= 2 {
        KeyCountPositive(fields[..n], j);
      }
    }
  }

  lemma ValidModelCols(m: Model)
    requires ValidModel(m)
    ensures ValidCols(IndexFields(m.fields))
  {
    IndexFieldsExact(m.fields);
    var cols := IndexFields(m.fields);
    forall c | c in cols ensures cols[c].name == c && ValidField(cols[c]) {
      var i :| 0 <= i < |m.fields| && m.fields[i].name == c;
      assert !Faulty(m.fields, i);
    }
    forall c, d | c in cols && d in cols && cols[c].primaryKey && cols[d].primaryKey ensures c == d {
      var i :| 0 <= i < |m.fields| && m.fields[i].name == c;
      var j :| 0 <= j < |m.fields| && m.fields[j].name == d;
      KeyCountPositive(m.fields, i);
      assert j == i;
    }
  }

  // ---------------------------------------------------------------- snapshots

  function TableKey(r: Registered): Key
  {
    Key(0, r.model.table)
  }

  predicate Claims(models: seq<Registered>, table: string)
  {
    exists i :: 0 <= i < |models| && models[i].model.table == table
  }

  /** What every snapshot the package hands out satisfies. */
  ghost predicate ValidSnapshot(s: Snapshot)
  {
    && (forall i :: 0 <= i < |s.models| ==> ValidModel(s.models[i].model))
    && Ascending(TableKey, s.models)
  }

  /** index in migratediff.go, down to each table's columns. */
  function SchemaOf(models: seq<Registered>): Schema
  {
    if models == [] then map[]
    else
      var r := models[|models| - 1];
      SchemaOf(models[..|models| - 1])[r.model.table := IndexFields(r.model.fields)]
  }

  ghost predicate DistinctTables(models: seq<Registered>)
  {
    forall i, j :: 0 <= i < j < |models| ==> models[i].model.table != models[j].model.table
  }

  lemma SnapshotDistinct(s: Snapshot)
    requires ValidSnapshot(s)
    ensures DistinctTables(s.models)
  {
    forall i, j | 0 <= i < j < |s.models| ensures s.models[i].model.table != s.models[j].model.table {
      assert KeyLess(TableKey(s.models[i]), TableKey(s.models[j]));
      LessIrreflexive(s.models[i].model.table);
    }
  }

  lemma {:induction false} SchemaOfExact(models: seq<Registered>)
    requires DistinctTables(models)
    ensures forall i :: 0 <= i < |models| ==> models[i].model.table in SchemaOf(models)
    ensures forall i :: 0 <= i < |models| ==> SchemaOf(models)[models[i].model.table] == IndexFields(models[i].model.fields)
    ensures forall t :: t in SchemaOf(models) <==> Claims(models, t)
  {
    if models != [] {
      var most := models[..|models| - 1];
      SchemaOfExact(most);
      forall i | 0 <= i < |most| ensures models[i] == most[i] && models[i].model.table != models[|models| - 1].model.table {
      }
      forall t ensures t in SchemaOf(models) <==> Claims(models, t) {
        if Claims(models, t) && t != models[|models| - 1].model.table {
          var i :| 0 <= i < |models| && models[i].model.table == t;
          assert most[i].model.table == t;
        }
        if Claims(most, t) {
          var i :| 0 <= i < |most| && most[i].model.table == t;
          assert models[i].model.table == t;
        }
      }
    }
  }

  /** Models a state may not hold: invalid, or a table claimed before. */
  predicate Admissible(models: seq<Registered>)
  {
    forall i :: 0 <= i < |models| ==>
      ValidModel(models[i].model) && !Claims(models[..i], models[i].model.table)
  }

  lemma AdmissibleDistinct(models: seq<Registered>)
    requires Admissible(models)
    ensures DistinctTables(models) && DistinctKeys(TableKey, models)
  {
    forall i, j | 0 <= i < j < |models| ensures models[i].model.table != models[j].model.table {
      assert models[..j][i] == models[i];
      assert !Claims(models[..j], models[j].model.table);
    }
  }

  lemma ValidSnapshotAdmissible(s: Snapshot)
    requires ValidSnapshot(s)
    ensures Admissible(s.models)
  {
    SnapshotDistinct(s);
  }

  /** NewSnapshot in state.go. */
  method NewSnapshot(models: seq<Registered>) returns (r: Result<Snapshot, Error>)
    ensures r.Ok? <==> Admissible(models)
    ensures r.Ok? ==> r.value == Snapshot(Sort(TableKey, models)) && ValidSnapshot(r.value)
  {
    var out: seq<Registered> := [];
    for i := 0 to |models|
      invariant out == models[..i]
      invariant forall j :: 0 <= j < i ==> ValidModel(models[j].model) && !Claims(models[..j], models[j].model.table)
    {
      var fault := Validate(models[i].model);
      if fault.Some? {
        return Err(fault.value);
      }
      var dup := FindByTable(out, models[i].model.table);
      if dup.Some? {
        return Err(DuplicateTable);
      }
      out := out + [models[i]];
    }
    assert out == models;
    SortedSnapshot(models);
    return Ok(Snapshot(Sort(TableKey, out)));
  }

  method FindByTable(models: seq<Registered>, table: string) returns (found: Option<Registered>)
    ensures found.Some? <==> Claims(models, table)
    ensures found.Some? ==> found.value in models && found.value.model.table == table
  {
    for i := 0 to |models|
      invariant forall j :: 0 <= j < i ==> models[j].model.table != table
    {
      if models[i].model.table == table {
        return Some(models[i]);
      }
    }
    return None;
  }

  lemma SortedSnapshot(models: seq<Registered>)
    requires Admissible(models)
    ensures ValidSnapshot(Snapshot(Sort(TableKey, models)))
    ensures SchemaOf(Sort(TableKey, models)) == SchemaOf(models)
  {
    AdmissibleDistinct(models);
    SortAscending(TableKey, models);
    SortMembers(TableKey, models);
    var sorted := Sort(TableKey, models);
    forall i | 0 <= i < |sorted| ensures ValidModel(sorted[i].model) {
      assert sorted[i] in models;
    }
    SnapshotDistinct(Snapshot(sorted));
    SameModelsSameSchema(sorted, models);
  }

  /** Order of the models does not reach the schema. */
  lemma SameModelsSameSchema(a: seq<Registered>, b: seq<Registered>)
    requires DistinctTables(a) && DistinctTables(b)
    requires forall r :: r in a <==> r in b
    ensures SchemaOf(a) == SchemaOf(b)
  {
    SchemaOfExact(a);
    SchemaOfExact(b);
    forall t ensures t in SchemaOf(a) <==> t in SchemaOf(b) {
      if Claims(a, t) {
        var i :| 0 <= i < |a| && a[i].model.table == t;
        assert a[i] in b;
      }
      if Claims(b, t) {
        var i :| 0 <= i < |b| && b[i].model.table == t;
        assert b[i] in a;
      }
    }
    forall t | t in SchemaOf(a) ensures SchemaOf(a)[t] == SchemaOf(b)[t] {
      var i :| 0 <= i < |a| && a[i].model.table == t;
      assert a[i] in b;
      var j :| 0 <= j < |b| && b[j] == a[i];
    }
  }

  // ------------------------------------------------------------ wire records

  /** wireState: the record the JSON carries, field for field. Version 0 is unversioned state. */
  datatype Wire = Wire(v: int, models: seq<Registered>)

  const STATE_FORMAT_VERSION := 1

  function Encode(s: Snapshot): Wire
  {
    Wire(STATE_FORMAT_VERSION, s.models)
  }

  /** Unversioned state decodes every non-key column as nullable. */
  function LegacyField(f: Field): Field
  {
    if f.primaryKey then f else f.(nullable := true)
  }

  function DecodedFields(legacy: bool, fields: seq<Field>): seq<Field>
  {
    seq(|fields|, i requires 0 <= i < |fields| => if legacy then LegacyField(fields[i]) else fields[i])
  }

  function Decoded(legacy: bool, r: Registered): Registered
  {
    Registered(r.owner, Model(r.model.table, DecodedFields(legacy, r.model.fields)))
  }

  function DecodedAll(w: Wire): seq<Registered>
  {
    seq(|w.models|, i requires 0 <= i < |w.models| => Decoded(w.v == 0, w.models[i]))
  }

  method DecodeModel(legacy: bool, wm: Registered) returns (reg: Registered)
    ensures reg == Decoded(legacy, wm)
  {
    var fields: seq<Field> := [];
    for k := 0 to |wm.model.fields|
      invariant fields == DecodedFields(legacy, wm.model.fields)[..k]
    {
      var f := wm.model.fields[k];
      if legacy && !f.primaryKey {
        f := f.(nullable := true);
      }
      fields := fields + [f];
    }
    return Registered(wm.owner, Model(wm.model.table, fields));
  }

  /** ParseSnapshot in state.go, from the decoded record on: every refusal is ErrBadState. */
  method ParseSnapshot(w: Wire) returns (r: Result<Snapshot, Error>)
    ensures r.Ok? <==> (w.v == 0 || w.v == STATE_FORMAT_VERSION) && Admissible(DecodedAll(w))
    ensures r.Ok? ==> r.value == Snapshot(Sort(TableKey, DecodedAll(w))) && ValidSnapshot(r.value)
    ensures r.Err? ==> r.error == BadState
  {
    var legacy := w.v == 0;
    if !legacy && w.v != STATE_FORMAT_VERSION {
      return Err(BadState);
    }
    var out: seq<Registered> := [];
    ghost var all := DecodedAll(w);
    for i := 0 to |w.models|
      invariant out == all[..i]
      invariant forall j :: 0 <= j < i ==> ValidModel(all[j].model) && !Claims(all[..j], all[j].model.table)
    {
      var reg := DecodeModel(legacy, w.models[i]);
      assert reg == all[i];
      var fault := Validate(reg.model);
      if fault.Some? {
        return Err(BadState);
      }
      var dup := FindByTable(out, reg.model.table);
      if dup.Some? {
        return Err(BadState);
      }
      out := out + [reg];
    }
    assert out == all;
    SortedSnapshot(out);
    return Ok(Snapshot(Sort(TableKey, out)));
  }

  /** Every snapshot survives the recorded format unchanged, owners and column order included. */
  lemma EncodeRoundTrip(s: Snapshot)
    requires ValidSnapshot(s)
    ensures Admissible(DecodedAll(Encode(s)))
    ensures Snapshot(Sort(TableKey, DecodedAll(Encode(s)))) == s
  {
    forall i | 0 <= i < |s.models| ensures Decoded(false, s.models[i]) == s.models[i] {
      assert DecodedFields(false, s.models[i].model.fields) == s.models[i].model.fields;
    }
    assert DecodedAll(Encode(s)) == s.models;
    ValidSnapshotAdmissible(s);
    SortFixed(TableKey, s.models);
  }

  // ------------------------------------------------------------------ replay

  datatype StateStep = StateStep(version: string, state: Option<Snapshot>)

  /** Versions are present and strictly ascend. */
  ghost predicate UsableSteps(steps: seq<StateStep>)
  {
    && (forall i :: 0 <= i < |steps| ==> steps[i].version != "")
    && (forall i :: 0 < i < |steps| ==> Less(steps[i - 1].version, steps[i].version))
  }

  /** The latest recorded state, carried forward through hand-written steps. */
  function LastState(steps: seq<StateStep>): Snapshot
  {
    if steps == [] then Snapshot([])
    else match steps[|steps| - 1].state
      case Some(s) => s
      case None => LastState(steps[..|steps| - 1])
  }

  /** ReplayState in state.go. */
  method ReplayState(steps: seq<StateStep>) returns (r: Result<Snapshot, Error>)
    ensures r.Ok? <==> UsableSteps(steps)
    ensures r.Ok? ==> r.value == LastState(steps)
    ensures r.Err? ==> r.error == BadSteps
  {
    var cur: seq<Registered> := [];
    var prev := "";
    for i := 0 to |steps|
      invariant prev == if i == 0 then "" else steps[i - 1].version
      invariant UsableSteps(steps[..i])
      invariant Snapshot(cur) == LastState(steps[..i])
    {
      var step := steps[i];
      if step.version == "" {
        return Err(BadSteps);
      }
      if prev != "" {
        if step.version == prev {
          LessIrreflexive(prev);
          return Err(BadSteps);
        }
        if Less(step.version, prev) {
          if Less(prev, step.version) {
            LessTransitive(prev, step.version, prev);
            LessIrreflexive(prev);
          }
          return Err(BadSteps);
        }
        LessTotal(prev, step.version);
      }
      prev := step.version;
      if step.state.Some? {
        cur := step.state.value.models;
      }
      assert steps[..i + 1][..i] == steps[..i];
    }
    assert steps[..|steps|] == steps;
    return Ok(Snapshot(cur));
  }
}
