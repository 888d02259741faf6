/** The only interactive part of schema detection: resolveRenames in makemigrations.go. */
module Renames {
  import opened Wrappers
  import opened Text
  import opened Orm
  import opened Operations
  import opened Differ
  import opened Alterations
  import opened DiffSoundness
  import opened Rollback

  /** One line typed at the prompt; the stream ending is end of input. */
  datatype Line = Yes | No | Other

  datatype RenameError = NeedsAnswer | StaleName

  /** A compatible drop/add pair: two list positions, the rename it would become, the recorded field. */
  datatype Candidate = Candidate(drop: nat, add: nat, table: string, from: string, to: string, field: Field)
  {
    function Op(): Op { RenameColumn(table, from, to) }
  }

  // ------------------------------------------------------- the specification

  /** The candidate that operations i and j make, if they make one. */
  function PairAt(ops: seq<Op>, before: Snapshot, after: Snapshot, i: nat, j: nat): seq<Candidate>
    requires i < |ops| && j < |ops|
  {
    if !ops[i].DropColumn? || !ops[j].AddColumn? || ops[j].table != ops[i].table then []
    else
      var was := SnapshotField(before, ops[i].table, ops[i].column);
      if was.None? || !RenameCompatible(was.value, ops[j].field)
         || SnapshotField(after, ops[j].table, ops[j].field.name).None? then []
      else [Candidate(i, j, ops[i].table, ops[i].column, ops[j].field.name, was.value)]
  }

  function PairsOf(ops: seq<Op>, before: Snapshot, after: Snapshot, i: nat, j: nat): seq<Candidate>
    requires i < |ops| && j <= |ops|
  {
    if j == 0 then [] else PairsOf(ops, before, after, i, j - 1) + PairAt(ops, before, after, i, j - 1)
  }

  /** Every compatible pair among the first i drops, drops first, then adds, in list order. */
  function Candidates(ops: seq<Op>, before: Snapshot, after: Snapshot, i: nat): seq<Candidate>
    requires i <= |ops|
  {
    if i == 0 then [] else Candidates(ops, before, after, i - 1) + PairsOf(ops, before, after, i - 1, |ops|)
  }

  /** askRename: unusable answers are asked again, the end of input declines. */
  function Ask(lines: seq<Line>): (bool, seq<Line>)
  {
    if lines == [] then (false, [])
    else match lines[0]
      case Yes => (true, lines[1..])
      case No => (false, lines[1..])
      case Other => Ask(lines[1..])
  }

  predicate Taken(chosen: seq<Candidate>, index: nat)
  {
    exists c :: c in chosen && (c.drop == index || c.add == index)
  }

  predicate Constrained(f: Field)
  {
    f.primaryKey || f.unique || f.index
  }

  /** The confirmed candidates: each asked once, in order, unless its drop or add is spoken for. */
  function Confirm(candidates: seq<Candidate>, lines: seq<Line>, chosen: seq<Candidate>): Result<seq<Candidate>, RenameError>
    decreases |candidates|
  {
    if candidates == [] then Ok(chosen)
    else
      var c := candidates[0];
      if Taken(chosen, c.drop) || Taken(chosen, c.add) then Confirm(candidates[1..], lines, chosen)
      else
        var (yes, rest) := Ask(lines);
        if !yes then Confirm(candidates[1..], rest, chosen)
        else if Constrained(c.field) then Err(StaleName)
        else Confirm(candidates[1..], rest, chosen + [c])
  }

  /** The pairs the user is asked about: those whose ends are both free at their turn, up to a refusal. */
  function Questions(candidates: seq<Candidate>, lines: seq<Line>, chosen: seq<Candidate>): seq<Candidate>
    decreases |candidates|
  {
    if candidates == [] then []
    else
      var c := candidates[0];
      if Taken(chosen, c.drop) || Taken(chosen, c.add) then Questions(candidates[1..], lines, chosen)
      else
        var (yes, rest) := Ask(lines);
        [c] + if !yes then Questions(candidates[1..], rest, chosen)
              else if Constrained(c.field) then []
              else Questions(candidates[1..], rest, chosen + [c])
  }

  function RenameAt(chosen: seq<Candidate>, index: nat): seq<Op>
  {
    if chosen == [] then []
    else if chosen[|chosen| - 1].drop == index then [chosen[|chosen| - 1].Op()]
    else RenameAt(chosen[..|chosen| - 1], index)
  }

  /** The list from index i on, with the confirmed pairs merged. */
  function Merge(ops: seq<Op>, chosen: seq<Candidate>, i: nat): seq<Op>
    requires i <= |ops|
    decreases |ops| - i
  {
    if i == |ops| then []
    else
      (if RenameAt(chosen, i) != [] then RenameAt(chosen, i) else if Taken(chosen, i) then [] else [ops[i]])
      + Merge(ops, chosen, i + 1)
  }

  /** The outcome of a whole session at the prompt. */
  function Resolution(ops: seq<Op>, before: Snapshot, after: Snapshot, lines: seq<Line>, interactive: bool): Result<seq<Candidate>, RenameError>
  {
    var candidates := Candidates(ops, before, after, |ops|);
    if candidates == [] then Ok([])
    else if !interactive then Err(NeedsAnswer)
    else Confirm(candidates, lines, [])
  }

  /** The list after the session, or why there is none. */
  function Resolved(ops: seq<Op>, before: Snapshot, after: Snapshot, lines: seq<Line>, interactive: bool): Result<seq<Op>, RenameError>
  {
    match Resolution(ops, before, after, lines, interactive)
    case Ok(chosen) => Ok(Merge(ops, chosen, 0))
    case Err(e) => Err(e)
  }

  // ------------------------------------------------------------------ the code

  /** A compatible pair: a drop and an add of one table in the list, of fields alike in everything but the name. */
  ghost predicate IsCandidate(ops: seq<Op>, before: Snapshot, after: Snapshot, c: Candidate)
  {
    FromList(ops, before, c) && SnapshotField(after, c.table, c.to).Some?
  }

  predicate Before(c: Candidate, d: Candidate)
  {
    c.drop < d.drop || (c.drop == d.drop && c.add < d.add)
  }

  ghost predicate InOrder(candidates: seq<Candidate>)
  {
    forall x, y :: 0 <= x < y < |candidates| ==> Before(candidates[x], candidates[y])
  }

  lemma {:induction false} PairsExact(ops: seq<Op>, before: Snapshot, after: Snapshot, i: nat, j: nat)
    requires i < |ops| && j <= |ops|
    ensures forall c :: c in PairsOf(ops, before, after, i, j) <==> c.drop == i && c.add < j && IsCandidate(ops, before, after, c)
    ensures InOrder(PairsOf(ops, before, after, i, j))
  {
    if j > 0 {
      PairsExact(ops, before, after, i, j - 1);
    }
  }

  lemma {:induction false} CandidatesExact(ops: seq<Op>, before: Snapshot, after: Snapshot, i: nat)
    requires i <= |ops|
    ensures forall c :: c in Candidates(ops, before, after, i) <==> c.drop < i && IsCandidate(ops, before, after, c)
    ensures InOrder(Candidates(ops, before, after, i))
  {
    if i > 0 {
      CandidatesExact(ops, before, after, i - 1);
      PairsExact(ops, before, after, i - 1, |ops|);
    }
  }

  method FindCandidates(ops: seq<Op>, before: Snapshot, after: Snapshot) returns (candidates: seq<Candidate>)
    ensures candidates == Candidates(ops, before, after, |ops|)
    ensures forall c :: c in candidates <==> IsCandidate(ops, before, after, c)
    ensures InOrder(candidates)
  {
    candidates := [];
    for i := 0 to |ops|
      invariant candidates == Candidates(ops, before, after, i)
    {
      ghost var base := candidates;
      for j := 0 to |ops|
        invariant candidates == base + PairsOf(ops, before, after, i, j)
      {
        candidates := candidates + PairAt(ops, before, after, i, j);
      }
    }
    CandidatesExact(ops, before, after, |ops|);
  }

  method AskRename(lines: seq<Line>) returns (yes: bool, rest: seq<Line>)
    ensures (yes, rest) == Ask(lines)
  {
    rest := lines;
    while rest != []
      invariant Ask(rest) == Ask(lines)
      decreases |rest|
    {
      var answer := rest[0];
      rest := rest[1..];
      if answer == Yes {
        return true, rest;
      } else if answer == No {
        return false, rest;
      }
    }
    return false, rest;
  }

  method ResolveRenames(ops: seq<Op>, before: Snapshot, after: Snapshot, lines: seq<Line>, interactive: bool)
    returns (r: Result<seq<Op>, RenameError>, asked: seq<Candidate>)
    ensures r == Resolved(ops, before, after, lines, interactive)
    ensures asked == if interactive then Questions(Candidates(ops, before, after, |ops|), lines, []) else []
  {
    asked := [];
    var candidates := FindCandidates(ops, before, after);
    if candidates == [] {
      NothingMerged(ops, 0);
      return Ok(ops), asked;
    }
    if !interactive {
      return Err(NeedsAnswer), asked;
    }
    var merged;
    merged, asked := AskAll(candidates, lines);
    if merged.None? {
      return Err(StaleName), asked;
    }
    var (replacements, consumed) := merged.value;
    ghost var chosen := Confirm(candidates, lines, []).value;
    var resolved := MergeAll(ops, replacements, consumed, chosen);
    return Ok(resolved), asked;
  }

  /** The loop at the prompt: the confirmed pairs by position, or none at a constrained one, and who was asked about. */
  method AskAll(candidates: seq<Candidate>, lines: seq<Line>) returns (merged: Option<(map<nat, Op>, set<nat>)>, asked: seq<Candidate>)
    ensures asked == Questions(candidates, lines, [])
    ensures merged.None? ==> Confirm(candidates, lines, []) == Err(StaleName)
    ensures merged.Some? ==> Confirm(candidates, lines, []).Ok? && Tracks(merged.value.0, merged.value.1, Confirm(candidates, lines, []).value)
  {
    var replacements: map<nat, Op> := map[];
    var consumed: set<nat> := {};
    var reader := lines;
    asked := [];
    ghost var chosen: seq<Candidate> := [];
    assert candidates[0..] == candidates && asked + Questions(candidates, lines, []) == Questions(candidates, lines, []);
    for k := 0 to |candidates|
      invariant Continues(candidates, lines, candidates[k..], reader, chosen, asked)
      invariant Tracks(replacements, consumed, chosen)
    {
      var c := candidates[k];
      assert candidates[k..][0] == c && candidates[k..][1..] == candidates[k + 1..];
      TurnContinues(candidates, lines, candidates[k..], reader, chosen, asked);
      assert c.drop in consumed <==> Taken(chosen, c.drop);
      assert c.add in consumed <==> Taken(chosen, c.add);
      if !(c.drop in consumed || c.add in consumed) {
        var yes, rest := AskRename(reader);
        reader := rest;
        asked := asked + [c];
        if yes {
          if Constrained(c.field) {
            return None, asked;
          }
          replacements := replacements[c.drop := c.Op()];
          consumed := consumed + {c.drop, c.add};
          TracksOneMore(replacements, consumed, chosen, c);
          chosen := chosen + [c];
        }
      }
    }
    assert candidates[|candidates|..] == [] && asked + [] == asked;
    return Some((replacements, consumed)), asked;
  }

  /** What is still to come completes the session. */
  predicate Continues(candidates: seq<Candidate>, lines: seq<Line>, rest: seq<Candidate>, reader: seq<Line>, chosen: seq<Candidate>, asked: seq<Candidate>)
  {
    && Confirm(rest, reader, chosen) == Confirm(candidates, lines, [])
    && asked + Questions(rest, reader, chosen) == Questions(candidates, lines, [])
  }

  lemma TurnContinues(candidates: seq<Candidate>, lines: seq<Line>, rest: seq<Candidate>, reader: seq<Line>, chosen: seq<Candidate>, asked: seq<Candidate>)
    requires rest != [] && Continues(candidates, lines, rest, reader, chosen, asked)
    ensures var c, yes, left := rest[0], Ask(reader).0, Ask(reader).1;
            if Taken(chosen, c.drop) || Taken(chosen, c.add) then Continues(candidates, lines, rest[1..], reader, chosen, asked)
            else if !yes then Continues(candidates, lines, rest[1..], left, chosen, asked + [c])
            else if Constrained(c.field) then Confirm(candidates, lines, []) == Err(StaleName) && Questions(candidates, lines, []) == asked + [c]
            else Continues(candidates, lines, rest[1..], left, chosen + [c], asked + [c])
  {
    var c, yes, left := rest[0], Ask(reader).0, Ask(reader).1;
    if !Taken(chosen, c.drop) && !Taken(chosen, c.add) {
      var more := if !yes then Questions(rest[1..], left, chosen)
                  else if Constrained(c.field) then [] else Questions(rest[1..], left, chosen + [c]);
      assert Questions(rest, reader, chosen) == [c] + more;
      assert asked + ([c] + more) == (asked + [c]) + more;
    }
  }

  method MergeAll(ops: seq<Op>, replacements: map<nat, Op>, consumed: set<nat>, ghost chosen: seq<Candidate>)
    returns (resolved: seq<Op>)
    requires Tracks(replacements, consumed, chosen)
    ensures resolved == Merge(ops, chosen, 0)
  {
    resolved := [];
    for index := 0 to |ops|
      invariant resolved + Merge(ops, chosen, index) == Merge(ops, chosen, 0)
    {
      assert RenameAt(chosen, index) == if index in replacements then [replacements[index]] else [];
      assert index in consumed <==> Taken(chosen, index);
      var kept := if index in replacements then [replacements[index]] else if index in consumed then [] else [ops[index]];
      assert Merge(ops, chosen, index) == kept + Merge(ops, chosen, index + 1);
      Associative(resolved, kept, Merge(ops, chosen, index + 1));
      resolved := resolved + kept;
    }
    assert resolved == resolved + Merge(ops, chosen, |ops|);
  }

  /** The two working maps hold the same information as the list of confirmed candidates. */
  ghost predicate Tracks(replacements: map<nat, Op>, consumed: set<nat>, chosen: seq<Candidate>)
  {
    && (forall i: nat :: RenameAt(chosen, i) == if i in replacements then [replacements[i]] else [])
    && (forall i: nat :: i in consumed <==> Taken(chosen, i))
  }

  lemma TracksOneMore(replacements: map<nat, Op>, consumed: set<nat>, chosen: seq<Candidate>, c: Candidate)
    requires c.drop in replacements && replacements[c.drop] == c.Op() && c.drop in consumed && c.add in consumed
    requires forall i: nat :: i != c.drop ==> RenameAt(chosen, i) == if i in replacements then [replacements[i]] else []
    requires forall i: nat :: i in consumed <==> i == c.drop || i == c.add || Taken(chosen, i)
    ensures Tracks(replacements, consumed, chosen + [c])
  {
    var more := chosen + [c];
    assert more[..|more| - 1] == chosen;
    forall i: nat ensures Taken(more, i) <==> i == c.drop || i == c.add || Taken(chosen, i) {
      if Taken(chosen, i) {
        var d :| d in chosen && (d.drop == i || d.add == i);
        assert d in more;
      }
      assert c in more;
    }
  }

  lemma {:induction false} NothingMerged(ops: seq<Op>, i: nat)
    requires i <= |ops|
    ensures Merge(ops, [], i) == ops[i..]
    decreases |ops| - i
  {
    if i < |ops| {
      NothingMerged(ops, i + 1);
    }
  }

  // ------------------------------------------- what confirmed candidates look like

  /** Pairs drawn from the list, disjoint from one another, none of them constrained. */
  ghost predicate Sound(ops: seq<Op>, before: Snapshot, chosen: seq<Candidate>)
  {
    && (forall c :: c in chosen ==> FromList(ops, before, c) && !Constrained(c.field))
    && Disjoint(chosen)
  }

  ghost predicate Disjoint(chosen: seq<Candidate>)
  {
    forall c, d :: c in chosen && d in chosen && c != d ==> c.drop != d.drop && c.add != d.add
  }

  ghost predicate Placed(ops: seq<Op>, c: Candidate)
  {
    && c.drop < |ops| && c.add < |ops|
    && ops[c.drop] == DropColumn(c.table, c.from)
    && ops[c.add].AddColumn? && ops[c.add].table == c.table && ops[c.add].field.name == c.to
  }

  ghost predicate FromList(ops: seq<Op>, before: Snapshot, c: Candidate)
  {
    && Placed(ops, c)
    && SnapshotField(before, c.table, c.from) == Some(c.field)
    && RenameCompatible(c.field, ops[c.add].field)
  }

  lemma {:induction false} PairsFromList(ops: seq<Op>, before: Snapshot, after: Snapshot, i: nat, j: nat)
    requires i < |ops| && j <= |ops|
    ensures forall c :: c in PairsOf(ops, before, after, i, j) ==> FromList(ops, before, c)
  {
    if j > 0 {
      PairsFromList(ops, before, after, i, j - 1);
    }
  }

  lemma {:induction false} CandidatesFromList(ops: seq<Op>, before: Snapshot, after: Snapshot, i: nat)
    requires i <= |ops|
    ensures forall c :: c in Candidates(ops, before, after, i) ==> FromList(ops, before, c)
  {
    if i > 0 {
      CandidatesFromList(ops, before, after, i - 1);
      PairsFromList(ops, before, after, i - 1, |ops|);
    }
  }

  lemma {:induction false} ConfirmSound(ops: seq<Op>, before: Snapshot, candidates: seq<Candidate>, lines: seq<Line>, chosen: seq<Candidate>)
    requires forall c :: c in candidates ==> FromList(ops, before, c)
    requires Sound(ops, before, chosen)
    ensures Confirm(candidates, lines, chosen).Ok? ==> Sound(ops, before, Confirm(candidates, lines, chosen).value)
    decreases |candidates|
  {
    if candidates != [] {
      var c := candidates[0];
      var rest := Ask(lines).1;
      ConfirmSound(ops, before, candidates[1..], lines, chosen);
      ConfirmSound(ops, before, candidates[1..], rest, chosen);
      if !Taken(chosen, c.drop) && !Taken(chosen, c.add) && !Constrained(c.field) {
        ConfirmSound(ops, before, candidates[1..], rest, chosen + [c]);
      }
    }
  }

  lemma ResolutionSound(ops: seq<Op>, before: Snapshot, after: Snapshot, lines: seq<Line>, interactive: bool)
    requires Resolution(ops, before, after, lines, interactive).Ok?
    ensures Sound(ops, before, Resolution(ops, before, after, lines, interactive).value)
  {
    CandidatesFromList(ops, before, after, |ops|);
    ConfirmSound(ops, before, Candidates(ops, before, after, |ops|), lines, []);
  }

  // -------------------------------------- from list positions to columns

  function DropRef(c: Candidate): ColRef
  {
    ColRef(c.table, c.from)
  }

  function AddRef(c: Candidate): ColRef
  {
    ColRef(c.table, c.to)
  }

  /** Different confirmed pairs concern different columns. */
  ghost predicate DistinctDrops(chosen: seq<Candidate>)
  {
    forall c, d :: c in chosen && d in chosen && c != d ==> DropRef(c) != DropRef(d)
  }

  ghost predicate DistinctAdds(chosen: seq<Candidate>)
  {
    forall c, d :: c in chosen && d in chosen && c != d ==> AddRef(c) != AddRef(d)
  }

  function ToMap(chosen: seq<Candidate>): map<ColRef, string>
  {
    if chosen == [] then map[] else ToMap(chosen[1..])[DropRef(chosen[0]) := chosen[0].to]
  }

  function FromMap(chosen: seq<Candidate>): map<ColRef, string>
  {
    if chosen == [] then map[] else FromMap(chosen[1..])[AddRef(chosen[0]) := chosen[0].from]
  }

  function RenamingOf(chosen: seq<Candidate>): Renaming
  {
    Renaming(ToMap(chosen), FromMap(chosen))
  }

  lemma {:induction false} ToMapHolds(chosen: seq<Candidate>, c: Candidate)
    requires DistinctDrops(chosen) && c in chosen
    ensures DropRef(c) in ToMap(chosen) && ToMap(chosen)[DropRef(c)] == c.to
  {
    if c != chosen[0] {
      ToMapHolds(chosen[1..], c);
    }
  }

  lemma {:induction false} ToMapOnly(chosen: seq<Candidate>, at: ColRef) returns (c: Candidate)
    requires DistinctDrops(chosen) && at in ToMap(chosen)
    ensures c in chosen && DropRef(c) == at && ToMap(chosen)[at] == c.to
  {
    if at == DropRef(chosen[0]) {
      c := chosen[0];
    } else {
      c := ToMapOnly(chosen[1..], at);
    }
  }

  lemma {:induction false} FromMapHolds(chosen: seq<Candidate>, c: Candidate)
    requires DistinctAdds(chosen) && c in chosen
    ensures AddRef(c) in FromMap(chosen) && FromMap(chosen)[AddRef(c)] == c.from
  {
    if c != chosen[0] {
      FromMapHolds(chosen[1..], c);
    }
  }

  lemma {:induction false} FromMapOnly(chosen: seq<Candidate>, at: ColRef) returns (c: Candidate)
    requires DistinctAdds(chosen) && at in FromMap(chosen)
    ensures c in chosen && AddRef(c) == at && FromMap(chosen)[at] == c.from
  {
    if at == AddRef(chosen[0]) {
      c := chosen[0];
    } else {
      c := FromMapOnly(chosen[1..], at);
    }
  }

  predicate SameAdd(x: Op, y: Op)
  {
    x.AddColumn? && y.AddColumn? && x.table == y.table && x.field.name == y.field.name
  }

  /** No column is dropped twice or added twice. */
  ghost predicate ColumnOpsOnce(ops: seq<Op>)
  {
    && (forall i, j :: 0 <= i < |ops| && 0 <= j < |ops| && ops[i].DropColumn? && ops[j] == ops[i] ==> i == j)
    && (forall i, j :: 0 <= i < |ops| && 0 <= j < |ops| && SameAdd(ops[i], ops[j]) ==> i == j)
  }

  lemma {:induction false} ProjDuplicate(ops: seq<Op>, i: nat, j: nat, t: string)
    requires i < j < |ops| && ops[i] == ops[j] && TableOf(ops[i]) == t
    ensures exists k, l :: 0 <= k < l < |Proj(ops, t)| && Proj(ops, t)[k] == Proj(ops, t)[l] == ops[i]
  {
    if i == 0 {
      ProjMember(ops[1..], j - 1, t);
      var l :| 0 <= l < |Proj(ops[1..], t)| && Proj(ops[1..], t)[l] == ops[j];
      assert Proj(ops, t)[0] == ops[0] && Proj(ops, t)[l + 1] == ops[j];
    } else {
      ProjDuplicate(ops[1..], i - 1, j - 1, t);
      var rest := Proj(ops[1..], t);
      var k, l :| 0 <= k < l < |rest| && rest[k] == rest[l] == ops[i];
      var shift := |Proj(ops, t)| - |rest|;
      assert Proj(ops, t)[k + shift] == rest[k] && Proj(ops, t)[l + shift] == rest[l];
    }
  }

  lemma {:induction false} ProjMember(ops: seq<Op>, i: nat, t: string)
    requires i < |ops| && TableOf(ops[i]) == t
    ensures exists k :: 0 <= k < |Proj(ops, t)| && Proj(ops, t)[k] == ops[i]
  {
    if i == 0 {
      assert Proj(ops, t)[0] == ops[0];
    } else {
      ProjMember(ops[1..], i - 1, t);
      var rest := Proj(ops[1..], t);
      var k :| 0 <= k < |rest| && rest[k] == ops[i];
      assert Proj(ops, t)[k + |Proj(ops, t)| - |rest|] == rest[k];
    }
  }

  /** Column-level drops and adds in Diff's list come from a surviving table and say what they seem to. */
  lemma DiffColumnOps(before: Snapshot, after: Snapshot, op: Op)
    requires ValidSnapshot(before) && ValidSnapshot(after) && op in DiffOps(before, after)
    requires op.DropColumn? || op.AddColumn?
    ensures op.table in SchemaOf(before.models) && op.table in SchemaOf(after.models)
    ensures var b, a := SchemaOf(before.models)[op.table], SchemaOf(after.models)[op.table];
            && (op.DropColumn? ==> op.column in b && op.column !in a)
            && (op.AddColumn? ==> op.field.name in a && op.field.name !in b && op.field == a[op.field.name])
  {
    var ops, t := DiffOps(before, after), op.table;
    var i :| 0 <= i < |ops| && ops[i] == op;
    ProjMember(ops, i, t);
    ProjDiff(before, after, t);
    LookupSchema(before, t);
    LookupSchema(after, t);
    var now, was := Lookup(after.models, t), Lookup(before.models, t);
    assert op in CreateOf(now, was) + AlterOf(now, was) + DropOf(now, was, t);
    assert op in AlterOf(now, was);
    AlterColumnOps(was.value, now.value, op);
  }

  lemma AlterColumnOps(was: Model, now: Model, op: Op)
    requires ValidModel(was) && ValidModel(now) && op in OpsOf(TableAlters(was, now))
    requires op.DropColumn? || op.AddColumn?
    ensures var b, a := IndexFields(was.fields), IndexFields(now.fields);
            && (op.DropColumn? ==> op.column in b && op.column !in a)
            && (op.AddColumn? ==> op.field.name in a && op.field.name !in b && op.field == a[op.field.name])
  {
    TableAltersExact(was, now);
    ValidModelCols(now);
  }

  lemma DiffOpsOnce(before: Snapshot, after: Snapshot, i: nat, j: nat)
    requires ValidSnapshot(before) && ValidSnapshot(after)
    requires i < |DiffOps(before, after)| && j < |DiffOps(before, after)|
    requires DiffOps(before, after)[i] == DiffOps(before, after)[j]
    ensures i == j
  {
    if i != j {
      var ops := DiffOps(before, after);
      var t := TableOf(ops[i]);
      ProjDuplicate(ops, if i < j then i else j, if i < j then j else i, t);
      TableOpsOnce(before, after, t);
    }
  }

  lemma NothingAround(ops: seq<Op>)
    ensures [] + ops + [] == ops
  {
  }

  lemma TableOpsOnce(before: Snapshot, after: Snapshot, t: string)
    requires ValidSnapshot(before) && ValidSnapshot(after)
    ensures Distinct(Proj(DiffOps(before, after), t))
  {
    ProjDiff(before, after, t);
    LookupSchema(before, t);
    LookupSchema(after, t);
    var now, was := Lookup(after.models, t), Lookup(before.models, t);
    if now.Some? && was.Some? {
      AltersOnce(was.value, now.value);
      NothingAround(OpsOf(TableAlters(was.value, now.value)));
    }
  }

  ghost predicate Distinct(ops: seq<Op>)
  {
    forall k, l :: 0 <= k < l < |ops| ==> ops[k] != ops[l]
  }

  lemma AltersOnce(was: Model, now: Model)
    requires ValidModel(was) && ValidModel(now)
    ensures Distinct(OpsOf(TableAlters(was, now)))
  {
    var alters := TableAlters(was, now);
    var b, a := IndexFields(was.fields), IndexFields(now.fields);
    TableAltersExact(was, now);
    ValidModelCols(was);
    ValidModelCols(now);
    forall k, l | 0 <= k < l < |alters| ensures alters[k].op != alters[l].op {
      assert KeyLess(KeyOf(alters[k]), KeyOf(alters[l]));
      LessIrreflexive(alters[k].column);
      SameOpSameKey(now.table, b, a, KeyOf(alters[k]), KeyOf(alters[l]));
    }
  }

  lemma DiffColumnOpsOnce(before: Snapshot, after: Snapshot)
    requires ValidSnapshot(before) && ValidSnapshot(after)
    ensures ColumnOpsOnce(DiffOps(before, after))
  {
    var ops := DiffOps(before, after);
    forall i, j | 0 <= i < |ops| && 0 <= j < |ops| && ops[i] == ops[j] ensures i == j {
      DiffOpsOnce(before, after, i, j);
    }
    forall i, j | 0 <= i < |ops| && 0 <= j < |ops| && SameAdd(ops[i], ops[j]) ensures i == j {
      DiffColumnOps(before, after, ops[i]);
      DiffColumnOps(before, after, ops[j]);
      DiffOpsOnce(before, after, i, j);
    }
  }

  lemma SameOpSameKey(t: string, b: Cols, a: Cols, k: Key, l: Key)
    requires Needed(b, a, k) && Needed(b, a, l) && ValidCols(a) && ValidCols(b)
    ensures OpAt(t, b, a, k) == OpAt(t, b, a, l) ==> k == l
  {
  }

  // -------------------------------------------------------------- main results

  ghost predicate AllPlaced(ops: seq<Op>, chosen: seq<Candidate>)
  {
    forall c :: c in chosen ==> Placed(ops, c)
  }

  /** Distinct positions name distinct columns. */
  lemma DistinctPlaces(ops: seq<Op>, chosen: seq<Candidate>)
    requires ColumnOpsOnce(ops) && AllPlaced(ops, chosen) && Disjoint(chosen)
    ensures DistinctDrops(chosen) && DistinctAdds(chosen)
  {
    forall c, d | c in chosen && d in chosen && c != d ensures DropRef(c) != DropRef(d) {
      OtherPlace(ops, c, d);
    }
    forall c, d | c in chosen && d in chosen && c != d ensures AddRef(c) != AddRef(d) {
      OtherPlace(ops, c, d);
    }
  }

  lemma OtherPlace(ops: seq<Op>, c: Candidate, d: Candidate)
    requires ColumnOpsOnce(ops) && Placed(ops, c) && Placed(ops, d)
    ensures DropRef(c) == DropRef(d) ==> c.drop == d.drop
    ensures AddRef(c) == AddRef(d) ==> c.add == d.add
  {
    assert AddRef(c) == AddRef(d) ==> SameAdd(ops[c.add], ops[d.add]);
  }

  /** Merging by list position is rewriting by column name. */
  lemma {:induction false} MergeIsRewrite(ops: seq<Op>, chosen: seq<Candidate>, i: nat)
    requires ColumnOpsOnce(ops) && AllPlaced(ops, chosen) && Disjoint(chosen) && i <= |ops|
    ensures Merge(ops, chosen, i) == RewriteAll(ops[i..], RenamingOf(chosen))
    decreases |ops| - i
  {
    if i < |ops| {
      MergeIsRewrite(ops, chosen, i + 1);
      MergeAt(ops, chosen, i);
      assert ops[i..][1..] == ops[i + 1..];
    }
  }

  lemma MergeAt(ops: seq<Op>, chosen: seq<Candidate>, i: nat)
    requires ColumnOpsOnce(ops) && AllPlaced(ops, chosen) && Disjoint(chosen) && i < |ops|
    ensures Rewrite(ops[i], RenamingOf(chosen)) == MergedAt(ops, chosen, i)
  {
    RenameAtExact(chosen, i);
    DistinctPlaces(ops, chosen);
    forall c | c in chosen ensures Marks(ops[i], c, i) {
      PlacedAt(ops, c, i);
    }
    if ops[i].DropColumn? {
      MergeDrop(ops[i], chosen, i);
    } else if ops[i].AddColumn? {
      MergeAdd(ops[i], chosen, i);
    }
  }

  function MergedAt(ops: seq<Op>, chosen: seq<Candidate>, i: nat): seq<Op>
    requires i < |ops|
  {
    if RenameAt(chosen, i) != [] then RenameAt(chosen, i) else if Taken(chosen, i) then [] else [ops[i]]
  }

  /** Candidate c concerns position i exactly when the operation there is its drop or its add. */
  ghost predicate Marks(op: Op, c: Candidate, i: nat)
  {
    && (c.drop == i <==> op == DropColumn(c.table, c.from))
    && (c.add == i <==> op.AddColumn? && op.table == c.table && op.field.name == c.to)
  }

  lemma PlacedAt(ops: seq<Op>, c: Candidate, i: nat)
    requires ColumnOpsOnce(ops) && Placed(ops, c) && i < |ops|
    ensures Marks(ops[i], c, i)
  {
    assert ops[i].AddColumn? && ops[i].table == c.table && ops[i].field.name == c.to ==> SameAdd(ops[c.add], ops[i]);
  }

  lemma MergeDrop(op: Op, chosen: seq<Candidate>, i: nat)
    requires op.DropColumn? && DistinctDrops(chosen) && forall c :: c in chosen ==> Marks(op, c, i)
    ensures var at, to := ColRef(op.table, op.column), ToMap(chosen);
            if at in to then exists c :: c in chosen && c.drop == i && c.Op() == RenameColumn(at.table, at.column, to[at])
            else !Taken(chosen, i)
  {
    var at, to := ColRef(op.table, op.column), ToMap(chosen);
    if at in to {
      var c := ToMapOnly(chosen, at);
      assert c.drop == i;
    } else {
      forall c | c in chosen ensures c.drop != i && c.add != i {
        ToMapHolds(chosen, c);
      }
    }
  }

  lemma MergeAdd(op: Op, chosen: seq<Candidate>, i: nat)
    requires op.AddColumn? && DistinctAdds(chosen) && forall c :: c in chosen ==> Marks(op, c, i)
    ensures ColRef(op.table, op.field.name) in FromMap(chosen) <==> Taken(chosen, i)
    ensures forall c :: c in chosen ==> c.drop != i
  {
    var at, from := ColRef(op.table, op.field.name), FromMap(chosen);
    if at in from {
      var c := FromMapOnly(chosen, at);
      assert c.add == i;
    } else {
      forall c | c in chosen ensures c.add != i {
        FromMapHolds(chosen, c);
      }
    }
  }

  lemma {:induction false} RenameAtExact(chosen: seq<Candidate>, i: nat)
    requires Disjoint(chosen)
    ensures forall c :: c in chosen && c.drop == i ==> RenameAt(chosen, i) == [c.Op()]
    ensures (forall c :: c in chosen ==> c.drop != i) ==> RenameAt(chosen, i) == []
  {
    if chosen != [] {
      var most := chosen[..|chosen| - 1];
      forall c | c in most ensures c in chosen {
      }
      RenameAtExact(most, i);
      assert chosen == most + [chosen[|chosen| - 1]];
    }
  }

  ghost predicate ToFits(at: ColRef, before: Snapshot, after: Snapshot, ren: Renaming)
  {
    && at in ren.to && at.table in SchemaOf(before.models) && at.table in SchemaOf(after.models)
    && var b, a, d := SchemaOf(before.models)[at.table], SchemaOf(after.models)[at.table], ren.to[at];
       && at.column in b && at.column !in a && d in a && d !in b
       && RenameCompatible(b[at.column], a[d]) && Plain(b[at.column])
       && ColRef(at.table, d) in ren.from && ren.from[ColRef(at.table, d)] == at.column
  }

  lemma ChosenFits(before: Snapshot, after: Snapshot, c: Candidate, ren: Renaming)
    requires ValidSnapshot(before) && ValidSnapshot(after)
    requires FromList(DiffOps(before, after), before, c) && !Constrained(c.field)
    requires DropRef(c) in ren.to && ren.to[DropRef(c)] == c.to && AddRef(c) in ren.from && ren.from[AddRef(c)] == c.from
    ensures ToFits(DropRef(c), before, after, ren)
  {
    var ops := DiffOps(before, after);
    var drop, add := ops[c.drop], ops[c.add];
    assert drop in ops && add in ops;
    DiffColumnOps(before, after, drop);
    DiffColumnOps(before, after, add);
    SnapshotFieldIs(before, c.table, c.from);
  }

  lemma RenamingFits(before: Snapshot, after: Snapshot, chosen: seq<Candidate>)
    requires ValidSnapshot(before) && ValidSnapshot(after) && Sound(DiffOps(before, after), before, chosen)
    requires DistinctDrops(chosen) && DistinctAdds(chosen)
    ensures FitsAll(before, after, RenamingOf(chosen))
  {
    var ren := RenamingOf(chosen);
    forall at | at in ren.to ensures ToFits(at, before, after, ren) {
      var c := ToMapOnly(chosen, at);
      FromMapHolds(chosen, c);
      ChosenFits(before, after, c, ren);
    }
    forall at | at in ren.from ensures FromFits(at, ren) {
      var c := FromMapOnly(chosen, at);
      ToMapHolds(chosen, c);
    }
    forall t: string ensures FitsTable(before, after, ren, t) {
      TableFits(before, after, ren, t);
    }
  }

  ghost predicate FromFits(at: ColRef, ren: Renaming)
  {
    at in ren.from && ColRef(at.table, ren.from[at]) in ren.to && ren.to[ColRef(at.table, ren.from[at])] == at.column
  }

  lemma TableFits(before: Snapshot, after: Snapshot, ren: Renaming, t: string)
    requires ValidSnapshot(before) && ValidSnapshot(after)
    requires forall at :: at in ren.to ==> ToFits(at, before, after, ren)
    requires forall at :: at in ren.from ==> FromFits(at, ren)
    ensures FitsTable(before, after, ren, t)
  {
    LookupSchema(before, t);
    LookupSchema(after, t);
    forall c: string | ColRef(t, c) in ren.to ensures ToFits(ColRef(t, c), before, after, ren) {
    }
    forall c: string | ColRef(t, c) in ren.from ensures FromFits(ColRef(t, c), ren) {
    }
  }

  /**
    For every stream of answers: a resolved list is Diff's with the confirmed pairs merged, each drop
    and each add in at most one pair, and it still carries before to after, safely at every step.
    */
  lemma ResolvedListCarries(before: Snapshot, after: Snapshot, lines: seq<Line>, interactive: bool)
    requires ValidSnapshot(before) && ValidSnapshot(after)
    requires Resolution(DiffOps(before, after), before, after, lines, interactive).Ok?
    ensures var ops := DiffOps(before, after);
            var chosen := Resolution(ops, before, after, lines, interactive).value;
            && Sound(ops, before, chosen)
            && FitsAll(before, after, RenamingOf(chosen))
            && Merge(ops, chosen, 0) == RewriteAll(ops, RenamingOf(chosen))
            && Path(Merge(ops, chosen, 0), SchemaOf(before.models), SchemaOf(before.models))
            && Run(Merge(ops, chosen, 0), SchemaOf(before.models)) == Some(SchemaOf(after.models))
  {
    var ops := DiffOps(before, after);
    var chosen := Resolution(ops, before, after, lines, interactive).value;
    ResolutionSound(ops, before, after, lines, interactive);
    DiffColumnOpsOnce(before, after);
    DistinctPlaces(ops, chosen);
    MergeIsRewrite(ops, chosen, 0);
    assert ops[0..] == ops;
    RenamingFits(before, after, chosen);
    ResolvedCarries(before, after, RenamingOf(chosen));
  }
}
