/** What resolveRenames asks, and what it never does without asking. */
module Silence {
  import opened Wrappers
  import opened Text
  import opened Orm
  import opened Operations
  import opened Differ
  import opened Alterations
  import opened DiffSoundness
  import opened Rollback
  import opened Renames

  /** An earlier pair that shares an end with c. */
  predicate Blocks(d: Candidate, c: Candidate)
  {
    Before(d, c) && (d.drop == c.drop || d.add == c.add)
  }

  ghost predicate Blocked(final: seq<Candidate>, c: Candidate)
  {
    exists d :: d in final && Blocks(d, c)
  }

  /** Everything confirmed so far stands in the list before everything still to come. */
  ghost predicate Ahead(chosen: seq<Candidate>, candidates: seq<Candidate>)
  {
    forall d, c :: d in chosen && c in candidates ==> Before(d, c)
  }

  ghost predicate AllFrom(ops: seq<Op>, before: Snapshot, candidates: seq<Candidate>)
  {
    forall c :: c in candidates ==> FromList(ops, before, c)
  }

  /** A drop is no add: an end is taken exactly when an earlier confirmed pair blocks. */
  lemma TakenIsBlocked(ops: seq<Op>, before: Snapshot, chosen: seq<Candidate>, c: Candidate)
    requires AllFrom(ops, before, chosen) && FromList(ops, before, c) && Ahead(chosen, [c])
    ensures Taken(chosen, c.drop) || Taken(chosen, c.add) <==> Blocked(chosen, c)
  {
    forall d | d in chosen ensures d.add != c.drop && d.drop != c.add && Before(d, c) {
      assert c in [c];
    }
  }

  lemma {:induction false} QuestionsOf(candidates: seq<Candidate>, lines: seq<Line>, chosen: seq<Candidate>)
    ensures forall c :: c in Questions(candidates, lines, chosen) ==> c in candidates
    decreases |candidates|
  {
    if candidates != [] {
      var rest := Ask(lines).1;
      QuestionsOf(candidates[1..], lines, chosen);
      QuestionsOf(candidates[1..], rest, chosen);
      QuestionsOf(candidates[1..], rest, chosen + [candidates[0]]);
    }
  }

  lemma {:induction false} ConfirmedFrom(candidates: seq<Candidate>, lines: seq<Line>, chosen: seq<Candidate>)
    requires Confirm(candidates, lines, chosen).Ok?
    ensures var final := Confirm(candidates, lines, chosen).value;
            && (forall d :: d in chosen ==> d in final)
            && (forall d :: d in final ==> d in chosen || d in candidates)
            && (forall d :: d in final ==> d in chosen || d in Questions(candidates, lines, chosen))
    decreases |candidates|
  {
    if candidates != [] {
      var c, rest := candidates[0], Ask(lines).1;
      if Taken(chosen, c.drop) || Taken(chosen, c.add) {
        ConfirmedFrom(candidates[1..], lines, chosen);
      } else if !Ask(lines).0 {
        ConfirmedFrom(candidates[1..], rest, chosen);
      } else {
        ConfirmedFrom(candidates[1..], rest, chosen + [c]);
      }
    }
  }

  /** In a session that ends well, a pair is asked about exactly when no earlier confirmed pair has one of its ends. */
  lemma {:induction false} AskedExactly(ops: seq<Op>, before: Snapshot, candidates: seq<Candidate>, lines: seq<Line>, chosen: seq<Candidate>)
    requires AllFrom(ops, before, candidates) && AllFrom(ops, before, chosen) && InOrder(candidates) && Ahead(chosen, candidates)
    requires Confirm(candidates, lines, chosen).Ok?
    ensures forall c :: c in candidates ==>
              (c in Questions(candidates, lines, chosen) <==> !Blocked(Confirm(candidates, lines, chosen).value, c))
    decreases |candidates|
  {
    if candidates != [] {
      var c, tail, rest := candidates[0], candidates[1..], Ask(lines).1;
      FirstAsked(ops, before, candidates, lines, chosen);
      if Taken(chosen, c.drop) || Taken(chosen, c.add) {
        AskedExactly(ops, before, tail, lines, chosen);
        assert Questions(candidates, lines, chosen) == Questions(tail, lines, chosen);
      } else if !Ask(lines).0 {
        AskedExactly(ops, before, tail, rest, chosen);
        assert Questions(candidates, lines, chosen) == [c] + Questions(tail, rest, chosen);
      } else {
        AskedExactly(ops, before, tail, rest, chosen + [c]);
        assert Questions(candidates, lines, chosen) == [c] + Questions(tail, rest, chosen + [c]);
      }
    }
  }

  /** The first of the list: nothing confirmed later can block it. */
  lemma FirstAsked(ops: seq<Op>, before: Snapshot, candidates: seq<Candidate>, lines: seq<Line>, chosen: seq<Candidate>)
    requires candidates != [] && AllFrom(ops, before, candidates) && AllFrom(ops, before, chosen) && InOrder(candidates) && Ahead(chosen, candidates)
    requires Confirm(candidates, lines, chosen).Ok?
    ensures forall c :: c in candidates[1..] ==> c != candidates[0]
    ensures candidates[0] in Questions(candidates, lines, chosen) <==> !Blocked(Confirm(candidates, lines, chosen).value, candidates[0])
  {
    var c, final := candidates[0], Confirm(candidates, lines, chosen).value;
    TakenIsBlocked(ops, before, chosen, c);
    ConfirmedFrom(candidates, lines, chosen);
    QuestionsOf(candidates[1..], lines, chosen);
    forall d | d in candidates ensures !Before(d, c) {
      var x :| 0 <= x < |candidates| && candidates[x] == d;
    }
    assert Blocked(final, c) <==> Blocked(chosen, c);
  }

  // ------------------------------------------- in terms of the two schemas

  /** A surviving table lost column c and gained column d, alike in everything but the name. */
  ghost predicate Lookalike(before: Snapshot, after: Snapshot, t: string, c: string, d: string)
  {
    var b, a := SchemaOf(before.models), SchemaOf(after.models);
    t in b && t in a && c in b[t] && c !in a[t] && d in a[t] && d !in b[t] && RenameCompatible(b[t][c], a[t][d])
  }

  lemma {:induction false} ProjFromList(ops: seq<Op>, t: string)
    ensures forall op :: op in Proj(ops, t) ==> op in ops
  {
    if ops != [] {
      ProjFromList(ops[1..], t);
    }
  }

  lemma NeededInDiff(before: Snapshot, after: Snapshot, t: string, k: Key) returns (i: nat)
    requires ValidSnapshot(before) && ValidSnapshot(after) && t in SchemaOf(before.models) && t in SchemaOf(after.models)
    requires Needed(SchemaOf(before.models)[t], SchemaOf(after.models)[t], k)
    ensures i < |DiffOps(before, after)| && DiffOps(before, after)[i] == OpAt(t, SchemaOf(before.models)[t], SchemaOf(after.models)[t], k)
  {
    LookupSchema(before, t);
    LookupSchema(after, t);
    var was, now := Lookup(before.models, t).value, Lookup(after.models, t).value;
    TableAltersExact(was, now);
    var alters := TableAlters(was, now);
    var x :| 0 <= x < |alters| && KeyOf(alters[x]) == k;
    assert OpsOf(alters)[x] == alters[x].op;
    ProjDiff(before, after, t);
    ProjFromList(DiffOps(before, after), t);
    assert alters[x].op in Proj(DiffOps(before, after), t);
    i :| 0 <= i < |DiffOps(before, after)| && DiffOps(before, after)[i] == alters[x].op;
  }

  /** Every lookalike is a candidate, and every candidate is a lookalike. */
  lemma LookalikeListed(before: Snapshot, after: Snapshot, t: string, c: string, d: string) returns (q: Candidate)
    requires ValidSnapshot(before) && ValidSnapshot(after) && Lookalike(before, after, t, c, d)
    ensures IsCandidate(DiffOps(before, after), before, after, q) && q.table == t && q.from == c && q.to == d
  {
    var i := NeededInDiff(before, after, t, Key(3, c));
    var j := NeededInDiff(before, after, t, Key(6, d));
    SnapshotFieldIs(before, t, c);
    SnapshotFieldIs(after, t, d);
    SchemaNames(after, t, d);
    q := Candidate(i, j, t, c, d, SchemaOf(before.models)[t][c]);
  }

  lemma SchemaNames(s: Snapshot, t: string, c: string)
    requires ValidSnapshot(s) && t in SchemaOf(s.models) && c in SchemaOf(s.models)[t]
    ensures SchemaOf(s.models)[t][c].name == c
  {
    LookupSchema(s, t);
    ValidModelCols(Lookup(s.models, t).value);
  }

  lemma CandidateIsLookalike(before: Snapshot, after: Snapshot, q: Candidate)
    requires ValidSnapshot(before) && ValidSnapshot(after) && IsCandidate(DiffOps(before, after), before, after, q)
    ensures Lookalike(before, after, q.table, q.from, q.to)
  {
    var ops := DiffOps(before, after);
    assert ops[q.drop] in ops && ops[q.add] in ops;
    DiffColumnOps(before, after, ops[q.drop]);
    DiffColumnOps(before, after, ops[q.add]);
    SnapshotFieldIs(before, q.table, q.from);
  }

  /** Silence never authorizes data loss: without a user the list goes through unchanged exactly when there is nothing to ask. */
  lemma SilentRunExactly(before: Snapshot, after: Snapshot, lines: seq<Line>)
    requires ValidSnapshot(before) && ValidSnapshot(after)
    ensures Resolved(DiffOps(before, after), before, after, lines, false)
            == if exists t, c, d :: Lookalike(before, after, t, c, d) then Err(NeedsAnswer) else Ok(DiffOps(before, after))
  {
    var ops := DiffOps(before, after);
    var candidates := Candidates(ops, before, after, |ops|);
    CandidatesExact(ops, before, after, |ops|);
    NothingMerged(ops, 0);
    if exists t, c, d :: Lookalike(before, after, t, c, d) {
      var t, c, d :| Lookalike(before, after, t, c, d);
      var q := LookalikeListed(before, after, t, c, d);
      assert q in candidates;
    } else if candidates != [] {
      CandidateIsLookalike(before, after, candidates[0]);
    }
  }

  /**
    With a user: in a session that ends well, every lookalike was asked about unless one of its columns was confirmed
    as the end of another rename. So no column is dropped beside a lookalike that nobody was asked about.
    */
  lemma EveryLookalikeIsAsked(before: Snapshot, after: Snapshot, lines: seq<Line>, t: string, c: string, d: string)
    requires ValidSnapshot(before) && ValidSnapshot(after) && Lookalike(before, after, t, c, d)
    requires Resolution(DiffOps(before, after), before, after, lines, true).Ok?
    ensures var ops := DiffOps(before, after);
            var ren := RenamingOf(Resolution(ops, before, after, lines, true).value);
            || ColRef(t, c) in ren.to || ColRef(t, d) in ren.from
            || exists q :: q in Questions(Candidates(ops, before, after, |ops|), lines, []) && q.table == t && q.from == c && q.to == d
  {
    var ops := DiffOps(before, after);
    var candidates := Candidates(ops, before, after, |ops|);
    CandidatesExact(ops, before, after, |ops|);
    var q := LookalikeListed(before, after, t, c, d);
    assert q in candidates;
    AskedExactly(ops, before, candidates, lines, []);
    var chosen := Confirm(candidates, lines, []).value;
    if Blocked(chosen, q) {
      var e :| e in chosen && Blocks(e, q);
      ResolutionSound(ops, before, after, lines, true);
      DiffColumnOpsOnce(before, after);
      DistinctPlaces(ops, chosen);
      ToMapHolds(chosen, e);
      FromMapHolds(chosen, e);
      assert e.drop == q.drop ==> DropRef(e) == ColRef(t, c);
      assert e.add == q.add ==> AddRef(e) == ColRef(t, d);
    }
  }
}
