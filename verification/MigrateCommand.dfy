/** The migrate command: which way -to goes, decided by reading the database before anything runs. */
module MigrateCommand {
  import opened Wrappers
  import opened Text
  import opened Engine

  datatype Refusal = Sliced | NoDatabase | UnknownTarget

  /** What the command did; done is what it reports as run. */
  datatype Report<!S> =
    | Refused(reason: Refusal)
    | NothingDeclared
    | Unread                                                   // the applied state could not be read
    | Forward(done: seq<M<S>>, err: Option<Error>)
    | Backward(done: seq<M<S>>, err: Option<Error>)

  predicate AtMost(v: string, target: string)
  {
    v == target || Less(v, target)
  }

  predicate Declares<S>(declared: seq<M<S>>, target: string)
  {
    exists i :: 0 <= i < |declared| && declared[i].version == target
  }

  /** Declared at or below the target and not applied. */
  function Subset<S>(declared: seq<M<S>>, target: string, rows: Rows): seq<M<S>>
  {
    if declared == [] then []
    else
      var m := declared[|declared| - 1];
      Subset(declared[..|declared| - 1], target, rows) + if AtMost(m.version, target) && m.version !in rows then [m] else []
  }

  lemma {:induction false} SubsetIs<S(!new)>(declared: seq<M<S>>, target: string, rows: Rows)
    ensures forall m :: m in Subset(declared, target, rows) <==> m in declared && AtMost(m.version, target) && m.version !in rows
  {
    if declared != [] {
      SubsetIs(declared[..|declared| - 1], target, rows);
      assert declared == declared[..|declared| - 1] + [declared[|declared| - 1]];
    }
  }

  ghost predicate HighestIs(rows: Rows, target: string)
  {
    target in rows && forall v :: v in rows ==> AtMost(v, target)
  }

  /** Nothing declared at or below the target is left unapplied. */
  ghost predicate CaughtUp<S(!new)>(declared: seq<M<S>>, rows: Rows, target: string)
  {
    forall m :: m in declared && AtMost(m.version, target) ==> m.version in rows
  }

  lemma {:induction false} RecordedKeys<S(!new)>(rows: Rows, ms: seq<M<S>>)
    ensures forall v :: v in Recorded(rows, ms) <==> v in rows || v in Versions(ms)
  {
    if ms != [] {
      var front := ms[..|ms| - 1];
      RecordedKeys(rows, front);
      assert Versions(ms) == Versions(front) + [ms[|ms| - 1].version];
    }
  }

  /** After a forward move the target is the top, and everything declared below it is in. */
  lemma ForwardArrives<S(!new)>(declared: seq<M<S>>, target: string, rows: Rows, sorted: seq<M<S>>)
    requires Declares(declared, target) && target !in rows
    requires forall m :: m in sorted <==> m in Subset(declared, target, rows)
    requires Usable(sorted) && !Behind(sorted, rows)
    ensures var after := Recorded(rows, Pending(Sorted(sorted), rows));
            HighestIs(after, target) && CaughtUp(declared, after, target)
  {
    var pending := Pending(Sorted(sorted), rows);
    var after := Recorded(rows, pending);
    SubsetIs(declared, target, rows);
    SortedRises(sorted);
    PendingIs(Sorted(sorted), rows);
    RecordedKeys(rows, pending);
    forall m | m in declared && AtMost(m.version, target) ensures m.version in after {
      if m.version !in rows {
        assert m in pending;
        var i :| 0 <= i < |pending| && pending[i] == m;
        assert Versions(pending)[i] == m.version;
      }
    }
    var t :| 0 <= t < |declared| && declared[t].version == target;
    assert declared[t] in declared && declared[t] in sorted;
    forall v | v in after ensures AtMost(v, target) {
      if v in rows {
        LessTotal(v, target);
      } else {
        var i :| 0 <= i < |pending| && Versions(pending)[i] == v;
        assert pending[i] in pending;
      }
    }
  }

  lemma HighestStays(log: seq<string>, rows: Rows, left: seq<string>, after: Rows, undone: seq<string>, target: string)
    requires Stack(log, rows) && Stack(left, after) && target in rows && log == left + undone
    requires (forall v :: v in left ==> !Less(target, v)) && (forall v :: v in undone ==> Less(target, v))
    ensures HighestIs(after, target)
    ensures forall v :: v in after <==> v in rows && AtMost(v, target)
  {
    LessIrreflexive(target);
    assert target in log;
    forall v | v in after ensures AtMost(v, target) {
      LessTotal(v, target);
    }
    forall v | v in rows && AtMost(v, target) ensures v in after {
      assert v in log;
      if v in undone && v != target {
        LessTransitive(v, target, v);
      }
      LessIrreflexive(v);
    }
  }

  /**
    The command. On success the target is the highest applied version; forward, nothing declared below it
    is left out; backward, exactly the versions above it are gone; and where it already is the highest,
    nothing changes whatever else happens.
    */
  method RunMigrate<S(!new)>(db: Database<S>, declared: seq<M<S>>, target: string, sliced: bool, hasDatabase: bool) returns (report: Report<S>)
    requires db.Sound()
    modifies db
    ensures db.Sound()
    ensures report.Refused? || report.NothingDeclared? || report.Unread? ==> db.schema == old(db.schema) && db.rows == old(db.rows) && db.log == old(db.log)
    ensures sliced ==> report == Refused(Sliced)
    ensures !sliced && declared == [] ==> report == NothingDeclared
    ensures target != "" && (report.Forward? || report.Backward?) && report.err.None? ==> HighestIs(db.rows, target)
    ensures target != "" && report.Forward? && report.err.None? ==> CaughtUp(declared, db.rows, target)
    ensures target == "" && report.Forward? && report.err.None? ==> forall m :: m in declared ==> m.version in db.rows
    ensures report.Forward? ==> db.schema == Ups(old(db.schema), report.done) && db.log == old(db.log) + Versions(report.done)
    ensures report.Backward? ==> db.schema == Downs(old(db.schema), report.done) && old(db.log) == db.log + Reversed(Versions(report.done))
    ensures report.Backward? && report.err.None? ==> forall v :: v in db.rows <==> v in old(db.rows) && AtMost(v, target)
    ensures target != "" && HighestIs(old(db.rows), target) ==> db.schema == old(db.schema) && db.rows == old(db.rows) && db.log == old(db.log)
  {
    if sliced {
      return Refused(Sliced);
    }
    if |declared| == 0 {
      return NothingDeclared;
    }
    if !hasDatabase {
      return Refused(NoDatabase);
    }
    if target != "" && !Declares(declared, target) {
      return Refused(UnknownTarget);
    }
    var ok := db.EnsureTable();
    if !ok {
      return Unread;
    }
    var read := db.AppliedVersions();
    if read.Err? {
      return Unread;
    }
    var applied := read.value;
    if target == "" {
      var done, err := db.Run(declared);
      if err.None? {
        AllIn(declared, old(db.rows));
      }
      return Forward(done, err);
    } else if target !in applied {
      report := MoveForward(db, declared, target, applied);
    } else {
      report := MoveBack(db, declared, target);
    }
  }

  lemma AllIn<S(!new)>(declared: seq<M<S>>, rows: Rows)
    requires Usable(declared)
    ensures forall m :: m in declared ==> m.version in Recorded(rows, Pending(Sorted(declared), rows))
  {
    var pending := Pending(Sorted(declared), rows);
    SortedRises(declared);
    PendingIs(Sorted(declared), rows);
    RecordedKeys(rows, pending);
    forall m | m in declared ensures m.version in Recorded(rows, pending) {
      if m.version !in rows {
        var i :| 0 <= i < |pending| && pending[i] == m;
        assert Versions(pending)[i] == m.version;
      }
    }
  }

  method MoveForward<S(!new)>(db: Database<S>, declared: seq<M<S>>, target: string, applied: seq<string>) returns (report: Report<S>)
    requires db.Sound() && applied == db.log && Declares(declared, target) && target !in applied
    modifies db
    ensures db.Sound() && report.Forward?
    ensures report.err.None? ==> HighestIs(db.rows, target) && CaughtUp(declared, db.rows, target)
    ensures db.schema == Ups(old(db.schema), report.done) && db.log == old(db.log) + Versions(report.done)
  {
    var subset := [];
    for i := 0 to |declared|
      invariant subset == Subset(declared[..i], target, db.rows)
    {
      assert declared[..i + 1][..i] == declared[..i];
      if AtMost(declared[i].version, target) && declared[i].version !in applied {
        subset := subset + [declared[i]];
      }
    }
    assert declared[..|declared|] == declared;
    SortMembers((m: M<S>) => VersionKey(m), subset);
    subset := Sorted(subset);
    var done, err := db.Run(subset);
    if err.None? {
      ForwardArrives(declared, target, old(db.rows), subset);
    }
    return Forward(done, err);
  }

  method MoveBack<S(!new)>(db: Database<S>, declared: seq<M<S>>, target: string) returns (report: Report<S>)
    requires db.Sound() && target in db.rows
    modifies db
    ensures db.Sound() && report.Backward?
    ensures db.schema == Downs(old(db.schema), report.done) && old(db.log) == db.log + Reversed(Versions(report.done))
    ensures report.err.None? ==> HighestIs(db.rows, target) && forall v :: v in db.rows <==> v in old(db.rows) && AtMost(v, target)
    ensures HighestIs(old(db.rows), target) ==> db.schema == old(db.schema) && db.rows == old(db.rows) && db.log == old(db.log)
  {
    var done, err := db.Rollback(declared, target);
    UndoneAbove(old(db.log), old(db.rows), db.log, done, target);
    if err.None? {
      HighestStays(old(db.log), old(db.rows), db.log, db.rows, Reversed(Versions(done)), target);
    }
    return Backward(done, err);
  }

  lemma UndoneAbove<S(!new)>(log: seq<string>, rows: Rows, left: seq<string>, done: seq<M<S>>, target: string)
    requires Stack(log, rows) && log == left + Reversed(Versions(done)) && forall m :: m in done ==> Less(target, m.version)
    ensures forall v :: v in Reversed(Versions(done)) ==> Less(target, v) && v in rows
    ensures HighestIs(rows, target) ==> done == []
  {
    forall i | 0 <= i < |done| ensures Less(target, Reversed(Versions(done))[i]) && Reversed(Versions(done))[i] in rows {
      assert done[|done| - 1 - i] in done;
      assert log[|left| + i] in log;
    }
    var newest := if done == [] then target else Reversed(Versions(done))[0];
    assert done != [] ==> newest in rows && Less(target, newest);
    if newest != target && Less(target, newest) {
      NotBoth(Plain(target), Plain(newest));
    }
    LessIrreflexive(target);
  }
}
