/** The migration engine: a database of a schema and applied versions, moved by transactions that may fail anywhere. */
module Engine {
  import opened Wrappers
  import opened Text

  datatype Error = Invalid | Duplicate | OutOfOrder | Missing | Failed

  /** A migration; a step the author left out is None. */
  datatype M<!S> = M(version: string, name: string, up: Option<S -> S>, down: Option<S -> S>)

  function VersionKey<S>(m: M<S>): Key
  {
    Key(0, m.version)
  }

  function Versions<S>(ms: seq<M<S>>): (vs: seq<string>)
    ensures |vs| == |ms|
  {
    seq(|ms|, i requires 0 <= i < |ms| => ms[i].version)
  }

  function Up<S>(m: M<S>, s: S): S
  {
    if m.up.Some? then m.up.value(s) else s
  }

  function Down<S>(m: M<S>, s: S): S
  {
    if m.down.Some? then m.down.value(s) else s
  }

  function Ups<S>(s: S, ms: seq<M<S>>): S
  {
    if ms == [] then s else Up(ms[|ms| - 1], Ups(s, ms[..|ms| - 1]))
  }

  function Downs<S>(s: S, ms: seq<M<S>>): S
  {
    if ms == [] then s else Down(ms[|ms| - 1], Downs(s, ms[..|ms| - 1]))
  }

  type Rows = map<string, string>

  function Recorded<S>(rows: Rows, ms: seq<M<S>>): Rows
  {
    if ms == [] then rows else Recorded(rows, ms[..|ms| - 1])[ms[|ms| - 1].version := ms[|ms| - 1].name]
  }

  function Forgotten<S>(rows: Rows, ms: seq<M<S>>): Rows
  {
    if ms == [] then rows else Forgotten(rows, ms[..|ms| - 1]) - {ms[|ms| - 1].version}
  }

  // ------------------------------------------------------------ validation

  predicate Repeated<S>(ms: seq<M<S>>, i: nat)
    requires i < |ms|
  {
    exists j :: 0 <= j < i && ms[j].version == ms[i].version
  }

  predicate Unusable<S>(m: M<S>)
  {
    m.version == "" || m.up.None? || m.down.None?
  }

  /** The first fault from position i on, in the order the checks are made. */
  function Fault<S>(ms: seq<M<S>>, i: nat): Option<Error>
    requires i <= |ms|
    decreases |ms| - i
  {
    if i == |ms| then None
    else if Unusable(ms[i]) then Some(Invalid)
    else if Repeated(ms, i) then Some(Duplicate)
    else if ByteLen(ms[i].version) != ByteLen(ms[0].version) then Some(Invalid)
    else Fault(ms, i + 1)
  }

  /** Every migration usable, versions distinct and of one width. */
  ghost predicate Usable<S(!new)>(ms: seq<M<S>>)
  {
    && (forall i :: 0 <= i < |ms| ==> !Unusable(ms[i]))
    && (forall i, j :: 0 <= i < j < |ms| ==> ms[i].version != ms[j].version)
    && (forall i :: 0 <= i < |ms| ==> ByteLen(ms[i].version) == ByteLen(ms[0].version))
  }

  lemma {:induction false} FaultFrom<S(!new)>(ms: seq<M<S>>, i: nat)
    requires i <= |ms|
    ensures Fault(ms, i) == None <==> forall k :: i <= k < |ms| ==> Fine(ms, k)
    decreases |ms| - i
  {
    if i < |ms| {
      FaultFrom(ms, i + 1);
      assert Fault(ms, i) == None <==> Fine(ms, i) && Fault(ms, i + 1) == None;
      if Fault(ms, i) == None {
        forall k | i <= k < |ms| ensures Fine(ms, k) {
          assert k != i ==> i + 1 <= k;
        }
      }
    }
  }

  predicate Fine<S>(ms: seq<M<S>>, k: nat)
    requires k < |ms|
  {
    !Unusable(ms[k]) && !Repeated(ms, k) && ByteLen(ms[k].version) == ByteLen(ms[0].version)
  }

  /** The loop accepts exactly the usable sets. */
  lemma NoFaultExactly<S(!new)>(ms: seq<M<S>>)
    ensures Fault(ms, 0) == None <==> Usable(ms)
  {
    FaultFrom(ms, 0);
    if Usable(ms) {
      forall k | 0 <= k < |ms| ensures Fine(ms, k) {
      }
    }
    if Fault(ms, 0) == None {
      forall i | 0 <= i < |ms| ensures !Unusable(ms[i]) && ByteLen(ms[i].version) == ByteLen(ms[0].version) {
        assert Fine(ms, i);
      }
      forall i, j | 0 <= i < j < |ms| ensures ms[i].version != ms[j].version {
        assert Fine(ms, j);
      }
    }
  }

  // -------------------------------------------------------------- ordering

  ghost predicate Rising(vs: seq<string>)
  {
    forall i, j :: 0 <= i < j < |vs| ==> Less(vs[i], vs[j])
  }

  function Plain(v: string): Key
  {
    Key(0, v)
  }

  lemma RisingUnique(a: seq<string>, b: seq<string>)
    requires Rising(a) && Rising(b) && (forall v :: v in a <==> v in b)
    ensures a == b
  {
    assert Ascending(Plain, a) && Ascending(Plain, b);
    AscendingUnique(Plain, a, b);
  }

  function Sorted<S(!new)>(ms: seq<M<S>>): seq<M<S>>
  {
    Sort((m: M<S>) => VersionKey(m), ms)
  }

  lemma SortedRises<S(!new)>(ms: seq<M<S>>)
    requires Usable(ms)
    ensures Rising(Versions(Sorted(ms))) && |Sorted(ms)| == |ms|
    ensures forall m :: m in Sorted(ms) <==> m in ms
  {
    var key := (m: M<S>) => VersionKey(m);
    assert DistinctKeys(key, ms);
    SortAscending(key, ms);
    SortMembers(key, ms);
    forall i, j | 0 <= i < j < |ms| ensures Less(Versions(Sorted(ms))[i], Versions(Sorted(ms))[j]) {
      assert KeyLess(key(Sorted(ms)[i]), key(Sorted(ms)[j]));
    }
  }

  /** The migrations not yet recorded, in order. */
  function Pending<S>(ms: seq<M<S>>, rows: Rows): seq<M<S>>
  {
    if ms == [] then []
    else Pending(ms[..|ms| - 1], rows) + if ms[|ms| - 1].version in rows then [] else [ms[|ms| - 1]]
  }

  /** Something unrecorded sorts before something recorded. */
  ghost predicate Behind<S(!new)>(ms: seq<M<S>>, rows: Rows)
  {
    exists m, v :: m in ms && m.version !in rows && v in rows && Less(m.version, v)
  }

  lemma {:induction false} PendingIs<S(!new)>(ms: seq<M<S>>, rows: Rows)
    ensures forall m :: m in Pending(ms, rows) <==> m in ms && m.version !in rows
    ensures Rising(Versions(ms)) ==> Rising(Versions(Pending(ms, rows)))
  {
    if ms != [] {
      var front, last := ms[..|ms| - 1], ms[|ms| - 1];
      PendingIs(front, rows);
      assert ms == front + [last];
      if Rising(Versions(ms)) {
        assert Versions(front) == Versions(ms)[..|ms| - 1];
        LastHighest(front, last);
        RisingSnoc(Pending(front, rows), last);
        assert Pending(front, rows) + [] == Pending(front, rows);
      }
    }
  }

  lemma LastHighest<S(!new)>(front: seq<M<S>>, last: M<S>)
    requires Rising(Versions(front + [last]))
    ensures forall m :: m in front ==> Less(m.version, last.version)
  {
    var all := front + [last];
    forall m | m in front ensures Less(m.version, last.version) {
      var j :| 0 <= j < |front| && front[j] == m;
      assert Less(Versions(all)[j], Versions(all)[|front|]);
    }
  }

  lemma RisingSnoc<S(!new)>(p: seq<M<S>>, last: M<S>)
    requires Rising(Versions(p)) && forall m :: m in p ==> Less(m.version, last.version)
    ensures Rising(Versions(p + [last]))
  {
    assert Versions(p + [last]) == Versions(p) + [last.version];
    forall j | 0 <= j < |p| ensures Less(Versions(p)[j], last.version) {
      assert p[j] in p;
    }
  }

  /** Versions above the given one. */
  function Above(vs: seq<string>, to: string): seq<string>
  {
    if vs == [] then [] else Above(vs[..|vs| - 1], to) + if Less(to, vs[|vs| - 1]) then [vs[|vs| - 1]] else []
  }

  /** Of a rising list they are the top. */
  lemma AboveIsTop(vs: seq<string>, to: string)
    requires Rising(vs)
    ensures TopOf(vs, to, |Above(vs, to)|) && Above(vs, to) == vs[|vs| - |Above(vs, to)|..]
  {
    var n := TopCount(vs, to);
    AboveSplits(vs[..|vs| - n], vs[|vs| - n..], to);
    assert vs[..|vs| - n] + vs[|vs| - n..] == vs;
  }

  /** The n newest are above the given version, the rest are not. */
  ghost predicate TopOf(vs: seq<string>, to: string, n: nat)
  {
    && n <= |vs|
    && (forall i :: 0 <= i < |vs| - n ==> !Less(to, vs[i]))
    && (forall i :: |vs| - n <= i < |vs| ==> Less(to, vs[i]))
  }

  /** How many of a rising list are above the given version. */
  lemma {:induction false} TopCount(vs: seq<string>, to: string) returns (n: nat)
    requires Rising(vs)
    ensures TopOf(vs, to, n)
  {
    n := 0;
    if vs != [] {
      var front := vs[..|vs| - 1];
      if Less(to, vs[|vs| - 1]) {
        n := TopCount(front, to);
        n := n + 1;
      } else {
        NoneAbove(vs, to);
      }
    }
  }

  lemma NoneAbove(vs: seq<string>, to: string)
    requires Rising(vs) && vs != [] && !Less(to, vs[|vs| - 1])
    ensures TopOf(vs, to, 0)
  {
    forall i | 0 <= i < |vs| ensures !Less(to, vs[i]) {
      if Less(to, vs[i]) && i < |vs| - 1 {
        LessTransitive(to, vs[i], vs[|vs| - 1]);
      }
    }
  }

  lemma NothingBehind<S(!new)>(ms: seq<M<S>>, rows: Rows, highest: string)
    requires forall m :: m in ms && m.version !in rows ==> !Less(m.version, highest)
    requires forall v :: v in rows ==> v == highest || Less(v, highest)
    ensures !Behind(ms, rows)
  {
    forall m, v | m in ms && m.version !in rows && v in rows ensures !Less(m.version, v) {
      if Less(m.version, v) && v != highest {
        LessTransitive(m.version, v, highest);
      }
    }
  }

  /** A version above the given one is recorded, and the set has no migration for it. */
  ghost predicate Lacks<S(!new)>(ms: seq<M<S>>, log: seq<string>, to: string)
  {
    exists v :: v in log && Less(to, v) && forall m :: m in ms ==> m.version != v
  }

  /** The recorded versions, rising in the order they were committed. */
  ghost predicate Stack(log: seq<string>, rows: Rows)
  {
    Rising(log) && (forall v :: v in log <==> v in rows) && "" !in rows
  }

  lemma Pop(log: seq<string>, rows: Rows)
    requires Stack(log, rows) && log != []
    ensures Stack(log[..|log| - 1], rows - {log[|log| - 1]})
  {
    LessIrreflexive(log[|log| - 1]);
    assert log == log[..|log| - 1] + [log[|log| - 1]];
  }

  lemma Push(log: seq<string>, rows: Rows, version: string, name: string)
    requires Stack(log, rows) && version != "" && Rising(log + [version])
    ensures Stack(log + [version], rows[version := name])
  {
  }

  /** The migrations of the newest versions, newest first. */
  ghost predicate IsTop<S(!new)>(undo: seq<M<S>>, log: seq<string>)
  {
    |undo| <= |log| && forall i :: 0 <= i < |undo| ==> undo[i].version == log[|log| - 1 - i]
  }

  lemma TopAt<S(!new)>(undo: seq<M<S>>, log: seq<string>, i: nat)
    requires IsTop(undo, log) && i < |undo|
    ensures IsTop(undo[..i], log) && |log| - i > 0 && log[..|log| - i][|log| - i - 1] == undo[i].version
  {
  }

  lemma TopReversed<S(!new)>(undo: seq<M<S>>, log: seq<string>)
    requires IsTop(undo, log)
    ensures log == log[..|log| - |undo|] + Reversed(Versions(undo))
  {
    forall k | 0 <= k < |undo| ensures Reversed(Versions(undo))[k] == log[|log| - |undo| + k] {
      assert Reversed(Versions(undo))[k] == undo[|undo| - 1 - k].version;
    }
  }

  /** The migrations to undo: of the set, the whole top above the given version and nothing else. */
  ghost predicate Planned<S(!new)>(undo: seq<M<S>>, ms: seq<M<S>>, log: seq<string>, to: string)
  {
    && IsTop(undo, log)
    && (forall m :: m in undo ==> m in ms && Less(to, m.version))
    && (forall i :: 0 <= i < |log| - |undo| ==> !Less(to, log[i]))
  }

  lemma UndoneTop<S(!new)>(undo: seq<M<S>>, done: seq<M<S>>, was: seq<string>, log: seq<string>, to: string)
    requires IsTop(undo, was) && (forall i :: 0 <= i < |was| - |undo| ==> !Less(to, was[i]))
    requires done <= undo && log == was[..|was| - |done|]
    ensures was == log + Reversed(Versions(done))
    ensures forall m :: m in done ==> m in undo
    ensures done == undo ==> forall v :: v in log ==> !Less(to, v)
  {
    TopReversed(done, was);
  }

  lemma NothingLacks<S(!new)>(ms: seq<M<S>>, undo: seq<M<S>>, log: seq<string>, to: string)
    requires Rising(log) && Versions(undo) == Reversed(Above(log, to)) && (forall m :: m in undo ==> m in ms)
    ensures !Lacks(ms, log, to) && Planned(undo, ms, log, to)
  {
    AboveIsTop(log, to);
    var above := Above(log, to);
    forall i | 0 <= i < |undo| ensures undo[i].version == above[|above| - 1 - i] == log[|log| - 1 - i] {
      assert undo[i].version == Versions(undo)[i];
    }
    forall v | v in log && Less(to, v) ensures exists m :: m in ms && m.version == v {
      var i :| 0 <= i < |log| && log[i] == v;
      assert undo[|log| - 1 - i] in undo;
    }
  }

  lemma NoneHigher(log: seq<string>, highest: string)
    requires forall v :: v in log ==> v == highest || Less(v, highest)
    ensures forall v :: v in log ==> !Less(highest, v)
  {
    forall v | v in log ensures !Less(highest, v) {
      LessIrreflexive(highest);
      if v != highest && Less(highest, v) {
        LessTransitive(highest, v, highest);
      }
    }
  }

  lemma PendingAbove<S(!new)>(ms: seq<M<S>>, rows: Rows, log: seq<string>, highest: string)
    requires Usable(ms) && !Behind(ms, rows) && Stack(log, rows) && (highest != "" ==> highest in log)
    requires forall v :: v in log ==> v == highest || Less(v, highest)
    ensures forall m :: m in Pending(Sorted(ms), rows) ==> m in ms && Less(highest, m.version)
    ensures Rising(Versions(Pending(Sorted(ms), rows)))
  {
    SortedRises(ms);
    PendingIs(Sorted(ms), rows);
    forall m | m in Pending(Sorted(ms), rows) ensures Less(highest, m.version) {
      LessTotal(m.version, highest);
    }
  }

  lemma PendingDistinct<S(!new)>(ms: seq<M<S>>, rows: Rows)
    requires Usable(ms)
    ensures var p := Pending(Sorted(ms), rows);
            (forall i :: 0 <= i < |p| ==> p[i].version !in rows) && (forall i, j :: 0 <= i < j < |p| ==> p[i].version != p[j].version)
  {
    SortedRises(ms);
    PendingIs(Sorted(ms), rows);
    var p := Pending(Sorted(ms), rows);
    forall i, j | 0 <= i < j < |p| ensures p[i].version != p[j].version {
      assert Less(Versions(p)[i], Versions(p)[j]);
      LessIrreflexive(p[i].version);
    }
  }

  /** What is pending goes on top. */
  lemma OnTop<S(!new)>(pending: seq<M<S>>, log: seq<string>, highest: string)
    requires Rising(log) && Rising(Versions(pending))
    requires forall m :: m in pending ==> m.version !in log && m.version != "" && !Less(m.version, highest)
    requires forall v :: v in log ==> v == highest || Less(v, highest)
    requires highest != "" ==> highest in log
    ensures Rising(log + Versions(pending))
  {
    forall i, j | 0 <= i < |log| && 0 <= j < |pending| ensures Less(log[i], Versions(pending)[j]) {
      var m := pending[j];
      assert m in pending && log[i] in log;
      LessTotal(m.version, highest);
      if log[i] != highest {
        LessTransitive(log[i], highest, m.version);
      }
    }
  }

  /** Each Down undoes its Up where that Up ran. */
  ghost predicate Undoes<S(!new)>(s: S, ms: seq<M<S>>)
  {
    ms == [] ||
    (Undoes(s, ms[..|ms| - 1]) && Down(ms[|ms| - 1], Up(ms[|ms| - 1], Ups(s, ms[..|ms| - 1]))) == Ups(s, ms[..|ms| - 1]))
  }

  lemma {:induction false} DownsFirst<S(!new)>(s: S, rows: Rows, m: M<S>, ms: seq<M<S>>)
    ensures Downs(s, [m] + ms) == Downs(Down(m, s), ms)
    ensures Forgotten(rows, [m] + ms) == Forgotten(rows - {m.version}, ms)
  {
    if ms == [] {
      assert [m] + ms == [m] && [m][..0] == [];
    } else {
      assert ([m] + ms)[..|ms|] == [m] + ms[..|ms| - 1];
      DownsFirst(s, rows, m, ms[..|ms| - 1]);
    }
  }

  /** Reverting what was applied, in reverse, restores schema and rows. */
  lemma {:induction false} ThereAndBack<S(!new)>(s: S, rows: Rows, ms: seq<M<S>>)
    requires Undoes(s, ms)
    requires forall i :: 0 <= i < |ms| ==> ms[i].version !in rows
    requires forall i, j :: 0 <= i < j < |ms| ==> ms[i].version != ms[j].version
    ensures Downs(Ups(s, ms), Reversed(ms)) == s
    ensures Forgotten(Recorded(rows, ms), Reversed(ms)) == rows
  {
    if ms != [] {
      var front, last := ms[..|ms| - 1], ms[|ms| - 1];
      ThereAndBack(s, rows, front);
      assert Reversed(ms) == [last] + Reversed(front);
      DownsFirst(Ups(s, ms), Recorded(rows, ms), last, Reversed(front));
      NotRecorded(rows, front, last.version);
      assert Recorded(rows, ms) - {last.version} == Recorded(rows, front);
    } else {
      assert Reversed(ms) == [];
    }
  }

  lemma {:induction false} NotRecorded<S(!new)>(rows: Rows, ms: seq<M<S>>, version: string)
    requires version !in rows && forall i :: 0 <= i < |ms| ==> ms[i].version != version
    ensures version !in Recorded(rows, ms)
  {
    if ms != [] {
      NotRecorded(rows, ms[..|ms| - 1], version);
    }
  }

  /** Undoing everything above the former highest version undoes exactly what was just applied. */
  lemma BackToBefore<S(!new)>(ms: seq<M<S>>, done: seq<M<S>>, undone: seq<M<S>>, before: seq<string>, left: seq<string>, to: string)
    requires Usable(ms) && Rising(before + Versions(done))
    requires before + Versions(done) == left + Reversed(Versions(undone))
    requires (forall v :: v in before ==> !Less(to, v)) && (forall v :: v in left ==> !Less(to, v))
    requires (forall m :: m in done ==> m in ms && Less(to, m.version)) && (forall m :: m in undone ==> m in ms && Less(to, m.version))
    ensures left == before && undone == Reversed(done)
  {
    forall i | 0 <= i < |done| ensures Less(to, Versions(done)[i]) {
      assert done[i] in done;
    }
    forall i | 0 <= i < |undone| ensures Less(to, Reversed(Versions(undone))[i]) {
      assert undone[|undone| - 1 - i] in undone;
    }
    AboveSplits(before, Versions(done), to);
    AboveSplits(left, Reversed(Versions(undone)), to);
    assert before == (before + Versions(done))[..|before|] && left == (left + Reversed(Versions(undone)))[..|before|];
    SameMigrations(ms, done, undone);
  }

  lemma SameMigrations<S(!new)>(ms: seq<M<S>>, done: seq<M<S>>, undone: seq<M<S>>)
    requires Usable(ms) && Versions(done) == Reversed(Versions(undone))
    requires (forall m :: m in done ==> m in ms) && (forall m :: m in undone ==> m in ms)
    ensures undone == Reversed(done)
  {
    forall i | 0 <= i < |undone| ensures undone[i] == Reversed(done)[i] {
      var k := |done| - 1 - i;
      assert Versions(done)[k] == Reversed(Versions(undone))[k] == undone[i].version;
      assert undone[i] in undone && done[k] in done;
      SameVersion(ms, undone[i], done[k]);
    }
  }

  lemma {:induction false} AboveSplits(low: seq<string>, high: seq<string>, to: string)
    requires forall i :: 0 <= i < |low| ==> !Less(to, low[i])
    requires forall i :: 0 <= i < |high| ==> Less(to, high[i])
    ensures Above(low + high, to) == high
  {
    var all := low + high;
    if high != [] {
      assert all[..|all| - 1] == low + high[..|high| - 1];
      AboveSplits(low, high[..|high| - 1], to);
    } else if low != [] {
      assert all[..|all| - 1] == low[..|low| - 1] + high;
      AboveSplits(low[..|low| - 1], high, to);
    }
  }

  lemma SameVersion<S(!new)>(ms: seq<M<S>>, m: M<S>, n: M<S>)
    requires Usable(ms) && m in ms && n in ms && m.version == n.version
    ensures m == n
  {
  }

  function Reversed<T>(s: seq<T>): (r: seq<T>)
    ensures |r| == |s|
  {
    seq(|s|, i requires 0 <= i < |s| => s[|s| - 1 - i])
  }

  // ------------------------------------------------------------- the engine

  class Database<S(!new)> {
    var schema: S
    var hasTable: bool
    var rows: Rows
    /** The versions in force, in the order their transactions committed. */
    ghost var log: seq<string>

    ghost predicate Sound()
      reads this
    {
      Stack(log, rows) && (rows != map[] ==> hasTable)
    }

    constructor (schema: S)
      ensures Sound() && this.schema == schema && rows == map[] && log == []
    {
      this.schema := schema;
      hasTable := false;
      rows := map[];
      log := [];
    }

    method EnsureTable() returns (ok: bool)
      modifies this`hasTable
      ensures hasTable == (ok || old(hasTable))
    {
      ok := *;
      if ok {
        hasTable := true;
      }
    }

    /** SELECT version ... ORDER BY version. */
    method AppliedVersions() returns (r: Result<seq<string>, Error>)
      requires Sound()
      ensures r.Ok? ==> r.value == log
      ensures r.Err? ==> r.error == Failed
    {
      var fails: bool := *;
      if fails || !hasTable {
        return Err(Failed);
      }
      var left := rows.Keys;
      var out: seq<string> := [];
      while left != {}
        invariant left <= rows.Keys
        invariant forall v :: v in out <==> v in rows && v !in left
        invariant DistinctKeys(Plain, out)
      {
        var v :| v in left;
        out := out + [v];
        left := left - {v};
      }
      ghost var sorted := Sort(Plain, out);
      SortAscending(Plain, out);
      SortMembers(Plain, out);
      assert Rising(sorted) by {
        forall i, j | 0 <= i < j < |sorted| ensures Less(sorted[i], sorted[j]) {
          assert KeyLess(Plain(sorted[i]), Plain(sorted[j]));
        }
      }
      RisingUnique(sorted, log);
      return Ok(Sort(Plain, out));
    }

    /** Up and the version row in one transaction; a failure anywhere leaves both undone. */
    method Apply(m: M<S>) returns (ok: bool)
      requires m.up.Some?
      modifies this
      ensures hasTable == old(hasTable)
      ensures ok ==> m.version !in old(rows) && schema == Up(m, old(schema)) && rows == old(rows)[m.version := m.name] && log == old(log) + [m.version]
      ensures !ok ==> schema == old(schema) && rows == old(rows) && log == old(log)
    {
      var s, r := schema, rows;
      ok := *;
      if !ok {
        return;
      }
      s := m.up.value(s);
      ok := *;
      if !ok || m.version in r {
        return false;
      }
      r := r[m.version := m.name];
      ok := *;
      if ok {
        schema, rows, log := s, r, log + [m.version];
      }
    }

    /** Down and the removal of the version row in one transaction. */
    method Revert(m: M<S>) returns (ok: bool)
      requires Sound() && m.down.Some? && log != [] && log[|log| - 1] == m.version
      modifies this
      ensures Sound() && hasTable == old(hasTable)
      ensures ok ==> schema == Down(m, old(schema)) && rows == old(rows) - {m.version} && log == old(log)[..|old(log)| - 1]
      ensures !ok ==> schema == old(schema) && rows == old(rows) && log == old(log)
    {
      var s, r := schema, rows;
      ok := *;
      if !ok {
        return;
      }
      s := m.down.value(s);
      ok := *;
      if !ok {
        return;
      }
      r := r - {m.version};
      Pop(log, rows);
      ok := *;
      if ok {
        schema, rows, log := s, r, log[..|log| - 1];
      }
    }

    /** Validation first: an unusable set is refused before the database is touched at all. */
    method Prepare(ms: seq<M<S>>) returns (r: Result<seq<M<S>>, Error>)
      modifies this`hasTable
      ensures Fault(ms, 0).Some? ==> r == Err(Fault(ms, 0).value) && hasTable == old(hasTable)
      ensures Fault(ms, 0).None? ==> r == Ok(Sorted(ms)) || r == Err(Failed)
      ensures r.Ok? ==> hasTable
      ensures r.Err? ==> r.error != OutOfOrder && r.error != Missing
      ensures old(hasTable) ==> hasTable
    {
      var seen: set<string> := {};
      for i := 0 to |ms|
        invariant Fault(ms, 0) == Fault(ms, i)
        invariant forall v :: v in seen <==> exists j :: 0 <= j < i && ms[j].version == v
        invariant hasTable == old(hasTable)
      {
        var m := ms[i];
        if m.version == "" || m.up.None? || m.down.None? {
          return Err(Invalid);
        }
        if m.version in seen {
          return Err(Duplicate);
        }
        if ByteLen(m.version) != ByteLen(ms[0].version) {
          return Err(Invalid);
        }
        seen := seen + {m.version};
      }
      var ok := EnsureTable();
      if !ok {
        return Err(Failed);
      }
      return Ok(Sorted(ms));
    }

    /**
      Applies what is pending, in version order. Whatever happens, the returned migrations are exactly
      those that committed, on top of the stack of versions.
      */
    method Run(ms: seq<M<S>>) returns (done: seq<M<S>>, err: Option<Error>)
      requires Sound()
      modifies this
      ensures Sound() && log == old(log) + Versions(done)
      ensures schema == Ups(old(schema), done) && rows == Recorded(old(rows), done)
      ensures done <= Pending(Sorted(ms), old(rows))
      ensures err.None? ==> Usable(ms) && !Behind(ms, old(rows)) && done == Pending(Sorted(ms), old(rows))
      ensures err == Some(OutOfOrder) ==> Usable(ms) && Behind(ms, old(rows))
      ensures Behind(ms, old(rows)) ==> done == []
      ensures Fault(ms, 0).Some? ==> err == Fault(ms, 0) && done == [] && hasTable == old(hasTable)
    {
      NoFaultExactly(ms);
      var prepared := Prepare(ms);
      if prepared.Err? {
        return [], Some(prepared.error);
      }
      var sorted := prepared.value;
      SortedRises(ms);
      PendingIs(sorted, rows);
      var read := AppliedVersions();
      if read.Err? {
        return [], Some(read.error);
      }
      var applied := read.value;
      var highest := Highest(applied);
      var found := FindPending(sorted, applied, highest, rows);
      if found.Err? {
        return [], Some(found.error);
      }
      var pending := found.value;
      NothingBehind(ms, rows, highest);
      OnTop(pending, log, highest);
      done, err := ApplyAll(pending);
    }

    method ApplyAll(pending: seq<M<S>>) returns (done: seq<M<S>>, err: Option<Error>)
      requires Sound() && hasTable && Rising(log + Versions(pending))
      requires forall m :: m in pending ==> m.up.Some? && m.version != ""
      modifies this
      ensures Sound() && log == old(log) + Versions(done) && hasTable
      ensures schema == Ups(old(schema), done) && rows == Recorded(old(rows), done)
      ensures done <= pending && (err.None? ==> done == pending) && (err.Some? ==> err == Some(Failed))
    {
      ghost var whole := log + Versions(pending);
      for i := 0 to |pending|
        invariant Sound() && hasTable
        invariant log == whole[..|old(log)| + i]
        invariant schema == Ups(old(schema), pending[..i]) && rows == Recorded(old(rows), pending[..i])
      {
        assert log + [pending[i].version] == whole[..|old(log)| + i + 1];
        Push(log, rows, pending[i].version, pending[i].name);
        var ok := Apply(pending[i]);
        if !ok {
          assert log == old(log) + Versions(pending[..i]);
          return pending[..i], Some(Failed);
        }
        assert pending[..i + 1][..i] == pending[..i];
      }
      assert pending[..|pending|] == pending;
      return pending, None;
    }

    /**
      Undoes what is above the given version, newest first. The returned migrations are exactly those
      undone: the top of the stack, in reverse.
      */
    method Rollback(ms: seq<M<S>>, to: string) returns (done: seq<M<S>>, err: Option<Error>)
      requires Sound()
      modifies this
      ensures Sound() && old(log) == log + Reversed(Versions(done))
      ensures schema == Downs(old(schema), done) && rows == Forgotten(old(rows), done)
      ensures forall m :: m in done ==> m in ms && Less(to, m.version)
      ensures err.None? ==> Usable(ms) && forall v :: v in log ==> !Less(to, v)
      ensures err == Some(Missing) ==> Usable(ms) && Lacks(ms, old(log), to)
      ensures Lacks(ms, old(log), to) ==> err.Some? && done == []
      ensures Fault(ms, 0).Some? ==> err == Fault(ms, 0) && done == [] && hasTable == old(hasTable)
    {
      var plan := PlanRollback(ms, to);
      if plan.Err? {
        return [], Some(plan.error);
      }
      ghost var was := log;
      done, err := RevertAll(plan.value);
      UndoneTop(plan.value, done, was, log, to);
    }

    /** Everything that can be refused is refused here, before anything is undone. */
    method PlanRollback(ms: seq<M<S>>, to: string) returns (r: Result<seq<M<S>>, Error>)
      requires Sound()
      modifies this`hasTable
      ensures Sound() && (old(hasTable) ==> hasTable)
      ensures r.Ok? ==> Usable(ms) && Planned(r.value, ms, log, to) && !Lacks(ms, log, to)
      ensures r == Err(Missing) ==> Usable(ms) && Lacks(ms, log, to)
      ensures Fault(ms, 0).Some? ==> r == Err(Fault(ms, 0).value) && hasTable == old(hasTable)
    {
      NoFaultExactly(ms);
      var prepared := Prepare(ms);
      if prepared.Err? {
        return Err(prepared.error);
      }
      SortedRises(ms);
      var read := AppliedVersions();
      if read.Err? {
        return Err(read.error);
      }
      var targets := TargetsAbove(read.value, to);
      var resolved := FindAll(prepared.value, targets);
      AboveIsTop(log, to);
      if resolved.Err? {
        assert forall v :: v in targets ==> v in Above(log, to);
        return Err(resolved.error);
      }
      NothingLacks(ms, resolved.value, log, to);
      return Ok(resolved.value);
    }

    /** A run, then a rollback to the version that was highest before it. */
    method RunAndReturn(ms: seq<M<S>>) returns (done: seq<M<S>>, undone: seq<M<S>>, err: Option<Error>)
      requires Sound()
      modifies this
      ensures Sound()
      ensures err.None? ==> log == old(log) && undone == Reversed(done)
      ensures err.None? && Undoes(old(schema), done) ==> schema == old(schema) && rows == old(rows)
    {
      done, undone := [], [];
      var ok := EnsureTable();
      if !ok {
        return done, undone, Some(Failed);
      }
      var read := AppliedVersions();
      if read.Err? {
        return done, undone, Some(read.error);
      }
      var highest := Highest(read.value);
      NoneHigher(log, highest);
      done, err := Run(ms);
      if err.Some? {
        return;
      }
      PendingAbove(ms, old(rows), old(log), highest);
      undone, err := Rollback(ms, highest);
      if err.None? {
        BackToBefore(ms, done, undone, old(log), log, highest);
        if Undoes(old(schema), done) {
          PendingDistinct(ms, old(rows));
          ThereAndBack(old(schema), old(rows), done);
        }
      }
    }

    /** The first i migrations of the plan are undone. */
    ghost predicate Reverted(undo: seq<M<S>>, i: nat, was: seq<string>, schemaWas: S, rowsWas: Rows)
      requires i <= |undo| <= |was|
      reads this
    {
      && Sound() && log == was[..|was| - i]
      && schema == Downs(schemaWas, undo[..i]) && rows == Forgotten(rowsWas, undo[..i])
    }

    method RevertNext(undo: seq<M<S>>, i: nat, ghost was: seq<string>, ghost schemaWas: S, ghost rowsWas: Rows) returns (ok: bool)
      requires i < |undo| && IsTop(undo, was) && undo[i].down.Some? && Reverted(undo, i, was, schemaWas, rowsWas)
      modifies this
      ensures Reverted(undo, if ok then i + 1 else i, was, schemaWas, rowsWas)
    {
      TopAt(undo, was, i);
      ok := Revert(undo[i]);
      assert undo[..i + 1][..i] == undo[..i];
      assert was[..|was| - i][..|was| - i - 1] == was[..|was| - (i + 1)];
    }

    method RevertAll(undo: seq<M<S>>) returns (done: seq<M<S>>, err: Option<Error>)
      requires Sound() && IsTop(undo, log)
      requires forall m :: m in undo ==> m.down.Some?
      modifies this
      ensures Sound() && IsTop(done, old(log)) && log == old(log)[..|old(log)| - |done|]
      ensures schema == Downs(old(schema), done) && rows == Forgotten(old(rows), done)
      ensures done <= undo && (err.None? ==> done == undo) && (err.Some? ==> err == Some(Failed))
    {
      ghost var was, schemaWas, rowsWas := log, schema, rows;
      assert undo[..0] == [] && was[..|was|] == was;
      for i := 0 to |undo|
        invariant Reverted(undo, i, was, schemaWas, rowsWas)
      {
        var ok := RevertNext(undo, i, was, schemaWas, rowsWas);
        if !ok {
          TopAt(undo, was, i);
          return undo[..i], Some(Failed);
        }
      }
      assert undo[..|undo|] == undo;
      return undo, None;
    }
  }

  /** The loop over the sorted set; the first unrecorded migration behind the highest version stops it. */
  method FindPending<S(!new)>(sorted: seq<M<S>>, applied: seq<string>, highest: string, ghost rows: Rows) returns (r: Result<seq<M<S>>, Error>)
    requires forall v :: v in applied <==> v in rows
    requires highest != "" ==> highest in rows
    ensures r.Ok? ==> r.value == Pending(sorted, rows) && forall m :: m in sorted && m.version !in rows ==> !Less(m.version, highest)
    ensures r.Err? ==> r.error == OutOfOrder && Behind(sorted, rows)
  {
    var pending := [];
    for i := 0 to |sorted|
      invariant pending == Pending(sorted[..i], rows)
      invariant forall j :: 0 <= j < i && sorted[j].version !in rows ==> !Less(sorted[j].version, highest)
    {
      var m := sorted[i];
      assert sorted[..i + 1][..i] == sorted[..i];
      if m.version in applied {
        continue;
      }
      if Less(m.version, highest) {
        assert m in sorted;
        return Err(OutOfOrder);
      }
      pending := pending + [m];
    }
    assert sorted[..|sorted|] == sorted;
    return Ok(pending);
  }

  /** The applied versions above the given one, newest first. */
  method TargetsAbove(applied: seq<string>, to: string) returns (targets: seq<string>)
    requires Rising(applied)
    ensures targets == Reversed(Above(applied, to))
  {
    var above: seq<string> := [];
    for i := 0 to |applied|
      invariant above == Above(applied[..i], to)
    {
      assert applied[..i + 1][..i] == applied[..i];
      if Less(to, applied[i]) {
        above := above + [applied[i]];
      }
    }
    assert applied[..|applied|] == applied;
    AboveIsTop(applied, to);
    SortFixed(Plain, above);
    return Reversed(Sort(Plain, above));
  }

  /** Every version is looked up before anything is undone. */
  method FindAll<S(!new)>(ms: seq<M<S>>, targets: seq<string>) returns (r: Result<seq<M<S>>, Error>)
    ensures r.Ok? ==> Versions(r.value) == targets && forall m :: m in r.value ==> m in ms
    ensures r.Err? ==> r.error == Missing && exists v :: v in targets && forall m :: m in ms ==> m.version != v
  {
    var byVersion: map<string, M<S>> := map[];
    for i := 0 to |ms|
      invariant forall v :: v in byVersion ==> byVersion[v] in ms && byVersion[v].version == v
      invariant forall j :: 0 <= j < i ==> ms[j].version in byVersion
    {
      byVersion := byVersion[ms[i].version := ms[i]];
    }
    var undo := [];
    for i := 0 to |targets|
      invariant |undo| == i
      invariant forall j :: 0 <= j < i ==> undo[j] in ms && undo[j].version == targets[j]
    {
      if targets[i] !in byVersion {
        assert targets[i] in targets;
        return Err(Missing);
      }
      undo := undo + [byVersion[targets[i]]];
    }
    assert Versions(undo) == targets;
    return Ok(undo);
  }

  /** The loop over the applied versions. */
  method Highest(applied: seq<string>) returns (highest: string)
    ensures highest != "" ==> highest in applied
    ensures forall v :: v in applied ==> v == highest || Less(v, highest)
  {
    highest := "";
    for i := 0 to |applied|
      invariant highest != "" ==> highest in applied[..i]
      invariant forall j :: 0 <= j < i ==> applied[j] == highest || Less(applied[j], highest)
    {
      var v := applied[i];
      LessTotal(highest, v);
      if Less(highest, v) {
        forall j | 0 <= j < i ensures Less(applied[j], v) {
          if applied[j] != highest {
            LessTransitive(applied[j], highest, v);
          }
        }
        highest := v;
      }
      assert v in applied[..i + 1];
    }
  }
}
