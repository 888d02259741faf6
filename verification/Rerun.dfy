/** The next run: the manifests as the last run left them, read back, replayed and diffed again. */
module Rerun {
  import opened Wrappers
  import opened Text
  import opened Orm
  import opened Operations
  import opened Differ
  import opened Alterations
  import opened DiffSoundness
  import opened Catalog
  import opened Dialects
  import opened Makemigrations
  import opened Generation
  import opened Replay

  /** What each registered module's manifest lists. */
  type Manifests = map<string, seq<Entry>>

  function Listed(manifests: Manifests, m: string): seq<Entry>
  {
    if m in manifests then manifests[m] else []
  }

  /** The manifests of the registered modules, in registration order; no other is read. */
  function Read(names: seq<string>, manifests: Manifests): seq<seq<Entry>>
  {
    seq(|names|, i requires 0 <= i < |names| => Listed(manifests, names[i]))
  }

  function EntryOf(m: Migration): Entry
  {
    Entry(m.version, Some(m.sidecar))
  }

  /** Each migration's entry joins its owner's manifest. */
  function Appended(manifests: Manifests, out: seq<Migration>): Manifests
  {
    if out == [] then manifests
    else
      var most, m := Appended(manifests, out[..|out| - 1]), out[|out| - 1];
      most[m.owner := Listed(most, m.owner) + [EntryOf(m)]]
  }

  /** The migrations the next run will see: those of registered modules. */
  function Seen(names: seq<string>, out: seq<Migration>): seq<Migration>
  {
    if out == [] then []
    else Seen(names, out[..|out| - 1]) + if out[|out| - 1].owner in names then [out[|out| - 1]] else []
  }

  lemma {:induction false} AppendedMembers(manifests: Manifests, out: seq<Migration>, n: string, e: Entry)
    ensures e in Listed(Appended(manifests, out), n) <==> e in Listed(manifests, n) || exists m :: m in out && m.owner == n && EntryOf(m) == e
  {
    if out != [] {
      var front, last := out[..|out| - 1], out[|out| - 1];
      AppendedMembers(manifests, front, n, e);
      AppendOne(Appended(manifests, front), last, n, e);
      assert out == front + [last];
    }
  }

  lemma AppendOne(manifests: Manifests, m: Migration, n: string, e: Entry)
    ensures e in Listed(manifests[m.owner := Listed(manifests, m.owner) + [EntryOf(m)]], n)
            <==> e in Listed(manifests, n) || (m.owner == n && EntryOf(m) == e)
  {
  }

  lemma {:induction false} SeenMembers(names: seq<string>, out: seq<Migration>)
    ensures forall m :: m in Seen(names, out) <==> m in out && m.owner in names
  {
    if out != [] {
      SeenMembers(names, out[..|out| - 1]);
      assert out == out[..|out| - 1] + [out[|out| - 1]];
    }
  }

  lemma {:induction false} FlattenMembers(names: seq<string>, manifests: Manifests, e: Entry)
    ensures e in Flatten(Read(names, manifests)) <==> exists n :: n in names && e in Listed(manifests, n)
  {
    if names != [] {
      var front, last := names[..|names| - 1], names[|names| - 1];
      FlattenMembers(front, manifests, e);
      assert Read(names, manifests)[..|names| - 1] == Read(front, manifests);
      assert names == front + [last];
      assert last in names;
    }
  }

  // -------------------------------------------------------- no version twice

  /** No version twice: not within one manifest, not in two. */
  ghost predicate Apart(names: seq<string>, manifests: Manifests)
  {
    && (forall n :: n in names ==> DistinctKeys(EntryKey, Listed(manifests, n)))
    && (forall n, k :: n in names && k in names && n != k ==> Disjoint(Listed(manifests, n), Listed(manifests, k)))
  }

  ghost predicate Disjoint(a: seq<Entry>, b: seq<Entry>)
  {
    forall e, f :: e in a && f in b ==> e.version != f.version
  }

  lemma DistinctConcat(a: seq<Entry>, b: seq<Entry>)
    ensures DistinctKeys(EntryKey, a + b) <==> DistinctKeys(EntryKey, a) && DistinctKeys(EntryKey, b) && Disjoint(a, b)
  {
    var all := a + b;
    if DistinctKeys(EntryKey, all) {
      forall i, j | 0 <= i < j < |a| ensures EntryKey(a[i]) != EntryKey(a[j]) {
        assert all[i] == a[i] && all[j] == a[j];
      }
      forall i, j | 0 <= i < j < |b| ensures EntryKey(b[i]) != EntryKey(b[j]) {
        assert all[|a| + i] == b[i] && all[|a| + j] == b[j];
      }
      forall e, f | e in a && f in b ensures e.version != f.version {
        var i :| 0 <= i < |a| && a[i] == e;
        var j :| 0 <= j < |b| && b[j] == f;
        assert EntryKey(all[i]) != EntryKey(all[|a| + j]);
      }
    }
  }

  lemma ReadSnoc(front: seq<string>, last: string, manifests: Manifests)
    ensures Flatten(Read(front + [last], manifests)) == Flatten(Read(front, manifests)) + Listed(manifests, last)
  {
    var all := Read(front + [last], manifests);
    assert all[..|front|] == Read(front, manifests) && all[|front|] == Listed(manifests, last);
  }

  lemma {:induction false} FlattenDistinct(names: seq<string>, manifests: Manifests)
    requires forall i, j :: 0 <= i < j < |names| ==> names[i] != names[j]
    ensures DistinctKeys(EntryKey, Flatten(Read(names, manifests))) <==> Apart(names, manifests)
  {
    if names != [] {
      var front, last := names[..|names| - 1], names[|names| - 1];
      FlattenDistinct(front, manifests);
      assert names == front + [last];
      ReadSnoc(front, last, manifests);
      DistinctConcat(Flatten(Read(front, manifests)), Listed(manifests, last));
      DisjointFlatten(front, manifests, Listed(manifests, last));
      ApartSnoc(front, last, manifests);
    }
  }

  lemma DisjointFlatten(names: seq<string>, manifests: Manifests, b: seq<Entry>)
    ensures Disjoint(Flatten(Read(names, manifests)), b) <==> forall n :: n in names ==> Disjoint(Listed(manifests, n), b)
  {
    forall e ensures e in Flatten(Read(names, manifests)) <==> exists n :: n in names && e in Listed(manifests, n) {
      FlattenMembers(names, manifests, e);
    }
  }

  lemma ApartSnoc(front: seq<string>, last: string, manifests: Manifests)
    requires last !in front
    ensures Apart(front + [last], manifests)
            <==> Apart(front, manifests) && DistinctKeys(EntryKey, Listed(manifests, last))
                 && forall n :: n in front ==> Disjoint(Listed(manifests, n), Listed(manifests, last))
  {
    if Apart(front + [last], manifests) {
      ApartFront(front, last, manifests);
    }
    if Apart(front, manifests) && DistinctKeys(EntryKey, Listed(manifests, last)) && forall n :: n in front ==> Disjoint(Listed(manifests, n), Listed(manifests, last)) {
      ApartJoined(front, last, manifests);
    }
  }

  lemma ApartFront(front: seq<string>, last: string, manifests: Manifests)
    requires last !in front && Apart(front + [last], manifests)
    ensures Apart(front, manifests) && DistinctKeys(EntryKey, Listed(manifests, last))
    ensures forall n :: n in front ==> Disjoint(Listed(manifests, n), Listed(manifests, last))
  {
    assert last in front + [last] && forall n :: n in front ==> n in front + [last];
  }

  lemma ApartJoined(front: seq<string>, last: string, manifests: Manifests)
    requires Apart(front, manifests) && DistinctKeys(EntryKey, Listed(manifests, last))
    requires forall n :: n in front ==> Disjoint(Listed(manifests, n), Listed(manifests, last))
    ensures Apart(front + [last], manifests)
  {
  }

  /** No registered manifest lists this version. */
  ghost predicate Unlisted(names: seq<string>, manifests: Manifests, v: string)
  {
    forall n, e :: n in names && e in Listed(manifests, n) ==> e.version != v
  }

  lemma AppendOneApart(names: seq<string>, manifests: Manifests, m: Migration)
    requires Apart(names, manifests) && Unlisted(names, manifests, m.version)
    ensures Apart(names, manifests[m.owner := Listed(manifests, m.owner) + [EntryOf(m)]])
  {
    var more := manifests[m.owner := Listed(manifests, m.owner) + [EntryOf(m)]];
    forall n | n in names ensures DistinctKeys(EntryKey, Listed(more, n)) {
      if n == m.owner {
        DistinctConcat(Listed(manifests, n), [EntryOf(m)]);
      }
    }
  }

  lemma {:induction false} AppendedApart(names: seq<string>, manifests: Manifests, out: seq<Migration>)
    requires Apart(names, manifests)
    requires forall i :: 0 <= i < |out| ==> Unlisted(names, manifests, out[i].version)
    requires forall i, j :: 0 <= i < j < |out| ==> out[i].version != out[j].version
    ensures Apart(names, Appended(manifests, out))
  {
    if out != [] {
      var front, m := out[..|out| - 1], out[|out| - 1];
      AppendedApart(names, manifests, front);
      forall n, e | n in names && e in Listed(Appended(manifests, front), n) ensures e.version != m.version {
        AppendedMembers(manifests, front, n, e);
      }
      AppendOneApart(names, Appended(manifests, front), m);
    }
  }

  // ------------------------------------------------------ the chain read back

  function EntriesOf(out: seq<Migration>): seq<Entry>
  {
    seq(|out|, i requires 0 <= i < |out| => EntryOf(out[i]))
  }

  /** What the next run replays. */
  function Chain(names: seq<string>, manifests: Manifests): seq<Entry>
  {
    Sort(EntryKey, Flatten(Read(names, manifests)))
  }

  ghost predicate Rising(out: seq<Migration>)
  {
    forall i, j :: 0 <= i < j < |out| ==> Less(out[i].version, out[j].version)
  }

  lemma {:induction false} SeenRises(names: seq<string>, out: seq<Migration>)
    requires Rising(out)
    ensures Rising(Seen(names, out))
  {
    if out != [] {
      var front, last := out[..|out| - 1], out[|out| - 1];
      SeenRises(names, front);
      SeenMembers(names, front);
      forall m | m in Seen(names, front) ensures Less(m.version, last.version) {
        var i :| 0 <= i < |front| && front[i] == m;
        assert Less(out[i].version, out[|out| - 1].version);
      }
    }
  }

  /** The new entries come after all that was recorded. */
  lemma ChainGrows(names: seq<string>, manifests: Manifests, out: seq<Migration>)
    requires forall i, j :: 0 <= i < j < |names| ==> names[i] != names[j]
    requires Apart(names, manifests) && Rising(out)
    requires forall e, i :: e in Flatten(Read(names, manifests)) && 0 <= i < |out| ==> Less(e.version, out[i].version)
    ensures DistinctKeys(EntryKey, Flatten(Read(names, Appended(manifests, out))))
    ensures Chain(names, Appended(manifests, out)) == Chain(names, manifests) + EntriesOf(Seen(names, out))
  {
    var past, news := Chain(names, manifests), EntriesOf(Seen(names, out));
    OldAscending(names, manifests);
    NewApart(names, manifests, out);
    JoinedAscending(names, manifests, out);
    forall e ensures e in Flatten(Read(names, Appended(manifests, out))) <==> e in past + news {
      ChainMembers(names, manifests, out, e);
    }
    ManifestOrderIrrelevant(Read(names, Appended(manifests, out)), past + news);
  }

  lemma OldAscending(names: seq<string>, manifests: Manifests)
    requires forall i, j :: 0 <= i < j < |names| ==> names[i] != names[j]
    requires Apart(names, manifests)
    ensures Ascending(EntryKey, Chain(names, manifests))
    ensures forall e :: e in Chain(names, manifests) <==> e in Flatten(Read(names, manifests))
  {
    FlattenDistinct(names, manifests);
    SortAscending(EntryKey, Flatten(Read(names, manifests)));
    SortMembers(EntryKey, Flatten(Read(names, manifests)));
  }

  lemma NewApart(names: seq<string>, manifests: Manifests, out: seq<Migration>)
    requires forall i, j :: 0 <= i < j < |names| ==> names[i] != names[j]
    requires Apart(names, manifests) && Rising(out)
    requires forall e, i :: e in Flatten(Read(names, manifests)) && 0 <= i < |out| ==> Less(e.version, out[i].version)
    ensures DistinctKeys(EntryKey, Flatten(Read(names, Appended(manifests, out))))
  {
    forall i | 0 <= i < |out| ensures Unlisted(names, manifests, out[i].version) {
      LessIrreflexive(out[i].version);
      forall n, e | n in names && e in Listed(manifests, n) ensures e.version != out[i].version {
        FlattenMembers(names, manifests, e);
      }
    }
    forall i, j | 0 <= i < j < |out| ensures out[i].version != out[j].version {
      LessIrreflexive(out[i].version);
    }
    AppendedApart(names, manifests, out);
    FlattenDistinct(names, Appended(manifests, out));
  }

  lemma JoinedAscending(names: seq<string>, manifests: Manifests, out: seq<Migration>)
    requires Ascending(EntryKey, Chain(names, manifests)) && Rising(out)
    requires forall e, i :: e in Chain(names, manifests) && 0 <= i < |out| ==> Less(e.version, out[i].version)
    ensures Ascending(EntryKey, Chain(names, manifests) + EntriesOf(Seen(names, out)))
  {
    var past, seen := Chain(names, manifests), Seen(names, out);
    SeenRises(names, out);
    SeenMembers(names, out);
    forall e, m | e in past && m in seen ensures Less(e.version, m.version) {
      var k :| 0 <= k < |out| && out[k] == m;
    }
    RisesOn(past, seen);
  }

  lemma RisesOn(past: seq<Entry>, seen: seq<Migration>)
    requires Ascending(EntryKey, past) && Rising(seen) && forall e, m :: e in past && m in seen ==> Less(e.version, m.version)
    ensures Ascending(EntryKey, past + EntriesOf(seen))
  {
    forall i, j | 0 <= i < |past| && 0 <= j < |seen| ensures Less(past[i].version, seen[j].version) {
      assert past[i] in past && seen[j] in seen;
    }
  }

  lemma ChainMembers(names: seq<string>, manifests: Manifests, out: seq<Migration>, e: Entry)
    requires forall x :: x in Chain(names, manifests) <==> x in Flatten(Read(names, manifests))
    ensures e in Flatten(Read(names, Appended(manifests, out))) <==> e in Chain(names, manifests) + EntriesOf(Seen(names, out))
  {
    FlattenMembers(names, Appended(manifests, out), e);
    FlattenMembers(names, manifests, e);
    forall n ensures e in Listed(Appended(manifests, out), n) <==> e in Listed(manifests, n) || exists m :: m in out && m.owner == n && EntryOf(m) == e {
      AppendedMembers(manifests, out, n, e);
    }
    SeenEntries(names, out, e);
  }

  lemma SeenEntries(names: seq<string>, out: seq<Migration>, e: Entry)
    ensures e in EntriesOf(Seen(names, out)) <==> exists m :: m in out && m.owner in names && EntryOf(m) == e
  {
    var seen := Seen(names, out);
    SeenMembers(names, out);
    if exists m :: m in out && m.owner in names && EntryOf(m) == e {
      var m :| m in out && m.owner in names && EntryOf(m) == e;
      var i :| 0 <= i < |seen| && seen[i] == m;
      assert EntriesOf(seen)[i] == e;
    }
    if e in EntriesOf(seen) {
      var i :| 0 <= i < |seen| && EntriesOf(seen)[i] == e;
      assert seen[i] in out && seen[i].owner in names;
    }
  }

  // ------------------------------------------------------------ the next run

  /** The manifests can be replayed. */
  ghost predicate Replayable(names: seq<string>, manifests: Manifests)
  {
    var all := Flatten(Read(names, manifests));
    DistinctKeys(EntryKey, all) && forall e :: e in all ==> Readable(e) && e.version != ""
  }

  /** The state they record. */
  function Recorded(names: seq<string>, manifests: Manifests): Snapshot
  {
    LastState(StepsOf(Chain(names, manifests)))
  }

  method ReplayManifests(names: seq<string>, manifests: Manifests) returns (r: Result<Snapshot, Error>)
    ensures r.Ok? <==> Replayable(names, manifests)
    ensures r.Ok? ==> r.value == Recorded(names, manifests) && UsableSteps(StepsOf(Chain(names, manifests)))
  {
    var read: seq<seq<Entry>> := [];
    for i := 0 to |names|
      invariant read == Read(names, manifests)[..i]
    {
      read := read + [Listed(manifests, names[i])];
    }
    assert read == Read(names, manifests);
    r := ReplayRecordedState(read);
  }

  /** One run's manifests: distinct registered names, readable entries, and a run whose versions are all later. */
  ghost predicate RunFollows(names: seq<string>, manifests: Manifests, before: Snapshot, out: seq<Migration>, version: string, c: Clock)
  {
    && (forall i, j :: 0 <= i < j < |names| ==> names[i] != names[j])
    && Replayable(names, manifests) && Recorded(names, manifests) == before
    && (forall e :: e in Flatten(Read(names, manifests)) ==> Less(e.version, version))
    && version != "" && VersionsAscend(version, c, |out|)
  }

  lemma VersionsLater(entries: seq<Entry>, out: seq<Migration>, version: string, c: Clock)
    requires forall e :: e in entries ==> Less(e.version, version)
    requires VersionsAscend(version, c, |out|) && forall i :: 0 <= i < |out| ==> out[i].version == Bumped(version, c, i)
    ensures Rising(out)
    ensures forall e, i :: e in entries && 0 <= i < |out| ==> Less(e.version, out[i].version)
  {
    forall e, i | e in entries && 0 <= i < |out| ensures Less(e.version, out[i].version) {
      assert Bumped(version, c, 0) == version;
      if i > 0 {
        LessTransitive(e.version, version, out[i].version);
      }
    }
  }

  lemma StepsAppend(past: seq<Entry>, seen: seq<Migration>)
    ensures StepsOf(past + EntriesOf(seen)) == StepsOf(past) + NewSteps(seen)
  {
  }

  /** The last migration the next run sees, if it sees any. */
  lemma {:induction false} LastSeen(names: seq<string>, out: seq<Migration>) returns (k: nat)
    ensures k <= |out| && (forall j :: k <= j < |out| ==> out[j].owner !in names)
    ensures if k == 0 then Seen(names, out) == []
            else Seen(names, out) != [] && Seen(names, out)[|Seen(names, out)| - 1] == out[k - 1] && out[k - 1].owner in names
  {
    if out == [] {
      k := 0;
    } else if out[|out| - 1].owner in names {
      k := |out|;
    } else {
      k := LastSeen(names, out[..|out| - 1]);
    }
  }

  /** The state read back is the sidecar of the last migration that is seen. */
  lemma StateReadBack(names: seq<string>, manifests: Manifests, out: seq<Migration>, d: Dialect, name: Obj -> string, before: Snapshot, after: Snapshot,
                      ops: seq<Op>, order: seq<string>, version: string, c: Clock) returns (k: nat)
    requires ValidSnapshot(before) && ValidSnapshot(after) && Carries(ops, before, after)
    requires MigrationsAt(out, d, name, before, after, ops, order, version, c)
    requires RunFollows(names, manifests, before, out, version, c)
    ensures k <= |out| && (forall j :: k <= j < |out| ==> out[j].owner !in names) && (k > 0 ==> out[k - 1].owner in names)
    ensures Recorded(names, Appended(manifests, out)) == Cumulative(before, after, ops, order, k)
  {
    ChainReadBack(names, manifests, out, d, name, before, after, ops, order, version, c);
    k := LastSeen(names, out);
    SidecarsAre(out, d, name, before, after, ops, order, version, c);
    SeenEnds(StepsOf(Chain(names, manifests)), Seen(names, out), out, k, before, after, ops, order);
  }

  lemma ChainReadBack(names: seq<string>, manifests: Manifests, out: seq<Migration>, d: Dialect, name: Obj -> string, before: Snapshot, after: Snapshot,
                      ops: seq<Op>, order: seq<string>, version: string, c: Clock)
    requires MigrationsAt(out, d, name, before, after, ops, order, version, c)
    requires RunFollows(names, manifests, before, out, version, c)
    ensures StepsOf(Chain(names, Appended(manifests, out))) == StepsOf(Chain(names, manifests)) + NewSteps(Seen(names, out))
  {
    VersionsAre(out, d, name, before, after, ops, order, version, c);
    VersionsLater(Flatten(Read(names, manifests)), out, version, c);
    FlattenDistinct(names, manifests);
    ChainGrows(names, manifests, out);
    StepsAppend(Chain(names, manifests), Seen(names, out));
  }

  lemma SeenEnds(past: seq<StateStep>, seen: seq<Migration>, out: seq<Migration>, k: nat, before: Snapshot, after: Snapshot, ops: seq<Op>, order: seq<string>)
    requires ValidSnapshot(before) && ValidSnapshot(after) && Carries(ops, before, after)
    requires SidecarsAt(out, before, after, ops, order) && k <= |out| && LastState(past) == before
    requires if k == 0 then seen == [] else seen != [] && seen[|seen| - 1] == out[k - 1]
    ensures LastState(past + NewSteps(seen)) == Cumulative(before, after, ops, order, k)
  {
    if k > 0 {
      LastRecorded(out, k - 1, before, after, ops, order);
    }
    EndsWith(past, seen, Cumulative(before, after, ops, order, k));
  }

  /** The manifests stay replayable: nothing a run writes makes the next one fail. */
  lemma StaysReplayable(names: seq<string>, manifests: Manifests, out: seq<Migration>, d: Dialect, name: Obj -> string, before: Snapshot, after: Snapshot,
                        ops: seq<Op>, order: seq<string>, version: string, c: Clock)
    requires ValidSnapshot(before) && ValidSnapshot(after) && Carries(ops, before, after)
    requires MigrationsAt(out, d, name, before, after, ops, order, version, c)
    requires RunFollows(names, manifests, before, out, version, c)
    ensures Replayable(names, Appended(manifests, out))
  {
    VersionsAre(out, d, name, before, after, ops, order, version, c);
    VersionsLater(Flatten(Read(names, manifests)), out, version, c);
    FlattenDistinct(names, manifests);
    NewApart(names, manifests, out);
    forall e | e in Flatten(Read(names, Appended(manifests, out))) ensures Readable(e) && e.version != "" {
      FlattenMembers(names, Appended(manifests, out), e);
      var n :| n in names && e in Listed(Appended(manifests, out), n);
      AppendedMembers(manifests, out, n, e);
      FlattenMembers(names, manifests, e);
      if e !in Listed(manifests, n) {
        var m :| m in out && m.owner == n && EntryOf(m) == e;
        var i :| 0 <= i < |out| && out[i] == m;
        NewReadable(out, i, d, name, before, after, ops, order, version, c);
      }
    }
  }

  lemma NewReadable(out: seq<Migration>, i: nat, d: Dialect, name: Obj -> string, before: Snapshot, after: Snapshot, ops: seq<Op>, order: seq<string>, version: string, c: Clock)
    requires ValidSnapshot(before) && ValidSnapshot(after) && Carries(ops, before, after)
    requires MigrationsAt(out, d, name, before, after, ops, order, version, c) && i < |out|
    requires version != "" && VersionsAscend(version, c, |out|)
    ensures Readable(EntryOf(out[i])) && out[i].version != ""
  {
    SidecarsAre(out, d, name, before, after, ops, order, version, c);
    LastRecorded(out, i, before, after, ops, order);
    assert MigrationAt(out[i], i, d, name, before, after, ops, order, version, c);
    if i > 0 {
      assert Less(Bumped(version, c, 0), Bumped(version, c, i));
    }
  }

  /**
    After a run, the manifests read back and replayed record a state whose diff against the same models is
    empty if and only if every module had its turn and the last one is registered. A dropped table whose
    module is gone writes to a manifest that no later run reads, so its drop is proposed again.
    */
  lemma NextDiffEmptyIff(names: seq<string>, manifests: Manifests, out: seq<Migration>, d: Dialect, name: Obj -> string, before: Snapshot, after: Snapshot,
                         ren: Renaming, order: seq<string>, version: string, c: Clock)
    requires ValidSnapshot(before) && ValidSnapshot(after) && FitsAll(before, after, ren)
    requires IsOrder(order, RewriteAll(DiffOps(before, after), ren), before, after)
    requires MigrationsAt(out, d, name, before, after, RewriteAll(DiffOps(before, after), ren), order, version, c)
    requires RunFollows(names, manifests, before, out, version, c)
    ensures Replayable(names, Appended(manifests, out))
    ensures DiffOps(Recorded(names, Appended(manifests, out)), after) == []
            <==> |out| == |order| && (out == [] || out[|out| - 1].owner in names)
  {
    var ops := RewriteAll(DiffOps(before, after), ren);
    ResolvedListsCarry(before, after, ren);
    StaysReplayable(names, manifests, out, d, name, before, after, ops, order, version, c);
    var k := StateReadBack(names, manifests, out, d, name, before, after, ops, order, version, c);
    NothingRemainsIff(before, after, ren, order, k);
  }

  /** So when every owner is registered, running the command again after a whole run proposes nothing. */
  lemma NextDiffEmpty(names: seq<string>, manifests: Manifests, out: seq<Migration>, d: Dialect, name: Obj -> string, before: Snapshot, after: Snapshot,
                      ren: Renaming, version: string, c: Clock)
    requires ValidSnapshot(before) && ValidSnapshot(after) && FitsAll(before, after, ren)
    requires Generates(out, d, name, before, after, RewriteAll(DiffOps(before, after), ren), version, c)
    requires RunFollows(names, manifests, before, out, version, c)
    requires forall m :: m in out ==> m.owner in names
    ensures Replayable(names, Appended(manifests, out)) && DiffOps(Recorded(names, Appended(manifests, out)), after) == []
  {
    NextDiffEmptyIff(names, manifests, out, d, name, before, after, ren, OwnersOf(out), version, c);
  }

  // --------------------------------------------- a drop that keeps coming back

  /** A table of a module that is no longer registered, recorded in another module's sidecar. */
  function Orphan(): Registered
  {
    Registered("gone", Model("t", [Field("id", TInt, 0, false, true, false, false)]))
  }

  lemma OrphanValid(r: Registered, before: Snapshot)
    requires r == Orphan() && before == Snapshot([r])
    ensures ValidSnapshot(before) && ValidSnapshot(Snapshot([]))
  {
    var m := r.model;
    assert !Blank("t") && !Blank("id") by {
      assert !IsSpace("t"[0]) && !IsSpace("id"[0]);
    }
    assert m.fields[..0] == [];
    assert KeyCount(m.fields) == 1;
  }

  lemma OnlyDrop(r: Registered, before: Snapshot, after: Snapshot)
    requires before == Snapshot([r]) && after == Snapshot([])
    ensures DiffOps(before, after) == [DropTable(r.model.table)]
    ensures OwnerOf(r.model.table, before, after) == r.owner
  {
    var none: seq<Registered> := [];
    assert before.models[..0] == none && DropOps(none, none) == [];
    assert DropOps(before.models, none) == DropOps(before.models[..0], none) + [DropTable(r.model.table)];
  }

  lemma OneOwner(ops: seq<Op>, before: Snapshot, after: Snapshot, order: seq<string>)
    requires |ops| == 1 && order == [OwnerOf(TableOf(ops[0]), before, after)]
    ensures IsOrder(order, ops, before, after) && Share(ops, order[0], before, after) == ops
  {
    assert ops[1..] == [] && ops == [ops[0]];
  }

  /** The list of one drop, its order and its only migration, second version of the chain. */
  lemma OneMigration(r: Registered, before: Snapshot, after: Snapshot, name: Obj -> string, c: Clock, ops: seq<Op>, order: seq<string>) returns (out: seq<Migration>)
    requires before == Snapshot([r]) && after == Snapshot([]) && ValidSnapshot(before) && ValidSnapshot(after)
    requires ops == DiffOps(before, after) && order == [r.owner]
    ensures IsOrder(order, ops, before, after) && |out| == 1 && out[0].owner == r.owner
    ensures MigrationsAt(out, Postgres, name, before, after, ops, order, "2", c)
  {
    OnlyDrop(r, before, after);
    OneOwner(ops, before, after, order);
    NoRenamesFit(before, after);
    ResolvedCarries(before, after, NO_RENAMES);
    RewriteNothing(ops);
    PostgresNeverByHand(ops, before, SchemaOf(before.models), name);
    out := [Migration(r.owner, "2", RenderAll(Postgres, ops, name).value, DownAll(Postgres, ops, before, name).value,
                      Encode(Cumulative(before, after, ops, order, 1)))];
  }

  /** What one registered module's manifest holds: the recorded state, first version of the chain. */
  lemma OneRecorded(before: Snapshot, names: seq<string>, manifests: Manifests, e: Entry, out: seq<Migration>, c: Clock)
    requires ValidSnapshot(before) && names == ["here"] && e == Entry("1", Some(Encode(before))) && manifests == map["here" := [e]] && |out| == 1
    ensures RunFollows(names, manifests, before, out, "2", c)
  {
    EncodeRoundTrip(before);
    var read := Read(names, manifests);
    assert read == [[e]] && read[..0] == [];
    assert Flatten(read) == Flatten(read[..0]) + [e] == [e];
    assert [e][1..] == [] && Sort(EntryKey, [e]) == [e];
    assert StepsOf([e]) == [StateStep("1", Some(before))];
  }

  /**
    The condition is needed: with one registered module, whose sidecar still records a table of a module
    that is gone, the drop is generated, and generated again by the next run.
    */
  lemma DropComesBack(r: Registered, before: Snapshot, after: Snapshot, names: seq<string>, manifests: Manifests, name: Obj -> string, c: Clock)
    returns (out: seq<Migration>)
    requires r == Orphan() && before == Snapshot([r]) && after == Snapshot([])
    requires names == ["here"] && manifests == map["here" := [Entry("1", Some(Encode(before)))]]
    ensures RunFollows(names, manifests, before, out, "2", c)
    ensures Generates(out, Postgres, name, before, after, DiffOps(before, after), "2", c)
    ensures DiffOps(before, after) != [] && DiffOps(Recorded(names, Appended(manifests, out)), after) != []
  {
    OrphanValid(r, before);
    OnlyDrop(r, before, after);
    out := DropAgain(r, before, after, DiffOps(before, after), [r.owner], names, manifests, Entry("1", Some(Encode(before))), name, c);
  }

  lemma DropAgain(r: Registered, before: Snapshot, after: Snapshot, ops: seq<Op>, order: seq<string>, names: seq<string>, manifests: Manifests, e: Entry,
                  name: Obj -> string, c: Clock) returns (out: seq<Migration>)
    requires before == Snapshot([r]) && after == Snapshot([]) && ValidSnapshot(before) && ValidSnapshot(after) && r.owner != "here"
    requires ops == DiffOps(before, after) && order == [r.owner]
    requires names == ["here"] && e == Entry("1", Some(Encode(before))) && manifests == map["here" := [e]]
    ensures RunFollows(names, manifests, before, out, "2", c)
    ensures Generates(out, Postgres, name, before, after, ops, "2", c)
    ensures DiffOps(Recorded(names, Appended(manifests, out)), after) != []
  {
    out := OneMigration(r, before, after, name, c, ops, order);
    OneRecorded(before, names, manifests, e, out, c);
    ComesBack(before, after, names, manifests, out, order, name, c);
  }

  lemma ComesBack(before: Snapshot, after: Snapshot, names: seq<string>, manifests: Manifests, out: seq<Migration>, order: seq<string>, name: Obj -> string, c: Clock)
    requires ValidSnapshot(before) && ValidSnapshot(after) && IsOrder(order, DiffOps(before, after), before, after)
    requires MigrationsAt(out, Postgres, name, before, after, DiffOps(before, after), order, "2", c) && RunFollows(names, manifests, before, out, "2", c)
    requires |out| == |order| == 1 && out[0].owner !in names
    ensures Generates(out, Postgres, name, before, after, DiffOps(before, after), "2", c)
    ensures DiffOps(Recorded(names, Appended(manifests, out)), after) != []
  {
    OwnersInOrder(out, Postgres, name, before, after, DiffOps(before, after), order, "2", c);
    NoRenamesFit(before, after);
    RewriteNothing(DiffOps(before, after));
    NextDiffEmptyIff(names, manifests, out, Postgres, name, before, after, NO_RENAMES, order, "2", c);
  }
}
