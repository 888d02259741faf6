/** replayRecordedState: every module's manifest, ordered into one chain and replayed. */
module Replay {
  import opened Wrappers
  import opened Text
  import opened Orm

  /** A manifest line: its version, and the recorded state unless the migration was hand-written. */
  datatype Entry = Entry(version: string, state: Option<Wire>)

  function EntryKey(e: Entry): Key
  {
    Key(0, e.version)
  }

  function Flatten(manifests: seq<seq<Entry>>): seq<Entry>
  {
    if manifests == [] then [] else Flatten(manifests[..|manifests| - 1]) + manifests[|manifests| - 1]
  }

  predicate Readable(e: Entry)
  {
    e.state.Some? ==> (e.state.value.v == 0 || e.state.value.v == STATE_FORMAT_VERSION) && Admissible(DecodedAll(e.state.value))
  }

  /** What one entry contributes to the chain. */
  function StepOf(e: Entry): StateStep
  {
    StateStep(e.version, match e.state case None => None case Some(w) => Some(Snapshot(Sort(TableKey, DecodedAll(w)))))
  }

  function StepsOf(entries: seq<Entry>): seq<StateStep>
  {
    seq(|entries|, i requires 0 <= i < |entries| => StepOf(entries[i]))
  }

  /** Duplicate versions, unreadable state and missing versions are refused; otherwise the version-ordered chain is replayed. */
  method ReplayRecordedState(manifests: seq<seq<Entry>>) returns (r: Result<Snapshot, Error>)
    ensures r.Ok? <==> var all := Flatten(manifests);
                       DistinctKeys(EntryKey, all) && forall e :: e in all ==> Readable(e) && e.version != ""
    ensures r.Ok? ==> r.value == LastState(StepsOf(Sort(EntryKey, Flatten(manifests))))
    ensures r.Ok? ==> UsableSteps(StepsOf(Sort(EntryKey, Flatten(manifests))))
  {
    var steps: seq<Entry> := [];
    var seen: set<string> := {};
    ghost var all := Flatten(manifests);
    for m := 0 to |manifests|
      invariant steps == Flatten(manifests[..m])
      invariant DistinctKeys(EntryKey, steps)
      invariant forall v :: v in seen <==> exists e :: e in steps && e.version == v
    {
      ghost var base := steps;
      for k := 0 to |manifests[m]|
        invariant steps == base + manifests[m][..k]
        invariant DistinctKeys(EntryKey, steps)
        invariant forall v :: v in seen <==> exists e :: e in steps && e.version == v
      {
        var e := manifests[m][k];
        assert manifests[m][..k + 1] == manifests[m][..k] + [e];
        assert base + manifests[m][..k] + [e] == base + (manifests[m][..k] + [e]);
        if e.version in seen {
          Clash(steps, e);
          PrefixOfAll(manifests, m, k + 1);
          return Err(BadSteps);
        }
        NoClash(steps, e, seen);
        steps := steps + [e];
        seen := seen + {e.version};
      }
      assert manifests[..m + 1][..m] == manifests[..m];
    }
    assert manifests[..|manifests|] == manifests;
    SortMembers(EntryKey, steps);
    SortAscending(EntryKey, steps);
    var sorted := Sort(EntryKey, steps);
    r := ReplayEntries(sorted);
  }

  method ReplayEntries(sorted: seq<Entry>) returns (r: Result<Snapshot, Error>)
    requires Ascending(EntryKey, sorted)
    ensures r.Ok? <==> forall e :: e in sorted ==> Readable(e) && e.version != ""
    ensures r.Ok? ==> r.value == LastState(StepsOf(sorted)) && UsableSteps(StepsOf(sorted))
  {
    var chain: seq<StateStep> := [];
    for i := 0 to |sorted|
      invariant chain == StepsOf(sorted[..i])
      invariant forall j :: 0 <= j < i ==> Readable(sorted[j])
    {
      var step := StateStep(sorted[i].version, None);
      if sorted[i].state.Some? {
        var snapshot := ParseSnapshot(sorted[i].state.value);
        if snapshot.Err? {
          assert sorted[i] in sorted && !Readable(sorted[i]);
          return Err(BadState);
        }
        step := step.(state := Some(snapshot.value));
      }
      assert step == StepOf(sorted[i]);
      chain := chain + [step];
    }
    assert sorted[..|sorted|] == sorted;
    r := ReplayState(chain);
    AscendingUsable(sorted);
  }

  lemma AscendingUsable(sorted: seq<Entry>)
    requires Ascending(EntryKey, sorted)
    ensures UsableSteps(StepsOf(sorted)) <==> forall e :: e in sorted ==> e.version != ""
  {
    var steps := StepsOf(sorted);
    forall i | 0 < i < |steps| ensures Less(steps[i - 1].version, steps[i].version) {
      assert KeyLess(EntryKey(sorted[i - 1]), EntryKey(sorted[i]));
    }
    if UsableSteps(steps) {
      forall e | e in sorted ensures e.version != "" {
        var i :| 0 <= i < |sorted| && sorted[i] == e;
        assert steps[i].version == e.version;
      }
    }
  }

  lemma Clash(steps: seq<Entry>, e: Entry)
    requires exists d :: d in steps && d.version == e.version
    ensures !DistinctKeys(EntryKey, steps + [e])
  {
    var d :| d in steps && d.version == e.version;
    var i :| 0 <= i < |steps| && steps[i] == d;
    assert EntryKey((steps + [e])[i]) == EntryKey((steps + [e])[|steps|]);
  }

  lemma NoClash(steps: seq<Entry>, e: Entry, seen: set<string>)
    requires DistinctKeys(EntryKey, steps) && e.version !in seen
    requires forall v :: v in seen <==> exists d :: d in steps && d.version == v
    ensures DistinctKeys(EntryKey, steps + [e])
    ensures forall v :: v in seen + {e.version} <==> exists d :: d in steps + [e] && d.version == v
  {
    var more := steps + [e];
    forall i, j | 0 <= i < j < |more| ensures EntryKey(more[i]) != EntryKey(more[j]) {
      assert more[i] in steps;
    }
    forall v ensures v in seen + {e.version} <==> exists d :: d in more && d.version == v {
      if v in seen {
        var d :| d in steps && d.version == v;
        assert d in more;
      }
      assert e in more;
    }
  }

  /** A prefix with a repeated version makes the whole list repeat it. */
  lemma PrefixOfAll(manifests: seq<seq<Entry>>, m: nat, k: nat)
    requires m < |manifests| && k <= |manifests[m]|
    requires !DistinctKeys(EntryKey, Flatten(manifests[..m]) + manifests[m][..k])
    ensures !DistinctKeys(EntryKey, Flatten(manifests))
  {
    var prefix, longer := Flatten(manifests[..m]) + manifests[m][..k], Flatten(manifests[..m + 1]);
    assert manifests[..m + 1][..m] == manifests[..m];
    assert prefix <= longer;
    FlattenGrows(manifests, m + 1);
    assert prefix <= Flatten(manifests);
    var i, j :| 0 <= i < j < |prefix| && EntryKey(prefix[i]) == EntryKey(prefix[j]);
    assert EntryKey(Flatten(manifests)[i]) == EntryKey(Flatten(manifests)[j]);
  }

  lemma {:induction false} FlattenGrows(manifests: seq<seq<Entry>>, m: nat)
    requires m <= |manifests|
    ensures Flatten(manifests[..m]) <= Flatten(manifests)
    decreases |manifests|
  {
    if m == |manifests| {
      assert manifests[..m] == manifests;
    } else {
      var most := manifests[..|manifests| - 1];
      FlattenGrows(most, m);
      assert most[..m] == manifests[..m];
    }
  }

  /**
    Which module's manifest holds an entry does not matter: manifests with the entries of an ascending
    chain, in whatever order, replay that chain.
    */
  lemma ManifestOrderIrrelevant(manifests: seq<seq<Entry>>, chain: seq<Entry>)
    requires Ascending(EntryKey, chain) && DistinctKeys(EntryKey, Flatten(manifests))
    requires forall e :: e in Flatten(manifests) <==> e in chain
    ensures Sort(EntryKey, Flatten(manifests)) == chain
  {
    var all := Flatten(manifests);
    SortMembers(EntryKey, all);
    SortAscending(EntryKey, all);
    AscendingUnique(EntryKey, Sort(EntryKey, all), chain);
  }
}
