/**
  Why the rank table makes a table's alterations safe.  The state after any part of the sorted
  list is a function of the set of (rank, column) keys already done (Mid); each next operation is
  legal there, moves Mid by one key, and every Mid closed under lower ranks is sane.
  Confirmed renames are part of the same argument: a renamed drop becomes a RenameColumn in
  place and its add disappears.
  */
module Alterations {
  import opened Wrappers
  import opened Text
  import opened Orm
  import opened Operations
  import opened Differ

  datatype ColRef = ColRef(table: string, column: string)

  /** Confirmed renames, readable from either end. */
  datatype Renaming = Renaming(to: map<ColRef, string>, from: map<ColRef, string>)

  const NO_RENAMES := Renaming(map[], map[])

  /** resolveRenames' replacement of one operation. */
  function Rewrite(op: Op, ren: Renaming): seq<Op>
  {
    match op
    case DropColumn(t, c) =>
      if ColRef(t, c) in ren.to then [RenameColumn(t, c, ren.to[ColRef(t, c)])] else [op]
    case AddColumn(t, f) =>
      if ColRef(t, f.name) in ren.from then [] else [op]
    case _ => [op]
  }

  function RewriteAll(ops: seq<Op>, ren: Renaming): seq<Op>
  {
    if ops == [] then [] else Rewrite(ops[0], ren) + RewriteAll(ops[1..], ren)
  }

  lemma {:induction false} RewriteNothing(ops: seq<Op>)
    ensures RewriteAll(ops, NO_RENAMES) == ops
  {
    if ops != [] {
      RewriteNothing(ops[1..]);
      assert ops == [ops[0]] + ops[1..];
    }
  }

  lemma {:induction false} ProjRewrite(ops: seq<Op>, ren: Renaming, t: string)
    ensures Proj(RewriteAll(ops, ren), t) == RewriteAll(Proj(ops, t), ren)
  {
    if ops != [] {
      var op := ops[0];
      ProjRewrite(ops[1..], ren, t);
      ProjConcat(Rewrite(op, ren), RewriteAll(ops[1..], ren), t);
      forall i | 0 <= i < |Rewrite(op, ren)| ensures TableOf(Rewrite(op, ren)[i]) == TableOf(op) {
      }
      if TableOf(op) == t {
        ProjAll(Rewrite(op, ren), t);
        assert Proj(ops, t) == [op] + Proj(ops[1..], t);
        assert Proj(ops, t)[1..] == Proj(ops[1..], t);
      } else {
        ProjNone(Rewrite(op, ren), t);
        assert Proj(ops, t) == Proj(ops[1..], t);
        assert Proj(RewriteAll(ops, ren), t) == Proj(RewriteAll(ops[1..], ren), t);
      }
    }
  }

  /** renameCompatible in makemigrations.go. */
  predicate RenameCompatible(b: Field, a: Field)
  {
    && b.typ == a.typ && b.maxLen == a.maxLen && b.nullable == a.nullable
    && b.primaryKey == a.primaryKey && b.unique == a.unique && b.index == a.index
  }

  /** Renames of one table pair a vanished plain column with a compatible new one, one to one. */
  ghost predicate Fits(t: string, b: Cols, a: Cols, ren: Renaming)
  {
    && (forall c :: ColRef(t, c) in ren.to ==>
          var d := ren.to[ColRef(t, c)];
          && c in b && c !in a && d in a && d !in b && RenameCompatible(b[c], a[d]) && Plain(b[c])
          && ColRef(t, d) in ren.from && ren.from[ColRef(t, d)] == c)
    && (forall d :: ColRef(t, d) in ren.from ==>
          ColRef(t, ren.from[ColRef(t, d)]) in ren.to && ren.to[ColRef(t, ren.from[ColRef(t, d)])] == d)
  }

  ghost predicate MidHas(t: string, b: Cols, a: Cols, ren: Renaming, done: set<Key>, c: string)
  {
    if c in b then c in a || Key(3, c) !in done
    else
      c in a && if ColRef(t, c) in ren.from then Key(3, ren.from[ColRef(t, c)]) in done else Key(6, c) in done
  }

  ghost function MidField(b: Cols, a: Cols, done: set<Key>, c: string): Field
    requires c in b || c in a
  {
    if c in b && c in a then
      Field(c,
            if Key(4, c) in done then a[c].typ else b[c].typ,
            if Key(4, c) in done then a[c].maxLen else b[c].maxLen,
            if Key(5, c) in done then a[c].nullable else b[c].nullable,
            if Key(7, c) in done then true else b[c].primaryKey && Key(2, c) !in done,
            if Key(8, c) in done then true else b[c].unique && Key(1, c) !in done,
            if Key(9, c) in done then true else b[c].index && Key(0, c) !in done)
    else if c in b then b[c] else a[c]
  }

  /** The table once exactly the alterations in `done` have run. */
  ghost function Mid(t: string, b: Cols, a: Cols, ren: Renaming, done: set<Key>): Cols
  {
    map c | c in b.Keys + a.Keys && MidHas(t, b, a, ren, done, c) :: MidField(b, a, done, c)
  }

  /** Only needed alterations are done, and with any of them all needed ones of lower rank. */
  ghost predicate Closed(b: Cols, a: Cols, done: set<Key>)
  {
    && (forall k :: k in done ==> Needed(b, a, k))
    && (forall k, low :: k in done && Needed(b, a, low) && low.rank < k.rank ==> low in done)
  }

  ghost predicate Next(b: Cols, a: Cols, done: set<Key>, k: Key)
  {
    && Closed(b, a, done)
    && Needed(b, a, k) && k !in done
    && (forall low :: Needed(b, a, low) && low.rank < k.rank ==> low in done)
  }

  lemma MidSane(t: string, b: Cols, a: Cols, ren: Renaming, done: set<Key>)
    requires ValidCols(b) && ValidCols(a) && Fits(t, b, a, ren) && Closed(b, a, done)
    ensures Sane(Present(Mid(t, b, a, ren, done)))
  {
    var mid := Mid(t, b, a, ren, done);
    forall c | c in mid ensures SaneField(c, mid[c]) {
      MidFieldSane(b, a, done, c);
    }
    forall c, d | c in mid && d in mid && mid[c].primaryKey && mid[d].primaryKey ensures c == d {
      KeyOrigin(t, b, a, ren, done, c);
      KeyOrigin(t, b, a, ren, done, d);
    }
  }

  lemma MidFieldSane(b: Cols, a: Cols, done: set<Key>, c: string)
    requires ValidCols(b) && ValidCols(a) && Closed(b, a, done)
    requires c in b || c in a
    ensures SaneField(c, MidField(b, a, done, c))
  {
    if c in b && c in a {
      forall low: nat, high: nat | low < high && Key(high, c) in done && Needed(b, a, Key(low, c))
        ensures Key(low, c) in done
      {
      }
    }
  }

  /** Where a key of the intermediate table comes from: the old one not yet gone, or the new one, and
      then every alteration that removes an old one is done. */
  lemma KeyOrigin(t: string, b: Cols, a: Cols, ren: Renaming, done: set<Key>, c: string)
    requires ValidCols(b) && ValidCols(a) && Fits(t, b, a, ren) && Closed(b, a, done)
    requires c in Mid(t, b, a, ren, done) && Mid(t, b, a, ren, done)[c].primaryKey
    ensures (c in b && b[c].primaryKey && Key(2, c) !in done && Key(3, c) !in done)
            || (c in a && a[c].primaryKey && forall low :: Needed(b, a, low) && low.rank < 6 ==> low in done)
  {
    if c in b && c in a && Key(7, c) in done {
    } else if c !in b {
      assert Key(6, c) in done;
    }
  }

  /** Columns the alteration does not name are left alone. */
  lemma MidElsewhere(t: string, b: Cols, a: Cols, ren: Renaming, done: set<Key>, k: Key, c: string)
    requires Fits(t, b, a, ren) && Needed(b, a, k) && c != k.name
    requires !(k.rank == 3 && ColRef(t, c) in ren.from && ren.from[ColRef(t, c)] == k.name)
    ensures c in Mid(t, b, a, ren, done + {k}) <==> c in Mid(t, b, a, ren, done)
    ensures c in Mid(t, b, a, ren, done) ==> Mid(t, b, a, ren, done + {k})[c] == Mid(t, b, a, ren, done)[c]
  {
    forall r: nat ensures Key(r, c) in done + {k} <==> Key(r, c) in done {
    }
  }

  ghost predicate Advances(t: string, b: Cols, a: Cols, ren: Renaming, done: set<Key>, k: Key)
    requires Needed(b, a, k)
  {
    var here, there := Present(Mid(t, b, a, ren, done)), Present(Mid(t, b, a, ren, done + {k}));
    var ops := Rewrite(OpAt(t, b, a, k), ren);
    || (ops == [] && here == there)
    || (|ops| == 1 && Safe(ops[0], here) && Recorded(ops[0], Present(b), here) && Step(ops[0], here) == Some(there))
  }

  /** The next alteration is legal, safe and recorded, and moves Mid by its own key. */
  lemma MidStep(t: string, b: Cols, a: Cols, ren: Renaming, done: set<Key>, k: Key)
    requires ValidCols(b) && ValidCols(a) && Fits(t, b, a, ren) && Next(b, a, done, k)
    ensures Advances(t, b, a, ren, done, k)
  {
    MidSane(t, b, a, ren, done);
    assert Closed(b, a, done + {k});
    MidSane(t, b, a, ren, done + {k});
    if k.rank == 3 {
      MidStepDrop(t, b, a, ren, done, k);
    } else if k.rank == 6 {
      MidStepAdd(t, b, a, ren, done, k);
    } else {
      MidStepChange(t, b, a, ren, done, k);
    }
  }

  ghost predicate SameElsewhere(here: Cols, there: Cols, except: set<string>)
  {
    forall e: string :: e !in except ==> (e in there <==> e in here) && (e in here ==> there[e] == here[e])
  }

  lemma MidElsewhereAll(t: string, b: Cols, a: Cols, ren: Renaming, done: set<Key>, k: Key, except: set<string>)
    requires Fits(t, b, a, ren) && Needed(b, a, k) && k.name in except
    requires k.rank == 3 && ColRef(t, k.name) in ren.to ==> ren.to[ColRef(t, k.name)] in except
    ensures SameElsewhere(Mid(t, b, a, ren, done), Mid(t, b, a, ren, done + {k}), except)
  {
    var here, there := Mid(t, b, a, ren, done), Mid(t, b, a, ren, done + {k});
    forall e: string | e !in except ensures (e in there <==> e in here) && (e in here ==> there[e] == here[e]) {
      MidElsewhere(t, b, a, ren, done, k, e);
    }
  }

  // The four ways a table moves, on plain column maps.

  lemma Replaced(here: Cols, there: Cols, c: string, g: Field)
    requires SameElsewhere(here, there, {c}) && c in there && there[c] == g
    ensures there == here[c := g]
  {
  }

  lemma Removed(here: Cols, there: Cols, c: string)
    requires SameElsewhere(here, there, {c}) && c !in there
    ensures there == here - {c}
  {
  }

  lemma Moved(here: Cols, there: Cols, c: string, d: string, g: Field)
    requires SameElsewhere(here, there, {c, d}) && c != d && c !in there && d in there && there[d] == g
    ensures there == (here - {c})[d := g]
  {
  }

  lemma MidStepDrop(t: string, b: Cols, a: Cols, ren: Renaming, done: set<Key>, k: Key)
    requires ValidCols(b) && ValidCols(a) && Fits(t, b, a, ren) && Next(b, a, done, k) && k.rank == 3
    requires Sane(Present(Mid(t, b, a, ren, done))) && Sane(Present(Mid(t, b, a, ren, done + {k})))
    ensures Advances(t, b, a, ren, done, k)
  {
    var here, there := Mid(t, b, a, ren, done), Mid(t, b, a, ren, done + {k});
    var c := k.name;
    DropEnds(t, b, a, ren, done, k);
    assert OpAt(t, b, a, k) == DropColumn(t, c);
    if ColRef(t, c) in ren.to {
      var d := ren.to[ColRef(t, c)];
      MidElsewhereAll(t, b, a, ren, done, k, {c, d});
      Moved(here, there, c, d, b[c].(name := d));
      RenameSteps(t, b, c, d, here, there);
      assert Rewrite(DropColumn(t, c), ren) == [RenameColumn(t, c, d)];
    } else {
      MidElsewhereAll(t, b, a, ren, done, k, {c});
      Removed(here, there, c);
      DropSteps(t, b, c, here, there);
      assert Rewrite(DropColumn(t, c), ren) == [DropColumn(t, c)];
    }
  }

  lemma RenameSteps(t: string, b: Cols, c: string, d: string, here: Cols, there: Cols)
    requires Sane(Present(here)) && Sane(Present(there))
    requires c in here && d !in here && Plain(here[c]) && there == (here - {c})[d := here[c].(name := d)]
    ensures var op := RenameColumn(t, c, d);
            Safe(op, Present(here)) && Recorded(op, Present(b), Present(here)) && Step(op, Present(here)) == Some(Present(there))
  {
  }

  lemma DropSteps(t: string, b: Cols, c: string, here: Cols, there: Cols)
    requires Sane(Present(here)) && Sane(Present(there))
    requires c in here && c in b && here[c] == b[c] && there == here - {c}
    ensures var op := DropColumn(t, c);
            Safe(op, Present(here)) && Recorded(op, Present(b), Present(here)) && Step(op, Present(here)) == Some(Present(there))
  {
  }

  lemma DropEnds(t: string, b: Cols, a: Cols, ren: Renaming, done: set<Key>, k: Key)
    requires ValidCols(b) && ValidCols(a) && Fits(t, b, a, ren) && Next(b, a, done, k) && k.rank == 3
    ensures var here, there := Mid(t, b, a, ren, done), Mid(t, b, a, ren, done + {k});
            var c := k.name;
            && c in b && c in here && here[c] == b[c] && c !in there
            && (ColRef(t, c) in ren.to ==>
                  var d := ren.to[ColRef(t, c)];
                  c != d && d !in here && d in there && there[d] == b[c].(name := d) && Plain(b[c]))
  {
  }

  lemma MidStepAdd(t: string, b: Cols, a: Cols, ren: Renaming, done: set<Key>, k: Key)
    requires ValidCols(b) && ValidCols(a) && Fits(t, b, a, ren) && Next(b, a, done, k) && k.rank == 6
    requires Sane(Present(Mid(t, b, a, ren, done))) && Sane(Present(Mid(t, b, a, ren, done + {k})))
    ensures Advances(t, b, a, ren, done, k)
  {
    var here, there := Mid(t, b, a, ren, done), Mid(t, b, a, ren, done + {k});
    var c := k.name;
    MidElsewhereAll(t, b, a, ren, done, k, {c});
    AddEnds(t, b, a, ren, done, k);
    assert OpAt(t, b, a, k) == AddColumn(t, a[c]);
    if ColRef(t, c) in ren.from {
      SameEverywhere(here, there, c);
    } else {
      Replaced(here, there, c, a[c]);
      assert Rewrite(OpAt(t, b, a, k), ren) == [AddColumn(t, a[c])];
      if a[c].primaryKey {
        NoKeyYet(t, b, a, ren, done, k);
      }
    }
  }

  lemma SameEverywhere(here: Cols, there: Cols, c: string)
    requires SameElsewhere(here, there, {c}) && (c in there <==> c in here) && (c in here ==> there[c] == here[c])
    ensures here == there
  {
  }

  lemma AddEnds(t: string, b: Cols, a: Cols, ren: Renaming, done: set<Key>, k: Key)
    requires ValidCols(b) && ValidCols(a) && Fits(t, b, a, ren) && Next(b, a, done, k) && k.rank == 6
    ensures var here, there := Mid(t, b, a, ren, done), Mid(t, b, a, ren, done + {k});
            var c := k.name;
            && c in a && a[c].name == c && ValidField(a[c])
            && (ColRef(t, c) in ren.from ==> (c in there <==> c in here) && (c in here ==> there[c] == here[c]))
            && (ColRef(t, c) !in ren.from ==> c !in here && c in there && there[c] == a[c])
  {
  }

  /** When a key is about to be added, nothing else is one. */
  lemma NoKeyYet(t: string, b: Cols, a: Cols, ren: Renaming, done: set<Key>, k: Key)
    requires ValidCols(b) && ValidCols(a) && Fits(t, b, a, ren) && Next(b, a, done, k)
    requires k.rank == 6 || k.rank == 7
    requires k.name in a && a[k.name].primaryKey
    requires k.rank == 6 ==> ColRef(t, k.name) !in ren.from
    ensures NoKey(Mid(t, b, a, ren, done))
  {
    var mid := Mid(t, b, a, ren, done);
    forall c | c in mid ensures !mid[c].primaryKey {
      assert c in b && c in a && b[c].primaryKey && !a[c].primaryKey ==> Needed(b, a, Key(2, c));
      assert c in b && c !in a ==> Needed(b, a, Key(3, c));
      assert c in a && a[c].primaryKey ==> c == k.name;
    }
  }

  /** The alterations that keep the column: flags, type and nullability. */
  lemma MidStepChange(t: string, b: Cols, a: Cols, ren: Renaming, done: set<Key>, k: Key)
    requires ValidCols(b) && ValidCols(a) && Fits(t, b, a, ren) && Next(b, a, done, k) && k.rank != 3 && k.rank != 6
    requires Sane(Present(Mid(t, b, a, ren, done))) && Sane(Present(Mid(t, b, a, ren, done + {k})))
    ensures Advances(t, b, a, ren, done, k)
  {
    var here, there := Mid(t, b, a, ren, done), Mid(t, b, a, ren, done + {k});
    var c := k.name;
    MidFieldStep(b, a, done, k);
    assert c in here && c in there && here[c] == MidField(b, a, done, c) && there[c] == MidField(b, a, done + {k}, c);
    MidElsewhereAll(t, b, a, ren, done, k, {c});
    Replaced(here, there, c, there[c]);
    if k.rank == 7 {
      NoKeyYet(t, b, a, ren, done, k);
    }
    ChangeSteps(t, b, a, k, here, there);
    assert Rewrite(OpAt(t, b, a, k), ren) == [OpAt(t, b, a, k)];
  }

  lemma ChangeSteps(t: string, b: Cols, a: Cols, k: Key, here: Cols, there: Cols)
    requires Needed(b, a, k) && k.rank != 3 && k.rank != 6 && ValidCols(b) && ValidCols(a)
    requires Sane(Present(here)) && Sane(Present(there))
    requires k.name in here && k.name in there && there == here[k.name := there[k.name]]
    requires FieldMoves(b, a, k, here[k.name], there[k.name])
    requires k.rank == 7 ==> NoKey(here)
    ensures var op := OpAt(t, b, a, k);
            Safe(op, Present(here)) && Recorded(op, Present(b), Present(here)) && Step(op, Present(here)) == Some(Present(there))
  {
  }

  /** One column's own view of one alteration: what changes, and what Step will ask of it. */
  ghost predicate FieldMoves(b: Cols, a: Cols, k: Key, f: Field, g: Field)
    requires Needed(b, a, k) && k.rank != 3 && k.rank != 6
  {
    var c := k.name;
    match k.rank
    case 0 => f.index && g == f.(index := false)
    case 1 => f.unique && g == f.(unique := false)
    case 2 => f.primaryKey && g == f.(primaryKey := false)
    case 4 => f.typ == b[c].typ && f.maxLen == b[c].maxLen && g == f.(typ := a[c].typ, maxLen := a[c].maxLen)
    case 5 => f.nullable == b[c].nullable && g == f.(nullable := a[c].nullable) && !(a[c].nullable && f.primaryKey)
    case 7 => !f.nullable && g == f.(primaryKey := true)
    case 8 => !f.unique && g == f.(unique := true)
    case _ => !f.index && g == f.(index := true)
  }

  lemma MidFieldStep(b: Cols, a: Cols, done: set<Key>, k: Key)
    requires ValidCols(b) && ValidCols(a) && Next(b, a, done, k) && k.rank != 3 && k.rank != 6
    ensures k.name in b && k.name in a
    ensures FieldMoves(b, a, k, MidField(b, a, done, k.name), MidField(b, a, done + {k}, k.name))
  {
    var c := k.name;
    forall r: nat ensures Key(r, c) in done + {k} <==> Key(r, c) in done || r == k.rank {
    }
    assert b[c].primaryKey && !a[c].primaryKey ==> Needed(b, a, Key(2, c));
    assert b[c].nullable != a[c].nullable ==> Needed(b, a, Key(5, c));
  }

  // -------------------------------------------------------- the whole sorted list

  ghost function DoneKeys(alters: seq<Ranked>): set<Key>
  {
    set i | 0 <= i < |alters| :: KeyOf(alters[i])
  }

  /** Prepending one step (or none) to a path. */
  lemma PathCons(first: seq<Op>, rest: seq<Op>, was: TableState, here: TableState, there: TableState, end: TableState)
    requires (first == [] && here == there)
             || (|first| == 1 && Safe(first[0], here) && Recorded(first[0], was, here) && Step(first[0], here) == Some(there))
    requires TablePath(rest, was, there) && TableEnd(rest, there) == Some(end)
    ensures TablePath(first + rest, was, here) && TableEnd(first + rest, here) == Some(end)
  {
    if first == [] {
      assert first + rest == rest;
    } else {
      assert (first + rest)[0] == first[0] && (first + rest)[1..] == rest;
    }
  }

  /** From any point of the sorted list on, the rewritten operations are a path ending in `a`. */
  lemma {:induction false} AltersFrom(t: string, b: Cols, a: Cols, ren: Renaming, alters: seq<Ranked>, i: nat)
    requires ValidCols(b) && ValidCols(a) && Fits(t, b, a, ren)
    requires Exact(alters, t, b, a) && Ascending(KeyOf, alters)
    requires i <= |alters|
    ensures TablePath(RewriteAll(OpsOf(alters[i..]), ren), Present(b), Present(Mid(t, b, a, ren, DoneKeys(alters[..i]))))
    ensures TableEnd(RewriteAll(OpsOf(alters[i..]), ren), Present(Mid(t, b, a, ren, DoneKeys(alters[..i])))) == Some(Present(a))
    decreases |alters| - i
  {
    var done := DoneKeys(alters[..i]);
    if i == |alters| {
      assert alters[..i] == alters;
      AllDone(t, b, a, ren, alters);
      assert OpsOf(alters[i..]) == [];
    } else {
      var k := KeyOf(alters[i]);
      PrefixReady(t, b, a, alters, i);
      MidStep(t, b, a, ren, done, k);
      AltersFrom(t, b, a, ren, alters, i + 1);
      DoneGrows(alters, i);
      OpsFrom(alters, i, ren);
      assert alters[i].op == OpAt(t, b, a, k);
      PathCons(Rewrite(alters[i].op, ren), RewriteAll(OpsOf(alters[i + 1..]), ren), Present(b),
               Present(Mid(t, b, a, ren, done)), Present(Mid(t, b, a, ren, done + {k})), Present(a));
    }
  }

  lemma DoneGrows(alters: seq<Ranked>, i: nat)
    requires i < |alters|
    ensures DoneKeys(alters[..i + 1]) == DoneKeys(alters[..i]) + {KeyOf(alters[i])}
  {
    var shorter, longer := alters[..i], alters[..i + 1];
    assert longer == shorter + [alters[i]];
    forall k ensures k in DoneKeys(longer) <==> k in DoneKeys(shorter) + {KeyOf(alters[i])} {
      if k in DoneKeys(shorter) {
        var j :| 0 <= j < |shorter| && KeyOf(shorter[j]) == k;
        assert longer[j] == shorter[j];
      }
      if k == KeyOf(alters[i]) {
        assert longer[i] == alters[i];
      }
    }
  }

  lemma OpsFrom(alters: seq<Ranked>, i: nat, ren: Renaming)
    requires i < |alters|
    ensures RewriteAll(OpsOf(alters[i..]), ren) == Rewrite(alters[i].op, ren) + RewriteAll(OpsOf(alters[i + 1..]), ren)
  {
    var ops := OpsOf(alters[i..]);
    assert ops[0] == alters[i].op && ops[1..] == OpsOf(alters[i + 1..]);
  }

  lemma AllDone(t: string, b: Cols, a: Cols, ren: Renaming, alters: seq<Ranked>)
    requires ValidCols(b) && ValidCols(a) && Fits(t, b, a, ren) && Exact(alters, t, b, a)
    ensures Mid(t, b, a, ren, DoneKeys(alters)) == a
  {
    var done := DoneKeys(alters);
    forall k: Key ensures k in done <==> Needed(b, a, k) {
    }
    var mid := Mid(t, b, a, ren, done);
    forall c: string ensures (c in mid <==> c in a) && (c in a ==> mid[c] == a[c]) {
      ColumnDone(t, b, a, ren, done, c);
    }
  }

  /** With every needed alteration done, each column is as declared. */
  lemma ColumnDone(t: string, b: Cols, a: Cols, ren: Renaming, done: set<Key>, c: string)
    requires ValidCols(b) && ValidCols(a) && Fits(t, b, a, ren)
    requires forall k: Key :: k in done <==> Needed(b, a, k)
    ensures c in Mid(t, b, a, ren, done) <==> c in a
    ensures c in a ==> Mid(t, b, a, ren, done)[c] == a[c]
  {
    if ColRef(t, c) in ren.from {
      var from := Key(3, ren.from[ColRef(t, c)]);
      assert from in done <==> Needed(b, a, from);
    }
    assert Key(3, c) in done <==> Needed(b, a, Key(3, c));
    assert Key(6, c) in done <==> Needed(b, a, Key(6, c));
    if c in a {
      FieldDone(b, a, done, c);
    }
  }

  lemma FieldDone(b: Cols, a: Cols, done: set<Key>, c: string)
    requires ValidCols(b) && ValidCols(a) && c in a
    requires forall k: Key :: k in done <==> Needed(b, a, k)
    ensures MidField(b, a, done, c) == a[c]
  {
    forall r: nat ensures Key(r, c) in done <==> Needed(b, a, Key(r, c)) {
    }
  }

  lemma NothingDone(t: string, b: Cols, a: Cols, ren: Renaming)
    requires ValidCols(b)
    ensures Mid(t, b, a, ren, {}) == b
  {
  }

  lemma PrefixReady(t: string, b: Cols, a: Cols, alters: seq<Ranked>, i: nat)
    requires Exact(alters, t, b, a) && Ascending(KeyOf, alters) && i < |alters|
    ensures Next(b, a, DoneKeys(alters[..i]), KeyOf(alters[i]))
  {
    var done := DoneKeys(alters[..i]);
    var k := KeyOf(alters[i]);
    forall low: Key | Needed(b, a, low) && low.rank < k.rank ensures low in done {
      LowerIsEarlier(t, b, a, alters, i, low);
    }
    forall high, low: Key | high in done && Needed(b, a, low) && low.rank < high.rank ensures low in done {
      LowerThanDone(t, b, a, alters, i, high, low);
    }
    NotYetDone(alters, i);
  }

  lemma LowerThanDone(t: string, b: Cols, a: Cols, alters: seq<Ranked>, i: nat, high: Key, low: Key)
    requires Exact(alters, t, b, a) && Ascending(KeyOf, alters) && i < |alters|
    requires high in DoneKeys(alters[..i]) && Needed(b, a, low) && low.rank < high.rank
    ensures low in DoneKeys(alters[..i])
  {
    var m :| 0 <= m < i && KeyOf(alters[..i][m]) == high;
    LowerIsEarlier(t, b, a, alters, m, low);
    var j :| 0 <= j < m && KeyOf(alters[..m][j]) == low;
    assert KeyOf(alters[..i][j]) == low;
  }

  lemma LowerIsEarlier(t: string, b: Cols, a: Cols, alters: seq<Ranked>, i: nat, low: Key)
    requires Exact(alters, t, b, a) && Ascending(KeyOf, alters) && i < |alters|
    requires Needed(b, a, low) && low.rank < KeyOf(alters[i]).rank
    ensures low in DoneKeys(alters[..i])
  {
    var j :| 0 <= j < |alters| && KeyOf(alters[j]) == low;
    assert j > i ==> KeyLess(KeyOf(alters[i]), low);
    assert KeyOf(alters[..i][j]) == low;
  }

  lemma NotYetDone(alters: seq<Ranked>, i: nat)
    requires Ascending(KeyOf, alters) && i < |alters|
    ensures KeyOf(alters[i]) !in DoneKeys(alters[..i])
  {
    var k := KeyOf(alters[i]);
    LessIrreflexive(k.name);
    forall m | 0 <= m < i ensures KeyOf(alters[..i][m]) != k {
      assert KeyLess(KeyOf(alters[m]), k);
    }
  }

  /** One surviving table, renames resolved: the sorted alterations carry it from before to after. */
  lemma TableCarried(was: Model, now: Model, ren: Renaming)
    requires ValidModel(was) && ValidModel(now)
    requires Fits(now.table, IndexFields(was.fields), IndexFields(now.fields), ren)
    ensures var ops := RewriteAll(OpsOf(TableAlters(was, now)), ren);
            var b, a := Present(IndexFields(was.fields)), Present(IndexFields(now.fields));
            TablePath(ops, b, b) && TableEnd(ops, b) == Some(a)
  {
    var t, b, a, alters := now.table, IndexFields(was.fields), IndexFields(now.fields), TableAlters(was, now);
    ValidModelCols(was);
    ValidModelCols(now);
    TableAltersExact(was, now);
    AltersFrom(t, b, a, ren, alters, 0);
    assert alters[..0] == [] && alters[0..] == alters;
    NothingDone(t, b, a, ren);
    assert DoneKeys(alters[..0]) == {};
  }
}
