/** The whole of runMakemigrations: versions, rendered Up and Down, sidecars, and the next replay. */
module Generation {
  import opened Wrappers
  import opened Text
  import opened Orm
  import opened Operations
  import opened Differ
  import opened Alterations
  import opened DiffSoundness
  import opened Rollback
  import opened Renames
  import opened Catalog
  import opened Dialects
  import opened Simulation
  import opened CreateSimulation
  import opened Makemigrations

  // ---------------------------------------------------------------- versions

  /** time.Format and time.Parse for the 14-digit layout, over whole seconds. */
  datatype Clock = Clock(format: int -> string, parse: string -> Option<int>)

  /** Between the first and last second of a four-digit year the layout is faithful and sorts as time does. */
  ghost predicate GoodClock(c: Clock, first: int, last: int)
  {
    && (forall a, b :: first <= a < b <= last ==> Less(c.format(a), c.format(b)))
    && (forall a :: first <= a <= last ==> c.parse(c.format(a)) == Some(a) && c.format(a) != "")
    && Less(c.format(last + 1), c.format(last))
  }

  /** The highest recorded version, or the empty string when there is none. */
  ghost predicate IsTop(h: string, recorded: seq<string>)
  {
    (h == "" || h in recorded) && forall v :: v in recorded ==> v == h || Less(v, h)
  }

  lemma TopUnique(h: string, g: string, recorded: seq<string>)
    requires IsTop(h, recorded) && IsTop(g, recorded)
    ensures h == g
  {
    LessTotal(h, g);
    if Less(h, g) || Less(g, h) {
      NotBoth(NameKey(h), NameKey(g));
    }
  }

  /** The version past the highest recorded one: the clock's, or one second after it. */
  function Past(h: string, c: Clock, now: int): string
  {
    if Less(h, c.format(now)) then c.format(now)
    else match c.parse(h)
      case None => h
      case Some(t) => c.format(t + 1)
  }

  /** No version can follow: the highest is not below the clock's, and is no timestamp or has no later one that sorts after it. */
  ghost predicate Stuck(recorded: seq<string>, c: Clock, now: int)
  {
    exists h :: IsTop(h, recorded) && !Less(h, Past(h, c, now))
  }

  /** nextVersion: just past the clock and everything recorded, or an error exactly when there is no such version. */
  method NextVersion(recorded: seq<string>, c: Clock, now: int) returns (r: Option<string>)
    ensures r.None? <==> Stuck(recorded, c, now)
    ensures r.Some? ==> r.value != "" && forall v :: v in recorded ==> Less(v, r.value)
    ensures r.Some? ==> exists h :: IsTop(h, recorded) && r.value == Past(h, c, now)
    ensures c.format(now) != "" && (forall v :: v in recorded ==> Less(v, c.format(now))) ==> r == Some(c.format(now))
  {
    var highest := "";
    for i := 0 to |recorded|
      invariant IsTop(highest, recorded[..i])
    {
      assert recorded[i] in recorded[..i + 1];
      if Less(highest, recorded[i]) {
        forall v | v in recorded[..i] ensures Less(v, recorded[i]) {
          if v != highest {
            LessTransitive(v, highest, recorded[i]);
          }
        }
        highest := recorded[i];
      } else {
        LessTotal(highest, recorded[i]);
      }
    }
    assert recorded[..|recorded|] == recorded;
    forall h | IsTop(h, recorded) ensures h == highest {
      TopUnique(h, highest, recorded);
    }
    var candidate := c.format(now);
    if !Less(highest, candidate) {
      match c.parse(highest) {
        case None =>
          LessIrreflexive(highest);
          return None;
        case Some(t) => candidate := c.format(t + 1);
      }
    }
    if !Less(highest, candidate) {
      return None;
    }
    forall v | v in recorded ensures Less(v, candidate) {
      if v != highest {
        LessTransitive(v, highest, candidate);
      }
    }
    return Some(candidate);
  }

  /** bumpVersion: one second on, or the same text when it does not parse. */
  function BumpVersion(v: string, c: Clock): string
  {
    match c.parse(v)
    case None => v
    case Some(t) => c.format(t + 1)
  }

  function Bumped(v: string, c: Clock, i: nat): string
  {
    if i == 0 then v else BumpVersion(Bumped(v, c, i - 1), c)
  }

  lemma {:induction false} BumpedIs(c: Clock, first: int, last: int, t: int, i: nat)
    requires GoodClock(c, first, last) && first <= t <= last && t + i <= last + 1
    ensures Bumped(c.format(t), c, i) == c.format(t + i)
  {
    if i > 0 {
      BumpedIs(c, first, last, t, i - 1);
    }
  }

  ghost predicate VersionsAscend(v: string, c: Clock, k: nat)
  {
    forall i, j :: 0 <= i < j < k ==> Less(Bumped(v, c, i), Bumped(v, c, j))
  }

  /** A run's versions ascend exactly when it ends by the last second of year 9999: bumpVersion has no guard past it. */
  lemma VersionsAscendIff(c: Clock, first: int, last: int, t: int, k: nat)
    requires GoodClock(c, first, last) && first <= t <= last
    ensures VersionsAscend(c.format(t), c, k) <==> t + k <= last + 1
  {
    var v := c.format(t);
    if t + k <= last + 1 {
      forall i, j | 0 <= i < j < k ensures Less(Bumped(v, c, i), Bumped(v, c, j)) {
        BumpedIs(c, first, last, t, i);
        BumpedIs(c, first, last, t, j);
      }
    } else {
      var i := last - t;
      BumpedIs(c, first, last, t, i);
      BumpedIs(c, first, last, t, i + 1);
      if Less(c.format(last), c.format(last + 1)) {
        LessTransitive(c.format(last), c.format(last + 1), c.format(last));
      }
      LessIrreflexive(c.format(last));
      assert !Less(Bumped(v, c, i), Bumped(v, c, i + 1));
    }
  }

  // ----------------------------------------------------------- the Down groups

  /** rawInverse: the plain statement used where the dialect refuses its own inverse. */
  function RawInverse(op: Op): Option<seq<Statement>>
  {
    match op
    case AddColumn(t, f) => Some([DropColumnS(t, f.name)])
    case _ => None
  }

  /** One operation's Down group; None is the advice to write the migration by hand. */
  function DownOf(d: Dialect, op: Op, before: Snapshot, name: Obj -> string): Option<seq<Statement>>
  {
    match Invert(op, before)
    case None => None
    case Some(inverse) =>
      match Render(d, inverse, name)
      case Ok(stmts) => Some(stmts)
      case Err(Unsupported) => RawInverse(op)
      case Err(BadType) => None
  }

  /** The Down statements: groups in reverse, each group in its own order. */
  function DownAll(d: Dialect, ops: seq<Op>, before: Snapshot, name: Obj -> string): Option<seq<Statement>>
  {
    if ops == [] then Some([])
    else
      match (DownAll(d, ops[1..], before, name), DownOf(d, ops[0], before, name))
      case (Some(rest), Some(group)) => Some(rest + group)
      case _ => None
  }

  /** A share can be generated: it renders, and so does its rollback. */
  predicate Renders(d: Dialect, name: Obj -> string, before: Snapshot, share: seq<Op>)
  {
    RenderAll(d, share, name).Ok? && DownAll(d, share, before, name).Some?
  }

  /** The inner loop of runMakemigrations: every operation rendered up and down before anything is kept. */
  method RenderShare(d: Dialect, ops: seq<Op>, before: Snapshot, name: Obj -> string)
    returns (r: Option<(seq<Statement>, seq<Statement>)>)
    ensures r.Some? <==> Renders(d, name, before, ops)
    ensures r.Some? ==> r.value.0 == RenderAll(d, ops, name).value && r.value.1 == DownAll(d, ops, before, name).value
  {
    var up: seq<Statement> := [];
    var groups: seq<seq<Statement>> := [];
    for i := 0 to |ops|
      invariant |groups| == i
      invariant forall j :: 0 <= j < i ==> DownOf(d, ops[j], before, name) == Some(groups[j])
      invariant RenderAll(d, ops[..i], name) == Ok(up)
    {
      var stmts := Render(d, ops[i], name);
      if stmts.Err? {
        NoUp(d, ops, name, i);
        return None;
      }
      var down := DownOf(d, ops[i], before, name);
      if down == None {
        NoDown(d, ops, before, name, i);
        return None;
      }
      assert ops[..i + 1] == ops[..i] + [ops[i]];
      RenderSnoc(d, ops[..i], ops[i], name);
      up := up + stmts.value;
      groups := groups + [down.value];
    }
    assert ops[..|ops|] == ops;
    var down := EmitDown(d, ops, before, name, groups);
    return Some((up, down));
  }

  method EmitDown(ghost d: Dialect, ghost ops: seq<Op>, ghost before: Snapshot, ghost name: Obj -> string, groups: seq<seq<Statement>>)
    returns (down: seq<Statement>)
    requires |groups| == |ops| && forall j :: 0 <= j < |ops| ==> DownOf(d, ops[j], before, name) == Some(groups[j])
    ensures DownAll(d, ops, before, name) == Some(down)
  {
    down := [];
    for i := |groups| downto 0
      invariant DownAll(d, ops[i..], before, name) == Some(down)
    {
      down := down + groups[i];
      assert ops[i..][1..] == ops[i + 1..];
    }
    assert ops[0..] == ops;
  }

  lemma Regroup(a: seq<Statement>, b: seq<Statement>, c: seq<Statement>)
    ensures a + (b + c) == (a + b) + c && c + [] == [] + c
  {
  }

  lemma {:induction false} RenderSnoc(d: Dialect, ops: seq<Op>, last: Op, name: Obj -> string)
    requires RenderAll(d, ops, name).Ok? && Render(d, last, name).Ok?
    ensures RenderAll(d, ops + [last], name) == Ok(RenderAll(d, ops, name).value + Render(d, last, name).value)
  {
    var all := ops + [last];
    if ops == [] {
      assert all[1..] == [];
      Regroup([], [], Render(d, last, name).value);
    } else {
      RenderSnoc(d, ops[1..], last, name);
      assert all[1..] == ops[1..] + [last];
      var first, rest := Render(d, ops[0], name).value, RenderAll(d, ops[1..], name).value;
      Regroup(first, rest, Render(d, last, name).value);
    }
  }

  lemma {:induction false} NoUp(d: Dialect, ops: seq<Op>, name: Obj -> string, i: nat)
    requires i < |ops| && Render(d, ops[i], name).Err?
    ensures RenderAll(d, ops, name).Err?
  {
    if i > 0 {
      NoUp(d, ops[1..], name, i - 1);
    }
  }

  lemma {:induction false} NoDown(d: Dialect, ops: seq<Op>, before: Snapshot, name: Obj -> string, i: nat)
    requires i < |ops| && DownOf(d, ops[i], before, name) == None
    ensures DownAll(d, ops, before, name) == None
  {
    if i > 0 {
      NoDown(d, ops[1..], before, name, i - 1);
    }
  }

  /** A list renders only if everything before its last operation does, and the last itself. */
  lemma {:induction false} RenderedParts(d: Dialect, ops: seq<Op>, last: Op, name: Obj -> string)
    requires RenderAll(d, ops + [last], name).Ok?
    ensures RenderAll(d, ops, name).Ok? && Render(d, last, name).Ok?
  {
    var all := ops + [last];
    if ops == [] {
      assert all == [last];
    } else {
      assert all[0] == ops[0] && all[1..] == ops[1..] + [last];
      RenderedParts(d, ops[1..], last, name);
    }
  }

  /** Where the dialect renders every inverse, the Down statements are the rendering of the rollback operations. */
  lemma {:induction false} DownIsRenderedRollback(d: Dialect, ops: seq<Op>, before: Snapshot, name: Obj -> string)
    requires RollbackOps(ops, before).Some? && RenderAll(d, RollbackOps(ops, before).value, name).Ok?
    ensures DownAll(d, ops, before, name) == Some(RenderAll(d, RollbackOps(ops, before).value, name).value)
  {
    if ops != [] {
      var rest, inverse := RollbackOps(ops[1..], before).value, Invert(ops[0], before).value;
      RenderedParts(d, rest, inverse, name);
      DownIsRenderedRollback(d, ops[1..], before, name);
      RenderSnoc(d, rest, inverse, name);
    }
  }

  // ------------------------------------------------------------- the command

  datatype Migration = Migration(owner: string, version: string, up: seq<Statement>, down: seq<Statement>, sidecar: Wire)

  /** written: the migrations of the modules before the one that must be written by hand, already on disk. */
  datatype GenerateError = Rename(error: RenameError) | NoVersion | HandWrite(written: seq<Migration>)

  function OwnersOf(out: seq<Migration>): seq<string>
  {
    seq(|out|, i requires 0 <= i < |out| => out[i].owner)
  }

  /** The modules' order: every owner once, sorted. */
  ghost predicate IsOrder(order: seq<string>, ops: seq<Op>, before: Snapshot, after: Snapshot)
  {
    EveryOwnerOnce(order, ops, before, after) && Ascending(NameKey, order)
  }

  /** Migration i: its module's share, the rollback, the sidecar so far and the version i seconds on. */
  ghost predicate MigrationAt(m: Migration, i: nat, d: Dialect, name: Obj -> string, before: Snapshot, after: Snapshot, ops: seq<Op>, order: seq<string>, version: string, c: Clock)
    requires i < |order|
  {
    var share := Share(ops, order[i], before, after);
    && m.owner == order[i]
    && RenderAll(d, share, name) == Ok(m.up)
    && DownAll(d, share, before, name) == Some(m.down)
    && m.sidecar == Encode(Cumulative(before, after, ops, order, i + 1))
    && m.version == Bumped(version, c, i)
  }

  /** The migrations of the first modules in order. */
  ghost predicate MigrationsAt(out: seq<Migration>, d: Dialect, name: Obj -> string, before: Snapshot, after: Snapshot, ops: seq<Op>, order: seq<string>, version: string, c: Clock)
  {
    |out| <= |order| && forall j :: 0 <= j < |out| ==> MigrationAt(out[j], j, d, name, before, after, ops, order, version, c)
  }

  lemma MigrationsGrow(out: seq<Migration>, m: Migration, d: Dialect, name: Obj -> string, before: Snapshot, after: Snapshot, ops: seq<Op>, order: seq<string>, version: string, c: Clock)
    requires MigrationsAt(out, d, name, before, after, ops, order, version, c) && |out| < |order|
    requires MigrationAt(m, |out|, d, name, before, after, ops, order, version, c)
    ensures MigrationsAt(out + [m], d, name, before, after, ops, order, version, c)
  {
  }

  /** One migration per changed module, in sorted order, each with its own share, rollback, sidecar and version. */
  ghost predicate Generates(out: seq<Migration>, d: Dialect, name: Obj -> string, before: Snapshot, after: Snapshot, ops: seq<Op>, version: string, c: Clock)
  {
    var order := OwnersOf(out);
    IsOrder(order, ops, before, after) && MigrationsAt(out, d, name, before, after, ops, order, version, c)
  }

  /** The modules before the first whose share cannot be generated, and only those, have their migrations. */
  ghost predicate Halts(written: seq<Migration>, order: seq<string>, d: Dialect, name: Obj -> string, before: Snapshot, after: Snapshot, ops: seq<Op>, version: string, c: Clock)
  {
    && IsOrder(order, ops, before, after)
    && MigrationsAt(written, d, name, before, after, ops, order, version, c)
    && |written| < |order| && !Renders(d, name, before, Share(ops, order[|written|], before, after))
  }

  /** How the run ends for a resolved list. */
  ghost predicate Ends(r: Result<seq<Migration>, GenerateError>, order: seq<string>, d: Dialect, name: Obj -> string, before: Snapshot, after: Snapshot,
                       ops: seq<Op>, recorded: seq<string>, version: string, c: Clock, now: int)
  {
    if ops == [] then r == Ok([])
    else if Stuck(recorded, c, now) then r == Err(NoVersion)
    else
      && version != "" && (forall v :: v in recorded ==> Less(v, version))
      && (exists h :: IsTop(h, recorded) && version == Past(h, c, now))
      && if r.Ok? then Generates(r.value, d, name, before, after, ops, version, c) && r.value != []
         else r.error.HandWrite? && Halts(r.error.written, order, d, name, before, after, ops, version, c)
  }

  /** runMakemigrations, past the checks of the process and the driver. */
  method RunMakemigrations(d: Dialect, name: Obj -> string, before: Snapshot, after: Snapshot, recorded: seq<string>,
                           lines: seq<Line>, interactive: bool, c: Clock, now: int)
    returns (r: Result<seq<Migration>, GenerateError>, ghost version: string, ghost order: seq<string>)
    requires ValidSnapshot(before) && ValidSnapshot(after)
    ensures var resolved := Resolved(DiffOps(before, after), before, after, lines, interactive);
            if resolved.Err? then r == Err(Rename(resolved.error))
            else Ends(r, order, d, name, before, after, resolved.value, recorded, version, c, now)
    ensures d == Postgres && r.Err? ==> r.error == NoVersion || r.error.Rename?
  {
    version, order := "", [];
    var ops := Diff(before, after);
    var resolved, _ := ResolveRenames(ops, before, after, lines, interactive);
    if resolved.Err? {
      return Err(Rename(resolved.error)), version, order;
    }
    ops := resolved.value;
    ResolvedListCarries(before, after, lines, interactive);
    ghost var chosen := Resolution(DiffOps(before, after), before, after, lines, interactive).value;
    ResolvedListsCarry(before, after, RenamingOf(chosen));
    r, version, order := GenerateResolved(d, name, before, after, ops, recorded, c, now);
  }

  /** Grouping, the first version and the module loop. */
  method GenerateResolved(d: Dialect, name: Obj -> string, before: Snapshot, after: Snapshot, ops: seq<Op>, recorded: seq<string>, c: Clock, now: int)
    returns (r: Result<seq<Migration>, GenerateError>, ghost version: string, ghost order: seq<string>)
    requires ValidSnapshot(before) && ValidSnapshot(after) && Carries(ops, before, after)
    ensures Ends(r, order, d, name, before, after, ops, recorded, version, c, now)
    ensures d == Postgres && r.Err? ==> r.error == NoVersion
  {
    version := "";
    var sorted, byModule := GroupByModule(ops, before, after);
    order := sorted;
    if |ops| == 0 {
      return Ok([]), version, order;
    }
    var next := NextVersion(recorded, c, now);
    if next == None {
      return Err(NoVersion), version, order;
    }
    version := next.value;
    AscendingOnce(sorted);
    assert OwnerOf(TableOf(ops[0]), before, after) in sorted;
    r := GenerateAll(d, name, before, after, ops, sorted, byModule, next.value, c);
    if r.Err? {
      PostgresNeverHalts(r.error.written, order, name, before, after, ops, version, c);
    }
  }

  method GenerateAll(d: Dialect, name: Obj -> string, before: Snapshot, after: Snapshot, ops: seq<Op>,
                     order: seq<string>, byModule: map<string, seq<Op>>, first: string, c: Clock)
    returns (r: Result<seq<Migration>, GenerateError>)
    requires ValidSnapshot(before) && ValidSnapshot(after) && Carries(ops, before, after)
    requires IsOrder(order, ops, before, after) && Groups(byModule, ops, before, after)
    ensures r.Ok? ==> Generates(r.value, d, name, before, after, ops, first, c) && |r.value| == |order|
    ensures r.Err? ==> r.error.HandWrite? && Halts(r.error.written, order, d, name, before, after, ops, first, c)
  {
    r := GenerateEach(d, name, before, after, ops, order, byModule, first, c);
    if r.Ok? {
      OwnersInOrder(r.value, d, name, before, after, ops, order, first, c);
    }
  }

  /** The module loop: render, roll back, record, bump. What is written stays written when a later module fails. */
  method GenerateEach(d: Dialect, name: Obj -> string, before: Snapshot, after: Snapshot, ops: seq<Op>,
                      order: seq<string>, byModule: map<string, seq<Op>>, first: string, c: Clock)
    returns (r: Result<seq<Migration>, GenerateError>)
    requires ValidSnapshot(before) && ValidSnapshot(after) && Carries(ops, before, after)
    requires forall o :: o in order ==> o in byModule && byModule[o] == Share(ops, o, before, after)
    ensures r.Ok? ==> |r.value| == |order| && MigrationsAt(r.value, d, name, before, after, ops, order, first, c)
    ensures r.Err? ==> r.error.HandWrite? && MigrationsAt(r.error.written, d, name, before, after, ops, order, first, c)
    ensures r.Err? ==> |r.error.written| < |order| && !Renders(d, name, before, Share(ops, order[|r.error.written|], before, after))
  {
    var out: seq<Migration> := [];
    var version, cumulative := first, before;
    for i := 0 to |order|
      invariant |out| == i && MigrationsAt(out, d, name, before, after, ops, order, first, c)
      invariant version == Bumped(first, c, i)
      invariant cumulative == Cumulative(before, after, ops, order, i)
    {
      assert order[i] in order;
      var one := GenerateOne(d, name, before, after, ops, order, i, byModule[order[i]], cumulative, version);
      if one == None {
        return Err(HandWrite(out));
      }
      var (migration, next) := one.value;
      MigrationsGrow(out, migration, d, name, before, after, ops, order, first, c);
      out := out + [migration];
      cumulative := next;
      version := BumpVersion(version, c);
    }
    return Ok(out);
  }

  method GenerateOne(d: Dialect, name: Obj -> string, before: Snapshot, after: Snapshot, ghost ops: seq<Op>,
                     order: seq<string>, i: nat, moduleOps: seq<Op>, cumulative: Snapshot, version: string)
    returns (r: Option<(Migration, Snapshot)>)
    requires ValidSnapshot(before) && ValidSnapshot(after) && Carries(ops, before, after) && i < |order|
    requires moduleOps == Share(ops, order[i], before, after) && cumulative == Cumulative(before, after, ops, order, i)
    ensures r.None? ==> !Renders(d, name, before, Share(ops, order[i], before, after))
    ensures r.Some? ==>
              var m, share := r.value.0, Share(ops, order[i], before, after);
              && m.owner == order[i] && m.version == version
              && RenderAll(d, share, name) == Ok(m.up) && DownAll(d, share, before, name) == Some(m.down)
              && r.value.1 == Cumulative(before, after, ops, order, i + 1) && m.sidecar == Encode(r.value.1)
  {
    var rendered := RenderShare(d, moduleOps, before, name);
    if rendered == None {
      return None;
    }
    CumulativeHalfway(before, after, ops, order, i + 1);
    var recorded := SnapshotAfterOperations(cumulative, after, moduleOps);
    return Some((Migration(order[i], version, rendered.value.0, rendered.value.1, Encode(recorded.value)), recorded.value));
  }

  lemma OwnersInOrder(out: seq<Migration>, d: Dialect, name: Obj -> string, before: Snapshot, after: Snapshot, ops: seq<Op>, order: seq<string>, first: string, c: Clock)
    requires |out| == |order| && MigrationsAt(out, d, name, before, after, ops, order, first, c)
    ensures OwnersOf(out) == order
  {
    forall j | 0 <= j < |order| ensures out[j].owner == order[j] {
      assert MigrationAt(out[j], j, d, name, before, after, ops, order, first, c);
    }
  }

  // ------------------------------------------- the generated files on a server

  /** Every column of the schema has its possible names accounted for. */
  ghost predicate CoversSchema(w: Naming, s: Schema)
  {
    forall t: string :: t in s ==> t in w.tables && CoversCols(w, t, s[t])
  }

  ghost predicate CoversCols(w: Naming, t: string, cols: Cols)
  {
    forall c: string, k: Kind :: c in cols ==> Obj(k, t, c) in w.universe
  }

  /** The operation and its inverse are both about columns the naming accounts for. */
  ghost predicate CoversBoth(w: Naming, op: Op, before: Snapshot)
  {
    Covers(w, op) && (Invert(op, before).Some? ==> Covers(w, Invert(op, before).value))
  }

  /** What the server says to the operation's statements, given the recorded snapshot. */
  predicate TakesUp(h: Host, op: Op, before: Snapshot)
  {
    match op
    case ChangeType(t, c, f) =>
      var was := SnapshotField(before, t, c);
      was.Some? && Retypes(h, was.value, f)
    case _ => true
  }

  /** And to its Down: SQLite keeps a column while its index stands, and a type changes back only if it converts. */
  predicate TakesDown(h: Host, op: Op, before: Snapshot)
  {
    match op
    case AddColumn(_, f) => h.dialect == SQLite ==> !f.index
    case ChangeType(t, c, f) =>
      var was := SnapshotField(before, t, c);
      was.Some? && Retypes(h, f, was.value)
    case _ => true
  }

  ghost predicate AllTakeUp(h: Host, ops: seq<Op>, before: Snapshot)
  {
    forall op :: op in ops ==> TakesUp(h, op, before)
  }

  ghost predicate AllTakeDown(h: Host, ops: seq<Op>, before: Snapshot)
  {
    forall op :: op in ops ==> TakesDown(h, op, before)
  }

  /** SQLite knows no table without columns. */
  ghost predicate Columned(d: Dialect, s: Schema)
  {
    d == SQLite ==> forall t: string :: t in s ==> s[t] != map[]
  }

  lemma ColumnedKept(d: Dialect, op: Op, s: Schema, name: Obj -> string)
    requires Columned(d, s) && Safe(op, Get(s, TableOf(op))) && Render(d, op, name).Ok?
    ensures Columned(d, Apply(op, s).value)
  {
    if d == SQLite {
      var next := Apply(op, s).value;
      match op
      case CreateTable(m) =>
        IndexFieldsExact(m.fields);
        assert m.fields[0].name in next[m.table];
      case AddColumn(t, f) => assert f.name in next[t];
      case RenameColumn(t, _, to) => assert to in next[t];
      case AddIndex(t, c) => assert c in next[t];
      case DropIndex(t, c) => assert c in next[t];
      case _ =>
    }
  }

  lemma TakesUpIff(h: Host, op: Op, before: Snapshot, s: Schema, name: Obj -> string)
    requires ValidSnapshot(before) && Render(h.dialect, op, name).Ok?
    requires Safe(op, Get(s, TableOf(op))) && Recorded(op, Get(SchemaOf(before.models), TableOf(op)), Get(s, TableOf(op)))
    ensures Accepts(h, op, Get(s, TableOf(op))) <==> TakesUp(h, op, before)
  {
    if op.ChangeType? {
      RetypeTakesUp(h, op.table, op.column, op.target, before, s);
    }
  }

  lemma RetypeTakesUp(h: Host, t: string, c: string, f: Field, before: Snapshot, s: Schema)
    requires ValidSnapshot(before) && Recorded(ChangeType(t, c, f), Get(SchemaOf(before.models), t), Get(s, t))
    ensures SnapshotField(before, t, c).Some? && (Retypes(h, s[t][c], f) <==> Retypes(h, SnapshotField(before, t, c).value, f))
  {
    SnapshotFieldIs(before, t, c);
  }

  lemma AddTakesDown(h: Host, t: string, f: Field, cols: Cols)
    requires h.dialect == SQLite ==> !f.primaryKey && !f.unique && cols != map[]
    requires f.name !in cols
    ensures Accepts(h, DropColumn(t, f.name), Present(cols[f.name := f])) <==> (h.dialect == SQLite ==> !f.index)
  {
    if h.dialect == SQLite {
      var c :| c in cols;
      assert c in cols[f.name := f].Keys;
    }
  }

  lemma RetypeTakesDown(h: Host, t: string, c: string, f: Field, was: Field, cols: Cols)
    requires c in cols
    ensures Accepts(h, ChangeType(t, c, was), Present(cols[c := cols[c].(typ := f.typ, maxLen := f.maxLen)])) <==> Retypes(h, f, was)
  {
  }

  lemma OtherInverse(op: Op, before: Snapshot)
    requires !op.AddColumn? && !op.ChangeType? && Invert(op, before).Some?
    ensures !Invert(op, before).value.DropColumn? && !Invert(op, before).value.ChangeType?
  {
  }

  /** The server takes the inverse, where the operation ended, exactly when it can be told from the operation. */
  lemma TakesDownIff(h: Host, op: Op, before: Snapshot, s: Schema, name: Obj -> string)
    requires ValidSnapshot(before) && Render(h.dialect, op, name).Ok? && Columned(h.dialect, s)
    requires Safe(op, Get(s, TableOf(op))) && Recorded(op, Get(SchemaOf(before.models), TableOf(op)), Get(s, TableOf(op)))
    requires Invert(op, before).Some?
    ensures Accepts(h, Invert(op, before).value, Step(op, Get(s, TableOf(op))).value) <==> TakesDown(h, op, before)
  {
    match op
    case ChangeType(t, c, f) =>
      SnapshotFieldIs(before, t, c);
      RetypeTakesDown(h, t, c, f, SnapshotField(before, t, c).value, s[t]);
    case AddColumn(t, f) => AddTakesDown(h, t, f, s[t]);
    case _ => OtherInverse(op, before);
  }

  /** One Down group undoes its operation on the server, the raw fallback included, if the server takes it at all. */
  lemma DownSettles(h: Host, op: Op, before: Snapshot, s: Schema, cat: Catalog, w: Naming)
    requires ValidSnapshot(before) && CollisionFree(w) && CoversBoth(w, op, before)
    requires Safe(op, Get(s, TableOf(op))) && Recorded(op, Get(SchemaOf(before.models), TableOf(op)), Get(s, TableOf(op)))
    requires Represents(cat, Apply(op, s).value, h.dialect, w) && DownOf(h.dialect, op, before, w.name).Some?
    ensures Invert(op, before).Some?
    ensures Settles(Accepts(h, Invert(op, before).value, Step(op, Get(s, TableOf(op))).value), DownOf(h.dialect, op, before, w.name).value, cat, s, h, w)
  {
    var t, next := TableOf(op), Apply(op, s).value;
    InvertStep(op, before, Get(s, t));
    var inverse := Invert(op, before).value;
    GetPut(s, t, Step(op, Get(s, t)).value);
    UndoesApply(op, inverse, s);
    if Render(h.dialect, inverse, w.name).Ok? {
      Simulates(inverse, next, cat, h, w);
    } else {
      StepDropColumn(inverse, next, cat, h, w);
    }
  }

  /**
    The generated Down takes a catalog of the run's end back to one of its start exactly when the server takes
    each operation's Down; otherwise it is refused.
    */
  lemma {:induction false} DownAllSettles(h: Host, ops: seq<Op>, before: Snapshot, s: Schema, cat: Catalog, w: Naming)
    requires ValidSnapshot(before) && CollisionFree(w) && forall i :: 0 <= i < |ops| ==> CoversBoth(w, ops[i], before)
    requires Path(ops, SchemaOf(before.models), s) && Run(ops, s).Some? && Columned(h.dialect, s)
    requires Represents(cat, Run(ops, s).value, h.dialect, w) && Renders(h.dialect, w.name, before, ops)
    ensures Settles(AllTakeDown(h, ops, before), DownAll(h.dialect, ops, before, w.name).value, cat, s, h, w)
  {
    if ops != [] {
      var next := Apply(ops[0], s).value;
      ColumnedKept(h.dialect, ops[0], s, w.name);
      DownAllSettles(h, ops[1..], before, next, cat, w);
      var rest, group := DownAll(h.dialect, ops[1..], before, w.name).value, DownOf(h.dialect, ops[0], before, w.name).value;
      ExecConcat(rest, group, cat, h);
      FirstTakesDown(h, ops, before);
      if AllTakeDown(h, ops[1..], before) {
        DownSettles(h, ops[0], before, s, ExecAll(rest, cat, h).value, w);
        TakesDownIff(h, ops[0], before, s, w.name);
      }
    }
  }

  lemma FirstTakesDown(h: Host, ops: seq<Op>, before: Snapshot)
    requires ops != []
    ensures AllTakeDown(h, ops, before) <==> TakesDown(h, ops[0], before) && AllTakeDown(h, ops[1..], before)
  {
    assert ops == [ops[0]] + ops[1..];
  }

  /** Along a recorded path what the server takes can be told from the operations and the recorded snapshot. */
  lemma {:induction false} AcceptsAllIff(h: Host, ops: seq<Op>, before: Snapshot, s: Schema, name: Obj -> string)
    requires ValidSnapshot(before) && Path(ops, SchemaOf(before.models), s) && SafeRun(ops, s) && RenderAll(h.dialect, ops, name).Ok?
    ensures AcceptsAll(h, ops, s) <==> AllTakeUp(h, ops, before)
  {
    if ops != [] {
      TakesUpIff(h, ops[0], before, s, name);
      AcceptsAllIff(h, ops[1..], before, Apply(ops[0], s).value, name);
      assert ops == [ops[0]] + ops[1..];
    }
  }

  // --------------------------------------------------- what the list mentions

  /** Everything the operation mentions is a column of its table before or after. */
  ghost predicate Within(op: Op, b: Schema, a: Schema)
  {
    var t := TableOf(op);
    && (t in b || t in a)
    && forall c :: c in Mentions(op) ==> (t in b && c in b[t]) || (t in a && c in a[t])
  }

  lemma WithinCovered(op: Op, b: Schema, a: Schema, w: Naming)
    requires Within(op, b, a) && CoversSchema(w, b) && CoversSchema(w, a)
    ensures Covers(w, op)
  {
    var t := TableOf(op);
    forall c, k: Kind | c in Mentions(op) ensures Obj(k, t, c) in w.universe {
      assert t in b && c in b[t] ==> CoversCols(w, t, b[t]);
      assert t in a && c in a[t] ==> CoversCols(w, t, a[t]);
    }
  }

  lemma {:induction false} RewriteMember(ops: seq<Op>, ren: Renaming, x: Op)
    requires x in RewriteAll(ops, ren)
    ensures exists op :: op in ops && x in Rewrite(op, ren)
  {
    if x in Rewrite(ops[0], ren) {
      assert ops[0] in ops;
    } else {
      RewriteMember(ops[1..], ren, x);
      var op :| op in ops[1..] && x in Rewrite(op, ren);
      assert op in ops;
    }
  }

  lemma DiffWithin(before: Snapshot, after: Snapshot, op: Op)
    requires ValidSnapshot(before) && ValidSnapshot(after) && op in DiffOps(before, after)
    ensures Within(op, SchemaOf(before.models), SchemaOf(after.models))
  {
    var ops, t := DiffOps(before, after), TableOf(op);
    var i :| 0 <= i < |ops| && ops[i] == op;
    ProjMember(ops, i, t);
    ProjDiff(before, after, t);
    LookupSchema(before, t);
    LookupSchema(after, t);
    var now, was := Lookup(after.models, t), Lookup(before.models, t);
    assert op in CreateOf(now, was) + AlterOf(now, was) + DropOf(now, was, t);
    if op in AlterOf(now, was) {
      AlterWithin(was.value, now.value, op);
    } else if op in CreateOf(now, was) {
      IndexFieldsExact(now.value.fields);
    }
  }

  lemma AlterWithin(was: Model, now: Model, op: Op)
    requires ValidModel(was) && ValidModel(now) && op in OpsOf(TableAlters(was, now))
    ensures forall c :: c in Mentions(op) ==> c in IndexFields(was.fields) || c in IndexFields(now.fields)
    ensures !op.CreateTable?
  {
    var t, b, a, alters := now.table, IndexFields(was.fields), IndexFields(now.fields), TableAlters(was, now);
    TableAltersExact(was, now);
    ValidModelCols(now);
    var i :| 0 <= i < |alters| && alters[i].op == op;
    OpAtMentions(t, b, a, KeyOf(alters[i]));
  }

  lemma OpAtMentions(t: string, b: Cols, a: Cols, k: Key)
    requires Needed(b, a, k) && ValidCols(a)
    ensures Mentions(OpAt(t, b, a, k)) == {k.name} && (k.name in b || k.name in a) && !OpAt(t, b, a, k).CreateTable?
  {
  }

  lemma ResolvedWithin(before: Snapshot, after: Snapshot, ren: Renaming, x: Op)
    requires ValidSnapshot(before) && ValidSnapshot(after) && FitsAll(before, after, ren)
    requires x in RewriteAll(DiffOps(before, after), ren)
    ensures Within(x, SchemaOf(before.models), SchemaOf(after.models))
  {
    RewriteMember(DiffOps(before, after), ren, x);
    var op :| op in DiffOps(before, after) && x in Rewrite(op, ren);
    DiffWithin(before, after, op);
    if op != x {
      assert FitsTable(before, after, ren, op.table);
      LookupSchema(before, op.table);
      LookupSchema(after, op.table);
      RenamedWithin(op, x, Lookup(before.models, op.table), Lookup(after.models, op.table), SchemaOf(before.models), SchemaOf(after.models), ren);
    }
  }

  /** A drop that became a rename mentions its own column and the one it pairs with. */
  lemma RenamedWithin(op: Op, x: Op, was: Option<Model>, now: Option<Model>, b: Schema, a: Schema, ren: Renaming)
    requires x in Rewrite(op, ren) && op != x
    requires was.Some? <==> op.table in b
    requires now.Some? <==> op.table in a
    requires was.Some? ==> b[op.table] == IndexFields(was.value.fields)
    requires now.Some? ==> a[op.table] == IndexFields(now.value.fields)
    requires if now.Some? && was.Some? then Fits(op.table, IndexFields(was.value.fields), IndexFields(now.value.fields), ren)
             else forall c: string :: ColRef(op.table, c) !in ren.to && ColRef(op.table, c) !in ren.from
    ensures Within(x, b, a)
  {
    assert op.DropColumn? && ColRef(op.table, op.column) in ren.to;
    assert x == RenameColumn(op.table, op.column, ren.to[ColRef(op.table, op.column)]);
  }

  lemma InverseWithin(op: Op, before: Snapshot, after: Snapshot)
    requires ValidSnapshot(before) && ValidSnapshot(after)
    requires Within(op, SchemaOf(before.models), SchemaOf(after.models)) && Invert(op, before).Some?
    ensures Within(Invert(op, before).value, SchemaOf(before.models), SchemaOf(after.models))
  {
    if op.DropTable? {
      LookupSchema(before, op.table);
      RecreateWithin(Lookup(before.models, op.table).value, SchemaOf(before.models), SchemaOf(after.models));
    } else {
      if op.DropColumn? {
        FoundName(before, op.table, op.column);
      }
      InverseMentions(op, before);
    }
  }

  /** Short of recreating a table, an inverse mentions no column the operation does not. */
  lemma InverseMentions(op: Op, before: Snapshot)
    requires !op.DropTable? && Invert(op, before).Some?
    requires op.DropColumn? ==> SnapshotField(before, op.table, op.column).Some? && SnapshotField(before, op.table, op.column).value.name == op.column
    ensures TableOf(Invert(op, before).value) == TableOf(op) && Mentions(Invert(op, before).value) <= Mentions(op)
  {
  }

  lemma RecreateWithin(m: Model, b: Schema, a: Schema)
    requires m.table in b && b[m.table] == IndexFields(m.fields) && ValidModel(m)
    ensures Within(CreateTable(m), b, a)
  {
    IndexFieldsExact(m.fields);
  }

  lemma FoundName(s: Snapshot, t: string, c: string)
    requires SnapshotField(s, t, c).Some?
    ensures SnapshotField(s, t, c).value.name == c
  {
    FoundFieldName(Lookup(s.models, t).value.fields, c);
  }

  lemma {:induction false} FoundFieldName(fields: seq<Field>, c: string)
    requires FindField(fields, c).Some?
    ensures FindField(fields, c).value.name == c
  {
    if fields[0].name != c {
      FoundFieldName(fields[1..], c);
    }
  }

  lemma {:induction false} ShareMember(ops: seq<Op>, m: string, before: Snapshot, after: Snapshot, x: Op)
    requires x in Share(ops, m, before, after)
    ensures x in ops
  {
    if x != ops[0] {
      ShareMember(ops[1..], m, before, after, x);
    }
  }

  // ------------------------------------------------------------- main results

  /**
    Every generated migration works on the server it was rendered for, as far as the server takes it: its Up
    carries any catalog of the sidecar before it to one of its own sidecar exactly when every retyped column's
    types convert; its Down carries that back exactly when they convert back too and, on SQLite, no added
    column is indexed. Otherwise the statements are refused.
    */
  lemma MigrationsWork(out: seq<Migration>, h: Host, w: Naming, before: Snapshot, after: Snapshot, ren: Renaming, version: string, c: Clock, i: nat, cat: Catalog)
    requires ValidSnapshot(before) && ValidSnapshot(after) && FitsAll(before, after, ren)
    requires Generates(out, h.dialect, w.name, before, after, RewriteAll(DiffOps(before, after), ren), version, c) && i < |out|
    requires CollisionFree(w) && CoversSchema(w, SchemaOf(before.models)) && CoversSchema(w, SchemaOf(after.models))
    ensures var ops, order := RewriteAll(DiffOps(before, after), ren), OwnersOf(out);
            var share := Share(ops, order[i], before, after);
            var here, there := SchemaOf(Cumulative(before, after, ops, order, i).models), SchemaOf(Cumulative(before, after, ops, order, i + 1).models);
            && (Represents(cat, here, h.dialect, w) ==> Settles(AllTakeUp(h, share, before), out[i].up, cat, there, h, w))
            && (Represents(cat, there, h.dialect, w) ==> Settles(AllTakeDown(h, share, before), out[i].down, cat, here, h, w))
  {
    var ops, order := RewriteAll(DiffOps(before, after), ren), OwnersOf(out);
    var share := Share(ops, order[i], before, after);
    assert MigrationAt(out[i], i, h.dialect, w.name, before, after, ops, order, version, c);
    ResolvedListsCarry(before, after, ren);
    ShareCarries(before, after, ops, order, i);
    CumulativeHalfway(before, after, ops, order, i);
    ShareCovered(before, after, ren, order[i], w);
    ShareSettles(share, h, w, before, Cumulative(before, after, ops, order, i), cat);
  }

  /** One rendered share between the catalogs of its ends. */
  lemma ShareSettles(share: seq<Op>, h: Host, w: Naming, before: Snapshot, from: Snapshot, cat: Catalog)
    requires ValidSnapshot(before) && ValidSnapshot(from) && Path(share, SchemaOf(before.models), SchemaOf(from.models))
    requires Renders(h.dialect, w.name, before, share) && CollisionFree(w) && CoversAll(w, share)
    requires forall i :: 0 <= i < |share| ==> CoversBoth(w, share[i], before)
    ensures var here := SchemaOf(from.models);
            && Run(share, here).Some?
            && (Represents(cat, here, h.dialect, w) ==> Settles(AllTakeUp(h, share, before), RenderAll(h.dialect, share, w.name).value, cat, Run(share, here).value, h, w))
            && (Represents(cat, Run(share, here).value, h.dialect, w) ==> Settles(AllTakeDown(h, share, before), DownAll(h.dialect, share, before, w.name).value, cat, here, h, w))
  {
    var here := SchemaOf(from.models);
    PathIsSafe(share, SchemaOf(before.models), here);
    SafeRunEnds(share, here);
    ValidColumned(h.dialect, from);
    AcceptsAllIff(h, share, before, here, w.name);
    if Represents(cat, here, h.dialect, w) {
      ListSimulates(share, here, cat, h, w);
    }
    if Represents(cat, Run(share, here).value, h.dialect, w) {
      DownAllSettles(h, share, before, here, cat, w);
    }
  }

  lemma ValidColumned(d: Dialect, s: Snapshot)
    requires ValidSnapshot(s)
    ensures Columned(d, SchemaOf(s.models))
  {
    forall t: string | t in SchemaOf(s.models) ensures SchemaOf(s.models)[t] != map[] {
      LookupSchema(s, t);
      var fields := Lookup(s.models, t).value.fields;
      IndexFieldsExact(fields);
      assert fields[0].name in IndexFields(fields);
    }
  }

  /** A migration of one operation can be generated and run, and still not be undone. */
  ghost predicate OneWay(h: Host, op: Op, before: Snapshot, s: Schema, cat: Catalog, w: Naming)
    requires Apply(op, s).Some?
  {
    && Renders(h.dialect, w.name, before, [op])
    && var up, down := RenderAll(h.dialect, [op], w.name).value, DownAll(h.dialect, [op], before, w.name).value;
       Lands(up, cat, Apply(op, s).value, h, w) && ExecAll(down, ExecAll(up, cat, h).value, h) == None
  }

  lemma TakenOneWay(h: Host, op: Op, before: Snapshot, s: Schema, cat: Catalog, w: Naming)
    requires ValidSnapshot(before) && CollisionFree(w) && CoversBoth(w, op, before) && Columned(h.dialect, s)
    requires Safe(op, Get(s, TableOf(op))) && Recorded(op, Get(SchemaOf(before.models), TableOf(op)), Get(s, TableOf(op)))
    requires Represents(cat, s, h.dialect, w) && Renders(h.dialect, w.name, before, [op])
    requires TakesUp(h, op, before) && !TakesDown(h, op, before)
    ensures OneWay(h, op, before, s, cat, w)
  {
    var ops := [op];
    OneStep(op, before, s);
    AcceptsAllIff(h, ops, before, s, w.name);
    ListSimulates(ops, s, cat, h, w);
    assert op in ops;
    DownAllSettles(h, ops, before, s, ExecAll(RenderAll(h.dialect, ops, w.name).value, cat, h).value, w);
  }

  lemma OneStep(op: Op, before: Snapshot, s: Schema)
    requires Safe(op, Get(s, TableOf(op))) && Recorded(op, Get(SchemaOf(before.models), TableOf(op)), Get(s, TableOf(op)))
    ensures Path([op], SchemaOf(before.models), s) && SafeRun([op], s) && Run([op], s) == Apply(op, s)
  {
    var ops, next := [op], Apply(op, s).value;
    assert ops[1..] == [];
    assert Path(ops[1..], SchemaOf(before.models), next) && Run(ops[1..], next) == Some(next);
    PathIsSafe(ops, SchemaOf(before.models), s);
  }

  /**
    The ordinary case on SQLite: a nullable, indexed column is added. Its migration is generated and its Up runs, but
    its Down is the bare DROP COLUMN, which SQLite refuses while the index is there.
    */
  lemma IndexedColumnStays(h: Host, t: string, f: Field, before: Snapshot, s: Schema, cat: Catalog, w: Naming)
    requires h.dialect == SQLite && f.nullable && f.index && Columned(SQLite, s)
    requires ValidSnapshot(before) && CollisionFree(w) && Covers(w, AddColumn(t, f))
    requires Safe(AddColumn(t, f), Get(s, t)) && Represents(cat, s, SQLite, w)
    ensures DownAll(SQLite, [AddColumn(t, f)], before, w.name) == Some([DropColumnS(t, f.name)])
    ensures OneWay(h, AddColumn(t, f), before, s, cat, w)
  {
    var op := AddColumn(t, f);
    assert [op][1..] == [];
    assert Render(SQLite, op, w.name).Ok? && RenderAll(SQLite, [op][1..], w.name).Ok?;
    assert DownAll(SQLite, [op][1..], before, w.name) == Some([]) && [] + [DropColumnS(t, f.name)] == [DropColumnS(t, f.name)];
    TakenOneWay(h, op, before, s, cat, w);
  }

  /** And on PostgreSQL: a number column becomes text, on a server that converts the one to the other but not back. */
  lemma TextStaysText(h: Host, t: string, c: string, text: Field, before: Snapshot, s: Schema, cat: Catalog, w: Naming)
    requires h.dialect == Postgres && h.castable(SqlInteger, SqlText) && !h.castable(SqlText, SqlInteger)
    requires text.typ == TString && text.maxLen == 0
    requires ValidSnapshot(before) && CollisionFree(w) && Covers(w, ChangeType(t, c, text)) && Represents(cat, s, Postgres, w)
    requires Safe(ChangeType(t, c, text), Get(s, t)) && s[t][c].typ == TInt
    requires Recorded(ChangeType(t, c, text), Get(SchemaOf(before.models), t), Get(s, t))
    ensures OneWay(h, ChangeType(t, c, text), before, s, cat, w)
  {
    var op := ChangeType(t, c, text);
    SnapshotFieldIs(before, t, c);
    OneStep(op, before, s);
    PostgresNeverByHand([op], before, s, w.name);
    TakenOneWay(h, op, before, s, cat, w);
  }

  lemma ShareCovered(before: Snapshot, after: Snapshot, ren: Renaming, m: string, w: Naming)
    requires ValidSnapshot(before) && ValidSnapshot(after) && FitsAll(before, after, ren)
    requires CoversSchema(w, SchemaOf(before.models)) && CoversSchema(w, SchemaOf(after.models))
    ensures CoversAll(w, Share(RewriteAll(DiffOps(before, after), ren), m, before, after))
    ensures forall i :: 0 <= i < |Share(RewriteAll(DiffOps(before, after), ren), m, before, after)| ==>
              CoversBoth(w, Share(RewriteAll(DiffOps(before, after), ren), m, before, after)[i], before)
  {
    var b, a := SchemaOf(before.models), SchemaOf(after.models);
    var share := Share(RewriteAll(DiffOps(before, after), ren), m, before, after);
    forall i | 0 <= i < |share| ensures CoversBoth(w, share[i], before) {
      ShareMember(RewriteAll(DiffOps(before, after), ren), m, before, after, share[i]);
      ResolvedWithin(before, after, ren, share[i]);
      WithinCovered(share[i], b, a, w);
      if Invert(share[i], before).Some? {
        InverseWithin(share[i], before, after);
        WithinCovered(Invert(share[i], before).value, b, a, w);
      }
    }
  }

  // ------------------------------------------------------------- the next run

  /** The chain the next run replays: what was recorded, then the new migrations with their sidecars. */
  function NextChain(steps: seq<StateStep>, out: seq<Migration>): seq<StateStep>
  {
    steps + NewSteps(out)
  }

  function NewSteps(out: seq<Migration>): seq<StateStep>
  {
    seq(|out|, i requires 0 <= i < |out| => StateStep(out[i].version, Some(Snapshot(Sort(TableKey, DecodedAll(out[i].sidecar))))))
  }

  /** Versions of the extended chain keep ascending. */
  lemma ChainUsable(steps: seq<StateStep>, news: seq<StateStep>, version: string, c: Clock)
    requires UsableSteps(steps)
    requires news != [] ==> version != "" && (forall i :: 0 <= i < |steps| ==> Less(steps[i].version, version))
    requires forall i :: 0 <= i < |news| ==> news[i].version == Bumped(version, c, i)
    requires VersionsAscend(version, c, |news|)
    ensures UsableSteps(steps + news)
  {
    var chain, n := steps + news, |steps|;
    forall i | 0 < i < |chain| ensures Less(chain[i - 1].version, chain[i].version) {
      if i < n {
        assert chain[i - 1] == steps[i - 1] && chain[i] == steps[i];
      } else if i == n {
        assert chain[i - 1] == steps[n - 1] && chain[i] == news[0];
      } else {
        assert chain[i - 1] == news[i - n - 1] && chain[i] == news[i - n];
      }
    }
    forall i | 0 <= i < |chain| ensures chain[i].version != "" {
      if i < n {
        assert chain[i] == steps[i];
      } else if i > n {
        assert Less(chain[i - 1].version, chain[i].version);
      }
    }
  }

  /** The recorded chain extends: sidecars read back as written, and the state it ends in is the last sidecar. */
  lemma ChainExtends(steps: seq<StateStep>, out: seq<Migration>, d: Dialect, name: Obj -> string, before: Snapshot, after: Snapshot, ops: seq<Op>,
                     order: seq<string>, version: string, c: Clock)
    requires ValidSnapshot(before) && ValidSnapshot(after) && Carries(ops, before, after)
    requires MigrationsAt(out, d, name, before, after, ops, order, version, c)
    requires Follows(steps, out, before, version, c)
    ensures UsableSteps(NextChain(steps, out))
    ensures LastState(NextChain(steps, out)) == Cumulative(before, after, ops, order, |out|)
  {
    VersionsAre(out, d, name, before, after, ops, order, version, c);
    ChainUsable(steps, NewSteps(out), version, c);
    SidecarsAre(out, d, name, before, after, ops, order, version, c);
    ChainEnds(steps, out, before, after, ops, order);
  }

  /** The recorded steps are usable, end in before, and stay below the run's ascending versions. */
  ghost predicate Follows(steps: seq<StateStep>, out: seq<Migration>, before: Snapshot, version: string, c: Clock)
  {
    && UsableSteps(steps) && LastState(steps) == before
    && (out != [] ==> version != "" && (forall i :: 0 <= i < |steps| ==> Less(steps[i].version, version)))
    && VersionsAscend(version, c, |out|)
  }

  lemma ChainEnds(steps: seq<StateStep>, out: seq<Migration>, before: Snapshot, after: Snapshot, ops: seq<Op>, order: seq<string>)
    requires ValidSnapshot(before) && ValidSnapshot(after) && Carries(ops, before, after)
    requires SidecarsAt(out, before, after, ops, order) && LastState(steps) == before
    ensures LastState(NextChain(steps, out)) == Cumulative(before, after, ops, order, |out|)
  {
    if out != [] {
      LastRecorded(out, |out| - 1, before, after, ops, order);
    }
    EndsWith(steps, out, Cumulative(before, after, ops, order, |out|));
  }

  lemma EndsWith(past: seq<StateStep>, seen: seq<Migration>, state: Snapshot)
    requires if seen == [] then LastState(past) == state else Snapshot(Sort(TableKey, DecodedAll(seen[|seen| - 1].sidecar))) == state
    ensures LastState(past + NewSteps(seen)) == state
  {
    if seen == [] {
      assert past + NewSteps(seen) == past;
    } else {
      LastStateIs(past, NewSteps(seen));
    }
  }

  lemma LastStateIs(steps: seq<StateStep>, news: seq<StateStep>)
    requires news != [] && news[|news| - 1].state.Some?
    ensures LastState(steps + news) == news[|news| - 1].state.value
  {
    assert (steps + news)[|steps + news| - 1] == news[|news| - 1];
  }

  lemma VersionsAre(out: seq<Migration>, d: Dialect, name: Obj -> string, before: Snapshot, after: Snapshot, ops: seq<Op>, order: seq<string>, version: string, c: Clock)
    requires MigrationsAt(out, d, name, before, after, ops, order, version, c)
    ensures forall i :: 0 <= i < |out| ==> out[i].version == Bumped(version, c, i)
  {
    forall i | 0 <= i < |out| ensures out[i].version == Bumped(version, c, i) {
      assert MigrationAt(out[i], i, d, name, before, after, ops, order, version, c);
    }
  }

  /** The migrations' sidecars are the cumulative snapshots. */
  ghost predicate SidecarsAt(out: seq<Migration>, before: Snapshot, after: Snapshot, ops: seq<Op>, order: seq<string>)
  {
    |out| <= |order| && forall j :: 0 <= j < |out| ==> out[j].sidecar == Encode(Cumulative(before, after, ops, order, j + 1))
  }

  lemma SidecarsAre(out: seq<Migration>, d: Dialect, name: Obj -> string, before: Snapshot, after: Snapshot, ops: seq<Op>, order: seq<string>, version: string, c: Clock)
    requires MigrationsAt(out, d, name, before, after, ops, order, version, c)
    ensures SidecarsAt(out, before, after, ops, order)
  {
    forall j | 0 <= j < |out| ensures out[j].sidecar == Encode(Cumulative(before, after, ops, order, j + 1)) {
      assert MigrationAt(out[j], j, d, name, before, after, ops, order, version, c);
    }
  }

  lemma LastRecorded(out: seq<Migration>, k: nat, before: Snapshot, after: Snapshot, ops: seq<Op>, order: seq<string>)
    requires ValidSnapshot(before) && ValidSnapshot(after) && Carries(ops, before, after)
    requires SidecarsAt(out, before, after, ops, order) && k < |out|
    ensures Snapshot(Sort(TableKey, DecodedAll(out[k].sidecar))) == Cumulative(before, after, ops, order, k + 1)
    ensures Admissible(DecodedAll(out[k].sidecar))
  {
    CumulativeHalfway(before, after, ops, order, k + 1);
    EncodeRoundTrip(Cumulative(before, after, ops, order, k + 1));
  }

  /**
    After a run, whole or halted, replay ends where the written migrations end, and a new diff finds, table
    by table, exactly what the first one found for the modules that had no turn.
    */
  lemma RerunFindsTheRest(steps: seq<StateStep>, out: seq<Migration>, d: Dialect, name: Obj -> string, before: Snapshot, after: Snapshot, ops: seq<Op>,
                          order: seq<string>, version: string, c: Clock, t: string)
    requires ValidSnapshot(before) && ValidSnapshot(after) && Carries(ops, before, after)
    requires MigrationsAt(out, d, name, before, after, ops, order, version, c)
    requires Follows(steps, out, before, version, c)
    ensures UsableSteps(NextChain(steps, out)) && ValidSnapshot(LastState(NextChain(steps, out)))
    ensures Proj(DiffOps(LastState(NextChain(steps, out)), after), t)
            == if OwnerOf(t, before, after) in order[..|out|] then [] else Proj(DiffOps(before, after), t)
  {
    ChainExtends(steps, out, d, name, before, after, ops, order, version, c);
    CumulativeHalfway(before, after, ops, order, |out|);
    RemainingPart(before, after, ops, order, |out|, t);
  }

  /** A second diff is empty exactly when every module's migration was written. */
  lemma SecondDiffEmptyIff(steps: seq<StateStep>, out: seq<Migration>, d: Dialect, name: Obj -> string, before: Snapshot, after: Snapshot, ren: Renaming,
                           order: seq<string>, version: string, c: Clock)
    requires ValidSnapshot(before) && ValidSnapshot(after) && FitsAll(before, after, ren)
    requires IsOrder(order, RewriteAll(DiffOps(before, after), ren), before, after)
    requires MigrationsAt(out, d, name, before, after, RewriteAll(DiffOps(before, after), ren), order, version, c)
    requires Follows(steps, out, before, version, c)
    ensures DiffOps(LastState(NextChain(steps, out)), after) == [] <==> |out| == |order|
  {
    var ops := RewriteAll(DiffOps(before, after), ren);
    ResolvedListsCarry(before, after, ren);
    ChainExtends(steps, out, d, name, before, after, ops, order, version, c);
    NothingRemainsIff(before, after, ren, order, |out|);
  }

  /** After a whole run, a second diff against the same models finds nothing to do. */
  lemma SecondDiffEmpty(steps: seq<StateStep>, out: seq<Migration>, d: Dialect, name: Obj -> string, before: Snapshot, after: Snapshot, ops: seq<Op>,
                        version: string, c: Clock)
    requires ValidSnapshot(before) && ValidSnapshot(after) && Carries(ops, before, after)
    requires Generates(out, d, name, before, after, ops, version, c)
    requires Follows(steps, out, before, version, c)
    ensures UsableSteps(NextChain(steps, out))
    ensures ValidSnapshot(LastState(NextChain(steps, out)))
    ensures DiffOps(LastState(NextChain(steps, out)), after) == []
  {
    var order := OwnersOf(out);
    ChainExtends(steps, out, d, name, before, after, ops, order, version, c);
    CumulativeHalfway(before, after, ops, order, |order|);
    SplittingPreservesMeaning(before, after, ops, order);
    DiffEmptyIff(Cumulative(before, after, ops, order, |order|), after);
  }

  // ------------------------------------------------ PostgreSQL renders all

  /** Every recorded list renders for PostgreSQL, and so does its rollback: PostgreSQL never asks for a migration by hand. */
  lemma {:induction false} PostgresNeverByHand(ops: seq<Op>, before: Snapshot, s: Schema, name: Obj -> string)
    requires ValidSnapshot(before) && Path(ops, SchemaOf(before.models), s)
    ensures Renders(Postgres, name, before, ops)
  {
    if ops != [] {
      var op, t := ops[0], TableOf(ops[0]);
      PostgresRenders(op, Get(s, t), name);
      InvertStep(op, before, Get(s, t));
      PostgresRenders(Invert(op, before).value, Step(op, Get(s, t)).value, name);
      PostgresNeverByHand(ops[1..], before, Apply(op, s).value, name);
    }
  }

  lemma PostgresNeverHalts(written: seq<Migration>, order: seq<string>, name: Obj -> string, before: Snapshot, after: Snapshot, ops: seq<Op>, version: string, c: Clock)
    requires ValidSnapshot(before) && ValidSnapshot(after) && Carries(ops, before, after)
    ensures !Halts(written, order, Postgres, name, before, after, ops, version, c)
  {
    if IsOrder(order, ops, before, after) && |written| < |order| {
      ShareCarries(before, after, ops, order, |written|);
      var here := Cumulative(before, after, ops, order, |written|);
      PostgresNeverByHand(Share(ops, order[|written|], before, after), before, SchemaOf(here.models), name);
    }
  }
}
