/** Parallel workers and the paths they own: an accepted fanout cannot make two workers touch one place. */
module Fanout {
  import opened Wrappers
  import opened Text

  // ------------------------------------------------------------------ paths

  /** The text between slashes; always at least one piece. */
  function Split(s: string): (pieces: seq<string>)
    ensures pieces != []
  {
    if s == "" then [""]
    else if s[0] == '/' then [""] + Split(s[1..])
    else
      var rest := Split(s[1..]);
      [[s[0]] + rest[0]] + rest[1..]
  }

  function Join(pieces: seq<string>): string
  {
    if pieces == [] then "" else if |pieces| == 1 then pieces[0] else pieces[0] + "/" + Join(pieces[1..])
  }

  predicate Piece(s: string)
  {
    '/' !in s
  }

  lemma {:induction false} SplitPieces(s: string)
    ensures forall i :: 0 <= i < |Split(s)| ==> Piece(Split(s)[i])
  {
    if s != "" {
      SplitPieces(s[1..]);
    }
  }

  lemma {:induction false} JoinSplit(s: string)
    ensures Join(Split(s)) == s
  {
    if s != "" {
      JoinSplit(s[1..]);
      var rest := Split(s[1..]);
      if s[0] == '/' {
        assert ([""] + rest)[1..] == rest;
        assert s == "/" + s[1..];
      } else {
        assert ([[s[0]] + rest[0]] + rest[1..])[1..] == rest[1..];
        assert s == [s[0]] + s[1..];
      }
    }
  }

  lemma {:induction false} SplitPiece(s: string)
    requires Piece(s)
    ensures Split(s) == [s]
  {
    if s != "" {
      assert s[0] in s;
      assert forall c :: c in s[1..] ==> c in s;
      SplitPiece(s[1..]);
      assert [s[0]] + s[1..] == s;
    }
  }

  lemma {:induction false} SplitSlash(s: string, rest: string)
    requires Piece(s)
    ensures Split(s + "/" + rest) == [s] + Split(rest)
  {
    var whole := s + "/" + rest;
    if s == "" {
      assert whole[0] == '/' && whole[1..] == rest;
    } else {
      assert s[0] in s;
      assert forall c :: c in s[1..] ==> c in s;
      SplitSlash(s[1..], rest);
      assert whole[0] == s[0] && whole[1..] == s[1..] + "/" + rest;
      assert [s[0]] + s[1..] == s;
    }
  }

  lemma {:induction false} SplitJoin(pieces: seq<string>)
    requires pieces != [] && forall i :: 0 <= i < |pieces| ==> Piece(pieces[i])
    ensures Split(Join(pieces)) == pieces
  {
    if |pieces| == 1 {
      SplitPiece(pieces[0]);
    } else {
      SplitJoin(pieces[1..]);
      SplitSlash(pieces[0], Join(pieces[1..]));
      assert pieces == [pieces[0]] + pieces[1..];
    }
  }

  /** The stack of path.Clean on a relative path: empty and dot pieces go, a double dot takes the piece before it. */
  function Reduced(pieces: seq<string>): seq<string>
  {
    if pieces == [] then []
    else
      var done, p := Reduced(pieces[..|pieces| - 1]), pieces[|pieces| - 1];
      if p == "" || p == "." then done
      else if p == ".." && done != [] && done[|done| - 1] != ".." then done[..|done| - 1]
      else done + [p]
  }

  /** path.Clean, on a path that does not start with a slash. */
  function Clean(s: string): string
  {
    if Reduced(Split(s)) == [] then "." else Join(Reduced(Split(s)))
  }

  predicate PlainPiece(p: string)
  {
    p != "" && p != "." && p != ".."
  }

  predicate Letter(c: char)
  {
    'a' <= c <= 'z' || 'A' <= c <= 'Z'
  }

  predicate WindowsRooted(s: string)
  {
    |s| >= 3 && Letter(s[0]) && s[1] == ':' && (s[2] == '\\' || s[2] == '/')
  }

  /** validRepoPath returns no error. */
  predicate ValidRepoPath(s: string)
  {
    && s != "" && s != "." && !("/" <= s) && s == Clean(s) && !WindowsRooted(s)
    && '\\' !in s && '*' !in s && '?' !in s && '[' !in s
    && s != ".git" && !(".git/" <= s) && s != ".." && !("../" <= s)
  }

  lemma {:induction false} ReducedShape(pieces: seq<string>)
    requires forall i :: 0 <= i < |pieces| ==> Piece(pieces[i])
    ensures var r := Reduced(pieces);
            |r| <= |pieces| && (forall i :: 0 <= i < |r| ==> Piece(r[i]) && r[i] != "" && r[i] != ".")
            && (forall i, j :: 0 <= i < j < |r| && r[j] == ".." ==> r[i] == "..")
  {
    if pieces != [] {
      ReducedShape(pieces[..|pieces| - 1]);
    }
  }

  lemma {:induction false} PlainIsReduced(pieces: seq<string>)
    requires forall i :: 0 <= i < |pieces| ==> PlainPiece(pieces[i])
    ensures Reduced(pieces) == pieces
  {
    if pieces != [] {
      PlainIsReduced(pieces[..|pieces| - 1]);
    }
  }

  /** A path the check accepts names its place: no piece is empty, a dot or a double dot. */
  lemma ValidIsPlain(s: string)
    requires ValidRepoPath(s)
    ensures forall i :: 0 <= i < |Split(s)| ==> PlainPiece(Split(s)[i])
  {
    SplitPieces(s);
    var r := Reduced(Split(s));
    ReducedShape(Split(s));
    SplitJoin(r);
    assert Split(s) == r;
    JoinSplit(s);
    FirstPiece(s, Split(s)[0]);
    forall i | 0 <= i < |r| ensures PlainPiece(r[i]) {
      assert r[0] != "..";
    }
  }

  lemma FirstPiece(s: string, p: string)
    requires Split(s)[0] == p
    ensures s == p || p + "/" <= s
  {
    JoinSplit(s);
    var pieces := Split(s);
    if |pieces| > 1 {
      assert s == (p + "/") + Join(pieces[1..]);
    }
  }

  /** Plain pieces, none of the forbidden characters, and not the repository's own directory: exactly what is accepted. */
  lemma PlainIsValid(s: string)
    requires forall i :: 0 <= i < |Split(s)| ==> PlainPiece(Split(s)[i])
    requires Split(s)[0] != ".git" && !WindowsRooted(s) && '\\' !in s && '*' !in s && '?' !in s && '[' !in s
    ensures ValidRepoPath(s)
  {
    PlainIsReduced(Split(s));
    JoinSplit(s);
    Heads(s);
  }

  lemma Heads(s: string)
    requires PlainPiece(Split(s)[0]) && Split(s)[0] != ".git"
    ensures s != "" && s != "." && s != ".." && s != ".git" && !("/" <= s) && !("../" <= s) && !(".git/" <= s)
  {
    SplitPiece("..");
    SplitPiece(".git");
    SplitPiece(".");
    NotBelow(s, "..");
    NotBelow(s, ".git");
  }

  lemma NotBelow(s: string, p: string)
    requires Piece(p) && Split(s)[0] != p
    ensures !(p + "/" <= s)
  {
    if p + "/" <= s {
      assert s == p + "/" + s[|p| + 1..];
      SplitSlash(p, s[|p| + 1..]);
    }
  }

  /** A prefix owns itself and everything below it. */
  predicate Owns(prefix: string, candidate: string)
  {
    candidate == prefix || prefix + "/" <= candidate
  }

  lemma {:induction false} SplitOfJoined(a: string, rest: string)
    ensures Split(a + "/" + rest) == Split(a) + Split(rest)
  {
    if a == "" {
      SplitSlash("", rest);
    } else {
      SplitOfJoined(a[1..], rest);
      assert a + "/" + rest == [a[0]] + (a[1..] + "/" + rest);
      SplitFirst(a[0], a[1..] + "/" + rest);
      SplitFirst(a[0], a[1..]);
      assert a == [a[0]] + a[1..];
      Lengthened(a[0], Split(a[1..]), Split(rest));
    }
  }

  /** How one more character in front changes the pieces. */
  function WithFirst(c: char, pieces: seq<string>): seq<string>
    requires pieces != []
  {
    if c == '/' then [""] + pieces else [[c] + pieces[0]] + pieces[1..]
  }

  lemma SplitFirst(c: char, s: string)
    ensures Split([c] + s) == WithFirst(c, Split(s))
  {
    assert ([c] + s)[1..] == s;
  }

  lemma Lengthened(c: char, x: seq<string>, y: seq<string>)
    requires x != []
    ensures WithFirst(c, x + y) == WithFirst(c, x) + y
  {
    assert (x + y)[0] == x[0] && (x + y)[1..] == x[1..] + y;
  }

  lemma {:induction false} JoinAppend(x: seq<string>, y: seq<string>)
    requires x != [] && y != []
    ensures Join(x + y) == Join(x) + "/" + Join(y)
  {
    assert (x + y)[1..] == x[1..] + y;
    if |x| > 1 {
      JoinAppend(x[1..], y);
    } else {
      assert x[1..] + y == y;
    }
  }

  /** The string test is containment of paths, piece by piece. */
  lemma OwnsIsPrefix(a: string, b: string)
    ensures Owns(a, b) <==> Split(a) <= Split(b)
  {
    if Owns(a, b) {
      OwnedIsBelow(a, b);
    }
    if Split(a) <= Split(b) {
      BelowIsOwned(a, b);
    }
  }

  lemma OwnedIsBelow(a: string, b: string)
    requires Owns(a, b)
    ensures Split(a) <= Split(b)
  {
    if a + "/" <= b {
      assert b == a + "/" + b[|a| + 1..];
      SplitOfJoined(a, b[|a| + 1..]);
    }
  }

  lemma BelowIsOwned(a: string, b: string)
    requires Split(a) <= Split(b)
    ensures Owns(a, b)
  {
    var rest := Split(b)[|Split(a)|..];
    JoinSplit(a);
    JoinSplit(b);
    assert Split(b) == Split(a) + rest;
    if rest == [] {
      assert Split(b) == Split(a);
    } else {
      JoinAppend(Split(a), rest);
    }
  }

  // ------------------------------------------------------------------ tasks

  datatype Ports = Ports(smoke: int, scaffold: int)

  /** arrays: every list the packet must hold is there, and none is null. */
  datatype Task = Task(
    schema: string, id: string, runtime: string, role: string, issue: string, objective: string, risk: string,
    base: string, worktree: string, mode: string, ownedPaths: seq<string>, inputs: seq<string>, invariants: seq<string>,
    commands: seq<string>, resources: seq<string>, ports: Option<Ports>, arrays: bool)

  datatype Finding = Finding(severity: string, summary: string, evidence: string)
  datatype Command = Command(command: string, outcome: string, summary: string)

  datatype Result = Result(
    schema: string, task: string, runtime: string, role: string, status: string, base: string, head: string,
    changedPaths: seq<string>, findings: seq<Finding>, commands: seq<Command>, assumptions: seq<string>, risks: seq<string>,
    blockers: seq<string>, handback: string, arrays: bool)

  /** The access each role needs; None stands for no role file, which allows any. */
  type Roles = Option<map<string, string>>

  datatype Complaint =
    | TooMany | BadTask | DuplicateId | CrossRuntime | CrossBase | SharedWorktree | SharedResource | SharedPort | Overlap
    | BadMode | BadPath | BadOwnership | BadResource | BadPorts | BadField | EmptyValue | WrongRole | WrongResult | StaleResult
    | ReadOnlyChange | OutsideOwnership

  const READ := "read-only"
  const WRITE := "owned-write"

  predicate KnownResource(r: string)
  {
    r == "git-index" || r == "go-build-cache" || r == "loopback-ports" || r == "benchmark-cpu" || r == "final-validation"
  }

  predicate PortInRange(p: int)
  {
    1024 <= p <= 65535
  }

  predicate Distinct(values: seq<string>)
  {
    forall i, j :: 0 <= i < j < |values| ==> values[i] != values[j]
  }

  predicate Lower(c: char)
  {
    'a' <= c <= 'z'
  }

  predicate Decimal(c: char)
  {
    '0' <= c <= '9'
  }

  /** Every character from position i on satisfies the class. */
  predicate AllFrom(s: string, i: nat, allowed: char -> bool)
  {
    forall k :: i <= k < |s| ==> allowed(s[k])
  }

  predicate IdForm(s: string)
  {
    |s| >= 2 && (Lower(s[0]) || Decimal(s[0])) && AllFrom(s, 1, c => Lower(c) || Decimal(c) || c == '.' || c == '_' || c == '-')
  }

  predicate RoleForm(s: string)
  {
    |s| >= 1 && Lower(s[0]) && AllFrom(s, 1, c => Lower(c) || Decimal(c) || c == '-')
  }

  predicate ShaForm(s: string)
  {
    |s| == 40 && AllFrom(s, 0, c => Decimal(c) || 'a' <= c <= 'f')
  }

  predicate IssueForm(s: string)
  {
    |s| >= 2 && s[0] == '#' && AllFrom(s, 1, c => Decimal(c))
  }

  predicate KnownRuntime(s: string)
  {
    s == "codex" || s == "claude" || s == "cursor"
  }

  /** The role is well formed, known where roles are given, and allows this access. */
  predicate RoleAllows(t: Task, roles: Roles)
  {
    RoleForm(t.role) && (roles.Some? ==> t.role in roles.value && roles.value[t.role] == t.mode)
  }

  predicate HeadOk(t: Task)
  {
    && t.schema == "fabrin.agent-task/v1" && IdForm(t.id) && KnownRuntime(t.runtime) && IssueForm(t.issue)
    && !Blank(t.objective) && t.invariants != [] && (t.risk == "trivial" || t.risk == "normal" || t.risk == "high")
    && ShaForm(t.base) && ("/" <= t.worktree || WindowsRooted(t.worktree)) && t.arrays
  }

  predicate NoneBlank(values: seq<string>)
  {
    forall i :: 0 <= i < |values| ==> !Blank(values[i])
  }

  predicate TaskOk(t: Task, roles: Roles)
  {
    && HeadOk(t) && RoleAllows(t, roles) && (t.mode == READ || t.mode == WRITE)
    && (t.mode == READ ==> t.ownedPaths == []) && (t.mode == WRITE ==> t.ownedPaths != [])
    && NoneBlank(t.inputs) && NoneBlank(t.invariants) && NoneBlank(t.commands)
    && (forall i :: 0 <= i < |t.resources| ==> KnownResource(t.resources[i])) && Distinct(t.resources)
    && (t.ports.Some? ==> PortInRange(t.ports.value.smoke) && PortInRange(t.ports.value.scaffold))
    && (forall i :: 0 <= i < |t.ownedPaths| ==> ValidRepoPath(t.ownedPaths[i]))
  }

  method ValidateTask(t: Task, roles: Roles) returns (errs: seq<Complaint>)
    ensures errs == [] <==> TaskOk(t, roles)
  {
    errs := ValidateHead(t);
    var known := roles.Some? && t.role in roles.value;
    if !RoleForm(t.role) || (roles.Some? && !known) {
      errs := errs + [WrongRole];
    }
    if t.mode != READ && t.mode != WRITE {
      errs := errs + [BadMode];
    }
    if roles.Some? && known && roles.value[t.role] != t.mode {
      errs := errs + [WrongRole];
    }
    if t.mode == READ && |t.ownedPaths| != 0 {
      errs := errs + [BadOwnership];
    }
    if t.mode == WRITE && |t.ownedPaths| == 0 {
      errs := errs + [BadOwnership];
    }
    var blanks := BlankErrors([t.inputs, t.invariants, t.commands]);
    ThreeLists(t.inputs, t.invariants, t.commands);
    var more := ResourceErrors(t.resources);
    errs := errs + blanks + more;
    if t.ports.Some? && !(PortInRange(t.ports.value.smoke) && PortInRange(t.ports.value.scaffold)) {
      errs := errs + [BadPorts];
    }
    var paths := PathErrors(t.ownedPaths);
    errs := errs + paths;
  }

  method ValidateHead(t: Task) returns (errs: seq<Complaint>)
    ensures errs == [] <==> HeadOk(t)
  {
    errs := [];
    if t.schema != "fabrin.agent-task/v1" {
      errs := errs + [BadField];
    }
    if !IdForm(t.id) || !KnownRuntime(t.runtime) || !IssueForm(t.issue) {
      errs := errs + [BadField];
    }
    if Blank(t.objective) || |t.invariants| == 0 {
      errs := errs + [BadField];
    }
    if t.risk != "trivial" && t.risk != "normal" && t.risk != "high" {
      errs := errs + [BadField];
    }
    if !ShaForm(t.base) || (!("/" <= t.worktree) && !WindowsRooted(t.worktree)) {
      errs := errs + [BadField];
    }
    if !t.arrays {
      errs := errs + [BadField];
    }
  }

  /** Blank values in any of the lists. */
  method BlankErrors(lists: seq<seq<string>>) returns (errs: seq<Complaint>)
    ensures errs == [] <==> forall k :: 0 <= k < |lists| ==> NoneBlank(lists[k])
  {
    errs := [];
    for k := 0 to |lists|
      invariant errs == [] <==> forall j :: 0 <= j < k ==> NoneBlank(lists[j])
    {
      ghost var before := errs;
      for i := 0 to |lists[k]|
        invariant errs == [] <==> before == [] && forall j :: 0 <= j < i ==> !Blank(lists[k][j])
      {
        if Blank(lists[k][i]) {
          errs := errs + [EmptyValue];
        }
      }
      assert errs == [] <==> before == [] && NoneBlank(lists[k]);
    }
  }

  lemma ThreeLists(a: seq<string>, b: seq<string>, c: seq<string>)
    ensures (forall k :: 0 <= k < |[a, b, c]| ==> NoneBlank([a, b, c][k])) <==> NoneBlank(a) && NoneBlank(b) && NoneBlank(c)
  {
    var lists := [a, b, c];
    assert lists[0] == a && lists[1] == b && lists[2] == c;
  }

  method PathErrors(paths: seq<string>) returns (errs: seq<Complaint>)
    ensures errs == [] <==> forall i :: 0 <= i < |paths| ==> ValidRepoPath(paths[i])
  {
    errs := [];
    for i := 0 to |paths|
      invariant errs == [] <==> forall k :: 0 <= k < i ==> ValidRepoPath(paths[k])
    {
      if !ValidRepoPath(paths[i]) {
        errs := errs + [BadPath];
      }
    }
  }

  method ResourceErrors(resources: seq<string>) returns (errs: seq<Complaint>)
    ensures errs == [] <==> (forall i :: 0 <= i < |resources| ==> KnownResource(resources[i])) && Distinct(resources)
  {
    errs := [];
    var seen: set<string> := {};
    for i := 0 to |resources|
      invariant forall r :: r in seen <==> exists k :: 0 <= k < i && resources[k] == r
      invariant errs == [] <==> (forall k :: 0 <= k < i ==> KnownResource(resources[k])) && Distinct(resources[..i])
    {
      if !KnownResource(resources[i]) {
        errs := errs + [BadResource];
      }
      if resources[i] in seen {
        var k :| 0 <= k < i && resources[k] == resources[i];
        assert resources[..i + 1][k] == resources[..i + 1][i];
        errs := errs + [BadResource];
      }
      assert resources[..i] == resources[..i + 1][..i];
      assert forall a, b :: 0 <= a < b < i ==> resources[..i][a] == resources[..i + 1][a] && resources[..i][b] == resources[..i + 1][b];
      seen := seen + {resources[i]};
    }
    assert resources[..|resources|] == resources;
  }

  predicate Share(a: seq<string>, b: seq<string>)
  {
    exists i, j :: 0 <= i < |a| && 0 <= j < |b| && a[i] == b[j]
  }

  predicate PortsMeet(a: Ports, b: Ports)
  {
    a.smoke == b.smoke || a.smoke == b.scaffold || a.scaffold == b.smoke || a.scaffold == b.scaffold
  }

  predicate PathsMeet(a: seq<string>, b: seq<string>)
  {
    exists i, j :: 0 <= i < |a| && 0 <= j < |b| && (Owns(a[i], b[j]) || Owns(b[j], a[i]))
  }

  /** Two tasks may run side by side. */
  predicate PairOk(a: Task, b: Task)
  {
    && a.runtime == b.runtime && a.base == b.base
    && !(a.mode == WRITE && b.mode == WRITE && a.worktree == b.worktree)
    && !Share(a.resources, b.resources)
    && !(a.ports.Some? && b.ports.Some? && PortsMeet(a.ports.value, b.ports.value))
    && !(a.mode == WRITE && b.mode == WRITE && PathsMeet(a.ownedPaths, b.ownedPaths))
  }

  method ValidatePair(a: Task, b: Task) returns (errs: seq<Complaint>)
    ensures errs == [] <==> PairOk(a, b)
  {
    errs := [];
    if a.runtime != b.runtime {
      errs := errs + [CrossRuntime];
    }
    if a.base != b.base {
      errs := errs + [CrossBase];
    }
    if a.mode == WRITE && b.mode == WRITE && a.worktree == b.worktree {
      errs := errs + [SharedWorktree];
    }
    var shared := SharedResources(a.resources, b.resources);
    errs := errs + shared;
    if a.ports.Some? && b.ports.Some? && PortsMeet(a.ports.value, b.ports.value) {
      errs := errs + [SharedPort];
    }
    if a.mode != WRITE || b.mode != WRITE {
      return;
    }
    var overlaps := Overlaps(a.ownedPaths, b.ownedPaths);
    errs := errs + overlaps;
  }

  method SharedResources(a: seq<string>, b: seq<string>) returns (errs: seq<Complaint>)
    ensures errs == [] <==> !Share(a, b)
  {
    errs := [];
    for i := 0 to |a|
      invariant errs == [] <==> forall x, j :: 0 <= x < i && 0 <= j < |b| ==> a[x] != b[j]
    {
      for j := 0 to |b|
        invariant errs == [] <==> (forall x, y :: 0 <= x < i && 0 <= y < |b| ==> a[x] != b[y]) && (forall y :: 0 <= y < j ==> a[i] != b[y])
      {
        if a[i] == b[j] {
          errs := errs + [SharedResource];
        }
      }
    }
  }

  predicate Apart(a: string, b: string)
  {
    !Owns(a, b) && !Owns(b, a)
  }

  method Overlaps(a: seq<string>, b: seq<string>) returns (errs: seq<Complaint>)
    ensures errs == [] <==> !PathsMeet(a, b)
  {
    errs := [];
    for i := 0 to |a|
      invariant errs == [] <==> forall x, j :: 0 <= x < i && 0 <= j < |b| ==> Apart(a[x], b[j])
    {
      for j := 0 to |b|
        invariant errs == [] <==> (forall x, y :: 0 <= x < i && 0 <= y < |b| ==> Apart(a[x], b[y])) && (forall y :: 0 <= y < j ==> Apart(a[i], b[y]))
      {
        if Owns(a[i], b[j]) || Owns(b[j], a[i]) {
          errs := errs + [Overlap];
        }
      }
    }
    assert errs == [] ==> forall i, j :: 0 <= i < |a| && 0 <= j < |b| ==> Apart(a[i], b[j]);
  }

  predicate FanoutOk(tasks: seq<Task>, roles: Roles)
  {
    && |tasks| <= 3
    && (forall i :: 0 <= i < |tasks| ==> TaskOk(tasks[i], roles))
    && (forall i, j :: 0 <= i < j < |tasks| ==> tasks[i].id != tasks[j].id)
    && (forall i, j :: 0 <= i < j < |tasks| ==> PairOk(tasks[i], tasks[j]))
  }

  predicate SinglyOk(tasks: seq<Task>, roles: Roles, n: nat)
    requires n <= |tasks|
  {
    && |tasks| <= 3
    && (forall k :: 0 <= k < n ==> TaskOk(tasks[k], roles))
    && (forall k, l :: 0 <= k < l < n ==> tasks[k].id != tasks[l].id)
  }

  /** All pairs that begin before i, and those of i up to j. */
  predicate PairsOk(tasks: seq<Task>, i: nat, j: nat)
    requires i <= |tasks| && j <= |tasks|
  {
    && (forall k, l :: 0 <= k < i && k < l < |tasks| ==> PairOk(tasks[k], tasks[l]))
    && (forall l :: i < l < j ==> PairOk(tasks[i], tasks[l]))
  }

  method ValidateFanout(tasks: seq<Task>, roles: Roles) returns (errs: seq<Complaint>)
    ensures errs == [] <==> FanoutOk(tasks, roles)
  {
    errs := SingleErrors(tasks, roles);
    var pairs := PairErrors(tasks);
    errs := errs + pairs;
  }

  method SingleErrors(tasks: seq<Task>, roles: Roles) returns (errs: seq<Complaint>)
    ensures errs == [] <==> SinglyOk(tasks, roles, |tasks|)
  {
    errs := if |tasks| > 3 then [TooMany] else [];
    var seen: set<string> := {};
    for i := 0 to |tasks|
      invariant forall id :: id in seen <==> exists k :: 0 <= k < i && tasks[k].id == id
      invariant errs == [] <==> SinglyOk(tasks, roles, i)
    {
      var bad := ValidateTask(tasks[i], roles);
      if bad != [] {
        errs := errs + [BadTask];
      }
      if tasks[i].id in seen {
        errs := errs + [DuplicateId];
      }
      seen := seen + {tasks[i].id};
    }
  }

  method PairErrors(tasks: seq<Task>) returns (errs: seq<Complaint>)
    ensures errs == [] <==> PairsOk(tasks, |tasks|, |tasks|)
  {
    errs := [];
    for i := 0 to |tasks|
      invariant errs == [] <==> PairsOk(tasks, i, i)
    {
      for j := i + 1 to |tasks|
        invariant errs == [] <==> PairsOk(tasks, i, j)
      {
        var bad := ValidatePair(tasks[i], tasks[j]);
        errs := errs + bad;
      }
    }
  }

  predicate OwnedBy(t: Task, path: string)
  {
    exists i :: 0 <= i < |t.ownedPaths| && Owns(t.ownedPaths[i], path)
  }

  predicate ChangeOk(t: Task, path: string)
  {
    ValidRepoPath(path) && t.mode != READ && OwnedBy(t, path)
  }

  predicate KnownSeverity(s: string)
  {
    s == "critical" || s == "high" || s == "medium" || s == "low" || s == "note"
  }

  predicate FindingOk(f: Finding)
  {
    KnownSeverity(f.severity) && !Blank(f.summary) && !Blank(f.evidence)
  }

  predicate KnownOutcome(s: string)
  {
    s == "passed" || s == "failed-expected" || s == "failed-unexpected" || s == "not-run"
  }

  predicate CommandOk(c: Command)
  {
    KnownOutcome(c.outcome) && !Blank(c.command) && !Blank(c.summary)
  }

  /** The result is this task's, made on its base, and tells one story. */
  predicate ReportOk(t: Task, r: Result)
  {
    && r.schema == "fabrin.agent-result/v1" && r.task == t.id && r.runtime == t.runtime && r.role == t.role
    && r.base == t.base && r.head == t.base
    && (r.status == "completed" || r.status == "blocked" || r.status == "failed") && (r.status == "completed" ==> r.blockers == [])
    && !Blank(r.handback) && r.arrays
  }

  predicate ResultOk(t: Task, r: Result, roles: Roles)
  {
    && TaskOk(t, roles) && ReportOk(t, r)
    && (forall i :: 0 <= i < |r.findings| ==> FindingOk(r.findings[i]))
    && (forall i :: 0 <= i < |r.commands| ==> CommandOk(r.commands[i]))
    && NoneBlank(r.assumptions) && NoneBlank(r.risks) && NoneBlank(r.blockers)
    && forall i :: 0 <= i < |r.changedPaths| ==> ChangeOk(t, r.changedPaths[i])
  }

  method ValidateResult(t: Task, r: Result, roles: Roles) returns (errs: seq<Complaint>)
    ensures errs == [] <==> ResultOk(t, r, roles)
  {
    errs := ValidateTask(t, roles);
    var report := ReportErrors(t, r);
    var evidence := EvidenceErrors(r);
    var blanks := BlankErrors([r.assumptions, r.risks, r.blockers]);
    ThreeLists(r.assumptions, r.risks, r.blockers);
    var changes := ChangeErrors(t, r.changedPaths);
    errs := errs + report + evidence + blanks + changes;
  }

  method ReportErrors(t: Task, r: Result) returns (errs: seq<Complaint>)
    ensures errs == [] <==> ReportOk(t, r)
  {
    errs := [];
    if r.schema != "fabrin.agent-result/v1" {
      errs := errs + [BadField];
    }
    if r.task != t.id || r.runtime != t.runtime || r.role != t.role {
      errs := errs + [WrongResult];
    }
    if r.base != t.base || r.head != t.base {
      errs := errs + [StaleResult];
    }
    if r.status != "completed" && r.status != "blocked" && r.status != "failed" {
      errs := errs + [BadField];
    }
    if r.status == "completed" && |r.blockers| != 0 {
      errs := errs + [BadField];
    }
    if Blank(r.handback) || !r.arrays {
      errs := errs + [BadField];
    }
  }

  method EvidenceErrors(r: Result) returns (errs: seq<Complaint>)
    ensures errs == [] <==> (forall i :: 0 <= i < |r.findings| ==> FindingOk(r.findings[i])) && (forall i :: 0 <= i < |r.commands| ==> CommandOk(r.commands[i]))
  {
    errs := [];
    for i := 0 to |r.findings|
      invariant errs == [] <==> forall k :: 0 <= k < i ==> FindingOk(r.findings[k])
    {
      var f := r.findings[i];
      if !KnownSeverity(f.severity) {
        errs := errs + [BadField];
      }
      if Blank(f.summary) || Blank(f.evidence) {
        errs := errs + [EmptyValue];
      }
    }
    ghost var found := errs;
    for i := 0 to |r.commands|
      invariant errs == [] <==> found == [] && forall k :: 0 <= k < i ==> CommandOk(r.commands[k])
    {
      var c := r.commands[i];
      if !KnownOutcome(c.outcome) {
        errs := errs + [BadField];
      }
      if Blank(c.command) || Blank(c.summary) {
        errs := errs + [EmptyValue];
      }
    }
  }

  method ChangeErrors(t: Task, changed: seq<string>) returns (errs: seq<Complaint>)
    ensures errs == [] <==> forall i :: 0 <= i < |changed| ==> ChangeOk(t, changed[i])
  {
    errs := [];
    for i := 0 to |changed|
      invariant errs == [] <==> forall k :: 0 <= k < i ==> ChangeOk(t, changed[k])
    {
      if !ValidRepoPath(changed[i]) {
        errs := errs + [BadPath];
        continue;
      }
      if t.mode == READ {
        errs := errs + [ReadOnlyChange];
        continue;
      }
      var owned := IsOwned(t.ownedPaths, changed[i]);
      if !owned {
        errs := errs + [OutsideOwnership];
      }
    }
  }

  method IsOwned(prefixes: seq<string>, path: string) returns (owned: bool)
    ensures owned <==> exists i :: 0 <= i < |prefixes| && Owns(prefixes[i], path)
  {
    owned := false;
    for j := 0 to |prefixes|
      invariant owned <==> exists k :: 0 <= k < j && Owns(prefixes[k], path)
    {
      owned := owned || Owns(prefixes[j], path);
    }
  }

  /** Two prefixes that both own one path are nested. */
  lemma OwnersNest(a: string, b: string, path: string)
    requires Owns(a, path) && Owns(b, path)
    ensures Owns(a, b) || Owns(b, a)
  {
    OwnsIsPrefix(a, path);
    OwnsIsPrefix(b, path);
    OwnsIsPrefix(a, b);
    OwnsIsPrefix(b, a);
    if |Split(a)| <= |Split(b)| {
      assert Split(a) == Split(path)[..|Split(a)|] == Split(b)[..|Split(a)|];
    } else {
      assert Split(b) == Split(path)[..|Split(b)|] == Split(a)[..|Split(b)|];
    }
  }

  lemma OwnsTransitive(a: string, b: string, c: string)
    requires Owns(a, b) && Owns(b, c)
    ensures Owns(a, c)
  {
    OwnsIsPrefix(a, b);
    OwnsIsPrefix(b, c);
    OwnsIsPrefix(a, c);
  }

  /**
    When a fanout and the results of two of its tasks are accepted, no path one changed equals, contains
    or lies under a path the other changed - as paths, piece by piece, and each path names its own place.
    */
  lemma WorkersNeverCollide(tasks: seq<Task>, roles: Roles, i: nat, j: nat, r: Result, q: Result, x: nat, y: nat)
    requires FanoutOk(tasks, roles) && i < j < |tasks| && ResultOk(tasks[i], r, roles) && ResultOk(tasks[j], q, roles)
    requires x < |r.changedPaths| && y < |q.changedPaths|
    ensures var one, other := Split(r.changedPaths[x]), Split(q.changedPaths[y]);
            !(one <= other) && !(other <= one)
            && (forall k :: 0 <= k < |one| ==> PlainPiece(one[k])) && (forall k :: 0 <= k < |other| ==> PlainPiece(other[k]))
  {
    var a, b := r.changedPaths[x], q.changedPaths[y];
    assert ChangeOk(tasks[i], a) && ChangeOk(tasks[j], b) && PairOk(tasks[i], tasks[j]);
    ValidIsPlain(a);
    ValidIsPlain(b);
    OwnsIsPrefix(a, b);
    OwnsIsPrefix(b, a);
    var m :| 0 <= m < |tasks[i].ownedPaths| && Owns(tasks[i].ownedPaths[m], a);
    var n :| 0 <= n < |tasks[j].ownedPaths| && Owns(tasks[j].ownedPaths[n], b);
    KeptApart(tasks[i].ownedPaths[m], tasks[j].ownedPaths[n], a, b);
  }

  /** Below two prefixes that are apart, all paths are apart. */
  lemma KeptApart(p: string, q: string, a: string, b: string)
    requires Apart(p, q) && Owns(p, a) && Owns(q, b)
    ensures Apart(a, b)
  {
    if Owns(a, b) {
      OwnsTransitive(p, a, b);
      OwnersNest(p, q, b);
    } else if Owns(b, a) {
      OwnsTransitive(q, b, a);
      OwnersNest(p, q, a);
    }
  }
}
