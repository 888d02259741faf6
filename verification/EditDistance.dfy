/** Command suggestions: two-row Levenshtein distance over bytes, proved to be the shortest edit script. */
module EditDistance {
  import opened Wrappers

  type Byte = x: int | 0 <= x < 256
  type Bytes = seq<Byte>

  function Min(x: nat, y: nat): nat
  {
    if x < y then x else y
  }

  /** The best of deleting, inserting and replacing, from the three distances they leave. */
  function Least(del: nat, ins: nat, sub: nat, cost: nat): nat
  {
    Min(Min(del + 1, ins + 1), sub + cost)
  }

  function Cost(x: Byte, y: Byte): nat
  {
    if x == y then 0 else 1
  }

  function Front(s: Bytes): Bytes
    requires s != []
  {
    s[..|s| - 1]
  }

  function Last(s: Bytes): Byte
    requires s != []
  {
    s[|s| - 1]
  }

  /** The recurrence the two rows tabulate. */
  function Lev(a: Bytes, b: Bytes): nat
    decreases |a| + |b|
  {
    if a == [] then |b|
    else if b == [] then |a|
    else Least(Lev(Front(a), b), Lev(a, Front(b)), Lev(Front(a), Front(b)), Cost(Last(a), Last(b)))
  }

  // ---------------------------------------------------------- edit scripts

  /** One edit at one position. */
  datatype Edit = Insert(at: nat, c: Byte) | Delete(at: nat) | Replace(at: nat, c: Byte)

  predicate Fits(e: Edit, s: Bytes)
  {
    if e.Insert? then e.at <= |s| else e.at < |s|
  }

  function Edited(s: Bytes, e: Edit): Bytes
    requires Fits(e, s)
  {
    match e
    case Insert(at, c) => s[..at] + [c] + s[at..]
    case Delete(at) => s[..at] + s[at + 1..]
    case Replace(at, c) => s[at := c]
  }

  /** A script: edits one after another, each on what the last one left. */
  function Run(s: Bytes, script: seq<Edit>): Option<Bytes>
    decreases |script|
  {
    if script == [] then Some(s)
    else if Fits(script[0], s) then Run(Edited(s, script[0]), script[1..])
    else None
  }

  lemma Cases(a: Bytes, b: Bytes)
    requires a != [] && b != []
    ensures Lev(a, b) <= Lev(Front(a), b) + 1 && Lev(a, b) <= Lev(a, Front(b)) + 1
    ensures Lev(a, b) <= Lev(Front(a), Front(b)) + Cost(Last(a), Last(b))
    ensures Lev(a, b) == Lev(Front(a), b) + 1 || Lev(a, b) == Lev(a, Front(b)) + 1
            || Lev(a, b) == Lev(Front(a), Front(b)) + Cost(Last(a), Last(b))
  {
  }

  lemma EditBefore(s: Bytes, t: Bytes, b: Bytes)
    requires s != [] && t != [] && b != [] && Last(s) == Last(t)
    requires Lev(s, Front(b)) <= Lev(t, Front(b)) + 1
    requires Lev(Front(s), b) <= Lev(Front(t), b) + 1 && Lev(Front(s), Front(b)) <= Lev(Front(t), Front(b)) + 1
    ensures Lev(s, b) <= Lev(t, b) + 1
  {
    Cases(s, b);
    Cases(t, b);
    Weigh(Lev(s, b), Lev(Front(s), b), Lev(s, Front(b)), Lev(Front(s), Front(b)),
          Lev(t, b), Lev(Front(t), b), Lev(t, Front(b)), Lev(Front(t), Front(b)), Cost(Last(s), Last(b)));
  }

  lemma Weigh(s: nat, s1: nat, s2: nat, s3: nat, t: nat, t1: nat, t2: nat, t3: nat, cost: nat)
    requires s <= s1 + 1 && s <= s2 + 1 && s <= s3 + cost
    requires t == t1 + 1 || t == t2 + 1 || t == t3 + cost
    requires s1 <= t1 + 1 && s2 <= t2 + 1 && s3 <= t3 + 1
    ensures s <= t + 1
  {
  }

  lemma EditLast(s: Bytes, t: Bytes, b: Bytes)
    requires s != [] && t != [] && b != [] && Lev(s, Front(b)) <= Lev(t, Front(b)) + 1
    requires Front(t) == s || t == Front(s) || Front(t) == Front(s)
    ensures Lev(s, b) <= Lev(t, b) + 1
  {
    Cases(s, b);
    Cases(t, b);
  }

  lemma InnerEdit(s: Bytes, e: Edit)
    requires s != [] && Fits(e, s) && (e.at < |s| - 1 || (e.Insert? && e.at == |s| - 1))
    ensures Fits(e, Front(s)) && Edited(s, e) != [] && Last(Edited(s, e)) == Last(s) && Front(Edited(s, e)) == Edited(Front(s), e)
  {
    assert s == Front(s) + [Last(s)];
    assert Edited(s, e) == Edited(Front(s), e) + [Last(s)];
  }

  lemma EndEdit(s: Bytes, e: Edit)
    requires s != [] && Fits(e, s) && Edited(s, e) != [] && !(e.at < |s| - 1 || (e.Insert? && e.at == |s| - 1))
    ensures Front(Edited(s, e)) == s || Edited(s, e) == Front(s) || Front(Edited(s, e)) == Front(s)
  {
  }

  /** One edit changes the distance to any target by at most one. */
  lemma {:induction false} OneEditAway(s: Bytes, e: Edit, b: Bytes)
    requires Fits(e, s)
    ensures Lev(s, b) <= Lev(Edited(s, e), b) + 1
    decreases |s| + |b|
  {
    var t := Edited(s, e);
    if b == [] {
    } else if s == [] {
      InsertedIntoNothing(t, b);
    } else if t == [] {
      LengthApart(t, b);
      Cases(s, b);
    } else {
      OneEditAway(s, e, Front(b));
      if e.at < |s| - 1 || (e.Insert? && e.at == |s| - 1) {
        InnerEdit(s, e);
        OneEditAway(Front(s), e, b);
        OneEditAway(Front(s), e, Front(b));
        EditBefore(s, t, b);
      } else {
        EndEdit(s, e);
        EditLast(s, t, b);
      }
    }
  }

  lemma InsertedIntoNothing(t: Bytes, b: Bytes)
    requires |t| == 1 && b != []
    ensures |b| <= Lev(t, b) + 1
  {
    LengthApart(t, b);
  }

  lemma {:induction false} LengthApart(a: Bytes, b: Bytes)
    ensures |b| - |a| <= Lev(a, b)
    decreases |a| + |b|
  {
    if a != [] && b != [] {
      LengthApart(Front(a), b);
      LengthApart(a, Front(b));
      LengthApart(Front(a), Front(b));
    }
  }

  lemma {:induction false} SelfIsZero(a: Bytes)
    ensures Lev(a, a) == 0
  {
    if a != [] {
      SelfIsZero(Front(a));
    }
  }

  /** No script from a to b is shorter. */
  lemma {:induction false} NoShorterScript(a: Bytes, script: seq<Edit>, b: Bytes)
    requires Run(a, script) == Some(b)
    ensures Lev(a, b) <= |script|
    decreases |script|
  {
    if script == [] {
      SelfIsZero(a);
    } else {
      NoShorterScript(Edited(a, script[0]), script[1..], b);
      OneEditAway(a, script[0], b);
    }
  }

  /** A shortest script, read off the recurrence. */
  function Script(a: Bytes, b: Bytes): (script: seq<Edit>)
    ensures |script| == Lev(a, b)
    decreases |a| + |b|
  {
    if a == [] then
      if b == [] then [] else Script([], Front(b)) + [Insert(|b| - 1, Last(b))]
    else if b == [] then [Delete(|a| - 1)] + Script(Front(a), [])
    else
      var del, ins, sub := Lev(Front(a), b) + 1, Lev(a, Front(b)) + 1, Lev(Front(a), Front(b)) + Cost(Last(a), Last(b));
      if del == Lev(a, b) then [Delete(|a| - 1)] + Script(Front(a), b)
      else if ins == Lev(a, b) then Script(a, Front(b)) + [Insert(|b| - 1, Last(b))]
      else Script(Front(a), Front(b)) + if Last(a) == Last(b) then [] else [Replace(|b| - 1, Last(b))]
  }

  lemma {:induction false} RunThen(s: Bytes, one: seq<Edit>, two: seq<Edit>)
    ensures Run(s, one).Some? ==> Run(s, one + two) == Run(Run(s, one).value, two)
    decreases |one|
  {
    if one == [] {
      assert one + two == two;
    } else {
      assert (one + two)[0] == one[0] && (one + two)[1..] == one[1..] + two;
      if Fits(one[0], s) {
        RunThen(Edited(s, one[0]), one[1..], two);
      }
    }
  }

  /** A script runs the same with one more byte behind. */
  lemma {:induction false} RunInFront(s: Bytes, script: seq<Edit>, x: Byte)
    requires Run(s, script).Some?
    ensures Run(s + [x], script) == Some(Run(s, script).value + [x])
    decreases |script|
  {
    if script != [] {
      var e := script[0];
      assert Edited(s + [x], e) == Edited(s, e) + [x];
      RunInFront(Edited(s, e), script[1..], x);
    }
  }

  lemma DeleteLast(a: Bytes, rest: seq<Edit>)
    requires a != []
    ensures Run(a, [Delete(|a| - 1)] + rest) == Run(Front(a), rest)
  {
    var script := [Delete(|a| - 1)] + rest;
    assert script[1..] == rest && Edited(a, script[0]) == Front(a);
  }

  lemma AppendLast(s: Bytes, b: Bytes, script: seq<Edit>)
    requires b != [] && Run(s, script) == Some(Front(b))
    ensures Run(s, script + [Insert(|b| - 1, Last(b))]) == Some(b)
  {
    var last := [Insert(|b| - 1, Last(b))];
    RunThen(s, script, last);
    assert Edited(Front(b), last[0]) == b && last[1..] == [];
  }

  lemma {:induction false} ScriptRuns(a: Bytes, b: Bytes)
    ensures Run(a, Script(a, b)) == Some(b)
    decreases |a| + |b|
  {
    if a == [] {
      if b != [] {
        ScriptRuns([], Front(b));
        AppendLast([], b, Script([], Front(b)));
      }
    } else if b == [] {
      ScriptRuns(Front(a), []);
      DeleteLast(a, Script(Front(a), []));
    } else {
      ScriptRuns(Front(a), b);
      DeleteLast(a, Script(Front(a), b));
      ScriptRuns(a, Front(b));
      AppendLast(a, b, Script(a, Front(b)));
      ScriptRuns(Front(a), Front(b));
      SubstituteRuns(a, b, Script(Front(a), Front(b)));
    }
  }

  lemma SubstituteRuns(a: Bytes, b: Bytes, script: seq<Edit>)
    requires a != [] && b != [] && Run(Front(a), script) == Some(Front(b))
    ensures Run(a, script + if Last(a) == Last(b) then [] else [Replace(|b| - 1, Last(b))]) == Some(b)
  {
    var x := Front(b) + [Last(a)];
    RunBehind(a, script, Front(b));
    if Last(a) == Last(b) {
      assert x == b && script + [] == script;
    } else {
      RunThen(a, script, [Replace(|b| - 1, Last(b))]);
      OneReplace(x, b);
    }
  }

  lemma RunBehind(a: Bytes, script: seq<Edit>, q: Bytes)
    requires a != [] && Run(Front(a), script) == Some(q)
    ensures Run(a, script) == Some(q + [Last(a)])
  {
    RunInFront(Front(a), script, Last(a));
    assert a == Front(a) + [Last(a)];
  }

  lemma OneReplace(x: Bytes, b: Bytes)
    requires b != [] && |x| == |b| && Front(x) == Front(b)
    ensures Run(x, [Replace(|b| - 1, Last(b))]) == Some(b)
  {
    var e := Replace(|b| - 1, Last(b));
    assert Edited(x, e) == b;
    assert [e][1..] == [];
  }

  /** The distance is the length of a shortest script: one of that length exists, and none is shorter. */
  lemma DistanceIsShortest(a: Bytes, b: Bytes)
    ensures exists script :: Run(a, script) == Some(b) && |script| == Lev(a, b)
    ensures forall script :: Run(a, script) == Some(b) ==> |script| >= Lev(a, b)
  {
    ScriptRuns(a, b);
    forall script | Run(a, script) == Some(b) ensures |script| >= Lev(a, b) {
      NoShorterScript(a, script, b);
    }
  }

  lemma {:induction false} Symmetric(a: Bytes, b: Bytes)
    ensures Lev(a, b) == Lev(b, a)
    decreases |a| + |b|
  {
    if a != [] && b != [] {
      Symmetric(Front(a), b);
      Symmetric(a, Front(b));
      Symmetric(Front(a), Front(b));
    }
  }

  /** Going through b costs no less: run one script after the other. */
  lemma Triangle(a: Bytes, b: Bytes, c: Bytes)
    ensures Lev(a, c) <= Lev(a, b) + Lev(b, c)
  {
    ScriptRuns(a, b);
    ScriptRuns(b, c);
    RunThen(a, Script(a, b), Script(b, c));
    NoShorterScript(a, Script(a, b) + Script(b, c), c);
  }

  lemma ZeroMeansEqual(a: Bytes, b: Bytes)
    ensures Lev(a, b) == 0 <==> a == b
  {
    SelfIsZero(a);
    ScriptRuns(a, b);
  }

  // ------------------------------------------------------------ the method

  /** The table's cell for the first i bytes of a and the first j of b. */
  function Cell(a: Bytes, b: Bytes, i: nat, j: nat): nat
    requires i <= |a| && j <= |b|
  {
    if i == 0 then j
    else if j == 0 then i
    else Least(Cell(a, b, i - 1, j), Cell(a, b, i, j - 1), Cell(a, b, i - 1, j - 1), Cost(a[i - 1], b[j - 1]))
  }

  lemma {:induction false} CellIsDistance(a: Bytes, b: Bytes, i: nat, j: nat)
    requires i <= |a| && j <= |b|
    ensures Cell(a, b, i, j) == Lev(a[..i], b[..j])
  {
    if i > 0 && j > 0 {
      CellIsDistance(a, b, i - 1, j);
      CellIsDistance(a, b, i, j - 1);
      CellIsDistance(a, b, i - 1, j - 1);
      Fronts(a, i);
      Fronts(b, j);
      LevUnfolded(a[..i], b[..j], a[..i - 1], b[..j - 1]);
      CellUnfolded(a, b, i, j);
    }
  }

  lemma LevUnfolded(x: Bytes, y: Bytes, p: Bytes, q: Bytes)
    requires x != [] && y != [] && p == Front(x) && q == Front(y)
    ensures Lev(x, y) == Least(Lev(p, y), Lev(x, q), Lev(p, q), Cost(Last(x), Last(y)))
  {
    Cases(x, y);
    LeastOf(Lev(x, y), Lev(p, y), Lev(x, q), Lev(p, q), Cost(Last(x), Last(y)));
  }

  lemma Fronts(s: Bytes, i: nat)
    requires 0 < i <= |s|
    ensures Front(s[..i]) == s[..i - 1] && Last(s[..i]) == s[i - 1]
  {
  }

  lemma LeastOf(x: nat, del: nat, ins: nat, sub: nat, cost: nat)
    requires x <= del + 1 && x <= ins + 1 && x <= sub + cost && (x == del + 1 || x == ins + 1 || x == sub + cost)
    ensures x == Least(del, ins, sub, cost)
  {
  }

  lemma CellUnfolded(a: Bytes, b: Bytes, i: nat, j: nat)
    requires 0 < i <= |a| && 0 < j <= |b|
    ensures Cell(a, b, i, j) == Least(Cell(a, b, i - 1, j), Cell(a, b, i, j - 1), Cell(a, b, i - 1, j - 1), Cost(a[i - 1], b[j - 1]))
  {
  }

  ghost predicate IsRow(row: seq<nat>, a: Bytes, b: Bytes, i: nat)
    requires i <= |a|
  {
    |row| == |b| + 1 && forall k :: 0 <= k <= |b| ==> row[k] == Cell(a, b, i, k)
  }

  ghost predicate IsStart(row: seq<nat>, a: Bytes, b: Bytes, i: nat)
    requires i <= |a|
  {
    |row| <= |b| + 1 && forall k :: 0 <= k < |row| ==> row[k] == Cell(a, b, i, k)
  }

  lemma Grown(row: seq<nat>, a: Bytes, b: Bytes, i: nat, j: nat)
    requires i <= |a| && j <= |b| && |row| == j + 1 && IsStart(row[..j], a, b, i) && row[j] == Cell(a, b, i, j)
    ensures IsStart(row, a, b, i)
  {
    forall k | 0 <= k < |row| ensures row[k] == Cell(a, b, i, k) {
      assert k < j ==> row[..j][k] == row[k];
    }
  }

  /** The inner loop: one row from the one above. */
  method NextRow(a: Bytes, b: Bytes, i: nat, prev: array<nat>, curr: array<nat>)
    requires 1 <= i <= |a| && prev != curr && prev.Length == curr.Length == |b| + 1
    requires IsRow(prev[..], a, b, i - 1)
    modifies curr
    ensures IsRow(curr[..], a, b, i)
  {
    ghost var above := prev[..];
    curr[0] := i;
    for j := 1 to |b| + 1
      invariant prev[..] == above
      invariant IsStart(curr[..j], a, b, i)
    {
      var cost := if a[i - 1] == b[j - 1] then 0 else 1;
      assert prev[j] == above[j] && prev[j - 1] == above[j - 1];
      CellUnfolded(a, b, i, j);
      ghost var sofar := curr[..j];
      curr[j] := Least(prev[j], curr[j - 1], prev[j - 1], cost);
      assert curr[..j] == sofar;
      Grown(curr[..j + 1], a, b, i, j);
    }
  }

  method Distance(a: Bytes, b: Bytes) returns (d: nat)
    ensures d == Lev(a, b)
  {
    var prev, curr := new nat[|b| + 1], new nat[|b| + 1];
    for j := 0 to |b| + 1
      invariant forall k :: 0 <= k < j ==> prev[k] == k
    {
      prev[j] := j;
    }
    for i := 1 to |a| + 1
      invariant prev.Length == curr.Length == |b| + 1 && prev != curr && fresh(prev) && fresh(curr)
      invariant IsRow(prev[..], a, b, i - 1)
    {
      NextRow(a, b, i, prev, curr);
      prev, curr := curr, prev;
    }
    CellIsDistance(a, b, |a|, |b|);
    assert a[..|a|] == a && b[..|b|] == b;
    return prev[|b|];
  }

  function Limit(name: Bytes): nat
  {
    if (|name| + 2) / 3 > 1 then (|name| + 2) / 3 else 1
  }

  /** The first of the nearest candidates, when one is near enough to suggest; nothing otherwise. */
  method Closest(name: Bytes, candidates: seq<Bytes>) returns (near: Option<Bytes>)
    ensures near.None? <==> forall i :: 0 <= i < |candidates| ==> Lev(name, candidates[i]) > Limit(name)
    ensures near.Some? ==> Lev(name, near.value) <= Limit(name)
    ensures near.Some? ==> exists k :: Nearest(name, candidates, k) && candidates[k] == near.value
  {
    var best, distance := 0, -1;
    for i := 0 to |candidates|
      invariant distance == -1 <==> i == 0
      invariant i > 0 ==> best < i && distance == Lev(name, candidates[best])
      invariant forall k :: 0 <= k < i ==> distance <= Lev(name, candidates[k])
      invariant forall k :: 0 <= k < best ==> k < i && distance < Lev(name, candidates[k])
    {
      var d := Distance(name, candidates[i]);
      if distance < 0 || d < distance {
        best, distance := i, d;
      }
    }
    if distance < 0 || distance > Limit(name) {
      return None;
    }
    assert Nearest(name, candidates, best);
    return Some(candidates[best]);
  }

  ghost predicate Nearest(name: Bytes, candidates: seq<Bytes>, k: int)
  {
    && 0 <= k < |candidates|
    && (forall i :: 0 <= i < |candidates| ==> Lev(name, candidates[k]) <= Lev(name, candidates[i]))
    && (forall i :: 0 <= i < k ==> Lev(name, candidates[k]) < Lev(name, candidates[i]))
  }
}
