/** The walk over an exported type that reports every package its surface names, on a possibly cyclic graph. */
module LeakWalk {
  import opened Wrappers

  /** A named type's package and own name; predeclared types such as error have no package. */
  datatype Node =
    | Named(package: Option<string>, name: string, args: seq<nat>, underlying: nat)
    | Alias(target: nat)
    | Container(element: nat)                       // pointer, slice, array, channel
    | MapType(key: nat, element: nat)
    | Signature(params: nat, results: nat)
    | Tuple(elements: seq<nat>)
    | Struct(fields: seq<Member>)
    | Interface(methods: seq<Member>)
    | Basic

  datatype Member = Member(exported: bool, typ: nat)

  /** The type graph; a reference outside it is nil. */
  type Graph = map<nat, Node>

  datatype Policy = Policy(modulePath: string, allowlist: set<string>)

  predicate Within(path: string, root: string)
  {
    path == root || root + "/" <= path
  }

  /** No dot before the first slash. */
  predicate Stdlib(path: string)
  {
    path == "" || path[0] == '/' || (path[0] != '.' && Stdlib(path[1..]))
  }

  /** Ours, allowlisted with its subpackages, or the standard library's. */
  predicate Permitted(p: Policy, path: string)
  {
    Within(path, p.modulePath) || (exists root :: root in p.allowlist && Within(path, root)) || Stdlib(path)
  }

  predicate Ours(p: Policy, n: Node)
  {
    n.Named? && n.package.Some? && Within(n.package.value, p.modulePath)
  }

  /** What the walk writes down about one type. */
  function Report(p: Policy, n: Node): seq<string>
  {
    if n.Named? && n.package.Some? && !Permitted(p, n.package.value) then [n.package.value + "." + n.name] else []
  }

  function Exported(members: seq<Member>): seq<nat>
  {
    if members == [] then []
    else Exported(members[..|members| - 1]) + if members[|members| - 1].exported then [members[|members| - 1].typ] else []
  }

  /** Where the walk goes next, in order. A foreign type's own structure is not followed, only its arguments. */
  function Edges(p: Policy, n: Node): seq<nat>
  {
    match n
    case Named(_, _, args, underlying) => args + if Ours(p, n) then [underlying] else []
    case Alias(target) => [target]
    case Container(element) => [element]
    case MapType(key, element) => [key, element]
    case Signature(params, results) => [params, results]
    case Tuple(elements) => elements
    case Struct(fields) => Exported(fields)
    case Interface(methods) => Exported(methods)
    case Basic => []
  }

  predicate Follows(g: Graph, p: Policy, a: nat, b: nat)
  {
    a in g && b in g && b in Edges(p, g[a])
  }

  /** A walk along followed edges. */
  ghost predicate Path(g: Graph, p: Policy, path: seq<nat>)
  {
    && path != [] && path[0] in g
    && forall i, j :: 0 <= i && j == i + 1 && j < |path| ==> Follows(g, p, path[i], path[j])
  }

  ghost predicate Reaches(g: Graph, p: Policy, from: nat, to: nat)
  {
    exists path :: Path(g, p, path) && path[0] == from && path[|path| - 1] == to
  }

  lemma ReachesSelf(g: Graph, p: Policy, t: nat)
    requires t in g
    ensures Reaches(g, p, t, t)
  {
    assert Path(g, p, [t]);
    assert [t][0] == t && [t][|[t]| - 1] == t;
  }

  lemma ReachesThrough(g: Graph, p: Policy, t: nat, next: nat, to: nat)
    requires Follows(g, p, t, next) && Reaches(g, p, next, to)
    ensures Reaches(g, p, t, to)
  {
    var path :| Path(g, p, path) && path[0] == next && path[|path| - 1] == to;
    var longer := [t] + path;
    forall i, j | 0 <= i && j == i + 1 && j < |longer| ensures Follows(g, p, longer[i], longer[j]) {
      if i > 0 {
        assert longer[i] == path[i - 1] && longer[j] == path[j - 1];
      }
    }
    assert Path(g, p, longer) && longer[0] == t && longer[|longer| - 1] == to;
  }

  /** A set that contains the start and is closed under the edges contains all that is reached. */
  lemma {:induction false} ClosedCovers(g: Graph, p: Policy, seen: set<nat>, path: seq<nat>)
    requires Path(g, p, path) && path[0] in seen
    requires forall a, b :: a in seen && Follows(g, p, a, b) ==> b in seen
    ensures path[|path| - 1] in seen
    decreases |path|
  {
    if |path| > 1 {
      var front := path[..|path| - 1];
      forall i, j | 0 <= i && j == i + 1 && j < |front| ensures Follows(g, p, front[i], front[j]) {
        assert Follows(g, p, path[i], path[j]);
      }
      ClosedCovers(g, p, seen, front);
      assert Follows(g, p, path[|path| - 2], path[|path| - 1]);
    }
  }

  /** What the types of a trail report, in order. */
  function Reports(g: Graph, p: Policy, trail: seq<nat>): seq<string>
    requires forall t :: t in trail ==> t in g
  {
    if trail == [] then []
    else Reports(g, p, trail[..|trail| - 1]) + Report(p, g[trail[|trail| - 1]])
  }

  lemma {:induction false} ReportsAppend(g: Graph, p: Policy, a: seq<nat>, b: seq<nat>)
    requires forall t :: t in a + b ==> t in g
    ensures (forall t :: t in a ==> t in g) && (forall t :: t in b ==> t in g)
    ensures Reports(g, p, a + b) == Reports(g, p, a) + Reports(g, p, b)
  {
    forall t | t in a || t in b ensures t in a + b {
    }
    if b == [] {
      assert a + b == a;
    } else {
      var front := b[..|b| - 1];
      assert (a + b)[..|a + b| - 1] == a + front;
      forall t | t in a + front ensures t in a + b {
      }
      ReportsAppend(g, p, a, front);
    }
  }

  lemma {:induction false} ReportsMembers(g: Graph, p: Policy, trail: seq<nat>, s: string)
    requires forall t :: t in trail ==> t in g
    ensures s in Reports(g, p, trail) <==> exists t :: t in trail && s in Report(p, g[t])
  {
    if trail != [] {
      ReportsMembers(g, p, trail[..|trail| - 1], s);
      assert trail == trail[..|trail| - 1] + [trail[|trail| - 1]];
    }
  }

  predicate NoRepeats(trail: seq<nat>)
  {
    forall i, j :: 0 <= i < j < |trail| ==> trail[i] != trail[j]
  }

  /** New types only, each once, their reports in order, and nothing they lead to left out. */
  ghost predicate Walked(g: Graph, p: Policy, before: set<nat>, after: set<nat>, trail: seq<nat>, out: seq<string>)
  {
    && before <= after <= g.Keys
    && NoRepeats(trail) && (forall u :: u in trail <==> u in after - before)
    && (forall u :: u in trail ==> u in g) && out == Reports(g, p, trail)
    && (forall a, b :: a in after - before && Follows(g, p, a, b) ==> b in after)
  }

  lemma WalkedThen(g: Graph, p: Policy, start: set<nat>, middle: set<nat>, end: set<nat>, one: seq<nat>, two: seq<nat>, said: seq<string>, more: seq<string>)
    requires Walked(g, p, start, middle, one, said) && Walked(g, p, middle, end, two, more)
    ensures Walked(g, p, start, end, one + two, said + more)
  {
    Disjoint(one, two, start, middle, end);
    forall u | u in one + two ensures u in g {
    }
    ReportsAppend(g, p, one, two);
  }

  lemma WalkedNode(g: Graph, p: Policy, t: nat, before: set<nat>, after: set<nat>, rest: seq<nat>, more: seq<string>)
    requires t in g && t !in before && Walked(g, p, before + {t}, after, rest, more)
    requires forall u :: u in Edges(p, g[t]) && u in g ==> u in after
    ensures Walked(g, p, before, after, [t] + rest, Report(p, g[t]) + more)
  {
    Disjoint([t], rest, before, before + {t}, after);
    forall u | u in [t] + rest ensures u in g {
    }
    ReportsAppend(g, p, [t], rest);
    OneReport(g, p, t);
  }

  lemma OneReport(g: Graph, p: Policy, t: nat)
    requires t in g
    ensures Reports(g, p, [t]) == Report(p, g[t])
  {
    assert [t][..0] == [];
  }

  class Walker {
    const graph: Graph
    const policy: Policy
    var seen: set<nat>

    constructor (graph: Graph, policy: Policy)
      ensures this.graph == graph && this.policy == policy && seen == {}
    {
      this.graph := graph;
      this.policy := policy;
      seen := {};
    }

    method Offenders(t: nat) returns (out: seq<string>, ghost trail: seq<nat>)
      requires seen <= graph.Keys
      modifies this
      ensures Walked(graph, policy, old(seen), seen, trail, out)
      ensures t in graph ==> t in seen
      ensures forall u :: u in trail ==> Reaches(graph, policy, t, u)
      decreases |graph.Keys - seen|, 1
    {
      if t !in graph || t in seen {
        return [], [];
      }
      var node := graph[t];
      ReachesSelf(graph, policy, t);
      Shrinks(graph.Keys, seen, t);
      seen := seen + {t};
      var more;
      ghost var rest;
      more, rest := Each(t, Edges(policy, node));
      out := Report(policy, node) + more;
      trail := [t] + rest;
      WalkedNode(graph, policy, t, old(seen), seen, rest, more);
    }

    /** The successors of t, one after another. */
    method Each(t: nat, next: seq<nat>) returns (out: seq<string>, ghost trail: seq<nat>)
      requires seen <= graph.Keys && t in graph && next == Edges(policy, graph[t])
      modifies this
      ensures Walked(graph, policy, old(seen), seen, trail, out)
      ensures forall u :: u in next && u in graph ==> u in seen
      ensures forall u :: u in trail ==> Reaches(graph, policy, t, u)
      decreases |graph.Keys - seen|, 2
    {
      out, trail := [], [];
      for i := 0 to |next|
        invariant Walked(graph, policy, old(seen), seen, trail, out)
        invariant forall j :: 0 <= j < i && next[j] in graph ==> next[j] in seen
        invariant forall u :: u in trail ==> Reaches(graph, policy, t, u)
      {
        ghost var before := seen;
        var more;
        ghost var rest;
        Fewer(graph.Keys, old(seen), seen);
        more, rest := Offenders(next[i]);
        WalkedThen(graph, policy, old(seen), before, seen, trail, rest, out, more);
        RestReached(graph, policy, t, next[i], rest);
        out := out + more;
        trail := trail + rest;
      }
    }
  }

  lemma RestReached(g: Graph, p: Policy, t: nat, next: nat, rest: seq<nat>)
    requires t in g && next in Edges(p, g[t]) && forall u :: u in rest ==> Reaches(g, p, next, u)
    ensures forall u :: u in rest ==> Reaches(g, p, t, u)
  {
    forall u | u in rest ensures Reaches(g, p, t, u) {
      assert Reaches(g, p, next, u);
      ReachesThrough(g, p, t, next, u);
    }
  }

  lemma Disjoint(a: seq<nat>, b: seq<nat>, start: set<nat>, middle: set<nat>, end: set<nat>)
    requires NoRepeats(a) && NoRepeats(b) && start <= middle <= end
    requires (forall u :: u in a <==> u in middle - start) && (forall u :: u in b <==> u in end - middle)
    ensures NoRepeats(a + b) && forall u :: u in a + b <==> u in end - start
  {
    forall i, j | 0 <= i < |a| && 0 <= j < |b| ensures a[i] != b[j] {
      assert a[i] in a && b[j] in b;
    }
  }

  lemma Shrinks(all: set<nat>, seen: set<nat>, t: nat)
    requires t in all && t !in seen
    ensures |all - (seen + {t})| < |all - seen|
  {
    assert all - seen == (all - (seen + {t})) + {t};
  }

  lemma {:induction false} Fewer(all: set<nat>, before: set<nat>, after: set<nat>)
    requires before <= after
    ensures |all - after| <= |all - before|
  {
    var x, y := all - after, all - before;
    assert x <= y;
    assert y == x + (y - x);
  }

  /**
    From a fresh start the walk ends, and its report names exactly the unpermitted types that can be
    reached: each such type once, and no other.
    */
  method Offenders(graph: Graph, policy: Policy, t: nat) returns (out: seq<string>, ghost trail: seq<nat>)
    requires t in graph
    ensures NoRepeats(trail) && (forall u :: u in trail ==> u in graph) && out == Reports(graph, policy, trail)
    ensures forall u :: u in trail <==> Reaches(graph, policy, t, u)
    ensures forall s :: s in out <==> exists u :: Reaches(graph, policy, t, u) && u in graph && s in Report(policy, graph[u])
  {
    var walker := new Walker(graph, policy);
    out, trail := walker.Offenders(t);
    ghost var seen := walker.seen;
    forall u | Reaches(graph, policy, t, u) ensures u in trail {
      var path :| Path(graph, policy, path) && path[0] == t && path[|path| - 1] == u;
      ClosedCovers(graph, policy, seen, path);
    }
    forall s ensures s in out <==> exists u :: Reaches(graph, policy, t, u) && u in graph && s in Report(policy, graph[u]) {
      ReportsMembers(graph, policy, trail, s);
    }
  }
}
