// The component dependency graph: the cycle check made before a binding is added (App.cc) and the
// depth-first start order (Registry.cc).  An edge leads from a subject to a component it is bound to.

module ComponentGraph {
  datatype ObjectKind = App | Service | Actor | Component

  /** Ids read "<kind>:<number>"; the number comes from a counter that only grows. */
  datatype ObjectId = ObjectId(kind: ObjectKind, number: nat)

  /** Each component with the components it depends on. */
  type Graph = map<ObjectId, seq<ObjectId>>

  predicate ClosedGraph(g: Graph) {
    forall a, d | a in g && d in g[a] :: d in g
  }

  predicate Edge(g: Graph, a: ObjectId, b: ObjectId) {
    a in g && b in g[a]
  }

  ghost predicate IsPath(g: Graph, p: seq<ObjectId>) {
    p != [] && forall i | 0 <= i < |p| - 1 :: Edge(g, p[i], p[i + 1])
  }

  ghost predicate PathBetween(g: Graph, p: seq<ObjectId>, a: ObjectId, b: ObjectId) {
    IsPath(g, p) && p[0] == a && p[|p| - 1] == b
  }

  /** b is a itself or a transitive dependency of a. */
  ghost predicate Reaches(g: Graph, a: ObjectId, b: ObjectId) {
    exists p :: PathBetween(g, p, a, b)
  }

  ghost predicate Cyclic(g: Graph) {
    exists p :: IsPath(g, p) && |p| >= 2 && p[0] == p[|p| - 1]
  }

  predicate Distinct(s: seq<ObjectId>) {
    forall i, j | 0 <= i < j < |s| :: s[i] != s[j]
  }

  predicate Precedes(order: seq<ObjectId>, d: ObjectId, i: nat)
    requires i <= |order|
  {
    d in order[..i]
  }

  /** Every dependency of a listed component is listed before it. */
  predicate DependenciesFirst(g: Graph, order: seq<ObjectId>) {
    forall i | 0 <= i < |order| ::
      order[i] in g && forall d | d in g[order[i]] :: Precedes(order, d, i)
  }

  // ---------- Paths ----------

  lemma JoinPaths(g: Graph, p: seq<ObjectId>, q: seq<ObjectId>)
    requires IsPath(g, p) && IsPath(g, q) && Edge(g, p[|p| - 1], q[0])
    ensures IsPath(g, p + q)
  {
    forall i | 0 <= i < |p + q| - 1 ensures Edge(g, (p + q)[i], (p + q)[i + 1]) {
      if i >= |p| {
        assert Edge(g, q[i - |p|], q[i - |p| + 1]);
      }
    }
  }

  /** Along an edge of an ordered graph the position goes down, so a path never returns. */
  lemma {:induction false} PathsDescend(g: Graph, order: seq<ObjectId>, p: seq<ObjectId>, i: nat) returns (j: nat)
    requires DependenciesFirst(g, order) && IsPath(g, p)
    requires i < |order| && order[i] == p[0]
    ensures j <= i && order[j] == p[|p| - 1] && (|p| >= 2 ==> j < i)
    decreases |p|
  {
    if |p| == 1 {
      return i;
    }
    assert Edge(g, p[0], p[1]);
    assert Precedes(order, p[1], i);
    var k :| 0 <= k < i && order[k] == p[1];
    assert IsPath(g, p[1..]) by {
      forall m | 0 <= m < |p[1..]| - 1 ensures Edge(g, p[1..][m], p[1..][m + 1]) {
        assert Edge(g, p[m + 1], p[m + 2]);
      }
    }
    j := PathsDescend(g, order, p[1..], k);
  }

  lemma OrderedMeansAcyclic(g: Graph, order: seq<ObjectId>)
    requires DependenciesFirst(g, order) && Distinct(order) && (forall a | a in g :: a in order)
    ensures !Cyclic(g)
  {
    if Cyclic(g) {
      var p :| IsPath(g, p) && |p| >= 2 && p[0] == p[|p| - 1];
      assert Edge(g, p[0], p[1]);
      var i :| 0 <= i < |order| && order[i] == p[0];
      var j := PathsDescend(g, order, p, i);
    }
  }

  // ---------- The start order ----------

  /** The locals the recursive lambda of the source captures by reference. */
  datatype Search = Search(mark: map<ObjectId, nat>, order: seq<ObjectId>, cycle: bool)

  /** `stack` is the path of nodes being visited, mark 1; mark 2 is finished. */
  ghost predicate SearchOk(g: Graph, s: Search, stack: seq<ObjectId>) {
    && (forall a | a in s.mark :: a in g && (s.mark[a] == 1 || s.mark[a] == 2))
    && (forall a :: a in s.order <==> a in s.mark && s.mark[a] == 2)
    && (forall a :: a in stack <==> a in s.mark && s.mark[a] == 1)
    && Distinct(s.order)
    && (stack != [] ==> IsPath(g, stack))
    && (s.cycle ==> Cyclic(g))
    && (!s.cycle ==> DependenciesFirst(g, s.order))
  }

  predicate Finished(s: Search, a: ObjectId) {
    a in s.mark && s.mark[a] == 2
  }

  predicate FirstFinished(s: Search, ds: seq<ObjectId>, n: nat)
    requires n <= |ds|
  {
    forall k | 0 <= k < n :: Finished(s, ds[k])
  }

  function Enter(s: Search, id: ObjectId): Search {
    s.(mark := s.mark[id := 1])
  }

  function Leave(s: Search, id: ObjectId): Search {
    s.(mark := s.mark[id := 2], order := s.order + [id])
  }

  ghost predicate Extends(s: Search, s': Search) {
    && (forall a | a in s.mark :: a in s'.mark && s'.mark[a] == s.mark[a])
    && s.mark.Keys <= s'.mark.Keys
    && (s.cycle ==> s'.cycle)
  }

  lemma BackEdgeClosesCycle(g: Graph, stack: seq<ObjectId>, d: ObjectId)
    requires IsPath(g, stack) && d in stack && Edge(g, stack[|stack| - 1], d)
    ensures Cyclic(g)
  {
    var i :| 0 <= i < |stack| && stack[i] == d;
    var p := stack[i..];
    forall m | 0 <= m < |p| - 1 ensures Edge(g, p[m], p[m + 1]) {
      assert Edge(g, stack[i + m], stack[i + m + 1]);
    }
    JoinPaths(g, p, [d]);
    var c := p + [d];
    assert IsPath(g, c) && |c| >= 2 && c[0] == c[|c| - 1];
  }

  /** The recursive lambda: one node and everything below it that has no mark yet. */
  method Visit(g: Graph, id: ObjectId, s0: Search, ghost stack: seq<ObjectId>) returns (s: Search)
    requires ClosedGraph(g) && id in g && id !in s0.mark
    requires SearchOk(g, s0, stack) && (stack != [] ==> Edge(g, stack[|stack| - 1], id))
    ensures SearchOk(g, s, stack) && Extends(s0, s) && Finished(s, id)
    decreases |g.Keys - s0.mark.Keys|, 0
  {
    hide SearchOk, Extends, FirstFinished, Enter, Leave, ClosedGraph;
    EnterNode(g, s0, id, stack);
    s := VisitDependencies(g, id, Enter(s0, id), stack + [id]);
    LeaveNode(g, s0, s, id, stack);
    s := Leave(s, id);
  }

  method VisitDependencies(g: Graph, id: ObjectId, s0: Search, ghost path: seq<ObjectId>) returns (s: Search)
    requires ClosedGraph(g) && id in g
    requires SearchOk(g, s0, path) && path != [] && path[|path| - 1] == id
    ensures SearchOk(g, s, path) && Extends(s0, s)
    ensures !s.cycle ==> FirstFinished(s, g[id], |g[id]|)
    decreases |g.Keys - s0.mark.Keys|, 2
  {
    hide Extends, FirstFinished, IsPath, Cyclic, DependenciesFirst, Distinct, ClosedGraph;
    s := s0;
    ExtendsSelf(s0);
    NoneToFinish(s, g[id]);
    var i := 0;
    while i < |g[id]|
      invariant i <= |g[id]|
      invariant SearchOk(g, s, path)
      invariant Extends(s0, s)
      invariant !s.cycle ==> FirstFinished(s, g[id], i)
    {
      ghost var before := s;
      LessToVisit(g, s0, s);
      s := FollowEdge(g, id, g[id][i], s, path);
      ExtendsTransitive(s0, before, s);
      if !s.cycle {
        OneMoreFinished(before, s, g[id], i);
      }
      i := i + 1;
    }
  }

  method FollowEdge(g: Graph, id: ObjectId, d: ObjectId, s0: Search, ghost path: seq<ObjectId>) returns (s: Search)
    requires ClosedGraph(g) && Edge(g, id, d)
    requires SearchOk(g, s0, path) && path != [] && path[|path| - 1] == id
    ensures SearchOk(g, s, path) && Extends(s0, s)
    ensures !s.cycle ==> Finished(s, d)
    decreases |g.Keys - s0.mark.Keys|, 1
  {
    hide IsPath, Cyclic;
    s := s0;
    if Finished(s, d) {
    } else if d in s.mark {
      BackEdge(g, s, path, d);
      s := s.(cycle := true);
    } else {
      s := Visit(g, d, s, path);
    }
  }

  lemma ExtendsSelf(s: Search)
    ensures Extends(s, s)
  {
  }

  lemma ExtendsTransitive(a: Search, b: Search, c: Search)
    requires Extends(a, b) && Extends(b, c)
    ensures Extends(a, c) && (b.cycle ==> c.cycle)
  {
  }

  lemma NoneToFinish(s: Search, ds: seq<ObjectId>)
    ensures FirstFinished(s, ds, 0)
  {
  }

  lemma OneMoreFinished(s: Search, s': Search, ds: seq<ObjectId>, i: nat)
    requires i < |ds| && FirstFinished(s, ds, i) && Extends(s, s') && Finished(s', ds[i])
    ensures FirstFinished(s', ds, i + 1)
  {
  }

  lemma LessToVisit(g: Graph, s: Search, s': Search)
    requires Extends(s, s')
    ensures |g.Keys - s'.mark.Keys| <= |g.Keys - s.mark.Keys|
  {
    var a, b := g.Keys - s'.mark.Keys, g.Keys - s.mark.Keys;
    assert b == a + (b - a);
  }

  lemma BackEdge(g: Graph, s: Search, stack: seq<ObjectId>, d: ObjectId)
    requires SearchOk(g, s, stack) && d in s.mark && s.mark[d] == 1
    requires stack != [] && Edge(g, stack[|stack| - 1], d)
    ensures SearchOk(g, s.(cycle := true), stack)
  {
    assert d in stack;
    BackEdgeClosesCycle(g, stack, d);
    hide IsPath, Cyclic;
  }

  lemma SmallerRest(all: set<ObjectId>, before: set<ObjectId>, now: set<ObjectId>, id: ObjectId)
    requires id in all && id !in before && before + {id} <= now
    ensures |all - now| < |all - before|
  {
    StrictSubsetSize(all - now, all - before, id);
  }

  lemma StrictSubsetSize(a: set<ObjectId>, b: set<ObjectId>, x: ObjectId)
    requires a <= b && x in b && x !in a
    ensures |a| < |b|
  {
    var rest := b - {x} - a;
    assert b - {x} == a + rest;
  }

  lemma EnterNode(g: Graph, s: Search, id: ObjectId, stack: seq<ObjectId>)
    requires SearchOk(g, s, stack) && id in g && id !in s.mark
    requires stack != [] ==> Edge(g, stack[|stack| - 1], id)
    ensures SearchOk(g, Enter(s, id), stack + [id])
    ensures forall a | a in stack :: a in s.mark
    ensures |g.Keys - Enter(s, id).mark.Keys| < |g.Keys - s.mark.Keys|
  {
    SmallerRest(g.Keys, s.mark.Keys, Enter(s, id).mark.Keys, id);
    if stack != [] {
      JoinPaths(g, stack, [id]);
    }
  }

  lemma LeaveNode(g: Graph, s0: Search, s: Search, id: ObjectId, stack: seq<ObjectId>)
    requires SearchOk(g, s, stack + [id]) && id in g && id !in s0.mark
    requires forall a | a in stack :: a in s0.mark
    requires Extends(Enter(s0, id), s)
    requires !s.cycle ==> FirstFinished(s, g[id], |g[id]|)
    ensures SearchOk(g, Leave(s, id), stack)
    ensures Extends(s0, Leave(s, id)) && Finished(Leave(s, id), id)
  {
    var path := stack + [id];
    assert id in path;
    if stack != [] {
      assert IsPath(g, path);
      forall i | 0 <= i < |stack| - 1 ensures Edge(g, stack[i], stack[i + 1]) {
        assert Edge(g, path[i], path[i + 1]);
      }
    }
    if !s.cycle {
      forall d | d in g[id] ensures d in s.order {
        assert Finished(s, d);
      }
      AppendLast(g, s.order, id);
    }
  }

  lemma AppendLast(g: Graph, order: seq<ObjectId>, id: ObjectId)
    requires DependenciesFirst(g, order) && id in g && forall d | d in g[id] :: d in order
    ensures DependenciesFirst(g, order + [id])
  {
    var order' := order + [id];
    forall i, d | 0 <= i < |order'| && d in g[order'[i]] ensures Precedes(order', d, i) {
      if i < |order| {
        assert Precedes(order, d, i);
        assert order'[..i] == order[..i];
      } else {
        assert order'[..i] == order;
      }
    }
  }

  /** ComponentStartOrderLocked: a permutation of all components without repeats; the cycle flag is exact;
      without a cycle every dependency precedes its users. */
  method StartOrder(g: Graph, nodes: seq<ObjectId>) returns (order: seq<ObjectId>, hadCycle: bool)
    requires ClosedGraph(g) && forall a :: a in nodes <==> a in g
    ensures Distinct(order) && forall a :: a in order <==> a in nodes
    ensures hadCycle <==> Cyclic(g)
    ensures !Cyclic(g) ==> DependenciesFirst(g, order)
  {
    var s := Search(map[], [], false);
    var i := 0;
    while i < |nodes|
      invariant i <= |nodes| && SearchOk(g, s, [])
      invariant forall a | a in nodes[..i] :: a in s.mark
    {
      assert nodes[i] in nodes;
      if nodes[i] !in s.mark {
        s := Visit(g, nodes[i], s, []);
      }
      assert nodes[..i + 1] == nodes[..i] + [nodes[i]];
      i := i + 1;
    }
    assert nodes[..i] == nodes;
    assert forall a | a in s.mark :: a in s.order;
    if !s.cycle {
      OrderedMeansAcyclic(g, s.order);
    }
    return s.order, s.cycle;
  }

  // ---------- The check before adding an edge ----------

  method SearchFor(g: Graph, id: ObjectId, goal: ObjectId, mark0: set<ObjectId>)
    returns (found: bool, mark: set<ObjectId>)
    requires ClosedGraph(g) && id in g && id !in mark0 && goal !in mark0 && mark0 <= g.Keys
    ensures found ==> Reaches(g, id, goal)
    ensures !found ==> mark0 + {id} <= mark <= g.Keys && goal !in mark
    ensures !found ==> forall a, d | a in mark - mark0 && d in g[a] :: d in mark
    decreases |g.Keys - mark0|
  {
    mark := mark0;
    if id == goal {
      assert PathBetween(g, [id], id, goal);
      return true, mark;
    }
    mark := mark + {id};
    var ds := g[id];
    var i := 0;
    while i < |ds|
      invariant i <= |ds| && mark0 + {id} <= mark <= g.Keys && goal !in mark
      invariant forall a, d | a in mark - mark0 && a != id && d in g[a] :: d in mark
      invariant forall d | d in ds[..i] :: d in mark
    {
      var d := ds[i];
      assert Edge(g, id, d);
      if d !in mark {
        SmallerRest(g.Keys, mark0, mark, id);
        var f, m := SearchFor(g, d, goal, mark);
        if f {
          ghost var p :| PathBetween(g, p, d, goal);
          JoinPaths(g, [id], p);
          assert PathBetween(g, [id] + p, id, goal);
          return true, m;
        }
        mark := m;
      }
      assert ds[..i + 1] == ds[..i] + [d];
      i := i + 1;
    }
    assert ds[..i] == ds;
    return false, mark;
  }

  lemma {:induction false} ClosedSetKeepsPaths(g: Graph, inside: set<ObjectId>, p: seq<ObjectId>)
    requires IsPath(g, p) && p[0] in inside && inside <= g.Keys
    requires forall a, d | a in inside && d in g[a] :: d in inside
    ensures p[|p| - 1] in inside
    decreases |p|
  {
    if |p| >= 2 {
      assert Edge(g, p[0], p[1]);
      assert IsPath(g, p[1..]) by {
        forall m | 0 <= m < |p[1..]| - 1 ensures Edge(g, p[1..][m], p[1..][m + 1]) {
          assert Edge(g, p[m + 1], p[m + 2]);
        }
      }
      ClosedSetKeepsPaths(g, inside, p[1..]);
    }
  }

  /** _WouldFormCycleLocked is exact: true iff the target already leads back to the subject. */
  method WouldFormCycle(g: Graph, subject: ObjectId, target: ObjectId) returns (yes: bool)
    requires ClosedGraph(g) && target in g
    ensures yes <==> subject == target || Reaches(g, target, subject)
  {
    if subject == target {
      return true;
    }
    var found, mark := SearchFor(g, target, subject, {});
    if !found {
      forall p | PathBetween(g, p, target, subject) ensures false {
        ClosedSetKeepsPaths(g, mark, p);
      }
    }
    return found;
  }

  // ---------- What adding and removing edges does ----------

  ghost predicate SubGraph(g: Graph, g': Graph) {
    forall a, b | Edge(g, a, b) :: Edge(g', a, b)
  }

  lemma FewerEdgesStayAcyclic(g: Graph, g': Graph)
    requires SubGraph(g', g) && !Cyclic(g)
    ensures !Cyclic(g')
  {
    forall p | IsPath(g', p) && |p| >= 2 ensures p[0] != p[|p| - 1] {
      assert IsPath(g, p);
    }
  }

  /** g' is g with at most the edge a -> b added. */
  ghost predicate OneMoreEdge(g: Graph, g': Graph, a: ObjectId, b: ObjectId) {
    forall x, y :: Edge(g', x, y) <==> Edge(g, x, y) || (x == a && y == b)
  }

  /** The part of a path up to the first use of the new edge, or the whole path if it is not used. */
  lemma {:induction false} UpToNewEdge(g: Graph, g': Graph, a: ObjectId, b: ObjectId, p: seq<ObjectId>)
    requires OneMoreEdge(g, g', a, b) && IsPath(g', p)
    ensures IsPath(g, p) || Reaches(g, p[0], a)
    decreases |p|
  {
    if |p| == 1 {
      assert IsPath(g, p);
      return;
    }
    assert Edge(g', p[0], p[1]);
    if p[0] == a {
      assert PathBetween(g, [a], p[0], a);
      return;
    }
    assert forall m | 0 <= m < |p[1..]| - 1 :: Edge(g', p[1..][m], p[1..][m + 1]) by {
      forall m | 0 <= m < |p[1..]| - 1 ensures Edge(g', p[1..][m], p[1..][m + 1]) {
        assert Edge(g', p[m + 1], p[m + 2]);
      }
    }
    UpToNewEdge(g, g', a, b, p[1..]);
    if IsPath(g, p[1..]) {
      JoinPaths(g, [p[0]], p[1..]);
      assert [p[0]] + p[1..] == p;
    } else {
      var q :| PathBetween(g, q, p[1], a);
      JoinPaths(g, [p[0]], q);
      assert PathBetween(g, [p[0]] + q, p[0], a);
    }
  }

  /** The part of a path after the last use of the new edge, or the whole path if it is not used. */
  lemma {:induction false} FromNewEdge(g: Graph, g': Graph, a: ObjectId, b: ObjectId, p: seq<ObjectId>)
    requires OneMoreEdge(g, g', a, b) && IsPath(g', p)
    ensures IsPath(g, p) || Reaches(g, b, p[|p| - 1])
    decreases |p|
  {
    if |p| == 1 {
      assert IsPath(g, p);
      return;
    }
    assert Edge(g', p[0], p[1]);
    assert forall m | 0 <= m < |p[1..]| - 1 :: Edge(g', p[1..][m], p[1..][m + 1]) by {
      forall m | 0 <= m < |p[1..]| - 1 ensures Edge(g', p[1..][m], p[1..][m + 1]) {
        assert Edge(g', p[m + 1], p[m + 2]);
      }
    }
    FromNewEdge(g, g', a, b, p[1..]);
    if IsPath(g, p[1..]) {
      if Edge(g, p[0], p[1]) {
        JoinPaths(g, [p[0]], p[1..]);
        assert [p[0]] + p[1..] == p;
      } else {
        assert PathBetween(g, p[1..], b, p[|p| - 1]);
      }
    }
  }

  /** Adding a -> b to an acyclic graph closes a cycle exactly when the check would have said so. */
  lemma NewEdgeClosesCycleIff(g: Graph, g': Graph, a: ObjectId, b: ObjectId)
    requires OneMoreEdge(g, g', a, b) && !Cyclic(g)
    ensures Cyclic(g') <==> a == b || Reaches(g, b, a)
  {
    if Cyclic(g') {
      var p :| IsPath(g', p) && |p| >= 2 && p[0] == p[|p| - 1];
      assert !IsPath(g, p);
      UpToNewEdge(g, g', a, b, p);
      FromNewEdge(g, g', a, b, p);
      var q :| PathBetween(g, q, b, p[0]);
      var r :| PathBetween(g, r, p[0], a);
      assert PathBetween(g, q + r[1..], b, a) by {
        if |r| >= 2 {
          assert Edge(g, r[0], r[1]);
          assert IsPath(g, r[1..]) by {
            forall m | 0 <= m < |r[1..]| - 1 ensures Edge(g, r[1..][m], r[1..][m + 1]) {
              assert Edge(g, r[m + 1], r[m + 2]);
            }
          }
          JoinPaths(g, q, r[1..]);
        }
      }
    }
    if a == b {
      assert Edge(g', a, b);
      assert IsPath(g', [a, a]);
    } else if Reaches(g, b, a) {
      var q :| PathBetween(g, q, b, a);
      assert IsPath(g', q);
      assert Edge(g', a, b);
      JoinPaths(g', [a], q);
      var c := [a] + q;
      assert IsPath(g', c) && |c| >= 2 && c[0] == c[|c| - 1];
    }
  }
}
