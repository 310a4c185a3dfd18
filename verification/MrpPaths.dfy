/** What an explosion computes, path by path. */
module MrpPaths {
  import opened Mrp

  /** A path names a node by the child taken at each level. */
  type Path = seq<nat>

  ghost predicate IsPath(root: BomNode, path: Path)
    decreases |path|
  {
    path == [] || (path[0] < |root.children| && IsPath(root.children[path[0]], path[1..]))
  }

  ghost function NodeAt(root: BomNode, path: Path): BomNode
    requires IsPath(root, path)
    decreases |path|
  {
    if path == [] then root else NodeAt(root.children[path[0]], path[1..])
  }

  /** Units of the node's part per unit of demand: the quantities multiplied down the path. */
  ghost function Quantity(root: BomNode, path: Path): nat
    requires IsPath(root, path)
    decreases |path|
  {
    if path == [] then root.qtyPer else root.qtyPer * Quantity(root.children[path[0]], path[1..])
  }

  ghost function LeadAlong(root: BomNode, path: Path): nat
    requires IsPath(root, path)
    decreases |path|
  {
    root.leadTimeDays + if path == [] then 0 else LeadAlong(root.children[path[0]], path[1..])
  }

  // ----- All paths -----

  ghost function Paths(root: BomNode): seq<Path>
    decreases root, |root.children| + 1
  {
    [[]] + ChildPaths(root, |root.children|)
  }

  ghost function ChildPaths(root: BomNode, n: nat): seq<Path>
    requires n <= |root.children|
    decreases root, n
  {
    if n == 0 then [] else ChildPaths(root, n - 1) + Under(n - 1, Paths(root.children[n - 1]))
  }

  /** The paths below one child. */
  ghost function Under(child: nat, paths: seq<Path>): (r: seq<Path>)
    ensures |r| == |paths| && forall k :: 0 <= k < |r| ==> r[k] == [child] + paths[k]
  {
    seq(|paths|, k requires 0 <= k < |paths| => [child] + paths[k])
  }

  /** The list holds every path of the bill, once. */
  lemma {:induction false} PathsListed(root: BomNode)
    ensures forall path :: path in Paths(root) <==> IsPath(root, path)
    ensures forall i, j :: 0 <= i < j < |Paths(root)| ==> Paths(root)[i] != Paths(root)[j]
    decreases root, |root.children| + 1
  {
    ChildPathsListed(root, |root.children|);
    var below := ChildPaths(root, |root.children|);
    forall path ensures path in Paths(root) <==> IsPath(root, path) {
      assert path in Paths(root) <==> path == [] || path in below;
    }
    forall i, j | 0 <= i < j < |Paths(root)| ensures Paths(root)[i] != Paths(root)[j] {
      assert Paths(root)[j] == below[j - 1] && below[j - 1] in below;
    }
  }

  lemma {:induction false} ChildPathsListed(root: BomNode, n: nat)
    requires n <= |root.children|
    ensures forall path :: path in ChildPaths(root, n) <==> path != [] && path[0] < n && IsPath(root, path)
    ensures forall i, j :: 0 <= i < j < |ChildPaths(root, n)| ==> ChildPaths(root, n)[i] != ChildPaths(root, n)[j]
    decreases root, n
  {
    if n > 0 {
      ChildPathsListed(root, n - 1);
      PathsListed(root.children[n - 1]);
      var front, paths := ChildPaths(root, n - 1), Paths(root.children[n - 1]);
      var last := Under(n - 1, paths);
      forall path ensures path in last <==> path != [] && path[0] == n - 1 && IsPath(root, path) {
        if path in last {
          var k :| 0 <= k < |last| && last[k] == path;
          assert path[1..] == paths[k] && paths[k] in paths;
        }
        if path != [] && path[0] == n - 1 && IsPath(root, path) {
          assert path[1..] in paths;
          var k :| 0 <= k < |paths| && paths[k] == path[1..];
          assert last[k] == path;
        }
      }
      var all := front + last;
      assert all == ChildPaths(root, n);
      forall i, j | 0 <= i < j < |all| ensures all[i] != all[j] {
        if i < |front| {
          assert front[i] in front;
          if j >= |front| { assert last[j - |front|] in last; }
        } else {
          assert paths[i - |front|] != paths[j - |front|];
          assert last[i - |front|][1..] == paths[i - |front|] && last[j - |front|][1..] == paths[j - |front|];
        }
      }
    }
  }

  // ----- Updates follow paths -----

  /** The k-th update is for the node at the k-th path, times the demand. */
  ghost predicate Follows(root: BomNode, paths: seq<Path>, adds: seq<Addition>, demand: nat) {
    && |adds| == |paths|
    && forall k :: 0 <= k < |paths| ==> Entry(root, paths[k], adds[k], demand)
  }

  ghost predicate Entry(root: BomNode, path: Path, a: Addition, demand: nat) {
    IsPath(root, path) && a == Addition(NodeAt(root, path).part, demand * Quantity(root, path))
  }

  lemma {:induction false} Regroup(a: nat, b: nat, c: nat)
    ensures a * b * c == b * (a * c)
  {
    assert a * b == b * a;
  }

  lemma {:induction false} AdditionsFollow(root: BomNode, demand: nat)
    ensures Follows(root, Paths(root), Additions(root, demand), demand)
    decreases root, |root.children| + 1
  {
    ChildAdditionsFollow(root, |root.children|, demand);
    assert root.qtyPer * demand == demand * root.qtyPer;
  }

  lemma {:induction false} ChildAdditionsFollow(root: BomNode, n: nat, demand: nat)
    requires n <= |root.children|
    ensures Follows(root, ChildPaths(root, n), ChildAdditions(root, n, root.qtyPer * demand), demand)
    decreases root, n
  {
    if n > 0 {
      var gross := root.qtyPer * demand;
      var child := root.children[n - 1];
      ChildAdditionsFollow(root, n - 1, demand);
      AdditionsFollow(child, gross);
      var paths, adds := Paths(child), Additions(child, gross);
      var last := Under(n - 1, paths);
      forall k | 0 <= k < |last| ensures Entry(root, last[k], adds[k], demand) {
        assert Entry(child, paths[k], adds[k], gross);
        assert last[k][0] == n - 1 && last[k][1..] == paths[k];
        Regroup(root.qtyPer, demand, Quantity(child, paths[k]));
      }
    }
  }

  // ----- Totals per part -----

  function GrossOf(adds: seq<Addition>, p: Part): nat {
    if adds == [] then 0
    else GrossOf(adds[..|adds| - 1], p) + if adds[|adds| - 1].part == p then adds[|adds| - 1].gross else 0
  }

  ghost predicate Mentions(adds: seq<Addition>, p: Part) { exists k :: 0 <= k < |adds| && adds[k].part == p }

  lemma {:induction false} MentionsSnoc(adds: seq<Addition>, p: Part)
    requires adds != []
    ensures Mentions(adds, p) <==> Mentions(adds[..|adds| - 1], p) || adds[|adds| - 1].part == p
  {
    var n := |adds| - 1;
    if Mentions(adds[..n], p) {
      var k :| 0 <= k < n && adds[..n][k].part == p;
      assert adds[k].part == p;
    }
    if Mentions(adds, p) {
      var k :| 0 <= k < |adds| && adds[k].part == p;
      if k < n { assert adds[..n][k].part == p; }
    }
  }

  /** The shared map holds each part's total, and only the parts updated. */
  lemma {:induction false} MapHoldsTotals(adds: seq<Addition>, p: Part)
    ensures p in AddAll(map[], adds) <==> Mentions(adds, p)
    ensures p in AddAll(map[], adds) ==> AddAll(map[], adds)[p] == GrossOf(adds, p)
    ensures p !in AddAll(map[], adds) ==> GrossOf(adds, p) == 0
  {
    if adds != [] {
      MapHoldsTotals(adds[..|adds| - 1], p);
      MentionsSnoc(adds, p);
    }
  }

  lemma {:induction false} GrossAppend(a: seq<Addition>, b: seq<Addition>, p: Part)
    ensures GrossOf(a + b, p) == GrossOf(a, p) + GrossOf(b, p)
  {
    if b == [] {
      assert a + b == a;
    } else {
      assert (a + b)[..|a + b| - 1] == a + b[..|b| - 1];
      GrossAppend(a, b[..|b| - 1], p);
    }
  }

  lemma {:induction false} GrossWithout(adds: seq<Addition>, i: nat, p: Part)
    requires i < |adds|
    ensures GrossOf(adds, p) == GrossOf(adds[..i] + adds[i + 1..], p) + if adds[i].part == p then adds[i].gross else 0
  {
    var head, one, tail := adds[..i], [adds[i]], adds[i + 1..];
    assert adds == (head + one) + tail;
    GrossAppend(head + one, tail, p);
    GrossAppend(head, one, p);
    GrossAppend(head, tail, p);
    assert one[..0] == [];
  }

  lemma {:induction false} WithoutOne(s: seq<Addition>, i: nat)
    requires i < |s|
    ensures multiset(s[..i] + s[i + 1..]) == multiset(s) - multiset{s[i]}
  {
    assert s == s[..i] + [s[i]] + s[i + 1..];
  }

  lemma {:induction false} GrossPermuted(a: seq<Addition>, b: seq<Addition>, p: Part)
    requires multiset(a) == multiset(b)
    ensures GrossOf(a, p) == GrossOf(b, p)
    decreases |a|
  {
    if a == [] {
      assert |multiset(b)| == 0;
    } else {
      var n := |a| - 1;
      assert a[n] in multiset(b);
      var i :| 0 <= i < |b| && b[i] == a[n];
      WithoutOne(b, i);
      WithoutOne(a, n);
      assert a[..n] + a[n + 1..] == a[..n];
      GrossWithout(b, i, p);
      GrossPermuted(a[..n], b[..i] + b[i + 1..], p);
    }
  }

  /** Subtrees exploded in parallel may update the map in any order: the result is the same. */
  lemma {:induction false} OrderIrrelevant(root: BomNode, demand: nat, any: seq<Addition>)
    requires multiset(any) == multiset(Additions(root, demand))
    ensures AddAll(map[], any) == AddAll(map[], Additions(root, demand))
  {
    var adds := Additions(root, demand);
    forall p: Part ensures Mentions(any, p) == Mentions(adds, p) {
      SamePartsMentioned(any, adds, p);
      SamePartsMentioned(adds, any, p);
    }
    forall p: Part
      ensures p in AddAll(map[], any) <==> p in AddAll(map[], adds)
      ensures p in AddAll(map[], any) ==> AddAll(map[], any)[p] == AddAll(map[], adds)[p]
    {
      MapHoldsTotals(any, p);
      MapHoldsTotals(adds, p);
      GrossPermuted(any, adds, p);
    }
  }

  lemma {:induction false} SamePartsMentioned(a: seq<Addition>, b: seq<Addition>, p: Part)
    requires multiset(a) == multiset(b)
    ensures Mentions(a, p) ==> Mentions(b, p)
  {
    if Mentions(a, p) {
      var k :| 0 <= k < |a| && a[k].part == p;
      assert a[k] in multiset(b);
      var j :| 0 <= j < |b| && b[j] == a[k];
    }
  }

  // ----- The main results -----

  /** The quantities of every listed path that ends at the part. */
  ghost function PathSum(root: BomNode, paths: seq<Path>, p: Part): nat
    requires forall path :: path in paths ==> IsPath(root, path)
  {
    if paths == [] then 0
    else
      var last := paths[|paths| - 1];
      PathSum(root, paths[..|paths| - 1], p) + if NodeAt(root, last).part == p then Quantity(root, last) else 0
  }

  ghost function UnitsPerDemand(root: BomNode, p: Part): nat {
    PathsListed(root);
    PathSum(root, Paths(root), p)
  }

  lemma {:induction false} GrossIsPathSum(root: BomNode, paths: seq<Path>, adds: seq<Addition>, demand: nat, p: Part)
    requires Follows(root, paths, adds, demand)
    requires forall path :: path in paths ==> IsPath(root, path)
    ensures GrossOf(adds, p) == demand * PathSum(root, paths, p)
  {
    if paths != [] {
      var n := |paths| - 1;
      assert Entry(root, paths[n], adds[n], demand);
      GrossIsPathSum(root, paths[..n], adds[..n], demand, p);
      Distributes(demand, PathSum(root, paths[..n], p), Quantity(root, paths[n]));
    }
  }

  lemma {:induction false} Distributes(a: nat, b: nat, c: nat)
    ensures a * (b + c) == a * b + a * c
  {
  }

  lemma {:induction false} DistributesLeft(a: nat, b: nat, c: nat)
    ensures (a + b) * c == a * c + b * c
  {
  }

  ghost predicate Occurs(root: BomNode, p: Part) { exists path :: IsPath(root, path) && NodeAt(root, path).part == p }

  /** Gross demand of a part: the demand times the quantities down every path that ends at it. */
  lemma {:induction false} ExplosionIsPathSum(root: BomNode, demand: nat, p: Part)
    ensures var gross := AddAll(map[], Additions(root, demand));
      && (p in gross <==> Occurs(root, p))
      && (p in gross ==> gross[p] == demand * UnitsPerDemand(root, p))
  {
    var adds := Additions(root, demand);
    PathsListed(root);
    AdditionsFollow(root, demand);
    MapHoldsTotals(adds, p);
    GrossIsPathSum(root, Paths(root), adds, demand, p);
    if Mentions(adds, p) {
      var k :| 0 <= k < |adds| && adds[k].part == p;
      assert Entry(root, Paths(root)[k], adds[k], demand);
    }
    if Occurs(root, p) {
      var path :| IsPath(root, path) && NodeAt(root, path).part == p;
      assert path in Paths(root);
      var k :| 0 <= k < |Paths(root)| && Paths(root)[k] == path;
      assert Entry(root, Paths(root)[k], adds[k], demand);
    }
  }

  /** Two orders exploded together need what they need apart. */
  lemma {:induction false} AdditiveInDemand(root: BomNode, a: nat, b: nat, p: Part)
    requires Occurs(root, p)
    ensures var both, first, second :=
        AddAll(map[], Additions(root, a + b)), AddAll(map[], Additions(root, a)), AddAll(map[], Additions(root, b));
      p in both && p in first && p in second && both[p] == first[p] + second[p]
  {
    ExplosionIsPathSum(root, a + b, p);
    ExplosionIsPathSum(root, a, p);
    ExplosionIsPathSum(root, b, p);
    DistributesLeft(a, b, UnitsPerDemand(root, p));
  }

  /** The plan lists the parts of the bill, and a part is short exactly when gross demand exceeds its stock. */
  lemma {:induction false} PlanMeaning(root: BomNode, demand: nat, p: Part)
    ensures var plan := PlanFor(AddAll(map[], Additions(root, demand)), root);
      && (p in plan.requirements <==> Occurs(root, p))
      && (Occurs(root, p) ==>
            var r := plan.requirements[p];
            && r.gross == demand * UnitsPerDemand(root, p)
            && r.net == (if r.gross > r.onHand then r.gross - r.onHand else 0)
            && (r.shortage <==> r.gross > r.onHand))
  {
    ExplosionIsPathSum(root, demand, p);
  }

  lemma {:induction false} LastNodeSuppliesInfo(nodes: seq<BomNode>, i: nat)
    requires i < |nodes| && forall j :: i < j < |nodes| ==> nodes[j].part != nodes[i].part
    ensures var info := InfoOf(nodes);
      nodes[i].part in info && info[nodes[i].part] == PartInfo(nodes[i].onHand, nodes[i].leadTimeDays)
  {
    var n := |nodes| - 1;
    if i < n {
      assert nodes[n].part != nodes[i].part;
      assert forall j :: i < j < n ==> nodes[..n][j] == nodes[j];
      LastNodeSuppliesInfo(nodes[..n], i);
    }
  }

  ghost predicate NodesAt(root: BomNode, paths: seq<Path>, nodes: seq<BomNode>) {
    && |nodes| == |paths|
    && forall k :: 0 <= k < |paths| ==> IsPath(root, paths[k]) && NodeAt(root, paths[k]) == nodes[k]
  }

  lemma {:induction false} PreorderFollows(root: BomNode)
    ensures NodesAt(root, Paths(root), Preorder(root))
    decreases root, |root.children| + 1
  {
    ChildrenFollow(root, |root.children|);
  }

  lemma {:induction false} ChildrenFollow(root: BomNode, n: nat)
    requires n <= |root.children|
    ensures NodesAt(root, ChildPaths(root, n), ChildrenPreorder(root, n))
    decreases root, n
  {
    if n > 0 {
      ChildrenFollow(root, n - 1);
      PreorderFollows(root.children[n - 1]);
      var paths := Paths(root.children[n - 1]);
      var last := Under(n - 1, paths);
      forall k | 0 <= k < |last| ensures IsPath(root, last[k])
          && NodeAt(root, last[k]) == Preorder(root.children[n - 1])[k] {
        assert last[k][0] == n - 1 && last[k][1..] == paths[k];
      }
    }
  }

  /** When several nodes carry a part, the plan uses the stock and lead time of the one on the last path. */
  lemma {:induction false} PlanUsesLastNode(root: BomNode, demand: nat, p: Part) returns (k: nat)
    requires Occurs(root, p)
    ensures k < |Paths(root)| && IsPath(root, Paths(root)[k]) && NodeAt(root, Paths(root)[k]).part == p
    ensures forall j :: k < j < |Paths(root)| ==> IsPath(root, Paths(root)[j]) && NodeAt(root, Paths(root)[j]).part != p
    ensures var plan := PlanFor(AddAll(map[], Additions(root, demand)), root);
      var node := NodeAt(root, Paths(root)[k]);
      && p in plan.requirements
      && plan.requirements[p].onHand == node.onHand
      && plan.requirements[p].leadTimeDays == node.leadTimeDays
  {
    var nodes := Preorder(root);
    PathsListed(root);
    PreorderFollows(root);
    var path :| IsPath(root, path) && NodeAt(root, path).part == p;
    assert path in Paths(root);
    var i :| 0 <= i < |Paths(root)| && Paths(root)[i] == path;
    assert nodes[i].part == p;
    k := LastCarrying(nodes, p, i);
    LastNodeSuppliesInfo(nodes, k);
    ExplosionIsPathSum(root, demand, p);
  }

  lemma {:induction false} LastCarrying(nodes: seq<BomNode>, p: Part, i: nat) returns (k: nat)
    requires i < |nodes| && nodes[i].part == p
    ensures k < |nodes| && nodes[k].part == p && forall j :: k < j < |nodes| ==> nodes[j].part != p
    decreases |nodes| - i
  {
    if exists j :: i < j < |nodes| && nodes[j].part == p {
      var j :| i < j < |nodes| && nodes[j].part == p;
      k := LastCarrying(nodes, p, j);
    } else {
      k := i;
    }
  }

  // ----- The critical path -----

  ghost predicate IsLeafPath(root: BomNode, path: Path) { IsPath(root, path) && NodeAt(root, path).children == [] }

  lemma {:induction false} ChildNotLonger(root: BomNode, n: nat, i: nat)
    requires i < n <= |root.children|
    ensures CriticalPath(root.children[i]) <= LongestChild(root, n)
  {
    if i < n - 1 { ChildNotLonger(root, n - 1, i); }
  }

  lemma {:induction false} LongestIsAChild(root: BomNode, n: nat) returns (i: nat)
    requires 0 < n <= |root.children|
    ensures i < n && CriticalPath(root.children[i]) == LongestChild(root, n)
  {
    i := n - 1;
    assert LongestChild(root, 0) == 0;
    if CriticalPath(root.children[n - 1]) != LongestChild(root, n) { i := LongestIsAChild(root, n - 1); }
  }

  /** No path takes longer, whether or not it reaches a leaf. */
  lemma {:induction false} NoPathLonger(root: BomNode, path: Path)
    requires IsPath(root, path)
    ensures LeadAlong(root, path) <= CriticalPath(root)
    decreases |path|
  {
    if path != [] {
      NoPathLonger(root.children[path[0]], path[1..]);
      ChildNotLonger(root, |root.children|, path[0]);
    }
  }

  /** Some path from the root to a leaf takes exactly that long. */
  lemma {:induction false} CriticalPathAttained(root: BomNode) returns (path: Path)
    ensures IsLeafPath(root, path) && LeadAlong(root, path) == CriticalPath(root)
    decreases root
  {
    if root.children == [] {
      path := [];
    } else {
      var i := LongestIsAChild(root, |root.children|);
      var rest := CriticalPathAttained(root.children[i]);
      path := [i] + rest;
      assert path[1..] == rest;
    }
  }

  /** The plan's critical path is what the longest path takes: some path to a leaf takes it, and none takes longer. */
  lemma {:induction false} PlanTakesLongest(root: BomNode, demand: nat) returns (path: Path)
    ensures var plan := PlanFor(AddAll(map[], Additions(root, demand)), root);
      && IsLeafPath(root, path) && LeadAlong(root, path) == plan.criticalPathDays
      && forall other :: IsPath(root, other) ==> LeadAlong(root, other) <= plan.criticalPathDays
  {
    path := CriticalPathAttained(root);
    forall other | IsPath(root, other) ensures LeadAlong(root, other) <= CriticalPath(root) {
      NoPathLonger(root, other);
    }
  }
}
