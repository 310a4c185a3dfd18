/** Material requirements: exploding a bill of materials. */
module Mrp {
  type Part = nat

  datatype BomNode = BomNode(part: Part, qtyPer: nat, leadTimeDays: nat, onHand: nat, children: seq<BomNode>)

  datatype PartRequirement = PartRequirement(gross: nat, onHand: nat, net: nat, shortage: bool, leadTimeDays: nat)

  datatype MrpPlan = MrpPlan(requirements: map<Part, PartRequirement>, criticalPathDays: nat)

  datatype PartInfo = PartInfo(onHand: nat, leadTimeDays: nat)

  // ----- Gross requirements -----

  /** One locked update of the shared map. */
  datatype Addition = Addition(part: Part, gross: nat)

  function Added(m: map<Part, nat>, a: Addition): map<Part, nat> {
    m[a.part := (if a.part in m then m[a.part] else 0) + a.gross]
  }

  function AddAll(m: map<Part, nat>, adds: seq<Addition>): map<Part, nat> {
    if adds == [] then m else Added(AddAll(m, adds[..|adds| - 1]), adds[|adds| - 1])
  }

  /** The updates an explosion makes, parent before children. */
  function Additions(node: BomNode, multiplier: nat): seq<Addition>
    decreases node, |node.children| + 1
  {
    [Addition(node.part, node.qtyPer * multiplier)] + ChildAdditions(node, |node.children|, node.qtyPer * multiplier)
  }

  function ChildAdditions(node: BomNode, n: nat, gross: nat): seq<Addition>
    requires n <= |node.children|
    decreases node, n
  {
    if n == 0 then [] else ChildAdditions(node, n - 1, gross) + Additions(node.children[n - 1], gross)
  }

  lemma {:induction false} AddAllAppend(m: map<Part, nat>, a: seq<Addition>, b: seq<Addition>)
    ensures AddAll(m, a + b) == AddAll(AddAll(m, a), b)
  {
    if b == [] {
      assert a + b == a;
    } else {
      AddAllAppend(m, a, b[..|b| - 1]);
      assert (a + b)[..|a + b| - 1] == a + b[..|b| - 1];
    }
  }

  /** The map that the nodes of a bill share while it is exploded. */
  class Accumulator {
    var gross: map<Part, nat>

    constructor ()
      ensures gross == map[]
    {
      gross := map[];
    }

    method ExplodeNode(node: BomNode, multiplier: nat)
      modifies this
      ensures gross == AddAll(old(gross), Additions(node, multiplier))
      decreases node
    {
      var need := node.qtyPer * multiplier;
      gross := gross[node.part := (if node.part in gross then gross[node.part] else 0) + need];
      ghost var own := [Addition(node.part, need)];
      assert own[..0] == [];
      for i := 0 to |node.children|
        invariant gross == AddAll(old(gross), own + ChildAdditions(node, i, need))
      {
        AddAllAppend(old(gross), own + ChildAdditions(node, i, need), Additions(node.children[i], need));
        assert own + ChildAdditions(node, i + 1, need)
            == own + ChildAdditions(node, i, need) + Additions(node.children[i], need);
        ExplodeNode(node.children[i], need);
      }
    }
  }

  // ----- Part data -----

  /** The nodes of a bill, parent before children. */
  function Preorder(node: BomNode): seq<BomNode>
    decreases node, |node.children| + 1
  {
    [node] + ChildrenPreorder(node, |node.children|)
  }

  function ChildrenPreorder(node: BomNode, n: nat): seq<BomNode>
    requires n <= |node.children|
    decreases node, n
  {
    if n == 0 then [] else ChildrenPreorder(node, n - 1) + Preorder(node.children[n - 1])
  }

  /** The data of the last node that carries each part. */
  function InfoOf(nodes: seq<BomNode>): map<Part, PartInfo> {
    if nodes == [] then map[]
    else
      var last := nodes[|nodes| - 1];
      InfoOf(nodes[..|nodes| - 1])[last.part := PartInfo(last.onHand, last.leadTimeDays)]
  }

  lemma {:induction false} InfoAppend(a: seq<BomNode>, b: seq<BomNode>)
    ensures InfoOf(a + b) == InfoOf(a) + InfoOf(b)
  {
    if b == [] {
      assert a + b == a;
    } else {
      InfoAppend(a, b[..|b| - 1]);
      assert (a + b)[..|a + b| - 1] == a + b[..|b| - 1];
    }
  }

  method CollectInfo(node: BomNode) returns (info: map<Part, PartInfo>)
    ensures info == InfoOf(Preorder(node))
    decreases node
  {
    info := map[node.part := PartInfo(node.onHand, node.leadTimeDays)];
    assert [node][..0] == [];
    for i := 0 to |node.children|
      invariant info == InfoOf([node] + ChildrenPreorder(node, i))
    {
      var more := CollectInfo(node.children[i]);
      InfoAppend([node] + ChildrenPreorder(node, i), Preorder(node.children[i]));
      assert [node] + ChildrenPreorder(node, i + 1) == [node] + ChildrenPreorder(node, i) + Preorder(node.children[i]);
      info := info + more;
    }
  }

  // ----- The critical path -----

  function CriticalPath(node: BomNode): nat
    decreases node, |node.children| + 1
  {
    node.leadTimeDays + LongestChild(node, |node.children|)
  }

  function LongestChild(node: BomNode, n: nat): nat
    requires n <= |node.children|
    decreases node, n
  {
    if n == 0 then 0
    else
      var c := CriticalPath(node.children[n - 1]);
      if c > LongestChild(node, n - 1) then c else LongestChild(node, n - 1)
  }

  // ----- The plan -----

  function SaturatingSub(a: nat, b: nat): nat { if a <= b then 0 else a - b }

  function Requirement(gross: nat, info: map<Part, PartInfo>, p: Part): PartRequirement {
    var i := if p in info then info[p] else PartInfo(0, 0);
    var net := SaturatingSub(gross, i.onHand);
    PartRequirement(gross, i.onHand, net, net > 0, i.leadTimeDays)
  }

  function PlanFor(gross: map<Part, nat>, root: BomNode): MrpPlan {
    MrpPlan(map p | p in gross :: Requirement(gross[p], InfoOf(Preorder(root)), p), CriticalPath(root))
  }

  method Explode(root: BomNode, demand: nat) returns (plan: MrpPlan)
    ensures plan == PlanFor(AddAll(map[], Additions(root, demand)), root)
  {
    var acc := new Accumulator();
    acc.ExplodeNode(root, demand);
    var gross := acc.gross;
    var info := CollectInfo(root);
    var requirements := map p | p in gross :: Requirement(gross[p], info, p);
    plan := MrpPlan(requirements, CriticalPath(root));
  }
}
