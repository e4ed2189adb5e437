/** Which nodes a disk and its children live on (lib/objects.py). */
module DiskTrees {

  type Node = string

  datatype DevType =
    | Plain | File | Block | Rbd | Ext | SharedFile | Gluster
    | Drbd8(nodeA: Node, nodeB: Node)
    | Other(name: string)

  datatype Disk = Disk(devType: DevType, children: seq<Disk>)

  datatype Result<+T> = Ok(value: T) | ConfigurationError | ProgrammerError

  datatype Entry = Entry(node: Node, disk: Disk)

  // ----- what the nodes are -----

  /** The nodes that a device names itself. */
  function Own(d: Disk): (r: set<Node>) {
    if d.devType.Drbd8? then {d.devType.nodeA, d.devType.nodeB} else {}
  }

  /** The nodes named anywhere in the tree. */
  function AllNodes(d: Disk): (r: set<Node>)
    decreases d, |d.children| + 1
  {
    Own(d) + Under(d, |d.children|)
  }

  /** The nodes named in the trees of the first k children. */
  function Under(d: Disk, k: nat): (r: set<Node>)
    requires k <= |d.children|
    decreases d, k
  {
    if k == 0 then {} else Under(d, k - 1) + AllNodes(d.children[k - 1])
  }

  /** The nodes from which a device's children are reached. */
  function Reach(d: Disk, nodes: set<Node>): (r: set<Node>) {
    if d.devType.Drbd8? then Own(d) else nodes
  }

  /**
   * The tree can be assembled when its parent lives on the given nodes: every type is known, and
   * every DRBD device is one of the two nodes of each place that it is reached from.
   */
  predicate Fits(d: Disk, nodes: set<Node>)
    decreases d
  {
    && !d.devType.Other?
    && (d.devType.Drbd8? ==> nodes <= Own(d))
    && forall i | 0 <= i < |d.children| :: Fits(d.children[i], Reach(d, nodes))
  }

  predicate Within(e: Disk, d: Disk)
    decreases d
  {
    e == d || exists i | 0 <= i < |d.children| :: Within(e, d.children[i])
  }

  /** Some device of the tree is of an unknown type. */
  predicate Unknown(d: Disk)
    decreases d
  {
    d.devType.Other? || exists i | 0 <= i < |d.children| :: Unknown(d.children[i])
  }

  /** Some device of the tree is a DRBD device. */
  predicate Mirrored(d: Disk)
    decreases d
  {
    d.devType.Drbd8? || exists i | 0 <= i < |d.children| :: Mirrored(d.children[i])
  }

  lemma {:induction false} FitsUnion(d: Disk, a: set<Node>, b: set<Node>)
    ensures a != {} && b != {} ==> (Fits(d, a + b) <==> Fits(d, a) && Fits(d, b))
    decreases d
  {
    forall i | 0 <= i < |d.children|
      ensures a != {} && b != {} ==>
                (Fits(d.children[i], a + b) <==> Fits(d.children[i], a) && Fits(d.children[i], b))
    {
      FitsUnion(d.children[i], a, b);
    }
    if a != {} && b != {} {
      if d.devType.Drbd8? {
        assert Reach(d, a + b) == Reach(d, a) == Reach(d, b);
      } else {
        assert Reach(d, a + b) == a + b && Reach(d, a) == a && Reach(d, b) == b;
      }
    }
  }

  // ----- _ComputeAllNodes -----

  function Elements(s: seq<Node>): (r: set<Node>)
    ensures forall x :: x in r <==> x in s
  {
    set x | x in s
  }

  method CollectNodes(nodes: seq<Node>, device: Disk) returns (r: seq<Node>)
    ensures Elements(r) == Elements(nodes) + AllNodes(device)
    decreases device
  {
    r := nodes;
    if device.devType.Drbd8? {
      r := r + [device.devType.nodeA, device.devType.nodeB];
    }
    var k := 0;
    while k < |device.children|
      invariant 0 <= k <= |device.children|
      invariant Elements(r) == Elements(nodes) + Own(device) + Under(device, k)
    {
      r := CollectNodes(r, device.children[k]);
      k := k + 1;
    }
  }

  method ComputeAllNodes(d: Disk) returns (r: set<Node>)
    ensures r == AllNodes(d)
  {
    var nodes := CollectNodes([], d);
    r := Elements(nodes);
  }

  // ----- GetNodes and ComputeNodeTree -----

  function GetNodes(d: Disk, node: Node): (r: Result<seq<Node>>)
    ensures r.Ok? <==> !d.devType.Other? && (d.devType.Drbd8? ==> node in Own(d))
    ensures r.Ok? ==> r.value != [] && Elements(r.value) == Reach(d, {node})
    ensures r.Ok? ==> |r.value| == (if d.devType.Drbd8? then 2 else 1)
    ensures r.Ok? && d.devType.Drbd8? ==> r.value[0] == d.devType.nodeA && r.value[1] == d.devType.nodeB
    ensures r.ProgrammerError? <==> d.devType.Other?
  {
    match d.devType
    case Drbd8(a, b) => if node !in [a, b] then ConfigurationError else Ok([a, b])
    case Other(_) => ProgrammerError
    case Plain => Ok([node])
    case File => Ok([node])
    case Block => Ok([node])
    case Rbd => Ok([node])
    case Ext => Ok([node])
    case SharedFile => Ok([node])
    case Gluster => Ok([node])
  }

  function Named(entries: seq<Entry>): (r: set<Node>)
    ensures forall x :: x in r <==> exists i | 0 <= i < |entries| :: entries[i].node == x
  {
    set i | 0 <= i < |entries| :: entries[i].node
  }

  /** An entry below the disk's own ones: a DRBD device from the tree, on one of its nodes, not on the disk's. */
  predicate Foreign(e: Entry, d: Disk, myNodes: seq<Node>) {
    e.node !in myNodes && e.disk.devType.Drbd8? && e.node in Own(e.disk) && Within(e.disk, d)
  }

  /** The disk's own entries come first, in the order of its nodes; the others are foreign. */
  predicate Compact(entries: seq<Entry>, d: Disk, myNodes: seq<Node>) {
    && |myNodes| <= |entries|
    && (forall i | 0 <= i < |myNodes| :: entries[i] == Entry(myNodes[i], d))
    && (forall i | |myNodes| <= i < |entries| :: Foreign(entries[i], d, myNodes))
  }

  function OwnEntries(d: Disk, myNodes: seq<Node>): (r: seq<Entry>)
    ensures |r| == |myNodes| && forall i | 0 <= i < |r| :: r[i] == Entry(myNodes[i], d)
  {
    seq(|myNodes|, i requires 0 <= i < |myNodes| => Entry(myNodes[i], d))
  }

  /** Adds those entries of a child that are on other nodes. */
  method AppendForeign(result: seq<Entry>, ghost d: Disk, ghost k: nat,
                       childResult: seq<Entry>, ghost childNodes: seq<Node>, myNodes: seq<Node>)
    returns (r: seq<Entry>)
    requires k < |d.children| && Compact(result, d, myNodes) && Elements(myNodes) <= Named(result)
    requires Compact(childResult, d.children[k], childNodes)
    requires d.children[k].devType.Drbd8? ==> Elements(childNodes) == Own(d.children[k])
    requires !d.children[k].devType.Drbd8? ==> Elements(childNodes) <= Elements(myNodes)
    ensures Compact(r, d, myNodes) && Named(r) == Named(result) + Named(childResult)
  {
    hide Named, Elements, Foreign;
    NamedNone();
    r := result;
    var i := 0;
    while i < |childResult|
      invariant 0 <= i <= |childResult| && Compact(r, d, myNodes)
      invariant Named(r) == Named(result) + Named(childResult[..i])
    {
      assert childResult[..i + 1] == childResult[..i] + [childResult[i]];
      NamedAppend(childResult[..i], childResult[i]);
      if childResult[i].node !in myNodes {
        ChildEntryIsForeign(d, k, childResult, childNodes, myNodes, i);
        NamedAppend(r, childResult[i]);
        r := r + [childResult[i]];
      } else {
        assert childResult[i].node in Elements(myNodes);
      }
      i := i + 1;
    }
    assert childResult[..i] == childResult;
  }

  lemma NamedNone()
    ensures Named([]) == {}
  {
  }

  lemma NamedAppend(entries: seq<Entry>, e: Entry)
    ensures Named(entries + [e]) == Named(entries) + {e.node}
  {
    var s := entries + [e];
    assert s[|entries|] == e;
    forall x | x in Named(entries) ensures x in Named(s) {
      var i :| 0 <= i < |entries| && entries[i].node == x;
      assert s[i].node == x;
    }
  }

  lemma ChildEntryIsForeign(d: Disk, k: nat, childResult: seq<Entry>, childNodes: seq<Node>, myNodes: seq<Node>, i: nat)
    requires k < |d.children| && i < |childResult| && Compact(childResult, d.children[k], childNodes)
    requires d.children[k].devType.Drbd8? ==> Elements(childNodes) == Own(d.children[k])
    requires !d.children[k].devType.Drbd8? ==> Elements(childNodes) <= Elements(myNodes)
    requires childResult[i].node !in myNodes
    ensures Foreign(childResult[i], d, myNodes)
  {
  }

  /**
   * The nodes named by the node tree are all nodes of the disk, and its parent's node if the disk itself does
   * not name any. An error is raised exactly when the tree does not fit its parent's node, a programmer error
   * only if it has a device of an unknown type and a configuration error only if it has a DRBD device.
   */
  method ComputeNodeTree(d: Disk, parent: Node) returns (r: Result<seq<Entry>>)
    ensures r.Ok? <==> Fits(d, {parent})
    ensures (r.ProgrammerError? ==> Unknown(d)) && (r.ConfigurationError? ==> Mirrored(d))
    ensures r.Ok? ==> GetNodes(d, parent).Ok? && Compact(r.value, d, GetNodes(d, parent).value)
    ensures r.Ok? ==> Named(r.value) == AllNodes(d) + (if d.devType.Drbd8? then {} else {parent})
    decreases d
  {
    hide Fits, Compact, Named, Elements, GetNodes, AllNodes, Under, Own, Reach, OwnEntries;
    var nodes := GetNodes(d, parent);
    if !nodes.Ok? {
      Misfit(d, parent);
      return if nodes.ConfigurationError? then ConfigurationError else ProgrammerError;
    }
    var myNodes := nodes.value;
    var result := OwnEntries(d, myNodes);
    OwnNamed(d, myNodes);
    AllNodesAre(d, parent, myNodes);
    if d.children == [] {
      FitsAll(d, parent, myNodes);
      return Ok(result);
    }
    ghost var all := Under(d, |d.children|);
    var i := 0;
    while i < |myNodes|
      invariant 0 <= i <= |myNodes| && Compact(result, d, myNodes)
      invariant Named(result) == Elements(myNodes) + (if i == 0 then {} else all)
      invariant forall j, c | 0 <= j < i && 0 <= c < |d.children| :: Fits(d.children[c], {myNodes[j]})
    {
      ghost var before := if i == 0 then {} else all;
      var k := 0;
      while k < |d.children|
        invariant 0 <= k <= |d.children| && Compact(result, d, myNodes)
        invariant Named(result) == Elements(myNodes) + before + Under(d, k)
        invariant forall c | 0 <= c < k :: Fits(d.children[c], {myNodes[i]})
      {
        var childResult := ComputeNodeTree(d.children[k], myNodes[i]);
        if !childResult.Ok? {
          MisfitBelow(d, parent, k, myNodes[i]);
          return if childResult.ConfigurationError? then ConfigurationError else ProgrammerError;
        }
        ghost var childNodes := GetNodes(d.children[k], myNodes[i]).value;
        UnderGrows(d, k);
        assert myNodes[i] in Elements(myNodes);
        if |childResult.value| == 1 {
          SimpleChild(d.children[k], myNodes[i], childResult.value);
        } else {
          ChildReach(d.children[k], myNodes[i], myNodes);
          result := AppendForeign(result, d, k, childResult.value, childNodes, myNodes);
        }
        k := k + 1;
      }
      i := i + 1;
    }
    FitsAll(d, parent, myNodes);
    r := Ok(result);
  }

  lemma Misfit(d: Disk, parent: Node)
    requires !GetNodes(d, parent).Ok?
    ensures !Fits(d, {parent})
  {
  }

  lemma UnderGrows(d: Disk, k: nat)
    requires k < |d.children|
    ensures Under(d, k + 1) == Under(d, k) + AllNodes(d.children[k])
  {
  }

  lemma AllNodesAre(d: Disk, parent: Node, myNodes: seq<Node>)
    requires GetNodes(d, parent) == Ok(myNodes)
    ensures |myNodes| > 0 && Under(d, 0) == {}
    ensures AllNodes(d) + (if d.devType.Drbd8? then {} else {parent}) ==
            Elements(myNodes) + Under(d, |d.children|)
  {
  }

  lemma ChildReach(c: Disk, node: Node, myNodes: seq<Node>)
    requires GetNodes(c, node).Ok? && node in myNodes
    ensures var childNodes := GetNodes(c, node).value;
            && (c.devType.Drbd8? ==> Elements(childNodes) == Own(c))
            && (!c.devType.Drbd8? ==> Elements(childNodes) <= Elements(myNodes))
  {
  }

  lemma OwnNamed(d: Disk, myNodes: seq<Node>)
    ensures Named(OwnEntries(d, myNodes)) == Elements(myNodes)
    ensures Compact(OwnEntries(d, myNodes), d, myNodes)
  {
  }

  /** A child with one entry has no node but the one it is looked at from. */
  lemma SimpleChild(c: Disk, node: Node, entries: seq<Entry>)
    requires |entries| == 1 && GetNodes(c, node).Ok? && Compact(entries, c, GetNodes(c, node).value)
    requires Named(entries) == AllNodes(c) + (if c.devType.Drbd8? then {} else {node})
    ensures AllNodes(c) <= {node}
  {
  }

  lemma MisfitBelow(d: Disk, parent: Node, k: nat, node: Node)
    requires GetNodes(d, parent).Ok? && k < |d.children| && node in GetNodes(d, parent).value
    requires !Fits(d.children[k], {node})
    ensures !Fits(d, {parent})
  {
    var reach := Reach(d, {parent});
    assert node in Elements(GetNodes(d, parent).value);
    FitsUnion(d.children[k], {node}, reach);
    assert {node} + reach == reach;
  }

  lemma FitsAll(d: Disk, parent: Node, myNodes: seq<Node>)
    requires GetNodes(d, parent) == Ok(myNodes)
    requires forall j, c | 0 <= j < |myNodes| && 0 <= c < |d.children| :: Fits(d.children[c], {myNodes[j]})
    ensures Fits(d, {parent})
  {
    var reach := Reach(d, {parent});
    forall c | 0 <= c < |d.children| ensures Fits(d.children[c], reach) {
      if d.devType.Drbd8? {
        FitsUnion(d.children[c], {myNodes[0]}, {myNodes[1]});
        assert reach == {myNodes[0]} + {myNodes[1]};
      } else {
        assert reach == {myNodes[0]};
      }
    }
  }
}
