/**
  * The tree head selection walks: a pending node opens into its payload branches, a
  * resolved node into the blocks built on that branch.
  */
module Expansion {
  import opened Primitives
  import opened ForkChoiceTypes
  import opened Ancestry

  /** The nodes one step below `node`, drawing child blocks from `tree`. */
  function Children(s: StoreView, tree: Blocks, node: Node): set<Node> {
    if node.status == Pending then
      {Node(node.root, Empty)} + if node.root in s.payloads then {Node(node.root, Full)} else {}
    else
      set r | r in tree && tree[r].parentRoot == node.root
              && ParentPayloadStatus(s.blocks, tree[r]) == Some(node.status) :: Node(r, Pending)
  }

  predicate Distinct<T(==)>(nodes: seq<T>) {
    forall i, j :: 0 <= i < j < |nodes| ==> nodes[i] != nodes[j]
  }

  ghost function Elements<T>(nodes: seq<T>): set<T> {
    set n | n in nodes
  }

  /**
    * `get_node_children`: lists each child once, in whatever order the block map is
    * visited. It is refused only when a block claims an unknown parent.
    */
  method GetNodeChildren(s: StoreView, tree: Blocks, node: Node) returns (children: Option<seq<Node>>)
    ensures children.None? <==>
      && node.status != Pending && node.root !in s.blocks
      && exists r :: r in tree && tree[r].parentRoot == node.root
    ensures children.Some? ==> Distinct(children.value)
    ensures children.Some? ==> Elements(children.value) == Children(s, tree, node)
  {
    if node.status == Pending {
      var nodes := [Node(node.root, Empty)];
      if node.root in s.payloads {
        nodes := nodes + [Node(node.root, Full)];
      }
      return Some(nodes);
    }
    var nodes: seq<Node> := [];
    var todo := tree.Keys;
    while todo != {}
      invariant todo <= tree.Keys
      invariant node.root in s.blocks || forall r :: r in tree.Keys - todo ==> tree[r].parentRoot != node.root
      invariant Distinct(nodes)
      invariant forall n :: n in nodes <==> n in Children(s, tree, node) && n.root !in todo
      decreases todo
    {
      var root :| root in todo;
      if tree[root].parentRoot == node.root {
        var status := ParentPayloadStatus(s.blocks, tree[root]);
        if status.None? {
          return None;
        }
        if status.value == node.status {
          assert Node(root, Pending) !in nodes;
          nodes := nodes + [Node(root, Pending)];
        }
      }
      todo := todo - {root};
    }
    children := Some(nodes);
  }

  // ---------------------------------------------------------------------------
  // Paths through the expansion
  // ---------------------------------------------------------------------------

  /** A walk down the expansion, one step at a time. */
  ghost predicate IsPath(s: StoreView, tree: Blocks, path: seq<Node>) {
    |path| > 0 && forall i :: 0 <= i < |path| - 1 ==> path[i + 1] in Children(s, tree, path[i])
  }

  /** `tree` is part of the store, and closed under parents as far as `top`. */
  ghost predicate TreeUnder(s: StoreView, tree: Blocks, top: Root)
    requires Ordered(s.blocks)
  {
    && top in s.blocks
    && (forall r :: r in tree ==> r in s.blocks && tree[r] == s.blocks[r])
    && (forall r {:trigger r in tree} {:trigger tree[r]} :: r in tree && r != top ==>
          s.blocks[r].parentRoot in tree && Descends(s.blocks, r, top))
  }

  /** Every block of `tree` that claims a full parent names one with a recorded envelope. */
  ghost predicate FullParentsRecorded(s: StoreView, tree: Blocks) {
    forall r :: r in tree && ParentPayloadStatus(s.blocks, tree[r]) == Some(Full) ==>
      tree[r].parentRoot in s.payloads
  }

  /** Depth in the expansion: later slots are deeper, and a decision is below its block. */
  ghost function Depth(s: StoreView, node: Node): nat {
    if node.root !in s.blocks then 0
    else 2 * s.blocks[node.root].slot + if node.status == Pending then 0 else 1
  }

  /** Every step goes strictly deeper, so no walk meets a node twice. */
  lemma StepGoesDeeper(s: StoreView, tree: Blocks, top: Root, node: Node, child: Node)
    requires Ordered(s.blocks) && TreeUnder(s, tree, top) && node.root in s.blocks && child in Children(s, tree, node)
    ensures child.root in s.blocks && Depth(s, node) < Depth(s, child)
  {
    hide Descends;
  }

  lemma {:induction false} PathGoesDeeper(s: StoreView, tree: Blocks, top: Root, path: seq<Node>)
    requires Ordered(s.blocks) && TreeUnder(s, tree, top) && IsPath(s, tree, path) && path[0].root in s.blocks
    ensures path[|path| - 1].root in s.blocks
    ensures Depth(s, path[0]) <= Depth(s, path[|path| - 1])
    ensures |path| > 1 ==> Depth(s, path[0]) < Depth(s, path[|path| - 1])
  {
    hide Depth, Children, TreeUnder;
    if |path| > 1 {
      var init := path[..|path| - 1];
      PathGoesDeeper(s, tree, top, init);
      StepGoesDeeper(s, tree, top, init[|init| - 1], path[|path| - 1]);
    }
  }

  /** The only node a given node can be a child of. */
  function ParentNode(s: StoreView, tree: Blocks, child: Node): Option<Node> {
    if child.status != Pending then Some(Node(child.root, Pending))
    else if child.root !in tree then None
    else
      var status :- ParentPayloadStatus(s.blocks, tree[child.root]);
      Some(Node(tree[child.root].parentRoot, status))
  }

  lemma ChildHasOneParent(s: StoreView, tree: Blocks, node: Node, child: Node)
    requires child in Children(s, tree, node)
    ensures ParentNode(s, tree, child) == Some(node)
  {
  }

  /** At most one path leads from a given start to a given node. */
  lemma {:induction false} PathUnique(s: StoreView, tree: Blocks, top: Root, p: seq<Node>, q: seq<Node>)
    requires Ordered(s.blocks) && TreeUnder(s, tree, top) && IsPath(s, tree, p) && IsPath(s, tree, q)
    requires p[0] == q[0] && p[0].root in s.blocks && p[|p| - 1] == q[|q| - 1]
    ensures p == q
    decreases |p|
  {
    hide Depth, Children, TreeUnder, ParentNode;
    PathGoesDeeper(s, tree, top, p);
    PathGoesDeeper(s, tree, top, q);
    if |p| > 1 && |q| > 1 {
      ChildHasOneParent(s, tree, p[|p| - 2], p[|p| - 1]);
      ChildHasOneParent(s, tree, q[|q| - 2], q[|q| - 1]);
      var p', q' := p[..|p| - 1], q[..|q| - 1];
      PathUnique(s, tree, top, p', q');
      assert p == p' + [p[|p| - 1]] && q == q' + [q[|q| - 1]];
    }
  }

  /** The path from `top`'s pending node to the pending node of a block of the tree. */
  ghost function PathTo(s: StoreView, tree: Blocks, top: Root, r: Root): (path: seq<Node>)
    requires Ordered(s.blocks) && TreeUnder(s, tree, top) && FullParentsRecorded(s, tree) && (r in tree || r == top)
    ensures IsPath(s, tree, path) && path[0] == Node(top, Pending) && path[|path| - 1] == Node(r, Pending)
    decreases s.blocks[r].slot
  {
    if r == top then [Node(top, Pending)]
    else
      var parent := s.blocks[r].parentRoot;
      var status := ParentPayloadStatus(s.blocks, tree[r]).value;
      assert Node(parent, status) in Children(s, tree, Node(parent, Pending));
      assert Node(r, Pending) in Children(s, tree, Node(parent, status));
      PathTo(s, tree, top, parent) + [Node(parent, status), Node(r, Pending)]
  }

  /** Every block of the tree is reached as a pending node by exactly one path. */
  lemma ReachedByExactlyOnePath(s: StoreView, tree: Blocks, top: Root, r: Root)
    requires Ordered(s.blocks) && TreeUnder(s, tree, top) && FullParentsRecorded(s, tree) && (r in tree || r == top)
    ensures exists p :: IsPath(s, tree, p) && p[0] == Node(top, Pending) && p[|p| - 1] == Node(r, Pending)
    ensures forall p, q ::
      && IsPath(s, tree, p) && p[0] == Node(top, Pending) && p[|p| - 1] == Node(r, Pending)
      && IsPath(s, tree, q) && q[0] == Node(top, Pending) && q[|q| - 1] == Node(r, Pending)
      ==> p == q
  {
    hide Children, TreeUnder, FullParentsRecorded;
    var p := PathTo(s, tree, top, r);
    forall p, q |
      && IsPath(s, tree, p) && p[0] == Node(top, Pending) && p[|p| - 1] == Node(r, Pending)
      && IsPath(s, tree, q) && q[0] == Node(top, Pending) && q[|q| - 1] == Node(r, Pending)
      ensures p == q
    {
      assert top in s.blocks by {
        TopIsStored(s, tree, top);
      }
      PathUnique(s, tree, top, p, q);
    }
  }

  lemma TopIsStored(s: StoreView, tree: Blocks, top: Root)
    requires Ordered(s.blocks) && TreeUnder(s, tree, top)
    ensures top in s.blocks
  {
  }
}
