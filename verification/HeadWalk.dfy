/**
  * The head walk. `Head` is defined by unique heaviest children, with no iteration
  * order anywhere; the methods visit block maps in arbitrary order and still return it.
  */
module HeadWalk {
  import opened Primitives
  import opened ForkChoiceTypes
  import opened Ancestry
  import opened Filter
  import opened Expansion
  import opened HeadKey

  /** `c` outranks every other node of `nodes`, all of which could be scored. */
  ghost predicate Heaviest(cfg: Config, s: StoreView, nodes: set<Node>, c: Node)
    requires Readable(s)
  {
    && c in nodes
    && (forall n :: n in nodes ==> SelectionKey(cfg, s, n).Some?)
    && (forall n :: n in nodes && n != c ==> SelectionKey(cfg, s, n).value.Less(SelectionKey(cfg, s, c).value))
  }

  lemma HeaviestUnique(cfg: Config, s: StoreView, nodes: set<Node>, c: Node, d: Node)
    requires Readable(s) && Heaviest(cfg, s, nodes, c) && Heaviest(cfg, s, nodes, d)
    ensures c == d
  {
    hide SelectionKey;
  }

  /** The filtered tree is a tree under the justified block. */
  lemma FilteredIsTree(preset: Preset, s: StoreView, tree: Blocks)
    requires Ordered(s.blocks) && FilteredTree(preset, s) == Some(tree)
    ensures TreeUnder(s, tree, s.justified.root)
  {
    hide Descends, Viable, Checked, ViableBelow;
    forall r | r in tree
      ensures r in s.blocks && tree[r] == s.blocks[r]
      ensures r != s.justified.root ==>
        s.blocks[r].parentRoot in tree && Descends(s.blocks, r, s.justified.root)
    {
      FilteredMeaning(preset, s, r);
      if r != s.justified.root {
        FilteredClosedUpward(preset, s, r);
      }
    }
  }

  /** A child's branch points are fewer: what the walk uses up. */
  lemma StepMeasure(s: StoreView, tree: Blocks, top: Root, node: Node, child: Node)
    requires Ordered(s.blocks) && TreeUnder(s, tree, top) && node.root in s.blocks
    requires child in Children(s, tree, node)
    ensures child.root in s.blocks
    ensures node.status == Pending ==> child.root == node.root && child.status != Pending
    ensures node.status != Pending ==>
      SlotsAbove(s.blocks, s.blocks[child.root].slot) < SlotsAbove(s.blocks, s.blocks[node.root].slot)
  {
    hide Descends;
    if node.status != Pending {
      FewerAbove(s.blocks, node.root, child.root);
    }
  }

  /** Where the walk ends from `node`: at each step the one heaviest child. */
  ghost function HeadFrom(cfg: Config, s: StoreView, tree: Blocks, top: Root, node: Node): Option<Node>
    requires Readable(s) && TreeUnder(s, tree, top) && node.root in s.blocks
    decreases SlotsAbove(s.blocks, s.blocks[node.root].slot), if node.status == Pending then 1 else 0
  {
    var nodes := Children(s, tree, node);
    if nodes == {} then Some(node)
    else if c :| Heaviest(cfg, s, nodes, c) then
      StepMeasure(s, tree, top, node, c);
      HeadFrom(cfg, s, tree, top, c)
    else None
  }

  ghost function Head(cfg: Config, s: StoreView): Option<Node>
    requires Readable(s)
  {
    var tree :- FilteredTree(cfg.preset, s);
    FilteredIsTree(cfg.preset, s, tree);
    HeadFrom(cfg, s, tree, s.justified.root, Node(s.justified.root, Pending))
  }

  /**
    * `select_heaviest_child`: scans left to right, replacing the best so far on a
    * strictly larger key. Refused iff some key is.
    */
  method SelectHeaviestChild(cfg: Config, s: StoreView, children: seq<Node>)
    returns (ok: bool, heaviest: Option<Node>)
    requires Readable(s)
    ensures ok <==> forall n :: n in children ==> SelectionKey(cfg, s, n).Some?
    ensures ok ==> (heaviest.None? <==> children == [])
    ensures ok && heaviest.Some? ==> heaviest.value in children
    ensures ok && heaviest.Some? ==> forall n :: n in children ==>
      !SelectionKey(cfg, s, heaviest.value).value.Less(SelectionKey(cfg, s, n).value)
  {
    hide Readable, SelectionKey;
    heaviest := None;
    var heaviestKey: Option<Key> := None;
    for i := 0 to |children|
      invariant heaviest.None? <==> i == 0
      invariant heaviest.Some? <==> heaviestKey.Some?
      invariant forall n :: n in children[..i] ==> SelectionKey(cfg, s, n).Some?
      invariant heaviest.Some? ==>
        heaviest.value in children[..i] && SelectionKey(cfg, s, heaviest.value) == heaviestKey
      invariant heaviest.Some? ==> forall n :: n in children[..i] ==>
        !heaviestKey.value.Less(SelectionKey(cfg, s, n).value)
    {
      var key := HeadSelectionKey(cfg, s, children[i]);
      if key.None? {
        return false, None;
      }
      if heaviestKey.None? || heaviestKey.value.Less(key.value) {
        heaviest, heaviestKey := Some(children[i]), key;
      }
      assert children[..i + 1] == children[..i] + [children[i]];
    }
    ok := true;
    assert children[..|children|] == children;
  }

  /** Among siblings, no child above the chosen one means it is the unique heaviest. */
  lemma MaximalIsHeaviest(cfg: Config, s: StoreView, tree: Blocks, node: Node, c: Node)
    requires Readable(s) && c in Children(s, tree, node)
    requires forall n :: n in Children(s, tree, node) ==> SelectionKey(cfg, s, n).Some?
    requires forall n :: n in Children(s, tree, node) ==>
      !SelectionKey(cfg, s, c).value.Less(SelectionKey(cfg, s, n).value)
    ensures Heaviest(cfg, s, Children(s, tree, node), c)
  {
    hide Readable, Children, SelectionKey;
    forall n | n in Children(s, tree, node) && n != c
      ensures SelectionKey(cfg, s, n).value.Less(SelectionKey(cfg, s, c).value)
    {
      SiblingKeysDiffer(cfg, s, tree, node, c, n);
    }
  }

  /** One step of `HeadFrom`, for a child known to be heaviest. */
  lemma HeadFromStep(cfg: Config, s: StoreView, tree: Blocks, top: Root, node: Node, c: Node)
    requires Readable(s) && TreeUnder(s, tree, top) && node.root in s.blocks
    requires Heaviest(cfg, s, Children(s, tree, node), c)
    ensures c.root in s.blocks
    ensures HeadFrom(cfg, s, tree, top, node) == HeadFrom(cfg, s, tree, top, c)
  {
    hide Ordered, TreeUnder, Children, SelectionKey, SlotsAbove, Descends;
    StepMeasure(s, tree, top, node, c);
    forall d | Heaviest(cfg, s, Children(s, tree, node), d)
      ensures d == c
    {
      HeaviestUnique(cfg, s, Children(s, tree, node), c, d);
    }
  }

  /** `get_head`: whatever order blocks are visited in, the walk ends at `Head`. */
  method GetHead(cfg: Config, s: StoreView) returns (head: Option<Node>)
    requires Readable(s)
    ensures head == Head(cfg, s)
  {
    hide FilteredTree, TreeUnder, Children, SelectionKey, SlotsAbove, Descends;
    var tree := GetFilteredBlockTree(cfg.preset, s);
    if tree.None? {
      return None;
    }
    ghost var top := s.justified.root;
    FilteredIsTree(cfg.preset, s, tree.value);
    TopIsStored(s, tree.value, top);
    var current := Node(s.justified.root, Pending);
    while true
      invariant current.root in s.blocks
      invariant HeadFrom(cfg, s, tree.value, top, current) == Head(cfg, s)
      decreases SlotsAbove(s.blocks, s.blocks[current.root].slot), if current.status == Pending then 1 else 0
    {
      var children := GetNodeChildren(s, tree.value, current);
      assert children.Some?;
      ghost var nodes := Children(s, tree.value, current);
      assert forall n :: n in children.value <==> n in nodes;
      var ok, next := SelectHeaviestChild(cfg, s, children.value);
      if !ok {
        assert forall c :: !Heaviest(cfg, s, nodes, c);
        return None;
      }
      if next.None? {
        return Some(current);
      }
      MaximalIsHeaviest(cfg, s, tree.value, current, next.value);
      HeadFromStep(cfg, s, tree.value, top, current, next.value);
      StepMeasure(s, tree.value, top, current, next.value);
      current := next.value;
    }
  }

  // ---------------------------------------------------------------------------
  // Where the head is
  // ---------------------------------------------------------------------------

  /** A walk from the justified block's pending node taking the heaviest child each time. */
  ghost predicate IsHeadWalk(cfg: Config, s: StoreView, tree: Blocks, path: seq<Node>)
    requires Readable(s)
  {
    && |path| > 0 && path[0] == Node(s.justified.root, Pending)
    && (forall i :: 0 <= i < |path| - 1 ==> Heaviest(cfg, s, Children(s, tree, path[i]), path[i + 1]))
    && Children(s, tree, path[|path| - 1]) == {}
  }

  lemma {:induction false} WalkFrom(cfg: Config, s: StoreView, tree: Blocks, top: Root, node: Node)
    returns (path: seq<Node>)
    requires Readable(s) && TreeUnder(s, tree, top) && node.root in s.blocks
    requires HeadFrom(cfg, s, tree, top, node).Some?
    ensures |path| > 0 && path[0] == node && path[|path| - 1] == HeadFrom(cfg, s, tree, top, node).value
    ensures forall i :: 0 <= i < |path| - 1 ==> Heaviest(cfg, s, Children(s, tree, path[i]), path[i + 1])
    ensures Children(s, tree, path[|path| - 1]) == {}
    decreases SlotsAbove(s.blocks, s.blocks[node.root].slot), if node.status == Pending then 1 else 0
  {
    hide TreeUnder, Children, SelectionKey, SlotsAbove;
    if Children(s, tree, node) == {} {
      path := [node];
    } else {
      var c :| Heaviest(cfg, s, Children(s, tree, node), c);
      StepMeasure(s, tree, top, node, c);
      HeadFromStep(cfg, s, tree, top, node, c);
      var rest := WalkFrom(cfg, s, tree, top, c);
      path := [node] + rest;
      hide Heaviest;
      assert forall i :: 0 < i < |path| - 1 ==> path[i] == rest[i - 1] && path[i + 1] == rest[i];
    }
  }

  /**
    * Where the head is, whenever there is one: at the end of a heaviest-child walk; it is
    * never pending, full only with a recorded envelope, and its block is the justified
    * block or one that survived the filter.
    */
  lemma HeadLocation(cfg: Config, s: StoreView, tree: Blocks)
    requires Readable(s) && Head(cfg, s).Some? && FilteredTree(cfg.preset, s) == Some(tree)
    ensures var h := Head(cfg, s).value;
      && h.status != Pending
      && (h.status == Full ==> h.root in s.payloads)
      && (h.root == s.justified.root || h.root in tree)
      && exists path :: IsHeadWalk(cfg, s, tree, path) && path[|path| - 1] == h
  {
    hide FilteredTree, TreeUnder, SelectionKey, SlotsAbove;
    FilteredIsTree(cfg.preset, s, tree);
    TopIsStored(s, tree, s.justified.root);
    var path := WalkFrom(cfg, s, tree, s.justified.root, Node(s.justified.root, Pending));
    assert IsHeadWalk(cfg, s, tree, path) by {
      hide Children, Heaviest;
    }
    HeadNodeShape(cfg, s, tree, path, |path| - 1);
  }

  /** What every node of a head walk looks like. */
  lemma {:induction false} HeadNodeShape(cfg: Config, s: StoreView, tree: Blocks, path: seq<Node>, i: nat)
    requires Readable(s) && IsHeadWalk(cfg, s, tree, path) && i < |path|
    ensures path[i].status == Full ==> path[i].root in s.payloads
    ensures path[i].root == s.justified.root || path[i].root in tree
    ensures i == |path| - 1 ==> path[i].status != Pending
  {
    hide SelectionKey, Readable;
    if i > 0 {
      HeadNodeShape(cfg, s, tree, path, i - 1);
      assert path[i] in Children(s, tree, path[i - 1]) by {
        hide Children;
      }
    }
  }

  /** A walk stops exactly where there is nothing below. */
  lemma WalkEndsOnce(cfg: Config, s: StoreView, tree: Blocks, path: seq<Node>, i: nat)
    requires Readable(s) && IsHeadWalk(cfg, s, tree, path) && i < |path|
    ensures Children(s, tree, path[i]) == {} <==> i == |path| - 1
  {
    hide Readable, Children, SelectionKey;
    if i < |path| - 1 {
      assert Heaviest(cfg, s, Children(s, tree, path[i]), path[i + 1]);
    }
  }

  /** The head walk is unique, so the head is: two walks of one store end alike. */
  lemma {:induction false} HeadWalkUnique(cfg: Config, s: StoreView, tree: Blocks, p: seq<Node>, q: seq<Node>, i: nat)
    requires Readable(s) && IsHeadWalk(cfg, s, tree, p) && IsHeadWalk(cfg, s, tree, q) && i <= |p|
    ensures i <= |q| && p[..i] == q[..i]
    ensures i == |p| ==> p == q
  {
    hide Readable, Children, SelectionKey;
    if i > 0 {
      HeadWalkUnique(cfg, s, tree, p, q, i - 1);
      if i > 1 {
        assert p[i - 2] == p[..i - 1][i - 2] == q[..i - 1][i - 2];
        assert Heaviest(cfg, s, Children(s, tree, p[i - 2]), p[i - 1]);
        assert i - 1 < |q|;
        HeaviestUnique(cfg, s, Children(s, tree, p[i - 2]), p[i - 1], q[i - 1]);
      }
      assert p[..i] == p[..i - 1] + [p[i - 1]] && q[..i] == q[..i - 1] + [q[i - 1]];
      if i == |p| {
        assert p == p[..i] && p[i - 1] == q[i - 1];
        WalkEndsOnce(cfg, s, tree, q, i - 1);
        assert q == q[..i];
      }
    }
  }

  /**
    * Once finality is past genesis and the justified block survives the filter, the head
    * and the finalized block lie on one chain.
    */
  lemma HeadFollowsFinality(cfg: Config, s: StoreView, tree: Blocks)
    requires Readable(s) && Head(cfg, s).Some? && FilteredTree(cfg.preset, s) == Some(tree)
    requires s.justified.root in tree && s.finalized.epoch != GENESIS_EPOCH
    ensures var h := Head(cfg, s).value.root;
      Descends(s.blocks, h, s.finalized.root) || Descends(s.blocks, s.finalized.root, h)
  {
    hide Head, FilteredTree, Descends;
    HeadLocation(cfg, s, tree);
    KeptBlocksFollowFinality(cfg.preset, s, Head(cfg, s).value.root);
  }
}
