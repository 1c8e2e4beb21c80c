/**
  * Which child the head walk takes, in plain terms: the branch of a block's payload by
  * committee votes and the boosted block's bid, or by stake; the next block by stake and
  * then by root.
  */
module BranchChoice {
  import opened Primitives
  import opened ForkChoiceTypes
  import opened Ancestry
  import opened Clock
  import opened Filter
  import opened Expansion
  import opened HeadKey
  import opened HeadWalk
  import opened HeadExistence

  /** The committee seats that voted yes. */
  ghost function Agreeing(votes: VoteVector): set<nat> {
    set i | 0 <= i < |votes| && votes[i] == Some(true)
  }

  lemma {:induction false} CountIsAgreeing(votes: VoteVector)
    ensures CountVotes(votes, true) == |Agreeing(votes)|
  {
    if votes != [] {
      var last := |votes| - 1;
      CountIsAgreeing(votes[..last]);
      if votes[last] == Some(true) {
        assert Agreeing(votes) == Agreeing(votes[..last]) + {last};
      } else {
        assert Agreeing(votes) == Agreeing(votes[..last]);
      }
    }
  }

  ghost predicate Majority(preset: Preset, votes: VoteVector) {
    2 * |Agreeing(votes)| > preset.PtcSize()
  }

  /**
    * The payload of the previous slot's block is kept: a majority of the committee saw it
    * in time and its data too, or no boosted block was built on that block without it.
    */
  ghost predicate PayloadKept(preset: Preset, s: StoreView, root: Root)
    requires root in s.blocks
  {
    || (&& root in s.timelinessVotes && Majority(preset, s.timelinessVotes[root])
        && root in s.availabilityVotes && Majority(preset, s.availabilityVotes[root]))
    || s.boostRoot == ZERO_ROOT
    || (&& s.boostRoot in s.blocks
        && (|| s.blocks[s.boostRoot].parentRoot != root
            || s.blocks[s.boostRoot].body.bid.parentBlockHash == s.blocks[root].body.bid.blockHash))
  }

  ghost predicate PreviousSlot(preset: Preset, s: StoreView, root: Root)
    requires root in s.blocks
  {
    s.blocks[root].slot + 1 == CurrentSlot(preset, s)
  }

  /** Of a block of any other slot the full branch is kept when it weighs no less. */
  ghost predicate FullWeighsMore(cfg: Config, s: StoreView, root: Root)
    requires Readable(s)
  {
    var full, empty := NodeWeight(cfg, s, Node(root, Full)), NodeWeight(cfg, s, Node(root, Empty));
    full.Some? && empty.Some? && full.value >= empty.value
  }

  lemma RankOfFull(preset: Preset, s: StoreView, root: Root)
    requires root in s.blocks && root in s.payloads && StatusRank(preset, s, Node(root, Full)).Some?
    ensures PreviousSlot(preset, s, root) ==>
      StatusRank(preset, s, Node(root, Full)).value == if PayloadKept(preset, s, root) then 2 else 0
    ensures !PreviousSlot(preset, s, root) ==> StatusRank(preset, s, Node(root, Full)).value == 1
  {
    hide CurrentSlot, CountVotes, Agreeing;
    if PreviousSlot(preset, s, root) && root in s.timelinessVotes && root in s.availabilityVotes {
      CountIsAgreeing(s.timelinessVotes[root]);
      CountIsAgreeing(s.availabilityVotes[root]);
    }
  }

  lemma RankOfEmpty(preset: Preset, s: StoreView, root: Root)
    requires root in s.blocks
    ensures StatusRank(preset, s, Node(root, Empty)) == Some(if PreviousSlot(preset, s, root) then 1 else 0)
  {
    hide CurrentSlot;
  }

  lemma DecisionsWeighNothing(cfg: Config, s: StoreView, root: Root, status: PayloadStatus)
    requires Readable(s) && root in s.blocks && PreviousSlot(cfg.preset, s, root) && status != Pending
    ensures NodeWeight(cfg, s, Node(root, status)) == Some(0)
  {
    hide CurrentSlot, Ordered;
  }

  /** The branches of a block: always the empty one, and the full one once its payload is recorded. */
  lemma BranchesOf(s: StoreView, tree: Blocks, root: Root)
    ensures Children(s, tree, Node(root, Pending)) ==
      if root in s.payloads then {Node(root, Empty), Node(root, Full)} else {Node(root, Empty)}
  {
  }

  /**
    * The payload decision. Below a block whose payload is recorded the walk takes the full
    * branch if and only if, for a block of the previous slot, the payload is kept, and for
    * any other block, the full branch weighs no less than the empty one.
    */
  lemma BranchTaken(cfg: Config, s: StoreView, tree: Blocks, root: Root)
    requires Readable(s) && root in s.blocks && root in s.payloads
    requires AllReadable(cfg, s, Children(s, tree, Node(root, Pending)))
    ensures var full := if PreviousSlot(cfg.preset, s, root) then PayloadKept(cfg.preset, s, root)
                        else FullWeighsMore(cfg, s, root);
      && (Heaviest(cfg, s, Children(s, tree, Node(root, Pending)), Node(root, Full)) <==> full)
      && (Heaviest(cfg, s, Children(s, tree, Node(root, Pending)), Node(root, Empty)) <==> !full)
  {
    hide NodeWeight, StatusRank, PayloadKept, PreviousSlot, Children, Ordered;
    BranchesOf(s, tree, root);
    var empty, full := Node(root, Empty), Node(root, Full);
    assert empty in Children(s, tree, Node(root, Pending)) && full in Children(s, tree, Node(root, Pending));
    assert SelectionKey(cfg, s, empty).Some? && SelectionKey(cfg, s, full).Some?;
    RankOfFull(cfg.preset, s, root);
    RankOfEmpty(cfg.preset, s, root);
    if PreviousSlot(cfg.preset, s, root) {
      DecisionsWeighNothing(cfg, s, root, Empty);
      DecisionsWeighNothing(cfg, s, root, Full);
    }
  }

  /** Below a branch the walk takes the block that weighs most, and of equals that of the greatest root. */
  lemma BlockTaken(cfg: Config, s: StoreView, tree: Blocks, node: Node, c: Node)
    requires Readable(s) && node.status != Pending && c in Children(s, tree, node)
    requires AllReadable(cfg, s, Children(s, tree, node))
    ensures Heaviest(cfg, s, Children(s, tree, node), c) <==>
      forall n :: n in Children(s, tree, node) && n != c ==>
        var weight, best := NodeWeight(cfg, s, n), NodeWeight(cfg, s, c);
        && weight.Some? && best.Some?
        && (weight.value < best.value || (weight.value == best.value && n.root < c.root))
  {
    hide NodeWeight, StatusRank, Children, Ordered;
    assert SelectionKey(cfg, s, c).Some?;
    forall n | n in Children(s, tree, node) && n != c
      ensures SelectionKey(cfg, s, n).Some? && n.root != c.root
    {
      PendingChildren(s, tree, node, n);
      PendingChildren(s, tree, node, c);
    }
  }

  /** Below a branch stand the kept blocks built on it: on the payload's hash for the full one. */
  lemma BlocksBelow(s: StoreView, tree: Blocks, root: Root, status: PayloadStatus, c: Node)
    requires root in s.blocks && status != Pending
    ensures c in Children(s, tree, Node(root, status)) <==>
      && c.status == Pending && c.root in tree && tree[c.root].parentRoot == root
      && (tree[c.root].body.bid.parentBlockHash == s.blocks[root].body.bid.blockHash <==> status == Full)
  {
    if c.status == Pending {
      assert c == Node(c.root, Pending);
    }
  }

  lemma PendingChildren(s: StoreView, tree: Blocks, node: Node, child: Node)
    requires node.status != Pending && child in Children(s, tree, node)
    ensures child.status == Pending
  {
  }

  lemma BranchesOfPending(s: StoreView, tree: Blocks, node: Node, child: Node)
    requires child in Children(s, tree, node) && child.status != Pending
    ensures node == Node(child.root, Pending)
  {
  }

  /** The head's payload status: which branch of its block the walk ended on, and why. */
  lemma HeadStatus(cfg: Config, s: StoreView)
    requires Readable(s) && Head(cfg, s).Some?
    ensures var h := Head(cfg, s).value;
      && h.root in s.blocks && h.status != Pending
      && (h.status == Full <==>
            && h.root in s.payloads
            && if PreviousSlot(cfg.preset, s, h.root) then PayloadKept(cfg.preset, s, h.root)
               else FullWeighsMore(cfg, s, h.root))
  {
    hide FilteredTree, TreeUnder, SelectionKey, PayloadKept, PreviousSlot, FullWeighsMore, Children, Ordered, Head;
    HeadIsFiltered(cfg, s);
    var tree := FilteredTree(cfg.preset, s).value;
    HeadLocation(cfg, s, tree);
    var h := Head(cfg, s).value;
    var path :| IsHeadWalk(cfg, s, tree, path) && path[|path| - 1] == h;
    assert |path| > 1;
    var last := |path| - 2;
    assert Heaviest(cfg, s, Children(s, tree, path[last]), path[last + 1]);
    BranchesOfPending(s, tree, path[last], h);
    HeadIsStored(cfg, s, tree, h);
    if h.root in s.payloads {
      BranchTaken(cfg, s, tree, h.root);
    }
  }

  lemma HeadIsFiltered(cfg: Config, s: StoreView)
    requires Readable(s) && Head(cfg, s).Some?
    ensures Ordered(s.blocks) && FilteredTree(cfg.preset, s).Some?
  {
    hide FilteredTree, HeadFrom, TreeUnder;
  }

  lemma HeadIsStored(cfg: Config, s: StoreView, tree: Blocks, h: Node)
    requires Readable(s) && FilteredTree(cfg.preset, s) == Some(tree)
    requires h.root == s.justified.root || h.root in tree
    ensures h.root in s.blocks
  {
    hide TreeUnder, Checked, ViableBelow;
    if h.root in tree {
      FilteredMeaning(cfg.preset, s, h.root);
    }
  }

  // ---------------------------------------------------------------------------
  // The whole walk
  // ---------------------------------------------------------------------------

  /** The step the walk takes from `node`, said without keys and ranks. */
  ghost predicate Taken(cfg: Config, s: StoreView, tree: Blocks, node: Node, c: Node)
    requires Readable(s) && node.root in s.blocks
  {
    if node.status == Pending then
      && c.root == node.root && c.status != Pending
      && (c.status == Full <==>
            && node.root in s.payloads
            && if PreviousSlot(cfg.preset, s, node.root) then PayloadKept(cfg.preset, s, node.root)
               else FullWeighsMore(cfg, s, node.root))
    else
      && c in Children(s, tree, node)
      && forall n :: n in Children(s, tree, node) && n != c ==>
           var weight, best := NodeWeight(cfg, s, n), NodeWeight(cfg, s, c);
           && weight.Some? && best.Some?
           && (weight.value < best.value || (weight.value == best.value && n.root < c.root))
  }

  lemma HeaviestIsTaken(cfg: Config, s: StoreView, tree: Blocks, node: Node, c: Node)
    requires Readable(s) && node.root in s.blocks && AllReadable(cfg, s, Children(s, tree, node))
    ensures Heaviest(cfg, s, Children(s, tree, node), c) <==> Taken(cfg, s, tree, node, c)
  {
    hide PayloadKept, PreviousSlot, FullWeighsMore, Ordered, NodeWeight, SelectionKey, Children;
    if node.status == Pending {
      BranchesOf(s, tree, node.root);
      assert node == Node(node.root, Pending);
      if node.root in s.payloads {
        BranchTaken(cfg, s, tree, node.root);
        assert c.status == Full && c.root == node.root ==> c == Node(node.root, Full);
        assert c.status == Empty && c.root == node.root ==> c == Node(node.root, Empty);
      } else {
        assert Node(node.root, Empty) in Children(s, tree, node);
        assert c.status == Empty && c.root == node.root ==> c == Node(node.root, Empty);
      }
    } else if c in Children(s, tree, node) {
      BlockTaken(cfg, s, tree, node, c);
    }
  }

  /**
    * What the head is: the end of the one walk from the justified block that takes, at each
    * block, the branch its payload earned, and below each branch, the block of most weight.
    */
  lemma HeadMeaning(cfg: Config, s: StoreView, tree: Blocks) returns (path: seq<Node>)
    requires Readable(s) && Head(cfg, s).Some? && FilteredTree(cfg.preset, s) == Some(tree)
    ensures |path| > 0 && path[0] == Node(s.justified.root, Pending) && path[|path| - 1] == Head(cfg, s).value
    ensures Children(s, tree, path[|path| - 1]) == {}
    ensures forall i :: 0 <= i < |path| ==> path[i].root in s.blocks
    ensures forall i :: 0 <= i < |path| - 1 ==> Taken(cfg, s, tree, path[i], path[i + 1])
  {
    hide FilteredTree, TreeUnder, SelectionKey, Children, Ordered, Head, Taken;
    HeadLocation(cfg, s, tree);
    path :| IsHeadWalk(cfg, s, tree, path) && path[|path| - 1] == Head(cfg, s).value;
    forall i | 0 <= i < |path|
      ensures path[i].root in s.blocks
    {
      HeadNodeShape(cfg, s, tree, path, i);
      HeadIsStored(cfg, s, tree, path[i]);
    }
    forall i | 0 <= i < |path| - 1
      ensures Taken(cfg, s, tree, path[i], path[i + 1])
    {
      assert Heaviest(cfg, s, Children(s, tree, path[i]), path[i + 1]);
      HeaviestIsTaken(cfg, s, tree, path[i], path[i + 1]);
    }
  }
}
