/**
  * When there is a head. The walk fails only on a tip the filter cannot check or on a
  * child whose key cannot be read; which keys those are is said without checked sums.
  */
module HeadExistence {
  import opened Primitives
  import opened ForkChoiceTypes
  import opened Ancestry
  import opened Clock
  import opened Filter
  import opened Electorate
  import opened Expansion
  import opened Weight
  import opened HeadKey
  import opened HeadWalk
  import opened Columns
  import opened StoreInvariant
  import opened StoreRuns

  // ---------------------------------------------------------------------------
  // The walk
  // ---------------------------------------------------------------------------

  ghost predicate AllReadable(cfg: Config, s: StoreView, nodes: set<Node>)
    requires Readable(s)
  {
    forall n :: n in nodes ==> SelectionKey(cfg, s, n).Some?
  }

  /** Siblings whose keys can all be read have a heaviest one. */
  lemma {:induction false} HeaviestExists(cfg: Config, s: StoreView, tree: Blocks, node: Node, nodes: set<Node>)
    returns (c: Node)
    requires Readable(s) && nodes != {} && nodes <= Children(s, tree, node) && AllReadable(cfg, s, nodes)
    ensures Heaviest(cfg, s, nodes, c)
    decreases |nodes|
  {
    hide SelectionKey, Children, Readable;
    var x :| x in nodes;
    var rest := nodes - {x};
    c := x;
    if rest != {} {
      var d := HeaviestExists(cfg, s, tree, node, rest);
      SiblingKeysDiffer(cfg, s, tree, node, x, d);
      if SelectionKey(cfg, s, x).value.Less(SelectionKey(cfg, s, d).value) {
        c := d;
      }
    }
  }

  /** A beginning of the head walk. */
  ghost predicate IsPartWalk(cfg: Config, s: StoreView, tree: Blocks, p: seq<Node>)
    requires Readable(s)
  {
    && |p| > 0 && p[0] == Node(s.justified.root, Pending)
    && (forall i :: 0 <= i < |p| - 1 ==> Heaviest(cfg, s, Children(s, tree, p[i]), p[i + 1]))
  }

  ghost predicate WalkReadable(cfg: Config, s: StoreView, tree: Blocks)
    requires Readable(s)
  {
    forall p :: IsPartWalk(cfg, s, tree, p) ==> AllReadable(cfg, s, Children(s, tree, p[|p| - 1]))
  }

  lemma {:induction false} WalkOn(cfg: Config, s: StoreView, tree: Blocks, top: Root, p: seq<Node>)
    requires Readable(s) && TreeUnder(s, tree, top) && WalkReadable(cfg, s, tree) && IsPartWalk(cfg, s, tree, p)
    requires p[|p| - 1].root in s.blocks
    ensures HeadFrom(cfg, s, tree, top, p[|p| - 1]).Some?
    decreases SlotsAbove(s.blocks, s.blocks[p[|p| - 1].root].slot), if p[|p| - 1].status == Pending then 1 else 0
  {
    hide TreeUnder, Children, SelectionKey, SlotsAbove, Heaviest, Readable, AllReadable, Ordered;
    var node := p[|p| - 1];
    var nodes := Children(s, tree, node);
    if nodes != {} {
      var c := HeaviestExists(cfg, s, tree, node, nodes);
      HeaviestIsChild(cfg, s, nodes, c);
      ReadableIsOrdered(s);
      StepMeasure(s, tree, top, node, c);
      HeadFromStep(cfg, s, tree, top, node, c);
      var q := p + [c];
      assert IsPartWalk(cfg, s, tree, q);
      WalkOn(cfg, s, tree, top, q);
    } else {
      NoChildrenIsHead(cfg, s, tree, top, node);
    }
  }

  lemma ReadableIsOrdered(s: StoreView)
    requires Readable(s)
    ensures Ordered(s.blocks)
  {
  }

  lemma HeaviestIsChild(cfg: Config, s: StoreView, nodes: set<Node>, c: Node)
    requires Readable(s) && Heaviest(cfg, s, nodes, c)
    ensures c in nodes && AllReadable(cfg, s, nodes)
  {
    hide SelectionKey, Readable;
  }

  lemma NoChildrenIsHead(cfg: Config, s: StoreView, tree: Blocks, top: Root, node: Node)
    requires Readable(s) && TreeUnder(s, tree, top) && node.root in s.blocks && Children(s, tree, node) == {}
    ensures HeadFrom(cfg, s, tree, top, node) == Some(node)
  {
    hide TreeUnder, Children, SelectionKey, SlotsAbove, Readable;
  }

  lemma HeadNeedsKeys(cfg: Config, s: StoreView, tree: Blocks, top: Root, node: Node)
    requires Readable(s) && TreeUnder(s, tree, top) && node.root in s.blocks
    requires HeadFrom(cfg, s, tree, top, node).Some?
    ensures AllReadable(cfg, s, Children(s, tree, node))
  {
    hide TreeUnder, Children, SelectionKey, SlotsAbove, Readable;
  }

  /** Along a beginning of the walk the head stays the same. */
  lemma {:induction false} HeadAlong(cfg: Config, s: StoreView, tree: Blocks, top: Root, p: seq<Node>)
    requires Readable(s) && TreeUnder(s, tree, top) && IsPartWalk(cfg, s, tree, p) && s.justified.root in s.blocks
    ensures p[|p| - 1].root in s.blocks
    ensures HeadFrom(cfg, s, tree, top, p[|p| - 1]) == HeadFrom(cfg, s, tree, top, p[0])
  {
    hide TreeUnder, Children, SelectionKey, Heaviest, Readable, HeadFrom;
    if |p| > 1 {
      var init := p[..|p| - 1];
      HeadAlong(cfg, s, tree, top, init);
      assert Heaviest(cfg, s, Children(s, tree, p[|p| - 2]), p[|p| - 2 + 1]);
      HeadFromStep(cfg, s, tree, top, p[|p| - 2], p[|p| - 1]);
    }
  }

  /** There is a head iff the filter succeeds and every key met on the walk can be read. */
  lemma HeadExistsIff(cfg: Config, s: StoreView)
    requires Readable(s)
    ensures Head(cfg, s).Some? <==>
      FilteredTree(cfg.preset, s).Some? && WalkReadable(cfg, s, FilteredTree(cfg.preset, s).value)
  {
    hide FilteredTree, TreeUnder, Children, SelectionKey, HeadFrom, AllReadable, Heaviest;
    if FilteredTree(cfg.preset, s).Some? {
      var tree, top := FilteredTree(cfg.preset, s).value, s.justified.root;
      FilteredIsTree(cfg.preset, s, tree);
      TopIsStored(s, tree, top);
      if Head(cfg, s).Some? {
        forall p | IsPartWalk(cfg, s, tree, p)
          ensures AllReadable(cfg, s, Children(s, tree, p[|p| - 1]))
        {
          HeadAlong(cfg, s, tree, top, p);
          HeadNeedsKeys(cfg, s, tree, top, p[|p| - 1]);
        }
      }
      if WalkReadable(cfg, s, tree) {
        WalkOn(cfg, s, tree, top, [Node(top, Pending)]);
      }
    }
  }

  // ---------------------------------------------------------------------------
  // When the filter succeeds
  // ---------------------------------------------------------------------------

  lemma {:induction false} SomeTip(blocks: Blocks, root: Root) returns (tip: Root)
    requires Ordered(blocks) && root in blocks
    ensures Tip(blocks, tip, root)
    decreases SlotsAbove(blocks, blocks[root].slot)
  {
    hide SlotsAbove, Ordered;
    TipsSplit(blocks, root);
    if ChildRoots(blocks, root) == {} {
      tip := root;
    } else {
      var c :| c in ChildRoots(blocks, root);
      ChildIsLower(blocks, root, c);
      tip := SomeTip(blocks, c);
    }
  }

  lemma TipCheckedIff(cfg: Config, anchor: Root, s: StoreView, tip: Root)
    requires Shape(cfg, anchor, s) && tip in s.blocks
    ensures TipPasses(cfg.preset, s, tip).Some? <==>
      s.blocks[anchor].slot <= cfg.preset.StartSlot(s.finalized.epoch)
  {
    hide CurrentEpoch, Ancestor;
    AncestorTotal(s.blocks, anchor, Node(tip, Pending), cfg.preset.StartSlot(s.finalized.epoch));
  }

  /** In every store of a run the filter succeeds iff finality has caught up with the anchor. */
  lemma FilterSucceedsIff(cfg: Config, anchor: Root, s: StoreView)
    requires Inv(cfg, anchor, s)
    ensures Ordered(s.blocks) && anchor in s.blocks
    ensures FilteredTree(cfg.preset, s).Some? <==>
      && s.justified.root in s.blocks
      && s.blocks[anchor].slot <= cfg.preset.StartSlot(s.finalized.epoch)
  {
    hide Checked, ViableBelow;
    if s.justified.root in s.blocks {
      CheckedIff(cfg, anchor, s, s.justified.root);
    }
  }

  lemma CheckedIff(cfg: Config, anchor: Root, s: StoreView, top: Root)
    requires Shape(cfg, anchor, s) && top in s.blocks
    ensures Ordered(s.blocks) && anchor in s.blocks
    ensures Checked(cfg.preset, s, top) <==> s.blocks[anchor].slot <= cfg.preset.StartSlot(s.finalized.epoch)
  {
    hide TipPasses, CurrentSlot, ChildRoots, Descends, Ordered, Preset.StartSlot;
    forall tip | Tip(s.blocks, tip, top)
      ensures TipPasses(cfg.preset, s, tip).Some? <==>
        s.blocks[anchor].slot <= cfg.preset.StartSlot(s.finalized.epoch)
    {
      DescendsIsStored(s.blocks, tip, top);
      TipCheckedIff(cfg, anchor, s, tip);
    }
    var tip := SomeTip(s.blocks, top);
  }

  lemma DescendsIsStored(blocks: Blocks, low: Root, top: Root)
    requires Ordered(blocks) && Descends(blocks, low, top)
    ensures low in blocks
  {
  }

  // ---------------------------------------------------------------------------
  // Which keys can be read
  // ---------------------------------------------------------------------------

  /** Whether the boost applies can be told. */
  ghost predicate BoostKnown(cfg: Config, s: StoreView, state: BeaconState)
    requires Readable(s)
  {
    s.boostRoot == ZERO_ROOT ||
    (&& s.boostRoot in s.blocks && s.blocks[s.boostRoot].parentRoot in s.blocks
     && var parent, slot := s.blocks[s.boostRoot].parentRoot, s.blocks[s.boostRoot].slot;
        IsNextSlot(s.blocks[parent].slot, slot) ==>
          && CommitteesOf(cfg, s, parent).Some?
          && AllOffendersKnown(s, state, CommitteesOf(cfg, s, parent).value)
          && ActiveStake(cfg.preset, state) <= U64_MAX
          && SlotShare(cfg.preset, state) * 20 <= U64_MAX
          && HeadStake(cfg, s, state, parent, CommitteesOf(cfg, s, parent).value) <= U64_MAX)
  }

  lemma BoostKnownIff(cfg: Config, s: StoreView, anchor: Root, state: BeaconState)
    requires Readable(s) && Rooted(s.blocks, anchor) && MessagesKnown(s) && JustifiedState(s) == Some(state)
    ensures BoostApplies(cfg, s).Some? <==> BoostKnown(cfg, s, state)
  {
    hide HeadWeak, HeadStake, CommitteesOf, AllOffendersKnown, ActiveStake, SlotShare, Rooted, MessagesKnown, Ordered;
    hide IsRival, CommitteeShare;
    if s.boostRoot != ZERO_ROOT && s.boostRoot in s.blocks && s.blocks[s.boostRoot].parentRoot in s.blocks {
      HeadWeakMeaning(cfg, s, anchor, state, s.blocks[s.boostRoot].parentRoot);
    }
  }

  ghost predicate IsDecision(cfg: Config, s: StoreView, node: Node)
    requires node.root in s.blocks
  {
    node.status != Pending && IsNextSlot(s.blocks[node.root].slot, CurrentSlot(cfg.preset, s))
  }

  /** The weight of a node that is no decision: a cached state, a known boost, and sums that fit. */
  ghost predicate WeightKnown(cfg: Config, s: StoreView, node: Node)
    requires Readable(s) && node.root in s.blocks
  {
    && JustifiedState(s).Some?
    && var state := JustifiedState(s).value;
       var stake := Backing(cfg.preset, s, state, node);
       && stake <= U64_MAX && BoostKnown(cfg, s, state)
       && (Boosted(cfg, s, state) && OnBranch(s.blocks, Node(s.boostRoot, Pending), node) ==>
             && ActiveStake(cfg.preset, state) <= U64_MAX
             && SlotShare(cfg.preset, state) * 40 <= U64_MAX
             && stake + CommitteeShare(cfg.preset, state, 40) <= U64_MAX)
  }

  lemma WeightKnownIff(cfg: Config, s: StoreView, anchor: Root, node: Node)
    requires Readable(s) && Rooted(s.blocks, anchor) && MessagesKnown(s) && node.root in s.blocks
    requires !IsDecision(cfg, s, node)
    ensures NodeWeight(cfg, s, node).Some? <==> WeightKnown(cfg, s, node)
  {
    hide AttestationScore, BoostApplies, IsAncestor, CommitteeFraction, OnBranch, Backing, Boosted, BoostKnown;
    hide CommitteeShare, ActiveStake, SlotShare, CurrentSlot, Rooted, MessagesKnown, Ordered;
    if JustifiedState(s).Some? {
      var state := JustifiedState(s).value;
      ScoreMeaning(cfg.preset, s, anchor, state, node);
      FractionIsShare(cfg.preset, state, 40);
      BoostKnownIff(cfg, s, anchor, state);
      if BoostApplies(cfg, s).Some? {
        BoostMeaning(cfg, s, anchor, state);
        if BoostApplies(cfg, s).value {
          BoostedIsStored(cfg, s, state);
          IsAncestorMeaning(s.blocks, anchor, Node(s.boostRoot, Pending), node);
        }
      }
    }
  }

  /** The rank of a decision can be read unless it is the anchor's full branch. */
  lemma RankKnown(cfg: Config, anchor: Root, s: StoreView, node: Node)
    requires node.root in s.blocks && (node.status == Full ==> node.root in s.payloads)
    requires s.timelinessVotes.Keys == s.blocks.Keys - {anchor} && s.availabilityVotes.Keys == s.blocks.Keys - {anchor}
    requires s.boostRoot != ZERO_ROOT ==> s.boostRoot in s.blocks && s.boostRoot != anchor
    requires forall r :: r in s.blocks && r != anchor ==> s.blocks[r].parentRoot in s.blocks
    ensures StatusRank(cfg.preset, s, node).Some? <==>
      (IsDecision(cfg, s, node) && node.status == Full ==> node.root != anchor)
  {
    hide CurrentSlot, VotesClear;
  }

  /** What a key needs, in every store of a run. */
  lemma KeyKnownIff(cfg: Config, anchor: Root, s: StoreView, node: Node)
    requires Inv(cfg, anchor, s) && node.root in s.blocks && (node.status == Full ==> node.root in s.payloads)
    ensures Readable(s)
    ensures SelectionKey(cfg, s, node).Some? <==>
      if IsDecision(cfg, s, node) then node.status == Full ==> node.root != anchor
      else WeightKnown(cfg, s, node)
  {
    hide NodeWeight, StatusRank, WeightKnown, CurrentSlot, MessagesSound, StatesDerived, ColumnsSound, EnvelopesSound;
    InvIsReadable(cfg, anchor, s);
    MessagesSoundAreKnown(cfg, s);
    hide Ordered;
    RankKnown(cfg, anchor, s, node);
    if IsDecision(cfg, s, node) {
      DecisionHasWeight(cfg, s, node);
    } else {
      WeightKnownIff(cfg, s, anchor, node);
    }
  }

  lemma DecisionHasWeight(cfg: Config, s: StoreView, node: Node)
    requires Readable(s) && node.root in s.blocks && IsDecision(cfg, s, node)
    ensures NodeWeight(cfg, s, node) == Some(0)
  {
    hide CurrentSlot, Ordered;
  }

  /**
    * In every store of a run there is a head if the justified block is stored and its
    * state cached, finality has caught up with the anchor, the boost can be told, the
    * stake fits 64 bits with the boost on top, and the clock is not in the slot right
    * after an anchor whose payload is recorded.
    */
  lemma HeadExists(cfg: Config, anchor: Root, s: StoreView, state: BeaconState)
    requires Inv(cfg, anchor, s) && Readable(s) && anchor in s.blocks && s.justified.root in s.blocks
    requires s.blocks[anchor].slot <= cfg.preset.StartSlot(s.finalized.epoch)
    requires JustifiedState(s) == Some(state) && BoostKnown(cfg, s, state)
    requires VotingStake(cfg.preset, state)
      + CommitteeShare(cfg.preset, state, 40) <= U64_MAX
    requires ActiveStake(cfg.preset, state) <= U64_MAX
    requires SlotShare(cfg.preset, state) * 40 <= U64_MAX
    requires anchor in s.payloads ==> !IsNextSlot(s.blocks[anchor].slot, CurrentSlot(cfg.preset, s))
    ensures Head(cfg, s).Some?
  {
    hide Inv, FilteredTree, Head, SelectionKey, Children, TreeUnder, Heaviest, CurrentSlot, BoostKnown, Readable;
    hide VotingStake, CommitteeShare, ActiveStake, SlotShare, JustifiedState, Ordered;
    HeadExistsIff(cfg, s);
    ReadableIsOrdered(s);
    FilterSucceedsIff(cfg, anchor, s);
    var tree, top := FilteredTree(cfg.preset, s).value, s.justified.root;
    FilteredIsTree(cfg.preset, s, tree);
    TopIsStored(s, tree, top);
    forall p | IsPartWalk(cfg, s, tree, p)
      ensures AllReadable(cfg, s, Children(s, tree, p[|p| - 1]))
    {
      HeadAlong(cfg, s, tree, top, p);
      forall n | n in Children(s, tree, p[|p| - 1])
        ensures SelectionKey(cfg, s, n).Some?
      {
        StepGoesDeeper(s, tree, top, p[|p| - 1], n);
        FullChildIsRecorded(s, tree, p[|p| - 1], n);
        AnyKeyKnown(cfg, anchor, s, state, n);
      }
    }
  }

  lemma FullChildIsRecorded(s: StoreView, tree: Blocks, node: Node, child: Node)
    requires child in Children(s, tree, node)
    ensures child.status == Full ==> child.root in s.payloads
  {
  }

  lemma AnyKeyKnown(cfg: Config, anchor: Root, s: StoreView, state: BeaconState, node: Node)
    requires Inv(cfg, anchor, s) && Readable(s)
    requires JustifiedState(s) == Some(state) && BoostKnown(cfg, s, state)
    requires VotingStake(cfg.preset, state)
      + CommitteeShare(cfg.preset, state, 40) <= U64_MAX
    requires ActiveStake(cfg.preset, state) <= U64_MAX
    requires SlotShare(cfg.preset, state) * 40 <= U64_MAX
    requires anchor in s.blocks && node.root in s.blocks && (node.status == Full ==> node.root in s.payloads)
    requires anchor in s.payloads ==> !IsNextSlot(s.blocks[anchor].slot, CurrentSlot(cfg.preset, s))
    ensures SelectionKey(cfg, s, node).Some?
  {
    hide Inv, SelectionKey, CurrentSlot, BoostKnown, VotingStake, Backing, CommitteeShare, ActiveStake, SlotShare;
    hide Boosted, OnBranch, Ordered;
    KeyKnownIff(cfg, anchor, s, node);
    BackingWithinVoting(cfg.preset, s, state, node);
  }
}
