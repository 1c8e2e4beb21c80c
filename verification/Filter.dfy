/**
  * Pruning the block tree. The source recurses over children and inserts into a map;
  * `Viable` says which blocks that recursion keeps without mentioning recursion.
  */
module Filter {
  import opened Primitives
  import opened ForkChoiceTypes
  import opened Ancestry
  import opened Clock

  const GENESIS_EPOCH: Epoch := 0

  /** The justified checkpoint a block votes from. */
  function VotingSource(preset: Preset, s: StoreView, root: Root): Option<Checkpoint> {
    if root !in s.blocks then None
    else if CurrentEpoch(preset, s) > preset.Epoch(s.blocks[root].slot) then
      if root in s.unrealizedJustifications then Some(s.unrealizedJustifications[root]) else None
    else if root in s.blockStates then Some(s.blockStates[root].currentJustified) else None
  }

  /** The two checks made on a block without children. */
  function TipPasses(preset: Preset, s: StoreView, root: Root): Option<bool>
    requires Ordered(s.blocks)
  {
    var source :- VotingSource(preset, s, root);
    var finalizedBlock :- CheckpointBlock(preset, s.blocks, root, s.finalized.epoch);
    var correctJustified :=
      || s.justified.epoch == GENESIS_EPOCH
      || source.epoch == s.justified.epoch
      || SaturatingAdd(source.epoch, 2) >= CurrentEpoch(preset, s);
    var correctFinalized :=
      s.finalized.epoch == GENESIS_EPOCH || s.finalized.root == finalizedBlock;
    Some(correctJustified && correctFinalized)
  }

  function ChildRoots(blocks: Blocks, root: Root): set<Root> {
    set r | r in blocks && blocks[r].parentRoot == root
  }

  /** A block without children at or below `top`. */
  ghost predicate Tip(blocks: Blocks, tip: Root, top: Root)
    requires Ordered(blocks)
  {
    Descends(blocks, tip, top) && ChildRoots(blocks, tip) == {}
  }

  /** Every tip at or below `top` could be checked. */
  ghost predicate Checked(preset: Preset, s: StoreView, top: Root)
    requires Ordered(s.blocks)
  {
    forall tip :: Tip(s.blocks, tip, top) ==> TipPasses(preset, s, tip).Some?
  }

  /** Some tip at or below `root` passes both checks. */
  ghost predicate Viable(preset: Preset, s: StoreView, root: Root)
    requires Ordered(s.blocks)
  {
    exists tip :: Tip(s.blocks, tip, root) && TipPasses(preset, s, tip) == Some(true)
  }

  ghost predicate BelowAny(blocks: Blocks, r: Root, tops: set<Root>)
    requires Ordered(blocks)
  {
    exists top :: top in tops && Descends(blocks, r, top)
  }

  /** The viable blocks at or below one of `tops`. */
  ghost function ViableBelow(preset: Preset, s: StoreView, tops: set<Root>): (kept: Blocks)
    requires Ordered(s.blocks)
  {
    map r | r in s.blocks && BelowAny(s.blocks, r, tops) && Viable(preset, s, r) :: s.blocks[r]
  }

  /**
    * The filtered tree: the viable blocks at or below the justified one. Refused iff the
    * justified block is unknown or the check of some tip below it is.
    */
  ghost function FilteredTree(preset: Preset, s: StoreView): Option<Blocks>
    requires Ordered(s.blocks)
  {
    if s.justified.root in s.blocks && Checked(preset, s, s.justified.root)
    then Some(ViableBelow(preset, s, {s.justified.root})) else None
  }

  /** How many blocks sit above a slot: what the recursion uses up. */
  ghost function SlotsAbove(blocks: Blocks, slot: nat): nat {
    |set r | r in blocks && blocks[r].slot > slot|
  }

  lemma FewerAbove(blocks: Blocks, high: Root, low: Root)
    requires high in blocks && low in blocks && blocks[high].slot < blocks[low].slot
    ensures SlotsAbove(blocks, blocks[low].slot) < SlotsAbove(blocks, blocks[high].slot)
  {
    var above := set r | r in blocks && blocks[r].slot > blocks[high].slot;
    var below := set r | r in blocks && blocks[r].slot > blocks[low].slot;
    assert low in above && low !in below && below <= above;
    assert |above - below| > 0 by {
      assert low in above - below;
    }
    assert |above| == |below| + |above - below|;
  }

  lemma ChildIsLower(blocks: Blocks, root: Root, child: Root)
    requires Ordered(blocks) && root in blocks && child in ChildRoots(blocks, root)
    ensures child in blocks
    ensures SlotsAbove(blocks, blocks[child].slot) < SlotsAbove(blocks, blocks[root].slot)
  {
    FewerAbove(blocks, root, child);
  }

  /** A block is below `top` iff it is `top` or below one of `top`'s children. */
  lemma DescendsSplits(blocks: Blocks, low: Root, top: Root)
    requires Ordered(blocks) && top in blocks
    ensures Descends(blocks, low, top) <==> low == top || BelowAny(blocks, low, ChildRoots(blocks, top))
  {
    if Descends(blocks, low, top) && low != top {
      var c := Through(blocks, low, top);
      assert c in ChildRoots(blocks, top);
    }
    forall c | c in ChildRoots(blocks, top) && Descends(blocks, low, c)
      ensures Descends(blocks, low, top)
    {
      DescendsTransitive(blocks, low, c, top);
    }
  }

  /** The tips below a block are the tips below its children, or the block itself. */
  lemma TipsSplit(blocks: Blocks, root: Root)
    requires Ordered(blocks) && root in blocks
    ensures forall tip :: Tip(blocks, tip, root) <==>
      (tip == root && ChildRoots(blocks, root) == {}) ||
      exists c :: c in ChildRoots(blocks, root) && Tip(blocks, tip, c)
  {
    forall tip
      ensures Tip(blocks, tip, root) <==>
        (tip == root && ChildRoots(blocks, root) == {}) ||
        exists c :: c in ChildRoots(blocks, root) && Tip(blocks, tip, c)
    {
      DescendsSplits(blocks, tip, root);
    }
  }

  /** An inner block is viable iff a child is; a tip iff it passes its own checks. */
  lemma ViableSplits(preset: Preset, s: StoreView, root: Root)
    requires Ordered(s.blocks) && root in s.blocks
    ensures ChildRoots(s.blocks, root) == {} ==>
      && (Checked(preset, s, root) <==> TipPasses(preset, s, root).Some?)
      && (Viable(preset, s, root) <==> TipPasses(preset, s, root) == Some(true))
    ensures ChildRoots(s.blocks, root) != {} ==>
      && (Checked(preset, s, root) <==>
           forall c :: c in ChildRoots(s.blocks, root) ==> Checked(preset, s, c))
      && (Viable(preset, s, root) <==>
           exists c :: c in ChildRoots(s.blocks, root) && Viable(preset, s, c))
  {
    hide TipPasses, Tip;
    TipsSplit(s.blocks, root);
  }

  lemma ViableBelowNothing(preset: Preset, s: StoreView)
    requires Ordered(s.blocks)
    ensures ViableBelow(preset, s, {}) == map[]
  {
  }

  lemma ViableBelowGrows(preset: Preset, s: StoreView, tops: set<Root>, top: Root)
    requires Ordered(s.blocks)
    ensures ViableBelow(preset, s, tops + {top}) ==
      ViableBelow(preset, s, tops) + ViableBelow(preset, s, {top})
  {
    hide Descends, Viable;
    forall r | r in s.blocks
      ensures BelowAny(s.blocks, r, tops + {top}) <==>
        BelowAny(s.blocks, r, tops) || BelowAny(s.blocks, r, {top})
    {
      if t :| t in tops && Descends(s.blocks, r, t) {
        assert t in tops + {top};
      }
      assert top in tops + {top};
    }
    hide BelowAny;
  }

  /** What is kept below a block: what is kept below its children, and perhaps itself. */
  lemma ViableBelowSplits(preset: Preset, s: StoreView, root: Root)
    requires Ordered(s.blocks) && root in s.blocks
    ensures ViableBelow(preset, s, {root}) ==
      ViableBelow(preset, s, ChildRoots(s.blocks, root))
      + if Viable(preset, s, root) then map[root := s.blocks[root]] else map[]
  {
    hide Descends, Viable, ChildRoots;
    forall r | r in s.blocks
      ensures BelowAny(s.blocks, r, {root}) <==>
        r == root || BelowAny(s.blocks, r, ChildRoots(s.blocks, root))
    {
      DescendsSplits(s.blocks, r, root);
      assert root in {root};
    }
    hide BelowAny;
  }

  lemma InsertAfterUnion<K, V>(a: map<K, V>, b: map<K, V>, k: K, v: V)
    ensures a + (b + map[k := v]) == (a + b)[k := v]
    ensures a + (b + map[]) == a + b
    ensures a + (map[] + map[k := v]) == a[k := v]
    ensures a + (map[] + map[]) == a
  {
  }

  /**
    * `filter_block_tree`: visits children in any order, adds exactly the viable blocks at
    * or below `root`, and reports whether `root` itself is one of them.
    */
  method FilterBlockTree(preset: Preset, s: StoreView, root: Root, blocks: Blocks)
    returns (viable: Option<bool>, out: Blocks)
    requires Ordered(s.blocks)
    ensures viable.Some? <==> root in s.blocks && Checked(preset, s, root)
    ensures viable.Some? ==> (viable.value <==> Viable(preset, s, root))
    ensures viable.Some? ==> out == blocks + ViableBelow(preset, s, {root})
    decreases if root in s.blocks then SlotsAbove(s.blocks, s.blocks[root].slot) + 1 else 0, 1
  {
    hide *;
    if root !in s.blocks {
      return None, blocks;
    }
    ViableSplits(preset, s, root);
    ViableBelowSplits(preset, s, root);
    InsertAfterUnion(blocks, ViableBelow(preset, s, ChildRoots(s.blocks, root)), root, s.blocks[root]);
    if ChildRoots(s.blocks, root) == {} {
      ViableBelowNothing(preset, s);
      out := blocks;
      viable := TipPasses(preset, s, root);
    } else {
      viable, out := FilterChildren(preset, s, root, blocks);
    }
    if viable == Some(true) {
      out := out[root := s.blocks[root]];
    }
  }

  /** The child loop of `filter_block_tree`. */
  method FilterChildren(preset: Preset, s: StoreView, root: Root, blocks: Blocks)
    returns (anyViable: Option<bool>, out: Blocks)
    requires Ordered(s.blocks) && root in s.blocks
    ensures anyViable.Some? <==>
      forall c :: c in ChildRoots(s.blocks, root) ==> Checked(preset, s, c)
    ensures anyViable.Some? ==> (anyViable.value <==>
      exists c :: c in ChildRoots(s.blocks, root) && Viable(preset, s, c))
    ensures anyViable.Some? ==>
      out == blocks + ViableBelow(preset, s, ChildRoots(s.blocks, root))
    decreases SlotsAbove(s.blocks, s.blocks[root].slot) + 1, 0
  {
    hide *;
    var todo := ChildRoots(s.blocks, root);
    out := blocks;
    var any := false;
    ghost var done: set<Root> := {};
    ViableBelowNothing(preset, s);
    while todo != {}
      invariant todo !! done && todo + done == ChildRoots(s.blocks, root)
      invariant forall c :: c in done ==> Checked(preset, s, c)
      invariant any <==> exists c :: c in done && Viable(preset, s, c)
      invariant out == blocks + ViableBelow(preset, s, done)
      decreases todo
    {
      var child :| child in todo;
      ChildIsLower(s.blocks, root, child);
      ViableBelowGrows(preset, s, done, child);
      var childViable;
      childViable, out := FilterBlockTree(preset, s, child, out);
      if childViable.None? {
        return None, out;
      }
      any := any || childViable.value;
      todo, done := todo - {child}, done + {child};
    }
    anyViable := Some(any);
  }

  method GetFilteredBlockTree(preset: Preset, s: StoreView) returns (kept: Option<Blocks>)
    requires Ordered(s.blocks)
    ensures kept == FilteredTree(preset, s)
  {
    hide Checked, Viable, ViableBelow;
    var viable, out := FilterBlockTree(preset, s, s.justified.root, map[]);
    if viable.None? {
      return None;
    }
    assert map[] + ViableBelow(preset, s, {s.justified.root}) == ViableBelow(preset, s, {s.justified.root});
    kept := Some(out);
  }

  /** A kept block is a stored one, below the justified block, above a passing tip. */
  lemma FilteredMeaning(preset: Preset, s: StoreView, r: Root)
    requires Ordered(s.blocks) && FilteredTree(preset, s).Some?
    ensures r in FilteredTree(preset, s).value <==>
      r in s.blocks && Descends(s.blocks, r, s.justified.root) && Viable(preset, s, r)
    ensures r in FilteredTree(preset, s).value ==> FilteredTree(preset, s).value[r] == s.blocks[r]
  {
    hide Descends, Viable, Checked;
    if Descends(s.blocks, r, s.justified.root) {
      assert s.justified.root in {s.justified.root};
    }
  }

  /** The justified checkpoint a block counts from: unrealized once its epoch is past. */
  ghost predicate CountsFrom(preset: Preset, s: StoreView, tip: Root, source: Checkpoint) {
    tip in s.blocks &&
    if preset.Epoch(s.blocks[tip].slot) < CurrentEpoch(preset, s)
    then tip in s.unrealizedJustifications && s.unrealizedJustifications[tip] == source
    else tip in s.blockStates && s.blockStates[tip].currentJustified == source
  }

  /**
    * A block may lead: past genesis it counts from the store's justified epoch or one of the
    * last two, and the finalized block is the last of its line by the finalized epoch.
    */
  ghost predicate MayLead(preset: Preset, s: StoreView, tip: Root)
    requires Ordered(s.blocks)
  {
    && (exists source ::
          && CountsFrom(preset, s, tip, source)
          && (|| s.justified.epoch == 0 || source.epoch == s.justified.epoch
              || CurrentEpoch(preset, s) <= source.epoch + 2))
    && (s.finalized.epoch == 0 || LastBy(s.blocks, tip, preset.StartSlot(s.finalized.epoch), s.finalized.root))
  }

  lemma PassingTipMayLead(preset: Preset, s: StoreView, tip: Root)
    requires Ordered(s.blocks) && TipPasses(preset, s, tip).Some?
    ensures TipPasses(preset, s, tip).value <==> MayLead(preset, s, tip)
  {
    hide CheckpointBlock, LastBy, Ordered, CurrentEpoch, Preset.StartSlot, Preset.Epoch;
    CheckpointBlockIsLast(preset, s.blocks, tip, s.finalized.epoch, s.finalized.root);
    assert CountsFrom(preset, s, tip, VotingSource(preset, s, tip).value);
  }

  /**
    * What the filter keeps, in plain terms: the blocks at or below the justified one with a
    * childless block at or below them that may lead.
    */
  lemma KeptMeaning(preset: Preset, s: StoreView, r: Root)
    requires Ordered(s.blocks) && FilteredTree(preset, s).Some?
    ensures r in FilteredTree(preset, s).value <==>
      && r in s.blocks && Descends(s.blocks, r, s.justified.root)
      && exists tip :: Descends(s.blocks, tip, r) && MayLead(preset, s, tip)
           && forall c :: c in s.blocks ==> s.blocks[c].parentRoot != tip
  {
    hide FilteredTree, TipPasses, MayLead, Descends, Ordered;
    FilteredMeaning(preset, s, r);
    if r in s.blocks && Descends(s.blocks, r, s.justified.root) {
      forall tip | Descends(s.blocks, tip, r)
        ensures ChildRoots(s.blocks, tip) == {} <==> forall c :: c in s.blocks ==> s.blocks[c].parentRoot != tip
        ensures ChildRoots(s.blocks, tip) == {} ==>
          (TipPasses(preset, s, tip) == Some(true) <==> MayLead(preset, s, tip))
      {
        ChildlessMeans(s.blocks, tip);
        if ChildRoots(s.blocks, tip) == {} {
          FilterChecked(preset, s, r, tip);
          PassingTipMayLead(preset, s, tip);
        }
      }
    }
  }

  lemma ChildlessMeans(blocks: Blocks, tip: Root)
    ensures ChildRoots(blocks, tip) == {} <==> forall c :: c in blocks ==> blocks[c].parentRoot != tip
  {
    if ChildRoots(blocks, tip) == {} {
      forall c | c in blocks
        ensures blocks[c].parentRoot != tip
      {
        assert c !in ChildRoots(blocks, tip);
      }
    }
  }

  lemma FilterChecked(preset: Preset, s: StoreView, r: Root, tip: Root)
    requires Ordered(s.blocks) && FilteredTree(preset, s).Some?
    requires r in s.blocks && Descends(s.blocks, r, s.justified.root) && Tip(s.blocks, tip, r)
    ensures TipPasses(preset, s, tip).Some?
  {
    hide TipPasses, ViableBelow, Ordered, Descends, ChildRoots;
    DescendsTransitive(s.blocks, tip, r, s.justified.root);
    assert Tip(s.blocks, tip, s.justified.root);
  }

  /** The filtered tree is closed upward as far as the justified block. */
  lemma FilteredClosedUpward(preset: Preset, s: StoreView, r: Root)
    requires Ordered(s.blocks) && FilteredTree(preset, s).Some?
    requires r in FilteredTree(preset, s).value && r != s.justified.root
    ensures r in s.blocks && s.blocks[r].parentRoot in FilteredTree(preset, s).value
  {
    FilteredMeaning(preset, s, r);
    var parent := s.blocks[r].parentRoot;
    assert Descends(s.blocks, parent, s.justified.root);
    ViableAbove(preset, s, r, parent);
    FilteredMeaning(preset, s, parent);
  }

  lemma ViableAbove(preset: Preset, s: StoreView, r: Root, parent: Root)
    requires Ordered(s.blocks) && r in s.blocks && parent in s.blocks
    requires s.blocks[r].parentRoot == parent && Viable(preset, s, r)
    ensures Viable(preset, s, parent)
  {
    hide TipPasses;
    var tip :| Tip(s.blocks, tip, r) && TipPasses(preset, s, tip) == Some(true);
    assert Descends(s.blocks, parent, parent);
    DescendsTransitive(s.blocks, tip, r, parent);
    assert Tip(s.blocks, tip, parent);
  }

  /**
    * Once finality is past genesis, every kept block lies on one line with the
    * finalized block: one of the two descends from the other.
    */
  lemma KeptBlocksFollowFinality(preset: Preset, s: StoreView, r: Root)
    requires Ordered(s.blocks) && FilteredTree(preset, s).Some?
    requires r in FilteredTree(preset, s).value && s.finalized.epoch != GENESIS_EPOCH
    ensures s.finalized.root in s.blocks
    ensures Descends(s.blocks, r, s.finalized.root) || Descends(s.blocks, s.finalized.root, r)
  {
    hide FilteredTree, Descends;
    FilteredMeaning(preset, s, r);
    var tip :| Tip(s.blocks, tip, r) && TipPasses(preset, s, tip) == Some(true);
    AncestorDescends(s.blocks, Node(tip, Pending), preset.StartSlot(s.finalized.epoch));
    AncestorsComparable(s.blocks, tip, r, s.finalized.root);
  }
}
