/**
  * Walking the (root, payload status) tree upward, and what one walk says about
  * another. Everything rests on one property of the block map: a stored block sits
  * in a later slot than its stored parent.
  */
module Ancestry {
  import opened Primitives
  import opened ForkChoiceTypes

  /** Every stored block whose parent is stored comes after that parent. */
  ghost predicate Ordered(blocks: Blocks) {
    forall r {:trigger blocks[blocks[r].parentRoot]} :: r in blocks && blocks[r].parentRoot in blocks ==>
      blocks[blocks[r].parentRoot].slot < blocks[r].slot
  }

  /** `blocks` is one tree: every block but the anchor has its parent stored. */
  ghost predicate Rooted(blocks: Blocks, anchor: Root) {
    && anchor in blocks
    && blocks[anchor].parentRoot !in blocks
    && (forall r {:trigger blocks[r]} :: r in blocks && r != anchor ==> blocks[r].parentRoot in blocks)
  }

  /** The branch of its parent that `child` was built on, read off the two bids. */
  function ParentPayloadStatus(blocks: Blocks, child: Block): Option<PayloadStatus> {
    if child.parentRoot !in blocks then None
    else if child.body.bid.parentBlockHash == blocks[child.parentRoot].body.bid.blockHash then Some(Full)
    else Some(Empty)
  }

  /** The node reached from `node` by following parents down to `slot` or earlier. */
  function Ancestor(blocks: Blocks, node: Node, slot: Slot): Option<Node>
    requires Ordered(blocks)
    decreases if node.root in blocks then blocks[node.root].slot + 1 else 0
  {
    if node.root !in blocks then None
    else
      var block := blocks[node.root];
      if block.slot <= slot then Some(node)
      else
        var status :- ParentPayloadStatus(blocks, block);
        Ancestor(blocks, Node(block.parentRoot, status), slot)
  }

  function IsAncestor(blocks: Blocks, node: Node, ancestor: Node): Option<bool>
    requires Ordered(blocks)
  {
    if ancestor.root !in blocks then None
    else
      var reached :- Ancestor(blocks, node, blocks[ancestor.root].slot);
      Some(reached.root == ancestor.root
           && (reached.status == ancestor.status || ancestor.status == Pending))
  }

  function CheckpointBlock(preset: Preset, blocks: Blocks, root: Root, epoch: Epoch): Option<Root>
    requires Ordered(blocks)
  {
    var reached :- Ancestor(blocks, Node(root, Pending), preset.StartSlot(epoch));
    Some(reached.root)
  }

  /** The loop of the source: it walks to the same node the recursion names. */
  method GetAncestor(blocks: Blocks, node: Node, slot: Slot) returns (r: Option<Node>)
    requires Ordered(blocks)
    ensures r == Ancestor(blocks, node, slot)
  {
    var current := node;
    while true
      invariant Ancestor(blocks, current, slot) == Ancestor(blocks, node, slot)
      decreases if current.root in blocks then blocks[current.root].slot + 1 else 0
    {
      if current.root !in blocks {
        return None;
      }
      var block := blocks[current.root];
      if block.slot <= slot {
        return Some(current);
      }
      var status := ParentPayloadStatus(blocks, block);
      if status.None? {
        return None;
      }
      current := Node(block.parentRoot, status.value);
    }
  }

  // ---------------------------------------------------------------------------
  // Plain block descent: the reference the walks are measured against
  // ---------------------------------------------------------------------------

  /** `low` is `high` or lies below it by parent links. */
  ghost predicate Descends(blocks: Blocks, low: Root, high: Root)
    requires Ordered(blocks)
    decreases if low in blocks then blocks[low].slot + 1 else 0
  {
    low in blocks && (low == high || Descends(blocks, blocks[low].parentRoot, high))
  }

  /**
    * `low`'s line passes through the branch `node`: it is that very node, or it hangs
    * below a child of the block that was built on that branch.
    */
  ghost predicate OnBranch(blocks: Blocks, low: Node, node: Node)
    requires Ordered(blocks)
  {
    if node.status == Pending then Descends(blocks, low.root, node.root)
    else
      || (low == node && low.root in blocks)
      || exists c :: c in blocks && blocks[c].parentRoot == node.root
           && ParentPayloadStatus(blocks, blocks[c]) == Some(node.status)
           && Descends(blocks, low.root, c)
  }

  lemma {:induction false} DescendsLater(blocks: Blocks, low: Root, high: Root)
    requires Ordered(blocks) && Descends(blocks, low, high)
    ensures high in blocks && blocks[high].slot <= blocks[low].slot
    ensures blocks[high].slot == blocks[low].slot ==> low == high
    decreases blocks[low].slot
  {
    if low != high {
      DescendsLater(blocks, blocks[low].parentRoot, high);
    }
  }

  lemma {:induction false} DescendsTransitive(blocks: Blocks, a: Root, b: Root, c: Root)
    requires Ordered(blocks) && Descends(blocks, a, b) && Descends(blocks, b, c)
    ensures Descends(blocks, a, c)
    decreases blocks[a].slot
  {
    if a != b {
      DescendsTransitive(blocks, blocks[a].parentRoot, b, c);
    }
  }

  /** Two blocks above the same block lie on one line. */
  lemma {:induction false} AncestorsComparable(blocks: Blocks, low: Root, a: Root, b: Root)
    requires Ordered(blocks) && Descends(blocks, low, a) && Descends(blocks, low, b)
    ensures Descends(blocks, a, b) || Descends(blocks, b, a)
    decreases blocks[low].slot
  {
    if low != a && low != b {
      AncestorsComparable(blocks, blocks[low].parentRoot, a, b);
    }
  }

  /** In a rooted map every block is below the anchor. */
  lemma {:induction false} AllBelowAnchor(blocks: Blocks, anchor: Root, r: Root)
    requires Ordered(blocks) && Rooted(blocks, anchor) && r in blocks
    ensures Descends(blocks, r, anchor)
    ensures blocks[anchor].slot <= blocks[r].slot
    decreases blocks[r].slot
  {
    if r != anchor {
      AllBelowAnchor(blocks, anchor, blocks[r].parentRoot);
    }
  }

  /** A walk ends at a block it descends from, at or before the slot asked for. */
  lemma {:induction false} AncestorDescends(blocks: Blocks, node: Node, slot: Slot)
    requires Ordered(blocks) && Ancestor(blocks, node, slot).Some?
    ensures var a := Ancestor(blocks, node, slot).value;
      a.root in blocks && Descends(blocks, node.root, a.root) && blocks[a.root].slot <= slot
    decreases blocks[node.root].slot
  {
    if blocks[node.root].slot > slot {
      var status := ParentPayloadStatus(blocks, blocks[node.root]).value;
      AncestorDescends(blocks, Node(blocks[node.root].parentRoot, status), slot);
    }
  }

  /** Walks compose: stopping early at `far` does not change where `near` is reached. */
  lemma {:induction false} AncestorComposes(blocks: Blocks, node: Node, far: Slot, near: Slot)
    requires Ordered(blocks) && near <= far && Ancestor(blocks, node, far).Some?
    ensures Ancestor(blocks, Ancestor(blocks, node, far).value, near) == Ancestor(blocks, node, near)
    decreases blocks[node.root].slot
  {
    if blocks[node.root].slot > far {
      var status := ParentPayloadStatus(blocks, blocks[node.root]).value;
      AncestorComposes(blocks, Node(blocks[node.root].parentRoot, status), far, near);
    }
  }

  /** The status a node carries is forgotten by its first step up. */
  lemma AncestorForgetsStatus(blocks: Blocks, node: Node, status: PayloadStatus, slot: Slot)
    requires Ordered(blocks) && node.root in blocks && slot < blocks[node.root].slot
    ensures Ancestor(blocks, node, slot) == Ancestor(blocks, Node(node.root, status), slot)
  {
  }

  lemma {:induction false} WalkReaches(blocks: Blocks, anchor: Root, node: Node, slot: Slot)
    requires Ordered(blocks) && Rooted(blocks, anchor) && node.root in blocks && blocks[anchor].slot <= slot
    ensures Ancestor(blocks, node, slot).Some?
    decreases blocks[node.root].slot
  {
    if blocks[node.root].slot > slot {
      var block := blocks[node.root];
      WalkReaches(blocks, anchor, Node(block.parentRoot, ParentPayloadStatus(blocks, block).value), slot);
    }
  }

  /** In a rooted map a walk fails exactly when it would have to pass the anchor. */
  lemma AncestorTotal(blocks: Blocks, anchor: Root, node: Node, slot: Slot)
    requires Ordered(blocks) && Rooted(blocks, anchor) && node.root in blocks
    ensures Ancestor(blocks, node, slot).Some? <==> blocks[anchor].slot <= slot
  {
    hide Ancestor, Descends;
    if blocks[anchor].slot <= slot {
      WalkReaches(blocks, anchor, node, slot);
    } else if Ancestor(blocks, node, slot).Some? {
      AncestorDescends(blocks, node, slot);
      AllBelowAnchor(blocks, anchor, Ancestor(blocks, node, slot).value.root);
    }
  }

  lemma IsAncestorTotal(blocks: Blocks, anchor: Root, node: Node, ancestor: Node)
    requires Ordered(blocks) && Rooted(blocks, anchor) && node.root in blocks && ancestor.root in blocks
    ensures IsAncestor(blocks, node, ancestor).Some?
  {
    AllBelowAnchor(blocks, anchor, ancestor.root);
    AncestorTotal(blocks, anchor, node, blocks[ancestor.root].slot);
  }

  /** Below a block, the walk to that block's slot finds that block. */
  lemma {:induction false} WalkFindsAncestor(blocks: Blocks, node: Node, high: Root)
    requires Ordered(blocks) && Descends(blocks, node.root, high)
    ensures high in blocks
    ensures Ancestor(blocks, node, blocks[high].slot).Some?
    ensures Ancestor(blocks, node, blocks[high].slot).value.root == high
    ensures node.root == high ==> Ancestor(blocks, node, blocks[high].slot).value == node
    decreases blocks[node.root].slot
  {
    DescendsLater(blocks, node.root, high);
    if node.root != high {
      var block := blocks[node.root];
      var status := ParentPayloadStatus(blocks, block);
      WalkFindsAncestor(blocks, Node(block.parentRoot, status.value), high);
    }
  }

  /** `d` is the last block of `low`'s line at or before `slot`. */
  ghost predicate LastBy(blocks: Blocks, low: Root, slot: nat, d: Root)
    requires Ordered(blocks)
  {
    && Descends(blocks, low, d) && d in blocks && blocks[d].slot <= slot
    && forall e :: e in blocks && Descends(blocks, low, e) && blocks[e].slot <= slot ==>
         blocks[e].slot <= blocks[d].slot
  }

  /** What a walk finds, said without walking: the last block of the line by that slot. */
  lemma AncestorIsLast(blocks: Blocks, node: Node, slot: Slot, d: Root)
    requires Ordered(blocks) && Ancestor(blocks, node, slot).Some?
    ensures Ancestor(blocks, node, slot).value.root == d <==> LastBy(blocks, node.root, slot, d)
  {
    hide Ancestor, Descends, Ordered;
    var a := Ancestor(blocks, node, slot).value;
    AncestorDescends(blocks, node, slot);
    forall e | e in blocks && Descends(blocks, node.root, e) && blocks[e].slot <= slot
      ensures blocks[e].slot <= blocks[a.root].slot
    {
      WalkFindsAncestor(blocks, node, e);
      AncestorComposes(blocks, node, slot, blocks[e].slot);
      AncestorDescends(blocks, a, blocks[e].slot);
      DescendsLater(blocks, a.root, e);
    }
    if LastBy(blocks, node.root, slot, d) {
      AncestorsComparable(blocks, node.root, a.root, d);
      if Descends(blocks, a.root, d) {
        DescendsLater(blocks, a.root, d);
      } else {
        DescendsLater(blocks, d, a.root);
      }
    }
  }

  lemma {:induction false} WalkStops(blocks: Blocks, node: Node, slot: Slot, d: Root)
    requires Ordered(blocks) && Descends(blocks, node.root, d) && d in blocks && blocks[d].slot <= slot
    ensures Ancestor(blocks, node, slot).Some?
    decreases blocks[node.root].slot
  {
    if blocks[node.root].slot > slot {
      var block := blocks[node.root];
      WalkStops(blocks, Node(block.parentRoot, ParentPayloadStatus(blocks, block).value), slot, d);
    }
  }

  /** The block of a line at a checkpoint is the last one by the checkpoint's first slot. */
  lemma CheckpointBlockIsLast(preset: Preset, blocks: Blocks, root: Root, epoch: Epoch, d: Root)
    requires Ordered(blocks)
    ensures CheckpointBlock(preset, blocks, root, epoch) == Some(d) <==>
      LastBy(blocks, root, preset.StartSlot(epoch), d)
  {
    hide Ancestor, Descends, Ordered;
    if LastBy(blocks, root, preset.StartSlot(epoch), d) {
      WalkStops(blocks, Node(root, Pending), preset.StartSlot(epoch), d);
    }
    if Ancestor(blocks, Node(root, Pending), preset.StartSlot(epoch)).Some? {
      AncestorIsLast(blocks, Node(root, Pending), preset.StartSlot(epoch), d);
    }
  }

  /** The child of `high` through which `low` descends. */
  ghost function Through(blocks: Blocks, low: Root, high: Root): (c: Root)
    requires Ordered(blocks) && Descends(blocks, low, high) && low != high
    ensures c in blocks && blocks[c].parentRoot == high && Descends(blocks, low, c)
    decreases blocks[low].slot
  {
    if blocks[low].parentRoot == high then low
    else Through(blocks, blocks[low].parentRoot, high)
  }

  /** The walk to a proper ancestor carries the branch its child was built on. */
  lemma {:induction false} WalkCarriesBranch(blocks: Blocks, node: Node, high: Root)
    requires Ordered(blocks) && Descends(blocks, node.root, high) && node.root != high
    ensures high in blocks && Ancestor(blocks, node, blocks[high].slot).Some?
    ensures var c := Through(blocks, node.root, high);
      Some(Ancestor(blocks, node, blocks[high].slot).value.status) == ParentPayloadStatus(blocks, blocks[c])
    decreases blocks[node.root].slot
  {
    WalkFindsAncestor(blocks, node, high);
    DescendsLater(blocks, node.root, high);
    var block := blocks[node.root];
    var status := ParentPayloadStatus(blocks, block);
    if block.parentRoot != high {
      WalkCarriesBranch(blocks, Node(block.parentRoot, status.value), high);
    }
  }

  /** Siblings are apart: nothing descends from two children of one block. */
  lemma SiblingsDisjoint(blocks: Blocks, low: Root, a: Root, b: Root)
    requires Ordered(blocks) && a in blocks && b in blocks
    requires blocks[a].parentRoot == blocks[b].parentRoot
    requires Descends(blocks, low, a) && Descends(blocks, low, b)
    ensures a == b
  {
    AncestorsComparable(blocks, low, a, b);
    if a != b {
      var p := blocks[a].parentRoot;
      if Descends(blocks, a, b) {
        DescendsLater(blocks, p, b);
      } else {
        DescendsLater(blocks, p, a);
      }
    }
  }

  /** What `is_ancestor` decides, said without walking. */
  lemma IsAncestorMeaning(blocks: Blocks, anchor: Root, low: Node, node: Node)
    requires Ordered(blocks) && Rooted(blocks, anchor) && low.root in blocks && node.root in blocks
    ensures IsAncestor(blocks, low, node) == Some(OnBranch(blocks, low, node))
  {
    IsAncestorTotal(blocks, anchor, low, node);
    var reached := Ancestor(blocks, low, blocks[node.root].slot).value;
    AncestorDescends(blocks, low, blocks[node.root].slot);
    if Descends(blocks, low.root, node.root) {
      WalkFindsAncestor(blocks, low, node.root);
      if low.root != node.root {
        WalkCarriesBranch(blocks, low, node.root);
        var t := Through(blocks, low.root, node.root);
        forall c | c in blocks && blocks[c].parentRoot == node.root && Descends(blocks, low.root, c)
          ensures c == t
        {
          SiblingsDisjoint(blocks, low.root, c, t);
        }
      } else {
        forall c | c in blocks && blocks[c].parentRoot == node.root
          ensures !Descends(blocks, low.root, c)
        {
          if Descends(blocks, low.root, c) {
            DescendsLater(blocks, low.root, c);
          }
        }
      }
    } else {
      forall c | c in blocks && blocks[c].parentRoot == node.root
        ensures !Descends(blocks, low.root, c)
      {
        if Descends(blocks, low.root, c) {
          DescendsTransitive(blocks, low.root, c, node.root);
        }
      }
    }
  }

  /** `is_ancestor` is transitive across blocks and branches. */
  lemma IsAncestorTransitive(blocks: Blocks, a: Node, b: Node, c: Node)
    requires Ordered(blocks)
    requires IsAncestor(blocks, a, b) == Some(true) && IsAncestor(blocks, b, c) == Some(true)
    ensures IsAncestor(blocks, a, c) == Some(true)
  {
    var sb, sc := blocks[b.root].slot, blocks[c.root].slot;
    AncestorDescends(blocks, b, sc);
    DescendsLater(blocks, b.root, c.root);
    AncestorComposes(blocks, a, sb, sc);
    var reached := Ancestor(blocks, a, sb).value;
    if sc < sb {
      AncestorForgetsStatus(blocks, reached, b.status, sc);
    }
  }
}
