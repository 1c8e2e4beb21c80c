/**
  * Data columns of a block: storing one, and deciding when all of them are there.
  */
module Columns {
  import opened Primitives
  import opened ForkChoiceTypes

  predicate SidecarShapeOk(sidecar: Sidecar, commitments: seq<nat>) {
    && sidecar.index < NUMBER_OF_COLUMNS
    && sidecar.column != []
    && |sidecar.column| == |commitments|
    && |sidecar.column| == |sidecar.kzgProofs|
  }

  /** A sidecar that belongs to `block` and passes both checks against its bid. */
  predicate SidecarBelongs(rules: Rules, root: Root, block: Block, sidecar: Sidecar) {
    && sidecar.beaconBlockRoot == root
    && sidecar.slot == block.slot
    && SidecarShapeOk(sidecar, block.body.bid.commitments)
    && rules.kzgProofsValid(sidecar, block.body.bid.commitments)
  }

  // ---------------------------------------------------------------------------
  // The stored list
  // ---------------------------------------------------------------------------

  ghost predicate Increasing(list: seq<Sidecar>) {
    forall i, j :: 0 <= i < j < |list| ==> list[i].index < list[j].index
  }

  predicate Sorted(list: seq<Sidecar>) {
    forall i, j :: 0 <= i < j < |list| ==> list[i].index <= list[j].index
  }

  ghost predicate DistinctIndices(list: seq<Sidecar>) {
    forall i, j :: 0 <= i < j < |list| ==> list[i].index != list[j].index
  }

  ghost predicate HasIndex(list: seq<Sidecar>, index: nat) {
    exists i :: 0 <= i < |list| && list[i].index == index
  }

  function FindIndex(list: seq<Sidecar>, index: nat): (r: Option<nat>)
    ensures r.Some? ==> r.value < |list| && list[r.value].index == index
    ensures r.None? ==> forall i :: 0 <= i < |list| ==> list[i].index != index
  {
    if list == [] then None
    else if list[0].index == index then Some(0)
    else
      var rest :- FindIndex(list[1..], index);
      Some(rest + 1)
  }

  /** Insert before the first larger entry: one step of a stable sort. */
  function Insert(list: seq<Sidecar>, sidecar: Sidecar): seq<Sidecar> {
    if list == [] then [sidecar]
    else if sidecar.index < list[0].index then [sidecar] + list
    else [list[0]] + Insert(list[1..], sidecar)
  }

  lemma {:induction false} InsertSorts(list: seq<Sidecar>, sidecar: Sidecar)
    requires Sorted(list)
    ensures multiset(Insert(list, sidecar)) == multiset(list) + multiset{sidecar}
    ensures forall x :: x in Insert(list, sidecar) <==> x == sidecar || x in list
    ensures Sorted(Insert(list, sidecar))
  {
    if list != [] {
      assert list == [list[0]] + list[1..];
      if sidecar.index >= list[0].index {
        InsertSorts(list[1..], sidecar);
        SortedCons(list[0], Insert(list[1..], sidecar));
      }
    }
  }

  lemma SortedCons(first: Sidecar, rest: seq<Sidecar>)
    requires Sorted(rest) && forall x :: x in rest ==> first.index <= x.index
    ensures Sorted([first] + rest)
  {
  }

  function SortByIndex(list: seq<Sidecar>): seq<Sidecar> {
    if list == [] then [] else Insert(SortByIndex(list[..|list| - 1]), list[|list| - 1])
  }

  lemma {:induction false} SortByIndexSorts(list: seq<Sidecar>)
    ensures Sorted(SortByIndex(list)) && multiset(SortByIndex(list)) == multiset(list)
    decreases |list|
  {
    if list != [] {
      hide Sorted;
      assert list == list[..|list| - 1] + [list[|list| - 1]];
      SortByIndexSorts(list[..|list| - 1]);
      InsertSorts(SortByIndex(list[..|list| - 1]), list[|list| - 1]);
    }
  }

  /** Replace the entry of the same index or append, then sort. */
  function StoreSidecar(list: seq<Sidecar>, sidecar: Sidecar): seq<Sidecar> {
    var at := FindIndex(list, sidecar.index);
    SortByIndex(if at.Some? then list[at.value := sidecar] else list + [sidecar])
  }

  lemma IndicesStayDistinct(list: seq<Sidecar>, sorted: seq<Sidecar>)
    requires DistinctIndices(list) && multiset(sorted) == multiset(list)
    ensures DistinctIndices(sorted)
  {
    forall i, j | 0 <= i < j < |sorted|
      ensures sorted[i].index != sorted[j].index
    {
      if sorted[i].index == sorted[j].index {
        assert sorted[i] in multiset(list) && sorted[j] in multiset(list);
        SameEntry(list, sorted[i], sorted[j]);
        TwiceMeansTwo(sorted, i, j);
        OnceEach(list, sorted[i]);
      }
    }
  }

  lemma SameEntry(list: seq<Sidecar>, a: Sidecar, b: Sidecar)
    requires DistinctIndices(list) && a in list && b in list && a.index == b.index
    ensures a == b
  {
  }

  lemma TwiceMeansTwo<T>(list: seq<T>, i: nat, j: nat)
    requires i < j < |list| && list[i] == list[j]
    ensures multiset(list)[list[i]] >= 2
  {
    assert list == list[..i] + [list[i]] + list[i + 1..j] + [list[j]] + list[j + 1..];
  }

  lemma {:induction false} OnceEach(list: seq<Sidecar>, x: Sidecar)
    requires DistinctIndices(list)
    ensures multiset(list)[x] <= 1
    decreases |list|
  {
    if list != [] {
      var init, last := list[..|list| - 1], list[|list| - 1];
      assert list == init + [last];
      OnceEach(init, x);
      if x == last {
        assert x !in init;
        assert multiset(init)[x] == 0;
      }
    }
  }

  /**
    * Storing a column keeps the list strictly increasing, puts the column in, keeps every
    * other column, and adds nothing else.
    */
  lemma StoreSidecarKeepsOrder(list: seq<Sidecar>, sidecar: Sidecar)
    requires Increasing(list)
    ensures Increasing(StoreSidecar(list, sidecar))
    ensures forall x :: x in StoreSidecar(list, sidecar) <==> x == sidecar || (x in list && x.index != sidecar.index)
  {
    var at := FindIndex(list, sidecar.index);
    var put := if at.Some? then list[at.value := sidecar] else list + [sidecar];
    var sorted := SortByIndex(put);
    assert DistinctIndices(put);
    SortByIndexSorts(put);
    IndicesStayDistinct(put, sorted);
    forall x
      ensures x in sorted <==> x == sidecar || (x in list && x.index != sidecar.index)
    {
      assert x in sorted <==> x in multiset(sorted);
      assert x in put <==> x in multiset(put);
      assert x in put <==> x == sidecar || (x in list && x.index != sidecar.index) by {
        PutMembers(list, sidecar, x);
      }
    }
  }

  lemma PutMembers(list: seq<Sidecar>, sidecar: Sidecar, x: Sidecar)
    requires Increasing(list)
    ensures var at := FindIndex(list, sidecar.index);
      var put := if at.Some? then list[at.value := sidecar] else list + [sidecar];
      x in put <==> x == sidecar || (x in list && x.index != sidecar.index)
  {
    var at := FindIndex(list, sidecar.index);
    if at.Some? {
      var put := list[at.value := sidecar];
      assert put[at.value] == sidecar;
      if x in list && x.index != sidecar.index {
        var i :| 0 <= i < |list| && list[i] == x;
        assert put[i] == x;
      }
    }
  }

  // ---------------------------------------------------------------------------
  // Completeness and availability
  // ---------------------------------------------------------------------------

  /** Every column index exactly once. */
  ghost predicate Complete(list: seq<Sidecar>) {
    |list| == NUMBER_OF_COLUMNS && DistinctIndices(list)
    && forall i :: 0 <= i < |list| ==> list[i].index < NUMBER_OF_COLUMNS
  }

  /** The scan of the source, marking each index in a table of seen columns. */
  method HasCompleteColumnSet(list: seq<Sidecar>) returns (complete: bool)
    ensures complete <==> Complete(list)
  {
    if |list| != NUMBER_OF_COLUMNS {
      return false;
    }
    var seen := new bool[NUMBER_OF_COLUMNS](_ => false);
    for i := 0 to |list|
      invariant forall k :: 0 <= k < i ==> list[k].index < NUMBER_OF_COLUMNS
      invariant forall k, l :: 0 <= k < l < i ==> list[k].index != list[l].index
      invariant forall c :: 0 <= c < NUMBER_OF_COLUMNS ==> (seen[c] <==> exists k :: 0 <= k < i && list[k].index == c)
    {
      var index := list[i].index;
      if index >= NUMBER_OF_COLUMNS || seen[index] {
        return false;
      }
      seen[index] := true;
    }
    complete := true;
  }

  /** A strictly increasing list of valid columns is complete iff it holds each of them. */
  lemma CompleteMeansAllStored(list: seq<Sidecar>)
    requires Increasing(list) && forall i :: 0 <= i < |list| ==> list[i].index < NUMBER_OF_COLUMNS
    ensures Complete(list) <==> forall c :: 0 <= c < NUMBER_OF_COLUMNS ==> HasIndex(list, c)
  {
    if Complete(list) {
      forall c | 0 <= c < NUMBER_OF_COLUMNS
        ensures HasIndex(list, c)
      {
        IndexAtLeastPosition(list, c);
        IndexAtMostPosition(list, c);
      }
    }
    if forall c :: 0 <= c < NUMBER_OF_COLUMNS ==> HasIndex(list, c) {
      AllStoredIsLong(list, NUMBER_OF_COLUMNS);
      IndexAtLeastPosition(list, |list| - 1);
    }
  }

  lemma {:induction false} IndexAtLeastPosition(list: seq<Sidecar>, i: nat)
    requires Increasing(list) && i < |list|
    ensures list[i].index >= i
  {
    if i > 0 {
      IndexAtLeastPosition(list, i - 1);
    }
  }

  lemma {:induction false} IndexAtMostPosition(list: seq<Sidecar>, i: nat)
    requires Increasing(list) && |list| == NUMBER_OF_COLUMNS && i < |list|
    requires forall k :: 0 <= k < |list| ==> list[k].index < NUMBER_OF_COLUMNS
    ensures list[i].index <= i
    decreases |list| - i
  {
    if i < |list| - 1 {
      IndexAtMostPosition(list, i + 1);
    }
  }

  /** Holding the first `n` indices takes `n` entries. */
  lemma {:induction false} AllStoredIsLong(list: seq<Sidecar>, n: nat)
    requires Increasing(list) && forall c :: 0 <= c < n ==> HasIndex(list, c)
    ensures |list| >= n
    ensures forall c :: 0 <= c < n ==> list[c].index == c
  {
    if n > 0 {
      AllStoredIsLong(list, n - 1);
      assert HasIndex(list, n - 1);
      var i :| 0 <= i < |list| && list[i].index == n - 1;
      IndexAtLeastPosition(list, i);
    }
  }

  /** Whether the payload data of `root` is available. */
  ghost predicate Available(rules: Rules, s: StoreView, root: Root) {
    root in s.blocks
    && (|| s.blocks[root].body.bid.commitments == []
        || (&& root in s.sidecars
            && Complete(s.sidecars[root])
            && forall i :: 0 <= i < |s.sidecars[root]| ==>
                 SidecarBelongs(rules, root, s.blocks[root], s.sidecars[root][i])))
  }

  method IsDataAvailable(rules: Rules, s: StoreView, root: Root) returns (available: bool)
    ensures available <==> Available(rules, s, root)
  {
    if root !in s.blocks {
      return false;
    }
    var block := s.blocks[root];
    if block.body.bid.commitments == [] {
      return true;
    }
    if root !in s.sidecars {
      return false;
    }
    var list := s.sidecars[root];
    var complete := HasCompleteColumnSet(list);
    if !complete {
      return false;
    }
    available := forall i :: 0 <= i < |list| ==> SidecarBelongs(rules, root, block, list[i]);
  }

  /** The columns stored for `root`. */
  function Stored(s: StoreView, root: Root): seq<Sidecar> {
    if root in s.sidecars then s.sidecars[root] else []
  }

  /** Every stored column belongs to its block, and each list is strictly increasing. */
  ghost predicate ColumnsSound(rules: Rules, s: StoreView) {
    forall r :: r in s.sidecars ==>
      && r in s.blocks
      && Increasing(s.sidecars[r])
      && forall i :: 0 <= i < |s.sidecars[r]| ==> SidecarBelongs(rules, r, s.blocks[r], s.sidecars[r][i])
  }

  /** Availability means no blobs were promised, or every column is stored. */
  lemma AvailableMeansAllStored(rules: Rules, s: StoreView, root: Root)
    requires ColumnsSound(rules, s) && root in s.blocks
    ensures Available(rules, s, root) <==>
      || s.blocks[root].body.bid.commitments == []
      || forall c :: 0 <= c < NUMBER_OF_COLUMNS ==> HasIndex(Stored(s, root), c)
  {
    var list := Stored(s, root);
    if root in s.sidecars {
      CompleteMeansAllStored(list);
    } else {
      assert list == [] && !HasIndex(list, 0);
    }
  }

  /** More columns never make data unavailable. */
  lemma AvailabilityMonotone(rules: Rules, s: StoreView, t: StoreView, root: Root)
    requires ColumnsSound(rules, s) && ColumnsSound(rules, t) && root in s.blocks && root in t.blocks
    requires s.blocks[root] == t.blocks[root]
    requires forall c :: HasIndex(Stored(s, root), c) ==> HasIndex(Stored(t, root), c)
    requires Available(rules, s, root)
    ensures Available(rules, t, root)
  {
    hide HasIndex, Available, ColumnsSound, Stored;
    AvailableMeansAllStored(rules, s, root);
    AvailableMeansAllStored(rules, t, root);
  }
}
