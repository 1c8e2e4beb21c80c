/** The decoder as written: offsets collected and validated, then each part decoded. */
module SszDecoder {
  import opened Primitives
  import opened SszBits
  import opened Ssz
  import opened SszTheorems
  import opened SszEncoder

  // ---------------------------------------------------------------------------
  // Where fields lie
  // ---------------------------------------------------------------------------

  lemma {:induction false} SpansSplit(ts: seq<Ty>, k: nat)
    requires k <= |ts|
    ensures Spans(ts) == Spans(ts[..k]) + Spans(ts[k..])
    ensures CountVariable(ts) == CountVariable(ts[..k]) + CountVariable(ts[k..])
  {
    hide Variable, Span;
    if k > 0 {
      assert ts[1..][..k - 1] == ts[..k][1..] && ts[1..][k - 1..] == ts[k..];
      SpansSplit(ts[1..], k - 1);
    } else {
      assert ts[..0] == [] && ts[0..] == ts;
    }
  }

  lemma SpansStep(ts: seq<Ty>, k: nat)
    requires k < |ts|
    ensures Spans(ts[..k + 1]) == Spans(ts[..k]) + Slot(ts[k])
    ensures CountVariable(ts[..k + 1]) == CountVariable(ts[..k]) + if Variable(ts[k]) then 1 else 0
  {
    hide Variable, Span;
    SpansSplit(ts[..k + 1], k);
    assert ts[..k + 1][..k] == ts[..k] && ts[..k + 1][k..] == [ts[k]];
  }

  /** The byte range of field `k`. */
  ghost function RangeOf(ts: seq<Ty>, bounds: seq<nat>, k: nat): (nat, nat)
    requires k < |ts| && |bounds| == CountVariable(ts) + 1
  {
    SpansSplit(ts, k + 1);
    SpansStep(ts, k);
    var at := CountVariable(ts[..k]);
    if Variable(ts[k]) then (bounds[at], bounds[at + 1])
    else (Spans(ts[..k]), Spans(ts[..k]) + Span(ts[k]))
  }

  /** What is left to decode once the first `k` fields are done. */
  ghost function DecodeFrom(ts: seq<Ty>, bytes: seq<Byte>, bounds: seq<nat>, k: nat): Option<seq<Val>>
    requires AllSupported(ts) && Spans(ts) <= |bytes| && k <= |ts|
    requires Monotone(bounds) && |bounds| == CountVariable(ts) + 1 && bounds[|bounds| - 1] == |bytes|
  {
    SpansSplit(ts, k);
    DecodeFields(ts[k..], bytes, Spans(ts[..k]), bounds[CountVariable(ts[..k])..])
  }

  /** An item decoded in front of the rest. */
  ghost function Consed(item: Option<Val>, rest: Option<seq<Val>>): Option<seq<Val>> {
    if item.None? || rest.None? then None else Some([item.value] + rest.value)
  }

  /** Where the remaining fields and bounds start once field `k` is done. */
  lemma NextTail(ts: seq<Ty>, bounds: seq<nat>, k: nat)
    requires k < |ts| && |bounds| == CountVariable(ts) + 1
    ensures ts[k..][1..] == ts[k + 1..] && Spans(ts[..k + 1]) == Spans(ts[..k]) + Slot(ts[k])
    ensures Spans(ts[..k]) + Slot(ts[k]) <= Spans(ts)
    ensures var at := CountVariable(ts[..k]);
      && at < |bounds| && |bounds[at..]| == CountVariable(ts[k..]) + 1
      && (if Variable(ts[k])
          then CountVariable(ts[..k + 1]) == at + 1 < |bounds| && bounds[at..][1..] == bounds[at + 1..]
          else CountVariable(ts[..k + 1]) == at)
  {
    hide Variable, Span, Spans, CountVariable;
    SpansSplit(ts, k);
    SpansSplit(ts, k + 1);
    SpansStep(ts, k);
  }

  /** The first field in front of the others, by its kind. */
  lemma FirstField(ts: seq<Ty>, bytes: seq<Byte>, cursor: nat, bounds: seq<nat>)
    requires ts != [] && AllSupported(ts) && cursor + Spans(ts) <= |bytes|
    requires Monotone(bounds) && |bounds| == CountVariable(ts) + 1 && bounds[|bounds| - 1] == |bytes|
    ensures Variable(ts[0]) ==>
      && |bounds| > 1 && bounds[0] <= bounds[1] <= |bytes|
      && DecodeFields(ts, bytes, cursor, bounds) ==
         Consed(Decode(ts[0], bytes[bounds[0]..bounds[1]]),
                DecodeFields(ts[1..], bytes, cursor + BYTES_PER_LENGTH_OFFSET, bounds[1..]))
    ensures !Variable(ts[0]) ==>
      && cursor + Span(ts[0]) <= |bytes|
      && DecodeFields(ts, bytes, cursor, bounds) ==
         Consed(Decode(ts[0], bytes[cursor..cursor + Span(ts[0])]),
                DecodeFields(ts[1..], bytes, cursor + Span(ts[0]), bounds))
  {
    hide Variable, Span, Decode, Supported;
  }

  lemma DecodeStepVariable(ts: seq<Ty>, bytes: seq<Byte>, bounds: seq<nat>, k: nat)
    requires AllSupported(ts) && Spans(ts) <= |bytes| && k < |ts| && Variable(ts[k])
    requires Monotone(bounds) && |bounds| == CountVariable(ts) + 1 && bounds[|bounds| - 1] == |bytes|
    ensures var (start, end) := RangeOf(ts, bounds, k);
      && start <= end <= |bytes|
      && DecodeFrom(ts, bytes, bounds, k) ==
         Consed(Decode(ts[k], bytes[start..end]), DecodeFrom(ts, bytes, bounds, k + 1))
  {
    hide Variable, Span, Spans, CountVariable, Decode, Supported, DecodeFields;
    NextTail(ts, bounds, k);
    SpansSplit(ts, k);
    var at := CountVariable(ts[..k]);
    FirstField(ts[k..], bytes, Spans(ts[..k]), bounds[at..]);
    assert bounds[at..][0] == bounds[at] && bounds[at..][1] == bounds[at + 1];
  }

  lemma DecodeStepFixed(ts: seq<Ty>, bytes: seq<Byte>, bounds: seq<nat>, k: nat)
    requires AllSupported(ts) && Spans(ts) <= |bytes| && k < |ts| && !Variable(ts[k])
    requires Monotone(bounds) && |bounds| == CountVariable(ts) + 1 && bounds[|bounds| - 1] == |bytes|
    ensures var (start, end) := RangeOf(ts, bounds, k);
      && start <= end <= |bytes|
      && DecodeFrom(ts, bytes, bounds, k) ==
         Consed(Decode(ts[k], bytes[start..end]), DecodeFrom(ts, bytes, bounds, k + 1))
  {
    hide Variable, Span, Spans, CountVariable, Decode, Supported, DecodeFields;
    NextTail(ts, bounds, k);
    SpansSplit(ts, k);
    FirstField(ts[k..], bytes, Spans(ts[..k]), bounds[CountVariable(ts[..k])..]);
  }

  /** Field `k` is decoded from its own range, whatever the others are. */
  lemma DecodeStep(ts: seq<Ty>, bytes: seq<Byte>, bounds: seq<nat>, k: nat)
    requires AllSupported(ts) && Spans(ts) <= |bytes| && k < |ts|
    requires Monotone(bounds) && |bounds| == CountVariable(ts) + 1 && bounds[|bounds| - 1] == |bytes|
    ensures var (start, end) := RangeOf(ts, bounds, k);
      && start <= end <= |bytes|
      && DecodeFrom(ts, bytes, bounds, k) ==
         Consed(Decode(ts[k], bytes[start..end]), DecodeFrom(ts, bytes, bounds, k + 1))
  {
    hide Variable, Span, Spans, CountVariable, Decode, Supported, RangeOf, DecodeFrom, Monotone;
    if Variable(ts[k]) {
      DecodeStepVariable(ts, bytes, bounds, k);
    } else {
      DecodeStepFixed(ts, bytes, bounds, k);
    }
  }

  lemma DecodeFromStart(ts: seq<Ty>, bytes: seq<Byte>, bounds: seq<nat>)
    requires AllSupported(ts) && Spans(ts) <= |bytes|
    requires Monotone(bounds) && |bounds| == CountVariable(ts) + 1 && bounds[|bounds| - 1] == |bytes|
    ensures DecodeFrom(ts, bytes, bounds, 0) == DecodeFields(ts, bytes, 0, bounds)
    ensures DecodeFrom(ts, bytes, bounds, |ts|) == Some([])
  {
    hide Variable, Span, Decode, Supported;
    assert ts[0..] == ts && ts[..0] == [] && bounds[0..] == bounds;
  }

  // ---------------------------------------------------------------------------
  // Offsets
  // ---------------------------------------------------------------------------

  /** `validate_variable_offsets`: the bounds of the variable parts. */
  method ValidateVariableOffsets(offsets: seq<nat>, fixedEnd: nat, length: nat) returns (bounds: Option<seq<nat>>)
    ensures bounds == ValidBounds(offsets, fixedEnd, length)
  {
    assert offsets == [] ==> offsets + [length] == [length];
    assert offsets != [] ==> (offsets + [length])[0] == offsets[0] && (offsets + [length])[|offsets|] == length;
    if offsets == [] {
      return if fixedEnd != length then None else Some([length]);
    }
    var first := offsets[0];
    if first != fixedEnd || first > length {
      return None;
    }
    var collected, previous := [first], first;
    for i := 1 to |offsets|
      invariant collected == offsets[..i] && previous == offsets[i - 1] <= length
      invariant forall a, b :: 0 <= a <= b < i ==> offsets[a] <= offsets[b]
    {
      var offset := offsets[i];
      if offset < previous || offset > length {
        assert (offsets + [length])[i] == offset && (offsets + [length])[i - 1] == previous;
        return None;
      }
      collected := collected + [offset];
      previous := offset;
    }
    assert collected == offsets;
    bounds := Some(collected + [length]);
  }

  /** Offsets read so far, completed by those still to be read. */
  ghost function Prefixed(offsets: seq<nat>, rest: Option<seq<nat>>): Option<seq<nat>> {
    if rest.None? then None else Some(offsets + rest.value)
  }

  lemma NextOffset(ts: seq<Ty>, bytes: seq<Byte>, k: nat, cursor: nat, offsets: seq<nat>)
    requires k < |ts|
    ensures Prefixed(offsets, ReadOffsets(ts[k..], bytes, cursor)) ==
      if cursor + Slot(ts[k]) > |bytes| then None
      else if Variable(ts[k]) then
        Prefixed(offsets + [ReadOffsetAt(bytes, cursor).value], ReadOffsets(ts[k + 1..], bytes, cursor + Slot(ts[k])))
      else Prefixed(offsets, ReadOffsets(ts[k + 1..], bytes, cursor + Slot(ts[k])))
  {
    hide Variable, Span, FromLe;
    assert ts[k..][1..] == ts[k + 1..];
    if cursor + Slot(ts[k]) <= |bytes| && Variable(ts[k]) {
      var rest := ReadOffsets(ts[k + 1..], bytes, cursor + BYTES_PER_LENGTH_OFFSET);
      if rest.Some? {
        var offset := ReadOffsetAt(bytes, cursor).value;
        assert offsets + ([offset] + rest.value) == offsets + [offset] + rest.value;
      }
    }
  }

  lemma OffsetsEnds(ts: seq<Ty>, bytes: seq<Byte>, cursor: nat, offsets: seq<nat>)
    ensures ts[0..] == ts && Prefixed([], ReadOffsets(ts, bytes, 0)) == ReadOffsets(ts, bytes, 0)
    ensures Prefixed(offsets, ReadOffsets(ts[|ts|..], bytes, cursor)) == Some(offsets)
  {
    assert offsets + [] == offsets;
    var r := ReadOffsets(ts, bytes, 0);
    if r.Some? {
      assert [] + r.value == r.value;
    }
  }

  // ---------------------------------------------------------------------------
  // Containers
  // ---------------------------------------------------------------------------

  /** The ranges a decoder will use, as `container_field_ranges` resolves them. */
  ghost function FieldRanges(ts: seq<Ty>, bytes: seq<Byte>): (r: Option<seq<(nat, nat)>>)
    ensures r.Some? ==> |r.value| == |ts|
  {
    var offsets :- ReadOffsets(ts, bytes, 0);
    var bounds :- ValidBounds(offsets, Spans(ts), |bytes|);
    Some(seq(|ts|, k requires 0 <= k < |ts| => RangeOf(ts, bounds, k)))
  }

  /** The fixed fields' ranges are in the table. */
  ghost predicate FixedPlaced(ts: seq<Ty>, table: seq<(nat, nat)>, k: nat) {
    |table| == |ts| && k <= |ts|
    && forall i :: 0 <= i < k && !Variable(ts[i]) ==> table[i] == (Spans(ts[..i]), Spans(ts[..i]) + Span(ts[i]))
  }

  /** `fields` lists the variable fields among the first `k`, in order. */
  ghost predicate VariableNoted(ts: seq<Ty>, fields: seq<nat>, k: nat) {
    && k <= |ts| && |fields| == CountVariable(ts[..k])
    && (forall i :: 0 <= i < k && Variable(ts[i]) ==>
          CountVariable(ts[..i]) < |fields| && fields[CountVariable(ts[..i])] == i)
    && (forall j :: 0 <= j < |fields| ==>
          fields[j] < k && Variable(ts[fields[j]]) && CountVariable(ts[..fields[j]]) == j)
  }

  lemma NoteNext(ts: seq<Ty>, fields: seq<nat>, k: nat)
    requires VariableNoted(ts, fields, k) && k < |ts|
    ensures VariableNoted(ts, if Variable(ts[k]) then fields + [k] else fields, k + 1)
  {
    hide Variable, Span, Spans, CountVariable;
    SpansStep(ts, k);
  }

  lemma PlaceNext(ts: seq<Ty>, before: seq<(nat, nat)>, after: seq<(nat, nat)>, k: nat)
    requires FixedPlaced(ts, before, k) && k < |ts| && |after| == |ts|
    requires forall i :: 0 <= i < k ==> after[i] == before[i]
    requires !Variable(ts[k]) ==> after[k] == (Spans(ts[..k]), Spans(ts[..k]) + Span(ts[k]))
    ensures FixedPlaced(ts, after, k + 1)
  {
    hide Variable, Span, Spans;
  }

  /** Walk the fixed section: place fixed fields, note variable ones and their offsets. */
  method WalkFixedSection(bytes: seq<Byte>, ts: seq<Ty>, table: array<(nat, nat)>)
    returns (walked: Option<(nat, seq<nat>, seq<nat>)>)
    requires table.Length == |ts|
    modifies table
    ensures walked.None? <==> ReadOffsets(ts, bytes, 0).None?
    ensures walked.Some? ==>
      && walked.value.0 == Spans(ts) && Some(walked.value.2) == ReadOffsets(ts, bytes, 0)
      && VariableNoted(ts, walked.value.1, |ts|) && FixedPlaced(ts, table[..], |ts|)
  {
    hide Variable, Span, Spans, CountVariable, ReadOffsets, ReadOffsetAt, FixedPlaced, VariableNoted;
    var cursor: nat := 0;
    var fields: seq<nat>, offsets: seq<nat> := [], [];
    OffsetsEnds(ts, bytes, 0, []);
    NothingBefore(ts, table[..]);
    for k := 0 to |ts|
      invariant cursor == Spans(ts[..k]) && VariableNoted(ts, fields, k) && FixedPlaced(ts, table[..], k)
      invariant Prefixed(offsets, ReadOffsets(ts[k..], bytes, cursor)) == ReadOffsets(ts, bytes, 0)
    {
      NextOffset(ts, bytes, k, cursor, offsets);
      SpansStep(ts, k);
      if cursor + Slot(ts[k]) > |bytes| {
        return None;
      }
      NoteNext(ts, fields, k);
      ghost var before := table[..];
      if Variable(ts[k]) {
        OffsetWord(bytes, cursor);
        var offset := ReadOffsetAt(bytes, cursor);
        fields := fields + [k];
        offsets := offsets + [offset.value];
        cursor := cursor + BYTES_PER_LENGTH_OFFSET;
      } else {
        table[k] := (cursor, cursor + Span(ts[k]));
        cursor := cursor + Span(ts[k]);
      }
      PlaceNext(ts, before, table[..], k);
    }
    OffsetsEnds(ts, bytes, cursor, offsets);
    assert ts[..|ts|] == ts;
    walked := Some((cursor, fields, offsets));
  }

  /** Resolve field ranges: walk the fixed section, then place each variable part. */
  method ContainerFieldRanges(bytes: seq<Byte>, ts: seq<Ty>) returns (ranges: Option<seq<(nat, nat)>>)
    ensures ranges == FieldRanges(ts, bytes)
  {
    hide Variable, Span, Spans, CountVariable, ReadOffsets, ValidBounds;
    var table := new (nat, nat)[|ts|](_ => (0, 0));
    var walked := WalkFixedSection(bytes, ts, table);
    if walked.None? {
      return None;
    }
    var (cursor, fields, offsets) := walked.value;
    var bounds := ValidateVariableOffsets(offsets, cursor, |bytes|);
    if bounds.None? {
      return None;
    }
    BoundsLength(offsets, cursor, |bytes|);
    assert ts[..|ts|] == ts;
    for j := 0 to |fields|
      invariant FixedPlaced(ts, table[..], |ts|)
      invariant forall i :: 0 <= i < |ts| && Variable(ts[i]) && CountVariable(ts[..i]) < j ==>
        table[i] == (bounds.value[CountVariable(ts[..i])], bounds.value[CountVariable(ts[..i]) + 1])
    {
      table[fields[j]] := (bounds.value[j], bounds.value[j + 1]);
    }
    ranges := Some(table[..]);
    assert table[..] == FieldRanges(ts, bytes).value;
  }

  lemma NothingBefore(ts: seq<Ty>, table: seq<(nat, nat)>)
    requires |table| == |ts|
    ensures FixedPlaced(ts, table, 0) && VariableNoted(ts, [], 0)
    ensures Spans(ts[..0]) == 0 && CountVariable(ts[..0]) == 0
  {
  }

  lemma BoundsLength(offsets: seq<nat>, fixedEnd: nat, length: nat)
    requires ValidBounds(offsets, fixedEnd, length).Some?
    ensures |ValidBounds(offsets, fixedEnd, length).value| == |offsets| + 1
  {
  }

  /** Decodes fields in order, each from its resolved range. */
  class ContainerDecoder {
    const encoding: seq<Byte>
    const ranges: seq<(nat, nat)>
    var next: nat

    constructor (encoding: seq<Byte>, ranges: seq<(nat, nat)>)
      ensures this.encoding == encoding && this.ranges == ranges && next == 0
    {
      this.encoding := encoding;
      this.ranges := ranges;
      next := 0;
    }

    /** The next field as `t`; refused past the end of the layout. */
    method DeserializeNext(t: Ty) returns (item: Option<Val>)
      requires Supported(t)
      requires forall i :: 0 <= i < |ranges| ==> ranges[i].0 <= ranges[i].1 <= |encoding|
      modifies this
      ensures next == if old(next) < |ranges| then old(next) + 1 else old(next)
      ensures item == if old(next) < |ranges| then Decode(t, encoding[ranges[old(next)].0..ranges[old(next)].1])
                      else None
      decreases Height(t), 1, 0
    {
      hide Decode, Supported;
      if next >= |ranges| {
        return None;
      }
      var (start, end) := ranges[next];
      next := next + 1;
      item := Deserialize(t, encoding[start..end]);
    }
  }

  /** Items decoded so far, completed by those still to be decoded. */
  ghost function Gathered(items: seq<Val>, rest: Option<seq<Val>>): Option<Val> {
    if rest.None? then None else Some(Items(items + rest.value))
  }

  lemma NextItem(ts: seq<Ty>, bytes: seq<Byte>, bounds: seq<nat>, k: nat, items: seq<Val>)
    requires AllSupported(ts) && Spans(ts) <= |bytes| && k < |ts|
    requires Monotone(bounds) && |bounds| == CountVariable(ts) + 1 && bounds[|bounds| - 1] == |bytes|
    ensures var (start, end) := RangeOf(ts, bounds, k);
      && start <= end <= |bytes|
      && var item := Decode(ts[k], bytes[start..end]);
         Gathered(items, DecodeFrom(ts, bytes, bounds, k)) ==
         if item.None? then None else Gathered(items + [item.value], DecodeFrom(ts, bytes, bounds, k + 1))
  {
    hide Variable, Span, Spans, CountVariable, Decode, Supported, DecodeFrom, RangeOf;
    DecodeStep(ts, bytes, bounds, k);
    var rest := DecodeFrom(ts, bytes, bounds, k + 1);
    var (start, end) := RangeOf(ts, bounds, k);
    var item := Decode(ts[k], bytes[start..end]);
    if item.Some? && rest.Some? {
      assert items + ([item.value] + rest.value) == items + [item.value] + rest.value;
    }
  }

  lemma ItemsEnds(ts: seq<Ty>, bytes: seq<Byte>, bounds: seq<nat>, items: seq<Val>)
    requires AllSupported(ts) && Spans(ts) <= |bytes|
    requires Monotone(bounds) && |bounds| == CountVariable(ts) + 1 && bounds[|bounds| - 1] == |bytes|
    ensures DecodeFrom(ts, bytes, bounds, 0) == DecodeFields(ts, bytes, 0, bounds)
    ensures Gathered(items, DecodeFrom(ts, bytes, bounds, |ts|)) == Some(Items(items))
    ensures var whole := DecodeFields(ts, bytes, 0, bounds);
      Gathered([], whole) == if whole.None? then None else Some(Items(whole.value))
  {
    hide Variable, Span, Spans, CountVariable, Decode, Supported, DecodeFrom, DecodeFields;
    DecodeFromStart(ts, bytes, bounds);
    assert items + [] == items;
    var whole := DecodeFields(ts, bytes, 0, bounds);
    if whole.Some? {
      assert [] + whole.value == whole.value;
    }
  }

  /** The bounds a successful walk leads to, and that they suit decoding. */
  lemma BoundsFit(ts: seq<Ty>, bytes: seq<Byte>) returns (bounds: seq<nat>)
    requires FieldRanges(ts, bytes).Some?
    ensures Spans(ts) <= |bytes| && Monotone(bounds)
    ensures |bounds| == CountVariable(ts) + 1 && bounds[|bounds| - 1] == |bytes|
    ensures forall k :: 0 <= k < |ts| ==> FieldRanges(ts, bytes).value[k] == RangeOf(ts, bounds, k)
    ensures AllSupported(ts) ==>
      var whole := DecodeFields(ts, bytes, 0, bounds);
      DecodeAll(ts, bytes) == if whole.None? then None else Some(Items(whole.value))
  {
    hide Variable, Span, Spans, CountVariable, DecodeFields, ReadOffsets, RangeOf, Supported;
    bounds := ValidBounds(ReadOffsets(ts, bytes, 0).value, Spans(ts), |bytes|).value;
  }

  method DeserializeContainer(fields: seq<Ty>, bytes: seq<Byte>) returns (value: Option<Val>)
    requires AllSupported(fields)
    ensures value == DecodeAll(fields, bytes)
    decreases Heights(fields), 2, 0
  {
    hide Variable, Span, Spans, CountVariable, Decode, DecodeFields, DecodeFrom, ReadOffsets, RangeOf, Supported;
    hide FieldRanges;
    var ranges := ContainerFieldRanges(bytes, fields);
    if ranges.None? {
      NoRanges(fields, bytes);
      return None;
    }
    ghost var bounds := BoundsFit(fields, bytes);
    forall i | 0 <= i < |fields|
      ensures ranges.value[i].0 <= ranges.value[i].1 <= |bytes|
    {
      NextItem(fields, bytes, bounds, i, []);
    }
    var decoder := new ContainerDecoder(bytes, ranges.value);
    var items: seq<Val> := [];
    ItemsEnds(fields, bytes, bounds, []);
    for k := 0 to |fields|
      invariant decoder.next == k && decoder.ranges == ranges.value && decoder.encoding == bytes
      invariant Gathered(items, DecodeFrom(fields, bytes, bounds, k)) == DecodeAll(fields, bytes)
    {
      NextItem(fields, bytes, bounds, k, items);
      HeightBelow(fields, k);
      var item := decoder.DeserializeNext(fields[k]);
      if item.None? {
        return None;
      }
      items := items + [item.value];
    }
    ItemsEnds(fields, bytes, bounds, items);
    value := Some(Items(items));
  }

  lemma NoRanges(ts: seq<Ty>, bytes: seq<Byte>)
    requires AllSupported(ts) && FieldRanges(ts, bytes).None?
    ensures DecodeAll(ts, bytes).None?
  {
    hide Spans, CountVariable, DecodeFields, ReadOffsets, RangeOf, Supported;
  }

  // ---------------------------------------------------------------------------
  // Homogeneous sequences
  // ---------------------------------------------------------------------------

  lemma {:induction false} RepeatCounts(elem: Ty, n: nat, k: nat)
    requires k <= n
    ensures Repeat(elem, n)[..k] == Repeat(elem, k) && Repeat(elem, n)[k..] == Repeat(elem, n - k)
    ensures CountVariable(Repeat(elem, k)) == if Variable(elem) then k else 0
    decreases k
  {
    hide Variable;
    if k > 0 {
      RepeatCounts(elem, n, k - 1);
      assert Repeat(elem, k)[1..] == Repeat(elem, k - 1);
      RepeatCounts(elem, k - 1, k - 1);
    }
  }

  /** In a homogeneous sequence part `k` lies between bounds `k` and `k + 1`, or at a stride. */
  lemma RepeatRange(elem: Ty, n: nat, bounds: seq<nat>, k: nat)
    requires k < n && |bounds| == CountVariable(Repeat(elem, n)) + 1
    ensures |bounds| == if Variable(elem) then n + 1 else 1
    ensures RangeOf(Repeat(elem, n), bounds, k) ==
      if Variable(elem) then (bounds[k], bounds[k + 1]) else (k * Span(elem), k * Span(elem) + Span(elem))
  {
    hide Variable, Span, Spans, CountVariable, Repeat;
    RepeatCounts(elem, n, k);
    RepeatCounts(elem, n, n);
    RepeatSpans(elem, k);
  }

  /** A sequence of offsets, then the parts they delimit. */
  method DeserializeVariableItems(elem: Ty, bytes: seq<Byte>, count: nat) returns (value: Option<Val>)
    requires Supported(elem) && Variable(elem)
    ensures value == DecodeAll(Repeat(elem, count), bytes)
    decreases Height(elem), 1, 0
  {
    hide Variable, Span, Spans, CountVariable, Decode, DecodeFields, DecodeFrom, RangeOf, Supported;
    hide FieldRanges, Repeat, DecodeAll, ValidBounds;
    ghost var ts := Repeat(elem, count);
    var offsets := ReadItemOffsets(elem, bytes, count);
    if offsets.None? {
      NoOffsets(ts, bytes);
      return None;
    }
    RepeatSpans(elem, count);
    var bounds := ValidateVariableOffsets(offsets.value, count * BYTES_PER_LENGTH_OFFSET, |bytes|);
    ReadBounds(ts, bytes);
    if bounds.None? {
      return None;
    }
    var items: seq<Val> := [];
    ItemsEnds(ts, bytes, bounds.value, []);
    for k := 0 to count
      invariant Gathered(items, DecodeFrom(ts, bytes, bounds.value, k)) == DecodeAll(ts, bytes)
    {
      NextItem(ts, bytes, bounds.value, k, items);
      RepeatRange(elem, count, bounds.value, k);
      var item := Deserialize(elem, bytes[bounds.value[k]..bounds.value[k + 1]]);
      if item.None? {
        return None;
      }
      items := items + [item.value];
    }
    ItemsEnds(ts, bytes, bounds.value, items);
    value := Some(Items(items));
  }

  method ReadItemOffsets(elem: Ty, bytes: seq<Byte>, count: nat) returns (offsets: Option<seq<nat>>)
    requires Variable(elem)
    ensures offsets == ReadOffsets(Repeat(elem, count), bytes, 0)
  {
    hide Variable, Span, Spans, CountVariable, ReadOffsets, ReadOffsetAt, Repeat;
    ghost var ts := Repeat(elem, count);
    var collected: seq<nat> := [];
    OffsetsEnds(ts, bytes, 0, []);
    for i := 0 to count
      invariant Prefixed(collected, ReadOffsets(ts[i..], bytes, i * BYTES_PER_LENGTH_OFFSET))
             == ReadOffsets(ts, bytes, 0)
    {
      NextOffset(ts, bytes, i, i * BYTES_PER_LENGTH_OFFSET, collected);
      if i * BYTES_PER_LENGTH_OFFSET + BYTES_PER_LENGTH_OFFSET > |bytes| {
        return None;
      }
      OffsetWord(bytes, i * BYTES_PER_LENGTH_OFFSET);
      collected := collected + [ReadOffsetAt(bytes, i * BYTES_PER_LENGTH_OFFSET).value];
    }
    OffsetsEnds(ts, bytes, count * BYTES_PER_LENGTH_OFFSET, collected);
    offsets := Some(collected);
  }

  lemma NoOffsets(ts: seq<Ty>, bytes: seq<Byte>)
    requires AllSupported(ts) && ReadOffsets(ts, bytes, 0).None?
    ensures DecodeAll(ts, bytes).None?
  {
  }

  /** What validating the offsets read leads to. */
  lemma ReadBounds(ts: seq<Ty>, bytes: seq<Byte>)
    requires AllSupported(ts) && ReadOffsets(ts, bytes, 0).Some?
    ensures var bounds := ValidBounds(ReadOffsets(ts, bytes, 0).value, Spans(ts), |bytes|);
      if bounds.None? then DecodeAll(ts, bytes).None?
      else
        && Spans(ts) <= |bytes| && Monotone(bounds.value)
        && |bounds.value| == CountVariable(ts) + 1 && bounds.value[|bounds.value| - 1] == |bytes|
        && var whole := DecodeFields(ts, bytes, 0, bounds.value);
           DecodeAll(ts, bytes) == if whole.None? then None else Some(Items(whole.value))
  {
    hide Spans, CountVariable, DecodeFields, ReadOffsets, Supported;
  }

  /** Equal chunks, one per element. */
  method DeserializeChunks(elem: Ty, bytes: seq<Byte>, count: nat) returns (value: Option<Val>)
    requires Supported(elem) && !Variable(elem) && |bytes| == count * Span(elem)
    ensures value == DecodeAll(Repeat(elem, count), bytes)
    decreases Height(elem), 1, 0
  {
    hide Variable, Span, Spans, CountVariable, Decode, DecodeFields, DecodeFrom, RangeOf, Supported;
    hide FieldRanges, Repeat, DecodeAll, ReadOffsets;
    ghost var ts := Repeat(elem, count);
    ghost var bounds := [|bytes|];
    ChunksNeedNoOffsets(elem, bytes, count);
    var items: seq<Val> := [];
    ItemsEnds(ts, bytes, bounds, []);
    for k := 0 to count
      invariant Gathered(items, DecodeFrom(ts, bytes, bounds, k)) == DecodeAll(ts, bytes)
    {
      NextItem(ts, bytes, bounds, k, items);
      RepeatRange(elem, count, bounds, k);
      var item := Deserialize(elem, bytes[k * Span(elem)..k * Span(elem) + Span(elem)]);
      if item.None? {
        return None;
      }
      items := items + [item.value];
    }
    ItemsEnds(ts, bytes, bounds, items);
    value := Some(Items(items));
  }

  lemma {:induction false} FixedFieldsHaveNoOffsets(elem: Ty, n: nat, bytes: seq<Byte>, cursor: nat)
    requires !Variable(elem) && cursor + n * Span(elem) <= |bytes|
    ensures ReadOffsets(Repeat(elem, n), bytes, cursor) == Some([])
  {
    hide Variable, Span;
    if n > 0 {
      assert n * Span(elem) == (n - 1) * Span(elem) + Span(elem);
      assert Repeat(elem, n)[1..] == Repeat(elem, n - 1);
      FixedFieldsHaveNoOffsets(elem, n - 1, bytes, cursor + Span(elem));
    }
  }

  lemma ChunksNeedNoOffsets(elem: Ty, bytes: seq<Byte>, n: nat)
    requires Supported(elem) && !Variable(elem) && |bytes| == n * Span(elem)
    ensures var ts, bounds := Repeat(elem, n), [|bytes|];
      && Spans(ts) == |bytes| && CountVariable(ts) == 0 && Monotone(bounds)
      && var whole := DecodeFields(ts, bytes, 0, bounds);
         DecodeAll(ts, bytes) == if whole.None? then None else Some(Items(whole.value))
  {
    hide Variable, Span, Spans, CountVariable, DecodeFields, ReadOffsets, Supported, Repeat;
    RepeatSpans(elem, n);
    RepeatCounts(elem, n, n);
    assert Repeat(elem, n)[..n] == Repeat(elem, n);
    FixedFieldsHaveNoOffsets(elem, n, bytes, 0);
    assert [] + [|bytes|] == [|bytes|];
  }

  /** A bounded list: its length is declared by its first offset, or by its size. */
  method DeserializeListItems(elem: Ty, limit: nat, bytes: seq<Byte>) returns (value: Option<Val>)
    requires Supported(elem) && Slot(elem) > 0
    ensures value == Decode(List(elem, limit), bytes)
    decreases Height(elem), 2, 0
  {
    hide Variable, Span, DecodeAll, Repeat, Supported, ReadOffsetAt;
    if Variable(elem) {
      if bytes == [] {
        EmptyDecodes(elem);
        return Some(Items([]));
      }
      var first := ReadOffsetAt(bytes, 0);
      if first.None? || first.value == 0 || first.value % BYTES_PER_LENGTH_OFFSET != 0 {
        return None;
      }
      var count := first.value / BYTES_PER_LENGTH_OFFSET;
      if count > limit {
        return None;
      }
      value := DeserializeVariableItems(elem, bytes, count);
    } else {
      var itemSize := Span(elem);
      if |bytes| % itemSize != 0 {
        return None;
      }
      var count := |bytes| / itemSize;
      if count > limit {
        return None;
      }
      assert |bytes| == count * itemSize;
      value := DeserializeChunks(elem, bytes, count);
    }
  }

  lemma EmptyDecodes(elem: Ty)
    requires Supported(elem)
    ensures DecodeAll(Repeat(elem, 0), []) == Some(Items([]))
  {
    hide Variable, Supported;
    assert [] + [0] == [0];
  }

  /** A vector: its length is part of its type. */
  method DeserializeVectorItems(elem: Ty, length: nat, bytes: seq<Byte>) returns (value: Option<Val>)
    requires Supported(elem) && Slot(elem) > 0
    ensures value == DecodeAll(Repeat(elem, length), bytes)
    decreases Height(elem), 2, 0
  {
    hide Variable, Span, DecodeAll, Repeat, Supported;
    if Variable(elem) {
      if length == 0 {
        NoElements(elem, bytes);
        return if bytes == [] then Some(Items([])) else None;
      }
      value := DeserializeVariableItems(elem, bytes, length);
    } else {
      if |bytes| != length * Span(elem) {
        WrongLength(elem, bytes, length);
        return None;
      }
      value := DeserializeChunks(elem, bytes, length);
    }
  }

  lemma NoElements(elem: Ty, bytes: seq<Byte>)
    requires Supported(elem)
    ensures DecodeAll(Repeat(elem, 0), bytes) == if bytes == [] then Some(Items([])) else None
  {
    hide Variable, Supported;
    assert [] + [|bytes|] == [|bytes|];
  }

  lemma WrongLength(elem: Ty, bytes: seq<Byte>, n: nat)
    requires Supported(elem) && !Variable(elem) && |bytes| != n * Span(elem)
    ensures DecodeAll(Repeat(elem, n), bytes).None?
  {
    hide Variable, Span, Spans, CountVariable, DecodeFields, ReadOffsets, Supported, Repeat;
    RepeatSpans(elem, n);
    RepeatCounts(elem, n, n);
    assert Repeat(elem, n)[..n] == Repeat(elem, n);
    var offsets := ReadOffsets(Repeat(elem, n), bytes, 0);
    if offsets.Some? {
      assert offsets.value == [] && [] + [|bytes|] == [|bytes|];
    }
  }

  // ---------------------------------------------------------------------------
  // Bitfields and basic types
  // ---------------------------------------------------------------------------

  /** Read the bits one by one once the padding is known to be clear. */
  method DeserializeBitvector(bytes: seq<Byte>, length: nat) returns (bits: Option<seq<bool>>)
    ensures bits == UnpackBitvector(bytes, length)
  {
    hide Bit;
    if |bytes| != ByteLen(length) {
      return None;
    }
    if length % 8 != 0 && AnyBitFrom(bytes[|bytes| - 1], length % 8) {
      return None;
    }
    var read := new bool[length](_ => false);
    for i := 0 to length
      invariant forall k :: 0 <= k < i ==> read[k] == BitAt(bytes, k)
    {
      read[i] := BitAt(bytes, i);
    }
    bits := Some(read[..]);
    assert bits.value == UnpackBitvector(bytes, length).value;
  }

  /** Find the delimiter, clear it, and read the bits below it. */
  method DeserializeBitlist(bytes: seq<Byte>, limit: nat) returns (bits: Option<seq<bool>>)
    ensures bits == UnpackBitlist(bytes, limit)
  {
    hide Bit, Pow2, HighBit, ClearBit;
    if bytes == [] || bytes[|bytes| - 1] == 0 {
      return None;
    }
    var last := |bytes| - 1;
    var delimiter := HighBit(bytes[last]);
    ByteBound();
    HighBitBelow(bytes[last], 8);
    var length := last * 8 + delimiter;
    if length > limit {
      return None;
    }
    ClearBitInRange(bytes[last], delimiter);
    var payload := bytes[last := ClearBit(bytes[last], delimiter)];
    var read: seq<bool> := [];
    for i := 0 to length
      invariant |read| == i && forall k :: 0 <= k < i ==> read[k] == BitAt(bytes, k)
    {
      ClearBitClears(bytes[last], delimiter, i % 8);
      read := read + [BitAt(payload, i)];
    }
    bits := Some(read);
    assert bits.value == UnpackBitlist(bytes, limit).value;
  }

  /** Decode a complete byte string as a value of type `t`. */
  method Deserialize(t: Ty, bytes: seq<Byte>) returns (value: Option<Val>)
    requires Supported(t)
    ensures value == Decode(t, bytes)
    decreases Height(t), 0, 0
  {
    hide DecodeAll, FromLe, UnpackBitvector, UnpackBitlist, Variable, Span;
    match t
    case Uint(width) =>
      return if |bytes| != width then None else Some(Number(FromLe(bytes)));
    case Boolean =>
      return if |bytes| != 1 || bytes[0] > 1 then None else Some(Truth(bytes[0] == 1));
    case ByteArray(length) =>
      return if |bytes| != length then None else Some(Blob(bytes));
    case Bitvector(length) =>
      var bits := DeserializeBitvector(bytes, length);
      return if bits.None? then None else Some(Bits(bits.value));
    case Bitlist(limit) =>
      var bits := DeserializeBitlist(bytes, limit);
      return if bits.None? then None else Some(Bits(bits.value));
    case Vector(elem, length) =>
      value := DeserializeVectorItems(elem, length, bytes);
    case List(elem, limit) =>
      value := DeserializeListItems(elem, limit, bytes);
    case Container(fields) =>
      value := DeserializeContainer(fields, bytes);
  }
}
