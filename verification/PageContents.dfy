/** The contents half of the paged KV cache: where a cell lies in a page, and what it means for the pages to hold
    the private arrays of the sequences. */
module PageContents {
  import opened Arithmetic
  import opened RefCounts
  import opened PageLedger

  /** A 16-bit floating point bit pattern. */
  newtype Half = x: int | 0 <= x < 0x1_0000

  datatype KVConfig = KVConfig(pages: nat, pageTokens: nat, layers: nat, kvWidth: nat, sequences: nat)

  /** What one sequence's private array holds for one layer at one position. */
  datatype Slot = Unwritten | Written(key: seq<Half>, value: seq<Half>)

  /** Private arrays: sequence, then position, then layer. */
  type Arrays = seq<seq<seq<Slot>>>

  const SIZE_MAX: nat := 0xFFFF_FFFF_FFFF_FFFF

  function PageElements(c: KVConfig): nat {
    2 * c.layers * c.pageTokens * c.kvWidth
  }

  ghost predicate Usable(c: KVConfig) {
    c.pages > 0 && c.pageTokens > 0 && c.layers > 0 && c.kvWidth > 0 && c.sequences > 0
  }

  // ---- the offset formula ---------------------------------------------------

  function Row(c: KVConfig, layer: nat, position: nat, value: bool): nat
    requires c.pageTokens > 0
  {
    (layer * 2 + if value then 1 else 0) * c.pageTokens + position % c.pageTokens
  }

  function Offset(c: KVConfig, layer: nat, position: nat, value: bool): nat
    requires c.pageTokens > 0
  {
    Row(c, layer, position, value) * c.kvWidth
  }

  /** A cell lies inside its page, and since a page's size is a valid size, its offset never wraps around. */
  lemma OffsetInPage(c: KVConfig, layer: nat, position: nat, value: bool)
    requires c.pageTokens > 0 && layer < c.layers
    ensures Offset(c, layer, position, value) + c.kvWidth <= PageElements(c)
  {
    var lane := layer * 2 + if value then 1 else 0;
    MulStep(lane, 2 * c.layers, c.pageTokens);
    assert Row(c, layer, position, value) < (2 * c.layers) * c.pageTokens;
    MulStep(Row(c, layer, position, value), 2 * c.layers * c.pageTokens, c.kvWidth);
  }

  /** Two cells of one page coincide only for the same layer, the same half and the same position in the page. */
  lemma RowsInjective(c: KVConfig, l1: nat, p1: nat, v1: bool, l2: nat, p2: nat, v2: bool)
    requires c.pageTokens > 0 && Row(c, l1, p1, v1) == Row(c, l2, p2, v2)
    ensures l1 == l2 && v1 == v2 && p1 % c.pageTokens == p2 % c.pageTokens
  {
    var a := l1 * 2 + if v1 then 1 else 0;
    var b := l2 * 2 + if v2 then 1 else 0;
    DivUnique(Row(c, l1, p1, v1), c.pageTokens, a, p1 % c.pageTokens);
    DivUnique(Row(c, l2, p2, v2), c.pageTokens, b, p2 % c.pageTokens);
  }

  /** Distinct cells of one page occupy disjoint ranges of it. */
  lemma OffsetsDisjoint(c: KVConfig, l1: nat, p1: nat, v1: bool, l2: nat, p2: nat, v2: bool)
    requires c.pageTokens > 0
    ensures (l1 == l2 && v1 == v2 && p1 % c.pageTokens == p2 % c.pageTokens)
         || Offset(c, l1, p1, v1) + c.kvWidth <= Offset(c, l2, p2, v2)
         || Offset(c, l2, p2, v2) + c.kvWidth <= Offset(c, l1, p1, v1)
  {
    var r1, r2 := Row(c, l1, p1, v1), Row(c, l2, p2, v2);
    MulStep(r1, r2, c.kvWidth);
    MulStep(r2, r1, c.kvWidth);
    if r1 == r2 {
      RowsInjective(c, l1, p1, v1, l2, p2, v2);
    }
  }

  // ---- cells and what they represent ----------------------------------------

  function CellOf(c: KVConfig, content: seq<Half>, layer: nat, position: nat, value: bool): (r: seq<Half>)
    requires c.pageTokens > 0 && layer < c.layers && |content| == PageElements(c)
    ensures |r| == c.kvWidth
  {
    OffsetInPage(c, layer, position, value);
    content[Offset(c, layer, position, value)..][..c.kvWidth]
  }

  ghost predicate SlotHeld(c: KVConfig, content: seq<Half>, layer: nat, position: nat, slot: Slot)
    requires c.pageTokens > 0 && layer < c.layers && |content| == PageElements(c)
  {
    slot.Written? ==>
      && CellOf(c, content, layer, position, false) == slot.key
      && CellOf(c, content, layer, position, true) == slot.value
  }

  ghost predicate PositionHeld(c: KVConfig, content: seq<Half>, position: nat, slots: seq<Slot>)
    requires c.pageTokens > 0
  {
    && |content| == PageElements(c)
    && |slots| == c.layers
    && forall layer :: 0 <= layer < |slots| ==> SlotHeld(c, content, layer, position, slots[layer])
  }

  ghost predicate SequenceHeld(c: KVConfig, data: seq<seq<Half>>, t: Table, cells: seq<seq<Slot>>)
    requires c.pageTokens > 0
  {
    && |cells| == t.length
    && forall p :: 0 <= p < |cells| ==>
         && p / c.pageTokens < |t.pages|
         && t.pages[p / c.pageTokens] < |data|
         && PositionHeld(c, data[t.pages[p / c.pageTokens]], p, cells[p])
  }

  /** Every written cell of every private array is what its page holds. */
  ghost predicate Represents(c: KVConfig, data: seq<seq<Half>>, tables: seq<Table>, arrays: Arrays)
    requires c.pageTokens > 0
  {
    && |arrays| == |tables|
    && forall s :: 0 <= s < |tables| ==> SequenceHeld(c, data, tables[s], arrays[s])
  }

  /** Pages in use have their storage. */
  ghost predicate Backed(refs: seq<nat>, data: seq<seq<Half>>, size: nat) {
    && |data| == |refs|
    && forall page :: 0 <= page < |refs| ==> |data[page]| == size || (data[page] == [] && refs[page] == 0)
  }

  /** Element-wise conversion of a vector to half precision. */
  function Halves(convert: real -> Half, values: seq<real>): (r: seq<Half>)
    ensures |r| == |values|
  {
    seq(|values|, i requires 0 <= i < |values| => convert(values[i]))
  }

  // ---- the private-array specification --------------------------------------

  ghost function ArraysAppended(a: Arrays, s: nat, layers: nat): Arrays
    requires s < |a|
  {
    a[s := a[s] + [seq(layers, _ => Unwritten)]]
  }

  ghost function ArraysStored(a: Arrays, s: nat, layer: nat, position: nat, key: seq<Half>, value: seq<Half>): Arrays
    requires s < |a| && position < |a[s]| && layer < |a[s][position]|
  {
    a[s := a[s][position := a[s][position][layer := Written(key, value)]]]
  }

  /** Sharing is copying by value: the target gets its own copy of the source's prefix. */
  ghost function ArraysShared(a: Arrays, source: nat, target: nat, tokens: nat): Arrays
    requires source < |a| && target < |a| && tokens <= |a[source]|
  {
    a[target := a[source][..tokens]]
  }

  ghost function ArraysCleared(a: Arrays, s: nat): Arrays
    requires s < |a|
  {
    a[s := []]
  }

  // ---- each ledger step keeps the representation -----------------------------

  /** A sequence only depends on the contents of its own pages. */
  lemma SequenceHeldElsewhere(c: KVConfig, data: seq<seq<Half>>, data': seq<seq<Half>>, t: Table, cells: seq<seq<Slot>>)
    requires c.pageTokens > 0 && SequenceHeld(c, data, t, cells)
    requires |data'| == |data|
    requires forall i :: 0 <= i < |t.pages| && t.pages[i] < |data| ==> data'[t.pages[i]] == data[t.pages[i]]
    ensures SequenceHeld(c, data', t, cells)
  {
  }

  /** Growing by an unwritten position on a page that has storage. */
  lemma SequenceHeldGrow(c: KVConfig, data: seq<seq<Half>>, t: Table, t': Table, cells: seq<seq<Slot>>)
    requires c.pageTokens > 0 && SequenceHeld(c, data, t, cells)
    requires t'.length == t.length + 1
    requires t.length / c.pageTokens < |t'.pages|
    requires t'.pages[t.length / c.pageTokens] < |data| && |data[t'.pages[t.length / c.pageTokens]]| == PageElements(c)
    requires forall p :: 0 <= p < t.length ==>
               && p / c.pageTokens < |t.pages| && p / c.pageTokens < |t'.pages|
               && t.pages[p / c.pageTokens] < |data| && t'.pages[p / c.pageTokens] < |data|
               && data[t'.pages[p / c.pageTokens]] == data[t.pages[p / c.pageTokens]]
    ensures SequenceHeld(c, data, t', cells + [seq(c.layers, _ => Unwritten)])
  {
    var blank := seq(c.layers, _ => Unwritten);
    assert PositionHeld(c, data[t'.pages[t.length / c.pageTokens]], t.length, blank);
    var cells' := cells + [blank];
    forall p | 0 <= p < |cells'|
      ensures && p / c.pageTokens < |t'.pages|
              && t'.pages[p / c.pageTokens] < |data|
              && PositionHeld(c, data[t'.pages[p / c.pageTokens]], p, cells'[p])
    {
      if p < t.length {
        assert PositionHeld(c, data[t.pages[p / c.pageTokens]], p, cells[p]);
      }
    }
  }

  /** A prefix of a held array is held by the prefix of its pages. */
  lemma SequenceHeldPrefix(c: KVConfig, data: seq<seq<Half>>, t: Table, cells: seq<seq<Slot>>, tokens: nat)
    requires c.pageTokens > 0 && SequenceHeld(c, data, t, cells) && TableOk(t, |data|, c.pageTokens)
             && tokens <= t.length
    ensures SequenceHeld(c, data, Table(PrefixPages(t, |data|, tokens, c.pageTokens), tokens), cells[..tokens])
  {
    hide Distinct, CeilDiv, Within;
    CeilDivMonotone(tokens, t.length, c.pageTokens);
    var pages := PrefixPages(t, |data|, tokens, c.pageTokens);
    forall p | 0 <= p < tokens
      ensures p / c.pageTokens < |pages| && pages[p / c.pageTokens] == t.pages[p / c.pageTokens]
    {
      PositionHasPage(p, tokens, c.pageTokens);
    }
  }

  // ---- storing ----------------------------------------------------------------

  /** `content'` is `content` with the two ranges of one cell replaced. */
  ghost predicate CellReplaced(c: KVConfig, content: seq<Half>, content': seq<Half>, layer: nat, position: nat,
                               key: seq<Half>, value: seq<Half>)
    requires c.pageTokens > 0
  {
    var k, v := Offset(c, layer, position, false), Offset(c, layer, position, true);
    && |content| == |content'| == PageElements(c) && |key| == |value| == c.kvWidth
    && k + c.kvWidth <= |content| && v + c.kvWidth <= |content|
    && (forall j :: 0 <= j < c.kvWidth ==> content'[k + j] == key[j])
    && (forall j :: 0 <= j < c.kvWidth ==> content'[v + j] == value[j])
    && (forall j :: 0 <= j < |content| && !(k <= j < k + c.kvWidth) && !(v <= j < v + c.kvWidth) ==>
          content'[j] == content[j])
  }

  /** The stored cell reads back. */
  lemma StoredCell(c: KVConfig, content: seq<Half>, content': seq<Half>, layer: nat, position: nat,
                   key: seq<Half>, value: seq<Half>)
    requires c.pageTokens > 0 && layer < c.layers
    requires CellReplaced(c, content, content', layer, position, key, value)
    ensures CellOf(c, content', layer, position, false) == key
    ensures CellOf(c, content', layer, position, true) == value
  {
  }

  /** A store leaves every other cell of the page alone. */
  lemma OtherCell(c: KVConfig, content: seq<Half>, content': seq<Half>, layer: nat, position: nat,
                  key: seq<Half>, value: seq<Half>, l2: nat, p2: nat, v2: bool)
    requires c.pageTokens > 0 && layer < c.layers && l2 < c.layers
    requires CellReplaced(c, content, content', layer, position, key, value)
    requires l2 != layer || p2 % c.pageTokens != position % c.pageTokens
    ensures CellOf(c, content', l2, p2, v2) == CellOf(c, content, l2, p2, v2)
  {
    OffsetsDisjoint(c, layer, position, false, l2, p2, v2);
    OffsetsDisjoint(c, layer, position, true, l2, p2, v2);
    OffsetInPage(c, l2, p2, v2);
  }

  /** Another position of the same page keeps its slots. */
  lemma OtherPosition(c: KVConfig, content: seq<Half>, content': seq<Half>, layer: nat, position: nat,
                      key: seq<Half>, value: seq<Half>, p2: nat, slots: seq<Slot>)
    requires c.pageTokens > 0 && layer < c.layers
    requires CellReplaced(c, content, content', layer, position, key, value)
    requires p2 % c.pageTokens != position % c.pageTokens && PositionHeld(c, content, p2, slots)
    ensures PositionHeld(c, content', p2, slots)
  {
    forall l2 | 0 <= l2 < |slots| ensures SlotHeld(c, content', l2, p2, slots[l2]) {
      OtherCell(c, content, content', layer, position, key, value, l2, p2, false);
      OtherCell(c, content, content', layer, position, key, value, l2, p2, true);
    }
  }

  lemma SamePosition(c: KVConfig, content: seq<Half>, content': seq<Half>, layer: nat, position: nat,
                     key: seq<Half>, value: seq<Half>, slots: seq<Slot>)
    requires c.pageTokens > 0 && layer < c.layers
    requires CellReplaced(c, content, content', layer, position, key, value)
    requires PositionHeld(c, content, position, slots)
    ensures PositionHeld(c, content', position, slots[layer := Written(key, value)])
  {
    var slots' := slots[layer := Written(key, value)];
    StoredCell(c, content, content', layer, position, key, value);
    forall l2 | 0 <= l2 < |slots'| ensures SlotHeld(c, content', l2, position, slots'[l2]) {
      if l2 != layer {
        OtherCell(c, content, content', layer, position, key, value, l2, position, false);
        OtherCell(c, content, content', layer, position, key, value, l2, position, true);
      }
    }
  }

  /** Positions of one sequence on one page differ in their place within it. */
  lemma SamePageDistinctPlace(p: nat, q: nat, pages: seq<nat>, pageTokens: nat)
    requires pageTokens > 0 && p != q && Distinct(pages)
    requires p / pageTokens < |pages| && q / pageTokens < |pages|
    requires pages[p / pageTokens] == pages[q / pageTokens]
    ensures p % pageTokens != q % pageTokens
  {
    assert p == (p / pageTokens) * pageTokens + p % pageTokens;
    assert q == (q / pageTokens) * pageTokens + q % pageTokens;
  }

  /** The storing sequence sees exactly its own array updated. */
  lemma StoreHeld(c: KVConfig, data: seq<seq<Half>>, t: Table, cells: seq<seq<Slot>>, content': seq<Half>,
                  layer: nat, position: nat, key: seq<Half>, value: seq<Half>)
    requires c.pageTokens > 0 && layer < c.layers && position < t.length
    requires SequenceHeld(c, data, t, cells) && TableOk(t, |data|, c.pageTokens)
    requires position / c.pageTokens < |t.pages|
    requires CellReplaced(c, data[t.pages[position / c.pageTokens]], content', layer, position, key, value)
    ensures SequenceHeld(c, data[t.pages[position / c.pageTokens] := content'], t,
                         cells[position := cells[position][layer := Written(key, value)]])
  {
    var page := t.pages[position / c.pageTokens];
    var data' := data[page := content'];
    var cells' := cells[position := cells[position][layer := Written(key, value)]];
    forall p | 0 <= p < |cells'|
      ensures && p / c.pageTokens < |t.pages|
              && t.pages[p / c.pageTokens] < |data'|
              && PositionHeld(c, data'[t.pages[p / c.pageTokens]], p, cells'[p])
    {
      assert PositionHeld(c, data[t.pages[p / c.pageTokens]], p, cells[p]);
      if p == position {
        SamePosition(c, data[page], content', layer, position, key, value, cells[p]);
      } else if t.pages[p / c.pageTokens] == page {
        SamePageDistinctPlace(p, position, t.pages, c.pageTokens);
        OtherPosition(c, data[page], content', layer, position, key, value, p, cells[p]);
      }
    }
  }
}
