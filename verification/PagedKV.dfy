/** The paged KV cache of the CPU runtime (src/minillm/paged_kv.cpp): a fixed pool of pages, per-sequence page
    tables, prefix aliasing and copy-on-write of a shared partial tail. */
module PagedKVCache {
  import opened Arithmetic
  import opened RefCounts
  import opened Outcomes
  import opened PageLedger
  import opened PageContents

  /** The dimension check made before construction; it bounds every later offset. */
  method CheckedPageElements(c: KVConfig) returns (r: Result<nat>)
    ensures r.Success? <==>
              && c.pages > 0 && c.pageTokens > 0 && c.layers > 0 && c.kvWidth > 0 && c.sequences > 0
              && 2 * c.layers * c.pageTokens * c.kvWidth <= SIZE_MAX / 2
    ensures r.Success? ==> r.value == 2 * c.layers * c.pageTokens * c.kvWidth
    ensures r.Failure? ==> r.error == InvalidArgument
  {
    var count: nat := 2;
    var sizes := [c.layers, c.pageTokens, c.kvWidth];
    for i := 0 to 3
      invariant count == (if i == 0 then 2 else if i == 1 then 2 * c.layers
                          else if i == 2 then 2 * c.layers * c.pageTokens else PageElements(c))
      invariant count <= SIZE_MAX / 2
      invariant forall j :: 0 <= j < i ==> sizes[j] > 0
    {
      if sizes[i] == 0 || count > SIZE_MAX / sizes[i] / 2 {
        FactorTooLarge(c, i, count);
        return Failure(InvalidArgument);
      }
      WithinHalf(count, sizes[i]);
      count := count * sizes[i];
    }
    assert sizes[0] > 0 && sizes[1] > 0 && sizes[2] > 0;
    if c.pages == 0 || c.sequences == 0 {
      return Failure(InvalidArgument);
    }
    return Success(count);
  }

  lemma WithinHalf(count: nat, size: nat)
    requires size > 0
    ensures count > SIZE_MAX / size / 2 <==> count * size > SIZE_MAX / 2
  {
    var q := SIZE_MAX / size;
    assert SIZE_MAX == q * size + SIZE_MAX % size;
    var h := q / 2;
    MulStep(count, h + 1, size);
    MulStep(h, count, size);
    assert (h + 1) * size == h * size + size;
    assert (2 * h) * size == 2 * (h * size);
    if q == 2 * h {
    } else {
      assert q == 2 * h + 1;
      assert q * size == 2 * (h * size) + size;
    }
  }

  lemma FactorTooLarge(c: KVConfig, i: nat, count: nat)
    requires i < 3
    requires count == if i == 0 then 2 else if i == 1 then 2 * c.layers else 2 * c.layers * c.pageTokens
    ensures var size := [c.layers, c.pageTokens, c.kvWidth][i];
      size == 0 || count > SIZE_MAX / size / 2 ==> !(Usable(c) && PageElements(c) <= SIZE_MAX / 2)
  {
    var size := [c.layers, c.pageTokens, c.kvWidth][i];
    if Usable(c) && count > SIZE_MAX / size / 2 {
      WithinHalf(count, size);
      assert count * size > SIZE_MAX / 2;
      if i == 0 {
        Grows(2 * c.layers, c.pageTokens);
        Grows(2 * c.layers * c.pageTokens, c.kvWidth);
      } else if i == 1 {
        Grows(2 * c.layers * c.pageTokens, c.kvWidth);
      }
    }
  }

  lemma Grows(a: nat, b: nat)
    ensures b > 0 ==> a * b >= a
  {
    if b > 0 {
      assert a * b == a + a * (b - 1);
      assert a * (b - 1) >= 0;
    }
  }

  class PagedKV {
    const config: KVConfig
    /** Conversion of one float to half precision; nothing is assumed about it. */
    const toHalf: real -> Half
    var refs: seq<nat>
    var data: seq<seq<Half>>
    var tables: seq<Table>
    var free: seq<nat>
    var copyOnWrites: nat
    /** The private arrays the cache stands for. */
    ghost var arrays: Arrays

    ghost predicate Valid()
      reads this
    {
      && Usable(config)
      && |refs| == config.pages && |tables| == config.sequences
      && Consistent(State(), config.pageTokens)
      && Backed(refs, data, PageElements(config))
      && Represents(config, data, tables, arrays)
    }

    ghost function State(): Ledger
      reads this
    {
      Ledger(refs, free, tables)
    }

    constructor (c: KVConfig, convert: real -> Half)
      requires Usable(c)
      ensures Valid() && fresh(this)
      ensures config == c && toHalf == convert
      ensures |free| == c.pages && arrays == seq(c.sequences, _ => [])
      ensures forall j :: 0 <= j < c.pages ==> free[j] == c.pages - 1 - j
      ensures forall s :: 0 <= s < c.sequences ==> tables[s] == Table([], 0)
    {
      config := c;
      toHalf := convert;
      refs := seq(c.pages, _ => 0);
      data := seq(c.pages, _ => []);
      tables := seq(c.sequences, _ => Table([], 0));
      arrays := seq(c.sequences, _ => []);
      copyOnWrites := 0;
      var stack: seq<nat> := [];
      var i := c.pages;
      while i > 0
        invariant 0 <= i <= c.pages && |stack| == c.pages - i
        invariant forall j :: 0 <= j < |stack| ==> stack[j] == c.pages - 1 - j
      {
        stack := stack + [i - 1];
        i := i - 1;
      }
      free := stack;
      new;
      EmptyConsistent(c.pages, c.sequences, refs, free, tables, c.pageTokens);
    }

    /** Takes the top free page, giving it storage the first time it is used. */
    method AllocatePage() returns (r: Result<nat>)
      requires Usable(config) && FreeExact(refs, free) && Backed(refs, data, PageElements(config))
      modifies `refs, `data, `free
      ensures r.Success? <==> old(free) != []
      ensures r.Failure? ==> r.error == PoolExhausted && refs == old(refs) && data == old(data) && free == old(free)
      ensures r.Success? ==>
                var id := old(free)[|old(free)| - 1];
                && r.value == id && id < |old(refs)|
                && refs == old(refs)[id := 1] && free == old(free)[..|old(free)| - 1]
                && |data| == |old(data)| && |data[id]| == PageElements(config)
                && data == old(data)[id := data[id]]
                && Backed(refs, data, PageElements(config))
    {
      if free == [] {
        return Failure(PoolExhausted);
      }
      PopFree(refs, free);
      var id := free[|free| - 1];
      if data[id] == [] {
        data := data[id := seq(PageElements(config), _ => 0)];
      }
      free := free[..|free| - 1];
      refs := refs[id := 1];
      return Success(id);
    }

    /** Appends one position. Every failure leaves the cache untouched; otherwise exactly the appended sequence's
        private array grows, by one position not yet written. */
    method Append(sequence: nat, position: nat) returns (status: Status)
      requires Valid()
      modifies this
      ensures Valid()
      ensures status == (if sequence >= |old(tables)| then Failed(OutOfRange)
                         else if position != old(tables)[sequence].length then Failed(InvalidArgument)
                         else if old(NeedsPage(State(), sequence, config.pageTokens))
                              && old(free) == [] then Failed(PoolExhausted)
                         else Ok)
      ensures status.Failed? ==>
                State() == old(State()) && data == old(data) && arrays == old(arrays)
                && copyOnWrites == old(copyOnWrites)
      ensures status.Ok? ==>
                && State() == Appended(old(State()), sequence, config.pageTokens)
                && arrays == ArraysAppended(old(arrays), sequence, config.layers)
                && copyOnWrites == old(copyOnWrites)
                   + (if old(tables)[sequence].length % config.pageTokens != 0
                         && old(NeedsPage(State(), sequence, config.pageTokens)) then 1 else 0)
    {
      if sequence >= |tables| {
        return Failed(OutOfRange);
      }
      if position != tables[sequence].length {
        return Failed(InvalidArgument);
      }
      if position % config.pageTokens == 0 {
        status := AppendAtBoundary(sequence);
      } else {
        status := AppendOnTail(sequence);
      }
    }

    method AppendAtBoundary(sequence: nat) returns (status: Status)
      requires Valid() && sequence < |tables| && tables[sequence].length % config.pageTokens == 0
      modifies this
      ensures Valid() && copyOnWrites == old(copyOnWrites)
      ensures status == if old(free) == [] then Failed(PoolExhausted) else Ok
      ensures status.Failed? ==> State() == old(State()) && data == old(data) && arrays == old(arrays)
      ensures status.Ok? ==>
                && State() == Appended(old(State()), sequence, config.pageTokens)
                && arrays == ArraysAppended(old(arrays), sequence, config.layers)
    {
      ghost var was := State();
      ghost var data0 := data;
      hide Represents, Consistent, Backed, Appended, NeedsPage, PageElements;
      var page := AllocateFor(sequence);
      if page.Failure? {
        return Failed(page.error);
      }
      GrowKeeps(config, was, data0, arrays, sequence, data);
      AppendedAtBoundary(was, sequence, config.pageTokens);
      tables := tables[sequence := Table(tables[sequence].pages + [page.value], tables[sequence].length + 1)];
      arrays := ArraysAppended(arrays, sequence, config.layers);
      return Ok;
    }

    method AppendOnTail(sequence: nat) returns (status: Status)
      requires Valid() && sequence < |tables| && tables[sequence].length % config.pageTokens != 0
      modifies this
      ensures Valid()
      ensures status == if old(NeedsPage(State(), sequence, config.pageTokens))
              && old(free) == [] then Failed(PoolExhausted) else Ok
      ensures status.Failed? ==>
                State() == old(State()) && data == old(data) && arrays == old(arrays)
                && copyOnWrites == old(copyOnWrites)
      ensures status.Ok? ==>
                && State() == Appended(old(State()), sequence, config.pageTokens)
                && arrays == ArraysAppended(old(arrays), sequence, config.layers)
                && copyOnWrites
                     == old(copyOnWrites) + (if old(NeedsPage(State(), sequence, config.pageTokens)) then 1 else 0)
    {
      ghost var was := State();
      assert |arrays| == |tables|;
      hide Represents, FreeExact, RefsExact;
      TailExists(tables[sequence], |refs|, config.pageTokens);
      var shared := tables[sequence].pages[|tables[sequence].pages| - 1];
      if refs[shared] > 1 {
        status := CopyTail(sequence);
      } else {
        AppendConsistent(was, sequence, config.pageTokens);
        tables := tables[sequence := tables[sequence].(length := tables[sequence].length + 1)];
        RepresentsInPlace(config, data, was.tables, arrays, sequence);
        arrays := ArraysAppended(arrays, sequence, config.layers);
        status := Ok;
      }
    }

    /** The copy-on-write itself: the copy is made before the sequence lets go of the shared page. */
    method CopyTail(sequence: nat) returns (status: Status)
      requires Valid() && sequence < |tables| && tables[sequence].length % config.pageTokens != 0
      requires NeedsPage(State(), sequence, config.pageTokens)
      modifies this
      ensures Valid()
      ensures status == if old(free) == [] then Failed(PoolExhausted) else Ok
      ensures status.Failed? ==>
                State() == old(State()) && data == old(data) && arrays == old(arrays)
                && copyOnWrites == old(copyOnWrites)
      ensures status.Ok? ==>
                && State() == Appended(old(State()), sequence, config.pageTokens)
                && arrays == ArraysAppended(old(arrays), sequence, config.layers)
                && copyOnWrites == old(copyOnWrites) + 1
    {
      ghost var was := State();
      ghost var data0 := data;
      hide Represents, Consistent, Backed, Appended, NeedsPage, PageElements;
      if free != [] {
        AppendedByCopy(was, sequence, config.pageTokens);
      }
      var t := tables[sequence];
      var page := AllocateFor(sequence);
      if page.Failure? {
        return Failed(page.error);
      }
      var shared := t.pages[|t.pages| - 1];
      CopyKeeps(config, was, data0, arrays, sequence, data);
      data := data[page.value := data[shared]];
      refs := refs[shared := refs[shared] - 1];
      tables := tables[sequence := Table(t.pages[|t.pages| - 1 := page.value], t.length + 1)];
      copyOnWrites := copyOnWrites + 1;
      arrays := ArraysAppended(arrays, sequence, config.layers);
      return Ok;
    }

    /** AllocatePage, with what the appending sequence may rely on. */
    method AllocateFor(sequence: nat) returns (r: Result<nat>)
      requires Valid() && sequence < |tables|
      modifies `refs, `data, `free
      ensures |arrays| == |tables|
      ensures r.Success? <==> old(free) != []
      ensures r.Failure? ==> r.error == PoolExhausted && refs == old(refs) && data == old(data) && free == old(free)
      ensures r.Success? ==>
                var id := old(free)[|old(free)| - 1];
                && r.value == id && id < |old(refs)| && |data| == |old(data)| == |old(refs)|
                && refs == old(refs)[id := 1] && free == old(free)[..|old(free)| - 1]
                && |data[id]| == PageElements(config) && data == old(data)[id := data[id]]
                && Backed(refs, data, PageElements(config))
    {
      r := AllocatePage();
    }

    /** Stores one position's key and value for one layer, provided the page belongs to this sequence alone.
        In the private-array view exactly that slot changes, whatever other sequences alias. */
    method Store(sequence: nat, layer: nat, position: nat, key: seq<real>, value: seq<real>) returns (status: Status)
      requires Valid()
      modifies `data, `arrays
      ensures Valid()
      ensures status == (if sequence >= |tables| || position >= tables[sequence].length
                         || layer >= config.layers then Failed(OutOfRange)
                         else if !Exclusive(State(), sequence, position, config.pageTokens)
                              || |key| != config.kvWidth || |value| != config.kvWidth then Failed(LogicError)
                         else Ok)
      ensures status.Failed? ==> data == old(data) && arrays == old(arrays)
      ensures status.Ok? ==>
                arrays == ArraysStored(old(arrays), sequence, layer, position, Halves(toHalf, key),
                                       Halves(toHalf, value))
    {
      if sequence >= |tables| || position >= tables[sequence].length || layer >= config.layers {
        return Failed(OutOfRange);
      }
      PositionHasPage(position, tables[sequence].length, config.pageTokens);
      assert TableOk(tables[sequence], |refs|, config.pageTokens);
      var page := tables[sequence].pages[position / config.pageTokens];
      if refs[page] != 1 || |key| != config.kvWidth || |value| != config.kvWidth {
        return Failed(LogicError);
      }
      ghost var data0 := data;
      WriteCell(page, layer, position, key, value);
      RepresentsStore(config, State(), data0, arrays, sequence, layer, position, data[page], Halves(toHalf, key),
                      Halves(toHalf, value));
      arrays := ArraysStored(arrays, sequence, layer, position, Halves(toHalf, key), Halves(toHalf, value));
      return Ok;
    }

    method WriteCell(page: nat, layer: nat, position: nat, key: seq<real>, value: seq<real>)
      requires Usable(config) && layer < config.layers && |key| == |value| == config.kvWidth
      requires page < |data| && |data[page]| == PageElements(config)
      modifies `data
      ensures |data| == |old(data)| && data == old(data)[page := data[page]]
      ensures CellReplaced(config, old(data)[page], data[page], layer, position, Halves(toHalf, key),
                           Halves(toHalf, value))
    {
      var k, v := Offset(config, layer, position, false), Offset(config, layer, position, true);
      OffsetInPage(config, layer, position, false);
      OffsetInPage(config, layer, position, true);
      OffsetsDisjoint(config, layer, position, false, layer, position, true);
      ghost var was := data[page];
      var i := 0;
      while i < config.kvWidth
        invariant 0 <= i <= config.kvWidth
        invariant |data| == |old(data)| && data == old(data)[page := data[page]] && |data[page]| == |was|
        invariant forall j :: 0 <= j < i ==> data[page][k + j] == toHalf(key[j])
        invariant forall j :: 0 <= j < i ==> data[page][v + j] == toHalf(value[j])
        invariant forall j :: 0 <= j < |was| && !(k <= j < k + i) && !(v <= j < v + i) ==> data[page][j] == was[j]
      {
        data := data[page := data[page][k + i := toHalf(key[i])][v + i := toHalf(value[i])]];
        i := i + 1;
      }
    }

    /** Reads a key; a slot written through any alias before the sharing, or by this sequence since, reads as such. */
    method Key(sequence: nat, layer: nat, position: nat) returns (r: Result<seq<Half>>)
      requires Valid()
      ensures r.Success? <==> sequence < |tables| && position < tables[sequence].length && layer < config.layers
      ensures r.Failure? ==> r.error == OutOfRange
      ensures r.Success? ==>
                && |r.value| == config.kvWidth
                && (arrays[sequence][position][layer].Written? ==> r.value == arrays[sequence][position][layer].key)
    {
      if sequence >= |tables| || position >= tables[sequence].length || layer >= config.layers {
        return Failure(OutOfRange);
      }
      CellPresent(config, State(), data, arrays, sequence, layer, position);
      return Success(CellOf(config, data[tables[sequence].pages[position / config.pageTokens]], layer, position,
                            false));
    }

    method Value(sequence: nat, layer: nat, position: nat) returns (r: Result<seq<Half>>)
      requires Valid()
      ensures r.Success? <==> sequence < |tables| && position < tables[sequence].length && layer < config.layers
      ensures r.Failure? ==> r.error == OutOfRange
      ensures r.Success? ==>
                && |r.value| == config.kvWidth
                && (arrays[sequence][position][layer].Written? ==> r.value == arrays[sequence][position][layer].value)
    {
      if sequence >= |tables| || position >= tables[sequence].length || layer >= config.layers {
        return Failure(OutOfRange);
      }
      CellPresent(config, State(), data, arrays, sequence, layer, position);
      return Success(CellOf(config, data[tables[sequence].pages[position / config.pageTokens]], layer, position, true));
    }

    /** Aliases a prefix of `source` as the whole of `target`, which may already alias the source.
        In the private-array view this is a copy by value. */
    method SharePrefix(source: nat, target: nat, tokens: nat) returns (status: Status)
      requires Valid()
      modifies this
      ensures Valid() && copyOnWrites == old(copyOnWrites) && data == old(data)
      ensures status == (if source >= |old(tables)| || target >= |old(tables)| then Failed(OutOfRange)
                         else if source == target || tokens > old(tables)[source].length then Failed(InvalidArgument)
                         else Ok)
      ensures status.Failed? ==> State() == old(State()) && arrays == old(arrays)
      ensures status.Ok? ==>
                && State() == Shared(old(State()), source, target, tokens, config.pageTokens)
                && arrays == ArraysShared(old(arrays), source, target, tokens)
    {
      if source >= |tables| || target >= |tables| {
        return Failed(OutOfRange);
      }
      if source == target || tokens > tables[source].length {
        return Failed(InvalidArgument);
      }
      AdoptPrefix(source, target, tokens);
      return Ok;
    }

    method AdoptPrefix(source: nat, target: nat, tokens: nat)
      requires Valid()
      requires source < |tables| && target < |tables| && source != target && tokens <= tables[source].length
      modifies this
      ensures Valid() && copyOnWrites == old(copyOnWrites) && data == old(data)
      ensures State() == Shared(old(State()), source, target, tokens, config.pageTokens)
      ensures arrays == ArraysShared(old(arrays), source, target, tokens)
    {
      ghost var was := State();
      MoveReferences(source, target, tokens);
      ShareKeeps(config, was, data, arrays, source, target, tokens);
      arrays := ArraysShared(arrays, source, target, tokens);
    }

    /** Retains before releasing, so a target that already aliases the source keeps the common pages alive. */
    method MoveReferences(source: nat, target: nat, tokens: nat)
      requires Usable(config) && Consistent(State(), config.pageTokens)
      requires source < |tables| && target < |tables| && source != target && tokens <= tables[source].length
      modifies `refs, `free, `tables
      ensures State() == Shared(old(State()), source, target, tokens, config.pageTokens)
    {
      ghost var was := State();
      CeilDivMonotone(tokens, tables[source].length, config.pageTokens);
      assert TableOk(tables[source], |refs|, config.pageTokens);
      var shared := tables[source].pages[..CeilDiv(tokens, config.pageTokens)];
      RetainPages(shared);
      RetainHolds(was, shared, config.pageTokens);
      ReleasePages(target, shared);
      tables := tables[target := Table(shared, tokens)];
    }

    method RetainPages(shared: seq<nat>)
      requires Within(shared, |refs|)
      modifies `refs
      ensures refs == Retained(old(refs), shared)
    {
      hide Retained;
      RetainedNone(refs, shared);
      var i := 0;
      while i < |shared|
        invariant 0 <= i <= |shared|
        invariant Within(shared[..i], |old(refs)|) && refs == Retained(old(refs), shared[..i]) && |refs| == |old(refs)|
      {
        RetainedOne(old(refs), shared, i);
        refs := refs[shared[i] := refs[shared[i]] + 1];
        i := i + 1;
      }
      assert shared[..|shared|] == shared;
    }

    /** Drops the table's references, pushing pages that nobody else holds back on the free stack. */
    method ReleasePages(sequence: nat, ghost extra: seq<nat>)
      requires Usable(config) && sequence < |tables|
      requires TablesOk(tables, |refs|, config.pageTokens) && RefsExact(tables, refs, extra)
      modifies `refs, `free, `tables
      ensures State() == Cleared(old(State()), sequence, config.pageTokens, extra)
    {
      HeldPages(State(), sequence, config.pageTokens, extra);
      ReleaseReferences(tables[sequence].pages);
      tables := tables[sequence := Table([], 0)];
    }

    method ReleaseReferences(pages: seq<nat>)
      requires Distinct(pages) && Within(pages, |refs|)
      requires forall i :: 0 <= i < |pages| ==> refs[pages[i]] > 0
      modifies `refs, `free
      ensures (refs, free) == Released(old(refs), old(free), pages)
    {
      hide Released;
      ghost var refs0, free0 := refs, free;
      ReleasedNone(refs, free, pages);
      var i := 0;
      while i < |pages|
        invariant 0 <= i <= |pages| && Distinct(pages[..i]) && Within(pages, |refs0|)
        invariant (refs, free) == Released(refs0, free0, pages[..i])
      {
        ReleasedOne(refs0, free0, pages, i);
        refs := refs[pages[i] := refs[pages[i]] - 1];
        if refs[pages[i]] == 0 {
          free := free + [pages[i]];
        }
        i := i + 1;
      }
      assert pages[..|pages|] == pages;
    }

    /** Never fails: an unknown sequence is ignored. */
    method Clear(sequence: nat)
      requires Valid()
      modifies this
      ensures Valid() && copyOnWrites == old(copyOnWrites) && data == old(data)
      ensures sequence >= |old(tables)| ==> State() == old(State()) && arrays == old(arrays)
      ensures sequence < |old(tables)| ==>
                && State() == Cleared(old(State()), sequence, config.pageTokens, [])
                && arrays == ArraysCleared(old(arrays), sequence)
    {
      if sequence >= |tables| {
        return;
      }
      ghost var was := State();
      ClearConsistent(was, sequence, config.pageTokens, []);
      ReleasePages(sequence, []);
      arrays := ArraysCleared(arrays, sequence);
    }
  }

  /** The page holding a position has a single owner. */
  ghost predicate Exclusive(l: Ledger, s: nat, position: nat, pageTokens: nat)
    requires pageTokens > 0 && s < |l.tables| && TableOk(l.tables[s], |l.refs|, pageTokens)
    requires position < l.tables[s].length
  {
    PositionHasPage(position, l.tables[s].length, pageTokens);
    l.refs[l.tables[s].pages[position / pageTokens]] == 1
  }

  /** What an append at a page boundary leaves behind is again a valid cache. */
  lemma GrowKeeps(c: KVConfig, l: Ledger, data: seq<seq<Half>>, arrays: Arrays, s: nat, data': seq<seq<Half>>)
    requires Usable(c) && Consistent(l, c.pageTokens) && Represents(c, data, l.tables, arrays) && |data| == |l.refs|
    requires s < |l.tables| && l.tables[s].length % c.pageTokens == 0 && l.free != []
    requires var id := l.free[|l.free| - 1];
      id < |data'| == |data| && data' == data[id := data'[id]] && |data'[id]| == PageElements(c)
    ensures Consistent(Appended(l, s, c.pageTokens), c.pageTokens)
    ensures s < |arrays|
    ensures Represents(c, data', Appended(l, s, c.pageTokens).tables, ArraysAppended(arrays, s, c.layers))
  {
    AppendConsistent(l, s, c.pageTokens);
    AppendedAtBoundary(l, s, c.pageTokens);
    FreePageHasNoOwner(l, c.pageTokens);
    hide Appended;
    RepresentsGrow(c, data, l.tables, arrays, data', l.free[|l.free| - 1], s);
  }

  lemma CopyKeeps(c: KVConfig, l: Ledger, data: seq<seq<Half>>, arrays: Arrays, s: nat, data1: seq<seq<Half>>)
    requires Usable(c) && Consistent(l, c.pageTokens) && Represents(c, data, l.tables, arrays) && |data| == |l.refs|
    requires s < |l.tables| && l.tables[s].length % c.pageTokens != 0 && NeedsPage(l, s, c.pageTokens) && l.free != []
    requires var id := l.free[|l.free| - 1];
      id < |data1| == |data| && data1 == data[id := data1[id]] && |data1[id]| == PageElements(c)
      && Backed(l.refs[id := 1], data1, PageElements(c))
    ensures Consistent(Appended(l, s, c.pageTokens), c.pageTokens)
    ensures s < |arrays| && l.tables[s].pages != [] && l.tables[s].pages[|l.tables[s].pages| - 1] < |data|
    ensures var data' := data1[l.free[|l.free| - 1] := data1[l.tables[s].pages[|l.tables[s].pages| - 1]]];
      && Represents(c, data', Appended(l, s, c.pageTokens).tables, ArraysAppended(arrays, s, c.layers))
      && Backed(Appended(l, s, c.pageTokens).refs, data', PageElements(c))
  {
    var id := l.free[|l.free| - 1];
    AppendConsistent(l, s, c.pageTokens);
    AppendedByCopy(l, s, c.pageTokens);
    FreePageHasNoOwner(l, c.pageTokens);
    hide Appended;
    var tail := l.tables[s].pages[|l.tables[s].pages| - 1];
    TailHeld(c, data, l.tables[s], arrays[s]);
    RepresentsCopy(c, data, l.tables, arrays, data[id := data[tail]], id, s);
    assert data1[id := data1[tail]] == data[id := data[tail]];
  }

  lemma ShareKeeps(c: KVConfig, l: Ledger, data: seq<seq<Half>>, arrays: Arrays, source: nat, target: nat, tokens: nat)
    requires Usable(c) && Consistent(l, c.pageTokens) && Represents(c, data, l.tables, arrays)
    requires Backed(l.refs, data, PageElements(c))
    requires source < |l.tables| && target < |l.tables| && source != target && tokens <= l.tables[source].length
    ensures var l' := Shared(l, source, target, tokens, c.pageTokens);
      && Consistent(l', c.pageTokens) && |l'.refs| == |l.refs|
      && Represents(c, data, l'.tables, ArraysShared(arrays, source, target, tokens))
      && Backed(l'.refs, data, PageElements(c))
  {
    ShareConsistent(l, source, target, tokens, c.pageTokens);
    SequenceHeldPrefix(c, data, l.tables[source], arrays[source], tokens);
    ShareBacked(c, l, data, source, target, tokens);
  }

  /** Sharing brings no page into use. */
  lemma ShareBacked(c: KVConfig, l: Ledger, data: seq<seq<Half>>, source: nat, target: nat, tokens: nat)
    requires Usable(c) && Consistent(l, c.pageTokens)
    requires Backed(l.refs, data, PageElements(c))
    requires source < |l.tables| && target < |l.tables| && source != target && tokens <= l.tables[source].length
    ensures Backed(Shared(l, source, target, tokens, c.pageTokens).refs, data, PageElements(c))
  {
    var shared := PrefixPages(l.tables[source], |l.refs|, tokens, c.pageTokens);
    RetainHolds(l, shared, c.pageTokens);
    var l' := Shared(l, source, target, tokens, c.pageTokens);
    forall page | 0 <= page < |l.refs| && l'.refs[page] > 0 ensures l.refs[page] > 0 {
      if page in shared {
        assert source in Owners(l.tables, page);
      }
    }
  }

  lemma CellPresent(c: KVConfig, l: Ledger, data: seq<seq<Half>>, arrays: Arrays, s: nat, layer: nat, position: nat)
    requires Usable(c) && Represents(c, data, l.tables, arrays)
    requires s < |l.tables| && position < l.tables[s].length && layer < c.layers
    ensures position / c.pageTokens < |l.tables[s].pages|
    ensures var page := l.tables[s].pages[position / c.pageTokens];
      page < |data| && |data[page]| == PageElements(c) && |arrays[s]| == l.tables[s].length
      && |arrays[s][position]| == c.layers && SlotHeld(c, data[page], layer, position, arrays[s][position][layer])
  {
    assert SequenceHeld(c, data, l.tables[s], arrays[s]);
    assert PositionHeld(c, data[l.tables[s].pages[position / c.pageTokens]], position, arrays[s][position]);
  }

  lemma RepresentsGrow(c: KVConfig, data: seq<seq<Half>>, tables: seq<Table>, arrays: Arrays,
                       data': seq<seq<Half>>, page: nat, s: nat)
    requires Usable(c) && Represents(c, data, tables, arrays) && TablesOk(tables, |data|, c.pageTokens)
    requires s < |tables| && tables[s].length % c.pageTokens == 0
    requires page < |data| && |data'| == |data| && data' == data[page := data'[page]]
             && |data'[page]| == PageElements(c)
    requires forall r :: 0 <= r < |tables| ==> page !in tables[r].pages
    ensures Represents(c, data', tables[s := Table(tables[s].pages + [page], tables[s].length + 1)],
                       ArraysAppended(arrays, s, c.layers))
  {
    var t := tables[s];
    forall r | 0 <= r < |tables| ensures SequenceHeld(c, data', tables[r], arrays[r]) {
      SequenceHeldElsewhere(c, data, data', tables[r], arrays[r]);
    }
    CeilDivSteps(t.length, c.pageTokens);
    assert TableOk(t, |data|, c.pageTokens);
    SequenceHeldGrow(c, data', t, Table(t.pages + [page], t.length + 1), arrays[s]);
  }

  lemma RepresentsInPlace(c: KVConfig, data: seq<seq<Half>>, tables: seq<Table>, arrays: Arrays, s: nat)
    requires Usable(c) && Represents(c, data, tables, arrays) && TablesOk(tables, |data|, c.pageTokens)
    requires s < |tables| && tables[s].length % c.pageTokens != 0
    ensures Represents(c, data, tables[s := tables[s].(length := tables[s].length + 1)],
                       ArraysAppended(arrays, s, c.layers))
  {
    TailHeld(c, data, tables[s], arrays[s]);
    SequenceHeldGrow(c, data, tables[s], tables[s].(length := tables[s].length + 1), arrays[s]);
  }

  lemma TailHeld(c: KVConfig, data: seq<seq<Half>>, t: Table, cells: seq<seq<Slot>>)
    requires Usable(c) && SequenceHeld(c, data, t, cells) && TableOk(t, |data|, c.pageTokens)
    requires t.length % c.pageTokens != 0
    ensures t.length / c.pageTokens == |t.pages| - 1
    ensures t.pages[|t.pages| - 1] < |data| && |data[t.pages[|t.pages| - 1]]| == PageElements(c)
  {
    hide TableOk, PageElements, CeilDiv, Distinct, Within, SlotHeld;
    TailExists(t, |data|, c.pageTokens);
    var p := t.length - 1;
    DivUnique(p, c.pageTokens, t.length / c.pageTokens, t.length % c.pageTokens - 1);
    assert PositionHeld(c, data[t.pages[p / c.pageTokens]], p, cells[p]);
  }

  lemma RepresentsCopy(c: KVConfig, data: seq<seq<Half>>, tables: seq<Table>, arrays: Arrays,
                       data': seq<seq<Half>>, page: nat, s: nat)
    requires Usable(c) && Represents(c, data, tables, arrays) && TablesOk(tables, |data|, c.pageTokens)
    requires s < |tables| && tables[s].length % c.pageTokens != 0 && tables[s].pages != []
    requires page < |data| && tables[s].pages[|tables[s].pages| - 1] < |data|
    requires data' == data[page := data[tables[s].pages[|tables[s].pages| - 1]]]
    requires forall r :: 0 <= r < |tables| ==> page !in tables[r].pages
    ensures Represents(c, data',
                       tables[s := Table(tables[s].pages[|tables[s].pages| - 1 := page], tables[s].length + 1)],
                       ArraysAppended(arrays, s, c.layers))
  {
    var t := tables[s];
    forall r | 0 <= r < |tables| ensures SequenceHeld(c, data', tables[r], arrays[r]) {
      SequenceHeldElsewhere(c, data, data', tables[r], arrays[r]);
    }
    TailHeld(c, data, t, arrays[s]);
    SequenceHeldGrow(c, data', t, Table(t.pages[|t.pages| - 1 := page], t.length + 1), arrays[s]);
  }

  /** A single owner means no other table lists the page. */
  lemma SoleOwner(l: Ledger, s: nat, page: nat, pageTokens: nat)
    requires pageTokens > 0 && Consistent(l, pageTokens)
    requires s < |l.tables| && page < |l.refs| && page in l.tables[s].pages && l.refs[page] == 1
    ensures forall r :: 0 <= r < |l.tables| && r != s ==> page !in l.tables[r].pages
  {
    var owners := Owners(l.tables, page);
    assert s in owners;
    assert |owners - {s}| == 0;
    forall r | 0 <= r < |l.tables| && r != s ensures page !in l.tables[r].pages {
      assert r !in owners - {s};
    }
  }

  lemma RepresentsStore(c: KVConfig, l: Ledger, data: seq<seq<Half>>, arrays: Arrays, s: nat, layer: nat, position: nat,
                        content': seq<Half>, key: seq<Half>, value: seq<Half>)
    requires Usable(c) && Consistent(l, c.pageTokens) && |data| == |l.refs| && Represents(c, data, l.tables, arrays)
    requires s < |l.tables| && position < l.tables[s].length && layer < c.layers
    requires position / c.pageTokens < |l.tables[s].pages|
    requires l.refs[l.tables[s].pages[position / c.pageTokens]] == 1
    requires CellReplaced(c, data[l.tables[s].pages[position / c.pageTokens]], content', layer, position, key, value)
    ensures |arrays[s]| == l.tables[s].length && |arrays[s][position]| == c.layers
    ensures Represents(c, data[l.tables[s].pages[position / c.pageTokens] := content'], l.tables,
                       ArraysStored(arrays, s, layer, position, key, value))
  {
    var page := l.tables[s].pages[position / c.pageTokens];
    var data' := data[page := content'];
    CellPresent(c, l, data, arrays, s, layer, position);
    SoleOwner(l, s, page, c.pageTokens);
    StoreHeld(c, data, l.tables[s], arrays[s], content', layer, position, key, value);
    forall r | 0 <= r < |l.tables| && r != s ensures SequenceHeld(c, data', l.tables[r], arrays[r]) {
      SequenceHeldElsewhere(c, data, data', l.tables[r], arrays[r]);
    }
  }
}
