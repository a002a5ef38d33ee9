/** The device memory planner (make_memory_plan in src/minillm/cuda/storage.cpp): two arenas filled front to back with
    aligned records, in checked 64-bit arithmetic. */
module MemoryPlans {
  import opened Arithmetic
  import opened Outcomes
  import opened Decimals

  const SIZE_MAX: nat := 0xFFFF_FFFF_FFFF_FFFF
  const PTRDIFF_MAX: nat := 0x7FFF_FFFF_FFFF_FFFF
  const INT_MAX: nat := 0x7FFF_FFFF
  const STAGING_BYTES: nat := 8 * 1024 * 1024
  const ALIGNMENT: nat := 256

  function Add(a: nat, b: nat): Option<nat> {
    if a + b <= SIZE_MAX then Some(a + b) else None
  }

  /** The checked product: a division tells beforehand whether it overflows. */
  function Product(a: nat, b: nat): (r: Option<nat>)
    ensures r.Some? ==> r.value == a * b
    ensures a <= SIZE_MAX ==> (r.Some? <==> a * b <= SIZE_MAX)
  {
    ProductTest(a, b);
    if b != 0 && a > SIZE_MAX / b then None else Some(a * b)
  }

  lemma ProductTest(a: nat, b: nat)
    ensures b != 0 ==> (a <= SIZE_MAX / b <==> a * b <= SIZE_MAX)
    ensures b == 0 ==> a * b == 0
  {
    if b != 0 {
      var q := SIZE_MAX / b;
      assert SIZE_MAX == q * b + SIZE_MAX % b;
      MulStep(q, a, b);
      if a <= q {
        MulStep(a, q, b);
      }
    }
  }

  function Align(n: nat): Option<nat> {
    if n + (ALIGNMENT - 1) <= SIZE_MAX then Some(Floor(n + (ALIGNMENT - 1), ALIGNMENT)) else None
  }

  lemma AlignBounds(n: nat)
    ensures Align(n).Some? ==> Align(n).value % ALIGNMENT == 0 && n <= Align(n).value < n + ALIGNMENT
  {
    FloorBounds(n + (ALIGNMENT - 1), ALIGNMENT);
  }

  // ---- arenas ---------------------------------------------------------------------

  datatype Category = Weight | Activation | Attention | Logits | Metadata | Rope

  datatype Shape = Shape(name: string, category: Category, rows: nat, columns: nat, width: nat)

  datatype Record = Record(shape: Shape, offset: nat, bytes: nat, alias: bool)

  /** Bytes of the records of a category, aliases not counted. */
  ghost function BytesOf(records: seq<Record>, k: Category): nat {
    if records == [] then 0
    else
      var last := records[|records| - 1];
      BytesOf(records[..|records| - 1], k) + if !last.alias && last.shape.category == k then last.bytes else 0
  }

  ghost function PayloadOf(records: seq<Record>): nat {
    if records == [] then 0
    else PayloadOf(records[..|records| - 1]) + if records[|records| - 1].alias then 0 else records[|records| - 1].bytes
  }

  ghost predicate Places(r: Record, end: nat) {
    r.bytes == r.shape.rows * r.shape.columns * r.shape.width && r.offset % ALIGNMENT == 0 && r.offset + r.bytes <= end
  }

  /** Records lie inside the arena, aligned, in order and apart; an alias lies exactly on the first record. */
  ghost predicate Laid(records: seq<Record>, end: nat) {
    && end <= SIZE_MAX
    && (forall i :: 0 <= i < |records| ==> Places(records[i], end))
    && (forall i, j :: 0 <= i < j < |records| && !records[i].alias && !records[j].alias ==>
          records[i].offset + records[i].bytes <= records[j].offset)
    && (forall i :: 0 <= i < |records| && records[i].alias ==>
          records[i].offset == records[0].offset && records[i].bytes == records[0].bytes && !records[0].alias)
    && PayloadOf(records) <= end
  }

  /** The categories share out the payload. */
  lemma {:induction false} CategoriesShare(records: seq<Record>)
    ensures PayloadOf(records) == BytesOf(records, Weight) + BytesOf(records, Activation) + BytesOf(records, Attention)
                                  + BytesOf(records, Logits) + BytesOf(records, Metadata) + BytesOf(records, Rope)
  {
    if records == [] {
    } else {
      CategoriesShare(records[..|records| - 1]);
    }
  }

  lemma LaidSnoc(records: seq<Record>, end: nat, r: Record, end': nat)
    requires Laid(records, end) && !r.alias && end <= r.offset && Places(r, end') && end' <= SIZE_MAX
    ensures Laid(records + [r], end')
    ensures PayloadOf(records + [r]) == PayloadOf(records) + r.bytes
    ensures forall k :: BytesOf(records + [r], k) == BytesOf(records, k) + if r.shape.category == k then r.bytes else 0
  {
    var all := records + [r];
    assert all[..|records|] == records;
    forall i | 0 <= i < |all| ensures Places(all[i], end') {
      assert i < |records| ==> Places(records[i], end);
    }
    forall i, j | 0 <= i < j < |all| && !all[i].alias
           && !all[j].alias ensures all[i].offset + all[i].bytes <= all[j].offset {
      assert Places(records[i], end);
    }
  }

  lemma LaidAlias(records: seq<Record>, end: nat, r: Record)
    requires Laid(records, end) && records != [] && !records[0].alias
             && r == records[0].(shape := r.shape, alias := true)
    requires r.shape == records[0].shape.(name := r.shape.name)
    ensures Laid(records + [r], end) && PayloadOf(records + [r]) == PayloadOf(records)
    ensures forall k :: BytesOf(records + [r], k) == BytesOf(records, k)
  {
    var all := records + [r];
    assert all[..|records|] == records;
    assert Places(records[0], end);
  }

  // ---- the layout in unbounded arithmetic ---------------------------------------------

  /** What is laid out: a record of its own, or a second name for the first record. */
  datatype Part = Own(shape: Shape) | SecondName(name: string)

  datatype Layout = Layout(records: seq<Record>, end: nat)

  ghost function Aligned(n: nat): nat {
    Floor(n + (ALIGNMENT - 1), ALIGNMENT)
  }

  function SizeOf(s: Shape): nat {
    s.rows * s.columns * s.width
  }

  ghost function Extended(a: Layout, p: Part): Layout {
    match p
    case Own(s) => Layout(a.records + [Record(s, Aligned(a.end), SizeOf(s), false)], Aligned(a.end) + SizeOf(s))
    case SecondName(name) =>
      if a.records == [] then a
      else a.(records := a.records + [a.records[0].(shape := a.records[0].shape.(name := name), alias := true)])
  }

  ghost function Filled(parts: seq<Part>): Layout {
    if parts == [] then Layout([], 0) else Extended(Filled(parts[..|parts| - 1]), parts[|parts| - 1])
  }

  /** The size of the arena for these parts. */
  ghost function Size(parts: seq<Part>): nat {
    Aligned(Filled(parts).end)
  }

  /** The checks on a single part. */
  predicate PartOk(p: Part) {
    p.Own? ==>
      && Dimension(p.shape.columns)
      && (p.shape.category == Weight ==>
            Dimension(p.shape.rows) && p.shape.columns * (if p.shape.width == 2 then 6 else 4) <= STAGING_BYTES)
  }

  /** Everything about these parts is in range. */
  ghost predicate Fits(parts: seq<Part>) {
    (forall i :: 0 <= i < |parts| ==> PartOk(parts[i])) && Size(parts) <= SIZE_MAX
  }

  lemma AlignedFits(n: nat)
    ensures Aligned(n) <= SIZE_MAX <==> n + (ALIGNMENT - 1) <= SIZE_MAX
    ensures n <= Aligned(n)
  {
    var m := n + (ALIGNMENT - 1);
    FloorBounds(m, ALIGNMENT);
    if m > SIZE_MAX {
      FloorLargest(SIZE_MAX + 1, m, ALIGNMENT);
    }
  }

  lemma FilledSnoc(parts: seq<Part>, p: Part)
    ensures Filled(parts + [p]) == Extended(Filled(parts), p) && Filled(parts).end <= Filled(parts + [p]).end
  {
    assert (parts + [p])[..|parts|] == parts;
    AlignedFits(Filled(parts).end);
  }

  lemma {:induction false} FilledGrows(done: seq<Part>, parts: seq<Part>)
    requires done <= parts
    ensures Filled(done).end <= Filled(parts).end
    decreases |parts|
  {
    if |done| < |parts| {
      var n := |parts| - 1;
      assert parts == parts[..n] + [parts[n]];
      assert done <= parts[..n];
      FilledGrows(done, parts[..n]);
      FilledSnoc(parts[..n], parts[n]);
    } else {
      assert done == parts;
    }
  }

  /** A part that is refused, or that would end beyond the word size, spoils every layout it occurs in. */
  lemma Refused(parts: seq<Part>, done: seq<Part>, p: Part)
    requires done + [p] <= parts && (!PartOk(p) || Filled(done + [p]).end > SIZE_MAX)
    ensures !Fits(parts)
  {
    assert parts[|done|] == p;
    FilledGrows(done + [p], parts);
    AlignedFits(Filled(parts).end);
  }

  // ---- arenas in checked arithmetic ----------------------------------------------------

  class Arena {
    var records: seq<Record>
    var end: nat
    var payload: nat

    ghost predicate Valid()
      reads this
    {
      Laid(records, end) && payload == PayloadOf(records)
    }

    ghost function Value(): Layout
      reads this
    {
      Layout(records, end)
    }

    constructor ()
      ensures Valid() && records == [] && end == 0
    {
      records, end, payload := [], 0, 0;
    }

    /** The next record, at the next aligned offset; refused exactly when it would end beyond the word size. */
    method Place(s: Shape) returns (status: Status)
      requires Valid() && s.rows <= SIZE_MAX && s.width > 0
      modifies this
      ensures Valid()
      ensures status == if Extended(old(Value()), Own(s)).end <= SIZE_MAX then Ok else Failed(OverflowError)
      ensures Value() == if status.Ok? then Extended(old(Value()), Own(s)) else old(Value())
    {
      hide Laid, PayloadOf, Product, Floor;
      AlignedFits(end);
      WholeBytes(s);
      var cells := Product(s.rows, s.columns);
      if cells.None? {
        return Failed(OverflowError);
      }
      var bytes := Product(cells.value, s.width);
      var offset := Align(end);
      AlignBounds(end);
      if bytes.None? || offset.None? || Add(offset.value, bytes.value).None? {
        return Failed(OverflowError);
      }
      var r := Record(s, offset.value, bytes.value, false);
      assert Places(r, offset.value + bytes.value);
      LaidSnoc(records, end, r, offset.value + bytes.value);
      records := records + [r];
      payload := payload + bytes.value;
      end := offset.value + bytes.value;
      return Ok;
    }

    /** The same bytes under a second name. */
    method Alias(name: string)
      requires Valid() && records != [] && !records[0].alias
      modifies this
      ensures Valid() && Value() == Extended(old(Value()), SecondName(name))
    {
      var r := records[0].(shape := records[0].shape.(name := name), alias := true);
      LaidAlias(records, end, r);
      records := records + [r];
    }

    /** The arena's size is rounded up as well. */
    method Close() returns (status: Status)
      requires Valid()
      modifies `end
      ensures Valid() && records == old(records)
      ensures status == if Aligned(old(end)) <= SIZE_MAX then Ok else Failed(OverflowError)
      ensures end == if status.Ok? then Aligned(old(end)) else old(end)
    {
      AlignedFits(end);
      var size := Align(end);
      AlignBounds(end);
      if size.None? {
        return Failed(OverflowError);
      }
      LaidLonger(records, end, size.value);
      end := size.value;
      return Ok;
    }
  }

  /** If the cells of a shape already overflow, so do its bytes. */
  lemma WholeBytes(s: Shape)
    requires s.width > 0
    ensures s.rows * s.columns <= SizeOf(s)
  {
    MulStep(0, s.width, s.rows * s.columns);
    assert s.width * (s.rows * s.columns) == SizeOf(s);
  }

  lemma LaidLonger(records: seq<Record>, end: nat, end': nat)
    requires Laid(records, end) && end <= end' <= SIZE_MAX
    ensures Laid(records, end')
  {
    forall i | 0 <= i < |records| ensures Places(records[i], end') {
      assert Places(records[i], end);
    }
  }

  // ---- the plan -----------------------------------------------------------------------

  datatype Dimensions = Dimensions(layers: nat, heads: nat, kvHeads: nat, headDim: nat, embedding: nat,
                                   feedForward: nat, vocabulary: nat)

  datatype StorageLimits = StorageLimits(sequences: nat, maxModelLen: nat, batchTokens: nat, paged: bool, capacity: nat,
                                         half: bool)

  datatype MemoryPlan = MemoryPlan(weights: seq<Record>, regions: seq<Record>, weightBytes: nat, workspaceBytes: nat,
                                   weightPayload: nat, kvBytes: nat, padding: nat, total: nat, capacity: nat,
                                   physicalPages: nat)

  const PAGE_TOKENS: nat := 16

  /** checked_kv_capacity: tokens the cache holds. */
  function KvCapacity(l: StorageLimits): Option<nat> {
    if !(1 <= l.sequences <= 4 && 1 <= l.maxModelLen <= 2048) then None
    else if !l.paged
         then (if l.capacity == 0
               || l.capacity == l.sequences * l.maxModelLen then Some(l.sequences * l.maxModelLen) else None)
    else if l.capacity == 0 || l.capacity % PAGE_TOKENS != 0
            || l.capacity > l.sequences * CeilDiv(l.maxModelLen, PAGE_TOKENS) * PAGE_TOKENS then None
    else Some(l.capacity)
  }

  predicate Dimension(n: nat) {
    1 <= n <= INT_MAX
  }

  /** Rows of the view the layout gives out: [sequence][layer][K/V][position], or [layer][K/V][page][in page]. */
  function KvRows(p: MemoryPlan, l: StorageLimits, d: Dimensions): nat {
    if l.paged then d.layers * 2 * p.physicalPages * PAGE_TOKENS else l.sequences * d.layers * 2 * l.maxModelLen
  }

  function KvWidth(d: Dimensions): nat {
    d.kvHeads * d.headDim
  }

  /** What a finished plan promises. */
  ghost predicate PlanOk(p: MemoryPlan, l: StorageLimits, d: Dimensions, cublas: nat) {
    && Laid(p.weights, p.weightBytes) && Laid(p.regions, p.workspaceBytes)
    && p.weightBytes % ALIGNMENT == 0 && p.workspaceBytes % ALIGNMENT == 0
    && p.weightPayload == PayloadOf(p.weights)
    && p.weightPayload + PayloadOf(p.regions) + p.padding == p.weightBytes + p.workspaceBytes
    && p.kvBytes == KvRows(p, l, d) * KvWidth(d) * 2
    && p.total == p.weightBytes + p.workspaceBytes + p.kvBytes + cublas <= PTRDIFF_MAX
  }

  /** The bytes reserved for the cache are exactly those of the view. */
  lemma KvExact(capacity: nat, l: StorageLimits, d: Dimensions, kv: nat, pages: nat)
    requires kv == KvWidth(d)
    requires l.paged ==> capacity == pages * PAGE_TOKENS
    requires !l.paged ==> capacity == l.sequences * l.maxModelLen
    ensures capacity * d.layers * 2 * (kv * 2) ==
            (if l.paged then d.layers * 2 * pages * PAGE_TOKENS
             else l.sequences * d.layers * 2 * l.maxModelLen) * kv * 2
  {
    if l.paged {
      assert capacity * d.layers * 2 == d.layers * 2 * pages * PAGE_TOKENS by {
        Swap(pages, d.layers);
      }
      Regroup2(capacity * d.layers * 2, kv);
    } else {
      Swap3(l.sequences, l.maxModelLen, d.layers);
      Regroup2(capacity * d.layers * 2, kv);
    }
  }

  lemma Swap(pages: nat, layers: nat)
    ensures pages * PAGE_TOKENS * layers * 2 == layers * 2 * pages * PAGE_TOKENS
  {
    assert pages * layers == layers * pages;
  }

  lemma Swap3(s: nat, m: nat, layers: nat)
    ensures s * m * layers * 2 == s * layers * 2 * m
  {
    assert s * m * layers == s * (m * layers) == s * (layers * m) == s * layers * m;
  }

  lemma Regroup2(n: nat, kv: nat)
    ensures n * (kv * 2) == n * kv * 2
  {
  }

  function Regions(l: StorageLimits, d: Dimensions, q: nat, kv: nat, scores: nat): seq<Shape> {
    CommonRegions(l, d, q, kv, scores) + ExtraRegions(l, d, q)
  }

  function CommonRegions(l: StorageLimits, d: Dimensions, q: nat, kv: nat, scores: nat): seq<Shape> {
    var b := l.batchTokens;
    [Shape("hidden", Activation, b, d.embedding, 4), Shape("normalized", Activation, b, d.embedding, 4),
     Shape("query", Activation, b, q, 4), Shape("key", Activation, b, kv, 4), Shape("value", Activation, b, kv, 4),
     Shape("attention", Activation, b, q, 4), Shape("projected", Activation, b, d.embedding, 4),
     Shape("gate", Activation, b, d.feedForward, 4), Shape("up", Activation, b, d.feedForward, 4),
     Shape("down", Activation, b, d.embedding, 4), Shape("selected_hidden", Activation, b, d.embedding, 4),
     Shape("scores", Attention, b, scores, 4),
     Shape("probabilities", Attention, b, scores, 4),
     Shape("logits", Logits, b, d.vocabulary, 4), Shape("tokens", Metadata, b, 1, 4),
     Shape("positions", Metadata, b, 1, 4),
     Shape("slots", Metadata, b, 1, 4), Shape("selected_rows", Metadata, b, 1, 4),
     Shape("pending_lengths", Metadata, l.sequences, 1, 4), Shape("samples", Metadata, b, 3, 4),
     Shape("status", Metadata, 1, 2, 4),
     Shape("rope_coefficients", Rope, l.maxModelLen, d.headDim, 4)]
  }

  /** Half precision needs a converted input, pages need their table. */
  function ExtraRegions(l: StorageLimits, d: Dimensions, q: nat): seq<Shape> {
    (if l.half then [Shape("matrix_input", Activation, l.batchTokens, Largest(d.embedding, Largest(q, d.feedForward)),
                           2)]
       else [])
    + (if l.paged then [Shape("kv_block_table", Metadata, l.sequences, CeilDiv(l.maxModelLen, PAGE_TOKENS), 4)] else [])
  }

  function Largest(a: nat, b: nat): nat {
    if a < b then b else a
  }

  const LAYER_WEIGHTS: seq<string> :=
      ["attn_norm", "attn_q_norm", "attn_k_norm", "ffn_norm", "attn_q", "attn_k", "attn_v",
                                       "attn_output", "ffn_gate", "ffn_up", "ffn_down"]

  /** Norm weights stay in single precision, and come first. */
  function Half(l: StorageLimits, n: nat): bool {
    l.half && n >= 4
  }

  function WeightPart(name: string, half: bool, tensor: string -> (nat, nat)): Part {
    Own(Shape(name, Weight, tensor(name).0, tensor(name).1, if half then 2 else 4))
  }

  function LayerPart(l: StorageLimits, i: nat, n: nat, tensor: string -> (nat, nat)): Part
    requires n < |LAYER_WEIGHTS|
  {
    WeightPart("blk." + Decimal(i) + "." + LAYER_WEIGHTS[n] + ".weight", Half(l, n), tensor)
  }

  function LayerParts(l: StorageLimits, i: nat, tensor: string -> (nat, nat)): (r: seq<Part>)
    ensures |r| == |LAYER_WEIGHTS| && forall n :: 0 <= n < |r| ==> r[n] == LayerPart(l, i, n, tensor)
  {
    seq(|LAYER_WEIGHTS|, n requires 0 <= n < |LAYER_WEIGHTS| => LayerPart(l, i, n, tensor))
  }

  function AllLayers(l: StorageLimits, layers: nat, tensor: string -> (nat, nat)): seq<Part> {
    if layers == 0 then [] else AllLayers(l, layers - 1, tensor) + LayerParts(l, layers - 1, tensor)
  }

  /** The weights ahead of the layers; a tied output weight is the embedding under a second name. */
  function HeadParts(l: StorageLimits, tied: bool, tensor: string -> (nat, nat)): seq<Part> {
    [WeightPart("token_embd.weight", l.half, tensor), WeightPart("output_norm.weight", false, tensor),
     if tied then SecondName("output.weight") else WeightPart("output.weight", l.half, tensor)]
  }

  function WeightParts(l: StorageLimits, layers: nat, tied: bool, tensor: string -> (nat, nat)): seq<Part> {
    HeadParts(l, tied, tensor) + AllLayers(l, layers, tensor)
  }

  lemma {:induction false} LayersExtend(l: StorageLimits, i: nat, layers: nat, tensor: string -> (nat, nat))
    requires i <= layers
    ensures AllLayers(l, i, tensor) <= AllLayers(l, layers, tensor)
  {
    if i == layers {
    } else {
      LayersExtend(l, i, layers - 1, tensor);
    }
  }

  /** The weights placed when weight `n` of layer `i` is next. */
  ghost function Before(l: StorageLimits, i: nat, n: nat, tied: bool, tensor: string -> (nat, nat)): seq<Part>
    requires n <= |LAYER_WEIGHTS|
  {
    HeadParts(l, tied, tensor) + AllLayers(l, i, tensor) + LayerParts(l, i, tensor)[..n]
  }

  lemma NextWeight(l: StorageLimits, i: nat, n: nat, layers: nat, tied: bool, tensor: string -> (nat, nat))
    requires i < layers && n < |LAYER_WEIGHTS|
    ensures Before(l, i, n + 1, tied, tensor) == Before(l, i, n, tied, tensor) + [LayerPart(l, i, n, tensor)]
    ensures Before(l, i, n + 1, tied, tensor) <= WeightParts(l, layers, tied, tensor)
  {
    hide LayerPart, LayerParts, HeadParts;
    LayersExtend(l, i + 1, layers, tensor);
    JoinPrefix(HeadParts(l, tied, tensor), AllLayers(l, i, tensor), LayerParts(l, i, tensor), n,
               AllLayers(l, layers, tensor));
  }

  lemma JoinPrefix<T>(head: seq<T>, a: seq<T>, part: seq<T>, n: nat, all: seq<T>)
    requires n < |part| && a + part <= all
    ensures head + a + part[..n + 1] == head + a + part[..n] + [part[n]]
    ensures head + a + part[..n + 1] <= head + all
  {
    assert part[..n + 1] == part[..n] + [part[n]];
    assert a + part[..n + 1] == (a + part)[..|a| + n + 1] <= all;
    assert head + a + part[..n + 1] == head + (a + part[..n + 1]);
  }

  lemma WholeLayer(l: StorageLimits, i: nat, tied: bool, tensor: string -> (nat, nat))
    ensures Before(l, i, |LAYER_WEIGHTS|, tied, tensor) == Before(l, i + 1, 0, tied, tensor)
    ensures Before(l, i, 0, tied, tensor) == WeightParts(l, i, tied, tensor)
  {
    assert LayerParts(l, i, tensor)[..|LAYER_WEIGHTS|] == LayerParts(l, i, tensor);
  }

  /** The arena holds these parts, all of them in range. */
  ghost predicate Holds(arena: Arena, parts: seq<Part>)
    reads arena
  {
    arena.Valid() && arena.Value() == Filled(parts) && forall i :: 0 <= i < |parts| ==> PartOk(parts[i])
  }

  /** Checks and places one weight. */
  method PlaceWeight(arena: Arena, name: string, half: bool, tensor: string -> (nat, nat),
                     ghost done: seq<Part>) returns (status: Status)
    requires Holds(arena, done)
    modifies arena
    ensures arena.Valid()
    ensures status.Ok? ==> Holds(arena, done + [WeightPart(name, half, tensor)])
    ensures status.Failed? ==>
              !PartOk(WeightPart(name, half, tensor)) || Filled(done + [WeightPart(name, half, tensor)]).end > SIZE_MAX
  {
    hide Laid, PayloadOf, Extended, Filled;
    var (rows, columns) := tensor(name);
    if !Dimension(rows) || !Dimension(columns) {
      return Failed(InvalidArgument);
    }
    if columns * (if half then 6 else 4) > STAGING_BYTES {
      return Failed(LengthError);
    }
    FilledSnoc(done, WeightPart(name, half, tensor));
    status := arena.Place(Shape(name, Weight, rows, columns, if half then 2 else 4));
  }

  method PlaceHead(arena: Arena, l: StorageLimits, tied: bool, tensor: string -> (nat, nat),
                   ghost all: seq<Part>) returns (status: Status)
    requires Holds(arena, []) && HeadParts(l, tied, tensor) <= all
    modifies arena
    ensures arena.Valid()
    ensures status.Ok? ==> Holds(arena, HeadParts(l, tied, tensor))
    ensures status.Failed? ==> !Fits(all)
  {
    hide Fits, PartOk, Filled, Holds;
    ghost var parts := HeadParts(l, tied, tensor);
    assert [] + [parts[0]] == [parts[0]] && [parts[0]] + [parts[1]] == [parts[0], parts[1]];
    assert [parts[0], parts[1]] + [parts[2]] == parts;
    status := PlaceWeight(arena, "token_embd.weight", l.half, tensor, []);
    if status.Failed? {
      Refused(all, [], parts[0]);
      return;
    }
    status := PlaceWeight(arena, "output_norm.weight", false, tensor, [parts[0]]);
    if status.Failed? {
      Refused(all, [parts[0]], parts[1]);
      return;
    }
    if tied {
      NameTwice(arena, parts[0], parts[1]);
    } else {
      status := PlaceWeight(arena, "output.weight", l.half, tensor, [parts[0], parts[1]]);
      if status.Failed? {
        Refused(all, [parts[0], parts[1]], parts[2]);
      }
    }
  }

  /** The output weight under a second name. */
  method NameTwice(arena: Arena, ghost first: Part, ghost second: Part)
    requires first.Own? && Holds(arena, [first, second])
    modifies arena
    ensures arena.Valid() && Holds(arena, [first, second] + [SecondName("output.weight")])
  {
    hide Laid, PayloadOf;
    FilledSnoc([], first);
    assert [] + [first] == [first] && [first] + [second] == [first, second];
    FilledSnoc([first], second);
    FilledSnoc([first, second], SecondName("output.weight"));
    arena.Alias("output.weight");
  }

  /** All weights, as the unbounded layout has them; refused exactly when one of them is, or the layout does not fit. */
  method PlaceWeights(arena: Arena, l: StorageLimits, layers: nat, tied: bool,
                      tensor: string -> (nat, nat)) returns (status: Status)
    requires Holds(arena, [])
    modifies arena
    ensures arena.Valid()
    ensures status.Ok? <==> Fits(WeightParts(l, layers, tied, tensor))
    ensures status.Ok? ==> arena.Value() == Closed(WeightParts(l, layers, tied, tensor))
  {
    hide Holds, Fits, PartOk, Filled, Closed;
    ghost var all := WeightParts(l, layers, tied, tensor);
    status := PlaceHead(arena, l, tied, tensor, all);
    if status.Failed? {
      return;
    }
    WholeLayer(l, 0, tied, tensor);
    assert WeightParts(l, 0, tied, tensor) == HeadParts(l, tied, tensor);
    for i := 0 to layers
      invariant status == Ok && Holds(arena, WeightParts(l, i, tied, tensor))
    {
      status := PlaceLayer(arena, l, i, layers, tied, tensor);
      if status.Failed? {
        return;
      }
    }
    status := CloseArena(arena, all);
  }

  method PlaceLayer(arena: Arena, l: StorageLimits, i: nat, ghost layers: nat, ghost tied: bool,
                    tensor: string -> (nat, nat)) returns (status: Status)
    requires i < layers && Holds(arena, WeightParts(l, i, tied, tensor))
    modifies arena
    ensures arena.Valid()
    ensures status.Ok? ==> Holds(arena, WeightParts(l, i + 1, tied, tensor))
    ensures status.Failed? ==> !Fits(WeightParts(l, layers, tied, tensor))
  {
    hide WeightParts, Before, LayerPart, Fits, Holds, WeightPart;
    WholeLayer(l, i, tied, tensor);
    WholeLayer(l, i + 1, tied, tensor);
    status := Ok;
    HoldsValid(arena, Before(l, i, 0, tied, tensor));
    for n := 0 to |LAYER_WEIGHTS|
      invariant status == Ok && Holds(arena, Before(l, i, n, tied, tensor)) && arena.Valid()
    {
      NextWeight(l, i, n, layers, tied, tensor);
      status := PlaceNext(arena, l, i, n, tensor, Before(l, i, n, tied, tensor));
      if status.Failed? {
        Refused(WeightParts(l, layers, tied, tensor), Before(l, i, n, tied, tensor), LayerPart(l, i, n, tensor));
        return;
      }
    }
  }

  method PlaceNext(arena: Arena, l: StorageLimits, i: nat, n: nat, tensor: string -> (nat, nat),
                   ghost done: seq<Part>) returns (status: Status)
    requires n < |LAYER_WEIGHTS| && Holds(arena, done)
    modifies arena
    ensures arena.Valid()
    ensures status.Ok? ==> Holds(arena, done + [LayerPart(l, i, n, tensor)])
    ensures status.Failed? ==>
              !PartOk(LayerPart(l, i, n, tensor)) || Filled(done + [LayerPart(l, i, n, tensor)]).end > SIZE_MAX
  {
    status := PlaceWeight(arena, "blk." + Decimal(i) + "." + LAYER_WEIGHTS[n] + ".weight", Half(l, n), tensor, done);
  }

  lemma HoldsValid(arena: Arena, parts: seq<Part>)
    requires Holds(arena, parts)
    ensures arena.Valid()
  {
  }

  /** The finished arena: the records, and the rounded size. */
  ghost function Closed(parts: seq<Part>): Layout {
    Filled(parts).(end := Size(parts))
  }

  function RegionParts(shapes: seq<Shape>): (r: seq<Part>)
    ensures |r| == |shapes| && forall i :: 0 <= i < |r| ==> r[i] == Own(shapes[i])
  {
    seq(|shapes|, i requires 0 <= i < |shapes| => Own(shapes[i]))
  }

  /** Rounds the size of an arena that holds all its parts. */
  method CloseArena(arena: Arena, ghost parts: seq<Part>) returns (status: Status)
    requires Holds(arena, parts)
    modifies arena
    ensures arena.Valid()
    ensures status.Ok? <==> Fits(parts)
    ensures status.Ok? ==> arena.Value() == Closed(parts)
  {
    hide Laid, PayloadOf, PartOk, Filled, Aligned;
    status := arena.Close();
  }

  method PlaceRegion(arena: Arena, s: Shape, ghost done: seq<Part>) returns (status: Status)
    requires Holds(arena, done) && s.rows <= SIZE_MAX && s.width > 0 && s.category != Weight
    modifies arena
    ensures arena.Valid()
    ensures status.Ok? ==> Holds(arena, done + [Own(s)])
    ensures status.Failed? ==> !PartOk(Own(s)) || Filled(done + [Own(s)]).end > SIZE_MAX
  {
    hide Laid, PayloadOf, Extended, Filled;
    FilledSnoc(done, Own(s));
    if !Dimension(s.columns) {
      return Failed(InvalidArgument);
    }
    status := arena.Place(s);
  }

  /** All workspace regions, likewise. */
  method PlaceRegions(arena: Arena, shapes: seq<Shape>) returns (status: Status)
    requires Holds(arena, [])
    requires forall i :: 0 <= i < |shapes| ==>
               shapes[i].rows <= SIZE_MAX && shapes[i].width > 0 && shapes[i].category != Weight
    modifies arena
    ensures arena.Valid()
    ensures status.Ok? <==> Fits(RegionParts(shapes))
    ensures status.Ok? ==> arena.Value() == Closed(RegionParts(shapes))
  {
    hide Holds, Fits, PartOk, Filled, Closed;
    ghost var parts := RegionParts(shapes);
    HoldsValid(arena, []);
    for i := 0 to |shapes|
      invariant Holds(arena, parts[..i]) && arena.Valid()
    {
      assert parts[..i + 1] == parts[..i] + [Own(shapes[i])];
      status := PlaceRegion(arena, shapes[i], parts[..i]);
      if status.Failed? {
        Refused(parts, parts[..i], Own(shapes[i]));
        return;
      }
    }
    assert parts[..|shapes|] == parts;
    status := CloseArena(arena, parts);
  }

  /** Bytes of the cache, by checked products. */
  method KvBytes(capacity: nat, layers: nat, kv: nat) returns (bytes: Option<nat>)
    requires 0 < capacity <= SIZE_MAX && 0 < kv <= INT_MAX
    ensures bytes == if capacity * layers * 2 * (kv * 2) <= SIZE_MAX then Some(capacity * layers * 2 * (kv * 2))
                     else None
  {
    KvGrows(capacity, layers, kv);
    var a := Product(capacity, layers);
    if a.None? {
      return None;
    }
    var b := Product(a.value, 2);
    var width := Product(kv, 2);
    if b.None? || width.None? {
      return None;
    }
    bytes := Product(b.value, width.value);
  }

  lemma KvGrows(capacity: nat, layers: nat, kv: nat)
    requires kv > 0
    ensures capacity * layers <= capacity * layers * 2 <= capacity * layers * 2 * (kv * 2)
  {
    MulStep(0, kv * 2, capacity * layers * 2);
    assert (kv * 2) * (capacity * layers * 2) == capacity * layers * 2 * (kv * 2);
  }

  lemma CapacityBounded(l: StorageLimits)
    requires KvCapacity(l).Some?
    ensures 0 < KvCapacity(l).value <= 4 * 2048 && l.sequences <= 4 && l.maxModelLen <= 2048
    ensures l.paged ==> KvCapacity(l).value == KvCapacity(l).value / PAGE_TOKENS * PAGE_TOKENS
    ensures l.paged ==>
              KvCapacity(l).value == l.capacity && l.capacity <= l.sequences * CeilDiv(l.maxModelLen, 16) * 16
    ensures !l.paged ==> KvCapacity(l).value == l.sequences * l.maxModelLen
  {
    hide CeilDiv;
    CeilDivBounds(l.maxModelLen, PAGE_TOKENS);
    FewTimes(l.sequences, CeilDiv(l.maxModelLen, PAGE_TOKENS), 128);
    FewTimes(l.sequences, l.maxModelLen, 2048);
  }

  lemma FewTimes(k: nat, n: nat, most: nat)
    requires 1 <= k <= 4 && 1 <= n <= most
    ensures 1 <= k * n <= 4 * most
  {
    assert k == 1 || k == 2 || k == 3 || k == 4;
  }

  function RegionsOf(l: StorageLimits, d: Dimensions): seq<Part> {
    RegionParts(Regions(l, d, d.heads * d.headDim, d.kvHeads * d.headDim, d.heads * l.maxModelLen))
  }

  ghost function KvBytesOf(l: StorageLimits, d: Dimensions): nat {
    (if KvCapacity(l).Some? then KvCapacity(l).value else 0) * d.layers * 2 * (KvWidth(d) * 2)
  }

  ghost function TotalOf(l: StorageLimits, d: Dimensions, tied: bool, tensor: string -> (nat, nat), cublas: nat): nat {
    Size(WeightParts(l, d.layers, tied, tensor)) + Size(RegionsOf(l, d)) + KvBytesOf(l, d) + cublas
  }

  /** One to four sequences of up to 2048 tokens. Pages are whole pages, at most as many as all sequences together
      can use; a contiguous cache has exactly the room of all sequences, whether or not that is said. */
  ghost predicate CapacityAccepted(l: StorageLimits) {
    && 1 <= l.sequences <= 4 && 1 <= l.maxModelLen <= 2048
    && (l.paged ==>
          0 < l.capacity && l.capacity % 16 == 0 && l.capacity <= l.sequences * (CeilDiv(l.maxModelLen, 16) * 16))
    && (!l.paged ==> l.capacity == 0 || l.capacity == l.sequences * l.maxModelLen)
  }

  lemma CapacityIff(l: StorageLimits)
    ensures KvCapacity(l).Some? <==> CapacityAccepted(l)
  {
    hide CeilDiv;
    var n := CeilDiv(l.maxModelLen, 16);
    assert l.sequences * n * 16 == l.sequences * (n * 16);
  }

  /** What it takes for a plan to exist, in unbounded arithmetic. */
  ghost predicate Plannable(l: StorageLimits, d: Dimensions, trainedContext: nat, tied: bool,
                            tensor: string -> (nat, nat), cublas: nat) {
    && CapacityAccepted(l) && !(l.paged && l.half) && Dimension(l.batchTokens) && l.maxModelLen <= trainedContext
    && Fits(WeightParts(l, d.layers, tied, tensor)) && Fits(RegionsOf(l, d))
    && TotalOf(l, d, tied, tensor, cublas) <= PTRDIFF_MAX
  }

  /** A product that is a column count is in range if its region is. */
  lemma ProductsInRange(l: StorageLimits, d: Dimensions)
    ensures Fits(RegionsOf(l, d)) ==>
              Dimension(d.heads * d.headDim) && Dimension(d.kvHeads * d.headDim) && Dimension(d.heads * l.maxModelLen)
  {
    hide Size;
    var parts := RegionsOf(l, d);
    if Fits(parts) {
      assert PartOk(parts[2]) && PartOk(parts[3]) && PartOk(parts[11]);
    }
  }

  /** A region of this name lies in the workspace, with this many rows and columns of so many bytes each. */
  ghost predicate Lies(w: seq<Record>, name: string, rows: nat, columns: nat, width: nat) {
    exists i :: 0 <= i < |w| && !w[i].alias && w[i].shape.name == name && w[i].shape.rows == rows
                && w[i].shape.columns == columns && w[i].shape.width == width && w[i].bytes == rows * columns * width
  }

  /** What the workspace has room for: of every intermediate value a row for each token of a batch, a score for every
      head and every position of the context, three samples of a row, the rotation of every position, and, for single
      precision or pages, the regions those alone need. */
  ghost predicate RoomFor(w: seq<Record>, l: StorageLimits, d: Dimensions) {
    var b := l.batchTokens;
    && |w| == 22 + (if l.half then 1 else 0) + (if l.paged then 1 else 0)
    && RoomForTokens(w, b, d)
    && Lies(w, "scores", b, d.heads * l.maxModelLen, 4) && Lies(w, "probabilities", b, d.heads * l.maxModelLen, 4)
    && Lies(w, "logits", b, d.vocabulary, 4)
    && Lies(w, "pending_lengths", l.sequences, 1, 4) && Lies(w, "status", 1, 2, 4)
    && Lies(w, "rope_coefficients", l.maxModelLen, d.headDim, 4)
    && (l.half ==>
          exists n: nat :: n in {d.embedding, d.heads * d.headDim, d.feedForward}
                           && d.embedding <= n && d.heads * d.headDim <= n && d.feedForward <= n
                           && Lies(w, "matrix_input", b, n, 2))
    && (l.paged ==>
          exists n: nat {:trigger Lies(w, "kv_block_table", l.sequences, n, 4)} ::
            l.maxModelLen <= n * 16 < l.maxModelLen + 16 && Lies(w, "kv_block_table", l.sequences, n, 4))
  }

  ghost predicate RoomForTokens(w: seq<Record>, b: nat, d: Dimensions) {
    && Lies(w, "hidden", b, d.embedding, 4) && Lies(w, "normalized", b, d.embedding, 4)
    && Lies(w, "projected", b, d.embedding, 4) && Lies(w, "down", b, d.embedding, 4)
    && Lies(w, "selected_hidden", b, d.embedding, 4)
    && Lies(w, "query", b, d.heads * d.headDim, 4) && Lies(w, "attention", b, d.heads * d.headDim, 4)
    && Lies(w, "key", b, d.kvHeads * d.headDim, 4) && Lies(w, "value", b, d.kvHeads * d.headDim, 4)
    && Lies(w, "gate", b, d.feedForward, 4) && Lies(w, "up", b, d.feedForward, 4)
    && Lies(w, "tokens", b, 1, 4) && Lies(w, "positions", b, 1, 4) && Lies(w, "slots", b, 1, 4)
    && Lies(w, "selected_rows", b, 1, 4) && Lies(w, "samples", b, 3, 4)
  }

  /** Records of parts of their own have the parts' shapes and all their bytes. */
  lemma {:induction false} RecordsHold(parts: seq<Part>)
    requires parts != [] ==> parts[0].Own?
    ensures |Filled(parts).records| == |parts|
    ensures forall i :: 0 <= i < |parts| && parts[i].Own? ==>
              var r := Filled(parts).records[i];
              r.shape == parts[i].shape && r.bytes == SizeOf(parts[i].shape) && !r.alias
  {
    hide Aligned, SizeOf;
    if parts != [] {
      RecordsHold(parts[..|parts| - 1]);
    }
  }

  lemma Lying(parts: seq<Part>, i: nat, s: Shape)
    requires i < |parts| && parts[0].Own? && parts[i] == Own(s)
    ensures Lies(Closed(parts).records, s.name, s.rows, s.columns, s.width)
  {
    hide Filled, Size;
    RecordsHold(parts);
    assert Filled(parts).records[i].shape == s;
  }

  /** The workspace of a plan has all that room. */
  lemma WorkspaceRoom(l: StorageLimits, d: Dimensions)
    ensures RoomFor(Closed(RegionsOf(l, d)).records, l, d)
  {
    hide Filled, Size, Lies, CommonRegions, ExtraRegions, RoomForTokens, Closed;
    var q, kv, scores := d.heads * d.headDim, d.kvHeads * d.headDim, d.heads * l.maxModelLen;
    var w := Closed(RegionsOf(l, d)).records;
    RegionsLie(l, d, q, kv, scores, w);
    CommonRoom(l, d, q, kv, scores, w);
    ExtraRoom(l, d, q, kv, scores, w);
  }

  ghost predicate LieAll(w: seq<Record>, shapes: seq<Shape>) {
    forall i :: 0 <= i < |shapes| ==> Lies(w, shapes[i].name, shapes[i].rows, shapes[i].columns, shapes[i].width)
  }

  lemma RegionsLie(l: StorageLimits, d: Dimensions, q: nat, kv: nat, scores: nat, w: seq<Record>)
    requires w == Closed(RegionParts(Regions(l, d, q, kv, scores))).records
    ensures LieAll(w, CommonRegions(l, d, q, kv, scores)) && LieAll(w, ExtraRegions(l, d, q))
    ensures |w| == |CommonRegions(l, d, q, kv, scores)| + |ExtraRegions(l, d, q)|
  {
    hide Filled, Size, Lies, CommonRegions, ExtraRegions;
    var common, extra := CommonRegions(l, d, q, kv, scores), ExtraRegions(l, d, q);
    var parts := RegionParts(common + extra);
    RecordsHold(parts);
    forall i | 0 <= i < |common|
      ensures Lies(w, common[i].name, common[i].rows, common[i].columns, common[i].width)
    {
      Lying(parts, i, common[i]);
    }
    forall i | 0 <= i < |extra| ensures Lies(w, extra[i].name, extra[i].rows, extra[i].columns, extra[i].width) {
      Lying(parts, |common| + i, extra[i]);
    }
  }

  lemma CommonRoom(l: StorageLimits, d: Dimensions, q: nat, kv: nat, scores: nat, w: seq<Record>)
    requires LieAll(w, CommonRegions(l, d, q, kv, scores))
    ensures |CommonRegions(l, d, q, kv, scores)| == 22
    ensures q == d.heads * d.headDim && kv == d.kvHeads * d.headDim ==> RoomForTokens(w, l.batchTokens, d)
    ensures scores == d.heads * l.maxModelLen ==>
      && Lies(w, "scores", l.batchTokens, d.heads * l.maxModelLen, 4)
      && Lies(w, "probabilities", l.batchTokens, d.heads * l.maxModelLen, 4)
    ensures Lies(w, "logits", l.batchTokens, d.vocabulary, 4)
    ensures Lies(w, "pending_lengths", l.sequences, 1, 4) && Lies(w, "status", 1, 2, 4)
    ensures Lies(w, "rope_coefficients", l.maxModelLen, d.headDim, 4)
  {
    hide Lies;
    var shapes := CommonRegions(l, d, q, kv, scores);
    assert shapes[0].name == "hidden" && shapes[1].name == "normalized" && shapes[2].name == "query"
           && shapes[3].name == "key" && shapes[4].name == "value" && shapes[5].name == "attention"
           && shapes[6].name == "projected" && shapes[7].name == "gate" && shapes[8].name == "up"
           && shapes[9].name == "down" && shapes[10].name == "selected_hidden" && shapes[11].name == "scores"
           && shapes[12].name == "probabilities" && shapes[13].name == "logits" && shapes[14].name == "tokens"
           && shapes[15].name == "positions" && shapes[16].name == "slots" && shapes[17].name == "selected_rows"
           && shapes[18].name == "pending_lengths" && shapes[19].name == "samples"
           && shapes[20].name == "status" && shapes[21].name == "rope_coefficients";
  }

  lemma ExtraRoom(l: StorageLimits, d: Dimensions, q: nat, kv: nat, scores: nat, w: seq<Record>)
    requires LieAll(w, ExtraRegions(l, d, q))
    ensures |ExtraRegions(l, d, q)| == (if l.half then 1 else 0) + (if l.paged then 1 else 0)
    ensures l.half ==>
              exists n: nat :: n in {d.embedding, q, d.feedForward} && d.embedding <= n && q <= n && d.feedForward <= n
                               && Lies(w, "matrix_input", l.batchTokens, n, 2)
    ensures l.paged ==>
              exists n: nat {:trigger Lies(w, "kv_block_table", l.sequences, n, 4)} ::
                l.maxModelLen <= n * 16 < l.maxModelLen + 16 && Lies(w, "kv_block_table", l.sequences, n, 4)
  {
    hide Lies;
    CeilDivBounds(l.maxModelLen, PAGE_TOKENS);
    var shapes := ExtraRegions(l, d, q);
    if l.half {
      assert shapes[0].name == "matrix_input";
    }
    if l.paged {
      assert shapes[|shapes| - 1].name == "kv_block_table";
    }
  }

  lemma RegionsShaped(l: StorageLimits, d: Dimensions, q: nat, kv: nat, scores: nat)
    requires Dimension(l.batchTokens) && l.sequences <= 4 && l.maxModelLen <= 2048
    ensures forall i :: 0 <= i < |Regions(l, d, q, kv, scores)| ==>
              var s := Regions(l, d, q, kv, scores)[i]; s.rows <= SIZE_MAX && s.width > 0 && s.category != Weight
  {
  }

  /** The plan, made in checked 64-bit arithmetic: there is one exactly when the layout in unbounded arithmetic is in
      range, and then it is that layout. A finished plan is sound: records aligned, apart and inside their arenas, every
      byte of both arenas either payload or padding, and the cache as large as the view handed out. */
  method MakePlan(l: StorageLimits, d: Dimensions, trainedContext: nat, tied: bool, tensor: string -> (nat, nat),
                  cublas: nat)
    returns (r: Result<MemoryPlan>)
    requires cublas <= SIZE_MAX && d.kvHeads <= SIZE_MAX && d.heads <= SIZE_MAX
    ensures r.Success? <==> Plannable(l, d, trainedContext, tied, tensor, cublas)
    ensures r.Success? ==>
              && PlanOk(r.value, l, d, cublas)
              && Layout(r.value.weights, r.value.weightBytes) == Closed(WeightParts(l, d.layers, tied, tensor))
              && Layout(r.value.regions, r.value.workspaceBytes) == Closed(RegionsOf(l, d))
    ensures r.Success? ==>
              && AllWeights(r.value.weights, d.layers, tied, l.half, tensor) && RoomFor(r.value.regions, l, d)
              && (if l.paged then
                    r.value.capacity == l.capacity == r.value.physicalPages * 16
                    && l.capacity <= l.sequences * CeilDiv(l.maxModelLen, 16) * 16
                  else r.value.capacity == l.sequences * l.maxModelLen && r.value.physicalPages == 0)
  {
    hide CapacityAccepted, RoomFor, AllWeights, CeilDiv, Laid, PayloadOf, KvCapacity, Product, Regions, RegionParts,
         WeightParts, KvRows,
         KvWidth, Fits, Size, Closed,
         Filled;
    CapacityIff(l);
    var capacity := KvCapacity(l);
    if capacity.None? || (l.paged && l.half) || !Dimension(l.batchTokens) || l.maxModelLen > trainedContext {
      return Failure(InvalidArgument);
    }
    CapacityBounded(l);
    ProductsInRange(l, d);
    KvWidthIs(d);
    var weights := new Arena();
    var regions := new Arena();
    NothingHeld(weights);
    NothingHeld(regions);
    var status := PlaceWeights(weights, l, d.layers, tied, tensor);
    if status.Failed? {
      return Failure(status.error);
    }
    var q, kv, scores := Product(d.heads, d.headDim), Product(d.kvHeads, d.headDim), Product(d.heads, l.maxModelLen);
    if q.None? || kv.None? || scores.None? {
      return Failure(OverflowError);
    }
    RegionsShaped(l, d, q.value, kv.value, scores.value);
    NothingHeld(regions);
    status := PlaceRegions(regions, Regions(l, d, q.value, kv.value, scores.value));
    if status.Failed? {
      return Failure(status.error);
    }
    var kvBytes := KvBytes(capacity.value, d.layers, kv.value);
    if kvBytes.None? {
      return Failure(OverflowError);
    }
    ClosedSize(WeightParts(l, d.layers, tied, tensor));
    ClosedSize(RegionsOf(l, d));
    WeightsListed(l, d.layers, tied, tensor);
    WorkspaceRoom(l, d);
    r := Summed(l, d, weights, regions, capacity.value, kv.value, kvBytes.value, cublas);
  }

  lemma {:induction false} RecordsKept(done: seq<Part>, parts: seq<Part>)
    requires done <= parts
    ensures Filled(done).records <= Filled(parts).records
    decreases |parts|
  {
    if |done| < |parts| {
      var n := |parts| - 1;
      assert done <= parts[..n] && parts == parts[..n] + [parts[n]];
      RecordsKept(done, parts[..n]);
      FilledSnoc(parts[..n], parts[n]);
    } else {
      assert done == parts;
    }
  }

  /** A tied output weight is the embedding once more: same place, same bytes. */
  lemma TiedOutput(l: StorageLimits, layers: nat, tensor: string -> (nat, nat))
    ensures var records := Closed(WeightParts(l, layers, true, tensor)).records;
      && |records| > 2 && !records[0].alias && records[0].shape.name == "token_embd.weight"
      && records[2] == records[0].(shape := records[0].shape.(name := "output.weight"), alias := true)
  {
    var parts := HeadParts(l, true, tensor);
    FilledSnoc([], parts[0]);
    FilledSnoc([parts[0]], parts[1]);
    FilledSnoc([parts[0], parts[1]], parts[2]);
    assert [] + [parts[0]] == [parts[0]] && [parts[0]] + [parts[1]] == [parts[0], parts[1]];
    assert [parts[0], parts[1]] + [parts[2]] == parts;
    RecordsKept(parts, WeightParts(l, layers, true, tensor));
  }

  // ---- which weights there are ------------------------------------------------------

  predicate EndsWith(s: string, suffix: string) {
    |suffix| <= |s| && s[|s| - |suffix|..] == suffix
  }

  /** A weight as its tensor has it; with half-precision matrices only the norms stay in single precision. */
  ghost predicate IsWeight(r: Record, name: string, half: bool, tensor: string -> (nat, nat)) {
    && !r.alias && r.shape.name == name && r.shape.category == Weight
    && r.shape.rows == tensor(name).0 && r.shape.columns == tensor(name).1
    && r.shape.width == (if half && !EndsWith(name, "_norm.weight") then 2 else 4)
    && r.bytes == r.shape.rows * r.shape.columns * r.shape.width
  }

  ghost predicate LayerWeight(w: seq<Record>, i: nat, n: nat, half: bool, tensor: string -> (nat, nat)) {
    n < |LAYER_WEIGHTS| && 3 + 11 * i + n < |w|
    && IsWeight(w[3 + 11 * i + n], "blk." + Decimal(i) + "." + LAYER_WEIGHTS[n] + ".weight", half, tensor)
  }

  /** Three weights of the model and eleven of every layer. */
  ghost predicate AllWeights(w: seq<Record>, layers: nat, tied: bool, half: bool, tensor: string -> (nat, nat)) {
    && |w| == 3 + 11 * layers
    && IsWeight(w[0], "token_embd.weight", half, tensor) && IsWeight(w[1], "output_norm.weight", half, tensor)
    && w[2].shape.name == "output.weight" && w[2].alias == tied
    && (!tied ==> IsWeight(w[2], "output.weight", half, tensor))
    && forall i, n :: 0 <= i < layers && 0 <= n < 11 ==> LayerWeight(w, i, n, half, tensor)
  }

  /** The weight arena of a plan holds exactly those. */
  lemma WeightsListed(l: StorageLimits, layers: nat, tied: bool, tensor: string -> (nat, nat))
    ensures AllWeights(Closed(WeightParts(l, layers, tied, tensor)).records, layers, tied, l.half, tensor)
  {
    hide Filled, Size, LayerParts, LayerPart, AllLayers, LayerWeight, EndsWith, Decimal;
    var parts := WeightParts(l, layers, tied, tensor);
    var w := Closed(parts).records;
    RecordsHold(parts);
    LayersCounted(l, layers, tensor);
    HeadNames();
    if tied {
      TiedOutput(l, layers, tensor);
    }
    forall i, n | 0 <= i < layers && 0 <= n < 11 ensures LayerWeight(w, i, n, l.half, tensor) {
      LayerListed(l, layers, tied, tensor, i, n);
    }
  }

  lemma LayerListed(l: StorageLimits, layers: nat, tied: bool, tensor: string -> (nat, nat), i: nat, n: nat)
    requires i < layers && n < 11
    ensures LayerWeight(Closed(WeightParts(l, layers, tied, tensor)).records, i, n, l.half, tensor)
  {
    hide Filled, Size, LayerParts, AllLayers, EndsWith, Decimal;
    var parts := WeightParts(l, layers, tied, tensor);
    RecordsHold(parts);
    LayersCounted(l, layers, tensor);
    LayersCounted(l, i, tensor);
    NextWeight(l, i, n, layers, tied, tensor);
    assert parts[3 + 11 * i + n] == LayerPart(l, i, n, tensor);
    NormNames(i, n);
  }

  lemma {:induction false} LayersCounted(l: StorageLimits, layers: nat, tensor: string -> (nat, nat))
    ensures |AllLayers(l, layers, tensor)| == 11 * layers
  {
    hide LayerPart;
    if layers > 0 {
      LayersCounted(l, layers - 1, tensor);
    }
  }

  lemma HeadNames()
    ensures !EndsWith("token_embd.weight", "_norm.weight") && EndsWith("output_norm.weight", "_norm.weight")
            && !EndsWith("output.weight", "_norm.weight")
  {
    assert "token_embd.weight"[5..][1] != "_norm.weight"[1];
    assert "output.weight"[1..][0] != "_norm.weight"[0];
  }

  /** The norms are the first four weights of a layer. */
  lemma NormNames(i: nat, n: nat)
    requires n < 11
    ensures EndsWith("blk." + Decimal(i) + "." + LAYER_WEIGHTS[n] + ".weight", "_norm.weight") <==> n < 4
  {
    hide Decimal, LAYER_WEIGHTS;
    NormName(n);
    var x := LAYER_WEIGHTS[n];
    EndOf("blk." + Decimal(i) + ".", x, "_norm", ".weight");
    assert "_norm.weight" == "_norm" + ".weight";
  }

  lemma NormName(n: nat)
    requires n < 11
    ensures |LAYER_WEIGHTS| == 11 && |LAYER_WEIGHTS[n]| >= 5
    ensures EndsWith(LAYER_WEIGHTS[n], "_norm") <==> n < 4
  {
    var x := LAYER_WEIGHTS[n];
    assert n >= 4 ==> x[|x| - 5..][4] != 'm';
  }

  lemma EndOf(head: string, x: string, suffix: string, tail: string)
    requires |suffix| <= |x|
    ensures EndsWith(head + x + tail, suffix + tail) <==> EndsWith(x, suffix)
  {
    var name, both := head + x + tail, suffix + tail;
    assert name[|name| - |both|..] == x[|x| - |suffix|..] + tail;
    assert both[..|suffix|] == suffix && (x[|x| - |suffix|..] + tail)[..|suffix|] == x[|x| - |suffix|..];
  }

  lemma KvWidthIs(d: Dimensions)
    ensures KvWidth(d) == d.kvHeads * d.headDim
  {
  }

  lemma NothingHeld(arena: Arena)
    requires arena.Valid() && arena.records == [] && arena.end == 0
    ensures Holds(arena, [])
  {
  }

  lemma ClosedSize(parts: seq<Part>)
    ensures Closed(parts).end == Size(parts) && Size(parts) % ALIGNMENT == 0
  {
    FloorBounds(Filled(parts).end + (ALIGNMENT - 1), ALIGNMENT);
  }

  /** Adds up the plan; the padding cannot overflow unless the total does. */
  method Summed(l: StorageLimits, d: Dimensions, weights: Arena, regions: Arena, capacity: nat, kv: nat, kvBytes: nat,
                cublas: nat)
    returns (r: Result<MemoryPlan>)
    requires weights.Valid() && regions.Valid() && weights.end % ALIGNMENT == 0 && regions.end % ALIGNMENT == 0
    requires kv == d.kvHeads * d.headDim && kvBytes == capacity * d.layers * 2 * (kv * 2)
    requires l.paged ==> capacity == capacity / PAGE_TOKENS * PAGE_TOKENS
    requires !l.paged ==> capacity == l.sequences * l.maxModelLen
    ensures r.Success? <==> weights.end + regions.end + kvBytes + cublas <= PTRDIFF_MAX
    ensures r.Success? ==>
              && PlanOk(r.value, l, d, cublas)
              && r.value.weights == weights.records && r.value.regions == regions.records
              && r.value.weightBytes == weights.end && r.value.workspaceBytes == regions.end
              && r.value.capacity == capacity
              && r.value.physicalPages == (if l.paged then capacity / PAGE_TOKENS else 0)
  {
    PayloadFits(weights);
    PayloadFits(regions);
    var padding := Add(weights.end - weights.payload, regions.end - regions.payload);
    var total := weights.end + regions.end + kvBytes + cublas;
    if padding.None? || total > SIZE_MAX {
      return Failure(OverflowError);
    }
    if total > PTRDIFF_MAX {
      return Failure(LengthError);
    }
    var pages := if l.paged then capacity / PAGE_TOKENS else 0;
    KvExact(capacity, l, d, kv, pages);
    r := Success(MemoryPlan(weights.records, regions.records, weights.end, regions.end, weights.payload, kvBytes,
                            padding.value,
                            total, capacity, pages));
  }

  lemma PayloadFits(arena: Arena)
    requires arena.Valid()
    ensures arena.payload <= arena.end
  {
  }
}
