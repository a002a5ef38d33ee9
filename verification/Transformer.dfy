/** What a decoder-only transformer computes from one token history alone, with the numeric kernels left
    uninterpreted. The cache, the batching and the paging have to reproduce exactly this. */
module Transformer {
  import opened PageContents

  type Hidden = seq<real>

  /** The numeric kernels: nothing is assumed about any of them. Positions enter the projections through the rotary
      encoding; attention sees the cached keys and values of its own sequence only. */
  datatype Kernels = Kernels(
    embed: int -> Hidden,
    keyAt: (nat, nat, Hidden, nat) -> real,
    valueAt: (nat, nat, Hidden, nat) -> real,
    attend: (nat, nat, Hidden, seq<seq<Half>>, seq<seq<Half>>) -> Hidden,
    greedy: Hidden -> int,
    toHalf: real -> Half)

  function KeyVector(k: Kernels, width: nat, layer: nat, position: nat, x: Hidden): seq<real> {
    seq(width, i requires 0 <= i < width => k.keyAt(layer, position, x, i))
  }

  function ValueVector(k: Kernels, width: nat, layer: nat, position: nat, x: Hidden): seq<real> {
    seq(width, i requires 0 <= i < width => k.valueAt(layer, position, x, i))
  }

  /** The residual stream of position `p` at the input of layer `l`. */
  ghost function HiddenAt(k: Kernels, width: nat, h: seq<int>, p: nat, l: nat): Hidden
    requires p < |h|
    decreases l, 0
  {
    if l == 0 then k.embed(h[p])
    else k.attend(l - 1, p, HiddenAt(k, width, h, p, l - 1),
                  KeysTo(k, width, h, p + 1, l - 1), ValuesTo(k, width, h, p + 1, l - 1))
  }

  /** The cached key and value of position `p` in layer `l`. */
  ghost function SlotAt(k: Kernels, width: nat, h: seq<int>, p: nat, l: nat): (r: Slot)
    requires p < |h|
    ensures r.Written?
    decreases l, 1
  {
    var x := HiddenAt(k, width, h, p, l);
    Written(Halves(k.toHalf, KeyVector(k, width, l, p, x)), Halves(k.toHalf, ValueVector(k, width, l, p, x)))
  }

  ghost function KeysTo(k: Kernels, width: nat, h: seq<int>, n: nat, l: nat): (r: seq<seq<Half>>)
    requires n <= |h|
    ensures |r| == n && forall j :: 0 <= j < n ==> r[j] == SlotAt(k, width, h, j, l).key
    decreases l, 2
  {
    seq(n, j requires 0 <= j < n => SlotAt(k, width, h, j, l).key)
  }

  ghost function ValuesTo(k: Kernels, width: nat, h: seq<int>, n: nat, l: nat): (r: seq<seq<Half>>)
    requires n <= |h|
    ensures |r| == n && forall j :: 0 <= j < n ==> r[j] == SlotAt(k, width, h, j, l).value
    decreases l, 2
  {
    seq(n, j requires 0 <= j < n => SlotAt(k, width, h, j, l).value)
  }

  /** Causality: a position only depends on the history up to it, so histories that agree up to a position agree on
      everything cached for it. This is what makes a cached prefix reusable by another sequence. */
  lemma {:induction false} DependsOnPrefix(k: Kernels, width: nat, h: seq<int>, g: seq<int>, p: nat, l: nat)
    requires p < |h| && p < |g| && h[..p + 1] == g[..p + 1]
    ensures HiddenAt(k, width, h, p, l) == HiddenAt(k, width, g, p, l)
    ensures SlotAt(k, width, h, p, l) == SlotAt(k, width, g, p, l)
    decreases l
  {
    if l == 0 {
      assert h[p] == h[..p + 1][p] == g[..p + 1][p] == g[p];
    } else {
      var below := l - 1;
      DependsOnPrefix(k, width, h, g, p, below);
      forall j | 0 <= j <= p ensures SlotAt(k, width, h, j, below) == SlotAt(k, width, g, j, below) {
        assert h[..j + 1] == h[..p + 1][..j + 1] == g[..p + 1][..j + 1] == g[..j + 1];
        DependsOnPrefix(k, width, h, g, j, below);
      }
      assert KeysTo(k, width, h, p + 1, below) == KeysTo(k, width, g, p + 1, below);
      assert ValuesTo(k, width, h, p + 1, below) == ValuesTo(k, width, g, p + 1, below);
    }
  }

  /** The greedy next token after a nonempty history. */
  ghost function NextToken(k: Kernels, width: nat, layers: nat, h: seq<int>): int
    requires h != []
  {
    k.greedy(HiddenAt(k, width, h, |h| - 1, layers))
  }

  // ---- attention sees all of the history ------------------------------------------------

  /** One layer, in terms of the kernels alone: attention is given, for every position up to its own and in order, the
      key and the value computed from that position's stream. */
  lemma AttendsToAll(k: Kernels, width: nat, h: seq<int>, p: nat, l: nat)
    requires p < |h|
    ensures HiddenAt(k, width, h, p, 0) == k.embed(h[p])
    ensures HiddenAt(k, width, h, p, l + 1)
         == k.attend(l, p, HiddenAt(k, width, h, p, l),
                     seq(p + 1, j requires 0 <= j < p + 1 =>
                       seq(width, i requires 0 <= i < width => k.toHalf(k.keyAt(l, j, HiddenAt(k, width, h, j, l),
                               i)))),
                     seq(p + 1, j requires 0 <= j < p + 1 =>
                       seq(width, i requires 0 <= i < width => k.toHalf(k.valueAt(l, j, HiddenAt(k, width, h, j, l),
                               i)))))
  {
    forall j | 0 <= j < p + 1
      ensures SlotAt(k, width, h, j, l).key
           == seq(width, i requires 0 <= i < width => k.toHalf(k.keyAt(l, j, HiddenAt(k, width, h, j, l), i)))
      ensures SlotAt(k, width, h, j, l).value
           == seq(width, i requires 0 <= i < width => k.toHalf(k.valueAt(l, j, HiddenAt(k, width, h, j, l), i)))
    {
    }
    assert KeysTo(k, width, h, p + 1, l)
        == seq(p + 1, j requires 0 <= j < p + 1 =>
             seq(width, i requires 0 <= i < width => k.toHalf(k.keyAt(l, j, HiddenAt(k, width, h, j, l), i))));
    assert ValuesTo(k, width, h, p + 1, l)
        == seq(p + 1, j requires 0 <= j < p + 1 =>
             seq(width, i requires 0 <= i < width => k.toHalf(k.valueAt(l, j, HiddenAt(k, width, h, j, l), i))));
  }

  /** Kernels whose streams list the layers they have passed. */
  function Recorder(layers: nat): Kernels {
    Kernels(
      (t: int) => [],
      (l: nat, p: nat, x: Hidden, i: nat) => 0.0,
      (l: nat, p: nat, x: Hidden, i: nat) => 0.0,
      (l: nat, p: nat, x: Hidden, keys: seq<seq<Half>>, values: seq<seq<Half>>) => x + [l as real],
      (x: Hidden) => if x == Upwards(layers) then 1 else 0,
      (x: real) => 0)
  }

  function Upwards(n: nat): (r: Hidden)
    ensures |r| == n
  {
    seq(n, i requires 0 <= i < n => i as real)
  }

  lemma {:induction false} StreamRecords(layers: nat, width: nat, h: seq<int>, p: nat, l: nat)
    requires p < |h|
    ensures HiddenAt(Recorder(layers), width, h, p, l) == Upwards(l)
  {
    if l > 0 {
      StreamRecords(layers, width, h, p, l - 1);
    }
  }

  /** The next token comes out after exactly these layers, from the first to the last. */
  lemma LayersRun(width: nat, layers: nat, others: nat, h: seq<int>)
    requires h != []
    ensures NextToken(Recorder(layers), width, others, h) == if others == layers then 1 else 0
  {
    StreamRecords(layers, width, h, |h| - 1, others);
  }

  /** A bit as a stream, and back. */
  function Mark(b: bool): Hidden {
    if b then [1.0] else [0.0]
  }

  function Marked(x: Hidden): bool {
    x == [1.0]
  }

  function MarkHalf(x: real): Half {
    if x == 1.0 then 1 else 0
  }

  /** Kernels that tell whether a certain token stands at position `q`. The first layer looks for it in the cached keys
      (or values), ignoring its own stream; later layers pass on what the newest key (or value) says. */
  function Probe(token: int, q: nat, useKeys: bool): Kernels {
    Kernels(
      (t: int) => Mark(t == token),
      (l: nat, p: nat, x: Hidden, i: nat) => if useKeys && Marked(x) then 1.0 else 0.0,
      (l: nat, p: nat, x: Hidden, i: nat) => if !useKeys && Marked(x) then 1.0 else 0.0,
      (l: nat, p: nat, x: Hidden, keys: seq<seq<Half>>, values: seq<seq<Half>>) => ProbeAttend(l, q, useKeys, keys,
              values),
      (x: Hidden) => if Marked(x) then 1 else 0,
      MarkHalf)
  }

  function ProbeAttend(l: nat, q: nat, useKeys: bool, keys: seq<seq<Half>>, values: seq<seq<Half>>): Hidden {
    var seen := if useKeys then keys else values;
    var place: int := if l == 0 then q else |seen| - 1;
    Mark(0 <= place < |seen| && seen[place] != [] && seen[place][0] == 1)
  }

  /** A cached key (or value) of the probe says what its stream is. */
  lemma ProbeSlot(token: int, q: nat, useKeys: bool, width: nat, h: seq<int>, p: nat, l: nat)
    requires p < |h| && width > 0
    ensures var slot := SlotAt(Probe(token, q, useKeys), width, h, p, l);
            var seen := if useKeys then slot.key else slot.value;
      seen != [] && (seen[0] == 1 <==> Marked(HiddenAt(Probe(token, q, useKeys), width, h, p, l)))
  {
    hide HiddenAt;
  }

  /** What the probe's streams are: the embedding at first, and from the first layer on whether the token stands at `q`,
      for every position that sees `q`. */
  lemma {:induction false} ProbeSees(token: int, q: nat, useKeys: bool, width: nat, h: seq<int>, p: nat, l: nat)
    requires p < |h| && width > 0
    ensures HiddenAt(Probe(token, q, useKeys), width, h, p, l)
         == Mark(if l == 0 then h[p] == token else q <= p && h[q] == token)
    decreases l
  {
    hide SlotAt;
    var k := Probe(token, q, useKeys);
    if l == 0 {
    } else {
      var seen := if useKeys then KeysTo(k, width, h, p + 1, l - 1) else ValuesTo(k, width, h, p + 1, l - 1);
      forall j | 0 <= j < p + 1
        ensures seen[j] != [] && (seen[j][0] == 1 <==> if l == 1 then h[j] == token else q <= j && h[q] == token)
      {
        ProbeSees(token, q, useKeys, width, h, j, l - 1);
        ProbeSlot(token, q, useKeys, width, h, j, l - 1);
      }
    }
  }

  /** Attention neither looks at its stream nor at the values (or the keys). */
  ghost predicate Blind(k: Kernels, useKeys: bool) {
    forall l: nat, p: nat, x: Hidden, y: Hidden, keys: seq<seq<Half>>, values: seq<seq<Half>>, others: seq<seq<Half>> ::
      k.attend(l, p, x, keys, values)
      == if useKeys then k.attend(l, p, y, keys, others) else k.attend(l, p, y, others, values)
  }

  lemma ProbeBlind(token: int, q: nat, useKeys: bool)
    ensures Blind(Probe(token, q, useKeys), useKeys)
  {
  }

  lemma ProbeTells(token: int, q: nat, useKeys: bool)
    ensures Probe(token, q, useKeys).greedy(Mark(true)) == 1 && Probe(token, q, useKeys).greedy(Mark(false)) == 0
  {
  }

  /** Every token of a history matters, through the keys and through the values: for two different histories of equal
      length there are kernels, blind to all but the cached keys (or values), that continue them differently. */
  lemma HistoriesMatter(width: nat, layers: nat, h: seq<int>, g: seq<int>, useKeys: bool) returns (k: Kernels)
    requires |h| == |g| && h != g && width > 0 && layers > 0
    ensures NextToken(k, width, layers, h) != NextToken(k, width, layers, g)
    ensures Blind(k, useKeys)
  {
    hide HiddenAt, Probe, Blind;
    var q: nat :| q < |h| && h[q] != g[q];
    k := Probe(h[q], q, useKeys);
    ProbeBlind(h[q], q, useKeys);
    ProbeSees(h[q], q, useKeys, width, h, |h| - 1, layers);
    ProbeSees(h[q], q, useKeys, width, g, |g| - 1, layers);
    ProbeTells(h[q], q, useKeys);
  }
}
