/** Logical KV credits (src/block_pool.cpp): a fixed pool of reference-counted block identifiers. */
module BlockPools {
  import opened RefCounts
  import opened Outcomes

  const MAX_BLOCKS: nat := 0xFFFF_FFFF
  const EPOCHS: nat := 0x1_0000_0000_0000_0000
  const MAX_REFS: nat := 0xFFFF_FFFF_FFFF_FFFF

  /** A table a caller may retain or release: known blocks in use, none listed twice. */
  ghost predicate LiveTable(refs: seq<nat>, blocks: seq<nat>) {
    && Within(blocks, |refs|)
    && Distinct(blocks)
    && forall i :: 0 <= i < |blocks| ==> refs[blocks[i]] > 0
  }

  /** The identifiers the next `n` allocations return: the top of the stack, top first. */
  ghost function TopFree(free: seq<nat>, n: nat): (ids: seq<nat>)
    requires n <= |free|
    ensures |ids| == n
  {
    seq(n, i requires 0 <= i < n => free[|free| - 1 - i])
  }

  /** Reference counts after handing out a table of free blocks. */
  ghost function Granted(refs: seq<nat>, ids: seq<nat>): (r: seq<nat>)
    ensures |r| == |refs|
    ensures forall id :: 0 <= id < |refs| ==> r[id] == if id in ids then 1 else refs[id]
  {
    seq(|refs|, id requires 0 <= id < |refs| => if id in ids then 1 else refs[id])
  }

  class BlockPool {
    var refs: seq<nat>
    var free: seq<nat>
    /** Epoch at which validation last saw a block; cheaper than clearing a set per call. */
    var seen: seq<nat>
    var epoch: nat

    ghost predicate Valid()
      reads this
    {
      && FreeExact(refs, free)
      && 0 < |refs| <= MAX_BLOCKS
      && (forall id :: 0 <= id < |refs| ==> refs[id] <= MAX_REFS)
      && Stamped()
    }

    /** No stamp lies in the future, so a fresh epoch is unused. */
    ghost predicate Stamped()
      reads this
    {
      && |seen| == |refs| && epoch < EPOCHS
      && forall id :: 0 <= id < |seen| ==> seen[id] <= epoch
    }

    constructor (count: nat)
      requires 0 < count <= MAX_BLOCKS
      ensures Valid() && fresh(this)
      ensures |refs| == |free| == count
      ensures forall id :: 0 <= id < count ==> refs[id] == 0
      ensures forall j :: 0 <= j < count ==> free[j] == count - 1 - j
    {
      refs := seq(count, _ => 0);
      seen := seq(count, _ => 0);
      epoch := 0;
      var stack: seq<nat> := [];
      var i := count;
      while i > 0
        invariant 0 <= i <= count && |stack| == count - i
        invariant forall j :: 0 <= j < |stack| ==> stack[j] == count - 1 - j
      {
        stack := stack + [i - 1];
        i := i - 1;
      }
      free := stack;
      new;
      forall id: nat ensures id in free <==> id < count {
        if id < count {
          assert free[count - 1 - id] == id;
        }
      }
    }

    /** All or nothing: a table of `count` distinct blocks nobody held, or no change at all. */
    method Allocate(count: nat) returns (r: Option<seq<nat>>)
      requires Valid()
      modifies `refs, `free
      ensures Valid()
      ensures r.None? <==> count > |old(free)|
      ensures r.None? ==> refs == old(refs) && free == old(free)
      ensures r.Some? ==>
                && r.value == TopFree(old(free), count)
                && refs == Granted(old(refs), r.value)
                && free == old(free)[..|old(free)| - count]
                && |r.value| == count && Distinct(r.value) && Within(r.value, |refs|)
                && forall i :: 0 <= i < count ==> old(refs)[r.value[i]] == 0
    {
      hide Granted, FreeExact;
      if count > |free| {
        return None;
      }
      ghost var refs0, free0 := refs, free;
      var result: seq<nat> := [];
      var i := 0;
      while i < count
        invariant 0 <= i <= count && |result| == i
        invariant free == free0[..|free0| - i] && |refs| == |refs0|
        invariant Distinct(result) && Within(result, |refs|)
        invariant forall j :: 0 <= j < i ==> result[j] == free0[|free0| - 1 - j] && refs0[result[j]] == 0
        invariant refs == Granted(refs0, result)
        invariant FreeExact(refs, free)
      {
        PopFree(refs, free);
        var id := free[|free| - 1];
        assert id in free;
        free := free[..|free| - 1];
        GrantOne(refs0, result, id);
        refs := refs[id := 1];
        result := result + [id];
        i := i + 1;
      }
      return Some(result);
    }

    /** The epoch-stamped scan accepts exactly the live tables, also across a wrap-around of the epoch. */
    method ValidateTable(blocks: seq<nat>) returns (ok: bool)
      requires Stamped()
      modifies `seen, `epoch
      ensures Stamped()
      ensures ok <==> LiveTable(refs, blocks)
    {
      epoch := (epoch + 1) % EPOCHS;
      if epoch == 0 {
        seen := seq(|seen|, _ => 0);
        epoch := 1;
      }
      var i := 0;
      while i < |blocks|
        invariant 0 <= i <= |blocks| && Stamped()
        invariant LiveTable(refs, blocks[..i])
        invariant forall id :: 0 <= id < |seen| ==> (seen[id] == epoch <==> id in blocks[..i])
      {
        if blocks[i] >= |refs| || refs[blocks[i]] == 0 || seen[blocks[i]] == epoch {
          return false;
        }
        seen := seen[blocks[i] := epoch];
        assert blocks[..i + 1] == blocks[..i] + [blocks[i]];
        i := i + 1;
      }
      assert blocks[..|blocks|] == blocks;
      return true;
    }

    /** One more holder for every block of a live table; anything else changes no count. */
    method Retain(blocks: seq<nat>) returns (status: Status)
      requires Valid()
      modifies this
      ensures Valid() && free == old(free)
      ensures status == (if !LiveTable(old(refs), blocks) then Failed(LogicError)
                         else if exists i :: 0 <= i < |blocks|
                                             && old(refs)[blocks[i]] == MAX_REFS then Failed(OverflowError)
                         else Ok)
      ensures status.Failed? ==> refs == old(refs)
      ensures status.Ok? ==> refs == Retained(old(refs), blocks)
    {
      var ok := ValidateTable(blocks);
      if !ok {
        return Failed(LogicError);
      }
      for i := 0 to |blocks|
        invariant forall j :: 0 <= j < i ==> refs[blocks[j]] != MAX_REFS
      {
        if refs[blocks[i]] == MAX_REFS {
          return Failed(OverflowError);
        }
      }
      AddReferences(blocks);
      return Ok;
    }

    method AddReferences(blocks: seq<nat>)
      requires Valid() && LiveTable(refs, blocks)
      requires forall i :: 0 <= i < |blocks| ==> refs[blocks[i]] != MAX_REFS
      modifies `refs
      ensures Valid() && refs == Retained(old(refs), blocks)
    {
      ghost var refs0 := refs;
      IncrementAll(blocks);
      assert forall id: nat :: id < |refs| ==> (refs[id] == 0 <==> refs0[id] == 0);
    }

    method IncrementAll(blocks: seq<nat>)
      requires Within(blocks, |refs|)
      modifies `refs
      ensures refs == Retained(old(refs), blocks) && |refs| == |old(refs)|
    {
      hide Retained;
      RetainedNone(refs, blocks);
      ghost var refs0 := refs;
      for i := 0 to |blocks|
        invariant Within(blocks, |refs0|) && Within(blocks[..i], |refs0|) && |refs| == |refs0|
        invariant refs == Retained(refs0, blocks[..i])
      {
        RetainedOne(refs0, blocks, i);
        refs := refs[blocks[i] := refs[blocks[i]] + 1];
      }
      assert blocks[..|blocks|] == blocks;
    }

    /** One holder fewer for every block of a live table; blocks without holders become free. */
    method Release(blocks: seq<nat>) returns (status: Status)
      requires Valid()
      modifies this
      ensures Valid() && |refs| == |old(refs)|
      ensures status == if LiveTable(old(refs), blocks) then Ok else Failed(LogicError)
      ensures status.Failed? ==> refs == old(refs) && free == old(free)
      ensures status.Ok? ==> (refs, free) == Released(old(refs), old(free), blocks)
    {
      var ok := ValidateTable(blocks);
      if !ok {
        return Failed(LogicError);
      }
      DecrementAll(blocks);
      return Ok;
    }

    method DecrementAll(blocks: seq<nat>)
      requires LiveTable(refs, blocks)
      modifies `refs, `free
      ensures (refs, free) == Released(old(refs), old(free), blocks)
    {
      hide Released;
      ReleasedNone(refs, free, blocks);
      ghost var refs0, free0 := refs, free;
      for i := 0 to |blocks|
        invariant Distinct(blocks[..i]) && LiveTable(refs0, blocks)
        invariant (refs, free) == Released(refs0, free0, blocks[..i])
      {
        ReleasedOne(refs0, free0, blocks, i);
        refs := refs[blocks[i] := refs[blocks[i]] - 1];
        if refs[blocks[i]] == 0 {
          free := free + [blocks[i]];
        }
      }
      assert blocks[..|blocks|] == blocks;
    }
  }

  lemma GrantOne(refs: seq<nat>, ids: seq<nat>, id: nat)
    requires id < |refs|
    ensures Granted(refs, ids)[id := 1] == Granted(refs, ids + [id])
  {
  }

  /** Releasing right after retaining a live table puts every count back, and frees nothing. */
  lemma RetainRelease(refs: seq<nat>, free: seq<nat>, blocks: seq<nat>)
    requires LiveTable(refs, blocks)
    ensures LiveTable(Retained(refs, blocks), blocks)
    ensures Released(Retained(refs, blocks), free, blocks) == (refs, free)
  {
    NothingFreed(Retained(refs, blocks), free, blocks);
    assert Released(Retained(refs, blocks), free, blocks).0 == refs;
  }

  lemma {:induction false} NothingFreed(refs: seq<nat>, free: seq<nat>, blocks: seq<nat>)
    requires LiveTable(refs, blocks) && forall i :: 0 <= i < |blocks| ==> refs[blocks[i]] > 1
    ensures Released(refs, free, blocks).1 == free
  {
    if blocks == [] {
    } else {
      var rest, last := blocks[..|blocks| - 1], blocks[|blocks| - 1];
      NothingFreed(refs, free, rest);
      assert last !in rest;
    }
  }

  /** Releasing a freshly allocated table frees all of it again. */
  lemma AllocateRelease(refs: seq<nat>, free: seq<nat>, n: nat)
    requires FreeExact(refs, free) && n <= |free|
    ensures var ids := TopFree(free, n);
      && LiveTable(Granted(refs, ids), ids)
      && Released(Granted(refs, ids), free[..|free| - n], ids).0 == refs
  {
    var ids := TopFree(free, n);
    forall i | 0 <= i < n ensures ids[i] < |refs| && refs[ids[i]] == 0 {
      assert ids[i] in free;
    }
    var back := Released(Granted(refs, ids), free[..|free| - n], ids).0;
    forall id | 0 <= id < |refs| ensures back[id] == refs[id] {
      if id in ids {
        var i :| 0 <= i < |ids| && ids[i] == id;
      }
    }
  }
}
