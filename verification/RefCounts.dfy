/** Reference counts with a stack of free identifiers, as kept by the block pool and by the page pool. */
module RefCounts {

  ghost predicate Distinct(ids: seq<nat>) {
    forall i, j :: 0 <= i < j < |ids| ==> ids[i] != ids[j]
  }

  ghost predicate Within(ids: seq<nat>, n: nat) {
    forall i :: 0 <= i < |ids| ==> ids[i] < n
  }

  /** The free stack lists exactly the identifiers nobody refers to, each once. */
  ghost predicate FreeExact(refs: seq<nat>, free: seq<nat>) {
    && Distinct(free)
    && forall id: nat :: id in free <==> id < |refs| && refs[id] == 0
  }

  /** One more reference for every listed identifier, in list order. */
  ghost function Retained(refs: seq<nat>, ids: seq<nat>): (r: seq<nat>)
    requires Within(ids, |refs|)
    ensures |r| == |refs|
    ensures Distinct(ids) ==> forall id :: 0 <= id < |refs| ==> r[id] == refs[id] + (if id in ids then 1 else 0)
  {
    if ids == [] then refs
    else
      var rest, last := ids[..|ids| - 1], ids[|ids| - 1];
      assert ids == rest + [last];
      var r := Retained(refs, rest);
      r[last := r[last] + 1]
  }

  /** One reference fewer for every listed identifier; those reaching zero are pushed on the free stack in list
      order. */
  ghost function Released(refs: seq<nat>, free: seq<nat>, ids: seq<nat>): (r: (seq<nat>, seq<nat>))
    requires Distinct(ids) && Within(ids, |refs|)
    requires forall i :: 0 <= i < |ids| ==> refs[ids[i]] > 0
    ensures |r.0| == |refs|
    ensures forall id :: 0 <= id < |refs| ==> r.0[id] == refs[id] - (if id in ids then 1 else 0)
    ensures FreeExact(refs, free) ==> FreeExact(r.0, r.1)
    ensures |free| <= |r.1| <= |free| + |ids|
  {
    if ids == [] then (refs, free)
    else
      var rest, last := ids[..|ids| - 1], ids[|ids| - 1];
      assert ids == rest + [last];
      var (refs1, free1) := Released(refs, free, rest);
      var refs2 := refs1[last := refs1[last] - 1];
      if refs2[last] == 0 then
        assert FreeExact(refs1, free1) ==> FreeExact(refs2, free1 + [last]) by {
          if FreeExact(refs1, free1) { PushFree(refs1, free1, last); }
        }
        (refs2, free1 + [last])
      else (refs2, free1)
  }

  /** Dropping the last reference of an identifier and pushing it keeps the stack exact. */
  lemma PushFree(refs: seq<nat>, free: seq<nat>, id: nat)
    requires FreeExact(refs, free) && id < |refs| && refs[id] > 0
    ensures FreeExact(refs[id := 0], free + [id])
  {
    var pushed := free + [id];
    forall x: nat ensures x in pushed <==> x in free || x == id {
      if x in free {
        var i :| 0 <= i < |free| && free[i] == x;
        assert pushed[i] == x;
      }
      assert pushed[|free|] == id;
    }
  }

  /** Popping a free identifier gives one with no references, and marking it taken keeps the stack exact. */
  lemma PopFree(refs: seq<nat>, free: seq<nat>)
    requires FreeExact(refs, free) && free != []
    ensures var id := free[|free| - 1];
      && id < |refs| && refs[id] == 0
      && FreeExact(refs[id := 1], free[..|free| - 1])
  {
    var id := free[|free| - 1];
    var rest := free[..|free| - 1];
    assert id in free;
    forall x: nat ensures x in rest <==> x in free && x != id {
      if x in free && x != id {
        var i :| 0 <= i < |free| && free[i] == x;
        assert rest[i] == x;
      }
    }
  }

  ghost function SetOf<T>(ids: seq<T>): set<T> {
    set id | id in ids
  }

  lemma SetOfDistinct(ids: seq<nat>)
    requires Distinct(ids)
    ensures |SetOf(ids)| == |ids|
  {
    if ids != [] {
      var rest, last := ids[..|ids| - 1], ids[|ids| - 1];
      assert ids == rest + [last];
      SetOfDistinct(rest);
      assert SetOf(ids) == SetOf(rest) + {last};
    }
  }

  /** The identifiers 0..n-1. */
  ghost function Below(n: nat): (r: set<nat>)
    ensures forall id: nat :: id in r <==> id < n
    ensures |r| == n
  {
    if n == 0 then {} else Below(n - 1) + {n - 1}
  }

  /** The identifiers somebody refers to. */
  ghost function Used(refs: seq<nat>): set<nat> {
    set id | id in Below(|refs|) && refs[id] > 0
  }

  /** A member of a nonempty set. */
  lemma Pick<T>(s: set<T>) returns (x: T)
    requires s != {}
    ensures x in s
  {
    x :| x in s;
  }

  lemma SubsetSize<T>(a: set<T>, b: set<T>)
    requires a <= b
    ensures |a| <= |b|
  {
    assert b == a + (b - a);
  }

  /** The free stack and the identifiers in use together count the whole pool. */
  lemma FreeCount(refs: seq<nat>, free: seq<nat>)
    requires FreeExact(refs, free)
    ensures |free| + |Used(refs)| == |refs|
  {
    var idle := SetOf(free);
    SetOfDistinct(free);
    assert Below(|refs|) == Used(refs) + idle;
    assert Used(refs) !! idle;
  }

  // ---- the loops computing Retained and Released, one step at a time ----------

  lemma RetainedNone(refs: seq<nat>, ids: seq<nat>)
    ensures Retained(refs, ids[..0]) == refs
  {
    assert ids[..0] == [];
  }

  lemma RetainedOne(refs: seq<nat>, ids: seq<nat>, i: nat)
    requires i < |ids| && Within(ids, |refs|)
    ensures Within(ids[..i + 1], |refs|)
    ensures var now := Retained(refs, ids[..i]);
      |now| == |refs| && Retained(refs, ids[..i + 1]) == now[ids[i] := now[ids[i]] + 1]
  {
    assert ids[..i + 1][..i] == ids[..i];
  }

  lemma ReleasedNone(refs: seq<nat>, free: seq<nat>, ids: seq<nat>)
    ensures Released(refs, free, ids[..0]) == (refs, free)
  {
    assert ids[..0] == [];
  }

  lemma ReleasedOne(refs: seq<nat>, free: seq<nat>, ids: seq<nat>, i: nat)
    requires i < |ids| && Distinct(ids) && Within(ids, |refs|)
    requires forall j :: 0 <= j < |ids| ==> refs[ids[j]] > 0
    ensures var (r, f) := Released(refs, free, ids[..i]);
      && |r| == |refs| && r[ids[i]] > 0
      && Released(refs, free, ids[..i + 1])
           == (r[ids[i] := r[ids[i]] - 1], if r[ids[i]] == 1 then f + [ids[i]] else f)
  {
    assert ids[..i + 1][..i] == ids[..i];
    assert ids[i] !in ids[..i];
  }
}
