/** The page ownership half of the paged KV cache: tables, reference counts and the free stack, as values. */
module PageLedger {
  import opened Arithmetic
  import opened RefCounts
  import opened Outcomes

  datatype Table = Table(pages: seq<nat>, length: nat)

  datatype Ledger = Ledger(refs: seq<nat>, free: seq<nat>, tables: seq<Table>)

  /** The sequences whose table lists a page. */
  ghost function Owners(tables: seq<Table>, page: nat): set<nat> {
    set s | 0 <= s < |tables| && page in tables[s].pages
  }

  /** Each page's count is its number of owners, plus one while `extra` holds a reference of its own. */
  ghost predicate RefsExact(tables: seq<Table>, refs: seq<nat>, extra: seq<nat>) {
    forall page :: 0 <= page < |refs| ==> refs[page] == |Owners(tables, page)| + (if page in extra then 1 else 0)
  }

  ghost predicate TableOk(t: Table, n: nat, pageTokens: nat)
    requires pageTokens > 0
  {
    && |t.pages| == CeilDiv(t.length, pageTokens)
    && Distinct(t.pages)
    && Within(t.pages, n)
  }

  ghost predicate TablesOk(tables: seq<Table>, n: nat, pageTokens: nat)
    requires pageTokens > 0
  {
    forall s :: 0 <= s < |tables| ==> TableOk(tables[s], n, pageTokens)
  }

  ghost predicate Consistent(l: Ledger, pageTokens: nat)
    requires pageTokens > 0
  {
    && TablesOk(l.tables, |l.refs|, pageTokens)
    && RefsExact(l.tables, l.refs, [])
    && FreeExact(l.refs, l.free)
  }

  lemma OwnersOf(tables: seq<Table>, s: nat, t: Table, page: nat)
    requires s < |tables|
    ensures Owners(tables[s := t], page)
         == if page in t.pages then Owners(tables, page) + {s} else Owners(tables, page) - {s}
  {
  }

  lemma EmptyConsistent(n: nat, sequences: nat, refs: seq<nat>, free: seq<nat>, tables: seq<Table>, pageTokens: nat)
    requires pageTokens > 0
    requires |refs| == n && forall i :: 0 <= i < n ==> refs[i] == 0
    requires |free| == n && forall i :: 0 <= i < n ==> free[i] == n - 1 - i
    requires |tables| == sequences && forall s :: 0 <= s < sequences ==> tables[s] == Table([], 0)
    ensures Consistent(Ledger(refs, free, tables), pageTokens)
  {
    CeilDivExact(0, pageTokens);
    forall page | 0 <= page < n ensures Owners(tables, page) == {} && page in free {
      assert free[n - 1 - page] == page;
    }
  }

  // ---- append -------------------------------------------------------------

  /** Appending reuses the tail page only when the sequence is its sole owner. */
  ghost predicate NeedsPage(l: Ledger, s: nat, pageTokens: nat)
    requires pageTokens > 0 && s < |l.tables| && TableOk(l.tables[s], |l.refs|, pageTokens)
  {
    var t := l.tables[s];
    if t.length % pageTokens == 0 then true
    else
      TailExists(t, |l.refs|, pageTokens);
      l.refs[t.pages[|t.pages| - 1]] > 1
  }

  lemma TailExists(t: Table, n: nat, pageTokens: nat)
    requires pageTokens > 0 && TableOk(t, n, pageTokens) && t.length % pageTokens != 0
    ensures |t.pages| == t.length / pageTokens + 1
  {
    CeilDivSteps(t.length, pageTokens);
  }

  /** The ledger after appending one position: a fresh page at a page boundary, a replacement page for a shared
      partial tail (the old one loses a reference), and otherwise just a longer table. */
  ghost function Appended(l: Ledger, s: nat, pageTokens: nat): Ledger
    requires pageTokens > 0 && s < |l.tables| && Consistent(l, pageTokens)
    requires NeedsPage(l, s, pageTokens) ==> l.free != []
  {
    var t := l.tables[s];
    if !NeedsPage(l, s, pageTokens) then l.(tables := l.tables[s := t.(length := t.length + 1)])
    else
      PopFree(l.refs, l.free);
      var id := l.free[|l.free| - 1];
      var free := l.free[..|l.free| - 1];
      if t.length % pageTokens == 0 then
        Ledger(l.refs[id := 1], free, l.tables[s := Table(t.pages + [id], t.length + 1)])
      else
        TailExists(t, |l.refs|, pageTokens);
        var tail := t.pages[|t.pages| - 1];
        Ledger(l.refs[id := 1][tail := l.refs[tail] - 1], free,
               l.tables[s := Table(t.pages[|t.pages| - 1 := id], t.length + 1)])
  }

  lemma AppendedAtBoundary(l: Ledger, s: nat, pageTokens: nat)
    requires pageTokens > 0 && s < |l.tables| && Consistent(l, pageTokens)
    requires l.tables[s].length % pageTokens == 0 && l.free != []
    ensures NeedsPage(l, s, pageTokens)
    ensures var t, id := l.tables[s], l.free[|l.free| - 1];
      && id < |l.refs|
      && Appended(l, s, pageTokens)
           == Ledger(l.refs[id := 1], l.free[..|l.free| - 1], l.tables[s := Table(t.pages + [id], t.length + 1)])
  {
    PopFree(l.refs, l.free);
  }

  lemma AppendedByCopy(l: Ledger, s: nat, pageTokens: nat)
    requires pageTokens > 0 && s < |l.tables| && Consistent(l, pageTokens)
    requires l.tables[s].length % pageTokens != 0 && NeedsPage(l, s, pageTokens) && l.free != []
    ensures var t, id := l.tables[s], l.free[|l.free| - 1];
      && id < |l.refs| && t.pages != []
      && var tail := t.pages[|t.pages| - 1];
      && tail < |l.refs| && tail != id && l.refs[tail] > 1
      && Appended(l, s, pageTokens)
           == Ledger(l.refs[id := 1][tail := l.refs[tail] - 1], l.free[..|l.free| - 1],
                     l.tables[s := Table(t.pages[|t.pages| - 1 := id], t.length + 1)])
  {
    PopFree(l.refs, l.free);
    TailExists(l.tables[s], |l.refs|, pageTokens);
  }

  lemma FreePageHasNoOwner(l: Ledger, pageTokens: nat)
    requires pageTokens > 0 && Consistent(l, pageTokens) && l.free != []
    ensures var id := l.free[|l.free| - 1];
      id < |l.refs| && l.refs[id] == 0 && forall s :: 0 <= s < |l.tables| ==> id !in l.tables[s].pages
  {
    PopFree(l.refs, l.free);
    var id := l.free[|l.free| - 1];
    assert Owners(l.tables, id) == {};
    forall s | 0 <= s < |l.tables| ensures id !in l.tables[s].pages {
      assert s !in Owners(l.tables, id);
    }
  }

  lemma GrowTail(t: Table, id: nat, n: nat, pageTokens: nat)
    requires pageTokens > 0 && TableOk(t, n, pageTokens) && t.length % pageTokens == 0
    requires id < n && id !in t.pages
    ensures TableOk(Table(t.pages + [id], t.length + 1), n, pageTokens)
  {
    CeilDivSteps(t.length, pageTokens);
  }

  lemma GrowRefs(tables: seq<Table>, refs: seq<nat>, s: nat, id: nat, length: nat)
    requires s < |tables| && id < |refs| && RefsExact(tables, refs, []) && Owners(tables, id) == {}
    ensures RefsExact(tables[s := Table(tables[s].pages + [id], length)], refs[id := 1], [])
  {
    var t' := Table(tables[s].pages + [id], length);
    var refs' := refs[id := 1];
    forall page | 0 <= page < |refs|
      ensures refs'[page] == |Owners(tables[s := t'], page)|
    {
      OwnersOf(tables, s, t', page);
      if page == id {
        assert t'.pages[|tables[s].pages|] == id;
        assert Owners(tables[s := t'], id) == {s};
      } else {
        assert page in t'.pages <==> page in tables[s].pages;
        assert Owners(tables[s := t'], page) == Owners(tables, page);
      }
    }
  }

  lemma AppendGrow(l: Ledger, s: nat, pageTokens: nat)
    requires pageTokens > 0 && s < |l.tables| && Consistent(l, pageTokens)
    requires l.tables[s].length % pageTokens == 0 && l.free != []
    ensures Consistent(Appended(l, s, pageTokens), pageTokens)
  {
    var t, id := l.tables[s], l.free[|l.free| - 1];
    PopFree(l.refs, l.free);
    FreePageHasNoOwner(l, pageTokens);
    GrowTail(t, id, |l.refs|, pageTokens);
    assert Owners(l.tables, id) == {};
    GrowRefs(l.tables, l.refs, s, id, t.length + 1);
  }

  lemma ReplaceTail(pages: seq<nat>, id: nat)
    requires pages != [] && Distinct(pages) && id !in pages
    ensures var p' := pages[|pages| - 1 := id];
      && Distinct(p') && id in p'
      && forall x: nat :: x != id ==> (x in p' <==> x in pages && x != pages[|pages| - 1])
  {
    var p' := pages[|pages| - 1 := id];
    assert p'[|pages| - 1] == id;
    forall x: nat | x != id
      ensures x in p' <==> x in pages && x != pages[|pages| - 1]
    {
      if x in pages && x != pages[|pages| - 1] {
        var i :| 0 <= i < |pages| && pages[i] == x;
        assert p'[i] == x;
      }
    }
  }

  lemma CopyRefs(tables: seq<Table>, refs: seq<nat>, s: nat, id: nat, length: nat)
    requires s < |tables| && tables[s].pages != [] && Distinct(tables[s].pages)
    requires id < |refs| && RefsExact(tables, refs, []) && Owners(tables, id) == {} && id !in tables[s].pages
    requires var tail := tables[s].pages[|tables[s].pages| - 1]; tail < |refs| && refs[tail] > 0
    ensures var tail := tables[s].pages[|tables[s].pages| - 1];
      RefsExact(tables[s := Table(tables[s].pages[|tables[s].pages| - 1 := id], length)],
                refs[id := 1][tail := refs[tail] - 1], [])
  {
    var pages := tables[s].pages;
    var tail := pages[|pages| - 1];
    var t' := Table(pages[|pages| - 1 := id], length);
    var refs' := refs[id := 1][tail := refs[tail] - 1];
    ReplaceTail(pages, id);
    forall page | 0 <= page < |refs| ensures refs'[page] == |Owners(tables[s := t'], page)| {
      MovedOwners(tables, s, t', id, tail, page);
    }
  }

  /** The owners of a page once a table lists one page instead of another. */
  lemma MovedOwners(tables: seq<Table>, s: nat, t': Table, id: nat, tail: nat, page: nat)
    requires s < |tables| && Owners(tables, id) == {} && tail in tables[s].pages && id != tail
    requires id in t'.pages && forall x: nat :: x != id ==> (x in t'.pages <==> x in tables[s].pages && x != tail)
    ensures |Owners(tables[s := t'], page)|
         == if page == id then 1 else |Owners(tables, page)| - if page == tail then 1 else 0
  {
    hide Owners;
    OwnersOf(tables, s, t', page);
    OwnerLists(tables, s, page);
  }

  lemma OwnerLists(tables: seq<Table>, s: nat, page: nat)
    requires s < |tables|
    ensures s in Owners(tables, page) <==> page in tables[s].pages
  {
  }

  lemma AppendCopy(l: Ledger, s: nat, pageTokens: nat)
    requires pageTokens > 0 && s < |l.tables| && Consistent(l, pageTokens)
    requires l.tables[s].length % pageTokens != 0 && NeedsPage(l, s, pageTokens) && l.free != []
    ensures Consistent(Appended(l, s, pageTokens), pageTokens)
  {
    AppendedByCopy(l, s, pageTokens);
    PopFree(l.refs, l.free);
    FreePageHasNoOwner(l, pageTokens);
    var t, id := l.tables[s], l.free[|l.free| - 1];
    CeilDivSteps(t.length, pageTokens);
    ReplaceTail(t.pages, id);
    assert Owners(l.tables, id) == {};
    hide Appended, NeedsPage;
    CopyRefs(l.tables, l.refs, s, id, t.length + 1);
  }

  lemma AppendInPlace(l: Ledger, s: nat, pageTokens: nat)
    requires pageTokens > 0 && s < |l.tables| && Consistent(l, pageTokens) && !NeedsPage(l, s, pageTokens)
    ensures Consistent(Appended(l, s, pageTokens), pageTokens)
  {
    var t := l.tables[s];
    var t' := t.(length := t.length + 1);
    CeilDivSteps(t.length, pageTokens);
    forall page | 0 <= page < |l.refs|
      ensures l.refs[page] == |Owners(l.tables[s := t'], page)|
    {
      assert Owners(l.tables[s := t'], page) == Owners(l.tables, page);
    }
  }

  /** Every append that finds its page keeps all counts, tables and the free stack exact. */
  lemma AppendConsistent(l: Ledger, s: nat, pageTokens: nat)
    requires pageTokens > 0 && s < |l.tables| && Consistent(l, pageTokens)
    requires NeedsPage(l, s, pageTokens) ==> l.free != []
    ensures Consistent(Appended(l, s, pageTokens), pageTokens)
  {
    if !NeedsPage(l, s, pageTokens) {
      AppendInPlace(l, s, pageTokens);
    } else if l.tables[s].length % pageTokens == 0 {
      AppendGrow(l, s, pageTokens);
    } else {
      AppendCopy(l, s, pageTokens);
    }
  }

  // ---- clear and share ----------------------------------------------------

  /** Releasing a table's pages; `extra` names pages that somebody else holds on to meanwhile. */
  ghost function Cleared(l: Ledger, s: nat, pageTokens: nat, extra: seq<nat>): Ledger
    requires pageTokens > 0 && s < |l.tables|
    requires TablesOk(l.tables, |l.refs|, pageTokens) && RefsExact(l.tables, l.refs, extra)
  {
    HeldPages(l, s, pageTokens, extra);
    var r := Released(l.refs, l.free, l.tables[s].pages);
    Ledger(r.0, r.1, l.tables[s := Table([], 0)])
  }

  lemma HeldPages(l: Ledger, s: nat, pageTokens: nat, extra: seq<nat>)
    requires pageTokens > 0 && s < |l.tables|
    requires TablesOk(l.tables, |l.refs|, pageTokens) && RefsExact(l.tables, l.refs, extra)
    ensures Distinct(l.tables[s].pages) && Within(l.tables[s].pages, |l.refs|)
    ensures forall i :: 0 <= i < |l.tables[s].pages| ==> l.refs[l.tables[s].pages[i]] > 0
  {
    var t := l.tables[s];
    assert TableOk(t, |l.refs|, pageTokens);
    forall i | 0 <= i < |t.pages| ensures l.refs[t.pages[i]] > 0 {
      assert s in Owners(l.tables, t.pages[i]);
    }
  }

  lemma ClearConsistent(l: Ledger, s: nat, pageTokens: nat, extra: seq<nat>)
    requires pageTokens > 0 && s < |l.tables|
    requires TablesOk(l.tables, |l.refs|, pageTokens) && RefsExact(l.tables, l.refs, extra)
    requires FreeExact(l.refs, l.free)
    ensures var l' := Cleared(l, s, pageTokens, extra);
      && |l'.refs| == |l.refs|
      && TablesOk(l'.tables, |l.refs|, pageTokens) && RefsExact(l'.tables, l'.refs, extra)
      && FreeExact(l'.refs, l'.free)
  {
    HeldPages(l, s, pageTokens, extra);
    CeilDivExact(0, pageTokens);
    var l' := Cleared(l, s, pageTokens, extra);
    forall page | 0 <= page < |l.refs|
      ensures l'.refs[page] == |Owners(l'.tables, page)| + (if page in extra then 1 else 0)
    {
      OwnersOf(l.tables, s, Table([], 0), page);
      if page in l.tables[s].pages {
        assert s in Owners(l.tables, page);
      } else {
        assert s !in Owners(l.tables, page);
      }
    }
  }

  /** Pages that a prefix of `tokens` tokens of a table occupies. */
  ghost function PrefixPages(t: Table, n: nat, tokens: nat, pageTokens: nat): (r: seq<nat>)
    requires pageTokens > 0 && TableOk(t, n, pageTokens) && tokens <= t.length
    ensures Distinct(r) && Within(r, n)
  {
    CeilDivMonotone(tokens, t.length, pageTokens);
    t.pages[..CeilDiv(tokens, pageTokens)]
  }

  /** Aliasing a prefix: take the references first, then drop the target's own pages, then adopt. */
  ghost function Shared(l: Ledger, source: nat, target: nat, tokens: nat, pageTokens: nat): Ledger
    requires pageTokens > 0 && Consistent(l, pageTokens)
    requires source < |l.tables| && target < |l.tables| && source != target && tokens <= l.tables[source].length
  {
    var shared := PrefixPages(l.tables[source], |l.refs|, tokens, pageTokens);
    var held := l.(refs := Retained(l.refs, shared));
    RetainHolds(l, shared, pageTokens);
    var cleared := Cleared(held, target, pageTokens, shared);
    cleared.(tables := cleared.tables[target := Table(shared, tokens)])
  }

  lemma RetainHolds(l: Ledger, shared: seq<nat>, pageTokens: nat)
    requires pageTokens > 0 && Consistent(l, pageTokens)
    requires Distinct(shared) && Within(shared, |l.refs|)
    requires forall page :: page in shared ==> exists s :: 0 <= s < |l.tables| && page in l.tables[s].pages
    ensures var held := Retained(l.refs, shared);
      |held| == |l.refs| && RefsExact(l.tables, held, shared) && FreeExact(held, l.free)
  {
    forall page: nat | page in shared ensures l.refs[page] > 0 {
      var s :| 0 <= s < |l.tables| && page in l.tables[s].pages;
      assert s in Owners(l.tables, page);
    }
  }

  /** Giving an empty table the pages somebody holds a reference on turns that reference into ownership. */
  lemma AdoptConsistent(l: Ledger, target: nat, t: Table, pageTokens: nat)
    requires pageTokens > 0 && target < |l.tables| && l.tables[target].pages == []
    requires TablesOk(l.tables, |l.refs|, pageTokens) && RefsExact(l.tables, l.refs, t.pages)
    requires FreeExact(l.refs, l.free) && TableOk(t, |l.refs|, pageTokens)
    ensures Consistent(l.(tables := l.tables[target := t]), pageTokens)
  {
    var tables' := l.tables[target := t];
    forall page | 0 <= page < |l.refs|
      ensures l.refs[page] == |Owners(tables', page)|
    {
      OwnersOf(l.tables, target, t, page);
      assert target !in Owners(l.tables, page);
    }
  }

  lemma ShareConsistent(l: Ledger, source: nat, target: nat, tokens: nat, pageTokens: nat)
    requires pageTokens > 0 && Consistent(l, pageTokens)
    requires source < |l.tables| && target < |l.tables| && source != target && tokens <= l.tables[source].length
    ensures Consistent(Shared(l, source, target, tokens, pageTokens), pageTokens)
  {
    var shared := PrefixPages(l.tables[source], |l.refs|, tokens, pageTokens);
    RetainHolds(l, shared, pageTokens);
    var held := l.(refs := Retained(l.refs, shared));
    ClearConsistent(held, target, pageTokens, shared);
    CeilDivMonotone(tokens, l.tables[source].length, pageTokens);
    AdoptConsistent(Cleared(held, target, pageTokens, shared), target, Table(shared, tokens), pageTokens);
  }
}
