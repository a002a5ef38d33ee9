/** The GPU runtime's two-ledger transaction (src/minillm/cuda/batch_state.cpp and the skeleton of the forward pass in
    src/minillm/cuda/runtime.cpp): logical lengths and physical pages are prepared, started, and then either published
    together, undone together, or poisoned together. Device calls are points that may fail. */
module CudaRuntimes {
  import opened Arithmetic
  import opened Outcomes
  import opened Batches
  import opened PageTables

  datatype StateLimits = StateLimits(maxSequences: nat, maxModelLen: nat, maxBatchTokens: nat)

  /** The only ledger of logical sequence lengths. */
  class BatchState {
    const limits: StateLimits
    const vocabulary: nat
    var lengths: seq<nat>
    var pending: seq<nat>
    var phase: Phase

    ghost predicate Valid()
      reads this
    {
      && |lengths| == |pending| == limits.maxSequences
      && forall s :: 0 <= s < |lengths| ==> lengths[s] <= limits.maxModelLen
    }

    constructor (l: StateLimits, v: nat)
      ensures Valid() && fresh(this) && limits == l && vocabulary == v
      ensures phase == Ready && lengths == seq(l.maxSequences, _ => 0)
    {
      limits := l;
      vocabulary := v;
      lengths := seq(l.maxSequences, _ => 0);
      pending := seq(l.maxSequences, _ => 0);
      phase := Ready;
    }

    /** Counts a batch into the pending lengths; committed lengths never change here. */
    method Prepare(tokens: seq<InputToken>) returns (status: Status)
      requires Valid()
      modifies this
      ensures Valid() && lengths == old(lengths)
      ensures status == (if old(phase) != Ready then Failed(StateError)
                         else if 0 < |tokens| <= limits.maxBatchTokens
                                 && WellFormed(lengths, tokens, vocabulary, limits.maxModelLen) then Ok
                         else Failed(InvalidArgument))
      ensures phase == if status.Ok? then Prepared else old(phase)
      ensures status.Ok? ==> pending == LengthsAfter(lengths, tokens) && Bounded(pending, limits.maxModelLen)
    {
      if phase != Ready {
        return Failed(StateError);
      }
      if |tokens| == 0 || |tokens| > limits.maxBatchTokens {
        return Failed(InvalidArgument);
      }
      var ok, counted := CountTokens(lengths, tokens, vocabulary, limits.maxModelLen);
      if !ok {
        return Failed(InvalidArgument);
      }
      LengthsBounded(lengths, tokens, vocabulary, limits.maxModelLen);
      pending := counted;
      phase := Prepared;
      return Ok;
    }

    method Start() returns (status: Status)
      modifies `phase
      ensures status == if old(phase) == Prepared then Ok else Failed(StateError)
      ensures phase == if status.Ok? then Executing else old(phase)
    {
      if phase != Prepared {
        return Failed(StateError);
      }
      phase := Executing;
      return Ok;
    }

    method Commit() returns (status: Status)
      modifies `phase, `lengths, `pending
      ensures status == if old(phase) == Executing then Ok else Failed(StateError)
      ensures status.Ok? ==> phase == Ready && lengths == old(pending) && pending == old(lengths)
      ensures status.Failed? ==> phase == old(phase) && lengths == old(lengths) && pending == old(pending)
    {
      if phase != Executing {
        return Failed(StateError);
      }
      lengths, pending := pending, lengths;
      phase := Ready;
      return Ok;
    }

    method DiscardPrepared() returns (status: Status)
      modifies `phase
      ensures status == if old(phase) == Prepared then Ok else Failed(StateError)
      ensures phase == if status.Ok? then Ready else old(phase)
    {
      if phase != Prepared {
        return Failed(StateError);
      }
      phase := Ready;
      return Ok;
    }

    method Poison()
      modifies `phase
      ensures phase == Poisoned
    {
      phase := Poisoned;
    }

    method Clear(sequence: int) returns (status: Status)
      requires Valid()
      modifies `lengths
      ensures Valid()
      ensures status == (if phase != Ready then Failed(StateError)
                         else if !(0 <= sequence < |old(lengths)|) then Failed(InvalidArgument) else Ok)
      ensures lengths == if status.Ok? then old(lengths)[sequence := 0] else old(lengths)
    {
      if phase != Ready {
        return Failed(StateError);
      }
      if sequence < 0 || sequence >= |lengths| {
        return Failed(InvalidArgument);
      }
      lengths := lengths[sequence := 0];
      return Ok;
    }
  }

  ghost predicate Bounded(lengths: seq<nat>, n: nat) {
    forall s :: 0 <= s < |lengths| ==> lengths[s] <= n
  }

  /** Contiguous positions within the limit keep every length within it. */
  lemma {:induction false} LengthsBounded(lengths: seq<nat>, tokens: seq<InputToken>, vocabulary: nat, maxModelLen: nat)
    requires WellFormed(lengths, tokens, vocabulary, maxModelLen) && Bounded(lengths, maxModelLen)
    ensures Bounded(LengthsAfter(lengths, tokens), maxModelLen)
  {
    if tokens == [] {
    } else {
      var n := |tokens| - 1;
      WellFormedPrefix(lengths, tokens, vocabulary, maxModelLen, n);
      LengthsBounded(lengths, tokens[..n], vocabulary, maxModelLen);
      assert TokenFits(LengthsAfter(lengths, tokens[..n]), tokens[n], vocabulary, maxModelLen);
    }
  }

  // ---- the runtime ------------------------------------------------------------------

  class CudaRuntime {
    const state: BatchState
    /** Absent for the contiguous layout. */
    const pages: PageTableState?
    /** The page table as the device has it. */
    ghost var device: Table

    ghost predicate Valid()
      reads this, state, pages
    {
      && state.Valid()
      && (state.phase == Ready || state.phase == Poisoned)
      && (pages != null ==>
            && pages.Valid() && pages.phase == state.phase
            && SameLimits(pages.limits, state.limits)
            && (state.phase == Ready ==> RowsOk(pages.limits, pages.active, state.lengths) && Fresh()))
    }

    /** The device copy may only be skipped when it is the committed table. */
    ghost predicate Fresh()
      requires pages != null
      reads this, pages
    {
      !pages.dirty ==> device == pages.active
    }

    constructor (l: StateLimits, vocabulary: nat, paged: Option<Limits>)
      requires paged.Some? ==> CheckedLimits(paged.value) && SameLimits(paged.value, l)
      ensures Valid() && fresh(this) && fresh(state) && (pages != null ==> fresh(pages))
      ensures state.phase == Ready && state.lengths == seq(l.maxSequences, _ => 0)
      ensures pages != null <==> paged.Some?
      ensures paged.Some? ==> pages.limits == paged.value && |pages.freeIds| == paged.value.physicalPages
      ensures state.limits == l && state.vocabulary == vocabulary
    {
      state := new BatchState(l, vocabulary);
      if paged.Some? {
        pages := new PageTableState(paged.value);
      } else {
        pages := null;
      }
      device := [];
    }

    /** One forward pass. It publishes both ledgers; a failure before the launch leaves both exactly as they were,
        and one after it poisons both. */
    method Forward(tokens: seq<InputToken>) returns (status: Status, ghost launched: bool)
      requires Valid()
      modifies this, state, pages
      ensures Valid()
      ensures old(state.phase) == Poisoned ==> status == Failed(StateError) && state.phase == Poisoned
      ensures old(state.phase) == Ready && !Acceptable(old(state.lengths), tokens) ==>
                status == Failed(InvalidArgument) && Untouched()
      ensures old(state.phase) == Ready && Acceptable(old(state.lengths), tokens)
                && pages != null
                   && Overfull(old(state.lengths), LengthsAfter(old(state.lengths), tokens), |old(pages.freeIds)|) ==>
                status == Failed(LengthError) && Untouched()
      ensures status.Ok? ==>
                && old(state.phase) == Ready && Acceptable(old(state.lengths), tokens)
                && state.phase == Ready && state.lengths == LengthsAfter(old(state.lengths), tokens)
                && (pages != null ==>
                      device == pages.active
                      && Extends(pages.limits, old(pages.active), pages.active, old(state.lengths)))
      ensures status.Failed? && old(state.phase) == Ready ==>
                if launched then state.phase == Poisoned && status == Failed(BackendError) else Untouched()
      ensures status == Failed(InvalidArgument) ==> !Acceptable(old(state.lengths), tokens)
      ensures status == Failed(LengthError) ==>
                pages != null
                && Overfull(old(state.lengths), LengthsAfter(old(state.lengths), tokens), |old(pages.freeIds)|)
    {
      hide LengthsAfter, Extends, TotalTokens, RowsOk, WellFormed, Demand, Keeps, PagesFor;
      launched := false;
      status := state.Prepare(tokens);
      if status.Failed? {
        return;
      }
      if pages != null {
        status := pages.Prepare(state.lengths, state.pending);
        if status.Failed? {
          AfterFailure();
          return;
        }
      }
      var hostFault: bool := *;
      if hostFault {
        AfterFailure();
        status := Failed(BackendError);
        return;
      }
      launched := true;
      status := Launch();
      if status.Failed? {
        AfterFailure();
      }
    }

    /** Both ledgers prepared for a batch, nothing started. */
    ghost predicate BothPrepared()
      reads this, state, pages
    {
      && state.Valid() && state.phase == Prepared && Bounded(state.pending, state.limits.maxModelLen)
      && (pages != null ==>
            && pages.Valid() && pages.phase == Prepared && SameLimits(pages.limits, state.limits)
            && RowsOk(pages.limits, pages.active, state.lengths) && Fresh()
            && RowsOk(pages.limits, pages.pending, state.pending))
    }

    /** The part of the pass after the point of no return: it publishes both ledgers, or ends with both executing. */
    method Launch() returns (status: Status)
      requires BothPrepared()
      modifies this, state, pages
      ensures status.Ok? ==>
                && Valid() && state.phase == Ready && state.lengths == old(state.pending)
                && (pages != null ==> device == pages.active == old(pages.pending))
      ensures status.Failed? ==>
                && status == Failed(BackendError)
                && state.Valid() && state.phase == Executing
                && (pages != null ==>
                      pages.Valid() && pages.phase == Executing && SameLimits(pages.limits, state.limits))
    {
      status := state.Start();
      if pages != null {
        pages.BeginExecution();
      }
      var deviceFault: bool := *;
      if deviceFault {
        return Failed(BackendError);
      }
      if pages != null && pages.UploadRequired() {
        RowsUploadable(pages.limits, pages.pending, state.pending);
        status := UploadPageTable(pages.pending);
        if status.Failed? {
          return;
        }
      }
      var completed := EnqueueKernels();
      if !completed {
        return Failed(BackendError);
      }
      if pages != null {
        pages.Commit();
      }
      status := state.Commit();
    }

    /** Refuses a table of the wrong shape or with page numbers out of range; an upload that fails on the way leaves
        the device copy in an unknown state. */
    method UploadPageTable(table: Table) returns (status: Status)
      requires pages != null && pages.limits.pageTokens > 0
      modifies `device
      ensures status.Ok? ==> device == table
      ensures status != Failed(InvalidArgument) <==>
                |table| == pages.limits.sequences
                && forall s :: 0 <= s < |table| ==> CoversContext(pages.limits, table[s])
      ensures status == Failed(InvalidArgument) ==> device == old(device)
      ensures status.Failed? ==> status.error == InvalidArgument || status.error == BackendError
    {
      if |table| != pages.limits.sequences {
        return Failed(InvalidArgument);
      }
      for s := 0 to |table|
        invariant device == old(device) && forall r :: 0 <= r < s ==> CoversContext(pages.limits, table[r])
      {
        Covering(pages.limits, table[s]);
        if !RowUploadable(pages.limits, table[s]) {
          return Failed(InvalidArgument);
        }
      }
      var transferred: bool := *;
      if !transferred {
        var unknown: Table := *;
        device := unknown;
        return Failed(BackendError);
      }
      device := table;
      return Ok;
    }

    /** Kernels read the device copy of the page table, so it has to be the pending table by now, uploaded or not. */
    method EnqueueKernels() returns (completed: bool)
      requires pages != null ==> device == pages.pending
    {
      completed := *;
    }

    /** The handler behind every failure of the pass. */
    method AfterFailure()
      requires state.Valid() && (state.phase == Prepared || state.phase == Executing)
      requires pages != null ==> pages.Valid() && SameLimits(pages.limits, state.limits)
      requires pages != null ==> pages.phase == state.phase || (pages.phase == Ready && state.phase == Prepared)
      modifies state, pages
      ensures state.Valid() && state.lengths == old(state.lengths)
      ensures pages != null ==>
                pages.Valid() && pages.phase == state.phase && pages.active == old(pages.active)
                && pages.dirty == old(pages.dirty)
      ensures state.phase == if old(state.phase) == Executing then Poisoned else Ready
      ensures pages != null && state.phase == Ready ==> pages.freeIds == old(pages.freeIds) && pages.journal == []
    {
      if state.phase == Executing {
        state.Poison();
        if pages != null {
          pages.Poison();
        }
      } else if state.phase == Prepared {
        if pages != null && pages.phase == Prepared {
          pages.DiscardPrepared();
        }
        // A poisoned page ledger would poison the lengths here; it never is.
        assert pages == null || pages.phase != Poisoned;
        var discarded := state.DiscardPrepared();
        assert discarded == Ok;
      }
    }

    /** Clears a sequence in both ledgers, or refuses without touching either. */
    method ClearSequence(sequence: int) returns (status: Status)
      requires Valid()
      modifies state, pages
      ensures Valid() && state.phase == old(state.phase)
      ensures status == (if state.phase != Ready then Failed(StateError)
                         else if !(0 <= sequence < state.limits.maxSequences) then Failed(InvalidArgument) else Ok)
      ensures status.Failed? ==> Untouched()
      ensures status.Ok? ==> state.lengths == old(state.lengths)[sequence := 0]
    {
      if state.phase != Ready || (pages != null && pages.phase != Ready) {
        return Failed(StateError);
      }
      if sequence < 0 || sequence >= state.limits.maxSequences {
        return Failed(InvalidArgument);
      }
      if pages != null {
        ClearedRows(pages.limits, pages.active, state.lengths, sequence);
        var cleared := pages.Clear(sequence);
        assert cleared == Ok;
      }
      status := state.Clear(sequence);
    }

    predicate IsReady()
      reads state, pages
    {
      !(state.phase == Poisoned || (pages != null && pages.phase == Poisoned))
    }

    /** Assigned pages, reported only while they are what the committed lengths call for. */
    method LiveKvPages() returns (r: Option<nat>)
      requires Valid()
      ensures r.Some? <==> pages != null && state.phase == Ready
      ensures r.Some? ==>
                && r.value == TotalPages(pages.limits, state.lengths)
                && 0 <= r.value * 16 - TotalTokens(state.lengths) <= 15 * LiveSequences(state.lengths)
    {
      if pages == null || !IsReady() || pages.phase != Ready {
        return None;
      }
      AssignedPages(pages.limits, pages.active, pages.freeIds, state.lengths);
      return Some(pages.limits.physicalPages - |pages.freeIds|);
    }

    ghost predicate Acceptable(lengths: seq<nat>, tokens: seq<InputToken>)
      reads {}
    {
      0 < |tokens| <= state.limits.maxBatchTokens
      && WellFormed(lengths, tokens, state.vocabulary, state.limits.maxModelLen)
    }

    ghost predicate Overfull(lengths: seq<nat>, target: seq<nat>, free: nat)
      requires pages != null
      reads {}
    {
      && |lengths| == |target| == pages.limits.sequences && pages.limits.pageTokens > 0
      && Demand(pages.limits, lengths, target, pages.limits.sequences) > free
    }

    /** Both ledgers and the device copy as at the beginning of the call, down to the free stack and the dirty mark. */
    twostate predicate Untouched()
      reads this, state, pages
    {
      && state.phase == old(state.phase) && state.lengths == old(state.lengths)
      && (pages != null ==>
            && pages.phase == old(pages.phase) && pages.active == old(pages.active)
               && pages.freeIds == old(pages.freeIds)
            && pages.journal == old(pages.journal) && pages.dirty == old(pages.dirty) && device == old(device))
    }
  }

  predicate RowUploadable(l: Limits, row: seq<int>)
    requires l.pageTokens > 0
  {
    |row| == Blocks(l) && forall b :: 0 <= b < |row| ==> -1 <= row[b] < l.physicalPages
  }

  /** A row with just enough entries for the whole context, each a page or none. */
  ghost predicate CoversContext(l: Limits, row: seq<int>) {
    && l.maxModelLen <= |row| * l.pageTokens < l.maxModelLen + l.pageTokens
    && forall b :: 0 <= b < |row| ==> -1 <= row[b] < l.physicalPages
  }

  lemma Covering(l: Limits, row: seq<int>)
    requires l.pageTokens > 0
    ensures RowUploadable(l, row) <==> CoversContext(l, row)
  {
    CeilDivBounds(l.maxModelLen, l.pageTokens);
    MulStep(|row|, Blocks(l), l.pageTokens);
    MulStep(Blocks(l), |row|, l.pageTokens);
  }

  ghost predicate Uploadable(l: Limits, t: Table)
    requires l.pageTokens > 0
  {
    |t| == l.sequences && forall s :: 0 <= s < |t| ==> RowUploadable(l, t[s])
  }

  lemma RowsUploadable(l: Limits, t: Table, lengths: seq<nat>)
    requires l.pageTokens > 0 && RowsOk(l, t, lengths)
    ensures Uploadable(l, t)
  {
    forall s | 0 <= s < |t| ensures RowUploadable(l, t[s]) {
      assert RowOk(t[s], Blocks(l), PagesFor(l, lengths[s]), l.physicalPages);
    }
  }

  ghost predicate SameLimits(p: Limits, l: StateLimits) {
    p.sequences == l.maxSequences && p.maxModelLen == l.maxModelLen
  }
}
