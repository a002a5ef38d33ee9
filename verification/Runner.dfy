/** A model runner as the engine may rely on it (the abstraction of the test runner, tests/core_tests.cpp:538-577):
    token histories per sequence, samples that depend on the sampled sequence's history alone, and faults at any
    call. */
module Runners {
  import opened Outcomes
  import opened Batches
  import opened Requests

  datatype Sample = Sample(sequence: int, token: int)

  predicate Expects(batch: seq<InputToken>, s: int) {
    exists i :: 0 <= i < |batch| && batch[i].logits && batch[i].sequence == s
  }

  /** A sample that answers a request of the batch with a token of the vocabulary. */
  predicate Plausible(m: Model, h: Histories, batch: seq<InputToken>, s: Sample) {
    0 <= s.sequence < |h| && Expects(batch, s.sequence) && 0 <= s.token < m.vocabulary
  }

  /** A runner may return nonsense, but what passes for an answer is the model's. */
  ghost predicate Honest(m: Model, h: Histories, batch: seq<InputToken>, samples: seq<Sample>) {
    forall i :: 0 <= i < |samples| && Plausible(m, h, batch, samples[i]) ==>
      samples[i].token == m.next(h[samples[i].sequence])
  }

  class Runner {
    const model: Model
    const slots: nat
    var histories: Histories
    /** Whether the runner reports its state as valid and reusable. */
    var healthy: bool

    constructor (model: Model, slots: nat)
      ensures this.model == model && this.slots == slots && histories == seq(slots, _ => []) && healthy
    {
      this.model := model;
      this.slots := slots;
      histories := seq(slots, _ => []);
      healthy := true;
    }

    /** A runner that loses its state does not regain it, and nothing is known of its histories. */
    method LoseState()
      modifies this
      ensures !healthy
    {
      var anything: Histories := *;
      histories := anything;
      healthy := false;
    }

    method ClearSequence(s: nat)
      modifies this
      ensures healthy ==> old(healthy) && (s < |old(histories)| ==> histories == old(histories)[s := []])
    {
      var lost: bool := *;
      if lost {
        LoseState();
      } else if s < |histories| {
        histories := histories[s := []];
      }
    }

    method CopySequence(source: nat, target: nat, tokens: nat) returns (ok: bool)
      modifies this
      ensures ok ==> healthy == old(healthy) && source < |old(histories)| && target < |old(histories)|
                     && tokens <= |old(histories)[source]|
                     && histories == old(histories)[target := old(histories)[source][..tokens]]
    {
      var fails: bool := *;
      if fails || source >= |histories| || target >= |histories| || tokens > |histories[source]| {
        LoseState();
        return false;
      }
      histories := histories[target := histories[source][..tokens]];
      return true;
    }

    method Synchronize()
      modifies this
      ensures healthy ==> old(healthy) && histories == old(histories)
    {
      var lost: bool := *;
      if lost {
        LoseState();
      }
    }

    method Execute(batch: seq<InputToken>) returns (r: Result<seq<Sample>>)
      modifies this
      ensures healthy ==> old(healthy)
      ensures healthy && r.Success? ==>
                histories == HistoriesAfter(old(histories), batch) && Honest(model, histories, batch, r.value)
    {
      var lost: bool, fails: bool := *, *;
      if lost {
        LoseState();
      } else {
        histories := HistoriesAfter(histories, batch);
      }
      if fails {
        return Failure(BackendError);
      }
      var samples := AnySamples(batch);
      return Success(samples);
    }

    method AnySamples(batch: seq<InputToken>) returns (samples: seq<Sample>)
      ensures Honest(model, histories, batch, samples)
    {
      var count: int := *;
      samples := [];
      while count > 0
        invariant Honest(model, histories, batch, samples)
      {
        count := count - 1;
        var s: Sample := *;
        if Plausible(model, histories, batch, s) {
          s := s.(token := model.next(histories[s.sequence]));
        }
        samples := samples + [s];
      }
    }
  }
}
