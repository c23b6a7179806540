/**
 The counters that balance against the gate and the ledger.
 */
module Metrics {

  datatype Counters = Counters(inFlight: int, requests: nat, hits: nat, inputTokens: nat, outputTokens: nat, cost: real)

  const ZERO := Counters(0, 0, 0, 0, 0, 0.0)

  function Started(m: Counters): Counters {
    m.(inFlight := m.inFlight + 1, requests := m.requests + 1)
  }

  function Finished(m: Counters, inputTokens: nat, outputTokens: nat, cost: real): Counters {
    Counters(if m.inFlight - 1 > 0 then m.inFlight - 1 else 0, m.requests, m.hits,
             m.inputTokens + inputTokens, m.outputTokens + outputTokens, m.cost + cost)
  }

  function Hit(m: Counters): Counters {
    m.(hits := m.hits + 1, requests := m.requests + 1)
  }

  class Metrics {
    var inFlight: int
    var requests: nat
    var hits: nat
    var inputTokens: nat
    var outputTokens: nat
    var cost: real

    function View(): Counters
      reads this
    {
      Counters(inFlight, requests, hits, inputTokens, outputTokens, cost)
    }

    constructor ()
      ensures View() == ZERO
    {
      inFlight, requests, hits, inputTokens, outputTokens, cost := 0, 0, 0, 0, 0, 0.0;
    }

    method RequestStarted()
      modifies this
      ensures View() == Started(old(View()))
    {
      inFlight := inFlight + 1;
      requests := requests + 1;
    }

    method RequestFinished(inputs: nat, outputs: nat, spent: real)
      modifies this
      ensures View() == Finished(old(View()), inputs, outputs, spent)
    {
      inFlight := if inFlight - 1 > 0 then inFlight - 1 else 0;
      inputTokens := inputTokens + inputs;
      outputTokens := outputTokens + outputs;
      cost := cost + spent;
    }

    method CacheHit()
      modifies this
      ensures View() == Hit(old(View()))
    {
      hits := hits + 1;
      requests := requests + 1;
    }
  }
}
