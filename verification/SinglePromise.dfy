/**
 * `singlePromise` (src/promise-utils.ts): callers with the same key share the call
 * that is in flight. A promise is its index in the order of creation; settling one
 * runs its `finally`, which deletes the key it was stored under.
 */
module SinglePromise {

  datatype Promise = Promise(key: string, settled: bool)

  datatype State = State(promises: seq<Promise>, inFlight: map<string, nat>)

  datatype Event = Call(key: string) | Settles(promise: nat)

  predicate Enabled(s: State, e: Event) {
    e.Settles? ==> e.promise < |s.promises| && !s.promises[e.promise].settled
  }

  /** The promise a call is given: the stored one, or else a new one. */
  function Given(s: State, key: string): nat {
    if key in s.inFlight then s.inFlight[key] else |s.promises|
  }

  function Step(s: State, e: Event): State
    requires Enabled(s, e)
  {
    match e
    case Call(key) =>
      if key in s.inFlight then s
      else State(s.promises + [Promise(key, false)], s.inFlight[key := |s.promises|])
    case Settles(p) =>
      State(s.promises[p := s.promises[p].(settled := true)], s.inFlight - {s.promises[p].key})
  }

  class PromiseMap {
    var inFlight: map<string, nat>
    var promises: seq<Promise>

    constructor ()
      ensures State(promises, inFlight) == State([], map[])
    {
      inFlight, promises := map[], [];
    }

    method Call(key: string) returns (promise: nat)
      modifies this
      ensures promise == Given(old(State(promises, inFlight)), key)
      ensures State(promises, inFlight) == Step(old(State(promises, inFlight)), Event.Call(key))
    {
      if key !in inFlight {
        promises := promises + [Promise(key, false)];
        inFlight := inFlight[key := |promises| - 1];
      }
      promise := inFlight[key];
    }

    method Settle(promise: nat)
      requires Enabled(State(promises, inFlight), Settles(promise))
      modifies this
      ensures State(promises, inFlight) == Step(old(State(promises, inFlight)), Settles(promise))
    {
      promises := promises[promise := promises[promise].(settled := true)];
      inFlight := inFlight - {promises[promise].key};
    }
  }

  /** The map holds exactly the unsettled promises, each under its own key. */
  ghost predicate Tracked(s: State) {
    && (forall key :: key in s.inFlight ==>
          && s.inFlight[key] < |s.promises|
          && s.promises[s.inFlight[key]] == Promise(key, false))
    && (forall p :: 0 <= p < |s.promises| && !s.promises[p].settled ==>
          s.promises[p].key in s.inFlight && s.inFlight[s.promises[p].key] == p)
  }

  ghost predicate IsRun(trace: seq<State>, events: seq<Event>) {
    && |trace| == |events| + 1 && trace[0] == State([], map[])
    && (forall k :: 0 <= k < |events| ==> Enabled(trace[k], events[k]) && trace[k + 1] == Step(trace[k], events[k]))
  }

  lemma {:induction false} RunIsTracked(trace: seq<State>, events: seq<Event>, k: nat)
    requires IsRun(trace, events) && k < |trace|
    ensures Tracked(trace[k])
  {
    if k > 0 {
      RunIsTracked(trace, events, k - 1);
    }
  }

  /**
   * In every run a call joins the unsettled promise of its key if there is one, and
   * starts new work only if there is none; so no key ever has two in flight, and
   * settling one never forgets another.
   */
  lemma CallsShareExactly(trace: seq<State>, events: seq<Event>, k: nat, p: nat)
    requires IsRun(trace, events) && k < |events| && events[k].Call? && p < |trace[k].promises|
    ensures Given(trace[k], events[k].key) == p <==>
      trace[k].promises[p].key == events[k].key && !trace[k].promises[p].settled
    ensures trace[k + 1].promises != trace[k].promises <==> events[k].key !in trace[k].inFlight
    ensures forall q ::
      0 <= q < |trace[k].promises| && q != p && trace[k].promises[q].key == trace[k].promises[p].key ==>
      trace[k].promises[q].settled || trace[k].promises[p].settled
  {
    RunIsTracked(trace, events, k);
  }
}
