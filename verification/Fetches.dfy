/** What the polling hooks have in common: how a fetch settles, and what was published so far. */
module Fetches {
  import opened Wrappers

  /** How a fetch settles; an `AbortError` may also come from a signal that is not the hook's. */
  datatype Outcome<D, E> = Loaded(data: D) | Failed(error: E) | AbortError

  /** A result that reached the state, and the fetch it came from. */
  datatype Published<D, E> = Published(id: nat, outcome: Outcome<D, E>)

  /** The data of the last fetch that succeeded, whatever failed since. */
  function LastData<D, E>(log: seq<Published<D, E>>): Option<D> {
    if log == [] then None
    else if log[|log| - 1].outcome.Loaded? then Some(log[|log| - 1].outcome.data)
    else LastData(log[..|log| - 1])
  }

  /** The error of the last result, if it failed. */
  function LastError<D, E>(log: seq<Published<D, E>>): Option<E> {
    if log != [] && log[|log| - 1].outcome.Failed? then Some(log[|log| - 1].outcome.error) else None
  }

  /** How many results in a row failed, back from the last one. */
  function FailuresInARow<D, E>(log: seq<Published<D, E>>): nat {
    if log == [] || log[|log| - 1].outcome.Loaded? then 0 else 1 + FailuresInARow(log[..|log| - 1])
  }

  lemma LogGrows<D, E>(log: seq<Published<D, E>>, p: Published<D, E>)
    ensures LastData(log + [p]) == if p.outcome.Loaded? then Some(p.outcome.data) else LastData(log)
    ensures FailuresInARow(log + [p]) == if p.outcome.Loaded? then 0 else 1 + FailuresInARow(log)
  {
    assert (log + [p])[..|log|] == log;
  }
}
