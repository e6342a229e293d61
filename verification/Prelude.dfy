/** Small shared vocabulary. */
module Prelude {

  datatype Option<+T> = None | Some(value: T)
  {
    function GetOr(default: T): T {
      match this
      case Some(v) => v
      case None => default
    }
  }

  /** A finite run of a system: the events that have happened, latest outermost. */
  datatype Trace<+E> = Start | Then(before: Trace<E>, event: E)

  /** `later` is `run` with more events after it. */
  ghost predicate Follows<E>(later: Trace<E>, run: Trace<E>) {
    later == run || (later.Then? && Follows(later.before, run))
  }

  /** The events of `run` are in order of their times `at`, the last one no later than `now`. */
  ghost predicate MonotoneUpTo<E>(run: Trace<E>, at: E -> real, now: real) {
    run.Then? ==> at(run.event) <= now && MonotoneUpTo(run.before, at, at(run.event))
  }

  lemma MonotoneLater<E>(run: Trace<E>, at: E -> real, now: real, later: real)
    requires MonotoneUpTo(run, at, now) && now <= later
    ensures MonotoneUpTo(run, at, later)
  {
  }

  ghost predicate Distinct<T>(items: seq<T>) {
    forall i, j :: 0 <= i < j < |items| ==> items[i] != items[j]
  }

  function Max(a: int, b: int): int {
    if a >= b then a else b
  }
}
