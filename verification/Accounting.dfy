/**
 The other two duties of gateway/app/scheduler.py: adding up a user's GPU hours, and picking the waiter to
 tell when a host has been freed.
 */
module Accounting {
  import opened Prelude
  import opened Scheduler

  // ---- GPU hours ---------------------------------------------------------------------------------

  function Ended(r: Run, now: real): real {
    r.stopped.GetOr(now)
  }

  /** What one run adds to its user's GPU hours. */
  function Hours(r: Run, uid: string, now: real): real {
    if r.userId == uid && r.gpus > 0 && Ended(r, now) > r.started then (Ended(r, now) - r.started) / 3600.0 else 0.0
  }

  /** The unrounded sum. */
  function Usage(runs: seq<Run>, uid: string, now: real): real {
    if runs == [] then 0.0 else Usage(runs[..|runs| - 1], uid, now) + Hours(runs[|runs| - 1], uid, now)
  }

  /** Rounding to two decimals, halves to the even neighbour. */
  function Round2(x: real): real {
    var f := (x * 100.0).Floor;
    var rest := x * 100.0 - f as real;
    (if rest < 0.5 || (rest == 0.5 && f % 2 == 0) then f else f + 1) as real / 100.0
  }

  /** `gpu_hours_used` */
  method GpuHoursUsed(runs: seq<Run>, uid: string, now: real) returns (used: real)
    ensures used == Round2(Usage(runs, uid, now))
  {
    var total := 0.0;
    for i := 0 to |runs|
      invariant total == Usage(runs[..i], uid, now)
    {
      assert runs[..i + 1][..i] == runs[..i];
      var r := runs[i];
      if r.userId == uid && r.gpus > 0 {
        var end := if r.stopped.Some? then r.stopped.value else now;
        var seconds := end - r.started;
        total := total + (if seconds > 0.0 then seconds else 0.0) / 3600.0;
      }
    }
    assert runs[..|runs|] == runs;
    used := Round2(total);
  }

  lemma Round2Monotone(x: real, y: real)
    requires x <= y
    ensures Round2(x) <= Round2(y)
  {
    var f, g := (x * 100.0).Floor, (y * 100.0).Floor;
    assert x * 100.0 <= y * 100.0;
    assert f <= g;
  }

  // ---- The next waiter ---------------------------------------------------------------------------

  predicate Waiting(r: Run) {
    r.active && r.shared
  }

  /** The position of the active waiter that started first; the earlier row wins a tie. */
  function NextWaiter(runs: seq<Run>): Option<nat> {
    if runs == [] then None
    else
      var k := |runs| - 1;
      var best := NextWaiter(runs[..k]);
      if Waiting(runs[k]) && (best == None || (best.value < k && runs[k].started < runs[best.value].started))
      then Some(k) else best
  }

  lemma {:induction false} NextWaiterExactly(runs: seq<Run>)
    ensures NextWaiter(runs) == None <==> forall i :: 0 <= i < |runs| ==> !Waiting(runs[i])
    ensures NextWaiter(runs).Some? ==>
              var w := NextWaiter(runs).value;
              && w < |runs| && Waiting(runs[w])
              && (forall i :: 0 <= i < |runs| && Waiting(runs[i]) ==>
                    runs[w].started < runs[i].started || (runs[w].started == runs[i].started && w <= i))
  {
    if runs != [] {
      NextWaiterExactly(runs[..|runs| - 1]);
      assert forall i :: 0 <= i < |runs| - 1 ==> runs[..|runs| - 1][i] == runs[i];
    }
  }

  /** Whether some active run still holds host `h`. */
  predicate Occupied(runs: seq<Run>, h: string) {
    exists i :: 0 <= i < |runs| && runs[i].active && h in Footprint(runs[i])
  }

  /** Who `on_run_stopped` tells that `host` is free, if anybody. */
  function Promoted(runs: seq<Run>, host: string): Option<nat> {
    if Occupied(runs, host) then None else NextWaiter(runs)
  }

  /** The search of `on_run_stopped`. */
  method FindPromoted(runs: seq<Run>, host: string) returns (next: Option<nat>)
    ensures next == Promoted(runs, host)
  {
    var hosts: set<string> := {};
    for i := 0 to |runs|
      invariant forall h :: h in hosts <==> exists j :: 0 <= j < i && runs[j].active && h in Footprint(runs[j])
    {
      if runs[i].active {
        hosts := hosts + Footprint(runs[i]);
      }
    }
    if host in hosts {
      return None;
    }
    next := None;
    for i := 0 to |runs|
      invariant next == NextWaiter(runs[..i])
      invariant next.Some? ==> next.value < i
    {
      assert runs[..i + 1][..i] == runs[..i];
      if Waiting(runs[i]) && (next == None || runs[i].started < runs[next.value].started) {
        next := Some(i);
      }
    }
    assert runs[..|runs|] == runs;
  }
}
