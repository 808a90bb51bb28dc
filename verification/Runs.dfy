/**
 Building runs: a run of the network can be continued by any step that is enabled in its last state.
 */
module Runs {
  import opened Wrappers
  import opened Messages
  import opened Network

  function Last(r: Run): State
    requires |r.states| > 0
  {
    r.states[|r.states| - 1]
  }

  /** q is a run that goes on where r ends. */
  ghost predicate Extends(r: Run, q: Run) {
    q.Valid() && r.states <= q.states && r.steps <= q.steps
  }

  lemma Extend(r: Run, step: Step) returns (q: Run)
    requires r.Valid() && Enabled(Last(r), step)
    ensures Extends(r, q) && Last(q) == Next(Last(r), step)
  {
    q := Run(r.states + [Next(Last(r), step)], r.steps + [step]);
    forall t | 0 <= t < |q.steps| ensures q.TakenAt(t) {
      if t < |r.steps| {
        assert r.TakenAt(t);
      }
    }
  }

  lemma SendMove(r: Run, step: Step) returns (q: Run)
    requires r.Valid() && Enabled(Last(r), step) && IsSendStep(step)
    ensures Extends(r, q) && Last(q) == NextSend(Last(r), step)
  {
    q := Extend(r, step);
  }

  lemma RecvMove(r: Run, step: Step) returns (q: Run)
    requires r.Valid() && Enabled(Last(r), step) && IsRecvStep(step)
    ensures Extends(r, q) && Last(q) == NextRecv(Last(r), step)
  {
    q := Extend(r, step);
  }

  lemma CallMove(r: Run, a: Node, b: Node, msg: Message) returns (q: Run)
    requires r.Valid() && Enabled(Last(r), Issue(a, b, msg))
    ensures Extends(r, q) && Last(q) == Last(r).(sends := Last(r).sends + [NewSend(a, b, msg, None)])
  {
    q := Extend(r, Issue(a, b, msg));
  }
}
