/** Self-fencing: how long an unsignalled handler may run on after the last renewal, in real time. */
module LeaseFencing {
  import opened Wrappers
  import opened Leases
  import opened LeaseRuns

  /** Renewals are attempted at gaps of at most `gap`, and their answers arrive within `lag` of the stamped time. */
  predicate Punctual(gap: real, lag: real, w: World, step: Step) {
    && (Live(w.s) || step.Begin? ==> step.at <= w.attempted + gap)
    && (step.Hold? ==> step.at <= step.claimed + lag)
    && (step.Renew? ==> step.at <= step.called + lag)
  }

  /** A handler is not begun on a lease that an attempt has already found too old. */
  predicate BegunInTime(c: Config, w: World, step: Step) {
    step.Begin? ==> w.attempted < w.s.lastRenewed + c.lease - c.interval
  }

  predicate Allowed(c: Config, gap: real, lag: real, w: World, step: Step) {
    Possible(w, step) && Disciplined(w.s, step) && Punctual(gap, lag, w, step) && BegunInTime(c, w, step)
  }

  /** Runs grow at the end. */
  ghost predicate Schedule(c: Config, gap: real, lag: real, steps: seq<Step>)
    decreases |steps|, 0
  {
    steps == [] ||
    (var n := |steps| - 1; Schedule(c, gap, lag, steps[..n]) && Allowed(c, gap, lag, After(c, gap, lag, steps[..n]), steps[n]))
  }

  ghost function After(c: Config, gap: real, lag: real, steps: seq<Step>): World
    requires Schedule(c, gap, lag, steps)
    decreases |steps|, 1
  {
    if steps == [] then Start(0.0) else
      var n := |steps| - 1; Next(c, After(c, gap, lag, steps[..n]), steps[n])
  }

  ghost predicate Timely(c: Config, gap: real, lag: real, w: World) {
    && Fresh(w.s) && Tracked(w.s)
    && w.s.lastRenewed <= w.stamped + lag
    && (Live(w.s) ==> w.attempted < w.s.lastRenewed + c.lease - c.interval && w.now <= w.attempted + gap)
  }

  lemma {:induction false} StepTimely(c: Config, gap: real, lag: real, w: World, step: Step)
    requires ValidConfig(c) && gap >= 0.0 && lag >= 0.0 && Timely(c, gap, lag, w) && Allowed(c, gap, lag, w, step)
    ensures Timely(c, gap, lag, Next(c, w, step))
  {
    StepFresh(c, w.s, step);
    TrackedIff(c, w.s, step);
    assert Live(Apply(c, w.s, step)) && !step.Begin? ==> Live(w.s);
  }

  /** A begin keeps the bound possible exactly when no attempt has already found the lease too old. */
  lemma {:induction false} BeginTimelyIff(c: Config, gap: real, lag: real, w: World, step: Step)
    requires ValidConfig(c) && gap >= 0.0 && lag >= 0.0 && Timely(c, gap, lag, w) && step.Begin?
    requires Possible(w, step) && Disciplined(w.s, step) && Punctual(gap, lag, w, step)
    ensures Timely(c, gap, lag, Next(c, w, step)) <==> BegunInTime(c, w, step)
  {
    StepFresh(c, w.s, step);
    TrackedIff(c, w.s, step);
    assert Live(Apply(c, w.s, step));
  }

  lemma {:induction false} AlwaysTimely(c: Config, gap: real, lag: real, steps: seq<Step>)
    requires ValidConfig(c) && gap >= 0.0 && lag >= 0.0 && Schedule(c, gap, lag, steps)
    ensures Timely(c, gap, lag, After(c, gap, lag, steps))
    decreases |steps|
  {
    if steps != [] {
      var n := |steps| - 1;
      AlwaysTimely(c, gap, lag, steps[..n]);
      StepTimely(c, gap, lag, After(c, gap, lag, steps[..n]), steps[n]);
    }
  }

  /** At every moment of every run whose attempts are at most one interval apart, a handler that has not been
      signalled is strictly within `lease` of the last successful renewal. */
  lemma {:induction false} FencedWithinLease(c: Config, lag: real, steps: seq<Step>)
    requires ValidConfig(c) && lag >= 0.0 && Schedule(c, c.interval, lag, steps)
    ensures var w := After(c, c.interval, lag, steps); Live(w.s) ==> w.now < w.s.lastRenewed + c.lease
  {
    AlwaysTimely(c, c.interval, lag, steps);
  }

  /** Never fenced early: in every run, whatever is renewed or fails, a handler is signalled either because it overran
      its cap, or because the database gave its job away, or after at least two intervals of silence. */
  lemma {:induction false} NeverFencedEarly(c: Config, t: real, steps: seq<Step>, event: nat) returns (i: nat)
    requires ValidConfig(c) && Runnable(c, Start(t), steps) && event in Run(c, Start(t), steps).s.signalled
    ensures i < |steps| && Runnable(c, Start(t), steps[..i])
    ensures var s, step := Run(c, Start(t), steps[..i]).s, steps[i];
            && Live(s) && s.running.value.event == event
            && ((step.Abandon? && step.at - s.running.value.started >= c.lease)
                || (step.Renew? && step.answer.Renewed? && s.running.value.job in s.held && s.running.value.job !in step.answer.ids)
                || (step.Renew? && step.answer.Failed? && step.at - s.lastRenewed >= 2.0 * c.interval))
  {
    i := SignalHasCause(c, Start(t), steps, event);
  }

  // ---- Against the expiry the database holds ----

  /** The lease the database sees runs from the stamp, which is older than the answer by the round trip. */
  predicate Within(c: Config, w: World) {
    Live(w.s) ==> w.now < w.stamped + c.lease
  }

  ghost predicate NeverOverstays(c: Config, gap: real, lag: real) {
    forall steps | Schedule(c, gap, lag, steps) :: Within(c, After(c, gap, lag, steps))
  }

  lemma {:induction false} Extended(c: Config, gap: real, lag: real, steps: seq<Step>, step: Step)
    requires Schedule(c, gap, lag, steps) && Allowed(c, gap, lag, After(c, gap, lag, steps), step)
    ensures Schedule(c, gap, lag, steps + [step])
    ensures After(c, gap, lag, steps + [step]) == Next(c, After(c, gap, lag, steps), step)
  {
    assert (steps + [step])[..|steps|] == steps;
  }

  /** The worst case waits for it: silence measured from `lag`, `k` failed attempts `d` apart. */
  ghost predicate Lasting(w: World, job: Job, lag: real, attempted: real) {
    && w.s.held == map[job := 0] && w.s.running == Some(Running(job, lag, 0, false, false)) && w.s.signalled == {}
    && w.s.lastRenewed == lag && w.stamped == 0.0 && w.now == attempted && w.attempted == attempted
  }

  lemma {:induction false} HoldThenBegin(c: Config, gap: real, lag: real, job: Job) returns (steps: seq<Step>)
    requires ValidConfig(c) && gap >= 0.0 && lag >= 0.0
    ensures Schedule(c, gap, lag, steps) && Lasting(After(c, gap, lag, steps), job, lag, lag)
  {
    var hold, begin := Hold(map[job := 0], 0.0, lag), Begin(job, lag);
    Extended(c, gap, lag, [], hold);
    Extended(c, gap, lag, [] + [hold], begin);
    steps := [] + [hold] + [begin];
  }

  lemma {:induction false} FailOnce(c: Config, gap: real, lag: real, w: World, job: Job, attempted: real, at: real)
    requires Lasting(w, job, lag, attempted) && attempted <= at <= attempted + gap && lag >= 0.0
    requires at - lag < c.lease - c.interval
    ensures Allowed(c, gap, lag, w, Renew(Failed, at, at))
    ensures Lasting(Next(c, w, Renew(Failed, at, at)), job, lag, at)
  {
    assert job in w.s.held && w.s.held != map[];
    assert !Silent(c, w.s, at);
  }

  function Times(k: nat, d: real): real {
    if k == 0 then 0.0 else Times(k - 1, d) + d
  }

  lemma {:induction false} FailingSchedule(c: Config, gap: real, lag: real, job: Job, d: real, k: nat) returns (steps: seq<Step>)
    requires ValidConfig(c) && gap >= d >= 0.0 && lag >= 0.0 && Times(k, d) < c.lease - c.interval
    ensures Schedule(c, gap, lag, steps) && Lasting(After(c, gap, lag, steps), job, lag, lag + Times(k, d))
  {
    if k == 0 {
      steps := HoldThenBegin(c, gap, lag, job);
    } else {
      var before := FailingSchedule(c, gap, lag, job, d, k - 1);
      steps := FailsAgain(c, gap, lag, before, job, lag + Times(k - 1, d), lag + Times(k, d));
    }
  }

  /** One more failed attempt, before the silence has lasted long enough. */
  lemma {:induction false} FailsAgain(c: Config, gap: real, lag: real, before: seq<Step>, job: Job, earlier: real, at: real)
    returns (steps: seq<Step>)
    requires Schedule(c, gap, lag, before) && Lasting(After(c, gap, lag, before), job, lag, earlier)
    requires earlier <= at <= earlier + gap && lag >= 0.0 && at - lag < c.lease - c.interval
    ensures Schedule(c, gap, lag, steps) && Lasting(After(c, gap, lag, steps), job, lag, at)
  {
    FailOnce(c, gap, lag, After(c, gap, lag, before), job, earlier, at);
    Extended(c, gap, lag, before, Renew(Failed, at, at));
    steps := before + [Renew(Failed, at, at)];
  }

  lemma {:induction false} TimesIsProduct(k: nat, d: real)
    ensures Times(k, d) == (k as real) * d
  {
    if k > 0 {
      TimesIsProduct(k - 1, d);
      assert (k as real) * d == ((k - 1) as real + 1.0) * d;
    }
  }

  /** Any silence can be cut into steps no longer than `gap`. */
  lemma {:induction false} Divided(x: real, gap: real) returns (d: real, k: nat)
    requires x >= 0.0 && gap > 0.0
    ensures 0.0 <= d <= gap && Times(k, d) == x
  {
    k := (x / gap).Floor + 1;
    d := x / (k as real);
    assert x / gap < k as real;
    assert x < gap * (k as real);
    TimesIsProduct(k, d);
  }

  lemma {:induction false} Overstays(c: Config, gap: real, lag: real)
    requires ValidConfig(c) && gap > 0.0 && lag >= 0.0 && gap + lag > c.interval
    ensures !NeverOverstays(c, gap, lag)
  {
    var least, most := c.lease - gap - lag, c.lease - c.interval;
    var x := if least < 0.0 then 0.0 else (least + most) / 2.0;
    var d, k := Divided(x, gap);
    var steps := FailingSchedule(c, gap, lag, "a", d, k);
    WaitOut(c, gap, lag, steps, "a", x);
  }

  lemma {:induction false} WaitOut(c: Config, gap: real, lag: real, steps: seq<Step>, job: Job, x: real)
    requires gap >= 0.0 && Schedule(c, gap, lag, steps) && Lasting(After(c, gap, lag, steps), job, lag, lag + x)
    requires x + lag + gap >= c.lease
    ensures !NeverOverstays(c, gap, lag)
  {
    var w := After(c, gap, lag, steps);
    var step := Idle(c, gap, lag, w, job, x);
    Extended(c, gap, lag, steps, step);
    assert !Within(c, Next(c, w, step));
  }

  /** Time passes: a section about some other job. */
  lemma {:induction false} Idle(c: Config, gap: real, lag: real, w: World, job: Job, x: real) returns (step: Step)
    requires gap >= 0.0 && Lasting(w, job, lag, lag + x)
    ensures Allowed(c, gap, lag, w, step)
    ensures var v := Next(c, w, step); Live(v.s) && v.now == lag + x + gap && v.stamped == 0.0
  {
    var other := job + "b";
    assert |other| == |job| + 1;
    step := Finalize(other, w.now + gap);
    assert !Runs(w.s, other);
    assert Apply(c, w.s, step) == w.s;
  }

  /** Exactly how punctual renewals must be for a handler never to outlive the lease the database holds for it:
      the gap between attempts and the round trip must fit in one interval together. */
  lemma {:induction false} NeverOverstaysIff(c: Config, gap: real, lag: real)
    requires ValidConfig(c) && gap > 0.0 && lag >= 0.0
    ensures NeverOverstays(c, gap, lag) <==> gap + lag <= c.interval
  {
    if gap + lag <= c.interval {
      forall steps | Schedule(c, gap, lag, steps)
        ensures Within(c, After(c, gap, lag, steps))
      {
        AlwaysTimely(c, gap, lag, steps);
      }
    } else {
      Overstays(c, gap, lag);
    }
  }
}
