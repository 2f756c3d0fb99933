/** Every interleaving of the runner's and the heartbeat's lock sections: signals, and how jobs leave a batch. */
module LeaseRuns {
  import opened Wrappers
  import opened Leases

  /** One lock section. `claimed` and `called` are the times stamped on the database rows; `at` is when it ends. */
  datatype Step =
    | Hold(batch: map<Job, nat>, claimed: real, at: real)
    | Begin(job: Job, at: real)
    | Finalize(job: Job, at: real)
    | Finish(job: Job, at: real)
    | Drop(job: Job, at: real)
    | Clear(at: real)
    | ReleaseWaiting(at: real)
    | Abandon(at: real)
    | Renew(answer: Answer, called: real, at: real)

  /** The keeper and what has happened around it: the time, when a renewal was last attempted, the stamp of the
      last successful one, and for the current batch its claim, the jobs that left `held` and those handed to release. */
  datatype World = World(s: State, now: real, attempted: real, stamped: real,
                         batch: map<Job, nat>, left: multiset<Job>, released: multiset<Job>)

  function Start(t: real): World {
    World(State(map[], None, t, {}, 0), t, t, t, map[], multiset{}, multiset{})
  }

  /** Time does not go back, and a renewal answers for held jobs only. */
  predicate Possible(w: World, step: Step) {
    && w.now <= step.at
    && (step.Hold? ==> step.claimed <= step.at)
    && (step.Renew? ==> w.now <= step.called <= step.at && (step.answer.Renewed? ==> step.answer.ids <= w.s.held.Keys))
  }

  function Apply(c: Config, s: State, step: Step): State {
    match step
    case Hold(batch, _, at) => Held(s, batch, at)
    case Begin(job, at) => Begun(s, job, at)
    case Finalize(job, _) => Finalized(s, job)
    case Finish(job, _) => Finished(s, job)
    case Drop(job, _) => Dropped(s, job)
    case Clear(_) => Cleared(s)
    case ReleaseWaiting(_) => WaitingTaken(s)
    case Abandon(at) => Abandoned(c, s, at)
    case Renew(answer, _, at) => RenewedTo(c, s, answer, at)
  }

  /** The jobs a section hands to the release that follows it. */
  function Handed(c: Config, s: State, step: Step): map<Job, nat> {
    if step.ReleaseWaiting? || (step.Abandon? && Overdue(c, s, step.at)) then Waiting(s) else map[]
  }

  function Next(c: Config, w: World, step: Step): World
    requires Possible(w, step)
  {
    var s := Apply(c, w.s, step);
    if step.Hold? then World(s, step.at, step.at, step.claimed, step.batch, multiset{}, multiset{})
    else
      World(s, step.at,
            if step.Renew? then step.at else w.attempted,
            if step.Renew? && step.answer.Renewed? && w.s.held != map[] then step.called else w.stamped,
            w.batch, w.left + multiset(w.s.held.Keys - s.held.Keys), w.released + multiset(Handed(c, w.s, step).Keys))
  }

  // ---- Runs ----

  ghost predicate Runnable(c: Config, w: World, steps: seq<Step>)
    decreases |steps|
  {
    steps == [] || (Possible(w, steps[0]) && Runnable(c, Next(c, w, steps[0]), steps[1..]))
  }

  ghost function Run(c: Config, w: World, steps: seq<Step>): World
    requires Runnable(c, w, steps)
    decreases |steps|
  {
    if steps == [] then w else Run(c, Next(c, w, steps[0]), steps[1..])
  }

  // ---- Signals ----

  /** The running handler has neither returned nor been told its lease is lost. */
  predicate Live(s: State) {
    s.running.Some? && !s.running.value.finalizing && s.running.value.event !in s.signalled
  }

  /** A handler left running unsignalled is one whose lease is still being renewed. */
  predicate Tracked(s: State) {
    Live(s) ==> s.running.value.job in s.held
  }

  predicate Fresh(s: State) {
    && (forall e :: e in s.signalled ==> e < s.events)
    && (s.running.Some? ==> s.running.value.event < s.events)
    && (s.running.Some? && s.running.value.abandoned ==> s.running.value.event in s.signalled)
  }

  /** What is asked of the runner: begin a held job, and do not drop a live one. */
  predicate Disciplined(s: State, step: Step) {
    && (step.Begin? ==> step.job in s.held)
    && (step.Drop? ==> !(Live(s) && Runs(s, step.job)))
  }

  lemma {:induction false} StepFresh(c: Config, s: State, step: Step)
    requires Fresh(s)
    ensures Fresh(Apply(c, s, step)) && s.signalled <= Apply(c, s, step).signalled && s.events <= Apply(c, s, step).events
  {}

  /** Tracking survives a section exactly when the runner was disciplined in it. */
  lemma {:induction false} TrackedIff(c: Config, s: State, step: Step)
    requires Fresh(s) && Tracked(s) && (step.Renew? && step.answer.Renewed? ==> step.answer.ids <= s.held.Keys)
    ensures Tracked(Apply(c, s, step)) <==> Disciplined(s, step)
  {
    assert step.Begin? ==> Live(Begun(s, step.job, step.at));
  }

  ghost predicate DisciplinedRun(c: Config, w: World, steps: seq<Step>)
    requires Runnable(c, w, steps)
    decreases |steps|
  {
    steps == [] || (Disciplined(w.s, steps[0]) && DisciplinedRun(c, Next(c, w, steps[0]), steps[1..]))
  }

  lemma {:induction false} SignalsFrom(c: Config, w: World, steps: seq<Step>)
    requires Fresh(w.s) && Runnable(c, w, steps)
    ensures Fresh(Run(c, w, steps).s) && w.s.signalled <= Run(c, w, steps).s.signalled
    ensures Tracked(w.s) && DisciplinedRun(c, w, steps) ==> Tracked(Run(c, w, steps).s)
    decreases |steps|
  {
    if steps != [] {
      StepFresh(c, w.s, steps[0]);
      if Tracked(w.s) && DisciplinedRun(c, w, steps) {
        TrackedIff(c, w.s, steps[0]);
      }
      SignalsFrom(c, Next(c, w, steps[0]), steps[1..]);
    }
  }

  lemma {:induction false} RunSplits(c: Config, w: World, first: seq<Step>, rest: seq<Step>)
    requires Runnable(c, w, first + rest)
    ensures Runnable(c, w, first) && Runnable(c, Run(c, w, first), rest)
    ensures Run(c, w, first + rest) == Run(c, Run(c, w, first), rest)
    decreases |first|
  {
    if first == [] {
      assert first + rest == rest;
    } else {
      assert (first + rest)[1..] == first[1..] + rest;
      RunSplits(c, Next(c, w, first[0]), first[1..], rest);
    }
  }

  /** Safety of the lost signal, over every interleaving: once set it stays set, and under a disciplined runner a
      running, non-finalizing job that is no longer tracked for renewal has been signalled. */
  lemma {:induction false} LostJobsAreSignalled(c: Config, t: real, first: seq<Step>, rest: seq<Step>)
    requires Runnable(c, Start(t), first + rest)
    ensures Runnable(c, Start(t), first)
    ensures Run(c, Start(t), first).s.signalled <= Run(c, Start(t), first + rest).s.signalled
    ensures var s := Run(c, Start(t), first + rest).s;
            DisciplinedRun(c, Start(t), first + rest) ==>
              (s.running.Some? && !s.running.value.finalizing && s.running.value.job !in s.held ==>
                 s.running.value.event in s.signalled)
  {
    RunSplits(c, Start(t), first, rest);
    SignalsFrom(c, Start(t), first);
    SignalsFrom(c, Run(c, Start(t), first), rest);
    SignalsFrom(c, Start(t), first + rest);
  }

  /** The handler overran its cap, the database gave its job away, or renewals have been silent for a lease less one
      interval. */
  predicate Cause(c: Config, s: State, step: Step) {
    && Live(s)
    && ((step.Abandon? && step.at - s.running.value.started >= c.maxRuntime)
        || (step.Renew? && step.answer.Renewed? && s.running.value.job in s.held.Keys - step.answer.ids)
        || (step.Renew? && step.answer.Failed? && s.held != map[] && step.at - s.lastRenewed >= c.lease - c.interval))
  }

  lemma {:induction false} SignalCauses(c: Config, s: State, step: Step)
    requires Fresh(s)
    ensures Apply(c, s, step).signalled == s.signalled + (if Cause(c, s, step) then {s.running.value.event} else {})
  {}

  /** Why a signal is set, over every run: each signal found set at the end was set by one section, on the handler it
      belongs to and while that handler was live, for one of the three causes; and each of them sets it. */
  lemma {:induction false} SignalHasCause(c: Config, w: World, steps: seq<Step>, event: nat) returns (i: nat)
    requires Fresh(w.s) && Runnable(c, w, steps) && event in Run(c, w, steps).s.signalled && event !in w.s.signalled
    ensures i < |steps| && Runnable(c, w, steps[..i])
    ensures var before := Run(c, w, steps[..i]);
            Cause(c, before.s, steps[i]) && before.s.running.value.event == event && event !in before.s.signalled
    decreases |steps|
  {
    SignalCauses(c, w.s, steps[0]);
    StepFresh(c, w.s, steps[0]);
    if event in Apply(c, w.s, steps[0]).signalled {
      i := 0;
    } else {
      var k := SignalHasCause(c, Next(c, w, steps[0]), steps[1..], event);
      i := k + 1;
      PrefixRuns(c, w, steps, k);
    }
  }

  lemma {:induction false} PrefixRuns(c: Config, w: World, steps: seq<Step>, k: nat)
    requires steps != [] && Possible(w, steps[0]) && k < |steps| && Runnable(c, Next(c, w, steps[0]), steps[1..][..k])
    ensures Runnable(c, w, steps[..k + 1])
    ensures Run(c, w, steps[..k + 1]) == Run(c, Next(c, w, steps[0]), steps[1..][..k])
  {
    assert steps[..k + 1] == [steps[0]] + steps[1..][..k];
    Prepend(c, w, steps[0], steps[1..][..k]);
  }

  // ---- The race between confirming a job and beginning it ----

  lemma {:induction false} Prepend(c: Config, w: World, step: Step, rest: seq<Step>)
    requires Possible(w, step) && Runnable(c, Next(c, w, step), rest)
    ensures Runnable(c, w, [step] + rest) && Run(c, w, [step] + rest) == Run(c, Next(c, w, step), rest)
  {
    assert ([step] + rest)[1..] == rest;
  }

  /** The heartbeat learns that `b` is gone between the renewal that confirmed it and the call that begins it. */
  lemma {:induction false} BeginAfterLoss(c: Config, b: Job)
    ensures var steps := [Hold(map[b := 1], 0.0, 0.0), Renew(Renewed({b}), 0.0, 0.0), Renew(Renewed({}), 0.0, 0.0), Begin(b, 0.0)];
            && Runnable(c, Start(0.0), steps)
            && Run(c, Start(0.0), steps).s.held == map[] && Live(Run(c, Start(0.0), steps).s)
  {
    var w1 := Next(c, Start(0.0), Hold(map[b := 1], 0.0, 0.0));
    var w2 := Next(c, w1, Renew(Renewed({b}), 0.0, 0.0));
    assert w1.s.held == map[b := 1] && w1.s.held.Keys == {b};
    assert w2.s.held == map[b := 1] && w2.s.held.Keys == {b};
    var w3 := Next(c, w2, Renew(Renewed({}), 0.0, 0.0));
    assert w3.s.held == map[] && w3.s.signalled == {} && w3.now == 0.0;
    Prepend(c, w3, Begin(b, 0.0), []);
    var last := [Begin(b, 0.0)];
    assert last == [Begin(b, 0.0)] + [];
    Prepend(c, w2, Renew(Renewed({}), 0.0, 0.0), last);
    Prepend(c, w1, Renew(Renewed({b}), 0.0, 0.0), [Renew(Renewed({}), 0.0, 0.0)] + last);
    Prepend(c, Start(0.0), Hold(map[b := 1], 0.0, 0.0), [Renew(Renewed({b}), 0.0, 0.0)] + ([Renew(Renewed({}), 0.0, 0.0)] + last));
    assert [Hold(map[b := 1], 0.0, 0.0), Renew(Renewed({b}), 0.0, 0.0), Renew(Renewed({}), 0.0, 0.0), Begin(b, 0.0)]
        == [Hold(map[b := 1], 0.0, 0.0)] + ([Renew(Renewed({b}), 0.0, 0.0)] + ([Renew(Renewed({}), 0.0, 0.0)] + last));
  }

  /** From there no number of renewals, whatever they answer, ever signals the handler. */
  lemma {:induction false} UntrackedNeverFenced(c: Config, w: World, steps: seq<Step>)
    requires Runnable(c, w, steps) && w.s.held == map[] && Live(w.s) && forall step :: step in steps ==> step.Renew?
    ensures Live(Run(c, w, steps).s)
    decreases |steps|
  {
    if steps != [] {
      assert steps[0] in steps;
      UntrackedNeverFenced(c, Next(c, w, steps[0]), steps[1..]);
    }
  }

  // ---- Leaving the batch ----

  /** Every job of the batch is either still held, under its claimed attempt, or has left once. */
  ghost predicate Conserved(w: World) {
    && (forall j :: j in w.s.held ==> j in w.batch && w.batch[j] == w.s.held[j])
    && multiset(w.batch.Keys) == multiset(w.s.held.Keys) + w.left
    && w.released <= w.left
  }

  lemma {:induction false} HeldShrinks(c: Config, s: State, step: Step)
    requires !step.Hold?
    ensures forall j :: j in Apply(c, s, step).held ==> j in s.held && s.held[j] == Apply(c, s, step).held[j]
    ensures Handed(c, s, step).Keys <= s.held.Keys - Apply(c, s, step).held.Keys
  {}

  lemma {:induction false} SplitKeys(a: set<Job>, b: set<Job>)
    requires b <= a
    ensures multiset(a) == multiset(b) + multiset(a - b)
  {}

  lemma {:induction false} StepConserves(c: Config, w: World, step: Step)
    requires Conserved(w) && Possible(w, step)
    ensures Conserved(Next(c, w, step))
  {
    if !step.Hold? {
      HeldShrinks(c, w.s, step);
      SplitKeys(w.s.held.Keys, Apply(c, w.s, step).held.Keys);
    }
  }

  /** Each job of a batch leaves the held set exactly once, so it is handed to release at most once. */
  lemma {:induction false} LeavesOnce(c: Config, t: real, steps: seq<Step>, job: Job)
    requires Runnable(c, Start(t), steps)
    ensures var w := Run(c, Start(t), steps);
            && Conserved(w)
            && w.left[job] == (if job in w.batch && job !in w.s.held then 1 else 0)
            && w.released[job] <= w.left[job]
  {
    ConservedFrom(c, Start(t), steps);
    var w := Run(c, Start(t), steps);
    assert multiset(w.batch.Keys)[job] == multiset(w.s.held.Keys)[job] + w.left[job];
  }

  lemma {:induction false} ConservedFrom(c: Config, w: World, steps: seq<Step>)
    requires Conserved(w) && Runnable(c, w, steps)
    ensures Conserved(Run(c, w, steps))
    decreases |steps|
  {
    if steps != [] {
      StepConserves(c, w, steps[0]);
      ConservedFrom(c, Next(c, w, steps[0]), steps[1..]);
    }
  }

  lemma {:induction false} StaysOut(c: Config, w: World, steps: seq<Step>, job: Job)
    requires Runnable(c, w, steps) && job !in w.s.held && forall step :: step in steps ==> !step.Hold?
    ensures job !in Run(c, w, steps).s.held
    decreases |steps|
  {
    if steps != [] {
      assert steps[0] in steps;
      HeldShrinks(c, w.s, steps[0]);
      StaysOut(c, Next(c, w, steps[0]), steps[1..], job);
    }
  }

  /** The running handler is past its cap and neither abandoned nor done. */
  predicate PastCap(c: Config, s: State, step: Step) {
    step.Abandon? && s.running.Some? && !s.running.value.abandoned && !s.running.value.finalizing
    && step.at >= s.running.value.started + c.maxRuntime
  }

  predicate IsRunning(s: State, job: Job) {
    s.running.Some? && s.running.value.job == job
  }

  /** Within a batch a held job stops being held exactly when it is finished, dropped, released while it waits, given
      away by the database, abandoned or released with an abandoned one, or when the batch is cleared. */
  lemma {:induction false} LeavesIff(c: Config, s: State, step: Step, job: Job)
    requires job in s.held && !step.Hold?
    ensures job !in Apply(c, s, step).held <==>
            || step == Finish(job, step.at) || step == Drop(job, step.at) || step.Clear?
            || (step.ReleaseWaiting? && !IsRunning(s, job))
            || PastCap(c, s, step)
            || (step.Renew? && step.answer.Renewed? && job !in step.answer.ids)
  {}

  /** What is handed to release: exactly the jobs that wait, under their claimed attempts. */
  lemma {:induction false} HandedIff(c: Config, s: State, step: Step, job: Job)
    ensures job in Handed(c, s, step) <==>
            job in s.held && !IsRunning(s, job) && (step.ReleaseWaiting? || PastCap(c, s, step))
    ensures job in Handed(c, s, step) ==> Handed(c, s, step)[job] == s.held[job]
  {}

  /** Who runs: the job that was begun last, until it is finished or its batch is over, with the marks it was given. */
  lemma {:induction false} RunsUntilFinished(c: Config, s: State, step: Step)
    ensures var t := Apply(c, s, step);
            && (step.Begin? ==> t.running == Some(Running(step.job, step.at, s.events, false, false)) && t.events == s.events + 1)
            && (step.Hold? ==> t.held == step.batch)
            && (!step.Begin? ==>
                  && t.events == s.events
                  && (t.running.Some? <==>
                        s.running.Some? && !step.Hold? && !step.Clear? && step != Finish(s.running.value.job, step.at))
                  && (t.running.Some? ==>
                        && t.running.value.job == s.running.value.job && t.running.value.started == s.running.value.started
                        && t.running.value.event == s.running.value.event
                        && (t.running.value.finalizing <==>
                              s.running.value.finalizing || step == Finalize(s.running.value.job, step.at))
                        && (t.running.value.abandoned <==> s.running.value.abandoned || PastCap(c, s, step))))
  {}

  /** When the last proof of life moves: at a claim, and at a renewal that the database answered for some held job. */
  lemma {:induction false} LastRenewedMoves(c: Config, s: State, step: Step)
    ensures Apply(c, s, step).lastRenewed ==
            if step.Hold? || (step.Renew? && step.answer.Renewed? && s.held != map[]) then step.at else s.lastRenewed
  {}

  /** A job that has left, in whatever way, is gone for good: until the next claim it is not held, no renewal gets it
      and no release hands it out. */
  lemma {:induction false} GoneForGood(c: Config, w: World, leave: Step, steps: seq<Step>, last: Step, job: Job)
    requires Possible(w, leave) && !leave.Hold?
    requires || leave == Finish(job, leave.at) || leave == Drop(job, leave.at) || leave.Clear? || PastCap(c, w.s, leave)
             || (leave.ReleaseWaiting? && !IsRunning(w.s, job))
             || (leave.Renew? && leave.answer.Renewed? && w.s.held != map[] && job !in leave.answer.ids)
    requires Runnable(c, Next(c, w, leave), steps) && (forall step :: step in steps ==> !step.Hold?)
    requires Possible(Run(c, Next(c, w, leave), steps), last) && !last.Hold?
    ensures var s := Run(c, Next(c, w, leave), steps).s;
            && job !in s.held && job !in Handed(c, s, last)
            && (last.Renew? && last.answer.Renewed? ==> job !in last.answer.ids)
  {
    if job in w.s.held {
      LeavesIff(c, w.s, leave, job);
    } else {
      HeldShrinks(c, w.s, leave);
    }
    StaysOut(c, Next(c, w, leave), steps, job);
    HandedIff(c, Run(c, Next(c, w, leave), steps).s, last, job);
  }

  /** An abandoned job is signalled, and no later renewal of its batch asks for it or gets it. */
  lemma {:induction false} AbandonedNeverRenewed(c: Config, w: World, at: real, steps: seq<Step>, answer: Answer, called: real, end: real)
    requires Possible(w, Abandon(at)) && Overdue(c, w.s, at)
    requires Runnable(c, Next(c, w, Abandon(at)), steps) && forall step :: step in steps ==> !step.Hold?
    requires Possible(Run(c, Next(c, w, Abandon(at)), steps), Renew(answer, called, end))
    ensures w.s.running.value.event in Next(c, w, Abandon(at)).s.signalled
    ensures w.s.running.value.job !in Run(c, Next(c, w, Abandon(at)), steps).s.held
    ensures answer.Renewed? ==> w.s.running.value.job !in answer.ids
  {
    var job := w.s.running.value.job;
    assert job !in Next(c, w, Abandon(at)).s.held;
    StaysOut(c, Next(c, w, Abandon(at)), steps, job);
  }
}
