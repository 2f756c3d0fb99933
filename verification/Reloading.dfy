/** A backend that follows settings edited at runtime, under concurrent calls. */
module Reloading {
  import opened Wrappers

  const RetrySeconds := 30.0

  /** What building produced; `retryAt` is set only for a failure that may pass. */
  datatype Outcome<S, B> = Outcome(settings: S, backend: Option<B>, rejection: Option<string>, retryAt: Option<real>)

  /** How a build can end: a backend, a failure to retry, unusable settings, or any other exception by its type name. */
  datatype Build<B> = Built(backend: B) | Unverified(reason: string) | Unusable(reason: string) | Broke(typeName: string)

  function OutcomeOf<S, B>(settings: S, build: Build<B>, clock: real): Outcome<S, B> {
    match build
    case Built(backend) => Outcome(settings, Some(backend), None, None)
    case Unverified(reason) => Outcome(settings, None, Some(reason), Some(clock + RetrySeconds))
    case Unusable(reason) => Outcome(settings, None, Some(reason), None)
    case Broke(typeName) => Outcome(settings, None, Some(typeName), None)
  }

  predicate RetryDue<S, B>(o: Outcome<S, B>, clock: real) {
    o.retryAt.Some? && clock >= o.retryAt.value
  }

  /** The fields the lock guards. */
  datatype State<S, B> = State(current: Option<Outcome<S, B>>, failing: bool, taken: nat, applied: int)

  predicate Overtaken<S, B>(s: State<S, B>, read: nat) {
    s.current.Some? && read < s.applied
  }

  predicate NeedsBuild<S(==), B>(s: State<S, B>, found: S, clock: real) {
    s.current.None? || s.current.value.settings != found || RetryDue(s.current.value, clock)
  }

  function Applied<S(==), B>(s: State<S, B>, read: nat, found: S, clock: real, build: Build<B>, builtAt: real): State<S, B> {
    if Overtaken(s, read) then s.(failing := false)
    else s.(failing := false, applied := read,
            current := if NeedsBuild(s, found, clock) then Some(OutcomeOf(found, build, builtAt)) else s.current)
  }

  datatype Result<S, B> = Returned(outcome: Outcome<S, B>) | Unavailable

  function Fallback<S, B>(s: State<S, B>): Result<S, B> {
    if s.current.Some? && s.current.value.backend.Some? then Returned(s.current.value) else Unavailable
  }

  // ---- The object, one method per atomic section of `resolve` ----

  class ReloadingBackend<S(==), B> {
    var current: Option<Outcome<S, B>>
    var failing: bool
    var taken: nat
    var applied: int

    function View(): State<S, B>
      reads this
    {
      State(current, failing, taken, applied)
    }

    constructor ()
      ensures View() == State(None, false, 0, -1)
    {
      current, failing, taken, applied := None, false, 0, -1;
    }

    /** Numbers a read in the order it begins. */
    method TakeNumber() returns (read: nat)
      modifies this
      ensures read == old(taken) && View() == old(View()).(taken := old(taken) + 1)
    {
      read := taken;
      taken := taken + 1;
    }

    method NoteSourceFailure() returns (quiet: bool)
      modifies this
      ensures quiet == old(failing) && View() == old(View()).(failing := true)
    {
      quiet := failing;
      failing := true;
    }

    /** The source raised: only a backend that is the last outcome may stand in. */
    method FallBack() returns (r: Result<S, B>)
      ensures r == Fallback(View())
    {
      if current.Some? && current.value.backend.Some? {
        return Returned(current.value);
      }
      return Unavailable;
    }

    /** The source returned `found`. `clock` is read for the retry and `builtAt` after a build that gave `build`. */
    method ApplyRead(read: nat, found: S, clock: real, build: Build<B>, builtAt: real) returns (o: Outcome<S, B>)
      modifies this
      ensures View() == Applied(old(View()), read, found, clock, build, builtAt)
      ensures current == Some(o)
    {
      failing := false;
      if current.Some? && read < applied {
        return current.value;
      }
      applied := read;
      if current.None? || current.value.settings != found || RetryDue(current.value, clock) {
        current := Some(OutcomeOf(found, build, builtAt));
      }
      o := current.value;
    }
  }

  // ---- Every interleaving of calls ----

  /** A call is known by its read number. `floor` is the read the current outcome was for when the call began. A call
      that is `Done` returned the outcome for read `read`, after `built` builds; one that `Died` was interrupted while
      it built, by something that is no ordinary exception. */
  datatype Phase<S, B> =
    | Reading
    | Fetched(settings: S)
    | Raised
    | Noted
    | Died
    | Done(result: Result<S, B>, read: int, ok: bool, built: nat)
  datatype Call<S, B> = Call(floor: int, phase: Phase<S, B>)

  /** A build with its settings and the time it ended. */
  datatype Made<S, B> = Made(settings: S, build: Build<B>, at: real)

  /** `fetched` records what each read returned, `builds` every build, and `confirmed` the newest read that the current
      outcome is for. */
  datatype World<S, B> = World(s: State<S, B>, clock: real, calls: seq<Call<S, B>>, fetched: map<nat, S>,
                               builds: seq<Made<S, B>>, confirmed: int)

  datatype Step<S, B> =
    | Take
    | SourceReturns(call: nat, settings: S)
    | SourceRaises(call: nat)
    | NoteFailure(call: nat)
    | ReturnFallback(call: nat)
    | Apply(call: nat, clock: real, build: Build<B>, builtAt: real)
    | Interrupt(call: nat, clock: real)

  function Start<S, B>(clock: real): World<S, B> {
    World(State(None, false, 0, -1), clock, [], map[], [], -1)
  }

  predicate Possible<S(==), B(==)>(w: World<S, B>, step: Step<S, B>) {
    match step
    case Take => true
    case SourceReturns(n, _) => n < |w.calls| && w.calls[n].phase == Reading
    case SourceRaises(n) => n < |w.calls| && w.calls[n].phase == Reading
    case NoteFailure(n) => n < |w.calls| && w.calls[n].phase == Raised
    case ReturnFallback(n) => n < |w.calls| && w.calls[n].phase == Noted
    case Apply(n, clock, _, builtAt) => n < |w.calls| && w.calls[n].phase.Fetched? && w.clock <= clock <= builtAt
    case Interrupt(n, clock) =>
      && n < |w.calls| && w.calls[n].phase.Fetched? && w.clock <= clock
      && !Overtaken(w.s, n) && NeedsBuild(w.s, w.calls[n].phase.settings, clock)
  }

  function MadeOutcome<S, B>(m: Made<S, B>): Outcome<S, B> {
    OutcomeOf(m.settings, m.build, m.at)
  }

  function Become<S, B>(w: World<S, B>, n: nat, phase: Phase<S, B>): World<S, B>
    requires n < |w.calls|
  {
    w.(calls := w.calls[n := w.calls[n].(phase := phase)])
  }

  function Next<S(==), B(==)>(w: World<S, B>, step: Step<S, B>): World<S, B>
    requires Possible(w, step)
  {
    match step
    case Take => w.(s := w.s.(taken := w.s.taken + 1), calls := w.calls + [Call(w.confirmed, Reading)])
    case SourceReturns(n, settings) => Become(w.(fetched := w.fetched[n := settings]), n, Fetched(settings))
    case SourceRaises(n) => Become(w, n, Raised)
    case NoteFailure(n) => Become(w.(s := w.s.(failing := true)), n, Noted)
    case ReturnFallback(n) => Become(w, n, Done(Fallback(w.s), w.confirmed, false, |w.builds|))
    case Apply(n, clock, build, builtAt) =>
      var found := w.calls[n].phase.settings;
      var t := Applied(w.s, n, found, clock, build, builtAt);
      var builds := if !Overtaken(w.s, n) && NeedsBuild(w.s, found, clock) then w.builds + [Made(found, build, builtAt)] else w.builds;
      var confirmed := if Overtaken(w.s, n) then w.confirmed else n;
      Become(w.(s := t, clock := builtAt, builds := builds, confirmed := confirmed), n,
             Done(if t.current.Some? then Returned(t.current.value) else Unavailable, confirmed, true, |builds|))
    case Interrupt(n, clock) =>
      Become(w.(s := w.s.(failing := false, applied := n), clock := clock), n, Died)
  }

  // ---- The invariant ----

  /** The current outcome is the last build's, for the settings of the newest read that was applied to the end; only an
      interrupted one can have been applied after it. */
  ghost predicate CurrentOk<S, B>(w: World<S, B>) {
    && w.s.taken == |w.calls| && -1 <= w.s.applied < |w.calls| && -1 <= w.confirmed < |w.calls|
    && (w.s.current.Some? <==> w.confirmed >= 0) && (w.s.current.None? <==> w.builds == [])
    && (w.s.current.Some? ==>
          && w.confirmed in w.fetched && w.s.current.value.settings == w.fetched[w.confirmed]
          && w.s.current.value == MadeOutcome(w.builds[|w.builds| - 1])
          && w.confirmed <= w.s.applied && (w.confirmed < w.s.applied ==> w.calls[w.s.applied].phase == Died))
  }

  /** What a call that returned after `built` builds had to return. */
  function Owed<S, B>(builds: seq<Made<S, B>>, built: nat, ok: bool): Result<S, B>
    requires built <= |builds|
  {
    if built == 0 then Unavailable
    else
      var o := MadeOutcome(builds[built - 1]);
      if ok || o.backend.Some? then Returned(o) else Unavailable
  }

  predicate DiedAfter<S, B(==)>(w: World<S, B>, n: int) {
    exists m :: 0 <= m < |w.calls| && n < m && w.calls[m].phase.Died?
  }

  ghost predicate DoneOk<S, B>(w: World<S, B>, n: nat, floor: int, phase: Phase<S, B>)
    requires phase.Done?
  {
    && floor <= phase.read <= w.confirmed && phase.built <= |w.builds|
    && phase.result == Owed(w.builds, phase.built, phase.ok)
    && (phase.ok ==> phase.built > 0 && (n <= phase.read || DiedAfter(w, n)))
    && (phase.built > 0 ==> phase.read in w.fetched && w.builds[phase.built - 1].settings == w.fetched[phase.read])
  }

  ghost predicate CallOk<S, B>(w: World<S, B>, n: nat)
    requires n < |w.calls|
  {
    var c := w.calls[n];
    && c.floor <= w.confirmed && c.floor < n
    && (c.phase.Fetched? ==> n in w.fetched && w.fetched[n] == c.phase.settings)
    && (n in w.fetched <==> c.phase.Fetched? || c.phase.Died? || (c.phase.Done? && c.phase.ok))
    && (c.phase.Done? ==> DoneOk(w, n, c.floor, c.phase))
  }

  ghost predicate Inv<S, B>(w: World<S, B>) {
    CurrentOk(w) && (forall n :: n in w.fetched ==> n < |w.calls|) && forall n :: 0 <= n < |w.calls| ==> CallOk(w, n)
  }

  /** What no step takes back. */
  ghost predicate Grows<S, B>(w: World<S, B>, v: World<S, B>) {
    && w.confirmed <= v.confirmed && w.builds <= v.builds && |w.calls| <= |v.calls|
    && (forall n :: n in w.fetched ==> n in v.fetched && v.fetched[n] == w.fetched[n])
    && (forall m :: 0 <= m < |w.calls| && w.calls[m].phase.Died? ==> v.calls[m].phase.Died?)
  }

  lemma {:induction false} StepGrows<S, B>(w: World<S, B>, step: Step<S, B>)
    requires Inv(w) && Possible(w, step)
    ensures Grows(w, Next(w, step))
  {
    if !step.Take? {
      assert CallOk(w, step.call);
    }
  }

  lemma {:induction false} StepKeepsCurrent<S, B>(w: World<S, B>, step: Step<S, B>)
    requires Inv(w) && Possible(w, step)
    ensures CurrentOk(Next(w, step))
  {
    if !step.Take? {
      assert CallOk(w, step.call);
    }
  }

  lemma {:induction false} OthersKept<S, B>(w: World<S, B>, step: Step<S, B>, n: nat)
    requires Inv(w) && Possible(w, step) && n < |w.calls| && (step.Take? || step.call != n)
    ensures n < |Next(w, step).calls| && CallOk(Next(w, step), n)
  {
    var v := Next(w, step);
    StepGrows(w, step);
    assert CallOk(w, n) && v.calls[n] == w.calls[n];
    if w.calls[n].phase.Done? {
      DoneKept(w, v, n, w.calls[n].floor, w.calls[n].phase);
    }
    assert n in v.fetched <==> n in w.fetched;
  }

  lemma {:induction false} DoneKept<S, B>(w: World<S, B>, v: World<S, B>, n: nat, floor: int, phase: Phase<S, B>)
    requires Grows(w, v) && phase.Done? && DoneOk(w, n, floor, phase)
    ensures DoneOk(v, n, floor, phase)
  {
    assert phase.built > 0 ==> v.builds[phase.built - 1] == w.builds[phase.built - 1];
    if DiedAfter(w, n) {
      var m :| 0 <= m < |w.calls| && n < m && w.calls[m].phase.Died?;
      assert v.calls[m].phase.Died?;
    }
  }

  lemma {:induction false} OwnKept<S, B>(w: World<S, B>, step: Step<S, B>)
    requires Inv(w) && Possible(w, step) && !step.Take?
    ensures CallOk(Next(w, step), step.call)
  {
    var v := Next(w, step);
    assert CallOk(w, step.call);
    StepKeepsCurrent(w, step);
    if step.Apply? && Overtaken(w.s, step.call) && w.confirmed < step.call {
      assert w.calls[w.s.applied].phase.Died? && v.calls[w.s.applied] == w.calls[w.s.applied];
      assert DiedAfter(v, step.call);
    }
  }

  lemma {:induction false} StepKeeps<S, B>(w: World<S, B>, step: Step<S, B>)
    requires Inv(w) && Possible(w, step)
    ensures Inv(Next(w, step))
  {
    StepKeepsCurrent(w, step);
    var v := Next(w, step);
    forall n | 0 <= n < |v.calls|
      ensures CallOk(v, n)
    {
      if n == |w.calls| {
        assert CallOk(v, n);
      } else if step.Take? || step.call != n {
        OthersKept(w, step, n);
      } else {
        OwnKept(w, step);
      }
    }
  }

  // ---- Runs ----

  ghost predicate Runnable<S, B>(w: World<S, B>, steps: seq<Step<S, B>>)
    decreases |steps|
  {
    steps == [] || (Possible(w, steps[0]) && Runnable(Next(w, steps[0]), steps[1..]))
  }

  ghost function Run<S, B>(w: World<S, B>, steps: seq<Step<S, B>>): World<S, B>
    requires Runnable(w, steps)
    decreases |steps|
  {
    if steps == [] then w else Run(Next(w, steps[0]), steps[1..])
  }

  lemma {:induction false} RunKeeps<S, B>(w: World<S, B>, steps: seq<Step<S, B>>)
    requires Inv(w) && Runnable(w, steps)
    ensures Inv(Run(w, steps))
    decreases |steps|
  {
    if steps != [] {
      StepKeeps(w, steps[0]);
      RunKeeps(Next(w, steps[0]), steps[1..]);
    }
  }

  /** Newest read wins. After any interleaving the current outcome is the last build's, made for the settings of the
      newest read applied to the end; no call whose source answered brought a newer one home, unless a still newer one
      was interrupted; and without interruptions the newest read applied is that read. */
  lemma {:induction false} NewestReadWins<S, B>(clock: real, steps: seq<Step<S, B>>)
    requires Runnable(Start(clock), steps)
    ensures var w := Run(Start(clock), steps);
            && CurrentOk(w)
            && (forall n :: 0 <= n < |w.calls| && w.calls[n].phase.Done? && w.calls[n].phase.ok ==>
                  n <= w.confirmed || DiedAfter(w, n))
            && (!DiedAfter(w, -1) && w.s.current.Some? ==> w.confirmed == w.s.applied)
  {
    RunKeeps(Start(clock), steps);
    var w := Run(Start(clock), steps);
    forall n | 0 <= n < |w.calls| && w.calls[n].phase.Done? && w.calls[n].phase.ok
      ensures n <= w.confirmed || DiedAfter(w, n)
    {
      assert CallOk(w, n);
    }
    if w.s.current.Some? && w.confirmed < w.s.applied {
      assert w.calls[w.s.applied].phase.Died?;
    }
  }

  /** Freshness. A call whose source answered returns the outcome of a read that began no earlier than its own, unless
      a later one was interrupted; one whose source raised returns a working backend, no older than what was current
      when it began, or fails. */
  lemma {:induction false} ReturnsAreFresh<S, B>(clock: real, steps: seq<Step<S, B>>, n: nat)
    requires Runnable(Start(clock), steps)
    requires n < |Run(Start(clock), steps).calls| && Run(Start(clock), steps).calls[n].phase.Done?
    ensures var w := Run(Start(clock), steps); var c := w.calls[n];
            && c.floor <= c.phase.read
            && (c.phase.ok ==> c.phase.result.Returned? && (n <= c.phase.read || DiedAfter(w, n)))
            && (c.phase.result.Returned? ==>
                  && 0 <= c.phase.read && c.phase.read in w.fetched
                  && c.phase.result.outcome.settings == w.fetched[c.phase.read]
                  && (!c.phase.ok ==> c.phase.result.outcome.backend.Some?))
  {
    RunKeeps(Start(clock), steps);
    assert CallOk(Run(Start(clock), steps), n);
  }

  /** A rejection is never papered over. Every call of every run returned the outcome of the very last build made before
      it returned, and one whose source raised failed exactly when there was none or it had produced no backend. */
  lemma {:induction false} RejectionsStand<S, B>(clock: real, steps: seq<Step<S, B>>, n: nat)
    requires Runnable(Start(clock), steps)
    requires n < |Run(Start(clock), steps).calls| && Run(Start(clock), steps).calls[n].phase.Done?
    ensures var w := Run(Start(clock), steps); var phase := w.calls[n].phase;
            && phase.built <= |w.builds|
            && (phase.result.Returned? ==> phase.built > 0 && phase.result.outcome == MadeOutcome(w.builds[phase.built - 1]))
            && (phase.result == Unavailable <==>
                  !phase.ok && (phase.built == 0 || MadeOutcome(w.builds[phase.built - 1]).backend.None?))
  {
    RunKeeps(Start(clock), steps);
    assert CallOk(Run(Start(clock), steps), n);
  }

  // ---- What builds mean, and when they are made ----

  /** What the current outcome says of the last build, in every run: a backend and no reason, or a reason and no backend;
      and only a failure that may pass is marked for a retry, thirty seconds after the build ended. */
  lemma {:induction false} OutcomeSaysBuild<S, B>(clock: real, steps: seq<Step<S, B>>)
    requires Runnable(Start(clock), steps) && Run(Start(clock), steps).s.current.Some?
    ensures var w := Run(Start(clock), steps); var o := w.s.current.value;
            && w.builds != []
            && var m := w.builds[|w.builds| - 1];
               && o.settings == m.settings
               && (o.backend.Some? <==> m.build.Built?) && (o.backend.Some? ==> o.backend.value == m.build.backend)
               && (o.rejection.None? <==> m.build.Built?)
               && (o.rejection.Some? ==> o.rejection.value == if m.build.Broke? then m.build.typeName else m.build.reason)
               && (o.retryAt.Some? <==> m.build.Unverified?) && (o.retryAt.Some? ==> o.retryAt.value == m.at + 30.0)
  {
    RunKeeps(Start(clock), steps);
  }

  /** When a read that came home makes a build, exactly, in every run: it is not overtaken, and nothing was built yet, the
      last build was for other settings, or it failed in a way that may pass thirty seconds ago or more. A rejection is
      never built again for the same settings. */
  lemma {:induction false} BuildsExactlyWhenDue<S, B>(clock: real, steps: seq<Step<S, B>>, step: Step<S, B>)
    requires Runnable(Start(clock), steps) && Possible(Run(Start(clock), steps), step) && step.Apply?
    ensures var w := Run(Start(clock), steps); var found := w.calls[step.call].phase.settings;
            var builds := Next(w, step).builds;
            && (builds == w.builds || builds == w.builds + [Made(found, step.build, step.builtAt)])
            && (builds != w.builds <==>
                  || w.builds == []
                  || (&& step.call >= w.s.applied
                      && var m := w.builds[|w.builds| - 1];
                         m.settings != found || (m.build.Unverified? && step.clock >= m.at + 30.0)))
  {
    RunKeeps(Start(clock), steps);
  }

  /** Whether the source was failing: what the last section that took note of it found. */
  function FailingAfter<S, B>(was: bool, steps: seq<Step<S, B>>): bool {
    if steps == [] then was else
      var last := steps[|steps| - 1];
      if last.NoteFailure? then true else if last.Apply? || last.Interrupt? then false
      else FailingAfter(was, steps[..|steps| - 1])
  }

  lemma {:induction false} FailingFront<S, B>(was: bool, step: Step<S, B>, rest: seq<Step<S, B>>)
    ensures FailingAfter(was, [step] + rest) == FailingAfter(FailingAfter(was, [step]), rest)
  {
    var steps := [step] + rest;
    if rest == [] {
      assert steps == [step];
    } else {
      assert steps[|steps| - 1] == rest[|rest| - 1] && steps[..|steps| - 1] == [step] + rest[..|rest| - 1];
      FailingFront(was, step, rest[..|rest| - 1]);
    }
  }

  /** In every run the flag tells whether the source failed when it was last heard of. */
  lemma {:induction false} FailingFlag<S, B>(w: World<S, B>, steps: seq<Step<S, B>>)
    requires Runnable(w, steps)
    ensures Run(w, steps).s.failing == FailingAfter(w.s.failing, steps)
    decreases |steps|
  {
    if steps != [] {
      FailingFlag(Next(w, steps[0]), steps[1..]);
      assert steps == [steps[0]] + steps[1..];
      FailingFront(w.s.failing, steps[0], steps[1..]);
      assert [steps[0]][..0] == [];
    }
  }

  // ---- An interrupted build ----

  lemma {:induction false} Prepend<S, B>(w: World<S, B>, step: Step<S, B>, rest: seq<Step<S, B>>)
    requires Possible(w, step) && Runnable(Next(w, step), rest)
    ensures Runnable(w, [step] + rest) && Run(w, [step] + rest) == Run(Next(w, step), rest)
  {
    assert ([step] + rest)[1..] == rest;
  }

  /** One backend is in use for settings "a"; two more calls have read "b" and "c". */
  function ThreeReads(): World<string, string> {
    var o := Outcome("a", Some("A"), None, None);
    World(State(Some(o), false, 3, 0), 0.0,
          [Call(-1, Done(Returned(o), 0, true, 1)), Call(0, Fetched("b")), Call(0, Fetched("c"))],
          map[0 := "a", 1 := "b", 2 := "c"], [Made("a", Built("A"), 0.0)], 0)
  }

  /** The first call done, nothing else begun. */
  function OneRead(): World<string, string> {
    var o := Outcome("a", Some("A"), None, None);
    World(State(Some(o), false, 1, 0), 0.0, [Call(-1, Done(Returned(o), 0, true, 1))], map[0 := "a"],
          [Made("a", Built("A"), 0.0)], 0)
  }

  lemma {:induction false} OneReadReached(rest: seq<Step<string, string>>)
    requires Runnable(OneRead(), rest)
    ensures var steps: seq<Step<string, string>> := [Take, SourceReturns(0, "a"), Apply(0, 0.0, Built("A"), 0.0)] + rest;
            Runnable(Start(0.0), steps) && Run(Start(0.0), steps) == Run(OneRead(), rest)
  {
    var none: Option<Outcome<string, string>> := None;
    var w1: World<string, string> := World(State(none, false, 1, -1), 0.0, [Call(-1, Reading)], map[], [], -1);
    var w2: World<string, string> := World(State(none, false, 1, -1), 0.0, [Call(-1, Fetched("a"))], map[0 := "a"], [], -1);
    var r2: seq<Step<string, string>> := [Apply(0, 0.0, Built("A"), 0.0)] + rest;
    var r1: seq<Step<string, string>> := [SourceReturns(0, "a")] + r2;
    assert Next(w2, Apply(0, 0.0, Built("A"), 0.0)) == OneRead();
    Prepend(w2, Apply(0, 0.0, Built("A"), 0.0), rest);
    assert Next(w1, SourceReturns(0, "a")) == w2;
    Prepend(w1, SourceReturns(0, "a"), r2);
    assert Next(Start(0.0), Take) == w1;
    Prepend(Start(0.0), Take, r1);
    var steps: seq<Step<string, string>> := [Take, SourceReturns(0, "a"), Apply(0, 0.0, Built("A"), 0.0)] + rest;
    assert [Take] + r1 == steps;
  }

  lemma {:induction false} ThreeReadsReached(rest: seq<Step<string, string>>)
    requires Runnable(ThreeReads(), rest)
    ensures var steps: seq<Step<string, string>> := [Take, Take, SourceReturns(1, "b"), SourceReturns(2, "c")] + rest;
            Runnable(OneRead(), steps) && Run(OneRead(), steps) == Run(ThreeReads(), rest)
  {
    var w3 := OneRead();
    var w4 := Next(w3, Take);
    var w5 := Next(w4, Take);
    var w6 := Next(w5, SourceReturns(1, "b"));
    var r6: seq<Step<string, string>> := [SourceReturns(2, "c")] + rest;
    var r5: seq<Step<string, string>> := [SourceReturns(1, "b")] + r6;
    var r4: seq<Step<string, string>> := [Take] + r5;
    assert w6.calls == ThreeReads().calls[2 := Call(0, Reading)];
    assert w6.fetched[2 := "c"] == ThreeReads().fetched;
    assert Next(w6, SourceReturns(2, "c")) == ThreeReads();
    Prepend(w6, SourceReturns(2, "c"), rest);
    Prepend(w5, SourceReturns(1, "b"), r6);
    Prepend(w4, Take, r5);
    Prepend(w3, Take, r4);
    var steps: seq<Step<string, string>> := [Take, Take, SourceReturns(1, "b"), SourceReturns(2, "c")] + rest;
    assert [Take] + r4 == steps;
  }

  /** If the build for the newest settings is interrupted, a call that brings home newer settings than those in use is
      answered with the old backend. */
  lemma {:induction false} InterruptedBuildHidesRead() returns (steps: seq<Step<string, string>>)
    ensures Runnable(Start(0.0), steps)
    ensures var calls := Run(Start(0.0), steps).calls;
            && |calls| == 3 && calls[1].phase.Done? && calls[1].phase.ok && calls[1].phase.read == 0
            && calls[1].phase.result == Returned(Outcome("a", Some("A"), None, None)) && calls[2].phase.Died?
  {
    var w0 := ThreeReads();
    var interrupt: Step<string, string> := Interrupt(2, 0.0);
    var apply: Step<string, string> := Apply(1, 0.0, Built("B"), 0.0);
    var w1 := Next(w0, interrupt);
    assert w1.calls[1] == w0.calls[1] && Overtaken(w1.s, 1);
    var w2 := Next(w1, apply);
    assert w2.calls[1].phase == Done(Returned(Outcome("a", Some("A"), None, None)), 0, true, 1);
    Prepend(w1, apply, []);
    Prepend(w0, interrupt, [apply] + []);
    var rest := [interrupt] + ([apply] + []);
    ThreeReadsReached(rest);
    var later: seq<Step<string, string>> := [Take, Take, SourceReturns(1, "b"), SourceReturns(2, "c")] + rest;
    OneReadReached(later);
    steps := [Take, SourceReturns(0, "a"), Apply(0, 0.0, Built("A"), 0.0)] + later;
  }

  // ---- One build per change ----

  /** A section that can leave an outcome alone: it brings the same settings, before any retry is due. */
  predicate SameSettings<S(==), B>(o: Outcome<S, B>, step: Step<S, B>) {
    && (step.SourceReturns? ==> step.settings == o.settings)
    && (step.Apply? || step.Interrupt? ==> !RetryDue(o, step.clock))
  }

  /** While every pending and new read returns the settings of the current outcome and no retry falls due, the
      outcome stays and nothing is built: a rejection is logged once per change. */
  lemma {:induction false} BuiltOncePerChange<S, B>(w: World<S, B>, o: Outcome<S, B>, steps: seq<Step<S, B>>)
    requires Runnable(w, steps) && w.s.current == Some(o)
    requires forall c :: c in w.calls && c.phase.Fetched? ==> c.phase.settings == o.settings
    requires forall step :: step in steps ==> SameSettings(o, step)
    ensures Run(w, steps).s.current == Some(o) && Run(w, steps).builds == w.builds
    decreases |steps|
  {
    if steps != [] {
      var step := steps[0];
      assert step in steps;
      var v := Next(w, step);
      assert step.Apply? ==> w.calls[step.call] in w.calls;
      forall c | c in v.calls && c.phase.Fetched?
        ensures c.phase.settings == o.settings
      {
        var i :| 0 <= i < |v.calls| && v.calls[i] == c;
        assert i < |w.calls| && (step.Take? || i != step.call) ==> v.calls[i] == w.calls[i] && w.calls[i] in w.calls;
      }
      BuiltOncePerChange(v, o, steps[1..]);
    }
  }
}
