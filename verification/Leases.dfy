/** The leases one worker holds: every lock section of the keeper, as the object and as a step on its state. */
module Leases {
  import opened Wrappers

  type Job = string

  /** The job whose handler is executing; `event` names the lost signal handed to that handler. */
  datatype Running = Running(job: Job, started: real, event: nat, abandoned: bool, finalizing: bool)

  /** `signalled` are the lost signals that have been set; `events` counts the signals made so far. */
  datatype State = State(held: map<Job, nat>, running: Option<Running>, lastRenewed: real,
                         signalled: set<nat>, events: nat)

  datatype Config = Config(lease: real, interval: real, maxRuntime: real)

  /** What the settings demand: a lease spans at least three heartbeats and no more than the runtime cap. */
  predicate ValidConfig(c: Config) {
    c.interval > 0.0 && c.lease >= 3.0 * c.interval && c.maxRuntime >= c.lease
  }

  /** The database's answer to a renewal: the ids still owned, or an exception. */
  datatype Answer = Renewed(ids: set<Job>) | Failed

  // ---- The lock sections as functions ----

  function Held(s: State, batch: map<Job, nat>, at: real): State {
    s.(held := batch, running := None, lastRenewed := at)
  }

  function Begun(s: State, job: Job, at: real): State {
    s.(running := Some(Running(job, at, s.events, false, false)), events := s.events + 1)
  }

  predicate Runs(s: State, job: Job) {
    s.running.Some? && s.running.value.job == job
  }

  function Finalized(s: State, job: Job): State {
    if Runs(s, job) then s.(running := Some(s.running.value.(finalizing := true))) else s
  }

  function Finished(s: State, job: Job): State {
    s.(running := if Runs(s, job) then None else s.running, held := s.held - {job})
  }

  function Dropped(s: State, job: Job): State {
    s.(held := s.held - {job})
  }

  function Cleared(s: State): State {
    s.(held := map[], running := None)
  }

  /** The held jobs that have not started. */
  function Waiting(s: State): map<Job, nat> {
    map j | j in s.held && !Runs(s, j) :: s.held[j]
  }

  function WaitingTaken(s: State): State {
    s.(held := s.held - Waiting(s).Keys)
  }

  predicate Overdue(c: Config, s: State, at: real) {
    s.running.Some? && !s.running.value.abandoned && !s.running.value.finalizing && at - s.running.value.started >= c.maxRuntime
  }

  function Abandoned(c: Config, s: State, at: real): State {
    if !Overdue(c, s, at) then s else
      var r := s.running.value;
      WaitingTaken(s.(running := Some(r.(abandoned := true)), signalled := s.signalled + {r.event}, held := s.held - {r.job}))
  }

  predicate Silent(c: Config, s: State, at: real) {
    && s.running.Some? && !s.running.value.finalizing && s.running.value.event !in s.signalled
    && at - s.lastRenewed >= c.lease - c.interval
  }

  function Fenced(c: Config, s: State, at: real): State {
    if Silent(c, s, at) then s.(signalled := s.signalled + {s.running.value.event}) else s
  }

  /** The signal due when the running job, its handler not yet done, is among those `gone`. */
  function SignalFor(running: Option<Running>, gone: set<Job>): set<nat> {
    if running.Some? && !running.value.finalizing && running.value.job in gone then {running.value.event} else {}
  }

  function RenewedTo(c: Config, s: State, answer: Answer, at: real): State {
    if s.held == map[] then s
    else if answer.Failed? then Fenced(c, s, at)
    else
      var gone := s.held.Keys - answer.ids;
      s.(held := s.held - gone, lastRenewed := at, signalled := s.signalled + SignalFor(s.running, gone))
  }

  // ---- The object ----

  class LeaseKeeper {
    const config: Config
    var held: map<Job, nat>
    var running: Option<Running>
    var lastRenewed: real
    var signalled: set<nat>
    var events: nat

    function View(): State
      reads this
    {
      State(held, running, lastRenewed, signalled, events)
    }

    constructor (config: Config, at: real)
      ensures this.config == config && View() == State(map[], None, at, {}, 0)
    {
      this.config := config;
      held, running, lastRenewed, signalled, events := map[], None, at, {}, 0;
    }

    method Hold(batch: map<Job, nat>, at: real)
      modifies this
      ensures View() == Held(old(View()), batch, at)
    {
      held, running, lastRenewed := batch, None, at;
    }

    method Begin(job: Job, at: real) returns (lost: nat)
      modifies this
      ensures View() == Begun(old(View()), job, at) && lost == old(events)
    {
      lost := events;
      events := events + 1;
      running := Some(Running(job, at, lost, false, false));
    }

    method Finalize(job: Job)
      modifies this
      ensures View() == Finalized(old(View()), job)
    {
      if running.Some? && running.value.job == job {
        running := Some(running.value.(finalizing := true));
      }
    }

    method Finish(job: Job)
      modifies this
      ensures View() == Finished(old(View()), job)
    {
      if running.Some? && running.value.job == job {
        running := None;
      }
      held := held - {job};
    }

    method Drop(job: Job)
      modifies this
      ensures View() == Dropped(old(View()), job)
    {
      held := held - {job};
    }

    method Clear()
      modifies this
      ensures View() == Cleared(old(View()))
    {
      held, running := map[], None;
    }

    /** Pops the waiting jobs one by one. */
    method TakeWaiting() returns (waiting: map<Job, nat>)
      modifies this
      ensures View() == WaitingTaken(old(View())) && waiting == Waiting(old(View()))
    {
      waiting := map j | j in held && !(running.Some? && running.value.job == j) :: held[j];
      var todo := waiting.Keys;
      while todo != {}
        invariant todo <= waiting.Keys && waiting == Waiting(old(View()))
        invariant View() == old(View()).(held := old(held) - (waiting.Keys - todo))
        decreases |todo|
      {
        var job :| job in todo;
        PopOne(old(held), waiting.Keys, todo, job);
        held, todo := held - {job}, todo - {job};
      }
      assert waiting.Keys - todo == waiting.Keys;
    }

    /** The section that abandons an overdue handler, and what it must record and release afterwards. */
    method AbandonIfOverdue(at: real) returns (attempt: Option<nat>, waiting: map<Job, nat>)
      modifies this
      ensures View() == Abandoned(config, old(View()), at)
      ensures Overdue(config, old(View()), at) ==>
                && waiting == Waiting(old(View()))
                && attempt == (var j := old(running).value.job; if j in old(held) then Some(old(held)[j]) else None)
      ensures !Overdue(config, old(View()), at) ==> attempt == None && waiting == map[]
    {
      if running.None? || running.value.abandoned || running.value.finalizing || at - running.value.started < config.maxRuntime {
        return None, map[];
      }
      var r := running.value;
      running := Some(r.(abandoned := true));
      signalled := signalled + {r.event};
      attempt := if r.job in held then Some(held[r.job]) else None;
      held := held - {r.job};
      waiting := TakeWaiting();
    }

    /** The section that renews: the database is asked about every held job and answers `answer`. */
    method RenewSection(answer: Answer, at: real) returns (renewed: set<Job>)
      requires answer.Renewed? ==> answer.ids <= held.Keys
      modifies this
      ensures View() == RenewedTo(config, old(View()), answer, at)
      ensures renewed == if old(held) != map[] && answer.Renewed? then answer.ids else {}
    {
      if held == map[] {
        return {};
      }
      if answer.Failed? {
        if !(running.None? || running.value.finalizing || running.value.event in signalled
             || at - lastRenewed < config.lease - config.interval) {
          signalled := signalled + {running.value.event};
        }
        return {};
      }
      lastRenewed := at;
      PopUnrenewed(held.Keys - answer.ids);
      return answer.ids;
    }

    /** Forgets the held jobs the database no longer gives this worker, and signals the running one among them. */
    method PopUnrenewed(gone: set<Job>)
      modifies this
      ensures View() == old(View()).(
                          held := old(held) - gone,
                          signalled := old(signalled) + SignalFor(old(running), gone))
    {
      var todo := gone;
      while todo != {}
        invariant todo <= gone
        invariant View() == old(View()).(
                              held := old(held) - (gone - todo),
                              signalled := old(signalled) + SignalFor(old(running), gone - todo))
        decreases |todo|
      {
        var job :| job in todo;
        PopOne(old(held), gone, todo, job);
        held, todo := held - {job}, todo - {job};
        if running.Some? && job == running.value.job && !running.value.finalizing {
          signalled := signalled + {running.value.event};
        }
      }
      assert gone - todo == gone;
    }
  }

  lemma PopOne(held: map<Job, nat>, gone: set<Job>, todo: set<Job>, job: Job)
    requires job in todo && todo <= gone
    ensures held - (gone - todo) - {job} == held - (gone - (todo - {job}))
    ensures gone - (todo - {job}) == gone - todo + {job}
  {
    assert gone - (todo - {job}) == gone - todo + {job};
  }
}
