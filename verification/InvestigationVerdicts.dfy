/** With which status a finished investigation is stored: what the worker met on its way, over whole runs. */
module InvestigationVerdicts {
  import opened Prelude
  import opened InvestigationQueue

  /** The event of the job is set. */
  predicate Signalled(x: System, id: Id) {
    id in x.s.events && x.s.events[id]
  }

  /** What the worker met in x to be at w afterwards. It takes a stored job; it ends with `Cancelled` when the event is
      set, with `Completed` when nothing external is asked for, and otherwise with the runner's answer; and what it
      stores is `Cancelled` again when the event is set by then. */
  ghost predicate Leads(x: System, luck: Luck, w: Worker) {
    match w
    case Taken(id) => x.worker == Holding(id) && id in x.s.jobs && !luck.fails
    case Invoking(id) => x.worker == Taken(id) && id in x.s.jobs && !luck.fails && !Signalled(x, id) && luck.external
    case Ending(id, status) =>
      || (x.worker == Taken(id) && id in x.s.jobs && !luck.fails
          && if Signalled(x, id) then status == Cancelled else !luck.external && status == Completed)
      || (x.worker == Invoking(id) && !luck.fails && status == luck.status)
    case Storing(id, status) =>
      x.worker.Ending? && x.worker.id == id && status == if Signalled(x, id) then Cancelled else x.worker.status
    case _ => false
  }

  /** The state after the first k steps. */
  ghost function After(steps: seq<Step>, k: nat): System
    requires k <= |steps|
  {
    Run(steps[..k])
  }

  lemma AfterPrefix(steps: seq<Step>, n: nat, k: nat)
    requires k <= n <= |steps|
    ensures After(steps[..n], k) == After(steps, k)
  {
    assert steps[..n][..k] == steps[..k];
  }

  /** The m-th step led the worker to w, where it has stayed until the n-th. */
  ghost predicate Arrived(steps: seq<Step>, m: nat, n: nat, w: Worker) {
    && m < n <= |steps| && steps[m].Work? && Leads(After(steps, m), steps[m].luck, w)
    && forall k :: m < k <= n ==> After(steps, k).worker == w
  }

  lemma WorkLeads(x: System, luck: Luck)
    requires WorkOn(x, luck).worker != x.worker
    ensures var w := WorkOn(x, luck).worker;
            w.Taken? || w.Invoking? || w.Ending? || w.Storing? ==> Leads(x, luck, w)
  {
  }

  lemma OnlyWorkMoves(x: System, step: Step)
    requires !step.Work?
    ensures Next(x, step).worker == x.worker
  {
  }

  /** Wherever the worker is on its way through a job, a step of its own led there. */
  lemma {:induction false} WorkerArrived(steps: seq<Step>)
    ensures var w := Run(steps).worker;
            w.Taken? || w.Invoking? || w.Ending? || w.Storing? ==> exists m: nat :: Arrived(steps, m, |steps|, w)
  {
    hide Leads, WorkOn;
    if steps != [] {
      var n := |steps| - 1;
      var x, w := Run(steps[..n]), Run(steps).worker;
      assert steps[..n + 1] == steps;
      if x.worker == w {
        WorkerArrived(steps[..n]);
        if m: nat :| Arrived(steps[..n], m, n, w) {
          Longer(steps, m, w);
        }
      } else {
        if !steps[n].Work? {
          OnlyWorkMoves(x, steps[n]);
        }
        WorkLeads(x, steps[n].luck);
        if w.Taken? || w.Invoking? || w.Ending? || w.Storing? {
          assert Arrived(steps, n, |steps|, w);
        }
      }
    }
  }

  lemma Longer(steps: seq<Step>, m: nat, w: Worker)
    requires steps != [] && Arrived(steps[..|steps| - 1], m, |steps| - 1, w) && After(steps, |steps|).worker == w
    ensures Arrived(steps, m, |steps|, w)
  {
    hide Leads, After, Run, Next, WorkOn;
    var n := |steps| - 1;
    AfterPrefix(steps, n, m);
    forall k | m < k <= |steps|
      ensures After(steps, k).worker == w
    {
      if k <= n {
        AfterPrefix(steps, n, k);
      }
    }
  }

  /** The d-th step stored this status: `Failed` where the worker met a failure, and otherwise the status it arrived
      with for storing. */
  ghost predicate Decides(steps: seq<Step>, d: nat, id: Id, status: Status) {
    && d < |steps| && steps[d].Work? && After(steps, d).worker in Busy(id)
    && if steps[d].luck.fails then status == Failed
       else exists m: nat :: Arrived(steps[..d], m, d, Storing(id, status))
  }

  /** Where the worker can meet a failure or store a status. */
  ghost function Busy(id: Id): iset<Worker> {
    iset w: Worker | w == Holding(id) || w == Taken(id) || w == Invoking(id) || (w.Storing? && w.id == id)
  }

  ghost predicate StoredAs(x: System, id: Id, status: Status) {
    id in x.s.jobs && x.s.jobs[id].state == Final(status)
  }

  /** A step that makes a stored state final is a step of the worker. */
  lemma BecomesFinal(x: System, step: Step, id: Id, status: Status)
    requires StoredAs(Next(x, step), id, status) && !StoredAs(x, id, status)
    ensures step.Work? && x.worker in Busy(id)
    ensures if step.luck.fails then status == Failed else x.worker == Storing(id, status)
  {
  }

  /** Every final status in the store was decided by a step of the worker on that job, and has stood since. */
  lemma {:induction false} FinalIsDecided(steps: seq<Step>, id: Id, status: Status)
    requires StoredAs(Run(steps), id, status)
    ensures exists d: nat :: Decides(steps, d, id, status)
                             && forall k :: d < k <= |steps| ==> StoredAs(After(steps, k), id, status)
  {
    hide Next, Arrived, WorkOn;
    var n := |steps| - 1;
    assert steps[..n + 1] == steps;
    if StoredAs(Run(steps[..n]), id, status) {
      FinalIsDecided(steps[..n], id, status);
      var d: nat :| Decides(steps[..n], d, id, status)
                    && forall k :: d < k <= n ==> StoredAs(After(steps[..n], k), id, status);
      AfterPrefix(steps, n, d);
      assert steps[..n][..d] == steps[..d];
      forall k | d < k <= |steps|
        ensures StoredAs(After(steps, k), id, status)
      {
        if k <= n {
          AfterPrefix(steps, n, k);
        }
      }
      assert Decides(steps, d, id, status);
    } else {
      BecomesFinal(Run(steps[..n]), steps[n], id, status);
      WorkerArrived(steps[..n]);
      assert Decides(steps, n, id, status);
    }
  }

  // ----- how the stored jobs change -----

  /** Which step takes a stored state to another one. */
  ghost predicate Moves(x: System, step: Step, id: Id, state: JobState)
    requires id in x.s.jobs
  {
    var was := x.s.jobs[id].state;
    match state
    case Queued => step.Enqueue? && x.submitter.Some? && x.name == id
    case Running => was == Queued && step.Work? && x.worker == Holding(id) && x.submitter.None? && !step.luck.fails
    case Cancelling => was in {Queued, Running} && step == Cancel(id) && x.submitter.None? && id in x.s.events
    case Final(status) =>
      && step.Work? && !was.Final? && x.worker in Busy(id) && !(x.worker.Holding? && x.submitter.Some?)
      && if step.luck.fails then status == Failed else x.worker == Storing(id, status) && was in {Running, Cancelling}
  }

  /** The step takes the state to another one exactly as the table says. */
  ghost predicate MovesOnly(x: System, step: Step, id: Id, state: JobState)
    requires id in x.s.jobs
  {
    && (state != x.s.jobs[id].state ==> Moves(x, step, id, state))
    && (forall other :: Moves(x, step, id, other) ==> state == other)
  }

  lemma WorkMoves(x: System, luck: Luck, id: Id)
    requires id in x.s.jobs && id in WorkOn(x, luck).s.jobs
    ensures MovesOnly(x, Work(luck), id, WorkOn(x, luck).s.jobs[id].state)
  {
    WorkMovesTo(x, luck, id);
    forall other | Moves(x, Work(luck), id, other)
      ensures WorkOn(x, luck).s.jobs[id].state == other
    {
      MovesWorkTo(x, luck, id, other);
    }
    hide WorkOn, Moves;
  }

  lemma WorkMovesTo(x: System, luck: Luck, id: Id)
    requires id in x.s.jobs && id in WorkOn(x, luck).s.jobs
    ensures var state := WorkOn(x, luck).s.jobs[id].state;
            state != x.s.jobs[id].state ==> Moves(x, Work(luck), id, state)
  {
  }

  lemma MovesWorkTo(x: System, luck: Luck, id: Id, state: JobState)
    requires id in x.s.jobs && id in WorkOn(x, luck).s.jobs && Moves(x, Work(luck), id, state)
    ensures WorkOn(x, luck).s.jobs[id].state == state
  {
  }

  lemma QuietMoves(x: System, step: Step, id: Id)
    requires !step.Work? && id in x.s.jobs && id in Next(x, step).s.jobs
    ensures MovesOnly(x, step, id, Next(x, step).s.jobs[id].state)
  {
    hide WorkOn;
  }

  /** A stored state changes exactly as the steps say: a deterministic table of the life of a job. */
  lemma StateMoves(x: System, step: Step, id: Id)
    requires id in x.s.jobs && id in Next(x, step).s.jobs
    ensures MovesOnly(x, step, id, Next(x, step).s.jobs[id].state)
  {
    hide WorkOn, MovesOnly;
    if step.Work? {
      WorkMoves(x, step.luck, id);
    } else {
      QuietMoves(x, step, id);
    }
  }

  /** A job leaves the store exactly when its snapshot is deleted. */
  lemma GoneIff(x: System, step: Step, id: Id)
    requires id in x.s.jobs
    ensures id !in Next(x, step).s.jobs <==> step == Delete(x.s.jobs[id].analysis) && x.submitter.None?
  {
  }

  /** Every stored job, and every submission under way, belongs to the snapshot it was submitted for. */
  lemma {:induction false} JobsAreSubmitted(steps: seq<Step>, id: Id)
    ensures Submitted(Run(steps), steps, id)
  {
    if steps != [] {
      hide Next, Submitted;
      var n := |steps| - 1;
      JobsAreSubmitted(steps[..n], id);
      assert steps == steps[..n] + [steps[n]];
      NextSubmitted(Run(steps[..n]), steps[..n], steps[n], id);
    }
  }

  ghost predicate Submitted(x: System, steps: seq<Step>, id: Id) {
    && (id in x.s.jobs ==> Submit(id, x.s.jobs[id].analysis) in steps)
    && (x.submitter.Some? && x.name == id ==> Submit(id, x.submitter.value.analysis) in steps)
  }

  lemma NextSubmitted(x: System, steps: seq<Step>, step: Step, id: Id)
    requires Submitted(x, steps, id)
    ensures Submitted(Next(x, step), steps + [step], id)
  {
    hide WorkOn;
    if step.Work? {
      WorkKeepsNames(x, step.luck);
    }
  }

  lemma WorkKeepsNames(x: System, luck: Luck)
    ensures var y := WorkOn(x, luck);
            && y.submitter == x.submitter && y.name == x.name && y.s.jobs.Keys == x.s.jobs.Keys
            && forall id :: id in x.s.jobs ==> y.s.jobs[id].analysis == x.s.jobs[id].analysis
  {
  }
}
