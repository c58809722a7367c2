/** The investigation service: callers, one worker and one shutdown over a lock, a bounded queue and an event map. Every
    `with lock` block is one step, except a submission, which checks the closed flag and enqueues in two: the flag, the
    queue and the worker's exit are not under the lock. */
module InvestigationQueue {
  import opened Prelude

  type Id = string

  datatype Status = Completed | Partial | Failed | Cancelled

  datatype JobState = Queued | Running | Cancelling | Final(status: Status)

  datatype Job = Job(analysis: string, state: JobState)

  /** The stored jobs and the fields of the service; an event is true once it is set. */
  datatype Service = Service(jobs: map<Id, Job>, pending: set<Id>, events: map<Id, bool>, queue: seq<Id>)

  const CAPACITY := 2

  // ----- the blocks under the lock -----

  /** Compare-and-set on the stored state. */
  function Transition(jobs: map<Id, Job>, id: Id, expected: set<JobState>, state: JobState): map<Id, Job> {
    if id in jobs && jobs[id].state in expected then jobs[id := jobs[id].(state := state)] else jobs
  }

  function Put(s: Service, id: Id, analysis: string): Service {
    Service(s.jobs[id := Job(analysis, Queued)], s.pending + {id}, s.events[id := false], s.queue + [id])
  }

  function CancelOne(s: Service, id: Id): Service {
    if id in s.events then
      s.(events := s.events[id := true], jobs := Transition(s.jobs, id, {Queued, Running}, Cancelling))
    else s
  }

  function Belongs(s: Service, id: Id, analysis: string): bool {
    id in s.pending && id in s.jobs && s.jobs[id].analysis == analysis
  }

  function DeleteAnalysis(s: Service, analysis: string): Service {
    s.(events := map id | id in s.events :: s.events[id] || Belongs(s, id, analysis),
       jobs := map id | id in s.jobs && s.jobs[id].analysis != analysis :: s.jobs[id])
  }

  function SignalAll(s: Service): Service {
    s.(events := map id | id in s.events :: true)
  }

  function Leave(s: Service, id: Id): Service {
    s.(pending := s.pending - {id}, events := s.events - {id})
  }

  // ----- the whole system -----

  /** What the worker is doing: nothing, holding an identifier it took from the queue, working on it after the first
      lock block, calling the runner, about to look at the event for the last time, about to store, about to leave the
      pending set, or gone. */
  datatype Worker = Waiting
                  | Holding(id: Id)
                  | Taken(id: Id)
                  | Invoking(id: Id)
                  | Ending(id: Id, status: Status)
                  | Storing(id: Id, status: Status)
                  | Leaving(id: Id)
                  | Exited

  /** Every accepted submission gets the next ticket. `left` lists the tickets that left the pending set, `early` those
      whose event was set before the worker took the job, `ran` those for which the runner was called. */
  datatype History = History(accepted: nat, ticket: map<Id, nat>, left: seq<nat>, early: set<nat>, ran: set<nat>, used: set<Id>)

  datatype System = System(s: Service, closed: bool, worker: Worker, submitter: Option<Job>, name: Id, h: History)

  /** What one worker step may meet: a failure, the mode of the job, and the runner's answer. */
  datatype Luck = Luck(fails: bool, external: bool, status: Status)

  datatype Step = Submit(id: Id, analysis: string)
                | FollowUp(id: Id)
                | Enqueue
                | Cancel(id: Id)
                | Delete(analysis: string)
                | Close
                | Signal
                | Work(luck: Luck)

  const NEW := System(Service(map[], {}, map[], []), false, Waiting, None, "", History(0, map[], [], {}, {}, {}))

  function Hand(w: Worker): seq<Id> {
    if w.Waiting? || w.Exited? then [] else [w.id]
  }

  /** The worker has not yet looked at this job under the lock. */
  predicate Untaken(x: System, id: Id) {
    id in x.s.queue || x.worker == Holding(id)
  }

  function EarlyNow(x: System, ids: set<Id>): set<nat> {
    set id | id in ids && id in x.h.ticket && Untaken(x, id) :: x.h.ticket[id]
  }

  function Fail(x: System, id: Id): System {
    x.(s := x.s.(jobs := Transition(x.s.jobs, id, {Queued, Running, Cancelling}, Final(Failed))), worker := Leaving(id))
  }

  function Decide(x: System, id: Id, luck: Luck): System {
    if id !in x.s.jobs then x.(worker := Leaving(id))
    else if luck.fails then Fail(x, id)
    else if id in x.s.events && x.s.events[id] then x.(worker := Ending(id, Cancelled))
    else if luck.external then
      x.(worker := Invoking(id), h := x.h.(ran := x.h.ran + if id in x.h.ticket then {x.h.ticket[id]} else {}))
    else x.(worker := Ending(id, Completed))
  }

  function Depart(x: System, id: Id): System {
    x.(s := Leave(x.s, id), worker := Waiting,
       h := x.h.(left := x.h.left + (if id in x.h.ticket then [x.h.ticket[id]] else []), ticket := x.h.ticket - {id}))
  }

  function WorkOn(x: System, luck: Luck): System {
    match x.worker
    case Waiting =>
      if x.s.queue != [] then x.(s := x.s.(queue := x.s.queue[1..]), worker := Holding(x.s.queue[0]))
      else if x.closed then x.(worker := Exited)
      else x
    case Holding(id) =>
      if x.submitter.Some? then x
      else if id !in x.s.jobs then x.(worker := Leaving(id))
      else if luck.fails then Fail(x, id)
      else x.(s := x.s.(jobs := Transition(x.s.jobs, id, {Queued}, Running)), worker := Taken(id))
    case Taken(id) => Decide(x, id, luck)
    case Invoking(id) => if luck.fails then Fail(x, id) else x.(worker := Ending(id, luck.status))
    case Ending(id, status) => x.(worker := Storing(id, if id in x.s.events && x.s.events[id] then Cancelled else status))
    case Storing(id, status) =>
      if luck.fails then Fail(x, id)
      else x.(s := x.s.(jobs := Transition(x.s.jobs, id, {Running, Cancelling}, Final(status))), worker := Leaving(id))
    case Leaving(id) => if x.submitter.Some? then x else Depart(x, id)
    case Exited => x
  }

  predicate Admits(x: System) {
    x.submitter.None? && !x.closed && |x.s.pending| < CAPACITY
  }

  function Next(x: System, step: Step): System {
    match step
    case Submit(id, analysis) =>
      if Admits(x) && id !in x.h.used then
        x.(submitter := Some(Job(analysis, Queued)), name := id, h := x.h.(used := x.h.used + {id}))
      else x
    case FollowUp(id) =>
      if Admits(x) && id in x.s.jobs && id !in x.s.pending then x.(submitter := Some(x.s.jobs[id]), name := id) else x
    case Enqueue =>
      if x.submitter.Some? then
        x.(s := Put(x.s, x.name, x.submitter.value.analysis), submitter := None,
           h := x.h.(accepted := x.h.accepted + 1, ticket := x.h.ticket[x.name := x.h.accepted]))
      else x
    case Cancel(id) =>
      if x.submitter.Some? || id !in x.s.jobs then x
      else x.(s := CancelOne(x.s, id), h := x.h.(early := x.h.early + EarlyNow(x, {id} * x.s.events.Keys)))
    case Delete(analysis) =>
      if x.submitter.Some? then x
      else
        var gone := set id | id in x.s.pending && Belongs(x.s, id, analysis);
        x.(s := DeleteAnalysis(x.s, analysis), h := x.h.(early := x.h.early + EarlyNow(x, gone)))
    case Close => x.(closed := true)
    case Signal =>
      if x.submitter.Some? then x
      else x.(s := SignalAll(x.s), h := x.h.(early := x.h.early + EarlyNow(x, x.s.events.Keys)))
    case Work(luck) => WorkOn(x, luck)
  }

  function Run(steps: seq<Step>): System {
    if steps == [] then NEW else Next(Run(steps[..|steps| - 1]), steps[|steps| - 1])
  }

  // ----- invariants -----

  function Line(x: System): seq<Id> {
    Hand(x.worker) + x.s.queue
  }

  /** The line holds exactly the pending jobs, once each. */
  ghost predicate Lined(line: seq<Id>, pending: set<Id>) {
    NoRepeats(line) && Members(line) == pending
  }

  /** Events and tickets exist for exactly the pending jobs, of which there are at most two, and one fewer while a
      submission is under way. */
  ghost predicate Booked(x: System) {
    && x.s.events.Keys == x.s.pending && x.h.ticket.Keys == x.s.pending
    && |x.s.pending| <= CAPACITY && x.s.pending <= x.h.used && x.s.jobs.Keys <= x.h.used
    && (x.submitter.Some? ==> |x.s.pending| < CAPACITY && x.name !in x.s.pending && x.name in x.h.used)
  }

  /** The job in the worker's hand and the queue are exactly the pending set. */
  ghost predicate InLine(x: System) {
    Lined(Line(x), x.s.pending) && Booked(x)
  }

  /** Tickets: every accepted one is either pending or has left, exactly once. */
  ghost predicate Ticketed(h: History) {
    && (forall i, j :: i in h.ticket && j in h.ticket && h.ticket[i] == h.ticket[j] ==> i == j)
    && NoRepeats(h.left)
    && (forall i :: i in h.ticket ==> h.ticket[i] !in h.left)
    && (forall n :: n in h.left ==> n < h.accepted)
    && (forall i :: i in h.ticket ==> h.ticket[i] < h.accepted)
    && Accounted(h)
  }

  /** An event that was set early is still set, and the runner is called only for jobs without one. */
  ghost predicate Honoured(x: System) {
    && x.h.early !! x.h.ran
    && (forall n :: n in x.h.early || n in x.h.ran ==> n < x.h.accepted)
    && (forall id :: id in x.h.ticket && x.h.ticket[id] in x.h.early ==> id in x.s.events && x.s.events[id])
    && (forall id :: id in x.h.ticket && Untaken(x, id) ==> x.h.ticket[id] !in x.h.ran)
  }

  ghost predicate StateFits(x: System, id: Id) {
    id in x.s.jobs ==>
      var state := x.s.jobs[id].state;
      if id !in x.s.pending then state.Final?
      else if Untaken(x, id) then state == Queued || (state == Cancelling && id in x.s.events && x.s.events[id])
      else if x.worker.Leaving? then state.Final?
      else state == Running || state == Cancelling
  }

  /** A stored job is final as soon as it is no longer pending. */
  ghost predicate Settled(x: System) {
    forall id :: id in x.s.jobs ==> StateFits(x, id)
  }

  ghost predicate Inv(x: System) {
    InLine(x) && Ticketed(x.h) && Honoured(x) && Settled(x)
  }

  lemma AppendFresh<T>(s: seq<T>, y: T)
    requires NoRepeats(s) && y !in s
    ensures NoRepeats(s + [y]) && Members(s + [y]) == Members(s) + {y}
  {
  }

  lemma DropFirst<T>(s: seq<T>)
    requires NoRepeats(s) && s != []
    ensures NoRepeats(s[1..]) && Members(s[1..]) == Members(s) - {s[0]}
  {
    assert s == [s[0]] + s[1..];
    forall i | 0 <= i < |s[1..]|
      ensures s[1..][i] != s[0]
    {
      assert s[1..][i] == s[i + 1];
    }
  }

  lemma JoinLine(line: seq<Id>, pending: set<Id>, id: Id)
    requires Lined(line, pending) && id !in pending
    ensures Lined(line + [id], pending + {id})
  {
    assert id !in Members(line);
    AppendFresh(line, id);
  }

  lemma LeaveLine(line: seq<Id>, pending: set<Id>)
    requires Lined(line, pending) && line != []
    ensures Lined(line[1..], pending - {line[0]}) && line[0] in pending
  {
    assert line[0] in Members(line);
    DropFirst(line);
  }

  /** The steps that leave the line alone. */
  ghost predicate SameLine(x: System, y: System) {
    && Line(y) == Line(x) && y.s.pending == x.s.pending && y.s.events.Keys == x.s.events.Keys
    && y.h.ticket == x.h.ticket && y.h.used == x.h.used && y.submitter == x.submitter && y.name == x.name
    && y.s.jobs.Keys <= x.s.jobs.Keys
  }

  predicate Departs(x: System, step: Step) {
    step.Work? && x.worker.Leaving? && x.submitter.None?
  }

  lemma WorkSameLine(x: System, luck: Luck)
    requires !Departs(x, Work(luck))
    ensures SameLine(x, WorkOn(x, luck))
  {
    var y := WorkOn(x, luck);
    if x.worker.Waiting? && x.s.queue != [] {
      assert Line(y) == [x.s.queue[0]] + x.s.queue[1..];
    }
  }

  lemma QuietSameLine(x: System, step: Step)
    requires !step.Submit? && !step.FollowUp? && !step.Enqueue? && !Departs(x, step)
    ensures SameLine(x, Next(x, step))
  {
    match step
    case Work(luck) => WorkSameLine(x, luck);
    case Cancel(id) =>
      var y := Next(x, step);
      assert y.s.events.Keys == x.s.events.Keys;
    case Delete(_) =>
    case Signal =>
    case Close =>
  }

  lemma EnqueueLine(x: System)
    requires x.submitter.Some?
    ensures Line(Next(x, Enqueue)) == Line(x) + [x.name]
  {
  }

  lemma EnqueueBooked(x: System)
    requires Booked(x) && x.submitter.Some?
    ensures Booked(Next(x, Enqueue))
  {
    var y := Next(x, Enqueue);
    assert |y.s.pending| == |x.s.pending| + 1;
  }

  lemma EnqueueInLine(x: System)
    requires InLine(x) && x.submitter.Some?
    ensures InLine(Next(x, Enqueue))
  {
    EnqueueLine(x);
    EnqueueBooked(x);
    JoinLine(Line(x), x.s.pending, x.name);
  }

  lemma DepartInLine(x: System)
    requires InLine(x) && x.worker.Leaving? && x.submitter.None?
    ensures InLine(Depart(x, x.worker.id))
  {
    var y := Depart(x, x.worker.id);
    LeaveLine(Line(x), x.s.pending);
    assert Line(y) == Line(x)[1..];
  }

  lemma NextInLine(x: System, step: Step)
    requires InLine(x)
    ensures InLine(Next(x, step))
  {
    if Departs(x, step) {
      DepartInLine(x);
    } else {
      match step
      case Enqueue => if x.submitter.Some? { EnqueueInLine(x); }
      case Submit(_, _) => assert Line(Next(x, step)) == Line(x);
      case FollowUp(_) => assert Line(Next(x, step)) == Line(x);
      case _ => QuietSameLine(x, step);
    }
  }

  /** Every accepted ticket has left or is pending. */
  ghost predicate Accounted(h: History) {
    forall n: nat :: n < h.accepted ==> n in h.left || n in h.ticket.Values
  }

  lemma EnqueueAccounted(h: History, name: Id)
    requires Accounted(h) && name !in h.ticket
    ensures Accounted(h.(accepted := h.accepted + 1, ticket := h.ticket[name := h.accepted]))
  {
    var r := h.(accepted := h.accepted + 1, ticket := h.ticket[name := h.accepted]);
    forall n: nat | n < r.accepted
      ensures n in r.left || n in r.ticket.Values
    {
      if n == h.accepted {
        assert r.ticket[name] == n;
      } else if n !in h.left {
        var id :| id in h.ticket && h.ticket[id] == n;
        assert r.ticket[id] == n;
      }
    }
  }

  lemma EnqueueTicketed(h: History, name: Id)
    requires Ticketed(h) && name !in h.ticket
    ensures Ticketed(h.(accepted := h.accepted + 1, ticket := h.ticket[name := h.accepted]))
  {
    EnqueueAccounted(h, name);
    hide Accounted;
  }

  lemma DepartTicketed(h: History, id: Id)
    requires Ticketed(h) && id in h.ticket
    ensures Ticketed(h.(left := h.left + [h.ticket[id]], ticket := h.ticket - {id}))
  {
    var r := h.(left := h.left + [h.ticket[id]], ticket := h.ticket - {id});
    AppendFresh(h.left, h.ticket[id]);
    forall n: nat | n < r.accepted
      ensures n in r.left || n in r.ticket.Values
    {
      if n !in h.left && n != h.ticket[id] {
        var other :| other in h.ticket && h.ticket[other] == n;
        assert r.ticket[other] == n;
      }
    }
  }

  /** The steps that leave the tickets alone. */
  ghost predicate SameTickets(a: History, b: History) {
    b.ticket == a.ticket && b.left == a.left && b.accepted == a.accepted
  }

  lemma QuietSameTickets(x: System, step: Step)
    requires !step.Enqueue? && !Departs(x, step)
    ensures SameTickets(x.h, Next(x, step).h)
  {
  }

  lemma NextTicketed(x: System, step: Step)
    requires InLine(x) && Ticketed(x.h)
    ensures Ticketed(Next(x, step).h)
  {
    if Departs(x, step) {
      LeaveLine(Line(x), x.s.pending);
      DepartTicketed(x.h, x.worker.id);
    } else if step.Enqueue? {
      if x.submitter.Some? {
        EnqueueTicketed(x.h, x.name);
      }
    } else {
      QuietSameTickets(x, step);
    }
  }

  lemma HandNotQueued(x: System)
    requires InLine(x) && !x.worker.Waiting? && !x.worker.Exited?
    ensures x.worker.id !in x.s.queue && x.worker.id in x.s.pending
  {
    assert Line(x)[0] == x.worker.id && Line(x)[0] in Members(Line(x));
    forall i | 0 <= i < |x.s.queue|
      ensures x.s.queue[i] != x.worker.id
    {
      assert Line(x)[i + 1] == x.s.queue[i];
    }
  }

  /** What the early and ran records rest on, for one pending job. */
  ghost predicate HonouredFor(x: System, id: Id) {
    id in x.h.ticket ==>
      && (x.h.ticket[id] in x.h.early ==> id in x.s.events && x.s.events[id])
      && (Untaken(x, id) ==> x.h.ticket[id] !in x.h.ran)
  }

  lemma HonouredParts(x: System)
    ensures Honoured(x) <==> x.h.early !! x.h.ran && (forall n :: n in x.h.early || n in x.h.ran ==> n < x.h.accepted)
                             && forall id :: HonouredFor(x, id)
  {
    if forall id :: HonouredFor(x, id) {
      assert forall id :: id in x.h.ticket ==> HonouredFor(x, id);
    }
  }

  /** Records and waiting jobs as before, and no event cleared. */
  ghost predicate SameHonour(x: System, y: System) {
    && SameTickets(x.h, y.h) && y.h.early == x.h.early && y.h.ran == x.h.ran
    && (forall id :: Untaken(y, id) ==> Untaken(x, id))
    && (forall id :: id in x.s.events && x.s.events[id] ==> id in y.s.events && y.s.events[id])
  }

  lemma SameHonourKeeps(x: System, y: System)
    requires Honoured(x) && SameHonour(x, y)
    ensures Honoured(y)
  {
  }

  predicate Invokes(x: System, step: Step) {
    step.Work? && x.worker.Taken? && WorkOn(x, step.luck).worker.Invoking?
  }

  lemma WorkSameHonour(x: System, luck: Luck)
    requires !Departs(x, Work(luck)) && !Invokes(x, Work(luck))
    ensures SameHonour(x, WorkOn(x, luck))
  {
    if x.worker.Waiting? && x.s.queue != [] {
      assert x.s.queue == [x.s.queue[0]] + x.s.queue[1..];
    }
  }

  lemma InvokeHonoured(x: System, luck: Luck)
    requires InLine(x) && Ticketed(x.h) && Honoured(x) && Invokes(x, Work(luck))
    ensures Honoured(WorkOn(x, luck))
  {
    HandNotQueued(x);
    var y := WorkOn(x, luck);
    assert forall id :: Untaken(y, id) ==> id in x.s.queue && id != x.worker.id;
    assert forall id :: Untaken(y, id) ==> Untaken(x, id);
  }

  lemma DepartHonoured(x: System)
    requires InLine(x) && Honoured(x) && x.worker.Leaving? && x.submitter.None?
    ensures Honoured(Depart(x, x.worker.id))
  {
    var y := Depart(x, x.worker.id);
    assert forall id :: Untaken(y, id) ==> Untaken(x, id);
  }

  lemma EnqueueUntaken(x: System, id: Id)
    requires x.submitter.Some?
    ensures Untaken(Next(x, Enqueue), id) <==> Untaken(x, id) || id == x.name
  {
    var y := Next(x, Enqueue);
    assert y.s.queue[|x.s.queue|] == x.name;
  }

  lemma EnqueueHonouredFor(x: System, id: Id)
    requires Honoured(x) && x.submitter.Some? && x.name !in x.h.ticket
    ensures HonouredFor(Next(x, Enqueue), id)
  {
    EnqueueUntaken(x, id);
    var y := Next(x, Enqueue);
    if id == x.name {
      assert y.h.ticket[id] == x.h.accepted;
    }
  }

  lemma EnqueueHonoured(x: System)
    requires InLine(x) && Honoured(x) && x.submitter.Some?
    ensures Honoured(Next(x, Enqueue))
  {
    forall id
      ensures HonouredFor(Next(x, Enqueue), id)
    {
      EnqueueHonouredFor(x, id);
    }
    HonouredParts(Next(x, Enqueue));
  }

  /** Setting events of some pending jobs, and recording the early ones. */
  ghost predicate Signals(x: System, y: System, ids: set<Id>) {
    && SameTickets(x.h, y.h) && y.h.ran == x.h.ran && y.h.early == x.h.early + EarlyNow(x, ids)
    && y.s.queue == x.s.queue && y.worker == x.worker && y.s.events.Keys == x.s.events.Keys
    && (forall id :: id in x.s.events ==> (y.s.events[id] <==> x.s.events[id] || id in ids))
  }

  lemma SignalsHonoured(x: System, y: System, ids: set<Id>)
    requires InLine(x) && Ticketed(x.h) && Honoured(x) && Signals(x, y, ids)
    ensures Honoured(y)
  {
    forall n | n in EarlyNow(x, ids)
      ensures n !in x.h.ran && n < x.h.accepted
    {
      var id :| id in ids && id in x.h.ticket && Untaken(x, id) && x.h.ticket[id] == n;
    }
    forall id | id in y.h.ticket && y.h.ticket[id] in y.h.early
      ensures id in y.s.events && y.s.events[id]
    {
      if y.h.ticket[id] !in x.h.early {
        var other :| other in ids && other in x.h.ticket && Untaken(x, other) && x.h.ticket[other] == y.h.ticket[id];
        assert other == id;
      }
    }
    assert forall id :: Untaken(y, id) <==> Untaken(x, id);
  }

  lemma StepSignals(x: System, step: Step)
    requires InLine(x) && (step.Cancel? || step.Delete? || step.Signal?) && x.submitter.None?
    requires step.Cancel? ==> step.id in x.s.jobs
    ensures Signals(x, Next(x, step), Signalled(x, step))
  {
    var y := Next(x, step);
    assert y.s.events.Keys == x.s.events.Keys;
  }

  lemma QuietHonour(x: System, step: Step)
    requires || step.Submit? || step.FollowUp? || step.Close? || (step.Cancel? && step.id !in x.s.jobs)
             || (x.submitter.Some? && !step.Work? && !step.Enqueue?)
    ensures SameHonour(x, Next(x, step))
  {
  }

  lemma NextHonoured(x: System, step: Step)
    requires InLine(x) && Ticketed(x.h) && Honoured(x)
    ensures Honoured(Next(x, step))
  {
    hide Honoured, InLine, Ticketed, EarlyNow, Signalled, SameHonour, Signals;
    if step.Enqueue? {
      if x.submitter.Some? {
        EnqueueHonoured(x);
      }
    } else if Departs(x, step) {
      DepartHonoured(x);
    } else if Invokes(x, step) {
      InvokeHonoured(x, step.luck);
    } else if step.Work? {
      WorkSameHonour(x, step.luck);
      SameHonourKeeps(x, WorkOn(x, step.luck));
    } else if step.Submit? || step.FollowUp? || step.Close? || x.submitter.Some? || (step.Cancel? && step.id !in x.s.jobs) {
      QuietHonour(x, step);
      SameHonourKeeps(x, Next(x, step));
    } else {
      StepSignals(x, step);
      SignalsHonoured(x, Next(x, step), Signalled(x, step));
    }
  }

  ghost function Signalled(x: System, step: Step): set<Id> {
    match step
    case Cancel(id) => {id} * x.s.events.Keys
    case Delete(analysis) => set id | id in x.s.pending && Belongs(x.s, id, analysis)
    case _ => x.s.events.Keys
  }

  /** The worker touches only the job in its hand. */
  ghost predicate Untouched(x: System, y: System, id: Id) {
    && (id in y.s.jobs <==> id in x.s.jobs) && (id in x.s.jobs ==> y.s.jobs[id] == x.s.jobs[id])
    && (id in y.s.pending <==> id in x.s.pending)
    && (id in y.s.events <==> id in x.s.events) && (id in x.s.events ==> y.s.events[id] == x.s.events[id])
    && (Untaken(y, id) <==> Untaken(x, id))
  }

  lemma WorkUntouched(x: System, luck: Luck, id: Id)
    requires id !in Hand(x.worker)
    ensures Untouched(x, WorkOn(x, luck), id)
  {
    match x.worker
    case Waiting =>
      hide Transition, Fail, Decide, Depart;
      if x.s.queue != [] {
        assert x.s.queue == [x.s.queue[0]] + x.s.queue[1..];
      }
    case Taken(other) =>
      hide WorkOn;
      DecideUntouched(x, other, luck, id);
    case Leaving(other) =>
      hide Transition, Fail, Decide;
    case _ =>
      hide Decide, Depart;
  }

  lemma DecideUntouched(x: System, other: Id, luck: Luck, id: Id)
    requires x.worker == Taken(other) && other != id
    ensures Untouched(x, WorkOn(x, luck), id)
  {
  }

  lemma PendingUntaken(x: System, id: Id)
    requires InLine(x) && id in x.s.pending && id !in Hand(x.worker)
    ensures Untaken(x, id)
  {
    assert id in Members(Line(x));
    assert id in Line(x);
  }

  lemma OtherFits(x: System, y: System, id: Id)
    requires id in x.s.jobs && StateFits(x, id) && Untouched(x, y, id) && (id in x.s.pending ==> Untaken(x, id))
    ensures StateFits(y, id)
  {
  }

  lemma HandFits(x: System, luck: Luck)
    requires InLine(x) && !x.worker.Waiting? && !x.worker.Exited? && x.worker.id in x.s.jobs && StateFits(x, x.worker.id)
    ensures StateFits(WorkOn(x, luck), x.worker.id)
  {
    HandNotQueued(x);
  }

  lemma WorkSettled(x: System, luck: Luck)
    requires InLine(x) && Settled(x)
    ensures Settled(WorkOn(x, luck))
  {
    forall id | id in WorkOn(x, luck).s.jobs
      ensures StateFits(WorkOn(x, luck), id)
    {
      assert StateFits(x, id);
      if id in Hand(x.worker) {
        HandFits(x, luck);
      } else {
        WorkUntouched(x, luck, id);
        if id in x.s.pending {
          PendingUntaken(x, id);
        }
        OtherFits(x, WorkOn(x, luck), id);
      }
    }
  }

  lemma EnqueueSettled(x: System)
    requires InLine(x) && Settled(x) && x.submitter.Some?
    ensures Settled(Next(x, Enqueue))
  {
    var y := Next(x, Enqueue);
    forall id | id in y.s.jobs
      ensures StateFits(y, id)
    {
      if id != x.name {
        assert StateFits(x, id);
        assert Untaken(y, id) <==> Untaken(x, id);
      } else {
        assert y.s.queue[|x.s.queue|] == id;
      }
    }
  }

  /** The step leaves this job's place alone, and gives it a state that fits there. */
  lemma QuietFits(x: System, step: Step, id: Id)
    requires InLine(x) && !step.Enqueue? && !step.Work? && id in Next(x, step).s.jobs && StateFits(x, id)
    ensures StateFits(Next(x, step), id)
  {
    hide Lined, Booked;
    assert Untaken(Next(x, step), id) <==> Untaken(x, id);
  }

  lemma NextSettled(x: System, step: Step)
    requires InLine(x) && Settled(x)
    ensures Settled(Next(x, step))
  {
    match step
    case Enqueue => if x.submitter.Some? { EnqueueSettled(x); }
    case Work(luck) => WorkSettled(x, luck);
    case _ =>
      forall id | id in Next(x, step).s.jobs
        ensures StateFits(Next(x, step), id)
      {
        assert id in x.s.jobs && StateFits(x, id);
        QuietFits(x, step, id);
      }
  }

  /** Every reachable state, whatever callers, worker and shutdown do in whatever order, satisfies the invariants. */
  lemma {:induction false} AlwaysInv(steps: seq<Step>)
    ensures Inv(Run(steps))
  {
    if steps != [] {
      var x, step := Run(steps[..|steps| - 1]), steps[|steps| - 1];
      AlwaysInv(steps[..|steps| - 1]);
      NextInLine(x, step);
      NextTicketed(x, step);
      NextHonoured(x, step);
      NextSettled(x, step);
    }
  }

  // ----- what follows -----

  /** In every reachable state the queue and the worker's hand are the pending set, events exist for exactly the pending
      jobs, at most two jobs are pending, and a submission under way always finds room in the queue. */
  lemma QueueNeverOverflows(steps: seq<Step>)
    ensures var x := Run(steps);
            && NoRepeats(Line(x)) && Members(Line(x)) == x.s.pending && x.s.events.Keys == x.s.pending
            && |x.s.pending| <= CAPACITY
            && (x.submitter.Some? ==> |x.s.queue| < CAPACITY)
  {
    AlwaysInv(steps);
    var x := Run(steps);
    NoRepeatsSize(Line(x));
    assert |Line(x)| == |Hand(x.worker)| + |x.s.queue|;
  }

  lemma {:induction false} NoRepeatsSize<T>(s: seq<T>)
    requires NoRepeats(s)
    ensures |Members(s)| == |s|
  {
    if s != [] {
      DropFirst(s);
      NoRepeatsSize(s[1..]);
      assert s[0] in Members(s);
    }
  }

  /** Every accepted submission is pending or has left, never both, and leaves at most once; a job cancelled before the
      worker takes it never reaches the runner. */
  lemma AcceptedLeavesOnce(steps: seq<Step>, n: nat)
    requires n < Run(steps).h.accepted
    ensures var h := Run(steps).h;
            && (n in h.left <==> n !in h.ticket.Values)
            && NoRepeats(h.left)
            && (n in h.early ==> n !in h.ran)
  {
    AlwaysInv(steps);
    var h := Run(steps).h;
    if n in h.ticket.Values {
      var id :| id in h.ticket && h.ticket[id] == n;
    }
  }

  /** A job that is not pending has a final stored state, or was deleted. */
  lemma NotPendingIsFinal(steps: seq<Step>, id: Id)
    requires id in Run(steps).s.jobs && id !in Run(steps).s.pending
    ensures Run(steps).s.jobs[id].state.Final?
  {
    AlwaysInv(steps);
    assert StateFits(Run(steps), id);
  }

  // ----- progress and shutdown -----

  /** Worker steps still to be done. */
  function Measure(x: System): nat {
    7 * |x.s.queue| + match x.worker
                      case Waiting => 0
                      case Holding(_) => 6
                      case Taken(_) => 5
                      case Invoking(_) => 4
                      case Ending(_, _) => 3
                      case Storing(_, _) => 2
                      case Leaving(_) => 1
                      case Exited => 0
  }

  lemma EmptyLine(x: System)
    requires InLine(x)
    ensures x.s.pending == {} <==> Line(x) == []
  {
    assert Line(x) != [] ==> Line(x)[0] in Members(Line(x));
  }

  lemma WorkLowers(x: System, luck: Luck)
    requires x.submitter.None? && !x.worker.Exited? && (x.worker.Waiting? ==> x.s.queue != [])
    ensures var y := WorkOn(x, luck);
            y.submitter.None? && !y.worker.Exited? && Measure(y) < Measure(x)
  {
  }

  lemma WorkProgress(x: System, luck: Luck)
    requires InLine(x) && x.submitter.None? && !x.worker.Exited? && x.s.pending != {}
    ensures var y := WorkOn(x, luck);
            y.submitter.None? && !y.worker.Exited? && Measure(y) < Measure(x)
  {
    EmptyLine(x);
    hide InLine, Measure, WorkOn;
    WorkLowers(x, luck);
  }

  /** Nobody holds the lock and the worker has not left. */
  ghost predicate Live(x: System) {
    InLine(x) && x.submitter.None? && !x.worker.Exited?
  }

  lemma LiveStep(x: System, luck: Luck)
    requires Live(x) && x.s.pending != {}
    ensures Live(WorkOn(x, luck)) && Measure(WorkOn(x, luck)) < Measure(x)
  {
    WorkProgress(x, luck);
    NextInLine(x, Work(luck));
    hide InLine, WorkOn, Measure;
  }

  function Iterate<X>(step: (X, nat) -> X, x: X, k: nat, n: nat): X
    decreases n
  {
    if n == 0 then x else Iterate(step, step(x, k), k + 1, n - 1)
  }

  /** Steps that lower a measure until they are done get done within the measure. */
  lemma {:induction false} Descends<X(!new)>(step: (X, nat) -> X, live: X -> bool, done: X -> bool, measure: X -> nat, x: X, k: nat)
    returns (n: nat)
    requires live(x)
    requires forall y, j :: live(y) && !done(y) ==> live(step(y, j)) && measure(step(y, j)) < measure(y)
    ensures n <= measure(x) && done(Iterate(step, x, k, n))
    decreases measure(x)
  {
    n := 0;
    if !done(x) {
      n := Descends(step, live, done, measure, step(x, k), k + 1);
      n := n + 1;
    }
  }

  /** n worker steps with nobody in between. */
  function WorkFrom(x: System, luck: nat -> Luck, n: nat): System {
    Iterate((y: System, k: nat) => WorkOn(y, luck(k)), x, 0, n)
  }

  /** Progress: whatever failures and answers it meets, the living worker empties the pending set in a bounded number of
      its own steps. */
  lemma WorkerDrains(x: System, luck: nat -> Luck) returns (n: nat)
    requires Live(x)
    ensures n <= Measure(x) && WorkFrom(x, luck, n).s.pending == {}
  {
    forall y, k: nat | Live(y) && y.s.pending != {}
      ensures Live(WorkOn(y, luck(k))) && Measure(WorkOn(y, luck(k))) < Measure(y)
    {
      LiveStep(y, luck(k));
    }
    n := Descends((y: System, k: nat) => WorkOn(y, luck(k)), y => Live(y), (y: System) => y.s.pending == {},
                  y => Measure(y), x, 0);
  }

  function RunFrom(x: System, steps: seq<Step>): System {
    if steps == [] then x else Next(RunFrom(x, steps[..|steps| - 1]), steps[|steps| - 1])
  }

  /** The worker goes only after shutdown and with nothing pending. */
  lemma ExitIsClean(x: System, luck: Luck)
    requires InLine(x) && !x.worker.Exited? && WorkOn(x, luck).worker.Exited?
    ensures x.closed && WorkOn(x, luck).s.pending == {}
  {
    EmptyLine(x);
  }

  /** y is reached from x after the exit; `enqueued` says whether an enqueueing step came by. */
  ghost predicate AfterExit(x: System, y: System, enqueued: bool) {
    && y.worker.Exited? && y.closed
    && y.s.pending == (if x.submitter.Some? && enqueued then {x.name} else {})
    && y.submitter == (if enqueued then None else x.submitter)
    && (y.submitter.Some? ==> y.name == x.name)
  }

  lemma AfterExitStep(x: System, y: System, enqueued: bool, step: Step)
    requires AfterExit(x, y, enqueued)
    ensures AfterExit(x, Next(y, step), enqueued || step == Enqueue)
  {
  }

  /** After the exit no job can be served: one is stranded exactly when a submission had passed the closed check before
      the exit and enqueues after it. */
  lemma {:induction false} StrandedIff(x: System, steps: seq<Step>)
    requires x.worker.Exited? && x.closed && x.s.pending == {}
    ensures AfterExit(x, RunFrom(x, steps), Enqueue in steps)
    ensures RunFrom(x, steps).s.pending != {} <==> x.submitter.Some? && Enqueue in steps
  {
    if steps != [] {
      var n := |steps| - 1;
      StrandedIff(x, steps[..n]);
      AfterExitStep(x, RunFrom(x, steps[..n]), Enqueue in steps[..n], steps[n]);
      assert steps == steps[..n] + [steps[n]];
    }
  }

  /** The race is real: a submission, then the shutdown and the worker's exit, then the enqueueing. */
  lemma StrandedExample(luck: Luck)
    ensures var x := RunFrom(NEW, [Submit("job", "snapshot"), Close, Work(luck), Enqueue]);
            x.worker.Exited? && x.s.pending == {"job"}
  {
    var submitted := Next(NEW, Submit("job", "snapshot"));
    var gone := Next(Next(submitted, Close), Work(luck));
    assert gone.worker.Exited? && gone.submitter.Some? && gone.name == "job";
    var all := [Submit("job", "snapshot"), Close, Work(luck), Enqueue];
    assert all[..3] == [Submit("job", "snapshot"), Close, Work(luck)];
    assert all[..3][..2] == [Submit("job", "snapshot"), Close];
    assert all[..3][..2][..1] == [Submit("job", "snapshot")];
    assert all[..3][..2][..1][..0] == [];
    assert RunFrom(NEW, all[..3][..2][..1]) == submitted;
    assert RunFrom(NEW, all[..3]) == gone;
  }

  // ----- the blocks as the program runs them -----

  class InvestigationService {
    var jobs: map<Id, Job>
    var pending: set<Id>
    var events: map<Id, bool>
    var queue: seq<Id>

    constructor ()
      ensures Contents() == Service(map[], {}, map[], [])
    {
      jobs, pending, events, queue := map[], {}, map[], [];
    }

    function Contents(): Service
      reads this
    {
      Service(jobs, pending, events, queue)
    }

    /** A new job or a new turn of an old one; nothing changes when two jobs are pending or the job itself is. */
    method Enqueue(id: Id, analysis: string) returns (accepted: bool)
      modifies this
      ensures accepted == (id !in old(pending) && |old(pending)| < CAPACITY)
      ensures Contents() == if accepted then Put(old(Contents()), id, analysis) else old(Contents())
    {
      if id in pending || |pending| >= CAPACITY {
        return false;
      }
      jobs := jobs[id := Job(analysis, Queued)];
      pending := pending + {id};
      events := events[id := false];
      queue := queue + [id];
      accepted := true;
    }

    method Cancel(id: Id) returns (found: bool)
      modifies this`events, this`jobs
      ensures found == (id in old(jobs))
      ensures Contents() == if found then CancelOne(old(Contents()), id) else old(Contents())
    {
      if id !in jobs {
        return false;
      }
      if id in events {
        events := events[id := true];
        jobs := Transition(jobs, id, {Queued, Running}, Cancelling);
      }
      found := true;
    }

    /** Sets the event of every pending job of the snapshot, then deletes the snapshot's jobs. */
    method DeleteSnapshot(analysis: string)
      requires pending == events.Keys
      modifies this`events, this`jobs
      ensures Contents() == DeleteAnalysis(old(Contents()), analysis)
    {
      var todo := pending;
      while todo != {}
        invariant todo <= pending && events.Keys == pending && jobs == old(jobs)
        invariant forall id :: id in events ==>
          events[id] == (old(events)[id] || (id !in todo && Belongs(old(Contents()), id, analysis)))
      {
        var id :| id in todo;
        if id in jobs && jobs[id].analysis == analysis {
          events := events[id := true];
        }
        todo := todo - {id};
      }
      jobs := map id | id in jobs && jobs[id].analysis != analysis :: jobs[id];
    }

    /** The worker's first block: a stored job that is queued becomes running. */
    method Take(id: Id) returns (present: bool)
      modifies this`jobs
      ensures present == (id in old(jobs))
      ensures Contents() == old(Contents()).(jobs := Transition(old(jobs), id, {Queued}, Running))
    {
      present := id in jobs;
      jobs := Transition(jobs, id, {Queued}, Running);
    }

    /** The worker's last block. */
    method Finish(id: Id)
      modifies this`pending, this`events
      ensures Contents() == Leave(old(Contents()), id)
    {
      pending := pending - {id};
      events := events - {id};
    }
  }
}
