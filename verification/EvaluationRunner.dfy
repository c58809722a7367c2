/** The append-only comparison runner: a started receipt before each transmission, a result receipt after it, and a
    resume that never repeats an assignment. A crash, or a torn write, may end a session anywhere. */
module EvaluationRunner {
  import opened Prelude
  import opened Numerals

  /** One assignment of the plan. */
  datatype Task = Task(id: string, repeat: nat, mode: string)

  datatype Config = Config(text: string)

  datatype Receipt = Receipt(attempt: string, config: Config, input: string, startedAt: int)

  /** What the worker reported; `stops` says whether the stop code ends the series. */
  datatype Outcome = Outcome(completed: bool, input: nat, output: nat, unknown: nat, stops: bool)

  datatype File = Torn | Started(receipt: Receipt) | Final(receipt: Receipt, outcome: Outcome)

  type Files = map<string, File>

  datatype Totals = Totals(count: nat, failures: nat, input: nat, output: nat, unknown: nat)

  const NONE := Totals(0, 0, 0, 0, 0)

  function Add(t: Totals, o: Outcome): Totals {
    Totals(t.count + 1, t.failures + (if o.completed then 0 else 1), t.input + o.input, t.output + o.output, t.unknown + o.unknown)
  }

  // ----- names -----

  function Attempt(task: Task): string {
    task.id + "-" + task.mode + "-r" + Decimal(task.repeat)
  }

  function StartName(task: Task): string {
    Attempt(task) + "-started.json"
  }

  function ResultName(task: Task): string {
    Attempt(task) + ".json"
  }

  /** The tasks a plan can hold. */
  predicate Planned(task: Task) {
    |task.mode| == 1 && 1 <= task.repeat <= 3
  }

  lemma AttemptShape(task: Task)
    requires Planned(task)
    ensures var a := Attempt(task);
            && |a| == |task.id| + 5 && a[..|task.id|] == task.id && [a[|task.id| + 1]] == task.mode
            && a[|task.id| + 4] == Digit(task.repeat)
  {
    assert Decimal(task.repeat) == [Digit(task.repeat)];
    assert Attempt(task) == task.id + ("-" + task.mode + "-r" + Decimal(task.repeat));
  }

  /** Different tasks have different names, and a started receipt is never taken for a result. */
  lemma NamesApart(a: Task, b: Task)
    requires Planned(a) && Planned(b)
    ensures Attempt(a) == Attempt(b) ==> a == b
    ensures StartName(a) == StartName(b) ==> a == b
    ensures ResultName(a) == ResultName(b) ==> a == b
    ensures StartName(a) != ResultName(b)
  {
    AttemptShape(a);
    AttemptShape(b);
    var s, r := StartName(a), ResultName(b);
    assert s[|s| - 6] == 'd' by {
      assert s == Attempt(a) + "-started.json";
    }
    assert r[|r| - 6] == Digit(b.repeat) by {
      assert r == Attempt(b) + ".json";
    }
    if StartName(a) == StartName(b) {
      assert StartName(a)[..|Attempt(a)|] == Attempt(a) && StartName(b)[..|Attempt(b)|] == Attempt(b);
    }
    if ResultName(a) == ResultName(b) {
      assert ResultName(a)[..|Attempt(a)|] == Attempt(a) && ResultName(b)[..|Attempt(b)|] == Attempt(b);
    }
  }

  // ----- the plan -----

  function Rotated(modes: seq<string>, offset: nat): seq<string>
    requires offset <= |modes|
  {
    modes[offset..] + modes[..offset]
  }

  function Tasks(id: string, repeat: nat, modes: seq<string>): (r: seq<Task>)
    ensures |r| == |modes|
  {
    seq(|modes|, i requires 0 <= i < |modes| => Task(id, repeat, modes[i]))
  }

  function CaseTasks(index: nat, id: string, modes: seq<string>): seq<Task>
    requires modes != []
  {
    Tasks(id, 1, Rotated(modes, index % |modes|)) + Tasks(id, 2, Rotated(modes, (index + 1) % |modes|))
    + Tasks(id, 3, Rotated(modes, (index + 2) % |modes|))
  }

  /** Every case three times, the order of the modes rotating from run to run. */
  function Plan(ids: seq<string>, modes: seq<string>): seq<Task>
    requires modes != []
  {
    if ids == [] then []
    else
      var n := |ids| - 1;
      Plan(ids[..n], modes) + CaseTasks(n, ids[n], modes)
  }

  ghost predicate Modes(modes: seq<string>) {
    modes != [] && NoRepeats(modes) && forall i :: 0 <= i < |modes| ==> |modes[i]| == 1
  }

  lemma ConcatNoRepeats<T>(a: seq<T>, b: seq<T>)
    requires NoRepeats(a) && NoRepeats(b) && forall x :: x in a ==> x !in b
    ensures NoRepeats(a + b)
  {
    var s := a + b;
    assert forall i :: 0 <= i < |a| ==> s[i] == a[i] && s[i] in a;
    assert forall i :: |a| <= i < |s| ==> s[i] == b[i - |a|] && s[i] in b;
  }

  lemma PartsApart<T>(s: seq<T>, offset: nat, x: T)
    requires NoRepeats(s) && offset <= |s| && x in s[offset..]
    ensures x !in s[..offset]
  {
    var i :| 0 <= i < |s[offset..]| && s[offset..][i] == x;
    assert s[offset + i] == x;
  }

  lemma PartsUnrepeated<T>(s: seq<T>, offset: nat)
    requires NoRepeats(s) && offset <= |s|
    ensures NoRepeats(s[offset..]) && NoRepeats(s[..offset])
  {
    assert forall i :: 0 <= i < |s[offset..]| ==> s[offset..][i] == s[offset + i];
  }

  lemma RotatedSame(modes: seq<string>, offset: nat)
    requires NoRepeats(modes) && offset <= |modes|
    ensures NoRepeats(Rotated(modes, offset)) && forall m :: m in Rotated(modes, offset) <==> m in modes
  {
    assert modes == modes[..offset] + modes[offset..];
    forall x | x in modes[offset..]
      ensures x !in modes[..offset]
    {
      PartsApart(modes, offset, x);
    }
    PartsUnrepeated(modes, offset);
    ConcatNoRepeats(modes[offset..], modes[..offset]);
  }

  lemma TasksOf(id: string, repeat: nat, modes: seq<string>)
    requires NoRepeats(modes)
    ensures NoRepeats(Tasks(id, repeat, modes))
    ensures forall t :: t in Tasks(id, repeat, modes) <==> t.id == id && t.repeat == repeat && t.mode in modes
  {
    var tasks := Tasks(id, repeat, modes);
    forall i, j | 0 <= i < |tasks| && 0 <= j < |tasks| && tasks[i] == tasks[j]
      ensures i == j
    {
      assert modes[i] == tasks[i].mode && modes[j] == tasks[j].mode;
    }
    forall t: Task | t.id == id && t.repeat == repeat && t.mode in modes
      ensures t in tasks
    {
      var i :| 0 <= i < |modes| && modes[i] == t.mode;
      assert tasks[i] == t;
    }
  }

  lemma RepeatTasks(index: nat, id: string, repeat: nat, modes: seq<string>)
    requires Modes(modes)
    ensures var tasks := Tasks(id, repeat, Rotated(modes, index % |modes|));
            NoRepeats(tasks) && forall t :: t in tasks <==> t.id == id && t.repeat == repeat && t.mode in modes
  {
    RotatedSame(modes, index % |modes|);
    TasksOf(id, repeat, Rotated(modes, index % |modes|));
  }

  lemma CaseTasksOf(index: nat, id: string, modes: seq<string>)
    requires Modes(modes)
    ensures NoRepeats(CaseTasks(index, id, modes))
    ensures forall t :: t in CaseTasks(index, id, modes) <==> t.id == id && 1 <= t.repeat <= 3 && t.mode in modes
  {
    var first := Tasks(id, 1, Rotated(modes, index % |modes|));
    var second := Tasks(id, 2, Rotated(modes, (index + 1) % |modes|));
    var third := Tasks(id, 3, Rotated(modes, (index + 2) % |modes|));
    RepeatTasks(index, id, 1, modes);
    RepeatTasks(index + 1, id, 2, modes);
    RepeatTasks(index + 2, id, 3, modes);
    ConcatNoRepeats(first, second);
    ConcatNoRepeats(first + second, third);
  }

  /** The plan assigns every case, repetition and mode exactly once. */
  lemma {:induction false} PlanIsExact(ids: seq<string>, modes: seq<string>)
    requires Modes(modes) && NoRepeats(ids)
    ensures NoRepeats(Plan(ids, modes))
    ensures forall t :: t in Plan(ids, modes) <==> t.id in ids && 1 <= t.repeat <= 3 && t.mode in modes
  {
    if ids != [] {
      hide CaseTasks;
      var n := |ids| - 1;
      assert ids == ids[..n] + [ids[n]];
      assert forall i :: 0 <= i < n ==> ids[..n][i] == ids[i] && ids[i] != ids[n];
      PlanIsExact(ids[..n], modes);
      CaseTasksOf(n, ids[n], modes);
      ConcatNoRepeats(Plan(ids[..n], modes), CaseTasks(n, ids[n], modes));
    }
  }

  // ----- reading the receipts back -----

  datatype Trouble = Unresolved | NotAPrefix | Unreadable | WrongReceipt

  datatype Progress = Progress(done: set<string>, totals: Totals, gap: bool)

  function LoadOne(files: Files, config: Config, task: Task, p: Progress): Result<Progress, Trouble> {
    var started, result := StartName(task), ResultName(task);
    if (started in files) != (result in files) then Err(Unresolved)
    else if result !in files then Ok(p.(gap := true))
    else if p.gap then Err(NotAPrefix)
    else if !files[result].Final? then Err(Unreadable)
    else if files[result].receipt.attempt != Attempt(task) || files[result].receipt.config != config then Err(WrongReceipt)
    else if !files[started].Started? then Err(Unreadable)
    else if files[started].receipt != files[result].receipt then Err(WrongReceipt)
    else Ok(Progress(p.done + {Attempt(task)}, Add(p.totals, files[result].outcome), false))
  }

  function Load(files: Files, config: Config, plan: seq<Task>): Result<Progress, Trouble> {
    if plan == [] then Ok(Progress({}, NONE, false))
    else
      match Load(files, config, plan[..|plan| - 1])
      case Err(t) => Err(t)
      case Ok(p) => LoadOne(files, config, plan[|plan| - 1], p)
  }

  lemma {:induction false} LoadStaysFailed(files: Files, config: Config, plan: seq<Task>, n: nat)
    requires n <= |plan| && Load(files, config, plan[..n]).Err?
    ensures Load(files, config, plan) == Load(files, config, plan[..n])
  {
    if n < |plan| {
      var m := |plan| - 1;
      assert plan[..m][..n] == plan[..n];
      LoadStaysFailed(files, config, plan[..m], n);
    } else {
      assert plan[..n] == plan;
    }
  }

  method LoadCompleted(files: Files, config: Config, plan: seq<Task>) returns (r: Result<Progress, Trouble>)
    ensures r == Load(files, config, plan)
  {
    var done: set<string>, totals, gap := {}, NONE, false;
    for n := 0 to |plan|
      invariant Load(files, config, plan[..n]) == Ok(Progress(done, totals, gap))
    {
      assert plan[..n + 1][..n] == plan[..n];
      var task := plan[n];
      var step := LoadOne(files, config, task, Progress(done, totals, gap));
      if step.Err? {
        LoadStaysFailed(files, config, plan, n + 1);
        return step;
      }
      if ResultName(task) !in files {
        gap := true;
        continue;
      }
      done := done + {Attempt(task)};
      totals := Add(totals, files[ResultName(task)].outcome);
    }
    assert plan[..|plan|] == plan;
    r := Ok(Progress(done, totals, gap));
  }

  // ----- sessions, crashes and resumes -----

  /** The registration files of a series: not made yet, unreadable, or complete. */
  datatype Registration = Unmade | Partial | Registered(config: Config, plan: seq<Task>)

  datatype Phase = Off
                 | Registering(config: Config, plan: seq<Task>)
                 | At(i: nat)
                 | Begun(i: nat, receipt: Receipt)
                 | Sending(i: nat, receipt: Receipt)
                 | Got(i: nat, receipt: Receipt, outcome: Outcome)

  datatype Tail = Clean | Open | Broken

  /** The directory, the running session, and what really happened: the attempts that were transmitted, how many
      results are complete, and what lies after the last of them. */
  datatype System = System(registration: Registration, files: Files, phase: Phase, done: set<string>, totals: Totals,
                           sent: seq<string>, reached: nat, tail: Tail)

  datatype Step = Launch(resume: bool, config: Config, plan: seq<Task>, limit: nat)
                | Work(input: string, now: int, collected: bool, outcome: Outcome, limit: nat)
                | Tear
                | Crash

  const NEW := System(Unmade, map[], Off, {}, NONE, [], 0, Clean)

  function Config0(x: System): Config {
    if x.registration.Registered? then x.registration.config else Config("")
  }

  function PlanOf(x: System): seq<Task> {
    if x.registration.Registered? then x.registration.plan else []
  }

  function Begin(x: System, resume: bool, config: Config, plan: seq<Task>, limit: nat): System {
    if !x.phase.Off? then x
    else if !resume then
      if x.registration.Unmade? then x.(registration := Partial, phase := Registering(config, plan)) else x
    else if x.registration != Registered(config, plan) then x
    else
      match Load(x.files, config, plan)
      case Err(_) => x
      case Ok(p) => if p.totals.unknown >= limit then x else x.(phase := At(0), done := p.done, totals := p.totals)
  }

  /** One action of the running session. A started receipt and a result are created exclusively; a file that exists ends
      the session. */
  function WorkOn(x: System, step: Step): System
    requires step.Work?
  {
    var plan := PlanOf(x);
    match x.phase
    case Off => x
    case Registering(config, tasks) => x.(registration := Registered(config, tasks), phase := At(0), done := {}, totals := NONE)
    case At(i) =>
      if i >= |plan| then x.(phase := Off)
      else if Attempt(plan[i]) in x.done then x.(phase := At(i + 1))
      else if StartName(plan[i]) in x.files then x.(phase := Off)
      else
        var receipt := Receipt(Attempt(plan[i]), Config0(x), step.input, step.now);
        x.(files := x.files[StartName(plan[i]) := Started(receipt)], phase := Begun(i, receipt), tail := Open)
    case Begun(i, receipt) =>
      if step.collected then x.(phase := Sending(i, receipt), sent := x.sent + [receipt.attempt])
      else x.(phase := Got(i, receipt, Outcome(false, 0, 0, 0, false)))
    case Sending(i, receipt) => x.(phase := Got(i, receipt, step.outcome))
    case Got(i, receipt, outcome) =>
      if i >= |plan| || ResultName(plan[i]) in x.files then x.(phase := Off)
      else
        var totals := Add(x.totals, outcome);
        x.(files := x.files[ResultName(plan[i]) := Final(receipt, outcome)], totals := totals,
           done := x.done + {receipt.attempt}, reached := x.reached + 1, tail := Clean,
           phase := if totals.unknown >= step.limit || outcome.stops then Off else At(i + 1))
  }

  /** A crash in the middle of writing a file leaves it unreadable. */
  function TearOff(x: System): System {
    var plan := PlanOf(x);
    match x.phase
    case At(i) =>
      if i < |plan| && Attempt(plan[i]) !in x.done && StartName(plan[i]) !in x.files then
        x.(files := x.files[StartName(plan[i]) := Torn], phase := Off, tail := Open)
      else x.(phase := Off)
    case Got(i, _, _) =>
      if i < |plan| && ResultName(plan[i]) !in x.files then
        x.(files := x.files[ResultName(plan[i]) := Torn], phase := Off, tail := Broken)
      else x.(phase := Off)
    case _ => x.(phase := Off)
  }

  function Next(x: System, step: Step): System {
    match step
    case Launch(resume, config, plan, limit) => Begin(x, resume, config, plan, limit)
    case Work(_, _, _, _, _) => WorkOn(x, step)
    case Tear => TearOff(x)
    case Crash => x.(phase := Off)
  }

  function Run(steps: seq<Step>): System {
    if steps == [] then NEW else Next(Run(steps[..|steps| - 1]), steps[|steps| - 1])
  }

  /** Sessions are launched with plans of distinct, well-formed tasks. */
  ghost predicate GoodPlan(plan: seq<Task>) {
    NoRepeats(plan) && forall i :: 0 <= i < |plan| ==> Planned(plan[i])
  }

  ghost predicate GoodStep(step: Step) {
    step.Launch? ==> GoodPlan(step.plan)
  }

  // ----- what is on disk -----

  /** Both receipts of a task are there, readable and agree. */
  ghost predicate Whole(files: Files, config: Config, task: Task) {
    && StartName(task) in files && ResultName(task) in files
    && files[StartName(task)].Started? && files[ResultName(task)].Final?
    && files[StartName(task)].receipt == files[ResultName(task)].receipt
    && files[ResultName(task)].receipt.attempt == Attempt(task) && files[ResultName(task)].receipt.config == config
  }

  ghost predicate Untouched(files: Files, task: Task) {
    StartName(task) !in files && ResultName(task) !in files
  }

  ghost predicate TailFits(files: Files, plan: seq<Task>, k: nat, tail: Tail) {
    match tail
    case Clean => k <= |plan| && (k < |plan| ==> Untouched(files, plan[k]))
    case Open => k < |plan| && StartName(plan[k]) in files && ResultName(plan[k]) !in files
    case Broken => k < |plan| && StartName(plan[k]) in files && ResultName(plan[k]) in files && files[ResultName(plan[k])].Torn?
  }

  /** Complete receipts for the first k tasks, then the tail, then nothing. */
  ghost predicate OnDisk(files: Files, config: Config, plan: seq<Task>, k: nat, tail: Tail) {
    && TailFits(files, plan, k, tail)
    && (forall j :: 0 <= j < k && j < |plan| ==> Whole(files, config, plan[j]))
    && (forall j :: k < j < |plan| ==> Untouched(files, plan[j]))
  }

  function OutcomesOf(files: Files, plan: seq<Task>): seq<Outcome> {
    if plan == [] then []
    else
      var task := plan[|plan| - 1];
      OutcomesOf(files, plan[..|plan| - 1])
      + if ResultName(task) in files && files[ResultName(task)].Final? then [files[ResultName(task)].outcome] else []
  }

  /** The totals that a list of outcomes adds up to. */
  function Sum(outcomes: seq<Outcome>): Totals {
    if outcomes == [] then NONE else Add(Sum(outcomes[..|outcomes| - 1]), outcomes[|outcomes| - 1])
  }

  function Names(plan: seq<Task>): set<string> {
    set task | task in plan :: Attempt(task)
  }

  lemma SumSnoc(outcomes: seq<Outcome>, o: Outcome)
    ensures Sum(outcomes + [o]) == Add(Sum(outcomes), o)
  {
    assert (outcomes + [o])[..|outcomes|] == outcomes;
  }

  lemma NamesSnoc(plan: seq<Task>, task: Task)
    ensures Names(plan + [task]) == Names(plan) + {Attempt(task)}
  {
  }

  /** Reading complete receipts back gives their names and the fold of their outcomes. */
  lemma {:induction false} LoadWhole(files: Files, config: Config, plan: seq<Task>)
    requires forall j :: 0 <= j < |plan| ==> Whole(files, config, plan[j])
    ensures Load(files, config, plan) == Ok(Progress(Names(plan), Sum(OutcomesOf(files, plan)), false))
  {
    if plan == [] {
      assert Names(plan) == {};
    } else {
      var n := |plan| - 1;
      var task, before := plan[n], plan[..n];
      assert forall j :: 0 <= j < n ==> before[j] == plan[j];
      LoadWhole(files, config, before);
      assert Whole(files, config, task);
      assert Names(plan) == Names(before) + {Attempt(task)} by {
        assert plan == before + [task];
        NamesSnoc(before, task);
      }
      assert Sum(OutcomesOf(files, plan)) == Add(Sum(OutcomesOf(files, before)), files[ResultName(task)].outcome) by {
        SumSnoc(OutcomesOf(files, before), files[ResultName(task)].outcome);
      }
      hide Names, Sum, OutcomesOf;
      assert Load(files, config, plan)
          == LoadOne(files, config, task, Progress(Names(before), Sum(OutcomesOf(files, before)), false));
    }
  }

  lemma {:induction false} LoadUntouched(files: Files, config: Config, plan: seq<Task>, k: nat)
    requires k <= |plan| && Load(files, config, plan[..k]).Ok?
    requires forall j :: k <= j < |plan| ==> Untouched(files, plan[j])
    ensures Load(files, config, plan).Ok?
    ensures Load(files, config, plan).value.done == Load(files, config, plan[..k]).value.done
    ensures Load(files, config, plan).value.totals == Load(files, config, plan[..k]).value.totals
  {
    if k < |plan| {
      var n := |plan| - 1;
      assert plan[..n][..k] == plan[..k];
      LoadUntouched(files, config, plan[..n], k);
      assert Untouched(files, plan[n]);
    } else {
      assert plan[..k] == plan;
    }
  }

  /** A series can be resumed exactly when nothing was left half done; then exactly the complete receipts are counted. */
  lemma LoadIff(files: Files, config: Config, plan: seq<Task>, k: nat, tail: Tail)
    requires OnDisk(files, config, plan, k, tail)
    ensures Load(files, config, plan).Ok? <==> tail.Clean?
    ensures tail.Clean? ==>
              && Load(files, config, plan).value.done == Names(plan[..k])
              && Load(files, config, plan).value.totals == Sum(OutcomesOf(files, plan[..k]))
  {
    assert forall j :: 0 <= j < k && j < |plan| ==> plan[..k][j] == plan[j];
    LoadWhole(files, config, plan[..k]);
    if tail.Clean? {
      LoadUntouched(files, config, plan, k);
    } else {
      assert plan[..k + 1][..k] == plan[..k];
      LoadStaysFailed(files, config, plan, k + 1);
    }
  }

  // ----- invariants -----

  ghost predicate Disk(x: System) {
    && GoodPlan(PlanOf(x))
    && OnDisk(x.files, Config0(x), PlanOf(x), x.reached, x.tail)
    && (!x.registration.Registered? ==> x.files == map[] && x.reached == 0 && x.tail.Clean? && x.sent == [])
    && (x.phase.Registering? ==> GoodPlan(x.phase.plan))
  }

  /** While a session runs, what it knows agrees with the disk. */
  ghost predicate Session(x: System) {
    match x.phase
    case Off => true
    case Registering(_, _) => !x.registration.Registered?
    case At(i) => x.registration.Registered? && x.tail.Clean? && i <= |PlanOf(x)| && (i <= x.reached) && Knows(x)
    case Begun(i, receipt) => Underway(x, i, receipt)
    case Sending(i, receipt) => Underway(x, i, receipt)
    case Got(i, receipt, _) => Underway(x, i, receipt)
  }

  ghost predicate Knows(x: System) {
    && x.reached <= |PlanOf(x)| && x.done == Names(PlanOf(x)[..x.reached])
    && x.totals == Sum(OutcomesOf(x.files, PlanOf(x)[..x.reached]))
  }

  ghost predicate Underway(x: System, i: nat, receipt: Receipt) {
    && x.registration.Registered? && x.tail.Open? && i == x.reached && i < |PlanOf(x)| && Knows(x)
    && receipt.attempt == Attempt(PlanOf(x)[i]) && receipt.config == Config0(x)
    && StartName(PlanOf(x)[i]) in x.files && x.files[StartName(PlanOf(x)[i])] == Started(receipt)
  }

  ghost predicate SentWithin(x: System, k: nat) {
    forall a :: a in x.sent ==> a in Names(PlanOf(x)[..Min(k, |PlanOf(x)|)])
  }

  /** The attempts that may have been transmitted: those with results, and the open one once its sending began. */
  ghost predicate Transmitted(x: System) {
    && NoRepeats(x.sent)
    && SentWithin(x, x.reached + 1)
    && (x.tail.Clean? || x.phase.Begun? ==> SentWithin(x, x.reached))
  }

  ghost predicate Inv(x: System) {
    Disk(x) && Session(x) && Transmitted(x)
  }

  lemma NameIndex(plan: seq<Task>, k: nat, i: nat)
    requires GoodPlan(plan) && k <= |plan| && i < |plan|
    ensures Attempt(plan[i]) in Names(plan[..k]) <==> i < k
  {
    if Attempt(plan[i]) in Names(plan[..k]) {
      var task :| task in plan[..k] && Attempt(task) == Attempt(plan[i]);
      var j :| 0 <= j < k && plan[..k][j] == task;
      assert plan[j] == task && Planned(plan[i]) && Planned(plan[j]);
      NamesApart(task, plan[i]);
    }
    if i < k {
      assert plan[..k][i] == plan[i] && plan[i] in plan[..k];
    }
  }

  /** Writing one receipt leaves the other tasks' receipts alone. */
  lemma OthersUnchanged(files: Files, plan: seq<Task>, i: nat, j: nat, file: File, started: bool)
    requires GoodPlan(plan) && i < |plan| && j < |plan|
    ensures var name := if started then StartName(plan[i]) else ResultName(plan[i]);
            var files' := files[name := file];
            && (i != j ==> (StartName(plan[j]) in files' <==> StartName(plan[j]) in files)
                           && (ResultName(plan[j]) in files' <==> ResultName(plan[j]) in files)
                           && (StartName(plan[j]) in files ==> files'[StartName(plan[j])] == files[StartName(plan[j])])
                           && (ResultName(plan[j]) in files ==> files'[ResultName(plan[j])] == files[ResultName(plan[j])]))
            && StartName(plan[i]) != ResultName(plan[i])
  {
    NamesApart(plan[i], plan[j]);
    NamesApart(plan[j], plan[i]);
    NamesApart(plan[i], plan[i]);
    assert i != j ==> plan[i] != plan[j];
  }

  lemma WriteStart(files: Files, config: Config, plan: seq<Task>, k: nat, file: File)
    requires GoodPlan(plan) && k < |plan| && OnDisk(files, config, plan, k, Clean)
    ensures OnDisk(files[StartName(plan[k]) := file], config, plan, k, Open)
    ensures OutcomesOf(files[StartName(plan[k]) := file], plan[..k]) == OutcomesOf(files, plan[..k])
  {
    forall j | 0 <= j < |plan|
      ensures j < k ==> Whole(files[StartName(plan[k]) := file], config, plan[j])
      ensures j > k ==> Untouched(files[StartName(plan[k]) := file], plan[j])
    {
      OthersUnchanged(files, plan, k, j, file, true);
      assert j < k ==> Whole(files, config, plan[j]);
      assert j > k ==> Untouched(files, plan[j]);
    }
    OthersUnchanged(files, plan, k, k, file, true);
    OutcomesKept(files, plan, k, file, true, k);
  }

  lemma {:induction false} OutcomesKept(files: Files, plan: seq<Task>, i: nat, file: File, started: bool, n: nat)
    requires GoodPlan(plan) && i < |plan| && n <= i
    ensures var name := if started then StartName(plan[i]) else ResultName(plan[i]);
            OutcomesOf(files[name := file], plan[..n]) == OutcomesOf(files, plan[..n])
  {
    if n > 0 {
      OutcomesKept(files, plan, i, file, started, n - 1);
      OthersUnchanged(files, plan, i, n - 1, file, started);
      assert plan[..n][..n - 1] == plan[..n - 1] && plan[..n][n - 1] == plan[n - 1];
    }
  }

  lemma WriteResult(files: Files, config: Config, plan: seq<Task>, k: nat, receipt: Receipt, outcome: Outcome)
    requires GoodPlan(plan) && k < |plan| && OnDisk(files, config, plan, k, Open)
    requires files[StartName(plan[k])] == Started(receipt)
    requires receipt.attempt == Attempt(plan[k]) && receipt.config == config
    ensures var files' := files[ResultName(plan[k]) := Final(receipt, outcome)];
            OnDisk(files', config, plan, k + 1, Clean) && OutcomesOf(files', plan[..k + 1]) == OutcomesOf(files, plan[..k]) + [outcome]
  {
    var file := Final(receipt, outcome);
    var files' := files[ResultName(plan[k]) := file];
    OthersUnchanged(files, plan, k, k, file, false);
    forall j | 0 <= j < |plan|
      ensures j <= k ==> Whole(files', config, plan[j])
      ensures j > k ==> Untouched(files', plan[j])
    {
      OthersUnchanged(files, plan, k, j, file, false);
      assert j < k ==> Whole(files, config, plan[j]);
      assert j > k ==> Untouched(files, plan[j]);
    }
    OutcomesKept(files, plan, k, file, false, k);
    assert plan[..k + 1][..k] == plan[..k] && plan[..k + 1][k] == plan[k];
  }

  lemma TearResult(files: Files, config: Config, plan: seq<Task>, k: nat)
    requires GoodPlan(plan) && k < |plan| && OnDisk(files, config, plan, k, Open)
    ensures OnDisk(files[ResultName(plan[k]) := Torn], config, plan, k, Broken)
  {
    OthersUnchanged(files, plan, k, k, Torn, false);
    forall j | 0 <= j < |plan|
      ensures j < k ==> Whole(files[ResultName(plan[k]) := Torn], config, plan[j])
      ensures j > k ==> Untouched(files[ResultName(plan[k]) := Torn], plan[j])
    {
      OthersUnchanged(files, plan, k, j, Torn, false);
      assert j < k ==> Whole(files, config, plan[j]);
      assert j > k ==> Untouched(files, plan[j]);
    }
  }

  lemma SentWider(x: System, k: nat)
    requires SentWithin(x, k)
    ensures SentWithin(x, k + 1)
  {
    var plan := PlanOf(x);
    assert forall t :: t in plan[..Min(k, |plan|)] ==> t in plan[..Min(k + 1, |plan|)];
  }

  lemma LaunchKeeps(x: System, resume: bool, config: Config, plan: seq<Task>, limit: nat)
    requires Inv(x) && GoodPlan(plan)
    ensures Inv(Begin(x, resume, config, plan, limit))
  {
    if x.phase.Off? && resume && x.registration == Registered(config, plan) {
      LoadIff(x.files, config, plan, x.reached, x.tail);
    }
  }

  lemma RegisterKeeps(x: System, step: Step)
    requires Inv(x) && step.Work? && x.phase.Registering?
    ensures Inv(WorkOn(x, step))
  {
    var y := WorkOn(x, step);
    assert OnDisk(y.files, Config0(y), PlanOf(y), 0, Clean);
    assert Names(PlanOf(y)[..0]) == {};
  }

  lemma AtKeeps(x: System, step: Step)
    requires Inv(x) && step.Work? && x.phase.At?
    ensures Inv(WorkOn(x, step))
  {
    var plan, i := PlanOf(x), x.phase.i;
    if i < |plan| {
      NameIndex(plan, x.reached, i);
      if Attempt(plan[i]) !in x.done {
        var receipt := Receipt(Attempt(plan[i]), Config0(x), step.input, step.now);
        WriteStart(x.files, Config0(x), plan, i, Started(receipt));
      }
    }
  }

  lemma BegunKeeps(x: System, step: Step)
    requires Inv(x) && step.Work? && x.phase.Begun?
    ensures Inv(WorkOn(x, step))
  {
    var plan, i := PlanOf(x), x.phase.i;
    NameIndex(plan, x.reached, i);
    NameIndex(plan, x.reached + 1, i);
    ConcatNoRepeats(x.sent, [x.phase.receipt.attempt]);
  }

  lemma GotDisk(x: System, step: Step)
    requires Disk(x) && Session(x) && step.Work? && x.phase.Got?
    ensures Disk(WorkOn(x, step))
  {
    hide GoodPlan, Knows, OutcomesOf, Whole, Untouched;
    WriteResult(x.files, Config0(x), PlanOf(x), x.phase.i, x.phase.receipt, x.phase.outcome);
  }

  lemma GotSession(x: System, step: Step)
    requires Disk(x) && Session(x) && step.Work? && x.phase.Got?
    ensures Session(WorkOn(x, step))
  {
    hide OnDisk, OutcomesOf, Sum, Names, GoodPlan;
    var plan, i := PlanOf(x), x.phase.i;
    WriteResult(x.files, Config0(x), plan, i, x.phase.receipt, x.phase.outcome);
    SumSnoc(OutcomesOf(x.files, plan[..i]), x.phase.outcome);
    assert plan[..i + 1] == plan[..i] + [plan[i]];
    NamesSnoc(plan[..i], plan[i]);
  }

  lemma GotKeeps(x: System, step: Step)
    requires Inv(x) && step.Work? && x.phase.Got?
    ensures Inv(WorkOn(x, step))
  {
    GotDisk(x, step);
    GotSession(x, step);
    var y := WorkOn(x, step);
    assert y.sent == x.sent && PlanOf(y) == PlanOf(x) && y.reached == x.reached + 1;
    assert SentWithin(y, y.reached);
    SentWider(y, y.reached);
  }

  lemma TearAt(x: System)
    requires Inv(x) && x.phase.At?
    ensures Inv(TearOff(x))
  {
    hide OutcomesOf, Sum;
    var plan, i := PlanOf(x), x.phase.i;
    if i < |plan| && Attempt(plan[i]) !in x.done && StartName(plan[i]) !in x.files {
      NameIndex(plan, x.reached, i);
      WriteStart(x.files, Config0(x), plan, i, Torn);
    }
  }

  lemma TearGot(x: System)
    requires Inv(x) && x.phase.Got?
    ensures Inv(TearOff(x))
  {
    hide OutcomesOf, Sum, GoodPlan;
    TearResult(x.files, Config0(x), PlanOf(x), x.phase.i);
  }

  lemma TearKeeps(x: System)
    requires Inv(x)
    ensures Inv(TearOff(x))
  {
    match x.phase
    case At(_) => TearAt(x);
    case Got(_, _, _) => TearGot(x);
    case _ =>
  }

  lemma NextKeeps(x: System, step: Step)
    requires Inv(x) && GoodStep(step)
    ensures Inv(Next(x, step))
  {
    match step
    case Launch(resume, config, plan, limit) => LaunchKeeps(x, resume, config, plan, limit);
    case Tear => TearKeeps(x);
    case Crash =>
    case Work(_, _, _, _, _) =>
      match x.phase
      case Registering(_, _) => RegisterKeeps(x, step);
      case At(_) => AtKeeps(x, step);
      case Begun(_, _) => BegunKeeps(x, step);
      case Got(_, _, _) => GotKeeps(x, step);
      case _ =>
  }

  lemma {:induction false} AlwaysInv(steps: seq<Step>)
    requires forall n :: 0 <= n < |steps| ==> GoodStep(steps[n])
    ensures Inv(Run(steps))
  {
    if steps != [] {
      AlwaysInv(steps[..|steps| - 1]);
      assert GoodStep(steps[|steps| - 1]);
      NextKeeps(Run(steps[..|steps| - 1]), steps[|steps| - 1]);
    }
  }

  // ----- the promises of a series -----

  /** Over any launches, crashes, torn writes and resumes, no attempt is transmitted twice. */
  lemma AtMostOnce(steps: seq<Step>)
    requires forall n :: 0 <= n < |steps| ==> GoodStep(steps[n])
    ensures NoRepeats(Run(steps).sent)
  {
    AlwaysInv(steps);
  }

  /** The complete receipts are those of a prefix of the plan, and while a session runs its totals are their fold. */
  lemma CompleteReceiptsFormAPrefix(steps: seq<Step>)
    requires forall n :: 0 <= n < |steps| ==> GoodStep(steps[n])
    ensures var x := Run(steps);
            && OnDisk(x.files, Config0(x), PlanOf(x), x.reached, x.tail)
            && (!x.phase.Off? && !x.phase.Registering? ==>
                  x.reached <= |PlanOf(x)| && x.totals == Sum(OutcomesOf(x.files, PlanOf(x)[..x.reached])))
  {
    AlwaysInv(steps);
  }

  /** A stopped series can be resumed exactly when it stopped between assignments and stayed below the unknown limit. */
  lemma ResumableIff(x: System, limit: nat)
    requires Inv(x) && x.phase.Off? && x.registration.Registered?
    ensures Begin(x, true, Config0(x), PlanOf(x), limit).phase.At?
            <==> x.tail.Clean? && Sum(OutcomesOf(x.files, PlanOf(x)[..Min(x.reached, |PlanOf(x)|)])).unknown < limit
  {
    LoadIff(x.files, Config0(x), PlanOf(x), x.reached, x.tail);
  }

  /** A series left with a started-only or unreadable assignment is refused for good: nothing is ever sent again. */
  lemma StuckStep(x: System, step: Step)
    requires Inv(x) && GoodStep(step) && x.phase.Off? && !x.tail.Clean?
    ensures Next(x, step) == x
  {
    match step
    case Launch(resume, config, plan, limit) =>
      LoadIff(x.files, Config0(x), PlanOf(x), x.reached, x.tail);
    case _ =>
  }

  lemma {:induction false} StuckForGood(before: seq<Step>, more: seq<Step>)
    requires forall n :: 0 <= n < |before| ==> GoodStep(before[n])
    requires forall n :: 0 <= n < |more| ==> GoodStep(more[n])
    requires Run(before).phase.Off? && !Run(before).tail.Clean?
    ensures Run(before + more) == Run(before)
  {
    if more == [] {
      assert before + more == before;
    } else {
      var m := |more| - 1;
      hide Inv, Next;
      StuckForGood(before, more[..m]);
      assert (before + more)[..|before| + m] == before + more[..m];
      AlwaysInv(before);
      assert GoodStep(more[m]);
      StuckStep(Run(before), more[m]);
    }
  }
}
