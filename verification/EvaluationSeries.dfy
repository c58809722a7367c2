/** What a comparison series amounts to: where each assignment stands in the plan, what the totals count, which directory
    can be read back and why another one cannot, and where every stored outcome comes from. */
module EvaluationSeries {
  import opened Prelude
  import opened EvaluationRunner

  // ----- the order of the plan -----

  /** The j-th mode from this start on, round and round. */
  function Cycled(modes: seq<string>, start: nat, j: nat): string
    requires j < |modes|
  {
    var at := start % |modes| + j;
    if at < |modes| then modes[at] else modes[at - |modes|]
  }

  lemma TaskAt(id: string, repeat: nat, start: nat, modes: seq<string>, j: nat)
    requires j < |modes|
    ensures Tasks(id, repeat, Rotated(modes, start % |modes|))[j] == Task(id, repeat, Cycled(modes, start, j))
  {
    var offset := start % |modes|;
    if offset + j < |modes| {
      assert Rotated(modes, offset)[j] == modes[offset..][j];
    } else {
      assert Rotated(modes, offset)[j] == modes[..offset][j - (|modes| - offset)];
    }
  }

  lemma Width(id: string, repeat: nat, start: nat, modes: seq<string>)
    requires modes != []
    ensures |Tasks(id, repeat, Rotated(modes, start % |modes|))| == |modes|
  {
  }

  lemma ThreeParts<T>(a: seq<T>, b: seq<T>, c: seq<T>, j: nat)
    requires |a| == |b| == |c| && j < |a|
    ensures |a + b + c| == 3 * |a|
    ensures (a + b + c)[j] == a[j] && (a + b + c)[|a| + j] == b[j] && (a + b + c)[2 * |a| + j] == c[j]
  {
  }

  /** The place of a repetition's j-th task among the tasks of its case. */
  function Place(repeat: nat, width: nat, j: nat): nat
    requires 1 <= repeat <= 3
  {
    if repeat == 1 then j else if repeat == 2 then width + j else 2 * width + j
  }

  lemma CaseTaskAt(index: nat, id: string, modes: seq<string>, repeat: nat, j: nat)
    requires j < |modes| && 1 <= repeat <= 3
    ensures |CaseTasks(index, id, modes)| == 3 * |modes|
    ensures CaseTasks(index, id, modes)[Place(repeat, |modes|, j)] == Task(id, repeat, Cycled(modes, index + (repeat - 1), j))
  {
    hide Tasks, Rotated, Cycled;
    var a := Tasks(id, 1, Rotated(modes, index % |modes|));
    var b := Tasks(id, 2, Rotated(modes, (index + 1) % |modes|));
    var c := Tasks(id, 3, Rotated(modes, (index + 2) % |modes|));
    Width(id, 1, index, modes);
    Width(id, 2, index + 1, modes);
    Width(id, 3, index + 2, modes);
    TaskAt(id, repeat, index + (repeat - 1), modes, j);
    ThreeParts(a, b, c, j);
  }

  /** Case after case, and in each case repetition after repetition; the order of the modes starts one further in every
      repetition and in every case. */
  lemma {:induction false} PlanAt(ids: seq<string>, modes: seq<string>, index: nat, repeat: nat, j: nat)
    requires index < |ids| && 1 <= repeat <= 3 && j < |modes|
    ensures |Plan(ids[..index + 1], modes)| == |Plan(ids[..index], modes)| + 3 * |modes|
    ensures var at := |Plan(ids[..index], modes)| + Place(repeat, |modes|, j);
            at < |Plan(ids, modes)| && Plan(ids, modes)[at] == Task(ids[index], repeat, Cycled(modes, index + (repeat - 1), j))
  {
    hide CaseTasks, Cycled;
    var n := |ids| - 1;
    CaseTaskAt(n, ids[n], modes, repeat, j);
    if index < n {
      PlanAt(ids[..n], modes, index, repeat, j);
      assert ids[..n][..index] == ids[..index] && ids[..n][..index + 1] == ids[..index + 1];
    } else {
      assert ids[..n + 1] == ids;
    }
  }

  // ----- what the totals count -----

  predicate Failed(o: Outcome) {
    !o.completed
  }

  function InputOf(o: Outcome): nat { o.input }

  function OutputOf(o: Outcome): nat { o.output }

  function UnknownOf(o: Outcome): nat { o.unknown }

  function SumOf(f: Outcome -> nat, outcomes: seq<Outcome>): nat {
    if outcomes == [] then 0 else f(outcomes[0]) + SumOf(f, outcomes[1..])
  }

  lemma {:induction false} SumOfSnoc(f: Outcome -> nat, outcomes: seq<Outcome>, o: Outcome)
    ensures SumOf(f, outcomes + [o]) == SumOf(f, outcomes) + f(o)
  {
    if outcomes == [] {
      assert [o][1..] == [];
    } else {
      SumOfSnoc(f, outcomes[1..], o);
      assert (outcomes + [o])[1..] == outcomes[1..] + [o];
    }
  }

  /** The totals: how many outcomes, how many of them not completed, and the sums of their counters. */
  lemma {:induction false} SumIs(outcomes: seq<Outcome>)
    ensures var t := Sum(outcomes);
            && t.count == |outcomes| && t.failures == |Filter(Failed, outcomes)|
            && t.input == SumOf(InputOf, outcomes) && t.output == SumOf(OutputOf, outcomes)
            && t.unknown == SumOf(UnknownOf, outcomes)
  {
    if outcomes != [] {
      var n := |outcomes| - 1;
      SumIs(outcomes[..n]);
      assert outcomes == outcomes[..n] + [outcomes[n]];
      SumOfSnoc(InputOf, outcomes[..n], outcomes[n]);
      SumOfSnoc(OutputOf, outcomes[..n], outcomes[n]);
      SumOfSnoc(UnknownOf, outcomes[..n], outcomes[n]);
    }
  }

  /** The outcomes of complete receipts, task by task. */
  lemma {:induction false} OutcomeAt(files: Files, config: Config, plan: seq<Task>, i: nat)
    requires i < |plan| && forall j :: 0 <= j < |plan| ==> Whole(files, config, plan[j])
    ensures |OutcomesOf(files, plan)| == |plan|
    ensures ResultName(plan[i]) in files && files[ResultName(plan[i])].Final?
    ensures OutcomesOf(files, plan)[i] == files[ResultName(plan[i])].outcome
  {
    var n := |plan| - 1;
    assert Whole(files, config, plan[n]) && Whole(files, config, plan[i]);
    assert forall j :: 0 <= j < n ==> plan[..n][j] == plan[j];
    if n > 0 {
      OutcomeAt(files, config, plan[..n], if i < n then i else 0);
    } else {
      assert plan[..n] == [];
    }
  }

  // ----- which directories can be read back -----

  /** Complete receipts for the first k tasks, and nothing for the others. */
  ghost predicate Tidy(files: Files, config: Config, plan: seq<Task>, k: nat) {
    && k <= |plan|
    && (forall j :: 0 <= j < k ==> Whole(files, config, plan[j]))
    && (forall j :: k <= j < |plan| ==> Untouched(files, plan[j]))
  }

  lemma {:induction false} ReadIsTidy(files: Files, config: Config, plan: seq<Task>)
    requires Load(files, config, plan).Ok?
    ensures exists k: nat :: Tidy(files, config, plan, k) && (Load(files, config, plan).value.gap <==> k < |plan|)
  {
    if plan == [] {
      assert Tidy(files, config, plan, 0);
    } else {
      hide Tidy, LoadOne;
      var n := |plan| - 1;
      ReadIsTidy(files, config, plan[..n]);
      var k: nat :| Tidy(files, config, plan[..n], k) && (Load(files, config, plan[..n]).value.gap <==> k < n);
      TidyMore(files, config, plan, k, Load(files, config, plan[..n]).value);
    }
  }

  lemma TidyMore(files: Files, config: Config, plan: seq<Task>, k: nat, p: Progress)
    requires plan != [] && Tidy(files, config, plan[..|plan| - 1], k) && (p.gap <==> k < |plan| - 1)
    requires LoadOne(files, config, plan[|plan| - 1], p).Ok?
    ensures var more: nat := if ResultName(plan[|plan| - 1]) in files then |plan| else k;
            Tidy(files, config, plan, more) && (LoadOne(files, config, plan[|plan| - 1], p).value.gap <==> more < |plan|)
  {
    hide StartName, ResultName, Attempt;
    var n := |plan| - 1;
    assert forall j :: 0 <= j < n ==> plan[..n][j] == plan[j];
  }

  lemma TidyIsRead(files: Files, config: Config, plan: seq<Task>, k: nat)
    requires Tidy(files, config, plan, k)
    ensures Load(files, config, plan).Ok?
    ensures Load(files, config, plan).value.done == Names(plan[..k])
    ensures Load(files, config, plan).value.totals == Sum(OutcomesOf(files, plan[..k]))
  {
    assert forall j :: 0 <= j < k ==> plan[..k][j] == plan[j];
    LoadWhole(files, config, plan[..k]);
    LoadUntouched(files, config, plan, k);
  }

  /** Any directory can be read back exactly when it is tidy. */
  lemma ReadableIff(files: Files, config: Config, plan: seq<Task>)
    ensures Load(files, config, plan).Ok? <==> exists k: nat :: Tidy(files, config, plan, k)
  {
    if Load(files, config, plan).Ok? {
      ReadIsTidy(files, config, plan);
    }
    if k: nat :| Tidy(files, config, plan, k) {
      TidyIsRead(files, config, plan, k);
    }
  }

  /** What a refusal complains about. */
  ghost predicate Complains(files: Files, config: Config, plan: seq<Task>, i: nat, t: Trouble) {
    && i < |plan|
    && var started, result := StartName(plan[i]), ResultName(plan[i]);
    match t
    case Unresolved => (started in files) != (result in files)
    case NotAPrefix => started in files && result in files && exists j :: 0 <= j < i && Untouched(files, plan[j])
    case Unreadable => started in files && result in files && !(files[started].Started? && files[result].Final?)
    case WrongReceipt =>
      && started in files && result in files && files[result].Final?
      && (files[result].receipt.attempt != Attempt(plan[i]) || files[result].receipt.config != config
          || (files[started].Started? && files[started].receipt != files[result].receipt))
  }

  /** A refusal is about the first task whose receipts are not in order, and true of it. */
  lemma {:induction false} RefusalIsTrue(files: Files, config: Config, plan: seq<Task>)
    requires Load(files, config, plan).Err?
    ensures exists i :: 0 <= i < |plan| && (exists k: nat :: Tidy(files, config, plan[..i], k))
                        && Complains(files, config, plan, i, Load(files, config, plan).error)
  {
    var n := |plan| - 1;
    if Load(files, config, plan[..n]).Err? {
      RefusalIsTrue(files, config, plan[..n]);
      var i :| 0 <= i < n && (exists k: nat :: Tidy(files, config, plan[..n][..i], k))
               && Complains(files, config, plan[..n], i, Load(files, config, plan).error);
      assert plan[..n][..i] == plan[..i];
    } else {
      ReadIsTidy(files, config, plan[..n]);
      var k: nat :| Tidy(files, config, plan[..n], k) && (Load(files, config, plan[..n]).value.gap <==> k < n);
      assert k < n ==> Untouched(files, plan[..n][k]) && plan[..n][k] == plan[k];
      assert Complains(files, config, plan, n, Load(files, config, plan).error);
    }
  }

  // ----- where stored outcomes come from -----

  /** An input that was not collected fails without a call and costs nothing. */
  const UNCOLLECTED := Outcome(false, 0, 0, 0, false)

  /** The n-th step gave the i-th task this outcome under this receipt: the worker's report, or a failure where the input
      was not collected. */
  ghost predicate ReportedAt(steps: seq<Step>, n: nat, i: nat, receipt: Receipt, outcome: Outcome) {
    && n < |steps| && steps[n].Work?
    && var phase := Run(steps[..n]).phase;
    || (phase == Sending(i, receipt) && outcome == steps[n].outcome)
    || (phase == Begun(i, receipt) && !steps[n].collected && outcome == UNCOLLECTED)
  }

  ghost predicate Reported(steps: seq<Step>, i: nat, receipt: Receipt, outcome: Outcome) {
    exists n: nat :: ReportedAt(steps, n, i, receipt, outcome)
  }

  /** Every readable result, and the one about to be written, was reported. */
  ghost predicate AllReported(steps: seq<Step>, x: System) {
    && (x.phase.Got? ==> Reported(steps, x.phase.i, x.phase.receipt, x.phase.outcome))
    && (forall i: nat :: i < x.reached && i < |PlanOf(x)| && ResultName(PlanOf(x)[i]) in x.files
                           && x.files[ResultName(PlanOf(x)[i])].Final? ==>
          Reported(steps, i, x.files[ResultName(PlanOf(x)[i])].receipt, x.files[ResultName(PlanOf(x)[i])].outcome))
  }

  lemma ReportedLonger(steps: seq<Step>, step: Step, i: nat, receipt: Receipt, outcome: Outcome)
    requires Reported(steps, i, receipt, outcome)
    ensures Reported(steps + [step], i, receipt, outcome)
  {
    hide Run;
    var n: nat :| ReportedAt(steps, n, i, receipt, outcome);
    assert (steps + [step])[..n] == steps[..n];
    assert ReportedAt(steps + [step], n, i, receipt, outcome);
  }

  lemma NewReport(steps: seq<Step>, step: Step, x: System)
    requires x == Run(steps) && Inv(x) && Next(x, step).phase.Got? && !x.phase.Got?
    ensures var phase := Next(x, step).phase; Reported(steps + [step], phase.i, phase.receipt, phase.outcome)
  {
    hide Run, Inv;
    var phase := Next(x, step).phase;
    assert (steps + [step])[..|steps|] == steps;
    assert ReportedAt(steps + [step], |steps|, phase.i, phase.receipt, phase.outcome);
  }

  /** A result file changes only when its task's result is written. */
  lemma ResultsStay(x: System, step: Step, i: nat)
    requires Inv(x) && GoodStep(step) && i < x.reached && i < |PlanOf(x)|
    ensures var y := Next(x, step);
            && PlanOf(y) == PlanOf(x) && i < y.reached
            && (ResultName(PlanOf(x)[i]) in y.files <==> ResultName(PlanOf(x)[i]) in x.files)
            && (ResultName(PlanOf(x)[i]) in x.files ==>
                  y.files[ResultName(PlanOf(x)[i])] == x.files[ResultName(PlanOf(x)[i])])
  {
    hide OutcomesOf, Sum, Load, Whole;
    var plan := PlanOf(x);
    if step.Work? || step.Tear? {
      if (x.phase.At? || x.phase.Got?) && x.phase.i < |plan| {
        OthersUnchanged(x.files, plan, x.phase.i, i, Torn, true);
        OthersUnchanged(x.files, plan, x.phase.i, i, Torn, false);
        NamesApart(plan[x.phase.i], plan[i]);
        if x.phase.At? {
          NameIndex(plan, x.reached, x.phase.i);
        }
      }
    }
  }

  lemma NewResult(steps: seq<Step>, step: Step, x: System, i: nat)
    requires x == Run(steps) && Inv(x) && GoodStep(step) && AllReported(steps, x)
    requires x.reached <= i < Next(x, step).reached && i < |PlanOf(Next(x, step))|
    ensures var y := Next(x, step);
            && ResultName(PlanOf(y)[i]) in y.files && y.files[ResultName(PlanOf(y)[i])].Final?
            && Reported(steps, i, y.files[ResultName(PlanOf(y)[i])].receipt, y.files[ResultName(PlanOf(y)[i])].outcome)
  {
    hide Run, OutcomesOf, Sum, Load, Reported;
  }

  lemma NextReported(steps: seq<Step>, step: Step, x: System)
    requires x == Run(steps) && Inv(x) && GoodStep(step) && AllReported(steps, x)
    ensures AllReported(steps + [step], Next(x, step))
  {
    hide Run, Inv, Next, Reported;
    var y := Next(x, step);
    if y.phase.Got? {
      if x.phase.Got? {
        GotStays(x, step);
        ReportedLonger(steps, step, y.phase.i, y.phase.receipt, y.phase.outcome);
      } else {
        NewReport(steps, step, x);
      }
    }
    forall i: nat | i < y.reached && i < |PlanOf(y)| && ResultName(PlanOf(y)[i]) in y.files && y.files[ResultName(PlanOf(y)[i])].Final?
      ensures Reported(steps + [step], i, y.files[ResultName(PlanOf(y)[i])].receipt, y.files[ResultName(PlanOf(y)[i])].outcome)
    {
      var file := y.files[ResultName(PlanOf(y)[i])];
      if i < x.reached {
        ReachedIsPlanned(x);
        ResultsStay(x, step, i);
      } else {
        NewResult(steps, step, x, i);
      }
      ReportedLonger(steps, step, i, file.receipt, file.outcome);
    }
  }

  lemma GotStays(x: System, step: Step)
    requires x.phase.Got? && Next(x, step).phase.Got?
    ensures Next(x, step).phase == x.phase
  {
  }

  lemma ReachedIsPlanned(x: System)
    requires Inv(x)
    ensures x.reached <= |PlanOf(x)|
  {
  }

  /** Every outcome that counts in the totals is what the worker reported for that task, or the failure of an input that
      was not collected. */
  lemma {:induction false} OutcomesAreReported(steps: seq<Step>)
    requires forall n :: 0 <= n < |steps| ==> GoodStep(steps[n])
    ensures AllReported(steps, Run(steps))
  {
    if steps != [] {
      var n := |steps| - 1;
      OutcomesAreReported(steps[..n]);
      AlwaysInv(steps[..n]);
      assert steps == steps[..n] + [steps[n]] && GoodStep(steps[n]);
      NextReported(steps[..n], steps[n], Run(steps[..n]));
    }
  }

  // ----- when a session stops -----

  /** After a result the session goes on with the next task exactly when the unknown attempts of the whole series are
      still below the limit and the outcome's code does not end it. */
  lemma GoesOnIff(x: System, step: Step)
    requires Inv(x) && x.phase.Got? && step.Work?
    ensures var y := WorkOn(x, step);
            var written := OutcomesOf(x.files, PlanOf(x)[..x.reached]) + [x.phase.outcome];
            && y.phase in {Off, At(x.phase.i + 1)} && y.totals == Sum(written)
            && (y.phase.At? <==> SumOf(UnknownOf, written) < step.limit && !x.phase.outcome.stops)
  {
    hide OutcomesOf;
    var written := OutcomesOf(x.files, PlanOf(x)[..x.reached]) + [x.phase.outcome];
    SumSnoc(OutcomesOf(x.files, PlanOf(x)[..x.reached]), x.phase.outcome);
    SumIs(written);
  }
}
