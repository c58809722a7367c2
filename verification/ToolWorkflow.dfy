/** The bounded tool-calling loop, driven by an arbitrary provider. A turn of the provider, the clock and the
    cancel flag is one value; a run is any sequence of turns. */
module ToolWorkflow {
  import opened Prelude

  datatype Limits = Limits(modelCalls: nat, toolCalls: nat, toolSteps: nat, inputTokens: nat, outputTokens: nat)

  predicate ValidLimits(limits: Limits) {
    && 1 <= limits.modelCalls <= 4 && 1 <= limits.toolCalls <= 6 && 1 <= limits.toolSteps <= 3
    && 1 <= limits.inputTokens <= 12000 && 1 <= limits.outputTokens <= 3000
  }

  datatype Runbook = Runbook(id: string, version: string, section: string, digest: string)

  /** What a tool gives back; only a runbook search has matches. */
  datatype Output = Output(text: string, matches: seq<Runbook>)

  /** A requested call; `request` is its namespace, name and argument text. */
  datatype Call = Call(id: string, request: string)

  /** A section of a runbook, as a report names it. */
  datatype Section = Section(id: string, version: string, title: string)

  /** `cited` holds the runbook identifiers found in a report's text, `sections` what the text says about them. */
  datatype Report = Report(text: string, cited: set<string>, sections: set<Section>)

  /** The snapshot gateway and the report check, as functions: `sign` reads the arguments and fingerprints the
      request, `answer` executes it, `read` parses and validates a report. */
  datatype Workflow = Workflow(limits: Limits, sign: Call -> Result<string, string>, answer: Call -> Result<Output, string>,
                               read: string -> Result<Report, string>, discussion: bool)

  datatype Reply = Failure(code: string)
                 | Reply(text: string, input: int, output: int, calls: seq<Call>, items: seq<string>)

  datatype Interruption = CancelFlag | WallClock

  /** One turn of the environment: interruptions seen before the request, after the reply and while the outputs are
      handed over (before output number `cut.value.0`), the three input estimates, and the reply. */
  datatype Turn = Turn(before: Option<Interruption>, planning: nat, closing: nat, reserve: nat, reply: Reply,
                       after: Option<Interruption>, cut: Option<(nat, Interruption)>)

  datatype Code = Cancelled | Deadline | InputBudget | UsageInvalid | UsageBudget | UnexpectedToolCall | ToolBudget
                | RepeatedToolCall | ContinuationMissing | InvalidReport | ModelBudget | Reported(text: string)

  datatype Outcome = Running | Stopped(code: Code) | Completed(report: Report)

  datatype Entry = Packet | Item(text: string) | CallOutput(id: string, text: string) | RepairNote(code: string)

  datatype Usage = Usage(modelCalls: nat, toolCalls: nat, toolSteps: nat, input: nat, output: nat, unaccounted: nat,
                         reserved: nat)

  /** The log. A request keeps what was known when it was sent. */
  datatype Event = FollowupReserved
                 | Requested(attempt: nat, finalOnly: bool, turn: Turn, known: Usage, repaired: bool)
                 | ToolRejected(code: string)
                 | ToolCompleted(call: Call)
                 | ReportRejected(code: string)

  /** `executed` lists the calls the gateway has run; `shown` those whose output the model gets to see. */
  datatype State = State(usage: Usage, history: seq<Entry>, seenCalls: set<string>, seenRequests: set<string>,
                         consulted: seq<Runbook>, repairUsed: bool, events: seq<Event>, executed: seq<Call>,
                         shown: seq<Call>, outcome: Outcome)

  const START := State(Usage(0, 0, 0, 0, 0, 0, 0), [Packet], {}, {}, [], false, [], [], [], Running)
  const MARGIN := 2000

  function Stop(s: State, code: Code): State {
    s.(outcome := Stopped(code))
  }

  function Interrupt(s: State, i: Interruption): State {
    Stop(s, if i.CancelFlag? then Cancelled else Deadline)
  }

  // ----- asking the model -----

  /** A follow-up whose planning turn and answer cannot both fit answers at once. */
  predicate FollowupTight(w: Workflow, n: nat, t: Turn) {
    n == 0 && w.discussion && t.planning + t.closing > w.limits.inputTokens
  }

  /** Tools are withheld from this request. */
  predicate FinalOnly(w: Workflow, usage: Usage, repaired: bool, n: nat, t: Turn) {
    || n == w.limits.modelCalls - 1
    || usage.toolSteps >= w.limits.toolSteps
    || usage.toolCalls >= w.limits.toolCalls
    || repaired
    || FollowupTight(w, n, t)
    || (n > 0 && usage.input + 2 * t.planning + MARGIN > w.limits.inputTokens)
  }

  function Request(w: Workflow, s: State, n: nat, t: Turn): State {
    var finalOnly := FinalOnly(w, s.usage, s.repairUsed, n, t);
    s.(events := s.events + (if FollowupTight(w, n, t) then [FollowupReserved] else [])
                          + [Requested(n + 1, finalOnly, t, s.usage, s.repairUsed)],
       usage := s.usage.(modelCalls := s.usage.modelCalls + 1, reserved := s.usage.reserved + t.reserve))
  }

  /** The request, the reply and its accounting. */
  function Ask(w: Workflow, s: State, n: nat, t: Turn): State {
    if t.before.Some? then Interrupt(s, t.before.value)
    else if t.reserve + s.usage.input > w.limits.inputTokens then
      Stop(s.(events := s.events + if FollowupTight(w, n, t) then [FollowupReserved] else []), InputBudget)
    else
      var asked := Request(w, s, n, t);
      var unaccounted := asked.(usage := asked.usage.(unaccounted := asked.usage.unaccounted + 1));
      match t.reply
      case Failure(code) => Stop(unaccounted, Reported(code))
      case Reply(_, input, output, _, _) =>
        if input < 0 || output < 0 then Stop(unaccounted, UsageInvalid)
        else
          var counted := asked.(usage := asked.usage.(input := asked.usage.input + input, output := asked.usage.output + output));
          if t.after.Some? then Interrupt(counted, t.after.value)
          else if counted.usage.input > w.limits.inputTokens || counted.usage.output > w.limits.outputTokens then
            Stop(counted, UsageBudget)
          else counted
  }

  // ----- a batch of tool calls -----

  datatype Fault = Fault(code: Code, logged: Option<string>)

  /** What checking a batch did: the calls that were executed, their outputs, and the fault that ended it. */
  datatype Checked = Checked(ran: seq<Call>, outputs: seq<Output>, fault: Option<Fault>)

  function Check(w: Workflow, ids: set<string>, signatures: set<string>, calls: seq<Call>): (c: Checked)
    ensures |c.ran| == |c.outputs| && c.ran <= calls
    ensures c.fault.None? ==> c.ran == calls
    decreases |calls|
  {
    if calls == [] then Checked([], [], None)
    else
      match w.sign(calls[0])
      case Err(code) => Checked([], [], Some(Fault(Reported(code), None)))
      case Ok(signature) =>
        if calls[0].id in ids || signature in signatures then Checked([], [], Some(Fault(RepeatedToolCall, None)))
        else
          match w.answer(calls[0])
          case Err(code) => Checked([], [], Some(Fault(Reported(code), Some(code))))
          case Ok(output) =>
            var rest := Check(w, ids + {calls[0].id}, signatures + {signature}, calls[1..]);
            assert calls == [calls[0]] + calls[1..];
            Checked([calls[0]] + rest.ran, [output] + rest.outputs, rest.fault)
  }

  function Signature(w: Workflow, call: Call): string {
    match w.sign(call)
    case Ok(signature) => signature
    case Err(_) => ""
  }

  function Answer(w: Workflow, call: Call): Output {
    match w.answer(call)
    case Ok(output) => output
    case Err(_) => Output("", [])
  }

  function Consult(consulted: seq<Runbook>, matches: seq<Runbook>): seq<Runbook> {
    if matches == [] then consulted
    else
      var before := Consult(consulted, matches[..|matches| - 1]);
      var last := matches[|matches| - 1];
      if last in before then before else before + [last]
  }

  function Show(w: Workflow, s: State, call: Call, output: Output): State {
    s.(usage := s.usage.(toolCalls := s.usage.toolCalls + 1),
       seenCalls := s.seenCalls + {call.id},
       seenRequests := s.seenRequests + {Signature(w, call)},
       consulted := Consult(s.consulted, output.matches),
       history := s.history + [CallOutput(call.id, output.text)],
       events := s.events + [ToolCompleted(call)],
       shown := s.shown + [call])
  }

  function ShowAll(w: Workflow, s: State, calls: seq<Call>, outputs: seq<Output>): State
    requires |calls| <= |outputs|
  {
    if calls == [] then s
    else
      var n := |calls| - 1;
      Show(w, ShowAll(w, s, calls[..n], outputs), calls[n], outputs[n])
  }

  function ItemEntries(items: seq<string>): seq<Entry> {
    seq(|items|, i requires 0 <= i < |items| => Item(items[i]))
  }

  /** An admitted batch: the reply joins the history, then each output, unless the run is interrupted. */
  function HandOver(w: Workflow, s: State, reply: Reply, outputs: seq<Output>, cut: Option<(nat, Interruption)>): State
    requires reply.Reply? && |reply.calls| <= |outputs|
  {
    var continued := s.(history := s.history + ItemEntries(reply.items),
                        usage := s.usage.(toolSteps := s.usage.toolSteps + 1));
    if cut.Some? && cut.value.0 < |reply.calls| then
      Interrupt(ShowAll(w, continued, reply.calls[..cut.value.0], outputs), cut.value.1)
    else ShowAll(w, continued, reply.calls, outputs)
  }

  function UseTools(w: Workflow, s: State, finalOnly: bool, t: Turn): State
    requires t.reply.Reply?
  {
    var calls := t.reply.calls;
    if finalOnly then Stop(s, UnexpectedToolCall)
    else if s.usage.toolCalls + |calls| > w.limits.toolCalls then Stop(s, ToolBudget)
    else
      var checked := Check(w, s.seenCalls, s.seenRequests, calls);
      var ran := s.(executed := s.executed + checked.ran);
      if checked.fault.Some? then
        Stop(ran.(events := ran.events + Logged(checked.fault.value)), checked.fault.value.code)
      else if t.reply.items == [] then Stop(ran, ContinuationMissing)
      else HandOver(w, ran, t.reply, checked.outputs, t.cut)
  }

  function Logged(fault: Fault): seq<Event> {
    match fault.logged
    case None => []
    case Some(code) => [ToolRejected(code)]
  }

  // ----- a report -----

  ghost function Ids(runbooks: seq<Runbook>): set<string> {
    set r | r in runbooks :: r.id
  }

  predicate CitesRead(report: Report, consulted: seq<Runbook>) {
    forall id :: id in report.cited ==> exists i :: 0 <= i < |consulted| && consulted[i].id == id
  }

  function ReadReport(w: Workflow, s: State, text: string): Result<Report, string> {
    match w.read(text)
    case Err(code) => Err(code)
    case Ok(report) => if CitesRead(report, s.consulted) then Ok(report) else Err("REPORT_UNREAD_RUNBOOK_REFERENCE")
  }

  function Conclude(w: Workflow, s: State, text: string): State {
    match ReadReport(w, s, text)
    case Ok(report) => s.(outcome := Completed(report))
    case Err(code) =>
      var noted := s.(events := s.events + [ReportRejected(code)]);
      if s.repairUsed then Stop(noted, InvalidReport)
      else noted.(repairUsed := true, history := s.history + [RepairNote(code)])
  }

  // ----- the loop -----

  function Turned(w: Workflow, s: State, n: nat, t: Turn): State {
    var asked := Ask(w, s, n, t);
    if !asked.outcome.Running? || !t.reply.Reply? then asked
    else if t.reply.calls != [] then UseTools(w, asked, FinalOnly(w, s.usage, s.repairUsed, n, t), t)
    else Conclude(w, asked, t.reply.text)
  }

  /** The state after n iterations; a run that has stopped stays as it is. */
  function After(w: Workflow, turns: nat -> Turn, n: nat): State {
    if n == 0 then START
    else
      var s := After(w, turns, n - 1);
      if s.outcome.Running? then Turned(w, s, n - 1, turns(n - 1)) else s
  }

  function Finish(s: State): State {
    if s.outcome.Running? then Stop(s, ModelBudget) else s
  }

  /** The whole run. */
  function Run(w: Workflow, turns: nat -> Turn): State {
    Finish(After(w, turns, w.limits.modelCalls))
  }

  // ----- the loop as the program runs it -----

  ghost predicate Pending(w: Workflow, ids: set<string>, signatures: set<string>, calls: seq<Call>, n: nat,
                          ran: seq<Call>, outputs: seq<Output>, ids': set<string>, signatures': set<string>)
    requires n <= |calls|
  {
    var rest := Check(w, ids', signatures', calls[n..]);
    && ran == calls[..n] && |outputs| == n
    && Check(w, ids, signatures, calls) == Checked(ran + rest.ran, outputs + rest.outputs, rest.fault)
  }

  lemma PendingStep(w: Workflow, ids: set<string>, signatures: set<string>, calls: seq<Call>, n: nat,
                    ran: seq<Call>, outputs: seq<Output>, ids': set<string>, signatures': set<string>)
    requires n < |calls| && Pending(w, ids, signatures, calls, n, ran, outputs, ids', signatures')
    requires w.sign(calls[n]).Ok? && w.answer(calls[n]).Ok?
    requires calls[n].id !in ids' && Signature(w, calls[n]) !in signatures'
    ensures Pending(w, ids, signatures, calls, n + 1, ran + [calls[n]], outputs + [Answer(w, calls[n])],
                    ids' + {calls[n].id}, signatures' + {Signature(w, calls[n])})
  {
    assert calls[n..][1..] == calls[n + 1..];
    var rest := Check(w, ids' + {calls[n].id}, signatures' + {Signature(w, calls[n])}, calls[n + 1..]);
    assert Check(w, ids', signatures', calls[n..])
        == Checked([calls[n]] + rest.ran, [Answer(w, calls[n])] + rest.outputs, rest.fault);
    assert ran + ([calls[n]] + rest.ran) == (ran + [calls[n]]) + rest.ran;
    assert outputs + ([Answer(w, calls[n])] + rest.outputs) == (outputs + [Answer(w, calls[n])]) + rest.outputs;
  }

  method CheckBatch(w: Workflow, ids: set<string>, signatures: set<string>, calls: seq<Call>) returns (c: Checked)
    ensures c == Check(w, ids, signatures, calls)
  {
    var batchIds: set<string>, batchSignatures: set<string>, ran, outputs := {}, {}, [], [];
    assert ids + {} == ids && signatures + {} == signatures && calls[0..] == calls;
    for n := 0 to |calls|
      invariant Pending(w, ids, signatures, calls, n, ran, outputs, ids + batchIds, signatures + batchSignatures)
    {
      var call := calls[n];
      match w.sign(call) {
        case Err(code) =>
          return Checked(ran, outputs, Some(Fault(Reported(code), None)));
        case Ok(signature) =>
          if call.id in ids + batchIds || signature in signatures + batchSignatures {
            return Checked(ran, outputs, Some(Fault(RepeatedToolCall, None)));
          }
          match w.answer(call) {
            case Err(code) =>
              return Checked(ran, outputs, Some(Fault(Reported(code), Some(code))));
            case Ok(output) =>
              PendingStep(w, ids, signatures, calls, n, ran, outputs, ids + batchIds, signatures + batchSignatures);
              assert ids + batchIds + {call.id} == ids + (batchIds + {call.id});
              assert signatures + batchSignatures + {signature} == signatures + (batchSignatures + {signature});
              ran, outputs := ran + [call], outputs + [output];
              batchIds, batchSignatures := batchIds + {call.id}, batchSignatures + {signature};
          }
      }
    }
    c := Checked(ran, outputs, None);
  }

  method ShowOutputs(w: Workflow, s: State, calls: seq<Call>, outputs: seq<Output>, cut: Option<(nat, Interruption)>)
    returns (r: State)
    requires |calls| == |outputs|
    ensures r == if cut.Some? && cut.value.0 < |calls|
                 then Interrupt(ShowAll(w, s, calls[..cut.value.0], outputs), cut.value.1)
                 else ShowAll(w, s, calls, outputs)
  {
    r := s;
    for n := 0 to |calls|
      invariant r == ShowAll(w, s, calls[..n], outputs)
      invariant cut.Some? ==> n <= cut.value.0
    {
      if cut.Some? && cut.value.0 == n {
        return Interrupt(r, cut.value.1);
      }
      assert calls[..n + 1][..n] == calls[..n];
      r := Show(w, r, calls[n], outputs[n]);
    }
    assert calls[..|calls|] == calls;
  }

  method RunWithTools(w: Workflow, turns: nat -> Turn) returns (s: State)
    requires ValidLimits(w.limits)
    ensures s == Run(w, turns)
  {
    hide Ask, UseTools, ReadReport;
    s := START;
    for n := 0 to w.limits.modelCalls
      invariant s == After(w, turns, n) && s.outcome.Running?
    {
      var t := turns(n);
      var finalOnly := FinalOnly(w, s.usage, s.repairUsed, n, t);
      ghost var before := s;
      s := Ask(w, s, n, t);
      if s.outcome.Running? && t.reply.Reply? {
        if t.reply.calls != [] {
          s := RunTools(w, s, finalOnly, t);
        } else {
          s := Conclude(w, s, t.reply.text);
        }
      }
      assert s == Turned(w, before, n, t);
      if !s.outcome.Running? {
        StaysStopped(w, turns, n + 1, w.limits.modelCalls);
        return;
      }
    }
    s := Stop(s, ModelBudget);
  }

  method RunTools(w: Workflow, s: State, finalOnly: bool, t: Turn) returns (r: State)
    requires t.reply.Reply?
    ensures r == UseTools(w, s, finalOnly, t)
  {
    if finalOnly {
      return Stop(s, UnexpectedToolCall);
    }
    if s.usage.toolCalls + |t.reply.calls| > w.limits.toolCalls {
      return Stop(s, ToolBudget);
    }
    var checked := CheckBatch(w, s.seenCalls, s.seenRequests, t.reply.calls);
    r := s.(executed := s.executed + checked.ran);
    if checked.fault.Some? {
      return Stop(r.(events := r.events + Logged(checked.fault.value)), checked.fault.value.code);
    }
    if t.reply.items == [] {
      return Stop(r, ContinuationMissing);
    }
    r := r.(history := r.history + ItemEntries(t.reply.items), usage := r.usage.(toolSteps := r.usage.toolSteps + 1));
    r := ShowOutputs(w, r, t.reply.calls, checked.outputs, t.cut);
  }

  lemma {:induction false} StaysStopped(w: Workflow, turns: nat -> Turn, m: nat, n: nat)
    requires m <= n && !After(w, turns, m).outcome.Running?
    ensures After(w, turns, n) == After(w, turns, m)
  {
    if m < n {
      StaysStopped(w, turns, m, n - 1);
    }
  }

  // ----- batches -----

  ghost function CallIds(calls: seq<Call>): set<string> {
    set c | c in calls :: c.id
  }

  ghost function Signatures(w: Workflow, calls: seq<Call>): set<string> {
    set c | c in calls :: Signature(w, c)
  }

  /** Every call can be read and answered, and no identifier or request occurs twice. */
  ghost predicate Unrepeated(w: Workflow, calls: seq<Call>) {
    && (forall i :: 0 <= i < |calls| ==> w.sign(calls[i]).Ok? && w.answer(calls[i]).Ok?)
    && (forall i, j :: 0 <= i < j < |calls| ==> calls[i].id != calls[j].id && Signature(w, calls[i]) != Signature(w, calls[j]))
  }

  ghost predicate Apart(w: Workflow, ids: set<string>, signatures: set<string>, calls: seq<Call>) {
    CallIds(calls) !! ids && Signatures(w, calls) !! signatures
  }

  function Answers(w: Workflow, calls: seq<Call>): seq<Output> {
    seq(|calls|, i requires 0 <= i < |calls| => Answer(w, calls[i]))
  }

  ghost predicate Differs(w: Workflow, first: Call, rest: seq<Call>) {
    forall i :: 0 <= i < |rest| ==> rest[i].id != first.id && Signature(w, rest[i]) != Signature(w, first)
  }

  lemma UnrepeatedCons(w: Workflow, first: Call, rest: seq<Call>)
    requires w.sign(first).Ok? && w.answer(first).Ok?
    ensures Unrepeated(w, [first] + rest) <==> Unrepeated(w, rest) && Differs(w, first, rest)
  {
    var calls := [first] + rest;
    assert forall i :: 0 <= i < |rest| ==> rest[i] == calls[i + 1];
    if Unrepeated(w, calls) {
      forall i | 0 <= i < |rest|
        ensures rest[i].id != first.id && Signature(w, rest[i]) != Signature(w, first)
      {
        assert calls[0].id != calls[i + 1].id && Signature(w, calls[0]) != Signature(w, calls[i + 1]);
      }
    }
  }

  lemma ApartCons(w: Workflow, ids: set<string>, signatures: set<string>, first: Call, rest: seq<Call>)
    requires first.id !in ids && Signature(w, first) !in signatures
    ensures Differs(w, first, rest) && Apart(w, ids, signatures, [first] + rest)
            <==> Apart(w, ids + {first.id}, signatures + {Signature(w, first)}, rest)
  {
    assert CallIds([first] + rest) == {first.id} + CallIds(rest);
    assert Signatures(w, [first] + rest) == {Signature(w, first)} + Signatures(w, rest);
    DiffersIff(w, first, rest);
  }

  lemma DiffersIff(w: Workflow, first: Call, rest: seq<Call>)
    ensures Differs(w, first, rest) <==> first.id !in CallIds(rest) && Signature(w, first) !in Signatures(w, rest)
  {
    forall i | 0 <= i < |rest|
      ensures rest[i].id in CallIds(rest) && Signature(w, rest[i]) in Signatures(w, rest)
    {
      assert rest[i] in rest;
    }
  }

  lemma FirstApart(w: Workflow, ids: set<string>, signatures: set<string>, calls: seq<Call>)
    requires calls != [] && w.sign(calls[0]).Ok? && w.answer(calls[0]).Ok?
    requires calls[0].id !in ids && Signature(w, calls[0]) !in signatures
    ensures Unrepeated(w, calls) && Apart(w, ids, signatures, calls)
            <==> Unrepeated(w, calls[1..])
                 && Apart(w, ids + {calls[0].id}, signatures + {Signature(w, calls[0])}, calls[1..])
  {
    assert calls == [calls[0]] + calls[1..];
    UnrepeatedCons(w, calls[0], calls[1..]);
    ApartCons(w, ids, signatures, calls[0], calls[1..]);
  }

  /** The calls a batch executes are fresh, unrepeated and answered, whether or not the batch is admitted. */
  lemma {:induction false} CheckSound(w: Workflow, ids: set<string>, signatures: set<string>, calls: seq<Call>)
    ensures var c := Check(w, ids, signatures, calls);
            Unrepeated(w, c.ran) && Apart(w, ids, signatures, c.ran) && c.outputs == Answers(w, c.ran)
    decreases |calls|
  {
    var c := Check(w, ids, signatures, calls);
    if c.ran != [] {
      var ids', signatures' := ids + {calls[0].id}, signatures + {Signature(w, calls[0])};
      CheckSound(w, ids', signatures', calls[1..]);
      assert c.ran[1..] == Check(w, ids', signatures', calls[1..]).ran;
      assert c.outputs == [Answer(w, calls[0])] + Answers(w, c.ran[1..]);
      FirstApart(w, ids, signatures, c.ran);
    }
  }

  /** A call that can be read and answered, with an identifier and a request that are new. */
  predicate Usable(w: Workflow, ids: set<string>, signatures: set<string>, call: Call) {
    w.sign(call).Ok? && w.answer(call).Ok? && call.id !in ids && Signature(w, call) !in signatures
  }

  ghost predicate Admissible(w: Workflow, ids: set<string>, signatures: set<string>, calls: seq<Call>) {
    Unrepeated(w, calls) && Apart(w, ids, signatures, calls)
  }

  lemma AdmissibleFirst(w: Workflow, ids: set<string>, signatures: set<string>, calls: seq<Call>)
    requires calls != []
    ensures Admissible(w, ids, signatures, calls)
            <==> Usable(w, ids, signatures, calls[0])
                 && Admissible(w, ids + {calls[0].id}, signatures + {Signature(w, calls[0])}, calls[1..])
  {
    assert calls[0].id in CallIds(calls) && Signature(w, calls[0]) in Signatures(w, calls);
    if Usable(w, ids, signatures, calls[0]) {
      FirstApart(w, ids, signatures, calls);
    }
  }

  lemma RanFirst(w: Workflow, ids: set<string>, signatures: set<string>, calls: seq<Call>)
    requires calls != []
    ensures |Check(w, ids, signatures, calls).ran|
            == if Usable(w, ids, signatures, calls[0])
               then 1 + |Check(w, ids + {calls[0].id}, signatures + {Signature(w, calls[0])}, calls[1..]).ran| else 0
  {
  }

  /** A batch is admitted exactly when all of its calls are readable, answerable, fresh and unrepeated. */
  lemma {:induction false} BatchAdmittedIff(w: Workflow, ids: set<string>, signatures: set<string>, calls: seq<Call>)
    ensures Check(w, ids, signatures, calls).fault.None? <==> Admissible(w, ids, signatures, calls)
    decreases |calls|
  {
    if calls != [] {
      AdmissibleFirst(w, ids, signatures, calls);
      hide Admissible;
      BatchAdmittedIff(w, ids + {calls[0].id}, signatures + {Signature(w, calls[0])}, calls[1..]);
    }
  }

  lemma NoneAdmissible(w: Workflow, ids: set<string>, signatures: set<string>, calls: seq<Call>)
    requires calls == []
    ensures Admissible(w, ids, signatures, calls)
  {
  }

  /** Call number k of a batch is executed exactly when the batch up to and including it would be admitted. */
  lemma {:induction false} BatchRunsIff(w: Workflow, ids: set<string>, signatures: set<string>, calls: seq<Call>, k: nat)
    requires k < |calls|
    ensures k < |Check(w, ids, signatures, calls).ran| <==> Admissible(w, ids, signatures, calls[..k + 1])
    decreases k
  {
    hide Admissible, Check, Usable, Signature;
    var first, front := calls[0], calls[..k + 1];
    var ids', signatures' := ids + {first.id}, signatures + {Signature(w, first)};
    assert front[0] == first;
    assert front[1..] == calls[1..][..k];
    AdmissibleFirst(w, ids, signatures, front);
    RanFirst(w, ids, signatures, calls);
    if k == 0 {
      NoneAdmissible(w, ids', signatures', front[1..]);
    } else {
      BatchRunsIff(w, ids', signatures', calls[1..], k - 1);
    }
  }

  /** Checking is not separate from executing. That a rejected batch has executed nothing holds exactly for the batches
      that are admitted or whose very first call cannot be used. */
  lemma ValidatedFirstIff(w: Workflow, ids: set<string>, signatures: set<string>, calls: seq<Call>)
    requires calls != []
    ensures var c := Check(w, ids, signatures, calls);
            (c.fault.Some? ==> c.ran == [])
            <==> Admissible(w, ids, signatures, calls) || !Usable(w, ids, signatures, calls[0])
  {
    BatchAdmittedIff(w, ids, signatures, calls);
  }

  // ----- what one iteration keeps -----

  function OutputOf(e: Entry): seq<Entry> {
    if e.CallOutput? then [e] else []
  }

  function RequestOf(e: Event): seq<Event> {
    if e.Requested? then [e] else []
  }

  function RejectionOf(e: Event): seq<Event> {
    if e.ReportRejected? then [e] else []
  }

  function Outputs(history: seq<Entry>): seq<Entry> {
    FlatMap(OutputOf, history)
  }

  function Requests(events: seq<Event>): seq<Event> {
    FlatMap(RequestOf, events)
  }

  function Rejections(events: seq<Event>): seq<Event> {
    FlatMap(RejectionOf, events)
  }

  function Replies(w: Workflow, calls: seq<Call>): seq<Entry> {
    seq(|calls|, i requires 0 <= i < |calls| => CallOutput(calls[i].id, Answer(w, calls[i]).text))
  }

  ghost function MatchesOf(w: Workflow, calls: seq<Call>): set<Runbook> {
    set c, r | c in calls && r in Answer(w, c).matches :: r
  }

  function MatchedBy(w: Workflow): Call -> seq<Runbook> {
    (c: Call) => Answer(w, c).matches
  }

  /** The matches of these calls, one after the other. */
  function MatchList(w: Workflow, calls: seq<Call>): seq<Runbook> {
    FlatMap(MatchedBy(w), calls)
  }

  lemma {:induction false} ConsultAppend(consulted: seq<Runbook>, a: seq<Runbook>, b: seq<Runbook>)
    ensures Consult(consulted, a + b) == Consult(Consult(consulted, a), b)
  {
    if b == [] {
      assert a + b == a;
    } else {
      ConsultAppend(consulted, a, b[..|b| - 1]);
      assert (a + b)[..|a + b| - 1] == a + b[..|b| - 1];
    }
  }

  lemma {:induction false} ConsultMembers(consulted: seq<Runbook>, matches: seq<Runbook>)
    ensures Members(Consult(consulted, matches)) == Members(consulted) + Members(matches)
  {
    if matches != [] {
      var n := |matches| - 1;
      ConsultMembers(consulted, matches[..n]);
      assert matches == matches[..n] + [matches[n]];
      var before := Consult(consulted, matches[..n]);
      assert matches[n] in before <==> matches[n] in Members(before);
      assert Members(before + [matches[n]]) == Members(before) + {matches[n]};
      assert Members(matches) == Members(matches[..n]) + {matches[n]};
    }
  }

  lemma LastCall(w: Workflow, calls: seq<Call>)
    requires calls != []
    ensures var n := |calls| - 1;
            && CallIds(calls) == CallIds(calls[..n]) + {calls[n].id}
            && Signatures(w, calls) == Signatures(w, calls[..n]) + {Signature(w, calls[n])}
            && MatchesOf(w, calls) == MatchesOf(w, calls[..n]) + Members(Answer(w, calls[n]).matches)
            && Replies(w, calls) == Replies(w, calls[..n]) + [CallOutput(calls[n].id, Answer(w, calls[n]).text)]
  {
    var n := |calls| - 1;
    assert calls == calls[..n] + [calls[n]];
  }

  /** What has been seen, shown and consulted is what the shown calls say. */
  ghost predicate Tallied(w: Workflow, s: State) {
    && |s.shown| == s.usage.toolCalls
    && s.seenCalls == CallIds(s.shown) && s.seenRequests == Signatures(w, s.shown)
    && Outputs(s.history) == Replies(w, s.shown)
    && Members(s.consulted) == MatchesOf(w, s.shown) && s.consulted == Consult([], MatchList(w, s.shown))
  }

  /** The parts of a state that concern tool calls. */
  ghost predicate Tidy(w: Workflow, s: State) {
    Unrepeated(w, s.executed) && s.shown <= s.executed && Tallied(w, s)
  }

  lemma ShowKeeps(w: Workflow, s: State, call: Call)
    requires Tallied(w, s)
    ensures Tallied(w, Show(w, s, call, Answer(w, call)))
  {
    var output := Answer(w, call);
    var r := Show(w, s, call, output);
    assert r.shown[..|r.shown| - 1] == s.shown;
    LastCall(w, r.shown);
    ConsultMembers(s.consulted, output.matches);
    ConsultAppend([], MatchList(w, s.shown), output.matches);
    FlatMapAppend(OutputOf, s.history, [CallOutput(call.id, output.text)]);
    FlatMapOne(OutputOf, CallOutput(call.id, output.text));
  }

  /** Everything but the tool bookkeeping is untouched while outputs are handed over. */
  ghost predicate OnlyShows(s: State, r: State) {
    && r.usage == s.usage.(toolCalls := r.usage.toolCalls)
    && r.executed == s.executed && r.repairUsed == s.repairUsed && r.outcome == s.outcome
    && Requests(r.events) == Requests(s.events) && Rejections(r.events) == Rejections(s.events)
  }

  lemma AnswersFront(w: Workflow, calls: seq<Call>, outputs: seq<Output>)
    requires calls != [] && |calls| <= |outputs| && outputs[..|calls|] == Answers(w, calls)
    ensures var n := |calls| - 1;
            outputs[..n] == Answers(w, calls[..n]) && outputs[n] == Answer(w, calls[n])
  {
    var n := |calls| - 1;
    assert outputs[..n] == outputs[..|calls|][..n];
    assert outputs[n] == outputs[..|calls|][n];
  }

  lemma {:induction false} ShowAllKeeps(w: Workflow, s: State, calls: seq<Call>, outputs: seq<Output>)
    requires |calls| <= |outputs| && outputs[..|calls|] == Answers(w, calls) && Tallied(w, s)
    ensures Tallied(w, ShowAll(w, s, calls, outputs))
  {
    if calls != [] {
      hide Tallied, Answers;
      var n := |calls| - 1;
      AnswersFront(w, calls, outputs);
      ShowAllKeeps(w, s, calls[..n], outputs);
      ShowKeeps(w, ShowAll(w, s, calls[..n], outputs), calls[n]);
    }
  }

  lemma {:induction false} ShowAllShown(w: Workflow, s: State, calls: seq<Call>, outputs: seq<Output>)
    requires |calls| <= |outputs|
    ensures ShowAll(w, s, calls, outputs).shown == s.shown + calls
  {
    if calls != [] {
      ShowAllShown(w, s, calls[..|calls| - 1], outputs);
      assert calls == calls[..|calls| - 1] + [calls[|calls| - 1]];
    }
  }

  lemma {:induction false} ItemsAreNoOutputs(items: seq<string>)
    ensures Outputs(ItemEntries(items)) == []
  {
    if items != [] {
      var n := |items| - 1;
      ItemsAreNoOutputs(items[..n]);
      assert ItemEntries(items)[..n] == ItemEntries(items[..n]);
    }
  }

  lemma AppendUnrepeated(w: Workflow, a: seq<Call>, b: seq<Call>)
    requires Unrepeated(w, a) && Unrepeated(w, b) && Apart(w, CallIds(a), Signatures(w, a), b)
    ensures Unrepeated(w, a + b)
  {
    forall i, j | 0 <= i < |a| && 0 <= j < |b|
      ensures a[i].id != b[j].id && Signature(w, a[i]) != Signature(w, b[j])
    {
      assert a[i].id in CallIds(a) && b[j].id in CallIds(b);
      assert Signature(w, a[i]) in Signatures(w, a) && Signature(w, b[j]) in Signatures(w, b);
    }
  }

  lemma RanKeeps(w: Workflow, s: State, calls: seq<Call>)
    requires Tidy(w, s) && s.shown == s.executed
    ensures var ran := Check(w, s.seenCalls, s.seenRequests, calls).ran;
            Unrepeated(w, s.executed + ran) && Tidy(w, s.(executed := s.executed + ran))
  {
    CheckSound(w, s.seenCalls, s.seenRequests, calls);
    AppendUnrepeated(w, s.executed, Check(w, s.seenCalls, s.seenRequests, calls).ran);
  }

  lemma AdmittedKeeps(w: Workflow, s: State, items: seq<string>, calls: seq<Call>, outputs: seq<Output>, k: nat)
    requires Tidy(w, s) && s.executed == s.shown + calls && k <= |calls| && outputs == Answers(w, calls)
    ensures var continued := s.(history := s.history + ItemEntries(items), usage := s.usage.(toolSteps := s.usage.toolSteps + 1));
            var r := ShowAll(w, continued, calls[..k], outputs);
            Tidy(w, r) && r.shown == s.shown + calls[..k] && OnlyShows(continued, r)
  {
    ItemsAreNoOutputs(items);
    FlatMapAppend(OutputOf, s.history, ItemEntries(items));
    var continued := s.(history := s.history + ItemEntries(items), usage := s.usage.(toolSteps := s.usage.toolSteps + 1));
    assert outputs[..k] == Answers(w, calls[..k]);
    ShowAllKeeps(w, continued, calls[..k], outputs);
    ShowAllShown(w, continued, calls[..k], outputs);
    ShowAllOnly(w, continued, calls[..k], outputs);
  }

  lemma HandOverKeeps(w: Workflow, s: State, reply: Reply, outputs: seq<Output>, cut: Option<(nat, Interruption)>)
    requires reply.Reply? && Tidy(w, s) && s.executed == s.shown + reply.calls && outputs == Answers(w, reply.calls)
    requires s.outcome.Running?
    ensures var r := HandOver(w, s, reply, outputs, cut);
            Tidy(w, r) && (r.outcome.Running? ==> r.shown == r.executed)
  {
    hide ShowAll, Unrepeated, Answers, Outputs, Replies, MatchesOf, CallIds, Signatures;
    var calls := reply.calls;
    var k := if cut.Some? && cut.value.0 < |calls| then cut.value.0 else |calls|;
    AdmittedKeeps(w, s, reply.items, calls, outputs, k);
    assert calls[..|calls|] == calls;
  }

  /** One tool turn keeps the bookkeeping; while the run goes on every executed call has been shown. */
  lemma UseToolsKeeps(w: Workflow, s: State, finalOnly: bool, t: Turn)
    requires t.reply.Reply? && Tidy(w, s) && s.shown == s.executed && s.outcome.Running?
    ensures var r := UseTools(w, s, finalOnly, t);
            Tidy(w, r) && (r.outcome.Running? ==> r.shown == r.executed)
  {
    var calls := t.reply.calls;
    var checked := Check(w, s.seenCalls, s.seenRequests, calls);
    RanKeeps(w, s, calls);
    CheckSound(w, s.seenCalls, s.seenRequests, calls);
    if checked.fault.None? {
      HandOverKeeps(w, s.(executed := s.executed + calls), t.reply, checked.outputs, t.cut);
    }
  }

  // ----- invariants of the loop -----

  predicate Affordable(w: Workflow, usage: Usage) {
    usage.input <= w.limits.inputTokens && usage.output <= w.limits.outputTokens && usage.unaccounted == 0
  }

  /** Call, step and token limits hold after n iterations. */
  ghost predicate Bounded(w: Workflow, s: State, n: nat) {
    && s.usage.modelCalls <= n && (s.outcome.Running? ==> s.usage.modelCalls == n)
    && s.usage.toolCalls <= w.limits.toolCalls && s.usage.toolSteps <= w.limits.toolSteps
    && (s.outcome.Running? || s.outcome.Completed? ==> Affordable(w, s.usage))
  }

  /** A request fits the input budget together with what is already spent, and offers tools exactly when allowed. */
  ghost predicate Lawful(w: Workflow, e: Event) {
    && e.Requested? && e.attempt >= 1
    && e.turn.reserve + e.known.input <= w.limits.inputTokens
    && (e.finalOnly <==> FinalOnly(w, e.known, e.repaired, e.attempt - 1, e.turn))
  }

  ghost predicate Sent(w: Workflow, s: State) {
    && |Requests(s.events)| == s.usage.modelCalls
    && forall i :: 0 <= i < |Requests(s.events)| ==> Lawful(w, Requests(s.events)[i]) && Requests(s.events)[i].attempt == i + 1
  }

  /** At most one repair; a second rejected report ends the run. */
  ghost predicate Mended(s: State) {
    && (s.outcome.Running? || s.outcome.Completed? ==> |Rejections(s.events)| == if s.repairUsed then 1 else 0)
    && (s.outcome == Stopped(InvalidReport) ==> |Rejections(s.events)| == 2)
    && |Rejections(s.events)| <= 2
  }

  ghost predicate Accepts(w: Workflow, text: string, report: Report, consulted: seq<Runbook>) {
    w.read(text) == Ok(report) && CitesRead(report, consulted)
  }

  ghost predicate Concluded(w: Workflow, s: State) {
    s.outcome.Completed? ==> exists text :: Accepts(w, text, s.outcome.report, s.consulted)
  }

  ghost predicate Inv(w: Workflow, s: State, n: nat) {
    && Tidy(w, s) && (s.outcome.Running? ==> s.shown == s.executed)
    && Bounded(w, s, n) && Sent(w, s) && Mended(s) && Concluded(w, s)
  }

  /** What asking leaves alone. */
  ghost predicate OnlyAsks(s: State, r: State) {
    && r.history == s.history && r.seenCalls == s.seenCalls && r.seenRequests == s.seenRequests
    && r.consulted == s.consulted && r.repairUsed == s.repairUsed && r.executed == s.executed && r.shown == s.shown
    && r.usage.toolCalls == s.usage.toolCalls && r.usage.toolSteps == s.usage.toolSteps
    && !r.outcome.Completed? && r.outcome != Stopped(InvalidReport) && r.outcome != Stopped(ModelBudget)
    && Rejections(r.events) == Rejections(s.events)
  }

  lemma FollowupLog(s: seq<Event>, tight: bool)
    ensures var log := s + if tight then [FollowupReserved] else [];
            Requests(log) == Requests(s) && Rejections(log) == Rejections(s)
  {
    FlatMapAppend(RequestOf, s, [FollowupReserved]);
    FlatMapOne(RequestOf, FollowupReserved);
    FlatMapAppend(RejectionOf, s, [FollowupReserved]);
    FlatMapOne(RejectionOf, FollowupReserved);
    assert s + [] == s;
  }

  lemma LogAppend(log: seq<Event>, e: Event)
    ensures Requests(log + [e]) == Requests(log) + RequestOf(e)
    ensures Rejections(log + [e]) == Rejections(log) + RejectionOf(e)
  {
    FlatMapAppend(RequestOf, log, [e]);
    FlatMapOne(RequestOf, e);
    FlatMapAppend(RejectionOf, log, [e]);
    FlatMapOne(RejectionOf, e);
  }

  lemma RequestKeeps(w: Workflow, s: State, n: nat, t: Turn)
    requires Sent(w, s) && s.usage.modelCalls == n && t.reserve + s.usage.input <= w.limits.inputTokens
    ensures Sent(w, Request(w, s, n, t)) && Rejections(Request(w, s, n, t).events) == Rejections(s.events)
  {
    var log := s.events + if FollowupTight(w, n, t) then [FollowupReserved] else [];
    var e := Requested(n + 1, FinalOnly(w, s.usage, s.repairUsed, n, t), t, s.usage, s.repairUsed);
    FollowupLog(s.events, FollowupTight(w, n, t));
    LogAppend(log, e);
    assert Requests(log + [e]) == Requests(s.events) + [e];
  }

  /** Asking spends at most one model call and leaves a lawful log. */
  lemma AskKeeps(w: Workflow, s: State, n: nat, t: Turn)
    requires Inv(w, s, n) && s.outcome.Running?
    ensures var r := Ask(w, s, n, t);
            && OnlyAsks(s, r) && Sent(w, r)
            && r.usage.modelCalls <= n + 1 && (r.outcome.Running? ==> r.usage.modelCalls == n + 1 && Affordable(w, r.usage))
  {
    hide Tidy, Concluded, Requests, Rejections, Lawful, Outputs;
    FollowupLog(s.events, FollowupTight(w, n, t));
    if t.reserve + s.usage.input <= w.limits.inputTokens {
      RequestKeeps(w, s, n, t);
    }
  }

  lemma {:induction false} ShowAllOnly(w: Workflow, s: State, calls: seq<Call>, outputs: seq<Output>)
    requires |calls| <= |outputs|
    ensures OnlyShows(s, ShowAll(w, s, calls, outputs))
    ensures ShowAll(w, s, calls, outputs).usage.toolCalls == s.usage.toolCalls + |calls|
  {
    if calls != [] {
      var n := |calls| - 1;
      ShowAllOnly(w, s, calls[..n], outputs);
      LogAppend(ShowAll(w, s, calls[..n], outputs).events, ToolCompleted(calls[n]));
    }
  }

  /** What a tool turn does to the counters and the log. */
  ghost predicate OnlyUses(w: Workflow, s: State, r: State) {
    && r.repairUsed == s.repairUsed
    && !r.outcome.Completed? && r.outcome != Stopped(InvalidReport) && r.outcome != Stopped(ModelBudget)
    && Requests(r.events) == Requests(s.events) && Rejections(r.events) == Rejections(s.events)
    && r.usage == s.usage.(toolCalls := r.usage.toolCalls, toolSteps := r.usage.toolSteps)
    && r.usage.toolCalls <= w.limits.toolCalls && r.usage.toolSteps <= w.limits.toolSteps
  }

  lemma HandOverUses(w: Workflow, s: State, reply: Reply, outputs: seq<Output>, cut: Option<(nat, Interruption)>)
    requires reply.Reply? && |reply.calls| <= |outputs| && s.outcome.Running?
    requires s.usage.toolCalls + |reply.calls| <= w.limits.toolCalls && s.usage.toolSteps < w.limits.toolSteps
    ensures OnlyUses(w, s, HandOver(w, s, reply, outputs, cut))
  {
    var continued := s.(history := s.history + ItemEntries(reply.items),
                        usage := s.usage.(toolSteps := s.usage.toolSteps + 1));
    ShowAllOnly(w, continued, reply.calls, outputs);
    if cut.Some? && cut.value.0 < |reply.calls| {
      ShowAllOnly(w, continued, reply.calls[..cut.value.0], outputs);
    }
  }

  /** Which fault ends a batch: that of the first call that is not executed, in the order reading, repetition, answering;
      only a failed answer is logged. */
  lemma {:induction false} FaultIs(w: Workflow, ids: set<string>, signatures: set<string>, calls: seq<Call>)
    ensures var c := Check(w, ids, signatures, calls);
            c.fault.Some? ==>
              && |c.ran| < |calls|
              && var call := calls[|c.ran|];
              && (w.sign(call).Err? ==> c.fault.value == Fault(Reported(w.sign(call).error), None))
              && (w.sign(call).Ok? && Repeats(w, ids, signatures, calls[..|c.ran|], call) ==>
                    c.fault.value == Fault(RepeatedToolCall, None))
              && (w.sign(call).Ok? && !Repeats(w, ids, signatures, calls[..|c.ran|], call) ==>
                    w.answer(call).Err? && c.fault.value == Fault(Reported(w.answer(call).error), Some(w.answer(call).error)))
    decreases |calls|
  {
    if calls != [] && w.sign(calls[0]).Ok? {
      var first := calls[0];
      var ids', signatures' := ids + {first.id}, signatures + {Signature(w, first)};
      FaultIs(w, ids', signatures', calls[1..]);
      var c := Check(w, ids, signatures, calls);
      if c.ran != [] && c.fault.Some? {
        var k := |c.ran|;
        assert Check(w, ids', signatures', calls[1..]).ran == c.ran[1..];
        assert calls[1..][k - 1] == calls[k];
        RepeatsCons(w, ids, signatures, first, calls[1..][..k - 1], calls[k]);
        assert [first] + calls[1..][..k - 1] == calls[..k];
      }
    }
  }

  /** The identifier or the request has been seen before, in an earlier batch or earlier in this one. */
  ghost predicate Repeats(w: Workflow, ids: set<string>, signatures: set<string>, earlier: seq<Call>, call: Call) {
    || call.id in ids || Signature(w, call) in signatures
    || exists i :: 0 <= i < |earlier| && (earlier[i].id == call.id || Signature(w, earlier[i]) == Signature(w, call))
  }

  lemma RepeatsCons(w: Workflow, ids: set<string>, signatures: set<string>, first: Call, rest: seq<Call>, call: Call)
    ensures Repeats(w, ids, signatures, [first] + rest, call)
            <==> Repeats(w, ids + {first.id}, signatures + {Signature(w, first)}, rest, call)
  {
    var all := [first] + rest;
    if i :| 0 <= i < |rest| && (rest[i].id == call.id || Signature(w, rest[i]) == Signature(w, call)) {
      assert all[i + 1] == rest[i];
    }
    if i :| 0 <= i < |all| && (all[i].id == call.id || Signature(w, all[i]) == Signature(w, call)) {
      assert i > 0 ==> rest[i - 1] == all[i];
    }
    assert all[0] == first;
  }

  lemma {:induction false} FaultCodes(w: Workflow, ids: set<string>, signatures: set<string>, calls: seq<Call>)
    ensures var c := Check(w, ids, signatures, calls);
            c.fault.Some? ==> c.fault.value.code.Reported? || c.fault.value.code.RepeatedToolCall?
    decreases |calls|
  {
    if calls != [] && w.sign(calls[0]).Ok? {
      FaultCodes(w, ids + {calls[0].id}, signatures + {Signature(w, calls[0])}, calls[1..]);
    }
  }

  lemma FaultLog(s: seq<Event>, fault: Fault)
    ensures Requests(s + Logged(fault)) == Requests(s) && Rejections(s + Logged(fault)) == Rejections(s)
  {
    if fault.logged.Some? {
      LogAppend(s, ToolRejected(fault.logged.value));
    } else {
      assert s + [] == s;
    }
  }

  lemma UseToolsUses(w: Workflow, s: State, finalOnly: bool, t: Turn)
    requires t.reply.Reply? && s.outcome.Running?
    requires s.usage.toolCalls <= w.limits.toolCalls && s.usage.toolSteps <= w.limits.toolSteps
    requires !finalOnly ==> s.usage.toolSteps < w.limits.toolSteps
    ensures OnlyUses(w, s, UseTools(w, s, finalOnly, t))
  {
    var calls := t.reply.calls;
    var checked := Check(w, s.seenCalls, s.seenRequests, calls);
    var ran := s.(executed := s.executed + checked.ran);
    FaultCodes(w, s.seenCalls, s.seenRequests, calls);
    if checked.fault.Some? {
      FaultLog(s.events, checked.fault.value);
    } else if !finalOnly && s.usage.toolCalls + |calls| <= w.limits.toolCalls {
      HandOverUses(w, ran, t.reply, checked.outputs, t.cut);
    }
  }

  lemma ConcludeKeeps(w: Workflow, s: State, n: nat, text: string)
    requires Inv(w, s, n) && s.outcome.Running?
    ensures Inv(w, Conclude(w, s, text), n)
  {
    match ReadReport(w, s, text)
    case Ok(report) =>
      assert Accepts(w, text, report, s.consulted);
    case Err(code) =>
      LogAppend(s.events, ReportRejected(code));
      FlatMapAppend(OutputOf, s.history, [RepairNote(code)]);
      FlatMapOne(OutputOf, RepairNote(code));
  }

  lemma TurnedKeeps(w: Workflow, s: State, n: nat, t: Turn)
    requires Inv(w, s, n) && s.outcome.Running?
    ensures Inv(w, Turned(w, s, n, t), n + 1)
  {
    AskKeeps(w, s, n, t);
    var asked := Ask(w, s, n, t);
    if asked.outcome.Running? && t.reply.Reply? {
      if t.reply.calls != [] {
        var finalOnly := FinalOnly(w, s.usage, s.repairUsed, n, t);
        UseToolsUses(w, asked, finalOnly, t);
        UseToolsKeeps(w, asked, finalOnly, t);
      } else {
        ConcludeKeeps(w, asked, n + 1, t.reply.text);
      }
    }
  }

  /** Whatever the provider does, every reachable state satisfies the invariants. */
  lemma {:induction false} AlwaysInv(w: Workflow, turns: nat -> Turn, n: nat)
    ensures Inv(w, After(w, turns, n), n)
  {
    if n > 0 {
      AlwaysInv(w, turns, n - 1);
      if After(w, turns, n - 1).outcome.Running? {
        TurnedKeeps(w, After(w, turns, n - 1), n - 1, turns(n - 1));
      }
    }
  }

  // ----- the accounts of a run -----

  /** The provider says what the attempt has cost. */
  predicate Known(reply: Reply) {
    reply.Reply? && reply.input >= 0 && reply.output >= 0
  }

  /** Tokens of the first n replies, as far as they are known. */
  function TokensIn(turns: nat -> Turn, n: nat): nat {
    if n == 0 then 0 else TokensIn(turns, n - 1) + if Known(turns(n - 1).reply) then turns(n - 1).reply.input else 0
  }

  function TokensOut(turns: nat -> Turn, n: nat): nat {
    if n == 0 then 0 else TokensOut(turns, n - 1) + if Known(turns(n - 1).reply) then turns(n - 1).reply.output else 0
  }

  /** Attempts among the first n whose cost is not known. */
  function Unaccounted(turns: nat -> Turn, n: nat): nat {
    if n == 0 then 0 else Unaccounted(turns, n - 1) + if Known(turns(n - 1).reply) then 0 else 1
  }

  function Reserved(turns: nat -> Turn, n: nat): nat {
    if n == 0 then 0 else Reserved(turns, n - 1) + turns(n - 1).reserve
  }

  /** The counters are the sums over the replies to the requests sent. */
  ghost predicate Booked(turns: nat -> Turn, usage: Usage) {
    var n := usage.modelCalls;
    && usage.input == TokensIn(turns, n) && usage.output == TokensOut(turns, n)
    && usage.unaccounted == Unaccounted(turns, n) && usage.reserved == Reserved(turns, n)
  }

  /** The log has one request for each call, for that turn, with what was known by then. */
  ghost predicate LogBooked(turns: nat -> Turn, s: State) {
    forall i :: 0 <= i < |Requests(s.events)| ==> RequestBooked(turns, Requests(s.events)[i], i)
  }

  ghost predicate RequestBooked(turns: nat -> Turn, e: Event, i: nat) {
    e.Requested? && e.turn == turns(i) && e.known.input == TokensIn(turns, i) && e.known.output == TokensOut(turns, i)
  }

  /** A completed run has accepted the last reply. */
  ghost predicate AcceptsLast(w: Workflow, turns: nat -> Turn, s: State) {
    s.outcome.Completed? ==>
      var n := s.usage.modelCalls;
      && n > 0 && turns(n - 1).reply.Reply? && turns(n - 1).reply.calls == []
      && Accepts(w, turns(n - 1).reply.text, s.outcome.report, s.consulted)
  }

  ghost predicate Accounts(w: Workflow, turns: nat -> Turn, s: State) {
    Booked(turns, s.usage) && LogBooked(turns, s) && AcceptsLast(w, turns, s)
  }

  lemma RequestBooks(w: Workflow, turns: nat -> Turn, s: State, n: nat)
    requires LogBooked(turns, s) && Booked(turns, s.usage) && s.usage.modelCalls == n == |Requests(s.events)|
    ensures LogBooked(turns, Request(w, s, n, turns(n)))
  {
    hide FinalOnly, RequestBooked;
    var t := turns(n);
    var log := s.events + if FollowupTight(w, n, t) then [FollowupReserved] else [];
    var e := Requested(n + 1, FinalOnly(w, s.usage, s.repairUsed, n, t), t, s.usage, s.repairUsed);
    FollowupLog(s.events, FollowupTight(w, n, t));
    LogAppend(log, e);
    ThisRequest(turns, e, n);
    assert Requests(log + [e]) == Requests(s.events) + [e];
  }

  lemma ThisRequest(turns: nat -> Turn, e: Event, n: nat)
    requires e.Requested? && e.turn == turns(n) && Booked(turns, e.known) && e.known.modelCalls == n
    ensures RequestBooked(turns, e, n)
  {
  }

  /** Asking books the reply: on the counters when its cost is known, as unaccounted otherwise. */
  lemma AskBooks(w: Workflow, turns: nat -> Turn, s: State, n: nat)
    requires s.outcome.Running? && s.usage.modelCalls == n == |Requests(s.events)| && Accounts(w, turns, s)
    ensures Accounts(w, turns, Ask(w, s, n, turns(n))) && !Ask(w, s, n, turns(n)).outcome.Completed?
    ensures Ask(w, s, n, turns(n)).outcome.Running? ==> Ask(w, s, n, turns(n)).usage.modelCalls == n + 1
  {
    hide Requests, FinalOnly, RequestBooked;
    FollowupLog(s.events, FollowupTight(w, n, turns(n)));
    RequestBooks(w, turns, s, n);
  }

  /** Neither tools nor reports touch the accounts. */
  lemma TurnedBooks(w: Workflow, turns: nat -> Turn, s: State, n: nat)
    requires Inv(w, s, n) && s.outcome.Running? && Accounts(w, turns, s)
    ensures Accounts(w, turns, Turned(w, s, n, turns(n)))
  {
    hide RequestBooked, Requests, Ask, UseTools, ReadReport, Tidy, Lawful, TokensIn, TokensOut, Unaccounted, Reserved;
    var t := turns(n);
    var asked := Ask(w, s, n, t);
    AskKeeps(w, s, n, t);
    AskBooks(w, turns, s, n);
    if asked.outcome.Running? && t.reply.Reply? {
      if t.reply.calls != [] {
        UseToolsUses(w, asked, FinalOnly(w, s.usage, s.repairUsed, n, t), t);
      } else {
        ConcludeBooks(w, turns, asked, n);
      }
    }
  }

  lemma ConcludeBooks(w: Workflow, turns: nat -> Turn, s: State, n: nat)
    requires s.outcome.Running? && Accounts(w, turns, s) && s.usage.modelCalls == n + 1
    requires turns(n).reply.Reply? && turns(n).reply.calls == []
    ensures Accounts(w, turns, Conclude(w, s, turns(n).reply.text))
  {
    hide RequestBooked, Requests, TokensIn, TokensOut, Unaccounted, Reserved;
    var text := turns(n).reply.text;
    match ReadReport(w, s, text)
    case Ok(report) => assert Accepts(w, text, report, s.consulted);
    case Err(code) => LogAppend(s.events, ReportRejected(code));
  }

  lemma {:induction false} AlwaysBooked(w: Workflow, turns: nat -> Turn, n: nat)
    ensures Accounts(w, turns, After(w, turns, n))
  {
    if n == 0 {
      assert Requests(START.events) == [];
    } else {
      hide Accounts, Inv, Turned;
      AlwaysBooked(w, turns, n - 1);
      AlwaysInv(w, turns, n - 1);
      if After(w, turns, n - 1).outcome.Running? {
        TurnedBooks(w, turns, After(w, turns, n - 1), n - 1);
      }
    }
  }

  /** Over a whole run the counters are the sums of what the provider reported for the requests that were sent: input and
      output tokens of the replies whose cost is known, and the number of the others. */
  lemma RunIsBooked(w: Workflow, turns: nat -> Turn)
    ensures var usage := Run(w, turns).usage;
            && usage.input == TokensIn(turns, usage.modelCalls) && usage.output == TokensOut(turns, usage.modelCalls)
            && usage.unaccounted == Unaccounted(turns, usage.modelCalls) && usage.reserved == Reserved(turns, usage.modelCalls)
  {
    AlwaysBooked(w, turns, w.limits.modelCalls);
  }

  // ----- the promises of a whole run -----

  /** Model calls, tool calls and tool steps stay within their limits, and every request that was sent is logged with its
      turn and fits the input budget together with the tokens of all replies before it. */
  lemma RunIsBounded(w: Workflow, turns: nat -> Turn)
    ensures var s := Run(w, turns);
            && s.usage.modelCalls <= w.limits.modelCalls && s.usage.toolCalls <= w.limits.toolCalls
            && s.usage.toolSteps <= w.limits.toolSteps
            && |Requests(s.events)| == s.usage.modelCalls
            && forall i :: 0 <= i < |Requests(s.events)| ==>
                 && Lawful(w, Requests(s.events)[i]) && Requests(s.events)[i].attempt == i + 1
                 && Requests(s.events)[i].turn == turns(i) && turns(i).reserve + TokensIn(turns, i) <= w.limits.inputTokens
  {
    hide Tidy, Concluded, Requests, FinalOnly;
    AlwaysInv(w, turns, w.limits.modelCalls);
    AlwaysBooked(w, turns, w.limits.modelCalls);
    var s := Run(w, turns);
    forall i | 0 <= i < |Requests(s.events)|
      ensures Requests(s.events)[i].turn == turns(i) && turns(i).reserve + TokensIn(turns, i) <= w.limits.inputTokens
    {
      assert Lawful(w, Requests(s.events)[i]) && RequestBooked(turns, Requests(s.events)[i], i);
    }
  }

  /** No tool call identifier and no request is executed twice, and the model sees exactly the outputs of the shown
      calls, each of which was executed. */
  lemma RunNeverRepeats(w: Workflow, turns: nat -> Turn)
    ensures var s := Run(w, turns);
            && Unrepeated(w, s.executed) && s.shown <= s.executed
            && Outputs(s.history) == Replies(w, s.shown) && |s.shown| == s.usage.toolCalls
  {
    AlwaysInv(w, turns, w.limits.modelCalls);
  }

  /** The reply in this state is a batch of calls, and checking it has this result. */
  ghost predicate BringsBatch(w: Workflow, s: State, reply: Reply, fault: Option<Fault>) {
    && s.outcome.Running? && reply.Reply? && reply.calls != []
    && Check(w, s.seenCalls, s.seenRequests, reply.calls).fault == fault
  }

  ghost predicate ShowsPart(s: State, r: State, calls: seq<Call>) {
    exists k :: 0 <= k <= |calls| && r.shown == s.shown + calls[..k]
  }

  lemma ShowsNothing(s: State, r: State, calls: seq<Call>)
    requires r.shown == s.shown
    ensures ShowsPart(s, r, calls)
  {
    assert r.shown == s.shown + calls[..0];
  }

  lemma HandOverShows(w: Workflow, s: State, reply: Reply, outputs: seq<Output>, cut: Option<(nat, Interruption)>)
    requires reply.Reply? && |reply.calls| <= |outputs|
    ensures ShowsPart(s, HandOver(w, s, reply, outputs, cut), reply.calls)
  {
    var calls := reply.calls;
    var k := if cut.Some? && cut.value.0 < |calls| then cut.value.0 else |calls|;
    var continued := s.(history := s.history + ItemEntries(reply.items),
                        usage := s.usage.(toolSteps := s.usage.toolSteps + 1));
    assert calls[..|calls|] == calls;
    ShowAllShown(w, continued, calls[..k], outputs);
    assert HandOver(w, s, reply, outputs, cut).shown == s.shown + calls[..k];
  }

  lemma ToolsShow(w: Workflow, s: State, finalOnly: bool, t: Turn)
    requires t.reply.Reply? && s.outcome.Running? && t.reply.calls != []
    ensures var r := UseTools(w, s, finalOnly, t);
            if BringsBatch(w, s, t.reply, None) then ShowsPart(s, r, t.reply.calls)
            else r.shown == s.shown && r.history == s.history && !r.outcome.Running?
  {
    hide HandOver, ShowsPart;
    var calls := t.reply.calls;
    var checked := Check(w, s.seenCalls, s.seenRequests, calls);
    if finalOnly || s.usage.toolCalls + |calls| > w.limits.toolCalls || checked.fault.Some? || t.reply.items == [] {
      ShowsNothing(s, UseTools(w, s, finalOnly, t), calls);
    } else {
      HandOverShows(w, s.(executed := s.executed + checked.ran), t.reply, checked.outputs, t.cut);
      ShowsSame(s, s.(executed := s.executed + checked.ran), UseTools(w, s, finalOnly, t), calls);
    }
  }

  lemma ShowsSame(s: State, s': State, r: State, calls: seq<Call>)
    requires s.shown == s'.shown
    ensures ShowsPart(s, r, calls) <==> ShowsPart(s', r, calls)
  {
  }

  lemma AskShowsNothing(w: Workflow, s: State, n: nat, t: Turn)
    ensures var r := Ask(w, s, n, t);
            && r.shown == s.shown && r.history == s.history && r.seenCalls == s.seenCalls && r.seenRequests == s.seenRequests
            && r.executed == s.executed && (s.outcome.Running? && r.outcome.Running? ==> t.reply.Reply?)
  {
  }

  /** What one turn shows to the model: part of its batch when that is admitted, and nothing otherwise. */
  lemma TurnShows(w: Workflow, s: State, n: nat, t: Turn)
    requires s.outcome.Running?
    ensures var r := Turned(w, s, n, t);
            if BringsBatch(w, s, t.reply, None) then ShowsPart(s, r, t.reply.calls)
            else r.shown == s.shown
                 && (t.reply.Reply? && t.reply.calls != [] ==> r.history == s.history && !r.outcome.Running?)
  {
    hide Ask, UseTools, ReadReport, ShowsPart, FinalOnly;
    var asked := Ask(w, s, n, t);
    AskShowsNothing(w, s, n, t);
    if asked.outcome.Running? && t.reply.calls != [] {
      ToolsShow(w, asked, FinalOnly(w, s.usage, s.repairUsed, n, t), t);
      ShowsSame(s, asked, Turned(w, s, n, t), t.reply.calls);
    } else if t.reply.Reply? {
      ShowsNothing(s, Turned(w, s, n, t), t.reply.calls);
    }
  }

  /** A rejected batch ends the run and leaves no trace in what the model sees. */
  lemma RejectedBatchUnseen(w: Workflow, turns: nat -> Turn, n: nat, fault: Fault)
    requires BringsBatch(w, After(w, turns, n), turns(n).reply, Some(fault)) && n < w.limits.modelCalls
    ensures Run(w, turns) == After(w, turns, n + 1)
    ensures Run(w, turns).history == After(w, turns, n).history
    ensures Run(w, turns).shown == After(w, turns, n).shown
  {
    hide Turned;
    TurnShows(w, After(w, turns, n), n, turns(n));
    StaysStopped(w, turns, n + 1, w.limits.modelCalls);
  }

  lemma NewlyShown(s: State, r: State, calls: seq<Call>, call: Call)
    requires ShowsPart(s, r, calls) && call in r.shown && call !in s.shown
    ensures call in calls
  {
    var k :| 0 <= k <= |calls| && r.shown == s.shown + calls[..k];
    assert call in calls[..k];
  }

  /** Every call whose output the model sees came in a batch that was admitted as a whole. */
  lemma {:induction false} ShownWereAdmitted(w: Workflow, turns: nat -> Turn, n: nat, call: Call)
    requires call in After(w, turns, n).shown
    ensures exists m: nat ::
              m < n && BringsBatch(w, After(w, turns, m), turns(m).reply, None) && call in turns(m).reply.calls
  {
    hide Turned, Check, ShowsPart;
    var s := After(w, turns, n - 1);
    if call in s.shown {
      ShownWereAdmitted(w, turns, n - 1, call);
    } else {
      TurnShows(w, s, n - 1, turns(n - 1));
      NewlyShown(s, After(w, turns, n), turns(n - 1).reply.calls, call);
    }
  }

  /** In every workflow that allows two model calls and two tool calls, a first reply that asks for the same usable
      call twice is rejected with the call executed and unseen. */
  lemma RejectedBatchExecutes(w: Workflow, turns: nat -> Turn, call: Call)
    requires ValidLimits(w.limits) && w.limits.modelCalls >= 2 && w.limits.toolCalls >= 2
    requires w.sign(call).Ok? && w.answer(call).Ok?
    requires turns(0) == Turn(None, 0, 0, 0, Reply("", 0, 0, [call, call], ["item"]), None, None)
    ensures var s := Run(w, turns);
            s.outcome == Stopped(RepeatedToolCall) && s.executed == [call] && s.shown == [] && s.history == [Packet]
  {
    var first := After(w, turns, 1);
    assert After(w, turns, 0) == START;
    assert !FinalOnly(w, START.usage, false, 0, turns(0));
    TwiceInABatch(w, call);
    assert first == Turned(w, START, 0, turns(0));
    StaysStopped(w, turns, 1, w.limits.modelCalls);
  }

  lemma TwiceInABatch(w: Workflow, call: Call)
    requires w.sign(call).Ok? && w.answer(call).Ok?
    ensures var c := Check(w, {}, {}, [call, call]);
            c.fault == Some(Fault(RepeatedToolCall, None)) && c.ran == [call]
  {
    assert [call, call][1..] == [call];
  }

  /** A completed run has a report that the validator accepts, read from the last reply; the replies of all requests say
      what they cost, and together they are within both token limits; and it cites only runbooks that an executed search
      returned. */
  lemma CompletedIsSound(w: Workflow, turns: nat -> Turn)
    requires Run(w, turns).outcome.Completed?
    ensures var s := Run(w, turns);
            var n := s.usage.modelCalls;
            && n > 0 && turns(n - 1).reply.Reply? && turns(n - 1).reply.calls == []
            && w.read(turns(n - 1).reply.text) == Ok(s.outcome.report)
            && TokensIn(turns, n) <= w.limits.inputTokens && TokensOut(turns, n) <= w.limits.outputTokens
            && Unaccounted(turns, n) == 0 && Affordable(w, s.usage)
            && forall id :: id in s.outcome.report.cited ==> exists c, r :: c in s.executed && r in Answer(w, c).matches && r.id == id
  {
    hide LogBooked, Sent, Mended;
    AlwaysInv(w, turns, w.limits.modelCalls);
    AlwaysBooked(w, turns, w.limits.modelCalls);
    var s := Run(w, turns);
    forall id | id in s.outcome.report.cited
      ensures exists c, r :: c in s.executed && r in Answer(w, c).matches && r.id == id
    {
      var i :| 0 <= i < |s.consulted| && s.consulted[i].id == id;
      assert s.consulted[i] in Members(s.consulted);
      var c :| c in s.shown && s.consulted[i] in Answer(w, c).matches;
      assert c in s.executed;
    }
  }

  // ----- what each turn leads to -----

  function Interrupted(i: Interruption): Outcome {
    match i
    case CancelFlag => Stopped(Cancelled)
    case WallClock => Stopped(Deadline)
  }

  /** The ways a request can end before its reply is looked at, in their order. */
  lemma AskOutcome(w: Workflow, turns: nat -> Turn, k: nat)
    requires After(w, turns, k).outcome.Running?
    ensures var s, t, r := After(w, turns, k), turns(k), After(w, turns, k + 1);
            var sent := t.before.None? && t.reserve + TokensIn(turns, k) <= w.limits.inputTokens;
            && (t.before.Some? ==> r == s.(outcome := Interrupted(t.before.value)))
            && (t.before.None? && !sent ==> r.outcome == Stopped(InputBudget) && r.usage == s.usage)
            && (sent && t.reply.Failure? ==> r.outcome == Stopped(Reported(t.reply.code)))
            && (sent && t.reply.Reply? && !Known(t.reply) ==> r.outcome == Stopped(UsageInvalid))
            && (sent && Known(t.reply) && t.after.Some? ==> r.outcome == Interrupted(t.after.value))
            && (sent && Known(t.reply) && t.after.None? && (TokensIn(turns, k + 1) > w.limits.inputTokens
                                                            || TokensOut(turns, k + 1) > w.limits.outputTokens) ==>
                  r.outcome == Stopped(UsageBudget))
  {
    hide FinalOnly, Inv;
    AlwaysBooked(w, turns, k);
    RunningCalls(w, turns, k);
  }

  lemma RunningCalls(w: Workflow, turns: nat -> Turn, k: nat)
    requires After(w, turns, k).outcome.Running?
    ensures After(w, turns, k).usage.modelCalls == k
  {
    AlwaysInv(w, turns, k);
  }

  /** The reply to turn k is looked at: it came in time, its cost is known and affordable. */
  ghost predicate Heard(w: Workflow, turns: nat -> Turn, k: nat) {
    var t := turns(k);
    && After(w, turns, k).outcome.Running? && t.before.None? && t.reserve + TokensIn(turns, k) <= w.limits.inputTokens
    && Known(t.reply) && t.after.None?
    && TokensIn(turns, k + 1) <= w.limits.inputTokens && TokensOut(turns, k + 1) <= w.limits.outputTokens
  }

  lemma HeardAsked(w: Workflow, turns: nat -> Turn, k: nat)
    requires After(w, turns, k).outcome.Running?
    ensures Heard(w, turns, k) <==> Ask(w, After(w, turns, k), k, turns(k)).outcome.Running?
  {
    hide FinalOnly, Inv;
    AlwaysBooked(w, turns, k);
    RunningCalls(w, turns, k);
  }

  /** A report that is heard completes the run when it is accepted; the first that is not is answered with its complaint,
      the second ends the run. */
  lemma ReportOutcome(w: Workflow, turns: nat -> Turn, k: nat)
    requires Heard(w, turns, k) && turns(k).reply.calls == []
    ensures var s, r, verdict := After(w, turns, k), After(w, turns, k + 1), w.read(turns(k).reply.text);
            var unread := verdict.Ok? && !CitesRead(verdict.value, s.consulted);
            && (verdict.Ok? && !unread ==> r.outcome == Completed(verdict.value) && r.history == s.history)
            && (verdict.Err? || unread ==>
                  var code := if unread then "REPORT_UNREAD_RUNBOOK_REFERENCE" else verdict.error;
                  if s.repairUsed then r.outcome == Stopped(InvalidReport) && r.history == s.history
                  else r.outcome.Running? && r.repairUsed && r.history == s.history + [RepairNote(code)])
  {
    HeardAsked(w, turns, k);
    AskShowsNothing(w, After(w, turns, k), k, turns(k));
    AskFields(w, After(w, turns, k), k, turns(k));
    hide Ask, TokensIn, TokensOut, FinalOnly;
  }

  /** Tools are withheld from turn k. */
  ghost predicate Withheld(w: Workflow, turns: nat -> Turn, k: nat) {
    var s, t := After(w, turns, k), turns(k);
    || k + 1 == w.limits.modelCalls || s.usage.toolSteps >= w.limits.toolSteps || |s.shown| >= w.limits.toolCalls || s.repairUsed
    || (k == 0 && w.discussion && t.planning + t.closing > w.limits.inputTokens)
    || (k > 0 && TokensIn(turns, k) + 2 * t.planning + MARGIN > w.limits.inputTokens)
  }

  lemma WithheldIff(w: Workflow, turns: nat -> Turn, k: nat)
    requires After(w, turns, k).outcome.Running?
    ensures Withheld(w, turns, k)
            <==> FinalOnly(w, After(w, turns, k).usage, After(w, turns, k).repairUsed, k, turns(k))
  {
    AlwaysBooked(w, turns, k);
    AlwaysInv(w, turns, k);
    RunningCalls(w, turns, k);
    hide Inv, Sent, LogBooked, Mended, AcceptsLast, After, TokensIn, TokensOut;
    TalliedCalls(w, After(w, turns, k));
  }

  lemma TalliedCalls(w: Workflow, s: State)
    requires Tidy(w, s)
    ensures |s.shown| == s.usage.toolCalls
  {
  }

  /** A batch that is heard: what each refusal is called, and what an admitted batch adds. */
  ghost predicate BatchLeads(w: Workflow, s: State, r: State, reply: Reply, withheld: bool, cut: Option<(nat, Interruption)>)
    requires reply.Reply?
  {
    var calls, checked := reply.calls, Check(w, s.seenCalls, s.seenRequests, reply.calls);
    if withheld then r.outcome == Stopped(UnexpectedToolCall) && r.executed == s.executed
    else if |s.shown| + |calls| > w.limits.toolCalls then r.outcome == Stopped(ToolBudget) && r.executed == s.executed
    else
      && r.executed == s.executed + checked.ran
      && if checked.fault.Some? then r.outcome == Stopped(checked.fault.value.code)
         else if reply.items == [] then r.outcome == Stopped(ContinuationMissing)
         else
           var k := if cut.Some? && cut.value.0 < |calls| then cut.value.0 else |calls|;
           && r.usage.toolSteps == s.usage.toolSteps + 1 && r.shown == s.shown + calls[..k]
           && r.history == s.history + ItemEntries(reply.items) + Replies(w, calls[..k])
           && r.outcome == if k < |calls| then Interrupted(cut.value.1) else Running
  }

  lemma {:induction false} ShowAllHistory(w: Workflow, s: State, calls: seq<Call>, outputs: seq<Output>)
    requires |calls| <= |outputs| && outputs[..|calls|] == Answers(w, calls)
    ensures ShowAll(w, s, calls, outputs).history == s.history + Replies(w, calls)
  {
    if calls == [] {
      assert s.history + Replies(w, []) == s.history;
    } else {
      var n := |calls| - 1;
      AnswersFront(w, calls, outputs);
      ShowAllHistory(w, s, calls[..n], outputs);
      assert Replies(w, calls) == Replies(w, calls[..n]) + [CallOutput(calls[n].id, Answer(w, calls[n]).text)];
    }
  }

  lemma HandOverLeads(w: Workflow, s: State, reply: Reply, outputs: seq<Output>, cut: Option<(nat, Interruption)>)
    requires reply.Reply? && s.outcome.Running? && outputs == Answers(w, reply.calls)
    ensures var r, calls := HandOver(w, s, reply, outputs, cut), reply.calls;
            var k := if cut.Some? && cut.value.0 < |calls| then cut.value.0 else |calls|;
            && r.usage.toolSteps == s.usage.toolSteps + 1 && r.shown == s.shown + calls[..k] && r.executed == s.executed
            && r.history == s.history + ItemEntries(reply.items) + Replies(w, calls[..k])
            && r.outcome == if k < |calls| then Interrupted(cut.value.1) else Running
  {
    var calls := reply.calls;
    var k := if cut.Some? && cut.value.0 < |calls| then cut.value.0 else |calls|;
    var continued := s.(history := s.history + ItemEntries(reply.items),
                        usage := s.usage.(toolSteps := s.usage.toolSteps + 1));
    assert calls[..|calls|] == calls;
    assert outputs[..k] == Answers(w, calls[..k]);
    ShowAllShown(w, continued, calls[..k], outputs);
    ShowAllHistory(w, continued, calls[..k], outputs);
    ShowAllOnly(w, continued, calls[..k], outputs);
    hide ShowAll, Replies, Answers;
  }

  lemma UseToolsLeads(w: Workflow, s: State, withheld: bool, t: Turn)
    requires t.reply.Reply? && s.outcome.Running? && s.usage.toolCalls == |s.shown|
    ensures BatchLeads(w, s, UseTools(w, s, withheld, t), t.reply, withheld, t.cut)
  {
    hide HandOver, Answers, Replies, Unrepeated, Apart;
    var calls := t.reply.calls;
    var checked := Check(w, s.seenCalls, s.seenRequests, calls);
    CheckSound(w, s.seenCalls, s.seenRequests, calls);
    if checked.fault.None? {
      HandOverLeads(w, s.(executed := s.executed + checked.ran), t.reply, checked.outputs, t.cut);
    }
  }

  lemma BatchOutcome(w: Workflow, turns: nat -> Turn, k: nat)
    requires Heard(w, turns, k) && turns(k).reply.calls != []
    ensures BatchLeads(w, After(w, turns, k), After(w, turns, k + 1), turns(k).reply, Withheld(w, turns, k), turns(k).cut)
  {
    var s, t := After(w, turns, k), turns(k);
    HeardAsked(w, turns, k);
    WithheldIff(w, turns, k);
    AskShowsNothing(w, s, k, t);
    AlwaysInv(w, turns, k);
    TalliedCalls(w, s);
    AskCalls(w, s, k, t);
    var asked := Ask(w, s, k, t);
    UseToolsLeads(w, asked, FinalOnly(w, s.usage, s.repairUsed, k, t), t);
    SameLeads(w, s, asked, After(w, turns, k + 1), t.reply, Withheld(w, turns, k), t.cut);
  }

  lemma AskCalls(w: Workflow, s: State, n: nat, t: Turn)
    ensures Ask(w, s, n, t).usage.toolCalls == s.usage.toolCalls && Ask(w, s, n, t).usage.toolSteps == s.usage.toolSteps
  {
  }

  lemma SameLeads(w: Workflow, s: State, s': State, r: State, reply: Reply, withheld: bool, cut: Option<(nat, Interruption)>)
    requires reply.Reply? && s'.seenCalls == s.seenCalls && s'.seenRequests == s.seenRequests && s'.shown == s.shown
    requires s'.executed == s.executed && s'.history == s.history && s'.usage.toolSteps == s.usage.toolSteps
    requires BatchLeads(w, s', r, reply, withheld, cut)
    ensures BatchLeads(w, s, r, reply, withheld, cut)
  {
  }

  lemma RepairedTurn(w: Workflow, s: State, n: nat, t: Turn)
    requires s.repairUsed && s.outcome.Running?
    ensures var r := Turned(w, s, n, t);
            r.executed == s.executed && r.history == s.history && r.shown == s.shown && r.repairUsed
  {
  }

  /** Once a repair has been asked for, no tool is executed and nothing joins the history. */
  lemma {:induction false} NoToolsAfterRepair(w: Workflow, turns: nat -> Turn, m: nat, n: nat)
    requires m <= n && After(w, turns, m).repairUsed
    ensures After(w, turns, n).executed == After(w, turns, m).executed
    ensures After(w, turns, n).history == After(w, turns, m).history
    ensures After(w, turns, n).repairUsed
  {
    if m < n {
      hide Turned;
      NoToolsAfterRepair(w, turns, m, n - 1);
      if After(w, turns, n - 1).outcome.Running? {
        RepairedTurn(w, After(w, turns, n - 1), n - 1, turns(n - 1));
      }
    }
  }

  /** The reply to the last allowed request is a report, and it is the first one that is rejected. */
  ghost predicate RejectsFirstOnLast(w: Workflow, turns: nat -> Turn)
    requires w.limits.modelCalls > 0
  {
    var n := w.limits.modelCalls - 1;
    var s, t := After(w, turns, n), turns(n);
    && s.outcome.Running? && !s.repairUsed
    && Ask(w, s, n, t).outcome.Running? && t.reply.Reply? && t.reply.calls == []
    && ReadReport(w, s, t.reply.text).Err?
  }

  lemma AskFields(w: Workflow, s: State, n: nat, t: Turn)
    requires s.outcome.Running?
    ensures var r := Ask(w, s, n, t);
            && r.consulted == s.consulted && r.repairUsed == s.repairUsed && r.outcome != Stopped(ModelBudget)
            && (r.outcome.Running? ==> t.reply.Reply?)
  {
  }

  lemma TurnedNotBudget(w: Workflow, s: State, n: nat, t: Turn)
    requires Inv(w, s, n) && s.outcome.Running?
    ensures Turned(w, s, n, t).outcome != Stopped(ModelBudget)
  {
    AskKeeps(w, s, n, t);
    AskFields(w, s, n, t);
    var asked := Ask(w, s, n, t);
    if asked.outcome.Running? {
      UseToolsUses(w, asked, FinalOnly(w, s.usage, s.repairUsed, n, t), t);
    }
  }

  lemma {:induction false} BudgetStopOnlyAtEnd(w: Workflow, turns: nat -> Turn, n: nat)
    ensures After(w, turns, n).outcome != Stopped(ModelBudget)
  {
    if n > 0 {
      hide Inv, Turned;
      BudgetStopOnlyAtEnd(w, turns, n - 1);
      AlwaysInv(w, turns, n - 1);
      if After(w, turns, n - 1).outcome.Running? {
        TurnedNotBudget(w, After(w, turns, n - 1), n - 1, turns(n - 1));
      }
    }
  }

  lemma LastTurn(w: Workflow, s: State, n: nat, t: Turn)
    requires s.outcome.Running? && n + 1 == w.limits.modelCalls
    ensures Turned(w, s, n, t).outcome.Running?
            <==> Ask(w, s, n, t).outcome.Running? && t.reply.Reply? && t.reply.calls == []
                 && !s.repairUsed && ReadReport(w, s, t.reply.text).Err?
  {
    AskFields(w, s, n, t);
    assert FinalOnly(w, s.usage, s.repairUsed, n, t);
  }

  /** The run ends for lack of model calls exactly when the first rejected report was the reply to the last one. */
  lemma BudgetStopIff(w: Workflow, turns: nat -> Turn)
    requires w.limits.modelCalls > 0
    ensures Run(w, turns).outcome == Stopped(ModelBudget) <==> RejectsFirstOnLast(w, turns)
  {
    hide Ask, ReadReport, Turned;
    var n := w.limits.modelCalls - 1;
    BudgetStopOnlyAtEnd(w, turns, n + 1);
    if After(w, turns, n).outcome.Running? {
      LastTurn(w, After(w, turns, n), n, turns(n));
    }
  }
}
