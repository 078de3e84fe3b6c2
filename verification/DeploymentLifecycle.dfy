/** The life of one deployment row: the control flow of a job that was dispatched for
    it, with the restart that re-enters the dispatcher, interleaved with everything else
    that writes the row's status: cancellations, admissions, forced starts, forced
    failures and the other jobs that were dispatched for the same row.

    Each refresh, check and update of the row by transitionToStatus is one atomic
    step, and so is the check and update at the start of a job. */
module DeploymentLifecycle {

  datatype Status = Queued | InProgress | Finished | Failed | Cancelled

  predicate Terminal(s: Status) {
    s == Finished || s == Failed || s == Cancelled
  }

  datatype Verdict = Success | Failure

  function Outcome(v: Verdict): Status {
    if v == Success then Finished else Failed
  }

  /** What the job still has to do, innermost call first. */
  datatype Instr =
    | Start                    // handle() up to the status update
    | Dispatch                 // decide_what_to_do()
    | SkipOrRebuild            // just_restart() up to and including should_skip_build()
    | Deploy                   // one of the deploy_* methods
    | Roll                     // rolling_update()
    | Transition(to: Verdict)  // transitionToStatus(): refresh, check, update
    | Effects(of: Verdict)     // handleStatusTransition()
    | QueueNext                // queue_next_deployment()
    | AfterFinish              // the rest of post_deployment()

  datatype Program = Done | Then(now: Instr, later: Program)

  datatype State = State(
    status: Status,
    todo: Program,
    dispatched: bool,          // the job that the model follows has been dispatched
    restartOnly: bool,
    handling: bool,            // inside the failed() handler
    dispatches: nat,
    successes: nat,            // success effects that took place
    failures: nat,
    queued: nat,               // calls of queue_next_deployment()
    env: Environment)

  /** The other processes, as far as this row concerns them. */
  datatype Environment = Environment(
    cancelling: nat,           // preview deletions that have read the row as active
    failing: nat,              // runs of the queue check that have read the row as active
    admitting: nat,            // admissions that have read the row as queued
    waiting: nat,              // other jobs for this row that have not begun
    running: nat,              // ... and that have
    completed: nat,            // status transitions by other jobs, with effects and queueing
    reopened: nat)             // times a terminal row went back to in progress

  /** What the outside world answers to the next instruction. */
  datatype Choice = Proceed | Alternate | Skip | Raise

  datatype Step =
    | Job(choice: Choice)
    | ApiCancel                // conditional update: only an active row is cancelled
    | FailStuck                // conditional update at start-up: active rows are failed
    | UserCancel               // the deployment page: CANCELLED, whatever the row says
    | SelectActive             // a preview deletion reads the row among the active ones
    | WriteCancel              // ... and later writes CANCELLED without looking again
    | SelectStuck              // the queue check reads the row among the active ones
    | WriteFailed              // ... and later writes FAILED without looking again
    | SelectQueued             // an admission reads the row among the queued ones
    | Admit(ours: bool)        // ... and later writes IN_PROGRESS and dispatches a job
    | ForceStart(ours: bool)   // the deployment page: IN_PROGRESS, and dispatches a job
    | OtherBegins              // the start of another job for this row
    | OtherCompletes(to: Verdict)

  predicate Init(s: State) {
    && s.status == Queued && s.todo == Done && !s.dispatched && !s.handling
    && s.dispatches == s.successes == s.failures == s.queued == 0
    && s.env == Environment(0, 0, 0, 0, 0, 0, 0)
  }

  /** An exception leaves every call; the first one runs the failed() handler. */
  function Throw(s: State): State {
    if s.handling then s.(todo := Done) else s.(todo := Then(Transition(Failure), Done), handling := true)
  }

  /** What is to be done after the first instruction when no exception leaves it. */
  function Continue(s: State, c: Choice): Program
    requires s.todo.Then?
  {
    var k := s.todo.later;
    match s.todo.now
    case Start => if s.status == Cancelled then k else Then(Dispatch, k)
    case Dispatch =>
      if s.restartOnly then Then(SkipOrRebuild, Then(Transition(Success), k))
      else Then(Deploy, Then(Transition(Success), Then(AfterFinish, k)))
    case SkipOrRebuild =>
      if c == Proceed then Then(Roll, k) else if s.restartOnly then Then(Dispatch, k) else k
    case Deploy =>
      if c == Proceed then Then(Roll, k) else if c == Alternate then Then(Transition(Failure), k) else k
    case Roll => if c == Alternate then Then(Transition(Failure), k) else k
    case Transition(to) => if Terminal(s.status) then k else Then(Effects(to), Then(QueueNext, k))
    case _ => k
  }

  predicate Throws(s: State, c: Choice)
    requires s.todo.Then?
  {
    match s.todo.now
    case Start => c == Raise && s.status != Cancelled
    case Dispatch => false
    case Transition(_) => s.status == Cancelled
    case Roll => c == Raise || s.status == Cancelled
    case AfterFinish => false
    case _ => c == Raise
  }

  function StatusAfter(s: State): Status
    requires s.todo.Then?
  {
    match s.todo.now
    case Start => if s.status == Cancelled then Cancelled else InProgress
    case Transition(to) => if Terminal(s.status) then s.status else Outcome(to)
    case _ => s.status
  }

  function One(b: bool): nat {
    if b then 1 else 0
  }

  function JobStep(s: State, c: Choice): State
    requires s.todo.Then?
  {
    var i, t := s.todo.now, s.(status := StatusAfter(s));
    if Throws(s, c) then Throw(t)
    else t.(
      todo := Continue(s, c),
      restartOnly := s.restartOnly && !(i == SkipOrRebuild && c != Proceed),
      dispatches := s.dispatches + One(i == Dispatch),
      successes := s.successes + One(i == Effects(Success)),
      failures := s.failures + One(i == Effects(Failure)),
      queued := s.queued + One(i == QueueNext))
  }

  predicate Enabled(s: State, step: Step) {
    match step
    case Job(_) => s.todo.Then?
    case SelectActive => !Terminal(s.status)
    case WriteCancel => s.env.cancelling > 0
    case SelectStuck => !Terminal(s.status)
    case WriteFailed => s.env.failing > 0
    case SelectQueued => s.status == Queued
    case Admit(ours) => s.env.admitting > 0 && (ours ==> !s.dispatched)
    case ForceStart(ours) => ours ==> !s.dispatched
    case OtherBegins => s.env.waiting > 0
    case OtherCompletes(_) => s.env.running > 0
    case _ => true
  }

  /** A job is dispatched for the row: the one we follow, or another. */
  function WithJob(s: State, ours: bool): State {
    if ours then s.(dispatched := true, todo := Then(Start, Done))
    else s.(env := s.env.(waiting := s.env.waiting + 1))
  }

  /** The status that the job's own step or another process writes. */
  function Written(s: State, step: Step): Status
    requires Enabled(s, step)
  {
    match step
    case Job(c) => JobStep(s, c).status
    case ApiCancel => if Terminal(s.status) then s.status else Cancelled
    case FailStuck => if Terminal(s.status) then s.status else Failed
    case UserCancel => Cancelled
    case WriteCancel => Cancelled
    case WriteFailed => Failed
    case Admit(_) => InProgress
    case ForceStart(_) => InProgress
    case OtherBegins => if s.status == Cancelled then Cancelled else InProgress
    case OtherCompletes(to) => if Terminal(s.status) then s.status else Outcome(to)
    case _ => s.status
  }

  /** Everything a step does, but for the status. */
  function Rest(s: State, step: Step): State
    requires Enabled(s, step)
  {
    var e := s.env;
    match step
    case Job(c) => JobStep(s, c)
    case SelectActive => s.(env := e.(cancelling := e.cancelling + 1))
    case WriteCancel => s.(env := e.(cancelling := e.cancelling - 1))
    case SelectStuck => s.(env := e.(failing := e.failing + 1))
    case WriteFailed => s.(env := e.(failing := e.failing - 1))
    case SelectQueued => s.(env := e.(admitting := e.admitting + 1))
    case Admit(ours) => WithJob(s.(env := e.(admitting := e.admitting - 1)), ours)
    case ForceStart(ours) => WithJob(s, ours)
    case OtherBegins => s.(env := e.(waiting := e.waiting - 1, running := e.running + One(s.status != Cancelled)))
    case OtherCompletes(_) => s.(env := e.(completed := e.completed + One(!Terminal(s.status))))
    case _ => s
  }

  /** A terminal row goes back to in progress. */
  predicate Reopens(s: State, step: Step)
    requires Enabled(s, step)
  {
    Terminal(s.status) && Written(s, step) == InProgress
  }

  function Next(s: State, step: Step): State
    requires Enabled(s, step)
  {
    var t := Rest(s, step);
    t.(status := Written(s, step), env := t.env.(reopened := s.env.reopened + One(Reopens(s, step))))
  }

  ghost predicate Run(states: seq<State>, steps: seq<Step>) {
    && |states| == |steps| + 1 && Init(states[0])
    && forall i :: 0 <= i < |steps| ==> Enabled(states[i], steps[i]) && states[i + 1] == Next(states[i], steps[i])
  }

  // ----- what every step keeps -----

  function Sum(f: Instr -> nat, todo: Program): nat {
    match todo
    case Done => 0
    case Then(i, later) => f(i) + Sum(f, later)
  }

  /** What the first instruction turns into adds this much to a sum. */
  function Gain(f: Instr -> nat, s: State, c: Choice): nat
    requires s.todo.Then?
  {
    match s.todo.now
    case Start => if s.status == Cancelled then 0 else f(Dispatch)
    case Dispatch =>
      if s.restartOnly then f(SkipOrRebuild) + f(Transition(Success))
      else f(Deploy) + f(Transition(Success)) + f(AfterFinish)
    case SkipOrRebuild =>
      if c == Proceed then f(Roll) else if s.restartOnly then f(Dispatch) else 0
    case Deploy =>
      if c == Proceed then f(Roll) else if c == Alternate then f(Transition(Failure)) else 0
    case Roll => if c == Alternate then f(Transition(Failure)) else 0
    case Transition(to) => if Terminal(s.status) then 0 else f(Effects(to)) + f(QueueNext)
    case _ => 0
  }

  lemma SumStep(f: Instr -> nat, s: State, c: Choice)
    requires s.todo.Then?
    ensures Sum(f, s.todo) == f(s.todo.now) + Sum(f, s.todo.later)
    ensures Sum(f, JobStep(s, c).todo)
            == if !Throws(s, c) then Gain(f, s, c) + Sum(f, s.todo.later)
               else if s.handling then 0
               else f(Transition(Failure))
  {
    var k := s.todo.later;
    assert Sum(f, Then(AfterFinish, k)) == f(AfterFinish) + Sum(f, k);
    assert Sum(f, Then(Transition(Success), Then(AfterFinish, k))) == f(Transition(Success)) + Sum(f, Then(AfterFinish, k));
    assert Sum(f, Then(Transition(Success), k)) == f(Transition(Success)) + Sum(f, k);
    assert Sum(f, Then(QueueNext, k)) == f(QueueNext) + Sum(f, k);
    assert Sum(f, Then(Transition(Failure), Done)) == f(Transition(Failure)) + Sum(f, Done);
  }

  function EffectsHere(i: Instr): nat { One(i.Effects?) }
  function QueueNextHere(i: Instr): nat { One(i == QueueNext) }
  function DispatchHere(i: Instr): nat { One(i == Dispatch) }
  function EntryHere(i: Instr): nat { One(i == Dispatch || i == Start) }
  function StartHere(i: Instr): nat { One(i == Start) }
  function CompletionHere(i: Instr): nat { One(i == Transition(Success)) }

  function Open(s: State): nat {
    One(!Terminal(s.status))
  }

  /** Status transitions that are possible, under way or done, by any job. */
  function Transitions(s: State): nat {
    s.successes + s.failures + Sum(EffectsHere, s.todo) + s.env.completed + Open(s)
  }

  function QueueCalls(s: State): nat {
    s.queued + Sum(QueueNextHere, s.todo) + s.env.completed + Open(s)
  }

  /** Entries into the dispatcher that are possible, under way or done. */
  function Dispatches(s: State): nat {
    s.dispatches + Sum(EntryHere, s.todo) + One(s.restartOnly) + One(!s.dispatched)
  }

  /** The job's program is empty until it is dispatched. */
  ghost predicate NotBefore(s: State) {
    !s.dispatched ==> s.todo == Done && s.dispatches == 0 && !s.handling
  }

  /** How the first instruction and what it turns into compare, when nothing is thrown. */
  lemma GainOf(s: State, c: Choice)
    requires s.todo.Then?
    ensures var i, t := s.todo.now, JobStep(s, c);
            && Gain(EffectsHere, s, c) == One(i.Transition? && !Terminal(s.status))
            && Gain(QueueNextHere, s, c) == One(i.Transition? && !Terminal(s.status))
            && (!Throws(s, c) ==> Gain(EntryHere, s, c) + One(i == Dispatch) + One(t.restartOnly)
                                  <= EntryHere(i) + One(s.restartOnly))
  {
  }

  lemma TransitionsFallByJob(s: State, c: Choice)
    requires s.todo.Then?
    ensures Transitions(JobStep(s, c)) <= Transitions(s) + One(Reopens(s, Job(c)))
  {
    SumStep(EffectsHere, s, c);
    GainOf(s, c);
  }

  lemma QueueCallsFallByJob(s: State, c: Choice)
    requires s.todo.Then?
    ensures QueueCalls(JobStep(s, c)) <= QueueCalls(s) + One(Reopens(s, Job(c)))
  {
    SumStep(QueueNextHere, s, c);
    GainOf(s, c);
  }

  lemma DispatchesFallByJob(s: State, c: Choice)
    requires s.todo.Then?
    ensures Dispatches(JobStep(s, c)) <= Dispatches(s)
  {
    SumStep(EntryHere, s, c);
    GainOf(s, c);
  }

  lemma CountsFallByOthers(s: State, step: Step)
    requires NotBefore(s) && Enabled(s, step) && !step.Job?
    ensures Transitions(Next(s, step)) <= Transitions(s) + One(Reopens(s, step))
    ensures QueueCalls(Next(s, step)) <= QueueCalls(s) + One(Reopens(s, step))
    ensures Dispatches(Next(s, step)) <= Dispatches(s)
  {
  }

  lemma CountsFall(s: State, step: Step)
    requires NotBefore(s) && Enabled(s, step)
    ensures Transitions(Next(s, step)) <= Transitions(s) + One(Reopens(s, step))
    ensures QueueCalls(Next(s, step)) <= QueueCalls(s) + One(Reopens(s, step))
    ensures Dispatches(Next(s, step)) <= Dispatches(s)
  {
    if step.Job? {
      var t, u := JobStep(s, step.choice), Next(s, step);
      assert u == t.(env := t.env.(reopened := u.env.reopened));
      TransitionsFallByJob(s, step.choice);
      QueueCallsFallByJob(s, step.choice);
      DispatchesFallByJob(s, step.choice);
    } else {
      CountsFallByOthers(s, step);
    }
  }

  // ----- the job ends, however it is interleaved -----

  /** Job steps an instruction can lead to; the flag says whether a restart may
      still turn into a full build. */
  function Cost(restart: bool, i: Instr): nat {
    match i
    case Start => if restart then 16 else 11
    case Dispatch => if restart then 15 else 10
    case SkipOrRebuild => if restart then 11 else 5
    case Deploy => 5
    case Roll => 4
    case Transition(_) => 3
    case _ => 1
  }

  function RestartCost(i: Instr): nat { Cost(true, i) }
  function PlainCost(i: Instr): nat { Cost(false, i) }

  function JobWork(s: State): nat {
    (if s.restartOnly then Sum(RestartCost, s.todo) else Sum(PlainCost, s.todo)) + if s.handling then 0 else 3
  }

  /** The same, with the work of a job that has yet to be dispatched. */
  function Work(s: State): nat {
    JobWork(s) + if s.dispatched then 0 else Cost(s.restartOnly, Start)
  }

  lemma {:induction false} PlainIsCheaper(todo: Program)
    ensures Sum(PlainCost, todo) <= Sum(RestartCost, todo)
  {
    match todo
    case Done =>
    case Then(_, later) => PlainIsCheaper(later);
  }

  lemma PlainWorkFalls(s: State, c: Choice)
    requires s.todo.Then? && !s.restartOnly
    ensures JobWork(JobStep(s, c)) < JobWork(s)
  {
    SumStep(PlainCost, s, c);
  }

  lemma RestartWorkFalls(s: State, c: Choice)
    requires s.todo.Then? && s.restartOnly
    ensures JobWork(JobStep(s, c)) < JobWork(s)
  {
    SumStep(RestartCost, s, c);
    if s.todo.now == SkipOrRebuild && c != Proceed && c != Raise {
      var k := s.todo.later;
      PlainIsCheaper(k);
      assert JobStep(s, c).todo == Then(Dispatch, k);
    }
  }

  function JobSteps(steps: seq<Step>): nat {
    if steps == [] then 0 else JobSteps(steps[..|steps| - 1]) + One(steps[|steps| - 1].Job?)
  }

  lemma RunPrefix(states: seq<State>, steps: seq<Step>)
    requires Run(states, steps) && steps != []
    ensures Run(states[..|steps|], steps[..|steps| - 1])
  {
  }

  lemma WorkFalls(s: State, step: Step)
    requires NotBefore(s) && Enabled(s, step)
    ensures Work(Next(s, step)) + One(step.Job?) <= Work(s)
  {
    if step.Job? {
      if s.restartOnly { RestartWorkFalls(s, step.choice); } else { PlainWorkFalls(s, step.choice); }
      assert JobWork(Next(s, step)) == JobWork(JobStep(s, step.choice));
    }
  }

  /** In every run, of any length, the job itself takes at most nineteen steps. */
  lemma {:induction false} JobIsBounded(states: seq<State>, steps: seq<Step>)
    requires Run(states, steps)
    ensures JobSteps(steps) + Work(states[|steps|]) <= Work(states[0]) <= 19
    decreases |steps|
  {
    if steps != [] {
      RunPrefix(states, steps);
      var n := |steps| - 1;
      JobIsBounded(states[..|steps|], steps[..n]);
      InvHolds(states[..|steps|], steps[..n]);
      WorkFalls(states[n], steps[n]);
    }
  }

  // ----- the dispatcher and the completions -----

  function SkipHere(i: Instr): nat { One(i == SkipOrRebuild) }

  /** Only the instruction to be done next can enter the dispatcher. */
  ghost predicate HeadOnly(s: State) {
    s.todo.Then? ==>
      Sum(DispatchHere, s.todo.later) == Sum(SkipHere, s.todo.later) == Sum(StartHere, s.todo.later) == 0
  }

  /** Until the nested dispatch has completed the deployment, two completions lie ahead. */
  ghost predicate CompletionsAhead(s: State) {
    !s.handling && s.todo.Then? ==>
      && (s.todo.now == SkipOrRebuild || (s.todo.now == Dispatch && s.dispatches == 1) ==>
            Sum(CompletionHere, s.todo.later) >= 1)
      && (s.todo.now == SkipOrRebuild ==> s.dispatches == 1)
      && (s.dispatches == 2 ==> Terminal(s.status) || s.env.reopened > 0 || Sum(CompletionHere, s.todo) >= 2)
      && (s.todo.now == Start ==> s.dispatches == 0)
  }

  lemma HeadOnlyKept(s: State, c: Choice)
    requires HeadOnly(s) && s.todo.Then?
    ensures HeadOnly(JobStep(s, c))
  {
    var k := s.todo.later;
    LaterSum(DispatchHere, s, c);
    LaterSum(SkipHere, s, c);
    LaterSum(StartHere, s, c);
  }

  /** Everything an instruction puts after the new first one. */
  lemma LaterSum(f: Instr -> nat, s: State, c: Choice)
    requires s.todo.Then?
    requires f(Transition(Success)) == f(AfterFinish) == f(QueueNext) == 0
    requires Sum(f, s.todo.later) == 0
    ensures JobStep(s, c).todo.Then? ==> Sum(f, JobStep(s, c).todo.later) == 0
  {
    var k := s.todo.later;
    assert Sum(f, Then(AfterFinish, k)) == 0;
    assert Sum(f, Then(Transition(Success), Then(AfterFinish, k))) == Sum(f, Then(AfterFinish, k));
    assert Sum(f, Then(Transition(Success), k)) == 0;
    assert Sum(f, Then(QueueNext, k)) == 0;
    if k.Then? {
      assert Sum(f, k) == f(k.now) + Sum(f, k.later);
    }
  }

  /** The completions that lie ahead after an instruction that throws nothing. */
  lemma CompletionsAfter(s: State, c: Choice)
    requires s.todo.Then? && !Throws(s, c)
    ensures var t := JobStep(s, c);
            && Sum(CompletionHere, t.todo) == Gain(CompletionHere, s, c) + Sum(CompletionHere, s.todo.later)
            && (t.todo.Then? ==>
                  Sum(CompletionHere, t.todo) == CompletionHere(t.todo.now) + Sum(CompletionHere, t.todo.later))
  {
    SumStep(CompletionHere, s, c);
  }

  lemma NoEntryAfter(s: State, c: Choice)
    requires HeadOnly(s) && s.todo.Then? && !Throws(s, c)
    ensures var t, i := JobStep(s, c), s.todo.now;
            t.todo.Then? ==>
              && t.todo.now != Start
              && (t.todo.now == Dispatch ==> i == Start || (i == SkipOrRebuild && s.restartOnly))
              && (t.todo.now == SkipOrRebuild ==> i == Dispatch && s.restartOnly)
  {
    var k := s.todo.later;
    if k.Then? {
      assert Sum(DispatchHere, k) == DispatchHere(k.now) + Sum(DispatchHere, k.later);
      assert Sum(SkipHere, k) == SkipHere(k.now) + Sum(SkipHere, k.later);
      assert Sum(StartHere, k) == StartHere(k.now) + Sum(StartHere, k.later);
    }
  }

  lemma CompletionsAheadKept(s: State, c: Choice)
    requires HeadOnly(s) && CompletionsAhead(s) && Dispatches(s) <= 2 && s.todo.Then?
    ensures CompletionsAhead(JobStep(s, c))
  {
    if !Throws(s, c) {
      CompletionsAfter(s, c);
      NoEntryAfter(s, c);
      assert Sum(CompletionHere, s.todo) == CompletionHere(s.todo.now) + Sum(CompletionHere, s.todo.later);
      assert Sum(EntryHere, s.todo) == EntryHere(s.todo.now) + Sum(EntryHere, s.todo.later);
    }
  }

  // ----- safety over whole runs -----

  ghost predicate Inv(s: State) {
    && NotBefore(s) && HeadOnly(s) && CompletionsAhead(s)
    && Transitions(s) <= 1 + s.env.reopened && QueueCalls(s) <= 1 + s.env.reopened && Dispatches(s) <= 2
  }

  /** Steps of other processes leave the job's own program alone, or start it. */
  lemma OthersKeepProgram(s: State, step: Step)
    requires NotBefore(s) && HeadOnly(s) && CompletionsAhead(s) && Enabled(s, step) && !step.Job?
    ensures HeadOnly(Next(s, step)) && CompletionsAhead(Next(s, step))
  {
  }

  lemma JobKeepsProgram(s: State, step: Step)
    requires HeadOnly(s) && CompletionsAhead(s) && Dispatches(s) <= 2 && Enabled(s, step) && step.Job?
    ensures HeadOnly(Next(s, step)) && CompletionsAhead(Next(s, step))
  {
    HeadOnlyKept(s, step.choice);
    CompletionsAheadKept(s, step.choice);
    var t, u := JobStep(s, step.choice), Next(s, step);
    assert u == t.(env := u.env) && u.env == t.env.(reopened := u.env.reopened);
  }

  lemma InvKept(s: State, step: Step)
    requires Inv(s) && Enabled(s, step)
    ensures Inv(Next(s, step))
  {
    CountsFall(s, step);
    if step.Job? { JobKeepsProgram(s, step); } else { OthersKeepProgram(s, step); }
  }

  lemma {:induction false} InvHolds(states: seq<State>, steps: seq<Step>)
    requires Run(states, steps)
    ensures Inv(states[|steps|])
    decreases |steps|
  {
    if steps != [] {
      RunPrefix(states, steps);
      InvHolds(states[..|steps|], steps[..|steps| - 1]);
      InvKept(states[|steps| - 1], steps[|steps| - 1]);
    }
  }

  /** The effects and the queueing of all jobs of the row happen at most once, and once
      more for every time the row was reopened; the job enters the dispatcher at most
      twice, and only once unless it began as a restart. */
  lemma AtMostOnce(states: seq<State>, steps: seq<Step>)
    requires Run(states, steps)
    ensures var s := states[|steps|];
            && s.successes + s.failures + s.env.completed <= 1 + s.env.reopened
            && s.queued + s.env.completed <= 1 + s.env.reopened
            && s.dispatches <= 1 + One(states[0].restartOnly)
  {
    InvHolds(states, steps);
    DispatchBound(states, steps);
  }

  lemma {:induction false} DispatchBound(states: seq<State>, steps: seq<Step>)
    requires Run(states, steps)
    ensures Dispatches(states[|steps|]) <= 1 + One(states[0].restartOnly)
    decreases |steps|
  {
    if steps != [] {
      var n := |steps| - 1;
      RunPrefix(states, steps);
      DispatchBound(states[..|steps|], steps[..n]);
      InvHolds(states[..|steps|], steps[..n]);
      CountsFall(states[n], steps[n]);
    }
  }

  /** When a restart turned into a full build, the restart's own completion comes after
      the build's and changes neither the status nor any counter, unless the row was
      reopened: exactly, unless it is not terminal any more. */
  lemma OuterCompletionChangesNothing(states: seq<State>, steps: seq<Step>, c: Choice)
    requires Run(states, steps)
    requires var s := states[|steps|];
             !s.handling && s.dispatches == 2 && s.todo == Then(Transition(Success), Done)
    ensures var s := states[|steps|];
            && (s.env.reopened == 0 ==> Terminal(s.status))
            && (JobStep(s, c).(todo := s.todo, handling := s.handling) == s <==> Terminal(s.status))
  {
    InvHolds(states, steps);
    assert Sum(CompletionHere, Then(Transition(Success), Done)) == 1;
  }

  // ----- a deployment or a rolling update that fails -----

  function WorkHere(i: Instr): nat { One(i == Start || i == Dispatch || i == SkipOrRebuild || i == Deploy || i == Roll) }
  function SuccessHere(i: Instr): nat { One(i == Effects(Success)) }

  /** The work comes before everything else the job does, and effects follow at once. */
  ghost predicate WorkFirst(s: State) {
    s.todo.Then? ==>
      && Sum(WorkHere, s.todo.later) == 0 && Sum(SuccessHere, s.todo.later) == 0
      && (WorkHere(s.todo.now) == 1 ==> s.successes == 0 && !s.handling)
  }

  lemma WorkFirstKept(s: State, step: Step)
    requires NotBefore(s) && WorkFirst(s) && Enabled(s, step) && (!s.dispatched ==> s.successes == 0)
    ensures WorkFirst(Next(s, step)) && (!Next(s, step).dispatched ==> Next(s, step).successes == 0)
  {
    if step.Job? {
      LaterSum(WorkHere, s, step.choice);
      LaterSum(SuccessHere, s, step.choice);
      WorkAfterWork(s, step.choice);
    }
  }

  /** Work at the head comes from work at the head. */
  lemma WorkAfterWork(s: State, c: Choice)
    requires s.todo.Then? && Sum(WorkHere, s.todo.later) == 0
    ensures var t := JobStep(s, c);
            t.todo.Then? && WorkHere(t.todo.now) == 1 ==>
              WorkHere(s.todo.now) == 1 && t.successes == s.successes && t.handling == s.handling
  {
    var k := s.todo.later;
    if k.Then? { assert Sum(WorkHere, k) == WorkHere(k.now) + Sum(WorkHere, k.later); }
  }

  lemma {:induction false} WorkFirstHolds(states: seq<State>, steps: seq<Step>)
    requires Run(states, steps)
    ensures var s := states[|steps|]; WorkFirst(s) && NotBefore(s) && (!s.dispatched ==> s.successes == 0)
    decreases |steps|
  {
    InvHolds(states, steps);
    if steps != [] {
      var n := |steps| - 1;
      RunPrefix(states, steps);
      WorkFirstHolds(states[..|steps|], steps[..n]);
      WorkFirstKept(states[n], steps[n]);
    }
  }

  /** The job's own step finds that the deployment or the rolling update failed, or throws
      while it is at work, on a row that is not cancelled. */
  predicate Fails(s: State, step: Step) {
    step.Job? && s.todo.Then? && s.status != Cancelled &&
    ((step.choice == Alternate && (s.todo.now == Deploy || s.todo.now == Roll)) ||
     (step.choice == Raise && (s.todo.now == Start || s.todo.now == SkipOrRebuild || s.todo.now == Deploy || s.todo.now == Roll)))
  }

  /** Since `base` reopenings ago the job has been about to fail the row, or has found or
      made it terminal. */
  ghost predicate Failing(s: State, base: nat) {
    && s.dispatched && base <= s.env.reopened
    && (|| (s.todo.Then? && s.todo.now == Transition(Failure) && s.successes == 0 && Sum(SuccessHere, s.todo) == 0)
        || s.successes + Sum(SuccessHere, s.todo) + Open(s) + base <= s.env.reopened)
  }

  lemma FailingByJob(s: State, c: Choice, base: nat)
    requires Failing(s, base) && s.todo.Then?
    ensures Failing(Next(s, Job(c)), base)
  {
    SumStep(SuccessHere, s, c);
    SuccessGain(s, c);
  }

  lemma SuccessGain(s: State, c: Choice)
    requires s.todo.Then?
    ensures Gain(SuccessHere, s, c) == One(s.todo.now == Transition(Success) && !Terminal(s.status))
  {
  }

  lemma FailingByOthers(s: State, step: Step, base: nat)
    requires Failing(s, base) && Enabled(s, step) && !step.Job?
    ensures Failing(Next(s, step), base)
  {
  }

  lemma FailingBegins(s: State, step: Step)
    requires WorkFirst(s) && NotBefore(s) && Enabled(s, step) && Fails(s, step)
    ensures Failing(Next(s, step), Next(s, step).env.reopened)
    ensures Next(s, step).todo.Then? && Next(s, step).todo.now == Transition(Failure)
  {
    SumStep(SuccessHere, s, step.choice);
    SuccessGain(s, step.choice);
  }

  lemma {:induction false} FailingSince(states: seq<State>, steps: seq<Step>, i: nat)
    requires Run(states, steps) && i < |steps| && Fails(states[i], steps[i])
    ensures Failing(states[|steps|], states[i + 1].env.reopened)
    decreases |steps|
  {
    var n := |steps| - 1;
    RunPrefix(states, steps);
    if i == n {
      WorkFirstHolds(states[..|steps|], steps[..n]);
      FailingBegins(states[n], steps[n]);
    } else {
      FailingSince(states[..|steps|], steps[..n], i);
      if steps[n].Job? {
        FailingByJob(states[n], steps[n].choice, states[i + 1].env.reopened);
      } else {
        FailingByOthers(states[n], steps[n], states[i + 1].env.reopened);
      }
    }
  }

  /** A job whose deployment or rolling update failed has no success effect, but for those
      that later reopenings of the row make room for. So a success effect means that
      nothing failed before it. */
  lemma FailureIsNoSuccess(states: seq<State>, steps: seq<Step>, i: nat)
    requires Run(states, steps) && i < |steps| && Fails(states[i], steps[i])
    ensures states[|steps|].successes <= states[|steps|].env.reopened - states[i + 1].env.reopened
  {
    FailingSince(states, steps, i);
  }

  /** From the failing step to the job's next own step, only other processes move. */
  ghost predicate NextOwnStep(steps: seq<Step>, i: nat, j: nat) {
    i < j < |steps| && steps[i].Job? && steps[j].Job? && forall k :: i < k < j ==> !steps[k].Job?
  }

  lemma OthersKeepTodo(s: State, step: Step)
    requires s.dispatched && Enabled(s, step) && !step.Job?
    ensures Next(s, step).todo == s.todo && Next(s, step).dispatched && Next(s, step).failures == s.failures
  {
  }

  lemma {:induction false} TodoWaits(states: seq<State>, steps: seq<Step>, i: nat, j: nat)
    requires Run(states, steps) && i < j <= |steps| && forall k :: i < k < j ==> !steps[k].Job?
    requires states[i + 1].dispatched
    ensures states[j].todo == states[i + 1].todo && states[j].dispatched && states[j].failures == states[i + 1].failures
    decreases j
  {
    if i + 1 < j {
      TodoWaits(states, steps, i, j - 1);
      OthersKeepTodo(states[j - 1], steps[j - 1]);
    }
  }

  lemma {:induction false} RunUpTo(states: seq<State>, steps: seq<Step>, n: nat)
    requires Run(states, steps) && n <= |steps|
    ensures Run(states[..n + 1], steps[..n])
  {
  }

  lemma AboutToFail(states: seq<State>, steps: seq<Step>, i: nat, j: nat)
    requires Run(states, steps) && NextOwnStep(steps, i, j) && Fails(states[i], steps[i])
    ensures states[j].dispatched && states[j].todo.Then? && states[j].todo.now == Transition(Failure)
  {
    RunUpTo(states, steps, i);
    WorkFirstHolds(states[..i + 1], steps[..i]);
    FailingBegins(states[i], steps[i]);
    TodoWaits(states, steps, i, j);
  }

  /** After a failed deployment or rolling update the job's next own step makes the row
      FAILED, or finds it over already and leaves it alone. */
  lemma FailureFailsTheRow(states: seq<State>, steps: seq<Step>, i: nat, j: nat)
    requires Run(states, steps) && NextOwnStep(steps, i, j) && Fails(states[i], steps[i])
    ensures states[j + 1].status == if Terminal(states[j].status) then states[j].status else Failed
  {
    AboutToFail(states, steps, i, j);
    assert states[j + 1] == Next(states[j], steps[j]);
  }

  /** If the row was still active, the step after that has the failure's effects, unless
      it throws. */
  lemma FailureHasItsEffects(states: seq<State>, steps: seq<Step>, i: nat, j: nat, m: nat)
    requires Run(states, steps) && NextOwnStep(steps, i, j) && Fails(states[i], steps[i]) && !Terminal(states[j].status)
    requires NextOwnStep(steps, j, m) && steps[m].choice != Raise
    ensures states[m + 1].failures == states[j].failures + 1
  {
    AboutToFail(states, steps, i, j);
    assert states[j + 1] == Next(states[j], steps[j]);
    assert states[j + 1].todo.Then? && states[j + 1].todo.now == Effects(Failure) && states[j + 1].dispatched;
    TodoWaits(states, steps, j, m);
    assert states[m + 1] == Next(states[m], steps[m]);
  }

  /** A cancellation stops the job at its next transition or rolling update: it throws,
      the handler finds the row over, and nothing else happens. A job that has not begun
      does nothing at all. */
  lemma CancelledStopsTheJob(s: State, c: Choice)
    requires s.status == Cancelled && s.todo.Then?
    ensures s.todo.now == Start ==> JobStep(s, c) == s.(todo := s.todo.later)
    ensures (s.todo.now.Transition? || s.todo.now == Roll) && !s.handling ==>
              JobStep(s, c) == s.(todo := Then(Transition(Failure), Done), handling := true)
    ensures s.todo.now.Transition? && s.handling ==> JobStep(s, c) == s.(todo := Done)
  {
  }

  /** The job's own step gets a deployment through: without a rolling update, or with one
      that went well. */
  predicate GoesThrough(s: State, step: Step) {
    step.Job? && s.todo.Then? &&
    ((s.todo.now == Deploy && step.choice == Skip) ||
     (s.todo.now == Roll && (step.choice == Proceed || step.choice == Skip) && s.status != Cancelled))
  }

  /** Nothing went through so far: the job is still at work or has nothing to do, or it is
      about to fail the row, or has no success but for reopenings. */
  ghost predicate NothingThrough(s: State) {
    && NotBefore(s) && WorkFirst(s) && (!s.dispatched ==> s.successes == 0)
    && (s.todo.Then? && s.todo.now == SkipOrRebuild ==> s.restartOnly)
    && (|| (s.successes == 0 && s.todo == Done)
        || (s.successes == 0 && WorkHere(s.todo.now) == 1)
        || (s.dispatched && Failing(s, 0)))
  }

  lemma NothingThroughByWork(s: State, c: Choice)
    requires NothingThrough(s) && s.todo.Then? && WorkHere(s.todo.now) == 1 && !GoesThrough(s, Job(c))
    ensures NothingThrough(Next(s, Job(c)))
  {
    WorkFirstKept(s, Job(c));
    SumStep(SuccessHere, s, c);
    SuccessGain(s, c);
    NoSkipLater(s);
  }

  lemma NoSkipLater(s: State)
    requires s.todo.Then? && Sum(WorkHere, s.todo.later) == 0
    ensures s.todo.later.Then? ==> WorkHere(s.todo.later.now) == 0
  {
    var k := s.todo.later;
    if k.Then? { assert Sum(WorkHere, k) == WorkHere(k.now) + Sum(WorkHere, k.later); }
  }

  lemma NothingThroughKept(s: State, step: Step)
    requires NothingThrough(s) && Enabled(s, step) && !GoesThrough(s, step)
    ensures NothingThrough(Next(s, step))
  {
    WorkFirstKept(s, step);
    if !step.Job? {
      if s.dispatched && Failing(s, 0) { FailingByOthers(s, step, 0); }
    } else if WorkHere(s.todo.now) == 1 {
      NothingThroughByWork(s, step.choice);
    } else {
      FailingByJob(s, step.choice, 0);
      WorkAfterWork(s, step.choice);
    }
  }

  /** A success effect means that a deployment went through before, but for reopenings. */
  lemma {:induction false} SuccessMeansWentThrough(states: seq<State>, steps: seq<Step>)
    requires Run(states, steps) && forall i :: 0 <= i < |steps| ==> !GoesThrough(states[i], steps[i])
    ensures NothingThrough(states[|steps|]) && states[|steps|].successes <= states[|steps|].env.reopened
    decreases |steps|
  {
    if steps != [] {
      var n := |steps| - 1;
      RunPrefix(states, steps);
      SuccessMeansWentThrough(states[..|steps|], steps[..n]);
      NothingThroughKept(states[n], steps[n]);
    }
  }

  // ----- what a terminal status is worth -----

  /** A write that does not look at the row, or looked too early, and finds it over. */
  predicate LateWrite(s: State, step: Step) {
    match step
    case UserCancel => s.status == Finished || s.status == Failed
    case WriteCancel => s.status == Finished || s.status == Failed
    case WriteFailed => s.status == Finished || s.status == Cancelled
    case Admit(_) => Terminal(s.status)
    case ForceStart(_) => Terminal(s.status)
    case OtherBegins => s.status == Finished || s.status == Failed
    case Job(_) => s.todo.Then? && s.todo.now == Start && (s.status == Finished || s.status == Failed)
    case _ => false
  }

  lemma ChangesIffLate(s: State, step: Step)
    requires Enabled(s, step) && Terminal(s.status)
    ensures Next(s, step).status != s.status <==> LateWrite(s, step)
  {
  }

  /** Once the status is of the kind, it stays so. */
  ghost predicate Stays(states: seq<State>, kind: Status -> bool) {
    forall i, j :: 0 <= i <= j < |states| && kind(states[i].status) ==> kind(states[j].status)
  }

  ghost predicate KeptAt(states: seq<State>, kind: Status -> bool, k: nat) {
    k + 1 < |states| && kind(states[k].status) ==> kind(states[k + 1].status)
  }

  lemma {:induction false} StaysFrom(states: seq<State>, kind: Status -> bool, i: nat, j: nat)
    requires forall k: nat :: KeptAt(states, kind, k)
    requires i <= j < |states| && kind(states[i].status)
    ensures kind(states[j].status)
    decreases j
  {
    if i < j {
      StaysFrom(states, kind, i, j - 1);
      assert KeptAt(states, kind, j - 1);
    }
  }

  lemma StaysIffEachStep(states: seq<State>, kind: Status -> bool)
    ensures Stays(states, kind) <==> forall k: nat :: KeptAt(states, kind, k)
  {
    if forall k: nat :: KeptAt(states, kind, k) {
      forall i, j | 0 <= i <= j < |states| && kind(states[i].status) ensures kind(states[j].status) {
        StaysFrom(states, kind, i, j);
      }
    }
  }

  function Being(status: Status): Status -> bool { other => other == status }

  /** FINISHED, FAILED and CANCELLED are absorbing. */
  ghost predicate Absorbing(states: seq<State>) {
    Stays(states, Being(Finished)) && Stays(states, Being(Failed)) && Stays(states, Being(Cancelled))
  }

  /** Which writes move the row out of the status. */
  predicate Leaves(status: Status, s: State, step: Step) {
    s.status == status && LateWrite(s, step)
  }

  /** A terminal status is absorbing in a run exactly when no late write meets it. */
  lemma StaysIffNoLateWrite(states: seq<State>, steps: seq<Step>, status: Status)
    requires Run(states, steps) && Terminal(status)
    ensures Stays(states, Being(status)) <==> forall i :: 0 <= i < |steps| ==> !Leaves(status, states[i], steps[i])
  {
    StaysIffEachStep(states, Being(status));
    forall i: nat ensures KeptAt(states, Being(status), i) <==> i >= |steps| || !Leaves(status, states[i], steps[i]) {
      if i < |steps| && states[i].status == status { ChangesIffLate(states[i], steps[i]); }
    }
  }

  lemma AbsorbingIffNoLateWrite(states: seq<State>, steps: seq<Step>)
    requires Run(states, steps)
    ensures Absorbing(states) <==> forall i :: 0 <= i < |steps| ==> !LateWrite(states[i], steps[i])
  {
    StaysIffNoLateWrite(states, steps, Finished);
    StaysIffNoLateWrite(states, steps, Failed);
    StaysIffNoLateWrite(states, steps, Cancelled);
    forall i | 0 <= i < |steps| ensures LateWrite(states[i], steps[i]) <==>
      || Leaves(Finished, states[i], steps[i]) || Leaves(Failed, states[i], steps[i])
      || Leaves(Cancelled, states[i], steps[i]) {
    }
  }

  /** A cancellation is final in a run exactly when no admission, no forced start and no
      forced failure writes to the cancelled row. */
  lemma CancelledIsFinalIff(states: seq<State>, steps: seq<Step>)
    requires Run(states, steps)
    ensures Stays(states, Being(Cancelled)) <==>
            forall i :: 0 <= i < |steps| && states[i].status == Cancelled ==>
              !steps[i].Admit? && !steps[i].ForceStart? && !steps[i].WriteFailed?
  {
    StaysIffNoLateWrite(states, steps, Cancelled);
  }

  /** A job begins, or is dispatched with a write that does not look. */
  predicate SetsInProgress(s: State, step: Step) {
    || step.Admit? || step.ForceStart?
    || (s.status != Cancelled && (step.OtherBegins? || (step.Job? && s.todo.Then? && s.todo.now == Start)))
  }

  lemma ReopensIff(s: State, step: Step)
    requires Enabled(s, step) && Terminal(s.status)
    ensures !Terminal(Next(s, step).status) <==> SetsInProgress(s, step)
  {
  }

  /** The row is over for good exactly when nothing sets it to in progress again. */
  lemma TerminalIsFinalIffNotReopened(states: seq<State>, steps: seq<Step>)
    requires Run(states, steps)
    ensures Stays(states, Terminal) <==>
            forall i :: 0 <= i < |steps| && Terminal(states[i].status) ==> !SetsInProgress(states[i], steps[i])
  {
    StaysIffEachStep(states, Terminal);
    forall i: nat ensures KeptAt(states, Terminal, i) <==>
        i >= |steps| || !(Terminal(states[i].status) && SetsInProgress(states[i], steps[i])) {
      if i < |steps| && Terminal(states[i].status) { ReopensIff(states[i], steps[i]); }
    }
  }

  // ----- runs in which it is not -----

  ghost predicate Reachable(s: State) {
    exists states, steps :: Run(states, steps) && states[|steps|] == s
  }

  lemma Extended(states: seq<State>, steps: seq<Step>, step: Step)
    requires Run(states, steps) && Enabled(states[|steps|], step)
    ensures Run(states + [Next(states[|steps|], step)], steps + [step])
  {
    var more, moves := states + [Next(states[|steps|], step)], steps + [step];
    forall i | 0 <= i < |moves| ensures Enabled(more[i], moves[i]) && more[i + 1] == Next(more[i], moves[i]) {
      if i < |steps| { assert more[i] == states[i] && more[i + 1] == states[i + 1] && moves[i] == steps[i]; }
    }
  }

  lemma Reached(s: State, step: Step, t: State)
    requires Reachable(s) && Enabled(s, step) && t == Next(s, step)
    ensures Reachable(t)
  {
    var states: seq<State>, steps: seq<Step> :| Run(states, steps) && states[|steps|] == s;
    Extended(states, steps, step);
    assert (states + [t])[|steps + [step]|] == t;
  }

  /** The same for the job's own steps, as long as they do not reopen the row. */
  lemma Moved(s: State, c: Choice, t: State)
    requires Reachable(s) && s.todo.Then? && t == JobStep(s, c) && s.status == InProgress == t.status
    ensures Reachable(t)
  {
    Reached(s, Job(c), t);
  }

  lemma MovedOn(s: State, c: Choice, t: State)
    requires Reachable(s) && s.todo.Then? && t == JobStep(s, c) && t.status == Finished
    ensures Reachable(t)
  {
    Reached(s, Job(c), t);
  }

  /** A late write in a reachable state makes a run in which its status is not absorbing. */
  lemma LateWriteHappens(s: State, step: Step)
    requires Reachable(s) && Enabled(s, step) && LateWrite(s, step)
    ensures exists states, steps :: Run(states, steps) && !Stays(states, Being(s.status))
  {
    var states: seq<State>, steps: seq<Step> :| Run(states, steps) && states[|steps|] == s;
    Extended(states, steps, step);
    ChangesIffLate(s, step);
    var more := states + [Next(s, step)];
    StaysIffEachStep(more, Being(s.status));
    assert !KeptAt(more, Being(s.status), |steps|);
    assert Run(more, steps + [step]);
  }

  function Fresh(restart: bool): State {
    State(Queued, Done, false, restart, false, 0, 0, 0, 0, Environment(0, 0, 0, 0, 0, 0, 0))
  }

  lemma FreshIsReachable(restart: bool)
    ensures Reachable(Fresh(restart))
  {
    assert Run([Fresh(restart)], []);
  }

  /** A stale admission: the row was cancelled after it was read as queued. */
  lemma CancelledCanRun()
    ensures exists states, steps :: Run(states, steps) && !Stays(states, Being(Cancelled))
  {
    var s0 := Fresh(false);
    FreshIsReachable(false);
    var s1 := Next(s0, SelectQueued);
    Reached(s0, SelectQueued, s1);
    var s2 := Next(s1, UserCancel);
    Reached(s1, UserCancel, s2);
    LateWriteHappens(s2, Admit(true));
  }

  /** A completion of an open row has its effect. */
  lemma Completes(s: State) returns (t: State)
    requires Reachable(s) && s.status == InProgress && s.todo.Then? && s.todo.now == Transition(Success)
    ensures Reachable(t)
    ensures t == s.(status := Finished, successes := s.successes + 1, todo := Then(QueueNext, s.todo.later))
  {
    var u := s.(status := Finished, todo := Then(Effects(Success), Then(QueueNext, s.todo.later)));
    MovedOn(s, Proceed, u);
    t := JobStep(u, Proceed);
    MovedOn(u, Proceed, t);
  }

  /** The dispatcher runs a deployment that builds nothing, up to its effects. */
  lemma Deploys(s: State) returns (t: State)
    requires Reachable(s) && s.status == InProgress && s.todo.Then? && s.todo.now == Dispatch && !s.restartOnly
    ensures Reachable(t)
    ensures t == s.(status := Finished, successes := s.successes + 1, dispatches := s.dispatches + 1,
                    todo := Then(QueueNext, Then(AfterFinish, s.todo.later)))
  {
    var s1 := JobStep(s, Proceed);
    Moved(s, Proceed, s1);
    var s2 := JobStep(s1, Skip);
    Moved(s1, Skip, s2);
    t := Completes(s2);
  }

  /** The job has been started by force and is about to enter the dispatcher. */
  function Forced(restart: bool): State {
    Fresh(restart).(status := InProgress, dispatched := true, todo := Then(Dispatch, Done))
  }

  /** The job has been started by force and has not begun. */
  function Begun(restart: bool): State {
    Fresh(restart).(status := InProgress, dispatched := true, todo := Then(Start, Done))
  }

  lemma BegunIsReachable(restart: bool)
    ensures Reachable(Begun(restart))
  {
    var s := Fresh(restart);
    FreshIsReachable(restart);
    assert Enabled(s, ForceStart(true));
    assert Written(s, ForceStart(true)) == InProgress && !Reopens(s, ForceStart(true));
    assert Rest(s, ForceStart(true)) == s.(dispatched := true, todo := Then(Start, Done));
    assert Next(s, ForceStart(true)) == Begun(restart);
    Reached(s, ForceStart(true), Begun(restart));
  }

  lemma ForcedIsReachable(restart: bool)
    ensures Reachable(Forced(restart))
  {
    BegunIsReachable(restart);
    var s := Begun(restart);
    assert Continue(s, Proceed) == Then(Dispatch, Done) && !Throws(s, Proceed) && StatusAfter(s) == InProgress;
    assert JobStep(s, Proceed) == Forced(restart);
    Moved(s, Proceed, Forced(restart));
  }

  /** A deployment that went through on a row that was started by force twice. */
  lemma FinishedWithAnotherJob() returns (s: State)
    ensures Reachable(s) && s.status == Finished && s.successes == 1 && s.env == Environment(0, 0, 0, 1, 0, 0, 0)
  {
    var s0 := Forced(false);
    ForcedIsReachable(false);
    var s1 := s0.(env := Environment(0, 0, 0, 1, 0, 0, 0));
    Reached(s0, ForceStart(false), s1);
    s := Deploys(s1);
  }

  /** The Cancel button of the deployment page turns a finished deployment into a cancelled one. */
  lemma FinishedCanBecomeCancelled()
    ensures exists states, steps :: Run(states, steps) && !Stays(states, Being(Finished))
  {
    var s := FinishedWithAnotherJob();
    LateWriteHappens(s, UserCancel);
  }

  /** Two jobs for one row deploy twice: the second reopens what the first finished. */
  lemma EffectsCanHappenTwice()
    ensures exists s :: Reachable(s) && s.successes + s.env.completed == 2
  {
    var s0 := FinishedWithAnotherJob();
    var s1 := Next(s0, OtherBegins);
    Reached(s0, OtherBegins, s1);
    var s2 := Next(s1, OtherCompletes(Success));
    Reached(s1, OtherCompletes(Success), s2);
    assert s2.successes + s2.env.completed == 2;
  }

  /** There is a run that ends with this step, which overwrites this status. */
  ghost predicate Overwrites(step: Step, status: Status) {
    exists states, steps :: Run(states, steps) && !Stays(states, Being(status)) && steps != [] && steps[|steps| - 1] == step
  }

  lemma LateWriteEnds(s: State, step: Step)
    requires Reachable(s) && Enabled(s, step) && LateWrite(s, step)
    ensures Overwrites(step, s.status)
  {
    var states: seq<State>, steps: seq<Step> :| Run(states, steps) && states[|steps|] == s;
    Extended(states, steps, step);
    ChangesIffLate(s, step);
    var more, moves := states + [Next(s, step)], steps + [step];
    StaysIffEachStep(more, Being(s.status));
    assert !KeptAt(more, Being(s.status), |steps|);
    assert Run(more, moves) && moves[|moves| - 1] == step;
  }

  lemma Selects(s: State, step: Step, t: State)
    requires Reachable(s) && s.status == InProgress && (step == SelectActive || step == SelectStuck)
    requires t == if step == SelectActive then s.(env := s.env.(cancelling := s.env.cancelling + 1))
                  else s.(env := s.env.(failing := s.env.failing + 1))
    ensures Reachable(t)
  {
    assert Enabled(s, step) && Written(s, step) == InProgress && !Reopens(s, step);
    assert Rest(s, step) == t;
    assert Next(s, step) == t;
    Reached(s, step, t);
  }

  /** The deletion of a preview that read the row while it was active. */
  lemma DeletionOverwritesFinished()
    ensures Overwrites(WriteCancel, Finished)
  {
    var s0 := Forced(false);
    ForcedIsReachable(false);
    var s1 := s0.(env := s0.env.(cancelling := 1));
    Selects(s0, SelectActive, s1);
    var s2 := Deploys(s1);
    assert s2.env.cancelling == 1 && s2.status == Finished;
    LateWriteEnds(s2, WriteCancel);
  }

  /** The queue check that read the row while it was active. */
  lemma QueueCheckOverwritesFinished()
    ensures Overwrites(WriteFailed, Finished)
  {
    var s0 := Forced(false);
    ForcedIsReachable(false);
    var s1 := s0.(env := s0.env.(failing := 1));
    Selects(s0, SelectStuck, s1);
    var s2 := Deploys(s1);
    assert s2.env.failing == 1 && s2.status == Finished;
    LateWriteEnds(s2, WriteFailed);
  }

  /** A job that begins after the start-up clean-up failed its row. */
  lemma BeginningOverwritesFailed()
    ensures Overwrites(Job(Proceed), Failed)
  {
    var s0 := Begun(false);
    BegunIsReachable(false);
    var s1 := s0.(status := Failed);
    assert Enabled(s0, FailStuck) && Written(s0, FailStuck) == Failed && !Reopens(s0, FailStuck) && Rest(s0, FailStuck) == s0;
    assert Next(s0, FailStuck) == s1;
    Reached(s0, FailStuck, s1);
    LateWriteEnds(s1, Job(Proceed));
  }

  function EffectsOf(s: State): nat { s.successes + s.failures + s.env.completed }

  lemma {:induction false} NeverReopened(states: seq<State>, steps: seq<Step>)
    requires Run(states, steps) && Stays(states, Terminal)
    ensures states[|steps|].env.reopened == 0
    decreases |steps|
  {
    if steps != [] {
      var n := |steps| - 1;
      RunPrefix(states, steps);
      assert forall i :: 0 <= i < |steps| ==> states[..|steps|][i] == states[i];
      NeverReopened(states[..|steps|], steps[..n]);
      assert Terminal(states[n].status) ==> Terminal(states[n + 1].status);
    }
  }

  /** The jobs of a row have their effects at most once in every run, if and only if
      nothing may set a terminal row to in progress again. */
  lemma AtMostOnceIffGuarded(guarded: bool)
    ensures (forall states, steps :: Run(states, steps) && (guarded ==> Stays(states, Terminal)) ==>
               EffectsOf(states[|steps|]) <= 1) <==> guarded
  {
    if guarded {
      forall states, steps | Run(states, steps) && Stays(states, Terminal) ensures EffectsOf(states[|steps|]) <= 1 {
        AtMostOnce(states, steps);
        NeverReopened(states, steps);
      }
    } else {
      EffectsCanHappenTwice();
      var s :| Reachable(s) && s.successes + s.env.completed == 2;
      var states: seq<State>, steps: seq<Step> :| Run(states, steps) && states[|steps|] == s;
      assert EffectsOf(states[|steps|]) > 1;
    }
  }

  /** A restart that turns into a full build enters the dispatcher again. */
  lemma Rebuilds() returns (s: State)
    ensures Reachable(s)
    ensures s == Forced(true).(restartOnly := false, dispatches := 1, todo := Then(Dispatch, Then(Transition(Success), Done)))
  {
    var s0 := Forced(true);
    ForcedIsReachable(true);
    var s1 := s0.(dispatches := 1, todo := Then(SkipOrRebuild, Then(Transition(Success), Done)));
    Moved(s0, Proceed, s1);
    s := JobStep(s1, Alternate);
    Moved(s1, Alternate, s);
  }

  /** ... and in the end has only its own completion ahead. */
  lemma RebuiltRestart() returns (s: State)
    ensures Reachable(s) && s.status == Finished && !s.handling && s.dispatches == 2 && s.successes == 1
    ensures s.todo == Then(Transition(Success), Done) && s.env.reopened == 0
  {
    var s0 := Rebuilds();
    var s1 := Deploys(s0);
    var s2 := s1.(queued := s1.queued + 1, todo := Then(AfterFinish, Then(Transition(Success), Done)));
    MovedOn(s1, Proceed, s2);
    s := s2.(todo := Then(Transition(Success), Done));
    MovedOn(s2, Proceed, s);
  }

  /** If someone starts the deployment by force in between, the outer completion counts too. */
  lemma OuterCompletionCanCount()
    ensures exists s :: Reachable(s) && s.dispatches == 2 && s.successes == 2 && s.env.reopened == 1
  {
    var s0 := RebuiltRestart();
    var s1 := Next(s0, ForceStart(false));
    Reached(s0, ForceStart(false), s1);
    var s2 := Completes(s1);
    assert s2.dispatches == 2 && s2.successes == 2;
  }
}
