/** The restart-limit flag of one application: push jobs of any number of servers claim
    it by a conditional update and then dispatch a stop; a deployment or a snapshot
    without the application's containers resets it. Every interleaving.

    The conditional update is one atomic step; a job that won it goes on to dispatch. */
module RestartLimit {

  datatype Event = Flip(w: nat) | Dispatch(w: nat) | Reset

  datatype State = State(
    flag: bool,              // restart_limit_reached
    restarts: int,
    maxRestarts: int,
    winners: set<nat>,       // jobs that claimed the flag and have not dispatched yet
    log: seq<Event>)

  datatype Step =
    | Push(w: nat, observed: int)   // a job evaluates the restart count it sees
    | Stop(w: nat)                  // a winner dispatches the stop
    | Deployed                      // a successful deployment
    | Absent                        // a complete snapshot without the application

  /** `patient`: a reset happens only while no winner has yet to dispatch. */
  predicate Enabled(patient: bool, s: State, step: Step) {
    match step
    case Push(w, _) => w !in s.winners
    case Stop(w) => w in s.winners
    case Deployed => patient ==> s.winners == {}
    case Absent => patient ==> s.winners == {}
  }

  predicate LimitReached(s: State, observed: int) {
    s.maxRestarts > 0 && observed >= s.maxRestarts
  }

  function Note(s: State, e: Event): State {
    s.(log := s.log + [e])
  }

  function Next(s: State, step: Step): State {
    match step
    case Push(w, observed) =>
      var t := if observed > s.restarts then s.(restarts := observed) else s;
      if LimitReached(s, observed) && !s.flag
      then Note(t.(flag := true, winners := s.winners + {w}), Flip(w))
      else t
    case Stop(w) => Note(s.(winners := s.winners - {w}), Dispatch(w))
    case Deployed => Note(s.(flag := false, restarts := 0), Reset)
    case Absent => Note(s.(flag := false), Reset)
  }

  /** Runs, by their last step. */
  datatype Run = Start(s: State) | Then(run: Run, step: Step)

  function Final(r: Run): State {
    match r
    case Start(s) => s
    case Then(run, step) => Next(Final(run), step)
  }

  predicate Possible(patient: bool, r: Run) {
    match r
    case Start(s) => s.winners == {} && s.log == []
    case Then(run, step) => Possible(patient, run) && Enabled(patient, Final(run), step)
  }

  function First(r: Run): State {
    if r.Start? then r.s else First(r.run)
  }

  // ---- Counting ----

  function Count(log: seq<Event>, p: Event -> bool): nat {
    if log == [] then 0
    else Count(log[..|log| - 1], p) + if p(log[|log| - 1]) then 1 else 0
  }

  lemma CountNext(log: seq<Event>, e: Event, p: Event -> bool)
    ensures Count(log + [e], p) == Count(log, p) + if p(e) then 1 else 0
  {
    assert (log + [e])[..|log|] == log;
  }

  predicate IsFlip(e: Event) { e.Flip? }
  predicate IsDispatch(e: Event) { e.Dispatch? }
  predicate IsReset(e: Event) { e.Reset? }
  function Only(e: Event): Event -> bool { (f: Event) => f == e }

  function Bit(b: bool): nat { if b then 1 else 0 }

  /** The event that a step leaves in the log, if any. */
  function Emitted(s: State, step: Step): seq<Event> {
    match step
    case Push(w, observed) => if LimitReached(s, observed) && !s.flag then [Flip(w)] else []
    case Stop(w) => [Dispatch(w)]
    case Deployed => [Reset]
    case Absent => [Reset]
  }

  lemma CountStep(s: State, step: Step, p: Event -> bool)
    ensures Count(Next(s, step).log, p) ==
            Count(s.log, p) + if Emitted(s, step) != [] && p(Emitted(s, step)[0]) then 1 else 0
  {
    if Emitted(s, step) != [] { CountNext(s.log, Emitted(s, step)[0], p); }
  }

  /** Each job dispatches exactly once for each of its flips: it is one behind only
      between the two. */
  lemma {:induction false} OneDispatchPerFlip(patient: bool, r: Run, w: nat)
    requires Possible(patient, r)
    ensures Count(Final(r).log, Only(Flip(w))) == Count(Final(r).log, Only(Dispatch(w))) + Bit(w in Final(r).winners)
  {
    if r.Then? {
      OneDispatchPerFlip(patient, r.run, w);
      BalanceKept(patient, Final(r.run), r.step, w);
    }
  }

  lemma BalanceKept(patient: bool, s: State, step: Step, w: nat)
    requires Enabled(patient, s, step)
    requires Count(s.log, Only(Flip(w))) == Count(s.log, Only(Dispatch(w))) + Bit(w in s.winners)
    ensures var t := Next(s, step);
            Count(t.log, Only(Flip(w))) == Count(t.log, Only(Dispatch(w))) + Bit(w in t.winners)
  {
    CountStep(s, step, Only(Flip(w)));
    CountStep(s, step, Only(Dispatch(w)));
  }

  /** So overall the flips are the dispatches and the waiting winners. */
  lemma {:induction false} FlipsAreStopsAndWinners(patient: bool, r: Run)
    requires Possible(patient, r)
    ensures Count(Final(r).log, IsFlip) == Count(Final(r).log, IsDispatch) + |Final(r).winners|
  {
    if r.Then? {
      FlipsAreStopsAndWinners(patient, r.run);
      CountStep(Final(r.run), r.step, IsFlip);
      CountStep(Final(r.run), r.step, IsDispatch);
    }
  }

  lemma {:induction false} FlipsAreBounded(patient: bool, r: Run)
    requires Possible(patient, r)
    ensures Count(Final(r).log, IsFlip) + Bit(First(r).flag) <= Count(Final(r).log, IsReset) + Bit(Final(r).flag)
  {
    if r.Then? {
      FlipsAreBounded(patient, r.run);
      CountStep(Final(r.run), r.step, IsFlip);
      CountStep(Final(r.run), r.step, IsReset);
    }
  }

  /** There are never more stops than resets, but for the first. */
  lemma StopsAreBounded(patient: bool, r: Run)
    requires Possible(patient, r)
    ensures Count(Final(r).log, IsDispatch) + Bit(First(r).flag) <= Count(Final(r).log, IsReset) + 1
  {
    FlipsAreStopsAndWinners(patient, r);
    FlipsAreBounded(patient, r);
  }

  // ---- What makes the flag flip ----

  /** A job flips the flag exactly when it is down, there is a limit, and the restarts it
      sees have reached it; the recorded count is the highest seen. */
  lemma FlipsIff(s: State, w: nat, observed: int)
    ensures var t := Next(s, Push(w, observed));
            && (t.log == s.log + [Flip(w)] <==> !s.flag && s.maxRestarts > 0 && observed >= s.maxRestarts)
            && (t.log == s.log + [Flip(w)] || t.log == s.log)
            && (t.flag <==> s.flag || (s.maxRestarts > 0 && observed >= s.maxRestarts))
            && t.restarts >= s.restarts && t.restarts >= observed && (t.restarts == s.restarts || t.restarts == observed)
  {
    assert |s.log + [Flip(w)]| == |s.log| + 1;
  }

  lemma ResetsClear(s: State)
    ensures !Next(s, Deployed).flag && Next(s, Deployed).restarts == 0
    ensures !Next(s, Absent).flag && Next(s, Absent).restarts == s.restarts
  {
  }

  /** A count that reached the limit lies behind every flip of every run. */
  ghost predicate Seen(r: Run, w: nat) {
    r.Then? && (Seen(r.run, w) ||
                (r.step.Push? && r.step.w == w && Final(r.run).maxRestarts > 0 && r.step.observed >= Final(r.run).maxRestarts))
  }

  lemma {:induction false} FlipMeansSeen(patient: bool, r: Run, w: nat)
    requires Possible(patient, r) && Flip(w) in Final(r).log
    ensures Seen(r, w)
  {
    if r.Then? {
      var s := Final(r.run);
      if r.step.Push? { FlipsIff(s, r.step.w, r.step.observed); }
      if Flip(w) in s.log { FlipMeansSeen(patient, r.run, w); }
    }
  }

  // ---- Resets between flips ----

  ghost predicate ResetAfter(log: seq<Event>, i: nat) {
    exists k :: i < k < |log| && log[k] == Reset
  }

  ghost predicate ResetBetween(log: seq<Event>, i: nat, j: nat) {
    exists k :: i < k < j < |log| && log[k] == Reset
  }

  lemma ResetAfterNext(log: seq<Event>, e: Event, i: nat)
    requires i < |log|
    ensures ResetAfter(log + [e], i) <==> ResetAfter(log, i) || e == Reset
    ensures ResetAfter(log, i) <==> ResetBetween(log + [e], i, |log|)
  {
    var more := log + [e];
    if k :| i < k < |log| && log[k] == Reset {
      assert more[k] == Reset;
    }
    if k :| i < k < |more| && more[k] == Reset {
      assert k < |log| ==> log[k] == Reset;
    }
    if e == Reset { assert more[|log|] == Reset; }
  }

  /** Any two events of the kind have a reset between them. */
  ghost predicate Apart(log: seq<Event>, p: Event -> bool) {
    forall i, j :: 0 <= i < j < |log| && p(log[i]) && p(log[j]) ==> ResetBetween(log, i, j)
  }

  /** Every event of the kind has been followed by a reset. */
  ghost predicate Cleared(log: seq<Event>, p: Event -> bool) {
    forall i :: 0 <= i < |log| && p(log[i]) ==> ResetAfter(log, i)
  }

  lemma ApartNext(log: seq<Event>, e: Event, p: Event -> bool)
    requires Apart(log, p) && (p(e) ==> Cleared(log, p))
    ensures Apart(log + [e], p)
  {
    var more := log + [e];
    forall i, j | 0 <= i < j < |more| && p(more[i]) && p(more[j]) ensures ResetBetween(more, i, j) {
      if j < |log| {
        assert ResetBetween(log, i, j);
        var k :| i < k < j < |log| && log[k] == Reset;
        assert more[k] == Reset;
      } else {
        ResetAfterNext(log, e, i);
      }
    }
  }

  lemma ClearedNext(log: seq<Event>, e: Event, p: Event -> bool)
    ensures e == Reset && !p(e) ==> Cleared(log + [e], p)
    ensures Cleared(log, p) && !p(e) ==> Cleared(log + [e], p)
  {
    forall i | 0 <= i < |log| ensures ResetAfter(log + [e], i) <==> ResetAfter(log, i) || e == Reset {
      ResetAfterNext(log, e, i);
    }
  }

  /** The conditional update: no two flips without a reset in between. */
  lemma {:induction false} FlipsAreApart(patient: bool, r: Run)
    requires Possible(patient, r)
    ensures Apart(Final(r).log, IsFlip)
    ensures !Final(r).flag ==> Cleared(Final(r).log, IsFlip)
  {
    if r.Then? {
      FlipsAreApart(patient, r.run);
      var s, t := Final(r.run), Final(r);
      if |t.log| > |s.log| {
        var e := t.log[|s.log|];
        ApartNext(s.log, e, IsFlip);
        ClearedNext(s.log, e, IsFlip);
      }
    }
  }

  // ---- Resets between dispatches ----

  /** With patient resets at most one winner waits, and every earlier stop has been reset. */
  ghost predicate OneAtATime(s: State) {
    && (s.winners != {} ==> s.flag && Cleared(s.log, IsDispatch) && exists w :: s.winners == {w})
    && (!s.flag ==> Cleared(s.log, IsDispatch))
  }

  lemma {:induction false} PatientStopsAreApart(r: Run)
    requires Possible(true, r)
    ensures Apart(Final(r).log, IsDispatch) && OneAtATime(Final(r))
  {
    if r.Then? {
      PatientStopsAreApart(r.run);
      var s, t := Final(r.run), Final(r);
      if |t.log| > |s.log| {
        var e := t.log[|s.log|];
        ApartNext(s.log, e, IsDispatch);
        ClearedNext(s.log, e, IsDispatch);
        if e.Flip? { assert t.winners == {e.w}; }
        if e.Dispatch? { assert t.winners == {}; }
      }
    }
  }

  /** Two jobs win in turn, with a reset between their claims but none between their stops. */
  function LateStop(): Run {
    Then(Then(Then(Then(Then(Start(State(false, 0, 1, {}, [])),
      Push(0, 1)), Deployed), Push(1, 1)), Stop(0)), Stop(1))
  }

  lemma LateStopHappens()
    ensures Possible(false, LateStop())
    ensures Final(LateStop()).log == [Flip(0), Reset, Flip(1), Dispatch(0), Dispatch(1)]
    ensures !Apart(Final(LateStop()).log, IsDispatch)
  {
    var r0 := Start(State(false, 0, 1, {}, []));
    var r1 := Then(r0, Push(0, 1));
    var r2 := Then(r1, Deployed);
    var r3 := Then(r2, Push(1, 1));
    var r4 := Then(r3, Stop(0));
    assert Final(r1) == State(true, 1, 1, {0}, [Flip(0)]);
    assert Final(r2) == State(false, 0, 1, {0}, [Flip(0), Reset]);
    assert Final(r3) == State(true, 1, 1, {0, 1}, [Flip(0), Reset, Flip(1)]);
    assert Final(r4) == State(true, 1, 1, {1}, [Flip(0), Reset, Flip(1), Dispatch(0)]);
    assert Possible(false, r1) && Possible(false, r2) && Possible(false, r3) && Possible(false, r4);
    var log := Final(LateStop()).log;
    assert log == [Flip(0), Reset, Flip(1), Dispatch(0), Dispatch(1)];
    assert IsDispatch(log[3]) && IsDispatch(log[4]) && !ResetBetween(log, 3, 4);
  }

  /** In every run any two stops have a reset between them, exactly when no reset may
      overtake a winner that has not dispatched yet. */
  lemma StopsAreApartIffPatient(patient: bool)
    ensures (forall r :: Possible(patient, r) ==> Apart(Final(r).log, IsDispatch)) <==> patient
  {
    if patient {
      forall r | Possible(patient, r) ensures Apart(Final(r).log, IsDispatch) {
        PatientStopsAreApart(r);
      }
    } else {
      LateStopHappens();
    }
  }
}
