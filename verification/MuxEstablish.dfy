/** Double-checked locking around the shared SSH master of one server, for any
    number of workers.

    The lock does not expire while it is held, and once an establish has succeeded the
    master changes no more by itself. */
module MuxEstablish {
  import opened Text

  datatype Master = Absent | Sick | Well

  datatype Pc =
    | Idle             // before the first check
    | Waiting          // for the lock
    | Holding          // has the lock, before the second check
    | NotReusable      // the second check said no
    | Removing         // a master exists that cannot be used
    | Establishing
    | Returned(ok: bool)

  datatype State = State(
    checkHealth: bool,         // mux_health_check_enabled
    renews: bool,              // an establish that exits with 0 has made a new master
    master: Master,
    holder: Option<nat>,       // who has the lock
    workers: seq<Pc>,
    established: nat)          // establish commands that succeeded

  datatype Step =
    | FirstCheck(w: nat)
    | Acquire(w: nat)
    | TimeOut(w: nat)
    | SecondCheck(w: nat)
    | LookForMaster(w: nat)
    | Remove(w: nat, works: bool)
    | Establish(w: nat, works: bool)
    | Attach(w: nat)           // exit 0, but through the old master that would not go away
    | Abort(w: nat)            // an exception under the lock
    | Drift(to: Master)        // a master that nobody established here changes by itself

  predicate Reusable(s: State) {
    s.master == Well || (s.master == Sick && !s.checkHealth)
  }

  predicate UnderLock(pc: Pc) {
    pc == Holding || pc == NotReusable || pc == Removing || pc == Establishing
  }

  predicate Init(s: State) {
    s.holder == None && s.established == 0 && forall w :: 0 <= w < |s.workers| ==> s.workers[w] == Idle
  }

  predicate Is(s: State, w: nat, pc: Pc) {
    w < |s.workers| && s.workers[w] == pc
  }

  predicate InLock(s: State, w: nat) {
    w < |s.workers| && UnderLock(s.workers[w])
  }

  predicate Enabled(s: State, step: Step) {
    match step
    case FirstCheck(w) => Is(s, w, Idle)
    case Acquire(w) => Is(s, w, Waiting) && s.holder == None
    case TimeOut(w) => Is(s, w, Waiting)
    case SecondCheck(w) => Is(s, w, Holding)
    case LookForMaster(w) => Is(s, w, NotReusable)
    case Remove(w, _) => Is(s, w, Removing)
    case Establish(w, _) => Is(s, w, Establishing)
    case Attach(w) => Is(s, w, Establishing) && s.master != Absent && !s.renews
    case Abort(w) => InLock(s, w)
    case Drift(_) => s.established == 0
  }

  function Goto(s: State, w: nat, pc: Pc): State
    requires w < |s.workers|
  {
    s.(workers := s.workers[w := pc])
  }

  /** Leaving the locked section, with its answer. */
  function Leave(s: State, w: nat, ok: bool): State
    requires w < |s.workers|
  {
    Goto(s, w, Returned(ok)).(holder := None)
  }

  function Next(s: State, step: Step): State
    requires Enabled(s, step)
  {
    match step
    case FirstCheck(w) => Goto(s, w, if Reusable(s) then Returned(true) else Waiting)
    case Acquire(w) => Goto(s, w, Holding).(holder := Some(w))
    case TimeOut(w) => Goto(s, w, Returned(false))
    case SecondCheck(w) => if Reusable(s) then Leave(s, w, true) else Goto(s, w, NotReusable)
    case LookForMaster(w) => Goto(s, w, if s.master != Absent then Removing else Establishing)
    case Remove(w, works) => Goto(s, w, Establishing).(master := if works then Absent else s.master)
    case Establish(w, works) =>
      if works then Leave(s, w, true).(master := Well, established := s.established + 1)
      else Leave(s, w, false)
    case Attach(w) => Leave(s, w, true).(established := s.established + 1)
    case Abort(w) => Leave(s, w, false)
    case Drift(to) => s.(master := to)
  }

  ghost predicate Run(states: seq<State>, steps: seq<Step>) {
    && |states| == |steps| + 1 && Init(states[0])
    && forall i :: 0 <= i < |steps| ==> Enabled(states[i], steps[i]) && states[i + 1] == Next(states[i], steps[i])
  }

  ghost predicate Inv(s: State) {
    && (forall w: nat :: w < |s.workers| ==> (UnderLock(s.workers[w]) <==> s.holder == Some(w)))
    && (s.renews ==> s.established <= 1)
    && (s.renews && s.established == 1 ==>
          s.master == Well && forall w :: 0 <= w < |s.workers| && UnderLock(s.workers[w]) ==> s.workers[w] == Holding)
  }

  lemma InvKept(s: State, step: Step)
    requires Inv(s) && Enabled(s, step)
    ensures Inv(Next(s, step))
  {
  }

  lemma {:induction false} InvHolds(states: seq<State>, steps: seq<Step>)
    requires Run(states, steps)
    ensures Inv(states[|steps|])
    decreases |steps|
  {
    if steps != [] {
      var n := |steps| - 1;
      assert Run(states[..n + 1], steps[..n]);
      InvHolds(states[..n + 1], steps[..n]);
      InvKept(states[n], steps[n]);
    }
  }

  lemma {:induction false} SettingsStay(states: seq<State>, steps: seq<Step>)
    requires Run(states, steps)
    ensures states[|steps|].renews == states[0].renews
    decreases |steps|
  {
    if steps != [] {
      var n := |steps| - 1;
      assert Run(states[..n + 1], steps[..n]);
      SettingsStay(states[..n + 1], steps[..n]);
      assert states[n + 1] == Next(states[n], steps[n]);
    }
  }

  /** However many workers race: at most one is in the locked section, and if an exit
      status of 0 means a new master, at most one establish succeeds and its master is
      there to stay. */
  lemma AtMostOneEstablished(states: seq<State>, steps: seq<Step>)
    requires Run(states, steps)
    ensures var s := states[|steps|];
            && (states[0].renews ==> s.established <= 1 && (s.established == 1 ==> s.master == Well))
            && (forall v: nat, w: nat ::
                  InLock(s, v) && InLock(s, w) ==> v == w)
  {
    InvHolds(states, steps);
    SettingsStay(states, steps);
  }

  predicate Answered(s: State, w: nat) {
    Is(s, w, Returned(true))
  }

  /** A worker answers yes in the last step, and there is a master to reuse unless it
      attached to one that is not. */
  lemma YesMeansReusable(states: seq<State>, steps: seq<Step>, w: nat)
    requires Run(states, steps) && steps != []
    requires Answered(states[|steps|], w) && !Answered(states[|steps| - 1], w)
    ensures Reusable(states[|steps|]) <==> !(steps[|steps| - 1].Attach? && !Reusable(states[|steps| - 1]))
  {
    var n := |steps| - 1;
    assert states[n + 1] == Next(states[n], steps[n]);
  }

  /** Nothing but the workers themselves brings up a usable master. */
  predicate NoRecovery(s: State, step: Step)
    requires Enabled(s, step)
  {
    step.Drift? ==> !Reusable(Next(s, step))
  }

  /** Without a successful establish there is no usable master and no yes. */
  ghost predicate Unserved(s: State) {
    s.established == 0 ==>
      !Reusable(s) && forall w: nat :: w < |s.workers| ==> s.workers[w] != Returned(true)
  }

  lemma UnservedKept(s: State, step: Step)
    requires Enabled(s, step) && NoRecovery(s, step) && Unserved(s)
    ensures Unserved(Next(s, step))
  {
  }

  lemma {:induction false} UnservedHolds(states: seq<State>, steps: seq<Step>)
    requires Run(states, steps) && !Reusable(states[0])
    requires forall i :: 0 <= i < |steps| ==> NoRecovery(states[i], steps[i])
    ensures Unserved(states[|steps|])
    decreases |steps|
  {
    if steps != [] {
      var n := |steps| - 1;
      assert Run(states[..n + 1], steps[..n]);
      UnservedHolds(states[..n + 1], steps[..n]);
      UnservedKept(states[n], steps[n]);
    }
  }

  /** Starting without a usable master, a yes means that an establish succeeded, and if
      its exit status means a new master, exactly one. */
  lemma YesMeansExactlyOne(states: seq<State>, steps: seq<Step>, w: nat)
    requires Run(states, steps) && !Reusable(states[0])
    requires forall i :: 0 <= i < |steps| ==> NoRecovery(states[i], steps[i])
    requires Answered(states[|steps|], w)
    ensures states[|steps|].established >= 1
    ensures states[0].renews ==> states[|steps|].established == 1 && states[|steps|].master == Well
  {
    UnservedHolds(states, steps);
    InvHolds(states, steps);
    SettingsStay(states, steps);
  }

  // ---- When the answer is yes ----

  /** The step is the worker's own, and answers. */
  predicate Answers(s: State, step: Step, w: nat, ok: bool)
    requires Enabled(s, step)
  {
    w < |s.workers| && !s.workers[w].Returned? && Next(s, step).workers[w] == Returned(ok)
  }

  /** Yes, exactly when a check finds a master (healthy, if that is checked), or when the
      establish command exits with 0. */
  lemma YesIff(s: State, step: Step, w: nat)
    requires Enabled(s, step)
    ensures Answers(s, step, w, true) <==>
            || ((step == FirstCheck(w) || step == SecondCheck(w)) && s.master != Absent && (s.checkHealth ==> s.master == Well))
            || step == Establish(w, true) || step == Attach(w)
  {
  }

  /** No, exactly when the lock cannot be had, something throws under it, or the establish
      command fails. */
  lemma NoIff(s: State, step: Step, w: nat)
    requires Enabled(s, step)
    ensures Answers(s, step, w, false) <==> step == TimeOut(w) || step == Abort(w) || step == Establish(w, false)
  {
  }

  /** A worker under the lock that finds no usable master goes on to establish one, after
      trying to remove what is there. */
  lemma OnTheWay(s: State, w: nat, works: bool)
    ensures Is(s, w, NotReusable) ==>
              Is(Next(s, LookForMaster(w)), w, if s.master == Absent then Establishing else Removing)
    ensures Is(s, w, Removing) ==>
              var t := Next(s, Remove(w, works)); Is(t, w, Establishing) && t.master == if works then Absent else s.master
    ensures Is(s, w, Establishing) ==>
              Next(s, Establish(w, true)).master == Well && Next(s, Establish(w, false)).master == s.master
  {
  }

  // ---- What the exit status has to mean ----

  ghost predicate Reachable(s: State) {
    exists states, steps :: Run(states, steps) && states[|steps|] == s
  }

  lemma Extended(states: seq<State>, steps: seq<Step>, step: Step)
    requires Run(states, steps) && Enabled(states[|steps|], step)
    ensures Run(states + [Next(states[|steps|], step)], steps + [step])
  {
    var more, moves := states + [Next(states[|steps|], step)], steps + [step];
    forall i | 0 <= i < |moves| ensures Enabled(more[i], moves[i]) && more[i + 1] == Next(more[i], moves[i]) {
      if i < |steps| { assert more[i] == states[i] && more[i + 1] == states[i + 1] && moves[i] == steps[i]; }
    }
  }

  lemma Reached(s: State, step: Step, t: State)
    requires Reachable(s) && Enabled(s, step) && t == Next(s, step)
    ensures Reachable(t)
  {
    var states: seq<State>, steps: seq<Step> :| Run(states, steps) && states[|steps|] == s;
    Extended(states, steps, step);
    assert (states + [t])[|steps + [step]|] == t;
  }

  /** From nothing, a worker does get to a master of its own. */
  lemma EstablishesFromNothing(health: bool, renews: bool) returns (s: State)
    ensures Reachable(s) && s.checkHealth == health && s.renews == renews
    ensures s.master == Well && s.established == 1 && s.workers == [Returned(true)] && s.holder == None
  {
    var s0 := State(health, renews, Absent, None, [Idle], 0);
    assert Run([s0], []);
    var s1 := s0.(workers := [Waiting]);
    Reached(s0, FirstCheck(0), s1);
    var s2 := s0.(workers := [Holding], holder := Some(0));
    Reached(s1, Acquire(0), s2);
    var s3 := s2.(workers := [NotReusable]);
    Reached(s2, SecondCheck(0), s3);
    s := Establishes(s3);
  }

  lemma Establishes(s: State) returns (t: State)
    requires Reachable(s) && s.master == Absent && s.workers == [NotReusable] && s.established == 0
    ensures Reachable(t) && t == s.(master := Well, established := 1, workers := [Returned(true)], holder := None)
  {
    var u := s.(workers := [Establishing]);
    Reached(s, LookForMaster(0), u);
    t := Next(u, Establish(0, true));
    Reached(u, Establish(0, true), t);
  }

  /** A sick master that health checks refuse, and an exit status that promises nothing. */
  predicate Stuck(s: State) {
    s.checkHealth && !s.renews && s.master == Sick
  }

  lemma FindsItSick(s: State, w: nat) returns (t: State)
    requires Reachable(s) && Stuck(s) && s.holder == None && Is(s, w, Waiting)
    ensures Reachable(t) && t == Goto(s, w, NotReusable).(holder := Some(w))
  {
    var u := Next(s, Acquire(w));
    Reached(s, Acquire(w), u);
    t := Next(u, SecondCheck(w));
    Reached(u, SecondCheck(w), t);
  }

  lemma CannotRemoveIt(s: State, w: nat) returns (t: State)
    requires Reachable(s) && Stuck(s) && Is(s, w, NotReusable)
    ensures Reachable(t) && t == Goto(s, w, Establishing)
  {
    var u := Next(s, LookForMaster(w));
    Reached(s, LookForMaster(w), u);
    t := Next(u, Remove(w, false));
    Reached(u, Remove(w, false), t);
  }

  /** A worker that cannot remove the sick master attaches to it and answers yes. */
  lemma Attaches(s: State, w: nat) returns (t: State)
    requires Reachable(s) && Stuck(s) && s.holder == None && Is(s, w, Waiting)
    ensures Reachable(t) && t == Goto(s, w, Returned(true)).(established := s.established + 1)
  {
    var u := FindsItSick(s, w);
    var v := CannotRemoveIt(u, w);
    t := Next(v, Attach(w));
    Reached(v, Attach(w), t);
  }

  function Racing(first: Pc, second: Pc): State {
    State(true, false, Sick, None, [first, second], 0)
  }

  lemma BothWait()
    ensures Reachable(Racing(Waiting, Waiting))
  {
    var s0 := Racing(Idle, Idle);
    assert Run([s0], []);
    var s1 := Next(s0, FirstCheck(0));
    Reached(s0, FirstCheck(0), s1);
    Reached(s1, FirstCheck(1), Racing(Waiting, Waiting));
  }

  /** A run in which two workers succeed and neither has a master to reuse. */
  lemma BothAttach() returns (s: State)
    ensures Reachable(s) && !s.renews && s.established == 2 && !Reusable(s)
  {
    BothWait();
    var t := Attaches(Racing(Waiting, Waiting), 0);
    s := Attaches(t, 1);
  }

  /** At most one success, and no yes without a reusable master, once one has succeeded. */
  ghost predicate Sound(s: State) {
    s.established <= 1 && (s.established == 1 ==> Reusable(s))
  }

  /** That holds in every run, if and only if an exit status of 0 means a new master. */
  lemma SoundIffRenews(renews: bool)
    ensures (forall states: seq<State>, steps: seq<Step> :: Run(states, steps) && states[0].renews == renews ==> Sound(states[|steps|]))
            <==> renews
  {
    if renews {
      forall states: seq<State>, steps: seq<Step> | Run(states, steps) && states[0].renews ensures Sound(states[|steps|]) {
        AtMostOneEstablished(states, steps);
      }
    } else {
      var s := BothAttach();
      var states: seq<State>, steps: seq<Step> :| Run(states, steps) && states[|steps|] == s;
      SettingsStay(states, steps);
      assert !Sound(states[|steps|]);
    }
  }
}
