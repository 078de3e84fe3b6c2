/** Retiring the SSH master of one control socket while reapers look for orphans:
    any number of removers, reapers and ssh processes, every interleaving.

    Each command, cache access and file test is one step. A process keeps one
    identity (pid and start time) for life. */
module MuxReaper {
  import opened Text

  type Pid = nat

  datatype Phase =
    | Establishing      // forked, has not bound the socket yet
    | Serving           // the master behind the socket
    | Retired           // stopped: no socket, still finishing its sessions
    | Orphan            // lost the race for the socket

  datatype Remover =
    | Off
    | Found(pid: Option<Pid>)               // what `ssh -O check` printed
    | Between(pid: Option<Pid>, ok: bool)   // after the first of mark and stop
    | Done(pid: Option<Pid>, ok: bool)      // after both; `ok` is the outcome of stop

  datatype Reaper =
    | Resting
    | Listed(p: Pid)       // old enough in the process listing
    | Halfway(p: Pid)      // passed the first of the two tests
    | Condemned(p: Pid)    // passed both

  /** What the protocol and its surroundings guarantee. The first two are the order
      of two statements in the source; the others are about the environment. */
  datatype Guards = Guards(
    markFirst: bool,      // the remover marks before it stops
    socketFirst: bool,    // the reaper tests the socket before the mark
    oneRemover: bool,     // one remover at a time
    noBind: bool,         // no master binds the socket during a removal
    checkSees: bool,      // a check against a serving master prints its pid
    prompt: bool,         // a master binds its socket before the minimum age
    keepsFile: bool)      // a failed stop leaves the socket file in place

  datatype State = State(
    phase: map<Pid, Phase>,      // of the processes that are alive
    owner: Option<Pid>,          // whose socket file is there
    used: set<Pid>,
    aged: set<Pid>,
    marks: set<Pid>,
    removers: seq<Remover>,
    reapers: seq<Reaper>)

  datatype Step =
    | Spawn(p: Pid)
    | Bind(p: Pid)
    | LoseRace(p: Pid)
    | GrowOld(p: Pid)
    | Exit(p: Pid, leavesFile: bool)
    | Check(m: nat, sees: bool)
    | First(m: nat, ok: bool)
    | Second(m: nat, ok: bool)
    | Finish(m: nat)
    | List(r: nat, p: Pid)
    | Look(r: nat)
    | LookAgain(r: nat)
    | Kill(r: nat)

  predicate Is(s: State, p: Pid, ph: Phase) {
    p in s.phase && s.phase[p] == ph
  }

  predicate Quiet(s: State) {
    forall m :: 0 <= m < |s.removers| ==> s.removers[m] == Off
  }

  predicate Init(s: State) {
    && s.phase == map[] && s.owner == None && s.used == {} && s.aged == {} && s.marks == {}
    && Quiet(s) && forall r :: 0 <= r < |s.reapers| ==> s.reapers[r] == Resting
  }

  /** The serving owner of the socket, whom a stop would reach. */
  function Target(s: State): Option<Pid> {
    if s.owner.Some? && Is(s, s.owner.value, Serving) then s.owner else None
  }

  predicate Enabled(g: Guards, s: State, step: Step) {
    match step
    case Spawn(p) => p !in s.used
    case Bind(p) =>
      Is(s, p, Establishing) && (s.owner.Some? ==> s.owner.value !in s.phase) && (g.noBind ==> Quiet(s))
    case LoseRace(p) => Is(s, p, Establishing)
    case GrowOld(p) => p in s.phase && (g.prompt ==> s.phase[p] != Establishing)
    case Exit(p, _) => p in s.phase
    case Check(m, sees) =>
      m < |s.removers| && s.removers[m] == Off && (g.oneRemover ==> Quiet(s)) && (g.checkSees ==> sees)
    case First(m, ok) => m < |s.removers| && s.removers[m].Found? && (ok ==> Target(s).Some?)
    case Second(m, ok) => m < |s.removers| && s.removers[m].Between? && (ok ==> Target(s).Some?)
    case Finish(m) => m < |s.removers| && s.removers[m].Done?
    case List(r, p) => r < |s.reapers| && s.reapers[r] == Resting && p in s.phase && p in s.aged
    case Look(r) => r < |s.reapers| && s.reapers[r].Listed?
    case LookAgain(r) => r < |s.reapers| && s.reapers[r].Halfway?
    case Kill(r) => r < |s.reapers| && s.reapers[r].Condemned?
  }

  function Become(s: State, p: Pid, ph: Phase): State {
    s.(phase := s.phase[p := ph])
  }

  function Mark(s: State, pid: Option<Pid>): State {
    if pid.Some? then s.(marks := s.marks + {pid.value}) else s
  }

  function Unmark(s: State, pid: Option<Pid>): State {
    if pid.Some? then s.(marks := s.marks - {pid.value}) else s
  }

  /** A stop that succeeds retires whoever serves the socket, and the socket is gone. */
  function Stop(s: State, ok: bool): State {
    if ok && Target(s).Some? then Become(s, Target(s).value, Retired).(owner := None) else s
  }

  function Die(s: State, p: Pid): State {
    s.(phase := s.phase - {p})
  }

  function Remove(s: State, m: nat, to: Remover): State
    requires m < |s.removers|
  {
    s.(removers := s.removers[m := to])
  }

  function Reap(s: State, r: nat, to: Reaper): State
    requires r < |s.reapers|
  {
    s.(reapers := s.reapers[r := to])
  }

  function Next(g: Guards, s: State, step: Step): State
    requires Enabled(g, s, step)
  {
    match step
    case Spawn(p) => Become(s, p, Establishing).(used := s.used + {p})
    case Bind(p) => Become(s, p, Serving).(owner := Some(p))
    case LoseRace(p) => Become(s, p, Orphan)
    case GrowOld(p) => s.(aged := s.aged + {p})
    case Exit(p, leavesFile) => Die(s, p).(owner := if s.owner == Some(p) && !leavesFile then None else s.owner)
    case Check(m, sees) => Remove(s, m, Found(if sees then Target(s) else None))
    case First(m, ok) =>
      var pid := s.removers[m].pid;
      Remove(if g.markFirst then Mark(s, pid) else Stop(s, ok), m, Between(pid, ok))
    case Second(m, ok) =>
      var Between(pid, was) := s.removers[m];
      if g.markFirst then Remove(Stop(s, ok), m, Done(pid, ok)) else Remove(Mark(s, pid), m, Done(pid, was))
    case Finish(m) =>
      var Done(pid, ok) := s.removers[m];
      var t := Remove(s, m, Off);
      if ok then t else Unmark(t, pid).(owner := if g.keepsFile then s.owner else None)
    case List(r, p) => Reap(s, r, Listed(p))
    case Look(r) =>
      var p := s.reapers[r].p;
      Reap(s, r, if Passes(g.socketFirst, s, p) then Halfway(p) else Resting)
    case LookAgain(r) =>
      var p := s.reapers[r].p;
      Reap(s, r, if Passes(!g.socketFirst, s, p) then Condemned(p) else Resting)
    case Kill(r) => Reap(Die(s, s.reapers[r].p), r, Resting)
  }

  /** One of the reaper's two tests: the socket file is missing, or the mark is. */
  predicate Passes(socket: bool, s: State, p: Pid) {
    if socket then s.owner == None else p !in s.marks
  }

  /** A kill reaches an orphan, or a process that has gone already. */
  predicate Justified(s: State, step: Step) {
    step.Kill? && step.r < |s.reapers| && s.reapers[step.r].Condemned? && s.reapers[step.r].p in s.phase ==>
      s.phase[s.reapers[step.r].p] == Orphan
  }

  datatype Trace = End | Then(step: Step, rest: Trace)

  predicate Legal(g: Guards, s: State, t: Trace)
    decreases t
  {
    t.Then? ==> Enabled(g, s, t.step) && Legal(g, Next(g, s, t.step), t.rest)
  }

  predicate AllJustified(g: Guards, s: State, t: Trace)
    requires Legal(g, s, t)
    decreases t
  {
    t.Then? ==> Justified(s, t.step) && AllJustified(g, Next(g, s, t.step), t.rest)
  }

  /** No run, from any clean start, kills a master that is establishing, serving or retired. */
  ghost predicate Safe(g: Guards) {
    forall s, t :: Init(s) && Legal(g, s, t) ==> AllJustified(g, s, t)
  }

  predicate AllGuards(g: Guards) {
    g.markFirst && g.socketFirst && g.oneRemover && g.noBind && g.checkSees && g.prompt && g.keepsFile
  }

  // ---- With every guard in place, no run kills a master ----

  /** The serving process owns the socket, the old ones have bound it, the retired are marked. */
  ghost predicate ProcessesOk(s: State) {
    && (forall p :: p in s.phase ==> p in s.used)
    && (forall p :: p in s.aged ==> p in s.used)
    && (forall p :: p in s.phase && p in s.aged ==> s.phase[p] != Establishing)
    && (forall p :: p in s.phase && s.phase[p] == Serving ==> s.owner == Some(p))
    && (forall p :: p in s.phase && s.phase[p] == Retired ==> p in s.marks)
  }

  predicate GoneOr(s: State, p: Pid, phases: set<Phase>) {
    p in s.used && (p in s.phase ==> s.phase[p] in phases)
  }

  predicate RemoverOk(s: State, m: Remover) {
    match m
    case Off => true
    case Found(pid) => Aims(s, pid)
    case Between(pid, _) => Aims(s, pid) && (pid.Some? ==> pid.value in s.marks)
    case Done(pid, ok) => !ok && pid.Some? ==> GoneOr(s, pid.value, {Serving})
  }

  /** The pid the remover works with is the only one that a stop can reach. */
  predicate Aims(s: State, pid: Option<Pid>) {
    && (Target(s).Some? ==> pid == Target(s))
    && (pid.Some? ==> GoneOr(s, pid.value, {Serving}))
  }

  predicate ReaperOk(s: State, r: Reaper) {
    match r
    case Resting => true
    case Listed(p) => p in s.used && p in s.aged
    case Halfway(p) => GoneOr(s, p, {Retired, Orphan})
    case Condemned(p) => GoneOr(s, p, {Orphan})
  }

  ghost predicate RemoversOk(s: State) {
    && (forall m :: 0 <= m < |s.removers| ==> RemoverOk(s, s.removers[m]))
    && (forall m, n :: 0 <= m < n < |s.removers| ==> s.removers[m] == Off || s.removers[n] == Off)
  }

  ghost predicate ReapersOk(s: State) {
    forall r :: 0 <= r < |s.reapers| ==> ReaperOk(s, s.reapers[r])
  }

  ghost predicate Inv(s: State) {
    ProcessesOk(s) && RemoversOk(s) && ReapersOk(s)
  }

  lemma ProcessesKept(g: Guards, s: State, step: Step)
    requires AllGuards(g) && Inv(s) && Enabled(g, s, step)
    ensures ProcessesOk(Next(g, s, step))
  {
  }

  predicate ByRemover(step: Step) {
    step.Check? || step.First? || step.Second? || step.Finish?
  }

  lemma RemoversKeptByRemover(g: Guards, s: State, step: Step)
    requires AllGuards(g) && Inv(s) && Enabled(g, s, step) && ByRemover(step)
    ensures RemoversOk(Next(g, s, step))
  {
  }

  lemma RemoversKeptByOthers(g: Guards, s: State, step: Step)
    requires AllGuards(g) && Inv(s) && Enabled(g, s, step) && !ByRemover(step)
    ensures RemoversOk(Next(g, s, step))
  {
  }

  lemma ReapersKept(g: Guards, s: State, step: Step)
    requires AllGuards(g) && Inv(s) && Enabled(g, s, step)
    ensures ReapersOk(Next(g, s, step))
  {
  }

  lemma {:induction false} InvMeansJustified(g: Guards, s: State, t: Trace)
    requires AllGuards(g) && Inv(s) && Legal(g, s, t)
    ensures AllJustified(g, s, t)
    decreases t
  {
    if t.Then? {
      ProcessesKept(g, s, t.step);
      if ByRemover(t.step) { RemoversKeptByRemover(g, s, t.step); } else { RemoversKeptByOthers(g, s, t.step); }
      ReapersKept(g, s, t.step);
      InvMeansJustified(g, Next(g, s, t.step), t.rest);
    }
  }

  // ---- Without any one of them, some run does ----

  ghost predicate CanMiskill(g: Guards, s: State) {
    exists t :: Legal(g, s, t) && !AllJustified(g, s, t)
  }

  lemma Before(g: Guards, s: State, step: Step)
    requires Enabled(g, s, step) && CanMiskill(g, Next(g, s, step))
    ensures CanMiskill(g, s)
  {
    var t :| Legal(g, Next(g, s, step), t) && !AllJustified(g, Next(g, s, step), t);
    assert Legal(g, s, Then(step, t)) && !AllJustified(g, s, Then(step, t));
  }

  lemma CondemnedIsKilled(g: Guards, s: State, p: Pid)
    requires s.reapers == [Condemned(p)] && p in s.phase && s.phase[p] != Orphan
    ensures CanMiskill(g, s)
  {
    var t := Then(Kill(0), End);
    assert Legal(g, Next(g, s, Kill(0)), End);
    assert Legal(g, s, t);
    assert !Justified(s, t.step);
    assert !AllJustified(g, s, t);
  }

  /** A reaper that looks now, at an old process without socket and mark. */
  lemma LooksNow(g: Guards, s: State, p: Pid)
    requires s.reapers == [Resting] && p in s.phase && s.phase[p] != Orphan
    requires p in s.aged && s.owner == None && p !in s.marks
    ensures CanMiskill(g, s)
  {
    var s1 := Next(g, s, List(0, p));
    var s2 := Next(g, s1, Look(0));
    var s3 := Next(g, s2, LookAgain(0));
    CondemnedIsKilled(g, s3, p);
    Before(g, s2, LookAgain(0));
    Before(g, s1, Look(0));
    Before(g, s, List(0, p));
  }

  function Start(): State {
    State(map[], None, {}, {}, {}, [Off], [Resting])
  }

  function Served(): State {
    State(map[0 := Serving], Some(0), {0}, {0}, {}, [Off], [Resting])
  }

  lemma ServedMiskills(g: Guards)
    requires CanMiskill(g, Served())
    ensures CanMiskill(g, Start())
  {
    var s1 := Next(g, Start(), Spawn(0));
    var s2 := Next(g, s1, Bind(0));
    assert Next(g, s2, GrowOld(0)) == Served();
    Before(g, s2, GrowOld(0));
    Before(g, s1, Bind(0));
    Before(g, Start(), Spawn(0));
  }

  lemma StopBeforeMark(g: Guards)
    requires !g.markFirst
    ensures CanMiskill(g, Start())
  {
    var s1 := Next(g, Served(), Check(0, true));
    var s2 := Next(g, s1, First(0, true));
    LooksNow(g, s2, 0);
    Before(g, s1, First(0, true));
    Before(g, Served(), Check(0, true));
    ServedMiskills(g);
  }

  /** A reaper that has passed the mark test does not notice a removal that starts then. */
  lemma StaleMarkTest(g: Guards, s: State)
    requires !g.socketFirst && s.reapers == [Halfway(0)]
    requires s.owner == None && Is(s, 0, Retired)
    ensures CanMiskill(g, s)
  {
    CondemnedIsKilled(g, Next(g, s, LookAgain(0)), 0);
    Before(g, s, LookAgain(0));
  }

  lemma RemovedMeanwhile(g: Guards, s: State)
    requires !g.socketFirst && s.reapers == [Halfway(0)] && s.removers == [Off]
    requires s.owner == Some(0) && Is(s, 0, Serving)
    ensures CanMiskill(g, s)
  {
    var s1 := Next(g, s, Check(0, true));
    var s2 := Next(g, s1, First(0, true));
    if g.markFirst {
      StaleMarkTest(g, Next(g, s2, Second(0, true)));
      Before(g, s2, Second(0, true));
    } else {
      StaleMarkTest(g, s2);
    }
    Before(g, s1, First(0, true));
    Before(g, s, Check(0, true));
  }

  lemma MarkReadFirst(g: Guards)
    requires !g.socketFirst
    ensures CanMiskill(g, Start())
  {
    var s1 := Next(g, Served(), List(0, 0));
    RemovedMeanwhile(g, Next(g, s1, Look(0)));
    Before(g, s1, Look(0));
    Before(g, Served(), List(0, 0));
    ServedMiskills(g);
  }

  /** Retiring the owner of the socket with a remover that knows no pid. */
  lemma UnknownPid(g: Guards, s: State)
    requires s.removers == [Found(None)] && s.reapers == [Resting]
    requires s.phase == map[0 := Serving] && s.owner == Some(0) && 0 in s.aged && s.marks == {}
    ensures CanMiskill(g, s)
  {
    var s1 := Next(g, s, First(0, true));
    if g.markFirst {
      var s2 := Next(g, s1, Second(0, true));
      LooksNow(g, s2, 0);
      Before(g, s1, Second(0, true));
    } else {
      LooksNow(g, s1, 0);
    }
    Before(g, s, First(0, true));
  }

  lemma CheckMisses(g: Guards)
    requires !g.checkSees
    ensures CanMiskill(g, Start())
  {
    UnknownPid(g, Next(g, Served(), Check(0, false)));
    Before(g, Served(), Check(0, false));
    ServedMiskills(g);
  }

  lemma BindDuringRemoval(g: Guards)
    requires !g.noBind
    ensures CanMiskill(g, Start())
  {
    var s1 := Next(g, Start(), Spawn(0));
    var s2 := Next(g, s1, Check(0, true));
    var s3 := Next(g, s2, Bind(0));
    UnknownPid(g, Next(g, s3, GrowOld(0)));
    Before(g, s3, GrowOld(0));
    Before(g, s2, Bind(0));
    Before(g, s1, Check(0, true));
    Before(g, Start(), Spawn(0));
  }

  function Pair(mark: bool, first: Remover, second: Remover): State {
    State(map[0 := Serving], Some(0), {0}, {0}, if mark then {0} else {}, [first, second], [Resting])
  }

  /** Both removers mark and one stops; the failed stop of the other takes the mark away. */
  lemma UnmarkedByTheOther(g: Guards)
    requires g.markFirst
    ensures CanMiskill(g, Pair(false, Found(Some(0)), Found(Some(0))))
  {
    var s0 := Pair(false, Found(Some(0)), Found(Some(0)));
    var s1 := Pair(true, Between(Some(0), true), Found(Some(0)));
    var s2 := Pair(true, Between(Some(0), true), Between(Some(0), false));
    assert Next(g, s0, First(0, true)) == s1 && Next(g, s1, First(1, false)) == s2;
    StoppedAndUnmarked(g, s2);
    Before(g, s1, First(1, false));
    Before(g, s0, First(0, true));
  }

  lemma StoppedAndUnmarked(g: Guards, s: State)
    requires g.markFirst && s == Pair(true, Between(Some(0), true), Between(Some(0), false))
    ensures CanMiskill(g, s)
  {
    var s1 := Next(g, s, Second(0, true));
    var s2 := Next(g, s1, Second(1, false));
    LooksNow(g, Next(g, s2, Finish(1)), 0);
    Before(g, s2, Finish(1));
    Before(g, s1, Second(1, false));
    Before(g, s, Second(0, true));
  }

  function TwoRemovers(): State {
    Start().(removers := [Off, Off])
  }

  lemma PairMiskills(g: Guards)
    requires CanMiskill(g, Pair(false, Off, Off))
    ensures CanMiskill(g, TwoRemovers())
  {
    var s1 := Next(g, TwoRemovers(), Spawn(0));
    var s2 := Next(g, s1, Bind(0));
    assert Next(g, s2, GrowOld(0)) == Pair(false, Off, Off);
    Before(g, s2, GrowOld(0));
    Before(g, s1, Bind(0));
    Before(g, TwoRemovers(), Spawn(0));
  }

  lemma RemoversOverlap(g: Guards)
    requires !g.oneRemover
    ensures CanMiskill(g, TwoRemovers())
  {
    var s0, s1 := Pair(false, Off, Off), Pair(false, Found(Some(0)), Off);
    var s2 := Pair(false, Found(Some(0)), Found(Some(0)));
    assert Next(g, s0, Check(0, true)) == s1 && Next(g, s1, Check(1, true)) == s2;
    if g.markFirst {
      UnmarkedByTheOther(g);
    } else {
      LooksNow(g, Next(g, s2, First(0, true)), 0);
      Before(g, s2, First(0, true));
    }
    Before(g, s1, Check(1, true));
    Before(g, s0, Check(0, true));
    PairMiskills(g);
  }

  lemma SlowSocket(g: Guards)
    requires !g.prompt
    ensures CanMiskill(g, Start())
  {
    var s1 := Next(g, Start(), Spawn(0));
    LooksNow(g, Next(g, s1, GrowOld(0)), 0);
    Before(g, s1, GrowOld(0));
    Before(g, Start(), Spawn(0));
  }

  lemma FileDeletedAnyway(g: Guards)
    requires !g.keepsFile
    ensures CanMiskill(g, Start())
  {
    var s1 := Next(g, Served(), Check(0, true));
    var s2 := Next(g, s1, First(0, false));
    var s3 := Next(g, s2, Second(0, false));
    LooksNow(g, Next(g, s3, Finish(0)), 0);
    Before(g, s3, Finish(0));
    Before(g, s2, Second(0, false));
    Before(g, s1, First(0, false));
    Before(g, Served(), Check(0, true));
    ServedMiskills(g);
  }

  lemma SomeRunMiskills(g: Guards) returns (s: State)
    requires !AllGuards(g)
    ensures Init(s) && CanMiskill(g, s)
  {
    s := if !g.markFirst || !g.socketFirst || g.oneRemover then Start() else TwoRemovers();
    if !g.markFirst { StopBeforeMark(g); }
    else if !g.socketFirst { MarkReadFirst(g); }
    else if !g.oneRemover { RemoversOverlap(g); }
    else if !g.noBind { BindDuringRemoval(g); }
    else if !g.checkSees { CheckMisses(g); }
    else if !g.prompt { SlowSocket(g); }
    else { FileDeletedAnyway(g); }
  }

  /** The protocol never kills a live master exactly when all seven guards hold. */
  lemma SafeIffAllGuards(g: Guards)
    ensures Safe(g) <==> AllGuards(g)
  {
    if AllGuards(g) {
      forall s, t | Init(s) && Legal(g, s, t) ensures AllJustified(g, s, t) {
        InvMeansJustified(g, s, t);
      }
    } else {
      var s := SomeRunMiskills(g);
      var t :| Legal(g, s, t) && !AllJustified(g, s, t);
    }
  }

  /** Processes come and go whatever removers and reapers do: a new one can always start,
      a starting one can lose the race, any can exit, with or without its socket file, and
      a file without a process does not keep the next master from binding. */
  lemma ProcessesMove(g: Guards, s: State, p: Pid)
    ensures p !in s.used ==> Enabled(g, s, Spawn(p)) && Is(Next(g, s, Spawn(p)), p, Establishing)
    ensures Is(s, p, Establishing) ==> Enabled(g, s, LoseRace(p)) && Is(Next(g, s, LoseRace(p)), p, Orphan)
    ensures Is(s, p, Serving) && s.owner == Some(p) ==>
              && Enabled(g, s, Exit(p, true)) && Next(g, s, Exit(p, true)).owner == Some(p)
              && Enabled(g, s, Exit(p, false)) && Next(g, s, Exit(p, false)).owner == None
              && p !in Next(g, s, Exit(p, true)).phase && p !in Next(g, s, Exit(p, false)).phase
    ensures Is(s, p, Establishing) && Quiet(s) && (s.owner.None? || s.owner.value !in s.phase) ==>
              Enabled(g, s, Bind(p)) && Is(Next(g, s, Bind(p)), p, Serving) && Next(g, s, Bind(p)).owner == Some(p)
    ensures p in s.phase && s.phase[p] != Establishing ==> Enabled(g, s, GrowOld(p)) && p in Next(g, s, GrowOld(p)).aged
  {
  }

  // ---- What the reaper does not do ----

  predicate SocketStays(g: Guards, s: State, t: Trace)
    requires Legal(g, s, t)
    decreases t
  {
    s.owner.Some? && (t.Then? ==> SocketStays(g, Next(g, s, t.step), t.rest))
  }

  predicate Kills(t: Trace) {
    t.Then? && (t.step.Kill? || Kills(t.rest))
  }

  /** The socket test is by path, so an orphan that lost the race for a path is spared
      for as long as the winner's socket file is there. */
  lemma {:induction false} OrphansAreSparedWhileServed(g: Guards, s: State, t: Trace)
    requires g.socketFirst && Legal(g, s, t) && SocketStays(g, s, t)
    requires forall r :: 0 <= r < |s.reapers| ==> s.reapers[r].Resting? || s.reapers[r].Listed?
    ensures !Kills(t)
    decreases t
  {
    if t.Then? {
      OrphansAreSparedWhileServed(g, Next(g, s, t.step), t.rest);
    }
  }

  /** Once the path is free, a reaper that runs undisturbed does kill an old unmarked orphan. */
  lemma OrphanIsReaped(g: Guards, s: State, r: nat, p: Pid)
    requires r < |s.reapers| && s.reapers[r] == Resting
    requires Is(s, p, Orphan) && p in s.aged && p !in s.marks && s.owner == None
    ensures var t := Then(List(r, p), Then(Look(r), Then(LookAgain(r), Then(Kill(r), End))));
            Legal(g, s, t) && AllJustified(g, s, t) && p !in After(g, s, t).phase
  {
    var s1 := Next(g, s, List(r, p));
    var s2 := Next(g, s1, Look(r));
    var s3 := Next(g, s2, LookAgain(r));
    var t3 := Then(Kill(r), End);
    Unroll(g, s3, Kill(r), End);
    Unroll(g, s2, LookAgain(r), t3);
    Unroll(g, s1, Look(r), Then(LookAgain(r), t3));
    Unroll(g, s, List(r, p), Then(Look(r), Then(LookAgain(r), t3)));
  }

  lemma Unroll(g: Guards, s: State, step: Step, t: Trace)
    requires Enabled(g, s, step) && Legal(g, Next(g, s, step), t)
    ensures Legal(g, s, Then(step, t))
    ensures After(g, s, Then(step, t)) == After(g, Next(g, s, step), t)
    ensures AllJustified(g, s, Then(step, t)) <==> Justified(s, step) && AllJustified(g, Next(g, s, step), t)
  {
  }

  function After(g: Guards, s: State, t: Trace): State
    requires Legal(g, s, t)
    decreases t
  {
    if t.End? then s else After(g, Next(g, s, t.step), t.rest)
  }
}
