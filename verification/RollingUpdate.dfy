/** Replacing an application's containers in rolling mode: start the new one, wait
    for its health check, then remove either the old ones or the new one. */
module RollingUpdate {
  import opened Text
  import opened DeploymentLifecycle

  /** One answer to a health probe; Failing means that the probe command itself failed. */
  datatype Reading = Healthy | Unhealthy | Undecided | Failing

  datatype Settings = Settings(
    checkDisabled: bool, customCheck: bool, startPeriod: int, retries: int, interval: int)

  datatype Event = Started(container: string) | Judged(healthy: bool) | Removed(container: string)

  /** What the outside world answers during one rolling update. */
  datatype World = World(
    startWorks: bool,
    probe: nat -> Reading,        // the reading of attempt 1, 2, ...
    listing: Option<seq<string>>, // the containers docker lists, or an error
    stops: set<string>,           // containers whose removal succeeds
    cancelled: bool)              // someone cancels before the verdict is acted upon

  // ----- the verdict -----

  /** The first attempt from a up to retries whose reading decides. */
  function FirstDecisive(probe: nat -> Reading, a: nat, retries: int): (r: Option<nat>)
    ensures r.Some? ==> a <= r.value <= retries && probe(r.value) != Undecided
    ensures r.Some? ==> forall b :: a <= b < r.value ==> probe(b) == Undecided
    ensures r.None? ==> forall b :: a <= b <= retries ==> probe(b) == Undecided
    decreases retries - a
  {
    if a > retries then None
    else if probe(a) != Undecided then Some(a)
    else FirstDecisive(probe, a + 1, retries)
  }

  lemma VerdictIsFirstHealthy(probe: nat -> Reading, retries: int)
    ensures (exists a :: 1 <= a <= retries && probe(a) == Healthy && forall b :: 1 <= b < a ==> probe(b) == Undecided)
            <==> FirstDecisive(probe, 1, retries).Some?
                 && probe(FirstDecisive(probe, 1, retries).value) == Healthy
  {
    var r := FirstDecisive(probe, 1, retries);
    if a :| 1 <= a <= retries && probe(a) == Healthy && forall b :: 1 <= b < a ==> probe(b) == Undecided {
      assert r.Some? && r.value == a;
    }
  }

  function AtLeastZero(n: int): nat {
    if n < 0 then 0 else n
  }

  /** Seconds spent when the loop makes that many undecided attempts. */
  function SleepFor(s: Settings, undecided: nat): nat {
    AtLeastZero(s.startPeriod) + undecided * AtLeastZero(s.interval)
  }

  /** How many attempts read undecided before the loop ends. */
  function Waits(s: Settings, decisive: Option<nat>): nat {
    if decisive.None? then AtLeastZero(s.retries) else if decisive.value == 0 then 0 else decisive.value - 1
  }

  lemma Multiple(n: nat, m: nat)
    ensures (n + 1) * m == n * m + m
  {
  }

  lemma SleepBound(s: Settings, undecided: nat)
    requires undecided <= AtLeastZero(s.retries)
    ensures SleepFor(s, undecided) <= AtLeastZero(s.startPeriod) + AtLeastZero(s.retries) * AtLeastZero(s.interval)
  {
    var r, i := AtLeastZero(s.retries), AtLeastZero(s.interval);
    assert (r - undecided) * i >= 0;
    assert r * i == undecided * i + (r - undecided) * i;
  }

  // ----- what a sequence of events does to the containers -----

  function Apply(containers: set<string>, e: Event): set<string> {
    match e
    case Started(c) => containers + {c}
    case Judged(_) => containers
    case Removed(c) => containers - {c}
  }

  function Replay(start: set<string>, log: seq<Event>): set<string> {
    if log == [] then start else Apply(Replay(start, log[..|log| - 1]), log[|log| - 1])
  }

  /** Either nothing of the old version is gone, or the new one runs and was judged healthy. */
  predicate Available(start: set<string>, name: string, log: seq<Event>) {
    start <= Replay(start, log) || (Judged(true) in log && name in Replay(start, log))
  }

  ghost predicate AlwaysAvailable(start: set<string>, name: string, log: seq<Event>) {
    forall n :: 0 <= n <= |log| ==> Available(start, name, log[..n])
  }

  lemma OneMoreEvent(start: set<string>, name: string, log: seq<Event>, e: Event)
    requires AlwaysAvailable(start, name, log) && Available(start, name, log + [e])
    ensures AlwaysAvailable(start, name, log + [e])
    ensures Replay(start, log + [e]) == Apply(Replay(start, log), e)
  {
    var more := log + [e];
    assert more[..|log|] == log;
    forall n | 0 <= n <= |more| ensures Available(start, name, more[..n]) {
      if n <= |log| {
        assert more[..n] == log[..n];
      } else {
        assert more[..n] == more;
      }
    }
  }

  /** Old containers disappear only after a healthy verdict. */
  ghost predicate RemovedAfterVerdict(start: set<string>, log: seq<Event>) {
    forall i :: 0 <= i < |log| && log[i].Removed? && log[i].container in start ==> Judged(true) in log[..i]
  }

  class Deployment {
    const name: string
    var status: Status
    var newVersionIsHealthy: bool
    var containers: set<string>
    var slept: nat
    var log: seq<Event>
    ghost const start: set<string>

    /** A job's own name for its new container is not in use yet. */
    constructor (name: string, containers: set<string>)
      requires name !in containers
      ensures Valid()
      ensures this.name == name && this.containers == start == containers
      ensures status == InProgress && !newVersionIsHealthy && slept == 0 && log == []
    {
      this.name, this.containers, this.start := name, containers, containers;
      status, newVersionIsHealthy, slept, log := InProgress, false, 0, [];
      new;
      assert log[..0] == [];
    }

    /** The log accounts for the containers, and the application was never left alone. */
    ghost predicate Valid()
      reads this
    {
      && name !in start
      && containers == Replay(start, log)
      && AlwaysAvailable(start, name, log)
      && RemovedAfterVerdict(start, log)
    }

    method Record(e: Event)
      requires Valid()
      requires e.Removed? ==> e.container == name || Judged(true) in log
      requires e.Removed? && e.container != name ==> name in containers
      requires e.Removed? && e.container == name ==> start <= containers
      modifies this`containers, this`log
      ensures Valid() && log == old(log) + [e] && containers == Apply(old(containers), e)
    {
      containers := Apply(containers, e);
      assert (log + [e])[..|log|] == log;
      assert Available(start, name, log) by {
        assert log[..|log|] == log;
      }
      assert Available(start, name, log + [e]);
      OneMoreEvent(start, name, log, e);
      assert forall i :: 0 <= i < |log| ==> (log + [e])[..i] == log[..i];
      log := log + [e];
    }

    method Sleep(seconds: int)
      modifies this`slept
      ensures slept == old(slept) + AtLeastZero(seconds)
    {
      var sleeptime := 0;
      while sleeptime < seconds
        invariant 0 <= sleeptime <= AtLeastZero(seconds)
        invariant slept == old(slept) + sleeptime
      {
        slept, sleeptime := slept + 1, sleeptime + 1;
      }
    }

    /** The verdict is noted, and with it what may happen to the old containers. */
    method Judge(healthy: bool)
      requires Valid()
      modifies this`newVersionIsHealthy, this`log, this`containers
      ensures Valid() && containers == old(containers) && newVersionIsHealthy == healthy
      ensures log == old(log) + [Judged(healthy)]
    {
      newVersionIsHealthy := healthy;
      Record(Judged(healthy));
    }

    /** The probe loop stops at the first decisive reading among the allowed attempts. */
    method Probe(s: Settings, probe: nat -> Reading) returns (decisive: Option<nat>)
      modifies this`slept
      ensures decisive == FirstDecisive(probe, 1, s.retries)
      ensures slept == old(slept) + Waits(s, decisive) * AtLeastZero(s.interval)
    {
      var counter := 1;
      while counter <= s.retries
        invariant 1 <= counter <= AtLeastZero(s.retries) + 1
        invariant slept == old(slept) + (counter - 1) * AtLeastZero(s.interval)
        invariant FirstDecisive(probe, 1, s.retries) == FirstDecisive(probe, counter, s.retries)
      {
        if probe(counter) != Undecided { return Some(counter); }
        Multiple(counter - 1, AtLeastZero(s.interval));
        counter := counter + 1;
        Sleep(s.interval);
      }
      return None;
    }

    /** The verdict is the first decisive reading among the allowed attempts. */
    method HealthCheck(s: Settings, probe: nat -> Reading) returns (threw: bool)
      requires Valid()
      modifies this`newVersionIsHealthy, this`slept, this`log, this`containers
      ensures Valid() && containers == old(containers)
      ensures Judged(true) in old(log) ==> Judged(true) in log
      ensures s.checkDisabled && !s.customCheck ==>
                !threw && newVersionIsHealthy && Judged(true) in log && slept == old(slept)
      ensures !(s.checkDisabled && !s.customCheck) ==>
                var decisive := FirstDecisive(probe, 1, s.retries);
                && slept == old(slept) + AtLeastZero(s.startPeriod) + Waits(s, decisive) * AtLeastZero(s.interval)
                && threw == (decisive.Some? && probe(decisive.value) == Failing)
                && newVersionIsHealthy ==
                     (if decisive.None? || threw then old(newVersionIsHealthy) else probe(decisive.value) == Healthy)
                && (decisive.Some? && probe(decisive.value) == Healthy ==> Judged(true) in log)
    {
      threw := false;
      if s.checkDisabled && !s.customCheck {
        Judge(true);
        return;
      }
      Sleep(s.startPeriod);
      var decisive := Probe(s, probe);
      if decisive.Some? {
        match probe(decisive.value) {
          case Healthy => Judge(true);
          case Unhealthy => Judge(false);
          case Failing => threw := true;
        }
      }
    }

    /** Removal is attempted; a container that does not stop stays. */
    method Shutdown(container: string, stops: set<string>)
      requires Valid()
      requires container == name || Judged(true) in log
      requires container != name ==> name in containers
      requires container == name ==> start <= containers
      modifies this`containers, this`log
      ensures Valid() && containers == old(containers) - (if container in stops then {container} else {})
      ensures old(log) <= log
    {
      if container in stops {
        Record(Removed(container));
      }
    }

    /** The new version is healthy: every other listed container goes. */
    method RemoveOld(listing: seq<string>, stops: set<string>)
      requires Valid() && Judged(true) in log && name in containers
      modifies this`containers, this`log
      ensures Valid() && name in containers
      ensures containers == old(containers) - (set c | c in listing && c != name && c in stops)
    {
      for i := 0 to |listing|
        invariant Valid() && Judged(true) in log && name in containers
        invariant containers == old(containers) - (set c | c in listing[..i] && c != name && c in stops)
      {
        assert listing[..i + 1] == listing[..i] + [listing[i]];
        if listing[i] != name {
          Shutdown(listing[i], stops);
        }
      }
      assert listing[..|listing|] == listing;
    }

    /** stop_running_container() without force. */
    method StopRunningContainer(w: World) returns (threw: bool)
      requires Valid()
      requires newVersionIsHealthy ==> Judged(true) in log && name in containers
      requires !newVersionIsHealthy ==> start <= containers
      modifies this`containers, this`log, this`status
      ensures Valid()
      ensures newVersionIsHealthy ==>
                && !threw && status == old(status) && name in containers
                && containers == old(containers)
                     - (set c | w.listing.Some? && c in w.listing.value && c != name && c in w.stops)
      ensures !newVersionIsHealthy ==>
                && start <= containers
                && threw == (old(status) == Cancelled || (w.cancelled && !Terminal(old(status))))
                && (threw ==> status == Cancelled && containers == old(containers))
                && (!threw ==> status == (if Terminal(old(status)) then old(status) else Failed)
                               && containers == old(containers) - (if name in w.stops then {name} else {}))
    {
      threw := false;
      if newVersionIsHealthy {
        if w.listing.Some? {
          RemoveOld(w.listing.value, w.stops);
        }
        return;
      }
      if w.cancelled && !Terminal(status) {
        status := Cancelled;
      }
      if status == Cancelled {
        threw := true;
        return;
      }
      if !Terminal(status) {
        status := Failed;
      }
      Shutdown(name, w.stops);
    }

    /** rolling_update() in rolling mode. */
    method Update(s: Settings, w: World) returns (threw: bool)
      requires Valid() && log == [] && !newVersionIsHealthy
      requires status == InProgress || status == Cancelled
      modifies this
      // at every moment the old version was complete or the new one healthy
      ensures Valid()
      // the verdict, and nothing else, decides about the old containers
      ensures newVersionIsHealthy <==>
                && old(status) == InProgress && w.startWorks
                && (|| (s.checkDisabled && !s.customCheck)
                    || exists a :: 1 <= a <= s.retries && w.probe(a) == Healthy
                                   && forall b :: 1 <= b < a ==> w.probe(b) == Undecided)
      ensures newVersionIsHealthy ==>
                && !threw && status == old(status) && name in containers
                && containers == start + {name}
                     - (set c | w.listing.Some? && c in w.listing.value && c != name && c in w.stops)
      ensures !newVersionIsHealthy ==> start <= containers <= start + {name}
      ensures !newVersionIsHealthy && !threw ==> status == Failed && (name in w.stops ==> containers == start)
      ensures threw ==> status == old(status) || status == Cancelled
      ensures slept <= old(slept) + AtLeastZero(s.startPeriod)
                       + AtLeastZero(s.retries) * AtLeastZero(s.interval)
    {
      SleepBound(s, 0);
      if status == Cancelled {
        assert log[..|log|] == log;
        return true;
      }
      if !w.startWorks {
        return true;
      }
      Record(Started(name));
      threw := HealthCheck(s, w.probe);
      match FirstDecisive(w.probe, 1, s.retries) {
        case None => SleepBound(s, AtLeastZero(s.retries));
        case Some(a) => SleepBound(s, a - 1);
      }
      VerdictIsFirstHealthy(w.probe, s.retries);
      if threw {
        return;
      }
      threw := StopRunningContainer(w);
    }
  }
}
