/** The checkout rate limiter of one client, under explicit time in seconds. The counter
    is a transient: set at time t for a minute it is visible up to and including t + 60,
    and only an attempt that is let through sets it. Attempts come one after another. */
module RateLimiter {

  const LIMIT: nat := 120
  const MINUTE: nat := 60

  datatype Counter = Unset | Set(count: nat, expires: int)

  function Seen(c: Counter, now: int): nat {
    if c.Set? && now <= c.expires then c.count else 0
  }

  predicate Limited(c: Counter, now: int) { Seen(c, now) >= LIMIT }

  function Attempted(c: Counter, now: int): Counter {
    if Limited(c, now) then c else Set(Seen(c, now) + 1, now + MINUTE)
  }

  class Limiter {
    var counter: Counter

    constructor ()
      ensures counter == Unset
    {
      counter := Unset;
    }

    method CheckoutRateLimited(now: int) returns (limited: bool)
      modifies this
      ensures limited == Limited(old(counter), now) && counter == Attempted(old(counter), now)
    {
      var attempts := if counter.Set? && now <= counter.expires then counter.count else 0;
      if attempts >= LIMIT { return true; }
      counter := Set(attempts + 1, now + MINUTE);
      return false;
    }

    /** A whole run of attempts; the result lists the times that were let through. */
    method Run(times: seq<int>) returns (passed: seq<int>)
      requires counter == Unset
      modifies this
      ensures passed == Allowed(times) && counter == After(times)
    {
      passed := [];
      for i := 0 to |times|
        invariant passed == Allowed(times[..i]) && counter == After(times[..i])
      {
        assert times[..i + 1][..i] == times[..i];
        var limited := CheckoutRateLimited(times[i]);
        if !limited { passed := passed + [times[i]]; }
      }
      assert times[..|times|] == times;
    }
  }

  function After(times: seq<int>): Counter {
    if times == [] then Unset else Attempted(After(times[..|times| - 1]), times[|times| - 1])
  }

  /** The attempts of a run that are let through. */
  function Allowed(times: seq<int>): seq<int> {
    if times == [] then []
    else
      var n := |times| - 1;
      Allowed(times[..n]) + if Limited(After(times[..n]), times[n]) then [] else [times[n]]
  }

  // ---- What the counter counts ----

  function Last(a: seq<int>): int
    requires a != []
  {
    a[|a| - 1]
  }

  /** How many attempts at the end of the list follow each other by at most a minute. */
  function Chain(a: seq<int>): nat {
    if a == [] then 0
    else
      var front := a[..|a| - 1];
      if front != [] && Last(a) - Last(front) <= 60 then Chain(front) + 1 else 1
  }

  ghost predicate Counts(c: Counter, a: seq<int>) {
    c == if a == [] then Unset else Set(Chain(a), Last(a) + MINUTE)
  }

  lemma CountsNext(c: Counter, a: seq<int>, t: int)
    requires Counts(c, a) && !Limited(c, t)
    ensures Counts(Attempted(c, t), a + [t]) && Chain(a + [t]) <= LIMIT
  {
    assert (a + [t])[..|a|] == a;
  }

  ghost predicate ShortChains(a: seq<int>) {
    forall k :: 0 <= k <= |a| ==> Chain(a[..k]) <= LIMIT
  }

  lemma ShortChainsNext(a: seq<int>, t: int)
    requires ShortChains(a) && Chain(a + [t]) <= LIMIT
    ensures ShortChains(a + [t])
  {
    forall k | 0 <= k <= |a| + 1 ensures Chain((a + [t])[..k]) <= LIMIT {
      if k <= |a| { assert (a + [t])[..k] == a[..k]; } else { assert (a + [t])[..k] == a + [t]; }
    }
  }

  /** In every run the counter is the length of the current chain of allowed attempts. */
  lemma {:induction false} CounterIsChain(times: seq<int>)
    ensures Counts(After(times), Allowed(times)) && ShortChains(Allowed(times))
  {
    if times != [] {
      var n := |times| - 1;
      var c, a := After(times[..n]), Allowed(times[..n]);
      CounterIsChain(times[..n]);
      if Limited(c, times[n]) {
        assert Allowed(times) == a;
      } else {
        CountsNext(c, a, times[n]);
        ShortChainsNext(a, times[n]);
      }
    }
  }

  /** Exactly when the next attempt is let through. */
  lemma AllowedIff(times: seq<int>, t: int)
    ensures var a := Allowed(times);
            !Limited(After(times), t) <==> (a == [] || t > Last(a) + 60 || Chain(a) < 120)
  {
    CounterIsChain(times);
  }

  // ---- Windows ----

  ghost predicate InOrder(a: seq<int>) {
    forall i, j :: 0 <= i < j < |a| ==> a[i] <= a[j]
  }

  /** How many of them lie in the window of a minute that starts at `lo`, ends included. */
  function InWindow(a: seq<int>, lo: int): nat {
    if a == [] then 0
    else InWindow(a[..|a| - 1], lo) + if lo <= Last(a) <= lo + 60 then 1 else 0
  }

  lemma {:induction false} NoneInWindow(a: seq<int>, lo: int)
    requires forall i :: 0 <= i < |a| ==> a[i] < lo
    ensures InWindow(a, lo) == 0
  {
    if a != [] { NoneInWindow(a[..|a| - 1], lo); }
  }

  lemma {:induction false} WindowIsInChain(a: seq<int>, lo: int)
    requires InOrder(a) && a != [] && lo <= Last(a) <= lo + MINUTE
    ensures InWindow(a, lo) <= Chain(a)
  {
    var front := a[..|a| - 1];
    if front != [] && Last(front) >= lo {
      WindowIsInChain(front, lo);
    } else {
      NoneInWindow(front, lo);
    }
  }

  lemma {:induction false} WindowBound(a: seq<int>, lo: int)
    requires InOrder(a) && ShortChains(a)
    ensures InWindow(a, lo) <= LIMIT
  {
    if a != [] {
      if lo <= Last(a) <= lo + MINUTE {
        WindowIsInChain(a, lo);
        assert a[..|a|] == a;
      } else {
        var front := a[..|a| - 1];
        assert forall k :: 0 <= k <= |front| ==> front[..k] == a[..k];
        WindowBound(front, lo);
      }
    }
  }

  lemma {:induction false} AllowedInOrder(times: seq<int>)
    requires InOrder(times)
    ensures InOrder(Allowed(times))
    ensures forall i :: 0 <= i < |Allowed(times)| ==> times != [] && Allowed(times)[i] <= Last(times)
  {
    if times != [] {
      AllowedInOrder(times[..|times| - 1]);
    }
  }

  /** No window of a minute, wherever it starts, holds more than 120 allowed attempts. */
  lemma AtMostLimitPerMinute(times: seq<int>, lo: int)
    requires InOrder(times)
    ensures InWindow(Allowed(times), lo) <= 120
  {
    CounterIsChain(times);
    AllowedInOrder(times);
    WindowBound(Allowed(times), lo);
  }

  // ---- Being let in again ----

  /** Attempts made while the client is blocked change nothing. */
  lemma {:induction false} RetriesDoNotCount(times: seq<int>, retries: seq<int>)
    requires forall i :: 0 <= i < |retries| ==> Limited(After(times), retries[i])
    ensures After(times + retries) == After(times) && Allowed(times + retries) == Allowed(times)
  {
    if retries == [] {
      assert times + retries == times;
    } else {
      var n := |retries| - 1;
      assert (times + retries)[..|times + retries| - 1] == times + retries[..n];
      RetriesDoNotCount(times, retries[..n]);
    }
  }

  /** A blocked client, whatever it tries while it is blocked, is let in exactly when
      more than a minute has passed since its last allowed attempt. */
  lemma LetInAgainIff(times: seq<int>, retries: seq<int>, t: int)
    requires retries != []
    requires forall i :: 0 <= i < |retries| ==> Limited(After(times), retries[i])
    ensures Allowed(times) != []
    ensures !Limited(After(times + retries), t) <==> t > Last(Allowed(times)) + 60
  {
    AllowedIff(times, retries[0]);
    RetriesDoNotCount(times, retries);
    AllowedIff(times, t);
  }

  /** After exactly a minute it is still blocked. */
  lemma StillBlockedAfterAMinute(times: seq<int>, blocked: int)
    requires Limited(After(times), blocked)
    ensures Allowed(times) != [] && Limited(After(times + [blocked]), Last(Allowed(times)) + 60)
  {
    LetInAgainIff(times, [blocked], blocked);
    LetInAgainIff(times, [blocked], Last(Allowed(times)) + MINUTE);
  }

  // ---- Slow clients ----

  /** `n` attempts, a minute apart. */
  function Steady(n: nat): (times: seq<int>)
    ensures |times| == n
  {
    if n == 0 then [] else Steady(n - 1) + [60 * n]
  }

  lemma SteadyStep(n: nat)
    ensures After(Steady(n + 1)) == Attempted(After(Steady(n)), 60 * (n + 1))
    ensures !Limited(After(Steady(n)), 60 * (n + 1)) ==> |Allowed(Steady(n + 1))| == |Allowed(Steady(n))| + 1
  {
    assert Steady(n + 1)[..n] == Steady(n);
  }

  function SteadyCounter(n: nat): Counter {
    if n == 0 then Unset else Set(n, 60 * n + 60)
  }

  lemma SteadyNext(n: nat)
    requires n < LIMIT
    ensures !Limited(SteadyCounter(n), 60 * (n + 1))
    ensures Attempted(SteadyCounter(n), 60 * (n + 1)) == SteadyCounter(n + 1)
  {
  }

  ghost predicate SteadyOk(n: nat) {
    After(Steady(n)) == SteadyCounter(n) && |Allowed(Steady(n))| == n
  }

  lemma SteadyOkNext(n: nat)
    requires n < LIMIT && SteadyOk(n)
    ensures SteadyOk(n + 1)
  {
    SteadyNext(n);
    SteadyStep(n);
  }

  lemma {:induction false} SteadyIsCounted(n: nat)
    requires n <= LIMIT
    ensures SteadyOk(n)
  {
    if n > 0 {
      SteadyIsCounted(n - 1);
      SteadyOkNext(n - 1);
    }
  }

  /** The expiry is renewed by every allowed attempt, so the limit is not a rate: a client
      that comes back once a minute is turned away at its 121st visit. */
  lemma SlowClientIsBlocked()
    ensures Limited(After(Steady(120)), 60 * 121) && |Allowed(Steady(120))| == 120
  {
    SteadyIsCounted(LIMIT);
  }
}
