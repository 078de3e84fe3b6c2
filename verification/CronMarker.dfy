/** The deduplication marker of a cron schedule, against a scheduler that simply
    remembers the time up to which everything has been handled.

    Times are seconds; a cron expression is the set of its due minutes. Time zones
    and the expiry of markers are outside the model. */
module CronMarker {
  import opened Text

  /** The latest due minute at or before minute `m`. */
  function PrevDue(due: nat -> bool, m: nat): (r: Option<nat>)
    ensures r.Some? ==> r.value <= m && due(r.value) && forall k: nat :: r.value < k <= m ==> !due(k)
    ensures r.None? ==> forall k: nat :: k <= m ==> !due(k)
  {
    if due(m) then Some(m) else if m == 0 then None else PrevDue(due, m - 1)
  }

  /** Some due instant lies in the window after `lo`, up to and including `hi`. */
  ghost predicate DueIn(due: nat -> bool, lo: int, hi: nat) {
    exists m: nat :: due(m) && lo < 60 * m <= hi
  }

  lemma PrevDueDecides(due: nat -> bool, lo: int, t: nat)
    ensures var p := PrevDue(due, t / 60);
            && (DueIn(due, lo, t) <==> p.Some? && 60 * p.value > lo)
            && (p.Some? ==> 60 * p.value <= t && !DueIn(due, 60 * p.value, t))
  {
    var p := PrevDue(due, t / 60);
    if m: nat :| due(m) && lo < 60 * m <= t {
      assert m <= t / 60;
    }
    if p.Some? {
      assert 60 * p.value <= t;
      forall m: nat | due(m) && 60 * p.value < 60 * m ensures 60 * m > t {
        assert m > t / 60;
      }
    }
  }

  /** What both the precheck and the dispatch decision answer at time `t`. */
  predicate Fires(due: nat -> bool, marker: Option<nat>, t: nat) {
    var p := PrevDue(due, t / 60);
    p.Some? && if marker.None? then due(t / 60) else 60 * p.value > marker.value
  }

  // ---- One question ----

  /** A no, at any time and with any marker, leaves no due instant after the marker. */
  lemma NoMeansNothingDue(due: nat -> bool, marker: nat, t: nat)
    ensures Fires(due, Some(marker), t) <==> DueIn(due, marker, t)
  {
    PrevDueDecides(due, marker, t);
  }

  /** A no moves the marker back to the previous due instant. No later answer notices,
      unless the marker lay in the future with a due instant before it. */
  lemma RewriteIsInvisibleIff(due: nat -> bool, marker: nat, t: nat)
    requires PrevDue(due, t / 60).Some? && !Fires(due, Some(marker), t)
    ensures var rewritten := 60 * PrevDue(due, t / 60).value;
            (forall u: nat :: t <= u ==> (Fires(due, Some(rewritten), u) <==> Fires(due, Some(marker), u)))
            <==> !DueIn(due, t, marker)
  {
    var rewritten := 60 * PrevDue(due, t / 60).value;
    PrevDueDecides(due, marker, t);
    if DueIn(due, t, marker) {
      var m: nat :| due(m) && t < 60 * m <= marker;
      assert !Fires(due, Some(marker), 60 * m);
      assert Fires(due, Some(rewritten), 60 * m);
    } else {
      forall u: nat | t <= u ensures Fires(due, Some(rewritten), u) <==> Fires(due, Some(marker), u) {
        NoMeansNothingDue(due, marker, u);
        NoMeansNothingDue(due, rewritten, u);
      }
    }
  }

  /** A yes that is not acted on is asked again at every later tick, if a marker was there. */
  lemma SeededYesStays(due: nat -> bool, marker: nat, t: nat, u: nat)
    requires Fires(due, Some(marker), t) && t <= u
    ensures Fires(due, Some(marker), u)
  {
    NoMeansNothingDue(due, marker, t);
    NoMeansNothingDue(due, marker, u);
  }

  // ---- One tick of the scheduler for one schedule ----

  /** `prechecked` is false for volume backups, which go straight to the dispatch
      decision. `skip` is a skip reason found before that decision, `drop` one found
      after it. */
  datatype Tick = Tick(at: nat, prechecked: bool, skip: bool, drop: bool)

  class Schedule {
    const due: nat -> bool
    var marker: Option<nat>
    var dispatched: seq<nat>

    constructor (due: nat -> bool, marker: Option<nat>)
      ensures this.due == due && this.marker == marker && dispatched == []
    {
      this.due, this.marker, dispatched := due, marker, [];
    }

    /** A yes writes nothing, a no writes the previous due instant. A schedule that has
        never been due makes the cron library throw, and nothing happens. */
    method Precheck(t: nat) returns (yes: bool)
      modifies this`marker
      ensures yes == Fires(due, old(marker), t)
      ensures marker == if yes then old(marker) else Rewrite(due, old(marker), t)
    {
      var previousDue := PrevDue(due, t / 60);
      if previousDue.None? { return false; }
      if marker.None? {
        yes := due(t / 60);
        if !yes { marker := Some(60 * previousDue.value); }
        return;
      }
      yes := 60 * previousDue.value > marker.value;
      if !yes { marker := Some(60 * previousDue.value); }
    }

    /** A yes writes the time of the tick. */
    method ShouldRun(t: nat) returns (yes: bool)
      modifies this`marker
      ensures yes == Fires(due, old(marker), t)
      ensures marker == if yes then Some(t) else Rewrite(due, old(marker), t)
    {
      var previousDue := PrevDue(due, t / 60);
      if previousDue.None? { return false; }
      yes := if marker.None? then due(t / 60) else 60 * previousDue.value > marker.value;
      marker := Some(if yes then t else 60 * previousDue.value);
    }

    method Process(tick: Tick)
      modifies this`marker, this`dispatched
      ensures marker == Handle(due, old(marker), tick).0
      ensures dispatched == old(dispatched) + if Handle(due, old(marker), tick).1 then [tick.at] else []
    {
      if tick.prechecked {
        var candidate := Precheck(tick.at);
        if !candidate { return; }
      }
      if tick.skip { return; }
      var yes := ShouldRun(tick.at);
      if yes && !tick.drop { dispatched := dispatched + [tick.at]; }
    }

    method ProcessAll(ticks: seq<Tick>)
      modifies this`marker, this`dispatched
      ensures marker == Marker(due, old(marker), ticks)
      ensures dispatched == old(dispatched) + Dispatches(due, old(marker), ticks)
    {
      var i := 0;
      while i < |ticks|
        invariant 0 <= i <= |ticks|
        invariant marker == Marker(due, old(marker), ticks[..i])
        invariant dispatched == old(dispatched) + Dispatches(due, old(marker), ticks[..i])
      {
        assert ticks[..i + 1][..i] == ticks[..i];
        Process(ticks[i]);
        i := i + 1;
      }
      assert ticks[..i] == ticks;
    }
  }

  function Rewrite(due: nat -> bool, marker: Option<nat>, t: nat): Option<nat> {
    var p := PrevDue(due, t / 60);
    if p.None? then marker else Some(60 * p.value)
  }

  /** The new marker, and whether the job is dispatched. */
  function Handle(due: nat -> bool, marker: Option<nat>, tick: Tick): (Option<nat>, bool) {
    if tick.skip && (!tick.prechecked || Fires(due, marker, tick.at)) then (marker, false)
    else if Fires(due, marker, tick.at) then (Some(tick.at), !tick.drop)
    else (Rewrite(due, marker, tick.at), false)
  }

  function Marker(due: nat -> bool, marker: Option<nat>, ticks: seq<Tick>): Option<nat> {
    if ticks == [] then marker
    else Handle(due, Marker(due, marker, ticks[..|ticks| - 1]), ticks[|ticks| - 1]).0
  }

  function Dispatches(due: nat -> bool, marker: Option<nat>, ticks: seq<Tick>): seq<nat> {
    if ticks == [] then []
    else
      var front := ticks[..|ticks| - 1];
      Dispatches(due, marker, front) +
      if Handle(due, Marker(due, marker, front), ticks[|ticks| - 1]).1 then [ticks[|ticks| - 1].at] else []
  }

  /** What a no leaves behind: the latest due instant, or nothing new if there is none yet. */
  lemma NoWritesLatestDue(due: nat -> bool, marker: Option<nat>, t: nat)
    ensures DueIn(due, -1, t) ==>
              exists m: nat :: due(m) && 60 * m <= t && !DueIn(due, 60 * m, t) && Rewrite(due, marker, t) == Some(60 * m)
    ensures !DueIn(due, -1, t) ==> Rewrite(due, marker, t) == marker
  {
    PrevDueDecides(due, -1, t);
    if DueIn(due, -1, t) {
      var m := PrevDue(due, t / 60).value;
      assert due(m) && 60 * m <= t && !DueIn(due, 60 * m, t);
    }
  }

  /** A tick dispatches exactly when nothing holds it up and something is due: in its own
      minute if there is no marker yet, and otherwise since the marker. */
  lemma DispatchesIff(due: nat -> bool, marker: Option<nat>, tick: Tick)
    ensures Handle(due, marker, tick).1 <==>
            !tick.skip && !tick.drop && if marker.None? then due(tick.at / 60) else DueIn(due, marker.value, tick.at)
  {
    if marker.Some? {
      NoMeansNothingDue(due, marker.value, tick.at);
    }
  }

  // ---- Every run refines the plain scheduler ----

  /** The plain scheduler: everything up to `settled` has been dealt with. It never
      looks at previous due instants, only at whether something became due since. */
  ghost function Plain(due: nat -> bool, settled: Option<nat>, tick: Tick): (Option<nat>, bool) {
    var fires := if settled.None? then due(tick.at / 60) else DueIn(due, settled.value, tick.at);
    if tick.skip && (!tick.prechecked || fires) then (settled, false)
    else if !DueIn(due, -1, tick.at) then (settled, false)
    else (Some(tick.at), fires && !tick.drop)
  }

  ghost function Settled(due: nat -> bool, settled: Option<nat>, ticks: seq<Tick>): Option<nat> {
    if ticks == [] then settled
    else Plain(due, Settled(due, settled, ticks[..|ticks| - 1]), ticks[|ticks| - 1]).0
  }

  ghost function PlainDispatches(due: nat -> bool, settled: Option<nat>, ticks: seq<Tick>): seq<nat> {
    if ticks == [] then []
    else
      var front := ticks[..|ticks| - 1];
      PlainDispatches(due, settled, front) +
      if Plain(due, Settled(due, settled, front), ticks[|ticks| - 1]).1 then [ticks[|ticks| - 1].at] else []
  }

  /** The marker stands for the settled time when nothing is due between the two. */
  ghost predicate StandsFor(due: nat -> bool, marker: Option<nat>, settled: Option<nat>) {
    && marker.Some? == settled.Some?
    && (marker.Some? ==> marker.value <= settled.value && !DueIn(due, marker.value, settled.value))
  }

  lemma SameAnswer(due: nat -> bool, marker: nat, settled: nat, t: nat)
    requires StandsFor(due, Some(marker), Some(settled)) && settled <= t
    ensures DueIn(due, marker, t) <==> DueIn(due, settled, t)
  {
    if m: nat :| due(m) && marker < 60 * m <= t {
      assert 60 * m > settled;
    }
  }

  lemma TickRefines(due: nat -> bool, marker: Option<nat>, settled: Option<nat>, tick: Tick)
    requires StandsFor(due, marker, settled) && (settled.Some? ==> settled.value <= tick.at)
    ensures var (newMarker, yes) := Handle(due, marker, tick);
            var (newSettled, plainYes) := Plain(due, settled, tick);
            && yes == plainYes && StandsFor(due, newMarker, newSettled)
            && (newSettled.Some? ==> newSettled.value <= tick.at)
  {
    PrevDueDecides(due, -1, tick.at);
    if marker.Some? {
      SameAnswer(due, marker.value, settled.value, tick.at);
      NoMeansNothingDue(due, marker.value, tick.at);
    }
  }

  ghost predicate InOrder(ticks: seq<Tick>) {
    forall i, j :: 0 <= i < j < |ticks| ==> ticks[i].at <= ticks[j].at
  }

  /** Tick by tick, the scheduler dispatches exactly what the plain scheduler does, for
      every due set, every order of skips and every starting marker not in the future. */
  lemma {:induction false} RunRefines(due: nat -> bool, start: Option<nat>, ticks: seq<Tick>)
    requires InOrder(ticks)
    requires start.Some? && ticks != [] ==> start.value <= ticks[0].at
    ensures Dispatches(due, start, ticks) == PlainDispatches(due, start, ticks)
    ensures StandsFor(due, Marker(due, start, ticks), Settled(due, start, ticks))
    ensures var s := Settled(due, start, ticks); ticks != [] && s.Some? ==> s.value <= ticks[|ticks| - 1].at
    decreases |ticks|
  {
    if ticks != [] {
      var n := |ticks| - 1;
      RunRefines(due, start, ticks[..n]);
      TickRefines(due, Marker(due, start, ticks[..n]), Settled(due, start, ticks[..n]), ticks[n]);
    } else if start.Some? {
      assert !DueIn(due, start.value, start.value);
    }
  }

  // ---- What a schedule's owner gets ----

  /** Between two dispatches something new became due: no due instant is served twice. */
  ghost predicate Separated(due: nat -> bool, d: seq<nat>) {
    forall i, j :: 0 <= i < j < |d| ==> d[i] <= d[j] && DueIn(due, d[i], d[j])
  }

  lemma Widen(due: nat -> bool, a: int, b: int, hi: nat)
    requires DueIn(due, b, hi) && a <= b
    ensures DueIn(due, a, hi)
  {
    var m: nat :| due(m) && b < 60 * m <= hi;
  }

  ghost predicate UpTo(d: seq<nat>, settled: Option<nat>) {
    d != [] ==> settled.Some? && forall i :: 0 <= i < |d| ==> d[i] <= settled.value
  }

  lemma StaysSeparated(due: nat -> bool, d: seq<nat>, settled: Option<nat>, tick: Tick)
    requires Separated(due, d) && UpTo(d, settled) && (settled.Some? ==> settled.value <= tick.at)
    ensures var (after, yes) := Plain(due, settled, tick);
            var e := d + if yes then [tick.at] else [];
            Separated(due, e) && UpTo(e, after)
  {
    if Plain(due, settled, tick).1 {
      forall i | 0 <= i < |d| ensures d[i] <= tick.at && DueIn(due, d[i], tick.at) {
        Widen(due, d[i], settled.value, tick.at);
      }
    }
  }

  lemma {:induction false} NoDueInstantTwice(due: nat -> bool, start: Option<nat>, ticks: seq<Tick>)
    requires InOrder(ticks)
    requires start.Some? && ticks != [] ==> start.value <= ticks[0].at
    ensures Separated(due, Dispatches(due, start, ticks))
    ensures UpTo(Dispatches(due, start, ticks), Settled(due, start, ticks))
    decreases |ticks|
  {
    if ticks != [] {
      var n := |ticks| - 1;
      var front := ticks[..n];
      NoDueInstantTwice(due, start, front);
      RunRefines(due, start, front);
      var d, s := Dispatches(due, start, front), Settled(due, start, front);
      TickRefines(due, Marker(due, start, front), s, ticks[n]);
      StaysSeparated(due, d, s, ticks[n]);
      assert Dispatches(due, start, ticks) == d + if Plain(due, s, ticks[n]).1 then [ticks[n].at] else [];
    }
  }

  /** Once there is a marker, a minute that falls due is served by the next tick that is
      not skipped, however late that tick is. */
  lemma MissedMinuteIsCaught(due: nat -> bool, start: Option<nat>, ticks: seq<Tick>, late: Tick, m: nat)
    requires InOrder(ticks + [late]) && (start.Some? ==> start.value <= (ticks + [late])[0].at)
    requires Settled(due, start, ticks).Some?
    requires due(m) && Settled(due, start, ticks).value < 60 * m <= late.at
    requires !late.skip && !late.drop
    ensures Dispatches(due, start, ticks + [late]) == Dispatches(due, start, ticks) + [late.at]
  {
    assert (ticks + [late])[..|ticks|] == ticks;
    if ticks != [] { assert (ticks + [late])[|ticks| - 1] == ticks[|ticks| - 1]; }
    assert InOrder(ticks) by {
      forall i, j | 0 <= i < j < |ticks| ensures ticks[i].at <= ticks[j].at {
        assert (ticks + [late])[i] == ticks[i] && (ticks + [late])[j] == ticks[j];
      }
    }
    RunRefines(due, start, ticks);
    assert DueIn(due, Settled(due, start, ticks).value, late.at);
    assert DueIn(due, -1, late.at);
    TickRefines(due, Marker(due, start, ticks), Settled(due, start, ticks), late);
  }

  // ---- The first due minute of a schedule that has no marker ----

  /** The time of the first precheck that fell in a minute that is not due. */
  function FirstOff(due: nat -> bool, ticks: seq<Tick>): Option<nat> {
    if ticks == [] then None
    else
      var n := |ticks| - 1;
      var before := FirstOff(due, ticks[..n]);
      if before.None? && ticks[n].prechecked && !due(ticks[n].at / 60) then Some(ticks[n].at) else before
  }

  ghost predicate AllSkipped(ticks: seq<Tick>) {
    forall i :: 0 <= i < |ticks| ==> ticks[i].skip
  }

  /** Settled at the first precheck outside the due minutes, as far as anyone can tell. */
  ghost predicate SettledSince(due: nat -> bool, first: Option<nat>, settled: Option<nat>, now: nat) {
    && first.Some? == settled.Some?
    && (first.Some? ==> first.value <= settled.value <= now && !DueIn(due, first.value, settled.value))
  }

  lemma SettledSinceNext(due: nat -> bool, first: Option<nat>, settled: Option<nat>, now: nat, tick: Tick)
    requires SettledSince(due, first, settled, now) && now <= tick.at && tick.skip && DueIn(due, -1, tick.at)
    ensures var next := if first.None? && tick.prechecked && !due(tick.at / 60) then Some(tick.at) else first;
            SettledSince(due, next, Plain(due, settled, tick).0, tick.at)
  {
    if first.Some? {
      assert StandsFor(due, first, settled);
      SameAnswer(due, first.value, settled.value, tick.at);
    }
  }

  lemma DueSoFar(due: nat -> bool, t: nat, u: nat)
    requires due(t / 60) && t <= u
    ensures DueIn(due, -1, u)
  {
    assert -1 < 60 * (t / 60) <= u;
  }

  lemma {:induction false} SkippedTicksSettle(due: nat -> bool, ticks: seq<Tick>)
    requires InOrder(ticks) && AllSkipped(ticks) && ticks != [] && due(ticks[0].at / 60)
    ensures SettledSince(due, FirstOff(due, ticks), Settled(due, None, ticks), ticks[|ticks| - 1].at)
    decreases |ticks|
  {
    var n := |ticks| - 1;
    var front := ticks[..n];
    if n > 0 {
      SkippedTicksSettle(due, front);
      DueSoFar(due, ticks[0].at, ticks[n].at);
      SettledSinceNext(due, FirstOff(due, front), Settled(due, None, front), front[n - 1].at, ticks[n]);
    } else {
      DueSoFar(due, ticks[0].at, ticks[0].at);
      assert front == [];
      SettledSinceNext(due, None, None, ticks[0].at, ticks[0]);
    }
  }

  /** A schedule without a marker falls due and is skipped, and so are any number of
      later ticks. The next tick that is not skipped dispatches it exactly when either
      no precheck so far fell outside the due minutes and this tick is in one, or
      another minute fell due after the first precheck that did. */
  lemma UnseededYesIsServedIff(due: nat -> bool, ticks: seq<Tick>, late: Tick)
    requires InOrder(ticks) && AllSkipped(ticks) && ticks != [] && due(ticks[0].at / 60)
    requires ticks[|ticks| - 1].at <= late.at && !late.skip && !late.drop
    ensures var first := FirstOff(due, ticks);
            Dispatches(due, None, ticks + [late]) ==
            if (if first.None? then due(late.at / 60) else DueIn(due, first.value, late.at)) then [late.at] else []
  {
    assert (ticks + [late])[..|ticks|] == ticks;
    RunRefines(due, None, ticks);
    SkippedTicksSettle(due, ticks);
    SkippedNeverDispatch(due, ticks);
    DueSoFar(due, ticks[0].at, late.at);
    var first, settled := FirstOff(due, ticks), Settled(due, None, ticks);
    TickRefines(due, Marker(due, None, ticks), settled, late);
    if first.Some? {
      assert StandsFor(due, first, settled);
      SameAnswer(due, first.value, settled.value, late.at);
    }
  }

  lemma {:induction false} SkippedNeverDispatch(due: nat -> bool, ticks: seq<Tick>)
    requires AllSkipped(ticks)
    ensures Dispatches(due, None, ticks) == []
    decreases |ticks|
  {
    if ticks != [] { SkippedNeverDispatch(due, ticks[..|ticks| - 1]); }
  }

  /** A minute that is skipped and never made up for: due once, at minute 5. */
  lemma UnseededYesIsLost(late: Tick)
    requires late.at >= 360 && !late.skip && !late.drop
    ensures var due := (m: nat) => m == 5;
            Fires(due, None, 300) && Dispatches(due, None, [Tick(300, true, true, false), late]) == []
  {
    var due := (m: nat) => m == 5;
    var ticks := [Tick(300, true, true, false)];
    assert due(5) && ticks[..0] == [] && ticks + [late] == [Tick(300, true, true, false), late];
    assert FirstOff(due, ticks) == None;
    UnseededYesIsServedIff(due, ticks, late);
    assert late.at / 60 >= 6;
  }
}
