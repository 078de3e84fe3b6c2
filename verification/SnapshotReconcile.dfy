/** One push of container states from a server: a pass over the reported containers
    that fills found-sets and status maps, then a comparison with what is known.

    Labels hold ids in the form the database prints them. The statuses that the
    aggregation service computes for an application, and that an inspection of all its
    servers finds, are inputs. */
module SnapshotReconcile {
  import opened Text

  type Id = string
  type PreviewKey = (Id, string)

  datatype Container = Container(
    managed: bool,
    oneOff: bool,
    name: string,
    state: Option<string>,
    health: Option<string>,
    applicationId: Option<Id>,
    pullRequestId: Option<string>,
    serviceId: Option<string>,
    composeService: Option<string>,
    kind: string,                     // the coolify.type label
    restarts: Option<int>)

  datatype App = App(status: string, present: bool, limitReached: bool, restarts: int, maxRestarts: int, single: bool)

  datatype Database = Database(status: string, limitReached: bool, restarts: int, maxRestarts: int)

  function StatusOf(c: Container): string {
    var state := if c.state.None? then "exited" else c.state.value;
    if state == "exited" then state
    else state + ":" + if c.health.None? then "unknown" else c.health.value
  }

  predicate Contains(s: string, sub: string) {
    StartsWith(s, sub) || (s != "" && Contains(s[1..], sub))
  }

  predicate Running(status: string) { Contains(status, "running") }

  predicate ActiveOrTransient(status: string) {
    || Running(status) || Contains(status, "restarting") || Contains(status, "starting")
    || Contains(status, "created") || Contains(status, "paused")
  }

  predicate Considered(c: Container) { c.managed && !c.oneOff }

  predicate Main(c: Container) { c.pullRequestId.None? || c.pullRequestId.value == "0" }

  /** A label that PHP takes for true. */
  predicate Truthy(s: Option<string>) { s.Some? && s.value != "" && s.value != "0" }

  /** A container of the application itself, not of a preview. */
  predicate IsMain(c: Container, id: Id) { Considered(c) && Main(c) && c.applicationId == Some(id) }

  predicate IsPart(c: Container, id: Id, part: string) {
    IsMain(c, id) && Truthy(c.composeService) && c.composeService.value == part
  }

  predicate StandsForDatabase(c: Container) {
    && Considered(c) && c.applicationId.None? && c.serviceId.None? && c.composeService.Some?
    && !(c.name == "coolify-proxy" && Running(StatusOf(c)))
    && !(c.kind == "service" && Running(StatusOf(c)))
    && ActiveOrTransient(StatusOf(c))
  }

  // Whom a container can stand for.

  function TheApp(id: Id): Container -> bool { c => IsMain(c, id) }

  /** One compose service of an application. */
  function ThePart(id: Id, part: string): Container -> bool { c => IsPart(c, id, part) }

  /** The same, if the container reports a restart count. */
  function TheCount(id: Id, part: string): Container -> bool { c => IsPart(c, id, part) && c.restarts.Some? }

  function ThePreview(key: PreviewKey): Container -> bool {
    c => Considered(c) && !Main(c) && c.applicationId == Some(key.0) && c.pullRequestId.value == key.1
  }

  function TheDatabase(uuid: string): Container -> bool {
    c => StandsForDatabase(c) && c.composeService.value == uuid
  }

  /** The last item that `who` accepts. */
  function Last<C>(cs: seq<C>, who: C -> bool): Option<C> {
    if cs == [] then None
    else if who(cs[|cs| - 1]) then Some(cs[|cs| - 1])
    else Last(cs[..|cs| - 1], who)
  }

  predicate Named<C>(cs: seq<C>, who: C -> bool) { Last(cs, who).Some? }

  lemma {:induction false} LastFacts<C>(cs: seq<C>, who: C -> bool)
    ensures Named(cs, who) <==> exists c :: c in cs && who(c)
    ensures Named(cs, who) ==> Last(cs, who).value in cs && who(Last(cs, who).value)
  {
    if cs != [] {
      var n := |cs| - 1;
      LastFacts(cs[..n], who);
      assert cs == cs[..n] + [cs[n]];
    }
  }

  lemma LastNext<C>(cs: seq<C>, c: C, who: C -> bool)
    ensures Last(cs + [c], who) == if who(c) then Some(c) else Last(cs, who)
  {
    assert (cs + [c])[..|cs|] == cs;
  }

  // ---- What the records should become ----

  predicate StoppedAfterLimit(a: App) { StartsWith(a.status, "exited") && a.present && a.limitReached }

  /** The tracker's new restart count: it only rises. */
  function NewCount(was: int, observed: Option<int>): int {
    if observed.Some? && observed.value > was then observed.value else was
  }

  /** The restart-limit flag after the conditional update. */
  predicate NewFlag(was: bool, limit: int, observed: Option<int>) {
    was || (observed.Some? && limit > 0 && observed.value >= limit)
  }

  function Track(a: App, observed: Option<int>): App {
    a.(restarts := NewCount(a.restarts, observed), limitReached := NewFlag(a.limitReached, a.maxRestarts, observed))
  }

  /** A container that stands for a database sets its status and feeds the tracker. */
  function Observe(d: Database, c: Container): Database {
    d.(status := StatusOf(c), restarts := NewCount(d.restarts, c.restarts),
       limitReached := NewFlag(d.limitReached, d.maxRestarts, c.restarts))
  }

  function ObserveAll(cs: seq<Container>, who: Container -> bool, d: Database): Database {
    if cs == [] then d
    else
      var front := ObserveAll(cs[..|cs| - 1], who, d);
      if who(cs[|cs| - 1]) then Observe(front, cs[|cs| - 1]) else front
  }

  predicate AllExited(statuses: map<string, string>) {
    forall part :: part in statuses ==> Contains(statuses[part], "exited")
  }

  type Verdict = (Id, map<string, string>, int) -> string

  /** What the outside answers: the aggregated status of an application that the report
      names, and the status of one with several servers after inspecting them all. */
  datatype Answers = Answers(verdict: Verdict, inspected: Id -> string)

  function Inspected(w: Answers, id: Id, a: App): App {
    if a.single then a else a.(status := w.inspected(id))
  }

  function Aggregated(a: App, statuses: map<string, string>, observed: Option<int>, verdict: string): App {
    var b := Track(a, observed);
    if StoppedAfterLimit(b) && AllExited(statuses) then b.(status := "exited")
    else if Truthy(Some(verdict)) then b.(status := verdict)
    else b
  }

  /** The status of each part of an application, as the last container of that part has it. */
  ghost predicate Parts(cs: seq<Container>, id: Id, statuses: map<string, string>) {
    forall part :: (part in statuses <==> Named(cs, ThePart(id, part))) &&
                   (part in statuses ==> statuses[part] == StatusOf(Last(cs, ThePart(id, part)).value))
  }

  ghost predicate Restarts(cs: seq<Container>, id: Id, counts: map<string, int>) {
    forall part :: (part in counts <==> Named(cs, TheCount(id, part))) &&
                   (part in counts ==> Some(counts[part]) == Last(cs, TheCount(id, part)).value.restarts)
  }

  ghost predicate IsMax(counts: map<string, int>, m: Option<int>) {
    if counts == map[] then m == None
    else && m.Some? && (exists part :: part in counts && counts[part] == m.value)
         && forall part :: part in counts ==> counts[part] <= m.value
  }

  ghost predicate Settled(id: Id, verdict: Verdict, statuses: map<string, string>, counts: map<string, int>, was: App, now: App) {
    exists observed ::
      IsMax(counts, observed) && now == Aggregated(was, statuses, observed, verdict(id, statuses, OrZero(observed)))
  }

  function OrZero(n: Option<int>): int { if n.None? then 0 else n.value }

  /** What a push makes of one application. */
  ghost predicate AppOutcome(cs: seq<Container>, complete: bool, w: Answers, id: Id, was: App, now: App) {
    if !Named(cs, TheApp(id)) then
      now == if !complete then was
             else if was.single then was.(status := "exited", present := false, limitReached := false)
             else Inspected(w, id, was)
    else if !complete then
      now == was.(present := true)
    else
      exists statuses, counts ::
        Parts(cs, id, statuses) && Restarts(cs, id, counts) &&
        Settled(id, w.verdict, statuses, counts, Inspected(w, id, was.(present := true)), now)
  }

  /** What it makes of a preview's status. */
  function PreviewOutcome(cs: seq<Container>, complete: bool, key: PreviewKey, was: string): string {
    var last := Last(cs, ThePreview(key));
    if last.Some? then StatusOf(last.value)
    else if complete && !StartsWith(was, "exited") then "exited"
    else was
  }

  function Absent(d: Database): Database { d.(status := "exited", limitReached := false, restarts := 0) }

  /** What it makes of a database. */
  function DatabaseOutcome(cs: seq<Container>, complete: bool, uuid: string, was: Database): Database {
    if Named(cs, TheDatabase(uuid)) then ObserveAll(cs, TheDatabase(uuid), was)
    else if complete && !StartsWith(was.status, "exited") then Absent(was)
    else was
  }

  // ---- The state of the pass over the containers ----

  ghost predicate AppsScanned(apps: map<Id, App>, found: seq<Id>, cs: seq<Container>, was: map<Id, App>) {
    && apps.Keys == was.Keys
    && (forall id :: id in apps ==> apps[id] == was[id].(present := was[id].present || Named(cs, TheApp(id))))
    && (forall id :: id in found <==> id in was && was[id].single && Named(cs, TheApp(id)))
  }

  ghost predicate PartsScanned(statuses: map<Id, map<string, string>>, cs: seq<Container>) {
    && (forall id :: id in statuses <==> Named(cs, TheApp(id)))
    && (forall id :: id in statuses ==> Parts(cs, id, statuses[id]))
  }

  function CountsOf(counts: map<Id, map<string, int>>, id: Id): map<string, int> {
    if id in counts then counts[id] else map[]
  }

  ghost predicate CountsScanned(counts: map<Id, map<string, int>>, cs: seq<Container>) {
    forall id :: Restarts(cs, id, CountsOf(counts, id))
  }

  ghost predicate PreviewsScanned(previews: map<PreviewKey, string>, found: seq<PreviewKey>, cs: seq<Container>, was: map<PreviewKey, string>) {
    && previews.Keys == was.Keys
    && (forall key :: key in previews ==> previews[key] == PreviewOutcome(cs, false, key, was[key]))
    && (forall key :: key in found <==> key in was && Named(cs, ThePreview(key)))
  }

  ghost predicate DatabasesScanned(databases: map<string, Database>, found: seq<string>, cs: seq<Container>, was: map<string, Database>) {
    && databases.Keys == was.Keys
    && (forall uuid :: uuid in databases ==> databases[uuid] == DatabaseOutcome(cs, false, uuid, was[uuid]))
    && (forall uuid :: uuid in found <==> uuid in was && Named(cs, TheDatabase(uuid)))
  }

  // ---- What one container adds to it ----

  /** The application that the container stands for, if any. */
  predicate MainOf(c: Container) { Considered(c) && c.applicationId.Some? && Main(c) }

  function WithApp(apps: map<Id, App>, c: Container): map<Id, App> {
    if MainOf(c) && c.applicationId.value in apps
    then apps[c.applicationId.value := apps[c.applicationId.value].(present := true)]
    else apps
  }

  function WithFoundApp(apps: map<Id, App>, found: seq<Id>, c: Container): seq<Id> {
    if MainOf(c) && c.applicationId.value in apps && apps[c.applicationId.value].single
    then found + [c.applicationId.value] else found
  }

  function PartsOf(statuses: map<Id, map<string, string>>, id: Id): map<string, string> {
    if id in statuses then statuses[id] else map[]
  }

  function WithPart(statuses: map<Id, map<string, string>>, c: Container): map<Id, map<string, string>> {
    if !MainOf(c) then statuses
    else
      var id := c.applicationId.value;
      var parts := PartsOf(statuses, id);
      statuses[id := if Truthy(c.composeService) then parts[c.composeService.value := StatusOf(c)] else parts]
  }

  function WithCount(counts: map<Id, map<string, int>>, c: Container): map<Id, map<string, int>> {
    if MainOf(c) && Truthy(c.composeService) && c.restarts.Some? then
      var id := c.applicationId.value;
      counts[id := CountsOf(counts, id)[c.composeService.value := c.restarts.value]]
    else counts
  }

  predicate PreviewOf(c: Container) { Considered(c) && c.applicationId.Some? && !Main(c) }

  function KeyOf(c: Container): PreviewKey
    requires PreviewOf(c)
  {
    (c.applicationId.value, c.pullRequestId.value)
  }

  function WithPreview(previews: map<PreviewKey, string>, c: Container): map<PreviewKey, string> {
    if PreviewOf(c) && KeyOf(c) in previews then previews[KeyOf(c) := StatusOf(c)] else previews
  }

  function WithFoundPreview(previews: map<PreviewKey, string>, found: seq<PreviewKey>, c: Container): seq<PreviewKey> {
    if PreviewOf(c) && KeyOf(c) in previews then found + [KeyOf(c)] else found
  }

  function WithDatabase(databases: map<string, Database>, c: Container): map<string, Database> {
    if StandsForDatabase(c) && c.composeService.value in databases
    then databases[c.composeService.value := Observe(databases[c.composeService.value], c)]
    else databases
  }

  function WithFoundDatabase(databases: map<string, Database>, found: seq<string>, c: Container): seq<string> {
    if StandsForDatabase(c) && c.composeService.value in databases then found + [c.composeService.value] else found
  }

  lemma AppsNext(apps: map<Id, App>, found: seq<Id>, cs: seq<Container>, was: map<Id, App>, c: Container)
    requires AppsScanned(apps, found, cs, was)
    ensures AppsScanned(WithApp(apps, c), WithFoundApp(apps, found, c), cs + [c], was)
  {
    forall id ensures Named(cs + [c], TheApp(id)) <==> Named(cs, TheApp(id)) || (MainOf(c) && c.applicationId.value == id) {
      LastNext(cs, c, TheApp(id));
    }
  }

  lemma NoPartsYet(cs: seq<Container>, id: Id, part: string)
    requires !Named(cs, TheApp(id))
    ensures !Named(cs, ThePart(id, part))
  {
    LastFacts(cs, ThePart(id, part));
    LastFacts(cs, TheApp(id));
    assert forall c :: ThePart(id, part)(c) ==> TheApp(id)(c);
  }

  lemma PartsNextFor(statuses: map<Id, map<string, string>>, cs: seq<Container>, c: Container, id: Id)
    requires PartsScanned(statuses, cs)
    ensures id in WithPart(statuses, c) <==> Named(cs + [c], TheApp(id))
    ensures id in WithPart(statuses, c) ==> Parts(cs + [c], id, WithPart(statuses, c)[id])
  {
    LastNext(cs, c, TheApp(id));
    var now := PartsOf(WithPart(statuses, c), id);
    forall part ensures part in now <==> Named(cs + [c], ThePart(id, part))
      ensures part in now ==> now[part] == StatusOf(Last(cs + [c], ThePart(id, part)).value)
    {
      LastNext(cs, c, ThePart(id, part));
      if id !in statuses { NoPartsYet(cs, id, part); }
    }
  }

  lemma PartsNext(statuses: map<Id, map<string, string>>, cs: seq<Container>, c: Container)
    requires PartsScanned(statuses, cs)
    ensures PartsScanned(WithPart(statuses, c), cs + [c])
  {
    forall id ensures id in WithPart(statuses, c) <==> Named(cs + [c], TheApp(id))
      ensures id in WithPart(statuses, c) ==> Parts(cs + [c], id, WithPart(statuses, c)[id])
    {
      PartsNextFor(statuses, cs, c, id);
    }
  }

  lemma CountsNext(counts: map<Id, map<string, int>>, cs: seq<Container>, c: Container)
    requires CountsScanned(counts, cs)
    ensures CountsScanned(WithCount(counts, c), cs + [c])
  {
    forall id ensures Restarts(cs + [c], id, CountsOf(WithCount(counts, c), id)) {
      var now := CountsOf(WithCount(counts, c), id);
      assert Restarts(cs, id, CountsOf(counts, id));
      forall part ensures part in now <==> Named(cs + [c], TheCount(id, part))
        ensures part in now ==> Some(now[part]) == Last(cs + [c], TheCount(id, part)).value.restarts
      {
        LastNext(cs, c, TheCount(id, part));
      }
    }
  }

  lemma PreviewsNext(previews: map<PreviewKey, string>, found: seq<PreviewKey>, cs: seq<Container>,
                     was: map<PreviewKey, string>, c: Container)
    requires PreviewsScanned(previews, found, cs, was)
    ensures PreviewsScanned(WithPreview(previews, c), WithFoundPreview(previews, found, c), cs + [c], was)
  {
    forall key ensures Last(cs + [c], ThePreview(key)) ==
                       if PreviewOf(c) && KeyOf(c) == key then Some(c) else Last(cs, ThePreview(key)) {
      LastNext(cs, c, ThePreview(key));
    }
  }

  lemma ObserveNext(cs: seq<Container>, c: Container, who: Container -> bool, d: Database)
    ensures ObserveAll(cs + [c], who, d) ==
            if who(c) then Observe(ObserveAll(cs, who, d), c) else ObserveAll(cs, who, d)
  {
    assert (cs + [c])[..|cs|] == cs;
  }

  lemma {:induction false} ObserveNone(cs: seq<Container>, who: Container -> bool, d: Database)
    requires !Named(cs, who)
    ensures ObserveAll(cs, who, d) == d
  {
    if cs != [] { ObserveNone(cs[..|cs| - 1], who, d); }
  }

  lemma DatabaseNext(cs: seq<Container>, c: Container, uuid: string, d: Database)
    ensures var who := TheDatabase(uuid);
            && (Named(cs + [c], who) <==> Named(cs, who) || who(c))
            && DatabaseOutcome(cs + [c], false, uuid, d) ==
               if who(c) then Observe(DatabaseOutcome(cs, false, uuid, d), c) else DatabaseOutcome(cs, false, uuid, d)
  {
    var who := TheDatabase(uuid);
    LastNext(cs, c, who);
    ObserveNext(cs, c, who, d);
    if !Named(cs, who) { ObserveNone(cs, who, d); }
  }

  lemma DatabasesNext(databases: map<string, Database>, found: seq<string>, cs: seq<Container>,
                      was: map<string, Database>, c: Container)
    requires DatabasesScanned(databases, found, cs, was)
    ensures DatabasesScanned(WithDatabase(databases, c), WithFoundDatabase(databases, found, c), cs + [c], was)
  {
    var now := WithDatabase(databases, c);
    forall uuid | uuid in was ensures now[uuid] == DatabaseOutcome(cs + [c], false, uuid, was[uuid]) {
      DatabaseNext(cs, c, uuid, was[uuid]);
    }
    forall uuid ensures Named(cs + [c], TheDatabase(uuid)) <==> Named(cs, TheDatabase(uuid)) || TheDatabase(uuid)(c) {
      LastNext(cs, c, TheDatabase(uuid));
    }
  }

  /** The fields that the pass over the containers fills, with the records it touches. */
  datatype Pass = Pass(
    apps: map<Id, App>, foundApps: seq<Id>,
    statuses: map<Id, map<string, string>>, counts: map<Id, map<string, int>>,
    previews: map<PreviewKey, string>, foundPreviews: seq<PreviewKey>,
    databases: map<string, Database>, foundDatabases: seq<string>)

  function Noted(p: Pass, c: Container): Pass {
    Pass(WithApp(p.apps, c), WithFoundApp(p.apps, p.foundApps, c), WithPart(p.statuses, c), WithCount(p.counts, c),
         WithPreview(p.previews, c), WithFoundPreview(p.previews, p.foundPreviews, c),
         WithDatabase(p.databases, c), WithFoundDatabase(p.databases, p.foundDatabases, c))
  }

  function NotedAll(p: Pass, cs: seq<Container>): Pass {
    if cs == [] then p else Noted(NotedAll(p, cs[..|cs| - 1]), cs[|cs| - 1])
  }

  predicate Unused(p: Pass) {
    p.foundApps == [] && p.foundPreviews == [] && p.foundDatabases == [] && p.statuses == map[] && p.counts == map[]
  }

  lemma {:induction false} AppsNoted(p: Pass, cs: seq<Container>)
    requires Unused(p)
    ensures var q := NotedAll(p, cs);
            AppsScanned(q.apps, q.foundApps, cs, p.apps) && PartsScanned(q.statuses, cs) && CountsScanned(q.counts, cs)
  {
    if cs != [] {
      var n := |cs| - 1;
      var q := NotedAll(p, cs[..n]);
      AppsNoted(p, cs[..n]);
      assert cs == cs[..n] + [cs[n]];
      AppsNext(q.apps, q.foundApps, cs[..n], p.apps, cs[n]);
      PartsNext(q.statuses, cs[..n], cs[n]);
      CountsNext(q.counts, cs[..n], cs[n]);
    }
  }

  lemma {:induction false} OthersNoted(p: Pass, cs: seq<Container>)
    requires Unused(p)
    ensures var q := NotedAll(p, cs);
            PreviewsScanned(q.previews, q.foundPreviews, cs, p.previews) &&
            DatabasesScanned(q.databases, q.foundDatabases, cs, p.databases)
  {
    if cs != [] {
      var n := |cs| - 1;
      var q := NotedAll(p, cs[..n]);
      OthersNoted(p, cs[..n]);
      assert cs == cs[..n] + [cs[n]];
      PreviewsNext(q.previews, q.foundPreviews, cs[..n], p.previews, cs[n]);
      DatabasesNext(q.databases, q.foundDatabases, cs[..n], p.databases, cs[n]);
    }
  }

  // ---- The comparison with what is known, and the aggregation ----

  ghost predicate AppsCompared(was: map<Id, App>, found: seq<Id>, now: map<Id, App>) {
    && now.Keys == was.Keys
    && forall id :: id in now ==>
         now[id] == if was[id].single && id !in found
                    then was[id].(status := "exited", present := false, limitReached := false) else was[id]
  }

  ghost predicate PreviewsCompared(was: map<PreviewKey, string>, found: seq<PreviewKey>, now: map<PreviewKey, string>) {
    && now.Keys == was.Keys
    && forall key :: key in now ==>
         now[key] == if key !in found && !StartsWith(was[key], "exited") then "exited" else was[key]
  }

  ghost predicate DatabasesCompared(was: map<string, Database>, found: seq<string>, now: map<string, Database>) {
    && now.Keys == was.Keys
    && forall uuid :: uuid in now ==>
         now[uuid] == if uuid !in found && !StartsWith(was[uuid].status, "exited")
                      then Absent(was[uuid]) else was[uuid]
  }

  ghost predicate AllSettled(verdict: Verdict, statuses: map<Id, map<string, string>>, counts: map<Id, map<string, int>>,
                             todo: set<Id>, was: map<Id, App>, now: map<Id, App>) {
    && now.Keys == was.Keys
    && (forall id :: id in now && (id in todo || id !in statuses) ==> now[id] == was[id])
    && (forall id :: id in now && id in statuses && id !in todo ==>
          Settled(id, verdict, statuses[id], CountsOf(counts, id), was[id], now[id]))
  }

  ghost predicate AllInspected(w: Answers, was: map<Id, App>, now: map<Id, App>) {
    now.Keys == was.Keys && forall id :: id in now ==> now[id] == Inspected(w, id, was[id])
  }

  ghost predicate AppsOutcome(cs: seq<Container>, complete: bool, w: Answers, was: map<Id, App>, now: map<Id, App>) {
    && now.Keys == was.Keys
    && forall id :: id in now ==> AppOutcome(cs, complete, w, id, was[id], now[id])
  }

  ghost predicate PreviewsOutcome(cs: seq<Container>, complete: bool, was: map<PreviewKey, string>, now: map<PreviewKey, string>) {
    && now.Keys == was.Keys
    && forall key :: key in now ==> now[key] == PreviewOutcome(cs, complete, key, was[key])
  }

  ghost predicate DatabasesOutcome(cs: seq<Container>, complete: bool, was: map<string, Database>, now: map<string, Database>) {
    && now.Keys == was.Keys
    && forall uuid :: uuid in now ==> now[uuid] == DatabaseOutcome(cs, complete, uuid, was[uuid])
  }

  lemma IncompleteOutcome(p: Pass, cs: seq<Container>, w: Answers)
    requires Unused(p)
    ensures var q := NotedAll(p, cs);
            && AppsOutcome(cs, false, w, p.apps, q.apps)
            && PreviewsOutcome(cs, false, p.previews, q.previews)
            && DatabasesOutcome(cs, false, p.databases, q.databases)
  {
    AppsNoted(p, cs);
    OthersNoted(p, cs);
  }

  lemma CompleteApp(q: Pass, cs: seq<Container>, w: Answers, was: map<Id, App>, compared: map<Id, App>,
                    inspected: map<Id, App>, now: map<Id, App>, id: Id)
    requires AppsScanned(q.apps, q.foundApps, cs, was) && PartsScanned(q.statuses, cs) && CountsScanned(q.counts, cs)
    requires AppsCompared(q.apps, q.foundApps, compared) && AllInspected(w, compared, inspected)
    requires AllSettled(w.verdict, q.statuses, q.counts, {}, inspected, now)
    requires id in now
    ensures AppOutcome(cs, true, w, id, was[id], now[id])
  {
    if Named(cs, TheApp(id)) {
      assert compared[id] == was[id].(present := true);
      assert Parts(cs, id, q.statuses[id]) && Restarts(cs, id, CountsOf(q.counts, id));
    }
  }

  /** A finished pass over the containers `cs`, from `p` to `q`. */
  ghost predicate Finished(p: Pass, cs: seq<Container>, q: Pass) {
    Unused(p) && q == NotedAll(p, cs)
  }

  lemma CompleteApps(p: Pass, q: Pass, cs: seq<Container>, w: Answers, compared: map<Id, App>,
                     inspected: map<Id, App>, now: map<Id, App>)
    requires Finished(p, cs, q)
    requires AppsCompared(q.apps, q.foundApps, compared) && AllInspected(w, compared, inspected)
    requires AllSettled(w.verdict, q.statuses, q.counts, {}, inspected, now)
    ensures AppsOutcome(cs, true, w, p.apps, now)
  {
    AppsNoted(p, cs);
    forall id | id in now ensures AppOutcome(cs, true, w, id, p.apps[id], now[id]) {
      CompleteApp(q, cs, w, p.apps, compared, inspected, now, id);
    }
  }

  lemma CompletePreviews(p: Pass, q: Pass, cs: seq<Container>, now: map<PreviewKey, string>)
    requires Finished(p, cs, q) && PreviewsCompared(q.previews, q.foundPreviews, now)
    ensures PreviewsOutcome(cs, true, p.previews, now)
  {
    OthersNoted(p, cs);
  }

  lemma CompleteDatabases(p: Pass, q: Pass, cs: seq<Container>, now: map<string, Database>)
    requires Finished(p, cs, q) && DatabasesCompared(q.databases, q.foundDatabases, now)
    ensures DatabasesOutcome(cs, true, p.databases, now)
  {
    OthersNoted(p, cs);
  }

  // ---- The job ----

  class Job {
    var apps: map<Id, App>
    var previews: map<PreviewKey, string>
    var databases: map<string, Database>
    var foundApps: seq<Id>
    var foundPreviews: seq<PreviewKey>
    var foundDatabases: seq<string>
    var statuses: map<Id, map<string, string>>
    var counts: map<Id, map<string, int>>

    constructor (apps: map<Id, App>, previews: map<PreviewKey, string>, databases: map<string, Database>)
      ensures this.apps == apps && this.previews == previews && this.databases == databases
      ensures Unused(Fields())
    {
      this.apps, this.previews, this.databases := apps, previews, databases;
      foundApps, foundPreviews, foundDatabases, statuses, counts := [], [], [], map[], map[];
    }

    function Fields(): Pass
      reads this
    {
      Pass(apps, foundApps, statuses, counts, previews, foundPreviews, databases, foundDatabases)
    }

    method NoteApplication(c: Container)
      modifies this`apps, this`foundApps
      ensures apps == WithApp(old(apps), c) && foundApps == WithFoundApp(old(apps), old(foundApps), c)
    {
      if Considered(c) && c.applicationId.Some? && Main(c) {
        var id := c.applicationId.value;
        if id in apps {
          if apps[id].single { foundApps := foundApps + [id]; }
          if !apps[id].present { apps := apps[id := apps[id].(present := true)]; }
        }
      }
    }

    method NoteParts(c: Container)
      modifies this`statuses, this`counts
      ensures statuses == WithPart(old(statuses), c) && counts == WithCount(old(counts), c)
    {
      if Considered(c) && c.applicationId.Some? && Main(c) {
        var id := c.applicationId.value;
        if id !in statuses { statuses := statuses[id := map[]]; }
        if Truthy(c.composeService) {
          var part := c.composeService.value;
          statuses := statuses[id := statuses[id][part := StatusOf(c)]];
          if c.restarts.Some? {
            if id !in counts { counts := counts[id := map[]]; }
            counts := counts[id := counts[id][part := c.restarts.value]];
          }
        }
      }
    }

    method NotePreview(c: Container)
      modifies this`previews, this`foundPreviews
      ensures previews == WithPreview(old(previews), c)
      ensures foundPreviews == WithFoundPreview(old(previews), old(foundPreviews), c)
    {
      if Considered(c) && c.applicationId.Some? && !Main(c) {
        var key := (c.applicationId.value, c.pullRequestId.value);
        if key in previews {
          foundPreviews := foundPreviews + [key];
          if previews[key] != StatusOf(c) { previews := previews[key := StatusOf(c)]; }
        }
      }
    }

    method NoteDatabase(c: Container)
      modifies this`databases, this`foundDatabases
      ensures databases == WithDatabase(old(databases), c)
      ensures foundDatabases == WithFoundDatabase(old(databases), old(foundDatabases), c)
    {
      if StandsForDatabase(c) && c.composeService.value in databases {
        var uuid := c.composeService.value;
        foundDatabases := foundDatabases + [uuid];
        var database := databases[uuid].(status := StatusOf(c));
        if c.restarts.Some? {
          database := database.(restarts := NewCount(database.restarts, c.restarts));
          if database.maxRestarts > 0 && c.restarts.value >= database.maxRestarts {
            database := database.(limitReached := true);
          }
        }
        databases := databases[uuid := database];
      }
    }

    method Note(c: Container)
      modifies this
      ensures Fields() == Noted(old(Fields()), c)
    {
      NoteApplication(c);
      NoteParts(c);
      NotePreview(c);
      NoteDatabase(c);
    }

    /** The pass over the containers. */
    method Scan(cs: seq<Container>)
      modifies this
      ensures Fields() == NotedAll(old(Fields()), cs)
    {
      for i := 0 to |cs|
        invariant Fields() == NotedAll(old(Fields()), cs[..i])
      {
        assert cs[..i + 1][..i] == cs[..i];
        Note(cs[i]);
      }
      assert cs[..|cs|] == cs;
    }

    /** Known applications of this server alone that no container named. */
    method UpdateNotFoundApplications()
      modifies this`apps
      ensures AppsCompared(old(apps), foundApps, apps)
    {
      apps := map id | id in apps ::
        if apps[id].single && id !in foundApps
        then apps[id].(status := "exited", present := false, limitReached := false)
        else apps[id];
    }

    method UpdateNotFoundPreviews()
      modifies this`previews
      ensures PreviewsCompared(old(previews), foundPreviews, previews)
    {
      previews := map key | key in previews ::
        if key !in foundPreviews && !StartsWith(previews[key], "exited") then "exited" else previews[key];
    }

    method UpdateNotFoundDatabases()
      modifies this`databases
      ensures DatabasesCompared(old(databases), foundDatabases, databases)
    {
      var todo := databases.Keys;
      while todo != {}
        invariant databases.Keys == old(databases).Keys && todo <= databases.Keys
        invariant forall uuid :: uuid in todo ==> databases[uuid] == old(databases)[uuid]
        invariant forall uuid :: uuid in databases && uuid !in todo ==>
                    databases[uuid] == if uuid !in foundDatabases && !StartsWith(old(databases)[uuid].status, "exited")
                                       then Absent(old(databases)[uuid]) else old(databases)[uuid]
      {
        var uuid :| uuid in todo;
        todo := todo - {uuid};
        var database := databases[uuid];
        var stopped := StartsWith(database.status, "exited") && database.limitReached;
        if uuid !in foundDatabases && !stopped && !StartsWith(database.status, "exited") {
          databases := databases[uuid := Absent(database)];
        }
      }
    }

    /** Restart counts, the restart limit and the aggregated status, for every
        application that some container named. */
    method Aggregate(verdict: Verdict)
      modifies this`apps
      ensures AllSettled(verdict, statuses, counts, {}, old(apps), apps)
    {
      var todo := statuses.Keys;
      while todo != {}
        invariant todo <= statuses.Keys && AllSettled(verdict, statuses, counts, todo, old(apps), apps)
      {
        var id :| id in todo;
        todo := todo - {id};
        if id in apps {
          var observed := Max(CountsOf(counts, id));
          apps := apps[id := Aggregated(apps[id], statuses[id], observed, verdict(id, statuses[id], OrZero(observed)))];
        }
      }
    }

    method UpdateNotFoundOthers(ghost start: Pass, ghost cs: seq<Container>, ghost q: Pass)
      requires Finished(start, cs, q) && previews == q.previews && foundPreviews == q.foundPreviews
      requires databases == q.databases && foundDatabases == q.foundDatabases
      modifies this`previews, this`databases
      ensures PreviewsOutcome(cs, true, start.previews, previews)
      ensures DatabasesOutcome(cs, true, start.databases, databases)
    {
      UpdateNotFoundPreviews();
      CompletePreviews(start, q, cs, previews);
      UpdateNotFoundDatabases();
      CompleteDatabases(start, q, cs, databases);
    }

    /** Applications with several servers get the status that an inspection of them finds. */
    method UpdateAdditionalServers(w: Answers)
      modifies this`apps
      ensures AllInspected(w, old(apps), apps)
    {
      var todo := apps.Keys;
      while todo != {}
        invariant apps.Keys == old(apps).Keys && todo <= apps.Keys
        invariant forall id :: id in apps ==>
                    apps[id] == if id in todo then old(apps)[id] else Inspected(w, id, old(apps)[id])
      {
        var id :| id in todo;
        todo := todo - {id};
        if !apps[id].single { apps := apps[id := apps[id].(status := w.inspected(id))]; }
      }
    }

    method AggregateCompared(ghost start: Pass, ghost cs: seq<Container>, ghost q: Pass, w: Answers)
      requires Finished(start, cs, q) && AppsCompared(q.apps, q.foundApps, apps)
      requires statuses == q.statuses && counts == q.counts
      modifies this`apps
      ensures AppsOutcome(cs, true, w, start.apps, apps)
    {
      ghost var compared := apps;
      UpdateAdditionalServers(w);
      ghost var inspected := apps;
      Aggregate(w.verdict);
      CompleteApps(start, q, cs, w, compared, inspected, apps);
    }

    /** What follows the pass when the snapshot is complete. */
    method Reconcile(ghost start: Pass, ghost cs: seq<Container>, ghost q: Pass, w: Answers)
      requires Finished(start, cs, q) && Fields() == q
      modifies this`apps, this`previews, this`databases
      ensures AppsOutcome(cs, true, w, start.apps, apps)
      ensures PreviewsOutcome(cs, true, start.previews, previews)
      ensures DatabasesOutcome(cs, true, start.databases, databases)
    {
      UpdateNotFoundApplications();
      UpdateNotFoundOthers(start, cs, q);
      AggregateCompared(start, cs, q, w);
    }

    /** The whole push: what becomes of every application, preview and database. */
    method Handle(cs: seq<Container>, complete: bool, w: Answers)
      requires Unused(Fields())
      modifies this
      ensures AppsOutcome(cs, complete, w, old(apps), apps)
      ensures PreviewsOutcome(cs, complete, old(previews), previews)
      ensures DatabasesOutcome(cs, complete, old(databases), databases)
    {
      ghost var start := Fields();
      if cs == [] && !complete {
        IncompleteOutcome(start, cs, w);
        return;
      }
      Scan(cs);
      if complete {
        Reconcile(start, cs, Fields(), w);
      } else {
        IncompleteOutcome(start, cs, w);
      }
    }
  }

  method Max(counts: map<string, int>) returns (m: Option<int>)
    ensures IsMax(counts, m)
  {
    m := None;
    var todo := counts.Keys;
    while todo != {}
      invariant todo <= counts.Keys
      invariant m.None? <==> todo == counts.Keys
      invariant m.Some? ==> exists part :: part in counts && counts[part] == m.value
      invariant forall part :: part in counts && part !in todo ==> m.Some? && counts[part] <= m.value
    {
      var part :| part in todo;
      todo := todo - {part};
      if m.None? || counts[part] > m.value { m := Some(counts[part]); }
    }
  }

  // ---- What a push promises ----

  ghost predicate Reported(cs: seq<Container>, id: Id) {
    exists c :: c in cs && ReportsApp(c, id)
  }

  /** Managed, not one-off, of this application, and without a pull request or with number 0. */
  predicate ReportsApp(c: Container, id: Id) {
    && c.managed && !c.oneOff && c.applicationId == Some(id)
    && (c.pullRequestId == None || c.pullRequestId == Some("0"))
  }

  /** After a complete snapshot an application of this server alone is present exactly
      when a managed container that is neither one-off nor a preview names it, and
      otherwise it is exited with its limit flag cleared. */
  lemma PresentIffReported(cs: seq<Container>, w: Answers, id: Id, was: App, now: App)
    requires AppOutcome(cs, true, w, id, was, now) && was.single
    ensures now.present <==> Reported(cs, id)
    ensures !now.present ==> now.status == "exited" && !now.limitReached
  {
    ReportedIffNamed(cs, id);
  }

  lemma ReportedIffNamed(cs: seq<Container>, id: Id)
    ensures Reported(cs, id) <==> Named(cs, TheApp(id))
  {
    LastFacts(cs, TheApp(id));
    forall c | c in cs ensures TheApp(id)(c) <==> ReportsApp(c, id) {
    }
  }

  /** Some part of the application was last seen with at least that many restarts. */
  ghost predicate RestartedOften(cs: seq<Container>, id: Id, n: int) {
    exists part :: Named(cs, TheCount(id, part)) && OrZero(Last(cs, TheCount(id, part)).value.restarts) >= n
  }

  lemma OftenIffMax(cs: seq<Container>, id: Id, counts: map<string, int>, observed: Option<int>, n: int)
    requires Restarts(cs, id, counts) && IsMax(counts, observed)
    ensures RestartedOften(cs, id, n) <==> observed.Some? && observed.value >= n
  {
    if observed.Some? {
      var top :| top in counts && counts[top] == observed.value;
      assert Named(cs, TheCount(id, top));
    }
  }

  /** A complete snapshot that reports an application never clears its limit flag, and
      raises it exactly when there is a limit and a part has reached it; the recorded
      restart count never falls. */
  lemma LimitIffRestartedOften(cs: seq<Container>, w: Answers, id: Id, was: App, now: App)
    requires AppOutcome(cs, true, w, id, was, now) && Reported(cs, id)
    ensures now.limitReached <==> was.limitReached || (was.maxRestarts > 0 && RestartedOften(cs, id, was.maxRestarts))
    ensures now.restarts >= was.restarts && now.maxRestarts == was.maxRestarts
    ensures now.restarts > was.restarts ==> RestartedOften(cs, id, now.restarts)
  {
    ReportedIffNamed(cs, id);
    var statuses, counts :| Parts(cs, id, statuses) && Restarts(cs, id, counts) &&
                            Settled(id, w.verdict, statuses, counts, Inspected(w, id, was.(present := true)), now);
    SettledLimit(cs, id, w.verdict, statuses, counts, Inspected(w, id, was.(present := true)), now);
  }

  lemma AggregatedTracks(a: App, statuses: map<string, string>, observed: Option<int>, verdict: string)
    ensures var b := Aggregated(a, statuses, observed, verdict);
            b.(status := a.status) == Track(a, observed)
  {
  }

  lemma SettledLimit(cs: seq<Container>, id: Id, verdict: Verdict, statuses: map<string, string>,
                     counts: map<string, int>, was: App, now: App)
    requires Restarts(cs, id, counts) && Settled(id, verdict, statuses, counts, was, now)
    ensures now.limitReached <==> was.limitReached || (was.maxRestarts > 0 && RestartedOften(cs, id, was.maxRestarts))
    ensures now.restarts >= was.restarts && now.maxRestarts == was.maxRestarts
    ensures now.restarts > was.restarts ==> RestartedOften(cs, id, now.restarts)
  {
    var observed :| IsMax(counts, observed) &&
                    now == Aggregated(was, statuses, observed, verdict(id, statuses, OrZero(observed)));
    AggregatedTracks(was, statuses, observed, verdict(id, statuses, OrZero(observed)));
    OftenIffMax(cs, id, counts, observed, was.maxRestarts);
    OftenIffMax(cs, id, counts, observed, now.restarts);
  }

  /** `top` is the highest of the counts that the parts were last seen with, or 0. */
  ghost predicate HighestCount(cs: seq<Container>, id: Id, top: int) {
    if forall part :: !Named(cs, TheCount(id, part)) then top == 0
    else RestartedOften(cs, id, top) && !RestartedOften(cs, id, top + 1)
  }

  ghost predicate EveryPartExited(cs: seq<Container>, id: Id) {
    forall part :: Named(cs, ThePart(id, part)) ==> HasWord(StatusOf(Last(cs, ThePart(id, part)).value), "exited")
  }

  /** The word stands somewhere in the text. */
  ghost predicate HasWord(s: string, word: string) {
    exists i :: 0 <= i <= |s| && word <= s[i..]
  }

  lemma {:induction false} ContainsIff(s: string, word: string)
    ensures Contains(s, word) <==> HasWord(s, word)
  {
    if word <= s {
      assert s[0..] == s;
    } else if s != "" {
      ContainsIff(s[1..], word);
      if i :| 0 <= i <= |s[1..]| && word <= s[1..][i..] { assert s[1..][i..] == s[i + 1..]; }
      if i :| 0 <= i <= |s| && word <= s[i..] {
        assert s[0..] == s;
        assert i > 0 && s[1..][i - 1..] == s[i..];
      }
    }
  }

  lemma AllExitedIff(cs: seq<Container>, id: Id, statuses: map<string, string>)
    requires Parts(cs, id, statuses)
    ensures AllExited(statuses) <==> EveryPartExited(cs, id)
  {
    forall part ensures Named(cs, ThePart(id, part)) ==>
        statuses[part] == StatusOf(Last(cs, ThePart(id, part)).value)
        && (Contains(statuses[part], "exited") <==> HasWord(StatusOf(Last(cs, ThePart(id, part)).value), "exited")) {
      if Named(cs, ThePart(id, part)) { ContainsIff(statuses[part], "exited"); }
    }
  }

  lemma HighestIsMax(cs: seq<Container>, id: Id, counts: map<string, int>, observed: Option<int>)
    requires Restarts(cs, id, counts) && IsMax(counts, observed)
    ensures HighestCount(cs, id, OrZero(observed))
  {
    OftenIffMax(cs, id, counts, observed, OrZero(observed));
    OftenIffMax(cs, id, counts, observed, OrZero(observed) + 1);
    if observed.Some? {
      var top :| top in counts && counts[top] == observed.value;
      assert Named(cs, TheCount(id, top));
    }
  }

  /** The status an application had before the aggregation: what was recorded, or what an
      inspection found if it has several servers. */
  function StatusBefore(w: Answers, id: Id, was: App): string {
    if was.single then was.status else w.inspected(id)
  }

  /** The status that a complete push writes for a reported application. It is exited if
      the limit is reached, the application had exited and every part has; otherwise it is
      the verdict on the parts' last statuses and the highest count, unless that is empty. */
  ghost predicate StatusIs(cs: seq<Container>, w: Answers, id: Id, was: App, now: App,
                           statuses: map<string, string>, top: int) {
    && Parts(cs, id, statuses) && HighestCount(cs, id, top)
    && var verdict := w.verdict(id, statuses, top);
       now.status ==
         if now.limitReached && StartsWith(StatusBefore(w, id, was), "exited") && EveryPartExited(cs, id) then "exited"
         else if verdict != "" && verdict != "0" then verdict
         else StatusBefore(w, id, was)
  }

  lemma SettledStatus(cs: seq<Container>, w: Answers, id: Id, was: App, now: App,
                      statuses: map<string, string>, counts: map<string, int>)
    requires Parts(cs, id, statuses) && Restarts(cs, id, counts)
    requires Settled(id, w.verdict, statuses, counts, Inspected(w, id, was.(present := true)), now)
    ensures exists top :: StatusIs(cs, w, id, was, now, statuses, top)
  {
    var a := Inspected(w, id, was.(present := true));
    var observed :| IsMax(counts, observed) &&
                    now == Aggregated(a, statuses, observed, w.verdict(id, statuses, OrZero(observed)));
    HighestIsMax(cs, id, counts, observed);
    AllExitedIff(cs, id, statuses);
    assert a.present && a.status == StatusBefore(w, id, was);
    assert StatusIs(cs, w, id, was, now, statuses, OrZero(observed));
  }

  lemma StatusIsTheVerdict(cs: seq<Container>, w: Answers, id: Id, was: App, now: App)
    requires AppOutcome(cs, true, w, id, was, now) && Reported(cs, id)
    ensures exists statuses, top :: StatusIs(cs, w, id, was, now, statuses, top)
  {
    ReportedIffNamed(cs, id);
    var statuses, counts :| Parts(cs, id, statuses) && Restarts(cs, id, counts) &&
                            Settled(id, w.verdict, statuses, counts, Inspected(w, id, was.(present := true)), now);
    SettledStatus(cs, w, id, was, now, statuses, counts);
  }

  /** An incomplete snapshot changes nothing but the presence of applications it reports,
      and takes every other new status from a container it reports. */
  lemma IncompleteNeverMarksAbsent(cs: seq<Container>, w: Answers, id: Id, was: App, now: App)
    requires AppOutcome(cs, false, w, id, was, now)
    ensures now == was.(present := was.present || Reported(cs, id))
  {
    ReportedIffNamed(cs, id);
  }

  lemma IncompleteTakesReportedStatus(cs: seq<Container>, key: PreviewKey, preview: string, uuid: string, db: Database)
    ensures var s := PreviewOutcome(cs, false, key, preview);
            s != preview ==> exists c :: c in cs && ThePreview(key)(c) && StatusOf(c) == s
    ensures var d := DatabaseOutcome(cs, false, uuid, db);
            d != db ==> exists c :: c in cs && TheDatabase(uuid)(c) && StatusOf(c) == d.status
  {
    LastFacts(cs, ThePreview(key));
    LastFacts(cs, TheDatabase(uuid));
    if Named(cs, TheDatabase(uuid)) { ObserveFacts(cs, TheDatabase(uuid), db, 0); }
  }

  /** Some container that stands for the database reports at least that many restarts. */
  ghost predicate ReportsAtLeast(cs: seq<Container>, who: Container -> bool, n: int) {
    exists c :: c in cs && who(c) && c.restarts.Some? && c.restarts.value >= n
  }

  lemma {:induction false} ObserveFacts(cs: seq<Container>, who: Container -> bool, d: Database, n: int)
    ensures var e := ObserveAll(cs, who, d);
            && e.maxRestarts == d.maxRestarts
            && (Named(cs, who) ==> e.status == StatusOf(Last(cs, who).value))
            && (e.limitReached <==> d.limitReached || (d.maxRestarts > 0 && ReportsAtLeast(cs, who, d.maxRestarts)))
            && (e.restarts >= n <==> d.restarts >= n || ReportsAtLeast(cs, who, n))
  {
    if cs != [] {
      var front, c := cs[..|cs| - 1], cs[|cs| - 1];
      assert cs == front + [c];
      ObserveFacts(front, who, d, n);
      ReportsNext(front, c, who, n);
      ReportsNext(front, c, who, d.maxRestarts);
    }
  }

  lemma ReportsNext(cs: seq<Container>, c: Container, who: Container -> bool, n: int)
    ensures ReportsAtLeast(cs + [c], who, n) <==>
            ReportsAtLeast(cs, who, n) || (who(c) && c.restarts.Some? && c.restarts.value >= n)
  {
    assert c in cs + [c];
    forall x | x in cs ensures x in cs + [c] {}
  }

  /** A database that the report names, complete or not, has its limit flag raised exactly
      when there is a limit and a container reaches it; its restart count becomes the
      highest of the old one and those reported. */
  lemma DatabaseLimitIffReported(cs: seq<Container>, complete: bool, uuid: string, was: Database, n: int)
    requires Named(cs, TheDatabase(uuid))
    ensures var now := DatabaseOutcome(cs, complete, uuid, was);
            && (now.limitReached <==>
                  was.limitReached || (was.maxRestarts > 0 && ReportsAtLeast(cs, TheDatabase(uuid), was.maxRestarts)))
            && (now.restarts >= n <==> was.restarts >= n || ReportsAtLeast(cs, TheDatabase(uuid), n))
  {
    ObserveFacts(cs, TheDatabase(uuid), was, n);
  }

  // ---- Previews, databases and applications elsewhere ----

  /** The status a container reports: its state, exited if it has none, and unless it has
      exited also its health, unknown if it has none. */
  lemma StatusSpelled(c: Container)
    ensures c.state == None || c.state == Some("exited") ==> StatusOf(c) == "exited"
    ensures c.state != None && c.state != Some("exited") ==>
              StatusOf(c) == c.state.value + ":" + match c.health case None => "unknown" case Some(h) => h
  {
  }

  /** Managed, not one-off, of this application and this pull request, which is not 0. */
  predicate ReportsPreview(c: Container, key: PreviewKey) {
    && c.managed && !c.oneOff && c.applicationId == Some(key.0) && c.pullRequestId == Some(key.1) && key.1 != "0"
  }

  /** Of no application and no service, named after the database, not the running proxy,
      not a running service, and in one of the states that count. */
  ghost predicate ReportsDatabase(c: Container, uuid: string) {
    && c.managed && !c.oneOff && c.applicationId == None && c.serviceId == None && c.composeService == Some(uuid)
    && (HasWord(StatusOf(c), "running") ==> c.name != "coolify-proxy" && c.kind != "service")
    && (|| HasWord(StatusOf(c), "running") || HasWord(StatusOf(c), "restarting") || HasWord(StatusOf(c), "starting")
        || HasWord(StatusOf(c), "created") || HasWord(StatusOf(c), "paused"))
  }

  lemma ReportsPreviewIff(c: Container, key: PreviewKey)
    ensures ThePreview(key)(c) <==> ReportsPreview(c, key)
  {
  }

  lemma ReportsDatabaseIff(c: Container, uuid: string)
    ensures TheDatabase(uuid)(c) <==> ReportsDatabase(c, uuid)
  {
    var status := StatusOf(c);
    ContainsIff(status, "running");
    ContainsIff(status, "restarting");
    ContainsIff(status, "starting");
    ContainsIff(status, "created");
    ContainsIff(status, "paused");
  }

  /** No later container of the report is accepted. */
  ghost predicate LastOne<C(!new)>(cs: seq<C>, who: C -> bool, c: C) {
    exists i :: 0 <= i < |cs| && cs[i] == c && who(c) && forall j :: i < j < |cs| ==> !who(cs[j])
  }

  lemma {:induction false} LastIsLast<C(!new)>(cs: seq<C>, who: C -> bool)
    requires Named(cs, who)
    ensures LastOne(cs, who, Last(cs, who).value)
  {
    var n := |cs| - 1;
    if who(cs[n]) {
      assert cs[n] == Last(cs, who).value;
    } else {
      LastIsLast(cs[..n], who);
      var i :| 0 <= i < n && cs[..n][i] == Last(cs[..n], who).value && forall j :: i < j < n ==> !who(cs[..n][j]);
      assert forall j :: i < j < |cs| ==> !who(cs[j]) by {
        assert forall j :: i < j < n ==> cs[j] == cs[..n][j];
      }
      assert cs[i] == Last(cs, who).value;
    }
  }

  /** The parts of an application are its compose services, if the label says anything;
      a count is that of a part which reports a number. */
  lemma ReportsPartIff(c: Container, id: Id, part: string)
    ensures ThePart(id, part)(c) <==> ReportsApp(c, id) && c.composeService == Some(part) && part != "" && part != "0"
    ensures TheCount(id, part)(c) <==> ThePart(id, part)(c) && c.restarts != None
  {
  }

  /** A preview takes the status of the last container that reports it. One that none
      reports has exited after a complete snapshot and is as it was after another. */
  lemma PreviewIs(cs: seq<Container>, complete: bool, key: PreviewKey, was: string)
    ensures var now := PreviewOutcome(cs, complete, key, was);
            && ((exists c :: c in cs && ReportsPreview(c, key)) ==>
                  exists c :: LastOne(cs, ThePreview(key), c) && now == StatusOf(c))
            && (!(exists c :: c in cs && ReportsPreview(c, key)) ==>
                  now == if complete && !("exited" <= was) then "exited" else was)
  {
    LastFacts(cs, ThePreview(key));
    forall c | c in cs ensures ThePreview(key)(c) <==> ReportsPreview(c, key) { ReportsPreviewIff(c, key); }
    if Named(cs, ThePreview(key)) { LastIsLast(cs, ThePreview(key)); }
  }

  /** The same for a database; one that went missing also starts to count anew. */
  lemma DatabaseIs(cs: seq<Container>, complete: bool, uuid: string, was: Database)
    ensures var now := DatabaseOutcome(cs, complete, uuid, was);
            && ((exists c :: c in cs && ReportsDatabase(c, uuid)) ==>
                  exists c :: LastOne(cs, TheDatabase(uuid), c) && now.status == StatusOf(c))
            && (!(exists c :: c in cs && ReportsDatabase(c, uuid)) ==>
                  now == if complete && !("exited" <= was.status) then Database("exited", false, 0, was.maxRestarts) else was)
  {
    LastFacts(cs, TheDatabase(uuid));
    forall c | c in cs ensures TheDatabase(uuid)(c) <==> ReportsDatabase(c, uuid) { ReportsDatabaseIff(c, uuid); }
    if Named(cs, TheDatabase(uuid)) {
      LastIsLast(cs, TheDatabase(uuid));
      ObserveFacts(cs, TheDatabase(uuid), was, 0);
    }
  }

  /** An application with several servers that a complete snapshot does not report only
      takes the status that their inspection found. */
  lemma ElsewhereIs(cs: seq<Container>, w: Answers, id: Id, was: App, now: App)
    requires AppOutcome(cs, true, w, id, was, now) && !was.single && !Reported(cs, id)
    ensures now == was.(status := w.inspected(id))
  {
    ReportedIffNamed(cs, id);
  }
}
