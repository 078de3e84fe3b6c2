/** The scheduler's walk over two tables at once: one keyset cursor per table, a
    database that changes between chunks, and a fair merge within each chunk. */
module KeysetPaging {
  import opened Text

  const CHUNK_SIZE: nat := 100

  /** What the precheck makes of an enabled row: its resource is gone (handled on the
      spot), it is a due candidate, it is not, or the precheck throws. */
  datatype Kind = Detached | Due | NotDue | Failing

  datatype Row = Row(id: nat, kind: Kind)

  datatype Event = Backup(id: nat) | Task(id: nat)

  /** The enabled rows of one table, in id order, at each query made so far. */
  datatype Queries = Start | Query(before: Queries, rows: seq<Row>)

  ghost predicate Sorted(rows: seq<Row>) {
    forall i, j :: 0 <= i < j < |rows| ==> rows[i].id < rows[j].id
  }

  ghost predicate Ordered(q: Queries) {
    q.Query? ==> Sorted(q.rows) && Ordered(q.before)
  }

  /** The number of ids the cursor has moved past. */
  function Passed(last: Option<nat>): nat {
    if last.None? then 0 else last.value + 1
  }

  function Above(rows: seq<Row>, last: Option<nat>): seq<Row> {
    if rows == [] then []
    else (if rows[0].id >= Passed(last) then [rows[0]] else []) + Above(rows[1..], last)
  }

  /** The query: rows above the cursor, by id, at most a chunk of them. */
  function Page(rows: seq<Row>, last: Option<nat>): seq<Row> {
    var above := Above(rows, last);
    if |above| <= CHUNK_SIZE then above else above[..CHUNK_SIZE]
  }

  function Advance(last: Option<nat>, page: seq<Row>): Option<nat> {
    if page == [] then last else Some(page[|page| - 1].id)
  }

  /** Where the cursor stands after these queries. */
  function Cursor(q: Queries): Option<nat> {
    if q.Start? then None else Advance(Cursor(q.before), Page(q.rows, Cursor(q.before)))
  }

  /** The rows that the queries returned. */
  function Examined(q: Queries): seq<Row> {
    if q.Start? then [] else Examined(q.before) + Page(q.rows, Cursor(q.before))
  }

  // ---- One page ----

  lemma {:induction false} InAbove(rows: seq<Row>, last: Option<nat>, x: Row)
    ensures x in Above(rows, last) <==> x in rows && x.id >= Passed(last)
  {
    if rows != [] {
      InAbove(rows[1..], last, x);
      assert x in rows <==> x == rows[0] || x in rows[1..];
    }
  }

  lemma SortedCons(x: Row, rows: seq<Row>)
    requires Sorted(rows) && forall y :: y in rows ==> x.id < y.id
    ensures Sorted([x] + rows)
  {
    assert forall i :: 0 <= i < |rows| ==> rows[i] in rows;
  }

  lemma {:induction false} SortedAbove(rows: seq<Row>, last: Option<nat>)
    requires Sorted(rows)
    ensures Sorted(Above(rows, last))
  {
    if rows != [] {
      var x, rest := rows[0], Above(rows[1..], last);
      SortedAbove(rows[1..], last);
      forall y | y in rest ensures x.id < y.id {
        InAbove(rows[1..], last, y);
      }
      SortedCons(x, rest);
      assert [] + rest == rest;
    }
  }

  lemma AboveFacts(rows: seq<Row>, last: Option<nat>)
    requires Sorted(rows)
    ensures Sorted(Above(rows, last))
    ensures forall x :: x in Above(rows, last) <==> x in rows && x.id >= Passed(last)
  {
    SortedAbove(rows, last);
    forall x ensures x in Above(rows, last) <==> x in rows && x.id >= Passed(last) {
      InAbove(rows, last, x);
    }
  }

  /** A page holds exactly the rows between the old cursor and the new one; an empty
      page means that no row lies above the cursor. */
  lemma PageFacts(rows: seq<Row>, last: Option<nat>)
    requires Sorted(rows)
    ensures var page := Page(rows, last);
            && Sorted(page)
            && Passed(last) <= Passed(Advance(last, page))
            && (forall x :: x in page <==> x in rows && Passed(last) <= x.id < Passed(Advance(last, page)))
            && (page == [] ==> forall x :: x in rows ==> x.id < Passed(last))
  {
    AboveFacts(rows, last);
    var above, page := Above(rows, last), Page(rows, last);
    if page != [] {
      assert page[|page| - 1] in above;
      forall x | x in above && x.id < Passed(Advance(last, page)) ensures x in page {
        var i :| 0 <= i < |above| && above[i] == x;
        assert i < |page| && page[i] == x;
      }
    }
  }

  /** The page moves the cursor on, and only an empty one leaves it. */
  lemma PageMovesOn(rows: seq<Row>, last: Option<nat>, bound: nat)
    requires Sorted(rows) && Passed(last) <= bound && Within(rows, 0, bound)
    ensures Passed(last) <= Passed(Advance(last, Page(rows, last))) <= bound
    ensures Page(rows, last) != [] ==> Passed(last) < Passed(Advance(last, Page(rows, last)))
  {
    var page := Page(rows, last);
    PageFacts(rows, last);
    if page != [] {
      assert page[|page| - 1] in page;
    }
  }

  ghost predicate Within(rows: seq<Row>, lo: nat, hi: nat) {
    forall x :: x in rows ==> lo <= x.id < hi
  }

  // ---- The fair merge ----

  function Interleave(b: seq<nat>, t: seq<nat>): seq<Event> {
    if b == [] then Tasks(t)
    else if t == [] then Backups(b)
    else [Backup(b[0]), Task(t[0])] + Interleave(b[1..], t[1..])
  }

  function Backups(b: seq<nat>): seq<Event> {
    if b == [] then [] else [Backup(b[0])] + Backups(b[1..])
  }

  function Tasks(t: seq<nat>): seq<Event> {
    if t == [] then [] else [Task(t[0])] + Tasks(t[1..])
  }

  lemma {:induction false} BackupsAt(b: seq<nat>, i: nat)
    requires i < |b|
    ensures |Backups(b)| == |b| && Backups(b)[i] == Backup(b[i])
  {
    if |b| > 1 { BackupsAt(b[1..], if i == 0 then 0 else i - 1); }
  }

  lemma {:induction false} TasksAt(t: seq<nat>, i: nat)
    requires i < |t|
    ensures |Tasks(t)| == |t| && Tasks(t)[i] == Task(t[i])
  {
    if |t| > 1 { TasksAt(t[1..], if i == 0 then 0 else i - 1); }
  }

  function Min(a: nat, b: nat): nat { if a <= b then a else b }

  lemma {:induction false} InterleaveLength(b: seq<nat>, t: seq<nat>)
    ensures |Interleave(b, t)| == |b| + |t|
  {
    if b == [] { if t != [] { TasksAt(t, 0); } }
    else if t == [] { BackupsAt(b, 0); }
    else { InterleaveLength(b[1..], t[1..]); }
  }

  /** Where each one goes: the i-th backup follows i backups and the first i tasks, the
      j-th task follows j tasks and the first j + 1 backups. So both orders are kept, and
      until the shorter list is exhausted the counts never differ by more than one. */
  lemma {:induction false} BackupPosition(b: seq<nat>, t: seq<nat>, i: nat)
    requires i < |b|
    ensures i + Min(i, |t|) < |Interleave(b, t)| && Interleave(b, t)[i + Min(i, |t|)] == Backup(b[i])
  {
    InterleaveLength(b, t);
    if t == [] { BackupsAt(b, i); }
    else if i > 0 { BackupPosition(b[1..], t[1..], i - 1); }
  }

  lemma {:induction false} TaskPosition(b: seq<nat>, t: seq<nat>, j: nat)
    requires j < |t|
    ensures j + Min(j + 1, |b|) < |Interleave(b, t)| && Interleave(b, t)[j + Min(j + 1, |b|)] == Task(t[j])
  {
    InterleaveLength(b, t);
    if b == [] { TasksAt(t, j); }
    else if j > 0 { TaskPosition(b[1..], t[1..], j - 1); }
  }

  function CountBackups(events: seq<Event>): nat {
    if events == [] then 0 else (if events[0].Backup? then 1 else 0) + CountBackups(events[1..])
  }

  lemma {:induction false} CountPrefix(b: seq<nat>, t: seq<nat>, n: nat)
    requires n <= |Interleave(b, t)|
    ensures var backups := CountBackups(Interleave(b, t)[..n]);
            var tasks := n - backups;
            && backups <= |b| && tasks <= |t|
            && (tasks < |t| ==> backups <= tasks + 1)
            && (backups < |b| ==> tasks <= backups)
    decreases n
  {
    InterleaveLength(b, t);
    if b == [] { TasksOnly(t, n); }
    else if t == [] { BackupsOnly(b, n); }
    else if n >= 2 {
      var rest := Interleave(b[1..], t[1..]);
      assert Interleave(b, t)[..n][1..][1..] == rest[..n - 2];
      CountPrefix(b[1..], t[1..], n - 2);
    } else if n == 1 {
      assert Interleave(b, t)[..1] == [Backup(b[0])];
    }
  }

  lemma {:induction false} TasksOnly(t: seq<nat>, n: nat)
    requires n <= |Tasks(t)|
    ensures |Tasks(t)| == |t| && CountBackups(Tasks(t)[..n]) == 0
    decreases n, |t|
  {
    if t != [] {
      TasksAt(t, 0);
      if n > 0 {
        assert Tasks(t)[..n][1..] == Tasks(t[1..])[..n - 1];
        TasksOnly(t[1..], n - 1);
      }
    }
  }

  lemma {:induction false} BackupsOnly(b: seq<nat>, n: nat)
    requires n <= |Backups(b)|
    ensures |Backups(b)| == |b| && CountBackups(Backups(b)[..n]) == n
    decreases n, |b|
  {
    if b != [] {
      BackupsAt(b, 0);
      if n > 0 {
        assert Backups(b)[..n][1..] == Backups(b[1..])[..n - 1];
        BackupsOnly(b[1..], n - 1);
      }
    }
  }

  lemma {:induction false} AddBackup(b: seq<nat>, t: seq<nat>, x: nat)
    requires |t| <= |b|
    ensures Interleave(b + [x], t) == Interleave(b, t) + [Backup(x)]
  {
    assert b != [] ==> (b + [x])[1..] == b[1..] + [x];
    if t == [] { BackupsSnoc(b, x); }
    else { AddBackup(b[1..], t[1..], x); }
  }

  lemma {:induction false} AddTask(b: seq<nat>, t: seq<nat>, y: nat)
    requires |b| <= |t| + 1
    ensures Interleave(b, t + [y]) == Interleave(b, t) + [Task(y)]
  {
    assert t != [] ==> (t + [y])[1..] == t[1..] + [y];
    if b == [] { TasksSnoc(t, y); }
    else if t != [] { AddTask(b[1..], t[1..], y); }
    else {
      assert [y][1..] == [] && b[1..] == [] && t + [y] == [y];
      assert Backups(b) == [Backup(b[0])] + Backups(b[1..]);
    }
  }

  lemma {:induction false} BackupsSnoc(b: seq<nat>, x: nat)
    ensures Backups(b + [x]) == Backups(b) + [Backup(x)]
  {
    if b != [] {
      assert (b + [x])[1..] == b[1..] + [x];
      BackupsSnoc(b[1..], x);
    }
  }

  lemma {:induction false} TasksSnoc(t: seq<nat>, y: nat)
    ensures Tasks(t + [y]) == Tasks(t) + [Task(y)]
  {
    if t != [] {
      assert (t + [y])[1..] == t[1..] + [y];
      TasksSnoc(t[1..], y);
    }
  }

  /** The merge of what lies below index `i` in either list. */
  function Upto(b: seq<nat>, t: seq<nat>, i: nat): seq<Event> {
    Interleave(b[..Min(i, |b|)], t[..Min(i, |t|)])
  }

  lemma UptoNext(b: seq<nat>, t: seq<nat>, i: nat)
    ensures Upto(b, t, i + 1) ==
            Upto(b, t, i) + (if i < |b| then [Backup(b[i])] else []) + (if i < |t| then [Task(t[i])] else [])
  {
    var b', t' := b[..Min(i + 1, |b|)], t[..Min(i, |t|)];
    if i < |b| {
      assert b' == b[..i] + [b[i]];
      AddBackup(b[..i], t', b[i]);
    }
    if i < |t| {
      assert t[..i + 1] == t' + [t[i]];
      AddTask(b', t', t[i]);
    }
  }

  // ---- The manager ----

  function Select(rows: seq<Row>, kind: Kind): seq<nat> {
    if rows == [] then []
    else
      var last := rows[|rows| - 1];
      Select(rows[..|rows| - 1], kind) + if last.kind == kind then [last.id] else []
  }

  lemma SelectNext(rows: seq<Row>, i: nat, kind: Kind)
    requires i < |rows|
    ensures Select(rows[..i + 1], kind) ==
            if rows[i].kind == kind then Select(rows[..i], kind) + [rows[i].id] else Select(rows[..i], kind)
  {
    assert rows[..i + 1][..i] == rows[..i];
  }

  /** What one chunk makes happen, in order. */
  function Chunk(b: seq<Row>, t: seq<Row>): seq<Event> {
    Backups(Select(b, Detached)) + Tasks(Select(t, Detached)) + Interleave(Select(b, Due), Select(t, Due))
  }

  /** What all the chunks make happen; the two tables are queried together. */
  function History(b: Queries, t: Queries): seq<Event> {
    if b.Start? || t.Start? then []
    else History(b.before, t.before) + Chunk(Page(b.rows, Cursor(b.before)), Page(t.rows, Cursor(t.before)))
  }

  /** The table as the first `k` queries find it. */
  ghost function First(table: nat -> seq<Row>, k: nat): (q: Queries)
    ensures q.Query? <==> k > 0
  {
    if k == 0 then Start else Query(First(table, k - 1), table(k - 1))
  }

  ghost predicate SortedAt(table: nat -> seq<Row>, k: nat) {
    Sorted(table(k))
  }

  /** Every query returns its rows by id. */
  ghost predicate InIdOrder(table: nat -> seq<Row>) {
    forall k: nat :: SortedAt(table, k)
  }

  /** The next query of either table would come back empty. */
  ghost predicate Exhausted(b: Queries, t: Queries, backups: seq<Row>, tasks: seq<Row>) {
    Page(backups, Cursor(b)) == [] && Page(tasks, Cursor(t)) == []
  }

  lemma JoinThree(start: seq<Event>, x: seq<Event>, y: seq<Event>, z: seq<Event>)
    ensures start + x + y + z == start + (x + y + z)
  {
  }

  lemma HistoryGrows(start: seq<Event>, h: seq<Event>, chunk: seq<Event>)
    ensures start + h + chunk == start + (h + chunk)
    ensures chunk == [] ==> start + h + chunk == start + h
  {
  }

  lemma EmptyChunk()
    ensures Chunk([], []) == []
  {
  }

  lemma HistoryNext(b: Queries, t: Queries, backupRows: seq<Row>, taskRows: seq<Row>,
                    backups: seq<Row>, tasks: seq<Row>, start: seq<Event>)
    requires backups == Page(backupRows, Cursor(b)) && tasks == Page(taskRows, Cursor(t))
    ensures start + History(b, t) + Chunk(backups, tasks) == start + History(Query(b, backupRows), Query(t, taskRows))
    ensures backups == [] && tasks == [] ==> start + History(b, t) + Chunk(backups, tasks) == start + History(b, t)
  {
    HistoryGrows(start, History(b, t), Chunk(backups, tasks));
    EmptyChunk();
  }

  /** The k-th pair of queries, if the loop gets there, comes back empty. */
  ghost predicate ExhaustedAt(backups: nat -> seq<Row>, tasks: nat -> seq<Row>, k: nat) {
    Exhausted(First(backups, k), First(tasks, k), backups(k), tasks(k))
  }

  /** No earlier pair of queries was empty. */
  ghost predicate NoneBefore(backups: nat -> seq<Row>, tasks: nat -> seq<Row>, k: nat) {
    k > 0 ==> !ExhaustedAt(backups, tasks, k - 1) && NoneBefore(backups, tasks, k - 1)
  }

  lemma {:induction false} NoneBeforeMeans(backups: nat -> seq<Row>, tasks: nat -> seq<Row>, k: nat, j: nat)
    requires NoneBefore(backups, tasks, k) && j < k
    ensures !ExhaustedAt(backups, tasks, j)
    decreases k
  {
    if j < k - 1 { NoneBeforeMeans(backups, tasks, k - 1, j); }
  }

  lemma AnotherRound(backups: nat -> seq<Row>, tasks: nat -> seq<Row>, k: nat, b: Queries, t: Queries, more: bool, end: nat)
    requires b == First(backups, k) && t == First(tasks, k) && NoneBefore(backups, tasks, k)
    requires k <= end && ExhaustedAt(backups, tasks, end)
    requires more <==> !Exhausted(b, t, backups(k), tasks(k))
    ensures more <==> !ExhaustedAt(backups, tasks, k)
    ensures more ==> k < end && NoneBefore(backups, tasks, k + 1)
    ensures First(backups, k + 1) == Query(b, backups(k)) && First(tasks, k + 1) == Query(t, tasks(k))
  {
  }

  lemma {:induction false} FirstOk(backups: nat -> seq<Row>, tasks: nat -> seq<Row>, k: nat)
    requires InIdOrder(backups) && InIdOrder(tasks)
    ensures Ordered(First(backups, k)) && Ordered(First(tasks, k)) && SameLength(First(backups, k), First(tasks, k))
    decreases k
  {
    if k > 0 {
      assert SortedAt(backups, k - 1) && SortedAt(tasks, k - 1);
      FirstOk(backups, tasks, k - 1);
    }
  }

  ghost predicate SameLength(b: Queries, t: Queries) {
    (b.Start? && t.Start?) || (b.Query? && t.Query? && SameLength(b.before, t.before))
  }

  /** How far both cursors have come. */
  function Progress(b: Queries, t: Queries): nat {
    Passed(Cursor(b)) + Passed(Cursor(t))
  }

  ghost predicate BoundedAt(table: nat -> seq<Row>, k: nat, bound: nat) {
    Within(table(k), 0, bound)
  }

  /** No id at or above the bound ever turns up. */
  ghost predicate Bounded(table: nat -> seq<Row>, bound: nat) {
    forall k: nat :: BoundedAt(table, k, bound)
  }

  /** Every round but an empty one makes progress, and progress is bounded. */
  lemma RoundMovesOn(b: Queries, t: Queries, backups: nat -> seq<Row>, tasks: nat -> seq<Row>, k: nat, bound: nat)
    requires InIdOrder(backups) && InIdOrder(tasks) && Bounded(backups, bound) && Bounded(tasks, bound)
    requires Passed(Cursor(b)) <= bound && Passed(Cursor(t)) <= bound
    ensures Passed(Cursor(Query(b, backups(k)))) <= bound && Passed(Cursor(Query(t, tasks(k)))) <= bound
    ensures !Exhausted(b, t, backups(k), tasks(k)) ==>
              Progress(b, t) < Progress(Query(b, backups(k)), Query(t, tasks(k)))
  {
    assert SortedAt(backups, k) && SortedAt(tasks, k) && BoundedAt(backups, k, bound) && BoundedAt(tasks, k, bound);
    PageMovesOn(backups(k), Cursor(b), bound);
    PageMovesOn(tasks(k), Cursor(t), bound);
  }

  /** So the walk ends whenever the ids are bounded, however the tables change. */
  lemma {:induction false} BoundedWalkEnds(backups: nat -> seq<Row>, tasks: nat -> seq<Row>, bound: nat, k: nat)
    returns (end: nat)
    requires InIdOrder(backups) && InIdOrder(tasks) && Bounded(backups, bound) && Bounded(tasks, bound)
    requires Passed(Cursor(First(backups, k))) <= bound && Passed(Cursor(First(tasks, k))) <= bound
    ensures end >= k && ExhaustedAt(backups, tasks, end)
    decreases 2 * bound - Progress(First(backups, k), First(tasks, k))
  {
    if ExhaustedAt(backups, tasks, k) {
      end := k;
    } else {
      RoundMovesOn(First(backups, k), First(tasks, k), backups, tasks, k, bound);
      assert First(backups, k + 1) == Query(First(backups, k), backups(k));
      assert First(tasks, k + 1) == Query(First(tasks, k), tasks(k));
      end := BoundedWalkEnds(backups, tasks, bound, k + 1);
    }
  }

  class Manager {
    var processed: seq<Event>

    constructor ()
      ensures processed == []
    {
      processed := [];
    }

    method DueBackups(rows: seq<Row>) returns (due: seq<nat>)
      modifies this
      ensures due == Select(rows, Due)
      ensures processed == old(processed) + Backups(Select(rows, Detached))
    {
      due := [];
      for i := 0 to |rows|
        invariant due == Select(rows[..i], Due)
        invariant processed == old(processed) + Backups(Select(rows[..i], Detached))
      {
        SelectNext(rows, i, Due);
        SelectNext(rows, i, Detached);
        BackupsSnoc(Select(rows[..i], Detached), rows[i].id);
        if rows[i].kind == Detached { processed := processed + [Backup(rows[i].id)]; }
        else if rows[i].kind == Due { due := due + [rows[i].id]; }
      }
      assert rows[..|rows|] == rows;
    }

    method DueTasks(rows: seq<Row>) returns (due: seq<nat>)
      modifies this
      ensures due == Select(rows, Due)
      ensures processed == old(processed) + Tasks(Select(rows, Detached))
    {
      due := [];
      for i := 0 to |rows|
        invariant due == Select(rows[..i], Due)
        invariant processed == old(processed) + Tasks(Select(rows[..i], Detached))
      {
        SelectNext(rows, i, Due);
        SelectNext(rows, i, Detached);
        TasksSnoc(Select(rows[..i], Detached), rows[i].id);
        if rows[i].kind == Detached { processed := processed + [Task(rows[i].id)]; }
        else if rows[i].kind == Due { due := due + [rows[i].id]; }
      }
      assert rows[..|rows|] == rows;
    }

    method ProcessInterleaved(b: seq<nat>, t: seq<nat>)
      modifies this
      ensures processed == old(processed) + Interleave(b, t)
    {
      var maxCount := if |b| >= |t| then |b| else |t|;
      for i := 0 to maxCount
        invariant processed == old(processed) + Upto(b, t, i)
      {
        UptoNext(b, t, i);
        if i < |b| { processed := processed + [Backup(b[i])]; }
        if i < |t| { processed := processed + [Task(t[i])]; }
      }
      assert b[..|b|] == b && t[..|t|] == t;
    }

    method ProcessChunk(b: seq<Row>, t: seq<Row>)
      modifies this
      ensures processed == old(processed) + Chunk(b, t)
    {
      var dueBackups := DueBackups(b);
      var dueTasks := DueTasks(t);
      ProcessInterleaved(dueBackups, dueTasks);
      JoinThree(old(processed), Backups(Select(b, Detached)), Tasks(Select(t, Detached)), Interleave(dueBackups, dueTasks));
    }

    /** One pass of the loop: the two queries, the cursors, the chunk. */
    method Round(backupRows: seq<Row>, taskRows: seq<Row>, lastBackupId: Option<nat>, lastTaskId: Option<nat>,
                 ghost b: Queries, ghost t: Queries, ghost start: seq<Event>)
      returns (nextBackupId: Option<nat>, nextTaskId: Option<nat>, more: bool)
      requires lastBackupId == Cursor(b) && lastTaskId == Cursor(t) && b.Query? == t.Query?
      requires processed == start + History(b, t)
      modifies this
      ensures nextBackupId == Cursor(Query(b, backupRows)) && nextTaskId == Cursor(Query(t, taskRows))
      ensures processed == start + History(Query(b, backupRows), Query(t, taskRows))
      ensures more <==> !Exhausted(b, t, backupRows, taskRows)
      ensures !more ==> processed == old(processed) && nextBackupId == lastBackupId && nextTaskId == lastTaskId
    {
      var backups, tasks := Page(backupRows, lastBackupId), Page(taskRows, lastTaskId);
      nextBackupId, nextTaskId := lastBackupId, lastTaskId;
      if backups != [] { nextBackupId := Some(backups[|backups| - 1].id); }
      if tasks != [] { nextTaskId := Some(tasks[|tasks| - 1].id); }
      HistoryNext(b, t, backupRows, taskRows, backups, tasks, start);
      ProcessChunk(backups, tasks);
      more := backups != [] || tasks != [];
    }

    /** The whole walk, over tables that change between queries in any way. It ends at
        the first pair of queries that comes back empty, and `end` is any such pair:
        without one the loop would go on for ever. */
    method ProcessAll(backups: nat -> seq<Row>, tasks: nat -> seq<Row>, ghost end: nat)
      returns (rounds: nat, ghost b: Queries, ghost t: Queries)
      requires InIdOrder(backups) && InIdOrder(tasks) && ExhaustedAt(backups, tasks, end)
      modifies this
      ensures b == First(backups, rounds) && t == First(tasks, rounds)
      ensures Ordered(b) && Ordered(t) && SameLength(b, t)
      ensures processed == old(processed) + History(b, t)
      ensures ExhaustedAt(backups, tasks, rounds) && NoneBefore(backups, tasks, rounds)
    {
      var lastBackupId: Option<nat>, lastTaskId: Option<nat> := None, None;
      var more := true;
      rounds, b, t := 0, Start, Start;
      while more
        invariant b == First(backups, rounds) && t == First(tasks, rounds)
        invariant lastBackupId == Cursor(b) && lastTaskId == Cursor(t)
        invariant processed == old(processed) + History(b, t)
        invariant !more ==> ExhaustedAt(backups, tasks, rounds)
        invariant rounds <= end && NoneBefore(backups, tasks, rounds)
        decreases end - rounds, more
      {
        var backupRows, taskRows := backups(rounds), tasks(rounds);
        lastBackupId, lastTaskId, more :=
          Round(backupRows, taskRows, lastBackupId, lastTaskId, b, t, old(processed));
        AnotherRound(backups, tasks, rounds, b, t, more, end);
        if more {
          rounds, b, t := rounds + 1, Query(b, backupRows), Query(t, taskRows);
        }
      }
      FirstOk(backups, tasks, rounds);
    }
  }

  // ---- The whole walk ----

  /** The row was enabled at the query whose page moved the cursor past its id. */
  ghost predicate SeenBy(q: Queries, x: Row) {
    q.Query? &&
    (SeenBy(q.before, x) || (x in q.rows && Passed(Cursor(q.before)) <= x.id < Passed(Cursor(q))))
  }

  lemma SortedAppend(a: seq<Row>, b: seq<Row>, mid: nat, hi: nat)
    requires Sorted(a) && Sorted(b) && Within(a, 0, mid) && Within(b, mid, hi) && mid <= hi
    ensures Sorted(a + b) && Within(a + b, 0, hi)
  {
    assert forall i :: 0 <= i < |a| ==> a[i] in a;
    assert forall i :: 0 <= i < |b| ==> b[i] in b;
  }

  /** Ids are examined in increasing order, so none twice. */
  lemma {:induction false} ExaminedInOrder(q: Queries)
    requires Ordered(q)
    ensures Sorted(Examined(q)) && Within(Examined(q), 0, Passed(Cursor(q)))
  {
    if q.Query? {
      ExaminedInOrder(q.before);
      PageFacts(q.rows, Cursor(q.before));
      var page := Page(q.rows, Cursor(q.before));
      assert Within(page, Passed(Cursor(q.before)), Passed(Cursor(q)));
      SortedAppend(Examined(q.before), page, Passed(Cursor(q.before)), Passed(Cursor(q)));
    }
  }

  /** A row is examined exactly when it was there as the cursor passed its id. */
  lemma {:induction false} ExaminedIffSeen(q: Queries, x: Row)
    requires Ordered(q)
    ensures x in Examined(q) <==> SeenBy(q, x)
  {
    if q.Query? {
      ExaminedIffSeen(q.before, x);
      PageFacts(q.rows, Cursor(q.before));
    }
  }

  ghost predicate Has(rows: seq<Row>, id: nat) {
    exists x :: x in rows && x.id == id
  }

  ghost predicate Stays(q: Queries, id: nat) {
    q.Query? ==> Has(q.rows, id) && Stays(q.before, id)
  }

  lemma {:induction false} PassedMeansExamined(q: Queries, id: nat)
    requires Ordered(q) && Stays(q, id) && id < Passed(Cursor(q))
    ensures Has(Examined(q), id)
  {
    if q.Query? {
      if id < Passed(Cursor(q.before)) {
        PassedMeansExamined(q.before, id);
        var x :| x in Examined(q.before) && x.id == id;
        assert x in Examined(q);
      } else {
        var x :| x in q.rows && x.id == id;
        assert SeenBy(q, x);
        ExaminedIffSeen(q, x);
      }
    }
  }

  /** A row that stays enabled until the walk ends is examined, whatever else comes and goes. */
  lemma StaysMeansExamined(q: Queries, rows: seq<Row>, id: nat)
    requires Ordered(q) && Sorted(rows) && Page(rows, Cursor(q)) == []
    requires Stays(q, id) && Has(rows, id)
    ensures Has(Examined(q), id)
  {
    PageFacts(rows, Cursor(q));
    PassedMeansExamined(q, id);
  }

  /** How often `x` occurs. */
  function Times<T(==)>(s: seq<T>, x: T): nat {
    if s == [] then 0 else (if s[0] == x then 1 else 0) + Times(s[1..], x)
  }

  /** How many rows with this id are processed. */
  function Hits(rows: seq<Row>, id: nat): nat {
    Times(Select(rows, Detached), id) + Times(Select(rows, Due), id)
  }

  lemma {:induction false} AppendCount<T>(a: seq<T>, b: seq<T>, x: T)
    ensures Times(a + b, x) == Times(a, x) + Times(b, x)
  {
    if a == [] {
      assert a + b == b;
    } else {
      assert (a + b)[1..] == a[1..] + b;
      AppendCount(a[1..], b, x);
    }
  }

  lemma {:induction false} BackupCounts(b: seq<nat>, id: nat)
    ensures Times(Backups(b), Backup(id)) == Times(b, id) && Times(Backups(b), Task(id)) == 0
  {
    if b != [] {
      assert b == [b[0]] + b[1..];
      BackupCounts(b[1..], id);
    }
  }

  lemma {:induction false} TaskCounts(t: seq<nat>, id: nat)
    ensures Times(Tasks(t), Task(id)) == Times(t, id) && Times(Tasks(t), Backup(id)) == 0
  {
    if t != [] {
      assert t == [t[0]] + t[1..];
      TaskCounts(t[1..], id);
    }
  }

  lemma PairCount(x: nat, y: nat, rest: seq<Event>, e: Event)
    ensures Times([Backup(x), Task(y)] + rest, e) ==
            (if e == Backup(x) || e == Task(y) then 1 else 0) + Times(rest, e)
  {
    assert ([Backup(x), Task(y)] + rest)[1..] == [Task(y)] + rest;
    assert ([Task(y)] + rest)[1..] == rest;
  }

  lemma {:induction false} InterleaveCounts(b: seq<nat>, t: seq<nat>, id: nat)
    ensures Times(Interleave(b, t), Backup(id)) == Times(b, id)
    ensures Times(Interleave(b, t), Task(id)) == Times(t, id)
  {
    if b == [] {
      TaskCounts(t, id);
    } else if t == [] {
      BackupCounts(b, id);
    } else {
      assert b == [b[0]] + b[1..] && t == [t[0]] + t[1..];
      InterleaveCounts(b[1..], t[1..], id);
      PairCount(b[0], t[0], Interleave(b[1..], t[1..]), Backup(id));
      PairCount(b[0], t[0], Interleave(b[1..], t[1..]), Task(id));
    }
  }

  lemma ThreeParts(a: seq<Event>, b: seq<Event>, c: seq<Event>, e: Event)
    ensures Times(a + b + c, e) == Times(a, e) + Times(b, e) + Times(c, e)
  {
    AppendCount(a + b, c, e);
    AppendCount(a, b, e);
  }

  lemma ChunkCounts(b: seq<Row>, t: seq<Row>, id: nat)
    ensures Times(Chunk(b, t), Backup(id)) == Hits(b, id)
    ensures Times(Chunk(b, t), Task(id)) == Hits(t, id)
  {
    var goneB, goneT := Select(b, Detached), Select(t, Detached);
    var dueB, dueT := Select(b, Due), Select(t, Due);
    BackupCounts(goneB, id);
    TaskCounts(goneT, id);
    InterleaveCounts(dueB, dueT, id);
    ThreeParts(Backups(goneB), Tasks(goneT), Interleave(dueB, dueT), Backup(id));
    ThreeParts(Backups(goneB), Tasks(goneT), Interleave(dueB, dueT), Task(id));
  }

  lemma {:induction false} SelectAppend(a: seq<Row>, b: seq<Row>, kind: Kind)
    ensures Select(a + b, kind) == Select(a, kind) + Select(b, kind)
  {
    if b == [] {
      assert a + b == a;
    } else {
      var n := |b| - 1;
      assert (a + b)[..|a + b| - 1] == a + b[..n];
      SelectAppend(a, b[..n], kind);
    }
  }

  lemma HitsAppend(a: seq<Row>, b: seq<Row>, id: nat)
    ensures Hits(a + b, id) == Hits(a, id) + Hits(b, id)
  {
    SelectAppend(a, b, Detached);
    SelectAppend(a, b, Due);
    AppendCount(Select(a, Detached), Select(b, Detached), id);
    AppendCount(Select(a, Due), Select(b, Due), id);
  }

  lemma HitsOne(x: Row, id: nat)
    ensures Hits([x], id) == if x == Row(id, Detached) || x == Row(id, Due) then 1 else 0
  {
    assert [x][..0] == [] && [x.id][1..] == [];
    assert Select([x], Detached) == if x.kind == Detached then [x.id] else [];
    assert Select([x], Due) == if x.kind == Due then [x.id] else [];
  }

  lemma {:induction false} HitsSorted(rows: seq<Row>, id: nat)
    requires Sorted(rows)
    ensures Hits(rows, id) == if Row(id, Detached) in rows || Row(id, Due) in rows then 1 else 0
  {
    if rows != [] {
      var n := |rows| - 1;
      var front, last := rows[..n], rows[n];
      HitsSorted(front, id);
      assert rows == front + [last];
      HitsAppend(front, [last], id);
      HitsOne(last, id);
      assert forall x :: x in front ==> x.id < last.id;
    }
  }

  lemma NextCounts(before: seq<Event>, chunk: seq<Event>, e: Event, seen: seq<Row>, page: seq<Row>, id: nat)
    requires Times(before, e) == Hits(seen, id) && Times(chunk, e) == Hits(page, id)
    ensures Times(before + chunk, e) == Hits(seen + page, id)
  {
    AppendCount(before, chunk, e);
    HitsAppend(seen, page, id);
  }

  lemma {:induction false} HistoryCounts(b: Queries, t: Queries, id: nat)
    requires SameLength(b, t)
    ensures Times(History(b, t), Backup(id)) == Hits(Examined(b), id)
    ensures Times(History(b, t), Task(id)) == Hits(Examined(t), id)
  {
    if b.Query? {
      var backups, tasks := Page(b.rows, Cursor(b.before)), Page(t.rows, Cursor(t.before));
      var before, chunk := History(b.before, t.before), Chunk(backups, tasks);
      HistoryCounts(b.before, t.before, id);
      ChunkCounts(backups, tasks, id);
      NextCounts(before, chunk, Backup(id), Examined(b.before), backups, id);
      NextCounts(before, chunk, Task(id), Examined(t.before), tasks, id);
    }
  }

  /** Over the whole walk each schedule is processed once if the cursor met it due or
      detached, and otherwise not at all. */
  lemma ProcessedExactlyOnce(b: Queries, t: Queries, id: nat)
    requires SameLength(b, t) && Ordered(b) && Ordered(t)
    ensures Times(History(b, t), Backup(id)) ==
            if SeenBy(b, Row(id, Detached)) || SeenBy(b, Row(id, Due)) then 1 else 0
    ensures Times(History(b, t), Task(id)) ==
            if SeenBy(t, Row(id, Detached)) || SeenBy(t, Row(id, Due)) then 1 else 0
  {
    HistoryCounts(b, t, id);
    HitsSeen(b, id);
    HitsSeen(t, id);
  }

  lemma HitsSeen(q: Queries, id: nat)
    requires Ordered(q)
    ensures Hits(Examined(q), id) == if SeenBy(q, Row(id, Detached)) || SeenBy(q, Row(id, Due)) then 1 else 0
  {
    ExaminedInOrder(q);
    HitsSorted(Examined(q), id);
    ExaminedIffSeen(q, Row(id, Detached));
    ExaminedIffSeen(q, Row(id, Due));
  }

  // ---- The order within a chunk ----

  /** At most a hundred rows, and fewer only if there are no more. */
  lemma PageSize(rows: seq<Row>, last: Option<nat>)
    ensures |Page(rows, last)| == Min(100, |Above(rows, last)|)
  {
  }

  lemma {:induction false} BackupsLength(b: seq<nat>, t: seq<nat>)
    ensures |Backups(b)| == |b| && |Tasks(t)| == |t|
  {
    if b != [] { BackupsAt(b, 0); }
    if t != [] { TasksAt(t, 0); }
  }

  /** First the detached backups, then the detached tasks, then the due ones in turn. */
  lemma ChunkDetached(b: seq<Row>, t: seq<Row>, i: nat)
    ensures i < |Select(b, Detached)| ==> i < |Chunk(b, t)| && Chunk(b, t)[i] == Backup(Select(b, Detached)[i])
    ensures i < |Select(t, Detached)| ==>
              var at := |Select(b, Detached)| + i; at < |Chunk(b, t)| && Chunk(b, t)[at] == Task(Select(t, Detached)[i])
  {
    BackupsLength(Select(b, Detached), Select(t, Detached));
    if i < |Select(b, Detached)| { BackupsAt(Select(b, Detached), i); }
    if i < |Select(t, Detached)| { TasksAt(Select(t, Detached), i); }
  }

  lemma ChunkInTurn(b: seq<Row>, t: seq<Row>, i: nat)
    ensures var before := |Select(b, Detached)| + |Select(t, Detached)|;
            var dueB, dueT := Select(b, Due), Select(t, Due);
            && |Chunk(b, t)| == before + |dueB| + |dueT|
            && (i < |dueB| ==> Chunk(b, t)[before + i + Min(i, |dueT|)] == Backup(dueB[i]))
            && (i < |dueT| ==> Chunk(b, t)[before + i + Min(i + 1, |dueB|)] == Task(dueT[i]))
  {
    var dueB, dueT := Select(b, Due), Select(t, Due);
    BackupsLength(Select(b, Detached), Select(t, Detached));
    InterleaveLength(dueB, dueT);
    if i < |dueB| { BackupPosition(dueB, dueT, i); }
    if i < |dueT| { TaskPosition(dueB, dueT, i); }
  }

  lemma {:induction false} InSelect(rows: seq<Row>, kind: Kind, id: nat)
    ensures id in Select(rows, kind) <==> Row(id, kind) in rows
  {
    if rows != [] {
      var front, last := rows[..|rows| - 1], rows[|rows| - 1];
      InSelect(front, kind, id);
      assert rows == front + [last];
    }
  }

  ghost predicate Rising(ids: seq<nat>) {
    forall i, j :: 0 <= i < j < |ids| ==> ids[i] < ids[j]
  }

  lemma RisingNext(ids: seq<nat>, id: nat)
    requires Rising(ids) && forall x :: x in ids ==> x < id
    ensures Rising(ids + [id])
  {
    assert forall i :: 0 <= i < |ids| ==> ids[i] in ids;
  }

  /** The selected ids are those of the rows of the kind (InSelect), in the order of the rows. */
  lemma {:induction false} SelectInOrder(rows: seq<Row>, kind: Kind)
    requires Sorted(rows)
    ensures Rising(Select(rows, kind))
  {
    if rows != [] {
      var front, last := rows[..|rows| - 1], rows[|rows| - 1];
      SelectInOrder(front, kind);
      assert rows == front + [last];
      forall x | x in Select(front, kind) ensures x < last.id {
        InSelect(front, kind, x);
        LastIsHighest(rows, Row(x, kind));
      }
      RisingNext(Select(front, kind), last.id);
    }
  }

  lemma LastIsHighest(rows: seq<Row>, x: Row)
    requires rows != [] && Sorted(rows) && x in rows[..|rows| - 1]
    ensures x.id < rows[|rows| - 1].id
  {
  }

  // ---- How many rounds ----

  /** Rows are only disabled or deleted, never added. */
  ghost predicate Shrinking(q: Queries) {
    q.Query? && q.before.Query? ==> Subset(q.rows, q.before.rows) && Shrinking(q.before)
  }

  ghost predicate Subset(a: seq<Row>, b: seq<Row>) {
    forall x :: x in a ==> Has(b, x.id)
  }

  lemma FindId(rows: seq<Row>, id: nat) returns (i: nat)
    requires Has(rows, id)
    ensures i < |rows| && rows[i].id == id
  {
    var x :| x in rows && x.id == id;
    i :| i < |rows| && rows[i] == x;
  }

  lemma RestIsSubset(a: seq<Row>, b: seq<Row>, i: nat)
    requires a != [] && i < |b| && Sorted(a) && Sorted(b) && Subset(a, b) && b[i].id == a[0].id
    ensures Subset(a[1..], b[i + 1..])
  {
    forall x | x in a[1..] ensures Has(b[i + 1..], x.id) {
      assert x in a && x.id > a[0].id;
      var j := FindId(b, x.id);
      assert j > i;
      assert b[i + 1..][j - i - 1] == b[j];
    }
  }

  lemma {:induction false} SubsetIsShorter(a: seq<Row>, b: seq<Row>)
    requires Sorted(a) && Sorted(b) && Subset(a, b)
    ensures |a| <= |b|
  {
    if a != [] {
      assert a[0] in a;
      var i := FindId(b, a[0].id);
      RestIsSubset(a, b, i);
      SubsetIsShorter(a[1..], b[i + 1..]);
    }
  }

  /** The rows that the last of these queries had to choose from. */
  function Left(q: Queries): nat
    requires q.Query?
  {
    |Above(q.rows, Cursor(q.before))|
  }

  lemma LeftAtFirst(rows: seq<Row>)
    requires Sorted(rows)
    ensures |Above(rows, None)| <= |rows|
  {
    AboveFacts(rows, None);
    forall x | x in Above(rows, None) ensures Has(rows, x.id) {
      assert x in rows;
    }
    SubsetIsShorter(Above(rows, None), rows);
  }

  lemma {:induction false} BeyondPage(rows: seq<Row>, last: Option<nat>, y: Row)
    requires Sorted(rows) && y in rows && y.id >= Passed(Advance(last, Page(rows, last)))
    ensures y in Above(rows, last)[|Page(rows, last)|..]
  {
    var above, page := Above(rows, last), Page(rows, last);
    AboveFacts(rows, last);
    PageFacts(rows, last);
    assert y in above && y !in page;
    assert above == page + above[|page|..];
  }

  lemma LeftShrinks(rows: seq<Row>, last: Option<nat>, after: seq<Row>)
    requires Sorted(rows) && Sorted(after) && Subset(after, rows)
    ensures var left, next := |Above(rows, last)|, Advance(last, Page(rows, last));
            |Above(after, next)| <= if left <= CHUNK_SIZE then 0 else left - CHUNK_SIZE
  {
    var page := Page(rows, last);
    var next := Advance(last, page);
    var above, rest := Above(rows, last)[|page|..], Above(after, next);
    AboveFacts(rows, last);
    AboveFacts(after, next);
    forall x | x in rest ensures Has(above, x.id) {
      var y :| y in rows && y.id == x.id;
      BeyondPage(rows, last, y);
    }
    SubsetIsShorter(rest, above);
  }

  function Length(q: Queries): nat {
    if q.Start? then 0 else 1 + Length(q.before)
  }

  function Oldest(q: Queries): seq<Row>
    requires q.Query?
  {
    if q.before.Start? then q.rows else Oldest(q.before)
  }

  lemma {:induction false} LeftAfter(q: Queries)
    requires q.Query? && Ordered(q) && Shrinking(q)
    ensures Left(q) > 0 ==> Left(q) + 100 * (Length(q) - 1) <= |Oldest(q)|
  {
    if q.before.Start? {
      LeftAtFirst(q.rows);
    } else {
      LeftAfter(q.before);
      LeftShrinks(q.before.rows, Cursor(q.before.before), q.rows);
    }
  }

  /** When rows only disappear, every round but the last drains a full chunk of the longer table. */
  lemma RoundsAreFew(b: Queries, t: Queries)
    requires b.Query? && t.Query? && SameLength(b, t)
    requires Ordered(b) && Ordered(t) && Shrinking(b) && Shrinking(t)
    requires !Exhausted(b.before, t.before, b.rows, t.rows)
    ensures 100 * (Length(b) - 1) < |Oldest(b)| || 100 * (Length(t) - 1) < |Oldest(t)|
  {
    LeftAfter(b);
    LeftAfter(t);
  }
}
