/** Inserting declarations after the stage lines of a file, for any line grammar.

    Two algorithms: one walks the stages forwards with a running offset and leaves
    out what a stage declares already, one splices backwards. */
module StageSplicing {
  import opened Text

  /** How lines are read and written: which line starts a stage, which one is a
      declaration, the key it declares, the name a key is compared under, and the
      line that declares a key. */
  datatype Grammar<!L> = Grammar(
    stage: L -> bool,
    arg: L -> bool,
    declares: L -> Option<string>,
    name: string -> string,
    line: string -> L)

  // ----- what the injections mean -----

  /** A stage's leading block is made of ARG lines and ends before the next stage. */
  predicate InBlock<L(!new)>(g: Grammar<L>, line: L) {
    !g.stage(line) && g.arg(line)
  }

  function KeyOf<L>(g: Grammar<L>, line: L): seq<string> {
    match g.declares(line) case None => [] case Some(k) => [k]
  }

  /** The keys declared by the unbroken block of ARG lines that starts lines. */
  function LeadingKeys<L(!new)>(g: Grammar<L>, lines: seq<L>): seq<string> {
    if lines == [] || !InBlock(g, lines[0]) then []
    else KeyOf(g, lines[0]) + LeadingKeys(g, lines[1..])
  }

  /** The ARG lines for the keys that are not declared, in key order. */
  function Missing<L(!new)>(g: Grammar<L>, keys: seq<string>, declared: seq<string>): seq<L> {
    if keys == [] then []
    else (if g.name(keys[0]) in declared then [] else [g.line(keys[0])]) + Missing(g, keys[1..], declared)
  }

  /** The per-stage meaning: each FROM is followed by the ARGs its stage lacks. */
  function Inject<L(!new)>(g: Grammar<L>, lines: seq<L>, keys: seq<string>): seq<L> {
    if lines == [] then []
    else if g.stage(lines[0]) then
      [lines[0]] + Missing(g, keys, LeadingKeys(g, lines[1..])) + Inject(g, lines[1..], keys)
    else [lines[0]] + Inject(g, lines[1..], keys)
  }

  /** Each line that passes the test is followed by all of args. */
  function AfterEach<L(!new)>(test: L -> bool, lines: seq<L>, args: seq<L>): seq<L> {
    if lines == [] then []
    else [lines[0]] + (if test(lines[0]) then args else []) + AfterEach(test, lines[1..], args)
  }

  /** The n-th line declares the key, and it and all lines before it are ARG lines of the
      same stage. */
  ghost predicate DeclaredIn<L(!new)>(g: Grammar<L>, lines: seq<L>, key: string, n: nat) {
    n < |lines| && g.declares(lines[n]) == Some(key) &&
    forall i :: 0 <= i <= n ==> !g.stage(lines[i]) && g.arg(lines[i])
  }

  lemma DeclaredInTail<L(!new)>(g: Grammar<L>, lines: seq<L>, key: string, n: nat)
    requires lines != [] && !g.stage(lines[0]) && g.arg(lines[0])
    ensures DeclaredIn(g, lines, key, n + 1) <==> DeclaredIn(g, lines[1..], key, n)
  {
    if DeclaredIn(g, lines[1..], key, n) {
      forall i | 0 <= i <= n + 1 ensures !g.stage(lines[i]) && g.arg(lines[i]) {
        if i > 0 { assert lines[i] == lines[1..][i - 1]; }
      }
    }
    if DeclaredIn(g, lines, key, n + 1) {
      forall i | 0 <= i <= n ensures !g.stage(lines[1..][i]) && g.arg(lines[1..][i]) {
        assert lines[1..][i] == lines[i + 1];
      }
    }
  }

  /** The keys found are those of the unbroken block of ARG lines, and no others. */
  lemma {:induction false} LeadingKeysIff<L(!new)>(g: Grammar<L>, lines: seq<L>, key: string)
    ensures key in LeadingKeys(g, lines) <==> exists n: nat :: DeclaredIn(g, lines, key, n)
  {
    if lines != [] && !g.stage(lines[0]) && g.arg(lines[0]) {
      LeadingKeysIff(g, lines[1..], key);
      if n: nat :| DeclaredIn(g, lines[1..], key, n) { DeclaredInTail(g, lines, key, n); }
      if g.declares(lines[0]) == Some(key) { assert DeclaredIn(g, lines, key, 0); }
      if n: nat :| DeclaredIn(g, lines, key, n) {
        if n > 0 { DeclaredInTail(g, lines, key, n - 1); }
      }
    }
  }

  /** The line for one key, unless it is declared. */
  function LineFor<L(!new)>(g: Grammar<L>, key: string, declared: seq<string>): seq<L> {
    if g.name(key) in declared then [] else [g.line(key)]
  }

  lemma MissingCons<L(!new)>(g: Grammar<L>, key: string, rest: seq<string>, declared: seq<string>)
    ensures Missing(g, [key] + rest, declared) == LineFor(g, key, declared) + Missing(g, rest, declared)
  {
    assert ([key] + rest)[1..] == rest;
  }

  /** The lines that a stage lacks are found key by key, in the order of the keys. */
  lemma {:induction false} MissingKeyByKey<L(!new)>(g: Grammar<L>, keys: seq<string>, key: string, declared: seq<string>)
    ensures Missing(g, keys + [key], declared) == Missing(g, keys, declared) + LineFor(g, key, declared)
  {
    if keys == [] {
      assert keys + [key] == [key] + keys;
      MissingCons(g, key, keys, declared);
    } else {
      var first, rest := keys[0], keys[1..];
      MissingKeyByKey(g, rest, key, declared);
      MissingCons(g, first, rest + [key], declared);
      MissingCons(g, first, rest, declared);
      Associative(LineFor(g, first, declared), Missing(g, rest, declared), LineFor(g, key, declared));
      Associative([first], rest, [key]);
      assert keys == [first] + rest;
    }
  }

  // ----- positions of the stages -----

  /** ps lists, in order, exactly the positions in lines that pass the test. */
  ghost predicate Positions<L(!new)>(test: L -> bool, lines: seq<L>, ps: seq<nat>) {
    && (forall i :: 0 <= i < |ps| ==> ps[i] < |lines| && test(lines[ps[i]]))
    && (forall i, j :: 0 <= i < j < |ps| ==> ps[i] < ps[j])
    && (forall n :: 0 <= n < |lines| && test(lines[n]) ==> n in ps)
  }

  /** Position of stage i, or the end of the file after the last stage. */
  function StageStart<L(!new)>(lines: seq<L>, ps: seq<nat>, i: nat): nat {
    if i < |ps| then ps[i] else |lines|
  }

  method FindLines<L(!new)>(test: L -> bool, lines: seq<L>) returns (ps: seq<nat>)
    ensures Positions(test, lines, ps)
  {
    ps := [];
    for n := 0 to |lines|
      invariant Positions(test, lines[..n], ps)
    {
      if test(lines[n]) {
        ps := ps + [n];
      }
      assert lines[..n + 1][..n] == lines[..n];
    }
    assert lines[..|lines|] == lines;
  }

  lemma NoStageBetween<L(!new)>(test: L -> bool, lines: seq<L>, ps: seq<nat>, i: nat, n: nat)
    requires Positions(test, lines, ps) && i <= |ps|
    requires (if i == 0 then 0 else ps[i - 1] + 1) <= n < StageStart(lines, ps, i)
    ensures n < |lines| && !test(lines[n])
  {
    if test(lines[n]) {
      var j :| 0 <= j < |ps| && ps[j] == n;
    }
  }

  /** Between stage i and the next one no line passes the test. */
  lemma StageGap<L(!new)>(test: L -> bool, lines: seq<L>, ps: seq<nat>, i: nat)
    requires Positions(test, lines, ps) && i < |ps|
    ensures var p, q := ps[i], StageStart(lines, ps, i + 1);
            && p < q <= |lines| && test(lines[p])
            && forall n :: p < n < q ==> !test(lines[n])
  {
    var p, q := ps[i], StageStart(lines, ps, i + 1);
    forall n | p < n < q ensures !test(lines[n]) {
      NoStageBetween(test, lines, ps, i + 1, n);
    }
  }

  lemma InjectSkipsOne<L(!new)>(g: Grammar<L>, line: L, rest: seq<L>, keys: seq<string>)
    requires !g.stage(line)
    ensures Inject(g, [line] + rest, keys) == [line] + Inject(g, rest, keys)
  {
    assert ([line] + rest)[1..] == rest;
  }

  lemma {:induction false} InjectSkips<L(!new)>(g: Grammar<L>, lines: seq<L>, keys: seq<string>, n: nat)
    requires n <= |lines|
    requires forall i :: 0 <= i < n ==> !g.stage(lines[i])
    ensures Inject(g, lines, keys) == lines[..n] + Inject(g, lines[n..], keys)
  {
    if n == 0 {
      assert lines[0..] == lines;
    } else {
      var first, rest := lines[0], lines[1..];
      InjectSkips(g, rest, keys, n - 1);
      assert lines == [first] + rest;
      InjectSkipsOne(g, first, rest, keys);
      assert rest[n - 1..] == lines[n..];
      assert lines[..n] == [first] + rest[..n - 1];
    }
  }

  lemma {:induction false} AfterEachSkips<L(!new)>(test: L -> bool, lines: seq<L>, args: seq<L>, n: nat)
    requires n <= |lines|
    requires forall i :: 0 <= i < n ==> !test(lines[i])
    ensures AfterEach(test, lines, args) == lines[..n] + AfterEach(test, lines[n..], args)
  {
    if n == 0 {
      assert lines[0..] == lines;
    } else {
      AfterEachSkips(test, lines[1..], args, n - 1);
      assert lines[1..][..n - 1] == lines[1..n] && lines[1..][n - 1..] == lines[n..];
      assert lines[..n] == [lines[0]] + lines[1..n];
    }
  }

  // ----- the forward splice with a running offset -----

  lemma LeadingKeysStep<L(!new)>(g: Grammar<L>, lines: seq<L>, i: nat)
    requires i < |lines|
    ensures InBlock(g, lines[i]) ==>
              LeadingKeys(g, lines[i..]) == KeyOf(g, lines[i]) + LeadingKeys(g, lines[i + 1..])
    ensures !InBlock(g, lines[i]) ==> LeadingKeys(g, lines[i..]) == []
  {
    assert lines[i..][0] == lines[i] && lines[i..][1..] == lines[i + 1..];
  }

  lemma Associative<T(!new)>(x: seq<T>, y: seq<T>, z: seq<T>)
    ensures x + (y + z) == x + y + z
  {
  }

  /** The keys found up to the i-th line, and those of the block that is left. */
  ghost predicate Scanned<L(!new)>(g: Grammar<L>, lines: seq<L>, start: nat, i: nat, existing: seq<string>) {
    start <= i <= |lines| && existing + LeadingKeys(g, lines[i..]) == LeadingKeys(g, lines[start..])
  }

  lemma ScanNext<L(!new)>(g: Grammar<L>, lines: seq<L>, start: nat, i: nat, existing: seq<string>)
    requires Scanned(g, lines, start, i, existing) && i < |lines|
    ensures InBlock(g, lines[i]) ==> Scanned(g, lines, start, i + 1, existing + KeyOf(g, lines[i]))
    ensures !InBlock(g, lines[i]) ==> existing == LeadingKeys(g, lines[start..])
  {
    LeadingKeysStep(g, lines, i);
    Associative(existing, KeyOf(g, lines[i]), LeadingKeys(g, lines[i + 1..]));
  }

  lemma ScanStart<L(!new)>(g: Grammar<L>, lines: seq<L>, start: nat)
    requires start <= |lines|
    ensures Scanned(g, lines, start, start, [])
  {
  }

  lemma ScanAll<L(!new)>(g: Grammar<L>, lines: seq<L>, start: nat, existing: seq<string>)
    requires Scanned(g, lines, start, |lines|, existing)
    ensures existing == LeadingKeys(g, lines[start..])
  {
    assert lines[|lines|..] == [];
  }

  /** Scans the ARG block from position start, stopping at the first other line. */
  method ScanStage<L(!new)>(g: Grammar<L>, lines: seq<L>, start: nat, end: nat) returns (existing: seq<string>)
    requires start <= end <= |lines|
    requires forall n :: start <= n < end ==> !g.stage(lines[n])
    requires end < |lines| ==> g.stage(lines[end])
    ensures existing == LeadingKeys(g, lines[start..])
  {
    existing := [];
    ScanStart(g, lines, start);
    var i := start;
    while i < end
      invariant i <= end && Scanned(g, lines, start, i, existing)
    {
      ScanNext(g, lines, start, i, existing);
      if !g.arg(lines[i]) { return; }
      existing := existing + KeyOf(g, lines[i]);
      i := i + 1;
    }
    if end < |lines| { ScanNext(g, lines, start, end, existing); } else { ScanAll(g, lines, start, existing); }
  }

  /** What a stage and the lines up to the next stage become. */
  function StageBlock<L(!new)>(original: seq<L>, p: nat, q: nat, add: seq<L>): seq<L>
    requires p < q <= |original|
  {
    [original[p]] + add + original[p + 1..q]
  }

  lemma InjectAtStage<L(!new)>(g: Grammar<L>, original: seq<L>, keys: seq<string>, p: nat, q: nat)
    requires p < q <= |original| && g.stage(original[p])
    requires forall n :: p < n < q ==> !g.stage(original[n])
    ensures Inject(g, original[p..], keys)
            == StageBlock(original, p, q, Missing(g, keys, LeadingKeys(g, original[p + 1..])))
               + Inject(g, original[q..], keys)
  {
    var rest := original[p + 1..];
    InjectSkips(g, rest, keys, q - p - 1);
    assert rest[..q - p - 1] == original[p + 1..q] && rest[q - p - 1..] == original[q..];
    assert original[p..][1..] == rest && original[p..][0] == original[p];
    var add := Missing(g, keys, LeadingKeys(g, rest));
    Regroup([original[p]] + add, original[p + 1..q], Inject(g, original[q..], keys), 1 + |add| + (q - p - 1));
  }

  lemma SpliceStage<L(!new)>(lines: seq<L>, a: nat, original: seq<L>, p: nat, q: nat, add: seq<L>)
    requires p < q <= |original| && a <= |lines| && lines[a..] == original[p..]
    ensures |lines| - a == |original| - p
    ensures lines[..a + 1] + add + lines[a + 1..]
            == lines[..a] + StageBlock(original, p, q, add) + original[q..]
  {
    assert |lines[a..]| == |original[p..]|;
    assert lines[a + 1..] == lines[a..][1..] == original[p..][1..] == original[p + 1..q] + original[q..];
    assert lines[..a + 1] == lines[..a] + [lines[a..][0]];
  }

  lemma Regroup<L(!new)>(xs: seq<L>, ys: seq<L>, zs: seq<L>, n: nat)
    requires n == |xs| + |ys|
    ensures (xs + ys + zs)[n..] == zs
    ensures (xs + ys + zs)[..n] == xs + ys
    ensures xs + (ys + zs) == xs + ys + zs
  {
  }

  /** Position a of the edited file is position p of the original: the rest is
      untouched and what stands before a is what the meaning puts there. */
  ghost predicate Reached<L(!new)>(g: Grammar<L>, original: seq<L>, keys: seq<string>, lines: seq<L>, p: nat, a: nat) {
    && p <= |original| && a <= |lines|
    && lines[a..] == original[p..]
    && lines[..a] + Inject(g, original[p..], keys) == Inject(g, original, keys)
  }

  lemma ReachNext<L(!new)>(g: Grammar<L>, original: seq<L>, keys: seq<string>, p: nat, q: nat,
                  lines: seq<L>, offset: nat, add: seq<L>)
    requires p < q <= |original| && g.stage(original[p])
    requires forall n :: p < n < q ==> !g.stage(original[n])
    requires Reached(g, original, keys, lines, p, p + offset)
    requires add == Missing(g, keys, LeadingKeys(g, original[p + 1..]))
    ensures p + offset < |lines|
    ensures Reached(g, original, keys, lines[..p + offset + 1] + add + lines[p + offset + 1..], q, q + (offset + |add|))
  {
    var a := p + offset;
    InjectAtStage(g, original, keys, p, q);
    SpliceStage(lines, a, original, p, q, add);
    var block := StageBlock(original, p, q, add);
    Regroup(lines[..a], block, original[q..], q + (offset + |add|));
    Regroup(lines[..a], block, Inject(g, original[q..], keys), q + (offset + |add|));
  }

  lemma ReachFirst<L(!new)>(g: Grammar<L>, original: seq<L>, keys: seq<string>, froms: seq<nat>)
    requires Positions(g.stage, original, froms)
    ensures Reached(g, original, keys, original, StageStart(original, froms, 0), StageStart(original, froms, 0))
  {
    var p := StageStart(original, froms, 0);
    forall n | 0 <= n < p ensures !g.stage(original[n]) {
      NoStageBetween(g.stage, original, froms, 0, n);
    }
    InjectSkips(g, original, keys, p);
  }

  /** The scan of a stage sees the stage's original lines and ends where it ends. */
  lemma ScanIsSound<L(!new)>(g: Grammar<L>, original: seq<L>, keys: seq<string>, p: nat, q: nat, lines: seq<L>, offset: nat)
    requires IsStage(g, original, p, q)
    requires Reached(g, original, keys, lines, p, p + offset)
    ensures |lines| == |original| + offset
    ensures lines[p + offset + 1..] == original[p + 1..]
    ensures forall m :: p + offset < m < q + offset ==> !g.stage(lines[m])
    ensures q < |original| ==> g.stage(lines[q + offset])
  {
    var a := p + offset;
    assert |lines[a..]| == |original[p..]|;
    assert lines[a + 1..] == lines[a..][1..] == original[p..][1..] == original[p + 1..];
    if q < |original| {
      assert lines[q + offset] == lines[a..][q - p] == original[p..][q - p] == original[q];
    }
    forall m | a < m < q + offset ensures !g.stage(lines[m]) {
      assert lines[m] == lines[a..][m - a] == original[p..][m - a] == original[m - offset];
    }
  }

  /** original[p..q] is one stage. */
  ghost predicate IsStage<L(!new)>(g: Grammar<L>, original: seq<L>, p: nat, q: nat) {
    && p < q <= |original| && g.stage(original[p])
    && (forall n :: p < n < q ==> !g.stage(original[n]))
    && (q < |original| ==> g.stage(original[q]))
  }

  lemma StageSpliced<L(!new)>(g: Grammar<L>, original: seq<L>, keys: seq<string>, p: nat, q: nat, lines: seq<L>, offset: nat,
                     a: nat, add: seq<L>, spliced: seq<L>, end: nat)
    requires IsStage(g, original, p, q)
    requires a == p + offset < |lines| && Reached(g, original, keys, lines, p, a)
    requires add == Missing(g, keys, LeadingKeys(g, lines[a + 1..]))
    requires spliced == lines[..a + 1] + add + lines[a + 1..]
    requires end == q + offset + |add|
    ensures Reached(g, original, keys, spliced, q, end)
    ensures add == [] ==> Reached(g, original, keys, lines, q, end)
  {
    ScanIsSound(g, original, keys, p, q, lines, offset);
    ReachNext(g, original, keys, p, q, lines, offset, add);
    if add == [] {
      assert spliced == lines;
    }
  }

  /** The body of the stage loop; the stage is original[from..next]. */
  method InjectStage<L(!new)>(g: Grammar<L>, ghost original: seq<L>, keys: seq<string>, from: nat, ghost next: nat,
                     start: seq<L>, offset: nat, adjusted: nat, stageEnd: nat)
    returns (lines: seq<L>, added: nat, ghost end: nat)
    requires IsStage(g, original, from, next)
    requires Reached(g, original, keys, start, from, adjusted)
    requires adjusted == from + offset && stageEnd == next + offset
    ensures Reached(g, original, keys, lines, next, end)
    ensures end == next + offset + added
    ensures |lines| == |start| + added
  {
    lines, added := start, 0;
    ScanIsSound(g, original, keys, from, next, lines, offset);
    var existing := ScanStage(g, lines, adjusted + 1, stageEnd);
    var stageArgs := Missing(g, keys, existing);
    end := next + offset + |stageArgs|;
    var spliced := lines[..adjusted + 1] + stageArgs + lines[adjusted + 1..];
    StageSpliced(g, original, keys, from, next, lines, offset, adjusted, stageArgs, spliced, end);
    if stageArgs != [] {
      lines := spliced;
      added := |stageArgs|;
    }
  }

  /** The stages before the given one are done, and `offset` lines were added. */
  ghost predicate DoneBefore<L(!new)>(g: Grammar<L>, original: seq<L>, keys: seq<string>, froms: seq<nat>, stage: nat,
                                      lines: seq<L>, offset: nat) {
    var p := StageStart(original, froms, stage);
    Reached(g, original, keys, lines, p, p + offset) && |lines| == |original| + offset
  }

  /** The loop's step, with the indices that it computes. */
  method InjectStageAt<L(!new)>(g: Grammar<L>, ghost original: seq<L>, keys: seq<string>, froms: seq<nat>, stage: nat,
                                start: seq<L>, offset: nat)
    returns (lines: seq<L>, added: nat)
    requires Positions(g.stage, original, froms) && stage < |froms|
    requires DoneBefore(g, original, keys, froms, stage, start, offset)
    ensures DoneBefore(g, original, keys, froms, stage + 1, lines, offset + added)
  {
    StageOf(g, original, froms, stage);
    ghost var q := StageStart(original, froms, stage + 1);
    var adjusted := froms[stage] + offset;
    var stageEnd := if stage + 1 < |froms| then froms[stage + 1] + offset else |start|;
    ghost var a;
    lines, added, a := InjectStage(g, original, keys, froms[stage], q, start, offset, adjusted, stageEnd);
  }

  method InjectArgs<L(!new)>(g: Grammar<L>, original: seq<L>, keys: seq<string>) returns (lines: seq<L>, totalAdded: nat)
    ensures lines == Inject(g, original, keys)
    ensures |lines| == |original| + totalAdded
  {
    var froms := FindLines(g.stage, original);
    lines, totalAdded := original, 0;
    var offset: nat := 0;
    DoneAtFirst(g, original, keys, froms);
    for stage := 0 to |froms|
      invariant DoneBefore(g, original, keys, froms, stage, lines, offset) && totalAdded == offset
    {
      var added;
      lines, added := InjectStageAt(g, original, keys, froms, stage, lines, offset);
      totalAdded, offset := totalAdded + added, offset + added;
    }
    DoneAtLast(g, original, keys, froms, lines, offset);
  }

  lemma DoneAtFirst<L(!new)>(g: Grammar<L>, original: seq<L>, keys: seq<string>, froms: seq<nat>)
    requires Positions(g.stage, original, froms)
    ensures DoneBefore(g, original, keys, froms, 0, original, 0)
  {
    ReachFirst(g, original, keys, froms);
  }

  lemma DoneAtLast<L(!new)>(g: Grammar<L>, original: seq<L>, keys: seq<string>, froms: seq<nat>, lines: seq<L>, offset: nat)
    requires DoneBefore(g, original, keys, froms, |froms|, lines, offset)
    ensures lines == Inject(g, original, keys) && |lines| == |original| + offset
  {
    ReachLast(g, original, keys, lines, offset, |original| + offset);
  }

  lemma StageOf<L(!new)>(g: Grammar<L>, original: seq<L>, froms: seq<nat>, stage: nat)
    requires Positions(g.stage, original, froms) && stage < |froms|
    ensures IsStage(g, original, froms[stage], StageStart(original, froms, stage + 1))
  {
    StageGap(g.stage, original, froms, stage);
  }

  lemma ReachLast<L(!new)>(g: Grammar<L>, original: seq<L>, keys: seq<string>, lines: seq<L>, offset: nat, a: nat)
    requires a == |original| + offset && Reached(g, original, keys, lines, |original|, a)
    ensures lines == Inject(g, original, keys)
    ensures |lines| == |original| + offset
  {
    assert original[|original|..] == [] && lines[|original| + offset..] == [];
    assert lines == lines[..|original| + offset] + lines[|original| + offset..];
  }

  // ----- the reverse splice -----

  /** From the p-th line on, the lines are as they should be; before it, untouched. */
  ghost predicate SplicedFrom<L(!new)>(test: L -> bool, original: seq<L>, args: seq<L>, lines: seq<L>, p: nat) {
    p <= |original| && lines == original[..p] + AfterEach(test, original[p..], args)
  }

  /** The loop's step: from the next stage at p back to the stage at f. */
  lemma SpliceBack<L(!new)>(test: L -> bool, original: seq<L>, args: seq<L>, lines: seq<L>, f: nat, p: nat, next: seq<L>)
    requires SplicedFrom(test, original, args, lines, p) && f < p && test(original[f])
    requires forall n :: f < n < p ==> !test(original[n])
    requires f + 1 <= |lines| && next == lines[..f + 1] + args + lines[f + 1..]
    ensures SplicedFrom(test, original, args, next, f)
  {
    ReverseStep(test, original, args, f, p);
    ReverseBlock(test, original, args, f);
  }

  lemma SpliceStarts<L(!new)>(test: L -> bool, original: seq<L>, args: seq<L>)
    ensures SplicedFrom(test, original, args, original, |original|)
  {
    assert original[..|original|] == original && original[|original|..] == [];
  }

  lemma SpliceEnds<L(!new)>(test: L -> bool, original: seq<L>, args: seq<L>, lines: seq<L>, froms: seq<nat>)
    requires Positions(test, original, froms)
    requires SplicedFrom(test, original, args, lines, StageStart(original, froms, 0))
    ensures lines == AfterEach(test, original, args)
  {
    var p := StageStart(original, froms, 0);
    forall n | 0 <= n < p ensures !test(original[n]) {
      NoStageBetween(test, original, froms, 0, n);
    }
    AfterEachSkips(test, original, args, p);
  }

  method InsertAfterFroms<L(!new)>(test: L -> bool, original: seq<L>, args: seq<L>) returns (lines: seq<L>)
    ensures lines == AfterEach(test, original, args)
  {
    var froms := FindLines(test, original);
    lines := original;
    SpliceStarts(test, original, args);
    var i := |froms|;
    while i > 0
      invariant 0 <= i <= |froms|
      invariant SplicedFrom(test, original, args, lines, StageStart(original, froms, i))
    {
      i := i - 1;
      StageGap(test, original, froms, i);
      ghost var was := lines;
      lines := InsertAll(lines, froms[i] + 1, args);
      SpliceBack(test, original, args, was, froms[i], StageStart(original, froms, i + 1), lines);
    }
    SpliceEnds(test, original, args, lines, froms);
  }

  /** The inner loop: one-line splices at the same place, in reverse. */
  method InsertAll<L(!new)>(start: seq<L>, at: nat, args: seq<L>) returns (lines: seq<L>)
    requires at <= |start|
    ensures lines == start[..at] + args + start[at..]
  {
    lines := start;
    var j := |args|;
    while j > 0
      invariant 0 <= j <= |args|
      invariant lines == start[..at] + args[j..] + start[at..]
    {
      j := j - 1;
      assert args[j..] == [args[j]] + args[j + 1..];
      lines := lines[..at] + [args[j]] + lines[at..];
    }
  }

  lemma ReverseBlock<L(!new)>(test: L -> bool, original: seq<L>, args: seq<L>, f: nat)
    requires f < |original| && test(original[f])
    ensures var tail := AfterEach(test, original[f + 1..], args);
            var before := original[..f + 1] + tail;
            before[..f + 1] + args + before[f + 1..]
            == original[..f] + AfterEach(test, original[f..], args)
  {
    var tail := AfterEach(test, original[f + 1..], args);
    assert original[f..][1..] == original[f + 1..] && original[f..][0] == original[f];
    assert original[..f + 1] == original[..f] + [original[f]];
    assert (original[..f + 1] + tail)[f + 1..] == tail;
    assert original[..f] + ([original[f]] + args + tail) == original[..f] + [original[f]] + args + tail;
  }

  lemma ReverseStep<L(!new)>(test: L -> bool, original: seq<L>, args: seq<L>, f: nat, p: nat)
    requires f < p <= |original|
    requires forall n :: f < n < p ==> !test(original[n])
    ensures original[..p] + AfterEach(test, original[p..], args)
            == original[..f + 1] + AfterEach(test, original[f + 1..], args)
  {
    var rest := original[f + 1..];
    AfterEachSkips(test, rest, args, p - f - 1);
    assert rest[..p - f - 1] == original[f + 1..p] && rest[p - f - 1..] == original[p..];
    Regroup(original[..f + 1], original[f + 1..p], AfterEach(test, original[p..], args), p);
    assert original[..p] == original[..f + 1] + original[f + 1..p];
  }

  // ----- what an injection guarantees -----

  /** xs can be obtained from ys by deleting elements. */
  ghost predicate Subsequence<L(!new)>(xs: seq<L>, ys: seq<L>) {
    if xs == [] then true
    else if ys == [] then false
    else if xs[0] == ys[0] then Subsequence(xs[1..], ys[1..])
    else Subsequence(xs, ys[1..])
  }

  lemma {:induction false} SubsequenceOfMore<L(!new)>(xs: seq<L>, y: L, ys: seq<L>)
    requires Subsequence(xs, ys)
    ensures Subsequence(xs, [y] + ys)
    ensures xs != [] ==> Subsequence(xs[1..], ys)
    decreases |ys|
  {
    assert ([y] + ys)[1..] == ys;
    if xs != [] {
      assert ys == [ys[0]] + ys[1..];
      if xs[0] == ys[0] {
        SubsequenceOfMore(xs[1..], ys[0], ys[1..]);
      } else {
        SubsequenceOfMore(xs, ys[0], ys[1..]);
        SubsequenceOfMore(xs[1..], ys[0], ys[1..]);
      }
    }
  }

  lemma {:induction false} SubsequenceOfLonger<L(!new)>(xs: seq<L>, more: seq<L>, ys: seq<L>)
    requires Subsequence(xs, ys)
    ensures Subsequence(xs, more + ys)
  {
    if more == [] {
      assert more + ys == ys;
    } else {
      SubsequenceOfLonger(xs, more[1..], ys);
      SubsequenceOfMore(xs, more[0], more[1..] + ys);
      assert more + ys == [more[0]] + (more[1..] + ys);
    }
  }

  lemma {:induction false} OriginalLinesKeepTheirOrder<L(!new)>(g: Grammar<L>, lines: seq<L>, keys: seq<string>)
    ensures Subsequence(lines, Inject(g, lines, keys))
  {
    if lines != [] {
      var tail := Inject(g, lines[1..], keys);
      OriginalLinesKeepTheirOrder(g, lines[1..], keys);
      if g.stage(lines[0]) {
        var add := Missing(g, keys, LeadingKeys(g, lines[1..]));
        SubsequenceOfLonger(lines[1..], add, tail);
        assert Inject(g, lines, keys)[1..] == add + tail;
      } else {
        assert Inject(g, lines, keys)[1..] == tail;
      }
    }
  }

  /** Every stage's leading ARG block declares every key. */
  ghost predicate AllDeclared<L(!new)>(g: Grammar<L>, lines: seq<L>, keys: seq<string>) {
    forall i :: 0 <= i < |lines| && g.stage(lines[i]) ==>
      forall k :: k in keys ==> g.name(k) in LeadingKeys(g, lines[i + 1..])
  }

  lemma {:induction false} MissingNothing<L(!new)>(g: Grammar<L>, keys: seq<string>, declared: seq<string>)
    ensures Missing(g, keys, declared) == [] <==> forall k :: k in keys ==> g.name(k) in declared
  {
    if keys != [] {
      MissingNothing(g, keys[1..], declared);
      assert forall k :: k in keys <==> k == keys[0] || k in keys[1..];
    }
  }

  lemma {:induction false} InjectGrows<L(!new)>(g: Grammar<L>, lines: seq<L>, keys: seq<string>)
    ensures |lines| <= |Inject(g, lines, keys)|
  {
    if lines != [] {
      InjectGrows(g, lines[1..], keys);
    }
  }

  lemma AllDeclaredTail<L(!new)>(g: Grammar<L>, lines: seq<L>, keys: seq<string>)
    requires lines != []
    ensures AllDeclared(g, lines, keys) <==>
            AllDeclared(g, lines[1..], keys)
            && (g.stage(lines[0]) ==> forall k :: k in keys ==> g.name(k) in LeadingKeys(g, lines[1..]))
  {
    assert forall i :: 0 < i < |lines| ==> lines[i] == lines[1..][i - 1] && lines[i + 1..] == lines[1..][i..];
    assert forall i :: 0 <= i < |lines| - 1 ==> lines[1..][i] == lines[i + 1] && lines[1..][i + 1..] == lines[i + 2..];
    if AllDeclared(g, lines[1..], keys) && (g.stage(lines[0]) ==> forall k :: k in keys ==> g.name(k) in LeadingKeys(g, lines[1..])) {
      forall i | 0 <= i < |lines| && g.stage(lines[i])
        ensures forall k :: k in keys ==> g.name(k) in LeadingKeys(g, lines[i + 1..])
      {
        if i > 0 {
          assert g.stage(lines[1..][i - 1]);
        }
      }
    }
  }

  /** What an injection puts after the first line. */
  function AddedAfter<L(!new)>(g: Grammar<L>, first: L, rest: seq<L>, keys: seq<string>): seq<L> {
    if g.stage(first) then Missing(g, keys, LeadingKeys(g, rest)) else []
  }

  lemma InjectCons<L(!new)>(g: Grammar<L>, first: L, rest: seq<L>, keys: seq<string>)
    ensures Inject(g, [first] + rest, keys) == [first] + (AddedAfter(g, first, rest, keys) + Inject(g, rest, keys))
  {
    var lines := [first] + rest;
    assert lines[0] == first && lines[1..] == rest;
    Together(first, AddedAfter(g, first, rest, keys), Inject(g, rest, keys));
  }

  lemma Together<L(!new)>(first: L, add: seq<L>, tail: seq<L>)
    ensures [first] + add + tail == [first] + (add + tail)
    ensures add == [] ==> [first] + tail == [first] + (add + tail)
  {
  }

  lemma LongerAfter<L(!new)>(first: L, add: seq<L>, tail: seq<L>, rest: seq<L>)
    requires |tail| >= |rest| && (|tail| == |rest| <==> tail == rest)
    ensures |[first] + (add + tail)| == |[first] + rest| <==> add == [] && tail == rest
    ensures [first] + (add + tail) == [first] + rest <==> add == [] && tail == rest
  {
    if add == [] {
      assert add + tail == tail && ([first] + tail)[1..] == tail && ([first] + rest)[1..] == rest;
    }
  }

  lemma {:induction false} GrowthIsChange<L(!new)>(g: Grammar<L>, lines: seq<L>, keys: seq<string>)
    ensures |Inject(g, lines, keys)| == |lines| <==> Inject(g, lines, keys) == lines
  {
    if lines != [] {
      var first, rest := lines[0], lines[1..];
      GrowthIsChange(g, rest, keys);
      InjectGrows(g, rest, keys);
      InjectCons(g, first, rest, keys);
      LongerAfter(first, AddedAfter(g, first, rest, keys), Inject(g, rest, keys), rest);
      assert lines == [first] + rest;
    }
  }

  lemma UnchangedCons<L(!new)>(g: Grammar<L>, first: L, rest: seq<L>, keys: seq<string>)
    ensures Inject(g, [first] + rest, keys) == [first] + rest <==>
            Inject(g, rest, keys) == rest && (g.stage(first) ==> Missing(g, keys, LeadingKeys(g, rest)) == [])
  {
    GrowthIsChange(g, rest, keys);
    InjectGrows(g, rest, keys);
    InjectCons(g, first, rest, keys);
    LongerAfter(first, AddedAfter(g, first, rest, keys), Inject(g, rest, keys), rest);
  }

  /** An injection changes nothing exactly when every stage declares every key. */
  lemma {:induction false} UnchangedIffAllDeclared<L(!new)>(g: Grammar<L>, lines: seq<L>, keys: seq<string>)
    ensures Inject(g, lines, keys) == lines <==> AllDeclared(g, lines, keys)
  {
    if lines != [] {
      var first, rest := lines[0], lines[1..];
      UnchangedIffAllDeclared(g, rest, keys);
      AllDeclaredTail(g, lines, keys);
      MissingNothing(g, keys, LeadingKeys(g, rest));
      UnchangedCons(g, first, rest, keys);
      assert lines == [first] + rest;
    }
  }

  /** The line written for the key is read back as declaring it. */
  predicate SelfDeclaring<L(!new)>(g: Grammar<L>, key: string) {
    InBlock(g, g.line(key)) && g.declares(g.line(key)) == Some(g.name(key))
  }

  /** The leading ARG block is the same before and after an injection. */
  lemma {:induction false} LeadingKeysKept<L(!new)>(g: Grammar<L>, lines: seq<L>, keys: seq<string>)
    ensures LeadingKeys(g, Inject(g, lines, keys)) == LeadingKeys(g, lines)
  {
    if lines != [] {
      LeadingKeysKept(g, lines[1..], keys);
      var out := Inject(g, lines, keys);
      assert out[0] == lines[0];
      if !g.stage(lines[0]) {
        assert out[1..] == Inject(g, lines[1..], keys);
      }
    }
  }

  lemma {:induction false} AddedKeysAreDeclared<L(!new)>(g: Grammar<L>, keys: seq<string>, declared: seq<string>, rest: seq<L>)
    requires forall k :: k in keys ==> SelfDeclaring(g, k)
    ensures forall k :: k in LeadingKeys(g, rest) ==> k in LeadingKeys(g, Missing(g, keys, declared) + rest)
    ensures forall k :: k in keys ==>
              g.name(k) in declared || g.name(k) in LeadingKeys(g, Missing(g, keys, declared) + rest)
  {
    if keys == [] {
      assert Missing(g, keys, declared) + rest == rest;
    } else {
      var more := Missing(g, keys[1..], declared);
      AddedKeysAreDeclared(g, keys[1..], declared, rest);
      if g.name(keys[0]) in declared {
        assert Missing(g, keys, declared) == more;
      } else {
        var all := Missing(g, keys, declared) + rest;
        assert all == [g.line(keys[0])] + (more + rest);
        assert all[1..] == more + rest && SelfDeclaring(g, keys[0]);
        assert LeadingKeys(g, all) == [g.name(keys[0])] + LeadingKeys(g, more + rest);
      }
      assert forall k :: k in keys <==> k == keys[0] || k in keys[1..];
    }
  }

  lemma {:induction false} InjectPast<L(!new)>(g: Grammar<L>, add: seq<L>, keys: seq<string>, rest: seq<L>)
    requires forall i :: 0 <= i < |add| ==> !g.stage(add[i])
    requires AllDeclared(g, rest, keys)
    ensures AllDeclared(g, add + rest, keys)
  {
    if add == [] {
      assert add + rest == rest;
    } else {
      InjectPast(g, add[1..], keys, rest);
      assert (add + rest)[1..] == add[1..] + rest;
      AllDeclaredTail(g, add + rest, keys);
    }
  }

  lemma {:induction false} MissingAreArgs<L(!new)>(g: Grammar<L>, keys: seq<string>, declared: seq<string>)
    requires forall k :: k in keys ==> SelfDeclaring(g, k)
    ensures forall i :: 0 <= i < |Missing(g, keys, declared)| ==> !g.stage(Missing(g, keys, declared)[i])
  {
    if keys != [] {
      MissingAreArgs(g, keys[1..], declared);
      assert SelfDeclaring(g, keys[0]);
    }
  }

  lemma DeclaredAfterFirst<L(!new)>(g: Grammar<L>, first: L, rest: seq<L>, tail: seq<L>, keys: seq<string>)
    requires forall k :: k in keys ==> SelfDeclaring(g, k)
    requires AllDeclared(g, tail, keys) && LeadingKeys(g, tail) == LeadingKeys(g, rest)
    ensures AllDeclared(g, [first] + (AddedAfter(g, first, rest, keys) + tail), keys)
  {
    var declared, add := LeadingKeys(g, rest), AddedAfter(g, first, rest, keys);
    var out := [first] + (add + tail);
    assert out[1..] == add + tail;
    if g.stage(first) {
      AddedKeysAreDeclared(g, keys, declared, tail);
      MissingAreArgs(g, keys, declared);
    }
    InjectPast(g, add, keys, tail);
    AllDeclaredTail(g, out, keys);
  }

  /** After an injection every stage declares every key. */
  lemma {:induction false} InjectDeclaresAll<L(!new)>(g: Grammar<L>, lines: seq<L>, keys: seq<string>)
    requires forall k :: k in keys ==> SelfDeclaring(g, k)
    ensures AllDeclared(g, Inject(g, lines, keys), keys)
  {
    if lines != [] {
      var first, rest := lines[0], lines[1..];
      InjectDeclaresAll(g, rest, keys);
      LeadingKeysKept(g, rest, keys);
      DeclaredAfterFirst(g, first, rest, Inject(g, rest, keys), keys);
      InjectCons(g, first, rest, keys);
      assert lines == [first] + rest;
    }
  }

  /** Running the compose injection again adds nothing. */
  lemma InjectIsIdempotent<L(!new)>(g: Grammar<L>, lines: seq<L>, keys: seq<string>)
    requires forall k :: k in keys ==> SelfDeclaring(g, k)
    ensures Inject(g, Inject(g, lines, keys), keys) == Inject(g, lines, keys)
  {
    InjectDeclaresAll(g, lines, keys);
    UnchangedIffAllDeclared(g, Inject(g, lines, keys), keys);
  }

  /** For one key, being read back is also necessary: otherwise every run adds
      another copy to a file that consists of one FROM line. */
  lemma IdempotentOnlyIfSelfDeclaring<L(!new)>(g: Grammar<L>, key: string, from: L)
    requires g.stage(from)
    requires Inject(g, Inject(g, [from], [key]), [key]) == Inject(g, [from], [key])
    ensures SelfDeclaring(g, key)
  {
    var arg := g.line(key);
    assert [from][1..] == [] && [from, arg][1..] == [arg] && [arg][1..] == [];
    assert Missing(g, [key], []) == [arg];
    assert Inject(g, [from], [key]) == [from, arg];
    UnchangedIffAllDeclared(g, [from, arg], [key]);
    assert g.stage([from, arg][0]) && key in [key];
    assert g.name(key) in LeadingKeys(g, [arg]);
  }

  // ----- a key that is not read back -----

  /** How many stages do not declare the key. */
  function Lacking<L(!new)>(g: Grammar<L>, lines: seq<L>, key: string): nat {
    if lines == [] then 0
    else
      (if g.stage(lines[0]) && g.name(key) !in LeadingKeys(g, lines[1..]) then 1 else 0) + Lacking(g, lines[1..], key)
  }

  function Repeated<L(!new)>(g: Grammar<L>, lines: seq<L>, key: string, n: nat): seq<L> {
    if n == 0 then lines else Inject(g, Repeated(g, lines, key, n - 1), [key])
  }

  lemma MissingOne<L(!new)>(g: Grammar<L>, key: string, declared: seq<string>)
    ensures Missing(g, [key], declared) == if g.name(key) in declared then [] else [g.line(key)]
  {
    assert [key][1..] == [];
  }

  /** An injection of one key adds one line for each stage that lacks it. */
  lemma {:induction false} GrowthIsLacking<L(!new)>(g: Grammar<L>, lines: seq<L>, key: string)
    ensures |Inject(g, lines, [key])| == |lines| + Lacking(g, lines, key)
  {
    if lines != [] {
      GrowthIsLacking(g, lines[1..], key);
      MissingOne(g, key, LeadingKeys(g, lines[1..]));
    }
  }

  /** One, if this line starts a stage that lacks the key. */
  function LacksHere<L(!new)>(g: Grammar<L>, line: L, rest: seq<L>, key: string): nat {
    if g.stage(line) && g.name(key) !in LeadingKeys(g, rest) then 1 else 0
  }

  lemma LackingCons<L(!new)>(g: Grammar<L>, line: L, rest: seq<L>, key: string)
    ensures Lacking(g, [line] + rest, key) == LacksHere(g, line, rest, key) + Lacking(g, rest, key)
  {
    assert ([line] + rest)[1..] == rest;
  }

  lemma NotDeclaredBy<L(!new)>(g: Grammar<L>, rest: seq<L>, key: string)
    requires !SelfDeclaring(g, key) && g.name(key) !in LeadingKeys(g, rest)
    ensures g.name(key) !in LeadingKeys(g, [g.line(key)] + rest)
  {
    assert ([g.line(key)] + rest)[1..] == rest;
  }

  /** The first line and what an injection puts after it, before the rest. */
  lemma LackingBlock<L(!new)>(g: Grammar<L>, first: L, rest: seq<L>, tail: seq<L>, key: string)
    requires !SelfDeclaring(g, key) && !g.stage(g.line(key)) && LeadingKeys(g, rest) == LeadingKeys(g, tail)
    ensures var add := AddedAfter(g, first, rest, [key]);
            Lacking(g, [first] + (add + tail), key) == LacksHere(g, first, tail, key) + Lacking(g, tail, key)
  {
    var add := AddedAfter(g, first, rest, [key]);
    MissingOne(g, key, LeadingKeys(g, rest));
    LackingCons(g, first, add + tail, key);
    if add == [] {
      assert add + tail == tail;
    } else {
      NotDeclaredBy(g, tail, key);
      LackingCons(g, g.line(key), tail, key);
    }
  }

  /** If the line written for the key is not read back, the stages that lacked it still do. */
  lemma {:induction false} LackingStays<L(!new)>(g: Grammar<L>, lines: seq<L>, key: string)
    requires !SelfDeclaring(g, key) && !g.stage(g.line(key))
    ensures Lacking(g, Inject(g, lines, [key]), key) == Lacking(g, lines, key)
  {
    if lines != [] {
      var first, rest := lines[0], lines[1..];
      LackingStays(g, rest, key);
      LeadingKeysKept(g, rest, [key]);
      LackingBlock(g, first, rest, Inject(g, rest, [key]), key);
      InjectCons(g, first, rest, [key]);
      LackingCons(g, first, rest, key);
      assert lines == [first] + rest;
    }
  }

  lemma OneMoreRun<L(!new)>(g: Grammar<L>, lines: seq<L>, key: string, size: nat, lacking: nat)
    requires !SelfDeclaring(g, key) && !g.stage(g.line(key))
    requires |lines| == size && Lacking(g, lines, key) == lacking
    ensures |Inject(g, lines, [key])| == size + lacking && Lacking(g, Inject(g, lines, [key]), key) == lacking
  {
    GrowthIsLacking(g, lines, key);
    LackingStays(g, lines, key);
  }

  /** So every run, not only the second, adds the same number of lines. */
  lemma {:induction false} EveryRunAdds<L(!new)>(g: Grammar<L>, lines: seq<L>, key: string, n: nat)
    requires !SelfDeclaring(g, key) && !g.stage(g.line(key))
    ensures |Repeated(g, lines, key, n)| == |lines| + n * Lacking(g, lines, key)
    ensures Lacking(g, Repeated(g, lines, key, n), key) == Lacking(g, lines, key)
  {
    var lacking := Lacking(g, lines, key);
    if n > 0 {
      EveryRunAdds(g, lines, key, n - 1);
      OneMoreRun(g, Repeated(g, lines, key, n - 1), key, |lines| + (n - 1) * lacking, lacking);
      assert n * lacking == (n - 1) * lacking + lacking;
    }
  }

  // ----- which lines an injection leaves -----

  /** The line is one that an injection of the keys may write. */
  ghost predicate WrittenFor<L(!new)>(g: Grammar<L>, keys: seq<string>, line: L) {
    exists k :: k in keys && line == g.line(k)
  }

  lemma {:induction false} MissingAreWritten<L(!new)>(g: Grammar<L>, keys: seq<string>, declared: seq<string>, line: L)
    requires line in Missing(g, keys, declared)
    ensures WrittenFor(g, keys, line)
  {
    if line in Missing(g, keys[1..], declared) {
      MissingAreWritten(g, keys[1..], declared, line);
      var k :| k in keys[1..] && line == g.line(k);
      assert k in keys;
    } else {
      assert keys[0] in keys && line == g.line(keys[0]);
    }
  }

  lemma {:induction false} InjectedLines<L(!new)>(g: Grammar<L>, lines: seq<L>, keys: seq<string>, line: L)
    requires line in Inject(g, lines, keys)
    ensures line in lines || WrittenFor(g, keys, line)
  {
    var tail, declared := Inject(g, lines[1..], keys), LeadingKeys(g, lines[1..]);
    if line in tail {
      InjectedLines(g, lines[1..], keys, line);
    } else if line != lines[0] {
      assert line in Missing(g, keys, declared);
      MissingAreWritten(g, keys, declared, line);
    }
  }

  /** The first line stays, and the last is the old one or one of those written. */
  lemma {:induction false} EndsOfInject<L(!new)>(g: Grammar<L>, lines: seq<L>, keys: seq<string>)
    requires lines != []
    ensures var out := Inject(g, lines, keys);
            && out != [] && out[0] == lines[0]
            && (out[|out| - 1] == lines[|lines| - 1] || WrittenFor(g, keys, out[|out| - 1]))
  {
    var rest, out := Inject(g, lines[1..], keys), Inject(g, lines, keys);
    if |lines| > 1 {
      EndsOfInject(g, lines[1..], keys);
      assert out[|out| - 1] == rest[|rest| - 1];
    } else if out != lines {
      var add := Missing(g, keys, LeadingKeys(g, lines[1..]));
      assert rest == [] && out == [lines[0]] + add;
      assert add != [] && out[|out| - 1] == add[|add| - 1];
      MissingAreWritten(g, keys, LeadingKeys(g, lines[1..]), add[|add| - 1]);
    }
  }

  // ----- when the last line is read differently -----

  predicate HasStage<L(!new)>(g: Grammar<L>, lines: seq<L>) {
    lines != [] && (g.stage(lines[0]) || HasStage(g, lines[1..]))
  }

  /** How many stages lack the key and are followed by another stage. */
  function LackingInside<L(!new)>(g: Grammar<L>, lines: seq<L>, key: string): nat {
    if lines == [] then 0
    else (if HasStage(g, lines[1..]) then LacksHere(g, lines[0], lines[1..], key) else 0) + LackingInside(g, lines[1..], key)
  }

  lemma {:induction false} InsideIsLacking<L(!new)>(g: Grammar<L>, lines: seq<L>, key: string)
    ensures LackingInside(g, lines, key) <= Lacking(g, lines, key)
  {
    if lines != [] { InsideIsLacking(g, lines[1..], key); }
  }

  lemma InsideTwo<L(!new)>(g: Grammar<L>, from: L, key: string)
    requires g.stage(from)
    ensures LackingInside(g, [from, from], key) == 1
  {
    var rest, none: seq<L> := [from], [];
    assert [from, from] == [from] + rest && rest == [from] + none;
    InsideCons(g, from, rest, key);
    InsideCons(g, from, none, key);
  }

  lemma InsideCons<L(!new)>(g: Grammar<L>, line: L, rest: seq<L>, key: string)
    ensures LackingInside(g, [line] + rest, key)
            == (if HasStage(g, rest) then LacksHere(g, line, rest, key) else 0) + LackingInside(g, rest, key)
    ensures HasStage(g, [line] + rest) <==> g.stage(line) || HasStage(g, rest)
  {
    assert ([line] + rest)[1..] == rest;
  }

  lemma InsideBlock<L(!new)>(g: Grammar<L>, first: L, rest: seq<L>, tail: seq<L>, key: string)
    requires !SelfDeclaring(g, key) && !g.stage(g.line(key)) && LeadingKeys(g, rest) == LeadingKeys(g, tail)
    ensures var add := AddedAfter(g, first, rest, [key]);
            && LackingInside(g, [first] + (add + tail), key)
               == (if HasStage(g, tail) then LacksHere(g, first, tail, key) else 0) + LackingInside(g, tail, key)
            && (HasStage(g, [first] + (add + tail)) <==> g.stage(first) || HasStage(g, tail))
  {
    var add := AddedAfter(g, first, rest, [key]);
    MissingOne(g, key, LeadingKeys(g, rest));
    InsideCons(g, first, add + tail, key);
    if add == [] {
      assert add + tail == tail;
    } else {
      NotDeclaredBy(g, tail, key);
      InsideCons(g, g.line(key), tail, key);
    }
  }

  lemma {:induction false} InsideStays<L(!new)>(g: Grammar<L>, lines: seq<L>, key: string)
    requires !SelfDeclaring(g, key) && !g.stage(g.line(key))
    ensures LackingInside(g, Inject(g, lines, [key]), key) == LackingInside(g, lines, key)
    ensures HasStage(g, Inject(g, lines, [key])) <==> HasStage(g, lines)
  {
    if lines != [] {
      var first, rest := lines[0], lines[1..];
      InsideStays(g, rest, key);
      LeadingKeysKept(g, rest, [key]);
      InsideBlock(g, first, rest, Inject(g, rest, [key]), key);
      InjectCons(g, first, rest, [key]);
      InsideCons(g, first, rest, key);
      assert lines == [first] + rest;
    }
  }

  /** A leading block that ends at a stage does not reach the last line. */
  lemma {:induction false} LeadingBeforeLast<L(!new)>(g: Grammar<L>, front: seq<L>, x: L, y: L)
    requires !g.stage(x) && !g.stage(y)
    ensures HasStage(g, front + [x]) <==> HasStage(g, front)
    ensures HasStage(g, front) ==> LeadingKeys(g, front + [x]) == LeadingKeys(g, front + [y])
  {
    if front == [] {
      assert front + [x] == [x] && [x][1..] == [];
    } else {
      LeadingBeforeLast(g, front[1..], x, y);
      assert (front + [x])[1..] == front[1..] + [x] && (front + [y])[1..] == front[1..] + [y];
    }
  }

  lemma {:induction false} InsideOfLast<L(!new)>(g: Grammar<L>, front: seq<L>, x: L, y: L, key: string)
    requires !g.stage(x) && !g.stage(y)
    ensures LackingInside(g, front + [x], key) == LackingInside(g, front + [y], key)
  {
    if front == [] {
      assert front + [x] == [x] && front + [y] == [y] && [x][1..] == [] && [y][1..] == [];
    } else {
      InsideOfLast(g, front[1..], x, y, key);
      LeadingBeforeLast(g, front[1..], x, y);
      LeadingBeforeLast(g, front[1..], y, x);
      assert (front + [x])[1..] == front[1..] + [x] && (front + [y])[1..] == front[1..] + [y];
    }
  }

  /** Two lines that are read the same way. */
  predicate SameReading<L(!new)>(g: Grammar<L>, x: L, y: L) {
    g.stage(x) == g.stage(y) && g.arg(x) == g.arg(y) && g.declares(x) == g.declares(y)
  }

  lemma {:induction false} LeadingOfLast<L(!new)>(g: Grammar<L>, front: seq<L>, x: L, y: L)
    requires SameReading(g, x, y)
    ensures LeadingKeys(g, front + [x]) == LeadingKeys(g, front + [y])
  {
    if front == [] {
      assert front + [x] == [x] && front + [y] == [y] && [x][1..] == [] && [y][1..] == [];
    } else {
      LeadingOfLast(g, front[1..], x, y);
      assert (front + [x])[1..] == front[1..] + [x] && (front + [y])[1..] == front[1..] + [y];
    }
  }

  lemma DeclaredOfLast<L(!new)>(g: Grammar<L>, front: seq<L>, x: L, y: L, keys: seq<string>)
    requires SameReading(g, x, y) && AllDeclared(g, front + [x], keys)
    ensures AllDeclared(g, front + [y], keys)
  {
    var a, b := front + [x], front + [y];
    forall i, k | 0 <= i < |b| && g.stage(b[i]) && k in keys ensures g.name(k) in LeadingKeys(g, b[i + 1..]) {
      assert g.stage(a[i]) && g.name(k) in LeadingKeys(g, a[i + 1..]);
      if i < |front| {
        LeadingOfLast(g, front[i + 1..], x, y);
        assert a[i + 1..] == front[i + 1..] + [x] && b[i + 1..] == front[i + 1..] + [y];
      }
    }
  }

  // ----- the two algorithms agree -----

  function ArgLines<L(!new)>(g: Grammar<L>, keys: seq<string>): seq<L> {
    seq(|keys|, i requires 0 <= i < |keys| => g.line(keys[i]))
  }

  lemma {:induction false} MissingAll<L(!new)>(g: Grammar<L>, keys: seq<string>, declared: seq<string>)
    requires forall k :: k in keys ==> g.name(k) !in declared
    ensures Missing(g, keys, declared) == ArgLines(g, keys)
  {
    if keys != [] {
      MissingAll(g, keys[1..], declared);
      assert ArgLines(g, keys) == [g.line(keys[0])] + ArgLines(g, keys[1..]);
    }
  }

  /** When both recognise the same stages and no stage declares one of the keys,
      the forward splice and the reverse splice produce the same file. */
  lemma {:induction false} SplicesAgree<L(!new)>(g: Grammar<L>, test: L -> bool, lines: seq<L>, keys: seq<string>)
    requires forall i :: 0 <= i < |lines| ==> (g.stage(lines[i]) <==> test(lines[i]))
    requires forall i, k :: 0 <= i < |lines| && g.stage(lines[i]) && k in keys
                            ==> g.name(k) !in LeadingKeys(g, lines[i + 1..])
    ensures Inject(g, lines, keys) == AfterEach(test, lines, ArgLines(g, keys))
  {
    if lines != [] {
      var rest := lines[1..];
      forall i, k | 0 <= i < |rest| && g.stage(rest[i]) && k in keys
        ensures g.name(k) !in LeadingKeys(g, rest[i + 1..])
      {
        assert rest[i] == lines[i + 1] && rest[i + 1..] == lines[i + 1 + 1..];
      }
      SplicesAgree(g, test, rest, keys);
      if g.stage(lines[0]) {
        assert forall k :: k in keys ==> g.name(k) !in LeadingKeys(g, lines[0 + 1..]);
        MissingAll(g, keys, LeadingKeys(g, rest));
      }
    }
  }
}
