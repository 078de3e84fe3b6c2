/** A service's Dockerfile as the compose path finds and leaves it: text that is trimmed
    and split into lines, injected, and written back with line breaks between the lines.
    The next run reads what this one wrote. */
module DockerfileText {
  import opened Text
  import opened StageSplicing
  import opened ArgInjection

  function LinesOf(text: string): seq<string> {
    Explode(StrTrim(text), '\n')
  }

  function Added(text: string, keys: seq<string>): int {
    |Inject(COMPOSE, LinesOf(text), keys)| - |LinesOf(text)|
  }

  /** What one run leaves in the file: nothing is written when nothing is added. */
  function Run(text: string, keys: seq<string>): string {
    if Added(text, keys) == 0 then text else Implode(Inject(COMPOSE, LinesOf(text), keys), '\n')
  }

  method InjectFile(text: string, keys: seq<string>) returns (after: string, totalAdded: nat)
    ensures after == Run(text, keys) && totalAdded == Added(text, keys)
  {
    var lines;
    lines, totalAdded := InjectComposeArgs(LinesOf(text), keys);
    after := if totalAdded > 0 then Implode(lines, '\n') else text;
  }

  // ----- reading back -----

  /** Cutting blanks off the end of a text touches only its last line, unless that is blank. */
  lemma TrimOfLast(front: seq<string>, last: string)
    requires TrimRight(StrTrimChar, last) != ""
    ensures TrimRight(StrTrimChar, Implode(front + [last], '\n')) == Implode(front + [TrimRight(StrTrimChar, last)], '\n')
  {
    var cut := TrimRight(StrTrimChar, last);
    ImplodeLast(front, last, '\n');
    ImplodeLast(front, cut, '\n');
    if front != [] { TrimRightConcat(StrTrimChar, Implode(front, '\n') + ['\n'], last); }
  }

  ghost predicate OneLiners(lines: seq<string>) {
    forall i :: 0 <= i < |lines| ==> '\n' !in lines[i]
  }

  ghost predicate StartsBlank(s: string) {
    s == "" || StrTrimChar(s[0])
  }

  lemma FirstOfImplode(lines: seq<string>)
    requires lines != [] && !StartsBlank(lines[0])
    ensures !StartsBlank(Implode(lines, '\n'))
  {
  }

  /** Writing lines and reading them back cuts the blanks off the last one, and that is all. */
  lemma ReadBack(front: seq<string>, last: string)
    requires OneLiners(front + [last]) && !StartsBlank((front + [last])[0]) && TrimRight(StrTrimChar, last) != ""
    ensures LinesOf(Implode(front + [last], '\n')) == front + [TrimRight(StrTrimChar, last)]
  {
    var text, cut := Implode(front + [last], '\n'), TrimRight(StrTrimChar, last);
    FirstOfImplode(front + [last]);
    assert TrimLeft(StrTrimChar, text) == text;
    TrimOfLast(front, last);
    TrimRightIsPrefix(StrTrimChar, last);
    forall i | 0 <= i < |front + [cut]| ensures '\n' !in (front + [cut])[i] {
      assert '\n' !in (front + [last])[i];
    }
    ExplodeImplode(front + [cut], '\n');
  }

  /** The lines of a text: without line breaks, and neither the first nor the last blank,
      unless the text is. */
  lemma LinesFacts(text: string)
    ensures var lines := LinesOf(text);
            && lines != [] && OneLiners(lines)
            && (StrTrim(text) == "" ==> lines == [""])
            && (StrTrim(text) != "" ==>
                  !StartsBlank(lines[0]) && TrimRight(StrTrimChar, lines[|lines| - 1]) == lines[|lines| - 1] != "")
  {
    var t, lines := StrTrim(text), LinesOf(text);
    ImplodeExplode(t, '\n');
    if t == "" {
      ExplodeOne(t, '\n');
    } else {
      var left := TrimLeft(StrTrimChar, text);
      TrimLeftStart(StrTrimChar, text);
      TrimRightIsPrefix(StrTrimChar, left);
      EndsOfImplode(lines);
      TrimRightIsPrefix(StrTrimChar, lines[|lines| - 1]);
    }
  }

  /** A text that is not blank at its ends has lines that are not blank at its ends. */
  lemma EndsOfImplode(lines: seq<string>)
    requires lines != []
    requires var t := Implode(lines, '\n'); t != "" && !StrTrimChar(t[0]) && !StrTrimChar(t[|t| - 1])
    ensures !StartsBlank(lines[0])
    ensures var last := lines[|lines| - 1]; last != "" && !StrTrimChar(last[|last| - 1])
  {
    var n := |lines| - 1;
    assert lines == lines[..n] + [lines[n]];
    ImplodeLast(lines[..n], lines[n], '\n');
  }

  // ----- after an injection -----

  lemma InjectIsOneLiners(lines: seq<string>, keys: seq<string>)
    requires OneLiners(lines) && OneLiners(keys)
    ensures OneLiners(Inject(COMPOSE, lines, keys))
  {
    var out := Inject(COMPOSE, lines, keys);
    forall i | 0 <= i < |out| ensures '\n' !in out[i] {
      InjectedLines(COMPOSE, lines, keys, out[i]);
      if out[i] !in lines {
        var k :| k in keys && out[i] == COMPOSE.line(k);
        assert out[i] == ArgLine(k) && '\n' !in k;
      }
    }
  }

  lemma ArgLineIsNotBlank(key: string)
    ensures "ARG" <= TrimRight(StrTrimChar, ArgLine(key))
  {
    assert ArgLine(key) == "ARG" + (" " + key);
    TrimRightKeeps(StrTrimChar, "ARG", " " + key);
  }

  /** The lines with the last one cut. */
  function Cut(lines: seq<string>): seq<string>
    requires lines != []
  {
    lines[..|lines| - 1] + [TrimRight(StrTrimChar, lines[|lines| - 1])]
  }

  /** What can be said of the lines that a run has added to. */
  ghost predicate Grown(out: seq<string>, keys: seq<string>) {
    && out != [] && OneLiners(out) && !StartsBlank(out[0]) && TrimRight(StrTrimChar, out[|out| - 1]) != ""
    && (TrimRight(StrTrimChar, out[|out| - 1]) == out[|out| - 1] || WrittenFor(COMPOSE, keys, out[|out| - 1]))
  }

  lemma WrittenIsNotBlank(keys: seq<string>, line: string)
    requires WrittenFor(COMPOSE, keys, line)
    ensures TrimRight(StrTrimChar, line) != ""
  {
    var k :| k in keys && line == COMPOSE.line(k);
    ArgLineIsNotBlank(k);
  }

  lemma AddedToText(text: string, keys: seq<string>)
    requires Added(text, keys) != 0
    ensures StrTrim(text) != ""
  {
    LinesFacts(text);
    BlankIsUnchanged(keys);
  }

  lemma InjectGrown(text: string, keys: seq<string>)
    requires OneLiners(keys) && Added(text, keys) != 0
    ensures Grown(Inject(COMPOSE, LinesOf(text), keys), keys)
  {
    AddedToText(text, keys);
    LinesFacts(text);
    LinesGrown(LinesOf(text), keys, Inject(COMPOSE, LinesOf(text), keys));
  }

  lemma LinesGrown(lines: seq<string>, keys: seq<string>, out: seq<string>)
    requires OneLiners(keys) && out == Inject(COMPOSE, lines, keys)
    requires lines != [] && OneLiners(lines) && !StartsBlank(lines[0])
    requires TrimRight(StrTrimChar, lines[|lines| - 1]) == lines[|lines| - 1] != ""
    ensures Grown(out, keys)
  {
    EndsOfInject(COMPOSE, lines, keys);
    InjectIsOneLiners(lines, keys);
    if WrittenFor(COMPOSE, keys, out[|out| - 1]) { WrittenIsNotBlank(keys, out[|out| - 1]); }
  }

  lemma GrownIsReadBack(out: seq<string>, keys: seq<string>)
    requires Grown(out, keys)
    ensures LinesOf(Implode(out, '\n')) == Cut(out)
  {
    var n := |out| - 1;
    assert out == out[..n] + [out[n]];
    ReadBack(out[..n], out[n]);
  }

  /** What the next run reads: the same lines if nothing was added, and otherwise the
      injected ones with the last one cut. */
  lemma WhatIsRead(text: string, keys: seq<string>, lines: seq<string>, out: seq<string>)
    requires OneLiners(keys) && lines == LinesOf(text) && out == Inject(COMPOSE, lines, keys)
    ensures Added(text, keys) == 0 ==> LinesOf(Run(text, keys)) == lines == out
    ensures Added(text, keys) != 0 ==> Grown(out, keys) && LinesOf(Run(text, keys)) == Cut(out)
  {
    GrowthIsChange(COMPOSE, lines, keys);
    if Added(text, keys) != 0 {
      InjectGrown(text, keys);
      GrownIsReadBack(out, keys);
    }
  }

  lemma BlankIsUnchanged(keys: seq<string>)
    ensures Inject(COMPOSE, [""], keys) == [""]
  {
    assert StrTrim("") == "" && !IsFrom("");
    assert [""][1..] == [];
  }

  // ----- a second run -----

  /** What the key setter accepts: a letter or underscore, then letters, digits,
      underscores and dots. */
  predicate Letter(c: char) { 'A' <= c <= 'Z' || 'a' <= c <= 'z' || c == '_' }

  predicate AcceptedKey(key: string) {
    key != "" && Letter(key[0]) && forall i :: 0 <= i < |key| ==> Letter(key[i]) || '0' <= key[i] <= '9' || key[i] == '.'
  }

  lemma AcceptedIsClean(key: string)
    requires AcceptedKey(key)
    ensures CleanKey(key)
  {
  }

  lemma CleanIsOneLine(keys: seq<string>)
    requires forall k :: k in keys ==> CleanKey(k)
    ensures OneLiners(keys)
  {
    forall i | 0 <= i < |keys| ensures '\n' !in keys[i] {
      assert CleanKey(keys[i]);
    }
  }

  lemma CutOfClean(out: seq<string>, keys: seq<string>)
    requires Grown(out, keys) && forall k :: k in keys ==> CleanKey(k)
    ensures Cut(out) == out
  {
    var last := out[|out| - 1];
    if WrittenFor(COMPOSE, keys, last) {
      var k :| k in keys && last == COMPOSE.line(k);
      assert last == ArgLine(k) && CleanKey(k);
      TrimRightIsPrefix(StrTrimChar, last);
    }
    assert out == out[..|out| - 1] + [last];
  }

  /** For every Dockerfile, as text, and all clean keys: the second run reads exactly the
      lines that the first one made, finds everything declared and writes nothing. */
  lemma SecondRunAddsNothing(text: string, keys: seq<string>)
    requires forall k :: k in keys ==> CleanKey(k)
    ensures LinesOf(Run(text, keys)) == Inject(COMPOSE, LinesOf(text), keys)
    ensures Added(Run(text, keys), keys) == 0 && Run(Run(text, keys), keys) == Run(text, keys)
  {
    var lines := LinesOf(text);
    var out := Inject(COMPOSE, lines, keys);
    CleanIsOneLine(keys);
    WhatIsRead(text, keys, lines, out);
    if Added(text, keys) != 0 { CutOfClean(out, keys); }
    ComposeInjectionIsIdempotent(lines, keys);
  }

  lemma AcceptedKeysAreAddedOnce(text: string, keys: seq<string>)
    requires forall k :: k in keys ==> AcceptedKey(k)
    ensures Added(Run(text, keys), keys) == 0
  {
    forall k | k in keys ensures CleanKey(k) { AcceptedIsClean(k); }
    SecondRunAddsNothing(text, keys);
  }

  // ----- exactly which keys -----

  ghost predicate AddedOnce(key: string) {
    forall text :: Added(Run(text, [key]), [key]) == 0
  }

  /** Cut at the end of the file, the line of a recognisable key is read the same way. */
  lemma CutLineReadsTheSame(key: string)
    requires Recognisable(key)
    ensures SameReading(COMPOSE, ArgLine(key), TrimRight(StrTrimChar, ArgLine(key)))
  {
    var cut := TrimRight(StrTrimChar, key);
    RecognisableCut(key);
    TrimRightConcat(StrTrimChar, "ARG ", key);
    assert TrimRight(StrTrimChar, ArgLine(key)) == ArgLine(cut);
    ArgLineIsInBlock(key);
    ArgLineIsInBlock(cut);
    DeclaredInArgLine(key);
    DeclaredInArgLine(cut);
  }

  lemma RecognisableCut(key: string)
    requires Recognisable(key)
    ensures var cut := TrimRight(StrTrimChar, key);
            cut == TrimRight(TrimChar, key) == TrimRight(TrimChar, cut) != ""
  {
    var left := TrimLeft(StrTrimChar, key);
    TrimLeftStart(StrTrimChar, key);
    TrimRightIsPrefix(StrTrimChar, left);
    TrimRightIsPrefix(TrimChar, key);
    assert key != "" && StrTrim(key)[0] == left[0] && TrimRight(TrimChar, key)[0] == key[0];
    assert left == key;
    TrimRightIsPrefix(StrTrimChar, key);
    TrimRightIsPrefix(TrimChar, TrimRight(StrTrimChar, key));
  }

  lemma OneKeyWritten(key: string, line: string)
    requires WrittenFor(COMPOSE, [key], line)
    ensures line == ArgLine(key)
  {
  }

  lemma CutIsDeclared(out: seq<string>, key: string)
    requires Grown(out, [key]) && Recognisable(key) && AllDeclared(COMPOSE, out, [key])
    ensures AllDeclared(COMPOSE, Cut(out), [key])
  {
    var n := |out| - 1;
    assert out == out[..n] + [out[n]];
    if WrittenFor(COMPOSE, [key], out[n]) {
      OneKeyWritten(key, out[n]);
      CutLineReadsTheSame(key);
    }
    DeclaredOfLast(COMPOSE, out[..n], out[n], TrimRight(StrTrimChar, out[n]), [key]);
  }

  lemma RecognisableIsAddedOnce(text: string, key: string)
    requires Recognisable(key) && '\n' !in key
    ensures Added(Run(text, [key]), [key]) == 0
  {
    var lines := LinesOf(text);
    var out := Inject(COMPOSE, lines, [key]);
    SelfDeclaringIff(key);
    InjectDeclaresAll(COMPOSE, lines, [key]);
    WhatIsRead(text, [key], lines, out);
    if Added(text, [key]) != 0 { CutIsDeclared(out, key); }
    UnchangedIffAllDeclared(COMPOSE, LinesOf(Run(text, [key])), [key]);
  }

  // ----- the other keys -----

  function Runs(text: string, key: string, n: nat): string {
    if n == 0 then text else Run(Runs(text, key, n - 1), [key])
  }

  lemma CutInside(out: seq<string>, key: string)
    requires Grown(out, [key])
    ensures LackingInside(COMPOSE, Cut(out), key) == LackingInside(COMPOSE, out, key)
  {
    var n := |out| - 1;
    assert out == out[..n] + [out[n]];
    if WrittenFor(COMPOSE, [key], out[n]) {
      OneKeyWritten(key, out[n]);
      CutLineIsNoStage(key);
      ArgLineIsInBlock(key);
      InsideOfLast(COMPOSE, out[..n], out[n], TrimRight(StrTrimChar, out[n]), key);
    }
  }

  /** One run over a one-line key that is not recognisable. */
  lemma RunAddsInside(text: string, key: string)
    requires !Recognisable(key) && '\n' !in key
    ensures var inside := LackingInside(COMPOSE, LinesOf(text), key);
            && |LinesOf(Run(text, [key]))| >= |LinesOf(text)| + inside
            && LackingInside(COMPOSE, LinesOf(Run(text, [key])), key) == inside
  {
    var lines := LinesOf(text);
    var out := Inject(COMPOSE, lines, [key]);
    SelfDeclaringIff(key);
    ArgLineIsInBlock(key);
    GrowthIsLacking(COMPOSE, lines, key);
    InsideIsLacking(COMPOSE, lines, key);
    InsideStays(COMPOSE, lines, key);
    WhatIsRead(text, [key], lines, out);
    if Added(text, [key]) != 0 { CutInside(out, key); }
  }

  lemma CutLineIsNoStage(key: string)
    ensures !COMPOSE.stage(TrimRight(StrTrimChar, ArgLine(key)))
  {
    var cut := TrimRight(StrTrimChar, ArgLine(key));
    ArgLineIsNotBlank(key);
    assert cut[0] == "ARG"[0] == 'A' && TrimLeft(StrTrimChar, cut) == cut;
    TrimRightIsPrefix(StrTrimChar, ArgLine(key));
    TrimRightIsPrefix(StrTrimChar, cut);
    assert "FROM"[0] == 'F';
  }

  /** Every run adds such a key to each stage that lacks it, the last stage aside: there
      the end of the file may make it recognisable. */
  lemma {:induction false} UnrecognisedIsAddedByEveryRun(text: string, key: string, n: nat)
    requires !Recognisable(key) && '\n' !in key
    ensures var inside := LackingInside(COMPOSE, LinesOf(text), key);
            && |LinesOf(Runs(text, key, n))| >= |LinesOf(text)| + n * inside
            && LackingInside(COMPOSE, LinesOf(Runs(text, key, n)), key) == inside
  {
    var inside := LackingInside(COMPOSE, LinesOf(text), key);
    if n > 0 {
      UnrecognisedIsAddedByEveryRun(text, key, n - 1);
      RunAddsInside(Runs(text, key, n - 1), key);
      assert n * inside == (n - 1) * inside + inside;
    }
  }

  /** A file of two stages, where the first is not at the end. */
  const TWO_STAGES := "FROM\nFROM"

  lemma FromIsAStage()
    ensures StrTrim("FROM") == "FROM" && COMPOSE.stage("FROM")
  {
  }

  lemma TwoStages(key: string)
    ensures LackingInside(COMPOSE, LinesOf(TWO_STAGES), key) == 1
  {
    assert StrTrim(TWO_STAGES) == TWO_STAGES;
    assert TWO_STAGES == "FROM" + ['\n'] + "FROM";
    ExplodeOne("FROM", '\n');
    ExplodeConcat("FROM", "FROM", '\n');
    FromIsAStage();
    InsideTwo(COMPOSE, "FROM", key);
  }

  lemma UnrecognisedIsNotAddedOnce(key: string)
    requires !Recognisable(key) && '\n' !in key
    ensures !AddedOnce(key)
  {
    var again := Run(TWO_STAGES, [key]);
    TwoStages(key);
    RunAddsInside(TWO_STAGES, key);
    GrowthIsLacking(COMPOSE, LinesOf(again), key);
    InsideIsLacking(COMPOSE, LinesOf(again), key);
    assert Added(again, [key]) != 0;
  }

  // ----- keys with a line break -----

  lemma {:induction false} LeadingKeysHaveNoBreaks(lines: seq<string>, k: string)
    requires OneLiners(lines) && k in LeadingKeys(COMPOSE, lines)
    ensures '\n' !in k
  {
    if k in LeadingKeys(COMPOSE, lines[1..]) {
      LeadingKeysHaveNoBreaks(lines[1..], k);
    } else {
      DeclaredPart(lines[0]);
    }
  }

  lemma DeclaredPart(line: string)
    requires '\n' !in line
    ensures DeclaredKey(line).Some? ==> '\n' !in DeclaredKey(line).value
  {
    var left, t := TrimLeft(TrimChar, line), Trim(line);
    TrimLeftPart(TrimChar, line, '\n');
    TrimRightIsPrefix(TrimChar, left);
    assert '\n' !in t;
    match After(t, ' ')
    case None =>
    case Some(rest) =>
      AfterPart(t, ' ', '\n');
      BeforePart(rest, '=', '\n');
  }

  lemma {:induction false} TrimLeftPart(blank: char -> bool, s: string, c: char)
    requires c !in s
    ensures c !in TrimLeft(blank, s)
  {
    if s != "" && blank(s[0]) { TrimLeftPart(blank, s[1..], c); }
  }

  lemma {:induction false} AfterPart(s: string, d: char, c: char)
    requires c !in s
    ensures After(s, d).Some? ==> c !in After(s, d).value
  {
    if s != "" && s[0] != d { AfterPart(s[1..], d, c); }
  }

  lemma {:induction false} BeforePart(s: string, d: char, c: char)
    requires c !in s
    ensures c !in Before(s, d)
  {
    if s != "" && s[0] != d { BeforePart(s[1..], d, c); }
  }

  /** A key with a line break inside is never found, in any file. */
  lemma BrokenKeyIsNeverFound(text: string, key: string)
    requires '\n' in StrTrim(key)
    ensures HasStage(COMPOSE, LinesOf(text)) ==> Added(text, [key]) > 0
  {
    LinesFacts(text);
    GrowthIsLacking(COMPOSE, LinesOf(text), key);
    if HasStage(COMPOSE, LinesOf(text)) { BrokenKeyIsLacking(LinesOf(text), key); }
  }

  lemma {:induction false} BrokenKeyIsLacking(lines: seq<string>, key: string)
    requires '\n' in StrTrim(key) && OneLiners(lines) && HasStage(COMPOSE, lines)
    ensures Lacking(COMPOSE, lines, key) > 0
  {
    if COMPOSE.stage(lines[0]) {
      if StrTrim(key) in LeadingKeys(COMPOSE, lines[1..]) {
        LeadingKeysHaveNoBreaks(lines[1..], StrTrim(key));
      }
    } else {
      BrokenKeyIsLacking(lines[1..], key);
    }
  }

  lemma OneStage()
    ensures LinesOf("FROM") == ["FROM"] && HasStage(COMPOSE, LinesOf("FROM"))
  {
    FromIsAStage();
    ExplodeOne("FROM", '\n');
  }

  lemma OneStageInjected(key: string)
    ensures Inject(COMPOSE, ["FROM"], [key]) == ["FROM", ArgLine(key)]
  {
    var rest: seq<string> := ["FROM"][1..];
    FromIsAStage();
    assert rest == [] && LeadingKeys(COMPOSE, rest) == [];
    MissingOne(COMPOSE, key, []);
    assert ["FROM"] + [ArgLine(key)] + [] == ["FROM", ArgLine(key)];
  }

  lemma StartsWithStage(rest: string)
    requires TrimRight(StrTrimChar, rest) != ""
    ensures HasStage(COMPOSE, LinesOf("FROM" + ['\n'] + rest))
  {
    var text, cut := "FROM" + ['\n'] + rest, TrimRight(StrTrimChar, rest);
    assert text[0] == 'F' && TrimLeft(StrTrimChar, text) == text;
    TrimRightConcat(StrTrimChar, "FROM" + ['\n'], rest);
    ExplodeOne("FROM", '\n');
    ExplodeConcat("FROM", cut, '\n');
    FromIsAStage();
  }

  lemma BrokenIsNotAddedOnce(key: string)
    requires '\n' in StrTrim(key)
    ensures !AddedOnce(key)
  {
    OneStage();
    OneStageInjected(key);
    ArgLineIsNotBlank(key);
    var again := Run("FROM", [key]);
    BrokenKeyIsNeverFound("FROM", key);
    ImplodeLast(["FROM"], ArgLine(key), '\n');
    assert ["FROM"] + [ArgLine(key)] == ["FROM", ArgLine(key)];
    StartsWithStage(ArgLine(key));
    BrokenKeyIsNeverFound(again, key);
    assert Added(again, [key]) != 0;
  }

  /** Over all files, as text: a key is added only once exactly when it has no line break
      and is recognisable. (Line breaks among the blanks around a key are left aside.) */
  lemma AddedOnceIff(key: string)
    requires '\n' in key ==> '\n' in StrTrim(key)
    ensures AddedOnce(key) <==> '\n' !in key && Recognisable(key)
  {
    if '\n' in key {
      BrokenIsNotAddedOnce(key);
    } else if Recognisable(key) {
      forall text ensures Added(Run(text, [key]), [key]) == 0 { RecognisableIsAddedOnce(text, key); }
    } else {
      UnrecognisedIsNotAddedOnce(key);
    }
  }

  // ----- from file to file -----

  lemma {:induction false} FirstPiece(s: string, c: char, word: string)
    requires word <= s && c !in word
    ensures word <= Explode(s, c)[0]
  {
    assert Explode(s, c)[0] == Before(s, c) || (After(s, c).None? && Explode(s, c)[0] == s);
    BeforeKeeps(s, c, word);
  }

  lemma {:induction false} BeforeKeeps(s: string, c: char, word: string)
    requires word <= s && c !in word
    ensures word <= Before(s, c)
  {
    if word != "" {
      assert s[0] == word[0];
      BeforeKeeps(s[1..], c, word[1..]);
      assert Before(s, c) == [s[0]] + Before(s[1..], c);
    }
  }

  /** A line that begins with FROM gets the key, and the rest is served like a file of its own. */
  lemma FromLineGetsArg(first: string, rest: seq<string>, key: string)
    requires "FROM" <= first && CleanKey(key) && key !in LeadingKeys(COMPOSE, rest)
    ensures Inject(COMPOSE, [first] + rest, [key]) == [first, "ARG " + key] + Inject(COMPOSE, rest, [key])
  {
    var tail := Inject(COMPOSE, rest, [key]);
    IsFromIff(first);
    assert first[0..] == first && StandsFirst(StrTrimChar, first, "FROM");
    CleanKeyIsSelfDeclaring(key);
    MissingOne(COMPOSE, key, LeadingKeys(COMPOSE, rest));
    InjectCons(COMPOSE, first, rest, [key]);
    assert [first] + (["ARG " + key] + tail) == [first, "ARG " + key] + tail;
  }

  /** A file that begins with FROM: a clean key that its first stage does not declare is
      put directly after that line. */
  lemma FirstStageGetsArg(text: string, key: string)
    requires "FROM" <= StrTrim(text) && CleanKey(key)
    requires key !in LeadingKeys(COMPOSE, LinesOf(text)[1..])
    ensures var lines := LinesOf(text);
            && Added(text, [key]) > 0
            && LinesOf(Run(text, [key])) == [lines[0], "ARG " + key] + Inject(COMPOSE, lines[1..], [key])
  {
    var lines := LinesOf(text);
    var first, rest := lines[0], lines[1..];
    FirstPiece(StrTrim(text), '\n', "FROM");
    FromLineGetsArg(first, rest, key);
    assert lines == [first] + rest;
    InjectGrows(COMPOSE, rest, [key]);
    SecondRunAddsNothing(text, [key]);
  }

  lemma LineOfOne(text: string)
    requires text != "" && '\n' !in text && !StrTrimChar(text[0]) && !StrTrimChar(text[|text| - 1])
    ensures StrTrim(text) == text && LinesOf(text) == [text]
  {
    TrimRightIsPrefix(StrTrimChar, text);
    ExplodeOne(text, '\n');
  }

  /** One line is enough of a Dockerfile. */
  lemma SmallFile(image: string, key: string)
    requires CleanKey(key) && '\n' !in image && image != "" && !StrTrimChar(image[|image| - 1])
    ensures Run("FROM " + image, [key]) == "FROM " + image + "\nARG " + key
  {
    var text, arg := "FROM " + image, "ARG " + key;
    assert text[0] == 'F';
    LineOfOne(text);
    var none: seq<string> := [];
    assert [text][1..] == none && [text] == [text] + none && "FROM" <= text;
    FromLineGetsArg(text, none, key);
    assert [text, arg] + none == [text] + [arg];
    ImplodeLast([text], arg, '\n');
    assert Implode([text], '\n') == text;
  }
}
