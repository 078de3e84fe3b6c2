/** ARG injection into Dockerfiles, as the two deployment paths do it. */
module ArgInjection {
  import opened Text
  import opened StageSplicing

  /** The compose path's test for a stage. */
  predicate IsFrom(line: string) {
    StartsWith(StrTrim(line), "FROM")
  }

  predicate RegexSpace(c: char) {
    c == ' ' || c == '\t' || c == '\n' || c == '\r' || c == '\U{000B}' || c == '\U{000C}'
  }

  predicate EitherCase(c: char, upper: char, lower: char) {
    c == upper || c == lower
  }

  /** The other path's test: FROM in any case, then white space. */
  predicate IsFromInstruction(line: string) {
    var t := Trim(line);
    |t| >= 5 && EitherCase(t[0], 'F', 'f') && EitherCase(t[1], 'R', 'r')
    && EitherCase(t[2], 'O', 'o') && EitherCase(t[3], 'M', 'm') && RegexSpace(t[4])
  }

  predicate IsArg(line: string) {
    line != "" && StartsWith(StrTrim(line), "ARG")
  }

  /** The key an ARG line declares: what stands between the first space and '='. */
  function DeclaredKey(line: string): Option<string> {
    match After(Trim(line), ' ')
    case None => None
    case Some(rest) => Some(Before(rest, '='))
  }

  function ArgLine(key: string): string {
    "ARG " + key
  }

  const COMPOSE: Grammar<string> := Grammar(IsFrom, IsArg, DeclaredKey, StrTrim, ArgLine)

  /** The compose path: forward splice with offset and per-stage deduplication. */
  method InjectComposeArgs(original: seq<string>, keys: seq<string>)
    returns (lines: seq<string>, totalAdded: nat)
    ensures lines == Inject(COMPOSE, original, keys)
    ensures |lines| == |original| + totalAdded
    ensures Subsequence(original, lines)
    ensures totalAdded == 0 <==> AllDeclared(COMPOSE, original, keys)
  {
    lines, totalAdded := InjectArgs(COMPOSE, original, keys);
    OriginalLinesKeepTheirOrder(COMPOSE, original, keys);
    UnchangedIffAllDeclared(COMPOSE, original, keys);
    GrowthIsChange(COMPOSE, original, keys);
  }

  /** The Dockerfile path: reverse splice, no deduplication. */
  method InjectDockerfileArgs(original: seq<string>, args: seq<string>) returns (lines: seq<string>)
    ensures lines == AfterEach(IsFromInstruction, original, args)
  {
    lines := InsertAfterFroms(IsFromInstruction, original, args);
  }

  predicate CleanKey(key: string) {
    key != "" && forall i :: 0 <= i < |key| ==> !StrTrimChar(key[i]) && key[i] != '='
  }

  lemma ArgLineIsInBlock(key: string)
    ensures InBlock(COMPOSE, ArgLine(key))
  {
    var line := ArgLine(key);
    assert line[0] == 'A' && line == "ARG" + (" " + key);
    TrimRightKeeps(StrTrimChar, "ARG", " " + key);
    assert "ARG"[0] == StrTrim(line)[0] != "FROM"[0];
  }

  lemma CleanKeyIsSelfDeclaring(key: string)
    requires CleanKey(key)
    ensures SelfDeclaring(COMPOSE, key) && StrTrim(key) == key
  {
    ArgLineIsInBlock(key);
    var line := ArgLine(key);
    assert line[0] == 'A' && line[|line| - 1] == key[|key| - 1];
    assert Trim(line) == line;
    assert line == "ARG" + [' '] + key;
    SplitAtFirst("ARG", ' ', key);
    BeforeAbsent(key, '=');
  }

  /** With clean keys a second compose injection finds everything declared. */
  lemma ComposeInjectionIsIdempotent(lines: seq<string>, keys: seq<string>)
    requires forall k :: k in keys ==> CleanKey(k)
    ensures AllDeclared(COMPOSE, Inject(COMPOSE, lines, keys), keys)
    ensures Inject(COMPOSE, Inject(COMPOSE, lines, keys), keys) == Inject(COMPOSE, lines, keys)
  {
    forall k | k in keys ensures SelfDeclaring(COMPOSE, k) {
      CleanKeyIsSelfDeclaring(k);
    }
    InjectDeclaresAll(COMPOSE, lines, keys);
    InjectIsIdempotent(COMPOSE, lines, keys);
  }

  /** What makes a key recognisable in the line written for it: no '=', something left
      when blanks are cut off its end, and nothing more that the framework would trim. */
  predicate Recognisable(key: string) {
    '=' !in key && TrimRight(TrimChar, key) != "" && TrimRight(TrimChar, key) == StrTrim(key)
  }

  lemma DeclaredInArgLine(key: string)
    ensures DeclaredKey(ArgLine(key)) ==
            if TrimRight(TrimChar, key) == "" then None else Some(Before(TrimRight(TrimChar, key), '='))
  {
    var line, cut := ArgLine(key), TrimRight(TrimChar, key);
    assert line[0] == 'A' && TrimLeft(TrimChar, line) == line;
    TrimRightConcat(TrimChar, "ARG ", key);
    if cut == "" {
      assert "ARG "[..3] == "ARG" && "ARG "[3] == ' ';
      assert TrimRight(TrimChar, "ARG ") == TrimRight(TrimChar, "ARG") == "ARG";
      BeforeAbsent("ARG", ' ');
    } else {
      assert "ARG " + cut == "ARG" + [' '] + cut;
      SplitAtFirst("ARG", ' ', cut);
    }
  }

  lemma {:induction false} BeforeHasNone(s: string, c: char)
    ensures c !in Before(s, c)
  {
    if s != "" {
      BeforeHasNone(s[1..], c);
    }
  }

  lemma SelfDeclaringIff(key: string)
    ensures SelfDeclaring(COMPOSE, key) <==> Recognisable(key)
  {
    ArgLineIsInBlock(key);
    DeclaredInArgLine(key);
    var cut := TrimRight(TrimChar, key);
    TrimRightIn(TrimChar, key, '=');
    TrimLeftIn(StrTrimChar, key, '=');
    TrimRightIn(StrTrimChar, TrimLeft(StrTrimChar, key), '=');
    BeforeHasNone(cut, '=');
    if '=' !in key { BeforeAbsent(cut, '='); }
  }

  // ----- which lines are which -----

  /** A stage is a line on which FROM stands at the first character that the framework's
      trim keeps. */
  lemma IsFromIff(line: string)
    ensures IsFrom(line) <==> StandsFirst(StrTrimChar, line, "FROM")
  {
    TrimmedStartsWith(StrTrimChar, line, "FROM");
  }

  lemma IsArgIff(line: string)
    ensures IsArg(line) <==> StandsFirst(StrTrimChar, line, "ARG")
  {
    TrimmedStartsWith(StrTrimChar, line, "ARG");
  }

  /** FROM in any case at the first character that is not blank, a white space after it,
      and something that is not blank from there on. */
  ghost predicate InstructionAt(line: string, i: nat) {
    && i + 5 <= |line| && (forall j :: 0 <= j < i ==> TrimChar(line[j]))
    && (line[i] == 'F' || line[i] == 'f') && (line[i + 1] == 'R' || line[i + 1] == 'r')
    && (line[i + 2] == 'O' || line[i + 2] == 'o') && (line[i + 3] == 'M' || line[i + 3] == 'm')
    && line[i + 4] in " \t\n\r\U{000B}\U{000C}"
    && exists j :: i + 4 <= j < |line| && !TrimChar(line[j])
  }

  lemma SpaceInRegex(c: char)
    ensures RegexSpace(c) <==> c in " \t\n\r\U{000B}\U{000C}"
  {
    var spaces := " \t\n\r\U{000B}\U{000C}";
    assert spaces[0] == ' ' && spaces[1] == '\t' && spaces[2] == '\n' && spaces[3] == '\r';
    assert spaces[4] == '\U{000B}' && spaces[5] == '\U{000C}';
  }

  lemma InstructionIsFound(line: string, i: nat)
    requires i <= |line| && Trim(line) == TrimRight(TrimChar, line[i..])
    requires (forall j :: 0 <= j < i ==> TrimChar(line[j])) && IsFromInstruction(line)
    ensures InstructionAt(line, i)
  {
    var left, t := line[i..], Trim(line);
    TrimRightIsPrefix(TrimChar, left);
    TrimRightReaches(TrimChar, left, 4);
    assert forall k :: 0 <= k < 5 ==> t[k] == left[k] == line[i + k];
    SpaceInRegex(line[i + 4]);
    var j :| 4 <= j < |left| && !TrimChar(left[j]);
    assert line[i + j] == left[j];
  }

  lemma InstructionIsSeen(line: string, i: nat)
    requires i <= |line| && Trim(line) == TrimRight(TrimChar, line[i..]) && InstructionAt(line, i)
    ensures IsFromInstruction(line)
  {
    var left, t := line[i..], Trim(line);
    var j :| i + 4 <= j < |line| && !TrimChar(line[j]);
    assert left[j - i] == line[j];
    TrimRightIsPrefix(TrimChar, left);
    TrimRightReaches(TrimChar, left, 4);
    assert forall k :: 0 <= k < 5 ==> t[k] == left[k] == line[i + k];
    SpaceInRegex(line[i + 4]);
  }

  lemma IsFromInstructionIff(line: string)
    ensures IsFromInstruction(line) <==> exists i: nat :: InstructionAt(line, i)
  {
    var i := TrimLeftAt(TrimChar, line);
    if IsFromInstruction(line) { InstructionIsFound(line, i); }
    if k: nat :| InstructionAt(line, k) {
      assert !TrimChar(line[k]) && k == i;
      InstructionIsSeen(line, k);
    }
  }

  ghost predicate Blank(s: string) {
    forall i :: 0 <= i < |s| ==> TrimChar(s[i])
  }

  lemma {:induction false} TrimBlankLeft(pre: string, s: string)
    requires Blank(pre) && s != "" && !TrimChar(s[0])
    ensures TrimLeft(TrimChar, pre + s) == s
  {
    if pre == "" {
      assert pre + s == s;
    } else {
      assert (pre + s)[1..] == pre[1..] + s;
      TrimBlankLeft(pre[1..], s);
    }
  }

  lemma {:induction false} TrimBlankRight(s: string, post: string)
    requires Blank(post) && s != "" && !TrimChar(s[|s| - 1])
    ensures TrimRight(TrimChar, s + post) == s
  {
    if post == "" {
      assert s + post == s;
    } else {
      assert (s + post)[..|s + post| - 1] == s + post[..|post| - 1];
      TrimBlankRight(s, post[..|post| - 1]);
    }
  }

  /** The first word of an instruction. */
  predicate Word(word: string) {
    word != "" && ' ' !in word && !TrimChar(word[0])
  }

  /** A line with a default value declares what stands between the first space and '='. */
  lemma DeclaredWithDefault(pre: string, word: string, key: string, rest: string)
    requires Blank(pre) && Word(word) && '=' !in key
    ensures DeclaredKey(pre + word + " " + key + "=" + rest) == Some(key)
  {
    var fixed := word + " " + key + "=";
    var line := pre + word + " " + key + "=" + rest;
    assert line == pre + (fixed + rest) && fixed[0] == word[0];
    TrimBlankLeft(pre, fixed + rest);
    var cut := TrimRight(TrimChar, fixed + rest);
    TrimRightKeeps(TrimChar, fixed, rest);
    var tail := cut[|fixed|..];
    assert cut == word + [' '] + (key + ['='] + tail);
    SplitAtFirst(word, ' ', key + ['='] + tail);
    SplitAtFirst(key, '=', tail);
  }

  /** A line without one declares everything after the first space, up to its last
      character that is not blank. */
  lemma DeclaredWithoutDefault(pre: string, word: string, key: string, post: string)
    requires Blank(pre) && Blank(post) && Word(word) && '=' !in key && key != "" && !TrimChar(key[|key| - 1])
    ensures DeclaredKey(pre + word + " " + key + post) == Some(key)
  {
    var fixed := word + " " + key;
    assert pre + word + " " + key + post == pre + (fixed + post) && fixed[0] == word[0];
    TrimBlankLeft(pre, fixed + post);
    TrimBlankRight(fixed, post);
    assert fixed == word + [' '] + key;
    SplitAtFirst(word, ' ', key);
    BeforeAbsent(key, '=');
  }

  /** A line of one word declares nothing. */
  lemma DeclaredByOneWord(pre: string, word: string, post: string)
    requires Blank(pre) && Blank(post) && Word(word) && !TrimChar(word[|word| - 1])
    ensures DeclaredKey(pre + word + post) == None
  {
    assert pre + word + post == pre + (word + post);
    TrimBlankLeft(pre, word + post);
    TrimBlankRight(word, post);
    BeforeAbsent(word, ' ');
  }

  /** An ARG line of the user's declares its key, with or without a default. */
  lemma UserArgDeclares(key: string, rest: string, more: seq<string>)
    requires CleanKey(key)
    ensures key in LeadingKeys(COMPOSE, ["ARG " + key + "=" + rest] + more)
    ensures key in LeadingKeys(COMPOSE, ["ARG " + key] + more)
  {
    var line, plain := "ARG " + key + "=" + rest, "ARG " + key;
    assert line == "" + "ARG" + " " + key + "=" + rest && plain == "" + "ARG" + " " + key + "";
    DeclaredWithDefault("", "ARG", key, rest);
    DeclaredWithoutDefault("", "ARG", key, "");
    LineIsArg(key + "=" + rest);
    LineIsArg(key);
    assert line == "ARG " + (key + "=" + rest);
    assert ([line] + more)[1..] == more && ([plain] + more)[1..] == more;
  }

  lemma LineIsArg(rest: string)
    ensures InBlock(COMPOSE, "ARG " + rest)
  {
    ArgLineIsInBlock(rest);
  }

  /** Where both paths see the same stages and none declares a key already, they
      write the same file. */
  lemma PathsAgree(lines: seq<string>, keys: seq<string>)
    requires forall i :: 0 <= i < |lines| ==> (IsFrom(lines[i]) <==> IsFromInstruction(lines[i]))
    requires forall i, k :: 0 <= i < |lines| && IsFrom(lines[i]) && k in keys
                            ==> StrTrim(k) !in LeadingKeys(COMPOSE, lines[i + 1..])
    ensures Inject(COMPOSE, lines, keys) == AfterEach(IsFromInstruction, lines, ArgLines(COMPOSE, keys))
  {
    SplicesAgree(COMPOSE, IsFromInstruction, lines, keys);
  }
}
