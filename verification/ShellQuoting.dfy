/** Single-quote escaping of values and commands, read back by the shell's own
    rules and by the deployment job's own decoder. */
module ShellQuoting {
  import opened Text

  // ----- escaping -----

  /** Left-to-right replacement of every occurrence of pattern. */
  function Replace(s: string, pattern: string, with: string): string
    requires pattern != ""
    decreases |s|
  {
    if s == "" then ""
    else if pattern <= s then with + Replace(s[|pattern|..], pattern, with)
    else [s[0]] + Replace(s[1..], pattern, with)
  }

  const QUOTE := "'"
  const ESCAPED_QUOTE := "'\\''"

  function Escape(s: string): string {
    Replace(s, QUOTE, ESCAPED_QUOTE)
  }

  function Quote(s: string): string {
    QUOTE + Escape(s) + QUOTE
  }

  lemma EscapeStep(s: string)
    requires s != ""
    ensures Escape(s) == (if s[0] == '\'' then ESCAPED_QUOTE else [s[0]]) + Escape(s[1..])
  {
    assert QUOTE <= s <==> s[0] == '\'';
  }

  // ----- the shell's reading (POSIX.1-2017 Shell Command Language, section 2.2) -----

  predicate ShellBlank(c: char) {
    c == ' ' || c == '\t'
  }

  /** Characters that, unquoted, make the text more than a list of plain words. */
  predicate ShellSpecial(c: char) {
    c in "|&;<>()$`\"*?[#~!{}\n"
  }

  datatype Mode = Between | InWord | InQuotes

  /** The words of a simple command, after quote removal; None when the text has an
      unquoted special character or an open quote. */
  function Read(mode: Mode, s: string, word: string): Option<seq<string>>
    decreases |s|, mode == Between
  {
    match mode
    case Between =>
      if s == "" then Some([])
      else if ShellBlank(s[0]) then Read(Between, s[1..], "")
      else Read(InWord, s, "")
    case InWord =>
      if s == "" then Some([word])
      else if ShellBlank(s[0]) then
        (match Read(Between, s[1..], "") case None => None case Some(ws) => Some([word] + ws))
      else if s[0] == '\'' then Read(InQuotes, s[1..], word)
      else if s[0] == '\\' then
        if |s| == 1 then None
        else Read(InWord, s[2..], if s[1] == '\n' then word else word + [s[1]])
      else if ShellSpecial(s[0]) then None
      else Read(InWord, s[1..], word + [s[0]])
    case InQuotes =>
      if s == "" then None
      else if s[0] == '\'' then Read(InWord, s[1..], word)
      else Read(InQuotes, s[1..], word + [s[0]])
  }

  function Words(s: string): Option<seq<string>> {
    Read(Between, s, "")
  }

  lemma ReadEscapedQuote(rest: string, word: string)
    ensures Read(InQuotes, ESCAPED_QUOTE + rest, word) == Read(InQuotes, rest, word + ['\''])
  {
    var s := ESCAPED_QUOTE + rest;
    var s1, s2 := "\\''" + rest, "'" + rest;
    assert s[0] == '\'' && s[1..] == s1;
    assert s1[0] == '\\' && s1[1] == '\'' && s1[2..] == s2;
    assert s2[0] == '\'' && s2[1..] == rest;
    assert Read(InWord, s1, word) == Read(InWord, s2, word + ['\'']);
  }

  lemma {:induction false} ReadEscaped(v: string, rest: string, word: string)
    ensures Read(InQuotes, Escape(v) + QUOTE + rest, word) == Read(InWord, rest, word + v)
  {
    if v == "" {
      assert Escape(v) + QUOTE + rest == QUOTE + rest && (QUOTE + rest)[1..] == rest;
      assert word + v == word;
    } else {
      EscapeStep(v);
      var tail := Escape(v[1..]) + QUOTE + rest;
      assert word + v == (word + [v[0]]) + v[1..];
      ReadEscaped(v[1..], rest, word + [v[0]]);
      if v[0] == '\'' {
        assert Escape(v) + QUOTE + rest == ESCAPED_QUOTE + tail;
        ReadEscapedQuote(tail, word);
      } else {
        assert Escape(v) + QUOTE + rest == [v[0]] + tail;
      }
    }
  }

  /** A quoted value contributes exactly itself to the word being read. */
  lemma ReadQuoted(v: string, rest: string, word: string)
    ensures Read(InWord, Quote(v) + rest, word) == Read(InWord, rest, word + v)
  {
    assert (Quote(v) + rest)[1..] == Escape(v) + QUOTE + rest;
    ReadEscaped(v, rest, word);
  }

  lemma QuotedIsOneWord(v: string)
    ensures Words(Quote(v)) == Some([v])
  {
    assert Quote(v) + "" == Quote(v) && "" + v == v;
    ReadQuoted(v, "", "");
  }

  predicate PlainWord(w: string) {
    w != "" && forall i :: 0 <= i < |w| ==>
      !ShellBlank(w[i]) && !ShellSpecial(w[i]) && w[i] != '\'' && w[i] != '\\'
  }

  lemma {:induction false} ReadPlain(w: string, rest: string, word: string)
    requires w == "" || PlainWord(w)
    ensures Read(InWord, w + rest, word) == Read(InWord, rest, word + w)
  {
    if w == "" {
      assert w + rest == rest && word + w == word;
    } else {
      assert w[1..] == "" || PlainWord(w[1..]);
      ReadPlain(w[1..], rest, word + [w[0]]);
      assert (w + rest)[1..] == w[1..] + rest;
      assert word + w == (word + [w[0]]) + w[1..];
    }
  }

  lemma ReadWordThen(w: string, rest: string, ws: seq<string>)
    requires PlainWord(w) && Words(rest) == Some(ws)
    ensures Words(w + " " + rest) == Some([w] + ws)
  {
    var s := " " + rest;
    assert w + " " + rest == w + s && s[1..] == rest && (w + s)[0] == w[0];
    ReadPlain(w, s, "");
    assert "" + w == w;
  }

  // ----- the deployment commands -----

  /** Line breaks of a user's command become spaces, in the order the source does it. */
  function OneLine(command: string): string {
    Replace(Replace(Replace(command, "\r\n", " "), "\r", " "), "\n", " ")
  }

  lemma {:induction false} ReplaceLeaves(s: string, pattern: string, with: string, c: char)
    requires pattern != "" && c !in with && (c !in s || pattern == [c])
    ensures c !in Replace(s, pattern, with)
    decreases |s|
  {
    if s != "" {
      if pattern <= s {
        ReplaceLeaves(s[|pattern|..], pattern, with, c);
      } else {
        assert pattern == [c] ==> s[0] != c;
        ReplaceLeaves(s[1..], pattern, with, c);
      }
    }
  }

  lemma OneLineHasNoBreaks(command: string)
    ensures '\r' !in OneLine(command) && '\n' !in OneLine(command)
  {
    var a := Replace(command, "\r\n", " ");
    var b := Replace(a, "\r", " ");
    ReplaceLeaves(a, "\r", " ", '\r');
    ReplaceLeaves(b, "\n", " ", '\r');
    ReplaceLeaves(b, "\n", " ", '\n');
  }

  /** The same in one pass: each line break, of whatever kind, is one space, and nothing
      else changes. */
  function Flat(s: string): string
    decreases |s|
  {
    if s == "" then ""
    else if |s| >= 2 && s[0] == '\r' && s[1] == '\n' then " " + Flat(s[2..])
    else if s[0] == '\r' || s[0] == '\n' then " " + Flat(s[1..])
    else [s[0]] + Flat(s[1..])
  }

  lemma ReplaceOne(c: char, rest: string, p: char)
    ensures Replace([c] + rest, [p], " ") == (if c == p then " " else [c]) + Replace(rest, [p], " ")
  {
    var s := [c] + rest;
    assert s[0] == c && s[1..] == rest;
    assert [p] <= s <==> c == p;
  }

  /** What the later two replacements do to one character and the rest. */
  lemma ThenTheOthers(c: char, rest: string)
    ensures Replace(Replace([c] + rest, "\r", " "), "\n", " ")
            == (if c == '\r' || c == '\n' then " " else [c]) + Replace(Replace(rest, "\r", " "), "\n", " ")
  {
    var mid := Replace(rest, "\r", " ");
    ReplaceOne(c, rest, '\r');
    ReplaceOne(if c == '\r' then ' ' else c, mid, '\n');
  }

  lemma {:induction false} OneLineIsFlat(s: string)
    ensures OneLine(s) == Flat(s)
    decreases |s|
  {
    if s != "" {
      if "\r\n" <= s {
        assert s[0] == "\r\n"[0] && s[1] == "\r\n"[1];
        OneLineIsFlat(s[2..]);
        ThenTheOthers(' ', Replace(s[2..], "\r\n", " "));
      } else {
        OneLineIsFlat(s[1..]);
        ThenTheOthers(s[0], Replace(s[1..], "\r\n", " "));
      }
    }
  }

  /** Plain words, then text that is already quoted, separated by spaces. */
  function CommandLine(words: seq<string>, last: string): string {
    if words == [] then last else words[0] + " " + CommandLine(words[1..], last)
  }

  lemma {:induction false} CommandLineWords(words: seq<string>, v: string)
    requires forall i :: 0 <= i < |words| ==> PlainWord(words[i])
    ensures Words(CommandLine(words, Quote(v))) == Some(words + [v])
  {
    if words == [] {
      QuotedIsOneWord(v);
      assert words + [v] == [v];
    } else {
      CommandLineWords(words[1..], v);
      ReadWordThen(words[0], CommandLine(words[1..], Quote(v)), words[1..] + [v]);
      assert words + [v] == [words[0]] + (words[1..] + [v]);
    }
  }

  /** The command line that runs a user's command inside a container. */
  function ExecCommand(container: string, command: string): string {
    CommandLine(["docker", "exec", container, "sh", "-c"], Quote(OneLine(command)))
  }

  /** The shell passes the user's command, whatever it holds, as one argument. */
  lemma ExecCommandWords(container: string, command: string)
    requires PlainWord(container)
    ensures Words(ExecCommand(container, command))
            == Some(["docker", "exec", container, "sh", "-c", OneLine(command)])
    ensures '\r' !in OneLine(command) && '\n' !in OneLine(command)
  {
    var words := ["docker", "exec", container, "sh", "-c"];
    CommandLineWords(words, OneLine(command));
    assert words + [OneLine(command)] == ["docker", "exec", container, "sh", "-c", OneLine(command)];
    OneLineHasNoBreaks(command);
  }

  // ----- the decoder for Dockerfile ARGs -----

  function Strip(value: string): string {
    if |value| < 2 then "" else value[1..|value| - 1]
  }

  /** KEY='value' becomes KEY=value; anything else stays as it is. */
  function ArgAssignment(assignment: string): string {
    match After(assignment, '=')
    case None => assignment
    case Some(value) =>
      var plain :=
        if value != "" && value[0] == '\'' && value[|value| - 1] == '\'' then
          Replace(Strip(value), ESCAPED_QUOTE, QUOTE)
        else value;
      Before(assignment, '=') + "=" + plain
  }

  /** A text without '=', or whose value is not between single quotes, stays as it is. */
  lemma UnquotedStays(key: string, value: string)
    requires '=' !in key
    ensures ArgAssignment(key) == key
    ensures value == "" || value[0] != '\'' || value[|value| - 1] != '\'' ==>
              ArgAssignment(key + "=" + value) == key + "=" + value
  {
    BeforeAbsent(key, '=');
    SplitAtFirst(key, '=', value);
    assert key + "=" + value == key + ['='] + value;
  }

  lemma {:induction false} UnescapeEscape(v: string)
    ensures Replace(Escape(v), ESCAPED_QUOTE, QUOTE) == v
  {
    if v != "" {
      UnescapeEscape(v[1..]);
      EscapeStep(v);
      var e := Escape(v);
      if v[0] == '\'' {
        assert e[|ESCAPED_QUOTE|..] == Escape(v[1..]);
      } else {
        assert e[0] == v[0] != ESCAPED_QUOTE[0] && e[1..] == Escape(v[1..]);
      }
      assert v == [v[0]] + v[1..];
    }
  }

  lemma DecoderInvertsQuoting(key: string, v: string)
    requires '=' !in key
    ensures ArgAssignment(key + "=" + Quote(v)) == key + "=" + v
  {
    SplitAtFirst(key, '=', Quote(v));
    assert key + ['='] + Quote(v) == key + "=" + Quote(v);
    assert Strip(Quote(v)) == Escape(v);
    UnescapeEscape(v);
  }

  // ----- a whole list of variables -----

  datatype Variable = Variable(key: string, value: string)

  function Assignment(x: Variable): string {
    x.key + "=" + Quote(x.value)
  }

  /** The text the job keeps: every assignment followed by a space. */
  function Encode(xs: seq<Variable>): string {
    if xs == [] then "" else Assignment(xs[0]) + " " + Encode(xs[1..])
  }

  function Keep(piece: string): seq<string> {
    if piece == "" || piece == "0" then [] else [piece]
  }

  /** The pieces the runtime regards as non-empty. */
  function Truthy(pieces: seq<string>): seq<string> {
    if pieces == [] then [] else Keep(pieces[0]) + Truthy(pieces[1..])
  }

  function MapAssignments(pieces: seq<string>): seq<string> {
    if pieces == [] then [] else [ArgAssignment(pieces[0])] + MapAssignments(pieces[1..])
  }

  /** How the job reads its own text back when it writes ARG lines. */
  function Decode(s: string): seq<string> {
    MapAssignments(Truthy(Explode(Trim(s), ' ')))
  }

  function Plain(xs: seq<Variable>): seq<string> {
    if xs == [] then [] else [xs[0].key + "=" + xs[0].value] + Plain(xs[1..])
  }

  predicate ValidKey(key: string) {
    key != "" && '=' !in key && ' ' !in key && !TrimChar(key[0])
  }

  lemma TruthyCons(p: string, rest: seq<string>)
    ensures Truthy([p] + rest) == Keep(p) + Truthy(rest)
  {
    assert ([p] + rest)[1..] == rest;
  }

  lemma Associative(x: seq<string>, y: seq<string>, z: seq<string>)
    ensures x + (y + z) == x + y + z
  {
  }

  lemma {:induction false} TruthyConcat(a: seq<string>, b: seq<string>)
    ensures Truthy(a + b) == Truthy(a) + Truthy(b)
  {
    if a == [] {
      assert a + b == b;
    } else {
      var p, rest := a[0], a[1..];
      TruthyConcat(rest, b);
      TruthyCons(p, rest + b);
      TruthyCons(p, rest);
      Associative([p], rest, b);
      Associative(Keep(p), Truthy(rest), Truthy(b));
      assert a == [p] + rest;
    }
  }

  lemma {:induction false} EscapeKeeps(v: string, c: char)
    requires c != '\'' && c != '\\'
    ensures c in Escape(v) <==> c in v
  {
    if v != "" {
      EscapeStep(v);
      EscapeKeeps(v[1..], c);
      assert c in v <==> v[0] == c || c in v[1..];
    }
  }

  lemma TruthyOne(s: string)
    requires |s| > 1
    ensures Truthy([s]) == [s]
  {
    assert [s][1..] == [];
  }

  function Pieces(x: Variable): seq<string> {
    Truthy(Explode(Assignment(x), ' '))
  }

  lemma {:induction false} EndsInQuote(s: string)
    requires s != "" && s[|s| - 1] == '\''
    ensures Truthy(Explode(s, ' ')) != []
    decreases |s|
  {
    if ' ' in s {
      var p, q := SplitPoint(s, ' ');
      SplitAtFirst(p, ' ', q);
      assert q != "" && q[|q| - 1] == s[|s| - 1];
      EndsInQuote(q);
      TruthyConcat([p], Explode(q, ' '));
    } else {
      BeforeAbsent(s, ' ');
    }
  }

  /** An assignment stays in one piece exactly when its value has no space. */
  lemma OnePieceIffNoSpace(x: Variable)
    requires ValidKey(x.key)
    ensures ' ' !in x.value ==> Pieces(x) == [Assignment(x)]
    ensures ' ' in x.value ==> |Pieces(x)| >= 2
  {
    EscapeKeeps(x.value, ' ');
    var s := Assignment(x);
    assert s == (x.key + "='") + Escape(x.value) + QUOTE;
    if ' ' in x.value {
      var p, q := SplitPoint(Escape(x.value), ' ');
      var head := x.key + "='" + p;
      assert s == head + [' '] + (q + QUOTE);
      SplitAtFirst(head, ' ', q + QUOTE);
      TruthyConcat([head], Explode(q + QUOTE, ' '));
      EndsInQuote(q + QUOTE);
    } else {
      assert ' ' !in s;
      BeforeAbsent(s, ' ');
      assert |s| > 1;
      TruthyOne(s);
    }
  }

  /** The pieces of the whole text are the pieces of the assignments in order. */
  function AllPieces(xs: seq<Variable>): seq<string> {
    if xs == [] then [] else Pieces(xs[0]) + AllPieces(xs[1..])
  }

  /** The assignments with single spaces between them. */
  function Joined(xs: seq<Variable>): string
    requires xs != []
  {
    if |xs| == 1 then Assignment(xs[0]) else Assignment(xs[0]) + " " + Joined(xs[1..])
  }

  lemma {:induction false} EncodeIsJoined(xs: seq<Variable>)
    requires xs != []
    ensures Encode(xs) == Joined(xs) + " "
  {
    if |xs| > 1 {
      EncodeIsJoined(xs[1..]);
    } else {
      assert Encode(xs[1..]) == "";
    }
  }

  lemma {:induction false} JoinedEnds(xs: seq<Variable>)
    requires xs != [] && forall x :: x in xs ==> ValidKey(x.key)
    ensures Joined(xs) != "" && Joined(xs)[|Joined(xs)| - 1] == '\'' && !TrimChar(Joined(xs)[0])
  {
    var a := Assignment(xs[0]);
    assert a != "" && a[0] == xs[0].key[0] && a[|a| - 1] == '\'';
    if |xs| > 1 {
      JoinedEnds(xs[1..]);
    }
  }

  lemma PiecesConcat(a: string, b: string)
    ensures Truthy(Explode(a + " " + b, ' ')) == Truthy(Explode(a, ' ')) + Truthy(Explode(b, ' '))
  {
    ExplodeConcat(a, b, ' ');
    TruthyConcat(Explode(a, ' '), Explode(b, ' '));
  }

  lemma {:induction false} JoinedPieces(xs: seq<Variable>)
    requires xs != []
    ensures Truthy(Explode(Joined(xs), ' ')) == AllPieces(xs)
  {
    if |xs| > 1 {
      JoinedPieces(xs[1..]);
      PiecesConcat(Assignment(xs[0]), Joined(xs[1..]));
    } else {
      assert AllPieces(xs[1..]) == [];
    }
  }

  lemma TrimOneSpace(s: string)
    requires s != "" && !TrimChar(s[0]) && !TrimChar(s[|s| - 1])
    ensures Trim(s + " ") == s
  {
    var t := s + " ";
    assert t[|t| - 1] == ' ' && t[..|t| - 1] == s && t[0] == s[0];
    assert TrimRight(TrimChar, t) == TrimRight(TrimChar, s);
  }

  lemma {:induction false} MapKeepsLength(pieces: seq<string>)
    ensures |MapAssignments(pieces)| == |pieces|
  {
    if pieces != [] {
      MapKeepsLength(pieces[1..]);
    }
  }

  lemma {:induction false} PiecesCount(xs: seq<Variable>)
    requires forall x :: x in xs ==> ValidKey(x.key)
    ensures |AllPieces(xs)| >= |xs| == |Plain(xs)|
    ensures (exists x :: x in xs && ' ' in x.value) ==> |AllPieces(xs)| > |xs|
    ensures (forall x :: x in xs ==> ' ' !in x.value) ==> MapAssignments(AllPieces(xs)) == Plain(xs)
  {
    if xs != [] {
      OnePieceIffNoSpace(xs[0]);
      PiecesCount(xs[1..]);
      assert forall x :: x in xs <==> x == xs[0] || x in xs[1..];
      if ' ' !in xs[0].value {
        DecoderInvertsQuoting(xs[0].key, xs[0].value);
        assert AllPieces(xs)[0] == Assignment(xs[0]) && AllPieces(xs)[1..] == AllPieces(xs[1..]);
      }
    }
  }

  /** The job recovers its variables exactly when no value contains a space: it
      splits the quoted text at every space without looking at the quotes. */
  lemma DecodeRecoversIffNoSpaces(xs: seq<Variable>)
    requires xs != [] && forall x :: x in xs ==> ValidKey(x.key)
    ensures Decode(Encode(xs)) == Plain(xs) <==> forall x :: x in xs ==> ' ' !in x.value
  {
    EncodeIsJoined(xs);
    JoinedEnds(xs);
    TrimOneSpace(Joined(xs));
    JoinedPieces(xs);
    MapKeepsLength(AllPieces(xs));
    PiecesCount(xs);
  }
}
