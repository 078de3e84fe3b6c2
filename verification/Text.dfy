/** String primitives of the PHP runtime and of the framework's string helper, as
    far as the deployment job uses them. A string is a sequence of characters. */
module Text {

  datatype Option<+T> = None | Some(value: T)

  /** The characters removed by the runtime's own trim(). */
  predicate TrimChar(c: char) {
    c == ' ' || c == '\t' || c == '\n' || c == '\r' || c == '\0' || c == '\U{000B}'
  }

  /** The characters that the framework's string trim is taken to remove: trim()'s own,
      Unicode white space, and three invisible marks. The framework is not part of the
      repository, so the set is an assumption. */
  predicate StrTrimChar(c: char) {
    || TrimChar(c)
    || c == '\U{000C}' || c == '\U{0085}' || c == '\U{00A0}' || c == '\U{1680}'
    || '\U{2000}' <= c <= '\U{200B}' || c == '\U{200E}'
    || c == '\U{2028}' || c == '\U{2029}' || c == '\U{202F}' || c == '\U{205F}'
    || c == '\U{3000}' || c == '\U{FEFF}'
  }

  function TrimLeft(blank: char -> bool, s: string): string {
    if s != "" && blank(s[0]) then TrimLeft(blank, s[1..]) else s
  }

  function TrimRight(blank: char -> bool, s: string): string {
    if s != "" && blank(s[|s| - 1]) then TrimRight(blank, s[..|s| - 1]) else s
  }

  function Trim(s: string): string {
    TrimRight(TrimChar, TrimLeft(TrimChar, s))
  }

  function StrTrim(s: string): string {
    TrimRight(StrTrimChar, TrimLeft(StrTrimChar, s))
  }

  predicate StartsWith(s: string, prefix: string) {
    prefix <= s
  }

  /** The part of s before the first c, or all of s when c does not occur. */
  function Before(s: string, c: char): string {
    if s == "" || s[0] == c then "" else [s[0]] + Before(s[1..], c)
  }

  /** The part of s after the first c, when c occurs. */
  function After(s: string, c: char): Option<string> {
    if s == "" then None else if s[0] == c then Some(s[1..]) else After(s[1..], c)
  }

  lemma {:induction false} BeforeAbsent(s: string, c: char)
    requires c !in s
    ensures Before(s, c) == s
    ensures After(s, c) == None
  {
    if s != "" {
      BeforeAbsent(s[1..], c);
      assert s == [s[0]] + s[1..];
    }
  }

  lemma {:induction false} SplitAtFirst(a: string, c: char, b: string)
    requires c !in a
    ensures Before(a + [c] + b, c) == a
    ensures After(a + [c] + b, c) == Some(b)
  {
    var s := a + [c] + b;
    if a == "" {
      assert s[1..] == b;
    } else {
      SplitAtFirst(a[1..], c, b);
      assert s[1..] == a[1..] + [c] + b;
    }
  }

  /** A prefix whose ends are not blank survives trimming on the right. */
  lemma {:induction false} TrimRightKeeps(blank: char -> bool, a: string, b: string)
    requires a != "" && !blank(a[|a| - 1])
    ensures a <= TrimRight(blank, a + b)
  {
    var s := a + b;
    if b != "" && blank(b[|b| - 1]) {
      assert s[..|s| - 1] == a + b[..|b| - 1];
      TrimRightKeeps(blank, a, b[..|b| - 1]);
    }
  }

  lemma {:induction false} TrimRightConcat(blank: char -> bool, a: string, b: string)
    ensures TrimRight(blank, a + b) ==
            if TrimRight(blank, b) != "" then a + TrimRight(blank, b) else TrimRight(blank, a)
  {
    if b == "" {
      assert a + b == a;
    } else if blank(b[|b| - 1]) {
      assert (a + b)[..|a + b| - 1] == a + b[..|b| - 1];
      TrimRightConcat(blank, a, b[..|b| - 1]);
    }
  }

  lemma {:induction false} TrimRightIn(blank: char -> bool, s: string, c: char)
    requires !blank(c)
    ensures c in TrimRight(blank, s) <==> c in s
  {
    if s != "" && blank(s[|s| - 1]) {
      TrimRightIn(blank, s[..|s| - 1], c);
      assert s == s[..|s| - 1] + [s[|s| - 1]];
    }
  }

  lemma {:induction false} TrimLeftIn(blank: char -> bool, s: string, c: char)
    requires !blank(c)
    ensures c in TrimLeft(blank, s) <==> c in s
  {
    if s != "" && blank(s[0]) {
      TrimLeftIn(blank, s[1..], c);
      assert s == [s[0]] + s[1..];
    }
  }

  lemma {:induction false} TrimRightIsPrefix(blank: char -> bool, s: string)
    ensures TrimRight(blank, s) <= s
    ensures TrimRight(blank, s) != "" ==> !blank(TrimRight(blank, s)[|TrimRight(blank, s)| - 1])
    ensures s != "" && !blank(s[|s| - 1]) ==> TrimRight(blank, s) == s
  {
    if s != "" && blank(s[|s| - 1]) { TrimRightIsPrefix(blank, s[..|s| - 1]); }
  }

  lemma {:induction false} TrimLeftStart(blank: char -> bool, s: string)
    ensures TrimLeft(blank, s) == "" || !blank(TrimLeft(blank, s)[0])
    ensures TrimLeft(blank, s) != "" ==> |TrimLeft(blank, s)| <= |s| && TrimLeft(blank, s)[|TrimLeft(blank, s)| - 1] == s[|s| - 1]
  {
    if s != "" && blank(s[0]) { TrimLeftStart(blank, s[1..]); }
  }

  /** What stays after trimming on the left starts at the first character that is not blank. */
  lemma {:induction false} TrimLeftAt(blank: char -> bool, s: string) returns (i: nat)
    ensures i <= |s| && TrimLeft(blank, s) == s[i..]
    ensures (forall j :: 0 <= j < i ==> blank(s[j])) && (i < |s| ==> !blank(s[i]))
  {
    if s != "" && blank(s[0]) {
      var k := TrimLeftAt(blank, s[1..]);
      i := k + 1;
      assert s[1..][k..] == s[i..];
      assert forall j :: 1 <= j < i ==> s[j] == s[1..][j - 1];
    } else {
      i := 0;
      assert s[0..] == s;
    }
  }

  /** The text is longer than n after trimming on the right exactly when some character
      from n on is not blank. */
  lemma {:induction false} TrimRightReaches(blank: char -> bool, s: string, n: nat)
    ensures |TrimRight(blank, s)| > n <==> exists j :: n <= j < |s| && !blank(s[j])
  {
    if s != "" && blank(s[|s| - 1]) {
      TrimRightReaches(blank, s[..|s| - 1], n);
    }
  }

  /** The word stands at the first character that is not blank. */
  ghost predicate StandsFirst(blank: char -> bool, line: string, word: string) {
    exists i :: 0 <= i <= |line| && (forall j :: 0 <= j < i ==> blank(line[j])) && word <= line[i..]
  }

  lemma TrimmedStartsWith(blank: char -> bool, line: string, word: string)
    requires word != "" && forall i :: 0 <= i < |word| ==> !blank(word[i])
    ensures word <= TrimRight(blank, TrimLeft(blank, line)) <==> StandsFirst(blank, line, word)
  {
    var i := TrimLeftAt(blank, line);
    var left := line[i..];
    TrimRightIsPrefix(blank, left);
    if word <= left {
      assert left == word + left[|word|..];
      TrimRightKeeps(blank, word, left[|word|..]);
    }
    if k :| 0 <= k <= |line| && (forall j :: 0 <= j < k ==> blank(line[j])) && word <= line[k..] {
      assert line[k] == word[0] && !blank(line[k]);
      assert k == i;
    }
  }

  // ----- splitting -----

  function Explode(s: string, c: char): (pieces: seq<string>)
    ensures pieces != []
    decreases |s|
  {
    match After(s, c)
    case None => [s]
    case Some(rest) => AfterIsShorter(s, c); [Before(s, c)] + Explode(rest, c)
  }

  lemma {:induction false} AfterIsShorter(s: string, c: char)
    ensures After(s, c).Some? ==> |After(s, c).value| < |s|
  {
    if s != "" && s[0] != c {
      AfterIsShorter(s[1..], c);
    }
  }

  lemma {:induction false} ExplodeConcat(a: string, b: string, c: char)
    ensures Explode(a + [c] + b, c) == Explode(a, c) + Explode(b, c)
    decreases |a|
  {
    if c !in a {
      SplitAtFirst(a, c, b);
      BeforeAbsent(a, c);
    } else {
      var p, q := SplitPoint(a, c);
      SplitAtFirst(p, c, q);
      ExplodeConcat(q, b, c);
      SplitAtFirst(p, c, q + [c] + b);
      assert a + [c] + b == p + [c] + (q + [c] + b);
    }
  }

  lemma {:induction false} SplitPoint(s: string, c: char) returns (p: string, q: string)
    requires c in s
    ensures s == p + [c] + q && c !in p
  {
    if s[0] == c {
      p, q := "", s[1..];
    } else {
      var p1, q1 := SplitPoint(s[1..], c);
      p, q := [s[0]] + p1, q1;
      assert s == [s[0]] + s[1..];
    }
  }

  lemma ExplodeOne(s: string, c: char)
    requires c !in s
    ensures Explode(s, c) == [s]
  {
    BeforeAbsent(s, c);
  }

  /** implode(): the pieces with the separator between them. */
  function Implode(pieces: seq<string>, c: char): string {
    if pieces == [] then "" else if |pieces| == 1 then pieces[0] else pieces[0] + [c] + Implode(pieces[1..], c)
  }

  lemma {:induction false} ExplodeImplode(pieces: seq<string>, c: char)
    requires pieces != [] && forall i :: 0 <= i < |pieces| ==> c !in pieces[i]
    ensures Explode(Implode(pieces, c), c) == pieces
  {
    ExplodeOne(pieces[0], c);
    if |pieces| > 1 {
      ExplodeImplode(pieces[1..], c);
      ExplodeConcat(pieces[0], Implode(pieces[1..], c), c);
    }
  }

  lemma {:induction false} ImplodeExplode(s: string, c: char)
    ensures Explode(s, c) != [] && Implode(Explode(s, c), c) == s
    ensures forall i :: 0 <= i < |Explode(s, c)| ==> c !in Explode(s, c)[i]
    decreases |s|
  {
    if c in s {
      var p, q := SplitPoint(s, c);
      ExplodeOne(p, c);
      ExplodeConcat(p, q, c);
      ImplodeExplode(q, c);
      assert Explode(s, c) == [p] + Explode(q, c);
      assert ([p] + Explode(q, c))[1..] == Explode(q, c);
    } else {
      ExplodeOne(s, c);
    }
  }

  lemma {:induction false} ImplodeLast(front: seq<string>, last: string, c: char)
    ensures Implode(front + [last], c) == if front == [] then last else Implode(front, c) + [c] + last
  {
    if front != [] {
      ImplodeLast(front[1..], last, c);
      assert (front + [last])[1..] == front[1..] + [last];
    }
  }
}
