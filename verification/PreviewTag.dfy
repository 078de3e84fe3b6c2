/** Image tags of pull-request previews. */
module PreviewTag {
  import opened Text

  const MIN_INT := -0x8000_0000_0000_0000
  const MAX_INT := 0x7FFF_FFFF_FFFF_FFFF

  function Digit(d: nat): char
    requires d < 10
  {
    ['0', '1', '2', '3', '4', '5', '6', '7', '8', '9'][d]
  }

  function Decimal(n: nat): string {
    if n < 10 then [Digit(n)] else Decimal(n / 10) + [Digit(n % 10)]
  }

  function IntText(n: int): string {
    if n < 0 then "-" + Decimal(-n) else Decimal(n)
  }

  /** The characters a Docker tag may hold. */
  predicate TagChar(c: char) {
    'A' <= c <= 'Z' || 'a' <= c <= 'z' || '0' <= c <= '9' || c == '_' || c == '.' || c == '-'
  }

  function Sanitize(s: string): string {
    if s == "" then "" else [if TagChar(s[0]) then s[0] else '-'] + Sanitize(s[1..])
  }

  predicate BlankText(s: string) {
    Trim(s) == ""
  }

  function Take(s: string, n: nat): string {
    if |s| <= n then s else s[..n]
  }

  function Prefix(pullRequest: int): string {
    "pr-" + IntText(pullRequest) + "-"
  }

  function Suffix(build: bool): string {
    if build then "-build" else ""
  }

  function Max(a: int, b: int): int {
    if a < b then b else a
  }

  /** The part between prefix and suffix; the deployment's own id stands in for a
      commit that is not known. */
  function Name(commit: string, deployment: string, room: int): string {
    var source := if commit == "HEAD" || BlankText(commit) then deployment else commit;
    var name := Take(Sanitize(source), Max(1, room));
    if name == "" then "HEAD" else name
  }

  function PreviewImageTag(pullRequest: int, commit: string, deployment: string, build: bool): string {
    Prefix(pullRequest)
    + Name(commit, deployment, 128 - |Prefix(pullRequest)| - |Suffix(build)|)
    + Suffix(build)
  }

  // ----- a legal tag -----

  ghost predicate AllTagChars(s: string) {
    forall i :: 0 <= i < |s| ==> TagChar(s[i])
  }

  lemma {:induction false} SanitizeFacts(s: string)
    ensures |Sanitize(s)| == |s| && AllTagChars(Sanitize(s))
    ensures AllTagChars(s) ==> Sanitize(s) == s
  {
    if s != "" {
      SanitizeFacts(s[1..]);
      assert s == [s[0]] + s[1..];
    }
  }

  lemma {:induction false} DecimalFacts(n: nat, digits: nat, bound: nat)
    requires digits > 0 && bound == Pow10(digits) && n < bound
    ensures 1 <= |Decimal(n)| <= digits
    ensures forall i :: 0 <= i < |Decimal(n)| ==> '0' <= Decimal(n)[i] <= '9'
    decreases digits
  {
    if n >= 10 {
      DecimalFacts(n / 10, digits - 1, Pow10(digits - 1));
    }
  }

  function Pow10(n: nat): nat {
    if n == 0 then 1 else 10 * Pow10(n - 1)
  }

  lemma NineteenDigits()
    ensures Pow10(19) == 10000000000000000000
  {
    assert Pow10(4) == 10000;
    assert Pow10(8) == 10000 * Pow10(4);
    assert Pow10(12) == 10000 * Pow10(8);
    assert Pow10(16) == 10000 * Pow10(12);
    assert Pow10(19) == 1000 * Pow10(16);
  }

  lemma PrefixFacts(pullRequest: int)
    requires MIN_INT <= pullRequest <= MAX_INT
    ensures |Prefix(pullRequest)| <= 24 && AllTagChars(Prefix(pullRequest))
  {
    NineteenDigits();
    DecimalFacts(if pullRequest < 0 then -pullRequest else pullRequest, 19, Pow10(19));
  }

  /** For every 64-bit pull-request id and every commit the tag is one Docker accepts. */
  lemma TagIsLegal(pullRequest: int, commit: string, deployment: string, build: bool)
    requires MIN_INT <= pullRequest <= MAX_INT
    ensures var tag := PreviewImageTag(pullRequest, commit, deployment, build);
            && 5 <= |tag| <= 128 && AllTagChars(tag) && tag[0] != '.' && tag[0] != '-'
  {
    PrefixFacts(pullRequest);
    NameFacts(commit, deployment, 128 - |Prefix(pullRequest)| - |Suffix(build)|);
    var name := Name(commit, deployment, 128 - |Prefix(pullRequest)| - |Suffix(build)|);
    AllTagCharsConcat(Prefix(pullRequest), name);
    AllTagCharsConcat(Prefix(pullRequest) + name, Suffix(build));
  }

  lemma AllTagCharsConcat(a: string, b: string)
    requires AllTagChars(a) && AllTagChars(b)
    ensures AllTagChars(a + b)
  {
  }

  lemma NameFacts(commit: string, deployment: string, room: int)
    requires room >= 4
    ensures 1 <= |Name(commit, deployment, room)| <= room && AllTagChars(Name(commit, deployment, room))
  {
    SanitizeFacts(if commit == "HEAD" || BlankText(commit) then deployment else commit);
  }

  // ----- distinct previews have distinct tags -----

  predicate Hex(c: char) {
    '0' <= c <= '9' || 'a' <= c <= 'f' || 'A' <= c <= 'F'
  }

  predicate CommitHash(s: string) {
    |s| == 40 && forall i :: 0 <= i < |s| ==> Hex(s[i])
  }

  lemma {:induction false} DecimalInjective(m: nat, n: nat)
    requires Decimal(m) == Decimal(n)
    ensures m == n
  {
    var a, b := Decimal(m), Decimal(n);
    assert a[|a| - 1] == Digit(m % 10) && b[|b| - 1] == Digit(n % 10);
    if m >= 10 && n >= 10 {
      assert a[..|a| - 1] == Decimal(m / 10) && b[..|b| - 1] == Decimal(n / 10);
      DecimalInjective(m / 10, n / 10);
    } else if m >= 10 {
      DecimalNotEmpty(m / 10);
    } else if n >= 10 {
      DecimalNotEmpty(n / 10);
    }
  }

  lemma DecimalNotEmpty(n: nat)
    ensures Decimal(n) != "" && Decimal(n)[0] != '-'
  {
    if n >= 10 {
      DecimalNotEmpty(n / 10);
    }
  }

  lemma IntTextInjective(m: int, n: int)
    requires IntText(m) == IntText(n)
    ensures m == n
  {
    DecimalNotEmpty(if m < 0 then -m else m);
    DecimalNotEmpty(if n < 0 then -n else n);
    if m < 0 {
      assert IntText(m)[1..] == Decimal(-m);
      assert IntText(n)[1..] == Decimal(-n);
      DecimalInjective(-m, -n);
    } else {
      DecimalInjective(m, n);
    }
  }

  lemma HashIsKept(pullRequest: int, commit: string, deployment: string, build: bool)
    requires MIN_INT <= pullRequest <= MAX_INT && CommitHash(commit)
    ensures PreviewImageTag(pullRequest, commit, deployment, build)
            == Prefix(pullRequest) + commit + Suffix(build)
  {
    PrefixFacts(pullRequest);
    SanitizeFacts(commit);
    assert Hex(commit[0]) && !TrimChar(commit[0]);
    assert Hex(commit[39]) && !TrimChar(commit[39]);
    assert Trim(commit) == commit;
  }

  lemma PartsAreUnique(p: string, c: string, s: bool, p': string, c': string, s': bool)
    requires |c| == |c'| == 40
    requires forall i :: 0 <= i < 40 ==> c[i] != '-' && c'[i] != '-'
    requires p + c + Suffix(s) == p' + c' + Suffix(s')
    ensures p == p' && c == c' && s == s'
  {
    var t := p + c + Suffix(s);
    assert if s then t[|t| - 6] == '-' else t[|t| - 6] == c[34];
    assert if s' then t[|t| - 6] == '-' else t[|t| - 6] == c'[34];
    var body := t[..|t| - |Suffix(s)|];
    assert body == p + c && body == p' + c';
    assert body[|body| - 40..] == c && body[|body| - 40..] == c';
    assert body[..|body| - 40] == p && body[..|body| - 40] == p';
  }

  /** Two previews of hashed commits share a tag only if they are the same preview. */
  lemma TagsAreDistinct(pr: int, commit: string, d: string, build: bool,
                        pr': int, commit': string, d': string, build': bool)
    requires MIN_INT <= pr <= MAX_INT && MIN_INT <= pr' <= MAX_INT
    requires CommitHash(commit) && CommitHash(commit')
    requires PreviewImageTag(pr, commit, d, build) == PreviewImageTag(pr', commit', d', build')
    ensures pr == pr' && commit == commit' && build == build'
  {
    HashIsKept(pr, commit, d, build);
    HashIsKept(pr', commit', d', build');
    forall i | 0 <= i < 40 ensures commit[i] != '-' && commit'[i] != '-' {
      assert Hex(commit[i]) && Hex(commit'[i]);
    }
    PartsAreUnique(Prefix(pr), commit, build, Prefix(pr'), commit', build');
    assert Prefix(pr)[3..|Prefix(pr)| - 1] == IntText(pr);
    assert Prefix(pr')[3..|Prefix(pr')| - 1] == IntText(pr');
    IntTextInjective(pr, pr');
  }

  // ----- what the tag says -----

  /** The number that a string of digits stands for. */
  function NumberOf(s: string): int {
    if s == "" then 0 else 10 * NumberOf(s[..|s| - 1]) + (s[|s| - 1] as int - '0' as int)
  }

  lemma {:induction false} DecimalReadsBack(n: nat)
    ensures NumberOf(Decimal(n)) == n
  {
    var d := n % 10;
    assert Digit(d) as int - '0' as int == d;
    if n < 10 {
      assert [Digit(n)][..0] == "";
    } else {
      DecimalReadsBack(n / 10);
      assert (Decimal(n / 10) + [Digit(d)])[..|Decimal(n / 10)|] == Decimal(n / 10);
    }
  }

  /** The prefix names the pull request, with its sign. */
  lemma PrefixNamesPullRequest(pullRequest: int)
    ensures var digits := Decimal(if pullRequest < 0 then -pullRequest else pullRequest);
            && NumberOf(digits) == (if pullRequest < 0 then -pullRequest else pullRequest)
            && Prefix(pullRequest) == "pr-" + (if pullRequest < 0 then "-" else "") + digits + "-"
  {
    DecimalReadsBack(if pullRequest < 0 then -pullRequest else pullRequest);
  }

  lemma {:induction false} SanitizeAt(s: string, i: nat)
    requires i < |s|
    ensures |Sanitize(s)| == |s| && Sanitize(s)[i] == if TagChar(s[i]) then s[i] else '-'
  {
    SanitizeFacts(s);
    if i > 0 { SanitizeAt(s[1..], i - 1); }
  }

  /** What the tag is made from: the deployment's id if the commit is HEAD or blank. */
  function Source(commit: string, deployment: string): string {
    if commit == "HEAD" || Trim(commit) == "" then deployment else commit
  }

  /** Between prefix and suffix stand the first characters of the source, as many as fit
      into 128, each one that a tag may not hold replaced by a dash. */
  lemma TagSpellsSource(pullRequest: int, commit: string, deployment: string, build: bool, i: nat)
    requires MIN_INT <= pullRequest <= MAX_INT && i < |Source(commit, deployment)|
    ensures var tag, source := PreviewImageTag(pullRequest, commit, deployment, build), Source(commit, deployment);
            var start, end := |Prefix(pullRequest)|, if build then "-build" else "";
            && |tag| == (if start + |source| + |end| <= 128 then start + |source| + |end| else 128)
            && Prefix(pullRequest) <= tag && tag[|tag| - |end|..] == end
            && (start + i < |tag| - |end| ==> tag[start + i] == if TagChar(source[i]) then source[i] else '-')
  {
    PrefixFacts(pullRequest);
    SanitizeAt(Source(commit, deployment), i);
  }

  lemma NothingToSpell(pullRequest: int, commit: string, build: bool)
    requires commit == "HEAD" || Trim(commit) == ""
    ensures PreviewImageTag(pullRequest, commit, "", build) == Prefix(pullRequest) + "HEAD" + if build then "-build" else ""
  {
  }
}
