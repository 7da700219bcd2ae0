/** The functions of Go's strings package that goconfig and glog use, on code points. */
module GoStrings {

  predicate IsSpace(c: char) {
    c in {'\t', '\n', '\U{000B}', '\U{000C}', '\r', ' ', '\U{0085}', '\U{00A0}', '\U{1680}', '\U{2028}', '\U{2029}', '\U{202F}', '\U{205F}', '\U{3000}'}
    || '\U{2000}' <= c <= '\U{200A}'
  }

  /** The bytes of a code point in UTF-8. */
  function Width(c: char): (n: nat)
    ensures 1 <= n <= 4
  {
    if c < '\U{80}' then 1 else if c < '\U{800}' then 2 else if c < '\U{10000}' then 3 else 4
  }

  /** len(s): the bytes of a text. */
  function ByteLength(s: string): (n: nat)
    ensures n >= |s|
  {
    if s == [] then 0 else Width(s[0]) + ByteLength(s[1..])
  }

  predicate AllSpace(s: string) {
    forall i :: 0 <= i < |s| ==> IsSpace(s[i])
  }

  function TrimLeft(s: string): string {
    if s != [] && IsSpace(s[0]) then TrimLeft(s[1..]) else s
  }

  function TrimRight(s: string): string {
    if s != [] && IsSpace(s[|s| - 1]) then TrimRight(s[..|s| - 1]) else s
  }

  /** strings.TrimSpace. */
  function TrimSpace(s: string): string {
    TrimRight(TrimLeft(s))
  }

  predicate Trimmed(s: string) {
    s == [] || (!IsSpace(s[0]) && !IsSpace(s[|s| - 1]))
  }

  lemma {:induction false} TrimLeftOf(pre: string, s: string)
    requires AllSpace(pre) && (s == [] || !IsSpace(s[0]))
    ensures TrimLeft(pre + s) == s
  {
    if pre == [] {
      assert pre + s == s;
    } else {
      assert (pre + s)[1..] == pre[1..] + s;
      TrimLeftOf(pre[1..], s);
    }
  }

  lemma {:induction false} TrimRightOf(s: string, post: string)
    requires AllSpace(post) && (s == [] || !IsSpace(s[|s| - 1]))
    ensures TrimRight(s + post) == s
  {
    if post == [] {
      assert s + post == s;
    } else {
      assert (s + post)[..|s + post| - 1] == s + post[..|post| - 1];
      TrimRightOf(s, post[..|post| - 1]);
    }
  }

  /** The text between the surrounding space. */
  lemma TrimSpaceOf(pre: string, s: string, post: string)
    requires AllSpace(pre) && AllSpace(post) && Trimmed(s)
    ensures TrimSpace(pre + s + post) == s
  {
    if s == [] {
      assert pre + s + post == pre + post + [];
      TrimLeftOf(pre + post, []);
    } else {
      assert pre + s + post == pre + (s + post);
      TrimLeftOf(pre, s + post);
      TrimRightOf(s, post);
    }
  }

  lemma TrimSpaceSame(s: string)
    requires Trimmed(s)
    ensures TrimSpace(s) == s
  {
    TrimSpaceOf([], s, []);
    assert [] + s + [] == s;
  }

  lemma {:induction false} TrimLeftTrims(s: string)
    ensures TrimLeft(s) == [] || !IsSpace(TrimLeft(s)[0])
  {
    if s != [] && IsSpace(s[0]) {
      TrimLeftTrims(s[1..]);
    }
  }

  lemma {:induction false} TrimRightTrims(s: string)
    ensures var t := TrimRight(s); t <= s && (t == [] || !IsSpace(t[|t| - 1]))
  {
    if s != [] && IsSpace(s[|s| - 1]) {
      TrimRightTrims(s[..|s| - 1]);
    }
  }

  /** What is left has no space at either end. */
  lemma TrimSpaceTrims(s: string)
    ensures Trimmed(TrimSpace(s))
  {
    TrimLeftTrims(s);
    TrimRightTrims(TrimLeft(s));
  }

  lemma {:induction false} TrimLeftWithin(s: string)
    ensures |TrimLeft(s)| <= |s| && forall c :: c in TrimLeft(s) ==> c in s
  {
    if s != [] && IsSpace(s[0]) {
      TrimLeftWithin(s[1..]);
    }
  }

  lemma TrimSpaceWithin(s: string)
    ensures |TrimSpace(s)| <= |s| && forall c :: c in TrimSpace(s) ==> c in s
  {
    TrimLeftWithin(s);
    TrimRightTrims(TrimLeft(s));
  }

  lemma {:induction false} SplitLeft(s: string) returns (pre: string)
    ensures AllSpace(pre) && s == pre + TrimLeft(s)
  {
    if s != [] && IsSpace(s[0]) {
      var rest := SplitLeft(s[1..]);
      pre := SpaceBefore(s[0], rest, TrimLeft(s[1..]));
      assert s == [s[0]] + s[1..];
    } else {
      pre := [];
    }
  }

  lemma SpaceBefore(c: char, rest: string, s: string) returns (pre: string)
    requires IsSpace(c) && AllSpace(rest)
    ensures AllSpace(pre) && pre + s == [c] + (rest + s)
  {
    pre := [c] + rest;
  }

  lemma {:induction false} SplitRight(s: string) returns (post: string)
    ensures AllSpace(post) && s == TrimRight(s) + post
  {
    if s != [] && IsSpace(s[|s| - 1]) {
      var rest := SplitRight(s[..|s| - 1]);
      post := SpaceBehind(TrimRight(s[..|s| - 1]), rest, s[|s| - 1]);
      assert s == s[..|s| - 1] + [s[|s| - 1]];
    } else {
      post := [];
    }
  }

  lemma SpaceBehind(s: string, rest: string, c: char) returns (post: string)
    requires IsSpace(c) && AllSpace(rest)
    ensures AllSpace(post) && s + post == s + rest + [c]
  {
    post := rest + [c];
  }

  /** Every text is its trimmed form between two stretches of space. */
  lemma Surrounded(s: string) returns (pre: string, post: string)
    ensures AllSpace(pre) && AllSpace(post) && s == pre + TrimSpace(s) + post && Trimmed(TrimSpace(s))
  {
    pre := SplitLeft(s);
    post := SplitRight(TrimLeft(s));
    TrimSpaceTrims(s);
    assert s == pre + (TrimSpace(s) + post);
  }

  // ----- Searching -----

  predicate At(s: string, pat: string, i: int) {
    0 <= i <= |s| - |pat| && s[i..i + |pat|] == pat
  }

  /** strings.Index. */
  function Index(s: string, pat: string): (i: int)
    ensures i == -1 || At(s, pat, i)
  {
    IndexFrom(s, pat, 0)
  }

  function IndexFrom(s: string, pat: string, i: nat): (r: int)
    ensures r == -1 || At(s, pat, r)
    decreases |s| - i
  {
    if i + |pat| > |s| then -1 else if At(s, pat, i) then i else IndexFrom(s, pat, i + 1)
  }

  lemma {:induction false} IndexFromIs(s: string, pat: string, i: nat, n: nat)
    requires i <= n && At(s, pat, n) && forall j :: i <= j < n ==> !At(s, pat, j)
    ensures IndexFrom(s, pat, i) == n
    decreases n - i
  {
    if i < n {
      IndexFromIs(s, pat, i + 1, n);
    }
  }

  lemma IndexIs(s: string, pat: string, n: nat)
    requires At(s, pat, n) && forall j :: 0 <= j < n ==> !At(s, pat, j)
    ensures Index(s, pat) == n
  {
    IndexFromIs(s, pat, 0, n);
  }

  lemma {:induction false} IndexFromAtMost(s: string, pat: string, i: nat, n: nat)
    requires i <= n && At(s, pat, n)
    ensures 0 <= IndexFrom(s, pat, i) <= n
    decreases n - i
  {
    if !At(s, pat, i) {
      IndexFromAtMost(s, pat, i + 1, n);
    }
  }

  /** strings.LastIndex. */
  function LastIndex(s: string, pat: string): (i: int)
    ensures i == -1 || At(s, pat, i)
  {
    LastIndexFrom(s, pat, |s| - |pat|)
  }

  function LastIndexFrom(s: string, pat: string, i: int): (r: int)
    ensures r == -1 || At(s, pat, r)
    decreases i + 1
  {
    if i < 0 then -1 else if At(s, pat, i) then i else LastIndexFrom(s, pat, i - 1)
  }

  /** strings.IndexAny(s, "=:"). */
  function IndexSign(s: string): (i: int)
    ensures -1 <= i < |s| && (i >= 0 ==> s[i] == '=' || s[i] == ':')
    ensures forall j :: 0 <= j < (if i < 0 then |s| else i) ==> s[j] != '=' && s[j] != ':'
  {
    if s == [] then -1
    else if s[0] == '=' || s[0] == ':' then 0
    else
      var i := IndexSign(s[1..]);
      if i < 0 then -1 else i + 1
  }

  // ----- Lines -----

  /** The pieces between line breaks, as successive calls of ReadString return them. */
  function Lines(s: string): (lines: seq<string>)
    ensures lines != []
    decreases |s|
  {
    var i := Index(s, "\n");
    if i < 0 then [s] else [s[..i]] + Lines(s[i + 1..])
  }

  lemma LinesOf(line: string, rest: string)
    requires '\n' !in line
    ensures Lines(line + "\n" + rest) == [line] + Lines(rest)
  {
    var s := line + "\n" + rest;
    assert s[|line|..|line| + 1] == "\n";
    forall j | 0 <= j < |line|
      ensures !At(s, "\n", j)
    {
      assert s[j..j + 1][0] == line[j];
    }
    IndexIs(s, "\n", |line|);
    assert s[..|line|] == line && s[|line| + 1..] == rest;
  }

  lemma LinesOfNothing()
    ensures Lines("") == [""]
  {
  }
}
