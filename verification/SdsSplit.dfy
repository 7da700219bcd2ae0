/** sdssplitlen of sds.cc: splitting a byte string at every occurrence of a separator. */
module SdsSplit {
  import opened Bytes

  predicate OccursAt(t: seq<Byte>, sep: seq<Byte>, j: nat) {
    j + |sep| <= |t| && t[j..j + |sep|] == sep
  }

  function Join(tokens: seq<seq<Byte>>, sep: seq<Byte>): seq<Byte> {
    if tokens == [] then [] else if |tokens| == 1 then tokens[0] else tokens[0] + (sep + Join(tokens[1..], sep))
  }

  /** Followed by the separator, the token meets the separator no earlier than its end. */
  ghost predicate MeetsAtEnd(token: seq<Byte>, sep: seq<Byte>) {
    forall j :: 0 <= j < |token| ==> !OccursAt(token + sep, sep, j)
  }

  ghost predicate HasNone(token: seq<Byte>, sep: seq<Byte>) {
    forall j :: 0 <= j < |token| ==> !OccursAt(token, sep, j)
  }

  /** Each token ends at the first separator after its start, and the last has none. */
  ghost predicate IsGreedy(tokens: seq<seq<Byte>>, sep: seq<Byte>) {
    && (forall i :: 0 <= i < |tokens| - 1 ==> MeetsAtEnd(tokens[i], sep))
    && (tokens != [] ==> HasNone(tokens[|tokens| - 1], sep))
  }

  /** The tokens of s; the empty string has none. */
  ghost predicate IsSplit(tokens: seq<seq<Byte>>, s: seq<Byte>, sep: seq<Byte>) {
    && (tokens == [] <==> s == [])
    && Join(tokens, sep) == s
    && IsGreedy(tokens, sep)
  }

  // ----- There is only one way to split -----

  /** After the first of several tokens comes the separator. */
  lemma SeparatorFollows(b: seq<seq<Byte>>, sep: seq<Byte>)
    requires |b| > 1
    ensures OccursAt(Join(b, sep), sep, |b[0]|)
  {
  }

  /** A separator that begins within the first token is met there. */
  lemma MetInFirst(a: seq<seq<Byte>>, sep: seq<Byte>, k: nat)
    requires a != [] && OccursAt(Join(a, sep), sep, k) && k < |a[0]|
    ensures if |a| == 1 then OccursAt(a[0], sep, k) else OccursAt(a[0] + sep, sep, k)
  {
    if |a| > 1 {
      assert a[0] + sep <= Join(a, sep);
    }
  }

  lemma FirstTokensAgree(a: seq<seq<Byte>>, b: seq<seq<Byte>>, sep: seq<Byte>)
    requires sep != [] && a != [] && b != [] && IsGreedy(a, sep) && IsGreedy(b, sep)
    requires Join(a, sep) == Join(b, sep)
    ensures |a[0]| <= |b[0]|
  {
    if |b| > 1 {
      SeparatorFollows(b, sep);
      if |b[0]| < |a[0]| {
        MetInFirst(a, sep, |b[0]|);
      }
    }
  }

  /** Splitting has one answer. */
  lemma {:induction false} SplitUnique(a: seq<seq<Byte>>, b: seq<seq<Byte>>, sep: seq<Byte>)
    requires sep != [] && a != [] && b != [] && IsGreedy(a, sep) && IsGreedy(b, sep)
    requires Join(a, sep) == Join(b, sep)
    ensures a == b
    decreases |a|
  {
    FirstTokensAgree(a, b, sep);
    FirstTokensAgree(b, a, sep);
    var s, n := Join(a, sep), |a[0]|;
    assert a[0] == s[..n] && b[0] == s[..n];
    if |a| > 1 && |b| > 1 {
      assert Join(a[1..], sep) == s[n + |sep|..];
      assert Join(b[1..], sep) == s[n + |sep|..];
      SplitUnique(a[1..], b[1..], sep);
      assert a == [a[0]] + a[1..] && b == [b[0]] + b[1..];
    } else {
      assert |a| > 1 ==> |s| >= n + |sep|;
      assert |b| > 1 ==> |s| >= n + |sep|;
    }
  }

  /** Joining any list and splitting the result gives the list back if and only if no element
      lets the separator be met early, and the list is not that of one empty string, whose
      text has no tokens. */
  lemma SplitOfJoin(list: seq<seq<Byte>>, tokens: seq<seq<Byte>>, sep: seq<Byte>)
    requires sep != [] && IsSplit(tokens, Join(list, sep), sep)
    ensures tokens == list <==> IsGreedy(list, sep) && list != [[]]
  {
    if IsGreedy(list, sep) && list != [[]] && list != [] {
      assert Join(list, sep) != [] by {
        assert |list| == 1 ==> list == [list[0]];
      }
      SplitUnique(list, tokens, sep);
    }
  }

  // ----- The loop -----

  lemma {:induction false} JoinExtend(done: seq<seq<Byte>>, x: seq<Byte>, y: seq<Byte>, sep: seq<Byte>)
    ensures Join(done + [x + sep + y], sep) == Join(done + [x, y], sep)
  {
    if done == [] {
      assert [x, y][1..] == [y];
      assert x + sep + y == x + (sep + y);
    } else {
      assert (done + [x + sep + y])[1..] == done[1..] + [x + sep + y];
      assert (done + [x, y])[1..] == done[1..] + [x, y];
      JoinExtend(done[1..], x, y, sep);
    }
  }

  /** Makes room for the next element and the final one. */
  method Grow(tokens: array<seq<Byte>>, elements: nat) returns (grown: array<seq<Byte>>)
    requires elements + 1 <= tokens.Length && tokens.Length >= 2
    ensures grown.Length >= elements + 2
    ensures grown[..elements] == tokens[..elements]
    ensures grown == tokens || fresh(grown)
  {
    if tokens.Length < elements + 2 {
      grown := new seq<Byte>[tokens.Length * 2](_ => []);
      forall i | 0 <= i < elements {
        grown[i] := tokens[i];
      }
    } else {
      grown := tokens;
    }
  }

  /** The separators passed so far cut s into `done`, and none has been met since `start`. */
  ghost predicate Progress(s: seq<Byte>, sep: seq<Byte>, done: seq<seq<Byte>>, start: nat, j: nat) {
    && start <= j && start <= |s|
    && (forall i :: 0 <= i < |done| ==> MeetsAtEnd(done[i], sep))
    && (forall k :: start <= k < j ==> !OccursAt(s, sep, k))
    && Join(done + [s[start..]], sep) == s
  }

  lemma TokenFound(s: seq<Byte>, sep: seq<Byte>, done: seq<seq<Byte>>, start: nat, j: nat)
    requires sep != [] && Progress(s, sep, done, start, j) && OccursAt(s, sep, j)
    ensures Progress(s, sep, done + [s[start..j]], j + |sep|, j + |sep|)
  {
    var token, rest := s[start..j], s[j + |sep|..];
    assert s[start..] == token + sep + rest;
    JoinExtend(done, token, rest, sep);
    assert done + [token] + [rest] == done + [token, rest];
    forall k | 0 <= k < |token|
      ensures !OccursAt(token + sep, sep, k)
    {
      assert !OccursAt(s, sep, start + k);
      if k + |sep| <= |token + sep| {
        assert token + sep == s[start..j + |sep|];
        assert (token + sep)[k..k + |sep|] == s[start + k..start + k + |sep|];
      }
    }
  }

  lemma TokensComplete(s: seq<Byte>, sep: seq<Byte>, done: seq<seq<Byte>>, start: nat, j: nat)
    requires sep != [] && s != [] && Progress(s, sep, done, start, j) && j + |sep| > |s|
    ensures IsSplit(done + [s[start..]], s, sep)
  {
    var last := s[start..];
    forall k | 0 <= k < |last|
      ensures !OccursAt(last, sep, k)
    {
      if k + |sep| <= |last| {
        assert !OccursAt(s, sep, start + k);
        assert last[k..k + |sep|] == s[start + k..start + k + |sep|];
      }
    }
  }

  /** sdssplitlen; an empty separator is refused. */
  method SplitLen(s: seq<Byte>, sep: seq<Byte>) returns (ok: bool, tokens: seq<seq<Byte>>)
    ensures ok <==> sep != []
    ensures ok ==> IsSplit(tokens, s, sep)
  {
    if |sep| < 1 {
      return false, [];
    }
    var list := new seq<Byte>[5](_ => []);
    if |s| == 0 {
      return true, [];
    }
    var elements: nat, start: nat, j: nat := 0, 0, 0;
    assert Progress(s, sep, [], 0, 0) by { assert [] + [s[0..]] == [s]; }
    while j < |s| - (|sep| - 1)
      invariant fresh(list) && 2 <= list.Length && elements + 1 <= list.Length
      invariant Progress(s, sep, list[..elements], start, j)
      decreases |s| - j
    {
      list := Grow(list, elements);
      elements, start, j := Look(s, sep, list, elements, start, j);
    }
    ghost var done := list[..elements];
    TokensComplete(s, sep, done, start, j);
    Store(list, elements, s[start..]);
    tokens := list[..elements + 1];
    ok := true;
  }

  /** One turn of the loop: one more token, if the separator is at j. */
  method Look(s: seq<Byte>, sep: seq<Byte>, list: array<seq<Byte>>, n: nat, start: nat, at: nat) returns (n': nat, start': nat, j: nat)
    requires sep != [] && n + 1 < list.Length && at + |sep| <= |s| && Progress(s, sep, list[..n], start, at)
    modifies list
    ensures at < j && n' + 1 <= list.Length && Progress(s, sep, list[..n'], start', j)
  {
    n', start', j := n, start, at;
    if s[j..j + |sep|] == sep {
      TokenFound(s, sep, list[..n], start, j);
      Store(list, n, s[start..j]);
      n' := n + 1;
      start' := j + |sep|;
      j := j + |sep| - 1;
    }
    j := j + 1;
  }

  method Store(list: array<seq<Byte>>, n: nat, token: seq<Byte>)
    requires n < list.Length
    modifies list
    ensures list[..n + 1] == old(list[..n]) + [token]
  {
    list[n] := token;
  }

  /** A list joined and split again, exactly when it comes back. */
  method SplitAgain(list: seq<seq<Byte>>, sep: seq<Byte>) returns (tokens: seq<seq<Byte>>)
    requires sep != []
    ensures tokens == list <==> IsGreedy(list, sep) && list != [[]]
  {
    var ok;
    ok, tokens := SplitLen(Join(list, sep), sep);
    SplitOfJoin(list, tokens, sep);
  }
}
