/** The quoting and argument-splitting pair of sds.cc: sdscatrepr prints a byte string in
    a quoted form, and sdssplitargs parses a line of such forms. */
module SdsRepr {
  import opened Bytes
  import opened Wrappers

  const BELL: Byte := 7
  const BACKSPACE: Byte := 8
  const TAB: Byte := 9
  const NEWLINE: Byte := 10
  const RETURN: Byte := 13
  const SPACE: Byte := 32
  const QUOTE: Byte := 34
  const APOSTROPHE: Byte := 39
  const BACKSLASH: Byte := 92

  /** isspace in the C locale. */
  predicate IsSpace(c: Byte) {
    c == SPACE || 9 <= c <= 13
  }

  /** isprint in the C locale. */
  predicate IsPrint(c: Byte) {
    32 <= c <= 126
  }

  predicate IsHexDigit(c: Byte) {
    48 <= c <= 57 || 97 <= c <= 102 || 65 <= c <= 70
  }

  function HexDigitToInt(c: Byte): (n: nat)
    ensures n < 16
  {
    if 48 <= c <= 57 then c - 48
    else if 97 <= c <= 102 then c - 87
    else if 65 <= c <= 70 then c - 55
    else 0
  }

  /** One digit of the %02x conversion. */
  function HexDigit(n: nat): (c: Byte)
    requires n < 16
    ensures IsHexDigit(c) && HexDigitToInt(c) == n
  {
    if n < 10 then 48 + n else 87 + n
  }

  // ----- Printing -----

  function EscapeByte(b: Byte): (s: seq<Byte>)
    ensures 0 !in s
  {
    if b == BACKSLASH || b == QUOTE then [BACKSLASH, b]
    else if b == NEWLINE then [BACKSLASH, 110]
    else if b == RETURN then [BACKSLASH, 114]
    else if b == TAB then [BACKSLASH, 116]
    else if b == BELL then [BACKSLASH, 97]
    else if b == BACKSPACE then [BACKSLASH, 98]
    else if IsPrint(b) then [b]
    else [BACKSLASH, 120, HexDigit(b / 16), HexDigit(b % 16)]
  }

  function Escape(a: seq<Byte>): (s: seq<Byte>)
    ensures 0 !in s
  {
    if a == [] then [] else EscapeByte(a[0]) + Escape(a[1..])
  }

  function Repr(a: seq<Byte>): (s: seq<Byte>)
    ensures 0 !in s
  {
    [QUOTE] + Escape(a) + [QUOTE]
  }

  lemma {:induction false} EscapeNext(a: seq<Byte>, i: nat)
    requires i < |a|
    ensures Escape(a[..i + 1]) == Escape(a[..i]) + EscapeByte(a[i])
  {
    if i == 0 {
      assert a[..1][1..] == [];
    } else {
      assert a[..i + 1][1..] == a[1..][..i];
      assert a[..i][1..] == a[1..][..i - 1];
      EscapeNext(a[1..], i - 1);
    }
  }

  /** What is printed can be read: only printable characters, and text that needs no escape
      as it is. */
  lemma {:induction false} ReprReadable(a: seq<Byte>)
    ensures forall i :: 0 <= i < |Escape(a)| ==> 32 <= Escape(a)[i] <= 126
    ensures (forall i :: 0 <= i < |a| ==> 32 <= a[i] <= 126 && a[i] != QUOTE && a[i] != BACKSLASH) ==> Escape(a) == a
  {
    if a != [] {
      ReprReadable(a[1..]);
      ByteReadable(a[0]);
      assert forall i :: 0 <= i < |a| - 1 ==> a[1..][i] == a[i + 1];
      assert a == [a[0]] + a[1..];
    }
  }

  lemma ByteReadable(b: Byte)
    ensures forall i :: 0 <= i < |EscapeByte(b)| ==> 32 <= EscapeByte(b)[i] <= 126
    ensures 32 <= b <= 126 && b != QUOTE && b != BACKSLASH ==> EscapeByte(b) == [b]
  {
  }

  // ----- Parsing -----

  datatype Mode = Plain | Quoted | SingleQuoted

  /** A token and what follows it, or a syntax error. */
  datatype Scanned = Token(bytes: seq<Byte>, rest: seq<Byte>) | Bad

  function Unescape(c: Byte): Byte {
    if c == 110 then NEWLINE
    else if c == 114 then RETURN
    else if c == 116 then TAB
    else if c == 98 then BACKSPACE
    else if c == 97 then BELL
    else c
  }

  // A line is the contents of a C string: no NUL inside, and the end reads as NUL.

  /** What a closing quote must be followed by. */
  predicate EndsToken(s: seq<Byte>) {
    s == [] || IsSpace(s[0])
  }

  predicate IsHexEscape(s: seq<Byte>) {
    |s| >= 4 && s[0] == BACKSLASH && s[1] == 120 && IsHexDigit(s[2]) && IsHexDigit(s[3])
  }

  function HexEscape(s: seq<Byte>): Byte
    requires IsHexEscape(s)
  {
    HexDigitToInt(s[2]) * 16 + HexDigitToInt(s[3])
  }

  predicate EndsPlain(c: Byte) {
    c == SPACE || c == NEWLINE || c == RETURN || c == TAB
  }

  /** The rest of a token, scanned from inside it. */
  function Scan(s: seq<Byte>, mode: Mode, current: seq<Byte>): (r: Scanned)
    ensures r.Token? ==> |r.rest| <= |s| && (s != [] ==> |r.rest| < |s|)
    decreases s
  {
    if s == [] then (if mode.Plain? then Token(current, []) else Bad)
    else
      match mode
      case Quoted =>
        if IsHexEscape(s) then Scan(s[4..], Quoted, current + [HexEscape(s)])
        else if s[0] == BACKSLASH && |s| > 1 then Scan(s[2..], Quoted, current + [Unescape(s[1])])
        else if s[0] == QUOTE then (if EndsToken(s[1..]) then Token(current, s[1..]) else Bad)
        else Scan(s[1..], Quoted, current + [s[0]])
      case SingleQuoted =>
        if s[0] == BACKSLASH && |s| > 1 && s[1] == APOSTROPHE then Scan(s[2..], SingleQuoted, current + [APOSTROPHE])
        else if s[0] == APOSTROPHE then (if EndsToken(s[1..]) then Token(current, s[1..]) else Bad)
        else Scan(s[1..], SingleQuoted, current + [s[0]])
      case Plain =>
        if EndsPlain(s[0]) then Token(current, s[1..])
        else if s[0] == QUOTE then Scan(s[1..], Quoted, current)
        else if s[0] == APOSTROPHE then Scan(s[1..], SingleQuoted, current)
        else Scan(s[1..], Plain, current + [s[0]])
  }

  function SkipBlanks(s: seq<Byte>): (r: seq<Byte>)
    ensures |r| <= |s|
  {
    if s != [] && IsSpace(s[0]) then SkipBlanks(s[1..]) else s
  }

  function SplitArgs(s: seq<Byte>): Option<seq<seq<Byte>>>
    decreases |s|
  {
    var t := SkipBlanks(s);
    if t == [] then Some([])
    else
      match Scan(t, Plain, [])
      case Bad => None
      case Token(token, rest) =>
        match SplitArgs(rest)
        case None => None
        case Some(more) => Some([token] + more)
  }

  // ----- Parsing what was printed -----

  /** Inside quotes, one printed byte scans back to that byte. */
  lemma ScanByte(b: Byte, after: seq<Byte>, current: seq<Byte>)
    ensures Scan(EscapeByte(b) + after, Quoted, current) == Scan(after, Quoted, current + [b])
  {
    var e := EscapeByte(b);
    var s := e + after;
    assert s[|e|..] == after;
    if |e| == 4 {
      assert s[..4] == e;
      assert HexEscape(s) == b / 16 * 16 + b % 16;
    } else if |e| == 2 {
      assert s[0] == BACKSLASH && s[1] == e[1];
      assert !IsHexEscape(s);
    }
  }

  lemma ScanClose(after: seq<Byte>, current: seq<Byte>)
    requires EndsToken(after)
    ensures Scan([QUOTE] + after, Quoted, current) == Token(current, after)
  {
    assert ([QUOTE] + after)[1..] == after;
  }

  lemma {:induction false} ScanEscaped(a: seq<Byte>, after: seq<Byte>, current: seq<Byte>)
    requires EndsToken(after)
    ensures Scan(Escape(a) + ([QUOTE] + after), Quoted, current) == Token(current + a, after)
    decreases a
  {
    var close := [QUOTE] + after;
    if a == [] {
      assert Escape(a) + close == close && current + a == current;
      ScanClose(after, current);
    } else {
      ConcatAssociates(EscapeByte(a[0]), Escape(a[1..]), close);
      ConcatAssociates(current, [a[0]], a[1..]);
      assert [a[0]] + a[1..] == a;
      ScanByte(a[0], Escape(a[1..]) + close, current);
      ScanEscaped(a[1..], after, current + [a[0]]);
    }
  }

  lemma ScanRepr(a: seq<Byte>, after: seq<Byte>)
    requires EndsToken(after)
    ensures Scan(Repr(a) + after, Plain, []) == Token(a, after)
  {
    var s := Repr(a) + after;
    assert s[1..] == Escape(a) + ([QUOTE] + after);
    ScanEscaped(a, after, []);
    assert [] + a == a;
  }

  predicate Blank(s: seq<Byte>) {
    forall c :: c in s ==> IsSpace(c)
  }

  lemma {:induction false} SkipBlankPrefix(gap: seq<Byte>, s: seq<Byte>)
    requires Blank(gap) && (s == [] || !IsSpace(s[0]))
    ensures SkipBlanks(gap + s) == s
  {
    if gap == [] {
      assert gap + s == s;
    } else {
      assert (gap + s)[1..] == gap[1..] + s;
      SkipBlankPrefix(gap[1..], s);
    }
  }

  /** A line of printed arguments, each preceded by its gap, and a last gap. */
  function Layout(args: seq<seq<Byte>>, gaps: seq<seq<Byte>>): seq<Byte>
    requires |gaps| == |args| + 1
  {
    if args == [] then gaps[0]
    else gaps[0] + (Repr(args[0]) + Layout(args[1..], gaps[1..]))
  }

  /** Gaps are white space, and arguments are kept apart. */
  predicate Separates(gaps: seq<seq<Byte>>) {
    && (forall i :: 0 <= i < |gaps| ==> Blank(gaps[i]))
    && (forall i :: 0 < i < |gaps| - 1 ==> gaps[i] != [])
  }

  /** Every list of byte strings survives printing and parsing, whatever bytes the strings
      hold and however the printed forms are spaced out. */
  lemma {:induction false} SplitLayout(args: seq<seq<Byte>>, gaps: seq<seq<Byte>>)
    requires |gaps| == |args| + 1 && Separates(gaps)
    ensures SplitArgs(Layout(args, gaps)) == Some(args)
    decreases args
  {
    if args == [] {
      assert gaps[0] + [] == gaps[0];
      SkipBlankPrefix(gaps[0], []);
    } else {
      var rest := Layout(args[1..], gaps[1..]);
      SkipBlankPrefix(gaps[0], Repr(args[0]) + rest);
      assert EndsToken(rest) by { LayoutStart(args[1..], gaps[1..]); }
      ScanRepr(args[0], rest);
      SplitLayout(args[1..], gaps[1..]);
      assert args == [args[0]] + args[1..];
    }
  }

  lemma LayoutStart(args: seq<seq<Byte>>, gaps: seq<seq<Byte>>)
    requires |gaps| == |args| + 1 && Separates(gaps)
    requires args != [] ==> gaps[0] != []
    ensures EndsToken(Layout(args, gaps))
  {
  }

  /** A printed line can be passed as a C string. */
  lemma {:induction false} LayoutHasNoNul(args: seq<seq<Byte>>, gaps: seq<seq<Byte>>)
    requires |gaps| == |args| + 1 && Separates(gaps)
    ensures 0 !in Layout(args, gaps)
    decreases args
  {
    assert 0 !in gaps[0] by { assert Blank(gaps[0]); }
    if args != [] {
      LayoutHasNoNul(args[1..], gaps[1..]);
    }
  }

  /** Gaps that put single spaces between n printed forms. */
  function SpaceGaps(n: nat): (gaps: seq<seq<Byte>>)
    ensures |gaps| == n + 1 && Separates(gaps)
  {
    seq(n + 1, i => if i == 0 || i == n then [] else [SPACE])
  }

  /** The printed forms joined by single spaces. */
  function JoinReprs(args: seq<seq<Byte>>): seq<Byte> {
    Layout(args, SpaceGaps(|args|))
  }

  lemma SplitJoined(args: seq<seq<Byte>>)
    ensures SplitArgs(JoinReprs(args)) == Some(args)
  {
    SplitLayout(args, SpaceGaps(|args|));
  }

  // ----- The parser as written -----

  /** *(line + i) for the C string `line`, whose terminator may be read but not passed. */
  function At(line: seq<Byte>, i: nat): Byte
    requires i <= |line|
  {
    if i < |line| then line[i] else 0
  }

  function ModeOf(inq: bool, insq: bool): Mode {
    if inq then Quoted else if insq then SingleQuoted else Plain
  }

  /** The outcome for a line whose first tokens have been collected in `done`. */
  function Continue(done: seq<seq<Byte>>, rest: seq<Byte>): Option<seq<seq<Byte>>> {
    match SplitArgs(rest)
    case None => None
    case Some(more) => Some(done + more)
  }

  /** How one turn of the token loop ends. */
  datatype Turn = More | Done | Error

  /** The scan of the rest of the line, given how a turn ended at p in a given mode. */
  function AfterTurn(turn: Turn, line: seq<Byte>, p: nat, mode: Mode, token: seq<Byte>): Scanned
    requires p <= |line|
  {
    match turn
    case More => Scan(line[p..], mode, token)
    case Done => Token(token, line[p..])
    case Error => Bad
  }

  /** Positions as suffixes, for the steps the loop takes. */
  lemma Suffixes(line: seq<Byte>, p: nat)
    requires p <= |line|
    ensures p + 1 <= |line| ==> line[p..][1..] == line[p + 1..]
    ensures p + 2 <= |line| ==> line[p..][2..] == line[p + 2..]
    ensures p + 4 <= |line| ==> line[p..][4..] == line[p + 4..]
  {
  }

  method QuotedTurn(line: seq<Byte>, start: nat, soFar: seq<Byte>) returns (turn: Turn, p: nat, token: seq<Byte>)
    requires 0 !in line && start <= |line|
    ensures start <= p <= |line| && (turn.More? ==> start < p)
    ensures Scan(line[start..], Quoted, soFar) == AfterTurn(turn, line, p, Quoted, token)
  {
    Suffixes(line, start);
    p, token, turn := start, soFar, More;
    if At(line, p) == BACKSLASH && At(line, p + 1) == 120 && IsHexDigit(At(line, p + 2)) && IsHexDigit(At(line, p + 3)) {
      var byte := HexDigitToInt(At(line, p + 2)) * 16 + HexDigitToInt(At(line, p + 3));
      token := token + [byte];
      p := p + 3;
    } else if At(line, p) == BACKSLASH && At(line, p + 1) != 0 {
      p := p + 1;
      token := token + [Unescape(At(line, p))];
    } else if At(line, p) == QUOTE {
      if At(line, p + 1) != 0 && !IsSpace(At(line, p + 1)) {
        return Error, p, token;
      }
      turn := Done;
    } else if At(line, p) == 0 {
      return Error, p, token;
    } else {
      token := token + [At(line, p)];
    }
    p := p + 1;
  }

  method SingleQuotedTurn(line: seq<Byte>, start: nat, soFar: seq<Byte>) returns (turn: Turn, p: nat, token: seq<Byte>)
    requires 0 !in line && start <= |line|
    ensures start <= p <= |line| && (turn.More? ==> start < p)
    ensures Scan(line[start..], SingleQuoted, soFar) == AfterTurn(turn, line, p, SingleQuoted, token)
  {
    Suffixes(line, start);
    p, token, turn := start, soFar, More;
    if At(line, p) == BACKSLASH && At(line, p + 1) == APOSTROPHE {
      p := p + 1;
      token := token + [APOSTROPHE];
    } else if At(line, p) == APOSTROPHE {
      if At(line, p + 1) != 0 && !IsSpace(At(line, p + 1)) {
        return Error, p, token;
      }
      turn := Done;
    } else if At(line, p) == 0 {
      return Error, p, token;
    } else {
      token := token + [At(line, p)];
    }
    p := p + 1;
  }

  /** The loop that reads one token. */
  method ReadToken(line: seq<Byte>, start: nat) returns (ok: bool, token: seq<Byte>, p: nat)
    requires 0 !in line && start < |line|
    ensures p <= |line|
    ensures Scan(line[start..], Plain, []) == if ok then Token(token, line[p..]) else Bad
  {
    p, token := start, [];
    var inq, insq, turn := false, false, More;
    while turn.More?
      invariant p <= |line| && !(inq && insq)
      invariant Scan(line[start..], Plain, []) == AfterTurn(turn, line, p, ModeOf(inq, insq), token)
      decreases turn.More?, |line| - p
    {
      if inq {
        turn, p, token := QuotedTurn(line, p, token);
      } else if insq {
        turn, p, token := SingleQuotedTurn(line, p, token);
      } else {
        Suffixes(line, p);
        var c := At(line, p);
        if c == SPACE || c == NEWLINE || c == RETURN || c == TAB || c == 0 {
          turn := Done;
        } else if c == QUOTE {
          inq := true;
        } else if c == APOSTROPHE {
          insq := true;
        } else {
          token := token + [c];
        }
        if c != 0 {
          p := p + 1;
        }
      }
    }
    ok := turn.Done?;
  }

  /** sdssplitargs. On a syntax error the count is left at -1. */
  method SplitArgsOf(line: seq<Byte>) returns (argv: seq<seq<Byte>>, argc: int)
    requires 0 !in line
    ensures match SplitArgs(line)
            case Some(args) => argv == args && argc == |args|
            case None => argv == [] && argc == -1
  {
    argv, argc := [], 0;
    var p := 0;
    assert line[0..] == line;
    assert SplitArgs(line).Some? ==> argv + SplitArgs(line).value == SplitArgs(line).value;
    while true
      invariant p <= |line| && argc == |argv|
      invariant SplitArgs(line) == Continue(argv, line[p..])
      decreases |line| - p
    {
      ghost var before := line[p..];
      while At(line, p) != 0 && IsSpace(At(line, p))
        invariant p <= |line|
        invariant SkipBlanks(line[p..]) == SkipBlanks(before)
        invariant |before| >= |line[p..]|
        decreases |line| - p
      {
        assert line[p..][1..] == line[p + 1..];
        p := p + 1;
      }
      assert SkipBlanks(line[p..]) == line[p..];
      if At(line, p) == 0 {
        assert argv + [] == argv;
        return;
      }
      var ok, token, next := ReadToken(line, p);
      if !ok {
        return [], -1;
      }
      if SplitArgs(line[next..]).Some? {
        var more := SplitArgs(line[next..]).value;
        assert argv + ([token] + more) == argv + [token] + more;
      }
      argv, argc, p := argv + [token], argc + 1, next;
    }
  }
}
