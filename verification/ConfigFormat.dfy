/** One line of a configuration file: how write.go prints an entry, and how read.go takes a
    line apart. */
module ConfigFormat {
  import opened GoStrings
  import opened Wrappers
  import opened Bytes

  const Tick := "`"
  const Quote := "\""
  const Triple := "\"\"\""

  // ----- Printing -----

  function Wrapped(s: string): string {
    if '`' in s then (if '"' in s then Triple + s + Triple else Quote + s + Quote) else Tick + s + Tick
  }

  function PrintKey(key: string): string
    requires key != []
  {
    var name := if key[0] == '#' then "-" else key;
    if '=' in name || ':' in name then Wrapped(name) else name
  }

  function PrintValue(value: string): string {
    if '`' in value then (if '"' in value then Triple + value + Triple else Quote + value + Quote) else value
  }

  function Sign(pretty: bool): string {
    if pretty then " = " else "="
  }

  function PrintEntry(key: string, value: string, pretty: bool): string
    requires key != []
  {
    PrintKey(key) + Sign(pretty) + PrintValue(value)
  }

  function PrintHeader(section: string): string {
    "[" + section + "]"
  }

  // ----- Parsing -----

  datatype Line = Blank | Comment | Header(name: string) | Entry(key: string, value: string) | Malformed

  predicate StartsTriple(s: string) {
    |s| >= 3 && s[..3] == Triple
  }

  function KeyQuote(line: string): (quote: string)
    requires line != []
  {
    if line[0] == '"' then (if ByteLength(line) >= 6 && StartsTriple(line) then Triple else Quote)
    else if line[0] == '`' then Tick
    else ""
  }

  function ValueQuote(right: string): string {
    if ByteLength(right) >= 2 && right[0] == '`' then Tick
    else if ByteLength(right) >= 6 && StartsTriple(right) then Triple
    else ""
  }

  /** The value, from the trimmed text to the right of the sign. */
  function ParseValue(right: string): Option<string> {
    var quote := ValueQuote(right);
    if quote != "" then
      var pos := LastIndex(right[|quote|..], quote);
      if pos < 0 then None else Some(right[|quote|..|quote| + pos])
    else Some(TrimSpace(right))
  }

  /** The branches of the line switch, on a trimmed line. */
  function ParseLine(line: string): Line {
    if line == [] then Blank
    else if line[0] == '#' || line[0] == ';' then Comment
    else if line[0] == '[' && line[|line| - 1] == ']' then Header(TrimSpace(line[1..|line| - 1]))
    else ParseEntry(line)
  }

  function ParseEntry(line: string): Line
    requires line != []
  {
    var quote := KeyQuote(line);
    if quote != "" then
      var cut := CutQuoted(line, quote);
      if cut.None? then Malformed else MakeEntry(line[|quote|..cut.value.0], ParseValue(TrimSpace(line[cut.value.1..])))
    else
      var i := IndexSign(line);
      if i <= 0 then Malformed else MakeEntry(TrimSpace(line[..i]), ParseValue(TrimSpace(line[i + 1..])))
  }

  /** Where the quoted key ends, and where what follows the sign begins. */
  function CutQuoted(line: string, quote: string): (cut: Option<(int, int)>)
    requires |quote| <= |line|
    ensures cut.Some? ==> |quote| <= cut.value.0 <= cut.value.1 <= |line|
  {
    var pos := Index(line[|quote|..], quote);
    if pos < 0 then None
    else
      var i := IndexSign(line[|quote| + pos..]);
      if i <= 0 then None else Some((|quote| + pos, |quote| + pos + i + 1))
  }

  function MakeEntry(key: string, value: Option<string>): Line {
    if value.Some? then Entry(key, value.value) else Malformed
  }

  // ----- Values -----

  /** What survives being written and read. */
  predicate ValueKept(v: string) {
    if '`' in v then '"' in v else Trimmed(v) && !(ByteLength(v) >= 6 && StartsTriple(v))
  }

  lemma PrintedValueTrimmed(v: string)
    requires ValueKept(v)
    ensures Trimmed(PrintValue(v))
  {
  }

  lemma TripleRead(v: string)
    ensures ParseValue(Triple + v + Triple) == Some(v)
  {
    var right := Triple + v + Triple;
    assert right[..3] == Triple && right[3..] == v + Triple;
    assert (v + Triple)[|v|..|v| + 3] == Triple;
    assert right[3..3 + |v|] == v;
  }

  /** A value is read back as it was if and only if it has both a backtick and a double quote,
      or has no backtick, no outer space and, if it is six bytes or longer, no leading triple
      quote. */
  lemma ValueRoundTrip(v: string)
    ensures ParseValue(TrimSpace(PrintValue(v))) == Some(v) <==> ValueKept(v)
  {
    if '`' in v {
      var q := if '"' in v then Triple else Quote;
      TrimSpaceSame(q + v + q);
      if '"' in v {
        TripleRead(v);
      } else {
        assert (Quote + v + Quote)[..3][1] == v[0];
      }
    } else {
      TrimSpaceTrims(v);
      TrimSpaceWithin(v);
      TrimSpaceSame(TrimSpace(v));
      if Trimmed(v) {
        TrimSpaceSame(v);
      }
    }
  }

  /** A value with a backtick and no double quote comes back with quotes around it. */
  lemma BacktickValueChanges(v: string)
    requires '`' in v && '"' !in v
    ensures ParseValue(TrimSpace(PrintValue(v))) == Some(Quote + v + Quote)
  {
    TrimSpaceSame(Quote + v + Quote);
    assert (Quote + v + Quote)[..3][1] == v[0];
  }

  /** A triple quote and one character of three bytes or more is long enough to be taken for
      the start of a quoted value, and is refused. */
  lemma ShortTripleRefused(c: char)
    requires Width(c) >= 3 && !IsSpace(c)
    ensures ParseValue(TrimSpace(PrintValue(Triple + [c]))) == None
  {
    var v := Triple + [c];
    assert PrintValue(v) == v && v[..3] == Triple && v[3..] == [c];
    TrimSpaceSame(v);
    ByteLengthOfQuoted(c);
    assert LastIndex([c], Triple) == -1;
  }

  lemma ByteLengthOfQuoted(c: char)
    ensures ByteLength(Triple + [c]) == 3 + Width(c)
  {
    var v := Triple + [c];
    assert v[1..] == ['"', '"', c] && ['"', '"', c][1..] == ['"', c] && ['"', c][1..] == [c];
    assert ByteLength(v) == 1 + ByteLength(['"', '"', c]);
    assert ByteLength(['"', '"', c]) == 1 + ByteLength(['"', c]);
    assert ByteLength(['"', c]) == 1 + ByteLength([c]);
    assert ByteLength([c]) == Width(c) + ByteLength([c][1..]);
  }

  // ----- Keys -----

  predicate Signed(k: string) {
    '=' in k || ':' in k
  }

  /** The triple quote, if it comes to that, ends where the key does. */
  predicate Wrappable(k: string) {
    '`' in k && '"' in k ==> k[|k| - 1] != '"' && forall j :: 0 <= j <= |k| ==> !At(k, Triple, j)
  }

  /** What survives being written and read: quoted keys without an inner triple quote; other
      keys unless they are padded or look like a comment or a quote. */
  predicate KeyKept(k: string) {
    && k != [] && k[0] != '#'
    && if Signed(k) then Wrappable(k) else Trimmed(k) && k[0] !in {';', '"', '`'}
  }

  /** The whole line has the form of a section header. */
  predicate LooksLikeHeader(k: string, v: string) {
    k != [] && !Signed(k) && k[0] == '[' && v != [] && '`' !in v && v[|v| - 1] == ']'
  }

  predicate EntryKept(k: string, v: string) {
    KeyKept(k) && ValueKept(v) && !LooksLikeHeader(k, v)
  }

  function QuoteOf(k: string): (q: string)
    ensures q != "" && NoSign(q)
  {
    if '`' in k then (if '"' in k then Triple else Quote) else Tick
  }

  /** The quote, put around a key, ends where the key does. */
  predicate Encloses(q: string, k: string) {
    if q == Triple then (k != [] ==> k[|k| - 1] != '"') && forall j :: 0 <= j <= |k| ==> !At(k, Triple, j)
    else (q == Tick && '`' !in k) || (q == Quote && '"' !in k)
  }

  lemma QuoteEnds(k: string, q: string, rest: string)
    requires Encloses(q, k)
    ensures Index(k + (q + rest), q) == |k|
  {
    var s := k + (q + rest);
    assert s[|k|..|k| + |q|] == q;
    forall j | 0 <= j < |k|
      ensures !At(s, q, j)
    {
      if q == Triple {
        assert !At(k, Triple, j);
        if j + 3 <= |k| {
          assert s[j..j + 3] == k[j..j + 3];
        } else {
          assert s[j..j + 3][|k| - 1 - j] == k[|k| - 1];
        }
      } else {
        assert s[j..j + 1][0] == k[j];
      }
    }
    IndexIs(s, q, |k|);
  }

  /** And too early, if it is not. */
  lemma QuoteEndsEarly(k: string, q: string, rest: string)
    requires k != [] && !Wrappable(k) && q == QuoteOf(k)
    ensures 0 <= Index(k + (q + rest), q) < |k|
  {
    var s := k + (q + rest);
    var j := |k| - 1;
    if k[j] == '"' {
      assert s[j..j + 3] == [s[j], s[j + 1], s[j + 2]];
    } else {
      j :| 0 <= j <= |k| && At(k, Triple, j);
      assert s[j..j + 3] == k[j..j + 3];
    }
    IndexFromAtMost(s, q, 0, j);
  }

  lemma SignIs(s: string, i: nat)
    requires i < |s| && s[i] == '=' && forall j :: 0 <= j < i ==> s[j] != '=' && s[j] != ':'
    ensures IndexSign(s) == i
  {
  }

  lemma SlicedThrice(a: string, b: string, c: string)
    ensures (a + (b + c))[|a|..] == b + c
    ensures (a + (b + c))[|a|..|a| + |b|] == b && (a + (b + c))[|a| + |b|..] == c
  {
  }

  /** A run of characters, a sign, and what follows it. */
  lemma SignAfter(before: string, sign: char, right: string)
    requires NoSign(before) && (sign == '=' || sign == ':')
    ensures IndexSign(before + ([sign] + right)) == |before|
    ensures (before + ([sign] + right))[..|before|] == before && (before + ([sign] + right))[|before| + 1..] == right
  {
    SignSlices(before, sign, right);
    SignFound(before, sign, right);
  }

  lemma SignSlices(before: string, sign: char, right: string)
    ensures (before + ([sign] + right))[..|before|] == before && (before + ([sign] + right))[|before| + 1..] == right
  {
  }

  lemma {:induction false} SignFound(before: string, sign: char, right: string)
    requires NoSign(before) && (sign == '=' || sign == ':')
    ensures IndexSign(before + ([sign] + right)) == |before|
  {
    var s := before + ([sign] + right);
    if before != [] {
      assert s[0] == before[0] && s[1..] == before[1..] + ([sign] + right);
      SignFound(before[1..], sign, right);
    } else {
      assert s[0] == sign;
    }
  }

  predicate NoSign(s: string) {
    forall j :: 0 <= j < |s| ==> s[j] != '=' && s[j] != ':'
  }

  /** A quoted key whose quote ends where it should. */
  lemma QuotedCut(q: string, k: string, mid: string, sign: char, right: string)
    requires mid != "" && NoSign(mid) && (sign == '=' || sign == ':')
    requires Index(k + (mid + ([sign] + right)), q) == |k|
    ensures CutQuoted(q + (k + (mid + ([sign] + right))), q) == Some((|q| + |k|, |q| + |k| + (|mid| + 1)))
  {
    SlicedThrice(q, k, mid + ([sign] + right));
    SignAfter(mid, sign, right);
  }

  lemma CutParsed(line: string, q: string, a: int, b: int)
    requires line != [] && q != "" && KeyQuote(line) == q && CutQuoted(line, q) == Some((a, b))
    ensures ParseEntry(line) == MakeEntry(line[|q|..a], ParseValue(TrimSpace(line[b..])))
  {
  }

  lemma QuotedParse(q: string, k: string, mid: string, sign: char, right: string)
    requires q != "" && mid != "" && NoSign(mid) && (sign == '=' || sign == ':')
    requires Index(k + (mid + ([sign] + right)), q) == |k|
    requires KeyQuote(q + (k + (mid + ([sign] + right)))) == q
    ensures ParseEntry(q + (k + (mid + ([sign] + right)))) == MakeEntry(k, ParseValue(TrimSpace(right)))
  {
    var line := q + (k + (mid + ([sign] + right)));
    QuotedCut(q, k, mid, sign, right);
    CutParsed(line, q, |q| + |k|, |q| + |k| + (|mid| + 1));
    QuotedSlices(q, k, mid, sign, right);
  }

  lemma QuotedSlices(q: string, k: string, mid: string, sign: char, right: string)
    ensures var line := q + (k + (mid + ([sign] + right)));
            line[|q|..|q| + |k|] == k && line[|q| + |k| + (|mid| + 1)..] == right
  {
  }

  lemma QuotedRead(k: string, gap: string, right: string)
    requires k != [] && Wrappable(k) && (gap == "" || gap == " ")
    ensures ParseEntry(QuoteOf(k) + (k + ((QuoteOf(k) + gap) + ("=" + right)))) == MakeEntry(k, ParseValue(TrimSpace(right)))
  {
    var q := QuoteOf(k);
    ConcatAssociates(q, gap, "=" + right);
    ConcatAssociates(k, q, gap + ("=" + right));
    QuoteEnds(k, q, gap + ("=" + right));
    QuoteChosen(k, q, gap + ("=" + right));
    QuotedParse(q, k, q + gap, '=', right);
  }

  lemma QuoteChosen(k: string, q: string, rest: string)
    requires k != [] && (q == QuoteOf(k) || Encloses(q, k))
    ensures KeyQuote(q + (k + (q + rest))) == q
  {
    var line := q + (k + (q + rest));
    assert line[0] == q[0] && line[|q|] == k[0];
    if q == Quote {
      assert line[1] != '"';
    } else if q == Triple {
      assert line[..3] == Triple;
    }
  }

  /** A key that is not wrappable comes back shorter, if at all. */
  lemma QuotedLost(k: string, rest: string, v: string)
    requires k != [] && !Wrappable(k)
    ensures ParseEntry(QuoteOf(k) + (k + (QuoteOf(k) + rest))) != Entry(k, v)
  {
    var q := QuoteOf(k);
    var line := q + (k + (q + rest));
    QuoteChosen(k, q, rest);
    QuoteEndsEarly(k, q, rest);
    SlicedThrice(q, k, q + rest);
    var cut := CutQuoted(line, q);
    if cut.Some? {
      CutParsed(line, q, cut.value.0, cut.value.1);
      assert |line[|q|..cut.value.0]| < |k|;
    }
  }

  /** An unquoted key is what is left of the sign, trimmed. */
  lemma PlainRead(k: string, gap: string, right: string)
    requires k != [] && NoSign(k) && k[0] != '"' && k[0] != '`' && (gap == "" || gap == " ")
    ensures ParseEntry((k + gap) + ("=" + right)) == MakeEntry(TrimSpace(k + gap), ParseValue(TrimSpace(right)))
  {
    assert ((k + gap) + ("=" + right))[0] == k[0];
    SignAfter(k + gap, '=', right);
  }

  /** A key without a sign that begins with a quote does not come back: either the quote is
      closed within it, or what is read has the sign in it. */
  lemma QuoteMistaken(k: string, tail: string, gap: string, right: string, v: string)
    requires tail != [] && |tail| <= |k| && NoSign(k) && (tail[0] == '"' || tail[0] == '`') && (gap == "" || gap == " ")
    ensures ParseEntry((tail + gap) + ("=" + right)) != Entry(k, v)
  {
    var line := (tail + gap) + ("=" + right);
    var e := |tail + gap|;
    assert line[0] == tail[0] && line[e] == '=';
    var q := KeyQuote(line);
    QuoteAtStart(line);
    var cut := CutQuoted(line, q);
    if cut.Some? {
      var a := cut.value.0;
      CutParsed(line, q, a, cut.value.1);
      CutAtQuote(line, q);
      if a > |tail| {
        assert a > e;
        SignInside(line, |q|, a, e, k);
      }
    }
  }

  lemma SignInside(line: string, from: nat, to: nat, e: nat, k: string)
    requires from <= e < to <= |line| && line[e] == '=' && NoSign(k)
    ensures line[from..to] != k
  {
    assert line[from..to][e - from] == '=';
  }

  lemma QuoteAtStart(line: string)
    requires line != [] && (line[0] == '"' || line[0] == '`')
    ensures KeyQuote(line) != "" && |KeyQuote(line)| <= |line| && forall i :: 0 <= i < |KeyQuote(line)| ==> line[i] != '='
  {
    if KeyQuote(line) == Triple {
      assert forall i :: 0 <= i < 3 ==> line[i] == line[..3][i];
    }
  }

  lemma CutAtQuote(line: string, q: string)
    requires q != "" && |q| <= |line| && CutQuoted(line, q).Some?
    ensures CutQuoted(line, q).value.0 < |line| && line[CutQuoted(line, q).value.0] == q[0]
  {
    var pos := Index(line[|q|..], q);
    assert line[|q|..][pos..pos + |q|][0] == q[0];
  }

  /** What the reader sees of a line: all up to the sign, and the rest of it trimmed. */
  lemma Shape(pre: string, head: string, pad: string, value: string) returns (right: string)
    requires head != [] && Trimmed(head) && AllSpace(pre) && AllSpace(pad)
    ensures TrimSpace(pre + (head + (pad + value))) == head + right
    ensures TrimSpace(right) == TrimSpace(value)
    ensures if TrimSpace(value) == [] then right == [] else right != [] && right[|right| - 1] == TrimSpace(value)[|TrimSpace(value)| - 1]
  {
    var before, after := Surrounded(value);
    var mid := TrimSpace(value);
    if mid == [] {
      right := [];
      TrimSpaceOf(pre, head, pad + value);
      assert pre + (head + (pad + value)) == pre + head + (pad + value);
      assert head + right == head;
    } else {
      right := (pad + before) + mid;
      PadTrimmed(pad + before, mid);
      TrimSpaceOf(pre, head + right, after);
      assert pre + (head + (pad + value)) == pre + (head + right) + after;
    }
  }

  lemma PrintedEntry(k: string, v: string, pretty: bool) returns (pad: string)
    requires k != []
    ensures pad == "" || pad == " "
    ensures PrintEntry(k, v, pretty) == (PrintKey(k) + pad) + ("=" + (pad + PrintValue(v)))
  {
    var key, value := PrintKey(k), PrintValue(v);
    pad := if pretty then " " else "";
    ConcatAssociates(pad, "=", pad);
    assert Sign(pretty) == pad + ("=" + pad);
    assert key + (pad + ("=" + pad)) + value == (key + pad) + ("=" + (pad + value));
  }

  lemma PadTrimmed(pad: string, value: string)
    requires AllSpace(pad) && Trimmed(value)
    ensures TrimSpace(pad + value) == value
  {
    TrimSpaceOf(pad, value, []);
    assert pad + value + [] == pad + value;
  }

  /** A key and a value are read back from the line that is written for them if and only if
      the stated conditions hold. */
  lemma EntryRoundTrip(k: string, v: string, pretty: bool)
    requires k != []
    ensures ParseLine(TrimSpace(PrintEntry(k, v, pretty))) == Entry(k, v) <==> EntryKept(k, v)
  {
    var pad := PrintedEntry(k, v, pretty);
    ValueRoundTrip(v);
    if k[0] == '#' {
      NumberedLost(k, v, pad);
    } else if Signed(k) {
      SignedRoundTrip(k, v, pad);
    } else {
      PlainRoundTrip(k, v, pad);
    }
  }

  /** The line of an entry, as PrintedEntry spells it. */
  function Written(name: string, pad: string, v: string): string {
    (name + pad) + ("=" + (pad + PrintValue(v)))
  }

  lemma WrittenShape(pre: string, name: string, pad: string, v: string) returns (right: string)
    requires name != [] && !IsSpace(name[0]) && AllSpace(pre) && AllSpace(pad)
    ensures TrimSpace(Written(pre + name, pad, v)) == (name + pad) + ("=" + right)
    ensures TrimSpace(right) == TrimSpace(PrintValue(v))
    ensures EndsAlike(right, v)
  {
    var head := (name + pad) + "=";
    right := Shape(pre, head, pad, PrintValue(v));
    assert Written(pre + name, pad, v) == pre + (head + (pad + PrintValue(v)));
    assert head + right == (name + pad) + ("=" + right);
  }

  lemma NumberedLost(k: string, v: string, pad: string)
    requires k != [] && k[0] == '#' && (pad == "" || pad == " ")
    ensures ParseLine(TrimSpace(Written(PrintKey(k), pad, v))) != Entry(k, v)
  {
    OtherName("-", k, v, pad);
  }

  /** A line written with another name is not read as this key. */
  lemma OtherName(name: string, k: string, v: string, pad: string)
    requires name != k && name != [] && Trimmed(name) && NoSign(name) && name[0] !in {'#', ';', '[', '"', '`'} && (pad == "" || pad == " ")
    ensures ParseLine(TrimSpace(Written(name, pad, v))) != Entry(k, v)
  {
    assert [] + name == name;
    var right := WrittenShape([], name, pad, v);
    PlainLine(name, pad, right);
    PadAfter(name, pad);
  }

  lemma SignedRoundTrip(k: string, v: string, pad: string)
    requires k != [] && k[0] != '#' && Signed(k) && (pad == "" || pad == " ")
    ensures ParseLine(TrimSpace(Written(PrintKey(k), pad, v))) == Entry(k, v)
            <==> Wrappable(k) && ParseValue(TrimSpace(PrintValue(v))) == Some(v)
  {
    var q := QuoteOf(k);
    assert PrintKey(k) == q + k + q && [] + (q + k + q) == q + k + q;
    var right := WrittenShape([], q + k + q, pad, v);
    SignedLine(k, v, pad, right);
  }

  lemma SignedLine(k: string, v: string, pad: string, right: string)
    requires k != [] && (pad == "" || pad == " ")
    ensures ParseLine((QuoteOf(k) + k + QuoteOf(k) + pad) + ("=" + right)) == Entry(k, v)
            <==> Wrappable(k) && ParseValue(TrimSpace(right)) == Some(v)
  {
    var q := QuoteOf(k);
    QuotedShape(q, k, pad, "=" + right);
    assert ((q + k + q + pad) + ("=" + right))[0] == q[0];
    if Wrappable(k) {
      QuotedRead(k, pad, right);
    } else {
      ConcatAssociates(q, pad, "=" + right);
      QuotedLost(k, pad + ("=" + right), v);
    }
  }

  lemma PlainRoundTrip(k: string, v: string, pad: string)
    requires k != [] && k[0] != '#' && !Signed(k) && (pad == "" || pad == " ")
    requires ParseValue(TrimSpace(PrintValue(v))) == Some(v) <==> ValueKept(v)
    ensures ParseLine(TrimSpace(Written(k, pad, v))) == Entry(k, v) <==> EntryKept(k, v)
  {
    var pre := SplitLeft(k);
    var tail := TrimLeft(k);
    TrimLeftTrims(k);
    if tail == [] {
      BlankLost(k, v, pad);
    } else {
      var right := WrittenShape(pre, tail, pad, v);
      TailIs(k);
      TailRoundTrip(k, tail, v, pad, right);
    }
  }

  lemma BlankLost(k: string, v: string, pad: string)
    requires AllSpace(k) && AllSpace(pad)
    ensures ParseLine(TrimSpace(Written(k, pad, v))) == Malformed
  {
    var right := Shape(k + pad, "=", pad, PrintValue(v));
    assert Written(k, pad, v) == (k + pad) + ("=" + (pad + PrintValue(v)));
    assert ("=" + right)[0] == '=';
    SignIs("=" + right, 0);
  }

  /** The last character of what is right of the sign is that of the printed value. */
  predicate EndsAlike(right: string, v: string) {
    var mid := TrimSpace(PrintValue(v));
    if mid == [] then right == [] else right != [] && right[|right| - 1] == mid[|mid| - 1]
  }

  /** What is left of a key once its leading space is gone. */
  predicate TailOf(tail: string, k: string) {
    tail != [] && |tail| <= |k| && NoSign(tail) && NoSign(k) && k[0] != '#' && (!IsSpace(k[0]) ==> tail == k) && (IsSpace(k[0]) || !IsSpace(tail[0]))
  }

  lemma TailIs(k: string)
    requires k != [] && !Signed(k) && k[0] != '#' && TrimLeft(k) != []
    ensures TailOf(TrimLeft(k), k)
  {
    TrimLeftWithin(k);
  }

  /** The line begins with the tail of the key. */
  lemma TailRoundTrip(k: string, tail: string, v: string, pad: string, right: string)
    requires TailOf(tail, k) && (pad == "" || pad == " ")
    requires ParseValue(TrimSpace(right)) == Some(v) <==> ValueKept(v)
    requires EndsAlike(right, v)
    ensures ParseLine((tail + pad) + ("=" + right)) == Entry(k, v) <==> EntryKept(k, v)
  {
    var line := (tail + pad) + ("=" + right);
    assert line[0] == tail[0];
    if tail[0] == '#' || tail[0] == ';' {
      TailComment(k, tail, v, line);
    } else if tail[0] == '[' && line[|line| - 1] == ']' {
      HeaderMistaken(k, tail, v, right);
    } else if tail[0] == '"' || tail[0] == '`' {
      QuoteMistaken(k, tail, pad, right, v);
    } else {
      TailPlain(k, tail, v, pad, right);
    }
  }

  lemma TailComment(k: string, tail: string, v: string, line: string)
    requires TailOf(tail, k) && line != [] && line[0] == tail[0] && (tail[0] == '#' || tail[0] == ';')
    ensures ParseLine(line) == Comment && !EntryKept(k, v)
  {
  }

  lemma TailPlain(k: string, tail: string, v: string, pad: string, right: string)
    requires k != [] && !Signed(k) && k[0] != '#' && tail != [] && NoSign(tail) && (pad == "" || pad == " ")
    requires tail[0] !in {'#', ';', '"', '`'} && (!IsSpace(k[0]) ==> tail == k)
    requires ParseValue(TrimSpace(right)) == Some(v) <==> ValueKept(v)
    requires EndsAlike(right, v)
    requires var line := (tail + pad) + ("=" + right); !(tail[0] == '[' && line[|line| - 1] == ']')
    ensures ParseLine((tail + pad) + ("=" + right)) == Entry(k, v) <==> EntryKept(k, v)
  {
    PlainLine(tail, pad, right);
    if Trimmed(k) {
      PadAfter(k, pad);
      NoHeader(k, v, pad, right);
    } else {
      TrimSpaceTrims(tail + pad);
    }
  }

  /** A line that is nothing else is an entry. */
  lemma PlainLine(name: string, pad: string, right: string)
    requires name != [] && NoSign(name) && name[0] !in {'#', ';', '"', '`'} && (pad == "" || pad == " ")
    requires var line := (name + pad) + ("=" + right); !(name[0] == '[' && line[|line| - 1] == ']')
    ensures ParseLine((name + pad) + ("=" + right)) == MakeEntry(TrimSpace(name + pad), ParseValue(TrimSpace(right)))
  {
    assert ((name + pad) + ("=" + right))[0] == name[0];
    PlainRead(name, pad, right);
  }

  lemma PadAfter(k: string, pad: string)
    requires AllSpace(pad) && Trimmed(k)
    ensures TrimSpace(k + pad) == k
  {
    TrimSpaceOf([], k, pad);
    assert [] + k + pad == k + pad;
  }

  /** A kept value that ends the line with a bracket is written as it is. */
  lemma HeaderMistaken(k: string, tail: string, v: string, right: string)
    requires TailOf(tail, k) && tail[0] == '['
    requires EndsAlike(right, v) && right != [] && right[|right| - 1] == ']'
    ensures !EntryKept(k, v)
  {
    if EntryKept(k, v) {
      PrintedValueTrimmed(v);
      TrimSpaceSame(PrintValue(v));
    }
  }

  lemma NoHeader(k: string, v: string, pad: string, right: string)
    requires k != [] && !Signed(k) && Trimmed(k) && k[0] !in {'#', ';', '"', '`'} && EndsAlike(right, v)
    requires var line := (k + pad) + ("=" + right); !(k[0] == '[' && line[|line| - 1] == ']')
    ensures EntryKept(k, v) <==> ValueKept(v)
  {
    if ValueKept(v) && LooksLikeHeader(k, v) {
      PrintedValueTrimmed(v);
      TrimSpaceSame(PrintValue(v));
    }
  }

  lemma QuotedShape(q: string, k: string, gap: string, rest: string)
    ensures (q + k + q + gap) + rest == q + (k + ((q + gap) + rest))
  {
    ConcatAssociates(q, k, q);
    ConcatAssociates(q, k + q, gap);
    ConcatAssociates(k, q, gap);
    ConcatAssociates(q, k + (q + gap), rest);
    ConcatAssociates(k, q + gap, rest);
  }

  lemma HeaderRoundTrip(name: string)
    requires Trimmed(name)
    ensures ParseLine(TrimSpace(PrintHeader(name))) == Header(name)
  {
    TrimSpaceSame(PrintHeader(name));
    assert PrintHeader(name)[1..|name| + 1] == name;
    TrimSpaceSame(name);
  }
}
