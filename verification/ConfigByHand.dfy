/** Configuration files as people write them: comments, blank lines, either sign with any
    space around it, quoted keys and values. What each line does is written down here by
    itself, and the reader is shown to do it. */
module ConfigByHand {
  import opened Bytes
  import opened Wrappers
  import opened GoStrings
  import opened ConfigFormat
  import opened ConfigReading
  import opened ConfigSurvival

  // ----- Lines -----

  /** A text between quotes, or as it is. */
  datatype Quoting = Unquoted | Ticked | Quoted | Tripled

  function Mark(q: Quoting): string {
    match q
    case Unquoted => ""
    case Ticked => "`"
    case Quoted => "\""
    case Tripled => "\"\"\""
  }

  function Enclosed(q: Quoting, s: string): string {
    Mark(q) + s + Mark(q)
  }

  datatype HandLine =
    | EmptyLine
    | CommentLine(text: string)
    | HeaderLine(before: string, name: string, after: string)
    | EntryLine(keyQuote: Quoting, key: string, before: string, sign: char, after: string, valueQuote: Quoting, value: string)

  function Body(line: HandLine): string {
    match line
    case EmptyLine => ""
    case CommentLine(text) => text
    case HeaderLine(before, name, after) => "[" + (before + name + after) + "]"
    case EntryLine(keyQuote, key, before, sign, after, valueQuote, value) =>
      (Enclosed(keyQuote, key) + before + [sign]) + (after + Enclosed(valueQuote, value))
  }

  /** A key that can be written so. A bare one must not look like anything else. */
  predicate KeyWritten(q: Quoting, key: string) {
    && key != []
    && match q
       case Unquoted => Trimmed(key) && NoSign(key) && key[0] !in {'#', ';', '"', '`'}
       case Ticked => '`' !in key
       case Quoted => '"' !in key
       case Tripled => key[|key| - 1] != '"' && forall j :: 0 <= j <= |key| ==> !At(key, "\"\"\"", j)
  }

  /** A value that can be written so. Between backticks or triple quotes it may be anything. */
  predicate ValueWritten(q: Quoting, value: string) {
    match q
    case Unquoted => Trimmed(value) && (value != [] ==> value[0] != '`' || |value| == 1) && !StartsTriple(value)
    case Ticked => true
    case Quoted => false
    case Tripled => true
  }

  predicate Written(line: HandLine) {
    match line
    case EmptyLine => true
    case CommentLine(text) => text != [] && Trimmed(text) && (text[0] == '#' || text[0] == ';')
    case HeaderLine(before, name, after) => AllSpace(before) && AllSpace(after) && Trimmed(name)
    case EntryLine(keyQuote, key, before, sign, after, valueQuote, value) =>
      && KeyWritten(keyQuote, key) && ValueWritten(valueQuote, value) && AllSpace(before) && AllSpace(after) && (sign == '=' || sign == ':')
      && (keyQuote.Unquoted? && key[0] == '[' ==> value == [] || valueQuote != Unquoted || value[|value| - 1] != ']')
  }

  /** What the line does to what has been read so far. */
  function Effect(line: HandLine, st: Reading): Reading {
    match line
    case EmptyLine => st
    case CommentLine(_) => st
    case HeaderLine(_, name, _) => Reading(Put(st.config, if name == "" then "DEFAULT" else name, " ", " "), name, 1, st.error)
    case EntryLine(_, key, _, _, _, _, value) =>
      if st.section == "" then st.(error := Some(BlankSectionName))
      else if key == "-" then st.(config := Put(st.config, st.section, "#" + Decimal(st.count), value), count := st.count + 1)
      else st.(config := Put(st.config, st.section, key, value))
  }

  // ----- Reading them -----

  lemma BlankParsed(indent: string)
    requires AllSpace(indent)
    ensures TrimSpace(indent) == ""
  {
    TrimSpaceOf(indent, [], []);
    assert indent + [] + [] == indent;
  }

  lemma TickedRead(v: string)
    ensures ParseValue("`" + v + "`") == Some(v)
  {
    var right := "`" + v + "`";
    assert right[1..] == v + "`" && (v + "`")[|v|..|v| + 1] == "`" && right[1..1 + |v|] == v;
  }

  lemma ValueRead(q: Quoting, value: string)
    requires ValueWritten(q, value)
    ensures Trimmed(Enclosed(q, value)) && ParseValue(Enclosed(q, value)) == Some(value)
  {
    match q
    case Unquoted =>
      assert Enclosed(q, value) == value;
      TrimSpaceSame(value);
      if |value| == 1 {
        assert value[1..] == [] && ByteLength(value) == Width(value[0]) + ByteLength([]);
      }
    case Ticked => TickedRead(value);
    case Tripled => TripleRead(value);
  }

  /** The line without the space around it: what the reader takes apart. */
  lemma EntryTrimmed(line: HandLine, indent: string, trailing: string) returns (right: string)
    requires line.EntryLine? && Written(line) && AllSpace(indent) && AllSpace(trailing)
    ensures TrimSpace(indent + Body(line) + trailing) == (Enclosed(line.keyQuote, line.key) + line.before + [line.sign]) + right
    ensures ParseValue(TrimSpace(right)) == Some(line.value)
    ensures var value := Enclosed(line.valueQuote, line.value);
            if value == [] then right == [] else right != [] && right[|right| - 1] == value[|value| - 1]
  {
    var head := Enclosed(line.keyQuote, line.key) + line.before + [line.sign];
    var value := Enclosed(line.valueQuote, line.value);
    ValueRead(line.valueQuote, line.value);
    HeadTrimmed(line.keyQuote, line.key, line.before, line.sign);
    PadAfter(value, trailing);
    TrimSpaceSame(value);
    right := Shape(indent, head, line.after, value + trailing);
    Regrouped(indent, head, line.after, value, trailing);
  }

  lemma HeadTrimmed(q: Quoting, key: string, before: string, sign: char)
    requires KeyWritten(q, key) && (sign == '=' || sign == ':')
    ensures Trimmed(Enclosed(q, key) + before + [sign])
  {
    var head := Enclosed(q, key) + before + [sign];
    assert head[0] == (if q.Unquoted? then key else Mark(q))[0] && head[|head| - 1] == sign;
  }

  lemma Regrouped(a: string, b: string, c: string, d: string, e: string)
    ensures a + (b + (c + d)) + e == a + (b + (c + (d + e)))
  {
    ConcatAssociates(a, b + (c + d), e);
    ConcatAssociates(b, c + d, e);
    ConcatAssociates(c, d, e);
  }

  lemma SpaceHasNoSign(s: string)
    requires AllSpace(s)
    ensures NoSign(s)
  {
  }

  lemma PlainEntryRead(key: string, before: string, sign: char, right: string)
    requires KeyWritten(Unquoted, key) && AllSpace(before) && (sign == '=' || sign == ':')
    ensures ParseEntry((key + before) + ([sign] + right)) == MakeEntry(key, ParseValue(TrimSpace(right)))
  {
    var line := (key + before) + ([sign] + right);
    SpaceHasNoSign(before);
    assert line[0] == key[0];
    SignAfter(key + before, sign, right);
    PadAfter(key, before);
  }

  lemma QuotedEntryRead(q: Quoting, key: string, before: string, sign: char, right: string)
    requires !q.Unquoted? && KeyWritten(q, key) && AllSpace(before) && (sign == '=' || sign == ':')
    ensures ParseEntry(Mark(q) + (key + ((Mark(q) + before) + ([sign] + right)))) == MakeEntry(key, ParseValue(TrimSpace(right)))
  {
    var m := Mark(q);
    SpaceHasNoSign(before);
    ConcatAssociates(m, before, [sign] + right);
    QuoteEnds(key, m, before + ([sign] + right));
    QuoteChosen(key, m, before + ([sign] + right));
    QuotedParse(m, key, m + before, sign, right);
  }

  lemma EntryShape(q: Quoting, key: string, before: string, sign: char, right: string)
    ensures (Enclosed(q, key) + before + [sign]) + right
            == if q.Unquoted? then (key + before) + ([sign] + right) else Mark(q) + (key + ((Mark(q) + before) + ([sign] + right)))
  {
    ConcatAssociates(Enclosed(q, key) + before, [sign], right);
    if q.Unquoted? {
      assert Enclosed(q, key) == key;
    } else {
      QuotedShape(Mark(q), key, before, [sign] + right);
    }
  }

  lemma EntryParsed(line: HandLine, right: string)
    requires line.EntryLine? && Written(line) && ParseValue(TrimSpace(right)) == Some(line.value)
    requires right != [] && line.keyQuote.Unquoted? && line.key[0] == '[' ==> right[|right| - 1] != ']'
    ensures ParseLine((Enclosed(line.keyQuote, line.key) + line.before + [line.sign]) + right) == Entry(line.key, line.value)
  {
    var text := (Enclosed(line.keyQuote, line.key) + line.before + [line.sign]) + right;
    EntryShape(line.keyQuote, line.key, line.before, line.sign, right);
    assert text[0] == Enclosed(line.keyQuote, line.key)[0];
    assert text[|text| - 1] == if right == [] then line.sign else right[|right| - 1];
    if line.keyQuote.Unquoted? {
      PlainEntryRead(line.key, line.before, line.sign, right);
    } else {
      QuotedEntryRead(line.keyQuote, line.key, line.before, line.sign, right);
    }
  }

  lemma EntryHandRead(line: HandLine, indent: string, trailing: string)
    requires line.EntryLine? && Written(line) && AllSpace(indent) && AllSpace(trailing)
    ensures ParseLine(TrimSpace(indent + Body(line) + trailing)) == Entry(line.key, line.value)
  {
    var right := EntryTrimmed(line, indent, trailing);
    LastOfValue(line.valueQuote, line.value);
    EntryParsed(line, right);
  }

  lemma LastOfValue(q: Quoting, value: string)
    ensures var text := Enclosed(q, value);
            if q.Unquoted? then text == value else text != [] && text[|text| - 1] == Mark(q)[|Mark(q)| - 1] && text[|text| - 1] != ']'
  {
    assert q.Unquoted? ==> Enclosed(q, value) == value;
  }

  lemma HeaderHandRead(before: string, name: string, after: string, indent: string, trailing: string)
    requires AllSpace(before) && AllSpace(after) && Trimmed(name) && AllSpace(indent) && AllSpace(trailing)
    ensures ParseLine(TrimSpace(indent + ("[" + (before + name + after) + "]") + trailing)) == Header(name)
  {
    var inner := before + name + after;
    TrimSpaceOf(indent, "[" + inner + "]", trailing);
    HeaderParsed(inner);
    TrimSpaceOf(before, name, after);
  }

  /** Every line that is written by hand does what it should, whatever space is around it. */
  lemma HandLineRead(line: HandLine, indent: string, trailing: string, st: Reading)
    requires Written(line) && AllSpace(indent) && AllSpace(trailing)
    ensures ReadLine(st, indent + Body(line) + trailing) == Effect(line, st)
  {
    match line
    case EmptyLine =>
      BlankParsed(indent + trailing);
      assert indent + "" + trailing == indent + trailing;
    case CommentLine(text) => TrimSpaceOf(indent, text, trailing);
    case HeaderLine(before, name, after) => HeaderHandRead(before, name, after, indent, trailing);
    case EntryLine(_, _, _, _, _, _, _) => EntryHandRead(line, indent, trailing);
  }

  // ----- Whole files -----

  /** A line and the space around it. */
  datatype Placed = Placed(indent: string, line: HandLine, trailing: string)

  function LineText(p: Placed): string {
    p.indent + Body(p.line) + p.trailing
  }

  predicate Legible(p: Placed) {
    Written(p.line) && AllSpace(p.indent) && AllSpace(p.trailing) && OneLine(LineText(p))
  }

  function Texts(ps: seq<Placed>): seq<string> {
    if ps == [] then [] else [LineText(ps[0])] + Texts(ps[1..])
  }

  /** Line by line, up to the first error. */
  function Effects(st: Reading, ps: seq<Placed>): Reading
    decreases |ps|
  {
    if st.error.Some? || ps == [] then st else Effects(Effect(ps[0].line, st), ps[1..])
  }

  lemma {:induction false} TextsRead(st: Reading, ps: seq<Placed>)
    requires forall i :: 0 <= i < |ps| ==> Legible(ps[i])
    ensures ReadLines(st, Texts(ps)) == Effects(st, ps)
    decreases |ps|
  {
    if ps != [] && st.error.None? {
      assert Legible(ps[0]);
      HandLineRead(ps[0].line, ps[0].indent, ps[0].trailing, st);
      ReadFirst(st, LineText(ps[0]), Texts(ps[1..]));
      TextsRead(Effect(ps[0].line, st), ps[1..]);
    }
  }

  lemma {:induction false} TextsPlain(ps: seq<Placed>)
    requires forall i :: 0 <= i < |ps| ==> Legible(ps[i])
    ensures forall i :: 0 <= i < |Texts(ps)| ==> OneLine(Texts(ps)[i])
  {
    if ps != [] {
      assert Legible(ps[0]);
      TextsPlain(ps[1..]);
    }
  }

  /** A file that is written by hand is read line by line as it was meant. A byte order mark
      in front of it makes no difference. */
  lemma HandFileRead(ps: seq<Placed>, marked: bool)
    requires forall i :: 0 <= i < |ps| ==> Legible(ps[i])
    requires ps != [] && LineText(ps[0]) != [] ==> LineText(ps[0])[0] != ByteOrderMark
    ensures Load((if marked then [ByteOrderMark] else []) + Unlines(Texts(ps))) == Effects(Start, ps)
  {
    var lines := Texts(ps);
    TextsPlain(ps);
    TextsRead(Start, ps);
    UnmarkedText(lines);
    UnmarkedUnlines(lines);
    assert Unmarked(lines) == lines by {
      assert ps != [] ==> lines[0] == LineText(ps[0]) && lines == [lines[0]] + lines[1..];
    }
    MarkIgnored(Unlines(lines), marked);
  }

  lemma MarkIgnored(text: string, marked: bool)
    requires WithoutMark(text) == text
    ensures Load((if marked then [ByteOrderMark] else []) + text) == Load(text)
  {
    var all := (if marked then [ByteOrderMark] else []) + text;
    assert if marked then all[0] == ByteOrderMark && all[1..] == text else all == text;
  }

  /** What a number means. */
  function DecimalValue(s: string): nat {
    if s == [] then 0 else 10 * DecimalValue(s[..|s| - 1]) + DigitValue(s[|s| - 1])
  }

  function DigitValue(c: char): nat {
    if '0' <= c <= '9' then (c - '0') as int else 0
  }

  /** The numbers that the reader gives are decimal numbers. */
  lemma {:induction false} DecimalIs(n: nat)
    ensures Decimal(n) != [] && DecimalValue(Decimal(n)) == n && (n > 0 ==> Decimal(n)[0] != '0')
    ensures forall i :: 0 <= i < |Decimal(n)| ==> '0' <= Decimal(n)[i] <= '9'
  {
    var s := Decimal(n);
    DigitIs(n % 10);
    if n < 10 {
      assert s == ["0123456789"[n % 10]] && s[..0] == [];
    } else {
      DecimalIs(n / 10);
      assert s[..|s| - 1] == Decimal(n / 10);
    }
  }

  lemma DigitIs(d: nat)
    requires d < 10
    ensures var c := "0123456789"[d]; '0' <= c <= '9' && DigitValue(c) == d && (d > 0 ==> c != '0')
  {
    var digits := "0123456789";
    assert digits[0] == '0' && digits[1] == '1' && digits[2] == '2' && digits[3] == '3' && digits[4] == '4';
    assert digits[5] == '5' && digits[6] == '6' && digits[7] == '7' && digits[8] == '8' && digits[9] == '9';
  }

  // ----- Comments -----

  /** A line whose text begins with one of the two comment signs, or that has no text. */
  predicate Skipped(line: string) {
    var text := TrimSpace(line);
    text == [] || text[0] == '#' || text[0] == ';'
  }

  /** Comments and blank lines may stand anywhere. */
  lemma CommentSkipped(st: Reading, a: seq<string>, line: string, b: seq<string>)
    requires Skipped(line)
    ensures ReadLines(st, a + [line] + b) == ReadLines(st, a + b)
  {
    ReadLinesThen(st, a + [line], b);
    ReadLinesThen(st, a, [line]);
    ReadLinesThen(st, a, b);
    assert [line][1..] == [];
    assert ReadLines(ReadLines(st, a), [line]) == ReadLines(st, a);
  }

  /** The same of files, unless the comment keeps a byte order mark from coming first. */
  lemma CommentsIgnored(a: seq<string>, line: string, b: seq<string>)
    requires Skipped(line) && OneLine(line) && (forall i :: 0 <= i < |a| ==> OneLine(a[i])) && (forall i :: 0 <= i < |b| ==> OneLine(b[i]))
    requires a == [] && b != [] && b[0] != [] ==> b[0][0] != ByteOrderMark
    ensures Load(Unlines(a + [line] + b)) == Load(Unlines(a + b))
  {
    UnmarkedText(a + [line] + b);
    UnmarkedText(a + b);
    UnmarkedAround(a, line, b);
    CommentSkipped(Start, Unmarked(a), line, b);
  }

  lemma UnmarkedAround(a: seq<string>, line: string, b: seq<string>)
    requires Skipped(line) && (a == [] && b != [] && b[0] != [] ==> b[0][0] != ByteOrderMark)
    ensures Unmarked(a + [line] + b) == Unmarked(a) + [line] + b && Unmarked(a + b) == Unmarked(a) + b
  {
    NotAMark(line);
    if a == [] {
      UnmarkedFirst(line, b);
      assert [] + [line] == [line] && [] + b == b;
      if b != [] {
        UnmarkedFirst(b[0], b[1..]);
        assert [b[0]] + b[1..] == b;
      }
    } else {
      UnmarkedThen(a, [line]);
      UnmarkedThen(a + [line], b);
      UnmarkedThen(a, b);
    }
  }

  lemma UnmarkedThen(a: seq<string>, b: seq<string>)
    requires a != []
    ensures Unmarked(a + b) == Unmarked(a) + b
  {
    assert (a + b)[1..] == a[1..] + b;
    ConcatAssociates([WithoutMark(a[0])], a[1..], b);
  }

  lemma UnmarkedFirst(line: string, rest: seq<string>)
    ensures Unmarked([line] + rest) == [WithoutMark(line)] + rest
  {
    assert ([line] + rest)[1..] == rest;
  }

  lemma NotAMark(line: string)
    requires Skipped(line)
    ensures WithoutMark(line) == line
  {
    if line != [] && line[0] == ByteOrderMark {
      TrimRightTrims(line);
      FirstStays(line);
    }
  }

  lemma {:induction false} FirstStays(s: string)
    requires s != [] && !IsSpace(s[0])
    ensures TrimRight(s) != [] && TrimRight(s)[0] == s[0] && TrimSpace(s) == TrimRight(s)
    decreases |s|
  {
    if IsSpace(s[|s| - 1]) {
      FirstStays(s[..|s| - 1]);
    }
  }

  // ----- Refusals -----

  /** The text of a line that has to be an entry. */
  predicate NeitherCommentNorHeader(text: string) {
    text != [] && text[0] !in {'#', ';'} && !(text[0] == '[' && text[|text| - 1] == ']')
  }

  /** Without a sign, or with nothing in front of it, there is no entry. */
  lemma NoSignRefused(text: string)
    requires NeitherCommentNorHeader(text) && text[0] !in {'"', '`'} && (NoSign(text) || text[0] == '=' || text[0] == ':')
    ensures ParseLine(text) == Malformed
  {
  }

  /** Nor if the quote around the key is not closed. */
  lemma UnclosedKeyRefused(text: string)
    requires text != [] && ((text[0] == '`' && '`' !in text[1..]) || (text[0] == '"' && '"' !in text[1..]))
    ensures ParseLine(text) == Malformed
  {
    TripleSecond(text);
    AtIsThere(text[1..], text[0]);
  }

  lemma AtIsThere(s: string, c: char)
    ensures forall i :: At(s, [c], i) ==> c in s
  {
    forall i | At(s, [c], i)
      ensures c in s
    {
      assert s[i..i + 1][0] == s[i];
    }
  }

  lemma TripleSecond(s: string)
    ensures StartsTriple(s) ==> '"' in s[1..]
  {
    if StartsTriple(s) {
      assert s[..3][1] == s[1..][0];
    }
  }

  /** Nor if the quote around the value is not. */
  lemma UnclosedValueRefused(key: string, before: string, sign: char, right: string)
    requires KeyWritten(Unquoted, key) && AllSpace(before) && (sign == '=' || sign == ':') && Trimmed(right)
    requires |right| >= 2 && right[0] == '`' && '`' !in right[1..] && !(key[0] == '[' && right[|right| - 1] == ']')
    ensures ParseLine((key + before) + ([sign] + right)) == Malformed
  {
    var text := (key + before) + ([sign] + right);
    assert text[0] == key[0] && text[|text| - 1] == right[|right| - 1];
    PlainEntryRead(key, before, sign, right);
    UnclosedValue(right);
  }

  lemma UnclosedValue(right: string)
    requires Trimmed(right) && |right| >= 2 && right[0] == '`' && '`' !in right[1..]
    ensures ParseValue(TrimSpace(right)) == None
  {
    TrimSpaceSame(right);
    AtIsThere(right[1..], '`');
  }

  /** A refused line ends the reading, with the error that says why. */
  lemma RefusedStops(st: Reading, a: seq<string>, line: string, b: seq<string>)
    requires ReadLines(st, a).error.None? && ParseLine(TrimSpace(line)) == Malformed
    ensures var before, end := ReadLines(st, a), ReadLines(st, a + [line] + b);
            end == before.(error := Some(if before.section == "" then BlankSectionName else CouldNotParse))
  {
    ReadLinesThen(st, a + [line], b);
    ReadLinesThen(st, a, [line]);
    assert [line][1..] == [];
  }

  // ----- What setting a value means -----

  /** The value of a key of a section, if it has one. */
  function Lookup(c: Config, s: string, k: string): Option<string> {
    if c == [] then None else if c[0].name == s then LookupPair(c[0].pairs, k) else Lookup(c[1..], s, k)
  }

  function LookupPair(ps: seq<Pair>, k: string): Option<string> {
    if ps == [] then None else if ps[0].key == k then Some(ps[0].value) else LookupPair(ps[1..], k)
  }

  function Keys(ps: seq<Pair>): seq<string> {
    if ps == [] then [] else [ps[0].key] + Keys(ps[1..])
  }

  function Names(c: Config): seq<string> {
    if c == [] then [] else [c[0].name] + Names(c[1..])
  }

  lemma {:induction false} PutPairLookup(ps: seq<Pair>, k: string, v: string, k': string)
    ensures LookupPair(PutPair(ps, k, v), k') == (if k' == k then Some(v) else LookupPair(ps, k'))
    ensures Keys(PutPair(ps, k, v)) == if k in Keys(ps) then Keys(ps) else Keys(ps) + [k]
  {
    if ps == [] {
      assert [Pair(k, v)][1..] == [] && Keys([Pair(k, v)]) == [k] + Keys([]) && [k] + Keys([]) == Keys([]) + [k];
    } else {
      PutPairLookup(ps[1..], k, v, k');
      assert PutPair(ps, k, v)[1..] == if ps[0].key == k then ps[1..] else PutPair(ps[1..], k, v);
      ConcatAssociates([ps[0].key], Keys(ps[1..]), [k]);
    }
  }

  /** Setting a value changes that value and no other, and adds at the end what is new. */
  lemma {:induction false} PutLookup(c: Config, s: string, k: string, v: string, s': string, k': string)
    ensures Lookup(Put(c, s, k, v), s', k') == (if s' == s && k' == k then Some(v) else Lookup(c, s', k'))
    ensures Names(Put(c, s, k, v)) == if s in Names(c) then Names(c) else Names(c) + [s]
  {
    if c == [] {
      PutPairLookup([], k, v, k');
      assert [Section(s, [Pair(k, v)])][1..] == [] && [s] + Names([]) == Names([]) + [s];
    } else {
      ConcatAssociates([c[0].name], Names(c[1..]), [s]);
      PutPairLookup(c[0].pairs, k, v, k');
      PutLookup(c[1..], s, k, v, s', k');
      assert Put(c, s, k, v)[1..] == if c[0].name == s then c[1..] else Put(c[1..], s, k, v);
    }
  }

  lemma {:induction false} WithoutPairLookup(ps: seq<Pair>, k: string, k': string)
    requires DistinctKeys(ps)
    ensures LookupPair(WithoutPair(ps, k), k') == if k' == k then None else LookupPair(ps, k')
  {
    if ps != [] {
      assert forall i :: 0 <= i < |ps| - 1 ==> ps[1..][i] == ps[i + 1];
      if ps[0].key == k {
        NotThere(ps[1..], k);
      } else {
        WithoutPairLookup(ps[1..], k, k');
        assert WithoutPair(ps, k)[1..] == WithoutPair(ps[1..], k);
      }
    }
  }

  lemma {:induction false} NotThere(ps: seq<Pair>, k: string)
    requires forall i :: 0 <= i < |ps| ==> ps[i].key != k
    ensures LookupPair(ps, k) == None
  {
    if ps != [] {
      NotThere(ps[1..], k);
    }
  }

  /** Deleting a key takes that key and no other. */
  lemma {:induction false} WithoutKeyLookup(c: Config, s: string, k: string, s': string, k': string)
    requires forall i :: 0 <= i < |c| ==> DistinctKeys(c[i].pairs)
    ensures Lookup(WithoutKey(c, s, k), s', k') == if s' == s && k' == k then None else Lookup(c, s', k')
  {
    if c != [] {
      WithoutPairLookup(c[0].pairs, k, k');
      WithoutKeyLookup(c[1..], s, k, s', k');
      assert WithoutKey(c, s, k)[1..] == if c[0].name == s then c[1..] else WithoutKey(c[1..], s, k);
    }
  }

  /** Deleting a section takes all its keys and no other. */
  lemma {:induction false} WithoutSectionLookup(c: Config, s: string, s': string, k: string)
    requires DistinctNames(c)
    ensures Lookup(WithoutSection(c, s), s', k) == if s' == s then None else Lookup(c, s', k)
  {
    if c != [] {
      assert forall i :: 0 <= i < |c| - 1 ==> c[1..][i] == c[i + 1];
      if c[0].name == s {
        SectionGone(c[1..], s, k);
      } else {
        WithoutSectionLookup(c[1..], s, s', k);
        assert WithoutSection(c, s)[1..] == WithoutSection(c[1..], s);
      }
    }
  }

  lemma {:induction false} SectionGone(c: Config, s: string, k: string)
    requires forall i :: 0 <= i < |c| ==> c[i].name != s
    ensures Lookup(c, s, k) == None
  {
    if c != [] {
      SectionGone(c[1..], s, k);
    }
  }

  /** The text of an entry that needs no quotes. */
  lemma PlainPrinted(k: string, v: string)
    requires k != [] && k[0] != '#' && NoSign(k) && '`' !in v
    ensures PrintEntry(k, v, true) == k + " = " + v && PrintEntry(k, v, false) == k + "=" + v
  {
  }
}
