/** Whole configuration files: the lines write.go prints, and what read.go makes of lines.
    A configuration is an ordered list of sections of ordered key-value pairs. */
module ConfigReading {
  import opened Bytes
  import opened Wrappers
  import opened GoStrings
  import opened ConfigFormat

  datatype Pair = Pair(key: string, value: string)
  datatype Section = Section(name: string, pairs: seq<Pair>)
  type Config = seq<Section>

  const Default := "DEFAULT"
  const HiddenKey := " "

  // ----- SetValue -----

  function PutPair(ps: seq<Pair>, k: string, v: string): seq<Pair> {
    if ps == [] then [Pair(k, v)]
    else if ps[0].key == k then [Pair(k, v)] + ps[1..]
    else [ps[0]] + PutPair(ps[1..], k, v)
  }

  function Put(c: Config, s: string, k: string, v: string): Config {
    if c == [] then [Section(s, [Pair(k, v)])]
    else if c[0].name == s then [Section(s, PutPair(c[0].pairs, k, v))] + c[1..]
    else [c[0]] + Put(c[1..], s, k, v)
  }

  function SetValue(c: Config, s: string, k: string, v: string): Config {
    if k == [] then c else Put(c, if s == [] then Default else s, k, v)
  }

  predicate HasKey(ps: seq<Pair>, k: string) {
    exists i :: 0 <= i < |ps| && ps[i].key == k
  }

  predicate HasSection(c: Config, s: string) {
    exists i :: 0 <= i < |c| && c[i].name == s
  }

  lemma {:induction false} PutPairNew(ps: seq<Pair>, k: string, v: string)
    requires !HasKey(ps, k)
    ensures PutPair(ps, k, v) == ps + [Pair(k, v)]
  {
    if ps != [] {
      assert ps[0].key != k;
      assert forall i :: 0 <= i < |ps[1..]| ==> ps[1..][i] == ps[i + 1];
      PutPairNew(ps[1..], k, v);
      assert ps == [ps[0]] + ps[1..];
    }
  }

  lemma {:induction false} PutNew(c: Config, s: string, k: string, v: string)
    requires !HasSection(c, s)
    ensures Put(c, s, k, v) == c + [Section(s, [Pair(k, v)])]
  {
    if c != [] {
      assert c[0].name != s;
      assert forall i :: 0 <= i < |c[1..]| ==> c[1..][i] == c[i + 1];
      PutNew(c[1..], s, k, v);
      assert c == [c[0]] + c[1..];
    }
  }

  lemma {:induction false} PutLast(c: Config, s: string, ps: seq<Pair>, k: string, v: string)
    requires !HasSection(c, s) && !HasKey(ps, k)
    ensures Put(c + [Section(s, ps)], s, k, v) == c + [Section(s, ps + [Pair(k, v)])]
  {
    if c == [] {
      PutPairNew(ps, k, v);
    } else {
      var whole := c + [Section(s, ps)];
      assert c[0].name != s;
      assert forall i :: 0 <= i < |c[1..]| ==> c[1..][i] == c[i + 1];
      PutLast(c[1..], s, ps, k, v);
      assert whole[1..] == c[1..] + [Section(s, ps)];
      assert [c[0]] + (c[1..] + [Section(s, ps + [Pair(k, v)])]) == c + [Section(s, ps + [Pair(k, v)])];
    }
  }

  // ----- Deleting -----

  function WithoutPair(ps: seq<Pair>, k: string): seq<Pair> {
    if ps == [] then [] else if ps[0].key == k then ps[1..] else [ps[0]] + WithoutPair(ps[1..], k)
  }

  function WithoutKey(c: Config, s: string, k: string): Config {
    if c == [] then []
    else if c[0].name == s then [Section(s, WithoutPair(c[0].pairs, k))] + c[1..]
    else [c[0]] + WithoutKey(c[1..], s, k)
  }

  function WithoutSection(c: Config, s: string): Config {
    if c == [] then [] else if c[0].name == s then c[1..] else [c[0]] + WithoutSection(c[1..], s)
  }

  lemma {:induction false} PutThenWithoutPair(ps: seq<Pair>, k: string, v: string)
    requires !HasKey(ps, k)
    ensures WithoutPair(PutPair(ps, k, v), k) == ps
  {
    if ps != [] {
      assert ps[0].key != k;
      assert forall i :: 0 <= i < |ps[1..]| ==> ps[1..][i] == ps[i + 1];
      PutThenWithoutPair(ps[1..], k, v);
      assert ps == [ps[0]] + ps[1..];
    }
  }

  predicate HasPair(c: Config, s: string, k: string) {
    exists i :: 0 <= i < |c| && c[i].name == s && HasKey(c[i].pairs, k)
  }

  /** Deleting a key undoes setting it, if the section was there and the key was not. */
  lemma {:induction false} PutThenWithoutKey(c: Config, s: string, k: string, v: string)
    requires HasSection(c, s) && !HasPair(c, s, k)
    ensures WithoutKey(Put(c, s, k, v), s, k) == c
  {
    assert !(c[0].name == s && HasKey(c[0].pairs, k));
    assert c == [c[0]] + c[1..];
    if c[0].name == s {
      PutThenWithoutPair(c[0].pairs, k, v);
    } else {
      assert forall i :: 0 <= i < |c[1..]| ==> c[1..][i] == c[i + 1];
      var i :| 0 <= i < |c| && c[i].name == s;
      assert c[1..][i - 1].name == s;
      PutThenWithoutKey(c[1..], s, k, v);
    }
  }

  // ----- Reading -----

  datatype Error = BlankSectionName | CouldNotParse

  datatype Reading = Reading(config: Config, section: string, count: nat, error: Option<Error>)

  function Decimal(n: nat): string {
    (if n < 10 then "" else Decimal(n / 10)) + ["0123456789"[n % 10]]
  }

  /** One turn of the reader's loop. */
  function ReadLine(st: Reading, line: string): Reading {
    var parsed := ParseLine(TrimSpace(line));
    match parsed
    case Blank => st
    case Comment => st
    case Header(name) => Reading(SetValue(st.config, name, HiddenKey, " "), name, 1, st.error)
    case Entry(key, value) =>
      if st.section == "" then st.(error := Some(BlankSectionName))
      else if key == "-" then st.(config := SetValue(st.config, st.section, "#" + Decimal(st.count), value), count := st.count + 1)
      else st.(config := SetValue(st.config, st.section, key, value))
    case Malformed => st.(error := Some(if st.section == "" then BlankSectionName else CouldNotParse))
  }

  /** Lines up to the first error. */
  function ReadLines(st: Reading, lines: seq<string>): Reading
    decreases |lines|
  {
    if st.error.Some? || lines == [] then st else ReadLines(ReadLine(st, lines[0]), lines[1..])
  }

  const ByteOrderMark: char := '\U{FEFF}'

  function WithoutMark(text: string): string {
    if text != [] && text[0] == ByteOrderMark then text[1..] else text
  }

  const Start: Reading := Reading([], Default, 1, None)

  /** What reading a text into an empty configuration gives. */
  function Load(text: string): Reading {
    ReadLines(Start, Lines(WithoutMark(text)))
  }

  lemma {:induction false} ReadLinesThen(st: Reading, a: seq<string>, b: seq<string>)
    ensures ReadLines(st, a + b) == ReadLines(ReadLines(st, a), b)
    decreases |a|
  {
    if a == [] {
      assert a + b == b;
    } else if st.error.None? {
      assert (a + b)[1..] == a[1..] + b;
      ReadLinesThen(ReadLine(st, a[0]), a[1..], b);
    }
  }

  // ----- Printing -----

  predicate Keyed(ps: seq<Pair>) {
    forall i :: 0 <= i < |ps| ==> ps[i].key != []
  }

  /** The lines of the pairs; the hidden key is not written. */
  function PairLines(ps: seq<Pair>, pretty: bool): seq<string>
    requires Keyed(ps)
  {
    if ps == [] then []
    else (if ps[0].key == HiddenKey then [] else [PrintEntry(ps[0].key, ps[0].value, pretty)]) + PairLines(ps[1..], pretty)
  }

  function SectionLines(sec: Section, pretty: bool): seq<string>
    requires Keyed(sec.pairs)
  {
    (if sec.name == Default then [] else [PrintHeader(sec.name)]) + PairLines(sec.pairs, pretty) + [""]
  }

  predicate Printable(c: Config) {
    forall i :: 0 <= i < |c| ==> Keyed(c[i].pairs)
  }

  function ConfigLines(c: Config, pretty: bool): seq<string>
    requires Printable(c)
  {
    if c == [] then [] else SectionLines(c[0], pretty) + (assert Printable(c[1..]); ConfigLines(c[1..], pretty))
  }

  function Unlines(lines: seq<string>): string {
    if lines == [] then [] else lines[0] + "\n" + Unlines(lines[1..])
  }

  function PrintConfig(c: Config, pretty: bool): string
    requires Printable(c)
  {
    Unlines(ConfigLines(c, pretty))
  }

  lemma {:induction false} LinesOfUnlines(lines: seq<string>)
    requires forall i :: 0 <= i < |lines| ==> '\n' !in lines[i]
    ensures Lines(Unlines(lines)) == lines + [""]
  {
    if lines == [] {
      LinesOfNothing();
    } else {
      LinesOfUnlines(lines[1..]);
      LinesOf(lines[0], Unlines(lines[1..]));
      ConcatAssociates([lines[0]], lines[1..], [""]);
      assert [lines[0]] + lines[1..] == lines;
    }
  }

  // ----- The round trip -----

  function Visible(ps: seq<Pair>): seq<Pair> {
    if ps == [] then [] else (if ps[0].key == HiddenKey then [] else [ps[0]]) + Visible(ps[1..])
  }

  /** Written as `-`, and numbered again by the reader. */
  predicate Numbered(p: Pair) {
    p.key != [] && p.key[0] == '#'
  }

  /** What survives on a line of its own, but for the number. */
  predicate PairKept(p: Pair) {
    && '\n' !in p.key && '\n' !in p.value
    && if Numbered(p) then ValueKept(p.value) else EntryKept(p.key, p.value) && p.key != "-"
  }

  function NextNumber(ps: seq<Pair>, n: nat): nat {
    if ps == [] then n else NextNumber(ps[1..], if Numbered(ps[0]) then n + 1 else n)
  }

  predicate RightNumber(p: Pair, n: nat) {
    Numbered(p) ==> p.key == "#" + Decimal(n)
  }

  /** The numbered keys are numbered from n in the order in which they are written. */
  predicate InOrder(ps: seq<Pair>, n: nat) {
    ps == [] || (RightNumber(ps[0], n) && InOrder(ps[1..], if Numbered(ps[0]) then n + 1 else n))
  }

  predicate DistinctKeys(ps: seq<Pair>) {
    forall i, j :: 0 <= i < j < |ps| ==> ps[i].key != ps[j].key
  }

  predicate LinesKept(ps: seq<Pair>) {
    forall i :: 0 <= i < |ps| ==> ps[i].key == HiddenKey || PairKept(ps[i])
  }

  predicate PairsKept(ps: seq<Pair>) {
    DistinctKeys(ps) && LinesKept(ps)
  }

  predicate SectionKept(sec: Section) {
    sec.name != [] && Trimmed(sec.name) && '\n' !in sec.name && PairsKept(sec.pairs) && InOrder(sec.pairs, 1)
  }

  predicate DistinctNames(c: Config) {
    forall i, j :: 0 <= i < j < |c| ==> c[i].name != c[j].name
  }

  /** What begins with a byte order mark when it is written. */
  predicate Marked(p: Pair) {
    p.key != [] && p.key[0] == ByteOrderMark && !Signed(p.key)
  }

  /** DEFAULT has something to show, and its first line does not lose its first character. */
  predicate DefaultKept(sec: Section) {
    Visible(sec.pairs) != [] && !Marked(Visible(sec.pairs)[0])
  }

  /** DEFAULT, if there is one, comes first. */
  predicate ConfigKept(c: Config) {
    && DistinctNames(c)
    && (forall i :: 0 <= i < |c| ==> SectionKept(c[i]))
    && (forall i :: 0 <= i < |c| && c[i].name == Default ==> i == 0 && DefaultKept(c[i]))
  }

  /** What is read back: the visible pairs, and the hidden one in every named section. */
  function ReadBack(sec: Section): Section {
    Section(sec.name, (if sec.name == Default then [] else [Pair(HiddenKey, " ")]) + Visible(sec.pairs))
  }

  function AllReadBack(c: Config): Config {
    if c == [] then [] else [ReadBack(c[0])] + AllReadBack(c[1..])
  }

  /** The keys still to be read are new. */
  predicate Fresh(done: seq<Pair>, ps: seq<Pair>) {
    forall i :: 0 <= i < |ps| && ps[i].key != HiddenKey ==> !HasKey(done, ps[i].key)
  }

  /** The last section and its pairs so far; it may not be there yet. */
  predicate Ends(st: Reading, c: Config, done: seq<Pair>) {
    && st.error.None? && st.section != [] && !HasSection(c, st.section)
    && (st.config == c + [Section(st.section, done)] || (st.config == c && done == []))
  }

  function WithPairs(st: Reading, c: Config, done: seq<Pair>, count: nat): Reading {
    st.(config := c + [Section(st.section, done)], count := count)
  }

  lemma PutEnd(st: Reading, c: Config, done: seq<Pair>, k: string, v: string)
    requires Ends(st, c, done) && !HasKey(done, k)
    ensures Put(st.config, st.section, k, v) == c + [Section(st.section, done + [Pair(k, v)])]
  {
    if st.config == c && done == [] {
      PutNew(c, st.section, k, v);
      assert done + [Pair(k, v)] == [Pair(k, v)];
    } else {
      PutLast(c, st.section, done, k, v);
    }
  }

  /** A numbered pair is written as that of the key `-`. */
  lemma NumberedLine(p: Pair, pretty: bool)
    requires Numbered(p)
    ensures PrintEntry(p.key, p.value, pretty) == PrintEntry("-", p.value, pretty)
    ensures ParseLine(TrimSpace(PrintEntry(p.key, p.value, pretty))) == Entry("-", p.value) <==> ValueKept(p.value)
  {
    EntryRoundTrip("-", p.value, pretty);
  }

  lemma EntryRead(st: Reading, c: Config, done: seq<Pair>, p: Pair, pretty: bool)
    requires Ends(st, c, done) && !HasKey(done, p.key) && PairKept(p) && RightNumber(p, st.count)
    ensures ReadLine(st, PrintEntry(p.key, p.value, pretty)) == AfterPair(st, c, done, p)
  {
    if Numbered(p) {
      NumberedLine(p, pretty);
    } else {
      EntryRoundTrip(p.key, p.value, pretty);
    }
    PutEnd(st, c, done, p.key, p.value);
  }

  /** What reading the lines of the pairs comes to. */
  function AfterPairs(st: Reading, c: Config, done: seq<Pair>, ps: seq<Pair>): Reading {
    if Visible(ps) == [] then st else WithPairs(st, c, done + Visible(ps), NextNumber(ps, st.count))
  }

  function AfterPair(st: Reading, c: Config, done: seq<Pair>, p: Pair): Reading {
    WithPairs(st, c, done + [p], if Numbered(p) then st.count + 1 else st.count)
  }

  lemma AfterFirst(st: Reading, c: Config, done: seq<Pair>, ps: seq<Pair>)
    requires ps != [] && ps[0].key != HiddenKey
    ensures AfterPairs(AfterPair(st, c, done, ps[0]), c, done + [ps[0]], ps[1..]) == AfterPairs(st, c, done, ps)
  {
    var rest := ps[1..];
    ConcatAssociates(done, [ps[0]], Visible(rest));
    if Visible(rest) == [] {
      NoneVisible(rest, if Numbered(ps[0]) then st.count + 1 else st.count);
      assert Visible(ps) == [ps[0]];
    }
  }

  lemma AfterHidden(st: Reading, c: Config, done: seq<Pair>, ps: seq<Pair>, pretty: bool)
    requires Keyed(ps) && ps != [] && ps[0].key == HiddenKey
    ensures AfterPairs(st, c, done, ps[1..]) == AfterPairs(st, c, done, ps) && PairLines(ps, pretty) == PairLines(ps[1..], pretty)
  {
    assert [] + PairLines(ps[1..], pretty) == PairLines(ps[1..], pretty) && [] + Visible(ps[1..]) == Visible(ps[1..]);
  }

  /** One line of the pairs, and what holds of the others. */
  lemma FirstPairRead(st: Reading, c: Config, done: seq<Pair>, ps: seq<Pair>, pretty: bool)
    requires Ends(st, c, done) && PairsKept(ps) && InOrder(ps, st.count) && Fresh(done, ps) && ps != [] && ps[0].key != HiddenKey
    ensures var st' := AfterPair(st, c, done, ps[0]);
            Ends(st', c, done + [ps[0]]) && ReadLines(st, PairLines(ps, pretty)) == ReadLines(st', PairLines(ps[1..], pretty))
  {
    var p := ps[0];
    FirstInOrder(ps, st.count);
    EntryRead(st, c, done, p, pretty);
    ReadFirst(st, PrintEntry(p.key, p.value, pretty), PairLines(ps[1..], pretty));
  }

  lemma FirstInOrder(ps: seq<Pair>, n: nat)
    requires ps != [] && InOrder(ps, n)
    ensures RightNumber(ps[0], n) && InOrder(ps[1..], if Numbered(ps[0]) then n + 1 else n)
  {
  }

  lemma PairsKeptNext(ps: seq<Pair>)
    requires PairsKept(ps) && ps != []
    ensures PairsKept(ps[1..])
  {
    assert forall i :: 0 <= i < |ps| - 1 ==> ps[1..][i] == ps[i + 1];
  }

  lemma {:induction false} PairsRead(st: Reading, c: Config, done: seq<Pair>, ps: seq<Pair>, pretty: bool)
    requires Ends(st, c, done) && PairsKept(ps) && InOrder(ps, st.count) && Fresh(done, ps)
    ensures ReadLines(st, PairLines(ps, pretty)) == AfterPairs(st, c, done, ps)
    decreases |ps|
  {
    if ps != [] {
      PairsKeptNext(ps);
      if ps[0].key == HiddenKey {
        PairsRead(st, c, done, ps[1..], pretty);
        AfterHidden(st, c, done, ps, pretty);
      } else {
        FirstPairRead(st, c, done, ps, pretty);
        FirstInOrder(ps, st.count);
        FreshNext(done, ps);
        PairsRead(AfterPair(st, c, done, ps[0]), c, done + [ps[0]], ps[1..], pretty);
        AfterFirst(st, c, done, ps);
      }
    }
  }

  lemma {:induction false} NoneVisible(ps: seq<Pair>, n: nat)
    requires Visible(ps) == []
    ensures NextNumber(ps, n) == n
  {
    if ps != [] {
      NoneVisible(ps[1..], n);
    }
  }

  lemma FreshNext(done: seq<Pair>, ps: seq<Pair>)
    requires ps != [] && PairsKept(ps) && Fresh(done, ps)
    ensures Fresh(done + [ps[0]], ps[1..])
  {
    var rest, done' := ps[1..], done + [ps[0]];
    forall i | 0 <= i < |rest| && rest[i].key != HiddenKey
      ensures !HasKey(done', rest[i].key)
    {
      assert rest[i] == ps[i + 1] && !HasKey(done, rest[i].key) && ps[0].key != rest[i].key;
    }
  }

  lemma ReadFirst(st: Reading, line: string, rest: seq<string>)
    requires st.error.None?
    ensures ReadLines(st, [line] + rest) == ReadLines(ReadLine(st, line), rest)
  {
    assert ([line] + rest)[1..] == rest;
  }

  lemma HeaderRead(st: Reading, name: string)
    requires st.error.None? && name != [] && Trimmed(name) && !HasSection(st.config, name)
    ensures ReadLine(st, PrintHeader(name)) == Reading(st.config + [Section(name, [Pair(HiddenKey, " ")])], name, 1, None)
  {
    HeaderRoundTrip(name);
    PutNew(st.config, name, HiddenKey, " ");
  }

  lemma BlankRead(st: Reading, lines: seq<string>)
    ensures ReadLines(st, lines + [""]) == ReadLines(st, lines)
  {
    ReadLinesThen(st, lines, [""]);
  }

  lemma FreshForHidden(ps: seq<Pair>, done: seq<Pair>)
    requires done == [] || done == [Pair(HiddenKey, " ")]
    ensures Fresh(done, ps)
  {
  }

  lemma AfterSection(st: Reading, c: Config, sec: Section)
    requires st.section == sec.name && st.error.None? && st.count == 1
    requires if sec.name == Default then Visible(sec.pairs) != [] else st.config == c + [Section(sec.name, [Pair(HiddenKey, " ")])]
    ensures AfterPairs(st, c, if sec.name == Default then [] else [Pair(HiddenKey, " ")], sec.pairs)
            == Reading(c + [ReadBack(sec)], sec.name, NextNumber(sec.pairs, 1), None)
  {
    if Visible(sec.pairs) == [] {
      NoneVisible(sec.pairs, 1);
      assert ReadBack(sec).pairs == [Pair(HiddenKey, " ")];
    }
  }

  lemma NamedSectionRead(st: Reading, sec: Section, pretty: bool)
    requires st.error.None? && SectionKept(sec) && sec.name != Default && !HasSection(st.config, sec.name)
    ensures ReadLines(st, SectionLines(sec, pretty)) == Reading(st.config + [ReadBack(sec)], sec.name, NextNumber(sec.pairs, 1), None)
  {
    var hidden := [Pair(HiddenKey, " ")];
    var st' := Reading(st.config + [Section(sec.name, hidden)], sec.name, 1, None);
    HeaderRead(st, sec.name);
    FreshForHidden(sec.pairs, hidden);
    PairsRead(st', st.config, hidden, sec.pairs, pretty);
    AfterSection(st', st.config, sec);
    ReadFirst(st, PrintHeader(sec.name), PairLines(sec.pairs, pretty));
    BlankRead(st, [PrintHeader(sec.name)] + PairLines(sec.pairs, pretty));
  }

  lemma DefaultSectionRead(sec: Section, pretty: bool)
    requires SectionKept(sec) && sec.name == Default && Visible(sec.pairs) != []
    ensures ReadLines(Start, SectionLines(sec, pretty)) == Reading([ReadBack(sec)], Default, NextNumber(sec.pairs, 1), None)
  {
    var lines := PairLines(sec.pairs, pretty);
    FreshForHidden(sec.pairs, []);
    PairsRead(Start, [], [], sec.pairs, pretty);
    AfterSection(Start, [], sec);
    BlankRead(Start, lines);
    assert [] + lines == lines;
    assert [] + [ReadBack(sec)] == [ReadBack(sec)];
  }

  predicate NewSections(done: Config, c: Config) {
    forall i :: 0 <= i < |c| ==> !HasSection(done, c[i].name)
  }

  lemma NewSectionsNext(done: Config, c: Config)
    requires c != [] && ConfigKept(c) && NewSections(done, c)
    ensures NewSections(done + [ReadBack(c[0])], c[1..])
  {
    var done', rest := done + [ReadBack(c[0])], c[1..];
    forall i | 0 <= i < |rest|
      ensures !HasSection(done', rest[i].name)
    {
      assert rest[i] == c[i + 1] && !HasSection(done, rest[i].name) && c[0].name != rest[i].name;
    }
  }

  lemma {:induction false} NamedSectionsRead(st: Reading, c: Config, pretty: bool)
    requires st.error.None? && ConfigKept(c) && NewSections(st.config, c) && !HasSection(c, Default)
    ensures ReadLines(st, ConfigLines(c, pretty)).config == st.config + AllReadBack(c)
    ensures ReadLines(st, ConfigLines(c, pretty)).error.None?
    decreases |c|
  {
    if c == [] {
      assert st.config + [] == st.config;
    } else {
      var sec, rest := c[0], c[1..];
      var st' := Reading(st.config + [ReadBack(sec)], sec.name, NextNumber(sec.pairs, 1), None);
      assert ConfigKept(rest) && !HasSection(rest, Default);
      NamedSectionRead(st, sec, pretty);
      NewSectionsNext(st.config, c);
      NamedSectionsRead(st', rest, pretty);
      ReadLinesThen(st, SectionLines(sec, pretty), ConfigLines(rest, pretty));
      ConcatAssociates(st.config, [ReadBack(sec)], AllReadBack(rest));
    }
  }

  lemma ConfigRead(c: Config, pretty: bool)
    requires ConfigKept(c)
    ensures ReadLines(Start, ConfigLines(c, pretty)).config == AllReadBack(c)
    ensures ReadLines(Start, ConfigLines(c, pretty)).error.None?
  {
    if c != [] && c[0].name == Default {
      var sec, rest := c[0], c[1..];
      var st := Reading([ReadBack(sec)], Default, NextNumber(sec.pairs, 1), None);
      assert ConfigKept(rest) && !HasSection(rest, Default);
      DefaultSectionRead(sec, pretty);
      NewSectionsNext([], c);
      assert [] + [ReadBack(sec)] == [ReadBack(sec)];
      NamedSectionsRead(st, rest, pretty);
      ReadLinesThen(Start, SectionLines(sec, pretty), ConfigLines(rest, pretty));
    } else {
      NamedSectionsRead(Start, c, pretty);
      assert [] + AllReadBack(c) == AllReadBack(c);
    }
  }

  // ----- The text -----

  lemma {:induction false} PairLinesPlain(ps: seq<Pair>, pretty: bool)
    requires PairsKept(ps)
    ensures forall i :: 0 <= i < |PairLines(ps, pretty)| ==> '\n' !in PairLines(ps, pretty)[i]
  {
    if ps != [] {
      assert PairsKept(ps[1..]);
      PairLinesPlain(ps[1..], pretty);
      if ps[0].key != HiddenKey {
        assert '\n' !in PrintKey(ps[0].key) && '\n' !in PrintValue(ps[0].value) && '\n' !in Sign(pretty);
      }
    }
  }

  lemma {:induction false} ConfigLinesPlain(c: Config, pretty: bool)
    requires ConfigKept(c)
    ensures forall i :: 0 <= i < |ConfigLines(c, pretty)| ==> '\n' !in ConfigLines(c, pretty)[i]
  {
    if c != [] {
      PairLinesPlain(c[0].pairs, pretty);
      assert '\n' !in PrintHeader(c[0].name);
      assert ConfigKept(c[1..]) by {
        assert forall i :: 0 <= i < |c[1..]| ==> c[1..][i] == c[i + 1];
      }
      ConfigLinesPlain(c[1..], pretty);
    }
  }

  lemma FirstCharacter(p: Pair, pretty: bool)
    requires p.key != [] && !Marked(p)
    ensures PrintEntry(p.key, p.value, pretty) != [] && PrintEntry(p.key, p.value, pretty)[0] != ByteOrderMark
  {
    assert PrintEntry(p.key, p.value, pretty)[0] == PrintKey(p.key)[0];
  }

  lemma {:induction false} FirstLine(ps: seq<Pair>, pretty: bool)
    requires Keyed(ps) && Visible(ps) != []
    ensures var p := Visible(ps)[0]; p.key != [] && PairLines(ps, pretty) != [] && PairLines(ps, pretty)[0] == PrintEntry(p.key, p.value, pretty)
  {
    if ps[0].key == HiddenKey {
      FirstLine(ps[1..], pretty);
    }
  }

  lemma NoMark(c: Config, pretty: bool)
    requires ConfigKept(c)
    ensures WithoutMark(PrintConfig(c, pretty)) == PrintConfig(c, pretty)
  {
    if c != [] {
      if c[0].name == Default {
        FirstLine(c[0].pairs, pretty);
        FirstCharacter(Visible(c[0].pairs)[0], pretty);
      }
      var lines := ConfigLines(c, pretty);
      assert lines[0] == SectionLines(c[0], pretty)[0];
      assert Unlines(lines)[0] == (lines[0] + "\n")[0];
    }
  }

  /** Reading what was written gives back the same sections in the same order, with the same
      keys in the same order and the same values, but for the hidden key. */
  lemma ConfigRoundTrip(c: Config, pretty: bool)
    requires ConfigKept(c)
    ensures Load(PrintConfig(c, pretty)).error.None? && Load(PrintConfig(c, pretty)).config == AllReadBack(c)
  {
    NoMark(c, pretty);
    ConfigLinesPlain(c, pretty);
    LinesOfUnlines(ConfigLines(c, pretty));
    BlankRead(Start, ConfigLines(c, pretty));
    ConfigRead(c, pretty);
  }
}
