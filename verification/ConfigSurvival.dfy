/** Exactly which configurations come back from the file that is written for them. */
module ConfigSurvival {
  import opened Bytes
  import opened Wrappers
  import opened GoStrings
  import opened ConfigFormat
  import opened ConfigReading

  // ----- Nothing that is read holds a line break -----

  predicate OneLine(s: string) {
    '\n' !in s
  }

  lemma {:induction false} IndexFromFirst(s: string, pat: string, i: nat)
    ensures var r := IndexFrom(s, pat, i); forall j :: i <= j < (if r < 0 then |s| + 1 else r) ==> !At(s, pat, j)
    decreases |s| - i
  {
    if i + |pat| <= |s| && !At(s, pat, i) {
      IndexFromFirst(s, pat, i + 1);
    }
  }

  lemma BreakAt(s: string, i: nat)
    requires i < |s|
    ensures At(s, "\n", i) <==> s[i] == '\n'
  {
    assert s[i..i + 1] == [s[i]];
  }

  /** The part of a text before its first line break, or all of it. */
  lemma UpToBreak(s: string)
    ensures var i := Index(s, "\n"); OneLine(if i < 0 then s else s[..i])
  {
    IndexFromFirst(s, "\n", 0);
    var i := Index(s, "\n");
    var n := if i < 0 then |s| else i;
    forall j | 0 <= j < n
      ensures s[j] != '\n'
    {
      BreakAt(s, j);
    }
  }

  lemma {:induction false} LinesAreLines(s: string)
    ensures forall i :: 0 <= i < |Lines(s)| ==> OneLine(Lines(s)[i])
    decreases |s|
  {
    UpToBreak(s);
    var i := Index(s, "\n");
    if i >= 0 {
      LinesAreLines(s[i + 1..]);
    }
  }

  lemma {:induction false} DecimalOneLine(n: nat)
    ensures OneLine(Decimal(n))
  {
    if n >= 10 {
      DecimalOneLine(n / 10);
    }
  }

  lemma ValueOneLine(right: string)
    requires OneLine(right)
    ensures ParseValue(right).Some? ==> OneLine(ParseValue(right).value)
  {
    TrimSpaceWithin(right);
  }

  lemma EntryOneLine(line: string)
    requires OneLine(line) && line != []
    ensures ParseEntry(line).Entry? ==> OneLine(ParseEntry(line).key) && OneLine(ParseEntry(line).value)
  {
    var quote := KeyQuote(line);
    if quote != "" {
      var cut := CutQuoted(line, quote);
      if cut.Some? {
        TrimSpaceWithin(line[cut.value.1..]);
        ValueOneLine(TrimSpace(line[cut.value.1..]));
      }
    } else {
      var i := IndexSign(line);
      if i > 0 {
        TrimSpaceWithin(line[..i]);
        TrimSpaceWithin(line[i + 1..]);
        ValueOneLine(TrimSpace(line[i + 1..]));
      }
    }
  }

  predicate PairOneLine(p: Pair) {
    OneLine(p.key) && OneLine(p.value)
  }

  predicate PairsOneLine(ps: seq<Pair>) {
    forall i :: 0 <= i < |ps| ==> PairOneLine(ps[i])
  }

  predicate ConfigOneLine(c: Config) {
    forall i :: 0 <= i < |c| ==> OneLine(c[i].name) && PairsOneLine(c[i].pairs)
  }

  lemma {:induction false} PutPairOneLine(ps: seq<Pair>, k: string, v: string)
    requires PairsOneLine(ps) && PairOneLine(Pair(k, v))
    ensures PairsOneLine(PutPair(ps, k, v))
  {
    if ps != [] {
      PutPairOneLine(ps[1..], k, v);
    }
  }

  lemma {:induction false} PutOneLine(c: Config, s: string, k: string, v: string)
    requires ConfigOneLine(c) && OneLine(s) && PairOneLine(Pair(k, v))
    ensures ConfigOneLine(Put(c, s, k, v))
  {
    if c != [] {
      PutPairOneLine(c[0].pairs, k, v);
      PutOneLine(c[1..], s, k, v);
    }
  }

  lemma ReadLineOneLine(st: Reading, line: string)
    requires ConfigOneLine(st.config) && OneLine(st.section) && OneLine(line)
    ensures ConfigOneLine(ReadLine(st, line).config) && OneLine(ReadLine(st, line).section)
  {
    var text := TrimSpace(line);
    TrimSpaceWithin(line);
    var parsed := ParseLine(text);
    match parsed
    case Header(name) =>
      TrimSpaceWithin(text[1..|text| - 1]);
      PutOneLine(st.config, if name == [] then Default else name, HiddenKey, " ");
    case Entry(key, value) =>
      EntryOneLine(text);
      DecimalOneLine(st.count);
      var k := if key == "-" then "#" + Decimal(st.count) else key;
      PutOneLine(st.config, if st.section == [] then Default else st.section, k, value);
    case _ =>
  }

  lemma {:induction false} ReadLinesOneLine(st: Reading, lines: seq<string>)
    requires ConfigOneLine(st.config) && OneLine(st.section) && forall i :: 0 <= i < |lines| ==> OneLine(lines[i])
    ensures ConfigOneLine(ReadLines(st, lines).config)
    decreases |lines|
  {
    if st.error.None? && lines != [] {
      ReadLineOneLine(st, lines[0]);
      ReadLinesOneLine(ReadLine(st, lines[0]), lines[1..]);
    }
  }

  /** No name, no key and no value read from any text has a line break in it. */
  lemma LoadOneLine(text: string)
    ensures ConfigOneLine(Load(text).config)
  {
    LinesAreLines(WithoutMark(text));
    ReadLinesOneLine(Start, Lines(WithoutMark(text)));
  }

  // ----- Every line of a round trip adds a pair -----

  function Size(c: Config): nat {
    if c == [] then 0 else |c[0].pairs| + Size(c[1..])
  }

  /** Whether setting the key of the section adds a pair. */
  predicate Adds(c: Config, s: string, k: string) {
    c == [] || if c[0].name == s then !HasKey(c[0].pairs, k) else Adds(c[1..], s, k)
  }

  lemma {:induction false} PutPairSize(ps: seq<Pair>, k: string, v: string)
    ensures |PutPair(ps, k, v)| == |ps| + if HasKey(ps, k) then 0 else 1
    ensures HasKey(PutPair(ps, k, v), k) && forall k' :: HasKey(ps, k') ==> HasKey(PutPair(ps, k, v), k')
  {
    if HasKey(ps, k) {
      PutPairOld(ps, k, v);
    } else {
      PutPairNew(ps, k, v);
      var ps' := ps + [Pair(k, v)];
      assert ps'[|ps|].key == k;
      forall k' | HasKey(ps, k')
        ensures HasKey(ps', k')
      {
        var i :| 0 <= i < |ps| && ps[i].key == k';
        assert ps'[i].key == k';
      }
    }
  }

  lemma {:induction false} PutPairOld(ps: seq<Pair>, k: string, v: string)
    requires HasKey(ps, k)
    ensures |PutPair(ps, k, v)| == |ps| && forall i :: 0 <= i < |ps| ==> PutPair(ps, k, v)[i].key == ps[i].key
  {
    if ps[0].key != k {
      var i :| 0 <= i < |ps| && ps[i].key == k;
      assert ps[1..][i - 1].key == k;
      PutPairOld(ps[1..], k, v);
    }
  }

  lemma {:induction false} PutSize(c: Config, s: string, k: string, v: string)
    ensures Size(Put(c, s, k, v)) == Size(c) + if Adds(c, s, k) then 1 else 0
  {
    if c == [] {
      assert [Section(s, [Pair(k, v)])][1..] == [];
    } else {
      PutPairSize(c[0].pairs, k, v);
      PutSize(c[1..], s, k, v);
      assert Put(c, s, k, v)[1..] == if c[0].name == s then c[1..] else Put(c[1..], s, k, v);
    }
  }

  /** A key that is there stays there. */
  lemma {:induction false} PutKeeps(c: Config, s: string, k: string, s': string, k': string, v: string)
    requires !Adds(c, s, k)
    ensures !Adds(Put(c, s', k', v), s, k)
  {
    PutPairSize(c[0].pairs, k', v);
    assert Put(c, s', k', v)[1..] == if c[0].name == s' then c[1..] else Put(c[1..], s', k', v);
    if c[0].name != s {
      PutKeeps(c[1..], s, k, s', k', v);
    }
  }

  /** The same sections and pairs first. */
  predicate Extends(b: Config, a: Config) {
    |a| <= |b| && forall i :: 0 <= i < |a| ==> a[i].name == b[i].name && a[i].pairs <= b[i].pairs
  }

  lemma {:induction false} PutExtends(c: Config, s: string, k: string, v: string)
    requires Adds(c, s, k)
    ensures Extends(Put(c, s, k, v), c)
  {
    if c != [] {
      if c[0].name == s {
        PutPairNew(c[0].pairs, k, v);
      } else {
        PutExtends(c[1..], s, k, v);
        assert forall i :: 0 < i < |c| ==> c[i] == c[1..][i - 1] && Put(c, s, k, v)[i] == Put(c[1..], s, k, v)[i - 1];
      }
    }
  }

  /** Every section has a pair. */
  predicate Full(c: Config) {
    forall i :: 0 <= i < |c| ==> c[i].pairs != []
  }

  lemma {:induction false} PutFull(c: Config, s: string, k: string, v: string)
    requires Full(c)
    ensures Full(Put(c, s, k, v))
  {
    if c != [] {
      PutPairSize(c[0].pairs, k, v);
      PutFull(c[1..], s, k, v);
    }
  }

  /** What a line sets: a section, a key and a value. */
  function Sets(st: Reading, line: string): (made: Option<(string, string, string)>)
    ensures ReadLine(st, line).config == if made.None? then st.config else Put(st.config, made.value.0, made.value.1, made.value.2)
  {
    var parsed := ParseLine(TrimSpace(line));
    match parsed
    case Header(name) => Some((if name == [] then Default else name, HiddenKey, " "))
    case Entry(key, value) =>
      if st.section == "" || key == "" then None
      else if key == "-" then Some((st.section, "#" + Decimal(st.count), value))
      else Some((st.section, key, value))
    case _ => None
  }

  predicate GrowsBy(st: Reading, line: string) {
    ReadLine(st, line).error.None? && Size(ReadLine(st, line).config) > Size(st.config)
  }

  lemma GrowthAdds(st: Reading, line: string)
    ensures Size(ReadLine(st, line).config) <= Size(st.config) + 1
    ensures GrowsBy(st, line) ==> Sets(st, line).Some? && Adds(st.config, Sets(st, line).value.0, Sets(st, line).value.1)
    ensures GrowsBy(st, line) ==> Extends(ReadLine(st, line).config, st.config)
    ensures Full(st.config) ==> Full(ReadLine(st, line).config)
  {
    var sets := Sets(st, line);
    if sets.Some? {
      var (s, k, v) := sets.value;
      PutSize(st.config, s, k, v);
      if Adds(st.config, s, k) {
        PutExtends(st.config, s, k, v);
      }
      if Full(st.config) {
        PutFull(st.config, s, k, v);
      }
    }
  }

  function Filled(lines: seq<string>): nat {
    if lines == [] then 0 else (if lines[0] == "" then 0 else 1) + Filled(lines[1..])
  }

  lemma {:induction false} SizeBound(st: Reading, lines: seq<string>)
    ensures Size(ReadLines(st, lines).config) <= Size(st.config) + Filled(lines)
    decreases |lines|
  {
    if st.error.None? && lines != [] {
      GrowthAdds(st, lines[0]);
      SizeBound(ReadLine(st, lines[0]), lines[1..]);
    }
  }

  /** Every line that is not empty adds a pair. */
  predicate Grows(st: Reading, lines: seq<string>)
    decreases |lines|
  {
    st.error.None? && (lines == [] || ((lines[0] != "" ==> GrowsBy(st, lines[0])) && Grows(ReadLine(st, lines[0]), lines[1..])))
  }

  /** There are no more pairs in the end than lines to make them. */
  lemma {:induction false} MustGrow(st: Reading, lines: seq<string>)
    requires ReadLines(st, lines).error.None? && Size(ReadLines(st, lines).config) == Size(st.config) + Filled(lines)
    ensures Grows(st, lines)
    decreases |lines|
  {
    if lines != [] {
      SizeBound(ReadLine(st, lines[0]), lines[1..]);
      GrowthAdds(st, lines[0]);
      MustGrow(ReadLine(st, lines[0]), lines[1..]);
    }
  }

  lemma {:induction false} GrowsExtends(st: Reading, lines: seq<string>)
    requires Grows(st, lines)
    ensures Extends(ReadLines(st, lines).config, st.config)
    decreases |lines|
  {
    if lines != [] {
      GrowthAdds(st, lines[0]);
      GrowsExtends(ReadLine(st, lines[0]), lines[1..]);
      Transitive(ReadLines(st, lines).config, ReadLine(st, lines[0]).config, st.config);
    }
  }

  lemma Transitive(c: Config, b: Config, a: Config)
    requires Extends(c, b) && Extends(b, a)
    ensures Extends(c, a)
  {
  }

  /** A header that was read already adds nothing. */
  lemma {:induction false} HeaderTaken(st: Reading, lines: seq<string>, name: string)
    requires name != [] && Trimmed(name) && PrintHeader(name) in lines && !Adds(st.config, name, HiddenKey)
    ensures !Grows(st, lines)
    decreases |lines|
  {
    GrowthAdds(st, lines[0]);
    if lines[0] == PrintHeader(name) {
      HeaderRoundTrip(name);
    } else {
      var sets := Sets(st, lines[0]);
      if sets.Some? {
        PutKeeps(st.config, name, HiddenKey, sets.value.0, sets.value.1, sets.value.2);
      }
      HeaderTaken(ReadLine(st, lines[0]), lines[1..], name);
    }
  }

  // ----- The configuration to be read -----

  lemma {:induction false} AllReadBackAt(c: Config)
    ensures |AllReadBack(c)| == |c| && forall i :: 0 <= i < |c| ==> AllReadBack(c)[i] == ReadBack(c[i])
  {
    if c != [] {
      AllReadBackAt(c[1..]);
      assert forall i :: 0 < i < |c| ==> c[i] == c[1..][i - 1] && AllReadBack(c)[i] == AllReadBack(c[1..])[i - 1];
    }
  }

  lemma {:induction false} VisibleShown(ps: seq<Pair>)
    ensures !HasKey(Visible(ps), HiddenKey) && forall i :: 0 <= i < |Visible(ps)| ==> Visible(ps)[i] in ps
  {
    if ps != [] {
      VisibleShown(ps[1..]);
    }
  }

  /** Distinct sections; the hidden key first in all of them but DEFAULT, which has none. */
  predicate Proper(r: Config) {
    && DistinctNames(r)
    && forall i :: 0 <= i < |r| ==>
         if r[i].name == Default then !HasKey(r[i].pairs, HiddenKey) else r[i].pairs != [] && r[i].pairs[0].key == HiddenKey
  }

  lemma ReadBackProper(c: Config)
    requires DistinctNames(c)
    ensures Proper(AllReadBack(c))
  {
    AllReadBackAt(c);
    forall i | 0 <= i < |c|
      ensures !HasKey(Visible(c[i].pairs), HiddenKey)
    {
      VisibleShown(c[i].pairs);
    }
  }

  lemma {:induction false} PairLinesFilled(ps: seq<Pair>, pretty: bool)
    requires Keyed(ps)
    ensures Filled(PairLines(ps, pretty)) == |Visible(ps)|
  {
    if ps != [] {
      PairLinesFilled(ps[1..], pretty);
      if ps[0].key == HiddenKey {
        AfterHidden(Start, [], [], ps, pretty);
      } else {
        FilledFirst(PrintEntry(ps[0].key, ps[0].value, pretty), PairLines(ps[1..], pretty));
      }
    }
  }

  lemma FilledFirst(line: string, rest: seq<string>)
    ensures Filled([line] + rest) == (if line == "" then 0 else 1) + Filled(rest)
  {
    assert ([line] + rest)[1..] == rest;
  }

  lemma {:induction false} FilledThen(a: seq<string>, b: seq<string>)
    ensures Filled(a + b) == Filled(a) + Filled(b)
  {
    if a == [] {
      assert a + b == b;
    } else {
      assert (a + b)[1..] == a[1..] + b;
      FilledThen(a[1..], b);
    }
  }

  lemma SectionFilled(sec: Section, pretty: bool)
    requires Keyed(sec.pairs)
    ensures Filled(SectionLines(sec, pretty)) == |ReadBack(sec).pairs|
  {
    var top := if sec.name == Default then [] else [PrintHeader(sec.name)];
    PairLinesFilled(sec.pairs, pretty);
    FilledThen(top, PairLines(sec.pairs, pretty));
    FilledThen(top + PairLines(sec.pairs, pretty), [""]);
    assert [PrintHeader(sec.name)][1..] == [] && [""][1..] == [];
  }

  /** As many lines are written as pairs should be read. */
  lemma {:induction false} ConfigFilled(c: Config, pretty: bool)
    requires Printable(c)
    ensures Filled(ConfigLines(c, pretty)) == Size(AllReadBack(c))
  {
    if c != [] {
      ConfigFilled(c[1..], pretty);
      SectionFilled(c[0], pretty);
      FilledThen(SectionLines(c[0], pretty), ConfigLines(c[1..], pretty));
      assert AllReadBack(c)[1..] == AllReadBack(c[1..]);
    }
  }

  lemma {:induction false} HeaderWritten(c: Config, i: nat, pretty: bool)
    requires Printable(c) && i < |c| && c[i].name != Default
    ensures PrintHeader(c[i].name) in ConfigLines(c, pretty)
  {
    if i == 0 {
      assert SectionLines(c[0], pretty)[0] == PrintHeader(c[0].name);
      assert ConfigLines(c, pretty)[0] == PrintHeader(c[0].name);
    } else {
      HeaderWritten(c[1..], i - 1, pretty);
    }
  }

  // ----- What a line must be -----

  /** The rest of the lines lead to r, and each adds to it. */
  predicate Reaches(st: Reading, lines: seq<string>, r: Config) {
    Grows(st, lines) && Full(st.config) && Proper(r) && ReadLines(st, lines).config == r
  }

  lemma ReachesNext(st: Reading, line: string, rest: seq<string>, r: Config)
    requires Reaches(st, [line] + rest, r)
    ensures Reaches(ReadLine(st, line), rest, r) && Extends(r, ReadLine(st, line).config) && Extends(r, st.config)
    ensures line != "" ==> GrowsBy(st, line)
  {
    ReadFirst(st, line, rest);
    assert ([line] + rest)[1..] == rest;
    GrowthAdds(st, line);
    GrowsExtends(st, [line] + rest);
    GrowsExtends(ReadLine(st, line), rest);
  }

  /** The headers of the sections from the given one on are still to be read. */
  predicate Announced(r: Config, n: nat, rest: seq<string>) {
    forall j :: n <= j < |r| && r[j].name != Default ==> PrintHeader(r[j].name) in rest
  }

  lemma {:induction false} PutThere(c: Config, s: string, k: string, v: string)
    ensures !Adds(Put(c, s, k, v), s, k)
  {
    if c == [] {
      assert Put(c, s, k, v)[0].pairs[0].key == k;
    } else {
      PutPairSize(c[0].pairs, k, v);
      PutThere(c[1..], s, k, v);
      assert Put(c, s, k, v)[1..] == if c[0].name == s then c[1..] else Put(c[1..], s, k, v);
    }
  }

  /** The section that a pair is added to. */
  lemma {:induction false} AddedAt(c: Config, s: string, k: string, v: string) returns (i: nat)
    requires HasSection(c, s) && Adds(c, s, k)
    ensures i < |c| && c[i].name == s && !HasKey(c[i].pairs, k)
    ensures |Put(c, s, k, v)| == |c| && Put(c, s, k, v)[i].name == s && HasKey(Put(c, s, k, v)[i].pairs, k)
  {
    if c[0].name == s {
      i := 0;
      PutPairSize(c[0].pairs, k, v);
    } else {
      var j :| 0 <= j < |c| && c[j].name == s;
      assert c[1..][j - 1].name == s;
      i := AddedAt(c[1..], s, k, v);
      i := i + 1;
    }
  }

  lemma HasKeyExtended(b: seq<Pair>, a: seq<Pair>, k: string)
    requires a <= b && HasKey(a, k)
    ensures HasKey(b, k)
  {
    var i :| 0 <= i < |a| && a[i].key == k;
    assert b[i].key == k;
  }

  /** A hidden key is only ever added with its section. */
  lemma HiddenAdded(c: Config, r: Config, s: string)
    requires Extends(r, c) && Full(c) && Proper(r) && Adds(c, s, HiddenKey) && Extends(r, Put(c, s, HiddenKey, " "))
    ensures !HasSection(c, s) && s != Default && |c| < |r| && r[|c|].name == s
  {
    if HasSection(c, s) {
      var i := AddedAt(c, s, HiddenKey, " ");
      assert c[i].pairs[0].key != HiddenKey && c[i].pairs[0] == r[i].pairs[0];
      HasKeyExtended(r[i].pairs, Put(c, s, HiddenKey, " ")[i].pairs, HiddenKey);
    } else {
      PutNew(c, s, HiddenKey, " ");
      var last := Put(c, s, HiddenKey, " ")[|c|];
      assert last.pairs[0].key == HiddenKey;
      HasKeyExtended(r[|c|].pairs, last.pairs, HiddenKey);
    }
  }

  /** No other line is read as a header. */
  lemma NotHeader(st: Reading, line: string, rest: seq<string>, r: Config)
    requires Reaches(st, [line] + rest, r) && line != "" && Announced(r, |st.config|, rest)
    ensures !ParseLine(TrimSpace(line)).Header?
  {
    var parsed := ParseLine(TrimSpace(line));
    ReachesNext(st, line, rest, r);
    GrowthAdds(st, line);
    if parsed.Header? {
      var s := if parsed.name == [] then Default else parsed.name;
      HiddenAdded(st.config, r, s);
      HeaderTrimmed(TrimSpace(line));
      PutThere(st.config, s, HiddenKey, " ");
      StillAnnounced(r, |st.config|, rest);
      HeaderTaken(ReadLine(st, line), rest, s);
    }
  }

  lemma HeaderTrimmed(line: string)
    requires ParseLine(line).Header?
    ensures Trimmed(ParseLine(line).name)
  {
    TrimSpaceTrims(line[1..|line| - 1]);
  }

  lemma StillAnnounced(r: Config, n: nat, rest: seq<string>)
    requires Announced(r, n, rest) && n < |r| && r[n].name != Default
    ensures PrintHeader(r[n].name) in rest
  {
  }

  lemma {:induction false} AddsLast(c: Config, s: string, done: seq<Pair>, k: string)
    requires !HasSection(c, s) && Adds(c + [Section(s, done)], s, k)
    ensures !HasKey(done, k)
  {
    if c != [] {
      assert c[0].name != s && (c + [Section(s, done)])[1..] == c[1..] + [Section(s, done)];
      assert forall i :: 0 <= i < |c[1..]| ==> c[1..][i] == c[i + 1];
      AddsLast(c[1..], s, done, k);
    }
  }

  lemma EndAdded(st: Reading, c: Config, done: seq<Pair>, k: string, v: string, r: Config)
    requires Ends(st, c, done) && Adds(st.config, st.section, k) && Extends(r, Put(st.config, st.section, k, v))
    ensures !HasKey(done, k) && |c| < |r| && |done| < |r[|c|].pairs| && r[|c|].pairs[|done|] == Pair(k, v)
  {
    if st.config == c + [Section(st.section, done)] {
      AddsLast(c, st.section, done, k);
    }
    PutEnd(st, c, done, k, v);
    var now := Put(st.config, st.section, k, v);
    assert now[|c|].pairs == done + [Pair(k, v)] && now[|c|].pairs <= r[|c|].pairs;
    assert (done + [Pair(k, v)])[|done|] == Pair(k, v);
  }

  /** A line that is not a header adds the next pair of the last section. */
  lemma LineMakes(st: Reading, c: Config, done: seq<Pair>, line: string, rest: seq<string>, r: Config)
    requires Ends(st, c, done) && Reaches(st, [line] + rest, r) && line != "" && Announced(r, |st.config|, rest)
    ensures |c| < |r| && |done| < |r[|c|].pairs|
    ensures var parsed, p := ParseLine(TrimSpace(line)), r[|c|].pairs[|done|];
            parsed.Entry? && parsed.value == p.value && p.key == (if parsed.key == "-" then "#" + Decimal(st.count) else parsed.key) && !HasKey(done, p.key)
  {
    NotHeader(st, line, rest, r);
    ReachesNext(st, line, rest, r);
    GrowthAdds(st, line);
    var (s, k, v) := Sets(st, line).value;
    EndAdded(st, c, done, k, v, r);
  }

  // ----- What a pair must be -----

  lemma PairMust(p: Pair, n: nat, pretty: bool)
    requires p.key != [] && PairOneLine(p)
    requires var parsed := ParseLine(TrimSpace(PrintEntry(p.key, p.value, pretty)));
             parsed.Entry? && parsed.value == p.value && p.key == if parsed.key == "-" then "#" + Decimal(n) else parsed.key
    ensures PairKept(p) && RightNumber(p, n)
  {
    if Numbered(p) {
      NumberedLine(p, pretty);
      var pad := PrintedEntry("-", p.value, pretty);
      var parsed := ParseLine(TrimSpace(PrintEntry(p.key, p.value, pretty)));
      if parsed.key != "-" {
        OtherName("-", parsed.key, p.value, pad);
      }
    } else {
      EntryRoundTrip(p.key, p.value, pretty);
    }
  }

  lemma AnnouncedMore(r: Config, n: nat, m: nat, a: seq<string>, b: seq<string>)
    requires Announced(r, n, b) && n <= m
    ensures Announced(r, m, a + b)
  {
  }

  lemma KeptFirst(ps: seq<Pair>, n: nat, n': nat)
    requires ps != [] && LinesKept(ps[1..]) && InOrder(ps[1..], n') && n' == if Numbered(ps[0]) then n + 1 else n
    requires ps[0].key == HiddenKey || PairKept(ps[0])
    requires RightNumber(ps[0], n)
    ensures LinesKept(ps) && InOrder(ps, n)
  {
    assert forall i :: 0 < i < |ps| ==> ps[i] == ps[1..][i - 1];
  }

  lemma {:induction false} PairsMust(st: Reading, c: Config, done: seq<Pair>, ps: seq<Pair>, tail: seq<string>, r: Config, pretty: bool)
    requires Keyed(ps) && Ends(st, c, done) && Reaches(st, PairLines(ps, pretty) + tail, r) && Announced(r, |st.config|, tail)
    requires |c| < |r| && r[|c|].pairs == done + Visible(ps) && PairsOneLine(Visible(ps))
    ensures InOrder(ps, st.count) && LinesKept(ps)
    decreases |ps|
  {
    if ps != [] {
      var p, rest := ps[0], ps[1..];
      if p.key == HiddenKey {
        AfterHidden(st, c, done, ps, pretty);
        assert Visible(ps) == Visible(rest);
        PairsMust(st, c, done, rest, tail, r, pretty);
        KeptFirst(ps, st.count, st.count);
      } else {
        FirstMust(st, c, done, ps, tail, r, pretty);
        var st' := AfterPair(st, c, done, p);
        PairsMust(st', c, done + [p], rest, tail, r, pretty);
        KeptFirst(ps, st.count, st'.count);
      }
    }
  }

  lemma FirstMust(st: Reading, c: Config, done: seq<Pair>, ps: seq<Pair>, tail: seq<string>, r: Config, pretty: bool)
    requires Keyed(ps) && Ends(st, c, done) && Reaches(st, PairLines(ps, pretty) + tail, r) && Announced(r, |st.config|, tail)
    requires |c| < |r| && r[|c|].pairs == done + Visible(ps) && PairsOneLine(Visible(ps))
    requires ps != [] && ps[0].key != HiddenKey
    ensures PairKept(ps[0]) && RightNumber(ps[0], st.count) && PairsOneLine(Visible(ps[1..]))
    ensures var st' := AfterPair(st, c, done, ps[0]);
            Ends(st', c, done + [ps[0]]) && Reaches(st', PairLines(ps[1..], pretty) + tail, r) && Announced(r, |st'.config|, tail)
    ensures r[|c|].pairs == done + [ps[0]] + Visible(ps[1..])
  {
    var p, rest := ps[0], ps[1..];
    var line := PrintEntry(p.key, p.value, pretty);
    var more := PairLines(rest, pretty) + tail;
    ConcatAssociates([line], PairLines(rest, pretty), tail);
    AnnouncedMore(r, |st.config|, |st.config|, PairLines(rest, pretty), tail);
    LineMakes(st, c, done, line, more, r);
    assert Visible(ps) == [p] + Visible(rest);
    assert (done + Visible(ps))[|done|] == p && Visible(ps)[1..] == Visible(rest);
    ConcatAssociates(done, [p], Visible(rest));
    PairMust(p, st.count, pretty);
    EntryRead(st, c, done, p, pretty);
    ReachesNext(st, line, more, r);
  }

  // ----- What a section must be -----

  lemma HeaderParsed(name: string)
    ensures ParseLine(TrimSpace(PrintHeader(name))) == Header(TrimSpace(name))
  {
    TrimSpaceSame(PrintHeader(name));
    assert PrintHeader(name)[1..|name| + 1] == name;
  }

  /** A header is read as it is written only if no space surrounds the name. */
  lemma HeaderMust(st: Reading, name: string, rest: seq<string>, r: Config)
    requires Reaches(st, [PrintHeader(name)] + rest, r) && |st.config| < |r| && r[|st.config|].name == name
    ensures name != [] && Trimmed(name) && !HasSection(st.config, name)
    ensures Reaches(Reading(st.config + [Section(name, [Pair(HiddenKey, " ")])], name, 1, None), rest, r)
  {
    var line := PrintHeader(name);
    HeaderParsed(name);
    ReachesNext(st, line, rest, r);
    GrowthAdds(st, line);
    HiddenAdded(st.config, r, Sets(st, line).value.0);
    TrimSpaceTrims(name);
    HeaderRead(st, name);
  }

  lemma NamedMust(st: Reading, sec: Section, tail: seq<string>, r: Config, pretty: bool)
    requires Keyed(sec.pairs) && DistinctKeys(sec.pairs) && sec.name != Default
    requires Reaches(st, SectionLines(sec, pretty) + tail, r) && Announced(r, |st.config| + 1, tail)
    requires |st.config| < |r| && r[|st.config|] == ReadBack(sec) && ConfigOneLine(r)
    ensures SectionKept(sec) && !HasSection(st.config, sec.name)
  {
    var hidden, lines := [Pair(HiddenKey, " ")], PairLines(sec.pairs, pretty);
    var more := [""] + tail;
    NamedLines(PrintHeader(sec.name), lines, tail);
    HeaderMust(st, sec.name, lines + more, r);
    var st' := Reading(st.config + [Section(sec.name, hidden)], sec.name, 1, None);
    AnnouncedMore(r, |st.config| + 1, |st.config| + 1, [""], tail);
    assert PairsOneLine(r[|st.config|].pairs) && (hidden + Visible(sec.pairs))[1..] == Visible(sec.pairs);
    PairsMust(st', st.config, hidden, sec.pairs, more, r, pretty);
  }

  lemma NamedLines(top: string, lines: seq<string>, tail: seq<string>)
    ensures [top] + lines + [""] + tail == [top] + (lines + ([""] + tail))
  {
  }

  lemma {:induction false} ReadLinesFull(st: Reading, lines: seq<string>)
    requires Full(st.config)
    ensures Full(ReadLines(st, lines).config)
    decreases |lines|
  {
    if st.error.None? && lines != [] {
      GrowthAdds(st, lines[0]);
      ReadLinesFull(ReadLine(st, lines[0]), lines[1..]);
    }
  }

  lemma DefaultMust(sec: Section, tail: seq<string>, r: Config, pretty: bool)
    requires Keyed(sec.pairs) && DistinctKeys(sec.pairs) && sec.name == Default
    requires Reaches(Start, SectionLines(sec, pretty) + tail, r) && Announced(r, 1, tail)
    requires r != [] && r[0] == ReadBack(sec) && ConfigOneLine(r)
    ensures SectionKept(sec) && Visible(sec.pairs) != []
  {
    var lines := PairLines(sec.pairs, pretty);
    DefaultLines(lines, tail);
    AnnouncedMore(r, 1, 1, [""], tail);
    assert [] + Visible(sec.pairs) == Visible(sec.pairs) && PairsOneLine(r[0].pairs);
    ReadLinesFull(Start, SectionLines(sec, pretty) + tail);
    PairsMust(Start, [], [], sec.pairs, [""] + tail, r, pretty);
  }

  lemma DefaultLines(lines: seq<string>, tail: seq<string>)
    ensures [] + lines + [""] + tail == lines + ([""] + tail)
  {
  }

  /** Lines of DEFAULT are never read back after another section. */
  lemma DefaultFirst(st: Reading, c: Config, done: seq<Pair>, sec: Section, tail: seq<string>, r: Config, pretty: bool)
    requires Keyed(sec.pairs) && sec.name == Default && Ends(st, c, done)
    requires Reaches(st, SectionLines(sec, pretty) + tail, r) && Announced(r, |st.config|, tail)
    requires Visible(sec.pairs) != [] && |c| < |r|
    ensures r[|c|].pairs != done
  {
    var line, more := FirstOfDefault(sec, tail, pretty);
    AnnouncedMore(r, |st.config|, |st.config|, more, tail);
    LineMakes(st, c, done, line, more + tail, r);
  }

  lemma FirstOfDefault(sec: Section, tail: seq<string>, pretty: bool) returns (line: string, more: seq<string>)
    requires Keyed(sec.pairs) && sec.name == Default && Visible(sec.pairs) != []
    ensures line != "" && SectionLines(sec, pretty) + tail == [line] + (more + tail)
  {
    var lines := PairLines(sec.pairs, pretty);
    FirstLine(sec.pairs, pretty);
    line, more := lines[0], lines[1..] + [""];
    FirstApart(lines, tail);
  }

  lemma FirstApart(lines: seq<string>, tail: seq<string>)
    requires lines != []
    ensures [] + lines + [""] + tail == [lines[0]] + (lines[1..] + [""] + tail)
  {
  }

  // ----- What a configuration must be -----

  /** The sections that were read, and the one that was read last. */
  predicate Behind(st: Reading, done: Config) {
    st.config == AllReadBack(done) && if done == [] then st == Start else st.section == done[|done| - 1].name && st.section != []
  }

  predicate Kept(sec: Section, first: bool) {
    SectionKept(sec) && (sec.name == Default ==> first && Visible(sec.pairs) != [])
  }

  predicate WellFormed(c: Config) {
    DistinctNames(c) && Printable(c) && forall i :: 0 <= i < |c| ==> DistinctKeys(c[i].pairs)
  }

  lemma HeadersAnnounced(done: Config, c: Config, pretty: bool)
    requires Printable(c)
    ensures Announced(AllReadBack(done + c), |done|, ConfigLines(c, pretty))
  {
    AllReadBackAt(done + c);
    var r := AllReadBack(done + c);
    forall j | |done| <= j < |r| && r[j].name != Default
      ensures PrintHeader(r[j].name) in ConfigLines(c, pretty)
    {
      assert (done + c)[j] == c[j - |done|];
      HeaderWritten(c, j - |done|, pretty);
    }
  }

  lemma {:induction false} SectionsMust(st: Reading, done: Config, c: Config, pretty: bool)
    requires WellFormed(done + c) && Printable(c) && Behind(st, done) && ConfigOneLine(AllReadBack(done + c))
    requires Reaches(st, ConfigLines(c, pretty), AllReadBack(done + c))
    ensures forall i :: 0 <= i < |c| ==> Kept(c[i], done == [] && i == 0)
    decreases |c|
  {
    if c != [] {
      HeadFacts(done, c);
      var st' := SectionMust(st, done, c, pretty);
      SectionsMust(st', done + [c[0]], c[1..], pretty);
      assert forall i :: 0 < i < |c| ==> c[i] == c[1..][i - 1];
    }
  }

  lemma FirstOfLines(a: seq<string>, b: seq<string>)
    requires a != []
    ensures a + b == [a[0]] + (a[1..] + b) && a == [a[0]] + a[1..]
  {
  }

  lemma {:induction false} ReachesThen(st: Reading, a: seq<string>, b: seq<string>, r: Config)
    requires Reaches(st, a + b, r)
    ensures Reaches(ReadLines(st, a), b, r)
    decreases |a|
  {
    if a == [] {
      assert a + b == b;
    } else {
      FirstOfLines(a, b);
      ReachesNext(st, a[0], a[1..] + b, r);
      ReachesThen(ReadLine(st, a[0]), a[1..], b, r);
      ReadFirst(st, a[0], a[1..]);
    }
  }

  lemma {:induction false} AllReadBackThen(done: Config, sec: Section)
    ensures AllReadBack(done + [sec]) == AllReadBack(done) + [ReadBack(sec)]
  {
    if done == [] {
      assert done + [sec] == [sec] && [sec][1..] == [];
    } else {
      assert (done + [sec])[1..] == done[1..] + [sec];
      AllReadBackThen(done[1..], sec);
    }
  }

  /** The next section among all of them. */
  lemma HeadFacts(done: Config, c: Config)
    requires c != [] && WellFormed(done + c)
    ensures done + c == done + [c[0]] + c[1..] && Keyed(c[0].pairs) && DistinctKeys(c[0].pairs)
    ensures var r := AllReadBack(done + c);
            |done| < |r| && r[|done|] == ReadBack(c[0]) && forall i :: 0 <= i < |done| ==> r[i] == ReadBack(done[i])
  {
    assert (done + c)[|done|] == c[0];
    AllReadBackAt(done + c);
  }

  lemma SectionMust(st: Reading, done: Config, c: Config, pretty: bool) returns (st': Reading)
    requires c != [] && WellFormed(done + c) && Printable(c) && Behind(st, done) && ConfigOneLine(AllReadBack(done + c))
    requires Reaches(st, ConfigLines(c, pretty), AllReadBack(done + c))
    ensures Kept(c[0], done == []) && Behind(st', done + [c[0]])
    ensures Reaches(st', ConfigLines(c[1..], pretty), AllReadBack(done + c))
  {
    var sec, r, tail := c[0], AllReadBack(done + c), ConfigLines(c[1..], pretty);
    HeadFacts(done, c);
    HeadersAnnounced(done + [sec], c[1..], pretty);
    SectionIs(st, done, sec, tail, r, pretty);
    st' := ReadLines(st, SectionLines(sec, pretty));
    AllReadBackThen(done, sec);
    ReachesThen(st, SectionLines(sec, pretty), tail, r);
  }

  lemma SectionIs(st: Reading, done: Config, sec: Section, tail: seq<string>, r: Config, pretty: bool)
    requires Keyed(sec.pairs) && DistinctKeys(sec.pairs) && Behind(st, done) && |done| < |r| && r[|done|] == ReadBack(sec)
    requires forall i :: 0 <= i < |done| ==> r[i] == ReadBack(done[i])
    requires Reaches(st, SectionLines(sec, pretty) + tail, r) && Announced(r, |done| + 1, tail) && ConfigOneLine(r)
    ensures Kept(sec, done == [])
    ensures var st' := ReadLines(st, SectionLines(sec, pretty)); st'.config == st.config + [ReadBack(sec)] && st'.section == sec.name
  {
    AllReadBackAt(done);
    if sec.name == Default {
      DefaultPlaced(st, done, sec, tail, r, pretty);
      DefaultMust(sec, tail, r, pretty);
      DefaultSectionRead(sec, pretty);
    } else {
      NamedMust(st, sec, tail, r, pretty);
      NamedSectionRead(st, sec, pretty);
    }
  }

  lemma DefaultPlaced(st: Reading, done: Config, sec: Section, tail: seq<string>, r: Config, pretty: bool)
    requires Keyed(sec.pairs) && sec.name == Default && Behind(st, done) && |done| < |r| && r[|done|] == ReadBack(sec)
    requires forall i :: 0 <= i < |done| ==> r[i] == ReadBack(done[i])
    requires Reaches(st, SectionLines(sec, pretty) + tail, r) && Announced(r, |done| + 1, tail)
    ensures done == []
  {
    if done != [] {
      var m := |done| - 1;
      var c := AllReadBack(done[..m]);
      ReadLinesFull(st, SectionLines(sec, pretty) + tail);
      assert r[|done|].pairs == Visible(sec.pairs);
      LastSection(done, r);
      AnnouncedAfterDefault(r, |done|, tail);
      DefaultFirst(st, c, ReadBack(done[m]).pairs, sec, tail, r, pretty);
    }
  }

  lemma LastSection(done: Config, r: Config)
    requires done != [] && |done| <= |r| && DistinctNames(r) && forall i :: 0 <= i < |done| ==> r[i] == ReadBack(done[i])
    ensures var m := |done| - 1; var c := AllReadBack(done[..m]);
            AllReadBack(done) == c + [ReadBack(done[m])] && |c| == m && !HasSection(c, done[m].name)
  {
    var m := |done| - 1;
    assert done == done[..m] + [done[m]];
    AllReadBackThen(done[..m], done[m]);
    AllReadBackAt(done[..m]);
    forall i | 0 <= i < m
      ensures AllReadBack(done[..m])[i].name != done[m].name
    {
      assert r[i].name != r[m].name;
    }
  }

  lemma AnnouncedAfterDefault(r: Config, n: nat, tail: seq<string>)
    requires Announced(r, n + 1, tail) && n < |r| && r[n].name == Default
    ensures Announced(r, n, tail)
  {
  }

  // ----- The text -----

  lemma {:induction false} PairLinesOneLine(ps: seq<Pair>, pretty: bool)
    requires Keyed(ps) && PairsOneLine(Visible(ps))
    ensures forall i :: 0 <= i < |PairLines(ps, pretty)| ==> OneLine(PairLines(ps, pretty)[i])
  {
    if ps != [] {
      if ps[0].key == HiddenKey {
        AfterHidden(Start, [], [], ps, pretty);
        assert Visible(ps) == Visible(ps[1..]);
      } else {
        assert Visible(ps)[0] == ps[0] && Visible(ps)[1..] == Visible(ps[1..]);
        assert OneLine(PrintKey(ps[0].key)) && OneLine(PrintValue(ps[0].value)) && OneLine(Sign(pretty));
      }
      PairLinesOneLine(ps[1..], pretty);
    }
  }

  lemma {:induction false} ConfigLinesOneLine(c: Config, pretty: bool)
    requires Printable(c) && ConfigOneLine(AllReadBack(c))
    ensures forall i :: 0 <= i < |ConfigLines(c, pretty)| ==> OneLine(ConfigLines(c, pretty)[i])
  {
    if c != [] {
      var r := AllReadBack(c);
      assert r[0] == ReadBack(c[0]) && r[1..] == AllReadBack(c[1..]);
      assert PairsOneLine(Visible(c[0].pairs)) by {
        var shown := r[0].pairs;
        assert Visible(c[0].pairs) == shown[|shown| - |Visible(c[0].pairs)|..];
      }
      PairLinesOneLine(c[0].pairs, pretty);
      assert OneLine(PrintHeader(c[0].name));
      ConfigLinesOneLine(c[1..], pretty);
    }
  }

  function Unmarked(lines: seq<string>): seq<string> {
    if lines == [] then [] else [WithoutMark(lines[0])] + lines[1..]
  }

  lemma UnmarkedText(lines: seq<string>)
    requires forall i :: 0 <= i < |lines| ==> OneLine(lines[i])
    ensures Load(Unlines(lines)) == ReadLines(Start, Unmarked(lines))
  {
    var less := Unmarked(lines);
    UnmarkedUnlines(lines);
    UnmarkedOneLine(lines);
    LinesOfUnlines(less);
    BlankRead(Start, less);
  }

  lemma UnmarkedOneLine(lines: seq<string>)
    requires forall i :: 0 <= i < |lines| ==> OneLine(lines[i])
    ensures forall i :: 0 <= i < |Unmarked(lines)| ==> OneLine(Unmarked(lines)[i])
  {
    if lines != [] {
      assert OneLine(WithoutMark(lines[0]));
    }
  }

  lemma UnmarkedUnlines(lines: seq<string>)
    ensures WithoutMark(Unlines(lines)) == Unlines(Unmarked(lines))
  {
    if lines != [] {
      var rest := Unlines(lines[1..]);
      assert Unmarked(lines)[1..] == lines[1..];
      MarkBefore(lines[0], rest);
    }
  }

  lemma MarkBefore(line: string, rest: string)
    ensures WithoutMark(line + "\n" + rest) == WithoutMark(line) + "\n" + rest
  {
    var s := line + "\n" + rest;
    if line == [] {
      assert s[0] == '\n';
    } else {
      assert s[0] == line[0] && s[1..] == line[1..] + "\n" + rest;
    }
  }

  lemma FirstOf(c: Config, pretty: bool)
    requires Printable(c) && c != []
    ensures ConfigLines(c, pretty) != []
    ensures var line := ConfigLines(c, pretty)[0];
            if c[0].name != Default then line != [] && line[0] == '['
            else if Visible(c[0].pairs) == [] then line == "" || |line| >= 2
            else var p := Visible(c[0].pairs)[0]; p.key != [] && line == PrintEntry(p.key, p.value, pretty) && |line| >= 2
  {
    var lines := SectionLines(c[0], pretty);
    assert ConfigLines(c, pretty)[0] == lines[0];
    if c[0].name == Default {
      if Visible(c[0].pairs) == [] {
        NoLines(c[0].pairs, pretty);
      } else {
        FirstLine(c[0].pairs, pretty);
      }
    }
  }

  lemma {:induction false} NoLines(ps: seq<Pair>, pretty: bool)
    requires Keyed(ps) && Visible(ps) == []
    ensures PairLines(ps, pretty) == []
  {
    if ps != [] {
      NoLines(ps[1..], pretty);
    }
  }

  lemma UnmarkedFilled(c: Config, pretty: bool)
    requires Printable(c)
    ensures Filled(Unmarked(ConfigLines(c, pretty))) == Filled(ConfigLines(c, pretty))
  {
    if c != [] {
      FirstOf(c, pretty);
      var lines := ConfigLines(c, pretty);
      assert lines == [lines[0]] + lines[1..];
      FilledFirst(lines[0], lines[1..]);
      FilledFirst(WithoutMark(lines[0]), lines[1..]);
    }
  }

  // ----- The first line -----

  /** What is left of a name that lost its first character is no longer read as that name. */
  lemma ShortNameLost(name: string, k: string, v: string, pad: string)
    requires |name| < |k| && NoSign(k) && NoSign(name) && (pad == "" || pad == " ")
    ensures ParseLine(TrimSpace(Written(name, pad, v))) != Entry(k, v)
  {
    var pre := SplitLeft(name);
    var tail := TrimLeft(name);
    TrimLeftTrims(name);
    TrimLeftWithin(name);
    if tail == [] {
      BlankLost(name, v, pad);
    } else {
      var right := WrittenShape(pre, tail, pad, v);
      assert forall j :: 0 <= j < |tail| ==> tail[j] in name;
      TailLost(tail, k, v, pad, right);
    }
  }

  lemma TailLost(tail: string, k: string, v: string, pad: string, right: string)
    requires tail != [] && !IsSpace(tail[0]) && |tail| < |k| && NoSign(k) && NoSign(tail) && (pad == "" || pad == " ")
    ensures ParseLine((tail + pad) + ("=" + right)) != Entry(k, v)
  {
    var line := (tail + pad) + ("=" + right);
    assert line[0] == tail[0];
    if tail[0] == '"' || tail[0] == '`' {
      QuoteMistaken(k, tail, pad, right, v);
    } else if tail[0] !in {'#', ';'} && !(tail[0] == '[' && line[|line| - 1] == ']') {
      PlainLine(tail, pad, right);
      PadNoLonger(tail, pad);
    }
  }

  lemma PadNoLonger(s: string, pad: string)
    requires s != [] && !IsSpace(s[0]) && (pad == "" || pad == " ")
    ensures |TrimSpace(s + pad)| <= |s|
  {
    if pad == "" {
      assert s + pad == s;
      TrimSpaceWithin(s);
    } else {
      assert (s + pad)[..|s|] == s;
      TrimRightTrims(s);
    }
  }

  lemma MarkLost(p: Pair, pretty: bool)
    requires Marked(p)
    ensures ParseLine(TrimSpace(WithoutMark(PrintEntry(p.key, p.value, pretty)))) != Entry(p.key, p.value)
  {
    var pad := PrintedEntry(p.key, p.value, pretty);
    assert PrintEntry(p.key, p.value, pretty)[0] == p.key[0];
    assert PrintEntry(p.key, p.value, pretty)[1..] == Written(p.key[1..], pad, p.value);
    ShortNameLost(p.key[1..], p.key, p.value, pad);
  }

  /** A byte order mark does not begin the file. */
  lemma NoMarkFirst(c: Config, pretty: bool)
    requires WellFormed(c) && Reaches(Start, Unmarked(ConfigLines(c, pretty)), AllReadBack(c))
    ensures c != [] && c[0].name == Default ==> DefaultKept(c[0])
  {
    if c != [] && c[0].name == Default {
      var r, lines := AllReadBack(c), ConfigLines(c, pretty);
      FirstOf(c, pretty);
      ReadLinesFull(Start, Unmarked(lines));
      assert r[0].pairs == Visible(c[0].pairs);
      var p := r[0].pairs[0];
      var line := WithoutMark(lines[0]);
      LaterHeaders(c, pretty);
      LineMakes(Start, [], [], line, lines[1..], r);
      if Marked(p) {
        MarkLost(p, pretty);
      }
    }
  }

  lemma LaterHeaders(c: Config, pretty: bool)
    requires Printable(c) && c != [] && c[0].name == Default && Visible(c[0].pairs) != []
    ensures Announced(AllReadBack(c), 0, ConfigLines(c, pretty)[1..])
  {
    var lines, tail := SectionLines(c[0], pretty), ConfigLines(c[1..], pretty);
    assert [c[0]] + c[1..] == c && AllReadBack(c)[0].name == Default;
    HeadersAnnounced([c[0]], c[1..], pretty);
    AnnouncedMore(AllReadBack(c), 1, 1, lines[1..], tail);
    assert ConfigLines(c, pretty)[1..] == lines[1..] + tail;
  }

  // ----- The round trip -----

  /** Reading what was written gives the configuration back, but for the hidden keys. */
  predicate ComesBack(c: Config, pretty: bool)
    requires Printable(c)
  {
    var end := Load(PrintConfig(c, pretty));
    end.error.None? && end.config == AllReadBack(c)
  }

  lemma Reached(c: Config, pretty: bool)
    requires WellFormed(c) && ComesBack(c, pretty)
    ensures Reaches(Start, Unmarked(ConfigLines(c, pretty)), AllReadBack(c)) && ConfigOneLine(AllReadBack(c))
  {
    var lines := ConfigLines(c, pretty);
    LoadOneLine(PrintConfig(c, pretty));
    ConfigLinesOneLine(c, pretty);
    UnmarkedText(lines);
    ConfigFilled(c, pretty);
    UnmarkedFilled(c, pretty);
    MustGrow(Start, Unmarked(lines));
    ReadBackProper(c);
  }

  lemma OnlyKept(c: Config, pretty: bool)
    requires WellFormed(c) && ComesBack(c, pretty)
    ensures ConfigKept(c)
  {
    Reached(c, pretty);
    NoMarkFirst(c, pretty);
    var lines := ConfigLines(c, pretty);
    if c != [] {
      FirstOf(c, pretty);
      if c[0].name == Default {
        FirstCharacter(Visible(c[0].pairs)[0], pretty);
      }
    }
    assert Unmarked(lines) == lines;
    assert [] + c == c;
    SectionsMust(Start, [], c, pretty);
  }

  /** A configuration comes back from the file that is written for it if and only if every
      line of it is kept. */
  lemma RoundTripExact(c: Config, pretty: bool)
    requires WellFormed(c)
    ensures ComesBack(c, pretty) <==> ConfigKept(c)
  {
    if ConfigKept(c) {
      ConfigRoundTrip(c, pretty);
    }
    if ComesBack(c, pretty) {
      OnlyKept(c, pretty);
    }
  }

  // ----- One pair -----

  /** The configuration that holds one pair. */
  function Single(k: string, v: string): Config {
    [Section(Default, [Pair(k, v)])]
  }

  /** What comes back from a file of its own: text of one line; of the numbered keys the first
      number; of the others those that a line keeps, but for the key that asks for a number
      and for a byte order mark that would begin the file. */
  predicate Survives(k: string, v: string) {
    && '\n' !in k && '\n' !in v && ValueKept(v) && k != []
    && if k[0] == '#' then k == "#1"
       else KeyKept(k) && k != "-" && !LooksLikeHeader(k, v) && (k[0] == ByteOrderMark ==> Signed(k))
  }

  lemma SingleKept(k: string, v: string)
    requires k != [] && k != HiddenKey
    ensures ConfigKept(Single(k, v)) <==> Survives(k, v)
  {
    var p := Pair(k, v);
    OnlyPair(p);
    assert Decimal(1) == "1" && "#" + "1" == "#1";
    assert PairsKept([p]) <==> PairKept(p) by { assert [p][0] == p; }
    assert Single(k, v)[0] == Section(Default, [p]);
  }

  lemma OnlyPair(p: Pair)
    requires p.key != HiddenKey
    ensures Visible([p]) == [p] && (InOrder([p], 1) <==> RightNumber(p, 1)) && AllReadBack([Section(Default, [p])]) == [Section(Default, [p])]
  {
    var sec := Section(Default, [p]);
    assert [p][1..] == [] && [sec][1..] == [];
    assert Visible([p]) == [p];
    assert ReadBack(sec).pairs == [p];
  }

  lemma PrintedLine(k: string, v: string, pretty: bool)
    requires k != [] && k != HiddenKey
    ensures PrintConfig(Single(k, v), pretty) == Unlines([PrintEntry(k, v, pretty), ""])
  {
    var c := Single(k, v);
    var line := PrintEntry(k, v, pretty);
    assert PairLines([Pair(k, v)], pretty) == [line] + PairLines([], pretty) by { assert [Pair(k, v)][1..] == []; }
    assert SectionLines(c[0], pretty) == [line, ""];
    assert ConfigLines(c[1..], pretty) == [] by { assert c[1..] == []; }
    assert ConfigLines(c, pretty) == [line, ""];
  }

  lemma HiddenLost(v: string, pretty: bool)
    ensures Load(PrintConfig(Single(HiddenKey, v), pretty)).config == []
  {
    var c := Single(HiddenKey, v);
    assert PairLines([Pair(HiddenKey, v)], pretty) == [] by { assert [Pair(HiddenKey, v)][1..] == []; }
    assert ConfigLines(c, pretty) == [""] by { assert c[1..] == []; }
    UnmarkedText([""]);
    assert Unmarked([""]) == [] + [""];
    BlankRead(Start, []);
  }

  /** A key and a value come back from the file that is written for them if and only if they
      survive. */
  lemma SingleRoundTrip(k: string, v: string, pretty: bool)
    requires k != []
    ensures var end := Load(PrintConfig(Single(k, v), pretty));
            end.error.None? && end.config == Single(k, v) <==> Survives(k, v)
  {
    if k == HiddenKey {
      HiddenLost(v, pretty);
    } else {
      OnlyPair(Pair(k, v));
      SingleKept(k, v);
      RoundTripExact(Single(k, v), pretty);
    }
  }

  /** A line break in a value ends its line, and what follows is read as another. */
  lemma BreakSplits(k: string, a: string, b: string, pretty: bool)
    requires Survives(k, a) && k[0] != '#' && '`' !in a && '`' !in b && OneLine(b)
    ensures Load(PrintConfig(Single(k, a + "\n" + b), pretty)) == ReadLine(Start.(config := Single(k, a)), b)
  {
    var line := PrintEntry(k, a, pretty);
    PrintedLine(k, a + "\n" + b, pretty);
    BrokenLine(k, a, b, pretty);
    KeptHere(k, a, pretty);
    FirstCharacter(Pair(k, a), pretty);
    BreakRead(line, b);
  }

  lemma BrokenLine(k: string, a: string, b: string, pretty: bool)
    requires k != [] && OneLine(k) && OneLine(a) && '`' !in a && '`' !in b
    ensures OneLine(PrintEntry(k, a, pretty)) && PrintEntry(k, a + "\n" + b, pretty) == PrintEntry(k, a, pretty) + "\n" + b
  {
    assert OneLine(PrintKey(k)) && OneLine(Sign(pretty));
    var before := PrintKey(k) + Sign(pretty);
    assert before + (a + "\n" + b) == before + a + "\n" + b;
  }

  lemma KeptHere(k: string, v: string, pretty: bool)
    requires Survives(k, v) && k[0] != '#'
    ensures ReadLine(Start, PrintEntry(k, v, pretty)) == Start.(config := Single(k, v))
  {
    EntryRead(Start, [], [], Pair(k, v), pretty);
    assert [] + [Pair(k, v)] == [Pair(k, v)] && [] + Single(k, v) == Single(k, v);
  }

  lemma NotAnEntry(st: Reading)
    requires st.section == Default
    ensures ReadLine(st, "b") == st.(error := Some(CouldNotParse))
  {
    TrimSpaceSame("b");
  }

  lemma KeptAlone()
    ensures EntryKept("k", "a\nb") && Survives("k", "a") && "a\nb" == "a" + "\n" + "b"
  {
  }

  /** A value that its line keeps, and the file does not. */
  lemma BreakRefused(pretty: bool)
    ensures EntryKept("k", "a\nb") && !Survives("k", "a\nb")
    ensures Load(PrintConfig(Single("k", "a\nb"), pretty)) == Reading(Single("k", "a"), Default, 1, Some(CouldNotParse))
  {
    KeptAlone();
    BreakSplits("k", "a", "b", pretty);
    NotAnEntry(Start.(config := Single("k", "a")));
  }

  /** A line break makes two lines of one. */
  lemma BreakRead(a: string, b: string)
    requires OneLine(a) && OneLine(b) && a != [] && a[0] != ByteOrderMark && ReadLine(Start, a).error.None?
    ensures Load(Unlines([a + "\n" + b, ""])) == ReadLine(ReadLine(Start, a), b)
  {
    var lines := [a, b, ""];
    BreakApart(a, b);
    UnmarkedText(lines);
    ReadFirst(Start, a, [b] + [""]);
    ReadFirst(ReadLine(Start, a), b, [""]);
    BlankRead(ReadLine(ReadLine(Start, a), b), []);
    assert Unmarked(lines) == [a] + ([b] + [""]) && [] + [""] == [""];
  }

  lemma BreakApart(a: string, b: string)
    ensures Unlines([a + "\n" + b, ""]) == Unlines([a, b, ""])
  {
    assert [a, b, ""][1..] == [b, ""] && [b, ""][1..] == [""] && [a + "\n" + b, ""][1..] == [""];
  }

  /** The key `-` asks for a number, and comes back as that. */
  lemma DashNumbered(v: string, pretty: bool)
    requires ValueKept(v) && '\n' !in v
    ensures EntryKept("-", v) && !Survives("-", v) && Survives("#1", v)
    ensures Load(PrintConfig(Single("-", v), pretty)).config == Single("#1", v)
  {
    PrintedLine("-", v, pretty);
    PrintedLine("#1", v, pretty);
    SingleRoundTrip("#1", v, pretty);
  }
}
