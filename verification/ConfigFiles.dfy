/** The ConfigFile object of conf.go: nested maps for the values and two lists for the order. */
module ConfigFiles {
  import opened Bytes
  import opened Wrappers
  import opened GoStrings
  import opened ConfigFormat
  import opened ConfigReading
  import opened ConfigSurvival

  type Values = map<string, string>

  predicate NoDuplicates(s: seq<string>) {
    forall i, j :: 0 <= i < j < |s| ==> s[i] != s[j]
  }

  /** The pairs of one section, in the order of its key list. */
  function Pairs(keys: seq<string>, m: Values): seq<Pair> {
    if keys == [] then []
    else [Pair(keys[0], if keys[0] in m then m[keys[0]] else "")] + Pairs(keys[1..], m)
  }

  /** The whole configuration, in the order of the lists. */
  function View(list: seq<string>, keyList: map<string, seq<string>>, data: map<string, Values>): Config {
    if list == [] then []
    else [SectionView(list[0], keyList, data)] + View(list[1..], keyList, data)
  }

  function SectionView(s: string, keyList: map<string, seq<string>>, data: map<string, Values>): Section {
    Section(s, if s in keyList && s in data then Pairs(keyList[s], data[s]) else [])
  }

  /** The lists name exactly what the maps hold, once each. */
  ghost predicate Lists(list: seq<string>, keyList: map<string, seq<string>>, data: map<string, Values>) {
    && NoDuplicates(list)
    && (forall s :: s in list <==> s in data)
    && (forall s :: s in keyList <==> s in data)
    && (forall s :: s in data ==> KeysListed(keyList[s], data[s]))
  }

  ghost predicate KeysListed(keys: seq<string>, m: Values) {
    NoDuplicates(keys) && "" !in keys && forall k :: k in keys <==> k in m
  }

  // ----- Setting -----

  lemma {:induction false} PairsSame(keys: seq<string>, m: Values, m': Values)
    requires forall k :: k in keys ==> (k in m <==> k in m') && (k in m ==> m[k] == m'[k])
    ensures Pairs(keys, m) == Pairs(keys, m')
  {
    if keys != [] {
      PairsSame(keys[1..], m, m');
    }
  }

  lemma {:induction false} PairsPut(keys: seq<string>, m: Values, k: string, v: string)
    requires NoDuplicates(keys)
    ensures Pairs(if k in keys then keys else keys + [k], m[k := v]) == PutPair(Pairs(keys, m), k, v)
  {
    if keys != [] {
      var rest := keys[1..];
      assert NoDuplicates(rest);
      if keys[0] == k {
        assert k !in rest;
        PairsSame(rest, m, m[k := v]);
      } else {
        PairsPut(rest, m, k, v);
        assert (keys + [k])[1..] == rest + [k];
      }
    }
  }

  lemma {:induction false} ViewSame(list: seq<string>, keyList: map<string, seq<string>>, data: map<string, Values>, s: string, keys: seq<string>, m: Values)
    requires s !in list
    ensures View(list, keyList[s := keys], data[s := m]) == View(list, keyList, data)
  {
    if list != [] {
      ViewSame(list[1..], keyList, data, s, keys, m);
    }
  }

  function OldPairs(list: seq<string>, keyList: map<string, seq<string>>, data: map<string, Values>, s: string): seq<Pair> {
    if s in list then SectionView(s, keyList, data).pairs else []
  }

  /** One section gets new keys and values, and is appended if it was not there. */
  lemma {:induction false} ViewPut(list: seq<string>, keyList: map<string, seq<string>>, data: map<string, Values>,
                                   s: string, k: string, v: string, keys: seq<string>, m: Values)
    requires NoDuplicates(list) && Pairs(keys, m) == PutPair(OldPairs(list, keyList, data, s), k, v)
    ensures View(WithName(list, s), keyList[s := keys], data[s := m]) == Put(View(list, keyList, data), s, k, v)
  {
    if list == [] {
      ViewOfOne(s, keyList[s := keys], data[s := m]);
    } else {
      var rest := list[1..];
      assert NoDuplicates(rest);
      if list[0] == s {
        assert s !in rest;
        ViewSame(rest, keyList, data, s, keys, m);
      } else {
        ViewPut(rest, keyList, data, s, k, v, keys, m);
        ViewElsewhere(list, keyList, data, s, keys, m);
      }
    }
  }

  /** The first section is not the one that changes. */
  lemma ViewElsewhere(list: seq<string>, keyList: map<string, seq<string>>, data: map<string, Values>, s: string, keys: seq<string>, m: Values)
    requires list != [] && list[0] != s
    ensures View(WithName(list, s), keyList[s := keys], data[s := m])
            == [SectionView(list[0], keyList, data)] + View(WithName(list[1..], s), keyList[s := keys], data[s := m])
  {
    assert WithName(list, s)[1..] == WithName(list[1..], s);
  }

  function WithName(list: seq<string>, s: string): seq<string> {
    if s in list then list else list + [s]
  }

  lemma ViewOfOne(s: string, keyList: map<string, seq<string>>, data: map<string, Values>)
    ensures View([s], keyList, data) == [SectionView(s, keyList, data)]
  {
    assert View([s][1..], keyList, data) == [];
  }

  lemma KeysListedPut(keys: seq<string>, m: Values, k: string, v: string)
    requires KeysListed(keys, m) && k != ""
    ensures KeysListed(if k in keys then keys else keys + [k], m[k := v])
  {
  }

  lemma ListsPut(list: seq<string>, keyList: map<string, seq<string>>, data: map<string, Values>, s: string, keys: seq<string>, m: Values)
    requires Lists(list, keyList, data) && KeysListed(keys, m)
    ensures Lists(WithName(list, s), keyList[s := keys], data[s := m])
  {
  }

  // ----- Deleting -----

  /** A list without its element i. */
  function Without(s: seq<string>, i: nat): seq<string>
    requires i < |s|
  {
    s[..i] + s[i + 1..]
  }

  lemma WithoutElements(s: seq<string>, i: nat)
    requires i < |s| && NoDuplicates(s)
    ensures NoDuplicates(Without(s, i)) && forall x :: x in Without(s, i) <==> x in s && x != s[i]
  {
    forall x | x in s && x != s[i]
      ensures x in Without(s, i)
    {
      var j :| 0 <= j < |s| && s[j] == x;
      assert Without(s, i)[if j < i then j else j - 1] == x;
    }
  }

  lemma WithoutLater(s: seq<string>, i: nat)
    requires 0 < i < |s|
    ensures Without(s, i) == [s[0]] + Without(s[1..], i - 1)
  {
  }

  lemma {:induction false} PairsRemoved(keys: seq<string>, i: nat, m: Values)
    requires i < |keys| && NoDuplicates(keys)
    ensures Pairs(Without(keys, i), m - {keys[i]}) == WithoutPair(Pairs(keys, m), keys[i])
  {
    var rest := keys[1..];
    assert NoDuplicates(rest);
    if i == 0 {
      assert Without(keys, 0) == rest && keys[0] !in rest;
      PairsSame(rest, m, m - {keys[0]});
    } else {
      PairsRemoved(rest, i - 1, m);
      WithoutLater(keys, i);
    }
  }

  lemma {:induction false} ViewWithoutKey(list: seq<string>, keyList: map<string, seq<string>>, data: map<string, Values>,
                                          s: string, k: string, keys: seq<string>, m: Values)
    requires NoDuplicates(list) && Pairs(keys, m) == WithoutPair(SectionView(s, keyList, data).pairs, k)
    ensures View(list, keyList[s := keys], data[s := m]) == WithoutKey(View(list, keyList, data), s, k)
  {
    if list != [] {
      var rest := list[1..];
      assert NoDuplicates(rest);
      if list[0] == s {
        assert s !in rest;
        ViewSame(rest, keyList, data, s, keys, m);
      } else {
        ViewWithoutKey(rest, keyList, data, s, k, keys, m);
      }
    }
  }

  lemma {:induction false} ViewGone(list: seq<string>, keyList: map<string, seq<string>>, data: map<string, Values>, s: string)
    requires s !in list
    ensures View(list, keyList - {s}, data - {s}) == View(list, keyList, data)
  {
    if list != [] {
      ViewGone(list[1..], keyList, data, s);
    }
  }

  lemma {:induction false} ViewWithoutSection(list: seq<string>, i: nat, keyList: map<string, seq<string>>, data: map<string, Values>)
    requires i < |list| && NoDuplicates(list)
    ensures View(Without(list, i), keyList - {list[i]}, data - {list[i]}) == WithoutSection(View(list, keyList, data), list[i])
  {
    var rest := list[1..];
    assert NoDuplicates(rest);
    if i == 0 {
      assert Without(list, 0) == rest && list[0] !in rest;
      ViewGone(rest, keyList, data, list[0]);
    } else {
      ViewWithoutSection(rest, i - 1, keyList, data);
      WithoutLater(list, i);
    }
  }

  lemma ListsWithoutKey(list: seq<string>, keyList: map<string, seq<string>>, data: map<string, Values>, s: string, i: nat)
    requires Lists(list, keyList, data) && s in data && i < |keyList[s]|
    ensures Lists(list, keyList[s := Without(keyList[s], i)], data[s := data[s] - {keyList[s][i]}])
  {
    WithoutElements(keyList[s], i);
    assert KeysListed(Without(keyList[s], i), data[s] - {keyList[s][i]});
  }

  lemma ListsWithoutSection(list: seq<string>, keyList: map<string, seq<string>>, data: map<string, Values>, i: nat)
    requires Lists(list, keyList, data) && i < |list|
    ensures Lists(Without(list, i), keyList - {list[i]}, data - {list[i]})
  {
    WithoutElements(list, i);
  }

  /** The search loop of both deletions. */
  method IndexOf(s: seq<string>, x: string) returns (i: nat)
    requires x in s
    ensures i < |s| && s[i] == x
  {
    i := 0;
    while s[i] != x
      invariant i < |s| && x !in s[..i]
      decreases |s| - i
    {
      assert s[..i + 1] == s[..i] + [s[i]];
      assert i + 1 < |s| by {
        assert s[..|s|] == s;
      }
      i := i + 1;
    }
  }

  class ConfigFile {
    var data: map<string, Values>
    var sectionList: seq<string>
    var keyList: map<string, seq<string>>
    var prettyFormat: bool

    ghost predicate Valid()
      reads this
    {
      Lists(sectionList, keyList, data)
    }

    ghost function Contents(): Config
      reads this
    {
      View(sectionList, keyList, data)
    }

    constructor ()
      ensures Valid() && Contents() == [] && prettyFormat
    {
      data, sectionList, keyList, prettyFormat := map[], [], map[], true;
    }

    method SetValue(section: string, key: string, value: string) returns (inserted: bool)
      requires Valid()
      modifies this`data, this`sectionList, this`keyList
      ensures Valid() && Contents() == ConfigReading.SetValue(old(Contents()), section, key, value)
      ensures var s := if section == [] then Default else section;
              inserted <==> key != [] && !(s in old(data) && key in old(data)[s])
    {
      var s := if section == [] then Default else section;
      if key == [] {
        return false;
      }
      var keys, m := [], map[];
      if s in data {
        keys, m := keyList[s], data[s];
      }
      inserted := key !in m;
      Put(s, key, value, keys, m);
    }

    /** The values are stored, and the names appended to the lists they are not in. */
    method Put(s: string, key: string, value: string, keys: seq<string>, m: Values)
      requires Valid() && key != [] && s != []
      requires keys == if s in data then keyList[s] else []
      requires m == if s in data then data[s] else map[]
      modifies this`data, this`sectionList, this`keyList
      ensures Valid() && Contents() == ConfigReading.Put(old(Contents()), s, key, value)
    {
      var keys' := if key in m then keys else keys + [key];
      assert KeysListed(keys, m);
      PairsPut(keys, m, key, value);
      ViewPut(sectionList, keyList, data, s, key, value, keys', m[key := value]);
      KeysListedPut(keys, m, key, value);
      ListsPut(sectionList, keyList, data, s, keys', m[key := value]);
      if s !in data {
        sectionList := sectionList + [s];
      }
      data := data[s := m[key := value]];
      keyList := keyList[s := keys'];
    }

    method DeleteKey(section: string, key: string) returns (deleted: bool)
      requires Valid()
      modifies this`data, this`keyList
      ensures var s := if section == [] then Default else section;
              Valid() && (deleted <==> s in old(data) && key in old(data)[s]) &&
              Contents() == if deleted then WithoutKey(old(Contents()), s, key) else old(Contents())
    {
      var s := if section == [] then Default else section;
      if s !in data || key !in data[s] {
        return false;
      }
      var keys, m := keyList[s], data[s];
      assert KeysListed(keys, m);
      var i := IndexOf(keys, key);
      PairsRemoved(keys, i, m);
      ViewWithoutKey(sectionList, keyList, data, s, key, Without(keys, i), m - {key});
      ListsWithoutKey(sectionList, keyList, data, s, i);
      data := data[s := m - {key}];
      keyList := keyList[s := Without(keys, i)];
      return true;
    }

    method DeleteSection(section: string) returns (deleted: bool)
      requires Valid()
      modifies this`data, this`sectionList, this`keyList
      ensures var s := if section == [] then Default else section;
              Valid() && (deleted <==> s in old(data)) &&
              Contents() == if deleted then WithoutSection(old(Contents()), s) else old(Contents())
    {
      var s := if section == [] then Default else section;
      if s !in data {
        return false;
      }
      var i := IndexOf(sectionList, s);
      ViewWithoutSection(sectionList, i, keyList, data);
      ListsWithoutSection(sectionList, keyList, data, i);
      data := data - {s};
      sectionList := Without(sectionList, i);
      keyList := keyList - {s};
      return true;
    }

    /** SetValue, where the reader does not look at its result. */
    method Store(section: string, key: string, value: string)
      requires Valid()
      modifies this`data, this`sectionList, this`keyList
      ensures Valid() && Contents() == ConfigReading.SetValue(old(Contents()), section, key, value)
    {
      var inserted := SetValue(section, key, value);
    }

    /** One line, already trimmed. */
    method ReadOne(line: string, section: string, count: nat) returns (section': string, count': nat, error: Option<Error>)
      requires Valid()
      modifies this`data, this`sectionList, this`keyList
      ensures Valid()
      ensures forall raw :: TrimSpace(raw) == line ==>
                ReadLine(Reading(old(Contents()), section, count, None), raw) == Reading(Contents(), section', count', error)
    {
      section', count', error := section, count, None;
      match ParseLine(line) {
        case Blank =>
        case Comment =>
        case Header(name) =>
          section' := name;
          Store(section', HiddenKey, " ");
          count' := 1;
        case Entry(key, value) =>
          if section == "" {
            error := Some(BlankSectionName);
          } else if key == "-" {
            Store(section, "#" + Decimal(count), value);
            count' := count + 1;
          } else {
            Store(section, key, value);
          }
        case Malformed => error := Some(if section == "" then BlankSectionName else CouldNotParse);
      }
    }

    /** Reads a text on top of what is there already. */
    method Read(text: string) returns (error: Option<Error>)
      requires Valid()
      modifies this`data, this`sectionList, this`keyList
      ensures Valid()
      ensures var end := ReadLines(Reading(old(Contents()), Default, 1, None), Lines(WithoutMark(text)));
              Contents() == end.config && error == end.error
    {
      ghost var end := ReadLines(Reading(Contents(), Default, 1, None), Lines(WithoutMark(text)));
      var rest, section, count, eof := WithoutMark(text), Default, 1, false;
      error := None;
      while !eof
        invariant Valid() && error.None?
        invariant ReadLines(Reading(Contents(), section, count, None), if eof then [] else Lines(rest)) == end
        decreases !eof, |rest|
      {
        var i := Index(rest, "\n");
        eof := i < 0;
        var line := if eof then rest else rest[..i];
        rest := if eof then "" else rest[i + 1..];
        ReadFirst(Reading(Contents(), section, count, None), line, if eof then [] else Lines(rest));
        section, count, error := ReadOne(TrimSpace(line), section, count);
        if error.Some? {
          return;
        }
      }
    }

    /** The keys of one section, but for the hidden one. */
    method SavePairs(keys: seq<string>, m: Values) returns (text: string)
      requires KeysListed(keys, m)
      ensures Keyed(Pairs(keys, m)) && text == Unlines(PairLines(Pairs(keys, m), prettyFormat))
    {
      ghost var pretty := prettyFormat;
      PairsNamed(keys, m);
      text := "";
      var j := 0;
      assert keys[0..] == keys;
      while j < |keys|
        invariant 0 <= j <= |keys|
        invariant text + PairsText(keys[j..], m, pretty) == PairsText(keys, m, pretty)
      {
        var key := keys[j];
        SavedPair(keys, j, m, pretty, text);
        if key != HiddenKey {
          text := text + (PrintEntry(key, m[key], prettyFormat) + "\n");
        }
        j := j + 1;
      }
      assert keys[j..] == [];
    }

    method SaveSection(s: string) returns (text: string)
      requires Valid() && s in data
      ensures text == SectionText(s, keyList, data, prettyFormat)
    {
      text := if s == Default then "" else PrintHeader(s) + "\n";
      var body := SavePairs(keyList[s], data[s]);
      SavedSection(SectionView(s, keyList, data), prettyFormat);
      text := text + body + "\n";
    }

    method SaveSections() returns (text: string)
      requires Valid()
      ensures text == ViewText(sectionList, keyList, data, prettyFormat)
    {
      text := "";
      var i := 0;
      assert sectionList[0..] == sectionList;
      while i < |sectionList|
        invariant 0 <= i <= |sectionList|
        invariant text + ViewText(sectionList[i..], keyList, data, prettyFormat) == ViewText(sectionList, keyList, data, prettyFormat)
      {
        var section := SaveSection(sectionList[i]);
        SavedView(sectionList, i, keyList, data, prettyFormat, text);
        text := text + section;
        i := i + 1;
      }
      assert sectionList[i..] == [];
    }

    /** SaveConfigData. */
    method Save() returns (text: string)
      requires Valid()
      ensures Printable(Contents()) && text == PrintConfig(Contents(), prettyFormat)
    {
      ListsPrintable(sectionList, keyList, data);
      text := SaveSections();
    }
  }

  // ----- Printing -----

  lemma {:induction false} PairsNamed(keys: seq<string>, m: Values)
    requires "" !in keys
    ensures Keyed(Pairs(keys, m))
  {
    if keys != [] {
      PairsNamed(keys[1..], m);
    }
  }

  lemma {:induction false} UnlinesThen(a: seq<string>, b: seq<string>)
    ensures Unlines(a + b) == Unlines(a) + Unlines(b)
  {
    if a == [] {
      assert a + b == b;
    } else {
      UnlinesThen(a[1..], b);
      assert (a + b)[1..] == a[1..] + b;
      ConcatAssociates(a[0] + "\n", Unlines(a[1..]), Unlines(b));
    }
  }

  lemma UnlinesOne(line: string)
    ensures Unlines([line]) == line + "\n"
  {
    assert Unlines([]) == "";
    assert line + "\n" + "" == line + "\n";
  }

  /** What is written for the keys. */
  function PairsText(keys: seq<string>, m: Values, pretty: bool): string {
    var ps := Pairs(keys, m);
    if Keyed(ps) then Unlines(PairLines(ps, pretty)) else ""
  }

  /** One turn of the loop over the keys. */
  lemma SavedPair(keys: seq<string>, j: nat, m: Values, pretty: bool, text: string)
    requires j < |keys| && keys[j] in m && "" !in keys
    ensures text + PairsText(keys[j..], m, pretty) ==
            (if keys[j] == HiddenKey then text else text + (PrintEntry(keys[j], m[keys[j]], pretty) + "\n")) + PairsText(keys[j + 1..], m, pretty)
  {
    var now, next := keys[j..], keys[j + 1..];
    assert now[1..] == next;
    PairsNamed(now, m);
    PairsNamed(next, m);
    var ps, rest := Pairs(now, m), Pairs(next, m);
    assert ps[1..] == rest;
    var lines := PairLines(rest, pretty);
    if keys[j] == HiddenKey {
      assert [] + lines == lines;
    } else {
      var line := PrintEntry(keys[j], m[keys[j]], pretty);
      UnlinesThen([line], lines);
      UnlinesOne(line);
      ConcatAssociates(text, line + "\n", Unlines(lines));
    }
  }

  lemma SavedSection(sec: Section, pretty: bool)
    requires Keyed(sec.pairs)
    ensures Unlines(SectionLines(sec, pretty)) ==
            (if sec.name == Default then "" else PrintHeader(sec.name) + "\n") + Unlines(PairLines(sec.pairs, pretty)) + "\n"
  {
    var head := if sec.name == Default then [] else [PrintHeader(sec.name)];
    var lines := PairLines(sec.pairs, pretty);
    UnlinesThen(head + lines, [""]);
    UnlinesThen(head, lines);
    UnlinesOne("");
    UnlinesOne(PrintHeader(sec.name));
    assert "" + "\n" == "\n";
  }

  lemma {:induction false} ListsPrintable(list: seq<string>, keyList: map<string, seq<string>>, data: map<string, Values>)
    requires forall s :: s in list ==> s in data && s in keyList && KeysListed(keyList[s], data[s])
    ensures Printable(View(list, keyList, data))
  {
    if list != [] {
      PairsNamed(keyList[list[0]], data[list[0]]);
      ListsPrintable(list[1..], keyList, data);
      assert Keyed(View(list, keyList, data)[0].pairs);
    }
  }

  function ViewText(list: seq<string>, keyList: map<string, seq<string>>, data: map<string, Values>, pretty: bool): string {
    var c := View(list, keyList, data);
    if Printable(c) then PrintConfig(c, pretty) else ""
  }

  function SectionText(s: string, keyList: map<string, seq<string>>, data: map<string, Values>, pretty: bool): string {
    var sec := SectionView(s, keyList, data);
    if Keyed(sec.pairs) then Unlines(SectionLines(sec, pretty)) else ""
  }

  /** One turn of the loop over the sections. */
  lemma SavedView(list: seq<string>, i: nat, keyList: map<string, seq<string>>, data: map<string, Values>, pretty: bool, text: string)
    requires i < |list| && Lists(list, keyList, data)
    ensures text + ViewText(list[i..], keyList, data, pretty) ==
            text + SectionText(list[i], keyList, data, pretty) + ViewText(list[i + 1..], keyList, data, pretty)
  {
    var now, next := list[i..], list[i + 1..];
    assert now[1..] == next;
    ListsPrintable(now, keyList, data);
    ListsPrintable(next, keyList, data);
    var c, rest := View(now, keyList, data), View(next, keyList, data);
    assert c[1..] == rest && c[0] == SectionView(list[i], keyList, data);
    UnlinesThen(SectionLines(c[0], pretty), ConfigLines(rest, pretty));
    ConcatAssociates(text, SectionText(list[i], keyList, data, pretty), PrintConfig(rest, pretty));
  }

  // ----- The round trip -----

  lemma {:induction false} PairsAt(keys: seq<string>, m: Values)
    ensures |Pairs(keys, m)| == |keys| && forall i :: 0 <= i < |keys| ==> Pairs(keys, m)[i].key == keys[i]
  {
    if keys != [] {
      PairsAt(keys[1..], m);
    }
  }

  lemma {:induction false} ViewAt(list: seq<string>, keyList: map<string, seq<string>>, data: map<string, Values>)
    ensures var c := View(list, keyList, data);
            |c| == |list| && forall i :: 0 <= i < |list| ==> c[i] == SectionView(list[i], keyList, data)
  {
    if list != [] {
      ViewAt(list[1..], keyList, data);
      assert forall i :: 0 < i < |list| ==> list[i] == list[1..][i - 1] && View(list, keyList, data)[i] == View(list[1..], keyList, data)[i - 1];
    }
  }

  /** What the object holds has each section and each key once. */
  lemma ListsWellFormed(list: seq<string>, keyList: map<string, seq<string>>, data: map<string, Values>)
    requires Lists(list, keyList, data)
    ensures WellFormed(View(list, keyList, data))
  {
    var c := View(list, keyList, data);
    ViewAt(list, keyList, data);
    ListsPrintable(list, keyList, data);
    forall i | 0 <= i < |c|
      ensures DistinctKeys(c[i].pairs)
    {
      assert list[i] in list && KeysListed(keyList[list[i]], data[list[i]]);
      PairsAt(keyList[list[i]], data[list[i]]);
    }
  }

  /** Saving any configuration and reading it into a new one gives the same configuration,
      but for the hidden keys, if and only if every line of it is kept. */
  method SaveAndRead(c: ConfigFile) returns (d: ConfigFile, error: Option<Error>)
    requires c.Valid()
    ensures fresh(d) && d.Valid()
    ensures error.None? && d.Contents() == AllReadBack(c.Contents()) <==> ConfigKept(c.Contents())
  {
    var text := c.Save();
    d := new ConfigFile();
    ListsWellFormed(c.sectionList, c.keyList, c.data);
    RoundTripExact(c.Contents(), c.prettyFormat);
    error := d.Read(text);
  }
}
