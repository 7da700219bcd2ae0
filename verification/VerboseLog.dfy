/** V-style logging of glog.go: a verbosity, per-module filters, and a cache of the level of
    each call site. */
module VerboseLog {
  import opened Wrappers
  import opened GoStrings

  type Pc = int

  /** One entry of the -vmodule flag. */
  datatype Filter = Filter(pattern: string, literal: bool, level: int)

  /** One comma-separated piece of the flag's text. */
  datatype Item = Empty | Bad | Item(pattern: string, level: int)

  predicate IsMeta(c: char) {
    c == '\\' || c == '*' || c == '?' || c == '[' || c == ']'
  }

  predicate IsLiteral(pattern: string) {
    forall i :: 0 <= i < |pattern| ==> !IsMeta(pattern[i])
  }

  /** The base name of a file without the .go suffix. */
  function ModuleName(file: string): (name: string)
    ensures '/' !in name
  {
    var stem := if |file| >= 3 && file[|file| - 3..] == ".go" then file[..|file| - 3] else file;
    var slash := LastIndex(stem, "/");
    NoSlashAfter(stem);
    stem[slash + 1..]
  }

  lemma {:induction false} LastIndexFromIsLast(s: string, pat: string, i: int, j: int)
    requires LastIndexFrom(s, pat, i) < j <= i
    ensures !At(s, pat, j)
    decreases i + 1
  {
    if i >= 0 && !At(s, pat, i) && j < i {
      LastIndexFromIsLast(s, pat, i - 1, j);
    }
  }

  lemma NoSlashAt(s: string, j: nat)
    requires j < |s| && !At(s, "/", j)
    ensures s[j] != '/'
  {
    assert s[j..j + 1] == [s[j]];
  }

  lemma NoSlashAfter(s: string)
    ensures '/' !in s[LastIndex(s, "/") + 1..]
  {
    var slash := LastIndex(s, "/");
    var tail := s[slash + 1..];
    forall k | 0 <= k < |tail|
      ensures tail[k] != '/'
    {
      LastIndexFromIsLast(s, "/", |s| - 1, slash + 1 + k);
      NoSlashAt(s, slash + 1 + k);
    }
  }

  /** How far a run without the cache gets: the settings alone. */
  datatype Settings = Settings(verbosity: int, filters: seq<Filter>)

  /** The pieces from position i on, behind those already taken. Pieces without a level are
      left out; a bad piece spoils the flag. */
  function ParseFrom(items: seq<Item>, i: nat, taken: seq<Filter>): Option<seq<Filter>>
    decreases |items| - i
  {
    if i >= |items| then Some(taken)
    else
      match items[i]
      case Empty => ParseFrom(items, i + 1, taken)
      case Bad => None
      case Item(pattern, level) =>
        if level < 0 then None
        else ParseFrom(items, i + 1, if level == 0 then taken else taken + [Filter(pattern, IsLiteral(pattern), level)])
  }

  function ParseItems(items: seq<Item>): Option<seq<Filter>> {
    ParseFrom(items, 0, [])
  }

  // ----- What the flag means -----

  /** The piece is well formed: empty, or a pattern with a level that is not negative. */
  predicate Accepted(item: Item) {
    item.Empty? || (item.Item? && item.level >= 0)
  }

  /** The filters that the pieces ask for, in their order. */
  function Wanted(items: seq<Item>): seq<Filter> {
    if items == [] then []
    else
      var front, last := Wanted(items[..|items| - 1]), items[|items| - 1];
      if last.Item? && last.level > 0 then front + [Filter(last.pattern, IsLiteral(last.pattern), last.level)] else front
  }

  lemma {:induction false} ParseFromExact(items: seq<Item>, i: nat, taken: seq<Filter>)
    requires i <= |items| && taken == Wanted(items[..i])
    ensures ParseFrom(items, i, taken)
            == if forall j :: i <= j < |items| ==> Accepted(items[j]) then Some(Wanted(items)) else None
    decreases |items| - i
  {
    if i == |items| {
      assert items[..i] == items;
    } else {
      assert items[..i + 1][..i] == items[..i];
      if Accepted(items[i]) {
        ParseFromExact(items, i + 1, Wanted(items[..i + 1]));
      }
    }
  }

  /** The flag is taken if and only if every piece is well formed, and then gives exactly the
      filters with a level above zero, in their order. */
  lemma ParseExact(items: seq<Item>)
    ensures ParseItems(items) == if forall j :: 0 <= j < |items| ==> Accepted(items[j]) then Some(Wanted(items)) else None
  {
    assert items[..0] == [];
    ParseFromExact(items, 0, []);
  }

  /** The directory and the suffix go, and nothing else. */
  lemma ModuleNameIs(dir: string, base: string, suffixed: bool)
    requires '/' !in base && (!suffixed ==> |base| < 3 || base[|base| - 3..] != ".go")
    ensures var name := base + if suffixed then ".go" else "";
            ModuleName(name) == base && ModuleName(dir + "/" + name) == base
  {
    var suffix := if suffixed then ".go" else "";
    NameFrom([], base, suffixed);
    NameFrom(dir + "/", base, suffixed);
    assert [] + base == base;
    ConcatThrice(dir + "/", base, suffix);
  }

  lemma ConcatThrice(a: string, b: string, c: string)
    ensures a + (b + c) == a + b + c
  {
  }

  lemma NameFrom(dir: string, base: string, suffixed: bool)
    requires '/' !in base && (!suffixed ==> |base| < 3 || base[|base| - 3..] != ".go") && (dir == [] || dir[|dir| - 1] == '/')
    ensures ModuleName(dir + base + if suffixed then ".go" else "") == base
  {
    assert (dir + base)[|dir|..] == base;
    StemIs(dir + base, base, suffixed);
    LastSlash(dir, base);
  }

  lemma StemIs(stem: string, base: string, suffixed: bool)
    requires |base| <= |stem| && stem[|stem| - |base|..] == base && (|stem| > |base| ==> stem[|stem| - |base| - 1] == '/')
    requires !suffixed ==> |base| < 3 || base[|base| - 3..] != ".go"
    ensures var file := stem + if suffixed then ".go" else "";
            (if |file| >= 3 && file[|file| - 3..] == ".go" then file[..|file| - 3] else file) == stem
  {
    var file := stem + if suffixed then ".go" else "";
    if suffixed {
      assert file[|stem|..] == ".go" && file[..|stem|] == stem;
    } else {
      assert file == stem;
      assert |base| >= 3 ==> stem[|stem| - 3..] == base[|base| - 3..];
      assert |base| < 3 <= |stem| ==> stem[|stem| - 3..][2 - |base|] == '/';
    }
  }

  lemma LastSlash(dir: string, base: string)
    requires '/' !in base && (dir == [] || dir[|dir| - 1] == '/')
    ensures LastIndex(dir + base, "/") == |dir| - 1 && (dir + base)[|dir|..] == base
  {
    var s := dir + base;
    LastSlashFrom(s, |dir|, |s| - 1);
  }

  lemma {:induction false} LastSlashFrom(s: string, n: nat, i: int)
    requires n <= |s| && n - 1 <= i < |s| && (n > 0 ==> s[n - 1] == '/') && forall j :: n <= j < |s| ==> s[j] != '/'
    ensures LastIndexFrom(s, "/", i) == n - 1
    decreases i + 1
  {
    if i >= 0 {
      assert s[i..i + 1] == [s[i]];
      if i >= n {
        LastSlashFrom(s, n, i - 1);
      }
    }
  }

  class Logging {
    const globs: (string, string) -> bool  // filepath.Match
    const fileOf: Pc -> string             // the file of a call site

    var verbosity: int
    var filterLength: nat
    var filter: seq<Filter>
    var vmap: map<Pc, int>

    predicate Matches(f: Filter, file: string) {
      if f.literal then file == f.pattern else globs(f.pattern, file)
    }

    /** The level of the first filter that matches, or 0. */
    function FirstLevel(filters: seq<Filter>, file: string): int {
      if filters == [] then 0 else if Matches(filters[0], file) then filters[0].level else FirstLevel(filters[1..], file)
    }

    /** The first filter that matches decides, and without one the level is 0. */
    lemma {:induction false} FirstLevelIs(filters: seq<Filter>, file: string, i: nat)
      requires i <= |filters| && forall j :: 0 <= j < i ==> !Matches(filters[j], file)
      requires i < |filters| ==> Matches(filters[i], file)
      ensures FirstLevel(filters, file) == if i < |filters| then filters[i].level else 0
    {
      if i > 0 {
        assert !Matches(filters[0], file);
        assert forall j :: 0 <= j < |filters| - 1 ==> filters[1..][j] == filters[j + 1];
        FirstLevelIs(filters[1..], file, i - 1);
      }
    }

    /** Whether logging is on at a call site, by the settings alone. */
    function Enabled(s: Settings, level: int, pc: Option<Pc>): bool {
      s.verbosity >= level || (s.filters != [] && pc.Some? && FirstLevel(s.filters, ModuleName(fileOf(pc.value))) >= level)
    }

    function Current(): Settings
      reads this
    {
      Settings(verbosity, filter)
    }

    /** What is cached is what a scan would give. */
    ghost predicate Valid()
      reads this
    {
      && filterLength == |filter|
      && (forall pc :: pc in vmap ==> vmap[pc] == FirstLevel(filter, ModuleName(fileOf(pc))))
    }

    constructor (globs: (string, string) -> bool, fileOf: Pc -> string)
      ensures Valid() && Current() == Settings(0, []) && this.globs == globs && this.fileOf == fileOf
    {
      this.globs, this.fileOf := globs, fileOf;
      verbosity, filterLength, filter, vmap := 0, 0, [], map[];
    }

    method SetVState(verbosity: int, filter: seq<Filter>, setFilter: bool)
      requires Valid() && (!setFilter ==> filter == this.filter)
      modifies this
      ensures Valid() && Current() == Settings(verbosity, filter) && vmap == if setFilter then map[] else old(vmap)
    {
      this.verbosity := 0;
      filterLength := 0;
      if setFilter {
        this.filter := filter;
        vmap := map[];
      }
      filterLength := |filter|;
      this.verbosity := verbosity;
    }

    /** The -v flag. */
    method SetLevel(level: int)
      requires Valid()
      modifies this
      ensures Valid() && Current() == Settings(level, old(filter)) && vmap == old(vmap)
    {
      SetVState(level, filter, false);
    }

    /** The -vmodule flag. */
    method SetModules(items: seq<Item>) returns (ok: bool)
      requires Valid()
      modifies this
      ensures Valid() && (ok <==> ParseItems(items).Some?)
      ensures Current() == if ok then Settings(old(verbosity), ParseItems(items).value) else old(Current())
    {
      var filters: seq<Filter> := [];
      var i := 0;
      while i < |items|
        invariant 0 <= i <= |items| && ParseFrom(items, i, filters) == ParseItems(items)
      {
        match items[i] {
          case Empty =>
          case Bad => return false;
          case Item(pattern, level) =>
            if level < 0 {
              return false;
            }
            if level != 0 {
              filters := filters + [Filter(pattern, IsLiteral(pattern), level)];
            }
        }
        i := i + 1;
      }
      SetVState(verbosity, filters, true);
      return true;
    }

    /** Scans the filters for a call site and remembers the answer. */
    method SetV(pc: Pc) returns (level: int)
      requires Valid()
      modifies this`vmap
      ensures Valid() && level == FirstLevel(filter, ModuleName(fileOf(pc))) && vmap == old(vmap)[pc := level]
    {
      var file := ModuleName(fileOf(pc));
      var i := 0;
      while i < |filter|
        invariant 0 <= i <= |filter|
        invariant FirstLevel(filter, file) == FirstLevel(filter[i..], file)
        invariant vmap == old(vmap)
      {
        assert filter[i..][1..] == filter[i + 1..];
        if Matches(filter[i], file) {
          vmap := vmap[pc := filter[i].level];
          return filter[i].level;
        }
        i := i + 1;
      }
      vmap := vmap[pc := 0];
      return 0;
    }

    /** The level of a call site, from the cache if it is there. */
    method LevelAt(pc: Pc) returns (level: int)
      requires Valid()
      modifies this`vmap
      ensures Valid() && level == FirstLevel(filter, ModuleName(fileOf(pc)))
    {
      if pc in vmap {
        return vmap[pc];
      }
      level := SetV(pc);
    }

    /** V, from a call site that may be unknown. The cache changes nothing but the cost. */
    method V(level: int, pc: Option<Pc>) returns (on: bool)
      requires Valid()
      modifies this`vmap
      ensures Valid() && on == Enabled(Current(), level, pc) && Current() == old(Current())
    {
      if verbosity >= level {
        return true;
      }
      if filterLength > 0 {
        if pc.None? {
          return false;
        }
        var v := LevelAt(pc.value);
        return v >= level;
      }
      return false;
    }
  }

  // ----- Runs -----

  datatype Step = SetVerbosity(level: int) | SetVmodule(items: seq<Item>) | Ask(level: int, pc: Option<Pc>)

  function After(s: Settings, step: Step): Settings {
    match step
    case SetVerbosity(level) => s.(verbosity := level)
    case SetVmodule(items) => if ParseItems(items).Some? then s.(filters := ParseItems(items).value) else s
    case Ask(_, _) => s
  }

  function AfterAll(steps: seq<Step>): Settings {
    if steps == [] then Settings(0, []) else After(AfterAll(steps[..|steps| - 1]), steps[|steps| - 1])
  }

  /** Over every run of flag changes and questions, each answer is the one the settings of the
      moment give without any cache. */
  method Run(globs: (string, string) -> bool, fileOf: Pc -> string, steps: seq<Step>) returns (l: Logging, answers: map<nat, bool>)
    ensures fresh(l) && l.Valid() && l.globs == globs && l.fileOf == fileOf && l.Current() == AfterAll(steps)
    ensures forall i: nat :: i in answers <==> i < |steps| && steps[i].Ask?
    ensures forall i: nat :: i in answers ==> answers[i] == l.Enabled(AfterAll(steps[..i]), steps[i].level, steps[i].pc)
  {
    l := new Logging(globs, fileOf);
    answers := map[];
    var n := 0;
    while n < |steps|
      invariant 0 <= n <= |steps| && fresh(l) && l.Valid() && l.globs == globs && l.fileOf == fileOf
      invariant l.Current() == AfterAll(steps[..n])
      invariant forall i: nat :: i in answers <==> i < n && steps[i].Ask?
      invariant forall i: nat :: i in answers ==> answers[i] == l.Enabled(AfterAll(steps[..i]), steps[i].level, steps[i].pc)
    {
      assert steps[..n + 1][..n] == steps[..n];
      match steps[n] {
        case SetVerbosity(level) => l.SetLevel(level);
        case SetVmodule(items) => var ok := l.SetModules(items);
        case Ask(level, pc) =>
          var on := l.V(level, pc);
          answers := answers[n := on];
      }
      n := n + 1;
    }
    assert steps[..n] == steps;
  }
}
