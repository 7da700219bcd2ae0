/** The stats filter of adapter.js: a depth-first walk from several roots over a graph of
    statistics that refer to each other by id, into one shared result. */
module StatsGraph {
  import opened Wrappers

  datatype Id = Id(text: string)

  datatype Value = One(id: Id) | Many(ids: seq<Id>) | Plain

  datatype Field = Field(name: string, value: Value)

  datatype Kind = Track | OutboundRtp | InboundRtp | OtherKind

  /** The properties other than these three are in `fields`; `trackId` is one of them. */
  datatype Stat = Stat(id: Id, kind: Kind, trackIdentifier: Option<Id>, fields: seq<Field>) {
    function TrackId(): Option<Id> {
      var value := Property(fields, "trackId");
      if value.Some? && value.value.One? then Some(value.value.id) else None
    }
  }

  /** The value of a named property. */
  function Property(fields: seq<Field>, name: string): Option<Value> {
    if fields == [] then None else if fields[0].name == name then Some(fields[0].value) else Property(fields[1..], name)
  }

  /** A stats report: entries in order of insertion, keyed by their ids. */
  datatype Report = Report(order: seq<Id>, entries: map<Id, Stat>) {
    ghost predicate Valid() {
      && (forall id :: id in order <==> id in entries)
      && (forall id :: id in entries ==> entries[id].id == id)
    }
  }

  predicate EndsWith(s: string, suffix: string) {
    |s| >= |suffix| && s[|s| - |suffix|..] == suffix
  }

  // ----- The graph -----

  /** The ids a field refers to. */
  function Refs(f: Field): seq<Id> {
    if EndsWith(f.name, "Id") then (if f.value.One? then [f.value.id] else [])
    else if EndsWith(f.name, "Ids") && f.value.Many? then f.value.ids
    else []
  }

  /** A field on which the walk throws: named like a list and not a list. */
  predicate Broken(f: Field) {
    !EndsWith(f.name, "Id") && EndsWith(f.name, "Ids") && !f.value.Many?
  }

  predicate Throws(s: Stat) {
    exists i :: 0 <= i < |s.fields| && Broken(s.fields[i])
  }

  predicate RefersTo(s: Stat, id: Id) {
    exists i :: 0 <= i < |s.fields| && id in Refs(s.fields[i])
  }

  /** A property whose name ends in Id refers to one stat, and one whose name ends in Ids to
      each of its list; no other property refers to any. */
  lemma RefsByName(stem: string, value: Value)
    ensures Refs(Field(stem + "Id", value)) == if value.One? then [value.id] else []
    ensures Refs(Field(stem + "Ids", value)) == if value.Many? then value.ids else []
    ensures Broken(Field(stem + "Ids", value)) <==> !value.Many?
    ensures !Broken(Field(stem + "Id", value))
  {
    var one, many := stem + "Id", stem + "Ids";
    assert one[|one| - 2..] == "Id" && many[|many| - 3..] == "Ids";
    assert many[|many| - 2..] == "ds";
  }

  lemma RefsOnlyByName(f: Field)
    requires |f.name| < 2 || f.name[|f.name| - 1] !in {'d', 's'}
    ensures Refs(f) == [] && !Broken(f)
  {
    LastOfSuffix(f.name, "Id");
    LastOfSuffix(f.name, "Ids");
  }

  lemma LastOfSuffix(s: string, suffix: string)
    requires suffix != []
    ensures EndsWith(s, suffix) ==> s[|s| - 1] == suffix[|suffix| - 1]
  {
    if EndsWith(s, suffix) {
      assert s[|s| - |suffix|..][|suffix| - 1] == s[|s| - 1];
    }
  }

  predicate Edge(r: Report, a: Id, b: Id) {
    a in r.entries && b in r.entries && RefersTo(r.entries[a], b)
  }

  ghost predicate IsPath(r: Report, path: seq<Id>) {
    && path != [] && path[0] in r.entries
    && forall i :: 0 <= i < |path| - 1 ==> Edge(r, path[i], path[i + 1])
  }

  ghost predicate Reachable(r: Report, a: Id, b: Id) {
    exists path :: IsPath(r, path) && path[0] == a && path[|path| - 1] == b
  }

  lemma ReachableItself(r: Report, a: Id)
    requires a in r.entries
    ensures Reachable(r, a, a)
  {
    assert IsPath(r, [a]);
  }

  /** An edge in front of a path. */
  lemma ReachableVia(r: Report, a: Id, b: Id, c: Id)
    requires Edge(r, a, b) && Reachable(r, b, c)
    ensures Reachable(r, a, c)
  {
    var path :| IsPath(r, path) && path[0] == b && path[|path| - 1] == c;
    var path' := [a] + path;
    forall i | 0 <= i < |path'| - 1
      ensures Edge(r, path'[i], path'[i + 1])
    {
      if i > 0 {
        assert Edge(r, path[i - 1], path[i - 1 + 1]);
      }
    }
    assert IsPath(r, path');
  }

  ghost predicate Closed(r: Report, found: set<Id>) {
    forall a, b :: a in found && Edge(r, a, b) ==> b in found
  }

  lemma {:induction false} ClosedAlongPath(r: Report, found: set<Id>, path: seq<Id>)
    requires Closed(r, found) && IsPath(r, path) && path[0] in found
    ensures path[|path| - 1] in found
    decreases |path|
  {
    if |path| > 1 {
      assert Edge(r, path[0], path[0 + 1]);
      var rest := path[1..];
      forall i | 0 <= i < |rest| - 1
        ensures Edge(r, rest[i], rest[i + 1])
      {
        assert Edge(r, path[i + 1], path[i + 1 + 1]);
      }
      ClosedAlongPath(r, found, rest);
    }
  }

  // ----- The walk -----

  class StatsMap {
    var entries: map<Id, Stat>

    constructor ()
      ensures entries == map[]
    {
      entries := map[];
    }
  }

  /** The found entries are the report's own. */
  ghost predicate Within(r: Report, found: map<Id, Stat>) {
    forall id :: id in found ==> id in r.entries && found[id] == r.entries[id]
  }

  /** What a walk that did not throw has added: sound stats reachable from its base, with all
      they refer to. */
  ghost predicate Walked(r: Report, base: Id, before: map<Id, Stat>, after: map<Id, Stat>) {
    && before.Keys <= after.Keys && Within(r, after)
    && (forall id :: id in after && id !in before ==> Reachable(r, base, id) && !Throws(r.entries[id]))
    && (forall a, b :: a in after && a !in before && Edge(r, a, b) ==> b in after)
  }

  ghost function Unseen(r: Report, found: map<Id, Stat>): nat {
    |r.entries.Keys - found.Keys|
  }

  lemma UnseenShrinks(r: Report, before: map<Id, Stat>, after: map<Id, Stat>)
    requires before.Keys <= after.Keys
    ensures Unseen(r, after) <= Unseen(r, before)
  {
    var rest, rest' := r.entries.Keys - before.Keys, r.entries.Keys - after.Keys;
    assert rest == rest' + (rest - rest');
  }

  lemma UnseenLess(r: Report, before: map<Id, Stat>, id: Id, s: Stat)
    requires id in r.entries && id !in before
    ensures Unseen(r, before[id := s]) < Unseen(r, before)
  {
    assert r.entries.Keys - before.Keys == r.entries.Keys - before[id := s].Keys + {id};
  }

  /** In the middle of a walk: like Walked, but for the base itself. */
  ghost predicate Walking(r: Report, base: Id, before: map<Id, Stat>, now: map<Id, Stat>) {
    && before.Keys <= now.Keys && Within(r, now) && base in now && base !in before
    && (forall id :: id in now && id !in before && id != base ==> Reachable(r, base, id) && !Throws(r.entries[id]))
    && (forall a, b :: a in now && a !in before && a != base && Edge(r, a, b) ==> b in now)
  }

  /** A finished walk of a referenced stat carries the walk of the base on. */
  lemma WalkingOn(r: Report, base: Id, before: map<Id, Stat>, now: map<Id, Stat>, id: Id, after: map<Id, Stat>)
    requires Walking(r, base, before, now) && Edge(r, base, id) && Walked(r, id, now, after)
    ensures Walking(r, base, before, after)
  {
    forall x | x in after && x !in before && x != base
      ensures Reachable(r, base, x) && !Throws(r.entries[x])
    {
      if x !in now {
        ReachableVia(r, base, id, x);
      }
    }
  }

  /** The whole of a stat's references have been followed. */
  lemma WalkedAll(r: Report, base: Id, before: map<Id, Stat>, now: map<Id, Stat>)
    requires Walking(r, base, before, now) && base in r.entries
    requires FieldsDone(r, r.entries[base].fields, |r.entries[base].fields|, now)
    ensures Walked(r, base, before, now)
  {
    ReachableItself(r, base);
    var s := r.entries[base];
    forall b | Edge(r, base, b)
      ensures b in now
    {
      var k :| 0 <= k < |s.fields| && b in Refs(s.fields[k]);
      assert Followed(r, Refs(s.fields[k]), now);
    }
  }

  ghost predicate Followed(r: Report, ids: seq<Id>, found: map<Id, Stat>) {
    forall b :: b in ids && b in r.entries ==> b in found
  }

  lemma FollowedNext(r: Report, ids: seq<Id>, j: nat, before: map<Id, Stat>, after: map<Id, Stat>)
    requires j < |ids| && Followed(r, ids[..j], before) && before.Keys <= after.Keys && (ids[j] in r.entries ==> ids[j] in after)
    ensures Followed(r, ids[..j + 1], after)
  {
    assert ids[..j + 1] == ids[..j] + [ids[j]];
    forall b | b in ids[..j] && b in r.entries
      ensures b in after
    {
      assert b in before.Keys;
    }
  }

  ghost predicate FieldsDone(r: Report, fields: seq<Field>, i: nat, found: map<Id, Stat>) {
    forall k :: 0 <= k < i <= |fields| ==> !Broken(fields[k]) && Followed(r, Refs(fields[k]), found)
  }

  lemma FieldsDoneNext(r: Report, fields: seq<Field>, i: nat, before: map<Id, Stat>, after: map<Id, Stat>)
    requires i < |fields| && FieldsDone(r, fields, i, before) && before.Keys <= after.Keys
    requires !Broken(fields[i]) && Followed(r, Refs(fields[i]), after)
    ensures FieldsDone(r, fields, i + 1, after)
  {
    forall k | 0 <= k < i
      ensures Followed(r, Refs(fields[k]), after)
    {
      assert Followed(r, Refs(fields[k]), before);
      forall b | b in Refs(fields[k]) && b in r.entries
        ensures b in after
      {
        assert b in before.Keys;
      }
    }
  }

  ghost predicate Fails(r: Report, base: Id) {
    exists id :: Reachable(r, base, id) && id in r.entries && Throws(r.entries[id])
  }

  lemma FailsVia(r: Report, base: Id, id: Id)
    requires Edge(r, base, id) && Fails(r, id)
    ensures Fails(r, base)
  {
    var x :| Reachable(r, id, x) && x in r.entries && Throws(r.entries[x]);
    ReachableVia(r, base, id, x);
  }

  /** walkStats; false if it threw. */
  method WalkStats(r: Report, base: Option<Stat>, found: StatsMap) returns (ok: bool)
    requires r.Valid() && Within(r, found.entries)
    requires base.Some? ==> base.value.id in r.entries && r.entries[base.value.id] == base.value
    modifies found
    ensures base.None? ==> ok && unchanged(found)
    ensures ok && base.Some? ==> Walked(r, base.value.id, old(found.entries), found.entries) && base.value.id in found.entries
    ensures !ok ==> base.Some? && Fails(r, base.value.id)
    decreases Unseen(r, found.entries), 2
  {
    if base.None? || base.value.id in found.entries {
      return true;
    }
    var s := base.value;
    ghost var before := found.entries;
    found.entries := found.entries[s.id := s];
    UnseenLess(r, before, s.id, s);
    var i := 0;
    while i < |s.fields|
      invariant 0 <= i <= |s.fields|
      invariant Walking(r, s.id, before, found.entries)
      invariant FieldsDone(r, s.fields, i, found.entries)
    {
      ghost var now := found.entries;
      UnseenShrinks(r, before[s.id := s], found.entries);
      ok := WalkField(r, s, i, found, before);
      if !ok {
        return;
      }
      FieldsDoneNext(r, s.fields, i, now, found.entries);
      i := i + 1;
    }
    WalkedAll(r, s.id, before, found.entries);
    return true;
  }

  method WalkField(r: Report, s: Stat, i: nat, found: StatsMap, ghost before: map<Id, Stat>) returns (ok: bool)
    requires r.Valid() && s.id in r.entries && r.entries[s.id] == s && i < |s.fields|
    requires Walking(r, s.id, before, found.entries)
    modifies found
    ensures ok ==> Walking(r, s.id, before, found.entries) && old(found.entries).Keys <= found.entries.Keys
    ensures ok ==> !Broken(s.fields[i]) && Followed(r, Refs(s.fields[i]), found.entries)
    ensures !ok ==> Fails(r, s.id)
    decreases Unseen(r, found.entries), 4
  {
    var f := s.fields[i];
    ok := true;
    if EndsWith(f.name, "Id") {
      if f.value.One? {
        ok := Follow(r, s, i, f.value.id, found, before);
      }
    } else if EndsWith(f.name, "Ids") {
      if !f.value.Many? {
        ReachableItself(r, s.id);
        return false;
      }
      ok := FollowAll(r, s, i, f.value.ids, found, before);
    }
  }

  method FollowAll(r: Report, s: Stat, i: nat, ids: seq<Id>, found: StatsMap, ghost before: map<Id, Stat>) returns (ok: bool)
    requires r.Valid() && s.id in r.entries && r.entries[s.id] == s && i < |s.fields| && ids == Refs(s.fields[i])
    requires Walking(r, s.id, before, found.entries)
    modifies found
    ensures ok ==> Walking(r, s.id, before, found.entries) && old(found.entries).Keys <= found.entries.Keys
    ensures ok ==> Followed(r, ids, found.entries)
    ensures !ok ==> Fails(r, s.id)
    decreases Unseen(r, found.entries), 3, 1
  {
    ghost var start := found.entries;
    var j := 0;
    while j < |ids|
      invariant 0 <= j <= |ids|
      invariant Walking(r, s.id, before, found.entries) && start.Keys <= found.entries.Keys
      invariant Followed(r, ids[..j], found.entries)
    {
      ghost var now := found.entries;
      UnseenShrinks(r, start, found.entries);
      ok := Follow(r, s, i, ids[j], found, before);
      if !ok {
        return;
      }
      FollowedNext(r, ids, j, now, found.entries);
      j := j + 1;
    }
    assert ids[..j] == ids;
    return true;
  }

  /** One reference: stats.get, and the walk of what it returns. */
  method Follow(r: Report, s: Stat, i: nat, id: Id, found: StatsMap, ghost before: map<Id, Stat>) returns (ok: bool)
    requires r.Valid() && s.id in r.entries && r.entries[s.id] == s && i < |s.fields| && id in Refs(s.fields[i])
    requires Walking(r, s.id, before, found.entries)
    modifies found
    ensures ok ==> Walking(r, s.id, before, found.entries) && old(found.entries).Keys <= found.entries.Keys
    ensures ok && id in r.entries ==> id in found.entries
    ensures !ok ==> Fails(r, s.id)
    decreases Unseen(r, found.entries), 3, 0
  {
    ghost var now := found.entries;
    var next := if id in r.entries then Some(r.entries[id]) else None;
    ok := WalkStats(r, next, found);
    if id in r.entries {
      assert Edge(r, s.id, id);
      if ok {
        WalkingOn(r, s.id, before, now, id, found.entries);
      } else {
        FailsVia(r, s.id, id);
      }
    }
  }

  // ----- The filter -----

  predicate IsTrack(s: Stat, track: Id) {
    s.kind.Track? && s.trackIdentifier == Some(track)
  }

  predicate StreamOf(s: Stat, kind: Kind, t: Id) {
    s.kind == kind && s.TrackId() == Some(t)
  }

  function StreamKind(outbound: bool): Kind {
    if outbound then OutboundRtp else InboundRtp
  }

  /** An rtp stream of the track. */
  ghost predicate IsRoot(r: Report, track: Id, kind: Kind, id: Id) {
    && id in r.entries
    && exists t :: t in r.entries && IsTrack(r.entries[t], track) && StreamOf(r.entries[id], kind, t)
  }

  ghost predicate Led(r: Report, track: Id, kind: Kind, id: Id) {
    exists root :: IsRoot(r, track, kind, root) && Reachable(r, root, id)
  }

  /** What has been found is sound and closed under references. */
  ghost predicate Settled(r: Report, found: map<Id, Stat>) {
    Within(r, found) && Closed(r, found.Keys) && forall id :: id in found ==> !Throws(r.entries[id])
  }

  lemma SettledMore(r: Report, root: Id, before: map<Id, Stat>, after: map<Id, Stat>)
    requires Settled(r, before) && Walked(r, root, before, after)
    ensures Settled(r, after)
  {
    forall a, b | a in after.Keys && Edge(r, a, b)
      ensures b in after.Keys
    {
      if a in before {
        assert a in before.Keys && b in before.Keys;
      }
    }
    forall id | id in after
      ensures !Throws(r.entries[id])
    {
      if id in before {
        assert !Throws(r.entries[id]);
      }
    }
  }

  /** Roots lead to all that has been found. */
  ghost predicate AllLed(r: Report, track: Id, kind: Kind, found: map<Id, Stat>) {
    forall id :: id in found ==> Led(r, track, kind, id)
  }

  lemma AllLedMore(r: Report, track: Id, kind: Kind, root: Id, before: map<Id, Stat>, after: map<Id, Stat>)
    requires AllLed(r, track, kind, before) && IsRoot(r, track, kind, root) && Walked(r, root, before, after)
    ensures AllLed(r, track, kind, after)
  {
  }

  ghost predicate Collected(r: Report, track: Id, kind: Kind, found: map<Id, Stat>) {
    Settled(r, found) && AllLed(r, track, kind, found)
  }

  /** The streams of the first `n` stats of the report that belong to track stat `t` are in. */
  ghost predicate StreamsIn(r: Report, kind: Kind, t: Id, n: nat, found: set<Id>) {
    forall k :: 0 <= k < n <= |r.order| && r.order[k] in r.entries && StreamOf(r.entries[r.order[k]], kind, t) ==> r.order[k] in found
  }

  lemma StreamsInNext(r: Report, kind: Kind, t: Id, n: nat, before: set<Id>, after: set<Id>)
    requires n < |r.order| && StreamsIn(r, kind, t, n, before) && before <= after
    requires r.order[n] in r.entries && StreamOf(r.entries[r.order[n]], kind, t) ==> r.order[n] in after
    ensures StreamsIn(r, kind, t, n + 1, after)
  {
  }

  /** One turn of the inner loop. */
  method WalkStream(r: Report, track: Id, kind: Kind, t: Id, s: Stat, found: StatsMap) returns (ok: bool)
    requires r.Valid() && t in r.entries && IsTrack(r.entries[t], track) && Collected(r, track, kind, found.entries)
    requires s.id in r.entries && r.entries[s.id] == s
    modifies found
    ensures ok ==> Collected(r, track, kind, found.entries) && old(found.entries).Keys <= found.entries.Keys
    ensures ok && StreamOf(s, kind, t) ==> s.id in found.entries.Keys
    ensures !ok ==> !Walkable(r, track, kind)
  {
    ok := true;
    if StreamOf(s, kind, t) {
      ghost var before := found.entries;
      assert IsRoot(r, track, kind, s.id);
      ok := WalkStats(r, Some(s), found);
      if ok {
        SettledMore(r, s.id, before, found.entries);
        AllLedMore(r, track, kind, s.id, before, found.entries);
      }
    }
  }

  /** The inner loop: the streams of one track stat. */
  method WalkStreams(r: Report, track: Id, kind: Kind, t: Id, found: StatsMap) returns (ok: bool)
    requires r.Valid() && t in r.entries && IsTrack(r.entries[t], track) && Collected(r, track, kind, found.entries)
    modifies found
    ensures ok ==> Collected(r, track, kind, found.entries) && old(found.entries).Keys <= found.entries.Keys
    ensures ok ==> StreamsIn(r, kind, t, |r.order|, found.entries.Keys)
    ensures !ok ==> !Walkable(r, track, kind)
  {
    var i := 0;
    while i < |r.order|
      invariant 0 <= i <= |r.order|
      invariant Collected(r, track, kind, found.entries) && old(found.entries).Keys <= found.entries.Keys
      invariant StreamsIn(r, kind, t, i, found.entries.Keys)
    {
      ghost var before := found.entries.Keys;
      ok := WalkStream(r, track, kind, t, r.entries[r.order[i]], found);
      if !ok {
        return;
      }
      StreamsInNext(r, kind, t, i, before, found.entries.Keys);
      i := i + 1;
    }
    return true;
  }

  /** Nothing reachable from a root of the track would make the walk throw. */
  ghost predicate Walkable(r: Report, track: Id, kind: Kind) {
    forall root :: IsRoot(r, track, kind, root) ==> !Fails(r, root)
  }

  ghost predicate AllStreamsIn(r: Report, kind: Kind, tracks: seq<Id>, found: set<Id>) {
    forall t :: t in tracks ==> StreamsIn(r, kind, t, |r.order|, found)
  }

  lemma AllStreamsInNext(r: Report, kind: Kind, tracks: seq<Id>, t: Id, before: set<Id>, after: set<Id>)
    requires AllStreamsIn(r, kind, tracks, before) && before <= after && StreamsIn(r, kind, t, |r.order|, after)
    ensures AllStreamsIn(r, kind, tracks + [t], after)
  {
    forall u | u in tracks + [t]
      ensures StreamsIn(r, kind, u, |r.order|, after)
    {
      if u in tracks {
        assert StreamsIn(r, kind, u, |r.order|, before);
      }
    }
  }

  /** Every root has been walked. */
  lemma RootsIn(r: Report, track: Id, kind: Kind, tracks: seq<Id>, found: set<Id>, root: Id)
    requires r.Valid() && AllStreamsIn(r, kind, tracks, found) && IsRoot(r, track, kind, root)
    requires forall t :: t in tracks <==> t in r.entries && IsTrack(r.entries[t], track)
    ensures root in found
  {
    var t :| t in r.entries && IsTrack(r.entries[t], track) && StreamOf(r.entries[root], kind, t);
    assert StreamsIn(r, kind, t, |r.order|, found);
    var k :| 0 <= k < |r.order| && r.order[k] == root;
  }

  /** All that a walked root reaches is in, and is sound. */
  lemma ReachedIsIn(r: Report, found: map<Id, Stat>, root: Id, id: Id)
    requires Settled(r, found) && root in found.Keys && Reachable(r, root, id)
    ensures id in found && id in r.entries && !Throws(r.entries[id])
  {
    var path :| IsPath(r, path) && path[0] == root && path[|path| - 1] == id;
    ClosedAlongPath(r, found.Keys, path);
  }

  lemma NoneThrows(r: Report, found: map<Id, Stat>, root: Id)
    requires Settled(r, found) && root in found.Keys
    ensures !Fails(r, root)
  {
    if Fails(r, root) {
      var id :| Reachable(r, root, id) && id in r.entries && Throws(r.entries[id]);
      ReachedIsIn(r, found, root, id);
    }
  }

  /** Once every stream of every track stat is in, so is all that the roots lead to. */
  lemma LedIsIn(r: Report, track: Id, kind: Kind, tracks: seq<Id>, found: map<Id, Stat>, id: Id)
    requires r.Valid() && Settled(r, found) && AllStreamsIn(r, kind, tracks, found.Keys) && Led(r, track, kind, id)
    requires forall t :: t in tracks <==> t in r.entries && IsTrack(r.entries[t], track)
    ensures id in found
  {
    var root :| IsRoot(r, track, kind, root) && Reachable(r, root, id);
    RootsIn(r, track, kind, tracks, found.Keys, root);
    ReachedIsIn(r, found, root, id);
  }

  lemma NothingFails(r: Report, track: Id, kind: Kind, tracks: seq<Id>, found: map<Id, Stat>)
    requires r.Valid() && Settled(r, found) && AllStreamsIn(r, kind, tracks, found.Keys)
    requires forall t :: t in tracks <==> t in r.entries && IsTrack(r.entries[t], track)
    ensures Walkable(r, track, kind)
  {
    forall root | IsRoot(r, track, kind, root)
      ensures !Fails(r, root)
    {
      RootsIn(r, track, kind, tracks, found.Keys, root);
      NoneThrows(r, found, root);
    }
  }

  /** filterStats: exactly the stats the track's streams lead to, or None if the walk threw,
      which it does if and only if some stat it has to visit is malformed. */
  method FilterStats(r: Report, track: Option<Id>, outbound: bool) returns (result: Option<StatsMap>)
    requires r.Valid()
    ensures result.Some? ==> fresh(result.value) && Within(r, result.value.entries)
    ensures track.None? ==> result.Some? && result.value.entries == map[]
    ensures track.Some? ==> (result.Some? <==> Walkable(r, track.value, StreamKind(outbound)))
    ensures track.Some? && result.Some? ==> forall id :: id in result.value.entries <==> Led(r, track.value, StreamKind(outbound), id)
  {
    var found := new StatsMap();
    if track.None? {
      return Some(found);
    }
    var tracks := TrackStats(r, track.value);
    var ok := WalkTracks(r, track.value, StreamKind(outbound), tracks, found);
    if !ok {
      return None;
    }
    TracksWalked(r, track.value, StreamKind(outbound), tracks, found.entries);
    return Some(found);
  }

  /** The outer loop. */
  method WalkTracks(r: Report, track: Id, kind: Kind, tracks: seq<Id>, found: StatsMap) returns (ok: bool)
    requires r.Valid() && found.entries == map[]
    requires forall t :: t in tracks <==> t in r.entries && IsTrack(r.entries[t], track)
    modifies found
    ensures ok ==> Collected(r, track, kind, found.entries) && AllStreamsIn(r, kind, tracks, found.entries.Keys)
    ensures !ok ==> !Walkable(r, track, kind)
  {
    var i := 0;
    while i < |tracks|
      invariant 0 <= i <= |tracks|
      invariant Collected(r, track, kind, found.entries)
      invariant AllStreamsIn(r, kind, tracks[..i], found.entries.Keys)
    {
      ghost var before := found.entries.Keys;
      ok := WalkStreams(r, track, kind, tracks[i], found);
      if !ok {
        return;
      }
      AllStreamsInNext(r, kind, tracks[..i], tracks[i], before, found.entries.Keys);
      assert tracks[..i + 1] == tracks[..i] + [tracks[i]];
      i := i + 1;
    }
    assert tracks[..i] == tracks;
    return true;
  }

  lemma TracksWalked(r: Report, track: Id, kind: Kind, tracks: seq<Id>, found: map<Id, Stat>)
    requires r.Valid() && Collected(r, track, kind, found) && AllStreamsIn(r, kind, tracks, found.Keys)
    requires forall t :: t in tracks <==> t in r.entries && IsTrack(r.entries[t], track)
    ensures Walkable(r, track, kind)
    ensures forall id :: id in found <==> Led(r, track, kind, id)
  {
    NothingFails(r, track, kind, tracks, found);
    forall id | Led(r, track, kind, id)
      ensures id in found
    {
      LedIsIn(r, track, kind, tracks, found, id);
    }
  }

  method TrackStats(r: Report, track: Id) returns (tracks: seq<Id>)
    requires r.Valid()
    ensures forall t :: t in tracks <==> t in r.entries && IsTrack(r.entries[t], track)
  {
    tracks := [];
    var i := 0;
    while i < |r.order|
      invariant 0 <= i <= |r.order|
      invariant forall t :: t in tracks <==> t in r.order[..i] && IsTrack(r.entries[t], track)
    {
      assert r.order[..i + 1] == r.order[..i] + [r.order[i]];
      if IsTrack(r.entries[r.order[i]], track) {
        tracks := tracks + [r.order[i]];
      }
      i := i + 1;
    }
    assert r.order[..i] == r.order;
  }

  // ----- The track itself -----

  lemma {:induction false} PropertyFound(fields: seq<Field>, name: string) returns (i: nat)
    requires Property(fields, name).Some?
    ensures i < |fields| && fields[i].name == name && Property(fields, name) == Some(fields[i].value)
  {
    if fields[0].name == name {
      i := 0;
    } else {
      i := PropertyFound(fields[1..], name);
      i := i + 1;
    }
  }

  /** A stream refers to its track by a property that the walk follows, so the stats of the
      track are part of the result whenever it has a stream. */
  lemma TrackIsLed(r: Report, track: Id, kind: Kind, id: Id, t: Id)
    requires r.Valid() && id in r.entries && t in r.entries && IsTrack(r.entries[t], track) && StreamOf(r.entries[id], kind, t)
    ensures Led(r, track, kind, t)
  {
    var s := r.entries[id];
    var i := PropertyFound(s.fields, "trackId");
    assert EndsWith("trackId", "Id") by {
      assert "trackId"[5..] == "Id";
    }
    assert t in Refs(s.fields[i]);
    assert Edge(r, id, t);
    ReachableItself(r, t);
    ReachableVia(r, id, t, t);
    assert IsRoot(r, track, kind, id);
  }
}
