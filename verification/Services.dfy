/** The service watcher: a name-keyed cache diffed against fetched lists, with events fanned out to listeners. */
module Services {
  import opened Base

  /** The fields that matter for dialling and hosting; configuration payloads stay opaque text. */
  datatype Service = Service(
    id: string,
    name: string,
    encryptionRequired: bool,
    permissions: seq<string>,
    configs: seq<string>,
    config: map<string, string>)

  datatype Event = Added(service: Service) | Changed(service: Service) | Removed(service: Service)

  type Cache = map<string, Service>

  /** Every entry sits under its own name. */
  ghost predicate Keyed(c: Cache) {
    forall n :: n in c ==> c[n].name == n
  }

  function Ids(fetched: seq<Service>): set<string> {
    set i | 0 <= i < |fetched| :: fetched[i].id
  }

  function Names(fetched: seq<Service>): set<string> {
    set i | 0 <= i < |fetched| :: fetched[i].name
  }

  function Vanished(c: Cache, ids: set<string>): set<string> {
    set n | n in c && c[n].id !in ids
  }

  predicate Survives(c: Cache, ids: set<string>, n: string) {
    n in c && c[n].id in ids
  }

  /** The event, if any, that a fetched service gives rise to. */
  function Upsert(c: Cache, ids: set<string>, s: Service): seq<Event> {
    if !Survives(c, ids, s.name) then [Added(s)]
    else if c[s.name] != s then [Changed(s)]
    else []
  }

  function Upserts(c: Cache, ids: set<string>, fetched: seq<Service>): seq<Event> {
    if fetched == [] then []
    else Upserts(c, ids, fetched[..|fetched| - 1]) + Upsert(c, ids, fetched[|fetched| - 1])
  }

  function NamesOf(events: seq<Event>): set<string> {
    if events == [] then {} else NamesOf(events[..|events| - 1]) + {events[|events| - 1].service.name}
  }

  ghost predicate Removals(c: Cache, events: seq<Event>) {
    forall i :: 0 <= i < |events| ==> IsRemoval(c, events[i])
  }

  ghost predicate IsRemoval(c: Cache, e: Event) {
    e.Removed? && e.service.name in c && c[e.service.name] == e.service
  }

  /** A diff: each vanished entry removed once, in any order, then the upserts in the order fetched. */
  ghost predicate IsDiff(c: Cache, fetched: seq<Service>, events: seq<Event>) {
    var gone := Vanished(c, Ids(fetched));
    && |gone| <= |events|
    && Removals(c, events[..|gone|]) && NamesOf(events[..|gone|]) == gone
    && events[|gone|..] == Upserts(c, Ids(fetched), fetched)
  }

  function Puts(c: Cache, fetched: seq<Service>): Cache {
    if fetched == [] then c
    else var last := fetched[|fetched| - 1]; Puts(c, fetched[..|fetched| - 1])[last.name := last]
  }

  /** The cache after a poll. */
  function Updated(c: Cache, fetched: seq<Service>): Cache {
    Puts(c - Vanished(c, Ids(fetched)), fetched)
  }

  // ----- the diff and the update, as loops -------------------------------------------------------------

  lemma SplitLast<T>(xs: seq<T>)
    requires xs != []
    ensures xs == xs[..|xs| - 1] + [xs[|xs| - 1]]
  {
  }

  lemma SomeName(s: set<string>)
    ensures s == {} || exists n: string :: n in s
  {
    if !exists n: string :: n in s {
      assert s == {};
    }
  }

  lemma UpsertsSnoc(c: Cache, ids: set<string>, fetched: seq<Service>, i: nat)
    requires i < |fetched|
    ensures Upserts(c, ids, fetched[..i + 1]) == Upserts(c, ids, fetched[..i]) + Upsert(c, ids, fetched[i])
    ensures Puts(c, fetched[..i + 1]) == Puts(c, fetched[..i])[fetched[i].name := fetched[i]]
  {
    assert fetched[..i + 1][..i] == fetched[..i];
  }

  lemma RemovalsSnoc(c: Cache, events: seq<Event>, e: Event)
    requires Removals(c, events) && IsRemoval(c, e)
    ensures Removals(c, events + [e]) && NamesOf(events + [e]) == NamesOf(events) + {e.service.name}
  {
    Snoc(events, e);
  }

  lemma VanishedSplit(c: Cache, ids: set<string>, todo: set<string>, n: string)
    requires n in todo && n in c
    ensures Vanished(c, ids) - (todo - {n}) == Vanished(c, ids) - todo + (if c[n].id in ids then {} else {n})
  {
  }

  method RemovedEvents(c: Cache, ids: set<string>) returns (events: seq<Event>)
    requires Keyed(c)
    ensures Removals(c, events) && NamesOf(events) == Vanished(c, ids) && |events| == |Vanished(c, ids)|
  {
    events := [];
    var todo := c.Keys;
    CollectedInit(c, ids);
    hide *;
    while todo != {}
      invariant todo <= c.Keys && Collected(c, ids, todo, events)
      decreases |todo|
    {
      SomeName(todo);
      var n :| n in todo;
      CollectedStep(c, ids, todo, n, events);
      if c[n].id !in ids {
        events := events + [Removed(c[n])];
      }
      todo := todo - {n};
    }
    CollectedAll(c, ids, events);
  }

  /** The vanished entries outside `todo` have been reported, once each. */
  ghost predicate Collected(c: Cache, ids: set<string>, todo: set<string>, events: seq<Event>) {
    && Removals(c, events) && NamesOf(events) == Vanished(c, ids) - todo
    && |events| == |Vanished(c, ids) - todo|
  }

  lemma CollectedInit(c: Cache, ids: set<string>)
    ensures Collected(c, ids, c.Keys, [])
  {
    assert Vanished(c, ids) - c.Keys == {};
  }

  lemma CollectedStep(c: Cache, ids: set<string>, todo: set<string>, n: string, events: seq<Event>)
    requires Keyed(c) && Collected(c, ids, todo, events) && n in todo && n in c
    ensures c[n].id in ids ==> Collected(c, ids, todo - {n}, events)
    ensures c[n].id !in ids ==> Collected(c, ids, todo - {n}, events + [Removed(c[n])])
  {
    VanishedSplit(c, ids, todo, n);
    if c[n].id in ids {
      assert Vanished(c, ids) - (todo - {n}) == Vanished(c, ids) - todo;
    } else {
      RemovalsSnoc(c, events, Removed(c[n]));
      hide NamesOf, Removals, Vanished;
      assert n !in Vanished(c, ids) - todo;
    }
  }

  lemma CollectedAll(c: Cache, ids: set<string>, events: seq<Event>)
    requires Collected(c, ids, {}, events)
    ensures Removals(c, events) && NamesOf(events) == Vanished(c, ids) && |events| == |Vanished(c, ids)|
  {
    assert Vanished(c, ids) - {} == Vanished(c, ids);
  }

  lemma DiffParts(c: Cache, fetched: seq<Service>, gone: seq<Event>)
    requires Removals(c, gone) && NamesOf(gone) == Vanished(c, Ids(fetched)) && |gone| == |Vanished(c, Ids(fetched))|
    ensures IsDiff(c, fetched, gone + Upserts(c, Ids(fetched), fetched))
  {
    var upserts := Upserts(c, Ids(fetched), fetched);
    assert (gone + upserts)[..|gone|] == gone && (gone + upserts)[|gone|..] == upserts;
  }

  method DiffServices(c: Cache, fetched: seq<Service>) returns (events: seq<Event>)
    requires Keyed(c)
    ensures IsDiff(c, fetched, events)
  {
    var ids := Ids(fetched);
    events := RemovedEvents(c, ids);
    ghost var gone := events;
    DiffParts(c, fetched, gone);
    Unit(gone);
    TakeDrop(fetched, |fetched|);
    assert Upserts(c, ids, fetched[..0]) == [];
    hide Upserts, IsDiff, Ids, Removals, NamesOf, Vanished, Keyed;
    var i := 0;
    while i < |fetched|
      invariant 0 <= i <= |fetched| && events == gone + Upserts(c, ids, fetched[..i])
    {
      var s := fetched[i];
      UpsertsSnoc(c, ids, fetched, i);
      Assoc(gone, Upserts(c, ids, fetched[..i]), Upsert(c, ids, s));
      Unit(events);
      if s.name in c && c[s.name].id in ids {
        if c[s.name] != s {
          events := events + [Changed(s)];
        }
      } else {
        events := events + [Added(s)];
      }
      i := i + 1;
    }
    assert fetched[..|fetched|] == fetched;
  }

  // ----- which events, by kind -------------------------------------------------------------------------

  lemma {:induction false} UpsertsByKind(c: Cache, ids: set<string>, fetched: seq<Service>, s: Service)
    ensures Added(s) in Upserts(c, ids, fetched) <==> s in fetched && !(s.name in c && c[s.name].id in ids)
    ensures Changed(s) in Upserts(c, ids, fetched) <==>
            s in fetched && s.name in c && c[s.name].id in ids && c[s.name] != s
    ensures Removed(s) !in Upserts(c, ids, fetched)
  {
    if fetched == [] {
    } else {
      var front, last := fetched[..|fetched| - 1], fetched[|fetched| - 1];
      UpsertsByKind(c, ids, front, s);
      SplitLast(fetched);
    }
  }

  /** In every diff, and whatever the order: exactly the new are Added, the different Changed, the vanished Removed. */
  lemma DiffByKind(c: Cache, fetched: seq<Service>, events: seq<Event>, s: Service)
    requires Keyed(c) && IsDiff(c, fetched, events)
    ensures Added(s) in events <==> s in fetched && !(s.name in c && c[s.name].id in Ids(fetched))
    ensures Changed(s) in events <==>
            s in fetched && s.name in c && c[s.name].id in Ids(fetched) && c[s.name] != s
    ensures Removed(s) in events <==> s.name in c && c[s.name] == s && s.id !in Ids(fetched)
  {
    var ids := Ids(fetched);
    var gone := Vanished(c, ids);
    var front, back := events[..|gone|], events[|gone|..];
    UpsertsByKind(c, ids, fetched, s);
    TakeDrop(events, |gone|);
    RemovalsByName(c, front, s);
    hide Upserts, Removals, NamesOf, Ids;
    assert forall e :: e in events <==> e in front || e in back;
  }

  lemma {:induction false} RemovalsByName(c: Cache, events: seq<Event>, s: Service)
    requires Removals(c, events)
    ensures Added(s) !in events && Changed(s) !in events
    ensures Removed(s) in events <==> s.name in NamesOf(events) && s.name in c && c[s.name] == s
  {
    if events == [] {
    } else {
      var front, last := events[..|events| - 1], events[|events| - 1];
      assert IsRemoval(c, last);
      assert forall i :: 0 <= i < |front| ==> front[i] == events[i];
      RemovalsByName(c, front, s);
      SplitLast(events);
      assert forall e :: e in events <==> e in front || e == last;
    }
  }

  lemma {:induction false} NamesCount(events: seq<Event>)
    ensures |NamesOf(events)| <= |events|
    ensures |NamesOf(events)| == |events| ==>
              forall i, j :: 0 <= i < j < |events| ==> events[i].service.name != events[j].service.name
  {
    if events == [] {
    } else {
      var front, last := events[..|events| - 1], events[|events| - 1];
      NamesCount(front);
      NamesHold(front);
      assert forall i :: 0 <= i < |front| ==> front[i] == events[i];
      if last.service.name in NamesOf(front) {
        assert NamesOf(events) == NamesOf(front);
      }
    }
  }

  lemma {:induction false} NamesHold(events: seq<Event>)
    ensures forall i :: 0 <= i < |events| ==> events[i].service.name in NamesOf(events)
  {
    if events == [] {
    } else {
      var front := events[..|events| - 1];
      NamesHold(front);
      assert forall i :: 0 <= i < |front| ==> front[i] == events[i];
    }
  }

  /** No entry is removed twice, and every removal comes before the rest. */
  lemma RemovedOnceAndFirst(c: Cache, fetched: seq<Service>, events: seq<Event>, i: nat, j: nat)
    requires IsDiff(c, fetched, events) && i < j < |events| && events[j].Removed?
    ensures events[i].Removed? && events[i].service.name != events[j].service.name
  {
    var ids := Ids(fetched);
    var k := |Vanished(c, ids)|;
    var front, back := events[..k], events[k..];
    NamesCount(front);
    UpsertsByKind(c, ids, fetched, events[j].service);
    hide Upserts, NamesOf, Ids, Vanished;
    assert forall l :: k <= l < |events| ==> events[l] == back[l - k];
    assert forall l :: 0 <= l < k ==> IsRemoval(c, front[l]) && events[l] == front[l];
  }

  /** Where each upsert comes from: places in the fetched list that rise as the events go on. */
  lemma {:induction false} UpsertsInOrder(c: Cache, ids: set<string>, fetched: seq<Service>) returns (at: seq<int>)
    ensures |at| == |Upserts(c, ids, fetched)|
    ensures forall k :: 0 <= k < |at| ==>
                          0 <= at[k] < |fetched| && Upserts(c, ids, fetched)[k].service == fetched[at[k]]
    ensures forall k, l :: 0 <= k < l < |at| ==> at[k] < at[l]
  {
    if fetched == [] {
      at := [];
    } else {
      var n := |fetched| - 1;
      at := UpsertsInOrder(c, ids, fetched[..n]);
      UpsertNotRemoval(c, ids, fetched[n]);
      UpsertIsOf(c, ids, fetched[n]);
      hide Upsert;
      if Upsert(c, ids, fetched[n]) != [] {
        at := at + [n];
      }
    }
  }

  lemma UpsertIsOf(c: Cache, ids: set<string>, s: Service)
    ensures forall e :: e in Upsert(c, ids, s) ==> e.service == s
  {
  }

  // ----- replaying events on a mirror ------------------------------------------------------------------

  /** What a listener that keeps its own copy does with one event. */
  function Follow(mirror: Cache, e: Event): Cache {
    if e.Removed? then mirror - {e.service.name} else mirror[e.service.name := e.service]
  }

  function Replay(mirror: Cache, events: seq<Event>): Cache {
    if events == [] then mirror else Follow(Replay(mirror, events[..|events| - 1]), events[|events| - 1])
  }

  lemma {:induction false} ReplayAppend(mirror: Cache, a: seq<Event>, b: seq<Event>)
    ensures Replay(mirror, a + b) == Replay(Replay(mirror, a), b)
  {
    if b == [] {
      Unit(a);
    } else {
      var front, last := b[..|b| - 1], b[|b| - 1];
      ReplayAppend(mirror, a, front);
      assert (a + b)[..|a + b| - 1] == a + front;
    }
  }

  lemma {:induction false} ReplayRemovals(c: Cache, mirror: Cache, events: seq<Event>)
    requires Removals(c, events)
    ensures Replay(mirror, events) == mirror - NamesOf(events)
  {
    if events == [] {
    } else {
      var front := events[..|events| - 1];
      assert IsRemoval(c, events[|events| - 1]);
      assert forall i :: 0 <= i < |front| ==> front[i] == events[i];
      ReplayRemovals(c, mirror, front);
    }
  }

  /** Every fetched service of this name is this one. */
  predicate Agree(fetched: seq<Service>, n: string, s: Service) {
    forall i :: 0 <= i < |fetched| && fetched[i].name == n ==> fetched[i] == s
  }

  /**
   How a mirror that replays the upserts stands to the cache that gets every put, at one name: both know the same
   names, and for a surviving entry the mirror has moved exactly when some occurrence differed from the entry.
   */
  ghost predicate Tracks(c: Cache, ids: set<string>, n: string, mirror: Cache, cache: Cache, agree: bool) {
    && (n in mirror <==> n in cache)
    && (n in cache && !Survives(c, ids, n) ==> mirror[n] == cache[n])
    && (Survives(c, ids, n) ==>
          && n in cache
          && (mirror[n] == c[n] <==> agree)
          && (cache[n] != c[n] ==> mirror[n] == cache[n]))
  }

  lemma TracksStep(c: Cache, ids: set<string>, n: string, mirror: Cache, cache: Cache, agree: bool, s: Service)
    requires Tracks(c, ids, n, mirror, cache, agree)
    ensures var kept := Survives(c, ids, s.name) && c[s.name] == s;
            var agrees := agree && (Survives(c, ids, n) && s.name == n ==> s == c[n]);
            Tracks(c, ids, n, if kept then mirror else mirror[s.name := s], cache[s.name := s], agrees)
  {
  }

  lemma {:induction false} UpsertsAgainstPuts(c: Cache, ids: set<string>, fetched: seq<Service>, n: string)
    ensures var base := c - Vanished(c, ids);
            Tracks(c, ids, n, Replay(base, Upserts(c, ids, fetched)), Puts(base, fetched),
                   Survives(c, ids, n) ==> Agree(fetched, n, c[n]))
  {
    var base := c - Vanished(c, ids);
    if fetched == [] {
    } else {
      hide Agree, Upsert, Tracks, Vanished, Survives;
      var front, s := fetched[..|fetched| - 1], fetched[|fetched| - 1];
      var mirror, cache := Replay(base, Upserts(c, ids, front)), Puts(base, front);
      UpsertsAgainstPuts(c, ids, front, n);
      ReplayAppend(base, Upserts(c, ids, front), Upsert(c, ids, s));
      ReplayUpsert(mirror, c, ids, s);
      TracksStep(c, ids, n, mirror, cache, Survives(c, ids, n) ==> Agree(front, n, SafeAt(c, ids, n)), s);
      SplitLast(fetched);
      AgreeSnoc(front, s, n, SafeAt(c, ids, n));
      SurvivesIn(c, ids, n);
    }
  }

  /** The cached entry of a surviving name. */
  function SafeAt(c: Cache, ids: set<string>, n: string): Service {
    if Survives(c, ids, n) then c[n] else Service("", "", false, [], [], map[])
  }

  lemma SurvivesIn(c: Cache, ids: set<string>, n: string)
    ensures Survives(c, ids, n) ==> n in c
  {
  }

  lemma AgreeSnoc(front: seq<Service>, s: Service, n: string, x: Service)
    ensures Agree(front + [s], n, x) <==> Agree(front, n, x) && (s.name == n ==> s == x)
  {
    Snoc(front, s);
    if Agree(front + [s], n, x) {
      assert forall i :: 0 <= i < |front| ==> front[i] == (front + [s])[i];
      assert (front + [s])[|front|] == s;
    }
  }

  lemma ReplayUpsert(mirror: Cache, c: Cache, ids: set<string>, s: Service)
    ensures Replay(mirror, Upsert(c, ids, s)) ==
            if Survives(c, ids, s.name) && c[s.name] == s then mirror else mirror[s.name := s]
  {
  }

  /** The last fetched service of this name. */
  ghost predicate LastNamed(fetched: seq<Service>, n: string, j: int) {
    && 0 <= j < |fetched| && fetched[j].name == n
    && forall k :: j < k < |fetched| ==> fetched[k].name != n
  }

  /** A surviving entry whose name is fetched last as it is cached, and before that in another version. */
  ghost predicate Ambiguous(c: Cache, fetched: seq<Service>, n: string) {
    && Survives(c, Ids(fetched), n)
    && exists i, j :: 0 <= i < j && LastNamed(fetched, n, j) && fetched[j] == c[n]
                      && fetched[i].name == n && fetched[i] != c[n]
  }

  /** The cache keeps the last version fetched. */
  lemma {:induction false} PutsLast(c: Cache, fetched: seq<Service>, n: string, j: int)
    requires LastNamed(fetched, n, j)
    ensures n in Puts(c, fetched) && Puts(c, fetched)[n] == fetched[j]
  {
    var front := fetched[..|fetched| - 1];
    if j == |fetched| - 1 {
    } else {
      assert forall k :: 0 <= k < |front| ==> front[k] == fetched[k];
      assert fetched[|fetched| - 1].name != n;
      PutsLast(c, front, n, j);
    }
  }

  lemma {:induction false} SomeLast(fetched: seq<Service>, n: string, i: int) returns (j: int)
    requires 0 <= i < |fetched| && fetched[i].name == n
    ensures i <= j && LastNamed(fetched, n, j)
    decreases |fetched| - i
  {
    if k :| i < k < |fetched| && fetched[k].name == n {
      j := SomeLast(fetched, n, k);
    } else {
      j := i;
    }
  }

  /** The same, told by the cache the poll leaves: the entry is as it was, although another version was fetched. */
  lemma AmbiguousIff(c: Cache, fetched: seq<Service>, n: string)
    requires Survives(c, Ids(fetched), n) && n in Updated(c, fetched)
    ensures Ambiguous(c, fetched, n) <==> Updated(c, fetched)[n] == c[n] && !Agree(fetched, n, c[n])
  {
    var base := c - Vanished(c, Ids(fetched));
    if Ambiguous(c, fetched, n) {
      var i, j :| 0 <= i < j && LastNamed(fetched, n, j) && fetched[j] == c[n]
                  && fetched[i].name == n && fetched[i] != c[n];
      PutsLast(base, fetched, n, j);
    }
    if Updated(c, fetched)[n] == c[n] && !Agree(fetched, n, c[n]) {
      var i :| 0 <= i < |fetched| && fetched[i].name == n && fetched[i] != c[n];
      var j := SomeLast(fetched, n, i);
      PutsLast(base, fetched, n, j);
      assert i < j;
    }
  }

  lemma ReplayDiff(c: Cache, fetched: seq<Service>, events: seq<Event>)
    requires IsDiff(c, fetched, events)
    ensures Replay(c, events) == Replay(c - Vanished(c, Ids(fetched)), Upserts(c, Ids(fetched), fetched))
  {
    var k := |Vanished(c, Ids(fetched))|;
    TakeDrop(events, k);
    ReplayAppend(c, events[..k], events[k..]);
    ReplayRemovals(c, c, events[..k]);
  }

  lemma MirrorAt(c: Cache, fetched: seq<Service>, events: seq<Event>, n: string)
    requires IsDiff(c, fetched, events)
    ensures n in Replay(c, events) <==> n in Updated(c, fetched)
    ensures n in Updated(c, fetched) ==>
              (Replay(c, events)[n] == Updated(c, fetched)[n] <==> !Ambiguous(c, fetched, n))
    ensures n !in Updated(c, fetched) ==> !Ambiguous(c, fetched, n)
  {
    ReplayDiff(c, fetched, events);
    UpsertsAgainstPuts(c, Ids(fetched), fetched, n);
    if n in Updated(c, fetched) && Survives(c, Ids(fetched), n) {
      AmbiguousIff(c, fetched, n);
    }
    hide Puts, Replay, Upserts, Agree, IsDiff;
  }

  /**
   One poll, exactly: a mirror equal to the cache stays equal, unless the fetched list repeats the name of a cached
   service, last in the cached version and before that in another.
   */
  lemma MirrorFollowsIff(c: Cache, fetched: seq<Service>, events: seq<Event>)
    requires IsDiff(c, fetched, events)
    ensures Replay(c, events) == Updated(c, fetched) <==> forall n :: !Ambiguous(c, fetched, n)
  {
    hide *;
    forall n: string
      ensures n in Replay(c, events) <==> n in Updated(c, fetched)
      ensures n in Updated(c, fetched) ==>
                (Replay(c, events)[n] == Updated(c, fetched)[n] <==> !Ambiguous(c, fetched, n))
      ensures n !in Updated(c, fetched) ==> !Ambiguous(c, fetched, n)
    {
      MirrorAt(c, fetched, events, n);
    }
  }

  predicate DistinctNames(fetched: seq<Service>) {
    forall i, j :: 0 <= i < j < |fetched| ==> fetched[i].name != fetched[j].name
  }

  /** The service last fetched under a name, if any: what the cache ends up holding. */
  lemma {:induction false} PutsAt(c: Cache, fetched: seq<Service>, n: string)
    ensures n in Puts(c, fetched) <==> n in c || n in Names(fetched)
    ensures n !in Names(fetched) && n in c ==> Puts(c, fetched)[n] == c[n]
    ensures n in Names(fetched) ==> Puts(c, fetched)[n] in fetched && Puts(c, fetched)[n].name == n
  {
    if fetched == [] {
    } else {
      var front, s := fetched[..|fetched| - 1], fetched[|fetched| - 1];
      PutsAt(c, front, n);
      assert forall i :: 0 <= i < |front| ==> front[i] == fetched[i];
      assert s.name in Names(fetched);
      if n in Names(front) {
        var i :| 0 <= i < |front| && front[i].name == n;
        assert fetched[i].name == n;
      }
      if n in Names(fetched) && n != s.name {
        var i :| 0 <= i < |fetched| && fetched[i].name == n;
        assert front[i].name == n;
      }
    }
  }

  lemma DistinctNeverAmbiguous(c: Cache, fetched: seq<Service>, n: string)
    requires DistinctNames(fetched)
    ensures !Ambiguous(c, fetched, n)
  {
  }

  lemma NeverAmbiguous(c: Cache, fetched: seq<Service>)
    requires DistinctNames(fetched)
    ensures forall n :: !Ambiguous(c, fetched, n)
  {
    forall n: string
      ensures !Ambiguous(c, fetched, n)
    {
      DistinctNeverAmbiguous(c, fetched, n);
    }
  }

  /** Polls in sequence, each diffed against what the one before left. */
  ghost predicate IsHistory(caches: seq<Cache>, fetches: seq<seq<Service>>, batches: seq<seq<Event>>) {
    && |caches| == |fetches| + 1 && |batches| == |fetches|
    && forall i :: 0 <= i < |fetches| ==>
                     IsDiff(caches[i], fetches[i], batches[i]) && caches[i + 1] == Updated(caches[i], fetches[i])
  }

  function Flatten(batches: seq<seq<Event>>): seq<Event> {
    if batches == [] then [] else Flatten(batches[..|batches| - 1]) + batches[|batches| - 1]
  }

  /** Over any sequence of polls, replaying the events in order turns the first cache into the last. */
  lemma {:induction false} MirrorFollows(caches: seq<Cache>, fetches: seq<seq<Service>>, batches: seq<seq<Event>>,
                                         n: nat)
    requires IsHistory(caches, fetches, batches) && n <= |fetches|
    requires forall i :: 0 <= i < |fetches| ==> DistinctNames(fetches[i])
    ensures Replay(caches[0], Flatten(batches[..n])) == caches[n]
  {
    if n == 0 {
    } else {
      MirrorFollows(caches, fetches, batches, n - 1);
      assert batches[..n][..n - 1] == batches[..n - 1];
      ReplayAppend(caches[0], Flatten(batches[..n - 1]), batches[n - 1]);
      NeverAmbiguous(caches[n - 1], fetches[n - 1]);
      MirrorFollowsIff(caches[n - 1], fetches[n - 1], batches[n - 1]);
    }
  }

  // ----- what a poll leaves ----------------------------------------------------------------------------

  lemma UpdatedKeyed(c: Cache, fetched: seq<Service>)
    requires Keyed(c)
    ensures Keyed(Updated(c, fetched))
  {
    forall n | n in Updated(c, fetched)
      ensures Updated(c, fetched)[n].name == n
    {
      PutsAt(c - Vanished(c, Ids(fetched)), fetched, n);
    }
  }

  /** Every cached id was fetched; a cached name that was not is the old name of a service now called otherwise. */
  lemma OnlyRenamesLinger(c: Cache, fetched: seq<Service>, n: string)
    requires n in Updated(c, fetched)
    ensures Updated(c, fetched)[n].id in Ids(fetched)
    ensures n !in Names(fetched) ==>
              && n in c && Updated(c, fetched)[n] == c[n]
              && exists i :: 0 <= i < |fetched| && fetched[i].id == c[n].id && fetched[i].name != n
  {
    var ids := Ids(fetched);
    PutsAt(c - Vanished(c, ids), fetched, n);
    if n in Names(fetched) {
      var i :| 0 <= i < |fetched| && fetched[i] == Updated(c, fetched)[n];
      assert fetched[i].id in ids;
    } else {
      assert c[n].id in ids;
      var i :| 0 <= i < |fetched| && fetched[i].id == c[n].id;
      assert fetched[i].name in Names(fetched);
    }
  }

  lemma {:induction false} UpsertsSilentIff(c: Cache, ids: set<string>, fetched: seq<Service>)
    ensures Upserts(c, ids, fetched) == [] <==>
            forall i :: 0 <= i < |fetched| ==> Upsert(c, ids, fetched[i]) == []
  {
    if fetched == [] {
    } else {
      var front := fetched[..|fetched| - 1];
      UpsertsSilentIff(c, ids, front);
      assert forall i :: 0 <= i < |front| ==> front[i] == fetched[i];
      if Upserts(c, ids, front) != [] {
        var i :| 0 <= i < |front| && Upsert(c, ids, front[i]) != [];
        assert Upsert(c, ids, fetched[i]) != [];
      }
    }
  }

  predicate OneVersionEach(fetched: seq<Service>) {
    forall i, j :: 0 <= i < |fetched| && 0 <= j < |fetched| ==>
                     fetched[i].name == fetched[j].name ==> fetched[i] == fetched[j]
  }

  lemma NothingVanishesTwice(c: Cache, fetched: seq<Service>)
    ensures Vanished(Updated(c, fetched), Ids(fetched)) == {}
  {
    forall n | n in Updated(c, fetched)
      ensures Updated(c, fetched)[n].id in Ids(fetched)
    {
      OnlyRenamesLinger(c, fetched, n);
    }
  }

  /** After a poll a fetched service raises no further event exactly when it is the version the cache kept. */
  lemma RepollAt(c: Cache, fetched: seq<Service>, i: nat)
    requires i < |fetched|
    ensures var n := fetched[i].name;
            var after := Updated(c, fetched);
            && n in after && after[n] in fetched && after[n].name == n
            && (Upsert(after, Ids(fetched), fetched[i]) == [] <==> after[n] == fetched[i])
  {
    assert fetched[i].name in Names(fetched);
    PutsAt(c - Vanished(c, Ids(fetched)), fetched, fetched[i].name);
    OnlyRenamesLinger(c, fetched, fetched[i].name);
  }

  lemma KeptEverywhereIff(c: Cache, fetched: seq<Service>)
    ensures (forall i :: 0 <= i < |fetched| ==> Upsert(Updated(c, fetched), Ids(fetched), fetched[i]) == []) <==>
            OneVersionEach(fetched)
  {
    var after := Updated(c, fetched);
    forall i | 0 <= i < |fetched|
      ensures fetched[i].name in after && after[fetched[i].name] in fetched
      ensures after[fetched[i].name].name == fetched[i].name
      ensures Upsert(after, Ids(fetched), fetched[i]) == [] <==> after[fetched[i].name] == fetched[i]
    {
      RepollAt(c, fetched, i);
    }
    if OneVersionEach(fetched) {
      forall i | 0 <= i < |fetched|
        ensures Upsert(after, Ids(fetched), fetched[i]) == []
      {
        var j :| 0 <= j < |fetched| && fetched[j] == after[fetched[i].name];
        assert fetched[i] == fetched[j];
      }
    }
  }

  /** Fetching the same list again is silent exactly when the list never gives one name two versions. */
  lemma RepollSilentIff(c: Cache, fetched: seq<Service>, events: seq<Event>)
    requires IsDiff(Updated(c, fetched), fetched, events)
    ensures events == [] <==> OneVersionEach(fetched)
  {
    NothingVanishesTwice(c, fetched);
    assert events[0..] == events;
    UpsertsSilentIff(Updated(c, fetched), Ids(fetched), fetched);
    KeptEverywhereIff(c, fetched);
  }

  // ----- the watcher -----------------------------------------------------------------------------------

  function RemovedNames(events: seq<Event>): set<string> {
    if events == [] then {}
    else RemovedNames(events[..|events| - 1])
         + (if events[|events| - 1].Removed? then {events[|events| - 1].service.name} else {})
  }

  lemma UpsertNotRemoval(c: Cache, ids: set<string>, s: Service)
    ensures var u := Upsert(c, ids, s); u == [] || (u == [u[0]] && !u[0].Removed?)
  {
  }

  lemma {:induction false} DiffRemoves(c: Cache, gone: seq<Event>, ids: set<string>, fetched: seq<Service>)
    requires Removals(c, gone)
    ensures RemovedNames(gone + Upserts(c, ids, fetched)) == NamesOf(gone)
  {
    if fetched == [] {
      Unit(gone);
      RemovalsRemove(c, gone);
    } else {
      hide Removals, NamesOf, Upsert, Ids, Vanished;
      var front, s := fetched[..|fetched| - 1], fetched[|fetched| - 1];
      DiffRemoves(c, gone, ids, front);
      var before := gone + Upserts(c, ids, front);
      var u := Upsert(c, ids, s);
      Assoc(gone, Upserts(c, ids, front), u);
      UpsertNotRemoval(c, ids, s);
      if u == [] {
        Unit(before);
      } else {
        Snoc(before, u[0]);
      }
    }
  }

  lemma {:induction false} RemovalsRemove(c: Cache, gone: seq<Event>)
    requires Removals(c, gone)
    ensures RemovedNames(gone) == NamesOf(gone)
  {
    if gone == [] {
    } else {
      var front := gone[..|gone| - 1];
      assert IsRemoval(c, gone[|gone| - 1]);
      assert forall i :: 0 <= i < |front| ==> front[i] == gone[i];
      RemovalsRemove(c, front);
    }
  }

  type Call = (int, Event)

  function Emit(e: Event, listeners: seq<int>): seq<Call> {
    if listeners == [] then [] else Emit(e, listeners[..|listeners| - 1]) + [(listeners[|listeners| - 1], e)]
  }

  /** Each event in turn, to every listener. */
  function FanOut(events: seq<Event>, listeners: seq<int>): seq<Call> {
    if events == [] then []
    else FanOut(events[..|events| - 1], listeners) + Emit(events[|events| - 1], listeners)
  }

  function Heard(calls: seq<Call>, listener: int): seq<Event> {
    if calls == [] then []
    else Heard(calls[..|calls| - 1], listener)
         + (if calls[|calls| - 1].0 == listener then [calls[|calls| - 1].1] else [])
  }

  predicate DistinctListeners(listeners: seq<int>) {
    forall i, j :: 0 <= i < j < |listeners| ==> listeners[i] != listeners[j]
  }

  lemma {:induction false} HeardAppend(a: seq<Call>, b: seq<Call>, listener: int)
    ensures Heard(a + b, listener) == Heard(a, listener) + Heard(b, listener)
  {
    if b == [] {
      Unit(a);
    } else {
      var front := b[..|b| - 1];
      HeardAppend(a, front, listener);
      assert (a + b)[..|a + b| - 1] == a + front;
      assert (a + b)[|a + b| - 1] == b[|b| - 1];
      Assoc(Heard(a, listener), Heard(front, listener),
            if b[|b| - 1].0 == listener then [b[|b| - 1].1] else []);
    }
  }

  lemma HeardOne(call: Call, listener: int)
    ensures Heard([call], listener) == if call.0 == listener then [call.1] else []
  {
    assert [call][..0] == [];
  }

  lemma InFront(listeners: seq<int>, listener: int)
    requires listeners != [] && DistinctListeners(listeners)
    ensures listener in listeners <==>
            listener in listeners[..|listeners| - 1] || listener == listeners[|listeners| - 1]
    ensures listeners[|listeners| - 1] !in listeners[..|listeners| - 1]
  {
    var front, last := listeners[..|listeners| - 1], listeners[|listeners| - 1];
    assert listeners == front + [last];
  }

  lemma {:induction false} HeardEmit(e: Event, listeners: seq<int>, listener: int)
    requires DistinctListeners(listeners)
    ensures Heard(Emit(e, listeners), listener) == if listener in listeners then [e] else []
  {
    if listeners == [] {
    } else {
      var front, last := listeners[..|listeners| - 1], listeners[|listeners| - 1];
      HeardEmit(e, front, listener);
      HeardAppend(Emit(e, front), [(last, e)], listener);
      HeardOne((last, e), listener);
      InFront(listeners, listener);
    }
  }

  /** Every registered listener hears every event once, in order; nobody else hears anything. */
  lemma {:induction false} EveryListenerHears(events: seq<Event>, listeners: seq<int>, listener: int)
    requires DistinctListeners(listeners)
    ensures Heard(FanOut(events, listeners), listener) == if listener in listeners then events else []
  {
    if events == [] {
    } else {
      hide Heard, Emit, DistinctListeners;
      var front, last := events[..|events| - 1], events[|events| - 1];
      EveryListenerHears(front, listeners, listener);
      HeardEmit(last, listeners, listener);
      HeardAppend(FanOut(front, listeners), Emit(last, listeners), listener);
      SplitLast(events);
      Unit<Event>([]);
    }
  }

  lemma {:induction false} EmitAt(e: Event, listeners: seq<int>, j: nat)
    requires j < |listeners|
    ensures |Emit(e, listeners)| == |listeners| && Emit(e, listeners)[j] == (listeners[j], e)
  {
    if |listeners| == 1 {
    } else {
      var n := |listeners| - 1;
      EmitAt(e, listeners[..n], if j < n then j else 0);
    }
  }

  /** Event by event, and for each event listener by listener: call number `i * |listeners| + j`. */
  lemma {:induction false} FanOutAt(events: seq<Event>, listeners: seq<int>, i: nat, j: nat)
    requires i < |events| && j < |listeners|
    ensures |FanOut(events, listeners)| == |events| * |listeners|
    ensures i * |listeners| + j < |events| * |listeners|
    ensures FanOut(events, listeners)[i * |listeners| + j] == (listeners[j], events[i])
  {
    hide Emit;
    var n, w := |events| - 1, |listeners|;
    EmitAt(events[n], listeners, j);
    RowBound(i, j, w, n + 1);
    if n == 0 {
      assert FanOut(events[..0], listeners) == [];
    } else {
      FanOutAt(events[..n], listeners, if i < n then i else 0, j);
      if i < n {
        RowBound(i, j, w, n);
      }
      RowEnd(n, w);
    }
  }

  lemma {:induction false} RowBound(i: nat, j: nat, w: nat, n: nat)
    requires i < n && j < w
    ensures i * w + j < n * w
  {
    RowEnd(n - 1, w);
    if n == i + 1 {
    } else {
      RowBound(i, j, w, n - 1);
    }
  }

  lemma RowEnd(n: nat, w: nat)
    ensures (n + 1) * w == n * w + w
  {
  }

  function FlattenCalls(batches: seq<seq<Event>>, rosters: seq<seq<int>>): seq<Call>
    requires |batches| == |rosters|
  {
    if batches == [] then []
    else FlattenCalls(batches[..|batches| - 1], rosters[..|rosters| - 1])
         + FanOut(batches[|batches| - 1], rosters[|rosters| - 1])
  }

  lemma {:induction false} HearsEverything(batches: seq<seq<Event>>, rosters: seq<seq<int>>, listener: int)
    requires |batches| == |rosters|
    requires forall i :: 0 <= i < |rosters| ==> DistinctListeners(rosters[i]) && listener in rosters[i]
    ensures Heard(FlattenCalls(batches, rosters), listener) == Flatten(batches)
  {
    if batches == [] {
    } else {
      var n := |batches| - 1;
      HearsEverything(batches[..n], rosters[..n], listener);
      EveryListenerHears(batches[n], rosters[n], listener);
      HeardAppend(FlattenCalls(batches[..n], rosters[..n]), FanOut(batches[n], rosters[n]), listener);
    }
  }

  /**
   A listener registered throughout, while others come and go, rebuilds the cache from its own calls alone: over any
   sequence of polls, through renames, name reuse and name swaps.
   */
  lemma ListenerMirrorsCache(caches: seq<Cache>, fetches: seq<seq<Service>>, batches: seq<seq<Event>>,
                             rosters: seq<seq<int>>, listener: int)
    requires IsHistory(caches, fetches, batches) && |rosters| == |batches|
    requires forall i :: 0 <= i < |fetches| ==> DistinctNames(fetches[i])
    requires forall i :: 0 <= i < |rosters| ==> DistinctListeners(rosters[i]) && listener in rosters[i]
    ensures Replay(caches[0], Heard(FlattenCalls(batches, rosters), listener)) == caches[|fetches|]
  {
    HearsEverything(batches, rosters, listener);
    MirrorFollows(caches, fetches, batches, |fetches|);
    assert batches[..|fetches|] == batches;
  }

  /** With one name fetched in two versions, the cached one last, the listener is told of the other and drifts. */
  lemma MirrorDrifts(id: string, name: string)
    ensures var held := Service(id, name, false, [], [], map[]);
            var other := held.(encryptionRequired := true);
            var c: Cache := map[name := held];
            && IsDiff(c, [other, held], [Changed(other)])
            && Updated(c, [other, held])[name] == held
            && Replay(c, [Changed(other)])[name] == other
  {
    var held := Service(id, name, false, [], [], map[]);
    var other := held.(encryptionRequired := true);
    var c: Cache := map[name := held];
    var ids := Ids([other, held]);
    assert [other, held][0].id in ids;
    assert Vanished(c, ids) == {};
    UpsertsSnoc(c, ids, [other, held], 0);
    UpsertsSnoc(c, ids, [other, held], 1);
    assert [other, held][..0] == [] && [other, held][..2] == [other, held];
    assert Upsert(c, ids, held) == [] && Upsert(c, ids, other) == [Changed(other)];
    assert [Changed(other)][..0] == [] && [Changed(other)][0..] == [Changed(other)];
  }

  /** The listeners but one, in the order they came. */
  function Without(listeners: seq<int>, id: int): seq<int> {
    if listeners == [] then []
    else
      var n := |listeners| - 1;
      Without(listeners[..n], id) + (if listeners[n] == id then [] else [listeners[n]])
  }

  lemma {:induction false} WithoutAt(listeners: seq<int>, id: int)
    ensures forall l :: l in Without(listeners, id) <==> l in listeners && l != id
    ensures |Without(listeners, id)| <= |listeners|
    ensures |Without(listeners, id)| == |listeners| <==> id !in listeners
    ensures DistinctListeners(listeners) ==> DistinctListeners(Without(listeners, id))
  {
    if listeners == [] {
    } else {
      var front, last := listeners[..|listeners| - 1], listeners[|listeners| - 1];
      WithoutAt(front, id);
      SplitLast(listeners);
      assert DistinctListeners(listeners) ==> DistinctListeners(front) && last !in front;
    }
  }

  /** The others keep their order: taking out one registered once joins what was before it and after it. */
  lemma WithoutJoins(xs: seq<int>, id: int, ys: seq<int>)
    requires id !in xs && id !in ys
    ensures Without(xs + [id] + ys, id) == xs + ys && Without(xs + ys, id) == xs + ys
  {
    WithoutAppend(xs + [id], ys, id);
    WithoutAppend(xs, [id], id);
    WithoutAppend(xs, ys, id);
    WithoutNone(xs, id);
    WithoutNone(ys, id);
    assert [id][..0] == [] && Without([id], id) == [];
    Unit(xs);
  }

  lemma {:induction false} WithoutAppend(xs: seq<int>, ys: seq<int>, id: int)
    ensures Without(xs + ys, id) == Without(xs, id) + Without(ys, id)
  {
    if ys == [] {
      Unit(xs);
      Unit(Without(xs, id));
    } else {
      var n := |ys| - 1;
      WithoutAppend(xs, ys[..n], id);
      assert (xs + ys)[..|xs + ys| - 1] == xs + ys[..n];
      Assoc(Without(xs, id), Without(ys[..n], id), if ys[n] == id then [] else [ys[n]]);
    }
  }

  lemma {:induction false} WithoutNone(xs: seq<int>, id: int)
    requires id !in xs
    ensures Without(xs, id) == xs
  {
    if xs == [] {
    } else {
      SplitLast(xs);
      WithoutNone(xs[..|xs| - 1], id);
    }
  }

  class ServiceWatcher {
    var cache: Cache
    var listeners: seq<int>
    var nextId: int
    /** The listener calls made so far. */
    var calls: seq<Call>

    ghost predicate Valid()
      reads this
    {
      && Keyed(cache) && DistinctListeners(listeners)
      && forall i :: 0 <= i < |listeners| ==> listeners[i] < nextId
    }

    constructor ()
      ensures Valid() && cache == map[] && listeners == [] && calls == []
    {
      cache, listeners, nextId, calls := map[], [], 0, [];
    }

    /** A handle no listener has or had. */
    method Add() returns (id: int)
      requires Valid()
      modifies this
      ensures Valid() && listeners == old(listeners) + [id] && id !in old(listeners) && nextId > id >= old(nextId)
      ensures cache == old(cache) && calls == old(calls)
    {
      id := nextId;
      nextId := nextId + 1;
      listeners := listeners + [id];
    }

    /** Drops that listener and keeps the others in the order they came. */
    method Remove(id: int) returns (removed: bool)
      requires Valid()
      modifies this
      ensures Valid() && listeners == Without(old(listeners), id) && removed == (id in old(listeners))
      ensures cache == old(cache) && calls == old(calls) && nextId == old(nextId)
    {
      var kept: seq<int> := [];
      var i := 0;
      while i < |listeners|
        invariant 0 <= i <= |listeners| && listeners == old(listeners)
        invariant cache == old(cache) && calls == old(calls) && nextId == old(nextId)
        invariant kept == Without(listeners[..i], id)
      {
        assert listeners[..i + 1][..i] == listeners[..i];
        if listeners[i] != id {
          kept := kept + [listeners[i]];
        }
        i := i + 1;
      }
      assert listeners[..|listeners|] == listeners;
      WithoutAt(listeners, id);
      removed := |kept| != |listeners|;
      forall k | 0 <= k < |kept|
        ensures kept[k] < nextId
      {
        assert kept[k] in kept;
      }
      listeners := kept;
    }

    /** `apply_cache_update`: removed names go first, then every fetched service is put, changed or not. */
    method Apply(fetched: seq<Service>, events: seq<Event>)
      modifies this`cache
      ensures cache == Puts(old(cache) - RemovedNames(events), fetched)
    {
      var i := 0;
      while i < |events|
        invariant 0 <= i <= |events| && cache == old(cache) - RemovedNames(events[..i])
      {
        assert events[..i + 1][..i] == events[..i];
        if events[i].Removed? {
          cache := cache - {events[i].service.name};
        }
        i := i + 1;
      }
      assert events[..|events|] == events;
      ghost var base := cache;
      i := 0;
      while i < |fetched|
        invariant 0 <= i <= |fetched| && cache == Puts(base, fetched[..i])
      {
        UpsertsSnoc(base, {}, fetched, i);
        cache := cache[fetched[i].name := fetched[i]];
        i := i + 1;
      }
      assert fetched[..|fetched|] == fetched;
    }

    method Notify(events: seq<Event>)
      modifies this`calls
      ensures calls == old(calls) + FanOut(events, listeners)
    {
      var i := 0;
      Unit(calls);
      while i < |events|
        invariant 0 <= i <= |events| && calls == old(calls) + FanOut(events[..i], listeners)
      {
        assert events[..i + 1][..i] == events[..i];
        ghost var before := calls;
        var j := 0;
        Unit(calls);
        while j < |listeners|
          invariant 0 <= j <= |listeners| && calls == before + Emit(events[i], listeners[..j])
        {
          assert listeners[..j + 1][..j] == listeners[..j];
          Assoc(before, Emit(events[i], listeners[..j]), [(listeners[j], events[i])]);
          calls := calls + [(listeners[j], events[i])];
          j := j + 1;
        }
        assert listeners[..|listeners|] == listeners;
        Assoc(old(calls), FanOut(events[..i], listeners), Emit(events[i], listeners));
        i := i + 1;
      }
      assert events[..|events|] == events;
    }

    /** `process`: one poll's diff, cache update and fan-out. */
    method Process(fetched: seq<Service>) returns (events: seq<Event>)
      requires Valid()
      modifies this
      ensures Valid() && listeners == old(listeners) && nextId == old(nextId)
      ensures IsDiff(old(cache), fetched, events)
      ensures cache == Updated(old(cache), fetched)
      ensures calls == old(calls) + FanOut(events, listeners)
    {
      events := DiffServices(cache, fetched);
      ghost var gone := |Vanished(cache, Ids(fetched))|;
      TakeDrop(events, gone);
      DiffRemoves(cache, events[..gone], Ids(fetched), fetched);
      UpdatedKeyed(cache, fetched);
      Apply(fetched, events);
      Unit(calls);
      if events != [] {
        Notify(events);
      }
    }
  }
}
